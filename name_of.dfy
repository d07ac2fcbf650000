/** Compile-time name extraction (`name_of_impl`, `type_name_v`, `nontype_name_v`) and the
    MSVC heuristics built on it (`is_struct_v`, `is_virtual_function_pointer_v`). The
    compiler's signature string (`__FUNCSIG__` or `__PRETTY_FUNCTION__`) is an input. The
    `std::string_view` arithmetic is on 64-bit `size_t` and wraps; that wrap-around is
    written out. */
module NameOf {
  import opened Types

  const SizeModulus: int := 0x1_0000_0000_0000_0000
  /** `std::string_view::npos`, `size_t(-1)`. */
  const NPos: int := SizeModulus - 1

  /** `k` occurs in `s` starting at position `i`. */
  predicate OccursAt(s: string, k: string, i: nat)
  {
    i + |k| <= |s| && s[i..i + |k|] == k
  }

  /** `s.find(k, pos)`: the first position at or after `pos` where `k` occurs, or `npos`. */
  function Find(s: string, k: string, pos: nat): (r: int)
    requires |s| < NPos
    ensures r == NPos || (pos <= r && OccursAt(s, k, r))
    ensures r == NPos <==> forall i :: pos <= i ==> !OccursAt(s, k, i)
    ensures r != NPos ==> forall i :: pos <= i < r ==> !OccursAt(s, k, i)
    decreases |s| - pos
  {
    if pos + |k| > |s| then NPos
    else if s[pos..pos + |k|] == k then pos
    else Find(s, k, pos + 1)
  }

  /** `s.substr(pos, count)`: out of range throws, which is not a constant expression, so the
      program is ill-formed (None); otherwise the count is clamped to what is left. */
  function Substr(s: string, pos: nat, count: nat): (r: Option<string>)
    ensures r.None? <==> pos > |s|
    ensures r.Some? ==> |r.value| == (if count < |s| - pos then count else |s| - pos)
    ensures r.Some? ==> r.value == s[pos..pos + |r.value|]
  {
    if pos > |s| then None
    else if count < |s| - pos then Some(s[pos..pos + count])
    else Some(s[pos..])
  }

  /** An integer in (-2^65, 2^65) reduced to `size_t`, i.e. modulo 2^64. */
  function WrapSize(v: int): (r: nat)
    requires -2 * SizeModulus < v < 2 * SizeModulus
    ensures r < SizeModulus
  {
    if v < -SizeModulus then v + 2 * SizeModulus
    else if v < 0 then v + SizeModulus
    else if v < SizeModulus then v
    else v - SizeModulus
  }

  /** WrapSize is reduction modulo 2^64. */
  lemma WrapSizeIsModulo(v: int)
    requires -2 * SizeModulus < v < 2 * SizeModulus
    ensures WrapSize(v) == v % SizeModulus
  {
  }

  /** `n.find(k) + k.size()`, in `size_t`: just past the first occurrence of the marker, or
      `k.size() - 1` when it is missing (an empty marker is never missing). */
  function NameStart(n: string, k: string): (p: nat)
    requires |n| < NPos && |k| < NPos
    ensures p < SizeModulus
    ensures Find(n, k, 0) != NPos ==> p == Find(n, k, 0) + |k|
    ensures Find(n, k, 0) == NPos ==> |k| > 0 && p == |k| - 1
  {
    assert OccursAt(n, [], 0);
    WrapSize(Find(n, k, 0) + |k|)
  }

  /** `name_of_impl`: `n.substr(p, n.size() - p - l.size())` with `p = n.find(k) + k.size()`.
      Whatever the inputs, the result is the slice from `p` that drops the last `|l|`
      characters when there are enough of them, the whole rest when the count wraps, and
      ill-formed when `p` is past the end. */
  function NameOfImpl(n: string, k: string, l: string): (r: Option<string>)
    requires |n| < NPos && |k| < NPos && |l| < NPos
    ensures var p := NameStart(n, k);
      && (p + |l| <= |n| ==> r == Some(n[p..|n| - |l|]))
      && (p <= |n| < p + |l| ==> r == Some(n[p..]))
      && (p > |n| ==> r.None?)
  {
    var p := NameStart(n, k);
    var count := WrapSize(|n| - p - |l|);
    Substr(n, p, count)
  }

  /** When the marker occurs and the suffix fits, the name is the text right after the first
      occurrence of the marker, minus the suffix. */
  lemma NameAfterMarker(n: string, k: string, l: string)
    requires |n| < NPos && |k| < NPos && |l| < NPos
    requires exists i :: OccursAt(n, k, i)
    requires Find(n, k, 0) + |k| + |l| <= |n|
    ensures var f := Find(n, k, 0);
      && OccursAt(n, k, f) && (forall i :: 0 <= i < f ==> !OccursAt(n, k, i))
      && NameOfImpl(n, k, l) == Some(n[f + |k|..|n| - |l|])
      && |NameOfImpl(n, k, l).value| == |n| - f - |k| - |l|
  {
  }

  /** A signature laid out as prefix, marker, name, suffix, with no earlier occurrence of the
      marker, yields exactly the name. */
  lemma NameOfLayout(a: string, k: string, x: string, l: string)
    requires |a + k + x + l| < NPos
    requires forall i :: 0 <= i < |a| ==> !OccursAt(a + k + x + l, k, i)
    ensures NameOfImpl(a + k + x + l, k, l) == Some(x)
  {
    var n := a + k + x + l;
    LayoutSlices(a, k, x, l);
    FindFirst(n, k, |a|);
  }

  /** The marker and the name sit at their offsets in the concatenation. */
  lemma LayoutSlices(a: string, k: string, x: string, l: string)
    ensures var n := a + k + x + l;
      OccursAt(n, k, |a|) && n[|a| + |k|..|n| - |l|] == x
  {
    var n := a + k + x + l;
    assert n == (a + k) + (x + l);
    assert (a + k)[|a|..] == k;
    assert (x + l)[..|x|] == x;
  }

  /** find returns the first occurrence. */
  lemma FindFirst(n: string, k: string, f: nat)
    requires |n| < NPos
    requires OccursAt(n, k, f) && forall i :: 0 <= i < f ==> !OccursAt(n, k, i)
    ensures Find(n, k, 0) == f
  {
    assert Find(n, k, 0) != NPos;
  }

  /** When the marker is missing, `npos + k.size()` wraps to `k.size() - 1`: the result is a
      slice of the string rather than an ill-formed program, unless the string is shorter
      than `k.size() - 1`. */
  lemma MissingMarkerWraps(n: string, k: string, l: string)
    requires |n| < NPos && |k| < NPos && |l| < NPos
    requires |k| > 0 && forall i :: !OccursAt(n, k, i)
    ensures |k| - 1 + |l| <= |n| ==> NameOfImpl(n, k, l) == Some(n[|k| - 1..|n| - |l|])
    ensures |k| - 1 <= |n| < |k| - 1 + |l| ==> NameOfImpl(n, k, l) == Some(n[|k| - 1..])
    ensures |n| < |k| - 1 ==> NameOfImpl(n, k, l).None?
  {
    assert NameStart(n, k) == |k| - 1;
  }

  datatype Compiler = Msvc | GccOrClang

  /** The markers around the name inside the signature string of `name_of_impl<T>` or
      `name_of_impl<V>`. */
  function Prefix(c: Compiler, ofType: bool): string
  {
    match c
    case Msvc => "name_of_impl<"
    case GccOrClang => if ofType then "[T = " else "[V = "
  }

  function Suffix(c: Compiler): string
  {
    match c
    case Msvc => ">(void) noexcept"
    case GccOrClang => "]"
  }

  /** `type_name_v<T>`, from the signature string of `name_of_impl<T>`. */
  function TypeName(c: Compiler, signature: string): Option<string>
    requires |signature| < NPos
  {
    NameOfImpl(signature, Prefix(c, true), Suffix(c))
  }

  /** `nontype_name_v<V>`, from the signature string of `name_of_impl<V>`. */
  function NontypeName(c: Compiler, signature: string): Option<string>
    requires |signature| < NPos
  {
    NameOfImpl(signature, Prefix(c, false), Suffix(c))
  }

  /** `type_name_v<T>` and `nontype_name_v<V>` are the text between the compiler's marker
      and its suffix, when the signature string renders as `a`, marker, name, suffix with no
      marker inside `a`. */
  lemma RenderedName(c: Compiler, ofType: bool, a: string, x: string)
    requires |a + Prefix(c, ofType) + x + Suffix(c)| < NPos
    requires forall i :: 0 <= i < |a| ==> !OccursAt(a + Prefix(c, ofType) + x + Suffix(c), Prefix(c, ofType), i)
    ensures var s := a + Prefix(c, ofType) + x + Suffix(c);
      (if ofType then TypeName(c, s) else NontypeName(c, s)) == Some(x)
  {
    NameOfLayout(a, Prefix(c, ofType), x, Suffix(c));
  }

  predicate StartsWith(s: string, prefix: string)
  {
    |prefix| <= |s| && s[..|prefix|] == prefix
  }

  const StructKeyword := "struct "
  const VcallMarker := "::`vcall'{"

  /** `is_struct_v<T>`: on MSVC, for a class type, whether its rendered name starts with
      `struct `; false everywhere else. None when the name itself is ill-formed. */
  function IsStruct(c: Compiler, isClass: bool, signature: string): Option<bool>
    requires |signature| < NPos
  {
    if c == Msvc && isClass then
      match TypeName(Msvc, signature)
      case Some(name) => Some(StartsWith(name, StructKeyword))
      case None => None
    else Some(false)
  }

  /** `is_virtual_function_pointer_v<T, f>` on MSVC: for a member function pointer, whether
      its rendered value contains the virtual-call thunk marker; false for any other `T`. */
  function IsVirtualFunctionPointerMsvc(isMemberFunctionPointer: bool, signature: string): Option<bool>
    requires |signature| < NPos
  {
    if isMemberFunctionPointer then
      match NontypeName(Msvc, signature)
      case Some(name) => Some(Find(name, VcallMarker, 0) != NPos)
      case None => None
    else Some(false)
  }

  /** On MSVC a class whose signature string renders its name as `x` is a struct exactly
      when `x` starts with `struct `; off MSVC, or for a non-class, `is_struct_v` is false. */
  lemma IsStructOnRendering(a: string, x: string, isClass: bool)
    requires |a + Prefix(Msvc, true) + x + Suffix(Msvc)| < NPos
    requires forall i :: 0 <= i < |a| ==> !OccursAt(a + Prefix(Msvc, true) + x + Suffix(Msvc), Prefix(Msvc, true), i)
    ensures IsStruct(Msvc, isClass, a + Prefix(Msvc, true) + x + Suffix(Msvc))
         == Some(isClass && StartsWith(x, StructKeyword))
    ensures forall s :: |s| < NPos ==> IsStruct(GccOrClang, isClass, s) == Some(false)
  {
    RenderedName(Msvc, true, a, x);
  }

  /** A member function pointer is reported virtual exactly when the marker `` ::`vcall'{ ``
      occurs somewhere in its rendered name. */
  lemma VirtualIffVcallMarker(signature: string)
    requires |signature| < NPos
    requires NontypeName(Msvc, signature).Some?
    ensures var name := NontypeName(Msvc, signature).value;
      IsVirtualFunctionPointerMsvc(true, signature) == Some(exists i :: OccursAt(name, VcallMarker, i))
    ensures IsVirtualFunctionPointerMsvc(false, signature) == Some(false)
  {
    var name := NontypeName(Msvc, signature).value;
    var f := Find(name, VcallMarker, 0);
    if f != NPos {
      assert OccursAt(name, VcallMarker, f);
    }
  }
}
