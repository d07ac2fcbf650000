/** `function_traits<F>`: decomposition of a callable type into its return type, its
    parameter pack and its qualifier facts. The header stamps out one partial
    specialisation per invocation of the macro `O_BUILD_FUNCTION_SIGNATURE(CVREF, NOEXCEPT)`
    (for the function type and for the matching member-function-pointer type); the model
    keeps those invocations as a literal table and looks the signature's qualifiers up in
    it, as partial-specialisation matching does. */
module FunctionTraits {
  import opened Types
  import opened Membership

  datatype RefQual = NoRef | LRef | RRef

  /** The qualifiers of a function type: `Ret(Args...) cv ref noexcept(b)`. */
  datatype Quals = Quals(cv: Cv, ref: RefQual, noexcept: bool)

  /** A token of the macro's CVREF argument. */
  datatype CvRefToken = ConstKw | VolatileKw | Amp | AmpAmp

  /** One invocation `O_BUILD_FUNCTION_SIGNATURE(CVREF, NOEXCEPT)`. */
  datatype Row = Row(cvref: seq<CvRefToken>, noexcept: bool)

  /** The 24 invocations, in the order they appear in the header. */
  const Rows: seq<Row> := [
    Row([], false), Row([ConstKw], false), Row([VolatileKw], false), Row([ConstKw, VolatileKw], false),
    Row([], true), Row([ConstKw], true), Row([VolatileKw], true), Row([ConstKw, VolatileKw], true),
    Row([Amp], false), Row([ConstKw, Amp], false), Row([VolatileKw, Amp], false),
    Row([ConstKw, VolatileKw, Amp], false),
    Row([Amp], true), Row([ConstKw, Amp], true), Row([VolatileKw, Amp], true),
    Row([ConstKw, VolatileKw, Amp], true),
    Row([AmpAmp], false), Row([ConstKw, AmpAmp], false), Row([VolatileKw, AmpAmp], false),
    Row([ConstKw, VolatileKw, AmpAmp], false),
    Row([AmpAmp], true), Row([ConstKw, AmpAmp], true), Row([VolatileKw, AmpAmp], true),
    Row([ConstKw, VolatileKw, AmpAmp], true)
  ]

  /** A CVREF argument: an optional `const`, an optional `volatile`, then nothing, `&`
      or `&&`. */
  function ParseCvRef(toks: seq<CvRefToken>): Option<(Cv, RefQual)>
  {
    var c := toks != [] && toks[0] == ConstKw;
    var afterConst := if c then toks[1..] else toks;
    var v := afterConst != [] && afterConst[0] == VolatileKw;
    var refToks := if v then afterConst[1..] else afterConst;
    if refToks == [] then Some((CvOf(c, v), NoRef))
    else if refToks == [Amp] then Some((CvOf(c, v), LRef))
    else if refToks == [AmpAmp] then Some((CvOf(c, v), RRef))
    else None
  }

  /** The qualifiers a row's specialisation matches. */
  function RowQuals(row: Row): Option<Quals>
  {
    match ParseCvRef(row.cvref)
    case Some((cv, ref)) => Some(Quals(cv, ref, row.noexcept))
    case None => None
  }

  /** The position of a qualifier combination in the header's enumeration order:
      cv varies fastest, then noexcept, then the reference qualifier. */
  function QualsIndex(q: Quals): (i: nat)
    ensures i < 24
  {
    var cv := match q.cv case NoCv => 0 case Const => 1 case Volatile => 2 case ConstVolatile => 3;
    var ne := if q.noexcept then 4 else 0;
    var ref := match q.ref case NoRef => 0 case LRef => 8 case RRef => 16;
    cv + ne + ref
  }

  /** Every qualifier combination has a specialisation, at the position QualsIndex gives. */
  lemma TableCoversAllQualifiers(q: Quals)
    ensures RowQuals(Rows[QualsIndex(q)]) == Some(q)
  {
    match q
    case Quals(_, NoRef, false) => TableCoversNoRefThrowing(q);
    case Quals(_, NoRef, true) => TableCoversNoRefNoexcept(q);
    case Quals(_, LRef, false) => TableCoversLRefThrowing(q);
    case Quals(_, LRef, true) => TableCoversLRefNoexcept(q);
    case Quals(_, RRef, false) => TableCoversRRefThrowing(q);
    case Quals(_, RRef, true) => TableCoversRRefNoexcept(q);
  }

  lemma TableCoversNoRefThrowing(q: Quals)
    requires q.ref == NoRef && q.noexcept == false
    ensures RowQuals(Rows[QualsIndex(q)]) == Some(q)
  {
    match q.cv
    case NoCv =>
      assert Rows[0] == Row([], false);
      assert ParseCvRef([]) == Some((NoCv, NoRef));
    case Const =>
      assert Rows[1] == Row([ConstKw], false);
      assert ParseCvRef([ConstKw]) == Some((Const, NoRef));
    case Volatile =>
      assert Rows[2] == Row([VolatileKw], false);
      assert ParseCvRef([VolatileKw]) == Some((Volatile, NoRef));
    case ConstVolatile =>
      assert Rows[3] == Row([ConstKw, VolatileKw], false);
      assert ParseCvRef([ConstKw, VolatileKw]) == Some((ConstVolatile, NoRef));
  }

  lemma TableCoversNoRefNoexcept(q: Quals)
    requires q.ref == NoRef && q.noexcept == true
    ensures RowQuals(Rows[QualsIndex(q)]) == Some(q)
  {
    match q.cv
    case NoCv =>
      assert Rows[4] == Row([], true);
      assert ParseCvRef([]) == Some((NoCv, NoRef));
    case Const =>
      assert Rows[5] == Row([ConstKw], true);
      assert ParseCvRef([ConstKw]) == Some((Const, NoRef));
    case Volatile =>
      assert Rows[6] == Row([VolatileKw], true);
      assert ParseCvRef([VolatileKw]) == Some((Volatile, NoRef));
    case ConstVolatile =>
      assert Rows[7] == Row([ConstKw, VolatileKw], true);
      assert ParseCvRef([ConstKw, VolatileKw]) == Some((ConstVolatile, NoRef));
  }

  lemma TableCoversLRefThrowing(q: Quals)
    requires q.ref == LRef && q.noexcept == false
    ensures RowQuals(Rows[QualsIndex(q)]) == Some(q)
  {
    match q.cv
    case NoCv =>
      assert Rows[8] == Row([Amp], false);
      assert ParseCvRef([Amp]) == Some((NoCv, LRef));
    case Const =>
      assert Rows[9] == Row([ConstKw, Amp], false);
      assert ParseCvRef([ConstKw, Amp]) == Some((Const, LRef));
    case Volatile =>
      assert Rows[10] == Row([VolatileKw, Amp], false);
      assert ParseCvRef([VolatileKw, Amp]) == Some((Volatile, LRef));
    case ConstVolatile =>
      assert Rows[11] == Row([ConstKw, VolatileKw, Amp], false);
      assert ParseCvRef([ConstKw, VolatileKw, Amp]) == Some((ConstVolatile, LRef));
  }

  lemma TableCoversLRefNoexcept(q: Quals)
    requires q.ref == LRef && q.noexcept == true
    ensures RowQuals(Rows[QualsIndex(q)]) == Some(q)
  {
    match q.cv
    case NoCv =>
      assert Rows[12] == Row([Amp], true);
      assert ParseCvRef([Amp]) == Some((NoCv, LRef));
    case Const =>
      assert Rows[13] == Row([ConstKw, Amp], true);
      assert ParseCvRef([ConstKw, Amp]) == Some((Const, LRef));
    case Volatile =>
      assert Rows[14] == Row([VolatileKw, Amp], true);
      assert ParseCvRef([VolatileKw, Amp]) == Some((Volatile, LRef));
    case ConstVolatile =>
      assert Rows[15] == Row([ConstKw, VolatileKw, Amp], true);
      assert ParseCvRef([ConstKw, VolatileKw, Amp]) == Some((ConstVolatile, LRef));
  }

  lemma TableCoversRRefThrowing(q: Quals)
    requires q.ref == RRef && q.noexcept == false
    ensures RowQuals(Rows[QualsIndex(q)]) == Some(q)
  {
    match q.cv
    case NoCv =>
      assert Rows[16] == Row([AmpAmp], false);
      assert ParseCvRef([AmpAmp]) == Some((NoCv, RRef));
    case Const =>
      assert Rows[17] == Row([ConstKw, AmpAmp], false);
      assert ParseCvRef([ConstKw, AmpAmp]) == Some((Const, RRef));
    case Volatile =>
      assert Rows[18] == Row([VolatileKw, AmpAmp], false);
      assert ParseCvRef([VolatileKw, AmpAmp]) == Some((Volatile, RRef));
    case ConstVolatile =>
      assert Rows[19] == Row([ConstKw, VolatileKw, AmpAmp], false);
      assert ParseCvRef([ConstKw, VolatileKw, AmpAmp]) == Some((ConstVolatile, RRef));
  }

  lemma TableCoversRRefNoexcept(q: Quals)
    requires q.ref == RRef && q.noexcept == true
    ensures RowQuals(Rows[QualsIndex(q)]) == Some(q)
  {
    match q.cv
    case NoCv =>
      assert Rows[20] == Row([AmpAmp], true);
      assert ParseCvRef([AmpAmp]) == Some((NoCv, RRef));
    case Const =>
      assert Rows[21] == Row([ConstKw, AmpAmp], true);
      assert ParseCvRef([ConstKw, AmpAmp]) == Some((Const, RRef));
    case Volatile =>
      assert Rows[22] == Row([VolatileKw, AmpAmp], true);
      assert ParseCvRef([VolatileKw, AmpAmp]) == Some((Volatile, RRef));
    case ConstVolatile =>
      assert Rows[23] == Row([ConstKw, VolatileKw, AmpAmp], true);
      assert ParseCvRef([ConstKw, VolatileKw, AmpAmp]) == Some((ConstVolatile, RRef));
  }

  /** Each row's specialisation matches the qualifiers at its own position, so no two rows
      match the same qualifiers. */
  lemma RowMatchesItsIndex(i: nat)
    requires i < |Rows|
    ensures RowQuals(Rows[i]).Some? && QualsIndex(RowQuals(Rows[i]).value) == i
  {
    if i == 0 {
      TableCoversAllQualifiers(Quals(NoCv, NoRef, false));
    } else if i == 1 {
      TableCoversAllQualifiers(Quals(Const, NoRef, false));
    } else if i == 2 {
      TableCoversAllQualifiers(Quals(Volatile, NoRef, false));
    } else if i == 3 {
      TableCoversAllQualifiers(Quals(ConstVolatile, NoRef, false));
    } else if i == 4 {
      TableCoversAllQualifiers(Quals(NoCv, NoRef, true));
    } else if i == 5 {
      TableCoversAllQualifiers(Quals(Const, NoRef, true));
    } else if i == 6 {
      TableCoversAllQualifiers(Quals(Volatile, NoRef, true));
    } else if i == 7 {
      TableCoversAllQualifiers(Quals(ConstVolatile, NoRef, true));
    } else if i == 8 {
      TableCoversAllQualifiers(Quals(NoCv, LRef, false));
    } else if i == 9 {
      TableCoversAllQualifiers(Quals(Const, LRef, false));
    } else if i == 10 {
      TableCoversAllQualifiers(Quals(Volatile, LRef, false));
    } else if i == 11 {
      TableCoversAllQualifiers(Quals(ConstVolatile, LRef, false));
    } else if i == 12 {
      TableCoversAllQualifiers(Quals(NoCv, LRef, true));
    } else if i == 13 {
      TableCoversAllQualifiers(Quals(Const, LRef, true));
    } else if i == 14 {
      TableCoversAllQualifiers(Quals(Volatile, LRef, true));
    } else if i == 15 {
      TableCoversAllQualifiers(Quals(ConstVolatile, LRef, true));
    } else if i == 16 {
      TableCoversAllQualifiers(Quals(NoCv, RRef, false));
    } else if i == 17 {
      TableCoversAllQualifiers(Quals(Const, RRef, false));
    } else if i == 18 {
      TableCoversAllQualifiers(Quals(Volatile, RRef, false));
    } else if i == 19 {
      TableCoversAllQualifiers(Quals(ConstVolatile, RRef, false));
    } else if i == 20 {
      TableCoversAllQualifiers(Quals(NoCv, RRef, true));
    } else if i == 21 {
      TableCoversAllQualifiers(Quals(Const, RRef, true));
    } else if i == 22 {
      TableCoversAllQualifiers(Quals(Volatile, RRef, true));
    } else if i == 23 {
      TableCoversAllQualifiers(Quals(ConstVolatile, RRef, true));
    }
  }

  /** The header's table has exactly 24 rows, pairwise distinct, and every qualifier
      combination is one of them. */
  lemma TableIsExhaustiveAndDistinct()
    ensures |Rows| == 24
    ensures forall i, j :: 0 <= i < j < |Rows| ==> RowQuals(Rows[i]) != RowQuals(Rows[j])
    ensures forall q :: QualsIndex(q) < |Rows| && RowQuals(Rows[QualsIndex(q)]) == Some(q)
  {
    forall i, j | 0 <= i < j < |Rows|
      ensures RowQuals(Rows[i]) != RowQuals(Rows[j])
    {
      RowMatchesItsIndex(i);
      RowMatchesItsIndex(j);
    }
    forall q
      ensures QualsIndex(q) < |Rows| && RowQuals(Rows[QualsIndex(q)]) == Some(q)
    {
      TableCoversAllQualifiers(q);
    }
  }

  /** Partial-specialisation matching: the first row, from position `from` on, whose
      qualifiers are `q`. */
  function MatchRow(q: Quals, from: nat): (r: Option<nat>)
    requires from <= |Rows|
    ensures r.Some? ==> from <= r.value < |Rows| && RowQuals(Rows[r.value]) == Some(q)
    ensures r.None? <==> forall i :: from <= i < |Rows| ==> RowQuals(Rows[i]) != Some(q)
    decreases |Rows| - from
  {
    if from == |Rows| then None
    else if RowQuals(Rows[from]) == Some(q) then Some(from)
    else MatchRow(q, from + 1)
  }

  /** Every function type matches exactly one specialisation: the one at QualsIndex. */
  lemma MatchRowIsUnique(q: Quals)
    ensures MatchRow(q, 0) == Some(QualsIndex(q))
  {
    TableCoversAllQualifiers(q);
    var i := MatchRow(q, 0).value;
    RowMatchesItsIndex(i);
  }

  /** `T CVREF`: a type with a reference qualifier on top of its cv-qualification. */
  datatype QualifiedTy = QualifiedTy(ty: Ty, ref: RefQual)

  /** The alias `cvref<T> = T CVREF` for the tokens of one row, for an object type `T`
      (the cv dropped on a reference or function type and reference collapsing are not
      modelled). */
  function ApplyCvRef(t: Ty, cvref: seq<CvRefToken>): Option<QualifiedTy>
  {
    match ParseCvRef(cvref)
    case Some((cv, ref)) => Some(QualifiedTy(Ty(JoinCv(t.cv, cv), t.base), ref))
    case None => None
  }

  /** `std::is_const_v`: a reference type is never const-qualified itself. */
  predicate StdIsConst(q: QualifiedTy) { q.ref == NoRef && q.ty.cv.HasConst() }
  /** `std::is_volatile_v`: a reference type is never volatile-qualified itself. */
  predicate StdIsVolatile(q: QualifiedTy) { q.ref == NoRef && q.ty.cv.HasVolatile() }
  predicate StdIsReference(q: QualifiedTy) { q.ref != NoRef }
  predicate StdIsLvalueReference(q: QualifiedTy) { q.ref == LRef }
  predicate StdIsRvalueReference(q: QualifiedTy) { q.ref == RRef }

  const Int := Ty(NoCv, Named("int"))

  /** The plain function type `Ret(Args...) cv ref noexcept(b)`. */
  datatype Signature = Signature(ret: Ty, params: seq<Ty>, quals: Quals)

  /** The members of one `function_traits` specialisation. */
  datatype Traits = Traits(
    returnType: Ty,
    parameters: seq<Ty>,
    cvref: seq<CvRefToken>,
    isNoexcept: bool,
    isConst: bool,
    isVolatile: bool,
    isReference: bool,
    isLvalueReference: bool,
    isRvalueReference: bool,
    thisType: Option<Ty>)
  {
    /** `function_type`: the unqualified `Ret(Args...)`. */
    function FunctionType(): Signature
    {
      Signature(returnType, parameters, Quals(NoCv, NoRef, false))
    }

    /** `cvref<T>`. */
    function CvRef(t: Ty): Option<QualifiedTy>
    {
      ApplyCvRef(t, cvref)
    }

    /** `parameters<Z>` = `Z<Args...>`. */
    function Parameters(z: TemplateName): Ty
    {
      Ty(NoCv, Instance(z, parameters))
    }
  }

  /** The specialisation stamped out by one row, for a given return type and pack. The flags
      are the standard traits applied to `cvref<int>`. */
  function Specialization(row: Row, ret: Ty, params: seq<Ty>): Option<Traits>
  {
    match ApplyCvRef(Int, row.cvref)
    case Some(ci) =>
      Some(Traits(ret, params, row.cvref, row.noexcept,
                  StdIsConst(ci), StdIsVolatile(ci), StdIsReference(ci),
                  StdIsLvalueReference(ci), StdIsRvalueReference(ci), None))
    case None => None
  }

  /** `function_traits<Ret(Args...) CVREF noexcept(NOEXCEPT)>`. */
  function FunctionTypeTraits(sig: Signature): Option<Traits>
  {
    match MatchRow(sig.quals, 0)
    case Some(i) => Specialization(Rows[i], sig.ret, sig.params)
    case None => None
  }

  /** A member function as `&F::operator()` names it: its class and its signature. */
  datatype MemberFunction = MemberFunction(cls: Ty, sig: Signature)

  /** The shapes of `F` that `function_traits<F>` distinguishes. */
  datatype CallableType =
    | FunctionTy(sig: Signature)                                 // Ret(Args...) cv ref noexcept(b)
    | FunctionPtr(ret: Ty, params: seq<Ty>, ptrNoexcept: bool)  // Ret(*)(Args...) noexcept(b)
    | MemberFunctionPtr(cls: Ty, sig: Signature)                 // Ret (Cls::*)(Args...) cv ref noexcept(b)
    | OtherTy(callOperator: Option<MemberFunction>)              // any other F, with &F::operator() if well-formed

  function Rank(f: CallableType): nat
  {
    match f
    case OtherTy(_) => 2
    case FunctionPtr(_, _, _) => 1
    case _ => 0
  }

  /** `function_traits<F>`; None where the instantiation is ill-formed. A `noexcept` function
      pointer does not match `Ret (*)(Args...)` and falls to the primary template, which
      needs `&F::operator()`. */
  function FunctionTraitsOf(f: CallableType): Option<Traits>
    decreases Rank(f)
  {
    match f
    case FunctionTy(sig) => FunctionTypeTraits(sig)
    case FunctionPtr(ret, params, ptrNoexcept) =>
      if ptrNoexcept then None
      else FunctionTraitsOf(FunctionTy(Signature(ret, params, Quals(NoCv, NoRef, false))))
    case MemberFunctionPtr(cls, sig) =>
      (match FunctionTypeTraits(sig)
       case Some(t) => Some(t.(thisType := Some(cls)))
       case None => None)
    case OtherTy(op) =>
      (match op
       case Some(m) => FunctionTraitsOf(MemberFunctionPtr(m.cls, m.sig))
       case None => None)
  }

  /** The traits of every function type: `function_type` drops the qualifiers and keeps
      the return type and pack; `is_noexcept` is the noexcept flag;
      `is_reference` holds exactly for `&` and `&&`, split into lvalue and rvalue; `is_const`
      and `is_volatile` hold only when there is no reference qualifier. */
  lemma {:induction false} QualifierFlags(sig: Signature)
    ensures FunctionTypeTraits(sig).Some?
    ensures var t := FunctionTypeTraits(sig).value;
      && t.returnType == sig.ret && t.parameters == sig.params && t.thisType.None?
      && t.FunctionType() == Signature(sig.ret, sig.params, Quals(NoCv, NoRef, false))
      && t.isNoexcept == sig.quals.noexcept
      && (t.isReference <==> sig.quals.ref != NoRef)
      && (t.isLvalueReference <==> sig.quals.ref == LRef)
      && (t.isRvalueReference <==> sig.quals.ref == RRef)
      && !(t.isLvalueReference && t.isRvalueReference)
      && (t.isConst <==> sig.quals.ref == NoRef && sig.quals.cv.HasConst())
      && (t.isVolatile <==> sig.quals.ref == NoRef && sig.quals.cv.HasVolatile())
  {
    MatchRowIsUnique(sig.quals);
    TableCoversAllQualifiers(sig.quals);
  }

  /** The CVREF argument of a specialisation is determined by the qualifiers it matches. */
  lemma CvRefTokensDetermined(a: seq<CvRefToken>, b: seq<CvRefToken>)
    requires ParseCvRef(a).Some? && ParseCvRef(a) == ParseCvRef(b)
    ensures a == b
  {
    var ca := a != [] && a[0] == ConstKw;
    var cb := b != [] && b[0] == ConstKw;
    var a1 := if ca then a[1..] else a;
    var b1 := if cb then b[1..] else b;
    var va := a1 != [] && a1[0] == VolatileKw;
    var vb := b1 != [] && b1[0] == VolatileKw;
    var a2 := if va then a1[1..] else a1;
    var b2 := if vb then b1[1..] else b1;
    assert CvOf(ca, va) == CvOf(cb, vb);
    assert ca == cb && va == vb;
    assert a2 == b2;
    assert a1 == (if va then [VolatileKw] + a2 else a2);
    assert b1 == (if vb then [VolatileKw] + b2 else b2);
    assert a == (if ca then [ConstKw] + a1 else a1);
    assert b == (if cb then [ConstKw] + b1 else b1);
  }

  /** Changing only the exception specification of a function type, or of a member function
      pointer, flips only `is_noexcept`. */
  lemma NoexceptFlipsOnlyNoexcept(sig: Signature, cls: Ty)
    ensures FunctionTypeTraits(sig).Some?
    ensures var flipped := sig.(quals := sig.quals.(noexcept := !sig.quals.noexcept));
      && FunctionTypeTraits(flipped).Some?
      && FunctionTypeTraits(flipped).value
         == FunctionTypeTraits(sig).value.(isNoexcept := !FunctionTypeTraits(sig).value.isNoexcept)
    ensures var flipped := sig.(quals := sig.quals.(noexcept := !sig.quals.noexcept));
      && FunctionTraitsOf(MemberFunctionPtr(cls, sig)).Some?
      && FunctionTraitsOf(MemberFunctionPtr(cls, flipped))
         == Some(FunctionTraitsOf(MemberFunctionPtr(cls, sig)).value.(isNoexcept := !sig.quals.noexcept))
  {
    var flipped := sig.(quals := sig.quals.(noexcept := !sig.quals.noexcept));
    QualifierFlags(sig);
    QualifierFlags(flipped);
    MatchRowIsUnique(sig.quals);
    MatchRowIsUnique(flipped.quals);
    TableCoversAllQualifiers(sig.quals);
    TableCoversAllQualifiers(flipped.quals);
    CvRefTokensDetermined(Rows[QualsIndex(sig.quals)].cvref, Rows[QualsIndex(flipped.quals)].cvref);
    MemberPointerDelegation(cls, sig);
    MemberPointerDelegation(cls, flipped);
  }

  /** `function_traits<Ret (*)(Args...)>` inherits the traits of `Ret(Args...)`: the
      return type and pack, no qualifier flags and no `this_type`; a `noexcept` function
      pointer does not match it and has no traits. */
  lemma FunctionPointerDelegation(ret: Ty, params: seq<Ty>)
    ensures FunctionTraitsOf(FunctionPtr(ret, params, false)).Some?
    ensures var t := FunctionTraitsOf(FunctionPtr(ret, params, false)).value;
      && t.returnType == ret && t.parameters == params && t.thisType.None?
      && t.cvref == []
      && !t.isNoexcept && !t.isConst && !t.isVolatile
      && !t.isReference && !t.isLvalueReference && !t.isRvalueReference
    ensures FunctionTraitsOf(FunctionPtr(ret, params, true)).None?
  {
    QualifierFlags(Signature(ret, params, Quals(NoCv, NoRef, false)));
  }

  /** A member function pointer has the traits of its function type plus `this_type`. */
  lemma MemberPointerDelegation(cls: Ty, sig: Signature)
    ensures FunctionTypeTraits(sig).Some?
    ensures FunctionTraitsOf(MemberFunctionPtr(cls, sig))
         == Some(FunctionTypeTraits(sig).value.(thisType := Some(cls)))
  {
    QualifierFlags(sig);
  }

  /** Any other type has the traits of the function type of `&F::operator()` with
      `this_type` set to its class, or none when `&F::operator()` is ill-formed. */
  lemma FunctorDelegation(op: Option<MemberFunction>)
    ensures op.None? ==> FunctionTraitsOf(OtherTy(op)).None?
    ensures op.Some? ==> FunctionTypeTraits(op.value.sig).Some?
    ensures op.Some? ==>
      FunctionTraitsOf(OtherTy(op))
      == Some(FunctionTypeTraits(op.value.sig).value.(thisType := Some(op.value.cls)))
  {
    if op.Some? {
      MemberPointerDelegation(op.value.cls, op.value.sig);
    }
  }

  /** The function type and the enclosing class that a callable type denotes, when it is one
      of the shapes `function_traits` accepts. */
  function Denoted(f: CallableType): Option<(Signature, Option<Ty>)>
  {
    match f
    case FunctionTy(sig) => Some((sig, None))
    case FunctionPtr(ret, params, ptrNoexcept) =>
      if ptrNoexcept then None else Some((Signature(ret, params, Quals(NoCv, NoRef, false)), None))
    case MemberFunctionPtr(cls, sig) => Some((sig, Some(cls)))
    case OtherTy(op) => if op.Some? then Some((op.value.sig, Some(op.value.cls))) else None
  }

  /** For every callable type: the traits exist exactly when it denotes a function type, and
      then they carry that function's return type, pack and qualifier flags, and `this_type`
      is the enclosing class if there is one. */
  lemma CallableTraits(f: CallableType)
    ensures FunctionTraitsOf(f).Some? <==> Denoted(f).Some?
    ensures FunctionTraitsOf(f).Some? ==>
      var t := FunctionTraitsOf(f).value;
      var (sig, cls) := Denoted(f).value;
      && t.returnType == sig.ret && t.parameters == sig.params && t.thisType == cls
      && t.isNoexcept == sig.quals.noexcept
      && (t.isLvalueReference <==> sig.quals.ref == LRef)
      && (t.isRvalueReference <==> sig.quals.ref == RRef)
      && (t.isReference <==> sig.quals.ref != NoRef)
      && (t.isConst <==> sig.quals.ref == NoRef && sig.quals.cv.HasConst())
      && (t.isVolatile <==> sig.quals.ref == NoRef && sig.quals.cv.HasVolatile())
  {
    match f
    case FunctionTy(sig) => QualifierFlags(sig);
    case FunctionPtr(ret, params, _) => QualifierFlags(Signature(ret, params, Quals(NoCv, NoRef, false)));
    case MemberFunctionPtr(_, sig) => QualifierFlags(sig);
    case OtherTy(op) => if op.Some? { QualifierFlags(op.value.sig); }
  }

  /** `parameters<Z>` is a specialisation of `Z` holding every parameter type. */
  lemma ParametersInstance(t: Traits, z: TemplateName)
    ensures IsSpecializationOf(t.Parameters(z), z)
    ensures forall p :: IsWithinVariadic(p, t.Parameters(z)) <==> p in t.parameters
  {
  }

  /** `cvref<T>` puts the function's own cv and reference qualifiers on `T`. */
  lemma CvRefAppliesQualifiers(sig: Signature, t: Ty)
    ensures FunctionTypeTraits(sig).Some?
    ensures FunctionTypeTraits(sig).value.CvRef(t)
         == Some(QualifiedTy(Ty(JoinCv(t.cv, sig.quals.cv), t.base), sig.quals.ref))
  {
    QualifierFlags(sig);
    MatchRowIsUnique(sig.quals);
    TableCoversAllQualifiers(sig.quals);
  }
}
