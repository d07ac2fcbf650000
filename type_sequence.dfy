/** Type-sequence algebra over a parameter pack `Ts...`, modelled as `seq<Ty>`:
    `get_type_t` (indexed lookup), `max_type` (largest by `sizeof`) and `index_of`
    (position of the first exact match). Each is ill-formed outside its precondition,
    so the preconditions below are what the C++ compiler demands of callers. */
module TypeSequence {
  import opened Types

  /** `get_type<N, T, Ts...>`: drop the head N times, then take the head. */
  function GetType(n: nat, ts: seq<Ty>): (r: Ty)
    requires n < |ts|
    ensures r == ts[n]
  {
    if n == 0 then ts[0] else GetType(n - 1, ts[1..])
  }

  /** `max_type<T, U>`: `sizeof(T) < sizeof(U) ? U : T`, so a tie keeps the left type. */
  function Max2(sizeOf: Ty -> nat, t: Ty, u: Ty): (r: Ty)
    ensures r == t || r == u
    ensures sizeOf(t) <= sizeOf(r) && sizeOf(u) <= sizeOf(r)
    ensures sizeOf(t) == sizeOf(u) ==> r == t
  {
    if sizeOf(t) < sizeOf(u) then u else t
  }

  /** `r` is the earliest element of `ts` of the largest size: it occurs in `ts`, nothing in
      `ts` is larger, and every type before its first occurrence is strictly smaller. */
  ghost predicate EarliestLargest(sizeOf: Ty -> nat, ts: seq<Ty>, r: Ty)
  {
    && r in ts
    && (forall j :: 0 <= j < |ts| ==> sizeOf(ts[j]) <= sizeOf(r))
    && (forall j :: 0 <= j < IndexOf(r, ts) ==> sizeOf(ts[j]) < sizeOf(r))
  }

  /** `max_type<T, U, Ts...>` = `max_type<T, max_type<U, Ts...>>`: a right fold of Max2. */
  function MaxType(sizeOf: Ty -> nat, ts: seq<Ty>): (r: Ty)
    requires |ts| >= 2
    ensures EarliestLargest(sizeOf, ts, r)
    decreases |ts|
  {
    if |ts| == 2 then
      Max2(sizeOf, ts[0], ts[1])
    else
      var m := MaxType(sizeOf, ts[1..]);
      assert sizeOf(ts[0]) < sizeOf(m) ==> IndexOf(m, ts) == 1 + IndexOf(m, ts[1..]);
      Max2(sizeOf, ts[0], m)
  }

  /** At most one element of a sequence is its earliest largest. */
  lemma EarliestLargestUnique(sizeOf: Ty -> nat, ts: seq<Ty>, r1: Ty, r2: Ty)
    requires EarliestLargest(sizeOf, ts, r1) && EarliestLargest(sizeOf, ts, r2)
    ensures r1 == r2
  {
    var i1, i2 := IndexOf(r1, ts), IndexOf(r2, ts);
    assert sizeOf(r1) == sizeOf(r2);
  }

  /** The left-to-right reduction whose accumulator is replaced only by a strictly larger
      type: `max_type` read as a pairwise left-to-right reduction. */
  function MaxLeftFold(sizeOf: Ty -> nat, acc: Ty, ts: seq<Ty>): Ty
    decreases |ts|
  {
    if ts == [] then acc else MaxLeftFold(sizeOf, Max2(sizeOf, acc, ts[0]), ts[1..])
  }

  /** Keeping the left operand on ties makes Max2 associative. */
  lemma Max2Associative(sizeOf: Ty -> nat, a: Ty, b: Ty, c: Ty)
    ensures Max2(sizeOf, a, Max2(sizeOf, b, c)) == Max2(sizeOf, Max2(sizeOf, a, b), c)
  {
  }

  /** A left fold can be regrouped to fold the tail first. */
  lemma {:induction false} MaxLeftFoldRegroup(sizeOf: Ty -> nat, acc: Ty, ts: seq<Ty>)
    requires ts != []
    ensures MaxLeftFold(sizeOf, acc, ts) == Max2(sizeOf, acc, MaxLeftFold(sizeOf, ts[0], ts[1..]))
    decreases |ts|
  {
    if |ts| > 1 {
      var rest := ts[1..];
      MaxLeftFoldRegroup(sizeOf, Max2(sizeOf, acc, ts[0]), rest);
      MaxLeftFoldRegroup(sizeOf, ts[0], rest);
      Max2Associative(sizeOf, acc, ts[0], MaxLeftFold(sizeOf, rest[0], rest[1..]));
    }
  }

  /** The right fold of the source and the left-to-right reduction pick the same type. */
  lemma {:induction false} MaxTypeAgreesWithLeftFold(sizeOf: Ty -> nat, ts: seq<Ty>)
    requires |ts| >= 2
    ensures MaxType(sizeOf, ts) == MaxLeftFold(sizeOf, ts[0], ts[1..])
    decreases |ts|
  {
    if |ts| > 2 {
      MaxTypeAgreesWithLeftFold(sizeOf, ts[1..]);
      MaxLeftFoldRegroup(sizeOf, ts[0], ts[1..]);
    }
  }

  /** `max_type` of two types of equal size is the left one; of a smaller and a larger it is
      the larger. */
  lemma MaxTypeOfTwo(sizeOf: Ty -> nat, a: Ty, b: Ty)
    ensures sizeOf(a) == sizeOf(b) ==> MaxType(sizeOf, [a, b]) == a
    ensures sizeOf(a) < sizeOf(b) ==> MaxType(sizeOf, [a, b]) == b
    ensures sizeOf(b) < sizeOf(a) ==> MaxType(sizeOf, [a, b]) == a
  {
  }

  /** `index_of<T, T, Ts...>` is 0; `index_of<T, U, Ts...>` is `1 + index_of<T, Ts...>`. */
  function IndexOf(t: Ty, ts: seq<Ty>): (r: nat)
    requires t in ts
    ensures r < |ts| && ts[r] == t
    ensures t !in ts[..r]
  {
    if ts[0] == t then
      0
    else
      var k := IndexOf(t, ts[1..]);
      assert ts[..k + 1] == [ts[0]] + ts[1..][..k];
      1 + k
  }

  /** get_type after index_of gives back the type; index_of after get_type gives back the
      index exactly when the type does not already occur earlier, and an earlier index
      otherwise. */
  lemma IndexOfGetType(i: nat, ts: seq<Ty>)
    requires i < |ts|
    ensures GetType(IndexOf(ts[i], ts), ts) == ts[i]
    ensures IndexOf(GetType(i, ts), ts) <= i
    ensures IndexOf(GetType(i, ts), ts) == i <==> ts[i] !in ts[..i]
  {
  }

  /** In a sequence without repeated types index_of and get_type are inverse. */
  lemma IndexOfGetTypeDistinct(ts: seq<Ty>)
    requires forall i, j :: 0 <= i < j < |ts| ==> ts[i] != ts[j]
    ensures forall i :: 0 <= i < |ts| ==> IndexOf(GetType(i, ts), ts) == i
  {
    forall i | 0 <= i < |ts|
      ensures IndexOf(GetType(i, ts), ts) == i
    {
      IndexOfGetType(i, ts);
      assert ts[i] !in ts[..i];
    }
  }
}

/** The sequence `[std::int32_t, double, char]` with the usual sizes 4, 8 and 1; `std::int32_t`
    is written as `int`, the type it names on common platforms. */
module TypeSequenceScenario {
  import opened Types
  import opened TypeSequence

  const Int32 := Ty(NoCv, Named("int"))
  const Float64 := Ty(NoCv, Named("double"))
  const Char := Ty(NoCv, Named("char"))

  lemma Scenario(sizeOf: Ty -> nat)
    requires sizeOf(Int32) == 4 && sizeOf(Float64) == 8 && sizeOf(Char) == 1
    ensures GetType(1, [Int32, Float64, Char]) == Float64
    ensures MaxType(sizeOf, [Int32, Float64, Char]) == Float64
    ensures IndexOf(Char, [Int32, Float64, Char]) == 2
  {
    var ts := [Int32, Float64, Char];
    assert ts[1..] == [Float64, Char];
    assert IndexOf(Char, ts[2..]) == 0;
  }
}
