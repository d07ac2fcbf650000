/** Membership and identity predicates over parameter packs and template instances:
    `is_all_same_v`, `is_one_of_v`, `is_within_variadic_v` and `is_specialization_of_v`. */
module Membership {
  import opened Types
  import opened TypeSequence

  /** The fold `(std::is_same_v<T, Ts> && ...)`; an empty pack folds to true. */
  function AllSameAs(t: Ty, ts: seq<Ty>): (r: bool)
    ensures r <==> forall i :: 0 <= i < |ts| ==> ts[i] == t
  {
    if ts == [] then true else ts[0] == t && AllSameAs(t, ts[1..])
  }

  /** `is_all_same_v<Ts...>`: true for the empty pack, otherwise every type is the first. */
  function IsAllSame(ts: seq<Ty>): (r: bool)
    ensures r <==> forall i, j :: 0 <= i < |ts| && 0 <= j < |ts| ==> ts[i] == ts[j]
  {
    if ts == [] then true else AllSameAs(ts[0], ts[1..])
  }

  /** `is_one_of_v<T, Ts...>`, the fold `(std::is_same_v<T, Ts> || ...)`; an empty pack
      folds to false. */
  function IsOneOf(t: Ty, ts: seq<Ty>): (r: bool)
    ensures r <==> t in ts
  {
    if ts == [] then false else ts[0] == t || IsOneOf(t, ts[1..])
  }

  /** `is_within_variadic_v<T, U>`: only the partial specialisation for `U<Ts...>` can be
      true; a cv-qualified instance does not match it. */
  function IsWithinVariadic(t: Ty, u: Ty): (r: bool)
    ensures r <==> u.cv == NoCv && u.base.Instance? && t in u.base.args
  {
    match u
    case Ty(NoCv, Instance(_, args)) => IsOneOf(t, args)
    case _ => false
  }

  /** `is_specialization_of_v<T, Z>`: true only through the partial specialisation
      `<Z<Ts...>, Z>`. */
  predicate IsSpecializationOf(t: Ty, z: TemplateName)
  {
    match t
    case Ty(NoCv, Instance(z', _)) => z' == z
    case _ => false
  }

  /** A type specialises `Z` exactly when it is `Z<Args...>` for some argument list. */
  lemma SpecializationIsInstance(t: Ty, z: TemplateName)
    ensures IsSpecializationOf(t, z) <==> exists args :: t == Ty(NoCv, Instance(z, args))
  {
    if IsSpecializationOf(t, z) {
      assert t == Ty(NoCv, Instance(z, t.base.args));
    }
  }

  /** A type is a specialisation of at most one template. */
  lemma SpecializationUnique(t: Ty, z1: TemplateName, z2: TemplateName)
    requires IsSpecializationOf(t, z1) && IsSpecializationOf(t, z2)
    ensures z1 == z2
  {
  }

  /** Whatever is found within `U` is found within a specialisation of `U`'s template. */
  lemma WithinVariadicNeedsSpecialization(t: Ty, u: Ty)
    ensures IsWithinVariadic(t, u) <==>
              u.base.Instance? && IsSpecializationOf(u, u.base.template) && IsOneOf(t, u.base.args)
  {
  }

  /** is_one_of_v is exactly the precondition of index_of, and index_of finds the type. */
  lemma OneOfIsIndexOfDomain(t: Ty, ts: seq<Ty>)
    requires IsOneOf(t, ts)
    ensures IndexOf(t, ts) < |ts| && GetType(IndexOf(t, ts), ts) == t
  {
  }

  /** In a pack of all-same types every member is found at position 0. */
  lemma {:induction false} AllSameIndexOfZero(t: Ty, ts: seq<Ty>)
    requires IsAllSame(ts) && IsOneOf(t, ts)
    ensures IndexOf(t, ts) == 0
  {
    assert ts[IndexOf(t, ts)] == ts[0];
  }

  /** A non-empty all-same pack is its first type repeated. */
  lemma AllSameIsRepetition(ts: seq<Ty>)
    requires ts != []
    ensures IsAllSame(ts) <==> ts == seq(|ts|, _ => ts[0])
  {
    if ts == seq(|ts|, _ => ts[0]) {
      forall i, j | 0 <= i < |ts| && 0 <= j < |ts| ensures ts[i] == ts[j] {
        assert seq(|ts|, _ => ts[0])[i] == ts[0];
        assert seq(|ts|, _ => ts[0])[j] == ts[0];
      }
    }
  }

  /** `one_of<T, T, U, V>` holds for every T, U, V; `one_of<T, U, V>` fails when T differs
      from both. */
  lemma OneOfExamples(t: Ty, u: Ty, v: Ty)
    ensures IsOneOf(t, [t, u, v])
    ensures t != u && t != v ==> !IsOneOf(t, [u, v])
  {
  }
}
