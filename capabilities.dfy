/** Capability predicates. Each C++ predicate is a `requires` expression that probes whether
    some expressions and nested type names are well-formed for `T`; the outcome of each probe
    is an input here (a field of Probes), and the model states how the header combines them. */
module Capabilities {
  import opened Types
  import opened Membership

  /** The awaiter probes of a type: `{ t.await_ready() } -> std::same_as<bool>` and
      `t.await_resume()`, on an lvalue of `std::remove_cvref_t<T>`. */
  datatype AwaiterProbes = AwaiterProbes(awaitReadyIsBool: bool, awaitResume: bool)

  /** The outcome of every well-formedness probe and standard-library trait the header
      consults for one type `T`. */
  datatype Probes = Probes(
    boundedArray: bool,            // std::is_bounded_array_v<std::remove_cvref_t<T>>
    memberBeginEnd: bool,          // t.begin(); t.end();
    freeBeginEnd: bool,            // begin(t); end(t); with argument-dependent lookup
    keyType: bool,                 // typename std::remove_cvref_t<T>::key_type
    mappedType: bool,              // typename std::remove_cvref_t<T>::mapped_type
    tupleSize: bool,               // std::tuple_size<std::remove_cvref_t<T>>::value
    getZero: bool,                 // std::get<0>(t)
    valueType: bool,               // typename ...::value_type
    errorType: bool,               // typename ...::error_type
    unexpectedType: bool,          // typename ...::unexpected_type
    hasValueCall: bool,            // e.has_value()
    errorCall: bool,               // e.error()
    valueCall: bool,               // e.value()
    derefCall: bool,               // o.operator*()
    polymorphic: bool,             // std::is_polymorphic_v<T>
    cloneToPointer: bool,          // static_cast<T*>(t.clone())
    cloneReleaseToPointer: bool,   // static_cast<T*>(t.clone().release())
    awaiter: AwaiterProbes,        // the awaiter probes of T itself
    memberCoAwait: Option<AwaiterProbes>,  // t.operator co_await(), and the awaiter probes of its type
    freeCoAwait: Option<AwaiterProbes>,    // operator co_await(t), and the awaiter probes of its type
    integral: bool)                // std::is_integral_v<T>

  /** `is_range_loopable_v`: a bounded array, or begin/end as members, or as free functions. */
  predicate RangeLoopable(p: Probes)
  {
    p.boundedArray || p.memberBeginEnd || p.freeBeginEnd
  }

  /** `is_associative_v`: range-loopable with both `key_type` and `mapped_type`. */
  predicate Associative(p: Probes)
  {
    RangeLoopable(p) && p.keyType && p.mappedType
  }

  /** `is_array_like_v`. */
  predicate ArrayLike(p: Probes)
  {
    RangeLoopable(p) && !Associative(p)
  }

  /** `is_tuple_like_v`. */
  predicate TupleLike(p: Probes)
  {
    p.tupleSize && p.getZero
  }

  /** `is_expected_v`: three nested types and three member calls. */
  predicate Expected(p: Probes)
  {
    p.valueType && p.errorType && p.unexpectedType && p.hasValueCall && p.errorCall && p.valueCall
  }

  /** `is_optional_v`: not expectable, with `value()`, `has_value()`, `operator*` and
      `value_type`. */
  predicate Optional(p: Probes)
  {
    !Expected(p) && p.valueCall && p.hasValueCall && p.derefCall && p.valueType
  }

  /** `is_awaiter_v`. */
  predicate Awaiter(a: AwaiterProbes)
  {
    a.awaitReadyIsBool && a.awaitResume
  }

  /** `is_awaitable_v`: a member or free `co_await` yielding an awaiter, or an awaiter itself. */
  predicate Awaitable(p: Probes)
  {
    (p.memberCoAwait.Some? && Awaiter(p.memberCoAwait.value))
    || (p.freeCoAwait.Some? && Awaiter(p.freeCoAwait.value))
    || Awaiter(p.awaiter)
  }

  /** `is_virtual_cloneable_v`. */
  predicate VirtualCloneable(p: Probes)
  {
    p.polymorphic && (p.cloneToPointer || p.cloneReleaseToPointer)
  }

  const CharTypes: seq<Ty> := [
    Ty(NoCv, Named("char")), Ty(NoCv, Named("wchar_t")), Ty(NoCv, Named("char8_t")),
    Ty(NoCv, Named("char16_t")), Ty(NoCv, Named("char32_t"))
  ]

  /** `is_character_v`: `std::remove_cv_t<T>` is one of the five character types. */
  predicate Character(t: Ty)
  {
    IsOneOf(RemoveCv(t), CharTypes)
  }

  /** `is_non_char_integral_v`. */
  predicate NonCharIntegral(t: Ty, p: Probes)
  {
    p.integral && !Character(t)
  }

  /** Range-loopable types split into the associative and the array-like ones. */
  lemma RangeLoopablePartition(p: Probes)
    ensures Associative(p) ==> RangeLoopable(p)
    ensures ArrayLike(p) ==> RangeLoopable(p)
    ensures RangeLoopable(p) <==> Associative(p) || ArrayLike(p)
    ensures !(Associative(p) && ArrayLike(p))
  {
  }

  /** No type is both expectable and optionable. */
  lemma OptionalExcludesExpected(p: Probes)
    ensures !(Optional(p) && Expected(p))
  {
  }

  /** The unqualified names of the five character types. */
  const CharNames: set<BaseTy> := set t | t in CharTypes :: t.base

  /** A character type is a character type under any cv-qualification, and is one exactly
      when its unqualified name is one of the five. */
  lemma CharacterIgnoresCv(t: Ty)
    ensures forall cv :: Character(Ty(cv, t.base)) == Character(t)
    ensures Character(t) <==> t.base in CharNames
  {
  }

  /** The integral types split into the character types and the non-character ones: an
      integral type is non-char integral exactly when its unqualified name is not one of the
      five character names, whatever its cv-qualification. */
  lemma IntegralPartition(t: Ty, p: Probes)
    ensures NonCharIntegral(t, p) <==> p.integral && t.base !in CharNames
    ensures forall cv :: NonCharIntegral(Ty(cv, t.base), p) == NonCharIntegral(t, p)
    ensures Character(t) ==> !NonCharIntegral(t, p)
  {
    CharacterIgnoresCv(t);
  }

  /** An awaiter is awaitable, and so is a type whose member or free `co_await` yields one;
      a `co_await` that yields a non-awaiter does not make a type awaitable. */
  lemma AwaiterIsAwaitable(p: Probes)
    ensures Awaiter(p.awaiter) ==> Awaitable(p)
    ensures p.memberCoAwait == Some(AwaiterProbes(true, true)) ==> Awaitable(p)
    ensures p.freeCoAwait.Some? && Awaiter(p.freeCoAwait.value) ==> Awaitable(p)
    ensures !Awaiter(p.awaiter) && p.memberCoAwait.None? && p.freeCoAwait.None? ==> !Awaitable(p)
    ensures !Awaiter(p.awaiter)
            && (p.memberCoAwait.None? || !Awaiter(p.memberCoAwait.value))
            && (p.freeCoAwait.None? || !Awaiter(p.freeCoAwait.value))
            ==> !Awaitable(p)
  {
  }

  /** Only a polymorphic type with a `clone()` is virtually cloneable, either `clone()` form
      suffices, and no other probe matters. */
  lemma CloneableIsPolymorphic(p: Probes)
    ensures !p.polymorphic ==> !VirtualCloneable(p)
    ensures VirtualCloneable(p) ==> p.cloneToPointer || p.cloneReleaseToPointer
    ensures p.polymorphic && p.cloneToPointer ==> VirtualCloneable(p)
    ensures p.polymorphic && p.cloneReleaseToPointer ==> VirtualCloneable(p)
    ensures forall q: Probes ::
      q.polymorphic == p.polymorphic && q.cloneToPointer == p.cloneToPointer
      && q.cloneReleaseToPointer == p.cloneReleaseToPointer
      ==> VirtualCloneable(q) == VirtualCloneable(p)
  {
  }

  /** A key/value container (member begin/end, `key_type`, `mapped_type`, no tuple
      interface) is associative and neither array-like nor tuple-like; a plain sequence
      container is array-like and not associative. */
  lemma ContainerScenarios(p: Probes)
    ensures p.memberBeginEnd && p.keyType && p.mappedType && !p.tupleSize ==>
              Associative(p) && !ArrayLike(p) && !TupleLike(p)
    ensures p.memberBeginEnd && !p.keyType ==> !Associative(p) && ArrayLike(p)
  {
  }
}
