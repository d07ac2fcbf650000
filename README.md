# oeo type_traits, modelled in Dafny

`include/oeo/type_traits.h` is a C++20 compile-time type-trait library. It has no runtime
state: every trait is a template that the compiler evaluates. This project models the traits
as Dafny functions over an abstraction of C++ types, and proves what they compute.

- `types.dfy` (`Types`): a type is `Ty(cv, base)`. `base` is either an instance
  `Z<Args...>` of a class template whose parameters are all types, with its full argument
  list (defaulted arguments included), or a named type: any other type, including an
  instance of a template that has a non-type or template parameter. Names are canonical,
  with aliases resolved. Two types are `std::is_same_v` exactly when the two values are
  equal. `sizeof` is not part of a type. It is the compiler's layout choice, so `max_type`
  takes it as a function `sizeOf: Ty -> nat`.
- `type_sequence.dfy` (`TypeSequence`): `get_type_t`, `max_type` and `index_of` over a
  parameter pack (`seq<Ty>`). Each is ill-formed outside its precondition, which the model
  states as `requires`.
- `membership.dfy` (`Membership`): `is_all_same_v`, `is_one_of_v` (the two fold
  expressions), `is_within_variadic_v` and `is_specialization_of_v`.
- `function_traits.dfy` (`FunctionTraits`): the 24 invocations of
  `O_BUILD_FUNCTION_SIGNATURE(CVREF, NOEXCEPT)` are kept as a literal table of token
  sequences. A function type picks its specialisation by matching its qualifiers against
  that table. The flags are the standard traits applied to `cvref<int>`. Function pointers,
  member function pointers and functors delegate as the header does.
- `capabilities.dfy` (`Capabilities`): the capability predicates. Each C++ `requires`
  probe is an input flag, and the model states how the header combines the flags.
- `name_of.dfy` (`NameOf`): `name_of_impl` slicing of the compiler's signature string. It
  uses explicit 64-bit `size_t` wrap-around for `npos + k.size()` and for the substring
  count. It also models the MSVC `is_struct_v` and `is_virtual_function_pointer_v` tests.

Behaviour of the code that the model reproduces:
- `max_type<T, U, Ts...>` is a right fold, `max_type<T, max_type<U, Ts...>>`. It is not a
  left-to-right reduction. Both pick the earliest largest type, and
  `MaxTypeAgreesWithLeftFold` proves they agree.
- `index_of` returns the FIRST occurrence. So `index_of(get_type(i, S), S) == i` holds only
  when `S[i]` does not occur before `i`. It does not hold for every valid `i`.
  `IndexOfGetType` proves both directions.
- `is_const`/`is_volatile` are computed as `std::is_const_v<int CVREF>`. A reference type is
  never const itself, so the flags are false on every `&` and `&&` row.
- `function_traits<Ret (*)(Args...)>` does not match a `noexcept` function pointer. Such a
  pointer falls to the primary template, `&F::operator()` is ill-formed for it, and the
  model has no traits for it.
- `const Z<Ts...>` is not a specialisation of `Z`, and nothing is "within" it: the partial
  specialisations only match the unqualified instance.
- If the prefix marker is missing, `npos + k.size()` wraps to `k.size() - 1`. The result is
  then a slice of the signature string, not an ill-formed program, unless the string is
  shorter than `k.size() - 1` (`MissingMarkerWraps`).

## Model

| member | source | states |
|---|---|---|
| `TypeSequence.GetType` | include/oeo/type_traits.h:19-30 | for an index below the pack's length, the result is the element at that index |
| `TypeSequence.Max2` | include/oeo/type_traits.h:38-41 | `max_type<T, U>` is one of the two types, at least as large as both, and the left one when their sizes are equal |
| `TypeSequence.MaxType` | include/oeo/type_traits.h:33-41 | for two or more types, the result is in the pack, no type is larger, and every type before its first occurrence is strictly smaller: ties go to the left |
| `TypeSequence.EarliestLargestUnique` | include/oeo/type_traits.h:33-41 | at most one type of a pack is its earliest largest, so that property determines `max_type` |
| `TypeSequence.MaxTypeAgreesWithLeftFold` | include/oeo/type_traits.h:33-41 | the header's right fold equals a left-to-right reduction whose accumulator yields only to a strictly larger type |
| `TypeSequence.MaxTypeOfTwo` | include/oeo/type_traits.h:38-41 | of two equal-sized types the left one wins; otherwise the larger one wins |
| `TypeSequence.IndexOf` | include/oeo/type_traits.h:44-51 | for a type present in the pack, the result is a position holding that type, and the type does not occur before it |
| `TypeSequence.IndexOfGetType` | include/oeo/type_traits.h:44-51 | `get_type(index_of(T))` is `T`; `index_of(get_type(i)) <= i`, with equality iff the type does not occur before `i` |
| `TypeSequence.IndexOfGetTypeDistinct` | include/oeo/type_traits.h:44-51 | in a pack without repeats, `index_of` inverts `get_type` at every index |
| `TypeSequenceScenario.Scenario` | include/oeo/type_traits.h:19-51 | for `[std::int32_t, double, char]` (the first written as `int`) with sizes 4, 8, 1: `get_type<1>` is `double`, `max_type` is `double`, `index_of<char>` is 2 |
| `Membership.AllSameAs` | include/oeo/type_traits.h:57-58 | the `&&` fold of `is_same_v<T, Ts>` is true iff every type of the pack is `T` (true for the empty pack) |
| `Membership.IsAllSame` | include/oeo/type_traits.h:54-58 | `is_all_same_v` is true iff all types of the pack are pairwise the same, so it is true for zero or one type |
| `Membership.AllSameIsRepetition` | include/oeo/type_traits.h:54-58 | a non-empty pack is all-same iff it is its first type repeated |
| `Membership.AllSameIndexOfZero` | include/oeo/type_traits.h:54-58 | in an all-same pack, `index_of` of any member is 0 |
| `Membership.IsOneOf` | include/oeo/type_traits.h:124-125 | `is_one_of_v<T, Ts...>` is true iff `T` occurs in the pack, so it is false for an empty pack |
| `Membership.OneOfIsIndexOfDomain` | include/oeo/type_traits.h:124-125 | whenever `is_one_of_v` holds, `index_of` is defined and `get_type` at that index gives the type back |
| `Membership.OneOfExamples` | include/oeo/type_traits.h:124-125 | `one_of<T, T, U, V>` always holds; `one_of<T, U, V>` fails when `T` differs from both |
| `Membership.IsWithinVariadic` | include/oeo/type_traits.h:134-138 | true iff `U` is an unqualified instance `Z<Args...>` and `T` is one of `Args` |
| `Membership.WithinVariadicNeedsSpecialization` | include/oeo/type_traits.h:134-151 | `is_within_variadic_v<T, U>` iff `U` specialises its own template and `is_one_of_v` holds over its arguments |
| `Membership.IsSpecializationOf` | include/oeo/type_traits.h:147-151 | `is_specialization_of_v<T, Z>`: false by default; true for the unqualified `Z<Ts...>` that the partial specialisation matches (its meaning is stated by `SpecializationIsInstance`) |
| `Membership.SpecializationIsInstance` | include/oeo/type_traits.h:147-151 | `is_specialization_of_v<T, Z>` iff `T` is exactly `Z<Args...>` for some argument list |
| `Membership.SpecializationUnique` | include/oeo/type_traits.h:147-151 | a type specialises at most one template |
| `FunctionTraits.TableCoversAllQualifiers` | include/oeo/type_traits.h:96-119 | every combination of cv, reference qualifier and noexcept has a macro invocation, at the position given by the header's enumeration order |
| `FunctionTraits.RowMatchesItsIndex` | include/oeo/type_traits.h:96-119 | each invocation's CVREF argument is well formed and its qualifiers lead back to its own position |
| `FunctionTraits.TableIsExhaustiveAndDistinct` | include/oeo/type_traits.h:96-119 | there are exactly 24 invocations, no two match the same qualifiers, and every qualifier combination is matched |
| `FunctionTraits.CvRefTokensDetermined` | include/oeo/type_traits.h:96-119 | two CVREF arguments that denote the same qualifiers are the same tokens |
| `FunctionTraits.MatchRow` | include/oeo/type_traits.h:73-119 | a found specialisation matches the function's qualifiers; none is found iff no invocation from that point on matches |
| `FunctionTraits.MatchRowIsUnique` | include/oeo/type_traits.h:96-119 | every function type matches the one specialisation at its enumeration position |
| `FunctionTraits.Specialization` | include/oeo/type_traits.h:74-89 | the members one macro invocation stamps out for a return type and pack: its CVREF and NOEXCEPT, and the five flags as the standard traits of `cvref<int>` (their values are stated by `QualifierFlags`) |
| `FunctionTraits.FunctionTypeTraits` | include/oeo/type_traits.h:73-119 | `function_traits<Ret(Args...) CVREF noexcept(NOEXCEPT)>`: the specialisation of the invocation whose qualifiers the function type has, none if no invocation matches (that one always does is stated by `QualifierFlags`) |
| `FunctionTraits.Traits.FunctionType` | include/oeo/type_traits.h:77 | `function_type`: `Ret(Args...)` with no cv, reference or noexcept qualifier (stated by `QualifierFlags`) |
| `FunctionTraits.Traits.CvRef` | include/oeo/type_traits.h:79-80 | `cvref<T>`: `T` with the invocation's CVREF applied (stated by `CvRefAppliesQualifiers`) |
| `FunctionTraits.Traits.Parameters` | include/oeo/type_traits.h:87-88 | `parameters<Z>`: the unqualified instance `Z<Args...>` (stated by `ParametersInstance`) |
| `FunctionTraits.QualifierFlags` | include/oeo/type_traits.h:74-89 | every function type has traits: its return type and pack; `function_type` is the unqualified `Ret(Args...)`; `is_noexcept` is the noexcept flag; `is_reference` holds exactly for `&`/`&&`, split into lvalue and rvalue and never both; `is_const`/`is_volatile` hold only without a reference qualifier |
| `FunctionTraits.NoexceptFlipsOnlyNoexcept` | include/oeo/type_traits.h:74-119 | changing only the exception specification of a function type, or of a member function pointer, changes only `is_noexcept` |
| `FunctionTraits.CvRefAppliesQualifiers` | include/oeo/type_traits.h:79-80 | `cvref<T>` adds the function's own cv qualifiers to `T` and then its reference qualifier |
| `FunctionTraits.FunctionTraitsOf` | include/oeo/type_traits.h:64-71 | `function_traits<F>` for each shape of `F`: a function type uses its specialisation; a function pointer without `noexcept` delegates to its function type; a member function pointer adds `this_type` (lines 90-94); anything else goes through `&F::operator()`; none where ill-formed (stated by `CallableTraits` and the three delegation lemmas) |
| `FunctionTraits.FunctionPointerDelegation` | include/oeo/type_traits.h:67-68 | a function pointer without `noexcept` has traits: its return type and pack, an empty CVREF, every qualifier flag false and no `this_type`; a `noexcept` one has none |
| `FunctionTraits.MemberPointerDelegation` | include/oeo/type_traits.h:90-94 | a member function pointer has its function type's traits plus `this_type = Cls` |
| `FunctionTraits.FunctorDelegation` | include/oeo/type_traits.h:70-71 | any other type has the traits of the function type of `&F::operator()` with `this_type` set to its class, and none when `&F::operator()` is ill-formed |
| `FunctionTraits.CallableTraits` | include/oeo/type_traits.h:64-119 | for every callable shape, traits exist iff it denotes a function type; they then carry that function's return type, pack, qualifier flags and enclosing class |
| `FunctionTraits.ParametersInstance` | include/oeo/type_traits.h:87-88 | `parameters<Z>` specialises `Z`, and a type is within it iff it is one of the parameters |
| `Capabilities.RangeLoopable` | include/oeo/type_traits.h:213-220 | `is_range_loopable_v`: a bounded array, or member `begin()`/`end()`, or free `begin(t)`/`end(t)` |
| `Capabilities.Associative` | include/oeo/type_traits.h:228-232 | `is_associative_v`: range-loopable with both `key_type` and `mapped_type` |
| `Capabilities.ArrayLike` | include/oeo/type_traits.h:240-241 | `is_array_like_v`: range-loopable and not associative |
| `Capabilities.TupleLike` | include/oeo/type_traits.h:250-254 | `is_tuple_like_v`: `tuple_size<T>::value` and `std::get<0>(t)` are both well-formed |
| `Capabilities.Expected` | include/oeo/type_traits.h:262-270 | `is_expected_v`: the three nested types `value_type`, `error_type`, `unexpected_type` and the calls `has_value()`, `error()`, `value()` |
| `Capabilities.Optional` | include/oeo/type_traits.h:278-284 | `is_optional_v`: not expectable, with `value()`, `has_value()`, `operator*()` and `value_type` |
| `Capabilities.Awaiter` | include/oeo/type_traits.h:187-191 | `is_awaiter_v`: `await_ready()` yields exactly `bool` and `await_resume()` is well-formed |
| `Capabilities.Awaitable` | include/oeo/type_traits.h:199-204 | `is_awaitable_v`: a member `co_await` yielding an awaiter, or a free one yielding an awaiter, or the type is an awaiter itself |
| `Capabilities.VirtualCloneable` | include/oeo/type_traits.h:174-178 | `is_virtual_cloneable_v`: polymorphic, and `clone()` converts to `T*` either directly or through `release()` |
| `Capabilities.Character` | include/oeo/type_traits.h:292-293 | `is_character_v`: `std::remove_cv_t<T>` is one of `char`, `wchar_t`, `char8_t`, `char16_t`, `char32_t` |
| `Capabilities.NonCharIntegral` | include/oeo/type_traits.h:302-303 | `is_non_char_integral_v`: integral and not a character type |
| `Capabilities.RangeLoopablePartition` | include/oeo/type_traits.h:213-247 | associative and array-like types are range-loopable; every range-loopable type is exactly one of the two |
| `Capabilities.ContainerScenarios` | include/oeo/type_traits.h:213-259 | a key/value container is associative, not array-like and not tuple-like; a plain sequence container is array-like and not associative |
| `Capabilities.OptionalExcludesExpected` | include/oeo/type_traits.h:262-289 | no type is both expectable and optionable |
| `Capabilities.AwaiterIsAwaitable` | include/oeo/type_traits.h:187-204 | an awaiter is awaitable, and so is a type whose member or free `co_await` yields an awaiter; a type that is not an awaiter and whose `co_await`s are missing or yield non-awaiters is not awaitable |
| `Capabilities.CloneableIsPolymorphic` | include/oeo/type_traits.h:174-178 | a virtually cloneable type is polymorphic and has one of the two `clone()` forms; a polymorphic type with either form is virtually cloneable; no other probe affects the result |
| `Capabilities.CharacterIgnoresCv` | include/oeo/type_traits.h:292-293 | `is_character_v` does not depend on cv-qualification, and holds exactly for the five character types |
| `Capabilities.IntegralPartition` | include/oeo/type_traits.h:302-303 | a type is non-char integral exactly when it is integral and its unqualified name is not one of the five character names, under any cv-qualification; a character type is never non-char integral |
| `NameOf.Find` | include/oeo/type_traits.h:333 | `find` returns the first position at or after the start where the marker occurs, and `npos` iff there is none |
| `NameOf.Substr` | include/oeo/type_traits.h:335 | `substr` is ill-formed iff the position is past the end; otherwise it is the slice from the position, with the count clamped to what is left |
| `NameOf.WrapSizeIsModulo` | include/oeo/type_traits.h:333-335 | the `size_t` arithmetic is reduction modulo 2^64 |
| `NameOf.NameStart` | include/oeo/type_traits.h:333 | `p = n.find(k) + k.size()` in `size_t`: just past the first occurrence of `k`, or `k.size() - 1` when `k` is missing (an empty `k` is never missing) |
| `NameOf.NameOfImpl` | include/oeo/type_traits.h:322-351 | the name runs from `p = find(k) + k.size()` and drops the last `l.size()` characters when they fit; it is the rest of the string when the count wraps; it is ill-formed when `p` is past the end |
| `NameOf.NameAfterMarker` | include/oeo/type_traits.h:322-336 | when the marker occurs and the suffix fits, the name starts right after its first occurrence and has length `n.size() - p - l.size()` |
| `NameOf.NameOfLayout` | include/oeo/type_traits.h:322-351 | a signature `A + k + X + l` with no earlier occurrence of `k` yields exactly `X` |
| `NameOf.MissingMarkerWraps` | include/oeo/type_traits.h:333-335 | a missing marker makes `p` wrap to `k.size() - 1`: when `k.size() - 1 + l.size()` is at most `n.size()` the result is the slice from `k.size() - 1` that drops the suffix's length; when only `k.size() - 1` fits, the count wraps and the result is the rest of the string; a string shorter than `k.size() - 1` is ill-formed |
| `NameOf.TypeName` | include/oeo/type_traits.h:337-353 | `type_name_v<T>`: `name_of_impl<T>` on the compiler's signature string, with `name_of_impl<` / `>(void) noexcept` on MSVC and `[T = ` / `]` elsewhere |
| `NameOf.NontypeName` | include/oeo/type_traits.h:322-356 | `nontype_name_v<V>`: `name_of_impl<V>` on the compiler's signature string, with `name_of_impl<` / `>(void) noexcept` on MSVC and `[V = ` / `]` elsewhere |
| `NameOf.RenderedName` | include/oeo/type_traits.h:352-356 | `type_name_v` and `nontype_name_v` on either compiler are exactly the text between that compiler's marker and suffix, when no marker occurs earlier |
| `NameOf.IsStruct` | include/oeo/type_traits.h:369-378 | `is_struct_v<T>`: on MSVC, for a class type, whether `type_name_v<T>` starts with `struct `; false otherwise; ill-formed when the name is |
| `NameOf.IsStructOnRendering` | include/oeo/type_traits.h:369-378 | on MSVC a class whose rendered name is `X` is a struct iff `X` starts with `struct `; elsewhere, or for a non-class, `is_struct_v` is false |
| `NameOf.IsVirtualFunctionPointerMsvc` | include/oeo/type_traits.h:372-381 | `is_virtual_function_pointer_v<T, f>` on MSVC: for a member function pointer, whether ``::`vcall'{`` occurs in `nontype_name_v<f>`; false for any other `T` |
| `NameOf.VirtualIffVcallMarker` | include/oeo/type_traits.h:372-381 | on MSVC a member function pointer is virtual iff ``::`vcall'{`` occurs in its rendered value; any other type is not |

## Left out

- The GCC/Clang `is_virtual_function_pointer_v` (`is_comparable`, lines 359-366 and 385-386). It depends on whether the compiler accepts a pointer-to-member comparison as a constant expression, which varies by compiler and standard version. Only the MSVC test is modelled.
- `is_derived_from_specialization_of_v` (lines 160-171). It rests on implicit conversion to a base class and overload resolution, which have no counterpart in this type abstraction.
- The well-formedness probes inside the `requires` expressions (begin/end lookup with argument-dependent lookup, `tuple_size`/`get<0>`, `co_await`, `clone()`, `has_value`/`value`/`error`, nested type names). Their outcomes are the inputs in `Capabilities.Probes`.
- The standard-library oracles `std::is_polymorphic_v`, `std::is_integral_v` and `std::is_bounded_array_v` are input flags. `is_constructible_to_string_v` (lines 312-319) only forwards `std::is_constructible_v<std::string, T>`, so it is not modelled.
- The contents of `__FUNCSIG__`/`__PRETTY_FUNCTION__` are compiler-supplied. They are an arbitrary string input.
- `always_false` and the `require` concept (lines 11-16), and the wrapper `struct`s and `concept`s that only forward each `_v` constant.
- `sizeof` is an input function, not computed from a type. `TypeSequence.MaxType` takes it to be defined for every type of the pack: `max_type` is ill-formed when a type has no `sizeof` (`void`, a function type, an incomplete type), and the model still returns a result there.
- `FunctionTraits.CvRefAppliesQualifiers`: takes `T` to be an object type. For a reference `T`, C++ drops the added cv-qualifiers and collapses the references (`cvref<int&>` in the `const&&` row is `int&`); for a function type it drops the cv; `cvref<void>` in a reference row is ill-formed. None of these is modelled: the model adds both qualifiers to any `T`. The flags use `cvref<int>`, an object type, so they are unaffected.
- Types are encoded by hand: the model does not check that a template written as `Instance` takes only type parameters, that its argument list includes the defaulted arguments, or that a `Named` name is canonical. An encoding that breaks these rules gives results the compiler would not (`std::array<int, 3>` written as an `Instance` is within-variadic of `int`; two spellings of one type are different types).
- `FunctionTraits.Traits.Parameters`: total, whereas `parameters<Z>` is ill-formed when `Z` cannot take the parameter pack (a template with a non-type parameter, or fewer type parameters than the pack). Which templates accept which packs is not part of the type abstraction.
- `function_traits` for a callable type whose `operator()` is overloaded, a template or static. `&F::operator()` is modelled as either ill-formed or a member function pointer.
- `NameOf.NameOfImpl`, `NameOf.Find`: require string lengths below `npos`, which `std::string_view` guarantees through `max_size()`.
