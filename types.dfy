/** The C++ types that the traits talk about, abstracted to what the traits can observe:
    top-level cv-qualification, and whether the type is an instance `Z<Args...>` of a
    class template `Z` whose parameters are all types (`template <class...> class`, the
    only kind the header's partial specialisations bind). Two types are the same type
    (`std::is_same_v`) exactly when the two values are equal, so a type is encoded by its
    canonical name, with aliases resolved (`std::int32_t` is written as the type it names).
    `sizeof` is not part of a type here: it is the compiler's layout decision and is passed
    to the members that need it as a function `sizeOf: Ty -> nat`. */
module Types {

  datatype Option<+T> = None | Some(value: T)

  /** Top-level cv-qualification. */
  datatype Cv = NoCv | Const | Volatile | ConstVolatile {
    predicate HasConst() { this == Const || this == ConstVolatile }
    predicate HasVolatile() { this == Volatile || this == ConstVolatile }
  }

  /** The qualification with the given `const` and `volatile` parts. */
  function CvOf(c: bool, v: bool): (cv: Cv)
    ensures cv.HasConst() == c && cv.HasVolatile() == v
  {
    if c && v then ConstVolatile else if c then Const else if v then Volatile else NoCv
  }

  /** Qualifying an already qualified type: `const` applied to `volatile T` is `const volatile T`. */
  function JoinCv(a: Cv, b: Cv): (r: Cv)
    ensures r.HasConst() == (a.HasConst() || b.HasConst())
    ensures r.HasVolatile() == (a.HasVolatile() || b.HasVolatile())
  {
    CvOf(a.HasConst() || b.HasConst(), a.HasVolatile() || b.HasVolatile())
  }

  /** The name of a class template such as `std::vector`. */
  type TemplateName = string

  datatype Ty = Ty(cv: Cv, base: BaseTy)

  datatype BaseTy =
    // Any other type, including an instance of a template that has a non-type or a
    // template parameter (`std::array<int, 3>` is Named).
    | Named(name: string)
    // Z<Args...> for a template whose parameters are all types; `args` is the full
    // argument list, defaulted arguments included (`std::vector<int>` has two).
    | Instance(template: TemplateName, args: seq<Ty>)

  /** `std::remove_cv_t<T>`. */
  function RemoveCv(t: Ty): Ty
  {
    Ty(NoCv, t.base)
  }
}
