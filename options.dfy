/** The optional-value algebra of src/core/option.ts: a value is either present
    (`Some(value)`) or absent (`None`). Every method of `OptionOps`, including the
    `andThen` and `inspect` attached to its prototype, is a function on the datatype. */
module Options {

  datatype Option<+T> = Some(value: T) | None

  /** `isSome`: true exactly when a value is present. */
  function IsSome<T>(o: Option<T>): (b: bool)
    ensures b <==> o != None
  {
    o.Some?
  }

  /** `isNone`: always the opposite of `isSome`. */
  function IsNone<T>(o: Option<T>): (b: bool)
    ensures b != IsSome(o)
    ensures b <==> o == None
  {
    !o.Some?
  }

  /** `map`: transforms a present value; an absent one stays absent. */
  function Map<T, U>(o: Option<T>, f: T -> U): (r: Option<U>)
    ensures IsSome(r) == IsSome(o)
    ensures o.Some? ==> r.value == f(o.value)
  {
    match o
    case Some(v) => Some(f(v))
    case None => None
  }

  /** `unwrap`: the present value. The source throws on `None`; callers must rule it out. */
  function Unwrap<T>(o: Option<T>): (v: T)
    requires IsSome(o)
    ensures o == Some(v)
  {
    o.value
  }

  /** `unwrapOr`: the present value, or `def` when absent. */
  function UnwrapOr<T>(o: Option<T>, def: T): (v: T)
    ensures o == Some(v) || (o == None && v == def)
  {
    match o
    case Some(x) => x
    case None => def
  }

  /** `unwrapOrElse`: the present value, or the thunk's value when absent. */
  function UnwrapOrElse<T>(o: Option<T>, f: () -> T): (v: T)
    ensures o == Some(v) || (o == None && v == f())
  {
    match o
    case Some(x) => x
    case None => f()
  }

  /** `mapOr`: `f` of the present value, or `def` when absent. */
  function MapOr<T, U>(o: Option<T>, def: U, f: T -> U): (v: U)
    ensures o.Some? ==> v == f(o.value)
    ensures o.None? ==> v == def
  {
    match o
    case Some(x) => f(x)
    case None => def
  }

  /** `mapOrElse`: `f` of the present value, or `fDefault()` when absent. */
  function MapOrElse<T, U>(o: Option<T>, fDefault: () -> U, f: T -> U): (v: U)
    ensures o.Some? ==> v == f(o.value)
    ensures o.None? ==> v == fDefault()
  {
    match o
    case Some(x) => f(x)
    case None => fDefault()
  }

  /** `andThen`: monadic bind; `None` propagates. */
  function AndThen<T, U>(o: Option<T>, f: T -> Option<U>): (r: Option<U>)
    ensures o.None? ==> r == None
    ensures o.Some? ==> r == f(o.value)
  {
    match o
    case Some(x) => f(x)
    case None => None
  }

  /** `inspect`: hands a present value to `f` for its effect and returns the option itself. */
  function Inspect<T>(o: Option<T>, f: T -> ()): (r: Option<T>)
    ensures r == o
  {
    match o
    case Some(x) => var _ := f(x); o
    case None => o
  }

  // ---- Laws relating the operations ----

  /** Mapping the identity changes nothing. */
  lemma MapIdentity<T>(o: Option<T>)
    ensures Map(o, x => x) == o
  {
  }

  /** Mapping twice is mapping the composition. */
  lemma MapCompose<T, U, V>(o: Option<T>, f: T -> U, g: U -> V)
    ensures Map(Map(o, f), g) == Map(o, x => g(f(x)))
  {
  }

  /** `map` is `andThen` with a callback that always answers `Some`. */
  lemma MapIsAndThen<T, U>(o: Option<T>, f: T -> U)
    ensures Map(o, f) == AndThen(o, x => Some(f(x)))
  {
  }

  /** Unwrapping agrees with `unwrapOr` on every present option, whatever the default. */
  lemma UnwrapAgreesWithUnwrapOr<T>(o: Option<T>, def: T)
    requires IsSome(o)
    ensures Unwrap(o) == UnwrapOr(o, def)
  {
  }

  /** `unwrapOr(d)` is `unwrapOrElse` with the constant thunk, and on a present value
      the thunk's answer is never used. */
  lemma UnwrapOrElseLaws<T>(o: Option<T>, def: T, f: () -> T, g: () -> T)
    ensures UnwrapOr(o, def) == UnwrapOrElse(o, () => def)
    ensures IsSome(o) ==> UnwrapOrElse(o, f) == UnwrapOrElse(o, g)
  {
  }

  /** `mapOr(d, f)` is `unwrapOr(d)` after `map(f)`; `mapOrElse(g, f)` is `unwrapOrElse(g)`
      after `map(f)`. */
  lemma MapOrIsUnwrapOrOfMap<T, U>(o: Option<T>, def: U, fDefault: () -> U, f: T -> U)
    ensures MapOr(o, def, f) == UnwrapOr(Map(o, f), def)
    ensures MapOrElse(o, fDefault, f) == UnwrapOrElse(Map(o, f), fDefault)
  {
  }

  /** Monad laws of `andThen`: `Some` is a left and right unit, and binds associate. */
  lemma AndThenLaws<T, U, V>(o: Option<T>, v: T, f: T -> Option<U>, g: U -> Option<V>)
    ensures AndThen(Some(v), f) == f(v)
    ensures AndThen(o, x => Some(x)) == o
    ensures AndThen(AndThen(o, f), g) == AndThen(o, x => AndThen(f(x), g))
  {
  }

  /** Whatever callback `inspect` is given, the option comes back the same. */
  lemma InspectIgnoresCallback<T>(o: Option<T>, f: T -> (), g: T -> ())
    ensures Inspect(o, f) == Inspect(o, g) == o
  {
  }
}
