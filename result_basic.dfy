/** The success-or-failure algebra of src/core/result-basic.ts: a result is either
    `Ok(value)` or `Err(error)`, and the tag alone decides which payload exists.
    The methods of `ResultOps` are functions on the datatype. */
module ResultBasic {

  datatype Result<+T, +E> = Ok(value: T) | Err(error: E)

  /** `isOk`: true exactly for a success. */
  function IsOk<T, E>(r: Result<T, E>): (b: bool)
    ensures b <==> !r.Err?
  {
    r.Ok?
  }

  /** `isErr`: always the opposite of `isOk`. */
  function IsErr<T, E>(r: Result<T, E>): (b: bool)
    ensures b != IsOk(r)
  {
    !r.Ok?
  }

  /** `map`: transforms the success value; a failure passes through with its error untouched. */
  function Map<T, E, U>(r: Result<T, E>, f: T -> U): (res: Result<U, E>)
    ensures IsOk(res) == IsOk(r)
    ensures r.Ok? ==> res.value == f(r.value)
    ensures r.Err? ==> res.error == r.error
  {
    match r
    case Ok(v) => Ok(f(v))
    case Err(e) => Err(e)
  }

  /** `mapErr`: transforms the error; a success passes through untouched. */
  function MapErr<T, E, F>(r: Result<T, E>, f: E -> F): (res: Result<T, F>)
    ensures IsOk(res) == IsOk(r)
    ensures r.Ok? ==> res.value == r.value
    ensures r.Err? ==> res.error == f(r.error)
  {
    match r
    case Ok(v) => Ok(v)
    case Err(e) => Err(f(e))
  }

  /** `andThen`: bind on success; a failure short-circuits with its own error. */
  function AndThen<T, E, U>(r: Result<T, E>, f: T -> Result<U, E>): (res: Result<U, E>)
    ensures r.Ok? ==> res == f(r.value)
    ensures r.Err? ==> res == Err(r.error)
  {
    match r
    case Ok(v) => f(v)
    case Err(e) => Err(e)
  }

  /** `orElse`: bind on failure (recovery); a success passes through. */
  function OrElse<T, E, F>(r: Result<T, E>, f: E -> Result<T, F>): (res: Result<T, F>)
    ensures r.Ok? ==> res == Ok(r.value)
    ensures r.Err? ==> res == f(r.error)
  {
    match r
    case Ok(v) => Ok(v)
    case Err(e) => f(e)
  }

  /** `unwrap`: the success value. The source throws the stored error on `Err`;
      callers must rule that out. */
  function Unwrap<T, E>(r: Result<T, E>): (v: T)
    requires IsOk(r)
    ensures r == Ok(v)
  {
    r.value
  }

  /** `expect(msg)`: the success value. The source throws an error carrying `msg`
      and the rendered error on `Err`; callers must rule that out. */
  function Expect<T, E>(r: Result<T, E>, msg: string): (v: T)
    requires IsOk(r)
    ensures r == Ok(v)
  {
    match r
    case Ok(x) => x
  }

  /** `unwrapOr`: the success value, or `def` on failure. */
  function UnwrapOr<T, E>(r: Result<T, E>, def: T): (v: T)
    ensures r == Ok(v) || (r.Err? && v == def)
  {
    match r
    case Ok(x) => x
    case Err(_) => def
  }

  /** `unwrapOrElse`: the success value, or `f` of the error on failure. */
  function UnwrapOrElse<T, E>(r: Result<T, E>, f: E -> T): (v: T)
    ensures r == Ok(v) || (r.Err? && v == f(r.error))
  {
    match r
    case Ok(x) => x
    case Err(e) => f(e)
  }

  // ---- Laws relating the operations ----

  /** Mapping the identity over either channel changes nothing. */
  lemma MapIdentity<T, E>(r: Result<T, E>)
    ensures Map(r, x => x) == r
    ensures MapErr(r, e => e) == r
  {
  }

  /** Mapping twice is mapping the composition, on either channel. */
  lemma MapCompose<T, E, U, V, F, G>(r: Result<T, E>, f: T -> U, g: U -> V, h: E -> F, k: F -> G)
    ensures Map(Map(r, f), g) == Map(r, x => g(f(x)))
    ensures MapErr(MapErr(r, h), k) == MapErr(r, e => k(h(e)))
  {
  }

  /** `map` is `andThen` with a callback that always succeeds; `mapErr` is `orElse`
      with a callback that always fails. */
  lemma MapsAreBinds<T, E, U, F>(r: Result<T, E>, f: T -> U, g: E -> F)
    ensures Map(r, f) == AndThen(r, x => Ok(f(x)))
    ensures MapErr(r, g) == OrElse(r, e => Err(g(e)))
  {
  }

  /** Monad laws of `andThen`: `Ok` is a left and right unit, and binds associate. */
  lemma AndThenLaws<T, E, U, V>(r: Result<T, E>, v: T, f: T -> Result<U, E>, g: U -> Result<V, E>)
    ensures AndThen(Ok(v), f) == f(v)
    ensures AndThen(r, x => Ok(x)) == r
    ensures AndThen(AndThen(r, f), g) == AndThen(r, x => AndThen(f(x), g))
  {
  }

  /** The mirror-image laws of `orElse` on the error channel. */
  lemma OrElseLaws<T, E, F, G>(r: Result<T, E>, e: E, f: E -> Result<T, F>, g: F -> Result<T, G>)
    ensures OrElse(Err(e), f) == f(e)
    ensures OrElse(r, x => Err(x)) == r
    ensures OrElse(OrElse(r, f), g) == OrElse(r, x => OrElse(f(x), g))
  {
  }

  /** `unwrap`, `expect`, `unwrapOr` and `unwrapOrElse` agree on every success,
      whatever the message, default or fallback. */
  lemma UnwrapsAgreeOnOk<T, E>(r: Result<T, E>, msg: string, def: T, f: E -> T)
    requires IsOk(r)
    ensures Unwrap(r) == Expect(r, msg) == UnwrapOr(r, def) == UnwrapOrElse(r, f)
  {
  }

  /** `unwrapOr(d)` is `unwrapOrElse` with the constant fallback. */
  lemma UnwrapOrIsUnwrapOrElse<T, E>(r: Result<T, E>, def: T)
    ensures UnwrapOr(r, def) == UnwrapOrElse(r, _ => def)
  {
  }
}
