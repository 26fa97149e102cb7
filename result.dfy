/** The combinators that src/core/result.ts attaches to `ResultOps`: folds to a plain
    value, peeks, `bimap`, `flatten`, and the lossy conversions to `Option`. */
module ResultExt {
  import opened ResultBasic
  import Options

  /** `mapOr`: `f` of the success value, or `def` on failure. */
  function MapOr<T, E, U>(r: Result<T, E>, def: U, f: T -> U): (v: U)
    ensures r.Ok? ==> v == f(r.value)
    ensures r.Err? ==> v == def
  {
    match r
    case Ok(x) => f(x)
    case Err(_) => def
  }

  /** `mapOrElse`: `fn` of the success value, or `errFn` of the error. */
  function MapOrElse<T, E, U>(r: Result<T, E>, errFn: E -> U, fn: T -> U): (v: U)
    ensures r.Ok? ==> v == fn(r.value)
    ensures r.Err? ==> v == errFn(r.error)
  {
    match r
    case Ok(x) => fn(x)
    case Err(e) => errFn(e)
  }

  /** `inspect`: hands a success value to `f` for its effect; returns the result itself. */
  function Inspect<T, E>(r: Result<T, E>, f: T -> ()): (res: Result<T, E>)
    ensures res == r
  {
    match r
    case Ok(x) => var _ := f(x); r
    case Err(_) => r
  }

  /** `inspectErr`: hands an error to `f` for its effect; returns the result itself. */
  function InspectErr<T, E>(r: Result<T, E>, f: E -> ()): (res: Result<T, E>)
    ensures res == r
  {
    match r
    case Ok(_) => r
    case Err(e) => var _ := f(e); r
  }

  /** `fold`: `okFn` of the success value, or `errFn` of the error. */
  function Fold<T, E, U>(r: Result<T, E>, okFn: T -> U, errFn: E -> U): (v: U)
    ensures r.Ok? ==> v == okFn(r.value)
    ensures r.Err? ==> v == errFn(r.error)
  {
    match r
    case Ok(x) => okFn(x)
    case Err(e) => errFn(e)
  }

  /** `bimap`: applies exactly one of the two functions, keeping the tag. */
  function Bimap<T, E, U, F>(r: Result<T, E>, okFn: T -> U, errFn: E -> F): (res: Result<U, F>)
    ensures IsOk(res) == IsOk(r)
    ensures r.Ok? ==> res.value == okFn(r.value)
    ensures r.Err? ==> res.error == errFn(r.error)
  {
    match r
    case Ok(x) => Ok(okFn(x))
    case Err(e) => Err(errFn(e))
  }

  /** `flatten`: removes one level of nesting when the success value is itself a
      result with the same error type. */
  function Flatten<U, E>(r: Result<Result<U, E>, E>): (res: Result<U, E>)
    ensures r.Ok? ==> res == r.value
    ensures r.Err? ==> res == Err(r.error)
  {
    match r
    case Err(e) => Err(e)
    case Ok(inner) => inner
  }

  /** `ok()`: the success value as an option; the error is dropped. */
  function OkOption<T, E>(r: Result<T, E>): (o: Options.Option<T>)
    ensures Options.IsSome(o) == IsOk(r)
    ensures r.Ok? ==> o.value == r.value
  {
    match r
    case Ok(x) => Options.Some(x)
    case Err(_) => Options.None
  }

  /** `err()`: the error as an option; a success becomes `None`. */
  function ErrOption<T, E>(r: Result<T, E>): (o: Options.Option<E>)
    ensures Options.IsSome(o) == IsErr(r)
    ensures r.Err? ==> o.value == r.error
  {
    match r
    case Ok(_) => Options.None
    case Err(e) => Options.Some(e)
  }

  // ---- Laws relating the operations ----

  /** `fold(okFn, errFn)` and `mapOrElse(errFn, okFn)` are the same operation. */
  lemma FoldIsMapOrElse<T, E, U>(r: Result<T, E>, okFn: T -> U, errFn: E -> U)
    ensures Fold(r, okFn, errFn) == MapOrElse(r, errFn, okFn)
  {
  }

  /** `mapOr(d, f)` is `mapOrElse` with a constant error handler, and is `unwrapOr(d)`
      of `ok()` mapped by `f`. */
  lemma MapOrLaws<T, E, U>(r: Result<T, E>, def: U, f: T -> U)
    ensures MapOr(r, def, f) == MapOrElse(r, _ => def, f)
    ensures MapOr(r, def, f) == Options.MapOr(OkOption(r), def, f)
  {
  }

  /** `bimap(f, g)` is `map(f)` followed by `mapErr(g)`, in either order. */
  lemma BimapIsMapThenMapErr<T, E, U, F>(r: Result<T, E>, f: T -> U, g: E -> F)
    ensures Bimap(r, f, g) == MapErr(Map(r, f), g)
    ensures Bimap(r, f, g) == Map(MapErr(r, g), f)
  {
  }

  /** `flatten` is `andThen` with the identity, and undoes wrapping the success value
      in `Ok`. */
  lemma FlattenLaws<U, E>(r: Result<Result<U, E>, E>, s: Result<U, E>)
    ensures Flatten(r) == AndThen(r, x => x)
    ensures Flatten(Map(s, (x: U) => Ok(x))) == s
  {
  }

  /** The three cases of `flatten` spelled out. */
  lemma FlattenCases<U, E>(v: U, e: E)
    ensures Flatten<U, E>(Ok(Ok(v))) == Ok(v)
    ensures Flatten<U, E>(Ok(Err(e))) == Err(e)
    ensures Flatten<U, E>(Err(e)) == Err(e)
  {
  }

  /** Exactly one of `ok()` and `err()` is `Some`, and together they determine the result. */
  lemma OkErrPartition<T, E>(r: Result<T, E>, s: Result<T, E>)
    ensures Options.IsSome(OkOption(r)) != Options.IsSome(ErrOption(r))
    ensures OkOption(r) == OkOption(s) && ErrOption(r) == ErrOption(s) ==> r == s
  {
  }

  /** `ok()` commutes with `map`, and `unwrapOr` is `unwrapOr` of `ok()`. */
  lemma OkOptionLaws<T, E, U>(r: Result<T, E>, f: T -> U, def: T)
    ensures OkOption(Map(r, f)) == Options.Map(OkOption(r), f)
    ensures UnwrapOr(r, def) == Options.UnwrapOr(OkOption(r), def)
  {
  }

  /** `inspect` and `inspectErr` return the result unchanged whatever the callback. */
  lemma InspectIgnoresCallback<T, E>(r: Result<T, E>, f: T -> (), g: E -> ())
    ensures Inspect(r, f) == r && InspectErr(r, g) == r
    ensures InspectErr(Inspect(r, f), g) == r
  {
  }
}
