/** The asynchronous sequence combinators of src/helpers/array.ts (`tryFilterAsync`,
    `tryFindAsync`, `tryMapAsync`, `tryForEachAsync`, `tryReduceAsync`). Each runs the
    loop of its synchronous twin but `await`s the callback's promise before looking
    at the result, so elements are handled strictly one at a time, in order.

    An awaited promise is modelled by how it settled. A promise that rejects makes
    the `await` throw, which rejects the whole call at once; a promise that fulfils
    with `Err(e)` makes the loop return `Err(e)` as in the synchronous version. Both
    stop the loop, so each asynchronous loop is the synchronous one run on a callback
    whose error channel carries either kind of stop (`Lift`), with the answer read
    back as a settled promise (`Lower`). */
module ArrayAsync {
  import opened ResultBasic
  import Options
  import opened ArrayHelpers

  /** How a promise settled. */
  datatype Settled<+T, +R> = Fulfilled(value: T) | Rejected(reason: R)

  /** Why an asynchronous loop stopped early: an `Err` from the callback, or a rejection. */
  datatype Stop<+E, +R> = Returned(error: E) | Thrown(reason: R)

  /** One awaited step, seen as a synchronous result whose error says why the loop stops. */
  function LiftStep<U, E, R>(s: Settled<Result<U, E>, R>): (r: Result<U, Stop<E, R>>)
    ensures r.Ok? <==> s.Fulfilled? && s.value.Ok?
  {
    match s
    case Rejected(x) => Err(Thrown(x))
    case Fulfilled(Err(e)) => Err(Returned(e))
    case Fulfilled(Ok(u)) => Ok(u)
  }

  /** A synchronous answer read back as the settled promise the async function returns. */
  function Lower<V, E, R>(r: Result<V, Stop<E, R>>): (s: Settled<Result<V, E>, R>)
    ensures s.Rejected? <==> r.Err? && r.error.Thrown?
    ensures s.Fulfilled? && s.value.Ok? <==> r.Ok?
    ensures r.Ok? ==> s.value.value == r.value
    ensures r.Err? && r.error.Returned? ==> s == Fulfilled(Err(r.error.error))
  {
    match r
    case Ok(v) => Fulfilled(Ok(v))
    case Err(Returned(e)) => Fulfilled(Err(e))
    case Err(Thrown(x)) => Rejected(x)
  }

  /** `LiftStep` and `Lower` are inverse encodings: nothing is lost either way. */
  lemma LiftLowerInverse<U, E, R>(s: Settled<Result<U, E>, R>, r: Result<U, Stop<E, R>>)
    ensures Lower(LiftStep(s)) == s
    ensures LiftStep(Lower(r)) == r
  {
  }

  /** An async callback seen as a synchronous one: each call is the awaited step. */
  function Lift<T, U, E, R>(fn: T -> Settled<Result<U, E>, R>): T -> Result<U, Stop<E, R>>
  {
    x => LiftStep(fn(x))
  }

  /** The two-argument form of `Lift`, for the reducer of `tryReduceAsync`. */
  function Lift2<A, T, E, R>(fn: (A, T) -> Settled<Result<A, E>, R>): (A, T) -> Result<A, Stop<E, R>>
  {
    (acc, x) => LiftStep(fn(acc, x))
  }

  /** Lifting loses nothing: a lifted call continues exactly when the promise fulfils
      with `Ok`, and reading it back gives the settled promise itself. */
  lemma LiftRoundTrip<T, U, E, R>(fn: T -> Settled<Result<U, E>, R>, x: T)
    ensures Lift(fn)(x).Ok? <==> fn(x).Fulfilled? && fn(x).value.Ok?
    ensures Lower(Lift(fn)(x)) == fn(x)
  {
  }

  /** The same for the two-argument lift of a reducer. */
  lemma Lift2RoundTrip<A, T, E, R>(fn: (A, T) -> Settled<Result<A, E>, R>, acc: A, x: T)
    ensures Lift2(fn)(acc, x).Ok? <==> fn(acc, x).Fulfilled? && fn(acc, x).value.Ok?
    ensures Lower(Lift2(fn)(acc, x)) == fn(acc, x)
  {
  }

  /** When every awaited promise fulfils, the lifted callback fails exactly where the
      synchronous one does, with its error tagged `Returned`. */
  lemma LiftFulfilled<T, U, E, R>(arr: seq<T>, fn: T -> Settled<Result<U, E>, R>, g: T -> Result<U, E>)
    requires forall i :: 0 <= i < |arr| ==> fn(arr[i]) == Fulfilled(g(arr[i]))
    ensures AllOk(arr, Lift(fn)) <==> AllOk(arr, g)
    ensures forall k: nat :: FirstErrAt(arr, Lift(fn), k) <==> FirstErrAt(arr, g, k)
  {
  }

  // ---------------------------------------------------------------------------
  // tryMapAsync
  // ---------------------------------------------------------------------------

  /** With every promise fulfilled, `tryMapAsync` agrees with `tryMap` (its errors
      tagged `Returned` before `Lower` unwraps them). */
  lemma {:induction false} TryMapAsyncAgrees<T, U, E, R>(arr: seq<T>, fn: T -> Settled<Result<U, E>, R>, g: T -> Result<U, E>)
    requires forall i :: 0 <= i < |arr| ==> fn(arr[i]) == Fulfilled(g(arr[i]))
    ensures TryMapSpec(arr, Lift(fn)) == MapErr(TryMapSpec(arr, g), e => Returned(e))
    ensures Lower(TryMapSpec(arr, Lift(fn))) == Fulfilled(TryMapSpec(arr, g))
    decreases |arr|
  {
    if arr != [] {
      var init := arr[..|arr| - 1];
      assert forall i :: 0 <= i < |init| ==> init[i] == arr[i];
      TryMapAsyncAgrees(init, fn, g);
    }
  }

  /** `tryMapAsync`: the loop of src/helpers/array.ts, one awaited call per element. */
  method TryMapAsync<T, U, E, R>(arr: seq<T>, fn: T -> Settled<Result<U, E>, R>)
    returns (p: Settled<Result<seq<U>, E>, R>, ghost visited: seq<nat>)
    ensures p == Lower(TryMapSpec(arr, Lift(fn)))
    ensures AllOk(arr, Lift(fn)) ==> visited == Upto(|arr|)
    ensures forall k: nat :: FirstErrAt(arr, Lift(fn), k) ==> visited == Upto(k + 1)
  {
    var res: seq<U> := [];
    visited := [];
    var i := 0;
    while i < |arr|
      invariant 0 <= i <= |arr|
      invariant TryMapSpec(arr[..i], Lift(fn)) == Ok(res)
      invariant forall j :: 0 <= j < i ==> Lift(fn)(arr[j]).Ok?
      invariant visited == Upto(i)
    {
      var item := arr[i];
      visited := visited + [i];
      var settled := fn(item);
      assert arr[..i + 1][..i] == arr[..i];
      match settled {
        case Rejected(x) =>
          p := Rejected(x);
          TryMapStopsAtErr(arr, Lift(fn), i + 1);
          return;
        case Fulfilled(r) =>
          if r.Err? {
            p := Fulfilled(Err(r.error));
            TryMapStopsAtErr(arr, Lift(fn), i + 1);
            return;
          }
          res := res + [r.value];
      }
      i := i + 1;
    }
    assert arr[..i] == arr;
    p := Fulfilled(Ok(res));
  }

  // ---------------------------------------------------------------------------
  // tryFilterAsync
  // ---------------------------------------------------------------------------

  /** When every awaited promise fulfils, `tryFilterAsync` fulfils with `tryFilter`'s result. */
  lemma {:induction false} TryFilterAsyncAgrees<T, E, R>(arr: seq<T>, fn: T -> Settled<Result<bool, E>, R>, g: T -> Result<bool, E>)
    requires forall i :: 0 <= i < |arr| ==> fn(arr[i]) == Fulfilled(g(arr[i]))
    ensures TryFilterSpec(arr, Lift(fn)) == MapErr(TryFilterSpec(arr, g), e => Returned(e))
    ensures Lower(TryFilterSpec(arr, Lift(fn))) == Fulfilled(TryFilterSpec(arr, g))
    decreases |arr|
  {
    if arr != [] {
      var init := arr[..|arr| - 1];
      assert forall i :: 0 <= i < |init| ==> init[i] == arr[i];
      TryFilterAsyncAgrees(init, fn, g);
    }
  }

  /** `tryFilterAsync`: the loop of src/helpers/array.ts, one awaited call per element. */
  method TryFilterAsync<T, E, R>(arr: seq<T>, fn: T -> Settled<Result<bool, E>, R>)
    returns (p: Settled<Result<seq<T>, E>, R>, ghost visited: seq<nat>)
    ensures p == Lower(TryFilterSpec(arr, Lift(fn)))
    ensures AllOk(arr, Lift(fn)) ==> visited == Upto(|arr|)
    ensures forall k: nat :: FirstErrAt(arr, Lift(fn), k) ==> visited == Upto(k + 1)
  {
    var res: seq<T> := [];
    visited := [];
    var i := 0;
    while i < |arr|
      invariant 0 <= i <= |arr|
      invariant TryFilterSpec(arr[..i], Lift(fn)) == Ok(res)
      invariant forall j :: 0 <= j < i ==> Lift(fn)(arr[j]).Ok?
      invariant visited == Upto(i)
    {
      var item := arr[i];
      visited := visited + [i];
      var settled := fn(item);
      assert arr[..i + 1][..i] == arr[..i];
      match settled {
        case Rejected(x) =>
          p := Rejected(x);
          TryFilterStopsAtErr(arr, Lift(fn), i + 1);
          return;
        case Fulfilled(r) =>
          if r.Err? {
            p := Fulfilled(Err(r.error));
            TryFilterStopsAtErr(arr, Lift(fn), i + 1);
            return;
          }
          if r.value {
            res := res + [item];
          }
      }
      i := i + 1;
    }
    assert arr[..i] == arr;
    p := Fulfilled(Ok(res));
  }

  // ---------------------------------------------------------------------------
  // tryFindAsync
  // ---------------------------------------------------------------------------

  /** When every awaited promise fulfils, `tryFindAsync` fulfils with `tryFind`'s result and
      stops at the same index. */
  lemma {:induction false} TryFindAsyncAgrees<T, E, R>(arr: seq<T>, fn: T -> Settled<Result<bool, E>, R>, g: T -> Result<bool, E>)
    requires forall i :: 0 <= i < |arr| ==> fn(arr[i]) == Fulfilled(g(arr[i]))
    ensures TryFindSpec(arr, Lift(fn)) == MapErr(TryFindSpec(arr, g), e => Returned(e))
    ensures Lower(TryFindSpec(arr, Lift(fn))) == Fulfilled(TryFindSpec(arr, g))
    ensures forall k: nat :: StopsAt(arr, Lift(fn), k) <==> StopsAt(arr, g, k)
    decreases |arr|
  {
    if arr != [] {
      var init := arr[..|arr| - 1];
      assert forall i :: 0 <= i < |init| ==> init[i] == arr[i];
      TryFindAsyncAgrees(init, fn, g);
    }
  }

  /** `tryFindAsync`: the loop of src/helpers/array.ts, one awaited call per element. */
  method TryFindAsync<T, E, R>(arr: seq<T>, fn: T -> Settled<Result<bool, E>, R>)
    returns (p: Settled<Result<Options.Option<T>, E>, R>, ghost visited: seq<nat>)
    ensures p == Lower(TryFindSpec(arr, Lift(fn)))
    ensures AllMiss(arr, Lift(fn)) ==> visited == Upto(|arr|)
    ensures forall k: nat :: StopsAt(arr, Lift(fn), k) ==> visited == Upto(k + 1)
  {
    visited := [];
    var i := 0;
    while i < |arr|
      invariant 0 <= i <= |arr|
      invariant TryFindSpec(arr[..i], Lift(fn)) == Ok(Options.None)
      invariant forall j :: 0 <= j < i ==> Misses(Lift(fn), arr[j])
      invariant visited == Upto(i)
    {
      var item := arr[i];
      visited := visited + [i];
      var settled := fn(item);
      assert arr[..i + 1][..i] == arr[..i];
      match settled {
        case Rejected(x) =>
          p := Rejected(x);
          TryFindStops(arr, Lift(fn), i + 1);
          return;
        case Fulfilled(r) =>
          if r.Err? {
            p := Fulfilled(Err(r.error));
            TryFindStops(arr, Lift(fn), i + 1);
            return;
          }
          if r.value {
            p := Fulfilled(Ok(Options.Some(item)));
            TryFindStops(arr, Lift(fn), i + 1);
            return;
          }
      }
      i := i + 1;
    }
    assert arr[..i] == arr;
    p := Fulfilled(Ok(Options.None));
  }

  // ---------------------------------------------------------------------------
  // tryForEachAsync
  // ---------------------------------------------------------------------------

  /** With every promise fulfilled, `tryForEachAsync` agrees with `tryForEach`. */
  lemma TryForEachAsyncAgrees<T, E, R>(arr: seq<T>, fn: T -> Settled<Result<(), E>, R>, g: T -> Result<(), E>)
    requires forall i :: 0 <= i < |arr| ==> fn(arr[i]) == Fulfilled(g(arr[i]))
    ensures Lower(TryForEachSpec(arr, Lift(fn))) == Fulfilled(TryForEachSpec(arr, g))
  {
    TryMapAsyncAgrees(arr, fn, g);
  }

  /** `tryForEachAsync`: the loop of src/helpers/array.ts, one awaited call per element. */
  method TryForEachAsync<T, E, R>(arr: seq<T>, fn: T -> Settled<Result<(), E>, R>)
    returns (p: Settled<Result<(), E>, R>, ghost visited: seq<nat>)
    ensures p == Lower(TryForEachSpec(arr, Lift(fn)))
    ensures AllOk(arr, Lift(fn)) ==> visited == Upto(|arr|)
    ensures forall k: nat :: FirstErrAt(arr, Lift(fn), k) ==> visited == Upto(k + 1)
  {
    visited := [];
    var i := 0;
    while i < |arr|
      invariant 0 <= i <= |arr|
      invariant TryMapSpec(arr[..i], Lift(fn)).Ok?
      invariant forall j :: 0 <= j < i ==> Lift(fn)(arr[j]).Ok?
      invariant visited == Upto(i)
    {
      var item := arr[i];
      visited := visited + [i];
      var settled := fn(item);
      assert arr[..i + 1][..i] == arr[..i];
      match settled {
        case Rejected(x) =>
          p := Rejected(x);
          TryMapStopsAtErr(arr, Lift(fn), i + 1);
          return;
        case Fulfilled(r) =>
          if r.Err? {
            p := Fulfilled(Err(r.error));
            TryMapStopsAtErr(arr, Lift(fn), i + 1);
            return;
          }
      }
      i := i + 1;
    }
    assert arr[..i] == arr;
    p := Fulfilled(Ok(()));
  }

  // ---------------------------------------------------------------------------
  // tryReduceAsync
  // ---------------------------------------------------------------------------

  /** With every promise fulfilled, `tryReduceAsync` agrees with `tryReduce`. */
  lemma {:induction false} TryReduceAsyncAgrees<T, A, E, R>(arr: seq<T>, init: A, fn: (A, T) -> Settled<Result<A, E>, R>, g: (A, T) -> Result<A, E>)
    requires forall acc: A, i :: 0 <= i < |arr| ==> fn(acc, arr[i]) == Fulfilled(g(acc, arr[i]))
    ensures TryReduceSpec(arr, init, Lift2(fn)) == MapErr(TryReduceSpec(arr, init, g), e => Returned(e))
    ensures Lower(TryReduceSpec(arr, init, Lift2(fn))) == Fulfilled(TryReduceSpec(arr, init, g))
    decreases |arr|
  {
    if arr != [] {
      var init' := arr[..|arr| - 1];
      assert forall i :: 0 <= i < |init'| ==> init'[i] == arr[i];
      TryReduceAsyncAgrees(init', init, fn, g);
      var last := arr[|arr| - 1];
      match TryReduceSpec(init', init, g)
      case Err(e) =>
      case Ok(acc) =>
        assert fn(acc, last) == Fulfilled(g(acc, last));
        assert Lift2(fn)(acc, last) == MapErr(g(acc, last), e => Returned(e));
    }
  }

  /** `tryReduceAsync`: the loop of src/helpers/array.ts, one awaited call per element. */
  method TryReduceAsync<T, A, E, R>(arr: seq<T>, init: A, fn: (A, T) -> Settled<Result<A, E>, R>)
    returns (p: Settled<Result<A, E>, R>, ghost visited: seq<nat>)
    ensures p == Lower(TryReduceSpec(arr, init, Lift2(fn)))
    ensures p.Fulfilled? && p.value.Ok? ==> visited == Upto(|arr|)
    ensures forall k: nat :: FailsAt(arr, init, Lift2(fn), k) ==> visited == Upto(k + 1)
  {
    var acc := init;
    visited := [];
    var i := 0;
    while i < |arr|
      invariant 0 <= i <= |arr|
      invariant TryReduceSpec(arr[..i], init, Lift2(fn)) == Ok(acc)
      invariant visited == Upto(i)
    {
      var item := arr[i];
      visited := visited + [i];
      var settled := fn(acc, item);
      assert arr[..i + 1][..i] == arr[..i];
      if settled.Rejected? || settled.value.Err? {
        p := settled;
        TryReduceStopsAtErr(arr, init, Lift2(fn), i + 1);
        forall k: nat | FailsAt(arr, init, Lift2(fn), k)
          ensures k == i
        {
          if k < i {
            FailsAtUnique(arr, init, Lift2(fn), k, i);
          } else if k > i {
            FailsAtUnique(arr, init, Lift2(fn), i, k);
          }
        }
        return;
      }
      acc := settled.value.value;
      i := i + 1;
    }
    assert arr[..i] == arr;
    p := Fulfilled(Ok(acc));
    forall k: nat | FailsAt(arr, init, Lift2(fn), k)
      ensures false
    {
      FailsAtUnique(arr, init, Lift2(fn), k, |arr|);
    }
  }
}
