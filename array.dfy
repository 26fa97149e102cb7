/** The synchronous sequence combinators of src/helpers/array.ts. Each walks the input
    in order, calls the callback once per element, and returns at the first `Err`
    (for `tryFind`, also at the first match).

    Every loop is proved against a specification function defined on prefixes, so
    that the loop's invariant is "the specification of the part seen so far". Each
    method also returns a ghost `visited` trace: the indices it handed to the
    callback, in order. Separate lemmas connect each specification to an
    independent description of the answer (element by element, a front-to-back
    recursive filter, a left fold, or `collect`). */
module ArrayHelpers {
  import opened ResultBasic
  import Options
  import SyncHelpers

  /** The indices 0, 1, ..., n - 1 in order: the trace of a loop over the first n elements. */
  function Upto(n: nat): (s: seq<nat>)
    ensures |s| == n
    ensures forall i :: 0 <= i < n ==> s[i] == i
  {
    if n == 0 then [] else Upto(n - 1) + [n - 1]
  }

  /** Every element's callback result is `Ok`. */
  predicate AllOk<T, U, E>(arr: seq<T>, fn: T -> Result<U, E>)
  {
    forall i :: 0 <= i < |arr| ==> fn(arr[i]).Ok?
  }

  /** `k` is the first index whose callback result is `Err`. */
  predicate FirstErrAt<T, U, E>(arr: seq<T>, fn: T -> Result<U, E>, k: nat)
  {
    k < |arr| && fn(arr[k]).Err? && forall j :: 0 <= j < k ==> fn(arr[j]).Ok?
  }

  /** If not every result is `Ok`, some index is the first `Err`. */
  lemma {:induction false} FirstErrBelow<T, U, E>(arr: seq<T>, fn: T -> Result<U, E>, i: nat)
    requires i < |arr| && fn(arr[i]).Err?
    ensures exists k: nat :: k <= i && FirstErrAt(arr, fn, k)
    decreases i
  {
    if forall j :: 0 <= j < i ==> fn(arr[j]).Ok? {
      assert FirstErrAt(arr, fn, i);
    } else {
      var j :| 0 <= j < i && fn(arr[j]).Err?;
      FirstErrBelow(arr, fn, j);
    }
  }

  lemma FirstErrExists<T, U, E>(arr: seq<T>, fn: T -> Result<U, E>)
    requires !AllOk(arr, fn)
    ensures exists k: nat :: FirstErrAt(arr, fn, k)
  {
    var i :| 0 <= i < |arr| && fn(arr[i]).Err?;
    FirstErrBelow(arr, fn, i);
  }

  // ---------------------------------------------------------------------------
  // tryMap
  // ---------------------------------------------------------------------------

  /** What `tryMap` returns, defined on prefixes the way the loop builds it. */
  function TryMapSpec<T, U, E>(arr: seq<T>, fn: T -> Result<U, E>): (r: Result<seq<U>, E>)
    ensures r.Ok? ==> |r.value| == |arr|
    decreases |arr|
  {
    if arr == [] then Ok([])
    else
      var prev := TryMapSpec(arr[..|arr| - 1], fn);
      if prev.Err? then prev
      else match fn(arr[|arr| - 1])
        case Err(e) => Err(e)
        case Ok(u) => Ok(prev.value + [u])
  }

  /** Once a prefix has failed, the rest of the input is irrelevant. */
  lemma {:induction false} TryMapStopsAtErr<T, U, E>(arr: seq<T>, fn: T -> Result<U, E>, n: nat)
    requires n <= |arr| && TryMapSpec(arr[..n], fn).Err?
    ensures TryMapSpec(arr, fn) == TryMapSpec(arr[..n], fn)
    decreases |arr| - n
  {
    if n == |arr| {
      assert arr[..n] == arr;
    } else {
      var init := arr[..|arr| - 1];
      assert init[..n] == arr[..n];
      TryMapStopsAtErr(init, fn, n);
    }
  }

  /** When every call succeeds, `tryMap` returns the values, index by index. */
  lemma {:induction false} TryMapAllOk<T, U, E>(arr: seq<T>, fn: T -> Result<U, E>)
    requires AllOk(arr, fn)
    ensures TryMapSpec(arr, fn).Ok?
    ensures |TryMapSpec(arr, fn).value| == |arr|
    ensures forall i :: 0 <= i < |arr| ==> TryMapSpec(arr, fn).value[i] == fn(arr[i]).value
    decreases |arr|
  {
    if arr != [] {
      var init := arr[..|arr| - 1];
      assert forall i :: 0 <= i < |init| ==> init[i] == arr[i];
      TryMapAllOk(init, fn);
    }
  }

  /** When `k` is the first failing index, `tryMap` returns exactly that error. */
  lemma TryMapFirstErr<T, U, E>(arr: seq<T>, fn: T -> Result<U, E>, k: nat)
    requires FirstErrAt(arr, fn, k)
    ensures TryMapSpec(arr, fn) == Err(fn(arr[k]).error)
  {
    var pre, upto := arr[..k], arr[..k + 1];
    assert forall i :: 0 <= i < |pre| ==> pre[i] == arr[i];
    TryMapAllOk(pre, fn);
    assert upto[..k] == pre;
    TryMapStopsAtErr(arr, fn, k + 1);
  }

  /** `tryMap` succeeds exactly when every call succeeds. */
  lemma TryMapOkIffAllOk<T, U, E>(arr: seq<T>, fn: T -> Result<U, E>)
    ensures TryMapSpec(arr, fn).Ok? <==> AllOk(arr, fn)
  {
    if AllOk(arr, fn) {
      TryMapAllOk(arr, fn);
    } else {
      FirstErrExists(arr, fn);
      var k: nat :| FirstErrAt(arr, fn, k);
      TryMapFirstErr(arr, fn, k);
    }
  }

  /** The callback's results, one per element. */
  function Apply<T, U, E>(arr: seq<T>, fn: T -> Result<U, E>): (rs: seq<Result<U, E>>)
    ensures |rs| == |arr|
    ensures forall i :: 0 <= i < |arr| ==> rs[i] == fn(arr[i])
  {
    seq(|arr|, i requires 0 <= i < |arr| => fn(arr[i]))
  }

  /** `tryMap(arr, fn)` is `collect` of the callback's results: the values of the
      `Ok`s when there is no error, otherwise the first error. */
  lemma TryMapIsCollect<T, U, E>(arr: seq<T>, fn: T -> Result<U, E>)
    ensures SyncHelpers.ErrValues(Apply(arr, fn)) == [] ==>
              TryMapSpec(arr, fn) == Ok(SyncHelpers.OkValues(Apply(arr, fn)))
    ensures SyncHelpers.ErrValues(Apply(arr, fn)) != [] ==>
              TryMapSpec(arr, fn) == Err(SyncHelpers.ErrValues(Apply(arr, fn))[0])
  {
    var rs := Apply(arr, fn);
    if AllOk(arr, fn) {
      TryMapAllOk(arr, fn);
      SyncHelpers.AllOkValues(rs);
      assert TryMapSpec(arr, fn).value == SyncHelpers.OkValues(rs);
    } else {
      FirstErrExists(arr, fn);
      var k: nat :| FirstErrAt(arr, fn, k);
      TryMapFirstErr(arr, fn, k);
      SyncHelpers.FirstErrValue(rs, k);
    }
  }

  /** A callback that doubles odd numbers and fails with "even" on even ones. */
  function DoubleOdd(n: int): Result<int, string>
  {
    if n % 2 == 1 then Ok(2 * n) else Err("even")
  }

  /** Over [1, 2, 3], `tryMap` with `DoubleOdd` stops at the second element with
      `Err("even")`; by `TryMap`'s contract it has then called the callback on
      indices 0 and 1 only. */
  lemma DoubleOddStopsAtTwo()
    ensures FirstErrAt([1, 2, 3], DoubleOdd, 1)
    ensures TryMapSpec([1, 2, 3], DoubleOdd) == Err("even")
  {
    assert FirstErrAt([1, 2, 3], DoubleOdd, 1);
    TryMapFirstErr([1, 2, 3], DoubleOdd, 1);
  }

  /** `tryMap`: the loop of src/helpers/array.ts. */
  method TryMap<T, U, E>(arr: seq<T>, fn: T -> Result<U, E>) returns (r: Result<seq<U>, E>, ghost visited: seq<nat>)
    ensures r == TryMapSpec(arr, fn)
    ensures AllOk(arr, fn) ==> visited == Upto(|arr|)
    ensures forall k: nat :: FirstErrAt(arr, fn, k) ==> visited == Upto(k + 1)
  {
    var res: seq<U> := [];
    visited := [];
    var i := 0;
    while i < |arr|
      invariant 0 <= i <= |arr|
      invariant TryMapSpec(arr[..i], fn) == Ok(res)
      invariant forall j :: 0 <= j < i ==> fn(arr[j]).Ok?
      invariant visited == Upto(i)
    {
      var item := arr[i];
      visited := visited + [i];
      var step := fn(item);
      assert arr[..i + 1][..i] == arr[..i];
      if step.Err? {
        r := Err(step.error);
        TryMapStopsAtErr(arr, fn, i + 1);
        return;
      }
      res := res + [step.value];
      i := i + 1;
    }
    assert arr[..i] == arr;
    r := Ok(res);
  }

  // ---------------------------------------------------------------------------
  // tryFilter
  // ---------------------------------------------------------------------------

  /** The predicate answered `Ok(true)` for `x`. */
  predicate Keeps<T, E>(fn: T -> Result<bool, E>, x: T)
  {
    fn(x).Ok? && fn(x).value
  }

  /** The predicate answered `Ok(false)` for `x`. */
  predicate Misses<T, E>(fn: T -> Result<bool, E>, x: T)
  {
    fn(x).Ok? && !fn(x).value
  }

  /** The order-preserving sub-sequence of `arr` whose predicate answered `Ok(true)`. */
  function Selected<T, E>(arr: seq<T>, fn: T -> Result<bool, E>): (s: seq<T>)
    ensures |s| <= |arr|
    decreases |arr|
  {
    if arr == [] then []
    else (if Keeps(fn, arr[0]) then [arr[0]] else []) + Selected(arr[1..], fn)
  }

  /** The indices whose predicate answered `Ok(true)`, in increasing order. */
  function KeptIndices<T, E>(arr: seq<T>, fn: T -> Result<bool, E>): (idx: seq<nat>)
    ensures forall i :: 0 <= i < |idx| ==> idx[i] < |arr| && Keeps(fn, arr[idx[i]])
    ensures forall i, j :: 0 <= i < j < |idx| ==> idx[i] < idx[j]
    ensures forall j :: 0 <= j < |arr| && Keeps(fn, arr[j]) ==> j in idx
    decreases |arr|
  {
    if arr == [] then []
    else
      var init := arr[..|arr| - 1];
      assert forall j :: 0 <= j < |init| ==> init[j] == arr[j];
      KeptIndices(init, fn) + (if Keeps(fn, arr[|arr| - 1]) then [|arr| - 1] else [])
  }

  /** One more element extends the selection exactly when it is kept. */
  lemma {:induction false} SelectedSnoc<T, E>(arr: seq<T>, x: T, fn: T -> Result<bool, E>)
    ensures Selected(arr + [x], fn) == Selected(arr, fn) + (if Keeps(fn, x) then [x] else [])
    decreases |arr|
  {
    if arr == [] {
      assert arr + [x] == [x];
    } else {
      assert (arr + [x])[1..] == arr[1..] + [x];
      SelectedSnoc(arr[1..], x, fn);
    }
  }

  /** `Selected` is an order-preserving sub-sequence of `arr`: element `i` of it is
      `arr[KeptIndices(arr, fn)[i]]`, and those indices are exactly the kept ones. */
  lemma {:induction false} SelectedIsSubsequence<T, E>(arr: seq<T>, fn: T -> Result<bool, E>)
    ensures |Selected(arr, fn)| == |KeptIndices(arr, fn)|
    ensures forall i :: 0 <= i < |Selected(arr, fn)| ==> Selected(arr, fn)[i] == arr[KeptIndices(arr, fn)[i]]
    decreases |arr|
  {
    if arr != [] {
      var init, last := arr[..|arr| - 1], arr[|arr| - 1];
      SelectedIsSubsequence(init, fn);
      assert arr == init + [last];
      SelectedSnoc(init, last, fn);
      assert forall j :: 0 <= j < |init| ==> init[j] == arr[j];
    }
  }

  /** What `tryFilter` returns, defined on prefixes the way the loop builds it. */
  function TryFilterSpec<T, E>(arr: seq<T>, fn: T -> Result<bool, E>): (r: Result<seq<T>, E>)
    ensures r.Ok? ==> |r.value| <= |arr|
    ensures r.Ok? ==> forall i :: 0 <= i < |r.value| ==> Keeps(fn, r.value[i])
    decreases |arr|
  {
    if arr == [] then Ok([])
    else
      var prev := TryFilterSpec(arr[..|arr| - 1], fn);
      if prev.Err? then prev
      else match fn(arr[|arr| - 1])
        case Err(e) => Err(e)
        case Ok(keep) => Ok(if keep then prev.value + [arr[|arr| - 1]] else prev.value)
  }

  /** Once a prefix has failed, the rest of the input does not change `tryFilter`'s answer. */
  lemma {:induction false} TryFilterStopsAtErr<T, E>(arr: seq<T>, fn: T -> Result<bool, E>, n: nat)
    requires n <= |arr| && TryFilterSpec(arr[..n], fn).Err?
    ensures TryFilterSpec(arr, fn) == TryFilterSpec(arr[..n], fn)
    decreases |arr| - n
  {
    if n == |arr| {
      assert arr[..n] == arr;
    } else {
      var init := arr[..|arr| - 1];
      assert init[..n] == arr[..n];
      TryFilterStopsAtErr(init, fn, n);
    }
  }

  /** When every call succeeds, `tryFilter` returns the selected sub-sequence. */
  lemma {:induction false} TryFilterAllOk<T, E>(arr: seq<T>, fn: T -> Result<bool, E>)
    requires AllOk(arr, fn)
    ensures TryFilterSpec(arr, fn) == Ok(Selected(arr, fn))
    decreases |arr|
  {
    if arr != [] {
      var init, last := arr[..|arr| - 1], arr[|arr| - 1];
      assert forall i :: 0 <= i < |init| ==> init[i] == arr[i];
      TryFilterAllOk(init, fn);
      assert arr == init + [last];
      SelectedSnoc(init, last, fn);
      assert fn(last).Ok?;
      if !Keeps(fn, last) {
        assert Selected(init, fn) + [] == Selected(init, fn);
      }
    }
  }

  /** When `k` is the first failing index, `tryFilter` returns exactly that error. */
  lemma TryFilterFirstErr<T, E>(arr: seq<T>, fn: T -> Result<bool, E>, k: nat)
    requires FirstErrAt(arr, fn, k)
    ensures TryFilterSpec(arr, fn) == Err(fn(arr[k]).error)
  {
    var pre, upto := arr[..k], arr[..k + 1];
    assert forall i :: 0 <= i < |pre| ==> pre[i] == arr[i];
    TryFilterAllOk(pre, fn);
    assert upto[..k] == pre;
    TryFilterStopsAtErr(arr, fn, k + 1);
  }

  /** `tryFilter` succeeds exactly when every call succeeds, and its value is then no
      longer than the input. */
  lemma TryFilterOkIffAllOk<T, E>(arr: seq<T>, fn: T -> Result<bool, E>)
    ensures TryFilterSpec(arr, fn).Ok? <==> AllOk(arr, fn)
    ensures TryFilterSpec(arr, fn).Ok? ==> |TryFilterSpec(arr, fn).value| <= |arr|
  {
    if AllOk(arr, fn) {
      TryFilterAllOk(arr, fn);
    } else {
      FirstErrExists(arr, fn);
      var k: nat :| FirstErrAt(arr, fn, k);
      TryFilterFirstErr(arr, fn, k);
    }
  }

  /** `tryFilter`: the loop of src/helpers/array.ts. */
  method TryFilter<T, E>(arr: seq<T>, fn: T -> Result<bool, E>) returns (r: Result<seq<T>, E>, ghost visited: seq<nat>)
    ensures r == TryFilterSpec(arr, fn)
    ensures AllOk(arr, fn) ==> visited == Upto(|arr|)
    ensures forall k: nat :: FirstErrAt(arr, fn, k) ==> visited == Upto(k + 1)
  {
    var res: seq<T> := [];
    visited := [];
    var i := 0;
    while i < |arr|
      invariant 0 <= i <= |arr|
      invariant TryFilterSpec(arr[..i], fn) == Ok(res)
      invariant forall j :: 0 <= j < i ==> fn(arr[j]).Ok?
      invariant visited == Upto(i)
    {
      var item := arr[i];
      visited := visited + [i];
      var step := fn(item);
      assert arr[..i + 1][..i] == arr[..i];
      if step.Err? {
        r := Err(step.error);
        TryFilterStopsAtErr(arr, fn, i + 1);
        return;
      }
      if step.value {
        res := res + [item];
      }
      i := i + 1;
    }
    assert arr[..i] == arr;
    r := Ok(res);
  }

  // ---------------------------------------------------------------------------
  // tryFind
  // ---------------------------------------------------------------------------

  /** Every element's predicate answered `Ok(false)`. */
  predicate AllMiss<T, E>(arr: seq<T>, fn: T -> Result<bool, E>)
  {
    forall i :: 0 <= i < |arr| ==> Misses(fn, arr[i])
  }

  /** `k` is the first index whose predicate did not answer `Ok(false)`: a match or an error. */
  predicate StopsAt<T, E>(arr: seq<T>, fn: T -> Result<bool, E>, k: nat)
  {
    k < |arr| && !Misses(fn, arr[k]) && forall j :: 0 <= j < k ==> Misses(fn, arr[j])
  }

  /** What `tryFind` returns, defined on prefixes the way the loop searches. */
  function TryFindSpec<T, E>(arr: seq<T>, fn: T -> Result<bool, E>): (r: Result<Options.Option<T>, E>)
    ensures r.Ok? && r.value.Some? ==> r.value.value in arr && Keeps(fn, r.value.value)
    decreases |arr|
  {
    if arr == [] then Ok(Options.None)
    else
      var prev := TryFindSpec(arr[..|arr| - 1], fn);
      if prev.Err? || prev.value.Some? then prev
      else match fn(arr[|arr| - 1])
        case Err(e) => Err(e)
        case Ok(hit) => if hit then Ok(Options.Some(arr[|arr| - 1])) else Ok(Options.None)
  }

  /** Once a prefix has matched or failed, the rest of the input does not change `tryFind`'s answer. */
  lemma {:induction false} TryFindStops<T, E>(arr: seq<T>, fn: T -> Result<bool, E>, n: nat)
    requires n <= |arr| && (TryFindSpec(arr[..n], fn).Err? || TryFindSpec(arr[..n], fn).value.Some?)
    ensures TryFindSpec(arr, fn) == TryFindSpec(arr[..n], fn)
    decreases |arr| - n
  {
    if n == |arr| {
      assert arr[..n] == arr;
    } else {
      var init := arr[..|arr| - 1];
      assert init[..n] == arr[..n];
      TryFindStops(init, fn, n);
    }
  }

  /** When every element misses, `tryFind` returns `Ok(None)`. */
  lemma {:induction false} TryFindAllMiss<T, E>(arr: seq<T>, fn: T -> Result<bool, E>)
    requires AllMiss(arr, fn)
    ensures TryFindSpec(arr, fn) == Ok(Options.None)
    decreases |arr|
  {
    if arr != [] {
      var init := arr[..|arr| - 1];
      assert forall i :: 0 <= i < |init| ==> init[i] == arr[i];
      TryFindAllMiss(init, fn);
    }
  }

  /** When `k` is the first index that does not miss, `tryFind` returns `Ok(Some(arr[k]))`
      for a match and exactly the error for a failure. */
  lemma TryFindFirstStop<T, E>(arr: seq<T>, fn: T -> Result<bool, E>, k: nat)
    requires StopsAt(arr, fn, k)
    ensures fn(arr[k]).Ok? ==> TryFindSpec(arr, fn) == Ok(Options.Some(arr[k]))
    ensures fn(arr[k]).Err? ==> TryFindSpec(arr, fn) == Err(fn(arr[k]).error)
  {
    var pre, upto := arr[..k], arr[..k + 1];
    assert forall i :: 0 <= i < |pre| ==> pre[i] == arr[i];
    TryFindAllMiss(pre, fn);
    assert upto[..k] == pre;
    TryFindStops(arr, fn, k + 1);
  }

  /** `tryFind`: the loop of src/helpers/array.ts. */
  method TryFind<T, E>(arr: seq<T>, fn: T -> Result<bool, E>) returns (r: Result<Options.Option<T>, E>, ghost visited: seq<nat>)
    ensures r == TryFindSpec(arr, fn)
    ensures AllMiss(arr, fn) ==> visited == Upto(|arr|)
    ensures forall k: nat :: StopsAt(arr, fn, k) ==> visited == Upto(k + 1)
  {
    visited := [];
    var i := 0;
    while i < |arr|
      invariant 0 <= i <= |arr|
      invariant TryFindSpec(arr[..i], fn) == Ok(Options.None)
      invariant forall j :: 0 <= j < i ==> Misses(fn, arr[j])
      invariant visited == Upto(i)
    {
      var item := arr[i];
      visited := visited + [i];
      var step := fn(item);
      assert arr[..i + 1][..i] == arr[..i];
      if step.Err? {
        r := Err(step.error);
        TryFindStops(arr, fn, i + 1);
        return;
      }
      if step.value {
        r := Ok(Options.Some(item));
        TryFindStops(arr, fn, i + 1);
        return;
      }
      i := i + 1;
    }
    assert arr[..i] == arr;
    r := Ok(Options.None);
  }

  // ---------------------------------------------------------------------------
  // tryForEach
  // ---------------------------------------------------------------------------

  /** What `tryForEach` returns: `tryMap` with the values discarded. */
  function TryForEachSpec<T, E>(arr: seq<T>, fn: T -> Result<(), E>): (r: Result<(), E>)
    ensures r.Ok? <==> AllOk(arr, fn)
  {
    TryMapOkIffAllOk(arr, fn);
    Map(TryMapSpec(arr, fn), (_: seq<()>) => ())
  }

  /** `tryForEach` returns `Ok(())` exactly when every call succeeds, and otherwise the
      first error. */
  lemma TryForEachResult<T, E>(arr: seq<T>, fn: T -> Result<(), E>, k: nat)
    ensures TryForEachSpec(arr, fn) == Ok(()) <==> AllOk(arr, fn)
    ensures FirstErrAt(arr, fn, k) ==> TryForEachSpec(arr, fn) == Err(fn(arr[k]).error)
  {
    TryMapOkIffAllOk(arr, fn);
    if FirstErrAt(arr, fn, k) {
      TryMapFirstErr(arr, fn, k);
    }
  }

  /** `tryForEach`: the loop of src/helpers/array.ts. */
  method TryForEach<T, E>(arr: seq<T>, fn: T -> Result<(), E>) returns (r: Result<(), E>, ghost visited: seq<nat>)
    ensures r == TryForEachSpec(arr, fn)
    ensures AllOk(arr, fn) ==> visited == Upto(|arr|)
    ensures forall k: nat :: FirstErrAt(arr, fn, k) ==> visited == Upto(k + 1)
  {
    visited := [];
    var i := 0;
    while i < |arr|
      invariant 0 <= i <= |arr|
      invariant TryMapSpec(arr[..i], fn).Ok?
      invariant forall j :: 0 <= j < i ==> fn(arr[j]).Ok?
      invariant visited == Upto(i)
    {
      var item := arr[i];
      visited := visited + [i];
      var step := fn(item);
      assert arr[..i + 1][..i] == arr[..i];
      if step.Err? {
        r := Err(step.error);
        TryMapStopsAtErr(arr, fn, i + 1);
        return;
      }
      i := i + 1;
    }
    assert arr[..i] == arr;
    r := Ok(());
  }

  // ---------------------------------------------------------------------------
  // tryReduce
  // ---------------------------------------------------------------------------

  /** What `tryReduce` returns, defined on prefixes the way the loop threads `acc`. */
  function TryReduceSpec<T, U, E>(arr: seq<T>, init: U, fn: (U, T) -> Result<U, E>): (r: Result<U, E>)
    ensures r.Ok? <==> StepsOk(arr, init, fn)
    ensures r.Ok? ==> r.value == FoldLeft(arr, init, fn)
    decreases |arr|
  {
    if arr == [] then Ok(init)
    else
      var prefix := arr[..|arr| - 1];
      assert prefix + [arr[|arr| - 1]] == arr;
      StepsSnoc(prefix, arr[|arr| - 1], init, fn);
      AndThen(TryReduceSpec(prefix, init, fn), acc => fn(acc, arr[|arr| - 1]))
  }

  /** Once a prefix has failed, the rest of the input does not change `tryReduce`'s answer. */
  lemma {:induction false} TryReduceStopsAtErr<T, U, E>(arr: seq<T>, init: U, fn: (U, T) -> Result<U, E>, n: nat)
    requires n <= |arr| && TryReduceSpec(arr[..n], init, fn).Err?
    ensures TryReduceSpec(arr, init, fn) == TryReduceSpec(arr[..n], init, fn)
    decreases |arr| - n
  {
    if n == |arr| {
      assert arr[..n] == arr;
    } else {
      var init' := arr[..|arr| - 1];
      assert init'[..n] == arr[..n];
      TryReduceStopsAtErr(init', init, fn, n);
    }
  }

  /** Running `tryReduce` over `a + b` is running it over `b` from where `a` left off. */
  lemma {:induction false} TryReduceAppend<T, U, E>(a: seq<T>, b: seq<T>, init: U, mid: U, fn: (U, T) -> Result<U, E>)
    requires TryReduceSpec(a, init, fn) == Ok(mid)
    ensures TryReduceSpec(a + b, init, fn) == TryReduceSpec(b, mid, fn)
    decreases |b|
  {
    if b == [] {
      assert a + b == a;
    } else {
      var b' := b[..|b| - 1];
      assert (a + b)[..|a + b| - 1] == a + b';
      TryReduceAppend(a, b', init, mid, fn);
    }
  }

  /** The monadic left fold, written front to back as a recursive function would be. */
  function FoldM<T, U, E>(arr: seq<T>, acc: U, fn: (U, T) -> Result<U, E>): (r: Result<U, E>)
    ensures r.Ok? <==> StepsOk(arr, acc, fn)
    ensures r.Ok? ==> r.value == FoldLeft(arr, acc, fn)
    decreases |arr|
  {
    if arr == [] then Ok(acc)
    else AndThen(fn(acc, arr[0]), next => FoldM(arr[1..], next, fn))
  }

  /** The loop's prefix-wise answer is the front-to-back monadic fold. */
  lemma {:induction false} TryReduceIsFoldM<T, U, E>(arr: seq<T>, init: U, fn: (U, T) -> Result<U, E>)
    ensures TryReduceSpec(arr, init, fn) == FoldM(arr, init, fn)
    decreases |arr|
  {
    if arr != [] {
      var first := [arr[0]];
      assert first[..0] == [];
      assert arr[..1] == first;
      match fn(init, arr[0])
      case Err(e) =>
        TryReduceStopsAtErr(arr, init, fn, 1);
      case Ok(next) =>
        assert arr == first + arr[1..];
        TryReduceAppend(first, arr[1..], init, next, fn);
        TryReduceIsFoldM(arr[1..], next, fn);
    }
  }

  /** Every step of the left fold from `acc` succeeds. */
  predicate StepsOk<T, U, E>(arr: seq<T>, acc: U, fn: (U, T) -> Result<U, E>)
    decreases |arr|
  {
    arr == [] || (fn(acc, arr[0]).Ok? && StepsOk(arr[1..], fn(acc, arr[0]).value, fn))
  }

  /** The plain left fold of the step values, when every step succeeds. */
  function FoldLeft<T, U, E>(arr: seq<T>, acc: U, fn: (U, T) -> Result<U, E>): U
    requires StepsOk(arr, acc, fn)
    decreases |arr|
  {
    if arr == [] then acc else FoldLeft(arr[1..], fn(acc, arr[0]).value, fn)
  }

  /** Extending the input by one element adds one step at the end of the fold: it
      succeeds exactly when the earlier steps do and the last step, from their result,
      does too. */
  lemma {:induction false} StepsSnoc<T, U, E>(arr: seq<T>, x: T, acc: U, fn: (U, T) -> Result<U, E>)
    ensures StepsOk(arr + [x], acc, fn) <==> StepsOk(arr, acc, fn) && fn(FoldLeft(arr, acc, fn), x).Ok?
    ensures StepsOk(arr + [x], acc, fn) ==> FoldLeft(arr + [x], acc, fn) == fn(FoldLeft(arr, acc, fn), x).value
    decreases |arr|
  {
    if arr == [] {
      assert arr + [x] == [x];
      assert [x][1..] == [];
    } else {
      assert (arr + [x])[0] == arr[0];
      assert (arr + [x])[1..] == arr[1..] + [x];
      if fn(acc, arr[0]).Ok? {
        StepsSnoc(arr[1..], x, fn(acc, arr[0]).value, fn);
      }
    }
  }

  /** When every step succeeds, `tryReduce` is `Ok` of the left fold. */
  lemma {:induction false} TryReduceAllStepsOk<T, U, E>(arr: seq<T>, init: U, fn: (U, T) -> Result<U, E>)
    requires StepsOk(arr, init, fn)
    ensures TryReduceSpec(arr, init, fn) == Ok(FoldLeft(arr, init, fn))
  {
    FoldMAllStepsOk(arr, init, fn);
    TryReduceIsFoldM(arr, init, fn);
  }

  lemma {:induction false} FoldMAllStepsOk<T, U, E>(arr: seq<T>, acc: U, fn: (U, T) -> Result<U, E>)
    requires StepsOk(arr, acc, fn)
    ensures FoldM(arr, acc, fn) == Ok(FoldLeft(arr, acc, fn))
    decreases |arr|
  {
    if arr != [] {
      FoldMAllStepsOk(arr[1..], fn(acc, arr[0]).value, fn);
    }
  }

  /** When the steps before `k` succeed and step `k` fails, `tryReduce` returns exactly
      step `k`'s error. */
  lemma TryReduceFirstErr<T, U, E>(arr: seq<T>, init: U, fn: (U, T) -> Result<U, E>, k: nat)
    requires k < |arr| && StepsOk(arr[..k], init, fn)
    requires fn(FoldLeft(arr[..k], init, fn), arr[k]).Err?
    ensures TryReduceSpec(arr, init, fn) == fn(FoldLeft(arr[..k], init, fn), arr[k])
  {
    TryReduceAllStepsOk(arr[..k], init, fn);
    assert arr[..k + 1][..k] == arr[..k];
    TryReduceStopsAtErr(arr, init, fn, k + 1);
  }

  /** `k` is the step at which `tryReduce` fails: the prefix before it succeeds and the
      prefix through it does not. */
  predicate FailsAt<T, U, E>(arr: seq<T>, init: U, fn: (U, T) -> Result<U, E>, k: nat)
  {
    k < |arr| && TryReduceSpec(arr[..k], init, fn).Ok? && TryReduceSpec(arr[..k + 1], init, fn).Err?
  }

  /** At most one step is the failing one. */
  lemma FailsAtUnique<T, U, E>(arr: seq<T>, init: U, fn: (U, T) -> Result<U, E>, k: nat, m: nat)
    requires FailsAt(arr, init, fn, k) && k < m <= |arr|
    ensures TryReduceSpec(arr[..m], init, fn).Err?
  {
    var pre := arr[..m];
    assert pre[..k + 1] == arr[..k + 1];
    TryReduceStopsAtErr(pre, init, fn, k + 1);
  }

  /** `tryReduce`: the loop of src/helpers/array.ts. */
  method TryReduce<T, U, E>(arr: seq<T>, init: U, fn: (U, T) -> Result<U, E>) returns (r: Result<U, E>, ghost visited: seq<nat>)
    ensures r == TryReduceSpec(arr, init, fn)
    ensures r.Ok? ==> visited == Upto(|arr|)
    ensures forall k: nat :: FailsAt(arr, init, fn, k) ==> visited == Upto(k + 1)
  {
    var acc := init;
    visited := [];
    var i := 0;
    while i < |arr|
      invariant 0 <= i <= |arr|
      invariant TryReduceSpec(arr[..i], init, fn) == Ok(acc)
      invariant visited == Upto(i)
    {
      var item := arr[i];
      visited := visited + [i];
      var step := fn(acc, item);
      assert arr[..i + 1][..i] == arr[..i];
      if step.Err? {
        r := step;
        TryReduceStopsAtErr(arr, init, fn, i + 1);
        forall k: nat | FailsAt(arr, init, fn, k)
          ensures k == i
        {
          if k < i {
            FailsAtUnique(arr, init, fn, k, i);
          } else if k > i {
            FailsAtUnique(arr, init, fn, i, k);
          }
        }
        return;
      }
      acc := step.value;
      i := i + 1;
    }
    assert arr[..i] == arr;
    r := Ok(acc);
    forall k: nat | FailsAt(arr, init, fn, k)
      ensures false
    {
      FailsAtUnique(arr, init, fn, k, |arr|);
    }
  }
}
