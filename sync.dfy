/** The synchronous helpers of src/helpers/sync.ts: `fromNullable`, and `collect` and
    `partition`, which walk an array of results. `partition` defines what both loops
    compute: `OkValues` and `ErrValues` are the success values and the errors of a
    sequence of results, each in input order. */
module SyncHelpers {
  import opened ResultBasic

  /** A JavaScript value that may be `null` or `undefined`; `Defined(v)` is any other value. */
  datatype Nullable<+T> = Null | Undefined | Defined(value: T)

  /** `fromNullable(val, err)`: `Err(err)` for `null` and `undefined` (the source's
      `val == null` test), `Ok(val)` for every other value. */
  function FromNullable<T, E>(val: Nullable<T>, err: E): (r: Result<T, E>)
    ensures r.Err? <==> (val.Null? || val.Undefined?)
    ensures r.Ok? ==> val == Defined(r.value)
    ensures r.Err? ==> r.error == err
  {
    match val
    case Defined(v) => Ok(v)
    case _ => Err(err)
  }

  /** The error of `fromNullable` is the one supplied: mapping it is the same as
      supplying the mapped error. */
  lemma FromNullableMapErr<T, E, F>(val: Nullable<T>, err: E, f: E -> F)
    ensures MapErr(FromNullable(val, err), f) == FromNullable(val, f(err))
  {
  }

  /** The success values of `results`, in order. */
  function OkValues<T, E>(results: seq<Result<T, E>>): (s: seq<T>)
    ensures |s| <= |results|
  {
    if results == [] then []
    else (if results[0].Ok? then [results[0].value] else []) + OkValues(results[1..])
  }

  /** The errors of `results`, in order. */
  function ErrValues<T, E>(results: seq<Result<T, E>>): (s: seq<E>)
    ensures |s| <= |results|
  {
    if results == [] then []
    else (if results[0].Err? then [results[0].error] else []) + ErrValues(results[1..])
  }

  /** The success values distribute over concatenation. */
  lemma {:induction false} OkValuesAppend<T, E>(a: seq<Result<T, E>>, b: seq<Result<T, E>>)
    ensures OkValues(a + b) == OkValues(a) + OkValues(b)
    decreases |a|
  {
    if a == [] {
      assert a + b == b;
    } else {
      var head := if a[0].Ok? then [a[0].value] else [];
      assert (a + b)[0] == a[0];
      assert (a + b)[1..] == a[1..] + b;
      calc {
        OkValues(a + b);
        head + OkValues(a[1..] + b);
        { OkValuesAppend(a[1..], b); }
        head + (OkValues(a[1..]) + OkValues(b));
        (head + OkValues(a[1..])) + OkValues(b);
      }
    }
  }

  /** The errors distribute over concatenation. */
  lemma {:induction false} ErrValuesAppend<T, E>(a: seq<Result<T, E>>, b: seq<Result<T, E>>)
    ensures ErrValues(a + b) == ErrValues(a) + ErrValues(b)
    decreases |a|
  {
    if a == [] {
      assert a + b == b;
    } else {
      var head := if a[0].Err? then [a[0].error] else [];
      assert (a + b)[0] == a[0];
      assert (a + b)[1..] == a[1..] + b;
      calc {
        ErrValues(a + b);
        head + ErrValues(a[1..] + b);
        { ErrValuesAppend(a[1..], b); }
        head + (ErrValues(a[1..]) + ErrValues(b));
        (head + ErrValues(a[1..])) + ErrValues(b);
      }
    }
  }

  /** Both lists distribute over concatenation. */
  lemma ValuesAppend<T, E>(a: seq<Result<T, E>>, b: seq<Result<T, E>>)
    ensures OkValues(a + b) == OkValues(a) + OkValues(b)
    ensures ErrValues(a + b) == ErrValues(a) + ErrValues(b)
  {
    OkValuesAppend(a, b);
    ErrValuesAppend(a, b);
  }

  /** Every result lands in exactly one of the two lists. */
  lemma {:induction false} ValuesSizes<T, E>(results: seq<Result<T, E>>)
    ensures |OkValues(results)| + |ErrValues(results)| == |results|
    decreases |results|
  {
    if results != [] {
      ValuesSizes(results[1..]);
    }
  }

  /** When every result is `Ok`, there are no errors and the success values are the
      inputs' values, index by index. */
  lemma {:induction false} AllOkValues<T, E>(results: seq<Result<T, E>>)
    requires forall i :: 0 <= i < |results| ==> results[i].Ok?
    ensures ErrValues(results) == []
    ensures |OkValues(results)| == |results|
    ensures forall i :: 0 <= i < |results| ==> OkValues(results)[i] == results[i].value
    decreases |results|
  {
    if results != [] {
      AllOkValues(results[1..]);
    }
  }

  /** When `k` is the first `Err`, its error heads the error list. */
  lemma FirstErrValue<T, E>(results: seq<Result<T, E>>, k: nat)
    requires k < |results| && results[k].Err?
    requires forall j :: 0 <= j < k ==> results[j].Ok?
    ensures ErrValues(results) != [] && ErrValues(results)[0] == results[k].error
  {
    AllOkValues(results[..k]);
    assert results == results[..k] + results[k..];
    ValuesAppend(results[..k], results[k..]);
  }

  /** One more result extends exactly one of the two lists. */
  lemma ValuesSnoc<T, E>(results: seq<Result<T, E>>, i: nat)
    requires i < |results|
    ensures OkValues(results[..i + 1]) == OkValues(results[..i]) + (if results[i].Ok? then [results[i].value] else [])
    ensures ErrValues(results[..i + 1]) == ErrValues(results[..i]) + (if results[i].Err? then [results[i].error] else [])
  {
    assert results[..i + 1] == results[..i] + [results[i]];
    ValuesAppend(results[..i], [results[i]]);
  }

  /** `collect`: `Ok` of the success values, in order, when no result is an error;
      otherwise the first error, returned as soon as it is met. */
  method Collect<T, E>(results: seq<Result<T, E>>) returns (r: Result<seq<T>, E>)
    ensures ErrValues(results) == [] ==> r == Ok(OkValues(results))
    ensures ErrValues(results) != [] ==> r == Err(ErrValues(results)[0])
  {
    var arr: seq<T> := [];
    var i := 0;
    while i < |results|
      invariant 0 <= i <= |results|
      invariant ErrValues(results[..i]) == []
      invariant OkValues(results[..i]) == arr
    {
      var item := results[i];
      ValuesSnoc(results, i);
      if item.Err? {
        r := Err(item.error);
        assert results == results[..i + 1] + results[i + 1..];
        ValuesAppend(results[..i + 1], results[i + 1..]);
        return;
      }
      arr := arr + [item.value];
      i := i + 1;
    }
    assert results[..i] == results;
    r := Ok(arr);
  }

  /** `partition`: the success values and the errors, each in input order. */
  method Partition<T, E>(results: seq<Result<T, E>>) returns (oks: seq<T>, errs: seq<E>)
    ensures oks == OkValues(results)
    ensures errs == ErrValues(results)
    ensures |oks| + |errs| == |results|
  {
    oks, errs := [], [];
    var i := 0;
    while i < |results|
      invariant 0 <= i <= |results|
      invariant oks == OkValues(results[..i])
      invariant errs == ErrValues(results[..i])
    {
      var item := results[i];
      ValuesSnoc(results, i);
      if item.Ok? {
        oks := oks + [item.value];
      } else {
        errs := errs + [item.error];
      }
      i := i + 1;
    }
    assert results[..i] == results;
    ValuesSizes(results);
  }
}
