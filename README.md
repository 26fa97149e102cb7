# ts-result in Dafny

A model of the outcome algebra of the TypeScript library `ts-result`:

- `Option<T>`: a value that is present (`Some(value)`) or absent (`None`).
- `Result<T, E>`: a success (`Ok(value)`) or a failure (`Err(error)`).
- The combinators on both types.
- The sequence combinators that apply a fallible callback across an array and stop at the first failure, in synchronous and asynchronous form.
- `fromNullable`, `collect` and `partition`.

One module per source file:

| file | module | source |
|---|---|---|
| `options.dfy` | `Options` | `src/core/option.ts` |
| `result_basic.dfy` | `ResultBasic` | `src/core/result-basic.ts` |
| `result.dfy` | `ResultExt` | `src/core/result.ts` |
| `sync.dfy` | `SyncHelpers` | `src/helpers/sync.ts` |
| `array.dfy` | `ArrayHelpers` | `src/helpers/array.ts` (synchronous functions) |
| `array_async.dfy` | `ArrayAsync` | `src/helpers/array.ts` (`*Async` functions) |

The `OptionOps`/`ResultOps` wrapper classes hold the wrapped value in a public field that the library never reassigns. Their methods, including the ones attached through prototype extension, are plain functions on the datatypes. Callbacks are Dafny function values.

The array combinators and the `collect`/`partition` loops are methods with `while` loops. Each array loop is proved against a specification function defined on prefixes: `TryMapSpec`, `TryFilterSpec`, `TryFindSpec`, `TryForEachSpec` or `TryReduceSpec`. The `collect` and `partition` loops are proved against `OkValues`/`ErrValues`, which recurse from the front of the input. Lemmas then tie each specification to an independent description:
- element by element for `tryMap`;
- an order-preserving sub-sequence with explicit indices for `tryFilter`;
- first match or first error for `tryFind`;
- the front-to-back monadic fold, and the plain left fold, for `tryReduce`;
- `collect` of the callback's results, for `tryMap`.

Each array method also returns a ghost `visited` trace of the indices it handed to the callback. Its contract says the trace is exactly `0..k` when `k` is the first failing (or, for `tryFind`, first non-missing) index. So no element after the first failure is visited.

An asynchronous variant awaits each callback's promise, modelled by how it settled (`Fulfilled` or `Rejected`). A rejected promise makes `await` throw, so the whole call rejects at once. Each async loop is therefore the synchronous specification run on a lifted callback (`Lift`) whose error channel records either kind of stop, read back with `Lower`. The `*AsyncAgrees` lemmas show that when every promise fulfils, the result is the synchronous one.

## Model

| member | source | states |
|---|---|---|
| Options.IsSome | src/core/option.ts:33 | true exactly when the option is not `None` |
| Options.IsNone | src/core/option.ts:38 | always the negation of `isSome`; true exactly for `None` |
| Options.Map | src/core/option.ts:44-46 | keeps the tag; a present value `v` becomes `f(v)` |
| Options.Unwrap | src/core/option.ts:52-55 | requires `Some` (the source throws on `None`); the option is `Some` of the result |
| Options.UnwrapOr | src/core/option.ts:61-63 | the option is `Some(result)`, or it is `None` and the result is the default |
| Options.UnwrapOrElse | src/core/option.ts:69-71 | the option is `Some(result)`, or it is `None` and the result is the thunk's value |
| Options.MapOr | src/core/option.ts:77-79 | `f(v)` on `Some(v)`, the default on `None` |
| Options.MapOrElse | src/core/option.ts:85-87 | `f(v)` on `Some(v)`, `fDefault()` on `None` |
| Options.AndThen | src/core/option.ts:113-115 | `None` propagates; on `Some(v)` the result is exactly `f(v)` |
| Options.Inspect | src/core/option.ts:117-120 | returns the original option unchanged |
| Options.MapIdentity | src/core/option.ts:44-46 | `map(id)` is the identity |
| Options.MapCompose | src/core/option.ts:44-46 | `map(f).map(g)` equals `map(g ∘ f)` |
| Options.MapIsAndThen | src/core/option.ts:113-115 | `map(f)` equals `andThen(x => Some(f(x)))` |
| Options.UnwrapAgreesWithUnwrapOr | src/core/option.ts:52-63 | on `Some`, `unwrap` equals `unwrapOr(d)` for every `d` |
| Options.UnwrapOrElseLaws | src/core/option.ts:61-71 | `unwrapOr(d)` is `unwrapOrElse` of the constant thunk; on `Some` the thunk does not affect the result |
| Options.MapOrIsUnwrapOrOfMap | src/core/option.ts:77-87 | `mapOr(d, f)` = `map(f).unwrapOr(d)`; `mapOrElse(g, f)` = `map(f).unwrapOrElse(g)` |
| Options.AndThenLaws | src/core/option.ts:113-115 | left unit, right unit and associativity of `andThen` |
| Options.InspectIgnoresCallback | src/core/option.ts:117-120 | `inspect` returns the option whatever callback it is given |
| ResultBasic.IsOk | src/core/result-basic.ts:32 | true exactly when the result is not an `Err` |
| ResultBasic.IsErr | src/core/result-basic.ts:37 | always the negation of `isOk` |
| ResultBasic.Map | src/core/result-basic.ts:43-45 | keeps the tag; `Ok(v)` becomes `Ok(f(v))`; an `Err` keeps its error untouched |
| ResultBasic.MapErr | src/core/result-basic.ts:51-53 | keeps the tag; `Err(e)` becomes `Err(f(e))`; an `Ok` keeps its value |
| ResultBasic.AndThen | src/core/result-basic.ts:59-61 | `Ok(v)` gives exactly `f(v)`; `Err(e)` passes through as `Err(e)` |
| ResultBasic.OrElse | src/core/result-basic.ts:67-69 | `Err(e)` gives exactly `f(e)`; `Ok(v)` passes through as `Ok(v)` |
| ResultBasic.Unwrap | src/core/result-basic.ts:75-78 | requires `Ok` (the source throws the error); the result is `Ok` of the returned value |
| ResultBasic.Expect | src/core/result-basic.ts:84-87 | requires `Ok` (the source throws a message-carrying error); the result is `Ok` of the returned value |
| ResultBasic.UnwrapOr | src/core/result-basic.ts:93-95 | total: the `Ok` value, or the default on `Err` |
| ResultBasic.UnwrapOrElse | src/core/result-basic.ts:101-103 | total: the `Ok` value, or `f(e)` on `Err(e)` |
| ResultBasic.MapIdentity | src/core/result-basic.ts:43-53 | `map(id)` and `mapErr(id)` are the identity |
| ResultBasic.MapCompose | src/core/result-basic.ts:43-53 | mapping twice equals mapping the composition, on either channel |
| ResultBasic.MapsAreBinds | src/core/result-basic.ts:43-69 | `map(f)` = `andThen(x => Ok(f(x)))`; `mapErr(g)` = `orElse(e => Err(g(e)))` |
| ResultBasic.AndThenLaws | src/core/result-basic.ts:59-61 | left unit, right unit and associativity of `andThen` |
| ResultBasic.OrElseLaws | src/core/result-basic.ts:67-69 | left unit, right unit and associativity of `orElse` on the error channel |
| ResultBasic.UnwrapsAgreeOnOk | src/core/result-basic.ts:75-103 | on `Ok`, `unwrap`, `expect`, `unwrapOr` and `unwrapOrElse` return the same value |
| ResultBasic.UnwrapOrIsUnwrapOrElse | src/core/result-basic.ts:93-103 | `unwrapOr(d)` is `unwrapOrElse` of the constant function |
| ResultExt.MapOr | src/core/result.ts:65-67 | `f(v)` on `Ok(v)`, the default on `Err` |
| ResultExt.MapOrElse | src/core/result.ts:69-71 | `fn(v)` on `Ok(v)`, `errFn(e)` on `Err(e)` |
| ResultExt.Inspect | src/core/result.ts:73-76 | returns the original result unchanged |
| ResultExt.InspectErr | src/core/result.ts:78-81 | returns the original result unchanged |
| ResultExt.Fold | src/core/result.ts:83-85 | `okFn(v)` on `Ok(v)`, `errFn(e)` on `Err(e)` |
| ResultExt.Bimap | src/core/result.ts:87-89 | keeps the tag; `Ok(v)` becomes `Ok(okFn(v))` and `Err(e)` becomes `Err(errFn(e))` |
| ResultExt.Flatten | src/core/result.ts:91-95 | `Ok(inner)` gives `inner`; `Err(e)` stays `Err(e)` |
| ResultExt.OkOption | src/core/result.ts:97-99 | `Some` exactly for `Ok`, carrying its value |
| ResultExt.ErrOption | src/core/result.ts:101-103 | `Some` exactly for `Err`, carrying its error |
| ResultExt.FoldIsMapOrElse | src/core/result.ts:69-85 | `fold(okF, errF)` equals `mapOrElse(errF, okF)` on every input |
| ResultExt.MapOrLaws | src/core/result.ts:65-71 | `mapOr(d, f)` = `mapOrElse(_ => d, f)` = `ok().mapOr(d, f)` |
| ResultExt.BimapIsMapThenMapErr | src/core/result.ts:87-89 | `bimap(f, g)` = `map(f).mapErr(g)` = `mapErr(g).map(f)` |
| ResultExt.FlattenLaws | src/core/result.ts:91-95 | `flatten` = `andThen(id)`; `flatten` undoes `map(Ok)` |
| ResultExt.FlattenCases | src/core/result.ts:91-95 | `Ok(Ok(v))` → `Ok(v)`, `Ok(Err(e))` → `Err(e)`, `Err(e)` → `Err(e)` |
| ResultExt.OkErrPartition | src/core/result.ts:97-103 | exactly one of `ok()` and `err()` is `Some`, and together they determine the result |
| ResultExt.OkOptionLaws | src/core/result.ts:97-99 | `ok()` commutes with `map`; `unwrapOr(d)` = `ok().unwrapOr(d)` |
| ResultExt.InspectIgnoresCallback | src/core/result.ts:73-81 | `inspect` and `inspectErr` return the result whatever callbacks they get |
| SyncHelpers.FromNullable | src/helpers/sync.ts:7-9 | `Err(err)` exactly for `null` and `undefined`; otherwise `Ok` of the value |
| SyncHelpers.FromNullableMapErr | src/helpers/sync.ts:7-9 | the error of `fromNullable` is the supplied one: mapping it equals supplying the mapped error |
| SyncHelpers.OkValues | src/helpers/sync.ts:31-32 | the success values in order; never longer than the input |
| SyncHelpers.ErrValues | src/helpers/sync.ts:31-32 | the errors in order; never longer than the input |
| SyncHelpers.ValuesAppend | src/helpers/sync.ts:28-35 | both lists distribute over concatenation of the input |
| SyncHelpers.ValuesSizes | src/helpers/sync.ts:28-35 | the two list lengths sum to the input length |
| SyncHelpers.AllOkValues | src/helpers/sync.ts:15-22 | when every input is `Ok`: no errors, same length, value `i` is input `i`'s value |
| SyncHelpers.FirstErrValue | src/helpers/sync.ts:17-18 | the first `Err` of the input heads the error list |
| SyncHelpers.Collect | src/helpers/sync.ts:15-22 | `Ok(partition's Ok list)` exactly when partition's error list is empty, otherwise `Err` of its first error |
| SyncHelpers.Partition | src/helpers/sync.ts:28-35 | the Ok values and the Err values, each in input order; lengths sum to the input length |
| ArrayHelpers.TryMapSpec | src/helpers/array.ts:39-47 | a successful `tryMap` has the input's length |
| ArrayHelpers.TryMapStopsAtErr | src/helpers/array.ts:41-43 | once a prefix fails, the rest of the input does not change the answer |
| ArrayHelpers.TryMapAllOk | src/helpers/array.ts:39-47 | all calls `Ok(u_i)` ⇒ `Ok` of a sequence of the input's length whose element `i` is `u_i` |
| ArrayHelpers.TryMapFirstErr | src/helpers/array.ts:41-43 | `k` the first `Err(e)` ⇒ the answer is exactly `Err(e)` |
| ArrayHelpers.TryMapOkIffAllOk | src/helpers/array.ts:39-47 | `tryMap` is `Ok` if and only if every call is `Ok` |
| ArrayHelpers.TryMapIsCollect | src/helpers/array.ts:39-47 | `tryMap(arr, fn)` equals `collect` of the callback's results |
| ArrayHelpers.DoubleOddStopsAtTwo | src/helpers/array.ts:39-47 | over `[1,2,3]`, doubling odds and failing on evens, the first failure is index 1 and the answer is `Err("even")` |
| ArrayHelpers.TryMap | src/helpers/array.ts:39-47 | returns `TryMapSpec`; visits `0..|arr|-1` when all are `Ok`, exactly `0..k` when `k` is the first `Err` |
| ArrayHelpers.Selected | src/helpers/array.ts:9-17 | the kept elements are never more than the input |
| ArrayHelpers.KeptIndices | src/helpers/array.ts:9-17 | strictly increasing indices, each in range with answer `Ok(true)`, containing every such index |
| ArrayHelpers.SelectedIsSubsequence | src/helpers/array.ts:9-17 | element `i` of the filtered sequence is `arr[KeptIndices[i]]`: an order-preserving sub-sequence |
| ArrayHelpers.TryFilterSpec | src/helpers/array.ts:9-17 | a successful `tryFilter` is no longer than the input, and every element it keeps had its predicate answer `Ok(true)` |
| ArrayHelpers.TryFilterStopsAtErr | src/helpers/array.ts:11-13 | once a prefix fails, the rest of the input does not change the answer |
| ArrayHelpers.TryFilterAllOk | src/helpers/array.ts:9-17 | all calls `Ok` ⇒ `Ok` of the order-preserving selection of `Ok(true)` elements |
| ArrayHelpers.TryFilterFirstErr | src/helpers/array.ts:11-13 | `k` the first `Err(e)` ⇒ the answer is exactly `Err(e)` |
| ArrayHelpers.TryFilterOkIffAllOk | src/helpers/array.ts:9-17 | `tryFilter` is `Ok` iff every call is `Ok`, and then no longer than the input |
| ArrayHelpers.TryFilter | src/helpers/array.ts:9-17 | returns `TryFilterSpec`; visits `0..|arr|-1` when all are `Ok`, exactly `0..k` when `k` is the first `Err` |
| ArrayHelpers.TryFindSpec | src/helpers/array.ts:25-32 | a found element comes from the input and its predicate answered `Ok(true)` |
| ArrayHelpers.TryFindStops | src/helpers/array.ts:28-29 | once a prefix matched or failed, the rest of the input does not change the answer |
| ArrayHelpers.TryFindAllMiss | src/helpers/array.ts:25-31 | every answer `Ok(false)` ⇒ `Ok(None)` |
| ArrayHelpers.TryFindFirstStop | src/helpers/array.ts:25-30 | first non-`Ok(false)` index `k`: `Ok(Some(arr[k]))` on a match, exactly the error on `Err` |
| ArrayHelpers.TryFind | src/helpers/array.ts:25-32 | returns `TryFindSpec`; visits exactly `0..k` when `k` is the first match or error, all indices otherwise |
| ArrayHelpers.TryForEachSpec | src/helpers/array.ts:54-60 | `tryForEach` is `Ok` exactly when every call is `Ok` |
| ArrayHelpers.TryForEachResult | src/helpers/array.ts:54-60 | `Ok(())` exactly when every call is `Ok`; otherwise the first `Err` |
| ArrayHelpers.TryForEach | src/helpers/array.ts:54-60 | returns `tryMap` with values discarded; visits exactly `0..k` up to the first `Err` |
| ArrayHelpers.TryReduceSpec | src/helpers/array.ts:67-75 | `tryReduce` is `Ok` exactly when every step of the left fold from `init` succeeds, and then its value is that fold |
| ArrayHelpers.TryReduceStopsAtErr | src/helpers/array.ts:70-71 | once a prefix fails, the rest of the input does not change the answer |
| ArrayHelpers.TryReduceAppend | src/helpers/array.ts:67-75 | reducing `a + b` is reducing `b` from the accumulator `a` ended with |
| ArrayHelpers.TryReduceIsFoldM | src/helpers/array.ts:67-75 | the loop's answer equals the front-to-back monadic left fold |
| ArrayHelpers.FoldM | src/helpers/array.ts:67-75 | the front-to-back monadic fold is `Ok` exactly when every step succeeds, and then its value is the plain left fold |
| ArrayHelpers.StepsSnoc | src/helpers/array.ts:69-73 | one more element adds one last step: the fold of `arr + [x]` succeeds iff the fold of `arr` does and `fn(its result, x)` is `Ok`, whose value is then the new result |
| ArrayHelpers.FoldMAllStepsOk | src/helpers/array.ts:67-75 | every step `Ok` ⇒ the monadic fold is `Ok` of the plain left fold |
| ArrayHelpers.TryReduceAllStepsOk | src/helpers/array.ts:67-75 | every step `Ok` ⇒ `tryReduce` is `Ok` of the left fold of `fn` from `init` |
| ArrayHelpers.TryReduceFirstErr | src/helpers/array.ts:69-71 | steps before `k` succeed and step `k` fails ⇒ the answer is exactly step `k`'s error |
| ArrayHelpers.FailsAtUnique | src/helpers/array.ts:69-71 | after the failing step every longer prefix fails too, so the failing step is unique |
| ArrayHelpers.TryReduce | src/helpers/array.ts:67-75 | returns `TryReduceSpec`; visits all indices on success, exactly `0..k` when step `k` fails |
| ArrayAsync.LiftStep | src/helpers/array.ts:85-86 | a step lets the loop continue exactly when its promise fulfils with `Ok` |
| ArrayAsync.Lower | src/helpers/array.ts:82-139 | the promise an async call returns rejects exactly when a step threw; it fulfils with `Ok(v)` exactly for a finished loop with value `v`, and with `Err(e)` for an `Err(e)` step |
| ArrayAsync.LiftRoundTrip | src/helpers/array.ts:85-86 | the lifted callback `Lift(fn)` continues exactly when `fn`'s promise fulfils with `Ok`, and reading a lifted call back gives the settled promise itself |
| ArrayAsync.Lift2RoundTrip | src/helpers/array.ts:134-135 | the same for the reducer lift `Lift2(fn)` used by `tryReduceAsync` |
| ArrayAsync.LiftLowerInverse | src/helpers/array.ts:85-86 | the encoding of settled results as stops loses nothing, in both directions |
| ArrayAsync.LiftFulfilled | src/helpers/array.ts:82-139 | all promises fulfil with `g`'s results ⇒ the lifted callback fails exactly where `g` does |
| ArrayAsync.TryMapAsyncAgrees | src/helpers/array.ts:107-115 | all promises fulfil ⇒ `tryMapAsync` fulfils with `tryMap`'s result |
| ArrayAsync.TryMapAsync | src/helpers/array.ts:107-115 | the first rejection or `Err` ends the call; visits exactly `0..k` up to it |
| ArrayAsync.TryFilterAsyncAgrees | src/helpers/array.ts:82-90 | all promises fulfil ⇒ `tryFilterAsync` fulfils with `tryFilter`'s result |
| ArrayAsync.TryFilterAsync | src/helpers/array.ts:82-90 | the first rejection or `Err` ends the call; visits exactly `0..k` up to it |
| ArrayAsync.TryFindAsyncAgrees | src/helpers/array.ts:95-102 | all promises fulfil ⇒ `tryFindAsync` fulfils with `tryFind`'s result and stops at the same index |
| ArrayAsync.TryFindAsync | src/helpers/array.ts:95-102 | the first match, rejection or `Err` ends the call; visits exactly `0..k` up to it |
| ArrayAsync.TryForEachAsyncAgrees | src/helpers/array.ts:120-126 | all promises fulfil ⇒ `tryForEachAsync` fulfils with `tryForEach`'s result |
| ArrayAsync.TryForEachAsync | src/helpers/array.ts:120-126 | the first rejection or `Err` ends the call; visits exactly `0..k` up to it |
| ArrayAsync.TryReduceAsyncAgrees | src/helpers/array.ts:131-139 | all promises fulfil ⇒ `tryReduceAsync` fulfils with `tryReduce`'s result |
| ArrayAsync.TryReduceAsync | src/helpers/array.ts:131-139 | the first rejection or `Err` ends the call; visits all indices on success, exactly `0..k` when step `k` fails |

## Left out

- Callbacks are pure functions. Their side effects, and exceptions they throw (which the source lets propagate), are not modelled. "The callback is never called" is stated as "the result does not depend on the callback" (`UnwrapOrElseLaws`, `InspectIgnoresCallback`) or by the ghost `visited` trace.
- Options.Unwrap, ResultBasic.Unwrap, ResultBasic.Expect: the throwing paths are preconditions. The thrown value is not modelled. `expect` throws a new `Error` whose message is `msg` followed by the rendered error (src/core/result-basic.ts:86), with no `cause` attached; that message is not modelled either.
- ResultExt.Flatten: the source does not check at run time that the `Ok` value is itself a result. The model's type guarantees it, so the non-result case does not exist here.
- TryReduceAsyncAgrees: its hypothesis asks every promise to fulfil for every accumulator and input element, not only along the path the loop takes.
- The `OptionOps`/`ResultOps` wrappers, `wrapOption`/`wrapResult` and the prototype extension that attaches methods are packaging. The operations are functions on the datatypes.
- Object identity is not modelled: where the source returns the same `Err` object (`map`, `andThen`, the array loops), the model returns an equal value.
- JavaScript arrays are sequences; the `res` arrays the loops push into are local `seq` variables.
- `src/core/error.ts`, `src/helpers/trycatch.ts`, `src/helpers/promise.ts`, `src/helpers/async.ts`, `src/helpers/stream.ts` and `src/index.ts` are not part of this model. They catch host exceptions, await promises, stream async iterables, inspect the host's error classes and re-export.
- Scheduling of promises is not modelled. An awaited step is represented only by how it settled, which is enough to state that elements are handled one at a time in order. The model assumes every awaited promise settles: if a callback's promise never settles, the source's `*Async` call stays pending forever, whereas `TryMapAsync`, `TryFilterAsync`, `TryFindAsync`, `TryForEachAsync` and `TryReduceAsync` always return.
