# Debounce, future bridge and pure-callback observer of rxRust, in Dafny

This project models three pieces of the rxRust reactive-stream core and proves
properties of them.

- **The debounce operator** (`src/ops/debounce.rs`). Each subscription holds a
  `DebounceObserver`: the configured delay, the `trailing_value` waiting to be
  emitted, and the `last_updated` instant of the latest upstream value. The
  local (`Rc<RefCell>`) and shared (`Arc<Mutex>`) observers expand the same
  macro body, so one pure state machine (`Debounce`) models both. Each of the
  four inputs is a function from the state to a `Reaction`: the new state and
  the callbacks handed to the scheduler. The state carries the downstream
  observer, recorded as the notifications it has received and its own
  `is_stopped` answer.
  The four inputs are upstream `next` at an instant, a scheduled callback
  firing with its token, upstream `error`, and upstream `complete`.
  `DebounceTimeline` adds a deterministic simulator. The scheduler is a list of
  pending `(fireAt, token)` entries and the clock is an injected integer
  instant. Before an upstream event at instant `t` is handled, every pending
  callback due at or before `t` runs, in scheduling order. After the last
  event, the remaining callbacks run, as a pool run until idle does.
  `DebounceScenarios` proves the operator's promise for any timeline of
  values followed by completion. Downstream receives exactly the surviving
  values, in order, then `complete`. A value survives when it is the last
  one, or when the next value arrives at least the delay after it. This is
  compared against an independent reference definition (`Survivors`).
  Evenly spaced values are corollaries:
  - values closer together than the delay: only the last one survives;
  - values at least the delay apart: every value survives.
  The `smoke_last` and `smoke_every` tests are instances of these.
- **The future bridge** (`src/observable/from_future.rs`). The closure that
  `from_future!` and `from_future_with_err!` map over the future becomes a
  total function (`FromFuture`). It takes the subscriber, which holds its
  observer and its closed flag, and the resolved value, and returns the
  subscriber after the notifications it receives.
- **The pure-callback observer** (`src/subscribable/subscribable_pure.rs`).
  `SubscribePure` forwards `next` to a user callback and drops `error` and
  `complete`. Its error type is `()`. The callback is user code, so the model
  represents it by the log of the values it was called with. Feeding a
  notification trace to the adapter yields exactly the `next` payloads, in
  order. The tests collect their observed lists this way, and the scenario
  lemmas use the same route.

Module layout: `Signals` (`signals.dfy`) holds `Option`, `Result`, `Signal`,
the downstream `Observer` record and the protocol predicates. `SubscribePure`, `FromFuture`, `Debounce`,
`DebounceTimeline` and `DebounceScenarios` each sit in the matching snake_case file
(`subscribe_pure.dfy`, `from_future.dfy`, `debounce.dfy`, `debounce_timeline.dfy`,
`debounce_scenarios.dfy`).

Behaviour of the code that the model keeps:

- Upstream `error` does not clear `trailing_value` (`src/ops/debounce.rs:127-130`).
  The callback already scheduled for that value therefore still sends it,
  after the error. `Debounce.NextAfterError` and
  `DebounceTimeline.ErrorThenSettle` state this.
- The first emission instant of `interval` is not fixed by
  `src/ops/debounce.rs`. The scenario lemmas take arrivals at arbitrary
  instants, with completion at the last value's instant. Evenly spaced values
  (the `k`-th at `k * gap`) are a special case.

In the model, the scheduler runs each callback on time. There, whether a value
survives depends only on the gap to the next value. rxRust's schedulers do not
promise this; see the "## Left out" line for `DebounceScenarios.KeepsSurvivors`.

## Model

| member | source | states |
|---|---|---|
| `Debounce.Subscribe` | src/ops/debounce.rs:39-46 | a new subscription wraps the given downstream observer, has nothing waiting and no update instant, and keeps the configured delay |
| `Debounce.OnNext` | src/ops/debounce.rs:106-125 | upstream `next(v)` at `t` sets the waiting value to `v` and `last_updated` to `t`, emits nothing, and schedules exactly one callback due `delay` after `t` whose token is the new `last_updated` |
| `Debounce.OnFire` | src/ops/debounce.rs:114-121 | a callback whose token equals `last_updated` while a value waits emits exactly that value once and clears it; a stale callback, or one with nothing waiting, emits nothing and leaves the state unchanged; no callback changes `last_updated` |
| `Debounce.OnError` | src/ops/debounce.rs:127-130 | `error(e)` appends exactly `error(e)` to what the downstream observer received, with no `next`, and leaves the waiting value, `last_updated` and the delay unchanged |
| `Debounce.OnComplete` | src/ops/debounce.rs:131-137 | `complete` emits the waiting value (if any) and then `complete`, emits only `complete` when nothing waits, leaves nothing waiting, and keeps `last_updated` |
| `Debounce.IsStopped` | src/ops/debounce.rs:138-141 | `is_stopped` answers what the downstream observer answers |
| `Debounce.StepPreserves` | src/ops/debounce.rs:105-142 | every input keeps "a waiting value has an update instant" and the delay; the operator itself never changes the downstream observer's stop flag; what the downstream observer received only grows; only upstream `next` moves `last_updated`; `error` keeps the waiting value |
| `Debounce.FireCommutes` | src/ops/debounce.rs:114-121 | two callbacks run back to back give the same state and the same notifications in either order, so the scheduler's order among due callbacks is irrelevant |
| `Debounce.FireAtMostOnce` | src/ops/debounce.rs:115-120 | a callback token firing a second time emits nothing and changes nothing |
| `Debounce.NothingAfterComplete` | src/ops/debounce.rs:114-137 | after `complete` has flushed, a late callback emits nothing |
| `Debounce.NextAfterError` | src/ops/debounce.rs:106-130 | `next(v)`, then `error(e)`, then the callback for `v` emits `[error(e), next(v)]` |
| `Debounce.LateCallbackLoses` | src/ops/debounce.rs:106-121 | a callback that runs only after the next value has arrived is stale and sends nothing, so the first value is lost even though the gap was at least the delay; only the second is sent |
| `DebounceTimeline.FireDue` | src/ops/debounce.rs:112-125 | running the due callbacks emits the waiting value exactly once if some due callback still carries the latest token and nothing otherwise; callbacks that are not due stay pending and no others do |
| `DebounceTimeline.DeliverSchedules` | src/ops/debounce.rs:112-125 | handling an event never cancels a callback that is not yet due; an upstream value adds exactly one callback at `t + delay` with token `t`; other events add none |
| `DebounceTimeline.AdvanceTracked` | src/ops/debounce.rs:114-121 | running the scheduler keeps `last_updated` and the bookkeeping: each pending callback fires `delay` after its token, and a waiting value's callback is still pending |
| `DebounceTimeline.DeliverTracked` | src/ops/debounce.rs:106-137 | handling any upstream event keeps that bookkeeping |
| `DebounceTimeline.HandleTracked` | src/ops/debounce.rs:106-137 | once the due callbacks have run, handling an upstream event keeps that bookkeeping, so a new value's callback is pending (that `error` and `complete` schedule nothing is stated by `DebounceTimeline.DeliverSchedules`) |
| `DebounceTimeline.QuietAdvance` | src/ops/debounce.rs:114-121 | before the latest value's quiet period has elapsed, every due callback is stale: nothing is emitted and the state is unchanged |
| `DebounceTimeline.RipeAdvance` | src/ops/debounce.rs:114-121 | once the quiet period has elapsed, the waiting value is emitted exactly once and cleared |
| `DebounceTimeline.IdleAdvance` | src/ops/debounce.rs:115-116 | with nothing waiting, running the scheduler emits nothing and changes nothing |
| `DebounceTimeline.DeliverNextQuiet` | src/ops/debounce.rs:106-125 | a value arriving inside the previous one's quiet period supersedes it silently and waits with its own instant |
| `DebounceTimeline.DeliverNextRipe` | src/ops/debounce.rs:106-125 | a value arriving after the previous one's quiet period lets the previous value out first, then waits |
| `DebounceTimeline.CompleteFlushes` | src/ops/debounce.rs:131-137 | completion with a value waiting sends that value and then `complete`, whether or not its callback was due first, and leaves nothing waiting |
| `DebounceTimeline.CompleteThenSettle` | src/ops/debounce.rs:131-137 | after completion and the scheduler running until idle, the waiting value and `complete` are the last notifications |
| `DebounceTimeline.ErrorThenSettle` | src/ops/debounce.rs:114-130 | an error inside the quiet period is forwarded at once, and the kept value is emitted after it when its callback fires |
| `DebounceTimeline.SettleIdle` | src/ops/debounce.rs:115-116 | with nothing waiting, running the scheduler until idle emits nothing |
| `DebounceScenarios.FirstArrival` | src/ops/debounce.rs:106-125 | the first value given to a fresh subscription emits nothing and waits with its own instant |
| `DebounceScenarios.KeptSnoc` | src/ops/debounce.rs:114-121 | one more arrival adds the previous value to the reference's kept values exactly when the gap to it is at least the delay |
| `DebounceScenarios.ArrivalStep` | src/ops/debounce.rs:106-125 | one more value: the waiting value is emitted first exactly when the new value arrives at least the delay after it, and the new value then waits |
| `DebounceScenarios.ArrivalsPrefix` | src/ops/debounce.rs:106-125 | after the first `k` values of any timeline, exactly the reference's kept values among them have been emitted, in order, and the `k`-th waits |
| `DebounceScenarios.NothingArrives` | src/ops/debounce.rs:131-137 | an upstream that completes without a value sends only `complete` |
| `DebounceScenarios.CompleteAfterArrivals` | src/ops/debounce.rs:131-137 | completion at the last value's instant, then the idle scheduler, add exactly the last value and `complete` after the kept values |
| `DebounceScenarios.KeepsSurvivors` | src/ops/debounce.rs:106-137 | for every timeline of values, then completion at the last value's instant, downstream receives one `next` per surviving value (last, or followed by a gap of at least the delay), in order, then `complete` |
| `DebounceScenarios.SurvivorsObserved` | src/ops/debounce.rs:106-137 | through a pure callback, any debounced timeline is observed as exactly its surviving values, in order |
| `DebounceScenarios.KeptNone` | src/ops/debounce.rs:114-121 | when every gap is shorter than the delay, no value but the last survives |
| `DebounceScenarios.KeptAll` | src/ops/debounce.rs:114-121 | when every gap is at least the delay, every value survives |
| `DebounceScenarios.Even` | src/ops/debounce.rs:167-207 | the evenly spaced arrivals carry the given values, and consecutive ones are exactly `gap` apart |
| `DebounceScenarios.BurstSurvivors` | src/ops/debounce.rs:167-185 | evenly spaced values closer together than the delay: only the last survives |
| `DebounceScenarios.SparseSurvivors` | src/ops/debounce.rs:189-207 | evenly spaced values at least the delay apart: all survive |
| `DebounceScenarios.BurstKeepsLast` | src/ops/debounce.rs:167-185 | a burst closer together than the delay, then completion, is sent downstream as `[next(last), complete]` |
| `DebounceScenarios.SparseKeepsAll` | src/ops/debounce.rs:189-207 | values at least the delay apart, then completion, are all sent downstream in order, then `complete` |
| `DebounceScenarios.BurstObserved` | src/ops/debounce.rs:174-185 | through a pure callback, a burst is observed as its last value |
| `DebounceScenarios.SparseObserved` | src/ops/debounce.rs:196-207 | through a pure callback, values at least the delay apart are observed in full, in order |
| `DebounceScenarios.SmokeLast` | src/ops/debounce.rs:167-185 | values 0..9 two units apart, delay three, are observed as `[9]` |
| `DebounceScenarios.SmokeEvery` | src/ops/debounce.rs:189-207 | values 0..9 three units apart, delay two, are observed as `[0, 1, …, 9]` |
| `FromFuture.Resolve` | src/observable/from_future.rs:31-42 | `from_future!` appends exactly `[next(v), complete]` to an open subscriber's observer and nothing to a closed one's |
| `FromFuture.ResolveResult` | src/observable/from_future.rs:47-63 | `from_future_with_err!` sends an open subscriber `[next(item), complete]` on `Ok(item)` and exactly `[error(err)]` on `Err(err)`, and a closed one nothing |
| `FromFuture.PlainNeverErrors` | src/observable/from_future.rs:11-37 | `from_future!` never signals `error`, even for an `Err` value, which is delivered as an ordinary `next` |
| `FromFuture.ResolveConforms` | src/observable/from_future.rs:33-38 | `from_future!` emits at most one `next`, at most one terminal notification and it comes last, and exactly one terminal when open |
| `FromFuture.ResolveResultConforms` | src/observable/from_future.rs:49-58 | the same for `from_future_with_err!`, which emits a `next` exactly when the subscriber is open and the result is `Ok` |
| `FromFuture.VariantsAgreeOnSuccess` | src/observable/from_future.rs:33-55 | on a successful result the two variants send the same notifications |
| `FromFuture.SmokeObserved` | src/observable/from_future.rs:65-85 | `future::ok(1)` through `from_future_with_err!` is observed as `[1]`, and `future::ready(2)` through `from_future!` as `[2]` |
| `SubscribePure.OnNext` | src/subscribable/subscribable_pure.rs:11 | `next(v)` invokes the callback exactly once, with `v`, after its earlier calls |
| `SubscribePure.OnError` | src/subscribable/subscribable_pure.rs:6-13 | `error` takes only the unit error, invokes nothing and changes nothing |
| `SubscribePure.OnComplete` | src/subscribable/subscribable_pure.rs:15 | `complete` invokes nothing and changes nothing |
| `SubscribePure.Receive` | src/subscribable/subscribable_pure.rs:10-15 | a notification adds its payload to the calls if it is a `next`, and leaves the adapter unchanged if it is terminal |
| `SubscribePure.ToShared` | src/subscribable/subscribable_pure.rs:24 | the promoted adapter reacts to every trace exactly as the original does |
| `SubscribePure.ToSharedIdempotent` | src/subscribable/subscribable_pure.rs:18-25 | promoting twice equals promoting once |
| `SubscribePure.PayloadsAppend` | src/subscribable/subscribable_pure.rs:11-15 | the `next` payloads of a concatenation of traces are the concatenation of their payloads |
| `SubscribePure.FeedCollectsPayloads` | src/subscribable/subscribable_pure.rs:11-15 | feeding a trace calls the callback with exactly the trace's `next` payloads, in order |
| `SubscribePure.ObservedIsPayloads` | src/subscribable/subscribable_pure.rs:11-15 | what a fresh adapter observes over a trace is exactly its `next` payloads |
| `SubscribePure.NextPositions` | src/subscribable/subscribable_pure.rs:11-15 | the positions of a trace's `next` notifications are ascending, each holds a `next`, and every `next` is among them |
| `SubscribePure.PayloadsAtNextPositions` | src/subscribable/subscribable_pure.rs:11-15 | the payloads are read off the trace at the `next` positions: they are the subsequence of `next` values, in order |

## Left out

- Sharing machinery: `Rc<RefCell>` versus `Arc<Mutex>`, the `Send`/`Sync` bounds and lock scoping (`src/ops/debounce.rs:97-103`, `:144-160`). Both variants run the same macro body, which the pure model covers.
- `actual_subscribe` wiring and `observable_proxy_impl!` (`src/ops/debounce.rs:17-87`). They only move the subscription through; `Debounce.Subscribe` models the initial state they build.
- The real clock and scheduler: `Instant::now()` is an integer parameter, and `LocalPool` and `ThreadPool` are replaced by the pending-callback list.
- Wall-clock resolution. When two values share an instant, a stale callback's token equals the newer `last_updated`, as with a coarse `Instant`. The model does exactly what the code does there. `DebounceScenarios.KeepsSurvivors` covers such timelines too, but the model does not cover instants that differ only below the clock's resolution.
- The simulator runs a callback due at the same instant as an upstream event before that event. So a value followed after exactly the delay survives. The burst corollaries need the gap strictly below the delay.
- The `fork_and_shared` test (`src/ops/debounce.rs:210-219`): a thread-pool smoke check with no observable output.
- The executor side of the future bridge: the `DEFAULT_RUNTIME` thread pool, `spawn(..).unwrap()`, and polling through `Future::map` (`src/observable/from_future.rs:6-9`, `:39`, `:60`). The closed flag at resolution time is an input.
- The `sleep`-based timing of the future bridge test. `FromFuture.SmokeObserved` states only the observed values.
- `SubscribablePure::subscribe` and `raw_subscribe` (`src/subscribable/subscribable_pure.rs:27-47`): trait dispatch into code that is not part of this model.
- DebounceScenarios.KeepsSurvivors: holds for a punctual scheduler only. The simulator runs each callback before the first upstream event at or after its due instant. rxRust's schedulers promise only that a callback does not run before its delay. A callback that runs after the next value has arrived finds its token stale and loses its value (`Debounce.LateCallbackLoses`). The same applies to `DebounceScenarios.SparseKeepsAll`, `DebounceScenarios.SparseObserved`, `DebounceScenarios.SurvivorsObserved` and `DebounceScenarios.SmokeEvery`.
- FromFuture.Resolve, FromFuture.ResolveResult: `closed` is read only at resolution time, and `r.closed == sub.closed` does not claim the subscription stays open after `complete` or `error`. Closing on a terminal notification is not modelled (next line).
- Closing on a terminal notification: the subscriber's own bookkeeping after `error` or `complete` (its closed flag and `is_stopped`) is not part of this model; notifications only append to the observer's log.
- `DebounceScenarios` fixes the error type to `()`: no error occurs in those timelines.
- The user callback's own side effects: the model represents the callback by the sequence of arguments it receives.
