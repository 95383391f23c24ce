/**
The per-subscription state machine of the debounce operator. The local
(`Rc<RefCell<..>>`) and shared (`Arc<Mutex<..>>`) observers expand one macro
body, so one pure model covers both. `Instant::now()` is an injected clock
reading, and `scheduler.schedule(callback, Some(delay), token)` is returned as
a `Scheduled` entry; running the callback later is the `Fire` input.
*/
module Debounce {
  import opened Signals

  /** A reading of the injected monotonic clock (`Instant`). */
  type Time = int

  /** `DebounceObserver` without its scheduler: the downstream observer, the
      configured delay, the value waiting to be emitted, and the instant of
      the latest upstream value. */
  datatype DebounceState<T, E> = DebounceState(
    observer: Observer<T, E>,
    delay: nat,
    trailing: Option<T>,
    lastUpdated: Option<Time>)

  /** A callback handed to the scheduler: it runs no earlier than `fireAt`
      and is passed back `token`. */
  datatype Scheduled = Scheduled(fireAt: Time, token: Option<Time>)

  /** What can happen to the operator: an upstream value arriving at `at`,
      one of its scheduled callbacks running, an upstream error, or upstream
      completion. */
  datatype Input<T, E> = Push(value: T, at: Time) | Fire(token: Option<Time>) | Fail(error: E) | Finish

  /** The new state and what is handed to the scheduler. */
  datatype Reaction<T, E> = Reaction(state: DebounceState<T, E>, scheduled: seq<Scheduled>)

  /** The state `actual_subscribe` wraps around the downstream observer:
      nothing waiting, never updated. */
  function Subscribe<T, E>(observer: Observer<T, E>, delay: nat): (s: DebounceState<T, E>)
    ensures s.observer == observer && s.delay == delay
    ensures s.trailing.None? && s.lastUpdated.None?
  {
    DebounceState(observer, delay, None, None)
  }

  /** Upstream `next(value)` at `now`: remember the value and its instant,
      send nothing downstream, and schedule one callback after the delay
      whose token is the new `lastUpdated`. */
  function OnNext<T, E>(s: DebounceState<T, E>, value: T, now: Time): (r: Reaction<T, E>)
    ensures r.state.trailing == Some(value) && r.state.lastUpdated == Some(now)
    ensures r.state.observer == s.observer && r.state.delay == s.delay
    ensures |r.scheduled| == 1
    ensures r.scheduled[0].fireAt == now + s.delay && r.scheduled[0].token == r.state.lastUpdated
  {
    var updated := Some(now);
    var s' := s.(lastUpdated := updated, trailing := Some(value));
    Reaction(s', [Scheduled(now + s.delay, s'.lastUpdated)])
  }

  /** A scheduled callback running with `token`: only a callback whose token
      is still the latest update, with a value waiting, sends that value
      downstream once and clears it; any other callback is a no-op. */
  function OnFire<T, E>(s: DebounceState<T, E>, token: Option<Time>): (r: Reaction<T, E>)
    ensures r.state.lastUpdated == s.lastUpdated && r.state.delay == s.delay
    ensures r.state.observer.stopped == s.observer.stopped
    ensures |r.scheduled| == 0
    ensures s.trailing.Some? && s.lastUpdated == token ==>
              && r.state.observer.received == s.observer.received + [Next(s.trailing.value)]
              && r.state.trailing.None?
    ensures !(s.trailing.Some? && s.lastUpdated == token) ==> r.state == s
  {
    match s.trailing
    case Some(value) =>
      if s.lastUpdated == token then
        Reaction(s.(observer := s.observer.Notify(Next(value)), trailing := None), [])
      else Reaction(s, [])
    case None => Reaction(s, [])
  }

  /** Upstream `error(err)`: forwarded at once, with no `next`; the waiting
      value is neither emitted nor cleared. */
  function OnError<T, E>(s: DebounceState<T, E>, err: E): (r: Reaction<T, E>)
    ensures r.state.observer.received == s.observer.received + [Error(err)]
    ensures r.state.observer.stopped == s.observer.stopped
    ensures r.state.trailing == s.trailing && r.state.lastUpdated == s.lastUpdated
    ensures r.state.delay == s.delay && |r.scheduled| == 0
  {
    Reaction(s.(observer := s.observer.Notify(Error(err))), [])
  }

  /** Upstream `complete()`: the waiting value, if any, is sent at once,
      then `complete`; afterwards nothing is waiting. */
  function OnComplete<T, E>(s: DebounceState<T, E>): (r: Reaction<T, E>)
    ensures r.state.trailing.None?
    ensures r.state.lastUpdated == s.lastUpdated && r.state.delay == s.delay
    ensures r.state.observer.stopped == s.observer.stopped
    ensures s.trailing.Some? ==>
              r.state.observer.received == s.observer.received + [Next(s.trailing.value), Complete]
    ensures s.trailing.None? ==> r.state.observer.received == s.observer.received + [Complete]
    ensures |r.scheduled| == 0
  {
    match s.trailing
    case Some(value) =>
      Reaction(s.(observer := s.observer.Notify(Next(value)).Notify(Complete), trailing := None), [])
    case None =>
      Reaction(s.(observer := s.observer.Notify(Complete)), [])
  }

  /** `is_stopped()`: the downstream observer's answer. */
  function IsStopped<T, E>(s: DebounceState<T, E>): (r: bool)
    ensures r == s.observer.stopped
  {
    s.observer.stopped
  }

  /** One input applied to the state. */
  function Step<T, E>(s: DebounceState<T, E>, input: Input<T, E>): Reaction<T, E> {
    match input
    case Push(value, at) => OnNext(s, value, at)
    case Fire(token) => OnFire(s, token)
    case Fail(err) => OnError(s, err)
    case Finish => OnComplete(s)
  }

  /** A waiting value always has the instant it arrived at. */
  predicate Consistent<T, E>(s: DebounceState<T, E>) {
    s.trailing.Some? ==> s.lastUpdated.Some?
  }

  /** Every input keeps `Consistent` and the configured delay; the operator
      itself never changes the downstream observer's stop flag; what the
      downstream observer has received only grows; only an upstream value
      moves `lastUpdated`; an error leaves the waiting value alone. */
  lemma StepPreserves<T, E>(s: DebounceState<T, E>, input: Input<T, E>)
    requires Consistent(s)
    ensures Consistent(Step(s, input).state)
    ensures Step(s, input).state.delay == s.delay
    ensures IsStopped(Step(s, input).state) == IsStopped(s)
    ensures s.observer.received <= Step(s, input).state.observer.received
    ensures !input.Push? ==> Step(s, input).state.lastUpdated == s.lastUpdated
    ensures input.Fail? ==> Step(s, input).state.trailing == s.trailing
  {
  }

  /** Two callbacks running back to back give the same state in either
      order: the scheduler's order among due callbacks does not matter. */
  lemma FireCommutes<T, E>(s: DebounceState<T, E>, a: Option<Time>, b: Option<Time>)
    ensures OnFire(OnFire(s, a).state, b).state == OnFire(OnFire(s, b).state, a).state
  {
  }

  /** A callback can emit a value at most once: the same token firing again
      finds nothing waiting. */
  lemma FireAtMostOnce<T, E>(s: DebounceState<T, E>, token: Option<Time>)
    ensures OnFire(OnFire(s, token).state, token).state == OnFire(s, token).state
  {
  }

  /** Once completion has flushed, a late callback sends nothing. */
  lemma NothingAfterComplete<T, E>(s: DebounceState<T, E>, token: Option<Time>)
    ensures OnFire(OnComplete(s).state, token).state == OnComplete(s).state
  {
  }

  /** `error` does not clear the waiting value, so the callback scheduled for
      the latest value still sends it after the error has been forwarded. */
  lemma NextAfterError<T, E>(s: DebounceState<T, E>, value: T, now: Time, err: E)
    ensures var pushed := OnNext(s, value, now);
            var failed := OnError(pushed.state, err);
            var fired := OnFire(failed.state, pushed.scheduled[0].token);
            fired.state.observer.received == s.observer.received + [Error(err), Next(value)]
  {
  }

  /** A callback that runs late, after the next upstream value has arrived,
      finds its token stale and sends nothing, even though that value came
      at least the delay later: the first value is lost and only the second
      is sent. */
  lemma LateCallbackLoses<T, E>(s: DebounceState<T, E>, v0: T, t0: Time, v1: T, t1: Time)
    requires t0 < t1 && t0 + s.delay <= t1
    ensures var first := OnNext(s, v0, t0);
            var second := OnNext(first.state, v1, t1);
            var late := OnFire(second.state, first.scheduled[0].token);
            var last := OnFire(late.state, second.scheduled[0].token);
            && late.state == second.state
            && last.state.observer.received == s.observer.received + [Next(v1)]
  {
  }
}
