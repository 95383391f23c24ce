/**
A deterministic trace simulator for one debounce subscription. The scheduler
is a list of pending callbacks in the order they were scheduled; the clock is
the timestamp carried by each upstream event. Before an upstream event at time
`t` is handled, every pending callback due at or before `t` runs; after the
last upstream event every remaining callback runs, as a cooperative pool does
when it is run until idle.
*/
module DebounceTimeline {
  import opened Signals
  import opened Debounce

  /** How far the scheduler is let run: up to an instant, or until idle. */
  datatype Horizon = Until(now: Time) | Forever

  /** A pending callback is due when the horizon has reached its instant. */
  predicate Due(p: Scheduled, h: Horizon) {
    h.Forever? || p.fireAt <= h.now
  }

  /** The outcome of running due callbacks: the new state and the callbacks
      still pending. */
  datatype Drain<T, E> = Drain(state: DebounceState<T, E>, remaining: seq<Scheduled>)

  /** A value is waiting and some due callback carries the latest token. */
  predicate Hits<T, E>(s: DebounceState<T, E>, pending: seq<Scheduled>, h: Horizon) {
    s.trailing.Some? && exists p :: p in pending && Due(p, h) && p.token == s.lastUpdated
  }

  /** The state after the waiting value has been sent downstream. */
  function Flushed<T, E>(s: DebounceState<T, E>): DebounceState<T, E>
    requires s.trailing.Some?
  {
    s.(observer := s.observer.Notify(Next(s.trailing.value)), trailing := None)
  }

  /** Runs, in scheduling order, every pending callback that is due. The
      waiting value is sent exactly once if some due callback still carries
      the latest token, and nothing happens otherwise; callbacks that are
      not due stay pending. */
  function FireDue<T, E>(s: DebounceState<T, E>, pending: seq<Scheduled>, h: Horizon): (r: Drain<T, E>)
    ensures Hits(s, pending, h) ==> r.state == Flushed(s)
    ensures !Hits(s, pending, h) ==> r.state == s
    ensures forall p :: p in r.remaining <==> p in pending && !Due(p, h)
    decreases |pending|
  {
    if |pending| == 0 then Drain(s, [])
    else
      var p := pending[0];
      assert forall q :: q in pending <==> q == p || q in pending[1..];
      if Due(p, h) then
        var rest := FireDue(OnFire(s, p.token).state, pending[1..], h);
        Drain(rest.state, rest.remaining)
      else
        var rest := FireDue(s, pending[1..], h);
        Drain(rest.state, [p] + rest.remaining)
  }

  /** One subscription in flight: operator state (including everything sent
      downstream so far) and pending callbacks. */
  datatype World<T, E> = World(state: DebounceState<T, E>, pending: seq<Scheduled>)

  /** What the upstream source does. */
  datatype Upstream<T, E> = UpNext(value: T) | UpError(error: E) | UpComplete

  /** An upstream event and the instant it happens at. */
  datatype Timed<T, E> = Timed(at: Time, event: Upstream<T, E>)

  /** Everything sent downstream so far. */
  function Out<T, E>(w: World<T, E>): seq<Signal<T, E>> {
    w.state.observer.received
  }

  /** Lets the scheduler run up to the horizon. */
  function Advance<T, E>(w: World<T, E>, h: Horizon): World<T, E> {
    var d := FireDue(w.state, w.pending, h);
    World(d.state, d.remaining)
  }

  /** The operator input an upstream event becomes. */
  function AsInput<T, E>(e: Timed<T, E>): Input<T, E> {
    match e.event
    case UpNext(v) => Push(v, e.at)
    case UpError(err) => Fail(err)
    case UpComplete => Finish
  }

  /** Runs the callbacks due by the event's instant, then handles the event;
      callbacks it schedules join the pending ones, none is cancelled. */
  function Deliver<T, E>(w: World<T, E>, e: Timed<T, E>): World<T, E> {
    var a := Advance(w, Until(e.at));
    var r := Step(a.state, AsInput(e));
    World(r.state, a.pending + r.scheduled)
  }

  /** Delivers a sequence of upstream events, first to last. */
  function Run<T, E>(w: World<T, E>, events: seq<Timed<T, E>>): World<T, E>
    decreases |events|
  {
    if |events| == 0 then w
    else Deliver(Run(w, events[..|events| - 1]), events[|events| - 1])
  }

  /** A fresh subscription around an observer that has received nothing. */
  function Start<T, E>(delay: nat): World<T, E> {
    World(Subscribe(Observer([], false), delay), [])
  }

  /** Everything sent downstream when the upstream events are delivered to a
      fresh subscription and the scheduler is then run until idle. */
  function Simulate<T, E>(delay: nat, events: seq<Timed<T, E>>): seq<Signal<T, E>> {
    Out(Advance(Run(Start(delay), events), Forever))
  }

  /** The scheduler bookkeeping the operator relies on: every pending
      callback fires `delay` after its token, and a waiting value has its
      callback still pending. */
  predicate Tracked<T, E>(w: World<T, E>) {
    && (forall p :: p in w.pending ==> p.token.Some? && p.fireAt == p.token.value + w.state.delay)
    && (w.state.trailing.Some? ==>
          && w.state.lastUpdated.Some?
          && Scheduled(w.state.lastUpdated.value + w.state.delay, w.state.lastUpdated) in w.pending)
  }

  /** Before the latest value's quiet period has elapsed, every due callback
      is stale: running the scheduler changes nothing. */
  lemma QuietAdvance<T, E>(w: World<T, E>, t: Time)
    requires Tracked(w)
    requires w.state.lastUpdated.Some? && t < w.state.lastUpdated.value + w.state.delay
    ensures Advance(w, Until(t)).state == w.state
    ensures Tracked(Advance(w, Until(t)))
  {
    var h := Until(t);
    assert !Hits(w.state, w.pending, h) by {
      forall p | p in w.pending && p.token == w.state.lastUpdated
        ensures !Due(p, h)
      {
      }
    }
  }

  /** Once the latest value's quiet period has elapsed, its callback sends
      it, exactly once, and nothing is left waiting. */
  lemma RipeAdvance<T, E>(w: World<T, E>, h: Horizon)
    requires Tracked(w) && w.state.trailing.Some?
    requires h.Until? ==> w.state.lastUpdated.value + w.state.delay <= h.now
    ensures Out(Advance(w, h)) == Out(w) + [Next(w.state.trailing.value)]
    ensures Advance(w, h).state.trailing.None?
    ensures Advance(w, h).state.lastUpdated == w.state.lastUpdated
    ensures Advance(w, h).state.delay == w.state.delay
    ensures Tracked(Advance(w, h))
  {
    var armed := Scheduled(w.state.lastUpdated.value + w.state.delay, w.state.lastUpdated);
    assert armed in w.pending && Due(armed, h);
  }

  /** With nothing waiting, running the scheduler changes nothing. */
  lemma IdleAdvance<T, E>(w: World<T, E>, h: Horizon)
    requires Tracked(w) && w.state.trailing.None?
    ensures Advance(w, h).state == w.state
    ensures Tracked(Advance(w, h))
  {
  }

  /** Running the scheduler keeps its bookkeeping and `lastUpdated`. */
  lemma AdvanceTracked<T, E>(w: World<T, E>, h: Horizon)
    requires Tracked(w)
    ensures Tracked(Advance(w, h))
    ensures Advance(w, h).state.lastUpdated == w.state.lastUpdated
    ensures Advance(w, h).state.delay == w.state.delay
  {
    if w.state.trailing.Some? {
      var armed := Scheduled(w.state.lastUpdated.value + w.state.delay, w.state.lastUpdated);
      if Due(armed, h) {
        assert Hits(w.state, w.pending, h);
      }
    }
  }

  /** Handling an upstream event, once the due callbacks have run, keeps the
      bookkeeping. */
  lemma HandleTracked<T, E>(a: World<T, E>, e: Timed<T, E>)
    requires Tracked(a)
    ensures var r := Step(a.state, AsInput(e));
            Tracked(World(r.state, a.pending + r.scheduled))
  {
    var r := Step(a.state, AsInput(e));
    assert forall p :: p in a.pending + r.scheduled <==> p in a.pending || p in r.scheduled;
    match e.event
    case UpNext(v) =>
      assert r.scheduled == [Scheduled(e.at + a.state.delay, Some(e.at))];
    case UpError(err) =>
      assert r.state.trailing == a.state.trailing && r.scheduled == [];
    case UpComplete =>
      assert r.state.trailing.None? && r.scheduled == [];
  }

  /** Delivering any upstream event keeps the bookkeeping. */
  lemma DeliverTracked<T, E>(w: World<T, E>, e: Timed<T, E>)
    requires Tracked(w)
    ensures Tracked(Deliver(w, e))
  {
    AdvanceTracked(w, Until(e.at));
    HandleTracked(Advance(w, Until(e.at)), e);
  }

  /** Handling an event never cancels a callback that is not yet due; an
      upstream value adds exactly one callback, due `delay` after it and
      carrying its instant, and no other event adds any. */
  lemma DeliverSchedules<T, E>(w: World<T, E>, e: Timed<T, E>)
    ensures forall p :: p in w.pending && !Due(p, Until(e.at)) ==> p in Deliver(w, e).pending
    ensures e.event.UpNext? ==>
              Deliver(w, e).pending == Advance(w, Until(e.at)).pending + [Scheduled(e.at + w.state.delay, Some(e.at))]
    ensures !e.event.UpNext? ==> Deliver(w, e).pending == Advance(w, Until(e.at)).pending
  {
    var a := Advance(w, Until(e.at));
    assert a.state.delay == w.state.delay;
    assert forall p :: p in a.pending ==> p in a.pending + Step(a.state, AsInput(e)).scheduled;
    if !e.event.UpNext? {
      assert a.pending + [] == a.pending;
    }
  }

  /** An upstream value arriving while the previous one is still inside its
      quiet period supersedes it: nothing is sent, and the new value waits
      with a freshly scheduled callback. */
  lemma DeliverNextQuiet<T, E>(w: World<T, E>, t: Time, v: T)
    requires Tracked(w)
    requires w.state.lastUpdated.Some? && t < w.state.lastUpdated.value + w.state.delay
    ensures Deliver(w, Timed(t, UpNext(v))).state == w.state.(trailing := Some(v), lastUpdated := Some(t))
    ensures Tracked(Deliver(w, Timed(t, UpNext(v))))
  {
    QuietAdvance(w, t);
    DeliverTracked(w, Timed(t, UpNext(v)));
  }

  /** An upstream value arriving after the previous one's quiet period has
      elapsed: the previous value is sent first, then the new one waits. */
  lemma DeliverNextRipe<T, E>(w: World<T, E>, t: Time, v: T)
    requires Tracked(w) && w.state.trailing.Some?
    requires w.state.lastUpdated.value + w.state.delay <= t
    ensures Out(Deliver(w, Timed(t, UpNext(v)))) == Out(w) + [Next(w.state.trailing.value)]
    ensures Deliver(w, Timed(t, UpNext(v))).state.trailing == Some(v)
    ensures Deliver(w, Timed(t, UpNext(v))).state.lastUpdated == Some(t)
    ensures Deliver(w, Timed(t, UpNext(v))).state.delay == w.state.delay
    ensures Tracked(Deliver(w, Timed(t, UpNext(v))))
  {
    RipeAdvance(w, Until(t));
    DeliverTracked(w, Timed(t, UpNext(v)));
  }

  /** Completion while a value is waiting: whether its callback wins the
      race or not, downstream receives that value and then `complete`, and
      nothing is left waiting. */
  lemma CompleteFlushes<T, E>(w: World<T, E>, t: Time)
    requires Tracked(w) && w.state.trailing.Some?
    ensures Out(Deliver(w, Timed(t, UpComplete))) == Out(w) + [Next(w.state.trailing.value), Complete]
    ensures Deliver(w, Timed(t, UpComplete)).state.trailing.None?
    ensures Tracked(Deliver(w, Timed(t, UpComplete)))
  {
    DeliverTracked(w, Timed(t, UpComplete));
    var v := w.state.trailing.value;
    if w.state.lastUpdated.value + w.state.delay <= t {
      RipeAdvance(w, Until(t));
      var a := Advance(w, Until(t));
      assert Out(a) + [Complete] == Out(w) + [Next(v), Complete];
    } else {
      QuietAdvance(w, t);
    }
  }

  /** Completion followed by the scheduler running until idle: the waiting
      value and `complete` are the last things sent downstream. */
  lemma CompleteThenSettle<T, E>(w: World<T, E>, t: Time)
    requires Tracked(w) && w.state.trailing.Some?
    ensures Out(Advance(Deliver(w, Timed(t, UpComplete)), Forever))
         == Out(w) + [Next(w.state.trailing.value), Complete]
  {
    CompleteFlushes(w, t);
    IdleAdvance(Deliver(w, Timed(t, UpComplete)), Forever);
  }

  /** An upstream error inside the quiet period is forwarded at once, but the
      waiting value is kept, and its callback later sends it after the
      error. */
  lemma ErrorThenSettle<T, E>(w: World<T, E>, t: Time, err: E)
    requires Tracked(w) && w.state.trailing.Some?
    requires t < w.state.lastUpdated.value + w.state.delay
    ensures Out(Advance(Deliver(w, Timed(t, UpError(err))), Forever))
         == Out(w) + [Error(err), Next(w.state.trailing.value)]
  {
    QuietAdvance(w, t);
    DeliverTracked(w, Timed(t, UpError(err)));
    var failed := Deliver(w, Timed(t, UpError(err)));
    assert failed.state.trailing == w.state.trailing && Out(failed) == Out(w) + [Error(err)];
    RipeAdvance(failed, Forever);
  }

  /** With nothing waiting, the scheduler sends nothing until idle. */
  lemma SettleIdle<T, E>(w: World<T, E>)
    requires Tracked(w) && w.state.trailing.None?
    ensures Out(Advance(w, Forever)) == Out(w)
  {
    IdleAdvance(w, Forever);
  }
}
