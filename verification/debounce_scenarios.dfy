/**
Whole upstream timelines fed to the debounce operator: values arriving at
arbitrary instants, then completion at the instant of the last value. A value
survives exactly when it is the last one or the next value arrives at least
the delay after it; everything else is superseded. Evenly spaced values, the
shape of `interval(gap).take(n)`, are the special case the `smoke_last` and
`smoke_every` tests exercise. No error occurs in these timelines, so the
error type is fixed to `()`.
*/
module DebounceScenarios {
  import opened Signals
  import opened Debounce
  import opened DebounceTimeline
  import SubscribePure

  /** An upstream value and the instant it arrives at. */
  datatype Arrival<T> = Arrival(at: Time, value: T)

  /** The arrivals as upstream events, in order. */
  function Arrivals<T, E>(vs: seq<Arrival<T>>): seq<Timed<T, E>> {
    seq(|vs|, k requires 0 <= k < |vs| => Timed(vs[k].at, UpNext(vs[k].value)))
  }

  /** The instant of the last arrival (0 when there is none). */
  function LastInstant<T>(vs: seq<Arrival<T>>): Time {
    if |vs| == 0 then 0 else vs[|vs| - 1].at
  }

  /** The arrivals, then completion at the instant of the last one (as
      `take` completes right after forwarding its last value). */
  function Completed<T, E>(vs: seq<Arrival<T>>): seq<Timed<T, E>> {
    Arrivals(vs) + [Timed(LastInstant(vs), UpComplete)]
  }

  /** Time from the `i`-th arrival to the next one. */
  function Gap<T>(vs: seq<Arrival<T>>, i: nat): int
    requires i + 1 < |vs|
  {
    vs[i + 1].at - vs[i].at
  }

  /** The values carried by the arrivals. */
  function Values<T>(vs: seq<Arrival<T>>): seq<T> {
    seq(|vs|, k requires 0 <= k < |vs| => vs[k].value)
  }

  /** Reference definition: the values, other than the last, whose successor
      arrives at least `delay` after them, in order. */
  function Kept<T>(vs: seq<Arrival<T>>, delay: nat): seq<T>
    decreases |vs|
  {
    if |vs| <= 1 then []
    else Kept(vs[..|vs| - 1], delay) + (if Gap(vs, |vs| - 2) >= delay then [vs[|vs| - 2].value] else [])
  }

  /** Reference definition: the values a debounced timeline lets through,
      namely the kept ones and the last one. */
  function Survivors<T>(vs: seq<Arrival<T>>, delay: nat): seq<T> {
    if |vs| == 0 then [] else Kept(vs, delay) + [vs[|vs| - 1].value]
  }

  /** One `next` per value, in order. */
  function Nexts<T, E>(xs: seq<T>): seq<Signal<T, E>> {
    seq(|xs|, k requires 0 <= k < |xs| => Next(xs[k]))
  }

  /** The `next`s of a concatenation are the concatenation of the `next`s. */
  lemma NextsAppend<T>(a: seq<T>, b: seq<T>)
    ensures Nexts<T, ()>(a + b) == Nexts<T, ()>(a) + Nexts<T, ()>(b)
  {
    var l := Nexts<T, ()>(a + b);
    var r := Nexts<T, ()>(a) + Nexts<T, ()>(b);
    assert |l| == |r|;
    forall i | 0 <= i < |l|
      ensures l[i] == r[i]
    {
      if i < |a| {
        assert r[i] == Nexts<T, ()>(a)[i];
      } else {
        assert r[i] == Nexts<T, ()>(b)[i - |a|];
      }
    }
  }

  /** The first `k` events delivered once the timeline has been extended by
      one event: a prefix of a run is a run of the prefix. */
  lemma RunPrefix<T>(w: World<T, ()>, es: seq<Timed<T, ()>>, k: nat)
    requires 1 <= k <= |es|
    ensures Run(w, es[..k]) == Deliver(Run(w, es[..k - 1]), es[k - 1])
  {
    assert es[..k][..k - 1] == es[..k - 1];
  }

  /** The first value, delivered to a fresh subscription: nothing has been
      emitted and the value waits with its own instant. */
  lemma FirstArrival<T>(vs: seq<Arrival<T>>, delay: nat)
    requires 1 <= |vs|
    ensures var w := Run(Start<T, ()>(delay), Arrivals<T, ()>(vs)[..1]);
            && Tracked(w) && Out(w) == [] && w.state.delay == delay
            && w.state.trailing == Some(vs[0].value) && w.state.lastUpdated == Some(vs[0].at)
  {
    var es := Arrivals<T, ()>(vs);
    RunPrefix(Start<T, ()>(delay), es, 1);
    var w := Run(Start<T, ()>(delay), es[..0]);
    assert es[..0] == [];
    IdleAdvance(w, Until(vs[0].at));
    DeliverTracked(w, es[0]);
  }

  /** The `Kept` values of one more arrival: the previous value joins them
      exactly when the new arrival comes at least `delay` after it. */
  lemma KeptSnoc<T>(vs: seq<Arrival<T>>, delay: nat, k: nat)
    requires 2 <= k <= |vs|
    ensures Kept(vs[..k], delay)
         == Kept(vs[..k - 1], delay) + (if Gap(vs, k - 2) >= delay then [vs[k - 2].value] else [])
  {
    assert vs[..k][..k - 1] == vs[..k - 1];
    assert Gap(vs[..k], k - 2) == Gap(vs, k - 2);
  }

  /** One more value arriving: if it comes at least `delay` after the waiting
      value, that value is emitted first; either way the new one waits, and
      what has been emitted is the `Kept` values so far. */
  lemma ArrivalStep<T>(w: World<T, ()>, vs: seq<Arrival<T>>, delay: nat, k: nat)
    requires 2 <= k <= |vs|
    requires Tracked(w) && Out(w) == Nexts(Kept(vs[..k - 1], delay)) && w.state.delay == delay
    requires w.state.trailing == Some(vs[k - 2].value) && w.state.lastUpdated == Some(vs[k - 2].at)
    ensures var w' := Deliver(w, Timed(vs[k - 1].at, UpNext(vs[k - 1].value)));
            && Tracked(w') && Out(w') == Nexts(Kept(vs[..k], delay)) && w'.state.delay == delay
            && w'.state.trailing == Some(vs[k - 1].value) && w'.state.lastUpdated == Some(vs[k - 1].at)
  {
    var before := Kept(vs[..k - 1], delay);
    KeptSnoc(vs, delay, k);
    if Gap(vs, k - 2) >= delay {
      DeliverNextRipe(w, vs[k - 1].at, vs[k - 1].value);
      NextsAppend(before, [vs[k - 2].value]);
    } else {
      DeliverNextQuiet(w, vs[k - 1].at, vs[k - 1].value);
      assert before + [] == before;
    }
  }

  /** After the first `k` arrivals, the `Kept` values among them have been
      emitted, in order, and the `k`-th value waits. */
  lemma {:induction false} ArrivalsPrefix<T>(vs: seq<Arrival<T>>, delay: nat, k: nat)
    requires 1 <= k <= |vs|
    ensures var w := Run(Start<T, ()>(delay), Arrivals<T, ()>(vs)[..k]);
            && Tracked(w) && Out(w) == Nexts(Kept(vs[..k], delay)) && w.state.delay == delay
            && w.state.trailing == Some(vs[k - 1].value) && w.state.lastUpdated == Some(vs[k - 1].at)
    decreases k
  {
    if k == 1 {
      FirstArrival(vs, delay);
      assert Nexts<T, ()>(Kept(vs[..1], delay)) == [];
    } else {
      var es := Arrivals<T, ()>(vs);
      RunPrefix(Start<T, ()>(delay), es, k);
      ArrivalsPrefix(vs, delay, k - 1);
      ArrivalStep(Run(Start<T, ()>(delay), es[..k - 1]), vs, delay, k);
    }
  }

  /** An upstream that completes without a value: only `complete` is sent. */
  lemma NothingArrives<T>(delay: nat)
    ensures Simulate<T, ()>(delay, Completed<T, ()>([])) == [Complete]
  {
    var w := Start<T, ()>(delay);
    var es := Completed<T, ()>([]);
    assert es == [Timed(0, UpComplete)];
    assert Run(w, es) == Deliver(w, es[0]) by {
      assert es[..0] == [];
    }
    IdleAdvance(w, Until(0));
    DeliverTracked(w, es[0]);
    SettleIdle(Deliver(w, es[0]));
  }

  /** Running a completed timeline is running its arrivals, then delivering
      the completion. */
  lemma RunCompleted<T>(vs: seq<Arrival<T>>, delay: nat)
    requires |vs| > 0
    ensures Run(Start<T, ()>(delay), Completed(vs))
         == Deliver(Run(Start<T, ()>(delay), Arrivals<T, ()>(vs)[..|vs|]), Timed(vs[|vs| - 1].at, UpComplete))
  {
    var es := Completed<T, ()>(vs);
    RunPrefix(Start<T, ()>(delay), es, |es|);
    assert es[..|es|] == es;
    assert es[..|es| - 1] == Arrivals<T, ()>(vs)[..|vs|];
  }

  /** Completion at the last arrival's instant, after all the arrivals:
      the last value and `complete` follow the `Kept` values. */
  lemma CompleteAfterArrivals<T>(vs: seq<Arrival<T>>, delay: nat)
    requires |vs| > 0
    ensures Simulate<T, ()>(delay, Completed(vs))
         == Nexts(Kept(vs, delay)) + [Next(vs[|vs| - 1].value), Complete]
  {
    var n := |vs|;
    ArrivalsPrefix(vs, delay, n);
    assert vs[..n] == vs;
    RunCompleted(vs, delay);
    CompleteThenSettle(Run(Start<T, ()>(delay), Arrivals<T, ()>(vs)[..n]), vs[n - 1].at);
  }

  /** The debounce promise for any timeline: downstream receives one `next`
      per surviving value, in order, then `complete`. */
  lemma KeepsSurvivors<T>(vs: seq<Arrival<T>>, delay: nat)
    ensures Simulate<T, ()>(delay, Completed(vs)) == Nexts(Survivors(vs, delay)) + [Complete]
  {
    if |vs| == 0 {
      NothingArrives<T>(delay);
    } else {
      var kept := Kept(vs, delay);
      var last := vs[|vs| - 1].value;
      assert Survivors(vs, delay) == kept + [last];
      CompleteAfterArrivals(vs, delay);
      NextsAppend(kept, [last]);
      assert Nexts<T, ()>([last]) == [Next(last)];
      assert Nexts<T, ()>(kept) + [Next(last), Complete] == (Nexts<T, ()>(kept) + [Next(last)]) + [Complete];
    }
  }

  /** The payloads of one `next` per value are the values. */
  lemma {:induction false} PayloadsOfNexts<T>(xs: seq<T>)
    ensures SubscribePure.Payloads(Nexts<T, ()>(xs)) == xs
    decreases |xs|
  {
    if |xs| > 0 {
      assert Nexts<T, ()>(xs)[1..] == Nexts<T, ()>(xs[1..]);
      PayloadsOfNexts(xs[1..]);
    }
  }

  /** Seen through a pure callback, a debounced timeline is observed as its
      surviving values, in order. */
  lemma SurvivorsObserved<T>(vs: seq<Arrival<T>>, delay: nat)
    ensures SubscribePure.Observed(Simulate<T, ()>(delay, Completed(vs))) == Survivors(vs, delay)
  {
    var xs := Survivors(vs, delay);
    KeepsSurvivors(vs, delay);
    SubscribePure.ObservedIsPayloads(Simulate<T, ()>(delay, Completed(vs)));
    SubscribePure.PayloadsAppend(Nexts<T, ()>(xs), [Complete]);
    PayloadsOfNexts(xs);
    assert SubscribePure.Payloads<T, ()>([Complete]) == [];
    assert xs + [] == xs;
  }

  /** With every gap shorter than the delay, no value but the last is kept. */
  lemma {:induction false} KeptNone<T>(vs: seq<Arrival<T>>, delay: nat)
    requires forall i :: 0 <= i < |vs| - 1 ==> Gap(vs, i) < delay
    ensures Kept(vs, delay) == []
    decreases |vs|
  {
    if |vs| > 1 {
      var front := vs[..|vs| - 1];
      forall i | 0 <= i < |front| - 1
        ensures Gap(front, i) < delay
      {
        assert Gap(front, i) == Gap(vs, i);
      }
      KeptNone(front, delay);
      assert Gap(vs, |vs| - 2) < delay;
    }
  }

  /** With every gap at least the delay, every value but the last is kept. */
  lemma {:induction false} KeptAll<T>(vs: seq<Arrival<T>>, delay: nat)
    requires |vs| > 0
    requires forall i :: 0 <= i < |vs| - 1 ==> Gap(vs, i) >= delay
    ensures Kept(vs, delay) == Values(vs[..|vs| - 1])
    decreases |vs|
  {
    var n := |vs|;
    if n == 1 {
      assert Values(vs[..0]) == [];
    } else {
      var front := vs[..n - 1];
      forall i | 0 <= i < |front| - 1
        ensures Gap(front, i) >= delay
      {
        assert Gap(front, i) == Gap(vs, i);
      }
      KeptAll(front, delay);
      assert Gap(vs, n - 2) >= delay;
      assert front[..n - 2] == vs[..n - 2];
      assert Values(vs[..n - 2]) + [vs[n - 2].value] == Values(vs[..n - 1]);
    }
  }

  /** The values `xs`, the `k`-th arriving at instant `k * gap`. */
  function Even<T>(xs: seq<T>, gap: nat): (vs: seq<Arrival<T>>)
    ensures Values(vs) == xs
    ensures forall i :: 0 <= i < |vs| - 1 ==> Gap(vs, i) == gap
  {
    var vs := seq(|xs|, k requires 0 <= k < |xs| => Arrival(k * gap, xs[k]));
    assert forall i :: 0 <= i < |vs| - 1 ==> vs[i + 1].at == vs[i].at + gap by {
      forall i | 0 <= i < |vs| - 1
        ensures vs[i + 1].at == vs[i].at + gap
      {
        assert (i + 1) * gap == i * gap + gap;
      }
    }
    vs
  }

  /** `interval(gap).take(n)` with the values `xs`, then completion at the
      instant of the last value. */
  function Timeline<T, E>(xs: seq<T>, gap: nat): seq<Timed<T, E>> {
    Completed(Even(xs, gap))
  }

  /** Evenly spaced values closer together than the delay: only the last
      survives. */
  lemma BurstSurvivors<T>(xs: seq<T>, gap: nat, delay: nat)
    requires gap < delay && |xs| > 0
    ensures Survivors(Even(xs, gap), delay) == [xs[|xs| - 1]]
  {
    var vs := Even(xs, gap);
    KeptNone(vs, delay);
    assert vs[|vs| - 1].value == Values(vs)[|vs| - 1];
  }

  /** Evenly spaced values at least the delay apart: all survive. */
  lemma SparseSurvivors<T>(xs: seq<T>, gap: nat, delay: nat)
    requires delay <= gap
    ensures Survivors(Even(xs, gap), delay) == xs
  {
    var vs := Even(xs, gap);
    if |xs| > 0 {
      var n := |xs|;
      KeptAll(vs, delay);
      assert Values(vs[..n - 1]) == xs[..n - 1];
      assert vs[n - 1].value == Values(vs)[n - 1];
      assert xs[..n - 1] + [xs[n - 1]] == xs;
    }
  }

  /** A burst of values closer together than the delay, then completion:
      only the last value reaches downstream, followed by `complete`. */
  lemma BurstKeepsLast<T>(xs: seq<T>, gap: nat, delay: nat)
    requires gap < delay && |xs| > 0
    ensures Simulate<T, ()>(delay, Timeline(xs, gap)) == [Next(xs[|xs| - 1]), Complete]
  {
    KeepsSurvivors(Even(xs, gap), delay);
    BurstSurvivors(xs, gap, delay);
  }

  /** Values at least the delay apart, then completion: every value reaches
      downstream, in order, followed by `complete`. */
  lemma SparseKeepsAll<T>(xs: seq<T>, gap: nat, delay: nat)
    requires delay <= gap
    ensures Simulate<T, ()>(delay, Timeline(xs, gap)) == Nexts(xs) + [Complete]
  {
    KeepsSurvivors(Even(xs, gap), delay);
    SparseSurvivors(xs, gap, delay);
  }

  /** Seen through a pure callback, a burst is observed as its last value. */
  lemma BurstObserved<T>(xs: seq<T>, gap: nat, delay: nat)
    requires gap < delay && |xs| > 0
    ensures SubscribePure.Observed(Simulate<T, ()>(delay, Timeline(xs, gap))) == [xs[|xs| - 1]]
  {
    SurvivorsObserved(Even(xs, gap), delay);
    BurstSurvivors(xs, gap, delay);
  }

  /** Seen through a pure callback, values at least the delay apart are all
      observed, in order. */
  lemma SparseObserved<T>(xs: seq<T>, gap: nat, delay: nat)
    requires delay <= gap
    ensures SubscribePure.Observed(Simulate<T, ()>(delay, Timeline(xs, gap))) == xs
  {
    SurvivorsObserved(Even(xs, gap), delay);
    SparseSurvivors(xs, gap, delay);
  }

  /** The values 0, 1, .., n - 1. */
  function Indices(n: nat): (r: seq<int>)
    ensures |r| == n
    ensures forall i :: 0 <= i < n ==> r[i] == i
  {
    seq(n, i requires 0 <= i < n => i)
  }

  /** The first ten indices, written out. */
  lemma IndicesTen()
    ensures Indices(10) == [0, 1, 2, 3, 4, 5, 6, 7, 8, 9]
  {
  }

  /** `smoke_last`: ten values two units apart, debounced by three units and
      collected by a pure callback, are observed as `[9]`. */
  lemma SmokeLast()
    ensures SubscribePure.Observed(Simulate<int, ()>(3, Timeline(Indices(10), 2))) == [9]
  {
    BurstObserved(Indices(10), 2, 3);
  }

  /** `smoke_every`: ten values three units apart, debounced by two units and
      collected by a pure callback, are observed as `[0, 1, .., 9]`. */
  lemma SmokeEvery()
    ensures SubscribePure.Observed(Simulate<int, ()>(2, Timeline(Indices(10), 3))) == [0, 1, 2, 3, 4, 5, 6, 7, 8, 9]
  {
    SparseObserved(Indices(10), 3, 2);
    IndicesTen();
  }
}
