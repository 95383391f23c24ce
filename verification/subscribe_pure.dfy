/**
The pure-callback observer adapter `SubscribePure(N)`: an observer whose error
type is fixed to `()`, which hands every `next` value to a user callback and
silently drops `error` and `complete`.

The callback is arbitrary user code; what is observable of it is the sequence
of values it has been called with, so the adapter is represented by that call
log. A trace fed to the adapter is a `seq<Signal<T, ()>>`: the unit error type
means no custom error payload can ever reach it.
*/
module SubscribePure {
  import opened Signals

  /** The adapter together with the log of its callback's invocations. */
  datatype PureObserver<T> = PureObserver(calls: seq<T>)

  /** `next(value)`: the callback is invoked exactly once, with `value`. */
  function OnNext<T>(o: PureObserver<T>, value: T): (r: PureObserver<T>)
    ensures |r.calls| == |o.calls| + 1
    ensures r.calls[..|o.calls|] == o.calls
    ensures r.calls[|o.calls|] == value
  {
    PureObserver(o.calls + [value])
  }

  /** `error(())`: nothing is invoked and nothing changes. */
  function OnError<T>(o: PureObserver<T>, err: ()): (r: PureObserver<T>)
    ensures r.calls == o.calls
  {
    o
  }

  /** `complete()`: nothing is invoked and nothing changes. */
  function OnComplete<T>(o: PureObserver<T>): (r: PureObserver<T>)
    ensures r.calls == o.calls
  {
    o
  }

  /** Dispatches one notification to the adapter. */
  function Receive<T>(o: PureObserver<T>, s: Signal<T, ()>): (r: PureObserver<T>)
    ensures s.Next? ==> r.calls == o.calls + [s.value]
    ensures s.IsTerminal() ==> r == o
  {
    match s
    case Next(v) => OnNext(o, v)
    case Error(e) => OnError(o, e)
    case Complete => OnComplete(o)
  }

  /** Feeds a whole trace to the adapter, one notification after the other. */
  function Feed<T>(o: PureObserver<T>, trace: seq<Signal<T, ()>>): PureObserver<T>
    decreases |trace|
  {
    if |trace| == 0 then o else Feed(Receive(o, trace[0]), trace[1..])
  }

  /** The values a fresh adapter's callback sees over a trace: what the
      tests push into their result vector. */
  function Observed<T>(trace: seq<Signal<T, ()>>): seq<T> {
    Feed(PureObserver([]), trace).calls
  }

  /** Reference definition: the `next` payloads of a trace, in order. */
  function Payloads<T, E>(trace: seq<Signal<T, E>>): seq<T>
    decreases |trace|
  {
    if |trace| == 0 then []
    else (if trace[0].Next? then [trace[0].value] else []) + Payloads(trace[1..])
  }

  /** `to_shared` hands back the adapter itself, so the promoted adapter
      reacts to every trace exactly as the original does. */
  function ToShared<T(!new)>(o: PureObserver<T>): (r: PureObserver<T>)
    ensures forall trace :: Feed(r, trace) == Feed(o, trace)
  {
    o
  }

  /** Promoting twice is promoting once. */
  lemma ToSharedIdempotent<T(!new)>(o: PureObserver<T>)
    ensures ToShared(ToShared(o)) == ToShared(o)
    ensures forall trace :: Feed(ToShared(ToShared(o)), trace) == Feed(o, trace)
  {
  }

  /** The payloads of a concatenation are the concatenated payloads. */
  lemma {:induction false} PayloadsAppend<T, E>(a: seq<Signal<T, E>>, b: seq<Signal<T, E>>)
    ensures Payloads(a + b) == Payloads(a) + Payloads(b)
    decreases |a|
  {
    if |a| == 0 {
      assert a + b == b;
    } else {
      var head: seq<T> := if a[0].Next? then [a[0].value] else [];
      assert (a + b)[0] == a[0];
      assert (a + b)[1..] == a[1..] + b;
      assert Payloads(a + b) == head + Payloads(a[1..] + b);
      PayloadsAppend(a[1..], b);
      assert Payloads(a) == head + Payloads(a[1..]);
    }
  }

  /** Feeding a trace calls the callback with exactly its `next` payloads, in
      order, after whatever it had seen before. */
  lemma {:induction false} FeedCollectsPayloads<T>(o: PureObserver<T>, trace: seq<Signal<T, ()>>)
    ensures Feed(o, trace).calls == o.calls + Payloads(trace)
    decreases |trace|
  {
    if |trace| == 0 {
      assert o.calls + [] == o.calls;
    } else {
      var head: seq<T> := if trace[0].Next? then [trace[0].value] else [];
      var o' := Receive(o, trace[0]);
      assert o'.calls == o.calls + head;
      FeedCollectsPayloads(o', trace[1..]);
      assert Feed(o, trace) == Feed(o', trace[1..]);
      assert Payloads(trace) == head + Payloads(trace[1..]);
      assert (o.calls + head) + Payloads(trace[1..]) == o.calls + (head + Payloads(trace[1..]));
    }
  }

  /** The observed values are exactly the `next` payloads of the trace. */
  lemma ObservedIsPayloads<T>(trace: seq<Signal<T, ()>>)
    ensures Observed(trace) == Payloads(trace)
  {
    FeedCollectsPayloads(PureObserver([]), trace);
  }

  /** The positions, from `from` on, of the `next` notifications of a trace,
      ascending. */
  function NextPositions<T, E>(trace: seq<Signal<T, E>>, from: nat): (ps: seq<nat>)
    requires from <= |trace|
    ensures forall k :: 0 <= k < |ps| ==> from <= ps[k] < |trace| && trace[ps[k]].Next?
    ensures forall k, l :: 0 <= k < l < |ps| ==> ps[k] < ps[l]
    ensures forall i :: from <= i < |trace| && trace[i].Next? ==> i in ps
    decreases |trace| - from
  {
    if from == |trace| then []
    else (if trace[from].Next? then [from] else []) + NextPositions(trace, from + 1)
  }

  /** The payloads are read off the trace at the `next` positions: the
      callback sees exactly the subsequence of `next` values, in order. */
  lemma {:induction false} PayloadsAtNextPositions<T, E>(trace: seq<Signal<T, E>>, from: nat)
    requires from <= |trace|
    ensures |Payloads(trace[from..])| == |NextPositions(trace, from)|
    ensures forall k :: 0 <= k < |Payloads(trace[from..])| ==>
              Payloads(trace[from..])[k] == trace[NextPositions(trace, from)[k]].value
    decreases |trace| - from
  {
    if from < |trace| {
      assert trace[from..][0] == trace[from];
      assert trace[from..][1..] == trace[from + 1..];
      PayloadsAtNextPositions(trace, from + 1);
    }
  }
}
