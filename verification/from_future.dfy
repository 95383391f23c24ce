/**
The future-to-observable bridge. Both `from_future!` and `from_future_with_err!`
map the wrapped future through a closure that, once the future has resolved,
decides what the subscriber receives. The executor that polls the future is not
modelled; the closure is a total function of the subscriber (whose closed flag
is read at resolution time) and the resolved value.
*/
module FromFuture {
  import opened Signals
  import SubscribePure

  /** A subscriber: the observer it routes notifications to, and whether its
      subscription has been closed. */
  datatype Subscriber<T, E> = Subscriber(observer: Observer<T, E>, closed: bool)

  /** What the subscriber's observer received beyond what it had before. */
  function Delivered<T, E>(before: Subscriber<T, E>, after: Subscriber<T, E>): seq<Signal<T, E>>
    requires |before.observer.received| <= |after.observer.received|
  {
    after.observer.received[|before.observer.received|..]
  }

  /** `from_future!`: an open subscriber receives the value, whatever it is,
      followed by `complete`; a closed one receives nothing. */
  function Resolve<V, E>(sub: Subscriber<V, E>, v: V): (r: Subscriber<V, E>)
    ensures r.closed == sub.closed && r.observer.stopped == sub.observer.stopped
    ensures sub.closed ==> r.observer.received == sub.observer.received
    ensures !sub.closed ==> r.observer.received == sub.observer.received + [Next(v), Complete]
  {
    if sub.closed then sub
    else sub.(observer := sub.observer.Notify(Next(v)).Notify(Complete))
  }

  /** `from_future_with_err!`: an open subscriber receives `next` and
      `complete` for `Ok`, and only `error` for `Err`; a closed one receives
      nothing. */
  function ResolveResult<V, E>(sub: Subscriber<V, E>, v: Result<V, E>): (r: Subscriber<V, E>)
    ensures r.closed == sub.closed && r.observer.stopped == sub.observer.stopped
    ensures sub.closed ==> r.observer.received == sub.observer.received
    ensures !sub.closed && v.Ok? ==> r.observer.received == sub.observer.received + [Next(v.value), Complete]
    ensures !sub.closed && v.Err? ==> r.observer.received == sub.observer.received + [Error(v.error)]
  {
    if sub.closed then sub
    else
      match v
      case Ok(item) => sub.(observer := sub.observer.Notify(Next(item)).Notify(Complete))
      case Err(err) => sub.(observer := sub.observer.Notify(Error(err)))
  }

  /** `from_future!` never signals `error`, even when the resolved value is
      itself an `Err`: it is delivered as an ordinary value. */
  lemma PlainNeverErrors<A, B, E>(sub: Subscriber<Result<A, B>, E>, v: Result<A, B>)
    ensures var d := Delivered(sub, Resolve(sub, v));
            && (forall i :: 0 <= i < |d| ==> !d[i].Error?)
            && (!sub.closed ==> d[0] == Next(v))
  {
  }

  /** `from_future!` keeps the observer protocol: at most one `next`, at
      most one terminal notification and it comes last; an open subscriber
      gets exactly one terminal notification. */
  lemma ResolveConforms<V, E>(sub: Subscriber<V, E>, v: V)
    ensures var d := Delivered(sub, Resolve(sub, v));
            && Conforms(d) && CountNext(d) <= 1
            && CountTerminal(d) == if sub.closed then 0 else 1
  {
    var d := Delivered(sub, Resolve(sub, v));
    if !sub.closed {
      assert d == [Next(v), Complete];
    }
  }

  /** The same for `from_future_with_err!`, which delivers a `next` exactly
      when the subscriber is open and the result is `Ok`. */
  lemma ResolveResultConforms<V, E>(sub: Subscriber<V, E>, v: Result<V, E>)
    ensures var d := Delivered(sub, ResolveResult(sub, v));
            && Conforms(d) && CountNext(d) <= 1
            && CountTerminal(d) == (if sub.closed then 0 else 1)
            && (CountNext(d) == 1 <==> !sub.closed && v.Ok?)
  {
    var d := Delivered(sub, ResolveResult(sub, v));
    if !sub.closed {
      if v.Ok? {
        assert d == [Next(v.value), Complete];
      } else {
        assert d == [Error(v.error)];
      }
    }
  }

  /** On success the two variants are indistinguishable. */
  lemma VariantsAgreeOnSuccess<V, E>(sub: Subscriber<V, E>, item: V)
    ensures ResolveResult(sub, Ok(item)) == Resolve(sub, item)
  {
  }

  /** The `smoke` test: `future::ok(1)` through `from_future_with_err!` and
      `future::ready(2)` through `from_future!`, each subscribed with a pure
      callback, are observed as exactly one value. */
  lemma SmokeObserved(sub: Subscriber<int, ()>)
    requires !sub.closed && sub.observer.received == []
    ensures SubscribePure.Observed(ResolveResult(sub, Ok(1)).observer.received) == [1]
    ensures SubscribePure.Observed(Resolve(sub, 2).observer.received) == [2]
  {
    var one: seq<Signal<int, ()>> := [Next(1), Complete];
    var two: seq<Signal<int, ()>> := [Next(2), Complete];
    assert ResolveResult(sub, Ok(1)).observer.received == one;
    assert Resolve(sub, 2).observer.received == two;
    SubscribePure.ObservedIsPayloads(one);
    SubscribePure.ObservedIsPayloads(two);
    assert one[1..][1..] == [] && two[1..][1..] == [];
  }
}
