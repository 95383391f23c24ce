/**
The values exchanged by the observer protocol: optional values, success/failure
results, and the three notifications (`next`, `error`, `complete`) an observer
receives. A trace is the sequence of notifications delivered to one observer.
*/
module Signals {

  /** Rust's `Option`. */
  datatype Option<+T> = None | Some(value: T)

  /** Rust's `Result`, as produced by a fallible future. */
  datatype Result<+T, +E> = Ok(value: T) | Err(error: E)

  /** One notification delivered to an observer. */
  datatype Signal<+T, +E> = Next(value: T) | Error(error: E) | Complete {

    /** `error` and `complete` end a subscription; `next` does not. */
    predicate IsTerminal() {
      !Next?
    }
  }

  /** A downstream observer as its upstream sees it: the notifications it has
      received so far, in order, and its own `is_stopped` answer. */
  datatype Observer<T, E> = Observer(received: seq<Signal<T, E>>, stopped: bool) {

    /** The observer after one more notification. */
    function Notify(s: Signal<T, E>): Observer<T, E> {
      this.(received := received + [s])
    }
  }

  /** Number of `next` notifications in a trace. */
  function CountNext<T, E>(trace: seq<Signal<T, E>>): (n: nat)
    ensures n <= |trace|
    ensures n == 0 <==> forall i :: 0 <= i < |trace| ==> !trace[i].Next?
  {
    if |trace| == 0 then 0
    else (if trace[0].Next? then 1 else 0) + CountNext(trace[1..])
  }

  /** Number of terminal notifications in a trace. */
  function CountTerminal<T, E>(trace: seq<Signal<T, E>>): (n: nat)
    ensures n + CountNext(trace) == |trace|
  {
    if |trace| == 0 then 0
    else (if trace[0].IsTerminal() then 1 else 0) + CountTerminal(trace[1..])
  }

  /** The protocol a well-behaved producer keeps: a terminal notification, if
      any, is the last thing the observer receives. */
  predicate Conforms<T, E>(trace: seq<Signal<T, E>>) {
    forall i :: 0 <= i < |trace| - 1 ==> !trace[i].IsTerminal()
  }
}
