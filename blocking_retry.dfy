/**
 * `BlockingRetry`: the synchronous driver. It owns the operation, the
 * backoff and, once `when` / `notify` have been called, the retryable
 * predicate and the notify callback; `call` loops until the operation
 * succeeds, the predicate rejects an error or the backoff is exhausted.
 *
 * The four `call` implementations of the source (with or without a
 * predicate, with or without notify) are one method here, choosing by
 * whether `retryable` and `notify` are set. The operation is the oracle `f`
 * from the attempt number to its outcome; the backoff is the sequence of
 * delays it yields before its first `None`.
 */
module BlockingRetry {
  import opened Wrappers
  import opened Backoff
  import opened RetryTrace

  class BlockingRetry<T, E> {
    var backoff: seq<Duration>
    const f: nat -> Result<T, E>
    /** How often `f` has been called: the number of the next attempt. */
    var calls: nat
    var retryable: Option<E -> bool>
    var notify: Option<(E, Duration) -> ()>
    /** What the driver has done so far. */
    ghost var trace: seq<Event<E>>

    /** What `call` will return and do from here. */
    ghost function Outcome(): (Result<T, E>, seq<Event<E>>)
      reads this
    {
      Run(f, retryable, notify.Some?, backoff, calls)
    }

    /** `BlockingRetry::new`: no predicate and no notify yet. */
    constructor New(f: nat -> Result<T, E>, backoff: seq<Duration>)
      ensures this.f == f && this.backoff == backoff && calls == 0
      ensures retryable == None && notify == None && trace == []
    {
      this.f := f;
      this.backoff := backoff;
      calls := 0;
      retryable := None;
      notify := None;
      trace := [];
    }

    /** `when`: only offered while no predicate is set. */
    method When(p: E -> bool)
      requires retryable.None?
      modifies this
      ensures retryable == Some(p)
      ensures backoff == old(backoff) && calls == old(calls) && notify == old(notify) && trace == old(trace)
    {
      retryable := Some(p);
    }

    /** `notify`: only offered while no notify callback is set. */
    method Notify(n: (E, Duration) -> ())
      requires notify.None?
      modifies this
      ensures notify == Some(n)
      ensures backoff == old(backoff) && calls == old(calls) && retryable == old(retryable) && trace == old(trace)
    {
      notify := Some(n);
    }

    /** `call`: the result and the events are those of the reference run from the current state. */
    method Call() returns (r: Result<T, E>)
      modifies this
      ensures r == old(Outcome()).0
      ensures trace == old(trace) + old(Outcome()).1
    {
      ghost var total := Outcome();
      while true
        invariant Outcome().0 == total.0
        invariant old(trace) + total.1 == trace + Outcome().1
        decreases |backoff|
      {
        var done;
        done, r := TakeTurn();
        if done {
          return;
        }
      }
    }

    /**
     * One turn of `call`'s loop: call `f`; return on success, on an error the
     * predicate rejects, or when the backoff is exhausted; otherwise notify
     * and sleep the backoff's next delay.
     */
    method TakeTurn() returns (done: bool, r: Result<T, E>)
      modifies this
      ensures var t := Attempt(f, old(retryable), old(notify).Some?, old(backoff), old(calls));
        && done == t.done && r == t.outcome && trace == old(trace) + t.events && backoff == t.rest
      ensures calls == old(calls) + 1 && retryable == old(retryable) && notify == old(notify)
    {
      var result := f(calls);
      trace := trace + [Invoked(calls)];
      calls := calls + 1;
      match result {
        case Ok(v) =>
          return true, Ok(v);
        case Err(err) =>
          if retryable.Some? {
            var ok := retryable.value(err);
            trace := trace + [Judged(err, ok)];
            if !ok {
              return true, Err(err);
            }
          }
          if backoff == [] {
            trace := trace + [Advanced(None)];
            return true, Err(err);
          }
          var dur := backoff[0];
          backoff := backoff[1..];
          trace := trace + [Advanced(Some(dur))];
          if notify.Some? {
            trace := trace + [Notified(err, dur)];
          }
          trace := trace + [Slept(dur)];
          return false, Err(err);
      }
    }
  }
}
