/**
 * `Retry`: the asynchronous driver, a future whose `poll` runs a state
 * machine — `Idle` creates the attempt's future, `Polling` waits for it and
 * judges its outcome, `Sleeping` waits for the backoff's delay — until the
 * operation succeeds, the predicate rejects an error or the backoff is
 * exhausted.
 *
 * The predicate and the notify callback are always present (`new` installs
 * "every error is retryable" and a no-op), so a completed future has done
 * exactly what the reference run with a predicate and with notifications
 * does. Whether a polled future is ready is an oracle passed to each `poll`.
 */
module Retry {
  import opened Wrappers
  import opened Backoff
  import opened RetryTrace

  /** The state between two polls; `Polling` names the attempt whose future is in flight. */
  datatype State = Idle | Polling(attempt: nat) | Sleeping(delay: Duration)

  /** Order in which the states follow each other within one retry: Sleeping, then Idle, then Polling. */
  function Rank(s: State): nat
  {
    match s
    case Sleeping(_) => 2
    case Idle => 1
    case Polling(_) => 0
  }

  class Retry<T, E> {
    var backoff: seq<Duration>
    const futureFn: nat -> Result<T, E>
    var retryableFn: E -> bool
    var notifyFn: (E, Duration) -> ()
    var state: State
    /** How often `future_fn` has been called: the number of the next attempt. */
    var attempts: nat
    /** What the future has done so far, and whether it has completed. */
    ghost var trace: seq<Event<E>>
    ghost var finished: bool

    ghost predicate Valid()
      reads this
    {
      state.Polling? ==> attempts == state.attempt + 1
    }

    /** What the future will still do and return, from its current state. */
    ghost function Remaining(): (Result<T, E>, seq<Event<E>>)
      reads this
    {
      match state
      case Idle => Run(futureFn, Some(retryableFn), true, backoff, attempts)
      case Polling(i) =>
        var o := Run(futureFn, Some(retryableFn), true, backoff, i);
        (o.0, o.1[1..])
      case Sleeping(d) =>
        var o := Run(futureFn, Some(retryableFn), true, backoff, attempts);
        (o.0, [Slept(d)] + o.1)
    }

    /** The in-flight future, attempt or sleep, is one the oracles say is not ready. */
    predicate Waiting(attemptReady: nat -> bool, sleepReady: nat -> bool)
      reads this
    {
      || (state.Polling? && !attemptReady(state.attempt))
      || (state.Sleeping? && !sleepReady(attempts))
    }

    /** `Retry::new`: every error retryable, notify a no-op, nothing started. */
    constructor New(futureFn: nat -> Result<T, E>, backoff: seq<Duration>)
      ensures this.futureFn == futureFn && this.backoff == backoff
      ensures forall e :: retryableFn(e)
      ensures state == Idle && attempts == 0 && trace == [] && !finished
      ensures Valid()
    {
      this.futureFn := futureFn;
      this.backoff := backoff;
      retryableFn := _ => true;
      notifyFn := (_, _) => ();
      state := Idle;
      attempts := 0;
      trace := [];
      finished := false;
    }

    /** `when`: replaces the predicate and keeps everything else, including the state. */
    method When(p: E -> bool)
      modifies this
      ensures retryableFn == p
      ensures backoff == old(backoff) && notifyFn == old(notifyFn) && state == old(state) && attempts == old(attempts)
      ensures trace == old(trace) && finished == old(finished)
    {
      retryableFn := p;
    }

    /** `notify`: replaces the callback and keeps everything else, including the state. */
    method Notify(n: (E, Duration) -> ())
      modifies this
      ensures notifyFn == n
      ensures backoff == old(backoff) && retryableFn == old(retryableFn) && state == old(state) && attempts == old(attempts)
      ensures trace == old(trace) && finished == old(finished)
    {
      notifyFn := n;
    }

    /**
     * `sleep`: installs another sleeper (not modelled) and resets the state
     * to `Idle`, dropping any future in flight.
     */
    method Sleep()
      modifies this
      ensures state == Idle
      ensures backoff == old(backoff) && retryableFn == old(retryableFn) && notifyFn == old(notifyFn) && attempts == old(attempts)
      ensures trace == old(trace) && finished == old(finished)
      ensures Valid()
    {
      state := Idle;
    }

    /** The events done since `trace0`, followed by those still to come, are the run `rem0` promised, with its outcome. */
    ghost predicate Keeps(trace0: seq<Event<E>>, rem0: (Result<T, E>, seq<Event<E>>))
      reads this
    {
      Remaining().0 == rem0.0 && trace + Remaining().1 == trace0 + rem0.1
    }

    /**
     * `Future::poll`. `attemptReady(i)` says whether attempt i's future is
     * ready when polled now, `sleepReady(n)` whether the sleep before
     * attempt n is. The future completes with the reference run's outcome
     * after all of its events; a pending poll keeps the run's outcome and
     * events, and waits on a future that is not ready.
     */
    method Poll(attemptReady: nat -> bool, sleepReady: nat -> bool) returns (r: Poll<Result<T, E>>)
      requires Valid() && !finished
      modifies this
      ensures Valid()
      ensures retryableFn == old(retryableFn) && notifyFn == old(notifyFn)
      ensures r.Ready? ==> finished && r.value == old(Remaining()).0 && trace == old(trace) + old(Remaining()).1
      ensures r.Pending? ==> !finished && Keeps(old(trace), old(Remaining()))
      ensures r.Pending? ==> Waiting(attemptReady, sleepReady)
      ensures old(Waiting(attemptReady, sleepReady)) ==> r.Pending? && state == old(state) && backoff == old(backoff) && attempts == old(attempts) && trace == old(trace)
    {
      ghost var total := Remaining();
      ghost var first := true;
      while true
        invariant Valid() && !finished
        invariant retryableFn == old(retryableFn) && notifyFn == old(notifyFn)
        invariant total == old(Remaining())
        invariant Keeps(old(trace), total)
        invariant first ==> state == old(state) && backoff == old(backoff) && attempts == old(attempts) && trace == old(trace)
        invariant !first ==> !old(Waiting(attemptReady, sleepReady))
        decreases |backoff|, Rank(state)
      {
        match state {
          case Idle =>
            Start();
          case Polling(i) =>
            if !attemptReady(i) {
              return Pending;
            }
            var done, result := PollAttempt(i);
            if done {
              return Ready(result);
            }
          case Sleeping(d) =>
            if !sleepReady(attempts) {
              return Pending;
            }
            Wake();
        }
        first := false;
      }
    }

    /** The `Idle` arm: call `future_fn` for the next attempt and poll its future. */
    method Start()
      requires state == Idle
      modifies this
      ensures state == Polling(old(attempts)) && attempts == old(attempts) + 1 && Valid()
      ensures backoff == old(backoff) && retryableFn == old(retryableFn) && notifyFn == old(notifyFn) && finished == old(finished)
      ensures Keeps(old(trace), old(Remaining()))
    {
      ghost var run := Run(futureFn, Some(retryableFn), true, backoff, attempts);
      assert run.1 == [Invoked(attempts)] + run.1[1..];
      trace := trace + [Invoked(attempts)];
      state := Polling(attempts);
      attempts := attempts + 1;
    }

    /** The `Sleeping` arm once the sleep is over: back to `Idle`. */
    method Wake()
      requires state.Sleeping?
      modifies this
      ensures state == Idle
      ensures backoff == old(backoff) && attempts == old(attempts) && retryableFn == old(retryableFn) && notifyFn == old(notifyFn) && finished == old(finished)
      ensures Keeps(old(trace), old(Remaining()))
    {
      trace := trace + [Slept(state.delay)];
      state := Idle;
    }

    /**
     * The `Polling` arm once attempt i's future is ready: on success, or on
     * an error the predicate rejects or the backoff has no delay for,
     * complete; otherwise notify the backoff's next delay and start sleeping it.
     */
    method PollAttempt(i: nat) returns (done: bool, r: Result<T, E>)
      requires state == Polling(i) && attempts == i + 1 && !finished
      modifies this
      ensures retryableFn == old(retryableFn) && notifyFn == old(notifyFn) && attempts == old(attempts)
      ensures done ==> finished && state == old(state) && r == old(Remaining()).0 && trace == old(trace) + old(Remaining()).1
      ensures !done ==> !finished && state.Sleeping? && |backoff| < old(|backoff|) && Keeps(old(trace), old(Remaining()))
    {
      ghost var t := Attempt(futureFn, Some(retryableFn), true, backoff, i);
      ghost var run := Run(futureFn, Some(retryableFn), true, backoff, i);
      match futureFn(i) {
        case Ok(v) =>
          finished := true;
          return true, Ok(v);
        case Err(err) =>
          if !retryableFn(err) {
            trace := trace + [Judged(err, false)];
            finished := true;
            return true, Err(err);
          }
          trace := trace + [Judged(err, true)];
          if backoff == [] {
            trace := trace + [Advanced(None)];
            finished := true;
            return true, Err(err);
          }
          var dur := backoff[0];
          ghost var rest := Run(futureFn, Some(retryableFn), true, backoff[1..], i + 1);
          assert run == (rest.0, t.events + rest.1);
          backoff := backoff[1..];
          trace := trace + [Advanced(Some(dur)), Notified(err, dur)];
          state := Sleeping(dur);
          assert Remaining() == (rest.0, [Slept(dur)] + rest.1);
          return false, Err(err);
      }
    }
  }
}
