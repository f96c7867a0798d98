/**
 * What a retry driver does, as one reference definition shared by the async
 * `Retry` future and the blocking `BlockingRetry`: invoke the operation;
 * on success stop; on an error consult the retryable predicate (when there
 * is one), then the backoff; on a delay notify (when notifying), sleep and
 * try again; otherwise return the error.
 *
 * The operation is an oracle `op` from the attempt number to its outcome,
 * the backoff is the sequence of delays it yields before its first `None`,
 * and what the driver does is recorded as a sequence of events.
 */
module RetryTrace {
  import opened Wrappers
  import opened Backoff
  import Exponential

  datatype Event<E> =
    | Invoked(attempt: nat)                 // the operation is called (and its future created)
    | Judged(error: E, retryable: bool)     // the retryable predicate is called on an error
    | Advanced(next: Option<Duration>)      // `backoff.next()` is called
    | Notified(error: E, delay: Duration)   // the notify callback is called
    | Slept(delay: Duration)                // the sleep of that delay completes

  /** What one turn of a driver's loop does: whether the driver is done, its outcome, its events and the delays left. */
  datatype Turn<T, E> = Turn(done: bool, outcome: Result<T, E>, events: seq<Event<E>>, rest: seq<Duration>)

  /** The events before the next attempt, when attempt `k` fails with a retryable error and the backoff yields `d`. */
  function RetryPrefix<E>(k: nat, e: E, judged: bool, notifies: bool, d: Duration): seq<Event<E>>
  {
    [Invoked(k)] + (if judged then [Judged(e, true)] else []) + [Advanced(Some(d))] + (if notifies then [Notified(e, d)] else []) + [Slept(d)]
  }

  /**
   * One turn: attempt `k`; stop on success, on an error the predicate
   * rejects, or when the backoff is exhausted; otherwise take the backoff's
   * next delay, notify and sleep it.
   */
  function Attempt<T, E>(op: nat -> Result<T, E>, retryable: Option<E -> bool>, notifies: bool, delays: seq<Duration>, k: nat): (t: Turn<T, E>)
    ensures |t.events| >= 1 && t.events[0] == Invoked(k)
    ensures !t.done ==> t.outcome.Err? && delays != [] && t.rest == delays[1..]
    ensures t.done ==> t.outcome == op(k)
  {
    match op(k)
    case Ok(v) => Turn(true, Ok(v), [Invoked(k)], delays)
    case Err(e) =>
      if retryable.Some? && !retryable.value(e) then Turn(true, Err(e), [Invoked(k), Judged(e, false)], delays)
      else if delays == [] then Turn(true, Err(e), [Invoked(k)] + (if retryable.Some? then [Judged(e, true)] else []) + [Advanced(None)], delays)
      else Turn(false, Err(e), RetryPrefix(k, e, retryable.Some?, notifies, delays[0]), delays[1..])
  }

  /**
   * The outcome and the events of a driver that is about to make attempt `k`,
   * with the backoff still to yield `delays`: turns until one is done.
   */
  function Run<T, E>(op: nat -> Result<T, E>, retryable: Option<E -> bool>, notifies: bool, delays: seq<Duration>, k: nat): (r: (Result<T, E>, seq<Event<E>>))
    ensures |r.1| >= 1 && r.1[0] == Invoked(k)
    decreases |delays|
  {
    var t := Attempt(op, retryable, notifies, delays, k);
    if t.done then (t.outcome, t.events)
    else
      var rest := Run(op, retryable, notifies, t.rest, k + 1);
      (rest.0, t.events + rest.1)
  }

  /** A retried attempt is the prefix above followed by the run from the next attempt. */
  lemma RunRetries<T, E>(op: nat -> Result<T, E>, retryable: Option<E -> bool>, notifies: bool, delays: seq<Duration>, k: nat)
    requires op(k).Err? && delays != []
    requires retryable.Some? ==> retryable.value(op(k).error)
    ensures Run(op, retryable, notifies, delays, k).0 == Run(op, retryable, notifies, delays[1..], k + 1).0
    ensures Run(op, retryable, notifies, delays, k).1
      == RetryPrefix(k, op(k).error, retryable.Some?, notifies, delays[0]) + Run(op, retryable, notifies, delays[1..], k + 1).1
  {
  }

  // ---------------------------------------------------------------------
  // Counting events

  datatype Kind = InvokedKind | JudgedKind | AdvancedKind | NotifiedKind | SleptKind

  predicate IsKind<E>(ev: Event<E>, kind: Kind)
  {
    match kind
    case InvokedKind => ev.Invoked?
    case JudgedKind => ev.Judged?
    case AdvancedKind => ev.Advanced?
    case NotifiedKind => ev.Notified?
    case SleptKind => ev.Slept?
  }

  function Count<E>(events: seq<Event<E>>, kind: Kind): (n: nat)
    ensures n <= |events|
  {
    if events == [] then 0 else (if IsKind(events[0], kind) then 1 else 0) + Count(events[1..], kind)
  }

  lemma {:induction false} CountAppend<E>(a: seq<Event<E>>, b: seq<Event<E>>, kind: Kind)
    ensures Count(a + b, kind) == Count(a, kind) + Count(b, kind)
    decreases |a|
  {
    if a != [] {
      assert (a + b)[1..] == a[1..] + b;
      CountAppend(a[1..], b, kind);
    } else {
      assert a + b == b;
    }
  }

  /** The delays slept, in order. */
  function SleptDelays<E>(events: seq<Event<E>>): (ds: seq<Duration>)
    ensures |ds| == Count(events, SleptKind)
  {
    if events == [] then []
    else (if events[0].Slept? then [events[0].delay] else []) + SleptDelays(events[1..])
  }

  lemma {:induction false} SleptDelaysAppend<E>(a: seq<Event<E>>, b: seq<Event<E>>)
    ensures SleptDelays(a + b) == SleptDelays(a) + SleptDelays(b)
    decreases |a|
  {
    if a != [] {
      assert (a + b)[1..] == a[1..] + b;
      SleptDelaysAppend(a[1..], b);
    } else {
      assert a + b == b;
    }
  }

  lemma PrefixCounts<E>(k: nat, e: E, judged: bool, notifies: bool, d: Duration)
    ensures var p := RetryPrefix(k, e, judged, notifies, d);
      && Count(p, InvokedKind) == 1 && Count(p, AdvancedKind) == 1 && Count(p, SleptKind) == 1
      && Count(p, JudgedKind) == (if judged then 1 else 0)
      && Count(p, NotifiedKind) == (if notifies then 1 else 0)
      && SleptDelays(p) == [d]
  {
    var p := RetryPrefix(k, e, judged, notifies, d);
    var j: seq<Event<E>> := if judged then [Judged(e, true)] else [];
    var n: seq<Event<E>> := if notifies then [Notified(e, d)] else [];
    assert p == [Invoked(k)] + (j + ([Advanced(Some(d))] + (n + [Slept(d)])));
    forall kind: Kind
      ensures Count(p, kind) == Count<E>([Invoked(k)], kind) + Count(j, kind) + Count<E>([Advanced(Some(d))], kind) + Count(n, kind) + Count<E>([Slept(d)], kind)
    {
      CountAppend(n, [Slept(d)], kind);
      CountAppend<E>([Advanced(Some(d))], n + [Slept(d)], kind);
      CountAppend(j, [Advanced(Some(d))] + (n + [Slept(d)]), kind);
      CountAppend<E>([Invoked(k)], j + ([Advanced(Some(d))] + (n + [Slept(d)])), kind);
    }
    SleptDelaysAppend(n, [Slept(d)]);
    SleptDelaysAppend<E>([Advanced(Some(d))], n + [Slept(d)]);
    SleptDelaysAppend(j, [Advanced(Some(d))] + (n + [Slept(d)]));
    SleptDelaysAppend<E>([Invoked(k)], j + ([Advanced(Some(d))] + (n + [Slept(d)])));
  }

  // ---------------------------------------------------------------------
  // How a run ends

  /** Attempt `k` is followed by a sleep and another attempt. */
  predicate Retries<T, E>(op: nat -> Result<T, E>, retryable: Option<E -> bool>, delays: seq<Duration>, k: nat)
  {
    op(k).Err? && (retryable.Some? ==> retryable.value(op(k).error)) && delays != []
  }

  /** A successful attempt returns its value at once: nothing but the invocation happens. */
  lemma SuccessStopsAtOnce<T, E>(op: nat -> Result<T, E>, retryable: Option<E -> bool>, notifies: bool, delays: seq<Duration>, k: nat)
    requires op(k).Ok?
    ensures Run(op, retryable, notifies, delays, k) == (op(k), [Invoked(k)])
  {
  }

  /**
   * An error the predicate rejects is returned at once: the operation ran
   * once, the predicate once, and neither the backoff nor notify is touched.
   */
  lemma NotRetryableStopsAtOnce<T, E>(op: nat -> Result<T, E>, p: E -> bool, notifies: bool, delays: seq<Duration>, k: nat)
    requires op(k).Err? && !p(op(k).error)
    ensures Run(op, Some(p), notifies, delays, k) == (op(k), [Invoked(k), Judged(op(k).error, false)])
  {
    assert [Invoked(k)] + [Judged(op(k).error, false)] == [Invoked(k), Judged(op(k).error, false)];
  }

  /** When the backoff is exhausted a retryable error is returned after one call of `next`, with no notify and no sleep. */
  lemma ExhaustedReturnsError<T, E>(op: nat -> Result<T, E>, retryable: Option<E -> bool>, notifies: bool, k: nat)
    requires op(k).Err? && (retryable.Some? ==> retryable.value(op(k).error))
    ensures Run(op, retryable, notifies, [], k)
      == (op(k), [Invoked(k)] + (if retryable.Some? then [Judged(op(k).error, true)] else []) + [Advanced(None)])
  {
  }

  /** The counts of a run whose first attempt is its last. */
  lemma StopCounts<T, E>(op: nat -> Result<T, E>, retryable: Option<E -> bool>, notifies: bool, delays: seq<Duration>, k: nat)
    requires !Retries(op, retryable, delays, k)
    ensures var (r, ev) := Run(op, retryable, notifies, delays, k);
      && r == op(k)
      && Count(ev, InvokedKind) == 1 && Count(ev, SleptKind) == 0 && Count(ev, NotifiedKind) == 0
      && Count(ev, AdvancedKind) == (if r.Ok? || (retryable.Some? && !retryable.value(r.error)) then 0 else 1)
      && Count(ev, JudgedKind) == (if retryable.Some? && r.Err? then 1 else 0)
      && SleptDelays(ev) == []
      && (forall i | 0 <= i < |ev| :: !ev[i].Notified? && !ev[i].Slept?)
  {
    var (r, ev) := Run(op, retryable, notifies, delays, k);
    var judged: seq<Event<E>> := if retryable.Some? && op(k).Err? then [Judged(op(k).error, retryable.value(op(k).error))] else [];
    var last: seq<Event<E>> := if op(k).Err? && (retryable.Some? ==> retryable.value(op(k).error)) then [Advanced(None)] else [];
    assert ev == [Invoked(k)] + (judged + last);
    forall kind: Kind
      ensures Count(ev, kind) == Count<E>([Invoked(k)], kind) + Count(judged, kind) + Count(last, kind)
    {
      CountAppend(judged, last, kind);
      CountAppend<E>([Invoked(k)], judged + last, kind);
    }
    SleptDelaysAppend(judged, last);
    SleptDelaysAppend<E>([Invoked(k)], judged + last);
  }

  /** The result is always the outcome of the last attempt made; in particular exhaustion returns the last error. */
  lemma {:induction false} ResultIsLastOutcome<T, E>(op: nat -> Result<T, E>, retryable: Option<E -> bool>, notifies: bool, delays: seq<Duration>, k: nat)
    ensures var (r, ev) := Run(op, retryable, notifies, delays, k);
      Count(ev, InvokedKind) >= 1 && r == op(k + Count(ev, InvokedKind) - 1)
    decreases |delays|
  {
    if Retries(op, retryable, delays, k) {
      var e := op(k).error;
      RunRetries(op, retryable, notifies, delays, k);
      var rest := Run(op, retryable, notifies, delays[1..], k + 1);
      ResultIsLastOutcome(op, retryable, notifies, delays[1..], k + 1);
      PrefixCounts(k, e, retryable.Some?, notifies, delays[0]);
      CountAppend(RetryPrefix(k, e, retryable.Some?, notifies, delays[0]), rest.1, InvokedKind);
    } else {
      StopCounts(op, retryable, notifies, delays, k);
    }
  }

  /**
   * How often each thing happens: one sleep per retry, so one invocation
   * more than sleeps and at most one more than the backoff's delays; the
   * backoff advances once per error the predicate accepts; notify runs once
   * per sleep when notifying; the predicate runs once per error when present.
   */
  lemma {:induction false} Counts<T, E>(op: nat -> Result<T, E>, retryable: Option<E -> bool>, notifies: bool, delays: seq<Duration>, k: nat)
    ensures var (r, ev) := Run(op, retryable, notifies, delays, k);
      var stoppedEarly := r.Ok? || (retryable.Some? && !retryable.value(r.error));
      && Count(ev, InvokedKind) == Count(ev, SleptKind) + 1
      && Count(ev, InvokedKind) <= |delays| + 1
      && Count(ev, AdvancedKind) == Count(ev, InvokedKind) - (if stoppedEarly then 1 else 0)
      && Count(ev, NotifiedKind) == (if notifies then Count(ev, SleptKind) else 0)
      && Count(ev, JudgedKind) == (if retryable.Some? then Count(ev, InvokedKind) - (if r.Ok? then 1 else 0) else 0)
    decreases |delays|
  {
    var (r, ev) := Run(op, retryable, notifies, delays, k);
    if Retries(op, retryable, delays, k) {
      var e := op(k).error;
      RunRetries(op, retryable, notifies, delays, k);
      var rest := Run(op, retryable, notifies, delays[1..], k + 1);
      Counts(op, retryable, notifies, delays[1..], k + 1);
      PrefixCounts(k, e, retryable.Some?, notifies, delays[0]);
      forall kind: Kind
        ensures Count(ev, kind) == Count(RetryPrefix(k, e, retryable.Some?, notifies, delays[0]), kind) + Count(rest.1, kind)
      {
        CountAppend(RetryPrefix(k, e, retryable.Some?, notifies, delays[0]), rest.1, kind);
      }
    } else {
      StopCounts(op, retryable, notifies, delays, k);
    }
  }

  /** The durations slept are the backoff's delays, in order, from the first. */
  lemma {:induction false} SleepsFollowBackoff<T, E>(op: nat -> Result<T, E>, retryable: Option<E -> bool>, notifies: bool, delays: seq<Duration>, k: nat)
    ensures var ev := Run(op, retryable, notifies, delays, k).1;
      |SleptDelays(ev)| <= |delays| && SleptDelays(ev) == delays[..|SleptDelays(ev)|]
    decreases |delays|
  {
    var ev := Run(op, retryable, notifies, delays, k).1;
    if Retries(op, retryable, delays, k) {
      var e := op(k).error;
      RunRetries(op, retryable, notifies, delays, k);
      var rest := Run(op, retryable, notifies, delays[1..], k + 1);
      SleepsFollowBackoff(op, retryable, notifies, delays[1..], k + 1);
      PrefixCounts(k, e, retryable.Some?, notifies, delays[0]);
      SleptDelaysAppend(RetryPrefix(k, e, retryable.Some?, notifies, delays[0]), rest.1);
      assert SleptDelays(ev) == [delays[0]] + SleptDelays(rest.1);
      assert delays == [delays[0]] + delays[1..];
    } else {
      StopCounts(op, retryable, notifies, delays, k);
    }
  }

  // ---------------------------------------------------------------------
  // Order of events

  /** Every `Notified(e, d)` is immediately followed by `Slept(d)`. */
  predicate NotifyThenSleep<E>(ev: seq<Event<E>>)
  {
    forall i {:trigger ev[i]} | 0 <= i < |ev| && ev[i].Notified? :: i + 1 < |ev| && ev[i + 1] == Slept(ev[i].delay)
  }

  /** Every `Slept(d)` comes right after `Advanced(Some(d))`, or right after a `Notified(_, d)` that itself follows `Advanced(Some(d))`. */
  predicate SleepAfterAdvance<E>(ev: seq<Event<E>>)
  {
    forall i {:trigger ev[i]} | 0 <= i < |ev| && ev[i].Slept? ::
      || (i >= 1 && ev[i - 1] == Advanced(Some(ev[i].delay)))
      || (i >= 2 && ev[i - 1].Notified? && ev[i - 1].delay == ev[i].delay && ev[i - 2] == Advanced(Some(ev[i].delay)))
  }

  lemma PrefixOrdered<E>(k: nat, e: E, judged: bool, notifies: bool, d: Duration)
    ensures NotifyThenSleep(RetryPrefix(k, e, judged, notifies, d))
    ensures SleepAfterAdvance(RetryPrefix(k, e, judged, notifies, d))
  {
    var p := RetryPrefix(k, e, judged, notifies, d);
    if judged && notifies {
      assert p == [Invoked(k), Judged(e, true), Advanced(Some(d)), Notified(e, d), Slept(d)];
    } else if judged {
      assert p == [Invoked(k), Judged(e, true), Advanced(Some(d)), Slept(d)];
    } else if notifies {
      assert p == [Invoked(k), Advanced(Some(d)), Notified(e, d), Slept(d)];
    } else {
      assert p == [Invoked(k), Advanced(Some(d)), Slept(d)];
    }
  }

  lemma OrderedAppend<E>(a: seq<Event<E>>, b: seq<Event<E>>)
    requires NotifyThenSleep(a) && SleepAfterAdvance(a)
    requires NotifyThenSleep(b) && SleepAfterAdvance(b)
    requires |b| > 0 && b[0].Invoked?
    ensures NotifyThenSleep(a + b) && SleepAfterAdvance(a + b)
  {
    var ab := a + b;
    forall i | 0 <= i < |ab| && ab[i].Notified?
      ensures i + 1 < |ab| && ab[i + 1] == Slept(ab[i].delay)
    {
      if i >= |a| {
        assert ab[i] == b[i - |a|] && ab[i + 1] == b[i + 1 - |a|];
      }
    }
    forall i | 0 <= i < |ab| && ab[i].Slept?
      ensures || (i >= 1 && ab[i - 1] == Advanced(Some(ab[i].delay)))
              || (i >= 2 && ab[i - 1].Notified? && ab[i - 1].delay == ab[i].delay && ab[i - 2] == Advanced(Some(ab[i].delay)))
    {
      if i >= |a| {
        var j := i - |a|;
        assert ab[i] == b[j];
        assert b[j].Slept?;
        assert || (j >= 1 && b[j - 1] == Advanced(Some(b[j].delay)))
               || (j >= 2 && b[j - 1].Notified? && b[j - 1].delay == b[j].delay && b[j - 2] == Advanced(Some(b[j].delay)));
        assert j >= 1;
        assert ab[i - 1] == b[j - 1];
        if j >= 2 {
          assert ab[i - 2] == b[j - 2];
        }
      } else {
        assert ab[i] == a[i] && a[i].Slept?;
        assert || (i >= 1 && a[i - 1] == Advanced(Some(a[i].delay)))
               || (i >= 2 && a[i - 1].Notified? && a[i - 1].delay == a[i].delay && a[i - 2] == Advanced(Some(a[i].delay)));
        if i >= 1 {
          assert ab[i - 1] == a[i - 1];
        }
        if i >= 2 {
          assert ab[i - 2] == a[i - 2];
        }
      }
    }
  }

  /**
   * Notify comes strictly before the sleep it announces, with the very
   * delay the backoff yielded, and every sleep is one the backoff asked for.
   */
  lemma {:induction false} NotifyPrecedesSleep<T, E>(op: nat -> Result<T, E>, retryable: Option<E -> bool>, notifies: bool, delays: seq<Duration>, k: nat)
    ensures NotifyThenSleep(Run(op, retryable, notifies, delays, k).1)
    ensures SleepAfterAdvance(Run(op, retryable, notifies, delays, k).1)
    decreases |delays|
  {
    if Retries(op, retryable, delays, k) {
      RunRetries(op, retryable, notifies, delays, k);
      NotifyPrecedesSleep(op, retryable, notifies, delays[1..], k + 1);
      PrefixOrdered(k, op(k).error, retryable.Some?, notifies, delays[0]);
      OrderedAppend(RetryPrefix(k, op(k).error, retryable.Some?, notifies, delays[0]), Run(op, retryable, notifies, delays[1..], k + 1).1);
    } else {
      StopCounts(op, retryable, notifies, delays, k);
    }
  }

  /**
   * An operation that always fails with errors the predicate accepts (or
   * with no predicate) is invoked once per delay plus once, sleeps every
   * delay in order, and returns the error of its last attempt.
   */
  lemma AlwaysFailing<T, E>(op: nat -> Result<T, E>, retryable: Option<E -> bool>, notifies: bool, delays: seq<Duration>, k: nat)
    requires forall i | k <= i <= k + |delays| :: op(i).Err? && (retryable.Some? ==> retryable.value(op(i).error))
    ensures var (r, ev) := Run(op, retryable, notifies, delays, k);
      && r == op(k + |delays|)
      && Count(ev, InvokedKind) == |delays| + 1
      && Count(ev, SleptKind) == |delays|
      && SleptDelays(ev) == delays
      && Count(ev, AdvancedKind) == |delays| + 1
      && Count(ev, NotifiedKind) == (if notifies then |delays| else 0)
      && Count(ev, JudgedKind) == (if retryable.Some? then |delays| + 1 else 0)
  {
    AlwaysFailingAttempts(op, retryable, notifies, delays, k);
    ResultIsLastOutcome(op, retryable, notifies, delays, k);
    Counts(op, retryable, notifies, delays, k);
    SleepsFollowBackoff(op, retryable, notifies, delays, k);
  }

  lemma {:induction false} AlwaysFailingAttempts<T, E>(op: nat -> Result<T, E>, retryable: Option<E -> bool>, notifies: bool, delays: seq<Duration>, k: nat)
    requires forall i | k <= i <= k + |delays| :: op(i).Err? && (retryable.Some? ==> retryable.value(op(i).error))
    ensures Count(Run(op, retryable, notifies, delays, k).1, InvokedKind) == |delays| + 1
    decreases |delays|
  {
    if delays == [] {
      StopCounts(op, retryable, notifies, delays, k);
    } else {
      var e := op(k).error;
      RunRetries(op, retryable, notifies, delays, k);
      AlwaysFailingAttempts(op, retryable, notifies, delays[1..], k + 1);
      PrefixCounts(k, e, retryable.Some?, notifies, delays[0]);
      CountAppend(RetryPrefix(k, e, retryable.Some?, notifies, delays[0]), Run(op, retryable, notifies, delays[1..], k + 1).1, InvokedKind);
    }
  }

  /**
   * A driver over the default exponential backoff with a 1ms minimum delay
   * and an operation that keeps failing retryably: four attempts, sleeps of
   * 1ms, 2ms and 4ms, three notifications when notifying, four predicate
   * calls when judging, and the fourth error as the result.
   */
  lemma DefaultExponentialFourAttempts<T, E>(op: nat -> Result<T, E>, retryable: Option<E -> bool>, notifies: bool, u: seq<Draw>)
    requires |u| == 4
    requires forall i | 0 <= i <= 3 :: op(i).Err? && (retryable.Some? ==> retryable.value(op(i).error))
    ensures var outs := Exponential.Run(Exponential.ConfigOf(Exponential.WithMinDelay(Exponential.New(), Millis(1))), Exponential.Initial, u).0;
      var (r, ev) := Run(op, retryable, notifies, TakeDelays(outs), 0);
      && r == op(3)
      && Count(ev, InvokedKind) == 4
      && SleptDelays(ev) == [Millis(1), Millis(2), Millis(4)]
      && Count(ev, NotifiedKind) == (if notifies then 3 else 0)
      && Count(ev, JudgedKind) == (if retryable.Some? then 4 else 0)
  {
    var outs := Exponential.Run(Exponential.ConfigOf(Exponential.WithMinDelay(Exponential.New(), Millis(1))), Exponential.Initial, u).0;
    Exponential.MinDelaySequence(Millis(1), u);
    var delays := TakeDelays(outs);
    assert outs[3] == None && outs[0].Some? && outs[1].Some? && outs[2].Some?;
    assert |delays| == 3;
    assert delays == [Millis(1), Millis(2), Millis(4)] by {
      assert outs[0] == Some(delays[0]) && outs[1] == Some(delays[1]) && outs[2] == Some(delays[2]);
    }
    AlwaysFailing(op, retryable, notifies, delays, 0);
  }
}
