/**
 * The exponential backoff of the current crate: `ExponentialBuilder`, a
 * `Copy` value configured by `with_*` calls, and the `ExponentialBackoff`
 * iterator it builds, whose `next` grows the recorded delay by `factor`,
 * caps or saturates it, adds jitter and charges an optional total budget.
 */
module Exponential {
  import opened Wrappers
  import opened Backoff

  datatype ExponentialBuilder = ExponentialBuilder(
    jitter: bool,
    factor: Factor,
    minDelay: Duration,
    maxDelay: Option<Duration>,
    maxTimes: Option<Usize>,
    totalDelay: Option<Duration>,
    seed: Option<U64>)

  /** The settings a built backoff copies from its builder: all of them but the seed. */
  datatype ExponentialConfig = ExponentialConfig(
    jitter: bool,
    factor: Factor,
    minDelay: Duration,
    maxDelay: Option<Duration>,
    maxTimes: Option<Usize>,
    totalDelay: Option<Duration>)

  /** `ExponentialBuilder::new` (and `Default`): factor 2, 1s up to 60s, three times, no jitter, no budget. */
  function New(): ExponentialBuilder
  {
    ExponentialBuilder(false, Ratio(2, 1), Secs(1), Some(Secs(60)), Some(3), None, None)
  }

  function WithJitter(b: ExponentialBuilder): (r: ExponentialBuilder)
    ensures r.jitter && r.(jitter := b.jitter) == b
  {
    b.(jitter := true)
  }

  function WithJitterSeed(b: ExponentialBuilder, seed: U64): (r: ExponentialBuilder)
    ensures r.seed == Some(seed) && r.(seed := b.seed) == b
  {
    b.(seed := Some(seed))
  }

  function WithFactor(b: ExponentialBuilder, factor: Factor): (r: ExponentialBuilder)
    ensures r.factor == factor && r.(factor := b.factor) == b
  {
    b.(factor := factor)
  }

  function WithMinDelay(b: ExponentialBuilder, minDelay: Duration): (r: ExponentialBuilder)
    ensures r.minDelay == minDelay && r.(minDelay := b.minDelay) == b
  {
    b.(minDelay := minDelay)
  }

  function WithMaxDelay(b: ExponentialBuilder, maxDelay: Duration): (r: ExponentialBuilder)
    ensures r.maxDelay == Some(maxDelay) && r.(maxDelay := b.maxDelay) == b
  {
    b.(maxDelay := Some(maxDelay))
  }

  function WithoutMaxDelay(b: ExponentialBuilder): (r: ExponentialBuilder)
    ensures r.maxDelay == None && r.(maxDelay := b.maxDelay) == b
  {
    b.(maxDelay := None)
  }

  function WithMaxTimes(b: ExponentialBuilder, maxTimes: Usize): (r: ExponentialBuilder)
    ensures r.maxTimes == Some(maxTimes) && r.(maxTimes := b.maxTimes) == b
  {
    b.(maxTimes := Some(maxTimes))
  }

  function WithoutMaxTimes(b: ExponentialBuilder): (r: ExponentialBuilder)
    ensures r.maxTimes == None && r.(maxTimes := b.maxTimes) == b
  {
    b.(maxTimes := None)
  }

  function WithTotalDelay(b: ExponentialBuilder, totalDelay: Option<Duration>): (r: ExponentialBuilder)
    ensures r.totalDelay == totalDelay && r.(totalDelay := b.totalDelay) == b
  {
    b.(totalDelay := totalDelay)
  }

  /** The settings `build` copies into the backoff. */
  function ConfigOf(b: ExponentialBuilder): ExponentialConfig
  {
    ExponentialConfig(b.jitter, b.factor, b.minDelay, b.maxDelay, b.maxTimes, b.totalDelay)
  }

  /** The fields of `ExponentialBackoff` that `next` changes (the random generator is an input). */
  datatype ExponentialState = ExponentialState(
    currentDelay: Option<Duration>,
    cumulativeDelay: Duration,
    attempts: Usize)

  /** The state `build` starts from. */
  const Initial := ExponentialState(None, 0, 0)

  /**
   * The recorded delay of a call after the first: below the maximum delay it
   * is multiplied by the factor, then anything above the maximum is cut down
   * to it; without a maximum it is multiplied and saturates at Duration::MAX.
   */
  function Grow(c: ExponentialConfig, cur: Duration): Duration
  {
    match c.maxDelay
    case Some(m) =>
      var grown := if cur < m then SatMul(cur, c.factor) else cur;
      if grown > m then m else grown
    case None => SatMul(cur, c.factor)
  }

  /** The delay `next` records and yields before jitter. */
  function Unjittered(c: ExponentialConfig, s: ExponentialState): Duration
  {
    match s.currentDelay
    case None => c.minDelay
    case Some(cur) => Grow(c, cur)
  }

  /** The value yielded: the un-jittered delay plus, with jitter, up to that much again (saturating). */
  function Jittered(c: ExponentialConfig, d: Duration, u: Draw): Duration
  {
    if c.jitter then SatAdd(d, Jitter(d, u)) else d
  }

  /**
   * The total-delay check as written: `cumulative_delay + tmp_cur` uses
   * `Duration`'s `+`, which panics on overflow (`None` here) instead of
   * reporting that the budget is exceeded.
   */
  function BudgetCheckAsWritten(totalDelay: Option<Duration>, cumulative: Duration, v: Duration): Option<bool>
  {
    match totalDelay
    case None => Some(true)
    case Some(t) => if cumulative + v > MAX then None else Some(cumulative + v <= t)
  }

  /** The total-delay check as documented: the value fits the budget when the exact sum stays within it. */
  function WithinBudget(totalDelay: Option<Duration>, cumulative: Duration, v: Duration): bool
  {
    match totalDelay
    case None => true
    case Some(t) => cumulative + v <= t
  }

  /**
   * `ExponentialBackoff::next` on the backoff's state, for the random draw `u`:
   * the value yielded and the state afterwards.
   */
  function Step(c: ExponentialConfig, s: ExponentialState, u: Draw): (Option<Duration>, ExponentialState)
  {
    if s.attempts >= AttemptLimit(c.maxTimes) then (None, s)
    else
      var attempts: Usize := s.attempts + 1;
      var d := Unjittered(c, s);
      var v := Jittered(c, d, u);
      if !WithinBudget(c.totalDelay, s.cumulativeDelay, v) then (None, s.(attempts := attempts))
      else
        var cumulative := if c.totalDelay.Some? then SatAdd(s.cumulativeDelay, v) else s.cumulativeDelay;
        (Some(v), ExponentialState(Some(d), cumulative, attempts))
  }

  /** Successive calls of `next`, one per draw: the values yielded and the final state. */
  function Run(c: ExponentialConfig, s: ExponentialState, draws: seq<Draw>): (r: (seq<Option<Duration>>, ExponentialState))
    ensures |r.0| == |draws|
    decreases |draws|
  {
    if draws == [] then ([], s)
    else
      var (o, s1) := Step(c, s, draws[0]);
      var (rest, last) := Run(c, s1, draws[1..]);
      ([o] + rest, last)
  }

  /** The first call of a run is one `Step`, the rest is the run from the state it leaves. */
  lemma RunUnfold(c: ExponentialConfig, s: ExponentialState, draws: seq<Draw>)
    requires draws != []
    ensures Run(c, s, draws).0 == [Step(c, s, draws[0]).0] + Run(c, Step(c, s, draws[0]).1, draws[1..]).0
    ensures Run(c, s, draws).1 == Run(c, Step(c, s, draws[0]).1, draws[1..]).1
  {
  }

  // ---------------------------------------------------------------------
  // Attempts

  /** Once `attempts` has reached the limit, every call yields `None` and changes nothing. */
  lemma {:induction false} ExhaustedForever(c: ExponentialConfig, s: ExponentialState, draws: seq<Draw>)
    requires s.attempts >= AttemptLimit(c.maxTimes)
    ensures forall i | 0 <= i < |draws| :: Run(c, s, draws).0[i] == None
    ensures Run(c, s, draws).1 == s
    decreases |draws|
  {
    if draws != [] {
      ExhaustedForever(c, s, draws[1..]);
    }
  }

  /** A run yields at most as many values as the attempts left (`max_times` from a fresh backoff). */
  lemma {:induction false} AtMostMaxTimes(c: ExponentialConfig, s: ExponentialState, draws: seq<Draw>)
    requires s.attempts <= AttemptLimit(c.maxTimes)
    ensures CountSome(Run(c, s, draws).0) <= AttemptLimit(c.maxTimes) - s.attempts
    decreases |draws|
  {
    if draws != [] {
      var s1 := Step(c, s, draws[0]).1;
      AtMostMaxTimes(c, s1, draws[1..]);
      RunUnfold(c, s, draws);
      assert Run(c, s, draws).0[1..] == Run(c, s1, draws[1..]).0;
    }
  }

  /** Without a budget, call i yields a value exactly when fewer than `max_times` attempts precede it. */
  lemma {:induction false} ExactlyMaxTimesWithoutBudget(c: ExponentialConfig, s: ExponentialState, draws: seq<Draw>)
    requires c.totalDelay.None?
    ensures forall i | 0 <= i < |draws| :: Run(c, s, draws).0[i].Some? <==> s.attempts + i < AttemptLimit(c.maxTimes)
    decreases |draws|
  {
    if draws != [] {
      var s1 := Step(c, s, draws[0]).1;
      ExactlyMaxTimesWithoutBudget(c, s1, draws[1..]);
      RunUnfold(c, s, draws);
    }
  }

  // ---------------------------------------------------------------------
  // Values

  /** Without jitter, the first call yields `min_delay` and records it. */
  lemma FirstCallYieldsMinDelay(c: ExponentialConfig, u: Draw)
    requires !c.jitter && AttemptLimit(c.maxTimes) > 0
    requires WithinBudget(c.totalDelay, 0, c.minDelay)
    ensures Step(c, Initial, u).0 == Some(c.minDelay)
    ensures Step(c, Initial, u).1.currentDelay == Some(c.minDelay)
    ensures Step(c, Initial, u).1.attempts == 1
  {
  }

  /**
   * Without jitter, budget or maximum delay, each value after the first is
   * the value before it multiplied by the factor (saturating).
   */
  lemma {:induction false} EachValueScalesThePrevious(c: ExponentialConfig, s: ExponentialState, draws: seq<Draw>)
    requires !c.jitter && c.maxDelay.None? && c.totalDelay.None?
    ensures var out := Run(c, s, draws).0;
      forall i | 0 <= i < |draws| - 1 :: out[i].Some? && out[i + 1].Some? ==> out[i + 1].value == SatMul(out[i].value, c.factor)
    decreases |draws|
  {
    if draws != [] {
      var s1 := Step(c, s, draws[0]).1;
      EachValueScalesThePrevious(c, s1, draws[1..]);
      RunUnfold(c, s, draws);
      if |draws| > 1 {
        RunUnfold(c, s1, draws[1..]);
      }
    }
  }

  /**
   * Without jitter, whatever the maximum delay and budget, each value that
   * follows a value is that value grown: multiplied by the factor while below
   * the maximum, then cut down to it (or saturated without a maximum).
   */
  lemma {:induction false} EachValueGrowsThePrevious(c: ExponentialConfig, s: ExponentialState, draws: seq<Draw>)
    requires !c.jitter
    ensures var out := Run(c, s, draws).0;
      forall i | 0 <= i < |draws| - 1 :: out[i].Some? && out[i + 1].Some? ==> out[i + 1].value == Grow(c, out[i].value)
    decreases |draws|
  {
    if draws != [] {
      var s1 := Step(c, s, draws[0]).1;
      EachValueGrowsThePrevious(c, s1, draws[1..]);
      RunUnfold(c, s, draws);
      if |draws| > 1 {
        RunUnfold(c, s1, draws[1..]);
      }
    }
  }

  /**
   * With a maximum delay and no jitter, every value after the first call is
   * at most the maximum: once a delay is recorded, growth is cut down to it
   * (only the first value, `min_delay`, may exceed it).
   */
  lemma {:induction false} CappedAfterFirstCall(c: ExponentialConfig, s: ExponentialState, draws: seq<Draw>)
    requires !c.jitter && c.maxDelay.Some?
    ensures var out := Run(c, s, draws).0;
      forall i | 0 <= i < |draws| :: out[i].Some? && (i > 0 || s.currentDelay.Some?) ==> out[i].value <= c.maxDelay.value
    decreases |draws|
  {
    if draws != [] {
      var s1 := Step(c, s, draws[0]).1;
      CappedAfterFirstCall(c, s1, draws[1..]);
      RunUnfold(c, s, draws);
    }
  }

  /** A recorded delay at or above the maximum is not multiplied again: the next one is the maximum itself. */
  lemma AtMaxDelayStaysAtMax(c: ExponentialConfig, cur: Duration)
    requires c.maxDelay.Some? && cur >= c.maxDelay.value
    ensures Grow(c, cur) == c.maxDelay.value
  {
  }

  /**
   * Without a maximum delay and with a factor of at least one, a backoff
   * whose recorded delay is Duration::MAX yields Duration::MAX, with or
   * without jitter, for as long as it yields at all.
   */
  lemma {:induction false} SaturatedStaysSaturated(c: ExponentialConfig, s: ExponentialState, draws: seq<Draw>)
    requires c.maxDelay.None? && c.factor.num >= c.factor.den
    requires s.currentDelay == Some(MAX)
    ensures forall i | 0 <= i < |draws| :: Run(c, s, draws).0[i].Some? ==> Run(c, s, draws).0[i].value == MAX
    ensures Run(c, s, draws).1.currentDelay == Some(MAX)
    decreases |draws|
  {
    if draws != [] {
      SatMulGrows(MAX, c.factor);
      var s1 := Step(c, s, draws[0]).1;
      SaturatedStaysSaturated(c, s1, draws[1..]);
      RunUnfold(c, s, draws);
    }
  }

  /**
   * Jitter never compounds: without a budget, a jittered run passes through
   * the same states as the run without jitter, and each jittered value lies
   * in [d, 2d) (saturating) around the un-jittered value d of the same call.
   */
  lemma {:induction false} JitterBounds(c: ExponentialConfig, s: ExponentialState, draws: seq<Draw>)
    requires c.totalDelay.None?
    ensures var out := Run(c, s, draws).0;
      var base := Run(c.(jitter := false), s, draws).0;
      forall i | 0 <= i < |draws| ::
        && (out[i].Some? <==> base[i].Some?)
        && (out[i].Some? ==> base[i].value <= out[i].value <= SatAdd(base[i].value, base[i].value))
        && (out[i].Some? && 0 < base[i].value && 2 * base[i].value <= MAX ==> out[i].value < 2 * base[i].value)
    ensures Run(c, s, draws).1 == Run(c.(jitter := false), s, draws).1
    decreases |draws|
  {
    if draws != [] {
      var c0 := c.(jitter := false);
      assert Step(c, s, draws[0]).1 == Step(c0, s, draws[0]).1;
      var s1 := Step(c, s, draws[0]).1;
      JitterBounds(c, s1, draws[1..]);
      RunUnfold(c, s, draws);
      RunUnfold(c0, s, draws);
    }
  }

  /**
   * One call, for every configuration: a value yielded lies in [d, 2d)
   * (saturating) around the un-jittered delay d, is exactly d without
   * jitter, and the delay recorded is d itself, never the jittered value.
   */
  lemma JitterStep(c: ExponentialConfig, s: ExponentialState, u: Draw)
    ensures var (o, s1) := Step(c, s, u);
      var d := Unjittered(c, s);
      o.Some? ==>
        && d <= o.value <= SatAdd(d, d)
        && (0 < d && 2 * d <= MAX ==> o.value < 2 * d)
        && (!c.jitter ==> o.value == d)
        && s1.currentDelay == Some(d)
  {
  }

  /** Without jitter, the draws play no part: two backoffs in the same state yield the same sequence. */
  lemma {:induction false} DrawsIrrelevantWithoutJitter(c: ExponentialConfig, s: ExponentialState, d1: seq<Draw>, d2: seq<Draw>)
    requires !c.jitter && |d1| == |d2|
    ensures Run(c, s, d1) == Run(c, s, d2)
    decreases |d1|
  {
    if d1 != [] {
      var s1 := Step(c, s, d1[0]).1;
      assert Step(c, s, d1[0]) == Step(c, s, d2[0]);
      DrawsIrrelevantWithoutJitter(c, s1, d1[1..], d2[1..]);
      RunUnfold(c, s, d1);
      RunUnfold(c, s, d2);
    }
  }

  /** Two backoffs built from one builder without jitter yield identical sequences. */
  lemma BuildsAgree(b: ExponentialBuilder, d1: seq<Draw>, d2: seq<Draw>)
    requires !b.jitter && |d1| == |d2|
    ensures Run(ConfigOf(b), Initial, d1).0 == Run(ConfigOf(b), Initial, d2).0
  {
    DrawsIrrelevantWithoutJitter(ConfigOf(b), Initial, d1, d2);
  }

  // ---------------------------------------------------------------------
  // Total delay budget

  /**
   * With a total delay, the values yielded never add up to more than it, and
   * `cumulative_delay` grows by exactly each value yielded.
   */
  lemma {:induction false} BudgetBoundsTotal(c: ExponentialConfig, s: ExponentialState, draws: seq<Draw>)
    requires c.totalDelay.Some? && s.cumulativeDelay <= c.totalDelay.value
    ensures Run(c, s, draws).1.cumulativeDelay == s.cumulativeDelay + SumSome(Run(c, s, draws).0)
    ensures Run(c, s, draws).1.cumulativeDelay <= c.totalDelay.value
    decreases |draws|
  {
    if draws != [] {
      var s1 := Step(c, s, draws[0]).1;
      BudgetBoundsTotal(c, s1, draws[1..]);
      RunUnfold(c, s, draws);
      assert Run(c, s, draws).0[1..] == Run(c, s1, draws[1..]).0;
    }
  }

  /**
   * A value that would exceed the budget is not yielded: the call returns
   * `None` and leaves the recorded and cumulative delays alone, though it
   * has already counted the attempt.
   */
  lemma BudgetFailureCountsAttempt(c: ExponentialConfig, s: ExponentialState, u: Draw)
    requires s.attempts < AttemptLimit(c.maxTimes)
    requires !WithinBudget(c.totalDelay, s.cumulativeDelay, Jittered(c, Unjittered(c, s), u))
    ensures Step(c, s, u) == (None, s.(attempts := s.attempts + 1))
  {
  }

  /** Without a total delay, `cumulative_delay` never moves (it stays zero from `build`). */
  lemma {:induction false} NoBudgetNoCumulative(c: ExponentialConfig, s: ExponentialState, draws: seq<Draw>)
    requires c.totalDelay.None?
    ensures Run(c, s, draws).1.cumulativeDelay == s.cumulativeDelay
    decreases |draws|
  {
    if draws != [] {
      NoBudgetNoCumulative(c, Step(c, s, draws[0]).1, draws[1..]);
    }
  }

  /**
   * Where the check as written does not panic it agrees with the documented
   * one, and where it panics the documented one reports the budget exceeded.
   */
  lemma BudgetCheckAgrees(totalDelay: Option<Duration>, cumulative: Duration, v: Duration)
    ensures BudgetCheckAsWritten(totalDelay, cumulative, v).Some? ==>
      BudgetCheckAsWritten(totalDelay, cumulative, v).value == WithinBudget(totalDelay, cumulative, v)
    ensures BudgetCheckAsWritten(totalDelay, cumulative, v).None? ==> !WithinBudget(totalDelay, cumulative, v)
  {
  }

  /**
   * The overflow is reachable: with factor 1e10, no maximum delay and a
   * budget of Duration::MAX, the third call computes Duration::MAX and the
   * check as written adds it to a non-zero cumulative delay and panics,
   * where the documented behaviour is to stop with `None`.
   */
  lemma BudgetCheckPanicsExample()
    ensures var c := ConfigOf(WithTotalDelay(WithoutMaxDelay(WithFactor(New(), Ratio(10_000_000_000, 1))), Some(MAX)));
      var s2 := Run(c, Initial, [0, 0]).1;
      && s2.cumulativeDelay == Secs(10_000_000_001)
      && Unjittered(c, s2) == MAX
      && BudgetCheckAsWritten(c.totalDelay, s2.cumulativeDelay, Jittered(c, Unjittered(c, s2), 0)) == None
      && Step(c, s2, 0).0 == None
  {
    var c := ConfigOf(WithTotalDelay(WithoutMaxDelay(WithFactor(New(), Ratio(10_000_000_000, 1))), Some(MAX)));
    var s1 := Step(c, Initial, 0).1;
    assert s1 == ExponentialState(Some(Secs(1)), Secs(1), 1);
    var s2 := Step(c, s1, 0).1;
    assert s2 == ExponentialState(Some(Secs(10_000_000_000)), Secs(10_000_000_001), 2);
    assert Run(c, Initial, [0, 0]).1 == s2 by {
      RunUnfold(c, Initial, [0, 0]);
      assert [0, 0][1..] == [0];
      RunUnfold(c, s1, [0]);
      assert [0][1..] == [];
    }
  }

  // ---------------------------------------------------------------------
  // The sequences the source's own tests expect

  /** The default builder yields 1s, 2s, 4s, then `None`. */
  lemma DefaultSequence(u: seq<Draw>)
    requires |u| == 4
    ensures Run(ConfigOf(New()), Initial, u).0 == [Some(Secs(1)), Some(Secs(2)), Some(Secs(4)), None]
  {
    MinDelaySequence(Secs(1), u);
  }

  /** With a minimum delay m (at most a quarter of the 60s maximum) the default builder yields m, 2m, 4m, then `None`. */
  lemma MinDelaySequence(m: Duration, u: seq<Draw>)
    requires |u| == 4 && 4 * m <= Secs(60)
    ensures Run(ConfigOf(WithMinDelay(New(), m)), Initial, u).0 == [Some(m), Some(2 * m), Some(4 * m), None]
  {
    var c := ConfigOf(WithMinDelay(New(), m));
    var s1 := ExponentialState(Some(m), 0, 1);
    var s2 := ExponentialState(Some(2 * m), 0, 2);
    var s3 := ExponentialState(Some(4 * m), 0, 3);
    assert Step(c, Initial, u[0]) == (Some(m), s1);
    assert Step(c, s1, u[1]) == (Some(2 * m), s2);
    assert Step(c, s2, u[2]) == (Some(4 * m), s3);
    assert Step(c, s3, u[3]) == (None, s3);
    RunUnfold(c, Initial, u);
    RunUnfold(c, s1, u[1..]);
    RunUnfold(c, s2, u[2..]);
    RunUnfold(c, s3, u[3..]);
  }

  /** With a maximum delay of 2s the default builder yields 1s, 2s, 2s, then `None`. */
  lemma MaxDelaySequence(u: seq<Draw>)
    requires |u| == 4
    ensures Run(ConfigOf(WithMaxDelay(New(), Secs(2))), Initial, u).0 == [Some(Secs(1)), Some(Secs(2)), Some(Secs(2)), None]
  {
    var c := ConfigOf(WithMaxDelay(New(), Secs(2)));
    var s1 := ExponentialState(Some(Secs(1)), 0, 1);
    var s2 := ExponentialState(Some(Secs(2)), 0, 2);
    var s3 := ExponentialState(Some(Secs(2)), 0, 3);
    assert Step(c, Initial, u[0]) == (Some(Secs(1)), s1);
    assert Step(c, s1, u[1]) == (Some(Secs(2)), s2);
    assert Step(c, s2, u[2]) == (Some(Secs(2)), s3);
    assert Step(c, s3, u[3]) == (None, s3);
    RunUnfold(c, Initial, u);
    RunUnfold(c, s1, u[1..]);
    RunUnfold(c, s2, u[2..]);
    RunUnfold(c, s3, u[3..]);
  }

  /** Factor 1, a budget of 3s and five attempts: three 1s delays fit the budget, the fourth does not. */
  lemma TotalDelaySequence(u: seq<Draw>)
    requires |u| == 4
    ensures Run(ConfigOf(WithMaxTimes(WithTotalDelay(WithFactor(New(), Ratio(1, 1)), Some(Secs(3))), 5)), Initial, u).0
      == [Some(Secs(1)), Some(Secs(1)), Some(Secs(1)), None]
  {
    var c := ConfigOf(WithMaxTimes(WithTotalDelay(WithFactor(New(), Ratio(1, 1)), Some(Secs(3))), 5));
    var s1 := ExponentialState(Some(Secs(1)), Secs(1), 1);
    var s2 := ExponentialState(Some(Secs(1)), Secs(2), 2);
    var s3 := ExponentialState(Some(Secs(1)), Secs(3), 3);
    assert Step(c, Initial, u[0]) == (Some(Secs(1)), s1);
    assert Step(c, s1, u[1]) == (Some(Secs(1)), s2);
    assert Step(c, s2, u[2]) == (Some(Secs(1)), s3);
    assert Step(c, s3, u[3]) == (None, s3.(attempts := 4));
    RunUnfold(c, Initial, u);
    RunUnfold(c, s1, u[1..]);
    RunUnfold(c, s2, u[2..]);
    RunUnfold(c, s3, u[3..]);
  }

  /** Factor 1e10 without a maximum delay: 1s, 1e10 s, then Duration::MAX twice, then `None`. */
  lemma NoMaxDelaySequence(u: seq<Draw>)
    requires |u| == 5
    ensures Run(ConfigOf(WithMaxTimes(WithoutMaxDelay(WithFactor(New(), Ratio(10_000_000_000, 1))), 4)), Initial, u).0
      == [Some(Secs(1)), Some(Secs(10_000_000_000)), Some(MAX), Some(MAX), None]
  {
    var c := ConfigOf(WithMaxTimes(WithoutMaxDelay(WithFactor(New(), Ratio(10_000_000_000, 1))), 4));
    var s1 := ExponentialState(Some(Secs(1)), 0, 1);
    var s2 := ExponentialState(Some(Secs(10_000_000_000)), 0, 2);
    var s3 := ExponentialState(Some(MAX), 0, 3);
    var s4 := ExponentialState(Some(MAX), 0, 4);
    assert Step(c, Initial, u[0]) == (Some(Secs(1)), s1);
    assert Step(c, s1, u[1]) == (Some(Secs(10_000_000_000)), s2);
    assert Step(c, s2, u[2]) == (Some(MAX), s3);
    assert Step(c, s3, u[3]) == (Some(MAX), s4);
    assert Step(c, s4, u[4]) == (None, s4);
    RunUnfold(c, Initial, u);
    RunUnfold(c, s1, u[1..]);
    RunUnfold(c, s2, u[2..]);
    RunUnfold(c, s3, u[3..]);
    RunUnfold(c, s4, u[4..]);
  }

  // ---------------------------------------------------------------------
  // The iterator

  class ExponentialBackoff {
    const config: ExponentialConfig

    var currentDelay: Option<Duration>
    var cumulativeDelay: Duration
    var attempts: Usize

    function State(): ExponentialState
      reads this
    {
      ExponentialState(currentDelay, cumulativeDelay, attempts)
    }

    /** `BackoffBuilder::build`: the builder's settings, no recorded delay, nothing spent, no attempts. */
    constructor Build(b: ExponentialBuilder)
      ensures config == ConfigOf(b)
      ensures State() == Initial
    {
      config := ConfigOf(b);
      currentDelay := None;
      cumulativeDelay := 0;
      attempts := 0;
    }

    /** `Iterator::next`, where `u` is the value the random generator would draw. */
    method Next(u: Draw) returns (r: Option<Duration>)
      modifies this
      ensures (r, State()) == Step(config, old(State()), u)
    {
      if attempts >= AttemptLimit(config.maxTimes) {
        return None;
      }
      attempts := attempts + 1;

      var tmpCur: Duration;
      match currentDelay {
        case None =>
          tmpCur := config.minDelay;
        case Some(cur0) =>
          var cur := cur0;
          match config.maxDelay {
            case Some(maxDelay) =>
              if cur < maxDelay {
                cur := SatMul(cur, config.factor);
              }
              if cur > maxDelay {
                cur := maxDelay;
              }
            case None =>
              cur := SatMul(cur, config.factor);
          }
          tmpCur := cur;
      }

      var current := tmpCur;
      if config.jitter {
        tmpCur := SatAdd(tmpCur, Jitter(tmpCur, u));
      }

      if !WithinBudget(config.totalDelay, cumulativeDelay, tmpCur) {
        return None;
      }
      if config.totalDelay.Some? {
        cumulativeDelay := SatAdd(cumulativeDelay, tmpCur);
      }
      currentDelay := Some(current);
      return Some(tmpCur);
    }
  }
}
