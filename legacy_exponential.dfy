/**
 * The exponential backoff of the older top-level crate (`src/exponential.rs`):
 * one `Exponential` value that is both configured by `with_*` and iterated.
 * Unlike the current backoff it multiplies only while a maximum delay is set
 * and not yet reached, never cuts the result down to the maximum, scales
 * jitter by the minimum delay, and uses `Duration` arithmetic that panics on
 * overflow.
 */
module LegacyExponential {
  import opened Wrappers
  import opened Backoff

  /** The settings of an `Exponential`. */
  datatype ExponentialConfig = ExponentialConfig(
    jitter: bool,
    factor: Factor,
    minDelay: Duration,
    maxDelay: Option<Duration>,
    maxTimes: Option<Usize>)

  /** The fields of an `Exponential` that `next` changes. */
  datatype ExponentialState = ExponentialState(currentDelay: Option<Duration>, attempts: Usize)

  /** The settings of `Exponential::default`: factor 2, 1s up to 60s, three times, no jitter. */
  const DefaultConfig := ExponentialConfig(false, Ratio(2, 1), Secs(1), Some(Secs(60)), Some(3))

  const Initial := ExponentialState(None, 0)

  /** A recorded delay is multiplied only when a maximum is set and the delay is below it. */
  predicate Grows(c: ExponentialConfig, cur: Duration)
  {
    c.maxDelay.Some? && cur < c.maxDelay.value
  }

  /** `Duration::mul_f32` panics when the product does not fit in a Duration. */
  predicate MulPanics(c: ExponentialConfig, s: ExponentialState)
  {
    s.currentDelay.Some? && Grows(c, s.currentDelay.value) && Scale(s.currentDelay.value, c.factor) > MAX
  }

  /**
   * The delay `next` records and yields before jitter, and the state it
   * leaves, for a call within the attempt limit.
   */
  function Advance(c: ExponentialConfig, s: ExponentialState): (Duration, ExponentialState)
    requires s.attempts < AttemptLimit(c.maxTimes) && !MulPanics(c, s)
  {
    var d := match s.currentDelay
      case None => c.minDelay
      case Some(cur) => if Grows(c, cur) then Scale(cur, c.factor) else cur;
    (d, ExponentialState(Some(d), s.attempts + 1))
  }

  /** The multiplication or the jitter's `+=` would overflow: the call panics. */
  predicate Panics(c: ExponentialConfig, s: ExponentialState, u: Draw)
  {
    s.attempts < AttemptLimit(c.maxTimes)
      && (MulPanics(c, s) || (c.jitter && Advance(c, s).0 + Jitter(c.minDelay, u) > MAX))
  }

  /** `Exponential::next` for the random draw `u`: the value yielded and the state afterwards. */
  function Step(c: ExponentialConfig, s: ExponentialState, u: Draw): (Option<Duration>, ExponentialState)
    requires !Panics(c, s, u)
  {
    if s.attempts >= AttemptLimit(c.maxTimes) then (None, s)
    else
      var (d, s1) := Advance(c, s);
      (Some(if c.jitter then d + Jitter(c.minDelay, u) else d), s1)
  }

  /** No call of the run panics. */
  predicate Safe(c: ExponentialConfig, s: ExponentialState, draws: seq<Draw>)
    decreases |draws|
  {
    draws == [] || (!Panics(c, s, draws[0]) && Safe(c, Step(c, s, draws[0]).1, draws[1..]))
  }

  /** Successive calls of `next`, one per draw: the values yielded and the final state. */
  function Run(c: ExponentialConfig, s: ExponentialState, draws: seq<Draw>): (r: (seq<Option<Duration>>, ExponentialState))
    requires Safe(c, s, draws)
    ensures |r.0| == |draws|
    decreases |draws|
  {
    if draws == [] then ([], s)
    else
      var (o, s1) := Step(c, s, draws[0]);
      var (rest, last) := Run(c, s1, draws[1..]);
      ([o] + rest, last)
  }

  lemma RunUnfold(c: ExponentialConfig, s: ExponentialState, draws: seq<Draw>)
    requires draws != [] && Safe(c, s, draws)
    ensures !Panics(c, s, draws[0]) && Safe(c, Step(c, s, draws[0]).1, draws[1..])
    ensures Run(c, s, draws).0 == [Step(c, s, draws[0]).0] + Run(c, Step(c, s, draws[0]).1, draws[1..]).0
    ensures Run(c, s, draws).1 == Run(c, Step(c, s, draws[0]).1, draws[1..]).1
  {
  }

  // ---------------------------------------------------------------------
  // Attempts

  /** Call i yields a value exactly when fewer than `max_times` attempts precede it. */
  lemma {:induction false} ExactlyMaxTimes(c: ExponentialConfig, s: ExponentialState, draws: seq<Draw>)
    requires Safe(c, s, draws)
    ensures forall i | 0 <= i < |draws| :: Run(c, s, draws).0[i].Some? <==> s.attempts + i < AttemptLimit(c.maxTimes)
    decreases |draws|
  {
    if draws != [] {
      RunUnfold(c, s, draws);
      ExactlyMaxTimes(c, Step(c, s, draws[0]).1, draws[1..]);
    }
  }

  // ---------------------------------------------------------------------
  // Values

  /**
   * Without jitter, each value after the first is the previous one times the
   * factor while that is below the maximum delay, and the previous one again
   * once it is not (or when no maximum is set).
   */
  lemma {:induction false} EachValueFollowsThePrevious(c: ExponentialConfig, s: ExponentialState, draws: seq<Draw>)
    requires !c.jitter && Safe(c, s, draws)
    ensures var out := Run(c, s, draws).0;
      forall i | 0 <= i < |draws| - 1 :: out[i].Some? && out[i + 1].Some? ==>
        out[i + 1].value == if Grows(c, out[i].value) then Scale(out[i].value, c.factor) else out[i].value
    decreases |draws|
  {
    if draws != [] {
      RunUnfold(c, s, draws);
      var s1 := Step(c, s, draws[0]).1;
      EachValueFollowsThePrevious(c, s1, draws[1..]);
      if |draws| > 1 {
        RunUnfold(c, s1, draws[1..]);
      }
    }
  }

  /** With a factor of at least one and no jitter, the delays never shrink. */
  lemma NeverShrinks(c: ExponentialConfig, s: ExponentialState, draws: seq<Draw>)
    requires !c.jitter && c.factor.num >= c.factor.den && Safe(c, s, draws)
    ensures var out := Run(c, s, draws).0;
      forall i | 0 <= i < |draws| - 1 :: out[i].Some? && out[i + 1].Some? ==> out[i].value <= out[i + 1].value
  {
    EachValueFollowsThePrevious(c, s, draws);
    forall i | 0 <= i < |draws| - 1
      ensures Run(c, s, draws).0[i].Some? ==> Run(c, s, draws).0[i].value <= Scale(Run(c, s, draws).0[i].value, c.factor)
    {
      if Run(c, s, draws).0[i].Some? {
        ScaleGrows(Run(c, s, draws).0[i].value, c.factor);
      }
    }
  }

  /**
   * Every recorded delay is `min_delay` or at most the maximum delay times
   * the factor: growth stops at the maximum but may overshoot it once.
   */
  predicate Inv(c: ExponentialConfig, s: ExponentialState)
  {
    s.currentDelay.Some? ==>
      s.currentDelay.value == c.minDelay || (c.maxDelay.Some? && s.currentDelay.value <= Scale(c.maxDelay.value, c.factor))
  }

  lemma AdvanceKeepsInv(c: ExponentialConfig, s: ExponentialState)
    requires Inv(c, s) && s.attempts < AttemptLimit(c.maxTimes) && !MulPanics(c, s)
    ensures Inv(c, Advance(c, s).1)
    ensures Advance(c, s).1.currentDelay == Some(Advance(c, s).0)
  {
    if s.currentDelay.Some? && Grows(c, s.currentDelay.value) {
      ScaleMonotone(s.currentDelay.value, c.maxDelay.value, c.factor);
    }
  }

  /**
   * With a maximum delay m and factor f, when m·f plus `min_delay` fits in a
   * Duration (and twice `min_delay` does), no call panics.
   */
  lemma {:induction false} SafeUnderCap(c: ExponentialConfig, s: ExponentialState, draws: seq<Draw>)
    requires Inv(c, s) && c.maxDelay.Some?
    requires Scale(c.maxDelay.value, c.factor) + c.minDelay <= MAX && 2 * c.minDelay <= MAX
    ensures Safe(c, s, draws)
    decreases |draws|
  {
    if draws != [] {
      if s.currentDelay.Some? && Grows(c, s.currentDelay.value) {
        ScaleMonotone(s.currentDelay.value, c.maxDelay.value, c.factor);
      }
      if s.attempts < AttemptLimit(c.maxTimes) {
        AdvanceKeepsInv(c, s);
      }
      SafeUnderCap(c, Step(c, s, draws[0]).1, draws[1..]);
    }
  }

  /** Without jitter, every value is `min_delay` or at most the maximum delay times the factor. */
  lemma {:induction false} OvershootAtMostOneFactor(c: ExponentialConfig, s: ExponentialState, draws: seq<Draw>)
    requires !c.jitter && Inv(c, s) && Safe(c, s, draws)
    ensures forall i | 0 <= i < |draws| :: Run(c, s, draws).0[i].Some? ==>
      var v := Run(c, s, draws).0[i].value;
      v == c.minDelay || (c.maxDelay.Some? && v <= Scale(c.maxDelay.value, c.factor))
    decreases |draws|
  {
    if draws != [] {
      RunUnfold(c, s, draws);
      if s.attempts < AttemptLimit(c.maxTimes) {
        AdvanceKeepsInv(c, s);
      }
      OvershootAtMostOneFactor(c, Step(c, s, draws[0]).1, draws[1..]);
    }
  }

  /**
   * Jitter never compounds: a jittered run passes through the same states as
   * the run without jitter, and each value lies in [d, d + min_delay) around
   * the un-jittered value d of the same call.
   */
  lemma {:induction false} JitterBounds(c: ExponentialConfig, s: ExponentialState, draws: seq<Draw>)
    requires Safe(c, s, draws)
    ensures Safe(c.(jitter := false), s, draws)
    ensures var out := Run(c, s, draws).0;
      var base := Run(c.(jitter := false), s, draws).0;
      forall i | 0 <= i < |draws| ::
        && (out[i].Some? <==> base[i].Some?)
        && (out[i].Some? ==> base[i].value <= out[i].value <= base[i].value + c.minDelay)
        && (out[i].Some? && c.minDelay > 0 ==> out[i].value < base[i].value + c.minDelay)
    ensures Run(c, s, draws).1 == Run(c.(jitter := false), s, draws).1
    decreases |draws|
  {
    var c0 := c.(jitter := false);
    if draws != [] {
      RunUnfold(c, s, draws);
      assert !Panics(c0, s, draws[0]);
      assert Step(c, s, draws[0]).1 == Step(c0, s, draws[0]).1;
      JitterBounds(c, Step(c, s, draws[0]).1, draws[1..]);
      RunUnfold(c0, s, draws);
    }
  }

  // ---------------------------------------------------------------------
  // The sequences the source's own tests expect

  /** Four calls that go through the given states. */
  lemma FourCalls(c: ExponentialConfig, u: seq<Draw>, s1: ExponentialState, s2: ExponentialState, s3: ExponentialState, o: seq<Option<Duration>>)
    requires |u| == 4 && |o| == 4
    requires !Panics(c, Initial, u[0]) && Step(c, Initial, u[0]) == (o[0], s1)
    requires !Panics(c, s1, u[1]) && Step(c, s1, u[1]) == (o[1], s2)
    requires !Panics(c, s2, u[2]) && Step(c, s2, u[2]) == (o[2], s3)
    requires !Panics(c, s3, u[3]) && Step(c, s3, u[3]).0 == o[3]
    ensures Safe(c, Initial, u) && Run(c, Initial, u).0 == o
  {
    assert u[1..][1..][1..][1..] == [];
    assert Safe(c, s3, u[3..]);
    RunUnfold(c, s3, u[3..]);
    RunUnfold(c, s2, u[2..]);
    RunUnfold(c, s1, u[1..]);
    RunUnfold(c, Initial, u);
  }

  /** The default backoff yields 1s, 2s, 4s, then `None`. */
  lemma DefaultSequence(u: seq<Draw>)
    requires |u| == 4
    ensures Safe(DefaultConfig, Initial, u)
    ensures Run(DefaultConfig, Initial, u).0 == [Some(Secs(1)), Some(Secs(2)), Some(Secs(4)), None]
  {
    var s3 := ExponentialState(Some(Secs(4)), 3);
    FourCalls(DefaultConfig, u, ExponentialState(Some(Secs(1)), 1), ExponentialState(Some(Secs(2)), 2), s3,
      [Some(Secs(1)), Some(Secs(2)), Some(Secs(4)), None]);
  }

  /** Factor 1.5: 1s, 1.5s, 2.25s, then `None`. */
  lemma FactorSequence(u: seq<Draw>)
    requires |u| == 4
    ensures Safe(DefaultConfig.(factor := Ratio(3, 2)), Initial, u)
    ensures Run(DefaultConfig.(factor := Ratio(3, 2)), Initial, u).0 == [Some(Millis(1000)), Some(Millis(1500)), Some(Millis(2250)), None]
  {
    var s3 := ExponentialState(Some(Millis(2250)), 3);
    FourCalls(DefaultConfig.(factor := Ratio(3, 2)), u, ExponentialState(Some(Millis(1000)), 1), ExponentialState(Some(Millis(1500)), 2), s3,
      [Some(Millis(1000)), Some(Millis(1500)), Some(Millis(2250)), None]);
  }

  /** A minimum delay of 500ms: 500ms, 1s, 2s, then `None`. */
  lemma MinDelaySequence(u: seq<Draw>)
    requires |u| == 4
    ensures Safe(DefaultConfig.(minDelay := Millis(500)), Initial, u)
    ensures Run(DefaultConfig.(minDelay := Millis(500)), Initial, u).0 == [Some(Millis(500)), Some(Secs(1)), Some(Secs(2)), None]
  {
    var s3 := ExponentialState(Some(Secs(2)), 3);
    FourCalls(DefaultConfig.(minDelay := Millis(500)), u, ExponentialState(Some(Millis(500)), 1), ExponentialState(Some(Secs(1)), 2), s3,
      [Some(Millis(500)), Some(Secs(1)), Some(Secs(2)), None]);
  }

  /** A maximum delay of 2s: 1s, 2s, 2s, then `None`. */
  lemma MaxDelaySequence(u: seq<Draw>)
    requires |u| == 4
    ensures Safe(DefaultConfig.(maxDelay := Some(Secs(2))), Initial, u)
    ensures Run(DefaultConfig.(maxDelay := Some(Secs(2))), Initial, u).0 == [Some(Secs(1)), Some(Secs(2)), Some(Secs(2)), None]
  {
    var s3 := ExponentialState(Some(Secs(2)), 3);
    FourCalls(DefaultConfig.(maxDelay := Some(Secs(2))), u, ExponentialState(Some(Secs(1)), 1), ExponentialState(Some(Secs(2)), 2), s3,
      [Some(Secs(1)), Some(Secs(2)), Some(Secs(2)), None]);
  }

  /** One attempt: 1s, then `None`. */
  lemma OneTimeSequence(u: seq<Draw>)
    requires |u| == 2
    ensures Safe(DefaultConfig.(maxTimes := Some(1)), Initial, u)
    ensures Run(DefaultConfig.(maxTimes := Some(1)), Initial, u).0 == [Some(Secs(1)), None]
  {
    var c := DefaultConfig.(maxTimes := Some(1));
    var s1 := ExponentialState(Some(Secs(1)), 1);
    assert Step(c, Initial, u[0]) == (Some(Secs(1)), s1);
    assert Step(c, s1, u[1]) == (None, s1);
    assert u[1..][1..] == [];
    RunUnfold(c, s1, u[1..]);
    RunUnfold(c, Initial, u);
  }

  /** With jitter: a value in [1s, 2s), one in [2s, 4s), one in [4s, 8s), then `None`. */
  lemma JitterSequence(u: seq<Draw>)
    requires |u| == 4
    ensures Safe(DefaultConfig.(jitter := true), Initial, u)
    ensures var out := Run(DefaultConfig.(jitter := true), Initial, u).0;
      && out[0].Some? && Secs(1) <= out[0].value < Secs(2)
      && out[1].Some? && Secs(2) <= out[1].value < Secs(4)
      && out[2].Some? && Secs(4) <= out[2].value < Secs(8)
      && out[3] == None
  {
    var c := DefaultConfig.(jitter := true);
    SafeUnderCap(c, Initial, u);
    JitterBounds(c, Initial, u);
    DefaultSequence(u);
  }

  // ---------------------------------------------------------------------
  // The backoff object

  class Exponential {
    var jitter: bool
    var factor: Factor
    var minDelay: Duration
    var maxDelay: Option<Duration>
    var maxTimes: Option<Usize>

    var currentDelay: Option<Duration>
    var attempts: Usize

    function Config(): ExponentialConfig
      reads this
    {
      ExponentialConfig(jitter, factor, minDelay, maxDelay, maxTimes)
    }

    function State(): ExponentialState
      reads this
    {
      ExponentialState(currentDelay, attempts)
    }

    /** `Exponential::default`. */
    constructor Default()
      ensures Config() == DefaultConfig && State() == Initial
    {
      jitter := false;
      factor := Ratio(2, 1);
      minDelay := Secs(1);
      maxDelay := Some(Secs(60));
      maxTimes := Some(3);
      currentDelay := None;
      attempts := 0;
    }

    method WithJitter()
      modifies this
      ensures Config() == old(Config()).(jitter := true) && State() == old(State())
    {
      jitter := true;
    }

    /** `with_factor`, whose debug assertion demands a factor above one. */
    method WithFactor(f: Factor)
      requires f.num > f.den
      modifies this
      ensures Config() == old(Config()).(factor := f) && State() == old(State())
    {
      factor := f;
    }

    method WithMinDelay(d: Duration)
      modifies this
      ensures Config() == old(Config()).(minDelay := d) && State() == old(State())
    {
      minDelay := d;
    }

    method WithMaxDelay(d: Duration)
      modifies this
      ensures Config() == old(Config()).(maxDelay := Some(d)) && State() == old(State())
    {
      maxDelay := Some(d);
    }

    method WithMaxTimes(n: Usize)
      modifies this
      ensures Config() == old(Config()).(maxTimes := Some(n)) && State() == old(State())
    {
      maxTimes := Some(n);
    }

    /** `Iterator::next`, where `u` is the value `gen_range(0.0..1.0)` would draw. */
    method Next(u: Draw) returns (r: Option<Duration>)
      requires !Panics(Config(), State(), u)
      modifies this
      ensures Config() == old(Config())
      ensures (r, State()) == Step(old(Config()), old(State()), u)
    {
      if attempts >= AttemptLimit(maxTimes) {
        return None;
      }
      attempts := attempts + 1;

      match currentDelay {
        case None =>
          var cur := minDelay;
          currentDelay := Some(cur);
          if jitter {
            cur := cur + Jitter(minDelay, u);
          }
          return Some(cur);
        case Some(cur0) =>
          var cur := cur0;
          if maxDelay.Some? && cur < maxDelay.value {
            cur := Scale(cur, factor);
          }
          currentDelay := Some(cur);
          if jitter {
            cur := cur + Jitter(minDelay, u);
          }
          return Some(cur);
      }
    }
  }
}
