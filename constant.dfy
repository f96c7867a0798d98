/**
 * The constant backoff of the current crate: `ConstantBuilder` and the
 * `ConstantBackoff` it builds, which yields the same delay (plus optional
 * jitter scaled by that delay) a bounded or unbounded number of times.
 */
module Constant {
  import opened Wrappers
  import opened Backoff

  datatype ConstantBuilder = ConstantBuilder(
    delay: Duration,
    maxTimes: Option<Usize>,
    jitter: bool,
    seed: Option<U64>)

  /** The settings a built backoff copies from its builder: all of them but the seed. */
  datatype ConstantConfig = ConstantConfig(
    delay: Duration,
    maxTimes: Option<Usize>,
    jitter: bool)

  /** `ConstantBuilder::new` (and `Default`): 1s, three times, no jitter. */
  function New(): ConstantBuilder
  {
    ConstantBuilder(Secs(1), Some(3), false, None)
  }

  function WithDelay(b: ConstantBuilder, delay: Duration): (r: ConstantBuilder)
    ensures r.delay == delay && r.(delay := b.delay) == b
  {
    b.(delay := delay)
  }

  function WithMaxTimes(b: ConstantBuilder, maxTimes: Usize): (r: ConstantBuilder)
    ensures r.maxTimes == Some(maxTimes) && r.(maxTimes := b.maxTimes) == b
  {
    b.(maxTimes := Some(maxTimes))
  }

  function WithJitter(b: ConstantBuilder): (r: ConstantBuilder)
    ensures r.jitter && r.(jitter := b.jitter) == b
  {
    b.(jitter := true)
  }

  function WithJitterSeed(b: ConstantBuilder, seed: U64): (r: ConstantBuilder)
    ensures r.seed == Some(seed) && r.(seed := b.seed) == b
  {
    b.(seed := Some(seed))
  }

  function WithoutMaxTimes(b: ConstantBuilder): (r: ConstantBuilder)
    ensures r.maxTimes == None && r.(maxTimes := b.maxTimes) == b
  {
    b.(maxTimes := None)
  }

  /** The settings `build` copies into the backoff. */
  function ConfigOf(b: ConstantBuilder): ConstantConfig
  {
    ConstantConfig(b.delay, b.maxTimes, b.jitter)
  }

  /** A call within the limit (or without one) yields a value, computed by the `delay` closure. */
  predicate Yields(c: ConstantConfig, attempts: Usize)
  {
    c.maxTimes.None? || attempts < c.maxTimes.value
  }

  /** The jitter is added with `Duration`'s `+`, which panics when the sum exceeds `Duration::MAX`. */
  predicate Panics(c: ConstantConfig, attempts: Usize, u: Draw)
  {
    Yields(c, attempts) && c.jitter && c.delay + Jitter(c.delay, u) > MAX
  }

  /**
   * `ConstantBackoff::next` for the random draw `u`: the value yielded and
   * the new `attempts`, which only moves when there is a limit to count against.
   */
  function Step(c: ConstantConfig, attempts: Usize, u: Draw): (Option<Duration>, Usize)
    requires !Panics(c, attempts, u)
  {
    var delay := if c.jitter then c.delay + Jitter(c.delay, u) else c.delay;
    match c.maxTimes
    case None => (Some(delay), attempts)
    case Some(maxTimes) =>
      if attempts >= maxTimes then (None, attempts)
      else (Some(delay), attempts + 1)
  }

  /** No call of the run panics. */
  predicate Safe(c: ConstantConfig, attempts: Usize, draws: seq<Draw>)
    decreases |draws|
  {
    draws == [] || (!Panics(c, attempts, draws[0]) && Safe(c, Step(c, attempts, draws[0]).1, draws[1..]))
  }

  /** Successive calls of `next`, one per draw: the values yielded and the final `attempts`. */
  function Run(c: ConstantConfig, attempts: Usize, draws: seq<Draw>): (r: (seq<Option<Duration>>, Usize))
    requires Safe(c, attempts, draws)
    ensures |r.0| == |draws|
    decreases |draws|
  {
    if draws == [] then ([], attempts)
    else
      var (o, a1) := Step(c, attempts, draws[0]);
      var (rest, last) := Run(c, a1, draws[1..]);
      ([o] + rest, last)
  }

  lemma RunUnfold(c: ConstantConfig, attempts: Usize, draws: seq<Draw>)
    requires draws != [] && Safe(c, attempts, draws)
    ensures !Panics(c, attempts, draws[0]) && Safe(c, Step(c, attempts, draws[0]).1, draws[1..])
    ensures Run(c, attempts, draws).0 == [Step(c, attempts, draws[0]).0] + Run(c, Step(c, attempts, draws[0]).1, draws[1..]).0
    ensures Run(c, attempts, draws).1 == Run(c, Step(c, attempts, draws[0]).1, draws[1..]).1
  {
  }

  // ---------------------------------------------------------------------
  // Panics

  /** No call panics when twice the delay fits in a Duration, in particular without jitter. */
  lemma {:induction false} SafeWhenDoubleFits(c: ConstantConfig, attempts: Usize, draws: seq<Draw>)
    requires !c.jitter || 2 * c.delay <= MAX
    ensures Safe(c, attempts, draws)
    decreases |draws|
  {
    if draws != [] {
      SafeWhenDoubleFits(c, Step(c, attempts, draws[0]).1, draws[1..]);
    }
  }

  // ---------------------------------------------------------------------
  // Attempts

  /** With `max_times` n, call i yields a value exactly when fewer than n attempts precede it. */
  lemma {:induction false} ExactlyMaxTimes(c: ConstantConfig, attempts: Usize, draws: seq<Draw>)
    requires c.maxTimes.Some? && Safe(c, attempts, draws)
    ensures forall i | 0 <= i < |draws| :: Run(c, attempts, draws).0[i].Some? <==> attempts + i < c.maxTimes.value
    decreases |draws|
  {
    if draws != [] {
      RunUnfold(c, attempts, draws);
      ExactlyMaxTimes(c, Step(c, attempts, draws[0]).1, draws[1..]);
    }
  }

  /** Counting never passes the limit: `attempts` stays at most `max_times` once it is. */
  lemma {:induction false} AttemptsBounded(c: ConstantConfig, attempts: Usize, draws: seq<Draw>)
    requires c.maxTimes.Some? && attempts <= c.maxTimes.value && Safe(c, attempts, draws)
    ensures Run(c, attempts, draws).1 <= c.maxTimes.value
    ensures Run(c, attempts, draws).1 >= attempts
    decreases |draws|
  {
    if draws != [] {
      RunUnfold(c, attempts, draws);
      AttemptsBounded(c, Step(c, attempts, draws[0]).1, draws[1..]);
    }
  }

  /** Without `max_times` every call yields a value and `attempts` is never touched. */
  lemma {:induction false} UnlimitedNeverStops(c: ConstantConfig, attempts: Usize, draws: seq<Draw>)
    requires c.maxTimes.None? && Safe(c, attempts, draws)
    ensures forall i | 0 <= i < |draws| :: Run(c, attempts, draws).0[i].Some?
    ensures Run(c, attempts, draws).1 == attempts
    decreases |draws|
  {
    if draws != [] {
      RunUnfold(c, attempts, draws);
      UnlimitedNeverStops(c, attempts, draws[1..]);
    }
  }

  // ---------------------------------------------------------------------
  // Values

  /**
   * Every value yielded is the delay plus a jitter in [0, delay): exactly the
   * delay without jitter, in [delay, 2 delay) with it.
   */
  lemma {:induction false} ValuesAroundDelay(c: ConstantConfig, attempts: Usize, draws: seq<Draw>)
    requires Safe(c, attempts, draws)
    ensures forall i | 0 <= i < |draws| :: Run(c, attempts, draws).0[i].Some? ==>
      var v := Run(c, attempts, draws).0[i].value;
      && (!c.jitter ==> v == c.delay)
      && c.delay <= v <= 2 * c.delay
      && (c.delay > 0 ==> v < 2 * c.delay)
      && (draws[i] == 0 ==> v == c.delay)
    decreases |draws|
  {
    if draws != [] {
      RunUnfold(c, attempts, draws);
      ValuesAroundDelay(c, Step(c, attempts, draws[0]).1, draws[1..]);
    }
  }

  // ---------------------------------------------------------------------
  // The sequences the source's own tests expect

  /** The default builder yields 1s three times, then `None`. */
  lemma DefaultSequence(u: seq<Draw>)
    requires |u| == 4
    ensures Safe(ConfigOf(New()), 0, u)
    ensures Run(ConfigOf(New()), 0, u).0 == [Some(Secs(1)), Some(Secs(1)), Some(Secs(1)), None]
  {
    var c := ConfigOf(New());
    SafeWhenDoubleFits(c, 0, u);
    ExactlyMaxTimes(c, 0, u);
    ValuesAroundDelay(c, 0, u);
  }

  /** A delay of 2s: 2s three times, then `None`. */
  lemma WithDelaySequence(u: seq<Draw>)
    requires |u| == 4
    ensures Safe(ConfigOf(WithDelay(New(), Secs(2))), 0, u)
    ensures Run(ConfigOf(WithDelay(New(), Secs(2))), 0, u).0 == [Some(Secs(2)), Some(Secs(2)), Some(Secs(2)), None]
  {
    var c := ConfigOf(WithDelay(New(), Secs(2)));
    SafeWhenDoubleFits(c, 0, u);
    ExactlyMaxTimes(c, 0, u);
    ValuesAroundDelay(c, 0, u);
  }

  /** One attempt: 1s, then `None`. */
  lemma OneTimeSequence(u: seq<Draw>)
    requires |u| == 2
    ensures Safe(ConfigOf(WithMaxTimes(New(), 1)), 0, u)
    ensures Run(ConfigOf(WithMaxTimes(New(), 1)), 0, u).0 == [Some(Secs(1)), None]
  {
    var c := ConfigOf(WithMaxTimes(New(), 1));
    SafeWhenDoubleFits(c, 0, u);
    ExactlyMaxTimes(c, 0, u);
    ValuesAroundDelay(c, 0, u);
  }

  /** With jitter the first value is at least 1s, and above it unless the draw is zero. */
  lemma JitterFirstValue(u: seq<Draw>)
    requires |u| >= 1
    ensures Safe(ConfigOf(WithJitter(New())), 0, u)
    ensures var out := Run(ConfigOf(WithJitter(New())), 0, u).0;
      out[0].Some? && Secs(1) <= out[0].value < Secs(2) && (u[0] > 0 ==> out[0].value > Secs(1))
  {
    var c := ConfigOf(WithJitter(New()));
    SafeWhenDoubleFits(c, 0, u);
    ExactlyMaxTimes(c, 0, u);
    ValuesAroundDelay(c, 0, u);
    RunUnfold(c, 0, u);
    if u[0] > 0 {
      JitterPositive(Secs(1), u[0]);
    }
  }

  /** A draw of at least one step scales a delay of at least a second to a positive jitter. */
  lemma JitterPositive(d: Duration, u: Draw)
    requires d >= DRAW_SPAN && u > 0
    ensures Jitter(d, u) > 0
  {
    MulLeftMonotone(d, 1, u);
  }

  /** Without `max_times`, the default delay is yielded on every call. */
  lemma UnlimitedSequence(u: seq<Draw>)
    ensures Safe(ConfigOf(WithoutMaxTimes(New())), 0, u)
    ensures forall i | 0 <= i < |u| :: Run(ConfigOf(WithoutMaxTimes(New())), 0, u).0[i] == Some(Secs(1))
  {
    var c := ConfigOf(WithoutMaxTimes(New()));
    SafeWhenDoubleFits(c, 0, u);
    UnlimitedNeverStops(c, 0, u);
    ValuesAroundDelay(c, 0, u);
  }

  // ---------------------------------------------------------------------
  // The iterator

  class ConstantBackoff {
    const config: ConstantConfig

    var attempts: Usize

    /** `BackoffBuilder::build`: the builder's settings and no attempts. */
    constructor Build(b: ConstantBuilder)
      ensures config == ConfigOf(b)
      ensures attempts == 0
    {
      config := ConfigOf(b);
      attempts := 0;
    }

    /** The `delay` closure of `next`, evaluated only on the calls that yield. */
    function Delay(u: Draw): (d: Duration)
      requires !config.jitter || config.delay + Jitter(config.delay, u) <= MAX
      ensures config.delay <= d <= 2 * config.delay
    {
      if config.jitter then config.delay + Jitter(config.delay, u) else config.delay
    }

    /** `Iterator::next`, where `u` is the value the random generator would draw. */
    method Next(u: Draw) returns (r: Option<Duration>)
      requires !Panics(config, attempts, u)
      modifies this
      ensures (r, attempts) == Step(config, old(attempts), u)
    {
      match config.maxTimes {
        case None =>
          r := Some(Delay(u));
        case Some(maxTimes) =>
          if attempts >= maxTimes {
            r := None;
          } else {
            attempts := attempts + 1;
            r := Some(Delay(u));
          }
      }
    }
  }
}
