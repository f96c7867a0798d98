/**
 * The Fibonacci backoff of the older top-level crate (`src/fibonacci.rs`).
 * Its builder and backoff carry the same settings and state as the current
 * one (without a seed); the one difference in `next` is that the previous
 * delay is added with `+=`, which panics on overflow where the current
 * backoff saturates. Wherever it does not panic it yields exactly what the
 * current backoff yields, and the properties proved there carry over.
 */
module LegacyFibonacci {
  import opened Wrappers
  import opened Backoff
  import Fibonacci

  type FibonacciConfig = Fibonacci.FibonacciConfig
  type FibonacciState = Fibonacci.FibonacciState

  datatype FibonacciBuilder = FibonacciBuilder(
    jitter: bool,
    minDelay: Duration,
    maxDelay: Option<Duration>,
    maxTimes: Option<Usize>)

  /** `FibonacciBuilder::default`: 1s up to 60s, three times, no jitter. */
  function Default(): FibonacciBuilder
  {
    FibonacciBuilder(false, Secs(1), Some(Secs(60)), Some(3))
  }

  function WithJitter(b: FibonacciBuilder): (r: FibonacciBuilder)
    ensures r.jitter && r.(jitter := b.jitter) == b
  {
    b.(jitter := true)
  }

  function WithMinDelay(b: FibonacciBuilder, minDelay: Duration): (r: FibonacciBuilder)
    ensures r.minDelay == minDelay && r.(minDelay := b.minDelay) == b
  {
    b.(minDelay := minDelay)
  }

  function WithMaxDelay(b: FibonacciBuilder, maxDelay: Duration): (r: FibonacciBuilder)
    ensures r.maxDelay == Some(maxDelay) && r.(maxDelay := b.maxDelay) == b
  {
    b.(maxDelay := Some(maxDelay))
  }

  function WithMaxTimes(b: FibonacciBuilder, maxTimes: Usize): (r: FibonacciBuilder)
    ensures r.maxTimes == Some(maxTimes) && r.(maxTimes := b.maxTimes) == b
  {
    b.(maxTimes := Some(maxTimes))
  }

  /** The settings `build(&self)` copies into the backoff. */
  function ConfigOf(b: FibonacciBuilder): FibonacciConfig
  {
    Fibonacci.FibonacciConfig(b.jitter, b.minDelay, b.maxDelay, b.maxTimes)
  }

  /** `next += prev` overflows: a call below the maximum delay with a previous delay whose sum exceeds Duration::MAX. */
  predicate AddPanics(c: FibonacciConfig, s: FibonacciState)
  {
    && s.currentDelay.Some? && s.currentDelay.value < DelayCap(c.maxDelay)
    && s.previousDelay.Some? && s.currentDelay.value + s.previousDelay.value > MAX
  }

  /** The delay `next` yields before jitter, and the state it leaves, for a call within the limit. */
  function Advance(c: FibonacciConfig, s: FibonacciState): (Duration, FibonacciState)
    requires s.attempts < AttemptLimit(c.maxTimes) && !AddPanics(c, s)
  {
    var attempts: Usize := s.attempts + 1;
    match s.currentDelay
    case None => (c.minDelay, s.(currentDelay := Some(c.minDelay), attempts := attempts))
    case Some(cur) =>
      if cur < DelayCap(c.maxDelay) then
        match s.previousDelay
        case None => (cur, s.(previousDelay := Some(cur), attempts := attempts))
        case Some(prev) =>
          var next: Duration := cur + prev;
          (next, Fibonacci.FibonacciState(Some(cur), Some(next), attempts))
      else (cur, s.(attempts := attempts))
  }

  /** The addition of the previous delay or of the jitter would overflow: the call panics. */
  predicate Panics(c: FibonacciConfig, s: FibonacciState, u: Draw)
  {
    s.attempts < AttemptLimit(c.maxTimes)
      && (AddPanics(c, s) || (c.jitter && Advance(c, s).0 + Jitter(c.minDelay, u) > MAX))
  }

  /** `FibonacciBackoff::next` for the draw `u` of `fastrand::f32`. */
  function Step(c: FibonacciConfig, s: FibonacciState, u: Draw): (Option<Duration>, FibonacciState)
    requires !Panics(c, s, u)
  {
    if s.attempts >= AttemptLimit(c.maxTimes) then (None, s)
    else
      var (d, s1) := Advance(c, s);
      (Some(if c.jitter then d + Jitter(c.minDelay, u) else d), s1)
  }

  predicate Safe(c: FibonacciConfig, s: FibonacciState, draws: seq<Draw>)
    decreases |draws|
  {
    draws == [] || (!Panics(c, s, draws[0]) && Safe(c, Step(c, s, draws[0]).1, draws[1..]))
  }

  function Run(c: FibonacciConfig, s: FibonacciState, draws: seq<Draw>): (r: (seq<Option<Duration>>, FibonacciState))
    requires Safe(c, s, draws)
    ensures |r.0| == |draws|
    decreases |draws|
  {
    if draws == [] then ([], s)
    else
      var (o, s1) := Step(c, s, draws[0]);
      var (rest, last) := Run(c, s1, draws[1..]);
      ([o] + rest, last)
  }

  /** A call that does not panic does what the current backoff's call does. */
  lemma StepAgrees(c: FibonacciConfig, s: FibonacciState, u: Draw)
    requires !Panics(c, s, u)
    ensures !Fibonacci.Panics(c, s, u)
    ensures Step(c, s, u) == Fibonacci.Step(c, s, u)
  {
  }

  /** A run that does not panic yields what the current backoff yields and ends in the same state. */
  lemma {:induction false} RunAgrees(c: FibonacciConfig, s: FibonacciState, draws: seq<Draw>)
    requires Safe(c, s, draws)
    ensures Fibonacci.Safe(c, s, draws)
    ensures Run(c, s, draws) == Fibonacci.Run(c, s, draws)
    decreases |draws|
  {
    if draws != [] {
      StepAgrees(c, s, draws[0]);
      RunAgrees(c, Step(c, s, draws[0]).1, draws[1..]);
    }
  }

  /**
   * With a maximum delay m, the sums stay below 2m; so when 2m fits in a
   * Duration no sum panics, and when with jitter 2m plus `min_delay` (and
   * twice `min_delay`) fits too, no call panics.
   */
  lemma {:induction false} SafeUnderCap(c: FibonacciConfig, s: FibonacciState, draws: seq<Draw>)
    requires Fibonacci.Inv(c, s)
    requires c.maxDelay.Some? && 2 * c.maxDelay.value <= MAX
    requires c.jitter ==> c.minDelay + 2 * c.maxDelay.value <= MAX && 2 * c.minDelay <= MAX
    ensures Safe(c, s, draws)
    decreases |draws|
  {
    if draws != [] {
      if s.attempts < AttemptLimit(c.maxTimes) {
        assert !AddPanics(c, s);
        Fibonacci.AdvanceKeepsInv(c, s);
        assert Advance(c, s) == Fibonacci.Advance(c, s);
      }
      SafeUnderCap(c, Step(c, s, draws[0]).1, draws[1..]);
    }
  }

  /**
   * While the Fibonacci multiples stay below the maximum delay (or
   * Duration::MAX without one), `next += prev` never overflows: each sum is
   * the next multiple, itself below the cap.
   */
  lemma {:induction false} FibonacciFrom(c: FibonacciConfig, s: FibonacciState, k: nat, draws: seq<Draw>)
    requires !c.jitter && k >= 1
    requires s.attempts + |draws| <= AttemptLimit(c.maxTimes)
    requires c.minDelay * Fibonacci.Fib(k + |draws|) < DelayCap(c.maxDelay)
    requires s.currentDelay == Some(c.minDelay * Fibonacci.Fib(k))
    requires s.previousDelay == if k == 1 then None else Some(c.minDelay * Fibonacci.Fib(k - 1))
    ensures Safe(c, s, draws)
    decreases |draws|
  {
    if draws != [] {
      var m := c.minDelay;
      Fibonacci.FibMonotone(k + 1, k + |draws|);
      MulLeftMonotone(m, Fibonacci.Fib(k + 1), Fibonacci.Fib(k + |draws|));
      if k > 1 {
        assert Fibonacci.Fib(k + 1) == Fibonacci.Fib(k) + Fibonacci.Fib(k - 1);
        assert m * Fibonacci.Fib(k + 1) == m * Fibonacci.Fib(k) + m * Fibonacci.Fib(k - 1);
      }
      assert !AddPanics(c, s);
      Fibonacci.FibStep(c, s, k, draws[0]);
      StepAgrees(c, s, draws[0]);
      FibonacciFrom(c, Step(c, s, draws[0]).1, k + 1, draws[1..]);
    }
  }

  /** Without jitter, a backoff whose growth stays below the maximum delay yields `min_delay` times the Fibonacci numbers. */
  lemma FibonacciNumbers(c: FibonacciConfig, draws: seq<Draw>)
    requires !c.jitter && |draws| <= AttemptLimit(c.maxTimes)
    requires c.minDelay * Fibonacci.Fib(|draws|) < DelayCap(c.maxDelay)
    ensures Safe(c, Fibonacci.Initial, draws)
    ensures forall i | 0 <= i < |draws| :: Run(c, Fibonacci.Initial, draws).0[i] == Some(c.minDelay * Fibonacci.Fib(i + 1))
  {
    if draws != [] {
      var s1 := Step(c, Fibonacci.Initial, draws[0]).1;
      assert s1 == Fibonacci.FibonacciState(None, Some(c.minDelay * Fibonacci.Fib(1)), 1);
      FibonacciFrom(c, s1, 1, draws[1..]);
    }
    RunAgrees(c, Fibonacci.Initial, draws);
    Fibonacci.FibonacciNumbers(c, draws);
  }

  /**
   * From the third value on, each value comes with the two before it and is
   * their plain sum while the one just before is below the maximum delay, and
   * that one again once it has reached it. The sum is unchecked here, so the
   * predicate also says it fits in a Duration.
   */
  predicate Sums(c: FibonacciConfig, out: seq<Option<Duration>>)
  {
    forall j | 2 <= j < |out| :: out[j].Some? ==>
      && out[j - 1].Some? && out[j - 2].Some?
      && out[j].value as int == if out[j - 1].value < DelayCap(c.maxDelay) then out[j - 1].value as int + out[j - 2].value else out[j - 1].value
  }

  lemma SumsCons(c: FibonacciConfig, v: Option<Duration>, t: seq<Option<Duration>>)
    requires Sums(c, t) && |t| >= 2
    requires t[1].Some? ==>
      && t[0].Some? && v.Some?
      && t[1].value as int == if t[0].value < DelayCap(c.maxDelay) then t[0].value as int + v.value else t[0].value
    ensures Sums(c, [v] + t)
  {
    var out := [v] + t;
    forall j | 2 <= j < |out| && out[j].Some?
      ensures out[j - 1].Some? && out[j - 2].Some?
      ensures out[j].value as int == if out[j - 1].value < DelayCap(c.maxDelay) then out[j - 1].value as int + out[j - 2].value else out[j - 1].value
    {
      assert out[j] == t[j - 1] && out[j - 1] == t[j - 2];
      if j > 2 {
        assert out[j - 2] == t[j - 3];
      }
    }
  }

  lemma SumsTail(c: FibonacciConfig, t: seq<Option<Duration>>)
    requires Sums(c, t) && |t| >= 1
    ensures Sums(c, t[1..])
  {
    var out := t[1..];
    forall j | 2 <= j < |out| && out[j].Some?
      ensures out[j - 1].Some? && out[j - 2].Some?
      ensures out[j].value as int == if out[j - 1].value < DelayCap(c.maxDelay) then out[j - 1].value as int + out[j - 2].value else out[j - 1].value
    {
      assert out[j] == t[j + 1] && out[j - 1] == t[j] && out[j - 2] == t[j - 1];
    }
  }

  /**
   * From a state that holds `b` as its current delay, and `a` as its previous
   * one whenever `b` is below the maximum delay (or no previous one, with `a`
   * zero, as after the first call), a run without jitter that does not panic
   * follows the recurrence, counting `a` and `b` as the two values before the
   * first.
   */
  lemma {:induction false} SumsFrom(c: FibonacciConfig, s: FibonacciState, a: Duration, b: Duration, draws: seq<Draw>)
    requires !c.jitter && Safe(c, s, draws)
    requires s.currentDelay == Some(b)
    requires b < DelayCap(c.maxDelay) ==> s.previousDelay == Some(a) || (s.previousDelay == None && a == 0)
    ensures Sums(c, [Some(a), Some(b)] + Run(c, s, draws).0)
    decreases |draws|
  {
    var out := Run(c, s, draws).0;
    var full := [Some(a), Some(b)] + out;
    if s.attempts >= AttemptLimit(c.maxTimes) {
      RunAgrees(c, s, draws);
      Fibonacci.ExhaustedForever(c, s, draws);
      assert forall j | 2 <= j < |full| :: full[j] == out[j - 2];
    } else if draws != [] {
      var (o, s1) := Step(c, s, draws[0]);
      assert !AddPanics(c, s);
      assert o.Some? && o.value as int == if b < DelayCap(c.maxDelay) then b as int + a else b;
      SumsFrom(c, s1, b, o.value, draws[1..]);
      var rest := Run(c, s1, draws[1..]).0;
      assert full == [Some(a)] + ([Some(b), o] + rest);
      SumsCons(c, Some(a), [Some(b), o] + rest);
    }
  }

  /**
   * Without jitter, for any maximum delay and attempt limit, a run that does
   * not panic yields `min_delay` on its first two calls, and every later
   * value is the sum of the two before it while the one just before is below
   * the maximum delay, and that one again once it has reached it; the call
   * that crosses the maximum yields its sum unclamped.
   */
  lemma SumOfTheTwoBefore(c: FibonacciConfig, draws: seq<Draw>)
    requires !c.jitter && Safe(c, Fibonacci.Initial, draws)
    ensures var out := Run(c, Fibonacci.Initial, draws).0;
      && (|draws| > 0 && out[0].Some? ==> out[0].value == c.minDelay)
      && (|draws| > 1 && out[1].Some? ==> out[0].Some? && out[1].value == c.minDelay)
      && Sums(c, out)
  {
    if AttemptLimit(c.maxTimes) == 0 {
      RunAgrees(c, Fibonacci.Initial, draws);
      Fibonacci.ExhaustedForever(c, Fibonacci.Initial, draws);
    } else if draws != [] {
      var (o0, s1) := Step(c, Fibonacci.Initial, draws[0]);
      var out1 := Run(c, s1, draws[1..]).0;
      SumsFrom(c, s1, 0, c.minDelay, draws[1..]);
      var full := [Some(0), Some(c.minDelay)] + out1;
      SumsTail(c, full);
      assert Run(c, Fibonacci.Initial, draws).0 == full[1..];
      assert |draws| > 1 ==> full[2] == out1[0];
    }
  }

  /** The default builder yields 1s, 1s, 2s, then `None`. */
  lemma DefaultSequence(u: seq<Draw>)
    requires |u| == 4
    ensures Safe(ConfigOf(Default()), Fibonacci.Initial, u)
    ensures Run(ConfigOf(Default()), Fibonacci.Initial, u).0 == [Some(Secs(1)), Some(Secs(1)), Some(Secs(2)), None]
  {
    var c := ConfigOf(Default());
    assert c == Fibonacci.ConfigOf(Fibonacci.New());
    SafeUnderCap(c, Fibonacci.Initial, u);
    RunAgrees(c, Fibonacci.Initial, u);
    Fibonacci.DefaultSequence(u);
  }

  /** With jitter: a value in [1s, 2s) twice, one in [2s, 3s), then `None`. */
  lemma JitterSequence(u: seq<Draw>)
    requires |u| == 4
    ensures Safe(ConfigOf(WithJitter(Default())), Fibonacci.Initial, u)
    ensures var out := Run(ConfigOf(WithJitter(Default())), Fibonacci.Initial, u).0;
      && out[0].Some? && Secs(1) <= out[0].value < Secs(2)
      && out[1].Some? && Secs(1) <= out[1].value < Secs(2)
      && out[2].Some? && Secs(2) <= out[2].value < Secs(3)
      && out[3] == None
  {
    var c := ConfigOf(WithJitter(Default()));
    assert c == Fibonacci.ConfigOf(Fibonacci.WithJitter(Fibonacci.New()));
    SafeUnderCap(c, Fibonacci.Initial, u);
    RunAgrees(c, Fibonacci.Initial, u);
    Fibonacci.JitterSequence(u);
  }

  /** Six attempts: 1s, 1s, 2s, 3s, 5s, 8s, then `None`. */
  lemma MaxTimesSequence(u: seq<Draw>)
    requires |u| == 7
    ensures Safe(ConfigOf(WithMaxTimes(Default(), 6)), Fibonacci.Initial, u)
    ensures Run(ConfigOf(WithMaxTimes(Default(), 6)), Fibonacci.Initial, u).0
      == [Some(Secs(1)), Some(Secs(1)), Some(Secs(2)), Some(Secs(3)), Some(Secs(5)), Some(Secs(8)), None]
  {
    var c := ConfigOf(WithMaxTimes(Default(), 6));
    assert c == Fibonacci.ConfigOf(Fibonacci.WithMaxTimes(Fibonacci.New(), 6));
    SafeUnderCap(c, Fibonacci.Initial, u);
    RunAgrees(c, Fibonacci.Initial, u);
    Fibonacci.MaxTimesSequence(u);
  }

  /** Four attempts with a maximum delay of 2s: 1s, 1s, 2s, 2s, then `None`. */
  lemma MaxDelaySequence(u: seq<Draw>)
    requires |u| == 5
    ensures Safe(ConfigOf(WithMaxDelay(WithMaxTimes(Default(), 4), Secs(2))), Fibonacci.Initial, u)
    ensures Run(ConfigOf(WithMaxDelay(WithMaxTimes(Default(), 4), Secs(2))), Fibonacci.Initial, u).0
      == [Some(Secs(1)), Some(Secs(1)), Some(Secs(2)), Some(Secs(2)), None]
  {
    var c := ConfigOf(WithMaxDelay(WithMaxTimes(Default(), 4), Secs(2)));
    assert c == Fibonacci.ConfigOf(Fibonacci.WithMaxDelay(Fibonacci.WithMaxTimes(Fibonacci.New(), 4), Secs(2)));
    SafeUnderCap(c, Fibonacci.Initial, u);
    RunAgrees(c, Fibonacci.Initial, u);
    Fibonacci.MaxDelaySequence(u);
  }

  /**
   * Without a maximum delay the sum that the current backoff saturates
   * panics here: two calls from a minimum delay of 1e19 s leave 1e19 s
   * recorded twice, and the third call's `+=` overflows.
   */
  lemma OverflowPanics()
    ensures var c := Fibonacci.FibonacciConfig(false, Secs(10_000_000_000_000_000_000), None, None);
      var s := Fibonacci.FibonacciState(Some(Secs(10_000_000_000_000_000_000)), Some(Secs(10_000_000_000_000_000_000)), 2);
      && Safe(c, Fibonacci.Initial, [0, 0]) && Run(c, Fibonacci.Initial, [0, 0]).1 == s
      && Panics(c, s, 0) && Fibonacci.Step(c, s, 0).0 == Some(MAX)
  {
    var c := Fibonacci.FibonacciConfig(false, Secs(10_000_000_000_000_000_000), None, None);
    var d := Secs(10_000_000_000_000_000_000);
    var s1 := Fibonacci.FibonacciState(None, Some(d), 1);
    var s2 := Fibonacci.FibonacciState(Some(d), Some(d), 2);
    assert Step(c, Fibonacci.Initial, 0) == (Some(d), s1);
    assert Step(c, s1, 0) == (Some(d), s2);
    assert [0, 0][1..] == [0];
    assert [0][1..] == [];
  }

  class FibonacciBackoff {
    const config: FibonacciConfig

    var previousDelay: Option<Duration>
    var currentDelay: Option<Duration>
    var attempts: Usize

    function State(): FibonacciState
      reads this
    {
      Fibonacci.FibonacciState(previousDelay, currentDelay, attempts)
    }

    /** `BackoffBuilder::build(&self)`: the builder's settings, nothing recorded, no attempts. */
    constructor Build(b: FibonacciBuilder)
      ensures config == ConfigOf(b)
      ensures State() == Fibonacci.Initial
    {
      config := ConfigOf(b);
      previousDelay := None;
      currentDelay := None;
      attempts := 0;
    }

    /** `Iterator::next`, where `u` is the value `fastrand::f32` would draw. */
    method Next(u: Draw) returns (r: Option<Duration>)
      requires !Panics(config, State(), u)
      modifies this
      ensures (r, State()) == Step(config, old(State()), u)
    {
      if attempts >= AttemptLimit(config.maxTimes) {
        return None;
      }
      attempts := attempts + 1;

      match currentDelay {
        case None =>
          var next := config.minDelay;
          currentDelay := Some(next);
          if config.jitter {
            next := next + Jitter(config.minDelay, u);
          }
          return Some(next);
        case Some(cur) =>
          var next := cur;
          if next < DelayCap(config.maxDelay) {
            if previousDelay.Some? {
              next := next + previousDelay.value;
              currentDelay := Some(next);
            }
            previousDelay := Some(cur);
          }
          if config.jitter {
            next := next + Jitter(config.minDelay, u);
          }
          return Some(next);
      }
    }
  }
}
