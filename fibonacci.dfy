/**
 * The Fibonacci backoff of the current crate: `FibonacciBuilder` and the
 * `FibonacciBackoff` it builds, whose `next` adds the previous delay to the
 * current one until the current one reaches the maximum delay, and adds
 * jitter scaled by the minimum delay.
 */
module Fibonacci {
  import opened Wrappers
  import opened Backoff

  datatype FibonacciBuilder = FibonacciBuilder(
    jitter: bool,
    seed: Option<U64>,
    minDelay: Duration,
    maxDelay: Option<Duration>,
    maxTimes: Option<Usize>)

  /** The settings a built backoff copies from its builder: all of them but the seed. */
  datatype FibonacciConfig = FibonacciConfig(
    jitter: bool,
    minDelay: Duration,
    maxDelay: Option<Duration>,
    maxTimes: Option<Usize>)

  /** `FibonacciBuilder::new` (and `Default`): 1s up to 60s, three times, no jitter. */
  function New(): FibonacciBuilder
  {
    FibonacciBuilder(false, None, Secs(1), Some(Secs(60)), Some(3))
  }

  function WithJitter(b: FibonacciBuilder): (r: FibonacciBuilder)
    ensures r.jitter && r.(jitter := b.jitter) == b
  {
    b.(jitter := true)
  }

  function WithJitterSeed(b: FibonacciBuilder, seed: U64): (r: FibonacciBuilder)
    ensures r.seed == Some(seed) && r.(seed := b.seed) == b
  {
    b.(seed := Some(seed))
  }

  function WithMinDelay(b: FibonacciBuilder, minDelay: Duration): (r: FibonacciBuilder)
    ensures r.minDelay == minDelay && r.(minDelay := b.minDelay) == b
  {
    b.(minDelay := minDelay)
  }

  function WithMaxDelay(b: FibonacciBuilder, maxDelay: Duration): (r: FibonacciBuilder)
    ensures r.maxDelay == Some(maxDelay) && r.(maxDelay := b.maxDelay) == b
  {
    b.(maxDelay := Some(maxDelay))
  }

  function WithoutMaxDelay(b: FibonacciBuilder): (r: FibonacciBuilder)
    ensures r.maxDelay == None && r.(maxDelay := b.maxDelay) == b
  {
    b.(maxDelay := None)
  }

  function WithMaxTimes(b: FibonacciBuilder, maxTimes: Usize): (r: FibonacciBuilder)
    ensures r.maxTimes == Some(maxTimes) && r.(maxTimes := b.maxTimes) == b
  {
    b.(maxTimes := Some(maxTimes))
  }

  function WithoutMaxTimes(b: FibonacciBuilder): (r: FibonacciBuilder)
    ensures r.maxTimes == None && r.(maxTimes := b.maxTimes) == b
  {
    b.(maxTimes := None)
  }

  /** The settings `build` copies into the backoff. */
  function ConfigOf(b: FibonacciBuilder): FibonacciConfig
  {
    FibonacciConfig(b.jitter, b.minDelay, b.maxDelay, b.maxTimes)
  }

  /** The fields of `FibonacciBackoff` that `next` changes. */
  datatype FibonacciState = FibonacciState(
    previousDelay: Option<Duration>,
    currentDelay: Option<Duration>,
    attempts: Usize)

  const Initial := FibonacciState(None, None, 0)

  /**
   * The delay `next` yields before jitter, and the state it leaves, for a
   * call that is within the attempt limit. The first call records
   * `min_delay`; later calls below the maximum delay add the previous delay
   * (saturating) and shift the old current delay into `previous_delay`; at
   * or above the maximum delay nothing moves.
   */
  function Advance(c: FibonacciConfig, s: FibonacciState): (Duration, FibonacciState)
    requires s.attempts < AttemptLimit(c.maxTimes)
  {
    var attempts: Usize := s.attempts + 1;
    match s.currentDelay
    case None => (c.minDelay, s.(currentDelay := Some(c.minDelay), attempts := attempts))
    case Some(cur) =>
      if cur < DelayCap(c.maxDelay) then
        match s.previousDelay
        case None => (cur, s.(previousDelay := Some(cur), attempts := attempts))
        case Some(prev) =>
          var next := SatAdd(cur, prev);
          (next, FibonacciState(Some(cur), Some(next), attempts))
      else (cur, s.(attempts := attempts))
  }

  /**
   * The jitter is added with `Duration`'s `+=`, which panics when the sum
   * exceeds `Duration::MAX`: the call is defined only when this is false.
   */
  predicate Panics(c: FibonacciConfig, s: FibonacciState, u: Draw)
  {
    s.attempts < AttemptLimit(c.maxTimes) && c.jitter && Advance(c, s).0 + Jitter(c.minDelay, u) > MAX
  }

  /** `FibonacciBackoff::next` for the random draw `u`: the value yielded and the state afterwards. */
  function Step(c: FibonacciConfig, s: FibonacciState, u: Draw): (Option<Duration>, FibonacciState)
    requires !Panics(c, s, u)
  {
    if s.attempts >= AttemptLimit(c.maxTimes) then (None, s)
    else
      var (d, s1) := Advance(c, s);
      (Some(if c.jitter then d + Jitter(c.minDelay, u) else d), s1)
  }

  /** No call of the run panics. */
  predicate Safe(c: FibonacciConfig, s: FibonacciState, draws: seq<Draw>)
    decreases |draws|
  {
    draws == [] || (!Panics(c, s, draws[0]) && Safe(c, Step(c, s, draws[0]).1, draws[1..]))
  }

  /** Successive calls of `next`, one per draw: the values yielded and the final state. */
  function Run(c: FibonacciConfig, s: FibonacciState, draws: seq<Draw>): (r: (seq<Option<Duration>>, FibonacciState))
    requires Safe(c, s, draws)
    ensures |r.0| == |draws|
    decreases |draws|
  {
    if draws == [] then ([], s)
    else
      var (o, s1) := Step(c, s, draws[0]);
      var (rest, last) := Run(c, s1, draws[1..]);
      ([o] + rest, last)
  }

  lemma RunUnfold(c: FibonacciConfig, s: FibonacciState, draws: seq<Draw>)
    requires draws != [] && Safe(c, s, draws)
    ensures !Panics(c, s, draws[0]) && Safe(c, Step(c, s, draws[0]).1, draws[1..])
    ensures Run(c, s, draws).0 == [Step(c, s, draws[0]).0] + Run(c, Step(c, s, draws[0]).1, draws[1..]).0
    ensures Run(c, s, draws).1 == Run(c, Step(c, s, draws[0]).1, draws[1..]).1
  {
  }

  // ---------------------------------------------------------------------
  // Panics

  /** Without jitter nothing is added, so no call panics. */
  lemma {:induction false} SafeWithoutJitter(c: FibonacciConfig, s: FibonacciState, draws: seq<Draw>)
    requires !c.jitter
    ensures Safe(c, s, draws)
    decreases |draws|
  {
    if draws != [] {
      SafeWithoutJitter(c, Step(c, s, draws[0]).1, draws[1..]);
    }
  }

  /**
   * What every reachable state satisfies: the previous delay never exceeds
   * the current one, and a current delay other than `min_delay` was grown
   * from one below the maximum, so it stays below twice the maximum.
   */
  predicate Inv(c: FibonacciConfig, s: FibonacciState)
  {
    && (s.previousDelay.Some? ==> s.currentDelay.Some? && s.previousDelay.value <= s.currentDelay.value)
    && (s.currentDelay.Some? ==> s.currentDelay.value == c.minDelay || s.currentDelay.value < 2 * DelayCap(c.maxDelay))
  }

  /**
   * A call keeps the invariant, and the value it yields before jitter is the
   * current delay it leaves recorded.
   */
  lemma AdvanceKeepsInv(c: FibonacciConfig, s: FibonacciState)
    requires Inv(c, s) && s.attempts < AttemptLimit(c.maxTimes)
    ensures Inv(c, Advance(c, s).1)
    ensures Advance(c, s).1.currentDelay == Some(Advance(c, s).0)
    ensures Advance(c, s).1.attempts == s.attempts + 1
  {
  }

  /**
   * With a maximum delay `m`, no un-jittered value exceeds the larger of
   * `min_delay` and `2m`; so when that plus `min_delay` fits in a Duration,
   * the jittered `+=` never panics.
   */
  lemma {:induction false} SafeUnderCap(c: FibonacciConfig, s: FibonacciState, draws: seq<Draw>)
    requires Inv(c, s)
    requires c.maxDelay.Some? && c.minDelay + 2 * c.maxDelay.value <= MAX && 2 * c.minDelay <= MAX
    ensures Safe(c, s, draws)
    decreases |draws|
  {
    if draws != [] {
      if s.attempts < AttemptLimit(c.maxTimes) {
        AdvanceKeepsInv(c, s);
      }
      SafeUnderCap(c, Step(c, s, draws[0]).1, draws[1..]);
    }
  }

  // ---------------------------------------------------------------------
  // Attempts

  /** Once `attempts` has reached the limit, every call yields `None` and changes nothing. */
  lemma {:induction false} ExhaustedForever(c: FibonacciConfig, s: FibonacciState, draws: seq<Draw>)
    requires s.attempts >= AttemptLimit(c.maxTimes)
    ensures Safe(c, s, draws)
    ensures forall i | 0 <= i < |draws| :: Run(c, s, draws).0[i] == None
    ensures Run(c, s, draws).1 == s
    decreases |draws|
  {
    if draws != [] {
      ExhaustedForever(c, s, draws[1..]);
    }
  }

  /** Call i yields a value exactly when fewer than `max_times` attempts precede it. */
  lemma {:induction false} ExactlyMaxTimes(c: FibonacciConfig, s: FibonacciState, draws: seq<Draw>)
    requires Safe(c, s, draws)
    ensures forall i | 0 <= i < |draws| :: Run(c, s, draws).0[i].Some? <==> s.attempts + i < AttemptLimit(c.maxTimes)
    decreases |draws|
  {
    if draws != [] {
      RunUnfold(c, s, draws);
      ExactlyMaxTimes(c, Step(c, s, draws[0]).1, draws[1..]);
    }
  }

  // ---------------------------------------------------------------------
  // Values

  function Fib(n: nat): nat
  {
    if n == 0 then 0 else if n == 1 then 1 else Fib(n - 1) + Fib(n - 2)
  }

  lemma {:induction false} FibMonotone(a: nat, b: nat)
    requires a <= b
    ensures Fib(a) <= Fib(b)
    decreases b
  {
    if a < b {
      FibMonotone(a, b - 1);
    }
  }

  /**
   * From a state that holds `min_delay` times two consecutive Fibonacci
   * numbers (or, after one call, `min_delay` alone), each further call yields
   * `min_delay` times the next Fibonacci number, as long as those stay below
   * the maximum delay and within the attempt limit.
   */
  lemma {:induction false} FibonacciFrom(c: FibonacciConfig, s: FibonacciState, k: nat, draws: seq<Draw>)
    requires !c.jitter && k >= 1
    requires s.attempts + |draws| <= AttemptLimit(c.maxTimes)
    requires c.minDelay * Fib(k + |draws|) < DelayCap(c.maxDelay)
    requires s.currentDelay == Some(c.minDelay * Fib(k))
    requires s.previousDelay == if k == 1 then None else Some(c.minDelay * Fib(k - 1))
    ensures Safe(c, s, draws)
    ensures forall i | 0 <= i < |draws| :: Run(c, s, draws).0[i] == Some(c.minDelay * Fib(k + i + 1))
    decreases |draws|
  {
    SafeWithoutJitter(c, s, draws);
    if draws != [] {
      FibMonotone(k + 1, k + |draws|);
      MulLeftMonotone(c.minDelay, Fib(k + 1), Fib(k + |draws|));
      FibStep(c, s, k, draws[0]);
      var s1 := Step(c, s, draws[0]).1;
      FibonacciFrom(c, s1, k + 1, draws[1..]);
      RunUnfold(c, s, draws);
    }
  }

  /** One call of `FibonacciFrom`: the next Fibonacci multiple is yielded and recorded. */
  lemma FibStep(c: FibonacciConfig, s: FibonacciState, k: nat, u: Draw)
    requires !c.jitter && k >= 1
    requires s.attempts < AttemptLimit(c.maxTimes)
    requires c.minDelay * Fib(k + 1) < DelayCap(c.maxDelay)
    requires s.currentDelay == Some(c.minDelay * Fib(k))
    requires s.previousDelay == if k == 1 then None else Some(c.minDelay * Fib(k - 1))
    ensures !Panics(c, s, u)
    ensures Step(c, s, u).0 == Some(c.minDelay * Fib(k + 1))
    ensures Step(c, s, u).1 == FibonacciState(Some(c.minDelay * Fib(k)), Some(c.minDelay * Fib(k + 1)), s.attempts + 1)
  {
    var m := c.minDelay;
    FibMonotone(k, k + 1);
    MulLeftMonotone(m, Fib(k), Fib(k + 1));
    if k > 1 {
      assert Fib(k + 1) == Fib(k) + Fib(k - 1);
      assert m * Fib(k + 1) == m * Fib(k) + m * Fib(k - 1);
    }
  }

  /**
   * Without jitter, a fresh backoff yields `min_delay` times the Fibonacci
   * numbers 1, 1, 2, 3, 5, ... as long as they stay below the maximum delay.
   */
  lemma FibonacciNumbers(c: FibonacciConfig, draws: seq<Draw>)
    requires !c.jitter && |draws| <= AttemptLimit(c.maxTimes)
    requires c.minDelay * Fib(|draws|) < DelayCap(c.maxDelay)
    ensures Safe(c, Initial, draws)
    ensures forall i | 0 <= i < |draws| :: Run(c, Initial, draws).0[i] == Some(c.minDelay * Fib(i + 1))
  {
    SafeWithoutJitter(c, Initial, draws);
    if draws != [] {
      var s1 := Step(c, Initial, draws[0]).1;
      assert s1 == FibonacciState(None, Some(c.minDelay * Fib(1)), 1);
      FibonacciFrom(c, s1, 1, draws[1..]);
      RunUnfold(c, Initial, draws);
    }
  }

  /**
   * The value a call yields after the values `x` and then `y`: their
   * saturating sum while `y` is below the maximum delay, otherwise `y` again.
   */
  function Following(c: FibonacciConfig, x: Duration, y: Duration): Duration
  {
    if y < DelayCap(c.maxDelay) then SatAdd(y, x) else y
  }

  /** From the third value on, each value comes with the two before it and follows them. */
  predicate Recurs(c: FibonacciConfig, out: seq<Option<Duration>>)
  {
    forall j | 2 <= j < |out| :: out[j].Some? ==>
      && out[j - 1].Some? && out[j - 2].Some?
      && out[j].value == Following(c, out[j - 2].value, out[j - 1].value)
  }

  lemma RecursCons(c: FibonacciConfig, v: Option<Duration>, t: seq<Option<Duration>>)
    requires Recurs(c, t) && |t| >= 2
    requires t[1].Some? ==> t[0].Some? && v.Some? && t[1].value == Following(c, v.value, t[0].value)
    ensures Recurs(c, [v] + t)
  {
    var out := [v] + t;
    forall j | 2 <= j < |out| && out[j].Some?
      ensures out[j - 1].Some? && out[j - 2].Some? && out[j].value == Following(c, out[j - 2].value, out[j - 1].value)
    {
      assert out[j] == t[j - 1] && out[j - 1] == t[j - 2];
      if j > 2 {
        assert out[j - 2] == t[j - 3];
      }
    }
  }

  lemma RecursTail(c: FibonacciConfig, t: seq<Option<Duration>>)
    requires Recurs(c, t) && |t| >= 1
    ensures Recurs(c, t[1..])
  {
    var out := t[1..];
    forall j | 2 <= j < |out| && out[j].Some?
      ensures out[j - 1].Some? && out[j - 2].Some? && out[j].value == Following(c, out[j - 2].value, out[j - 1].value)
    {
      assert out[j] == t[j + 1] && out[j - 1] == t[j] && out[j - 2] == t[j - 1];
    }
  }

  /**
   * From a state that holds `b` as its current delay, and `a` as its previous
   * one whenever `b` is below the maximum delay (or no previous one, with `a`
   * zero, as after the first call), the values yielded without jitter follow
   * the recurrence, counting `a` and `b` as the two values before the first.
   */
  lemma {:induction false} FollowingFrom(c: FibonacciConfig, s: FibonacciState, a: Duration, b: Duration, draws: seq<Draw>)
    requires !c.jitter
    requires s.currentDelay == Some(b)
    requires b < DelayCap(c.maxDelay) ==> s.previousDelay == Some(a) || (s.previousDelay == None && a == 0)
    ensures Safe(c, s, draws)
    ensures Recurs(c, [Some(a), Some(b)] + Run(c, s, draws).0)
    decreases |draws|
  {
    SafeWithoutJitter(c, s, draws);
    var out := Run(c, s, draws).0;
    var full := [Some(a), Some(b)] + out;
    if s.attempts >= AttemptLimit(c.maxTimes) {
      ExhaustedForever(c, s, draws);
      assert forall j | 2 <= j < |full| :: full[j] == out[j - 2];
    } else if draws != [] {
      var (o, s1) := Step(c, s, draws[0]);
      assert o == Some(Following(c, a, b));
      FollowingFrom(c, s1, b, o.value, draws[1..]);
      RunUnfold(c, s, draws);
      var rest := Run(c, s1, draws[1..]).0;
      assert full == [Some(a)] + ([Some(b), o] + rest);
      RecursCons(c, Some(a), [Some(b), o] + rest);
    }
  }

  /**
   * Without jitter, for any maximum delay and attempt limit, a fresh backoff
   * yields `min_delay` on its first two calls, and every later value is the
   * saturating sum of the two before it while the one just before is below
   * the maximum delay, and that one again once it has reached it: the call
   * that crosses the maximum yields its sum unclamped, and the value then
   * stays put.
   */
  lemma SumOfTheTwoBefore(c: FibonacciConfig, draws: seq<Draw>)
    requires !c.jitter
    ensures Safe(c, Initial, draws)
    ensures var out := Run(c, Initial, draws).0;
      && (|draws| > 0 && out[0].Some? ==> out[0].value == c.minDelay)
      && (|draws| > 1 && out[1].Some? ==> out[0].Some? && out[1].value == c.minDelay)
      && Recurs(c, out)
  {
    SafeWithoutJitter(c, Initial, draws);
    if AttemptLimit(c.maxTimes) == 0 {
      ExhaustedForever(c, Initial, draws);
    } else if draws != [] {
      var (o0, s1) := Step(c, Initial, draws[0]);
      RunUnfold(c, Initial, draws);
      var out1 := Run(c, s1, draws[1..]).0;
      FollowingFrom(c, s1, 0, c.minDelay, draws[1..]);
      var full := [Some(0), Some(c.minDelay)] + out1;
      RecursTail(c, full);
      assert Run(c, Initial, draws).0 == full[1..];
      assert |draws| > 1 ==> full[2] == out1[0];
    }
  }

  /** With a zero minimum delay and no attempt limit, every call yields zero. */
  lemma ZeroMinDelayYieldsZero(draws: seq<Draw>)
    requires |draws| <= U64_MAX
    ensures var c := ConfigOf(WithoutMaxTimes(WithMinDelay(New(), 0)));
      Safe(c, Initial, draws) && forall i | 0 <= i < |draws| :: Run(c, Initial, draws).0[i] == Some(0)
  {
    var c := ConfigOf(WithoutMaxTimes(WithMinDelay(New(), 0)));
    FibonacciNumbers(c, draws);
  }

  /**
   * A current delay at or above the maximum is frozen: without jitter every
   * further value is that delay, and only `attempts` moves.
   */
  lemma {:induction false} FrozenAtMaxDelay(c: FibonacciConfig, s: FibonacciState, draws: seq<Draw>)
    requires !c.jitter && s.currentDelay.Some? && s.currentDelay.value >= DelayCap(c.maxDelay)
    ensures Safe(c, s, draws)
    ensures forall i | 0 <= i < |draws| :: Run(c, s, draws).0[i].Some? ==> Run(c, s, draws).0[i] == s.currentDelay
    ensures Run(c, s, draws).1.(attempts := s.attempts) == s
    decreases |draws|
  {
    SafeWithoutJitter(c, s, draws);
    if draws != [] {
      var s1 := Step(c, s, draws[0]).1;
      FrozenAtMaxDelay(c, s1, draws[1..]);
      RunUnfold(c, s, draws);
    }
  }

  /**
   * Jitter never compounds: a jittered run passes through the same states as
   * the run without jitter, and each jittered value lies in [d, d + min_delay)
   * around the un-jittered value d of the same call.
   */
  lemma {:induction false} JitterBounds(c: FibonacciConfig, s: FibonacciState, draws: seq<Draw>)
    requires Safe(c, s, draws)
    ensures Safe(c.(jitter := false), s, draws)
    ensures var out := Run(c, s, draws).0;
      var base := Run(c.(jitter := false), s, draws).0;
      forall i | 0 <= i < |draws| ::
        && (out[i].Some? <==> base[i].Some?)
        && (out[i].Some? ==> base[i].value <= out[i].value <= base[i].value + c.minDelay)
        && (out[i].Some? && c.minDelay > 0 ==> out[i].value < base[i].value + c.minDelay)
    ensures Run(c, s, draws).1 == Run(c.(jitter := false), s, draws).1
    decreases |draws|
  {
    var c0 := c.(jitter := false);
    SafeWithoutJitter(c0, s, draws);
    if draws != [] {
      RunUnfold(c, s, draws);
      RunUnfold(c0, s, draws);
      assert Step(c, s, draws[0]).1 == Step(c0, s, draws[0]).1;
      JitterBounds(c, Step(c, s, draws[0]).1, draws[1..]);
    }
  }

  // ---------------------------------------------------------------------
  // The sequences the source's own tests expect

  /** The default builder yields 1s, 1s, 2s, then `None`. */
  lemma DefaultSequence(u: seq<Draw>)
    requires |u| == 4
    ensures Safe(ConfigOf(New()), Initial, u)
    ensures Run(ConfigOf(New()), Initial, u).0 == [Some(Secs(1)), Some(Secs(1)), Some(Secs(2)), None]
  {
    var c := ConfigOf(New());
    SafeWithoutJitter(c, Initial, u);
    FibonacciNumbers(c, u[..3]);
    ExactlyMaxTimes(c, Initial, u);
    assert Fib(3) == 2;
    RunPrefix(c, Initial, u, 3);
  }

  /** With jitter, the default builder yields a value in [1s, 2s) twice, one in [2s, 3s), then `None`. */
  lemma JitterSequence(u: seq<Draw>)
    requires |u| == 4
    ensures Safe(ConfigOf(WithJitter(New())), Initial, u)
    ensures var out := Run(ConfigOf(WithJitter(New())), Initial, u).0;
      && out[0].Some? && Secs(1) <= out[0].value < Secs(2)
      && out[1].Some? && Secs(1) <= out[1].value < Secs(2)
      && out[2].Some? && Secs(2) <= out[2].value < Secs(3)
      && out[3] == None
  {
    var c := ConfigOf(WithJitter(New()));
    SafeUnderCap(c, Initial, u);
    JitterBounds(c, Initial, u);
    assert c.(jitter := false) == ConfigOf(New());
    DefaultSequence(u);
  }

  /** Four attempts with a maximum delay of 2s: 1s, 1s, 2s, 2s, then `None`. */
  lemma MaxDelaySequence(u: seq<Draw>)
    requires |u| == 5
    ensures Safe(ConfigOf(WithMaxDelay(WithMaxTimes(New(), 4), Secs(2))), Initial, u)
    ensures Run(ConfigOf(WithMaxDelay(WithMaxTimes(New(), 4), Secs(2))), Initial, u).0
      == [Some(Secs(1)), Some(Secs(1)), Some(Secs(2)), Some(Secs(2)), None]
  {
    var c := ConfigOf(WithMaxDelay(WithMaxTimes(New(), 4), Secs(2)));
    SafeWithoutJitter(c, Initial, u);
    var s1 := FibonacciState(None, Some(Secs(1)), 1);
    var s2 := FibonacciState(Some(Secs(1)), Some(Secs(1)), 2);
    var s3 := FibonacciState(Some(Secs(1)), Some(Secs(2)), 3);
    var s4 := FibonacciState(Some(Secs(1)), Some(Secs(2)), 4);
    assert Step(c, Initial, u[0]) == (Some(Secs(1)), s1);
    assert Step(c, s1, u[1]) == (Some(Secs(1)), s2);
    assert Step(c, s2, u[2]) == (Some(Secs(2)), s3);
    assert Step(c, s3, u[3]) == (Some(Secs(2)), s4);
    assert Step(c, s4, u[4]) == (None, s4);
    RunUnfold(c, Initial, u);
    RunUnfold(c, s1, u[1..]);
    RunUnfold(c, s2, u[2..]);
    RunUnfold(c, s3, u[3..]);
    RunUnfold(c, s4, u[4..]);
  }

  /** A minimum delay of 1e19 s without a maximum: it twice, then the sum saturates at Duration::MAX. */
  lemma NoMaxDelaySequence(u: seq<Draw>)
    requires |u| == 5
    ensures Safe(ConfigOf(WithoutMaxDelay(WithMinDelay(WithMaxTimes(New(), 4), Secs(10_000_000_000_000_000_000)))), Initial, u)
    ensures Run(ConfigOf(WithoutMaxDelay(WithMinDelay(WithMaxTimes(New(), 4), Secs(10_000_000_000_000_000_000)))), Initial, u).0
      == [Some(Secs(10_000_000_000_000_000_000)), Some(Secs(10_000_000_000_000_000_000)), Some(MAX), Some(MAX), None]
  {
    var c := ConfigOf(WithoutMaxDelay(WithMinDelay(WithMaxTimes(New(), 4), Secs(10_000_000_000_000_000_000))));
    var d := Secs(10_000_000_000_000_000_000);
    SafeWithoutJitter(c, Initial, u);
    var s1 := FibonacciState(None, Some(d), 1);
    var s2 := FibonacciState(Some(d), Some(d), 2);
    var s3 := FibonacciState(Some(d), Some(MAX), 3);
    var s4 := FibonacciState(Some(d), Some(MAX), 4);
    assert Step(c, Initial, u[0]) == (Some(d), s1);
    assert Step(c, s1, u[1]) == (Some(d), s2);
    assert Step(c, s2, u[2]) == (Some(MAX), s3);
    assert Step(c, s3, u[3]) == (Some(MAX), s4);
    assert Step(c, s4, u[4]) == (None, s4);
    RunUnfold(c, Initial, u);
    RunUnfold(c, s1, u[1..]);
    RunUnfold(c, s2, u[2..]);
    RunUnfold(c, s3, u[3..]);
    RunUnfold(c, s4, u[4..]);
  }

  /** Six attempts: 1s, 1s, 2s, 3s, 5s, 8s, then `None`. */
  lemma MaxTimesSequence(u: seq<Draw>)
    requires |u| == 7
    ensures Safe(ConfigOf(WithMaxTimes(New(), 6)), Initial, u)
    ensures Run(ConfigOf(WithMaxTimes(New(), 6)), Initial, u).0
      == [Some(Secs(1)), Some(Secs(1)), Some(Secs(2)), Some(Secs(3)), Some(Secs(5)), Some(Secs(8)), None]
  {
    var c := ConfigOf(WithMaxTimes(New(), 6));
    SafeWithoutJitter(c, Initial, u);
    assert Fib(6) == 8;
    FibonacciNumbers(c, u[..6]);
    ExactlyMaxTimes(c, Initial, u);
    RunPrefix(c, Initial, u, 6);
  }

  /** Running part of the draws yields the first part of the values. */
  lemma {:induction false} RunPrefix(c: FibonacciConfig, s: FibonacciState, draws: seq<Draw>, n: nat)
    requires n <= |draws| && Safe(c, s, draws)
    ensures Safe(c, s, draws[..n])
    ensures Run(c, s, draws[..n]).0 == Run(c, s, draws).0[..n]
    decreases n
  {
    if n > 0 {
      RunUnfold(c, s, draws);
      assert draws[..n][1..] == draws[1..][..n - 1];
      RunPrefix(c, Step(c, s, draws[0]).1, draws[1..], n - 1);
      RunUnfold(c, s, draws[..n]);
    }
  }

  // ---------------------------------------------------------------------
  // The iterator

  class FibonacciBackoff {
    const config: FibonacciConfig

    var previousDelay: Option<Duration>
    var currentDelay: Option<Duration>
    var attempts: Usize

    function State(): FibonacciState
      reads this
    {
      FibonacciState(previousDelay, currentDelay, attempts)
    }

    /** `BackoffBuilder::build`: the builder's settings, nothing recorded, no attempts. */
    constructor Build(b: FibonacciBuilder)
      ensures config == ConfigOf(b)
      ensures State() == Initial
    {
      config := ConfigOf(b);
      previousDelay := None;
      currentDelay := None;
      attempts := 0;
    }

    /** `Iterator::next`, where `u` is the value the random generator would draw. */
    method Next(u: Draw) returns (r: Option<Duration>)
      requires !Panics(config, State(), u)
      modifies this
      ensures (r, State()) == Step(config, old(State()), u)
    {
      if attempts >= AttemptLimit(config.maxTimes) {
        return None;
      }
      attempts := attempts + 1;

      match currentDelay {
        case None =>
          var next := config.minDelay;
          currentDelay := Some(next);
          if config.jitter {
            next := next + Jitter(config.minDelay, u);
          }
          return Some(next);
        case Some(cur) =>
          var next := cur;
          if next < DelayCap(config.maxDelay) {
            if previousDelay.Some? {
              next := SatAdd(next, previousDelay.value);
              currentDelay := Some(next);
            }
            previousDelay := Some(cur);
          }
          if config.jitter {
            next := next + Jitter(config.minDelay, u);
          }
          return Some(next);
      }
    }
  }
}
