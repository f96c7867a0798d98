/**
 * The constant backoff of the older top-level crate (`src/constant.rs`): one
 * `ConstantBackoff` value that is both configured by `with_*` and iterated,
 * without jitter. It behaves as the current constant backoff with jitter off.
 */
module LegacyConstant {
  import opened Wrappers
  import opened Backoff
  import Constant

  /** The settings of a `ConstantBackoff`. */
  datatype ConstantConfig = ConstantConfig(delay: Duration, maxTimes: Option<Usize>)

  /** The settings of `ConstantBackoff::default`: 1s, three times. */
  const DefaultConfig := ConstantConfig(Secs(1), Some(3))

  /** `ConstantBackoff::next`: the value yielded and the new `attempts`. */
  function Step(c: ConstantConfig, attempts: Usize): (Option<Duration>, Usize)
  {
    match c.maxTimes
    case None => (Some(c.delay), attempts)
    case Some(maxTimes) =>
      if attempts >= maxTimes then (None, attempts) else (Some(c.delay), attempts + 1)
  }

  /** `n` successive calls of `next`: the values yielded and the final `attempts`. */
  function Run(c: ConstantConfig, attempts: Usize, n: nat): (r: (seq<Option<Duration>>, Usize))
    ensures |r.0| == n
    decreases n
  {
    if n == 0 then ([], attempts)
    else
      var (o, a1) := Step(c, attempts);
      var (rest, last) := Run(c, a1, n - 1);
      ([o] + rest, last)
  }

  /** The current constant backoff with the same delay and limit, and jitter off. */
  function Current(c: ConstantConfig): Constant.ConstantConfig
  {
    Constant.ConstantConfig(c.delay, c.maxTimes, false)
  }

  /** Each call does what the current backoff's call does without jitter, whatever it would draw. */
  lemma {:induction false} RunAgrees(c: ConstantConfig, attempts: Usize, draws: seq<Draw>)
    ensures Constant.Safe(Current(c), attempts, draws)
    ensures Run(c, attempts, |draws|) == Constant.Run(Current(c), attempts, draws)
    decreases |draws|
  {
    Constant.SafeWhenDoubleFits(Current(c), attempts, draws);
    if draws != [] {
      assert Step(c, attempts) == Constant.Step(Current(c), attempts, draws[0]);
      RunAgrees(c, Step(c, attempts).1, draws[1..]);
    }
  }

  /** With `max_times` m, call i yields the delay exactly when fewer than m attempts precede it, and `None` otherwise. */
  lemma ExactlyMaxTimes(c: ConstantConfig, attempts: Usize, n: nat)
    requires c.maxTimes.Some?
    ensures forall i | 0 <= i < n :: Run(c, attempts, n).0[i] == if attempts + i < c.maxTimes.value then Some(c.delay) else None
  {
    var draws := seq(n, i => 0);
    RunAgrees(c, attempts, draws);
    Constant.ExactlyMaxTimes(Current(c), attempts, draws);
    Constant.ValuesAroundDelay(Current(c), attempts, draws);
  }

  /** Without `max_times` (unreachable through the public API) every call yields the delay. */
  lemma Unlimited(c: ConstantConfig, attempts: Usize, n: nat)
    requires c.maxTimes.None?
    ensures forall i | 0 <= i < n :: Run(c, attempts, n).0[i] == Some(c.delay)
    ensures Run(c, attempts, n).1 == attempts
  {
    var draws := seq(n, i => 0);
    RunAgrees(c, attempts, draws);
    Constant.UnlimitedNeverStops(Current(c), attempts, draws);
    Constant.ValuesAroundDelay(Current(c), attempts, draws);
  }

  /** The default backoff yields 1s three times, then `None`. */
  lemma DefaultSequence()
    ensures Run(DefaultConfig, 0, 4).0 == [Some(Secs(1)), Some(Secs(1)), Some(Secs(1)), None]
  {
    ExactlyMaxTimes(DefaultConfig, 0, 4);
  }

  /** A delay of 2s: 2s three times, then `None`. */
  lemma WithDelaySequence()
    ensures Run(DefaultConfig.(delay := Secs(2)), 0, 4).0 == [Some(Secs(2)), Some(Secs(2)), Some(Secs(2)), None]
  {
    ExactlyMaxTimes(DefaultConfig.(delay := Secs(2)), 0, 4);
  }

  /** One attempt: 1s, then `None`. */
  lemma OneTimeSequence()
    ensures Run(DefaultConfig.(maxTimes := Some(1)), 0, 2).0 == [Some(Secs(1)), None]
  {
    ExactlyMaxTimes(DefaultConfig.(maxTimes := Some(1)), 0, 2);
  }

  class ConstantBackoff {
    var delay: Duration
    var maxTimes: Option<Usize>
    var attempts: Usize

    function Config(): ConstantConfig
      reads this
    {
      ConstantConfig(delay, maxTimes)
    }

    /** `ConstantBackoff::default`. */
    constructor Default()
      ensures Config() == DefaultConfig && attempts == 0
    {
      delay := Secs(1);
      maxTimes := Some(3);
      attempts := 0;
    }

    method WithDelay(d: Duration)
      modifies this
      ensures Config() == old(Config()).(delay := d) && attempts == old(attempts)
    {
      delay := d;
    }

    method WithMaxTimes(n: Usize)
      modifies this
      ensures Config() == old(Config()).(maxTimes := Some(n)) && attempts == old(attempts)
    {
      maxTimes := Some(n);
    }

    /** `Iterator::next`. */
    method Next() returns (r: Option<Duration>)
      modifies this
      ensures Config() == old(Config())
      ensures (r, attempts) == Step(old(Config()), old(attempts))
    {
      match maxTimes {
        case None =>
          r := Some(delay);
        case Some(n) =>
          if attempts >= n {
            r := None;
          } else {
            attempts := attempts + 1;
            r := Some(delay);
          }
      }
    }
  }
}
