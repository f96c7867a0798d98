/**
 * What every backoff shares: `core::time::Duration` as a count of
 * nanoseconds, 64-bit `usize`, the floating factor of the exponential
 * strategies, the random draw that scales jitter, and the sequence of
 * `Option<Duration>` that a `Backoff` iterator yields.
 */
module Backoff {
  import opened Wrappers

  const NANOS_PER_SEC: nat := 1_000_000_000
  const NANOS_PER_MILLI: nat := 1_000_000

  /** `u64::MAX`, which is also `usize::MAX` on the 64-bit targets modelled here. */
  const U64_MAX: nat := 0xFFFF_FFFF_FFFF_FFFF

  /** `Duration::MAX`: `u64::MAX` seconds and 999_999_999 nanoseconds. */
  const MAX: nat := U64_MAX * NANOS_PER_SEC + (NANOS_PER_SEC - 1)

  type Duration = d: nat | d <= MAX
  type Usize = n: nat | n <= U64_MAX
  type U64 = n: nat | n <= U64_MAX

  function Secs(s: nat): Duration
    requires s <= U64_MAX
  {
    s * NANOS_PER_SEC
  }

  function Millis(ms: nat): Duration
    requires ms <= U64_MAX
  {
    ms * NANOS_PER_MILLI
  }

  /** `Duration::saturating_add`. */
  function SatAdd(a: Duration, b: Duration): Duration
  {
    if a + b <= MAX then a + b else MAX
  }

  /** `max_times.unwrap_or(usize::MAX)`: the number of attempts a backoff allows. */
  function AttemptLimit(maxTimes: Option<Usize>): Usize
  {
    match maxTimes
    case None => U64_MAX
    case Some(n) => n
  }

  /** `max_delay.unwrap_or(Duration::MAX)`. */
  function DelayCap(maxDelay: Option<Duration>): Duration
  {
    match maxDelay
    case None => MAX
    case Some(m) => m
  }

  /**
   * A growth factor. The source holds an `f32`; the model holds the
   * non-negative rational `num / den`, which represents 2.0, 1.5 and 1e10
   * (the factors the source uses) exactly.
   */
  datatype Ratio = Ratio(num: nat, den: nat)
  type Factor = r: Ratio | r.den > 0 witness Ratio(2, 1)

  /** `d` multiplied by `f`, rounded down, before any range check. */
  function Scale(d: nat, f: Factor): nat
  {
    d * f.num / f.den
  }

  /**
   * `saturating_mul` of the exponential backoff: the product converted back to
   * a Duration, or `Duration::MAX` when the conversion fails because the
   * product is out of range.
   */
  function SatMul(d: Duration, f: Factor): (r: Duration)
    ensures r <= Scale(d, f)
    ensures r < Scale(d, f) ==> r == MAX
  {
    if Scale(d, f) <= MAX then Scale(d, f) else MAX
  }

  /** Multiplying by a factor of at least one never shrinks a duration. */
  lemma ScaleGrows(d: nat, f: Factor)
    requires f.num >= f.den
    ensures Scale(d, f) >= d
  {
    var p := d * f.num;
    MulLeftMonotone(d, f.den, f.num);
    assert p >= d * f.den;
    if p / f.den < d {
      MulLeftMonotone(f.den, p / f.den + 1, d);
      assert false;
    }
  }

  /** Multiplying by a fixed factor is monotone. */
  lemma ScaleMonotone(a: nat, b: nat, f: Factor)
    requires a <= b
    ensures Scale(a, f) <= Scale(b, f)
  {
    MulLeftMonotone(f.num, a, b);
    assert a * f.num <= b * f.num;
    DivMonotone(a * f.num, b * f.num, f.den);
  }

  /** `saturating_mul` is monotone in the duration and saturates at `Duration::MAX`. */
  lemma SatMulMonotone(a: Duration, b: Duration, f: Factor)
    requires a <= b
    ensures SatMul(a, f) <= SatMul(b, f)
  {
    ScaleMonotone(a, b, f);
  }

  /** With a factor of at least one, `saturating_mul` never shrinks, and `Duration::MAX` is a fixed point. */
  lemma SatMulGrows(d: Duration, f: Factor)
    requires f.num >= f.den
    ensures SatMul(d, f) >= d
    ensures d == MAX ==> SatMul(d, f) == MAX
  {
    ScaleGrows(d, f);
  }

  lemma MulLeftMonotone(k: nat, a: nat, b: nat)
    requires a <= b
    ensures k * a <= k * b
  {
  }

  lemma DivMonotone(a: nat, b: nat, d: nat)
    requires a <= b && d > 0
    ensures a / d <= b / d
  {
    if a / d > b / d {
      MulLeftMonotone(d, b / d + 1, a / d);
      assert false;
    }
  }

  /**
   * A random draw from `[0, 1)`. The f32 draws of the source are multiples of
   * 2^-23; the draw `u` stands for `u / DRAW_SPAN`.
   */
  const DRAW_SPAN: nat := 0x80_0000
  type Draw = u: nat | u < DRAW_SPAN

  /**
   * `d.mul_f32(U)` for a draw `U` in `[0, 1)`: the jitter term that scale
   * `d` contributes. It is below `d` unless `d` is zero.
   */
  function Jitter(d: Duration, u: Draw): (j: Duration)
    ensures j <= d
    ensures d > 0 ==> j < d
    ensures u == 0 ==> j == 0
  {
    assert d * u <= d * DRAW_SPAN by {
      MulLeftMonotone(d, u, DRAW_SPAN);
    }
    assert d > 0 ==> d * u < d * DRAW_SPAN by {
      if d > 0 {
        assert d * DRAW_SPAN - d * u == d * (DRAW_SPAN - u);
      }
    }
    d * u / DRAW_SPAN
  }

  /** The number of delays among a backoff's outputs. */
  function CountSome(outs: seq<Option<Duration>>): (n: nat)
    ensures n <= |outs|
  {
    if outs == [] then 0 else (if outs[0].Some? then 1 else 0) + CountSome(outs[1..])
  }

  /** The sum of the delays among a backoff's outputs. */
  function SumSome(outs: seq<Option<Duration>>): nat
  {
    if outs == [] then 0 else (if outs[0].Some? then outs[0].value else 0) + SumSome(outs[1..])
  }

  /**
   * What a retry driver takes from a backoff: the delays it yields up to its
   * first `None`, at which point the driver stops asking.
   */
  function TakeDelays(outs: seq<Option<Duration>>): (ds: seq<Duration>)
    ensures |ds| <= |outs|
    ensures forall i | 0 <= i < |ds| :: outs[i] == Some(ds[i])
    ensures |ds| < |outs| ==> outs[|ds|] == None
  {
    if outs == [] || outs[0].None? then [] else [outs[0].value] + TakeDelays(outs[1..])
  }
}
