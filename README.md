# backon, modelled in Dafny

backon is a Rust library that retries a fallible operation. It uses a
*backoff*, an iterator of `Duration`s that says how long to wait before each
retry and when to give up (`None`). This project models the core of the
library:

- **Current-crate backoffs** (`backon/src/backoff/`):
  - `ExponentialBuilder`/`ExponentialBackoff`: a factor, minimum and maximum
    delays, jitter, `max_times` and a total-delay budget;
  - `FibonacciBuilder`/`FibonacciBackoff`;
  - `ConstantBuilder`/`ConstantBackoff`.

  These are in `exponential.dfy`, `fibonacci.dfy` and `constant.dfy`. Shared
  pieces are in `backoff.dfy`: durations, saturating arithmetic, the jitter
  draw, and the attempt limit.
- **Earlier crate layout** (`src/`):
  - the backoffs `Exponential`, `FibonacciBuilder`/`FibonacciBackoff` and
    `ConstantBackoff`, in `legacy_exponential.dfy`, `legacy_fibonacci.dfy`
    and `legacy_constant.dfy`;
  - the synchronous driver `BlockingRetry`, in `blocking_retry.dfy`.
- **The asynchronous driver** `Retry` (`backon/src/retry.rs`), a future whose
  `poll` runs the `Idle → Polling → Sleeping` state machine, in `retry.dfy`.

**Durations.** A `Duration` is a natural number of nanoseconds no greater
than `Duration::MAX`. `usize` is 64 bits wide.

**Factors.** An `f32` factor is an exact ratio `num/den`. `mul_f32` by a
random `f32` in [0, 1) is `d * u / 2^23`, where `u` is the 23-bit draw
passed to `next`.

**Panics.** In the source, `+`, `+=` and `mul_f32` on `Duration` panic on
overflow. The model states this as a `Panics` predicate on the step:
- a step exists only where it does not panic;
- a `Safe` run is one in which no step panics;
- lemmas say when runs are safe.

**Iterators.** Each iterator is a class whose `Next` is proved against a
pure `Step` function of the configuration, the state and the draw. The
properties are then proved about `Run`, which is `Step` iterated.

**Drivers.** Both drivers are modelled as follows:
- The operation is an oracle from the attempt number to its outcome.
- The backoff is the sequence of delays it yields before its first `None`
  (`Backoff.TakeDelays`).
- Everything observable a driver does is recorded in a ghost trace of
  events: invoking the operation, judging an error, asking the backoff,
  notifying, and sleeping.
- Both drivers are proved to do exactly what the reference run
  `RetryTrace.Run` does. That reference run is built from one loop turn,
  `RetryTrace.Attempt`.
- The properties of the drivers are proved about that reference run.

## Model

| member | source | states |
|---|---|---|
| Backoff.SatMul | backon/src/backoff/exponential.rs:256-259 | `saturating_mul` never exceeds the exact product, and falls short of it only by saturating at `Duration::MAX`; partners `Backoff.SatMulMonotone` and `Backoff.SatMulGrows` |
| Backoff.SatMulMonotone | backon/src/backoff/exponential.rs:256-259 | `saturating_mul` by a fixed factor is monotone in the duration |
| Backoff.SatMulGrows | backon/src/backoff/exponential.rs:256-259 | with a factor ≥ 1, `saturating_mul` never shrinks a duration, and `Duration::MAX` is a fixed point |
| Backoff.ScaleGrows | src/exponential.rs:88 | multiplying by a factor ≥ 1 never shrinks a duration |
| Backoff.ScaleMonotone | src/exponential.rs:88 | multiplying by a fixed factor is monotone |
| Backoff.Jitter | backon/src/backoff/exponential.rs:233-235 | `d.mul_f32(u)` for u in [0, 1): at most d, below d when d > 0, and zero for a zero draw |
| Backoff.TakeDelays | backon/src/retry.rs:296-303 | the delays a backoff yields before its first `None`, in order; the output after them is `None` |
| Backoff.SatAdd | backon/src/backoff/exponential.rs:233-234 | `Duration::saturating_add`: the exact sum when it fits, otherwise `Duration::MAX`; its properties are used by `Exponential.JitterStep` and `Exponential.JitterBounds` |
| Backoff.Scale | src/exponential.rs:88 | `Duration::mul_f32` before its range check: the product rounded down; partners `Backoff.ScaleGrows` and `Backoff.ScaleMonotone` |
| Backoff.AttemptLimit | backon/src/backoff/exponential.rs:205 | `max_times.unwrap_or(usize::MAX)`; the attempt lemmas (`ExactlyMaxTimes` and the like) are stated against it |
| Backoff.DelayCap | backon/src/backoff/fibonacci.rs:199 | `max_delay.unwrap_or(Duration::MAX)`; `Fibonacci.FrozenAtMaxDelay`, `Fibonacci.SumOfTheTwoBefore` and `Fibonacci.FibonacciNumbers` are stated against it |
| Exponential.WithJitter | backon/src/backoff/exponential.rs:72-75 | sets `jitter` and changes nothing else |
| Exponential.WithJitterSeed | backon/src/backoff/exponential.rs:78-81 | sets the seed and changes nothing else |
| Exponential.WithFactor | backon/src/backoff/exponential.rs:87-90 | sets the factor and changes nothing else |
| Exponential.WithMinDelay | backon/src/backoff/exponential.rs:93-96 | sets `min_delay` and changes nothing else |
| Exponential.WithMaxDelay | backon/src/backoff/exponential.rs:101-104 | sets `max_delay` to `Some` and changes nothing else |
| Exponential.WithoutMaxDelay | backon/src/backoff/exponential.rs:111-114 | sets `max_delay` to `None` and changes nothing else |
| Exponential.WithMaxTimes | backon/src/backoff/exponential.rs:119-122 | sets `max_times` to `Some` and changes nothing else |
| Exponential.WithoutMaxTimes | backon/src/backoff/exponential.rs:129-132 | sets `max_times` to `None` and changes nothing else |
| Exponential.WithTotalDelay | backon/src/backoff/exponential.rs:138-141 | sets the total-delay budget and changes nothing else |
| Exponential.New | backon/src/backoff/exponential.rs:48-66 | the defaults: jitter off, factor 2, 1s to 60s, three times, no budget, no seed; `Exponential.DefaultSequence` proves what it yields |
| Exponential.ConfigOf | backon/src/backoff/exponential.rs:147-171 | `build`: every setting but the seed is copied; `Exponential.BuildsAgree` proves two builds agree |
| Exponential.Grow | backon/src/backoff/exponential.rs:214-226 | the recorded delay of a later call: multiplied while below the maximum, then cut to it, or saturated without one; partners `Exponential.EachValueGrowsThePrevious`, `Exponential.AtMaxDelayStaysAtMax` |
| Exponential.Unjittered | backon/src/backoff/exponential.rs:209-229 | `min_delay` on the first call, the grown delay afterwards; `Exponential.JitterStep` proves it is what gets recorded |
| Exponential.Jittered | backon/src/backoff/exponential.rs:230-235 | the delay plus `d.mul_f32(u)`, saturating; `Exponential.JitterStep` bounds it to [d, 2d) |
| Exponential.BudgetCheckAsWritten | backon/src/backoff/exponential.rs:237-240 | the total-delay check as written, `None` where `+` panics; partners `Exponential.BudgetCheckAgrees` and `Exponential.BudgetCheckPanicsExample` |
| Exponential.WithinBudget | backon/src/backoff/exponential.rs:237-244 | the total-delay check as documented; `Exponential.BudgetBoundsTotal` proves the budget is never passed |
| Exponential.Step | backon/src/backoff/exponential.rs:204-253 | one call of `next`; its properties are the lemmas about `Exponential.Run` and `Exponential.JitterStep`, and `Exponential.ExponentialBackoff.Next` is proved equal to it |
| Exponential.Run | backon/src/backoff/exponential.rs:204-253 | one output per call of `next` |
| Exponential.ExhaustedForever | backon/src/backoff/exponential.rs:205-208 | once `attempts` reaches the limit, every call yields `None` and leaves the state unchanged |
| Exponential.AtMostMaxTimes | backon/src/backoff/exponential.rs:205-208 | a run yields at most as many values as the attempts left |
| Exponential.ExactlyMaxTimesWithoutBudget | backon/src/backoff/exponential.rs:205-208 | without a budget, call i yields a value iff fewer than `max_times` attempts precede it |
| Exponential.FirstCallYieldsMinDelay | backon/src/backoff/exponential.rs:210-213 | the first call yields `min_delay` and records it, with one attempt counted |
| Exponential.EachValueGrowsThePrevious | backon/src/backoff/exponential.rs:214-226 | without jitter, for any maximum delay and budget, each value following a value is that value grown (`Grow`) |
| Exponential.EachValueScalesThePrevious | backon/src/backoff/exponential.rs:214-226 | without a maximum delay, jitter or budget, each value is the previous one times the factor (saturating) |
| Exponential.CappedAfterFirstCall | backon/src/backoff/exponential.rs:216-223 | with a maximum delay, every value after the first is at most the maximum |
| Exponential.AtMaxDelayStaysAtMax | backon/src/backoff/exponential.rs:216-223 | a delay at or above the maximum is not multiplied; it is cut to the maximum |
| Exponential.SaturatedStaysSaturated | backon/src/backoff/exponential.rs:224-226 | once the recorded delay is `Duration::MAX`, every value is `Duration::MAX`, with or without jitter |
| Exponential.JitterBounds | backon/src/backoff/exponential.rs:230-235 | without a budget, jitter does not change the recorded states, and each jittered value lies in [d, 2d) around the un-jittered d (saturating) |
| Exponential.JitterStep | backon/src/backoff/exponential.rs:229-250 | for every configuration, one call: a value lies in [d, 2d) (saturating) around the un-jittered d, is d without jitter, and d is what gets recorded |
| Exponential.DrawsIrrelevantWithoutJitter | backon/src/backoff/exponential.rs:230-235 | without jitter, the random draws do not affect the run |
| Exponential.BuildsAgree | backon/src/backoff/exponential.rs:147-171 | two backoffs built from one builder without jitter yield identical sequences |
| Exponential.BudgetBoundsTotal | backon/src/backoff/exponential.rs:237-248 | `cumulative_delay` grows by exactly the values yielded and never passes the budget |
| Exponential.BudgetFailureCountsAttempt | backon/src/backoff/exponential.rs:237-244 | a value over budget yields `None`, counts the attempt and records nothing else |
| Exponential.NoBudgetNoCumulative | backon/src/backoff/exponential.rs:246-248 | without a budget, `cumulative_delay` never moves |
| Exponential.BudgetCheckAgrees | backon/src/backoff/exponential.rs:237-240 | where the check as written does not panic it agrees with the documented check; where it panics, the budget is exceeded |
| Exponential.BudgetCheckPanicsExample | backon/src/backoff/exponential.rs:237-240 | a reachable configuration on which the check as written overflows |
| Exponential.DefaultSequence | backon/src/backoff/exponential.rs:279-286 | default builder: 1s, 2s, 4s, `None` |
| Exponential.MinDelaySequence | backon/src/backoff/exponential.rs:318-327 | minimum delay m (4m ≤ 60s): m, 2m, 4m, `None` |
| Exponential.MaxDelaySequence | backon/src/backoff/exponential.rs:360-369 | maximum delay 2s: 1s, 2s, 2s, `None` |
| Exponential.TotalDelaySequence | backon/src/backoff/exponential.rs:330-342 | factor 1 with a 3s budget: three 1s values, then `None` |
| Exponential.NoMaxDelaySequence | backon/src/backoff/exponential.rs:372-385 | factor 1e10 without a maximum: 1s, 1e10 s, `Duration::MAX` twice, `None` |
| Exponential.ExponentialBackoff.Build | backon/src/backoff/exponential.rs:147-171 | the builder's settings, no recorded delay, nothing spent, no attempts |
| Exponential.ExponentialBackoff.Next | backon/src/backoff/exponential.rs:204-253 | the value yielded and the new state are those of `Step` on the old state |
| Fibonacci.WithJitter | backon/src/backoff/fibonacci.rs:66-69 | sets `jitter` and changes nothing else |
| Fibonacci.WithJitterSeed | backon/src/backoff/fibonacci.rs:72-75 | sets the seed and changes nothing else |
| Fibonacci.WithMinDelay | backon/src/backoff/fibonacci.rs:78-81 | sets `min_delay` and changes nothing else |
| Fibonacci.WithMaxDelay | backon/src/backoff/fibonacci.rs:86-89 | sets `max_delay` to `Some` and changes nothing else |
| Fibonacci.WithoutMaxDelay | backon/src/backoff/fibonacci.rs:96-99 | sets `max_delay` to `None` and changes nothing else |
| Fibonacci.WithMaxTimes | backon/src/backoff/fibonacci.rs:104-107 | sets `max_times` to `Some` and changes nothing else |
| Fibonacci.WithoutMaxTimes | backon/src/backoff/fibonacci.rs:114-117 | sets `max_times` to `None` and changes nothing else |
| Fibonacci.New | backon/src/backoff/fibonacci.rs:53-61 | the defaults: jitter off, 1s to 60s, three times, no seed; `Fibonacci.DefaultSequence` proves what it yields |
| Fibonacci.ConfigOf | backon/src/backoff/fibonacci.rs:123-145 | `build`: every setting but the seed is copied |
| Fibonacci.Advance | backon/src/backoff/fibonacci.rs:182-205 | the un-jittered delay and state of a call within the limit; partner `Fibonacci.AdvanceKeepsInv` |
| Fibonacci.Panics | backon/src/backoff/fibonacci.rs:189-191 | the jitter's `+=` overflows; `Fibonacci.SafeWithoutJitter` and `Fibonacci.SafeUnderCap` say when it cannot |
| Fibonacci.Step | backon/src/backoff/fibonacci.rs:176-215 | one call of `next`; its properties are the lemmas about `Fibonacci.Run`, and `Fibonacci.FibonacciBackoff.Next` is proved equal to it |
| Fibonacci.Run | backon/src/backoff/fibonacci.rs:176-215 | one output per call of `next` |
| Fibonacci.SafeWithoutJitter | backon/src/backoff/fibonacci.rs:195-205 | without jitter no call panics (the sum saturates) |
| Fibonacci.AdvanceKeepsInv | backon/src/backoff/fibonacci.rs:182-205 | each call keeps the previous delay at most the current one and the current one `min_delay` or below twice the cap, and records the value it yields |
| Fibonacci.SafeUnderCap | backon/src/backoff/fibonacci.rs:189-191 | with a maximum delay small enough, no jittered call panics |
| Fibonacci.ExhaustedForever | backon/src/backoff/fibonacci.rs:177-180 | once `attempts` reaches the limit, every call yields `None` and leaves the state unchanged |
| Fibonacci.ExactlyMaxTimes | backon/src/backoff/fibonacci.rs:177-180 | call i yields a value iff fewer than `max_times` attempts precede it |
| Fibonacci.FibMonotone | backon/src/backoff/fibonacci.rs:195-205 | the Fibonacci numbers the delays follow are monotone |
| Fibonacci.FibonacciFrom | backon/src/backoff/fibonacci.rs:195-205 | below the cap, the calls after the k-th yield `min_delay` times the next Fibonacci numbers (the closed form; the crossing call and saturation are covered by `Fibonacci.SumOfTheTwoBefore`) |
| Fibonacci.FibStep | backon/src/backoff/fibonacci.rs:195-205 | one such call yields and records the next Fibonacci multiple |
| Fibonacci.FibonacciNumbers | backon/src/backoff/fibonacci.rs:182-205 | without jitter and below the cap, call i yields `min_delay * Fib(i+1)` (the closed form of `Fibonacci.SumOfTheTwoBefore` while no value reaches the cap) |
| Fibonacci.Following | backon/src/backoff/fibonacci.rs:199-205 | the value after x and then y: `y.saturating_add(x)` below the cap, y at or above it; partner `Fibonacci.SumOfTheTwoBefore` |
| Fibonacci.Recurs | backon/src/backoff/fibonacci.rs:196-205 | from the third value on, each value comes with the two before it and is `Following` of them; partner `Fibonacci.SumOfTheTwoBefore` |
| Fibonacci.FollowingFrom | backon/src/backoff/fibonacci.rs:196-205 | from a state holding b as the current delay, and a as the previous one whenever b is below the cap (or none, with a zero, as after the first call), the values follow the recurrence after a and b |
| Fibonacci.SumOfTheTwoBefore | backon/src/backoff/fibonacci.rs:176-205 | without jitter, for any cap and limit: the first two values are `min_delay`; each later value is the saturating sum of the two before it while the one before is below the cap (so the crossing sum is yielded unclamped, and sums past `Duration::MAX` saturate), and that one again once it is at or above the cap |
| Fibonacci.ZeroMinDelayYieldsZero | backon/src/backoff/fibonacci.rs:323-334 | zero minimum delay and no limit: every call yields zero |
| Fibonacci.FrozenAtMaxDelay | backon/src/backoff/fibonacci.rs:196-205 | once the recorded delay reaches the cap, every value is that delay and the state is fixed |
| Fibonacci.JitterBounds | backon/src/backoff/fibonacci.rs:189-191 | jitter does not change the recorded states; each value lies in [d, d + min_delay) around the un-jittered d |
| Fibonacci.DefaultSequence | backon/src/backoff/fibonacci.rs:234-241 | default builder: 1s, 1s, 2s, `None` |
| Fibonacci.JitterSequence | backon/src/backoff/fibonacci.rs:244-260 | with jitter: two values in [1s, 2s), one in [2s, 3s), then `None` |
| Fibonacci.MaxDelaySequence | backon/src/backoff/fibonacci.rs:275-286 | four attempts with a 2s maximum: 1s, 1s, 2s, 2s, `None` |
| Fibonacci.NoMaxDelaySequence | backon/src/backoff/fibonacci.rs:289-307 | minimum delay 1e19 s without a maximum: it twice, then `Duration::MAX` twice, `None` |
| Fibonacci.MaxTimesSequence | backon/src/backoff/fibonacci.rs:310-320 | six attempts: 1, 1, 2, 3, 5, 8 seconds, `None` |
| Fibonacci.FibonacciBackoff.Build | backon/src/backoff/fibonacci.rs:123-145 | the builder's settings, nothing recorded, no attempts |
| Fibonacci.FibonacciBackoff.Next | backon/src/backoff/fibonacci.rs:176-215 | the value yielded and the new state are those of `Step` on the old state |
| Constant.WithDelay | backon/src/backoff/constant.rs:60-63 | sets the delay and changes nothing else |
| Constant.WithMaxTimes | backon/src/backoff/constant.rs:66-69 | sets `max_times` to `Some` and changes nothing else |
| Constant.WithJitter | backon/src/backoff/constant.rs:74-77 | sets `jitter` and changes nothing else |
| Constant.WithJitterSeed | backon/src/backoff/constant.rs:80-83 | sets the seed and changes nothing else |
| Constant.WithoutMaxTimes | backon/src/backoff/constant.rs:90-93 | sets `max_times` to `None` and changes nothing else |
| Constant.New | backon/src/backoff/constant.rs:50-57 | the defaults: 1s, three times, jitter off, no seed; `Constant.DefaultSequence` proves what it yields |
| Constant.ConfigOf | backon/src/backoff/constant.rs:99-118 | `build`: every setting but the seed is copied |
| Constant.Yields | backon/src/backoff/constant.rs:151-161 | a call yields without a limit or below it; partners `Constant.ExactlyMaxTimes`, `Constant.UnlimitedNeverStops` |
| Constant.Panics | backon/src/backoff/constant.rs:147-148 | the jitter's `+` overflows; `Constant.SafeWhenDoubleFits` says when it cannot |
| Constant.Step | backon/src/backoff/constant.rs:146-162 | one call of `next`; its properties are the lemmas about `Constant.Run`, and `Constant.ConstantBackoff.Next` is proved equal to it |
| Constant.Run | backon/src/backoff/constant.rs:146-162 | one output per call of `next` |
| Constant.SafeWhenDoubleFits | backon/src/backoff/constant.rs:147-150 | no call panics when twice the delay fits, in particular without jitter |
| Constant.ExactlyMaxTimes | backon/src/backoff/constant.rs:151-161 | with `max_times` n, call i yields a value iff fewer than n attempts precede it |
| Constant.AttemptsBounded | backon/src/backoff/constant.rs:151-161 | `attempts` never decreases and never passes `max_times` |
| Constant.UnlimitedNeverStops | backon/src/backoff/constant.rs:151-153 | without `max_times`, every call yields a value and `attempts` is untouched |
| Constant.ValuesAroundDelay | backon/src/backoff/constant.rs:147-150 | every value lies between the delay and twice the delay, and equals the delay without jitter |
| Constant.DefaultSequence | backon/src/backoff/constant.rs:180-187 | default builder: 1s three times, `None` |
| Constant.WithDelaySequence | backon/src/backoff/constant.rs:190-199 | delay 2s: 2s three times, `None` |
| Constant.OneTimeSequence | backon/src/backoff/constant.rs:202-207 | one attempt: 1s, `None` |
| Constant.JitterFirstValue | backon/src/backoff/constant.rs:210-216 | with jitter, the first value is at least 1s, and above 1s unless the draw is zero |
| Constant.JitterPositive | backon/src/backoff/constant.rs:147-150 | a non-zero draw gives a positive jitter on a delay of at least a second |
| Constant.UnlimitedSequence | backon/src/backoff/constant.rs:219-225 | without `max_times`, every call yields 1s |
| Constant.ConstantBackoff.Build | backon/src/backoff/constant.rs:99-118 | the builder's settings and no attempts |
| Constant.ConstantBackoff.Delay | backon/src/backoff/constant.rs:147-150 | the `delay` closure: between the delay and twice the delay |
| Constant.ConstantBackoff.Next | backon/src/backoff/constant.rs:146-162 | the value yielded and the new `attempts` are those of `Step` |
| LegacyExponential.Run | src/exponential.rs:63-103 | one output per call of `next` |
| LegacyExponential.Grows | src/exponential.rs:86-87 | a recorded delay is multiplied only when a maximum is set and the delay is below it; partner `LegacyExponential.EachValueFollowsThePrevious` |
| LegacyExponential.MulPanics | src/exponential.rs:88 | `mul_f32` overflows; `LegacyExponential.SafeUnderCap` says when it cannot |
| LegacyExponential.Advance | src/exponential.rs:64-91 | the un-jittered delay and state of a call within the limit; partner `LegacyExponential.AdvanceKeepsInv` |
| LegacyExponential.Panics | src/exponential.rs:76-98 | the multiplication or a jitter `+=` overflows; `LegacyExponential.SafeUnderCap` says when neither can |
| LegacyExponential.Step | src/exponential.rs:63-103 | one call of `next`; its properties are the lemmas about `LegacyExponential.Run`, and `LegacyExponential.Exponential.Next` is proved equal to it |
| LegacyExponential.ExactlyMaxTimes | src/exponential.rs:64-67 | call i yields a value iff fewer than `max_times` attempts precede it |
| LegacyExponential.EachValueFollowsThePrevious | src/exponential.rs:84-91 | without jitter, each value is the previous one times the factor when a maximum is set and the previous value is below it, and is unchanged otherwise |
| LegacyExponential.NeverShrinks | src/exponential.rs:84-91 | with a factor ≥ 1 and no jitter, the delays never shrink |
| LegacyExponential.AdvanceKeepsInv | src/exponential.rs:69-91 | each call keeps the recorded delay `min_delay` or at most the maximum times the factor, and records the un-jittered value |
| LegacyExponential.SafeUnderCap | src/exponential.rs:86-98 | with a maximum small enough that factor × maximum plus jitter fits, no call panics |
| LegacyExponential.OvershootAtMostOneFactor | src/exponential.rs:86-90 | without jitter, every value is `min_delay` or at most the maximum times the factor |
| LegacyExponential.JitterBounds | src/exponential.rs:76-80 | jitter does not change the recorded states; each value lies in [d, d + min_delay) |
| LegacyExponential.DefaultSequence | src/exponential.rs:111-119 | default: 1s, 2s, 4s, `None` |
| LegacyExponential.FactorSequence | src/exponential.rs:121-129 | factor 1.5: 1s, 1.5s, 2.25s, `None` |
| LegacyExponential.JitterSequence | src/exponential.rs:131-148 | with jitter: values in [1s, 2s), [2s, 4s), [4s, 8s), then `None` |
| LegacyExponential.MinDelaySequence | src/exponential.rs:150-158 | minimum delay 500ms: 500ms, 1s, 2s, `None` |
| LegacyExponential.MaxDelaySequence | src/exponential.rs:160-168 | maximum delay 2s: 1s, 2s, 2s, `None` |
| LegacyExponential.OneTimeSequence | src/exponential.rs:170-176 | one attempt: 1s, `None` |
| LegacyExponential.Exponential.Default | src/exponential.rs:16-29 | the default settings, with nothing recorded and no attempts |
| LegacyExponential.Exponential.WithJitter | src/exponential.rs:32-35 | sets `jitter` and keeps everything else |
| LegacyExponential.Exponential.WithFactor | src/exponential.rs:37-42 | sets the factor (the debug assertion demands > 1) and keeps everything else |
| LegacyExponential.Exponential.WithMinDelay | src/exponential.rs:44-47 | sets `min_delay` and keeps everything else |
| LegacyExponential.Exponential.WithMaxDelay | src/exponential.rs:49-52 | sets `max_delay` and keeps everything else |
| LegacyExponential.Exponential.WithMaxTimes | src/exponential.rs:54-57 | sets `max_times` and keeps everything else |
| LegacyExponential.Exponential.Next | src/exponential.rs:63-103 | the value yielded and the new state are those of `Step`; the settings are unchanged |
| LegacyFibonacci.WithJitter | src/fibonacci.rs:60-63 | sets `jitter` and changes nothing else |
| LegacyFibonacci.WithMinDelay | src/fibonacci.rs:66-69 | sets `min_delay` and changes nothing else |
| LegacyFibonacci.WithMaxDelay | src/fibonacci.rs:74-77 | sets `max_delay` and changes nothing else |
| LegacyFibonacci.WithMaxTimes | src/fibonacci.rs:82-85 | sets `max_times` and changes nothing else |
| LegacyFibonacci.Default | src/fibonacci.rs:44-53 | the defaults: jitter off, 1s to 60s, three times; `LegacyFibonacci.DefaultSequence` proves what it yields |
| LegacyFibonacci.ConfigOf | src/fibonacci.rs:88-103 | `build`: every setting copied |
| LegacyFibonacci.AddPanics | src/fibonacci.rs:144-146 | the unchecked `next += prev` overflows; partners `LegacyFibonacci.OverflowPanics`, `LegacyFibonacci.FibonacciFrom` |
| LegacyFibonacci.Advance | src/fibonacci.rs:125-150 | the un-jittered delay and state of a call within the limit |
| LegacyFibonacci.Panics | src/fibonacci.rs:134-155 | the sum or a jitter `+=` overflows; `LegacyFibonacci.SafeUnderCap` says when neither can |
| LegacyFibonacci.Step | src/fibonacci.rs:121-161 | one call of `next`; `LegacyFibonacci.StepAgrees` ties it to the current crate's step, and `LegacyFibonacci.FibonacciBackoff.Next` is proved equal to it |
| LegacyFibonacci.Run | src/fibonacci.rs:121-161 | one output per call of `next` |
| LegacyFibonacci.StepAgrees | src/fibonacci.rs:121-161 | a call that does not panic does what the current crate's `next` does |
| LegacyFibonacci.RunAgrees | src/fibonacci.rs:121-161 | a run that does not panic yields what the current crate's run yields |
| LegacyFibonacci.SafeUnderCap | src/fibonacci.rs:144-155 | with a maximum delay small enough, neither `next += prev` nor the jitter panics |
| LegacyFibonacci.FibonacciNumbers | src/fibonacci.rs:127-150 | without jitter and below the cap, call i yields `min_delay * Fib(i+1)` |
| LegacyFibonacci.FibonacciFrom | src/fibonacci.rs:140-150 | while the Fibonacci multiples stay below the cap, no `next += prev` overflows |
| LegacyFibonacci.Sums | src/fibonacci.rs:138-150 | from the third value on, each value comes with the two before it and is their unchecked sum below the cap, or the one before again at or above it; partner `LegacyFibonacci.SumOfTheTwoBefore` |
| LegacyFibonacci.SumsFrom | src/fibonacci.rs:138-150 | from a state holding b as the current delay, and a as the previous one whenever b is below the cap (or none, with a zero, as after the first call), a run that does not panic follows the recurrence after a and b |
| LegacyFibonacci.SumOfTheTwoBefore | src/fibonacci.rs:121-150 | without jitter, for any cap and limit, a run that does not panic yields `min_delay` twice, then the plain sum of the two values before while the one before is below the cap (the crossing sum unclamped) and that one again once it is at or above the cap |
| LegacyFibonacci.DefaultSequence | src/fibonacci.rs:170-178 | default: 1s, 1s, 2s, `None` |
| LegacyFibonacci.JitterSequence | src/fibonacci.rs:180-197 | with jitter: two values in [1s, 2s), one in [2s, 3s), then `None` |
| LegacyFibonacci.MaxDelaySequence | src/fibonacci.rs:211-223 | four attempts with a 2s maximum: 1s, 1s, 2s, 2s, `None` |
| LegacyFibonacci.MaxTimesSequence | src/fibonacci.rs:225-236 | six attempts: 1, 1, 2, 3, 5, 8 seconds, `None` |
| LegacyFibonacci.OverflowPanics | src/fibonacci.rs:144-148 | without a maximum delay, `next += prev` panics where the current crate saturates |
| LegacyFibonacci.FibonacciBackoff.Build | src/fibonacci.rs:88-103 | the builder's settings, nothing recorded, no attempts |
| LegacyFibonacci.FibonacciBackoff.Next | src/fibonacci.rs:121-161 | the value yielded and the new state are those of `Step` on the old state |
| LegacyConstant.Run | src/constant.rs:67-79 | one output per call of `next` |
| LegacyConstant.Step | src/constant.rs:67-79 | one call of `next`; `LegacyConstant.RunAgrees` ties it to the current crate's step, and `LegacyConstant.ConstantBackoff.Next` is proved equal to it |
| LegacyConstant.RunAgrees | src/constant.rs:67-79 | each call does what the current crate's `next` does without jitter |
| LegacyConstant.ExactlyMaxTimes | src/constant.rs:70-77 | call i yields the delay iff fewer than `max_times` attempts precede it, and `None` otherwise |
| LegacyConstant.Unlimited | src/constant.rs:69 | without `max_times`, every call yields the delay and `attempts` is untouched |
| LegacyConstant.DefaultSequence | src/constant.rs:87-95 | default: 1s three times, `None` |
| LegacyConstant.WithDelaySequence | src/constant.rs:97-105 | delay 2s: 2s three times, `None` |
| LegacyConstant.OneTimeSequence | src/constant.rs:107-113 | one attempt: 1s, `None` |
| LegacyConstant.ConstantBackoff.Default | src/constant.rs:40-48 | 1s, three times, no attempts |
| LegacyConstant.ConstantBackoff.WithDelay | src/constant.rs:52-55 | sets the delay and keeps everything else |
| LegacyConstant.ConstantBackoff.WithMaxTimes | src/constant.rs:58-61 | sets `max_times` and keeps everything else |
| LegacyConstant.ConstantBackoff.Next | src/constant.rs:67-79 | the value yielded and the new `attempts` are those of `Step`; the settings are unchanged |
| RetryTrace.Attempt | src/blocking_retry.rs:172-193 | one loop turn: it starts by invoking the operation; a turn that ends returns the operation's outcome; a turn that continues follows an error and consumes one delay |
| RetryTrace.Run | backon/src/retry.rs:276-320 | the reference run starts with invoking attempt k |
| RetryTrace.RunRetries | src/blocking_retry.rs:183-189 | a retried attempt is judged, advances the backoff, notifies, sleeps, then continues with the next attempt and the rest of the delays |
| RetryTrace.SuccessStopsAtOnce | backon/src/retry.rs:290 | a success is returned at once, after the invocation alone |
| RetryTrace.NotRetryableStopsAtOnce | backon/src/retry.rs:291-294 | an error the predicate rejects is returned at once, without asking the backoff |
| RetryTrace.ExhaustedReturnsError | backon/src/retry.rs:295-296 | with the backoff exhausted, a retryable error is returned after one `next`, with no notify and no sleep |
| RetryTrace.ResultIsLastOutcome | src/blocking_retry.rs:172-193 | the result is the outcome of the last attempt made |
| RetryTrace.Counts | backon/src/retry.rs:276-320 | invocations = sleeps + 1 ≤ delays + 1; `next` is called once per failed attempt that reaches it; notifies = sleeps when notifying; the predicate is called once per error |
| RetryTrace.SleepsFollowBackoff | backon/src/retry.rs:296-303 | the durations slept are the backoff's delays, in order, from the first |
| RetryTrace.NotifyPrecedesSleep | backon/src/retry.rs:298-300 | each notification is followed at once by a sleep of the same delay, and each sleep comes right after the backoff yields that delay |
| RetryTrace.AlwaysFailing | src/blocking_retry.rs:329-353 | an operation that always fails retryably runs once per delay plus once, sleeps every delay and returns the last error |
| RetryTrace.AlwaysFailingAttempts | src/blocking_retry.rs:329-353 | such an operation is invoked exactly `delays + 1` times |
| RetryTrace.DefaultExponentialFourAttempts | backon/src/retry.rs:406-431 | with the default exponential backoff at 1ms, an always-failing operation runs 4 times, sleeps 1, 2 and 4 ms, notifies 3 times and is judged 4 times |
| BlockingRetry.BlockingRetry.New | src/blocking_retry.rs:74-81 | the operation and the backoff, with no predicate, no notify and nothing done |
| BlockingRetry.BlockingRetry.When | src/blocking_retry.rs:226-233 | installs the predicate and keeps everything else |
| BlockingRetry.BlockingRetry.Notify | src/blocking_retry.rs:271-278 | installs the notify callback and keeps everything else |
| BlockingRetry.BlockingRetry.Call | src/blocking_retry.rs:86-193 | the result and the events are those of the reference run from the current state |
| BlockingRetry.BlockingRetry.TakeTurn | src/blocking_retry.rs:173-191 | one loop turn is `RetryTrace.Attempt`: its outcome, its events and the delays left |
| Retry.Retry.New | backon/src/retry.rs:92-103 | every error is retryable, and nothing has started |
| Retry.Retry.When | backon/src/retry.rs:185-197 | replaces the predicate and keeps the state |
| Retry.Retry.Notify | backon/src/retry.rs:234-246 | replaces the notify callback and keeps the state |
| Retry.Retry.Sleep | backon/src/retry.rs:145-154 | resets the state to `Idle` and keeps the rest |
| Retry.Retry.Poll | backon/src/retry.rs:269-321 | a ready poll completes with the reference run's outcome after all of its events; a pending poll keeps the run promised and waits on a future that is not ready; a poll on such a future changes nothing |
| Retry.Retry.Start | backon/src/retry.rs:278-282 | the `Idle` arm invokes the next attempt and keeps the run promised |
| Retry.Retry.Wake | backon/src/retry.rs:308-318 | the `Sleeping` arm, once the sleep is over, returns to `Idle` and keeps the run promised |
| Retry.Retry.PollAttempt | backon/src/retry.rs:283-307 | the `Polling` arm on a ready future completes with the run's outcome, or notifies and sleeps the next delay and keeps the run promised |

## Left out

- Floating point: the `f32` factor and `mul_f32`/`as_secs_f32` are exact rationals, and the jitter draw is a 23-bit integer over 2^23. Rounding of `f32` arithmetic is not modelled.
- Random number generation: `fastrand`, `rand::thread_rng` and the seeded `fastrand::Rng` are replaced by the draw passed to each call. The seed is recorded but has no effect.
- Sleeping, timers and the `Sleeper` implementations: a sleep is the `Slept` event. Which sleeper is installed does not matter.
- `Pin`, `unsafe`, `Context` and wakers in `Retry::poll`: whether a polled future is ready is an oracle argument.
- The retryable predicate and the notify callback are pure functions. `FnMut` side effects are not modelled; notifying is recorded only as an event.
- The drivers consume the backoff as its sequence of delays before the first `None`. The iterator's own state inside a driver is not modelled.
- BlockingRetry.BlockingRetry.Call: the backoff is a finite sequence of delays, so a backoff that never yields `None` (such as `ConstantBuilder::without_max_times`, which `Constant.UnlimitedNeverStops` shows never stops) is outside the model. With such a backoff and an operation that always fails with a retryable error, the loop at src/blocking_retry.rs:173-192 never returns; the model does not express that non-termination.
- Retry.Retry.Poll: the backoff is a finite sequence of delays, so a backoff that never yields `None` is outside the model. With such a backoff and an operation that always fails with a retryable error, the future of backon/src/retry.rs:276-320 never completes; the model does not express that.
- `backon/src/retry.rs`'s `Retryable` trait, `src/retry.rs`, the context-passing drivers, the `tower` layer, the crate's re-exports and examples are not part of this model.
- `usize` is 64 bits wide. 32-bit targets are not modelled.
- Fibonacci.Run: requires that no call panics (`Safe`); a panicking call has no result. The `Panics` predicate beside it, and the lemmas that say when runs are safe, describe where the source panics.
- Constant.Run: requires that no call panics (`Safe`); a panicking call has no result. The `Panics` predicate beside it, and the lemmas that say when runs are safe, describe where the source panics.
- LegacyExponential.Run: requires that no call panics (`Safe`); a panicking call has no result. The `Panics` predicate beside it, and the lemmas that say when runs are safe, describe where the source panics.
- LegacyFibonacci.Run: requires that no call panics (`Safe`); a panicking call has no result. The `Panics` predicate beside it, and the lemmas that say when runs are safe, describe where the source panics.
- Exponential.Run: the total-delay check yields `None` where the source's `+` would panic on overflow (see Findings).
- Exponential.CappedAfterFirstCall: stated without jitter. With jitter, `JitterBounds` bounds each value by twice the capped value instead.
- LegacyExponential.Exponential.WithFactor: requires a factor above one. This is the source's `debug_assert!`; release builds accept any factor.
- LegacyConstant.Unlimited: a `ConstantBackoff` without `max_times` cannot be built through the public API. The branch is modelled for completeness.

## Findings

| source | as written | input that shows it | evidently intended | confidence | as-written member | corrected member |
|---|---|---|---|---|---|---|
| backon/src/backoff/exponential.rs:237-240 | the budget check computes `cumulative_delay + tmp_cur` with `Duration`'s `+`, which panics on overflow | factor 1e10, no maximum delay, `with_total_delay(Some(Duration::MAX))`: the third call adds `Duration::MAX` to a cumulative delay of 1e10+1 s | a delay that would take the total past the budget yields `None` | not executed | Exponential.BudgetCheckPanicsExample | Exponential.BudgetCheckAgrees |
