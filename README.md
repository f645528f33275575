# A verified model of the custom linear-congruential generator

This project models the number generator in `custom_rng.cpp`, a
multiplicative linear-congruential generator. It keeps one persistent
32-bit signed state `b`. Each step multiplies `b` by 1220703125 with
two's-complement wrap-around. When the wrapped product is negative, the step
adds the literal `2 * 1073741824`, which itself overflows to -2^31 in `int`.
The corrected value is both the raw draw and the new state. The model also
covers how the two derived routines consume that stream:

- the normal routine makes one call of `k` uniforms per output and sums them;
- the exponential routine makes one call of `n` uniforms and uses draw `i`
  for output `i`.

Modules:

- `Int32` (`int32.dfy`): the values of a C++ `int`, and `Wrap32`, which is
  two's-complement wrap-around stated explicitly.
- `Lcg` (`lcg.dfy`): the pure recurrence. `Step` is the source's
  wrap-then-correct arithmetic. `Next` is the same recurrence in its
  mathematical form, the residue of `b * 1220703125` modulo 2^31. `Iterate`
  and `States` describe the stream. The lemmas cover range, equivalence with
  the residue, batching, the absorbing zero state, which seeds can ever draw
  0, and a concrete trace.
- `Rng` (`rng.dfy`): the imperative routines. `Generator` is a class whose
  field `b` is the persistent state. The constructor takes the seed. Its
  method `Uniform` fills a fresh array in a counted loop, as
  `custom_uniform` does. `Normal` and `Exponential` are methods that take
  the generator and run the loops of `custom_normal` and
  `custom_exponential`.

The source's float arithmetic is not modelled. `Uniform` returns the raw
corrected integers `y` that the source scales by `4.656613e-10f`.
`Normal` returns, for each output, the integer sum of its batch of raw draws.
The source's float sum `a` approximates that sum divided by 2^31. `Exponential`
returns, for each output, the raw draw whose scaled value the logarithm is
applied to.

Three comments in the source say more than the code does. The model follows
the code and proves what the comments get right.

- The comment at custom_rng.cpp:20 says the step adds 2^31. Line 22 adds the
  literal `2 * 1073741824`, which overflows to -2^31 as an `int`. The model
  evaluates that literal with wrap-around (`CORRECTION`). `CorrectionAddsTwo31`
  proves that adding it to a negative value gives the same result as adding
  2^31, so the comment's intent holds under two's-complement wrap-around.
- The comment at custom_rng.h:7 promises uniform values in [0, 1). That holds
  for the ideal value `y / 2^31` (`IdealUniform`), but not necessarily for the
  rounded float product (see Left out).
- The comment at custom_rng.cpp:70 says the generator never gives exactly 0.
  `NeverZero` proves this for every seed other than 0 and -2^31.
  `NextZeroIff` and `ZeroAbsorbing` show that those two seeds do give 0:
  -2^31 on its first step, and 0 on every step.

The source validates none of its arguments, and the model has no error paths.
Counts are `nat`.

## Model

| member | source | states |
|---|---|---|
| Int32.Wrap32 | custom_rng.cpp:18 | The wrapped value is the 32-bit value congruent to the exact result modulo 2^32, and values already in range are unchanged. |
| Lcg.Step | custom_rng.cpp:18-23 | Wrap-then-correct always yields a value in [0, 2^31), so a corrected value is never negative. |
| Lcg.CorrectionAddsTwo31 | custom_rng.cpp:21-23 | For a negative 32-bit value, adding the overflowed literal `2 * 1073741824` with wrap-around gives exactly the value plus 2^31. |
| Lcg.StepIsResidue | custom_rng.cpp:18-23 | For every 32-bit state, negative seeds included, wrap-then-correct equals the non-negative residue of `b * 1220703125` modulo 2^31. |
| Lcg.StepZeroCases | custom_rng.cpp:18-23 | A step yields 0 exactly when the wrapped product is 0 or -2^31. -2^31 is the one negative product that the correction sends to 0. |
| Lcg.NextZeroIff | custom_rng.cpp:18-23 | A step yields 0 if and only if the state is 0 or -2^31, because the multiplier is odd and so invertible modulo 2^31. |
| Lcg.States | custom_rng.cpp:16-30 | The stream of `k` draws has length `k`, and draw `i` is the state `i + 1` steps after the start. |
| Lcg.IterateAdd | custom_rng.cpp:16-30 | Running `n + m` steps is the same as running `n` steps and then `m` more from the state reached. |
| Lcg.StatesAppend | custom_rng.cpp:14-30 | Batching invariance: the first `n + m` draws are the first `n` draws followed by the `m` draws from the state left after them. |
| Lcg.StatesWindow | custom_rng.cpp:16-30 | The `k` draws starting at position `s` of the stream are the `k` draws from the state after `s` steps. |
| Lcg.DrawsInRange | custom_rng.cpp:18-29 | Every draw in the stream lies in [0, 2^31). |
| Lcg.IterateFromZero | custom_rng.cpp:18-29 | From state 0, every later state is 0. |
| Lcg.ZeroAbsorbing | custom_rng.cpp:18-29 | From state 0, every draw is 0. |
| Lcg.IterateNeverZero | custom_rng.cpp:18-29 | From any state other than 0 and -2^31, no later state is 0 or -2^31. |
| Lcg.NeverZero | custom_rng.cpp:70-75 | From any starting state other than 0 and -2^31, no draw is ever 0. So the exponential routine's assumption that a uniform draw is never exactly 0 holds for those seeds. NextZeroIff and ZeroAbsorbing show it fails for the other two. |
| Lcg.TraceFromOne | custom_rng.cpp:18-29 | From state 1, the first product is 1220703125 and needs no correction. The first four draws are 1220703125, 839070905, 146721453 and 187805105. |
| Lcg.IdealUniform | custom_rng.cpp:26 | The ideal scaled draw `y / 2^31` of a corrected value lies in [0, 1). |
| Rng.Generator.constructor | custom_rng.cpp:14 | The persistent state starts at the given seed. |
| Rng.Generator.Uniform | custom_rng.cpp:6-33 | Returns a fresh array of exactly `n` entries, where entry `i` is draw `i` of the stream from the old state. The new state is `n` steps on. That is the last entry, or the old state when `n` is 0. |
| Rng.UniformTwice | custom_rng.cpp:14-30 | Two calls in a row return, together, exactly the draws of one call for `n + m` and leave the same state. |
| Rng.SumBounds | custom_rng.cpp:45-48 | A batch of `k` draws in [0, 2^31) sums to between 0 and `k * (2^31 - 1)`. So for `k > 0` the ideal sum of the scaled draws lies in [0, k). |
| Rng.AfterBatchesIsIterate | custom_rng.cpp:40-43 | `n` successive calls of `k` uniforms advance the state by exactly `n * k` steps. |
| Rng.BatchSums | custom_rng.cpp:40-48 | There is one sum per output, and sum `i` is over the `k` draws taken from the state reached after `i` earlier batches. |
| Rng.BatchSumIsWindow | custom_rng.cpp:40-48 | Output `i` uses exactly draws `i * k` to `i * k + k - 1` of the one stream, and these lie within the `n * k` draws consumed. |
| Rng.Normal | custom_rng.cpp:36-59 | Returns a fresh array whose entry `i` is the left-to-right sum of the `i`-th batch of `k` uniforms. The state advances exactly `n * k` steps, so it is unchanged when `k` is 0. |
| Rng.Exponential | custom_rng.cpp:62-81 | Returns a fresh array whose entry `i` is draw `i` of a single batch of `n` uniforms, so output `i` depends on draw `i` alone. The state advances exactly `n` steps. |

## Left out

- Float arithmetic is not modelled: the scaling `y * 4.656613e-10f` (custom_rng.cpp:26), the float sum, centring and `sqrtf` scaling and the `mean + stddev * normalized` of the normal routine (custom_rng.cpp:45-55), and the `-logf(r) / lambda` of the exponential routine (custom_rng.cpp:75). Dafny has no IEEE single-precision, square root or logarithm. The `mean`, `stddev` and `lambda` parameters only feed those formulas, so the model drops them.
- Rng.Generator.Uniform: returns the raw corrected integers, not their float images. The "[0, 1)" promise is proved only for the ideal value `y / 2^31` (IdealUniform). For `y` close to 2^31 - 1 the conversion to float rounds up to 2^31, and the float product can be 1.0f.
- Rng.Normal: returns the integer sum of each batch, not the normal variate computed from it. With `num_uniforms == 0` the batches are empty and the state does not move; only the float formula at custom_rng.cpp:52 then divides by zero, and that formula is not modelled.
- Rng.Exponential: returns the draw the logarithm is applied to, not `-log` of its scaled value divided by `lambda`.
- Seeding from the wall clock (`time(NULL)`, custom_rng.cpp:14) is I/O. The seed is a constructor parameter of any 32-bit value.
- The function-local static state becomes the field `b` of one `Generator` object, which callers pass explicitly. The model does not capture the one-time lazy initialisation of a C++ static or unsynchronised concurrent calls.
- Allocation and release of buffers (`new[]` and `delete[]`) are modelled only as "a fresh array of length `n`". Allocation failure and negative lengths are not modelled. Counts are `nat`.
- The test harness (`test_rng.cpp`) is not modelled: its histograms, chi-square statistic, autocorrelation, period search and console output all work on doubles.
- `custom_rng.h` holds only declarations, including the default `num_uniforms = 12`, and has no behaviour to model.
