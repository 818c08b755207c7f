# Sequential probability ratio test and the `Map` adapter, in Dafny

This project models two pieces of the `uncertain` library, which computes
with probabilistic values. Such a value is known only through its sampling
procedure, `sample(rng, epoch)`.

- `src/sprt.rs` holds Wald's sequential probability ratio test.
  - Two helpers give the likelihood of a boolean observation under the
    "accept" and the "reject" hypothesis, with a log-likelihood ratio built
    from them.
  - The test first takes one sample at epoch 0. It then runs up to `MAXS`
    (1000) batches of `STEP` (10) samples each, adding every sample's
    log-likelihood ratio to an accumulator.
  - After each full batch it stops if the accumulator has left
    `[ln((1-D0)/D0), ln(D1/(1-D1))]`. Its answer is whether the final
    accumulator lies below the lower bound.
- `src/adapters/map.rs` holds the `Map` adapter. It samples an upstream value
  at the same epoch and applies a function to the sample.

Files:

- `uncertain.dfy` (module `Uncertain`) models the probabilistic-value interface.
  - A value is a `Sampler<R, V> = (R, nat) -> (V, R)`: it maps a generator
    state and an epoch to a sample and the generator's next state. The
    `&mut` generator of the source is threaded by value.
  - `SampleEach` samples a value at a run of epochs in turn.
  - `Recorded` wraps a value behind a generator that also logs every epoch it
    is asked for. This is how the epochs a caller requests are observed.
- `sprt.dfy` (module `Sprt`) holds the likelihood functions, the constants
  and the test.
  - `SequentialProbabilityRatioTest` is a method with the source's two nested
    `for` loops and its `break`. The inner loop over one batch is the method
    `SampleBatch`.
  - The test is specified by functions of the call number:
    - `EpochOfCall` gives the epoch asked for by each call, and `Schedule` the
      epochs of the first `n` calls.
    - `StateAfter` gives the generator state after `n` calls, and
      `ValueOfCall` the value each call returns.
    - `RatioAfterCalls` is the accumulator.
    - `BatchesRun` is the stopping batch, and `Decision` is the answer.
- `map.dfy` (module `MapAdapter`) holds the `Map` datatype, its `Sample` and
  the lemmas about composition.

The natural logarithm is a parameter `ln: real -> real`. Only the lemmas that
say so assume it is increasing. The test computes both bounds as `ln` of the
constant odds `UPPER_ODDS = D1/(1-D1)` and `LOWER_ODDS = (1-D0)/D0`, as the
source does.

The source samples epoch 0 twice: once before the loop and once as the loop's
first sample. The model keeps this as written. `ScheduleCounts` counts the two
requests, and `EpochZeroCountedTwice` shows that under per-epoch memoization
the first observation enters the accumulator twice.

## Model

| member | source | states |
|---|---|---|
| Sprt.AcceptLikelihood | src/sprt.rs:10-17 | for `prob` in [-1, 1] the likelihood under the accept hypothesis lies in [0, 1] |
| Sprt.RejectLikelihood | src/sprt.rs:19-26 | for `prob` in [0, 2] the likelihood under the reject hypothesis lies in [0, 1] |
| Sprt.LikelihoodsSumToOne | src/sprt.rs:10-26 | each hypothesis gives success probability 0.5·(1+prob) resp. 0.5·prob, and its two outcomes sum to 1 |
| Sprt.LikelihoodSanity | src/sprt.rs:76-79 | accept(0,true)=0.5, accept(1,true)=1, reject(0,false)=1, reject(1,false)=0.5 |
| Sprt.LogLikelihoodRatioSign | src/sprt.rs:28-30 | with an increasing logarithm and 0 < prob < 1, a true observation lowers the accumulator and a false one raises it |
| Sprt.BoundsOrdered | src/sprt.rs:38-39 | with an increasing logarithm the lower bound lies strictly below the upper bound |
| Sprt.ScheduleAt | src/sprt.rs:41-47 | call 0 asks for epoch 0 and every later call `i` asks for epoch `i-1`, so the loop's epochs are consecutive from 0 |
| Sprt.ScheduleCounts | src/sprt.rs:41-47 | in the first n ≥ 2 calls epoch 0 is requested exactly twice, each epoch 1..n-2 exactly once, and no other epoch at all |
| Sprt.ScheduleSampled | src/sprt.rs:41-48 | sampling `src` at the scheduled epochs, handing the generator along, returns call `i`'s value in position `i` and leaves the generator in its state after the last call |
| Sprt.BatchesRun | src/sprt.rs:44-53 | the batches run number 1..MAXS; the count stops at the first batch after which the ratio is out of bounds (or at MAXS), and the ratio was within bounds after every earlier batch |
| Sprt.StoppedAt | src/sprt.rs:44-55 | a run that stops after batch k, having stayed within bounds before, ran exactly `BatchesRun` batches, and its answer is "final ratio < lower bound" |
| Sprt.SampleBatch | src/sprt.rs:45-49 | one batch takes the generator and the accumulator from their values after `step` batches to their values after `step + 1` |
| Sprt.SequentialProbabilityRatioTest | src/sprt.rs:32-56 | the answer is `Decision`, i.e. the ratio after `BatchesRun` batches is below the lower bound; the generator ends in its state after exactly 1 + STEP·BatchesRun calls |
| Sprt.SampleCallsBounded | src/sprt.rs:41-53 | the number of sample calls is 1 + STEP·k with 1 ≤ k ≤ MAXS: between 11 and 10001, always whole batches |
| Sprt.EpochsBounded | src/sprt.rs:44-47 | every requested epoch is below STEP·MAXS = 10000 |
| Sprt.EarlyStopIsCrossing | src/sprt.rs:50-52 | stopping before MAXS batches happens only when the ratio after the last batch is out of bounds |
| Sprt.InconclusiveAnswersFalse | src/sprt.rs:44-55 | for any logarithm, a run whose final ratio is within bounds ran all MAXS batches and answers false |
| Sprt.HighAnswersFalse | src/sprt.rs:50-55 | with an increasing logarithm, a stop above the upper bound answers false |
| Sprt.EpochZeroCountedTwice | src/sprt.rs:41-48 | for a value that memoizes per epoch, calls 0 and 1 return the same value and the ratio after two calls is twice its contribution |
| Sprt.RecordedStateAfter | src/sprt.rs:41-47 | run over a recording generator, the test's calls leave the underlying generator unchanged and log exactly the scheduled epochs |
| Uncertain.SampleEachRecorded | src/sprt.rs:47 | sampling through a recording generator returns the same values and generator state, and the log grows by exactly the requested epochs, in order |
| Sprt.RecordedRatio | src/sprt.rs:42-48 | recording the epochs changes none of the accumulated ratios |
| Sprt.RecordedDecision | src/sprt.rs:44-55 | recording the epochs changes neither the number of batches nor the answer |
| Sprt.RequestedEpochs | src/sprt.rs:41-47 | observed through a recording generator, the test requests exactly `Schedule(1 + STEP·BatchesRun)` (0, then 0, 1, 2, …) and answers as unobserved |
| MapAdapter.New | src/adapters/map.rs:14-16 | the adapter stores the upstream and the function unchanged |
| MapAdapter.SampleComposes | src/adapters/map.rs:26-28 | a sample is `func` of the upstream's sample at the same epoch, and the generator ends where the upstream leaves it |
| MapAdapter.SingleUpstreamCall | src/adapters/map.rs:27 | one adapter sample asks the upstream for exactly one sample, at the unchanged epoch |
| MapAdapter.OnlyUpstreamMatters | src/adapters/map.rs:26-28 | upstreams that agree at a generator state and epoch give adapters that agree there |
| MapAdapter.IdempotencePreserved | src/adapters/map.rs:26-28 | if the upstream answers a repeated epoch with the same sample, so does the adapter |
| MapAdapter.NestingComposes | src/adapters/map.rs:26-28 | `Map(Map(u, f), g)` samples as `Map(u, g∘f)`, i.e. `g(f(u.sample(e)))` with the upstream's generator state |
| MapAdapter.SampleEachThroughMap | src/adapters/map.rs:26-28 | sampled at any run of epochs, the adapter yields `func` of each upstream sample, with the same final generator state |

## Left out

- Floating point: `f32` is `real`, so rounding, NaN and infinity are not modelled. The natural logarithm is the parameter `ln`.
- Wald's statistical error guarantees (error rates 0.001 from `D0`, `D1`) are claims about distributions, not about this code.
- The seeded regression test (src/sprt.rs:66-72) depends on the `Pcg32` generator and the Bernoulli sampler of foreign libraries.
- The `rand::Rng` trait becomes a generator state of a type parameter `R`. The `Into<bool>` conversion and the `?Sized` bounds are dropped: the test's value yields `bool` directly.
- The declaration of the `Uncertain` trait lies outside the modelled files. Its `sample` method is modelled by the function type `Sampler`. The memoization that leaf values do per epoch appears only as the predicate `IdempotentPerEpoch`, where a lemma needs it.
- The range of `prob` is not checked by the source, and the model adds no precondition for it. Out-of-range `prob` gives likelihoods outside [0, 1], and the bound lemmas say so by their conditions.
- Negative `prob` in the source: for `prob` in (-1, 0) the reject likelihood of a true sample, 0.5·prob (src/sprt.rs:20-22), is negative. In `f32` its logarithm is NaN, so after one true sample the accumulator is NaN. Both comparisons at src/sprt.rs:50 are then false, the test never stops early, and it answers false after all 10001 calls. The model's `ln` is an arbitrary function and says nothing about NaN there.
- SequentialProbabilityRatioTest: the epochs it requests are not recorded inside the test. `RequestedEpochs` observes them by running the test over the `Recorded` generator.
- MapAdapter.Map.Sample: that `sample` takes `&self` and leaves both fields untouched follows from `Map` being a value. No separate statement is made.
