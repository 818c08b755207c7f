/**
 * Wald's sequential probability ratio test over a boolean probabilistic value.
 *
 * Floating point is modelled by `real`, and the natural logarithm by a
 * parameter `ln` about which nothing is assumed unless a lemma says so. The
 * decision bounds are computed from `ln` and the two reliability constants
 * the same way the test computes them.
 */
module Sprt {
  import opened Uncertain

  /** Reliability of deciding each way. */
  const D0: real := 0.999
  const D1: real := 0.999
  const UPPER_ODDS: real := D1 / (1.0 - D1)
  const LOWER_ODDS: real := (1.0 - D0) / D0

  /** Samples per batch, and the largest number of batches. */
  const STEP: nat := 10
  const MAXS: nat := 1000

  /**
   * Probability of outcome `val` under the high hypothesis, whose success
   * probability is 0.5·(1 + prob).
   */
  function AcceptLikelihood(prob: real, val: bool): (l: real)
    ensures -1.0 <= prob <= 1.0 ==> 0.0 <= l <= 1.0
  {
    var p := 0.5 * (1.0 + prob);
    if val then p else 1.0 - p
  }

  /**
   * Probability of outcome `val` under the low hypothesis, whose success
   * probability is 0.5·prob.
   */
  function RejectLikelihood(prob: real, val: bool): (l: real)
    ensures 0.0 <= prob <= 2.0 ==> 0.0 <= l <= 1.0
  {
    var p := 0.5 * prob;
    if val then p else 1.0 - p
  }

  /** Each hypothesis gives the two outcomes probabilities that sum to one. */
  lemma LikelihoodsSumToOne(prob: real)
    ensures AcceptLikelihood(prob, true) + AcceptLikelihood(prob, false) == 1.0
    ensures RejectLikelihood(prob, true) + RejectLikelihood(prob, false) == 1.0
    ensures AcceptLikelihood(prob, true) == 0.5 * (1.0 + prob)
    ensures RejectLikelihood(prob, true) == 0.5 * prob
  {
  }

  /** The fixed values the likelihood sanity test asserts. */
  lemma LikelihoodSanity()
    ensures AcceptLikelihood(0.0, true) == 0.5
    ensures AcceptLikelihood(1.0, true) == 1.0
    ensures RejectLikelihood(0.0, false) == 1.0
    ensures RejectLikelihood(1.0, false) == 0.5
  {
  }

  /** Contribution of one observation to the accumulated ratio. */
  function LogLikelihoodRatio(ln: real -> real, prob: real, val: bool): real {
    ln(RejectLikelihood(prob, val)) - ln(AcceptLikelihood(prob, val))
  }

  /** `ln` is strictly increasing on the positive reals, as the logarithm is. */
  ghost predicate IncreasingOnPositives(ln: real -> real) {
    forall x: real, y: real :: 0.0 < x < y ==> ln(x) < ln(y)
  }

  /**
   * For an offset strictly between 0 and 1, a success pushes the ratio down
   * (towards the high hypothesis) and a failure pushes it up.
   */
  lemma LogLikelihoodRatioSign(ln: real -> real, prob: real)
    requires IncreasingOnPositives(ln)
    requires 0.0 < prob < 1.0
    ensures LogLikelihoodRatio(ln, prob, true) < 0.0 < LogLikelihoodRatio(ln, prob, false)
  {
  }

  /** Bound above which the test stops in favour of the low hypothesis. */
  function UpperLn(ln: real -> real): real {
    ln(UPPER_ODDS)
  }

  /** Bound below which the test stops in favour of the high hypothesis. */
  function LowerLn(ln: real -> real): real {
    ln(LOWER_ODDS)
  }

  /** The check made after every batch. */
  predicate OutsideBounds(ln: real -> real, ratio: real) {
    ratio > UpperLn(ln) || ratio < LowerLn(ln)
  }

  /** With a genuine logarithm the lower bound lies below the upper one. */
  lemma BoundsOrdered(ln: real -> real)
    requires IncreasingOnPositives(ln)
    ensures LowerLn(ln) < UpperLn(ln)
  {
  }

  /**
   * The epoch asked for by sample call `i` (counting from 0): the call before
   * the loop asks for epoch 0, and loop call `1 + STEP·step + s` asks for
   * `STEP·step + s`, one below its own number.
   */
  function EpochOfCall(i: nat): nat {
    if i == 0 then 0 else i - 1
  }

  /** The epochs of the first `n` sample calls, in call order. */
  function Schedule(n: nat): (es: seq<nat>)
    ensures |es| == n
  {
    if n == 0 then [] else Schedule(n - 1) + [EpochOfCall(n - 1)]
  }

  /** Call `i` of the first `n` requests the epoch of call `i`. */
  lemma {:induction false} ScheduleAt(n: nat)
    ensures forall i :: 0 <= i < n ==> Schedule(n)[i] == EpochOfCall(i)
  {
    if n > 0 {
      ScheduleAt(n - 1);
    }
  }

  /**
   * How often each epoch is requested in the first `n` calls: epoch 0 twice
   * (once before the loop, once as the loop's first sample), every later
   * epoch below `n - 1` once, and nothing else.
   */
  lemma {:induction false} ScheduleCounts(n: nat, e: nat)
    requires n >= 2
    ensures multiset(Schedule(n))[e] == if e == 0 then 2 else if e <= n - 2 then 1 else 0
  {
    if n == 2 {
      assert Schedule(2) == [0] + [0];
    } else {
      ScheduleCounts(n - 1, e);
      assert multiset(Schedule(n)) == multiset(Schedule(n - 1)) + multiset{(n - 2) as nat};
    }
  }

  /** The generator state after the first `n` sample calls of the test. */
  function StateAfter<R>(src: Sampler<R, bool>, rng0: R, n: nat): R {
    if n == 0 then rng0 else src(StateAfter(src, rng0, n - 1), EpochOfCall(n - 1)).1
  }

  /** The value returned by sample call `i`. */
  function ValueOfCall<R>(src: Sampler<R, bool>, rng0: R, i: nat): bool {
    src(StateAfter(src, rng0, i), EpochOfCall(i)).0
  }

  /**
   * The calls of the test are those of sampling `src` at the epochs of the
   * schedule, handing the generator from one call to the next: the values
   * they return are the calls' values, and the generator ends in the state
   * after the last call.
   */
  lemma {:induction false} ScheduleSampled<R>(src: Sampler<R, bool>, rng0: R, n: nat)
    ensures SampleEach(src, rng0, Schedule(n)).1 == StateAfter(src, rng0, n)
    ensures forall i :: 0 <= i < n ==> SampleEach(src, rng0, Schedule(n)).0[i] == ValueOfCall(src, rng0, i)
  {
    if n > 0 {
      ScheduleSampled(src, rng0, n - 1);
      SampleEachSnoc(src, rng0, Schedule(n - 1), EpochOfCall(n - 1));
      var vs := SampleEach(src, rng0, Schedule(n - 1)).0;
      var ws := SampleEach(src, rng0, Schedule(n)).0;
      assert ws == vs + [ValueOfCall(src, rng0, n - 1)];
      forall i | 0 <= i < n
        ensures ws[i] == ValueOfCall(src, rng0, i)
      {
        if i < n - 1 {
          assert ws[i] == vs[i];
        }
      }
    }
  }

  /** The accumulator after `n` sample calls: their contributions summed in call order. */
  function RatioAfterCalls<R>(ln: real -> real, prob: real, src: Sampler<R, bool>, rng0: R, n: nat): real {
    if n == 0 then 0.0
    else RatioAfterCalls(ln, prob, src, rng0, n - 1) + LogLikelihoodRatio(ln, prob, ValueOfCall(src, rng0, n - 1))
  }

  /** The accumulator once `k` full batches have been added to the first sample. */
  function RatioAfterBatches<R>(ln: real -> real, prob: real, src: Sampler<R, bool>, rng: R, k: nat): real {
    RatioAfterCalls(ln, prob, src, rng, 1 + STEP * k)
  }

  /** Search for the stopping batch, starting at batch `j`. */
  function BatchesFrom<R>(ln: real -> real, prob: real, src: Sampler<R, bool>, rng: R, j: nat): (k: nat)
    requires 1 <= j <= MAXS
    ensures j <= k <= MAXS
    ensures k == MAXS || OutsideBounds(ln, RatioAfterBatches(ln, prob, src, rng, k))
    ensures forall i :: j <= i < k ==> !OutsideBounds(ln, RatioAfterBatches(ln, prob, src, rng, i))
    decreases MAXS - j
  {
    if j == MAXS || OutsideBounds(ln, RatioAfterBatches(ln, prob, src, rng, j)) then j
    else BatchesFrom(ln, prob, src, rng, j + 1)
  }

  /**
   * The number of batches the test runs: the first batch after which the
   * ratio lies outside the bounds, or MAXS when no batch does.
   */
  function BatchesRun<R>(ln: real -> real, prob: real, src: Sampler<R, bool>, rng: R): (k: nat)
    ensures 1 <= k <= MAXS
    ensures k == MAXS || OutsideBounds(ln, RatioAfterBatches(ln, prob, src, rng, k))
    ensures forall i :: 1 <= i < k ==> !OutsideBounds(ln, RatioAfterBatches(ln, prob, src, rng, i))
  {
    BatchesFrom(ln, prob, src, rng, 1)
  }

  /** The answer of the test: the final ratio lies strictly below the lower bound. */
  function Decision<R>(ln: real -> real, prob: real, src: Sampler<R, bool>, rng: R): bool {
    RatioAfterBatches(ln, prob, src, rng, BatchesRun(ln, prob, src, rng)) < LowerLn(ln)
  }

  /**
   * A run that stops after batch `k` with accumulator `ratio`, having stayed
   * inside the bounds after every earlier batch, ran the stopping batch and
   * gives the test's answer.
   */
  lemma StoppedAt<R>(ln: real -> real, prob: real, src: Sampler<R, bool>, rng: R, k: nat, ratio: real)
    requires 1 <= k <= MAXS
    requires ratio == RatioAfterBatches(ln, prob, src, rng, k)
    requires k == MAXS || OutsideBounds(ln, ratio)
    requires forall i :: 1 <= i < k ==> !OutsideBounds(ln, RatioAfterBatches(ln, prob, src, rng, i))
    ensures BatchesRun(ln, prob, src, rng) == k
    ensures Decision(ln, prob, src, rng) == (ratio < LowerLn(ln))
  {
  }

  /**
   * One batch of the test: STEP samples at the consecutive epochs from
   * STEP·step, each added to the accumulator. Started in the state the test
   * reaches after `step` batches, it ends in the state after `step + 1`.
   */
  method SampleBatch<R>(ln: real -> real, prob: real, src: Sampler<R, bool>, ghost rng0: R,
                        step: nat, rng: R, ratioLn: real)
    returns (rng': R, ratioLn': real)
    requires rng == StateAfter(src, rng0, 1 + STEP * step)
    requires ratioLn == RatioAfterCalls(ln, prob, src, rng0, 1 + STEP * step)
    ensures rng' == StateAfter(src, rng0, 1 + STEP * (step + 1))
    ensures ratioLn' == RatioAfterCalls(ln, prob, src, rng0, 1 + STEP * (step + 1))
  {
    rng', ratioLn' := rng, ratioLn;
    for s := 0 to STEP
      invariant rng' == StateAfter(src, rng0, 1 + STEP * step + s)
      invariant ratioLn' == RatioAfterCalls(ln, prob, src, rng0, 1 + STEP * step + s)
    {
      var epoch := STEP * step + s;
      var drawn := src(rng', epoch);
      rng' := drawn.1;
      ratioLn' := ratioLn' + LogLikelihoodRatio(ln, prob, drawn.0);
    }
  }

  /**
   * Wald's sequential test. One sample at epoch 0, then at most MAXS batches of
   * STEP samples at consecutive epochs from 0; after each full batch the test
   * stops if the ratio has left the bounds. The answer is whether the final
   * ratio lies below the lower bound. Besides the answer, the generator's
   * final state.
   */
  method SequentialProbabilityRatioTest<R>(ln: real -> real, prob: real, src: Sampler<R, bool>, rng0: R)
    returns (accepted: bool, rng: R)
    ensures rng == StateAfter(src, rng0, 1 + STEP * BatchesRun(ln, prob, src, rng0))
    ensures accepted == Decision(ln, prob, src, rng0)
  {
    var upperLn := ln(UPPER_ODDS);
    var lowerLn := ln(LOWER_ODDS);

    var first := src(rng0, 0);
    rng := first.1;
    var ratioLn := LogLikelihoodRatio(ln, prob, first.0);

    ghost var batches: nat := 0;
    for step := 0 to MAXS
      invariant batches == step
      invariant rng == StateAfter(src, rng0, 1 + STEP * step)
      invariant ratioLn == RatioAfterCalls(ln, prob, src, rng0, 1 + STEP * step)
      invariant forall i :: 1 <= i <= step ==> !OutsideBounds(ln, RatioAfterBatches(ln, prob, src, rng0, i))
    {
      rng, ratioLn := SampleBatch(ln, prob, src, rng0, step, rng, ratioLn);
      batches := step + 1;
      if ratioLn > upperLn || ratioLn < lowerLn {
        break;
      }
    }
    StoppedAt(ln, prob, src, rng0, batches, ratioLn);
    accepted := ratioLn < lowerLn;
  }

  /** At most 1 + STEP·MAXS = 10001 sample calls, always a whole number of batches. */
  lemma SampleCallsBounded<R>(ln: real -> real, prob: real, src: Sampler<R, bool>, rng: R)
    ensures var n := |Schedule(1 + STEP * BatchesRun(ln, prob, src, rng))|;
            1 + STEP <= n <= 1 + STEP * MAXS && (n - 1) % STEP == 0
  {
  }

  /** Every requested epoch lies below STEP·MAXS = 10000. */
  lemma EpochsBounded<R>(ln: real -> real, prob: real, src: Sampler<R, bool>, rng: R)
    ensures var es := Schedule(1 + STEP * BatchesRun(ln, prob, src, rng));
            forall i :: 0 <= i < |es| ==> es[i] < STEP * MAXS
  {
    ScheduleAt(1 + STEP * BatchesRun(ln, prob, src, rng));
  }

  /** An early stop happens only after a batch whose ratio left the bounds. */
  lemma EarlyStopIsCrossing<R>(ln: real -> real, prob: real, src: Sampler<R, bool>, rng: R)
    requires BatchesRun(ln, prob, src, rng) < MAXS
    ensures OutsideBounds(ln, RatioAfterBatches(ln, prob, src, rng, BatchesRun(ln, prob, src, rng)))
  {
  }

  /**
   * Running out of batches without the ratio ever leaving the bounds answers
   * false, whatever the logarithm.
   */
  lemma InconclusiveAnswersFalse<R>(ln: real -> real, prob: real, src: Sampler<R, bool>, rng: R)
    requires !OutsideBounds(ln, RatioAfterBatches(ln, prob, src, rng, BatchesRun(ln, prob, src, rng)))
    ensures BatchesRun(ln, prob, src, rng) == MAXS
    ensures !Decision(ln, prob, src, rng)
  {
  }

  /**
   * A stop above the upper bound answers false when `ln` is a genuine
   * logarithm, since the lower bound then lies below the upper one.
   */
  lemma HighAnswersFalse<R>(ln: real -> real, prob: real, src: Sampler<R, bool>, rng: R)
    requires IncreasingOnPositives(ln)
    requires RatioAfterBatches(ln, prob, src, rng, BatchesRun(ln, prob, src, rng)) > UpperLn(ln)
    ensures !Decision(ln, prob, src, rng)
  {
    BoundsOrdered(ln);
  }

  /**
   * When `src` memoizes per epoch, the two requests for epoch 0 return the
   * same value, so the first observation enters the ratio twice.
   */
  lemma EpochZeroCountedTwice<R(!new)>(ln: real -> real, prob: real, src: Sampler<R, bool>, rng: R)
    requires IdempotentPerEpoch(src)
    ensures ValueOfCall(src, rng, 1) == ValueOfCall(src, rng, 0)
    ensures RatioAfterCalls(ln, prob, src, rng, 2) == 2.0 * LogLikelihoodRatio(ln, prob, src(rng, 0).0)
  {
    assert ValueOfCall(src, rng, 0) == src(rng, 0).0;
    assert ValueOfCall(src, rng, 1) == src(src(rng, 0).1, 0).0;
    assert RatioAfterCalls(ln, prob, src, rng, 1) == LogLikelihoodRatio(ln, prob, src(rng, 0).0);
  }

  /**
   * Running the test's calls against a recording generator leaves the
   * generator state untouched and logs exactly the scheduled epochs.
   */
  lemma RecordedStateAfter<R>(src: Sampler<R, bool>, rng0: R, log: seq<nat>, n: nat)
    ensures StateAfter(Recorded(src), (rng0, log), n) == (StateAfter(src, rng0, n), log + Schedule(n))
  {
    ScheduleSampled(Recorded(src), (rng0, log), n);
    ScheduleSampled(src, rng0, n);
    SampleEachRecorded(src, rng0, log, Schedule(n));
  }

  /** Recording changes none of the accumulated ratios. */
  lemma {:induction false} RecordedRatio<R>(ln: real -> real, prob: real, src: Sampler<R, bool>, rng0: R,
                                            log: seq<nat>, n: nat)
    ensures RatioAfterCalls(ln, prob, Recorded(src), (rng0, log), n) == RatioAfterCalls(ln, prob, src, rng0, n)
  {
    if n > 0 {
      RecordedRatio(ln, prob, src, rng0, log, n - 1);
      RecordedStateAfter(src, rng0, log, n - 1);
    }
  }

  /** Recording changes neither the number of batches nor the answer. */
  lemma RecordedDecision<R>(ln: real -> real, prob: real, src: Sampler<R, bool>, rng0: R, log: seq<nat>)
    ensures BatchesRun(ln, prob, Recorded(src), (rng0, log)) == BatchesRun(ln, prob, src, rng0)
    ensures Decision(ln, prob, Recorded(src), (rng0, log)) == Decision(ln, prob, src, rng0)
  {
    var k := BatchesRun(ln, prob, src, rng0);
    forall i | 1 <= i <= k
      ensures RatioAfterBatches(ln, prob, Recorded(src), (rng0, log), i) == RatioAfterBatches(ln, prob, src, rng0, i)
    {
      RecordedRatio(ln, prob, src, rng0, log, 1 + STEP * i);
    }
    StoppedAt(ln, prob, Recorded(src), (rng0, log), k, RatioAfterBatches(ln, prob, src, rng0, k));
  }

  /**
   * The epochs the test asks of its probabilistic value, observed by running
   * it over a generator that records every request: epoch 0, then epochs 0,
   * 1, 2, … one per call, for 1 + STEP·k calls in all, where k is the number
   * of batches run. Recording leaves the answer and the generator unchanged.
   */
  method RequestedEpochs<R>(ln: real -> real, prob: real, src: Sampler<R, bool>, rng0: R)
    returns (accepted: bool, rng: R, requested: seq<nat>)
    ensures requested == Schedule(1 + STEP * BatchesRun(ln, prob, src, rng0))
    ensures accepted == Decision(ln, prob, src, rng0)
    ensures rng == SampleEach(src, rng0, requested).1
  {
    ghost var n := 1 + STEP * BatchesRun(ln, prob, src, rng0);
    RecordedDecision(ln, prob, src, rng0, []);
    RecordedStateAfter(src, rng0, [], n);
    assert [] + Schedule(n) == Schedule(n);
    var final;
    accepted, final := SequentialProbabilityRatioTest(ln, prob, Recorded(src), (rng0, []));
    rng, requested := final.0, final.1;
    ScheduleSampled(src, rng0, n);
  }
}
