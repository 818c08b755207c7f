/**
 * The probabilistic-value abstraction that both the transform combinator and
 * the sequential test are written against.
 *
 * A probabilistic value is known only through its sampling procedure: given
 * the caller's random generator and an epoch, it produces one sample. The
 * generator is passed by exclusive reference and advanced by sampling; here
 * its state is a value of type `R` that goes in and comes back out.
 */
module Uncertain {

  /** `sample(rng, epoch)`: one sample and the generator's state after it. */
  type Sampler<!R, V> = (R, nat) -> (V, R)

  /**
   * Samples `u` at each epoch of `epochs` in turn, handing the generator state
   * from one call to the next: the values in call order and the final state.
   */
  function SampleEach<R, V>(u: Sampler<R, V>, rng: R, epochs: seq<nat>): (r: (seq<V>, R))
    ensures |r.0| == |epochs|
    decreases |epochs|
  {
    if epochs == [] then ([], rng)
    else
      var (vs, mid) := SampleEach(u, rng, epochs[..|epochs| - 1]);
      var (v, last) := u(mid, epochs[|epochs| - 1]);
      (vs + [v], last)
  }

  /** One more call after `epochs` extends the values by that call's value. */
  lemma SampleEachSnoc<R, V>(u: Sampler<R, V>, rng: R, epochs: seq<nat>, epoch: nat)
    ensures var (vs, mid) := SampleEach(u, rng, epochs);
            SampleEach(u, rng, epochs + [epoch]) == (vs + [u(mid, epoch).0], u(mid, epoch).1)
  {
  }

  /**
   * Per-epoch idempotence: asked again for the same epoch, with the generator
   * as the first call left it, the value returns the same sample.
   */
  ghost predicate IdempotentPerEpoch<R(!new), V>(u: Sampler<R, V>) {
    forall rng: R, epoch: nat :: u(u(rng, epoch).1, epoch).0 == u(rng, epoch).0
  }

  /**
   * `u` behind a generator that also keeps a log of every epoch asked of it;
   * used to observe which epochs a caller requests, and how often.
   */
  function Recorded<R, V>(u: Sampler<R, V>): Sampler<(R, seq<nat>), V> {
    (s: (R, seq<nat>), epoch: nat) => (u(s.0, epoch).0, (u(s.0, epoch).1, s.1 + [epoch]))
  }

  /**
   * Recording changes neither the values nor the generator state, and the log
   * grows by exactly the epochs requested, in order.
   */
  lemma {:induction false} SampleEachRecorded<R, V>(u: Sampler<R, V>, rng: R, log: seq<nat>, epochs: seq<nat>)
    ensures var (vs, last) := SampleEach(u, rng, epochs);
            SampleEach(Recorded(u), (rng, log), epochs) == (vs, (last, log + epochs))
    decreases |epochs|
  {
    if epochs != [] {
      var init, e := epochs[..|epochs| - 1], epochs[|epochs| - 1];
      SampleEachRecorded(u, rng, log, init);
      var (vs, mid) := SampleEach(u, rng, init);
      assert SampleEach(Recorded(u), (rng, log), init) == (vs, (mid, log + init));
      assert Recorded(u)((mid, log + init), e) == (u(mid, e).0, (u(mid, e).1, log + init + [e]));
      assert log + init + [e] == log + epochs;
      assert SampleEach(u, rng, epochs) == (vs + [u(mid, e).0], u(mid, e).1);
      assert SampleEach(Recorded(u), (rng, log), epochs)
          == (vs + [u(mid, e).0], (u(mid, e).1, log + init + [e]));
    } else {
      assert log + epochs == log;
    }
  }
}
