/**
 * The transform combinator: a probabilistic value whose samples are those of
 * an upstream value passed through a function.
 */
module MapAdapter {
  import opened Uncertain

  /** The upstream value and the function applied to each of its samples. */
  datatype Map<!R, !U, T> = Map(uncertain: Sampler<R, U>, func: U -> T)
  {
    /** Sampling: one upstream sample at the same epoch, then `func`. */
    function Sample(rng: R, epoch: nat): (T, R) {
      var (v, next) := uncertain(rng, epoch);
      (func(v), next)
    }

    /** This value seen as a probabilistic value in its own right. */
    function AsSampler(): Sampler<R, T> {
      (rng: R, epoch: nat) => Sample(rng, epoch)
    }
  }

  /** The constructor keeps the upstream and the function as given. */
  function New<R, U, T>(uncertain: Sampler<R, U>, func: U -> T): (m: Map<R, U, T>)
    ensures m.uncertain == uncertain && m.func == func
  {
    Map(uncertain, func)
  }

  /**
   * A sample is the function applied to the upstream's sample at the same
   * epoch, and the generator ends where the upstream leaves it: the adapter
   * draws no randomness of its own.
   */
  lemma SampleComposes<R, U, T>(m: Map<R, U, T>, rng: R, epoch: nat)
    ensures m.Sample(rng, epoch).0 == m.func(m.uncertain(rng, epoch).0)
    ensures m.Sample(rng, epoch).1 == m.uncertain(rng, epoch).1
    ensures m.AsSampler()(rng, epoch) == m.Sample(rng, epoch)
  {
  }

  /**
   * Observed through a recording generator, one sample of the adapter asks
   * the upstream for exactly one sample, at the unchanged epoch.
   */
  lemma SingleUpstreamCall<R, U, T>(u: Sampler<R, U>, f: U -> T, rng: R, log: seq<nat>, epoch: nat)
    ensures Map(Recorded(u), f).Sample((rng, log), epoch) == (f(u(rng, epoch).0), (u(rng, epoch).1, log + [epoch]))
  {
  }

  /**
   * The adapter depends on its upstream only through the upstream's answer
   * at the same generator state and epoch: upstreams that agree there give
   * adapters that agree there.
   */
  lemma OnlyUpstreamMatters<R, U, T>(u1: Sampler<R, U>, u2: Sampler<R, U>, f: U -> T, rng: R, epoch: nat)
    requires u1(rng, epoch) == u2(rng, epoch)
    ensures Map(u1, f).Sample(rng, epoch) == Map(u2, f).Sample(rng, epoch)
  {
  }

  /**
   * Adding no randomness, the adapter keeps per-epoch idempotence: when the
   * upstream answers a repeated epoch with the same sample, so does it.
   */
  lemma IdempotencePreserved<R(!new), U, T>(m: Map<R, U, T>)
    requires IdempotentPerEpoch(m.uncertain)
    ensures IdempotentPerEpoch(m.AsSampler())
  {
  }

  /** Two adapters in a row sample as one adapter with the composed function. */
  lemma NestingComposes<R, U, V, T>(u: Sampler<R, U>, f: U -> V, g: V -> T, rng: R, epoch: nat)
    ensures Map(Map(u, f).AsSampler(), g).Sample(rng, epoch) == Map(u, (x: U) => g(f(x))).Sample(rng, epoch)
    ensures Map(Map(u, f).AsSampler(), g).Sample(rng, epoch) == (g(f(u(rng, epoch).0)), u(rng, epoch).1)
  {
  }

  /** `f` applied to every element of `vs`. */
  function Apply<U, T>(f: U -> T, vs: seq<U>): seq<T>
    decreases |vs|
  {
    if vs == [] then [] else Apply(f, vs[..|vs| - 1]) + [f(vs[|vs| - 1])]
  }

  /**
   * Sampling the adapter at a run of epochs gives the function applied to
   * the upstream's samples at those epochs, with the generator handed along
   * exactly as the upstream alone would leave it.
   */
  lemma {:induction false} SampleEachThroughMap<R, U, T>(m: Map<R, U, T>, rng: R, epochs: seq<nat>)
    ensures var (vs, last) := SampleEach(m.uncertain, rng, epochs);
            SampleEach(m.AsSampler(), rng, epochs) == (Apply(m.func, vs), last)
    decreases |epochs|
  {
    if epochs != [] {
      var init, e := epochs[..|epochs| - 1], epochs[|epochs| - 1];
      SampleEachThroughMap(m, rng, init);
      var (vs, mid) := SampleEach(m.uncertain, rng, init);
      var (v, last) := m.uncertain(mid, e);
      assert SampleEach(m.uncertain, rng, epochs) == (vs + [v], last);
      assert m.AsSampler()(mid, e) == (m.func(v), last);
      assert SampleEach(m.AsSampler(), rng, epochs) == (Apply(m.func, vs) + [m.func(v)], last);
      assert (vs + [v])[..|vs|] == vs;
    }
  }
}
