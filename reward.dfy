/**
 * The reward source: a process-wide pseudo-random generator and the Bernoulli pull built on it.
 *
 * The generator is modelled as the stream of uniform draws in [0, 1) that its seed determines,
 * together with a cursor that every draw advances. Beta samples are drawn by inverse transform
 * through an injected quantile function, so every random value of a run comes from this one stream.
 */
module Reward {

  class Rng {
    /** The uniform draw at each position of the generator's stream. */
    const stream: nat -> real
    /** The Beta(a, b) quantile function used to turn one uniform draw into a Beta sample. */
    const betaQuantile: (int, int, real) -> real
    /** How many draws have been consumed so far. */
    var pos: nat

    /** Every draw lies in [0, 1), and every Beta quantile of such a draw is a probability. */
    ghost predicate Valid() {
      && (forall k: nat :: 0.0 <= stream(k) < 1.0)
      && (forall a: int, b: int, u: real :: 0.0 <= u < 1.0 ==> 0.0 <= betaQuantile(a, b, u) <= 1.0)
    }

    constructor (stream: nat -> real, betaQuantile: (int, int, real) -> real)
      requires forall k: nat :: 0.0 <= stream(k) < 1.0
      requires forall a: int, b: int, u: real :: 0.0 <= u < 1.0 ==> 0.0 <= betaQuantile(a, b, u) <= 1.0
      ensures Valid() && pos == 0
      ensures this.stream == stream && this.betaQuantile == betaQuantile
    {
      this.stream := stream;
      this.betaQuantile := betaQuantile;
      pos := 0;
    }

    /** One uniform draw in [0, 1). */
    method Uniform() returns (u: real)
      requires Valid()
      modifies this
      ensures u == stream(old(pos)) && 0.0 <= u < 1.0
      ensures pos == old(pos) + 1
    {
      u := stream(pos);
      pos := pos + 1;
    }

    /** One arm chosen uniformly among 0..n-1, from one draw. */
    method Choice(n: nat) returns (k: nat)
      requires Valid() && n > 0
      modifies this
      ensures k < n
      ensures k == ChoiceOf(stream(old(pos)), n)
      ensures pos == old(pos) + 1
    {
      var u := Uniform();
      k := ChoiceOf(u, n);
    }

    /** One Beta(a[k], b[k]) sample per arm, consuming one draw each, in arm order. */
    method BetaSamples(a: seq<int>, b: seq<int>) returns (x: seq<real>)
      requires Valid() && |a| == |b|
      modifies this
      ensures |x| == |a|
      ensures forall k :: 0 <= k < |x| ==> x[k] == betaQuantile(a[k], b[k], stream(old(pos) + k))
      ensures forall k :: 0 <= k < |x| ==> 0.0 <= x[k] <= 1.0
      ensures pos == old(pos) + |a|
    {
      x := [];
      while |x| < |a|
        invariant |x| <= |a| && Valid()
        invariant pos == old(pos) + |x|
        invariant forall k :: 0 <= k < |x| ==> x[k] == betaQuantile(a[k], b[k], stream(old(pos) + k))
        invariant forall k :: 0 <= k < |x| ==> 0.0 <= x[k] <= 1.0
      {
        var u := Uniform();
        assert forall s: int, f: int, v: real :: 0.0 <= v < 1.0 ==> 0.0 <= betaQuantile(s, f, v) <= 1.0;
        x := x + [betaQuantile(a[|x|], b[|x|], u)];
      }
    }
  }

  /** The index picked by a uniform choice among n values when the draw is u. */
  function ChoiceOf(u: real, n: nat): (k: int)
    requires 0.0 <= u < 1.0 && n > 0
    ensures 0 <= k < n
    ensures k as real <= u * n as real < k as real + 1.0
  {
    assert 0.0 <= u * n as real;
    assert u * n as real < n as real by { MulBelowOne(u, n as real); }
    (u * n as real).Floor
  }

  lemma MulBelowOne(u: real, y: real)
    requires u < 1.0 && 0.0 < y
    ensures u * y < y
  {
    assert (1.0 - u) * y > 0.0;
  }

  /** The reward of one pull of an arm whose success probability is p, when the draw is u. */
  function Bernoulli(p: real, u: real): (r: int)
    ensures r == 0 || r == 1
    ensures 0.0 <= u < 1.0 && p <= 0.0 ==> r == 0
    ensures 0.0 <= u < 1.0 && 1.0 <= p ==> r == 1
    ensures 0.0 <= u ==> (r == 1 ==> 0.0 < p)
    ensures u < 1.0 ==> (r == 0 ==> p < 1.0)
  {
    if u < p then 1 else 0
  }

  /** Pulls `arm`: one draw from the generator, reward 1 when it falls below the arm's probability. */
  method Pull(I: seq<real>, arm: nat, rng: Rng) returns (r: int)
    requires arm < |I| && rng.Valid()
    modifies rng
    ensures r == Bernoulli(I[arm], rng.stream(old(rng.pos)))
    ensures rng.pos == old(rng.pos) + 1
  {
    var u := rng.Uniform();
    r := Bernoulli(I[arm], u);
  }
}
