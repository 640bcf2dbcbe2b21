/**
 * The KL-UCB index: for one arm, the bisection that narrows [l, h] from [mean, 1] towards the
 * largest q whose scaled Bernoulli KL divergence from the mean stays within the threshold.
 * The natural logarithm is a parameter; the divergence is written out over exact reals.
 */
module KlBisection {

  /** The exploration constant c of the threshold ln t + c ln ln t. */
  const C: real := 3.0
  /** The tolerance at which the bisection stops. */
  const Eps: real := 0.001
  /** The stabiliser added inside both logarithms of the divergence. */
  const Stabiliser: real := 0.000000001

  /** The stabilised Bernoulli KL divergence KL(p, q). */
  function Kl(p: real, q: real, ln: real -> real): real
    requires 0.0 <= q <= 1.0
  {
    p * ln(p / (q + Stabiliser)) + (1.0 - p) * ln((1.0 - p) / (1.0 - q + Stabiliser))
  }

  /** `ln(t) + c * ln(ln(t))`, with t the absolute pull count. */
  function Threshold(t: int, ln: real -> real): real {
    ln(t as real) + C * ln(ln(t as real))
  }

  /** The bisection's test: `num_pulls * KL(mean, q) > thres`, q is too far from the mean. */
  predicate Exceeds(mean: real, pulls: int, thres: real, ln: real -> real, q: real)
    requires 0.0 <= q <= 1.0
  {
    pulls as real * Kl(mean, q, ln) > thres
  }

  /**
   * [l, h] brackets the boundary of the KL constraint within the tolerance: it lies in [mean, 1],
   * l is the mean or satisfies the constraint, h is 1 or violates it, and h - l <= eps.
   */
  ghost predicate Bracket(mean: real, pulls: int, thres: real, ln: real -> real, l: real, h: real) {
    && mean <= l <= h <= 1.0
    && 0.0 <= l
    && h - l <= Eps
    && (l == mean || !Exceeds(mean, pulls, thres, ln, l))
    && (h == 1.0 || Exceeds(mean, pulls, thres, ln, h))
  }

  /** The width of [0, 1] after k halvings. */
  function Width(k: nat): (w: real)
    ensures w > 0.0
  {
    if k == 0 then 1.0 else Width(k - 1) / 2.0
  }

  lemma {:induction false} WidthTen()
    ensures Width(10) < Eps
  {
    assert Width(2) == 0.25;
    assert Width(4) == 0.0625;
    assert Width(6) == 0.015625;
    assert Width(8) == 0.00390625;
  }

  /**
   * The bracket the bisection ends with when it continues from [l, h] after k halvings: while
   * l < h - eps, it halves at the midpoint, keeping the upper half unless the midpoint exceeds
   * the constraint. Ten halvings suffice, so k never passes 10.
   */
  function Halvings(mean: real, pulls: int, thres: real, ln: real -> real, l: real, h: real, k: nat): (real, real)
    requires 0.0 <= mean <= l <= h <= 1.0 && h - l <= Width(k) && k <= 10
    decreases 10 - k
  {
    if l < h - Eps then
      WidthTen();
      var m := (l + h) / 2.0;
      if Exceeds(mean, pulls, thres, ln, m) then Halvings(mean, pulls, thres, ln, l, m, k + 1)
      else Halvings(mean, pulls, thres, ln, m, h, k + 1)
    else (l, h)
  }

  /**
   * One halving of [l, h] at its midpoint: the upper half is kept unless the midpoint exceeds
   * the constraint. What the bisection ends with is unchanged, and the interval still brackets
   * the boundary.
   */
  method Halve(mean: real, pulls: int, thres: real, ln: real -> real, l: real, h: real, ghost k: nat)
    returns (l': real, h': real)
    requires 0.0 <= mean <= l <= h <= 1.0 && h - l <= Width(k) && k <= 10 && l < h - Eps
    requires l == mean || !Exceeds(mean, pulls, thres, ln, l)
    requires h == 1.0 || Exceeds(mean, pulls, thres, ln, h)
    ensures mean <= l' <= h' <= 1.0 && h' - l' <= Width(k + 1) && k + 1 <= 10
    ensures Halvings(mean, pulls, thres, ln, l', h', k + 1) == Halvings(mean, pulls, thres, ln, l, h, k)
    ensures l' == mean || !Exceeds(mean, pulls, thres, ln, l')
    ensures h' == 1.0 || Exceeds(mean, pulls, thres, ln, h')
  {
    if k == 10 {
      WidthTen();
      assert false;
    }
    var m := (l + h) / 2.0;
    assert m - l == h - m == (h - l) / 2.0 <= Width(k + 1);
    if Exceeds(mean, pulls, thres, ln, m) {
      l', h' := l, m;
    } else {
      l', h' := m, h;
    }
  }

  /**
   * The bisection loop: starts from [mean, 1] and halves the interval while l < h - eps, ending
   * with the bracket `Halvings` describes. The width after k halvings is at most 1 / 2^k, so at
   * most ten halvings happen. When mean >= 1 - eps the loop body never runs.
   */
  method Bisect(mean: real, pulls: int, thres: real, ln: real -> real) returns (l: real, h: real)
    requires 0.0 <= mean <= 1.0
    ensures (l, h) == Halvings(mean, pulls, thres, ln, mean, 1.0, 0)
    ensures Bracket(mean, pulls, thres, ln, l, h)
    ensures mean >= 1.0 - Eps ==> l == mean && h == 1.0
  {
    l := mean;
    h := 1.0;
    ghost var k: nat := 0;
    while l < h - Eps
      invariant mean <= l <= h <= 1.0
      invariant h - l <= Width(k)
      invariant k <= 10
      invariant Halvings(mean, pulls, thres, ln, l, h, k) == Halvings(mean, pulls, thres, ln, mean, 1.0, 0)
      invariant mean >= 1.0 - Eps ==> l == mean && h == 1.0
      invariant l == mean || !Exceeds(mean, pulls, thres, ln, l)
      invariant h == 1.0 || Exceeds(mean, pulls, thres, ln, h)
      decreases 10 - k
    {
      l, h := Halve(mean, pulls, thres, ln, l, h, k);
      k := k + 1;
    }
  }

  /** `ucb_metric[j]`: the midpoint of the bracket the bisection ends with. */
  function KlIndex(mean: real, pulls: int, thres: real, ln: real -> real): real
    requires 0.0 <= mean <= 1.0
  {
    var (l, h) := Halvings(mean, pulls, thres, ln, mean, 1.0, 0);
    (l + h) / 2.0
  }

  /** The KL index of every arm. */
  function KlIndices(means: seq<real>, pulls: seq<int>, thres: real, ln: real -> real): (q: seq<real>)
    requires |means| == |pulls| && forall j :: 0 <= j < |means| ==> 0.0 <= means[j] <= 1.0
    ensures |q| == |means|
  {
    seq(|means|, j requires 0 <= j < |means| => KlIndex(means[j], pulls[j], thres, ln))
  }

  /** q is the midpoint of a bracket: the value the source stores as `ucb_metric[j]`. */
  ghost predicate IsKlIndex(mean: real, pulls: int, thres: real, ln: real -> real, q: real) {
    exists l: real, h: real :: Bracket(mean, pulls, thres, ln, l, h) && q == (l + h) / 2.0
  }

  /**
   * A KL index lies in [mean, 1], and within eps / 2 of it there is a point satisfying the KL
   * constraint (or the mean itself) and one violating it (or 1).
   */
  lemma KlIndexBounds(mean: real, pulls: int, thres: real, ln: real -> real, q: real)
    requires IsKlIndex(mean, pulls, thres, ln, q)
    ensures mean <= q <= 1.0
    ensures exists l: real ::
              && mean <= l <= q && q - l <= Eps / 2.0 && 0.0 <= l
              && (l == mean || !Exceeds(mean, pulls, thres, ln, l))
    ensures exists h: real ::
              && q <= h <= 1.0 && h - q <= Eps / 2.0
              && (h == 1.0 || Exceeds(mean, pulls, thres, ln, h))
  {
    var l, h :| Bracket(mean, pulls, thres, ln, l, h) && q == (l + h) / 2.0;
    assert mean <= l <= q && q - l <= Eps / 2.0;
    assert q <= h <= 1.0 && h - q <= Eps / 2.0;
  }

  /** One arm's `ucb_metric[j]`: the midpoint of the bracket the bisection ends with. */
  method KlIndexOf(mean: real, pulls: int, thres: real, ln: real -> real) returns (q: real)
    requires 0.0 <= mean <= 1.0
    ensures q == KlIndex(mean, pulls, thres, ln)
    ensures IsKlIndex(mean, pulls, thres, ln, q) && mean <= q <= 1.0
  {
    var l, h := Bisect(mean, pulls, thres, ln);
    q := (l + h) / 2.0;
    KlIndexBounds(mean, pulls, thres, ln, q);
  }

  /**
   * The inner `for j in range(n)` loop: fills `ucb_metric` with each arm's KL index.
   */
  method KlUcbScores(means: seq<real>, pulls: seq<int>, thres: real, ln: real -> real)
    returns (metric: seq<real>)
    requires |means| == |pulls|
    requires forall j :: 0 <= j < |means| ==> 0.0 <= means[j] <= 1.0
    ensures metric == KlIndices(means, pulls, thres, ln)
    ensures forall j :: 0 <= j < |means| ==> IsKlIndex(means[j], pulls[j], thres, ln, metric[j])
    ensures forall j :: 0 <= j < |means| ==> means[j] <= metric[j] <= 1.0
  {
    var ucbMetric := new real[|means|](_ => 0.0);
    ghost var found: seq<real> := [];
    for j := 0 to |means|
      invariant |found| == j && ucbMetric[..j] == found
      invariant forall i :: 0 <= i < j ==> found[i] == KlIndex(means[i], pulls[i], thres, ln)
      invariant forall i :: 0 <= i < j ==> IsKlIndex(means[i], pulls[i], thres, ln, found[i]) && means[i] <= found[i] <= 1.0
    {
      var q := KlIndexOf(means[j], pulls[j], thres, ln);
      ucbMetric[j] := q;
      found := found + [q];
      assert ucbMetric[..j + 1] == ucbMetric[..j] + [q];
    }
    metric := ucbMetric[..];
    assert metric == found;
    assert metric == KlIndices(means, pulls, thres, ln);
  }
}
