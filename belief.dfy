/**
 * The belief state of Thompson sampling with a hint: an n x n matrix whose row i is a probability
 * distribution over which hinted rate is arm i's true rate, and its Bayesian update after a pull.
 */
module Belief {

  /** The total probability mass of a row. */
  function Mass(s: seq<real>): real {
    if |s| == 0 then 0.0 else Mass(s[..|s| - 1]) + s[|s| - 1]
  }

  ghost predicate NonNegative(s: seq<real>) {
    forall j :: 0 <= j < |s| ==> 0.0 <= s[j]
  }

  /** A row is a probability distribution: non-negative entries that sum to 1. */
  ghost predicate IsDistribution(s: seq<real>) {
    NonNegative(s) && Mass(s) == 1.0
  }

  /** The mass of a prefix grows by the next entry. */
  lemma MassPrefix(s: seq<real>, j: nat)
    requires j < |s|
    ensures Mass(s[..j + 1]) == Mass(s[..j]) + s[j]
  {
    assert s[..j + 1][..j] == s[..j];
  }

  /** A non-negative row has at least the mass of any one of its entries. */
  lemma {:induction false} MassAtLeast(s: seq<real>, j: nat)
    requires NonNegative(s) && j < |s|
    ensures Mass(s) >= s[j] >= 0.0
  {
    var m := |s| - 1;
    if j < m {
      MassAtLeast(s[..m], j);
    } else if m > 0 {
      MassNonNegative(s[..m]);
    }
  }

  lemma {:induction false} MassNonNegative(s: seq<real>)
    requires NonNegative(s)
    ensures Mass(s) >= 0.0
  {
    if |s| > 0 {
      MassNonNegative(s[..|s| - 1]);
    }
  }

  /** The row with every entry divided by z. */
  function Normalize(w: seq<real>, z: real): (v: seq<real>)
    requires z != 0.0
    ensures |v| == |w|
  {
    seq(|w|, j requires 0 <= j < |w| => w[j] / z)
  }

  /** Dividing every entry by z divides the mass by z. */
  lemma {:induction false} MassNormalize(w: seq<real>, z: real)
    requires z != 0.0
    ensures Mass(Normalize(w, z)) == Mass(w) / z
  {
    if |w| > 0 {
      var m := |w| - 1;
      assert Normalize(w, z)[..m] == Normalize(w[..m], z);
      MassNormalize(w[..m], z);
      assert Mass(w[..m]) / z + w[m] / z == (Mass(w[..m]) + w[m]) / z;
    }
  }

  /** A row of n copies of c has mass n * c. */
  lemma {:induction false} MassConstant(n: nat, c: real)
    ensures Mass(seq(n, _ => c)) == n as real * c
  {
    if n > 0 {
      assert seq(n, _ => c)[..n - 1] == seq(n - 1, _ => c);
      MassConstant(n - 1, c);
    }
  }

  /** A row of `np.ones(n) / n`. */
  function Uniform(n: nat): (u: seq<real>)
    requires n > 0
    ensures |u| == n
    ensures forall j :: 0 <= j < n ==> u[j] == 1.0 / n as real
  {
    seq(n, _ => 1.0 / n as real)
  }

  /** The initial row is a distribution that gives every rate positive mass. */
  lemma UniformIsDistribution(n: nat)
    requires n > 0
    ensures IsDistribution(Uniform(n))
    ensures forall j :: 0 <= j < n ==> Uniform(n)[j] > 0.0
  {
    MassConstant(n, 1.0 / n as real);
    assert Uniform(n) == seq(n, _ => 1.0 / n as real);
  }

  function Pow(x: real, k: nat): real {
    if k == 0 then 1.0 else x * Pow(x, k - 1)
  }

  /** The Bernoulli likelihood `p**r * (1 - p)**(1 - r)` of reward r under rate p. */
  function Likelihood(p: real, r: int): (w: real)
    requires r == 0 || r == 1
    ensures r == 1 ==> w == p
    ensures r == 0 ==> w == 1.0 - p
  {
    assert Pow(p, 1) == p * Pow(p, 0) == p;
    assert Pow(1.0 - p, 1) == (1.0 - p) * Pow(1.0 - p, 0) == 1.0 - p;
    Pow(p, r) * Pow(1.0 - p, 1 - r)
  }

  /**
   * The row multiplied entrywise by the likelihood of r under each hinted rate. With hinted rates
   * that are probabilities, weighing keeps a non-negative row non-negative and never raises an entry.
   */
  function Weigh(row: seq<real>, hint: seq<real>, r: int): (w: seq<real>)
    requires |row| == |hint| && (r == 0 || r == 1)
    ensures |w| == |row|
    ensures Rates(hint) && NonNegative(row) ==> NonNegative(w) && forall j :: 0 <= j < |w| ==> w[j] <= row[j]
  {
    LikelihoodScales(row, hint, r);
    var w := seq(|row|, j requires 0 <= j < |row| => Likelihood(hint[j], r) * row[j]);
    assert forall j :: 0 <= j < |row| ==> w[j] == Likelihood(hint[j], r) * row[j];
    w
  }

  /**
   * The posterior row: the weighed row divided by its mass, the normalising factor. An entry is
   * 0 exactly when weighing made it 0.
   */
  function Posterior(row: seq<real>, hint: seq<real>, r: int): (post: seq<real>)
    requires |row| == |hint| && (r == 0 || r == 1)
    requires Mass(Weigh(row, hint, r)) != 0.0
    ensures |post| == |row|
    ensures forall j :: 0 <= j < |row| ==> (post[j] == 0.0 <==> Weigh(row, hint, r)[j] == 0.0)
  {
    Normalize(Weigh(row, hint, r), Mass(Weigh(row, hint, r)))
  }

  /**
   * The row after reward r: its posterior. A zero normalising factor, which numpy would turn into
   * a row of nan, leaves the row as it is; Thompson sampling with a hint never meets one.
   */
  function Update(row: seq<real>, hint: seq<real>, r: int): (u: seq<real>)
    requires |row| == |hint| && (r == 0 || r == 1)
    ensures |u| == |row|
  {
    if Mass(Weigh(row, hint, r)) != 0.0 then Posterior(row, hint, r) else row
  }

  /**
   * The belief matrix after the pulls `arms` with rewards `rewards`, as rows: every row starts
   * uniform, and each pull updates the pulled arm's row and no other.
   */
  function Beliefs(hint: seq<real>, arms: seq<nat>, rewards: seq<int>): (b: seq<seq<real>>)
    requires Observed(hint, arms, rewards)
    ensures |b| == |hint| && forall i :: 0 <= i < |b| ==> |b[i]| == |hint|
  {
    if |arms| == 0 then seq(|hint|, _ => Uniform(|hint|))
    else
      var m := |arms| - 1;
      var b := Beliefs(hint, arms[..m], rewards[..m]);
      b[arms[m] := Update(b[arms[m]], hint, rewards[m])]
  }

  /** Pulls of arms with hinted rates that each paid 0 or 1. */
  ghost predicate Observed(hint: seq<real>, arms: seq<nat>, rewards: seq<int>) {
    && |hint| > 0 && |arms| == |rewards|
    && forall k :: 0 <= k < |arms| ==> arms[k] < |hint| && (rewards[k] == 0 || rewards[k] == 1)
  }

  /** One more pull updates the pulled arm's row and leaves every other row as it was. */
  lemma BeliefsAppend(hint: seq<real>, arms: seq<nat>, rewards: seq<int>, a: nat, r: int)
    requires Observed(hint, arms, rewards) && a < |hint| && (r == 0 || r == 1)
    ensures Observed(hint, arms + [a], rewards + [r])
    ensures var b := Beliefs(hint, arms, rewards);
      Beliefs(hint, arms + [a], rewards + [r]) == b[a := Update(b[a], hint, r)]
  {
    assert (arms + [a])[..|arms|] == arms && (rewards + [r])[..|rewards|] == rewards;
  }

  /** Column j of a matrix given by its rows. */
  function ColumnOf(b: seq<seq<real>>, j: nat): (col: seq<real>)
    requires forall i :: 0 <= i < |b| ==> j < |b[i]|
    ensures |col| == |b| && forall i :: 0 <= i < |b| ==> col[i] == b[i][j]
  {
    seq(|b|, i requires 0 <= i < |b| => b[i][j])
  }

  /** A likelihood under a probability lies in [0, 1], so it scales a non-negative entry down. */
  lemma LikelihoodScales(row: seq<real>, hint: seq<real>, r: int)
    requires |row| == |hint| && (r == 0 || r == 1)
    ensures Rates(hint) && NonNegative(row) ==>
      forall j :: 0 <= j < |row| ==> 0.0 <= Likelihood(hint[j], r) * row[j] <= row[j]
  {
    if Rates(hint) && NonNegative(row) {
      forall j | 0 <= j < |row| ensures 0.0 <= Likelihood(hint[j], r) * row[j] <= row[j] {
        var x := Likelihood(hint[j], r);
        assert 0.0 <= x <= 1.0;
        assert (1.0 - x) * row[j] >= 0.0;
        MulNonNegative(x, row[j]);
      }
    }
  }

  /** Hinted rates are probabilities. */
  ghost predicate Rates(hint: seq<real>) {
    forall j :: 0 <= j < |hint| ==> 0.0 <= hint[j] <= 1.0
  }

  /** When the normalising factor is positive, the posterior of a non-negative row is a distribution. */
  lemma PosteriorIsDistribution(row: seq<real>, hint: seq<real>, r: int)
    requires |row| == |hint| && (r == 0 || r == 1) && Rates(hint) && NonNegative(row)
    requires Mass(Weigh(row, hint, r)) > 0.0
    ensures IsDistribution(Posterior(row, hint, r))
  {
    var w := Weigh(row, hint, r);
    var z := Mass(w);
    MassNormalize(w, z);
    DivSelf(z);
    forall j | 0 <= j < |row|
      ensures 0.0 <= Posterior(row, hint, r)[j]
    {
      DivNonNegative(w[j], z);
    }
  }

  /**
   * A rate that explains reward r (positive when r is 1, below 1 when r is 0) and has positive
   * prior mass keeps positive mass: the normalising factor is positive and so is its posterior.
   */
  lemma TrueRateSurvives(row: seq<real>, hint: seq<real>, r: int, t: nat)
    requires |row| == |hint| && (r == 0 || r == 1) && Rates(hint) && NonNegative(row)
    requires t < |row| && row[t] > 0.0
    requires r == 1 ==> hint[t] > 0.0
    requires r == 0 ==> hint[t] < 1.0
    ensures Mass(Weigh(row, hint, r)) > 0.0
    ensures Posterior(row, hint, r)[t] > 0.0
  {
    var w := Weigh(row, hint, r);
    assert w[t] > 0.0;
    assert NonNegative(w) by {
      forall j | 0 <= j < |w| ensures 0.0 <= w[j] {
        assert 0.0 <= Likelihood(hint[j], r);
        MulNonNegative(Likelihood(hint[j], r), row[j]);
      }
    }
    MassAtLeast(w, t);
  }

  /** A reward of 1 rules out rate 0 and a reward of 0 rules out rate 1. */
  lemma PosteriorRulesOut(row: seq<real>, hint: seq<real>, r: int, j: nat)
    requires |row| == |hint| && (r == 0 || r == 1) && j < |row|
    requires Mass(Weigh(row, hint, r)) != 0.0
    requires (r == 1 && hint[j] == 0.0) || (r == 0 && hint[j] == 1.0)
    ensures Posterior(row, hint, r)[j] == 0.0
  {
  }

  lemma MulNonNegative(x: real, y: real)
    requires 0.0 <= x && 0.0 <= y
    ensures 0.0 <= x * y
  {
  }

  lemma DivSelf(z: real)
    requires z != 0.0
    ensures z / z == 1.0
  {
  }

  lemma DivNonNegative(x: real, z: real)
    requires 0.0 <= x && 0.0 < z
    ensures 0.0 <= x / z
  {
  }

  /** Row i of the matrix. */
  function Row(b: array2<real>, i: nat): (row: seq<real>)
    requires i < b.Length0
    reads b
    ensures |row| == b.Length1
    ensures forall j :: 0 <= j < b.Length1 ==> row[j] == b[i, j]
  {
    seq(b.Length1, j requires 0 <= j < b.Length1 reads b => b[i, j])
  }

  /** Column j of the matrix: `belief[:, j]`. */
  function Column(b: array2<real>, j: nat): (col: seq<real>)
    requires j < b.Length1
    reads b
    ensures |col| == b.Length0
    ensures forall i :: 0 <= i < b.Length0 ==> col[i] == b[i, j]
  {
    seq(b.Length0, i requires 0 <= i < b.Length0 reads b => b[i, j])
  }

  /**
   * The in-place update of the pulled arm's row: multiply each entry by its likelihood while
   * accumulating the normalising factor, then divide the row by it. Row `arm` becomes its
   * posterior; every other row is unchanged.
   */
  method UpdateRow(belief: array2<real>, arm: nat, hint: seq<real>, r: int)
    requires belief.Length0 == belief.Length1 == |hint| && arm < |hint| && (r == 0 || r == 1)
    requires Mass(Weigh(Row(belief, arm), hint, r)) != 0.0
    modifies belief
    ensures Row(belief, arm) == Posterior(old(Row(belief, arm)), hint, r)
    ensures forall i :: 0 <= i < |hint| && i != arm ==> Row(belief, i) == old(Row(belief, i))
  {
    var normalizingFactor := WeighRow(belief, arm, hint, r);
    DivideRow(belief, arm, normalizingFactor);
    forall i | 0 <= i < |hint| && i != arm
      ensures Row(belief, i) == old(Row(belief, i))
    {
      assert forall k :: 0 <= k < |hint| ==> Row(belief, i)[k] == old(Row(belief, i))[k];
    }
  }

  /** The first loop: `belief[arm, j] *= likelihood(j)`, summing the new entries. */
  method WeighRow(belief: array2<real>, arm: nat, hint: seq<real>, r: int)
    returns (normalizingFactor: real)
    requires belief.Length0 == belief.Length1 == |hint| && arm < |hint| && (r == 0 || r == 1)
    modifies belief
    ensures Row(belief, arm) == Weigh(old(Row(belief, arm)), hint, r)
    ensures normalizingFactor == Mass(Row(belief, arm))
    ensures forall i, k :: 0 <= i < |hint| && i != arm && 0 <= k < |hint| ==> belief[i, k] == old(belief[i, k])
  {
    var n := |hint|;
    ghost var prior := Row(belief, arm);
    ghost var w := Weigh(prior, hint, r);
    normalizingFactor := 0.0;
    for j := 0 to n
      invariant forall k :: 0 <= k < j ==> belief[arm, k] == w[k]
      invariant forall k :: j <= k < n ==> belief[arm, k] == prior[k]
      invariant forall i, k :: 0 <= i < n && i != arm && 0 <= k < n ==> belief[i, k] == old(belief[i, k])
      invariant normalizingFactor == Mass(w[..j])
    {
      assert belief[arm, j] == prior[j];
      belief[arm, j] := Likelihood(hint[j], r) * belief[arm, j];
      assert belief[arm, j] == w[j];
      MassPrefix(w, j);
      normalizingFactor := normalizingFactor + belief[arm, j];
    }
    assert Row(belief, arm) == w == w[..n];
  }

  /** The second step: `belief[arm, :] /= normalizing_factor`. */
  method DivideRow(belief: array2<real>, arm: nat, z: real)
    requires arm < belief.Length0 && z != 0.0
    modifies belief
    ensures Row(belief, arm) == Normalize(old(Row(belief, arm)), z)
    ensures forall i, k :: 0 <= i < belief.Length0 && i != arm && 0 <= k < belief.Length1 ==> belief[i, k] == old(belief[i, k])
  {
    ghost var w := Row(belief, arm);
    for j := 0 to belief.Length1
      invariant forall k :: 0 <= k < j ==> belief[arm, k] == w[k] / z
      invariant forall k :: j <= k < belief.Length1 ==> belief[arm, k] == w[k]
      invariant forall i, k :: 0 <= i < belief.Length0 && i != arm && 0 <= k < belief.Length1 ==> belief[i, k] == old(belief[i, k])
    {
      belief[arm, j] := belief[arm, j] / z;
    }
    assert Row(belief, arm) == Normalize(w, z);
  }
}
