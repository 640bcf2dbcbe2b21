/**
 * Pull records and regret accounting shared by the epsilon-greedy, UCB and KL-UCB policies:
 * the per-arm `num_pulls` and `sum_rewards` arrays, the warm-up that pulls every arm once,
 * the empirical means, and the final regret.
 */
module Records {
  import opened Reward
  import opened Selection

  /** An instance: at least one arm, every success probability in [0, 1]. */
  ghost predicate ValidInstance(I: seq<real>) {
    |I| > 0 && forall a :: 0 <= a < |I| ==> 0.0 <= I[a] <= 1.0
  }

  /** The number of iterations of Python's `range(x)`. */
  function Clamp(x: int): nat {
    if x < 0 then 0 else x
  }

  function Min(x: int, y: int): int {
    if x < y then x else y
  }

  function Sum(s: seq<int>): int {
    if |s| == 0 then 0 else Sum(s[..|s| - 1]) + s[|s| - 1]
  }

  /** Adding d to one entry adds d to the sum. */
  lemma {:induction false} SumUpdate(s: seq<int>, i: nat, d: int)
    requires i < |s|
    ensures Sum(s[i := s[i] + d]) == Sum(s) + d
  {
    var t := s[i := s[i] + d];
    var m := |s| - 1;
    if i == m {
      assert t[..m] == s[..m];
    } else {
      assert t[..m] == s[..m][i := s[i] + d];
      SumUpdate(s[..m], i, d);
    }
  }

  /** The sum of entrywise differences is the difference of the sums. */
  lemma {:induction false} SumDifference(c: seq<int>, s: seq<int>, d: seq<int>)
    requires |c| == |s| == |d| && forall a :: 0 <= a < |d| ==> d[a] == c[a] - s[a]
    ensures Sum(d) == Sum(c) - Sum(s)
  {
    if |d| > 0 {
      var m := |d| - 1;
      SumDifference(c[..m], s[..m], d[..m]);
    }
  }

  /** Entrywise order carries over to the sums. */
  lemma {:induction false} SumMonotone(s: seq<int>, t: seq<int>)
    requires |s| == |t|
    requires forall a :: 0 <= a < |s| ==> s[a] <= t[a]
    ensures Sum(s) <= Sum(t)
  {
    if |s| > 0 {
      SumMonotone(s[..|s| - 1], t[..|t| - 1]);
    }
  }

  /** The records of a run: 0 <= sum_rewards[a] <= num_pulls[a] for every arm. */
  ghost predicate Consistent(pulls: seq<int>, sums: seq<int>) {
    |pulls| == |sums| && forall a :: 0 <= a < |pulls| ==> 0 <= sums[a] <= pulls[a]
  }

  /** Consistent records hold no more reward than pulls, in total. */
  lemma RewardsWithinPulls(pulls: seq<int>, sums: seq<int>)
    requires Consistent(pulls, sums)
    ensures 0 <= Sum(sums) <= Sum(pulls)
  {
    SumMonotone(sums, pulls);
    SumMonotone(seq(|sums|, _ => 0), sums);
    SumZero(|sums|);
  }

  lemma {:induction false} SumZero(n: nat)
    ensures Sum(seq(n, _ => 0)) == 0
  {
    if n > 0 {
      assert seq(n, _ => 0)[..n - 1] == seq(n - 1, _ => 0);
      SumZero(n - 1);
    }
  }

  /** Every arm has been pulled at least once. */
  ghost predicate AllPulled(pulls: seq<int>) {
    forall a :: 0 <= a < |pulls| ==> pulls[a] >= 1
  }

  /** The pull counts a sequence of pulled arms leaves: entry a is the number of pulls of arm a. */
  function Counts(n: nat, arms: seq<nat>): (c: seq<int>)
    ensures |c| == n
  {
    if |arms| == 0 then seq(n, _ => 0)
    else
      var c := Counts(n, arms[..|arms| - 1]);
      var a := arms[|arms| - 1];
      if a < n then c[a := c[a] + 1] else c
  }

  /** The reward sums the pulls leave: entry a totals the rewards of the pulls of arm a. */
  function Totals(n: nat, arms: seq<nat>, rewards: seq<int>): (t: seq<int>)
    requires |arms| == |rewards|
    ensures |t| == n
  {
    if |arms| == 0 then seq(n, _ => 0)
    else
      var m := |arms| - 1;
      var t := Totals(n, arms[..m], rewards[..m]);
      if arms[m] < n then t[arms[m] := t[arms[m]] + rewards[m]] else t
  }

  /** Every pull is of an arm of the instance and every reward is 0 or 1. */
  ghost predicate Outcomes(n: nat, arms: seq<nat>, rewards: seq<int>) {
    |arms| == |rewards| && forall k :: 0 <= k < |arms| ==> arms[k] < n && (rewards[k] == 0 || rewards[k] == 1)
  }

  /** One more pull adds one to the pulled arm's count and its reward to that arm's sum. */
  lemma RecordAppend(n: nat, arms: seq<nat>, rewards: seq<int>, a: nat, r: int)
    requires |arms| == |rewards| && a < n
    ensures Counts(n, arms + [a]) == Counts(n, arms)[a := Counts(n, arms)[a] + 1]
    ensures Totals(n, arms + [a], rewards + [r]) == Totals(n, arms, rewards)[a := Totals(n, arms, rewards)[a] + r]
    ensures Sum(rewards + [r]) == Sum(rewards) + r
  {
    CountsAppend(n, arms, a);
    TotalsAppend(n, arms, rewards, a, r);
    SumAppend(rewards, r);
  }

  lemma CountsAppend(n: nat, arms: seq<nat>, a: nat)
    requires a < n
    ensures Counts(n, arms + [a]) == Counts(n, arms)[a := Counts(n, arms)[a] + 1]
  {
    assert (arms + [a])[..|arms|] == arms;
  }

  lemma TotalsAppend(n: nat, arms: seq<nat>, rewards: seq<int>, a: nat, r: int)
    requires |arms| == |rewards| && a < n
    ensures Totals(n, arms + [a], rewards + [r]) == Totals(n, arms, rewards)[a := Totals(n, arms, rewards)[a] + r]
  {
    assert (arms + [a])[..|arms|] == arms;
    assert (rewards + [r])[..|rewards|] == rewards;
  }

  lemma SumAppend(s: seq<int>, x: int)
    ensures Sum(s + [x]) == Sum(s) + x
  {
    assert (s + [x])[..|s|] == s;
  }

  /** The counts add up to the number of pulls. */
  lemma {:induction false} CountsSum(n: nat, arms: seq<nat>)
    requires forall k :: 0 <= k < |arms| ==> arms[k] < n
    ensures Sum(Counts(n, arms)) == |arms|
  {
    if |arms| == 0 {
      SumZero(n);
    } else {
      var m := |arms| - 1;
      CountsSum(n, arms[..m]);
      SumUpdate(Counts(n, arms[..m]), arms[m], 1);
    }
  }

  /** The reward sums add up to the total reward. */
  lemma {:induction false} TotalsSum(n: nat, arms: seq<nat>, rewards: seq<int>)
    requires |arms| == |rewards| && forall k :: 0 <= k < |arms| ==> arms[k] < n
    ensures Sum(Totals(n, arms, rewards)) == Sum(rewards)
  {
    if |arms| == 0 {
      SumZero(n);
    } else {
      var m := |arms| - 1;
      TotalsSum(n, arms[..m], rewards[..m]);
      SumUpdate(Totals(n, arms[..m], rewards[..m]), arms[m], rewards[m]);
    }
  }

  /** The records of 0/1 rewards are consistent: no arm holds more reward than pulls. */
  lemma {:induction false} OutcomesConsistent(n: nat, arms: seq<nat>, rewards: seq<int>)
    requires Outcomes(n, arms, rewards)
    ensures Consistent(Counts(n, arms), Totals(n, arms, rewards))
  {
    if |arms| > 0 {
      var m := |arms| - 1;
      assert Outcomes(n, arms[..m], rewards[..m]);
      OutcomesConsistent(n, arms[..m], rewards[..m]);
    }
  }

  /** Each reward is one the pulled arm's rate allows: 1 needs a positive rate, 0 a rate below 1. */
  ghost predicate Plausible(I: seq<real>, arms: seq<nat>, rewards: seq<int>) {
    && Outcomes(|I|, arms, rewards)
    && forall k :: 0 <= k < |arms| ==> (rewards[k] == 1 ==> I[arms[k]] > 0.0) && (rewards[k] == 0 ==> I[arms[k]] < 1.0)
  }

  /** Every arm pays never (all rates 0) or always (all rates 1). */
  ghost predicate Certain(I: seq<real>) {
    (forall a :: 0 <= a < |I| ==> I[a] == 0.0) || (forall a :: 0 <= a < |I| ==> I[a] == 1.0)
  }

  /** On an instance whose arms pay never, no pull pays; on one whose arms pay always, every pull does. */
  lemma {:induction false} CertainRewards(I: seq<real>, arms: seq<nat>, rewards: seq<int>)
    requires Plausible(I, arms, rewards)
    ensures (forall a :: 0 <= a < |I| ==> I[a] == 0.0) ==> Sum(rewards) == 0
    ensures (forall a :: 0 <= a < |I| ==> I[a] == 1.0) ==> Sum(rewards) == |rewards|
  {
    if |arms| > 0 {
      var m := |arms| - 1;
      assert Plausible(I, arms[..m], rewards[..m]);
      CertainRewards(I, arms[..m], rewards[..m]);
    }
  }

  /** Rewards that are 0 or 1 total between 0 and their number. */
  lemma {:induction false} RewardsBetween(n: nat, arms: seq<nat>, rewards: seq<int>)
    requires Outcomes(n, arms, rewards)
    ensures 0 <= Sum(rewards) <= |rewards|
  {
    if |arms| > 0 {
      var m := |arms| - 1;
      assert Outcomes(n, arms[..m], rewards[..m]);
      RewardsBetween(n, arms[..m], rewards[..m]);
    }
  }

  /**
   * One pull of `arm` and its bookkeeping: `r = pull(I, arm)`, `sum_rewards[arm] += r`,
   * `num_pulls[arm] += 1`, `total_reward += r`. Only the pulled arm's entries change, the arrays
   * stay the records of the pulls made so far and the total stays the sum of the rewards.
   */
  method PullAndRecord(I: seq<real>, arm: nat, rng: Rng, pulls: array<int>, sums: array<int>, total: int,
                       ghost arms: seq<nat>, ghost rewards: seq<int>)
    returns (newTotal: int, r: int)
    requires rng.Valid() && arm < |I|
    requires pulls != sums && pulls.Length == sums.Length == |I| && |arms| == |rewards|
    requires pulls[..] == Counts(|I|, arms) && sums[..] == Totals(|I|, arms, rewards)
    requires total == Sum(rewards)
    modifies rng, pulls, sums
    ensures rng.pos == old(rng.pos) + 1
    ensures r == Bernoulli(I[arm], rng.stream(old(rng.pos)))
    ensures pulls[..] == old(pulls[..])[arm := old(pulls[arm]) + 1]
    ensures pulls[..] == Counts(|I|, arms + [arm]) && sums[..] == Totals(|I|, arms + [arm], rewards + [r])
    ensures newTotal == Sum(rewards + [r])
    ensures AllPulled(old(pulls[..])) ==> AllPulled(pulls[..])
  {
    r := Pull(I, arm, rng);
    RecordAppend(|I|, arms, rewards, arm, r);
    sums[arm] := sums[arm] + r;
    pulls[arm] := pulls[arm] + 1;
    newTotal := total + r;
  }

  /**
   * The warm-up: pulls arms 0 .. min(n, hz) - 1 once each, in index order, one draw each.
   * `arms` and `rewards` list the pulls made, the arrays end as their records and `total` is
   * the reward collected.
   */
  method WarmUp(I: seq<real>, hz: int, rng: Rng, pulls: array<int>, sums: array<int>)
    returns (total: int, ghost arms: seq<nat>, ghost rewards: seq<int>)
    requires rng.Valid()
    requires pulls != sums && pulls.Length == sums.Length == |I|
    requires forall a :: 0 <= a < |I| ==> pulls[a] == 0 && sums[a] == 0
    modifies rng, pulls, sums
    ensures rng.pos == old(rng.pos) + Min(|I|, Clamp(hz))
    ensures arms == Strided(0, 1, Min(|I|, Clamp(hz)))
    ensures Paid(I, rng, arms, rewards, Strided(old(rng.pos), 1, |arms|))
    ensures pulls[..] == Counts(|I|, arms) && sums[..] == Totals(|I|, arms, rewards)
    ensures total == Sum(rewards)
  {
    var n := |I|;
    total := 0;
    arms, rewards := [], [];
    assert pulls[..] == seq(n, _ => 0) && sums[..] == seq(n, _ => 0);
    ghost var start := rng.pos;
    for i := 0 to Min(n, Clamp(hz))
      invariant rng.pos == start + i && arms == Strided(0, 1, i)
      invariant Paid(I, rng, arms, rewards, Strided(start, 1, i))
      invariant pulls[..] == Counts(n, arms) && sums[..] == Totals(n, arms, rewards)
      invariant total == Sum(rewards)
    {
      var r;
      total, r := PullAndRecord(I, i, rng, pulls, sums, total, arms, rewards);
      PaidStep(I, rng, start, arms, rewards, i, r);
      StrideIsProduct(i, 1);
      assert Strided(0, 1, i + 1) == arms + [i];
      arms, rewards := arms + [i], rewards + [r];
    }
  }

  /** After the warm-up of m <= n pulls, arms 0 .. m - 1 have one pull each and the rest none. */
  lemma {:induction false} WarmUpCounts(n: nat, m: nat)
    requires m <= n
    ensures forall a :: 0 <= a < n ==> Counts(n, Strided(0, 1, m))[a] == if a < m then 1 else 0
  {
    if m > 0 {
      WarmUpCounts(n, m - 1);
      StrideIsProduct(m - 1, 1);
      assert Strided(0, 1, m)[..m - 1] == Strided(0, 1, m - 1);
    }
  }

  /** Pull k was of arm `arms[k]` and paid `rewards[k]`, the Bernoulli outcome of the draw at `draws[k]`. */
  ghost predicate Paid(I: seq<real>, rng: Rng, arms: seq<nat>, rewards: seq<int>, draws: seq<nat>)
    decreases |arms|
  {
    && |arms| == |rewards| == |draws|
    && (|arms| > 0 ==>
          var m := |arms| - 1;
          && Paid(I, rng, arms[..m], rewards[..m], draws[..m])
          && arms[m] < |I| && rewards[m] == Bernoulli(I[arms[m]], rng.stream(draws[m])))
  }

  lemma PaidAppend(I: seq<real>, rng: Rng, arms: seq<nat>, rewards: seq<int>, draws: seq<nat>, a: nat, r: int, d: nat)
    requires Paid(I, rng, arms, rewards, draws) && a < |I| && r == Bernoulli(I[a], rng.stream(d))
    ensures Paid(I, rng, arms + [a], rewards + [r], draws + [d])
  {
    assert (arms + [a])[..|arms|] == arms;
    assert (rewards + [r])[..|arms|] == rewards;
    assert (draws + [d])[..|arms|] == draws;
  }

  /** Pull by pull: pull k was of a known arm and paid the Bernoulli outcome of the draw at `draws[k]`. */
  lemma {:induction false} PaidAt(I: seq<real>, rng: Rng, arms: seq<nat>, rewards: seq<int>, draws: seq<nat>)
    requires Paid(I, rng, arms, rewards, draws)
    ensures forall k :: 0 <= k < |arms| ==> arms[k] < |I| && rewards[k] == Bernoulli(I[arms[k]], rng.stream(draws[k]))
    decreases |arms|
  {
    if |arms| > 0 {
      var m := |arms| - 1;
      PaidAt(I, rng, arms[..m], rewards[..m], draws[..m]);
    }
  }

  /** k * gap, added up one gap at a time. */
  function Stride(k: nat, gap: nat): nat
  {
    if k == 0 then 0 else Stride(k - 1, gap) + gap
  }

  lemma {:induction false} StrideIsProduct(k: nat, gap: nat)
    ensures Stride(k, gap) == k * gap
  {
    if k > 0 {
      StrideIsProduct(k - 1, gap);
      assert (k - 1) * gap + gap == k * gap;
    }
  }

  /** The count draw positions start, start + gap, start + 2 * gap, ... */
  function Strided(start: nat, gap: nat, count: nat): (p: seq<nat>)
    ensures |p| == count
  {
    if count == 0 then [] else Strided(start, gap, count - 1) + [start + Stride(count - 1, gap)]
  }

  /** One more position of a strided run is the next stride after the last. */
  lemma StridedNext(start: nat, gap: nat, count: nat)
    ensures Strided(start, gap, count + 1) == Strided(start, gap, count) + [start + Stride(count, gap)]
  {
  }

  /** A pull paid by the next strided draw extends the paid pulls by one. */
  lemma PaidNext(I: seq<real>, rng: Rng, start: nat, gap: nat, arms: seq<nat>, rewards: seq<int>, a: nat, r: int)
    requires Paid(I, rng, arms, rewards, Strided(start, gap, |arms|))
    requires a < |I| && r == Bernoulli(I[a], rng.stream(start + Stride(|arms|, gap)))
    ensures Paid(I, rng, arms + [a], rewards + [r], Strided(start, gap, |arms + [a]|))
  {
    PaidAppend(I, rng, arms, rewards, Strided(start, gap, |arms|), a, r, start + Stride(|arms|, gap));
  }

  /** PaidNext for draws taken one after another. */
  lemma PaidStep(I: seq<real>, rng: Rng, start: nat, arms: seq<nat>, rewards: seq<int>, a: nat, r: int)
    requires Paid(I, rng, arms, rewards, Strided(start, 1, |arms|))
    requires a < |I| && r == Bernoulli(I[a], rng.stream(start + |arms|))
    ensures Paid(I, rng, arms + [a], rewards + [r], Strided(start, 1, |arms + [a]|))
  {
    StrideIsProduct(|arms|, 1);
    PaidNext(I, rng, start, 1, arms, rewards, a, r);
  }

  /**
   * `r = pull(I, arm)` when the pulls so far were paid by consecutive draws from `start` on:
   * the reward is 0 or 1, one the arm's rate allows, and the next draw pays it.
   */
  method PullNext(I: seq<real>, arm: nat, rng: Rng, ghost start: nat, ghost arms: seq<nat>, ghost rewards: seq<int>)
    returns (r: int)
    requires rng.Valid() && arm < |I| && rng.pos == start + |arms|
    requires Paid(I, rng, arms, rewards, Strided(start, 1, |arms|))
    modifies rng
    ensures rng.pos == old(rng.pos) + 1
    ensures (r == 0 || r == 1) && (r == 1 ==> I[arm] > 0.0) && (r == 0 ==> I[arm] < 1.0)
    ensures Paid(I, rng, arms + [arm], rewards + [r], Strided(start, 1, |arms| + 1))
  {
    ghost var d := rng.pos;
    r := Pull(I, arm, rng);
    assert 0.0 <= rng.stream(d) < 1.0;
    PaidStep(I, rng, start, arms, rewards, arm, r);
  }

  /** Entry k of a strided run is start + k * gap. */
  lemma {:induction false} StridedAt(start: nat, gap: nat, count: nat)
    ensures forall k :: 0 <= k < count ==> Strided(start, gap, count)[k] == start + k * gap
  {
    if count > 0 {
      StridedAt(start, gap, count - 1);
      StrideIsProduct(count - 1, gap);
    }
  }

  /** The first n entries of s (all of them, if s is shorter) are start, start + 1, ... */
  ghost predicate Counting(s: seq<nat>, start: nat, n: nat)
    decreases |s|
  {
    |s| > 0 ==>
      var m := |s| - 1;
      Counting(s[..m], start, n) && (m < n ==> s[m] == start + m)
  }

  lemma CountingAppend(s: seq<nat>, start: nat, n: nat, x: nat)
    requires Counting(s, start, n) && |s| >= n
    ensures Counting(s + [x], start, n)
  {
    assert (s + [x])[..|s|] == s;
  }

  /** A run of consecutive positions counts up from its start. */
  lemma {:induction false} StridedCounting(start: nat, count: nat, n: nat)
    ensures Counting(Strided(start, 1, count), start, n)
  {
    if count > 0 {
      StridedCounting(start, count - 1, n);
      assert Strided(start, 1, count)[..count - 1] == Strided(start, 1, count - 1);
    }
  }

  /** Paid pulls leave consistent records: no arm holds more reward than pulls. */
  lemma PaidConsistent(I: seq<real>, rng: Rng, arms: seq<nat>, rewards: seq<int>, draws: seq<nat>)
    requires rng.Valid() && Paid(I, rng, arms, rewards, draws)
    ensures Consistent(Counts(|I|, arms), Totals(|I|, arms, rewards))
  {
    PaidPlausible(I, rng, arms, rewards, draws);
    OutcomesConsistent(|I|, arms, rewards);
  }

  /**
   * The records of paid pulls add up: the counts to the number of pulls, the reward sums to the
   * total reward, and every arm holds between 0 and its count in reward.
   */
  lemma PaidRecords(I: seq<real>, rng: Rng, arms: seq<nat>, rewards: seq<int>, draws: seq<nat>)
    requires rng.Valid() && Paid(I, rng, arms, rewards, draws)
    ensures Sum(Counts(|I|, arms)) == |arms|
    ensures Sum(Totals(|I|, arms, rewards)) == Sum(rewards)
    ensures Consistent(Counts(|I|, arms), Totals(|I|, arms, rewards))
  {
    PaidAt(I, rng, arms, rewards, draws);
    CountsSum(|I|, arms);
    TotalsSum(|I|, arms, rewards);
    PaidConsistent(I, rng, arms, rewards, draws);
  }

  /** Rewards paid from draws in [0, 1) are 0 or 1 and are ones the pulled arms' rates allow. */
  lemma PaidPlausible(I: seq<real>, rng: Rng, arms: seq<nat>, rewards: seq<int>, draws: seq<nat>)
    requires rng.Valid() && Paid(I, rng, arms, rewards, draws)
    ensures Plausible(I, arms, rewards)
  {
    PaidAt(I, rng, arms, rewards, draws);
  }

  /** `sum_rewards / num_pulls`, elementwise; every count is non-zero after the warm-up. */
  function Means(sums: seq<int>, pulls: seq<int>): (m: seq<real>)
    requires |sums| == |pulls| && AllPulled(pulls)
    ensures |m| == |pulls|
    ensures forall a :: 0 <= a < |m| ==> m[a] * pulls[a] as real == sums[a] as real
    ensures Consistent(pulls, sums) ==> forall a :: 0 <= a < |m| ==> 0.0 <= m[a] <= 1.0
  {
    var m := seq(|pulls|, a requires 0 <= a < |pulls| => sums[a] as real / pulls[a] as real);
    assert forall a :: 0 <= a < |m| ==>
      m[a] * pulls[a] as real == sums[a] as real && (0 <= sums[a] <= pulls[a] ==> 0.0 <= m[a] <= 1.0) by {
      forall a | 0 <= a < |m|
        ensures m[a] * pulls[a] as real == sums[a] as real && (0 <= sums[a] <= pulls[a] ==> 0.0 <= m[a] <= 1.0)
      {
        Quotient(sums[a] as real, pulls[a] as real);
      }
    }
    m
  }

  /** A quotient by a positive number times that number is the dividend, and a share of it lies in [0, 1]. */
  lemma Quotient(x: real, y: real)
    requires y > 0.0
    ensures (x / y) * y == x
    ensures 0.0 <= x <= y ==> 0.0 <= x / y <= 1.0
  {
  }

  /** `max(I) * hz - total_reward`: the regret against the best arm's expected reward. */
  function Regret(I: seq<real>, hz: int, total: int): real
    requires |I| > 0
  {
    MaxOf(I) * hz as real - total as real
  }

  /**
   * The regret is measured against the best arm: it is at least the regret against any one arm's
   * expected reward, and equals the regret against some arm's.
   */
  lemma RegretAgainstArms(I: seq<real>, hz: nat, total: int)
    requires |I| > 0
    ensures forall a :: 0 <= a < |I| ==> I[a] * hz as real - total as real <= Regret(I, hz, total)
    ensures exists a :: 0 <= a < |I| && Regret(I, hz, total) == I[a] * hz as real - total as real
  {
    var best := MaxOf(I);
    forall a | 0 <= a < |I| ensures I[a] * hz as real <= best * hz as real {
      assert (best - I[a]) * hz as real >= 0.0;
    }
  }

  /** When every arm pays never or always, a run of hz >= 0 pulls has regret 0. */
  lemma CertainRegret(I: seq<real>, hz: int, arms: seq<nat>, rewards: seq<int>)
    requires |I| > 0 && Plausible(I, arms, rewards) && Certain(I)
    requires hz >= 0 && |rewards| == hz
    ensures Regret(I, hz, Sum(rewards)) == 0.0
  {
    CertainRewards(I, arms, rewards);
  }

  /**
   * A run that collected between 0 and hz reward has a regret in [(max(I) - 1) * hz, max(I) * hz]:
   * it may be negative, and it never exceeds the oracle's expected reward.
   */
  lemma RegretRange(I: seq<real>, hz: nat, total: int)
    requires |I| > 0 && 0 <= total <= hz
    ensures (MaxOf(I) - 1.0) * hz as real <= Regret(I, hz, total) <= MaxOf(I) * hz as real
  {
    Between(MaxOf(I), hz as real, total as real);
  }

  lemma Between(m: real, h: real, t: real)
    requires t <= h
    ensures (m - 1.0) * h <= m * h - t
  {
    assert (m - 1.0) * h == m * h - h;
  }
}
