/**
 * The five policies. Each runs the shared simulation shape (warm-up, decision loop, regret) and
 * differs in how it picks the next arm and in the state it keeps.
 */
module Policies {
  import opened Wrappers
  import opened Reward
  import opened Selection
  import opened Records
  import opened KlBisection
  import opened Belief

  /** UCB scores: `means + sqrt(2 * ln(t) / num_pulls)`. */
  function UcbScores(means: seq<real>, pulls: seq<int>, t: int, ln: real -> real, sqrt: real -> real)
    : (s: seq<real>)
    requires |means| == |pulls| && AllPulled(pulls)
    ensures |s| == |means|
  {
    seq(|means|, a requires 0 <= a < |means| => means[a] + sqrt(2.0 * ln(t as real) / pulls[a] as real))
  }

  /**
   * When sqrt is monotone and ln(t) >= 0, of two arms with the same mean the one pulled less
   * often scores at least as high: the bonus shrinks as an arm is explored.
   */
  lemma UcbFavoursLessPulled(means: seq<real>, pulls: seq<int>, t: int, ln: real -> real,
                             sqrt: real -> real, a: nat, b: nat)
    requires |means| == |pulls| && AllPulled(pulls) && a < |pulls| && b < |pulls|
    requires forall x: real, y: real :: 0.0 <= x <= y ==> sqrt(x) <= sqrt(y)
    requires ln(t as real) >= 0.0
    requires means[a] == means[b] && pulls[a] <= pulls[b]
    ensures UcbScores(means, pulls, t, ln, sqrt)[b] <= UcbScores(means, pulls, t, ln, sqrt)[a]
  {
    var x := 2.0 * ln(t as real);
    assert x / pulls[b] as real <= x / pulls[a] as real by {
      DivideMore(x, pulls[a] as real, pulls[b] as real);
    }
  }

  lemma DivideMore(x: real, p: real, q: real)
    requires x >= 0.0 && 0.0 < p <= q
    ensures 0.0 <= x / q <= x / p
  {
    assert x / q * q == x == x / p * p;
  }

  /**
   * One decision step of epsilon-greedy whose coin is the draw at c, taken on the records of the
   * earlier pulls `past`: a coin below ep explores the arm the next draw chooses uniformly and pulls
   * it with the draw after that; otherwise it exploits the first arm of highest empirical mean and
   * pulls it with the next draw. d is the position of the draw that pays the pull.
   */
  ghost predicate EpGreedyPick(rng: Rng, ep: real, n: nat, past: seq<nat>, pastRewards: seq<int>,
                               c: nat, arm: nat, d: nat)
    requires rng.Valid() && |past| == |pastRewards|
  {
    && n > 0
    && if rng.stream(c) < ep then
         arm == ChoiceOf(rng.stream(c + 1), n) && d == c + 2
       else
         var pulls := Counts(n, past);
         && AllPulled(pulls)
         && arm == Argmax(Means(Totals(n, past, pastRewards), pulls))
         && d == c + 1
  }

  /** Every pull after the warm-up was an epsilon-greedy step whose coin follows the previous pull's draw. */
  ghost predicate EpGreedyPicks(rng: Rng, ep: real, n: nat, arms: seq<nat>, rewards: seq<int>, draws: seq<nat>)
    requires rng.Valid() && |arms| == |rewards| == |draws|
    decreases |arms|
  {
    |arms| > 1 && |arms| > n ==>
      var m := |arms| - 1;
      && EpGreedyPicks(rng, ep, n, arms[..m], rewards[..m], draws[..m])
      && EpGreedyPick(rng, ep, n, arms[..m], rewards[..m], draws[m - 1] + 1, arms[m], draws[m])
  }

  lemma EpGreedyPicksAppend(rng: Rng, ep: real, n: nat, arms: seq<nat>, rewards: seq<int>, draws: seq<nat>,
                            arm: nat, r: int, d: nat)
    requires rng.Valid() && |arms| == |rewards| == |draws| > 0 && EpGreedyPicks(rng, ep, n, arms, rewards, draws)
    requires |arms| >= n && EpGreedyPick(rng, ep, n, arms, rewards, draws[|draws| - 1] + 1, arm, d)
    ensures EpGreedyPicks(rng, ep, n, arms + [arm], rewards + [r], draws + [d])
  {
    assert (arms + [arm])[..|arms|] == arms && (rewards + [r])[..|arms|] == rewards;
    assert (draws + [d])[..|arms|] == draws;
  }

  /**
   * One epsilon-greedy choice on the current counts: the coin, then a uniform arm or the first
   * arm of highest empirical mean.
   */
  method ChooseEpGreedy(eps: real, rng: Rng, numPulls: array<int>, sumRewards: array<int>,
                        ghost arms: seq<nat>, ghost rewards: seq<int>)
    returns (arm: nat)
    requires rng.Valid() && numPulls.Length == sumRewards.Length > 0 && |arms| == |rewards|
    requires numPulls[..] == Counts(numPulls.Length, arms) && sumRewards[..] == Totals(numPulls.Length, arms, rewards)
    requires AllPulled(numPulls[..])
    modifies rng
    ensures rng.Valid() && arm < numPulls.Length
    ensures old(rng.pos) + 1 <= rng.pos <= old(rng.pos) + 2
    ensures EpGreedyPick(rng, eps, numPulls.Length, arms, rewards, old(rng.pos), arm, rng.pos)
  {
    var coin := rng.Uniform();
    if coin < eps {
      arm := rng.Choice(numPulls.Length);
    } else {
      var means := Means(sumRewards[..], numPulls[..]);
      arm := Argmax(means);
    }
  }

  /** The record of an epsilon-greedy run past its warm-up: every pull paid, draws and warm-up arms in order, every later pull a pick. */
  ghost predicate EpGreedyRun(I: seq<real>, rng: Rng, eps: real, start: nat, arms: seq<nat>, rewards: seq<int>, draws: seq<nat>)
    requires rng.Valid()
  {
    && |arms| == |rewards| == |draws| >= |I| > 0
    && Paid(I, rng, arms, rewards, draws)
    && Counting(arms, 0, |I|) && Counting(draws, start, |I|)
    && EpGreedyPicks(rng, eps, |I|, arms, rewards, draws)
  }

  /**
   * One epsilon-greedy round after the warm-up: the coin and the choice, then the pull with the
   * next draw and its record.
   */
  method EpGreedyRound(I: seq<real>, eps: real, rng: Rng, numPulls: array<int>, sumRewards: array<int>, total: int,
                       ghost start: nat, ghost arms: seq<nat>, ghost rewards: seq<int>, ghost draws: seq<nat>)
    returns (newTotal: int, ghost nextArms: seq<nat>, ghost nextRewards: seq<int>, ghost nextDraws: seq<nat>)
    requires rng.Valid() && numPulls != sumRewards && numPulls.Length == sumRewards.Length == |I| > 0
    requires EpGreedyRun(I, rng, eps, start, arms, rewards, draws) && |draws| > 0 && rng.pos == draws[|draws| - 1] + 1
    requires numPulls[..] == Counts(|I|, arms) && sumRewards[..] == Totals(|I|, arms, rewards)
    requires total == Sum(rewards) && AllPulled(numPulls[..])
    modifies rng, numPulls, sumRewards
    ensures |nextArms| == |nextDraws| == |arms| + 1 && rng.pos == nextDraws[|nextDraws| - 1] + 1
    ensures old(rng.pos) + 2 <= rng.pos <= old(rng.pos) + 3
    ensures EpGreedyRun(I, rng, eps, start, nextArms, nextRewards, nextDraws)
    ensures numPulls[..] == Counts(|I|, nextArms) && sumRewards[..] == Totals(|I|, nextArms, nextRewards)
    ensures newTotal == Sum(nextRewards) && AllPulled(numPulls[..])
  {
    var arm := ChooseEpGreedy(eps, rng, numPulls, sumRewards, arms, rewards);
    ghost var d := rng.pos;
    var r;
    newTotal, r := PullAndRecord(I, arm, rng, numPulls, sumRewards, total, arms, rewards);
    PaidAppend(I, rng, arms, rewards, draws, arm, r, d);
    EpGreedyPicksAppend(rng, eps, |I|, arms, rewards, draws, arm, r, d);
    CountingAppend(arms, 0, |I|, arm);
    CountingAppend(draws, start, |I|, d);
    nextArms, nextRewards, nextDraws := arms + [arm], rewards + [r], draws + [d];
  }

  /**
   * Epsilon-greedy: after the warm-up, each step draws a coin; below ep it explores a uniformly
   * chosen arm, otherwise it exploits the first arm of highest empirical mean. A missing ep is
   * an error raised before any pull. `arms`, `rewards` and `draws` list the pulls made, what each
   * paid and the position of the draw that paid it.
   */
  method EpGreedy(I: seq<real>, ep: Option<real>, hz: int, rng: Rng)
    returns (res: Result<real>, ghost arms: seq<nat>, ghost rewards: seq<int>, ghost draws: seq<nat>)
    requires ValidInstance(I) && rng.Valid()
    modifies rng
    ensures ep.None? <==> res.Err?
    ensures ep.None? ==> res.error == MissingEpsilon && rng.pos == old(rng.pos)
    ensures res.Ok? ==> |arms| == Clamp(hz) && Paid(I, rng, arms, rewards, draws)
    ensures res.Ok? ==> Counting(arms, 0, |I|) && Counting(draws, old(rng.pos), |I|)
    ensures res.Ok? ==> EpGreedyPicks(rng, ep.value, |I|, arms, rewards, draws)
    ensures res.Ok? ==> rng.pos == if |arms| == 0 then old(rng.pos) else draws[|draws| - 1] + 1
    ensures res.Ok? ==>
      old(rng.pos) + Clamp(hz) + Clamp(hz - |I|) <= rng.pos <= old(rng.pos) + Clamp(hz) + 2 * Clamp(hz - |I|)
    ensures res.Ok? ==> Sum(Counts(|I|, arms)) == Clamp(hz) && Sum(Totals(|I|, arms, rewards)) == Sum(rewards)
    ensures res.Ok? ==> Consistent(Counts(|I|, arms), Totals(|I|, arms, rewards))
    ensures res.Ok? ==> res.value == Regret(I, hz, Sum(rewards))
    ensures res.Ok? && hz >= 0 ==> (MaxOf(I) - 1.0) * hz as real <= res.value <= MaxOf(I) * hz as real
    ensures res.Ok? && hz >= 0 && Certain(I) ==> res.value == 0.0
  {
    if ep.None? {
      return Err(MissingEpsilon), [], [], [];
    }
    var total;
    total, arms, rewards, draws := EpGreedyPulls(I, ep.value, hz, rng);
    res := Ok(Regret(I, hz, total));
    Settle(I, hz, rng, arms, rewards, draws);
  }

  /**
   * The warm-up leaves what the epsilon-greedy rounds start from: counting arms and draws, no
   * choice made yet, the next draw after the last and, when hz >= n, every arm pulled.
   */
  lemma EpGreedyWarmedUp(rng: Rng, eps: real, hz: int, start: nat, pos: nat,
                         arms: seq<nat>, rewards: seq<int>, draws: seq<nat>, pulls: seq<int>)
    requires rng.Valid() && 0 < |pulls| && |rewards| == |arms|
    requires arms == Strided(0, 1, Min(|pulls|, Clamp(hz))) && pulls == Counts(|pulls|, arms)
    requires draws == Strided(start, 1, |arms|) && pos == start + |arms|
    ensures Counting(arms, 0, |pulls|) && Counting(draws, start, |pulls|)
    ensures EpGreedyPicks(rng, eps, |pulls|, arms, rewards, draws)
    ensures pos == if |arms| == 0 then start else draws[|draws| - 1] + 1
    ensures hz >= |pulls| ==> AllPulled(pulls)
  {
    var n, m := |pulls|, |arms|;
    WarmUpCounts(n, m);
    StridedCounting(0, m, n);
    StridedCounting(start, m, n);
    if m > 0 {
      StridedAt(start, 1, m);
    }
  }

  /** The pulls of ep_greedy: the warm-up, then the epsilon-greedy rounds; `total` is the reward collected. */
  method EpGreedyPulls(I: seq<real>, eps: real, hz: int, rng: Rng)
    returns (total: int, ghost arms: seq<nat>, ghost rewards: seq<int>, ghost draws: seq<nat>)
    requires ValidInstance(I) && rng.Valid()
    modifies rng
    ensures |arms| == Clamp(hz) && Paid(I, rng, arms, rewards, draws)
    ensures Counting(arms, 0, |I|) && Counting(draws, old(rng.pos), |I|)
    ensures EpGreedyPicks(rng, eps, |I|, arms, rewards, draws)
    ensures rng.pos == if |arms| == 0 then old(rng.pos) else draws[|draws| - 1] + 1
    ensures old(rng.pos) + Clamp(hz) + Clamp(hz - |I|) <= rng.pos <= old(rng.pos) + Clamp(hz) + 2 * Clamp(hz - |I|)
    ensures total == Sum(rewards)
  {
    var n := |I|;
    var numPulls := new int[n](_ => 0);
    var sumRewards := new int[n](_ => 0);
    total, arms, rewards := WarmUp(I, hz, rng, numPulls, sumRewards);
    draws := Strided(old(rng.pos), 1, |arms|);
    EpGreedyWarmedUp(rng, eps, hz, old(rng.pos), rng.pos, arms, rewards, draws, numPulls[..]);
    total, arms, rewards, draws := EpGreedyLoop(I, eps, hz, rng, numPulls, sumRewards, total, old(rng.pos), arms, rewards, draws);
  }

  /** The epsilon-greedy steps after the warm-up of min(n, hz) pulls, each taking two or three draws. */
  method EpGreedyLoop(I: seq<real>, eps: real, hz: int, rng: Rng, numPulls: array<int>, sumRewards: array<int>,
                      total: int, ghost start: nat, ghost arms: seq<nat>, ghost rewards: seq<int>, ghost draws: seq<nat>)
    returns (newTotal: int, ghost nextArms: seq<nat>, ghost nextRewards: seq<int>, ghost nextDraws: seq<nat>)
    requires rng.Valid() && numPulls != sumRewards && numPulls.Length == sumRewards.Length == |I| > 0
    requires |arms| == Min(|I|, Clamp(hz)) && Paid(I, rng, arms, rewards, draws)
    requires Counting(arms, 0, |I|) && Counting(draws, start, |I|)
    requires EpGreedyPicks(rng, eps, |I|, arms, rewards, draws)
    requires rng.pos == start + |arms| && rng.pos == if |arms| == 0 then start else draws[|draws| - 1] + 1
    requires numPulls[..] == Counts(|I|, arms) && sumRewards[..] == Totals(|I|, arms, rewards)
    requires total == Sum(rewards) && (hz >= |I| ==> AllPulled(numPulls[..]))
    modifies rng, numPulls, sumRewards
    ensures |nextArms| == Clamp(hz) && Paid(I, rng, nextArms, nextRewards, nextDraws)
    ensures Counting(nextArms, 0, |I|) && Counting(nextDraws, start, |I|)
    ensures EpGreedyPicks(rng, eps, |I|, nextArms, nextRewards, nextDraws)
    ensures rng.pos == if |nextArms| == 0 then start else nextDraws[|nextDraws| - 1] + 1
    ensures start + Clamp(hz) + Clamp(hz - |I|) <= rng.pos <= start + Clamp(hz) + 2 * Clamp(hz - |I|)
    ensures numPulls[..] == Counts(|I|, nextArms) && sumRewards[..] == Totals(|I|, nextArms, nextRewards)
    ensures newTotal == Sum(nextRewards)
  {
    var n := |I|;
    ghost var m := |arms|;
    newTotal, nextArms, nextRewards, nextDraws := total, arms, rewards, draws;
    if hz <= n {
      return;
    }
    assert m == n && Clamp(hz - n) == hz - n;
    for t := 0 to hz - n
      invariant |nextArms| == n + t && EpGreedyRun(I, rng, eps, start, nextArms, nextRewards, nextDraws)
      invariant rng.pos == nextDraws[|nextDraws| - 1] + 1
      invariant start + n + 2 * t <= rng.pos <= start + n + 3 * t
      invariant numPulls[..] == Counts(|I|, nextArms) && sumRewards[..] == Totals(|I|, nextArms, nextRewards)
      invariant newTotal == Sum(nextRewards) && AllPulled(numPulls[..])
    {
      newTotal, nextArms, nextRewards, nextDraws :=
        EpGreedyRound(I, eps, rng, numPulls, sumRewards, newTotal, start, nextArms, nextRewards, nextDraws);
    }
  }

  /**
   * What every policy states of its run of hz paid pulls: the regret bounds, and records whose
   * counts add up to the pulls made and whose reward sums add up to the total reward.
   */
  lemma Settle(I: seq<real>, hz: int, rng: Rng, arms: seq<nat>, rewards: seq<int>, draws: seq<nat>)
    requires ValidInstance(I) && rng.Valid() && Paid(I, rng, arms, rewards, draws) && |arms| == Clamp(hz)
    ensures hz >= 0 ==>
      (MaxOf(I) - 1.0) * hz as real <= Regret(I, hz, Sum(rewards)) <= MaxOf(I) * hz as real
    ensures hz >= 0 && Certain(I) ==> Regret(I, hz, Sum(rewards)) == 0.0
    ensures Sum(Counts(|I|, arms)) == Clamp(hz) && Sum(Totals(|I|, arms, rewards)) == Sum(rewards)
    ensures Consistent(Counts(|I|, arms), Totals(|I|, arms, rewards))
  {
    PaidRecords(I, rng, arms, rewards, draws);
    PaidPlausible(I, rng, arms, rewards, draws);
    RewardsBetween(|I|, arms, rewards);
    if hz >= 0 {
      RegretRange(I, hz, Sum(rewards));
      if Certain(I) {
        CertainRegret(I, hz, arms, rewards);
      }
    }
  }

  /**
   * One decision step of UCB on the records of the earlier pulls `past`: every arm has been pulled
   * and `arm` is the first arm of highest UCB score, with t = |past| pulls made so far.
   */
  ghost predicate UcbPick(n: nat, past: seq<nat>, pastRewards: seq<int>, ln: real -> real, sqrt: real -> real,
                          arm: nat)
    requires |past| == |pastRewards|
  {
    var pulls := Counts(n, past);
    && n > 0
    && AllPulled(pulls)
    && arm == Argmax(UcbScores(Means(Totals(n, past, pastRewards), pulls), pulls, |past|, ln, sqrt))
  }

  /** Every pull after the warm-up was a UCB pick on the pulls before it. */
  ghost predicate UcbPicks(n: nat, arms: seq<nat>, rewards: seq<int>, ln: real -> real, sqrt: real -> real)
    requires |arms| == |rewards|
    decreases |arms|
  {
    |arms| > n ==>
      var m := |arms| - 1;
      UcbPicks(n, arms[..m], rewards[..m], ln, sqrt) && UcbPick(n, arms[..m], rewards[..m], ln, sqrt, arms[m])
  }

  lemma UcbPicksAppend(n: nat, arms: seq<nat>, rewards: seq<int>, ln: real -> real, sqrt: real -> real,
                       arm: nat, r: int)
    requires |arms| == |rewards| && UcbPicks(n, arms, rewards, ln, sqrt)
    requires |arms| >= n && UcbPick(n, arms, rewards, ln, sqrt, arm)
    ensures UcbPicks(n, arms + [arm], rewards + [r], ln, sqrt)
  {
    assert (arms + [arm])[..|arms|] == arms && (rewards + [r])[..|arms|] == rewards;
  }

  /** One UCB choice on the current counts: the first arm of highest score, t pulls in. */
  method ChooseUcb(numPulls: array<int>, sumRewards: array<int>, t: int, ln: real -> real, sqrt: real -> real,
                   ghost arms: seq<nat>, ghost rewards: seq<int>)
    returns (arm: nat)
    requires numPulls.Length == sumRewards.Length > 0 && |arms| == |rewards| == t
    requires numPulls[..] == Counts(numPulls.Length, arms) && sumRewards[..] == Totals(numPulls.Length, arms, rewards)
    requires AllPulled(numPulls[..])
    ensures arm < numPulls.Length && UcbPick(numPulls.Length, arms, rewards, ln, sqrt, arm)
  {
    var means := Means(sumRewards[..], numPulls[..]);
    var scores := UcbScores(means, numPulls[..], t, ln, sqrt);
    arm := Argmax(scores);
  }

  /** A UCB pick paid by the next draw extends the paid, counting, UCB-chosen pulls by one. */
  lemma UcbStep(I: seq<real>, rng: Rng, ln: real -> real, sqrt: real -> real, start: nat,
                arms: seq<nat>, rewards: seq<int>, arm: nat, r: int, d: nat)
    requires |arms| == |rewards| >= |I| && d == start + |arms|
    requires Paid(I, rng, arms, rewards, Strided(start, 1, |arms|)) && Counting(arms, 0, |I|)
    requires UcbPicks(|I|, arms, rewards, ln, sqrt) && UcbPick(|I|, arms, rewards, ln, sqrt, arm)
    requires arm < |I| && r == Bernoulli(I[arm], rng.stream(d))
    ensures Paid(I, rng, arms + [arm], rewards + [r], Strided(start, 1, |arms + [arm]|))
    ensures Counting(arms + [arm], 0, |I|) && UcbPicks(|I|, arms + [arm], rewards + [r], ln, sqrt)
  {
    PaidStep(I, rng, start, arms, rewards, arm, r);
    UcbPicksAppend(|I|, arms, rewards, ln, sqrt, arm, r);
    CountingAppend(arms, 0, |I|, arm);
  }

  /**
   * One UCB round after the warm-up: choose the arm of highest score on the current counts, pull
   * it with the next draw and record the outcome.
   */
  method UcbRound(I: seq<real>, rng: Rng, ln: real -> real, sqrt: real -> real,
                  numPulls: array<int>, sumRewards: array<int>, total: int, t: int,
                  ghost start: nat, ghost arms: seq<nat>, ghost rewards: seq<int>)
    returns (newTotal: int, ghost nextArms: seq<nat>, ghost nextRewards: seq<int>)
    requires rng.Valid() && numPulls != sumRewards && numPulls.Length == sumRewards.Length == |I| > 0
    requires |arms| == |rewards| == t >= |I| && rng.pos == start + |arms|
    requires Paid(I, rng, arms, rewards, Strided(start, 1, |arms|)) && Counting(arms, 0, |I|)
    requires UcbPicks(|I|, arms, rewards, ln, sqrt)
    requires numPulls[..] == Counts(|I|, arms) && sumRewards[..] == Totals(|I|, arms, rewards)
    requires total == Sum(rewards) && AllPulled(numPulls[..])
    modifies rng, numPulls, sumRewards
    ensures |nextArms| == |nextRewards| == |arms| + 1 && rng.pos == start + |nextArms|
    ensures Paid(I, rng, nextArms, nextRewards, Strided(start, 1, |nextArms|)) && Counting(nextArms, 0, |I|)
    ensures UcbPicks(|I|, nextArms, nextRewards, ln, sqrt)
    ensures numPulls[..] == Counts(|I|, nextArms) && sumRewards[..] == Totals(|I|, nextArms, nextRewards)
    ensures newTotal == Sum(nextRewards) && AllPulled(numPulls[..])
  {
    var arm := ChooseUcb(numPulls, sumRewards, t, ln, sqrt, arms, rewards);
    ghost var d := rng.pos;
    var r;
    newTotal, r := PullAndRecord(I, arm, rng, numPulls, sumRewards, total, arms, rewards);
    UcbStep(I, rng, ln, sqrt, start, arms, rewards, arm, r, d);
    nextArms, nextRewards := arms + [arm], rewards + [r];
  }

  /**
   * UCB: after the warm-up, each step pulls the first arm of highest upper confidence bound,
   * with t + n as the absolute pull count; every count is non-zero when a step runs. Pull k is
   * paid by draw k.
   */
  method Ucb(I: seq<real>, hz: int, rng: Rng, ln: real -> real, sqrt: real -> real)
    returns (reg: real, ghost arms: seq<nat>, ghost rewards: seq<int>)
    requires ValidInstance(I) && rng.Valid()
    modifies rng
    ensures rng.pos == old(rng.pos) + Clamp(hz)
    ensures |arms| == Clamp(hz) && Paid(I, rng, arms, rewards, Strided(old(rng.pos), 1, |arms|))
    ensures Counting(arms, 0, |I|)
    ensures UcbPicks(|I|, arms, rewards, ln, sqrt)
    ensures Sum(Counts(|I|, arms)) == Clamp(hz) && Sum(Totals(|I|, arms, rewards)) == Sum(rewards)
    ensures Consistent(Counts(|I|, arms), Totals(|I|, arms, rewards))
    ensures reg == Regret(I, hz, Sum(rewards))
    ensures hz >= 0 ==> (MaxOf(I) - 1.0) * hz as real <= reg <= MaxOf(I) * hz as real
    ensures hz >= 0 && Certain(I) ==> reg == 0.0
  {
    var n := |I|;
    var numPulls := new int[n](_ => 0);
    var sumRewards := new int[n](_ => 0);
    var total;
    total, arms, rewards := WarmUp(I, hz, rng, numPulls, sumRewards);
    ghost var start := old(rng.pos);
    ghost var m := Min(n, Clamp(hz));
    WarmUpCounts(n, m);
    StridedCounting(0, m, n);
    for t := 0 to Clamp(hz - n)
      invariant |arms| == m + t && rng.pos == start + |arms|
      invariant Paid(I, rng, arms, rewards, Strided(start, 1, |arms|)) && Counting(arms, 0, n)
      invariant UcbPicks(n, arms, rewards, ln, sqrt)
      invariant numPulls[..] == Counts(n, arms) && sumRewards[..] == Totals(n, arms, rewards)
      invariant total == Sum(rewards)
      invariant hz >= n ==> AllPulled(numPulls[..])
    {
      total, arms, rewards := UcbRound(I, rng, ln, sqrt, numPulls, sumRewards, total, t + n, start, arms, rewards);
    }
    reg := Regret(I, hz, total);
    Settle(I, hz, rng, arms, rewards, Strided(start, 1, |arms|));
  }

  /**
   * One decision step of KL-UCB on the records of the earlier pulls `past`: every arm has been
   * pulled and `arm` is the first arm of highest KL index against the threshold at t = |past|.
   */
  ghost predicate KlUcbPick(n: nat, past: seq<nat>, pastRewards: seq<int>, ln: real -> real, arm: nat)
    requires |past| == |pastRewards|
  {
    var pulls := Counts(n, past);
    var sums := Totals(n, past, pastRewards);
    && n > 0
    && AllPulled(pulls)
    && Consistent(pulls, sums)
    && arm == Argmax(KlIndices(Means(sums, pulls), pulls, Threshold(|past|, ln), ln))
  }

  /** Every pull after the warm-up was a KL-UCB pick on the pulls before it. */
  ghost predicate KlUcbPicks(n: nat, arms: seq<nat>, rewards: seq<int>, ln: real -> real)
    requires |arms| == |rewards|
    decreases |arms|
  {
    |arms| > n ==>
      var m := |arms| - 1;
      KlUcbPicks(n, arms[..m], rewards[..m], ln) && KlUcbPick(n, arms[..m], rewards[..m], ln, arms[m])
  }

  lemma KlUcbPicksAppend(n: nat, arms: seq<nat>, rewards: seq<int>, ln: real -> real, arm: nat, r: int)
    requires |arms| == |rewards| && KlUcbPicks(n, arms, rewards, ln)
    requires |arms| >= n && KlUcbPick(n, arms, rewards, ln, arm)
    ensures KlUcbPicks(n, arms + [arm], rewards + [r], ln)
  {
    assert (arms + [arm])[..|arms|] == arms && (rewards + [r])[..|arms|] == rewards;
  }

  /** One KL-UCB choice on the current counts: the first arm of highest KL index, t pulls in. */
  method ChooseKlUcb(numPulls: array<int>, sumRewards: array<int>, t: int, ln: real -> real,
                     ghost arms: seq<nat>, ghost rewards: seq<int>)
    returns (arm: nat)
    requires numPulls.Length == sumRewards.Length > 0 && |arms| == |rewards| == t
    requires numPulls[..] == Counts(numPulls.Length, arms) && sumRewards[..] == Totals(numPulls.Length, arms, rewards)
    requires AllPulled(numPulls[..]) && Consistent(numPulls[..], sumRewards[..])
    ensures arm < numPulls.Length && KlUcbPick(numPulls.Length, arms, rewards, ln, arm)
  {
    var means := Means(sumRewards[..], numPulls[..]);
    var thres := Threshold(t, ln);
    var ucbMetric := KlUcbScores(means, numPulls[..], thres, ln);
    arm := Argmax(ucbMetric);
  }

  /** A KL-UCB pick paid by the next draw extends the paid, counting, KL-UCB-chosen pulls by one. */
  lemma KlUcbStep(I: seq<real>, rng: Rng, ln: real -> real, start: nat,
                  arms: seq<nat>, rewards: seq<int>, arm: nat, r: int, d: nat)
    requires |arms| == |rewards| >= |I| && d == start + |arms|
    requires Paid(I, rng, arms, rewards, Strided(start, 1, |arms|)) && Counting(arms, 0, |I|)
    requires KlUcbPicks(|I|, arms, rewards, ln) && KlUcbPick(|I|, arms, rewards, ln, arm)
    requires arm < |I| && r == Bernoulli(I[arm], rng.stream(d))
    ensures Paid(I, rng, arms + [arm], rewards + [r], Strided(start, 1, |arms + [arm]|))
    ensures Counting(arms + [arm], 0, |I|) && KlUcbPicks(|I|, arms + [arm], rewards + [r], ln)
  {
    PaidStep(I, rng, start, arms, rewards, arm, r);
    KlUcbPicksAppend(|I|, arms, rewards, ln, arm, r);
    CountingAppend(arms, 0, |I|, arm);
  }

  /**
   * One KL-UCB round after the warm-up: choose the arm of highest KL index on the current counts,
   * pull it with the next draw and record the outcome.
   */
  method KlUcbRound(I: seq<real>, rng: Rng, ln: real -> real,
                    numPulls: array<int>, sumRewards: array<int>, total: int, t: int,
                    ghost start: nat, ghost arms: seq<nat>, ghost rewards: seq<int>)
    returns (newTotal: int, ghost nextArms: seq<nat>, ghost nextRewards: seq<int>)
    requires rng.Valid() && numPulls != sumRewards && numPulls.Length == sumRewards.Length == |I| > 0
    requires |arms| == |rewards| == t >= |I| && rng.pos == start + |arms|
    requires Paid(I, rng, arms, rewards, Strided(start, 1, |arms|)) && Counting(arms, 0, |I|)
    requires KlUcbPicks(|I|, arms, rewards, ln)
    requires numPulls[..] == Counts(|I|, arms) && sumRewards[..] == Totals(|I|, arms, rewards)
    requires total == Sum(rewards) && AllPulled(numPulls[..])
    modifies rng, numPulls, sumRewards
    ensures |nextArms| == |nextRewards| == |arms| + 1 && rng.pos == start + |nextArms|
    ensures Paid(I, rng, nextArms, nextRewards, Strided(start, 1, |nextArms|)) && Counting(nextArms, 0, |I|)
    ensures KlUcbPicks(|I|, nextArms, nextRewards, ln)
    ensures numPulls[..] == Counts(|I|, nextArms) && sumRewards[..] == Totals(|I|, nextArms, nextRewards)
    ensures newTotal == Sum(nextRewards) && AllPulled(numPulls[..])
  {
    PaidConsistent(I, rng, arms, rewards, Strided(start, 1, |arms|));
    var arm := ChooseKlUcb(numPulls, sumRewards, t, ln, arms, rewards);
    ghost var d := rng.pos;
    var r;
    newTotal, r := PullAndRecord(I, arm, rng, numPulls, sumRewards, total, arms, rewards);
    KlUcbStep(I, rng, ln, start, arms, rewards, arm, r, d);
    nextArms, nextRewards := arms + [arm], rewards + [r];
  }

  /**
   * KL-UCB: after the warm-up, each step computes every arm's KL index by bisection against the
   * threshold ln(t + n) + 3 ln(ln(t + n)) and pulls the first arm of highest index. Pull k is
   * paid by draw k.
   */
  method KlUcb(I: seq<real>, hz: int, rng: Rng, ln: real -> real)
    returns (reg: real, ghost arms: seq<nat>, ghost rewards: seq<int>)
    requires ValidInstance(I) && rng.Valid()
    modifies rng
    ensures rng.pos == old(rng.pos) + Clamp(hz)
    ensures |arms| == Clamp(hz) && Paid(I, rng, arms, rewards, Strided(old(rng.pos), 1, |arms|))
    ensures Counting(arms, 0, |I|)
    ensures KlUcbPicks(|I|, arms, rewards, ln)
    ensures Sum(Counts(|I|, arms)) == Clamp(hz) && Sum(Totals(|I|, arms, rewards)) == Sum(rewards)
    ensures Consistent(Counts(|I|, arms), Totals(|I|, arms, rewards))
    ensures reg == Regret(I, hz, Sum(rewards))
    ensures hz >= 0 ==> (MaxOf(I) - 1.0) * hz as real <= reg <= MaxOf(I) * hz as real
    ensures hz >= 0 && Certain(I) ==> reg == 0.0
  {
    var n := |I|;
    var numPulls := new int[n](_ => 0);
    var sumRewards := new int[n](_ => 0);
    var total;
    total, arms, rewards := WarmUp(I, hz, rng, numPulls, sumRewards);
    ghost var start := old(rng.pos);
    ghost var m := Min(n, Clamp(hz));
    WarmUpCounts(n, m);
    StridedCounting(0, m, n);
    for t := 0 to Clamp(hz - n)
      invariant |arms| == m + t && rng.pos == start + |arms|
      invariant Paid(I, rng, arms, rewards, Strided(start, 1, |arms|)) && Counting(arms, 0, n)
      invariant KlUcbPicks(n, arms, rewards, ln)
      invariant numPulls[..] == Counts(n, arms) && sumRewards[..] == Totals(n, arms, rewards)
      invariant total == Sum(rewards)
      invariant hz >= n ==> AllPulled(numPulls[..])
    {
      total, arms, rewards := KlUcbRound(I, rng, ln, numPulls, sumRewards, total, t + n, start, arms, rewards);
    }
    reg := Regret(I, hz, total);
    Settle(I, hz, rng, arms, rewards, Strided(start, 1, |arms|));
  }

  function PlusOne(s: seq<int>): (t: seq<int>)
    ensures |t| == |s|
  {
    seq(|s|, a requires 0 <= a < |s| => s[a] + 1)
  }

  /** Thompson's failure counts: entry a is the number of pulls of arm a that paid 0. */
  function Failures(n: nat, arms: seq<nat>, rewards: seq<int>): (f: seq<int>)
    requires |arms| == |rewards|
    ensures |f| == n
  {
    var c, s := Counts(n, arms), Totals(n, arms, rewards);
    seq(n, a requires 0 <= a < n => c[a] - s[a])
  }

  /** One more pull adds 1 - r to the pulled arm's failures. */
  lemma FailuresAppend(n: nat, arms: seq<nat>, rewards: seq<int>, a: nat, r: int)
    requires |arms| == |rewards| && a < n
    ensures Failures(n, arms + [a], rewards + [r]) == Failures(n, arms, rewards)[a := Failures(n, arms, rewards)[a] + 1 - r]
  {
    RecordAppend(n, arms, rewards, a, r);
  }

  /** Failure counts are never negative when every reward is 0 or 1. */
  lemma FailuresNonNegative(n: nat, arms: seq<nat>, rewards: seq<int>)
    requires Outcomes(n, arms, rewards)
    ensures forall a :: 0 <= a < n ==> Failures(n, arms, rewards)[a] >= 0
  {
    OutcomesConsistent(n, arms, rewards);
  }

  /** Every pull adds one success or one failure: together they add up to the number of pulls. */
  lemma FailuresSum(n: nat, arms: seq<nat>, rewards: seq<int>)
    requires |arms| == |rewards| && forall k :: 0 <= k < |arms| ==> arms[k] < n
    ensures Sum(Totals(n, arms, rewards)) + Sum(Failures(n, arms, rewards)) == |arms|
  {
    CountsSum(n, arms);
    SumDifference(Counts(n, arms), Totals(n, arms, rewards), Failures(n, arms, rewards));
  }

  /**
   * One Thompson pull and its bookkeeping: `r = pull(I, arm)`, `s[arm] += r`, `f[arm] += 1 - r`,
   * `total_reward += r`. The pulled arm gains exactly one success or one failure, and no other
   * arm's counts change.
   */
  method PullAndCount(I: seq<real>, arm: nat, rng: Rng, s: array<int>, f: array<int>, total: int,
                      ghost arms: seq<nat>, ghost rewards: seq<int>)
    returns (newTotal: int, r: int)
    requires rng.Valid() && arm < |I| && |arms| == |rewards|
    requires s != f && s.Length == f.Length == |I|
    requires s[..] == Totals(|I|, arms, rewards) && f[..] == Failures(|I|, arms, rewards)
    requires total == Sum(rewards)
    modifies rng, s, f
    ensures rng.pos == old(rng.pos) + 1
    ensures r == Bernoulli(I[arm], rng.stream(old(rng.pos))) && (r == 0 || r == 1)
    ensures s[..] == Totals(|I|, arms + [arm], rewards + [r])
    ensures f[..] == Failures(|I|, arms + [arm], rewards + [r])
    ensures newTotal == Sum(rewards + [r])
  {
    r := Pull(I, arm, rng);
    s[arm] := s[arm] + r;
    f[arm] := f[arm] + 1 - r;
    newTotal := total + r;
    RecordAppend(|I|, arms, rewards, arm, r);
    FailuresAppend(|I|, arms, rewards, arm, r);
  }

  /**
   * The samples of one Thompson step: arm a's is the Beta(s[a] + 1, f[a] + 1) quantile of the
   * draw at p + a, so the step reads n consecutive draws from p on.
   */
  ghost function Samples(rng: Rng, s: seq<int>, f: seq<int>, p: nat): (x: seq<real>)
    requires |s| == |f|
    ensures |x| == |s|
  {
    seq(|s|, a requires 0 <= a < |s| => rng.betaQuantile(s[a] + 1, f[a] + 1, rng.stream(p + a)))
  }

  /**
   * One Thompson step on the counts of the earlier pulls `past`, with its samples drawn from
   * position p on: the first arm of highest sample.
   */
  ghost function ThompsonChoice(rng: Rng, n: nat, past: seq<nat>, pastRewards: seq<int>, p: nat): (arm: nat)
    requires n > 0 && |past| == |pastRewards|
    ensures arm < n
  {
    Argmax(Samples(rng, Totals(n, past, pastRewards), Failures(n, past, pastRewards), p))
  }

  /**
   * The first t Thompson steps from stream position start, as (arms, rewards): step k pulls
   * ThompsonArm and is paid by the draw right after its n samples, at start + n + k * (n + 1).
   */
  ghost function ThompsonTrace(I: seq<real>, rng: Rng, start: nat, t: nat): (run: (seq<nat>, seq<int>))
    requires |I| > 0
    ensures |run.0| == |run.1| == t
    decreases t, 0
  {
    if t == 0 then ([], [])
    else
      var run := ThompsonTrace(I, rng, start, t - 1);
      var arm := ThompsonArm(I, rng, start, t - 1);
      (run.0 + [arm], run.1 + [Bernoulli(I[arm], rng.stream(start + |I| + Stride(t - 1, |I| + 1)))])
  }

  /**
   * The arm Thompson step t pulls: the Thompson choice on the counts of the t steps before it,
   * with its n samples drawn from start + t * (n + 1) on.
   */
  ghost function ThompsonArm(I: seq<real>, rng: Rng, start: nat, t: nat): (arm: nat)
    requires |I| > 0
    ensures arm < |I|
    decreases t, 1
  {
    var run := ThompsonTrace(I, rng, start, t);
    ThompsonChoice(rng, |I|, run.0, run.1, start + Stride(t, |I| + 1))
  }

  /** Every Thompson reward is paid by the draw right after its step's samples. */
  lemma {:induction false} ThompsonTracePaid(I: seq<real>, rng: Rng, start: nat, t: nat)
    requires |I| > 0
    ensures Paid(I, rng, ThompsonTrace(I, rng, start, t).0, ThompsonTrace(I, rng, start, t).1,
                 Strided(start + |I|, |I| + 1, t))
  {
    if t > 0 {
      ThompsonTracePaid(I, rng, start, t - 1);
      var run := ThompsonTrace(I, rng, start, t - 1);
      var arm := ThompsonArm(I, rng, start, t - 1);
      var r := Bernoulli(I[arm], rng.stream(start + |I| + Stride(t - 1, |I| + 1)));
      PaidNext(I, rng, start + |I|, |I| + 1, run.0, run.1, arm, r);
      assert ThompsonTrace(I, rng, start, t) == (run.0 + [arm], run.1 + [r]);
    }
  }

  /**
   * What a Thompson run of hz steps leaves: every reward paid by the draw after its step's
   * samples, successes and failures adding up to hz pulls, and the regret bounds.
   */
  lemma ThompsonSettle(I: seq<real>, hz: int, rng: Rng, start: nat, arms: seq<nat>, rewards: seq<int>)
    requires ValidInstance(I) && rng.Valid() && (arms, rewards) == ThompsonTrace(I, rng, start, Clamp(hz))
    ensures Paid(I, rng, arms, rewards, Strided(start + |I|, |I| + 1, |arms|))
    ensures Sum(Counts(|I|, arms)) == Clamp(hz) && Consistent(Counts(|I|, arms), Totals(|I|, arms, rewards))
    ensures Sum(Totals(|I|, arms, rewards)) + Sum(Failures(|I|, arms, rewards)) == Clamp(hz)
    ensures forall a :: 0 <= a < |I| ==> Failures(|I|, arms, rewards)[a] >= 0
    ensures hz >= 0 ==> (MaxOf(I) - 1.0) * hz as real <= Regret(I, hz, Sum(rewards)) <= MaxOf(I) * hz as real
    ensures hz >= 0 && Certain(I) ==> Regret(I, hz, Sum(rewards)) == 0.0
  {
    var n := |I|;
    ThompsonTracePaid(I, rng, start, Clamp(hz));
    var draws := Strided(start + n, n + 1, |arms|);
    Settle(I, hz, rng, arms, rewards, draws);
    PaidPlausible(I, rng, arms, rewards, draws);
    FailuresSum(n, arms, rewards);
    FailuresNonNegative(n, arms, rewards);
  }

  /** One Thompson choice: a Beta(s + 1, f + 1) sample per arm, then the first arm of highest sample. */
  method ChooseThompson(rng: Rng, successes: array<int>, failures: array<int>) returns (arm: nat)
    requires rng.Valid() && successes.Length == failures.Length > 0
    modifies rng
    ensures rng.Valid() && rng.pos == old(rng.pos) + successes.Length
    ensures arm == Argmax(Samples(rng, successes[..], failures[..], old(rng.pos)))
  {
    var samples := rng.BetaSamples(PlusOne(successes[..]), PlusOne(failures[..]));
    assert samples == Samples(rng, successes[..], failures[..], old(rng.pos));
    arm := Argmax(samples);
  }

  /** The step after a trace makes the Thompson choice on its counts. */
  lemma ThompsonStepArm(I: seq<real>, rng: Rng, start: nat, arms: seq<nat>, rewards: seq<int>, p: nat)
    requires |I| > 0 && (arms, rewards) == ThompsonTrace(I, rng, start, |arms|)
    requires p == start + Stride(|arms|, |I| + 1)
    ensures ThompsonArm(I, rng, start, |arms|) == ThompsonChoice(rng, |I|, arms, rewards, p)
  {
  }

  /** The step after a trace appends that step's arm and the reward of the draw after its samples. */
  lemma ThompsonStepTrace(I: seq<real>, rng: Rng, start: nat, arms: seq<nat>, rewards: seq<int>, arm: nat, q: nat, r: int)
    requires |I| > 0 && (arms, rewards) == ThompsonTrace(I, rng, start, |arms|)
    requires arm == ThompsonArm(I, rng, start, |arms|) && arm < |I|
    requires q == start + Stride(|arms|, |I| + 1) + |I| && r == Bernoulli(I[arm], rng.stream(q))
    ensures ThompsonTrace(I, rng, start, |arms| + 1) == (arms + [arm], rewards + [r])
  {
  }

  /** The Thompson choice of the step after a trace, made on the arrays that hold its counts. */
  method ThompsonPick(I: seq<real>, rng: Rng, successes: array<int>, failures: array<int>,
                      ghost start: nat, ghost arms: seq<nat>, ghost rewards: seq<int>)
    returns (arm: nat)
    requires rng.Valid() && successes.Length == failures.Length == |I| > 0
    requires rng.pos == start + Stride(|arms|, |I| + 1)
    requires (arms, rewards) == ThompsonTrace(I, rng, start, |arms|)
    requires successes[..] == Totals(|I|, arms, rewards) && failures[..] == Failures(|I|, arms, rewards)
    modifies rng
    ensures rng.Valid() && rng.pos == old(rng.pos) + |I|
    ensures arm == ThompsonArm(I, rng, start, |arms|)
  {
    ThompsonStepArm(I, rng, start, arms, rewards, rng.pos);
    arm := ChooseThompson(rng, successes, failures);
  }

  /** One Thompson round: one sample per arm, the pull of the best sample with the next draw, its record. */
  method ThompsonRound(I: seq<real>, rng: Rng, successes: array<int>, failures: array<int>, total: int,
                       ghost start: nat, ghost arms: seq<nat>, ghost rewards: seq<int>)
    returns (newTotal: int, ghost nextArms: seq<nat>, ghost nextRewards: seq<int>)
    requires rng.Valid() && successes != failures && successes.Length == failures.Length == |I| > 0
    requires rng.pos == start + Stride(|arms|, |I| + 1)
    requires (arms, rewards) == ThompsonTrace(I, rng, start, |arms|)
    requires successes[..] == Totals(|I|, arms, rewards) && failures[..] == Failures(|I|, arms, rewards)
    requires total == Sum(rewards)
    modifies rng, successes, failures
    ensures (nextArms, nextRewards) == ThompsonTrace(I, rng, start, |arms| + 1)
    ensures rng.pos == start + Stride(|arms| + 1, |I| + 1)
    ensures successes[..] == Totals(|I|, nextArms, nextRewards) && failures[..] == Failures(|I|, nextArms, nextRewards)
    ensures newTotal == Sum(nextRewards)
  {
    var arm := ThompsonPick(I, rng, successes, failures, start, arms, rewards);
    ghost var q := rng.pos;
    var r;
    newTotal, r := PullAndCount(I, arm, rng, successes, failures, total, arms, rewards);
    ThompsonStepTrace(I, rng, start, arms, rewards, arm, q, r);
    nextArms, nextRewards := arms + [arm], rewards + [r];
  }

  /**
   * Thompson sampling: no warm-up; each of the hz steps draws one Beta(s + 1, f + 1) sample per
   * arm and pulls the first arm of highest sample, as ThompsonTrace says step by step.
   */
  method Thompson(I: seq<real>, hz: int, rng: Rng) returns (reg: real, ghost arms: seq<nat>, ghost rewards: seq<int>)
    requires ValidInstance(I) && rng.Valid()
    modifies rng
    ensures rng.pos == old(rng.pos) + Clamp(hz) * (|I| + 1)
    ensures (arms, rewards) == ThompsonTrace(I, rng, old(rng.pos), Clamp(hz))
    ensures Paid(I, rng, arms, rewards, Strided(old(rng.pos) + |I|, |I| + 1, |arms|))
    ensures Sum(Counts(|I|, arms)) == Clamp(hz) && Consistent(Counts(|I|, arms), Totals(|I|, arms, rewards))
    ensures Sum(Totals(|I|, arms, rewards)) + Sum(Failures(|I|, arms, rewards)) == Clamp(hz)
    ensures forall a :: 0 <= a < |I| ==> Failures(|I|, arms, rewards)[a] >= 0
    ensures reg == Regret(I, hz, Sum(rewards))
    ensures hz >= 0 ==> (MaxOf(I) - 1.0) * hz as real <= reg <= MaxOf(I) * hz as real
    ensures hz >= 0 && Certain(I) ==> reg == 0.0
  {
    var total;
    total, arms, rewards := ThompsonSteps(I, hz, rng);
    ThompsonSettle(I, hz, rng, old(rng.pos), arms, rewards);
    reg := Regret(I, hz, total);
  }

  /** The hz Thompson steps from empty counts: the run is the trace, and `total` its reward. */
  method ThompsonSteps(I: seq<real>, hz: int, rng: Rng) returns (total: int, ghost arms: seq<nat>, ghost rewards: seq<int>)
    requires |I| > 0 && rng.Valid()
    modifies rng
    ensures rng.Valid() && rng.pos == old(rng.pos) + Clamp(hz) * (|I| + 1)
    ensures (arms, rewards) == ThompsonTrace(I, rng, old(rng.pos), Clamp(hz))
    ensures total == Sum(rewards)
  {
    var n := |I|;
    var successes := new int[n](_ => 0);
    var failures := new int[n](_ => 0);
    total := 0;
    ghost var start := old(rng.pos);
    assert successes[..] == Totals(n, [], []) && failures[..] == Failures(n, [], []);
    arms, rewards := [], [];
    for t := 0 to Clamp(hz)
      invariant |arms| == t && rng.pos == start + Stride(|arms|, |I| + 1)
      invariant (arms, rewards) == ThompsonTrace(I, rng, start, |arms|)
      invariant successes[..] == Totals(|I|, arms, rewards) && failures[..] == Failures(|I|, arms, rewards)
      invariant total == Sum(rewards)
    {
      total, arms, rewards := ThompsonRound(I, rng, successes, failures, total, start, arms, rewards);
    }
    StrideIsProduct(Clamp(hz), n + 1);
  }

  /** Every arm's rate appears among the hinted rates. */
  lemma InHint(I: seq<real>, hint: seq<real>, a: nat)
    requires multiset(hint) == multiset(I) && a < |I|
    ensures I[a] in hint
  {
    assert I[a] in multiset(I);
  }

  /** The position of x in s. */
  ghost function IndexOf(s: seq<real>, x: real): (k: nat)
    requires x in s
    ensures k < |s| && s[k] == x
  {
    if s[0] == x then 0 else 1 + IndexOf(s[1..], x)
  }

  /**
   * One step of Thompson sampling with a hint on the beliefs the earlier pulls `past` left: `arm`
   * is the first arm most likely to have the best hinted rate, and the reward r it paid leaves its
   * row a positive normalising factor.
   */
  ghost predicate HintPick(hint: seq<real>, past: seq<nat>, pastRewards: seq<int>, arm: nat, r: int) {
    && Observed(hint, past, pastRewards)
    && arm < |hint| && (r == 0 || r == 1)
    && var b := Beliefs(hint, past, pastRewards);
       && arm == Argmax(ColumnOf(b, Argmax(hint)))
       && Mass(Weigh(b[arm], hint, r)) > 0.0
  }

  /** Every pull was a hinted Thompson pick on the beliefs the pulls before it left. */
  ghost predicate HintPicks(hint: seq<real>, arms: seq<nat>, rewards: seq<int>)
    requires |arms| == |rewards|
    decreases |arms|
  {
    |arms| > 0 ==>
      var m := |arms| - 1;
      HintPicks(hint, arms[..m], rewards[..m]) && HintPick(hint, arms[..m], rewards[..m], arms[m], rewards[m])
  }

  lemma HintPicksAppend(hint: seq<real>, arms: seq<nat>, rewards: seq<int>, arm: nat, r: int)
    requires |arms| == |rewards| && HintPicks(hint, arms, rewards) && HintPick(hint, arms, rewards, arm, r)
    ensures HintPicks(hint, arms + [arm], rewards + [r])
  {
    assert (arms + [arm])[..|arms|] == arms && (rewards + [r])[..|arms|] == rewards;
  }

  /** A hint that is a rearrangement of the instance holds rates, and every arm's rate sits at some position of it. */
  lemma HintTruth(I: seq<real>, hint: seq<real>) returns (truth: seq<nat>)
    requires ValidInstance(I) && |hint| == |I| && multiset(hint) == multiset(I)
    ensures Rates(hint) && |truth| == |I|
    ensures forall a :: 0 <= a < |I| ==> truth[a] < |I| && hint[truth[a]] == I[a]
  {
    forall j | 0 <= j < |hint| ensures 0.0 <= hint[j] <= 1.0 {
      assert hint[j] in multiset(I);
      var a :| 0 <= a < |I| && I[a] == hint[j];
    }
    forall a | 0 <= a < |I| ensures I[a] in hint {
      InHint(I, hint, a);
    }
    truth := seq(|I|, a requires 0 <= a < |I| => IndexOf(hint, I[a]));
  }

  /** Rows that are the beliefs the pulls left, each a distribution with positive mass on its arm's true rate. */
  lemma HintRows(I: seq<real>, hint: seq<real>, truth: seq<nat>, arms: seq<nat>, rewards: seq<int>, rows: seq<seq<real>>)
    requires |hint| == |I| && Observed(hint, arms, rewards)
    requires |truth| == |I| && forall a :: 0 <= a < |I| ==> truth[a] < |I| && hint[truth[a]] == I[a]
    requires |rows| == |I| && forall a :: 0 <= a < |I| ==>
      rows[a] == Beliefs(hint, arms, rewards)[a] && IsDistribution(rows[a]) && rows[a][truth[a]] > 0.0
    ensures rows == Beliefs(hint, arms, rewards)
    ensures forall a :: 0 <= a < |I| ==> IsDistribution(rows[a])
    ensures forall a :: 0 <= a < |I| ==>
      |rows[a]| == |I| && exists j :: 0 <= j < |rows[a]| && j < |hint| && hint[j] == I[a] && rows[a][j] > 0.0
  {
    forall a | 0 <= a < |I|
      ensures exists j :: 0 <= j < |rows[a]| && j < |hint| && hint[j] == I[a] && rows[a][j] > 0.0
    {
      var j := truth[a];
      assert 0 <= j < |rows[a]| && j < |hint| && hint[j] == I[a] && rows[a][j] > 0.0;
    }
  }

  /** `belief = np.ones((n, n)) / n`: every row starts as the uniform distribution, the belief before any pull. */
  method Prior(n: nat, ghost hint: seq<real>, ghost truth: seq<nat>) returns (belief: array2<real>)
    requires n > 0 && |hint| == |truth| == n && forall a :: 0 <= a < n ==> truth[a] < n
    ensures fresh(belief) && belief.Length0 == belief.Length1 == n
    ensures forall a :: 0 <= a < n ==> Row(belief, a) == Beliefs(hint, [], [])[a]
    ensures forall a :: 0 <= a < n ==> IsDistribution(Row(belief, a)) && Row(belief, a)[truth[a]] > 0.0
  {
    belief := new real[n, n]((_, _) => 1.0 / n as real);
    UniformIsDistribution(n);
    forall a | 0 <= a < n
      ensures Row(belief, a) == Uniform(n) == Beliefs(hint, [], [])[a]
    {
    }
  }

  /**
   * Thompson sampling with a hint (the sorted instance): each step pulls the first arm most
   * likely to have the best hinted rate and updates that arm's belief row by Bayes' rule.
   * Every row stays a distribution and keeps positive mass on the arm's true rate, so the
   * normalising factor is never zero. Pull k is paid by draw k.
   */
  method ThompsonHint(I: seq<real>, hz: int, rng: Rng, hint: seq<real>)
    returns (reg: real, ghost arms: seq<nat>, ghost rewards: seq<int>, ghost rows: seq<seq<real>>)
    requires ValidInstance(I) && rng.Valid()
    requires |hint| == |I| && multiset(hint) == multiset(I)
    modifies rng
    ensures rng.pos == old(rng.pos) + Clamp(hz)
    ensures |arms| == Clamp(hz) && Paid(I, rng, arms, rewards, Strided(old(rng.pos), 1, |arms|))
    ensures HintPicks(hint, arms, rewards)
    ensures Observed(hint, arms, rewards) && rows == Beliefs(hint, arms, rewards)
    ensures forall a :: 0 <= a < |I| ==> IsDistribution(rows[a])
    ensures forall a :: 0 <= a < |I| ==>
      |rows[a]| == |I| && exists j :: 0 <= j < |rows[a]| && j < |hint| && hint[j] == I[a] && rows[a][j] > 0.0
    ensures Sum(Counts(|I|, arms)) == Clamp(hz) && Sum(Totals(|I|, arms, rewards)) == Sum(rewards)
    ensures Consistent(Counts(|I|, arms), Totals(|I|, arms, rewards))
    ensures reg == Regret(I, hz, Sum(rewards))
    ensures hz >= 0 ==> (MaxOf(I) - 1.0) * hz as real <= reg <= MaxOf(I) * hz as real
    ensures hz >= 0 && Certain(I) ==> reg == 0.0
  {
    var n := |I|;
    ghost var truth := HintTruth(I, hint);
    var belief := Prior(n, hint, truth);
    var total;
    total, arms, rewards, rows := HintLoop(I, hz, rng, hint, belief, truth);
    reg := Regret(I, hz, total);
    Settle(I, hz, rng, arms, rewards, Strided(old(rng.pos), 1, |arms|));
  }

  /** The hz rounds of Thompson sampling with a hint, from the prior belief on; `rows` is the final belief. */
  method HintLoop(I: seq<real>, hz: int, rng: Rng, hint: seq<real>, belief: array2<real>, ghost truth: seq<nat>)
    returns (total: int, ghost arms: seq<nat>, ghost rewards: seq<int>, ghost rows: seq<seq<real>>)
    requires rng.Valid() && |hint| == |I| > 0 && Rates(hint) && belief.Length0 == belief.Length1 == |I|
    requires |truth| == |I| && forall a :: 0 <= a < |I| ==> truth[a] < |I| && hint[truth[a]] == I[a]
    requires forall a :: 0 <= a < |I| ==> Row(belief, a) == Beliefs(hint, [], [])[a]
    requires forall a :: 0 <= a < |I| ==> IsDistribution(Row(belief, a)) && Row(belief, a)[truth[a]] > 0.0
    modifies rng, belief
    ensures |arms| == Clamp(hz) && rng.pos == old(rng.pos) + Clamp(hz)
    ensures Paid(I, rng, arms, rewards, Strided(old(rng.pos), 1, |arms|)) && Observed(hint, arms, rewards)
    ensures HintPicks(hint, arms, rewards) && rows == Beliefs(hint, arms, rewards)
    ensures forall a :: 0 <= a < |I| ==> Row(belief, a) == rows[a]
    ensures forall a :: 0 <= a < |I| ==> IsDistribution(rows[a])
    ensures forall a :: 0 <= a < |I| ==>
      |rows[a]| == |I| && exists j :: 0 <= j < |rows[a]| && j < |hint| && hint[j] == I[a] && rows[a][j] > 0.0
    ensures total == Sum(rewards)
  {
    var pMaxId := Argmax(hint);
    arms, rewards := [], [];
    total := 0;
    for t := 0 to Clamp(hz)
      invariant |arms| == t && rng.pos == old(rng.pos) + t
      invariant Paid(I, rng, arms, rewards, Strided(old(rng.pos), 1, t)) && Observed(hint, arms, rewards)
      invariant HintPicks(hint, arms, rewards)
      invariant forall a :: 0 <= a < |I| ==> Row(belief, a) == Beliefs(hint, arms, rewards)[a]
      invariant forall a :: 0 <= a < |I| ==> IsDistribution(Row(belief, a)) && Row(belief, a)[truth[a]] > 0.0
      invariant total == Sum(rewards)
    {
      total, arms, rewards := HintRound(I, rng, hint, belief, pMaxId, total, truth, old(rng.pos), arms, rewards);
    }
    rows := seq(|I|, a requires 0 <= a < |I| reads belief => Row(belief, a));
    HintRows(I, hint, truth, arms, rewards, rows);
  }

  /**
   * One round of Thompson sampling with a hint: choose the arm most likely to have the best hinted
   * rate, pull it with the next draw and update its belief row by Bayes' rule.
   */
  method HintRound(I: seq<real>, rng: Rng, hint: seq<real>, belief: array2<real>, pMaxId: nat, total: int,
                   ghost truth: seq<nat>, ghost start: nat, ghost arms: seq<nat>, ghost rewards: seq<int>)
    returns (newTotal: int, ghost nextArms: seq<nat>, ghost nextRewards: seq<int>)
    requires rng.Valid() && |hint| == |I| > 0 && Rates(hint) && belief.Length0 == belief.Length1 == |I|
    requires pMaxId == Argmax(hint)
    requires |truth| == |I| && forall a :: 0 <= a < |I| ==> truth[a] < |I| && hint[truth[a]] == I[a]
    requires |arms| == |rewards| && rng.pos == start + |arms|
    requires Paid(I, rng, arms, rewards, Strided(start, 1, |arms|)) && Observed(hint, arms, rewards)
    requires HintPicks(hint, arms, rewards)
    requires forall a :: 0 <= a < |I| ==> Row(belief, a) == Beliefs(hint, arms, rewards)[a]
    requires forall a :: 0 <= a < |I| ==> IsDistribution(Row(belief, a)) && Row(belief, a)[truth[a]] > 0.0
    requires total == Sum(rewards)
    modifies rng, belief
    ensures |nextArms| == |nextRewards| == |arms| + 1 && rng.pos == start + |nextArms|
    ensures Paid(I, rng, nextArms, nextRewards, Strided(start, 1, |nextArms|)) && Observed(hint, nextArms, nextRewards)
    ensures HintPicks(hint, nextArms, nextRewards)
    ensures forall a :: 0 <= a < |I| ==> Row(belief, a) == Beliefs(hint, nextArms, nextRewards)[a]
    ensures forall a :: 0 <= a < |I| ==> IsDistribution(Row(belief, a)) && Row(belief, a)[truth[a]] > 0.0
    ensures newTotal == Sum(nextRewards)
  {
    var arm := ChooseHint(belief, pMaxId, hint, arms, rewards);
    var r := PullNext(I, arm, rng, start, arms, rewards);
    newTotal := HintUpdate(belief, hint, arm, r, truth, arms, rewards, total);
    nextArms, nextRewards := arms + [arm], rewards + [r];
  }

  /** The bookkeeping after a hinted pull: the belief row of the arm learns the reward, the total adds it. */
  method HintUpdate(belief: array2<real>, hint: seq<real>, arm: nat, r: int, ghost truth: seq<nat>,
                    ghost arms: seq<nat>, ghost rewards: seq<int>, total: int)
    returns (newTotal: int)
    requires Rates(hint) && belief.Length0 == belief.Length1 == |hint|
    requires Observed(hint, arms, rewards) && HintPicks(hint, arms, rewards) && arm < |hint| && (r == 0 || r == 1)
    requires arm == Argmax(ColumnOf(Beliefs(hint, arms, rewards), Argmax(hint)))
    requires |truth| == |hint| && forall a :: 0 <= a < |hint| ==> truth[a] < |hint|
    requires r == 1 ==> hint[truth[arm]] > 0.0
    requires r == 0 ==> hint[truth[arm]] < 1.0
    requires forall a :: 0 <= a < |hint| ==> Row(belief, a) == Beliefs(hint, arms, rewards)[a]
    requires forall a :: 0 <= a < |hint| ==> IsDistribution(Row(belief, a)) && Row(belief, a)[truth[a]] > 0.0
    requires total == Sum(rewards)
    modifies belief
    ensures Observed(hint, arms + [arm], rewards + [r]) && HintPicks(hint, arms + [arm], rewards + [r])
    ensures forall a :: 0 <= a < |hint| ==> Row(belief, a) == Beliefs(hint, arms + [arm], rewards + [r])[a]
    ensures forall a :: 0 <= a < |hint| ==> IsDistribution(Row(belief, a)) && Row(belief, a)[truth[a]] > 0.0
    ensures newTotal == Sum(rewards + [r])
  {
    HintLearn(belief, hint, arm, r, truth, arms, rewards);
    HintPicksAppend(hint, arms, rewards, arm, r);
    SumAppend(rewards, r);
    newTotal := total + r;
  }

  /**
   * The belief update of one hinted step: Bayes' rule on the pulled arm's row. The row keeps
   * positive mass on the arm's true rate whenever the reward is one that rate allows, so the
   * normalising factor is positive and every row stays the belief the pulls so far leave.
   */
  method HintLearn(belief: array2<real>, hint: seq<real>, arm: nat, r: int,
                   ghost truth: seq<nat>, ghost arms: seq<nat>, ghost rewards: seq<int>)
    requires Rates(hint) && belief.Length0 == belief.Length1 == |hint|
    requires Observed(hint, arms, rewards) && arm < |hint| && (r == 0 || r == 1)
    requires |truth| == |hint| && forall a :: 0 <= a < |hint| ==> truth[a] < |hint|
    requires r == 1 ==> hint[truth[arm]] > 0.0
    requires r == 0 ==> hint[truth[arm]] < 1.0
    requires forall a :: 0 <= a < |hint| ==> Row(belief, a) == Beliefs(hint, arms, rewards)[a]
    requires forall a :: 0 <= a < |hint| ==> IsDistribution(Row(belief, a)) && Row(belief, a)[truth[a]] > 0.0
    modifies belief
    ensures Observed(hint, arms + [arm], rewards + [r])
    ensures Mass(Weigh(Beliefs(hint, arms, rewards)[arm], hint, r)) > 0.0
    ensures forall a :: 0 <= a < |hint| ==> Row(belief, a) == Beliefs(hint, arms + [arm], rewards + [r])[a]
    ensures forall a :: 0 <= a < |hint| ==> IsDistribution(Row(belief, a)) && Row(belief, a)[truth[a]] > 0.0
  {
    TrueRateSurvives(Row(belief, arm), hint, r, truth[arm]);
    PosteriorIsDistribution(Row(belief, arm), hint, r);
    UpdateRow(belief, arm, hint, r);
    BeliefsAppend(hint, arms, rewards, arm, r);
  }

  /** The hinted choice: the first arm whose row gives the best hinted rate the most mass. */
  method ChooseHint(belief: array2<real>, pMaxId: nat, hint: seq<real>, ghost arms: seq<nat>, ghost rewards: seq<int>)
    returns (arm: nat)
    requires Observed(hint, arms, rewards) && belief.Length0 == belief.Length1 == |hint| && pMaxId < |hint|
    requires forall a :: 0 <= a < |hint| ==> Row(belief, a) == Beliefs(hint, arms, rewards)[a]
    ensures arm < |hint| && arm == Argmax(ColumnOf(Beliefs(hint, arms, rewards), pMaxId))
  {
    ghost var b := Beliefs(hint, arms, rewards);
    assert Column(belief, pMaxId) == ColumnOf(b, pMaxId) by {
      forall i | 0 <= i < |hint| ensures Column(belief, pMaxId)[i] == ColumnOf(b, pMaxId)[i] {
        assert Row(belief, i)[pMaxId] == belief[i, pMaxId];
      }
    }
    arm := Argmax(Column(belief, pMaxId));
  }
}
