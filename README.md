# Bernoulli multi-armed bandit simulator — a Dafny model

This project models the simulation core of `src/bandit.py`. The simulator pulls the arms of a
Bernoulli bandit instance `I` (one success probability per arm) for a horizon of `hz` pulls. Each
pull follows one of five policies: epsilon-greedy, UCB, KL-UCB, Thompson sampling, and Thompson
sampling with a hint. The result is the regret `max(I) * hz - total_reward`.

The model is imperative, as the source is:

- The pull records (`num_pulls`, `sum_rewards`, and Thompson's `s`/`f`) are Dafny arrays updated
  in place inside `for` loops.
- The KL-UCB bisection is a `while` loop over `real`.
- The belief matrix of Thompson sampling with a hint is an `array2<real>` whose pulled row is
  rewritten in place.
- The process-wide random generator is an object, `Reward.Rng`. Its state is the position in the
  stream of uniform draws that its seed determines.

Every random value comes from that one stream:

- A pull draws `u` and yields 1 when `u < p`.
- `np.random.choice(n)` is `floor(u * n)`.
- A Beta sample applies an injected Beta quantile function to one draw (inverse transform).

The natural logarithm and the square root are parameters `ln, sqrt: real -> real`. Given them, the
UCB score, the KL-UCB threshold `ln t + 3 ln ln t` and the stabilised Bernoulli KL divergence
(with its `1e-9` terms) are written out over exact reals (`KlBisection.Kl`,
`KlBisection.Threshold`, `Policies.UcbScores`).

Each policy returns, besides the regret, the ghost record of its run: the arm of every pull
(`arms`), what it paid (`rewards`) and, for epsilon-greedy, the stream position of the draw that
paid it (`draws`). The policy contracts tie that record to the stream:

- `Records.Paid`: pull k was of arm `arms[k]` and paid the Bernoulli outcome of its own draw.
- `Records.Counting`: the warm-up pulls arm k with the k-th draw after the start.
- `EpGreedyPicks`, `UcbPicks`, `KlUcbPicks`, `HintPicks`: every later pull is the arm the
  policy's rule picks on the records of the pulls before it.
- `ThompsonTrace`: the whole Thompson run, step by step, as a function of the stream.
- `Driver.PolicyRun` states, name by name, which of these a run satisfies, and `Driver.Run` returns
  the same record.

Modules:

- `Reward`: the generator and `pull`.
- `Selection`: `np.argmax` and `max`.
- `Records`: the pull records, the warm-up, the means and the regret.
- `KlBisection`: the KL-UCB index.
- `Belief`: the Bayesian row update.
- `Policies`: the five policies.
- `Driver`: the dispatch of `main`, named `Run`.

Behaviour of the code that a reader might not expect:

- Thompson sampling has no warm-up. It loops `hz` times from empty counts (src/bandit.py:130), so
  it makes `hz` decisions where epsilon-greedy, UCB and KL-UCB make `hz - n`. Thompson sampling
  with a hint has no warm-up either (src/bandit.py:145).
- An unknown algorithm name runs no policy. `main` prints a message and returns the initial
  regret 0 (src/bandit.py:158, 173-178). `Driver.Run` returns regret 0 with `algorithmFound`
  false.
- With a single arm the policy functions return `I[0] * hz - total_reward`
  (src/bandit.py:58, 81, 121, 138, 154). This is 0 only when the rewards total `I[0] * hz`, for
  example when `I[0]` is 0 or 1 (`Certain(I) ==> reg == 0.0` in every policy contract).
- When `hz < n` the decision loops run no iteration, because `range(hz - n)` is empty
  (src/bandit.py:46, 72, 97), and only the first `hz` arms are pulled.

## Model

| member | source | states |
|---|---|---|
| `Reward.Bernoulli` | src/bandit.py:25-28 | A pull yields 0 or 1. With a draw in [0,1), a rate-0 arm never pays and a rate-1 arm always pays. A reward of 1 implies a positive rate. A reward of 0 implies a rate below 1. |
| `Reward.Pull` | src/bandit.py:25-28 | A pull consumes exactly one draw of the shared generator. Its reward is the Bernoulli outcome of that draw against `I[arm]`. |
| `Reward.Rng.constructor` | src/bandit.py:159 | Seeding: the generator starts at position 0 of the stream its seed determines. Every draw lies in [0,1), and every Beta quantile of a draw lies in [0,1]. |
| `Reward.Rng.Uniform` | src/bandit.py:47 | `np.random.uniform()` returns the next draw, which lies in [0,1), and advances the generator by one. |
| `Reward.ChoiceOf` | src/bandit.py:49 | The arm chosen uniformly from a draw lies in [0,n). It is the one index k with k <= u*n < k+1. |
| `Reward.Rng.Choice` | src/bandit.py:49 | `np.random.choice(n)` returns an index in [0,n), the uniform choice of the next draw, and consumes that draw. |
| `Reward.Rng.BetaSamples` | src/bandit.py:132 | `np.random.beta(s+1, f+1)` gives one sample per arm, in arm order. Sample k is the Beta quantile of the k-th next draw and lies in [0,1]; n draws are consumed. |
| `Selection.Argmax` | src/bandit.py:53 | `np.argmax` returns an index in [0,n). Its score is at least every score. It is strictly greater than every score at a lower index, so ties go to the lowest index. |
| `Selection.FirstMaxUnique` | src/bandit.py:53 | An index whose score is at least every score and strictly above every score before it is the index `Argmax` returns, so these properties determine the selected arm uniquely. |
| `Selection.MaxOf` | src/bandit.py:58 | `max(I)` is an element of I and is at least every element. |
| `Records.SumUpdate` | src/bandit.py:55-56 | Adding d to one arm's entry adds d to the total over all arms. |
| `Records.Counts` | src/bandit.py:42-56 | `num_pulls` after a sequence of pulls: one entry per arm, entry a the number of pulls of arm a. Its total is stated by `Records.CountsSum`. |
| `Records.Totals` | src/bandit.py:43-55 | `sum_rewards` after a sequence of pulls: one entry per arm, entry a the sum of arm a's rewards. Its total is stated by `Records.TotalsSum`. |
| `Records.SumDifference` | src/bandit.py:135-136 | Summed over all arms, entrywise differences give the difference of the sums. |
| `Records.RewardsWithinPulls` | src/bandit.py:41-44 | When every arm has 0 <= `sum_rewards` <= `num_pulls`, the total reward lies between 0 and the total number of pulls. |
| `Records.RecordAppend` | src/bandit.py:55-57 | One more pull of arm a adds one to a's count, its reward to a's sum and to the total, and changes no other arm's entries. |
| `Records.CountsSum` | src/bandit.py:42 | The pull counts add up to the number of pulls made. |
| `Records.TotalsSum` | src/bandit.py:43-44 | The per-arm reward sums add up to `total_reward`. |
| `Records.OutcomesConsistent` | src/bandit.py:55-56 | When every reward is 0 or 1, no arm's reward sum exceeds its pull count, and none is negative. |
| `Records.PullAndRecord` | src/bandit.py:54-57 | One pull consumes one draw and pays its Bernoulli outcome. Only the pulled arm's `num_pulls` (+1) and `sum_rewards` (+reward) change, and the arrays stay the counts and sums of the pulls made. `total_reward` stays the sum of the rewards, and a fully pulled record stays fully pulled. |
| `Records.PullNext` | src/bandit.py:147 | `pull(I, arm)` in a run whose pulls used consecutive draws: the reward is one the arm's rate allows, and it is paid by the next draw. |
| `Records.WarmUp` | src/bandit.py:40-44 | The warm-up pulls arms `0..min(n,hz)-1` once each, in order, consuming one draw each, and pull k is paid by the k-th draw. Afterwards the arrays are the counts and sums of exactly those pulls, and the total is the sum of the rewards. |
| `Records.WarmUpCounts` | src/bandit.py:40-42 | After a warm-up of m <= n pulls, arms `0..m-1` have one pull each and the others none. |
| `Records.PaidAt` | src/bandit.py:25-28 | Pull by pull: each recorded pull was of an arm of the instance, and its reward is the Bernoulli outcome of its own draw. |
| `Records.PaidPlausible` | src/bandit.py:27 | Rewards paid from draws in [0,1) are 0 or 1, and each is one its arm's rate allows. |
| `Records.PaidConsistent` | src/bandit.py:55-56 | Paid pulls leave consistent records: every arm's reward sum lies between 0 and its pull count. |
| `Records.PaidRecords` | src/bandit.py:40-57 | The records of paid pulls add up: the counts to the number of pulls, the reward sums to `total_reward`, and each arm holds between 0 and its count in reward. |
| `Records.StridedCounting` | src/bandit.py:40-41 | A run of consecutive draw positions counts up from its start: the k-th warm-up pull uses the k-th draw. |
| `Records.CertainRewards` | src/bandit.py:27 | On an instance whose arms all pay never, no pull pays. On one whose arms all pay always, every pull pays. |
| `Records.CertainRegret` | src/bandit.py:58 | When every arm pays never or always, a run of hz >= 0 plausible pulls has regret exactly 0. |
| `Records.Means` | src/bandit.py:52 | `sum_rewards / num_pulls` is defined only when every arm has been pulled. Each mean times its count is the arm's reward sum. Under consistent records each mean lies in [0,1]. |
| `Records.Regret` | src/bandit.py:58 | The regret `max(I) * hz - total_reward`. What it measures is stated by `Records.RegretAgainstArms` and `Records.RegretRange`. |
| `Records.RegretAgainstArms` | src/bandit.py:58 | The regret is taken against the best arm: it is at least the regret against every arm's expected reward, and equals the regret against some arm's. |
| `Records.RegretRange` | src/bandit.py:58 | When the total reward lies in [0,hz], the regret lies in [(max(I)-1)*hz, max(I)*hz]. It may be negative. |
| `KlBisection.Kl` | src/bandit.py:110 | The stabilised Bernoulli KL divergence, with `1e-9` added inside both logarithms. The bisection's test `KlBisection.Exceeds` is stated in terms of it. |
| `KlBisection.Threshold` | src/bandit.py:101 | `ln(t) + 3 ln(ln(t))` with t the absolute pull count; what the bisection does with it is stated by `KlBisection.Bisect` and `KlBisection.KlIndexBounds`. |
| `KlBisection.Exceeds` | src/bandit.py:111 | The bisection's test `num_pulls[j] * KL > thres`. The brackets of `KlBisection.Bisect` and `KlBisection.Halve` are stated in terms of it. |
| `KlBisection.WidthTen` | src/bandit.py:105-106 | After ten halvings the width is below eps = 1e-3. |
| `KlBisection.Halvings` | src/bandit.py:106-114 | The bracket the `while` loop ends with from a given [l, h] after k halvings. That the loop computes it is stated by `KlBisection.Bisect`, what it brackets by `KlBisection.Bracket` in the same ensures. |
| `KlBisection.Halve` | src/bandit.py:106-114 | One halving keeps mean <= l <= h <= 1 and halves the width. It keeps l the mean or a point satisfying `num_pulls*KL <= thres`, and h 1 or a point violating it. It does not change the bracket the bisection ends with. |
| `KlBisection.Bisect` | src/bandit.py:103-114 | The loop starts from [means[j], 1] and terminates (ten halvings suffice, proved internally). It ends with h - l <= eps, l the mean or satisfying `num_pulls*KL <= thres`, and h 1 or violating it. If means[j] >= 1 - eps the body never runs. |
| `KlBisection.KlIndex` | src/bandit.py:115 | `ucb_metric[j]`, the midpoint of the bracket `Halvings` gives from [means[j], 1]. That it lies in [means[j], 1] within eps/2 of both sides of the constraint is stated by `KlBisection.KlIndexOf` and `KlBisection.KlIndexBounds`. |
| `KlBisection.KlIndices` | src/bandit.py:100-115 | One KL index per arm, as many as there are means. That the loop fills `ucb_metric` with it is stated by `KlBisection.KlUcbScores`. |
| `KlBisection.KlIndexBounds` | src/bandit.py:115 | `ucb_metric[j] = (l+h)/2` lies in [means[j], 1]. Within eps/2 of it there is a point that satisfies the KL constraint (or is the mean) and a point that violates it (or is 1). |
| `KlBisection.KlIndexOf` | src/bandit.py:102-115 | One arm's `ucb_metric[j]` is the midpoint of the bracket the bisection ends with, and lies in [means[j], 1]. |
| `KlBisection.KlUcbScores` | src/bandit.py:100-115 | `ucb_metric` holds every arm's KL index: the midpoint of its bisection bracket, in [means[j], 1]. |
| `Belief.Uniform` | src/bandit.py:142 | A row of `np.ones((n, n)) / n` has n entries, each 1/n. |
| `Belief.UniformIsDistribution` | src/bandit.py:142 | The initial belief row is non-negative, sums to 1, and gives every hinted rate positive mass. |
| `Belief.Likelihood` | src/bandit.py:150 | `hint[j]**r * (1-hint[j])**(1-r)` is `hint[j]` for reward 1 and `1-hint[j]` for reward 0. |
| `Belief.LikelihoodScales` | src/bandit.py:150 | With hinted rates in [0,1], the likelihood scales a non-negative belief entry into [0, entry]. |
| `Belief.Weigh` | src/bandit.py:150 | Multiplying the row by the likelihoods keeps its length. With hinted rates in [0,1], a non-negative row stays non-negative and no entry grows. |
| `Belief.MassNormalize` | src/bandit.py:152 | Dividing a row by the normalising factor divides its mass by that factor. |
| `Belief.Normalize` | src/bandit.py:152 | `belief[arm, :] / normalizing_factor`: same length, every entry divided by the factor. Its mass is stated by `Belief.MassNormalize`. |
| `Belief.Posterior` | src/bandit.py:148-152 | The updated row has the row's length, and an entry is 0 exactly when weighing by the likelihood made it 0. |
| `Belief.PosteriorIsDistribution` | src/bandit.py:148-152 | When the normalising factor is positive, the updated row is non-negative and sums to 1. |
| `Belief.TrueRateSurvives` | src/bandit.py:148-152 | Take a hinted rate that explains the observed reward and has positive prior mass. Then the normalising factor is positive, and that rate keeps positive posterior mass. |
| `Belief.PosteriorRulesOut` | src/bandit.py:150-152 | After reward 1, entries with `hint[j] = 0` become 0. After reward 0, entries with `hint[j] = 1` become 0. |
| `Belief.Update` | src/bandit.py:148-152 | The row after one reward: its posterior when the normalising factor is non-zero, with the row's length. That the factor is never zero in a hinted run is stated by `Belief.TrueRateSurvives` and `Policies.HintLearn`. |
| `Belief.Beliefs` | src/bandit.py:142-152 | The belief matrix a sequence of pulls leaves: n rows of n entries, all uniform at first, each pull updating only its arm's row. One step is stated by `Belief.BeliefsAppend`. |
| `Belief.BeliefsAppend` | src/bandit.py:147-152 | One more pull updates the pulled arm's belief row and leaves every other row as it was. |
| `Belief.ColumnOf` | src/bandit.py:146 | `belief[:, j]` has one entry per arm, entry i being row i's entry j. |
| `Belief.WeighRow` | src/bandit.py:148-151 | The first loop multiplies the pulled row by the likelihoods. Its accumulator ends as the mass of the new row. Other rows are unchanged. |
| `Belief.DivideRow` | src/bandit.py:152 | The pulled row is divided by the factor. Other rows are unchanged. |
| `Belief.UpdateRow` | src/bandit.py:148-152 | The pulled arm's row becomes its Bayesian posterior. Every other row is unchanged. |
| `Policies.UcbScores` | src/bandit.py:74-75 | One score per arm, `mean + sqrt(2 ln(t)/num_pulls)`, defined because every count is non-zero. Its meaning is stated by `Policies.UcbFavoursLessPulled`. |
| `Policies.UcbFavoursLessPulled` | src/bandit.py:75 | With sqrt monotone and ln(t) >= 0, take two arms of equal mean. The less-pulled one scores at least as high. |
| `Policies.EpGreedyPick` | src/bandit.py:47-54 | One epsilon-greedy decision: the coin is the draw at c. Below ep the arm is the uniform choice of the next draw, paid by the one after. Otherwise every arm has been pulled and the arm is the first of highest empirical mean, paid by the next draw. |
| `Policies.EpGreedyPicks` | src/bandit.py:46-54 | Every pull after the warm-up is an `EpGreedyPick` on the records of the pulls before it, its coin right after the previous pull's draw. |
| `Policies.ChooseEpGreedy` | src/bandit.py:47-53 | The coin is the next draw. Below ep, the arm is the uniform choice of the draw after it, and the pull uses the third draw. Otherwise the arm is the first of highest empirical mean, and the pull uses the second draw. |
| `Policies.EpGreedyRound` | src/bandit.py:46-57 | One decision step after the warm-up: the choice, then the pull paid by the draw after the choice, its record, and the new total. The run stays paid, counting and made of epsilon-greedy picks. It takes two or three draws. |
| `Policies.EpGreedyWarmedUp` | src/bandit.py:40-46 | After the warm-up, arm k was pulled with the k-th draw, no decision has been made yet, and every arm has been pulled when hz >= n. |
| `Policies.EpGreedyLoop` | src/bandit.py:46-57 | After the `hz - n` decision steps the run has `hz` pulls, each paid by its own draw. Every pull after the warm-up is an epsilon-greedy pick whose coin follows the previous pull's draw. `num_pulls` and `sum_rewards` end as the counts and sums of all `hz` pulls. Between `hz + (hz-n)` and `hz + 2(hz-n)` draws are used in all. |
| `Policies.EpGreedyPulls` | src/bandit.py:36-57 | The pulls of `ep_greedy`: the warm-up, then the decision steps. The result is the pull record above, and `total_reward` is the sum of its rewards. |
| `Policies.EpGreedy` | src/bandit.py:34-59 | A missing ep fails before any draw. Otherwise the run has `hz` pulls, each paying the Bernoulli outcome of its own draw. Warm-up pull k is of arm k. Every later pull is the epsilon-greedy pick on the records before it. The regret is `max(I)*hz - total` and lies in [(max(I)-1)*hz, max(I)*hz]. It is 0 when every arm pays never or always. Σ `num_pulls` = hz, Σ `sum_rewards` = `total_reward`, and 0 <= `sum_rewards[a]` <= `num_pulls[a]` for every arm. |
| `Policies.Settle` | src/bandit.py:40-58 | For `hz` paid pulls: Σ `num_pulls` = hz, Σ `sum_rewards` = `total_reward`, 0 <= `sum_rewards[a]` <= `num_pulls[a]` for every arm, and the regret lies in [(max(I)-1)*hz, max(I)*hz] and is 0 when every arm pays never or always. |
| `Policies.UcbPick` | src/bandit.py:74-76 | One UCB decision: every arm has been pulled, and the arm is the first of highest `mean + sqrt(2 ln t / num_pulls)` with t the pulls made so far. |
| `Policies.UcbPicks` | src/bandit.py:72-76 | Every pull after the warm-up is a `UcbPick` on the records of the pulls before it. |
| `Policies.ChooseUcb` | src/bandit.py:74-76 | The arm is the first of highest UCB score on the current counts, with t the number of pulls so far. |
| `Policies.UcbStep` | src/bandit.py:76-80 | A UCB pick paid by the next draw extends the run: still paid, still counting, still made of UCB picks. |
| `Policies.UcbRound` | src/bandit.py:72-80 | One UCB step: the pick, the pull paid by the next draw, its record and the new total. |
| `Policies.KlUcbPick` | src/bandit.py:99-116 | One KL-UCB decision: every arm has been pulled, the records are consistent, and the arm is the first of highest KL index against `Threshold(t)`. |
| `Policies.KlUcbPicks` | src/bandit.py:97-116 | Every pull after the warm-up is a `KlUcbPick` on the records of the pulls before it. |
| `Policies.Ucb` | src/bandit.py:61-82 | The run has `hz` pulls, pull k paid by draw k, and consumes exactly hz draws. Warm-up pull k is of arm k. Every later pull is the first arm of highest UCB score on the records before it. The regret is exact, bounded as for epsilon-greedy, and 0 when every arm pays never or always. Σ `num_pulls` = hz, Σ `sum_rewards` = `total_reward`, and 0 <= `sum_rewards[a]` <= `num_pulls[a]` for every arm. |
| `Policies.ChooseKlUcb` | src/bandit.py:99-116 | The arm is the first of highest KL index against the threshold at t pulls, with means in [0,1] and every count non-zero. |
| `Policies.KlUcbStep` | src/bandit.py:116-120 | A KL-UCB pick paid by the next draw extends the run: still paid, still counting, still made of KL-UCB picks. |
| `Policies.KlUcbRound` | src/bandit.py:97-120 | One KL-UCB step: the pick, the pull paid by the next draw, its record and the new total. |
| `Policies.KlUcb` | src/bandit.py:85-122 | The same guarantees as UCB, with every later pull the first arm of highest KL index on the records before it. Σ `num_pulls` = hz, Σ `sum_rewards` = `total_reward`, and 0 <= `sum_rewards[a]` <= `num_pulls[a]` for every arm. |
| `Policies.FailuresAppend` | src/bandit.py:136 | One more pull adds `1 - r` to the pulled arm's failures only. |
| `Policies.Failures` | src/bandit.py:136 | `f` after a sequence of pulls: entry a is arm a's pull count minus its successes, the pulls that paid 0. |
| `Policies.FailuresSum` | src/bandit.py:135-136 | Every pull adds one success or one failure, so Σ(`s` + `f`) is the number of pulls. |
| `Policies.FailuresNonNegative` | src/bandit.py:136 | When every reward is 0 or 1, no failure count is negative. |
| `Policies.PullAndCount` | src/bandit.py:134-137 | A Thompson pull consumes one draw and pays its Bernoulli outcome. It adds exactly one success or one failure, to the pulled arm only, and `total_reward` stays the number of successes. |
| `Policies.Samples` | src/bandit.py:132 | `np.random.beta(s+1, f+1)` of one step: one sample per arm, sample a the Beta(s[a]+1, f[a]+1) quantile of the draw at p + a. That the method draws exactly these is stated by `Policies.ChooseThompson`. |
| `Policies.ThompsonChoice` | src/bandit.py:132-133 | The arm of one Thompson step: `Argmax` of the step's samples on the success and failure counts of the earlier pulls, below n. |
| `Policies.ThompsonTrace` | src/bandit.py:130-137 | The first t Thompson steps as (arms, rewards), t of each. Step k pulls `ThompsonArm` and is paid by the draw after its n samples. That the loop produces it is stated by `Policies.ThompsonRound` and `Policies.Thompson`. |
| `Policies.ThompsonArm` | src/bandit.py:132-133 | The arm step t pulls: the Thompson choice on the counts of the first t steps, with its samples from position start + t(n+1) on; below n. |
| `Policies.ChooseThompson` | src/bandit.py:132-133 | The choice consumes one draw per arm and picks `Argmax` of `Samples` on the current `s` and `f`: the first arm of highest Beta(s+1, f+1) sample. |
| `Policies.ThompsonPick` | src/bandit.py:132-133 | On the counts a trace of Thompson steps leaves, the choice is the trace's next arm. |
| `Policies.ThompsonStepArm` | src/bandit.py:132-133 | The step after a trace picks by the Thompson rule on that trace's counts, with its samples drawn right after the trace's draws. |
| `Policies.ThompsonStepTrace` | src/bandit.py:130-137 | The step after a trace appends its arm and the Bernoulli reward of the draw right after its samples. |
| `Policies.ThompsonRound` | src/bandit.py:131-137 | One Thompson step extends the trace by one step and keeps `s`, `f` and the total equal to the trace's successes, failures and reward. |
| `Policies.ThompsonTracePaid` | src/bandit.py:130-134 | Every reward of a Thompson trace is paid by the draw right after its step's n samples. |
| `Policies.ThompsonSettle` | src/bandit.py:130-138 | A Thompson trace of `hz` steps is paid by the draw after each step's samples. Its counts add up to hz and are consistent, Σ(`s`+`f`) = hz with every failure count non-negative, and the regret lies in [(max(I)-1)*hz, max(I)*hz] and is 0 when every arm pays never or always. |
| `Policies.ThompsonSteps` | src/bandit.py:125-137 | The `for` loop from empty counts: the run is the trace of `hz` steps, hz(n+1) draws are consumed, and `total_reward` is the sum of its rewards. |
| `Policies.Thompson` | src/bandit.py:124-139 | With no warm-up, the run is exactly the trace of `hz` Thompson steps, each using n sample draws and one pull draw, so hz*(n+1) draws in all. The regret is exact, bounded as above, and 0 when every arm pays never or always. Every reward is paid by the draw after its step's n samples. Σ `num_pulls` = hz with consistent records, Σ(`s` + `f`) = hz, and no failure count is negative. |
| `Policies.InHint` | src/bandit.py:171 | Every arm's true rate occurs in the sorted instance used as the hint. |
| `Policies.HintPick` | src/bandit.py:146-152 | One hinted decision: the arm is the first of highest mass on the best hinted rate among the beliefs the earlier pulls left, and its reward leaves a positive normalising factor. |
| `Policies.HintPicks` | src/bandit.py:145-152 | Every pull is a `HintPick` on the beliefs the pulls before it left. |
| `Policies.HintTruth` | src/bandit.py:171 | A hint that is a rearrangement of the instance holds rates in [0,1], and each arm's true rate sits at some position of it. |
| `Policies.Prior` | src/bandit.py:142 | `np.ones((n, n)) / n`: every row is the belief before any pull, a distribution with positive mass on the arm's true rate. |
| `Policies.ChooseHint` | src/bandit.py:143-146 | The arm is the first whose belief row gives the best hinted rate the most mass. |
| `Policies.HintLearn` | src/bandit.py:148-152 | After a reward the arm's true rate allows, the normalising factor is positive, and the belief matrix is the one the pulls so far leave. Every row stays a distribution with positive mass on its arm's true rate. |
| `Policies.HintUpdate` | src/bandit.py:148-153 | The hinted bookkeeping after a pull: the belief update above, and `total_reward` gains the reward. |
| `Policies.HintRound` | src/bandit.py:146-153 | One hinted step: the pick, the pull paid by the next draw, and the belief update. The run stays paid and made of hinted picks. |
| `Policies.HintRows` | src/bandit.py:145-152 | The final belief rows are those the pulls leave, each a distribution with positive mass on a hinted rate equal to its arm's true rate. |
| `Policies.HintLoop` | src/bandit.py:143-153 | The `hz` hinted steps from the prior on: pull k is paid by draw k, every pull is the hinted pick on the beliefs before it, and the `belief` array ends holding exactly the returned rows, the beliefs of all the pulls, each a distribution that never loses the true rate. |
| `Policies.ThompsonHint` | src/bandit.py:141-155 | The run has `hz` pulls, pull k paid by draw k, each the hinted pick on the beliefs the earlier pulls leave. The final belief rows are those beliefs, every one a distribution keeping positive mass on its arm's true rate, so the normalising factor is never zero. The regret is exact, bounded as above, and 0 when every arm pays never or always. The per-arm pull counts of the run add up to hz, and each arm's reward lies between 0 and its count. |
| `Driver.Name` | src/bandit.py:162-171 | The name under which `main` runs each of the five policies. |
| `Driver.Lookup` | src/bandit.py:162-173 | The if/elif chain: a name selects a policy only when it is that policy's name, and selects none when it is no policy's name. |
| `Driver.LookupName` | src/bandit.py:162-171 | Each policy's own name selects that policy and no other. |
| `Driver.PolicyRun` | src/bandit.py:162-172 | What each policy's run leaves. Every run has hz pulls, each paid by its recorded draw, with counts adding up to hz and consistent. Epsilon-greedy: ep given, counting warm-up, then `EpGreedyPicks`. UCB and KL-UCB: pull k paid by draw k, hz draws, counting warm-up, then `UcbPicks` or `KlUcbPicks`. Thompson sampling: the `ThompsonTrace` of hz steps, hz(n+1) draws. Thompson sampling with a hint: pull k paid by draw k, hz draws, `HintPicks`. |
| `Driver.RunPolicy` | src/bandit.py:162-172 | Running a policy fails exactly for epsilon-greedy without ep, before any draw. Otherwise the run is that policy's `PolicyRun` and the regret is `max(I)*hz - Σ rewards`, in [(max(I)-1)*hz, max(I)*hz], and 0 when every arm pays never or always. |
| `Driver.Run` | src/bandit.py:157-178 | `main` runs the policy `Lookup` selects from the name. It fails exactly when that is epsilon-greedy and ep is missing, before any draw. For a known name the run is that policy's `PolicyRun` from the draw position before the call to the one after, and the regret is `max(I)*hz - Σ rewards`, in [(max(I)-1)*hz, max(I)*hz]. An unknown name runs no policy, consumes no draw and reports regret 0 with `algorithmFound` false. The default `ep = 0.1` is applied only to the reported value, after dispatch. Every regret is 0 when every arm pays never or always. |

## Left out

- Argument parsing, printing and the top-level call (src/bandit.py:6-18, 174, 177, 180) are I/O.
  `Driver.Run` returns the regret, the epsilon it would print and whether the name was known. It
  does not return the line itself.
- Reading the instance file is not modelled: `Driver.Run` takes `I` as an already-parsed sequence.
  `np.loadtxt` (src/bandit.py:160) turns a file holding one value into a 0-d array, and `len(I)`
  (src/bandit.py:161) then raises TypeError. So a one-arm instance read from a file never reaches
  a policy in the program, although the policy functions handle one arm.
- The generator's own algorithms are not modelled: seeding, and how numpy turns its bit stream into
  uniforms, integers and Beta variates. The seed becomes the stream `Rng.stream` of uniform draws
  in [0,1). `choice` and `beta` are inverse transforms of one draw each, which is a modelling
  choice. Bit-for-bit determinism for a fixed seed is a property of the library's generator and is
  not stated.
- `np.log` and `np.sqrt` are the parameters `ln` and `sqrt`, and no property is assumed of them.
  `Policies.UcbFavoursLessPulled` assumes monotonicity of `sqrt` in its requires.
- Floating point is not modelled. Counts are integers where numpy keeps them in float arrays.
  Beyond that, the model does not capture:
  - the nan that numpy produces in the KL divergence when `means[j] = 0` (`0 * log 0`);
  - rounding in the bisection;
  - underflow of belief entries to 0.
- `np.sort` (src/bandit.py:171) is a library call. `Driver.Run` takes the sorted instance as the
  parameter `hint` and requires it to be a sorted rearrangement of `I`.
- Policies.ThompsonHint: requires the hint to be a rearrangement of `I`, which is what `main`
  passes. With an arbitrary hint the normalising factor can be 0, and numpy would then fill the
  row with nan. That case is not modelled.
- Records.ValidInstance: every policy requires at least one arm, because `max` and `np.argmax`
  of an empty instance raise. Every policy also requires probabilities in [0,1], which is the
  domain of the instance file.
- The dead `arm = -1` initialisations (src/bandit.py:39, 65, 89, 128) have no counterpart.
