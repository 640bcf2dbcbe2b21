/**
 * The dispatch of `main`: picks a policy by name and reports its regret together with the
 * epsilon shown in the output line. The hint for Thompson sampling with a hint is the sorted
 * instance, supplied by the caller.
 */
module Driver {
  import opened Wrappers
  import opened Reward
  import opened Selection
  import opened Records
  import opened Policies

  /** The epsilon reported when none was given; it is applied only after the policy has run. */
  const DefaultEpsilon: real := 0.1

  /** What `main` prints besides its inputs: the regret, the epsilon shown, and whether the name was known. */
  datatype Report = Report(regret: real, epsilon: real, algorithmFound: bool)

  /** The policies `main` can run. */
  datatype Algorithm = EpsilonGreedy | UpperConfidenceBound | KlUpperConfidenceBound | ThompsonSampling | ThompsonSamplingWithHint

  /** The name under which `main` runs each policy. */
  function Name(a: Algorithm): string {
    match a
    case EpsilonGreedy => "epsilon-greedy"
    case UpperConfidenceBound => "ucb"
    case KlUpperConfidenceBound => "kl-ucb"
    case ThompsonSampling => "thompson-sampling"
    case ThompsonSamplingWithHint => "thompson-sampling-with-hint"
  }

  /** The if/elif chain of `main`: the policy a name selects, if any. */
  function Lookup(algo: string): (r: Option<Algorithm>)
    ensures r.Some? ==> Name(r.value) == algo
    ensures r.None? ==> forall a: Algorithm :: Name(a) != algo
  {
    if algo == "epsilon-greedy" then Some(EpsilonGreedy)
    else if algo == "ucb" then Some(UpperConfidenceBound)
    else if algo == "kl-ucb" then Some(KlUpperConfidenceBound)
    else if algo == "thompson-sampling" then Some(ThompsonSampling)
    else if algo == "thompson-sampling-with-hint" then Some(ThompsonSamplingWithHint)
    else None
  }

  /** Every policy is selected by its own name, and by no other. */
  lemma LookupName(a: Algorithm)
    ensures Lookup(Name(a)) == Some(a)
  {
  }

  /** `np.sort(I)`: the instance's rates in ascending order. */
  ghost predicate IsSortedCopy(hint: seq<real>, I: seq<real>) {
    multiset(hint) == multiset(I) && forall i, j :: 0 <= i < j < |hint| ==> hint[i] <= hint[j]
  }

  /**
   * What a run of policy a leaves, given the draw position before it (start) and after it (pos):
   * hz pulls, each paid by the draw `draws` lists, with records that add up; and the pulls are
   * the ones that policy makes.
   */
  ghost predicate PolicyRun(a: Algorithm, I: seq<real>, ep: Option<real>, hz: int, rng: Rng, hint: seq<real>,
                            ln: real -> real, sqrt: real -> real, start: nat, pos: nat,
                            arms: seq<nat>, rewards: seq<int>, draws: seq<nat>)
    requires ValidInstance(I) && rng.Valid()
  {
    && |arms| == Clamp(hz) && Paid(I, rng, arms, rewards, draws)
    && Sum(Counts(|I|, arms)) == Clamp(hz) && Consistent(Counts(|I|, arms), Totals(|I|, arms, rewards))
    && match a
       case EpsilonGreedy =>
         && ep.Some? && Counting(arms, 0, |I|) && Counting(draws, start, |I|)
         && EpGreedyPicks(rng, ep.value, |I|, arms, rewards, draws)
         && pos == if |arms| == 0 then start else draws[|draws| - 1] + 1
       case UpperConfidenceBound =>
         && draws == Strided(start, 1, |arms|) && pos == start + Clamp(hz)
         && Counting(arms, 0, |I|) && UcbPicks(|I|, arms, rewards, ln, sqrt)
       case KlUpperConfidenceBound =>
         && draws == Strided(start, 1, |arms|) && pos == start + Clamp(hz)
         && Counting(arms, 0, |I|) && KlUcbPicks(|I|, arms, rewards, ln)
       case ThompsonSampling =>
         && (arms, rewards) == ThompsonTrace(I, rng, start, Clamp(hz))
         && draws == Strided(start + |I|, |I| + 1, |arms|) && pos == start + Clamp(hz) * (|I| + 1)
       case ThompsonSamplingWithHint =>
         && draws == Strided(start, 1, |arms|) && pos == start + Clamp(hz)
         && HintPicks(hint, arms, rewards)
  }

  /**
   * Runs policy a and returns its regret, or the error epsilon-greedy raises when ep is missing.
   * `arms`, `rewards` and `draws` are the record of the run: the arm of every pull, what it paid
   * and the stream position of the draw that paid it.
   */
  method RunPolicy(a: Algorithm, I: seq<real>, ep: Option<real>, hz: int, rng: Rng, hint: seq<real>,
                   ln: real -> real, sqrt: real -> real)
    returns (res: Result<real>, ghost arms: seq<nat>, ghost rewards: seq<int>, ghost draws: seq<nat>)
    requires ValidInstance(I) && rng.Valid() && IsSortedCopy(hint, I) && |hint| == |I|
    modifies rng
    ensures res.Err? <==> a == EpsilonGreedy && ep.None?
    ensures res.Err? ==> res.error == MissingEpsilon && rng.pos == old(rng.pos)
    ensures res.Ok? ==> PolicyRun(a, I, ep, hz, rng, hint, ln, sqrt, old(rng.pos), rng.pos, arms, rewards, draws)
    ensures res.Ok? ==> res.value == Regret(I, hz, Sum(rewards))
    ensures res.Ok? && hz >= 0 ==> (MaxOf(I) - 1.0) * hz as real <= res.value <= MaxOf(I) * hz as real
    ensures res.Ok? && hz >= 0 && Certain(I) ==> res.value == 0.0
  {
    var reg;
    match a {
      case EpsilonGreedy =>
        res, arms, rewards, draws := EpGreedy(I, ep, hz, rng);
        return;
      case UpperConfidenceBound =>
        reg, arms, rewards := Ucb(I, hz, rng, ln, sqrt);
        draws := Strided(old(rng.pos), 1, |arms|);
      case KlUpperConfidenceBound =>
        reg, arms, rewards := KlUcb(I, hz, rng, ln);
        draws := Strided(old(rng.pos), 1, |arms|);
      case ThompsonSampling =>
        reg, arms, rewards := Thompson(I, hz, rng);
        draws := Strided(old(rng.pos) + |I|, |I| + 1, |arms|);
      case ThompsonSamplingWithHint =>
        ghost var rows;
        reg, arms, rewards, rows := ThompsonHint(I, hz, rng, hint);
        draws := Strided(old(rng.pos), 1, |arms|);
    }
    res := Ok(reg);
  }

  /**
   * `main`: runs the policy `algo` names and reports its regret with the epsilon shown. An unknown
   * name runs nothing and reports regret 0; the default epsilon is applied after the run.
   */
  method Run(I: seq<real>, algo: string, ep: Option<real>, hz: int, rng: Rng, hint: seq<real>,
             ln: real -> real, sqrt: real -> real)
    returns (res: Result<Report>, ghost arms: seq<nat>, ghost rewards: seq<int>, ghost draws: seq<nat>)
    requires ValidInstance(I) && rng.Valid() && IsSortedCopy(hint, I) && |hint| == |I|
    modifies rng
    ensures res.Err? <==> Lookup(algo) == Some(EpsilonGreedy) && ep.None?
    ensures res.Err? ==> res.error == MissingEpsilon && rng.pos == old(rng.pos)
    ensures res.Ok? ==> res.value.epsilon == (if ep.Some? then ep.value else DefaultEpsilon)
    ensures res.Ok? ==> (res.value.algorithmFound <==> Lookup(algo).Some?)
    ensures Lookup(algo).None? ==> res.Ok? && res.value.regret == 0.0 && rng.pos == old(rng.pos) && arms == []
    ensures res.Ok? && Lookup(algo).Some? ==>
      && PolicyRun(Lookup(algo).value, I, ep, hz, rng, hint, ln, sqrt, old(rng.pos), rng.pos, arms, rewards, draws)
      && res.value.regret == Regret(I, hz, Sum(rewards))
    ensures res.Ok? && Lookup(algo).Some? && hz >= 0 ==>
      (MaxOf(I) - 1.0) * hz as real <= res.value.regret <= MaxOf(I) * hz as real
    ensures res.Ok? && hz >= 0 && Certain(I) ==> res.value.regret == 0.0
  {
    var reg := 0.0;
    var found := true;
    arms, rewards, draws := [], [], [];
    match Lookup(algo) {
      case Some(a) =>
        var r;
        r, arms, rewards, draws := RunPolicy(a, I, ep, hz, rng, hint, ln, sqrt);
        if r.Err? {
          return Err(r.error), arms, rewards, draws;
        }
        reg := r.value;
      case None =>
        found := false;
    }
    var shownEpsilon := if ep.None? then DefaultEpsilon else ep.value;
    res := Ok(Report(reg, shownEpsilon, found));
  }
}
