/** The suppression pipeline around the greedy policy: one `decide` run. */
module DecisionService {
  import opened Prelude
  import opened Sequences
  import opened DecisionModel
  import opened DecisionPolicy

  // ---- Chain policy ----

  /** The upstream families that must be settled before a family is proposed. */
  function Prerequisites(family: string): seq<string> {
    if family == "type_fix" then ["lint_fix"]
    else if family == "execution_health_followup" then ["test_visibility"]
    else []
  }

  function Families(specs: seq<CandidateSpec>): set<string> {
    set s | s in specs :: s.family
  }

  /** Families with an emitted candidate in an artifact no older than the cutoff. */
  function RecentFamilies(prior: seq<Artifact>, cutoff: int): set<string> {
    set a, c | a in prior && a.generatedAt >= cutoff && c in a.candidates && c.status == "emit" :: c.family
  }

  /** The first upstream family that is active, and how. */
  function Blocker(upstreams: seq<string>, inCycle: set<string>, recent: set<string>): Option<Reason> {
    if upstreams == [] then None
    else if upstreams[0] in inCycle then Some(UpstreamFamilyInCycle(upstreams[0]))
    else if upstreams[0] in recent then Some(UpstreamFamilyRecentlyEmitted(upstreams[0]))
    else Blocker(upstreams[1..], inCycle, recent)
  }

  function Unblocked(inCycle: set<string>, recent: set<string>): CandidateSpec -> bool {
    (s: CandidateSpec) => Blocker(Prerequisites(s.family), inCycle, recent).None?
  }

  function Blocked(inCycle: set<string>, recent: set<string>): CandidateSpec -> bool {
    (s: CandidateSpec) => Blocker(Prerequisites(s.family), inCycle, recent).Some?
  }

  function ChainRecord(inCycle: set<string>, recent: set<string>): CandidateSpec -> Suppressed {
    (s: CandidateSpec) =>
      var b := Blocker(Prerequisites(s.family), inCycle, recent);
      Suppress(s, if b.Some? then b.value else UpstreamFamilyInCycle(""))
  }

  function ChainLive(specs: seq<CandidateSpec>, prior: seq<Artifact>, cutoff: int): seq<CandidateSpec> {
    Filter(specs, Unblocked(Families(specs), RecentFamilies(prior, cutoff)))
  }

  function ChainSuppressed(specs: seq<CandidateSpec>, prior: seq<Artifact>, cutoff: int): seq<Suppressed> {
    var inCycle, recent := Families(specs), RecentFamilies(prior, cutoff);
    Map(Filter(specs, Blocked(inCycle, recent)), ChainRecord(inCycle, recent))
  }

  /** The inner loop of the chain policy over one spec's prerequisites. */
  method FindBlocker(upstreams: seq<string>, inCycle: set<string>, recent: set<string>) returns (r: Option<Reason>)
    ensures r == Blocker(upstreams, inCycle, recent)
  {
    for i := 0 to |upstreams|
      invariant Blocker(upstreams, inCycle, recent) == Blocker(upstreams[i..], inCycle, recent)
    {
      assert upstreams[i..][1..] == upstreams[i + 1..];
      if upstreams[i] in inCycle { return Some(UpstreamFamilyInCycle(upstreams[i])); }
      if upstreams[i] in recent { return Some(UpstreamFamilyRecentlyEmitted(upstreams[i])); }
    }
    return None;
  }

  /** The loop of the chain policy that collects recently emitted families. */
  method CollectRecent(prior: seq<Artifact>, cutoff: int) returns (recent: set<string>)
    ensures recent == RecentFamilies(prior, cutoff)
  {
    recent := {};
    for i := 0 to |prior|
      invariant recent == RecentFamilies(prior[..i], cutoff)
    {
      var artifact := prior[i];
      assert prior[..i + 1] == prior[..i] + [artifact];
      if artifact.generatedAt >= cutoff {
        ghost var before := recent;
        for j := 0 to |artifact.candidates|
          invariant recent == before + set c | c in artifact.candidates[..j] && c.status == "emit" :: c.family
        {
          var candidate := artifact.candidates[j];
          assert artifact.candidates[..j + 1] == artifact.candidates[..j] + [candidate];
          if candidate.status == "emit" { recent := recent + {candidate.family}; }
        }
        assert artifact.candidates[..|artifact.candidates|] == artifact.candidates;
      }
    }
    assert prior[..|prior|] == prior;
  }

  /** One more spec has been checked against its prerequisites. */
  lemma ChainStep(specs: seq<CandidateSpec>, i: nat, inCycle: set<string>, recent: set<string>)
    requires i < |specs|
    ensures var blocker := Blocker(Prerequisites(specs[i].family), inCycle, recent);
      var live, record := Unblocked(inCycle, recent), ChainRecord(inCycle, recent);
      var blocked := Blocked(inCycle, recent);
      && Filter(specs[..i + 1], live) == Filter(specs[..i], live) + (if blocker.None? then [specs[i]] else [])
      && Map(Filter(specs[..i + 1], blocked), record)
         == Map(Filter(specs[..i], blocked), record)
            + (if blocker.None? then [] else [Suppress(specs[i], blocker.value)])
  {
    FilterStep(specs, i, Unblocked(inCycle, recent));
    FilterMapStep(specs, i, Blocked(inCycle, recent), ChainRecord(inCycle, recent));
  }

  /** `ChainPolicy.apply`. */
  method ApplyChain(specs: seq<CandidateSpec>, prior: seq<Artifact>, now: int, cooldown: int)
    returns (live: seq<CandidateSpec>, suppressed: seq<Suppressed>)
    ensures live == ChainLive(specs, prior, now - cooldown)
    ensures suppressed == ChainSuppressed(specs, prior, now - cooldown)
  {
    var inCycle := Families(specs);
    var recent := CollectRecent(prior, now - cooldown);
    live, suppressed := [], [];
    for i := 0 to |specs|
      invariant live == Filter(specs[..i], Unblocked(inCycle, recent))
      invariant suppressed == Map(Filter(specs[..i], Blocked(inCycle, recent)), ChainRecord(inCycle, recent))
    {
      var spec := specs[i];
      ChainStep(specs, i, inCycle, recent);
      var blocker := FindBlocker(Prerequisites(spec.family), inCycle, recent);
      if blocker.None? {
        live := live + [spec];
      } else {
        suppressed := suppressed + [Suppress(spec, blocker.value)];
      }
    }
    WholeSlice(specs);
  }

  // ---- The whole pipeline ----

  datatype Context = Context(
    generatedAt: int,
    historyLimit: nat,
    maxCandidates: int,
    cooldown: int,
    allowedFamilies: set<string>,
    maxProposalsPer24h: int,
    maxChangedFiles: int)

  /** What the usage store, the proposer results and the feedback records say at this moment. */
  datatype Surroundings = Surroundings(
    remainingExecCapacity: int,
    minRemainingExec: int,
    proposalsLast24h: int,
    staleKeys: set<string>)

  function Config(ctx: Context): PolicyConfig {
    PolicyConfig(ctx.maxCandidates, 1, ctx.cooldown, "low", ctx.maxChangedFiles)
  }

  function Record(reason: Reason): CandidateSpec -> Suppressed {
    (s: CandidateSpec) => Suppress(s, reason)
  }

  function Allowed(families: set<string>): CandidateSpec -> bool {
    (s: CandidateSpec) => s.family in families
  }

  function Deferred(families: set<string>): CandidateSpec -> bool {
    (s: CandidateSpec) => s.family !in families
  }

  function KeyIn(keys: set<string>): CandidateSpec -> bool {
    (s: CandidateSpec) => DedupKey(s) in keys
  }

  function KeyNotIn(keys: set<string>): CandidateSpec -> bool {
    (s: CandidateSpec) => DedupKey(s) !in keys
  }

  /** A stage's survivors and suppression records. */
  datatype Stage = Stage(live: seq<CandidateSpec>, suppressed: seq<Suppressed>)

  function FamilyGate(ctx: Context, specs: seq<CandidateSpec>): Stage {
    Stage(Filter(specs, Allowed(ctx.allowedFamilies)),
          Map(Filter(specs, Deferred(ctx.allowedFamilies)), Record(FamilyDeferredInitialGating)))
  }

  /** A gate that lets everything through or nothing. */
  function Gate(closed: bool, reason: Reason, s: Stage): Stage {
    if closed then Stage([], s.suppressed + Map(s.live, Record(reason))) else s
  }

  function StaleGate(keys: set<string>, s: Stage): Stage {
    Stage(Filter(s.live, KeyNotIn(keys)), s.suppressed + Map(Filter(s.live, KeyIn(keys)), Record(ProposalStaleOpen)))
  }

  function ChainGate(prior: seq<Artifact>, cutoff: int, s: Stage): Stage {
    Stage(ChainLive(s.live, prior, cutoff), s.suppressed + ChainSuppressed(s.live, prior, cutoff))
  }

  /** The execution budget and the velocity cap. */
  function Caps(ctx: Context, around: Surroundings, s: Stage): Stage {
    Gate(around.proposalsLast24h >= ctx.maxProposalsPer24h, VelocityCapReached,
         Gate(around.remainingExecCapacity < around.minRemainingExec, ProposalBudgetTooLow, s))
  }

  /** The gates that look only at this run. */
  function Early(ctx: Context, around: Surroundings, specs: seq<CandidateSpec>): Stage {
    Caps(ctx, around, FamilyGate(ctx, specs))
  }

  /** Those and the gate for proposals left open too long. */
  function Timely(ctx: Context, around: Surroundings, specs: seq<CandidateSpec>): Stage {
    StaleGate(around.staleKeys, Early(ctx, around, specs))
  }

  /** Everything before the greedy policy. */
  function Funnel(ctx: Context, around: Surroundings, prior: seq<Artifact>, specs: seq<CandidateSpec>): Stage {
    ChainGate(prior, ctx.generatedAt - ctx.cooldown, Timely(ctx, around, specs))
  }

  /** The artifact of one run. */
  function Decision(ctx: Context, around: Surroundings, prior: seq<Artifact>, specs: seq<CandidateSpec>,
                    repoPath: string, insightRunId: string): Artifact
  {
    var s := Funnel(ctx, around, prior, specs);
    var sorted := StableSort(s.live, SpecLeq);
    Artifact(ctx.generatedAt, repoPath, insightRunId,
             Map(Picked(Config(ctx), prior, ctx.generatedAt, sorted), Build),
             s.suppressed + Rejected(Config(ctx), prior, ctx.generatedAt, sorted))
  }

  /** The loop that records every remaining spec under one reason. */
  method SuppressAll(specs: seq<CandidateSpec>, reason: Reason) returns (r: seq<Suppressed>)
    ensures r == Map(specs, Record(reason))
  {
    r := [];
    for i := 0 to |specs|
      invariant r == Map(specs[..i], Record(reason))
    {
      assert specs[..i + 1] == specs[..i] + [specs[i]];
      r := r + [Suppress(specs[i], reason)];
    }
    WholeSlice(specs);
  }

  /** The loop that separates specs of families not yet enabled. */
  method GateFamilies(ctx: Context, specs: seq<CandidateSpec>) returns (r: Stage)
    ensures r == FamilyGate(ctx, specs)
  {
    var live, suppressed := [], [];
    for i := 0 to |specs|
      invariant live == Filter(specs[..i], Allowed(ctx.allowedFamilies))
      invariant suppressed ==
        Map(Filter(specs[..i], Deferred(ctx.allowedFamilies)), Record(FamilyDeferredInitialGating))
    {
      var spec := specs[i];
      FilterStep(specs, i, Allowed(ctx.allowedFamilies));
      FilterMapStep(specs, i, Deferred(ctx.allowedFamilies), Record(FamilyDeferredInitialGating));
      if spec.family in ctx.allowedFamilies {
        live := live + [spec];
      } else {
        suppressed := suppressed + [Suppress(spec, FamilyDeferredInitialGating)];
      }
    }
    WholeSlice(specs);
    r := Stage(live, suppressed);
  }

  lemma {:induction false} NothingStale(specs: seq<CandidateSpec>)
    ensures Filter(specs, KeyNotIn({})) == specs && Filter(specs, KeyIn({})) == []
  {
    if specs != [] {
      assert specs == specs[..|specs| - 1] + [specs[|specs| - 1]];
      NothingStale(specs[..|specs| - 1]);
    }
  }

  /** The loop that drops keys whose proposal is open past its expiry. */
  method DropStale(keys: set<string>, s: Stage) returns (r: Stage)
    ensures r == StaleGate(keys, s)
  {
    if keys == {} {
      NothingStale(s.live);
      return s;
    }
    var live, stale := [], [];
    for i := 0 to |s.live|
      invariant live == Filter(s.live[..i], KeyNotIn(keys))
      invariant stale == Map(Filter(s.live[..i], KeyIn(keys)), Record(ProposalStaleOpen))
    {
      var spec := s.live[i];
      FilterStep(s.live, i, KeyNotIn(keys));
      FilterMapStep(s.live, i, KeyIn(keys), Record(ProposalStaleOpen));
      if DedupKey(spec) in keys {
        stale := stale + [Suppress(spec, ProposalStaleOpen)];
      } else {
        live := live + [spec];
      }
    }
    WholeSlice(s.live);
    r := Stage(live, s.suppressed + stale);
  }

  /** The two gates that suppress everything still live. */
  method ApplyCaps(ctx: Context, around: Surroundings, s: Stage) returns (r: Stage)
    ensures r == Caps(ctx, around, s)
  {
    r := s;
    if around.remainingExecCapacity < around.minRemainingExec {
      var records := SuppressAll(r.live, ProposalBudgetTooLow);
      r := Stage([], r.suppressed + records);
    }
    if around.proposalsLast24h >= ctx.maxProposalsPer24h {
      var records := SuppressAll(r.live, VelocityCapReached);
      r := Stage([], r.suppressed + records);
    }
  }

  /** `DecisionEngineService.decide`, from the specs the rules produced to the artifact. */
  method Decide(ctx: Context, around: Surroundings, prior: seq<Artifact>, specs: seq<CandidateSpec>,
                repoPath: string, insightRunId: string)
    returns (artifact: Artifact)
    ensures artifact == Decision(ctx, around, prior, specs, repoPath, insightRunId)
  {
    var stage := GateFamilies(ctx, specs);
    stage := ApplyCaps(ctx, around, stage);
    stage := DropStale(around.staleKeys, stage);
    var live, chainSuppressed := ApplyChain(stage.live, prior, ctx.generatedAt, ctx.cooldown);
    var suppressed := stage.suppressed + chainSuppressed;
    assert Stage(live, suppressed) == Funnel(ctx, around, prior, specs);
    var candidates, policySuppressed := Apply(Config(ctx), live, prior, ctx.generatedAt);
    artifact := Artifact(ctx.generatedAt, repoPath, insightRunId, candidates, suppressed + policySuppressed);
  }

  // ---- Conservation ----

  function KeyBag(specs: seq<CandidateSpec>): multiset<string> {
    multiset(Map(specs, DedupKey))
  }

  function RecordBag(records: seq<Suppressed>): multiset<string> {
    multiset(Map(records, (r: Suppressed) => r.dedupKey))
  }

  function CandidateBag(candidates: seq<Candidate>): multiset<string> {
    multiset(Map(candidates, (c: Candidate) => c.dedupKey))
  }

  lemma KeyBagAppend(specs: seq<CandidateSpec>, s: CandidateSpec)
    ensures KeyBag(specs + [s]) == KeyBag(specs) + multiset{DedupKey(s)}
  {
    MapAppend(specs, s, DedupKey);
  }

  lemma RecordBagConcat(a: seq<Suppressed>, b: seq<Suppressed>)
    ensures RecordBag(a + b) == RecordBag(a) + RecordBag(b)
  {
    var f := (r: Suppressed) => r.dedupKey;
    assert Map(a + b, f) == Map(a, f) + Map(b, f);
  }

  /** Records carry the keys of the specs they stand for. */
  lemma RecordBagOf(specs: seq<CandidateSpec>, record: CandidateSpec -> Suppressed)
    requires forall s :: record(s).dedupKey == DedupKey(s)
    ensures RecordBag(Map(specs, record)) == KeyBag(specs)
  {
    assert Map(Map(specs, record), (r: Suppressed) => r.dedupKey) == Map(specs, DedupKey);
  }

  lemma {:induction false} KeyBagSplits(specs: seq<CandidateSpec>, p: CandidateSpec -> bool, q: CandidateSpec -> bool)
    requires forall s :: q(s) == !p(s)
    ensures KeyBag(Filter(specs, p)) + KeyBag(Filter(specs, q)) == KeyBag(specs)
  {
    if specs != [] {
      var init, last := specs[..|specs| - 1], specs[|specs| - 1];
      assert specs == init + [last];
      KeyBagSplits(init, p, q);
      KeyBagAppend(init, last);
      KeyBagAppend(Filter(init, p), last);
      KeyBagAppend(Filter(init, q), last);
    }
  }

  lemma {:induction false} KeyBagInsert(specs: seq<CandidateSpec>, s: CandidateSpec)
    ensures KeyBag(Insert(specs, s, SpecLeq)) == KeyBag(specs) + multiset{DedupKey(s)}
  {
    KeyBagAppend(specs, s);
    if specs == [] {
      assert specs + [s] == [s];
    } else {
      var init, last := specs[..|specs| - 1], specs[|specs| - 1];
      assert specs == init + [last];
      KeyBagInsert(init, s);
      KeyBagAppend(init, last);
      KeyBagAppend(Insert(init, s, SpecLeq), last);
    }
  }

  lemma {:induction false} KeyBagSort(specs: seq<CandidateSpec>)
    ensures KeyBag(StableSort(specs, SpecLeq)) == KeyBag(specs)
  {
    if specs != [] {
      var init, last := specs[..|specs| - 1], specs[|specs| - 1];
      assert specs == init + [last];
      KeyBagSort(init);
      KeyBagInsert(StableSort(init, SpecLeq), last);
      KeyBagAppend(init, last);
    }
  }

  /** The greedy pass emits or records every spec, once. */
  lemma {:induction false} PolicyConserves(cfg: PolicyConfig, prior: seq<Artifact>, now: int, specs: seq<CandidateSpec>)
    ensures KeyBag(Picked(cfg, prior, now, specs)) + RecordBag(Rejected(cfg, prior, now, specs)) == KeyBag(specs)
  {
    if specs != [] {
      var init, last := specs[..|specs| - 1], specs[|specs| - 1];
      assert specs == init + [last];
      PolicyConserves(cfg, prior, now, init);
      KeyBagAppend(init, last);
      var chosen := Picked(cfg, prior, now, init);
      KeyBagAppend(chosen, last);
      var verdict := Verdict(cfg, prior, now, chosen, last);
      if verdict.Some? {
        var one := [Suppress(last, verdict.value)];
        RecordBagConcat(Rejected(cfg, prior, now, init), one);
        assert Map(one, (r: Suppressed) => r.dedupKey) == [DedupKey(last)];
      } else {
        assert Rejected(cfg, prior, now, specs) == Rejected(cfg, prior, now, init);
      }
    }
  }

  function StageBag(s: Stage): multiset<string> {
    KeyBag(s.live) + RecordBag(s.suppressed)
  }

  lemma GateConserves(closed: bool, reason: Reason, s: Stage)
    ensures StageBag(Gate(closed, reason, s)) == StageBag(s)
  {
    RecordBagConcat(s.suppressed, Map(s.live, Record(reason)));
    RecordBagOf(s.live, Record(reason));
  }

  lemma StaleGateConserves(keys: set<string>, s: Stage)
    ensures StageBag(StaleGate(keys, s)) == StageBag(s)
  {
    var dropped := Filter(s.live, KeyIn(keys));
    RecordBagConcat(s.suppressed, Map(dropped, Record(ProposalStaleOpen)));
    RecordBagOf(dropped, Record(ProposalStaleOpen));
    KeyBagSplits(s.live, KeyNotIn(keys), KeyIn(keys));
  }

  lemma ChainGateConserves(prior: seq<Artifact>, cutoff: int, s: Stage)
    ensures StageBag(ChainGate(prior, cutoff, s)) == StageBag(s)
  {
    var inCycle, recent := Families(s.live), RecentFamilies(prior, cutoff);
    var dropped := Filter(s.live, Blocked(inCycle, recent));
    RecordBagConcat(s.suppressed, ChainSuppressed(s.live, prior, cutoff));
    RecordBagOf(dropped, ChainRecord(inCycle, recent));
    KeyBagSplits(s.live, Unblocked(inCycle, recent), Blocked(inCycle, recent));
  }

  lemma FamilyGateConserves(ctx: Context, specs: seq<CandidateSpec>)
    ensures StageBag(FamilyGate(ctx, specs)) == KeyBag(specs)
  {
    RecordBagOf(Filter(specs, Deferred(ctx.allowedFamilies)), Record(FamilyDeferredInitialGating));
    KeyBagSplits(specs, Allowed(ctx.allowedFamilies), Deferred(ctx.allowedFamilies));
  }

  lemma CapsConserve(ctx: Context, around: Surroundings, s: Stage)
    ensures StageBag(Caps(ctx, around, s)) == StageBag(s)
  {
    var low := around.remainingExecCapacity < around.minRemainingExec;
    GateConserves(low, ProposalBudgetTooLow, s);
    var fast := around.proposalsLast24h >= ctx.maxProposalsPer24h;
    GateConserves(fast, VelocityCapReached, Gate(low, ProposalBudgetTooLow, s));
  }

  lemma EarlyConserves(ctx: Context, around: Surroundings, specs: seq<CandidateSpec>)
    ensures StageBag(Early(ctx, around, specs)) == KeyBag(specs)
  {
    FamilyGateConserves(ctx, specs);
    CapsConserve(ctx, around, FamilyGate(ctx, specs));
  }

  lemma TimelyConserves(ctx: Context, around: Surroundings, specs: seq<CandidateSpec>)
    ensures StageBag(Timely(ctx, around, specs)) == KeyBag(specs)
  {
    EarlyConserves(ctx, around, specs);
    StaleGateConserves(around.staleKeys, Early(ctx, around, specs));
  }

  lemma FunnelConserves(ctx: Context, around: Surroundings, prior: seq<Artifact>, specs: seq<CandidateSpec>)
    ensures StageBag(Funnel(ctx, around, prior, specs)) == KeyBag(specs)
  {
    hide Timely, ChainGate, StageBag, KeyBag;
    TimelyConserves(ctx, around, specs);
    ChainGateConserves(prior, ctx.generatedAt - ctx.cooldown, Timely(ctx, around, specs));
  }

  /** Whatever mix of gates and quotas fires, every spec the rules produced ends in exactly
      one place: among the candidates or among the suppressed. */
  lemma DecideConserves(ctx: Context, around: Surroundings, prior: seq<Artifact>, specs: seq<CandidateSpec>,
                        repoPath: string, insightRunId: string)
    ensures var a := Decision(ctx, around, prior, specs, repoPath, insightRunId);
      CandidateBag(a.candidates) + RecordBag(a.suppressed) == KeyBag(specs)
  {
    var s := Funnel(ctx, around, prior, specs);
    var sorted := StableSort(s.live, SpecLeq);
    var picked := Picked(Config(ctx), prior, ctx.generatedAt, sorted);
    var rejected := Rejected(Config(ctx), prior, ctx.generatedAt, sorted);
    FunnelConserves(ctx, around, prior, specs);
    KeyBagSort(s.live);
    PolicyConserves(Config(ctx), prior, ctx.generatedAt, sorted);
    RecordBagConcat(s.suppressed, rejected);
    assert Map(Map(picked, Build), (c: Candidate) => c.dedupKey) == Map(picked, DedupKey);
  }
}
