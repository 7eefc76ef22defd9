/** The greedy selection loop of the decision policy. */
module DecisionPolicy {
  import opened Prelude
  import opened Sequences
  import opened DecisionModel

  datatype PolicyConfig = PolicyConfig(
    maxCandidates: int,
    maxCandidatesPerFamily: int,
    cooldown: int,
    minConfidence: string,
    maxChangedFiles: int)

  function ConfidenceRank(confidence: string): int {
    if confidence == "medium" then 1 else if confidence == "high" then 2 else 0
  }

  /** The time of the first artifact in the list with a candidate of this key. */
  function LastEmittedAt(key: string, prior: seq<Artifact>): Option<int> {
    if prior == [] then None
    else if exists c :: c in prior[0].candidates && c.dedupKey == key then Some(prior[0].generatedAt)
    else LastEmittedAt(key, prior[1..])
  }

  predicate InCooldown(cfg: PolicyConfig, key: string, prior: seq<Artifact>, now: int) {
    var last := LastEmittedAt(key, prior);
    last.Some? && last.value >= now - cfg.cooldown
  }

  /** The checks that do not depend on what else is selected. */
  predicate Confident(cfg: PolicyConfig, spec: CandidateSpec) {
    ConfidenceRank(spec.confidence) >= ConfidenceRank(cfg.minConfidence)
  }

  predicate InScope(cfg: PolicyConfig, spec: CandidateSpec) {
    spec.estimatedAffectedFiles.None? || spec.estimatedAffectedFiles.value <= cfg.maxChangedFiles
  }

  predicate Eligible(cfg: PolicyConfig, prior: seq<Artifact>, now: int, spec: CandidateSpec) {
    Confident(cfg, spec) && InScope(cfg, spec) && !InCooldown(cfg, DedupKey(spec), prior, now)
  }

  function Keys(specs: seq<CandidateSpec>): set<string> {
    set s | s in specs :: DedupKey(s)
  }

  function FamilyCount(specs: seq<CandidateSpec>, family: string): nat {
    |Filter(specs, (s: CandidateSpec) => s.family == family)|
  }

  /** What happens to the next spec when `chosen` is already selected: a reason, or emission. */
  function Verdict(cfg: PolicyConfig, prior: seq<Artifact>, now: int,
                   chosen: seq<CandidateSpec>, spec: CandidateSpec): Option<Reason>
  {
    if !Confident(cfg, spec) then Some(ConfidenceBelowThreshold)
    else if !InScope(cfg, spec) then Some(ScopeTooBroad)
    else if DedupKey(spec) in Keys(chosen) then Some(DuplicateInRun)
    else if InCooldown(cfg, DedupKey(spec), prior, now) then Some(CooldownActive)
    else if FamilyCount(chosen, spec.family) >= cfg.maxCandidatesPerFamily then Some(FamilyQuotaExceeded)
    else if |chosen| >= cfg.maxCandidates then Some(QuotaExceeded)
    else None
  }

  /** The specs selected from a list already in priority order. */
  function Picked(cfg: PolicyConfig, prior: seq<Artifact>, now: int, specs: seq<CandidateSpec>): seq<CandidateSpec> {
    if specs == [] then []
    else
      var chosen := Picked(cfg, prior, now, specs[..|specs| - 1]);
      var last := specs[|specs| - 1];
      if Verdict(cfg, prior, now, chosen, last).None? then chosen + [last] else chosen
  }

  /** The suppression records of the same pass. */
  function Rejected(cfg: PolicyConfig, prior: seq<Artifact>, now: int, specs: seq<CandidateSpec>): seq<Suppressed> {
    if specs == [] then []
    else
      var init, last := specs[..|specs| - 1], specs[|specs| - 1];
      var verdict := Verdict(cfg, prior, now, Picked(cfg, prior, now, init), last);
      Rejected(cfg, prior, now, init) + (if verdict.None? then [] else [Suppress(last, verdict.value)])
  }

  /** Newest-first scan of the earlier artifacts for a candidate of this key. */
  method FindLastEmittedAt(key: string, prior: seq<Artifact>) returns (r: Option<int>)
    ensures r == LastEmittedAt(key, prior)
    ensures r.None? <==> forall a, c :: a in prior && c in a.candidates ==> c.dedupKey != key
    ensures r.Some? ==> exists i, c ::
      && 0 <= i < |prior| && c in prior[i].candidates && c.dedupKey == key && prior[i].generatedAt == r.value
      && forall j, d :: 0 <= j < i && d in prior[j].candidates ==> d.dedupKey != key
  {
    for i := 0 to |prior|
      invariant LastEmittedAt(key, prior) == LastEmittedAt(key, prior[i..])
      invariant forall j, d :: 0 <= j < i && d in prior[j].candidates ==> d.dedupKey != key
    {
      var artifact := prior[i];
      assert prior[i..][1..] == prior[i + 1..];
      for j := 0 to |artifact.candidates|
        invariant forall c :: c in artifact.candidates[..j] ==> c.dedupKey != key
      {
        if artifact.candidates[j].dedupKey == key { return Some(artifact.generatedAt); }
      }
      assert artifact.candidates[..|artifact.candidates|] == artifact.candidates;
    }
    return None;
  }

  /** One more spec in the list: its verdict decides where it goes. */
  lemma OneMore(cfg: PolicyConfig, prior: seq<Artifact>, now: int, specs: seq<CandidateSpec>, spec: CandidateSpec)
    ensures var chosen := Picked(cfg, prior, now, specs);
      var verdict := Verdict(cfg, prior, now, chosen, spec);
      && Picked(cfg, prior, now, specs + [spec]) == (if verdict.None? then chosen + [spec] else chosen)
      && Rejected(cfg, prior, now, specs + [spec])
         == Rejected(cfg, prior, now, specs) + (if verdict.None? then [] else [Suppress(spec, verdict.value)])
  {
    assert (specs + [spec])[..|specs|] == specs;
  }

  /** The loop's running tallies describe the selection so far. */
  ghost predicate Tallies(chosen: seq<CandidateSpec>, emittedKeys: set<string>, perFamily: map<string, int>) {
    && emittedKeys == Keys(chosen)
    && forall f :: (if f in perFamily then perFamily[f] else 0) == FamilyCount(chosen, f)
  }

  /** The six tests of the loop body, in order, on the running tallies. */
  method Judge(cfg: PolicyConfig, prior: seq<Artifact>, now: int, spec: CandidateSpec,
               emittedKeys: set<string>, perFamily: map<string, int>, emittedCount: nat,
               ghost chosen: seq<CandidateSpec>)
    returns (verdict: Option<Reason>)
    requires Tallies(chosen, emittedKeys, perFamily) && emittedCount == |chosen|
    ensures verdict == Verdict(cfg, prior, now, chosen, spec)
  {
    var candidate := Build(spec);
    if ConfidenceRank(candidate.confidence) < ConfidenceRank(cfg.minConfidence) {
      return Some(ConfidenceBelowThreshold);
    }
    if spec.estimatedAffectedFiles.Some? && spec.estimatedAffectedFiles.value > cfg.maxChangedFiles {
      return Some(ScopeTooBroad);
    }
    if candidate.dedupKey in emittedKeys { return Some(DuplicateInRun); }
    var last := FindLastEmittedAt(candidate.dedupKey, prior);
    if last.Some? && last.value >= now - cfg.cooldown { return Some(CooldownActive); }
    var used := if candidate.family in perFamily then perFamily[candidate.family] else 0;
    if used >= cfg.maxCandidatesPerFamily { return Some(FamilyQuotaExceeded); }
    if emittedCount >= cfg.maxCandidates { return Some(QuotaExceeded); }
    return None;
  }

  /** One more selected spec adds its key and raises its own family's count by one. */
  lemma ChooseOneMore(chosen: seq<CandidateSpec>, spec: CandidateSpec)
    ensures Keys(chosen + [spec]) == Keys(chosen) + {DedupKey(spec)}
    ensures forall f :: FamilyCount(chosen + [spec], f) == FamilyCount(chosen, f) + (if f == spec.family then 1 else 0)
  {
    assert Keys(chosen + [spec]) == Keys(chosen) + {DedupKey(spec)} by {
      assert spec in chosen + [spec];
      forall k | k in Keys(chosen)
        ensures k in Keys(chosen + [spec])
      {
        var s :| s in chosen && DedupKey(s) == k;
        assert s in chosen + [spec];
      }
    }
    forall f
      ensures FamilyCount(chosen + [spec], f) == FamilyCount(chosen, f) + (if f == spec.family then 1 else 0)
    {
      FilterAppend(chosen, spec, (s: CandidateSpec) => s.family == f);
    }
  }

  lemma TallyOneMore(chosen: seq<CandidateSpec>, spec: CandidateSpec,
                     emittedKeys: set<string>, perFamily: map<string, int>, used: int)
    requires Tallies(chosen, emittedKeys, perFamily)
    requires used == if spec.family in perFamily then perFamily[spec.family] else 0
    ensures Tallies(chosen + [spec], emittedKeys + {DedupKey(spec)}, perFamily[spec.family := used + 1])
  {
    ChooseOneMore(chosen, spec);
  }

  /** `DecisionPolicy.apply`: one pass in priority order with three nested quotas. */
  method Apply(cfg: PolicyConfig, specs: seq<CandidateSpec>, prior: seq<Artifact>, now: int)
    returns (emitted: seq<Candidate>, suppressed: seq<Suppressed>)
    ensures emitted == Map(Picked(cfg, prior, now, StableSort(specs, SpecLeq)), Build)
    ensures suppressed == Rejected(cfg, prior, now, StableSort(specs, SpecLeq))
  {
    emitted, suppressed := [], [];
    var emittedKeys: set<string> := {};
    var perFamily: map<string, int> := map[];
    var sorted := StableSort(specs, SpecLeq);
    ghost var chosen: seq<CandidateSpec> := [];
    for i := 0 to |sorted|
      invariant chosen == Picked(cfg, prior, now, sorted[..i])
      invariant emitted == Map(chosen, Build)
      invariant suppressed == Rejected(cfg, prior, now, sorted[..i])
      invariant Tallies(chosen, emittedKeys, perFamily)
    {
      var spec := sorted[i];
      assert sorted[..i + 1] == sorted[..i] + [spec];
      OneMore(cfg, prior, now, sorted[..i], spec);
      var verdict := Judge(cfg, prior, now, spec, emittedKeys, perFamily, |emitted|, chosen);
      if verdict.Some? {
        suppressed := suppressed + [Suppress(spec, verdict.value)];
        continue;
      }
      var used := if spec.family in perFamily then perFamily[spec.family] else 0;
      TallyOneMore(chosen, spec, emittedKeys, perFamily, used);
      emitted := emitted + [Build(spec)];
      emittedKeys := emittedKeys + {DedupKey(spec)};
      perFamily := perFamily[spec.family := used + 1];
      MapAppend(chosen, spec, Build);
      chosen := chosen + [spec];
    }
    assert sorted[..|sorted|] == sorted;
  }
}
