/** What the decision engine emits and why it suppresses the rest, read off the inputs. */
module DecisionOutcomes {
  import opened Prelude
  import opened Sequences
  import opened DecisionModel
  import opened DecisionPolicy
  import opened DecisionService
  import DecisionOptimality

  // ---- One spec at the policy ----

  /** Which specs the policy could emit at all: confidence levels are ordered low, medium,
      high, and only the first artifact in the list that holds the key counts. */
  lemma EligibleExactly(cfg: PolicyConfig, prior: seq<Artifact>, now: int, s: CandidateSpec)
    ensures Eligible(cfg, prior, now, s) <==>
      && (cfg.minConfidence == "high" ==> s.confidence == "high")
      && (cfg.minConfidence == "medium" ==> s.confidence == "medium" || s.confidence == "high")
      && (s.estimatedAffectedFiles.Some? ==> s.estimatedAffectedFiles.value <= cfg.maxChangedFiles)
      && (forall k :: 0 <= k < |prior| && FirstWith(DedupKey(s), prior, k) ==>
            prior[k].generatedAt < now - cfg.cooldown)
  {
    CooldownExactly(cfg, DedupKey(s), prior, now);
  }

  /** The k-th artifact is the first one that holds a candidate of this key. */
  ghost predicate FirstWith(key: string, prior: seq<Artifact>, k: int)
    requires 0 <= k < |prior|
  {
    && (exists c :: c in prior[k].candidates && c.dedupKey == key)
    && (forall j, d :: 0 <= j < k && d in prior[j].candidates ==> d.dedupKey != key)
  }

  lemma {:induction false} CooldownExactly(cfg: PolicyConfig, key: string, prior: seq<Artifact>, now: int)
    ensures InCooldown(cfg, key, prior, now) <==>
      exists k :: 0 <= k < |prior| && FirstWith(key, prior, k) && prior[k].generatedAt >= now - cfg.cooldown
    decreases |prior|
  {
    if prior != [] {
      if exists c :: c in prior[0].candidates && c.dedupKey == key {
        assert FirstWith(key, prior, 0);
      } else {
        CooldownExactly(cfg, key, prior[1..], now);
        forall k | 0 <= k < |prior| - 1
          ensures FirstWith(key, prior[1..], k) <==> FirstWith(key, prior, k + 1)
        {
          assert prior[1..][k] == prior[k + 1];
          assert FirstWith(key, prior[1..], k) ==> FirstWith(key, prior, k + 1) by {
            forall j, d | 0 <= j < k + 1 && d in prior[j].candidates && FirstWith(key, prior[1..], k)
              ensures d.dedupKey != key
            {
              if j > 0 { assert prior[1..][j - 1] == prior[j]; }
            }
          }
          assert FirstWith(key, prior, k + 1) ==> FirstWith(key, prior[1..], k) by {
            forall j, d | 0 <= j < k && d in prior[1..][j].candidates && FirstWith(key, prior, k + 1)
              ensures d.dedupKey != key
            {
              assert prior[1..][j] == prior[j + 1];
            }
          }
        }
        if InCooldown(cfg, key, prior[1..], now) {
          var k :| 0 <= k < |prior| - 1 && FirstWith(key, prior[1..], k)
            && prior[1..][k].generatedAt >= now - cfg.cooldown;
          assert FirstWith(key, prior, k + 1);
        }
        if k :| 0 <= k < |prior| && FirstWith(key, prior, k) && prior[k].generatedAt >= now - cfg.cooldown {
          assert k > 0 && FirstWith(key, prior[1..], k - 1);
        }
      }
    }
  }

  /** Why the next spec is not emitted, or that it is: the first of six grounds that applies. */
  lemma VerdictTells(cfg: PolicyConfig, prior: seq<Artifact>, now: int, chosen: seq<CandidateSpec>, s: CandidateSpec)
    ensures var confident :=
        && (cfg.minConfidence == "high" ==> s.confidence == "high")
        && (cfg.minConfidence == "medium" ==> s.confidence == "medium" || s.confidence == "high");
      var broad := s.estimatedAffectedFiles.Some? && s.estimatedAffectedFiles.value > cfg.maxChangedFiles;
      var twice := exists g :: g in chosen && DedupKey(g) == DedupKey(s);
      var recent := exists k ::
        0 <= k < |prior| && FirstWith(DedupKey(s), prior, k) && prior[k].generatedAt >= now - cfg.cooldown;
      Verdict(cfg, prior, now, chosen, s) ==
        if !confident then Some(ConfidenceBelowThreshold)
        else if broad then Some(ScopeTooBroad)
        else if twice then Some(DuplicateInRun)
        else if recent then Some(CooldownActive)
        else if FamilyCount(chosen, s.family) >= cfg.maxCandidatesPerFamily then Some(FamilyQuotaExceeded)
        else if |chosen| >= cfg.maxCandidates then Some(QuotaExceeded)
        else None
  {
    CooldownExactly(cfg, DedupKey(s), prior, now);
  }

  /** This is the record of the i-th spec, under the verdict it got behind the specs before it. */
  predicate RejectedAt(cfg: PolicyConfig, prior: seq<Artifact>, now: int, specs: seq<CandidateSpec>,
                       r: Suppressed, i: nat)
    requires i < |specs|
  {
    && r.dedupKey == DedupKey(specs[i]) && r.family == specs[i].family && r.subject == specs[i].subject
    && Verdict(cfg, prior, now, Picked(cfg, prior, now, specs[..i]), specs[i]) == Some(r.reason)
  }

  /** The policy's records are exactly those of the specs that got a verdict. */
  lemma {:induction false} RejectedExactly(cfg: PolicyConfig, prior: seq<Artifact>, now: int,
                                           specs: seq<CandidateSpec>, r: Suppressed)
    ensures r in Rejected(cfg, prior, now, specs) <==>
      exists i :: 0 <= i < |specs| && RejectedAt(cfg, prior, now, specs, r, i)
  {
    if specs != [] {
      var init, last := specs[..|specs| - 1], specs[|specs| - 1];
      RejectedExactly(cfg, prior, now, init, r);
      LastRecord(cfg, prior, now, init, last, r);
      assert specs == init + [last] && specs[..|init|] == init;
      hide Rejected;
      forall i | 0 <= i < |init|
        ensures RejectedAt(cfg, prior, now, specs, r, i) <==> RejectedAt(cfg, prior, now, init, r, i)
      {
        assert init[..i] == specs[..i];
      }
      assert RejectedAt(cfg, prior, now, specs, r, |init|) <==> IsLast(cfg, prior, now, init, last, r);
      hide RejectedAt, IsLast;
    }
  }

  predicate IsLast(cfg: PolicyConfig, prior: seq<Artifact>, now: int, init: seq<CandidateSpec>,
                   last: CandidateSpec, r: Suppressed)
  {
    && r.dedupKey == DedupKey(last) && r.family == last.family && r.subject == last.subject
    && Verdict(cfg, prior, now, Picked(cfg, prior, now, init), last) == Some(r.reason)
  }

  lemma LastRecord(cfg: PolicyConfig, prior: seq<Artifact>, now: int, init: seq<CandidateSpec>,
                   last: CandidateSpec, r: Suppressed)
    ensures r in Rejected(cfg, prior, now, init + [last]) <==>
      r in Rejected(cfg, prior, now, init) || IsLast(cfg, prior, now, init, last, r)
  {
    OneMore(cfg, prior, now, init, last);
    hide Rejected, Picked, Verdict, DedupKey;
  }

  // ---- The chain policy ----

  ghost predicate Proposed(specs: seq<CandidateSpec>, family: string) {
    exists s :: s in specs && s.family == family
  }

  ghost predicate EmittedSince(prior: seq<Artifact>, cutoff: int, family: string) {
    exists a, c ::
      a in prior && a.generatedAt >= cutoff && c in a.candidates && c.status == "emit" && c.family == family
  }

  /** Type fixes wait for lint fixes, and health follow-ups for test visibility; no other
      family waits for any. */
  lemma ChainExactly(specs: seq<CandidateSpec>, prior: seq<Artifact>, cutoff: int, s: CandidateSpec)
    ensures s in ChainLive(specs, prior, cutoff) <==>
      && s in specs
      && (s.family == "type_fix" ==> !Proposed(specs, "lint_fix") && !EmittedSince(prior, cutoff, "lint_fix"))
      && (s.family == "execution_health_followup" ==>
            !Proposed(specs, "test_visibility") && !EmittedSince(prior, cutoff, "test_visibility"))
  {
    FilterMember(specs, Unblocked(Families(specs), RecentFamilies(prior, cutoff)));
    ActiveExactly(specs, prior, cutoff, "lint_fix");
    ActiveExactly(specs, prior, cutoff, "test_visibility");
    BlockerExactly(s.family, Families(specs), RecentFamilies(prior, cutoff));
    hide Families, RecentFamilies, Proposed, EmittedSince, Blocker;
  }

  lemma ActiveExactly(specs: seq<CandidateSpec>, prior: seq<Artifact>, cutoff: int, family: string)
    ensures family in Families(specs) <==> Proposed(specs, family)
    ensures family in RecentFamilies(prior, cutoff) <==> EmittedSince(prior, cutoff, family)
  {
  }

  lemma BlockerExactly(family: string, inCycle: set<string>, recent: set<string>)
    ensures Blocker(Prerequisites(family), inCycle, recent) ==
      if family == "type_fix" && "lint_fix" in inCycle then Some(UpstreamFamilyInCycle("lint_fix"))
      else if family == "type_fix" && "lint_fix" in recent then Some(UpstreamFamilyRecentlyEmitted("lint_fix"))
      else if family == "execution_health_followup" && "test_visibility" in inCycle then
        Some(UpstreamFamilyInCycle("test_visibility"))
      else if family == "execution_health_followup" && "test_visibility" in recent then
        Some(UpstreamFamilyRecentlyEmitted("test_visibility"))
      else None
  {
    var upstream := if family == "type_fix" then "lint_fix" else "test_visibility";
    assert [upstream][1..] == [];
    assert Blocker([upstream][1..], inCycle, recent) == None;
  }

  /** What the chain policy records, and under which upstream family. */
  lemma ChainRecordsExactly(specs: seq<CandidateSpec>, prior: seq<Artifact>, cutoff: int, r: Suppressed)
    ensures r in ChainSuppressed(specs, prior, cutoff) <==> exists s ::
      && s in specs && r.dedupKey == DedupKey(s) && r.family == s.family && r.subject == s.subject
      && (|| (s.family == "type_fix" && Waits(specs, prior, cutoff, "lint_fix", r.reason))
          || (s.family == "execution_health_followup" && Waits(specs, prior, cutoff, "test_visibility", r.reason)))
  {
    var inCycle, recent := Families(specs), RecentFamilies(prior, cutoff);
    var blocked := Filter(specs, Blocked(inCycle, recent));
    FilterMember(specs, Blocked(inCycle, recent));
    ActiveExactly(specs, prior, cutoff, "lint_fix");
    ActiveExactly(specs, prior, cutoff, "test_visibility");
    hide Families, RecentFamilies, Proposed, EmittedSince, Blocker, Filter, Prerequisites;
    forall s: CandidateSpec
      ensures Blocker(Prerequisites(s.family), inCycle, recent).Some? && r == ChainRecord(inCycle, recent)(s) <==>
        && r.dedupKey == DedupKey(s) && r.family == s.family && r.subject == s.subject
        && (|| (s.family == "type_fix" && Waits(specs, prior, cutoff, "lint_fix", r.reason))
            || (s.family == "execution_health_followup" && Waits(specs, prior, cutoff, "test_visibility", r.reason)))
    {
      BlockerExactly(s.family, inCycle, recent);
    }
    MapMember(blocked, ChainRecord(inCycle, recent), r);
  }

  /** A family behind this upstream one is held back, for this reason. */
  ghost predicate Waits(specs: seq<CandidateSpec>, prior: seq<Artifact>, cutoff: int,
                        upstream: string, reason: Reason)
  {
    if Proposed(specs, upstream) then reason == UpstreamFamilyInCycle(upstream)
    else EmittedSince(prior, cutoff, upstream) && reason == UpstreamFamilyRecentlyEmitted(upstream)
  }

  lemma MapMember<T, U>(s: seq<T>, f: T -> U, y: U)
    ensures y in Map(s, f) <==> exists x :: x in s && f(x) == y
  {
    if x :| x in s && f(x) == y {
      var i :| 0 <= i < |s| && s[i] == x;
      assert Map(s, f)[i] == y;
    }
  }

  // ---- A whole run ----

  /** Nothing is emitted unless the caps leave room. What is, stems from a spec of an enabled
      family that is not stale, in scope and out of its cooldown, and no two are of a family. */
  lemma CandidatesTell(ctx: Context, around: Surroundings, prior: seq<Artifact>, specs: seq<CandidateSpec>,
                       repoPath: string, insightRunId: string, i: nat) returns (s: CandidateSpec)
    requires i < |Decision(ctx, around, prior, specs, repoPath, insightRunId).candidates|
    ensures var a := Decision(ctx, around, prior, specs, repoPath, insightRunId);
      && a.candidates[i] == Candidate(DedupKey(s), s.family, s.subject, "emit", s.confidence, s.expiresAfterRuns)
      && |a.candidates| <= ctx.maxCandidates
      && forall j :: 0 <= j < |a.candidates| && j != i ==> a.candidates[j].family != s.family
    ensures s in specs && s.family in ctx.allowedFamilies && DedupKey(s) !in around.staleKeys
    ensures around.remainingExecCapacity >= around.minRemainingExec
    ensures around.proposalsLast24h < ctx.maxProposalsPer24h
    ensures s.estimatedAffectedFiles.Some? ==> s.estimatedAffectedFiles.value <= ctx.maxChangedFiles
    ensures forall k :: 0 <= k < |prior| && FirstWith(DedupKey(s), prior, k) ==>
      prior[k].generatedAt < ctx.generatedAt - ctx.cooldown
  {
    var live := Funnel(ctx, around, prior, specs).live;
    var sorted := StableSort(live, SpecLeq);
    var picked := Picked(Config(ctx), prior, ctx.generatedAt, sorted);
    s := picked[i];
    DecisionOptimality.PickedMembers(Config(ctx), prior, ctx.generatedAt, sorted);
    DecisionOptimality.SpecLeqOrders();
    StableSortSorts(live, SpecLeq);
    SameBag(sorted, live);
    EligibleExactly(Config(ctx), prior, ctx.generatedAt, s);
    FunnelLive(ctx, around, prior, specs, s);
    OnePerFamily(picked, i);
  }

  /** What is alive behind all gates. */
  lemma FunnelLive(ctx: Context, around: Surroundings, prior: seq<Artifact>,
                   specs: seq<CandidateSpec>, s: CandidateSpec)
    requires s in Funnel(ctx, around, prior, specs).live
    ensures s in specs && s.family in ctx.allowedFamilies && DedupKey(s) !in around.staleKeys
    ensures around.remainingExecCapacity >= around.minRemainingExec
    ensures around.proposalsLast24h < ctx.maxProposalsPer24h
  {
    hide Filter;
    ChainExactly(Timely(ctx, around, specs).live, prior, ctx.generatedAt - ctx.cooldown, s);
    hide ChainLive, ChainSuppressed;
    FilterMember(Early(ctx, around, specs).live, KeyNotIn(around.staleKeys));
    FilterMember(specs, Allowed(ctx.allowedFamilies));
  }

  lemma OnePerFamily(t: seq<CandidateSpec>, i: nat)
    requires i < |t| && forall f :: FamilyCount(t, f) <= 1
    ensures forall j :: 0 <= j < |t| && j != i ==> t[j].family != t[i].family
  {
    forall j | 0 <= j < |t| && j != i
      ensures t[j].family != t[i].family
    {
      if t[j].family == t[i].family { TwoOfFamily(t, if i < j then i else j, if i < j then j else i); }
    }
  }

  lemma {:induction false} TwoOfFamily(t: seq<CandidateSpec>, i: nat, j: nat)
    requires i < j < |t| && t[i].family == t[j].family
    ensures FamilyCount(t, t[i].family) >= 2
    decreases |t|
  {
    var init, last := t[..|t| - 1], t[|t| - 1];
    var f := (s: CandidateSpec) => s.family == t[i].family;
    assert t == init + [last];
    FilterAppend(init, last, f);
    if j < |init| {
      TwoOfFamily(init, i, j);
    } else {
      FilterMember(init, f);
      assert init[i] in Filter(init, f);
    }
  }

  /** This record is about this spec. */
  predicate StandsFor(r: Suppressed, s: CandidateSpec) {
    r.dedupKey == DedupKey(s) && r.family == s.family && r.subject == s.subject
  }

  predicate GateReason(reason: Reason) {
    || reason.FamilyDeferredInitialGating? || reason.ProposalBudgetTooLow?
    || reason.VelocityCapReached? || reason.ProposalStaleOpen?
  }

  /** The gates in front of the chain policy and the policy record exactly the specs they
      stop, each under the first gate that stops it. */
  lemma GateRecordsExactly(ctx: Context, around: Surroundings, prior: seq<Artifact>, specs: seq<CandidateSpec>,
                           repoPath: string, insightRunId: string, r: Suppressed)
    requires GateReason(r.reason)
    ensures var low := around.remainingExecCapacity < around.minRemainingExec;
      var fast := around.proposalsLast24h >= ctx.maxProposalsPer24h;
      r in Decision(ctx, around, prior, specs, repoPath, insightRunId).suppressed <==>
        exists s :: s in specs && StandsFor(r, s) &&
          match r.reason
          case FamilyDeferredInitialGating => s.family !in ctx.allowedFamilies
          case ProposalBudgetTooLow => s.family in ctx.allowedFamilies && low
          case VelocityCapReached => s.family in ctx.allowedFamilies && !low && fast
          case ProposalStaleOpen =>
            s.family in ctx.allowedFamilies && !low && !fast && DedupKey(s) in around.staleKeys
          case _ => false
  {
    LaterRecords(ctx, around, prior, specs, repoPath, insightRunId, r);
    hide Decision, Timely, GateReason;
    TimelyRecords(ctx, around, specs, r);
  }

  /** The records of the gates: those of disabled families, then of the two caps, then of the
      stale ones among what is left. */
  lemma TimelyRecords(ctx: Context, around: Surroundings, specs: seq<CandidateSpec>, r: Suppressed)
    requires GateReason(r.reason)
    ensures var low := around.remainingExecCapacity < around.minRemainingExec;
      var fast := around.proposalsLast24h >= ctx.maxProposalsPer24h;
      r in Timely(ctx, around, specs).suppressed <==>
        exists s :: s in specs && StandsFor(r, s) &&
          match r.reason
          case FamilyDeferredInitialGating => s.family !in ctx.allowedFamilies
          case ProposalBudgetTooLow => s.family in ctx.allowedFamilies && low
          case VelocityCapReached => s.family in ctx.allowedFamilies && !low && fast
          case ProposalStaleOpen =>
            s.family in ctx.allowedFamilies && !low && !fast && DedupKey(s) in around.staleKeys
          case _ => false
  {
    var allowed := Filter(specs, Allowed(ctx.allowedFamilies));
    var deferred := Filter(specs, Deferred(ctx.allowedFamilies));
    var early := Early(ctx, around, specs).live;
    FilterMember(specs, Allowed(ctx.allowedFamilies));
    FilterMember(specs, Deferred(ctx.allowedFamilies));
    FilterMember(early, KeyIn(around.staleKeys));
    hide Filter;
    RecordMember(deferred, FamilyDeferredInitialGating, r);
    RecordMember(allowed, ProposalBudgetTooLow, r);
    RecordMember(allowed, VelocityCapReached, r);
    RecordMember([], VelocityCapReached, r);
    RecordMember(Filter(early, KeyIn(around.staleKeys)), ProposalStaleOpen, r);
    hide Record, StandsFor;
  }

  lemma RecordMember(specs: seq<CandidateSpec>, reason: Reason, r: Suppressed)
    ensures r in Map(specs, Record(reason)) <==> r.reason == reason && exists s :: s in specs && StandsFor(r, s)
  {
    MapMember(specs, Record(reason), r);
    assert forall s: CandidateSpec :: Record(reason)(s) == r <==> r.reason == reason && StandsFor(r, s);
  }

  lemma NotByChain(specs: seq<CandidateSpec>, prior: seq<Artifact>, cutoff: int, r: Suppressed)
    requires GateReason(r.reason)
    ensures r !in ChainSuppressed(specs, prior, cutoff)
  {
    ChainRecordsExactly(specs, prior, cutoff, r);
    hide ChainSuppressed;
  }

  lemma NotByPolicy(cfg: PolicyConfig, prior: seq<Artifact>, now: int, specs: seq<CandidateSpec>, r: Suppressed)
    requires GateReason(r.reason)
    ensures r !in Rejected(cfg, prior, now, specs)
  {
    RejectedExactly(cfg, prior, now, specs, r);
    hide Rejected, Picked, Confident, InScope, InCooldown, Keys, FamilyCount;
  }

  /** The records of a run are those of its stages, one after another. */
  lemma RecordsByStage(ctx: Context, around: Surroundings, prior: seq<Artifact>, specs: seq<CandidateSpec>,
                       repoPath: string, insightRunId: string)
    ensures var stage, cutoff := Timely(ctx, around, specs), ctx.generatedAt - ctx.cooldown;
      var sorted := StableSort(ChainLive(stage.live, prior, cutoff), SpecLeq);
      Decision(ctx, around, prior, specs, repoPath, insightRunId).suppressed ==
        stage.suppressed + ChainSuppressed(stage.live, prior, cutoff)
        + Rejected(Config(ctx), prior, ctx.generatedAt, sorted)
  {
    hide ChainLive, ChainSuppressed, Timely, Rejected, Picked, StableSort;
  }

  /** The later stages record nothing under a gate's reason. */
  lemma LaterRecords(ctx: Context, around: Surroundings, prior: seq<Artifact>, specs: seq<CandidateSpec>,
                     repoPath: string, insightRunId: string, r: Suppressed)
    requires GateReason(r.reason)
    ensures r in Decision(ctx, around, prior, specs, repoPath, insightRunId).suppressed <==>
      r in Timely(ctx, around, specs).suppressed
  {
    hide *;
    var stage := Timely(ctx, around, specs);
    var cutoff := ctx.generatedAt - ctx.cooldown;
    RecordsByStage(ctx, around, prior, specs, repoPath, insightRunId);
    NotByChain(stage.live, prior, cutoff, r);
    NotByPolicy(Config(ctx), prior, ctx.generatedAt, StableSort(ChainLive(stage.live, prior, cutoff), SpecLeq), r);
  }
}
