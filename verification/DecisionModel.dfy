/** Specs, candidates and artifacts of the decision engine. */
module DecisionModel {
  import opened Prelude
  import opened Text

  /** Priorities compare field by field, the tag as text. */
  datatype Priority = Priority(major: int, minor: int, tag: string)

  datatype CandidateSpec = CandidateSpec(
    family: string,
    subject: string,
    patternKey: string,
    priority: Priority,
    confidence: string,
    estimatedAffectedFiles: Option<int>,
    expiresAfterRuns: int)

  datatype Candidate = Candidate(
    dedupKey: string,
    family: string,
    subject: string,
    status: string,
    confidence: string,
    expiresAfterRuns: int)

  /** Why a spec was not emitted. */
  datatype Reason =
    | FamilyDeferredInitialGating
    | ProposalBudgetTooLow
    | VelocityCapReached
    | ProposalStaleOpen
    | UpstreamFamilyInCycle(upstream: string)
    | UpstreamFamilyRecentlyEmitted(upstream: string)
    | ConfidenceBelowThreshold
    | ScopeTooBroad
    | DuplicateInRun
    | CooldownActive
    | FamilyQuotaExceeded
    | QuotaExceeded

  datatype Suppressed = Suppressed(dedupKey: string, family: string, subject: string, reason: Reason)

  datatype Artifact = Artifact(
    generatedAt: int,
    repoPath: string,
    sourceInsightRunId: string,
    candidates: seq<Candidate>,
    suppressed: seq<Suppressed>)

  /** The identity of a proposal across runs. */
  function DedupKey(spec: CandidateSpec): string {
    "candidate|" + (spec.family + ("|" + (spec.subject + ("|" + spec.patternKey))))
  }

  /** `CandidateBuilder.build`. */
  function Build(spec: CandidateSpec): Candidate {
    Candidate(DedupKey(spec), spec.family, spec.subject, "emit", spec.confidence, spec.expiresAfterRuns)
  }

  function Suppress(spec: CandidateSpec, reason: Reason): Suppressed {
    Suppressed(DedupKey(spec), spec.family, spec.subject, reason)
  }

  /** Tuple order on priorities. */
  predicate PriorityLeq(p: Priority, q: Priority) {
    || p.major < q.major
    || (p.major == q.major && p.minor < q.minor)
    || (p.major == q.major && p.minor == q.minor && TextLeq(p.tag, q.tag))
  }

  predicate SpecLeq(a: CandidateSpec, b: CandidateSpec) {
    PriorityLeq(a.priority, b.priority)
  }

  /** The family part of a dedup key. */
  function FamilyOf(key: string): string {
    if |key| < 10 then "" else UpToBar(key[10..])
  }

  function UpToBar(s: string): string {
    if s == "" || s[0] == '|' then "" else [s[0]] + UpToBar(s[1..])
  }

  lemma {:induction false} UpToBarOf(f: string, rest: string)
    requires '|' !in f
    ensures UpToBar(f + ("|" + rest)) == f
  {
    if f == "" {
      assert f + ("|" + rest) == "|" + rest;
    } else {
      assert (f + ("|" + rest))[1..] == f[1..] + ("|" + rest);
      UpToBarOf(f[1..], rest);
    }
  }

  /** The dedup key contains the family, so equal keys have equal families. */
  lemma FamilyOfKey(spec: CandidateSpec)
    requires '|' !in spec.family
    ensures FamilyOf(DedupKey(spec)) == spec.family
  {
    var rest := spec.subject + ("|" + spec.patternKey);
    assert DedupKey(spec)[10..] == spec.family + ("|" + rest);
    UpToBarOf(spec.family, rest);
  }

  lemma {:induction false} BarSplits(a: string, x: string, b: string, y: string)
    requires '|' !in a && '|' !in b && a + ("|" + x) == b + ("|" + y)
    ensures a == b && x == y
  {
    var s := a + ("|" + x);
    UpToBarOf(a, x);
    UpToBarOf(b, y);
    assert s[|a| + 1..] == x && s[|b| + 1..] == y;
  }

  /** A dedup key is text of the candidate kind, and it identifies a proposal: with no bar in
      family and subject, two specs share one exactly when all three parts agree. */
  lemma DedupKeyIdentifies(a: CandidateSpec, b: CandidateSpec)
    requires '|' !in a.family && '|' !in a.subject && '|' !in b.family && '|' !in b.subject
    ensures DedupKey(a) == DedupKey(b) <==>
      a.family == b.family && a.subject == b.subject && a.patternKey == b.patternKey
    ensures "candidate|" <= DedupKey(a)
  {
    if DedupKey(a) == DedupKey(b) {
      var x, y := a.subject + ("|" + a.patternKey), b.subject + ("|" + b.patternKey);
      assert DedupKey(a)[10..] == a.family + ("|" + x) && DedupKey(b)[10..] == b.family + ("|" + y);
      BarSplits(a.family, x, b.family, y);
      BarSplits(a.subject, a.patternKey, b.subject, b.patternKey);
    }
  }
}
