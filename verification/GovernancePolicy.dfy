/**
 The eight governance checks and the decision made from them.

 Times are microseconds. The sentences the checks print are represented by the check
 that prints them.
 */
module GovernancePolicy {
  import opened Prelude
  import opened Lines

  datatype PolicyName =
    | ManualRequestRequired
    | KnownRepoRequired
    | KnownAuditTypeRequired
    | CooldownPolicy
    | BudgetPolicy
    | MiniRegressionFirst
    | UrgentOverride
    | RecentSuccess

  datatype Status = Passed | Failed | Warning | Skipped

  datatype PolicyResult = PolicyResult(name: PolicyName, status: Status)

  datatype Urgency = Low | Normal | High | Urgent

  datatype Request = Request(
    requestId: string,
    repoId: string,
    auditType: string,
    requestedBy: string,
    urgency: Urgency,
    suiteReport: Option<string>,
    allowIfRecentSuccess: bool)

  datatype BudgetState = BudgetState(periodStart: int, periodEnd: int, maxRuns: int, runsUsed: int) {
    predicate Exhausted() {
      runsUsed >= maxRuns
    }
  }

  datatype CooldownState = CooldownState(cooldown: int, lastRunAt: Option<int>) {
    predicate InCooldown(now: int) {
      lastRunAt.Some? && now - lastRunAt.value < cooldown
    }
  }

  datatype Config = Config(
    knownRepos: seq<string>,
    knownAuditTypes: map<string, seq<string>>,
    requireMiniFor: seq<Urgency>)

  datatype Kind = Approved | Denied | NeedsManualApproval | Deferred

  datatype Note = From(name: PolicyName) | ApprovalNeeded | ApprovalRejected | AllPassed

  datatype Decision = Decision(
    kind: Kind, reasons: seq<Note>, results: seq<PolicyResult>, requiresManualApproval: bool)

  predicate IsUrgent(u: Urgency) {
    u.High? || u.Urgent?
  }

  // ---- The checks ----

  function Pass(ok: bool): Status {
    if ok then Passed else Failed
  }

  function CheckManualRequest(r: Request): Status {
    Pass(Strip(r.requestedBy) != "")
  }

  function CheckKnownRepo(r: Request, cfg: Config): Status {
    if cfg.knownRepos == [] then Failed else Pass(r.repoId in cfg.knownRepos)
  }

  function CheckKnownAuditType(r: Request, cfg: Config): Status {
    if cfg.knownAuditTypes == map[] then Failed
    else if r.repoId !in cfg.knownAuditTypes then Warning
    else Pass(r.auditType in cfg.knownAuditTypes[r.repoId])
  }

  function CheckCooldown(c: Option<CooldownState>, now: int): Status {
    if c.None? then Skipped else Pass(!c.value.InCooldown(now))
  }

  function CheckBudget(b: Option<BudgetState>): Status {
    if b.None? then Skipped else Pass(!b.value.Exhausted())
  }

  predicate HasEvidence(r: Request) {
    r.suiteReport.Some? && r.suiteReport.value != ""
  }

  function CheckMiniRegression(r: Request, cfg: Config): Status {
    if HasEvidence(r) then Passed else if r.urgency in cfg.requireMiniFor then Failed else Warning
  }

  function CheckUrgentOverride(r: Request): Status {
    if IsUrgent(r.urgency) then Warning else Passed
  }

  /** Reads the clock once more than the cooldown check does. */
  function CheckRecentSuccess(r: Request, c: Option<CooldownState>, now: int): Status {
    if !r.allowIfRecentSuccess then Skipped
    else if c.Some? && c.value.InCooldown(now) then Warning
    else Passed
  }

  /** `evaluate_governance_policies`. */
  function Evaluate(r: Request, cfg: Config, b: Option<BudgetState>, c: Option<CooldownState>, now: int, later: int)
    : seq<PolicyResult>
  {
    [PolicyResult(ManualRequestRequired, CheckManualRequest(r)),
     PolicyResult(KnownRepoRequired, CheckKnownRepo(r, cfg)),
     PolicyResult(KnownAuditTypeRequired, CheckKnownAuditType(r, cfg)),
     PolicyResult(CooldownPolicy, CheckCooldown(c, now)),
     PolicyResult(BudgetPolicy, CheckBudget(b)),
     PolicyResult(MiniRegressionFirst, CheckMiniRegression(r, cfg)),
     PolicyResult(UrgentOverride, CheckUrgentOverride(r)),
     PolicyResult(RecentSuccess, CheckRecentSuccess(r, c, later))]
  }

  /** The eight results, in order, read off the request and the states. */
  lemma ChecksTable(r: Request, cfg: Config, b: Option<BudgetState>, c: Option<CooldownState>, now: int, later: int)
    ensures var coolingAt := (t: int) =>
        c.Some? && c.value.lastRunAt.Some? && t - c.value.lastRunAt.value < c.value.cooldown;
      var urgent := r.urgency == High || r.urgency == Urgent;
      Evaluate(r, cfg, b, c, now, later) == [
        PolicyResult(ManualRequestRequired, if Blank(r.requestedBy) then Failed else Passed),
        PolicyResult(KnownRepoRequired, if r.repoId in cfg.knownRepos then Passed else Failed),
        PolicyResult(KnownAuditTypeRequired,
          if r.repoId in cfg.knownAuditTypes then
            if r.auditType in cfg.knownAuditTypes[r.repoId] then Passed else Failed
          else if cfg.knownAuditTypes == map[] then Failed else Warning),
        PolicyResult(CooldownPolicy, if c == None then Skipped else if coolingAt(now) then Failed else Passed),
        PolicyResult(BudgetPolicy,
          if b == None then Skipped else if b.value.runsUsed >= b.value.maxRuns then Failed else Passed),
        PolicyResult(MiniRegressionFirst,
          if r.suiteReport != None && r.suiteReport != Some("") then Passed
          else if r.urgency in cfg.requireMiniFor then Failed else Warning),
        PolicyResult(UrgentOverride, if urgent then Warning else Passed),
        PolicyResult(RecentSuccess,
          if !r.allowIfRecentSuccess then Skipped else if coolingAt(later) then Warning else Passed)]
  {
    BlankExactly(r.requestedBy);
  }

  // ---- The decision ----

  predicate HardDeny(name: PolicyName) {
    name.KnownRepoRequired? || name.KnownAuditTypeRequired? || name.ManualRequestRequired?
  }

  predicate HardFailure(p: PolicyResult) {
    HardDeny(p.name) && p.status.Failed?
  }

  /** Some result is the last one of its name and has this status. */
  predicate Ends(results: seq<PolicyResult>, name: PolicyName, status: Status) {
    exists i :: 0 <= i < |results| && results[i] == PolicyResult(name, status)
      && forall j :: i < j < |results| ==> results[j].name != name
  }

  /** The reasons a filter on results leaves, in order. */
  function Notes(results: seq<PolicyResult>, keep: PolicyResult -> bool): seq<Note> {
    if results == [] then []
    else
      var last := results[|results| - 1];
      Notes(results[..|results| - 1], keep) + if keep(last) then [From(last.name)] else []
  }

  lemma NotesStep(results: seq<PolicyResult>, i: nat, keep: PolicyResult -> bool)
    requires i < |results|
    ensures Notes(results[..i + 1], keep)
         == Notes(results[..i], keep) + if keep(results[i]) then [From(results[i].name)] else []
  {
    assert results[..i + 1][..i] == results[..i];
  }

  lemma {:induction false} NotesEmpty(results: seq<PolicyResult>, keep: PolicyResult -> bool)
    ensures Notes(results, keep) == [] <==> forall p :: p in results ==> !keep(p)
  {
    if results != [] {
      assert results == results[..|results| - 1] + [results[|results| - 1]];
      NotesEmpty(results[..|results| - 1], keep);
    }
  }

  /** The results that speak against approval. */
  method CollectNotes(results: seq<PolicyResult>, keep: PolicyResult -> bool) returns (notes: seq<Note>)
    ensures notes == Notes(results, keep)
  {
    notes := [];
    for i := 0 to |results|
      invariant notes == Notes(results[..i], keep)
    {
      NotesStep(results, i, keep);
      if keep(results[i]) { notes := notes + [From(results[i].name)]; }
    }
    assert results[..|results|] == results;
  }

  predicate Against(p: PolicyResult) {
    p.status.Failed? || p.status.Warning?
  }

  predicate HasFailed(p: PolicyResult) {
    p.status.Failed?
  }

  predicate ManualNeeded(u: Urgency, results: seq<PolicyResult>) {
    || Ends(results, UrgentOverride, Warning)
    || Ends(results, MiniRegressionFirst, Failed)
    || (IsUrgent(u) && Over(results))
  }

  predicate Over(results: seq<PolicyResult>) {
    Ends(results, BudgetPolicy, Failed) || Ends(results, CooldownPolicy, Failed)
  }

  /** The dictionary of results by name: the last one of a name wins. */
  method ByName(results: seq<PolicyResult>) returns (m: map<PolicyName, PolicyResult>)
    ensures forall n, s :: (n in m && m[n].status == s) <==> Ends(results, n, s)
  {
    m := map[];
    for i := 0 to |results|
      invariant forall n :: n in m ==> m[n].name == n
      invariant forall n, s :: (n in m && m[n].status == s) <==> Ends(results[..i], n, s)
    {
      EndsStep(results[..i], results[i]);
      assert results[..i + 1] == results[..i] + [results[i]];
      m := m[results[i].name := results[i]];
    }
    assert results[..|results|] == results;
  }

  lemma EndsStep(results: seq<PolicyResult>, p: PolicyResult)
    ensures forall n, s :: Ends(results + [p], n, s) <==> (if n == p.name then s == p.status else Ends(results, n, s))
  {
    var more := results + [p];
    forall n, s
      ensures Ends(more, n, s) <==> (if n == p.name then s == p.status else Ends(results, n, s))
    {
      assert more[|results|] == p;
      if n != p.name && Ends(results, n, s) {
        var i :| 0 <= i < |results| && results[i] == PolicyResult(n, s)
          && forall j :: i < j < |results| ==> results[j].name != n;
        assert more[i] == PolicyResult(n, s);
      }
      if n != p.name && Ends(more, n, s) {
        var i :| 0 <= i < |more| && more[i] == PolicyResult(n, s)
          && forall j :: i < j < |more| ==> more[j].name != n;
        assert i < |results| && results[i] == PolicyResult(n, s);
        assert forall j :: i < j < |results| ==> results[j] == more[j];
      }
    }
  }

  /** `make_governance_decision`, on any list of results. */
  method MakeDecision(r: Request, results: seq<PolicyResult>) returns (d: Decision)
    ensures d.results == results
    ensures d.requiresManualApproval <==> d.kind.NeedsManualApproval?
    ensures d.kind.Denied? <==> exists p :: p in results && HardFailure(p)
    ensures d.kind.NeedsManualApproval? <==>
      (forall p :: p in results ==> !HardFailure(p)) && ManualNeeded(r.urgency, results)
    ensures d.kind.Deferred? <==>
      (forall p :: p in results ==> !HardFailure(p)) && !ManualNeeded(r.urgency, results) && Over(results)
    ensures d.kind.Denied? <==> exists p ::
      && p in results && p.status == Failed
      && (p.name == KnownRepoRequired || p.name == KnownAuditTypeRequired || p.name == ManualRequestRequired)
    ensures d.kind.NeedsManualApproval? ==>
      || Ends(results, UrgentOverride, Warning) || Ends(results, MiniRegressionFirst, Failed)
      || ((r.urgency == High || r.urgency == Urgent)
          && (Ends(results, BudgetPolicy, Failed) || Ends(results, CooldownPolicy, Failed)))
    ensures d.kind.Approved? ==>
      !Ends(results, UrgentOverride, Warning) && !Ends(results, MiniRegressionFirst, Failed)
      && !Ends(results, BudgetPolicy, Failed) && !Ends(results, CooldownPolicy, Failed)
    ensures d.kind.Deferred? ==>
      !Ends(results, UrgentOverride, Warning) && !Ends(results, MiniRegressionFirst, Failed)
      && r.urgency != High && r.urgency != Urgent
    ensures d.reasons != []
    ensures d.kind.Denied? ==> d.reasons == Notes(results, HardFailure)
    ensures d.kind.NeedsManualApproval? ==> d.reasons == Notes(results, Against)
    ensures d.kind.Deferred? ==> d.reasons == Notes(results, HasFailed)
    ensures d.kind.Approved? ==> d.reasons == [AllPassed]
  {
    HardFailureExactly();
    hide Ends, Notes, HardFailure;
    var byName := ByName(results);
    var hard := CollectNotes(results, HardFailure);
    NotesEmpty(results, HardFailure);
    if hard != [] { return Decision(Denied, hard, results, false); }
    var needsManual := (UrgentOverride in byName && byName[UrgentOverride].status.Warning?)
      || (MiniRegressionFirst in byName && byName[MiniRegressionFirst].status.Failed?);
    var budgetFailed := BudgetPolicy in byName && byName[BudgetPolicy].status.Failed?;
    var cooldownFailed := CooldownPolicy in byName && byName[CooldownPolicy].status.Failed?;
    NotesEmpty(results, Against);
    NotesEmpty(results, HasFailed);
    EndsMember(results);
    if needsManual || (IsUrgent(r.urgency) && (budgetFailed || cooldownFailed)) {
      var reasons := CollectNotes(results, Against);
      if reasons == [] { reasons := [ApprovalNeeded]; }
      return Decision(NeedsManualApproval, reasons, results, true);
    }
    if budgetFailed || cooldownFailed {
      var reasons := CollectNotes(results, HasFailed);
      return Decision(Deferred, reasons, results, false);
    }
    return Decision(Approved, [AllPassed], results, false);
  }

  lemma HardFailureExactly()
    ensures forall p :: HardFailure(p) <==>
      && p.status == Failed
      && (p.name == KnownRepoRequired || p.name == KnownAuditTypeRequired || p.name == ManualRequestRequired)
  {
  }

  lemma EndsMember(results: seq<PolicyResult>)
    ensures forall n, s :: Ends(results, n, s) ==> PolicyResult(n, s) in results
  {
  }
}
