/** Governed audit runs one after another: the state files, the run, and its history. */
module GovernedRuns {
  import opened Prelude
  import opened Lines
  import opened GovernancePolicy

  datatype BudgetConfig = BudgetConfig(maxRuns: int, period: int)

  datatype Approval = Approval(requestId: string, approvedBy: string)

  /** The clock as one run reads it, in this order. */
  datatype Readings = Readings(load: int, eval: int, recent: int, ran: int, reload: int)

  /** One call of `run_governed_audit`; `raises` says whether the dispatch raises. */
  datatype Attempt = Attempt(
    request: Request,
    approval: Option<Approval>,
    config: Config,
    budget: BudgetConfig,
    cooldown: int,
    clock: Readings,
    raises: bool)

  datatype Files = Files(budgets: map<string, BudgetState>, cooldowns: map<string, CooldownState>)

  datatype GovernanceStatus = ApprovedAndDispatched | StatusDenied | StatusDeferred | AwaitingApproval | DispatchFailed

  /** The stem of both state files; the repo and the audit type are not kept apart in it. */
  function StatePath(r: Request): string {
    PathOf(r.repoId, r.auditType)
  }

  function PathOf(repoId: string, auditType: string): string {
    repoId + ("__" + auditType)
  }

  function FileAt<T>(files: map<string, T>, path: string): Option<T> {
    if path in files then Some(files[path]) else None
  }

  /** `_load_budget_state_unlocked`: a new period starts once the old one has passed. */
  function LoadBudget(file: Option<BudgetState>, cfg: BudgetConfig, now: int): BudgetState {
    if file.None? || now > file.value.periodEnd then BudgetState(now, now + cfg.period, cfg.maxRuns, 0)
    else file.value.(maxRuns := cfg.maxRuns)
  }

  /** `_load_cooldown_state_unlocked`. */
  function LoadCooldown(file: Option<CooldownState>, cooldown: int): CooldownState {
    if file.None? then CooldownState(cooldown, None) else file.value.(cooldown := cooldown)
  }

  // ---- What a run does, read off the request and the state ----

  /** An identified requester asks for a configured repo and audit type. */
  predicate Admissible(r: Request, cfg: Config) {
    && Strip(r.requestedBy) != ""
    && r.repoId in cfg.knownRepos
    && cfg.knownAuditTypes != map[]
    && (r.repoId in cfg.knownAuditTypes ==> r.auditType in cfg.knownAuditTypes[r.repoId])
  }

  /** Somebody has to sign the request off, whatever the budget and the cooldown say. */
  predicate NeedsSignOff(r: Request, cfg: Config) {
    IsUrgent(r.urgency) || (!HasEvidence(r) && r.urgency in cfg.requireMiniFor)
  }

  function KindOf(r: Request, cfg: Config, b: BudgetState, c: CooldownState, now: int): Kind {
    if !Admissible(r, cfg) then Denied
    else if NeedsSignOff(r, cfg) then NeedsManualApproval
    else if b.Exhausted() || c.InCooldown(now) then Deferred
    else Approved
  }

  function BudgetOf(files: Files, a: Attempt): BudgetState {
    LoadBudget(FileAt(files.budgets, StatePath(a.request)), a.budget, a.clock.load)
  }

  function CooldownOf(files: Files, a: Attempt): CooldownState {
    LoadCooldown(FileAt(files.cooldowns, StatePath(a.request)), a.cooldown)
  }

  function Verdict(files: Files, a: Attempt): Kind {
    KindOf(a.request, a.config, BudgetOf(files, a), CooldownOf(files, a), a.clock.eval)
  }

  predicate ApprovalMatches(a: Attempt) {
    a.approval.Some? && a.approval.value.requestId == a.request.requestId
  }

  /** The run calls the dispatcher. */
  predicate Dispatches(files: Files, a: Attempt) {
    Verdict(files, a).Approved? || (Verdict(files, a).NeedsManualApproval? && ApprovalMatches(a))
  }

  /** The run's dispatch came back and was recorded. */
  predicate Records(files: Files, a: Attempt) {
    Dispatches(files, a) && !a.raises
  }

  function StatusOf(files: Files, a: Attempt): GovernanceStatus {
    match Verdict(files, a)
    case Denied => StatusDenied
    case Deferred => StatusDeferred
    case Approved => if a.raises then DispatchFailed else ApprovedAndDispatched
    case NeedsManualApproval =>
      if a.approval.None? then AwaitingApproval
      else if !ApprovalMatches(a) then StatusDenied
      else if a.raises then DispatchFailed
      else ApprovedAndDispatched
  }

  function After(files: Files, a: Attempt): Files {
    if !Records(files, a) then files
    else
      var path := StatePath(a.request);
      var b := LoadBudget(FileAt(files.budgets, path), a.budget, a.clock.reload);
      Files(files.budgets[path := b.(runsUsed := b.runsUsed + 1)],
            files.cooldowns[path := CooldownState(a.cooldown, Some(a.clock.ran))])
  }

  /** Main result: the eight checks and the decision made from their results come to this
      table on the request and the two states. */
  method Govern(r: Request, cfg: Config, b: BudgetState, c: CooldownState, now: int, later: int) returns (d: Decision)
    ensures d.kind == KindOf(r, cfg, b, c, now)
    ensures d.results == Evaluate(r, cfg, Some(b), Some(c), now, later)
    ensures d.requiresManualApproval <==> d.kind.NeedsManualApproval?
    ensures (r.urgency == High || r.urgency == Urgent) ==> d.kind.NeedsManualApproval? || d.kind.Denied?
  {
    var results := Evaluate(r, cfg, Some(b), Some(c), now, later);
    HardFailures(r, cfg, b, c, now, later);
    SoftFailures(r, cfg, b, c, now, later);
    hide Evaluate, Ends, HardFailure, Admissible;
    d := MakeDecision(r, results);
  }

  lemma SoftFailures(r: Request, cfg: Config, b: BudgetState, c: CooldownState, now: int, later: int)
    ensures var results := Evaluate(r, cfg, Some(b), Some(c), now, later);
      && (ManualNeeded(r.urgency, results) <==> NeedsSignOff(r, cfg))
      && (Over(results) <==> b.Exhausted() || c.InCooldown(now))
  {
    var results := Evaluate(r, cfg, Some(b), Some(c), now, later);
    hide Ends;
    OnlyOfName(results, 3, Failed);
    OnlyOfName(results, 4, Failed);
    OnlyOfName(results, 5, Failed);
    OnlyOfName(results, 6, Warning);
  }

  lemma HardFailures(r: Request, cfg: Config, b: BudgetState, c: CooldownState, now: int, later: int)
    ensures (exists p :: p in Evaluate(r, cfg, Some(b), Some(c), now, later) && HardFailure(p)) <==> !Admissible(r, cfg)
  {
    var results := Evaluate(r, cfg, Some(b), Some(c), now, later);
    assert results[0] in results && results[1] in results && results[2] in results;
    assert !Admissible(r, cfg) ==> HardFailure(results[0]) || HardFailure(results[1]) || HardFailure(results[2]);
  }

  /** With all names distinct, the last result of a name is the only one. */
  lemma OnlyOfName(results: seq<PolicyResult>, i: nat, s: Status)
    requires i < |results| && forall j, k :: 0 <= j < k < |results| ==> results[j].name != results[k].name
    ensures Ends(results, results[i].name, s) <==> results[i].status == s
  {
    if results[i].status == s {
      assert results[i] == PolicyResult(results[i].name, s);
      assert forall j :: i < j < |results| ==> results[j].name != results[i].name;
    }
  }

  /** Directories with the same file at every path are the same. */
  lemma SameFiles<T(!new)>(a: map<string, T>, b: map<string, T>)
    requires forall k :: FileAt(a, k) == FileAt(b, k)
    ensures a == b
  {
    assert forall k :: (k in a <==> FileAt(a, k).Some?) && (k in b <==> FileAt(b, k).Some?);
    assert forall k :: k in a ==> FileAt(a, k) == Some(a[k]) && FileAt(b, k) == Some(b[k]);
  }

  class GovernanceState {
    var budgets: map<string, BudgetState>
    var cooldowns: map<string, CooldownState>

    constructor ()
      ensures Both() == Files(map[], map[])
    {
      budgets, cooldowns := map[], map[];
    }

    function Both(): Files
      reads this
    {
      Files(budgets, cooldowns)
    }

    /** `increment_budget_after_dispatch`. */
    method IncrementBudget(path: string, cfg: BudgetConfig, now: int)
      modifies this`budgets
      ensures path in budgets && budgets[path].maxRuns == cfg.maxRuns
      ensures path in old(budgets) && now <= old(budgets)[path].periodEnd ==>
        && budgets[path].runsUsed == old(budgets)[path].runsUsed + 1
        && budgets[path].periodStart == old(budgets)[path].periodStart
        && budgets[path].periodEnd == old(budgets)[path].periodEnd
      ensures path !in old(budgets) || now > old(budgets)[path].periodEnd ==>
        budgets[path] == BudgetState(now, now + cfg.period, cfg.maxRuns, 1)
      ensures forall other :: other != path ==> FileAt(budgets, other) == FileAt(old(budgets), other)
    {
      var state := LoadBudget(FileAt(budgets, path), cfg, now);
      budgets := budgets[path := state.(runsUsed := state.runsUsed + 1)];
    }

    /** `update_cooldown_after_dispatch`. */
    method UpdateCooldown(path: string, cooldown: int, ranAt: int)
      modifies this`cooldowns
      ensures cooldowns == old(cooldowns)[path := CooldownState(cooldown, Some(ranAt))]
    {
      cooldowns := cooldowns[path := CooldownState(cooldown, Some(ranAt))];
    }

    /** `run_governed_audit`. */
    method Run(a: Attempt) returns (status: GovernanceStatus, decision: Decision, dispatched: bool)
      modifies this
      ensures status == StatusOf(old(Both()), a)
      ensures dispatched == Dispatches(old(Both()), a)
      ensures Both() == After(old(Both()), a)
      ensures decision.kind == if status.StatusDenied? then Denied else Verdict(old(Both()), a)
      ensures dispatched && (a.request.urgency == High || a.request.urgency == Urgent) ==>
        a.approval.Some? && a.approval.value.requestId == a.request.requestId
    {
      DispatchesExactly(Both(), a);
      var path := StatePath(a.request);
      var budget := LoadBudget(FileAt(budgets, path), a.budget, a.clock.load);
      var cooldown := LoadCooldown(FileAt(cooldowns, path), a.cooldown);
      decision := Govern(a.request, a.config, budget, cooldown, a.clock.eval, a.clock.recent);
      var approvalValidated := false;
      if decision.requiresManualApproval {
        if a.approval.None? { return AwaitingApproval, decision, false; }
        if a.approval.value.requestId != a.request.requestId {
          return StatusDenied, Decision(Denied, [ApprovalRejected], decision.results, true), false;
        }
        approvalValidated := true;
      }
      var canDispatch := decision.kind.Approved? || approvalValidated;
      if !canDispatch {
        return if decision.kind.Deferred? then StatusDeferred else StatusDenied, decision, false;
      }
      if a.raises { return DispatchFailed, decision, true; }
      IncrementBudget(path, a.budget, a.clock.reload);
      ghost var after := After(old(Both()), a).budgets;
      assert budgets[path] == after[path];
      SameFiles(budgets, after);
      UpdateCooldown(path, a.cooldown, a.clock.ran);
      return ApprovedAndDispatched, decision, true;
    }
  }

  /** Main result: exactly when a run dispatches. A request that needs a sign-off dispatches
      with a matching approval and not otherwise; one that does not is held to the budget
      and the cooldown, and no approval changes that. */
  lemma DispatchesExactly(files: Files, a: Attempt)
    ensures Dispatches(files, a) <==>
      && Admissible(a.request, a.config)
      && (if NeedsSignOff(a.request, a.config) then ApprovalMatches(a)
          else !BudgetOf(files, a).Exhausted() && !CooldownOf(files, a).InCooldown(a.clock.eval))
    ensures a.request.urgency == High || a.request.urgency == Urgent ==>
      (Dispatches(files, a) ==> a.approval.Some? && a.approval.value.requestId == a.request.requestId)
    ensures Verdict(files, a).Denied? || Verdict(files, a).Deferred? ==>
      forall approval :: !Dispatches(files, a.(approval := approval))
  {
    forall approval
      ensures Verdict(files, a.(approval := approval)) == Verdict(files, a)
    {
    }
  }

  /** Main result: the status of a run and whether it dispatches, read off the request, the
      two files and the approval. Every request of high or urgent urgency waits for a matching
      approval; a lower one does so only where evidence is demanded and missing. */
  lemma RunTable(files: Files, a: Attempt)
    ensures var r, cfg, path := a.request, a.config, a.request.repoId + "__" + a.request.auditType;
      var admissible :=
        && !Blank(r.requestedBy) && r.repoId in cfg.knownRepos && cfg.knownAuditTypes != map[]
        && (r.repoId in cfg.knownAuditTypes ==> r.auditType in cfg.knownAuditTypes[r.repoId]);
      var evidence := r.suiteReport.Some? && r.suiteReport.value != "";
      var signOff := r.urgency == High || r.urgency == Urgent || (r.urgency in cfg.requireMiniFor && !evidence);
      var used := if path in files.budgets && a.clock.load <= files.budgets[path].periodEnd
                  then files.budgets[path].runsUsed else 0;
      var recent := path in files.cooldowns && files.cooldowns[path].lastRunAt.Some?
        && a.clock.eval - files.cooldowns[path].lastRunAt.value < a.cooldown;
      var matching := a.approval.Some? && a.approval.value.requestId == r.requestId;
      var sent := if a.raises then DispatchFailed else ApprovedAndDispatched;
      && (Dispatches(files, a) <==>
            admissible && if signOff then matching else used < a.budget.maxRuns && !recent)
      && StatusOf(files, a) ==
           if !admissible then StatusDenied
           else if signOff then
             if matching then sent else if a.approval.None? then AwaitingApproval else StatusDenied
           else if used >= a.budget.maxRuns || recent then StatusDeferred
           else sent
  {
    BlankExactly(a.request.requestedBy);
    assert a.request.repoId + "__" + a.request.auditType == StatePath(a.request);
  }

  /** What a run leaves in the files: after a dispatch that came back, the budget file counts
      one more run of its period, or the first one of a period that begins, and the cooldown
      file holds the time the dispatch came back. Any other run leaves both alone. */
  lemma FilesTable(files: Files, a: Attempt)
    ensures var path := a.request.repoId + "__" + a.request.auditType;
      var now, limit := a.clock.reload, a.budget.maxRuns;
      After(files, a) ==
        if !Dispatches(files, a) || a.raises then files
        else
          Files(
            files.budgets[path :=
              if path in files.budgets && now <= files.budgets[path].periodEnd then
                var b := files.budgets[path];
                BudgetState(b.periodStart, b.periodEnd, limit, b.runsUsed + 1)
              else BudgetState(now, now + a.budget.period, limit, 1)],
            files.cooldowns[path := CooldownState(a.cooldown, Some(a.clock.ran))])
  {
    assert a.request.repoId + "__" + a.request.auditType == StatePath(a.request);
  }

  // ---- Histories ----

  /** The state files after the attempts, one after another. */
  function AfterAll(files: Files, history: seq<Attempt>): Files {
    if history == [] then files
    else After(AfterAll(files, history[..|history| - 1]), history[|history| - 1])
  }

  /** The clock does not run backwards between two recordings. */
  predicate MonotoneClock(history: seq<Attempt>) {
    forall i, j :: 0 <= i < j < |history| ==> history[i].clock.ran <= history[j].clock.ran
  }

  predicate RecordedAt(files: Files, history: seq<Attempt>, i: nat)
    requires i < |history|
  {
    Records(AfterAll(files, history[..i]), history[i])
  }

  predicate AutoApprovedAt(files: Files, history: seq<Attempt>, i: nat)
    requires i < |history|
  {
    Verdict(AfterAll(files, history[..i]), history[i]).Approved?
  }

  /** The cooldown file is as late as every recorded run. */
  lemma {:induction false} LatestRun(files: Files, history: seq<Attempt>, i: nat)
    requires MonotoneClock(history) && i < |history| && RecordedAt(files, history, i)
    ensures var file := FileAt(AfterAll(files, history).cooldowns, StatePath(history[i].request));
      file.Some? && file.value.lastRunAt.Some? && file.value.lastRunAt.value >= history[i].clock.ran
    decreases |history|
  {
    var k := |history| - 1;
    if i < k {
      var init := history[..k];
      assert init[..i] == history[..i];
      LatestRun(files, init, i);
    }
  }

  /** Main result: an automatically approved run is evaluated at least its cooldown after
      every earlier recorded run of the same state file. */
  lemma CooldownKept(files: Files, history: seq<Attempt>, i: nat, j: nat)
    requires MonotoneClock(history) && i < j < |history|
    requires StatePath(history[i].request) == StatePath(history[j].request)
    requires RecordedAt(files, history, i) && AutoApprovedAt(files, history, j)
    ensures history[j].clock.eval - history[i].clock.ran >= history[j].cooldown
  {
    var init := history[..j];
    assert init[..i] == history[..i];
    LatestRun(files, init, i);
  }

  // ---- Which repos share state files ----

  /** q is p followed by something that runs into the separator. */
  predicate RunsInto(p: string, q: string) {
    p <= q && (q[|p|..] == "_" || "__" <= q[|p|..])
  }

  /** Some audit types give the two repos one state file. */
  ghost predicate MayShare(p: string, q: string) {
    exists x: string, y: string :: x != "" && y != "" && PathOf(p, x) == PathOf(q, y)
  }

  lemma RunsIntoShares(p: string, q: string)
    requires RunsInto(p, q)
    ensures MayShare(p, q) && MayShare(q, p)
  {
    var rest := q[|p|..];
    var y := "a";
    assert q == p + rest;
    var x := if rest == "_" then "_" + y else rest[2..] + ("__" + y);
    assert PathOf(q, y) == p + (rest + ("__" + y));
    assert rest + ("__" + y) == "__" + x;
    assert PathOf(p, x) == PathOf(q, y);
  }

  lemma SharedIsPrefix(p: string, x: string, q: string, y: string)
    requires PathOf(p, x) == PathOf(q, y) && p != q && |p| <= |q|
    ensures RunsInto(p, q)
  {
    var path := PathOf(p, x);
    assert p == path[..|p|] && q == path[..|q|];
    assert p == q[..|p|];
    var rest := q[|p|..];
    assert path[|p|..] == "__" + x == rest + ("__" + y);
    assert ("__" + x)[0] == rest[0];
    if |rest| >= 2 { assert rest[..2] == ("__" + x)[..2]; }
  }

  /** Main result: two repos can share a state file exactly when one id is the other
      followed by `_`, or by anything that begins with `__`. */
  lemma MayShareExactly(p: string, q: string)
    requires p != q
    ensures MayShare(p, q) <==> RunsInto(p, q) || RunsInto(q, p)
  {
    if RunsInto(p, q) { RunsIntoShares(p, q); }
    if RunsInto(q, p) { RunsIntoShares(q, p); }
    if MayShare(p, q) {
      var x: string, y: string :| x != "" && y != "" && PathOf(p, x) == PathOf(q, y);
      if |p| <= |q| { SharedIsPrefix(p, x, q, y); } else { SharedIsPrefix(q, y, p, x); }
    }
  }

  /** Repos whose ids do not run into one another leave each other's state alone, whatever
      is requested for them. */
  lemma OthersUntouched(files: Files, a: Attempt, r: Request)
    requires a.request.repoId != r.repoId && a.request.auditType != "" && r.auditType != ""
    requires !RunsInto(a.request.repoId, r.repoId) && !RunsInto(r.repoId, a.request.repoId)
    ensures FileAt(After(files, a).budgets, StatePath(r)) == FileAt(files.budgets, StatePath(r))
    ensures FileAt(After(files, a).cooldowns, StatePath(r)) == FileAt(files.cooldowns, StatePath(r))
  {
    MayShareExactly(a.request.repoId, r.repoId);
    assert StatePath(a.request) != StatePath(r);
  }
}
