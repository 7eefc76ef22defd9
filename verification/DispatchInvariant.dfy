/** The invariant of the dispatch protocol: `Inv` holds in every reachable world. */
module DispatchInvariant {
  import opened Prelude
  import opened LockFiles
  import opened DispatchProtocol
  import opened DispatchThreads

  /** The thread has written its payload and not yet removed it. */
  predicate Owns(pc: Pc) {
    match pc
    case InStore(op, phase) =>
      || (op.Acquire? && phase == Unlock(true))
      || op.Record?
      || (op.Release? && (phase.Flock? || phase.Read? || phase.Unlink?))
    case Committing | Held | Waiting(_) | WantRelease | Discarding => true
    case _ => false
  }

  /** The repo is in the registry's `_held` on behalf of this thread. */
  predicate Counted(pc: Pc) {
    pc.Held? || (pc.InStore? && pc.op.Record?) || pc.Waiting? || pc.WantRelease? || pc.Discarding?
  }

  /** The repo whose sentinel lock the thread runs under. */
  function Sentinel(th: Thread): Option<Repo> {
    if th.pc.InStore? && !th.pc.phase.Flock? then Some(OpRepo(th)) else None
  }

  ghost predicate NoOwner(s: World, r: Repo) {
    forall t :: t in s.threads && s.threads[t].repo == r ==> !Owns(s.threads[t].pc)
  }

  /** A live audit without dispatcher that its repo's lock file does not name. */
  predicate Uncovered(s: World, a: int) {
    a in s.audits && s.audits[a].parent.None? && !RecordedOnDisk(s, s.audits[a].repo, a)
  }

  /** No live audit of the repo is under the protocol any more. */
  ghost predicate OnlyUncovered(s: World, r: Repo) {
    forall a :: a in s.audits && s.audits[a].repo == r ==> Uncovered(s, a)
  }

  ghost predicate PidsOk(s: World) {
    && (forall p :: p in s.ocs ==> p > 0 && p !in s.audits && p !in s.others)
    && (forall a :: a in s.audits ==> a > 0 && a !in s.others)
    && (forall t :: t in s.threads ==> s.threads[t].oc in s.ocs)
  }

  ghost predicate FlocksOk(s: World) {
    && (forall r :: r in s.flocks ==>
          s.flocks[r] in s.threads && Sentinel(s.threads[s.flocks[r]]) == Some(r))
    && (forall t :: t in s.threads && Sentinel(s.threads[t]).Some? ==>
          var r := Sentinel(s.threads[t]).value;
          r in s.flocks && s.flocks[r] == t)
  }

  /** Every lock file is whole, and an owning thread's file names its process. */
  ghost predicate DiskOk(s: World) {
    && (forall r :: r in s.disk ==> s.disk[r].Whole?)
    && (forall t :: t in s.threads && Owns(s.threads[t].pc) ==>
          && s.threads[t].repo in s.disk
          && s.disk[s.threads[t].repo].payload.ocPid == s.threads[t].oc)
  }

  ghost predicate OwnersUnique(s: World) {
    forall t, u ::
      (t in s.threads && u in s.threads && s.threads[t].repo == s.threads[u].repo
       && Owns(s.threads[t].pc) && Owns(s.threads[u].pc)) ==> t == u
  }

  /** What a thread inside the store has learnt stays true while it holds the sentinel. */
  ghost predicate PhaseOk(s: World, th: Thread)
    requires th.pc.InStore?
  {
    var r := OpRepo(th);
    var op := th.pc.op;
    match th.pc.phase
    case CheckOc(p) =>
      (op.Acquire? || op.Reclaim?) && r in s.disk && s.disk[r] == Whole(p)
    case CheckAudit(p) =>
      (op.Acquire? || op.Reclaim?) && r in s.disk && s.disk[r] == Whole(p) && NoOwner(s, r)
    case Draft(p) =>
      PromotesOk(s, th, p)
    case TempTorn(p) =>
      PromotesOk(s, th, p)
    case TempWhole(p) =>
      PromotesOk(s, th, p)
    case Unlink =>
      op.Release? || (op.Reclaim? && NoOwner(s, r) && OnlyUncovered(s, r))
    case _ => true
  }

  /** A drafted payload may replace the lock file. */
  ghost predicate PromotesOk(s: World, th: Thread, p: Payload)
    requires th.pc.InStore?
  {
    var r := OpRepo(th);
    && p.ocPid == th.oc
    && (th.pc.op.Acquire? ==> NoOwner(s, r) && OnlyUncovered(s, r) && p.auditPid.None?)
    && (th.pc.op.Record? ==> p.auditPid == Some(th.pc.op.audit))
    && (th.pc.op.Acquire? || th.pc.op.Record?)
  }

  ghost predicate PhasesOk(s: World) {
    forall t :: t in s.threads && s.threads[t].pc.InStore? ==> PhaseOk(s, s.threads[t])
  }

  /** A live audit that has a dispatcher belongs to the thread that waits for it. */
  ghost predicate AuditsOk(s: World) {
    forall a :: a in s.audits && s.audits[a].parent.Some? ==>
      var t := s.audits[a].parent.value;
      && t in s.threads && s.threads[t].repo == s.audits[a].repo
      && ((s.threads[t].pc.InStore? && s.threads[t].pc.op == Record(a)) || s.threads[t].pc == Waiting(a))
  }

  /** Every live audit of an owned repo is the owner's, or uncovered. */
  ghost predicate OwnersAudits(s: World) {
    forall t, a ::
      (t in s.threads && a in s.audits && Owns(s.threads[t].pc) && s.audits[a].repo == s.threads[t].repo) ==>
      s.audits[a].parent == Some(t) || Uncovered(s, a)
  }

  /** A thread about to record a live audit of its repo is that audit's dispatcher. */
  ghost predicate RecordsOk(s: World) {
    forall t ::
      (t in s.threads && s.threads[t].pc.InStore? && s.threads[t].pc.op.Record?) ==>
      var a := s.threads[t].pc.op.audit;
      a in s.audits && s.audits[a].repo == s.threads[t].repo ==> s.audits[a].parent == Some(t)
  }

  /** A repo in some `_held` has a thread of that process holding it. */
  ghost predicate HeldOk(s: World) {
    forall p, r :: p in s.ocs && r in s.ocs[p].held ==>
      exists t :: t in s.threads && s.threads[t].oc == p && s.threads[t].repo == r && Counted(s.threads[t].pc)
  }

  ghost predicate Core(s: World) {
    && PidsOk(s)
    && FlocksOk(s)
    && DiskOk(s)
    && OwnersUnique(s)
    && PhasesOk(s)
    && AuditsOk(s)
    && OwnersAudits(s)
    && RecordsOk(s)
    && HeldOk(s)
  }

  /** The invariant: what threads know of each other, and what each keeps to itself. */
  ghost predicate Inv(s: World) {
    Core(s) && Local(s)
  }

  lemma InitInv()
    ensures Inv(Init)
  {
  }

  /** The thread's position accounts for every live audit it started. */
  ghost predicate Accounts(s: World, t: Tid, pc: Pc) {
    forall a :: a in s.audits && s.audits[a].parent == Some(t) ==>
      (pc.InStore? && pc.op == Record(a)) || pc == Waiting(a)
  }

  /** A step that gives a repo without owner no owner and no audit. */
  ghost predicate Calm(s: World, s': World, r: Repo) {
    NoOwner(s, r) ==> NoOwner(s', r) && (OnlyUncovered(s, r) ==> OnlyUncovered(s', r))
  }

  /** What a thread knows survives a step that is calm for the repo whose file it is
      reading and leaves that file alone. */
  lemma PhaseFrame(s: World, s': World, th: Thread)
    requires th.pc.InStore? && PhaseOk(s, th)
    requires var r := OpRepo(th);
      Sentinel(th) == Some(r) ==> Calm(s, s', r) && (r in s.disk ==> r in s'.disk && s'.disk[r] == s.disk[r])
    ensures PhaseOk(s', th)
  {
  }

  /** The same for all threads, when each is where it was or knows what its place claims. */
  lemma PhasesFrame(s: World, s': World)
    requires PhasesOk(s)
    requires forall t :: t in s'.threads && s'.threads[t].pc.InStore? ==>
      PhaseOk(s', s'.threads[t]) || PhaseOk(s, s'.threads[t])
    requires forall r :: Calm(s, s', r)
    requires forall r :: r in s.disk ==> r in s'.disk && s'.disk[r] == s.disk[r]
    ensures PhasesOk(s')
  {
    forall u | u in s'.threads && s'.threads[u].pc.InStore?
      ensures PhaseOk(s', s'.threads[u])
    {
      if PhaseOk(s, s'.threads[u]) { PhaseFrame(s, s', s'.threads[u]); }
    }
  }

  /** The registries stay right when nothing is added to them and no holder stops counting. */
  lemma HeldWitness(s: World, s': World)
    requires HeldOk(s)
    requires forall p, r :: p in s'.ocs && r in s'.ocs[p].held ==> p in s.ocs && r in s.ocs[p].held
    requires forall t ::
      (t in s.threads && Counted(s.threads[t].pc) && s.threads[t].oc in s'.ocs
       && s.threads[t].repo in s'.ocs[s.threads[t].oc].held) ==>
      && t in s'.threads && Counted(s'.threads[t].pc)
      && s'.threads[t].oc == s.threads[t].oc && s'.threads[t].repo == s.threads[t].repo
    ensures HeldOk(s')
  {
    forall p, r | p in s'.ocs && r in s'.ocs[p].held
      ensures exists t ::
        t in s'.threads && s'.threads[t].oc == p && s'.threads[t].repo == r && Counted(s'.threads[t].pc)
    {
      var t :| t in s.threads && s.threads[t].oc == p && s.threads[t].repo == r && Counted(s.threads[t].pc);
      assert t in s'.threads;
    }
  }

  /** The clauses above do not look at temporary files and handles. */
  lemma CoreIgnores(s: World, temps: map<Tid, LockFile>, handles: map<Tid, bool>)
    requires Core(s)
    ensures Core(s.(temps := temps, handles := handles))
  {
    var s' := s.(temps := temps, handles := handles);
    OwnershipIgnores(s, temps, handles);
    forall r
      ensures Calm(s, s', r)
    {
      CalmIgnores(s, temps, handles, r);
    }
    hide DiskOk, OwnersUnique, AuditsOk, OwnersAudits, RecordsOk, Calm, PhaseOk;
    PhasesFrame(s, s');
    HeldWitness(s, s');
  }

  lemma CalmIgnores(s: World, temps: map<Tid, LockFile>, handles: map<Tid, bool>, r: Repo)
    ensures Calm(s, s.(temps := temps, handles := handles), r)
  {
  }

  lemma OwnershipIgnores(s: World, temps: map<Tid, LockFile>, handles: map<Tid, bool>)
    requires Ownership(s)
    ensures Ownership(s.(temps := temps, handles := handles))
  {
    hide Owns;
  }

  /** The clauses about who owns which lock file and which audit. */
  ghost predicate Ownership(s: World) {
    DiskOk(s) && OwnersUnique(s) && AuditsOk(s) && OwnersAudits(s) && RecordsOk(s)
  }

  /** Moving to `pc` claims no more than the thread already has. */
  ghost predicate MayGoto(s: World, t: Tid, pc: Pc) {
    && t in s.threads
    && (Owns(pc) ==> Owns(s.threads[t].pc))
    && ((&& Counted(s.threads[t].pc) && s.threads[t].oc in s.ocs
         && s.threads[t].repo in s.ocs[s.threads[t].oc].held) ==> Counted(pc))
    && Accounts(s, t, pc)
    && (pc.InStore? && pc.op.Record? ==> s.threads[t].pc.InStore? && s.threads[t].pc.op == pc.op)
    && (pc.InStore? ==> PhaseOk(s, s.threads[t].(pc := pc)))
  }

  lemma MoveKeepsDisk(s: World, t: Tid, pc: Pc, flocks: map<Repo, Tid>)
    requires DiskOk(s) && OwnersUnique(s) && MayGoto(s, t, pc)
    ensures var s' := s.(flocks := flocks).Goto(t, pc); DiskOk(s') && OwnersUnique(s')
  {
    hide PhaseOk, Accounts, Counted;
  }

  lemma MoveKeepsAudits(s: World, t: Tid, pc: Pc, flocks: map<Repo, Tid>)
    requires AuditsOk(s) && OwnersAudits(s) && RecordsOk(s) && MayGoto(s, t, pc)
    ensures var s' := s.(flocks := flocks).Goto(t, pc); AuditsOk(s') && OwnersAudits(s') && RecordsOk(s')
  {
    hide PhaseOk, Counted, Owns;
  }

  lemma MoveKeepsHeld(s: World, t: Tid, pc: Pc, flocks: map<Repo, Tid>)
    requires HeldOk(s) && MayGoto(s, t, pc)
    ensures HeldOk(s.(flocks := flocks).Goto(t, pc))
  {
    hide HeldOk, PhaseOk, Accounts;
    HeldWitness(s, s.(flocks := flocks).Goto(t, pc));
  }

  lemma MoveKeepsPhases(s: World, t: Tid, pc: Pc, flocks: map<Repo, Tid>)
    requires PhasesOk(s) && MayGoto(s, t, pc)
    ensures PhasesOk(s.(flocks := flocks).Goto(t, pc))
  {
    hide PhaseOk, Accounts, Counted;
    PhasesFrame(s, s.(flocks := flocks).Goto(t, pc));
  }

  /** A thread moves, locking or unlocking a sentinel on the way. */
  lemma MoveKeepsCore(s: World, t: Tid, pc: Pc, flocks: map<Repo, Tid>)
    requires Core(s) && MayGoto(s, t, pc)
    requires FlocksOk(s.(flocks := flocks).Goto(t, pc))
    ensures Core(s.(flocks := flocks).Goto(t, pc))
  {
    hide DiskOk, OwnersUnique, PhasesOk, AuditsOk, OwnersAudits, RecordsOk, FlocksOk, HeldOk;
    MoveKeepsDisk(s, t, pc, flocks);
    MoveKeepsAudits(s, t, pc, flocks);
    MoveKeepsHeld(s, t, pc, flocks);
    MoveKeepsPhases(s, t, pc, flocks);
  }

  lemma GotoKeepsCore(s: World, t: Tid, pc: Pc)
    requires Core(s) && MayGoto(s, t, pc)
    requires Sentinel(s.threads[t].(pc := pc)) == Sentinel(s.threads[t])
    ensures Core(s.Goto(t, pc))
  {
    assert s.Goto(t, pc) == s.(flocks := s.flocks).Goto(t, pc);
    assert FlocksOk(s.Goto(t, pc));
    MoveKeepsCore(s, t, pc, s.flocks);
  }

  lemma DispatchKeepsOwnership(s: World, t: Tid, th: Thread)
    requires Core(s) && t !in s.threads && th.pc == Entered
    ensures Ownership(s.(threads := s.threads[t := th]))
    ensures FlocksOk(s.(threads := s.threads[t := th]))
  {
    hide PhasesOk, HeldOk;
    assert !Owns(th.pc) && Sentinel(th) == None;
    hide Owns, Sentinel;
  }

  lemma DispatchKeepsCore(s: World, t: Tid, th: Thread)
    requires Core(s) && t !in s.threads && th.oc in s.ocs && th.pc == Entered
    ensures Core(s.(threads := s.threads[t := th]))
  {
    var s' := s.(threads := s.threads[t := th]);
    DispatchKeepsOwnership(s, t, th);
    HeldWitness(s, s');
    PhasesFrame(s, s');
  }

  /** The environment starts processes and ends audits, and touches nothing else. */
  predicate FromOutside(act: Action) {
    act.StartOther? || act.StopOther? || act.AuditExit? || act.StartOc?
  }

  lemma ExitKeepsOwnership(s: World, pid: int)
    requires Ownership(s)
    ensures Ownership(s.(audits := s.audits - {pid}))
  {
    hide Owns;
  }

  lemma StartKeepsOwnership(s: World, ocs: map<int, Oc>, others: set<int>)
    requires Ownership(s)
    ensures Ownership(s.(ocs := ocs, others := others))
  {
    hide Owns;
  }

  lemma EnvironmentKeepsOwnership(s: World, act: Action)
    requires Ownership(s) && FlocksOk(s) && FromOutside(act) && Next(s, act).Some?
    ensures Ownership(Next(s, act).value) && FlocksOk(Next(s, act).value)
  {
    hide Ownership, Owns, Sentinel;
    var s' := Next(s, act).value;
    StartKeepsOwnership(s, s'.ocs, s'.others);
    match act
    case AuditExit(pid) => ExitKeepsOwnership(s, pid);
    case _ =>
  }

  lemma EnvironmentIsCalm(s: World, act: Action, r: Repo)
    requires FromOutside(act) && Next(s, act).Some?
    ensures Calm(s, Next(s, act).value, r)
  {
    hide Owns;
  }

  lemma EnvironmentKeepsPids(s: World, act: Action)
    requires PidsOk(s) && FromOutside(act) && Next(s, act).Some?
    ensures PidsOk(Next(s, act).value)
  {
  }

  lemma EnvironmentKeepsCore(s: World, act: Action)
    requires Core(s) && FromOutside(act) && Next(s, act).Some?
    ensures Core(Next(s, act).value)
  {
    var s' := Next(s, act).value;
    EnvironmentKeepsOwnership(s, act);
    EnvironmentKeepsPids(s, act);
    forall r
      ensures Calm(s, s', r)
    {
      EnvironmentIsCalm(s, act, r);
    }
    hide DiskOk, OwnersUnique, OwnersAudits, RecordsOk, AuditsOk, FlocksOk, Calm, PidsOk;
    HeldWitness(s, s');
    PhasesFrame(s, s');
  }

  /** A death takes threads away, and leaves their audits without dispatcher. */
  lemma CrashFrame(s: World, pid: int)
    ensures var s' := CrashStep(s, pid);
      && s'.disk == s.disk && s'.audits.Keys == s.audits.Keys
      && (forall t :: t in s'.threads ==> t in s.threads && s'.threads[t] == s.threads[t])
      && (forall a :: a in s.audits ==>
            && s'.audits[a].repo == s.audits[a].repo
            && (s.audits[a].parent.None? ==> s'.audits[a].parent.None?)
            && (forall t :: t in s'.threads && s.audits[a].parent == Some(t) ==> s'.audits[a].parent == Some(t)))
  {
  }

  /** A death leaves an owner's audits its own, and a recorder its audit's dispatcher. */
  lemma CrashKeepsOwners(s: World, pid: int)
    requires DiskOk(s) && OwnersUnique(s) && OwnersAudits(s) && RecordsOk(s)
    ensures var s' := CrashStep(s, pid); DiskOk(s') && OwnersUnique(s') && OwnersAudits(s') && RecordsOk(s')
  {
    CrashFrame(s, pid);
    hide CrashStep, Owns;
  }

  lemma CrashKeepsAudits(s: World, pid: int)
    requires AuditsOk(s)
    ensures AuditsOk(CrashStep(s, pid))
  {
  }

  lemma CrashKeepsFlocks(s: World, pid: int)
    requires FlocksOk(s) && PidsOk(s)
    ensures FlocksOk(CrashStep(s, pid)) && PidsOk(CrashStep(s, pid))
  {
  }

  /** A repo without owner has no dispatcher to lose. */
  lemma CrashIsCalm(s: World, pid: int, r: Repo)
    ensures Calm(s, CrashStep(s, pid), r)
  {
  }

  lemma CrashKeepsCore(s: World, pid: int)
    requires Core(s) && pid in s.ocs
    ensures Core(CrashStep(s, pid))
  {
    var s' := CrashStep(s, pid);
    CrashKeepsOwners(s, pid);
    CrashKeepsAudits(s, pid);
    CrashKeepsFlocks(s, pid);
    forall r
      ensures Calm(s, s', r)
    {
      CrashIsCalm(s, pid, r);
    }
    hide DiskOk, OwnersUnique, OwnersAudits, RecordsOk, AuditsOk, FlocksOk, Calm, PhaseOk;
    PhasesFrame(s, s');
    HeldWitness(s, s');
  }

  /** A registry's fields change; `_held` names only repos some thread holds. */
  lemma SetOcKeepsCore(s: World, pid: int, oc: Oc)
    requires Core(s) && pid in s.ocs && HeldOk(s.SetOc(pid, oc))
    ensures Core(s.SetOc(pid, oc))
  {
    var s' := s.SetOc(pid, oc);
    StartKeepsOwnership(s, s'.ocs, s'.others);
    hide HeldOk, Owns, DiskOk, OwnersUnique, AuditsOk, OwnersAudits, RecordsOk;
    PhasesFrame(s, s');
  }

  /** A registry's flags change, or `_held` shrinks, and the thread moves on. */
  lemma SetAndGotoKeepsCore(s: World, t: Tid, oc: Oc, pc: Pc)
    requires Core(s) && t in s.threads && s.threads[t].oc in s.ocs
    requires oc.held <= s.ocs[s.threads[t].oc].held
    requires MayGoto(s.SetOc(s.threads[t].oc, oc), t, pc)
    requires Sentinel(s.threads[t].(pc := pc)) == Sentinel(s.threads[t])
    ensures Core(s.SetOc(s.threads[t].oc, oc).Goto(t, pc))
  {
    var s1 := s.SetOc(s.threads[t].oc, oc);
    HeldWitness(s, s1);
    SetOcKeepsCore(s, s.threads[t].oc, oc);
    GotoKeepsCore(s1, t, pc);
  }

  /** The acquire is complete: the repo enters `_held`. */
  lemma CommitKeepsCore(s: World, t: Tid)
    requires Core(s) && t in s.threads && s.threads[t].pc == Committing
    ensures s.threads[t].oc in s.ocs && RegistryStep(s, t).Some? && Core(RegistryStep(s, t).value)
  {
    var th := s.threads[t];
    var s1 := s.Goto(t, Held);
    GotoKeepsCore(s, t, Held);
    var oc := s.ocs[th.oc].(held := s.ocs[th.oc].held + {th.repo}, mutex := None);
    var s2 := s1.SetOc(th.oc, oc);
    forall p, r | p in s2.ocs && r in s2.ocs[p].held
      ensures exists u ::
        u in s2.threads && s2.threads[u].oc == p && s2.threads[u].repo == r && Counted(s2.threads[u].pc)
    {
      if p == th.oc && r == th.repo {
        assert s2.threads[t].oc == p;
      } else {
        var u :| u in s1.threads && s1.threads[u].oc == p && s1.threads[u].repo == r && Counted(s1.threads[u].pc);
        assert u in s2.threads;
      }
    }
    SetOcKeepsCore(s1, th.oc, oc);
    CoreIgnores(s2, s.temps, s.handles[t := false]);
    assert RegistryStep(s, t).value == s2.(temps := s.temps, handles := s.handles[t := false]);
  }

  /** `release()` begins, or finds the handle released. */
  lemma ReleaseKeepsCore(s: World, t: Tid)
    requires Core(s) && t in s.threads && ThreadOk(s, t)
    requires s.threads[t].pc.Held? || s.threads[t].pc.Waiting? || s.threads[t].pc.Done?
    requires Accounts(s, t, WantRelease)
    ensures Core(BeginRelease(s, t))
  {
    if s.threads[t].pc.Done? {
      assert BeginRelease(s, t).threads == s.threads;
      assert BeginRelease(s, t) == s;
    } else {
      GotoKeepsCore(s, t, WantRelease);
      CoreIgnores(s.Goto(t, WantRelease), s.temps, s.handles[t := true]);
      assert BeginRelease(s, t) == s.Goto(t, WantRelease).(temps := s.temps, handles := s.handles[t := true]);
    }
  }

  /** A thread locks or unlocks the registry, or takes its repo out of `_held`. */
  lemma LockKeepsCore(s: World, t: Tid)
    requires Core(s) && t in s.threads && s.threads[t].oc in s.ocs
    requires var pc := s.threads[t].pc; pc.WantMutex? || pc.WantRelease? || pc.Discarding? || pc.Finishing?
    requires RegistryStep(s, t).Some?
    ensures Core(RegistryStep(s, t).value)
  {
    var th := s.threads[t];
    var s' := RegistryStep(s, t).value;
    var oc', pc' := s'.ocs[th.oc], s'.threads[t].pc;
    assert s' == s.SetOc(th.oc, oc').Goto(t, pc');
    assert AuditsOk(s);
    hide FlocksOk, DiskOk, OwnersUnique, PhasesOk, OwnersAudits, RecordsOk, HeldOk, PidsOk;
    assert MayGoto(s.SetOc(th.oc, oc'), t, pc');
    SetAndGotoKeepsCore(s, t, oc', pc');
  }

  lemma EnterKeepsCore(s: World, t: Tid)
    requires Core(s) && t in s.threads && s.threads[t].oc in s.ocs
    requires s.threads[t].pc.Entered? || s.threads[t].pc.HaveMutex?
    ensures RegistryStep(s, t).Some? && Core(RegistryStep(s, t).value)
  {
    assert AuditsOk(s);
    hide FlocksOk, DiskOk, OwnersUnique, PhasesOk, OwnersAudits, RecordsOk, HeldOk, PidsOk;
    GotoKeepsCore(s, t, RegistryStep(s, t).value.threads[t].pc);
  }

  lemma RegistryKeepsCore(s: World, t: Tid)
    requires Core(s) && t in s.threads && ThreadOk(s, t) && s.threads[t].oc in s.ocs && !s.threads[t].pc.InStore?
    requires RegistryStep(s, t).Some?
    ensures Core(RegistryStep(s, t).value)
  {
    assert s.threads[t].pc.Waiting? ==> Accounts(s, t, WantRelease) by { assert AuditsOk(s); }
    hide Core, ThreadOk, Accounts;
    match s.threads[t].pc
    case Committing => CommitKeepsCore(s, t);
    case Waiting(_) => ReleaseKeepsCore(s, t);
    case Entered => EnterKeepsCore(s, t);
    case HaveMutex => EnterKeepsCore(s, t);
    case _ => LockKeepsCore(s, t);
  }

  lemma TimeoutKeepsCore(s: World, t: Tid)
    requires Core(s) && t in s.threads && s.threads[t].oc in s.ocs
    requires TimeoutStep(s, t).Some?
    ensures Core(TimeoutStep(s, t).value)
  {
    var oc := s.ocs[s.threads[t].oc].(swept := true);
    assert AuditsOk(s);
    hide PidsOk, FlocksOk, DiskOk, OwnersUnique, PhasesOk, OwnersAudits, RecordsOk, HeldOk;
    hide NoOwner, OnlyUncovered;
    match s.threads[t].pc.op
    case Reclaim(_) => SetAndGotoKeepsCore(s, t, oc, Done);
    case Record(audit) => GotoKeepsCore(s, t, Waiting(audit));
    case _ => GotoKeepsCore(s, t, Finishing);
  }

  lemma PopenKeepsOwners(s: World, t: Tid, audit: int)
    requires OwnersUnique(s) && OwnersAudits(s) && RecordsOk(s)
    requires t in s.threads && s.threads[t].oc in s.ocs && Advance(s, t, Popen(audit)).Some?
    ensures var s' := Advance(s, t, Popen(audit)).value; OwnersUnique(s') && OwnersAudits(s') && RecordsOk(s')
  {
    var s' := Advance(s, t, Popen(audit)).value;
    assert Owns(s.threads[t].pc) && Owns(s'.threads[t].pc);
    assert s'.audits[audit] == Audit(s.threads[t].repo, Some(t)) && audit !in s.audits && s'.disk == s.disk;
    hide Owns;
  }

  lemma PopenKeepsFiles(s: World, t: Tid, audit: int)
    requires DiskOk(s) && FlocksOk(s)
    requires t in s.threads && s.threads[t].oc in s.ocs && Advance(s, t, Popen(audit)).Some?
    ensures var s' := Advance(s, t, Popen(audit)).value; DiskOk(s') && FlocksOk(s')
  {
    assert Owns(s.threads[t].pc);
  }

  lemma PopenKeepsPids(s: World, t: Tid, audit: int)
    requires AuditsOk(s) && PidsOk(s)
    requires t in s.threads && s.threads[t].oc in s.ocs && Advance(s, t, Popen(audit)).Some?
    ensures var s' := Advance(s, t, Popen(audit)).value; AuditsOk(s') && PidsOk(s')
  {
  }

  lemma PopenIsCalm(s: World, t: Tid, audit: int, r: Repo)
    requires t in s.threads && s.threads[t].oc in s.ocs && Advance(s, t, Popen(audit)).Some?
    ensures Calm(s, Advance(s, t, Popen(audit)).value, r)
  {
    assert Owns(s.threads[t].pc);
  }

  lemma PopenKeepsHeld(s: World, t: Tid, audit: int)
    requires HeldOk(s) && t in s.threads && s.threads[t].oc in s.ocs && Advance(s, t, Popen(audit)).Some?
    ensures HeldOk(Advance(s, t, Popen(audit)).value)
  {
    hide HeldOk;
    HeldWitness(s, Advance(s, t, Popen(audit)).value);
  }

  lemma PopenKeepsPhases(s: World, t: Tid, audit: int)
    requires PhasesOk(s) && t in s.threads && s.threads[t].oc in s.ocs && Advance(s, t, Popen(audit)).Some?
    ensures PhasesOk(Advance(s, t, Popen(audit)).value)
  {
    var s' := Advance(s, t, Popen(audit)).value;
    forall r
      ensures Calm(s, s', r)
    {
      PopenIsCalm(s, t, audit, r);
    }
    hide Calm, PromotesOk;
    PhasesFrame(s, s');
  }

  lemma PopenKeepsCore(s: World, t: Tid, audit: int)
    requires Core(s) && t in s.threads && s.threads[t].oc in s.ocs
    requires Advance(s, t, Popen(audit)).Some?
    ensures Core(Advance(s, t, Popen(audit)).value)
  {
    hide PidsOk, FlocksOk, DiskOk, OwnersUnique, PhasesOk, AuditsOk, OwnersAudits, RecordsOk, HeldOk;
    PopenKeepsOwners(s, t, audit);
    PopenKeepsFiles(s, t, audit);
    PopenKeepsPids(s, t, audit);
    PopenKeepsPhases(s, t, audit);
    PopenKeepsHeld(s, t, audit);
  }

  lemma FlockKeepsFlocks(s: World, t: Tid)
    requires FlocksOk(s) && t in s.threads && s.threads[t].pc.InStore? && s.threads[t].pc.phase.Flock?
    requires StoreStep(s, t).Some?
    ensures FlocksOk(StoreStep(s, t).value)
  {
  }

  /** Locking a sentinel nobody holds. */
  lemma FlockKeepsCore(s: World, t: Tid)
    requires Core(s) && t in s.threads && s.threads[t].pc.InStore? && s.threads[t].pc.phase.Flock?
    requires StoreStep(s, t).Some?
    ensures Core(StoreStep(s, t).value)
  {
    var s' := StoreStep(s, t).value;
    FlockKeepsFlocks(s, t);
    assert MayGoto(s, t, s'.threads[t].pc);
    hide FlocksOk, DiskOk, OwnersUnique, PhasesOk, AuditsOk, OwnersAudits, HeldOk, MayGoto;
    MoveKeepsCore(s, t, s'.threads[t].pc, s'.flocks);
  }

  lemma UnlockKeepsFlocks(s: World, t: Tid)
    requires FlocksOk(s) && t in s.threads && s.threads[t].pc.InStore? && s.threads[t].pc.phase.Unlock?
    ensures StoreStep(s, t).Some? && FlocksOk(StoreStep(s, t).value)
  {
    assert Sentinel(s.threads[t]) == Some(OpRepo(s.threads[t]));
  }

  /** Unlocking the sentinel: the thread goes on with what it has. */
  lemma UnlockKeepsCore(s: World, t: Tid)
    requires Core(s) && t in s.threads && s.threads[t].pc.InStore? && s.threads[t].pc.phase.Unlock?
    ensures StoreStep(s, t).Some? && Core(StoreStep(s, t).value)
  {
    var s' := StoreStep(s, t).value;
    UnlockKeepsFlocks(s, t);
    assert MayGoto(s, t, s'.threads[t].pc);
    MoveKeepsCore(s, t, s'.threads[t].pc, s'.flocks);
  }

  /** While a thread holds a sentinel, no other thread is at work on that lock file. */
  lemma OthersElsewhere(s: World, t: Tid, u: Tid)
    requires FlocksOk(s) && t in s.threads && u in s.threads && t != u
    requires Sentinel(s.threads[t]).Some? && Sentinel(s.threads[u]).Some?
    ensures Sentinel(s.threads[t]) != Sentinel(s.threads[u])
  {
  }

  /** The thread is about to replace the lock file, by what it has written, or to remove it. */
  predicate Writes(s: World, t: Tid) {
    && t in s.threads && s.threads[t].pc.InStore?
    && (s.threads[t].pc.phase.Unlink?
        || (s.threads[t].pc.phase.TempWhole? && TempOf(s, t) == Some(Whole(s.threads[t].pc.phase.draft))))
  }

  /** Such a step changes the one file and the thread's position. */
  lemma WriteFrame(s: World, t: Tid)
    requires Writes(s, t)
    ensures StoreStep(s, t).Some?
    ensures var s' := StoreStep(s, t).value;
      && s'.audits == s.audits && s'.ocs == s.ocs && s'.flocks == s.flocks && s'.others == s.others
      && s'.threads == s.threads[t := s.threads[t].(pc := InStore(s.threads[t].pc.op, Unlock(true)))]
      && forall r :: r != OpRepo(s.threads[t]) ==>
           (r in s'.disk <==> r in s.disk) && (r in s.disk ==> s'.disk[r] == s.disk[r])
  {
  }

  /** Every live audit that the file could cover still has its dispatcher. */
  lemma FreeToWrite(s: World, t: Tid, a: int)
    requires Writes(s, t) && PhaseOk(s, s.threads[t]) && OwnersAudits(s)
    requires a in s.audits && s.audits[a].repo == OpRepo(s.threads[t])
    ensures s.audits[a].parent.Some? || Uncovered(s, a)
  {
  }

  /** After the step the file names no audit that has lost its dispatcher. */
  lemma WriteUncovers(s: World, t: Tid, a: int)
    requires Writes(s, t) && PhaseOk(s, s.threads[t]) && OwnersAudits(s) && RecordsOk(s)
    requires StoreStep(s, t).Some?
    ensures Uncovered(s, a) ==> Uncovered(StoreStep(s, t).value, a)
    ensures Uncovered(StoreStep(s, t).value, a) ==> Uncovered(s, a)
  {
    if a in s.audits && s.audits[a].repo == OpRepo(s.threads[t]) { FreeToWrite(s, t, a); }
  }

  /** Afterwards the writing thread owns the file that it wrote, and nobody else does. */
  lemma WriteOwns(s: World, t: Tid)
    requires Writes(s, t) && PhaseOk(s, s.threads[t]) && DiskOk(s) && OwnersUnique(s) && StoreStep(s, t).Some?
    ensures var s' := StoreStep(s, t).value;
      var r := OpRepo(s.threads[t]);
      && (r in s'.disk ==> s'.disk[r] == Whole(s'.disk[r].payload) && s'.disk[r].payload.ocPid == s.threads[t].oc)
      && (Owns(s'.threads[t].pc) ==> s.threads[t].repo == r && r in s'.disk)
      && forall u :: u in s.threads && u != t && Owns(s.threads[u].pc) ==> s.threads[u].repo != r
  {
    hide OnlyUncovered, AfterRead, AfterChecks, AfterUnlock;
    match s.threads[t].pc.op
    case Release =>
    case _ =>
  }

  lemma WriteKeepsDisk(s: World, t: Tid)
    requires Writes(s, t) && PhaseOk(s, s.threads[t]) && DiskOk(s) && OwnersUnique(s) && StoreStep(s, t).Some?
    ensures DiskOk(StoreStep(s, t).value) && OwnersUnique(StoreStep(s, t).value)
  {
    WriteOwns(s, t);
    WriteFrame(s, t);
    hide StoreStep, PhaseOk, Owns;
  }

  lemma WriteKeepsAudits(s: World, t: Tid)
    requires Writes(s, t) && PhaseOk(s, s.threads[t]) && OwnersAudits(s) && RecordsOk(s) && AuditsOk(s)
    requires StoreStep(s, t).Some?
    ensures var s' := StoreStep(s, t).value; AuditsOk(s') && RecordsOk(s') && OwnersAudits(s')
  {
    var s' := StoreStep(s, t).value;
    forall a
      ensures Uncovered(s, a) <==> Uncovered(s', a)
    {
      WriteUncovers(s, t, a);
    }
    assert s.threads[t].pc.op.Acquire? ==> OnlyUncovered(s, s.threads[t].repo);
    WriteFrame(s, t);
    hide StoreStep, Uncovered, PhaseOk;
  }

  /** What another thread has learnt concerns another file. */
  lemma WriteKeepsPhases(s: World, t: Tid, u: Tid)
    requires Writes(s, t) && FlocksOk(s) && StoreStep(s, t).Some?
    requires u in s.threads && s.threads[u].pc.InStore? && u != t && PhaseOk(s, s.threads[u])
    ensures PhaseOk(StoreStep(s, t).value, s.threads[u])
  {
    if Sentinel(s.threads[u]).Some? { OthersElsewhere(s, t, u); }
    WriteFrame(s, t);
    hide StoreStep, FlocksOk, PhaseOk;
    PhaseFrame(s, StoreStep(s, t).value, s.threads[u]);
  }

  lemma WriteKeepsHeld(s: World, t: Tid)
    requires Writes(s, t) && FlocksOk(s) && PidsOk(s) && HeldOk(s) && StoreStep(s, t).Some?
    ensures var s' := StoreStep(s, t).value; FlocksOk(s') && PidsOk(s') && HeldOk(s')
  {
    WriteFrame(s, t);
    hide StoreStep, HeldOk;
    HeldWitness(s, StoreStep(s, t).value);
  }

  /** Replacing the file: acquire gains the lock, record names the audit. Removing it:
      release by its owner, or reclaim of a dead lock. */
  lemma WriteKeepsCore(s: World, t: Tid)
    requires Core(s) && Writes(s, t)
    ensures StoreStep(s, t).Some? && Core(StoreStep(s, t).value)
  {
    WriteFrame(s, t);
    assert PhaseOk(s, s.threads[t]);
    hide StoreStep, FlocksOk, DiskOk, OwnersUnique, AuditsOk, OwnersAudits, RecordsOk, HeldOk, PidsOk, PhaseOk;
    WriteKeepsDisk(s, t);
    WriteKeepsAudits(s, t);
    WriteKeepsHeld(s, t);
    var s' := StoreStep(s, t).value;
    forall u | u in s'.threads && s'.threads[u].pc.InStore?
      ensures PhaseOk(s', s'.threads[u])
    {
      if u != t { WriteKeepsPhases(s, t, u); }
    }
  }

  /** The thread reads the file or checks a PID it found there. */
  predicate Checks(s: World, t: Tid) {
    t in s.threads && s.threads[t].pc.InStore?
    && (var phase := s.threads[t].pc.phase; phase.Read? || phase.CheckOc? || phase.CheckAudit?)
  }

  /** A repo whose file names no live audit, and which has no owner, has only uncovered ones. */
  lemma DeadFileCoversNone(s: World, r: Repo)
    requires AuditsOk(s) && NoOwner(s, r) && PidsOk(s)
    requires r in s.disk ==> s.disk[r].Whole? && !PidAlive(s.Live(), s.disk[r].payload.auditPid)
    ensures OnlyUncovered(s, r)
  {
    forall a | a in s.audits && s.audits[a].repo == r
      ensures Uncovered(s, a)
    {
      assert s.audits[a].parent.Some? ==> Owns(s.threads[s.audits[a].parent.value].pc);
      assert a in s.Live();
    }
  }

  /** An owner's file names its live process. */
  lemma DeadFileHasNoOwner(s: World, r: Repo)
    requires DiskOk(s) && PidsOk(s)
    requires r in s.disk ==> s.disk[r].Whole? && !PidAlive(s.Live(), Some(s.disk[r].payload.ocPid))
    ensures NoOwner(s, r)
  {
    forall t | t in s.threads && s.threads[t].repo == r
      ensures !Owns(s.threads[t].pc)
    {
      assert s.threads[t].oc in s.Live();
    }
  }

  /** What is found dead is unowned, and covers no live audit. */
  lemma DeadFile(s: World, r: Repo)
    requires DiskOk(s) && AuditsOk(s) && PidsOk(s)
    ensures (r in s.disk ==> s.disk[r].Whole? && !PidAlive(s.Live(), Some(s.disk[r].payload.ocPid))) ==> NoOwner(s, r)
    ensures r !in s.disk ==> OnlyUncovered(s, r)
    ensures NoOwner(s, r) && r in s.disk && !PidAlive(s.Live(), s.disk[r].payload.auditPid) ==> OnlyUncovered(s, r)
    ensures r in s.disk ==> s.disk[r].Whole?
  {
    if r in s.disk ==> s.disk[r].Whole? && !PidAlive(s.Live(), Some(s.disk[r].payload.ocPid)) {
      DeadFileHasNoOwner(s, r);
    }
    if NoOwner(s, r) && (r in s.disk ==> !PidAlive(s.Live(), s.disk[r].payload.auditPid)) {
      DeadFileCoversNone(s, r);
    }
  }

  /** The thread stays in its operation, moves on to `phase`, and knows what that claims. */
  ghost predicate Learns(s: World, t: Tid, phase: Phase)
    requires t in s.threads && s.threads[t].pc.InStore?
  {
    var pc := InStore(s.threads[t].pc.op, phase);
    !phase.Flock? && (Owns(pc) ==> Owns(s.threads[t].pc)) && PhaseOk(s, s.threads[t].(pc := pc))
  }

  lemma ReadLearns(s: World, t: Tid)
    requires t in s.threads && s.threads[t].pc.InStore? && s.threads[t].pc.phase.Read?
    requires DiskOk(s) && AuditsOk(s) && PidsOk(s)
    ensures var r := OpRepo(s.threads[t]);
      Learns(s, t, AfterRead(s.threads[t], if r in s.disk then Some(s.disk[r]) else None))
  {
    DeadFile(s, OpRepo(s.threads[t]));
    hide DiskOk, AuditsOk, PidsOk, NoOwner, OnlyUncovered, PidAlive;
  }

  lemma CheckOcLearns(s: World, t: Tid, p: Payload)
    requires t in s.threads && s.threads[t].pc.InStore? && s.threads[t].pc.phase == CheckOc(p)
    requires PhaseOk(s, s.threads[t]) && DiskOk(s) && AuditsOk(s) && PidsOk(s)
    ensures Learns(s, t, if PidAlive(s.Live(), Some(p.ocPid)) then Unlock(false) else CheckAudit(p))
  {
    DeadFile(s, OpRepo(s.threads[t]));
    hide DiskOk, AuditsOk, PidsOk, NoOwner, OnlyUncovered, PidAlive;
  }

  lemma CheckAuditLearns(s: World, t: Tid, p: Payload)
    requires t in s.threads && s.threads[t].pc.InStore? && s.threads[t].pc.phase == CheckAudit(p)
    requires PhaseOk(s, s.threads[t]) && DiskOk(s) && AuditsOk(s) && PidsOk(s)
    ensures Learns(s, t, if PidAlive(s.Live(), p.auditPid) then Unlock(false) else AfterChecks(s.threads[t]))
  {
    DeadFile(s, OpRepo(s.threads[t]));
    hide DiskOk, AuditsOk, PidsOk, NoOwner, OnlyUncovered, PidAlive;
  }

  /** What a check finds is what the next place claims. */
  lemma CheckLearns(s: World, t: Tid) returns (phase: Phase)
    requires Checks(s, t) && PhaseOk(s, s.threads[t]) && DiskOk(s) && AuditsOk(s) && PidsOk(s)
    ensures StoreStep(s, t) == Some(s.Goto(t, InStore(s.threads[t].pc.op, phase))) && Learns(s, t, phase)
  {
    hide PhaseOk, DiskOk, AuditsOk, PidsOk, Learns, PidAlive;
    phase := StoreStep(s, t).value.threads[t].pc.phase;
    match s.threads[t].pc.phase
    case Read => ReadLearns(s, t);
    case CheckOc(p) => CheckOcLearns(s, t, p);
    case CheckAudit(p) => CheckAuditLearns(s, t, p);
  }

  /** Reading and checking change nothing but the thread's own position. */
  lemma CheckKeepsCore(s: World, t: Tid)
    requires Core(s) && Checks(s, t)
    ensures StoreStep(s, t).Some? && Core(StoreStep(s, t).value)
  {
    assert PhaseOk(s, s.threads[t]);
    var phase := CheckLearns(s, t);
    hide StoreStep, PidsOk, FlocksOk, DiskOk, OwnersUnique, PhasesOk, OwnersAudits, RecordsOk, HeldOk, PhaseOk;
    var pc := InStore(s.threads[t].pc.op, phase);
    assert MayGoto(s, t, pc);
    GotoKeepsCore(s, t, pc);
  }

  lemma TempMoves(s: World, t: Tid) returns (phase: Phase, temps: map<Tid, LockFile>)
    requires t in s.threads && s.threads[t].pc.InStore? && PhaseOk(s, s.threads[t])
    requires s.threads[t].pc.phase.Draft? || s.threads[t].pc.phase.TempTorn?
    ensures StoreStep(s, t) == Some(s.(temps := temps).Goto(t, InStore(s.threads[t].pc.op, phase)))
    ensures Learns(s, t, phase)
  {
    hide NoOwner, OnlyUncovered;
    phase := StoreStep(s, t).value.threads[t].pc.phase;
    temps := StoreStep(s, t).value.temps;
  }

  /** Writing the temporary file. */
  lemma TempKeepsCore(s: World, t: Tid)
    requires Core(s) && t in s.threads && s.threads[t].pc.InStore?
    requires s.threads[t].pc.phase.Draft? || s.threads[t].pc.phase.TempTorn?
    ensures StoreStep(s, t).Some? && Core(StoreStep(s, t).value)
  {
    assert PhaseOk(s, s.threads[t]);
    var phase, temps := TempMoves(s, t);
    hide StoreStep, PidsOk, FlocksOk, DiskOk, OwnersUnique, PhasesOk, OwnersAudits, RecordsOk, HeldOk, PhaseOk;
    var pc := InStore(s.threads[t].pc.op, phase);
    assert MayGoto(s, t, pc);
    GotoKeepsCore(s, t, pc);
    CoreIgnores(s.Goto(t, pc), temps, s.handles);
    assert s.(temps := temps).Goto(t, pc) == s.Goto(t, pc).(temps := temps, handles := s.handles);
  }

  lemma AdvanceKeepsCore(s: World, t: Tid, move: Move)
    requires Core(s) && Local(s) && t in s.threads && s.threads[t].oc in s.ocs
    requires Advance(s, t, move).Some?
    ensures Core(Advance(s, t, move).value)
  {
    var th := s.threads[t];
    assert ThreadOk(s, t);
    match move
    case PickSweep(target) =>
      GotoKeepsCore(s, t, InStore(Reclaim(target), Flock));
    case EndSweep =>
      SetAndGotoKeepsCore(s, t, s.ocs[th.oc].(swept := true), WantMutex);
    case FlockTimeout =>
      TimeoutKeepsCore(s, t);
    case Popen(audit) =>
      PopenKeepsCore(s, t, audit);
    case PopenFails =>
      ReleaseKeepsCore(s, t);
    case StrayRelease =>
      ReleaseKeepsCore(s, t);
    case Step =>
      if !th.pc.InStore? {
        RegistryKeepsCore(s, t);
      } else {
        match th.pc.phase
        case Flock => FlockKeepsCore(s, t);
        case TempWhole(_) => WriteKeepsCore(s, t);
        case Unlink => WriteKeepsCore(s, t);
        case Unlock(_) => UnlockKeepsCore(s, t);
        case Draft(_) => TempKeepsCore(s, t);
        case TempTorn(_) => TempKeepsCore(s, t);
        case _ => CheckKeepsCore(s, t);
      }
  }

  /** Every action keeps the invariant. */
  lemma NextKeepsInv(s: World, act: Action)
    requires Inv(s) && Next(s, act).Some?
    ensures Inv(Next(s, act).value)
  {
    NextKeepsLocal(s, act);
    match act
    case Crash(pid) => CrashKeepsCore(s, pid);
    case Dispatch(t, pid, repo, runId) => DispatchKeepsCore(s, t, Thread(pid, repo, runId, Entered));
    case Act(t, move) => AdvanceKeepsCore(s, t, move);
    case _ => EnvironmentKeepsCore(s, act);
  }

  /** The invariant holds at the end of every run. */
  lemma {:induction false} ExecKeepsInv(s: World, acts: seq<Action>)
    requires Inv(s) && Exec(s, acts).Some?
    ensures Inv(Exec(s, acts).value)
    decreases |acts|
  {
    if acts != [] {
      NextKeepsInv(s, acts[0]);
      ExecKeepsInv(Next(s, acts[0]).value, acts[1..]);
    }
  }
}
