/**
 Runs of the dispatch protocol built step by step.

 A store operation that nobody interrupts does what its sequential description says,
 and the proviso of the safety theorem is needed: once an audit is alive that a live
 lock file does not cover, a second audit of the same repo can be dispatched.
 */
module DispatchRuns {
  import opened Prelude
  import opened LockFiles
  import opened DispatchProtocol
  import opened LockStore

  /** The same thread steps n times. */
  function Steps(t: Tid, n: nat): seq<Action> {
    if n == 0 then [] else [Act(t, Step)] + Steps(t, n - 1)
  }

  lemma ExecCons(s: World, act: Action, acts: seq<Action>)
    requires Next(s, act).Some?
    ensures Exec(s, [act] + acts) == Exec(Next(s, act).value, acts)
  {
    assert ([act] + acts)[1..] == acts;
  }

  lemma {:induction false} ExecAppend(s: World, xs: seq<Action>, ys: seq<Action>)
    requires Exec(s, xs).Some?
    ensures Exec(s, xs + ys) == Exec(Exec(s, xs).value, ys)
    ensures LostIn(s, xs) + LostIn(Exec(s, xs).value, ys) == LostIn(s, xs + ys)
    decreases |xs|
  {
    if xs == [] {
      assert xs + ys == ys;
    } else {
      assert (xs + ys)[1..] == xs[1..] + ys;
      ExecAppend(Next(s, xs[0]).value, xs[1..], ys);
    }
  }

  /** Some number of steps of thread t leads from s to s'. */
  ghost predicate Runs(s: World, t: Tid, s': World) {
    exists n: nat :: Exec(s, Steps(t, n)) == Some(s')
  }

  lemma RunsNone(s: World, t: Tid)
    ensures Runs(s, t, s)
  {
    assert Exec(s, Steps(t, 0)) == Some(s);
  }

  lemma RunsStep(s: World, t: Tid, s': World)
    requires Next(s, Act(t, Step)).Some? && Runs(Next(s, Act(t, Step)).value, t, s')
    ensures Runs(s, t, s')
  {
    var n: nat :| Exec(Next(s, Act(t, Step)).value, Steps(t, n)) == Some(s');
    ExecCons(s, Act(t, Step), Steps(t, n));
    assert Steps(t, n + 1) == [Act(t, Step)] + Steps(t, n);
  }

  /** The lock file of this repo, if there is one. */
  function FileOf(disk: map<Repo, LockFile>, r: Repo): Option<LockFile> {
    if r in disk then Some(disk[r]) else None
  }

  /** The world a thread leaves behind when it unlocks the sentinel of repo r. */
  function Left(s: World, t: Tid, r: Repo, disk: map<Repo, LockFile>, pc: Pc): World
    requires t in s.threads
  {
    s.(disk := disk, flocks := s.flocks - {r}).Goto(t, pc)
  }

  lemma LeftAfterGoto(s: World, t: Tid, r: Repo, disk: map<Repo, LockFile>, pc: Pc, via: Pc)
    requires t in s.threads
    ensures Left(s.Goto(t, via), t, r, disk, pc) == Left(s, t, r, disk, pc)
  {
    assert s.Goto(t, via).Goto(t, pc).threads == s.Goto(t, pc).threads;
  }

  /** One step that only moves the thread, then the rest of the operation. */
  lemma RunPhase(s: World, t: Tid, phase: Phase, r: Repo, disk: map<Repo, LockFile>, pc: Pc)
    requires t in s.threads && s.threads[t].oc in s.ocs && s.threads[t].pc.InStore?
    requires var s1 := s.Goto(t, InStore(s.threads[t].pc.op, phase));
      StoreStep(s, t) == Some(s1) && Runs(s1, t, Left(s1, t, r, disk, pc))
    ensures Runs(s, t, Left(s, t, r, disk, pc))
  {
    LeftAfterGoto(s, t, r, disk, pc, InStore(s.threads[t].pc.op, phase));
    RunsStep(s, t, Left(s, t, r, disk, pc));
  }

  /** The last step: the sentinel is unlocked. */
  lemma RunUnlock(s: World, t: Tid, ok: bool)
    requires t in s.threads && s.threads[t].oc in s.ocs && s.threads[t].pc.InStore?
    requires s.threads[t].pc.phase == Unlock(ok)
    ensures Runs(s, t, Left(s, t, OpRepo(s.threads[t]), s.disk, AfterUnlock(s.threads[t].pc.op, ok)))
  {
    var s' := StoreStep(s, t).value;
    RunsNone(s', t);
    RunsStep(s, t, s');
  }

  /** The rename, and then the sentinel is unlocked. */
  lemma RunRename(s: World, t: Tid, p: Payload)
    requires t in s.threads && s.threads[t].oc in s.ocs && s.threads[t].pc.InStore?
    requires s.threads[t].pc.phase == TempWhole(p) && t in s.temps && s.temps[t] == Whole(p)
    ensures var r := OpRepo(s.threads[t]);
      var w := s.(temps := s.temps - {t});
      Runs(s, t, Left(w, t, r, s.disk[r := Whole(p)], AfterUnlock(s.threads[t].pc.op, true)))
  {
    var op := s.threads[t].pc.op;
    var r := OpRepo(s.threads[t]);
    var disk := s.disk[r := Whole(p)];
    var w := s.(temps := s.temps - {t});
    var s1 := StoreStep(s, t).value;
    RunUnlock(s1, t, true);
    var end := Left(s1, t, r, disk, AfterUnlock(op, true));
    assert end == Left(w, t, r, disk, AfterUnlock(op, true)) by {
      assert end.threads == s.Goto(t, AfterUnlock(op, true)).threads;
    }
    RunsStep(s, t, end);
  }

  /** The file is replaced by the drafted payload and the sentinel unlocked. */
  lemma RunReplace(s: World, t: Tid, p: Payload)
    requires t in s.threads && s.threads[t].oc in s.ocs && s.threads[t].pc.InStore? && t !in s.temps
    requires s.threads[t].pc.phase == Draft(p)
    ensures var r := OpRepo(s.threads[t]);
      Runs(s, t, Left(s, t, r, s.disk[r := Whole(p)], AfterUnlock(s.threads[t].pc.op, true)))
  {
    var op := s.threads[t].pc.op;
    var r := OpRepo(s.threads[t]);
    var disk := s.disk[r := Whole(p)];
    var s1 := StoreStep(s, t).value;
    var s2 := StoreStep(s1, t).value;
    RunRename(s2, t, p);
    var end := Left(s, t, r, disk, AfterUnlock(op, true));
    assert end == Left(s2.(temps := s2.temps - {t}), t, r, disk, AfterUnlock(op, true)) by {
      assert end.threads == s2.Goto(t, AfterUnlock(op, true)).threads;
      assert s2.temps - {t} == s.temps;
    }
    hide Runs;
    RunsStep(s1, t, end);
    RunsStep(s, t, end);
  }

  /** The file is removed and the sentinel unlocked. */
  lemma RunUnlink(s: World, t: Tid)
    requires t in s.threads && s.threads[t].oc in s.ocs && s.threads[t].pc.InStore?
    requires s.threads[t].pc.phase == Unlink
    ensures var r := OpRepo(s.threads[t]);
      Runs(s, t, Left(s, t, r, s.disk - {r}, AfterUnlock(s.threads[t].pc.op, true)))
  {
    var op := s.threads[t].pc.op;
    var r := OpRepo(s.threads[t]);
    var s1 := StoreStep(s, t).value;
    RunUnlock(s1, t, true);
    var end := Left(s1, t, r, s.disk - {r}, AfterUnlock(op, true));
    assert end == Left(s, t, r, s.disk - {r}, AfterUnlock(op, true)) by {
      assert end.threads == s.Goto(t, AfterUnlock(op, true)).threads;
    }
    RunsStep(s, t, end);
  }

  /** The result and the directory that the sequential description gives for an operation. */
  function OperationSpec(s: World, th: Thread): (bool, map<Repo, LockFile>)
    requires th.pc.InStore?
  {
    match th.pc.op
    case Acquire =>
      var (result, disk) := AcquireSpec(s.disk, s.Live(), NewPayload(th.repo, th.runId, th.oc));
      (result.Ok?, disk)
    case Record(audit) =>
      var (result, disk) := RecordSpec(s.disk, th.repo, Some(audit), Some(audit));
      (result.Ok?, disk)
    case Release =>
      ReleaseSpec(s.disk, th.repo)
    case Reclaim(target) =>
      ReclaimSpec(s.disk, s.Live(), target)
  }

  /** What is left of an operation that must still check whether payload p is alive. */
  lemma ChecksAlone(s: World, t: Tid, p: Payload)
    requires t in s.threads && s.threads[t].oc in s.ocs && s.threads[t].pc.InStore? && t !in s.temps
    requires s.threads[t].pc.phase == CheckOc(p)
    requires s.threads[t].pc.op.Acquire? || s.threads[t].pc.op.Reclaim?
    ensures var th := s.threads[t];
      var r := OpRepo(th);
      var dead := !IsAlive(s.Live(), p);
      var disk := if !dead then s.disk
                  else if th.pc.op.Acquire? then s.disk[r := Whole(NewPayload(r, th.runId, th.oc))]
                  else s.disk - {r};
      Runs(s, t, Left(s, t, r, disk, AfterUnlock(th.pc.op, dead)))
  {
    var th := s.threads[t];
    var op := th.pc.op;
    var r := OpRepo(th);
    var s1 := StoreStep(s, t).value;
    if PidAlive(s.Live(), Some(p.ocPid)) {
      RunUnlock(s1, t, false);
      RunPhase(s, t, Unlock(false), r, s.disk, AfterUnlock(op, false));
    } else {
      AuditCheckAlone(s1, t, p);
      var dead := !PidAlive(s.Live(), p.auditPid);
      var disk := if !dead then s.disk
                  else if op.Acquire? then s.disk[r := Whole(NewPayload(r, th.runId, th.oc))]
                  else s.disk - {r};
      RunPhase(s, t, CheckAudit(p), r, disk, AfterUnlock(op, dead));
    }
  }

  lemma AuditCheckAlone(s: World, t: Tid, p: Payload)
    requires t in s.threads && s.threads[t].oc in s.ocs && s.threads[t].pc.InStore? && t !in s.temps
    requires s.threads[t].pc.phase == CheckAudit(p)
    requires s.threads[t].pc.op.Acquire? || s.threads[t].pc.op.Reclaim?
    ensures var th := s.threads[t];
      var r := OpRepo(th);
      var dead := !PidAlive(s.Live(), p.auditPid);
      var disk := if !dead then s.disk
                  else if th.pc.op.Acquire? then s.disk[r := Whole(NewPayload(r, th.runId, th.oc))]
                  else s.disk - {r};
      Runs(s, t, Left(s, t, r, disk, AfterUnlock(th.pc.op, dead)))
  {
    var th := s.threads[t];
    var op := th.pc.op;
    var r := OpRepo(th);
    var s1 := StoreStep(s, t).value;
    if PidAlive(s.Live(), p.auditPid) {
      RunUnlock(s1, t, false);
      RunPhase(s, t, Unlock(false), r, s.disk, AfterUnlock(op, false));
    } else if op.Acquire? {
      var draft := NewPayload(r, th.runId, th.oc);
      RunReplace(s1, t, draft);
      RunPhase(s, t, Draft(draft), r, s.disk[r := Whole(draft)], AfterUnlock(op, true));
    } else {
      RunUnlink(s1, t);
      RunPhase(s, t, Unlink, r, s.disk - {r}, AfterUnlock(op, true));
    }
  }

  /** A thread that has just locked the sentinel and is not interrupted. */
  lemma ReadAlone(s: World, t: Tid)
    requires t in s.threads && s.threads[t].oc in s.ocs && s.threads[t].pc.InStore? && t !in s.temps
    requires s.threads[t].pc.phase == Read
    ensures var th := s.threads[t];
      var (ok, disk) := OperationSpec(s, th);
      Runs(s, t, Left(s, t, OpRepo(th), disk, AfterUnlock(th.pc.op, ok)))
  {
    var th := s.threads[t];
    var op := th.pc.op;
    var r := OpRepo(th);
    var (ok, disk) := OperationSpec(s, th);
    var s1 := StoreStep(s, t).value;
    var phase := s1.threads[t].pc.phase;
    assert r !in s.disk ==> s.disk - {r} == s.disk;
    match phase {
      case Unlock(_) => RunUnlock(s1, t, false);
      case Draft(p) => RunReplace(s1, t, p);
      case Unlink => RunUnlink(s1, t);
      case CheckOc(p) => ChecksAlone(s1, t, p);
    }
    RunPhase(s, t, phase, r, disk, AfterUnlock(op, ok));
  }

  lemma SpecIgnoresPhase(s: World, th: Thread, flocks: map<Repo, Tid>, threads: map<Tid, Thread>, phase: Phase)
    requires th.pc.InStore?
    ensures OperationSpec(s.(flocks := flocks, threads := threads), th.(pc := InStore(th.pc.op, phase)))
         == OperationSpec(s, th)
  {
  }

  /** A store operation that nobody interrupts ends with the result and the directory
      that its sequential description gives, and with the sentinel free again. */
  lemma OperationAlone(s: World, t: Tid)
    requires t in s.threads && s.threads[t].oc in s.ocs && s.threads[t].pc.InStore? && t !in s.temps
    requires s.threads[t].pc.phase == Flock && OpRepo(s.threads[t]) !in s.flocks
    ensures var th := s.threads[t];
      var (ok, disk) := OperationSpec(s, th);
      Runs(s, t, s.(disk := disk).Goto(t, AfterUnlock(th.pc.op, ok)))
  {
    var th := s.threads[t];
    var r := OpRepo(th);
    var (ok, disk) := OperationSpec(s, th);
    var s1 := StoreStep(s, t).value;
    ReadAlone(s1, t);
    hide OperationSpec, Runs;
    SpecIgnoresPhase(s, th, s1.flocks, s1.threads, Read);
    var end := s.(disk := disk).Goto(t, AfterUnlock(th.pc.op, ok));
    assert end == Left(s1, t, r, disk, AfterUnlock(th.pc.op, ok)) by {
      assert s1.flocks - {r} == s.flocks;
      assert end.threads == s1.Goto(t, AfterUnlock(th.pc.op, ok)).threads;
    }
    RunsStep(s, t, end);
  }

  lemma {:induction false} StepsAppend(t: Tid, m: nat, n: nat)
    ensures Steps(t, m) + Steps(t, n) == Steps(t, m + n)
    decreases m
  {
    if m == 0 {
      assert [] + Steps(t, n) == Steps(t, n);
    } else {
      StepsAppend(t, m - 1, n);
      assert [Act(t, Step)] + Steps(t, m - 1) + Steps(t, n) == [Act(t, Step)] + (Steps(t, m - 1) + Steps(t, n));
    }
  }

  lemma RunsOn(s: World, t: Tid, s1: World, s2: World)
    requires Runs(s, t, s1) && Runs(s1, t, s2)
    ensures Runs(s, t, s2)
  {
    var m: nat :| Exec(s, Steps(t, m)) == Some(s1);
    var n: nat :| Exec(s1, Steps(t, n)) == Some(s2);
    ExecAppend(s, Steps(t, m), Steps(t, n));
    StepsAppend(t, m, n);
  }

  /** One step. */
  lemma RunsOne(s: World, t: Tid)
    requires Next(s, Act(t, Step)).Some?
    ensures Runs(s, t, Next(s, Act(t, Step)).value)
  {
    RunsNone(Next(s, Act(t, Step)).value, t);
    RunsStep(s, t, Next(s, Act(t, Step)).value);
  }

  /** What an acquire leaves behind when nobody interrupts it, as the registry describes it. */
  function Acquired(s: World, t: Tid): World
    requires t in s.threads && s.threads[t].oc in s.ocs
  {
    var th := s.threads[t];
    var oc := s.ocs[th.oc];
    var (result, disk) := AcquireSpec(s.disk, s.Live(), Payload(th.repo, th.runId, th.oc, None, None));
    if th.repo in oc.held then s.Goto(t, Done)
    else if result.Err? then s.(disk := disk).Goto(t, Done)
    else
      s.(disk := disk, handles := s.handles[t := false])
       .SetOc(th.oc, oc.(held := oc.held + {th.repo})).Goto(t, Held)
  }

  /** The thread is at this place with the registry locked, and its process holds these repos. */
  function Locking(s: World, t: Tid, held: set<Repo>, pc: Pc): World
    requires t in s.threads && s.threads[t].oc in s.ocs
  {
    s.SetOc(s.threads[t].oc, s.ocs[s.threads[t].oc].(held := held, mutex := Some(t))).Goto(t, pc)
  }

  lemma LockingGoto(s: World, t: Tid, held: set<Repo>, pc: Pc, disk: map<Repo, LockFile>, pc': Pc)
    requires t in s.threads && s.threads[t].oc in s.ocs
    ensures Locking(s, t, held, pc).(disk := disk).Goto(t, pc') == Locking(s.(disk := disk), t, held, pc')
  {
    assert Locking(s, t, held, pc).Goto(t, pc').threads == s.Goto(t, pc').threads;
  }

  /** The thread locks the registry and goes on to the store, unless the repo is held. */
  lemma EnterAlone(s: World, t: Tid)
    requires t in s.threads && s.threads[t].oc in s.ocs
    requires s.threads[t].pc == WantMutex && s.ocs[s.threads[t].oc].mutex.None?
    ensures var oc := s.ocs[s.threads[t].oc];
      Runs(s, t, Locking(s, t, oc.held, if s.threads[t].repo in oc.held then Finishing else InStore(Acquire, Flock)))
  {
    var oc := s.ocs[s.threads[t].oc];
    var s1 := Locking(s, t, oc.held, HaveMutex);
    assert Next(s, Act(t, Step)) == Some(s1);
    RunsOne(s, t);
    var pc := if s.threads[t].repo in oc.held then Finishing else InStore(Acquire, Flock);
    LockingGoto(s, t, oc.held, HaveMutex, s.disk, pc);
    assert Next(s1, Act(t, Step)) == Some(s1.Goto(t, pc));
    RunsOne(s1, t);
    RunsOn(s, t, s1, s1.Goto(t, pc));
  }

  /** A store operation under the registry's lock. */
  lemma StoreAlone(s: World, t: Tid, held: set<Repo>, op: Op)
    requires t in s.threads && s.threads[t].oc in s.ocs && t !in s.temps && s.threads[t].repo !in s.flocks
    requires !op.Reclaim?
    requires Runs(s, t, Locking(s, t, held, InStore(op, Flock)))
    ensures var (ok, disk) := OperationSpec(s, s.threads[t].(pc := InStore(op, Flock)));
      Runs(s, t, Locking(s.(disk := disk), t, held, AfterUnlock(op, ok)))
  {
    var s1 := Locking(s, t, held, InStore(op, Flock));
    assert s1.threads[t] == s.threads[t].(pc := InStore(op, Flock));
    assert s1.Live() == s.Live();
    var (ok, disk) := OperationSpec(s, s.threads[t].(pc := InStore(op, Flock)));
    assert OperationSpec(s1, s1.threads[t]) == (ok, disk);
    OperationAlone(s1, t);
    hide OperationSpec, Runs;
    LockingGoto(s, t, held, InStore(op, Flock), disk, AfterUnlock(op, ok));
    RunsOn(s, t, s1, s1.(disk := disk).Goto(t, AfterUnlock(op, ok)));
  }

  /** A dispatch that has swept and finds the registry free, and is not interrupted: it holds
      the repo in memory and on disk, or in neither, and the registry is free again. */
  lemma AcquireAlone(s: World, t: Tid)
    requires t in s.threads && s.threads[t].oc in s.ocs && t !in s.temps
    requires s.threads[t].pc == WantMutex && s.ocs[s.threads[t].oc].mutex.None? && s.threads[t].repo !in s.flocks
    ensures Runs(s, t, Acquired(s, t))
  {
    var oc := s.ocs[s.threads[t].oc];
    EnterAlone(s, t);
    hide Runs;
    if s.threads[t].repo in oc.held {
      FinishAlone(s, t, oc.held, s.disk);
    } else {
      StoreAlone(s, t, oc.held, Acquire);
      var (ok, disk) := OperationSpec(s, s.threads[t].(pc := InStore(Acquire, Flock)));
      if ok { CommitAlone(s, t, disk); } else { FinishAlone(s, t, oc.held, disk); }
    }
  }

  /** The thread lets the registry go. */
  lemma FinishAlone(s: World, t: Tid, held: set<Repo>, disk: map<Repo, LockFile>)
    requires t in s.threads && s.threads[t].oc in s.ocs && s.ocs[s.threads[t].oc].mutex.None?
    requires Runs(s, t, Locking(s.(disk := disk), t, held, Finishing))
    ensures var oc := s.ocs[s.threads[t].oc].(held := held);
      Runs(s, t, s.(disk := disk).SetOc(s.threads[t].oc, oc).Goto(t, Done))
    ensures held == s.ocs[s.threads[t].oc].held ==> Runs(s, t, s.(disk := disk).Goto(t, Done))
  {
    var pid := s.threads[t].oc;
    var s1 := Locking(s.(disk := disk), t, held, Finishing);
    var s2 := s.(disk := disk).SetOc(pid, s.ocs[pid].(held := held)).Goto(t, Done);
    assert Next(s1, Act(t, Step)) == Some(s2) by {
      assert Next(s1, Act(t, Step)).value.threads == s.Goto(t, Done).threads;
      assert Next(s1, Act(t, Step)).value.ocs == s.ocs[pid := s.ocs[pid].(held := held)];
    }
    RunsOne(s1, t);
    hide Runs;
    RunsOn(s, t, s1, s2);
    assert held == s.ocs[pid].held ==> s.ocs[pid := s.ocs[pid].(held := held)] == s.ocs;
  }

  /** The thread puts the repo in `_held` and lets the registry go. */
  lemma CommitAlone(s: World, t: Tid, disk: map<Repo, LockFile>)
    requires t in s.threads && s.threads[t].oc in s.ocs && s.ocs[s.threads[t].oc].mutex.None?
    requires Runs(s, t, Locking(s.(disk := disk), t, s.ocs[s.threads[t].oc].held, Committing))
    ensures var th := s.threads[t];
      Runs(s, t, s.(disk := disk, handles := s.handles[t := false])
        .SetOc(th.oc, s.ocs[th.oc].(held := s.ocs[th.oc].held + {th.repo})).Goto(t, Held))
  {
    var th := s.threads[t];
    var oc := s.ocs[th.oc].(held := s.ocs[th.oc].held + {th.repo});
    var s1 := Locking(s.(disk := disk), t, s.ocs[th.oc].held, Committing);
    var s2 := s.(disk := disk, handles := s.handles[t := false]).SetOc(th.oc, oc).Goto(t, Held);
    assert Next(s1, Act(t, Step)) == Some(s2) by {
      assert Next(s1, Act(t, Step)).value.threads == s.Goto(t, Held).threads;
      assert Next(s1, Act(t, Step)).value.ocs == s.ocs[th.oc := oc];
    }
    RunsOne(s1, t);
    hide Runs;
    RunsOn(s, t, s1, s2);
  }

  /** A release that has begun and is not interrupted takes the repo out of memory and its
      file out of the directory, and lets the registry go. */
  lemma ReleaseAlone(s: World, t: Tid)
    requires t in s.threads && s.threads[t].oc in s.ocs && t !in s.temps
    requires s.threads[t].pc == WantRelease && s.ocs[s.threads[t].oc].mutex.None? && s.threads[t].repo !in s.flocks
    ensures var th := s.threads[t];
      var oc := s.ocs[th.oc];
      Runs(s, t, s.(disk := s.disk - {th.repo}).SetOc(th.oc, oc.(held := oc.held - {th.repo})).Goto(t, Done))
  {
    var th := s.threads[t];
    var held := s.ocs[th.oc].held - {th.repo};
    DiscardAlone(s, t);
    hide Runs;
    StoreAlone(s, t, held, Release);
    assert OperationSpec(s, th.(pc := InStore(Release, Flock))).1 == s.disk - {th.repo};
    FinishAlone(s, t, held, s.disk - {th.repo});
  }

  lemma DiscardAlone(s: World, t: Tid)
    requires t in s.threads && s.threads[t].oc in s.ocs
    requires s.threads[t].pc == WantRelease && s.ocs[s.threads[t].oc].mutex.None?
    ensures var th := s.threads[t];
      Runs(s, t, Locking(s, t, s.ocs[th.oc].held - {th.repo}, InStore(Release, Flock)))
  {
    var th := s.threads[t];
    var oc := s.ocs[th.oc];
    var s1 := Locking(s, t, oc.held, Discarding);
    assert Next(s, Act(t, Step)) == Some(s1);
    RunsOne(s, t);
    var s2 := Locking(s, t, oc.held - {th.repo}, InStore(Release, Flock));
    assert Next(s1, Act(t, Step)) == Some(s2) by {
      assert Next(s1, Act(t, Step)).value.threads == s2.threads;
      assert Next(s1, Act(t, Step)).value.ocs == s2.ocs;
    }
    RunsOne(s1, t);
    hide Runs;
    RunsOn(s, t, s1, s2);
  }

  /** Some run leads from s to s' and loses exactly these repos on the way. */
  ghost predicate Leads(s: World, s': World, lost: set<Repo>) {
    exists acts :: Exec(s, acts) == Some(s') && LostIn(s, acts) == lost
  }

  lemma LeadsOn(s: World, s1: World, s2: World, lost1: set<Repo>, lost2: set<Repo>)
    requires Leads(s, s1, lost1) && Leads(s1, s2, lost2)
    ensures Leads(s, s2, lost1 + lost2)
  {
    var xs :| Exec(s, xs) == Some(s1) && LostIn(s, xs) == lost1;
    var ys :| Exec(s1, ys) == Some(s2) && LostIn(s1, ys) == lost2;
    ExecAppend(s, xs, ys);
    assert Exec(s, xs + ys) == Some(s2);
  }

  lemma LeadsNext(s: World, s1: World, act: Action, lost: set<Repo>)
    requires Leads(s, s1, lost) && Next(s1, act).Some?
    ensures Leads(s, Next(s1, act).value, lost + LostBy(s1, act))
  {
    var s2 := Next(s1, act).value;
    ExecCons(s1, act, []);
    assert Exec(s1, [act]) == Some(s2);
    assert LostIn(s1, [act]) == LostBy(s1, act) + LostIn(s2, [act][1..]);
    assert Leads(s1, s2, LostBy(s1, act));
    LeadsOn(s, s1, s2, lost, LostBy(s1, act));
  }

  /** A move of a live thread, which loses nothing. */
  lemma LeadsMove(s: World, s1: World, t: Tid, move: Move)
    requires Leads(s, s1, {}) && Next(s1, Act(t, move)).Some?
    ensures Leads(s, Next(s1, Act(t, move)).value, {})
  {
    LeadsNext(s, s1, Act(t, move), {});
  }

  lemma {:induction false} StepsLoseNothing(s: World, t: Tid, n: nat)
    ensures LostIn(s, Steps(t, n)) == {}
    decreases n
  {
    if n > 0 && Next(s, Act(t, Step)).Some? {
      assert Steps(t, n)[1..] == Steps(t, n - 1);
      StepsLoseNothing(Next(s, Act(t, Step)).value, t, n - 1);
    }
  }

  lemma LeadsRuns(s: World, s1: World, t: Tid, s2: World)
    requires Leads(s, s1, {}) && Runs(s1, t, s2)
    ensures Leads(s, s2, {})
  {
    var n: nat :| Exec(s1, Steps(t, n)) == Some(s2);
    StepsLoseNothing(s1, t, n);
    assert Leads(s1, s2, {});
    LeadsOn(s, s1, s2, {}, {});
  }

  /** The lock of this repo is there for the taking: nobody is at work on a lock file, and
      this one is absent or names only dead processes. */
  predicate Takeable(s: World, repo: Repo, live: set<int>) {
    s.flocks == map[] && (repo in s.disk ==> s.disk[repo].Whole? && !IsAlive(live, s.disk[repo].payload))
  }

  /** The directory that process p, coming up, sweeps and then takes the repo's lock in. */
  function Taken(s: World, p: int, repo: Repo): map<Repo, LockFile> {
    SweptDisk(s.disk, s.Live() + {p})[repo := Whole(NewPayload(repo, "", p))]
  }

  /** The world in which process p has just dispatched audit a and not yet recorded it. */
  function Dispatched(s: World, t: Tid, p: int, a: int, repo: Repo): World {
    World(
      s.ocs[p := Oc({repo}, true, None)],
      s.threads[t := Thread(p, repo, "", InStore(Record(a), Flock))],
      s.audits[a := Audit(repo, Some(t))],
      s.others,
      Taken(s, p, repo),
      s.flocks,
      s.temps,
      s.handles[t := false])
  }

  /** World s with one more process and one thread of it dispatching an audit of repo. */
  function Working(s: World, t: Tid, p: int, repo: Repo, oc: Oc, pc: Pc): World {
    s.(ocs := s.ocs[p := oc], threads := s.threads[t := Thread(p, repo, "", pc)])
  }

  /** That thread changes its registry and its position. */
  lemma WorkingChanges(s: World, t: Tid, p: int, repo: Repo, oc: Oc, pc: Pc, oc': Oc, pc': Pc)
    ensures var s1 := Working(s, t, p, repo, oc, pc);
      && s1.SetOc(p, oc').Goto(t, pc') == Working(s, t, p, repo, oc', pc')
      && (oc' == oc ==> s1.Goto(t, pc') == Working(s, t, p, repo, oc', pc'))
  {
    var s1 := Working(s, t, p, repo, oc, pc);
    assert s1.Goto(t, pc').threads == s.threads[t := Thread(p, repo, "", pc')];
    assert s1.SetOc(p, oc').ocs == s.ocs[p := oc'];
  }

  /** One step of that thread outside the store. */
  lemma WorkingStep(start: World, s: World, t: Tid, p: int, repo: Repo, oc: Oc, pc: Pc, oc': Oc, pc': Pc)
    requires Leads(start, Working(s, t, p, repo, oc, pc), {}) && !pc.InStore?
    requires var s1 := Working(s, t, p, repo, oc, pc);
      || RegistryStep(s1, t) == Some(s1.SetOc(p, oc').Goto(t, pc'))
      || (oc' == oc && RegistryStep(s1, t) == Some(s1.Goto(t, pc')))
    ensures Leads(start, Working(s, t, p, repo, oc', pc'), {})
  {
    WorkingChanges(s, t, p, repo, oc, pc, oc', pc');
    LeadsMove(start, Working(s, t, p, repo, oc, pc), t, Step);
  }

  /** The directory after these lock files have been looked at. */
  function Visited(disk: map<Repo, LockFile>, live: set<int>, visited: set<Repo>): map<Repo, LockFile> {
    map r | r in disk && !(r in visited && Stale(live, disk[r])) :: disk[r]
  }

  lemma VisitOneMore(disk: map<Repo, LockFile>, live: set<int>, visited: set<Repo>, r: Repo)
    requires r !in visited
    ensures ReclaimSpec(Visited(disk, live, visited), live, r).1 == Visited(disk, live, visited + {r})
    ensures Visited(disk, live, {}) == disk
  {
  }

  /** One turn of the sweep: it locks the file's sentinel, looks, and removes a dead lock. */
  lemma VisitLeads(start: World, s: World, t: Tid, p: int, repo: Repo, oc: Oc, target: Repo)
    requires t !in s.temps && s.flocks == map[] && Leads(start, Working(s, t, p, repo, oc, Sweeping), {})
    ensures var live := s.Live() + {p};
      Leads(start, Working(s.(disk := ReclaimSpec(s.disk, live, target).1), t, p, repo, oc, Sweeping), {})
  {
    var inside := InStore(Reclaim(target), Flock);
    WorkingChanges(s, t, p, repo, oc, Sweeping, oc, inside);
    LeadsMove(start, Working(s, t, p, repo, oc, Sweeping), t, PickSweep(target));
    var s1 := Working(s, t, p, repo, oc, inside);
    assert s1.Live() == s.Live() + {p};
    OperationAlone(s1, t);
    WorkingChanges(s, t, p, repo, oc, inside, oc, Sweeping);
    var w := s.(disk := ReclaimSpec(s.disk, s1.Live(), target).1);
    assert s1.(disk := w.disk).Goto(t, Sweeping) == Working(w, t, p, repo, oc, Sweeping);
    LeadsRuns(start, s1, t, Working(w, t, p, repo, oc, Sweeping));
  }

  /** The sweep looks at these lock files in some order. */
  lemma {:induction false} VisitsLead(s: World, t: Tid, p: int, repo: Repo, visited: set<Repo>)
    requires t !in s.threads && t !in s.temps && p > 0 && p !in s.Live() && s.flocks == map[]
    ensures var w := s.(disk := Visited(s.disk, s.Live() + {p}, visited));
      Leads(s, Working(w, t, p, repo, Oc({}, false, None), Sweeping), {})
    decreases |visited|
  {
    var live, young := s.Live() + {p}, Oc({}, false, None);
    if visited == {} {
      VisitOneMore(s.disk, live, {}, "");
      StartLeads(s, t, p, repo);
    } else {
      var r :| r in visited;
      var before := s.(disk := Visited(s.disk, live, visited - {r}));
      VisitsLead(s, t, p, repo, visited - {r});
      VisitOneMore(s.disk, live, visited - {r}, r);
      assert visited - {r} + {r} == visited;
      VisitLeads(s, before, t, p, repo, young, r);
    }
  }

  /** A new process comes up and enters its first dispatch. */
  lemma StartLeads(s: World, t: Tid, p: int, repo: Repo)
    requires t !in s.threads && p > 0 && p !in s.Live()
    ensures Leads(s, Working(s, t, p, repo, Oc({}, false, None), Sweeping), {})
  {
    var young := Oc({}, false, None);
    assert Exec(s, []) == Some(s) && LostIn(s, []) == {};
    LeadsNext(s, s, StartOc(p), {});
    LeadsNext(s, Next(s, StartOc(p)).value, Dispatch(t, p, repo, ""), {});
    assert Leads(s, Working(s, t, p, repo, young, Entered), {});
    WorkingStep(s, s, t, p, repo, young, Entered, young, Sweeping);
  }

  lemma VisitedIsSwept(disk: map<Repo, LockFile>, live: set<int>)
    ensures Visited(disk, live, set r | r in disk && Listed(r)) == SweptDisk(disk, live)
  {
  }

  /** It sweeps every listed lock file. */
  lemma SweepLeads(s: World, t: Tid, p: int, repo: Repo)
    requires t !in s.threads && t !in s.temps && p > 0 && p !in s.Live() && s.flocks == map[]
    ensures var swept := s.(disk := SweptDisk(s.disk, s.Live() + {p}));
      Leads(s, Working(swept, t, p, repo, Oc({}, true, None), WantMutex), {})
  {
    var swept := s.(disk := SweptDisk(s.disk, s.Live() + {p}));
    VisitsLead(s, t, p, repo, set r | r in s.disk && Listed(r));
    VisitedIsSwept(s.disk, s.Live() + {p});
    var young := Oc({}, false, None);
    WorkingChanges(swept, t, p, repo, young, Sweeping, Oc({}, true, None), WantMutex);
    LeadsMove(s, Working(swept, t, p, repo, young, Sweeping), t, EndSweep);
  }

  /** Its dispatching thread locks the registry and reaches the store. */
  lemma AcquireLeads(s: World, t: Tid, p: int, repo: Repo)
    requires t !in s.threads && t !in s.temps && p > 0 && p !in s.Live() && s.flocks == map[]
    ensures var w := s.(disk := SweptDisk(s.disk, s.Live() + {p}));
      Leads(s, Working(w, t, p, repo, Oc({}, true, Some(t)), InStore(Acquire, Flock)), {})
  {
    var w := s.(disk := SweptDisk(s.disk, s.Live() + {p}));
    var swept, locked := Oc({}, true, None), Oc({}, true, Some(t));
    SweepLeads(s, t, p, repo);
    WorkingStep(s, w, t, p, repo, swept, WantMutex, locked, HaveMutex);
    WorkingStep(s, w, t, p, repo, locked, HaveMutex, locked, InStore(Acquire, Flock));
  }

  /** The thread takes a takeable lock. */
  lemma TakeLeads(s: World, t: Tid, p: int, repo: Repo)
    requires t !in s.threads && t !in s.temps && p > 0 && p !in s.Live() && Takeable(s, repo, s.Live() + {p})
    ensures Leads(s, Working(s.(disk := Taken(s, p, repo)), t, p, repo, Oc({}, true, Some(t)), Committing), {})
  {
    var locked := Oc({}, true, Some(t));
    var swept := s.(disk := SweptDisk(s.disk, s.Live() + {p}));
    var s1 := Working(swept, t, p, repo, locked, InStore(Acquire, Flock));
    AcquireLeads(s, t, p, repo);
    assert s1.Live() == s.Live() + {p};
    OperationAlone(s1, t);
    var w := s.(disk := Taken(s, p, repo));
    var s2 := Working(w, t, p, repo, locked, Committing);
    assert s1.(disk := w.disk).Goto(t, Committing).threads == s2.threads;
    LeadsRuns(s, s1, t, s2);
  }

  /** The world in which process p has just got the repo's lock, and its thread a handle. */
  function Granted(s: World, t: Tid, p: int, repo: Repo): World {
    Working(s.(disk := Taken(s, p, repo), handles := s.handles[t := false]), t, p, repo, Oc({repo}, true, None), Held)
  }

  lemma PopenReaches(s: World, t: Tid, p: int, a: int, repo: Repo)
    requires t !in s.threads && p > 0 && a > 0 && p != a && p !in s.Live() && a !in s.Live()
    ensures Next(Granted(s, t, p, repo), Act(t, Popen(a))) == Some(Dispatched(s, t, p, a, repo))
  {
    var s1 := Granted(s, t, p, repo);
    assert s1.threads[t := Thread(p, repo, "", InStore(Record(a), Flock))] == Dispatched(s, t, p, a, repo).threads;
  }

  /** A new process takes a takeable lock and dispatches an audit. */
  lemma DispatchLeads(s: World, t: Tid, p: int, a: int, repo: Repo)
    requires t !in s.threads && t !in s.temps && p > 0 && a > 0 && p != a && p !in s.Live() && a !in s.Live()
    requires Takeable(s, repo, s.Live() + {p})
    ensures Leads(s, Dispatched(s, t, p, a, repo), {})
  {
    TakeLeads(s, t, p, repo);
    var w := s.(disk := Taken(s, p, repo));
    var holding := Oc({repo}, true, None);
    assert {} + {repo} == {repo};
    WorkingChanges(w, t, p, repo, Oc({}, true, Some(t)), Committing, holding, Held);
    LeadsMove(s, Working(w, t, p, repo, Oc({}, true, Some(t)), Committing), t, Step);
    PopenReaches(s, t, p, a, repo);
    LeadsMove(s, Granted(s, t, p, repo), t, Popen(a));
  }

  /** An audit that is alive while its repo's lock is takeable admits an overlap: a new
      process dispatches a second audit beside it, and nothing further is lost. */
  lemma UncoveredAuditAdmitsOverlap(s: World, first: int, t: Tid, p: int, second: int)
    requires first in s.audits
    requires t !in s.threads && t !in s.temps && p > 0 && second > 0 && p != second
    requires p !in s.Live() && second !in s.Live()
    requires Takeable(s, s.audits[first].repo, s.Live() + {p})
    ensures exists s' :: Leads(s, s', {}) && Overlap(s', s.audits[first].repo)
  {
    var repo := s.audits[first].repo;
    var s' := Dispatched(s, t, p, second, repo);
    DispatchLeads(s, t, p, second, repo);
    assert first in s'.audits && second in s'.audits && first != second;
    assert Overlap(s', repo);
  }

  /** No process is left but an audit of this repo, and the repo's lock can be taken. */
  predicate Bereft(s: World, repo: Repo) {
    && s.threads == map[] && s.temps == map[] && s.Live() == {2} && 2 in s.audits && s.audits[2].repo == repo
    && Takeable(s, repo, s.Live() + {3})
  }

  lemma DeathLeavesBereft(repo: Repo)
    ensures var s := Dispatched(Init, 0, 1, 2, repo);
      1 in s.ocs && LostBy(s, Crash(1)) == {repo} && Bereft(CrashStep(s, 1), repo)
  {
    var s := Dispatched(Init, 0, 1, 2, repo);
    assert s.audits[2].repo == repo && !RecordedOnDisk(s, repo, 2);
  }

  /** A process dies between spawning its first audit and recording it. */
  lemma UnrecordedDeath(repo: Repo)
    ensures exists s :: Leads(Init, s, {repo}) && Bereft(s, repo)
  {
    DispatchLeads(Init, 0, 1, 2, repo);
    var s1 := Dispatched(Init, 0, 1, 2, repo);
    DeathLeavesBereft(repo);
    hide Dispatched, Bereft, LostBy, CrashStep;
    LeadsNext(Init, s1, Crash(1), {});
    assert {} + {repo} == {repo};
  }

  /** The proviso is needed: after such a death the lock file names only a dead process, the
      next process sweeps it away or takes it over, and a second audit runs beside the first. */
  lemma UnrecordedDeathLeadsToOverlap(repo: Repo)
    ensures exists acts ::
      Exec(Init, acts).Some? && LostIn(Init, acts) == {repo} && Overlap(Exec(Init, acts).value, repo)
  {
    UnrecordedDeath(repo);
    var s2 :| Leads(Init, s2, {repo}) && Bereft(s2, repo);
    UncoveredAuditAdmitsOverlap(s2, 2, 1, 3, 4);
    var s3 :| Leads(s2, s3, {}) && Overlap(s3, repo);
    LeadsOn(Init, s2, s3, {repo}, {});
    assert {repo} + {} == {repo};
    var acts :| Exec(Init, acts) == Some(s3) && LostIn(Init, acts) == {repo};
    assert Exec(Init, acts).Some?;
  }
}
