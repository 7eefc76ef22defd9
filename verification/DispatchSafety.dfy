/**
 Safety of the dispatch protocol over every run.

 An audit is uncovered while it is alive, its dispatcher is gone, and the lock file does
 not name it: it was lost by a death between spawn and record. Only such audits escape the
 protocol, and only while they live.
 */
module DispatchSafety {
  import opened Prelude
  import opened LockFiles
  import opened DispatchProtocol
  import opened DispatchThreads
  import opened DispatchInvariant

  // ---- Where uncovered audits come from ----

  /** No process comes up, no audit starts or ends, and only a write changes a lock file. */
  ghost predicate Quiet(s: World, s': World, writes: bool) {
    && s'.audits == s.audits && s'.others == s.others && (forall p :: p in s'.ocs ==> p in s.ocs)
    && (!writes ==> s'.disk == s.disk)
  }

  /** The rename and the removal. */
  predicate AtWrite(pc: Pc) {
    pc.InStore? && (pc.phase.Unlink? || pc.phase.TempWhole?)
  }

  lemma RegistryIsQuiet(s: World, t: Tid)
    requires t in s.threads && s.threads[t].oc in s.ocs && !s.threads[t].pc.InStore? && RegistryStep(s, t).Some?
    ensures Quiet(s, RegistryStep(s, t).value, false)
  {
    match s.threads[t].pc
    case Committing =>
    case Waiting(_) =>
    case Entered =>
    case HaveMutex =>
    case Discarding =>
    case _ =>
  }

  lemma StoreIsQuiet(s: World, t: Tid)
    requires t in s.threads && s.threads[t].pc.InStore? && StoreStep(s, t).Some?
    ensures Quiet(s, StoreStep(s, t).value, AtWrite(s.threads[t].pc))
  {
    hide AfterRead, AfterChecks, AfterUnlock, PidAlive;
    match s.threads[t].pc.phase
    case Flock =>
    case Unlock(_) =>
    case TempWhole(_) =>
    case Unlink =>
    case _ =>
  }

  lemma AdvanceIsQuiet(s: World, t: Tid, move: Move)
    requires t in s.threads && s.threads[t].oc in s.ocs && Advance(s, t, move).Some? && !move.Popen?
    ensures Quiet(s, Advance(s, t, move).value, move.Step? && AtWrite(s.threads[t].pc))
  {
    hide StoreStep, RegistryStep;
    if move.Step? {
      hide Quiet;
      if s.threads[t].pc.InStore? { StoreIsQuiet(s, t); } else { RegistryIsQuiet(s, t); }
    }
  }

  lemma WritesAtWrite(s: World, t: Tid)
    requires t in s.threads && ThreadOk(s, t)
    ensures AtWrite(s.threads[t].pc) ==> Writes(s, t)
  {
  }

  /** A step of a thread leaves no audit uncovered that was not. */
  lemma AdvanceCovers(s: World, t: Tid, move: Move, a: int)
    requires Inv(s) && t in s.threads && s.threads[t].oc in s.ocs && Advance(s, t, move).Some?
    requires Uncovered(Advance(s, t, move).value, a)
    ensures Uncovered(s, a) && s.audits[a] == Advance(s, t, move).value.audits[a]
  {
    assert ThreadOk(s, t);
    if move.Step? && Writes(s, t) {
      assert PhaseOk(s, s.threads[t]) && OwnersAudits(s) && RecordsOk(s);
      hide Inv, OwnersAudits, RecordsOk, PhaseOk;
      WriteUncovers(s, t, a);
      WriteFrame(s, t);
    } else {
      hide Inv;
      WritesAtWrite(s, t);
      if !move.Popen? {
        AdvanceIsQuiet(s, t, move);
        hide Advance;
      }
    }
  }

  /** An audit becomes uncovered only by the death of its dispatcher before it is recorded. */
  lemma NextCovers(s: World, act: Action, a: int)
    requires Inv(s) && Next(s, act).Some? && Uncovered(Next(s, act).value, a)
    ensures var s' := Next(s, act).value;
      (Uncovered(s, a) && s.audits[a] == s'.audits[a]) || s'.audits[a].repo in LostBy(s, act)
  {
    if act.Act? {
      AdvanceCovers(s, act.tid, act.move, a);
    } else if act.Crash? {
      var t := s.audits[a].parent;
      assert t.Some? ==> t.value in s.threads && s.threads[t.value].oc == act.pid;
    }
  }

  /** Every uncovered audit of a reachable world was lost on the way. */
  lemma {:induction false} ExecCovers(s: World, acts: seq<Action>, a: int)
    requires Inv(s) && Exec(s, acts).Some? && Uncovered(Exec(s, acts).value, a)
    ensures var s' := Exec(s, acts).value;
      (Uncovered(s, a) && s.audits[a] == s'.audits[a]) || s'.audits[a].repo in LostIn(s, acts)
    decreases |acts|
  {
    if acts != [] {
      NextKeepsInv(s, acts[0]);
      var s1 := Next(s, acts[0]).value;
      ExecCovers(s1, acts[1..], a);
      hide Next, Inv, LostBy;
      if Uncovered(s1, a) && s1.audits[a] == Exec(s, acts).value.audits[a] { NextCovers(s, acts[0], a); }
    }
  }

  // ---- Main results ----

  /** Two live audits of a repo, neither uncovered, would both have to be the owner's only
      audit, or both the one the lock file names. */
  lemma AuditsDiffer(s: World, a: int, b: int)
    requires AuditsOk(s) && OwnersAudits(s) && OwnersUnique(s)
    requires a in s.audits && b in s.audits && s.audits[a].repo == s.audits[b].repo
    requires !Uncovered(s, a) && !Uncovered(s, b)
    ensures a == b
  {
    if s.audits[a].parent.Some? {
      assert Owns(s.threads[s.audits[a].parent.value].pc);
    } else if s.audits[b].parent.Some? {
      assert Owns(s.threads[s.audits[b].parent.value].pc);
    }
  }

  /** Main result: in every reachable world, two audits of one repo are alive together only
      while one of them is uncovered. Once that one has exited, the repo is safe again. */
  lemma OverlapNeedsUncovered(acts: seq<Action>, a: int, b: int)
    requires Exec(Init, acts).Some?
    requires var s := Exec(Init, acts).value;
      a in s.audits && b in s.audits && a != b && s.audits[a].repo == s.audits[b].repo
    ensures var s := Exec(Init, acts).value; Uncovered(s, a) || Uncovered(s, b)
  {
    InitInv();
    ExecKeepsInv(Init, acts);
    var s := Exec(Init, acts).value;
    if !Uncovered(s, a) && !Uncovered(s, b) { AuditsDiffer(s, a, b); }
  }

  /** Main result: an audit is uncovered only in a run where some process died while that
      repo's audit was alive and not yet recorded in the lock file. */
  lemma UncoveredWasLost(acts: seq<Action>, a: int)
    requires Exec(Init, acts).Some? && Uncovered(Exec(Init, acts).value, a)
    ensures Exec(Init, acts).value.audits[a].repo in LostIn(Init, acts)
  {
    InitInv();
    ExecCovers(Init, acts, a);
  }

  /** The two together: two audits of one repo are alive together only in a run where some
      process died while its own audit was alive and not yet recorded. */
  lemma NoOverlapUnlessLost(acts: seq<Action>, repo: Repo)
    requires Exec(Init, acts).Some?
    requires Overlap(Exec(Init, acts).value, repo)
    ensures exists a :: Uncovered(Exec(Init, acts).value, a) && Exec(Init, acts).value.audits[a].repo == repo
    ensures repo in LostIn(Init, acts)
  {
    var s := Exec(Init, acts).value;
    var a, b :| a in s.audits && b in s.audits && a != b
      && s.audits[a].repo == repo && s.audits[b].repo == repo;
    OverlapNeedsUncovered(acts, a, b);
    UncoveredWasLost(acts, if Uncovered(s, a) then a else b);
  }

  /** A held repo's file names the process that holds it. */
  lemma HolderIsNamed(s: World, p: int, repo: Repo)
    requires HeldOk(s) && DiskOk(s) && p in s.ocs && repo in s.ocs[p].held
    ensures repo in s.disk && s.disk[repo].Whole? && s.disk[repo].payload.ocPid == p
  {
    var t :| t in s.threads && s.threads[t].oc == p && s.threads[t].repo == repo && Counted(s.threads[t].pc);
    assert Owns(s.threads[t].pc);
  }

  /** In every reachable world, a repo in a live process's `_held` has a whole lock file
      with that process's PID, and no other live process holds the repo. */
  lemma HeldIsExclusive(acts: seq<Action>, p: int, repo: Repo)
    requires Exec(Init, acts).Some?
    requires p in Exec(Init, acts).value.ocs && repo in Exec(Init, acts).value.ocs[p].held
    ensures var s := Exec(Init, acts).value;
      && repo in s.disk && s.disk[repo].Whole? && s.disk[repo].payload.ocPid == p
      && forall q :: q in s.ocs && repo in s.ocs[q].held ==> q == p
  {
    InitInv();
    ExecKeepsInv(Init, acts);
    var s := Exec(Init, acts).value;
    assert HeldOk(s) && DiskOk(s);
    hide Exec, Inv, HeldOk, DiskOk;
    forall q | q in s.ocs && repo in s.ocs[q].held
      ensures repo in s.disk && s.disk[repo].Whole? && s.disk[repo].payload.ocPid == q
    {
      HolderIsNamed(s, q, repo);
    }
  }

  /** A reader that takes no lock never finds a torn lock file, while a thread's temporary
      file is torn exactly as long as the thread is still writing it. */
  lemma ReadersSeeWholeFiles(acts: seq<Action>)
    requires Exec(Init, acts).Some?
    ensures var s := Exec(Init, acts).value;
      && (forall r :: r in s.disk ==> s.disk[r].Whole?)
      && (forall t :: t in s.temps ==> t in s.threads && Some(s.temps[t]) == TempAt(s.threads[t].pc))
  {
    InitInv();
    ExecKeepsInv(Init, acts);
    var s := Exec(Init, acts).value;
    assert DiskOk(s) && Local(s);
    hide Inv, TempAt, HandleFits;
    forall t | t in s.temps
      ensures t in s.threads && Some(s.temps[t]) == TempAt(s.threads[t].pc)
    {
      assert ThreadOk(s, t);
    }
  }

  lemma RenameStep(s: World, t: Tid, draft: Payload)
    requires t in s.threads && s.threads[t].oc in s.ocs && ThreadOk(s, t)
    requires s.threads[t].pc.InStore? && s.threads[t].pc.phase == TempWhole(draft)
    ensures var s' := Next(s, Act(t, Step));
      && s'.Some? && t !in s'.value.temps
      && s'.value.disk == s.disk[OpRepo(s.threads[t]) := Whole(draft)]
  {
    assert s.temps[t] == Whole(draft);
    hide ThreadOk, TempAt, HandleFits;
  }

  /** In every reachable world, the rename puts the very payload in place that the thread
      drafted, and takes the temporary file away. */
  lemma RenameIsWhole(acts: seq<Action>, t: Tid, draft: Payload)
    requires Exec(Init, acts).Some?
    requires var s := Exec(Init, acts).value;
      t in s.threads && s.threads[t].pc.InStore? && s.threads[t].pc.phase == TempWhole(draft)
    ensures var s := Exec(Init, acts).value;
      var s' := Next(s, Act(t, Step));
      && s'.Some? && t !in s'.value.temps
      && s'.value.disk == s.disk[OpRepo(s.threads[t]) := Whole(draft)]
  {
    InitInv();
    ExecKeepsInv(Init, acts);
    hide Exec, Next;
    var s := Exec(Init, acts).value;
    assert ThreadOk(s, t) && PidsOk(s) by { assert Local(s); }
    hide Inv;
    RenameStep(s, t, draft);
  }

  /** A second `release()` of one handle. */
  predicate Stray(act: Action) {
    act.Act? && act.move.StrayRelease?
  }

  function WithoutStrays(acts: seq<Action>): seq<Action> {
    if acts == [] then []
    else (if Stray(acts[0]) then [] else [acts[0]]) + WithoutStrays(acts[1..])
  }

  lemma StrayDoesNothing(s: World, act: Action)
    requires Inv(s) && Stray(act) && Next(s, act).Some?
    ensures Next(s, act) == Some(s)
  {
    var t := act.tid;
    assert ThreadOk(s, t);
    hide Inv;
    assert s.Goto(t, Done).threads == s.threads;
  }

  /** Second releases never matter: whoever has taken the lock since, the run without them
      ends in the same world. */
  lemma {:induction false} StrayReleasesDoNothing(s: World, acts: seq<Action>)
    requires Inv(s) && Exec(s, acts).Some?
    ensures Exec(s, WithoutStrays(acts)) == Exec(s, acts)
    decreases |acts|
  {
    if acts != [] {
      var act, rest := acts[0], acts[1..];
      NextKeepsInv(s, act);
      StrayReleasesDoNothing(Next(s, act).value, rest);
      if Stray(act) {
        StrayDoesNothing(s, act);
        assert WithoutStrays(acts) == WithoutStrays(rest);
      } else {
        assert WithoutStrays(acts) == [act] + WithoutStrays(rest);
        assert WithoutStrays(acts)[1..] == WithoutStrays(rest);
      }
    }
  }

  /** Sweep and reclaim remove a lock file only when no live thread owns the lock, and every
      live audit of the repo is one the file does not cover. */
  lemma ReclaimTakesOnlyDeadLocks(acts: seq<Action>, t: Tid)
    requires Exec(Init, acts).Some?
    requires var s := Exec(Init, acts).value;
      t in s.threads && s.threads[t].pc.InStore? && s.threads[t].pc.op.Reclaim? && s.threads[t].pc.phase.Unlink?
    ensures var s := Exec(Init, acts).value;
      var repo := OpRepo(s.threads[t]);
      && NoOwner(s, repo)
      && (forall p :: p in s.ocs ==> repo !in s.ocs[p].held)
      && (forall a :: a in s.audits && s.audits[a].repo == repo ==> Uncovered(s, a))
  {
    InitInv();
    ExecKeepsInv(Init, acts);
    var s := Exec(Init, acts).value;
    assert PhaseOk(s, s.threads[t]);
  }

  /** In every reachable world, while a thread is inside the sentinel of a lock file, no
      other thread of any process is at work on that file. */
  lemma OneInsideSentinel(acts: seq<Action>, t: Tid, u: Tid)
    requires Exec(Init, acts).Some?
    requires var s := Exec(Init, acts).value;
      t in s.threads && u in s.threads && t != u && Sentinel(s.threads[t]).Some?
    ensures var s := Exec(Init, acts).value; Sentinel(s.threads[t]) != Sentinel(s.threads[u])
  {
    InitInv();
    ExecKeepsInv(Init, acts);
    var s := Exec(Init, acts).value;
    if Sentinel(s.threads[u]).Some? { OthersElsewhere(s, t, u); }
  }

  /** In every reachable world, a sentinel times out only for a thread that waits for another
      one. It changes no lock file, no audit and no sentinel: an acquire ends without the lock,
      a record goes on to wait for its audit, a release lets the registry go although the file
      is still there, and a sweep is not tried again. */
  lemma TimeoutTells(acts: seq<Action>, t: Tid)
    requires Exec(Init, acts).Some? && Next(Exec(Init, acts).value, Act(t, FlockTimeout)).Some?
    ensures var s := Exec(Init, acts).value;
      var s' := Next(s, Act(t, FlockTimeout)).value;
      && t in s.threads && s.threads[t].pc.InStore? && s.threads[t].pc.phase == Flock
      && OpRepo(s.threads[t]) in s.flocks && s.flocks[OpRepo(s.threads[t])] != t
      && s'.disk == s.disk && s'.audits == s.audits && s'.flocks == s.flocks && s'.handles == s.handles
      && s'.threads == s.threads[t := s.threads[t].(pc :=
           match s.threads[t].pc.op
           case Acquire => Finishing
           case Record(audit) => Waiting(audit)
           case Release => Finishing
           case Reclaim(_) => Done)]
      && (forall p :: p in s.ocs ==>
            p in s'.ocs && s'.ocs[p].held == s.ocs[p].held && s'.ocs[p].mutex == s.ocs[p].mutex)
      && (s.threads[t].pc.op.Reclaim? ==> s.threads[t].oc in s'.ocs && s'.ocs[s.threads[t].oc].swept)
  {
    InitInv();
    ExecKeepsInv(Init, acts);
    hide Exec, Next;
    assert FlocksOk(Exec(Init, acts).value);
    hide Inv, FlocksOk;
    TimeoutStepTells(Exec(Init, acts).value, t);
  }

  lemma TimeoutStepTells(s: World, t: Tid)
    requires FlocksOk(s) && Next(s, Act(t, FlockTimeout)).Some?
    ensures var s' := Next(s, Act(t, FlockTimeout)).value;
      && t in s.threads && s.threads[t].pc.InStore? && s.threads[t].pc.phase == Flock
      && OpRepo(s.threads[t]) in s.flocks && s.flocks[OpRepo(s.threads[t])] != t
      && s'.disk == s.disk && s'.audits == s.audits && s'.flocks == s.flocks && s'.handles == s.handles
      && s'.threads == s.threads[t := s.threads[t].(pc :=
           match s.threads[t].pc.op
           case Acquire => Finishing
           case Record(audit) => Waiting(audit)
           case Release => Finishing
           case Reclaim(_) => Done)]
      && (forall p :: p in s.ocs ==>
            p in s'.ocs && s'.ocs[p].held == s.ocs[p].held && s'.ocs[p].mutex == s.ocs[p].mutex)
      && (s.threads[t].pc.op.Reclaim? ==> s.threads[t].oc in s'.ocs && s'.ocs[s.threads[t].oc].swept)
  {
    match s.threads[t].pc.op
    case Acquire =>
    case Record(_) =>
    case Release =>
    case Reclaim(_) =>
  }

  /** A death takes the process with its threads, their sentinel locks, temporary files and
      handles, and leaves everything else: the lock files, and the audits, of which those of
      its threads have no dispatcher any more. */
  lemma CrashTells(s: World, pid: int)
    requires pid in s.ocs
    ensures Next(s, Crash(pid)).Some?
    ensures var s' := Next(s, Crash(pid)).value;
      && s'.disk == s.disk && s'.others == s.others && s'.ocs == s.ocs - {pid}
      && (forall t :: t in s'.threads <==> t in s.threads && s.threads[t].oc != pid)
      && (forall t :: t in s'.threads ==> s'.threads[t] == s.threads[t])
      && (forall r :: r in s'.flocks <==> r in s.flocks && !Dies(s, s.flocks[r], pid))
      && (forall r :: r in s'.flocks ==> s'.flocks[r] == s.flocks[r])
      && (forall t :: TempOf(s', t) == (if Dies(s, t, pid) then None else TempOf(s, t)))
      && (forall t :: HandleOf(s', t) == (if Dies(s, t, pid) then None else HandleOf(s, t)))
      && s'.audits.Keys == s.audits.Keys
      && forall a :: a in s.audits ==>
           && s'.audits[a].repo == s.audits[a].repo
           && s'.audits[a].parent == (
                if s.audits[a].parent.Some? && Dies(s, s.audits[a].parent.value, pid) then None else s.audits[a].parent)
  {
  }

  /** The thread belongs to the process. */
  predicate Dies(s: World, t: Tid, pid: int) {
    t in s.threads && s.threads[t].oc == pid
  }

  /** A PID can be given to a new process of any kind exactly when it is positive and no live
      process has it, however often it was used before. */
  lemma AnyFreePid(s: World, pid: int, t: Tid)
    ensures var free := pid > 0 && pid !in s.ocs && pid !in s.audits && pid !in s.others;
      && (Next(s, StartOc(pid)).Some? <==> free)
      && (Next(s, StartOther(pid)).Some? <==> free)
      && (t in s.threads && s.threads[t].oc in s.ocs && s.threads[t].pc == Held ==>
            (Next(s, Act(t, Popen(pid))).Some? <==> free))
  {
  }

  /** A repo's audit is lost by a death exactly when a thread of the dying process dispatched
      it, it is alive, and the repo's lock file does not name it. */
  lemma LostMeans(s: World, act: Action, repo: Repo)
    ensures repo in LostBy(s, act) <==> act.Crash? && exists a, t ::
      && a in s.audits && s.audits[a] == Audit(repo, Some(t)) && t in s.threads && s.threads[t].oc == act.pid
      && !(repo in s.disk && s.disk[repo].Whole? && s.disk[repo].payload.auditPid == Some(a))
  {
    if repo in LostBy(s, act) {
      var a :| a in s.audits && s.audits[a].repo == repo && s.audits[a].parent.Some?
        && s.audits[a].parent.value in s.threads && s.threads[s.audits[a].parent.value].oc == act.pid
        && !RecordedOnDisk(s, s.audits[a].repo, a);
      assert s.audits[a] == Audit(repo, Some(s.audits[a].parent.value));
    }
  }
}
