/**
 When two audits of one repo can come to run side by side.

 From a reachable world an overlap can follow without any further loss for that repo
 exactly when an uncovered audit of it is alive.
 */
module DispatchExactness {
  import opened Prelude
  import opened LockFiles
  import opened DispatchProtocol
  import opened DispatchThreads
  import opened DispatchInvariant
  import opened DispatchSafety
  import opened DispatchRuns

  // ---- A lock file never names a live audit as its dispatcher ----

  ghost predicate DispatchersOk(s: World) {
    forall a :: a in s.audits && s.audits[a].repo in s.disk && s.disk[s.audits[a].repo].Whole? ==>
      s.disk[s.audits[a].repo].payload.ocPid != a
  }

  lemma WriteKeepsDispatchers(s: World, t: Tid)
    requires Inv(s) && DispatchersOk(s) && Writes(s, t) && StoreStep(s, t).Some?
    ensures DispatchersOk(StoreStep(s, t).value)
  {
    assert PhaseOk(s, s.threads[t]);
    assert s.threads[t].oc in s.ocs;
    var s', r := StoreStep(s, t).value, OpRepo(s.threads[t]);
    assert r in s'.disk ==> s'.disk[r].payload.ocPid == s.threads[t].oc;
    WriteFrame(s, t);
    hide StoreStep, Inv, PhaseOk;
  }

  lemma AdvanceKeepsDispatchers(s: World, t: Tid, move: Move)
    requires Inv(s) && DispatchersOk(s) && t in s.threads && s.threads[t].oc in s.ocs && Advance(s, t, move).Some?
    ensures DispatchersOk(Advance(s, t, move).value)
  {
    assert ThreadOk(s, t);
    if move.Step? && Writes(s, t) {
      WriteKeepsDispatchers(s, t);
    } else {
      assert DiskOk(s);
      hide Inv;
      WritesAtWrite(s, t);
      if move.Popen? {
        assert Owns(s.threads[t].pc) && s.disk[s.threads[t].repo].payload.ocPid == s.threads[t].oc;
        hide DiskOk;
      } else {
        AdvanceIsQuiet(s, t, move);
        hide DiskOk, Advance;
      }
    }
  }

  lemma NextKeepsDispatchers(s: World, act: Action)
    requires Inv(s) && DispatchersOk(s) && Next(s, act).Some?
    ensures DispatchersOk(Next(s, act).value)
  {
    if act.Act? {
      AdvanceKeepsDispatchers(s, act.tid, act.move);
    } else {
      hide Inv;
    }
  }

  lemma {:induction false} ExecKeepsDispatchers(s: World, acts: seq<Action>)
    requires Inv(s) && DispatchersOk(s) && Exec(s, acts).Some?
    ensures DispatchersOk(Exec(s, acts).value)
    decreases |acts|
  {
    if acts != [] {
      var act := acts[0];
      NextKeepsInv(s, act);
      NextKeepsDispatchers(s, act);
      ExecKeepsDispatchers(Next(s, act).value, acts[1..]);
    }
  }

  // ---- Everything else may die first ----

  /** The uncovered audit `first` is the only live audit of its repo. */
  ghost predicate Alone(s: World, first: int, repo: Repo) {
    Uncovered(s, first) && s.audits[first].repo == repo
    && forall a :: a in s.audits && s.audits[a].repo == repo ==> a == first
  }

  /** Some run leads on without losing an audit of the repo. */
  ghost predicate Onward(s: World, s': World, first: int, repo: Repo) {
    && Alone(s', first, repo) && DispatchersOk(s')
    && exists lost :: repo !in lost && Leads(s, s', lost)
  }

  lemma OnwardStep(s: World, s1: World, act: Action, first: int, repo: Repo)
    requires Onward(s, s1, first, repo) && Next(s1, act).Some?
    requires Alone(Next(s1, act).value, first, repo) && DispatchersOk(Next(s1, act).value)
    requires repo !in LostBy(s1, act)
    ensures Onward(s, Next(s1, act).value, first, repo)
  {
    var lost :| repo !in lost && Leads(s, s1, lost);
    LeadsNext(s, s1, act, lost);
    assert repo !in lost + LostBy(s1, act);
  }

  lemma CrashLeavesAlone(s: World, pid: int, first: int, repo: Repo)
    requires Alone(s, first, repo)
    ensures Alone(CrashStep(s, pid), first, repo) && repo !in LostBy(s, Crash(pid))
  {
    CrashFrame(s, pid);
  }

  /** The PIDs that a run has given out. */
  function Given(acts: seq<Action>): seq<int> {
    if acts == [] then []
    else
      Given(acts[..|acts| - 1]) +
      match acts[|acts| - 1]
      case StartOc(pid) => [pid]
      case StartOther(pid) => [pid]
      case Act(_, Popen(audit)) => [audit]
      case _ => []
  }

  /** Every live process has a PID from this list. */
  ghost predicate LiveIn(s: World, pids: seq<int>) {
    forall p :: p in s.ocs || p in s.others || p in s.audits ==> p in pids
  }

  lemma StepGives(s: World, act: Action, pids: seq<int>)
    requires LiveIn(s, pids) && Next(s, act).Some?
    ensures LiveIn(Next(s, act).value, pids + Given([act]))
  {
    assert [act][..0] == [];
    if act.Act? {
      hide StoreStep, RegistryStep, TimeoutStep;
      if !act.move.Popen? {
        AdvanceIsQuiet(s, act.tid, act.move);
        hide Advance;
      }
    }
  }

  lemma {:induction false} RunGives(s: World, acts: seq<Action>, pids: seq<int>) returns (all: seq<int>)
    requires LiveIn(s, pids) && Exec(s, acts).Some?
    ensures LiveIn(Exec(s, acts).value, all)
    decreases |acts|
  {
    if acts == [] {
      all := pids;
    } else {
      StepGives(s, acts[0], pids);
      all := RunGives(Next(s, acts[0]).value, acts[1..], pids + Given([acts[0]]));
    }
  }

  /** Nobody with this PID is left, unless it is the uncovered audit. */
  predicate Gone(s: World, pid: int, first: int) {
    pid !in s.ocs && pid !in s.others && (pid in s.audits ==> pid == first)
  }

  /** How the process with this PID ends. */
  function EndOf(s: World, pid: int): Action {
    if pid in s.ocs then Crash(pid) else if pid in s.others then StopOther(pid) else AuditExit(pid)
  }

  /** The process with this PID ends, and nobody comes back. */
  lemma EndLeavesAlone(s: World, pid: int, first: int, repo: Repo)
    requires PidsOk(s) && Alone(s, first, repo) && pid != first
    ensures var s' := Next(s, EndOf(s, pid));
      && s'.Some? && Alone(s'.value, first, repo) && Gone(s'.value, pid, first)
      && forall p :: Gone(s, p, first) ==> Gone(s'.value, p, first)
    ensures repo !in LostBy(s, EndOf(s, pid))
  {
    if pid in s.ocs {
      CrashLeavesAlone(s, pid, first, repo);
      CrashFrame(s, pid);
      assert CrashStep(s, pid).ocs == s.ocs - {pid} && CrashStep(s, pid).others == s.others;
      hide CrashStep, LostBy, Alone, PidsOk;
    }
  }

  lemma EndKeepsLiveIn(s: World, pid: int, pids: seq<int>)
    requires LiveIn(s, pids)
    ensures var s' := Next(s, EndOf(s, pid)); s'.Some? && LiveIn(s'.value, pids)
  {
  }

  lemma EndOne(s: World, s1: World, pid: int, first: int, repo: Repo) returns (s2: World)
    requires Inv(s1) && Onward(s, s1, first, repo) && pid != first
    ensures Inv(s2) && Onward(s, s2, first, repo) && Gone(s2, pid, first)
    ensures forall p :: Gone(s1, p, first) ==> Gone(s2, p, first)
    ensures forall pids :: LiveIn(s1, pids) ==> LiveIn(s2, pids)
  {
    var act := EndOf(s1, pid);
    assert PidsOk(s1);
    hide PidsOk, Gone, LiveIn, LostBy, Alone, EndOf;
    EndLeavesAlone(s1, pid, first, repo);
    s2 := Next(s1, act).value;
    NextKeepsInv(s1, act);
    NextKeepsDispatchers(s1, act);
    hide Inv, Next;
    OnwardStep(s, s1, act, first, repo);
    forall pids | LiveIn(s1, pids)
      ensures LiveIn(s2, pids)
    {
      EndKeepsLiveIn(s1, pid, pids);
    }
  }

  /** One after another, every process with a PID from the list ends. */
  lemma {:induction false} EndAll(s: World, s1: World, pids: seq<int>, n: nat, first: int, repo: Repo)
    returns (s2: World)
    requires Inv(s1) && Onward(s, s1, first, repo) && LiveIn(s1, pids) && n <= |pids|
    ensures Inv(s2) && Onward(s, s2, first, repo) && LiveIn(s2, pids)
    ensures forall i :: 0 <= i < n ==> Gone(s2, pids[i], first)
    decreases n
  {
    hide Inv, Onward, LiveIn, Gone;
    if n == 0 {
      s2 := s1;
    } else {
      var s3 := EndAll(s, s1, pids, n - 1, first, repo);
      if pids[n - 1] == first {
        FirstIsGone(s, s3, first, repo);
        s2 := s3;
      } else {
        s2 := EndOne(s, s3, pids[n - 1], first, repo);
      }
    }
  }

  lemma FirstIsGone(s: World, s1: World, first: int, repo: Repo)
    requires Inv(s1) && Onward(s, s1, first, repo)
    ensures Gone(s1, first, first)
  {
    assert first in s1.audits && PidsOk(s1);
  }

  /** Nothing is alive but the uncovered audit. */
  ghost predicate Desolate(s: World, first: int) {
    forall p :: Gone(s, p, first)
  }

  lemma NobodyLeft(s: World, first: int)
    requires Inv(s) && Desolate(s, first)
    ensures (forall t :: t !in s.threads && t !in s.temps) && s.flocks == map[]
    ensures forall p :: p in s.Live() ==> p == first
  {
    assert PidsOk(s) && FlocksOk(s);
    forall p
      ensures p !in s.ocs
    {
      assert Gone(s, p, first);
    }
    assert forall t :: t !in s.threads;
    assert forall t :: t !in s.temps by { assert Local(s); }
    assert forall r :: r !in s.flocks;
    forall p | p in s.Live()
      ensures p == first
    {
      assert Gone(s, p, first);
    }
  }

  lemma {:induction false} FreshPid(taken: seq<int>) returns (p: int)
    ensures p > 0 && forall x :: x in taken ==> x < p
  {
    if taken == [] {
      p := 1;
    } else {
      var q := FreshPid(taken[1..]);
      p := if taken[0] < q then q else taken[0] + 1;
      assert taken == [taken[0]] + taken[1..];
    }
  }

  /** With everything else gone the next process takes the lock and dispatches. */
  lemma DesolateLeads(s: World, first: int, repo: Repo)
    requires Inv(s) && DispatchersOk(s) && Alone(s, first, repo) && Desolate(s, first)
    ensures exists s' :: Leads(s, s', {}) && Overlap(s', repo)
  {
    NobodyLeft(s, first);
    assert repo in s.disk ==> s.disk[repo].Whole?;
    var file := if repo in s.disk then Some(s.disk[repo].payload) else None;
    var oc := if file.Some? then file.value.ocPid else 0;
    var audit := if file.Some? && file.value.auditPid.Some? then file.value.auditPid.value else 0;
    var p := FreshPid([first, oc, audit]);
    assert first in [first, oc, audit] && oc in [first, oc, audit] && audit in [first, oc, audit];
    assert Takeable(s, repo, s.Live() + {p}) by {
      assert file.Some? ==> oc != first && file.value.auditPid != Some(first);
    }
    UncoveredAuditAdmitsOverlap(s, first, 0, p, p + 1);
  }

  /** A run onward and then a run that loses nothing. */
  lemma OnwardThen(s: World, s1: World, first: int, repo: Repo, s2: World)
    requires Onward(s, s1, first, repo) && Leads(s1, s2, {})
    ensures exists lost :: repo !in lost && Leads(s, s2, lost)
  {
    var lost :| repo !in lost && Leads(s, s1, lost);
    LeadsOn(s, s1, s2, lost, {});
    assert repo !in lost + {};
  }

  /** Without a further loss for the repo, an overlap can still follow. */
  ghost predicate CanOverlap(s: World, repo: Repo) {
    exists s', lost :: repo !in lost && Leads(s, s', lost) && Overlap(s', repo)
  }

  lemma UncoveredCanOverlap(s: World, first: int, pids: seq<int>)
    requires Inv(s) && DispatchersOk(s) && Uncovered(s, first) && LiveIn(s, pids)
    ensures CanOverlap(s, s.audits[first].repo)
  {
    var repo := s.audits[first].repo;
    assert Exec(s, []) == Some(s) && LostIn(s, []) == {};
    assert repo !in {} && Leads(s, s, {});
    if a :| a in s.audits && s.audits[a].repo == repo && a != first {
      assert Overlap(s, repo);
    } else {
      assert Onward(s, s, first, repo);
      var s1 := EndAll(s, s, pids, |pids|, first, repo);
      AllGone(s1, pids, first);
      DesolateLeads(s1, first, repo);
      var s2 :| Leads(s1, s2, {}) && Overlap(s2, repo);
      OnwardThen(s, s1, first, repo, s2);
    }
  }

  lemma AllGone(s: World, pids: seq<int>, first: int)
    requires LiveIn(s, pids) && forall i :: 0 <= i < |pids| ==> Gone(s, pids[i], first)
    ensures Desolate(s, first)
  {
    forall p
      ensures Gone(s, p, first)
    {
      if p in pids {
        var i :| 0 <= i < |pids| && pids[i] == p;
      }
    }
  }

  lemma CanOverlapNeedsUncovered(s: World, repo: Repo)
    requires Inv(s) && CanOverlap(s, repo)
    ensures exists a :: Uncovered(s, a) && s.audits[a].repo == repo
  {
    var s', lost :| repo !in lost && Leads(s, s', lost) && Overlap(s', repo);
    var acts :| Exec(s, acts) == Some(s') && LostIn(s, acts) == lost;
    ExecKeepsInv(s, acts);
    var a, b :| a in s'.audits && b in s'.audits && a != b && s'.audits[a].repo == repo && s'.audits[b].repo == repo;
    if !Uncovered(s', a) && !Uncovered(s', b) { AuditsDiffer(s', a, b); }
    ExecCovers(s, acts, if Uncovered(s', a) then a else b);
  }

  /** Main result: in every reachable world, two audits of a repo can come to run side by
      side without another loss for that repo if and only if an uncovered one is alive. */
  lemma OverlapAheadExactly(acts: seq<Action>, repo: Repo)
    requires Exec(Init, acts).Some?
    ensures var s := Exec(Init, acts).value;
      CanOverlap(s, repo) <==> exists a :: Uncovered(s, a) && s.audits[a].repo == repo
  {
    InitInv();
    ExecKeepsInv(Init, acts);
    ExecKeepsDispatchers(Init, acts);
    var s := Exec(Init, acts).value;
    var pids := RunGives(Init, acts, []);
    if a :| Uncovered(s, a) && s.audits[a].repo == repo { UncoveredCanOverlap(s, a, pids); }
    if CanOverlap(s, repo) { CanOverlapNeedsUncovered(s, repo); }
  }
}
