/**
 The audit dispatch protocol as a step system.

 Several OperationsCenter processes on one host share a directory of lock files.
 Each process runs any number of dispatch threads. One action is one atomic step
 of one thread, or an event of the environment: a process starts or dies, an
 audit subprocess exits. Between two steps of a thread anything else may happen.

 PIDs may be reused: a new process takes any PID that is not live at that moment.
 */
module DispatchProtocol {
  import opened Prelude
  import opened LockFiles

  type Tid = nat

  /** The operation of the persistent store that a thread is inside. */
  datatype Op = Reclaim(target: Repo) | Acquire | Record(audit: int) | Release

  /** Where in that operation it is. Every phase but Flock runs under the sentinel lock. */
  datatype Phase =
    | Flock
    | Read
    | CheckOc(seen: Payload)
    | CheckAudit(seen: Payload)
    | Draft(draft: Payload)
    | TempTorn(draft: Payload)
    | TempWhole(draft: Payload)
    | Unlink
    | Unlock(ok: bool)

  /** The program counter of one dispatch: sweep, acquire, execute, release. */
  datatype Pc =
    | Entered
    | Sweeping
    | WantMutex
    | HaveMutex
    | InStore(op: Op, phase: Phase)
    | Committing
    | Held
    | Waiting(audit: int)
    | WantRelease
    | Discarding
    | Finishing
    | Done

  datatype Thread = Thread(oc: int, repo: Repo, runId: string, pc: Pc)

  /** One live process: the registry's in-memory fields. */
  datatype Oc = Oc(held: set<Repo>, swept: bool, mutex: Option<Tid>)

  /** A live audit subprocess; its parent is the dispatching thread while that lives. */
  datatype Audit = Audit(repo: Repo, parent: Option<Tid>)

  /** `temps` is the temporary file that a thread is writing, `handles` the `_released` flag
      of the handle that a thread has got. */
  datatype World = World(
    ocs: map<int, Oc>,
    threads: map<Tid, Thread>,
    audits: map<int, Audit>,
    others: set<int>,
    disk: map<Repo, LockFile>,
    flocks: map<Repo, Tid>,
    temps: map<Tid, LockFile>,
    handles: map<Tid, bool>)
  {
    /** The host's process table. */
    function Live(): set<int> {
      ocs.Keys + audits.Keys + others
    }

    function Goto(t: Tid, pc: Pc): World
      requires t in threads
    {
      this.(threads := threads[t := threads[t].(pc := pc)])
    }

    function SetOc(pid: int, oc: Oc): World {
      this.(ocs := ocs[pid := oc])
    }
  }

  /** What a live thread does in one action. */
  datatype Move =
    | PickSweep(target: Repo)
    | EndSweep
    | Step
    | FlockTimeout
    | Popen(audit: int)
    | PopenFails
    | StrayRelease

  datatype Action =
    | StartOc(pid: int)
    | Crash(pid: int)
    | StartOther(pid: int)
    | StopOther(pid: int)
    | AuditExit(pid: int)
    | Dispatch(tid: Tid, pid: int, repo: Repo, runId: string)
    | Act(tid: Tid, move: Move)

  const Init: World := World(map[], map[], map[], {}, map[], map[], map[], map[])

  /** The repo whose lock file a thread inside the store works on. */
  function OpRepo(th: Thread): Repo
    requires th.pc.InStore?
  {
    if th.pc.op.Reclaim? then th.pc.op.target else th.repo
  }

  /** What a store operation does after reading the lock file. */
  function AfterRead(th: Thread, file: Option<LockFile>): Phase
    requires th.pc.InStore?
  {
    match th.pc.op
    case Acquire =>
      if file.None? then Draft(NewPayload(th.repo, th.runId, th.oc))
      else if file.value.Torn? then Unlock(false)
      else CheckOc(file.value.payload)
    case Record(audit) =>
      if file.None? || file.value.Torn? then Unlock(false)
      else Draft(file.value.payload.(auditPid := Some(audit), auditPgid := Some(audit)))
    case Release =>
      if file.None? then Unlock(false) else Unlink
    case Reclaim(_) =>
      if file.None? then Unlock(false)
      else if file.value.Torn? then Unlink
      else CheckOc(file.value.payload)
  }

  /** What acquire and reclaim do with a payload found dead. */
  function AfterChecks(th: Thread): Phase
    requires th.pc.InStore?
  {
    if th.pc.op.Acquire? then Draft(NewPayload(th.repo, th.runId, th.oc)) else Unlink
  }

  /** Where a thread continues once the sentinel is unlocked. */
  function AfterUnlock(op: Op, ok: bool): Pc {
    match op
    case Acquire => if ok then Committing else Finishing
    case Record(audit) => Waiting(audit)
    case Release => Finishing
    case Reclaim(_) => Sweeping
  }

  /** One step inside a store operation. */
  function StoreStep(s: World, t: Tid): Option<World>
    requires t in s.threads && s.threads[t].pc.InStore?
  {
    var th := s.threads[t];
    var r := OpRepo(th);
    match th.pc.phase
    case Flock =>
      if r in s.flocks then None
      else Some(s.(flocks := s.flocks[r := t]).Goto(t, InStore(th.pc.op, Read)))
    case Read =>
      var file := if r in s.disk then Some(s.disk[r]) else None;
      Some(s.Goto(t, InStore(th.pc.op, AfterRead(th, file))))
    case CheckOc(p) =>
      Some(s.Goto(t, InStore(th.pc.op,
        if PidAlive(s.Live(), Some(p.ocPid)) then Unlock(false) else CheckAudit(p))))
    case CheckAudit(p) =>
      Some(s.Goto(t, InStore(th.pc.op,
        if PidAlive(s.Live(), p.auditPid) then Unlock(false) else AfterChecks(th))))
    case Draft(p) =>
      Some(s.(temps := s.temps[t := Torn]).Goto(t, InStore(th.pc.op, TempTorn(p))))
    case TempTorn(p) =>
      Some(s.(temps := s.temps[t := Whole(p)]).Goto(t, InStore(th.pc.op, TempWhole(p))))
    case TempWhole(_) =>
      if t !in s.temps then None
      else Some(s.(disk := s.disk[r := s.temps[t]], temps := s.temps - {t}).Goto(t, InStore(th.pc.op, Unlock(true))))
    case Unlink =>
      Some(s.(disk := s.disk - {r}).Goto(t, InStore(th.pc.op, Unlock(true))))
    case Unlock(ok) =>
      Some(s.(flocks := s.flocks - {r}).Goto(t, AfterUnlock(th.pc.op, ok)))
  }

  /** `release()` on the thread's handle: only the first call goes on to the registry. */
  function BeginRelease(s: World, t: Tid): World
    requires t in s.threads
  {
    if t in s.handles && !s.handles[t] then s.(handles := s.handles[t := true]).Goto(t, WantRelease)
    else s.Goto(t, Done)
  }

  /** One step of a thread outside the store: the registry and the executor. */
  function RegistryStep(s: World, t: Tid): Option<World>
    requires t in s.threads && s.threads[t].oc in s.ocs && !s.threads[t].pc.InStore?
  {
    var th := s.threads[t];
    var oc := s.ocs[th.oc];
    match th.pc
    case Entered =>
      Some(s.Goto(t, if oc.swept then WantMutex else Sweeping))
    case WantMutex =>
      if oc.mutex.Some? then None
      else Some(s.SetOc(th.oc, oc.(mutex := Some(t))).Goto(t, HaveMutex))
    case HaveMutex =>
      Some(s.Goto(t, if th.repo in oc.held then Finishing else InStore(Acquire, Flock)))
    case Committing =>
      Some(s.SetOc(th.oc, oc.(held := oc.held + {th.repo}, mutex := None)).Goto(t, Held)
            .(handles := s.handles[t := false]))
    case Waiting(audit) =>
      if audit in s.audits && s.audits[audit].parent == Some(t) then None
      else Some(BeginRelease(s, t))
    case WantRelease =>
      if oc.mutex.Some? then None
      else Some(s.SetOc(th.oc, oc.(mutex := Some(t))).Goto(t, Discarding))
    case Discarding =>
      Some(s.SetOc(th.oc, oc.(held := oc.held - {th.repo})).Goto(t, InStore(Release, Flock)))
    case Finishing =>
      Some(s.SetOc(th.oc, oc.(mutex := None)).Goto(t, Done))
    case _ => None
  }

  /** The sentinel could not be locked in time; each caller handles the error its own way. */
  function TimeoutStep(s: World, t: Tid): Option<World>
    requires t in s.threads && s.threads[t].oc in s.ocs
  {
    var th := s.threads[t];
    if !(th.pc.InStore? && th.pc.phase.Flock? && OpRepo(th) in s.flocks) then None
    else
      match th.pc.op
      case Acquire => Some(s.Goto(t, Finishing))
      case Record(audit) => Some(s.Goto(t, Waiting(audit)))
      case Release => Some(s.Goto(t, Finishing))
      case Reclaim(_) =>
        Some(s.SetOc(th.oc, s.ocs[th.oc].(swept := true)).Goto(t, Done))
  }

  /** A process dies: its threads and sentinel locks vanish, its audits are orphaned. */
  function CrashStep(s: World, pid: int): World {
    var gone := set t | t in s.threads && s.threads[t].oc == pid;
    s.(ocs := s.ocs - {pid},
       threads := s.threads - gone,
       flocks := map r | r in s.flocks && s.flocks[r] !in gone :: s.flocks[r],
       temps := s.temps - gone,
       handles := s.handles - gone,
       audits := map a | a in s.audits ::
         if s.audits[a].parent.Some? && s.audits[a].parent.value in gone
         then s.audits[a].(parent := None) else s.audits[a])
  }

  /** The world after one move of a live thread, or None when it cannot move that way now. */
  function Advance(s: World, t: Tid, move: Move): Option<World>
    requires t in s.threads && s.threads[t].oc in s.ocs
  {
    var th := s.threads[t];
    match move
    case PickSweep(target) =>
      if th.pc != Sweeping then None else Some(s.Goto(t, InStore(Reclaim(target), Flock)))
    case EndSweep =>
      if th.pc != Sweeping then None
      else Some(s.SetOc(th.oc, s.ocs[th.oc].(swept := true)).Goto(t, WantMutex))
    case FlockTimeout =>
      TimeoutStep(s, t)
    case Popen(audit) =>
      if th.pc != Held || audit <= 0 || audit in s.Live() then None
      else Some(s.(audits := s.audits[audit := Audit(th.repo, Some(t))])
                 .Goto(t, InStore(Record(audit), Flock)))
    case PopenFails =>
      if th.pc != Held then None else Some(BeginRelease(s, t))
    case StrayRelease =>
      if th.pc != Done then None else Some(BeginRelease(s, t))
    case Step =>
      if th.pc.InStore? then StoreStep(s, t) else RegistryStep(s, t)
  }

  /** The world after an action, or None when the action cannot happen now. */
  function Next(s: World, act: Action): Option<World> {
    match act
    case StartOc(pid) =>
      if pid <= 0 || pid in s.Live() then None
      else Some(s.SetOc(pid, Oc({}, false, None)))
    case Crash(pid) =>
      if pid !in s.ocs then None else Some(CrashStep(s, pid))
    case StartOther(pid) =>
      if pid <= 0 || pid in s.Live() then None else Some(s.(others := s.others + {pid}))
    case StopOther(pid) =>
      Some(s.(others := s.others - {pid}))
    case AuditExit(pid) =>
      Some(s.(audits := s.audits - {pid}))
    case Dispatch(t, pid, repo, runId) =>
      if t in s.threads || pid !in s.ocs then None
      else Some(s.(threads := s.threads[t := Thread(pid, repo, runId, Entered)]))
    case Act(t, move) =>
      if t in s.threads && s.threads[t].oc in s.ocs then Advance(s, t, move) else None
  }

  /** The world after a whole run of actions, if every one of them can happen. */
  function Exec(s: World, acts: seq<Action>): Option<World>
    decreases |acts|
  {
    if acts == [] then Some(s)
    else
      var s' := Next(s, acts[0]);
      if s'.None? then None else Exec(s'.value, acts[1..])
  }

  /** The lock file of this repo names this audit's PID. */
  predicate RecordedOnDisk(s: World, repo: Repo, audit: int) {
    repo in s.disk && s.disk[repo].Whole? && s.disk[repo].payload.auditPid == Some(audit)
  }

  /** The repos for which this action is the death of a process whose own audit is
      alive and not yet named by the lock file. */
  function LostBy(s: World, act: Action): set<Repo> {
    if !act.Crash? then {}
    else set a | a in s.audits && s.audits[a].parent.Some?
                 && s.audits[a].parent.value in s.threads
                 && s.threads[s.audits[a].parent.value].oc == act.pid
                 && !RecordedOnDisk(s, s.audits[a].repo, a) :: s.audits[a].repo
  }

  /** The repos that lost an audit in this way at some point of a run. */
  function LostIn(s: World, acts: seq<Action>): set<Repo>
    decreases |acts|
  {
    if acts == [] || Next(s, acts[0]).None? then {}
    else LostBy(s, acts[0]) + LostIn(Next(s, acts[0]).value, acts[1..])
  }

  /** Two audits of one repo are alive together. */
  ghost predicate Overlap(s: World, repo: Repo) {
    exists a, b :: a in s.audits && b in s.audits && a != b
      && s.audits[a].repo == repo && s.audits[b].repo == repo
  }
}
