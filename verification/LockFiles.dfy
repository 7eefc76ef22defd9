/** What one `{repo_id}.lock` file holds, and when the lock it describes is alive. */
module LockFiles {
  import opened Prelude

  type Repo = string

  /** The fields of a lock payload that the protocol reads or writes. */
  datatype Payload = Payload(
    repoId: Repo,
    runId: string,
    ocPid: int,
    auditPid: Option<int>,
    auditPgid: Option<int>)

  /** A lock file as a reader finds it: a whole payload, or text that does not parse. */
  datatype LockFile = Torn | Whole(payload: Payload)

  /** A PID answers signal 0. Absent and non-positive PIDs never do. */
  predicate PidAlive(live: set<int>, pid: Option<int>) {
    pid.Some? && pid.value > 0 && pid.value in live
  }

  /** The dual-PID rule: stale only when both recorded processes are dead. */
  predicate IsAlive(live: set<int>, p: Payload) {
    PidAlive(live, Some(p.ocPid)) || PidAlive(live, p.auditPid)
  }

  /** The payload a dispatching process writes when it takes the lock. */
  function NewPayload(repo: Repo, runId: string, ocPid: int): Payload {
    Payload(repo, runId, ocPid, None, None)
  }

  /** Why a store operation refused. */
  datatype LockError = AlreadyHeld(held: Payload) | HeldHere | Corrupt | NoLock

  /** `try_acquire`: refuse a live lock, replace a dead one. */
  function AcquireSpec(disk: map<Repo, LockFile>, live: set<int>, p: Payload)
    : (Result<Payload, LockError>, map<Repo, LockFile>)
  {
    if p.repoId in disk && disk[p.repoId].Torn? then (Err(Corrupt), disk)
    else if p.repoId in disk && IsAlive(live, disk[p.repoId].payload) then
      (Err(AlreadyHeld(disk[p.repoId].payload)), disk)
    else (Ok(p), disk[p.repoId := Whole(p)])
  }

  /** `update`: rewrite the audit PIDs of the lock on disk, whoever holds it. */
  function RecordSpec(disk: map<Repo, LockFile>, repo: Repo, auditPid: Option<int>, auditPgid: Option<int>)
    : (Result<Payload, LockError>, map<Repo, LockFile>)
  {
    if repo !in disk then (Err(NoLock), disk)
    else if disk[repo].Torn? then (Err(Corrupt), disk)
    else
      var p := disk[repo].payload.(auditPid := auditPid, auditPgid := auditPgid);
      (Ok(p), disk[repo := Whole(p)])
  }

  /** `release`: remove the lock file, whoever holds it. */
  function ReleaseSpec(disk: map<Repo, LockFile>, repo: Repo): (bool, map<Repo, LockFile>) {
    (repo in disk, disk - {repo})
  }

  /** A lock file that may be taken away: torn, or with both processes dead. */
  predicate Stale(live: set<int>, file: LockFile) {
    file.Torn? || !IsAlive(live, file.payload)
  }

  /** `reclaim_if_stale`. */
  function ReclaimSpec(disk: map<Repo, LockFile>, live: set<int>, repo: Repo): (bool, map<Repo, LockFile>) {
    if repo in disk && Stale(live, disk[repo]) then (true, disk - {repo}) else (false, disk)
  }
}
