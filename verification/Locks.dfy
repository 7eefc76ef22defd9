/** The in-process lock registry and the handles it gives out. */
module Locks {
  import opened Prelude
  import opened LockFiles
  import opened LockStore

  class ManagedRepoAuditLockRegistry {
    var held: set<Repo>
    var swept: bool
    const store: PersistentLockStore

    constructor (store: PersistentLockStore)
      ensures held == {} && !swept && this.store == store
    {
      this.held := {};
      this.swept := false;
      this.store := store;
    }

    /** Stale locks are swept on the first use of the registry and never again. */
    method SweepOnce(live: set<int>)
      modifies this`swept, store
      ensures swept
      ensures store.disk == if old(swept) then old(store.disk) else SweptDisk(old(store.disk), live)
    {
      if swept { return; }
      var _ := store.SweepStale(live);
      swept := true;
    }

    /** Takes the lock in memory and on disk, or in neither. */
    method Acquire(repo: Repo, runId: string, pid: int, live: set<int>)
      returns (r: Result<ManagedRepoAuditLock, LockError>)
      modifies this, store
      ensures swept
      ensures var before := if old(swept) then old(store.disk) else SweptDisk(old(store.disk), live);
        var payload := NewPayload(repo, runId, pid);
        if repo in old(held) then
          r == Err(HeldHere) && held == old(held) && store.disk == before
        else
          && store.disk == AcquireSpec(before, live, payload).1
          && r.Ok? == AcquireSpec(before, live, payload).0.Ok?
          && (r.Err? ==> held == old(held) && r.error == AcquireSpec(before, live, payload).0.error)
          && (r.Ok? ==>
                && held == old(held) + {repo}
                && fresh(r.value) && r.value.repoId == repo && r.value.registry == this
                && !r.value.released && r.value.payload == Some(payload))
      ensures r.Ok? ==> repo in store.disk && store.disk[repo] == Whole(Payload(repo, runId, pid, None, None))
    {
      SweepOnce(live);
      if repo in held { return Err(HeldHere); }
      var payload := NewPayload(repo, runId, pid);
      var written := store.TryAcquire(payload, live);
      if written.Err? { return Err(written.error); }
      held := held + {repo};
      var lock := new ManagedRepoAuditLock(repo, this, Some(payload));
      return Ok(lock);
    }

    method ReleaseRepo(repo: Repo)
      modifies this`held, store
      ensures held == old(held) - {repo}
      ensures store.disk == old(store.disk) - {repo}
    {
      held := held - {repo};
      var _ := store.Release(repo);
    }

    /** A lock is held when this process holds it or a live process is named on disk. */
    method IsHeld(repo: Repo, live: set<int>) returns (r: bool)
      ensures r <==> repo in held || (repo in store.disk && !Stale(live, store.disk[repo]))
      ensures r <==> repo in held || (exists p ::
        && repo in store.disk && store.disk[repo] == Whole(p)
        && ((p.ocPid > 0 && p.ocPid in live)
            || (p.auditPid.Some? && p.auditPid.value > 0 && p.auditPid.value in live)))
    {
      if repo in held { return true; }
      var existing := store.Read(repo);
      return existing.Ok? && existing.value.Some? && IsAlive(live, existing.value.value);
    }
  }

  class ManagedRepoAuditLock {
    const repoId: Repo
    const registry: ManagedRepoAuditLockRegistry
    var released: bool
    var payload: Option<Payload>

    constructor (repoId: Repo, registry: ManagedRepoAuditLockRegistry, payload: Option<Payload>)
      ensures this.repoId == repoId && this.registry == registry
      ensures !released && this.payload == payload
    {
      this.repoId := repoId;
      this.registry := registry;
      this.released := false;
      this.payload := payload;
    }

    /** Names the audit's PIDs on disk; a handle without payload does nothing. */
    method UpdateAuditPid(auditPid: int, auditPgid: Option<int>) returns (r: Result<(), LockError>)
      modifies this`payload, registry.store
      ensures old(payload).None? ==>
        r == Ok(()) && payload == None && registry.store.disk == old(registry.store.disk)
      ensures old(payload).Some? ==>
        var (result, disk) := RecordSpec(old(registry.store.disk), repoId, Some(auditPid), auditPgid);
        && registry.store.disk == disk
        && payload == (if result.Ok? then Some(result.value) else old(payload))
        && r == (if result.Ok? then Ok(()) else Err(result.error))
    {
      if payload.None? { return Ok(()); }
      var updated := registry.store.Update(repoId, Some(auditPid), auditPgid);
      if updated.Err? { return Err(updated.error); }
      payload := Some(updated.value);
      return Ok(());
    }

    /** The first release removes the lock; every later one changes nothing at all, even
        when someone else has taken the repo's lock in the meantime. */
    method Release()
      modifies this`released, registry, registry.store
      ensures released
      ensures old(released) ==>
        unchanged(registry) && registry.store.disk == old(registry.store.disk)
      ensures !old(released) ==>
        && registry.held == old(registry.held) - {repoId}
        && registry.store.disk == old(registry.store.disk) - {repoId}
        && registry.swept == old(registry.swept)
    {
      if !released {
        released := true;
        registry.ReleaseRepo(repoId);
      }
    }
  }

  /** A whole dispatch on a free repo, whatever happens between: acquire, record, release,
      and a stray second release after the repo was taken again. The second lock survives. */
  method DispatchTwice(registry: ManagedRepoAuditLockRegistry, repo: Repo, pid: int, audit: int, live: set<int>)
    returns (second: ManagedRepoAuditLock)
    requires repo !in registry.held && repo !in registry.store.disk && registry.swept
    modifies registry, registry.store
    ensures registry.held == old(registry.held) + {repo}
    ensures registry.store.disk == old(registry.store.disk)[repo := Whole(NewPayload(repo, "second", pid))]
    ensures second.repoId == repo && !second.released
  {
    var first := registry.Acquire(repo, "first", pid, live);
    var recorded := first.value.UpdateAuditPid(audit, Some(audit));
    first.value.Release();
    assert registry.store.disk == old(registry.store.disk);
    var again := registry.Acquire(repo, "second", pid, live);
    first.value.Release();
    second := again.value;
  }
}
