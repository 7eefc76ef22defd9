/**
 The persistent lock store as one process sees it while nobody else runs.

 The process table is passed in as the set of live PIDs. Interleavings with other
 processes are the subject of DispatchProtocol; `DispatchRuns.OperationAlone` shows
 that the two descriptions of a store operation agree.
 */
module LockStore {
  import opened Prelude
  import opened LockFiles
  import opened Sequences
  import opened Text

  /** `_iter_lock_files` skips names whose stem contains a dot. */
  predicate Listed(repo: Repo) {
    '.' !in repo
  }

  /** The directory after every listed stale lock is gone. */
  function SweptDisk(disk: map<Repo, LockFile>, live: set<int>): map<Repo, LockFile> {
    map r | r in disk && !(Listed(r) && Stale(live, disk[r])) :: disk[r]
  }

  predicate NoDuplicates<T(==)>(s: seq<T>) {
    forall i, j :: 0 <= i < j < |s| ==> s[i] != s[j]
  }

  /** The order in which the directory is listed: by file name. */
  predicate NameLeq(a: Repo, b: Repo) {
    TextLeq(a + ".lock", b + ".lock")
  }

  lemma NameLeqOrders()
    ensures TotalPreorder(NameLeq)
  {
    forall x, y
      ensures NameLeq(x, y) || NameLeq(y, x)
    {
      TextLeqTotal(x + ".lock", y + ".lock");
    }
    forall x, y, z | NameLeq(x, y) && NameLeq(y, z)
      ensures NameLeq(x, z)
    {
      TextLeqTransitive(x + ".lock", y + ".lock", z + ".lock");
    }
  }

  lemma {:induction false} NoDuplicatesBag(s: seq<Repo>)
    ensures NoDuplicates(s) <==> forall x :: multiset(s)[x] <= 1
  {
    if s != [] {
      var init, last := s[..|s| - 1], s[|s| - 1];
      assert s == init + [last];
      NoDuplicatesBag(init);
      if NoDuplicates(s) {
        assert last !in init;
        assert multiset(init)[last] == 0;
        assert NoDuplicates(init) by {
          assert forall i :: 0 <= i < |init| ==> init[i] == s[i];
        }
      } else if NoDuplicates(init) {
        var i, j :| 0 <= i < j < |s| && s[i] == s[j];
        assert j == |init| && init[i] == last;
        assert last in init && multiset(s)[last] >= 2;
      } else {
        var x :| multiset(init)[x] > 1;
        assert multiset(s)[x] > 1;
      }
    }
  }

  /** Sorting a list without duplicates. */
  lemma SortNames(names: seq<Repo>)
    requires NoDuplicates(names)
    ensures var r := StableSort(names, NameLeq);
      NoDuplicates(r) && Sorted(r, NameLeq) && forall x :: x in r <==> x in names
  {
    NameLeqOrders();
    StableSortSorts(names, NameLeq);
    SameBag(StableSort(names, NameLeq), names);
    NoDuplicatesBag(names);
    NoDuplicatesBag(StableSort(names, NameLeq));
  }

  /** The next name of a sorted list comes behind any of the earlier ones. */
  lemma ComesLast(names: seq<Repo>, i: nat, some: seq<Repo>)
    requires Sorted(names, NameLeq) && i < |names| && Sorted(some, NameLeq) && forall x :: x in some ==> x in names[..i]
    ensures Sorted(some + [names[i]], NameLeq)
  {
    forall x | x in some
      ensures NameLeq(x, names[i])
    {
      var j :| 0 <= j < i && names[..i][j] == x;
      assert names[j] == x;
    }
    SortedAppend(some, names[i], NameLeq);
  }

  class PersistentLockStore {
    var disk: map<Repo, LockFile>

    constructor ()
      ensures disk == map[]
    {
      disk := map[];
    }

    /** The payload of a repo's lock, nothing when there is no file, an error when it is torn. */
    method Read(repo: Repo) returns (r: Result<Option<Payload>, LockError>)
      ensures r == Ok(None) <==> repo !in disk
      ensures r == Err(Corrupt) <==> repo in disk && disk[repo].Torn?
      ensures forall p :: r == Ok(Some(p)) <==> repo in disk && disk[repo] == Whole(p)
    {
      if repo !in disk { return Ok(None); }
      match disk[repo]
      case Torn => return Err(Corrupt);
      case Whole(p) => return Ok(Some(p));
    }

    method TryAcquire(p: Payload, live: set<int>) returns (r: Result<Payload, LockError>)
      modifies this
      ensures (r, disk) == AcquireSpec(old(disk), live, p)
      ensures p.repoId in old(disk) && old(disk)[p.repoId] == Torn ==> r == Err(Corrupt) && disk == old(disk)
      ensures forall holder :: p.repoId in old(disk) && old(disk)[p.repoId] == Whole(holder) ==>
        if (holder.ocPid > 0 && holder.ocPid in live)
           || (holder.auditPid.Some? && holder.auditPid.value > 0 && holder.auditPid.value in live)
        then r == Err(AlreadyHeld(holder)) && disk == old(disk)
        else r == Ok(p) && disk == old(disk)[p.repoId := Whole(p)]
      ensures p.repoId !in old(disk) ==> r == Ok(p) && disk == old(disk)[p.repoId := Whole(p)]
    {
      var existing := Read(p.repoId);
      if existing.Err? { return Err(existing.error); }
      if existing.value.Some? && IsAlive(live, existing.value.value) {
        return Err(AlreadyHeld(existing.value.value));
      }
      disk := disk[p.repoId := Whole(p)];
      return Ok(p);
    }

    method Release(repo: Repo) returns (removed: bool)
      modifies this
      ensures (removed, disk) == ReleaseSpec(old(disk), repo)
      ensures (removed <==> repo in old(disk)) && disk == old(disk) - {repo}
    {
      if repo !in disk {
        assert disk - {repo} == disk;
        return false;
      }
      disk := disk - {repo};
      return true;
    }

    method Update(repo: Repo, auditPid: Option<int>, auditPgid: Option<int>)
      returns (r: Result<Payload, LockError>)
      modifies this
      ensures (r, disk) == RecordSpec(old(disk), repo, auditPid, auditPgid)
      ensures repo !in old(disk) ==> r == Err(NoLock) && disk == old(disk)
      ensures repo in old(disk) && old(disk)[repo] == Torn ==> r == Err(Corrupt) && disk == old(disk)
      ensures forall p :: repo in old(disk) && old(disk)[repo] == Whole(p) ==>
        var q := Payload(p.repoId, p.runId, p.ocPid, auditPid, auditPgid);
        r == Ok(q) && disk == old(disk)[repo := Whole(q)]
    {
      var existing := Read(repo);
      if existing.Err? { return Err(existing.error); }
      if existing.value.None? { return Err(NoLock); }
      var updated := existing.value.value.(auditPid := auditPid, auditPgid := auditPgid);
      disk := disk[repo := Whole(updated)];
      return Ok(updated);
    }

    method ReclaimIfStale(repo: Repo, live: set<int>) returns (reclaimed: bool)
      modifies this
      ensures (reclaimed, disk) == ReclaimSpec(old(disk), live, repo)
      ensures repo !in old(disk) ==> !reclaimed && disk == old(disk)
      ensures repo in old(disk) && old(disk)[repo] == Torn ==> reclaimed && disk == old(disk) - {repo}
      ensures forall p :: repo in old(disk) && old(disk)[repo] == Whole(p) ==>
        if (p.ocPid > 0 && p.ocPid in live) || (p.auditPid.Some? && p.auditPid.value > 0 && p.auditPid.value in live)
        then !reclaimed && disk == old(disk)
        else reclaimed && disk == old(disk) - {repo}
    {
      var existing := Read(repo);
      if existing.Err? {
        disk := disk - {repo};
        return true;
      }
      if existing.value.None? { return false; }
      if IsAlive(live, existing.value.value) { return false; }
      disk := disk - {repo};
      return true;
    }

    /** Every listed lock file, each once, in the order of the file names. */
    method IterLockFiles() returns (out: seq<Repo>)
      ensures NoDuplicates(out) && Sorted(out, NameLeq)
      ensures forall r :: r in out <==> r in disk && Listed(r)
      ensures forall r :: r in out <==> r in disk && '.' !in r
    {
      out := [];
      var rest := disk.Keys;
      while rest != {}
        invariant rest <= disk.Keys
        invariant NoDuplicates(out)
        invariant forall r :: r in out <==> r in disk && r !in rest && Listed(r)
        decreases |rest|
      {
        var r :| r in rest;
        rest := rest - {r};
        if '.' !in r { out := out + [r]; }
      }
      SortNames(out);
      out := StableSort(out, NameLeq);
    }

    /** Reclaims every listed stale lock, touches no other, and reports exactly those repos,
        in the order of the file names. */
    method SweepStale(live: set<int>) returns (reclaimed: seq<Repo>)
      modifies this
      ensures disk == SweptDisk(old(disk), live)
      ensures NoDuplicates(reclaimed) && Sorted(reclaimed, NameLeq)
      ensures forall r :: r in reclaimed <==> r in old(disk) && Listed(r) && Stale(live, old(disk)[r])
      ensures forall r :: r in disk ==> r in old(disk) && disk[r] == old(disk)[r]
      ensures forall r :: r in old(disk) && r !in disk <==>
        && r in old(disk) && '.' !in r
        && forall p :: old(disk)[r] == Whole(p) ==>
             && (p.ocPid <= 0 || p.ocPid !in live)
             && (p.auditPid.None? || p.auditPid.value <= 0 || p.auditPid.value !in live)
    {
      hide NameLeq;
      reclaimed := [];
      var files := IterLockFiles();
      for i := 0 to |files|
        invariant NoDuplicates(reclaimed) && Sorted(reclaimed, NameLeq)
        invariant forall r :: r in reclaimed <==> r in files[..i] && Stale(live, old(disk)[r])
        invariant disk == map r | r in old(disk) && r !in reclaimed :: old(disk)[r]
      {
        var repo := files[i];
        assert repo !in files[..i];
        assert files[..i + 1] == files[..i] + [repo];
        var taken := ReclaimIfStale(repo, live);
        if taken {
          ComesLast(files, i, reclaimed);
          reclaimed := reclaimed + [repo];
        }
      }
      assert files[..|files|] == files;
    }
  }

  /** Directories are listed by code point: a name comes before those it begins, and at the
      first difference the smaller code point decides. */
  lemma ListedByCodePoint(names: seq<Repo>, i: nat, j: nat)
    requires Sorted(names, NameLeq) && i < j < |names|
    ensures var a, b := names[i] + ".lock", names[j] + ".lock";
      a <= b || exists k :: 0 <= k < |a| && k < |b| && a[..k] == b[..k] && a[k] < b[k]
  {
    TextLeqExactly(names[i] + ".lock", names[j] + ".lock");
  }

  /** A lock taken by a live process keeps every other acquire of that repo out. */
  lemma AcquireExcludes(disk: map<Repo, LockFile>, live: set<int>, p: Payload, q: Payload)
    requires AcquireSpec(disk, live, p).0.Ok? && PidAlive(live, Some(p.ocPid)) && q.repoId == p.repoId
    ensures AcquireSpec(AcquireSpec(disk, live, p).1, live, q) == (Err(AlreadyHeld(p)), AcquireSpec(disk, live, p).1)
  {
  }

  /** Recording the audit's PID keeps the lock alive after the dispatcher is gone. */
  lemma RecordOutlivesDispatcher(disk: map<Repo, LockFile>, live: set<int>, repo: Repo, audit: int)
    requires RecordSpec(disk, repo, Some(audit), Some(audit)).0.Ok? && PidAlive(live, Some(audit))
    ensures var disk' := RecordSpec(disk, repo, Some(audit), Some(audit)).1;
      && !ReclaimSpec(disk', live, repo).0
      && repo in SweptDisk(disk', live)
  {
  }
}
