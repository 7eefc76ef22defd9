/** What a thread of the dispatch protocol keeps to itself: the temporary file it is writing,
    and the handle of the lock it has got. */
module DispatchThreads {
  import opened Prelude
  import opened LockFiles
  import opened DispatchProtocol

  function TempOf(s: World, t: Tid): Option<LockFile> {
    if t in s.temps then Some(s.temps[t]) else None
  }

  /** The `_released` flag of the thread's handle, if it has one. */
  function HandleOf(s: World, t: Tid): Option<bool> {
    if t in s.handles then Some(s.handles[t]) else None
  }

  /** The temporary file a thread has at this place. */
  function TempAt(pc: Pc): Option<LockFile> {
    if !pc.InStore? then None
    else
      match pc.phase
      case TempTorn(_) => Some(Torn)
      case TempWhole(p) => Some(Whole(p))
      case _ => None
  }

  /** No handle before the acquire is complete, an open one until `release()` begins, a
      released one from then on. A thread that never got the lock ends without one. */
  predicate HandleFits(pc: Pc, handle: Option<bool>) {
    match pc
    case InStore(op, _) =>
      if op.Record? then handle == Some(false) else if op.Release? then handle == Some(true) else handle == None
    case Held => handle == Some(false)
    case Waiting(_) => handle == Some(false)
    case WantRelease => handle == Some(true)
    case Discarding => handle == Some(true)
    case Finishing => handle != Some(false)
    case Done => handle != Some(false)
    case _ => handle == None
  }

  predicate ThreadOk(s: World, t: Tid)
    requires t in s.threads
  {
    TempOf(s, t) == TempAt(s.threads[t].pc) && HandleFits(s.threads[t].pc, HandleOf(s, t))
  }

  ghost predicate Local(s: World) {
    && (forall t :: t in s.threads ==> ThreadOk(s, t))
    && (forall t :: t in s.temps ==> t in s.threads)
    && (forall t :: t in s.handles ==> t in s.threads)
  }

  /** Nothing of this kind changed for thread u. */
  predicate SameFor(s: World, s': World, u: Tid) {
    && (u in s.threads <==> u in s'.threads) && (u in s.threads ==> s'.threads[u] == s.threads[u])
    && TempOf(s', u) == TempOf(s, u) && HandleOf(s', u) == HandleOf(s, u)
  }

  /** The step moves thread t alone, and touches nobody else's things. */
  predicate Moves(s: World, s': World, t: Tid, pc: Pc)
    requires t in s.threads
  {
    && s'.threads == s.threads[t := s.threads[t].(pc := pc)]
    && s'.temps - {t} == s.temps - {t}
    && s'.handles - {t} == s.handles - {t}
  }

  lemma MovesLeaves(s: World, s': World, t: Tid, pc: Pc, u: Tid)
    requires t in s.threads && Moves(s, s', t, pc) && u != t
    ensures SameFor(s, s', u)
  {
    assert u in s.temps <==> u in s.temps - {t};
    assert u in s'.temps <==> u in s'.temps - {t};
    assert u in s.handles <==> u in s.handles - {t};
    assert u in s'.handles <==> u in s'.handles - {t};
    assert u in s.temps ==> s.temps[u] == (s.temps - {t})[u];
    assert u in s'.temps ==> s'.temps[u] == (s'.temps - {t})[u];
    assert u in s.handles ==> s.handles[u] == (s.handles - {t})[u];
    assert u in s'.handles ==> s'.handles[u] == (s'.handles - {t})[u];
  }

  /** A step of thread t, and what it makes of the thread's own things. */
  predicate Takes(s: World, s': World, t: Tid, pc: Pc)
    requires t in s.threads
  {
    Moves(s, s', t, pc) && TempOf(s', t) == TempAt(pc) && HandleFits(pc, HandleOf(s', t))
  }

  /** Checks and locks leave temporary files and handles alone. */
  lemma CheckTakes(s: World, t: Tid)
    requires t in s.threads && s.threads[t].pc.InStore? && ThreadOk(s, t) && StoreStep(s, t).Some?
    requires var phase := s.threads[t].pc.phase; phase.Read? || phase.CheckOc? || phase.CheckAudit?
    ensures var s' := StoreStep(s, t).value; t in s'.threads && Takes(s, s', t, s'.threads[t].pc)
  {
    var s' := StoreStep(s, t).value;
    var pc := s'.threads[t].pc;
    assert s' == s.Goto(t, pc) && pc.InStore? && pc.op == s.threads[t].pc.op && TempAt(pc) == None;
    hide StoreStep, TempAt;
  }

  lemma FlockTakes(s: World, t: Tid)
    requires t in s.threads && s.threads[t].pc.InStore? && ThreadOk(s, t) && StoreStep(s, t).Some?
    requires s.threads[t].pc.phase.Flock? || s.threads[t].pc.phase.Unlock?
    ensures var s' := StoreStep(s, t).value; t in s'.threads && Takes(s, s', t, s'.threads[t].pc)
  {
  }

  lemma FileTakes(s: World, t: Tid)
    requires t in s.threads && s.threads[t].pc.InStore? && ThreadOk(s, t) && StoreStep(s, t).Some?
    requires var phase := s.threads[t].pc.phase; phase.Draft? || phase.TempTorn? || phase.TempWhole? || phase.Unlink?
    ensures var s' := StoreStep(s, t).value; t in s'.threads && Takes(s, s', t, s'.threads[t].pc)
  {
  }

  lemma StoreTakes(s: World, t: Tid)
    requires t in s.threads && s.threads[t].pc.InStore? && ThreadOk(s, t) && StoreStep(s, t).Some?
    ensures var s' := StoreStep(s, t).value; t in s'.threads && Takes(s, s', t, s'.threads[t].pc)
  {
    hide StoreStep, Takes, ThreadOk;
    match s.threads[t].pc.phase
    case Flock => FlockTakes(s, t);
    case Unlock(_) => FlockTakes(s, t);
    case Read => CheckTakes(s, t);
    case CheckOc(_) => CheckTakes(s, t);
    case CheckAudit(_) => CheckTakes(s, t);
    case _ => FileTakes(s, t);
  }

  lemma EnterTakes(s: World, t: Tid)
    requires t in s.threads && s.threads[t].oc in s.ocs && ThreadOk(s, t)
    requires s.threads[t].pc.Entered? || s.threads[t].pc.HaveMutex?
    requires RegistryStep(s, t).Some?
    ensures var s' := RegistryStep(s, t).value; t in s'.threads && Takes(s, s', t, s'.threads[t].pc)
  {
  }

  /** A thread that locks or unlocks the registry moves on with the handle it has. */
  lemma MutexTakes(s: World, t: Tid, oc: Oc, pc: Pc)
    requires t in s.threads && ThreadOk(s, t)
    requires TempAt(s.threads[t].pc) == None == TempAt(pc) && HandleFits(pc, HandleOf(s, t))
    ensures Takes(s, s.SetOc(s.threads[t].oc, oc).Goto(t, pc), t, pc)
  {
  }

  lemma HandleTakes(s: World, t: Tid)
    requires t in s.threads && s.threads[t].oc in s.ocs && ThreadOk(s, t)
    requires s.threads[t].pc.Committing? || s.threads[t].pc.Waiting?
    requires RegistryStep(s, t).Some?
    ensures var s' := RegistryStep(s, t).value; t in s'.threads && Takes(s, s', t, s'.threads[t].pc)
  {
  }

  lemma LockTakes(s: World, t: Tid)
    requires t in s.threads && s.threads[t].oc in s.ocs && ThreadOk(s, t)
    requires var pc := s.threads[t].pc; pc.WantMutex? || pc.WantRelease? || pc.Discarding? || pc.Finishing?
    requires RegistryStep(s, t).Some?
    ensures var s' := RegistryStep(s, t).value; t in s'.threads && Takes(s, s', t, s'.threads[t].pc)
  {
    var th := s.threads[t];
    var s' := RegistryStep(s, t).value;
    MutexTakes(s, t, s'.ocs[th.oc], s'.threads[t].pc);
    hide Takes, ThreadOk, HandleFits;
    assert s' == s.SetOc(th.oc, s'.ocs[th.oc]).Goto(t, s'.threads[t].pc);
  }

  lemma RegistryTakes(s: World, t: Tid)
    requires t in s.threads && s.threads[t].oc in s.ocs && ThreadOk(s, t) && !s.threads[t].pc.InStore?
    requires RegistryStep(s, t).Some?
    ensures var s' := RegistryStep(s, t).value; t in s'.threads && Takes(s, s', t, s'.threads[t].pc)
  {
    hide Takes, ThreadOk;
    match s.threads[t].pc
    case Committing => HandleTakes(s, t);
    case Waiting(_) => HandleTakes(s, t);
    case Entered => EnterTakes(s, t);
    case HaveMutex => EnterTakes(s, t);
    case _ => LockTakes(s, t);
  }

  lemma OtherTakes(s: World, t: Tid, move: Move)
    requires t in s.threads && s.threads[t].oc in s.ocs && ThreadOk(s, t) && Advance(s, t, move).Some? && !move.Step?
    ensures var s' := Advance(s, t, move).value; t in s'.threads && Takes(s, s', t, s'.threads[t].pc)
  {
    hide StoreStep, RegistryStep;
    match move
    case FlockTimeout =>
    case Popen(_) =>
    case PopenFails =>
    case StrayRelease =>
    case _ =>
  }

  lemma AdvanceTakes(s: World, t: Tid, move: Move)
    requires t in s.threads && s.threads[t].oc in s.ocs && ThreadOk(s, t) && Advance(s, t, move).Some?
    ensures var s' := Advance(s, t, move).value; t in s'.threads && Takes(s, s', t, s'.threads[t].pc)
  {
    if !move.Step? {
      OtherTakes(s, t, move);
    } else if s.threads[t].pc.InStore? {
      StoreTakes(s, t);
    } else {
      RegistryTakes(s, t);
    }
    hide StoreStep, RegistryStep, Takes;
  }

  lemma AdvanceKeepsLocal(s: World, t: Tid, move: Move)
    requires Local(s) && t in s.threads && s.threads[t].oc in s.ocs && Advance(s, t, move).Some?
    ensures Local(Advance(s, t, move).value)
  {
    hide Advance, HandleFits, TempAt, Moves;
    AdvanceTakes(s, t, move);
    var s' := Advance(s, t, move).value;
    forall u | u != t
      ensures SameFor(s, s', u)
    {
      MovesLeaves(s, s', t, s'.threads[t].pc, u);
    }
    forall u | u in s'.threads
      ensures ThreadOk(s', u)
    {
      if u != t { assert SameFor(s, s', u) && ThreadOk(s, u); }
    }
    forall u | u in s'.temps || u in s'.handles
      ensures u in s'.threads
    {
      if u != t { assert SameFor(s, s', u); }
    }
  }

  lemma CrashKeepsLocal(s: World, pid: int)
    requires Local(s)
    ensures Local(CrashStep(s, pid))
  {
    var s' := CrashStep(s, pid);
    hide HandleFits, TempAt;
    forall u | u in s'.threads
      ensures ThreadOk(s', u)
    {
      assert ThreadOk(s, u);
    }
  }

  /** Every action keeps each thread's own things in order. */
  lemma NextKeepsLocal(s: World, act: Action)
    requires Local(s) && Next(s, act).Some?
    ensures Local(Next(s, act).value)
  {
    var s' := Next(s, act).value;
    match act
    case Crash(pid) => CrashKeepsLocal(s, pid);
    case Act(t, move) => AdvanceKeepsLocal(s, t, move);
    case Dispatch(t, _, _, _) =>
      forall u | u in s'.threads
        ensures ThreadOk(s', u)
      {
        if u != t { assert ThreadOk(s, u); }
      }
    case _ =>
      forall u | u in s'.threads
        ensures ThreadOk(s', u)
      {
        assert ThreadOk(s, u);
      }
  }
}
