/**
 Governed runs of one repo and audit type, side by side.

 Every run reads the budget under the state file's lock, reads the cooldown, decides,
 dispatches, increments under the lock again, and updates the cooldown. Between two steps
 of one run the others, the clock and a crash may come in. The cooldown file is read and
 overwritten whole, each under a lock of its own, so each is one step. A slot is one run
 at a time; runs without a sign-off only.
 */
module BudgetProtocol {
  import opened Prelude
  import opened GovernancePolicy
  import opened GovernedRuns

  datatype Limits = Limits(budget: BudgetConfig, cooldown: int)

  /** Where a run is; Reading to Loaded and Opening to Closing are under the lock. */
  datatype Pc =
    | Idle
    | Reading
    | Loaded(seen: BudgetState)
    | WantsCooldown(seen: BudgetState)
    | Deciding(seen: BudgetState, last: Option<int>)
    | Dispatching
    | WantsLock(ranAt: int)
    | Opening(ranAt: int)
    | Writing(draft: BudgetState, newPeriod: bool, ranAt: int)
    | Closing(ranAt: int)
    | Stamping(ranAt: int)

  datatype Action =
    | Tick(micros: nat)
    | LockToRead(slot: nat)
    | Read(slot: nat)
    | UnlockRead(slot: nat)
    | ReadCooldown(slot: nat)
    | Decide(slot: nat)
    | OtherwiseRefused(slot: nat)
    | DispatchReturns(slot: nat)
    | DispatchRaises(slot: nat)
    | LockToWrite(slot: nat)
    | Reread(slot: nat)
    | Write(slot: nat)
    | UnlockWrite(slot: nat)
    | UpdateCooldown(slot: nat)
    | Crash(slot: nat)

  /** `written` counts the increments since the file's period began; `lastRun` is what the
      cooldown file holds. */
  datatype World = World(
    runs: seq<Pc>, file: Option<BudgetState>, lock: Option<nat>, now: int, written: nat, lastRun: Option<int>)
  {
    function Goto(slot: nat, pc: Pc): World
      requires slot < |runs|
    {
      this.(runs := runs[slot := pc])
    }

    predicate At(slot: nat) {
      slot < |runs|
    }
  }

  function Start(slots: nat, now: int): World {
    World(seq(slots, _ => Idle), None, None, now, 0, None)
  }

  /** A load at this moment begins a new period. */
  predicate Expired(w: World) {
    w.file.None? || w.now > w.file.value.periodEnd
  }

  /** The budget is exhausted, or the last run is too recent. */
  predicate TurnedAway(cfg: Limits, w: World, pc: Pc)
    requires pc.Deciding?
  {
    pc.seen.Exhausted() || CooldownState(cfg.cooldown, pc.last).InCooldown(w.now)
  }

  /** One step; an action that is not possible leaves the world as it is. */
  function Step(cfg: Limits, w: World, a: Action): World {
    match a
    case Tick(micros) => w.(now := w.now + micros)
    case LockToRead(s) =>
      if w.At(s) && w.runs[s].Idle? && w.lock.None? then w.Goto(s, Reading).(lock := Some(s)) else w
    case Read(s) =>
      if w.At(s) && w.runs[s].Reading? then w.Goto(s, Loaded(LoadBudget(w.file, cfg.budget, w.now))) else w
    case UnlockRead(s) =>
      if w.At(s) && w.runs[s].Loaded? then w.Goto(s, WantsCooldown(w.runs[s].seen)).(lock := None) else w
    case ReadCooldown(s) =>
      if w.At(s) && w.runs[s].WantsCooldown? then w.Goto(s, Deciding(w.runs[s].seen, w.lastRun)) else w
    case Decide(s) =>
      if w.At(s) && w.runs[s].Deciding? then
        w.Goto(s, if TurnedAway(cfg, w, w.runs[s]) then Idle else Dispatching)
      else w
    case OtherwiseRefused(s) => if w.At(s) && w.runs[s].Deciding? then w.Goto(s, Idle) else w
    case DispatchReturns(s) => if w.At(s) && w.runs[s].Dispatching? then w.Goto(s, WantsLock(w.now)) else w
    case DispatchRaises(s) => if w.At(s) && w.runs[s].Dispatching? then w.Goto(s, Idle) else w
    case LockToWrite(s) =>
      if w.At(s) && w.runs[s].WantsLock? && w.lock.None? then
        w.Goto(s, Opening(w.runs[s].ranAt)).(lock := Some(s))
      else w
    case Reread(s) =>
      if w.At(s) && w.runs[s].Opening? then
        w.Goto(s, Writing(LoadBudget(w.file, cfg.budget, w.now), Expired(w), w.runs[s].ranAt))
      else w
    case Write(s) =>
      if w.At(s) && w.runs[s].Writing? then
        var draft := w.runs[s].draft;
        w.Goto(s, Closing(w.runs[s].ranAt)).(
          file := Some(draft.(runsUsed := draft.runsUsed + 1)),
          written := if w.runs[s].newPeriod then 1 else w.written + 1)
      else w
    case UnlockWrite(s) =>
      if w.At(s) && w.runs[s].Closing? then w.Goto(s, Stamping(w.runs[s].ranAt)).(lock := None) else w
    case UpdateCooldown(s) =>
      if w.At(s) && w.runs[s].Stamping? then w.Goto(s, Idle).(lastRun := Some(w.runs[s].ranAt)) else w
    case Crash(s) =>
      if w.At(s) then w.Goto(s, Idle).(lock := if w.lock == Some(s) then None else w.lock) else w
  }

  function Exec(cfg: Limits, w: World, actions: seq<Action>): World {
    if actions == [] then w else Step(cfg, Exec(cfg, w, actions[..|actions| - 1]), actions[|actions| - 1])
  }

  // ---- Counting the runs that may still increment ----

  /** A run that saw budget left, or is past that question. */
  predicate Committed(pc: Pc) {
    match pc
    case Idle => false
    case Reading => false
    case Loaded(seen) => !seen.Exhausted()
    case WantsCooldown(seen) => !seen.Exhausted()
    case Deciding(seen, _) => !seen.Exhausted()
    case Dispatching => true
    case WantsLock(_) => true
    case Opening(_) => true
    case Writing(_, _, _) => true
    case Closing(_) => false
    case Stamping(_) => false
  }

  function Weight(pc: Pc): nat {
    if Committed(pc) then 1 else 0
  }

  function Count(runs: seq<Pc>): (k: nat)
    ensures k <= |runs|
  {
    if runs == [] then 0 else Count(runs[..|runs| - 1]) + Weight(runs[|runs| - 1])
  }

  lemma {:induction false} CountUpdate(runs: seq<Pc>, s: nat, pc: Pc)
    requires s < |runs|
    ensures Count(runs[s := pc]) == Count(runs) - Weight(runs[s]) + Weight(pc)
    decreases |runs|
  {
    var k := |runs| - 1;
    if s < k {
      assert runs[s := pc][..k] == runs[..k][s := pc];
      CountUpdate(runs[..k], s, pc);
    } else {
      assert runs[s := pc][..k] == runs[..k];
    }
  }

  // ---- The invariant ----

  predicate UnderLock(pc: Pc) {
    pc.Reading? || pc.Loaded? || pc.Opening? || pc.Writing? || pc.Closing?
  }

  /** The budget used as a load at this moment would see it. */
  function Used(w: World): int {
    if Expired(w) then 0 else w.file.value.runsUsed
  }

  /** No two runs are inside the lock, and every file access is inside it. */
  predicate LockOk(w: World) {
    && (forall s :: 0 <= s < |w.runs| ==> (UnderLock(w.runs[s]) <==> w.lock == Some(s)))
    && (w.lock.Some? ==> w.lock.value < |w.runs|)
  }

  /** What a run remembers was loaded with this limit. */
  predicate SeenOk(cfg: Limits, pc: Pc) {
    && (pc.Loaded? ==> pc.seen.maxRuns == cfg.budget.maxRuns)
    && (pc.WantsCooldown? ==> pc.seen.maxRuns == cfg.budget.maxRuns)
    && (pc.Deciding? ==> pc.seen.maxRuns == cfg.budget.maxRuns)
  }

  /** A draft still continues the file it was loaded from, and has room for its increment. */
  predicate DraftOk(cfg: Limits, w: World, pc: Pc) {
    pc.Writing? ==>
      && pc.draft.runsUsed + Count(w.runs) <= cfg.budget.maxRuns - 1 + |w.runs|
      && pc.draft.runsUsed == (if pc.newPeriod then 0 else w.written)
      && (!pc.newPeriod ==> w.file.Some? && pc.draft.runsUsed == w.file.value.runsUsed)
  }

  predicate RunsOk(cfg: Limits, w: World) {
    forall s :: 0 <= s < |w.runs| ==> SeenOk(cfg, w.runs[s]) && DraftOk(cfg, w, w.runs[s])
  }

  /** Runs that may still increment fit in what is left of the bound. */
  predicate RoomOk(cfg: Limits, w: World) {
    Count(w.runs) > 0 ==> Used(w) + Count(w.runs) <= cfg.budget.maxRuns - 1 + |w.runs|
  }

  predicate FileOk(cfg: Limits, w: World) {
    w.file.Some? ==> 0 < w.file.value.runsUsed == w.written <= cfg.budget.maxRuns - 1 + |w.runs|
  }

  predicate Inv(cfg: Limits, w: World) {
    LockOk(w) && RunsOk(cfg, w) && RoomOk(cfg, w) && FileOk(cfg, w)
  }

  lemma {:induction false} StartCount(n: nat)
    ensures Count(seq(n, _ => Idle)) == 0
  {
    if n > 0 {
      assert seq(n, _ => Idle)[..n - 1] == seq(n - 1, _ => Idle);
      StartCount(n - 1);
    }
  }

  /** The slot an action is about. */
  function SlotOf(a: Action): Option<nat> {
    if a.Tick? then None else Some(a.slot)
  }

  lemma StepOneSlot(cfg: Limits, w: World, a: Action)
    requires !a.Tick? && a.slot < |w.runs|
    ensures var w' := Step(cfg, w, a);
      |w'.runs| == |w.runs| && w'.runs == w.runs[a.slot := w'.runs[a.slot]]
  {
  }

  /** Any step of one slot changes the count by the weight of that slot alone. */
  lemma CountStep(cfg: Limits, w: World, a: Action)
    requires !a.Tick? && a.slot < |w.runs|
    ensures var w' := Step(cfg, w, a);
      && |w'.runs| == |w.runs|
      && (forall s :: 0 <= s < |w.runs| && s != a.slot ==> w'.runs[s] == w.runs[s])
      && Count(w'.runs) == Count(w.runs) - Weight(w.runs[a.slot]) + Weight(w'.runs[a.slot])
      && Weight(w.runs[a.slot]) <= Count(w.runs) <= |w.runs| - 1 + Weight(w.runs[a.slot])
  {
    StepOneSlot(cfg, w, a);
    hide Step, Count, Committed;
    var w' := Step(cfg, w, a);
    CountUpdate(w.runs, a.slot, w'.runs[a.slot]);
    CountUpdate(w.runs, a.slot, Dispatching);
    CountUpdate(w.runs, a.slot, Idle);
  }

  lemma StepKeepsLock(cfg: Limits, w: World, a: Action)
    requires LockOk(w)
    ensures LockOk(Step(cfg, w, a))
  {
  }

  /** A step other than a write leaves file and room in order. */
  lemma OtherStepRoom(cfg: Limits, w: World, a: Action)
    requires Inv(cfg, w) && !a.Write? && !a.Tick? && a.slot < |w.runs|
    ensures var w' := Step(cfg, w, a);
      RoomOk(cfg, w') && FileOk(cfg, w') && w'.file == w.file && w'.written == w.written
  {
    CountStep(cfg, w, a);
    assert SeenOk(cfg, w.runs[a.slot]);
    hide Count, LockOk, DraftOk;
    var w' := Step(cfg, w, a);
    assert Used(w') == Used(w);
  }

  /** It leaves the slot itself in order, */
  lemma OtherStepOwn(cfg: Limits, w: World, a: Action)
    requires Inv(cfg, w) && !a.Write? && !a.Tick? && a.slot < |w.runs|
    ensures var w' := Step(cfg, w, a); SeenOk(cfg, w'.runs[a.slot]) && DraftOk(cfg, w', w'.runs[a.slot])
  {
    CountStep(cfg, w, a);
    assert SeenOk(cfg, w.runs[a.slot]) && DraftOk(cfg, w, w.runs[a.slot]);
    hide Count, LockOk, RunsOk;
  }

  /** and the drafts of the others, which can only be there while this one is outside the lock. */
  lemma OtherStepRuns(cfg: Limits, w: World, a: Action, t: nat)
    requires Inv(cfg, w) && !a.Write? && !a.Tick? && a.slot < |w.runs| && t < |w.runs| && t != a.slot
    ensures var w' := Step(cfg, w, a); SeenOk(cfg, w'.runs[t]) && DraftOk(cfg, w', w'.runs[t])
  {
    CountStep(cfg, w, a);
    OtherStepRoom(cfg, w, a);
    assert SeenOk(cfg, w.runs[t]) && DraftOk(cfg, w, w.runs[t]);
    assert UnderLock(w.runs[t]) ==> !UnderLock(w.runs[a.slot]);
    hide Count, LockOk, RunsOk, RoomOk, FileOk;
  }

  lemma OtherStep(cfg: Limits, w: World, a: Action)
    requires Inv(cfg, w) && !a.Write? && !a.Tick? && a.slot < |w.runs|
    ensures var w' := Step(cfg, w, a); RunsOk(cfg, w') && RoomOk(cfg, w') && FileOk(cfg, w')
  {
    CountStep(cfg, w, a);
    OtherStepRoom(cfg, w, a);
    OtherStepOwn(cfg, w, a);
    var w' := Step(cfg, w, a);
    forall t | 0 <= t < |w'.runs|
      ensures SeenOk(cfg, w'.runs[t]) && DraftOk(cfg, w', w'.runs[t])
    {
      if t != a.slot { OtherStepRuns(cfg, w, a, t); }
    }
    hide Step, Count, SeenOk, DraftOk;
  }

  lemma WriteStep(cfg: Limits, w: World, s: nat)
    requires Inv(cfg, w) && s < |w.runs|
    ensures var w' := Step(cfg, w, Write(s)); RunsOk(cfg, w') && RoomOk(cfg, w') && FileOk(cfg, w')
  {
    CountStep(cfg, w, Write(s));
    hide Count;
    assert SeenOk(cfg, w.runs[s]) && DraftOk(cfg, w, w.runs[s]);
    assert forall t :: 0 <= t < |w.runs| && t != s && UnderLock(w.runs[s]) ==> !UnderLock(w.runs[t]);
    assert forall t :: 0 <= t < |w.runs| && t != s ==> SeenOk(cfg, w.runs[t]);
  }

  lemma TickStep(cfg: Limits, w: World, micros: nat)
    requires Inv(cfg, w)
    ensures Inv(cfg, Step(cfg, w, Tick(micros)))
  {
    hide Count;
    var w' := Step(cfg, w, Tick(micros));
    assert FileOk(cfg, w) ==> Used(w') <= Used(w);
    assert forall s :: 0 <= s < |w.runs| ==> DraftOk(cfg, w', w.runs[s]) == DraftOk(cfg, w, w.runs[s]);
  }

  lemma StepKeepsInv(cfg: Limits, w: World, a: Action)
    requires Inv(cfg, w)
    ensures Inv(cfg, Step(cfg, w, a)) && |Step(cfg, w, a).runs| == |w.runs|
  {
    hide RunsOk, RoomOk, FileOk, Count;
    if a.Tick? {
      TickStep(cfg, w, a.micros);
    } else if a.slot < |w.runs| {
      StepKeepsLock(cfg, w, a);
      if a.Write? { WriteStep(cfg, w, a.slot); } else { OtherStep(cfg, w, a); }
    } else {
      assert Step(cfg, w, a) == w;
    }
  }

  lemma {:induction false} ExecKeepsInv(cfg: Limits, slots: nat, now: int, actions: seq<Action>)
    ensures Inv(cfg, Exec(cfg, Start(slots, now), actions))
    ensures |Exec(cfg, Start(slots, now), actions).runs| == slots
  {
    if actions == [] {
      StartCount(slots);
    } else {
      var init := actions[..|actions| - 1];
      ExecKeepsInv(cfg, slots, now, init);
      StepKeepsInv(cfg, Exec(cfg, Start(slots, now), init), actions[|actions| - 1]);
    }
  }

  /** Main result: whatever runs, ticks, failures and crashes come in whatever order, with at
      most `slots` runs at a time, the file never counts more than max_runs + slots - 1 runs,
      and it counts every increment of its period. One run at a time keeps to max_runs. */
  lemma OvershootBounded(cfg: Limits, slots: nat, now: int, actions: seq<Action>)
    ensures var w := Exec(cfg, Start(slots, now), actions);
      w.file.Some? ==> w.file.value.runsUsed == w.written && w.file.value.runsUsed <= cfg.budget.maxRuns + slots - 1
  {
    ExecKeepsInv(cfg, slots, now, actions);
  }

  // ---- The bound is reached ----

  ghost predicate NoDeath(actions: seq<Action>) {
    forall a :: a in actions ==> !a.Crash?
  }

  /** Some run leads to w; unless `dies`, one in which no process dies. */
  ghost predicate Reached(dies: bool, cfg: Limits, slots: nat, start: int, w: World) {
    exists actions :: (dies || NoDeath(actions)) && Exec(cfg, Start(slots, start), actions) == w
  }

  lemma ReachStep(dies: bool, cfg: Limits, slots: nat, start: int, w: World, a: Action)
    requires Reached(dies, cfg, slots, start, w) && (dies || !a.Crash?)
    ensures Reached(dies, cfg, slots, start, Step(cfg, w, a))
  {
    var actions :| (dies || NoDeath(actions)) && Exec(cfg, Start(slots, start), actions) == w;
    assert (actions + [a])[..|actions|] == actions;
    assert Exec(cfg, Start(slots, start), actions + [a]) == Step(cfg, w, a);
    assert NoDeath(actions) && !a.Crash? ==> NoDeath(actions + [a]);
  }

  function CountedFile(cfg: Limits, p: int, r: nat): Option<BudgetState> {
    if r == 0 then None else Some(BudgetState(p, p + cfg.budget.period, cfg.budget.maxRuns, r))
  }

  /** r increments are in the file, whose period began at p; the runs lo to hi have been let
      through. */
  function Wave(cfg: Limits, slots: nat, p: int, now: int, r: nat, lo: nat, hi: nat, last: Option<int>): World {
    World(seq(slots, i => if lo <= i < hi then Dispatching else Idle), CountedFile(cfg, p, r), None, now, r, last)
  }

  /** The period that began at p is not over. */
  predicate Within(cfg: Limits, p: int, now: int) {
    now <= p + cfg.budget.period
  }

  /** One more run sees budget left and no cooldown, and goes through. */
  lemma LetThrough(dies: bool, cfg: Limits, slots: nat, start: int, p: int, now: int, r: nat, lo: nat, hi: nat,
                   last: Option<int>)
    requires (r > 0 ==> Within(cfg, p, now)) && r < cfg.budget.maxRuns && lo <= hi < slots
    requires !CooldownState(cfg.cooldown, last).InCooldown(now)
    requires Reached(dies, cfg, slots, start, Wave(cfg, slots, p, now, r, lo, hi, last))
    ensures Reached(dies, cfg, slots, start, Wave(cfg, slots, p, now, r, lo, hi + 1, last))
  {
    hide Exec;
    var w := Wave(cfg, slots, p, now, r, lo, hi, last);
    var w1 := Step(cfg, w, LockToRead(hi));
    var w2 := Step(cfg, w1, Read(hi));
    var w3 := Step(cfg, w2, UnlockRead(hi));
    var w4 := Step(cfg, w3, ReadCooldown(hi));
    var w5 := Step(cfg, w4, Decide(hi));
    ReachStep(dies, cfg, slots, start, w, LockToRead(hi));
    ReachStep(dies, cfg, slots, start, w1, Read(hi));
    ReachStep(dies, cfg, slots, start, w2, UnlockRead(hi));
    ReachStep(dies, cfg, slots, start, w3, ReadCooldown(hi));
    ReachStep(dies, cfg, slots, start, w4, Decide(hi));
    assert w5.runs == Wave(cfg, slots, p, now, r, lo, hi + 1, last).runs;
  }

  /** The first run let through came back at ranAt and wants the lock. */
  function Returned(cfg: Limits, slots: nat, p: int, now: int, r: nat, lo: nat, hi: nat, last: Option<int>,
                    ranAt: int): World
    requires lo < slots
  {
    Wave(cfg, slots, p, now, r, lo, hi, last).Goto(lo, WantsLock(ranAt))
  }

  /** It has incremented, and holds its time. */
  function Counted(cfg: Limits, slots: nat, p: int, now: int, r: nat, lo: nat, hi: nat, last: Option<int>,
                   ranAt: int): World
    requires lo < slots
  {
    Wave(cfg, slots, p, now, r, lo + 1, hi, last).Goto(lo, Stamping(ranAt))
  }

  /** It comes back, and the increment may take its time. */
  lemma ComeBack(dies: bool, cfg: Limits, slots: nat, start: int, p: int, now: int, r: nat, lo: nat, hi: nat,
                 last: Option<int>, wait: nat)
    requires lo < hi <= slots && Reached(dies, cfg, slots, start, Wave(cfg, slots, p, now, r, lo, hi, last))
    ensures Reached(dies, cfg, slots, start, Returned(cfg, slots, p, now + wait, r, lo, hi, last, now))
  {
    hide Exec;
    var w := Wave(cfg, slots, p, now, r, lo, hi, last);
    var w1 := Step(cfg, w, DispatchReturns(lo));
    ReachStep(dies, cfg, slots, start, w, DispatchReturns(lo));
    ReachStep(dies, cfg, slots, start, w1, Tick(wait));
    assert Step(cfg, w1, Tick(wait)).runs == Returned(cfg, slots, p, now + wait, r, lo, hi, last, now).runs;
  }

  /** It increments: the first increment begins the period. */
  lemma Increment(dies: bool, cfg: Limits, slots: nat, start: int, p: int, now: int, r: nat, lo: nat, hi: nat,
                  last: Option<int>, ranAt: int)
    requires (if r == 0 then now == p else Within(cfg, p, now)) && lo < hi <= slots
    requires Reached(dies, cfg, slots, start, Returned(cfg, slots, p, now, r, lo, hi, last, ranAt))
    ensures Reached(dies, cfg, slots, start, Counted(cfg, slots, p, now, r + 1, lo, hi, last, ranAt))
  {
    hide Exec;
    var w := Returned(cfg, slots, p, now, r, lo, hi, last, ranAt);
    var w1 := Step(cfg, w, LockToWrite(lo));
    var w2 := Step(cfg, w1, Reread(lo));
    var w3 := Step(cfg, w2, Write(lo));
    var w4 := Step(cfg, w3, UnlockWrite(lo));
    ReachStep(dies, cfg, slots, start, w, LockToWrite(lo));
    ReachStep(dies, cfg, slots, start, w1, Reread(lo));
    ReachStep(dies, cfg, slots, start, w2, Write(lo));
    ReachStep(dies, cfg, slots, start, w3, UnlockWrite(lo));
    assert w4.runs == Counted(cfg, slots, p, now, r + 1, lo, hi, last, ranAt).runs;
  }

  /** It ends: by updating the cooldown, or by dying before that. */
  lemma Finish(dies: bool, cfg: Limits, slots: nat, start: int, p: int, now: int, r: nat, lo: nat, hi: nat,
               last: Option<int>, ranAt: int)
    requires lo < hi <= slots
    requires Reached(dies, cfg, slots, start, Counted(cfg, slots, p, now, r, lo, hi, last, ranAt))
    ensures Reached(dies, cfg, slots, start,
      Wave(cfg, slots, p, now, r, lo + 1, hi, if dies then last else Some(ranAt)))
  {
    hide Exec;
    var w := Counted(cfg, slots, p, now, r, lo, hi, last, ranAt);
    var act := if dies then Crash(lo) else UpdateCooldown(lo);
    ReachStep(dies, cfg, slots, start, w, act);
    assert Step(cfg, w, act).runs == Wave(cfg, slots, p, now, r, lo + 1, hi, last).runs;
  }

  lemma NothingYet(dies: bool, cfg: Limits, slots: nat, start: int, p: int)
    ensures Reached(dies, cfg, slots, start, Wave(cfg, slots, p, start, 0, 0, 0, None))
  {
    assert Start(slots, start) == Wave(cfg, slots, p, start, 0, 0, 0, None);
    assert Exec(cfg, Start(slots, start), []) == Start(slots, start) && NoDeath([]);
  }

  lemma TimePasses(dies: bool, cfg: Limits, slots: nat, start: int, p: int, now: int, r: nat, last: Option<int>,
                   gap: nat)
    requires slots > 0 && Reached(dies, cfg, slots, start, Wave(cfg, slots, p, now, r, 1, 1, last))
    ensures Reached(dies, cfg, slots, start, Wave(cfg, slots, p, now + gap, r, 0, 0, last))
  {
    hide Exec;
    ReachStep(dies, cfg, slots, start, Wave(cfg, slots, p, now, r, 1, 1, last), Tick(gap));
    assert Wave(cfg, slots, p, now, r, 1, 1, last).runs == Wave(cfg, slots, p, now + gap, r, 0, 0, last).runs;
  }

  /** The time between two runs: none when the earlier one died, the cooldown otherwise. */
  function Gap(cfg: Limits, dies: bool): nat {
    if dies || cfg.cooldown < 0 then 0 else cfg.cooldown
  }

  /** When the period begins if the first run lets its cooldown pass before it increments. */
  function Begin(cfg: Limits, start: int, dies: bool): int {
    start + Gap(cfg, dies)
  }

  /** What the cooldown file holds after r runs, one at a time. */
  function LastAfter(cfg: Limits, start: int, r: nat, dies: bool): Option<int>
    requires r > 0
  {
    if dies then None else Some(start + (r - 1) * Gap(cfg, dies))
  }

  lemma GapsAdd(cfg: Limits, r: nat, n: nat, dies: bool)
    requires r <= n
    ensures r * Gap(cfg, dies) <= n * Gap(cfg, dies)
    ensures (r + 1) * Gap(cfg, dies) == r * Gap(cfg, dies) + Gap(cfg, dies)
  {
    var g := Gap(cfg, dies);
    assert n * g == r * g + (n - r) * g;
  }

  lemma NotInCooldown(cfg: Limits, start: int, r: nat, dies: bool)
    requires r > 0
    ensures !CooldownState(cfg.cooldown, LastAfter(cfg, start, r, dies)).InCooldown(start + r * Gap(cfg, dies))
  {
    GapsAdd(cfg, r - 1, r - 1, dies);
  }

  /** One run, alone, from a world without any. */
  lemma OneRun(dies: bool, cfg: Limits, slots: nat, start: int, p: int, now: int, r: nat, last: Option<int>, wait: nat)
    requires r < cfg.budget.maxRuns && slots > 0
    requires if r == 0 then now + wait == p else wait == 0 && Within(cfg, p, now)
    requires !CooldownState(cfg.cooldown, last).InCooldown(now)
    requires Reached(dies, cfg, slots, start, Wave(cfg, slots, p, now, r, 0, 0, last))
    ensures Reached(dies, cfg, slots, start,
      Wave(cfg, slots, p, now + wait, r + 1, 1, 1, if dies then last else Some(now)))
  {
    hide Reached;
    LetThrough(dies, cfg, slots, start, p, now, r, 0, 0, last);
    ComeBack(dies, cfg, slots, start, p, now, r, 0, 1, last, wait);
    Increment(dies, cfg, slots, start, p, now + wait, r, 0, 1, last, now);
    Finish(dies, cfg, slots, start, p, now + wait, r + 1, 0, 1, last, now);
  }

  /** r runs one after another, as far apart as the cooldown asks. The first lets it pass
      before its increment begins the period, so that it does not count against it. */
  lemma {:induction false} FillUp(cfg: Limits, slots: nat, start: int, r: nat, dies: bool)
    requires 0 < r < cfg.budget.maxRuns && slots > 0 && (cfg.budget.maxRuns - 2) * Gap(cfg, dies) <= cfg.budget.period
    ensures Reached(dies, cfg, slots, start,
      Wave(cfg, slots, Begin(cfg, start, dies), start + r * Gap(cfg, dies), r, 0, 0, LastAfter(cfg, start, r, dies)))
  {
    hide Reached;
    var p, g := Begin(cfg, start, dies), Gap(cfg, dies);
    if r == 1 {
      NothingYet(dies, cfg, slots, start, p);
      OneRun(dies, cfg, slots, start, p, start, 0, None, g);
      TimePasses(dies, cfg, slots, start, p, p, 1, LastAfter(cfg, start, 1, dies), 0);
    } else {
      var q := r - 1;
      var now, last := start + q * g, LastAfter(cfg, start, q, dies);
      FillUp(cfg, slots, start, q, dies);
      GapsAdd(cfg, q - 1, cfg.budget.maxRuns - 2, dies);
      GapsAdd(cfg, q, q, dies);
      NotInCooldown(cfg, start, q, dies);
      OneRun(dies, cfg, slots, start, p, now, q, last, 0);
      TimePasses(dies, cfg, slots, start, p, now, r, LastAfter(cfg, start, r, dies), g);
    }
  }

  /** With one run left, n runs see it before any of them increments. */
  lemma {:induction false} AllThrough(dies: bool, cfg: Limits, slots: nat, start: int, p: int, now: int, r: nat,
                                      last: Option<int>, n: nat)
    requires (r > 0 ==> Within(cfg, p, now)) && r < cfg.budget.maxRuns && n <= slots
    requires !CooldownState(cfg.cooldown, last).InCooldown(now)
    requires Reached(dies, cfg, slots, start, Wave(cfg, slots, p, now, r, 0, 0, last))
    ensures Reached(dies, cfg, slots, start, Wave(cfg, slots, p, now, r, 0, n, last))
  {
    hide Reached;
    if n > 0 {
      AllThrough(dies, cfg, slots, start, p, now, r, last, n - 1);
      LetThrough(dies, cfg, slots, start, p, now, r, 0, n - 1, last);
    }
  }

  /** n of them come back. */
  lemma {:induction false} AllBack(dies: bool, cfg: Limits, slots: nat, start: int, p: int, now: int, r: nat,
                                   last: Option<int>, n: nat) returns (after: Option<int>)
    requires Within(cfg, p, now) && (r == 0 ==> now == p) && n <= slots
    requires Reached(dies, cfg, slots, start, Wave(cfg, slots, p, now, r, 0, slots, last))
    ensures Reached(dies, cfg, slots, start, Wave(cfg, slots, p, now, r + n, n, slots, after))
  {
    hide Reached;
    if n == 0 {
      after := last;
    } else {
      var before := AllBack(dies, cfg, slots, start, p, now, r, last, n - 1);
      ComeBack(dies, cfg, slots, start, p, now, r + n - 1, n - 1, slots, before, 0);
      Increment(dies, cfg, slots, start, p, now, r + n - 1, n - 1, slots, before, now);
      Finish(dies, cfg, slots, start, p, now, r + n, n - 1, slots, before, now);
      after := if dies then before else Some(now);
    }
  }

  /** What the budget file counts after these actions. */
  function CountAt(cfg: Limits, slots: nat, start: int, actions: seq<Action>): int {
    var file := Exec(cfg, Start(slots, start), actions).file;
    if file.None? then 0 else file.value.runsUsed
  }

  /** Some run, without deaths unless `dies`, brings the file to this count. */
  ghost predicate Reaches(dies: bool, cfg: Limits, slots: nat, start: int, count: int) {
    exists actions :: (dies || NoDeath(actions)) && CountAt(cfg, slots, start, actions) == count
  }

  /** From one run below the limit, a wave of all slots goes past it. */
  lemma WaveOvershoots(dies: bool, cfg: Limits, slots: nat, start: int, p: int, now: int, last: Option<int>)
    requires cfg.budget.maxRuns > 0 && Within(cfg, p, now) && (cfg.budget.maxRuns == 1 ==> now == p) && slots > 0
    requires !CooldownState(cfg.cooldown, last).InCooldown(now)
    requires Reached(dies, cfg, slots, start, Wave(cfg, slots, p, now, cfg.budget.maxRuns - 1, 0, 0, last))
    ensures Reaches(dies, cfg, slots, start, cfg.budget.maxRuns + slots - 1)
  {
    var r := cfg.budget.maxRuns - 1;
    AllThrough(dies, cfg, slots, start, p, now, r, last, slots);
    var after := AllBack(dies, cfg, slots, start, p, now, r, last, slots);
    var w := Wave(cfg, slots, p, now, r + slots, slots, slots, after);
    var actions :| (dies || NoDeath(actions)) && Exec(cfg, Start(slots, start), actions) == w;
    assert CountAt(cfg, slots, start, actions) == r + slots;
  }

  /** Main result: the bound is reached. Some run brings the file to max_runs + slots - 1,
      because reading the budget and incrementing it are two separate turns at the lock. If
      no process dies, it is enough that max_runs - 1 runs a cooldown apart fit in the
      period; if processes may die between the two updates (`dies`), any cooldown will do. */
  lemma OvershootReached(cfg: Limits, slots: nat, start: int, dies: bool)
    requires cfg.budget.period >= 0 && cfg.budget.maxRuns > 0 && slots > 0
    requires dies || cfg.budget.maxRuns == 1 || (cfg.budget.maxRuns - 2) * Gap(cfg, false) <= cfg.budget.period
    ensures Reaches(dies, cfg, slots, start, cfg.budget.maxRuns + slots - 1)
  {
    hide Reached, Reaches;
    var r := cfg.budget.maxRuns - 1;
    if r == 0 {
      NothingYet(dies, cfg, slots, start, start);
      WaveOvershoots(dies, cfg, slots, start, start, start, None);
    } else {
      var p, g := Begin(cfg, start, dies), Gap(cfg, dies);
      assert (r - 1) * g <= cfg.budget.period by {
        if dies { assert g == 0; }
      }
      FillUp(cfg, slots, start, r, dies);
      GapsAdd(cfg, r - 1, r - 1, dies);
      NotInCooldown(cfg, start, r, dies);
      WaveOvershoots(dies, cfg, slots, start, p, start + r * g, LastAfter(cfg, start, r, dies));
    }
  }
}
