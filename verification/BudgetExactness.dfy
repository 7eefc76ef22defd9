/** Exact conditions on the runs of the budget protocol: one run at a time, and the order of
    cooldown updates. */
module BudgetExactness {
  import opened Prelude
  import opened GovernancePolicy
  import opened GovernedRuns
  import opened BudgetProtocol

  // ---- One run at a time, nobody dies ----

  /** The k-th run of a period that begins at p cannot come back before this time. */
  function Earliest(cfg: Limits, p: int, k: nat): int
    requires k > 0
  {
    p + (k - 1) * Gap(cfg, false)
  }

  lemma NextEarliest(cfg: Limits, p: int, k: nat)
    requires k > 0
    ensures Earliest(cfg, p, k + 1) == Earliest(cfg, p, k) + Gap(cfg, false)
    ensures p <= Earliest(cfg, p, k)
  {
    GapsAdd(cfg, k - 1, k - 1, false);
    GapsAdd(cfg, 0, k - 1, false);
  }

  /** The second and every later run of the period came back no earlier than a cooldown after
      the one before it. */
  predicate Spaced(cfg: Limits, p: int, r: nat, ranAt: int) {
    r >= 2 ==> Earliest(cfg, p, r - 1) <= ranAt
  }

  /** The r runs in the file fit in its period. */
  predicate FileFits(cfg: Limits, w: World) {
    w.file.Some? ==>
      && w.file.value.periodEnd == w.file.value.periodStart + cfg.budget.period
      && w.file.value.periodStart <= w.now && w.written > 0 && w.file.value.runsUsed == w.written
      && (w.written >= 2 ==> Earliest(cfg, w.file.value.periodStart, w.written - 1) <= w.file.value.periodEnd)
  }

  /** The time the next run of the file's period has reached at least. */
  predicate Due(cfg: Limits, w: World, time: int) {
    time <= w.now
    && (w.file.Some? ==> w.written > 0 && Earliest(cfg, w.file.value.periodStart, w.written) <= time)
  }

  predicate DraftFits(cfg: Limits, w: World, pc: Pc)
    requires pc.Writing?
  {
    && pc.draft.periodEnd == pc.draft.periodStart + cfg.budget.period && pc.draft.periodStart <= w.now
    && (if pc.newPeriod then pc.draft.runsUsed == 0
        else
          && w.file.Some? && pc.draft.runsUsed == w.written && pc.draft.periodStart == w.file.value.periodStart
          && pc.ranAt <= w.file.value.periodEnd)
  }

  /** What the cooldown file says about the runs in the budget file. */
  predicate StampFits(cfg: Limits, w: World) {
    w.file.Some? ==>
      w.lastRun.Some? && w.lastRun.value <= w.now && Spaced(cfg, w.file.value.periodStart, w.written, w.lastRun.value)
  }

  /** The single run, wherever it is. */
  predicate RunFits(cfg: Limits, w: World, pc: Pc) {
    match pc
    case Idle => StampFits(cfg, w)
    case Reading => StampFits(cfg, w)
    case Loaded(_) => StampFits(cfg, w)
    case WantsCooldown(_) => StampFits(cfg, w)
    case Deciding(_, last) => StampFits(cfg, w) && last == w.lastRun
    case Dispatching => StampFits(cfg, w) && Due(cfg, w, w.now)
    case WantsLock(ranAt) => Due(cfg, w, ranAt)
    case Opening(ranAt) => Due(cfg, w, ranAt)
    case Writing(_, _, ranAt) => Due(cfg, w, ranAt) && DraftFits(cfg, w, pc)
    case Closing(ranAt) =>
      ranAt <= w.now && (w.file.Some? ==> Spaced(cfg, w.file.value.periodStart, w.written, ranAt))
    case Stamping(ranAt) =>
      ranAt <= w.now && (w.file.Some? ==> Spaced(cfg, w.file.value.periodStart, w.written, ranAt))
  }

  predicate Fits(cfg: Limits, w: World) {
    |w.runs| == 1 && FileFits(cfg, w) && RunFits(cfg, w, w.runs[0])
  }

  lemma DecideFits(cfg: Limits, w: World)
    requires Fits(cfg, w) && w.runs[0].Deciding? && !TurnedAway(cfg, w, w.runs[0])
    ensures Due(cfg, w, w.now)
  {
    if w.file.Some? {
      var p, r := w.file.value.periodStart, w.written;
      if r >= 2 {
        NextEarliest(cfg, p, r - 1);
      }
    }
  }

  lemma WriteFits(cfg: Limits, w: World)
    requires Fits(cfg, w) && w.runs[0].Writing?
    ensures Fits(cfg, Step(cfg, w, Write(0)))
  {
    var pc := w.runs[0];
    if !pc.newPeriod { NextEarliest(cfg, w.file.value.periodStart, w.written); }
  }

  lemma StepFits(cfg: Limits, w: World, a: Action)
    requires Fits(cfg, w) && !a.Crash?
    ensures Fits(cfg, Step(cfg, w, a))
  {
    hide Earliest;
    if a.Write? && a.slot == 0 && w.runs[0].Writing? {
      WriteFits(cfg, w);
    } else if a.Decide? && a.slot == 0 && w.runs[0].Deciding? && !TurnedAway(cfg, w, w.runs[0]) {
      DecideFits(cfg, w);
    } else {
      hide TurnedAway;
    }
  }

  lemma {:induction false} ExecFits(cfg: Limits, start: int, actions: seq<Action>)
    requires NoDeath(actions)
    ensures Fits(cfg, Exec(cfg, Start(1, start), actions))
  {
    if actions != [] {
      var init, last := actions[..|actions| - 1], actions[|actions| - 1];
      assert actions == init + [last] && last in actions;
      assert forall a :: a in init ==> a in actions;
      ExecFits(cfg, start, init);
      StepFits(cfg, Exec(cfg, Start(1, start), init), last);
    }
  }

  /** Main result: one run at a time and nobody dying, the limit itself is reached exactly
      when it is one, or all its runs but two fit a cooldown apart in the period. The first
      may begin the period late, and the last may come at its very end. */
  lemma OneAtATimeExactly(cfg: Limits, start: int)
    requires cfg.budget.period >= 0 && cfg.budget.maxRuns > 0
    ensures Reaches(false, cfg, 1, start, cfg.budget.maxRuns) <==>
      cfg.budget.maxRuns == 1 || (cfg.budget.maxRuns - 2) * Gap(cfg, false) <= cfg.budget.period
  {
    if cfg.budget.maxRuns == 1 || (cfg.budget.maxRuns - 2) * Gap(cfg, false) <= cfg.budget.period {
      OvershootReached(cfg, 1, start, false);
    }
    if Reaches(false, cfg, 1, start, cfg.budget.maxRuns) {
      var actions :| NoDeath(actions) && CountAt(cfg, 1, start, actions) == cfg.budget.maxRuns;
      ExecFits(cfg, start, actions);
    }
  }

  // ---- The order of cooldown updates ----

  /** The step overwrites a cooldown time with an older one. */
  predicate MovesBack(cfg: Limits, w: World, a: Action) {
    var w' := Step(cfg, w, a);
    w.lastRun.Some? && w'.lastRun.Some? && w'.lastRun.value < w.lastRun.value
  }

  /** Some run has such a step. */
  ghost predicate CanMoveBack(cfg: Limits, slots: nat, start: int) {
    exists actions, a :: MovesBack(cfg, Exec(cfg, Start(slots, start), actions), a)
  }

  /** The time a run came back, once it has. */
  function CameBack(pc: Pc): Option<int> {
    match pc
    case WantsLock(ranAt) => Some(ranAt)
    case Opening(ranAt) => Some(ranAt)
    case Writing(_, _, ranAt) => Some(ranAt)
    case Closing(ranAt) => Some(ranAt)
    case Stamping(ranAt) => Some(ranAt)
    case _ => None
  }

  /** With one run at a time the file is never newer than the run. */
  predicate InTurn(w: World) {
    && |w.runs| <= 1 && (w.lastRun.Some? ==> w.lastRun.value <= w.now)
    && forall s :: 0 <= s < |w.runs| && CameBack(w.runs[s]).Some? ==>
         CameBack(w.runs[s]).value <= w.now && (w.lastRun.Some? ==> w.lastRun.value <= CameBack(w.runs[s]).value)
  }

  /** With no budget at all no run gets past its decision. */
  predicate NoneThrough(cfg: Limits, w: World) {
    && w.file.None? && w.lastRun.None?
    && forall s :: 0 <= s < |w.runs| ==>
         match w.runs[s]
         case Idle => true
         case Reading => true
         case Loaded(seen) => seen.Exhausted()
         case WantsCooldown(seen) => seen.Exhausted()
         case Deciding(seen, _) => seen.Exhausted()
         case _ => false
  }

  lemma {:induction false} ExecInTurn(cfg: Limits, slots: nat, start: int, actions: seq<Action>)
    requires slots <= 1
    ensures InTurn(Exec(cfg, Start(slots, start), actions))
  {
    if actions != [] { ExecInTurn(cfg, slots, start, actions[..|actions| - 1]); }
  }

  lemma {:induction false} ExecNoneThrough(cfg: Limits, slots: nat, start: int, actions: seq<Action>)
    requires cfg.budget.maxRuns <= 0
    ensures NoneThrough(cfg, Exec(cfg, Start(slots, start), actions))
  {
    if actions != [] { ExecNoneThrough(cfg, slots, start, actions[..|actions| - 1]); }
  }

  /** A run that has come back goes on until it is about to update the cooldown. */
  lemma ReachStamping(cfg: Limits, slots: nat, start: int, w: World, s: nat) returns (w': World)
    requires Reached(false, cfg, slots, start, w) && s < |w.runs| && w.runs[s].WantsLock? && w.lock.None?
    ensures Reached(false, cfg, slots, start, w')
    ensures w'.runs == w.runs[s := Stamping(w.runs[s].ranAt)] && w'.lock.None?
    ensures w'.lastRun == w.lastRun && w'.now == w.now
  {
    hide Reached;
    var w1 := Step(cfg, w, LockToWrite(s));
    var w2 := Step(cfg, w1, Reread(s));
    var w3 := Step(cfg, w2, Write(s));
    w' := Step(cfg, w3, UnlockWrite(s));
    ReachStep(false, cfg, slots, start, w, LockToWrite(s));
    ReachStep(false, cfg, slots, start, w1, Reread(s));
    ReachStep(false, cfg, slots, start, w2, Write(s));
    ReachStep(false, cfg, slots, start, w3, UnlockWrite(s));
  }

  /** Two runs are let through, come back one after the other, and update in reverse. */
  lemma TwoRunsMoveBack(cfg: Limits, slots: nat, start: int)
    requires slots >= 2 && cfg.budget.maxRuns > 0
    ensures CanMoveBack(cfg, slots, start)
  {
    hide Exec, Reached;
    NothingYet(false, cfg, slots, start, start);
    LetThrough(false, cfg, slots, start, start, start, 0, 0, 0, None);
    LetThrough(false, cfg, slots, start, start, start, 0, 0, 1, None);
    var w := Wave(cfg, slots, start, start, 0, 0, 2, None);
    var w1 := Step(cfg, w, DispatchReturns(0));
    var w2 := Step(cfg, w1, Tick(1));
    var w3 := Step(cfg, w2, DispatchReturns(1));
    ReachStep(false, cfg, slots, start, w, DispatchReturns(0));
    ReachStep(false, cfg, slots, start, w1, Tick(1));
    ReachStep(false, cfg, slots, start, w2, DispatchReturns(1));
    var w4 := ReachStamping(cfg, slots, start, w3, 1);
    var w5 := Step(cfg, w4, UpdateCooldown(1));
    ReachStep(false, cfg, slots, start, w4, UpdateCooldown(1));
    var w6 := ReachStamping(cfg, slots, start, w5, 0);
    assert w6.runs[0] == Stamping(start) && w6.lastRun == Some(start + 1);
    assert MovesBack(cfg, w6, UpdateCooldown(0));
    ReachedByRun(cfg, slots, start, w6, UpdateCooldown(0));
  }

  lemma ReachedByRun(cfg: Limits, slots: nat, start: int, w: World, a: Action)
    requires Reached(false, cfg, slots, start, w) && MovesBack(cfg, w, a)
    ensures CanMoveBack(cfg, slots, start)
  {
    var actions :| Exec(cfg, Start(slots, start), actions) == w;
  }

  /** Main result: a cooldown update can be overwritten by an older one exactly when two runs
      can be under way at once and the budget lets any run through. */
  lemma MovesBackExactly(cfg: Limits, slots: nat, start: int)
    ensures CanMoveBack(cfg, slots, start) <==> slots >= 2 && cfg.budget.maxRuns > 0
  {
    if slots >= 2 && cfg.budget.maxRuns > 0 { TwoRunsMoveBack(cfg, slots, start); }
    if CanMoveBack(cfg, slots, start) {
      var actions, a :| MovesBack(cfg, Exec(cfg, Start(slots, start), actions), a);
      if slots <= 1 { ExecInTurn(cfg, slots, start, actions); }
      if cfg.budget.maxRuns <= 0 { ExecNoneThrough(cfg, slots, start, actions); }
    }
  }

  // ---- A run that nothing interrupts ----

  /** The steps of one run up to its decision, and from its dispatch on. */
  function UpToDecision(s: nat): seq<Action> {
    [LockToRead(s), Read(s), UnlockRead(s), ReadCooldown(s), Decide(s)]
  }

  function FromDispatch(s: nat): seq<Action> {
    [DispatchReturns(s), LockToWrite(s), Reread(s), Write(s), UnlockWrite(s), UpdateCooldown(s)]
  }

  lemma ExecOne(cfg: Limits, w: World, actions: seq<Action>, a: Action)
    ensures Exec(cfg, w, actions + [a]) == Step(cfg, Exec(cfg, w, actions), a)
  {
    assert (actions + [a])[..|actions|] == actions;
  }

  lemma {:induction false} ExecBoth(cfg: Limits, w: World, xs: seq<Action>, ys: seq<Action>)
    ensures Exec(cfg, w, xs + ys) == Exec(cfg, Exec(cfg, w, xs), ys)
    decreases |ys|
  {
    if ys == [] {
      assert xs + ys == xs;
    } else {
      var init, last := ys[..|ys| - 1], ys[|ys| - 1];
      ExecBoth(cfg, w, xs, init);
      ExecOne(cfg, w, xs + init, last);
      assert xs + ys == xs + init + [last] && ys == init + [last];
    }
  }

  /** Main result: a run that nothing interrupts does to the two files what the sequential run
      does. With the budget of the period used up, or the cooldown not over, it changes
      nothing. Otherwise it counts one more run, or the first one of a new period, and leaves
      its own time as the last run. */
  lemma RunAlone(cfg: Limits, w: World, s: nat)
    requires s < |w.runs| && w.runs[s] == Idle && w.lock == None
    ensures var over := w.file.None? || w.now > w.file.value.periodEnd;
      var used := if over then 0 else w.file.value.runsUsed;
      var recent := w.lastRun.Some? && w.now - w.lastRun.value < cfg.cooldown;
      Exec(cfg, w, UpToDecision(s) + FromDispatch(s)) ==
        if used >= cfg.budget.maxRuns || recent then w
        else if over then
          w.(file := Some(BudgetState(w.now, w.now + cfg.budget.period, cfg.budget.maxRuns, 1)), written := 1,
             lastRun := Some(w.now))
        else
          w.(file := Some(BudgetState(w.file.value.periodStart, w.file.value.periodEnd, cfg.budget.maxRuns, used + 1)),
             written := w.written + 1, lastRun := Some(w.now))
  {
    var seen := LoadBudget(w.file, cfg.budget, w.now);
    DecisionAlone(cfg, w, s);
    ExecBoth(cfg, w, UpToDecision(s), FromDispatch(s));
    if seen.Exhausted() || CooldownState(cfg.cooldown, w.lastRun).InCooldown(w.now) {
      NothingMore(cfg, w, s);
    } else {
      DispatchAlone(cfg, w, s);
    }
    hide Exec, UpToDecision, FromDispatch;
  }

  lemma ExecThree(cfg: Limits, w: World, a: Action, b: Action, c: Action)
    ensures Exec(cfg, w, [a, b, c]) == Step(cfg, Step(cfg, Step(cfg, w, a), b), c)
  {
    hide Step;
    ExecOne(cfg, w, [], a);
    ExecOne(cfg, w, [a], b);
    ExecOne(cfg, w, [a, b], c);
    assert [] + [a] == [a] && [a] + [b] == [a, b] && [a, b] + [c] == [a, b, c];
    assert Exec(cfg, w, []) == w;
  }

  lemma DecisionAlone(cfg: Limits, w: World, s: nat)
    requires s < |w.runs| && w.runs[s] == Idle && w.lock == None
    ensures var seen := LoadBudget(w.file, cfg.budget, w.now);
      var away := seen.Exhausted() || CooldownState(cfg.cooldown, w.lastRun).InCooldown(w.now);
      Exec(cfg, w, UpToDecision(s)) == if away then w else w.Goto(s, Dispatching)
  {
    var seen := LoadBudget(w.file, cfg.budget, w.now);
    var w1 := w.Goto(s, Reading).(lock := Some(s));
    var w2 := w.Goto(s, Loaded(seen)).(lock := Some(s));
    var w3 := w.Goto(s, WantsCooldown(seen));
    var w4 := w.Goto(s, Deciding(seen, w.lastRun));
    assert Step(cfg, w, LockToRead(s)) == w1;
    assert Step(cfg, w1, Read(s)) == w2;
    assert Step(cfg, w2, UnlockRead(s)) == w3;
    assert Step(cfg, w3, ReadCooldown(s)) == w4;
    DecideAlone(cfg, w, s, seen);
    ExecThree(cfg, w, LockToRead(s), Read(s), UnlockRead(s));
    ExecOne(cfg, w, [LockToRead(s), Read(s), UnlockRead(s)], ReadCooldown(s));
    ExecOne(cfg, w, [LockToRead(s), Read(s), UnlockRead(s)] + [ReadCooldown(s)], Decide(s));
    assert [LockToRead(s), Read(s), UnlockRead(s)] + [ReadCooldown(s)] + [Decide(s)] == UpToDecision(s);
    hide Exec, Step;
  }

  lemma DecideAlone(cfg: Limits, w: World, s: nat, seen: BudgetState)
    requires s < |w.runs| && w.runs[s] == Idle
    ensures var away := seen.Exhausted() || CooldownState(cfg.cooldown, w.lastRun).InCooldown(w.now);
      Step(cfg, w.Goto(s, Deciding(seen, w.lastRun)), Decide(s)) == if away then w else w.Goto(s, Dispatching)
  {
    assert w.Goto(s, Idle) == w;
  }

  /** A run turned away does nothing more. */
  lemma NothingMore(cfg: Limits, w: World, s: nat)
    requires s < |w.runs| && w.runs[s] == Idle
    ensures Exec(cfg, w, FromDispatch(s)) == w
  {
    Unmoved(cfg, w, FromDispatch(s));
  }

  lemma {:induction false} Unmoved(cfg: Limits, w: World, actions: seq<Action>)
    requires forall a :: a in actions ==> Step(cfg, w, a) == w
    ensures Exec(cfg, w, actions) == w
  {
    if actions != [] {
      assert actions[|actions| - 1] in actions;
      Unmoved(cfg, w, actions[..|actions| - 1]);
    }
  }

  lemma DispatchAlone(cfg: Limits, w: World, s: nat)
    requires s < |w.runs| && w.runs[s] == Idle && w.lock == None
    ensures var draft := LoadBudget(w.file, cfg.budget, w.now);
      Exec(cfg, w.Goto(s, Dispatching), FromDispatch(s)) ==
        w.(file := Some(draft.(runsUsed := draft.runsUsed + 1)),
           written := if Expired(w) then 1 else w.written + 1, lastRun := Some(w.now))
  {
    var v := w.Goto(s, Dispatching);
    var xs, ys := [DispatchReturns(s), LockToWrite(s), Reread(s)], [Write(s), UnlockWrite(s), UpdateCooldown(s)];
    assert FromDispatch(s) == xs + ys;
    ExecBoth(cfg, v, xs, ys);
    DraftAlone(cfg, w, s);
    IncrementAlone(cfg, w, s);
    hide Exec, Step, LoadBudget;
  }

  lemma DraftAlone(cfg: Limits, w: World, s: nat)
    requires s < |w.runs| && w.runs[s] == Idle && w.lock == None
    ensures Exec(cfg, w.Goto(s, Dispatching), [DispatchReturns(s), LockToWrite(s), Reread(s)])
         == w.Goto(s, Writing(LoadBudget(w.file, cfg.budget, w.now), Expired(w), w.now)).(lock := Some(s))
  {
    var v1 := w.Goto(s, WantsLock(w.now));
    var v2 := w.Goto(s, Opening(w.now)).(lock := Some(s));
    assert Step(cfg, w.Goto(s, Dispatching), DispatchReturns(s)) == v1;
    assert Step(cfg, v1, LockToWrite(s)) == v2;
    ExecThree(cfg, w.Goto(s, Dispatching), DispatchReturns(s), LockToWrite(s), Reread(s));
  }

  lemma IncrementAlone(cfg: Limits, w: World, s: nat)
    requires s < |w.runs| && w.runs[s] == Idle && w.lock == None
    ensures var draft := LoadBudget(w.file, cfg.budget, w.now);
      Exec(cfg, w.Goto(s, Writing(draft, Expired(w), w.now)).(lock := Some(s)),
           [Write(s), UnlockWrite(s), UpdateCooldown(s)]) ==
        w.(file := Some(draft.(runsUsed := draft.runsUsed + 1)),
           written := if Expired(w) then 1 else w.written + 1, lastRun := Some(w.now))
  {
    var draft := LoadBudget(w.file, cfg.budget, w.now);
    var done := w.(file := Some(draft.(runsUsed := draft.runsUsed + 1)),
                   written := if Expired(w) then 1 else w.written + 1);
    var v := w.Goto(s, Writing(draft, Expired(w), w.now)).(lock := Some(s));
    var v1 := done.Goto(s, Closing(w.now)).(lock := Some(s));
    var v2 := done.Goto(s, Stamping(w.now));
    assert Step(cfg, v, Write(s)) == v1;
    assert Step(cfg, v1, UnlockWrite(s)) == v2;
    assert done.runs[s := Idle] == done.runs;
    assert Step(cfg, v2, UpdateCooldown(s)) == done.(lastRun := Some(w.now));
    ExecThree(cfg, v, Write(s), UnlockWrite(s), UpdateCooldown(s));
  }
}
