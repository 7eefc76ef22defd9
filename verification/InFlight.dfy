/** Reconciling the event log of running tasks with the state of the tasks. */
module InFlight {
  import opened Prelude
  import opened Sequences
  import opened Lines

  datatype Kind = ExecutionStarted | ExecutionFinished | OtherKind

  /** One event as far as it can be read; an unreadable field is absent. */
  datatype Event = Event(kind: Kind, timestamp: Option<int>, backend: Option<string>, taskId: Option<string>)

  datatype Slot = Slot(backend: string, taskId: string)

  /** The slot of an event inside the window, nothing for one that is skipped. */
  function SlotOf(e: Event, cutoff: int): Option<Slot> {
    if e.timestamp.None? || e.timestamp.value < cutoff || e.taskId.None? then None
    else Some(Slot(if e.backend.Some? then e.backend.value else "", e.taskId.value))
  }

  predicate Starts(e: Event, cutoff: int, slot: Slot) {
    e.kind.ExecutionStarted? && SlotOf(e, cutoff) == Some(slot)
  }

  predicate Finishes(e: Event, cutoff: int, slot: Slot) {
    e.kind.ExecutionFinished? && SlotOf(e, cutoff) == Some(slot)
  }

  predicate Distinct(s: seq<Slot>) {
    forall i, j :: 0 <= i < j < |s| ==> s[i] != s[j]
  }

  /** The language's dictionary: keys in the order they were first put in. */
  datatype Dict = Dict(keys: seq<Slot>, values: map<Slot, Event>) {
    ghost predicate Valid() {
      && (forall k :: k in keys <==> k in values)
      && Distinct(keys)
    }

    function Put(k: Slot, e: Event): Dict {
      Dict(if k in values then keys else keys + [k], values[k := e])
    }

    function Pop(k: Slot): Dict {
      Dict(Filter(keys, (s: Slot) => s != k), values - {k})
    }
  }

  function Fold(d: Dict, e: Event, cutoff: int): Dict {
    var slot := SlotOf(e, cutoff);
    if slot.None? then d
    else match e.kind
      case ExecutionStarted => d.Put(slot.value, e)
      case ExecutionFinished => d.Pop(slot.value)
      case OtherKind => d
  }

  /** The open slots, with the start event of each. */
  function Open(events: seq<Event>, cutoff: int): Dict {
    if events == [] then Dict([], map[])
    else Fold(Open(events[..|events| - 1], cutoff), events[|events| - 1], cutoff)
  }

  lemma OpenStep(events: seq<Event>, e: Event, cutoff: int)
    ensures Open(events + [e], cutoff) == Fold(Open(events, cutoff), e, cutoff)
  {
    assert (events + [e])[..|events|] == events;
  }

  /** `_open_in_flight`. */
  method OpenInFlight(events: seq<Event>, cutoff: int) returns (d: Dict)
    ensures d == Open(events, cutoff)
  {
    d := Dict([], map[]);
    for i := 0 to |events|
      invariant d == Open(events[..i], cutoff)
    {
      var e := events[i];
      assert events[..i + 1] == events[..i] + [e];
      OpenStep(events[..i], e, cutoff);
      if e.timestamp.None? || e.timestamp.value < cutoff { continue; }
      if e.taskId.None? { continue; }
      var key := Slot(if e.backend.Some? then e.backend.value else "", e.taskId.value);
      if e.kind.ExecutionStarted? {
        d := d.Put(key, e);
      } else if e.kind.ExecutionFinished? {
        d := d.Pop(key);
      }
    }
    assert events[..|events|] == events;
  }

  lemma DistinctAppend(s: seq<Slot>, x: Slot)
    requires Distinct(s) && x !in s
    ensures Distinct(s + [x])
  {
  }

  lemma {:induction false} FilterKeepsDistinct(s: seq<Slot>, p: Slot -> bool)
    requires Distinct(s)
    ensures Distinct(Filter(s, p))
  {
    if s != [] {
      var init, last := s[..|s| - 1], s[|s| - 1];
      FilterKeepsDistinct(init, p);
      FilterMember(init, p);
      assert last !in init;
      if p(last) { DistinctAppend(Filter(init, p), last); }
    }
  }

  lemma PutValid(d: Dict, k: Slot, e: Event)
    requires d.Valid()
    ensures d.Put(k, e).Valid()
  {
  }

  lemma PopValid(d: Dict, k: Slot)
    requires d.Valid()
    ensures d.Pop(k).Valid()
  {
    var other := (s: Slot) => s != k;
    assert d.Pop(k).keys == Filter(d.keys, other);
    FilterMember(d.keys, other);
    FilterKeepsDistinct(d.keys, other);
  }

  lemma {:induction false} OpenValid(events: seq<Event>, cutoff: int)
    ensures Open(events, cutoff).Valid()
  {
    if events != [] {
      var d, e := Open(events[..|events| - 1], cutoff), events[|events| - 1];
      OpenValid(events[..|events| - 1], cutoff);
      var slot := SlotOf(e, cutoff);
      if slot.Some? {
        PutValid(d, slot.value, e);
        PopValid(d, slot.value);
      }
    }
  }

  // ---- What is open ----

  /** Event i is an in-window start that nothing later in the list finishes. */
  predicate Unfinished(events: seq<Event>, cutoff: int, slot: Slot, i: int) {
    && 0 <= i < |events| && Starts(events[i], cutoff, slot)
    && forall j :: i < j < |events| ==> !Finishes(events[j], cutoff, slot)
  }

  /** Event i is the last in-window start of its slot. */
  predicate LastStart(events: seq<Event>, cutoff: int, slot: Slot, i: int) {
    && 0 <= i < |events| && Starts(events[i], cutoff, slot)
    && forall j :: i < j < |events| ==> !Starts(events[j], cutoff, slot)
  }

  lemma UnfinishedStep(events: seq<Event>, e: Event, cutoff: int, slot: Slot)
    ensures (exists i :: Unfinished(events + [e], cutoff, slot, i)) <==>
      Starts(e, cutoff, slot) || ((exists i :: Unfinished(events, cutoff, slot, i)) && !Finishes(e, cutoff, slot))
  {
    var more := events + [e];
    assert forall j :: 0 <= j < |events| ==> more[j] == events[j];
    if Starts(e, cutoff, slot) {
      assert Unfinished(more, cutoff, slot, |events|);
    }
    if !Finishes(e, cutoff, slot) {
      if i :| Unfinished(events, cutoff, slot, i) {
        assert Unfinished(more, cutoff, slot, i);
      }
    }
    if i :| Unfinished(more, cutoff, slot, i) {
      assert i < |events| ==> Unfinished(events, cutoff, slot, i);
      assert i < |events| ==> !Finishes(more[|events|], cutoff, slot);
    }
  }

  /** Main result: a slot is open exactly when some in-window start of it has no in-window
      finish behind it in the list. */
  lemma {:induction false} OpenExactly(events: seq<Event>, cutoff: int, slot: Slot)
    ensures slot in Open(events, cutoff).values <==> exists i :: Unfinished(events, cutoff, slot, i)
  {
    if events != [] {
      var init, e := events[..|events| - 1], events[|events| - 1];
      assert events == init + [e];
      OpenExactly(init, cutoff, slot);
      UnfinishedStep(init, e, cutoff, slot);
      assert SlotOf(e, cutoff) == None || SlotOf(e, cutoff).Some?;
    }
  }

  /** The event is stamped at or after the cutoff and names this task and backend, no backend
      being the empty one. */
  predicate IsAbout(e: Event, cutoff: int, slot: Slot) {
    && e.timestamp.Some? && e.timestamp.value >= cutoff && e.taskId == Some(slot.taskId)
    && (e.backend == Some(slot.backend) || (e.backend == None && slot.backend == ""))
  }

  /** The same, read off the events. */
  lemma OpenByEvents(events: seq<Event>, cutoff: int, slot: Slot)
    ensures slot in Open(events, cutoff).values <==> exists i ::
      && 0 <= i < |events| && events[i].kind == ExecutionStarted && IsAbout(events[i], cutoff, slot)
      && forall j :: i < j < |events| ==> !(events[j].kind == ExecutionFinished && IsAbout(events[j], cutoff, slot))
  {
    OpenExactly(events, cutoff, slot);
    hide Open;
    assert forall e: Event :: Starts(e, cutoff, slot) <==> e.kind == ExecutionStarted && IsAbout(e, cutoff, slot);
    assert forall e: Event :: Finishes(e, cutoff, slot) <==> e.kind == ExecutionFinished && IsAbout(e, cutoff, slot);
    hide Starts, Finishes, IsAbout;
    forall i
      ensures Unfinished(events, cutoff, slot, i) <==>
        && 0 <= i < |events| && events[i].kind == ExecutionStarted && IsAbout(events[i], cutoff, slot)
        && forall j :: i < j < |events| ==> !(events[j].kind == ExecutionFinished && IsAbout(events[j], cutoff, slot))
    {
    }
  }

  /** The event kept for an open slot is its last start. */
  lemma {:induction false} OpenKeepsLastStart(events: seq<Event>, cutoff: int, slot: Slot)
    requires slot in Open(events, cutoff).values
    ensures exists i :: LastStart(events, cutoff, slot, i) && Open(events, cutoff).values[slot] == events[i]
  {
    var init, e := events[..|events| - 1], events[|events| - 1];
    assert events == init + [e];
    if Starts(e, cutoff, slot) {
      assert LastStart(events, cutoff, slot, |init|);
    } else {
      OpenKeepsLastStart(init, cutoff, slot);
      var i :| LastStart(init, cutoff, slot, i) && Open(init, cutoff).values[slot] == init[i];
      assert LastStart(events, cutoff, slot, i);
    }
  }

  // ---- Orphans ----

  datatype Fetch = Found(state: string) | Missing | Unreachable

  const TERMINAL_STATES := {"done", "cancelled", "cancelled by operator", "closed"}

  function LowerChar(c: char): char {
    if 'A' <= c <= 'Z' then (c as int + 32) as char else c
  }

  /** `state_name` and `is_terminal` on the state as it was fetched. */
  predicate IsTerminal(state: string) {
    Map(Strip(state), LowerChar) in TERMINAL_STATES
  }

  /** The texts agree but for the case of letters; the second one is in lower case. */
  predicate SameButCase(s: string, lower: string) {
    |s| == |lower| && forall i :: 0 <= i < |s| ==>
      s[i] == lower[i] || ('A' <= s[i] <= 'Z' && s[i] as int + 32 == lower[i] as int)
  }

  /** A task is over in four states, written in any case and with white space around them. */
  lemma TerminalExactly(state: string)
    ensures IsTerminal(state) <==>
      var name := Strip(state);
      || SameButCase(name, "done") || SameButCase(name, "cancelled")
      || SameButCase(name, "cancelled by operator") || SameButCase(name, "closed")
  {
    var name := Strip(state);
    LowersTo(name, "done");
    LowersTo(name, "cancelled");
    LowersTo(name, "cancelled by operator");
    LowersTo(name, "closed");
    hide Strip, SameButCase, LowerChar, Map;
  }

  lemma LowersTo(s: string, lower: string)
    requires forall c :: c in lower ==> !('A' <= c <= 'Z')
    ensures Map(s, LowerChar) == lower <==> SameButCase(s, lower)
  {
    assert forall i :: 0 <= i < |lower| ==> lower[i] in lower;
  }

  datatype Reason = TaskMissing | TaskTerminal(state: string)

  datatype OrphanedSlot = OrphanedSlot(slot: Slot, startedAt: Option<int>, reason: Reason)

  /** The task of the slot is gone or over; nothing is concluded from an error. */
  predicate Gone(fetch: string -> Fetch, slot: Slot) {
    var f := fetch(slot.taskId);
    f.Missing? || (f.Found? && IsTerminal(f.state))
  }

  function OrphanAt(fetch: string -> Fetch, slot: Slot, start: Event): OrphanedSlot {
    var f := fetch(slot.taskId);
    OrphanedSlot(slot, start.timestamp, if f.Found? then TaskTerminal(Strip(f.state)) else TaskMissing)
  }

  /** What an orphan reports: its slot, when it started, and that its task is missing or in
      which final state it was found. */
  lemma OrphanTells(fetch: string -> Fetch, slot: Slot, start: Event)
    requires Gone(fetch, slot)
    ensures var o := OrphanAt(fetch, slot, start);
      && o.slot == slot && o.startedAt == start.timestamp
      && match fetch(slot.taskId)
         case Missing => o.reason == TaskMissing
         case Found(state) => IsTerminal(state) && o.reason == TaskTerminal(Strip(state))
         case Unreachable => false
  {
  }

  function SlotOfOrphan(o: OrphanedSlot): Slot {
    o.slot
  }

  /** The open slots whose task is gone, in dictionary order. */
  function Orphaned(events: seq<Event>, fetch: string -> Fetch, cutoff: int): seq<Slot> {
    Filter(Open(events, cutoff).keys, (s: Slot) => Gone(fetch, s))
  }

  lemma OrphanedExactly(events: seq<Event>, fetch: string -> Fetch, cutoff: int, slot: Slot)
    ensures slot in Orphaned(events, fetch, cutoff) <==> slot in Open(events, cutoff).values && Gone(fetch, slot)
    ensures Distinct(Orphaned(events, fetch, cutoff))
  {
    var gone := (s: Slot) => Gone(fetch, s);
    var keys := Open(events, cutoff).keys;
    assert Orphaned(events, fetch, cutoff) == Filter(keys, gone);
    OpenValid(events, cutoff);
    FilterMember(keys, gone);
    FilterKeepsDistinct(keys, gone);
  }

  lemma KeyHasValue(d: Dict, i: nat)
    requires d.Valid() && i < |d.keys|
    ensures d.keys[i] in d.values
  {
    assert d.keys[i] in d.keys;
  }

  /** `find_orphaned_in_flight`. */
  method FindOrphaned(events: seq<Event>, fetch: string -> Fetch, now: int, window: int)
    returns (orphans: seq<OrphanedSlot>)
    ensures Map(orphans, SlotOfOrphan) == Orphaned(events, fetch, now - window)
    ensures forall o :: o in orphans ==>
      o.slot in Open(events, now - window).values
      && o == OrphanAt(fetch, o.slot, Open(events, now - window).values[o.slot])
  {
    hide Open, IsTerminal;
    var inFlight := OpenInFlight(events, now - window);
    OpenValid(events, now - window);
    ghost var gone := (s: Slot) => Gone(fetch, s);
    orphans := [];
    for i := 0 to |inFlight.keys|
      invariant Map(orphans, SlotOfOrphan) == Filter(inFlight.keys[..i], gone)
      invariant forall o :: o in orphans ==>
        o.slot in inFlight.values && o == OrphanAt(fetch, o.slot, inFlight.values[o.slot])
    {
      var slot := inFlight.keys[i];
      FilterStep(inFlight.keys, i, gone);
      KeyHasValue(inFlight, i);
      var f := fetch(slot.taskId);
      if f.Unreachable? || (f.Found? && !IsTerminal(f.state)) { continue; }
      var orphan := OrphanAt(fetch, slot, inFlight.values[slot]);
      MapAppend(orphans, orphan, SlotOfOrphan);
      orphans := orphans + [orphan];
    }
    WholeSlice(inFlight.keys);
    assert Orphaned(events, fetch, now - window) == Filter(inFlight.keys, gone);
  }

  // ---- The repair ----

  function FinishOf(slot: Slot, now: int): Event {
    Event(ExecutionFinished, Some(now), Some(slot.backend), Some(slot.taskId))
  }

  datatype Outcome = Applied | Failed | WouldApply

  datatype Cleared = Cleared(orphan: OrphanedSlot, outcome: Outcome)

  /** The events a clear adds, read off the slots. */
  lemma FinishingTells(slots: seq<Slot>, recordable: Slot -> bool, now: int, e: Event)
    ensures e in Finishing(slots, recordable, now) <==> exists s ::
      s in slots && recordable(s) && e == Event(ExecutionFinished, Some(now), Some(s.backend), Some(s.taskId))
  {
    var kept := Filter(slots, recordable);
    var finish := (s: Slot) => FinishOf(s, now);
    FilterMember(slots, recordable);
    if s :| s in kept && finish(s) == e {
      var i :| 0 <= i < |kept| && kept[i] == s;
      assert Map(kept, finish)[i] == e;
    }
    if e in Map(kept, finish) {
      var i :| 0 <= i < |kept| && Map(kept, finish)[i] == e;
      assert kept[i] in kept;
    }
  }

  /** The events a clear adds: one finish for every slot in the list that can be recorded. */
  function Finishing(slots: seq<Slot>, recordable: Slot -> bool, now: int): seq<Event> {
    Map(Filter(slots, recordable), (s: Slot) => FinishOf(s, now))
  }

  class UsageStore {
    var events: seq<Event>

    constructor ()
      ensures events == []
    {
      events := [];
    }

    method RecordExecutionFinished(slot: Slot, now: int)
      modifies this
      ensures events == old(events) + [FinishOf(slot, now)]
    {
      events := events + [FinishOf(slot, now)];
    }

    /** `clear_orphaned_in_flight`; recording a slot raises where `recordable` is false. */
    method ClearOrphaned(fetch: string -> Fetch, now: int, apply: bool, window: int, recordable: Slot -> bool)
      returns (cleared: seq<Cleared>)
      modifies this
      ensures var slots := Orphaned(old(events), fetch, now - window);
        && |cleared| == |slots|
        && (forall i :: 0 <= i < |slots| ==> cleared[i].orphan.slot == slots[i])
        && (forall i :: 0 <= i < |slots| ==>
              cleared[i].outcome == if !apply then WouldApply else if recordable(slots[i]) then Applied else Failed)
        && events == old(events) + (if apply then Finishing(slots, recordable, now) else [])
    {
      hide Orphaned, OrphanAt;
      var orphans := FindOrphaned(events, fetch, now, window);
      ghost var before, slots := events, Map(orphans, SlotOfOrphan);
      ghost var finish := (s: Slot) => FinishOf(s, now);
      cleared := [];
      assert Map(Filter(slots[..0], recordable), finish) == [];
      hide Filter, FinishOf;
      for i := 0 to |orphans|
        invariant |cleared| == i
        invariant forall k :: 0 <= k < i ==> cleared[k].orphan.slot == slots[k]
        invariant forall k :: 0 <= k < i ==>
          cleared[k].outcome == if !apply then WouldApply else if recordable(slots[k]) then Applied else Failed
        invariant events == before + if apply then Map(Filter(slots[..i], recordable), finish) else []
      {
        var o := orphans[i];
        FilterMapStep(slots, i, recordable, finish);
        var outcome := WouldApply;
        if apply {
          if recordable(o.slot) {
            RecordExecutionFinished(o.slot, now);
            outcome := Applied;
          } else {
            outcome := Failed;
          }
        }
        cleared := cleared + [Cleared(o, outcome)];
      }
      WholeSlice(slots);
    }
  }

  function SlotSet(slots: seq<Slot>): set<Slot> {
    set s | s in slots
  }

  /** A finish recorded at the end closes its slot and touches no other. */
  lemma FinishCloses(events: seq<Event>, slot: Slot, now: int, cutoff: int)
    requires cutoff <= now
    ensures Open(events + [FinishOf(slot, now)], cutoff).values == Open(events, cutoff).values - {slot}
  {
    OpenStep(events, FinishOf(slot, now), cutoff);
  }

  lemma WithoutOneMore(m: map<Slot, Event>, init: seq<Slot>, last: Slot)
    ensures m - SlotSet(init) - {last} == m - SlotSet(init + [last])
    ensures m - SlotSet([]) == m
  {
  }

  lemma {:induction false} FinishesClose(events: seq<Event>, slots: seq<Slot>, now: int, cutoff: int)
    requires cutoff <= now
    ensures Open(events + Map(slots, (s: Slot) => FinishOf(s, now)), cutoff).values
         == Open(events, cutoff).values - SlotSet(slots)
  {
    hide Open, SlotSet;
    var finish := (s: Slot) => FinishOf(s, now);
    if slots == [] {
      assert events + Map(slots, finish) == events;
      WithoutOneMore(Open(events, cutoff).values, [], Slot("", ""));
    } else {
      var init, last := slots[..|slots| - 1], slots[|slots| - 1];
      assert slots == init + [last];
      FinishesClose(events, init, now, cutoff);
      MapAppend(init, last, finish);
      assert events + Map(slots, finish) == (events + Map(init, finish)) + [finish(last)];
      FinishCloses(events + Map(init, finish), last, now, cutoff);
      WithoutOneMore(Open(events, cutoff).values, init, last);
    }
  }

  lemma SetOfFiltered(slots: seq<Slot>, recordable: Slot -> bool)
    ensures SlotSet(Filter(slots, recordable)) == (set s | s in slots && recordable(s))
  {
    FilterMember(slots, recordable);
  }

  /** Main result: an applied clear adds one finish for every orphan that can be recorded,
      and a scan with any cutoff up to then finds open what it found before, with the same
      start events, but for those slots. */
  lemma ClearTouchesOnlyOrphans(events: seq<Event>, fetch: string -> Fetch, now: int, window: int,
                                recordable: Slot -> bool, cutoff: int)
    requires cutoff <= now
    ensures var slots := Orphaned(events, fetch, now - window);
      var added := Finishing(slots, recordable, now);
      && Open(events + added, cutoff).values
         == Open(events, cutoff).values - (set s | s in slots && recordable(s))
      && |added| == |set s | s in slots && recordable(s)|
  {
    hide Open, Orphaned;
    var slots := Orphaned(events, fetch, now - window);
    var done := Filter(slots, recordable);
    FinishesClose(events, done, now, cutoff);
    SetOfFiltered(slots, recordable);
    assert Finishing(slots, recordable, now) == Map(done, (s: Slot) => FinishOf(s, now));
    OrphanedExactly(events, fetch, now - window, Slot("", ""));
    FilterKeepsDistinct(slots, recordable);
    DistinctSize(done);
  }

  lemma {:induction false} DistinctSize(s: seq<Slot>)
    requires Distinct(s)
    ensures |SlotSet(s)| == |s|
  {
    if s != [] {
      var init, last := s[..|s| - 1], s[|s| - 1];
      DistinctSize(init);
      assert SlotSet(s) == SlotSet(init) + {last};
    }
  }

  /** Main result: with the tasks unchanged, a rescan after an applied clear finds exactly
      the orphans that could not be recorded; none when all could. */
  lemma RescanFindsFailures(events: seq<Event>, fetch: string -> Fetch, now: int, window: int,
                            recordable: Slot -> bool, slot: Slot)
    requires window >= 0
    ensures var slots := Orphaned(events, fetch, now - window);
      var after := events + Finishing(slots, recordable, now);
      slot in Orphaned(after, fetch, now - window) <==> slot in slots && !recordable(slot)
  {
    var slots := Orphaned(events, fetch, now - window);
    var after := events + Finishing(slots, recordable, now);
    ClearTouchesOnlyOrphans(events, fetch, now, window, recordable, now - window);
    OrphanedExactly(events, fetch, now - window, slot);
    OrphanedExactly(after, fetch, now - window, slot);
  }

  // ---- A later cutoff ----

  /** Seen from no cutoff at all. */
  predicate StartsEver(e: Event, slot: Slot) {
    e.timestamp.Some? && Starts(e, e.timestamp.value, slot)
  }

  predicate FinishesEver(e: Event, slot: Slot) {
    e.timestamp.Some? && Finishes(e, e.timestamp.value, slot)
  }

  /** No start of the slot is stamped later than a finish behind it in the list. A log whose
      timestamps follow list order has this for every slot. */
  predicate InOrder(events: seq<Event>, slot: Slot) {
    forall i, j :: 0 <= i < j < |events| && StartsEver(events[i], slot) && FinishesEver(events[j], slot) ==>
      events[i].timestamp.value <= events[j].timestamp.value
  }

  /** Start i is stamped later than every finish of its slot behind it in the list. */
  predicate Outlasts(events: seq<Event>, slot: Slot, i: int) {
    && 0 <= i < |events| && StartsEver(events[i], slot)
    && forall j :: i < j < |events| && FinishesEver(events[j], slot) ==>
         events[j].timestamp.value < events[i].timestamp.value
  }

  lemma OutlastsIsOpen(events: seq<Event>, slot: Slot, i: int)
    requires Outlasts(events, slot, i)
    ensures slot in Open(events, events[i].timestamp.value).values
  {
    var cutoff := events[i].timestamp.value;
    forall j | i < j < |events|
      ensures !Finishes(events[j], cutoff, slot)
    {
      assert Finishes(events[j], cutoff, slot) ==> FinishesEver(events[j], slot);
    }
    assert Unfinished(events, cutoff, slot, i);
    OpenExactly(events, cutoff, slot);
  }

  lemma OpenOutlasts(events: seq<Event>, cutoff: int, slot: Slot) returns (i: int)
    requires slot in Open(events, cutoff).values
    ensures Outlasts(events, slot, i) && events[i].timestamp.value >= cutoff
  {
    OpenExactly(events, cutoff, slot);
    i :| Unfinished(events, cutoff, slot, i);
    assert StartsEver(events[i], slot);
    forall j | i < j < |events| && FinishesEver(events[j], slot)
      ensures events[j].timestamp.value < events[i].timestamp.value
    {
      assert !Finishes(events[j], cutoff, slot);
    }
  }

  /** The slot is open at this cutoff or a later one. */
  ghost predicate OpenFrom(events: seq<Event>, cutoff: int, slot: Slot) {
    exists later :: cutoff <= later && slot in Open(events, later).values
  }

  /** Main result: a slot is open at some cutoff from this one on exactly when a start of it,
      stamped at or after this cutoff, is later than every finish behind it. */
  lemma OpenFromExactly(events: seq<Event>, cutoff: int, slot: Slot)
    ensures OpenFrom(events, cutoff, slot) <==>
      exists i :: Outlasts(events, slot, i) && events[i].timestamp.value >= cutoff
  {
    if OpenFrom(events, cutoff, slot) {
      var later :| cutoff <= later && slot in Open(events, later).values;
      var i := OpenOutlasts(events, later, slot);
    }
    if i :| Outlasts(events, slot, i) && events[i].timestamp.value >= cutoff {
      OutlastsIsOpen(events, slot, i);
    }
  }

  /** The slot never opens as the cutoff advances. */
  ghost predicate OnlyShrinks(events: seq<Event>, slot: Slot) {
    forall cutoff, later :: cutoff <= later && slot in Open(events, later).values ==>
      slot in Open(events, cutoff).values
  }

  /** Start k is later than the finishes behind it, and the latest of these is stamped t. */
  predicate Straddles(events: seq<Event>, slot: Slot, k: int, t: int) {
    && Outlasts(events, slot, k)
    && (exists j :: k < j < |events| && FinishesEver(events[j], slot) && events[j].timestamp.value == t)
    && (forall j :: k < j < |events| && FinishesEver(events[j], slot) ==> events[j].timestamp.value <= t)
  }

  /** Start m is stamped at or after t, and every finish behind it before t. */
  predicate Bridges(events: seq<Event>, slot: Slot, t: int, m: int) {
    && 0 <= m < |events| && StartsEver(events[m], slot) && events[m].timestamp.value >= t
    && forall j :: m < j < |events| && FinishesEver(events[j], slot) ==> events[j].timestamp.value < t
  }

  lemma BridgesIsOpen(events: seq<Event>, slot: Slot, t: int)
    ensures slot in Open(events, t).values <==> exists m :: Bridges(events, slot, t, m)
  {
    OpenExactly(events, t, slot);
    assert forall e :: Starts(e, t, slot) <==> StartsEver(e, slot) && e.timestamp.value >= t;
    assert forall e :: Finishes(e, t, slot) <==> FinishesEver(e, slot) && e.timestamp.value >= t;
    forall m
      ensures Bridges(events, slot, t, m) <==> Unfinished(events, t, slot, m)
    {
    }
  }

  /** Every gap behind a start is bridged by another start. */
  ghost predicate GapsBridged(events: seq<Event>, slot: Slot) {
    forall k, t :: Straddles(events, slot, k, t) ==> exists m :: Bridges(events, slot, t, m)
  }

  /** One tick of the cutoff. */
  lemma ShrinksByOne(events: seq<Event>, slot: Slot, cutoff: int)
    requires GapsBridged(events, slot) && slot in Open(events, cutoff + 1).values
    ensures slot in Open(events, cutoff).values
  {
    BridgesIsOpen(events, slot, cutoff + 1);
    BridgesIsOpen(events, slot, cutoff);
    hide Open;
    var k :| Bridges(events, slot, cutoff + 1, k);
    if exists j :: k < j < |events| && FinishesEver(events[j], slot) && events[j].timestamp.value == cutoff {
      assert Straddles(events, slot, k, cutoff);
    } else {
      assert Bridges(events, slot, cutoff, k);
    }
  }

  lemma {:induction false} ShrinksByMany(events: seq<Event>, slot: Slot, cutoff: int, later: int)
    requires GapsBridged(events, slot) && cutoff <= later && slot in Open(events, later).values
    ensures slot in Open(events, cutoff).values
    decreases later - cutoff
  {
    if cutoff < later {
      ShrinksByMany(events, slot, cutoff + 1, later);
      ShrinksByOne(events, slot, cutoff);
    }
  }

  /** Main result: the slot only closes as the cutoff advances, exactly when for every start
      that is later than the finishes behind it, the latest of them stamped t, some start
      stamped at or after t has only finishes stamped before t behind it. */
  lemma OnlyShrinksExactly(events: seq<Event>, slot: Slot)
    ensures OnlyShrinks(events, slot) <==> GapsBridged(events, slot)
  {
    hide Open;
    if OnlyShrinks(events, slot) {
      forall k, t | Straddles(events, slot, k, t)
        ensures exists m :: Bridges(events, slot, t, m)
      {
        OutlastsIsOpen(events, slot, k);
        BridgesIsOpen(events, slot, t);
      }
    }
    if GapsBridged(events, slot) {
      forall cutoff, later | cutoff <= later && slot in Open(events, later).values
        ensures slot in Open(events, cutoff).values
      {
        ShrinksByMany(events, slot, cutoff, later);
      }
    }
  }

  /** With starts and finishes in order there is no gap, so a slot only closes. */
  lemma LaterCutoff(events: seq<Event>, cutoff: int, later: int, slot: Slot)
    requires InOrder(events, slot) && cutoff <= later
    ensures slot in Open(events, later).values ==> slot in Open(events, cutoff).values
  {
    hide Open;
    OnlyShrinksExactly(events, slot);
    assert GapsBridged(events, slot) by {
      assert forall k, t :: !Straddles(events, slot, k, t);
    }
  }

  /** What is open in a longer log was open before, or was started since. */
  lemma OpenSince(events: seq<Event>, more: seq<Event>, cutoff: int, slot: Slot)
    requires slot in Open(events + more, cutoff).values
    ensures slot in Open(events, cutoff).values || exists e :: e in more && Starts(e, cutoff, slot)
  {
    var all := events + more;
    OpenExactly(all, cutoff, slot);
    OpenExactly(events, cutoff, slot);
    var i :| Unfinished(all, cutoff, slot, i);
    if i < |events| {
      assert forall j :: 0 <= j < |events| ==> all[j] == events[j];
      assert Unfinished(events, cutoff, slot, i);
    } else {
      assert all[i] == more[i - |events|] && all[i] in more;
    }
  }

  /** The log after an applied clear and whatever was recorded since. */
  function AfterClear(events: seq<Event>, fetch: string -> Fetch, now: int, window: int,
                      recordable: Slot -> bool, more: seq<Event>): seq<Event> {
    events + Finishing(Orphaned(events, fetch, now - window), recordable, now) + more
  }

  /** Main result: at any later cycle, with the tasks unchanged, a slot is an orphan only if
      it was one that could not be recorded, or was started since. It takes that no start
      of the slot is stamped later than a finish behind it. */
  lemma LaterRescan(events: seq<Event>, fetch: string -> Fetch, now: int, window: int,
                    recordable: Slot -> bool, more: seq<Event>, later: int, slot: Slot)
    requires window >= 0 && now <= later
    requires InOrder(AfterClear(events, fetch, now, window, recordable, more), slot)
    requires slot in Orphaned(AfterClear(events, fetch, now, window, recordable, more), fetch, later - window)
    ensures || (slot in Orphaned(events, fetch, now - window) && !recordable(slot))
            || exists e :: e in more && Starts(e, later - window, slot)
  {
    hide Open, InOrder, Orphaned, Finishing;
    var cleared := events + Finishing(Orphaned(events, fetch, now - window), recordable, now);
    var all := cleared + more;
    OrphanedExactly(all, fetch, later - window, slot);
    OpenSince(cleared, more, later - window, slot);
    if slot in Open(cleared, later - window).values {
      InOrderBefore(cleared, more, slot);
      LaterCutoff(cleared, now - window, later - window, slot);
      OrphanedExactly(cleared, fetch, now - window, slot);
      RescanFindsFailures(events, fetch, now, window, recordable, slot);
    }
  }

  lemma InOrderBefore(events: seq<Event>, more: seq<Event>, slot: Slot)
    requires InOrder(events + more, slot)
    ensures InOrder(events, slot)
  {
    assert forall i :: 0 <= i < |events| ==> (events + more)[i] == events[i];
  }

  /** The order survives a clear as long as no start lies in its future. */
  lemma ClearKeepsOrder(events: seq<Event>, slots: seq<Slot>, recordable: Slot -> bool, now: int, slot: Slot)
    requires InOrder(events, slot)
    requires forall e :: e in events && StartsEver(e, slot) ==> e.timestamp.value <= now
    ensures InOrder(events + Finishing(slots, recordable, now), slot)
  {
    var added := Finishing(slots, recordable, now);
    var all := events + added;
    FinishesAtNow(slots, recordable, now);
    forall k | |events| <= k < |all|
      ensures all[k].kind.ExecutionFinished? && all[k].timestamp == Some(now)
    {
      assert all[k] in added;
    }
    forall i, j | 0 <= i < j < |all| && StartsEver(all[i], slot) && FinishesEver(all[j], slot)
      ensures all[i].timestamp.value <= all[j].timestamp.value
    {
      assert i < |events| ==> all[i] in events;
    }
  }

  /** A clear adds finishes alone, and stamps them with its own time. */
  lemma FinishesAtNow(slots: seq<Slot>, recordable: Slot -> bool, now: int)
    ensures forall e :: e in Finishing(slots, recordable, now) ==>
      e.kind.ExecutionFinished? && e.timestamp == Some(now)
  {
  }

  /** A start of the slot that lies in the future of the clear and is later than every
      finish behind it. */
  predicate FutureStart(events: seq<Event>, slot: Slot, now: int, i: int) {
    Outlasts(events, slot, i) && events[i].timestamp.value > now
  }

  /** The slot is an orphan again at some later cycle, with nothing recorded in between. */
  ghost predicate Returns(events: seq<Event>, fetch: string -> Fetch, now: int, window: int,
                          recordable: Slot -> bool, slot: Slot) {
    exists later :: now <= later && ReturnsAt(events, fetch, now, window, recordable, slot, later)
  }

  predicate ReturnsAt(events: seq<Event>, fetch: string -> Fetch, now: int, window: int,
                      recordable: Slot -> bool, slot: Slot, later: int) {
    slot in Orphaned(AfterClear(events, fetch, now, window, recordable, []), fetch, later - window)
  }

  /** The finishes of a clear do not outdate a start in its future, and outdate every other
      start of a slot they are for. */
  lemma ClearOutdates(events: seq<Event>, slots: seq<Slot>, recordable: Slot -> bool, now: int, slot: Slot, i: int)
    ensures FutureStart(events, slot, now, i) ==> Outlasts(events + Finishing(slots, recordable, now), slot, i)
    ensures slot in slots && recordable(slot) && Outlasts(events + Finishing(slots, recordable, now), slot, i) ==>
      FutureStart(events, slot, now, i)
  {
    var added := Finishing(slots, recordable, now);
    var after := events + added;
    FinishesAtNow(slots, recordable, now);
    forall j | |events| <= j < |after|
      ensures after[j].kind.ExecutionFinished? && after[j].timestamp == Some(now)
    {
      assert after[j] in added;
    }
    assert forall j :: 0 <= j < |events| ==> after[j] == events[j];
    if slot in slots && recordable(slot) {
      FinishAdded(slots, recordable, now, slot);
      var k :| 0 <= k < |added| && added[k] == FinishOf(slot, now);
      assert after[|events| + k] == added[k] && FinishesEver(after[|events| + k], slot);
    }
  }

  lemma FinishAdded(slots: seq<Slot>, recordable: Slot -> bool, now: int, slot: Slot)
    requires slot in slots && recordable(slot)
    ensures var added := Finishing(slots, recordable, now);
      exists k :: 0 <= k < |added| && added[k] == FinishOf(slot, now)
  {
    FilterMember(slots, recordable);
    var kept := Filter(slots, recordable);
    var k :| 0 <= k < |kept| && kept[k] == slot;
    assert Finishing(slots, recordable, now)[k] == FinishOf(slot, now);
  }

  /** Main result: a cleared slot comes back at a later cycle exactly when one of its starts
      is stamped after the clear and later than every finish behind it. */
  lemma ReturnsExactly(events: seq<Event>, fetch: string -> Fetch, now: int, window: int,
                       recordable: Slot -> bool, slot: Slot)
    requires window >= 0 && slot in Orphaned(events, fetch, now - window) && recordable(slot)
    ensures Returns(events, fetch, now, window, recordable, slot) <==> exists i :: FutureStart(events, slot, now, i)
  {
    hide Orphaned, Open, Finishing, Outlasts;
    var slots := Orphaned(events, fetch, now - window);
    var after := events + Finishing(slots, recordable, now);
    assert AfterClear(events, fetch, now, window, recordable, []) == after;
    OrphanedExactly(events, fetch, now - window, slot);
    if i :| FutureStart(events, slot, now, i) {
      StartInLog(events, slot, i);
      var cutoff := events[i].timestamp.value;
      ClearOutdates(events, slots, recordable, now, slot, i);
      assert after[i] == events[i];
      OutlastsIsOpen(after, slot, i);
      OrphanedExactly(after, fetch, cutoff, slot);
      assert cutoff + window - window == cutoff && now <= cutoff + window;
      assert ReturnsAt(events, fetch, now, window, recordable, slot, cutoff + window);
    }
    if Returns(events, fetch, now, window, recordable, slot) {
      var later :| now <= later && ReturnsAt(events, fetch, now, window, recordable, slot, later);
      OrphanedExactly(after, fetch, later - window, slot);
      var i := OpenOutlasts(after, later - window, slot);
      ClearOutdates(events, slots, recordable, now, slot, i);
    }
  }

  lemma StartInLog(events: seq<Event>, slot: Slot, i: int)
    requires Outlasts(events, slot, i)
    ensures 0 <= i < |events| && events[i].timestamp.Some?
  {
  }

  /** Without the order a closed slot can open again: its finish falls out of the window
      before its start does. */
  lemma LaterCutoffReopens()
    ensures exists events, cutoff, later, slot ::
      cutoff <= later && slot !in Open(events, cutoff).values && slot in Open(events, later).values
  {
    var slot := Slot("b", "t");
    var start := Event(ExecutionStarted, Some(10), Some("b"), Some("t"));
    var finish := Event(ExecutionFinished, Some(5), Some("b"), Some("t"));
    var events := [start, finish];
    OpenStep([], start, 3);
    OpenStep([start], finish, 3);
    OpenStep([], start, 7);
    OpenStep([start], finish, 7);
    assert [] + [start] == [start] && [start] + [finish] == events;
    assert slot !in Open(events, 3).values && slot in Open(events, 7).values;
  }
}
