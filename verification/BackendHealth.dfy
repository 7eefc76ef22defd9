/** The backend health registry: its transitions, and what a record says about its history. */
module BackendHealth {
  import opened Prelude
  import opened Sequences

  datatype State = Unknown | Healthy | Degraded | Unstable | Unavailable | Recovering | OperatorBlocked

  datatype Strategy =
    | NoStrategy | RetryAfterCooldown | RestartBackend | RestartWatcher | ReinitializeRuntime
    | ReducePressure | Escalate

  datatype Signal = Sigkill | Sigterm

  /** A failed execution; the signal is the one named in its failure reason. */
  datatype Failure = Failure(signature: string, timestamp: int, signal: Option<Signal>)

  datatype Record = Record(
    state: State,
    failureCount: nat,
    recoveryAttempts: nat,
    lastSuccessAt: Option<int>,
    lastFailure: Option<Failure>,
    cooldownUntil: Option<int>,
    safeRetryAfter: Option<int>,
    strategy: Strategy,
    blockedReason: Option<string>)

  const FRESH := Record(Unknown, 0, 0, None, None, None, None, NoStrategy, None)

  datatype Config = Config(cooldown: int, unstableThreshold: int, unavailableThreshold: int)

  /** One call on the registry. */
  datatype Event =
    | Success(at: int)
    | Fail(failure: Failure)
    | StartRecovery(strategy: Strategy)
    | Block(reason: string)

  datatype Op = Op(backend: string, event: Event)

  type Records = map<string, Record>

  /** `get`: a backend never heard of has a fresh record. */
  function Get(records: Records, backend: string): Record {
    if backend in records then records[backend] else FRESH
  }

  predicate Killed(f: Failure) {
    f.signal == Some(Sigkill)
  }

  function FailureState(cfg: Config, f: Failure, count: nat): State {
    if Killed(f) then Unstable
    else if count >= cfg.unavailableThreshold then Unavailable
    else if count >= cfg.unstableThreshold then Unstable
    else Degraded
  }

  function Transition(cfg: Config, r: Record, e: Event): Record {
    match e
    case Success(at) =>
      r.(state := Healthy, failureCount := 0, lastSuccessAt := Some(at), cooldownUntil := None,
         safeRetryAfter := None, strategy := NoStrategy, blockedReason := None)
    case Fail(f) =>
      var count := r.failureCount + 1;
      var strategy := if Killed(f) then ReducePressure
        else if count >= cfg.unavailableThreshold then Escalate else RetryAfterCooldown;
      var until := if Killed(f) then Some(f.timestamp + cfg.cooldown) else r.cooldownUntil;
      var retry := if Killed(f) then until else r.safeRetryAfter;
      r.(state := FailureState(cfg, f, count), failureCount := count, lastFailure := Some(f),
         cooldownUntil := until, safeRetryAfter := retry, strategy := strategy)
    case StartRecovery(s) =>
      r.(state := Recovering, recoveryAttempts := r.recoveryAttempts + 1, strategy := s)
    case Block(reason) => r.(state := OperatorBlocked, strategy := Escalate, blockedReason := Some(reason))
  }

  function After(cfg: Config, records: Records, op: Op): Records {
    records[op.backend := Transition(cfg, Get(records, op.backend), op.event)]
  }

  class BackendHealthRegistry {
    const cfg: Config
    var records: Records

    constructor (cfg: Config)
      ensures this.cfg == cfg && records == map[]
    {
      this.cfg := cfg;
      records := map[];
    }

    method RecordSuccess(backend: string, now: int) returns (current: Record)
      modifies this
      ensures records == After(cfg, old(records), Op(backend, Success(now)))
      ensures current == records[backend]
      ensures current.strategy == NoStrategy
      ensures current.state == Healthy && current.failureCount == 0 && current.lastSuccessAt == Some(now)
      ensures current.cooldownUntil == None && current.safeRetryAfter == None && current.blockedReason == None
      ensures current.recoveryAttempts == Get(old(records), backend).recoveryAttempts
      ensures current.lastFailure == Get(old(records), backend).lastFailure
      ensures forall b :: b != backend ==> Get(records, b) == Get(old(records), b)
    {
      var previous := Get(records, backend);
      current := previous.(state := Healthy, failureCount := 0, lastSuccessAt := Some(now),
        cooldownUntil := None, safeRetryAfter := None, strategy := NoStrategy, blockedReason := None);
      records := records[backend := current];
    }

    method RecordFailure(backend: string, failure: Failure) returns (current: Record, cooldownApplied: bool)
      modifies this
      ensures records == After(cfg, old(records), Op(backend, Fail(failure)))
      ensures current == records[backend] && (cooldownApplied <==> failure.signal == Some(Sigkill))
      ensures var before := Get(old(records), backend);
        && current.failureCount == before.failureCount + 1 && current.lastFailure == Some(failure)
        && current.recoveryAttempts == before.recoveryAttempts && current.lastSuccessAt == before.lastSuccessAt
        && current.blockedReason == before.blockedReason
      ensures var before, count := Get(old(records), backend), current.failureCount;
        if failure.signal == Some(Sigkill) then
          && current.state == Unstable && current.strategy == ReducePressure
          && current.cooldownUntil == current.safeRetryAfter == Some(failure.timestamp + cfg.cooldown)
        else
          && current.cooldownUntil == before.cooldownUntil && current.safeRetryAfter == before.safeRetryAfter
          && (current.state == Unavailable <==> count >= cfg.unavailableThreshold)
          && (current.state == Unstable <==> cfg.unstableThreshold <= count < cfg.unavailableThreshold)
          && (current.state == Degraded <==> count < cfg.unstableThreshold && count < cfg.unavailableThreshold)
          && current.strategy == if count >= cfg.unavailableThreshold then Escalate else RetryAfterCooldown
      ensures forall b :: b != backend ==> Get(records, b) == Get(old(records), b)
    {
      var previous := Get(records, backend);
      var count := previous.failureCount + 1;
      var until, retry := previous.cooldownUntil, previous.safeRetryAfter;
      var strategy, state := RetryAfterCooldown, Degraded;
      cooldownApplied := false;
      if failure.signal == Some(Sigkill) {
        state := Unstable;
        until := Some(failure.timestamp + cfg.cooldown);
        retry := until;
        strategy := ReducePressure;
        cooldownApplied := true;
      } else if count >= cfg.unavailableThreshold {
        state, strategy := Unavailable, Escalate;
      } else if count >= cfg.unstableThreshold {
        state := Unstable;
      }
      current := previous.(state := state, failureCount := count, lastFailure := Some(failure),
        cooldownUntil := until, safeRetryAfter := retry, strategy := strategy);
      records := records[backend := current];
    }

    method StartRecovery(backend: string, strategy: Strategy) returns (current: Record)
      modifies this
      ensures records == After(cfg, old(records), Op(backend, Event.StartRecovery(strategy)))
      ensures current == records[backend]
      ensures current == Get(old(records), backend).(
        state := Recovering, strategy := strategy,
        recoveryAttempts := Get(old(records), backend).recoveryAttempts + 1)
    {
      var previous := Get(records, backend);
      current := previous.(state := Recovering, recoveryAttempts := previous.recoveryAttempts + 1,
        strategy := strategy);
      records := records[backend := current];
    }

    method MarkOperatorBlocked(backend: string, reason: string) returns (current: Record)
      modifies this
      ensures records == After(cfg, old(records), Op(backend, Block(reason)))
      ensures current == records[backend]
      ensures current == Get(old(records), backend).(
        state := OperatorBlocked, strategy := Escalate, blockedReason := Some(reason))
    {
      var previous := Get(records, backend);
      current := previous.(state := OperatorBlocked, strategy := Escalate, blockedReason := Some(reason));
      records := records[backend := current];
    }
  }

  // ---- Histories ----

  function AfterAll(cfg: Config, ops: seq<Op>): Records {
    if ops == [] then map[] else After(cfg, AfterAll(cfg, ops[..|ops| - 1]), ops[|ops| - 1])
  }

  /** The events of one backend, in order. */
  function EventsOf(ops: seq<Op>, backend: string): seq<Event> {
    if ops == [] then []
    else
      var last := ops[|ops| - 1];
      EventsOf(ops[..|ops| - 1], backend) + if last.backend == backend then [last.event] else []
  }

  function RecordOf(cfg: Config, events: seq<Event>): Record {
    if events == [] then FRESH else Transition(cfg, RecordOf(cfg, events[..|events| - 1]), events[|events| - 1])
  }

  /** Main result: a backend's record depends on its own events alone. */
  lemma {:induction false} Independent(cfg: Config, ops: seq<Op>, backend: string)
    ensures Get(AfterAll(cfg, ops), backend) == RecordOf(cfg, EventsOf(ops, backend))
  {
    if ops != [] {
      var init, last := ops[..|ops| - 1], ops[|ops| - 1];
      Independent(cfg, init, backend);
      if last.backend == backend {
        assert EventsOf(ops, backend)[..|EventsOf(ops, backend)| - 1] == EventsOf(init, backend);
      } else {
        assert EventsOf(ops, backend) == EventsOf(init, backend);
      }
    }
  }

  /** Nothing after k is a success: k is where the current streak begins. */
  predicate StreakFrom(events: seq<Event>, k: nat) {
    && k <= |events|
    && (k > 0 ==> events[k - 1].Success?)
    && forall i :: k <= i < |events| ==> !events[i].Success?
  }

  predicate IsFailure(e: Event) {
    e.Fail?
  }

  predicate IsKill(e: Event) {
    e.Fail? && Killed(e.failure)
  }

  /** The last event is a kill at this time, looking only at kills. */
  predicate LatestKill(events: seq<Event>, k: nat, at: int) {
    exists i :: k <= i < |events| && IsKill(events[i]) && events[i].failure.timestamp == at
      && forall j :: i < j < |events| ==> !IsKill(events[j])
  }

  predicate NoKill(events: seq<Event>, k: nat) {
    forall i :: k <= i < |events| ==> !IsKill(events[i])
  }

  /** The cooldown is the latest kill's, or there was none. */
  predicate CooldownTells(cfg: Config, events: seq<Event>, k: nat, r: Record) {
    && r.safeRetryAfter == r.cooldownUntil
    && (r.cooldownUntil.None? ==> NoKill(events, k))
    && (r.cooldownUntil.Some? ==> LatestKill(events, k, r.cooldownUntil.value - cfg.cooldown))
  }

  /** What a record says about the streak that begins at k. */
  predicate Tells(cfg: Config, events: seq<Event>, k: nat, r: Record)
    requires StreakFrom(events, k)
  {
    && r.failureCount == |Filter(events[k..], IsFailure)|
    && CooldownTells(cfg, events, k, r)
    && (r.state.Healthy? <==> 0 < k == |events|)
    && r.lastSuccessAt == (if k == 0 then None else Some(events[k - 1].at))
  }

  lemma LatestKillStep(events: seq<Event>, e: Event, k: nat, at: int)
    requires k <= |events|
    ensures LatestKill(events, k, at) && !IsKill(e) ==> LatestKill(events + [e], k, at)
    ensures IsKill(e) ==> LatestKill(events + [e], k, e.failure.timestamp)
    ensures NoKill(events + [e], k) <==> NoKill(events, k) && !IsKill(e)
  {
    var more := events + [e];
    assert more[|events|] == e;
    if LatestKill(events, k, at) && !IsKill(e) {
      var i :| k <= i < |events| && IsKill(events[i]) && events[i].failure.timestamp == at
        && forall j :: i < j < |events| ==> !IsKill(events[j]);
      assert IsKill(more[i]) && more[i].failure.timestamp == at;
    }
    if NoKill(more, k) {
      assert forall i :: k <= i < |events| ==> events[i] == more[i];
    }
  }

  lemma NothingYet(cfg: Config, events: seq<Event>, r: Record)
    requires r.cooldownUntil == None && r.safeRetryAfter == None
    ensures Filter(events[|events|..], IsFailure) == [] && CooldownTells(cfg, events, |events|, r)
  {
    assert events[|events|..] == [];
  }

  lemma CooldownStep(cfg: Config, init: seq<Event>, e: Event, k: nat, r: Record)
    requires k <= |init| && CooldownTells(cfg, init, k, r) && !e.Success?
    ensures CooldownTells(cfg, init + [e], k, Transition(cfg, r, e))
  {
    LatestKillStep(init, e, k, if r.cooldownUntil.Some? then r.cooldownUntil.value - cfg.cooldown else 0);
    hide LatestKill, NoKill;
  }

  /** For one backend's events: its failure count is the failures
      since its last success, the cooldown is set exactly when one of them was a kill and
      runs from the latest, and it is healthy exactly when its last event was a success. */
  lemma {:induction false} RecordTells(cfg: Config, events: seq<Event>, k: nat)
    requires StreakFrom(events, k)
    ensures Tells(cfg, events, k, RecordOf(cfg, events))
    decreases |events|
  {
    hide CooldownTells, Filter;
    if k == |events| {
      NothingYet(cfg, events, RecordOf(cfg, events));
    } else {
      var init, last := events[..|events| - 1], events[|events| - 1];
      assert events == init + [last] && StreakFrom(init, k);
      RecordTells(cfg, init, k);
      assert events[k..] == init[k..] + [last];
      FilterAppend(init[k..], last, IsFailure);
      CooldownStep(cfg, init, last, k, RecordOf(cfg, init));
    }
  }

  /** The streak of any event list. */
  lemma {:induction false} StreakExists(events: seq<Event>) returns (k: nat)
    ensures StreakFrom(events, k)
  {
    if events == [] || events[|events| - 1].Success? {
      k := |events|;
    } else {
      k := StreakExists(events[..|events| - 1]);
    }
  }

  /** Main result: after any operations on any backends, the record of each one tells the
      truth about that backend's own streak. */
  lemma AnyRunTells(cfg: Config, ops: seq<Op>, backend: string) returns (k: nat)
    ensures StreakFrom(EventsOf(ops, backend), k)
    ensures Tells(cfg, EventsOf(ops, backend), k, Get(AfterAll(cfg, ops), backend))
  {
    k := StreakExists(EventsOf(ops, backend));
    RecordTells(cfg, EventsOf(ops, backend), k);
    Independent(cfg, ops, backend);
  }

  predicate IsRecovery(e: Event) {
    e.StartRecovery?
  }

  /** e is the last event of this kind, or there is none. */
  predicate LastOfKind(events: seq<Event>, kind: Event -> bool, e: Option<Event>) {
    if e.None? then forall i :: 0 <= i < |events| ==> !kind(events[i])
    else exists i :: 0 <= i < |events| && events[i] == e.value && kind(e.value)
           && forall j :: i < j < |events| ==> !kind(events[j])
  }

  lemma LastOfKindStep(events: seq<Event>, kind: Event -> bool, e: Option<Event>, next: Event)
    requires LastOfKind(events, kind, e)
    ensures LastOfKind(events + [next], kind, if kind(next) then Some(next) else e)
  {
    var more := events + [next];
    assert more[|events|] == next;
    if !kind(next) && e.Some? {
      var i :| 0 <= i < |events| && events[i] == e.value && kind(e.value)
        && forall j :: i < j < |events| ==> !kind(events[j]);
      assert more[i] == e.value;
    }
  }

  /** The last failure a record keeps. */
  function LastFailed(r: Record): Option<Event> {
    if r.lastFailure.Some? then Some(Fail(r.lastFailure.value)) else None
  }

  lemma LastFailureStep(cfg: Config, events: seq<Event>, next: Event)
    requires LastOfKind(events, IsFailure, LastFailed(RecordOf(cfg, events)))
    ensures LastOfKind(events + [next], IsFailure, LastFailed(Transition(cfg, RecordOf(cfg, events), next)))
  {
    LastOfKindStep(events, IsFailure, LastFailed(RecordOf(cfg, events)), next);
    hide LastOfKind, RecordOf;
  }

  /** What a record keeps of the whole history: how often a recovery was started, the last
      failure, and in its state the last event unless that was a failure. */
  lemma {:induction false} HistoryKept(cfg: Config, events: seq<Event>)
    ensures var r := RecordOf(cfg, events);
      && r.recoveryAttempts == |Filter(events, IsRecovery)|
      && LastOfKind(events, IsFailure, LastFailed(r))
      && (events == [] ==> r.state == Unknown)
      && (events != [] && events[|events| - 1].Success? ==> r.state == Healthy)
      && (events != [] && events[|events| - 1].StartRecovery? ==> r.state == Recovering)
      && (events != [] && events[|events| - 1].Block? ==> r.state == OperatorBlocked)
  {
    if events != [] {
      var init, last := events[..|events| - 1], events[|events| - 1];
      assert events == init + [last];
      HistoryKept(cfg, init);
      FilterAppend(init, last, IsRecovery);
      LastFailureStep(cfg, init, last);
      hide Filter, LastOfKind, FailureState;
    }
  }
}
