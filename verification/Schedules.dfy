/**
 Drift schedule control (schedules.py): a small state machine whose audit trail is its policy history.

 A control call changes the schedule first and records the change after. `Replayed` folds the
 recorded changes; `TrailIsState` says the fold gives the schedule back after any calls that
 all got recorded, and `LosesExactly` says when an unrecorded one makes a difference.
 */
module Schedules {
  import opened Prelude
  import opened AuditEvents
  import opened Characters

  /** Durations are in microseconds, as Python's `timedelta`. */
  const SECOND: int := 1000000

  const MIN_SCAN_INTERVAL: int := 60 * SECOND

  const RUN_TIMEOUT: int := 1800 * SECOND

  /** What Temporal holds: SKIP overlap throughout; no interval after a change made outside snapl. */
  datatype Schedule = Schedule(
    interval: Option<int>, catchup: int, mode: Mode, timeout: Option<int>, paused: bool, note: Option<string>)

  datatype Reply = Done | BadInterval | BlankReason | NotFound | Unreadable | Busy | NotRecorded

  /** One control call. `running` says whether a run is in progress. */
  datatype Call =
    | Ensure(interval: int)
    | SetResponse(mode: Mode)
    | Pause(reason: string)
    | Resume(note: Option<string>)
    | Trigger(running: bool)
    | Delete

  /** `timedelta.total_seconds()` cut to whole seconds; intervals are positive. */
  function Seconds(interval: int): int { interval / SECOND }

  /** `not reason.strip()`. */
  predicate Blank(s: string) { forall i :: 0 <= i < |s| ==> IsSpace(s[i]) }

  /** `build_drift_schedule` for an interval it accepts. */
  function Built(interval: int): Schedule
  {
    Schedule(Some(interval), interval, Report, Some(RUN_TIMEOUT), false, None)
  }

  // ---- What one call does: the schedule it leaves and the change it reports ----

  datatype Effect = Effect(schedule: Option<Schedule>, change: Option<Change>, reply: Reply)

  function Refused(s: Option<Schedule>, reply: Reply): Effect { Effect(s, None, reply) }

  function EnsureEffect(s: Option<Schedule>, interval: int): Effect
  {
    if interval < MIN_SCAN_INTERVAL then Refused(s, BadInterval)
    else if s.None? then Effect(Some(Built(interval)), Some(Created(Seconds(interval), Report)), Done)
    else
      var previous := s.value.interval;
      var next := if previous == Some(interval) && s.value.timeout == Some(RUN_TIMEOUT) then s.value
                  else s.value.(timeout := Some(RUN_TIMEOUT), interval := Some(interval), catchup := interval);
      var from := if previous.Some? then Some(Seconds(previous.value)) else None;
      Effect(Some(next), if previous == Some(interval) then None else Some(IntervalChanged(from, Seconds(interval))), Done)
  }

  function ExistingEffect(s: Schedule, call: Call): Effect
    requires !call.Ensure?
  {
    match call
    case SetResponse(mode) =>
      if s.mode == mode then Effect(Some(s), None, if s.interval.Some? then Done else Unreadable)
      else Effect(Some(s.(mode := mode, timeout := Some(RUN_TIMEOUT))), Some(ResponseChanged(s.mode, mode)),
                  if s.interval.Some? then Done else Unreadable)
    case Pause(reason) => Effect(Some(s.(paused := true, note := Some(reason))), Some(Paused(reason)), Done)
    case Resume(note) => Effect(Some(s.(paused := false, note := note)), Some(Resumed(note)), Done)
    case Trigger(running) =>
      if s.interval.None? then Refused(Some(s), Unreadable)
      else if running then Refused(Some(s), Busy)
      else Effect(Some(s), Some(Triggered(s.mode)), Done)
    case Delete => Effect(None, Some(Deleted), Done)
  }

  function EffectOf(s: Option<Schedule>, call: Call): Effect
  {
    if call.Ensure? then EnsureEffect(s, call.interval)
    else if call.Pause? && Blank(call.reason) then Refused(s, BlankReason)
    else if s.None? then Refused(s, NotFound)
    else ExistingEffect(s.value, call)
  }

  function ChangeEntry(useCase: string, actor: string, change: Change): Entry
  {
    Entry(Name(useCase), ScheduleChanged, None, None, None, Changed(change), Some(actor))
  }

  /** The schedule control of one use case, with the audit log it appends to. */
  class DriftSchedule {
    const useCase: string
    var schedule: Option<Schedule>
    var trail: seq<Entry>

    constructor (useCase: string)
      ensures this.useCase == useCase && schedule == None && trail == []
    {
      this.useCase := useCase;
      schedule := None;
      trail := [];
    }

    /** `_record_change`: an anonymous change is refused by the event's validator, and the log may be down. */
    method Record(actor: string, change: Change, logUp: bool) returns (ok: bool)
      modifies this`trail
      ensures ok <==> logUp && actor != ""
      ensures trail == if ok then old(trail) + [ChangeEntry(useCase, actor, change)] else old(trail)
    {
      if actor == "" || !logUp {
        return false;
      }
      trail := trail + [ChangeEntry(useCase, actor, change)];
      ok := true;
    }

    /** `ensure_drift_schedule`. */
    method EnsureSchedule(interval: int, actor: string, logUp: bool) returns (reply: Reply)
      modifies this
      ensures Performed(old(schedule), old(trail), Ensure(interval), actor, logUp, schedule, trail, reply)
    {
      if interval < MIN_SCAN_INTERVAL {
        return BadInterval;
      }
      var ok := true;
      if schedule.None? {
        schedule := Some(Built(interval));
        ok := Record(actor, Created(Seconds(interval), Report), logUp);
      } else {
        var current := schedule.value;
        var previous := current.interval;
        if previous != Some(interval) || current.timeout != Some(RUN_TIMEOUT) {
          schedule := Some(current.(timeout := Some(RUN_TIMEOUT), interval := Some(interval), catchup := interval));
        }
        if previous != Some(interval) {
          var from := if previous.Some? then Some(Seconds(previous.value)) else None;
          ok := Record(actor, IntervalChanged(from, Seconds(interval)), logUp);
        }
      }
      reply := if ok then Done else NotRecorded;
    }

    /** `set_drift_response`. */
    method SetDriftResponse(mode: Mode, actor: string, logUp: bool) returns (reply: Reply)
      modifies this
      ensures Performed(old(schedule), old(trail), SetResponse(mode), actor, logUp, schedule, trail, reply)
    {
      if schedule.None? {
        return NotFound;
      }
      var current := schedule.value;
      if current.mode != mode {
        schedule := Some(current.(mode := mode, timeout := Some(RUN_TIMEOUT)));
        var ok := Record(actor, ResponseChanged(current.mode, mode), logUp);
        if !ok {
          return NotRecorded;
        }
      }
      reply := if current.interval.Some? then Done else Unreadable;
    }

    /** `pause_drift_schedule`. */
    method PauseSchedule(reason: string, actor: string, logUp: bool) returns (reply: Reply)
      modifies this
      ensures Performed(old(schedule), old(trail), Pause(reason), actor, logUp, schedule, trail, reply)
    {
      if Blank(reason) {
        return BlankReason;
      }
      if schedule.None? {
        return NotFound;
      }
      schedule := Some(schedule.value.(paused := true, note := Some(reason)));
      var ok := Record(actor, Paused(reason), logUp);
      reply := if ok then Done else NotRecorded;
    }

    /** `resume_drift_schedule`. */
    method ResumeSchedule(note: Option<string>, actor: string, logUp: bool) returns (reply: Reply)
      modifies this
      ensures Performed(old(schedule), old(trail), Resume(note), actor, logUp, schedule, trail, reply)
    {
      if schedule.None? {
        return NotFound;
      }
      schedule := Some(schedule.value.(paused := false, note := note));
      var ok := Record(actor, Resumed(note), logUp);
      reply := if ok then Done else NotRecorded;
    }

    /** `trigger_drift_schedule`: refused while a run is in progress. */
    method TriggerSchedule(running: bool, actor: string, logUp: bool) returns (reply: Reply)
      modifies this
      ensures Performed(old(schedule), old(trail), Trigger(running), actor, logUp, schedule, trail, reply)
    {
      if schedule.None? {
        return NotFound;
      }
      if schedule.value.interval.None? {
        return Unreadable;
      }
      if running {
        return Busy;
      }
      var ok := Record(actor, Triggered(schedule.value.mode), logUp);
      reply := if ok then Done else NotRecorded;
    }

    /** `delete_drift_schedule`. */
    method DeleteSchedule(actor: string, logUp: bool) returns (reply: Reply)
      modifies this
      ensures Performed(old(schedule), old(trail), Delete, actor, logUp, schedule, trail, reply)
    {
      if schedule.None? {
        return NotFound;
      }
      schedule := None;
      var ok := Record(actor, Deleted, logUp);
      reply := if ok then Done else NotRecorded;
    }

    /** A call does what EffectOf says and records its change, if the record is accepted. */
    predicate Performed(s: Option<Schedule>, before: seq<Entry>, call: Call, actor: string, logUp: bool,
                        next: Option<Schedule>, after: seq<Entry>, reply: Reply)
    {
      var effect := EffectOf(s, call);
      var recorded := logUp && actor != "";
      && next == effect.schedule
      && after == (if effect.change.Some? && recorded then before + [ChangeEntry(useCase, actor, effect.change.value)] else before)
      && reply == (if effect.change.Some? && !recorded then NotRecorded else effect.reply)
    }
  }

  // ---- Runs ----

  datatype State = State(schedule: Option<Schedule>, changes: seq<Change>)

  /** One call; `recorded` says whether its change, if any, reaches the log. */
  function Step(s: State, call: Call, recorded: bool): State
  {
    var effect := EffectOf(s.schedule, call);
    State(effect.schedule, if effect.change.Some? && recorded then s.changes + [effect.change.value] else s.changes)
  }

  function Run(s: State, calls: seq<Call>): State
    decreases calls
  {
    if calls == [] then s else Run(Step(s, calls[0], true), calls[1..])
  }

  // ---- The trail ----

  /** What the trail can tell of a schedule. */
  datatype Policy = Policy(seconds: int, mode: Mode, paused: bool)

  function PolicyOf(s: Option<Schedule>): Option<Policy>
  {
    if s.None? then None
    else Some(Policy(if s.value.interval.Some? then Seconds(s.value.interval.value) else 0, s.value.mode, s.value.paused))
  }

  function ApplyChange(p: Option<Policy>, c: Change): Option<Policy>
  {
    match c
    case Created(seconds, mode) => Some(Policy(seconds, mode, false))
    case IntervalChanged(_, to) => if p.None? then None else Some(p.value.(seconds := to))
    case ResponseChanged(_, after) => if p.None? then None else Some(p.value.(mode := after))
    case Paused(_) => if p.None? then None else Some(p.value.(paused := true))
    case Resumed(_) => if p.None? then None else Some(p.value.(paused := false))
    case Triggered(_) => p
    case Deleted => None
  }

  function Replayed(p: Option<Policy>, changes: seq<Change>): Option<Policy>
    decreases changes
  {
    if changes == [] then p else Replayed(ApplyChange(p, changes[0]), changes[1..])
  }

  /** Whether a change makes sense right after the history that produced `p`. */
  predicate Follows(p: Option<Policy>, c: Change)
  {
    match c
    case Created(_, mode) => p.None? && mode == Report
    case IntervalChanged(from, _) => p.Some? && from == Some(p.value.seconds)
    case ResponseChanged(before, after) => p.Some? && before == p.value.mode && after != before
    case Triggered(mode) => p.Some? && mode == p.value.mode
    case _ => p.Some?
  }

  /** Every recorded `from`, `before` and mode is what the earlier records say. */
  predicate Coherent(p: Option<Policy>, changes: seq<Change>)
    decreases changes
  {
    changes == [] || (Follows(p, changes[0]) && Coherent(ApplyChange(p, changes[0]), changes[1..]))
  }

  /** What the control functions keep: an interval of a minute or more, a catch-up window of one interval, a run timeout. */
  predicate WellKept(s: Option<Schedule>)
  {
    s.Some? ==> s.value.interval.Some? && s.value.interval.value >= MIN_SCAN_INTERVAL
                && s.value.catchup == s.value.interval.value && s.value.timeout == Some(RUN_TIMEOUT)
  }

  lemma EffectKeeps(s: Option<Schedule>, call: Call)
    requires WellKept(s)
    ensures WellKept(EffectOf(s, call).schedule)
  {
  }

  /** A reported change takes the old policy to the new one; without one the policy is unchanged. */
  lemma EffectIsChange(s: Option<Schedule>, call: Call)
    requires WellKept(s)
    ensures var effect := EffectOf(s, call);
            if effect.change.Some?
            then Follows(PolicyOf(s), effect.change.value) && PolicyOf(effect.schedule) == ApplyChange(PolicyOf(s), effect.change.value)
            else effect.schedule == s
  {
  }

  lemma {:induction false} ReplayedExtends(p: Option<Policy>, changes: seq<Change>, c: Change)
    ensures Replayed(p, changes + [c]) == ApplyChange(Replayed(p, changes), c)
    ensures Coherent(p, changes + [c]) <==> Coherent(p, changes) && Follows(Replayed(p, changes), c)
    decreases changes
  {
    if changes == [] {
      assert changes + [c] == [c] && [c][1..] == [];
    } else {
      assert (changes + [c])[1..] == changes[1..] + [c];
      ReplayedExtends(ApplyChange(p, changes[0]), changes[1..], c);
    }
  }

  predicate Agrees(s: State)
  {
    WellKept(s.schedule) && Replayed(None, s.changes) == PolicyOf(s.schedule) && Coherent(None, s.changes)
  }

  lemma StepAgrees(s: State, call: Call)
    requires Agrees(s)
    ensures Agrees(Step(s, call, true))
  {
    EffectKeeps(s.schedule, call);
    EffectIsChange(s.schedule, call);
    var effect := EffectOf(s.schedule, call);
    if effect.change.Some? { ReplayedExtends(None, s.changes, effect.change.value); }
  }

  lemma {:induction false} RunAgrees(s: State, calls: seq<Call>)
    requires Agrees(s)
    ensures Agrees(Run(s, calls))
    decreases calls
  {
    if calls != [] {
      StepAgrees(s, calls[0]);
      RunAgrees(Step(s, calls[0], true), calls[1..]);
    }
  }

  /**
   The audit trail is the schedule: after any calls, all recorded, folding the changes gives its
   existence, response, pause flag and interval in whole seconds; every record agrees with the
   ones before it; and the schedule keeps its minimum interval, catch-up window and run timeout.
   */
  lemma TrailIsState(calls: seq<Call>)
    ensures var end := Run(State(None, []), calls);
            && Replayed(None, end.changes) == PolicyOf(end.schedule)
            && Coherent(None, end.changes) && WellKept(end.schedule)
  {
    RunAgrees(State(None, []), calls);
  }

  /** The trail gives the interval exactly when it is a whole number of seconds. */
  lemma IntervalExactly(s: Schedule)
    requires WellKept(Some(s))
    ensures PolicyOf(Some(s)).value.seconds * SECOND == s.interval.value <==> s.interval.value % SECOND == 0
  {
  }

  /** A schedule of 60.5 seconds, which is accepted, folds back as one of 60. */
  lemma HalfSecondsAreLost()
    ensures var end := Run(State(None, []), [Ensure(60500000)]);
            end.schedule == Some(Built(60500000)) && Replayed(None, end.changes) == Some(Policy(60, Report, false))
  {
    TrailIsState([Ensure(60500000)]);
    assert [Ensure(60500000)][1..] == [];
  }

  /** The calls whose record carries something the earlier records do not. */
  predicate Tells(s: Option<Schedule>, call: Call)
  {
    match call
    case Ensure(interval) =>
      interval >= MIN_SCAN_INTERVAL && (s.None? || s.value.interval.None? || Seconds(s.value.interval.value) != Seconds(interval))
    case SetResponse(mode) => s.Some? && s.value.mode != mode
    case Pause(reason) => s.Some? && !Blank(reason) && !s.value.paused
    case Resume(_) => s.Some? && s.value.paused
    case Trigger(_) => false
    case Delete => s.Some?
  }

  /** A call that is not recorded leaves the trail behind exactly when it is one that tells something new. */
  lemma LosesExactly(s: State, call: Call)
    requires Agrees(s)
    ensures var next := Step(s, call, false);
            Replayed(None, next.changes) == PolicyOf(next.schedule) <==> !Tells(s.schedule, call)
  {
  }

  // ---- Whole runs with lost records ----

  /** A call and whether its change reached the log. */
  datatype Attempt = Attempt(call: Call, recorded: bool)

  function RunAttempts(s: State, attempts: seq<Attempt>): State
    decreases attempts
  {
    if attempts == [] then s else RunAttempts(Step(s, attempts[0].call, attempts[0].recorded), attempts[1..])
  }

  function Calls(attempts: seq<Attempt>): seq<Call>
  {
    if attempts == [] then [] else [attempts[0].call] + Calls(attempts[1..])
  }

  /** Whether the last creation or deletion among the changes is a creation. */
  predicate AliveAt(changes: seq<Change>)
  {
    if changes == [] then false
    else
      var last, before := changes[|changes| - 1], changes[..|changes| - 1];
      if last.Created? then true else if last.Deleted? then false else AliveAt(before)
  }

  /** The interval, response and pause flag the last change to each of them gives. */
  function SecondsAt(changes: seq<Change>): int
  {
    if changes == [] then 0
    else
      var last, before := changes[|changes| - 1], changes[..|changes| - 1];
      match last case Created(seconds, _) => seconds case IntervalChanged(_, to) => to case _ => SecondsAt(before)
  }

  function ModeAt(changes: seq<Change>): Mode
  {
    if changes == [] then Report
    else
      var last, before := changes[|changes| - 1], changes[..|changes| - 1];
      match last case Created(_, mode) => mode case ResponseChanged(_, after) => after case _ => ModeAt(before)
  }

  predicate PausedAt(changes: seq<Change>)
  {
    if changes == [] then false
    else
      var last, before := changes[|changes| - 1], changes[..|changes| - 1];
      match last case Created(_, _) => false case Paused(_) => true case Resumed(_) => false case _ => PausedAt(before)
  }

  function LastWrites(changes: seq<Change>): Option<Policy>
  {
    if AliveAt(changes) then Some(Policy(SecondsAt(changes), ModeAt(changes), PausedAt(changes))) else None
  }

  /** Folding any changes, coherent or not, gives what the last change to each part says. */
  lemma {:induction false} FoldIsLastWrites(changes: seq<Change>)
    ensures Replayed(None, changes) == LastWrites(changes)
  {
    if changes != [] {
      var last, before := changes[|changes| - 1], changes[..|changes| - 1];
      FoldIsLastWrites(before);
      ReplayedExtends(None, before, last);
      assert changes == before + [last];
    }
  }

  /** Lost records change the log and nothing else. */
  lemma {:induction false} SameSchedule(s: State, t: State, attempts: seq<Attempt>)
    requires s.schedule == t.schedule
    ensures RunAttempts(s, attempts).schedule == Run(t, Calls(attempts)).schedule
    decreases attempts
  {
    if attempts != [] {
      var a := attempts[0];
      assert Calls(attempts)[0] == a.call && Calls(attempts)[1..] == Calls(attempts[1..]);
      SameSchedule(Step(s, a.call, a.recorded), Step(t, a.call, true), attempts[1..]);
    }
  }

  /**
   After any calls, some of them unrecorded, the trail still gives the schedule's policy exactly when
   its last creation or deletion is of the same kind as the last one made, and, if the schedule exists,
   its last change to the interval, the response and the pause flag each gives the value last set.
   */
  lemma LossIsForgivenExactly(attempts: seq<Attempt>)
    ensures var end := RunAttempts(State(None, []), attempts); var kept, made := end.changes, Run(State(None, []), Calls(attempts)).changes;
            Replayed(None, kept) == PolicyOf(end.schedule) <==>
              && AliveAt(kept) == AliveAt(made)
              && (AliveAt(made) ==> SecondsAt(kept) == SecondsAt(made) && ModeAt(kept) == ModeAt(made) && PausedAt(kept) == PausedAt(made))
  {
    var calls := Calls(attempts);
    SameSchedule(State(None, []), State(None, []), attempts);
    TrailIsState(calls);
    FoldIsLastWrites(RunAttempts(State(None, []), attempts).changes);
    FoldIsLastWrites(Run(State(None, []), calls).changes);
  }

  /** When each call is refused; a refused call changes nothing and records nothing. */
  lemma RefusedExactly(s: Option<Schedule>, call: Call)
    requires WellKept(s)
    ensures var effect := EffectOf(s, call);
            && (effect.reply == BadInterval <==> call.Ensure? && call.interval < MIN_SCAN_INTERVAL)
            && (effect.reply == BlankReason <==> call.Pause? && Blank(call.reason))
            && (effect.reply == NotFound <==> s.None? && !call.Ensure? && !(call.Pause? && Blank(call.reason)))
            && (effect.reply == Busy <==> s.Some? && call.Trigger? && call.running)
            && (effect.reply != Done ==> effect.schedule == s && effect.change.None?)
  {
  }

  /** Setting up again never un-pauses a schedule or changes its response. */
  lemma EnsureIsGentle(s: Schedule, interval: int)
    ensures var after := EffectOf(Some(s), Ensure(interval)).schedule;
            after.Some? && after.value.mode == s.mode && after.value.paused == s.paused && after.value.note == s.note
    ensures s.interval == Some(interval) ==> EffectOf(Some(s), Ensure(interval)).change.None?
  {
  }

  // ---- Whole runs: refusals and repeated setup ----

  /** The calls of a run that are carried out. */
  function CarriedOut(s: Option<Schedule>, calls: seq<Call>): seq<Call>
    decreases calls
  {
    if calls == [] then []
    else
      var effect := EffectOf(s, calls[0]);
      (if effect.reply == Done then [calls[0]] else []) + CarriedOut(effect.schedule, calls[1..])
  }

  /** Refused calls might as well not have been made. */
  lemma {:induction false} RefusalsLeaveNoTrace(s: State, calls: seq<Call>)
    requires WellKept(s.schedule)
    ensures Run(s, calls) == Run(s, CarriedOut(s.schedule, calls))
    decreases calls
  {
    if calls != [] {
      var effect := EffectOf(s.schedule, calls[0]);
      var rest := CarriedOut(effect.schedule, calls[1..]);
      RefusedExactly(s.schedule, calls[0]);
      EffectKeeps(s.schedule, calls[0]);
      RefusalsLeaveNoTrace(Step(s, calls[0], true), calls[1..]);
      assert ([calls[0]] + rest)[0] == calls[0] && ([calls[0]] + rest)[1..] == rest;
      assert [] + rest == rest;
    }
  }

  function WithoutSetup(calls: seq<Call>): seq<Call>
  {
    if calls == [] then [] else (if calls[0].Ensure? then [] else [calls[0]]) + WithoutSetup(calls[1..])
  }

  /** What an operator controls besides timing: the response, the pause flag and its note. */
  predicate SameControl(a: Option<Schedule>, b: Option<Schedule>)
  {
    a.Some? && b.Some? && a.value.mode == b.value.mode && a.value.paused == b.value.paused && a.value.note == b.value.note
  }

  lemma {:induction false} SetupKeepsControl(s: State, t: State, calls: seq<Call>)
    requires SameControl(s.schedule, t.schedule) && Delete !in calls
    ensures SameControl(Run(s, calls).schedule, Run(t, WithoutSetup(calls)).schedule)
    decreases calls
  {
    if calls != [] {
      var call, rest := calls[0], WithoutSetup(calls[1..]);
      assert call in calls && forall c :: c in calls[1..] ==> c in calls;
      if call.Ensure? {
        EnsureIsGentle(s.schedule.value, call.interval);
        assert [] + rest == rest;
        SetupKeepsControl(Step(s, call, true), t, calls[1..]);
      } else {
        assert ([call] + rest)[0] == call && ([call] + rest)[1..] == rest;
        SetupKeepsControl(Step(s, call, true), Step(t, call, true), calls[1..]);
      }
    }
  }

  /** However often setup runs in between, the response, the pause flag and the note of a schedule end up as without it. */
  lemma SetupNeverDisturbs(s: State, calls: seq<Call>)
    requires s.schedule.Some? && Delete !in calls
    ensures SameControl(Run(s, calls).schedule, Run(s, WithoutSetup(calls)).schedule)
  {
    SetupKeepsControl(s, s, calls);
  }

  // ---- What was last asked for ----

  /** The last accepted interval, response and pause or resume among the calls, or what stood before them. */
  function IntervalAsked(before: int, calls: seq<Call>): int
  {
    if calls == [] then before
    else
      var last, earlier := calls[|calls| - 1], calls[..|calls| - 1];
      if last.Ensure? && last.interval >= MIN_SCAN_INTERVAL then last.interval else IntervalAsked(before, earlier)
  }

  function ModeAsked(calls: seq<Call>): Mode
  {
    if calls == [] then Report
    else
      var last, earlier := calls[|calls| - 1], calls[..|calls| - 1];
      if last.SetResponse? then last.mode else ModeAsked(earlier)
  }

  datatype Suppression = Suppression(paused: bool, note: Option<string>)

  function SuppressionAsked(calls: seq<Call>): Suppression
  {
    if calls == [] then Suppression(false, None)
    else
      var last, earlier := calls[|calls| - 1], calls[..|calls| - 1];
      match last
      case Pause(reason) => if Blank(reason) then SuppressionAsked(earlier) else Suppression(true, Some(reason))
      case Resume(note) => Suppression(false, note)
      case _ => SuppressionAsked(earlier)
  }

  lemma {:induction false} RunExtends(s: State, calls: seq<Call>, c: Call)
    ensures Run(s, calls + [c]) == Step(Run(s, calls), c, true)
    decreases calls
  {
    if calls == [] {
      assert calls + [c] == [c] && [c][1..] == [];
    } else {
      assert (calls + [c])[1..] == calls[1..] + [c];
      RunExtends(Step(s, calls[0], true), calls[1..], c);
    }
  }

  /** The schedule set up by `first` and then controlled by `calls`. */
  function After(first: int, calls: seq<Call>): Option<Schedule> { Run(State(None, []), [Ensure(first)] + calls).schedule }

  /** What the calls after a setup ask for in all. */
  function Asked(first: int, calls: seq<Call>): Schedule
  {
    var interval, held := IntervalAsked(first, calls), SuppressionAsked(calls);
    Schedule(Some(interval), interval, ModeAsked(calls), Some(RUN_TIMEOUT), held.paused, held.note)
  }

  /** One more call changes what is asked for as it changes the schedule. */
  lemma AskedExtends(first: int, calls: seq<Call>, last: Call)
    requires !last.Delete?
    ensures EffectOf(Some(Asked(first, calls)), last).schedule == Some(Asked(first, calls + [last]))
  {
    assert (calls + [last])[..|calls|] == calls;
  }

  lemma SetUp(first: int)
    requires first >= MIN_SCAN_INTERVAL
    ensures After(first, []) == Some(Asked(first, []))
  {
    var calls := [Ensure(first)];
    assert calls + [] == calls && calls[0] == Ensure(first) && calls[1..] == [];
    assert Run(State(None, []), calls) == Step(State(None, []), Ensure(first), true);
  }

  lemma AfterExtends(first: int, calls: seq<Call>, last: Call)
    ensures After(first, calls + [last]) == EffectOf(After(first, calls), last).schedule
  {
    assert [Ensure(first)] + (calls + [last]) == ([Ensure(first)] + calls) + [last];
    RunExtends(State(None, []), [Ensure(first)] + calls, last);
  }

  /** From its setup on, a schedule is what was last asked for, part by part, whatever was refused in between. */
  lemma {:induction false} LastAskedIsSo(first: int, calls: seq<Call>)
    requires first >= MIN_SCAN_INTERVAL && Delete !in calls
    ensures After(first, calls) == Some(Asked(first, calls))
  {
    if calls == [] {
      SetUp(first);
    } else {
      var last, earlier := calls[|calls| - 1], calls[..|calls| - 1];
      assert calls == earlier + [last];
      LastAskedIsSo(first, earlier);
      AfterExtends(first, earlier, last);
      AskedExtends(first, earlier, last);
    }
  }

  /** What the last pause, resume or creation among the changes says about the note. */
  function NoteAt(changes: seq<Change>): Option<string>
  {
    if changes == [] then None
    else
      var last, before := changes[|changes| - 1], changes[..|changes| - 1];
      match last case Created(_, _) => None case Paused(reason) => Some(reason) case Resumed(note) => note case _ => NoteAt(before)
  }

  lemma NoteExtends(changes: seq<Change>, c: Change)
    ensures NoteAt(changes + [c]) ==
            match c case Created(_, _) => None case Paused(reason) => Some(reason) case Resumed(note) => note case _ => NoteAt(changes)
  {
    assert (changes + [c])[..|changes|] == changes;
  }

  predicate NoteAgrees(s: State) { s.schedule.Some? ==> s.schedule.value.note == NoteAt(s.changes) }

  lemma {:induction false} NotesKeepUp(s: State, calls: seq<Call>)
    requires NoteAgrees(s)
    ensures NoteAgrees(Run(s, calls))
    decreases calls
  {
    if calls != [] {
      var effect := EffectOf(s.schedule, calls[0]);
      if effect.change.Some? { NoteExtends(s.changes, effect.change.value); }
      NotesKeepUp(Step(s, calls[0], true), calls[1..]);
    }
  }

  /** A schedule's note is the last pause's reason or the last resume's note in its trail. */
  lemma TrailHoldsTheNote(calls: seq<Call>)
    ensures NoteAgrees(Run(State(None, []), calls))
  {
    NotesKeepUp(State(None, []), calls);
  }

  /** Which carried-out calls leave a record: all but a setup or a response that asks for what is there. */
  lemma RecordedExactly(s: Option<Schedule>, call: Call)
    requires WellKept(s)
    ensures var effect := EffectOf(s, call);
            effect.change.Some? <==>
              && effect.reply == Done
              && (call.Ensure? && s.Some? ==> s.value.interval.value != call.interval)
              && (call.SetResponse? ==> s.Some? && s.value.mode != call.mode)
    ensures var change := EffectOf(s, call).change;
            change.Some? ==>
              && (call.Ensure? <==> change.value.Created? || change.value.IntervalChanged?)
              && (call.SetResponse? <==> change.value.ResponseChanged?) && (call.Pause? <==> change.value.Paused?)
              && (call.Resume? <==> change.value.Resumed?) && (call.Trigger? <==> change.value.Triggered?) && (call.Delete? <==> change.value.Deleted?)
  {
  }
}