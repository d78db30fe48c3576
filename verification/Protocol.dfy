/**
 Interleavings of operator deploys, reconciles and scheduled runs on one Temporal server.

 The server promises that a workflow id has at most one open run. Everything else follows from
 how the ids are chosen and from the conflict policies: an operator deploy attaches to an open
 run, a reconcile child that collides is skipped, a schedule firing is dropped while a run is
 open, and a run closed at its timeout leaves its repair running.
 */
module Protocol {
  import opened Prelude
  import opened Dicts
  import opened Lists
  import opened Uuids
  import E = AuditEvents
  import R = ReconcileDevices

  datatype DeployEnd = DeploySucceeded | DeployFailed | DeviceUnknown | DeployTerminated

  /** Where a reconcile stands with one target. `child` is the run it started for it; a collision skips it without one. */
  datatype Slot = Pending | Waiting(child: nat) | Collided | Unknown(child: nat) | Reported(child: nat, success: bool)

  predicate Skipped(slot: Slot) { slot.Collided? || slot.Unknown? }

  /** The run a slot stands on. */
  predicate HasChild(slot: Slot) { slot.Waiting? || slot.Unknown? || slot.Reported? }

  datatype Totals = Totals(total: nat, succeeded: nat, failed: nat, skipped: nat)

  datatype ReconcileStatus = Reconciling | Reconciled(totals: Totals) | ReconcileCancelled

  datatype ResponseStatus = Responding | Responded | TimedOut

  datatype Run =
    | DeployRun(wid: string, device: Uuid, owner: Option<nat>, end: Option<DeployEnd>)
    | ReconcileRun(wid: string, targets: seq<Uuid>, slots: seq<Slot>, parent: Option<nat>, status: ReconcileStatus)
    | ResponseRun(wid: string, schedule: string, repair: Option<nat>, state: ResponseStatus)

  type Server = seq<Run>

  predicate Open(r: Run)
  {
    match r
    case DeployRun(_, _, _, end) => end.None?
    case ReconcileRun(_, _, _, _, status) => status.Reconciling?
    case ResponseRun(_, _, _, state) => state.Responding?
  }

  /** Whether the server would refuse to start a run with this id. */
  predicate Taken(s: Server, wid: string) { exists i :: 0 <= i < |s| && Open(s[i]) && s[i].wid == wid }

  predicate ScheduleBusy(s: Server, schedule: string)
  {
    exists i :: 0 <= i < |s| && s[i].ResponseRun? && Open(s[i]) && s[i].schedule == schedule
  }

  // ---- Steps ----

  datatype Event =
    | OperatorDeploy(device: Uuid)
    | OperatorReconcile(suffix: string, deviceIds: seq<Uuid>)
    | Dispatch(run: nat, slot: nat)
    | EndDeploy(run: nat, end: DeployEnd)
    | Observe(run: nat, slot: nat)
    | FinishReconcile(run: nat)
    | CancelReconcile(run: nat)
    | Fire(useCase: string, suffix: string)
    | Repair(run: nat, deviceIds: seq<Uuid>)
    | EndResponse(run: nat)
    | TimeOut(run: nat)

  function Pendings(n: nat): (r: seq<Slot>)
    ensures |r| == n && forall i :: 0 <= i < n ==> r[i] == Pending
  {
    seq(n, _ => Pending)
  }

  function NewReconcile(wid: string, deviceIds: seq<Uuid>, parent: Option<nat>): Run
  {
    var targets := Distinct(deviceIds);
    ReconcileRun(wid, targets, Pendings(|targets|), parent, Reconciling)
  }

  function ScheduleId(useCase: string): string { "drift-response-" + useCase }

  predicate Settled(slot: Slot) { Skipped(slot) || slot.Reported? }

  function SlotTest(success: bool): Slot -> bool { (x: Slot) => x.Reported? && x.success == success }

  function SkipTest(): Slot -> bool { (x: Slot) => Skipped(x) }

  function TotalsOf(slots: seq<Slot>): Totals
  {
    Totals(|slots|, |Filter(SlotTest(true), slots)|, |Filter(SlotTest(false), slots)|, |Filter(SkipTest(), slots)|)
  }

  predicate IsReconciling(s: Server, run: nat) { run < |s| && s[run].ReconcileRun? && Open(s[run]) && |s[run].slots| == |s[run].targets| }

  predicate IsResponding(s: Server, run: nat) { run < |s| && s[run].ResponseRun? && Open(s[run]) }

  /** A reconcile asks for one target's deploy: a collision skips it, otherwise it gets its own child. */
  function Dispatched(s: Server, run: nat, slot: nat): Server
    requires IsReconciling(s, run) && slot < |s[run].slots|
  {
    var device := s[run].targets[slot];
    if Taken(s, R.DeployId(device)) then s[run := s[run].(slots := s[run].slots[slot := Collided])]
    else s[run := s[run].(slots := s[run].slots[slot := Waiting(|s|)])] + [DeployRun(R.DeployId(device), device, Some(run), None)]
  }

  /** What a reconcile makes of a closed child. */
  function Seen(child: nat, end: DeployEnd): Slot
  {
    if end == DeviceUnknown then Unknown(child) else Reported(child, end == DeploySucceeded)
  }

  function Terminated(s: Server, run: nat): (t: Server)
    ensures |t| == |s|
    ensures forall i :: 0 <= i < |s| ==>
      t[i] == if s[i].DeployRun? && s[i].owner == Some(run) && Open(s[i]) then s[i].(end := Some(DeployTerminated)) else s[i]
  {
    seq(|s|, i requires 0 <= i < |s| =>
      if s[i].DeployRun? && s[i].owner == Some(run) && Open(s[i]) then s[i].(end := Some(DeployTerminated)) else s[i])
  }

  /** One step; an event that is not enabled changes nothing. */
  function Next(s: Server, e: Event): Server
  {
    match e
    case OperatorDeploy(device) =>
      if Taken(s, R.DeployId(device)) then s else s + [DeployRun(R.DeployId(device), device, None, None)]
    case OperatorReconcile(suffix, deviceIds) =>
      var wid := "reconcile-" + suffix;
      if Taken(s, wid) then s else s + [NewReconcile(wid, deviceIds, None)]
    case Dispatch(run, slot) =>
      if IsReconciling(s, run) && slot < |s[run].slots| && s[run].slots[slot].Pending? then Dispatched(s, run, slot) else s
    case EndDeploy(run, end) =>
      if run < |s| && s[run].DeployRun? && Open(s[run]) then s[run := s[run].(end := Some(end))] else s
    case Observe(run, slot) =>
      if IsReconciling(s, run) && slot < |s[run].slots| && s[run].slots[slot].Waiting? then
        var child := s[run].slots[slot].child;
        if child < |s| && s[child].DeployRun? && !Open(s[child])
        then s[run := s[run].(slots := s[run].slots[slot := Seen(child, s[child].end.value)])] else s
      else s
    case FinishReconcile(run) =>
      if IsReconciling(s, run) && (forall k :: 0 <= k < |s[run].slots| ==> Settled(s[run].slots[k]))
      then s[run := s[run].(status := Reconciled(TotalsOf(s[run].slots)))] else s
    case CancelReconcile(run) =>
      if IsReconciling(s, run) then Terminated(s, run)[run := s[run].(status := ReconcileCancelled)] else s
    case Fire(useCase, suffix) =>
      var schedule := ScheduleId(useCase);
      var wid := schedule + suffix;
      if ScheduleBusy(s, schedule) || Taken(s, wid) then s else s + [ResponseRun(wid, schedule, None, Responding)]
    case Repair(run, deviceIds) =>
      if IsResponding(s, run) && s[run].repair.None? && !Taken(s, s[run].wid + "-reconcile")
      then s[run := s[run].(repair := Some(|s|))] + [NewReconcile(s[run].wid + "-reconcile", deviceIds, Some(run))] else s
    case EndResponse(run) =>
      if IsResponding(s, run) && (s[run].repair.Some? ==> s[run].repair.value < |s| && !Open(s[s[run].repair.value]))
      then s[run := s[run].(state := Responded)] else s
    case TimeOut(run) =>
      if IsResponding(s, run) then s[run := s[run].(state := TimedOut)] else s
  }

  // ---- The invariant ----

  predicate Prefixed(prefix: string, text: string) { prefix <= text }

  /** The id families of the entry points. */
  predicate WellNamed(r: Run)
  {
    match r
    case DeployRun(wid, device, _, _) => wid == R.DeployId(device)
    case ReconcileRun(wid, _, _, _, _) => Prefixed("reconcile-", wid) || Prefixed("drift-response-", wid)
    case ResponseRun(wid, _, _, _) => Prefixed("drift-response-", wid)
  }

  /** A slot's child is the reconcile's own, for the slot's device, and its result is what is reported. */
  predicate GoodSlot(s: Server, run: nat, device: Uuid, slot: Slot)
  {
    HasChild(slot) ==>
      && slot.child < |s| && s[slot.child].DeployRun?
      && s[slot.child].owner == Some(run) && s[slot.child].device == device
      && (slot.Reported? ==> s[slot.child].end.Some? && s[slot.child].end != Some(DeviceUnknown)
                             && slot.success == (s[slot.child].end.value == DeploySucceeded))
      && (slot.Unknown? ==> s[slot.child].end == Some(DeviceUnknown))
  }

  predicate GoodRun(s: Server, i: nat)
    requires i < |s|
  {
    && WellNamed(s[i])
    && (s[i].ReconcileRun? ==>
          && |s[i].slots| == |s[i].targets| && NoRepeat(s[i].targets)
          && (forall k :: 0 <= k < |s[i].slots| ==> GoodSlot(s, i, s[i].targets[k], s[i].slots[k]))
          && (s[i].status.Reconciled? ==> s[i].status.totals == TotalsOf(s[i].slots)
                                          && forall k :: 0 <= k < |s[i].slots| ==> Settled(s[i].slots[k])))
    && (s[i].ResponseRun? && s[i].repair.Some? ==>
          && s[i].repair.value < |s| && s[s[i].repair.value].ReconcileRun? && s[s[i].repair.value].parent == Some(i)
          && (s[i].state.Responded? ==> !Open(s[s[i].repair.value])))
  }

  predicate OpenIdsDiffer(s: Server)
  {
    forall i, j :: 0 <= i < j < |s| && Open(s[i]) && Open(s[j]) ==> s[i].wid != s[j].wid
  }

  predicate SchedulesDiffer(s: Server)
  {
    forall i, j :: 0 <= i < j < |s| && s[i].ResponseRun? && s[j].ResponseRun? && Open(s[i]) && Open(s[j]) ==> s[i].schedule != s[j].schedule
  }

  predicate AllGood(s: Server) { forall i :: 0 <= i < |s| ==> GoodRun(s, i) }

  predicate Inv(s: Server) { AllGood(s) && OpenIdsDiffer(s) && SchedulesDiffer(s) }

  // ---- Runs only grow ----

  /** What never changes about a run; a closed run stays closed, a deploy with the same end. */
  predicate Grows(a: Run, b: Run)
  {
    && a.wid == b.wid && (Open(b) ==> Open(a))
    && match a
       case DeployRun(_, device, owner, end) => b.DeployRun? && b.device == device && b.owner == owner && (end.Some? ==> b.end == end)
       case ReconcileRun(_, targets, _, parent, _) => b.ReconcileRun? && b.targets == targets && b.parent == parent
       case ResponseRun(_, schedule, _, _) => b.ResponseRun? && b.schedule == schedule
  }

  predicate Extends(s: Server, t: Server)
  {
    |s| <= |t| && forall i :: 0 <= i < |s| ==> Grows(s[i], t[i])
  }

  lemma SlotStays(s: Server, t: Server, run: nat, device: Uuid, slot: Slot)
    requires Extends(s, t) && GoodSlot(s, run, device, slot)
    ensures GoodSlot(t, run, device, slot)
  {
    if HasChild(slot) { assert Grows(s[slot.child], t[slot.child]); }
  }

  /** A run that did not change stays good. */
  lemma GoodStays(s: Server, t: Server, i: nat)
    requires i < |s| && Extends(s, t) && t[i] == s[i] && GoodRun(s, i)
    ensures GoodRun(t, i)
  {
    if s[i].ReconcileRun? {
      forall k | 0 <= k < |s[i].slots| ensures GoodSlot(t, i, s[i].targets[k], s[i].slots[k]) {
        SlotStays(s, t, i, s[i].targets[k], s[i].slots[k]);
      }
    }
    if s[i].ResponseRun? && s[i].repair.Some? { assert Grows(s[s[i].repair.value], t[s[i].repair.value]); }
  }

  /** Closing runs and starting one whose id is free keeps open ids apart. */
  lemma IdsStayApart(s: Server, t: Server)
    requires OpenIdsDiffer(s) && Extends(s, t) && |t| <= |s| + 1
    requires |t| > |s| ==> !Taken(s, t[|s|].wid)
    ensures OpenIdsDiffer(t)
  {
    forall i, j | 0 <= i < j < |t| && Open(t[i]) && Open(t[j]) ensures t[i].wid != t[j].wid {
      assert Grows(s[i], t[i]);
      if j < |s| { assert Grows(s[j], t[j]); }
    }
  }

  lemma SchedulesStayApart(s: Server, t: Server)
    requires SchedulesDiffer(s) && Extends(s, t) && |t| <= |s| + 1
    requires |t| > |s| && t[|s|].ResponseRun? ==> !ScheduleBusy(s, t[|s|].schedule)
    ensures SchedulesDiffer(t)
  {
    forall i, j | 0 <= i < j < |t| && t[i].ResponseRun? && t[j].ResponseRun? && Open(t[i]) && Open(t[j]) ensures t[i].schedule != t[j].schedule {
      assert Grows(s[i], t[i]);
      if j < |s| { assert Grows(s[j], t[j]); }
    }
  }

  /** What a step must show: it only grows runs, the id of a new run was free, and what changed is good. */
  lemma StepKeeps(s: Server, t: Server)
    requires Inv(s) && Extends(s, t) && |t| <= |s| + 1
    requires |t| > |s| ==> !Taken(s, t[|s|].wid)
    requires |t| > |s| && t[|s|].ResponseRun? ==> !ScheduleBusy(s, t[|s|].schedule)
    requires forall i :: 0 <= i < |t| && (i == |s| || t[i] != s[i]) ==> GoodRun(t, i)
    ensures Inv(t)
  {
    IdsStayApart(s, t);
    SchedulesStayApart(s, t);
    forall i | 0 <= i < |t| ensures GoodRun(t, i) {
      if i < |s| && t[i] == s[i] { GoodStays(s, t, i); }
    }
  }

  // ---- Steps keep the invariant ----

  lemma NewReconcileIsGood(t: Server, i: nat, wid: string, deviceIds: seq<Uuid>, parent: Option<nat>)
    requires i < |t| && t[i] == NewReconcile(wid, deviceIds, parent)
    requires Prefixed("reconcile-", wid) || Prefixed("drift-response-", wid)
    ensures GoodRun(t, i)
  {
    DistinctIs(deviceIds);
  }

  lemma StartKeeps(s: Server, e: Event)
    requires Inv(s) && (e.OperatorDeploy? || e.OperatorReconcile? || e.Fire?)
    ensures Inv(Next(s, e))
  {
    var t := Next(s, e);
    if |t| > |s| {
      if e.OperatorReconcile? { NewReconcileIsGood(t, |s|, "reconcile-" + e.suffix, e.deviceIds, None); }
      if e.Fire? { assert Prefixed("drift-response-", t[|s|].wid); }
      StepKeeps(s, t);
    }
  }

  lemma SlotUpdateIsGood(s: Server, t: Server, run: nat, slot: nat, x: Slot)
    requires IsReconciling(s, run) && GoodRun(s, run) && slot < |s[run].slots| && Extends(s, t)
    requires t[run] == s[run].(slots := s[run].slots[slot := x]) && GoodSlot(t, run, s[run].targets[slot], x)
    ensures GoodRun(t, run)
  {
    forall k | 0 <= k < |t[run].slots| ensures GoodSlot(t, run, t[run].targets[k], t[run].slots[k]) {
      if k != slot { SlotStays(s, t, run, s[run].targets[k], s[run].slots[k]); }
    }
  }

  lemma DispatchKeeps(s: Server, run: nat, slot: nat)
    requires Inv(s) && IsReconciling(s, run) && slot < |s[run].slots| && s[run].slots[slot].Pending?
    ensures Inv(Dispatched(s, run, slot))
  {
    var t := Dispatched(s, run, slot);
    assert Extends(s, t);
    SlotUpdateIsGood(s, t, run, slot, t[run].slots[slot]);
    StepKeeps(s, t);
  }

  lemma ObserveKeeps(s: Server, run: nat, slot: nat)
    requires Inv(s)
    ensures Inv(Next(s, Observe(run, slot)))
  {
    var t := Next(s, Observe(run, slot));
    if t != s {
      assert Extends(s, t);
      SlotUpdateIsGood(s, t, run, slot, t[run].slots[slot]);
      StepKeeps(s, t);
    }
  }

  /** Closing one run. */
  lemma CloseKeeps(s: Server, e: Event)
    requires Inv(s) && (e.EndDeploy? || e.FinishReconcile? || e.EndResponse? || e.TimeOut?)
    ensures Inv(Next(s, e))
  {
    var t := Next(s, e);
    if t != s {
      assert Extends(s, t);
      CloseIsGood(s, t, e.run);
      StepKeeps(s, t);
    }
  }

  /** A run that only changed its own end, status or state keeps what its other fields say. */
  lemma CloseIsGood(s: Server, t: Server, run: nat)
    requires run < |s| && |t| == |s| && GoodRun(s, run) && Extends(s, t)
    requires t[run].ReconcileRun? ==>
      s[run].ReconcileRun? && t[run] == s[run].(status := t[run].status)
      && (t[run].status.Reconciled? ==> t[run].status.totals == TotalsOf(s[run].slots)
                                        && forall k :: 0 <= k < |s[run].slots| ==> Settled(s[run].slots[k]))
    requires t[run].ResponseRun? ==>
      s[run].ResponseRun? && t[run].repair == s[run].repair
      && (t[run].state.Responded? && t[run].repair.Some? ==> t[run].repair.value < |t| && !Open(t[t[run].repair.value]))
    ensures GoodRun(t, run)
  {
    if t[run].ReconcileRun? {
      forall k | 0 <= k < |t[run].slots| ensures GoodSlot(t, run, t[run].targets[k], t[run].slots[k]) {
        SlotStays(s, t, run, s[run].targets[k], s[run].slots[k]);
      }
    }
    if t[run].ResponseRun? && t[run].repair.Some? { assert Grows(s[s[run].repair.value], t[s[run].repair.value]); }
  }

  lemma CancelKeeps(s: Server, run: nat)
    requires Inv(s)
    ensures Inv(Next(s, CancelReconcile(run)))
  {
    var t := Next(s, CancelReconcile(run));
    if IsReconciling(s, run) {
      assert Extends(s, t);
      CloseIsGood(s, t, run);
      forall i | 0 <= i < |t| && t[i] != s[i] ensures GoodRun(t, i) {
        if i != run { assert GoodRun(s, i) && t[i].DeployRun?; }
      }
      StepKeeps(s, t);
    }
  }

  lemma RepairKeeps(s: Server, run: nat, deviceIds: seq<Uuid>)
    requires Inv(s)
    ensures Inv(Next(s, Repair(run, deviceIds)))
  {
    var t := Next(s, Repair(run, deviceIds));
    if t != s {
      assert Extends(s, t);
      var wid := s[run].wid + "-reconcile";
      assert GoodRun(s, run) && Prefixed("drift-response-", s[run].wid);
      assert Prefixed("drift-response-", wid);
      NewReconcileIsGood(t, |s|, wid, deviceIds, Some(run));
      StepKeeps(s, t);
    }
  }

  /** Every step keeps the invariant. */
  lemma NextKeeps(s: Server, e: Event)
    requires Inv(s)
    ensures Inv(Next(s, e))
  {
    match e
    case OperatorDeploy(_) => StartKeeps(s, e);
    case OperatorReconcile(_, _) => StartKeeps(s, e);
    case Fire(_, _) => StartKeeps(s, e);
    case Dispatch(run, slot) =>
      if IsReconciling(s, run) && slot < |s[run].slots| && s[run].slots[slot].Pending? { DispatchKeeps(s, run, slot); }
    case Observe(run, slot) => ObserveKeeps(s, run, slot);
    case CancelReconcile(run) => CancelKeeps(s, run);
    case Repair(run, deviceIds) => RepairKeeps(s, run, deviceIds);
    case EndDeploy(_, _) => CloseKeeps(s, e);
    case FinishReconcile(_) => CloseKeeps(s, e);
    case EndResponse(_) => CloseKeeps(s, e);
    case TimeOut(_) => CloseKeeps(s, e);
  }

  // ---- Reachable states ----

  function After(s: Server, events: seq<Event>): Server
    decreases events
  {
    if events == [] then s else After(Next(s, events[0]), events[1..])
  }

  lemma {:induction false} ReachableInv(s: Server, events: seq<Event>)
    requires Inv(s)
    ensures Inv(After(s, events))
    decreases events
  {
    if events != [] {
      NextKeeps(s, events[0]);
      ReachableInv(Next(s, events[0]), events[1..]);
    }
  }

  lemma {:induction false} SettledTotals(slots: seq<Slot>)
    requires forall k :: 0 <= k < |slots| ==> Settled(slots[k])
    ensures var x := TotalsOf(slots); x.succeeded + x.failed + x.skipped == x.total
  {
    if slots != [] { SettledTotals(slots[1..]); }
  }

  /** What holds in every reachable state. */
  predicate Safe(s: Server)
  {
    && (forall i, j :: 0 <= i < j < |s| && s[i].DeployRun? && s[j].DeployRun? && Open(s[i]) && Open(s[j]) ==> s[i].device != s[j].device)
    && (forall i, j :: 0 <= i < j < |s| && s[i].ResponseRun? && s[j].ResponseRun? && Open(s[i]) && Open(s[j]) ==> s[i].schedule != s[j].schedule)
    && (forall i :: 0 <= i < |s| && s[i].ReconcileRun? && s[i].status.Reconciled? ==>
          var x := s[i].status.totals;
          x.succeeded + x.failed + x.skipped == x.total && x.total == |s[i].targets| && NoRepeat(s[i].targets))
    && (forall i, k :: 0 <= i < |s| && s[i].ReconcileRun? && 0 <= k < |s[i].slots| && HasChild(s[i].slots[k]) ==>
          k < |s[i].targets| && GoodSlot(s, i, s[i].targets[k], s[i].slots[k]))
    && (forall i :: 0 <= i < |s| && s[i].ResponseRun? && s[i].state.Responded? && s[i].repair.Some? ==>
          s[i].repair.value < |s| && !Open(s[s[i].repair.value]))
  }

  lemma InvIsSafe(s: Server)
    requires Inv(s)
    ensures Safe(s)
  {
    forall i | 0 <= i < |s| && s[i].ReconcileRun? && s[i].status.Reconciled?
      ensures s[i].status.totals.succeeded + s[i].status.totals.failed + s[i].status.totals.skipped == s[i].status.totals.total
      ensures s[i].status.totals.total == |s[i].targets| && NoRepeat(s[i].targets)
    {
      assert GoodRun(s, i);
      SettledTotals(s[i].slots);
    }
    forall i, j | 0 <= i < j < |s| && s[i].DeployRun? && s[j].DeployRun? && Open(s[i]) && Open(s[j]) ensures s[i].device != s[j].device {
      assert GoodRun(s, i) && GoodRun(s, j);
    }
    forall i | 0 <= i < |s| && s[i].ResponseRun? && s[i].state.Responded? && s[i].repair.Some?
      ensures s[i].repair.value < |s| && !Open(s[s[i].repair.value])
    {
      assert GoodRun(s, i);
    }
    forall i, k | 0 <= i < |s| && s[i].ReconcileRun? && 0 <= k < |s[i].slots| && HasChild(s[i].slots[k])
      ensures k < |s[i].targets| && GoodSlot(s, i, s[i].targets[k], s[i].slots[k])
    {
      assert GoodRun(s, i);
    }
  }

  /**
   Over every interleaving: at most one deploy is open per device and at most one run per schedule;
   a finished reconcile counts each distinct target once; what it reports for a device is the
   result of its own child for that device; and a run that ended by itself has outlived its repair.
   */
  lemma EveryInterleavingIsSafe(events: seq<Event>)
    ensures Safe(After([], events))
  {
    ReachableInv([], events);
    InvIsSafe(After([], events));
  }

  /** What the reconcile workflow sees of a deploy run that the server closed. */
  predicate Sees(child: R.Child, end: DeployEnd)
  {
    match end
    case DeploySucceeded => child.Finished? && child.result.success && child.result.reason != E.DeviceNotFound
    case DeployFailed => child.Finished? && !child.result.success && child.result.reason != E.DeviceNotFound
    case DeviceUnknown => child.Finished? && child.result.reason == E.DeviceNotFound
    case DeployTerminated => child.ChildFailed?
  }

  /** The workflow saw each child come to what the server says, and a refusal where none was started. */
  predicate SawChildren(r: R.Reconcile, s: Server, run: nat)
    requires run < |s| && s[run].ReconcileRun? && |s[run].slots| == |s[run].targets|
  {
    r.deviceIds == s[run].targets && forall k :: 0 <= k < |s[run].slots| ==>
      if HasChild(s[run].slots[k]) then
        var i := s[run].slots[k].child;
        i < |s| && s[i].DeployRun? && s[i].end.Some? && Sees(r.child(s[run].targets[k]), s[i].end.value)
      else r.child(s[run].targets[k]) == R.AlreadyStarted
  }

  lemma SlotIsChild(s: Server, run: nat, r: R.Reconcile, k: nat)
    requires Inv(s) && run < |s| && s[run].ReconcileRun? && s[run].status.Reconciled?
    requires |s[run].slots| == |s[run].targets| && SawChildren(r, s, run) && k < |s[run].slots|
    ensures var slot, device := s[run].slots[k], s[run].targets[k];
            && (SlotTest(true)(slot) <==> R.Deployed(r)(device)) && (SlotTest(false)(slot) <==> R.Undeployed(r)(device))
            && (SkipTest()(slot) <==> R.PassedOver(r)(device)) && !r.child(device).ChildCancelled?
  {
    assert GoodRun(s, run);
    assert GoodSlot(s, run, s[run].targets[k], s[run].slots[k]) && Settled(s[run].slots[k]);
  }

  /** A finished run's totals are those the ReconcileDevices workflow returns on the deploys the server ran for it. */
  lemma TotalsAreTheWorkflows(s: Server, run: nat, r: R.Reconcile)
    requires Inv(s) && run < |s| && s[run].ReconcileRun? && s[run].status.Reconciled?
    requires |s[run].slots| == |s[run].targets| && SawChildren(r, s, run)
    ensures var x, y := s[run].status.totals, R.ResultOf(r);
            x.total == y.total && x.succeeded == y.succeeded && x.failed == y.failed && x.skipped == y.skipped
  {
    var targets, slots := s[run].targets, s[run].slots;
    assert GoodRun(s, run);
    DistinctKeeps(targets);
    forall k | 0 <= k < |slots|
      ensures (SlotTest(true)(slots[k]) <==> R.Deployed(r)(targets[k])) && (SlotTest(false)(slots[k]) <==> R.Undeployed(r)(targets[k]))
      ensures (SkipTest()(slots[k]) <==> R.PassedOver(r)(targets[k])) && !r.child(targets[k]).ChildCancelled?
    {
      SlotIsChild(s, run, r, k);
    }
    R.ChildrenDecide(r);
    FilterAligned(SlotTest(true), R.Deployed(r), slots, targets);
    FilterAligned(SlotTest(false), R.Undeployed(r), slots, targets);
    FilterAligned(SkipTest(), R.PassedOver(r), slots, targets);
  }

  // ---- Collisions and timeouts ----

  lemma FamiliesApart(device: Uuid, wid: string)
    ensures Prefixed("reconcile-", wid) || Prefixed("drift-response-", wid) ==> wid != R.DeployId(device)
  {
    var id := R.DeployId(device);
    assert id[0] == 'd' && id[1] == 'e';
    assert Prefixed("reconcile-", wid) ==> wid[0] == 'r';
    assert Prefixed("drift-response-", wid) ==> wid[1] == 'r';
  }

  /** A deploy's id is taken exactly when a deploy of that very device is open. */
  lemma TakenMeansInFlight(s: Server, device: Uuid)
    requires Inv(s)
    ensures Taken(s, R.DeployId(device)) <==> exists i :: 0 <= i < |s| && s[i].DeployRun? && Open(s[i]) && s[i].device == device
  {
    forall i | 0 <= i < |s| && Open(s[i])
      ensures s[i].wid == R.DeployId(device) <==> s[i].DeployRun? && s[i].device == device
    {
      assert GoodRun(s, i);
      FamiliesApart(device, s[i].wid);
      if s[i].DeployRun? && s[i].wid == R.DeployId(device) { R.DeployIdInjective(s[i].device, device); }
    }
  }

  /** A colliding reconcile child skips its own device and touches nothing else; otherwise a fresh run is started. */
  lemma CollisionSkipsOnlyItself(s: Server, run: nat, slot: nat)
    requires Inv(s) && IsReconciling(s, run) && slot < |s[run].slots| && s[run].slots[slot].Pending?
    ensures var t := Next(s, Dispatch(run, slot));
            var inFlight := exists i :: 0 <= i < |s| && s[i].DeployRun? && Open(s[i]) && s[i].device == s[run].targets[slot];
            && (forall i :: 0 <= i < |s| && i != run ==> t[i] == s[i])
            && t[run] == s[run].(slots := s[run].slots[slot := if inFlight then Collided else Waiting(|s|)])
            && |t| == (if inFlight then |s| else |s| + 1)
  {
    TakenMeansInFlight(s, s[run].targets[slot]);
  }

  /** An operator deploy of a device in flight starts nothing: there is exactly one run to attach to. */
  lemma OperatorAttaches(s: Server, device: Uuid)
    requires Inv(s)
    ensures var t := Next(s, OperatorDeploy(device));
            exists i :: 0 <= i < |t| && t[i].DeployRun? && Open(t[i]) && t[i].device == device
                        && (forall j :: 0 <= j < |t| && t[j].DeployRun? && Open(t[j]) && t[j].device == device ==> j == i)
                        && (i < |s| ==> t == s)
  {
    var t := Next(s, OperatorDeploy(device));
    TakenMeansInFlight(s, device);
    NextKeeps(s, OperatorDeploy(device));
    InvIsSafe(t);
    if Taken(s, R.DeployId(device)) {
      var i :| 0 <= i < |s| && s[i].DeployRun? && Open(s[i]) && s[i].device == device;
      assert t[i].DeployRun? && Open(t[i]);
    } else {
      assert t[|s|].DeployRun? && Open(t[|s|]);
    }
  }

  /** The steps of deploys and reconciles and the ends of other runs. Firings and their repairs take ids of the run's own family. */
  predicate Elsewhere(e: Event, run: nat)
  {
    match e
    case Fire(_, _) => false
    case Repair(_, _) => false
    case EndResponse(other) => other != run
    case TimeOut(other) => other != run
    case _ => true
  }

  /** A scheduled run's id never stands in the way of a deploy or an operator's reconcile. */
  lemma IdsIgnoreResponse(s: Server, run: nat, wid: string)
    requires Inv(s) && IsResponding(s, run) && !Prefixed("drift-response-", wid)
    ensures Taken(Next(s, TimeOut(run)), wid) <==> Taken(s, wid)
  {
    var t := Next(s, TimeOut(run));
    assert GoodRun(s, run);
    if i :| 0 <= i < |s| && Open(s[i]) && s[i].wid == wid { assert Open(t[i]) && t[i].wid == wid; }
    if i :| 0 <= i < |t| && Open(t[i]) && t[i].wid == wid { assert Open(s[i]) && s[i].wid == wid; }
  }

  lemma DeployIdsIgnoreResponse(s: Server, run: nat, device: Uuid)
    requires Inv(s) && IsResponding(s, run)
    ensures Taken(Next(s, TimeOut(run)), R.DeployId(device)) <==> Taken(s, R.DeployId(device))
  {
    FamiliesApart(device, R.DeployId(device));
    IdsIgnoreResponse(s, run, R.DeployId(device));
  }

  predicate Commutes(s: Server, run: nat, e: Event)
  {
    IsResponding(Next(s, e), run) && Next(Next(s, TimeOut(run)), e) == Next(Next(s, e), TimeOut(run))
  }

  lemma StartCommutes(s: Server, run: nat, e: Event)
    requires Inv(s) && IsResponding(s, run) && (e.OperatorDeploy? || e.OperatorReconcile?)
    ensures Commutes(s, run, e)
  {
    if e.OperatorDeploy? {
      DeployIdsIgnoreResponse(s, run, e.device);
    } else {
      var wid := "reconcile-" + e.suffix;
      assert wid[0] == 'r';
      IdsIgnoreResponse(s, run, wid);
    }
  }

  lemma DispatchCommutes(s: Server, run: nat, other: nat, slot: nat)
    requires Inv(s) && IsResponding(s, run)
    ensures Commutes(s, run, Dispatch(other, slot))
  {
    if IsReconciling(s, other) && slot < |s[other].slots| { DeployIdsIgnoreResponse(s, run, s[other].targets[slot]); }
  }

  lemma ObserveCommutes(s: Server, run: nat, other: nat, slot: nat)
    requires IsResponding(s, run)
    ensures Commutes(s, run, Observe(other, slot))
  {
  }

  lemma CancelCommutes(s: Server, run: nat, other: nat)
    requires IsResponding(s, run)
    ensures Commutes(s, run, CancelReconcile(other))
  {
    var t := Next(s, TimeOut(run));
    if IsReconciling(s, other) { assert Terminated(t, other) == Terminated(s, other)[run := t[run]]; }
  }

  lemma CloseCommutes(s: Server, run: nat, e: Event)
    requires Inv(s) && IsResponding(s, run)
    requires e.EndDeploy? || e.FinishReconcile? || (e.EndResponse? && e.run != run) || (e.TimeOut? && e.run != run)
    ensures Commutes(s, run, e)
  {
    if e.EndResponse? && IsResponding(s, e.run) { assert GoodRun(s, e.run); }
  }

  lemma TimeoutCommutes(s: Server, run: nat, e: Event)
    requires Inv(s) && IsResponding(s, run) && Elsewhere(e, run)
    ensures Commutes(s, run, e)
  {
    match e
    case OperatorDeploy(_) => StartCommutes(s, run, e);
    case OperatorReconcile(_, _) => StartCommutes(s, run, e);
    case Dispatch(other, slot) => DispatchCommutes(s, run, other, slot);
    case Observe(other, slot) => ObserveCommutes(s, run, other, slot);
    case CancelReconcile(other) => CancelCommutes(s, run, other);
    case _ => CloseCommutes(s, run, e);
  }

  /**
   A scheduled run closed at its timeout abandons its repair: whatever deploys and reconciles do next,
   they do the same, to the same end, whether it was closed or not.
   */
  lemma {:induction false} TimeoutAbandonsRepair(s: Server, run: nat, events: seq<Event>)
    requires Inv(s) && IsResponding(s, run) && forall i :: 0 <= i < |events| ==> Elsewhere(events[i], run)
    ensures IsResponding(After(s, events), run)
    ensures After(Next(s, TimeOut(run)), events) == Next(After(s, events), TimeOut(run))
    decreases events
  {
    if events != [] {
      TimeoutCommutes(s, run, events[0]);
      NextKeeps(s, events[0]);
      TimeoutAbandonsRepair(Next(s, events[0]), run, events[1..]);
    }
  }

  /** Closing a run at its timeout frees its schedule for the next firing. */
  lemma TimeoutFreesSchedule(s: Server, run: nat)
    requires Inv(s) && IsResponding(s, run)
    ensures ScheduleBusy(s, s[run].schedule) && !ScheduleBusy(Next(s, TimeOut(run)), s[run].schedule)
  {
    assert GoodRun(s, run);
  }

  // ---- A dispatched repair stands alone ----

  /** The deploys a reconcile has started. */
  predicate IsChild(s: Server, reconcile: nat, i: nat)
  {
    i < |s| && s[i].DeployRun? && s[i].owner == Some(reconcile)
  }

  /** The steps of a reconcile and of the deploys it had started in state `s`. */
  predicate IsOwnStep(s: Server, reconcile: nat, e: Event)
  {
    match e
    case Dispatch(run, _) => run == reconcile
    case Observe(run, _) => run == reconcile
    case FinishReconcile(run) => run == reconcile
    case CancelReconcile(run) => run == reconcile
    case EndDeploy(run, _) => IsChild(s, reconcile, run)
    case _ => false
  }

  function OwnStep(s: Server, reconcile: nat): Event -> bool { (e: Event) => IsOwnStep(s, reconcile, e) }

  /** Nothing is left to dispatch, and the reconcile waits only for children it had in state `s`. */
  predicate AllDispatched(s: Server, reconcile: nat, r: Run)
  {
    r.ReconcileRun? && forall k :: 0 <= k < |r.slots| ==>
      !r.slots[k].Pending? && (r.slots[k].Waiting? ==> IsChild(s, reconcile, r.slots[k].child))
  }

  /** Two later states agree on the reconcile and on the deploys it had started in `s`. */
  predicate AgreeOn(s: Server, reconcile: nat, a: Server, b: Server)
  {
    && reconcile < |s| <= |a| && |s| <= |b| && a[reconcile] == b[reconcile] && AllDispatched(s, reconcile, a[reconcile])
    && forall i :: 0 <= i < |s| && IsChild(s, reconcile, i) ==> a[i] == b[i] && IsChild(a, reconcile, i)
  }

  /** Everybody else's steps leave them alone: firings, repairs, collisions and cancellations included. */
  lemma OthersLeaveAlone(s: Server, reconcile: nat, a: Server, b: Server, e: Event)
    requires AgreeOn(s, reconcile, a, b) && !IsOwnStep(s, reconcile, e)
    ensures AgreeOn(s, reconcile, Next(a, e), b)
  {
    var t := Next(a, e);
    assert t[reconcile] == a[reconcile];
    forall i | 0 <= i < |s| && IsChild(s, reconcile, i) ensures t[i] == b[i] && IsChild(t, reconcile, i) { assert t[i] == a[i]; }
  }

  lemma OwnObserveAgrees(s: Server, reconcile: nat, a: Server, b: Server, slot: nat)
    requires AgreeOn(s, reconcile, a, b)
    ensures AgreeOn(s, reconcile, Next(a, Observe(reconcile, slot)), Next(b, Observe(reconcile, slot)))
  {
    if slot < |a[reconcile].slots| && a[reconcile].slots[slot].Waiting? { assert IsChild(s, reconcile, a[reconcile].slots[slot].child); }
  }

  lemma OwnStepAgrees(s: Server, reconcile: nat, a: Server, b: Server, e: Event)
    requires AgreeOn(s, reconcile, a, b) && IsOwnStep(s, reconcile, e)
    ensures AgreeOn(s, reconcile, Next(a, e), Next(b, e))
  {
    match e
    case Observe(_, slot) => OwnObserveAgrees(s, reconcile, a, b, slot);
    case _ =>
  }

  lemma {:induction false} OwnStepsDecide(s: Server, reconcile: nat, a: Server, b: Server, events: seq<Event>)
    requires AgreeOn(s, reconcile, a, b)
    ensures AgreeOn(s, reconcile, After(a, events), After(b, Filter(OwnStep(s, reconcile), events)))
    decreases events
  {
    if events != [] {
      var e, rest := events[0], Filter(OwnStep(s, reconcile), events[1..]);
      if IsOwnStep(s, reconcile, e) {
        OwnStepAgrees(s, reconcile, a, b, e);
        OwnStepsDecide(s, reconcile, Next(a, e), Next(b, e), events[1..]);
        assert ([e] + rest)[0] == e && ([e] + rest)[1..] == rest;
      } else {
        OthersLeaveAlone(s, reconcile, a, b, e);
        OwnStepsDecide(s, reconcile, Next(a, e), b, events[1..]);
        assert [] + rest == rest;
      }
    }
  }

  lemma DispatchedAgrees(s: Server, reconcile: nat)
    requires Inv(s) && reconcile < |s| && s[reconcile].ReconcileRun?
    requires forall k :: 0 <= k < |s[reconcile].slots| ==> !s[reconcile].slots[k].Pending?
    ensures AgreeOn(s, reconcile, s, s)
  {
    assert GoodRun(s, reconcile);
    forall k | 0 <= k < |s[reconcile].slots| && s[reconcile].slots[k].Waiting? ensures IsChild(s, reconcile, s[reconcile].slots[k].child) {
      assert GoodSlot(s, reconcile, s[reconcile].targets[k], s[reconcile].slots[k]);
    }
  }

  /**
   Once a repair has dispatched its devices, nothing but its own steps and its own deploys' ends decides
   what becomes of it: not the timeout that abandons it, nor the next firing and that one's repair.
   */
  lemma RepairStandsAlone(s: Server, run: nat, events: seq<Event>)
    requires Inv(s) && IsResponding(s, run) && s[run].repair.Some?
    requires s[run].repair.value < |s| && s[s[run].repair.value].ReconcileRun?
    requires forall k :: 0 <= k < |s[s[run].repair.value].slots| ==> !s[s[run].repair.value].slots[k].Pending?
    ensures var repair := s[run].repair.value;
            var x, y := After(Next(s, TimeOut(run)), events), After(s, Filter(OwnStep(s, repair), events));
            && |s| <= |x| && |s| <= |y| && x[repair] == y[repair]
            && forall i :: 0 <= i < |s| && IsChild(s, repair, i) ==> x[i] == y[i]
  {
    var repair := s[run].repair.value;
    DispatchedAgrees(s, repair);
    OthersLeaveAlone(s, repair, s, s, TimeOut(run));
    OwnStepsDecide(s, repair, Next(s, TimeOut(run)), s, events);
  }

  /** Overlapping reconciles never wait for, or report, the same deploy; nor does one reconcile twice. */
  lemma NoSharedChild(s: Server, i: nat, k: nat, j: nat, l: nat)
    requires Inv(s) && i < |s| && j < |s| && s[i].ReconcileRun? && s[j].ReconcileRun?
    requires k < |s[i].slots| && l < |s[j].slots| && (i != j || k != l)
    requires HasChild(s[i].slots[k]) && HasChild(s[j].slots[l])
    ensures s[i].slots[k].child != s[j].slots[l].child
  {
    assert GoodRun(s, i) && GoodRun(s, j);
    assert GoodSlot(s, i, s[i].targets[k], s[i].slots[k]) && GoodSlot(s, j, s[j].targets[l], s[j].slots[l]);
  }
}
