/**
 Nothing on the server is ever stuck: from every reachable state each open reconcile and each open
 scheduled run can be brought to its end, and entry points whose id is free start what they should.
 */
module Liveness {
  import opened Prelude
  import opened Dicts
  import opened Uuids
  import opened Protocol
  import R = ReconcileDevices

  lemma {:induction false} AfterConcat(s: Server, a: seq<Event>, b: seq<Event>)
    ensures After(s, a + b) == After(After(s, a), b)
    decreases a
  {
    if a == [] {
      assert a + b == b;
    } else {
      assert (a + b)[0] == a[0] && (a + b)[1..] == a[1..] + b;
      AfterConcat(Next(s, a[0]), a[1..], b);
    }
  }

  lemma AfterOne(s: Server, e: Event)
    ensures After(s, [e]) == Next(s, e)
  {
    assert [e][1..] == [];
  }

  // ---- A reconcile ----

  /** The reconcile is further on: as many slots, those settled still settled, and no scheduled run touched. */
  predicate FurtherOn(s: Server, t: Server, run: nat)
  {
    && IsReconciling(s, run) && IsReconciling(t, run) && |t[run].slots| == |s[run].slots| && |s| <= |t|
    && (forall j :: 0 <= j < |s[run].slots| && Settled(s[run].slots[j]) ==> Settled(t[run].slots[j]))
    && (forall i :: 0 <= i < |s| && s[i].ResponseRun? ==> t[i] == s[i])
  }

  lemma FurtherTransitive(s: Server, t: Server, u: Server, run: nat)
    requires FurtherOn(s, t, run) && FurtherOn(t, u, run)
    ensures FurtherOn(s, u, run)
  {
  }

  /** An unknown device is skipped; any other end is reported, as a success iff it is one. */
  function SlotFor(child: nat, end: DeployEnd): Slot
  {
    match end
    case DeviceUnknown => Unknown(child)
    case DeploySucceeded => Reported(child, true)
    case _ => Reported(child, false)
  }

  lemma ObservedSettles(s: Server, run: nat, k: nat)
    requires Inv(s) && IsReconciling(s, run) && k < |s[run].slots| && s[run].slots[k].Waiting?
    requires s[run].slots[k].child < |s| && s[s[run].slots[k].child].DeployRun? && !Open(s[s[run].slots[k].child])
    ensures var t := Next(s, Observe(run, k)); Inv(t) && FurtherOn(s, t, run) && Settled(t[run].slots[k])
    ensures var child := s[run].slots[k].child; Next(s, Observe(run, k))[run].slots[k] == SlotFor(child, s[child].end.value)
  {
    NextKeeps(s, Observe(run, k));
  }

  lemma EndingChildGoesOn(s: Server, run: nat, k: nat, end: DeployEnd)
    requires Inv(s) && IsReconciling(s, run) && k < |s[run].slots| && s[run].slots[k].Waiting?
    requires s[run].slots[k].child < |s| && s[s[run].slots[k].child].DeployRun? && Open(s[s[run].slots[k].child])
    ensures var child := s[run].slots[k].child; var t := Next(s, EndDeploy(child, end));
            Inv(t) && FurtherOn(s, t, run) && t[run] == s[run] && t[child].DeployRun? && t[child].end == Some(end)
  {
    NextKeeps(s, EndDeploy(s[run].slots[k].child, end));
  }

  /** A slot whose child is still open can be settled as that child then ends. */
  lemma WaitingSettles(s: Server, run: nat, k: nat, end: DeployEnd) returns (events: seq<Event>)
    requires Inv(s) && IsReconciling(s, run) && k < |s[run].slots| && s[run].slots[k].Waiting?
    ensures var t := After(s, events); Inv(t) && FurtherOn(s, t, run) && Settled(t[run].slots[k])
    ensures s[run].slots[k].child < |s|
    ensures var t, child := After(s, events), s[run].slots[k].child; Open(s[child]) ==> t[run].slots[k] == SlotFor(child, end)
  {
    var child := s[run].slots[k].child;
    assert GoodRun(s, run);
    assert GoodSlot(s, run, s[run].targets[k], s[run].slots[k]);
    if Open(s[child]) {
      var next := Next(s, EndDeploy(child, end));
      EndingChildGoesOn(s, run, k, end);
      ObservedSettles(next, run, k);
      FurtherTransitive(s, next, Next(next, Observe(run, k)), run);
      events := [EndDeploy(child, end), Observe(run, k)];
      assert events[1..] == [Observe(run, k)];
      AfterOne(next, Observe(run, k));
    } else {
      ObservedSettles(s, run, k);
      events := [Observe(run, k)];
      AfterOne(s, Observe(run, k));
    }
  }

  lemma DispatchGoesOn(s: Server, run: nat, k: nat)
    requires Inv(s) && IsReconciling(s, run) && k < |s[run].slots| && s[run].slots[k].Pending?
    ensures var t := Next(s, Dispatch(run, k));
            Inv(t) && FurtherOn(s, t, run) && (t[run].slots[k].Collided? || t[run].slots[k].Waiting?)
  {
    NextKeeps(s, Dispatch(run, k));
  }

  /** However its child ends, a slot can be settled. */
  lemma SlotSettles(s: Server, run: nat, k: nat, end: DeployEnd) returns (events: seq<Event>)
    requires Inv(s) && IsReconciling(s, run) && k < |s[run].slots|
    ensures var t := After(s, events); Inv(t) && FurtherOn(s, t, run) && Settled(t[run].slots[k])
  {
    if s[run].slots[k].Pending? {
      DispatchGoesOn(s, run, k);
      var next := Next(s, Dispatch(run, k));
      var later := [];
      if next[run].slots[k].Waiting? { later := WaitingSettles(next, run, k, end); }
      FurtherTransitive(s, next, After(next, later), run);
      events := [Dispatch(run, k)] + later;
      assert events[0] == Dispatch(run, k) && events[1..] == later;
    } else if s[run].slots[k].Waiting? {
      events := WaitingSettles(s, run, k, end);
    } else {
      events := [];
    }
  }

  lemma {:induction false} SlotsSettle(s: Server, run: nat, n: nat, end: DeployEnd) returns (events: seq<Event>)
    requires Inv(s) && IsReconciling(s, run) && n <= |s[run].slots|
    ensures var t := After(s, events); Inv(t) && FurtherOn(s, t, run) && forall j :: 0 <= j < n ==> Settled(t[run].slots[j])
    decreases n
  {
    if n == 0 {
      events := [];
    } else {
      var before := SlotsSettle(s, run, n - 1, end);
      var next := After(s, before);
      var last := SlotSettles(next, run, n - 1, end);
      AfterConcat(s, before, last);
      FurtherTransitive(s, next, After(next, last), run);
      events := before + last;
    }
  }

  /** From every reachable state an open reconcile can be brought to its end, however its deploys end. */
  lemma EveryReconcileCanEnd(s: Server, run: nat, end: DeployEnd) returns (events: seq<Event>)
    requires Inv(s) && IsReconciling(s, run)
    ensures var t := After(s, events);
            && Inv(t) && run < |t| && t[run].ReconcileRun? && t[run].status.Reconciled?
            && |s| <= |t| && forall i :: 0 <= i < |s| && s[i].ResponseRun? ==> t[i] == s[i]
  {
    var settling := SlotsSettle(s, run, |s[run].slots|, end);
    var next := After(s, settling);
    NextKeeps(next, FinishReconcile(run));
    AfterConcat(s, settling, [FinishReconcile(run)]);
    AfterOne(next, FinishReconcile(run));
    events := settling + [FinishReconcile(run)];
  }

  predicate RepairOver(s: Server, run: nat)
    requires IsResponding(s, run)
  {
    s[run].repair.Some? ==> s[run].repair.value < |s| && !Open(s[s[run].repair.value])
  }

  lemma RepairEnds(s: Server, run: nat, end: DeployEnd) returns (events: seq<Event>)
    requires Inv(s) && IsResponding(s, run)
    ensures var t := After(s, events); Inv(t) && IsResponding(t, run) && RepairOver(t, run)
  {
    assert GoodRun(s, run);
    events := [];
    if !RepairOver(s, run) {
      assert GoodRun(s, s[run].repair.value);
      events := EveryReconcileCanEnd(s, s[run].repair.value, end);
    }
  }

  lemma ResponseEnds(s: Server, run: nat)
    requires Inv(s) && IsResponding(s, run) && RepairOver(s, run)
    ensures var t := Next(s, EndResponse(run)); Inv(t) && run < |t| && t[run].ResponseRun? && t[run].state.Responded?
  {
    NextKeeps(s, EndResponse(run));
  }

  /** So can an open scheduled run: after its repair, if it has one. */
  lemma EveryRunCanEnd(s: Server, run: nat, end: DeployEnd) returns (events: seq<Event>)
    requires Inv(s) && IsResponding(s, run)
    ensures var t := After(s, events); Inv(t) && run < |t| && t[run].ResponseRun? && t[run].state.Responded?
  {
    var repairing := RepairEnds(s, run, end);
    ResponseEnds(After(s, repairing), run);
    AfterConcat(s, repairing, [EndResponse(run)]);
    AfterOne(After(s, repairing), EndResponse(run));
    events := repairing + [EndResponse(run)];
  }

  // ---- What is started ----

  /** A reconcile that has yet to dispatch each of the named devices, once. */
  predicate FreshReconcile(r: Run, wid: string, deviceIds: seq<Uuid>, parent: Option<nat>)
  {
    && r.ReconcileRun? && Open(r) && r.wid == wid && r.parent == parent && r.targets == Distinct(deviceIds)
    && |r.slots| == |r.targets| && forall k :: 0 <= k < |r.slots| ==> r.slots[k].Pending?
  }

  /** A firing is dropped exactly while a run of its schedule is open or its id is taken; otherwise it starts one run. */
  lemma FiresWhenFree(s: Server, useCase: string, suffix: string)
    ensures var t, wid := Next(s, Fire(useCase, suffix)), "drift-response-" + useCase + suffix;
            if ScheduleBusy(s, "drift-response-" + useCase) || Taken(s, wid) then t == s
            else |t| == |s| + 1 && t[..|s|] == s && t[|s|] == ResponseRun(wid, "drift-response-" + useCase, None, Responding)
  {
  }

  /** An operator's reconcile starts on the named devices unless its id is taken. */
  lemma ReconcileStarts(s: Server, suffix: string, deviceIds: seq<Uuid>)
    requires !Taken(s, "reconcile-" + suffix)
    ensures var t := Next(s, OperatorReconcile(suffix, deviceIds));
            |t| == |s| + 1 && t[..|s|] == s && FreshReconcile(t[|s|], "reconcile-" + suffix, deviceIds, None)
  {
  }

  /** A scheduled run starts its one repair on the devices it selected. */
  lemma RepairStarts(s: Server, run: nat, deviceIds: seq<Uuid>)
    requires IsResponding(s, run) && s[run].repair.None? && !Taken(s, s[run].wid + "-reconcile")
    ensures var t := Next(s, Repair(run, deviceIds));
            && |t| == |s| + 1 && t[run] == s[run].(repair := Some(|s|)) && (forall i :: 0 <= i < |s| && i != run ==> t[i] == s[i])
            && FreshReconcile(t[|s|], s[run].wid + "-reconcile", deviceIds, Some(run))
  {
  }

  /** Cancelling a reconcile closes it and terminates exactly the deploys that it started and that are open. */
  lemma CancelStopsItsOwn(s: Server, run: nat)
    requires IsReconciling(s, run)
    ensures var t := Next(s, CancelReconcile(run));
            && |t| == |s| && t[run] == s[run].(status := ReconcileCancelled)
            && (forall i :: 0 <= i < |s| && s[i].DeployRun? && s[i].owner == Some(run) ==> t[i].DeployRun? && !Open(t[i]))
            && (forall i :: 0 <= i < |s| && i != run && !(s[i].DeployRun? && s[i].owner == Some(run)) ==> t[i] == s[i])
            && (forall i :: 0 <= i < |s| && i != run && !Open(s[i]) ==> t[i] == s[i])
  {
  }
}
