/** Operator-initiated reconciliation of several devices (workflows/reconcile_devices.py). */
module ReconcileDevices {
  import opened Prelude
  import opened Dicts
  import opened Lists
  import opened Uuids
  import opened AuditEvents
  import opened Results
  import opened Trails

  /** What a DeployIntent child comes to. */
  datatype Child = AlreadyStarted | ChildCancelled | ChildFailed(message: string) | Finished(result: WorkflowResult)

  /** `child` gives the outcome of each target's deploy; `now` is the clock while the children run. */
  datatype Reconcile = Reconcile(workflowId: string, deviceIds: seq<Uuid>, child: Uuid -> Child, interrupted: bool, now: int)

  function DeployId(device: Uuid): string { "deploy-intent-" + Text(device) }

  /** Different devices have different deploy workflow ids. */
  lemma DeployIdInjective(a: Uuid, b: Uuid)
    requires DeployId(a) == DeployId(b)
    ensures a == b
  {
    var p := "deploy-intent-";
    assert DeployId(a)[|p|..] == Text(a) && DeployId(b)[|p|..] == Text(b);
    TextInjective(a, b);
  }

  function Targets(r: Reconcile): seq<Uuid> { Distinct(r.deviceIds) }

  /** `_deploy_one`: None is a skipped device. */
  function DeployOne(r: Reconcile, device: Uuid): Option<WorkflowResult>
  {
    match r.child(device)
    case AlreadyStarted => None
    case ChildCancelled => None
    case ChildFailed(message) =>
      Some(WorkflowResult(DeployId(device), device, false, ApplyFailed, Some("child workflow failed: " + message), r.now, r.now, []))
    case Finished(result) => if result.reason == DeviceNotFound then None else Some(result)
  }

  function Reports(r: Reconcile): Uuid -> bool { (d: Uuid) => DeployOne(r, d).Some? }

  function Succeeds(r: Reconcile): Uuid -> bool { (d: Uuid) => DeployOne(r, d).Some? && DeployOne(r, d).value.success }

  function Fails(r: Reconcile): Uuid -> bool { (d: Uuid) => DeployOne(r, d).Some? && !DeployOne(r, d).value.success }

  function Skips(r: Reconcile): Uuid -> bool { (d: Uuid) => DeployOne(r, d).None? }

  function DeviceResults(r: Reconcile, devices: seq<Uuid>): map<Uuid, WorkflowResult>
  {
    map d | d in devices && DeployOne(r, d).Some? :: DeployOne(r, d).value
  }

  function Tally(p: Uuid -> bool, devices: seq<Uuid>): int { |Filter(p, devices)| }

  function ResultOf(r: Reconcile): ReconcileResult
  {
    var targets := Targets(r);
    ReconcileResult(r.workflowId, DeviceResults(r, targets), |targets|,
                    Tally(Succeeds(r), targets), Tally(Fails(r), targets), Tally(Skips(r), targets))
  }

  /** A cancellation of the run or of one of its children ends it. */
  predicate Stops(r: Reconcile)
  {
    r.interrupted || exists d :: d in Targets(r) && r.child(d).ChildCancelled?
  }

  // ---- The trail ----

  function RunEntry(kind: EventType, outcome: Option<OutcomeWord>, reason: Option<Reason>, payload: Payload): Entry
  {
    Entry(Nothing, kind, None, outcome, reason, payload, None)
  }

  function Opening(r: Reconcile): Entry
    requires |Targets(r)| <= |r.deviceIds|
  {
    RunEntry(WorkflowStarted, None, None, Dispatched(|Targets(r)|, |r.deviceIds| - |Targets(r)|))
  }

  function Closing(r: Reconcile): Entry
  {
    var x := ResultOf(r);
    if Stops(r) then RunEntry(WorkflowCancelled, Some(AuditEvents.Cancelled), None, NoPayload)
    else RunEntry(WorkflowTerminated, Some(Success), Some(Succeeded), RepairTotals(x.total, x.succeeded, x.failed, x.skipped))
  }

  function Story(r: Reconcile): seq<Entry>
    requires |Targets(r)| <= |r.deviceIds|
  {
    [Opening(r), Closing(r)]
  }

  lemma {:induction false} DistinctShorter<T>(seen: set<T>, xs: seq<T>)
    ensures |DistinctAfter(seen, xs)| <= |xs|
    decreases xs
  {
    if xs != [] {
      DistinctShorter(seen, xs[1..]);
      DistinctShorter(seen + {xs[0]}, xs[1..]);
    }
  }

  /** Count the outcomes of the dispatched devices. */
  method Count(r: Reconcile) returns (x: ReconcileResult)
    ensures x == ResultOf(r)
  {
    var targets := Targets(r);
    var results: map<Uuid, WorkflowResult> := map[];
    var skipped, succeeded, failed := 0, 0, 0;
    assert targets[0..] == targets;
    for i := 0 to |targets|
      invariant results == DeviceResults(r, targets[..i])
      invariant succeeded + Tally(Succeeds(r), targets[i..]) == Tally(Succeeds(r), targets)
      invariant failed + Tally(Fails(r), targets[i..]) == Tally(Fails(r), targets)
      invariant skipped + Tally(Skips(r), targets[i..]) == Tally(Skips(r), targets)
    {
      var device := targets[i];
      TallyStep(Succeeds(r), targets, i);
      TallyStep(Fails(r), targets, i);
      TallyStep(Skips(r), targets, i);
      ResultsStep(r, targets, i);
      var outcome := DeployOne(r, device);
      if outcome.None? {
        skipped := skipped + 1;
      } else {
        results := results[device := outcome.value];
        if outcome.value.success {
          succeeded := succeeded + 1;
        } else {
          failed := failed + 1;
        }
      }
    }
    assert targets[..|targets|] == targets;
    x := ReconcileResult(r.workflowId, results, |targets|, succeeded, failed, skipped);
  }

  lemma TallyStep(p: Uuid -> bool, xs: seq<Uuid>, i: nat)
    requires i < |xs|
    ensures Tally(p, xs[i..]) == (if p(xs[i]) then 1 else 0) + Tally(p, xs[i + 1..])
  {
    assert xs[i..][1..] == xs[i + 1..];
  }

  lemma ResultsStep(r: Reconcile, xs: seq<Uuid>, i: nat)
    requires i < |xs|
    ensures var before, outcome := DeviceResults(r, xs[..i]), DeployOne(r, xs[i]);
            DeviceResults(r, xs[..i + 1]) == if outcome.Some? then before[xs[i] := outcome.value] else before
  {
    assert xs[..i + 1] == xs[..i] + [xs[i]];
  }

  /** `ReconcileDevicesWorkflow.run`. None means that it raised: no devices, a cancellation, or a failed write. */
  method Run(trail: Trail, r: Reconcile) returns (x: Option<ReconcileResult>)
    modifies trail`entries
    ensures |Targets(r)| <= |r.deviceIds|
    ensures r.deviceIds == [] ==> trail.entries == old(trail.entries) && x == None
    ensures r.deviceIds != [] ==> trail.Told(old(trail.entries), Story(r)) || trail.Struck(old(trail.entries), Story(r))
    ensures r.deviceIds != [] ==>
              x == if trail.Told(old(trail.entries), Story(r)) && !Stops(r) then Some(ResultOf(r)) else None
  {
    DistinctShorter({}, r.deviceIds);
    if r.deviceIds == [] {
      return None;
    }
    ghost var base, story := trail.entries, Story(r);
    assert trail.entries == base + story[..0];
    var ok := trail.Record(Opening(r), base, story, 0);
    if !ok {
      return None;
    }
    if Stops(r) {
      ok := trail.Record(RunEntry(WorkflowCancelled, Some(AuditEvents.Cancelled), None, NoPayload), base, story, 1);
      return None;
    }
    var counted := Count(r);
    ok := trail.Record(RunEntry(WorkflowTerminated, Some(Success), Some(Succeeded),
                                RepairTotals(counted.total, counted.succeeded, counted.failed, counted.skipped)), base, story, 1);
    x := if ok then Some(counted) else None;
  }

  // ---- What a reconcile promises ----

  lemma {:induction false} EachCountedOnce(r: Reconcile, devices: seq<Uuid>)
    ensures Tally(Succeeds(r), devices) + Tally(Fails(r), devices) + Tally(Skips(r), devices) == |devices|
    ensures Tally(Reports(r), devices) == Tally(Succeeds(r), devices) + Tally(Fails(r), devices)
  {
    if devices != [] { EachCountedOnce(r, devices[1..]); }
  }

  /** Totals are conserved: every distinct target is counted once, as succeeded, failed or skipped. */
  lemma TotalsConserved(r: Reconcile)
    ensures var x := ResultOf(r);
            && LegalReconcile(x)
            && x.total == |Targets(r)| && NoRepeat(Targets(r)) && (forall d :: d in Targets(r) <==> d in r.deviceIds)
            && forall d :: d in x.deviceResults ==> d in Targets(r) && x.deviceResults[d] == DeployOne(r, d).value
  {
    var targets := Targets(r);
    DistinctIs(r.deviceIds);
    EachCountedOnce(r, targets);
    var reporting := Filter(Reports(r), targets);
    FilterNoRepeat(Reports(r), targets);
    NoRepeatCount(reporting);
    forall d ensures d in DeviceResults(r, targets) <==> d in reporting { FilterHas(Reports(r), targets, d); }
    assert (set d | d in reporting) == DeviceResults(r, targets).Keys;
  }

  // ---- By what the children come to ----

  /** The device's child was refused because one was running, or found no intent for it. */
  function PassedOver(r: Reconcile): Uuid -> bool
  {
    (d: Uuid) => r.child(d).AlreadyStarted? || (r.child(d).Finished? && r.child(d).result.reason == DeviceNotFound)
  }

  function Deployed(r: Reconcile): Uuid -> bool
  {
    (d: Uuid) => r.child(d).Finished? && r.child(d).result.reason != DeviceNotFound && r.child(d).result.success
  }

  function Undeployed(r: Reconcile): Uuid -> bool
  {
    (d: Uuid) => r.child(d).ChildFailed? || (r.child(d).Finished? && r.child(d).result.reason != DeviceNotFound && !r.child(d).result.success)
  }

  /** What a reconcile must say of a device, going by its child; None says nothing. */
  predicate SaysOf(r: Reconcile, device: Uuid, said: Option<WorkflowResult>)
  {
    match r.child(device)
    case AlreadyStarted => said.None?
    case ChildCancelled => said.None?
    case ChildFailed(message) =>
      said == Some(WorkflowResult("deploy-intent-" + Text(device), device, false, ApplyFailed,
                                  Some("child workflow failed: " + message), r.now, r.now, []))
    case Finished(result) => said == if result.reason == DeviceNotFound then None else Some(result)
  }

  /**
   The children decide: a device already being deployed, or unknown, is skipped and not reported; a
   finished child is reported with its own result and a failed one as a failed apply; and the tallies
   count the targets by what their children came to.
   */
  lemma ChildrenDecide(r: Reconcile)
    requires forall d :: d in Targets(r) ==> !r.child(d).ChildCancelled?
    ensures var x, targets := ResultOf(r), Distinct(r.deviceIds);
            && (forall d :: d in x.deviceResults ==> d in r.deviceIds)
            && (forall d :: d in r.deviceIds ==> SaysOf(r, d, if d in x.deviceResults then Some(x.deviceResults[d]) else None))
            && x.workflowId == r.workflowId && x.total == |targets| && x.skipped == |Filter(PassedOver(r), targets)|
            && x.succeeded == |Filter(Deployed(r), targets)| && x.failed == |Filter(Undeployed(r), targets)|
  {
    var targets := Targets(r);
    DistinctIs(r.deviceIds);
    FilterSame(Skips(r), PassedOver(r), targets);
    FilterSame(Succeeds(r), Deployed(r), targets);
    FilterSame(Fails(r), Undeployed(r), targets);
  }

  /** Children report on their own device with results that pass their validator. */
  ghost predicate OwnChildren(r: Reconcile)
  {
    forall d :: d in Targets(r) && r.child(d).Finished? ==> r.child(d).result.target == d && LegalResult(r.child(d).result)
  }

  /** So does the reconcile, also for children that failed. */
  lemma ResultsAreOwn(r: Reconcile)
    requires OwnChildren(r)
    ensures forall d :: d in ResultOf(r).deviceResults ==>
              ResultOf(r).deviceResults[d].target == d && LegalResult(ResultOf(r).deviceResults[d])
  {
  }

  /** Every entry is legal, and the second is the run's one terminal entry. */
  lemma ReconcileTrail(r: Reconcile)
    requires |Targets(r)| <= |r.deviceIds|
    ensures forall k :: 0 <= k < 2 ==> LegalEntry(Story(r)[k])
    ensures Story(r)[0].kind == WorkflowStarted && Story(r)[0].payload == Dispatched(|Distinct(r.deviceIds)|, |r.deviceIds| - |Distinct(r.deviceIds)|)
    ensures Story(r)[1].kind == WorkflowCancelled <==> Stops(r)
    ensures Stops(r) <==> r.interrupted || exists d :: d in r.deviceIds && r.child(d).ChildCancelled?
    ensures !Stops(r) ==> Story(r)[1].kind == WorkflowTerminated && Story(r)[1].reason == Some(Succeeded)
    ensures var x := ResultOf(r); !Stops(r) ==> Story(r)[1].payload == RepairTotals(x.total, x.succeeded, x.failed, x.skipped)
  {
    DistinctIs(r.deviceIds);
  }
}
