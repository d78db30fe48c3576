/**
 The closed-loop deploy of one device (workflows/deploy_intent.py).

 A run is described by what its four activities come to. `Story` is the trail it leaves, in
 closed form: started, the completions up to the first stage that stops it, one terminal entry.
 */
module DeployIntent {
  import opened Prelude
  import opened Decimal
  import opened Uuids
  import opened Intent
  import opened Executor
  import opened Reports
  import opened AuditEvents
  import opened Results
  import opened Trails
  import D = Diff

  /** The cause of an activity failure: an application error of some type, or anything else. */
  datatype Cause = Application(errorType: string, message: string) | Other(message: string)

  datatype Outcome<+T> = Returned(value: T) | Cancelled | Raised(cause: Cause)

  datatype Deploy = Deploy(
    workflowId: string, device: Uuid,
    fetch: Outcome<DesiredState>, apply: Outcome<ApplyResult>, collect: Outcome<CollectResult>, detect: Outcome<DriftReport>,
    startedAt: int, endedAt: int)

  const REMAIN := " path(s) not in intent remain on the device \U{2014} removal is not automatic"

  const INTENT_NOT_FOUND := "IntentNotFoundError"

  // ---- How a run ends ----

  /** What a terminal helper is called with. */
  datatype Ending =
    | Succeeds(undesired: seq<string>)
    | Fails(reason: Reason, detail: string)
    | Unverified(items: seq<D.DriftItem>)
    | Cancels

  /** `text or default`. */
  function Or(text: string, default_: string): string { if text != "" then text else default_ }

  predicate IntentNotFound(cause: Cause) { cause.Application? && cause.errorType == INTENT_NOT_FOUND }

  function Undesired(items: seq<D.DriftItem>): seq<D.DriftItem>
  {
    if items == [] then [] else (if items[0].undesired then [items[0]] else []) + Undesired(items[1..])
  }

  function PathsOf(items: seq<D.DriftItem>): (r: seq<string>)
    ensures |r| == |items|
  {
    seq(|items|, i requires 0 <= i < |items| => items[i].path)
  }

  /** An activity that did not return ends the run. */
  function Stopped<T>(o: Outcome<T>, reason: Reason, default_: string): Ending
    requires !o.Returned?
  {
    if o.Cancelled? then Cancels else Fails(reason, Or(o.cause.message, default_))
  }

  function FetchStop(o: Outcome<DesiredState>): Ending
    requires !o.Returned?
  {
    if o.Raised? && IntentNotFound(o.cause) then Fails(DeviceNotFound, Or(o.cause.message, "device not found in SoT"))
    else Stopped(o, IntentUnavailable, "intent fetch failed")
  }

  /** The classification of the report once everything has run. */
  function Verdict(r: DriftReport): Ending
  {
    if r.status == Clean || (r.status == Drifted && !HasForwardDrift(r)) then Succeeds(PathsOf(Undesired(r.items)))
    else if r.status == Drifted then Unverified(r.items)
    else Fails(CollectFailed, Or(if r.error.Some? then r.error.value else "", "drift detection returned ERROR status"))
  }

  /** How many of the four stages complete. */
  function Completed(d: Deploy): nat
  {
    if !d.fetch.Returned? then 0
    else if !d.apply.Returned? || !d.apply.value.success then 1
    else if !d.collect.Returned? then 2
    else if !d.detect.Returned? then 3
    else 4
  }

  function EndingOf(d: Deploy): Ending
  {
    if !d.fetch.Returned? then FetchStop(d.fetch)
    else if !d.apply.Returned? then Stopped(d.apply, ApplyFailed, "apply activity failed")
    else if !d.apply.value.success then
      Fails(ApplyFailed, Or(if d.apply.value.error.Some? then d.apply.value.error.value else "", "apply reported success=False"))
    else if !d.collect.Returned? then Stopped(d.collect, CollectFailed, "collect activity failed")
    else if !d.detect.Returned? then Stopped(d.detect, CollectFailed, "drift detection failed")
    else Verdict(d.detect.value)
  }

  // ---- The trail ----

  function Started(device: Uuid): Entry { Entry(Id(device), WorkflowStarted, None, None, None, NoPayload, None) }

  function Completion(device: Uuid, activity: Activity): Entry
  {
    Entry(Id(device), ActivityCompleted, Some(activity), Some(Success), None, NoPayload, None)
  }

  /** The four stages in the order they run. */
  const STAGES: seq<Activity> := [FetchDesiredState, ApplyConfig, CollectDriftState, CheckDrift]

  function Completions(device: Uuid): (r: seq<Entry>)
    ensures |r| == 4
  {
    [Completion(device, FetchDesiredState), Completion(device, ApplyConfig),
     Completion(device, CollectDriftState), Completion(device, CheckDrift)]
  }

  function Terminal(device: Uuid, e: Ending): Entry
  {
    match e
    case Succeeds(paths) =>
      Entry(Id(device), WorkflowTerminated, None, Some(Success), Some(Succeeded), if paths == [] then NoPayload else UndesiredPaths(paths), None)
    case Fails(reason, detail) => Entry(Id(device), WorkflowTerminated, None, Some(Failure), Some(reason), Detail(detail), None)
    case Unverified(items) =>
      Entry(Id(device), WorkflowTerminated, None, Some(Failure), Some(VerificationFailed), DriftPaths(PathsOf(items)), None)
    case Cancels => Entry(Id(device), WorkflowCancelled, None, Some(AuditEvents.Cancelled), None, NoPayload, None)
  }

  function Story(d: Deploy): seq<Entry>
  {
    [Started(d.device)] + Completions(d.device)[..Completed(d)] + [Terminal(d.device, EndingOf(d))]
  }

  function ResultOf(d: Deploy, e: Ending): WorkflowResult
  {
    WorkflowResult(
      d.workflowId, d.device, e.Succeeds?,
      match e { case Succeeds(_) => Succeeded case Fails(reason, _) => reason case Unverified(_) => VerificationFailed case Cancels => RunCancelled },
      DetailOf(e), d.startedAt, d.endedAt, if e.Unverified? then e.items else [])
  }

  function DetailOf(e: Ending): Option<string>
  {
    match e
    case Succeeds(paths) => if paths == [] then None else Some(NatText(|paths|) + REMAIN)
    case Fails(_, detail) => Some(detail)
    case Unverified(items) => Some("post-apply drift on " + NatText(|items|) + " path(s)")
    case Cancels => Some("workflow cancelled by caller")
  }

  // ---- The workflow ----

  /** The terminal helpers: record the last entry, then build the result. None raises. */
  method Terminate(trail: Trail, d: Deploy, e: Ending, ghost base: seq<Entry>) returns (r: Option<WorkflowResult>)
    requires e == EndingOf(d) && trail.Midway(base, Story(d), 1 + Completed(d))
    modifies trail`entries
    ensures r.Some? ==> trail.Told(base, Story(d)) && r.value == ResultOf(d, e)
    ensures r.None? ==> trail.Struck(base, Story(d))
  {
    var ok := trail.Record(Terminal(d.device, e), base, Story(d), 1 + Completed(d));
    r := if ok then Some(ResultOf(d, e)) else None;
  }

  /** Record that a stage completed. */
  method Complete(trail: Trail, d: Deploy, stage: nat, ghost base: seq<Entry>) returns (ok: bool)
    requires stage < Completed(d) && trail.Midway(base, Story(d), 1 + stage)
    modifies trail`entries
    ensures ok ==> trail.Midway(base, Story(d), 2 + stage)
    ensures !ok ==> trail.Struck(base, Story(d))
  {
    ok := trail.Record(Completions(d.device)[stage], base, Story(d), 1 + stage);
  }

  /** `DeployIntentWorkflow.run`. None means that it raised: a write to the trail failed. */
  method Run(trail: Trail, d: Deploy) returns (r: Option<WorkflowResult>)
    modifies trail`entries
    ensures r.Some? ==> trail.Told(old(trail.entries), Story(d)) && r.value == ResultOf(d, EndingOf(d))
    ensures r.None? ==> trail.Struck(old(trail.entries), Story(d))
  {
    ghost var base := trail.entries;
    assert trail.entries == base + Story(d)[..0];
    var ok := trail.Record(Started(d.device), base, Story(d), 0);
    if !ok { return None; }

    if !d.fetch.Returned? {
      r := Terminate(trail, d, FetchStop(d.fetch), base);
      return;
    }
    ok := Complete(trail, d, 0, base);
    if !ok { return None; }

    if !d.apply.Returned? {
      r := Terminate(trail, d, Stopped(d.apply, ApplyFailed, "apply activity failed"), base);
      return;
    }
    if !d.apply.value.success {
      var error := if d.apply.value.error.Some? then d.apply.value.error.value else "";
      r := Terminate(trail, d, Fails(ApplyFailed, Or(error, "apply reported success=False")), base);
      return;
    }
    ok := Complete(trail, d, 1, base);
    if !ok { return None; }

    if !d.collect.Returned? {
      r := Terminate(trail, d, Stopped(d.collect, CollectFailed, "collect activity failed"), base);
      return;
    }
    ok := Complete(trail, d, 2, base);
    if !ok { return None; }

    if !d.detect.Returned? {
      r := Terminate(trail, d, Stopped(d.detect, CollectFailed, "drift detection failed"), base);
      return;
    }
    ok := Complete(trail, d, 3, base);
    if !ok { return None; }

    var report := d.detect.value;
    var undesired := Undesired(report.items);
    UndesiredAll(report.items);
    if report.status == Clean || (report.status == Drifted && |undesired| == |report.items|) {
      r := Terminate(trail, d, Succeeds(PathsOf(undesired)), base);
    } else if report.status == Drifted {
      r := Terminate(trail, d, Unverified(report.items), base);
    } else {
      var error := if report.error.Some? then report.error.value else "";
      r := Terminate(trail, d, Fails(CollectFailed, Or(error, "drift detection returned ERROR status")), base);
    }
  }

  /** Counting the undesired items tells whether any item is forward. */
  lemma {:induction false} UndesiredAll(items: seq<D.DriftItem>)
    ensures |Undesired(items)| <= |items|
    ensures |Undesired(items)| == |items| <==> forall item :: item in items ==> item.undesired
  {
    if items != [] {
      UndesiredAll(items[1..]);
      assert forall item :: item in items <==> item == items[0] || item in items[1..];
    }
  }

  // ---- What a run promises ----

  predicate IsTerminal(e: Entry) { e.kind == WorkflowTerminated || e.kind == WorkflowCancelled }

  /** The result a terminal entry announces. */
  predicate Announces(e: Entry, r: WorkflowResult)
  {
    && e.target == Id(r.target)
    && (if r.reason == RunCancelled then e.kind == WorkflowCancelled && e.outcome == Some(AuditEvents.Cancelled)
        else e.kind == WorkflowTerminated && e.reason == Some(r.reason)
             && e.outcome == Some(if r.success then Success else Failure))
    && (r.reason == VerificationFailed ==> e.payload == DriftPaths(PathsOf(r.driftItems)))
    && (r.reason in {IntentUnavailable, DeviceNotFound, ApplyFailed, CollectFailed} ==> r.detail.Some? && e.payload == Detail(r.detail.value))
  }

  /**
   The trail of a run that returns: started, the completions of fetch, apply, collect and detect
   in order up to some stage, then exactly one terminal entry, which announces the result.
   */
  lemma TrailShape(d: Deploy)
    ensures var story := Story(d); var n := Completed(d); var r := ResultOf(d, EndingOf(d));
            && n <= 4 && |story| == n + 2 && story[0] == Started(d.device)
            && (forall k :: 0 <= k < n ==> story[k + 1] == Completion(d.device, STAGES[k]))
            && Announces(story[n + 1], r)
            && forall k :: 0 <= k < |story| ==> (IsTerminal(story[k]) <==> k == n + 1) && LegalEntry(story[k])
  {
    EndingReasons(d);
  }

  /** A failure is never reported as a success or as a cancellation. */
  lemma EndingReasons(d: Deploy)
    ensures var e := EndingOf(d);
            e.Fails? ==> e.reason in {IntentUnavailable, DeviceNotFound, ApplyFailed, CollectFailed}
  {
  }

  /** A run succeeds exactly when all four stages completed and the report shows no error and no forward drift. */
  lemma SucceedsExactly(d: Deploy)
    ensures ResultOf(d, EndingOf(d)).success <==>
            Completed(d) == 4 && d.detect.value.status != Errored && !HasForwardDrift(d.detect.value)
    ensures ResultOf(d, EndingOf(d)).reason == Succeeded <==> ResultOf(d, EndingOf(d)).success
  {
    EndingReasons(d);
  }

  /** Every result passes its validator, and is of its own run, device and times. */
  lemma ResultIsLegal(d: Deploy)
    requires d.startedAt <= d.endedAt
    ensures LegalResult(ResultOf(d, EndingOf(d)))
    ensures var r := ResultOf(d, EndingOf(d));
            r.workflowId == d.workflowId && r.target == d.device && r.startedAt == d.startedAt && r.endedAt == d.endedAt
  {
    EndingReasons(d);
  }

  /** A run that reports drift reports all of it, and only after applying and verifying. */
  lemma UnverifiedExactly(d: Deploy)
    ensures var r := ResultOf(d, EndingOf(d));
            r.reason == VerificationFailed <==> Completed(d) == 4 && HasForwardDrift(d.detect.value)
    ensures var r := ResultOf(d, EndingOf(d));
            r.reason == VerificationFailed ==> r.driftItems == d.detect.value.items
  {
    EndingReasons(d);
  }

  /** Which reason a run ends with, as a caller could tell from the activities. */
  lemma ReasonsExactly(d: Deploy)
    ensures var reason, n := ResultOf(d, EndingOf(d)).reason, Completed(d);
            && (reason == DeviceNotFound <==> d.fetch.Raised? && IntentNotFound(d.fetch.cause))
            && (reason == IntentUnavailable <==> d.fetch.Raised? && !IntentNotFound(d.fetch.cause))
            && (reason == ApplyFailed <==> n == 1 && !d.apply.Cancelled?)
            && (reason == RunCancelled <==> (n == 0 && d.fetch.Cancelled?) || (n == 1 && d.apply.Cancelled?)
                                            || (n == 2 && d.collect.Cancelled?) || (n == 3 && d.detect.Cancelled?))
            && (reason == CollectFailed <==> (n == 2 && d.collect.Raised?) || (n == 3 && d.detect.Raised?)
                                             || (n == 4 && d.detect.value.status == Errored))
  {
    EndingReasons(d);
  }

  /** The message of an activity that raised, or what stands for an empty one. */
  predicate Tells<T>(o: Outcome<T>, default_: string, detail: Option<string>)
  {
    o.Raised? ==> detail == Some(if o.cause.message == "" then default_ else o.cause.message)
  }

  /** A failure's own message reaches the result; a default stands in only for an empty one. */
  lemma DetailsExactly(d: Deploy)
    ensures var detail, n := ResultOf(d, EndingOf(d)).detail, Completed(d);
            && (n == 0 ==> Tells(d.fetch, if d.fetch.Raised? && IntentNotFound(d.fetch.cause) then "device not found in SoT" else "intent fetch failed", detail))
            && (n == 1 ==> Tells(d.apply, "apply activity failed", detail))
            && (n == 1 && d.apply.Returned? ==>
                  detail == Some(if Truthy(d.apply.value.error) then d.apply.value.error.value else "apply reported success=False"))
            && (n == 2 ==> Tells(d.collect, "collect activity failed", detail))
            && (n == 3 ==> Tells(d.detect, "drift detection failed", detail))
            && (n == 4 && d.detect.value.status == Errored ==>
                  detail == Some(if Truthy(d.detect.value.error) then d.detect.value.error.value else "drift detection returned ERROR status"))
            && (n == 4 && HasForwardDrift(d.detect.value) ==> detail == Some("post-apply drift on " + NatText(|d.detect.value.items|) + " path(s)"))
            && (ResultOf(d, EndingOf(d)).reason == RunCancelled ==> detail == Some("workflow cancelled by caller"))
  {
    EndingReasons(d);
  }

  lemma {:induction false} AllUndesired(items: seq<D.DriftItem>)
    requires forall item :: item in items ==> item.undesired
    ensures Undesired(items) == items
  {
    if items != [] {
      assert items[0] in items && forall item :: item in items[1..] ==> item in items;
      AllUndesired(items[1..]);
      assert items == [items[0]] + items[1..];
    }
  }

  /** A success names every path that remains on the device, in the trail and by their number in the result. */
  lemma SuccessNamesWhatRemains(d: Deploy)
    requires ResultOf(d, EndingOf(d)).success && LegalReport(d.detect.value)
    ensures var r, story, items := ResultOf(d, EndingOf(d)), Story(d), d.detect.value.items;
            && story[|story| - 1].payload == (if items == [] then NoPayload else UndesiredPaths(PathsOf(items)))
            && r.detail == (if items == [] then None else Some(NatText(|items|) + REMAIN))
  {
    SucceedsExactly(d);
    AllUndesired(d.detect.value.items);
  }
}
