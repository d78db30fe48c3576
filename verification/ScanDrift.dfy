/**
 The read-only scan of a use case (workflows/scan_drift.py, activities/intent.py).

 Devices are checked concurrently: `finished` lists the checks whose result was recorded, in the
 order they were recorded, and a cancellation may cut it short.
 */
module ScanDrift {
  import opened Prelude
  import opened Dicts
  import opened Lists
  import opened Uuids
  import opened Intent
  import opened Reports
  import opened AuditEvents
  import opened Results
  import opened Trails
  import opened DeployIntent
  import D = Diff

  // ---- Devices of a use case ----

  function StateId(): DesiredState -> Uuid { (s: DesiredState) => s.device.id }

  function StateDevice(): DesiredState -> Device { (s: DesiredState) => s.device }

  /** `{s.device.id: s.device for s in states}`. */
  function DeviceMap(states: seq<DesiredState>): (r: Dict<Uuid, Device>)
    ensures Valid(r)
  {
    Built(StateId(), StateDevice(), states);
    FromItems(Empty(), StateId(), StateDevice(), states)
  }

  /** `fetch_devices_for_use_case` on what the store returned. */
  function DevicesOf(states: seq<DesiredState>): (r: seq<Device>)
    ensures |r| == |DeviceMap(states).keys|
    ensures forall i :: 0 <= i < |r| ==> DeviceMap(states).keys[i] in DeviceMap(states).values && r[i] == DeviceMap(states).values[DeviceMap(states).keys[i]]
  {
    var ds := DeviceMap(states);
    seq(|ds.keys|, i requires 0 <= i < |ds.keys| => assert ds.keys[i] in ds.keys; ds.values[ds.keys[i]])
  }

  function DeviceId(): Device -> Uuid { (d: Device) => d.id }

  lemma OwnIds(states: seq<DesiredState>, i: nat)
    requires i < |DevicesOf(states)|
    ensures DeviceId()(DevicesOf(states)[i]) == DeviceMap(states).keys[i]
  {
    Built(StateId(), StateDevice(), states);
    ItemValues(Empty(), StateId(), StateDevice(), states, DeviceMap(states).keys[i]);
  }

  /** Whatever the store answers, the scan's devices are those named, each once, in the order they first appear. */
  lemma DevicesAreDistinct(states: seq<DesiredState>)
    ensures NoRepeat(Map(DeviceId(), DevicesOf(states)))
    ensures Map(DeviceId(), DevicesOf(states)) == Distinct(Map(StateId(), states))
  {
    var keys, r := DeviceMap(states).keys, DevicesOf(states);
    forall i | 0 <= i < |r| ensures DeviceId()(r[i]) == keys[i] { OwnIds(states, i); }
    MapIs(DeviceId(), r, keys);
    Built(StateId(), StateDevice(), states);
  }

  /** A device named more than once is scanned as the last answer describes it. */
  lemma LastAnswerStands(states: seq<DesiredState>, i: nat, j: nat)
    requires i < |DevicesOf(states)| && j < |states| && DevicesOf(states)[i].id == states[j].device.id
    requires forall k :: j < k < |states| ==> states[k].device.id != states[j].device.id
    ensures DevicesOf(states)[i] == states[j].device
  {
    OwnIds(states, i);
    LastItem(Empty(), StateId(), StateDevice(), states, j);
  }

  // ---- One device ----

  datatype Check = Check(device: Device, fetch: Outcome<DesiredState>, collect: Outcome<CollectResult>, detect: Outcome<DriftReport>)

  function ErrorReport(device: Device, error: string): DriftReport { DriftReport(device.id, device.name, Errored, [], Some(error)) }

  /** `_evaluate`; None is a cancellation, which is not turned into a report. */
  function ReportOf(c: Check): Option<DriftReport>
  {
    if c.fetch.Cancelled? then None
    else if c.fetch.Raised? then Some(ErrorReport(c.device, "intent fetch failed: " + c.fetch.cause.message))
    else if c.collect.Cancelled? then None
    else if c.collect.Raised? then Some(ErrorReport(c.device, "collect failed: " + c.collect.cause.message))
    else if c.detect.Cancelled? then None
    else if c.detect.Raised? then Some(ErrorReport(c.device, "detect_drift failed: " + c.detect.cause.message))
    else Some(c.detect.value)
  }

  /**
   The activities do what they say: a collection carries the id of the device it was asked for, and
   a drift check compares what it was given and refuses mismatched ids. The store may answer with anything.
   */
  predicate Honest(c: Check)
  {
    && (c.collect.Returned? ==> c.collect.value.deviceId == c.device.id && LegalCollect(c.collect.value))
    && (c.fetch.Returned? && c.collect.Returned? && c.detect.Returned? ==>
          c.fetch.value.device.id == c.collect.value.deviceId && c.detect.value == Observed(c.fetch.value, c.collect.value))
  }

  /** Even when the store hands out another device's state, a report carries its own device's id. */
  lemma OwnReport(c: Check)
    requires Honest(c) && ReportOf(c).Some?
    ensures ReportOf(c).value.deviceId == c.device.id && LegalReport(ReportOf(c).value)
  {
    if c.fetch.Returned? && c.collect.Returned? && c.detect.Returned? {
      ReportsAreLegal(c.fetch.value, c.collect.value);
    }
  }

  /** What a check's stages amount to: the report of the last one, or an error that names the first that raised. */
  predicate AmountsTo(c: Check, r: DriftReport)
  {
    if c.fetch.Raised? then Errs(c.device, "intent fetch failed: " + c.fetch.cause.message, r)
    else if c.fetch.Returned? && c.collect.Raised? then Errs(c.device, "collect failed: " + c.collect.cause.message, r)
    else if c.fetch.Returned? && c.collect.Returned? && c.detect.Raised? then Errs(c.device, "detect_drift failed: " + c.detect.cause.message, r)
    else c.fetch.Returned? && c.collect.Returned? && c.detect.Returned? && r == c.detect.value
  }

  predicate Errs(device: Device, error: string, r: DriftReport)
  {
    r.deviceId == device.id && r.deviceName == device.name && r.status == Errored && r.items == [] && r.error == Some(error)
  }

  /** A stage was cancelled before any raised. */
  predicate Cut(c: Check)
  {
    c.fetch.Cancelled? || (c.fetch.Returned? && (c.collect.Cancelled? || (c.collect.Returned? && c.detect.Cancelled?)))
  }

  function CheckEntry(r: DriftReport): Entry
  {
    Entry(Id(r.deviceId), if r.status == Errored then ActivityFailed else ActivityCompleted, Some(CheckDrift),
          Some(if r.status == Errored then Failure else Success), None, Checked(r.status, PathsOf(r.items), r.error), None)
  }

  // ---- A scan ----

  /** What a scan meets. `checks` follow the devices; `finished` are those recorded, in that order. */
  datatype Scan = Scan(workflowId: string, useCase: string, devices: Outcome<seq<Device>>, checks: seq<Check>,
                       interrupted: bool, finished: seq<nat>)

  /** A possible course of events: only checks that produced a report are recorded, and all are unless interrupted. */
  ghost predicate Possible(s: Scan)
  {
    && (s.devices.Returned? ==> |s.checks| == |s.devices.value| && forall i :: 0 <= i < |s.checks| ==> s.checks[i].device == s.devices.value[i])
    && NoRepeat(s.finished)
    && (forall k :: k in s.finished ==> k < |s.checks| && ReportOf(s.checks[k]).Some?)
    && (!s.interrupted ==> (forall k :: 0 <= k < |s.checks| ==> k in s.finished))
  }

  function ReportsOf(checks: seq<Check>): (r: seq<DriftReport>)
    requires forall i :: 0 <= i < |checks| ==> ReportOf(checks[i]).Some?
    ensures |r| == |checks| && forall i :: 0 <= i < |r| ==> r[i] == ReportOf(checks[i]).value
  {
    seq(|checks|, i requires 0 <= i < |checks| => ReportOf(checks[i]).value)
  }

  function CheckEntries(checks: seq<Check>, finished: seq<nat>): (r: seq<Entry>)
    requires forall k :: k in finished ==> k < |checks| && ReportOf(checks[k]).Some?
    ensures |r| == |finished| && forall i :: 0 <= i < |r| ==> finished[i] in finished && r[i] == CheckEntry(ReportOf(checks[finished[i]]).value)
  {
    seq(|finished|, i requires 0 <= i < |finished| => assert finished[i] in finished; CheckEntry(ReportOf(checks[finished[i]]).value))
  }

  function StatusTest(status: DriftStatus): DriftReport -> bool { (r: DriftReport) => r.status == status }

  function CountOf(reports: seq<DriftReport>, status: DriftStatus): nat { |Filter(StatusTest(status), reports)| }

  function ReportId(): DriftReport -> Uuid { (r: DriftReport) => r.deviceId }

  function Itself(): DriftReport -> DriftReport { (r: DriftReport) => r }

  /** `{r.device_id: r for r in reports}`. */
  function ReportMap(reports: seq<DriftReport>): Dict<Uuid, DriftReport>
  {
    FromItems(Empty(), ReportId(), Itself(), reports)
  }

  function ScanResultOf(s: Scan, reports: seq<DriftReport>): ScanResult
  {
    ScanResult(s.workflowId, s.useCase, ReportMap(reports), |reports|,
               CountOf(reports, Clean), CountOf(reports, Drifted), CountOf(reports, Errored), false)
  }

  function CancelledScan(s: Scan): ScanResult { ScanResult(s.workflowId, s.useCase, Empty(), 0, 0, 0, 0, true) }

  // ---- The trail ----

  function ScanEntry(s: Scan, kind: EventType, outcome: Option<OutcomeWord>, reason: Option<Reason>, payload: Payload): Entry
  {
    Entry(Name(s.useCase), kind, None, outcome, reason, payload, None)
  }

  function ScanStarted(s: Scan): Entry { ScanEntry(s, WorkflowStarted, None, None, NoPayload) }

  function ScanCancelled(s: Scan): Entry { ScanEntry(s, WorkflowCancelled, Some(AuditEvents.Cancelled), None, NoPayload) }

  function ScanEnded(s: Scan, reports: seq<DriftReport>): Entry
  {
    ScanEntry(s, WorkflowTerminated, Some(Success), Some(Succeeded),
              ScanTotals(|reports|, CountOf(reports, Clean), CountOf(reports, Drifted), CountOf(reports, Errored)))
  }

  /** Everything a scan records; a scan whose device list cannot be fetched records only its start. */
  ghost function ScanStory(s: Scan): seq<Entry>
    requires Possible(s)
  {
    if s.devices.Raised? then [ScanStarted(s)]
    else if s.devices.Cancelled? then [ScanStarted(s), ScanCancelled(s)]
    else if s.interrupted then [ScanStarted(s)] + CheckEntries(s.checks, s.finished) + [ScanCancelled(s)]
    else [ScanStarted(s)] + CheckEntries(s.checks, s.finished) + [ScanEnded(s, ReportsOf(s.checks))]
  }

  /** Where a check stands in the story. */
  lemma CheckInStory(s: Scan, i: nat)
    requires Possible(s) && s.devices.Returned? && i < |s.finished|
    ensures s.finished[i] < |s.checks| && ReportOf(s.checks[s.finished[i]]).Some?
    ensures |ScanStory(s)| == |s.finished| + 2 && ScanStory(s)[i + 1] == CheckEntry(ReportOf(s.checks[s.finished[i]]).value)
  {
    assert s.finished[i] in s.finished;
    assert ScanStory(s)[i + 1] == CheckEntries(s.checks, s.finished)[i];
  }

  /** None raises. */
  ghost function ScanOutcome(s: Scan): Option<ScanResult>
    requires Possible(s)
  {
    if s.devices.Raised? then None
    else if s.devices.Cancelled? || s.interrupted then Some(CancelledScan(s))
    else Some(ScanResultOf(s, ReportsOf(s.checks)))
  }

  /** `_cancel`. */
  method Cancel(trail: Trail, s: Scan, ghost base: seq<Entry>) returns (r: Option<ScanResult>)
    requires Possible(s)
    requires var n := |ScanStory(s)|; trail.Midway(base, ScanStory(s), n - 1) && ScanStory(s)[n - 1] == ScanCancelled(s)
    modifies trail`entries
    ensures r.Some? ==> trail.Told(base, ScanStory(s)) && r.value == CancelledScan(s)
    ensures r.None? ==> trail.Struck(base, ScanStory(s))
  {
    var ok := trail.Record(ScanCancelled(s), base, ScanStory(s), |ScanStory(s)| - 1);
    r := if ok then Some(CancelledScan(s)) else None;
  }

  /** One record per finished check. */
  method RecordChecks(trail: Trail, s: Scan, ghost base: seq<Entry>) returns (ok: bool)
    requires Possible(s) && s.devices.Returned? && trail.Midway(base, ScanStory(s), 1)
    modifies trail`entries
    ensures ok ==> trail.Midway(base, ScanStory(s), 1 + |s.finished|)
    ensures !ok ==> trail.Struck(base, ScanStory(s))
  {
    ghost var story := ScanStory(s);
    for i := 0 to |s.finished|
      invariant trail.Midway(base, story, 1 + i)
    {
      CheckInStory(s, i);
      var report := ReportOf(s.checks[s.finished[i]]).value;
      ok := trail.Record(CheckEntry(report), base, story, 1 + i);
      if !ok {
        return;
      }
    }
    ok := true;
  }

  /** `ScanDriftWorkflow.run`. None means that it raised. */
  method Run(trail: Trail, s: Scan) returns (r: Option<ScanResult>)
    requires Possible(s)
    modifies trail`entries
    ensures trail.Told(old(trail.entries), ScanStory(s)) || trail.Struck(old(trail.entries), ScanStory(s))
    ensures r == if trail.Told(old(trail.entries), ScanStory(s)) then ScanOutcome(s) else None
  {
    ghost var base, story := trail.entries, ScanStory(s);
    assert trail.entries == base + story[..0];
    var ok := trail.Record(ScanStarted(s), base, story, 0);
    if !ok || s.devices.Raised? {
      return None;
    }
    if s.devices.Cancelled? {
      r := Cancel(trail, s, base);
      return;
    }
    ok := RecordChecks(trail, s, base);
    if !ok {
      return None;
    }
    if s.interrupted {
      r := Cancel(trail, s, base);
      return;
    }
    var reports := ReportsOf(s.checks);
    ok := trail.Record(ScanEnded(s, reports), base, story, 1 + |s.finished|);
    r := if ok then Some(ScanResultOf(s, reports)) else None;
  }

  // ---- What a scan promises ----

  lemma {:induction false} EveryStatusCounted(reports: seq<DriftReport>)
    ensures CountOf(reports, Clean) + CountOf(reports, Drifted) + CountOf(reports, Errored) == |reports|
  {
    if reports != [] { EveryStatusCounted(reports[1..]); }
  }

  /** Each device's report in the scan is legal and carries that device's id. */
  ghost predicate OwnReports(r: ScanResult)
  {
    Valid(r.reports) && forall id :: id in r.reports.values ==> r.reports.values[id].deviceId == id && LegalReport(r.reports.values[id])
  }

  lemma OneReportEach(reports: seq<DriftReport>)
    requires NoRepeat(Map(ReportId(), reports))
    ensures var m := ReportMap(reports); Valid(m) && m.keys == Map(ReportId(), reports) && |m.values| == |reports|
  {
    BuiltDistinct(ReportId(), Itself(), reports);
  }

  lemma UnderItsOwnId(reports: seq<DriftReport>, id: Uuid)
    requires id in ReportMap(reports).values
    ensures var r := ReportMap(reports).values[id]; r in reports && r.deviceId == id
  {
    ItemValues(Empty(), ReportId(), Itself(), reports, id);
  }

  /** The reports of a finished scan are its devices', in order. */
  lemma ReportsInOrder(s: Scan, states: seq<DesiredState>)
    requires Possible(s) && !s.interrupted && s.devices == Returned(DevicesOf(states))
    requires forall i :: 0 <= i < |s.checks| ==> Honest(s.checks[i])
    ensures var reports := ReportsOf(s.checks);
            Map(ReportId(), reports) == Map(DeviceId(), DevicesOf(states)) && forall i :: 0 <= i < |reports| ==> LegalReport(reports[i])
  {
    var reports, ids := ReportsOf(s.checks), Map(DeviceId(), DevicesOf(states));
    forall i | 0 <= i < |reports| ensures ReportId()(reports[i]) == ids[i] && LegalReport(reports[i]) { OwnReport(s.checks[i]); }
    MapIs(ReportId(), reports, ids);
  }

  /** The reports of a finished scan are one per device, so its counts and its map agree. */
  lemma FinishedScan(s: Scan, states: seq<DesiredState>)
    requires Possible(s) && !s.interrupted && s.devices == Returned(DevicesOf(states))
    requires forall i :: 0 <= i < |s.checks| ==> Honest(s.checks[i])
    ensures var r := ScanResultOf(s, ReportsOf(s.checks));
            LegalScan(r) && OwnReports(r) && r.reports.keys == Map(DeviceId(), DevicesOf(states))
  {
    var reports := ReportsOf(s.checks);
    ReportsInOrder(s, states);
    DevicesAreDistinct(states);
    OneReportEach(reports);
    EveryStatusCounted(reports);
    forall id | id in ReportMap(reports).values
      ensures ReportMap(reports).values[id].deviceId == id && LegalReport(ReportMap(reports).values[id])
    {
      UnderItsOwnId(reports, id);
    }
  }

  /**
   Whatever the store answers, duplicates and other devices' states included, a scan's result
   passes its validator, holds each device once, and every report carries its own device's id.
   */
  lemma ScanIsLegal(s: Scan, states: seq<DesiredState>)
    requires Possible(s) && ScanOutcome(s).Some?
    requires s.devices.Returned? ==> s.devices.value == DevicesOf(states)
    requires forall i :: 0 <= i < |s.checks| ==> Honest(s.checks[i])
    ensures LegalScan(ScanOutcome(s).value) && OwnReports(ScanOutcome(s).value)
    ensures ScanOutcome(s).value.workflowId == s.workflowId && ScanOutcome(s).value.useCase == s.useCase
    ensures ScanOutcome(s).value.cancelled <==> s.devices.Cancelled? || s.interrupted
    ensures ScanOutcome(s).value.cancelled ==> ScanOutcome(s).value.reports.keys == [] && ScanOutcome(s).value.total == 0
    ensures !ScanOutcome(s).value.cancelled ==> ScanOutcome(s).value.reports.keys == Distinct(Map(StateId(), states))
  {
    if s.devices.Returned? && !s.interrupted {
      FinishedScan(s, states);
      DevicesAreDistinct(states);
    }
  }

  /** A finished scan says of each device what that device's stages amount to: for a check that ran through, what its detection reported. */
  lemma ScanSays(s: Scan, states: seq<DesiredState>, i: nat)
    requires Possible(s) && !s.interrupted && s.devices == Returned(DevicesOf(states)) && i < |s.checks|
    requires forall k :: 0 <= k < |s.checks| ==> Honest(s.checks[k])
    ensures ScanOutcome(s).Some? && !ScanOutcome(s).value.cancelled
    ensures var c, reports := s.checks[i], ScanOutcome(s).value.reports;
            && c.device.id in reports.values && AmountsTo(c, reports.values[c.device.id])
            && (c.fetch.Returned? && c.collect.Returned? && c.detect.Returned? ==>
                  reports.values[c.device.id] == Observed(c.fetch.value, c.collect.value))
  {
    MapHolds(s, states, i);
    ReportAmounts(s.checks[i]);
  }

  lemma ReportAmounts(c: Check)
    requires ReportOf(c).Some?
    ensures AmountsTo(c, ReportOf(c).value)
  {
  }

  /** The report map of a finished scan holds each check's report under its device's id. */
  lemma MapHolds(s: Scan, states: seq<DesiredState>, i: nat)
    requires Possible(s) && !s.interrupted && s.devices == Returned(DevicesOf(states)) && i < |s.checks|
    requires forall k :: 0 <= k < |s.checks| ==> Honest(s.checks[k])
    ensures ReportOf(s.checks[i]).Some?
    ensures var m, id := ReportMap(ReportsOf(s.checks)), s.checks[i].device.id; id in m.values && m.values[id] == ReportOf(s.checks[i]).value
  {
    OwnReport(s.checks[i]);
    ReportsInOrder(s, states);
    DevicesAreDistinct(states);
    ItemAt(ReportId(), Itself(), ReportsOf(s.checks), i);
  }

  function HasStatus(reports: map<Uuid, DriftReport>, status: DriftStatus): Uuid -> bool
  {
    (d: Uuid) => d in reports && reports[d].status == status
  }

  /** The figures count the reports held by their status. */
  predicate Figures(x: ScanResult)
  {
    && x.total == |x.reports.keys|
    && x.clean == |Filter(HasStatus(x.reports.values, Clean), x.reports.keys)|
    && x.drifted == |Filter(HasStatus(x.reports.values, Drifted), x.reports.keys)|
    && x.errored == |Filter(HasStatus(x.reports.values, Errored), x.reports.keys)|
  }

  /** A finished scan's figures are the counts of its reports. */
  lemma FiguresCount(s: Scan, states: seq<DesiredState>)
    requires Possible(s) && !s.interrupted && s.devices == Returned(DevicesOf(states))
    requires forall k :: 0 <= k < |s.checks| ==> Honest(s.checks[k])
    ensures ScanOutcome(s).Some?
    ensures Figures(ScanOutcome(s).value)
  {
    ReportsApart(s, states);
    FiguresOf(s, ReportsOf(s.checks));
  }

  /** No two reports of a finished scan are of one device. */
  lemma ReportsApart(s: Scan, states: seq<DesiredState>)
    requires Possible(s) && !s.interrupted && s.devices == Returned(DevicesOf(states))
    requires forall k :: 0 <= k < |s.checks| ==> Honest(s.checks[k])
    ensures NoRepeat(Map(ReportId(), ReportsOf(s.checks)))
  {
    ReportsInOrder(s, states);
    DevicesAreDistinct(states);
  }

  lemma FiguresOf(s: Scan, reports: seq<DriftReport>)
    requires NoRepeat(Map(ReportId(), reports))
    ensures Figures(ScanResultOf(s, reports))
  {
    OneReportEach(reports);
    StatusCount(reports, Clean);
    StatusCount(reports, Drifted);
    StatusCount(reports, Errored);
  }

  lemma StatusCount(reports: seq<DriftReport>, status: DriftStatus)
    requires NoRepeat(Map(ReportId(), reports))
    ensures CountOf(reports, status) == |Filter(HasStatus(ReportMap(reports).values, status), ReportMap(reports).keys)|
  {
    var m := ReportMap(reports);
    OneReportEach(reports);
    forall i | 0 <= i < |reports| ensures StatusTest(status)(reports[i]) <==> HasStatus(m.values, status)(m.keys[i]) {
      ItemAt(ReportId(), Itself(), reports, i);
    }
    FilterAligned(StatusTest(status), HasStatus(m.values, status), reports, m.keys);
  }

  /** A cancelled check leaves no record, and then the scan was interrupted. */
  lemma CutUnrecorded(s: Scan, i: nat)
    requires Possible(s) && s.devices.Returned? && i < |s.checks| && Cut(s.checks[i])
    ensures i !in s.finished && s.interrupted
  {
    assert ReportOf(s.checks[i]).None?;
  }

  /** Every entry is legal; a scan that returns has one record per finished device and exactly one terminal entry, its last. */
  lemma ScanTrailShape(s: Scan)
    requires Possible(s)
    ensures var story := ScanStory(s); var n := |story|;
            && (forall k :: 0 <= k < n ==> LegalEntry(story[k]))
            && (forall k :: 0 <= k < n ==> (IsTerminal(story[k]) <==> ScanOutcome(s).Some? && k == n - 1))
            && n > 0 && story[0].kind == WorkflowStarted && story[n - 1].target == Name(s.useCase)
            && (ScanOutcome(s).Some? ==> (story[n - 1].kind == WorkflowCancelled <==> ScanOutcome(s).value.cancelled))
            && (ScanOutcome(s).Some? && !ScanOutcome(s).value.cancelled ==>
                  var x := ScanOutcome(s).value; story[n - 1].payload == ScanTotals(x.total, x.clean, x.drifted, x.errored))
  {
  }

  /** A finished check is recorded against its own device, as failed iff its report errored. */
  lemma RecordsOwnDevice(s: Scan, i: nat)
    requires Possible(s) && s.devices.Returned? && i < |s.finished|
    requires forall k :: 0 <= k < |s.checks| ==> Honest(s.checks[k])
    ensures |ScanStory(s)| == |s.finished| + 2 && s.finished[i] < |s.checks|
    ensures Records(ScanStory(s)[i + 1], s.checks[s.finished[i]])
  {
    CheckInStory(s, i);
    EntryRecords(s.checks[s.finished[i]]);
  }

  lemma EntryRecords(c: Check)
    requires Honest(c) && ReportOf(c).Some?
    ensures Records(CheckEntry(ReportOf(c).value), c)
  {
    OwnReport(c);
    assert AmountsTo(c, ReportOf(c).value) && RecordsReport(CheckEntry(ReportOf(c).value), c.device.id, ReportOf(c).value);
  }

  /** The record of a check, whatever report its stages amount to. */
  ghost predicate Records(e: Entry, c: Check)
  {
    exists r :: AmountsTo(c, r) && RecordsReport(e, c.device.id, r)
  }

  predicate RecordsReport(e: Entry, device: Uuid, r: DriftReport)
  {
    && e.target == Id(device) && e.activity == Some(CheckDrift) && e.payload == Checked(r.status, PathsOf(r.items), r.error)
    && (if r.status == Errored then e.kind == ActivityFailed && e.outcome == Some(Failure)
        else e.kind == ActivityCompleted && e.outcome == Some(Success))
  }

  /** A scan that is not cancelled records every device exactly once. */
  lemma RecordsEveryDevice(s: Scan)
    requires Possible(s) && s.devices.Returned? && !s.interrupted
    ensures NoRepeat(s.finished) && |s.finished| == |s.devices.value|
    ensures forall k :: 0 <= k < |s.devices.value| ==> k in s.finished
  {
    assert forall k :: k in s.finished <==> 0 <= k < |s.checks|;
    CountsUpTo(s.finished, |s.checks|);
  }
}
