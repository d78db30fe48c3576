/** One scheduled run: scan a use case, then report or repair (workflows/drift_response.py). */
module DriftResponse {
  import opened Prelude
  import opened Dicts
  import opened Lists
  import opened Uuids
  import opened Intent
  import opened Reports
  import opened AuditEvents
  import opened Results
  import opened Trails
  import opened DeployIntent
  import R = ReconcileDevices
  import S = ScanDrift

  /** What the scan and the reconcile children come to, seen from the run. */
  datatype ScanChild = Scanned(scan: ScanResult) | ScanCancelled | ScanFailed(error: string)

  datatype RepairChild = RepairDone(result: ReconcileResult) | RepairCancelled | RepairBroke(error: string)

  datatype Response = Response(
    workflowId: string, useCase: string, scheduleId: string, mode: Mode,
    scan: ScanChild, repair: RepairChild, startedAt: int, endedAt: int)

  /** The run got past its scan. */
  predicate Evaluated(p: Response) { p.scan.Scanned? && !p.scan.scan.cancelled }

  function Remediated(p: Response): seq<Uuid>
    requires Evaluated(p)
  {
    if p.mode == Remediate then Repairs(p.scan.scan) else []
  }

  function LeftOut(p: Response): Dict<Uuid, Exclusion>
    requires Evaluated(p)
  {
    if p.mode == Remediate then Excluded(p.scan.scan) else Empty()
  }

  /** The reconcile's result, if the run started one and it returned. */
  function Reconciled(p: Response): Option<ReconcileResult>
    requires Evaluated(p)
  {
    if Remediated(p) != [] && p.repair.RepairDone? then Some(p.repair.result) else None
  }

  predicate RepairFails(p: Response)
    requires Evaluated(p)
  {
    Remediated(p) != [] && !p.repair.RepairDone?
  }

  function ReconcileId(p: Response): Option<string>
    requires Evaluated(p)
  {
    if Remediated(p) != [] then Some(p.workflowId + "-reconcile") else None
  }

  // ---- Records ----

  function Actor(p: Response): Option<string> { Some("schedule:" + p.scheduleId) }

  function RunEntry(p: Response, kind: EventType, outcome: Option<OutcomeWord>, reason: Option<Reason>, payload: Payload): Entry
  {
    Entry(Name(p.useCase), kind, None, outcome, reason, payload, Actor(p))
  }

  function FailedEnd(p: Response, reason: Reason, error: string): Entry
  {
    RunEntry(p, WorkflowTerminated, Some(Failure), Some(reason), Error(error))
  }

  function CancelledEnd(p: Response): Entry { RunEntry(p, WorkflowCancelled, Some(AuditEvents.Cancelled), None, NoPayload) }

  function Opening(p: Response): Entry { RunEntry(p, WorkflowStarted, None, None, RunMode(p.mode)) }

  /** `_remediation_result`. */
  function Word(reconcile: Option<ReconcileResult>, device: Uuid): RepairWord
  {
    if reconcile.None? then RepairUnknown
    else if device !in reconcile.value.deviceResults then RepairSkipped
    else if reconcile.value.deviceResults[device].success then RepairSucceeded
    else RepairFailed
  }

  function PathsFor(s: ScanResult, device: Uuid): seq<string>
  {
    if device in s.reports.values then PathsOf(s.reports.values[device].items) else []
  }

  /** The report's error, recorded only when there is one. */
  function ErrorFor(s: ScanResult, device: Uuid): Option<string>
  {
    if device in s.reports.values && s.reports.values[device].error.Some? && s.reports.values[device].error.value != ""
    then s.reports.values[device].error else None
  }

  function DecisionEntry(p: Response, device: Uuid, payload: Payload): Entry
  {
    Entry(Id(device), DriftResponded, None, None, None, payload, Actor(p))
  }

  function RepairedEntry(p: Response): Uuid -> Entry
    requires Evaluated(p)
  {
    var s, reconcile, id := p.scan.scan, Reconciled(p), ReconcileId(p);
    (d: Uuid) => DecisionEntry(p, d, Payload.Repaired(s.workflowId, id, Word(reconcile, d), PathsFor(s, d)))
  }

  function LeftAloneEntry(p: Response): Uuid -> Entry
    requires Evaluated(p)
  {
    var s, why := p.scan.scan, LeftOut(p).values;
    (d: Uuid) => DecisionEntry(p, d, LeftAlone(if d in why then why[d] else ErroredDevice, s.workflowId, PathsFor(s, d), ErrorFor(s, d)))
  }

  /** `_device_payloads`: one record per repaired device, then one per excluded device. */
  function Decisions(p: Response): seq<Entry>
    requires Evaluated(p)
  {
    Map(RepairedEntry(p), Remediated(p)) + Map(LeftAloneEntry(p), LeftOut(p).keys)
  }

  function ExcludedFor(d: Dict<Uuid, Exclusion>, why: Exclusion): Uuid -> bool
  {
    (u: Uuid) => u in d.values && d.values[u] == why
  }

  function UseCaseEntry(p: Response): Entry
    requires Evaluated(p)
  {
    var s, left := p.scan.scan, LeftOut(p);
    RunEntry(p, DriftResponded, None, None,
             UseCase(p.mode, s.workflowId, s.clean, s.drifted, s.errored, |Remediated(p)|,
                     R.Tally(ExcludedFor(left, UndesiredOnly), left.keys), R.Tally(ExcludedFor(left, ErroredDevice), left.keys),
                     ReconcileId(p)))
  }

  /** `_record_end` of a reconcile that did not return, or the success record. */
  function Closing(p: Response): Entry
    requires Evaluated(p)
  {
    if !RepairFails(p) then RunEntry(p, WorkflowTerminated, Some(Success), Some(Succeeded), NoPayload)
    else if p.repair.RepairCancelled? then CancelledEnd(p)
    else FailedEnd(p, RemediationFailed, p.repair.error)
  }

  function NotEvaluated(scan: ScanResult): string { "scan " + scan.workflowId + " was cancelled; nothing was evaluated" }

  function Story(p: Response): seq<Entry>
  {
    if Evaluated(p) then [Opening(p)] + Decisions(p) + [UseCaseEntry(p), Closing(p)]
    else [Opening(p),
          match p.scan {
            case ScanCancelled => CancelledEnd(p)
            case ScanFailed(error) => FailedEnd(p, IntentUnavailable, error)
            case Scanned(scan) => FailedEnd(p, RunCancelled, NotEvaluated(scan))
          }]
  }

  function ResultOf(p: Response): ResponseResult
    requires Evaluated(p)
  {
    ResponseResult(p.workflowId, p.scheduleId, p.useCase, p.mode, p.scan.scan, Remediated(p), LeftOut(p), Reconciled(p), p.startedAt, p.endedAt)
  }

  /** The story of a run without a usable scan. */
  lemma EarlyStory(p: Response)
    requires !Evaluated(p)
    ensures |Story(p)| == 2 && Story(p)[0] == Opening(p)
    ensures p.scan.ScanCancelled? ==> Story(p)[1] == CancelledEnd(p)
    ensures p.scan.ScanFailed? ==> Story(p)[1] == FailedEnd(p, IntentUnavailable, p.scan.error)
    ensures p.scan.Scanned? ==> Story(p)[1] == FailedEnd(p, RunCancelled, NotEvaluated(p.scan.scan))
  {
  }

  // ---- The workflow ----

  /** Count the excluded devices by reason. */
  method CountExcluded(d: Dict<Uuid, Exclusion>) returns (undesired: nat, errored: nat)
    requires Valid(d)
    ensures undesired == R.Tally(ExcludedFor(d, UndesiredOnly), d.keys)
    ensures errored == R.Tally(ExcludedFor(d, ErroredDevice), d.keys)
  {
    undesired, errored := 0, 0;
    assert d.keys[0..] == d.keys;
    for i := 0 to |d.keys|
      invariant undesired + R.Tally(ExcludedFor(d, UndesiredOnly), d.keys[i..]) == R.Tally(ExcludedFor(d, UndesiredOnly), d.keys)
      invariant errored + R.Tally(ExcludedFor(d, ErroredDevice), d.keys[i..]) == R.Tally(ExcludedFor(d, ErroredDevice), d.keys)
    {
      R.TallyStep(ExcludedFor(d, UndesiredOnly), d.keys, i);
      R.TallyStep(ExcludedFor(d, ErroredDevice), d.keys, i);
      assert d.keys[i] in d.keys;
      if d.values[d.keys[i]] == UndesiredOnly {
        undesired := undesired + 1;
      } else {
        errored := errored + 1;
      }
    }
  }

  /** A story tells the given entries from place `from` on. */
  ghost predicate TellsFrom(story: seq<Entry>, from: nat, entries: seq<Entry>)
  {
    from + |entries| <= |story| && story[from..from + |entries|] == entries
  }

  lemma ToldAt(story: seq<Entry>, from: nat, entries: seq<Entry>, i: nat)
    requires TellsFrom(story, from, entries) && i < |entries|
    ensures from + i < |story| && story[from + i] == entries[i]
  {
    assert story[from..from + |entries|][i] == story[from + i];
  }

  method RecordRepaired(trail: Trail, p: Response, remediated: seq<Uuid>, ghost base: seq<Entry>, ghost story: seq<Entry>) returns (ok: bool)
    requires Evaluated(p) && TellsFrom(story, 1, Map(RepairedEntry(p), remediated)) && trail.Midway(base, story, 1)
    modifies trail`entries
    ensures ok ==> trail.Midway(base, story, 1 + |remediated|)
    ensures !ok ==> trail.Struck(base, story)
  {
    for i := 0 to |remediated|
      invariant trail.Midway(base, story, 1 + i)
    {
      ToldAt(story, 1, Map(RepairedEntry(p), remediated), i);
      ok := trail.Record(RepairedEntry(p)(remediated[i]), base, story, 1 + i);
      if !ok {
        return;
      }
    }
    ok := true;
  }

  method RecordLeftAlone(trail: Trail, p: Response, excluded: seq<Uuid>, ghost base: seq<Entry>, ghost story: seq<Entry>, ghost from: nat)
    returns (ok: bool)
    requires Evaluated(p) && TellsFrom(story, from, Map(LeftAloneEntry(p), excluded)) && trail.Midway(base, story, from)
    modifies trail`entries
    ensures ok ==> trail.Midway(base, story, from + |excluded|)
    ensures !ok ==> trail.Struck(base, story)
  {
    for i := 0 to |excluded|
      invariant trail.Midway(base, story, from + i)
    {
      ToldAt(story, from, Map(LeftAloneEntry(p), excluded), i);
      ok := trail.Record(LeftAloneEntry(p)(excluded[i]), base, story, from + i);
      if !ok {
        return;
      }
    }
    ok := true;
  }

  /** The decision records: the repaired devices in order, then those left alone. */
  method RecordDecisions(trail: Trail, p: Response, remediated: seq<Uuid>, excluded: Dict<Uuid, Exclusion>, ghost base: seq<Entry>)
    returns (ok: bool)
    requires Evaluated(p) && remediated == Remediated(p) && excluded == LeftOut(p) && trail.Midway(base, Story(p), 1)
    modifies trail`entries
    ensures ok ==> trail.Midway(base, Story(p), 1 + |Decisions(p)|)
    ensures !ok ==> trail.Struck(base, Story(p))
  {
    DecisionsInStory(p);
    ok := RecordRepaired(trail, p, remediated, base, Story(p));
    if ok {
      ok := RecordLeftAlone(trail, p, excluded.keys, base, Story(p), 1 + |remediated|);
    }
  }

  lemma DecisionsInStory(p: Response)
    requires Evaluated(p)
    ensures |Decisions(p)| == |Remediated(p)| + |LeftOut(p).keys|
    ensures TellsFrom(Story(p), 1, Map(RepairedEntry(p), Remediated(p)))
    ensures TellsFrom(Story(p), 1 + |Remediated(p)|, Map(LeftAloneEntry(p), LeftOut(p).keys))
  {
  }

  /** Where a decision stands in the story. */
  lemma DecisionAt(p: Response, k: nat)
    requires Evaluated(p) && k < |Remediated(p)| + |LeftOut(p).keys|
    ensures |Decisions(p)| == |Remediated(p)| + |LeftOut(p).keys| && |Story(p)| == |Decisions(p)| + 3
    ensures Story(p)[k + 1] == Decisions(p)[k]
    ensures Decisions(p)[k] == if k < |Remediated(p)| then RepairedEntry(p)(Remediated(p)[k])
                               else LeftAloneEntry(p)(LeftOut(p).keys[k - |Remediated(p)|])
  {
  }

  /** The use-case summary. */
  method Summarise(trail: Trail, p: Response, ghost base: seq<Entry>) returns (ok: bool)
    requires Evaluated(p) && Valid(LeftOut(p)) && trail.Midway(base, Story(p), 1 + |Decisions(p)|)
    modifies trail`entries
    ensures ok ==> trail.Midway(base, Story(p), 2 + |Decisions(p)|)
    ensures !ok ==> trail.Struck(base, Story(p))
  {
    var scan, remediated, excluded := p.scan.scan, Remediated(p), LeftOut(p);
    var undesired, errored := CountExcluded(excluded);
    var payload := UseCase(p.mode, scan.workflowId, scan.clean, scan.drifted, scan.errored, |remediated|, undesired, errored, ReconcileId(p));
    ok := trail.Record(RunEntry(p, DriftResponded, None, None, payload), base, Story(p), 1 + |Decisions(p)|);
  }

  /** The last record; a reconcile that did not return is raised again after it. */
  method Finish(trail: Trail, p: Response, ghost base: seq<Entry>) returns (r: Option<ResponseResult>)
    requires Evaluated(p) && trail.Midway(base, Story(p), 2 + |Decisions(p)|)
    modifies trail`entries
    ensures trail.Told(base, Story(p)) || trail.Struck(base, Story(p))
    ensures r == if trail.Told(base, Story(p)) && !RepairFails(p) then Some(ResultOf(p)) else None
  {
    if RepairFails(p) {
      var end := if p.repair.RepairCancelled? then CancelledEnd(p) else FailedEnd(p, RemediationFailed, p.repair.error);
      var _ := trail.Record(end, base, Story(p), 2 + |Decisions(p)|);
      return None;
    }
    var ok := trail.Record(RunEntry(p, WorkflowTerminated, Some(Success), Some(Succeeded), NoPayload), base, Story(p), 2 + |Decisions(p)|);
    r := if ok then Some(ResultOf(p)) else None;
  }

  /** What the run decides: REPORT decides nothing. */
  method Decide(p: Response) returns (remediated: seq<Uuid>, excluded: Dict<Uuid, Exclusion>)
    requires Evaluated(p) && Valid(p.scan.scan.reports)
    ensures remediated == Remediated(p) && excluded == LeftOut(p)
  {
    remediated, excluded := [], Empty();
    if p.mode == Remediate {
      remediated, excluded := SelectRemediation(p.scan.scan);
    }
  }

  /** What follows a usable scan. */
  method Respond(trail: Trail, p: Response, ghost base: seq<Entry>) returns (r: Option<ResponseResult>)
    requires Evaluated(p) && Valid(p.scan.scan.reports) && Valid(LeftOut(p)) && trail.Midway(base, Story(p), 1)
    modifies trail`entries
    ensures trail.Told(base, Story(p)) || trail.Struck(base, Story(p))
    ensures r == if trail.Told(base, Story(p)) && !RepairFails(p) then Some(ResultOf(p)) else None
  {
    var remediated, excluded := Decide(p);
    var ok := RecordDecisions(trail, p, remediated, excluded, base);
    if !ok {
      return None;
    }
    ok := Summarise(trail, p, base);
    if !ok {
      return None;
    }
    r := Finish(trail, p, base);
  }

  /** The first record. */
  method Begin(trail: Trail, p: Response) returns (ok: bool)
    modifies trail`entries
    ensures ok ==> trail.Midway(old(trail.entries), Story(p), 1)
    ensures !ok ==> trail.Struck(old(trail.entries), Story(p))
  {
    assert trail.entries == old(trail.entries) + Story(p)[..0];
    ok := trail.Record(Opening(p), trail.entries, Story(p), 0);
  }

  /** The end of a run without a usable scan: the workflow raises after recording it. */
  method EndEarly(trail: Trail, p: Response, ghost base: seq<Entry>)
    requires !Evaluated(p) && trail.Midway(base, Story(p), 1)
    modifies trail`entries
    ensures trail.Told(base, Story(p)) || trail.Struck(base, Story(p))
  {
    EarlyStory(p);
    var end := match p.scan
      case ScanCancelled => CancelledEnd(p)
      case ScanFailed(error) => FailedEnd(p, IntentUnavailable, error)
      case Scanned(scan) => FailedEnd(p, RunCancelled, NotEvaluated(scan));
    var _ := trail.Record(end, base, Story(p), 1);
  }

  /** `DriftResponseWorkflow.run`. None means that it raised. */
  method Run(trail: Trail, p: Response) returns (r: Option<ResponseResult>)
    requires p.scan.Scanned? ==> WellFormed(p.scan.scan)
    modifies trail`entries
    ensures trail.Told(old(trail.entries), Story(p)) || trail.Struck(old(trail.entries), Story(p))
    ensures r == if trail.Told(old(trail.entries), Story(p)) && Evaluated(p) && !RepairFails(p) then Some(ResultOf(p)) else None
  {
    ghost var base := trail.entries;
    var ok := Begin(trail, p);
    if !ok {
      return None;
    }
    if !p.scan.Scanned? || p.scan.scan.cancelled {
      EndEarly(trail, p, base);
      return None;
    }
    SplitIsExact(p.scan.scan);
    r := Respond(trail, p, base);
  }

  // ---- What a run promises ----

  /** The devices a run decides about: the repaired ones, then those left alone. */
  function Decided(p: Response): seq<Uuid>
    requires Evaluated(p)
  {
    Remediated(p) + LeftOut(p).keys
  }

  lemma DecisionTargets(p: Response, k: nat)
    requires Evaluated(p) && k < |Decided(p)|
    ensures Decisions(p)[k].target == Id(Decided(p)[k]) && Decisions(p)[k].kind == DriftResponded && LegalEntry(Decisions(p)[k])
    ensures Decisions(p)[k].payload.Repaired? <==> k < |Remediated(p)|
  {
    DecisionAt(p, k);
  }

  /** Every device is decided about at most once, and exactly the devices with something to decide are. */
  lemma DecidedOnce(p: Response)
    requires Evaluated(p) && WellFormed(p.scan.scan)
    ensures NoRepeat(Decided(p))
    ensures forall d :: d in Decided(p) <==>
              p.mode == Remediate && d in p.scan.scan.reports.values && p.scan.scan.reports.values[d].status != Clean
  {
    var s := p.scan.scan;
    SplitIsExact(s);
    if p.mode == Remediate {
      assert forall d :: d in Decided(p) <==> d in Repairs(s) || d in Excluded(s).keys;
    }
  }

  /** What a decision record says: the report it rests on, and for a device left alone, why. */
  lemma DecisionSays(p: Response, k: nat)
    requires Evaluated(p) && WellFormed(p.scan.scan) && k < |Decided(p)| && Decided(p)[k] in p.scan.scan.reports.values
    ensures var s, payload := p.scan.scan, Decisions(p)[k].payload; var report := s.reports.values[Decided(p)[k]];
            if k < |Remediated(p)|
            then HasForwardDrift(report) && payload == Payload.Repaired(s.workflowId, Some(p.workflowId + "-reconcile"),
                                                                        Word(Reconciled(p), Decided(p)[k]), PathsOf(report.items))
            else payload.LeftAlone? && payload.scan == s.workflowId && payload.paths == PathsOf(report.items)
                 && Some(payload.why) == ExclusionFor(report) && payload.error == (if Truthy(report.error) then report.error else None)
    ensures Decisions(p)[k].actor == Some("schedule:" + p.scheduleId)
  {
    DecisionAt(p, k);
    SplitIsExact(p.scan.scan);
    if k < |Remediated(p)| {
      assert Decided(p)[k] in Remediated(p);
    } else {
      assert Decided(p)[k] in LeftOut(p).keys;
    }
  }

  /** A legal decision record about a device. */
  predicate DecidesAbout(e: Entry, d: Uuid) { e.target == Id(d) && e.kind == DriftResponded && LegalEntry(e) }

  /**
   A run that gets past its scan, even one whose reconcile failed or was cancelled, records its
   start, one decision per decided device in order, one use-case summary, and one terminal entry.
   */
  lemma ResponseTrail(p: Response)
    requires Evaluated(p)
    ensures var story := Story(p); var n := |Decided(p)|;
            && |story| == n + 3 && story[0] == Opening(p) && story[n + 1] == UseCaseEntry(p) && story[n + 2] == Closing(p)
            && (forall k :: 0 <= k < n ==> DecidesAbout(story[k + 1], Decided(p)[k]))
            && (forall k :: 0 <= k < |story| ==> (IsTerminal(story[k]) <==> k == n + 2))
            && LegalEntry(story[0]) && LegalEntry(story[n + 1]) && LegalEntry(story[n + 2])
  {
    var story, n := Story(p), |Decided(p)|;
    assert |Decisions(p)| == n;
    forall k | 0 <= k < n ensures DecidesAbout(story[k + 1], Decided(p)[k]) {
      DecisionAt(p, k);
      DecisionTargets(p, k);
    }
    forall k | 0 <= k < |story| ensures IsTerminal(story[k]) <==> k == n + 2 {
      if 0 < k <= n { assert DecidesAbout(story[(k - 1) + 1], Decided(p)[k - 1]); }
    }
  }

  /** A run that never got a usable scan records its end and nothing else. */
  lemma UnevaluatedTrail(p: Response)
    requires !Evaluated(p)
    ensures |Story(p)| == 2 && LegalEntry(Story(p)[0]) && LegalEntry(Story(p)[1])
    ensures IsTerminal(Story(p)[1]) && !IsTerminal(Story(p)[0]) && Story(p)[1].outcome != Some(Success)
  {
  }

  /** Every run's entries are legal, and its one terminal entry is the last. */
  lemma OneTerminalEntry(p: Response)
    ensures var story := Story(p); var n := |story|;
            n >= 2 && forall k :: 0 <= k < n ==> LegalEntry(story[k]) && (IsTerminal(story[k]) <==> k == n - 1)
  {
    if Evaluated(p) {
      ResponseTrail(p);
      var story, n := Story(p), |Decided(p)|;
      forall k | 0 <= k < |story| ensures LegalEntry(story[k]) {
        if 0 < k <= n { assert DecidesAbout(story[(k - 1) + 1], Decided(p)[k - 1]); }
      }
    } else {
      UnevaluatedTrail(p);
    }
  }

  /** A REPORT run never consults a reconcile. */
  lemma ReportNeverRepairs(p: Response, repair: RepairChild)
    requires p.mode == Report && Evaluated(p)
    ensures Story(p.(repair := repair)) == Story(p) && ResultOf(p.(repair := repair)) == ResultOf(p)
    ensures Decided(p) == [] && !RepairFails(p) && ResultOf(p).reconcile == None
  {
    var q := p.(repair := repair);
    assert Decisions(p) == [] && Decisions(q) == [];
    assert LeftOut(p) == LeftOut(q) && UseCaseEntry(p) == UseCaseEntry(q);
  }

  // ---- Against the reconcile ----

  /** The reconcile child ran on the devices this run handed it. */
  ghost predicate RepairedBy(p: Response, r: R.Reconcile)
    requires Evaluated(p)
  {
    r.deviceIds == Remediated(p) && p.repair == RepairDone(R.ResultOf(r))
  }

  function OutcomeTest(w: RepairWord): Entry -> bool { (e: Entry) => e.payload.Repaired? && e.payload.outcome == w }

  function WordTest(reconcile: Option<ReconcileResult>, w: RepairWord): Uuid -> bool { (d: Uuid) => Word(reconcile, d) == w }

  lemma {:induction false} NoneRepaired(p: Response, w: RepairWord, devices: seq<Uuid>)
    requires Evaluated(p)
    ensures Filter(OutcomeTest(w), Map(LeftAloneEntry(p), devices)) == []
  {
    if devices != [] {
      NoneRepaired(p, w, devices[1..]);
      assert Map(LeftAloneEntry(p), devices)[1..] == Map(LeftAloneEntry(p), devices[1..]);
    }
  }

  /** The decision records with a given result are those of the repaired devices with that result. */
  lemma WordCount(p: Response, w: RepairWord)
    requires Evaluated(p)
    ensures |Filter(OutcomeTest(w), Decisions(p))| == R.Tally(WordTest(Reconciled(p), w), Remediated(p))
  {
    var repaired := Map(RepairedEntry(p), Remediated(p));
    FilterConcat(OutcomeTest(w), repaired, Map(LeftAloneEntry(p), LeftOut(p).keys));
    NoneRepaired(p, w, LeftOut(p).keys);
    FilterMap(RepairedEntry(p), WordTest(Reconciled(p), w), OutcomeTest(w), Remediated(p));
  }

  lemma SameWords(r: R.Reconcile, d: Uuid)
    requires d in R.Targets(r)
    ensures var x := Some(R.ResultOf(r));
            && (Word(x, d) == RepairSucceeded <==> R.Succeeds(r)(d)) && (Word(x, d) == RepairFailed <==> R.Fails(r)(d))
            && (Word(x, d) == RepairSkipped <==> R.Skips(r)(d))
  {
  }

  /** The tests the reconcile counts by, for the words that a record uses. */
  function TestOf(r: R.Reconcile, w: RepairWord): Uuid -> bool
  {
    match w
    case RepairSucceeded => R.Succeeds(r)
    case RepairFailed => R.Fails(r)
    case RepairSkipped => R.Skips(r)
    case RepairUnknown => (d: Uuid) => false
  }

  lemma SameTest(r: R.Reconcile, w: RepairWord, d: Uuid)
    requires d in R.Targets(r)
    ensures WordTest(Some(R.ResultOf(r)), w)(d) <==> TestOf(r, w)(d)
  {
    SameWords(r, d);
  }

  lemma WordTally(p: Response, r: R.Reconcile, w: RepairWord)
    requires Evaluated(p) && Remediated(p) != [] && RepairedBy(p, r) && R.Targets(r) == Remediated(p)
    ensures |Filter(OutcomeTest(w), Decisions(p))| == R.Tally(TestOf(r, w), Remediated(p))
  {
    forall d | d in Remediated(p) ensures WordTest(Reconciled(p), w)(d) <==> TestOf(r, w)(d) { SameTest(r, w, d); }
    WordTallies(p, w, TestOf(r, w));
  }

  lemma RepairTargets(p: Response, r: R.Reconcile)
    requires Evaluated(p) && WellFormed(p.scan.scan) && RepairedBy(p, r)
    ensures R.Targets(r) == Remediated(p)
  {
    SplitIsExact(p.scan.scan);
    DistinctKeeps(Remediated(p));
  }

  lemma TalliesOfReturned(p: Response, r: R.Reconcile)
    requires Evaluated(p) && WellFormed(p.scan.scan) && Remediated(p) != [] && RepairedBy(p, r)
    ensures |Filter(OutcomeTest(RepairSucceeded), Decisions(p))| == p.repair.result.succeeded
    ensures |Filter(OutcomeTest(RepairFailed), Decisions(p))| == p.repair.result.failed
    ensures |Filter(OutcomeTest(RepairSkipped), Decisions(p))| == p.repair.result.skipped
  {
    RepairTargets(p, r);
    WordTally(p, r, RepairSucceeded);
    WordTally(p, r, RepairFailed);
    WordTally(p, r, RepairSkipped);
  }

  lemma NoneUnknown(p: Response, r: R.Reconcile)
    requires Evaluated(p) && WellFormed(p.scan.scan) && Remediated(p) != [] && RepairedBy(p, r)
    ensures |Filter(OutcomeTest(RepairUnknown), Decisions(p))| == 0
  {
    RepairTargets(p, r);
    WordTally(p, r, RepairUnknown);
    FilterNothing(TestOf(r, RepairUnknown), Remediated(p));
  }

  lemma WordTallies(p: Response, w: RepairWord, test: Uuid -> bool)
    requires Evaluated(p) && forall d :: d in Remediated(p) ==> (WordTest(Reconciled(p), w)(d) <==> test(d))
    ensures |Filter(OutcomeTest(w), Decisions(p))| == R.Tally(test, Remediated(p))
  {
    WordCount(p, w);
    FilterSame(WordTest(Reconciled(p), w), test, Remediated(p));
  }

  /** When the reconcile returned, the recorded results count to exactly its totals. */
  lemma CountsMatch(p: Response, r: R.Reconcile)
    requires Evaluated(p) && WellFormed(p.scan.scan) && Remediated(p) != [] && RepairedBy(p, r)
    ensures var x := p.repair.result;
            && |Filter(OutcomeTest(RepairSucceeded), Decisions(p))| == x.succeeded
            && |Filter(OutcomeTest(RepairFailed), Decisions(p))| == x.failed
            && |Filter(OutcomeTest(RepairSkipped), Decisions(p))| == x.skipped
            && |Filter(OutcomeTest(RepairUnknown), Decisions(p))| == 0
  {
    TalliesOfReturned(p, r);
    NoneUnknown(p, r);
  }

  /** When it did not return, every repaired device's result is recorded as unknown. */
  lemma UnknownWhenBroken(p: Response)
    requires Evaluated(p) && RepairFails(p)
    ensures |Filter(OutcomeTest(RepairUnknown), Decisions(p))| == |Remediated(p)|
  {
    WordCount(p, RepairUnknown);
    FilterAll(WordTest(Reconciled(p), RepairUnknown), Remediated(p));
  }

  /**
   No run builds an object its own validator rejects: on any legal scan and any reconcile of the
   devices selected from it, the result and the summary made of it are legal.
   */
  lemma ResponseIsLegal(p: Response, r: R.Reconcile)
    requires Evaluated(p) && WellFormed(p.scan.scan) && p.startedAt <= p.endedAt && !RepairFails(p)
    requires Remediated(p) != [] ==> RepairedBy(p, r)
    ensures LegalResponse(ResultOf(p)) && LegalSummary(Summary(ResultOf(p)))
    ensures Reconciled(p).Some? ==> LegalReconcile(Reconciled(p).value)
  {
    SplitIsExact(p.scan.scan);
    DistinctKeeps(Remediated(p));
    if Remediated(p) != [] { R.TotalsConserved(r); }
  }

  // ---- The summary against the scan ----

  function ForwardTest(): DriftReport -> bool { (r: DriftReport) => HasForwardDrift(r) }

  function ExclusionTest(why: Exclusion): DriftReport -> bool { (r: DriftReport) => ExclusionFor(r) == Some(why) }

  /** In a finished scan the report under the i-th key is the i-th report. */
  lemma ReportUnderKey(reports: seq<DriftReport>, i: nat)
    requires i < |reports| && NoRepeat(Map(S.ReportId(), reports))
    ensures var m := S.ReportMap(reports);
            |m.keys| == |reports| && m.keys[i] in m.values && m.values[m.keys[i]] == reports[i]
  {
    S.OneReportEach(reports);
    ItemAt(S.ReportId(), S.Itself(), reports, i);
    assert Map(S.ReportId(), reports)[i] == S.ReportId()(reports[i]);
  }

  lemma RepairsAreForward(s: ScanResult, reports: seq<DriftReport>)
    requires s.reports == S.ReportMap(reports) && NoRepeat(Map(S.ReportId(), reports))
    ensures |Repairs(s)| == |Filter(ForwardTest(), reports)|
  {
    var keys := s.reports.keys;
    S.OneReportEach(reports);
    forall i | 0 <= i < |keys| ensures RepairTest(s.reports.values)(keys[i]) <==> ForwardTest()(reports[i]) { ReportUnderKey(reports, i); }
    FilterAligned(RepairTest(s.reports.values), ForwardTest(), keys, reports);
  }

  /** The dict of exclusions holds a scanned device under a reason exactly when its report gives that reason. */
  lemma ExcludedWhy(s: ScanResult, device: Uuid, why: Exclusion)
    requires device in s.reports.keys && device in s.reports.values
    ensures ExcludedFor(Excluded(s), why)(device) <==> ExclusionFor(s.reports.values[device]) == Some(why)
  {
    assert Excluded(s).values == Exclusions(s.reports.keys, s.reports.values);
  }

  lemma ExcludedAt(s: ScanResult, reports: seq<DriftReport>, why: Exclusion, i: nat)
    requires s.reports == S.ReportMap(reports) && NoRepeat(Map(S.ReportId(), reports)) && i < |reports|
    ensures |s.reports.keys| == |reports|
    ensures var key := s.reports.keys[i];
            && (ExcludedFor(Excluded(s), why)(key) <==> ExclusionTest(why)(reports[i]))
            && (ExcludedFor(Excluded(s), why)(key) ==> ExcludeTest(s.reports.values)(key))
  {
    ReportUnderKey(reports, i);
    ExcludedWhy(s, s.reports.keys[i], why);
  }

  lemma ExcludedByReason(s: ScanResult, reports: seq<DriftReport>, why: Exclusion)
    requires s.reports == S.ReportMap(reports) && NoRepeat(Map(S.ReportId(), reports))
    ensures R.Tally(ExcludedFor(Excluded(s), why), Excluded(s).keys) == |Filter(ExclusionTest(why), reports)|
  {
    var keys, test := s.reports.keys, ExcludedFor(Excluded(s), why);
    S.OneReportEach(reports);
    forall i | 0 <= i < |keys|
      ensures (test(keys[i]) <==> ExcludeTest(s.reports.values)(keys[i]) && test(keys[i])) && (test(keys[i]) <==> ExclusionTest(why)(reports[i]))
    {
      ExcludedAt(s, reports, why, i);
    }
    FilterTwice(ExcludeTest(s.reports.values), test, test, keys);
    FilterAligned(test, ExclusionTest(why), keys, reports);
  }

  /** Drifted reports are forward or undesired-only, and the excluded rest errored. */
  lemma ReportsByStatus(reports: seq<DriftReport>)
    ensures |Filter(ForwardTest(), reports)| + |Filter(ExclusionTest(UndesiredOnly), reports)| == S.CountOf(reports, Drifted)
    ensures |Filter(ExclusionTest(ErroredDevice), reports)| == S.CountOf(reports, Errored)
  {
    FilterSplit(ForwardTest(), ExclusionTest(UndesiredOnly), S.StatusTest(Drifted), reports);
    FilterSame(ExclusionTest(ErroredDevice), S.StatusTest(Errored), reports);
  }

  /** The selection from a finished scan accounts for every drifted and every errored report. */
  lemma SelectionAccounts(s: ScanResult, reports: seq<DriftReport>)
    requires s.reports == S.ReportMap(reports) && NoRepeat(Map(S.ReportId(), reports))
    ensures |Repairs(s)| + R.Tally(ExcludedFor(Excluded(s), UndesiredOnly), Excluded(s).keys) == S.CountOf(reports, Drifted)
    ensures R.Tally(ExcludedFor(Excluded(s), ErroredDevice), Excluded(s).keys) == S.CountOf(reports, Errored)
  {
    RepairsAreForward(s, reports);
    ExcludedByReason(s, reports, UndesiredOnly);
    ExcludedByReason(s, reports, ErroredDevice);
    ReportsByStatus(reports);
  }

  lemma SummaryFields(p: Response)
    requires Evaluated(p) && p.mode == Remediate
    ensures var x, s := UseCaseEntry(p).payload, p.scan.scan;
            && x.clean == s.clean && x.drifted == s.drifted && x.errored == s.errored && x.remediated == |Repairs(s)|
            && x.undesiredOnly == R.Tally(ExcludedFor(Excluded(s), UndesiredOnly), Excluded(s).keys)
            && x.erroredOnes == R.Tally(ExcludedFor(Excluded(s), ErroredDevice), Excluded(s).keys)
  {
  }

  /** The scan holds these reports, one per device, and counts them by status. */
  predicate Counts(s: ScanResult, reports: seq<DriftReport>)
  {
    && s.reports == S.ReportMap(reports) && NoRepeat(Map(S.ReportId(), reports))
    && s.clean == S.CountOf(reports, Clean) && s.drifted == S.CountOf(reports, Drifted) && s.errored == S.CountOf(reports, Errored)
  }

  /** A finished scan counts its reports. */
  lemma FinishedScanCounts(s: S.Scan, states: seq<DesiredState>)
    requires S.Possible(s) && !s.interrupted && s.devices == Returned(S.DevicesOf(states))
    requires forall i :: 0 <= i < |s.checks| ==> S.Honest(s.checks[i])
    ensures Counts(S.ScanResultOf(s, S.ReportsOf(s.checks)), S.ReportsOf(s.checks))
  {
    S.ReportsInOrder(s, states);
    S.DevicesAreDistinct(states);
  }

  /**
   The summary of a REMEDIATE run accounts for every device of its scan: the repaired and the
   undesired-only ones are the drifted ones, and the errored ones are left alone.
   */
  lemma SummaryAddsUp(p: Response, reports: seq<DriftReport>)
    requires Evaluated(p) && p.mode == Remediate && Counts(p.scan.scan, reports)
    ensures var x := UseCaseEntry(p).payload;
            && x.remediated + x.undesiredOnly == x.drifted && x.erroredOnes == x.errored
            && x.clean + x.remediated + x.undesiredOnly + x.erroredOnes == |reports|
  {
    SummaryFields(p);
    SelectionAccounts(p.scan.scan, reports);
    S.EveryStatusCounted(reports);
  }

  /** Some device of the scan shows forward drift, in a run that is to repair. */
  predicate HasRepair(p: Response)
    requires Evaluated(p)
  {
    p.mode == Remediate && exists d :: d in p.scan.scan.reports.values && HasForwardDrift(p.scan.scan.reports.values[d])
  }

  lemma RepairExactly(p: Response)
    requires Evaluated(p) && WellFormed(p.scan.scan)
    ensures Remediated(p) != [] <==> HasRepair(p)
  {
    SplitIsExact(p.scan.scan);
    if Remediated(p) != [] { assert Remediated(p)[0] in Remediated(p); }
  }

  predicate EndsAs(e: Entry, kind: EventType, outcome: OutcomeWord, reason: Option<Reason>, payload: Payload)
  {
    e.kind == kind && e.outcome == Some(outcome) && e.reason == reason && e.payload == payload
  }

  /**
   What the last record says: cancelled when the scan or the needed repair was, a failure with the
   error when one of them broke or the scan evaluated nothing, and a success otherwise.
   */
  lemma EndSays(p: Response)
    requires p.scan.Scanned? ==> WellFormed(p.scan.scan)
    ensures |Story(p)| > 0
    ensures var last := Story(p)[|Story(p)| - 1];
            && last.target == Name(p.useCase) && last.actor == Some("schedule:" + p.scheduleId)
            && (p.scan.ScanCancelled? ==> EndsAs(last, WorkflowCancelled, AuditEvents.Cancelled, None, NoPayload))
            && (p.scan.ScanFailed? ==> EndsAs(last, WorkflowTerminated, Failure, Some(IntentUnavailable), Error(p.scan.error)))
            && (p.scan.Scanned? && p.scan.scan.cancelled ==>
                  EndsAs(last, WorkflowTerminated, Failure, Some(RunCancelled), Error("scan " + p.scan.scan.workflowId + " was cancelled; nothing was evaluated")))
            && (Evaluated(p) && HasRepair(p) && p.repair.RepairCancelled? ==> EndsAs(last, WorkflowCancelled, AuditEvents.Cancelled, None, NoPayload))
            && (Evaluated(p) && HasRepair(p) && p.repair.RepairBroke? ==>
                  EndsAs(last, WorkflowTerminated, Failure, Some(RemediationFailed), Error(p.repair.error)))
            && (Evaluated(p) && (!HasRepair(p) || p.repair.RepairDone?) ==> EndsAs(last, WorkflowTerminated, Success, Some(Succeeded), NoPayload))
  {
    if Evaluated(p) {
      RepairExactly(p);
      ResponseTrail(p);
    } else {
      EarlyStory(p);
    }
  }

  /** The use-case record repeats the scan's own figures and names the scan, and the reconcile when there is one. */
  lemma SummarySays(p: Response)
    requires Evaluated(p) && WellFormed(p.scan.scan)
    ensures var e, s := UseCaseEntry(p), p.scan.scan; var x := e.payload;
            && e.target == Name(p.useCase) && e.kind == DriftResponded && x.UseCase? && x.mode == p.mode && x.scan == s.workflowId
            && x.clean == s.clean && x.drifted == s.drifted && x.errored == s.errored
            && x.reconcile == (if HasRepair(p) then Some(p.workflowId + "-reconcile") else None)
  {
    RepairExactly(p);
  }

  /** The first record names the use case, the mode and the schedule that acts. */
  lemma StartSays(p: Response)
    ensures |Story(p)| > 0
    ensures var e := Story(p)[0];
            e.kind == WorkflowStarted && e.target == Name(p.useCase) && e.payload == RunMode(p.mode) && e.actor == Some("schedule:" + p.scheduleId)
  {
  }

  /** What a run must do with a device it scanned: repair forward drift, leave alone errors and undesired-only drift. */
  predicate DoneWith(r: ResponseResult, d: Uuid, report: DriftReport)
  {
    && (d in r.remediated <==> HasForwardDrift(report))
    && (d in r.excluded.values <==> report.status == Errored || (report.status == Drifted && !HasForwardDrift(report)))
    && (d in r.excluded.values ==> r.excluded.values[d] == if report.status == Errored then ErroredDevice else UndesiredOnly)
  }

  /** The result is of this run and its scan; a REMEDIATE run deals with every scanned device, and carries the reconcile's own result. */
  lemma ResultSays(p: Response)
    requires Evaluated(p) && WellFormed(p.scan.scan)
    ensures var r := ResultOf(p);
            && r.workflowId == p.workflowId && r.scheduleId == p.scheduleId && r.useCase == p.useCase && r.mode == p.mode
            && r.scan == p.scan.scan && r.startedAt == p.startedAt && r.endedAt == p.endedAt
            && (p.mode == Remediate ==> forall d :: d in p.scan.scan.reports.values ==> DoneWith(r, d, p.scan.scan.reports.values[d]))
            && r.reconcile == if HasRepair(p) && p.repair.RepairDone? then Some(p.repair.result) else None
  {
    RepairExactly(p);
    SplitIsExact(p.scan.scan);
  }

  /** The run summary repeats the scan's figures and counts the decision records by their results. */
  lemma SummaryCounts(p: Response, r: R.Reconcile)
    requires Evaluated(p) && WellFormed(p.scan.scan) && !RepairFails(p)
    requires Remediated(p) != [] ==> RepairedBy(p, r)
    ensures var x, s := Summary(ResultOf(p)), p.scan.scan;
            && x.total == s.total && x.clean == s.clean && x.drifted == s.drifted && x.errored == s.errored
            && x.remediated == |Remediated(p)|
            && x.succeeded == |Filter(OutcomeTest(RepairSucceeded), Decisions(p))|
            && x.failed == |Filter(OutcomeTest(RepairFailed), Decisions(p))|
            && (x.wrote <==> x.succeeded + x.failed > 0)
  {
    if Remediated(p) == [] {
      WordCount(p, RepairSucceeded);
      WordCount(p, RepairFailed);
    } else {
      CountsMatch(p, r);
    }
  }
}
