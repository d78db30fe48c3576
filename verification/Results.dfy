/** What workflows return, the validators those results must pass, and which devices a repair may touch. */
module Results {
  import opened Prelude
  import opened Dicts
  import opened Lists
  import opened Uuids
  import opened Reports
  import opened AuditEvents
  import D = Diff

  datatype WorkflowResult = WorkflowResult(
    workflowId: string, target: Uuid, success: bool, reason: Reason, detail: Option<string>,
    startedAt: int, endedAt: int, driftItems: seq<D.DriftItem>)

  predicate LegalResult(r: WorkflowResult)
  {
    && (r.success <==> r.reason == Succeeded)
    && (r.driftItems != [] ==> r.reason == VerificationFailed)
    && r.startedAt <= r.endedAt
  }

  datatype ScanResult = ScanResult(
    workflowId: string, useCase: string, reports: Dict<Uuid, DriftReport>,
    total: int, clean: int, drifted: int, errored: int, cancelled: bool)

  predicate LegalScan(s: ScanResult)
  {
    s.clean + s.drifted + s.errored == s.total && |s.reports.values| == s.total
  }

  datatype ReconcileResult = ReconcileResult(
    workflowId: string, deviceResults: map<Uuid, WorkflowResult>, total: int, succeeded: int, failed: int, skipped: int)

  predicate LegalReconcile(r: ReconcileResult)
  {
    r.succeeded + r.failed + r.skipped == r.total && |r.deviceResults| + r.skipped == r.total
  }

  datatype ResponseResult = ResponseResult(
    workflowId: string, scheduleId: string, useCase: string, mode: Mode, scan: ScanResult,
    remediated: seq<Uuid>, excluded: Dict<Uuid, Exclusion>, reconcile: Option<ReconcileResult>,
    startedAt: int, endedAt: int)

  predicate LegalResponse(r: ResponseResult)
  {
    && (r.mode == Report ==> r.remediated == [] && r.excluded.values == map[] && r.reconcile.None?)
    && (r.reconcile.None? <==> r.remediated == [])
    && (r.reconcile.Some? ==> r.reconcile.value.total == |r.remediated|)
    && (forall d :: d in r.remediated ==> d !in r.excluded.values)
    && (forall d :: d in r.remediated ==> d in r.scan.reports.values)
    && (forall d :: d in r.excluded.values ==> d in r.scan.reports.values)
    && (forall d :: d in r.remediated ==> HasForwardDrift(r.scan.reports.values[d]))
    && r.startedAt <= r.endedAt
  }

  datatype RunSummary = RunSummary(
    total: int, clean: int, drifted: int, errored: int, remediated: int, succeeded: int, failed: int, wrote: bool)

  predicate LegalSummary(s: RunSummary) { s.wrote <==> s.succeeded + s.failed > 0 }

  /** `RunSummary.from_result`. */
  function Summary(r: ResponseResult): RunSummary
  {
    var succeeded := if r.reconcile.Some? then r.reconcile.value.succeeded else 0;
    var failed := if r.reconcile.Some? then r.reconcile.value.failed else 0;
    RunSummary(r.scan.total, r.scan.clean, r.scan.drifted, r.scan.errored, |r.remediated|, succeeded, failed, succeeded + failed > 0)
  }

  // ---- Selecting what to repair ----

  /** Why a device is left alone; None when it is repaired or clean. */
  function ExclusionFor(r: DriftReport): Option<Exclusion>
  {
    if r.status == Errored then Some(ErroredDevice)
    else if r.status == Drifted && !HasForwardDrift(r) then Some(UndesiredOnly)
    else None
  }

  function RepairTest(reports: map<Uuid, DriftReport>): Uuid -> bool
  {
    (d: Uuid) => d in reports && HasForwardDrift(reports[d])
  }

  function ExcludeTest(reports: map<Uuid, DriftReport>): Uuid -> bool
  {
    (d: Uuid) => d in reports && ExclusionFor(reports[d]).Some?
  }

  function Exclusions(keys: seq<Uuid>, reports: map<Uuid, DriftReport>): map<Uuid, Exclusion>
  {
    map d | d in keys && ExcludeTest(reports)(d) :: ExclusionFor(reports[d]).value
  }

  function Repairs(s: ScanResult): seq<Uuid> { Filter(RepairTest(s.reports.values), s.reports.keys) }

  function Excluded(s: ScanResult): Dict<Uuid, Exclusion>
  {
    Dict(Filter(ExcludeTest(s.reports.values), s.reports.keys), Exclusions(s.reports.keys, s.reports.values))
  }

  lemma ExclusionsStep(keys: seq<Uuid>, i: nat, reports: map<Uuid, DriftReport>)
    requires i < |keys|
    ensures var before := Exclusions(keys[..i], reports);
            Exclusions(keys[..i + 1], reports) ==
            if ExcludeTest(reports)(keys[i]) then before[keys[i] := ExclusionFor(reports[keys[i]]).value] else before
  {
    assert keys[..i + 1] == keys[..i] + [keys[i]];
  }

  /** `select_remediation`: one pass over the reports in scan order. */
  method SelectRemediation(s: ScanResult) returns (remediated: seq<Uuid>, excluded: Dict<Uuid, Exclusion>)
    requires Valid(s.reports)
    ensures remediated == Repairs(s) && excluded == Excluded(s)
  {
    var keys, reports := s.reports.keys, s.reports.values;
    ghost var repair, exclude := RepairTest(reports), ExcludeTest(reports);
    remediated := [];
    var left: seq<Uuid>, why: map<Uuid, Exclusion> := [], map[];
    assert keys[0..] == keys;
    for i := 0 to |keys|
      invariant remediated + Filter(repair, keys[i..]) == Repairs(s)
      invariant left + Filter(exclude, keys[i..]) == Excluded(s).keys
      invariant why == Exclusions(keys[..i], reports)
    {
      var device := keys[i];
      FilterStep(repair, keys, i, remediated, Repairs(s));
      FilterStep(exclude, keys, i, left, Excluded(s).keys);
      ExclusionsStep(keys, i, reports);
      assert device in keys;
      var report := reports[device];
      if report.status == Errored {
        left, why := left + [device], why[device := ErroredDevice];
      } else if HasForwardDrift(report) {
        remediated := remediated + [device];
      } else if report.status == Drifted {
        left, why := left + [device], why[device := UndesiredOnly];
      }
    }
    assert keys[..|keys|] == keys;
    excluded := Dict(left, why);
  }

  /** The reports of a scan as the validators leave them. */
  ghost predicate WellFormed(s: ScanResult)
  {
    Valid(s.reports) && forall d :: d in s.reports.values ==> LegalReport(s.reports.values[d])
  }

  /**
   The split is exact: a device is repaired iff it has forward drift, left alone iff it errored or
   has only undesired drift, and neither iff it is clean; nothing is in both, nothing twice.
   */
  lemma SplitIsExact(s: ScanResult)
    requires WellFormed(s)
    ensures Valid(Excluded(s)) && NoRepeat(Repairs(s))
    ensures forall d :: d in Repairs(s) <==> d in s.reports.values && HasForwardDrift(s.reports.values[d])
    ensures forall d :: d in Excluded(s).values ==> d in s.reports.values && d !in Repairs(s)
    ensures forall d :: d in Excluded(s).values ==> ExclusionFor(s.reports.values[d]) == Some(Excluded(s).values[d])
    ensures forall d :: d in s.reports.values && d !in Repairs(s) && d !in Excluded(s).values <==>
                        d in s.reports.values && s.reports.values[d].status == Clean
  {
    var keys, reports := s.reports.keys, s.reports.values;
    FilterNoRepeat(RepairTest(reports), keys);
    FilterNoRepeat(ExcludeTest(reports), keys);
    forall d ensures d in Repairs(s) <==> d in reports && HasForwardDrift(reports[d]) { FilterHas(RepairTest(reports), keys, d); }
    forall d ensures d in Excluded(s).keys <==> d in keys && ExcludeTest(reports)(d) { FilterHas(ExcludeTest(reports), keys, d); }
  }
}
