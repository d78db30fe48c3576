/** The loop as a whole: deploy, verify, scan again; and a scheduled run from store answer to summary. */
module ClosedLoop {
  import opened Prelude
  import opened Dicts
  import opened Lists
  import opened Uuids
  import opened Intent
  import opened Renderer
  import opened Replay
  import opened Reports
  import opened AuditEvents
  import opened Results
  import L = DeployIntent
  import S = ScanDrift
  import R = ReconcileDevices
  import W = DriftResponse

  /** A device that reports the rendered payload back, next to anything intent does not name. */
  ghost predicate ReportsItsIntent(desired: DesiredState, collected: CollectResult)
  {
    && DistinctNames(desired) && DistinctPeers(desired) && Renderable(desired)
    && collected.success && Replays(desired, collected.data)
  }

  /** All four activities of the deploy did their job on this state and this collection. */
  ghost predicate RanOn(d: L.Deploy, desired: DesiredState, collected: CollectResult)
  {
    && d.fetch == L.Returned(desired) && d.apply.Returned? && d.apply.value.success
    && d.collect == L.Returned(collected) && d.detect == L.Returned(Observed(desired, collected))
  }

  /** A deploy to such a device is verified exactly when nothing intent compares is lost in rendering. */
  lemma DeployConverges(d: L.Deploy, desired: DesiredState, collected: CollectResult)
    requires ReportsItsIntent(desired, collected) && RanOn(d, desired, collected)
    ensures L.ResultOf(d, L.EndingOf(d)).reason == (if Faithful(desired) then Succeeded else VerificationFailed)
  {
    ReplayedReport(desired, collected);
    L.SucceedsExactly(d);
    L.UnverifiedExactly(d);
  }

  /** A scan that came to its end, on what the store answered and with activities that do what they say. */
  ghost predicate FinishedScan(states: seq<DesiredState>, s: S.Scan)
  {
    && S.Possible(s) && !s.interrupted && s.devices == L.Returned(S.DevicesOf(states))
    && forall k :: 0 <= k < |s.checks| ==> S.Honest(s.checks[k])
  }

  /** The stages of a check all returned. */
  predicate RanThrough(c: S.Check) { c.fetch.Returned? && c.collect.Returned? && c.detect.Returned? }

  /** A scan hands a device to a repair exactly when its check ran through and what was observed of it shows forward drift. */
  lemma ScanRepairsExactly(states: seq<DesiredState>, s: S.Scan, i: nat)
    requires FinishedScan(states, s) && i < |s.checks|
    ensures S.ScanOutcome(s).Some?
    ensures var c := s.checks[i];
            c.device.id in Repairs(S.ScanOutcome(s).value) <==> RanThrough(c) && HasForwardDrift(Observed(c.fetch.value, c.collect.value))
  {
    S.ScanSays(s, states, i);
    S.ScanIsLegal(s, states);
    SplitIsExact(S.ScanOutcome(s).value);
  }

  /** A device that reports its intent back is left alone by the next scan exactly when its intent is faithful. */
  lemma NextScanLeavesItAlone(states: seq<DesiredState>, s: S.Scan, i: nat)
    requires FinishedScan(states, s) && i < |s.checks| && RanThrough(s.checks[i])
    requires ReportsItsIntent(s.checks[i].fetch.value, s.checks[i].collect.value)
    ensures S.ScanOutcome(s).Some?
    ensures s.checks[i].device.id !in Repairs(S.ScanOutcome(s).value) <==> Faithful(s.checks[i].fetch.value)
  {
    ScanRepairsExactly(states, s, i);
    ReplayedReport(s.checks[i].fetch.value, s.checks[i].collect.value);
  }

  predicate ShowsForwardDrift(s: ScanResult, d: Uuid) { d in s.reports.values && HasForwardDrift(s.reports.values[d]) }

  /** The run the scan and the reconcile belong to. */
  ghost predicate BelongTogether(states: seq<DesiredState>, s: S.Scan, p: W.Response, r: R.Reconcile)
  {
    && S.Possible(s) && (s.devices.Returned? ==> s.devices.value == S.DevicesOf(states))
    && (forall i :: 0 <= i < |s.checks| ==> S.Honest(s.checks[i]))
    && S.ScanOutcome(s).Some? && p.scan == W.Scanned(S.ScanOutcome(s).value)
    && p.startedAt <= p.endedAt
    && (W.Evaluated(p) && W.Remediated(p) != [] && p.repair.RepairDone? ==> W.RepairedBy(p, r))
  }

  /** Both runs repair nothing, and they tell and return the same. */
  ghost predicate SameRun(p: W.Response, q: W.Response)
    requires W.Evaluated(p)
  {
    W.Evaluated(q) && W.Remediated(p) == [] && W.Story(p) == W.Story(q) && W.ResultOf(p) == W.ResultOf(q)
  }

  /** Every child of the reconcile that finished was a run of the deploy workflow for its device. */
  ghost predicate ChildrenDeployed(r: R.Reconcile, deploy: Uuid -> L.Deploy)
  {
    forall d :: d in R.Targets(r) && r.child(d).Finished? ==>
      && deploy(d).device == d && deploy(d).startedAt <= deploy(d).endedAt
      && r.child(d).result == L.ResultOf(deploy(d), L.EndingOf(deploy(d)))
  }

  /** Whatever its children met, a reconcile reports only legal results, each about its own device. */
  lemma RepairsReportTheirOwn(r: R.Reconcile, deploy: Uuid -> L.Deploy)
    requires ChildrenDeployed(r, deploy)
    ensures forall d :: d in R.ResultOf(r).deviceResults ==>
              R.ResultOf(r).deviceResults[d].target == d && LegalResult(R.ResultOf(r).deviceResults[d])
  {
    forall d | d in R.Targets(r) && r.child(d).Finished? ensures r.child(d).result.target == d && LegalResult(r.child(d).result) {
      L.ResultIsLegal(deploy(d));
    }
    R.ResultsAreOwn(r);
  }

  /**
   From any store answer and any activity outcomes, a scheduled run builds only objects that pass
   their validators; every repaired device was in the store's answer and shows forward drift; a run in
   REPORT repairs none, whatever a reconcile would have done.
   */
  lemma ScheduledRunIsLegal(states: seq<DesiredState>, s: S.Scan, p: W.Response, r: R.Reconcile)
    requires BelongTogether(states, s, p, r)
    ensures LegalScan(p.scan.scan) && S.OwnReports(p.scan.scan)
    ensures W.Evaluated(p) && !W.RepairFails(p) ==> LegalResponse(W.ResultOf(p)) && LegalSummary(Summary(W.ResultOf(p)))
    ensures W.Evaluated(p) && W.Reconciled(p).Some? ==> LegalReconcile(W.Reconciled(p).value)
    ensures W.Evaluated(p) && p.mode == Report ==> forall repair :: SameRun(p, p.(repair := repair))
    ensures W.Evaluated(p) ==> forall d :: d in W.Remediated(p) ==> d in Map(S.StateId(), states) && ShowsForwardDrift(p.scan.scan, d)
  {
    S.ScanIsLegal(s, states);
    if W.Evaluated(p) {
      SplitIsExact(p.scan.scan);
      if !W.RepairFails(p) { W.ResponseIsLegal(p, r); }
      if p.mode == Report {
        forall repair ensures SameRun(p, p.(repair := repair)) { W.ReportNeverRepairs(p, repair); }
      }
      DistinctIs(Map(S.StateId(), states));
      forall d | d in W.Remediated(p) ensures d in Map(S.StateId(), states) && ShowsForwardDrift(p.scan.scan, d) {
        assert d in p.scan.scan.reports.keys;
      }
    }
  }
}
