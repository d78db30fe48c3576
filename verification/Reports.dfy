/** Drift reports and the activity that produces them (snapl_observability, activities/observability.py). */
module Reports {
  import opened Prelude
  import opened Json
  import opened Uuids
  import opened Intent
  import D = Diff
  import opened SrLinux
  import opened Replay

  datatype DriftStatus = Clean | Drifted | Errored

  datatype DriftReport = DriftReport(
    deviceId: Uuid, deviceName: string, status: DriftStatus, items: seq<D.DriftItem>, error: Option<string>)

  /** What a collect returns; None for the error means success. */
  datatype CollectResult = CollectResult(deviceId: Uuid, success: bool, data: map<string, Json>, error: Option<string>)

  /** `CollectResult.__post_init__`. */
  predicate LegalCollect(c: CollectResult)
  {
    if c.success then c.error.None? else Truthy(c.error)
  }

  /** The validators of `DriftItem` and `DriftReport`. */
  predicate LegalReport(r: DriftReport)
  {
    && (forall item :: item in r.items ==> !PyEq(item.desired, item.actual))
    && match r.status
       case Clean => r.items == [] && r.error.None?
       case Drifted => r.items != [] && r.error.None?
       case Errored => r.items == [] && r.error.Some?
  }

  /** `has_forward_drift`: the one rule for what a repair may touch. */
  predicate HasForwardDrift(r: DriftReport)
  {
    r.status == Drifted && exists item :: item in r.items && !item.undesired
  }

  /** `observer.detect_drift` on a collection the adapter has translated. */
  function Observed(desired: DesiredState, collected: CollectResult): DriftReport
  {
    var items := if collected.success then DiffState(desired, Normalized(collected.data)) else [];
    DriftReport(desired.device.id, desired.device.name,
                if !collected.success then Errored else if items == [] then Clean else Drifted,
                items, if collected.success then None else collected.error)
  }

  /** The `detect_drift` activity; None is the ValueError for another device's state. */
  method DetectDrift(desired: DesiredState, collected: CollectResult) returns (report: Option<DriftReport>)
    ensures report == if desired.device.id == collected.deviceId then Some(Observed(desired, collected)) else None
  {
    if desired.device.id != collected.deviceId {
      return None;
    }
    if !collected.success {
      return Some(DriftReport(desired.device.id, desired.device.name, Errored, [], collected.error));
    }
    var actual := NormalizeState(collected.data);
    var items := D.DiffDesiredVsActual(InterfaceEntities(desired), SessionEntities(desired), actual);
    report := Some(DriftReport(desired.device.id, desired.device.name, if items == [] then Clean else Drifted, items, None));
  }

  /** Every report the activity builds passes its own validators. */
  lemma ReportsAreLegal(desired: DesiredState, collected: CollectResult)
    requires LegalCollect(collected)
    ensures LegalReport(Observed(desired, collected))
  {
    forall item | item in Observed(desired, collected).items ensures !PyEq(item.desired, item.actual) {
      D.ItemsAreHonest(InterfaceEntities(desired), SessionEntities(desired), Normalized(collected.data), item);
    }
  }

  /** A device that reports its rendered payload back has no forward drift exactly when its intent is faithful. */
  lemma ReplayedReport(desired: DesiredState, collected: CollectResult)
    requires DistinctNames(desired) && DistinctPeers(desired) && Renderable(desired)
    requires collected.success && Replays(desired, collected.data)
    ensures HasForwardDrift(Observed(desired, collected)) <==> !Faithful(desired)
    ensures Observed(desired, collected).status != Errored
  {
    NoForwardExactly(desired, collected.data);
  }

  /** A failed collection is an ERROR report with its error and no items; any other reports the whole diff, as drift iff there is any. */
  lemma ReportSays(desired: DesiredState, collected: CollectResult)
    ensures var r := Observed(desired, collected);
            var items := D.Diff(InterfaceEntities(desired), SessionEntities(desired), Normalized(collected.data));
            && r.deviceId == desired.device.id && r.deviceName == desired.device.name
            && (!collected.success ==> r.status == Errored && r.items == [] && r.error == collected.error)
            && (collected.success ==> r.items == items && r.error == None && (r.status == Drifted <==> items != []) && (r.status == Clean <==> items == []))
  {
  }
}
