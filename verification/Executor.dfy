/** Applying intent to devices (gnmi/executor.py): one device at a time or a whole batch. */
module Executor {
  import opened Prelude
  import opened Dicts
  import opened Lists
  import opened Uuids
  import opened Intent
  import opened Renderer

  datatype ApplyResult = ApplyResult(deviceId: Uuid, success: bool, error: Option<string>)

  datatype BatchResult = BatchResult(results: map<Uuid, ApplyResult>, total: int, succeeded: int, failed: int)

  /**
   The world outside: whether templates exist for a device's use case, and the error a SET to it
   ends with, if any.
   */
  datatype World = World(templates: Uuid -> bool, setError: Uuid -> Option<string>)

  const NO_TARGET := "no gNMI dial target"

  const NO_TEMPLATES := "render failed"

  /** `_dial_host`: lab node name, then management address, then the fallback. */
  function DialHost(d: Device, fallback: Option<string>): Option<string>
  {
    if Truthy(d.labNodeName) then d.labNodeName
    else if d.managementAddress != "" then Some(d.managementAddress)
    else if Truthy(fallback) then fallback
    else None
  }

  /** What keeps a deploy from dialling, if anything: the render, then the missing target. */
  function Obstacle(w: World, fallback: Option<string>, s: DesiredState): Option<string>
  {
    if !w.templates(s.device.id) then Some(NO_TEMPLATES)
    else if exists k :: 0 <= k < |s.interfaces| && LacksPrefix(s.interfaces[k]) then Some(NO_PREFIX_LENGTH)
    else if DialHost(s.device, fallback).None? then Some(NO_TARGET)
    else None
  }

  function ResultFor(w: World, fallback: Option<string>, s: DesiredState): ApplyResult
  {
    var obstacle := Obstacle(w, fallback, s);
    var error := if obstacle.Some? then obstacle else w.setError(s.device.id);
    ApplyResult(s.device.id, error.None?, error)
  }

  /** The SET a deploy sends: its host and the device it is for. */
  function Dialled(w: World, fallback: Option<string>, s: DesiredState): seq<(string, Uuid)>
  {
    if Obstacle(w, fallback, s).Some? then [] else [(DialHost(s.device, fallback).value, s.device.id)]
  }

  function AllDialled(w: World, fallback: Option<string>, states: seq<DesiredState>): seq<(string, Uuid)>
  {
    if states == [] then [] else Dialled(w, fallback, states[0]) + AllDialled(w, fallback, states[1..])
  }

  function StateDevice(): DesiredState -> Uuid { (s: DesiredState) => s.device.id }

  function ResultDevice(): ApplyResult -> Uuid { (r: ApplyResult) => r.deviceId }

  function Itself(): ApplyResult -> ApplyResult { (r: ApplyResult) => r }

  function Applied(): ApplyResult -> bool { (r: ApplyResult) => r.success }

  function Deployer(w: World, fallback: Option<string>): DesiredState -> ApplyResult
  {
    (s: DesiredState) => ResultFor(w, fallback, s)
  }

  /** `{r.device_id: r for r in results_list}`. */
  function ByDevice(list: seq<ApplyResult>): map<Uuid, ApplyResult>
  {
    FromItems<ApplyResult, Uuid, ApplyResult>(Empty(), ResultDevice(), Itself(), list).values
  }

  function BatchOf(list: seq<ApplyResult>): BatchResult
  {
    var succeeded := |Filter(Applied(), list)|;
    BatchResult(ByDevice(list), |list|, succeeded, |list| - succeeded)
  }

  /** `apply_batch` raises ValueError on an empty batch and on duplicate devices. */
  predicate Acceptable(states: seq<DesiredState>) { states != [] && NoRepeat(Map(StateDevice(), states)) }

  class GnmiExecutor {
    const fallback: Option<string>
    /** Every SET sent so far. */
    var dialled: seq<(string, Uuid)>

    constructor (fallback: Option<string>)
      ensures this.fallback == fallback && dialled == []
    {
      this.fallback := fallback;
      dialled := [];
    }

    /** `_deploy`: a failure of any kind is a failed result, never a raise. */
    method Deploy(w: World, s: DesiredState) returns (r: ApplyResult)
      modifies this`dialled
      ensures r == ResultFor(w, fallback, s) && dialled == old(dialled) + Dialled(w, fallback, s)
    {
      if !w.templates(s.device.id) {
        return ApplyResult(s.device.id, false, Some(NO_TEMPLATES));
      }
      var payload := Render(s);
      if payload.Err? {
        return ApplyResult(s.device.id, false, Some(payload.error));
      }
      var host := DialHost(s.device, fallback);
      if host.None? {
        return ApplyResult(s.device.id, false, Some(NO_TARGET));
      }
      dialled := dialled + [(host.value, s.device.id)];
      var error := w.setError(s.device.id);
      r := ApplyResult(s.device.id, error.None?, error);
    }

    /** The deploys of a batch, each result at its state's place. */
    method DeployAll(w: World, states: seq<DesiredState>) returns (list: seq<ApplyResult>)
      modifies this`dialled
      ensures list == Map(Deployer(w, fallback), states)
      ensures dialled == old(dialled) + AllDialled(w, fallback, states)
    {
      list := [];
      RemainingAll(w, fallback, states, dialled);
      for i := 0 to |states|
        invariant Remaining(w, fallback, states, i, list, dialled, Map(Deployer(w, fallback), states), old(dialled) + AllDialled(w, fallback, states))
      {
        RemainingStep(w, fallback, states, i, list, dialled, Map(Deployer(w, fallback), states), old(dialled) + AllDialled(w, fallback, states));
        var r := Deploy(w, states[i]);
        list := list + [r];
      }
      RemainingNone(w, fallback, states, list, dialled, Map(Deployer(w, fallback), states), old(dialled) + AllDialled(w, fallback, states));
    }

    /** `apply_batch`; None is its ValueError. */
    method ApplyBatch(w: World, states: seq<DesiredState>) returns (b: Option<BatchResult>)
      modifies this`dialled
      ensures b == if Acceptable(states) then Some(BatchOf(Map(Deployer(w, fallback), states))) else None
      ensures dialled == old(dialled) + if Acceptable(states) then AllDialled(w, fallback, states) else []
    {
      if !Acceptable(states) {
        return None;
      }
      var list := DeployAll(w, states);
      var succeeded := Successes(list);
      b := Some(BatchResult(ByDevice(list), |list|, succeeded, |list| - succeeded));
    }
  }

  /** The results and SETs so far, followed by those of the states from the `i`-th on, are all of them. */
  ghost predicate Remaining(w: World, fallback: Option<string>, states: seq<DesiredState>, i: nat,
                            list: seq<ApplyResult>, sent: seq<(string, Uuid)>, results: seq<ApplyResult>, sets: seq<(string, Uuid)>)
    requires i <= |states|
  {
    list + Map(Deployer(w, fallback), states[i..]) == results && sent + AllDialled(w, fallback, states[i..]) == sets
  }

  lemma RemainingAll(w: World, fallback: Option<string>, states: seq<DesiredState>, sent: seq<(string, Uuid)>)
    ensures Remaining(w, fallback, states, 0, [], sent, Map(Deployer(w, fallback), states), sent + AllDialled(w, fallback, states))
  {
    assert states[0..] == states;
  }

  lemma RemainingNone(w: World, fallback: Option<string>, states: seq<DesiredState>,
                      list: seq<ApplyResult>, sent: seq<(string, Uuid)>, results: seq<ApplyResult>, sets: seq<(string, Uuid)>)
    requires Remaining(w, fallback, states, |states|, list, sent, results, sets)
    ensures list == results && sent == sets
  {
    assert list + [] == list && sent + [] == sent;
  }

  lemma RemainingStep(w: World, fallback: Option<string>, states: seq<DesiredState>, i: nat,
                      list: seq<ApplyResult>, sent: seq<(string, Uuid)>, results: seq<ApplyResult>, sets: seq<(string, Uuid)>)
    requires i < |states| && Remaining(w, fallback, states, i, list, sent, results, sets)
    ensures Remaining(w, fallback, states, i + 1, list + [ResultFor(w, fallback, states[i])], sent + Dialled(w, fallback, states[i]), results, sets)
  {
    MapStep(Deployer(w, fallback), states, i, list, results);
    DialledStep(w, fallback, states, i, sent);
  }

  lemma DialledStep(w: World, fallback: Option<string>, states: seq<DesiredState>, i: nat, before: seq<(string, Uuid)>)
    requires i < |states|
    ensures before + AllDialled(w, fallback, states[i..])
         == before + Dialled(w, fallback, states[i]) + AllDialled(w, fallback, states[i + 1..])
  {
    assert states[i..][1..] == states[i + 1..];
  }

  /** `sum(1 for r in results_list if r.success)`. */
  method Successes(list: seq<ApplyResult>) returns (n: nat)
    ensures n == |Filter(Applied(), list)|
  {
    n := 0;
    assert list[0..] == list;
    for i := 0 to |list|
      invariant n + |Filter(Applied(), list[i..])| == |Filter(Applied(), list)|
    {
      assert list[i..][1..] == list[i + 1..];
      if list[i].success {
        n := n + 1;
      }
    }
  }

  // ---- What an executor promises ----

  /** A deploy succeeds exactly when it could dial and the SET raised nothing; one that could not dial sends nothing. */
  lemma SucceedsExactly(w: World, fallback: Option<string>, s: DesiredState)
    ensures var r := ResultFor(w, fallback, s);
            && r.deviceId == s.device.id && (r.success <==> r.error.None?)
            && (r.success <==> Obstacle(w, fallback, s).None? && w.setError(s.device.id).None?)
            && (Dialled(w, fallback, s) == [] <==> Obstacle(w, fallback, s).Some?)
  {
  }

  /** Each result is about its own state's device. */
  ghost predicate AboutItsDevice(deploy: DesiredState -> ApplyResult) { forall s :: deploy(s).deviceId == s.device.id }

  lemma DevicesOfResults(deploy: DesiredState -> ApplyResult, states: seq<DesiredState>)
    requires AboutItsDevice(deploy)
    ensures Map(ResultDevice(), Map(deploy, states)) == Map(StateDevice(), states)
  {
    var list, ids := Map(deploy, states), Map(StateDevice(), states);
    forall k | 0 <= k < |list| ensures ResultDevice()(list[k]) == ids[k] {
      assert list[k] == deploy(states[k]) && ids[k] == StateDevice()(states[k]);
    }
    MapIs(ResultDevice(), list, ids);
  }

  lemma FoundByDevice(list: seq<ApplyResult>, k: nat)
    requires k < |list| && NoRepeat(Map(ResultDevice(), list))
    ensures |ByDevice(list)| == |list| && list[k].deviceId in ByDevice(list) && ByDevice(list)[list[k].deviceId] == list[k]
  {
    BuiltDistinct(ResultDevice(), Itself(), list);
    ItemAt(ResultDevice(), Itself(), list, k);
  }

  lemma {:induction false} CountedWithin(list: seq<ApplyResult>)
    ensures |Filter(Applied(), list)| <= |list|
  {
    if list != [] { CountedWithin(list[1..]); }
  }

  lemma BatchHolds(list: seq<ApplyResult>, k: nat)
    requires k < |list| && NoRepeat(Map(ResultDevice(), list))
    ensures var b := BatchOf(list);
            && |b.results| == |list| == b.total && b.succeeded + b.failed == b.total && 0 <= b.succeeded <= b.total
            && list[k].deviceId in b.results && b.results[list[k].deviceId] == list[k]
  {
    FoundByDevice(list, k);
    CountedWithin(list);
  }

  lemma BatchOfEach(deploy: DesiredState -> ApplyResult, states: seq<DesiredState>, k: nat)
    requires AboutItsDevice(deploy) && Acceptable(states) && k < |states|
    ensures var b := BatchOf(Map(deploy, states)); var d := states[k].device.id;
            && |b.results| == |states| == b.total && b.succeeded + b.failed == b.total && 0 <= b.succeeded <= b.total
            && d in b.results && b.results[d] == deploy(states[k])
  {
    var list := Map(deploy, states);
    DevicesOfResults(deploy, states);
    BatchHolds(list, k);
    assert list[k] == deploy(states[k]);
  }

  /** A batch holds one result per device, each device's own, and its counts add up. */
  lemma BatchIsWhole(w: World, fallback: Option<string>, states: seq<DesiredState>, k: nat)
    requires Acceptable(states) && k < |states|
    ensures var b := BatchOf(Map(Deployer(w, fallback), states)); var d := states[k].device.id;
            && |b.results| == |states| == b.total && b.succeeded + b.failed == b.total && 0 <= b.succeeded <= b.total
            && d in b.results && b.results[d] == ResultFor(w, fallback, states[k])
  {
    BatchOfEach(Deployer(w, fallback), states, k);
  }

  /** The states whose deploy can dial and whose SET raises nothing. */
  function Reached(w: World, fallback: Option<string>): DesiredState -> bool
  {
    (s: DesiredState) => Obstacle(w, fallback, s).None? && w.setError(s.device.id).None?
  }

  /** A batch counts as succeeded exactly the devices that it could dial and whose SET raised nothing. */
  lemma CountsReached(w: World, fallback: Option<string>, states: seq<DesiredState>)
    ensures BatchOf(Map(Deployer(w, fallback), states)).succeeded == |Filter(Reached(w, fallback), states)|
  {
    forall i | 0 <= i < |states| ensures Applied()(Deployer(w, fallback)(states[i])) <==> Reached(w, fallback)(states[i]) {
      SucceedsExactly(w, fallback, states[i]);
    }
    FilterMap(Deployer(w, fallback), Reached(w, fallback), Applied(), states);
  }

  lemma OwnResult(w: World, v: World, fallback: Option<string>, s: DesiredState)
    requires w.templates(s.device.id) == v.templates(s.device.id) && w.setError(s.device.id) == v.setError(s.device.id)
    ensures ResultFor(w, fallback, s) == ResultFor(v, fallback, s)
  {
  }

  /** A SET goes to the first address there is: the lab node's name, the management address, the executor's fallback. */
  lemma DialsFirstAddress(w: World, fallback: Option<string>, s: DesiredState)
    requires w.templates(s.device.id) && forall k :: 0 <= k < |s.interfaces| ==> !LacksPrefix(s.interfaces[k])
    ensures var d, sent := s.device, Dialled(w, fallback, s);
            && (Truthy(d.labNodeName) ==> sent == [(d.labNodeName.value, d.id)])
            && (!Truthy(d.labNodeName) && d.managementAddress != "" ==> sent == [(d.managementAddress, d.id)])
            && (!Truthy(d.labNodeName) && d.managementAddress == "" && Truthy(fallback) ==> sent == [(fallback.value, d.id)])
            && (!Truthy(d.labNodeName) && d.managementAddress == "" && !Truthy(fallback) ==> sent == [])
  {
  }

  /** A failed result says why: no templates, then an address without its length, then nowhere to dial, then what the SET raised. */
  lemma SaysWhy(w: World, fallback: Option<string>, s: DesiredState)
    ensures var error := ResultFor(w, fallback, s).error; var lacks := exists k :: 0 <= k < |s.interfaces| && LacksPrefix(s.interfaces[k]);
            var nowhere := !Truthy(s.device.labNodeName) && s.device.managementAddress == "" && !Truthy(fallback);
            && (!w.templates(s.device.id) ==> error == Some(NO_TEMPLATES))
            && (w.templates(s.device.id) && lacks ==> error == Some(NO_PREFIX_LENGTH))
            && (w.templates(s.device.id) && !lacks && nowhere ==> error == Some(NO_TARGET))
            && (w.templates(s.device.id) && !lacks && !nowhere ==> error == w.setError(s.device.id))
  {
  }
}
