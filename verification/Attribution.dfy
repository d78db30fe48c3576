/** Placing queried interfaces and sessions under the devices they belong to (infrahub/store.py). */
module Attribution {
  import opened Prelude
  import opened Dicts
  import opened Lists

  datatype NodeId = NodeId(text: string)

  /** A queried child: its id and the id its `device` relation names, if any. */
  datatype Child = Child(id: NodeId, device: Option<NodeId>)

  datatype ChildKind = InterfaceChild | SessionChild

  /** What is assembled for one device node. */
  datatype Assembled = Assembled(device: NodeId, interfaces: seq<Child>, sessions: seq<Child>)

  /** IntentAttributionError: the children of a kind that name no queried device. */
  datatype Answer<T> = Answered(value: T) | Unplaced(kind: ChildKind, ids: seq<NodeId>)

  /** The device a child is placed under: the only one queried, or the one its relation names. */
  function DeviceRef(devices: seq<NodeId>, c: Child): Option<NodeId>
  {
    if |devices| == 1 then Some(devices[0]) else c.device
  }

  predicate Placed(devices: seq<NodeId>, c: Child)
  {
    DeviceRef(devices, c).Some? && DeviceRef(devices, c).value in devices
  }

  function Under(devices: seq<NodeId>, device: NodeId): Child -> bool { (c: Child) => DeviceRef(devices, c) == Some(device) }

  function Lost(devices: seq<NodeId>): Child -> bool { (c: Child) => !Placed(devices, c) }

  function ChildId(): Child -> NodeId { (c: Child) => c.id }

  function LostIds(devices: seq<NodeId>, children: seq<Child>): seq<NodeId> { Map(ChildId(), Filter(Lost(devices), children)) }

  /** `grouped.get(device, [])`. */
  function GroupOf(grouped: map<NodeId, seq<Child>>, device: NodeId): seq<Child>
  {
    if device in grouped then grouped[device] else []
  }

  /** Each queried device's group holds the first `i` children that belong to it, in query order. */
  ghost predicate GroupedUpTo(devices: seq<NodeId>, children: seq<Child>, i: nat, grouped: map<NodeId, seq<Child>>)
    requires i <= |children|
  {
    forall d :: d in devices ==> GroupOf(grouped, d) + Filter(Under(devices, d), children[i..]) == Filter(Under(devices, d), children)
  }

  /** Each queried device's group is its children, in query order. */
  ghost predicate GroupsOf(devices: seq<NodeId>, children: seq<Child>, grouped: map<NodeId, seq<Child>>)
  {
    forall d :: d in devices ==> GroupOf(grouped, d) == Filter(Under(devices, d), children)
  }

  /** `_group_by_device`. */
  method GroupByDevice(children: seq<Child>, devices: seq<NodeId>, kind: ChildKind) returns (r: Answer<map<NodeId, seq<Child>>>)
    ensures LostIds(devices, children) != [] ==> r == Unplaced(kind, LostIds(devices, children))
    ensures LostIds(devices, children) == [] ==>
      r.Answered? && GroupsOf(devices, children, r.value)
  {
    var grouped: map<NodeId, seq<Child>> := map[];
    var unattributed: seq<NodeId> := [];
    var lost: seq<Child> := [];
    assert children[0..] == children;
    for i := 0 to |children|
      invariant GroupedUpTo(devices, children, i, grouped)
      invariant LostUpTo(devices, children, i, lost) && unattributed == Map(ChildId(), lost)
    {
      var c := children[i];
      LostStep(devices, children, i, lost);
      GroupStep(devices, children, i, grouped);
      var ref := DeviceRef(devices, c);
      if ref.Some? && ref.value in devices {
        grouped := grouped[ref.value := GroupOf(grouped, ref.value) + [c]];
      } else {
        MapIs(ChildId(), lost + [c], unattributed + [c.id]);
        lost, unattributed := lost + [c], unattributed + [c.id];
      }
    }
    GroupsComplete(devices, children, grouped, lost);
    if unattributed != [] {
      return Unplaced(kind, unattributed);
    }
    r := Answered(grouped);
  }

  /** The first `i` children that cannot be placed are those in `lost`. */
  ghost predicate LostUpTo(devices: seq<NodeId>, children: seq<Child>, i: nat, lost: seq<Child>)
    requires i <= |children|
  {
    lost + Filter(Lost(devices), children[i..]) == Filter(Lost(devices), children)
  }

  lemma LostStep(devices: seq<NodeId>, children: seq<Child>, i: nat, lost: seq<Child>)
    requires i < |children| && LostUpTo(devices, children, i, lost)
    ensures LostUpTo(devices, children, i + 1, if Placed(devices, children[i]) then lost else lost + [children[i]])
  {
    FilterStep(Lost(devices), children, i, lost, Filter(Lost(devices), children));
  }

  lemma GroupsComplete(devices: seq<NodeId>, children: seq<Child>, grouped: map<NodeId, seq<Child>>, lost: seq<Child>)
    requires GroupedUpTo(devices, children, |children|, grouped) && LostUpTo(devices, children, |children|, lost)
    ensures GroupsOf(devices, children, grouped) && lost == Filter(Lost(devices), children)
  {
    assert children[|children|..] == [];
    forall d | d in devices ensures GroupOf(grouped, d) == Filter(Under(devices, d), children) {
      assert GroupOf(grouped, d) + [] == GroupOf(grouped, d);
    }
  }

  lemma GroupStep(devices: seq<NodeId>, children: seq<Child>, i: nat, grouped: map<NodeId, seq<Child>>)
    requires i < |children| && GroupedUpTo(devices, children, i, grouped)
    ensures var ref := DeviceRef(devices, children[i]);
            GroupedUpTo(devices, children, i + 1,
                        if Placed(devices, children[i]) then grouped[ref.value := GroupOf(grouped, ref.value) + [children[i]]] else grouped)
  {
    var ref := DeviceRef(devices, children[i]);
    var next := if Placed(devices, children[i]) then grouped[ref.value := GroupOf(grouped, ref.value) + [children[i]]] else grouped;
    forall d | d in devices ensures GroupOf(next, d) + Filter(Under(devices, d), children[i + 1..]) == Filter(Under(devices, d), children) {
      FilterStep(Under(devices, d), children, i, GroupOf(grouped, d), Filter(Under(devices, d), children));
    }
  }

  function AssembledFor(devices: seq<NodeId>, interfaces: seq<Child>, sessions: seq<Child>): NodeId -> Assembled
  {
    (d: NodeId) => Assembled(d, Filter(Under(devices, d), interfaces), Filter(Under(devices, d), sessions))
  }

  /** `get_desired_state` on the queried nodes: one entry per device node, or the first kind that cannot be placed. */
  function DesiredStates(devices: seq<NodeId>, interfaces: seq<Child>, sessions: seq<Child>): Answer<seq<Assembled>>
  {
    if devices == [] then Answered([])
    else if LostIds(devices, interfaces) != [] then Unplaced(InterfaceChild, LostIds(devices, interfaces))
    else if LostIds(devices, sessions) != [] then Unplaced(SessionChild, LostIds(devices, sessions))
    else Answered(Map(AssembledFor(devices, interfaces, sessions), devices))
  }

  /** One entry per device node, in order. */
  method Assemble(devices: seq<NodeId>, interfaces: seq<Child>, sessions: seq<Child>,
                  ifaces: map<NodeId, seq<Child>>, peers: map<NodeId, seq<Child>>) returns (states: seq<Assembled>)
    requires GroupsOf(devices, interfaces, ifaces) && GroupsOf(devices, sessions, peers)
    ensures states == Map(AssembledFor(devices, interfaces, sessions), devices)
  {
    ghost var assemble := AssembledFor(devices, interfaces, sessions);
    states := [];
    assert devices[0..] == devices;
    for i := 0 to |devices|
      invariant states + Map(assemble, devices[i..]) == Map(assemble, devices)
    {
      var own := Assembled(devices[i], GroupOf(ifaces, devices[i]), GroupOf(peers, devices[i]));
      assert devices[i] in devices && own == assemble(devices[i]);
      MapStep(assemble, devices, i, states, Map(assemble, devices));
      states := states + [own];
    }
    assert states + [] == states;
  }

  method GetDesiredState(devices: seq<NodeId>, interfaces: seq<Child>, sessions: seq<Child>) returns (r: Answer<seq<Assembled>>)
    ensures r == DesiredStates(devices, interfaces, sessions)
  {
    if devices == [] {
      return Answered([]);
    }
    var ifaces := GroupByDevice(interfaces, devices, InterfaceChild);
    if ifaces.Unplaced? {
      return Unplaced(ifaces.kind, ifaces.ids);
    }
    var peers := GroupByDevice(sessions, devices, SessionChild);
    if peers.Unplaced? {
      return Unplaced(peers.kind, peers.ids);
    }
    var states := Assemble(devices, interfaces, sessions, ifaces.value, peers.value);
    r := Answered(states);
  }

  // ---- Children are conserved ----

  /** All children gathered over some devices. */
  function Gathered(devices: seq<NodeId>, over: seq<NodeId>, children: seq<Child>): multiset<Child>
  {
    if over == [] then multiset{}
    else multiset(Filter(Under(devices, over[0]), children)) + Gathered(devices, over[1..], children)
  }

  lemma {:induction false} GatherOne(devices: seq<NodeId>, over: seq<NodeId>, c: Child, rest: seq<Child>)
    requires NoRepeat(over) && DeviceRef(devices, c).Some?
    ensures Gathered(devices, over, [c] + rest) ==
            Gathered(devices, over, rest) + if DeviceRef(devices, c).value in over then multiset{c} else multiset{}
  {
    if over != [] {
      GatherOne(devices, over[1..], c, rest);
      FilterFirst(Under(devices, over[0]), c, rest);
      NotAmongOthers(over);
    }
  }

  lemma FilterFirst(p: Child -> bool, c: Child, rest: seq<Child>)
    ensures multiset(Filter(p, [c] + rest)) == (if p(c) then multiset{c} else multiset{}) + multiset(Filter(p, rest))
  {
    assert ([c] + rest)[1..] == rest;
    assert Filter(p, [c] + rest) == (if p(c) then [c] else []) + Filter(p, rest);
  }

  lemma NotAmongOthers(over: seq<NodeId>)
    requires NoRepeat(over) && over != []
    ensures over[0] !in over[1..] && NoRepeat(over[1..]) && forall d :: d in over <==> d == over[0] || d in over[1..]
  {
    assert over == [over[0]] + over[1..];
  }

  lemma {:induction false} GatherNone(devices: seq<NodeId>, over: seq<NodeId>)
    ensures Gathered(devices, over, []) == multiset{}
  {
    if over != [] { GatherNone(devices, over[1..]); }
  }

  lemma {:induction false} GatherAll(devices: seq<NodeId>, over: seq<NodeId>, children: seq<Child>)
    requires NoRepeat(over) && (forall d :: d in devices ==> d in over)
    requires forall i :: 0 <= i < |children| ==> Placed(devices, children[i])
    ensures Gathered(devices, over, children) == multiset(children)
  {
    if children == [] {
      GatherNone(devices, over);
    } else {
      assert Placed(devices, children[0]);
      GatherAll(devices, over, children[1..]);
      GatherOne(devices, over, children[0], children[1..]);
      assert children == [children[0]] + children[1..];
    }
  }

  lemma NoneLost(devices: seq<NodeId>, children: seq<Child>)
    ensures LostIds(devices, children) == [] <==> forall i :: 0 <= i < |children| ==> Placed(devices, children[i])
  {
    if LostIds(devices, children) == [] {
      forall i | 0 <= i < |children| ensures Placed(devices, children[i]) {
        if !Placed(devices, children[i]) { LostIsListed(devices, children, i); }
      }
    } else {
      var c := Filter(Lost(devices), children)[0];
      FilterKeeps(Lost(devices), children);
      assert c in children && !Placed(devices, c);
    }
  }

  lemma {:induction false} LostIsListed(devices: seq<NodeId>, children: seq<Child>, i: nat)
    requires i < |children| && !Placed(devices, children[i])
    ensures children[i] in Filter(Lost(devices), children)
  {
    if i > 0 { LostIsListed(devices, children[1..], i - 1); }
  }

  // ---- Over the entries returned ----

  function ChildrenOf(kind: ChildKind, a: Assembled): seq<Child> { if kind == InterfaceChild then a.interfaces else a.sessions }

  /** All children of a kind that some entries hold. */
  function Held(kind: ChildKind, entries: seq<Assembled>): multiset<Child>
  {
    if entries == [] then multiset{} else multiset(ChildrenOf(kind, entries[0])) + Held(kind, entries[1..])
  }

  lemma {:induction false} HeldIsGathered(devices: seq<NodeId>, over: seq<NodeId>, interfaces: seq<Child>, sessions: seq<Child>)
    ensures Held(InterfaceChild, Map(AssembledFor(devices, interfaces, sessions), over)) == Gathered(devices, over, interfaces)
    ensures Held(SessionChild, Map(AssembledFor(devices, interfaces, sessions), over)) == Gathered(devices, over, sessions)
  {
    if over != [] {
      var assemble := AssembledFor(devices, interfaces, sessions);
      HeldIsGathered(devices, over[1..], interfaces, sessions);
      assert Map(assemble, over)[0] == assemble(over[0]) && Map(assemble, over)[1..] == Map(assemble, over[1..]);
    }
  }

  /** A device queried twice has the same entry twice: the distinct entries are those of the distinct devices. */
  lemma DistinctEntries(devices: seq<NodeId>, interfaces: seq<Child>, sessions: seq<Child>)
    ensures Distinct(Map(AssembledFor(devices, interfaces, sessions), devices)) == Map(AssembledFor(devices, interfaces, sessions), Distinct(devices))
  {
    var assemble := AssembledFor(devices, interfaces, sessions);
    assert forall x, y :: assemble(x) == assemble(y) ==> assemble(x).device == x == y;
    DistinctMap(assemble, {}, {}, devices);
  }

  /** A device's own entry: its own children and no others, in query order. */
  predicate OwnEntry(devices: seq<NodeId>, interfaces: seq<Child>, sessions: seq<Child>, a: Assembled, device: NodeId)
  {
    && a.device == device
    && a.interfaces == Filter(Under(devices, device), interfaces)
    && a.sessions == Filter(Under(devices, device), sessions)
  }

  /** The entry of a device holds exactly its own children, in query order. */
  lemma EachDeviceItsOwn(devices: seq<NodeId>, interfaces: seq<Child>, sessions: seq<Child>, k: nat)
    requires k < |devices| && DesiredStates(devices, interfaces, sessions).Answered?
    ensures OwnEntry(devices, interfaces, sessions, DesiredStates(devices, interfaces, sessions).value[k], devices[k])
  {
    assert Map(AssembledFor(devices, interfaces, sessions), devices)[k] == AssembledFor(devices, interfaces, sessions)(devices[k]);
  }

  /**
   When an answer is returned, its entries are one per device node, and the distinct ones hold every
   queried interface and session exactly once between them, each under the only device queried or the
   one its relation names; otherwise the error names exactly the children that cannot be placed.
   */
  lemma ChildrenAreConserved(devices: seq<NodeId>, interfaces: seq<Child>, sessions: seq<Child>)
    requires devices != []
    ensures var r := DesiredStates(devices, interfaces, sessions);
            && (r.Answered? <==> (forall i :: 0 <= i < |interfaces| ==> Placed(devices, interfaces[i]))
                                 && (forall i :: 0 <= i < |sessions| ==> Placed(devices, sessions[i])))
            && (r.Answered? ==>
                  && Held(InterfaceChild, Distinct(r.value)) == multiset(interfaces)
                  && Held(SessionChild, Distinct(r.value)) == multiset(sessions)
                  && |r.value| == |devices| && forall k :: 0 <= k < |devices| ==> OwnEntry(devices, interfaces, sessions, r.value[k], devices[k]))
            && (r.Unplaced? ==> r.ids == LostIds(devices, if r.kind == InterfaceChild then interfaces else sessions) && r.ids != [])
  {
    NoneLost(devices, interfaces);
    NoneLost(devices, sessions);
    DistinctIs(devices);
    if LostIds(devices, interfaces) == [] && LostIds(devices, sessions) == [] {
      GatherAll(devices, Distinct(devices), interfaces);
      GatherAll(devices, Distinct(devices), sessions);
      DistinctEntries(devices, interfaces, sessions);
      HeldIsGathered(devices, Distinct(devices), interfaces, sessions);
      var entries := DesiredStates(devices, interfaces, sessions).value;
      forall k | 0 <= k < |devices| ensures OwnEntry(devices, interfaces, sessions, entries[k], devices[k]) {
        EachDeviceItsOwn(devices, interfaces, sessions, k);
      }
    }
  }

  /** With one device queried every child is its own, whatever its relation says. */
  lemma SingleDeviceTakesAll(device: NodeId, interfaces: seq<Child>, sessions: seq<Child>)
    ensures DesiredStates([device], interfaces, sessions) == Answered([Assembled(device, interfaces, sessions)])
  {
    var devices := [device];
    NoneLost(devices, interfaces);
    NoneLost(devices, sessions);
    FilterAll(Under(devices, device), interfaces);
    FilterAll(Under(devices, device), sessions);
    MapIs(AssembledFor(devices, interfaces, sessions), devices, [Assembled(device, interfaces, sessions)]);
  }

  // ---- By relation alone, once two devices are queried ----

  /** The child's relation names a queried device. */
  predicate NamesQueried(devices: seq<NodeId>, c: Child) { c.device.Some? && c.device.value in devices }

  function Naming(device: NodeId): Child -> bool { (c: Child) => c.device == Some(device) }

  function NamingNone(devices: seq<NodeId>): Child -> bool { (c: Child) => !NamesQueried(devices, c) }

  lemma SameTests(devices: seq<NodeId>, children: seq<Child>)
    requires |devices| >= 2
    ensures LostIds(devices, children) == Map(ChildId(), Filter(NamingNone(devices), children))
    ensures forall device :: Filter(Under(devices, device), children) == Filter(Naming(device), children)
  {
    FilterSame(Lost(devices), NamingNone(devices), children);
    forall device ensures Filter(Under(devices, device), children) == Filter(Naming(device), children) {
      FilterSame(Under(devices, device), Naming(device), children);
    }
  }

  lemma AllNamed(devices: seq<NodeId>, children: seq<Child>)
    requires |devices| >= 2
    ensures LostIds(devices, children) == [] <==> forall c :: c in children ==> NamesQueried(devices, c)
  {
    NoneLost(devices, children);
    if forall i :: 0 <= i < |children| ==> Placed(devices, children[i]) {
      forall c | c in children ensures NamesQueried(devices, c) {
        var i :| 0 <= i < |children| && children[i] == c;
        assert Placed(devices, children[i]);
      }
    } else {
      var i :| 0 <= i < |children| && !Placed(devices, children[i]);
      assert children[i] in children;
    }
  }

  /**
   With several devices queried the children's relations alone decide: the answer is given iff every
   relation names a queried device, each entry then holds the children naming its device in query
   order, and otherwise the error lists the children of the first kind that do not name one.
   */
  lemma RelationsDecide(devices: seq<NodeId>, interfaces: seq<Child>, sessions: seq<Child>)
    requires |devices| >= 2
    ensures var r := DesiredStates(devices, interfaces, sessions);
            && (r.Answered? <==> (forall c :: c in interfaces ==> NamesQueried(devices, c)) && (forall c :: c in sessions ==> NamesQueried(devices, c)))
            && (r.Answered? ==> |r.value| == |devices| && forall k :: 0 <= k < |devices| ==>
                  r.value[k] == Assembled(devices[k], Filter(Naming(devices[k]), interfaces), Filter(Naming(devices[k]), sessions)))
            && (r.Unplaced? ==>
                  && (r.kind == InterfaceChild <==> exists c :: c in interfaces && !NamesQueried(devices, c))
                  && r.ids == Map(ChildId(), Filter(NamingNone(devices), if r.kind == InterfaceChild then interfaces else sessions)))
  {
    AllNamed(devices, interfaces);
    AllNamed(devices, sessions);
    SameTests(devices, interfaces);
    SameTests(devices, sessions);
    var r := DesiredStates(devices, interfaces, sessions);
    if r.Answered? {
      forall k | 0 <= k < |devices|
        ensures r.value[k] == Assembled(devices[k], Filter(Naming(devices[k]), interfaces), Filter(Naming(devices[k]), sessions))
      {
        EachDeviceItsOwn(devices, interfaces, sessions, k);
      }
    }
  }
}
