/**
 `SeedIngester` as the code runs it: loops over sections, items and sessions that change the
 node store in place. Each method is proved against the plans of SeedDataset.dfy, so the
 fixed-point theorem there is a theorem about these methods.
 */
module SeedIngester {
  import opened Prelude
  import opened Json
  import opened SeedStore
  import opened SeedPlans
  import opened SeedFixedPoint
  import opened SeedDataset

  /** The store after the plans that ran, up to the first that cannot be resolved. */
  function Progress(e: Engine, plans: seq<Plan>, s: Store): Store
    decreases plans
  {
    if plans == [] then s
    else
      var op := e.resolve(plans[0], s);
      if op.None? then s else Progress(e, plans[1..], Apply(s, op.value))
  }

  lemma {:induction false} RunProgress(e: Engine, plans: seq<Plan>, s: Store)
    requires Run(e, plans, s).Some?
    ensures Progress(e, plans, s) == Run(e, plans, s).value
    decreases plans
  {
    if plans != [] { RunProgress(e, plans[1..], Apply(s, e.resolve(plans[0], s).value)); }
  }

  /** What is still to be done from `s` does what the whole list does from `s0`. */
  predicate Continues(e: Engine, all: seq<Plan>, s0: Store, rest: seq<Plan>, s: Store, created: nat)
  {
    && Run(e, rest, s) == Run(e, all, s0)
    && Progress(e, rest, s) == Progress(e, all, s0)
    && created + DevicesCreated(e, rest, s) == DevicesCreated(e, all, s0)
  }

  lemma StepContinues(e: Engine, all: seq<Plan>, s0: Store, rest: seq<Plan>, s: Store, created: nat)
    requires Continues(e, all, s0, rest, s, created) && rest != []
    ensures var op := e.resolve(rest[0], s);
            if op.None? then Run(e, all, s0) == None && Progress(e, all, s0) == s
            else Continues(e, all, s0, rest[1..], Apply(s, op.value),
                           created + if IsDevice(rest[0]) && First(s, op.value.kind, op.value.filter).None? then 1 else 0)
  {
  }

  // ---- One item ----

  /** An item whose relationships do not resolve fails before anything is written. */
  lemma UpsertFails(schema: map<Kind, set<string>>, section: SectionName, item: Item, ns: Option<nat>, s: Store)
    requires ResolveRels(SectionOf(section).rels, item, s).None?
    ensures var plans := PlansForItem(section, item, ns); Run(EngineFor(schema), plans, s) == None && Progress(EngineFor(schema), plans, s) == s
  {
    assert PlansForItem(section, item, ns) != [];
  }

  function AddressOp(address: Json, ns: nat): Op
  {
    Op(IpamIPAddress, AddressFilter(address, ns), map["address" := address], map["ip_namespace" := One(ns)], false)
  }

  function ItemOp(schema: map<Kind, set<string>>, section: SectionName, item: Item, ns: Option<nat>, address: map<string, Rel>, rels: map<string, Rel>): Op
  {
    var kind := SectionOf(section).kind;
    Op(kind, ItemFilter(section, item, rels), Declared(schema, kind, item), NamespaceRel(section, ns) + address + rels, true)
  }

  predicate HasAddress(section: SectionName, item: Item, ns: Option<nat>)
  {
    var field := SectionOf(section).addressField;
    ns.Some? && field.Some? && field.value in item
  }

  /** The store an item's own upsert starts from: its address has been materialised. */
  function AfterAddress(section: SectionName, item: Item, ns: Option<nat>, s: Store): Store
  {
    if HasAddress(section, item, ns) then Apply(s, AddressOp(item[SectionOf(section).addressField.value], ns.value)) else s
  }

  lemma OnePlan(e: Engine, p: Plan, s: Store)
    ensures var op := e.resolve(p, s);
            if op.None? then Run(e, [p], s) == None && Progress(e, [p], s) == s
            else Run(e, [p], s) == Some(Apply(s, op.value)) && Progress(e, [p], s) == Apply(s, op.value)
    ensures var op := e.resolve(p, s);
            DevicesCreated(e, [p], s) ==
            if op.Some? && IsDevice(p) && First(s, op.value.kind, op.value.filter).None? then 1 else 0
  {
    assert [p][1..] == [];
  }

  lemma PlanThen(e: Engine, p: Plan, q: Plan, s: Store)
    requires e.resolve(p, s).Some? && !IsDevice(p)
    ensures var next := Apply(s, e.resolve(p, s).value);
            && Run(e, [p, q], s) == Run(e, [q], next) && Progress(e, [p, q], s) == Progress(e, [q], next)
            && DevicesCreated(e, [p, q], s) == DevicesCreated(e, [q], next)
  {
    assert [p, q][1..] == [q];
  }

  /** Only the item's own plan counts towards created devices. */
  lemma UpsertSucceeds(schema: map<Kind, set<string>>, section: SectionName, item: Item, ns: Option<nat>, s: Store, rels: map<string, Rel>)
    requires ResolveRels(SectionOf(section).rels, item, s) == Some(rels)
    ensures var plans := PlansForItem(section, item, ns); var mid := AfterAddress(section, item, ns, s);
            var op := ItemOp(schema, section, item, ns, AddressRel(section, item, ns, mid), rels);
            && Run(EngineFor(schema), plans, s) == Some(Apply(mid, op)) && Progress(EngineFor(schema), plans, s) == Apply(mid, op)
            && (section == Devices ==> DevicesCreated(EngineFor(schema), plans, s) == if First(mid, op.kind, op.filter).None? then 1 else 0)
            && (section != Devices ==> DevicesCreated(EngineFor(schema), plans, s) == 0)
  {
    var mid, last := AfterAddress(section, item, ns, s), ItemPlan(section, item, ns);
    if HasAddress(section, item, ns) {
      RelsSurviveAddress(section, item, ns.value, s);
      PlanThen(EngineFor(schema), IpPlan(section, item, ns.value), last, s);
      assert PlansForItem(section, item, ns) == [IpPlan(section, item, ns.value), last];
    } else {
      assert PlansForItem(section, item, ns) == [last];
    }
    OnePlan(EngineFor(schema), last, mid);
  }

  /** Materialising an address does not change what an item's relationships resolve to. */
  lemma RelsSurviveAddress(section: SectionName, item: Item, ns: nat, s: Store)
    requires HasAddress(section, item, Some(ns))
    ensures ResolveRels(SectionOf(section).rels, item, AfterAddress(section, item, Some(ns), s)) == ResolveRels(SectionOf(section).rels, item, s)
  {
    AddressUnread(section);
    AddressIsKeyed(item[SectionOf(section).addressField.value], ns);
    RelsSurvive(SectionOf(section).rels, item, s, AddressOp(item[SectionOf(section).addressField.value], ns));
  }

  /** An upsert of a kind that no peer has leaves what relationships resolve to. */
  lemma RelsSurvive(rels: seq<RelSpec>, item: Item, s: Store, op: Op)
    requires Keyed(op) && op.kind !in PeerKinds(rels)
    ensures ResolveRels(rels, item, Apply(s, op)) == ResolveRels(rels, item, s)
  {
    ApplyAgrees(s, op, PeerKinds(rels));
    ResolveRelsAgrees(rels, item, s, Apply(s, op));
  }

  lemma AddressIsKeyed(address: Json, ns: nat)
    ensures Keyed(AddressOp(address, ns))
  {
  }

  /** No relationship peer is an address. */
  lemma AddressUnread(section: SectionName)
    ensures IpamIPAddress !in PeerKinds(SectionOf(section).rels)
  {
    if IpamIPAddress in PeerKinds(SectionOf(section).rels) { PeersComeFirst(section, IpamIPAddress); }
  }

  /** What the upsert of a shadow does. */
  lemma ShadowEffect(schema: map<Kind, set<string>>, g: PeerGroup, device: string, vrf: nat, s: Store)
    requires Resolve(schema, GroupPlan(g, device, vrf), s).Some?
    ensures var name := ByName(ShadowName(g.name, device)); var t := Apply(s, Resolve(schema, GroupPlan(g, device, vrf), s).value);
            var found := First(s, RoutingBGPPeerGroup, name);
            Kept(s, t) && First(t, RoutingBGPPeerGroup, name) == Some(if found.Some? then found.value else |s|)
  {
    GroupOpIsKeyed(schema, g, device, vrf, s);
    ApplyEffect(s, Resolve(schema, GroupPlan(g, device, vrf), s).value);
  }

  // ---- Shadow ids ----

  type IdMap = map<string, map<string, nat>>

  /** The id map knows the shadow of a group on a device. */
  predicate HoldsShadow(name: string, device: string, ids: IdMap, s: Store)
  {
    && name in ids && device in ids[name]
    && First(s, RoutingBGPPeerGroup, ByName(ShadowName(name, device))) == Some(ids[name][device])
  }

  /** The id map holds exactly the pairs the plans materialise, each with its node's id. */
  predicate IdsFor(plans: seq<Plan>, ids: IdMap, s: Store)
  {
    && (forall p :: p in plans && p.GroupPlan? ==> HoldsShadow(p.group.name, p.device, ids, s))
    && (forall name, x :: name in ids && x in ids[name] ==> exists p :: p in plans && p.GroupPlan? && p.group.name == name && p.device == x)
  }

  function Lookup(ids: IdMap, x: Session): Option<nat>
  {
    if x.peerGroup.Some? && x.peerGroup.value in ids && x.localDevice in ids[x.peerGroup.value]
    then Some(ids[x.peerGroup.value][x.localDevice]) else None
  }

  function ShadowNode(d: Dataset, x: Session, s: Store): Option<nat>
  {
    var name := ShadowFor(d, x);
    if name.None? then None else First(s, RoutingBGPPeerGroup, ByName(name.value))
  }

  /** Looking a session up in the id map finds its own shadow, by name, and nothing otherwise. */
  predicate FindsShadows(d: Dataset, ids: IdMap, s: Store)
  {
    forall x :: x in SessionsOf(d) ==> Lookup(ids, x) == ShadowNode(d, x, s)
  }

  lemma IdsFindShadows(d: Dataset, order: Order, ids: IdMap, vrf: nat, s: Store)
    requires Enumerates(order, d) && IdsFor(GroupPlans(GroupsOf(d), order, vrf), ids, s)
    ensures FindsShadows(d, ids, s)
  {
    var plans := GroupPlans(GroupsOf(d), order, vrf);
    forall x | x in SessionsOf(d) ensures Lookup(ids, x) == ShadowNode(d, x, s) {
      if ShadowFor(d, x).Some? {
        var g :| g in GroupsOf(d) && g.name == x.peerGroup.value;
        assert x.localDevice in GroupDevices(d, g.name);
        GroupPlansAre(GroupsOf(d), order, vrf, GroupPlan(g, x.localDevice, vrf));
      } else if Lookup(ids, x).Some? {
        var p :| p in plans && p.GroupPlan? && p.group.name == x.peerGroup.value && p.device == x.localDevice;
        GroupPlansAre(GroupsOf(d), order, vrf, p);
      }
    }
  }

  function AddId(ids: IdMap, name: string, device: string, id: nat): IdMap
  {
    ids[name := (if name in ids then ids[name] else map[])[device := id]]
  }

  lemma IdsExtend(plans: seq<Plan>, k: nat, ids: IdMap, s: Store, t: Store, id: nat)
    requires k < |plans| && plans[k].GroupPlan? && IdsFor(plans[..k], ids, s) && Kept(s, t)
    requires First(t, RoutingBGPPeerGroup, ByName(ShadowName(plans[k].group.name, plans[k].device))) == Some(id)
    ensures IdsFor(plans[..k + 1], AddId(ids, plans[k].group.name, plans[k].device, id), t)
  {
    var next := AddId(ids, plans[k].group.name, plans[k].device, id);
    assert plans[..k + 1] == plans[..k] + [plans[k]];
    forall p | p in plans[..k + 1] && p.GroupPlan? ensures HoldsShadow(p.group.name, p.device, next, t) {
      if p in plans[..k] { ShadowStays(p.group.name, p.device, ids, s, t, plans[k].group.name, plans[k].device, id); }
    }
    forall n, y | n in next && y in next[n] ensures exists p :: p in plans[..k + 1] && p.GroupPlan? && p.group.name == n && p.device == y {
      PairListed(plans, k, ids, n, y, id);
    }
  }

  lemma ShadowStays(n: string, y: string, ids: IdMap, s: Store, t: Store, name: string, device: string, id: nat)
    requires HoldsShadow(n, y, ids, s) && Kept(s, t)
    requires First(t, RoutingBGPPeerGroup, ByName(ShadowName(name, device))) == Some(id)
    ensures HoldsShadow(n, y, AddId(ids, name, device, id), t)
  {
    FirstStable(s, t, RoutingBGPPeerGroup, ByName(ShadowName(n, y)));
  }

  lemma PairListed(plans: seq<Plan>, k: nat, ids: IdMap, n: string, y: string, id: nat)
    requires k < |plans| && plans[k].GroupPlan?
    requires forall name, x :: name in ids && x in ids[name] ==> exists p :: p in plans[..k] && p.GroupPlan? && p.group.name == name && p.device == x
    requires var next := AddId(ids, plans[k].group.name, plans[k].device, id); n in next && y in next[n]
    ensures exists p :: p in plans[..k + 1] && p.GroupPlan? && p.group.name == n && p.device == y
  {
    assert plans[..k + 1] == plans[..k] + [plans[k]];
    if n == plans[k].group.name && y == plans[k].device {
      assert plans[k] in plans[..k + 1];
    } else {
      var p :| p in plans[..k] && p.GroupPlan? && p.group.name == n && p.device == y;
      assert p in plans[..k + 1];
    }
  }

  datatype Peers = Peers(device: nat, local: map<string, Rel>, remote: map<string, Rel>)

  function PeersOf(x: Session, s: Store): Option<Peers>
  {
    var device := First(s, DcimDevice, ByName(x.localDevice));
    var local, remote := RequiredPeer("local_as", x.localAs, s), RequiredPeer("remote_as", x.remoteAs, s);
    if device.None? || local.None? || remote.None? then None else Some(Peers(device.value, local.value, remote.value))
  }

  function SessionWrite(d: Dataset, x: Session, vrf: nat, s: Store): Option<Op>
  {
    var peers := PeersOf(x, s);
    if peers.None? then None
    else Some(SessionOp(x, vrf, ShadowRel(ShadowFor(d, x), s), peers.value.device, peers.value.local, peers.value.remote, s))
  }

  lemma SessionResolves(schema: map<Kind, set<string>>, d: Dataset, x: Session, vrf: nat, s: Store)
    ensures EngineFor(schema).resolve(SessionPlan(x, vrf, ShadowFor(d, x)), s) == SessionWrite(d, x, vrf, s)
  {
  }

  /** The relation a session gets from the id map. */
  function GroupRel(ids: IdMap, x: Session): map<string, Rel>
  {
    if Lookup(ids, x).None? then map[] else map["peer_group" := One(Lookup(ids, x).value)]
  }

  lemma FoundShadow(d: Dataset, x: Session, ids: IdMap, s: Store)
    requires x in SessionsOf(d) && FindsShadows(d, ids, s)
    ensures ShadowRel(ShadowFor(d, x), s) == GroupRel(ids, x)
  {
  }

  /** The upsert of a session wired through the id map. */
  function WiredSession(x: Session, vrf: nat, ids: IdMap, peers: Peers, s: Store): Op
  {
    SessionOp(x, vrf, GroupRel(ids, x), peers.device, peers.local, peers.remote, s)
  }

  /** Wiring through the id map is the planned write, and leaves every shadow where it was. */
  lemma WiredAsPlanned(d: Dataset, x: Session, vrf: nat, ids: IdMap, s: Store)
    requires x in SessionsOf(d) && FindsShadows(d, ids, s)
    ensures var peers := PeersOf(x, s);
            SessionWrite(d, x, vrf, s) == if peers.None? then None else Some(WiredSession(x, vrf, ids, peers.value, s))
    ensures PeersOf(x, s).Some? ==> FindsShadows(d, ids, Apply(s, WiredSession(x, vrf, ids, PeersOf(x, s).value, s)))
  {
    FoundShadow(d, x, ids, s);
    if PeersOf(x, s).Some? { WiredKeepsShadows(d, x, vrf, ids, PeersOf(x, s).value, s); }
  }

  lemma WiredKeepsShadows(d: Dataset, x: Session, vrf: nat, ids: IdMap, peers: Peers, s: Store)
    requires FindsShadows(d, ids, s)
    ensures FindsShadows(d, ids, Apply(s, WiredSession(x, vrf, ids, peers, s)))
  {
    var op := WiredSession(x, vrf, ids, peers, s);
    assert op.filter.attrs == map["description" := op.attrs["description"]];
    SessionKeepsShadows(d, ids, s, op);
  }

  /** A session's upsert leaves every shadow where it was. */
  lemma SessionKeepsShadows(d: Dataset, ids: IdMap, s: Store, op: Op)
    requires FindsShadows(d, ids, s) && Keyed(op) && op.kind == RoutingBGPSession
    ensures FindsShadows(d, ids, Apply(s, op))
  {
    ApplyAgrees(s, op, {RoutingBGPPeerGroup});
    forall x | x in SessionsOf(d) && ShadowFor(d, x).Some? ensures ShadowNode(d, x, Apply(s, op)) == ShadowNode(d, x, s) {
      FirstAgrees(s, Apply(s, op), {RoutingBGPPeerGroup}, RoutingBGPPeerGroup, ByName(ShadowFor(d, x).value));
    }
  }

  lemma GroupPlansTail(gs: seq<PeerGroup>, i: nat, order: Order, vrf: nat)
    requires i < |gs| && gs[i].name in order
    ensures GroupPlans(gs[i..], order, vrf) == ShadowsOf(gs[i], order[gs[i].name], vrf) + GroupPlans(gs[i + 1..], order, vrf)
  {
    assert gs[i..][1..] == gs[i + 1..];
  }

  lemma NextShadow(all: seq<Plan>, count: nat, g: PeerGroup, devices: seq<string>, j: nat, vrf: nat, later: seq<Plan>)
    requires count <= |all| && j < |devices| && all[count..] == ShadowsOf(g, devices[j..], vrf) + later
    ensures count < |all| && all[count] == GroupPlan(g, devices[j], vrf) && all[count..][0] == all[count]
    ensures all[count..][1..] == all[count + 1..] == ShadowsOf(g, devices[j + 1..], vrf) + later
  {
    var rest := all[count..];
    assert |rest| > 0 && rest[0] == ShadowsOf(g, devices[j..], vrf)[0];
    assert ShadowsOf(g, devices[j..], vrf)[1..] == ShadowsOf(g, devices[j + 1..], vrf);
    assert rest[1..] == ShadowsOf(g, devices[j..], vrf)[1..] + later;
  }

  lemma NoShadowsLeft(g: PeerGroup, devices: seq<string>, vrf: nat, later: seq<Plan>)
    ensures ShadowsOf(g, devices[|devices|..], vrf) + later == later
  {
  }

  // ---- Whole runs ----

  datatype SeedResult = SeedResult(devicesCreated: int, devicesUpdated: int, totalRecords: int)

  /** The store the BGP part leaves behind, whether or not it fails on the way. */
  function BgpProgress(e: Engine, d: Dataset, order: Order, mid: Store): Store
  {
    if !HasBgp(d) || DefaultVrf(mid).None? then mid
    else Progress(e, BgpPlans(d, order, DefaultVrf(mid).value), mid)
  }

  /** How many BGP records are processed; None when one fails. */
  function BgpCount(e: Engine, d: Dataset, order: Order, mid: Store): Option<nat>
  {
    if !HasBgp(d) then Some(0)
    else
      var vrf := DefaultVrf(mid);
      if vrf.None? || Run(e, BgpPlans(d, order, vrf.value), mid).None? then None
      else Some(|BgpPlans(d, order, vrf.value)|)
  }

  /** The store a run over the given sections leaves behind, whether or not it fails on the way. */
  function MainProgress(e: Engine, d: Dataset, names: seq<SectionName>, order: Order, ns: Option<nat>, s: Store): Store
  {
    var main := PlansForSections(d, names, ns);
    var mid := Progress(e, main, s);
    if Run(e, main, s).Some? then BgpProgress(e, d, order, mid) else mid
  }

  function Report(d: Dataset, created: nat, total: nat, bgp: Option<nat>): Option<SeedResult>
  {
    if bgp.Some? then Some(SeedResult(created, |ItemsOf(d, Devices)| - created, total + bgp.value)) else None
  }

  /** What a run over the given sections reports; None when it fails. */
  function MainResult(e: Engine, d: Dataset, names: seq<SectionName>, order: Order, ns: Option<nat>, s: Store): Option<SeedResult>
  {
    var main := PlansForSections(d, names, ns);
    if Run(e, main, s).Some? then
      Report(d, DevicesCreated(e, main, s), ItemCount(d, names), BgpCount(e, d, order, Progress(e, main, s)))
    else None
  }

  function SeedProgress(e: Engine, d: Dataset, order: Order, s: Store): Store
  {
    if !Validates(d) || (NeedsNamespace(d) && DefaultNamespace(s).None?) then s
    else MainProgress(e, d, SEED_ORDER, order, if NeedsNamespace(d) then DefaultNamespace(s) else None, s)
  }

  function ResultOf(o: Outcome): Option<SeedResult>
  {
    if o.Failed? then None else Some(SeedResult(o.devicesCreated, o.devicesUpdated, o.total))
  }

  lemma BgpParts(e: Engine, d: Dataset, order: Order, mid: Store, created: nat)
    ensures var count := BgpCount(e, d, order, mid);
            SeedBgp(e, d, order, mid, created) ==
            if count.None? then Failed else Finish(d, BgpProgress(e, d, order, mid), created, count.value)
  {
    if HasBgp(d) && DefaultVrf(mid).Some? {
      var bgp := BgpPlans(d, order, DefaultVrf(mid).value);
      if Run(e, bgp, mid).Some? { RunProgress(e, bgp, mid); }
    }
  }

  /** The BGP part after any plans that ran. */
  lemma PartsAfter(e: Engine, d: Dataset, order: Order, main: seq<Plan>, s: Store)
    requires Run(e, main, s).Some?
    ensures var mid := Progress(e, main, s); var count := BgpCount(e, d, order, mid);
            && Run(e, main, s) == Some(mid)
            && SeedBgp(e, d, order, mid, DevicesCreated(e, main, s)) ==
               if count.None? then Failed else Finish(d, BgpProgress(e, d, order, mid), DevicesCreated(e, main, s), count.value)
  {
    RunProgress(e, main, s);
    BgpParts(e, d, order, Progress(e, main, s), DevicesCreated(e, main, s));
  }

  /** A run is its main part and then its BGP part. */
  lemma MainParts(e: Engine, d: Dataset, order: Order, ns: Option<nat>, s: Store)
    ensures MainResult(e, d, SEED_ORDER, order, ns, s) == ResultOf(SeedMain(e, d, order, ns, s))
    ensures SeedMain(e, d, order, ns, s).Done? ==> MainProgress(e, d, SEED_ORDER, order, ns, s) == SeedMain(e, d, order, ns, s).store
  {
    var main := MainPlans(d, ns);
    if Run(e, main, s).Some? {
      PartsAfter(e, d, order, main, s);
      var mid, created := Progress(e, main, s), DevicesCreated(e, main, s);
      assert SeedMain(e, d, order, ns, s) == SeedBgp(e, d, order, mid, created);
      Reported(d, BgpProgress(e, d, order, mid), created, BgpCount(e, d, order, mid));
    } else {
      assert SeedMain(e, d, order, ns, s) == Failed;
    }
  }

  lemma Reported(d: Dataset, end: Store, created: nat, count: Option<nat>)
    ensures ResultOf(if count.None? then Failed else Finish(d, end, created, count.value)) == Report(d, created, ItemCount(d, SEED_ORDER), count)
  {
  }

  /** A successful seed leaves the store it reports, so SeedTwice speaks about the ingester's store. */
  lemma SeedLeavesItsStore(e: Engine, d: Dataset, order: Order, s: Store)
    requires Seeded(e, d, order, s).Done?
    ensures SeedProgress(e, d, order, s) == Seeded(e, d, order, s).store
  {
    MainParts(e, d, order, if NeedsNamespace(d) then DefaultNamespace(s) else None, s);
  }

  /**
   What `Ingester.Seed` promises twice over: seeding the same dataset again leaves every node as it
   is, reports no device created, all updated, and the same total.
   */
  lemma SeedingAgainChangesNothing(schema: map<Kind, set<string>>, d: Dataset, first: Order, second: Order, s: Store)
    requires SchemaDeclaresKeys(schema) && RowsCarryKeys(d) && Enumerates(first, d) && Enumerates(second, d)
    requires ResultOf(Seeded(EngineFor(schema), d, first, s)).Some?
    ensures var e := EngineFor(schema);
            var t, total := SeedProgress(e, d, first, s), ResultOf(Seeded(e, d, first, s)).value.totalRecords;
            SeedProgress(e, d, second, t) == t
            && ResultOf(Seeded(e, d, second, t)) == Some(SeedResult(0, |ItemsOf(d, Devices)|, total))
  {
    var e := EngineFor(schema);
    var once := Seeded(e, d, first, s);
    SeedTwice(schema, d, first, second, s);
    SeedLeavesItsStore(e, d, first, s);
    SeedLeavesItsStore(e, d, second, once.store);
  }

  lemma ProgressConcat(e: Engine, a: seq<Plan>, b: seq<Plan>, s: Store)
    ensures Progress(e, a + b, s) ==
            if Run(e, a, s).Some? then Progress(e, b, Progress(e, a, s)) else Progress(e, a, s)
    decreases a
  {
    if a == [] {
      assert a + b == b;
    } else {
      assert (a + b)[1..] == a[1..] + b;
      var op := e.resolve(a[0], s);
      if op.Some? { ProgressConcat(e, a[1..], b, Apply(s, op.value)); }
    }
  }

  /** Finishing a block of plans hands over to the plans after it. */
  lemma BlockContinues(e: Engine, all: seq<Plan>, s0: Store, block: seq<Plan>, rest: seq<Plan>, s: Store, created: nat)
    requires Continues(e, all, s0, block + rest, s, created)
    ensures Run(e, block, s).None? ==> Run(e, all, s0) == None && Progress(e, all, s0) == Progress(e, block, s)
    ensures Run(e, block, s).Some? ==>
      Continues(e, all, s0, rest, Progress(e, block, s), created + DevicesCreated(e, block, s))
  {
    RunConcat(e, block, rest, s);
    ProgressConcat(e, block, rest, s);
    if Run(e, block, s).Some? {
      RunProgress(e, block, s);
      CreatedConcat(e, block, rest, s);
    }
  }

  lemma {:induction false} CreatedConcat(e: Engine, a: seq<Plan>, b: seq<Plan>, s: Store)
    requires Run(e, a, s).Some?
    ensures DevicesCreated(e, a + b, s) == DevicesCreated(e, a, s) + DevicesCreated(e, b, Run(e, a, s).value)
    decreases a
  {
    if a == [] {
      assert a + b == b;
    } else {
      assert (a + b)[1..] == a[1..] + b;
      CreatedConcat(e, a[1..], b, Apply(s, e.resolve(a[0], s).value));
    }
  }

  function Overlay(a: map<string, Rel>, b: Option<map<string, Rel>>): Option<map<string, Rel>>
  {
    if b.None? then None else Some(a + b.value)
  }

  lemma OverlaySome(a: map<string, Rel>, b: Option<map<string, Rel>>)
    ensures Overlay(map[], b) == b && Overlay(a, Some(map[])) == Some(a)
  {
    if b.Some? { assert map[] + b.value == b.value; }
    assert a + map[] == a;
  }

  lemma OverlayShift(a: map<string, Rel>, b: map<string, Rel>, c: Option<map<string, Rel>>)
    ensures Overlay(a, Overlay(b, c)) == Overlay(a + b, c)
  {
    if c.Some? { assert a + (b + c.value) == a + b + c.value; }
  }

  class Ingester {
    var nodes: Store
    const schema: map<Kind, set<string>>

    function engine(): Engine { EngineFor(schema) }

    constructor (nodes: Store, schema: map<Kind, set<string>>)
      ensures this.nodes == nodes && this.schema == schema
    {
      this.nodes := nodes;
      this.schema := schema;
    }

    /** `_materialise_ip_address`: the address's node, created when it does not exist. */
    method MaterialiseIpAddress(address: Json, ns: nat) returns (id: nat)
      modifies this`nodes
      ensures var op := Op(IpamIPAddress, AddressFilter(address, ns), map["address" := address], map["ip_namespace" := One(ns)], false);
              nodes == Apply(old(nodes), op) && First(nodes, IpamIPAddress, AddressFilter(address, ns)) == Some(id)
    {
      ghost var op := Op(IpamIPAddress, AddressFilter(address, ns), map["address" := address], map["ip_namespace" := One(ns)], false);
      ApplyEffect(nodes, op);
      var existing := First(nodes, IpamIPAddress, AddressFilter(address, ns));
      if existing.Some? {
        id := existing.value;
      } else {
        id := |nodes|;
        nodes := nodes + [Node(IpamIPAddress, map["address" := address], map["ip_namespace" := One(ns)])];
      }
    }

    /** `_resolve_relationships`: None raises for an unresolvable peer. */
    method ResolveRelationships(rels: seq<RelSpec>, item: Item) returns (resolved: Option<map<string, Rel>>)
      ensures resolved == ResolveRels(rels, item, nodes)
    {
      var found: map<string, Rel> := map[];
      assert rels[0..] == rels;
      OverlaySome(map[], ResolveRels(rels, item, nodes));
      for i := 0 to |rels|
        invariant ResolveRels(rels, item, nodes) == Overlay(found, ResolveRels(rels[i..], item, nodes))
      {
        assert rels[i..][1..] == rels[i + 1..];
        if rels[i].field in item {
          var peer := First(nodes, rels[i].peer, ByAttr(rels[i].lookup, item[rels[i].field]));
          if peer.None? {
            return None;
          }
          OverlayShift(found, map[rels[i].field := One(peer.value)], ResolveRels(rels[i + 1..], item, nodes));
          found := found + map[rels[i].field := One(peer.value)];
        }
      }
      OverlaySome(found, None);
      resolved := Some(found);
    }

    /** Update the first match in place, or create; relations are written only at creation. */
    method Save(op: Op) returns (created: bool, id: nat)
      requires op.touch
      modifies this`nodes
      ensures nodes == Apply(old(nodes), op)
      ensures created == First(old(nodes), op.kind, op.filter).None?
      ensures id == if created then |old(nodes)| else First(old(nodes), op.kind, op.filter).value
    {
      var existing := First(nodes, op.kind, op.filter);
      if existing.Some? {
        id := existing.value;
        nodes := nodes[id := nodes[id].(attrs := nodes[id].attrs + op.attrs)];
        created := false;
      } else {
        id := |nodes|;
        nodes := nodes + [Node(op.kind, op.attrs, op.rels)];
        created := true;
      }
    }

    /** Materialise an item's address, if it carries one, and say which relation it is wired into. */
    method WireAddress(section: SectionName, item: Item, ns: Option<nat>) returns (address: map<string, Rel>)
      modifies this`nodes
      ensures nodes == AfterAddress(section, item, ns, old(nodes)) && address == AddressRel(section, item, ns, nodes)
    {
      var sec := SectionOf(section);
      if ns.Some? && sec.addressField.Some? && sec.addressField.value in item {
        var id := MaterialiseIpAddress(item[sec.addressField.value], ns.value);
        address := map[sec.addressRel := if section == Interfaces then Many([id]) else One(id)];
      } else {
        address := map[];
      }
    }

    /** `_upsert_item`: whether a node was created, or None when a relationship cannot be resolved. */
    method UpsertItem(section: SectionName, item: Item, ns: Option<nat>) returns (created: Option<bool>)
      modifies this`nodes
      ensures var plans := PlansForItem(section, item, ns);
              && nodes == Progress(engine(), plans, old(nodes))
              && (created.Some? <==> Run(engine(), plans, old(nodes)).Some?)
              && (created.Some? ==> DevicesCreated(engine(), plans, old(nodes)) == if section == Devices && created.value then 1 else 0)
    {
      ghost var s := nodes;
      var rels := ResolveRelationships(SectionOf(section).rels, item);
      if rels.None? {
        UpsertFails(schema, section, item, ns, s);
        return None;
      }
      UpsertSucceeds(schema, section, item, ns, s, rels.value);
      var address := WireAddress(section, item, ns);
      var isNew, _ := Save(ItemOp(schema, section, item, ns, address, rels.value));
      created := Some(isNew);
    }

    /** One shadow of a peer group: its id, or None when the device does not exist. */
    method SeedShadow(g: PeerGroup, device: string, vrf: nat) returns (id: Option<nat>)
      modifies this`nodes
      ensures var op := Resolve(schema, GroupPlan(g, device, vrf), old(nodes));
              if op.None? then id.None? && nodes == old(nodes) else id.Some? && nodes == Apply(old(nodes), op.value)
      ensures Kept(old(nodes), nodes)
      ensures id.Some? ==> First(nodes, RoutingBGPPeerGroup, ByName(ShadowName(g.name, device))) == id
    {
      var peer := First(nodes, DcimDevice, ByName(device));
      if peer.None? {
        return None;
      }
      var op := Op(RoutingBGPPeerGroup, ByName(ShadowName(g.name, device)), GroupAttrs(g, device),
                   map["device" := One(peer.value), "vrf" := One(vrf)], true);
      ShadowEffect(schema, g, device, vrf, nodes);
      var _, saved := Save(op);
      id := Some(saved);
    }

    /** `_seed_bgp_peer_groups`: one shadow per declared group and device using it, and their ids. */
    method SeedPeerGroups(d: Dataset, order: Order, vrf: nat) returns (ids: Option<IdMap>, count: nat)
      requires Enumerates(order, d)
      modifies this`nodes
      ensures var plans := GroupPlans(GroupsOf(d), order, vrf);
              && nodes == Progress(engine(), plans, old(nodes))
              && (ids.Some? <==> Run(engine(), plans, old(nodes)).Some?)
              && (ids.Some? ==> count == |plans| && IdsFor(plans, ids.value, nodes) && FindsShadows(d, ids.value, nodes))
    {
      var gs := GroupsOf(d);
      ghost var all, start := GroupPlans(gs, order, vrf), nodes;
      var found: IdMap := map[];
      count := 0;
      assert gs[0..] == gs && all[0..] == all;
      for i := 0 to |gs|
        invariant count <= |all| && all[count..] == GroupPlans(gs[i..], order, vrf)
        invariant Continues(engine(), all, start, all[count..], nodes, 0)
        invariant IdsFor(all[..count], found, nodes)
      {
        var g := gs[i];
        GroupPlansTail(gs, i, order, vrf);
        assert g in gs;
        ghost var later := GroupPlans(gs[i + 1..], order, vrf);
        var devices := order[g.name];
        assert devices[0..] == devices;
        for j := 0 to |devices|
          invariant count <= |all| && all[count..] == ShadowsOf(g, devices[j..], vrf) + later
          invariant Continues(engine(), all, start, all[count..], nodes, 0)
          invariant IdsFor(all[..count], found, nodes)
        {
          NextShadow(all, count, g, devices, j, vrf, later);
          StepContinues(engine(), all, start, all[count..], nodes, 0);
          ghost var before := nodes;
          var id := SeedShadow(g, devices[j], vrf);
          if id.None? {
            return None, count;
          }
          IdsExtend(all, count, found, before, nodes, id.value);
          found := AddId(found, g.name, devices[j], id.value);
          count := count + 1;
        }
        NoShadowsLeft(g, devices, vrf, later);
      }
      assert all[..count] == all;
      IdsFindShadows(d, order, found, vrf, nodes);
      ids := Some(found);
    }

    /** The peers a session must have; None when one does not exist. */
    method SessionPeers(x: Session) returns (peers: Option<Peers>)
      ensures peers == PeersOf(x, nodes)
    {
      var device := First(nodes, DcimDevice, ByName(x.localDevice));
      if device.None? {
        return None;
      }
      var local := RequiredPeer("local_as", x.localAs, nodes);
      if local.None? {
        return None;
      }
      var remote := RequiredPeer("remote_as", x.remoteAs, nodes);
      if remote.None? {
        return None;
      }
      peers := Some(Peers(device.value, local.value, remote.value));
    }

    /** One session, wired to its own shadow when it is created; false when a named peer does not exist. */
    method SeedSession(x: Session, vrf: nat, ids: IdMap) returns (ok: bool)
      modifies this`nodes
      ensures var peers := PeersOf(x, old(nodes));
              if peers.None? then !ok && nodes == old(nodes)
              else ok && nodes == Apply(old(nodes), WiredSession(x, vrf, ids, peers.value, old(nodes)))
    {
      var peers := SessionPeers(x);
      if peers.None? {
        return false;
      }
      var _, _ := Save(WiredSession(x, vrf, ids, peers.value, nodes));
      ok := true;
    }

    /** `_seed_bgp_sessions`: every session upserted by description. */
    method SeedSessions(d: Dataset, vrf: nat, ids: IdMap) returns (count: Option<nat>)
      requires FindsShadows(d, ids, nodes)
      modifies this`nodes
      ensures var plans := SessionPlans(d, SessionsOf(d), vrf);
              && nodes == Progress(engine(), plans, old(nodes))
              && (count.Some? <==> Run(engine(), plans, old(nodes)).Some?)
              && (count.Some? ==> count.value == |plans|)
    {
      var xs := SessionsOf(d);
      ghost var all, start := SessionPlans(d, xs, vrf), nodes;
      assert all[0..] == all;
      for i := 0 to |xs|
        invariant Continues(engine(), all, start, all[i..], nodes, 0)
        invariant FindsShadows(d, ids, nodes)
      {
        assert all[i..][1..] == all[i + 1..] && all[i..][0] == all[i];
        StepContinues(engine(), all, start, all[i..], nodes, 0);
        SessionResolves(schema, d, xs[i], vrf, nodes);
        WiredAsPlanned(d, xs[i], vrf, ids, nodes);
        var ok := SeedSession(xs[i], vrf, ids);
        if !ok {
          return None;
        }
      }
      count := Some(|xs|);
    }

    /** One generic section: every item upserted in order. */
    method SeedSection(name: SectionName, items: seq<Item>, ns: Option<nat>) returns (ok: bool, created: nat)
      modifies this`nodes
      ensures var plans := PlansForItems(name, items, ns);
              && nodes == Progress(engine(), plans, old(nodes))
              && (ok <==> Run(engine(), plans, old(nodes)).Some?)
              && (ok ==> created == DevicesCreated(engine(), plans, old(nodes)))
    {
      ghost var all, start := PlansForItems(name, items, ns), nodes;
      created := 0;
      assert items[0..] == items;
      for i := 0 to |items|
        invariant Continues(engine(), all, start, PlansForItems(name, items[i..], ns), nodes, created)
      {
        assert items[i..][1..] == items[i + 1..];
        BlockContinues(engine(), all, start, PlansForItem(name, items[i], ns), PlansForItems(name, items[i + 1..], ns), nodes, created);
        var isNew := UpsertItem(name, items[i], ns);
        if isNew.None? {
          return false, created;
        }
        if name == Devices && isNew.value {
          created := created + 1;
        }
      }
      ok := true;
    }

    /** The generic sections in order; total counts the records processed. */
    method SeedSections(d: Dataset, names: seq<SectionName>, ns: Option<nat>) returns (ok: bool, created: nat, total: nat)
      modifies this`nodes
      ensures var plans := PlansForSections(d, names, ns);
              && nodes == Progress(engine(), plans, old(nodes))
              && (ok <==> Run(engine(), plans, old(nodes)).Some?)
              && (ok ==> created == DevicesCreated(engine(), plans, old(nodes)) && total == ItemCount(d, names))
    {
      ghost var all, start := PlansForSections(d, names, ns), nodes;
      created, total := 0, 0;
      assert names[0..] == names;
      for k := 0 to |names|
        invariant Continues(engine(), all, start, PlansForSections(d, names[k..], ns), nodes, created)
        invariant total + ItemCount(d, names[k..]) == ItemCount(d, names)
      {
        var name := names[k];
        assert names[k..][1..] == names[k + 1..];
        BlockContinues(engine(), all, start, PlansForItems(name, ItemsOf(d, name), ns), PlansForSections(d, names[k + 1..], ns), nodes, created);
        var done, new_ := SeedSection(name, ItemsOf(d, name), ns);
        if !done {
          return false, created, total;
        }
        created := created + new_;
        total := total + |ItemsOf(d, name)|;
      }
      ok := true;
    }

    /** The two BGP sections, given the default VRF. */
    method SeedBgpSections(d: Dataset, order: Order, vrf: nat) returns (count: Option<nat>)
      requires Enumerates(order, d)
      modifies this`nodes
      ensures var plans := BgpPlans(d, order, vrf);
              && nodes == Progress(engine(), plans, old(nodes))
              && (count.Some? <==> Run(engine(), plans, old(nodes)).Some?)
              && (count.Some? ==> count.value == |plans|)
    {
      ghost var mid := nodes;
      ghost var groups, sessions := GroupPlans(GroupsOf(d), order, vrf), SessionPlans(d, SessionsOf(d), vrf);
      RunConcat(engine(), groups, sessions, mid);
      ProgressConcat(engine(), groups, sessions, mid);
      var ids, groupCount := SeedPeerGroups(d, order, vrf);
      if ids.None? {
        return None;
      }
      RunProgress(engine(), groups, mid);
      var sessionCount := SeedSessions(d, vrf, ids.value);
      if sessionCount.None? {
        return None;
      }
      count := Some(groupCount + sessionCount.value);
    }

    /** The BGP part, if the dataset has one: how many records, or None when it fails. */
    method SeedBgpPart(d: Dataset, order: Order) returns (count: Option<nat>)
      requires Enumerates(order, d)
      modifies this`nodes
      ensures nodes == BgpProgress(engine(), d, order, old(nodes))
      ensures count == BgpCount(engine(), d, order, old(nodes))
    {
      if !HasBgp(d) {
        return Some(0);
      }
      var vrf := DefaultVrf(nodes);
      if vrf.None? {
        return None;
      }
      count := SeedBgpSections(d, order, vrf.value);
    }

    /** Everything after validation, given the default namespace if one is needed. */
    method SeedFrom(d: Dataset, names: seq<SectionName>, order: Order, ns: Option<nat>) returns (r: Option<SeedResult>)
      requires Enumerates(order, d)
      modifies this`nodes
      ensures nodes == MainProgress(engine(), d, names, order, ns, old(nodes))
      ensures r == MainResult(engine(), d, names, order, ns, old(nodes))
    {
      var ok, created, total := SeedSections(d, names, ns);
      if !ok {
        return None;
      }
      var bgp := SeedBgpPart(d, order);
      r := Report(d, created, total, bgp);
    }

    /** `seed`: None raises, and then the store holds what was written before the failure. */
    method Seed(d: Dataset, order: Order) returns (r: Option<SeedResult>)
      requires Enumerates(order, d)
      modifies this`nodes
      ensures nodes == SeedProgress(engine(), d, order, old(nodes))
      ensures r == ResultOf(Seeded(engine(), d, order, old(nodes)))
    {
      if !Validates(d) {
        return None;
      }
      var ns: Option<nat> := None;
      if NeedsNamespace(d) {
        ns := DefaultNamespace(nodes);
        if ns.None? {
          return None;
        }
      }
      MainParts(engine(), d, order, ns, nodes);
      r := SeedFrom(d, SEED_ORDER, order, ns);
    }
  }
}
