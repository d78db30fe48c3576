/**
 A whole seed dataset as plans, and the fixed-point theorem for it.

 Peer-group shadows are visited per group in the iteration order of a Python set, which may
 differ between runs; `order` stands for that choice and the theorem holds for any two of them.
 */
module SeedDataset {
  import opened Prelude
  import opened Dicts
  import opened Json
  import opened SeedStore
  import opened SeedPlans
  import opened SeedFixedPoint

  /** A section that is absent is not in the map; an absent BGP section is None. */
  datatype Dataset = Dataset(
    sections: map<SectionName, seq<Item>>,
    groups: Option<seq<PeerGroup>>,
    sessions: Option<seq<Session>>)

  type Order = map<string, seq<string>>

  function ItemsOf(d: Dataset, name: SectionName): seq<Item>
  {
    if name in d.sections then d.sections[name] else []
  }

  function SessionsOf(d: Dataset): seq<Session> { if d.sessions.Some? then d.sessions.value else [] }

  // ---- Peer groups ----

  /** Assigning to a dict: an existing key keeps its position and takes the new value. */
  function Assign(gs: seq<PeerGroup>, g: PeerGroup): seq<PeerGroup>
  {
    if gs == [] then [g]
    else if gs[0].name == g.name then [g] + gs[1..]
    else [gs[0]] + Assign(gs[1..], g)
  }

  function AssignAll(gs: seq<PeerGroup>, more: seq<PeerGroup>): seq<PeerGroup>
    decreases more
  {
    if more == [] then gs else AssignAll(Assign(gs, more[0]), more[1..])
  }

  /** `{pg["name"]: pg for pg in declarations}`: first position, last declaration. */
  function GroupMap(gs: seq<PeerGroup>): seq<PeerGroup> { AssignAll([], gs) }

  function GroupsOf(d: Dataset): seq<PeerGroup> { if d.groups.Some? then GroupMap(d.groups.value) else [] }

  /** The local devices whose sessions name the group. */
  function GroupDevices(d: Dataset, group: string): set<string>
  {
    if group == "" then {} else set x | x in SessionsOf(d) && x.peerGroup == Some(group) :: x.localDevice
  }

  /** `order` lists each declared group's devices once each. */
  ghost predicate Enumerates(order: Order, d: Dataset)
  {
    forall g :: g in GroupsOf(d) ==>
      && g.name in order
      && (forall x :: x in order[g.name] <==> x in GroupDevices(d, g.name))
      && (forall i, j :: 0 <= i < j < |order[g.name]| ==> order[g.name][i] != order[g.name][j])
  }

  function ShadowsOf(g: PeerGroup, devices: seq<string>, vrf: nat): (r: seq<Plan>)
    ensures |r| == |devices| && forall i :: 0 <= i < |r| ==> r[i] == GroupPlan(g, devices[i], vrf)
  {
    seq(|devices|, i requires 0 <= i < |devices| => GroupPlan(g, devices[i], vrf))
  }

  function GroupPlans(gs: seq<PeerGroup>, order: Order, vrf: nat): seq<Plan>
  {
    if gs == [] then []
    else (if gs[0].name in order then ShadowsOf(gs[0], order[gs[0].name], vrf) else []) + GroupPlans(gs[1..], order, vrf)
  }

  /** The shadow a session points to: its declared group on its own device. */
  function ShadowFor(d: Dataset, x: Session): Option<string>
  {
    if x.peerGroup.Some? && x.peerGroup.value != "" && exists g :: g in GroupsOf(d) && g.name == x.peerGroup.value
    then Some(ShadowName(x.peerGroup.value, x.localDevice)) else None
  }

  function SessionPlans(d: Dataset, xs: seq<Session>, vrf: nat): (r: seq<Plan>)
    ensures |r| == |xs| && forall i :: 0 <= i < |r| ==> r[i] == SessionPlan(xs[i], vrf, ShadowFor(d, xs[i]))
  {
    seq(|xs|, i requires 0 <= i < |xs| => SessionPlan(xs[i], vrf, ShadowFor(d, xs[i])))
  }

  function BgpPlans(d: Dataset, order: Order, vrf: nat): seq<Plan>
  {
    GroupPlans(GroupsOf(d), order, vrf) + SessionPlans(d, SessionsOf(d), vrf)
  }

  // ---- Generic sections ----

  function PlansForItem(name: SectionName, item: Item, ns: Option<nat>): seq<Plan>
  {
    var field := SectionOf(name).addressField;
    (if ns.Some? && field.Some? && field.value in item then [IpPlan(name, item, ns.value)] else []) + [ItemPlan(name, item, ns)]
  }

  function PlansForItems(name: SectionName, items: seq<Item>, ns: Option<nat>): seq<Plan>
  {
    if items == [] then [] else PlansForItem(name, items[0], ns) + PlansForItems(name, items[1..], ns)
  }

  function PlansForSections(d: Dataset, names: seq<SectionName>, ns: Option<nat>): seq<Plan>
    decreases names, d
  {
    if names == [] then [] else PlansForItems(names[0], ItemsOf(d, names[0]), ns) + PlansForSections(d, names[1..], ns)
  }

  function MainPlans(d: Dataset, ns: Option<nat>): seq<Plan> { PlansForSections(d, SEED_ORDER, ns) }

  // ---- The run ----

  const DEVICE_REQUIRED_FIELDS: set<string> := {"name", "role", "use_case", "device_type", "location"}

  predicate Validates(d: Dataset)
  {
    forall item :: item in ItemsOf(d, Devices) ==> DEVICE_REQUIRED_FIELDS <= item.Keys
  }

  /** Python truthiness of a scalar attribute. */
  predicate TruthyValue(j: Json)
  {
    match j
    case Null => false
    case Bool(b) => b
    case Num(n) => n != 0
    case Str(s) => s != ""
    case Arr(items) => items != []
    case Obj(_, fields) => fields != map[]
  }

  predicate NeedsNamespace(d: Dataset)
  {
    Vrfs in d.sections || IpPrefixes in d.sections || Interfaces in d.sections ||
    exists item :: item in ItemsOf(d, Devices) && "management_ip" in item && TruthyValue(item["management_ip"])
  }

  predicate HasBgp(d: Dataset) { d.groups.Some? || d.sessions.Some? }

  function DefaultNamespace(s: Store): Option<nat> { First(s, IpamNamespace, ByAttr("default", Bool(true))) }

  function DefaultVrf(s: Store): Option<nat> { First(s, IpamVRF, ByName("default")) }

  datatype Outcome = Failed | Done(store: Store, devicesCreated: int, devicesUpdated: int, total: nat)

  function ItemCount(d: Dataset, names: seq<SectionName>): nat
    decreases names, d
  {
    if names == [] then 0 else |ItemsOf(d, names[0])| + ItemCount(d, names[1..])
  }

  function Finish(d: Dataset, store: Store, created: nat, bgp: nat): Outcome
  {
    Done(store, created, |ItemsOf(d, Devices)| - created, ItemCount(d, SEED_ORDER) + bgp)
  }

  function SeedBgp(e: Engine, d: Dataset, order: Order, mid: Store, created: nat): Outcome
  {
    if !HasBgp(d) then Finish(d, mid, created, 0)
    else
      var vrf := DefaultVrf(mid);
      if vrf.None? then Failed
      else
        var plans := BgpPlans(d, order, vrf.value);
        var end := Run(e, plans, mid);
        if end.None? then Failed else Finish(d, end.value, created, |plans|)
  }

  function SeedMain(e: Engine, d: Dataset, order: Order, ns: Option<nat>, s: Store): Outcome
  {
    var mid := Run(e, MainPlans(d, ns), s);
    if mid.None? then Failed
    else SeedBgp(e, d, order, mid.value, DevicesCreated(e, MainPlans(d, ns), s))
  }

  /** `SeedIngester.seed` on a starting store. */
  function Seeded(e: Engine, d: Dataset, order: Order, s: Store): Outcome
  {
    if !Validates(d) then Failed
    else if !NeedsNamespace(d) then SeedMain(e, d, order, None, s)
    else
      var ns := DefaultNamespace(s);
      if ns.None? then Failed else SeedMain(e, d, order, ns, s)
  }

  // ---- Concatenation ----

  lemma {:induction false} RunConcat(e: Engine, a: seq<Plan>, b: seq<Plan>, s: Store)
    ensures Run(e, a + b, s) == if Run(e, a, s).None? then None else Run(e, b, Run(e, a, s).value)
    ensures Run(e, a + b, s).Some? ==> DevicesCreated(e, a, s) <= DevicesCreated(e, a + b, s)
    decreases a
  {
    if a == [] {
      assert a + b == b;
    } else {
      assert (a + b)[1..] == a[1..] + b;
      var op := e.resolve(a[0], s);
      if op.Some? { RunConcat(e, a[1..], b, Apply(s, op.value)); }
    }
  }

  lemma {:induction false} WritesConcat(e: Engine, a: seq<Plan>, b: seq<Plan>, n: nat, t: Store)
    ensures Writes(e, a + b, n, t) == Writes(e, a, n, t) + Writes(e, b, n, t)
  {
    if a == [] {
      assert a + b == b;
      assert map[] + Writes(e, b, n, t) == Writes(e, b, n, t);
    } else {
      assert (a + b)[1..] == a[1..] + b;
      WritesConcat(e, a[1..], b, n, t);
      OverlayAssociates(Write(e, a[0], n, t), Writes(e, a[1..], n, t), Writes(e, b, n, t));
    }
  }

  // ---- Set order does not matter ----

  /** The device whose shadow of `g` node `n` is, going by its name. */
  ghost predicate Owns(g: PeerGroup, device: string, n: nat, t: Store)
  {
    n < |t| && "name" in t[n].attrs && t[n].attrs["name"] == Str(ShadowName(g.name, device))
  }

  lemma OwnerUnique(g: PeerGroup, a: string, b: string, n: nat, t: Store)
    requires Owns(g, a, n, t) && Owns(g, b, n, t)
    ensures a == b
  {
    var k := |g.name| + 1;
    assert ShadowName(g.name, a)[k..] == a && ShadowName(g.name, b)[k..] == b;
  }

  lemma OnlyOwnerWrites(e: Engine, g: PeerGroup, device: string, vrf: nat, n: nat, t: Store)
    requires NamesShadows(e) && Target(e, GroupPlan(g, device, vrf), t) == Some(n)
    ensures Owns(g, device, n, t)
  {
    var f := ByName(ShadowName(g.name, device));
    assert Matches(t[n], RoutingBGPPeerGroup, f);
    assert "name" in f.attrs;
  }

  lemma ShadowsHead(e: Engine, g: PeerGroup, devices: seq<string>, vrf: nat, n: nat, t: Store)
    requires devices != []
    ensures Writes(e, ShadowsOf(g, devices, vrf), n, t)
         == Write(e, GroupPlan(g, devices[0], vrf), n, t) + Writes(e, ShadowsOf(g, devices[1..], vrf), n, t)
  {
    assert ShadowsOf(g, devices, vrf)[1..] == ShadowsOf(g, devices[1..], vrf);
  }

  lemma OthersWriteNothing(e: Engine, g: PeerGroup, device: string, vrf: nat, n: nat, t: Store)
    requires NamesShadows(e)
    requires !Owns(g, device, n, t)
    ensures Write(e, GroupPlan(g, device, vrf), n, t) == map[]
  {
    if Target(e, GroupPlan(g, device, vrf), t) == Some(n) { OnlyOwnerWrites(e, g, device, vrf, n, t); }
  }

  /** Among the shadows of one group, at most one plan writes to a given node. */
  lemma {:induction false} ShadowWrites(e: Engine, g: PeerGroup, devices: seq<string>, owner: string, vrf: nat, n: nat, t: Store)
    requires NamesShadows(e)
    requires NoRepeat(devices) && forall x :: x in devices && Owns(g, x, n, t) ==> x == owner
    ensures Writes(e, ShadowsOf(g, devices, vrf), n, t) ==
            if owner in devices then Write(e, GroupPlan(g, owner, vrf), n, t) else map[]
  {
    if devices != [] {
      var x, rest := devices[0], devices[1..];
      assert devices == [x] + rest;
      ShadowWrites(e, g, rest, owner, vrf, n, t);
      ShadowsHead(e, g, devices, vrf, n, t);
      if x == owner {
        assert owner !in rest;
      } else {
        OthersWriteNothing(e, g, x, vrf, n, t);
      }
      OverlayNothing(Writes(e, ShadowsOf(g, rest, vrf), n, t));
      OverlayNothing(Write(e, GroupPlan(g, x, vrf), n, t));
    }
  }

  lemma OverlayNothing(w: Item)
    ensures map[] + w == w && w + map[] == w
  {
  }

  lemma ShadowOrderIrrelevant(e: Engine, g: PeerGroup, a: seq<string>, b: seq<string>, vrf: nat, n: nat, t: Store)
    requires NamesShadows(e)
    requires NoRepeat(a) && NoRepeat(b) && forall x :: x in a <==> x in b
    ensures Writes(e, ShadowsOf(g, a, vrf), n, t) == Writes(e, ShadowsOf(g, b, vrf), n, t)
  {
    var owner := "";
    if x :| x in a && Owns(g, x, n, t) {
      owner := x;
      forall y | y in a && Owns(g, y, n, t) ensures y == owner { OwnerUnique(g, y, owner, n, t); }
    }
    ShadowWrites(e, g, a, owner, vrf, n, t);
    ShadowWrites(e, g, b, owner, vrf, n, t);
  }

  lemma {:induction false} GroupOrderIrrelevant(e: Engine, gs: seq<PeerGroup>, a: Order, b: Order, vrf: nat, n: nat, t: Store)
    requires NamesShadows(e)
    requires forall g :: g in gs ==> g.name in a && g.name in b && NoRepeat(a[g.name]) && NoRepeat(b[g.name])
                                     && forall x :: x in a[g.name] <==> x in b[g.name]
    ensures Writes(e, GroupPlans(gs, a, vrf), n, t) == Writes(e, GroupPlans(gs, b, vrf), n, t)
  {
    if gs != [] {
      var g := gs[0];
      assert g in gs && forall h :: h in gs[1..] ==> h in gs;
      GroupOrderIrrelevant(e, gs[1..], a, b, vrf, n, t);
      ShadowOrderIrrelevant(e, g, a[g.name], b[g.name], vrf, n, t);
      WritesConcat(e, ShadowsOf(g, a[g.name], vrf), GroupPlans(gs[1..], a, vrf), n, t);
      WritesConcat(e, ShadowsOf(g, b[g.name], vrf), GroupPlans(gs[1..], b, vrf), n, t);
    }
  }

  // ---- Dependency order of a dataset ----

  /** Places never decrease and stay within bounds. */
  predicate Climbs(plans: seq<Plan>, lo: nat, hi: nat)
  {
    (forall i :: 0 <= i < |plans| ==> lo <= Place(plans[i]) <= hi) &&
    (forall i, j :: 0 <= i < j < |plans| ==> Place(plans[i]) <= Place(plans[j]))
  }

  lemma ClimbsConcat(a: seq<Plan>, b: seq<Plan>, lo: nat, mid: nat, up: nat, hi: nat)
    requires Climbs(a, lo, mid) && Climbs(b, up, hi) && lo <= mid <= up <= hi
    ensures Climbs(a + b, lo, hi)
  {
  }

  lemma {:induction false} ItemsClimb(name: SectionName, items: seq<Item>, ns: Option<nat>)
    ensures Climbs(PlansForItems(name, items, ns), Rank(SectionOf(name).kind), Rank(SectionOf(name).kind))
  {
    if items != [] {
      var r := Rank(SectionOf(name).kind);
      ItemsClimb(name, items[1..], ns);
      ClimbsConcat(PlansForItem(name, items[0], ns), PlansForItems(name, items[1..], ns), r, r, r, r);
    }
  }

  function SectionRank(name: SectionName): nat { Rank(SectionOf(name).kind) }

  /** SEED_ORDER lists the sections by rank. */
  lemma SeedOrderRanks(k: nat)
    requires k < 10
    ensures SectionRank(SEED_ORDER[k]) == k + 1
  {
  }

  lemma {:induction false} SectionsClimb(d: Dataset, k: nat, ns: Option<nat>)
    requires k <= 10
    ensures Climbs(PlansForSections(d, SEED_ORDER[k..], ns), k, 10)
    decreases 10 - k
  {
    if k < 10 {
      var name := SEED_ORDER[k];
      assert SEED_ORDER[k..][1..] == SEED_ORDER[k + 1..];
      SeedOrderRanks(k);
      ItemsClimb(name, ItemsOf(d, name), ns);
      SectionsClimb(d, k + 1, ns);
      ClimbsConcat(PlansForItems(name, ItemsOf(d, name), ns), PlansForSections(d, SEED_ORDER[k + 1..], ns), k, k + 1, k + 1, 10);
    }
  }

  lemma {:induction false} GroupsClimb(gs: seq<PeerGroup>, order: Order, vrf: nat)
    ensures Climbs(GroupPlans(gs, order, vrf), 11, 11)
  {
    if gs != [] {
      GroupsClimb(gs[1..], order, vrf);
      var first := if gs[0].name in order then ShadowsOf(gs[0], order[gs[0].name], vrf) else [];
      ClimbsConcat(first, GroupPlans(gs[1..], order, vrf), 11, 11, 11, 11);
    }
  }

  /** Plans of a dataset, in SEED_ORDER with the BGP sections last, are dependency ordered. */
  lemma DatasetOrdered(d: Dataset, order: Order, ns: Option<nat>, vrf: nat)
    ensures Ordered(MainPlans(d, ns) + BgpPlans(d, order, vrf)) && Ordered(MainPlans(d, ns))
  {
    assert SEED_ORDER[0..] == SEED_ORDER;
    SectionsClimb(d, 0, ns);
    GroupsClimb(GroupsOf(d), order, vrf);
    ClimbsConcat(GroupPlans(GroupsOf(d), order, vrf), SessionPlans(d, SessionsOf(d), vrf), 11, 11, 12, 12);
    ClimbsConcat(MainPlans(d, ns), BgpPlans(d, order, vrf), 0, 10, 11, 12);
    PlacesOrder(MainPlans(d, ns) + BgpPlans(d, order, vrf));
    PlacesOrder(MainPlans(d, ns));
  }

  // ---- Records carry their keys ----

  /** Shadows are upserted under their own name. */
  ghost predicate NamesShadows(e: Engine)
  {
    forall g, device, vrf, s {:trigger e.resolve(GroupPlan(g, device, vrf), s)} ::
      var op := e.resolve(GroupPlan(g, device, vrf), s);
      op.Some? ==> op.value.kind == RoutingBGPPeerGroup && op.value.filter == ByName(ShadowName(g.name, device))
  }

  /** What the theorem asks of an engine; EngineFor meets it. */
  ghost predicate Follows(e: Engine)
  {
    NamesShadows(e) && forall p :: CarriesKey(p) ==> Behaves(e, p)
  }

  /** The ingester's own engine. */
  function EngineFor(schema: map<Kind, set<string>>): Engine { Engine((p, s) => Resolve(schema, p, s)) }

  lemma EngineFollows(schema: map<Kind, set<string>>)
    requires SchemaDeclaresKeys(schema)
    ensures Follows(EngineFor(schema))
  {
    var e := EngineFor(schema);
    forall p | CarriesKey(p) ensures Behaves(e, p) {
      forall s | e.resolve(p, s).Some? ensures Keyed(e.resolve(p, s).value) && e.resolve(p, s).value.kind == KindOf(p) {
        ResolvedOpIsKeyed(schema, p, s);
      }
      forall s, t | Agree(s, t, Reads(p)) ensures SameWrite(e.resolve(p, s), e.resolve(p, t)) {
        ResolveAgrees(schema, p, s, t);
      }
    }
  }

  /** Every record of a generic section carries its natural-key fields. */
  predicate RowsCarryKeys(d: Dataset)
  {
    forall name, item :: item in ItemsOf(d, name) ==> CarriesKey(ItemPlan(name, item, None))
  }

  lemma {:induction false} ItemsUsable(name: SectionName, items: seq<Item>, ns: Option<nat>)
    requires forall item :: item in items ==> CarriesKey(ItemPlan(name, item, None))
    ensures forall p :: p in PlansForItems(name, items, ns) ==> CarriesKey(p) && KindOf(p) !in {IpamNamespace, RoutingBGPPeerGroup, RoutingBGPSession}
  {
    if items != [] {
      assert items[0] in items && forall i :: i in items[1..] ==> i in items;
      ItemsUsable(name, items[1..], ns);
      assert CarriesKey(ItemPlan(name, items[0], None));
      forall p | p in PlansForItem(name, items[0], ns)
        ensures CarriesKey(p) && KindOf(p) !in {IpamNamespace, RoutingBGPPeerGroup, RoutingBGPSession}
      {
        assert p.IpPlan? || p == ItemPlan(name, items[0], ns);
      }
    }
  }

  lemma {:induction false} SectionsUsable(d: Dataset, names: seq<SectionName>, ns: Option<nat>)
    requires RowsCarryKeys(d)
    ensures forall p :: p in PlansForSections(d, names, ns) ==> CarriesKey(p) && KindOf(p) !in {IpamNamespace, RoutingBGPPeerGroup, RoutingBGPSession}
  {
    if names != [] {
      ItemsUsable(names[0], ItemsOf(d, names[0]), ns);
      SectionsUsable(d, names[1..], ns);
    }
  }

  lemma {:induction false} GroupPlansAre(gs: seq<PeerGroup>, order: Order, vrf: nat, p: Plan)
    ensures p in GroupPlans(gs, order, vrf) <==>
            p.GroupPlan? && p.vrf == vrf && p.group in gs && p.group.name in order && p.device in order[p.group.name]
  {
    if gs != [] {
      GroupPlansAre(gs[1..], order, vrf, p);
      assert forall g :: g in gs <==> g == gs[0] || g in gs[1..];
      if gs[0].name in order {
        assert p in ShadowsOf(gs[0], order[gs[0].name], vrf) <==> p.GroupPlan? && p.vrf == vrf && p.group == gs[0] && p.device in order[gs[0].name] by {
          var devices := order[gs[0].name];
          if p.GroupPlan? && p.vrf == vrf && p.group == gs[0] && p.device in devices {
            var i :| 0 <= i < |devices| && devices[i] == p.device;
            assert ShadowsOf(gs[0], devices, vrf)[i] == p;
          }
        }
      }
    }
  }

  lemma PlansUsable(e: Engine, d: Dataset, order: Order, ns: Option<nat>, vrf: nat)
    requires Follows(e) && RowsCarryKeys(d)
    ensures Usable(e, MainPlans(d, ns)) && Usable(e, BgpPlans(d, order, vrf)) && Usable(e, MainPlans(d, ns) + BgpPlans(d, order, vrf))
    ensures forall p :: p in MainPlans(d, ns) ==> KindOf(p) != IpamNamespace
    ensures forall p :: p in BgpPlans(d, order, vrf) ==> KindOf(p) !in {IpamNamespace, IpamVRF}
  {
    SectionsUsable(d, SEED_ORDER, ns);
    forall p | p in BgpPlans(d, order, vrf) ensures p.GroupPlan? || p.SessionPlan? {
      GroupPlansAre(GroupsOf(d), order, vrf, p);
    }
  }

  // ---- The theorem ----

  /** The plans of a second run write the same things to the same nodes and name no new record. */
  lemma SameDatasetSameWrites(e: Engine, d: Dataset, a: Order, b: Order, ns: Option<nat>, vrf: nat, t: Store)
    requires NamesShadows(e)
    requires Enumerates(a, d) && Enumerates(b, d)
    ensures SameWrites(e, MainPlans(d, ns) + BgpPlans(d, a, vrf), MainPlans(d, ns) + BgpPlans(d, b, vrf), t)
    ensures forall p :: p in MainPlans(d, ns) + BgpPlans(d, b, vrf) ==> p in MainPlans(d, ns) + BgpPlans(d, a, vrf)
  {
    var gs := GroupsOf(d);
    forall n | 0 <= n < |t|
      ensures Writes(e, MainPlans(d, ns) + BgpPlans(d, a, vrf), n, t) == Writes(e, MainPlans(d, ns) + BgpPlans(d, b, vrf), n, t)
    {
      GroupOrderIrrelevant(e, gs, a, b, vrf, n, t);
      WritesConcat(e, GroupPlans(gs, a, vrf), SessionPlans(d, SessionsOf(d), vrf), n, t);
      WritesConcat(e, GroupPlans(gs, b, vrf), SessionPlans(d, SessionsOf(d), vrf), n, t);
      WritesConcat(e, MainPlans(d, ns), BgpPlans(d, a, vrf), n, t);
      WritesConcat(e, MainPlans(d, ns), BgpPlans(d, b, vrf), n, t);
    }
    forall p | p in GroupPlans(gs, b, vrf) ensures p in GroupPlans(gs, a, vrf) {
      GroupPlansAre(gs, a, vrf, p);
      GroupPlansAre(gs, b, vrf, p);
    }
  }

  lemma {:induction false} GroupPlanCount(gs: seq<PeerGroup>, a: Order, b: Order, vrf: nat)
    requires forall g :: g in gs ==> g.name in a && g.name in b && NoRepeat(a[g.name]) && NoRepeat(b[g.name])
                                     && forall x :: x in a[g.name] <==> x in b[g.name]
    ensures |GroupPlans(gs, a, vrf)| == |GroupPlans(gs, b, vrf)|
  {
    if gs != [] {
      var g := gs[0];
      assert g in gs && forall h :: h in gs[1..] ==> h in gs;
      GroupPlanCount(gs[1..], a, b, vrf);
      NoRepeatCount(a[g.name]);
      NoRepeatCount(b[g.name]);
      assert (set x | x in a[g.name]) == (set x | x in b[g.name]);
    }
  }

  /** Replaying all plans from the finished store ends there, passing through some middle store. */
  lemma BgpReplay(e: Engine, d: Dataset, a: Order, b: Order, ns: Option<nat>, vrf: nat, s: Store)
    requires Follows(e) && RowsCarryKeys(d) && Enumerates(a, d) && Enumerates(b, d)
    requires Run(e, MainPlans(d, ns) + BgpPlans(d, a, vrf), s).Some?
    ensures var t := Run(e, MainPlans(d, ns) + BgpPlans(d, a, vrf), s).value;
            var mid := Run(e, MainPlans(d, ns), t);
            && mid.Some? && Run(e, BgpPlans(d, b, vrf), mid.value) == Some(t)
            && DevicesCreated(e, MainPlans(d, ns), t) == 0
  {
    var main, bgp, again := MainPlans(d, ns), BgpPlans(d, a, vrf), BgpPlans(d, b, vrf);
    var t := Run(e, main + bgp, s).value;
    PlansUsable(e, d, a, ns, vrf);
    PlansUsable(e, d, b, ns, vrf);
    DatasetOrdered(d, a, ns, vrf);
    DatasetOrdered(d, b, ns, vrf);
    SameDatasetSameWrites(e, d, a, b, ns, vrf, t);
    SecondRunIsFixedPoint(e, main + bgp, main + again, s);
    RunConcat(e, main, again, t);
  }

  /** The BGP sections do not change which VRF is the default one. */
  lemma VrfKept(e: Engine, d: Dataset, order: Order, vrf: nat, mid: Store)
    requires Follows(e) && RowsCarryKeys(d) && Run(e, BgpPlans(d, order, vrf), mid).Some?
    ensures DefaultVrf(Run(e, BgpPlans(d, order, vrf), mid).value) == DefaultVrf(mid)
  {
    PlansUsable(e, d, order, None, vrf);
    RunAgrees(e, BgpPlans(d, order, vrf), mid, {IpamVRF});
    FirstAgrees(mid, Run(e, BgpPlans(d, order, vrf), mid).value, {IpamVRF}, IpamVRF, ByName("default"));
  }

  /** What a successful seed with BGP sections consists of. */
  lemma BgpSeedParts(e: Engine, d: Dataset, order: Order, ns: Option<nat>, s: Store) returns (mid: Store, vrf: nat, t: Store)
    requires HasBgp(d) && SeedMain(e, d, order, ns, s).Done?
    ensures Run(e, MainPlans(d, ns), s) == Some(mid) && DefaultVrf(mid) == Some(vrf)
    ensures Run(e, BgpPlans(d, order, vrf), mid) == Some(t)
    ensures SeedMain(e, d, order, ns, s)
         == Finish(d, t, DevicesCreated(e, MainPlans(d, ns), s), |BgpPlans(d, order, vrf)|)
  {
    mid := Run(e, MainPlans(d, ns), s).value;
    vrf := DefaultVrf(mid).value;
    t := Run(e, BgpPlans(d, order, vrf), mid).value;
  }

  lemma BgpSeedFromParts(e: Engine, d: Dataset, order: Order, ns: Option<nat>, s: Store, mid: Store, vrf: nat, t: Store)
    requires HasBgp(d) && Run(e, MainPlans(d, ns), s) == Some(mid) && DefaultVrf(mid) == Some(vrf)
    requires Run(e, BgpPlans(d, order, vrf), mid) == Some(t)
    ensures SeedMain(e, d, order, ns, s)
         == Finish(d, t, DevicesCreated(e, MainPlans(d, ns), s), |BgpPlans(d, order, vrf)|)
  {
  }

  lemma BgpReplayed(e: Engine, d: Dataset, a: Order, b: Order, ns: Option<nat>, s: Store, mid: Store, vrf: nat, t: Store)
    requires Follows(e) && RowsCarryKeys(d) && Enumerates(a, d) && Enumerates(b, d) && HasBgp(d)
    requires Run(e, MainPlans(d, ns), s) == Some(mid) && DefaultVrf(mid) == Some(vrf) && Run(e, BgpPlans(d, a, vrf), mid) == Some(t)
    ensures SeedMain(e, d, b, ns, t) == Finish(d, t, 0, |BgpPlans(d, b, vrf)|)
  {
    RunConcat(e, MainPlans(d, ns), BgpPlans(d, a, vrf), s);
    BgpReplay(e, d, a, b, ns, vrf, s);
    var mid2 := Run(e, MainPlans(d, ns), t).value;
    VrfKept(e, d, a, vrf, mid);
    VrfKept(e, d, b, vrf, mid2);
    BgpSeedFromParts(e, d, b, ns, t, mid2, vrf, t);
  }

  lemma BgpSecondRun(e: Engine, d: Dataset, a: Order, b: Order, ns: Option<nat>, s: Store)
    requires Follows(e) && RowsCarryKeys(d) && Enumerates(a, d) && Enumerates(b, d) && HasBgp(d)
    requires SeedMain(e, d, a, ns, s).Done?
    ensures var first := SeedMain(e, d, a, ns, s);
            SeedMain(e, d, b, ns, first.store) == Done(first.store, 0, |ItemsOf(d, Devices)|, first.total)
  {
    var mid, vrf, t := BgpSeedParts(e, d, a, ns, s);
    BgpReplayed(e, d, a, b, ns, s, mid, vrf, t);
    GroupPlanCount(GroupsOf(d), a, b, vrf);
  }

  lemma PlainSecondRun(e: Engine, d: Dataset, a: Order, b: Order, ns: Option<nat>, s: Store)
    requires Follows(e) && RowsCarryKeys(d) && !HasBgp(d)
    requires SeedMain(e, d, a, ns, s).Done?
    ensures var first := SeedMain(e, d, a, ns, s);
            SeedMain(e, d, b, ns, first.store) == Done(first.store, 0, |ItemsOf(d, Devices)|, first.total)
  {
    PlansUsable(e, d, a, ns, 0);
    DatasetOrdered(d, a, ns, 0);
    SecondRunIsFixedPoint(e, MainPlans(d, ns), MainPlans(d, ns), s);
  }

  lemma NamespaceKept(e: Engine, d: Dataset, order: Order, ns: Option<nat>, s: Store)
    requires Follows(e) && RowsCarryKeys(d) && SeedMain(e, d, order, ns, s).Done?
    ensures DefaultNamespace(SeedMain(e, d, order, ns, s).store) == DefaultNamespace(s)
  {
    var mid := Run(e, MainPlans(d, ns), s).value;
    PlansUsable(e, d, order, ns, 0);
    RunAgrees(e, MainPlans(d, ns), s, {IpamNamespace});
    FirstAgrees(s, mid, {IpamNamespace}, IpamNamespace, ByAttr("default", Bool(true)));
    if HasBgp(d) {
      var vrf := DefaultVrf(mid).value;
      PlansUsable(e, d, order, ns, vrf);
      RunAgrees(e, BgpPlans(d, order, vrf), mid, {IpamNamespace});
      FirstAgrees(mid, Run(e, BgpPlans(d, order, vrf), mid).value, {IpamNamespace}, IpamNamespace, ByAttr("default", Bool(true)));
    }
  }

  lemma SeedTwiceWith(e: Engine, d: Dataset, first: Order, second: Order, s: Store)
    requires Follows(e) && RowsCarryKeys(d) && Enumerates(first, d) && Enumerates(second, d)
    requires Seeded(e, d, first, s).Done?
    ensures var once := Seeded(e, d, first, s);
            Seeded(e, d, second, once.store) == Done(once.store, 0, |ItemsOf(d, Devices)|, once.total)
  {
    var ns := if NeedsNamespace(d) then DefaultNamespace(s) else None;
    NamespaceKept(e, d, first, ns, s);
    if HasBgp(d) {
      BgpSecondRun(e, d, first, second, ns, s);
    } else {
      PlainSecondRun(e, d, first, second, ns, s);
    }
  }

  /**
   Seeding is a fixed point: after a successful seed from any store, seeding again creates no
   node, changes no attribute or relation, and reports no device created and the same total,
   whatever order the second run visits peer-group devices in and even when rows share a key.
   */
  lemma SeedTwice(schema: map<Kind, set<string>>, d: Dataset, first: Order, second: Order, s: Store)
    requires SchemaDeclaresKeys(schema) && RowsCarryKeys(d) && Enumerates(first, d) && Enumerates(second, d)
    requires Seeded(EngineFor(schema), d, first, s).Done?
    ensures var once := Seeded(EngineFor(schema), d, first, s);
            Seeded(EngineFor(schema), d, second, once.store) == Done(once.store, 0, |ItemsOf(d, Devices)|, once.total)
  {
    EngineFollows(schema);
    SeedTwiceWith(EngineFor(schema), d, first, second, s);
  }
}
