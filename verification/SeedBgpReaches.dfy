/**
 What a successful seed leaves of its BGP sections: shadows of the declared peer groups and
 sessions, attribute by attribute and relation by relation.
 */
module SeedBgpReaches {
  import opened Prelude
  import opened Dicts
  import opened Json
  import opened SeedStore
  import opened SeedPlans
  import opened SeedFixedPoint
  import opened SeedDataset
  import opened SeedReaches
  import opened SeedIngester
  import S = SeedShadows

  // ---- The parts of the run ----

  lemma MainIsGeneric(schema: map<Kind, set<string>>, d: Dataset, ns: Option<nat>)
    requires SchemaDeclaresKeys(schema) && RowsCarryKeys(d)
    ensures Usable(EngineFor(schema), MainPlans(d, ns))
    ensures forall p :: p in MainPlans(d, ns) ==> KindOf(p) != RoutingBGPPeerGroup && KindOf(p) != RoutingBGPSession
  {
    EngineFollows(schema);
    SectionsUsable(d, SEED_ORDER, ns);
  }

  /** A shadow or session is written by the BGP sections only. */
  lemma {:induction false} MainSilent(schema: map<Kind, set<string>>, d: Dataset, ns: Option<nat>, n: nat, t: Store)
    requires SchemaDeclaresKeys(schema) && RowsCarryKeys(d)
    requires n < |t| && (t[n].kind == RoutingBGPPeerGroup || t[n].kind == RoutingBGPSession)
    ensures Writes(EngineFor(schema), MainPlans(d, ns), n, t) == map[]
  {
    MainIsGeneric(schema, d, ns);
    NoWritesToKind(EngineFor(schema), MainPlans(d, ns), n, t);
  }

  lemma GroupsUsable(schema: map<Kind, set<string>>, d: Dataset, order: Order, vrf: nat)
    requires SchemaDeclaresKeys(schema)
    ensures Usable(EngineFor(schema), GroupPlans(GroupsOf(d), order, vrf)) && Usable(EngineFor(schema), SessionPlans(d, SessionsOf(d), vrf))
    ensures forall p :: p in GroupPlans(GroupsOf(d), order, vrf) ==> KindOf(p) == RoutingBGPPeerGroup
  {
    EngineFollows(schema);
    forall p | p in GroupPlans(GroupsOf(d), order, vrf) ensures p.GroupPlan? { GroupPlansAre(GroupsOf(d), order, vrf, p); }
    forall p | p in SessionPlans(d, SessionsOf(d), vrf) ensures CarriesKey(p) { assert p.SessionPlan?; }
  }

  function GroupPart(d: Dataset, order: Order, vrf: nat): seq<Plan> { if HasBgp(d) then GroupPlans(GroupsOf(d), order, vrf) else [] }

  function SessionPart(d: Dataset, vrf: nat): seq<Plan> { if HasBgp(d) then SessionPlans(d, SessionsOf(d), vrf) else [] }

  lemma ThreeParts(d: Dataset, order: Order, ns: Option<nat>, vrf: nat)
    ensures AllPlans(d, order, ns, vrf) == MainPlans(d, ns) + (GroupPart(d, order, vrf) + SessionPart(d, vrf))
  {
  }

  lemma {:induction false} PartsWrite(schema: map<Kind, set<string>>, d: Dataset, order: Order, ns: Option<nat>, vrf: nat, n: nat, t: Store)
    requires SchemaDeclaresKeys(schema) && RowsCarryKeys(d)
    requires n < |t| && (t[n].kind == RoutingBGPPeerGroup || t[n].kind == RoutingBGPSession)
    ensures Writes(EngineFor(schema), AllPlans(d, order, ns, vrf), n, t)
            == Writes(EngineFor(schema), GroupPart(d, order, vrf), n, t) + Writes(EngineFor(schema), SessionPart(d, vrf), n, t)
  {
    var e := EngineFor(schema);
    ThreeParts(d, order, ns, vrf);
    MainSilent(schema, d, ns, n, t);
    WritesConcat(e, MainPlans(d, ns), GroupPart(d, order, vrf) + SessionPart(d, vrf), n, t);
    WritesConcat(e, GroupPart(d, order, vrf), SessionPart(d, vrf), n, t);
    OverlayNothing(Writes(e, GroupPart(d, order, vrf), n, t) + Writes(e, SessionPart(d, vrf), n, t));
  }

  /** A shadow is written by the group part. */
  lemma {:induction false} GroupPartWrites(schema: map<Kind, set<string>>, d: Dataset, order: Order, ns: Option<nat>, vrf: nat, n: nat, t: Store)
    requires SchemaDeclaresKeys(schema) && RowsCarryKeys(d) && n < |t| && t[n].kind == RoutingBGPPeerGroup
    ensures Writes(EngineFor(schema), AllPlans(d, order, ns, vrf), n, t) == Writes(EngineFor(schema), GroupPart(d, order, vrf), n, t)
  {
    var e := EngineFor(schema);
    PartsWrite(schema, d, order, ns, vrf, n, t);
    GroupsUsable(schema, d, order, vrf);
    NoWritesToKind(e, SessionPart(d, vrf), n, t);
    OverlayNothing(Writes(e, GroupPart(d, order, vrf), n, t));
  }

  /** A session node is written by the session part. */
  lemma {:induction false} SessionPartWrites(schema: map<Kind, set<string>>, d: Dataset, order: Order, ns: Option<nat>, vrf: nat, n: nat, t: Store)
    requires SchemaDeclaresKeys(schema) && RowsCarryKeys(d) && n < |t| && t[n].kind == RoutingBGPSession
    ensures Writes(EngineFor(schema), AllPlans(d, order, ns, vrf), n, t) == Writes(EngineFor(schema), SessionPart(d, vrf), n, t)
  {
    var e := EngineFor(schema);
    PartsWrite(schema, d, order, ns, vrf, n, t);
    GroupsUsable(schema, d, order, vrf);
    NoWritesToKind(e, GroupPart(d, order, vrf), n, t);
    OverlayNothing(Writes(e, SessionPart(d, vrf), n, t));
  }

  // ---- Which declaration of a group counts ----

  /** Declaration `i` is the last one of its group. */
  predicate LastOfName(decls: seq<PeerGroup>, i: nat)
    requires i < |decls|
  {
    forall j :: i < j < |decls| ==> decls[j].name != decls[i].name
  }

  lemma {:induction false} AssignSets(gs: seq<PeerGroup>, g: PeerGroup)
    requires S.DistinctGroups(gs)
    ensures forall h :: h in Assign(gs, g) <==> h == g || (h in gs && h.name != g.name)
  {
    if gs != [] {
      assert forall h :: h in gs <==> h == gs[0] || h in gs[1..];
      if gs[0].name == g.name {
        assert forall h :: h in Assign(gs, g) <==> h == g || h in gs[1..];
      } else {
        AssignSets(gs[1..], g);
      }
    }
  }

  lemma {:induction false} AssignAllSets(gs: seq<PeerGroup>, more: seq<PeerGroup>, g: PeerGroup)
    requires S.DistinctGroups(gs)
    ensures g in AssignAll(gs, more) <==>
            (exists i :: 0 <= i < |more| && more[i] == g && LastOfName(more, i)) || (g in gs && forall i :: 0 <= i < |more| ==> more[i].name != g.name)
    decreases more
  {
    if more != [] {
      S.AssignKeepsDistinct(gs, more[0]);
      AssignSets(gs, more[0]);
      AssignAllSets(Assign(gs, more[0]), more[1..], g);
      LastInTail(more, g);
    }
  }

  lemma LastInTail(more: seq<PeerGroup>, g: PeerGroup)
    requires more != []
    ensures (exists i :: 0 <= i < |more| && more[i] == g && LastOfName(more, i)) <==>
            (exists i :: 0 <= i < |more[1..]| && more[1..][i] == g && LastOfName(more[1..], i))
            || (more[0] == g && forall i :: 0 <= i < |more[1..]| ==> more[1..][i].name != g.name)
  {
    assert forall i :: 0 <= i < |more[1..]| ==> more[1..][i] == more[i + 1];
    if i :| 0 <= i < |more| && more[i] == g && LastOfName(more, i) {
      if i > 0 { assert more[1..][i - 1] == g && LastOfName(more[1..], i - 1); }
    }
    if i :| 0 <= i < |more[1..]| && more[1..][i] == g && LastOfName(more[1..], i) {
      StillLast(more, i);
    }
    if more[0] == g && forall i :: 0 <= i < |more[1..]| ==> more[1..][i].name != g.name {
      assert LastOfName(more, 0);
    }
  }

  lemma StillLast(more: seq<PeerGroup>, i: nat)
    requires more != [] && i < |more[1..]| && LastOfName(more[1..], i)
    ensures more[i + 1] == more[1..][i] && LastOfName(more, i + 1)
  {
    forall j | i + 1 < j < |more| ensures more[j].name != more[i + 1].name { assert more[1..][j - 1] == more[j]; }
  }

  /** The groups that are materialised are the last declarations of their names. */
  lemma GroupsAreLastDeclared(d: Dataset, g: PeerGroup)
    requires d.groups.Some?
    ensures g in GroupsOf(d) <==> exists i :: 0 <= i < |d.groups.value| && d.groups.value[i] == g && LastOfName(d.groups.value, i)
  {
    AssignAllSets([], d.groups.value, g);
  }

  // ---- What a shadow is told ----

  /** Some session on the device names the group. */
  predicate UsedOn(d: Dataset, group: string, device: string)
  {
    group != "" && exists x :: x in SessionsOf(d) && x.peerGroup == Some(group) && x.localDevice == device
  }

  lemma UsersAreTheDevices(d: Dataset, group: string, device: string)
    ensures UsedOn(d, group, device) <==> device in GroupDevices(d, group)
  {
    if UsedOn(d, group, device) {
      var x :| x in SessionsOf(d) && x.peerGroup == Some(group) && x.localDevice == device;
      assert x.localDevice in GroupDevices(d, group);
    }
  }

  /** What a declaration says about its shadow on a device, attribute by attribute. */
  function GroupSays(g: PeerGroup, device: string, k: string): Option<Json>
  {
    if k == "name" then Some(Str(g.name + "@" + device))
    else if k == "description" then Some(Str((match g.description case Some(text) => text case None => g.name) + " (" + device + ")"))
    else if k == "status" then Some(match g.status case Some(status) => status case None => Str("active"))
    else if k in g.extra then Some(g.extra[k]) else None
  }

  function ShadowAt(name: string, t: Store): Option<nat> { First(t, RoutingBGPPeerGroup, ByAttr("name", Str(name))) }

  lemma GroupAttrsSay(g: PeerGroup, device: string, k: string)
    ensures k in GroupAttrs(g, device) <==> GroupSays(g, device, k).Some?
    ensures k in GroupAttrs(g, device) ==> GroupAttrs(g, device)[k] == GroupSays(g, device, k).value
  {
  }

  /** A shadow's plan writes what its declaration says, to the node of its name. */
  lemma ShadowWrite(schema: map<Kind, set<string>>, g: PeerGroup, device: string, vrf: nat, n: nat, t: Store, k: string)
    requires Target(EngineFor(schema), GroupPlan(g, device, vrf), t).Some?
    ensures Target(EngineFor(schema), GroupPlan(g, device, vrf), t) == ShadowAt(g.name + "@" + device, t)
    ensures var w := Write(EngineFor(schema), GroupPlan(g, device, vrf), n, t);
            && (k in w <==> ShadowAt(g.name + "@" + device, t) == Some(n) && GroupSays(g, device, k).Some?)
            && (k in w ==> w[k] == GroupSays(g, device, k).value)
  {
    GroupAttrsSay(g, device, k);
  }

  lemma EngineNamesShadows(schema: map<Kind, set<string>>)
    requires SchemaDeclaresKeys(schema)
    ensures NamesShadows(EngineFor(schema))
  {
    EngineFollows(schema);
  }

  /** A group's plan sets attribute `k` of node `n`. */
  predicate Sets(schema: map<Kind, set<string>>, g: PeerGroup, device: string, vrf: nat, n: nat, t: Store, k: string)
  {
    k in Write(EngineFor(schema), GroupPlan(g, device, vrf), n, t)
  }

  lemma GroupsSilent(schema: map<Kind, set<string>>, gs: seq<PeerGroup>, order: Order, vrf: nat, n: nat, t: Store, k: string)
    requires forall g, x :: g in gs && g.name in order && x in order[g.name] ==> !Sets(schema, g, x, vrf, n, t, k)
    ensures k !in Writes(EngineFor(schema), GroupPlans(gs, order, vrf), n, t)
  {
    var plans := GroupPlans(gs, order, vrf);
    forall j | 0 <= j < |plans| ensures k !in Write(EngineFor(schema), plans[j], n, t) {
      GroupPlansAre(gs, order, vrf, plans[j]);
      assert plans[j] in plans;
      assert !Sets(schema, plans[j].group, plans[j].device, vrf, n, t, k);
    }
    NobodyWrites(EngineFor(schema), plans, n, t, k);
  }

  /** Among one group's shadows a node is written by its own device's plan alone. */
  lemma OwnShadowWrites(schema: map<Kind, set<string>>, g: PeerGroup, devices: seq<string>, x: string, vrf: nat, n: nat, t: Store, k: string)
    requires SchemaDeclaresKeys(schema) && NoRepeat(devices) && x in devices && Sets(schema, g, x, vrf, n, t, k)
    ensures Writes(EngineFor(schema), ShadowsOf(g, devices, vrf), n, t) == Write(EngineFor(schema), GroupPlan(g, x, vrf), n, t)
  {
    var e := EngineFor(schema);
    EngineNamesShadows(schema);
    OnlyOwnerWrites(e, g, x, vrf, n, t);
    forall y | y in devices && Owns(g, y, n, t) ensures y == x { OwnerUnique(g, y, x, n, t); }
    ShadowWrites(e, g, devices, x, vrf, n, t);
  }

  predicate Listed(gs: seq<PeerGroup>, order: Order)
  {
    forall g :: g in gs ==> g.name in order && NoRepeat(order[g.name])
  }

  /** No group from `a` on sets attribute `k` of node `n`. */
  ghost predicate SilentFrom(schema: map<Kind, set<string>>, gs: seq<PeerGroup>, order: Order, a: nat, vrf: nat, n: nat, t: Store, k: string)
    requires Listed(gs, order)
  {
    forall b, y :: a <= b < |gs| && y in order[gs[b].name] ==> !Sets(schema, gs[b], y, vrf, n, t, k)
  }

  lemma SilentTail(schema: map<Kind, set<string>>, gs: seq<PeerGroup>, order: Order, a: nat, vrf: nat, n: nat, t: Store, k: string)
    requires gs != [] && Listed(gs, order) && SilentFrom(schema, gs, order, a + 1, vrf, n, t, k)
    ensures Listed(gs[1..], order) && SilentFrom(schema, gs[1..], order, a, vrf, n, t, k)
  {
    assert forall b :: 0 <= b < |gs[1..]| ==> gs[1..][b] == gs[b + 1];
  }

  lemma SilentAll(schema: map<Kind, set<string>>, gs: seq<PeerGroup>, order: Order, vrf: nat, n: nat, t: Store, k: string)
    requires Listed(gs, order) && SilentFrom(schema, gs, order, 0, vrf, n, t, k)
    ensures k !in Writes(EngineFor(schema), GroupPlans(gs, order, vrf), n, t)
  {
    forall g, x | g in gs && g.name in order && x in order[g.name] ensures !Sets(schema, g, x, vrf, n, t, k) {
      var b :| 0 <= b < |gs| && gs[b] == g;
    }
    GroupsSilent(schema, gs, order, vrf, n, t, k);
  }

  /** The last group to carry an attribute for a node is the one whose value it holds. */
  lemma {:induction false} GroupsWrite(schema: map<Kind, set<string>>, gs: seq<PeerGroup>, order: Order, a: nat, x: string, vrf: nat, n: nat, t: Store, k: string)
    requires SchemaDeclaresKeys(schema) && Listed(gs, order) && a < |gs| && x in order[gs[a].name]
    requires Sets(schema, gs[a], x, vrf, n, t, k) && SilentFrom(schema, gs, order, a + 1, vrf, n, t, k)
    ensures var w := Writes(EngineFor(schema), GroupPlans(gs, order, vrf), n, t);
            k in w && w[k] == Write(EngineFor(schema), GroupPlan(gs[a], x, vrf), n, t)[k]
    decreases a
  {
    SilentTail(schema, gs, order, a, vrf, n, t, k);
    if a == 0 {
      SilentAll(schema, gs[1..], order, vrf, n, t, k);
      OwnShadowWrites(schema, gs[0], order[gs[0].name], x, vrf, n, t, k);
    } else {
      assert gs[1..][a - 1] == gs[a];
      GroupsWrite(schema, gs[1..], order, a - 1, x, vrf, n, t, k);
    }
    WritesConcat(EngineFor(schema), ShadowsOf(gs[0], order[gs[0].name], vrf), GroupPlans(gs[1..], order, vrf), n, t);
  }

  /** A pair's plan is among the plans. */
  lemma PairListed(d: Dataset, order: Order, ns: Option<nat>, vrf: nat, g: PeerGroup, x: string)
    requires Enumerates(order, d) && HasBgp(d) && g in GroupsOf(d) && x in GroupDevices(d, g.name)
    ensures GroupPlan(g, x, vrf) in AllPlans(d, order, ns, vrf)
  {
    GroupPlansAre(GroupsOf(d), order, vrf, GroupPlan(g, x, vrf));
  }

  lemma PairTargets(schema: map<Kind, set<string>>, d: Dataset, order: Order, s: Store, t: Store, plans: seq<Plan>, vrf: nat, g: PeerGroup, x: string)
    requires RunOf(schema, d, order, s, t, plans, vrf) && Enumerates(order, d) && HasBgp(d) && g in GroupsOf(d) && x in GroupDevices(d, g.name)
    ensures Target(EngineFor(schema), GroupPlan(g, x, vrf), t).Some?
  {
    PairListed(d, order, NamespaceFor(d, s), vrf, g, x);
    RunSettles(EngineFor(schema), plans, s);
  }

  /** No later group has a device whose shadow is this one and says anything about `k`. */
  ghost predicate LastToSay(d: Dataset, a: nat, x: string, k: string)
    requires a < |GroupsOf(d)|
  {
    var gs := GroupsOf(d);
    forall b, y :: a < b < |gs| && UsedOn(d, gs[b].name, y) && gs[b].name + "@" + y == gs[a].name + "@" + x ==> GroupSays(gs[b], y, k).None?
  }

  lemma LaterSilent(schema: map<Kind, set<string>>, d: Dataset, order: Order, s: Store, t: Store, plans: seq<Plan>, vrf: nat, a: nat, x: string, n: nat, k: string, b: nat, y: string)
    requires RunOf(schema, d, order, s, t, plans, vrf) && Enumerates(order, d) && HasBgp(d)
    requires a < b < |GroupsOf(d)| && y in order[GroupsOf(d)[b].name] && LastToSay(d, a, x, k)
    requires ShadowAt(GroupsOf(d)[a].name + "@" + x, t) == Some(n)
    ensures !Sets(schema, GroupsOf(d)[b], y, vrf, n, t, k)
  {
    var g, h := GroupsOf(d)[a], GroupsOf(d)[b];
    assert h in GroupsOf(d) && y in GroupDevices(d, h.name);
    UsersAreTheDevices(d, h.name, y);
    PairTargets(schema, d, order, s, t, plans, vrf, h, y);
    ShadowWrite(schema, h, y, vrf, n, t, k);
    if Sets(schema, h, y, vrf, n, t, k) {
      SameName(t, n, g.name + "@" + x, h.name + "@" + y);
    }
  }

  lemma SameName(t: Store, n: nat, a: string, b: string)
    requires ShadowAt(a, t) == Some(n) && ShadowAt(b, t) == Some(n)
    ensures a == b
  {
    assert "name" in ByAttr("name", Str(a)).attrs && "name" in ByAttr("name", Str(b)).attrs;
    assert t[n].attrs["name"] == Str(a) && t[n].attrs["name"] == Str(b);
  }

  /**
   Every materialised group reaches the store once for each device whose sessions name it: the node
   found under `group@device` holds what the last declaration to say it says.
   */
  lemma ShadowReachesStore(schema: map<Kind, set<string>>, d: Dataset, order: Order, s: Store, a: nat, x: string, k: string)
    requires Seeds(schema, d, order, s) && a < |GroupsOf(d)| && UsedOn(d, GroupsOf(d)[a].name, x)
    requires GroupSays(GroupsOf(d)[a], x, k).Some? && LastToSay(d, a, x, k)
    ensures var t, g := StoreAfter(schema, d, order, s), GroupsOf(d)[a]; var n := ShadowAt(g.name + "@" + x, t);
            n.Some? && k in t[n.value].attrs && t[n.value].attrs[k] == GroupSays(g, x, k).value
  {
    var e, t, gs := EngineFor(schema), StoreAfter(schema, d, order, s), GroupsOf(d);
    var plans, vrf := SeedIsRun(schema, d, order, s);
    UsersAreTheDevices(d, gs[a].name, x);
    PairTargets(schema, d, order, s, t, plans, vrf, gs[a], x);
    ShadowWrite(schema, gs[a], x, vrf, 0, t, k);
    var n := ShadowAt(gs[a].name + "@" + x, t).value;
    ShadowWrite(schema, gs[a], x, vrf, n, t, k);
    forall b, y | a < b < |gs| && y in order[gs[b].name] ensures !Sets(schema, gs[b], y, vrf, n, t, k) {
      LaterSilent(schema, d, order, s, t, plans, vrf, a, x, n, k, b, y);
    }
    GroupsWrite(schema, gs, order, a, x, vrf, n, t, k);
    GroupPartWrites(schema, d, order, NamespaceFor(d, s), vrf, n, t);
    RunWrites(e, plans, s, n);
  }

  // ---- What a session is told ----

  function SessionSays(x: Session, k: string): Option<Json>
  {
    if k == "description" then Some(Str(x.description))
    else if k == "status" then Some(match x.status case Some(status) => status case None => Str("active"))
    else if k in x.extra then Some(x.extra[k]) else None
  }

  function SessionAt(x: Session, t: Store): Option<nat> { First(t, RoutingBGPSession, ByAttr("description", Str(x.description))) }

  lemma SessionAttrsSay(x: Session, k: string)
    ensures k in SessionAttrs(x) <==> SessionSays(x, k).Some?
    ensures k in SessionAttrs(x) ==> SessionAttrs(x)[k] == SessionSays(x, k).value
  {
  }

  lemma SessionWrite(schema: map<Kind, set<string>>, x: Session, vrf: nat, shadow: Option<string>, n: nat, t: Store, k: string)
    requires Target(EngineFor(schema), SessionPlan(x, vrf, shadow), t).Some?
    ensures Target(EngineFor(schema), SessionPlan(x, vrf, shadow), t) == SessionAt(x, t)
    ensures var w := Write(EngineFor(schema), SessionPlan(x, vrf, shadow), n, t);
            && (k in w <==> SessionAt(x, t) == Some(n) && SessionSays(x, k).Some?)
            && (k in w ==> w[k] == SessionSays(x, k).value)
  {
    SessionAttrsSay(x, k);
  }

  lemma SameDescription(t: Store, n: nat, a: Session, b: Session)
    requires SessionAt(a, t) == Some(n) && SessionAt(b, t) == Some(n)
    ensures a.description == b.description
  {
    assert "description" in ByAttr("description", Str(a.description)).attrs && "description" in ByAttr("description", Str(b.description)).attrs;
    assert t[n].attrs["description"] == Str(a.description) && t[n].attrs["description"] == Str(b.description);
  }

  lemma SessionTargets(schema: map<Kind, set<string>>, d: Dataset, order: Order, s: Store, t: Store, plans: seq<Plan>, vrf: nat, j: nat)
    requires RunOf(schema, d, order, s, t, plans, vrf) && j < |SessionsOf(d)|
    ensures HasBgp(d) && Target(EngineFor(schema), SessionPlan(SessionsOf(d)[j], vrf, ShadowFor(d, SessionsOf(d)[j])), t).Some?
  {
    assert SessionPlans(d, SessionsOf(d), vrf)[j] in plans;
    RunSettles(EngineFor(schema), plans, s);
  }

  lemma LaterSessionSilent(schema: map<Kind, set<string>>, d: Dataset, order: Order, s: Store, t: Store, plans: seq<Plan>, vrf: nat, j: nat, i: nat, n: nat, k: string)
    requires RunOf(schema, d, order, s, t, plans, vrf) && j < i < |SessionsOf(d)| && SessionAt(SessionsOf(d)[j], t) == Some(n)
    requires SessionsOf(d)[i].description == SessionsOf(d)[j].description ==> SessionSays(SessionsOf(d)[i], k).None?
    ensures k !in Write(EngineFor(schema), SessionPlans(d, SessionsOf(d), vrf)[i], n, t)
  {
    var x, y := SessionsOf(d)[j], SessionsOf(d)[i];
    SessionTargets(schema, d, order, s, t, plans, vrf, i);
    SessionWrite(schema, y, vrf, ShadowFor(d, y), n, t, k);
    if SessionAt(y, t) == Some(n) { SameDescription(t, n, y, x); }
  }

  /** What the session part writes to a session's node is what the last session to say it says. */
  lemma LastSessionWrites(schema: map<Kind, set<string>>, d: Dataset, order: Order, s: Store, t: Store, plans: seq<Plan>, vrf: nat, j: nat, k: string) returns (n: nat)
    requires RunOf(schema, d, order, s, t, plans, vrf) && j < |SessionsOf(d)| && SessionSays(SessionsOf(d)[j], k).Some?
    requires forall i :: j < i < |SessionsOf(d)| && SessionsOf(d)[i].description == SessionsOf(d)[j].description ==> SessionSays(SessionsOf(d)[i], k).None?
    ensures SessionAt(SessionsOf(d)[j], t) == Some(n)
    ensures var w := Writes(EngineFor(schema), SessionPlans(d, SessionsOf(d), vrf), n, t);
            k in w && w[k] == SessionSays(SessionsOf(d)[j], k).value
  {
    var x, own := SessionsOf(d)[j], SessionPlans(d, SessionsOf(d), vrf);
    SessionTargets(schema, d, order, s, t, plans, vrf, j);
    SessionWrite(schema, x, vrf, ShadowFor(d, x), 0, t, k);
    n := SessionAt(x, t).value;
    SessionWrite(schema, x, vrf, ShadowFor(d, x), n, t, k);
    forall i | j < i < |own| ensures k !in Write(EngineFor(schema), own[i], n, t) {
      LaterSessionSilent(schema, d, order, s, t, plans, vrf, j, i, n, k);
    }
    LastWriteWins(EngineFor(schema), own, n, t, j, k);
  }

  /** The last session of a description to say it decides what the session's node holds. */
  lemma SessionReachesStore(schema: map<Kind, set<string>>, d: Dataset, order: Order, s: Store, j: nat, k: string)
    requires Seeds(schema, d, order, s) && j < |SessionsOf(d)| && SessionSays(SessionsOf(d)[j], k).Some?
    requires forall i :: j < i < |SessionsOf(d)| && SessionsOf(d)[i].description == SessionsOf(d)[j].description ==> SessionSays(SessionsOf(d)[i], k).None?
    ensures var t, x := StoreAfter(schema, d, order, s), SessionsOf(d)[j]; var n := SessionAt(x, t);
            n.Some? && k in t[n.value].attrs && t[n.value].attrs[k] == SessionSays(x, k).value
  {
    var t := StoreAfter(schema, d, order, s);
    var plans, vrf := SeedIsRun(schema, d, order, s);
    var n := LastSessionWrites(schema, d, order, s, t, plans, vrf, j, k);
    SessionPartWrites(schema, d, order, NamespaceFor(d, s), vrf, n, t);
    RunWrites(EngineFor(schema), plans, s, n);
  }

  // ---- How a created shadow is wired ----

  /** A created node of a BGP kind was created by a plan of that kind. */
  lemma CreatorIsBgp(schema: map<Kind, set<string>>, plans: seq<Plan>, i: nat, at: Store)
    requires i < |plans| && EngineFor(schema).resolve(plans[i], at).Some?
    ensures EngineFor(schema).resolve(plans[i], at).value.kind == RoutingBGPPeerGroup ==> plans[i].GroupPlan?
    ensures EngineFor(schema).resolve(plans[i], at).value.kind == RoutingBGPSession ==> plans[i].SessionPlan?
  {
    if plans[i].ItemPlan? { KindsMatch(plans[i].section); }
  }

  lemma GroupAmongAll(schema: map<Kind, set<string>>, d: Dataset, order: Order, ns: Option<nat>, vrf: nat, p: Plan)
    requires SchemaDeclaresKeys(schema) && RowsCarryKeys(d) && p.GroupPlan? && p in AllPlans(d, order, ns, vrf)
    ensures HasBgp(d) && p.vrf == vrf && p.group in GroupsOf(d) && p.group.name in order && p.device in order[p.group.name]
  {
    MainIsGeneric(schema, d, ns);
    GroupPlansAre(GroupsOf(d), order, vrf, p);
  }

  /**
   Every shadow that a seed creates is of a declared group, on the node of a device that uses it and in
   the default VRF.
   */
  lemma CreatedShadowIsWired(schema: map<Kind, set<string>>, d: Dataset, order: Order, s: Store, n: nat) returns (g: PeerGroup, x: string)
    requires Seeds(schema, d, order, s) && |s| <= n < |StoreAfter(schema, d, order, s)|
    requires StoreAfter(schema, d, order, s)[n].kind == RoutingBGPPeerGroup
    ensures g in GroupsOf(d) && UsedOn(d, g.name, x)
    ensures var t := StoreAfter(schema, d, order, s); var device, vrf := First(t, DcimDevice, ByAttr("name", Str(x))), DefaultVrf(t);
            && ShadowAt(g.name + "@" + x, t) == Some(n)
            && device.Some? && vrf.Some? && t[n].rels == map["device" := One(device.value), "vrf" := One(vrf.value)]
  {
    var e, t, ns := EngineFor(schema), StoreAfter(schema, d, order, s), NamespaceFor(d, s);
    var plans, vrf := SeedIsRun(schema, d, order, s);
    var i, at := Creator(e, plans, s, n);
    CreatorIsBgp(schema, plans, i, at);
    g, x := plans[i].group, plans[i].device;
    GroupAmongAll(schema, d, order, ns, vrf, plans[i]);
    UsersAreTheDevices(d, g.name, x);
    SinceCreation(e, plans, s, t, n, i, at);
    FirstAgrees(at, t, {DcimDevice}, DcimDevice, ByName(x));
    ShadowWrite(schema, g, x, vrf, n, t, "name");
  }

  // ---- How a created session is wired ----

  /** The group a session names is declared. */
  predicate NamesGroup(d: Dataset, x: Session)
  {
    x.peerGroup.Some? && x.peerGroup.value != "" && d.groups.Some? && exists g :: g in d.groups.value && g.name == x.peerGroup.value
  }

  lemma DeclaredGroup(d: Dataset, x: Session)
    ensures ShadowFor(d, x) == if NamesGroup(d, x) then Some(x.peerGroup.value + "@" + x.localDevice) else None
  {
    if NamesGroup(d, x) {
      var g :| g in d.groups.value && g.name == x.peerGroup.value;
      var i := LastDeclaration(d.groups.value, g.name);
      GroupsAreLastDeclared(d, d.groups.value[i]);
    } else if ShadowFor(d, x).Some? {
      var g :| g in GroupsOf(d) && g.name == x.peerGroup.value;
      GroupsAreLastDeclared(d, g);
    }
  }

  lemma {:induction false} LastDeclaration(decls: seq<PeerGroup>, name: string) returns (i: nat)
    requires exists g :: g in decls && g.name == name
    ensures i < |decls| && decls[i].name == name && LastOfName(decls, i)
  {
    if h :| h in decls[1..] && h.name == name {
      i := LastDeclaration(decls[1..], name);
      StillLast(decls, i);
      i := i + 1;
    } else {
      i := 0;
      forall j | 0 < j < |decls| ensures decls[j].name != decls[0].name { assert decls[1..][j - 1] == decls[j]; }
    }
  }

  /** A relation to a node found by an attribute's value: there iff there is a value, which must then find a node. */
  predicate MustPoint(rels: map<string, Rel>, field: string, peer: Kind, attr: string, value: Option<Json>, t: Store)
  {
    if value.None? then field !in rels
    else
      var found := First(t, peer, ByAttr(attr, value.value));
      found.Some? && field in rels && rels[field] == One(found.value)
  }

  /** A relation that is there iff the value finds a node. */
  predicate MayPoint(rels: map<string, Rel>, field: string, peer: Kind, attr: string, value: Option<Json>, t: Store)
  {
    if value.None? then field !in rels
    else
      var found := First(t, peer, ByAttr(attr, value.value));
      if found.None? then field !in rels else field in rels && rels[field] == One(found.value)
  }

  const SESSION_RELS: set<string> := {"device", "vrf", "local_as", "remote_as", "local_ip", "remote_ip", "peer_group"}

  /** A session's relations, each from its own field of that name. */
  predicate SessionWired(d: Dataset, x: Session, rels: map<string, Rel>, t: Store)
  {
    && rels.Keys <= SESSION_RELS
    && MustPoint(rels, "device", DcimDevice, "name", Some(Str(x.localDevice)), t)
    && MustPoint(rels, "vrf", IpamVRF, "name", Some(Str("default")), t)
    && MustPoint(rels, "local_as", RoutingAutonomousSystem, "asn", x.localAs, t)
    && MustPoint(rels, "remote_as", RoutingAutonomousSystem, "asn", x.remoteAs, t)
    && MayPoint(rels, "local_ip", IpamIPAddress, "address", x.localIp, t)
    && MayPoint(rels, "remote_ip", IpamIPAddress, "address", x.remoteIp, t)
    && MustPoint(rels, "peer_group", RoutingBGPPeerGroup, "name",
                 if NamesGroup(d, x) then Some(Str(x.peerGroup.value + "@" + x.localDevice)) else None, t)
  }

  function Get(rels: map<string, Rel>, f: string): Option<Rel> { if f in rels then Some(rels[f]) else None }

  lemma OverlayAt(a: map<string, Rel>, b: map<string, Rel>, f: string)
    ensures Get(a + b, f) == if f in b then Get(b, f) else Get(a, f)
  {
  }

  /** In an overlay of parts with a field each, a field is what its own part says. */
  predicate PartsApart(local: map<string, Rel>, remote: map<string, Rel>, localIp: map<string, Rel>, remoteIp: map<string, Rel>, group: map<string, Rel>)
  {
    && local.Keys <= {"local_as"} && remote.Keys <= {"remote_as"}
    && localIp.Keys <= {"local_ip"} && remoteIp.Keys <= {"remote_ip"} && group.Keys <= {"peer_group"}
  }

  lemma OverlaidAt(local: map<string, Rel>, remote: map<string, Rel>, localIp: map<string, Rel>, remoteIp: map<string, Rel>, group: map<string, Rel>, last: map<string, Rel>, f: string)
    requires PartsApart(local, remote, localIp, remoteIp, group) && last.Keys == {"device", "vrf"}
    ensures Get(local + remote + localIp + remoteIp + group + last, f) ==
            if f == "device" || f == "vrf" then Get(last, f)
            else if f == "peer_group" then Get(group, f)
            else if f == "remote_ip" then Get(remoteIp, f)
            else if f == "local_ip" then Get(localIp, f)
            else if f == "remote_as" then Get(remote, f)
            else Get(local, f)
  {
    OverlayAt(local, remote, f);
    OverlayAt(local + remote, localIp, f);
    OverlayAt(local + remote + localIp, remoteIp, f);
    OverlayAt(local + remote + localIp + remoteIp, group, f);
    OverlayAt(local + remote + localIp + remoteIp + group, last, f);
  }

  function LocalIpRel(x: Session, s: Store): map<string, Rel> { OptionalPeer("local_ip", IpamIPAddress, ByAddress(x.localIp), s) }

  function RemoteIpRel(x: Session, s: Store): map<string, Rel> { OptionalPeer("remote_ip", IpamIPAddress, ByAddress(x.remoteIp), s) }

  /** Each relation of a session comes from one part. */
  lemma SessionRelAt(x: Session, vrf: nat, group: map<string, Rel>, peers: Peers, s: Store, f: string)
    requires peers.local.Keys <= {"local_as"} && peers.remote.Keys <= {"remote_as"} && group.Keys <= {"peer_group"}
    ensures Get(SessionRels(x, vrf, group, peers.device, peers.local, peers.remote, s), f) ==
            if f == "device" then Some(One(peers.device))
            else if f == "vrf" then Some(One(vrf))
            else if f == "peer_group" then Get(group, f)
            else if f == "remote_ip" then Get(RemoteIpRel(x, s), f)
            else if f == "local_ip" then Get(LocalIpRel(x, s), f)
            else if f == "remote_as" then Get(peers.remote, f)
            else Get(peers.local, f)
  {
    OverlaidAt(peers.local, peers.remote, LocalIpRel(x, s), RemoteIpRel(x, s), group, map["device" := One(peers.device), "vrf" := One(vrf)], f);
  }

  lemma PeersPoint(x: Session, s: Store)
    requires PeersOf(x, s).Some?
    ensures var peers := PeersOf(x, s).value;
            && peers.local.Keys <= {"local_as"} && peers.remote.Keys <= {"remote_as"}
            && First(s, DcimDevice, ByAttr("name", Str(x.localDevice))) == Some(peers.device)
            && MustPoint(peers.local, "local_as", RoutingAutonomousSystem, "asn", x.localAs, s)
            && MustPoint(peers.remote, "remote_as", RoutingAutonomousSystem, "asn", x.remoteAs, s)
  {
  }

  lemma IpsPoint(x: Session, s: Store)
    ensures MayPoint(LocalIpRel(x, s), "local_ip", IpamIPAddress, "address", x.localIp, s)
    ensures MayPoint(RemoteIpRel(x, s), "remote_ip", IpamIPAddress, "address", x.remoteIp, s)
  {
  }

  /** The session's shadow, as a relation. */
  lemma ShadowPoints(d: Dataset, x: Session, s: Store)
    ensures var group := ShadowRel(ShadowFor(d, x), s);
            && group.Keys <= {"peer_group"}
            && MayPoint(group, "peer_group", RoutingBGPPeerGroup, "name",
                        if NamesGroup(d, x) then Some(Str(x.peerGroup.value + "@" + x.localDevice)) else None, s)
  {
    DeclaredGroup(d, x);
  }

  lemma FieldsKnown(x: Session, vrf: nat, group: map<string, Rel>, peers: Peers, s: Store)
    requires peers.local.Keys <= {"local_as"} && peers.remote.Keys <= {"remote_as"} && group.Keys <= {"peer_group"}
    ensures SessionRels(x, vrf, group, peers.device, peers.local, peers.remote, s).Keys <= SESSION_RELS
  {
    var rels := SessionRels(x, vrf, group, peers.device, peers.local, peers.remote, s);
    forall f | f in rels ensures f in SESSION_RELS { SessionRelAt(x, vrf, group, peers, s, f); }
  }

  /** What is left to show of a session's relations is that its default VRF and shadow are found. */
  predicate NearlyWired(d: Dataset, x: Session, vrf: nat, rels: map<string, Rel>, t: Store)
  {
    && rels.Keys <= SESSION_RELS && Get(rels, "vrf") == Some(One(vrf))
    && MustPoint(rels, "device", DcimDevice, "name", Some(Str(x.localDevice)), t)
    && MustPoint(rels, "local_as", RoutingAutonomousSystem, "asn", x.localAs, t)
    && MustPoint(rels, "remote_as", RoutingAutonomousSystem, "asn", x.remoteAs, t)
    && MayPoint(rels, "local_ip", IpamIPAddress, "address", x.localIp, t)
    && MayPoint(rels, "remote_ip", IpamIPAddress, "address", x.remoteIp, t)
    && MayPoint(rels, "peer_group", RoutingBGPPeerGroup, "name",
                if NamesGroup(d, x) then Some(Str(x.peerGroup.value + "@" + x.localDevice)) else None, t)
  }

  lemma OpIsNearlyWired(d: Dataset, x: Session, vrf: nat, s: Store)
    requires SeedIngester.SessionWrite(d, x, vrf, s).Some?
    ensures NearlyWired(d, x, vrf, SeedIngester.SessionWrite(d, x, vrf, s).value.rels, s)
  {
    var peers, group := PeersOf(x, s).value, ShadowRel(ShadowFor(d, x), s);
    var rels := SessionRels(x, vrf, group, peers.device, peers.local, peers.remote, s);
    PeersPoint(x, s);
    ShadowPoints(d, x, s);
    IpsPoint(x, s);
    FieldsKnown(x, vrf, group, peers, s);
    SessionRelAt(x, vrf, group, peers, s, "vrf");
    SessionRelAt(x, vrf, group, peers, s, "device");
    SessionRelAt(x, vrf, group, peers, s, "local_as");
    SessionRelAt(x, vrf, group, peers, s, "remote_as");
    SessionRelAt(x, vrf, group, peers, s, "local_ip");
    SessionRelAt(x, vrf, group, peers, s, "remote_ip");
    SessionRelAt(x, vrf, group, peers, s, "peer_group");
  }

  /** The plan at place `i` is session `j`'s; earlier sessions come before it and only sessions from it on. */
  ghost predicate SessionPlaced(plans: seq<Plan>, i: nat, d: Dataset, vrf: nat, j: nat)
    requires i < |plans|
  {
    && j < |SessionsOf(d)| && plans[i] == SessionPlan(SessionsOf(d)[j], vrf, ShadowFor(d, SessionsOf(d)[j]))
    && (forall k :: 0 <= k < j ==> SessionPlan(SessionsOf(d)[k], vrf, ShadowFor(d, SessionsOf(d)[k])) in plans[..i])
    && forall p :: p in plans[i..] ==> p.SessionPlan?
  }

  lemma SessionPlace(schema: map<Kind, set<string>>, d: Dataset, order: Order, ns: Option<nat>, vrf: nat, i: nat) returns (j: nat)
    requires SchemaDeclaresKeys(schema) && RowsCarryKeys(d)
    requires i < |AllPlans(d, order, ns, vrf)| && AllPlans(d, order, ns, vrf)[i].SessionPlan?
    ensures SessionPlaced(AllPlans(d, order, ns, vrf), i, d, vrf, j)
  {
    var before, own := MainPlans(d, ns) + GroupPart(d, order, vrf), SessionPart(d, vrf);
    ThreeParts(d, order, ns, vrf);
    assert AllPlans(d, order, ns, vrf) == before + own;
    MainIsGeneric(schema, d, ns);
    GroupsUsable(schema, d, order, vrf);
    assert forall p :: p in before ==> !p.SessionPlan?;
    assert i >= |before|;
    j := i - |before|;
    PlacedAfter(before, own, d, vrf, j);
  }

  lemma PlacedAfter(before: seq<Plan>, own: seq<Plan>, d: Dataset, vrf: nat, j: nat)
    requires own == SessionPlans(d, SessionsOf(d), vrf) && j < |own|
    ensures SessionPlaced(before + own, |before| + j, d, vrf, j)
  {
    assert (before + own)[..|before| + j] == before + own[..j] && (before + own)[|before| + j..] == own[j..];
    forall k | 0 <= k < j ensures SessionPlan(SessionsOf(d)[k], vrf, ShadowFor(d, SessionsOf(d)[k])) in before + own[..j] {
      assert own[..j][k] == own[k];
    }
  }

  const SESSION_PEERS: set<Kind> := {DcimDevice, IpamVRF, RoutingAutonomousSystem, IpamIPAddress, RoutingBGPPeerGroup}

  lemma SessionsLeavePeers(e: Engine, plans: seq<Plan>, i: nat, at: Store, t: Store)
    requires Usable(e, plans) && Ordered(plans) && i < |plans| && Run(e, plans[i..], at) == Some(t)
    requires forall p :: p in plans[i..] ==> p.SessionPlan?
    ensures Agree(at, t, SESSION_PEERS)
  {
    UsablePart(e, plans, i);
    RunAgrees(e, plans[i..], at, SESSION_PEERS);
  }

  lemma PointsAgree(rels: map<string, Rel>, field: string, peer: Kind, attr: string, value: Option<Json>, s: Store, t: Store)
    requires Agree(s, t, SESSION_PEERS) && peer in SESSION_PEERS
    ensures MustPoint(rels, field, peer, attr, value, s) <==> MustPoint(rels, field, peer, attr, value, t)
    ensures MayPoint(rels, field, peer, attr, value, s) <==> MayPoint(rels, field, peer, attr, value, t)
  {
    if value.Some? { FirstAgrees(s, t, SESSION_PEERS, peer, ByAttr(attr, value.value)); }
  }

  lemma NearlyWiredAgrees(d: Dataset, x: Session, vrf: nat, rels: map<string, Rel>, s: Store, t: Store)
    requires Agree(s, t, SESSION_PEERS) && NearlyWired(d, x, vrf, rels, s)
    ensures NearlyWired(d, x, vrf, rels, t)
  {
    PointsAgree(rels, "device", DcimDevice, "name", Some(Str(x.localDevice)), s, t);
    PointsAgree(rels, "local_as", RoutingAutonomousSystem, "asn", x.localAs, s, t);
    PointsAgree(rels, "remote_as", RoutingAutonomousSystem, "asn", x.remoteAs, s, t);
    PointsAgree(rels, "local_ip", IpamIPAddress, "address", x.localIp, s, t);
    PointsAgree(rels, "remote_ip", IpamIPAddress, "address", x.remoteIp, s, t);
    PointsAgree(rels, "peer_group", RoutingBGPPeerGroup, "name",
                if NamesGroup(d, x) then Some(Str(x.peerGroup.value + "@" + x.localDevice)) else None, s, t);
  }

  lemma ShadowThere(schema: map<Kind, set<string>>, d: Dataset, order: Order, s: Store, t: Store, plans: seq<Plan>, vrf: nat, x: Session)
    requires RunOf(schema, d, order, s, t, plans, vrf) && Enumerates(order, d) && x in SessionsOf(d) && NamesGroup(d, x)
    ensures ShadowAt(x.peerGroup.value + "@" + x.localDevice, t).Some?
  {
    var g :| g in d.groups.value && g.name == x.peerGroup.value;
    var i := LastDeclaration(d.groups.value, g.name);
    var last := d.groups.value[i];
    GroupsAreLastDeclared(d, last);
    UsersAreTheDevices(d, last.name, x.localDevice);
    PairTargets(schema, d, order, s, t, plans, vrf, last, x.localDevice);
    ShadowWrite(schema, last, x.localDevice, vrf, 0, t, "name");
  }

  lemma PlanIndex(plans: seq<Plan>, i: nat, p: Plan) returns (q: nat)
    requires i <= |plans| && p in plans[..i]
    ensures q < i && plans[q] == p
  {
    q :| 0 <= q < |plans[..i]| && plans[..i][q] == p;
  }

  lemma EarlierSession(schema: map<Kind, set<string>>, d: Dataset, order: Order, s: Store, t: Store, plans: seq<Plan>, vrf: nat, n: nat, i: nat, j: nat, k: nat)
    requires RunOf(schema, d, order, s, t, plans, vrf) && i < |plans| && SessionPlaced(plans, i, d, vrf, j) && k < j
    requires SessionAt(SessionsOf(d)[j], t) == Some(n) && forall q :: 0 <= q < i ==> Target(EngineFor(schema), plans[q], t) != Some(n)
    ensures SessionsOf(d)[k].description != SessionsOf(d)[j].description
  {
    var x := SessionsOf(d)[k];
    var q := PlanIndex(plans, i, SessionPlan(x, vrf, ShadowFor(d, x)));
    SessionTargets(schema, d, order, s, t, plans, vrf, k);
    SessionWrite(schema, x, vrf, ShadowFor(d, x), n, t, "status");
  }

  lemma EarlierSessions(schema: map<Kind, set<string>>, d: Dataset, order: Order, s: Store, t: Store, plans: seq<Plan>, vrf: nat, n: nat, i: nat, j: nat)
    requires RunOf(schema, d, order, s, t, plans, vrf) && i < |plans| && SessionPlaced(plans, i, d, vrf, j)
    requires SessionAt(SessionsOf(d)[j], t) == Some(n) && forall q :: 0 <= q < i ==> Target(EngineFor(schema), plans[q], t) != Some(n)
    ensures forall k :: 0 <= k < j ==> SessionsOf(d)[k].description != SessionsOf(d)[j].description
  {
    forall k | 0 <= k < j ensures SessionsOf(d)[k].description != SessionsOf(d)[j].description {
      EarlierSession(schema, d, order, s, t, plans, vrf, n, i, j, k);
    }
  }

  lemma CreatedIsNearlyWired(schema: map<Kind, set<string>>, d: Dataset, plans: seq<Plan>, s: Store, t: Store, vrf: nat, n: nat, i: nat, at: Store, j: nat)
    requires Usable(EngineFor(schema), plans) && Ordered(plans) && Created(EngineFor(schema), plans, s, t, n, i, at) && SessionPlaced(plans, i, d, vrf, j)
    ensures NearlyWired(d, SessionsOf(d)[j], vrf, t[n].rels, t)
  {
    var x := SessionsOf(d)[j];
    SessionResolves(schema, d, x, vrf, at);
    OpIsNearlyWired(d, x, vrf, at);
    SessionsLeavePeers(EngineFor(schema), plans, i, at, t);
    NearlyWiredAgrees(d, x, vrf, t[n].rels, at, t);
  }

  lemma CreatedAt(schema: map<Kind, set<string>>, d: Dataset, order: Order, s: Store, t: Store, plans: seq<Plan>, vrf: nat, n: nat, i: nat, j: nat)
    requires RunOf(schema, d, order, s, t, plans, vrf) && i < |plans| && SessionPlaced(plans, i, d, vrf, j)
    requires Target(EngineFor(schema), plans[i], t) == Some(n)
    ensures SessionAt(SessionsOf(d)[j], t) == Some(n)
  {
    SessionWrite(schema, SessionsOf(d)[j], vrf, ShadowFor(d, SessionsOf(d)[j]), n, t, "status");
  }

  lemma NearlyIsWired(schema: map<Kind, set<string>>, d: Dataset, order: Order, s: Store, t: Store, plans: seq<Plan>, vrf: nat, x: Session, rels: map<string, Rel>)
    requires RunOf(schema, d, order, s, t, plans, vrf) && Enumerates(order, d) && x in SessionsOf(d) && NearlyWired(d, x, vrf, rels, t)
    ensures SessionWired(d, x, rels, t)
  {
    if NamesGroup(d, x) { ShadowThere(schema, d, order, s, t, plans, vrf, x); }
  }

  /**
   Every session node that a seed creates is of the first session with its description, and each of
   its relations comes from that session's own field: device, AS numbers, addresses and shadow.
   */
  lemma CreatedSessionIsWired(schema: map<Kind, set<string>>, d: Dataset, order: Order, s: Store, n: nat) returns (j: nat)
    requires Seeds(schema, d, order, s) && |s| <= n < |StoreAfter(schema, d, order, s)|
    requires StoreAfter(schema, d, order, s)[n].kind == RoutingBGPSession
    ensures j < |SessionsOf(d)| && forall k :: 0 <= k < j ==> SessionsOf(d)[k].description != SessionsOf(d)[j].description
    ensures var t, x := StoreAfter(schema, d, order, s), SessionsOf(d)[j]; SessionAt(x, t) == Some(n) && SessionWired(d, x, t[n].rels, t)
  {
    var e, t := EngineFor(schema), StoreAfter(schema, d, order, s);
    var plans, vrf := SeedIsRun(schema, d, order, s);
    var i, at := Creator(e, plans, s, n);
    CreatorIsBgp(schema, plans, i, at);
    j := SessionPlace(schema, d, order, NamespaceFor(d, s), vrf, i);
    var x := SessionsOf(d)[j];
    CreatedAt(schema, d, order, s, t, plans, vrf, n, i, j);
    EarlierSessions(schema, d, order, s, t, plans, vrf, n, i, j);
    CreatedIsNearlyWired(schema, d, plans, s, t, vrf, n, i, at, j);
    NearlyIsWired(schema, d, order, s, t, plans, vrf, x, t[n].rels);
  }
}
