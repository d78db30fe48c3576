/**
 Shadow peer groups: one per declared group and local device using it, and sessions created by
 a run point to the shadow on their own device.
 */
module SeedShadows {
  import opened Prelude
  import opened Dicts
  import opened Json
  import opened SeedStore
  import opened SeedPlans
  import opened SeedFixedPoint
  import opened SeedDataset
  import opened SeedIngester

  // ---- The pairs ----

  /** Every declared group with every local device whose sessions name it. */
  function PairsOf(d: Dataset, gs: seq<PeerGroup>): set<(string, string)>
  {
    if gs == [] then {} else (set x | x in GroupDevices(d, gs[0].name) :: (gs[0].name, x)) + PairsOf(d, gs[1..])
  }

  ghost predicate DistinctGroups(gs: seq<PeerGroup>)
  {
    forall i, j :: 0 <= i < j < |gs| ==> gs[i].name != gs[j].name
  }

  lemma {:induction false} AssignKeepsDistinct(gs: seq<PeerGroup>, g: PeerGroup)
    requires DistinctGroups(gs)
    ensures DistinctGroups(Assign(gs, g))
    ensures forall h :: h in Assign(gs, g) ==> h == g || h in gs
  {
    if gs != [] && gs[0].name != g.name {
      AssignKeepsDistinct(gs[1..], g);
      var r := Assign(gs, g);
      forall i, j | 0 <= i < j < |r| ensures r[i].name != r[j].name {
        if i == 0 {
          assert r[j] in Assign(gs[1..], g);
        } else {
          assert r[1..][i - 1].name != r[1..][j - 1].name;
        }
      }
    }
  }

  lemma {:induction false} AssignAllKeepsDistinct(gs: seq<PeerGroup>, more: seq<PeerGroup>)
    requires DistinctGroups(gs)
    ensures DistinctGroups(AssignAll(gs, more))
    decreases more
  {
    if more != [] {
      AssignKeepsDistinct(gs, more[0]);
      AssignAllKeepsDistinct(Assign(gs, more[0]), more[1..]);
    }
  }

  lemma {:induction false} PairsNameGroups(d: Dataset, gs: seq<PeerGroup>, name: string, x: string)
    ensures (name, x) in PairsOf(d, gs) <==> (exists g :: g in gs && g.name == name) && x in GroupDevices(d, name)
  {
    if gs != [] {
      PairsNameGroups(d, gs[1..], name, x);
      assert forall g :: g in gs <==> g == gs[0] || g in gs[1..];
    }
  }

  lemma {:induction false} PairCount(d: Dataset, gs: seq<PeerGroup>, order: Order, vrf: nat)
    requires DistinctGroups(gs)
    requires forall g :: g in gs ==> g.name in order && NoRepeat(order[g.name])
                                     && forall x :: x in order[g.name] <==> x in GroupDevices(d, g.name)
    ensures |GroupPlans(gs, order, vrf)| == |PairsOf(d, gs)|
  {
    if gs != [] {
      var name := gs[0].name;
      assert gs[0] in gs && forall g :: g in gs[1..] ==> g in gs;
      PairCount(d, gs[1..], order, vrf);
      var mine := set x | x in GroupDevices(d, name) :: (name, x);
      forall p | p in mine ensures p !in PairsOf(d, gs[1..]) { PairsNameGroups(d, gs[1..], name, p.1); }
      TaggedList(name, order[name], GroupDevices(d, name));
    }
  }

  lemma TaggedList(name: string, list: seq<string>, xs: set<string>)
    requires NoRepeat(list) && forall x :: x in list <==> x in xs
    ensures |list| == |set x | x in xs :: (name, x)|
  {
    NoRepeatCount(list);
    assert (set x | x in list) == xs;
    TaggedCount(name, xs);
  }

  lemma {:induction false} TaggedCount(name: string, xs: set<string>)
    ensures |set x | x in xs :: (name, x)| == |xs|
  {
    if xs != {} {
      var y :| y in xs;
      TaggedCount(name, xs - {y});
      assert (set x | x in xs :: (name, x)) == (set x | x in xs - {y} :: (name, x)) + {(name, y)};
    }
  }

  /**
   The group plans are exactly the pairs, each once, whatever order the device sets are visited in.
   */
  lemma ShadowsAreThePairs(d: Dataset, order: Order, vrf: nat)
    requires Enumerates(order, d)
    ensures |GroupPlans(GroupsOf(d), order, vrf)| == |PairsOf(d, GroupsOf(d))|
    ensures forall name, x :: (name, x) in PairsOf(d, GroupsOf(d)) <==>
              exists p :: p in GroupPlans(GroupsOf(d), order, vrf) && p.GroupPlan? && p.group.name == name && p.device == x
  {
    var gs, plans := GroupsOf(d), GroupPlans(GroupsOf(d), order, vrf);
    if d.groups.Some? { AssignAllKeepsDistinct([], d.groups.value); }
    PairCount(d, gs, order, vrf);
    forall name, x ensures (name, x) in PairsOf(d, gs) <==> exists p :: p in plans && p.GroupPlan? && p.group.name == name && p.device == x {
      PairsNameGroups(d, gs, name, x);
      if (name, x) in PairsOf(d, gs) {
        var g :| g in gs && g.name == name;
        GroupPlansAre(gs, order, vrf, GroupPlan(g, x, vrf));
      } else if p :| p in plans && p.GroupPlan? && p.group.name == name && p.device == x {
        GroupPlansAre(gs, order, vrf, p);
      }
    }
  }

  /** The id map after the peer-group section knows exactly the pairs, each by its shadow's node. */
  lemma IdMapIsThePairs(d: Dataset, order: Order, vrf: nat, ids: IdMap, s: Store)
    requires Enumerates(order, d) && IdsFor(GroupPlans(GroupsOf(d), order, vrf), ids, s)
    ensures forall name, x :: (name, x) in PairsOf(d, GroupsOf(d)) <==> name in ids && x in ids[name]
    ensures forall name, x :: (name, x) in PairsOf(d, GroupsOf(d)) ==> HoldsShadow(name, x, ids, s)
  {
    ShadowsAreThePairs(d, order, vrf);
  }

  // ---- When two pairs share a shadow ----

  /** `h` goes on past an `@` where `g` ends, and `x` takes up what is left. */
  predicate Straddles(g: string, x: string, h: string, y: string)
  {
    |g| < |h| && h[..|g|] == g && h[|g|] == '@' && x == h[|g| + 1..] + "@" + y
  }

  lemma StraddlersShare(g: string, x: string, h: string, y: string)
    requires Straddles(g, x, h, y)
    ensures ShadowName(g, x) == ShadowName(h, y)
  {
    var m := h[|g| + 1..];
    assert h == g + "@" + m;
    assert g + "@" + (m + "@" + y) == g + "@" + m + "@" + y;
  }

  lemma SharersStraddle(g: string, x: string, h: string, y: string)
    requires ShadowName(g, x) == ShadowName(h, y) && |g| <= |h|
    ensures (g == h && x == y) || Straddles(g, x, h, y)
  {
    var a, b := ShadowName(g, x), ShadowName(h, y);
    assert g == a[..|g|] == b[..|g|] == h[..|g|];
    assert x == a[|g| + 1..] == b[|g| + 1..];
    if |g| < |h| {
      assert h[|g|] == b[|g|] == a[|g|] == '@';
    } else {
      assert y == b[|h| + 1..];
    }
  }

  /** Two different pairs share a shadow exactly when one group name straddles the other past an `@`. */
  lemma SharedShadow(g: string, x: string, h: string, y: string)
    ensures ShadowName(g, x) == ShadowName(h, y) <==>
            (g == h && x == y) || Straddles(g, x, h, y) || Straddles(h, y, g, x)
  {
    if ShadowName(g, x) == ShadowName(h, y) {
      if |g| <= |h| { SharersStraddle(g, x, h, y); } else { SharersStraddle(h, y, g, x); }
    }
    if Straddles(g, x, h, y) { StraddlersShare(g, x, h, y); }
    if Straddles(h, y, g, x) { StraddlersShare(h, y, g, x); }
  }

  /** Groups whose names hold no `@` never share a shadow. */
  lemma PlainNamesApart(g: string, x: string, h: string, y: string)
    requires '@' !in g && '@' !in h
    ensures ShadowName(g, x) == ShadowName(h, y) <==> g == h && x == y
  {
    SharedShadow(g, x, h, y);
  }

  /** Two different pairs with one shadow name. */
  lemma ShadowsCanCollide()
    ensures ShadowName("a", "b@c") == ShadowName("a@b", "c")
  {
    assert "a@b"[2..] + "@" + "c" == "b@c";
    StraddlersShare("a", "b@c", "a@b", "c");
  }

  // ---- Sessions point to their own shadow ----

  function BySession(x: Session): Filter { ByAttr("description", Str(x.description)) }

  /** The node a session creates: wired to the node found under the name of its own pair's shadow. */
  ghost predicate WiredTo(d: Dataset, x: Session, n: Node, t: Store)
  {
    && Matches(n, RoutingBGPSession, BySession(x))
    && (ShadowFor(d, x).Some? ==> ShadowNode(d, x, t).Some? && "peer_group" in n.rels
                                  && n.rels["peer_group"] == One(ShadowNode(d, x, t).value))
    && (ShadowFor(d, x).None? ==> "peer_group" !in n.rels)
  }

  /** No earlier session, and no node of the store, has the description of the `i`-th. */
  predicate FirstToDescribe(xs: seq<Session>, i: nat, s: Store)
    requires i < |xs|
  {
    First(s, RoutingBGPSession, BySession(xs[i])).None? && forall j :: 0 <= j < i ==> xs[j].description != xs[i].description
  }

  ghost predicate CreatedBy(d: Dataset, xs: seq<Session>, n: Node, s: Store, t: Store)
  {
    exists i :: 0 <= i < |xs| && WiredTo(d, xs[i], n, t) && FirstToDescribe(xs, i, s)
  }

  lemma SessionIsKeyed(d: Dataset, x: Session, vrf: nat, s: Store)
    requires SessionWrite(d, x, vrf, s).Some?
    ensures var op := SessionWrite(d, x, vrf, s).value;
            Keyed(op) && op.touch && op.kind == RoutingBGPSession && op.filter == BySession(x)
  {
    var op := SessionWrite(d, x, vrf, s).value;
    assert op.filter.attrs == map["description" := op.attrs["description"]];
  }

  lemma SessionRelsWired(d: Dataset, x: Session, vrf: nat, s: Store)
    requires SessionWrite(d, x, vrf, s).Some?
    requires ShadowFor(d, x).Some? ==> ShadowNode(d, x, s).Some?
    ensures var rels := SessionWrite(d, x, vrf, s).value.rels; var shadow := ShadowNode(d, x, s);
            if shadow.Some? then "peer_group" in rels && rels["peer_group"] == One(shadow.value) else "peer_group" !in rels
  {
    var peers, group := PeersOf(x, s).value, ShadowRel(ShadowFor(d, x), s);
    PeerKeys(x, s);
    assert "peer_group" in group <==> ShadowNode(d, x, s).Some?;
    GroupDecides(x, vrf, group, peers, s);
  }

  lemma PeerKeys(x: Session, s: Store)
    requires PeersOf(x, s).Some?
    ensures PeersOf(x, s).value.local.Keys <= {"local_as"} && PeersOf(x, s).value.remote.Keys <= {"remote_as"}
  {
  }

  /** No other relation of a session touches its peer group. */
  lemma GroupDecides(x: Session, vrf: nat, group: map<string, Rel>, peers: Peers, s: Store)
    requires peers.local.Keys <= {"local_as"} && peers.remote.Keys <= {"remote_as"}
    ensures var rels := SessionRels(x, vrf, group, peers.device, peers.local, peers.remote, s);
            if "peer_group" in group then "peer_group" in rels && rels["peer_group"] == group["peer_group"] else "peer_group" !in rels
  {
    assert "peer_group" !in peers.local && "peer_group" !in peers.remote;
  }

  /** One session's upsert: the node it creates, if any, is wired to its own shadow. */
  lemma SessionEffect(d: Dataset, x: Session, vrf: nat, s: Store)
    requires SessionWrite(d, x, vrf, s).Some?
    requires ShadowFor(d, x).Some? ==> ShadowNode(d, x, s).Some?
    ensures var t := Apply(s, SessionWrite(d, x, vrf, s).value);
            && Kept(s, t) && First(t, RoutingBGPSession, BySession(x)).Some?
            && |t| == |s| + (if First(s, RoutingBGPSession, BySession(x)).None? then 1 else 0)
            && (|s| < |t| ==> WiredTo(d, x, t[|s|], s))
  {
    SessionIsKeyed(d, x, vrf, s);
    SessionRelsWired(d, x, vrf, s);
    EffectOn(d, x, s, SessionWrite(d, x, vrf, s).value);
  }

  lemma EffectOn(d: Dataset, x: Session, s: Store, op: Op)
    requires Keyed(op) && op.touch && op.kind == RoutingBGPSession && op.filter == BySession(x)
    requires ShadowFor(d, x).Some? ==> ShadowNode(d, x, s).Some?
    requires if ShadowNode(d, x, s).Some? then "peer_group" in op.rels && op.rels["peer_group"] == One(ShadowNode(d, x, s).value)
             else "peer_group" !in op.rels
    ensures var t := Apply(s, op);
            && Kept(s, t) && First(t, RoutingBGPSession, BySession(x)).Some?
            && |t| == |s| + (if First(s, RoutingBGPSession, BySession(x)).None? then 1 else 0)
            && (|s| < |t| ==> WiredTo(d, x, t[|s|], s))
  {
    ApplyEffect(s, op);
  }

  lemma SessionsHead(e: Engine, d: Dataset, xs: seq<Session>, vrf: nat, s: Store)
    requires xs != [] && Run(e, SessionPlans(d, xs, vrf), s).Some?
    ensures var op := e.resolve(SessionPlan(xs[0], vrf, ShadowFor(d, xs[0])), s);
            op.Some? && Run(e, SessionPlans(d, xs[1..], vrf), Apply(s, op.value)) == Run(e, SessionPlans(d, xs, vrf), s)
  {
    assert SessionPlans(d, xs, vrf)[1..] == SessionPlans(d, xs[1..], vrf);
  }

  predicate ShadowsReady(d: Dataset, xs: seq<Session>, s: Store)
  {
    forall x :: x in xs && ShadowFor(d, x).Some? ==> ShadowNode(d, x, s).Some?
  }

  lemma ShadowsStay(d: Dataset, xs: seq<Session>, s: Store, t: Store)
    requires Kept(s, t) && ShadowsReady(d, xs, s)
    ensures forall x :: x in xs && ShadowFor(d, x).Some? ==> ShadowNode(d, x, t) == ShadowNode(d, x, s)
  {
    forall x | x in xs && ShadowFor(d, x).Some? ensures ShadowNode(d, x, t) == ShadowNode(d, x, s) {
      FirstStable(s, t, RoutingBGPPeerGroup, ByName(ShadowFor(d, x).value));
    }
  }

  /** A node created by the later sessions is, seen from before the first one, created by the same session. */
  lemma CreatedLater(d: Dataset, xs: seq<Session>, n: Node, s: Store, next: Store, t: Store)
    requires xs != [] && Kept(s, next) && First(next, RoutingBGPSession, BySession(xs[0])).Some?
    requires CreatedBy(d, xs[1..], n, next, t)
    ensures CreatedBy(d, xs, n, s, t)
  {
    var i :| 0 <= i < |xs[1..]| && WiredTo(d, xs[1..][i], n, t) && FirstToDescribe(xs[1..], i, next);
    assert xs[i + 1] == xs[1..][i];
    StillFirst(xs, i, s, next);
  }

  lemma StillFirst(xs: seq<Session>, i: nat, s: Store, next: Store)
    requires xs != [] && Kept(s, next) && First(next, RoutingBGPSession, BySession(xs[0])).Some?
    requires i < |xs[1..]| && FirstToDescribe(xs[1..], i, next)
    ensures FirstToDescribe(xs, i + 1, s)
  {
    assert xs[i + 1] == xs[1..][i];
    NotYet(s, next, BySession(xs[i + 1]));
    forall j | 0 <= j < i + 1 ensures xs[j].description != xs[i + 1].description {
      if j > 0 { assert xs[j] == xs[1..][j - 1]; }
    }
  }

  lemma NotYet(s: Store, t: Store, f: Filter)
    requires Kept(s, t) && f.attrs.Keys <= KeyAttrs(RoutingBGPSession) && First(t, RoutingBGPSession, f).None?
    ensures First(s, RoutingBGPSession, f).None?
  {
    if First(s, RoutingBGPSession, f).Some? { FirstStable(s, t, RoutingBGPSession, f); }
  }

  /** The first session of a run: what is left to do, and what it created. */
  lemma FirstSession(schema: map<Kind, set<string>>, d: Dataset, xs: seq<Session>, vrf: nat, s: Store) returns (next: Store)
    requires xs != [] && Run(EngineFor(schema), SessionPlans(d, xs, vrf), s).Some? && ShadowsReady(d, xs, s)
    ensures Run(EngineFor(schema), SessionPlans(d, xs[1..], vrf), next) == Run(EngineFor(schema), SessionPlans(d, xs, vrf), s)
    ensures Kept(s, next) && First(next, RoutingBGPSession, BySession(xs[0])).Some? && ShadowsReady(d, xs[1..], next)
    ensures |next| == |s| + (if First(s, RoutingBGPSession, BySession(xs[0])).None? then 1 else 0)
    ensures |s| < |next| ==> WiredTo(d, xs[0], next[|s|], s)
  {
    var x := xs[0];
    SessionsHead(EngineFor(schema), d, xs, vrf, s);
    SessionResolves(schema, d, x, vrf, s);
    SessionEffect(d, x, vrf, s);
    next := Apply(s, SessionWrite(d, x, vrf, s).value);
    ShadowsStay(d, xs, s, next);
  }

  lemma {:induction false} SessionsWired(schema: map<Kind, set<string>>, d: Dataset, xs: seq<Session>, vrf: nat, s: Store)
    requires Run(EngineFor(schema), SessionPlans(d, xs, vrf), s).Some? && ShadowsReady(d, xs, s)
    ensures var t := Run(EngineFor(schema), SessionPlans(d, xs, vrf), s).value;
            Kept(s, t) && forall n :: |s| <= n < |t| ==> CreatedBy(d, xs, t[n], s, t)
    decreases xs
  {
    if xs != [] {
      var t := Run(EngineFor(schema), SessionPlans(d, xs, vrf), s).value;
      var next := FirstSession(schema, d, xs, vrf, s);
      SessionsWired(schema, d, xs[1..], vrf, next);
      AllCreated(d, xs, s, next, t);
    }
  }

  lemma AllCreated(d: Dataset, xs: seq<Session>, s: Store, next: Store, t: Store)
    requires xs != [] && Kept(s, next) && Kept(next, t) && First(next, RoutingBGPSession, BySession(xs[0])).Some?
    requires |next| == |s| + (if First(s, RoutingBGPSession, BySession(xs[0])).None? then 1 else 0)
    requires |s| < |next| ==> WiredTo(d, xs[0], next[|s|], s)
    requires forall n :: |next| <= n < |t| ==> CreatedBy(d, xs[1..], t[n], next, t)
    ensures Kept(s, t) && forall n :: |s| <= n < |t| ==> CreatedBy(d, xs, t[n], s, t)
  {
    KeptTransitive(s, next, t);
    if |s| < |next| { CreatedNow(d, xs, s, next, t); }
    forall n | |next| <= n < |t| ensures CreatedBy(d, xs, t[n], s, t) { CreatedLater(d, xs, t[n], s, next, t); }
  }

  lemma CreatedNow(d: Dataset, xs: seq<Session>, s: Store, next: Store, t: Store)
    requires xs != [] && |next| == |s| + 1 && Kept(s, next) && Kept(next, t) && WiredTo(d, xs[0], next[|s|], s)
    requires First(s, RoutingBGPSession, BySession(xs[0])).None?
    ensures CreatedBy(d, xs, t[|s|], s, t)
  {
    WiredThroughout(d, xs[0], s, next, t, |s|);
    assert WiredTo(d, xs[0], t[|s|], t);
  }

  lemma WiredThroughout(d: Dataset, x: Session, s: Store, next: Store, t: Store, n: nat)
    requires Kept(s, next) && Kept(next, t) && n < |next| && WiredTo(d, x, next[n], s)
    ensures WiredTo(d, x, t[n], t)
  {
    MatchByKey(next[n], t[n], RoutingBGPSession, BySession(x));
    if ShadowFor(d, x).Some? {
      KeptTransitive(s, next, t);
      FirstStable(s, t, RoutingBGPPeerGroup, ByName(ShadowFor(d, x).value));
    }
  }

  lemma ShadowsExist(schema: map<Kind, set<string>>, d: Dataset, order: Order, vrf: nat, s: Store)
    requires SchemaDeclaresKeys(schema) && Enumerates(order, d)
    requires Run(EngineFor(schema), GroupPlans(GroupsOf(d), order, vrf), s).Some?
    ensures var mid := Run(EngineFor(schema), GroupPlans(GroupsOf(d), order, vrf), s).value;
            ShadowsReady(d, SessionsOf(d), mid)
  {
    var e, gs := EngineFor(schema), GroupsOf(d);
    var plans := GroupPlans(gs, order, vrf);
    EngineFollows(schema);
    forall p | p in plans ensures Behaves(e, p) {
      GroupPlansAre(gs, order, vrf, p);
      assert CarriesKey(p);
    }
    GroupsClimb(gs, order, vrf);
    PlacesOrder(plans);
    RunSettles(e, plans, s);
    var mid := Run(e, plans, s).value;
    forall x | x in SessionsOf(d) && ShadowFor(d, x).Some? ensures ShadowNode(d, x, mid).Some? {
      var g :| g in gs && g.name == x.peerGroup.value;
      assert x.localDevice in GroupDevices(d, g.name);
      GroupPlansAre(gs, order, vrf, GroupPlan(g, x.localDevice, vrf));
      assert Target(e, GroupPlan(g, x.localDevice, vrf), mid).Some?;
    }
  }

  /**
   After a successful BGP seed, every node beyond the shadows is a session created by the first
   session record with its description, and it points to the node found under its own pair's
   shadow name, or to none when its group is not declared.
   */
  lemma NewSessionsAreWired(schema: map<Kind, set<string>>, d: Dataset, order: Order, vrf: nat, s: Store)
    requires SchemaDeclaresKeys(schema) && Enumerates(order, d)
    requires Run(EngineFor(schema), BgpPlans(d, order, vrf), s).Some?
    ensures var mid := Run(EngineFor(schema), GroupPlans(GroupsOf(d), order, vrf), s);
            var t := Run(EngineFor(schema), BgpPlans(d, order, vrf), s).value;
            mid.Some? && Kept(mid.value, t) && forall n :: |mid.value| <= n < |t| ==> CreatedBy(d, SessionsOf(d), t[n], mid.value, t)
  {
    RunConcat(EngineFor(schema), GroupPlans(GroupsOf(d), order, vrf), SessionPlans(d, SessionsOf(d), vrf), s);
    ShadowsExist(schema, d, order, vrf, s);
    SessionsWired(schema, d, SessionsOf(d), vrf, Run(EngineFor(schema), GroupPlans(GroupsOf(d), order, vrf), s).value);
  }

  // ---- Whose shadow it is ----

  function DeviceNode(device: string, s: Store): Option<nat> { First(s, DcimDevice, ByName(device)) }

  /** The node's `device` relation is that device's node. */
  predicate OnDevice(n: Node, device: nat) { "device" in n.rels && n.rels["device"] == One(device) }

  /** The device of the first plan that writes a shadow of this name. */
  function WriterOf(plans: seq<Plan>, name: string): Option<string>
  {
    if plans == [] then None
    else if plans[0].GroupPlan? && ShadowName(plans[0].group.name, plans[0].device) == name then Some(plans[0].device)
    else WriterOf(plans[1..], name)
  }

  predicate OnlyShadows(plans: seq<Plan>) { forall p :: p in plans ==> p.GroupPlan? }

  function ShadowWrite(p: Plan, device: nat): Op
    requires p.GroupPlan?
  {
    Op(RoutingBGPPeerGroup, ByName(ShadowName(p.group.name, p.device)), GroupAttrs(p.group, p.device),
       map["device" := One(device), "vrf" := One(p.vrf)], true)
  }

  lemma ShadowResolves(schema: map<Kind, set<string>>, p: Plan, s: Store)
    requires p.GroupPlan?
    ensures var device := DeviceNode(p.device, s);
            EngineFor(schema).resolve(p, s) == if device.None? then None else Some(ShadowWrite(p, device.value))
  {
  }

  /** One shadow upsert: devices stay, shadows of other names stay, and its own is found, with the relations it was created with. */
  lemma ShadowEffect(s: Store, p: Plan, device: nat, name: string)
    requires p.GroupPlan?
    ensures var t := Apply(s, ShadowWrite(p, device)); var found := First(s, RoutingBGPPeerGroup, ByName(name));
            && Kept(s, t) && (forall x :: DeviceNode(x, t) == DeviceNode(x, s))
            && (found.Some? ==> First(t, RoutingBGPPeerGroup, ByName(name)) == found && t[found.value].rels == s[found.value].rels)
            && (found.None? && name != ShadowName(p.group.name, p.device) ==> First(t, RoutingBGPPeerGroup, ByName(name)).None?)
            && (found.None? && name == ShadowName(p.group.name, p.device) ==>
                  First(t, RoutingBGPPeerGroup, ByName(name)) == Some(|s|) && OnDevice(t[|s|], device))
  {
    var op := ShadowWrite(p, device);
    ApplyEffect(s, op);
    var t, found := Apply(s, op), First(s, RoutingBGPPeerGroup, ByName(name));
    ApplyAgrees(s, op, {DcimDevice});
    forall x ensures DeviceNode(x, t) == DeviceNode(x, s) { FirstAgrees(s, t, {DcimDevice}, DcimDevice, ByName(x)); }
    if found.Some? {
      FirstStable(s, t, RoutingBGPPeerGroup, ByName(name));
      assert SameKey(s[found.value], t[found.value]);
    } else if name != ShadowName(p.group.name, p.device) {
      OtherNameAbsent(s, t, op, name);
    }
  }

  lemma OtherNameAbsent(s: Store, t: Store, op: Op, name: string)
    requires Kept(s, t) && |t| <= |s| + 1 && First(s, RoutingBGPPeerGroup, ByName(name)).None?
    requires "name" in op.attrs && op.attrs["name"] != Str(name) && (|s| < |t| ==> t[|s|] == Node(op.kind, op.attrs, op.rels))
    ensures First(t, RoutingBGPPeerGroup, ByName(name)).None?
  {
    forall n | 0 <= n < |t| ensures !Matches(t[n], RoutingBGPPeerGroup, ByName(name)) {
      if n < |s| {
        MatchByKey(s[n], t[n], RoutingBGPPeerGroup, ByName(name));
      } else {
        assert "name" in ByName(name).attrs;
      }
    }
  }

  /** What a run of shadow plans leaves under a name: the old node with its relations, or a node on the first writer's device. */
  lemma {:induction false} ShadowBirth(schema: map<Kind, set<string>>, plans: seq<Plan>, s: Store, name: string)
    requires OnlyShadows(plans) && Run(EngineFor(schema), plans, s).Some?
    ensures var t := Run(EngineFor(schema), plans, s).value;
            BornAs(s, t, WriterOf(plans, name), name) && (forall x :: DeviceNode(x, t) == DeviceNode(x, s))
    decreases plans
  {
    if plans != [] {
      var p := plans[0];
      assert p in plans && forall q :: q in plans[1..] ==> q in plans;
      ShadowResolves(schema, p, s);
      var device := DeviceNode(p.device, s).value;
      var next := Apply(s, ShadowWrite(p, device));
      ShadowEffect(s, p, device, name);
      ShadowBirth(schema, plans[1..], next, name);
      BirthStep(s, next, Run(EngineFor(schema), plans, s).value, p, device, WriterOf(plans[1..], name), name);
    }
  }

  lemma BirthStep(s: Store, next: Store, t: Store, p: Plan, device: nat, later: Option<string>, name: string)
    requires p.GroupPlan? && DeviceNode(p.device, s) == Some(device) && forall x :: DeviceNode(x, next) == DeviceNode(x, s)
    requires var found, own := First(s, RoutingBGPPeerGroup, ByName(name)), name == ShadowName(p.group.name, p.device);
             && (found.Some? ==> First(next, RoutingBGPPeerGroup, ByName(name)) == found && next[found.value].rels == s[found.value].rels)
             && (found.None? && !own ==> First(next, RoutingBGPPeerGroup, ByName(name)).None?)
             && (found.None? && own ==> First(next, RoutingBGPPeerGroup, ByName(name)) == Some(|s|) && OnDevice(next[|s|], device))
    requires BornAs(next, t, later, name)
    ensures BornAs(s, t, if ShadowName(p.group.name, p.device) == name then Some(p.device) else later, name)
  {
  }

  predicate BornAs(s: Store, t: Store, writer: Option<string>, name: string)
  {
    var before, after := First(s, RoutingBGPPeerGroup, ByName(name)), First(t, RoutingBGPPeerGroup, ByName(name));
    if before.Some? then after == before && t[after.value].rels == s[before.value].rels
    else if writer.None? then after.None?
    else DeviceNode(writer.value, s).Some? && after.Some? && OnDevice(t[after.value], DeviceNode(writer.value, s).value)
  }

  lemma DeviceNodesDiffer(a: string, b: string, s: Store)
    requires DeviceNode(a, s).Some? && DeviceNode(a, s) == DeviceNode(b, s)
    ensures a == b
  {
    assert "name" in ByName(a).attrs && "name" in ByName(b).attrs;
  }

  /**
   Whether the shadow of a session's pair ends up on the session's device can be told beforehand: a
   node of that name in the starting store must already be on it, and otherwise the first plan that
   writes the name must be for it.
   */
  predicate HomeExpected(d: Dataset, order: Order, vrf: nat, s: Store, x: Session)
  {
    var name, device := ShadowName(if x.peerGroup.Some? then x.peerGroup.value else "", x.localDevice), DeviceNode(x.localDevice, s);
    var old_ := First(s, RoutingBGPPeerGroup, ByName(name));
    if old_.Some? then device.Some? && OnDevice(s[old_.value], device.value)
    else WriterOf(GroupPlans(GroupsOf(d), order, vrf), name) == Some(x.localDevice)
  }

  /** The session's shadow is on the session's device. */
  predicate ShadowAtHome(d: Dataset, t: Store, x: Session)
  {
    var k, device := ShadowNode(d, x, t), DeviceNode(x.localDevice, t);
    k.Some? && device.Some? && OnDevice(t[k.value], device.value)
  }

  lemma {:induction false} SessionsKeepDevices(schema: map<Kind, set<string>>, d: Dataset, xs: seq<Session>, vrf: nat, s: Store, device: string)
    requires Run(EngineFor(schema), SessionPlans(d, xs, vrf), s).Some?
    ensures var t := Run(EngineFor(schema), SessionPlans(d, xs, vrf), s).value;
            DeviceNode(device, t) == DeviceNode(device, s) && (forall x :: x in xs ==> DeviceNode(x.localDevice, s).Some?)
    decreases xs
  {
    if xs != [] {
      SessionsHead(EngineFor(schema), d, xs, vrf, s);
      SessionResolves(schema, d, xs[0], vrf, s);
      SessionIsKeyed(d, xs[0], vrf, s);
      var op := SessionWrite(d, xs[0], vrf, s).value;
      var next := Apply(s, op);
      ApplyAgrees(s, op, {DcimDevice});
      FirstAgrees(s, next, {DcimDevice}, DcimDevice, ByName(device));
      SessionsKeepDevices(schema, d, xs[1..], vrf, next, device);
      forall x | x in xs ensures DeviceNode(x.localDevice, s).Some? {
        if x != xs[0] { assert x in xs[1..]; FirstAgrees(s, next, {DcimDevice}, DcimDevice, ByName(x.localDevice)); }
      }
    }
  }

  lemma GroupsAreShadows(d: Dataset, order: Order, vrf: nat)
    ensures OnlyShadows(GroupPlans(GroupsOf(d), order, vrf))
  {
    forall p | p in GroupPlans(GroupsOf(d), order, vrf) ensures p.GroupPlan? { GroupPlansAre(GroupsOf(d), order, vrf, p); }
  }

  /** The store a BGP seed passes through, between its shadows and its sessions. */
  lemma TwoPhases(schema: map<Kind, set<string>>, d: Dataset, order: Order, vrf: nat, s: Store) returns (mid: Store, t: Store)
    requires Run(EngineFor(schema), BgpPlans(d, order, vrf), s).Some?
    ensures Run(EngineFor(schema), GroupPlans(GroupsOf(d), order, vrf), s) == Some(mid)
    ensures Run(EngineFor(schema), SessionPlans(d, SessionsOf(d), vrf), mid) == Some(t)
    ensures Run(EngineFor(schema), BgpPlans(d, order, vrf), s) == Some(t)
  {
    RunConcat(EngineFor(schema), GroupPlans(GroupsOf(d), order, vrf), SessionPlans(d, SessionsOf(d), vrf), s);
    mid := Run(EngineFor(schema), GroupPlans(GroupsOf(d), order, vrf), s).value;
    t := Run(EngineFor(schema), SessionPlans(d, SessionsOf(d), vrf), mid).value;
  }

  /** What the shadows leave for a session to find. */
  lemma AfterShadows(schema: map<Kind, set<string>>, d: Dataset, order: Order, vrf: nat, s: Store, mid: Store, x: Session)
    requires SchemaDeclaresKeys(schema) && Enumerates(order, d) && x in SessionsOf(d) && ShadowFor(d, x).Some?
    requires Run(EngineFor(schema), GroupPlans(GroupsOf(d), order, vrf), s) == Some(mid)
    ensures var name := ShadowFor(d, x).value; BornAs(s, mid, WriterOf(GroupPlans(GroupsOf(d), order, vrf), name), name)
    ensures DeviceNode(x.localDevice, mid) == DeviceNode(x.localDevice, s) && ShadowNode(d, x, mid).Some?
  {
    GroupsAreShadows(d, order, vrf);
    ShadowBirth(schema, GroupPlans(GroupsOf(d), order, vrf), s, ShadowFor(d, x).value);
    ShadowsExist(schema, d, order, vrf, s);
  }

  /** What the sessions leave alone. */
  lemma AfterSessions(schema: map<Kind, set<string>>, d: Dataset, vrf: nat, mid: Store, t: Store, x: Session)
    requires x in SessionsOf(d) && ShadowsReady(d, SessionsOf(d), mid) && ShadowFor(d, x).Some?
    requires Run(EngineFor(schema), SessionPlans(d, SessionsOf(d), vrf), mid) == Some(t)
    ensures Kept(mid, t) && DeviceNode(x.localDevice, t) == DeviceNode(x.localDevice, mid) && DeviceNode(x.localDevice, mid).Some?
    ensures ShadowNode(d, x, t) == ShadowNode(d, x, mid)
  {
    SessionsWired(schema, d, SessionsOf(d), vrf, mid);
    SessionsKeepDevices(schema, d, SessionsOf(d), vrf, mid, x.localDevice);
    ShadowsStay(d, SessionsOf(d), mid, t);
  }

  /** The shadow of a declared pair is on the session's own device exactly when HomeExpected says so. */
  lemma ShadowDeviceExactly(schema: map<Kind, set<string>>, d: Dataset, order: Order, vrf: nat, s: Store, mid: Store, t: Store, x: Session)
    requires SchemaDeclaresKeys(schema) && Enumerates(order, d) && x in SessionsOf(d) && ShadowFor(d, x).Some?
    requires Run(EngineFor(schema), GroupPlans(GroupsOf(d), order, vrf), s) == Some(mid)
    requires Run(EngineFor(schema), SessionPlans(d, SessionsOf(d), vrf), mid) == Some(t)
    ensures ShadowAtHome(d, t, x) <==> HomeExpected(d, order, vrf, s, x)
  {
    ShadowsExist(schema, d, order, vrf, s);
    AfterShadows(schema, d, order, vrf, s, mid, x);
    AfterSessions(schema, d, vrf, mid, t, x);
    HomeFollows(d, order, vrf, s, mid, t, x, ShadowFor(d, x).value);
  }

  lemma HomeFollows(d: Dataset, order: Order, vrf: nat, s: Store, mid: Store, t: Store, x: Session, name: string)
    requires ShadowFor(d, x) == Some(name) && BornAs(s, mid, WriterOf(GroupPlans(GroupsOf(d), order, vrf), name), name)
    requires Kept(mid, t) && First(mid, RoutingBGPPeerGroup, ByName(name)).Some?
    requires First(t, RoutingBGPPeerGroup, ByName(name)) == First(mid, RoutingBGPPeerGroup, ByName(name))
    requires DeviceNode(x.localDevice, s).Some? && DeviceNode(x.localDevice, t) == DeviceNode(x.localDevice, s)
    ensures ShadowAtHome(d, t, x) <==> HomeExpected(d, order, vrf, s, x)
  {
    var k, device, writer := First(mid, RoutingBGPPeerGroup, ByName(name)).value, DeviceNode(x.localDevice, s).value,
                             WriterOf(GroupPlans(GroupsOf(d), order, vrf), name);
    assert SameKey(mid[k], t[k]) && ShadowNode(d, x, t) == Some(k);
    if First(s, RoutingBGPPeerGroup, ByName(name)).None? && writer.Some? {
      if DeviceNode(writer.value, s) == Some(device) { DeviceNodesDiffer(writer.value, x.localDevice, s); }
    }
  }

  // ---- New sessions point home, exactly ----

  /** The session node points to a shadow on the session's own device. */
  predicate PointsHome(t: Store, n: Node, x: Session)
  {
    var device := DeviceNode(x.localDevice, t);
    && "peer_group" in n.rels && n.rels["peer_group"].One? && n.rels["peer_group"].id < |t|
    && device.Some? && OnDevice(t[n.rels["peer_group"].id], device.value)
  }

  /** The `i`-th session record is the first with its description, and the store holds no such session yet. */
  predicate IsNew(d: Dataset, i: nat, s: Store)
    requires i < |SessionsOf(d)|
  {
    First(s, RoutingBGPSession, BySession(SessionsOf(d)[i])).None?
    && forall j :: 0 <= j < i ==> SessionsOf(d)[j].description != SessionsOf(d)[i].description
  }

  lemma SameCreator(d: Dataset, i: nat, n: Node, s: Store, t: Store)
    requires i < |SessionsOf(d)| && CreatedBy(d, SessionsOf(d), n, s, t) && Matches(n, RoutingBGPSession, BySession(SessionsOf(d)[i]))
    requires forall j :: 0 <= j < i ==> SessionsOf(d)[j].description != SessionsOf(d)[i].description
    ensures WiredTo(d, SessionsOf(d)[i], n, t)
  {
    var xs := SessionsOf(d);
    var k :| 0 <= k < |xs| && WiredTo(d, xs[k], n, t)
      && First(s, RoutingBGPSession, BySession(xs[k])).None?
      && forall j :: 0 <= j < k ==> xs[j].description != xs[k].description;
    assert "description" in BySession(xs[i]).attrs && "description" in BySession(xs[k]).attrs;
    assert xs[k].description == xs[i].description;
  }

  /** A new session record gets a node, wired under its own pair's shadow name. */
  lemma NewSessionFound(schema: map<Kind, set<string>>, d: Dataset, order: Order, vrf: nat, s: Store, mid: Store, t: Store, i: nat)
    requires SchemaDeclaresKeys(schema) && Enumerates(order, d) && i < |SessionsOf(d)| && IsNew(d, i, s)
    requires Run(EngineFor(schema), GroupPlans(GroupsOf(d), order, vrf), s) == Some(mid)
    requires Run(EngineFor(schema), SessionPlans(d, SessionsOf(d), vrf), mid) == Some(t)
    ensures var n := First(t, RoutingBGPSession, BySession(SessionsOf(d)[i])); n.Some? && WiredTo(d, SessionsOf(d)[i], t[n.value], t)
  {
    var x := SessionsOf(d)[i];
    ShadowsExist(schema, d, order, vrf, s);
    StillNew(schema, d, order, vrf, s, x);
    SessionsFound(schema, d, SessionsOf(d), vrf, mid, x);
    SessionsWired(schema, d, SessionsOf(d), vrf, mid);
    FoundIsNew(d, i, mid, t);
  }

  lemma FoundIsNew(d: Dataset, i: nat, mid: Store, t: Store)
    requires i < |SessionsOf(d)| && Kept(mid, t) && (forall j :: 0 <= j < i ==> SessionsOf(d)[j].description != SessionsOf(d)[i].description)
    requires First(mid, RoutingBGPSession, BySession(SessionsOf(d)[i])).None? && First(t, RoutingBGPSession, BySession(SessionsOf(d)[i])).Some?
    requires forall n :: |mid| <= n < |t| ==> CreatedBy(d, SessionsOf(d), t[n], mid, t)
    ensures WiredTo(d, SessionsOf(d)[i], t[First(t, RoutingBGPSession, BySession(SessionsOf(d)[i])).value], t)
  {
    var x := SessionsOf(d)[i];
    var n := First(t, RoutingBGPSession, BySession(x)).value;
    if n < |mid| { MatchByKey(mid[n], t[n], RoutingBGPSession, BySession(x)); }
    SameCreator(d, i, t[n], mid, t);
  }

  /** The shadows do not add sessions. */
  lemma StillNew(schema: map<Kind, set<string>>, d: Dataset, order: Order, vrf: nat, s: Store, x: Session)
    requires SchemaDeclaresKeys(schema) && Run(EngineFor(schema), GroupPlans(GroupsOf(d), order, vrf), s).Some?
    requires First(s, RoutingBGPSession, BySession(x)).None?
    ensures First(Run(EngineFor(schema), GroupPlans(GroupsOf(d), order, vrf), s).value, RoutingBGPSession, BySession(x)).None?
  {
    var e, groups := EngineFor(schema), GroupPlans(GroupsOf(d), order, vrf);
    EngineFollows(schema);
    GroupsAreShadows(d, order, vrf);
    forall p | p in groups ensures Behaves(e, p) { assert CarriesKey(p); }
    RunAgrees(e, groups, s, {RoutingBGPSession});
    FirstAgrees(s, Run(e, groups, s).value, {RoutingBGPSession}, RoutingBGPSession, BySession(x));
  }

  /** After the sessions ran, each is found by its description. */
  lemma {:induction false} SessionsFound(schema: map<Kind, set<string>>, d: Dataset, xs: seq<Session>, vrf: nat, s: Store, x: Session)
    requires Run(EngineFor(schema), SessionPlans(d, xs, vrf), s).Some? && (x in xs || First(s, RoutingBGPSession, BySession(x)).Some?)
    ensures First(Run(EngineFor(schema), SessionPlans(d, xs, vrf), s).value, RoutingBGPSession, BySession(x)).Some?
    decreases xs
  {
    if xs != [] {
      SessionsHead(EngineFor(schema), d, xs, vrf, s);
      SessionResolves(schema, d, xs[0], vrf, s);
      SessionIsKeyed(d, xs[0], vrf, s);
      var op := SessionWrite(d, xs[0], vrf, s).value;
      ApplyEffect(s, op);
      if First(s, RoutingBGPSession, BySession(x)).Some? { FirstStable(s, Apply(s, op), RoutingBGPSession, BySession(x)); }
      SessionsFound(schema, d, xs[1..], vrf, Apply(s, op), x);
    }
  }

  /**
   A session a BGP seed creates for a declared group points to a shadow on the session's own device
   exactly when the starting store's node of that shadow name is on it, or there is none and the
   first plan that writes the name is for that device.
   */
  lemma NewSessionPointsHome(schema: map<Kind, set<string>>, d: Dataset, order: Order, vrf: nat, s: Store, i: nat)
    requires SchemaDeclaresKeys(schema) && Enumerates(order, d)
    requires Run(EngineFor(schema), BgpPlans(d, order, vrf), s).Some? && i < |SessionsOf(d)| && IsNew(d, i, s)
    ensures var t, x := Run(EngineFor(schema), BgpPlans(d, order, vrf), s).value, SessionsOf(d)[i];
            var n := First(t, RoutingBGPSession, BySession(x));
            n.Some? && if ShadowFor(d, x).Some? then PointsHome(t, t[n.value], x) <==> HomeExpected(d, order, vrf, s, x)
                       else "peer_group" !in t[n.value].rels
  {
    var mid, t := TwoPhases(schema, d, order, vrf, s);
    NewSessionFound(schema, d, order, vrf, s, mid, t, i);
    var x := SessionsOf(d)[i];
    if ShadowFor(d, x).Some? { ShadowDeviceExactly(schema, d, order, vrf, s, mid, t, x); }
  }

  // ---- Plain group names, and a run that goes astray ----

  lemma {:induction false} WriterIs(plans: seq<Plan>, name: string)
    requires OnlyShadows(plans)
    ensures WriterOf(plans, name).Some? ==>
              exists p :: p in plans && ShadowName(p.group.name, p.device) == name && p.device == WriterOf(plans, name).value
    ensures (exists p :: p in plans && ShadowName(p.group.name, p.device) == name) ==> WriterOf(plans, name).Some?
  {
    if plans != [] {
      assert plans[0] in plans && forall p :: p in plans <==> p == plans[0] || p in plans[1..];
      WriterIs(plans[1..], name);
    }
  }

  /** When no declared group name holds an `@`, only an old shadow on another device keeps a session from its own. */
  lemma PlainGroupsPointHome(d: Dataset, order: Order, vrf: nat, s: Store, x: Session)
    requires Enumerates(order, d) && x in SessionsOf(d) && ShadowFor(d, x).Some?
    requires forall g :: g in GroupsOf(d) ==> '@' !in g.name
    ensures var old_, device := First(s, RoutingBGPPeerGroup, ByName(ShadowFor(d, x).value)), DeviceNode(x.localDevice, s);
            HomeExpected(d, order, vrf, s, x) <==> old_.None? || (device.Some? && OnDevice(s[old_.value], device.value))
  {
    var plans, name := GroupPlans(GroupsOf(d), order, vrf), ShadowFor(d, x).value;
    GroupsAreShadows(d, order, vrf);
    var g :| g in GroupsOf(d) && g.name == x.peerGroup.value;
    assert x.localDevice in GroupDevices(d, g.name);
    GroupPlansAre(GroupsOf(d), order, vrf, GroupPlan(g, x.localDevice, vrf));
    assert GroupPlan(g, x.localDevice, vrf) in plans && ShadowName(g.name, x.localDevice) == name;
    WriterIs(plans, name);
    var p :| p in plans && ShadowName(p.group.name, p.device) == name && p.device == WriterOf(plans, name).value;
    GroupPlansAre(GroupsOf(d), order, vrf, p);
    PlainNamesApart(p.group.name, p.device, g.name, x.localDevice);
  }

  /** A BGP plan that resolves still does after another one was applied. */
  lemma StillResolves(schema: map<Kind, set<string>>, p: Plan, q: Plan, s: Store)
    requires SchemaDeclaresKeys(schema) && (p.GroupPlan? || p.SessionPlan?) && (q.GroupPlan? || q.SessionPlan?)
    requires Resolve(schema, p, s).Some? && Resolve(schema, q, s).Some?
    ensures Resolve(schema, q, Apply(s, Resolve(schema, p, s).value)).Some?
  {
    var op := Resolve(schema, p, s).value;
    ResolvedOpIsKeyed(schema, p, s);
    ApplyAgrees(s, op, Reads(q));
    ResolveAgrees(schema, q, s, Apply(s, op));
  }

  ghost predicate AllResolve(schema: map<Kind, set<string>>, plans: seq<Plan>, s: Store)
  {
    forall p :: p in plans ==> (p.GroupPlan? || p.SessionPlan?) && Resolve(schema, p, s).Some?
  }

  /** BGP plans run through when each resolves in the store they start from. */
  lemma {:induction false} BgpRunsThrough(schema: map<Kind, set<string>>, plans: seq<Plan>, s: Store)
    requires SchemaDeclaresKeys(schema) && AllResolve(schema, plans, s)
    ensures Run(EngineFor(schema), plans, s).Some?
    decreases plans
  {
    if plans != [] {
      assert plans[0] in plans && forall p :: p in plans[1..] ==> p in plans;
      var next := Apply(s, Resolve(schema, plans[0], s).value);
      forall p | p in plans[1..] ensures (p.GroupPlan? || p.SessionPlan?) && Resolve(schema, p, next).Some? {
        StillResolves(schema, plans[0], p, s);
      }
      BgpRunsThrough(schema, plans[1..], next);
    }
  }

  function StraySession(description: string, device: string, group: string): Session
  {
    Session(description, device, None, map[], None, None, None, None, Some(group))
  }

  const STRAY_GROUPS: seq<PeerGroup> := [PeerGroup("a", None, None, map[]), PeerGroup("a@b", None, None, map[])]

  const STRAY_SESSIONS: seq<Session> := [StraySession("one", "b@c", "a"), StraySession("two", "c", "a@b")]

  const STRAY: Dataset := Dataset(map[], Some(STRAY_GROUPS), Some(STRAY_SESSIONS))

  const STRAY_ORDER: Order := map["a" := ["b@c"], "a@b" := ["c"]]

  function DeviceNamed(name: string): Node { Node(DcimDevice, map["name" := Str(name)], map[]) }

  const STRAY_STORE: Store := [DeviceNamed("b@c"), DeviceNamed("c")]

  lemma StrayNames()
    ensures "a" != "a@b" && "b@c" != "c" && "one" != "two" && ShadowName("a", "b@c") == ShadowName("a@b", "c")
  {
    assert |"a"| == 1 && |"a@b"| == 3 && |"c"| == 1 && |"b@c"| == 3 && "one"[0] == 'o' && "two"[0] == 't';
    ShadowsCanCollide();
  }

  lemma StrayGroups()
    ensures GroupsOf(STRAY) == STRAY_GROUPS
  {
    var a, b := STRAY_GROUPS[0], STRAY_GROUPS[1];
    StrayNames();
    assert STRAY_GROUPS[1..] == [b] && [b][1..] == [];
    assert Assign([], a) == [a] && [a][1..] == [];
    assert Assign([a], b) == [a] + Assign([], b) == [a, b];
    assert AssignAll([], STRAY_GROUPS) == AssignAll([a], [b]) == AssignAll([a, b], []);
  }

  lemma StrayPlans(vrf: nat)
    ensures GroupPlans(STRAY_GROUPS, STRAY_ORDER, vrf) == [GroupPlan(STRAY_GROUPS[0], "b@c", vrf), GroupPlan(STRAY_GROUPS[1], "c", vrf)]
  {
    var a, b := STRAY_GROUPS[0], STRAY_GROUPS[1];
    StrayNames();
    assert STRAY_GROUPS[1..] == [b] && [b][1..] == [];
    assert STRAY_ORDER["a"] == ["b@c"] && STRAY_ORDER["a@b"] == ["c"];
    assert ShadowsOf(a, ["b@c"], vrf) == [GroupPlan(a, "b@c", vrf)] && ShadowsOf(b, ["c"], vrf) == [GroupPlan(b, "c", vrf)];
    assert GroupPlans([b], STRAY_ORDER, vrf) == [GroupPlan(b, "c", vrf)] + GroupPlans([], STRAY_ORDER, vrf);
  }

  lemma StrayEnumerates()
    ensures Enumerates(STRAY_ORDER, STRAY)
  {
    StrayNames();
    StrayGroups();
    forall g | g in GroupsOf(STRAY)
      ensures g.name in STRAY_ORDER && (forall x :: x in STRAY_ORDER[g.name] <==> x in GroupDevices(STRAY, g.name))
      ensures forall i, j :: 0 <= i < j < |STRAY_ORDER[g.name]| ==> STRAY_ORDER[g.name][i] != STRAY_ORDER[g.name][j]
    {
      assert g == STRAY_GROUPS[0] || g == STRAY_GROUPS[1];
      var one, two := STRAY_SESSIONS[0], STRAY_SESSIONS[1];
      assert one in SessionsOf(STRAY) && two in SessionsOf(STRAY);
      assert forall x :: x in SessionsOf(STRAY) ==> x == one || x == two;
    }
  }

  lemma StrayDevices()
    ensures DeviceNode("b@c", STRAY_STORE) == Some(0) && DeviceNode("c", STRAY_STORE) == Some(1)
    ensures forall kind, f :: kind != DcimDevice ==> First(STRAY_STORE, kind, f).None?
  {
    StrayNames();
    var f, g := ByName("b@c"), ByName("c");
    assert "name" in g.attrs && !Matches(STRAY_STORE[0], DcimDevice, g);
    FirstIs(STRAY_STORE, DcimDevice, f, 0);
    FirstIs(STRAY_STORE, DcimDevice, g, 1);
  }

  lemma StrayRuns(schema: map<Kind, set<string>>, vrf: nat)
    requires SchemaDeclaresKeys(schema)
    ensures Run(EngineFor(schema), BgpPlans(STRAY, STRAY_ORDER, vrf), STRAY_STORE).Some?
  {
    StrayGroups();
    StrayPlans(vrf);
    StrayDevices();
    var plans, sessions := BgpPlans(STRAY, STRAY_ORDER, vrf), SessionPlans(STRAY, STRAY_SESSIONS, vrf);
    forall p | p in plans ensures (p.GroupPlan? || p.SessionPlan?) && Resolve(schema, p, STRAY_STORE).Some? {
      assert p == plans[0] || p == plans[1] || p == sessions[0] || p == sessions[1];
    }
    BgpRunsThrough(schema, plans, STRAY_STORE);
  }

  lemma StrayIsNew()
    ensures SessionsOf(STRAY) == STRAY_SESSIONS && IsNew(STRAY, 1, STRAY_STORE)
  {
    StrayNames();
    StrayDevices();
  }

  lemma StrayUnexpected(vrf: nat)
    ensures ShadowFor(STRAY, STRAY_SESSIONS[1]).Some? && !HomeExpected(STRAY, STRAY_ORDER, vrf, STRAY_STORE, STRAY_SESSIONS[1])
  {
    StrayNames();
    StrayGroups();
    StrayPlans(vrf);
    StrayDevices();
    assert STRAY_GROUPS[1] in GroupsOf(STRAY) && STRAY_GROUPS[1].name == "a@b";
    assert WriterOf(GroupPlans(GroupsOf(STRAY), STRAY_ORDER, vrf), ShadowName("a@b", "c")) == Some("b@c");
  }

  /**
   A run in which it fails: groups "a" and "a@b" used on devices "b@c" and "c". Both pairs write one
   shadow, created on "b@c", and the session of device "c" points to it.
   */
  lemma SessionGoesAstray(schema: map<Kind, set<string>>, vrf: nat)
    requires SchemaDeclaresKeys(schema)
    ensures Enumerates(STRAY_ORDER, STRAY) && Run(EngineFor(schema), BgpPlans(STRAY, STRAY_ORDER, vrf), STRAY_STORE).Some?
    ensures var t := Run(EngineFor(schema), BgpPlans(STRAY, STRAY_ORDER, vrf), STRAY_STORE).value;
            var n := First(t, RoutingBGPSession, BySession(STRAY_SESSIONS[1]));
            n.Some? && ShadowFor(STRAY, STRAY_SESSIONS[1]).Some? && !PointsHome(t, t[n.value], STRAY_SESSIONS[1])
  {
    StrayEnumerates();
    StrayRuns(schema, vrf);
    StrayIsNew();
    StrayUnexpected(vrf);
    NewSessionPointsHome(schema, STRAY, STRAY_ORDER, vrf, STRAY_STORE, 1);
  }
}
