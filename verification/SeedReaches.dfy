/**
 What a successful seed leaves in the store, row by row, without the plans that put it there.

 Every declared attribute of every record reaches the node found under the record's natural key,
 the last record to carry it winning, and every node the seed creates is wired as its record says.
 */
module SeedReaches {
  import opened Prelude
  import opened Dicts
  import opened Json
  import opened SeedStore
  import opened SeedPlans
  import opened SeedFixedPoint
  import opened SeedDataset

  // ---- Who wrote what, in any run of plans ----

  lemma {:induction false} NobodyWrites(e: Engine, plans: seq<Plan>, n: nat, t: Store, k: string)
    requires forall j :: 0 <= j < |plans| ==> k !in Write(e, plans[j], n, t)
    ensures k !in Writes(e, plans, n, t)
  {
    if plans != [] {
      assert forall j :: 0 <= j < |plans[1..]| ==> plans[1..][j] == plans[j + 1];
      NobodyWrites(e, plans[1..], n, t, k);
    }
  }

  /** What a node is written under a name is what the last plan to carry the name writes. */
  lemma {:induction false} LastWriteWins(e: Engine, plans: seq<Plan>, n: nat, t: Store, i: nat, k: string)
    requires i < |plans| && k in Write(e, plans[i], n, t)
    requires forall j :: i < j < |plans| ==> k !in Write(e, plans[j], n, t)
    ensures k in Writes(e, plans, n, t) && Writes(e, plans, n, t)[k] == Write(e, plans[i], n, t)[k]
  {
    assert forall j :: 0 <= j < |plans[1..]| ==> plans[1..][j] == plans[j + 1];
    if i == 0 {
      NobodyWrites(e, plans[1..], n, t, k);
    } else {
      LastWriteWins(e, plans[1..], n, t, i - 1, k);
    }
  }

  lemma SomebodyWrites(e: Engine, plans: seq<Plan>, n: nat, t: Store, k: string) returns (i: nat)
    requires k in Writes(e, plans, n, t)
    ensures i < |plans| && k in Write(e, plans[i], n, t) && Writes(e, plans, n, t)[k] == Write(e, plans[i], n, t)[k]
  {
    if k in Writes(e, plans[1..], n, t) {
      i := SomebodyWrites(e, plans[1..], n, t, k);
      i := i + 1;
    } else {
      i := 0;
    }
  }

  lemma UsablePart(e: Engine, plans: seq<Plan>, i: nat)
    requires Usable(e, plans) && Ordered(plans) && i <= |plans|
    ensures Usable(e, plans[..i]) && Ordered(plans[..i]) && Usable(e, plans[i..]) && Ordered(plans[i..])
  {
    forall p | p in plans[..i] || p in plans[i..] ensures Behaves(e, p) { assert p in plans; }
    forall a, b | 0 <= a <= b < |plans[i..]| ensures KindOf(plans[i..][b]) !in Reads(plans[i..][a]) {
      assert plans[i..][a] == plans[i + a] && plans[i..][b] == plans[i + b];
    }
  }

  predicate MadeBy(op: Option<Op>, at: Store, n: Node)
  {
    op.Some? && First(at, op.value.kind, op.value.filter).None? && n.kind == op.value.kind && n.rels == op.value.rels
  }

  /** The plan at place `i` created node `n` when the store was `at`, and no earlier plan is about that node. */
  ghost predicate Created(e: Engine, plans: seq<Plan>, s: Store, t: Store, n: nat, i: nat, at: Store)
  {
    && i < |plans| && |at| == n < |t| && Run(e, plans[..i], s) == Some(at) && Run(e, plans[i..], at) == Some(t)
    && MadeBy(e.resolve(plans[i], at), at, t[n])
    && Target(e, plans[i], t) == Some(n)
    && forall j :: 0 <= j < i ==> Target(e, plans[j], t) != Some(n)
  }

  lemma CreatedFirst(e: Engine, plans: seq<Plan>, s: Store, n: nat)
    requires Usable(e, plans) && Ordered(plans) && plans != [] && Run(e, plans, s).Some?
    requires |s| <= n < |Apply(s, e.resolve(plans[0], s).value)|
    ensures Created(e, plans, s, Run(e, plans, s).value, n, 0, s)
  {
    var op, t := e.resolve(plans[0], s).value, Run(e, plans, s).value;
    StepEffect(e, plans, s);
    ApplyEffect(s, op);
    UsableTail(e, plans);
    OrderedTail(plans);
    RunKeeps(e, plans[1..], Apply(s, op));
    StepSeenFromEnd(e, plans, s);
    assert plans[..0] == [] && plans[0..] == plans;
    assert SameKey(Apply(s, op)[n], t[n]);
  }

  lemma CreatedThen(e: Engine, plans: seq<Plan>, s: Store, n: nat, i: nat, at: Store)
    requires Usable(e, plans) && Ordered(plans) && plans != [] && Run(e, plans, s).Some?
    requires var next := Apply(s, e.resolve(plans[0], s).value);
             |next| <= n && Created(e, plans[1..], next, Run(e, plans, s).value, n, i, at)
    ensures Created(e, plans, s, Run(e, plans, s).value, n, i + 1, at)
  {
    var op, t := e.resolve(plans[0], s).value, Run(e, plans, s).value;
    var next := Apply(s, op);
    StepSeenFromEnd(e, plans, s);
    assert plans[..i + 1][0] == plans[0] && plans[..i + 1][1..] == plans[1..][..i] && plans[1..][i..] == plans[i + 1..];
    forall j | 0 <= j < i + 1 ensures Target(e, plans[j], t) != Some(n) {
      if j > 0 { assert plans[j] == plans[1..][j - 1]; }
    }
  }

  /** Every node a run adds was created by one of its plans. */
  lemma {:induction false} Creator(e: Engine, plans: seq<Plan>, s: Store, n: nat) returns (i: nat, at: Store)
    requires Usable(e, plans) && Ordered(plans) && Run(e, plans, s).Some? && |s| <= n < |Run(e, plans, s).value|
    ensures Created(e, plans, s, Run(e, plans, s).value, n, i, at)
    decreases plans
  {
    assert plans != [];
    var next := Apply(s, e.resolve(plans[0], s).value);
    if n < |next| {
      CreatedFirst(e, plans, s, n);
      i, at := 0, s;
    } else {
      UsableTail(e, plans);
      OrderedTail(plans);
      i, at := Creator(e, plans[1..], next, n);
      CreatedThen(e, plans, s, n, i, at);
      i := i + 1;
    }
  }

  lemma LaterLeaveReads(plans: seq<Plan>, i: nat)
    requires Ordered(plans) && i < |plans|
    ensures forall p :: p in plans[i..] ==> KindOf(p) !in Reads(plans[i])
  {
    forall p | p in plans[i..] ensures KindOf(p) !in Reads(plans[i]) {
      var j :| 0 <= j < |plans[i..]| && plans[i..][j] == p;
      assert plans[i + j] == p;
    }
  }

  lemma RestKeeps(e: Engine, plans: seq<Plan>, i: nat, at: Store, t: Store)
    requires Usable(e, plans) && Ordered(plans) && i < |plans| && Run(e, plans[i..], at) == Some(t)
    ensures Kept(at, t) && Agree(at, t, Reads(plans[i]))
  {
    UsablePart(e, plans, i);
    RunKeeps(e, plans[i..], at);
    LaterLeaveReads(plans, i);
    RunAgrees(e, plans[i..], at, Reads(plans[i]));
  }

  lemma EarlierSettled(e: Engine, plans: seq<Plan>, s: Store, i: nat, at: Store)
    requires Usable(e, plans) && Ordered(plans) && i < |plans| && Run(e, plans[..i], s) == Some(at)
    ensures Settled(e, plans[..i], at)
  {
    UsablePart(e, plans, i);
    RunSettles(e, plans[..i], s);
  }

  /** From its creation to the end of the run nothing changes that the creating plan reads, and every node stays. */
  lemma SinceCreation(e: Engine, plans: seq<Plan>, s: Store, t: Store, n: nat, i: nat, at: Store)
    requires Usable(e, plans) && Ordered(plans) && Created(e, plans, s, t, n, i, at)
    ensures Kept(at, t) && Agree(at, t, Reads(plans[i])) && Settled(e, plans[..i], at)
  {
    RestKeeps(e, plans, i, at, t);
    EarlierSettled(e, plans, s, i, at);
  }

  /** The plans of a kind overwrite what they find. */
  ghost predicate Touches(e: Engine, plans: seq<Plan>, kind: Kind)
  {
    forall p, s :: p in plans && KindOf(p) == kind && e.resolve(p, s).Some? ==> e.resolve(p, s).value.touch
  }

  /** A new node holds its writes and nothing else. */
  lemma {:induction false} NewNodeIsWrites(e: Engine, plans: seq<Plan>, s: Store, n: nat)
    requires Usable(e, plans) && Ordered(plans) && Run(e, plans, s).Some? && |s| <= n < |Run(e, plans, s).value|
    requires Touches(e, plans, Run(e, plans, s).value[n].kind)
    ensures var t := Run(e, plans, s).value; t[n].attrs == Writes(e, plans, n, t)
    decreases plans
  {
    assert plans != [];
    var t, op := Run(e, plans, s).value, e.resolve(plans[0], s).value;
    var next := Apply(s, op);
    UsableTail(e, plans);
    OrderedTail(plans);
    StepEffect(e, plans, s);
    StepSeenFromEnd(e, plans, s);
    ApplyEffect(s, op);
    if n < |next| {
      RunKeeps(e, plans[1..], next);
      RunWrites(e, plans[1..], next, n);
      assert SameKey(next[n], t[n]) && plans[0] in plans && op.touch;
    } else {
      assert forall p :: p in plans[1..] ==> p in plans;
      NewNodeIsWrites(e, plans[1..], next, n);
      assert Write(e, plans[0], n, t) == map[];
      OverlayNothing(Writes(e, plans[1..], n, t));
    }
  }

  // ---- The run behind a seed ----

  ghost predicate Seeds(schema: map<Kind, set<string>>, d: Dataset, order: Order, s: Store)
  {
    SchemaDeclaresKeys(schema) && RowsCarryKeys(d) && Enumerates(order, d) && Seeded(EngineFor(schema), d, order, s).Done?
  }

  function StoreAfter(schema: map<Kind, set<string>>, d: Dataset, order: Order, s: Store): Store
    requires Seeded(EngineFor(schema), d, order, s).Done?
  {
    Seeded(EngineFor(schema), d, order, s).store
  }

  /** The default namespace, which a seed looks up when something it writes needs it. */
  function NamespaceFor(d: Dataset, s: Store): Option<nat> { if NeedsNamespace(d) then DefaultNamespace(s) else None }

  function AllPlans(d: Dataset, order: Order, ns: Option<nat>, vrf: nat): seq<Plan>
  {
    MainPlans(d, ns) + if HasBgp(d) then BgpPlans(d, order, vrf) else []
  }

  /** A successful seed is one run of usable, dependency ordered plans, its BGP part on the default VRF. */
  ghost predicate RunOf(schema: map<Kind, set<string>>, d: Dataset, order: Order, s: Store, t: Store, plans: seq<Plan>, vrf: nat)
  {
    && plans == AllPlans(d, order, NamespaceFor(d, s), vrf)
    && Usable(EngineFor(schema), plans) && Ordered(plans) && Run(EngineFor(schema), plans, s) == Some(t)
    && (HasBgp(d) ==> DefaultVrf(t) == Some(vrf))
  }

  lemma SeedIsRun(schema: map<Kind, set<string>>, d: Dataset, order: Order, s: Store) returns (plans: seq<Plan>, vrf: nat)
    requires Seeds(schema, d, order, s)
    ensures RunOf(schema, d, order, s, StoreAfter(schema, d, order, s), plans, vrf)
  {
    var e, ns := EngineFor(schema), NamespaceFor(d, s);
    EngineFollows(schema);
    if HasBgp(d) {
      var mid, v, t := BgpSeedParts(e, d, order, ns, s);
      vrf := v;
      PlansUsable(e, d, order, ns, vrf);
      DatasetOrdered(d, order, ns, vrf);
      RunConcat(e, MainPlans(d, ns), BgpPlans(d, order, vrf), s);
      VrfKept(e, d, order, vrf, mid);
    } else {
      vrf := 0;
      PlansUsable(e, d, order, ns, vrf);
      DatasetOrdered(d, order, ns, vrf);
      assert MainPlans(d, ns) + [] == MainPlans(d, ns);
    }
    plans := AllPlans(d, order, ns, vrf);
  }

  // ---- Rows of the generic sections ----

  function NodeKind(name: SectionName): Kind
  {
    match name
    case Organization => OrganizationProvider case Location => LocationSite case Manufacturer => OrganizationManufacturer
    case Platform => DcimPlatform case DeviceTypes => DcimDeviceType case AutonomousSystems => RoutingAutonomousSystem
    case Vrfs => IpamVRF case IpPrefixes => IpamPrefix case Devices => DcimDevice case Interfaces => InterfacePhysical
  }

  /** The fields by which a section's records are told apart. */
  function LookupFields(name: SectionName): set<string>
  {
    match name
    case Location => {"shortname"}
    case IpPrefixes => {"prefix"}
    case Interfaces => {"device", "name"}
    case _ => {"name"}
  }

  predicate SameRecord(name: SectionName, a: Item, b: Item)
  {
    forall f :: f in LookupFields(name) ==> f in a && f in b && a[f] == b[f]
  }

  function ByField(row: Item, f: string): Option<Filter> { if f in row then Some(ByAttr(f, row[f])) else None }

  /** How a record's node is found: by name, short name or prefix, and an interface also by its device's node. */
  function RowKey(name: SectionName, row: Item, t: Store): Option<Filter>
  {
    match name
    case Location => ByField(row, "shortname")
    case IpPrefixes => ByField(row, "prefix")
    case Interfaces =>
      if "device" !in row || "name" !in row then None
      else
        var device := First(t, DcimDevice, ByAttr("name", row["device"]));
        if device.None? then None else Some(Filter(map["name" := row["name"]], map["device" := device.value]))
    case _ => ByField(row, "name")
  }

  function RowNode(name: SectionName, row: Item, t: Store): Option<nat>
  {
    var key := RowKey(name, row, t);
    if key.None? then None else First(t, NodeKind(name), key.value)
  }

  lemma KindsMatch(name: SectionName)
    ensures SectionOf(name).kind == NodeKind(name) && Rank(NodeKind(name)) == Rank(SectionOf(name).kind) <= 10
  {
  }

  /** Different sections are about different kinds. */
  lemma KindsDiffer(a: SectionName, b: SectionName)
    requires NodeKind(a) == NodeKind(b)
    ensures a == b
  {
  }

  lemma OneRel(r: RelSpec, row: Item, t: Store)
    requires ResolveRels([r], row, t).Some? && r.field in row
    ensures var peer := First(t, r.peer, ByAttr(r.lookup, row[r.field]));
            peer.Some? && r.field in ResolveRels([r], row, t).value && ResolveRels([r], row, t).value[r.field] == One(peer.value)
  {
    assert [r][1..] == [];
  }

  lemma InterfaceFilter(row: Item, t: Store, rels: map<string, Rel>)
    requires CarriesKey(ItemPlan(Interfaces, row, None)) && ResolveRels(SectionOf(Interfaces).rels, row, t) == Some(rels)
    ensures Some(ItemFilter(Interfaces, row, rels)) == RowKey(Interfaces, row, t)
  {
    OneRel(RelSpec("device", DcimDevice, "name"), row, t);
    var f := ItemFilter(Interfaces, row, rels);
    assert f.attrs == map["name" := row["name"]];
  }

  lemma PlainFilter(name: SectionName, row: Item, t: Store, rels: map<string, Rel>, key: string)
    requires name != Interfaces && KeyAttrs(NodeKind(name)) == {key} && CarriesKey(ItemPlan(name, row, None))
    ensures Some(ItemFilter(name, row, rels)) == ByField(row, key)
  {
    KindsMatch(name);
    assert ItemFilter(name, row, rels).attrs == map[key := row[key]];
  }

  lemma RowFilterIs(name: SectionName, row: Item, t: Store, rels: map<string, Rel>)
    requires CarriesKey(ItemPlan(name, row, None)) && ResolveRels(SectionOf(name).rels, row, t) == Some(rels)
    ensures Some(ItemFilter(name, row, rels)) == RowKey(name, row, t)
  {
    match name
    case Interfaces => InterfaceFilter(row, t, rels);
    case Location => PlainFilter(name, row, t, rels, "shortname");
    case IpPrefixes => PlainFilter(name, row, t, rels, "prefix");
    case _ => PlainFilter(name, row, t, rels, "name");
  }

  /** What a row's own plan writes: its declared attributes, to the row's node. */
  lemma RowWrite(schema: map<Kind, set<string>>, name: SectionName, row: Item, ns: Option<nat>, n: nat, t: Store)
    requires CarriesKey(ItemPlan(name, row, None))
    requires Target(EngineFor(schema), ItemPlan(name, row, ns), t).Some?
    ensures Target(EngineFor(schema), ItemPlan(name, row, ns), t) == RowNode(name, row, t)
    ensures Write(EngineFor(schema), ItemPlan(name, row, ns), n, t) ==
            if RowNode(name, row, t) == Some(n) then Declared(schema, NodeKind(name), row) else map[]
  {
    KindsMatch(name);
    RowFilterIs(name, row, t, ResolveRels(SectionOf(name).rels, row, t).value);
  }

  /** Rows that find the same node are the same record. */
  lemma SameNodeSameRecord(name: SectionName, a: Item, b: Item, t: Store, n: nat)
    requires RowNode(name, a, t) == Some(n) && RowNode(name, b, t) == Some(n)
    ensures SameRecord(name, a, b)
  {
    if name == Interfaces {
      var x, y := First(t, DcimDevice, ByAttr("name", a["device"])).value, First(t, DcimDevice, ByAttr("name", b["device"])).value;
      var f, g := RowKey(name, a, t).value, RowKey(name, b, t).value;
      assert "device" in f.rels && "device" in g.rels && t[n].rels["device"] == One(x) && t[n].rels["device"] == One(y);
      assert "name" in f.attrs && "name" in g.attrs && t[n].attrs["name"] == a["name"] == b["name"];
      assert "name" in ByAttr("name", a["device"]).attrs && "name" in ByAttr("name", b["device"]).attrs;
      assert t[x].attrs["name"] == a["device"] == b["device"];
    } else {
      var f, g := RowKey(name, a, t).value, RowKey(name, b, t).value;
      forall k | k in LookupFields(name) ensures k in a && k in b && a[k] == b[k] {
        assert k in f.attrs && k in g.attrs && t[n].attrs[k] == f.attrs[k] == g.attrs[k];
      }
    }
  }

  // ---- What the rows of a section write ----

  lemma {:induction false} ItemWrites(schema: map<Kind, set<string>>, name: SectionName, items: seq<Item>, ns: Option<nat>, n: nat, t: Store)
    requires items != []
    ensures var e := EngineFor(schema);
            Writes(e, PlansForItems(name, items, ns), n, t)
              == Write(e, ItemPlan(name, items[0], ns), n, t) + Writes(e, PlansForItems(name, items[1..], ns), n, t)
  {
    var e, own, rest := EngineFor(schema), PlansForItem(name, items[0], ns), PlansForItems(name, items[1..], ns);
    WritesConcat(e, own, rest, n, t);
    var last := ItemPlan(name, items[0], ns);
    assert Writes(e, [last], n, t) == Write(e, last, n, t) by { LastAlone(e, last, n, t); }
    if own != [last] {
      var ip := own[0];
      assert own == [ip] + [last] && ip.IpPlan?;
      WritesConcat(e, [ip], [last], n, t);
      LastAlone(e, ip, n, t);
      assert Write(e, ip, n, t) == map[];
      OverlayNothing(Write(e, last, n, t));
    }
  }

  lemma LastAlone(e: Engine, p: Plan, n: nat, t: Store)
    ensures Writes(e, [p], n, t) == Write(e, p, n, t)
  {
    assert [p][1..] == [];
    OverlayNothing(Write(e, p, n, t));
  }

  /** A row's plan writes attribute `k` to node `n`. */
  predicate RowSets(schema: map<Kind, set<string>>, name: SectionName, row: Item, ns: Option<nat>, n: nat, t: Store, k: string)
  {
    k in Write(EngineFor(schema), ItemPlan(name, row, ns), n, t)
  }

  lemma TailRows(schema: map<Kind, set<string>>, name: SectionName, items: seq<Item>, ns: Option<nat>, n: nat, t: Store, j: nat, k: string)
    requires items != [] && forall i :: j < i < |items| ==> !RowSets(schema, name, items[i], ns, n, t, k)
    ensures forall i :: j <= i < |items[1..]| ==> !RowSets(schema, name, items[1..][i], ns, n, t, k)
  {
    assert forall i :: 0 <= i < |items[1..]| ==> items[1..][i] == items[i + 1];
  }

  /** The section's first row has the say on what its other rows leave alone. */
  lemma RowsHead(schema: map<Kind, set<string>>, name: SectionName, items: seq<Item>, ns: Option<nat>, n: nat, t: Store, k: string)
    requires items != []
    ensures var all, rest := Writes(EngineFor(schema), PlansForItems(name, items, ns), n, t), Writes(EngineFor(schema), PlansForItems(name, items[1..], ns), n, t);
            && (k in rest ==> k in all && all[k] == rest[k])
            && (k !in rest && RowSets(schema, name, items[0], ns, n, t, k) ==>
                  k in all && all[k] == Write(EngineFor(schema), ItemPlan(name, items[0], ns), n, t)[k])
  {
    ItemWrites(schema, name, items, ns, n, t);
  }

  /** A row's attribute is what the section writes when no later row for the node carries it. */
  lemma {:induction false} RowsWrite(schema: map<Kind, set<string>>, name: SectionName, items: seq<Item>, ns: Option<nat>, n: nat, t: Store, j: nat, k: string)
    requires j < |items| && RowSets(schema, name, items[j], ns, n, t, k)
    requires forall i :: j < i < |items| ==> !RowSets(schema, name, items[i], ns, n, t, k)
    ensures var w := Writes(EngineFor(schema), PlansForItems(name, items, ns), n, t);
            k in w && w[k] == Write(EngineFor(schema), ItemPlan(name, items[j], ns), n, t)[k]
    decreases j
  {
    TailRows(schema, name, items, ns, n, t, j, k);
    if j == 0 {
      RowsSilent(schema, name, items[1..], ns, n, t, k);
    } else {
      assert items[1..][j - 1] == items[j];
      RowsWrite(schema, name, items[1..], ns, n, t, j - 1, k);
    }
    RowsHead(schema, name, items, ns, n, t, k);
  }

  lemma {:induction false} RowsSilent(schema: map<Kind, set<string>>, name: SectionName, items: seq<Item>, ns: Option<nat>, n: nat, t: Store, k: string)
    requires forall i :: 0 <= i < |items| ==> !RowSets(schema, name, items[i], ns, n, t, k)
    ensures k !in Writes(EngineFor(schema), PlansForItems(name, items, ns), n, t)
  {
    if items != [] {
      assert !RowSets(schema, name, items[0], ns, n, t, k);
      ItemWrites(schema, name, items, ns, n, t);
      TailRows(schema, name, items, ns, n, t, 0, k);
      RowsSilent(schema, name, items[1..], ns, n, t, k);
    }
  }

  /** What a section writes, one of its rows writes. */
  lemma RowWrote(schema: map<Kind, set<string>>, name: SectionName, items: seq<Item>, ns: Option<nat>, n: nat, t: Store, k: string)
    returns (j: nat)
    requires k in Writes(EngineFor(schema), PlansForItems(name, items, ns), n, t)
    ensures j < |items| && k in Write(EngineFor(schema), ItemPlan(name, items[j], ns), n, t)
    ensures Writes(EngineFor(schema), PlansForItems(name, items, ns), n, t)[k] == Write(EngineFor(schema), ItemPlan(name, items[j], ns), n, t)[k]
  {
    var i := SomebodyWrites(EngineFor(schema), PlansForItems(name, items, ns), n, t, k);
    AddressesSilent(schema, PlansForItems(name, items, ns)[i], n, t);
    ItemsOnly(name, items, ns, i);
    j := PlaceInItems(name, items, ns, i);
  }

  /** Materialising an address overwrites nothing. */
  lemma AddressesSilent(schema: map<Kind, set<string>>, p: Plan, n: nat, t: Store)
    ensures p.IpPlan? ==> Write(EngineFor(schema), p, n, t) == map[]
  {
  }

  lemma {:induction false} ItemsOnly(name: SectionName, items: seq<Item>, ns: Option<nat>, i: nat)
    requires i < |PlansForItems(name, items, ns)|
    ensures PlansForItems(name, items, ns)[i].ItemPlan? || PlansForItems(name, items, ns)[i].IpPlan?
  {
    var own := PlansForItem(name, items[0], ns);
    if i >= |own| { ItemsOnly(name, items[1..], ns, i - |own|); }
  }

  // ---- A node is written by its own section only ----

  lemma {:induction false} ItemKinds(name: SectionName, items: seq<Item>, ns: Option<nat>)
    ensures forall p :: p in PlansForItems(name, items, ns) ==> KindOf(p) == NodeKind(name) || KindOf(p) == IpamIPAddress
  {
    KindsMatch(name);
    if items != [] {
      ItemKinds(name, items[1..], ns);
    }
  }

  lemma OtherSectionSilent(e: Engine, d: Dataset, other: SectionName, name: SectionName, ns: Option<nat>, n: nat, t: Store)
    requires Usable(e, PlansForItems(other, ItemsOf(d, other), ns)) && n < |t| && t[n].kind == NodeKind(name) && other != name
    ensures Writes(e, PlansForItems(other, ItemsOf(d, other), ns), n, t) == map[]
  {
    if NodeKind(other) == NodeKind(name) { KindsDiffer(other, name); }
    ItemKinds(other, ItemsOf(d, other), ns);
    NoWritesToKind(e, PlansForItems(other, ItemsOf(d, other), ns), n, t);
  }

  lemma UsableParts(e: Engine, a: seq<Plan>, b: seq<Plan>)
    requires Usable(e, a + b)
    ensures Usable(e, a) && Usable(e, b)
  {
    forall p | p in a || p in b ensures Behaves(e, p) { assert p in a + b; }
  }

  lemma {:induction false} SectionWrites(e: Engine, d: Dataset, names: seq<SectionName>, name: SectionName, ns: Option<nat>, n: nat, t: Store)
    requires Usable(e, PlansForSections(d, names, ns)) && n < |t| && t[n].kind == NodeKind(name) && NoRepeat(names)
    ensures Writes(e, PlansForSections(d, names, ns), n, t) ==
            if name in names then Writes(e, PlansForItems(name, ItemsOf(d, name), ns), n, t) else map[]
    decreases names, d
  {
    if names != [] {
      var own, rest := PlansForItems(names[0], ItemsOf(d, names[0]), ns), PlansForSections(d, names[1..], ns);
      UsableParts(e, own, rest);
      assert names == [names[0]] + names[1..];
      SectionWrites(e, d, names[1..], name, ns, n, t);
      WritesConcat(e, own, rest, n, t);
      OverlayNothing(Writes(e, own, n, t));
      OverlayNothing(Writes(e, rest, n, t));
      if names[0] != name { OtherSectionSilent(e, d, names[0], name, ns, n, t); }
    }
  }

  lemma AllListed(name: SectionName)
    ensures name in SEED_ORDER && NoRepeat(SEED_ORDER)
  {
    forall i, j | 0 <= i < j < |SEED_ORDER| ensures SEED_ORDER[i] != SEED_ORDER[j] {
      SeedOrderRanks(i);
      SeedOrderRanks(j);
    }
  }

  lemma OwnSectionWrites(schema: map<Kind, set<string>>, d: Dataset, order: Order, s: Store, t: Store, plans: seq<Plan>, vrf: nat, name: SectionName, n: nat)
    requires RunOf(schema, d, order, s, t, plans, vrf) && n < |t| && t[n].kind == NodeKind(name)
    ensures Writes(EngineFor(schema), plans, n, t) == Writes(EngineFor(schema), PlansForItems(name, ItemsOf(d, name), NamespaceFor(d, s)), n, t)
  {
    var e, main := EngineFor(schema), MainPlans(d, NamespaceFor(d, s));
    var bgp := if HasBgp(d) then BgpPlans(d, order, vrf) else [];
    UsableParts(e, main, bgp);
    AllListed(name);
    SectionWrites(e, d, SEED_ORDER, name, NamespaceFor(d, s), n, t);
    BgpSilent(e, d, order, vrf, name, n, t);
    WritesConcat(e, main, bgp, n, t);
    OverlayNothing(Writes(e, main, n, t));
  }

  lemma BgpSilent(e: Engine, d: Dataset, order: Order, vrf: nat, name: SectionName, n: nat, t: Store)
    requires Usable(e, if HasBgp(d) then BgpPlans(d, order, vrf) else []) && n < |t| && t[n].kind == NodeKind(name)
    ensures Writes(e, if HasBgp(d) then BgpPlans(d, order, vrf) else [], n, t) == map[]
  {
    var bgp := if HasBgp(d) then BgpPlans(d, order, vrf) else [];
    BgpKinds(d, order, vrf);
    KindsMatch(name);
    NoWritesToKind(e, bgp, n, t);
  }

  lemma BgpKinds(d: Dataset, order: Order, vrf: nat)
    ensures forall p :: p in BgpPlans(d, order, vrf) ==> KindOf(p) == RoutingBGPPeerGroup || KindOf(p) == RoutingBGPSession
  {
    forall p | p in BgpPlans(d, order, vrf) ensures KindOf(p) == RoutingBGPPeerGroup || KindOf(p) == RoutingBGPSession {
      GroupPlansAre(GroupsOf(d), order, vrf, p);
    }
  }

  // ---- Every row reaches the store ----

  predicate IsDeclared(schema: map<Kind, set<string>>, name: SectionName, k: string)
  {
    NodeKind(name) in schema && k in schema[NodeKind(name)]
  }

  lemma RowListed(d: Dataset, name: SectionName, ns: Option<nat>, order: Order, vrf: nat, j: nat)
    requires j < |ItemsOf(d, name)|
    ensures ItemPlan(name, ItemsOf(d, name)[j], ns) in AllPlans(d, order, ns, vrf)
  {
    AllListed(name);
    RowInItems(name, ItemsOf(d, name), ns, j);
    RowInSections(d, SEED_ORDER, name, ns, ItemPlan(name, ItemsOf(d, name)[j], ns));
  }

  lemma {:induction false} RowInItems(name: SectionName, items: seq<Item>, ns: Option<nat>, j: nat)
    requires j < |items|
    ensures ItemPlan(name, items[j], ns) in PlansForItems(name, items, ns)
  {
    if j > 0 { RowInItems(name, items[1..], ns, j - 1); }
  }

  lemma {:induction false} RowInSections(d: Dataset, names: seq<SectionName>, name: SectionName, ns: Option<nat>, p: Plan)
    requires name in names && p in PlansForItems(name, ItemsOf(d, name), ns)
    ensures p in PlansForSections(d, names, ns)
    decreases names, d
  {
    if names[0] != name {
      assert names == [names[0]] + names[1..];
      RowInSections(d, names[1..], name, ns, p);
    }
  }

  lemma RowTargets(schema: map<Kind, set<string>>, d: Dataset, order: Order, s: Store, t: Store, plans: seq<Plan>, vrf: nat, name: SectionName, j: nat)
    requires RunOf(schema, d, order, s, t, plans, vrf) && RowsCarryKeys(d) && j < |ItemsOf(d, name)|
    ensures CarriesKey(ItemPlan(name, ItemsOf(d, name)[j], None))
    ensures Target(EngineFor(schema), ItemPlan(name, ItemsOf(d, name)[j], NamespaceFor(d, s)), t).Some?
  {
    RowListed(d, name, NamespaceFor(d, s), order, vrf, j);
    RunSettles(EngineFor(schema), plans, s);
  }

  /** After a successful seed every row finds its node, and its plan writes the row's declared attributes to that node alone. */
  lemma RowSettles(schema: map<Kind, set<string>>, d: Dataset, order: Order, s: Store, t: Store, plans: seq<Plan>, vrf: nat, name: SectionName, j: nat, n: nat)
    requires RunOf(schema, d, order, s, t, plans, vrf) && RowsCarryKeys(d) && j < |ItemsOf(d, name)|
    ensures RowNode(name, ItemsOf(d, name)[j], t).Some?
    ensures Write(EngineFor(schema), ItemPlan(name, ItemsOf(d, name)[j], NamespaceFor(d, s)), n, t) ==
            if RowNode(name, ItemsOf(d, name)[j], t) == Some(n) then Declared(schema, NodeKind(name), ItemsOf(d, name)[j]) else map[]
  {
    RowTargets(schema, d, order, s, t, plans, vrf, name, j);
    RowWrite(schema, name, ItemsOf(d, name)[j], NamespaceFor(d, s), n, t);
  }

  /**
   Every declared attribute of every record is in the store: the node found under the record's natural
   key holds the value given by the last record of that key that carries the attribute.
   */
  lemma RowReachesStore(schema: map<Kind, set<string>>, d: Dataset, order: Order, s: Store, name: SectionName, j: nat, k: string)
    requires Seeds(schema, d, order, s) && j < |ItemsOf(d, name)| && k in ItemsOf(d, name)[j] && IsDeclared(schema, name, k)
    requires forall i :: j < i < |ItemsOf(d, name)| && SameRecord(name, ItemsOf(d, name)[i], ItemsOf(d, name)[j]) ==> k !in ItemsOf(d, name)[i]
    ensures var t, row := StoreAfter(schema, d, order, s), ItemsOf(d, name)[j]; var n := RowNode(name, row, t);
            n.Some? && k in t[n.value].attrs && t[n.value].attrs[k] == row[k]
  {
    var t, rows, ns := StoreAfter(schema, d, order, s), ItemsOf(d, name), NamespaceFor(d, s);
    var e := EngineFor(schema);
    var plans, vrf := SeedIsRun(schema, d, order, s);
    RowSettles(schema, d, order, s, t, plans, vrf, name, j, 0);
    var n := RowNode(name, rows[j], t).value;
    RowSettles(schema, d, order, s, t, plans, vrf, name, j, n);
    forall i | j < i < |rows| ensures !RowSets(schema, name, rows[i], ns, n, t, k) {
      RowSettles(schema, d, order, s, t, plans, vrf, name, i, n);
      if RowNode(name, rows[i], t) == Some(n) { SameNodeSameRecord(name, rows[i], rows[j], t, n); }
    }
    RowsWrite(schema, name, rows, ns, n, t, j, k);
    OwnSectionWrites(schema, d, order, s, t, plans, vrf, name, n);
    RunWrites(e, plans, s, n);
  }

  /** A node of a generic section holds nothing but what it started with and what its records declare. */
  lemma NothingElseReaches(schema: map<Kind, set<string>>, d: Dataset, order: Order, s: Store, name: SectionName, n: nat, k: string)
    requires Seeds(schema, d, order, s) && n < |StoreAfter(schema, d, order, s)|
    requires StoreAfter(schema, d, order, s)[n].kind == NodeKind(name) && k in StoreAfter(schema, d, order, s)[n].attrs
    ensures var t, rows := StoreAfter(schema, d, order, s), ItemsOf(d, name);
            || (n < |s| && k in s[n].attrs && t[n].attrs[k] == s[n].attrs[k])
            || exists j :: 0 <= j < |rows| && RowNode(name, rows[j], t) == Some(n) && IsDeclared(schema, name, k) && k in rows[j] && rows[j][k] == t[n].attrs[k]
  {
    var t, rows, ns := StoreAfter(schema, d, order, s), ItemsOf(d, name), NamespaceFor(d, s);
    var e := EngineFor(schema);
    var plans, vrf := SeedIsRun(schema, d, order, s);
    OwnSectionWrites(schema, d, order, s, t, plans, vrf, name, n);
    RunWrites(e, plans, s, n);
    if n >= |s| {
      SectionTouches(schema, plans, name);
      NewNodeIsWrites(e, plans, s, n);
    }
    if k in Writes(e, plans, n, t) {
      var j := RowWrote(schema, name, rows, ns, n, t, k);
      RowSettles(schema, d, order, s, t, plans, vrf, name, j, n);
    }
  }

  lemma SectionTouches(schema: map<Kind, set<string>>, plans: seq<Plan>, name: SectionName)
    ensures Touches(EngineFor(schema), plans, NodeKind(name))
  {
    forall p, s | p in plans && KindOf(p) == NodeKind(name) && EngineFor(schema).resolve(p, s).Some?
      ensures EngineFor(schema).resolve(p, s).value.touch
    {
      assert !p.IpPlan?;
    }
  }

  // ---- Every created node is wired as its record says ----

  /** A relation is there iff the record carries the field, and then to the peer its value names. */
  predicate Points(rels: map<string, Rel>, field: string, row: Item, peer: Kind, lookup: string, t: Store)
  {
    if field !in row then field !in rels
    else
      var found := First(t, peer, ByAttr(lookup, row[field]));
      found.Some? && field in rels && rels[field] == One(found.value)
  }

  predicate InNamespace(rels: map<string, Rel>, field: string, ns: Option<nat>)
  {
    if ns.None? then field !in rels else field in rels && rels[field] == One(ns.value)
  }

  /** The address a record carries is a node of the namespace, and the relation is to it. */
  predicate Addressed(rels: map<string, Rel>, rel: string, many: bool, row: Item, field: string, ns: Option<nat>, t: Store)
  {
    if ns.None? || field !in row then rel !in rels
    else
      var found := First(t, IpamIPAddress, Filter(map["address" := row[field]], map["ip_namespace" := ns.value]));
      found.Some? && rel in rels && rels[rel] == if many then Many([found.value]) else One(found.value)
  }

  predicate Wired(name: SectionName, row: Item, ns: Option<nat>, rels: map<string, Rel>, t: Store)
  {
    match name
    case DeviceTypes => rels.Keys <= {"manufacturer"} && Points(rels, "manufacturer", row, OrganizationManufacturer, "name", t)
    case AutonomousSystems => rels.Keys <= {"organization"} && Points(rels, "organization", row, OrganizationProvider, "name", t)
    case Vrfs => rels.Keys <= {"namespace"} && InNamespace(rels, "namespace", ns)
    case IpPrefixes => rels.Keys <= {"ip_namespace"} && InNamespace(rels, "ip_namespace", ns)
    case Devices =>
      && rels.Keys <= {"device_type", "platform", "location", "asn", "primary_address"}
      && Points(rels, "device_type", row, DcimDeviceType, "name", t) && Points(rels, "platform", row, DcimPlatform, "name", t)
      && Points(rels, "location", row, LocationSite, "shortname", t) && Points(rels, "asn", row, RoutingAutonomousSystem, "asn", t)
      && Addressed(rels, "primary_address", false, row, "management_ip", ns, t)
    case Interfaces =>
      && rels.Keys <= {"device", "ip_addresses"}
      && Points(rels, "device", row, DcimDevice, "name", t) && Addressed(rels, "ip_addresses", true, row, "ip_address", ns, t)
    case _ => rels == map[]
  }

  predicate DistinctFields(rels: seq<RelSpec>) { forall i, j :: 0 <= i < j < |rels| ==> rels[i].field != rels[j].field }

  /** Resolved relations are those of the declared fields a record carries, each to its peer. */
  lemma {:induction false} ResolvedPoints(rels: seq<RelSpec>, row: Item, t: Store)
    requires ResolveRels(rels, row, t).Some? && DistinctFields(rels)
    ensures forall f :: f in ResolveRels(rels, row, t).value ==> exists i :: 0 <= i < |rels| && rels[i].field == f
    ensures forall i :: 0 <= i < |rels| ==> Points(ResolveRels(rels, row, t).value, rels[i].field, row, rels[i].peer, rels[i].lookup, t)
  {
    if rels != [] {
      var all, rest := ResolveRels(rels, row, t).value, ResolveRels(rels[1..], row, t).value;
      assert forall i :: 0 <= i < |rels[1..]| ==> rels[1..][i] == rels[i + 1];
      ResolvedPoints(rels[1..], row, t);
      forall f | f in all ensures exists i :: 0 <= i < |rels| && rels[i].field == f {
        if f in rest {
          var i :| 0 <= i < |rels[1..]| && rels[1..][i].field == f;
          assert rels[i + 1].field == f;
        } else {
          assert rels[0].field == f;
        }
      }
      forall i | 0 <= i < |rels| ensures Points(all, rels[i].field, row, rels[i].peer, rels[i].lookup, t) {
        if i > 0 {
          assert Points(rest, rels[1..][i - 1].field, row, rels[1..][i - 1].peer, rels[1..][i - 1].lookup, t);
          assert rels[0].field != rels[i].field;
        }
      }
    }
  }

  /** An item's own relations, besides the resolved ones. */
  function OwnRels(name: SectionName, row: Item, ns: Option<nat>, t: Store): map<string, Rel>
  {
    NamespaceRel(name, ns) + AddressRel(name, row, ns, t)
  }

  /** What an item's relations are made of. */
  function ItemRels(name: SectionName, row: Item, ns: Option<nat>, t: Store): map<string, Rel>
    requires ResolveRels(SectionOf(name).rels, row, t).Some?
  {
    OwnRels(name, row, ns, t) + ResolveRels(SectionOf(name).rels, row, t).value
  }

  lemma OverPoints(a: map<string, Rel>, b: map<string, Rel>, r: RelSpec, row: Item, t: Store)
    requires Points(b, r.field, row, r.peer, r.lookup, t) && r.field !in a
    ensures Points(a + b, r.field, row, r.peer, r.lookup, t)
  {
  }

  /** An item's address, when it carries one, is in the store. */
  predicate AddressThere(name: SectionName, row: Item, ns: Option<nat>, t: Store)
  {
    var field := SectionOf(name).addressField;
    field.Some? && ns.Some? && field.value in row ==> First(t, IpamIPAddress, AddressFilter(row[field.value], ns.value)).Some?
  }

  /** A resolved field that is none of the item's own relations points to its peer. */
  lemma FieldPoints(name: SectionName, row: Item, ns: Option<nat>, t: Store, i: nat)
    requires ResolveRels(SectionOf(name).rels, row, t).Some? && DistinctFields(SectionOf(name).rels)
    requires i < |SectionOf(name).rels| && SectionOf(name).rels[i].field !in OwnRels(name, row, ns, t)
    ensures var r := SectionOf(name).rels[i]; Points(ItemRels(name, row, ns, t), r.field, row, r.peer, r.lookup, t)
  {
    ResolvedPoints(SectionOf(name).rels, row, t);
    OverPoints(OwnRels(name, row, ns, t), ResolveRels(SectionOf(name).rels, row, t).value, SectionOf(name).rels[i], row, t);
  }

  /** A field that is not resolved keeps the item's own relation. */
  lemma OwnStays(name: SectionName, row: Item, ns: Option<nat>, t: Store, f: string)
    requires ResolveRels(SectionOf(name).rels, row, t).Some? && DistinctFields(SectionOf(name).rels)
    requires forall r :: r in SectionOf(name).rels ==> r.field != f
    ensures f in ItemRels(name, row, ns, t) <==> f in OwnRels(name, row, ns, t)
    ensures f in OwnRels(name, row, ns, t) ==> ItemRels(name, row, ns, t)[f] == OwnRels(name, row, ns, t)[f]
  {
    ResolvedPoints(SectionOf(name).rels, row, t);
    assert f !in ResolveRels(SectionOf(name).rels, row, t).value;
  }

  /** Every relation is one of the item's own or that of a declared field. */
  lemma RelIsKnown(name: SectionName, row: Item, ns: Option<nat>, t: Store, f: string)
    requires ResolveRels(SectionOf(name).rels, row, t).Some? && DistinctFields(SectionOf(name).rels)
    requires f in ItemRels(name, row, ns, t)
    ensures f in OwnRels(name, row, ns, t) || exists r :: r in SectionOf(name).rels && r.field == f
  {
    ResolvedPoints(SectionOf(name).rels, row, t);
    if f in ResolveRels(SectionOf(name).rels, row, t).value {
      var i :| 0 <= i < |SectionOf(name).rels| && SectionOf(name).rels[i].field == f;
      assert SectionOf(name).rels[i] in SectionOf(name).rels;
    }
  }

  lemma DeviceRelsKnown(row: Item, ns: Option<nat>, t: Store)
    requires ResolveRels(SectionOf(Devices).rels, row, t).Some?
    ensures ItemRels(Devices, row, ns, t).Keys <= {"device_type", "platform", "location", "asn", "primary_address"}
  {
    forall f | f in ItemRels(Devices, row, ns, t) ensures f in {"device_type", "platform", "location", "asn", "primary_address"} {
      RelIsKnown(Devices, row, ns, t, f);
    }
  }

  lemma DevicePoints(row: Item, ns: Option<nat>, t: Store)
    requires ResolveRels(SectionOf(Devices).rels, row, t).Some?
    ensures var rels := ItemRels(Devices, row, ns, t);
            && Points(rels, "device_type", row, DcimDeviceType, "name", t) && Points(rels, "platform", row, DcimPlatform, "name", t)
            && Points(rels, "location", row, LocationSite, "shortname", t) && Points(rels, "asn", row, RoutingAutonomousSystem, "asn", t)
  {
    FieldPoints(Devices, row, ns, t, 0);
    FieldPoints(Devices, row, ns, t, 1);
    FieldPoints(Devices, row, ns, t, 2);
    FieldPoints(Devices, row, ns, t, 3);
  }

  lemma DeviceAddressed(row: Item, ns: Option<nat>, t: Store)
    requires ResolveRels(SectionOf(Devices).rels, row, t).Some? && AddressThere(Devices, row, ns, t)
    ensures Addressed(ItemRels(Devices, row, ns, t), "primary_address", false, row, "management_ip", ns, t)
  {
    OwnStays(Devices, row, ns, t, "primary_address");
  }

  lemma InterfaceRelsKnown(row: Item, ns: Option<nat>, t: Store)
    requires ResolveRels(SectionOf(Interfaces).rels, row, t).Some?
    ensures ItemRels(Interfaces, row, ns, t).Keys <= {"device", "ip_addresses"}
  {
    forall f | f in ItemRels(Interfaces, row, ns, t) ensures f in {"device", "ip_addresses"} {
      RelIsKnown(Interfaces, row, ns, t, f);
    }
  }

  lemma InterfaceIsWired(row: Item, ns: Option<nat>, t: Store)
    requires ResolveRels(SectionOf(Interfaces).rels, row, t).Some? && AddressThere(Interfaces, row, ns, t)
    ensures Wired(Interfaces, row, ns, ItemRels(Interfaces, row, ns, t), t)
  {
    InterfaceRelsKnown(row, ns, t);
    FieldPoints(Interfaces, row, ns, t, 0);
    OwnStays(Interfaces, row, ns, t, "ip_addresses");
  }

  /** Device types and autonomous systems have one relation, by name. */
  lemma PeeredIsWired(name: SectionName, row: Item, ns: Option<nat>, t: Store)
    requires name == DeviceTypes || name == AutonomousSystems
    requires ResolveRels(SectionOf(name).rels, row, t).Some?
    ensures Wired(name, row, ns, ItemRels(name, row, ns, t), t)
  {
    FieldPoints(name, row, ns, t, 0);
    forall f | f in ItemRels(name, row, ns, t) ensures f == SectionOf(name).rels[0].field {
      RelIsKnown(name, row, ns, t, f);
    }
  }

  lemma PlainIsWired(name: SectionName, row: Item, ns: Option<nat>, t: Store)
    requires name !in {DeviceTypes, AutonomousSystems, Devices, Interfaces} && ResolveRels(SectionOf(name).rels, row, t).Some?
    ensures Wired(name, row, ns, ItemRels(name, row, ns, t), t)
  {
  }

  lemma ItemIsWired(name: SectionName, row: Item, ns: Option<nat>, t: Store)
    requires ResolveRels(SectionOf(name).rels, row, t).Some? && AddressThere(name, row, ns, t)
    ensures Wired(name, row, ns, ItemRels(name, row, ns, t), t)
  {
    match name
    case Devices =>
      DeviceRelsKnown(row, ns, t);
      DevicePoints(row, ns, t);
      DeviceAddressed(row, ns, t);
    case Interfaces => InterfaceIsWired(row, ns, t);
    case DeviceTypes => PeeredIsWired(name, row, ns, t);
    case AutonomousSystems => PeeredIsWired(name, row, ns, t);
    case _ => PlainIsWired(name, row, ns, t);
  }

  // ---- The plans before a row's own ----

  /** The plan at place `i` is row `j`'s own; the plans before it include every earlier row's and the row's address. */
  ghost predicate PlaceOf(plans: seq<Plan>, i: nat, name: SectionName, rows: seq<Item>, ns: Option<nat>, j: nat)
    requires i < |plans|
  {
    && j < |rows| && plans[i] == ItemPlan(name, rows[j], ns)
    && (forall k :: 0 <= k < j ==> ItemPlan(name, rows[k], ns) in plans[..i])
    && (ns.Some? && SectionOf(name).addressField.Some? && SectionOf(name).addressField.value in rows[j] ==> IpPlan(name, rows[j], ns.value) in plans[..i])
  }

  lemma PlaceBehind(before: seq<Plan>, plans: seq<Plan>, i: nat, name: SectionName, rows: seq<Item>, ns: Option<nat>, j: nat)
    requires i < |plans| && PlaceOf(plans, i, name, rows, ns, j)
    ensures PlaceOf(before + plans, |before| + i, name, rows, ns, j)
  {
    assert (before + plans)[..|before| + i] == before + plans[..i];
  }

  lemma PlaceBefore(plans: seq<Plan>, after: seq<Plan>, i: nat, name: SectionName, rows: seq<Item>, ns: Option<nat>, j: nat)
    requires i < |plans| && PlaceOf(plans, i, name, rows, ns, j)
    ensures PlaceOf(plans + after, i, name, rows, ns, j)
  {
    assert (plans + after)[..i] == plans[..i];
  }

  lemma {:induction false} PlaceInItems(name: SectionName, rows: seq<Item>, ns: Option<nat>, i: nat) returns (j: nat)
    requires i < |PlansForItems(name, rows, ns)| && PlansForItems(name, rows, ns)[i].ItemPlan?
    ensures PlaceOf(PlansForItems(name, rows, ns), i, name, rows, ns, j)
  {
    var own, rest := PlansForItem(name, rows[0], ns), PlansForItems(name, rows[1..], ns);
    var plans := own + rest;
    if i < |own| {
      j := 0;
      assert plans[..i] == own[..i] && plans[i] == own[i] == ItemPlan(name, rows[0], ns);
      assert |own| == 2 ==> own[..1] == [own[0]];
    } else {
      var q := PlaceInItems(name, rows[1..], ns, i - |own|);
      PlaceBehind(own, rest, i - |own|, name, rows[1..], ns, q);
      j := q + 1;
      assert rows[1..][q] == rows[j];
      assert plans[|own| - 1] == ItemPlan(name, rows[0], ns) && plans[|own| - 1] in plans[..i];
      forall k | 0 <= k < j ensures ItemPlan(name, rows[k], ns) in plans[..i] {
        if k > 0 { assert rows[k] == rows[1..][k - 1]; }
      }
    }
  }

  /** The plan at place `i` is a row's own, as `PlaceOf` has it for its section. */
  ghost predicate Placed(plans: seq<Plan>, i: nat, d: Dataset, ns: Option<nat>, j: nat)
    requires i < |plans|
  {
    plans[i].ItemPlan? && PlaceOf(plans, i, plans[i].section, ItemsOf(d, plans[i].section), ns, j)
  }

  lemma PlacedBehind(before: seq<Plan>, plans: seq<Plan>, i: nat, d: Dataset, ns: Option<nat>, j: nat)
    requires i < |plans| && Placed(plans, i, d, ns, j)
    ensures Placed(before + plans, |before| + i, d, ns, j)
  {
    PlaceBehind(before, plans, i, plans[i].section, ItemsOf(d, plans[i].section), ns, j);
  }

  lemma PlacedBefore(plans: seq<Plan>, after: seq<Plan>, i: nat, d: Dataset, ns: Option<nat>, j: nat)
    requires i < |plans| && Placed(plans, i, d, ns, j)
    ensures Placed(plans + after, i, d, ns, j)
  {
    PlaceBefore(plans, after, i, plans[i].section, ItemsOf(d, plans[i].section), ns, j);
  }

  lemma PlacedInItems(d: Dataset, name: SectionName, ns: Option<nat>, i: nat) returns (j: nat)
    requires i < |PlansForItems(name, ItemsOf(d, name), ns)| && PlansForItems(name, ItemsOf(d, name), ns)[i].ItemPlan?
    ensures Placed(PlansForItems(name, ItemsOf(d, name), ns), i, d, ns, j)
  {
    j := PlaceInItems(name, ItemsOf(d, name), ns, i);
  }

  lemma {:induction false} PlaceInSections(d: Dataset, names: seq<SectionName>, ns: Option<nat>, i: nat) returns (j: nat)
    requires i < |PlansForSections(d, names, ns)| && PlansForSections(d, names, ns)[i].ItemPlan?
    ensures Placed(PlansForSections(d, names, ns), i, d, ns, j)
    decreases names, d
  {
    var own, rest := PlansForItems(names[0], ItemsOf(d, names[0]), ns), PlansForSections(d, names[1..], ns);
    if i < |own| {
      j := PlacedInItems(d, names[0], ns, i);
      PlacedBefore(own, rest, i, d, ns, j);
    } else {
      j := PlaceInSections(d, names[1..], ns, i - |own|);
      PlacedBehind(own, rest, i - |own|, d, ns, j);
    }
  }

  lemma NoItemInBgp(d: Dataset, order: Order, vrf: nat, p: Plan)
    requires p.ItemPlan?
    ensures p !in BgpPlans(d, order, vrf)
  {
    GroupPlansAre(GroupsOf(d), order, vrf, p);
  }

  lemma PlaceInAll(d: Dataset, order: Order, ns: Option<nat>, vrf: nat, i: nat) returns (j: nat)
    requires i < |AllPlans(d, order, ns, vrf)| && AllPlans(d, order, ns, vrf)[i].ItemPlan?
    ensures Placed(AllPlans(d, order, ns, vrf), i, d, ns, j)
  {
    var main, bgp := MainPlans(d, ns), if HasBgp(d) then BgpPlans(d, order, vrf) else [];
    NoItemInBgp(d, order, vrf, (main + bgp)[i]);
    assert i < |main|;
    j := PlaceInSections(d, SEED_ORDER, ns, i);
    PlacedBefore(main, bgp, i, d, ns, j);
  }

  // ---- Created rows ----

  lemma AddressFound(schema: map<Kind, set<string>>, name: SectionName, row: Item, ns: nat, at: Store, t: Store)
    requires SectionOf(name).addressField.Some? && SectionOf(name).addressField.value in row && Kept(at, t)
    requires Target(EngineFor(schema), IpPlan(name, row, ns), at).Some?
    ensures var f := AddressFilter(row[SectionOf(name).addressField.value], ns);
            First(at, IpamIPAddress, f).Some? && First(t, IpamIPAddress, f) == First(at, IpamIPAddress, f)
  {
    FirstStable(at, t, IpamIPAddress, AddressFilter(row[SectionOf(name).addressField.value], ns));
  }

  lemma SameItemRels(name: SectionName, row: Item, ns: Option<nat>, at: Store, t: Store)
    requires ResolveRels(SectionOf(name).rels, row, at).Some? && Agree(at, t, PeerKinds(SectionOf(name).rels))
    requires var field := SectionOf(name).addressField;
             field.Some? && ns.Some? && field.value in row ==>
               First(at, IpamIPAddress, AddressFilter(row[field.value], ns.value)) == First(t, IpamIPAddress, AddressFilter(row[field.value], ns.value))
    ensures ResolveRels(SectionOf(name).rels, row, t).Some? && ItemRels(name, row, ns, at) == ItemRels(name, row, ns, t)
  {
    ResolveRelsAgrees(SectionOf(name).rels, row, at, t);
  }

  /**
   Every node that a seed creates for a section belongs to a record of it, the first to be about that
   node, and is wired as that record says: to the peers its fields name, to its namespace and to its address.
   */
  lemma CreatedRowIsWired(schema: map<Kind, set<string>>, d: Dataset, order: Order, s: Store, name: SectionName, n: nat) returns (j: nat)
    requires Seeds(schema, d, order, s) && |s| <= n < |StoreAfter(schema, d, order, s)|
    requires StoreAfter(schema, d, order, s)[n].kind == NodeKind(name)
    ensures j < |ItemsOf(d, name)|
    ensures var t, rows := StoreAfter(schema, d, order, s), ItemsOf(d, name);
            && RowNode(name, rows[j], t) == Some(n) && Wired(name, rows[j], NamespaceFor(d, s), t[n].rels, t)
            && forall k :: 0 <= k < j ==> RowNode(name, rows[k], t) != Some(n)
  {
    var e, t, ns := EngineFor(schema), StoreAfter(schema, d, order, s), NamespaceFor(d, s);
    var plans, vrf := SeedIsRun(schema, d, order, s);
    var i, at := Creator(e, plans, s, n);
    CreatorIsItem(schema, plans, name, i, at);
    j := PlaceInAll(d, order, ns, vrf, i);
    SinceCreation(e, plans, s, t, n, i, at);
    var row := ItemsOf(d, name)[j];
    RowTargets(schema, d, order, s, t, plans, vrf, name, j);
    RowWrite(schema, name, row, ns, n, t);
    if ns.Some? && SectionOf(name).addressField.Some? && SectionOf(name).addressField.value in row {
      AddressFound(schema, name, row, ns.value, at, t);
    }
    SameItemRels(name, row, ns, at, t);
    ItemIsWired(name, row, ns, t);
    EarlierRows(schema, d, order, s, t, plans, vrf, name, n, i, j);
  }

  /** A created node of a section's kind was created by a row of that section. */
  lemma CreatorIsItem(schema: map<Kind, set<string>>, plans: seq<Plan>, name: SectionName, i: nat, at: Store)
    requires i < |plans| && EngineFor(schema).resolve(plans[i], at).Some?
    requires EngineFor(schema).resolve(plans[i], at).value.kind == NodeKind(name)
    ensures plans[i].ItemPlan? && plans[i].section == name
  {
    if plans[i].ItemPlan? {
      KindsMatch(plans[i].section);
      KindsDiffer(plans[i].section, name);
    }
  }

  lemma EarlierRows(schema: map<Kind, set<string>>, d: Dataset, order: Order, s: Store, t: Store, plans: seq<Plan>, vrf: nat, name: SectionName, n: nat, i: nat, j: nat)
    requires RunOf(schema, d, order, s, t, plans, vrf) && RowsCarryKeys(d)
    requires i < |plans| && PlaceOf(plans, i, name, ItemsOf(d, name), NamespaceFor(d, s), j)
    requires forall q :: 0 <= q < i ==> Target(EngineFor(schema), plans[q], t) != Some(n)
    ensures forall k :: 0 <= k < j ==> RowNode(name, ItemsOf(d, name)[k], t) != Some(n)
  {
    forall k | 0 <= k < j ensures RowNode(name, ItemsOf(d, name)[k], t) != Some(n) {
      var p := ItemPlan(name, ItemsOf(d, name)[k], NamespaceFor(d, s));
      assert p in plans[..i];
      var q :| 0 <= q < |plans[..i]| && plans[..i][q] == p;
      assert plans[q] == p;
      RowTargets(schema, d, order, s, t, plans, vrf, name, k);
      RowWrite(schema, name, ItemsOf(d, name)[k], NamespaceFor(d, s), n, t);
    }
  }

  /** The plan of a row's address stands among the plans. */
  lemma AddressListed(d: Dataset, name: SectionName, ns: nat, order: Order, vrf: nat, j: nat)
    requires j < |ItemsOf(d, name)|
    requires SectionOf(name).addressField.Some? && SectionOf(name).addressField.value in ItemsOf(d, name)[j]
    ensures IpPlan(name, ItemsOf(d, name)[j], ns) in AllPlans(d, order, Some(ns), vrf)
  {
    AllListed(name);
    AddressInItems(name, ItemsOf(d, name), ns, j);
    RowInSections(d, SEED_ORDER, name, Some(ns), IpPlan(name, ItemsOf(d, name)[j], ns));
  }

  lemma {:induction false} AddressInItems(name: SectionName, items: seq<Item>, ns: nat, j: nat)
    requires j < |items| && SectionOf(name).addressField.Some? && SectionOf(name).addressField.value in items[j]
    ensures IpPlan(name, items[j], ns) in PlansForItems(name, items, Some(ns))
  {
    if j > 0 { AddressInItems(name, items[1..], ns, j - 1); }
  }

  lemma RowAddressThere(schema: map<Kind, set<string>>, d: Dataset, order: Order, s: Store, t: Store, plans: seq<Plan>, vrf: nat, name: SectionName, j: nat)
    requires RunOf(schema, d, order, s, t, plans, vrf) && j < |ItemsOf(d, name)|
    ensures AddressThere(name, ItemsOf(d, name)[j], NamespaceFor(d, s), t)
  {
    var row, ns, field := ItemsOf(d, name)[j], NamespaceFor(d, s), SectionOf(name).addressField;
    if ns.Some? && field.Some? && field.value in row {
      AddressListed(d, name, ns.value, order, vrf, j);
      RunSettles(EngineFor(schema), plans, s);
      AddressFound(schema, name, row, ns.value, t, t);
    }
  }

  lemma RowResolves(schema: map<Kind, set<string>>, name: SectionName, row: Item, ns: Option<nat>, t: Store)
    requires Target(EngineFor(schema), ItemPlan(name, row, ns), t).Some?
    ensures ResolveRels(SectionOf(name).rels, row, t).Some?
  {
  }

  /** Every record of a successful seed can be wired: each peer it names and its address are in the store. */
  lemma EveryRowResolves(schema: map<Kind, set<string>>, d: Dataset, order: Order, s: Store, name: SectionName, j: nat) returns (rels: map<string, Rel>)
    requires Seeds(schema, d, order, s) && j < |ItemsOf(d, name)|
    ensures Wired(name, ItemsOf(d, name)[j], NamespaceFor(d, s), rels, StoreAfter(schema, d, order, s))
  {
    var t, ns, row := StoreAfter(schema, d, order, s), NamespaceFor(d, s), ItemsOf(d, name)[j];
    var plans, vrf := SeedIsRun(schema, d, order, s);
    RowTargets(schema, d, order, s, t, plans, vrf, name, j);
    RowResolves(schema, name, row, ns, t);
    RowAddressThere(schema, d, order, s, t, plans, vrf, name, j);
    ItemIsWired(name, row, ns, t);
    rels := ItemRels(name, row, ns, t);
  }

  /** The namespace of a successful seed is the store's default one, and it is used exactly when something needs it. */
  lemma NamespaceIsUsed(schema: map<Kind, set<string>>, d: Dataset, order: Order, s: Store)
    requires Seeds(schema, d, order, s)
    ensures NamespaceFor(d, s).Some? <==>
            || Vrfs in d.sections || IpPrefixes in d.sections || Interfaces in d.sections
            || exists row :: row in ItemsOf(d, Devices) && "management_ip" in row && TruthyValue(row["management_ip"])
    ensures NamespaceFor(d, s).Some? ==> NamespaceFor(d, s) == First(s, IpamNamespace, ByAttr("default", Bool(true)))
  {
  }
}
