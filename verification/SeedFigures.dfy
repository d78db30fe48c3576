/**
 The figures of a seed's report, counted in the store and in the dataset, and the rejections that write nothing.
 */
module SeedFigures {
  import opened Prelude
  import opened Dicts
  import opened Json
  import opened SeedStore
  import opened SeedPlans
  import opened SeedFixedPoint
  import opened SeedDataset
  import opened SeedIngester
  import opened SeedReaches
  import opened SeedBgpReaches
  import S = SeedShadows

  // ---- Devices created ----

  /** The device nodes a store has beyond another. */
  function NewDevices(s: Store, t: Store): set<int>
  {
    set n | |s| <= n < |t| && t[n].kind == DcimDevice
  }

  /** One plan adds a device node iff it is a device record that finds none. */
  lemma StepDevices(e: Engine, p: Plan, s: Store, t: Store)
    requires Behaves(e, p) && e.resolve(p, s).Some?
    requires Kept(Apply(s, e.resolve(p, s).value), t)
    ensures var op := e.resolve(p, s).value;
            NewDevices(s, t) == NewDevices(Apply(s, op), t) + if IsDevice(p) && First(s, op.kind, op.filter).None? then {|s|} else {}
  {
    var op := e.resolve(p, s).value;
    var next := Apply(s, op);
    ApplyEffect(s, op);
    OnlyDevicesAreDevices(p);
    if |s| < |next| { assert SameKey(next[|s|], t[|s|]); }
  }

  /** Device nodes come from device records. */
  lemma OnlyDevicesAreDevices(p: Plan)
    ensures KindOf(p) == DcimDevice <==> IsDevice(p)
  {
    if p.ItemPlan? {
      KindsMatch(p.section);
      if KindOf(p) == DcimDevice { KindsDiffer(p.section, Devices); }
    }
  }

  /** A run creates as many device nodes as it counts. */
  lemma {:induction false} RunCountsDevices(e: Engine, plans: seq<Plan>, s: Store)
    requires Usable(e, plans) && Run(e, plans, s).Some?
    ensures DevicesCreated(e, plans, s) == |NewDevices(s, Run(e, plans, s).value)|
    decreases plans
  {
    if plans != [] {
      var t, next := Run(e, plans, s).value, Apply(s, e.resolve(plans[0], s).value);
      UsableTail(e, plans);
      RunKeeps(e, plans[1..], next);
      RunCountsDevices(e, plans[1..], next);
      StepEffect(e, plans, s);
      StepDevices(e, plans[0], s, t);
    }
  }

  /** How many device records find a node already there. */
  function DevicesFound(e: Engine, plans: seq<Plan>, s: Store): nat
    decreases plans
  {
    if plans == [] then 0
    else
      var op := e.resolve(plans[0], s);
      if op.None? then 0
      else (if IsDevice(plans[0]) && First(s, op.value.kind, op.value.filter).Some? then 1 else 0)
           + DevicesFound(e, plans[1..], Apply(s, op.value))
  }

  function DeviceRecords(plans: seq<Plan>): nat
  {
    if plans == [] then 0 else (if IsDevice(plans[0]) then 1 else 0) + DeviceRecords(plans[1..])
  }

  lemma {:induction false} CreatedOrFound(e: Engine, plans: seq<Plan>, s: Store)
    requires Run(e, plans, s).Some?
    ensures DevicesCreated(e, plans, s) + DevicesFound(e, plans, s) == DeviceRecords(plans)
    decreases plans
  {
    if plans != [] { CreatedOrFound(e, plans[1..], Apply(s, e.resolve(plans[0], s).value)); }
  }

  lemma {:induction false} RecordsConcat(a: seq<Plan>, b: seq<Plan>)
    ensures DeviceRecords(a + b) == DeviceRecords(a) + DeviceRecords(b)
  {
    if a == [] {
      assert a + b == b;
    } else {
      assert (a + b)[1..] == a[1..] + b;
      RecordsConcat(a[1..], b);
    }
  }

  lemma {:induction false} ItemRecords(name: SectionName, items: seq<Item>, ns: Option<nat>)
    ensures DeviceRecords(PlansForItems(name, items, ns)) == if name == Devices then |items| else 0
  {
    if items != [] {
      var own := PlansForItem(name, items[0], ns);
      ItemRecords(name, items[1..], ns);
      RecordsConcat(own, PlansForItems(name, items[1..], ns));
      if |own| == 2 { assert own[1..] == [own[1]]; }
      assert [own[|own| - 1]][1..] == [];
    }
  }

  lemma {:induction false} SectionRecords(d: Dataset, names: seq<SectionName>, ns: Option<nat>)
    requires NoRepeat(names)
    ensures DeviceRecords(PlansForSections(d, names, ns)) == if Devices in names then |ItemsOf(d, Devices)| else 0
    decreases names, d
  {
    if names != [] {
      assert names == [names[0]] + names[1..];
      SectionRecords(d, names[1..], ns);
      ItemRecords(names[0], ItemsOf(d, names[0]), ns);
      RecordsConcat(PlansForItems(names[0], ItemsOf(d, names[0]), ns), PlansForSections(d, names[1..], ns));
    }
  }

  lemma MainRecords(d: Dataset, ns: Option<nat>)
    ensures DeviceRecords(MainPlans(d, ns)) == |ItemsOf(d, Devices)|
  {
    AllListed(Devices);
    SectionRecords(d, SEED_ORDER, ns);
  }

  // ---- All records ----

  /** The declared groups with the devices whose sessions name them. */
  ghost function Pairs(d: Dataset): set<(string, string)>
  {
    set x | x in SessionsOf(d) && NamesGroup(d, x) :: (x.peerGroup.value, x.localDevice)
  }

  lemma PairListed(d: Dataset, name: string, device: string)
    ensures (name, device) in S.PairsOf(d, GroupsOf(d)) <==> (name, device) in Pairs(d)
  {
    S.PairsNameGroups(d, GroupsOf(d), name, device);
    UsersAreTheDevices(d, name, device);
    if UsedOn(d, name, device) {
      var x :| x in SessionsOf(d) && x.peerGroup == Some(name) && x.localDevice == device;
      DeclaredGroup(d, x);
    }
  }

  lemma PairsAreThese(d: Dataset)
    ensures S.PairsOf(d, GroupsOf(d)) == Pairs(d)
  {
    forall p: (string, string) ensures p in S.PairsOf(d, GroupsOf(d)) <==> p in Pairs(d) { PairListed(d, p.0, p.1); }
  }

  lemma BgpRecords(d: Dataset, order: Order, vrf: nat)
    requires Enumerates(order, d)
    ensures |BgpPlans(d, order, vrf)| == |Pairs(d)| + |SessionsOf(d)|
  {
    S.ShadowsAreThePairs(d, order, vrf);
    PairsAreThese(d);
  }

  lemma SectionsCount(d: Dataset)
    ensures ItemCount(d, SEED_ORDER) ==
            |ItemsOf(d, Organization)| + |ItemsOf(d, Location)| + |ItemsOf(d, Manufacturer)| + |ItemsOf(d, Platform)| + |ItemsOf(d, DeviceTypes)|
            + |ItemsOf(d, AutonomousSystems)| + |ItemsOf(d, Vrfs)| + |ItemsOf(d, IpPrefixes)| + |ItemsOf(d, Devices)| + |ItemsOf(d, Interfaces)|
  {
    CountFrom(d, 9); CountFrom(d, 8); CountFrom(d, 7); CountFrom(d, 6); CountFrom(d, 5);
    CountFrom(d, 4); CountFrom(d, 3); CountFrom(d, 2); CountFrom(d, 1); CountFrom(d, 0);
    assert SEED_ORDER[0..] == SEED_ORDER && SEED_ORDER[10..] == [];
  }

  lemma CountFrom(d: Dataset, i: nat)
    requires i < |SEED_ORDER|
    ensures ItemCount(d, SEED_ORDER[i..]) == |ItemsOf(d, SEED_ORDER[i])| + ItemCount(d, SEED_ORDER[i + 1..])
  {
    assert SEED_ORDER[i..][1..] == SEED_ORDER[i + 1..];
  }

  // ---- The report ----

  /** The BGP sections add no device. */
  lemma BgpAddsNoDevice(e: Engine, d: Dataset, order: Order, vrf: nat, s: Store, mid: Store, t: Store)
    requires Follows(e) && RowsCarryKeys(d) && Kept(s, mid) && Run(e, BgpPlans(d, order, vrf), mid) == Some(t)
    ensures NewDevices(s, t) == NewDevices(s, mid)
  {
    PlansUsable(e, d, order, None, vrf);
    forall p | p in BgpPlans(d, order, vrf) ensures KindOf(p) != DcimDevice { GroupPlansAre(GroupsOf(d), order, vrf, p); }
    RunAgrees(e, BgpPlans(d, order, vrf), mid, {DcimDevice});
  }

  /**
   The report of a successful seed: the devices it created are the device nodes the store has beyond
   those it had, the updated ones are the other device records, and the total counts every record of
   the generic sections, every shadow and every session.
   */
  lemma ReportCountsTheStore(schema: map<Kind, set<string>>, d: Dataset, order: Order, s: Store)
    requires Seeds(schema, d, order, s)
    ensures var r, t := ResultOf(Seeded(EngineFor(schema), d, order, s)).value, StoreAfter(schema, d, order, s);
            && SeedProgress(EngineFor(schema), d, order, s) == t
            && r.devicesCreated == |NewDevices(s, t)| && r.devicesCreated + r.devicesUpdated == |ItemsOf(d, Devices)| && r.devicesUpdated >= 0
            && r.totalRecords ==
               |ItemsOf(d, Organization)| + |ItemsOf(d, Location)| + |ItemsOf(d, Manufacturer)| + |ItemsOf(d, Platform)| + |ItemsOf(d, DeviceTypes)|
               + |ItemsOf(d, AutonomousSystems)| + |ItemsOf(d, Vrfs)| + |ItemsOf(d, IpPrefixes)| + |ItemsOf(d, Devices)| + |ItemsOf(d, Interfaces)|
               + |Pairs(d)| + |SessionsOf(d)|
  {
    var e, ns := EngineFor(schema), NamespaceFor(d, s);
    SeedLeavesItsStore(e, d, order, s);
    var mid := Run(e, MainPlans(d, ns), s).value;
    MainDevices(schema, d, order, ns, s, mid);
    SectionsCount(d);
    if HasBgp(d) {
      BgpFigures(schema, d, order, ns, s, mid);
    } else {
      assert SessionsOf(d) == [] && Pairs(d) == {};
    }
  }

  lemma MainDevices(schema: map<Kind, set<string>>, d: Dataset, order: Order, ns: Option<nat>, s: Store, mid: Store)
    requires SchemaDeclaresKeys(schema) && RowsCarryKeys(d) && Run(EngineFor(schema), MainPlans(d, ns), s) == Some(mid)
    ensures Kept(s, mid) && DevicesCreated(EngineFor(schema), MainPlans(d, ns), s) == |NewDevices(s, mid)| <= |ItemsOf(d, Devices)|
  {
    var e := EngineFor(schema);
    MainIsGeneric(schema, d, ns);
    RunKeeps(e, MainPlans(d, ns), s);
    RunCountsDevices(e, MainPlans(d, ns), s);
    CreatedOrFound(e, MainPlans(d, ns), s);
    MainRecords(d, ns);
  }

  lemma BgpFigures(schema: map<Kind, set<string>>, d: Dataset, order: Order, ns: Option<nat>, s: Store, mid: Store)
    requires SchemaDeclaresKeys(schema) && RowsCarryKeys(d) && Enumerates(order, d) && HasBgp(d)
    requires Run(EngineFor(schema), MainPlans(d, ns), s) == Some(mid) && Kept(s, mid) && SeedMain(EngineFor(schema), d, order, ns, s).Done?
    ensures var r := SeedMain(EngineFor(schema), d, order, ns, s);
            && NewDevices(s, r.store) == NewDevices(s, mid)
            && r.total == ItemCount(d, SEED_ORDER) + |Pairs(d)| + |SessionsOf(d)|
            && r.devicesCreated == DevicesCreated(EngineFor(schema), MainPlans(d, ns), s)
            && r.devicesUpdated == |ItemsOf(d, Devices)| - r.devicesCreated
  {
    EngineFollows(schema);
    var middle, vrf, t := BgpSeedParts(EngineFor(schema), d, order, ns, s);
    BgpRecords(d, order, vrf);
    BgpAddsNoDevice(EngineFor(schema), d, order, vrf, s, mid, t);
  }

  // ---- Rejections and failures ----

  /** A device record without one of its required fields is rejected before anything is written. */
  lemma MissingFieldStops(e: Engine, d: Dataset, order: Order, s: Store, row: Item, f: string)
    requires row in ItemsOf(d, Devices) && f !in row
    requires f == "name" || f == "role" || f == "use_case" || f == "device_type" || f == "location"
    ensures Seeded(e, d, order, s) == Failed && SeedProgress(e, d, order, s) == s
  {
    assert f in DEVICE_REQUIRED_FIELDS;
  }

  /** So is a dataset that needs the default namespace of a store that has none. */
  lemma MissingNamespaceStops(e: Engine, d: Dataset, order: Order, s: Store)
    requires First(s, IpamNamespace, ByAttr("default", Bool(true))).None?
    requires || Vrfs in d.sections || IpPrefixes in d.sections || Interfaces in d.sections
             || exists row :: row in ItemsOf(d, Devices) && "management_ip" in row && TruthyValue(row["management_ip"])
    ensures Seeded(e, d, order, s) == Failed && SeedProgress(e, d, order, s) == s
  {
    assert NeedsNamespace(d);
  }

  /** Plans that cannot all run stop at the first that cannot be resolved, and what ran before it stays. */
  lemma {:induction false} ProgressStops(e: Engine, plans: seq<Plan>, s: Store) returns (i: nat)
    requires Run(e, plans, s).None?
    ensures i < |plans| && Run(e, plans[..i], s) == Some(Progress(e, plans, s)) && e.resolve(plans[i], Progress(e, plans, s)).None?
    decreases plans
  {
    var op := e.resolve(plans[0], s);
    if op.None? {
      i := 0;
    } else {
      i := ProgressStops(e, plans[1..], Apply(s, op.value));
      assert plans[..i + 1][1..] == plans[1..][..i];
      i := i + 1;
    }
  }

  lemma {:induction false} ProgressKeeps(e: Engine, plans: seq<Plan>, s: Store)
    requires Usable(e, plans)
    ensures Kept(s, Progress(e, plans, s))
    decreases plans
  {
    if plans != [] && e.resolve(plans[0], s).Some? {
      var op := e.resolve(plans[0], s).value;
      UsableTail(e, plans);
      ApplyEffect(s, op);
      ProgressKeeps(e, plans[1..], Apply(s, op));
      KeptTransitive(s, Apply(s, op), Progress(e, plans, s));
    }
  }

  lemma BgpKeeps(schema: map<Kind, set<string>>, d: Dataset, order: Order, mid: Store)
    requires SchemaDeclaresKeys(schema)
    ensures Kept(mid, BgpProgress(EngineFor(schema), d, order, mid))
  {
    if HasBgp(d) && DefaultVrf(mid).Some? {
      GroupsUsable(schema, d, order, DefaultVrf(mid).value);
      ProgressKeeps(EngineFor(schema), BgpPlans(d, order, DefaultVrf(mid).value), mid);
    }
  }

  /** Whether it succeeds or fails on the way, a seed leaves every node it found with its kind, key and relations. */
  lemma EverySeedKeeps(schema: map<Kind, set<string>>, d: Dataset, order: Order, s: Store)
    requires SchemaDeclaresKeys(schema) && RowsCarryKeys(d)
    ensures Kept(s, SeedProgress(EngineFor(schema), d, order, s))
  {
    var e, main := EngineFor(schema), MainPlans(d, NamespaceFor(d, s));
    MainIsGeneric(schema, d, NamespaceFor(d, s));
    ProgressKeeps(e, main, s);
    BgpKeeps(schema, d, order, Progress(e, main, s));
    KeptTransitive(s, Progress(e, main, s), BgpProgress(e, d, order, Progress(e, main, s)));
  }
}
