/**
 What the seed ingester does for each record (infrahub/seed.py), as plans.

 A plan resolves against the store into one upsert: relationships become peer ids, and an
 unresolvable peer fails. A plan depends only on the kinds it reads, and SEED_ORDER never
 writes a kind after something has read it (`Ordered`).
 */
module SeedPlans {
  import opened Prelude
  import opened Json
  import opened SeedStore

  type Item = map<string, Json>

  datatype SectionName =
    | Organization | Location | Manufacturer | Platform | DeviceTypes | AutonomousSystems
    | Vrfs | IpPrefixes | Devices | Interfaces

  /** The generic part of SEED_ORDER; the two BGP sections follow it. */
  const SEED_ORDER: seq<SectionName> :=
    [Organization, Location, Manufacturer, Platform, DeviceTypes, AutonomousSystems, Vrfs, IpPrefixes, Devices, Interfaces]

  datatype RelSpec = RelSpec(field: string, peer: Kind, lookup: string)

  /** One row of _SECTIONS; `addressRel` is the relation its address field is wired into. */
  datatype Section = Section(
    kind: Kind,
    rels: seq<RelSpec>,
    namespaceField: Option<string>,
    addressField: Option<string>,
    addressRel: string)

  function SectionOf(name: SectionName): Section
  {
    match name
    case Organization => Section(OrganizationProvider, [], None, None, "")
    case Location => Section(LocationSite, [], None, None, "")
    case Manufacturer => Section(OrganizationManufacturer, [], None, None, "")
    case Platform => Section(DcimPlatform, [], None, None, "")
    case DeviceTypes => Section(DcimDeviceType, [RelSpec("manufacturer", OrganizationManufacturer, "name")], None, None, "")
    case AutonomousSystems => Section(RoutingAutonomousSystem, [RelSpec("organization", OrganizationProvider, "name")], None, None, "")
    case Vrfs => Section(IpamVRF, [], Some("namespace"), None, "")
    case IpPrefixes => Section(IpamPrefix, [], Some("ip_namespace"), None, "")
    case Devices => Section(DcimDevice, [
      RelSpec("device_type", DcimDeviceType, "name"),
      RelSpec("platform", DcimPlatform, "name"),
      RelSpec("location", LocationSite, "shortname"),
      RelSpec("asn", RoutingAutonomousSystem, "asn")], None, Some("management_ip"), "primary_address")
    case Interfaces => Section(InterfacePhysical, [RelSpec("device", DcimDevice, "name")], None, Some("ip_address"), "ip_addresses")
  }

  /** Position in dependency order; IP addresses are never read for anything but relations. */
  function Rank(kind: Kind): nat
  {
    match kind
    case IpamNamespace => 0
    case OrganizationProvider => 1 case LocationSite => 2 case OrganizationManufacturer => 3 case DcimPlatform => 4
    case DcimDeviceType => 5 case RoutingAutonomousSystem => 6 case IpamVRF => 7 case IpamPrefix => 8
    case DcimDevice => 9 case InterfacePhysical => 10 case RoutingBGPPeerGroup => 11 case RoutingBGPSession => 12
    case IpamIPAddress => 13
  }

  // ---- BGP records ----

  datatype PeerGroup = PeerGroup(name: string, description: Option<string>, status: Option<Json>, extra: Item)

  datatype Session = Session(
    description: string, localDevice: string, status: Option<Json>, extra: Item,
    localAs: Option<Json>, remoteAs: Option<Json>, localIp: Option<Json>, remoteIp: Option<Json>, peerGroup: Option<string>)

  function ShadowName(group: string, device: string): string { group + "@" + device }

  /**
   IpPlan materialises an item's address before ItemPlan upserts the item itself; GroupPlan is
   one shadow of a peer group on one device; SessionPlan names the shadow it points to.
   */
  datatype Plan =
    | IpPlan(section: SectionName, item: Item, namespace: nat)
    | ItemPlan(section: SectionName, item: Item, ns: Option<nat>)
    | GroupPlan(group: PeerGroup, device: string, vrf: nat)
    | SessionPlan(session: Session, vrf: nat, shadow: Option<string>)

  // ---- Resolution ----

  function ByAttr(attr: string, value: Json): Filter { Filter(map[attr := value], map[]) }

  function ByName(name: string): Filter { ByAttr("name", Str(name)) }

  /** `_resolve_relationships`: the peers of the declared relationship fields an item carries. */
  function ResolveRels(rels: seq<RelSpec>, item: Item, s: Store): Option<map<string, Rel>>
  {
    if rels == [] then Some(map[])
    else
      var rest := ResolveRels(rels[1..], item, s);
      if rels[0].field !in item then rest
      else
        var peer := First(s, rels[0].peer, ByAttr(rels[0].lookup, item[rels[0].field]));
        if peer.None? || rest.None? then None else Some(map[rels[0].field := One(peer.value)] + rest.value)
  }

  function AddressFilter(address: Json, ns: nat): Filter { Filter(map["address" := address], map["ip_namespace" := ns]) }

  /** The attributes of an item its kind declares; the rest of a payload is relations or ignored. */
  function Declared(schema: map<Kind, set<string>>, kind: Kind, item: Item): Item
  {
    map k | k in item && kind in schema && k in schema[kind] :: item[k]
  }

  function ItemFilter(section: SectionName, item: Item, rels: map<string, Rel>): Filter
  {
    var kind := SectionOf(section).kind;
    Filter(map k | k in KeyAttrs(kind) && k in item :: item[k],
           if section == Interfaces && "device" in rels && rels["device"].One? then map["device" := rels["device"].id] else map[])
  }

  function AddressRel(section: SectionName, item: Item, ns: Option<nat>, s: Store): map<string, Rel>
  {
    var sec := SectionOf(section);
    if ns.None? || sec.addressField.None? || sec.addressField.value !in item then map[]
    else
      var ip := First(s, IpamIPAddress, AddressFilter(item[sec.addressField.value], ns.value));
      if ip.None? then map[]
      else map[sec.addressRel := if section == Interfaces then Many([ip.value]) else One(ip.value)]
  }

  function NamespaceRel(section: SectionName, ns: Option<nat>): map<string, Rel>
  {
    var sec := SectionOf(section);
    if ns.Some? && sec.namespaceField.Some? then map[sec.namespaceField.value := One(ns.value)] else map[]
  }

  function GroupAttrs(g: PeerGroup, device: string): Item
  {
    g.extra + map["name" := Str(ShadowName(g.name, device)),
                  "description" := Str((if g.description.Some? then g.description.value else g.name) + " (" + device + ")"),
                  "status" := if g.status.Some? then g.status.value else Str("active")]
  }

  function SessionAttrs(x: Session): Item
  {
    x.extra + map["description" := Str(x.description), "status" := if x.status.Some? then x.status.value else Str("active")]
  }

  /** A peer that must exist if named. */
  function RequiredPeer(name: string, value: Option<Json>, s: Store): Option<map<string, Rel>>
  {
    if value.None? then Some(map[])
    else
      var peer := First(s, RoutingAutonomousSystem, ByAttr("asn", value.value));
      if peer.None? then None else Some(map[name := One(peer.value)])
  }

  /** A peer that is wired only if it exists. */
  function OptionalPeer(name: string, kind: Kind, f: Option<Filter>, s: Store): map<string, Rel>
  {
    if f.None? then map[]
    else
      var peer := First(s, kind, f.value);
      if peer.None? then map[] else map[name := One(peer.value)]
  }

  function ByAddress(value: Option<Json>): Option<Filter>
  {
    if value.None? then None else Some(ByAttr("address", value.value))
  }

  function ShadowRel(shadow: Option<string>, s: Store): map<string, Rel>
  {
    OptionalPeer("peer_group", RoutingBGPPeerGroup, if shadow.None? then None else Some(ByName(shadow.value)), s)
  }

  function SessionRels(x: Session, vrf: nat, group: map<string, Rel>, device: nat,
                       local: map<string, Rel>, remote: map<string, Rel>, s: Store): map<string, Rel>
  {
    local + remote
    + OptionalPeer("local_ip", IpamIPAddress, ByAddress(x.localIp), s)
    + OptionalPeer("remote_ip", IpamIPAddress, ByAddress(x.remoteIp), s)
    + group
    + map["device" := One(device), "vrf" := One(vrf)]
  }

  function SessionOp(x: Session, vrf: nat, group: map<string, Rel>, device: nat,
                     local: map<string, Rel>, remote: map<string, Rel>, s: Store): Op
  {
    Op(RoutingBGPSession, ByAttr("description", Str(x.description)), SessionAttrs(x),
       SessionRels(x, vrf, group, device, local, remote, s), true)
  }

  /** None is the IntentValidationError for an unresolvable peer. */
  function Resolve(schema: map<Kind, set<string>>, p: Plan, s: Store): Option<Op>
  {
    match p
    case IpPlan(section, item, ns) =>
      var sec := SectionOf(section);
      if ResolveRels(sec.rels, item, s).None? || sec.addressField.None? || sec.addressField.value !in item then None
      else
        var address := item[sec.addressField.value];
        Some(Op(IpamIPAddress, AddressFilter(address, ns), map["address" := address], map["ip_namespace" := One(ns)], false))
    case ItemPlan(section, item, ns) =>
      var sec := SectionOf(section);
      var rels := ResolveRels(sec.rels, item, s);
      if rels.None? then None
      else Some(Op(sec.kind, ItemFilter(section, item, rels.value), Declared(schema, sec.kind, item),
                   NamespaceRel(section, ns) + AddressRel(section, item, ns, s) + rels.value, true))
    case GroupPlan(group, device, vrf) =>
      var peer := First(s, DcimDevice, ByName(device));
      if peer.None? then None
      else Some(Op(RoutingBGPPeerGroup, ByName(ShadowName(group.name, device)), GroupAttrs(group, device),
                   map["device" := One(peer.value), "vrf" := One(vrf)], true))
    case SessionPlan(x, vrf, shadow) =>
      var device := First(s, DcimDevice, ByName(x.localDevice));
      var local, remote := RequiredPeer("local_as", x.localAs, s), RequiredPeer("remote_as", x.remoteAs, s);
      if device.None? || local.None? || remote.None? then None
      else Some(SessionOp(x, vrf, ShadowRel(shadow, s), device.value, local.value, remote.value, s))
  }

  function KindOf(p: Plan): Kind
  {
    match p
    case IpPlan(_, _, _) => IpamIPAddress
    case ItemPlan(section, _, _) => SectionOf(section).kind
    case GroupPlan(_, _, _) => RoutingBGPPeerGroup
    case SessionPlan(_, _, _) => RoutingBGPSession
  }

  function PeerKinds(rels: seq<RelSpec>): set<Kind>
  {
    set r | r in rels :: r.peer
  }

  /** The kinds that decide what a plan writes and whether it fails. */
  function Reads(p: Plan): set<Kind>
  {
    match p
    case IpPlan(section, _, _) => PeerKinds(SectionOf(section).rels)
    case ItemPlan(section, _, _) => PeerKinds(SectionOf(section).rels)
    case GroupPlan(_, _, _) => {DcimDevice}
    case SessionPlan(_, _, _) => {DcimDevice, RoutingAutonomousSystem}
  }

  // ---- Records carry their natural key, and the schema declares it ----

  /** The provisioned schema declares natural keys as attributes. */
  predicate SchemaDeclaresKeys(schema: map<Kind, set<string>>)
  {
    forall n: SectionName :: SectionOf(n).kind in schema && KeyAttrs(SectionOf(n).kind) <= schema[SectionOf(n).kind]
  }

  predicate CarriesKey(p: Plan)
  {
    match p
    case ItemPlan(section, item, _) => KeyAttrs(SectionOf(section).kind) <= item.Keys && (section == Interfaces ==> "device" in item)
    case _ => true
  }

  lemma ItemOpIsKeyed(schema: map<Kind, set<string>>, section: SectionName, item: Item, ns: Option<nat>, s: Store)
    requires SchemaDeclaresKeys(schema) && CarriesKey(ItemPlan(section, item, ns))
    requires Resolve(schema, ItemPlan(section, item, ns), s).Some?
    ensures Keyed(Resolve(schema, ItemPlan(section, item, ns), s).value)
  {
    var kind := SectionOf(section).kind;
    var op := Resolve(schema, ItemPlan(section, item, ns), s).value;
    assert kind in schema && KeyAttrs(kind) <= schema[kind];
    assert op.filter.attrs.Keys == KeyAttrs(kind);
  }

  lemma AddressOpIsKeyed(schema: map<Kind, set<string>>, section: SectionName, item: Item, ns: nat, s: Store)
    requires Resolve(schema, IpPlan(section, item, ns), s).Some?
    ensures Keyed(Resolve(schema, IpPlan(section, item, ns), s).value)
  {
  }

  lemma GroupOpIsKeyed(schema: map<Kind, set<string>>, g: PeerGroup, device: string, vrf: nat, s: Store)
    requires Resolve(schema, GroupPlan(g, device, vrf), s).Some?
    ensures Keyed(Resolve(schema, GroupPlan(g, device, vrf), s).value)
  {
  }

  lemma SessionOpIsKeyed(schema: map<Kind, set<string>>, x: Session, vrf: nat, shadow: Option<string>, s: Store)
    requires Resolve(schema, SessionPlan(x, vrf, shadow), s).Some?
    ensures Keyed(Resolve(schema, SessionPlan(x, vrf, shadow), s).value)
  {
    var device := First(s, DcimDevice, ByName(x.localDevice));
    var local, remote := RequiredPeer("local_as", x.localAs, s), RequiredPeer("remote_as", x.remoteAs, s);
    AnySessionOpIsKeyed(x, vrf, ShadowRel(shadow, s), device.value, local.value, remote.value, s);
  }

  lemma AnySessionOpIsKeyed(x: Session, vrf: nat, group: map<string, Rel>, device: nat,
                            local: map<string, Rel>, remote: map<string, Rel>, s: Store)
    ensures Keyed(SessionOp(x, vrf, group, device, local, remote, s))
  {
    SessionAttrsDescribe(x);
    KeyedByText(SessionOp(x, vrf, group, device, local, remote, s), "description", x.description);
  }

  lemma SessionAttrsDescribe(x: Session)
    ensures "description" in SessionAttrs(x) && SessionAttrs(x)["description"] == Str(x.description)
  {
  }

  lemma KeyedByText(op: Op, attr: string, text: string)
    requires KeyAttrs(op.kind) == {attr} && op.filter == ByAttr(attr, Str(text)) && attr in op.attrs && op.attrs[attr] == Str(text)
    ensures Keyed(op)
  {
  }

  lemma ResolvedOpIsKeyed(schema: map<Kind, set<string>>, p: Plan, s: Store)
    requires SchemaDeclaresKeys(schema) && CarriesKey(p) && Resolve(schema, p, s).Some?
    ensures Keyed(Resolve(schema, p, s).value) && Resolve(schema, p, s).value.kind == KindOf(p)
  {
    match p
    case ItemPlan(section, item, ns) => ItemOpIsKeyed(schema, section, item, ns, s);
    case IpPlan(section, item, ns) => AddressOpIsKeyed(schema, section, item, ns, s);
    case GroupPlan(g, device, vrf) => GroupOpIsKeyed(schema, g, device, vrf, s);
    case SessionPlan(x, vrf, shadow) => SessionOpIsKeyed(schema, x, vrf, shadow, s);
  }

  // ---- A plan depends only on what it reads ----

  /** The same upsert up to relations, which matter only when a node is created. */
  predicate SameWrite(a: Option<Op>, b: Option<Op>)
  {
    if a.Some? && b.Some? then
      && a.value.kind == b.value.kind && a.value.filter == b.value.filter
      && a.value.attrs == b.value.attrs && a.value.touch == b.value.touch
    else a.None? && b.None?
  }

  lemma {:induction false} ResolveRelsAgrees(rels: seq<RelSpec>, item: Item, s: Store, t: Store)
    requires Agree(s, t, PeerKinds(rels))
    ensures ResolveRels(rels, item, s) == ResolveRels(rels, item, t)
  {
    if rels != [] {
      assert rels[0] in rels && forall r :: r in rels[1..] ==> r in rels;
      ResolveRelsAgrees(rels[1..], item, s, t);
      if rels[0].field in item {
        FirstAgrees(s, t, PeerKinds(rels), rels[0].peer, ByAttr(rels[0].lookup, item[rels[0].field]));
      }
    }
  }

  lemma ResolveAgrees(schema: map<Kind, set<string>>, p: Plan, s: Store, t: Store)
    requires Agree(s, t, Reads(p))
    ensures SameWrite(Resolve(schema, p, s), Resolve(schema, p, t))
  {
    match p
    case IpPlan(section, item, ns) => ResolveRelsAgrees(SectionOf(section).rels, item, s, t);
    case ItemPlan(section, item, ns) => ResolveRelsAgrees(SectionOf(section).rels, item, s, t);
    case GroupPlan(group, device, vrf) => FirstAgrees(s, t, Reads(p), DcimDevice, ByName(device));
    case SessionPlan(x, vrf, shadow) =>
      FirstAgrees(s, t, Reads(p), DcimDevice, ByName(x.localDevice));
      RequiredPeerAgrees("local_as", x.localAs, s, t);
      RequiredPeerAgrees("remote_as", x.remoteAs, s, t);
  }

  lemma RequiredPeerAgrees(name: string, value: Option<Json>, s: Store, t: Store)
    requires Agree(s, t, {DcimDevice, RoutingAutonomousSystem})
    ensures RequiredPeer(name, value, s) == RequiredPeer(name, value, t)
  {
    if value.Some? {
      FirstAgrees(s, t, {DcimDevice, RoutingAutonomousSystem}, RoutingAutonomousSystem, ByAttr("asn", value.value));
    }
  }

  // ---- Dependency order ----

  /** No plan writes a kind that it or an earlier plan reads. */
  predicate Ordered(plans: seq<Plan>)
  {
    forall i, j :: 0 <= i <= j < |plans| ==> KindOf(plans[j]) !in Reads(plans[i])
  }

  /** Where a plan stands in SEED_ORDER; an address shares its item's place. */
  function Place(p: Plan): nat
  {
    match p
    case IpPlan(section, _, _) => Rank(SectionOf(section).kind)
    case _ => Rank(KindOf(p))
  }

  lemma ReadsComeFirst(p: Plan, k: Kind)
    requires k in Reads(p)
    ensures Rank(k) < Place(p) && Rank(k) < Rank(IpamIPAddress)
  {
    match p
    case IpPlan(section, item, ns) => PeersComeFirst(section, k);
    case ItemPlan(section, item, ns) => PeersComeFirst(section, k);
    case GroupPlan(group, device, vrf) =>
    case SessionPlan(x, vrf, shadow) =>
  }

  lemma PeersComeFirst(section: SectionName, k: Kind)
    requires k in PeerKinds(SectionOf(section).rels)
    ensures Rank(k) < Rank(SectionOf(section).kind) && Rank(k) < Rank(IpamIPAddress)
  {
    var r :| r in SectionOf(section).rels && r.peer == k;
  }

  /** Plans taken in SEED_ORDER are dependency ordered. */
  lemma PlacesOrder(plans: seq<Plan>)
    requires forall i, j :: 0 <= i < j < |plans| ==> Place(plans[i]) <= Place(plans[j])
    ensures Ordered(plans)
  {
    forall i, j | 0 <= i <= j < |plans| ensures KindOf(plans[j]) !in Reads(plans[i]) {
      if KindOf(plans[j]) in Reads(plans[i]) {
        ReadsComeFirst(plans[i], KindOf(plans[j]));
      }
    }
  }
}
