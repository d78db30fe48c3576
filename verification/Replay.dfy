/**
 The render -> report -> normalise -> diff loop.

 A device that reports the rendered payload back, next to any entities intent does not name,
 leaves no forward item exactly when every desired entity is faithful: none of its compared
 attributes is lost on the way through the templates and the adapter.
 */
module Replay {
  import opened Prelude
  import opened Json
  import opened Decimal
  import opened Intent
  import opened Renderer
  import opened SrLinux
  import D = Diff

  // ---- What the diff reads of intent ----

  function InterfaceEntity(i: Interface): D.Entity
  {
    D.Entity(i.name, map["description" := TextOrNull(i.description), "ip_address" := TextOrNull(i.ipAddress),
                         "prefix_length" := NumOrNull(i.prefixLength), "enabled" := Bool(i.enabled), "mtu" := NumOrNull(i.mtu)])
  }

  function SessionEntity(s: BgpSession): D.Entity
  {
    D.Entity(s.peerAddress, map["peer_address" := Str(s.peerAddress), "peer_asn" := Num(s.peerAsn),
                                "peer_group" := TextOrNull(s.peerGroup), "enabled" := Bool(s.enabled)])
  }

  function InterfaceEntities(d: DesiredState): (r: seq<D.Entity>)
    ensures |r| == |d.interfaces| && forall k :: 0 <= k < |r| ==> r[k] == InterfaceEntity(d.interfaces[k])
  {
    seq(|d.interfaces|, k requires 0 <= k < |d.interfaces| => InterfaceEntity(d.interfaces[k]))
  }

  function SessionEntities(d: DesiredState): (r: seq<D.Entity>)
    ensures |r| == |d.sessions| && forall k :: 0 <= k < |r| ==> r[k] == SessionEntity(d.sessions[k])
  {
    seq(|d.sessions|, k requires 0 <= k < |d.sessions| => SessionEntity(d.sessions[k]))
  }

  function DiffState(d: DesiredState, actual: D.Actual): seq<D.DriftItem>
  {
    D.Diff(InterfaceEntities(d), SessionEntities(d), actual)
  }

  // ---- Faithful entities ----

  /** An address the `address/length` text carries, or neither address nor length. */
  predicate FaithfulAddress(address: Option<string>, length: Option<int>)
  {
    if address.None? then length.None?
    else address.value != "" && '/' !in address.value && length.Some? && length.value >= 0
  }

  predicate FaithfulInterface(i: Interface)
  {
    i.description != Some("") && FaithfulAddress(i.ipAddress, i.prefixLength)
  }

  predicate FaithfulSession(s: BgpSession)
  {
    s.peerGroup != Some("")
  }

  // ---- Looking up rendered members ----

  function Named(fs: seq<Field>, name: string): Json
  {
    if fs == [] then Null else if fs[0].name == name then fs[0].value else Named(fs[1..], name)
  }

  predicate Unprefixed(order: seq<string>)
  {
    forall k :: k in order ==> ':' !in k
  }

  lemma {:induction false} FirstLocalPlain(order: seq<string>, fields: map<string, Json>, local: string)
    requires Unprefixed(order) && forall k :: k in order ==> k in fields
    ensures FirstLocal(order, fields, local) == if local in order then fields[local] else Null
  {
    if order != [] {
      assert order == [order[0]] + order[1..];
      FirstLocalPlain(order[1..], fields, local);
    }
  }

  lemma {:induction false} FieldMapNamed(fs: seq<Field>, name: string)
    ensures name in FieldMap(fs) <==> name in Names(fs)
    ensures Named(fs, name) == if name in Names(fs) then FieldMap(fs)[name] else Null
  {
    if fs != [] { FieldMapNamed(fs[1..], name); }
  }

  lemma GetLocalOfObject(fs: seq<Field>, local: string)
    requires Unprefixed(Names(fs))
    ensures GetLocal(Object(fs), local) == Named(fs, local)
  {
    forall k | k in Names(fs) ensures k in FieldMap(fs) { FieldMapNamed(fs, k); }
    FirstLocalPlain(Names(fs), FieldMap(fs), local);
    FieldMapNamed(fs, local);
  }

  predicate Plain(f: Field) { ':' !in f.name }

  lemma NamedMember(present: bool, f: Field, rest: seq<Field>, name: string)
    requires Plain(f) && Unprefixed(Names(rest))
    ensures var fs := Member(present, f, rest);
            && Named(fs, name) == (if present && f.name == name then f.value else Named(rest, name))
            && Unprefixed(Names(fs))
  {
    if present {
      assert ([f] + rest)[1..] == rest;
    } else {
      assert [] + rest == rest;
    }
  }

  // ---- One interface through the loop ----

  /** The members of an interface that are there only when set. */
  function OptionalMembers(i: Interface): seq<Field>
  {
    Member(i.mtu.Some?, Field("mtu", NumOrNull(i.mtu)),
    Member(Truthy(i.description), Field("description", TextOrNull(i.description)),
    Member(Truthy(i.ipAddress), Field("subinterface", Subinterfaces(i)), [])))
  }

  lemma NamedOptional(i: Interface, name: string)
    ensures Unprefixed(Names(OptionalMembers(i)))
    ensures Named(OptionalMembers(i), name) ==
            if i.mtu.Some? && name == "mtu" then NumOrNull(i.mtu)
            else if Truthy(i.description) && name == "description" then TextOrNull(i.description)
            else if Truthy(i.ipAddress) && name == "subinterface" then Subinterfaces(i)
            else Null
  {
    var s := Member(Truthy(i.ipAddress), Field("subinterface", Subinterfaces(i)), []);
    NamedMember(Truthy(i.ipAddress), Field("subinterface", Subinterfaces(i)), [], name);
    NamedMember(Truthy(i.description), Field("description", TextOrNull(i.description)), s, name);
    NamedMember(i.mtu.Some?, Field("mtu", NumOrNull(i.mtu)), Member(Truthy(i.description), Field("description", TextOrNull(i.description)), s), name);
  }

  lemma InterfaceMembers(i: Interface, name: string)
    ensures GetLocal(RenderInterface(i), name) ==
            if name == "name" then Str(i.name)
            else if name == "admin-state" then AdminState(i.enabled)
            else if i.mtu.Some? && name == "mtu" then NumOrNull(i.mtu)
            else if Truthy(i.description) && name == "description" then TextOrNull(i.description)
            else if Truthy(i.ipAddress) && name == "subinterface" then Subinterfaces(i)
            else Null
  {
    var optional := OptionalMembers(i);
    NamedOptional(i, name);
    NamedMember(true, Field("admin-state", AdminState(i.enabled)), optional, name);
    NamedMember(true, Field("name", Str(i.name)), Member(true, Field("admin-state", AdminState(i.enabled)), optional), name);
    GetLocalOfObject(InterfaceFields(i), name);
  }

  lemma NeighborMembers(s: BgpSession, name: string)
    ensures GetLocal(RenderNeighbor(s), name) ==
            if name == "peer-address" then Str(s.peerAddress)
            else if name == "peer-as" then Num(s.peerAsn)
            else if name == "admin-state" then AdminState(s.enabled)
            else if Truthy(s.peerGroup) && name == "peer-group" then TextOrNull(s.peerGroup)
            else Null
  {
    var g := Member(Truthy(s.peerGroup), Field("peer-group", TextOrNull(s.peerGroup)), []);
    NamedMember(Truthy(s.peerGroup), Field("peer-group", TextOrNull(s.peerGroup)), [], name);
    var a := Member(true, Field("admin-state", AdminState(s.enabled)), g);
    NamedMember(true, Field("admin-state", AdminState(s.enabled)), g, name);
    var n := Member(true, Field("peer-as", Num(s.peerAsn)), a);
    NamedMember(true, Field("peer-as", Num(s.peerAsn)), a, name);
    NamedMember(true, Field("peer-address", Str(s.peerAddress)), n, name);
    GetLocalOfObject(NeighborFields(s), name);
  }

  /** The adapter finds the one rendered address under its subinterface. */
  lemma SubinterfaceAddress(address: string, length: Option<int>)
    ensures FirstAddress(AddressEntries([SubinterfaceOf(address, length)])) == AddressOf(PrefixText(address, length))
  {
    var prefix, entry := PrefixText(address, length), AddressEntry(address, length);
    NamedMember(true, Field("ip-prefix", Str(prefix)), [], "ip-prefix");
    GetLocalOfObject(Member(true, Field("ip-prefix", Str(prefix)), []), "ip-prefix");
    assert GetLocal(entry, "ip-prefix") == Str(prefix) && HasPrefix(entry);
    var last := Member(true, Field("address", Arr([entry])), []);
    NamedMember(true, Field("address", Arr([entry])), [], "address");
    NamedMember(true, Field("admin-state", Str("enable")), last, "address");
    GetLocalOfObject(Member(true, Field("admin-state", Str("enable")), last), "address");
    var ipv4 := Ipv4Of(address, length);
    assert GetLocal(ipv4, "address") == Arr([entry]);
    var tail := Member(true, Field("ipv4", ipv4), []);
    NamedMember(true, Field("ipv4", ipv4), [], "ipv4");
    NamedMember(true, Field("admin-state", Str("enable")), tail, "ipv4");
    var mid := Member(true, Field("admin-state", Str("enable")), tail);
    NamedMember(true, Field("index", Num(0)), mid, "ipv4");
    GetLocalOfObject(Member(true, Field("index", Num(0)), mid), "ipv4");
    var sub := SubinterfaceOf(address, length);
    assert GetLocal(sub, "ipv4") == ipv4;
    OneSubinterface(sub, entry);
  }

  lemma OneSubinterface(sub: Json, entry: Json)
    requires GetLocal(GetLocal(sub, "ipv4"), "address") == Arr([entry]) && HasPrefix(entry)
    ensures FirstAddress(AddressEntries([sub])) == AddressOf(GetLocal(entry, "ip-prefix").s)
  {
    assert [sub][1..] == [];
    assert AddressEntries([sub]) == [entry];
  }

  /** The text `address/length` reads back as the same pair exactly when the address holds no `/` and the length is not negative. */
  lemma PrefixReadsBack(address: string, length: int)
    requires address != ""
    ensures AddressOf(PrefixText(address, Some(length))) == Address(Str(address), Num(length)) <==> '/' !in address && length >= 0
  {
    var text, digits := PrefixText(address, Some(length)), IntText(length);
    var i := IndexOf(text, '/');
    assert text[|address|] == '/';
    if '/' in address {
      var k :| 0 <= k < |address| && address[k] == '/';
      assert text[k] == '/' && i < |address|;
      var after := text[i + 1..];
      assert after[|address| - i - 1] == '/' && !IsDigit('/');
    } else {
      forall k | 0 <= k < |address| ensures text[k] != '/' { assert address[k] in address; }
      assert i == |address| && text[..i] == address && text[i + 1..] == digits;
      IntTextDigits(length);
      if length >= 0 { ParseNatText(length); }
    }
  }

  lemma RenderedAddress(i: Interface)
    ensures InterfaceAddress(RenderInterface(i)) ==
            if Truthy(i.ipAddress) then AddressOf(PrefixText(i.ipAddress.value, i.prefixLength)) else NO_ADDRESS
  {
    InterfaceMembers(i, "subinterface");
    if Truthy(i.ipAddress) { SubinterfaceAddress(i.ipAddress.value, i.prefixLength); }
  }

  /** What the device reports for a rendered interface, attribute by attribute. */
  lemma RenderedInterface(i: Interface)
    ensures var r := Record(D.InterfaceKind, RenderInterface(i)); var a := InterfaceAddress(RenderInterface(i));
            && EntryKey(D.InterfaceKind, RenderInterface(i)) == Some(i.name)
            && D.FieldOf(r, "description") == (if Truthy(i.description) then TextOrNull(i.description) else Null)
            && D.FieldOf(r, "ip_address") == a.address && D.FieldOf(r, "prefix_length") == a.length
            && D.FieldOf(r, "enabled") == Bool(i.enabled) && D.FieldOf(r, "mtu") == NumOrNull(i.mtu)
  {
    InterfaceRecordFields(RenderInterface(i), InterfaceAddress(RenderInterface(i)));
    InterfaceMembers(i, "name");
    InterfaceMembers(i, "admin-state");
    InterfaceMembers(i, "mtu");
    InterfaceMembers(i, "description");
    AdminStateReadsBack(i.enabled);
  }

  lemma InterfaceRecordFields(n: Json, a: Address)
    ensures var r := InterfaceRecord(n, a);
            && D.FieldOf(r, "description") == GetLocal(n, "description") && D.FieldOf(r, "ip_address") == a.address
            && D.FieldOf(r, "prefix_length") == a.length && D.FieldOf(r, "enabled") == Bool(Enabled(n))
            && D.FieldOf(r, "mtu") == GetLocal(n, "mtu")
  {
  }

  lemma AdminStateReadsBack(enabled: bool)
    ensures AdminState(enabled) == Str("enable") <==> enabled
  {
  }

  lemma RenderedNeighbor(s: BgpSession)
    ensures var r := Record(D.SessionKind, RenderNeighbor(s));
            && EntryKey(D.SessionKind, RenderNeighbor(s)) == Some(s.peerAddress)
            && D.FieldOf(r, "peer_address") == Str(s.peerAddress) && D.FieldOf(r, "peer_asn") == Num(s.peerAsn)
            && D.FieldOf(r, "peer_group") == (if Truthy(s.peerGroup) then TextOrNull(s.peerGroup) else Null)
            && D.FieldOf(r, "enabled") == Bool(s.enabled)
  {
    NeighborRecordFields(RenderNeighbor(s));
    NeighborMembers(s, "peer-address");
    NeighborMembers(s, "peer-as");
    NeighborMembers(s, "peer-group");
    NeighborMembers(s, "admin-state");
    AdminStateReadsBack(s.enabled);
  }

  lemma NeighborRecordFields(n: Json)
    ensures var r := NeighborRecord(n);
            && D.FieldOf(r, "peer_address") == GetLocal(n, "peer-address") && D.FieldOf(r, "peer_asn") == GetLocal(n, "peer-as")
            && D.FieldOf(r, "peer_group") == GetLocal(n, "peer-group") && D.FieldOf(r, "enabled") == Bool(Enabled(n))
  {
  }

  ghost predicate EntityMatches(spec: D.Spec, e: D.Entity, actual: D.Actual)
  {
    forall f :: f in spec.fields ==> !D.Drifts(spec, e, actual, f)
  }

  lemma InterfaceWants(i: Interface)
    ensures var e := InterfaceEntity(i);
            && D.Want(e, "description") == TextOrNull(i.description) && D.Want(e, "ip_address") == TextOrNull(i.ipAddress)
            && D.Want(e, "prefix_length") == NumOrNull(i.prefixLength) && D.Want(e, "enabled") == Bool(i.enabled)
            && D.Want(e, "mtu") == NumOrNull(i.mtu)
  {
  }

  lemma InterfaceFieldSet(f: string)
    ensures f in D.INTERFACE_SPEC.fields <==> f in {"description", "ip_address", "prefix_length", "enabled", "mtu"}
  {
  }

  lemma SimpleFieldsMatch(i: Interface, actual: D.Actual)
    requires D.Entry(actual, D.Path(D.INTERFACE_SPEC, i.name)) == Record(D.InterfaceKind, RenderInterface(i))
    ensures var spec, e := D.INTERFACE_SPEC, InterfaceEntity(i);
            && (!D.Drifts(spec, e, actual, "description") <==> i.description != Some(""))
            && !D.Drifts(spec, e, actual, "enabled") && !D.Drifts(spec, e, actual, "mtu")
  {
    InterfaceWants(i);
    RenderedInterface(i);
  }

  lemma AddressFieldsMatch(i: Interface, actual: D.Actual)
    requires !LacksPrefix(i)
    requires D.Entry(actual, D.Path(D.INTERFACE_SPEC, i.name)) == Record(D.InterfaceKind, RenderInterface(i))
    ensures var spec, e := D.INTERFACE_SPEC, InterfaceEntity(i);
            !D.Drifts(spec, e, actual, "ip_address") && !D.Drifts(spec, e, actual, "prefix_length")
            <==> FaithfulAddress(i.ipAddress, i.prefixLength)
  {
    InterfaceWants(i);
    RenderedInterface(i);
    RenderedAddress(i);
    if Truthy(i.ipAddress) { PrefixReadsBack(i.ipAddress.value, i.prefixLength.value); }
  }

  /** With its own record on the device, a renderable interface drifts nowhere exactly when it is faithful. */
  lemma InterfaceMatches(i: Interface, actual: D.Actual)
    requires !LacksPrefix(i)
    requires D.Entry(actual, D.Path(D.INTERFACE_SPEC, i.name)) == Record(D.InterfaceKind, RenderInterface(i))
    ensures EntityMatches(D.INTERFACE_SPEC, InterfaceEntity(i), actual) <==> FaithfulInterface(i)
  {
    SimpleFieldsMatch(i, actual);
    AddressFieldsMatch(i, actual);
    forall f ensures f in D.INTERFACE_SPEC.fields <==> f in {"description", "ip_address", "prefix_length", "enabled", "mtu"} {
      InterfaceFieldSet(f);
    }
  }

  lemma SessionMatches(s: BgpSession, actual: D.Actual)
    requires D.Entry(actual, D.Path(D.SESSION_SPEC, s.peerAddress)) == Record(D.SessionKind, RenderNeighbor(s))
    ensures EntityMatches(D.SESSION_SPEC, SessionEntity(s), actual) <==> FaithfulSession(s)
  {
    var spec, e := D.SESSION_SPEC, SessionEntity(s);
    RenderedNeighbor(s);
    assert !D.Drifts(spec, e, actual, "peer_group") <==> s.peerGroup != Some("");
    assert !D.Drifts(spec, e, actual, "peer_address") && !D.Drifts(spec, e, actual, "peer_asn") && !D.Drifts(spec, e, actual, "enabled");
    assert forall f :: f in spec.fields <==> f in {"peer_address", "peer_asn", "peer_group", "enabled"};
  }

  // ---- The whole state ----

  /** A list that reports every rendered entry back, in any order and next to entities with other keys. */
  ghost predicate ReportsBack(kind: D.EntityKind, reported: seq<Json>, rendered: seq<Json>, keys: set<string>)
  {
    && (forall r :: r in rendered ==> r in reported)
    && (forall e :: e in reported ==> e in rendered || EntryKey(kind, e).None? || EntryKey(kind, e).value !in keys)
  }

  /** The device holds the rendered payload, plus whatever else it holds under keys intent does not name. */
  ghost predicate Replays(d: DesiredState, data: map<string, Json>)
  {
    && ReportsBack(D.InterfaceKind, ReportedInterfaces(data), RenderInterfaces(d.interfaces), D.Keys(InterfaceEntities(d)))
    && ReportsBack(D.SessionKind, ReportedNeighbors(data), RenderNeighbors(d.sessions), D.Keys(SessionEntities(d)))
  }

  /** Records of the two kinds never share a path. */
  lemma KindsDiffer(a: string, b: string)
    ensures D.Path(D.INTERFACE_SPEC, a) != D.Path(D.SESSION_SPEC, b)
  {
    D.InterfaceSpecPlain();
    D.SessionSpecPlain();
    assert D.Path(D.INTERFACE_SPEC, a)[1] == 'i' && D.Path(D.SESSION_SPEC, b)[1] == 'n';
  }

  /** A reported-back entry keeps its own record, whatever unmanaged entries surround it. */
  lemma ReportedRecord(kind: D.EntityKind, reported: seq<Json>, rendered: seq<Json>, keys: set<string>, k: nat, out: D.Actual)
    requires ReportsBack(kind, reported, rendered, keys) && k < |rendered|
    requires EntryKey(kind, rendered[k]).Some? && EntryKey(kind, rendered[k]).value in keys
    requires forall j :: 0 <= j < |rendered| && j != k ==> EntryKey(kind, rendered[j]) != EntryKey(kind, rendered[k])
    ensures var path := D.Path(SpecOf(kind), EntryKey(kind, rendered[k]).value);
            D.Entry(AddRecords(kind, reported, out), path) == Record(kind, rendered[k])
  {
    var key := EntryKey(kind, rendered[k]).value;
    var path := D.Path(SpecOf(kind), key);
    assert rendered[k] in rendered && LandsAt(kind, rendered[k], path);
    forall e | e in reported && LandsAt(kind, e, path) ensures Record(kind, e) == Record(kind, rendered[k]) {
      D.PathInjective(SpecOf(kind), EntryKey(kind, e).value, key);
      var j :| 0 <= j < |rendered| && rendered[j] == e;
    }
    RecordAt(kind, reported, out, path, Record(kind, rendered[k]));
  }

  lemma InterfaceRecordKept(d: DesiredState, data: map<string, Json>, k: nat)
    requires DistinctNames(d) && Replays(d, data) && k < |d.interfaces|
    ensures var i := d.interfaces[k];
            D.Entry(Normalized(data), D.Path(D.INTERFACE_SPEC, i.name)) == Record(D.InterfaceKind, RenderInterface(i))
  {
    var i := d.interfaces[k];
    var path, rendered := D.Path(D.INTERFACE_SPEC, i.name), RenderInterfaces(d.interfaces);
    forall j | 0 <= j < |rendered| ensures EntryKey(D.InterfaceKind, rendered[j]) == Some(d.interfaces[j].name) {
      RenderedInterface(d.interfaces[j]);
    }
    assert i.name in D.Keys(InterfaceEntities(d)) by { assert InterfaceEntities(d)[k] in InterfaceEntities(d); }
    ReportedRecord(D.InterfaceKind, ReportedInterfaces(data), rendered, D.Keys(InterfaceEntities(d)), k, map[]);
    forall e | e in ReportedNeighbors(data) ensures !LandsAt(D.SessionKind, e, path) {
      var key := EntryKey(D.SessionKind, e);
      if key.Some? { KindsDiffer(i.name, key.value); }
    }
    RecordUntouched(D.SessionKind, ReportedNeighbors(data), AddRecords(D.InterfaceKind, ReportedInterfaces(data), map[]), path);
  }

  lemma SessionRecordKept(d: DesiredState, data: map<string, Json>, k: nat)
    requires DistinctPeers(d) && Replays(d, data) && k < |d.sessions|
    ensures var s := d.sessions[k];
            D.Entry(Normalized(data), D.Path(D.SESSION_SPEC, s.peerAddress)) == Record(D.SessionKind, RenderNeighbor(s))
  {
    var s := d.sessions[k];
    var rendered := RenderNeighbors(d.sessions);
    forall j | 0 <= j < |rendered| ensures EntryKey(D.SessionKind, rendered[j]) == Some(d.sessions[j].peerAddress) {
      RenderedNeighbor(d.sessions[j]);
    }
    assert s.peerAddress in D.Keys(SessionEntities(d)) by { assert SessionEntities(d)[k] in SessionEntities(d); }
    ReportedRecord(D.SessionKind, ReportedNeighbors(data), rendered, D.Keys(SessionEntities(d)), k,
                   AddRecords(D.InterfaceKind, ReportedInterfaces(data), map[]));
  }

  ghost predicate Faithful(d: DesiredState)
  {
    (forall k :: 0 <= k < |d.interfaces| ==> FaithfulInterface(d.interfaces[k])) &&
    (forall k :: 0 <= k < |d.sessions| ==> FaithfulSession(d.sessions[k]))
  }

  ghost predicate Renderable(d: DesiredState)
  {
    forall k :: 0 <= k < |d.interfaces| ==> !LacksPrefix(d.interfaces[k])
  }

  lemma InterfacesMatch(d: DesiredState, data: map<string, Json>)
    requires DistinctNames(d) && Renderable(d) && Replays(d, data)
    ensures D.Matches(D.INTERFACE_SPEC, InterfaceEntities(d), Normalized(data))
       <==> forall k :: 0 <= k < |d.interfaces| ==> FaithfulInterface(d.interfaces[k])
  {
    var es, actual := InterfaceEntities(d), Normalized(data);
    forall k | 0 <= k < |es| ensures EntityMatches(D.INTERFACE_SPEC, es[k], actual) <==> FaithfulInterface(d.interfaces[k]) {
      InterfaceRecordKept(d, data, k);
      InterfaceMatches(d.interfaces[k], actual);
    }
    if D.Matches(D.INTERFACE_SPEC, es, actual) {
      forall k | 0 <= k < |es| ensures EntityMatches(D.INTERFACE_SPEC, es[k], actual) { assert es[k] in es; }
    }
  }

  lemma SessionsMatch(d: DesiredState, data: map<string, Json>)
    requires DistinctPeers(d) && Replays(d, data)
    ensures D.Matches(D.SESSION_SPEC, SessionEntities(d), Normalized(data))
       <==> forall k :: 0 <= k < |d.sessions| ==> FaithfulSession(d.sessions[k])
  {
    var es, actual := SessionEntities(d), Normalized(data);
    forall k | 0 <= k < |es| ensures EntityMatches(D.SESSION_SPEC, es[k], actual) <==> FaithfulSession(d.sessions[k]) {
      SessionRecordKept(d, data, k);
      SessionMatches(d.sessions[k], actual);
    }
    if D.Matches(D.SESSION_SPEC, es, actual) {
      forall k | 0 <= k < |es| ensures EntityMatches(D.SESSION_SPEC, es[k], actual) { assert es[k] in es; }
    }
  }

  lemma MatchingHasNoForward(es: seq<D.Entity>, ss: seq<D.Entity>, actual: D.Actual, item: D.DriftItem)
    requires D.Matches(D.INTERFACE_SPEC, es, actual) && D.Matches(D.SESSION_SPEC, ss, actual)
    requires item in D.Diff(es, ss, actual)
    ensures item.undesired
  {
    D.DiffExact(es, ss, actual, item);
  }

  lemma ForwardIsReported(es: seq<D.Entity>, ss: seq<D.Entity>, actual: D.Actual, item: D.DriftItem)
    requires D.IsForward(D.INTERFACE_SPEC, es, actual, item) || D.IsForward(D.SESSION_SPEC, ss, actual, item)
    ensures item in D.Diff(es, ss, actual) && !item.undesired
  {
    D.DiffExact(es, ss, actual, item);
  }

  /** A report has no forward item exactly when every desired entity matches. */
  lemma NoForwardMeansMatching(es: seq<D.Entity>, ss: seq<D.Entity>, actual: D.Actual)
    ensures (forall item :: item in D.Diff(es, ss, actual) ==> item.undesired)
       <==> D.Matches(D.INTERFACE_SPEC, es, actual) && D.Matches(D.SESSION_SPEC, ss, actual)
  {
    if D.Matches(D.INTERFACE_SPEC, es, actual) && D.Matches(D.SESSION_SPEC, ss, actual) {
      forall item | item in D.Diff(es, ss, actual) ensures item.undesired { MatchingHasNoForward(es, ss, actual, item); }
    }
    if forall item :: item in D.Diff(es, ss, actual) ==> item.undesired {
      forall item ensures !D.IsForward(D.INTERFACE_SPEC, es, actual, item) && !D.IsForward(D.SESSION_SPEC, ss, actual, item) {
        if D.IsForward(D.INTERFACE_SPEC, es, actual, item) || D.IsForward(D.SESSION_SPEC, ss, actual, item) {
          ForwardIsReported(es, ss, actual, item);
        }
      }
      D.NoForward(D.INTERFACE_SPEC, es, actual);
      D.NoForward(D.SESSION_SPEC, ss, actual);
    }
  }

  /** Replaying the rendered payload leaves no forward item exactly when every desired entity is faithful. */
  lemma NoForwardExactly(d: DesiredState, data: map<string, Json>)
    requires DistinctNames(d) && DistinctPeers(d) && Renderable(d) && Replays(d, data)
    ensures (forall item :: item in DiffState(d, Normalized(data)) ==> item.undesired) <==> Faithful(d)
  {
    InterfacesMatch(d, data);
    SessionsMatch(d, data);
    NoForwardMeansMatching(InterfaceEntities(d), SessionEntities(d), Normalized(data));
  }
}
