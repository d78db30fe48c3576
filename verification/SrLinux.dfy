/** Translating collected SR Linux state into the flat records the diff compares (adapters/srlinux.py). */
module SrLinux {
  import opened Prelude
  import opened Json
  import opened Decimal
  import D = Diff

  // ---- Text helpers ----

  function IndexOf(s: string, c: char): (i: nat)
    ensures i <= |s| && (i < |s| ==> s[i] == c) && forall k :: 0 <= k < i ==> s[k] != c
  {
    if s == "" || s[0] == c then 0 else 1 + IndexOf(s[1..], c)
  }

  /** `s.partition(c)`: the text before the first `c` and the text after it. */
  function Partition(s: string, c: char): (string, string)
  {
    var i := IndexOf(s, c);
    if i < |s| then (s[..i], s[i + 1..]) else (s, "")
  }

  /** Strip a YANG `module:` prefix (RFC 7951 section 4). */
  function LocalName(key: string): string
  {
    if ':' in key then Partition(key, ':').1 else key
  }

  // ---- Look-ups ----

  function FirstLocal(order: seq<string>, fields: map<string, Json>, local: string): Json
  {
    if order == [] then Null
    else if order[0] in fields && LocalName(order[0]) == local then fields[order[0]]
    else FirstLocal(order[1..], fields, local)
  }

  /** The first member with this local name; None stands for a missing member. */
  function GetLocal(container: Json, local: string): Json
  {
    if container.Obj? then FirstLocal(container.order, container.fields, local) else Null
  }

  /** `value or []`, iterated. */
  function Items(j: Json): seq<Json>
  {
    if j.Arr? then j.items else []
  }

  predicate Enabled(node: Json) { GetLocal(node, "admin-state") == Str("enable") }

  // ---- Interface address ----

  datatype Address = Address(address: Json, length: Json)

  const NO_ADDRESS := Address(Null, Null)

  function AddressOf(prefix: string): Address
  {
    var (address, length) := Partition(prefix, '/');
    Address(if address == "" then Null else Str(address), if IsDigits(length) then Num(ParseNat(length)) else Null)
  }

  predicate HasPrefix(entry: Json)
  {
    var p := GetLocal(entry, "ip-prefix"); p.Str? && p.s != ""
  }

  /** All `address` entries of all subinterfaces, in order. */
  function AddressEntries(subs: seq<Json>): seq<Json>
  {
    if subs == [] then [] else Items(GetLocal(GetLocal(subs[0], "ipv4"), "address")) + AddressEntries(subs[1..])
  }

  function FirstAddress(entries: seq<Json>): Address
  {
    if entries == [] then NO_ADDRESS
    else if HasPrefix(entries[0]) then AddressOf(GetLocal(entries[0], "ip-prefix").s)
    else FirstAddress(entries[1..])
  }

  function InterfaceAddress(iface: Json): Address
  {
    FirstAddress(AddressEntries(Items(GetLocal(iface, "subinterface"))))
  }

  lemma NextAddress(addresses: seq<Json>, j: nat, later: seq<Json>)
    requires j < |addresses|
    ensures FirstAddress(addresses[j..] + later) ==
            if HasPrefix(addresses[j]) then AddressOf(GetLocal(addresses[j], "ip-prefix").s) else FirstAddress(addresses[j + 1..] + later)
  {
    var all := addresses[j..] + later;
    assert all[0] == addresses[j] && all[1..] == addresses[j + 1..] + later;
  }

  method InterfaceIp(iface: Json) returns (a: Address)
    ensures a == InterfaceAddress(iface)
  {
    var subs := Items(GetLocal(iface, "subinterface"));
    assert subs[0..] == subs;
    for i := 0 to |subs|
      invariant FirstAddress(AddressEntries(subs[i..])) == InterfaceAddress(iface)
    {
      var addresses := Items(GetLocal(GetLocal(subs[i], "ipv4"), "address"));
      ghost var later := AddressEntries(subs[i + 1..]);
      assert subs[i..][1..] == subs[i + 1..];
      assert addresses[0..] + later == AddressEntries(subs[i..]);
      for j := 0 to |addresses|
        invariant FirstAddress(addresses[j..] + later) == InterfaceAddress(iface)
      {
        NextAddress(addresses, j, later);
        if HasPrefix(addresses[j]) {
          return AddressOf(GetLocal(addresses[j], "ip-prefix").s);
        }
      }
      assert addresses[|addresses|..] + later == later;
    }
    a := NO_ADDRESS;
  }

  // ---- Normalised records ----

  function InterfaceRecord(iface: Json, a: Address): Json
  {
    Obj(["description", "ip_address", "prefix_length", "enabled", "mtu"],
        map["description" := GetLocal(iface, "description"), "ip_address" := a.address, "prefix_length" := a.length,
            "enabled" := Bool(Enabled(iface)), "mtu" := GetLocal(iface, "mtu")])
  }

  function NeighborRecord(n: Json): Json
  {
    Obj(["peer_address", "peer_asn", "peer_group", "enabled"],
        map["peer_address" := GetLocal(n, "peer-address"), "peer_asn" := GetLocal(n, "peer-as"),
            "peer_group" := GetLocal(n, "peer-group"), "enabled" := Bool(Enabled(n))])
  }

  /** The text key of an entry; an entry without one is skipped. */
  function KeyText(entry: Json, member: string): Option<string>
  {
    match GetLocal(entry, member) case Str(s) => Some(s) case _ => None
  }

  function SpecOf(kind: D.EntityKind): D.Spec { if kind.InterfaceKind? then D.INTERFACE_SPEC else D.SESSION_SPEC }

  function EntryKey(kind: D.EntityKind, entry: Json): Option<string>
  {
    KeyText(entry, if kind.InterfaceKind? then "name" else "peer-address")
  }

  function Record(kind: D.EntityKind, entry: Json): Json
  {
    if kind.InterfaceKind? then InterfaceRecord(entry, InterfaceAddress(entry)) else NeighborRecord(entry)
  }

  /** Entries added in report order; a repeated key keeps its last record. */
  function AddRecords(kind: D.EntityKind, entries: seq<Json>, out: D.Actual): D.Actual
    decreases entries
  {
    if entries == [] then out
    else
      var key := EntryKey(kind, entries[0]);
      AddRecords(kind, entries[1..],
        if key.None? then out else out[D.Path(SpecOf(kind), key.value) := Record(kind, entries[0])])
  }

  const INTERFACE_PATH := "/interface"
  const BGP_PATH := "/network-instance" + "[name=default]/protocols/bgp"

  function Container(data: map<string, Json>, path: string): Json
  {
    if path in data then data[path] else Null
  }

  function ReportedInterfaces(data: map<string, Json>): seq<Json>
  {
    Items(GetLocal(Container(data, INTERFACE_PATH), "interface"))
  }

  function ReportedNeighbors(data: map<string, Json>): seq<Json>
  {
    Items(GetLocal(Container(data, BGP_PATH), "neighbor"))
  }

  function Normalized(data: map<string, Json>): D.Actual
  {
    AddRecords(D.SessionKind, ReportedNeighbors(data), AddRecords(D.InterfaceKind, ReportedInterfaces(data), map[]))
  }

  method AddEntries(kind: D.EntityKind, entries: seq<Json>, start: D.Actual) returns (out: D.Actual)
    ensures out == AddRecords(kind, entries, start)
  {
    out := start;
    assert entries[0..] == entries;
    for i := 0 to |entries|
      invariant AddRecords(kind, entries[i..], out) == AddRecords(kind, entries, start)
    {
      assert entries[i..][1..] == entries[i + 1..];
      var key := EntryKey(kind, entries[i]);
      if key.Some? {
        var record;
        if kind.InterfaceKind? {
          var a := InterfaceIp(entries[i]);
          record := InterfaceRecord(entries[i], a);
        } else {
          record := NeighborRecord(entries[i]);
        }
        out := out[D.Path(SpecOf(kind), key.value) := record];
      }
    }
  }

  method NormalizeState(data: map<string, Json>) returns (out: D.Actual)
    ensures out == Normalized(data)
  {
    out := AddEntries(D.InterfaceKind, ReportedInterfaces(data), map[]);
    out := AddEntries(D.SessionKind, ReportedNeighbors(data), out);
  }

  // ---- What a record set contains ----

  predicate LandsAt(kind: D.EntityKind, entry: Json, path: string)
  {
    var key := EntryKey(kind, entry); key.Some? && D.Path(SpecOf(kind), key.value) == path
  }

  /** When all entries that land at `path` yield one record, that record is what `path` holds. */
  lemma {:induction false} RecordAt(kind: D.EntityKind, entries: seq<Json>, out: D.Actual, path: string, record: Json)
    requires forall e :: e in entries && LandsAt(kind, e, path) ==> Record(kind, e) == record
    requires (path in out && out[path] == record) || exists e :: e in entries && LandsAt(kind, e, path)
    ensures path in AddRecords(kind, entries, out) && AddRecords(kind, entries, out)[path] == record
    decreases entries
  {
    if entries != [] {
      var key := EntryKey(kind, entries[0]);
      var next := if key.None? then out else out[D.Path(SpecOf(kind), key.value) := Record(kind, entries[0])];
      assert entries == [entries[0]] + entries[1..];
      if LandsAt(kind, entries[0], path) {
        assert Record(kind, entries[0]) == record;
      }
      RecordAt(kind, entries[1..], next, path, record);
    }
  }

  /** Entries that land elsewhere leave a path alone. */
  lemma {:induction false} RecordUntouched(kind: D.EntityKind, entries: seq<Json>, out: D.Actual, path: string)
    requires forall e :: e in entries ==> !LandsAt(kind, e, path)
    ensures D.Entry(AddRecords(kind, entries, out), path) == D.Entry(out, path)
    decreases entries
  {
    if entries != [] {
      var key := EntryKey(kind, entries[0]);
      var next := if key.None? then out else out[D.Path(SpecOf(kind), key.value) := Record(kind, entries[0])];
      assert entries == [entries[0]] + entries[1..];
      assert !LandsAt(kind, entries[0], path);
      RecordUntouched(kind, entries[1..], next, path);
    }
  }

  /** A repeated key keeps its last record: what lands at a path last is what it holds. */
  lemma LastRecordStays(kind: D.EntityKind, pre: seq<Json>, last: Json, post: seq<Json>, out: D.Actual, path: string)
    requires LandsAt(kind, last, path) && forall e :: e in post ==> !LandsAt(kind, e, path)
    ensures D.Entry(AddRecords(kind, pre + [last] + post, out), path) == Record(kind, last)
  {
    AddRecordsConcat(kind, pre, [last] + post, out);
    assert pre + [last] + post == pre + ([last] + post) && ([last] + post)[1..] == post;
    var before := AddRecords(kind, pre, out);
    RecordUntouched(kind, post, before[path := Record(kind, last)], path);
  }

  /** What a reported interface or neighbor is read as: enabled only when its admin state says so, and no value for a missing member. */
  predicate ReadAs(kind: D.EntityKind, entry: Json, record: Json)
  {
    && D.FieldOf(record, "enabled") == Bool(GetLocal(entry, "admin-state") == Str("enable"))
    && (kind.InterfaceKind? ==>
          && D.FieldOf(record, "description") == GetLocal(entry, "description") && D.FieldOf(record, "mtu") == GetLocal(entry, "mtu")
          && D.FieldOf(record, "ip_address") == InterfaceAddress(entry).address && D.FieldOf(record, "prefix_length") == InterfaceAddress(entry).length)
    && (kind.SessionKind? ==>
          && D.FieldOf(record, "peer_address") == GetLocal(entry, "peer-address") && D.FieldOf(record, "peer_asn") == GetLocal(entry, "peer-as")
          && D.FieldOf(record, "peer_group") == GetLocal(entry, "peer-group"))
  }

  lemma RecordReads(kind: D.EntityKind, entry: Json)
    ensures ReadAs(kind, entry, Record(kind, entry))
  {
  }

  /** The last entry reported under a key is what its record is read from. */
  lemma LastEntryIsRead(kind: D.EntityKind, pre: seq<Json>, last: Json, post: seq<Json>, out: D.Actual, path: string)
    requires LandsAt(kind, last, path) && forall e :: e in post ==> !LandsAt(kind, e, path)
    ensures ReadAs(kind, last, D.Entry(AddRecords(kind, pre + [last] + post, out), path))
  {
    LastRecordStays(kind, pre, last, post, out, path);
    RecordReads(kind, last);
  }

  lemma {:induction false} AddRecordsConcat(kind: D.EntityKind, a: seq<Json>, b: seq<Json>, out: D.Actual)
    ensures AddRecords(kind, a + b, out) == AddRecords(kind, b, AddRecords(kind, a, out))
    decreases a
  {
    if a == [] {
      assert a + b == b;
    } else {
      var key := EntryKey(kind, a[0]);
      assert (a + b)[1..] == a[1..] + b;
      AddRecordsConcat(kind, a[1..], b, if key.None? then out else out[D.Path(SpecOf(kind), key.value) := Record(kind, a[0])]);
    }
  }

  // ---- Which member, which address ----

  /** The local name of a member: what follows its module prefix, if it has one. */
  lemma LocalNames(moduleName: string, name: string)
    requires ':' !in moduleName && ':' !in name
    ensures LocalName(moduleName + ":" + name) == name && LocalName(name) == name
  {
    var key := moduleName + ":" + name;
    assert key[|moduleName|] == ':' && ':' in key;
    FirstColon(moduleName, ":" + name);
    assert key == moduleName + (":" + name) && key[|moduleName| + 1..] == name;
  }

  lemma {:induction false} FirstColon(before: string, rest: string)
    requires ':' !in before && rest != "" && rest[0] == ':'
    ensures IndexOf(before + rest, ':') == |before|
  {
    if before == "" {
      assert before + rest == rest;
    } else {
      assert before[0] in before && (before + rest)[1..] == before[1..] + rest;
      FirstColon(before[1..], rest);
    }
  }

  /** A look-up finds the first member, in insertion order, whose local name is the one asked for. */
  lemma {:induction false} FirstMember(order: seq<string>, fields: map<string, Json>, local: string)
    requires forall k :: k in order ==> k in fields
    ensures (exists i :: 0 <= i < |order| && LocalName(order[i]) == local && FirstLocal(order, fields, local) == fields[order[i]]
                         && forall j :: 0 <= j < i ==> LocalName(order[j]) != local)
            || (FirstLocal(order, fields, local) == Null && forall j :: 0 <= j < |order| ==> LocalName(order[j]) != local)
  {
    if order != [] {
      assert order[0] in order && forall k :: k in order[1..] ==> k in order;
      if LocalName(order[0]) != local {
        FirstMember(order[1..], fields, local);
        if i :| 0 <= i < |order[1..]| && LocalName(order[1..][i]) == local && FirstLocal(order[1..], fields, local) == fields[order[1..][i]]
                && forall j :: 0 <= j < i ==> LocalName(order[1..][j]) != local {
          assert order[i + 1] == order[1..][i];
          assert forall j :: 1 <= j < i + 1 ==> order[j] == order[1..][j - 1];
        } else {
          assert forall j :: 1 <= j < |order| ==> order[j] == order[1..][j - 1];
        }
      }
    }
  }

  /** The address of an interface is that of the first entry, over its subinterfaces in order, that carries a prefix. */
  lemma {:induction false} FirstPrefixed(entries: seq<Json>)
    ensures (exists i :: 0 <= i < |entries| && HasPrefix(entries[i]) && FirstAddress(entries) == AddressOf(GetLocal(entries[i], "ip-prefix").s)
                         && forall j :: 0 <= j < i ==> !HasPrefix(entries[j]))
            || (FirstAddress(entries) == Address(Null, Null) && forall j :: 0 <= j < |entries| ==> !HasPrefix(entries[j]))
  {
    if entries != [] && !HasPrefix(entries[0]) {
      FirstPrefixed(entries[1..]);
      if i :| 0 <= i < |entries[1..]| && HasPrefix(entries[1..][i]) && FirstAddress(entries[1..]) == AddressOf(GetLocal(entries[1..][i], "ip-prefix").s)
              && forall j :: 0 <= j < i ==> !HasPrefix(entries[1..][j]) {
        assert entries[i + 1] == entries[1..][i];
        assert forall j :: 1 <= j < i + 1 ==> entries[j] == entries[1..][j - 1];
      } else {
        assert forall j :: 1 <= j < |entries| ==> entries[j] == entries[1..][j - 1];
      }
    }
  }
}
