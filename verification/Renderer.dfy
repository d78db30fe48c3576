/**
 Rendering a DesiredState into the SR Linux payload (gnmi/renderer.py and the dcfabric templates).

 A template is modelled by the JSON value its text parses to.
 */
module Renderer {
  import opened Prelude
  import opened Json
  import opened Decimal
  import opened Intent

  datatype Field = Field(name: string, value: Json)

  function Names(fs: seq<Field>): seq<string>
  {
    if fs == [] then [] else [fs[0].name] + Names(fs[1..])
  }

  function FieldMap(fs: seq<Field>): map<string, Json>
  {
    if fs == [] then map[] else FieldMap(fs[1..])[fs[0].name := fs[0].value]
  }

  /** A JSON object with its members in the order given. */
  function Object(fs: seq<Field>): Json
  {
    Obj(Names(fs), FieldMap(fs))
  }


  /** A member printed only under its template condition. */
  function Member(present: bool, f: Field, rest: seq<Field>): seq<Field>
  {
    (if present then [f] else []) + rest
  }

  function TextOrNull(s: Option<string>): Json { match s case Some(t) => Str(t) case None => Null }

  function NumOrNull(n: Option<int>): Json { match n case Some(v) => Num(v) case None => Null }

  function AdminState(enabled: bool): Json { Str(if enabled then "enable" else "disable") }

  /** `{{ iface.ip_address }}/{{ iface.prefix_length }}`; Jinja prints a missing prefix as None. */
  function PrefixText(address: string, length: Option<int>): string
  {
    address + ("/" + (match length case Some(n) => IntText(n) case None => "None"))
  }

  function AddressEntry(address: string, length: Option<int>): Json
  {
    Object(Member(true, Field("ip-prefix", Str(PrefixText(address, length))), []))
  }

  function Ipv4Of(address: string, length: Option<int>): Json
  {
    Object(Member(true, Field("admin-state", Str("enable")),
           Member(true, Field("address", Arr([AddressEntry(address, length)])), [])))
  }

  function SubinterfaceOf(address: string, length: Option<int>): Json
  {
    Object(Member(true, Field("index", Num(0)),
           Member(true, Field("admin-state", Str("enable")),
           Member(true, Field("ipv4", Ipv4Of(address, length)), []))))
  }

  function Subinterfaces(i: Interface): Json
  {
    if i.ipAddress.Some? then Arr([SubinterfaceOf(i.ipAddress.value, i.prefixLength)]) else Null
  }

  /** One element of interfaces.j2. */
  function InterfaceFields(i: Interface): seq<Field>
  {
    Member(true, Field("name", Str(i.name)),
    Member(true, Field("admin-state", AdminState(i.enabled)),
    Member(i.mtu.Some?, Field("mtu", NumOrNull(i.mtu)),
    Member(Truthy(i.description), Field("description", TextOrNull(i.description)),
    Member(Truthy(i.ipAddress), Field("subinterface", Subinterfaces(i)), [])))))
  }

  function RenderInterface(i: Interface): Json { Object(InterfaceFields(i)) }

  /** One neighbor of bgp.j2. */
  function NeighborFields(s: BgpSession): seq<Field>
  {
    Member(true, Field("peer-address", Str(s.peerAddress)),
    Member(true, Field("peer-as", Num(s.peerAsn)),
    Member(true, Field("admin-state", AdminState(s.enabled)),
    Member(Truthy(s.peerGroup), Field("peer-group", TextOrNull(s.peerGroup)), []))))
  }

  function RenderNeighbor(s: BgpSession): Json { Object(NeighborFields(s)) }

  // ---- Router id ----

  function Lower(c: char): char
  {
    if 'A' <= c <= 'Z' then 'a' + (c - 'A') else c
  }

  /** `iface.name.lower().startswith("lo")`, with an address to offer. */
  predicate IsAddressedLoopback(i: Interface)
  {
    |i.name| >= 2 && Lower(i.name[0]) == 'l' && Lower(i.name[1]) == 'o' && Truthy(i.ipAddress)
  }

  /** The first loopback address in intent order, or the management address when no loopback carries one. */
  predicate IsRouterId(d: DesiredState, id: string)
  {
    || (exists k :: 0 <= k < |d.interfaces| && IsAddressedLoopback(d.interfaces[k])
               && id == d.interfaces[k].ipAddress.value
               && forall j :: 0 <= j < k ==> !IsAddressedLoopback(d.interfaces[j]))
    || (id == d.device.managementAddress && forall k :: 0 <= k < |d.interfaces| ==> !IsAddressedLoopback(d.interfaces[k]))
  }

  method SelectRouterId(d: DesiredState) returns (id: string)
    ensures IsRouterId(d, id)
  {
    for k := 0 to |d.interfaces|
      invariant forall j :: 0 <= j < k ==> !IsAddressedLoopback(d.interfaces[j])
    {
      if IsAddressedLoopback(d.interfaces[k]) {
        return d.interfaces[k].ipAddress.value;
      }
    }
    id := d.device.managementAddress;
  }

  // ---- The payload ----

  function RenderInterfaces(is_: seq<Interface>): (r: seq<Json>)
    ensures |r| == |is_| && forall k :: 0 <= k < |is_| ==> r[k] == RenderInterface(is_[k])
  {
    seq(|is_|, k requires 0 <= k < |is_| => RenderInterface(is_[k]))
  }

  function RenderNeighbors(ss: seq<BgpSession>): (r: seq<Json>)
    ensures |r| == |ss| && forall k :: 0 <= k < |ss| ==> r[k] == RenderNeighbor(ss[k])
  {
    seq(|ss|, k requires 0 <= k < |ss| => RenderNeighbor(ss[k]))
  }

  /** The rendered lists the device reports back; the BGP container exists only with sessions. */
  datatype Payload = Payload(interfaces: seq<Json>, neighbors: Option<seq<Json>>, routerId: string)

  predicate LacksPrefix(i: Interface)
  {
    Truthy(i.ipAddress) && i.prefixLength.None?
  }

  const NO_PREFIX_LENGTH := "ip_address has no prefix_length"

  /** Rendering fails exactly when some interface has an address without a prefix length. */
  method Render(d: DesiredState) returns (r: Result<Payload>)
    ensures r.Err? <==> exists k :: 0 <= k < |d.interfaces| && LacksPrefix(d.interfaces[k])
    ensures r.Err? ==> r.error == NO_PREFIX_LENGTH
    ensures r.Ok? ==> r.value.interfaces == RenderInterfaces(d.interfaces)
    ensures r.Ok? ==> r.value.neighbors == if d.sessions == [] then None else Some(RenderNeighbors(d.sessions))
    ensures r.Ok? ==> IsRouterId(d, r.value.routerId)
  {
    for k := 0 to |d.interfaces|
      invariant forall j :: 0 <= j < k ==> !LacksPrefix(d.interfaces[j])
    {
      if LacksPrefix(d.interfaces[k]) {
        return Err(NO_PREFIX_LENGTH);
      }
    }
    var routerId := SelectRouterId(d);
    r := Ok(Payload(RenderInterfaces(d.interfaces), if d.sessions == [] then None else Some(RenderNeighbors(d.sessions)), routerId));
  }
}
