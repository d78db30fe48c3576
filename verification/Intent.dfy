/** The intent models the executor renders and the observer compares (snapl_intent/models.py). */
module Intent {
  import opened Prelude
  import opened Uuids

  datatype Device = Device(id: Uuid, name: string, managementAddress: string, labNodeName: Option<string>)

  datatype Interface = Interface(
    name: string,
    description: Option<string>,
    ipAddress: Option<string>,
    prefixLength: Option<int>,
    enabled: bool,
    mtu: Option<int>)

  datatype BgpSession = BgpSession(
    localAsn: int,
    peerAddress: string,
    peerAsn: int,
    peerGroup: Option<string>,
    addressFamily: string,
    enabled: bool)

  datatype DesiredState = DesiredState(device: Device, interfaces: seq<Interface>, sessions: seq<BgpSession>)

  /** Python truthiness of an optional string. */
  predicate Truthy(s: Option<string>) { s.Some? && s.value != "" }

  predicate DistinctNames(d: DesiredState)
  {
    forall i, j :: 0 <= i < j < |d.interfaces| ==> d.interfaces[i].name != d.interfaces[j].name
  }

  predicate DistinctPeers(d: DesiredState)
  {
    forall i, j :: 0 <= i < j < |d.sessions| ==> d.sessions[i].peerAddress != d.sessions[j].peerAddress
  }
}
