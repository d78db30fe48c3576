/**
 The keyed node store the seed ingester writes to.

 Nodes are held in creation order and a node's id is its position; nothing is ever deleted.
 A query returns the first match. An upsert writes attributes in place when its natural key
 matches, and otherwise appends a node; relations are written only at creation.
 */
module SeedStore {
  import opened Prelude
  import opened Json

  datatype Kind =
    | OrganizationProvider | LocationSite | OrganizationManufacturer | DcimPlatform | DcimDeviceType
    | RoutingAutonomousSystem | IpamNamespace | IpamVRF | IpamPrefix | IpamIPAddress | DcimDevice
    | InterfacePhysical | RoutingBGPPeerGroup | RoutingBGPSession

  datatype Rel = One(id: nat) | Many(ids: seq<nat>)

  datatype Node = Node(kind: Kind, attrs: map<string, Json>, rels: map<string, Rel>)

  type Store = seq<Node>

  /** `attr__value=...` and `rel__ids=[...]` conditions. */
  datatype Filter = Filter(attrs: map<string, Json>, rels: map<string, nat>)

  /** One resolved upsert. An op that does not touch only creates (IP addresses). */
  datatype Op = Op(kind: Kind, filter: Filter, attrs: map<string, Json>, rels: map<string, Rel>, touch: bool)

  predicate Submap<K, V(==)>(a: map<K, V>, b: map<K, V>)
  {
    forall k :: k in a ==> k in b && b[k] == a[k]
  }

  predicate Matches(n: Node, kind: Kind, f: Filter)
  {
    n.kind == kind && Submap(f.attrs, n.attrs) && forall k :: k in f.rels ==> k in n.rels && n.rels[k] == One(f.rels[k])
  }

  function FirstFrom(s: Store, i: nat, kind: Kind, f: Filter): (r: Option<nat>)
    requires i <= |s|
    ensures r.Some? ==> i <= r.value < |s| && Matches(s[r.value], kind, f)
    ensures r.Some? ==> forall j :: i <= j < r.value ==> !Matches(s[j], kind, f)
    ensures r.None? ==> forall j :: i <= j < |s| ==> !Matches(s[j], kind, f)
    decreases |s| - i
  {
    if i == |s| then None
    else if Matches(s[i], kind, f) then Some(i)
    else FirstFrom(s, i + 1, kind, f)
  }

  /** `client.filters(kind, ...)[0]`, by position. */
  function First(s: Store, kind: Kind, f: Filter): (r: Option<nat>)
    ensures r.Some? ==> r.value < |s| && Matches(s[r.value], kind, f)
    ensures r.Some? ==> forall j :: 0 <= j < r.value ==> !Matches(s[j], kind, f)
    ensures r.None? ==> forall j :: 0 <= j < |s| ==> !Matches(s[j], kind, f)
  {
    FirstFrom(s, 0, kind, f)
  }

  function Apply(s: Store, op: Op): Store
  {
    var found := First(s, op.kind, op.filter);
    if found.None? then s + [Node(op.kind, op.attrs, op.rels)]
    else if op.touch then s[found.value := s[found.value].(attrs := s[found.value].attrs + op.attrs)]
    else s
  }

  // ---- Natural keys ----

  function KeyAttrs(kind: Kind): set<string>
  {
    match kind
    case LocationSite => {"shortname"}
    case IpamPrefix => {"prefix"}
    case IpamIPAddress => {"address"}
    case RoutingBGPSession => {"description"}
    case IpamNamespace => {}
    case _ => {"name"}
  }

  /** An op that carries its whole natural key and writes the values it looks up. */
  predicate Keyed(op: Op)
  {
    op.filter.attrs.Keys == KeyAttrs(op.kind) && Submap(op.filter.attrs, op.attrs) &&
    forall k :: k in op.filter.rels ==> k in op.rels && op.rels[k] == One(op.filter.rels[k])
  }

  predicate SameKey(a: Node, b: Node)
  {
    a.kind == b.kind && a.rels == b.rels &&
    forall k :: k in KeyAttrs(a.kind) ==> (k in a.attrs <==> k in b.attrs) && (k in a.attrs ==> a.attrs[k] == b.attrs[k])
  }

  /** Every node of `s` is still there in `t`, with its kind, relations and key. */
  predicate Kept(s: Store, t: Store)
  {
    |s| <= |t| && forall i :: 0 <= i < |s| ==> SameKey(s[i], t[i])
  }

  lemma KeptTransitive(s: Store, t: Store, u: Store)
    requires Kept(s, t) && Kept(t, u)
    ensures Kept(s, u)
  {
    forall i | 0 <= i < |s| ensures SameKey(s[i], u[i]) {
      assert SameKey(s[i], t[i]) && SameKey(t[i], u[i]);
    }
  }

  lemma MatchByKey(a: Node, b: Node, kind: Kind, f: Filter)
    requires SameKey(a, b) && f.attrs.Keys <= KeyAttrs(kind)
    ensures Matches(a, kind, f) <==> Matches(b, kind, f)
  {
  }

  /** A node found by key stays the node found, whatever is added or updated later. */
  lemma FirstStable(s: Store, t: Store, kind: Kind, f: Filter)
    requires Kept(s, t) && f.attrs.Keys <= KeyAttrs(kind)
    requires First(s, kind, f).Some? || |s| == |t|
    ensures First(t, kind, f) == First(s, kind, f)
  {
    forall i | 0 <= i < |s| ensures Matches(s[i], kind, f) <==> Matches(t[i], kind, f) {
      MatchByKey(s[i], t[i], kind, f);
    }
  }

  /** What one upsert does: nothing but its own node changes, and every key is kept. */
  lemma ApplyEffect(s: Store, op: Op)
    requires Keyed(op)
    ensures var t := Apply(s, op); var found := First(s, op.kind, op.filter);
            && Kept(s, t)
            && First(t, op.kind, op.filter) == Some(if found.Some? then found.value else |s|)
            && |t| == (if found.Some? then |s| else |s| + 1)
            && (forall i :: 0 <= i < |s| && found != Some(i) ==> t[i] == s[i])
            && (found.Some? && op.touch ==> t[found.value].attrs == s[found.value].attrs + op.attrs)
            && (found.Some? && !op.touch ==> t == s)
            && (found.None? ==> t[|s|] == Node(op.kind, op.attrs, op.rels))
  {
    var t, found := Apply(s, op), First(s, op.kind, op.filter);
    if found.None? {
      assert Matches(t[|s|], op.kind, op.filter);
      FirstIs(t, op.kind, op.filter, |s|);
    } else {
      var n := found.value;
      assert SameKey(s[n], t[n]) by {
        assert forall k :: k in KeyAttrs(op.kind) ==> k in op.attrs && k in s[n].attrs && s[n].attrs[k] == op.filter.attrs[k] == op.attrs[k];
      }
      assert Kept(s, t);
      FirstStable(s, t, op.kind, op.filter);
    }
  }

  /** What an upsert writes to the node at position `n`. */
  function WriteAt(op: Op, target: Option<nat>, n: nat): map<string, Json>
  {
    if target == Some(n) && op.touch then op.attrs else map[]
  }

  /** An upsert overlays its write on an old node, and a new node contains it. */
  lemma ApplyWrites(s: Store, op: Op, n: nat)
    requires Keyed(op) && n < |Apply(s, op)|
    ensures var t := Apply(s, op); var w := WriteAt(op, First(t, op.kind, op.filter), n);
            Submap(w, t[n].attrs) && (n < |s| ==> t[n].attrs == s[n].attrs + w)
  {
    ApplyEffect(s, op);
    var target := First(Apply(s, op), op.kind, op.filter).value;
    if n == target {
      assert n < |s| && !op.touch ==> s[n].attrs + map[] == s[n].attrs;
    } else {
      assert n < |s| && s[n].attrs + map[] == s[n].attrs;
    }
  }

  lemma FirstIs(t: Store, kind: Kind, f: Filter, n: nat)
    requires n < |t| && Matches(t[n], kind, f) && forall j :: 0 <= j < n ==> !Matches(t[j], kind, f)
    ensures First(t, kind, f) == Some(n)
  {
  }

  // ---- Agreement on some kinds ----

  /** `s` and `t` hold the same nodes of the given kinds at the same positions. */
  predicate Agree(s: Store, t: Store, kinds: set<Kind>)
  {
    && (forall i :: 0 <= i < |s| && s[i].kind in kinds ==> i < |t| && t[i] == s[i])
    && (forall i :: 0 <= i < |t| && t[i].kind in kinds ==> i < |s| && t[i] == s[i])
  }

  lemma AgreeTransitive(s: Store, t: Store, u: Store, kinds: set<Kind>)
    requires Agree(s, t, kinds) && Agree(t, u, kinds)
    ensures Agree(s, u, kinds)
  {
  }

  lemma FirstAgrees(s: Store, t: Store, kinds: set<Kind>, kind: Kind, f: Filter)
    requires Agree(s, t, kinds) && kind in kinds
    ensures First(s, kind, f) == First(t, kind, f)
  {
    var a, b := First(s, kind, f), First(t, kind, f);
    if a.Some? { assert Matches(t[a.value], kind, f); }
    if b.Some? { assert Matches(s[b.value], kind, f); }
  }

  lemma ApplyAgrees(s: Store, op: Op, kinds: set<Kind>)
    requires Keyed(op) && op.kind !in kinds
    ensures Agree(s, Apply(s, op), kinds)
  {
    ApplyEffect(s, op);
  }
}
