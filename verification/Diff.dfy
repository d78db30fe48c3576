/**
 The structural diff between desired and actual state (structural/diff.py).

 `DiffExact` states it as a comparison in both directions: an item is reported if and only if
 it is a discrepancy of one of two kinds. `NoPathTwice` adds that with distinct desired keys
 every path is reported once.
 */
module Diff {
  import opened Prelude
  import opened Dicts
  import opened Json
  import opened Lexical
  import opened Intent

  datatype EntityKind = InterfaceKind | SessionKind

  /** One row of ENTITY_FIELD_MAP; the path template is split at its placeholder. */
  datatype Spec = Spec(
    kind: EntityKind,
    fields: seq<string>,
    head: string,
    tail: string,
    valueFields: seq<string>,
    protected: seq<string>,
    deviceDefaults: map<string, Json>,
    skipWhenNone: seq<string>)

  const INTERFACE_SPEC := Spec(
    InterfaceKind,
    ["description", "ip_address", "prefix_length", "enabled", "mtu"],
    "/interface[name=", "]",
    ["description", "ip_address", "prefix_length", "mtu"],
    ["mgmt0", "system0"],
    map["mtu" := Num(9232)],
    ["mtu"])

  const SESSION_SPEC := Spec(
    SessionKind,
    ["peer_address", "peer_asn", "peer_group", "enabled"],
    "/network-instance" + "[name=default]/protocols/bgp" + "/neighbor[peer-address=", "]",
    ["peer_asn", "peer_group"],
    [],
    map[],
    [])

  /** What the diff reads of an intent model: its key and its compared attributes. */
  datatype Entity = Entity(key: string, values: map<string, Json>)

  /** The normalised device state: one flat record per entity path. */
  type Actual = map<string, Json>

  datatype DriftItem = DriftItem(path: string, desired: Json, actual: Json, kind: EntityKind, undesired: bool)

  // ---- Reading both sides ----

  function Path(spec: Spec, key: string): string { spec.head + key + spec.tail }

  function Want(e: Entity, field: string): Json
  {
    if field in e.values then e.values[field] else Null
  }

  function Entry(actual: Actual, path: string): Json
  {
    if path in actual then actual[path] else Null
  }

  function FieldOf(entry: Json, field: string): Json
  {
    if entry.Obj? && field in entry.fields then entry.fields[field] else Null
  }

  function DefaultOf(spec: Spec, field: string): Json
  {
    if field in spec.deviceDefaults then spec.deviceDefaults[field] else Null
  }

  /** `^head(.+)tail$`: the key is non-empty without newlines, and `$` tolerates one final newline. */
  function MatchKey(spec: Spec, path: string): Option<string>
  {
    var body := if path != "" && path[|path| - 1] == '\n' then path[..|path| - 1] else path;
    var h, t := |spec.head|, |spec.tail|;
    if h + t < |body| && body[..h] == spec.head && body[|body| - t..] == spec.tail && '\n' !in body[h..|body| - t]
    then Some(body[h..|body| - t]) else None
  }

  // ---- The two comparisons ----

  predicate Drifts(spec: Spec, e: Entity, actual: Actual, field: string)
  {
    !(Want(e, field).Null? && field in spec.skipWhenNone) &&
    !PyEq(Want(e, field), FieldOf(Entry(actual, Path(spec, e.key)), field))
  }

  function ForwardItem(spec: Spec, e: Entity, actual: Actual, field: string): DriftItem
  {
    var path := Path(spec, e.key);
    DriftItem(path + "/" + field, Want(e, field), FieldOf(Entry(actual, path), field), spec.kind, false)
  }

  predicate Unmanaged(spec: Spec, keys: set<string>, path: string)
  {
    var key := MatchKey(spec, path);
    key.Some? && key.value !in spec.protected && key.value !in keys
  }

  predicate ValueSet(spec: Spec, entry: Json, field: string)
  {
    !FieldOf(entry, field).Null? && !PyEq(FieldOf(entry, field), DefaultOf(spec, field))
  }

  function UndesiredItem(spec: Spec, actual: Actual, path: string, field: string): DriftItem
  {
    DriftItem(path + "/" + field, Null, FieldOf(Entry(actual, path), field), spec.kind, true)
  }

  // ---- The report, in the order the code builds it ----

  function EntityDrift(spec: Spec, e: Entity, actual: Actual, fields: seq<string>): seq<DriftItem>
  {
    if fields == [] then []
    else (if Drifts(spec, e, actual, fields[0]) then [ForwardItem(spec, e, actual, fields[0])] else [])
         + EntityDrift(spec, e, actual, fields[1..])
  }

  function Forward(spec: Spec, es: seq<Entity>, actual: Actual): seq<DriftItem>
  {
    if es == [] then [] else EntityDrift(spec, es[0], actual, spec.fields) + Forward(spec, es[1..], actual)
  }

  function ValuesSet(spec: Spec, actual: Actual, path: string, fields: seq<string>): seq<DriftItem>
  {
    if fields == [] then []
    else (if ValueSet(spec, Entry(actual, path), fields[0]) then [UndesiredItem(spec, actual, path, fields[0])] else [])
         + ValuesSet(spec, actual, path, fields[1..])
  }

  function Undesired(spec: Spec, paths: seq<string>, actual: Actual, keys: set<string>): seq<DriftItem>
  {
    if paths == [] then []
    else (if Unmanaged(spec, keys, paths[0]) then ValuesSet(spec, actual, paths[0], spec.valueFields) else [])
         + Undesired(spec, paths[1..], actual, keys)
  }

  function Keys(es: seq<Entity>): set<string>
  {
    set e | e in es :: e.key
  }

  function Diff(ifaces: seq<Entity>, sessions: seq<Entity>, actual: Actual): seq<DriftItem>
  {
    Forward(INTERFACE_SPEC, ifaces, actual) + Forward(SESSION_SPEC, sessions, actual)
    + Undesired(INTERFACE_SPEC, Sorted(actual.Keys), actual, Keys(ifaces))
    + Undesired(SESSION_SPEC, Sorted(actual.Keys), actual, Keys(sessions))
  }

  // ---- The code's loops ----

  method DiffEntity(e: Entity, spec: Spec, actual: Actual) returns (items: seq<DriftItem>)
    ensures items == EntityDrift(spec, e, actual, spec.fields)
  {
    items := [];
    ghost var all := EntityDrift(spec, e, actual, spec.fields);
    assert spec.fields[0..] == spec.fields;
    for i := 0 to |spec.fields|
      invariant items + EntityDrift(spec, e, actual, spec.fields[i..]) == all
    {
      var field := spec.fields[i];
      EntityDriftStep(spec, e, actual, items, i);
      if Want(e, field).Null? && field in spec.skipWhenNone {
        continue;
      }
      if PyEq(Want(e, field), FieldOf(Entry(actual, Path(spec, e.key)), field)) {
        continue;
      }
      items := items + [ForwardItem(spec, e, actual, field)];
    }
    assert items + [] == items;
  }

  lemma EntityDriftStep(spec: Spec, e: Entity, actual: Actual, items: seq<DriftItem>, i: nat)
    requires i < |spec.fields|
    ensures var field := spec.fields[i];
            var found := if Drifts(spec, e, actual, field) then items + [ForwardItem(spec, e, actual, field)] else items;
            items + EntityDrift(spec, e, actual, spec.fields[i..]) == found + EntityDrift(spec, e, actual, spec.fields[i + 1..])
  {
    assert spec.fields[i..][1..] == spec.fields[i + 1..];
  }

  method UndesiredEntities(spec: Spec, actual: Actual, keys: set<string>) returns (items: seq<DriftItem>)
    ensures items == Undesired(spec, Sorted(actual.Keys), actual, keys)
  {
    items := [];
    var paths := Sorted(actual.Keys);
    ghost var all := Undesired(spec, paths, actual, keys);
    assert paths[0..] == paths;
    for i := 0 to |paths|
      invariant items + Undesired(spec, paths[i..], actual, keys) == all
    {
      var path := paths[i];
      UndesiredStep(spec, paths, actual, keys, items, i);
      if !Unmanaged(spec, keys, path) {
        continue;
      }
      if !Entry(actual, path).Obj? {
        NothingToAdd(spec, actual, path, items);
        continue;
      }
      items := items + ValuesSet(spec, actual, path, spec.valueFields);
    }
    assert items + [] == items;
  }

  lemma UndesiredStep(spec: Spec, paths: seq<string>, actual: Actual, keys: set<string>, items: seq<DriftItem>, i: nat)
    requires i < |paths|
    ensures var found := if Unmanaged(spec, keys, paths[i]) then items + ValuesSet(spec, actual, paths[i], spec.valueFields) else items;
            items + Undesired(spec, paths[i..], actual, keys) == found + Undesired(spec, paths[i + 1..], actual, keys)
  {
    assert paths[i..][1..] == paths[i + 1..];
  }

  lemma NothingToAdd(spec: Spec, actual: Actual, path: string, items: seq<DriftItem>)
    requires !Entry(actual, path).Obj?
    ensures items + ValuesSet(spec, actual, path, spec.valueFields) == items
  {
    NothingSet(spec, actual, path, spec.valueFields);
  }

  lemma {:induction false} NothingSet(spec: Spec, actual: Actual, path: string, fields: seq<string>)
    requires !Entry(actual, path).Obj?
    ensures ValuesSet(spec, actual, path, fields) == []
  {
    if fields != [] { NothingSet(spec, actual, path, fields[1..]); }
  }

  method ForwardEntities(spec: Spec, es: seq<Entity>, actual: Actual) returns (items: seq<DriftItem>)
    ensures items == Forward(spec, es, actual)
  {
    items := [];
    ghost var all := Forward(spec, es, actual);
    assert es[0..] == es;
    for i := 0 to |es|
      invariant items + Forward(spec, es[i..], actual) == all
    {
      ForwardStep(spec, es, actual, items, i);
      var drift := DiffEntity(es[i], spec, actual);
      items := items + drift;
    }
    assert items + [] == items;
  }

  lemma ForwardStep(spec: Spec, es: seq<Entity>, actual: Actual, items: seq<DriftItem>, i: nat)
    requires i < |es|
    ensures items + Forward(spec, es[i..], actual)
         == items + EntityDrift(spec, es[i], actual, spec.fields) + Forward(spec, es[i + 1..], actual)
  {
    assert es[i..][1..] == es[i + 1..];
  }

  method DiffDesiredVsActual(ifaces: seq<Entity>, sessions: seq<Entity>, actual: Actual) returns (items: seq<DriftItem>)
    ensures items == Diff(ifaces, sessions, actual)
  {
    items := ForwardEntities(INTERFACE_SPEC, ifaces, actual);
    var more := ForwardEntities(SESSION_SPEC, sessions, actual);
    items := items + more;
    more := UndesiredEntities(INTERFACE_SPEC, actual, Keys(ifaces));
    items := items + more;
    more := UndesiredEntities(SESSION_SPEC, actual, Keys(sessions));
    items := items + more;
  }

  // ---- Exactness ----

  /** A compared attribute of a desired entity that the device has wrong or lacks. */
  ghost predicate IsForward(spec: Spec, es: seq<Entity>, actual: Actual, item: DriftItem)
  {
    exists e, f :: e in es && f in spec.fields && Drifts(spec, e, actual, f) && item == ForwardItem(spec, e, actual, f)
  }

  /** A value somebody set on an entity that intent does not manage and nothing protects. */
  ghost predicate IsUndesired(spec: Spec, keys: set<string>, actual: Actual, item: DriftItem)
  {
    exists path, f :: path in actual && f in spec.valueFields && Unmanaged(spec, keys, path) &&
      ValueSet(spec, actual[path], f) && item == UndesiredItem(spec, actual, path, f)
  }

  lemma {:induction false} EntityDriftExact(spec: Spec, e: Entity, actual: Actual, fields: seq<string>, item: DriftItem)
    ensures item in EntityDrift(spec, e, actual, fields) <==>
            exists f :: f in fields && Drifts(spec, e, actual, f) && item == ForwardItem(spec, e, actual, f)
  {
    if fields != [] {
      EntityDriftExact(spec, e, actual, fields[1..], item);
      assert forall f :: f in fields <==> f == fields[0] || f in fields[1..];
    }
  }

  lemma {:induction false} ForwardExact(spec: Spec, es: seq<Entity>, actual: Actual, item: DriftItem)
    ensures item in Forward(spec, es, actual) <==> IsForward(spec, es, actual, item)
  {
    if es != [] {
      ForwardExact(spec, es[1..], actual, item);
      EntityDriftExact(spec, es[0], actual, spec.fields, item);
      assert forall e :: e in es <==> e == es[0] || e in es[1..];
    }
  }

  lemma {:induction false} ValuesSetExact(spec: Spec, actual: Actual, path: string, fields: seq<string>, item: DriftItem)
    ensures item in ValuesSet(spec, actual, path, fields) <==>
            exists f :: f in fields && ValueSet(spec, Entry(actual, path), f) && item == UndesiredItem(spec, actual, path, f)
  {
    if fields != [] {
      ValuesSetExact(spec, actual, path, fields[1..], item);
      assert forall f :: f in fields <==> f == fields[0] || f in fields[1..];
    }
  }

  lemma {:induction false} UndesiredExact(spec: Spec, paths: seq<string>, actual: Actual, keys: set<string>, item: DriftItem)
    ensures item in Undesired(spec, paths, actual, keys) <==>
            exists path, f :: path in paths && f in spec.valueFields && Unmanaged(spec, keys, path) &&
              ValueSet(spec, Entry(actual, path), f) && item == UndesiredItem(spec, actual, path, f)
  {
    if paths != [] {
      UndesiredExact(spec, paths[1..], actual, keys, item);
      ValuesSetExact(spec, actual, paths[0], spec.valueFields, item);
      assert forall p :: p in paths <==> p == paths[0] || p in paths[1..];
    }
  }

  lemma UndesiredExactly(spec: Spec, actual: Actual, keys: set<string>, item: DriftItem)
    ensures item in Undesired(spec, Sorted(actual.Keys), actual, keys) <==> IsUndesired(spec, keys, actual, item)
  {
    UndesiredExact(spec, Sorted(actual.Keys), actual, keys, item);
    forall path | path in actual ensures path in Sorted(actual.Keys) && Entry(actual, path) == actual[path] {
    }
  }

  /** The report lists exactly the discrepancies, in both directions. */
  lemma DiffExact(ifaces: seq<Entity>, sessions: seq<Entity>, actual: Actual, item: DriftItem)
    ensures item in Diff(ifaces, sessions, actual) <==>
            || IsForward(INTERFACE_SPEC, ifaces, actual, item)
            || IsForward(SESSION_SPEC, sessions, actual, item)
            || IsUndesired(INTERFACE_SPEC, Keys(ifaces), actual, item)
            || IsUndesired(SESSION_SPEC, Keys(sessions), actual, item)
  {
    ForwardExact(INTERFACE_SPEC, ifaces, actual, item);
    ForwardExact(SESSION_SPEC, sessions, actual, item);
    UndesiredExactly(INTERFACE_SPEC, actual, Keys(ifaces), item);
    UndesiredExactly(SESSION_SPEC, actual, Keys(sessions), item);
  }

  /** Every compared attribute matches, an attribute unset in intent being exempt where the renderer omits it. */
  ghost predicate Matches(spec: Spec, es: seq<Entity>, actual: Actual)
  {
    forall e, f :: e in es && f in spec.fields ==> !Drifts(spec, e, actual, f)
  }

  /** Every unmanaged, unprotected entity carries only unset or device-default values. */
  ghost predicate Bare(spec: Spec, keys: set<string>, actual: Actual)
  {
    forall path, f :: path in actual && f in spec.valueFields && Unmanaged(spec, keys, path) ==> !ValueSet(spec, actual[path], f)
  }

  /** The diff is empty exactly when both directions agree. */
  lemma CleanExactly(ifaces: seq<Entity>, sessions: seq<Entity>, actual: Actual)
    ensures Diff(ifaces, sessions, actual) == [] <==>
            && Matches(INTERFACE_SPEC, ifaces, actual) && Matches(SESSION_SPEC, sessions, actual)
            && Bare(INTERFACE_SPEC, Keys(ifaces), actual) && Bare(SESSION_SPEC, Keys(sessions), actual)
  {
    var items := Diff(ifaces, sessions, actual);
    if items != [] {
      DiffExact(ifaces, sessions, actual, items[0]);
    } else {
      forall item ensures item !in items { }
      forall item ensures !IsForward(INTERFACE_SPEC, ifaces, actual, item) && !IsForward(SESSION_SPEC, sessions, actual, item)
        && !IsUndesired(INTERFACE_SPEC, Keys(ifaces), actual, item) && !IsUndesired(SESSION_SPEC, Keys(sessions), actual, item)
      {
        DiffExact(ifaces, sessions, actual, item);
      }
      NoForward(INTERFACE_SPEC, ifaces, actual);
      NoForward(SESSION_SPEC, sessions, actual);
      NoUndesired(INTERFACE_SPEC, Keys(ifaces), actual);
      NoUndesired(SESSION_SPEC, Keys(sessions), actual);
    }
  }

  lemma NoForward(spec: Spec, es: seq<Entity>, actual: Actual)
    requires forall item :: !IsForward(spec, es, actual, item)
    ensures Matches(spec, es, actual)
  {
    forall e, f | e in es && f in spec.fields ensures !Drifts(spec, e, actual, f) {
      assert !IsForward(spec, es, actual, ForwardItem(spec, e, actual, f));
    }
  }

  lemma NoUndesired(spec: Spec, keys: set<string>, actual: Actual)
    requires forall item :: !IsUndesired(spec, keys, actual, item)
    ensures Bare(spec, keys, actual)
  {
    forall path, f | path in actual && f in spec.valueFields && Unmanaged(spec, keys, path) ensures !ValueSet(spec, actual[path], f) {
      assert !IsUndesired(spec, keys, actual, UndesiredItem(spec, actual, path, f));
    }
  }

  // ---- No path is reported twice ----

  function Paths(items: seq<DriftItem>): (r: seq<string>)
    ensures |r| == |items| && forall i :: 0 <= i < |items| ==> r[i] == items[i].path
  {
    seq(|items|, i requires 0 <= i < |items| => items[i].path)
  }

  ghost predicate Distinct(items: seq<DriftItem>)
  {
    forall i, j :: 0 <= i < j < |items| ==> items[i].path != items[j].path
  }

  ghost predicate Apart(xs: seq<DriftItem>, ys: seq<DriftItem>)
  {
    forall x, y :: x in xs && y in ys ==> x.path != y.path
  }

  lemma DistinctConcat(xs: seq<DriftItem>, ys: seq<DriftItem>)
    requires Distinct(xs) && Distinct(ys) && Apart(xs, ys)
    ensures Distinct(xs + ys)
  {
    var all := xs + ys;
    forall i, j | 0 <= i < j < |all| ensures all[i].path != all[j].path {
      if i < |xs| <= j {
        assert all[i] in xs && all[j] in ys;
      }
    }
  }

  predicate FieldName(f: string) { '/' !in f }

  lemma LastSlash(p: string, f: string)
    requires FieldName(f)
    ensures var s := p + "/" + f; s[|p|] == '/' && forall i :: |p| < i < |s| ==> s[i] != '/'
  {
    var s := p + "/" + f;
    forall i | |p| < i < |s| ensures s[i] != '/' {
      assert s[i] == f[i - |p| - 1] && s[i] in f;
    }
  }

  /** A path ends in `/field`; the field holds no `/`, so the split is unique. */
  lemma SplitUnique(p: string, f: string, q: string, g: string)
    requires FieldName(f) && FieldName(g) && p + "/" + f == q + "/" + g
    ensures p == q && f == g
  {
    var s, t := p + "/" + f, q + "/" + g;
    LastSlash(p, f);
    LastSlash(q, g);
    assert |p| == |q|;
    assert s[..|p|] == p && t[..|q|] == q && s[|p| + 1..] == f && t[|q| + 1..] == g;
  }

  /** Every item's path is one of `paths` followed by a field name. */
  ghost predicate Under(items: seq<DriftItem>, paths: iset<string>)
  {
    forall x :: x in items ==> exists p, f :: p in paths && FieldName(f) && x.path == p + "/" + f
  }

  lemma UnderApart(xs: seq<DriftItem>, ys: seq<DriftItem>, ps: iset<string>, qs: iset<string>)
    requires Under(xs, ps) && Under(ys, qs) && ps !! qs
    ensures Apart(xs, ys)
  {
    forall x, y | x in xs && y in ys ensures x.path != y.path {
      var p, f :| p in ps && FieldName(f) && x.path == p + "/" + f;
      var q, g :| q in qs && FieldName(g) && y.path == q + "/" + g;
      if x.path == y.path {
        SplitUnique(p, f, q, g);
      }
    }
  }

  predicate PlainFields(fields: seq<string>)
  {
    forall f :: f in fields ==> FieldName(f)
  }

  lemma {:induction false} EntityDriftDistinct(spec: Spec, e: Entity, actual: Actual, fields: seq<string>)
    requires PlainFields(fields) && NoRepeat(fields)
    ensures Distinct(EntityDrift(spec, e, actual, fields))
    ensures Under(EntityDrift(spec, e, actual, fields), iset{Path(spec, e.key)})
  {
    forall x | x in EntityDrift(spec, e, actual, fields)
      ensures exists p, f :: p in iset{Path(spec, e.key)} && FieldName(f) && x.path == p + "/" + f
    {
      EntityDriftExact(spec, e, actual, fields, x);
    }
    if fields != [] {
      var rest := EntityDrift(spec, e, actual, fields[1..]);
      EntityDriftDistinct(spec, e, actual, fields[1..]);
      forall x | x in rest ensures x.path != Path(spec, e.key) + "/" + fields[0] {
        EntityDriftExact(spec, e, actual, fields[1..], x);
        var f :| f in fields[1..] && x == ForwardItem(spec, e, actual, f);
        var item := ForwardItem(spec, e, actual, f);
        assert item.path == Path(spec, e.key) + "/" + f;
        assert x.path == item.path;
        if x.path == Path(spec, e.key) + "/" + fields[0] {
          SplitUnique(Path(spec, e.key), f, Path(spec, e.key), fields[0]);
        }
      }
      if Drifts(spec, e, actual, fields[0]) {
        DistinctConcat([ForwardItem(spec, e, actual, fields[0])], rest);
      }
    }
  }

  ghost predicate DistinctKeys(es: seq<Entity>)
  {
    forall i, j :: 0 <= i < j < |es| ==> es[i].key != es[j].key
  }

  ghost function KeyPaths(spec: Spec, es: seq<Entity>): iset<string>
  {
    iset e | e in es :: Path(spec, e.key)
  }

  lemma PathInjective(spec: Spec, a: string, b: string)
    requires Path(spec, a) == Path(spec, b)
    ensures a == b
  {
    var h := |spec.head|;
    assert Path(spec, a)[h..h + |a|] == a && Path(spec, b)[h..h + |b|] == b;
  }

  lemma {:induction false} ForwardDistinct(spec: Spec, es: seq<Entity>, actual: Actual)
    requires PlainFields(spec.fields) && NoRepeat(spec.fields) && DistinctKeys(es)
    ensures Distinct(Forward(spec, es, actual)) && Under(Forward(spec, es, actual), KeyPaths(spec, es))
  {
    if es != [] {
      var first, rest := EntityDrift(spec, es[0], actual, spec.fields), Forward(spec, es[1..], actual);
      EntityDriftDistinct(spec, es[0], actual, spec.fields);
      ForwardDistinct(spec, es[1..], actual);
      if Path(spec, es[0].key) in KeyPaths(spec, es[1..]) {
        var e :| e in es[1..] && Path(spec, e.key) == Path(spec, es[0].key);
        PathInjective(spec, e.key, es[0].key);
        assert false;
      }
      UnderApart(first, rest, iset{Path(spec, es[0].key)}, KeyPaths(spec, es[1..]));
      DistinctConcat(first, rest);
      UnderMore(first, iset{Path(spec, es[0].key)}, KeyPaths(spec, es));
      UnderMore(rest, KeyPaths(spec, es[1..]), KeyPaths(spec, es));
    }
  }

  lemma UnderMore(items: seq<DriftItem>, ps: iset<string>, qs: iset<string>)
    requires Under(items, ps) && ps <= qs
    ensures Under(items, qs)
  {
  }

  lemma {:induction false} ValuesSetDistinct(spec: Spec, actual: Actual, path: string, fields: seq<string>)
    requires PlainFields(fields) && NoRepeat(fields)
    ensures Distinct(ValuesSet(spec, actual, path, fields)) && Under(ValuesSet(spec, actual, path, fields), iset{path})
  {
    forall x | x in ValuesSet(spec, actual, path, fields)
      ensures exists p, f :: p in iset{path} && FieldName(f) && x.path == p + "/" + f
    {
      ValuesSetExact(spec, actual, path, fields, x);
    }
    if fields != [] {
      var rest := ValuesSet(spec, actual, path, fields[1..]);
      ValuesSetDistinct(spec, actual, path, fields[1..]);
      forall x | x in rest ensures x.path != path + "/" + fields[0] {
        ValuesSetExact(spec, actual, path, fields[1..], x);
        var f :| f in fields[1..] && x == UndesiredItem(spec, actual, path, f);
        var item := UndesiredItem(spec, actual, path, f);
        assert item.path == path + "/" + f;
        assert x.path == item.path;
        if x.path == path + "/" + fields[0] {
          SplitUnique(path, f, path, fields[0]);
        }
      }
      if ValueSet(spec, Entry(actual, path), fields[0]) {
        DistinctConcat([UndesiredItem(spec, actual, path, fields[0])], rest);
      }
    }
  }

  ghost function UnmanagedPaths(spec: Spec, paths: seq<string>, keys: set<string>): iset<string>
  {
    iset p | p in paths && Unmanaged(spec, keys, p)
  }

  lemma {:induction false} UndesiredDistinct(spec: Spec, paths: seq<string>, actual: Actual, keys: set<string>)
    requires PlainFields(spec.valueFields) && NoRepeat(spec.valueFields) && NoRepeat(paths)
    ensures Distinct(Undesired(spec, paths, actual, keys))
    ensures Under(Undesired(spec, paths, actual, keys), UnmanagedPaths(spec, paths, keys))
  {
    if paths != [] {
      var rest := Undesired(spec, paths[1..], actual, keys);
      var qs := UnmanagedPaths(spec, paths[1..], keys);
      UndesiredDistinct(spec, paths[1..], actual, keys);
      UnderMore(rest, qs, UnmanagedPaths(spec, paths, keys));
      if Unmanaged(spec, keys, paths[0]) {
        var first := ValuesSet(spec, actual, paths[0], spec.valueFields);
        ValuesSetDistinct(spec, actual, paths[0], spec.valueFields);
        UnderApart(first, rest, iset{paths[0]}, qs);
        DistinctConcat(first, rest);
        UnderMore(first, iset{paths[0]}, UnmanagedPaths(spec, paths, keys));
      }
    }
  }

  /** A path that matches a template starts like it. */
  lemma MatchStartsWithHead(spec: Spec, path: string)
    requires MatchKey(spec, path).Some?
    ensures |spec.head| <= |path| && path[..|spec.head|] == spec.head
  {
  }

  /** The key of a generated path is read back, or the path does not match at all. */
  lemma MatchOwnPath(spec: Spec, key: string)
    requires spec.tail != "" && spec.tail[|spec.tail| - 1] != '\n'
    ensures MatchKey(spec, Path(spec, key)) == if key == "" || '\n' in key then None else Some(key)
  {
    var path, h := Path(spec, key), |spec.head|;
    assert path[|path| - 1] == spec.tail[|spec.tail| - 1];
    assert path[..h] == spec.head && path[h..|path| - |spec.tail|] == key && path[|path| - |spec.tail|..] == spec.tail;
  }

  lemma ManagedApart(spec: Spec, es: seq<Entity>, paths: seq<string>)
    requires spec.tail != "" && spec.tail[|spec.tail| - 1] != '\n'
    ensures KeyPaths(spec, es) !! UnmanagedPaths(spec, paths, Keys(es))
  {
    forall p | p in KeyPaths(spec, es) ensures p !in UnmanagedPaths(spec, paths, Keys(es)) {
      var e :| e in es && p == Path(spec, e.key);
      MatchOwnPath(spec, e.key);
    }
  }

  /** All paths of one kind start with its head, and the two heads differ at their second character. */
  ghost predicate OfKind(spec: Spec, paths: iset<string>)
    requires |spec.head| >= 2
  {
    forall p :: p in paths ==> |p| >= 2 && p[1] == spec.head[1]
  }

  lemma PathsOfKind(spec: Spec, es: seq<Entity>, paths: seq<string>, keys: set<string>)
    requires |spec.head| >= 2
    ensures OfKind(spec, KeyPaths(spec, es)) && OfKind(spec, UnmanagedPaths(spec, paths, keys))
  {
    forall p | p in KeyPaths(spec, es) ensures |p| >= 2 && p[1] == spec.head[1] {
      var e :| e in es && p == Path(spec, e.key);
    }
    forall p | p in UnmanagedPaths(spec, paths, keys) ensures |p| >= 2 && p[1] == spec.head[1] {
      MatchStartsWithHead(spec, p);
      assert p[1] == p[..|spec.head|][1];
    }
  }

  predicate PlainSpec(spec: Spec)
  {
    PlainFields(spec.fields) && PlainFields(spec.valueFields) && |spec.head| >= 2 && spec.tail == "]"
  }

  lemma InterfaceSpecPlain()
    ensures PlainSpec(INTERFACE_SPEC) && NoRepeat(INTERFACE_SPEC.fields) && NoRepeat(INTERFACE_SPEC.valueFields)
    ensures INTERFACE_SPEC.head[1] == 'i'
  {
    InterfaceFieldsDiffer();
  }

  lemma InterfaceFieldsDiffer()
    ensures NoRepeat(INTERFACE_SPEC.fields) && NoRepeat(INTERFACE_SPEC.valueFields)
  {
  }

  lemma SessionSpecPlain()
    ensures PlainSpec(SESSION_SPEC) && NoRepeat(SESSION_SPEC.fields) && NoRepeat(SESSION_SPEC.valueFields)
    ensures SESSION_SPEC.head[1] == 'n'
  {
    var first := "/network-instance";
    assert SESSION_SPEC.head[1] == first[1] == 'n';
  }

  lemma KindDistinct(spec: Spec, es: seq<Entity>, actual: Actual)
    requires PlainSpec(spec) && NoRepeat(spec.fields) && NoRepeat(spec.valueFields) && DistinctKeys(es)
    ensures var paths := Sorted(actual.Keys); var keys := Keys(es);
            && Distinct(Forward(spec, es, actual)) && Distinct(Undesired(spec, paths, actual, keys))
            && Under(Forward(spec, es, actual), KeyPaths(spec, es))
            && Under(Undesired(spec, paths, actual, keys), UnmanagedPaths(spec, paths, keys))
            && KeyPaths(spec, es) !! UnmanagedPaths(spec, paths, keys)
            && OfKind(spec, KeyPaths(spec, es)) && OfKind(spec, UnmanagedPaths(spec, paths, keys))
  {
    var paths := Sorted(actual.Keys);
    forall i, j | 0 <= i < j < |paths| ensures paths[i] != paths[j] { BeforeIrreflexive(paths[i]); }
    ForwardDistinct(spec, es, actual);
    UndesiredDistinct(spec, paths, actual, Keys(es));
    ManagedApart(spec, es, paths);
    PathsOfKind(spec, es, paths, Keys(es));
  }

  lemma KindsApart(ps: iset<string>, qs: iset<string>)
    requires |INTERFACE_SPEC.head| >= 2 && |SESSION_SPEC.head| >= 2
    requires OfKind(INTERFACE_SPEC, ps) && OfKind(SESSION_SPEC, qs)
    ensures ps !! qs
  {
    InterfaceSpecPlain();
    SessionSpecPlain();
  }

  /** With distinct desired keys, no path is reported twice. */
  lemma NoPathTwice(ifaces: seq<Entity>, sessions: seq<Entity>, actual: Actual)
    requires DistinctKeys(ifaces) && DistinctKeys(sessions)
    ensures Distinct(Diff(ifaces, sessions, actual))
  {
    var paths := Sorted(actual.Keys);
    var fi, fs := Forward(INTERFACE_SPEC, ifaces, actual), Forward(SESSION_SPEC, sessions, actual);
    var ui, us := Undesired(INTERFACE_SPEC, paths, actual, Keys(ifaces)), Undesired(SESSION_SPEC, paths, actual, Keys(sessions));
    var pfi, pfs := KeyPaths(INTERFACE_SPEC, ifaces), KeyPaths(SESSION_SPEC, sessions);
    var pui, pus := UnmanagedPaths(INTERFACE_SPEC, paths, Keys(ifaces)), UnmanagedPaths(SESSION_SPEC, paths, Keys(sessions));
    InterfaceSpecPlain();
    SessionSpecPlain();
    KindDistinct(INTERFACE_SPEC, ifaces, actual);
    KindDistinct(SESSION_SPEC, sessions, actual);
    KindsApart(pfi, pfs); KindsApart(pfi, pus); KindsApart(pui, pfs); KindsApart(pui, pus);
    UnderApart(fi, fs, pfi, pfs);
    DistinctConcat(fi, fs);
    UnderApart(fi, ui, pfi, pui);
    UnderApart(fs, ui, pfs, pui);
    DistinctConcat(fi + fs, ui);
    UnderApart(fi, us, pfi, pus);
    UnderApart(fs, us, pfs, pus);
    UnderApart(ui, us, pui, pus);
    DistinctConcat(fi + fs + ui, us);
  }

  // ---- The flag says which side lacks the entity ----

  /** The item's path is a value field of an entity the device reports and intent does not manage. */
  ghost predicate OutsideIntent(spec: Spec, keys: set<string>, actual: Actual, itemPath: string)
  {
    exists path, f :: path in actual && f in spec.valueFields && Unmanaged(spec, keys, path) && itemPath == path + "/" + f
  }

  /** The item's path is a compared field of an entity intent names. */
  ghost predicate WithinIntent(spec: Spec, keys: set<string>, itemPath: string)
  {
    exists key, f :: key in keys && f in spec.fields && itemPath == Path(spec, key) + "/" + f
  }

  lemma NotBoth(spec: Spec, keys: set<string>, actual: Actual, itemPath: string)
    requires PlainSpec(spec)
    ensures !(OutsideIntent(spec, keys, actual, itemPath) && WithinIntent(spec, keys, itemPath))
  {
    if OutsideIntent(spec, keys, actual, itemPath) && WithinIntent(spec, keys, itemPath) {
      var path, f :| path in actual && f in spec.valueFields && Unmanaged(spec, keys, path) && itemPath == path + "/" + f;
      var key, g :| key in keys && g in spec.fields && itemPath == Path(spec, key) + "/" + g;
      SplitUnique(path, f, Path(spec, key), g);
      MatchOwnPath(spec, key);
    }
  }

  /** Every reported item is a real discrepancy, and it is flagged undesired exactly when its entity is outside intent. */
  lemma ItemsAreHonest(ifaces: seq<Entity>, sessions: seq<Entity>, actual: Actual, item: DriftItem)
    requires item in Diff(ifaces, sessions, actual)
    ensures !PyEq(item.desired, item.actual)
    ensures var spec := if item.kind == InterfaceKind then INTERFACE_SPEC else SESSION_SPEC;
            var keys := if item.kind == InterfaceKind then Keys(ifaces) else Keys(sessions);
            && (item.undesired <==> OutsideIntent(spec, keys, actual, item.path))
            && (!item.undesired <==> WithinIntent(spec, keys, item.path))
  {
    DiffExact(ifaces, sessions, actual, item);
    InterfaceSpecPlain();
    SessionSpecPlain();
    var spec := if item.kind == InterfaceKind then INTERFACE_SPEC else SESSION_SPEC;
    var keys := if item.kind == InterfaceKind then Keys(ifaces) else Keys(sessions);
    NotBoth(spec, keys, actual, item.path);
  }

  // ---- Attribute by attribute, in the tables' own terms ----

  /** Where the records of an interface and of a neighbor are reported. */
  function IfaceRecord(name: string): string { "/interface[name=" + name + "]" }

  function PeerRecord(peer: string): string
  {
    "/network-instance" + "[name=default]/protocols/bgp" + "/neighbor[peer-address=" + peer + "]"
  }

  function IfaceItem(name: string, f: string, desired: Json, actual: Json, undesired: bool): DriftItem
  {
    DriftItem(IfaceRecord(name) + "/" + f, desired, actual, InterfaceKind, undesired)
  }

  function PeerItem(peer: string, f: string, desired: Json, actual: Json, undesired: bool): DriftItem
  {
    DriftItem(PeerRecord(peer) + "/" + f, desired, actual, SessionKind, undesired)
  }

  /** What the record at a path says of an attribute; nothing said counts as null. */
  function Reported(actual: Actual, path: string, f: string): Json
  {
    if path in actual && actual[path].Obj? && f in actual[path].fields then actual[path].fields[f] else Null
  }

  /** The forward item of an entity's attribute is reported exactly when that attribute drifts. */
  lemma ForwardExactly(ifaces: seq<Entity>, sessions: seq<Entity>, actual: Actual, spec: Spec, e: Entity, f: string)
    requires (spec == INTERFACE_SPEC && e in ifaces) || (spec == SESSION_SPEC && e in sessions)
    requires f in spec.fields
    ensures ForwardItem(spec, e, actual, f) in Diff(ifaces, sessions, actual) <==> Drifts(spec, e, actual, f)
  {
    var item := ForwardItem(spec, e, actual, f);
    DiffExact(ifaces, sessions, actual, item);
    InterfaceSpecPlain();
    SessionSpecPlain();
    if IsForward(spec, if spec == INTERFACE_SPEC then ifaces else sessions, actual, item) {
      var d, g :| d in (if spec == INTERFACE_SPEC then ifaces else sessions) && g in spec.fields && Drifts(spec, d, actual, g) && item == ForwardItem(spec, d, actual, g);
      SplitUnique(Path(spec, e.key), f, Path(spec, d.key), g);
    }
  }

  /** An interface in intent: each of five attributes is reported exactly when it differs, an mtu left unset never. */
  lemma InterfaceReported(ifaces: seq<Entity>, sessions: seq<Entity>, actual: Actual, e: Entity, f: string)
    requires e in ifaces && f in {"description", "ip_address", "prefix_length", "enabled", "mtu"}
    ensures var want := if f in e.values then e.values[f] else Null;
            var have := Reported(actual, IfaceRecord(e.key), f);
            IfaceItem(e.key, f, want, have, false) in Diff(ifaces, sessions, actual) <==> !PyEq(want, have) && !(f == "mtu" && want == Null)
  {
    InterfaceTables(f);
    IfacePath(e.key);
    assert INTERFACE_SPEC.kind == InterfaceKind;
    LackingExactly(ifaces, sessions, actual, INTERFACE_SPEC, e, f, IfaceRecord(e.key));
  }

  /** `ForwardExactly` on what both sides say. */
  lemma LackingExactly(ifaces: seq<Entity>, sessions: seq<Entity>, actual: Actual, spec: Spec, e: Entity, f: string, path: string)
    requires (spec == INTERFACE_SPEC && e in ifaces) || (spec == SESSION_SPEC && e in sessions)
    requires f in spec.fields && path == Path(spec, e.key)
    ensures var want, have := Want(e, f), Reported(actual, path, f);
            DriftItem(path + "/" + f, want, have, spec.kind, false) in Diff(ifaces, sessions, actual) <==>
              !PyEq(want, have) && !(want == Null && f in spec.skipWhenNone)
  {
    ForwardExactly(ifaces, sessions, actual, spec, e, f);
  }

  lemma IfacePath(name: string)
    ensures Path(INTERFACE_SPEC, name) == IfaceRecord(name)
  {
  }

  lemma PeerPath(peer: string)
    ensures Path(SESSION_SPEC, peer) == PeerRecord(peer)
  {
  }

  /** What the interface table lists. */
  lemma InterfaceTables(f: string)
    ensures f in INTERFACE_SPEC.fields <==> f in {"description", "ip_address", "prefix_length", "enabled", "mtu"}
    ensures f in INTERFACE_SPEC.valueFields <==> f in {"description", "ip_address", "prefix_length", "mtu"}
    ensures (f in INTERFACE_SPEC.skipWhenNone <==> f == "mtu") && (f in INTERFACE_SPEC.protected <==> f == "mgmt0" || f == "system0")
    ensures DefaultOf(INTERFACE_SPEC, f) == if f == "mtu" then Num(9232) else Null
  {
  }

  lemma SessionTables(f: string)
    ensures f in SESSION_SPEC.fields <==> f in {"peer_address", "peer_asn", "peer_group", "enabled"}
    ensures f in SESSION_SPEC.valueFields <==> f in {"peer_asn", "peer_group"}
    ensures f !in SESSION_SPEC.skipWhenNone && f !in SESSION_SPEC.protected && DefaultOf(SESSION_SPEC, f) == Null
  {
  }

  /** A session in intent: each of four attributes is reported exactly when it differs. */
  lemma SessionReported(ifaces: seq<Entity>, sessions: seq<Entity>, actual: Actual, e: Entity, f: string)
    requires e in sessions && f in {"peer_address", "peer_asn", "peer_group", "enabled"}
    ensures var want := if f in e.values then e.values[f] else Null;
            var have := Reported(actual, PeerRecord(e.key), f);
            PeerItem(e.key, f, want, have, false) in Diff(ifaces, sessions, actual) <==> !PyEq(want, have)
  {
    SessionTables(f);
    PeerPath(e.key);
    assert SESSION_SPEC.kind == SessionKind;
    LackingExactly(ifaces, sessions, actual, SESSION_SPEC, e, f, PeerRecord(e.key));
  }

  /** The undesired item of a reported entity's attribute. */
  lemma UndesiredReported(ifaces: seq<Entity>, sessions: seq<Entity>, actual: Actual, spec: Spec, key: string, f: string)
    requires (spec == INTERFACE_SPEC || spec == SESSION_SPEC) && key != "" && '\n' !in key && Path(spec, key) in actual && f in spec.valueFields
    ensures UndesiredItem(spec, actual, Path(spec, key), f) in Diff(ifaces, sessions, actual) <==>
              && key !in spec.protected && key !in Keys(if spec == INTERFACE_SPEC then ifaces else sessions)
              && ValueSet(spec, actual[Path(spec, key)], f)
  {
    var item, keys := UndesiredItem(spec, actual, Path(spec, key), f), Keys(if spec == INTERFACE_SPEC then ifaces else sessions);
    DiffExact(ifaces, sessions, actual, item);
    InterfaceSpecPlain();
    SessionSpecPlain();
    MatchOwnPath(spec, key);
    if IsUndesired(spec, keys, actual, item) {
      var path, g :| path in actual && g in spec.valueFields && Unmanaged(spec, keys, path) && ValueSet(spec, actual[path], g) && item == UndesiredItem(spec, actual, path, g);
      SplitUnique(Path(spec, key), f, path, g);
    }
  }

  /** `UndesiredReported` on what the device says. */
  lemma FlaggedExactly(ifaces: seq<Entity>, sessions: seq<Entity>, actual: Actual, spec: Spec, key: string, f: string, path: string)
    requires (spec == INTERFACE_SPEC || spec == SESSION_SPEC) && key != "" && '\n' !in key && path == Path(spec, key) && path in actual && f in spec.valueFields
    ensures var have := Reported(actual, path, f);
            DriftItem(path + "/" + f, Null, have, spec.kind, true) in Diff(ifaces, sessions, actual) <==>
              && key !in spec.protected && key !in Keys(if spec == INTERFACE_SPEC then ifaces else sessions)
              && have != Null && !PyEq(have, DefaultOf(spec, f))
  {
    UndesiredReported(ifaces, sessions, actual, spec, key, f);
  }

  /**
   An interface the device reports: a value is flagged undesired exactly when intent does not name the
   interface, it is neither mgmt0 nor system0, and the value is set and not the default mtu.
   */
  lemma UnmanagedInterface(ifaces: seq<Entity>, sessions: seq<Entity>, actual: Actual, name: string, f: string)
    requires name != "" && '\n' !in name && IfaceRecord(name) in actual
    requires f in {"description", "ip_address", "prefix_length", "mtu"}
    ensures var have := Reported(actual, IfaceRecord(name), f);
            IfaceItem(name, f, Null, have, true) in Diff(ifaces, sessions, actual) <==>
              name !in Keys(ifaces) && name != "mgmt0" && name != "system0" && have != Null && !(f == "mtu" && PyEq(have, Num(9232)))
  {
    InterfaceTables(f);
    InterfaceTables(name);
    IfacePath(name);
    assert INTERFACE_SPEC.kind == InterfaceKind;
    FlaggedExactly(ifaces, sessions, actual, INTERFACE_SPEC, name, f, IfaceRecord(name));
  }

  /** A neighbor the device reports: its AS and group are flagged exactly when intent does not name the peer and they are set. */
  lemma UnmanagedSession(ifaces: seq<Entity>, sessions: seq<Entity>, actual: Actual, peer: string, f: string)
    requires peer != "" && '\n' !in peer && PeerRecord(peer) in actual && f in {"peer_asn", "peer_group"}
    ensures var have := Reported(actual, PeerRecord(peer), f);
            PeerItem(peer, f, Null, have, true) in Diff(ifaces, sessions, actual) <==> peer !in Keys(sessions) && have != Null
  {
    SessionTables(f);
    SessionTables(peer);
    PeerPath(peer);
    assert SESSION_SPEC.kind == SessionKind;
    FlaggedExactly(ifaces, sessions, actual, SESSION_SPEC, peer, f, PeerRecord(peer));
  }
}
