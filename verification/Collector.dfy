/**
 Parsing a gNMI GET response (`GnmiCollector._parse_response`): every update is keyed by its
 normalised path, and updates with one key are merged (KeyedUpdates.dfy).
 */
module Collector {
  import opened Prelude
  import opened Json
  import opened Fragments
  import opened KeyedUpdates
  import Paths

  /** One update; Malformed lacks its path or value member. */
  datatype Update = Update(path: Option<string>, val: Json) | Malformed

  /** Updates grouped by notification; a response without that member raises. */
  datatype Response = NoNotification | Notifications(groups: seq<seq<Update>>)

  function KeyOf(path: Option<string>, paths: seq<string>): string
  {
    if path.Some? && path.value != "" && path.value != "/" then Paths.Normalized(path)
    else if |paths| == 1 then Paths.Normalized(Some(paths[0]))
    else "/"
  }

  function Key(u: Update, paths: seq<string>): Keyed
  {
    match u
    case Malformed => Broken
    case Update(path, val) => Keyed(KeyOf(path, paths), val)
  }

  function KeyAll(us: seq<Update>, paths: seq<string>): seq<Keyed>
  {
    if us == [] then [] else [Key(us[0], paths)] + KeyAll(us[1..], paths)
  }

  /** All updates of a response, keyed, in arrival order. */
  function Flatten(groups: seq<seq<Update>>, paths: seq<string>): seq<Keyed>
  {
    if groups == [] then [] else KeyAll(groups[0], paths) + Flatten(groups[1..], paths)
  }

  function Parsed(response: Response, paths: seq<string>): Option<Collected>
  {
    match response
    case NoNotification => None
    case Notifications(groups) => Collect(Flatten(groups, paths))
  }

  method KeyFor(u: Update, paths: seq<string>) returns (key: string)
    requires u.Update?
    ensures key == Key(u, paths).key
  {
    if u.path.Some? && u.path.value != "" && u.path.value != "/" {
      key := Paths.NormalizePath(u.path);
    } else if |paths| == 1 {
      key := Paths.NormalizePath(Some(paths[0]));
    } else {
      key := "/";
    }
  }

  method ParseResponse(response: Response, paths: seq<string>) returns (r: Option<Collected>)
    ensures r == Parsed(response, paths)
  {
    if response.NoNotification? { return None; }
    var groups := response.groups;
    var data: Collected := map[];
    assert groups[0..] == groups;
    for i := 0 to |groups|
      invariant CollectFrom(Some(data), Flatten(groups[i..], paths)) == Parsed(response, paths)
    {
      var group := groups[i];
      ghost var later := Flatten(groups[i + 1..], paths);
      assert groups[i..][1..] == groups[i + 1..] && group[0..] == group;
      for j := 0 to |group|
        invariant CollectFrom(Some(data), KeyAll(group[j..], paths) + later) == Parsed(response, paths)
      {
        var u := group[j];
        NextUpdate(data, group, j, later, paths);
        if u.Malformed? { return None; }
        var key := KeyFor(u, paths);
        if key in data {
          var merged := Merge(data[key], u.val);
          if merged.None? { return None; }
          data := data[key := merged.value];
        } else {
          data := data[key := u.val];
        }
      }
      assert group[|group|..] == [] && [] + later == later;
    }
    assert groups[|groups|..] == [];
    r := Some(data);
  }

  /** Peel off the next update: the rest folds from what it leaves behind, or the parse has failed. */
  lemma NextUpdate(data: Collected, group: seq<Update>, j: nat, later: seq<Keyed>, paths: seq<string>)
    requires j < |group|
    ensures var k := Key(group[j], paths); var next := Add(Some(data), k);
            CollectFrom(Some(data), KeyAll(group[j..], paths) + later)
              == if next.None? then None else CollectFrom(next, KeyAll(group[j + 1..], paths) + later)
  {
    var k, rest := Key(group[j], paths), KeyAll(group[j + 1..], paths) + later;
    assert group[j..][1..] == group[j + 1..];
    assert KeyAll(group[j..], paths) + later == [k] + rest;
    assert ([k] + rest)[1..] == rest;
    FailureSticks(rest);
  }

  // ---- What the properties of KeyedUpdates say about responses ----

  lemma {:induction false} KeyAllConcat(us: seq<Update>, ws: seq<Update>, paths: seq<string>)
    ensures KeyAll(us + ws, paths) == KeyAll(us, paths) + KeyAll(ws, paths)
  {
    if us == [] {
      assert us + ws == ws;
    } else {
      assert (us + ws)[1..] == us[1..] + ws;
      KeyAllConcat(us[1..], ws, paths);
    }
  }

  function Concat(groups: seq<seq<Update>>): seq<Update>
  {
    if groups == [] then [] else groups[0] + Concat(groups[1..])
  }

  /** How updates are grouped into notifications does not matter, only their order. */
  lemma {:induction false} GroupingIrrelevant(groups: seq<seq<Update>>, paths: seq<string>)
    ensures Flatten(groups, paths) == KeyAll(Concat(groups), paths)
  {
    if groups != [] {
      KeyAllConcat(groups[0], Concat(groups[1..]), paths);
      GroupingIrrelevant(groups[1..], paths);
    }
  }

  function PartsOf(path: Option<string>, parts: seq<Json>): seq<Update>
  {
    if parts == [] then [] else [Update(path, parts[0])] + PartsOf(path, parts[1..])
  }

  lemma {:induction false} KeyAllParts(path: Option<string>, parts: seq<Json>, paths: seq<string>)
    ensures KeyAll(PartsOf(path, parts), paths) == FragmentsOf(KeyOf(path, paths), parts)
  {
    if parts != [] {
      var rest := PartsOf(path, parts[1..]);
      assert ([Update(path, parts[0])] + rest)[1..] == rest;
      KeyAllParts(path, parts[1..], paths);
    }
  }

  /** A response that splits one value into fragments, over any notifications, parses like one that sends it whole. */
  lemma FragmentedValue(split: seq<seq<Update>>, sent: seq<seq<Update>>, pre: seq<Update>, path: Option<string>,
                        parts: seq<Json>, whole: Json, post: seq<Update>, paths: seq<string>)
    requires Concat(split) == pre + PartsOf(path, parts) + post && Concat(sent) == pre + PartsOf(path, [whole]) + post
    requires parts != [] && Combined(parts) == Some(whole)
    ensures Parsed(Notifications(split), paths) == Parsed(Notifications(sent), paths)
  {
    var k := KeyOf(path, paths);
    KeyAllAround(split, pre, PartsOf(path, parts), post, paths);
    KeyAllAround(sent, pre, PartsOf(path, [whole]), post, paths);
    KeyAllParts(path, parts, paths);
    KeyAllParts(path, [whole], paths);
    assert FragmentsOf(k, [whole]) == [Keyed(k, whole)];
    SplitIrrelevant(KeyAll(pre, paths), k, parts, whole, KeyAll(post, paths));
  }

  lemma KeyAllAround(groups: seq<seq<Update>>, pre: seq<Update>, mid: seq<Update>, post: seq<Update>, paths: seq<string>)
    requires Concat(groups) == pre + mid + post
    ensures Flatten(groups, paths) == KeyAll(pre, paths) + KeyAll(mid, paths) + KeyAll(post, paths)
  {
    GroupingIrrelevant(groups, paths);
    KeyAllConcat(pre + mid, post, paths);
    KeyAllConcat(pre, mid, paths);
  }

  /** A response that repeats an update it already sent, at any later point, parses as if it had not. */
  lemma ResentUpdate(resent: seq<seq<Update>>, once: seq<seq<Update>>, pre: seq<Update>, path: Option<string>, val: Json,
                     mid: seq<Update>, post: seq<Update>, paths: seq<string>)
    requires var u := PartsOf(path, [val]);
             Concat(resent) == pre + u + mid + u + post && Concat(once) == pre + u + mid + post
    ensures Parsed(Notifications(resent), paths) == Parsed(Notifications(once), paths)
  {
    var u, k := PartsOf(path, [val]), KeyOf(path, paths);
    KeyAllAround(resent, pre + u + mid, u, post, paths);
    KeyAllAround([pre + u + mid], pre, u, mid, paths) by { assert Concat([pre + u + mid]) == pre + u + mid by { OneGroup(pre + u + mid); } }
    OneGroupKeyed(pre + u + mid, paths);
    GroupingIrrelevant(once, paths);
    KeyAllConcat(pre + u + mid, post, paths);
    KeyAllParts(path, [val], paths);
    assert FragmentsOf(k, [val]) == [Keyed(k, val)];
    ResendHarmless(KeyAll(pre, paths), Keyed(k, val), KeyAll(mid, paths), KeyAll(post, paths));
  }

  lemma OneGroup(us: seq<Update>)
    ensures Concat([us]) == us
  {
    assert [us][1..] == [] && us + [] == us;
  }

  lemma OneGroupKeyed(us: seq<Update>, paths: seq<string>)
    ensures Flatten([us], paths) == KeyAll(us, paths)
  {
    assert [us][1..] == [] && KeyAll(us, paths) + [] == KeyAll(us, paths);
  }

  // ---- Spellings ----

  /** What the parse takes for the root: no path, an empty one, or `/`. */
  predicate Rootish(path: Option<string>) { path.None? || path.value == "" || path.value == "/" }

  /** One update is collected under its normalised path; a root one under the only path requested, or else under `/`. */
  lemma OneUpdate(path: Option<string>, val: Json, paths: seq<string>)
    ensures var r := Parsed(Notifications([[Update(path, val)]]), paths);
            && (!Rootish(path) ==> r == Some(map[Paths.Normalized(path) := val]))
            && (Rootish(path) && |paths| == 1 ==> r == Some(map[Paths.Normalized(Some(paths[0])) := val]))
            && (Rootish(path) && |paths| != 1 ==> r == Some(map["/" := val]))
  {
    var us := [Update(path, val)];
    OneGroupKeyed(us, paths);
    assert us[1..] == [] && KeyAll(us, paths) == [Key(us[0], paths)];
    OneKeyed(Key(us[0], paths));
  }

  lemma OneKeyed(k: Keyed)
    requires k.Keyed?
    ensures Collect([k]) == Some(map[k.key := k.val])
  {
    var one: Collected := map[k.key := k.val];
    assert [k][1..] == [] && Add(Some(map[]), k) == Some(one);
    assert CollectFrom(Some(map[]), [k]) == CollectFrom(Some(one), []);
  }

  /** A response with an update that lacks its path or value is not parsed. */
  lemma MalformedRaises(groups: seq<seq<Update>>, paths: seq<string>)
    requires Malformed in Concat(groups)
    ensures Parsed(Notifications(groups), paths) == None
  {
    GroupingIrrelevant(groups, paths);
    BrokenRemains(Concat(groups), paths);
    CollectExactly(map[], Flatten(groups, paths));
  }

  lemma {:induction false} BrokenRemains(us: seq<Update>, paths: seq<string>)
    requires Malformed in us
    ensures Broken in KeyAll(us, paths)
  {
    if us[0] != Malformed { BrokenRemains(us[1..], paths); }
  }

  /** The same update, up to how its path is spelled. */
  predicate Respelled(u: Update, w: Update)
  {
    if u.Update? && w.Update? then
      u.val == w.val && ((Rootish(u.path) && Rootish(w.path))
                         || (!Rootish(u.path) && !Rootish(w.path) && Paths.Normalized(u.path) == Paths.Normalized(w.path)))
    else u == w
  }

  lemma {:induction false} RespelledKeys(us: seq<Update>, ws: seq<Update>, paths: seq<string>)
    requires |us| == |ws| && forall i :: 0 <= i < |us| ==> Respelled(us[i], ws[i])
    ensures KeyAll(us, paths) == KeyAll(ws, paths)
  {
    if us != [] {
      assert Respelled(us[0], ws[0]);
      RespelledKeys(us[1..], ws[1..], paths);
    }
  }

  /** Responses that differ only in how their paths are spelled parse alike. */
  lemma SpellingIrrelevant(groups: seq<seq<Update>>, others: seq<seq<Update>>, paths: seq<string>)
    requires |Concat(groups)| == |Concat(others)|
    requires forall i :: 0 <= i < |Concat(groups)| ==> Respelled(Concat(groups)[i], Concat(others)[i])
    ensures Parsed(Notifications(groups), paths) == Parsed(Notifications(others), paths)
  {
    GroupingIrrelevant(groups, paths);
    GroupingIrrelevant(others, paths);
    RespelledKeys(Concat(groups), Concat(others), paths);
  }

  /** A path as a device may send it: leading separators, then its elements, prefixed or not. */
  function Sent(leading: nat, steps: seq<Paths.Spelled>): Option<string> { Some(Paths.Slashes(leading) + Paths.Spell(steps)) }

  lemma SentIsNoRoot(leading: nat, steps: seq<Paths.Spelled>)
    requires Paths.LegalSpelling(steps) && steps != []
    ensures !Rootish(Sent(leading, steps))
  {
    var path := Sent(leading, steps).value;
    Paths.SpelledElementStrips(steps[0]);
    var e := Paths.SpelledElement(steps[0]);
    var k := leading;
    assert path[k..] == Paths.Spell(steps) && path[k] == e[0];
    assert e[0] != '/';
  }

  /** Two spellings of one path are collected under one key, the elements joined at `/`, their values merged. */
  lemma SpellingsMerge(leading: nat, steps: seq<Paths.Spelled>, again: nat, others: seq<Paths.Spelled>, v: Json, w: Json, paths: seq<string>)
    requires Paths.LegalSpelling(steps) && Paths.LegalSpelling(others) && steps != [] && others != []
    requires Paths.CanonicalElements(steps) == Paths.CanonicalElements(others)
    ensures var key := "/" + Paths.Join(Paths.CanonicalElements(steps));
            var r := Parsed(Notifications([[Update(Sent(leading, steps), v)], [Update(Sent(again, others), w)]]), paths);
            r == if Merge(v, w).None? then None else Some(map[key := Merge(v, w).value])
  {
    var key := "/" + Paths.Join(Paths.CanonicalElements(steps));
    Paths.CanonicalPath(leading, steps);
    Paths.CanonicalPath(again, others);
    SentIsNoRoot(leading, steps);
    SentIsNoRoot(again, others);
    var a, b := Update(Sent(leading, steps), v), Update(Sent(again, others), w);
    TwoGroups(a, b, paths);
    TwoKeyed(key, v, w);
  }

  lemma TwoGroups(a: Update, b: Update, paths: seq<string>)
    ensures Flatten([[a], [b]], paths) == [Key(a, paths), Key(b, paths)]
  {
    assert [[a], [b]][1..] == [[b]];
    OneGroupKeyed([b], paths);
    assert [a][1..] == [] && [b][1..] == [];
    assert KeyAll([a], paths) == [Key(a, paths)] && KeyAll([b], paths) == [Key(b, paths)];
  }

  lemma TwoKeyed(key: string, v: Json, w: Json)
    ensures Collect([Keyed(key, v), Keyed(key, w)]) == if Merge(v, w).None? then None else Some(map[key := Merge(v, w).value])
  {
    var us := [Keyed(key, v), Keyed(key, w)];
    var one: Collected := map[key := v];
    assert us[1..] == [Keyed(key, w)] && us[1..][1..] == [];
    assert Add(Some(map[]), us[0]) == Some(one);
    assert CollectFrom(Some(map[]), us) == CollectFrom(Some(one), us[1..]) == Add(Some(one), us[1]);
    if Merge(v, w).Some? { assert one[key := Merge(v, w).value] == map[key := Merge(v, w).value]; }
  }

  /** A module name, a colon and a name: the form SR Linux gives a targeted path. It is collected under the name alone. */
  lemma TargetedPath(moduleName: string, name: string, val: Json, paths: seq<string>)
    requires moduleName != "" && name != "" && forall i :: 0 <= i < |moduleName| ==> Paths.NameChar(moduleName[i])
    requires forall i :: 0 <= i < |name| ==> Paths.NameChar(name[i])
    ensures Parsed(Notifications([[Update(Some(moduleName + ":" + name), val)]]), paths) == Some(map["/" + name := val])
  {
    var steps, path := [Paths.Spelled(moduleName, name, 0)], moduleName + ":" + name;
    NameIsPlain(name);
    assert steps[1..] == [] && Paths.Spell(steps) == path + "" + "" == path;
    assert Paths.Slashes(0) + path == path;
    Paths.CanonicalPath(0, steps);
    assert Paths.CanonicalElements(steps) == [name];
    OneUpdate(Some(path), val, paths);
  }

  /** A text of name characters only is one plain element without a prefix. */
  lemma {:induction false} NameIsPlain(name: string)
    requires forall i :: 0 <= i < |name| ==> Paths.NameChar(name[i])
    ensures Paths.Plain(name, 0) && Paths.NameRun(name) == |name|
  {
    if name != "" { NameIsPlain(name[1..]); }
  }
}
