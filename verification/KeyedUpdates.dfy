/**
 Folding keyed updates into one map, merging the values that land on one key.

 The result is characterised key by key, so it does not depend on how updates for different
 keys interleave; nor does it change when one value is split or a fragment is sent again.
 */
module KeyedUpdates {
  import opened Prelude
  import opened Json
  import opened Fragments

  /** An update under its key; Broken lacks a member the parser indexes (KeyError). */
  datatype Keyed = Keyed(key: string, val: Json) | Broken

  type Collected = map<string, Json>

  function Add(data: Option<Collected>, u: Keyed): Option<Collected>
  {
    if data.None? || u.Broken? then None
    else if u.key !in data.value then Some(data.value[u.key := u.val])
    else
      var merged := Merge(data.value[u.key], u.val);
      if merged.None? then None else Some(data.value[u.key := merged.value])
  }

  /** The updates folded, in arrival order, into what was already collected. */
  function CollectFrom(data: Option<Collected>, us: seq<Keyed>): Option<Collected>
    decreases us
  {
    if us == [] then data else CollectFrom(Add(data, us[0]), us[1..])
  }

  function Collect(us: seq<Keyed>): Option<Collected>
  {
    CollectFrom(Some(map[]), us)
  }

  lemma {:induction false} FailureSticks(us: seq<Keyed>)
    ensures CollectFrom(None, us) == None
  {
    if us != [] { FailureSticks(us[1..]); }
  }

  lemma {:induction false} CollectConcat(data: Option<Collected>, us: seq<Keyed>, ws: seq<Keyed>)
    ensures CollectFrom(data, us + ws) == CollectFrom(CollectFrom(data, us), ws)
    decreases us
  {
    if us == [] {
      assert us + ws == ws;
    } else {
      assert (us + ws)[1..] == us[1..] + ws;
      CollectConcat(Add(data, us[0]), us[1..], ws);
    }
  }

  // ---- Key by key ----

  /** The values that arrived for one key, in order. */
  function ValuesAt(us: seq<Keyed>, key: string): seq<Json>
  {
    if us == [] then []
    else (if us[0].Keyed? && us[0].key == key then [us[0].val] else []) + ValuesAt(us[1..], key)
  }

  function MergeOnto(first: Option<Json>, vals: seq<Json>): Option<Json>
    decreases vals
  {
    if vals == [] then first else MergeOnto(MergeAll(first, Some(vals[0])), vals[1..])
  }

  /** One or more values merged in order. */
  function Combined(vals: seq<Json>): Option<Json>
  {
    if vals == [] then None else MergeOnto(Some(vals[0]), vals[1..])
  }

  ghost predicate Unbroken(us: seq<Keyed>)
  {
    forall u :: u in us ==> u.Keyed?
  }

  /** What a key holds before and after: the collected value, if any, then the arriving ones. */
  function Held(data: Collected, us: seq<Keyed>, key: string): seq<Json>
  {
    (if key in data then [data[key]] else []) + ValuesAt(us, key)
  }

  ghost predicate AllCombine(data: Collected, us: seq<Keyed>)
  {
    forall key :: Held(data, us, key) != [] ==> Combined(Held(data, us, key)).Some?
  }

  /** `result` holds, for exactly the keys with a value, the combination of their values. */
  ghost predicate KeyByKey(data: Collected, us: seq<Keyed>, result: Collected)
  {
    forall key :: (key in result <==> Held(data, us, key) != [])
               && (key in result ==> Combined(Held(data, us, key)) == Some(result[key]))
  }

  /** Adding one update leaves what every key holds alone, up to merging the two values of its own key. */
  lemma AddKeepsHeld(data: Collected, us: seq<Keyed>, key: string)
    requires us != [] && us[0].Keyed? && Add(Some(data), us[0]).Some?
    ensures var later := Add(Some(data), us[0]).value;
            (Held(later, us[1..], key) == [] <==> Held(data, us, key) == []) &&
            Combined(Held(later, us[1..], key)) == Combined(Held(data, us, key))
  {
    var u, rest, later := us[0], ValuesAt(us[1..], key), Add(Some(data), us[0]).value;
    if u.key != key {
      assert Held(later, us[1..], key) == Held(data, us, key);
    } else if key in data {
      MergesOwn(data[key], u.val, rest);
      assert Held(data, us, key) == [data[key]] + ([u.val] + rest);
      assert Held(later, us[1..], key) == [later[key]] + rest;
    } else {
      assert Held(data, us, key) == [u.val] + rest == Held(later, us[1..], key);
    }
  }

  /** Merging the first two of some values first does not change their combination. */
  lemma MergesOwn(a: Json, b: Json, rest: seq<Json>)
    requires Merge(a, b).Some?
    ensures Combined([Merge(a, b).value] + rest) == Combined([a] + ([b] + rest))
  {
    assert ([a] + ([b] + rest))[1..] == [b] + rest && ([b] + rest)[1..] == rest;
    assert ([Merge(a, b).value] + rest)[1..] == rest;
  }

  lemma {:induction false} MergeOntoFails(vals: seq<Json>)
    ensures MergeOnto(None, vals) == None
  {
    if vals != [] { MergeOntoFails(vals[1..]); }
  }

  lemma AddFails(data: Collected, us: seq<Keyed>)
    requires us != [] && us[0].Keyed? && Add(Some(data), us[0]).None?
    ensures var key := us[0].key; Held(data, us, key) != [] && Combined(Held(data, us, key)) == None
  {
    var u := us[0];
    var rest := ValuesAt(us[1..], u.key);
    assert Held(data, us, u.key) == [data[u.key]] + ([u.val] + rest);
    assert ([data[u.key]] + ([u.val] + rest))[1..] == [u.val] + rest && ([u.val] + rest)[1..] == rest;
    MergeOntoFails(rest);
  }

  /** Collecting succeeds exactly when every key's values combine, and then yields those combinations. */
  lemma {:induction false} CollectExactly(data: Collected, us: seq<Keyed>)
    ensures var result := CollectFrom(Some(data), us);
            (result.Some? <==> Unbroken(us) && AllCombine(data, us)) && (result.Some? ==> KeyByKey(data, us, result.value))
    decreases us
  {
    if us == [] {
      forall key ensures Held(data, us, key) == if key in data then [data[key]] else [] {
      }
    } else {
      var later := Add(Some(data), us[0]);
      assert Unbroken(us) <==> us[0].Keyed? && Unbroken(us[1..]) by {
        assert us == [us[0]] + us[1..];
      }
      if later.Some? {
        CollectExactly(later.value, us[1..]);
        forall key
          ensures Held(later.value, us[1..], key) == [] <==> Held(data, us, key) == []
          ensures Combined(Held(later.value, us[1..], key)) == Combined(Held(data, us, key))
        {
          AddKeepsHeld(data, us, key);
        }
      } else {
        FailureSticks(us[1..]);
        if us[0].Keyed? { AddFails(data, us); }
      }
    }
  }

  /** Only the order of updates for one key matters: however different keys interleave, the result is the same. */
  lemma InterleavingIrrelevant(us: seq<Keyed>, ws: seq<Keyed>)
    requires Unbroken(us) <==> Unbroken(ws)
    requires forall key :: ValuesAt(us, key) == ValuesAt(ws, key)
    ensures Collect(us) == Collect(ws)
  {
    CollectExactly(map[], us);
    CollectExactly(map[], ws);
    forall key ensures Held(map[], us, key) == Held(map[], ws, key) {
    }
    assert AllCombine(map[], us) <==> AllCombine(map[], ws);
    if Collect(us).Some? {
      assert Collect(us).value == Collect(ws).value;
    }
  }

  // ---- Splitting and re-sending ----

  /** Merging values one after another is merging their combination. */
  lemma {:induction false} MergeOntoCombined(first: Option<Json>, vals: seq<Json>)
    requires vals != []
    ensures MergeOnto(first, vals) == MergeAll(first, Combined(vals))
    decreases vals
  {
    if |vals| == 1 {
      assert vals[1..] == [];
    } else {
      var rest := vals[1..];
      MergeOntoCombined(MergeAll(first, Some(vals[0])), rest);
      MergeOntoCombined(Some(vals[0]), rest);
      if first.Some? && Combined(rest).Some? {
        MergeAssociative(first.value, vals[0], Combined(rest).value);
      }
    }
  }

  /** The updates that carry the fragments of one key, in order. */
  function FragmentsOf(key: string, parts: seq<Json>): (r: seq<Keyed>)
    ensures |r| == |parts| && forall i :: 0 <= i < |parts| ==> r[i] == Keyed(key, parts[i])
  {
    seq(|parts|, i requires 0 <= i < |parts| => Keyed(key, parts[i]))
  }

  lemma {:induction false} FragmentsOntoHeld(data: Collected, key: string, parts: seq<Json>)
    requires key in data
    ensures var merged := MergeOnto(Some(data[key]), parts);
            CollectFrom(Some(data), FragmentsOf(key, parts)) == if merged.None? then None else Some(data[key := merged.value])
    decreases parts
  {
    if parts == [] {
      assert data[key := data[key]] == data;
    } else {
      assert FragmentsOf(key, parts)[1..] == FragmentsOf(key, parts[1..]);
      var next := Merge(data[key], parts[0]);
      if next.None? {
        FailureSticks(FragmentsOf(key, parts[1..]));
        MergeOntoFails(parts[1..]);
      } else {
        FragmentsOntoHeld(data[key := next.value], key, parts[1..]);
        var merged := MergeOnto(next, parts[1..]);
        assert merged.Some? ==> data[key := next.value][key := merged.value] == data[key := merged.value];
      }
    }
  }

  /** A value sent in consecutive fragments lands exactly like the value sent whole. */
  lemma FragmentsAsOne(data: Collected, key: string, parts: seq<Json>, whole: Json)
    requires parts != [] && Combined(parts) == Some(whole)
    ensures CollectFrom(Some(data), FragmentsOf(key, parts)) == Add(Some(data), Keyed(key, whole))
  {
    if key in data {
      FragmentsOntoHeld(data, key, parts);
      MergeOntoCombined(Some(data[key]), parts);
    } else {
      var started := data[key := parts[0]];
      assert FragmentsOf(key, parts)[1..] == FragmentsOf(key, parts[1..]);
      FragmentsOntoHeld(started, key, parts[1..]);
      assert started[key := whole] == data[key := whole];
    }
  }

  /** One value may arrive whole or in any consecutive fragments that combine to it. */
  lemma SplitIrrelevant(pre: seq<Keyed>, key: string, parts: seq<Json>, whole: Json, post: seq<Keyed>)
    requires parts != [] && Combined(parts) == Some(whole)
    ensures Collect(pre + FragmentsOf(key, parts) + post) == Collect(pre + [Keyed(key, whole)] + post)
  {
    var seen := Collect(pre);
    CollectConcat(Some(map[]), pre + FragmentsOf(key, parts), post);
    CollectConcat(Some(map[]), pre, FragmentsOf(key, parts));
    CollectConcat(Some(map[]), pre + [Keyed(key, whole)], post);
    CollectConcat(Some(map[]), pre, [Keyed(key, whole)]);
    assert CollectFrom(seen, [Keyed(key, whole)]) == Add(seen, Keyed(key, whole)) by {
      assert [Keyed(key, whole)][1..] == [];
    }
    if seen.Some? {
      FragmentsAsOne(seen.value, key, parts, whole);
    } else {
      FailureSticks(FragmentsOf(key, parts));
    }
  }

  /** `data` already contains the fragment `f` under `key`. */
  predicate Contains(data: Collected, key: string, f: Json)
  {
    key in data && Merge(data[key], f) == Some(data[key])
  }

  /** Once merged in, a fragment is contained in whatever is collected later. */
  lemma {:induction false} ContainsLater(data: Collected, key: string, f: Json, us: seq<Keyed>)
    requires Contains(data, key, f) && CollectFrom(Some(data), us).Some?
    ensures Contains(CollectFrom(Some(data), us).value, key, f)
    decreases us
  {
    if us != [] {
      var next := Add(Some(data), us[0]);
      if next.None? {
        FailureSticks(us[1..]);
      } else {
        if us[0].key == key { MergeKeeps(data[key], f, us[0].val); }
        ContainsLater(next.value, key, f, us[1..]);
      }
    }
  }

  lemma AddedIsContained(data: Collected, u: Keyed)
    requires Add(Some(data), u).Some?
    ensures Contains(Add(Some(data), u).value, u.key, u.val)
  {
    if u.key in data { MergeAbsorbs(data[u.key], u.val); } else { MergeIdempotent(u.val); }
  }

  lemma AddContained(data: Collected, u: Keyed)
    requires u.Keyed? && Contains(data, u.key, u.val)
    ensures Add(Some(data), u) == Some(data)
  {
    assert data[u.key := data[u.key]] == data;
  }

  lemma CollectAround(a: seq<Keyed>, u: Keyed, b: seq<Keyed>)
    ensures Collect(a + [u] + b) == CollectFrom(Add(Collect(a), u), b)
  {
    CollectConcat(Some(map[]), a + [u], b);
    CollectConcat(Some(map[]), a, [u]);
    assert [u][1..] == [];
  }

  /** A fragment delivered again, at any later point, changes nothing. */
  lemma ResendHarmless(pre: seq<Keyed>, u: Keyed, mid: seq<Keyed>, post: seq<Keyed>)
    requires u.Keyed?
    ensures Collect(pre + [u] + mid + [u] + post) == Collect(pre + [u] + mid + post)
  {
    var first := Add(Collect(pre), u);
    var seen := CollectFrom(first, mid);
    CollectAround(pre, u, mid);
    CollectAround(pre + [u] + mid, u, post);
    CollectConcat(Some(map[]), pre + [u] + mid, post);
    if first.None? {
      FailureSticks(mid);
    } else if seen.Some? {
      AddedIsContained(Collect(pre).value, u);
      ContainsLater(first.value, u.key, u.val, mid);
      AddContained(seen.value, u);
    }
  }
}
