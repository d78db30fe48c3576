/** Python dicts as values: keys in insertion order and what they map to. */
module Dicts {
  import opened Lists
  import opened Prelude

  datatype Dict<K(==), V> = Dict(keys: seq<K>, values: map<K, V>)

  predicate NoRepeat<T(==)>(xs: seq<T>)
  {
    forall i, j :: 0 <= i < j < |xs| ==> xs[i] != xs[j]
  }

  ghost predicate Valid<K(!new), V>(d: Dict<K, V>)
  {
    NoRepeat(d.keys) && forall k :: k in d.keys <==> k in d.values
  }

  function Empty<K, V>(): Dict<K, V> { Dict([], map[]) }

  /** `d[k] = v`: an existing key keeps its place. */
  function Put<K, V>(d: Dict<K, V>, k: K, v: V): Dict<K, V>
  {
    Dict(if k in d.values then d.keys else d.keys + [k], d.values[k := v])
  }

  lemma PutValid<K(!new), V>(d: Dict<K, V>, k: K, v: V)
    requires Valid(d)
    ensures Valid(Put(d, k, v))
  {
  }

  lemma {:induction false} NoRepeatCount<T>(xs: seq<T>)
    requires NoRepeat(xs)
    ensures |xs| == |set x | x in xs|
  {
    if xs != [] {
      NoRepeatCount(xs[1..]);
      assert (set x | x in xs) == {xs[0]} + (set x | x in xs[1..]) by { assert xs == [xs[0]] + xs[1..]; }
      assert xs[0] !in xs[1..];
    }
  }

  lemma {:induction false} FilterNoRepeat<T>(p: T -> bool, xs: seq<T>)
    requires NoRepeat(xs)
    ensures NoRepeat(Filter(p, xs))
  {
    if xs != [] {
      var rest := Filter(p, xs[1..]);
      FilterNoRepeat(p, xs[1..]);
      FilterKeeps(p, xs[1..]);
      forall i | 0 <= i < |rest| ensures rest[i] != xs[0] { assert rest[i] in xs[1..]; }
    }
  }

  function Range(n: nat): (r: set<nat>)
    ensures |r| == n && forall k :: k in r <==> 0 <= k < n
  {
    if n == 0 then {} else Range(n - 1) + {n - 1}
  }

  /** A list of the numbers below `n`, each once, has length `n`. */
  lemma CountsUpTo(xs: seq<nat>, n: nat)
    requires NoRepeat(xs) && forall k :: k in xs <==> 0 <= k < n
    ensures |xs| == n
  {
    NoRepeatCount<nat>(xs);
    assert (set x: nat | x in xs) == Range(n);
  }

  /** `len(d)` counts the keys. */
  lemma DictSize<K(!new), V>(d: Dict<K, V>)
    requires Valid(d)
    ensures |d.keys| == |d.values|
  {
    NoRepeatCount(d.keys);
    assert (set k | k in d.keys) == d.values.Keys;
  }

  // ---- dict.fromkeys ----

  /** `list(dict.fromkeys(xs))`: each element once, at its first position. */
  function Distinct<T(==)>(xs: seq<T>): (r: seq<T>)
  {
    DistinctAfter({}, xs)
  }

  function DistinctAfter<T(==)>(seen: set<T>, xs: seq<T>): seq<T>
    decreases xs
  {
    if xs == [] then []
    else if xs[0] in seen then DistinctAfter(seen, xs[1..])
    else [xs[0]] + DistinctAfter(seen + {xs[0]}, xs[1..])
  }

  lemma {:induction false} DistinctAfterIs<T(!new)>(seen: set<T>, xs: seq<T>)
    ensures NoRepeat(DistinctAfter(seen, xs))
    ensures forall x :: x in DistinctAfter(seen, xs) <==> x in xs && x !in seen
    decreases xs
  {
    if xs != [] {
      DistinctAfterIs(seen, xs[1..]);
      DistinctAfterIs(seen + {xs[0]}, xs[1..]);
      assert forall x :: x in xs <==> x == xs[0] || x in xs[1..];
    }
  }

  /** The result holds exactly the given elements, none twice. */
  lemma DistinctIs<T(!new)>(xs: seq<T>)
    ensures NoRepeat(Distinct(xs))
    ensures forall x :: x in Distinct(xs) <==> x in xs
  {
    DistinctAfterIs({}, xs);
  }

  /** A list without repeats is its own deduplication. */
  lemma {:induction false} DistinctAfterKeeps<T>(seen: set<T>, xs: seq<T>)
    requires NoRepeat(xs) && forall x :: x in xs ==> x !in seen
    ensures DistinctAfter(seen, xs) == xs
    decreases xs
  {
    if xs != [] {
      assert xs[0] in xs && forall x :: x in xs[1..] ==> x in xs && x != xs[0];
      DistinctAfterKeeps(seen + {xs[0]}, xs[1..]);
    }
  }

  lemma DistinctKeeps<T>(xs: seq<T>)
    requires NoRepeat(xs)
    ensures Distinct(xs) == xs
  {
    DistinctAfterKeeps({}, xs);
  }

  /** Deduplicating the images under an injective function is mapping the deduplicated list. */
  lemma {:induction false} DistinctMap<A(!new), B>(f: A -> B, seen: set<A>, images: set<B>, xs: seq<A>)
    requires forall x, y :: f(x) == f(y) ==> x == y
    requires forall x :: x in seen <==> f(x) in images
    ensures DistinctAfter(images, Map(f, xs)) == Map(f, DistinctAfter(seen, xs))
    decreases xs
  {
    if xs != [] {
      var x, ys := xs[0], Map(f, xs);
      assert ys[0] == f(x) && ys[1..] == Map(f, xs[1..]);
      if x in seen {
        DistinctMap(f, seen, images, xs[1..]);
      } else {
        DistinctMap(f, seen + {x}, images + {f(x)}, xs[1..]);
        var rest := DistinctAfter(seen + {x}, xs[1..]);
        assert Map(f, [x] + rest) == [f(x)] + Map(f, rest);
      }
    }
  }

  // ---- {key(x): value(x) for x in xs} ----

  function FromItems<A, K, V>(d: Dict<K, V>, key: A -> K, value: A -> V, xs: seq<A>): Dict<K, V>
    decreases xs
  {
    if xs == [] then d else FromItems(Put(d, key(xs[0]), value(xs[0])), key, value, xs[1..])
  }

  lemma PutStep<K(!new), V>(d: Dict<K, V>, k: K, v: V, ks: seq<K>)
    requires Valid(d)
    ensures var next := Put(d, k, v);
            next.keys + DistinctAfter(next.values.Keys, ks) == d.keys + DistinctAfter(d.values.Keys, [k] + ks)
  {
    var next := Put(d, k, v);
    assert next.values.Keys == d.values.Keys + {k};
    assert ([k] + ks)[1..] == ks;
    if k in d.values {
      assert d.values.Keys + {k} == d.values.Keys;
    } else {
      var rest := DistinctAfter(next.values.Keys, ks);
      assert d.keys + [k] + rest == d.keys + ([k] + rest);
    }
  }

  /** Keys stand in the order of their first appearance. */
  lemma {:induction false} ItemKeys<A, K(!new), V>(d: Dict<K, V>, key: A -> K, value: A -> V, xs: seq<A>)
    requires Valid(d)
    ensures Valid(FromItems(d, key, value, xs))
    ensures FromItems(d, key, value, xs).keys == d.keys + DistinctAfter(d.values.Keys, Map(key, xs))
    decreases xs
  {
    if xs != [] {
      var k := key(xs[0]);
      var next := Put(d, k, value(xs[0]));
      PutValid(d, k, value(xs[0]));
      ItemKeys(next, key, value, xs[1..]);
      PutStep(d, k, value(xs[0]), Map(key, xs[1..]));
    }
  }

  /** Every value comes from an item with that key, or was there before. */
  lemma {:induction false} ItemValues<A, K(!new), V>(d: Dict<K, V>, key: A -> K, value: A -> V, xs: seq<A>, k: K)
    requires Valid(d) && k in FromItems(d, key, value, xs).values
    ensures var v := FromItems(d, key, value, xs).values[k];
            (k in d.values && v == d.values[k]) || exists i :: 0 <= i < |xs| && key(xs[i]) == k && v == value(xs[i])
    decreases xs
  {
    if xs != [] {
      PutValid(d, key(xs[0]), value(xs[0]));
      ItemValues(Put(d, key(xs[0]), value(xs[0])), key, value, xs[1..], k);
      assert forall i :: 0 <= i < |xs[1..]| ==> xs[1..][i] == xs[i + 1];
    }
  }

  lemma {:induction false} KeyStays<A, K(!new), V>(d: Dict<K, V>, key: A -> K, value: A -> V, xs: seq<A>, k: K)
    requires k in d.values && forall i :: 0 <= i < |xs| ==> key(xs[i]) != k
    ensures k in FromItems(d, key, value, xs).values && FromItems(d, key, value, xs).values[k] == d.values[k]
    decreases xs
  {
    if xs != [] {
      assert forall i :: 0 <= i < |xs[1..]| ==> xs[1..][i] == xs[i + 1];
      KeyStays(Put(d, key(xs[0]), value(xs[0])), key, value, xs[1..], k);
    }
  }

  /** The last item with a key gives its value. */
  lemma {:induction false} LastItem<A, K(!new), V>(d: Dict<K, V>, key: A -> K, value: A -> V, xs: seq<A>, j: nat)
    requires j < |xs| && forall i :: j < i < |xs| ==> key(xs[i]) != key(xs[j])
    ensures var r := FromItems(d, key, value, xs); key(xs[j]) in r.values && r.values[key(xs[j])] == value(xs[j])
    decreases xs
  {
    assert forall i :: 0 <= i < |xs[1..]| ==> xs[1..][i] == xs[i + 1];
    var next := Put(d, key(xs[0]), value(xs[0]));
    if j == 0 {
      KeyStays(next, key, value, xs[1..], key(xs[0]));
    } else {
      LastItem(next, key, value, xs[1..], j - 1);
    }
  }

  lemma Built<A, K(!new), V>(key: A -> K, value: A -> V, xs: seq<A>)
    ensures var r := FromItems<A, K, V>(Empty(), key, value, xs);
            Valid(r) && r.keys == Distinct(Map(key, xs))
  {
    ItemKeys(Empty<K, V>(), key, value, xs);
    assert Empty<K, V>().values.Keys == {};
  }

  lemma DistinctIndex<A, K>(key: A -> K, xs: seq<A>, i: nat, j: nat)
    requires i < |xs| && j < |xs| && NoRepeat(Map(key, xs)) && key(xs[i]) == key(xs[j])
    ensures i == j
  {
    var ks := Map(key, xs);
    assert ks[i] == ks[j];
  }

  /** With distinct keys every item is found under its key. */
  lemma ItemAt<A, K(!new), V>(key: A -> K, value: A -> V, xs: seq<A>, i: nat)
    requires NoRepeat(Map(key, xs)) && i < |xs|
    ensures var r := FromItems<A, K, V>(Empty(), key, value, xs);
            key(xs[i]) in r.values && r.values[key(xs[i])] == value(xs[i])
  {
    var ks := Map(key, xs);
    Built(key, value, xs);
    DistinctKeeps(ks);
    assert ks[i] in ks;
    ItemValues(Empty<K, V>(), key, value, xs, key(xs[i]));
    var j :| 0 <= j < |xs| && key(xs[j]) == key(xs[i])
             && FromItems<A, K, V>(Empty(), key, value, xs).values[key(xs[i])] == value(xs[j]);
    DistinctIndex(key, xs, i, j);
  }

  /** And there are as many entries as items. */
  lemma BuiltDistinct<A, K(!new), V>(key: A -> K, value: A -> V, xs: seq<A>)
    requires NoRepeat(Map(key, xs))
    ensures var r := FromItems<A, K, V>(Empty(), key, value, xs);
            Valid(r) && r.keys == Map(key, xs) && |r.values| == |xs|
  {
    Built(key, value, xs);
    DistinctKeeps(Map(key, xs));
    DictSize(FromItems<A, K, V>(Empty(), key, value, xs));
  }
}
