/** List comprehensions and `sorted(key=...)` over sequences. */
module Lists {
  import opened Prelude

  function Map<A, B>(f: A -> B, xs: seq<A>): (r: seq<B>)
    ensures |r| == |xs| && forall i :: 0 <= i < |r| ==> r[i] == f(xs[i])
  {
    if xs == [] then [] else [f(xs[0])] + Map(f, xs[1..])
  }

  lemma MapIs<A, B>(f: A -> B, xs: seq<A>, ys: seq<B>)
    requires |xs| == |ys| && forall i :: 0 <= i < |xs| ==> f(xs[i]) == ys[i]
    ensures Map(f, xs) == ys
  {
  }

  /** One step of a loop that collects the images. */
  lemma MapStep<A, B>(f: A -> B, xs: seq<A>, i: nat, done: seq<B>, all: seq<B>)
    requires i < |xs| && done + Map(f, xs[i..]) == all
    ensures done + [f(xs[i])] + Map(f, xs[i + 1..]) == all
  {
    assert xs[i..][1..] == xs[i + 1..];
    assert done + [f(xs[i])] + Map(f, xs[i + 1..]) == done + ([f(xs[i])] + Map(f, xs[i + 1..]));
  }

  function Filter<A>(p: A -> bool, xs: seq<A>): (r: seq<A>)
  {
    if xs == [] then [] else (if p(xs[0]) then [xs[0]] else []) + Filter(p, xs[1..])
  }

  /** `[f(x) for x in xs]` where `f` may raise. */
  function Traverse<A, B>(f: A -> Option<B>, xs: seq<A>): Option<seq<B>>
  {
    if xs == [] then Some([])
    else
      var first, rest := f(xs[0]), Traverse(f, xs[1..]);
      if first.None? || rest.None? then None else Some([first.value] + rest.value)
  }

  lemma {:induction false} FilterKeeps<A>(p: A -> bool, xs: seq<A>)
    ensures forall i :: 0 <= i < |Filter(p, xs)| ==> Filter(p, xs)[i] in xs && p(Filter(p, xs)[i])
  {
    if xs != [] {
      FilterKeeps(p, xs[1..]);
      var r, rest := Filter(p, xs), Filter(p, xs[1..]);
      forall i | 0 <= i < |r| ensures r[i] in xs && p(r[i]) {
        var k := if p(xs[0]) then i - 1 else i;
        if k >= 0 { assert r[i] == rest[k]; }
      }
    }
  }

  lemma {:induction false} FilterHas<T>(p: T -> bool, xs: seq<T>, x: T)
    ensures x in Filter(p, xs) <==> x in xs && p(x)
  {
    if xs != [] {
      FilterHas(p, xs[1..], x);
      assert x in xs <==> x == xs[0] || x in xs[1..];
    }
  }

  /** Filtering twice is filtering by both tests. */
  lemma {:induction false} FilterTwice<A>(p: A -> bool, q: A -> bool, both: A -> bool, xs: seq<A>)
    requires forall i :: 0 <= i < |xs| ==> (both(xs[i]) <==> p(xs[i]) && q(xs[i]))
    ensures Filter(q, Filter(p, xs)) == Filter(both, xs)
  {
    if xs != [] {
      var rest := Filter(p, xs[1..]);
      FilterTwice(p, q, both, xs[1..]);
      assert both(xs[0]) <==> p(xs[0]) && q(xs[0]);
      assert ([xs[0]] + rest)[1..] == rest && [] + rest == rest;
    }
  }

  /** Tests that split a third one split its count. */
  lemma {:induction false} FilterSplit<A>(p: A -> bool, q: A -> bool, whole: A -> bool, xs: seq<A>)
    requires forall i :: 0 <= i < |xs| ==> (whole(xs[i]) <==> p(xs[i]) || q(xs[i])) && !(p(xs[i]) && q(xs[i]))
    ensures |Filter(p, xs)| + |Filter(q, xs)| == |Filter(whole, xs)|
  {
    if xs != [] {
      FilterSplit(p, q, whole, xs[1..]);
      assert whole(xs[0]) <==> p(xs[0]) || q(xs[0]);
    }
  }

  lemma {:induction false} FilterConcat<A>(p: A -> bool, xs: seq<A>, ys: seq<A>)
    ensures Filter(p, xs + ys) == Filter(p, xs) + Filter(p, ys)
  {
    if xs == [] {
      assert xs + ys == ys;
    } else {
      var first := if p(xs[0]) then [xs[0]] else [];
      assert (xs + ys)[1..] == xs[1..] + ys;
      FilterConcat(p, xs[1..], ys);
      assert first + (Filter(p, xs[1..]) + Filter(p, ys)) == first + Filter(p, xs[1..]) + Filter(p, ys);
    }
  }

  lemma {:induction false} FilterSame<A>(p: A -> bool, q: A -> bool, xs: seq<A>)
    requires forall i :: 0 <= i < |xs| ==> (p(xs[i]) <==> q(xs[i]))
    ensures Filter(p, xs) == Filter(q, xs)
  {
    if xs != [] { FilterSame(p, q, xs[1..]); }
  }

  lemma {:induction false} FilterNothing<A>(p: A -> bool, xs: seq<A>)
    requires forall i :: 0 <= i < |xs| ==> !p(xs[i])
    ensures Filter(p, xs) == []
  {
    if xs != [] { FilterNothing(p, xs[1..]); }
  }

  lemma {:induction false} FilterAll<A>(p: A -> bool, xs: seq<A>)
    requires forall i :: 0 <= i < |xs| ==> p(xs[i])
    ensures Filter(p, xs) == xs
  {
    if xs != [] {
      FilterAll(p, xs[1..]);
      assert xs == [xs[0]] + xs[1..];
    }
  }

  /** Lists that pass their tests at the same places have as many passing elements. */
  lemma {:induction false} FilterAligned<A, B>(p: A -> bool, q: B -> bool, xs: seq<A>, ys: seq<B>)
    requires |xs| == |ys| && forall i :: 0 <= i < |xs| ==> (p(xs[i]) <==> q(ys[i]))
    ensures |Filter(p, xs)| == |Filter(q, ys)|
  {
    if xs != [] {
      FilterAligned(p, q, xs[1..], ys[1..]);
      assert p(xs[0]) <==> q(ys[0]);
    }
  }

  /** One step of a loop that collects the elements passing `p`. */
  lemma FilterStep<A>(p: A -> bool, xs: seq<A>, i: nat, done: seq<A>, all: seq<A>)
    requires i < |xs| && done + Filter(p, xs[i..]) == all
    ensures (if p(xs[i]) then done + [xs[i]] else done) + Filter(p, xs[i + 1..]) == all
  {
    assert xs[i..][1..] == xs[i + 1..];
  }

  /** Filtering images is filtering, then taking images. */
  lemma {:induction false} FilterMap<A, B>(f: A -> B, p: A -> bool, q: B -> bool, xs: seq<A>)
    requires forall i :: 0 <= i < |xs| ==> (q(f(xs[i])) <==> p(xs[i]))
    ensures Filter(q, Map(f, xs)) == Map(f, Filter(p, xs))
  {
    if xs != [] {
      assert Map(f, xs)[1..] == Map(f, xs[1..]);
      FilterMap(f, p, q, xs[1..]);
      assert q(f(xs[0])) <==> p(xs[0]);
      var rest := Filter(p, xs[1..]);
      assert ([xs[0]] + rest)[1..] == rest;
      assert [] + rest == rest;
    }
  }

  lemma {:induction false} TraverseMap<A, B, C>(g: A -> B, f: B -> Option<C>, h: A -> C, xs: seq<A>)
    requires forall i :: 0 <= i < |xs| ==> f(g(xs[i])) == Some(h(xs[i]))
    ensures Traverse(f, Map(g, xs)) == Some(Map(h, xs))
  {
    if xs != [] {
      assert Map(g, xs)[1..] == Map(g, xs[1..]);
      TraverseMap(g, f, h, xs[1..]);
      assert f(g(xs[0])) == Some(h(xs[0]));
    }
  }

  // ---- Stable sorting by an integer key ----

  /** Put `x` before the first element whose key is not smaller. */
  function Insert<A>(key: A -> int, x: A, xs: seq<A>): seq<A>
  {
    if xs == [] || key(x) <= key(xs[0]) then [x] + xs else [xs[0]] + Insert(key, x, xs[1..])
  }

  /** `sorted(xs, key=key)`. */
  function SortBy<A>(key: A -> int, xs: seq<A>): seq<A>
  {
    if xs == [] then [] else Insert(key, xs[0], SortBy(key, xs[1..]))
  }

  predicate InOrder<A>(key: A -> int, xs: seq<A>)
  {
    forall i, j :: 0 <= i < j < |xs| ==> key(xs[i]) <= key(xs[j])
  }

  lemma {:induction false} InsertAdds<A>(key: A -> int, x: A, xs: seq<A>)
    ensures multiset(Insert(key, x, xs)) == multiset{x} + multiset(xs)
  {
    if xs != [] && key(x) > key(xs[0]) {
      InsertAdds(key, x, xs[1..]);
      assert xs == [xs[0]] + xs[1..];
    }
  }

  lemma {:induction false} InsertSorts<A>(key: A -> int, x: A, xs: seq<A>)
    requires InOrder(key, xs)
    ensures InOrder(key, Insert(key, x, xs))
  {
    if xs != [] && key(x) > key(xs[0]) {
      var rest := Insert(key, x, xs[1..]);
      InsertSorts(key, x, xs[1..]);
      InsertAdds(key, x, xs[1..]);
      forall i | 0 <= i < |rest| ensures key(xs[0]) <= key(rest[i]) {
        assert rest[i] in multiset(rest);
        assert rest[i] == x || rest[i] in xs[1..];
      }
    }
  }

  lemma {:induction false} InsertKeepsTies<A>(key: A -> int, x: A, xs: seq<A>, p: A -> bool)
    requires forall i, j :: 0 <= i < |xs| && 0 <= j < |xs| && p(xs[i]) && p(xs[j]) ==> key(xs[i]) == key(xs[j])
    requires forall i :: 0 <= i < |xs| && p(xs[i]) && p(x) ==> key(xs[i]) == key(x)
    ensures Filter(p, Insert(key, x, xs)) == Filter(p, [x] + xs)
  {
    if xs != [] && key(x) > key(xs[0]) {
      InsertKeepsTies(key, x, xs[1..], p);
      var rest := Insert(key, x, xs[1..]);
      assert ([xs[0]] + rest)[1..] == rest && ([x] + xs)[1..] == xs && ([x] + xs[1..])[1..] == xs[1..];
    }
  }

  /** Sorting is a permutation into key order. */
  lemma {:induction false} SortSorts<A>(key: A -> int, xs: seq<A>)
    ensures InOrder(key, SortBy(key, xs)) && multiset(SortBy(key, xs)) == multiset(xs)
  {
    if xs != [] {
      SortSorts(key, xs[1..]);
      InsertSorts(key, xs[0], SortBy(key, xs[1..]));
      InsertAdds(key, xs[0], SortBy(key, xs[1..]));
      assert xs == [xs[0]] + xs[1..];
    }
  }

  /** Elements of one key keep their order. */
  lemma {:induction false} SortIsStable<A>(key: A -> int, xs: seq<A>, k: int)
    ensures Filter((x: A) => key(x) == k, SortBy(key, xs)) == Filter((x: A) => key(x) == k, xs)
  {
    if xs != [] {
      var p, rest := (x: A) => key(x) == k, SortBy(key, xs[1..]);
      SortIsStable(key, xs[1..], k);
      InsertKeepsTies(key, xs[0], rest, p);
      assert ([xs[0]] + rest)[1..] == rest;
    }
  }

  lemma {:induction false} SortedAlready<A>(key: A -> int, xs: seq<A>)
    requires InOrder(key, xs)
    ensures SortBy(key, xs) == xs
  {
    if xs != [] {
      SortedAlready(key, xs[1..]);
      assert xs == [xs[0]] + xs[1..];
    }
  }

  lemma {:induction false} MapInsert<A, B>(key: A -> int, f: A -> B, x: A, xs: seq<A>)
    ensures multiset(Map(f, Insert(key, x, xs))) == multiset{f(x)} + multiset(Map(f, xs))
  {
    if xs == [] || key(x) <= key(xs[0]) {
      assert Map(f, [x] + xs) == [f(x)] + Map(f, xs);
    } else {
      var rest := Insert(key, x, xs[1..]);
      MapInsert(key, f, x, xs[1..]);
      assert Map(f, [xs[0]] + rest) == [f(xs[0])] + Map(f, rest);
      assert Map(f, xs) == [f(xs[0])] + Map(f, xs[1..]);
    }
  }

  /** Sorting permutes images too. */
  lemma {:induction false} MapSort<A, B>(key: A -> int, f: A -> B, xs: seq<A>)
    ensures multiset(Map(f, SortBy(key, xs))) == multiset(Map(f, xs))
  {
    if xs != [] {
      MapSort(key, f, xs[1..]);
      MapInsert(key, f, xs[0], SortBy(key, xs[1..]));
      assert Map(f, xs) == [f(xs[0])] + Map(f, xs[1..]);
    }
  }

  lemma {:induction false} FilterInOrder<A>(key: A -> int, p: A -> bool, xs: seq<A>)
    requires InOrder(key, xs)
    ensures InOrder(key, Filter(p, xs))
  {
    if xs != [] {
      var rest := Filter(p, xs[1..]);
      FilterInOrder(key, p, xs[1..]);
      FilterKeeps(p, xs[1..]);
      forall i | 0 <= i < |rest| ensures key(xs[0]) <= key(rest[i]) { assert rest[i] in xs[1..]; }
    }
  }
}
