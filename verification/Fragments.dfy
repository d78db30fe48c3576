/**
 Merging the fragments of one gNMI value (`GnmiCollector._merge_fragment`).

 gNMI section 3.3 lets a target answer one path in several notifications. Merging is a
 partial operation: it either combines two values or fails. The lemmas show that it is
 idempotent, associative including where it fails, keeps every fact of both sides and adds
 none, and fails exactly when one place holds two irreconcilable values.
 */
module Fragments {
  import opened Prelude
  import opened Json
  import opened Lists

  /** None is the ValueError raised for values that cannot be reconciled. */
  function Merge(existing: Json, incoming: Json): Option<Json>
    decreases existing
  {
    if existing.Obj? && incoming.Obj? then
      if exists k :: k in existing.fields && k in incoming.fields && Merge(existing.fields[k], incoming.fields[k]).None? then None
      else Some(Obj(
        existing.order + Missing(StringEq, existing.order, incoming.order),
        map k | k in existing.fields.Keys + incoming.fields.Keys ::
          if k !in incoming.fields then existing.fields[k]
          else if k !in existing.fields then incoming.fields[k]
          else Merge(existing.fields[k], incoming.fields[k]).value))
    else if existing.Arr? && incoming.Arr? then
      Some(Arr(existing.items + Missing(PyEq, existing.items, incoming.items)))
    else if PyEq(existing, incoming) then Some(existing)
    else None
  }

  /** Merge lifted to values that may already have failed. */
  function MergeAll(existing: Option<Json>, incoming: Option<Json>): Option<Json>
  {
    if existing.None? || incoming.None? then None else Merge(existing.value, incoming.value)
  }

  lemma {:induction false} MergeIdempotent(a: Json)
    ensures Merge(a, a) == Some(a)
  {
    match a
    case Obj(order, fields) =>
      forall k | k in fields ensures Merge(fields[k], fields[k]) == Some(fields[k]) { MergeIdempotent(fields[k]); }
      forall i | 0 <= i < |order| ensures Has(StringEq, order, order[i]) { assert StringEq(order[i], order[i]); }
      MissingEmpty(StringEq, order, order);
      assert order + [] == order;
      assert Merge(a, a).value.fields == fields;
    case Arr(items) =>
      forall i | 0 <= i < |items| ensures Has(PyEq, items, items[i]) { PyEqReflexive(items[i]); }
      MissingEmpty(PyEq, items, items);
      assert items + [] == items;
    case _ =>
  }

  lemma {:induction false} MergeAssociative(a: Json, b: Json, c: Json)
    ensures MergeAll(Merge(a, b), Some(c)) == MergeAll(Some(a), Merge(b, c))
  {
    if a.Obj? && b.Obj? && c.Obj? {
      forall k | k in a.fields && k in b.fields && k in c.fields
        ensures MergeAll(Merge(a.fields[k], b.fields[k]), Some(c.fields[k]))
             == MergeAll(Some(a.fields[k]), Merge(b.fields[k], c.fields[k]))
      {
        MergeAssociative(a.fields[k], b.fields[k], c.fields[k]);
      }
      CombineAssociative(StringEq, a.order, b.order, c.order);
      ObjectsAssociate(a, b, c);
    } else if a.Arr? && b.Arr? && c.Arr? {
      PyEqIsPreorder();
      CombineAssociative(PyEq, a.items, b.items, c.items);
    }
  }

  lemma {:induction false} ObjectsAssociate(a: Json, b: Json, c: Json)
    requires a.Obj? && b.Obj? && c.Obj?
    requires forall k :: k in a.fields && k in b.fields && k in c.fields ==>
      MergeAll(Merge(a.fields[k], b.fields[k]), Some(c.fields[k])) == MergeAll(Some(a.fields[k]), Merge(b.fields[k], c.fields[k]))
    requires var ab := a.order + Missing(StringEq, a.order, b.order);
             var bc := b.order + Missing(StringEq, b.order, c.order);
             ab + Missing(StringEq, ab, c.order) == a.order + Missing(StringEq, a.order, bc)
    ensures MergeAll(Merge(a, b), Some(c)) == MergeAll(Some(a), Merge(b, c))
  {
    var left, right := MergeAll(Merge(a, b), Some(c)), MergeAll(Some(a), Merge(b, c));
    if left.Some? {
      var ab := Merge(a, b).value;
      forall k | k in b.fields && k in c.fields ensures Merge(b.fields[k], c.fields[k]).Some? {
        assert Merge(ab.fields[k], c.fields[k]).Some?;
      }
      var bc := Merge(b, c).value;
      forall k | k in a.fields && k in bc.fields ensures Merge(a.fields[k], bc.fields[k]).Some? {
        assert k in c.fields ==> Merge(ab.fields[k], c.fields[k]).Some?;
      }
      assert right.Some?;
      assert left.value.fields == right.value.fields;
    }
    if right.Some? {
      var bc := Merge(b, c).value;
      forall k | k in a.fields && k in b.fields ensures Merge(a.fields[k], b.fields[k]).Some? {
        assert Merge(a.fields[k], bc.fields[k]).Some?;
      }
      var ab := Merge(a, b).value;
      forall k | k in ab.fields && k in c.fields ensures Merge(ab.fields[k], c.fields[k]).Some? {
        assert k in a.fields ==> Merge(a.fields[k], bc.fields[k]).Some?;
      }
      assert left.Some?;
    }
  }

  /** A fragment merged again right after it was merged changes nothing. */
  lemma MergeAbsorbs(a: Json, b: Json)
    requires Merge(a, b).Some?
    ensures Merge(Merge(a, b).value, b) == Merge(a, b)
  {
    MergeAssociative(a, b, b);
    MergeIdempotent(b);
  }

  /** A value that already contains `f` still contains it after any further merge. */
  lemma {:induction false} MergeKeeps(m: Json, f: Json, g: Json)
    requires Merge(m, f) == Some(m) && Merge(m, g).Some?
    ensures Merge(Merge(m, g).value, f) == Merge(m, g)
  {
    var r := Merge(m, g).value;
    if m.Obj? && f.Obj? {
      forall k | k in f.fields ensures k in m.fields && Merge(r.fields[k], f.fields[k]) == Some(r.fields[k]) {
        assert k in Merge(m, f).value.fields;
        assert Merge(m.fields[k], f.fields[k]) == Some(Merge(m, f).value.fields[k]);
        if k in g.fields { MergeKeeps(m.fields[k], f.fields[k], g.fields[k]); }
      }
      assert |Missing(StringEq, m.order, f.order)| == |Merge(m, f).value.order| - |m.order| == 0;
      MissingNone(StringEq, m.order, f.order);
      CombineKeeps(StringEq, m.order, f.order, Missing(StringEq, m.order, g.order));
      assert r.order + [] == r.order;
      assert Merge(r, f).value.fields == r.fields;
    } else if m.Arr? && f.Arr? {
      PyEqIsPreorder();
      assert |Missing(PyEq, m.items, f.items)| == |Merge(m, f).value.items| - |m.items| == 0;
      MissingNone(PyEq, m.items, f.items);
      CombineKeeps(PyEq, m.items, f.items, Missing(PyEq, m.items, g.items));
      assert r.items + [] == r.items;
    }
  }

  lemma {:induction false} MissingNone<T>(eq: (T, T) -> bool, have: seq<T>, incoming: seq<T>)
    requires Missing(eq, have, incoming) == []
    ensures forall i :: 0 <= i < |incoming| ==> Has(eq, have, incoming[i])
  {
    if incoming != [] {
      MissingNone(eq, have, incoming[1..]);
      forall i | 0 <= i < |incoming| ensures Has(eq, have, incoming[i]) {
        if i > 0 { assert incoming[i] == incoming[1..][i - 1]; }
      }
    }
  }

  // ---- What a merge contains, and exactly when it fails ----

  /** The value at a path of object keys, if there is one. */
  function At(j: Json, path: seq<string>): Option<Json>
  {
    if path == [] then Some(j)
    else if j.Obj? && path[0] in j.fields then At(j.fields[path[0]], path[1..])
    else None
  }

  /** `j` states the leaf `v` at `path`, or lists an entry equal to `v` there. */
  predicate Says(j: Json, path: seq<string>, v: Json)
  {
    match At(j, path)
    case None => false
    case Some(Arr(items)) => Has(PyEq, items, v)
    case Some(Obj(_, _)) => false
    case Some(leaf) => leaf == v
  }

  predicate Irreconcilable(a: Json, b: Json)
  {
    !(a.Obj? && b.Obj?) && !(a.Arr? && b.Arr?) && !PyEq(a, b)
  }

  ghost predicate ClashAt(a: Json, b: Json, path: seq<string>)
  {
    At(a, path).Some? && At(b, path).Some? && Irreconcilable(At(a, path).value, At(b, path).value)
  }

  /** Every fact of either fragment reaches the result and nothing else does. */
  lemma {:induction false} MergeSaysBoth(a: Json, b: Json, path: seq<string>, v: Json)
    requires Merge(a, b).Some?
    ensures Says(Merge(a, b).value, path, v) <==> Says(a, path, v) || Says(b, path, v)
    decreases path
  {
    var m := Merge(a, b).value;
    if path == [] {
      if a.Arr? {
        PyEqIsPreorder();
        HasCombined(PyEq, a.items, b.items, v);
      }
    } else if a.Obj? && b.Obj? {
      var k := path[0];
      if k in a.fields && k in b.fields {
        MergeSaysBoth(a.fields[k], b.fields[k], path[1..], v);
        assert m.fields[k] == Merge(a.fields[k], b.fields[k]).value;
        assert At(m, path) == At(m.fields[k], path[1..]);
      }
    }
  }

  /** A merge fails exactly when some place holds two values that cannot be reconciled. */
  lemma {:induction false} MergeFailsExactly(a: Json, b: Json)
    ensures Merge(a, b).None? <==> exists path :: ClashAt(a, b, path)
  {
    if a.Obj? && b.Obj? {
      if Merge(a, b).None? {
        var k :| k in a.fields && k in b.fields && Merge(a.fields[k], b.fields[k]).None?;
        MergeFailsExactly(a.fields[k], b.fields[k]);
        var rest :| ClashAt(a.fields[k], b.fields[k], rest);
        var path := [k] + rest;
        assert path[1..] == rest;
        assert ClashAt(a, b, path);
      }
      if path :| ClashAt(a, b, path) {
        assert path != [];
        var k := path[0];
        MergeFailsExactly(a.fields[k], b.fields[k]);
        assert ClashAt(a.fields[k], b.fields[k], path[1..]);
      }
    } else {
      if Merge(a, b).None? {
        assert ClashAt(a, b, []);
      }
      if path :| ClashAt(a, b, path) {
        assert path == [];
      }
    }
  }

  // ---- Which leaf the error names ----

  /** A parsed object's insertion order lists its keys, at every level. */
  ghost predicate Listed(j: Json)
  {
    j.Obj? ==> forall k :: k in j.fields ==> k in j.order && Listed(j.fields[k])
  }

  /** Where the merge raises: it walks the incoming keys in order and stops at the first failure. */
  function RaisesAt(a: Json, b: Json): Option<seq<string>>
    decreases a, if b.Obj? then |b.order| + 1 else 0
  {
    if a.Obj? && b.Obj? then RaisesAmong(a, b, b.order)
    else if Irreconcilable(a, b) then Some([])
    else None
  }

  function RaisesAmong(a: Json, b: Json, order: seq<string>): Option<seq<string>>
    requires a.Obj? && b.Obj?
    decreases a, |order|
  {
    if order == [] then None
    else
      var k := order[0];
      var here := if k in a.fields && k in b.fields then RaisesAt(a.fields[k], b.fields[k]) else None;
      if here.Some? then Some([k] + here.value) else RaisesAmong(a, b, order[1..])
  }

  function IndexOf(order: seq<string>, k: string): nat
  {
    if order == [] || order[0] == k then 0 else 1 + IndexOf(order[1..], k)
  }

  /** In document order of `b`, place `p` comes before place `q`. */
  predicate Precedes(b: Json, p: seq<string>, q: seq<string>)
  {
    && b.Obj? && p != [] && q != []
    && if p[0] == q[0] then p[0] in b.fields && Precedes(b.fields[p[0]], p[1..], q[1..])
       else IndexOf(b.order, p[0]) < IndexOf(b.order, q[0])
  }

  /** The same with the remaining keys `order` at the top level. */
  predicate NotAfter(b: Json, order: seq<string>, p: seq<string>, q: seq<string>)
  {
    q == p ||
    (b.Obj? && p != [] && q != []
     && if p[0] == q[0] then p[0] in b.fields && Precedes(b.fields[p[0]], p[1..], q[1..])
        else IndexOf(order, p[0]) < IndexOf(order, q[0]))
  }

  /** The place `p` clashes, and every other clash comes later in document order. */
  ghost predicate FirstClash(a: Json, b: Json, p: seq<string>)
  {
    ClashAt(a, b, p) && forall q :: ClashAt(a, b, q) ==> q == p || Precedes(b, p, q)
  }

  /** The same among the clashes under the keys `order`. */
  ghost predicate FirstClashAmong(a: Json, b: Json, order: seq<string>, p: seq<string>)
  {
    ClashAt(a, b, p) && forall q :: ClashAt(a, b, q) && q != [] && q[0] in order ==> NotAfter(b, order, p, q)
  }

  lemma ClashBelow(a: Json, b: Json, k: string, q: seq<string>)
    requires a.Obj? && b.Obj?
    ensures ClashAt(a, b, [k] + q) <==> k in a.fields && k in b.fields && ClashAt(a.fields[k], b.fields[k], q)
  {
    assert ([k] + q)[1..] == q;
  }

  lemma ClashInside(a: Json, b: Json, q: seq<string>)
    requires a.Obj? && b.Obj? && ClashAt(a, b, q)
    ensures q != [] && q == [q[0]] + q[1..] && q[0] in a.fields && q[0] in b.fields && ClashAt(a.fields[q[0]], b.fields[q[0]], q[1..])
  {
    ClashBelow(a, b, q[0], q[1..]);
  }

  /** A clash under the first key is the first of all. */
  lemma FirstHere(a: Json, b: Json, order: seq<string>, p: seq<string>)
    requires a.Obj? && b.Obj? && order != [] && order[0] in a.fields && order[0] in b.fields
    requires FirstClash(a.fields[order[0]], b.fields[order[0]], p)
    ensures FirstClashAmong(a, b, order, [order[0]] + p)
  {
    var k := order[0];
    var here := [k] + p;
    assert here[1..] == p;
    ClashBelow(a, b, k, p);
    forall q | ClashAt(a, b, q) && q != [] && q[0] in order ensures NotAfter(b, order, here, q) { ClashInside(a, b, q); }
  }

  /** Without a clash under the first key, the first of the rest is the first. */
  lemma FirstLater(a: Json, b: Json, order: seq<string>, p: seq<string>)
    requires a.Obj? && b.Obj? && order != [] && FirstClashAmong(a, b, order[1..], p)
    requires forall q :: ClashAt(a, b, q) && q != [] ==> q[0] != order[0]
    ensures FirstClashAmong(a, b, order, p)
  {
    ClashInside(a, b, p);
    forall q | ClashAt(a, b, q) && q != [] && q[0] in order ensures NotAfter(b, order, p, q) {
      assert q[0] in order[1..] && NotAfter(b, order[1..], p, q);
      assert p[0] != order[0] && q[0] != order[0];
    }
  }

  lemma {:induction false} FirstAmong(a: Json, b: Json, order: seq<string>)
    requires Listed(b) && a.Obj? && b.Obj?
    ensures match RaisesAmong(a, b, order)
            case Some(p) => FirstClashAmong(a, b, order, p)
            case None => forall q :: ClashAt(a, b, q) && q != [] ==> q[0] !in order
    decreases a, 0, |order|
  {
    if order != [] {
      var k := order[0];
      if k in a.fields && k in b.fields { NamesFirstClash(a.fields[k], b.fields[k]); }
      if k in a.fields && k in b.fields && RaisesAt(a.fields[k], b.fields[k]).Some? {
        FirstHere(a, b, order, RaisesAt(a.fields[k], b.fields[k]).value);
      } else {
        forall q | ClashAt(a, b, q) && q != [] ensures q[0] != k { ClashInside(a, b, q); }
        FirstAmong(a, b, order[1..]);
        var later := RaisesAmong(a, b, order[1..]);
        if later.Some? { FirstLater(a, b, order, later.value); }
      }
    }
  }

  /** The error names the first clash in the order in which the incoming fragment lists its keys. */
  lemma {:induction false} NamesFirstClash(a: Json, b: Json)
    requires Listed(b)
    ensures match RaisesAt(a, b) case Some(p) => FirstClash(a, b, p) case None => Merge(a, b).Some?
    ensures RaisesAt(a, b).None? ==> forall q :: !ClashAt(a, b, q)
    decreases a, 1, 0
  {
    MergeFailsExactly(a, b);
    if a.Obj? && b.Obj? {
      FirstAmong(a, b, b.order);
      forall q | ClashAt(a, b, q) ensures q != [] && q[0] in b.order { ClashInside(a, b, q); }
      if RaisesAt(a, b).Some? { OverAllKeys(a, b, RaisesAt(a, b).value); }
    } else {
      forall q | ClashAt(a, b, q) ensures q == [] {}
    }
  }

  lemma OverAllKeys(a: Json, b: Json, p: seq<string>)
    requires Listed(b) && a.Obj? && b.Obj? && FirstClashAmong(a, b, b.order, p)
    ensures FirstClash(a, b, p)
  {
    forall q | ClashAt(a, b, q) ensures q == p || Precedes(b, p, q) {
      ClashInside(a, b, q);
      assert NotAfter(b, b.order, p, q);
    }
  }

  // ---- Order ----

  function NewTo(items: seq<Json>): Json -> bool { (entry: Json) => forall i :: 0 <= i < |items| ==> !PyEq(items[i], entry) }

  lemma {:induction false} MissingAreNew(have: seq<Json>, incoming: seq<Json>)
    ensures Missing(PyEq, have, incoming) == Filter(NewTo(have), incoming)
  {
    if incoming != [] { MissingAreNew(have, incoming[1..]); }
  }

  /** Lists are concatenated in arrival order: the collected entries, then the incoming ones equal to none of them. */
  lemma ListsKeepOrder(a: seq<Json>, b: seq<Json>)
    ensures Merge(Arr(a), Arr(b)) == Some(Arr(a + Filter(NewTo(a), b)))
  {
    MissingAreNew(a, b);
  }
}
