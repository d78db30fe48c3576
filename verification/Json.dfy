/**
 JSON values as the collector, adapter and diff see them after parsing.

 A Python dict remembers insertion order but compares without it, so an object holds its
 keys in insertion order next to the key/value map. `order` matters only to look-ups that
 take the first match (`GetLocal` in SrLinux.dfy).
 */
module Json {

  datatype Json =
    | Null
    | Bool(b: bool)
    | Num(n: int)
    | Str(s: string)
    | Arr(items: seq<Json>)
    | Obj(order: seq<string>, fields: map<string, Json>)

  /** Python's `==`: dicts compare by key and value, lists element by element. */
  predicate PyEq(a: Json, b: Json)
  {
    match (a, b)
    case (Arr(x), Arr(y)) => |x| == |y| && forall i :: 0 <= i < |x| ==> PyEq(x[i], y[i])
    case (Obj(_, f), Obj(_, g)) => f.Keys == g.Keys && forall k :: k in f ==> PyEq(f[k], g[k])
    case _ => a == b
  }

  lemma {:induction false} PyEqReflexive(a: Json)
    ensures PyEq(a, a)
  {
    match a
    case Arr(x) =>
      forall i | 0 <= i < |x| ensures PyEq(x[i], x[i]) { PyEqReflexive(x[i]); }
    case Obj(_, f) =>
      forall k | k in f ensures PyEq(f[k], f[k]) { PyEqReflexive(f[k]); }
    case _ =>
  }

  lemma {:induction false} PyEqTransitive(a: Json, b: Json, c: Json)
    requires PyEq(a, b) && PyEq(b, c)
    ensures PyEq(a, c)
  {
    match a
    case Arr(x) =>
      forall i | 0 <= i < |x| ensures PyEq(x[i], c.items[i]) { PyEqTransitive(x[i], b.items[i], c.items[i]); }
    case Obj(_, f) =>
      forall k | k in f ensures PyEq(f[k], c.fields[k]) { PyEqTransitive(f[k], b.fields[k], c.fields[k]); }
    case _ =>
  }

  predicate StringEq(a: string, b: string) { a == b }

  /** Python's `e in xs` under the equality `eq`. */
  predicate Has<T>(eq: (T, T) -> bool, xs: seq<T>, e: T)
  {
    exists i :: 0 <= i < |xs| && eq(xs[i], e)
  }

  /** `[e for e in incoming if e not in have]`. */
  function Missing<T>(eq: (T, T) -> bool, have: seq<T>, incoming: seq<T>): seq<T>
  {
    if incoming == [] then []
    else (if Has(eq, have, incoming[0]) then [] else [incoming[0]]) + Missing(eq, have, incoming[1..])
  }

  ghost predicate Reflexive<T(!new)>(eq: (T, T) -> bool) { forall a :: eq(a, a) }

  ghost predicate Transitive<T(!new)>(eq: (T, T) -> bool)
  {
    forall a, b, c :: eq(a, b) && eq(b, c) ==> eq(a, c)
  }

  lemma PyEqIsPreorder()
    ensures Reflexive(PyEq) && Transitive(PyEq)
  {
    forall a ensures PyEq(a, a) { PyEqReflexive(a); }
    forall a, b, c | PyEq(a, b) && PyEq(b, c) ensures PyEq(a, c) { PyEqTransitive(a, b, c); }
  }

  lemma HasConcat<T>(eq: (T, T) -> bool, xs: seq<T>, ys: seq<T>, e: T)
    ensures Has(eq, xs + ys, e) <==> Has(eq, xs, e) || Has(eq, ys, e)
  {
    if Has(eq, xs, e) {
      var i :| 0 <= i < |xs| && eq(xs[i], e);
      assert (xs + ys)[i] == xs[i];
    }
    if Has(eq, ys, e) {
      var i :| 0 <= i < |ys| && eq(ys[i], e);
      assert (xs + ys)[|xs| + i] == ys[i];
    }
  }

  lemma {:induction false} MissingConcat<T>(eq: (T, T) -> bool, have: seq<T>, xs: seq<T>, ys: seq<T>)
    ensures Missing(eq, have, xs + ys) == Missing(eq, have, xs) + Missing(eq, have, ys)
  {
    if xs == [] {
      assert xs + ys == ys;
    } else {
      assert (xs + ys)[1..] == xs[1..] + ys;
      MissingConcat(eq, have, xs[1..], ys);
    }
  }

  lemma {:induction false} MissingEmpty<T>(eq: (T, T) -> bool, have: seq<T>, incoming: seq<T>)
    requires forall i :: 0 <= i < |incoming| ==> Has(eq, have, incoming[i])
    ensures Missing(eq, have, incoming) == []
  {
    if incoming != [] {
      MissingEmpty(eq, have, incoming[1..]);
    }
  }

  /** Nothing is lost and nothing appears: `have` plus what it missed covers exactly both sides. */
  lemma {:induction false} HasCombined<T(!new)>(eq: (T, T) -> bool, have: seq<T>, incoming: seq<T>, e: T)
    requires Transitive(eq)
    ensures Has(eq, have + Missing(eq, have, incoming), e) <==> Has(eq, have, e) || Has(eq, incoming, e)
  {
    HasConcat(eq, have, Missing(eq, have, incoming), e);
    if incoming != [] {
      var head, tail := incoming[0], incoming[1..];
      assert incoming == [head] + tail;
      HasConcat(eq, [head], tail, e);
      HasCombined(eq, have, tail, e);
      HasConcat(eq, have, Missing(eq, have, tail), e);
      HasConcat(eq, [head], Missing(eq, have, tail), e);
      assert Has(eq, [head], e) <==> eq([head][0], e);
      if Has(eq, have, head) {
        assert Missing(eq, have, incoming) == Missing(eq, have, tail);
      } else {
        assert Missing(eq, have, incoming) == [head] + Missing(eq, have, tail);
      }
    }
  }

  lemma {:induction false} MissingTwice<T(!new)>(eq: (T, T) -> bool, a: seq<T>, b: seq<T>, c: seq<T>)
    requires Transitive(eq)
    ensures Missing(eq, a + Missing(eq, a, b), c) == Missing(eq, a, Missing(eq, b, c))
  {
    if c != [] {
      MissingTwice(eq, a, b, c[1..]);
      HasCombined(eq, a, b, c[0]);
      var kept := if Has(eq, b, c[0]) then [] else [c[0]];
      MissingConcat(eq, a, kept, Missing(eq, b, c[1..]));
      assert Missing(eq, a, Missing(eq, b, c)) == Missing(eq, a, kept) + Missing(eq, a, Missing(eq, b, c[1..]));
    }
  }

  /** Appending only what is missing is associative. */
  lemma CombineAssociative<T(!new)>(eq: (T, T) -> bool, a: seq<T>, b: seq<T>, c: seq<T>)
    requires Transitive(eq)
    ensures var ab := a + Missing(eq, a, b);
            var bc := b + Missing(eq, b, c);
            ab + Missing(eq, ab, c) == a + Missing(eq, a, bc)
  {
    MissingTwice(eq, a, b, c);
    MissingConcat(eq, a, b, Missing(eq, b, c));
  }

  /** Elements already present stay present, so re-adding them later adds nothing. */
  lemma CombineKeeps<T(!new)>(eq: (T, T) -> bool, have: seq<T>, old_: seq<T>, later: seq<T>)
    requires Transitive(eq)
    requires forall i :: 0 <= i < |old_| ==> Has(eq, have, old_[i])
    ensures Missing(eq, have + later, old_) == []
  {
    forall i | 0 <= i < |old_| ensures Has(eq, have + later, old_[i]) {
      HasConcat(eq, have, later, old_[i]);
    }
    MissingEmpty(eq, have + later, old_);
  }
}
