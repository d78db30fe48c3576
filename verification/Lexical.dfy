/** Lexicographic order on text: Python's `<` on str and SQLite's BINARY collation over ASCII. */
module Lexical {

  predicate Before(a: string, b: string)
  {
    b != "" && (a == "" || a[0] < b[0] || (a[0] == b[0] && Before(a[1..], b[1..])))
  }

  lemma {:induction false} BeforeIrreflexive(a: string)
    ensures !Before(a, a)
  {
    if a != "" { BeforeIrreflexive(a[1..]); }
  }

  lemma {:induction false} BeforeTransitive(a: string, b: string, c: string)
    requires Before(a, b) && Before(b, c)
    ensures Before(a, c)
  {
    if a != "" && a[0] == b[0] && b[0] == c[0] { BeforeTransitive(a[1..], b[1..], c[1..]); }
  }

  lemma {:induction false} BeforeTotal(a: string, b: string)
    ensures a == b || Before(a, b) || Before(b, a)
  {
    if a != "" && b != "" && a[0] == b[0] {
      BeforeTotal(a[1..], b[1..]);
      assert a == [a[0]] + a[1..] && b == [b[0]] + b[1..];
    }
  }

  /** Texts that agree on a prefix compare by what follows it. */
  lemma {:induction false} BeforeAfterPrefix(p: string, a: string, b: string)
    ensures Before(p + a, p + b) <==> Before(a, b)
  {
    if p == "" {
      assert p + a == a && p + b == b;
    } else {
      assert (p + a)[1..] == p[1..] + a && (p + b)[1..] == p[1..] + b;
      BeforeAfterPrefix(p[1..], a, b);
    }
  }

  /** Texts of equal length that differ compare by themselves, whatever follows. */
  lemma {:induction false} BeforeIgnoresRest(a: string, b: string, x: string, y: string)
    requires |a| == |b| && a != b
    ensures Before(a + x, b + y) <==> Before(a, b)
  {
    assert (a + x)[1..] == a[1..] + x && (b + y)[1..] == b[1..] + y;
    if a[0] == b[0] {
      assert a == [a[0]] + a[1..] && b == [b[0]] + b[1..];
      BeforeIgnoresRest(a[1..], b[1..], x, y);
    }
  }

  // ---- Sorting a set of texts ----

  predicate IsFirst(x: string, s: set<string>)
  {
    x in s && forall y :: y in s ==> y == x || Before(x, y)
  }

  lemma {:induction false} FirstExists(s: set<string>)
    requires s != {}
    ensures exists x :: IsFirst(x, s)
  {
    var x :| x in s;
    var rest := s - {x};
    if rest == {} {
      assert s == {x};
      assert IsFirst(x, s);
    } else {
      FirstExists(rest);
      var y :| IsFirst(y, rest);
      BeforeTotal(x, y);
      if Before(y, x) {
        assert IsFirst(y, s);
      } else {
        forall z | z in rest ensures Before(x, z) {
          if z != y { BeforeTransitive(x, y, z); }
        }
        assert IsFirst(x, s);
      }
    }
  }

  lemma FirstUnique(x: string, y: string, s: set<string>)
    requires IsFirst(x, s) && IsFirst(y, s)
    ensures x == y
  {
    if x != y {
      BeforeTransitive(x, y, x);
      BeforeIrreflexive(x);
    }
  }

  /** `sorted(keys)`. */
  function Sorted(s: set<string>): (r: seq<string>)
    ensures |r| == |s| && (forall x :: x in r <==> x in s)
    ensures forall i, j :: 0 <= i < j < |r| ==> Before(r[i], r[j])
  {
    if s == {} then []
    else
      FirstExists(s);
      assert forall x, y :: IsFirst(x, s) && IsFirst(y, s) ==> x == y by {
        forall x, y | IsFirst(x, s) && IsFirst(y, s) ensures x == y { FirstUnique(x, y, s); }
      }
      var x :| IsFirst(x, s);
      var rest := Sorted(s - {x});
      assert forall j :: 0 <= j < |rest| ==> rest[j] in rest;
      [x] + rest
  }
}
