/**
 Path normalisation (`GnmiCollector._normalize_path`): split at top-level `/`, strip one
 `module:` prefix per element, anchor at `/`.
 */
module Paths {
  import opened Prelude

  // ---- Splitting ----

  function DepthAfter(c: char, depth: int): int
  {
    if c == '[' then depth + 1 else if c == ']' then depth - 1 else depth
  }

  /** The text between separators, where a `/` separates only at bracket depth zero. */
  function Pieces(s: string, depth: int): (r: seq<string>)
    ensures |r| >= 1
  {
    if s == "" then [""]
    else if s[0] == '/' && depth == 0 then [""] + Pieces(s[1..], 0)
    else var rest := Pieces(s[1..], DepthAfter(s[0], depth)); Onto(s[..1], rest)
  }

  /** Glue pending text onto the first of the pieces that follow it. */
  function Onto(pending: string, pieces: seq<string>): (r: seq<string>)
    requires |pieces| >= 1
    ensures |r| == |pieces|
  {
    [pending + pieces[0]] + pieces[1..]
  }

  // ---- Stripping module prefixes ----

  /** `[\w.-]`, over ASCII. */
  predicate NameChar(c: char)
  {
    'a' <= c <= 'z' || 'A' <= c <= 'Z' || '0' <= c <= '9' || c == '_' || c == '.' || c == '-'
  }

  /** Length of the longest prefix made of name characters. */
  function NameRun(s: string): (n: nat)
    ensures n <= |s| && (n < |s| ==> !NameChar(s[n])) && forall i :: 0 <= i < n ==> NameChar(s[i])
  {
    if s != "" && NameChar(s[0]) then 1 + NameRun(s[1..]) else 0
  }

  predicate Prefixed(el: string)
  {
    var n := NameRun(el); 0 < n < |el| && el[n] == ':'
  }

  /** `re.sub(r"^[\w.-]+:", "", el, count=1)`. */
  function StripModule(el: string): (r: string)
    ensures r == el <==> !Prefixed(el)
  {
    if Prefixed(el) then el[NameRun(el) + 1..] else el
  }

  function NonEmpty(els: seq<string>): (r: seq<string>)
    ensures |r| <= |els| && (|r| == |els| ==> r == els)
  {
    if els == [] then [] else (if els[0] == "" then [] else [els[0]]) + NonEmpty(els[1..])
  }

  function StripAll(els: seq<string>): (r: seq<string>)
    ensures |r| == |els| && forall i :: 0 <= i < |els| ==> r[i] == StripModule(els[i])
  {
    seq(|els|, i requires 0 <= i < |els| => StripModule(els[i]))
  }

  /** `"/".join(els)`. */
  function Join(els: seq<string>): string
  {
    if els == [] then "" else if |els| == 1 then els[0] else els[0] + "/" + Join(els[1..])
  }

  /** The path elements left after splitting, dropping empty ones and stripping prefixes. */
  function Elements(path: string): seq<string>
  {
    StripAll(NonEmpty(Pieces(path, 0)))
  }

  function Normalized(path: Option<string>): string
  {
    if path.None? || path.value == "" || path.value == "/" then "/" else "/" + Join(Elements(path.value))
  }

  method NormalizePath(path: Option<string>) returns (r: string)
    ensures r == Normalized(path)
  {
    if path.None? || path.value == "" || path.value == "/" {
      return "/";
    }
    var text := path.value;
    var elements: seq<string>, depth, start := [], 0, 0;
    ScanStarts(text);
    for i := 0 to |text|
      invariant 0 <= start <= i
      invariant Scan(text, elements, start, i, depth) == Pieces(text, 0)
    {
      ScanStep(text, elements, start, i, depth);
      if text[i] == '[' {
        depth := depth + 1;
      } else if text[i] == ']' {
        depth := depth - 1;
      } else if text[i] == '/' && depth == 0 {
        elements := elements + [text[start..i]];
        start := i + 1;
      }
    }
    ScanEnds(text, elements, start, depth);
    elements := elements + [text[start..]];
    r := "/" + Join(StripAll(NonEmpty(elements)));
  }

  /** All pieces, given those already cut, the pending text and what is still unread. */
  ghost function Scan(text: string, elements: seq<string>, start: nat, i: nat, depth: int): seq<string>
    requires start <= i <= |text|
  {
    elements + Onto(text[start..i], Pieces(text[i..], depth))
  }

  lemma ScanStarts(text: string)
    ensures Scan(text, [], 0, 0, 0) == Pieces(text, 0)
  {
    assert text[0..0] == "" && text[0..] == text;
    OntoNothing(Pieces(text, 0));
  }

  /** One character of the scan: a separator closes the pending piece, anything else extends it. */
  lemma ScanStep(text: string, elements: seq<string>, start: nat, i: nat, depth: int)
    requires start <= i < |text|
    ensures Scan(text, elements, start, i, depth) ==
            if text[i] == '/' && depth == 0
            then Scan(text, elements + [text[start..i]], i + 1, i + 1, 0)
            else Scan(text, elements, start, i + 1, DepthAfter(text[i], depth))
  {
    var pending, later := text[start..i], Pieces(text[i + 1..], DepthAfter(text[i], depth));
    assert text[i..][1..] == text[i + 1..] && text[i..][..1] == [text[i]];
    if text[i] == '/' && depth == 0 {
      OntoNothing(later);
      assert text[i + 1..i + 1] == "";
      assert pending + "" == pending && ([""] + later)[1..] == later;
      assert Pieces(text[i..], depth) == [""] + later;
    } else {
      OntoTwice(pending, [text[i]], later);
      assert text[start..i + 1] == pending + [text[i]];
    }
  }

  lemma ScanEnds(text: string, elements: seq<string>, start: nat, depth: int)
    requires start <= |text|
    ensures Scan(text, elements, start, |text|, depth) == elements + [text[start..]]
  {
    assert text[|text|..] == "" && text[start..|text|] + "" == text[start..];
  }

  lemma OntoNothing(pieces: seq<string>)
    requires |pieces| >= 1
    ensures Onto("", pieces) == pieces
  {
    assert "" + pieces[0] == pieces[0];
  }

  lemma OntoTwice(a: string, b: string, pieces: seq<string>)
    requires |pieces| >= 1
    ensures Onto(a, Onto(b, pieces)) == Onto(a + b, pieces)
  {
    assert a + (b + pieces[0]) == (a + b) + pieces[0];
  }

  // ---- Canonical spelling ----

  /** Balanced text with every `/` inside brackets: one whole path element. */
  predicate Plain(s: string, depth: int)
  {
    if s == "" then depth == 0
    else !(s[0] == '/' && depth == 0) && Plain(s[1..], DepthAfter(s[0], depth))
  }

  lemma {:induction false} PlainStaysWhole(e: string, depth: int, rest: string)
    requires Plain(e, depth)
    ensures Pieces(e + rest, depth) == Onto(e, Pieces(rest, 0))
  {
    if e == "" {
      assert e + rest == rest;
      OntoNothing(Pieces(rest, 0));
    } else {
      assert (e + rest)[1..] == e[1..] + rest && (e + rest)[..1] == e[..1];
      PlainStaysWhole(e[1..], DepthAfter(e[0], depth), rest);
      OntoTwice(e[..1], e[1..], Pieces(rest, 0));
      assert e[..1] + e[1..] == e;
    }
  }

  /** A name prefix changes neither the depth nor the splitting. */
  lemma {:induction false} PlainUnderPrefix(prefix: string, e: string, depth: int)
    requires forall i :: 0 <= i < |prefix| ==> NameChar(prefix[i]) || prefix[i] == ':'
    ensures Plain(prefix + e, depth) <==> Plain(e, depth)
  {
    if prefix == "" {
      assert prefix + e == e;
    } else {
      assert (prefix + e)[1..] == prefix[1..] + e;
      PlainUnderPrefix(prefix[1..], e, depth);
    }
  }

  lemma {:induction false} NameRunOf(name: string, rest: string)
    requires forall i :: 0 <= i < |name| ==> NameChar(name[i])
    requires rest != "" && !NameChar(rest[0])
    ensures NameRun(name + rest) == |name|
  {
    if name == "" {
      assert name + rest == rest;
    } else {
      assert (name + rest)[1..] == name[1..] + rest;
      NameRunOf(name[1..], rest);
    }
  }

  /**
   One element as a device may spell it: an optional module name, the element itself, and
   the number of separators that follow.
   */
  datatype Spelled = Spelled(moduleName: string, element: string, separators: nat)

  function Slashes(n: nat): string { seq(n, _ => '/') }

  function SpelledElement(s: Spelled): string
  {
    (if s.moduleName == "" then "" else s.moduleName + ":") + s.element
  }

  function Spell(steps: seq<Spelled>): string
  {
    if steps == [] then "" else SpelledElement(steps[0]) + Slashes(steps[0].separators) + Spell(steps[1..])
  }

  predicate LegalSpelling(steps: seq<Spelled>)
  {
    forall i :: 0 <= i < |steps| ==>
      && steps[i].element != "" && Plain(steps[i].element, 0) && !Prefixed(steps[i].element)
      && (forall k :: 0 <= k < |steps[i].moduleName| ==> NameChar(steps[i].moduleName[k]))
      && (i + 1 < |steps| ==> steps[i].separators >= 1)
  }

  function CanonicalElements(steps: seq<Spelled>): (r: seq<string>)
    ensures |r| == |steps| && forall i :: 0 <= i < |steps| ==> r[i] == steps[i].element
  {
    seq(|steps|, i requires 0 <= i < |steps| => steps[i].element)
  }

  lemma {:induction false} SlashesVanish(n: nat, rest: string)
    ensures NonEmpty(Pieces(Slashes(n) + rest, 0)) == NonEmpty(Pieces(rest, 0))
  {
    if n == 0 {
      assert Slashes(n) + rest == rest;
    } else {
      assert (Slashes(n) + rest)[1..] == Slashes(n - 1) + rest;
      SlashesVanish(n - 1, rest);
      assert ([""] + Pieces(Slashes(n - 1) + rest, 0))[1..] == Pieces(Slashes(n - 1) + rest, 0);
    }
  }

  /** A module name and a colon strip off whatever plain text follows them. */
  lemma PrefixStrips(name: string, rest: string)
    requires name != "" && forall k :: 0 <= k < |name| ==> NameChar(name[k])
    requires Plain(rest, 0)
    ensures var el := name + ":" + rest; Prefixed(el) && StripModule(el) == rest && Plain(el, 0)
  {
    var el := name + ":" + rest;
    PlainUnderPrefix(name + ":", rest, 0);
    assert el == name + (":" + rest);
    NameRunOf(name, ":" + rest);
    assert el[|name| + 1..] == rest;
  }

  lemma SpelledElementStrips(s: Spelled)
    requires s.element != "" && Plain(s.element, 0) && !Prefixed(s.element)
    requires forall k :: 0 <= k < |s.moduleName| ==> NameChar(s.moduleName[k])
    ensures var e := SpelledElement(s); e != "" && Plain(e, 0) && StripModule(e) == s.element
  {
    if s.moduleName == "" {
      assert SpelledElement(s) == s.element;
    } else {
      PrefixStrips(s.moduleName, s.element);
    }
  }

  /** One element followed by its separators contributes exactly itself. */
  lemma ElementThenRest(e: string, separators: nat, rest: string)
    requires e != "" && Plain(e, 0) && (rest != "" ==> separators >= 1)
    ensures NonEmpty(Pieces(e + (Slashes(separators) + rest), 0)) == [e] + NonEmpty(Pieces(rest, 0))
  {
    var tail := Slashes(separators) + rest;
    PlainStaysWhole(e, 0, tail);
    var pieces := Pieces(tail, 0);
    SlashesVanish(separators, rest);
    assert pieces[0] == "" by {
      if separators > 0 { assert tail[0] == '/'; }
    }
    assert Onto(e, pieces)[1..] == pieces[1..];
    assert NonEmpty(pieces) == NonEmpty(pieces[1..]);
    assert e + "" == e;
  }

  function SpelledElements(steps: seq<Spelled>): seq<string>
  {
    if steps == [] then [] else [SpelledElement(steps[0])] + SpelledElements(steps[1..])
  }

  lemma RestIsLegal(steps: seq<Spelled>)
    requires LegalSpelling(steps) && steps != []
    ensures LegalSpelling(steps[1..]) && (Spell(steps[1..]) != "" ==> steps[0].separators >= 1)
  {
    var rest := steps[1..];
    assert forall i :: 0 <= i < |rest| ==> rest[i] == steps[i + 1];
    assert rest != [] ==> steps[0].separators >= 1;
  }

  lemma {:induction false} SpellingSplits(steps: seq<Spelled>)
    requires LegalSpelling(steps)
    ensures NonEmpty(Pieces(Spell(steps), 0)) == SpelledElements(steps)
  {
    if steps == [] {
      assert NonEmpty([""]) == [] + NonEmpty([""][1..]);
    } else {
      var s, rest := steps[0], steps[1..];
      SpelledElementStrips(s);
      RestIsLegal(steps);
      SpellingSplits(rest);
      ElementThenRest(SpelledElement(s), s.separators, Spell(rest));
      assert Spell(steps) == SpelledElement(s) + (Slashes(s.separators) + Spell(rest));
    }
  }

  lemma {:induction false} SpelledElementAt(steps: seq<Spelled>, i: nat)
    requires i < |steps|
    ensures |SpelledElements(steps)| == |steps| && SpelledElements(steps)[i] == SpelledElement(steps[i])
    decreases steps
  {
    if i > 0 {
      SpelledElementAt(steps[1..], i - 1);
    } else if |steps| > 1 {
      SpelledElementAt(steps[1..], 0);
    }
  }

  lemma SpelledElementsStrip(steps: seq<Spelled>)
    requires LegalSpelling(steps)
    ensures StripAll(SpelledElements(steps)) == CanonicalElements(steps)
  {
    var stripped, canonical := StripAll(SpelledElements(steps)), CanonicalElements(steps);
    if steps != [] { SpelledElementAt(steps, 0); }
    forall i | 0 <= i < |steps| ensures stripped[i] == canonical[i] {
      SpelledElementAt(steps, i);
      SpelledElementStrips(steps[i]);
    }
  }

  /**
   However a device spells a path (any subset of elements module-prefixed, separators dropped
   at the ends or repeated anywhere), it normalises to the elements joined at `/`, and that text
   is a fixed point. Each element, brackets included, is preserved.
   */
  lemma CanonicalPath(leading: nat, steps: seq<Spelled>)
    requires LegalSpelling(steps)
    ensures var canonical := "/" + Join(CanonicalElements(steps));
            Normalized(Some(Slashes(leading) + Spell(steps))) == canonical && Normalized(Some(canonical)) == canonical
  {
    var path := Slashes(leading) + Spell(steps);
    SlashesVanish(leading, Spell(steps));
    SpellingSplits(steps);
    SpelledElementsStrip(steps);
    RootIsEmpty(path);
    FixedWhenSettled(path);
  }

  lemma RootIsEmpty(path: string)
    ensures Normalized(Some(path)) == "/" + Join(Elements(path))
  {
    if path == "/" {
      assert path[1..] == "";
      assert Pieces(path, 0) == ["", ""];
      assert ["", ""][1..] == [""];
      assert NonEmpty(["", ""]) == [] + NonEmpty([""]);
      assert NonEmpty([""]) == [] + NonEmpty([""][1..]);
    } else if path == "" {
      assert NonEmpty([""]) == [] + NonEmpty([""][1..]);
    }
  }

  // ---- Exactly when normalising twice changes nothing ----

  /** Splitting at `/` leaves `s` in one piece. */
  predicate Whole(s: string, depth: int)
  {
    s == "" || (!(s[0] == '/' && depth == 0) && Whole(s[1..], DepthAfter(s[0], depth)))
  }

  /** Elements that survive being joined and split again: only the last may be unbalanced. */
  predicate SplitSafe(els: seq<string>)
  {
    els == [] || (if |els| == 1 then Whole(els[0], 0) else Plain(els[0], 0) && SplitSafe(els[1..]))
  }

  lemma {:induction false} PlainIsWhole(s: string, depth: int)
    requires Plain(s, depth)
    ensures Whole(s, depth)
  {
    if s != "" { PlainIsWhole(s[1..], DepthAfter(s[0], depth)); }
  }

  lemma {:induction false} WholeIsOnePiece(s: string, depth: int)
    requires Whole(s, depth)
    ensures Pieces(s, depth) == [s]
  {
    if s != "" {
      WholeIsOnePiece(s[1..], DepthAfter(s[0], depth));
      assert s[..1] + s[1..] == s;
    }
  }

  lemma {:induction false} JoinSplits(els: seq<string>)
    requires SplitSafe(els) && els != []
    ensures Pieces(Join(els), 0) == els
  {
    if |els| == 1 {
      WholeIsOnePiece(els[0], 0);
    } else {
      var tail := "/" + Join(els[1..]);
      assert Join(els) == els[0] + tail;
      PlainStaysWhole(els[0], 0, tail);
      assert tail[1..] == Join(els[1..]);
      JoinSplits(els[1..]);
      assert Pieces(tail, 0) == [""] + els[1..];
      assert els[0] + "" == els[0];
      assert Onto(els[0], [""] + els[1..]) == els;
    }
  }

  /** What splitting at depth `d` guarantees: every piece but the last ends balanced. */
  predicate SplitSafeFrom(pieces: seq<string>, depth: int)
    requires |pieces| >= 1
  {
    if |pieces| == 1 then Whole(pieces[0], depth) else Plain(pieces[0], depth) && SplitSafe(pieces[1..])
  }

  lemma {:induction false} PiecesSplitSafe(s: string, depth: int)
    ensures SplitSafeFrom(Pieces(s, depth), depth)
  {
    if s != "" {
      if s[0] == '/' && depth == 0 {
        PiecesSplitSafe(s[1..], 0);
        var rest := Pieces(s[1..], 0);
        assert ([""] + rest)[1..] == rest;
      } else {
        var d := DepthAfter(s[0], depth);
        PiecesSplitSafe(s[1..], d);
        var rest := Pieces(s[1..], d);
        var first := s[..1] + rest[0];
        assert first[0] == s[0] && first[1..] == rest[0];
        assert Onto(s[..1], rest)[1..] == rest[1..];
      }
    }
  }

  lemma {:induction false} NonEmptySplitSafe(els: seq<string>)
    requires SplitSafe(els)
    ensures SplitSafe(NonEmpty(els))
  {
    if els != [] {
      var rest := NonEmpty(els[1..]);
      if |els| > 1 { NonEmptySplitSafe(els[1..]); PlainIsWhole(els[0], 0); }
      if els[0] == "" {
        assert NonEmpty(els) == rest;
      } else {
        assert NonEmpty(els) == [els[0]] + rest;
        assert ([els[0]] + rest)[1..] == rest;
      }
    }
  }

  lemma StripKeepsShape(e: string)
    ensures Plain(StripModule(e), 0) <==> Plain(e, 0)
    ensures Whole(StripModule(e), 0) <==> Whole(e, 0)
  {
    if Prefixed(e) {
      var n := NameRun(e);
      assert e == e[..n + 1] + e[n + 1..];
      PlainUnderPrefix(e[..n + 1], e[n + 1..], 0);
      WholeUnderPrefix(e[..n + 1], e[n + 1..], 0);
    }
  }

  lemma {:induction false} WholeUnderPrefix(prefix: string, e: string, depth: int)
    requires forall i :: 0 <= i < |prefix| ==> NameChar(prefix[i]) || prefix[i] == ':'
    ensures Whole(prefix + e, depth) <==> Whole(e, depth)
  {
    if prefix == "" {
      assert prefix + e == e;
    } else {
      assert (prefix + e)[1..] == prefix[1..] + e;
      WholeUnderPrefix(prefix[1..], e, depth);
    }
  }

  lemma {:induction false} StripAllSplitSafe(els: seq<string>)
    requires SplitSafe(els)
    ensures SplitSafe(StripAll(els))
  {
    if els != [] {
      StripKeepsShape(els[0]);
      assert StripAll(els)[1..] == StripAll(els[1..]);
      if |els| > 1 { StripAllSplitSafe(els[1..]); }
    }
  }

  lemma ElementsSplitSafe(path: string)
    ensures SplitSafe(Elements(path))
  {
    PiecesSplitSafe(path, 0);
    NonEmptySplitSafe(Pieces(path, 0));
    StripAllSplitSafe(NonEmpty(Pieces(path, 0)));
  }

  /** Normalising the joined elements looks only at those elements. */
  lemma ElementsOfJoin(els: seq<string>)
    requires SplitSafe(els)
    ensures Elements("/" + Join(els)) == StripAll(NonEmpty(els))
  {
    var path := "/" + Join(els);
    assert path[1..] == Join(els);
    assert Pieces(path, 0) == [""] + Pieces(Join(els), 0);
    assert Pieces(path, 0)[1..] == Pieces(Join(els), 0);
    assert NonEmpty(Pieces(path, 0)) == NonEmpty(Pieces(Join(els), 0));
    if els == [] {
      assert NonEmpty([""]) == [] + NonEmpty([""][1..]);
    } else {
      JoinSplits(els);
    }
  }

  lemma {:induction false} StripAllFixed(els: seq<string>)
    ensures StripAll(els) == els <==> forall i :: 0 <= i < |els| ==> !Prefixed(els[i])
  {
  }

  lemma JoinInjective(a: seq<string>, b: seq<string>)
    requires SplitSafe(a) && SplitSafe(b) && Join(a) == Join(b)
    ensures a == b || (a == [] && b == [""]) || (a == [""] && b == [])
  {
    if a != [] { JoinSplits(a); }
    if b != [] { JoinSplits(b); }
  }

  /** Dropping empty elements and stripping once more leaves the joined text alone only when nothing was left to do. */
  lemma RejoinExactly(els: seq<string>)
    requires SplitSafe(els)
    ensures Join(StripAll(NonEmpty(els))) == Join(els) <==>
              els == [""] || forall i :: 0 <= i < |els| ==> els[i] != "" && !Prefixed(els[i])
  {
    var again := StripAll(NonEmpty(els));
    NonEmptySplitSafe(els);
    StripAllSplitSafe(NonEmpty(els));
    NonEmptyComplete(els);
    StripAllFixed(els);
    if els == [""] {
      assert NonEmpty([""]) == [] + NonEmpty([""][1..]);
      assert again == [];
    } else if Join(again) == Join(els) {
      JoinInjective(again, els);
      assert |NonEmpty(els)| == |els|;
    }
  }

  /** The condition on the elements that one pass leaves. */
  predicate Settled(els: seq<string>)
  {
    els == [""] || AllStable(els)
  }

  lemma FixedWhenSettled(path: string)
    ensures var once := Normalized(Some(path)); Normalized(Some(once)) == once <==> Settled(Elements(path))
  {
    var els := Elements(path);
    var once := "/" + Join(els);
    RootIsEmpty(path);
    RootIsEmpty(once);
    ElementsSplitSafe(path);
    ElementsOfJoin(els);
    RejoinExactly(els);
    var twice := "/" + Join(StripAll(NonEmpty(els)));
    assert once[1..] == Join(els) && twice[1..] == Join(StripAll(NonEmpty(els)));
  }

  lemma {:induction false} NonEmptyComplete(els: seq<string>)
    ensures NonEmpty(els) == els <==> forall i :: 0 <= i < |els| ==> els[i] != ""
  {
    if els != [] {
      NonEmptyComplete(els[1..]);
      assert els == [els[0]] + els[1..];
    }
  }

  /** A piece that is a module prefix and nothing else. */
  predicate OnlyPrefix(piece: string) { Prefixed(piece) && NameRun(piece) + 1 == |piece| }

  /** A piece with a second module prefix behind the first. */
  predicate TwicePrefixed(piece: string) { Prefixed(piece) && Prefixed(piece[NameRun(piece) + 1..]) }

  predicate StripsClean(piece: string) { !OnlyPrefix(piece) && !TwicePrefixed(piece) }

  lemma StripsCleanExactly(piece: string)
    requires piece != ""
    ensures StripModule(piece) == "" <==> OnlyPrefix(piece)
    ensures Prefixed(StripModule(piece)) <==> TwicePrefixed(piece)
  {
  }

  /** No piece is only a prefix or has two. */
  predicate AllClean(pieces: seq<string>) { forall i :: 0 <= i < |pieces| ==> StripsClean(pieces[i]) }

  /** An element that a second pass leaves alone. */
  predicate Stable(el: string) { el != "" && !Prefixed(el) }

  predicate AllStable(els: seq<string>) { forall i :: 0 <= i < |els| ==> Stable(els[i]) }

  lemma StableFirst(el: string, els: seq<string>)
    ensures AllStable([el] + els) <==> Stable(el) && AllStable(els)
  {
    var all := [el] + els;
    assert all[0] == el && forall i :: 0 <= i < |els| ==> all[i + 1] == els[i];
    if AllStable(all) {
      forall i | 0 <= i < |els| ensures Stable(els[i]) { assert Stable(all[i + 1]); }
    }
  }

  lemma CleanFirst(piece: string, pieces: seq<string>)
    ensures AllClean([piece] + pieces) <==> StripsClean(piece) && AllClean(pieces)
  {
    var all := [piece] + pieces;
    assert all[0] == piece && forall i :: 0 <= i < |pieces| ==> all[i + 1] == pieces[i];
    if AllClean(all) {
      forall i | 0 <= i < |pieces| ensures StripsClean(pieces[i]) { assert StripsClean(all[i + 1]); }
    }
  }

  lemma NonEmptyFirst(p: string, rest: seq<string>)
    ensures NonEmpty([p] + rest) == if p == "" then NonEmpty(rest) else [p] + NonEmpty(rest)
  {
    assert ([p] + rest)[1..] == rest;
  }

  lemma StripAllFirst(p: string, rest: seq<string>)
    ensures StripAll([p] + rest) == [StripModule(p)] + StripAll(rest)
  {
    assert ([p] + rest)[1..] == rest;
  }

  /** What one pass makes of a first piece. */
  lemma PassOfFirst(p: string, rest: seq<string>)
    ensures StripAll(NonEmpty([p] + rest)) == if p == "" then StripAll(NonEmpty(rest)) else [StripModule(p)] + StripAll(NonEmpty(rest))
  {
    NonEmptyFirst(p, rest);
    if p != "" { StripAllFirst(p, NonEmpty(rest)); }
  }

  /** What one pass leaves is stable exactly when every piece strips clean. */
  lemma {:induction false} CleanLeavesStable(pieces: seq<string>)
    ensures AllStable(StripAll(NonEmpty(pieces))) <==> AllClean(pieces)
  {
    if pieces != [] {
      var p, rest := pieces[0], pieces[1..];
      CleanLeavesStable(rest);
      assert pieces == [p] + rest;
      CleanFirst(p, rest);
      PassOfFirst(p, rest);
      if p != "" {
        StripsCleanExactly(p);
        StableFirst(StripModule(p), StripAll(NonEmpty(rest)));
      }
    }
  }

  /** A path's one non-empty piece. */
  predicate Sole(pieces: seq<string>, i: nat)
    requires i < |pieces|
  {
    pieces[i] != "" && forall j :: 0 <= j < |pieces| && j != i ==> pieces[j] == ""
  }

  lemma {:induction false} NothingLeft(pieces: seq<string>)
    ensures NonEmpty(pieces) == [] <==> forall j :: 0 <= j < |pieces| ==> pieces[j] == ""
  {
    if pieces != [] {
      NothingLeft(pieces[1..]);
      assert pieces == [pieces[0]] + pieces[1..];
    }
  }

  lemma {:induction false} SoleIsLeft(pieces: seq<string>, i: nat)
    requires i < |pieces| && Sole(pieces, i)
    ensures NonEmpty(pieces) == [pieces[i]]
  {
    if i == 0 {
      NothingLeft(pieces[1..]);
    } else {
      SoleIsLeft(pieces[1..], i - 1);
    }
  }

  lemma {:induction false} LeftIsSole(pieces: seq<string>) returns (i: nat)
    requires |NonEmpty(pieces)| == 1
    ensures i < |pieces| && Sole(pieces, i)
  {
    if pieces[0] == "" {
      i := LeftIsSole(pieces[1..]);
      i := i + 1;
    } else {
      NothingLeft(pieces[1..]);
      i := 0;
    }
  }

  /** All the path says is one module prefix. */
  predicate OnlyOnePrefix(pieces: seq<string>)
  {
    exists i :: 0 <= i < |pieces| && Sole(pieces, i) && OnlyPrefix(pieces[i])
  }

  /** Exactly then the path strips down to the root. */
  lemma RootExactly(pieces: seq<string>)
    ensures StripAll(NonEmpty(pieces)) == [""] <==> OnlyOnePrefix(pieces)
  {
    if StripAll(NonEmpty(pieces)) == [""] {
      var i := LeftIsSole(pieces);
      SoleIsLeft(pieces, i);
      StripsCleanExactly(pieces[i]);
      assert StripAll(NonEmpty(pieces))[0] == StripModule(pieces[i]);
    }
    if i :| 0 <= i < |pieces| && Sole(pieces, i) && OnlyPrefix(pieces[i]) {
      SoleIsLeft(pieces, i);
      StripsCleanExactly(pieces[i]);
    }
  }

  /**
   Normalising a path twice changes nothing exactly when, of the pieces between its top-level
   separators, none is only a module prefix and none has two; or the one non-empty piece is only a
   prefix, which normalises to the root.
   */
  lemma FixedPointExactly(path: string)
    ensures var once := Normalized(Some(path)); var pieces := Pieces(path, 0);
            Normalized(Some(once)) == once <==> AllClean(pieces) || OnlyOnePrefix(pieces)
  {
    FixedWhenSettled(path);
    RootExactly(Pieces(path, 0));
    CleanLeavesStable(Pieces(path, 0));
  }

  lemma OneElement(el: string)
    requires el != "" && Plain(el, 0)
    ensures Elements(el) == [StripModule(el)]
  {
    PlainIsWhole(el, 0);
    WholeIsOnePiece(el, 0);
    assert NonEmpty([el]) == [el] + NonEmpty([el][1..]);
  }

  /** Two module names on one element: one strip leaves the second for the next pass. */
  lemma DoublePrefixNotFixed(outer: string, inner: string, element: string)
    requires outer != "" && forall k :: 0 <= k < |outer| ==> NameChar(outer[k])
    requires inner != "" && forall k :: 0 <= k < |inner| ==> NameChar(inner[k])
    requires Plain(element, 0)
    ensures var path := outer + ":" + (inner + ":" + element);
            Normalized(Some(Normalized(Some(path)))) != Normalized(Some(path))
  {
    var left := inner + ":" + element;
    var path := outer + ":" + left;
    PrefixStrips(inner, element);
    PrefixStrips(outer, left);
    OneElement(path);
    FixedWhenSettled(path);
    assert Elements(path)[0] == left;
  }

  lemma NotAlwaysIdempotent()
    ensures exists path :: Normalized(Some(Normalized(Some(path)))) != Normalized(Some(path))
  {
    assert "c"[0] == 'c' && "c"[1..] == "";
    assert Plain("c", 0);
    assert NameChar("a"[0]) && NameChar("b"[0]);
    DoublePrefixNotFixed("a", "b", "c");
  }
}
