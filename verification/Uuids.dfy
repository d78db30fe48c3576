/**
 UUIDs as Python's `uuid` module writes and reads them: `str` gives lower-case 8-4-4-4-12 text.
 `UUID(text)` drops hyphens, outer braces and the `urn:` and `uuid:` prefixes, asks for 32
 characters, and reads those with `int(..., 16)`, which admits more than hexadecimal digits.
 */
module Uuids {
  import opened Prelude
  import opened Characters

  newtype Nibble = x: int | 0 <= x < 16

  type Digits32 = ns: seq<Nibble> | |ns| == 32 witness seq(32, _ => 0)

  datatype Uuid = Uuid(digits: Digits32)

  function HexChar(n: Nibble): char
  {
    if n < 10 then '0' + n as char else 'a' + (n - 10) as char
  }

  function HexValue(c: char): Option<Nibble>
  {
    if '0' <= c <= '9' then Some((c - '0') as Nibble)
    else if 'a' <= c <= 'f' then Some((c - 'a') as Nibble + 10)
    else if 'A' <= c <= 'F' then Some((c - 'A') as Nibble + 10)
    else None
  }

  function HexText(ns: seq<Nibble>): (s: string)
    ensures |s| == |ns| && forall i :: 0 <= i < |s| ==> s[i] == HexChar(ns[i])
  {
    seq(|ns|, i requires 0 <= i < |ns| => HexChar(ns[i]))
  }

  /** 8-4-4-4-12 hexadecimal digits. */
  function Grouped(u: Digits32): string
  {
    HexText(u[..8]) + "-" + HexText(u[8..12]) + "-" + HexText(u[12..16]) + "-" + HexText(u[16..20]) + "-" + HexText(u[20..])
  }

  /** `str(u)`. */
  function Text(u: Uuid): string { Grouped(u.digits) }

  /** `s.replace(word, "")`. */
  function Without(s: string, word: string): string
    requires word != ""
  {
    if s == "" then ""
    else if word <= s then Without(s[|word|..], word)
    else [s[0]] + Without(s[1..], word)
  }

  predicate IsBrace(c: char) { c == '{' || c == '}' }

  /** `s.strip("{}")`. */
  function Stripped(s: string): string
  {
    if s == "" then ""
    else if IsBrace(s[0]) then Stripped(s[1..])
    else if IsBrace(s[|s| - 1]) then Stripped(s[..|s| - 1])
    else s
  }

  /** `s.replace("-", "")`. */
  function Undashed(s: string): string
  {
    if s == "" then "" else (if s[0] == '-' then "" else [s[0]]) + Undashed(s[1..])
  }

  // ---- int(text, 16), after every blank and digit is read as its ASCII one ----

  predicate IsBlank(c: char) { c == ' ' || '\t' <= c <= '\r' }

  function SkipBlanks(s: string): string
  {
    if s != "" && IsBlank(s[0]) then SkipBlanks(s[1..]) else s
  }

  /** The hyphen is gone by now, so a sign can only be a plus. */
  function Unsigned(s: string): string { if s != "" && s[0] == '+' then s[1..] else s }

  /** `0x` or `0X`, and one underscore after it. */
  function Unprefixed(s: string): string
  {
    if |s| >= 2 && s[0] == '0' && (s[1] == 'x' || s[1] == 'X') then
      if |s| > 2 && s[2] == '_' then s[3..] else s[2..]
    else s
  }

  predicate DigitOrScore(c: char) { HexValue(c).Some? || c == '_' }

  /** Length of the longest prefix of digits and underscores. */
  function Run(s: string): (n: nat)
    ensures n <= |s| && (n < |s| ==> !DigitOrScore(s[n])) && forall i :: 0 <= i < n ==> DigitOrScore(s[i])
  {
    if s != "" && DigitOrScore(s[0]) then 1 + Run(s[1..]) else 0
  }

  /** Underscores stand only between two digits. */
  predicate WellScored(s: string)
  {
    s != "" && s[0] != '_' && s[|s| - 1] != '_' && forall i :: 0 <= i < |s| - 1 ==> !(s[i] == '_' && s[i + 1] == '_')
  }

  /** The values of the digits among digits and underscores. */
  function Digits(s: string): (r: seq<Nibble>)
    ensures |r| <= |s|
  {
    if s == "" then []
    else (if HexValue(s[0]).Some? then [HexValue(s[0]).value] else []) + Digits(s[1..])
  }

  /** `int(s, 16)` as its digits; None is a ValueError. */
  function HexInt(s: string): (r: Option<seq<Nibble>>)
    ensures r.Some? ==> |r.value| <= |s|
  {
    var body := Unprefixed(Unsigned(SkipBlanks(s)));
    var n := Run(body);
    SkipBlanksShortens(s);
    if WellScored(body[..n]) && SkipBlanks(body[n..]) == "" then Some(Digits(body[..n])) else None
  }

  lemma {:induction false} SkipBlanksShortens(s: string)
    ensures |SkipBlanks(s)| <= |s|
  {
    if s != "" && IsBlank(s[0]) { SkipBlanksShortens(s[1..]); }
  }

  /** A number of at most 32 hexadecimal digits, written with 32. */
  function Padded(ns: seq<Nibble>): Digits32
    requires |ns| <= 32
  {
    seq(32 - |ns|, _ => 0) + ns
  }

  /** `UUID(s)`, where None is its ValueError. */
  function Parse(s: string): Option<Uuid>
  {
    var bare := Undashed(Stripped(Without(Without(s, "urn:"), "uuid:")));
    if |bare| != 32 then None
    else
      var number := HexInt(AsciiText(bare));
      if number.None? then None else Some(Uuid(Padded(number.value)))
  }

  // ---- Printing then parsing ----

  lemma HexRoundTrip(n: Nibble)
    ensures HexValue(HexChar(n)) == Some(n) && HexChar(n) != '-' && HexChar(n) != ':' && !IsBrace(HexChar(n))
  {
  }

  predicate Plain(s: string)
  {
    forall i :: 0 <= i < |s| ==> s[i] != ':' && !IsBrace(s[i])
  }

  lemma {:induction false} PlainUntouched(s: string, word: string)
    requires Plain(s) && ':' in word
    ensures Without(s, word) == s
  {
    if s != "" {
      var k :| 0 <= k < |word| && word[k] == ':';
      assert k < |s| ==> s[k] != word[k];
      PlainUntouched(s[1..], word);
    }
  }

  lemma {:induction false} UndashedConcat(a: string, b: string)
    ensures Undashed(a + b) == Undashed(a) + Undashed(b)
  {
    if a == "" {
      assert a + b == b;
    } else {
      assert (a + b)[1..] == a[1..] + b;
      UndashedConcat(a[1..], b);
    }
  }

  lemma {:induction false} UndashedHex(ns: seq<Nibble>)
    ensures Undashed(HexText(ns)) == HexText(ns)
  {
    if ns != [] {
      HexRoundTrip(ns[0]);
      assert HexText(ns)[1..] == HexText(ns[1..]);
      UndashedHex(ns[1..]);
    }
  }

  lemma UndashedGroup(ns: seq<Nibble>, rest: string)
    ensures Undashed(HexText(ns) + "-" + rest) == HexText(ns) + Undashed(rest)
  {
    assert HexText(ns) + "-" + rest == HexText(ns) + ("-" + rest);
    UndashedConcat(HexText(ns), "-" + rest);
    UndashedHex(ns);
    assert ("-" + rest)[1..] == rest;
  }

  lemma UndashedText(u: Digits32)
    ensures Undashed(Grouped(u)) == HexText(u)
  {
    var d := HexText(u[16..20]) + "-" + HexText(u[20..]);
    var c := HexText(u[12..16]) + "-" + d;
    var b := HexText(u[8..12]) + "-" + c;
    assert Grouped(u) == HexText(u[..8]) + "-" + b;
    UndashedGroup(u[..8], b);
    UndashedGroup(u[8..12], c);
    UndashedGroup(u[12..16], d);
    UndashedGroup(u[16..20], HexText(u[20..]));
    UndashedHex(u[20..]);
  }

  lemma HexIsPlain(ns: seq<Nibble>)
    ensures Plain(HexText(ns))
  {
    forall i | 0 <= i < |ns| ensures HexText(ns)[i] != ':' && !IsBrace(HexText(ns)[i]) { HexRoundTrip(ns[i]); }
  }

  lemma TextIsPlain(u: Digits32)
    ensures Plain(Grouped(u))
  {
    HexIsPlain(u[..8]);
    HexIsPlain(u[8..12]);
    HexIsPlain(u[12..16]);
    HexIsPlain(u[16..20]);
    HexIsPlain(u[20..]);
  }

  lemma {:induction false} DigitsOfHex(ns: seq<Nibble>)
    ensures Digits(HexText(ns)) == ns && Run(HexText(ns)) == |ns|
  {
    if ns != [] {
      HexRoundTrip(ns[0]);
      assert HexText(ns)[1..] == HexText(ns[1..]);
      DigitsOfHex(ns[1..]);
      assert ns == [ns[0]] + ns[1..];
    }
  }

  /** Plain digits are well placed: no blank, sign, prefix or underscore among them. */
  lemma PlainDigits(ns: seq<Nibble>)
    requires ns != []
    ensures var s := HexText(ns); SkipBlanks(s) == s && Unsigned(s) == s && Unprefixed(s) == s && WellScored(s)
  {
    var s := HexText(ns);
    forall i | 0 <= i < |s| ensures s[i] != '_' && s[i] != '+' && s[i] != 'x' && s[i] != 'X' && !IsBlank(s[i]) { NotSpecial(ns[i]); }
  }

  lemma NotSpecial(n: Nibble)
    ensures var c := HexChar(n); c != '_' && c != '+' && c != 'x' && c != 'X' && !IsBlank(c)
  {
  }

  lemma HexIsAscii(ns: seq<Nibble>)
    ensures AsciiText(HexText(ns)) == HexText(ns)
  {
    var s := HexText(ns);
    forall i | 0 <= i < |s| ensures s[i] < '\U{7f}' { assert s[i] == HexChar(ns[i]); }
    AsciiAlready(s);
  }

  lemma HexIntOfDigits(ns: seq<Nibble>)
    requires ns != []
    ensures HexInt(HexText(ns)) == Some(ns)
  {
    var s := HexText(ns);
    PlainDigits(ns);
    DigitsOfHex(ns);
    assert s[..|ns|] == s && s[|ns|..] == "";
  }

  /** Parsing what was printed gives the UUID back. */
  lemma ParseText(u: Uuid)
    ensures Parse(Text(u)) == Some(u)
  {
    var ns := u.digits;
    TextIsPlain(ns);
    Unwrapped(Text(u));
    UndashedText(ns);
    HexIsAscii(ns);
    HexIntOfDigits(ns);
    assert Padded(ns) == ns;
  }

  lemma PrefixComesOff(t: string)
    requires t != "" && t[0] != '_' && t[0] != '+' && !IsBlank(t[0])
    ensures var s := "0x" + t; SkipBlanks(s) == s && Unsigned(s) == s && Unprefixed(s) == t
  {
    var s := "0x" + t;
    assert s[0] == '0' && s[1] == 'x' && s[2] == t[0] && s[2..] == t;
  }

  lemma HexIntOfPrefixed(ns: seq<Nibble>)
    requires ns != []
    ensures HexInt("0x" + HexText(ns)) == Some(ns)
  {
    var t := HexText(ns);
    PlainDigits(ns);
    DigitsOfHex(ns);
    NotSpecial(ns[0]);
    PrefixComesOff(t);
    assert t[..|ns|] == t && t[|ns|..] == "";
  }

  lemma UndashedOne(c: char, rest: string)
    requires c != '-'
    ensures Undashed([c] + rest) == [c] + Undashed(rest)
  {
    assert ([c] + rest)[1..] == rest;
  }

  lemma UndashedPrefix(ns: seq<Nibble>)
    ensures Undashed("0x" + HexText(ns)) == "0x" + HexText(ns)
  {
    var t := HexText(ns);
    UndashedHex(ns);
    UndashedOne('x', t);
    UndashedOne('0', "x" + t);
    assert "0x" + t == "0" + ("x" + t);
  }

  lemma Unwrapped(s: string)
    requires Plain(s)
    ensures Stripped(Without(Without(s, "urn:"), "uuid:")) == s
  {
    PlainUntouched(s, "urn:");
    PlainUntouched(s, "uuid:");
  }

  /** A text that `UUID` hands to `int` as it is, and that reads as these digits. */
  predicate Bare(s: string, ns: seq<Nibble>)
  {
    Plain(s) && Undashed(s) == s && |s| == 32 && |ns| <= 32 && AsciiText(s) == s && HexInt(s) == Some(ns)
  }

  lemma ParseBare(s: string, ns: seq<Nibble>)
    requires Bare(s, ns)
    ensures Parse(s) == Some(Uuid(Padded(ns)))
  {
    Unwrapped(s);
  }

  lemma PrefixedIsPlain(t: string)
    requires Plain(t) && AsciiText(t) == t
    ensures Plain("0x" + t) && AsciiText("0x" + t) == "0x" + t
  {
    var s, r := "0x" + t, AsciiText("0x" + t);
    forall i | 0 <= i < |s| ensures r[i] == s[i] {
      if i >= 2 { assert s[i] == t[i - 2] && AsciiText(t)[i - 2] == t[i - 2]; }
    }
  }

  /** A text of `0x` and 30 digits is a UUID too: the one with those digits after two zeros. */
  lemma PrefixedTextParses(ns: seq<Nibble>)
    requires |ns| == 30
    ensures Parse("0x" + HexText(ns)) == Some(Uuid([0, 0] + ns))
  {
    PrefixedIsBare(ns);
    ParseBare("0x" + HexText(ns), ns);
    PadTwo(ns);
  }

  lemma PadTwo(ns: seq<Nibble>)
    requires |ns| == 30
    ensures Padded(ns) == [0, 0] + ns
  {
  }

  lemma PrefixedIsBare(ns: seq<Nibble>)
    requires |ns| == 30
    ensures Bare("0x" + HexText(ns), ns)
  {
    HexIsPlain(ns);
    HexIsAscii(ns);
    PrefixedIsPlain(HexText(ns));
    UndashedPrefix(ns);
    HexIntOfPrefixed(ns);
  }

  lemma DigitLike(c: char, n: Nibble)
    requires Ascii(c) == HexChar(n)
    ensures c != ':' && c != '-' && !IsBrace(c)
  {
    HexRoundTrip(n);
  }

  lemma {:induction false} NoHyphen(s: string)
    requires forall i :: 0 <= i < |s| ==> s[i] != '-'
    ensures Undashed(s) == s
  {
    if s != "" { NoHyphen(s[1..]); }
  }

  lemma FoldedIs(s: string, ns: seq<Nibble>)
    requires |s| == |ns| && forall i :: 0 <= i < |s| ==> Ascii(s[i]) == HexChar(ns[i])
    ensures AsciiText(s) == HexText(ns)
  {
  }

  /** So is any text of 32 digits, whatever alphabets they are from. */
  lemma AnyAlphabetParses(s: string, ns: Digits32)
    requires |s| == 32 && forall i :: 0 <= i < |s| ==> Ascii(s[i]) == HexChar(ns[i])
    ensures Parse(s) == Some(Uuid(ns))
  {
    forall i | 0 <= i < |s| ensures s[i] != ':' && s[i] != '-' && !IsBrace(s[i]) { DigitLike(s[i], ns[i]); }
    Unwrapped(s);
    NoHyphen(s);
    FoldedIs(s, ns);
    HexIntOfDigits(ns);
    assert Padded(ns) == ns;
  }

  /** Different UUIDs have different texts. */
  lemma TextInjective(a: Uuid, b: Uuid)
    requires Text(a) == Text(b)
    ensures a == b
  {
    ParseText(a);
    ParseText(b);
  }
}
