/**
 Python's classes of characters beyond ASCII, as of Unicode 15: white space, and the decimal digits
 of every alphabet, which `int(text)` and the pattern `\d` take for 0 to 9.
 */
module Characters {
  import opened Prelude

  /** `c.isspace()`; `str.strip` removes these. */
  predicate IsSpace(c: char)
  {
    || c == ' ' || '\t' <= c <= '\r' || '\U{1c}' <= c <= '\U{1f}' || c == '\U{85}' || c == '\U{a0}' || c == '\U{1680}'
    || '\U{2000}' <= c <= '\U{200a}' || c == '\U{2028}' || c == '\U{2029}' || c == '\U{202f}' || c == '\U{205f}' || c == '\U{3000}'
  }

  /** How many alphabets beyond ASCII have decimal digits. */
  const ALPHABETS: nat := 67

  /** The code point of the digit zero of an alphabet; the digits one to nine follow it. */
  function Zero(alphabet: nat): int
  {
    match alphabet
    case 0 => 0x660 case 1 => 0x6f0 case 2 => 0x7c0 case 3 => 0x966 case 4 => 0x9e6 case 5 => 0xa66
    case 6 => 0xae6 case 7 => 0xb66 case 8 => 0xbe6 case 9 => 0xc66 case 10 => 0xce6 case 11 => 0xd66
    case 12 => 0xde6 case 13 => 0xe50 case 14 => 0xed0 case 15 => 0xf20 case 16 => 0x1040 case 17 => 0x1090
    case 18 => 0x17e0 case 19 => 0x1810 case 20 => 0x1946 case 21 => 0x19d0 case 22 => 0x1a80 case 23 => 0x1a90
    case 24 => 0x1b50 case 25 => 0x1bb0 case 26 => 0x1c40 case 27 => 0x1c50 case 28 => 0xa620 case 29 => 0xa8d0
    case 30 => 0xa900 case 31 => 0xa9d0 case 32 => 0xa9f0 case 33 => 0xaa50 case 34 => 0xabf0 case 35 => 0xff10
    case 36 => 0x104a0 case 37 => 0x10d30 case 38 => 0x11066 case 39 => 0x110f0 case 40 => 0x11136 case 41 => 0x111d0
    case 42 => 0x112f0 case 43 => 0x11450 case 44 => 0x114d0 case 45 => 0x11650 case 46 => 0x116c0 case 47 => 0x11730
    case 48 => 0x118e0 case 49 => 0x11950 case 50 => 0x11c50 case 51 => 0x11d50 case 52 => 0x11da0 case 53 => 0x11f50
    case 54 => 0x16a60 case 55 => 0x16ac0 case 56 => 0x16b50 case 57 => 0x1d7ce case 58 => 0x1d7d8 case 59 => 0x1d7e2
    case 60 => 0x1d7ec case 61 => 0x1d7f6 case 62 => 0x1e140 case 63 => 0x1e2f0 case 64 => 0x1e4f0 case 65 => 0x1e950
    case 66 => 0x1fbf0
    case _ => 0
  }

  /** The value of a digit of any alphabet from the `i`-th on. */
  function DigitFrom(i: nat, code: int): (d: Option<int>)
    ensures d.Some? ==> 0 <= d.value < 10
    decreases ALPHABETS - i
  {
    if i >= ALPHABETS then None
    else if Zero(i) <= code < Zero(i) + 10 then Some(code - Zero(i))
    else DigitFrom(i + 1, code)
  }

  /** The ASCII character `int` reads a character as: blanks and digits of any alphabet; any other is an error. */
  function Ascii(c: char): char
  {
    if c < '\U{7f}' then c
    else if IsSpace(c) then ' '
    else
      var d := DigitFrom(0, c as int);
      if d.Some? then '0' + d.value as char else '?'
  }

  function AsciiText(s: string): (r: string)
    ensures |r| == |s| && forall i :: 0 <= i < |s| ==> r[i] == Ascii(s[i])
  {
    seq(|s|, i requires 0 <= i < |s| => Ascii(s[i]))
  }

  lemma AsciiAlready(s: string)
    requires forall i :: 0 <= i < |s| ==> s[i] < '\U{7f}'
    ensures AsciiText(s) == s
  {
  }
}
