/** Printing an interval (render.py) and reading one (cli.py). */
module Intervals {
  import opened Prelude
  import opened Characters
  import opened Decimal
  import opened Schedules

  /** The largest `timedelta`, 999999999 days and a day less a microsecond, in whole seconds. */
  const MAX_SECONDS: int := 1000000000 * 86400 - 1

  function InLargestUnit(seconds: nat): string
  {
    if seconds % 3600 == 0 then NatText(seconds / 3600) + "h"
    else if seconds % 60 == 0 then NatText(seconds / 60) + "m"
    else NatText(seconds) + "s"
  }

  /** `format_interval`. */
  function Format(interval: int): string
    requires interval >= 0
  {
    InLargestUnit(Seconds(interval))
  }

  /** `text.strip()`. */
  function Strip(s: string): string
  {
    if s == "" then ""
    else if IsSpace(s[0]) then Strip(s[1..])
    else if IsSpace(s[|s| - 1]) then Strip(s[..|s| - 1])
    else s
  }

  /** A pause's reason is refused exactly when stripping leaves nothing of it. */
  lemma {:induction false} BlankIsStripped(s: string)
    ensures Blank(s) <==> Strip(s) == ""
    decreases |s|
  {
    if s != "" {
      var n := |s| - 1;
      if IsSpace(s[0]) {
        BlankIsStripped(s[1..]);
        assert forall i :: 1 <= i < |s| ==> s[i] == s[1..][i - 1];
      } else if IsSpace(s[n]) {
        BlankIsStripped(s[..n]);
        assert s[..n][0] == s[0];
      }
    }
  }

  function UnitSeconds(c: char): Option<int>
  {
    if c == 's' then Some(1) else if c == 'm' then Some(60) else if c == 'h' then Some(3600) else None
  }

  /** `sys.int_info.default_max_str_digits`: `int` refuses longer texts. */
  const MAX_DIGITS: nat := 4300

  /** The number and unit of an interval text, in seconds; None when the text has another form or too many digits. */
  function Read(s: string): Option<int>
  {
    if |s| < 2 || |s| - 1 > MAX_DIGITS then None
    else
      var number, unit := AsciiText(s[..|s| - 1]), UnitSeconds(s[|s| - 1]);
      if unit.None? || !IsDigits(number) then None else Some(ParseNat(number) * unit.value)
  }

  /** `_parse_interval`; None raises: unreadable, below a minute, or too large for a timedelta. */
  function Parse(text: string): Option<int>
  {
    var seconds := Read(Strip(text));
    if seconds.None? || seconds.value > MAX_SECONDS || seconds.value * SECOND < MIN_SCAN_INTERVAL then None
    else Some(seconds.value * SECOND)
  }

  function Pow10(k: nat): nat { if k == 0 then 1 else 10 * Pow10(k - 1) }

  lemma {:induction false} TextIsShort(n: nat, k: nat)
    requires 0 < k && n < Pow10(k)
    ensures |NatText(n)| <= k
  {
    if n >= 10 {
      assert k > 1 by { assert Pow10(1) == 10 * Pow10(0); }
      TextIsShort(n / 10, k - 1);
    }
  }

  lemma SecondsAreShort(n: nat)
    requires n <= MAX_SECONDS
    ensures |NatText(n)| <= MAX_DIGITS
  {
    assert Pow10(4) == 10000 && Pow10(8) == 10000 * Pow10(4);
    assert Pow10(12) == 10000 * Pow10(8) && Pow10(14) == 100 * Pow10(12);
    TextIsShort(n, 14);
  }

  lemma TextIsAscii(n: nat)
    ensures AsciiText(NatText(n)) == NatText(n)
  {
    var s := NatText(n);
    forall i | 0 <= i < |s| ensures s[i] < '\U{7f}' { assert IsDigit(s[i]); }
    AsciiAlready(s);
  }

  lemma ReadWritten(n: nat, unit: char)
    requires UnitSeconds(unit).Some? && n <= MAX_SECONDS
    ensures Read(NatText(n) + [unit]) == Some(n * UnitSeconds(unit).value)
    ensures Strip(NatText(n) + [unit]) == NatText(n) + [unit]
  {
    var s := NatText(n) + [unit];
    ParseNatText(n);
    TextIsAscii(n);
    SecondsAreShort(n);
    assert s[..|s| - 1] == NatText(n);
    assert IsDigit(s[0]) && s[|s| - 1] == unit;
  }

  lemma WrittenReads(n: nat, unit: char, seconds: nat)
    requires UnitSeconds(unit).Some? && n <= MAX_SECONDS && n * UnitSeconds(unit).value == seconds
    ensures Read(Strip(NatText(n) + [unit])) == Some(seconds)
  {
    ReadWritten(n, unit);
  }

  lemma LargestUnit(seconds: nat) returns (n: nat, unit: char)
    ensures UnitSeconds(unit).Some? && n * UnitSeconds(unit).value == seconds && n <= seconds
    ensures InLargestUnit(seconds) == NatText(n) + [unit]
    ensures unit != 'h' ==> seconds % 3600 != 0
    ensures unit == 's' ==> seconds % 60 != 0
  {
    if seconds % 3600 == 0 {
      n, unit := seconds / 3600, 'h';
    } else if seconds % 60 == 0 {
      n, unit := seconds / 60, 'm';
    } else {
      n, unit := seconds, 's';
    }
  }

  lemma UnitReads(seconds: nat)
    requires seconds <= MAX_SECONDS
    ensures Read(Strip(InLargestUnit(seconds))) == Some(seconds)
  {
    var n, unit := LargestUnit(seconds);
    WrittenReads(n, unit, seconds);
  }

  /**
   Reading a printed interval gives its whole seconds, so the round trip is exact for, and only
   for, intervals of whole seconds.
   */
  lemma ParseFormat(interval: int)
    requires MIN_SCAN_INTERVAL <= interval && Seconds(interval) <= MAX_SECONDS
    ensures Parse(Format(interval)) == Some(Seconds(interval) * SECOND)
    ensures Parse(Format(interval)) == Some(interval) <==> interval % SECOND == 0
  {
    UnitReads(Seconds(interval));
    WholeSeconds(interval);
  }

  lemma WholeSeconds(interval: int)
    requires MIN_SCAN_INTERVAL <= interval
    ensures MIN_SCAN_INTERVAL <= Seconds(interval) * SECOND <= interval
    ensures Seconds(interval) * SECOND == interval <==> interval % SECOND == 0
  {
  }

  /** Every accepted text means an interval that prints as a text with the same meaning. */
  lemma FormatParse(text: string)
    requires Parse(text).Some?
    ensures Parse(text).value >= MIN_SCAN_INTERVAL && Parse(Format(Parse(text).value)) == Parse(text)
  {
    var seconds := Read(Strip(text)).value;
    assert Parse(text) == Some(seconds * SECOND) && Seconds(seconds * SECOND) == seconds;
    ParseFormat(seconds * SECOND);
  }

  /** Intervals print alike exactly when they agree in whole seconds. */
  lemma FormatInjective(a: int, b: int)
    requires MIN_SCAN_INTERVAL <= a && MIN_SCAN_INTERVAL <= b && Seconds(a) <= MAX_SECONDS && Seconds(b) <= MAX_SECONDS
    ensures Format(a) == Format(b) <==> Seconds(a) == Seconds(b)
  {
    ParseFormat(a);
    ParseFormat(b);
  }

  /** An interval prints in the largest unit that divides it: the number before the unit, times the unit, is its seconds. */
  lemma LargestUnitPrints(interval: int) returns (n: nat, unit: char)
    requires interval >= 0
    ensures Format(interval) == NatText(n) + [unit] && UnitSeconds(unit).Some? && n * UnitSeconds(unit).value == Seconds(interval)
    ensures forall c: char :: UnitSeconds(c).Some? && UnitSeconds(c).value > UnitSeconds(unit).value ==> Seconds(interval) % UnitSeconds(c).value != 0
  {
    n, unit := LargestUnit(Seconds(interval));
  }
}
