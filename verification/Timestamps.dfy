/**
 Timezone-aware datetimes, their UTC form and its ISO-8601 text.

 The audit log's range query compares stored text. `isoformat` leaves out a zero fraction, so the
 texts differ in length; they still order like the instants because `+` sorts before `.`.
 */
module Timestamps {
  import opened Prelude
  import opened Decimal
  import opened Lexical

  datatype Date = Date(year: int, month: int, day: int)

  /** A datetime's wall-clock fields. */
  datatype Civil = Civil(date: Date, hour: int, minute: int, second: int, micro: int)

  /** A timezone-aware datetime: wall clock and UTC offset in microseconds. */
  datatype Aware = Aware(local: Civil, offset: int)

  const DAY: int := 86400000000

  const MAX_YEAR: int := 9999

  // ---- The calendar ----

  predicate IsLeap(y: int) { y % 4 == 0 && (y % 100 != 0 || y % 400 == 0) }

  function DaysInMonth(y: int, m: int): int
  {
    if m == 2 then (if IsLeap(y) then 29 else 28)
    else if m == 4 || m == 6 || m == 9 || m == 11 then 30
    else 31
  }

  predicate ValidDate(d: Date)
  {
    1 <= d.year <= MAX_YEAR && 1 <= d.month <= 12 && 1 <= d.day <= DaysInMonth(d.year, d.month)
  }

  predicate ValidCivil(c: Civil)
  {
    ValidDate(c.date) && 0 <= c.hour < 24 && 0 <= c.minute < 60 && 0 <= c.second < 60 && 0 <= c.micro < 1000000
  }

  predicate ValidAware(at: Aware) { ValidCivil(at.local) && -DAY < at.offset < DAY }

  /** Days before 1 January of year `y`. */
  function DaysBeforeYear(y: int): int { (y - 1) * 365 + LeapDays(y - 1) }

  /** Leap days up to the end of year `y`. */
  function LeapDays(y: int): int { y / 4 - y / 100 + y / 400 }

  function DaysBeforeMonth(y: int, m: int): int
    decreases m
  {
    if m <= 1 then 0 else DaysBeforeMonth(y, m - 1) + DaysInMonth(y, m - 1)
  }

  /** `date.toordinal()`. */
  function Ordinal(d: Date): int { DaysBeforeYear(d.year) + DaysBeforeMonth(d.year, d.month) + d.day }

  function MicroOfDay(c: Civil): int
  {
    ((c.hour * 60 + c.minute) * 60 + c.second) * 1000000 + c.micro
  }

  /** Microseconds since the calendar's origin, by the wall clock. */
  function Wall(c: Civil): int { Ordinal(c.date) * DAY + MicroOfDay(c) }

  /** The instant: aware datetimes are compared by it. */
  function Instant(at: Aware): int { Wall(at.local) - at.offset }

  // ---- Order of dates ----

  lemma YearLength(y: int)
    ensures DaysBeforeYear(y + 1) == DaysBeforeYear(y) + DaysBeforeMonth(y, 12) + 31
  {
    MonthTotals(y);
    LeapDaysStep(y);
  }

  lemma LeapDaysStep(y: int)
    ensures LeapDays(y) == LeapDays(y - 1) + if IsLeap(y) then 1 else 0
  {
    LeapStep(y, 4);
    LeapStep(y, 100);
    LeapStep(y, 400);
    Centuries(y);
  }

  lemma Centuries(y: int)
    ensures y % 400 == 0 ==> y % 100 == 0
    ensures y % 100 == 0 ==> y % 4 == 0
  {
  }

  /** `y / n` steps up exactly at multiples of `n`. */
  lemma LeapStep(y: int, n: int)
    requires n == 4 || n == 100 || n == 400
    ensures y / n == (y - 1) / n + if y % n == 0 then 1 else 0
  {
  }

  lemma MonthTotals(y: int)
    ensures DaysBeforeMonth(y, 12) == if IsLeap(y) then 335 else 334
  {
    assert DaysBeforeMonth(y, 3) == DaysBeforeMonth(y, 2) + DaysInMonth(y, 2) && DaysBeforeMonth(y, 2) == 31;
    assert DaysBeforeMonth(y, 5) == DaysBeforeMonth(y, 4) + 30 && DaysBeforeMonth(y, 4) == DaysBeforeMonth(y, 3) + 31;
    assert DaysBeforeMonth(y, 7) == DaysBeforeMonth(y, 6) + 30 && DaysBeforeMonth(y, 6) == DaysBeforeMonth(y, 5) + 31;
    assert DaysBeforeMonth(y, 9) == DaysBeforeMonth(y, 8) + 31 && DaysBeforeMonth(y, 8) == DaysBeforeMonth(y, 7) + 31;
    assert DaysBeforeMonth(y, 11) == DaysBeforeMonth(y, 10) + 31 && DaysBeforeMonth(y, 10) == DaysBeforeMonth(y, 9) + 30;
    assert DaysBeforeMonth(y, 12) == DaysBeforeMonth(y, 11) + 30;
  }

  lemma {:induction false} LaterMonth(y: int, m: int, n: int)
    requires 1 <= m < n <= 12
    ensures DaysBeforeMonth(y, m) + DaysInMonth(y, m) <= DaysBeforeMonth(y, n)
    decreases n
  {
    if m < n - 1 { LaterMonth(y, m, n - 1); }
  }

  /** A date's day of the year stays within the year. */
  lemma WithinYear(d: Date)
    requires ValidDate(d)
    ensures DaysBeforeYear(d.year) < Ordinal(d) <= DaysBeforeYear(d.year + 1)
  {
    YearLength(d.year);
    FromFirstMonth(d.year, d.month);
    if d.month < 12 { LaterMonth(d.year, d.month, 12); }
  }

  lemma {:induction false} FromFirstMonth(y: int, m: int)
    ensures DaysBeforeMonth(y, m) >= 0
    decreases m
  {
    if m > 1 { FromFirstMonth(y, m - 1); }
  }

  lemma {:induction false} LaterYear(y: int, z: int)
    requires y < z
    ensures DaysBeforeYear(y + 1) <= DaysBeforeYear(z)
    decreases z - y
  {
    if y + 1 < z {
      LaterYear(y, z - 1);
      YearLength(z - 1);
      MonthTotals(z - 1);
    }
  }

  predicate DateBefore(a: Date, b: Date)
  {
    a.year < b.year || (a.year == b.year && (a.month < b.month || (a.month == b.month && a.day < b.day)))
  }

  lemma EarlierDate(a: Date, b: Date)
    requires ValidDate(a) && ValidDate(b) && DateBefore(a, b)
    ensures Ordinal(a) < Ordinal(b)
  {
    if a.year < b.year {
      WithinYear(a);
      WithinYear(b);
      LaterYear(a.year, b.year);
    } else if a.month < b.month {
      LaterMonth(a.year, a.month, b.month);
    }
  }

  /** Dates order like their ordinals. */
  lemma DateOrder(a: Date, b: Date)
    requires ValidDate(a) && ValidDate(b)
    ensures DateBefore(a, b) <==> Ordinal(a) < Ordinal(b)
  {
    if DateBefore(a, b) {
      EarlierDate(a, b);
    } else if a != b {
      EarlierDate(b, a);
    }
  }

  // ---- Moving to UTC ----

  function NextDay(d: Date): Date
  {
    if d.day < DaysInMonth(d.year, d.month) then d.(day := d.day + 1)
    else if d.month < 12 then Date(d.year, d.month + 1, 1)
    else Date(d.year + 1, 1, 1)
  }

  function PreviousDay(d: Date): Date
  {
    if d.day > 1 then d.(day := d.day - 1)
    else if d.month > 1 then Date(d.year, d.month - 1, DaysInMonth(d.year, d.month - 1))
    else Date(d.year - 1, 12, 31)
  }

  lemma DayAfter(d: Date)
    requires ValidDate(d)
    ensures Ordinal(NextDay(d)) == Ordinal(d) + 1
  {
    if d.day == DaysInMonth(d.year, d.month) {
      if d.month < 12 {
        assert DaysBeforeMonth(d.year, d.month + 1) == DaysBeforeMonth(d.year, d.month) + d.day;
      } else {
        YearLength(d.year);
        assert DaysBeforeMonth(d.year + 1, 1) == 0;
      }
    }
  }

  lemma DayBefore(d: Date)
    requires ValidDate(d)
    ensures Ordinal(PreviousDay(d)) == Ordinal(d) - 1
  {
    if d.day == 1 {
      if d.month > 1 {
        assert DaysBeforeMonth(d.year, d.month) == DaysBeforeMonth(d.year, d.month - 1) + DaysInMonth(d.year, d.month - 1);
      } else {
        YearLength(d.year - 1);
        assert DaysBeforeMonth(d.year, 1) == 0;
      }
    }
  }

  function MoveDay(d: Date, shift: int): Date
    requires -1 <= shift <= 1
  {
    if shift == 1 then NextDay(d) else if shift == -1 then PreviousDay(d) else d
  }

  function AtMicro(d: Date, t: int): (c: Civil)
    requires 0 <= t < DAY
    ensures c.date == d && MicroOfDay(c) == t && 0 <= c.hour < 24 && 0 <= c.minute < 60 && 0 <= c.second < 60 && 0 <= c.micro < 1000000
  {
    var seconds := t / 1000000;
    Civil(d, seconds / 3600, seconds / 60 % 60, seconds % 60, t % 1000000)
  }

  /** `at.astimezone(UTC)` of a datetime; None is the OverflowError for an instant outside years 1 to 9999. */
  function ToUtc(at: Aware): Option<Civil>
  {
    if !ValidAware(at) then None else
    var t := MicroOfDay(at.local) - at.offset;
    var shift := if t < 0 then -1 else if t >= DAY then 1 else 0;
    var date := MoveDay(at.local.date, shift);
    if ValidDate(date) then Some(AtMicro(date, t - shift * DAY)) else None
  }

  function Utc(c: Civil): Aware { Aware(c, 0) }

  lemma MoveDayMoves(d: Date, shift: int)
    requires ValidDate(d) && -1 <= shift <= 1
    ensures Ordinal(MoveDay(d, shift)) == Ordinal(d) + shift
  {
    DayAfter(d);
    DayBefore(d);
  }

  /** Moving to UTC keeps the instant. */
  lemma UtcKeepsInstant(at: Aware)
    requires ToUtc(at).Some?
    ensures ValidCivil(ToUtc(at).value) && Wall(ToUtc(at).value) == Instant(at)
  {
    var t := MicroOfDay(at.local) - at.offset;
    MoveDayMoves(at.local.date, if t < 0 then -1 else if t >= DAY then 1 else 0);
  }

  const FIRST_DAY: Date := Date(1, 1, 1)

  const LAST_DAY: Date := Date(MAX_YEAR, 12, 31)

  lemma MovedDateExists(d: Date, shift: int)
    requires ValidDate(d) && -1 <= shift <= 1
    ensures ValidDate(MoveDay(d, shift)) <==> Ordinal(FIRST_DAY) <= Ordinal(d) + shift <= Ordinal(LAST_DAY)
  {
    FirstAndLast(d);
    MoveDayMoves(d, shift);
  }

  lemma FirstAndLast(d: Date)
    requires ValidDate(d)
    ensures Ordinal(FIRST_DAY) <= Ordinal(d) <= Ordinal(LAST_DAY)
    ensures Ordinal(d) == Ordinal(FIRST_DAY) <==> d == FIRST_DAY
    ensures Ordinal(d) == Ordinal(LAST_DAY) <==> d == LAST_DAY
  {
    DateOrder(d, LAST_DAY);
    DateOrder(FIRST_DAY, d);
    DateOrder(LAST_DAY, d);
    DateOrder(d, FIRST_DAY);
  }

  /** `astimezone` overflows exactly for instants outside years 1 to 9999 in UTC. */
  lemma UtcExists(at: Aware)
    requires ValidAware(at)
    ensures ToUtc(at).Some? <==> Ordinal(FIRST_DAY) * DAY <= Instant(at) < (Ordinal(LAST_DAY) + 1) * DAY
  {
    var t := MicroOfDay(at.local) - at.offset;
    var shift := if t < 0 then -1 else if t >= DAY then 1 else 0;
    MovedDateExists(at.local.date, shift);
    assert 0 <= t - shift * DAY < DAY;
    assert Instant(at) == (Ordinal(at.local.date) + shift) * DAY + (t - shift * DAY);
  }

  // ---- Text ----

  function Digits(n: int, w: nat): (s: string)
    ensures |s| == w && forall i :: 0 <= i < |s| ==> IsDigit(s[i])
    decreases w
  {
    if w == 0 then "" else Digits(n / 10, w - 1) + [DigitChar(n % 10)]
  }

  function Power(w: nat): int { if w == 0 then 1 else 10 * Power(w - 1) }

  /** What `isoformat` writes for the fraction and a zero offset. */
  function Tail(micro: int): string
  {
    if micro == 0 then "+00:00" else "." + (Digits(micro, 6) + "+00:00")
  }

  function ClockText(c: Civil): string
  {
    Digits(c.hour, 2) + (":" + (Digits(c.minute, 2) + (":" + (Digits(c.second, 2) + Tail(c.micro)))))
  }

  /** `c.isoformat()` of a UTC datetime. */
  function IsoText(c: Civil): string
  {
    Digits(c.date.year, 4) + ("-" + (Digits(c.date.month, 2) + ("-" + (Digits(c.date.day, 2) + ("T" + ClockText(c))))))
  }

  /** `_utc_text` of an aware timestamp. */
  function UtcText(at: Aware): Option<string>
  {
    if ToUtc(at).None? then None else Some(IsoText(ToUtc(at).value))
  }

  /** Numbers of equal width compare first, then what follows them. */
  lemma {:induction false} DigitsDecide(a: int, b: int, w: nat, x: string, y: string)
    requires 0 <= a < Power(w) && 0 <= b < Power(w)
    ensures Before(Digits(a, w) + x, Digits(b, w) + y) <==> a < b || (a == b && Before(x, y))
    decreases w
  {
    if w == 0 {
      assert "" + x == x && "" + y == y;
    } else {
      var p, q := [DigitChar(a % 10)] + x, [DigitChar(b % 10)] + y;
      assert Digits(a, w) + x == Digits(a / 10, w - 1) + p;
      assert Digits(b, w) + y == Digits(b / 10, w - 1) + q;
      DigitsDecide(a / 10, b / 10, w - 1, p, q);
      assert p[1..] == x && q[1..] == y;
    }
  }

  lemma SeparatorPasses(c: char, x: string, y: string)
    ensures Before([c] + x, [c] + y) <==> Before(x, y)
  {
    BeforeAfterPrefix([c], x, y);
  }

  /** A missing fraction sorts before every written one: `+` is below `.`. */
  lemma TailOrder(a: int, b: int)
    requires 0 <= a < 1000000 && 0 <= b < 1000000
    ensures Before(Tail(a), Tail(b)) <==> a < b
  {
    BeforeIrreflexive("+00:00");
    if a != 0 && b != 0 {
      assert Power(6) == 1000000;
      SeparatorPasses('.', Digits(a, 6) + "+00:00", Digits(b, 6) + "+00:00");
      DigitsDecide(a, b, 6, "+00:00", "+00:00");
    } else {
      assert Tail(0)[0] == '+' && (a != 0 ==> Tail(a)[0] == '.') && (b != 0 ==> Tail(b)[0] == '.');
    }
  }

  predicate ClockBefore(a: Civil, b: Civil)
  {
    a.hour < b.hour || (a.hour == b.hour && (a.minute < b.minute || (a.minute == b.minute &&
      (a.second < b.second || (a.second == b.second && a.micro < b.micro)))))
  }

  lemma ClockOrder(a: Civil, b: Civil)
    requires ValidCivil(a) && ValidCivil(b)
    ensures ClockBefore(a, b) <==> MicroOfDay(a) < MicroOfDay(b)
  {
  }

  lemma ClockTextOrder(a: Civil, b: Civil)
    requires ValidCivil(a) && ValidCivil(b)
    ensures Before(ClockText(a), ClockText(b)) <==> ClockBefore(a, b)
  {
    assert Power(2) == 100;
    var sa, sb := Digits(a.second, 2) + Tail(a.micro), Digits(b.second, 2) + Tail(b.micro);
    var ma, mb := Digits(a.minute, 2) + (":" + sa), Digits(b.minute, 2) + (":" + sb);
    TailOrder(a.micro, b.micro);
    DigitsDecide(a.second, b.second, 2, Tail(a.micro), Tail(b.micro));
    SeparatorPasses(':', sa, sb);
    DigitsDecide(a.minute, b.minute, 2, ":" + sa, ":" + sb);
    SeparatorPasses(':', ma, mb);
    DigitsDecide(a.hour, b.hour, 2, ":" + ma, ":" + mb);
  }

  lemma IsoTextOrder(a: Civil, b: Civil)
    requires ValidCivil(a) && ValidCivil(b)
    ensures Before(IsoText(a), IsoText(b)) <==> DateBefore(a.date, b.date) || (a.date == b.date && ClockBefore(a, b))
  {
    assert Power(2) == 100 && Power(4) == 10000;
    var ca, cb := "T" + ClockText(a), "T" + ClockText(b);
    var da, db := Digits(a.date.day, 2) + ca, Digits(b.date.day, 2) + cb;
    var ma, mb := Digits(a.date.month, 2) + ("-" + da), Digits(b.date.month, 2) + ("-" + db);
    ClockTextOrder(a, b);
    SeparatorPasses('T', ClockText(a), ClockText(b));
    DigitsDecide(a.date.day, b.date.day, 2, ca, cb);
    SeparatorPasses('-', da, db);
    DigitsDecide(a.date.month, b.date.month, 2, "-" + da, "-" + db);
    SeparatorPasses('-', ma, mb);
    DigitsDecide(a.date.year, b.date.year, 4, "-" + ma, "-" + mb);
  }

  lemma CivilOrder(a: Civil, b: Civil)
    requires ValidCivil(a) && ValidCivil(b)
    ensures Wall(a) < Wall(b) <==> DateBefore(a.date, b.date) || (a.date == b.date && ClockBefore(a, b))
  {
    DateOrder(a.date, b.date);
    DateOrder(b.date, a.date);
    ClockOrder(a, b);
    assert 0 <= MicroOfDay(a) < DAY && 0 <= MicroOfDay(b) < DAY;
  }

  /**
   Text order is time order: for any two aware timestamps whose instants fall in years 1 to
   9999, whatever their offsets and whether or not either text carries a fraction.
   */
  lemma TextOrderIsTimeOrder(a: Aware, b: Aware)
    requires UtcText(a).Some? && UtcText(b).Some?
    ensures Before(UtcText(a).value, UtcText(b).value) <==> Instant(a) < Instant(b)
    ensures UtcText(a) == UtcText(b) <==> Instant(a) == Instant(b)
  {
    var x, y := ToUtc(a).value, ToUtc(b).value;
    UtcKeepsInstant(a);
    UtcKeepsInstant(b);
    IsoTextOrder(x, y);
    IsoTextOrder(y, x);
    CivilOrder(x, y);
    CivilOrder(y, x);
    BeforeTotal(IsoText(x), IsoText(y));
    BeforeIrreflexive(IsoText(x));
  }

  // ---- Reading text back ----

  datatype Taken = Taken(value: int, rest: string)

  function NumberOf(s: string): int
    requires forall i :: 0 <= i < |s| ==> IsDigit(s[i])
  {
    if s == "" then 0 else 10 * NumberOf(s[..|s| - 1]) + DigitValue(s[|s| - 1])
  }

  function TakeNumber(w: nat, s: string): Option<Taken>
  {
    if |s| >= w && forall i :: 0 <= i < w ==> IsDigit(s[i]) then Some(Taken(NumberOf(s[..w]), s[w..])) else None
  }

  /** `w` digits and then one given character. */
  function TakeField(w: nat, c: char, s: string): Option<Taken>
  {
    var n := TakeNumber(w, s);
    if n.Some? && n.value.rest != "" && n.value.rest[0] == c then Some(Taken(n.value.value, n.value.rest[1..])) else None
  }

  function TakeTail(s: string): Option<int>
  {
    if s == "+00:00" then Some(0)
    else if s != "" && s[0] == '.' then
      var n := TakeNumber(6, s[1..]);
      if n.Some? && n.value.rest == "+00:00" then Some(n.value.value) else None
    else None
  }

  function ParseClock(date: Date, s: string): Option<Civil>
  {
    var h := TakeField(2, ':', s);
    if h.None? then None else
    var m := TakeField(2, ':', h.value.rest);
    if m.None? then None else
    var sec := TakeNumber(2, m.value.rest);
    if sec.None? then None else
    var micro := TakeTail(sec.value.rest);
    if micro.None? then None else Some(Civil(date, h.value.value, m.value.value, sec.value.value, micro.value))
  }

  /** `datetime.fromisoformat` on the texts `isoformat` writes for UTC. */
  function ParseIso(s: string): Option<Civil>
  {
    var y := TakeField(4, '-', s);
    if y.None? then None else
    var m := TakeField(2, '-', y.value.rest);
    if m.None? then None else
    var d := TakeField(2, 'T', m.value.rest);
    if d.None? then None else
    var c := ParseClock(Date(y.value.value, m.value.value, d.value.value), d.value.rest);
    if c.Some? && ValidCivil(c.value) then c else None
  }

  lemma {:induction false} NumberOfDigits(n: int, w: nat)
    requires 0 <= n < Power(w)
    ensures NumberOf(Digits(n, w)) == n
    decreases w
  {
    if w > 0 {
      NumberOfDigits(n / 10, w - 1);
      assert Digits(n, w)[..w - 1] == Digits(n / 10, w - 1);
    }
  }

  lemma TakeDigits(n: int, w: nat, rest: string)
    requires 0 <= n < Power(w)
    ensures TakeNumber(w, Digits(n, w) + rest) == Some(Taken(n, rest))
  {
    var s := Digits(n, w) + rest;
    NumberOfDigits(n, w);
    assert s[..w] == Digits(n, w) && s[w..] == rest;
    assert forall i :: 0 <= i < w ==> s[i] == Digits(n, w)[i];
  }

  lemma TakeWritten(n: int, w: nat, c: char, rest: string)
    requires 0 <= n < Power(w)
    ensures TakeField(w, c, Digits(n, w) + ([c] + rest)) == Some(Taken(n, rest))
  {
    TakeDigits(n, w, [c] + rest);
    assert ([c] + rest)[1..] == rest;
  }

  lemma TakeWrittenTail(micro: int)
    requires 0 <= micro < 1000000
    ensures TakeTail(Tail(micro)) == Some(micro)
  {
    if micro != 0 {
      assert Power(6) == 1000000;
      TakeDigits(micro, 6, "+00:00");
      assert Tail(micro)[0] == '.' && Tail(micro)[1..] == Digits(micro, 6) + "+00:00";
    }
  }

  /** What was written reads back as the same UTC datetime. */
  lemma ParseIsoText(c: Civil)
    requires ValidCivil(c)
    ensures ParseIso(IsoText(c)) == Some(c)
  {
    assert Power(2) == 100 && Power(4) == 10000;
    ParseClockText(c);
    var ct := ClockText(c);
    var dt := Digits(c.date.day, 2) + ("T" + ct);
    var mt := Digits(c.date.month, 2) + ("-" + dt);
    TakeWritten(c.date.year, 4, '-', mt);
    TakeWritten(c.date.month, 2, '-', dt);
    TakeWritten(c.date.day, 2, 'T', ct);
  }

  lemma ParseClockText(c: Civil)
    requires ValidCivil(c)
    ensures ParseClock(c.date, ClockText(c)) == Some(c)
  {
    assert Power(2) == 100;
    var st := Digits(c.second, 2) + Tail(c.micro);
    var mt := Digits(c.minute, 2) + (":" + st);
    TakeWritten(c.hour, 2, ':', mt);
    TakeWritten(c.minute, 2, ':', st);
    TakeDigits(c.second, 2, Tail(c.micro));
    TakeWrittenTail(c.micro);
  }
}
