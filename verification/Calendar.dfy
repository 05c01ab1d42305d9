// Instants and their canonical text: RFC 3339 in UTC with exactly nine fractional
// digits (internal/auditlog/chain.go, TimeFormat). An instant is a number of
// nanoseconds since 0000-01-01T00:00:00Z in the proleptic Gregorian calendar.
module Calendar {
  import opened Decimal

  type Instant = int

  const SECOND: int := 1_000_000_000
  const DAY: int := 86_400 * SECOND

  predicate IsLeap(y: int) { y % 4 == 0 && (y % 100 != 0 || y % 400 == 0) }

  /** Days from 0000-01-01 to the first day of year y (negative before year 0). */
  function DaysBeforeYear(y: int): int {
    365 * y + (y + 3) / 4 - (y + 99) / 100 + (y + 399) / 400
  }

  lemma QuarterStep(y: int)
    ensures (y + 4) / 4 == (y + 3) / 4 + if y % 4 == 0 then 1 else 0
  {
  }

  lemma CenturyStep(y: int)
    ensures (y + 100) / 100 == (y + 99) / 100 + if y % 100 == 0 then 1 else 0
  {
  }

  lemma CycleStep(y: int)
    ensures (y + 400) / 400 == (y + 399) / 400 + if y % 400 == 0 then 1 else 0
  {
  }

  lemma LeapDivisors(y: int)
    ensures y % 100 == 0 ==> y % 4 == 0
    ensures y % 400 == 0 ==> y % 100 == 0
  {
    var c, q := y / 100, y / 400;
    if y % 100 == 0 { assert y == 4 * (25 * c); }
    if y % 400 == 0 { assert y == 100 * (4 * q); }
  }

  lemma YearLength(y: int)
    ensures DaysBeforeYear(y + 1) - DaysBeforeYear(y) == if IsLeap(y) then 366 else 365
  {
    QuarterStep(y);
    CenturyStep(y);
    CycleStep(y);
    LeapDivisors(y);
  }

  /** The year that holds day n. */
  function YearOf(n: int): (y: int)
    ensures DaysBeforeYear(y) <= n < DaysBeforeYear(y + 1)
  {
    var y := 400 * n / 146_097;
    if n < DaysBeforeYear(y) then y - 1
    else if n < DaysBeforeYear(y + 1) then y
    else y + 1
  }

  function MonthDays(leap: bool, m: int): (n: int)
    requires 1 <= m <= 12
    ensures 28 <= n <= 31
  {
    if m == 2 then (if leap then 29 else 28)
    else if m == 4 || m == 6 || m == 9 || m == 11 then 30 else 31
  }

  /** Days of the year before month m; m == 13 gives the length of the year. */
  function DaysBeforeMonth(leap: bool, m: int): (n: nat)
    requires 1 <= m <= 13
    ensures n <= 31 * (m - 1)
  {
    if m == 1 then 0 else DaysBeforeMonth(leap, m - 1) + MonthDays(leap, m - 1)
  }

  /** The month, counted down from m, that holds day d of the year. */
  function MonthOf(leap: bool, d: nat, m: int): (r: int)
    requires 1 <= m <= 12 && d < DaysBeforeMonth(leap, m + 1)
    ensures 1 <= r <= m && DaysBeforeMonth(leap, r) <= d < DaysBeforeMonth(leap, r + 1)
  {
    if DaysBeforeMonth(leap, m) <= d then m else MonthOf(leap, d, m - 1)
  }

  lemma YearSpan(leap: bool)
    ensures DaysBeforeMonth(leap, 13) == if leap then 366 else 365
  {
    assert DaysBeforeMonth(leap, 2) == DaysBeforeMonth(leap, 1) + MonthDays(leap, 1);
    assert DaysBeforeMonth(leap, 3) == DaysBeforeMonth(leap, 2) + MonthDays(leap, 2);
    assert DaysBeforeMonth(leap, 4) == DaysBeforeMonth(leap, 3) + MonthDays(leap, 3);
    assert DaysBeforeMonth(leap, 5) == DaysBeforeMonth(leap, 4) + MonthDays(leap, 4);
    assert DaysBeforeMonth(leap, 6) == DaysBeforeMonth(leap, 5) + MonthDays(leap, 5);
    assert DaysBeforeMonth(leap, 7) == DaysBeforeMonth(leap, 6) + MonthDays(leap, 6);
    assert DaysBeforeMonth(leap, 8) == DaysBeforeMonth(leap, 7) + MonthDays(leap, 7);
    assert DaysBeforeMonth(leap, 9) == DaysBeforeMonth(leap, 8) + MonthDays(leap, 8);
    assert DaysBeforeMonth(leap, 10) == DaysBeforeMonth(leap, 9) + MonthDays(leap, 9);
    assert DaysBeforeMonth(leap, 11) == DaysBeforeMonth(leap, 10) + MonthDays(leap, 10);
    assert DaysBeforeMonth(leap, 12) == DaysBeforeMonth(leap, 11) + MonthDays(leap, 11);
    assert DaysBeforeMonth(leap, 13) == DaysBeforeMonth(leap, 12) + MonthDays(leap, 12);
  }

  datatype Civil = Civil(year: int, month: int, day: int)

  /** The civil date of day n. */
  function CivilOf(n: int): (c: Civil)
    ensures 1 <= c.month <= 12 && 1 <= c.day <= 31
    ensures DayNumber(c) == n
  {
    var y := YearOf(n);
    YearLength(y);
    YearSpan(IsLeap(y));
    var d := n - DaysBeforeYear(y);
    var m := MonthOf(IsLeap(y), d, 12);
    Civil(y, m, d - DaysBeforeMonth(IsLeap(y), m) + 1)
  }

  /** The day a civil date names. */
  function DayNumber(c: Civil): int
    requires 1 <= c.month <= 12
  {
    DaysBeforeYear(c.year) + DaysBeforeMonth(IsLeap(c.year), c.month) + c.day - 1
  }

  /** The time of day in nanoseconds, as HH:MM:SS.nnnnnnnnn. */
  function ClockText(ns: nat): (s: string)
    requires ns < DAY
    ensures |s| == 18
  {
    var sec := ns / SECOND;
    assert Pow10(2) == 100 && Pow10(9) == 1_000_000_000 by { assert Pow10(4) == 10_000; assert Pow10(7) == 10_000_000; }
    Fixed(sec / 3600, 2) + ":" + Fixed(sec / 60 % 60, 2) + ":" + Fixed(sec % 60, 2) + "." + Fixed(ns % SECOND, 9)
  }

  /** The text of a date and a time of day. */
  function TimeText(c: Civil, ns: nat): (s: string)
    requires 1 <= c.month <= 12 && 1 <= c.day <= 31 && ns < DAY
    ensures |s| >= 26
  {
    assert Pow10(2) == 100;
    var tail := "-" + Fixed(c.month, 2) + "-" + Fixed(c.day, 2) + "T" + ClockText(ns) + "Z";
    assert |tail| == 26;
    Signed(c.year, 4) + tail
  }

  /** FormatTime: the canonical text of an instant. */
  function FormatTime(t: Instant): (s: string)
    ensures |s| >= 26
  {
    TimeText(CivilOf(t / DAY), t % DAY)
  }

  /** The number a fixed field of s denotes, if it is all digits. */
  function Field(s: string, from: nat, to: nat): Option<nat>
    requires from <= to <= |s|
  {
    if AllDigits(s[from..to]) then Some(Value(s[from..to])) else None
  }

  /** Reads a canonical time back. */
  function ParseTime(s: string): Option<Instant> {
    if |s| < 26 then None else
    var tail := s[|s| - 26..];
    var y :- SignedValue(s[..|s| - 26]);
    var month :- Field(tail, 1, 3);
    var day :- Field(tail, 4, 6);
    var hh :- Field(tail, 7, 9);
    var mm :- Field(tail, 10, 12);
    var ss :- Field(tail, 13, 15);
    var ns :- Field(tail, 16, 25);
    if !(1 <= month <= 12) then None else
    Some(DayNumber(Civil(y, month, day)) * DAY + ((hh * 60 + mm) * 60 + ss) * SECOND + ns)
  }

  lemma ClockSplit(ns: nat)
    requires ns < DAY
    ensures var sec := ns / SECOND;
            ((sec / 3600 * 60 + sec / 60 % 60) * 60 + sec % 60) * SECOND + ns % SECOND == ns
  {
    var sec := ns / SECOND;
    assert sec == sec / 60 * 60 + sec % 60;
    assert sec / 60 / 60 == sec / 3600;
    assert sec / 60 == sec / 60 / 60 * 60 + sec / 60 % 60;
  }

  /** The fixed-width part of a canonical time, and its fields. */
  lemma TailFields(c: Civil, ns: nat)
    requires 1 <= c.month <= 12 && 1 <= c.day <= 31 && ns < DAY
    ensures Pow10(2) == 100
    ensures var tail := "-" + Fixed(c.month, 2) + "-" + Fixed(c.day, 2) + "T" + ClockText(ns) + "Z";
            var sec := ns / SECOND;
            && |tail| == 26
            && Field(tail, 1, 3) == Some(c.month) && Field(tail, 4, 6) == Some(c.day)
            && Field(tail, 7, 9) == Some(sec / 3600) && Field(tail, 10, 12) == Some(sec / 60 % 60)
            && Field(tail, 13, 15) == Some(sec % 60) && Field(tail, 16, 25) == Some(ns % SECOND)
  {
    assert Pow10(2) == 100;
    assert Pow10(9) == 1_000_000_000 by { assert Pow10(4) == 10_000; assert Pow10(7) == 10_000_000; }
    var sec := ns / SECOND;
    var mo, da := Fixed(c.month, 2), Fixed(c.day, 2);
    var hh, mm, ss, nn := Fixed(sec / 3600, 2), Fixed(sec / 60 % 60, 2), Fixed(sec % 60, 2), Fixed(ns % SECOND, 9);
    var tail := "-" + mo + "-" + da + "T" + ClockText(ns) + "Z";
    assert ClockText(ns) == hh + ":" + mm + ":" + ss + "." + nn;
    assert tail[1..3] == mo;
    assert tail[4..6] == da;
    assert tail[7..9] == hh;
    assert tail[10..12] == mm;
    assert tail[13..15] == ss;
    assert tail[16..25] == nn;
    ValueOfFixed(c.month, 2);
    ValueOfFixed(c.day, 2);
    ValueOfFixed(sec / 3600, 2);
    ValueOfFixed(sec / 60 % 60, 2);
    ValueOfFixed(sec % 60, 2);
    ValueOfFixed(ns % SECOND, 9);
  }

  /** The canonical text of an instant determines it, in every year. */
  lemma TimeRoundTrip(t: Instant)
    ensures ParseTime(FormatTime(t)) == Some(t)
  {
    DayAndRest(t);
    ParseAt(t, CivilOf(t / DAY), t / DAY, t % DAY);
  }

  lemma ParseCivil(c: Civil, ns: nat)
    requires 1 <= c.month <= 12 && 1 <= c.day <= 31 && ns < DAY
    ensures Pow10(2) == 100
    ensures var sec := ns / SECOND;
            ParseTime(Signed(c.year, 4) + ("-" + Fixed(c.month, 2) + "-" + Fixed(c.day, 2) + "T" + ClockText(ns) + "Z")) ==
            Some(DayNumber(c) * DAY + ((sec / 3600 * 60 + sec / 60 % 60) * 60 + sec % 60) * SECOND + ns % SECOND)
  {
    TailFields(c, ns);
    SignedRoundTrip(c.year, 4);
    ParseParts(Signed(c.year, 4), c, "-" + Fixed(c.month, 2) + "-" + Fixed(c.day, 2) + "T" + ClockText(ns) + "Z", ns);
  }

  lemma ParseClock(c: Civil, ns: nat)
    requires 1 <= c.month <= 12 && 1 <= c.day <= 31 && ns < DAY
    ensures ParseTime(TimeText(c, ns)) == Some(DayNumber(c) * DAY + ns)
  {
    ParseCivil(c, ns);
    ClockSplit(ns);
  }

  lemma ParseAt(t: Instant, c: Civil, day: int, ns: nat)
    requires 1 <= c.month <= 12 && 1 <= c.day <= 31 && ns < DAY && DayNumber(c) == day && t == day * DAY + ns
    ensures ParseTime(TimeText(c, ns)) == Some(t)
  {
    ParseClock(c, ns);
  }

  lemma DayAndRest(t: Instant)
    ensures 0 <= t % DAY < DAY && t == t / DAY * DAY + t % DAY
  {
  }

  lemma ParseParts(year: string, c: Civil, tail: string, ns: nat)
    requires SignedValue(year) == Some(c.year) && 1 <= c.month <= 12 && ns < DAY && |tail| == 26
    requires Field(tail, 1, 3) == Some(c.month) && Field(tail, 4, 6) == Some(c.day)
    requires var sec := ns / SECOND;
             && Field(tail, 7, 9) == Some(sec / 3600) && Field(tail, 10, 12) == Some(sec / 60 % 60)
             && Field(tail, 13, 15) == Some(sec % 60) && Field(tail, 16, 25) == Some(ns % SECOND)
    ensures var sec := ns / SECOND;
            ParseTime(year + tail) ==
            Some(DayNumber(c) * DAY + ((sec / 3600 * 60 + sec / 60 % 60) * 60 + sec % 60) * SECOND + ns % SECOND)
  {
    var s := year + tail;
    assert s[|s| - 26..] == tail;
    assert s[..|s| - 26] == year;
  }
}
