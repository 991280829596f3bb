/**
 Timestamps as text. The tables hold instants as strings and SQL compares the
 strings, so the text must be ordered as the instants are. It is, for the
 fixed-width form; for the form that drops trailing zeros it is not always.
 */
module Timestamps {
  import opened Common

  // ------------------------------------------------------------ byte order

  /** Byte-wise comparison, the order of the database. */
  predicate Less(a: string, b: string) {
    b != "" && (a == "" || a[0] < b[0] || (a[0] == b[0] && Less(a[1..], b[1..])))
  }

  lemma {:induction false} LessAppend(x: string, y: string, u: string, v: string)
    requires |x| == |y|
    ensures Less(x + u, y + v) <==> Less(x, y) || (x == y && Less(u, v))
    decreases |x|
  {
    if x == "" {
      assert x + u == u && y + v == v;
    } else {
      assert (x + u)[1..] == x[1..] + u && (y + v)[1..] == y[1..] + v;
      LessAppend(x[1..], y[1..], u, v);
      assert x == [x[0]] + x[1..] && y == [y[0]] + y[1..];
    }
  }

  lemma LessAfter(c: char, u: string, v: string)
    ensures Less([c] + u, [c] + v) <==> Less(u, v)
  {
    LessAppend([c], [c], u, v);
    LessSelf([c]);
  }

  lemma {:induction false} LessSelf(s: string)
    ensures !Less(s, s)
  {
    if s != "" { LessSelf(s[1..]); }
  }

  // --------------------------------------------------------------- digits

  function Pow10(w: nat): nat { if w == 0 then 1 else 10 * Pow10(w - 1) }

  function Digit(d: nat): char
    requires d < 10
  {
    ('0' as int + d) as char
  }

  predicate IsDigit(c: char) { '0' <= c <= '9' }

  /** n in decimal, padded with zeros to w digits. */
  function Digits(n: nat, w: nat): (s: string)
    requires n < Pow10(w)
    ensures |s| == w && forall c :: c in s ==> IsDigit(c)
  {
    if w == 0 then "" else Digits(n / 10, w - 1) + [Digit(n % 10)]
  }

  function Value(s: string): nat
    requires forall c :: c in s ==> IsDigit(c)
  {
    if s == "" then 0 else
      assert s[|s| - 1] in s && IsDigit(s[|s| - 1]);
      10 * Value(s[..|s| - 1]) + (s[|s| - 1] as int - '0' as int)
  }

  lemma {:induction false} ValueOfDigits(n: nat, w: nat)
    requires n < Pow10(w)
    ensures Value(Digits(n, w)) == n
  {
    if w > 0 {
      var s := Digits(n, w);
      ValueOfDigits(n / 10, w - 1);
      assert s[..w - 1] == Digits(n / 10, w - 1);
    }
  }

  lemma {:induction false} DigitsOrder(a: nat, b: nat, w: nat)
    requires a < Pow10(w) && b < Pow10(w)
    ensures Less(Digits(a, w), Digits(b, w)) <==> a < b
    ensures Digits(a, w) == Digits(b, w) <==> a == b
  {
    if w > 0 {
      DigitsOrder(a / 10, b / 10, w - 1);
      var x, y := Digits(a / 10, w - 1), Digits(b / 10, w - 1);
      LessAppend(x, y, [Digit(a % 10)], [Digit(b % 10)]);
      if Digits(a, w) == Digits(b, w) {
        assert x == Digits(a, w)[..w - 1] && y == Digits(b, w)[..w - 1];
        assert Digits(a, w)[w - 1] == Digits(b, w)[w - 1];
      }
    }
  }

  lemma FieldOrder(a: nat, b: nat, w: nat, u: string, v: string)
    requires a < Pow10(w) && b < Pow10(w)
    ensures Less(Digits(a, w) + u, Digits(b, w) + v) <==> a < b || (a == b && Less(u, v))
  {
    DigitsOrder(a, b, w);
    LessAppend(Digits(a, w), Digits(b, w), u, v);
  }

  // ------------------------------------------------------------- the calendar

  predicate Leap(y: nat) { y % 4 == 0 && (y % 100 != 0 || y % 400 == 0) }

  function YearLength(y: nat): nat { if Leap(y) then 366 else 365 }

  function MonthLength(y: nat, m: nat): nat
    requires 1 <= m <= 12
  {
    if m == 2 then (if Leap(y) then 29 else 28) else if m in {4, 6, 9, 11} then 30 else 31
  }

  function DaysBeforeYear(y: nat): nat { if y == 0 then 0 else DaysBeforeYear(y - 1) + YearLength(y - 1) }

  function DaysBeforeMonth(y: nat, m: nat): nat
    requires 1 <= m <= 13
  {
    if m == 1 then 0 else DaysBeforeMonth(y, m - 1) + MonthLength(y, m - 1)
  }

  datatype Stamp = Stamp(year: nat, month: nat, day: nat, hour: nat, minute: nat, second: nat, nano: nat)

  predicate DateOk(s: Stamp) { s.year <= 9999 && 1 <= s.month <= 12 && 1 <= s.day <= MonthLength(s.year, s.month) }

  predicate ClockOk(s: Stamp) { s.hour < 24 && s.minute < 60 && s.second < 60 && s.nano < SECOND }

  predicate StampOk(s: Stamp) { DateOk(s) && ClockOk(s) }

  function DayNumber(s: Stamp): nat
    requires DateOk(s)
  {
    DaysBeforeYear(s.year) + DaysBeforeMonth(s.year, s.month) + s.day - 1
  }

  const DAY: nat := 24 * 60 * 60 * SECOND

  function ClockTime(s: Stamp): nat { ((s.hour * 60 + s.minute) * 60 + s.second) * SECOND + s.nano }

  /** Nanoseconds since the start of the year 0000. */
  function Instant(s: Stamp): Time
    requires StampOk(s)
  {
    DayNumber(s) * DAY + ClockTime(s)
  }

  predicate InRange(t: Time) { 0 <= t < DaysBeforeYear(10000) * DAY }

  lemma {:induction false} MonthsWithinYear(y: nat, m: nat)
    requires 1 <= m <= 13
    ensures DaysBeforeMonth(y, m) <= DaysBeforeMonth(y, 13) == YearLength(y)
    ensures m <= 12 ==> DaysBeforeMonth(y, m) + MonthLength(y, m) <= YearLength(y)
    decreases 13 - m
  {
    if m == 13 {
      YearSum(y);
    } else {
      MonthsWithinYear(y, m + 1);
    }
  }

  lemma YearSum(y: nat)
    ensures DaysBeforeMonth(y, 13) == YearLength(y)
  {
    assert DaysBeforeMonth(y, 2) == 31;
    assert DaysBeforeMonth(y, 3) == (if Leap(y) then 60 else 59);
    assert DaysBeforeMonth(y, 4) == DaysBeforeMonth(y, 3) + 31;
    assert DaysBeforeMonth(y, 5) == DaysBeforeMonth(y, 4) + 30;
    assert DaysBeforeMonth(y, 6) == DaysBeforeMonth(y, 5) + 31;
    assert DaysBeforeMonth(y, 7) == DaysBeforeMonth(y, 6) + 30;
    assert DaysBeforeMonth(y, 8) == DaysBeforeMonth(y, 7) + 31;
    assert DaysBeforeMonth(y, 9) == DaysBeforeMonth(y, 8) + 31;
    assert DaysBeforeMonth(y, 10) == DaysBeforeMonth(y, 9) + 30;
    assert DaysBeforeMonth(y, 11) == DaysBeforeMonth(y, 10) + 31;
    assert DaysBeforeMonth(y, 12) == DaysBeforeMonth(y, 11) + 30;
    assert DaysBeforeMonth(y, 13) == DaysBeforeMonth(y, 12) + 31;
  }

  lemma {:induction false} MonthsGrow(y: nat, m: nat, n: nat)
    requires 1 <= m < n <= 13
    ensures DaysBeforeMonth(y, m) + MonthLength(y, m) <= DaysBeforeMonth(y, n)
    decreases n
  {
    if m < n - 1 { MonthsGrow(y, m, n - 1); }
  }

  lemma {:induction false} YearsGrow(y: nat, z: nat)
    requires y < z
    ensures DaysBeforeYear(y) + YearLength(y) <= DaysBeforeYear(z)
    decreases z
  {
    if y < z - 1 { YearsGrow(y, z - 1); }
  }

  /**
   The calendar in closed form: years start in March, so that the leap day is the last
   day of its year, and every fourth is longer but the centuries not divisible by 400.
   */
  ghost function DayInMarchYears(year: nat, month: nat, day: nat): int {
    var y, m := if month > 2 then year else year - 1, if month > 2 then month - 3 else month + 9;
    365 * y + y / 4 - y / 100 + y / 400 + (153 * m + 2) / 5 + day + 59
  }

  lemma {:induction false} YearsBefore(y: nat)
    ensures DaysBeforeYear(y) == 365 * y + (y + 3) / 4 - (y + 99) / 100 + (y + 399) / 400
  {
    if y > 0 {
      YearsBefore(y - 1);
      Ceiling4(y - 1);
      Ceiling100(y - 1);
      Ceiling400(y - 1);
      LeapCount(y - 1);
    }
  }

  lemma Ceiling4(x: nat)
    ensures (x + 4) / 4 == (x + 3) / 4 + if x % 4 == 0 then 1 else 0
  {
  }

  lemma Ceiling100(x: nat)
    ensures (x + 100) / 100 == (x + 99) / 100 + if x % 100 == 0 then 1 else 0
  {
  }

  lemma Ceiling400(x: nat)
    ensures (x + 400) / 400 == (x + 399) / 400 + if x % 400 == 0 then 1 else 0
  {
  }

  lemma LeapCount(x: nat)
    ensures YearLength(x) == 365 + (if x % 4 == 0 then 1 else 0) - (if x % 100 == 0 then 1 else 0) + (if x % 400 == 0 then 1 else 0)
  {
    Century(x);
    FourCenturies(x);
  }

  lemma Century(x: nat)
    ensures x % 100 == 0 ==> x % 4 == 0
  {
    var c := 25 * (x / 100);
    if x % 100 == 0 { assert x == 4 * c; }
  }

  lemma FourCenturies(x: nat)
    ensures x % 400 == 0 ==> x % 100 == 0
  {
    var c := 4 * (x / 400);
    if x % 400 == 0 { assert x == 100 * c; }
  }

  /** Counting up to a year: one less than up to the next, or as far as the year if it has no leap day. */
  lemma Floors(y: nat)
    ensures (y + 3) / 4 == (y - 1) / 4 + 1 && (y + 3) / 4 == y / 4 + if y % 4 == 0 then 0 else 1
    ensures (y + 99) / 100 == (y - 1) / 100 + 1 && (y + 99) / 100 == y / 100 + if y % 100 == 0 then 0 else 1
    ensures (y + 399) / 400 == (y - 1) / 400 + 1 && (y + 399) / 400 == y / 400 + if y % 400 == 0 then 0 else 1
  {
  }

  lemma MonthsBefore(y: nat, m: nat)
    requires 1 <= m <= 12
    ensures DaysBeforeMonth(y, m) ==
            if m <= 2 then 31 * (m - 1) else (153 * (m - 3) + 2) / 5 + 59 + if y % 4 == 0 && (y % 100 != 0 || y % 400 == 0) then 1 else 0
  {
    YearSum(y);
  }

  /** The instant of a date and time: the day in closed form, and the time of day in nanoseconds. */
  lemma InstantIs(s: Stamp)
    requires StampOk(s)
    ensures Instant(s) == DayInMarchYears(s.year, s.month, s.day) * 86_400_000_000_000
              + s.hour * 3_600_000_000_000 + s.minute * 60_000_000_000 + s.second * 1_000_000_000 + s.nano
  {
    DayIs(s);
    assert DAY == 86_400_000_000_000;
  }

  lemma DayIs(s: Stamp)
    requires DateOk(s)
    ensures DayNumber(s) == DayInMarchYears(s.year, s.month, s.day)
  {
    YearsBefore(s.year);
    MonthsBefore(s.year, s.month);
    Floors(s.year);
    LeapCount(s.year);
    YearByParts(s.year, s.month, s.day, DaysBeforeYear(s.year), DaysBeforeMonth(s.year, s.month), s.year / 4, s.year / 100, s.year / 400, YearLength(s.year) - 365);
  }

  lemma YearByParts(y: nat, m: nat, d: nat, before: int, months: int, q4: int, q100: int, q400: int, leap: int)
    requires 1 <= m <= 12 && q4 == y / 4 && q100 == y / 100 && q400 == y / 400
    requires (y - 1) / 4 - (y - 1) / 100 + (y - 1) / 400 == before - 365 * y - 1
    requires q4 - q100 + q400 + 1 - leap == before - 365 * y
    requires months == if m <= 2 then 31 * (m - 1) else (153 * (m - 3) + 2) / 5 + 59 + leap
    ensures before + months + d - 1 == DayInMarchYears(y, m, d)
  {
    if m == 1 { assert (153 * 10 + 2) / 5 == 306; }
    if m == 2 { assert (153 * 11 + 2) / 5 == 337; }
  }

  // ------------------------------------------------------ fields and instants

  predicate DateLess(a: Stamp, b: Stamp) {
    a.year < b.year || (a.year == b.year && (a.month < b.month || (a.month == b.month && a.day < b.day)))
  }

  predicate SameDate(a: Stamp, b: Stamp) { a.year == b.year && a.month == b.month && a.day == b.day }

  predicate ClockLess(a: Stamp, b: Stamp) {
    a.hour < b.hour || (a.hour == b.hour && (a.minute < b.minute || (a.minute == b.minute &&
      (a.second < b.second || (a.second == b.second && a.nano < b.nano)))))
  }

  predicate StampLess(a: Stamp, b: Stamp) { DateLess(a, b) || (SameDate(a, b) && ClockLess(a, b)) }

  lemma EarlierDate(a: Stamp, b: Stamp)
    requires DateOk(a) && DateOk(b) && DateLess(a, b)
    ensures DayNumber(a) < DayNumber(b)
  {
    MonthsWithinYear(a.year, a.month);
    if a.year < b.year { YearsGrow(a.year, b.year); }
    else if a.month < b.month { MonthsGrow(a.year, a.month, b.month); }
  }

  lemma ClockOrder(a: Stamp, b: Stamp)
    requires ClockOk(a) && ClockOk(b)
    ensures ClockTime(a) < DAY
    ensures ClockTime(a) < ClockTime(b) <==> ClockLess(a, b)
  {
  }

  /** Fields compare as the instants they name. */
  lemma InstantOrder(a: Stamp, b: Stamp)
    requires StampOk(a) && StampOk(b)
    ensures Instant(a) < Instant(b) <==> StampLess(a, b)
    ensures Instant(a) == Instant(b) <==> a == b
  {
    ClockOrder(a, b);
    ClockOrder(b, a);
    if DateLess(a, b) {
      EarlierDate(a, b);
      assert (DayNumber(b) - DayNumber(a)) * DAY >= DAY;
    } else if DateLess(b, a) {
      EarlierDate(b, a);
      assert (DayNumber(a) - DayNumber(b)) * DAY >= DAY;
    } else {
      assert SameDate(a, b);
      if !ClockLess(a, b) && !ClockLess(b, a) { assert a == b; }
    }
  }

  function YearFrom(day: nat, y: nat): (r: nat)
    requires DaysBeforeYear(y) <= day < DaysBeforeYear(10000) && y < 10000
    ensures y <= r < 10000 && DaysBeforeYear(r) <= day < DaysBeforeYear(r + 1)
    decreases 10000 - y
  {
    if day < DaysBeforeYear(y + 1) then y else YearFrom(day, y + 1)
  }

  function MonthFrom(y: nat, rest: nat, m: nat): (r: nat)
    requires 1 <= m <= 12 && DaysBeforeMonth(y, m) <= rest < DaysBeforeMonth(y, 13)
    ensures m <= r <= 12 && DaysBeforeMonth(y, r) <= rest < DaysBeforeMonth(y, r + 1)
    decreases 12 - m
  {
    if rest < DaysBeforeMonth(y, m + 1) then m else MonthFrom(y, rest, m + 1)
  }

  function DateOf(day: nat): (s: Stamp)
    requires day < DaysBeforeYear(10000)
    ensures DateOk(s) && DayNumber(s) == day
  {
    var y := YearFrom(day, 0);
    YearSum(y);
    var m := MonthFrom(y, day - DaysBeforeYear(y), 1);
    Stamp(y, m, day - DaysBeforeYear(y) - DaysBeforeMonth(y, m) + 1, 0, 0, 0, 0)
  }

  /** Hour, minute, second and nanosecond. */
  function ClockOf(t: nat): (c: (nat, nat, nat, nat))
    requires t < DAY
    ensures c.0 < 24 && c.1 < 60 && c.2 < 60 && c.3 < SECOND
    ensures ((c.0 * 60 + c.1) * 60 + c.2) * SECOND + c.3 == t
  {
    var secs := t / SECOND;
    var minutes := secs / 60;
    (minutes / 60, minutes % 60, secs % 60, t % SECOND)
  }

  /** The UTC fields of an instant. */
  function StampOf(t: Time): (s: Stamp)
    requires InRange(t)
    ensures StampOk(s) && Instant(s) == t
  {
    DayInRange(t);
    var d, c := DateOf(t / DAY), ClockOf(t % DAY);
    var s := Stamp(d.year, d.month, d.day, c.0, c.1, c.2, c.3);
    assert DayNumber(s) == DayNumber(d);
    s
  }

  lemma DayInRange(t: Time)
    requires InRange(t)
    ensures 0 <= t / DAY < DaysBeforeYear(10000) && t == t / DAY * DAY + t % DAY
  {
    var d := t / DAY;
  }

  // ------------------------------------------------------------ fixed width

  lemma Widths()
    ensures Pow10(2) == 100 && Pow10(4) == 10_000 && Pow10(9) == SECOND
  {
    assert Pow10(3) == 1000 && Pow10(6) == 1_000_000;
  }

  function Clock(s: Stamp): string
    requires ClockOk(s)
  {
    Widths();
    Digits(s.hour, 2) + ([':'] + (Digits(s.minute, 2) + ([':'] + Digits(s.second, 2))))
  }

  function Date(s: Stamp): string
    requires DateOk(s)
  {
    Widths();
    Digits(s.year, 4) + (['-'] + (Digits(s.month, 2) + (['-'] + Digits(s.day, 2))))
  }

  /** "2006-01-02T15:04:05", the part both forms share. */
  function ToSecond(s: Stamp): (r: string)
    requires StampOk(s)
    ensures |r| == 19
  {
    Date(s) + (['T'] + Clock(s))
  }

  /** The layout "2006-01-02T15:04:05.000000000Z". */
  function FormatTime(t: Time): string
    requires InRange(t)
  {
    ToSecond(StampOf(t)) + NanoText(StampOf(t).nano)
  }

  predicate SecondLess(a: Stamp, b: Stamp) { StampLess(a.(nano := 0), b.(nano := 0)) }

  lemma SameHalves(p: string, q: string, c: char, u: string, v: string)
    requires |p| == |q|
    ensures p + ([c] + u) == q + ([c] + v) <==> p == q && u == v
  {
    assert (p + ([c] + u))[..|p|] == p && (p + ([c] + u))[|p| + 1..] == u;
    assert (q + ([c] + v))[..|p|] == q && (q + ([c] + v))[|p| + 1..] == v;
  }

  lemma DateText(a: Stamp, b: Stamp)
    requires DateOk(a) && DateOk(b)
    ensures |Date(a)| == |Date(b)| == 10
    ensures Less(Date(a), Date(b)) <==> DateLess(a, b)
    ensures Date(a) == Date(b) <==> SameDate(a, b)
  {
    Widths();
    DigitsOrder(a.day, b.day, 2);
    var u, v := Digits(a.day, 2), Digits(b.day, 2);
    LessAfter('-', u, v);
    FieldOrder(a.month, b.month, 2, ['-'] + u, ['-'] + v);
    var x, y := Digits(a.month, 2) + (['-'] + u), Digits(b.month, 2) + (['-'] + v);
    LessAfter('-', x, y);
    FieldOrder(a.year, b.year, 4, ['-'] + x, ['-'] + y);
    SameHalves(Digits(a.year, 4), Digits(b.year, 4), '-', x, y);
    SameHalves(Digits(a.month, 2), Digits(b.month, 2), '-', u, v);
    DigitsOrder(a.year, b.year, 4);
    DigitsOrder(a.month, b.month, 2);
  }

  lemma ClockText(a: Stamp, b: Stamp)
    requires ClockOk(a) && ClockOk(b)
    ensures |Clock(a)| == |Clock(b)| == 8
    ensures Less(Clock(a), Clock(b)) <==> ClockLess(a.(nano := 0), b.(nano := 0))
    ensures Clock(a) == Clock(b) <==> a.hour == b.hour && a.minute == b.minute && a.second == b.second
  {
    Widths();
    DigitsOrder(a.second, b.second, 2);
    var u, v := Digits(a.second, 2), Digits(b.second, 2);
    LessAfter(':', u, v);
    FieldOrder(a.minute, b.minute, 2, [':'] + u, [':'] + v);
    var x, y := Digits(a.minute, 2) + ([':'] + u), Digits(b.minute, 2) + ([':'] + v);
    LessAfter(':', x, y);
    FieldOrder(a.hour, b.hour, 2, [':'] + x, [':'] + y);
    SameHalves(Digits(a.hour, 2), Digits(b.hour, 2), ':', x, y);
    SameHalves(Digits(a.minute, 2), Digits(b.minute, 2), ':', u, v);
    DigitsOrder(a.hour, b.hour, 2);
    DigitsOrder(a.minute, b.minute, 2);
  }

  lemma SecondText(a: Stamp, b: Stamp)
    requires StampOk(a) && StampOk(b)
    ensures Less(ToSecond(a), ToSecond(b)) <==> SecondLess(a, b)
    ensures ToSecond(a) == ToSecond(b) <==> a.(nano := 0) == b.(nano := 0)
  {
    DateText(a, b);
    ClockText(a, b);
    LessAppend(Date(a), Date(b), ['T'] + Clock(a), ['T'] + Clock(b));
    LessAfter('T', Clock(a), Clock(b));
    if ToSecond(a) == ToSecond(b) {
      assert Date(a) == ToSecond(a)[..10] && Date(b) == ToSecond(b)[..10];
      assert Clock(a) == ToSecond(a)[11..] && Clock(b) == ToSecond(b)[11..];
    }
  }

  lemma StampSplit(a: Stamp, b: Stamp)
    ensures StampLess(a, b) <==> SecondLess(a, b) || (a.(nano := 0) == b.(nano := 0) && a.nano < b.nano)
  {
  }

  function NanoText(n: nat): string
    requires n < SECOND
  {
    Widths();
    ['.'] + (Digits(n, 9) + ['Z'])
  }

  lemma NanoOrder(m: nat, n: nat)
    requires m < SECOND && n < SECOND
    ensures Less(NanoText(m), NanoText(n)) <==> m < n
  {
    Widths();
    LessSelf(['Z']);
    FieldOrder(m, n, 9, ['Z'], ['Z']);
    LessAfter('.', Digits(m, 9) + ['Z'], Digits(n, 9) + ['Z']);
  }

  /** Text order is time order: every SQL comparison of fixed-width timestamps compares the instants. */
  lemma FormatOrder(a: Time, b: Time)
    requires InRange(a) && InRange(b)
    ensures Less(FormatTime(a), FormatTime(b)) <==> a < b
    ensures FormatTime(a) == FormatTime(b) <==> a == b
  {
    OneWay(a, b);
    OneWay(b, a);
    LessSelf(FormatTime(a));
  }

  lemma OneWay(a: Time, b: Time)
    requires InRange(a) && InRange(b)
    ensures Less(FormatTime(a), FormatTime(b)) <==> a < b
  {
    var x, y := StampOf(a), StampOf(b);
    InstantOrder(x, y);
    StampSplit(x, y);
    SecondText(x, y);
    NanoOrder(x.nano, y.nano);
    LessAppend(ToSecond(x), ToSecond(y), NanoText(x.nano), NanoText(y.nano));
  }

  // ------------------------------------------------------------------ parsing

  predicate AllDigits(s: string) { forall c :: c in s ==> IsDigit(c) }

  /** Parses the fixed-width form; fields out of range are refused. */
  function ParseTime(s: string): Option<Time> {
    if |s| == 30 && s[4] == '-' && s[7] == '-' && s[10] == 'T' && s[13] == ':' && s[16] == ':' && s[19] == '.' && s[29] == 'Z'
       && AllDigits(s[..4]) && AllDigits(s[5..7]) && AllDigits(s[8..10]) && AllDigits(s[11..13]) && AllDigits(s[14..16])
       && AllDigits(s[17..19]) && AllDigits(s[20..29])
    then
      var p := Stamp(Value(s[..4]), Value(s[5..7]), Value(s[8..10]), Value(s[11..13]), Value(s[14..16]), Value(s[17..19]), Value(s[20..29]));
      if StampOk(p) then Some(Instant(p)) else None
    else None
  }

  lemma Layout(s: string, p: Stamp)
    requires StampOk(p) && s == ToSecond(p) + NanoText(p.nano)
    ensures p.year < Pow10(4) && p.month < Pow10(2) && p.day < Pow10(2) && p.hour < Pow10(2) && p.minute < Pow10(2)
    ensures p.second < Pow10(2) && p.nano < Pow10(9) && |s| == 30
    ensures s[4] == '-' && s[7] == '-' && s[10] == 'T' && s[13] == ':' && s[16] == ':' && s[19] == '.' && s[29] == 'Z'
    ensures s[..4] == Digits(p.year, 4) && s[5..7] == Digits(p.month, 2) && s[8..10] == Digits(p.day, 2)
    ensures s[11..13] == Digits(p.hour, 2) && s[14..16] == Digits(p.minute, 2) && s[17..19] == Digits(p.second, 2)
    ensures s[20..29] == Digits(p.nano, 9)
  {
    DateLayout(p);
    ClockLayout(p);
    NanoLayout(p.nano);
    Assembled(s, Date(p), Clock(p), NanoText(p.nano));
  }

  lemma NanoLayout(n: nat)
    requires n < SECOND
    ensures n < Pow10(9) && |NanoText(n)| == 11 && NanoText(n)[0] == '.' && NanoText(n)[10] == 'Z'
    ensures NanoText(n)[1..10] == Digits(n, 9)
  {
    Widths();
  }

  lemma Assembled(s: string, d: string, c: string, n: string)
    requires s == d + (['T'] + c) + n && |d| == 10 && |c| == 8 && |n| == 11
    ensures |s| == 30 && s[4] == d[4] && s[7] == d[7] && s[10] == 'T' && s[13] == c[2] && s[16] == c[5] && s[19] == n[0] && s[29] == n[10]
    ensures s[..4] == d[0..4] && s[5..7] == d[5..7] && s[8..10] == d[8..10]
    ensures s[11..13] == c[0..2] && s[14..16] == c[3..5] && s[17..19] == c[6..8] && s[20..29] == n[1..10]
  {
  }

  lemma DateLayout(p: Stamp)
    requires DateOk(p)
    ensures p.year < Pow10(4) && p.month < Pow10(2) && p.day < Pow10(2)
    ensures var d := Date(p);
            && |d| == 10 && d[4] == '-' && d[7] == '-'
            && d[0..4] == Digits(p.year, 4) && d[5..7] == Digits(p.month, 2) && d[8..10] == Digits(p.day, 2)
  {
    Widths();
  }

  lemma ClockLayout(p: Stamp)
    requires ClockOk(p)
    ensures p.hour < Pow10(2) && p.minute < Pow10(2) && p.second < Pow10(2)
    ensures var c := Clock(p);
            && |c| == 8 && c[2] == ':' && c[5] == ':'
            && c[0..2] == Digits(p.hour, 2) && c[3..5] == Digits(p.minute, 2) && c[6..8] == Digits(p.second, 2)
  {
    Widths();
  }

  /** Parsing gives back the instant that was written. */
  lemma ParseFormat(t: Time)
    requires InRange(t)
    ensures ParseTime(FormatTime(t)) == Some(t)
  {
    var p := StampOf(t);
    Layout(FormatTime(t), p);
    ValueOfDigits(p.year, 4);
    ValueOfDigits(p.month, 2);
    ValueOfDigits(p.day, 2);
    ValueOfDigits(p.hour, 2);
    ValueOfDigits(p.minute, 2);
    ValueOfDigits(p.second, 2);
    ValueOfDigits(p.nano, 9);
  }

  // ----------------------------------------------- the form without trailing zeros

  function Stripped(s: string): (r: string)
    ensures r <= s && (r == "" || r[|r| - 1] != '0')
    ensures forall i :: |r| <= i < |s| ==> s[i] == '0'
  {
    if s != "" && s[|s| - 1] == '0' then Stripped(s[..|s| - 1]) else s
  }

  /** The fraction as it is printed, without its point. */
  function Fraction(t: Time): string
    requires InRange(t)
  {
    Widths();
    Stripped(Digits(StampOf(t).nano, 9))
  }

  function Tail(fraction: string): string {
    if fraction == "" then ['Z'] else ['.'] + (fraction + ['Z'])
  }

  /** RFC 3339 with nanoseconds, as the repository store writes it. */
  function FormatTrimmed(t: Time): string
    requires InRange(t)
  {
    ToSecond(StampOf(t)) + Tail(Fraction(t))
  }

  /** Without the zeros, a shorter fraction that begins a longer one sorts after it. */
  lemma {:induction false} FractionText(x: string, y: string, p: string, q: string)
    requires AllDigits(x) && AllDigits(y) && |x| == |y| && p <= x && q <= y
    requires forall i :: |p| <= i < |x| ==> x[i] == '0'
    requires forall i :: |q| <= i < |y| ==> y[i] == '0'
    requires q == "" || q[|q| - 1] != '0'
    requires Less(x, y)
    ensures Less(p + ['Z'], q + ['Z']) <==> !(p <= q)
    decreases |x|
  {
    assert x != "";
    if p == "" {
      assert x[0] == '0';
      if q != "" { assert q[0] in y; assert (q + ['Z'])[0] == q[0]; assert !Less(p + ['Z'], q + ['Z']); }
    } else if q == "" {
      assert x[0] in x && y[0] == '0' && x[0] == p[0];
      AllZeros(x, y);
    } else {
      assert x[0] in x && y[0] in y && p[0] == x[0] && q[0] == y[0];
      assert (p + ['Z'])[1..] == p[1..] + ['Z'] && (q + ['Z'])[1..] == q[1..] + ['Z'];
      if p[0] == q[0] {
        forall c | c in x[1..] ensures IsDigit(c) { assert c in x; }
        forall c | c in y[1..] ensures IsDigit(c) { assert c in y; }
        FractionText(x[1..], y[1..], p[1..], q[1..]);
        assert p <= q <==> p[1..] <= q[1..];
      }
    }
  }

  lemma {:induction false} AllZeros(x: string, y: string)
    requires AllDigits(x) && |x| == |y| && forall i :: 0 <= i < |y| ==> y[i] == '0'
    ensures !Less(x, y)
  {
    if x != "" {
      assert x[0] in x;
      forall c | c in x[1..] ensures IsDigit(c) { assert c in x; }
      AllZeros(x[1..], y[1..]);
    }
  }

  lemma TailOrder(x: string, y: string, p: string, q: string)
    requires AllDigits(x) && AllDigits(y) && |x| == |y| && p <= x && q <= y
    requires forall i :: |p| <= i < |x| ==> x[i] == '0'
    requires forall i :: |q| <= i < |y| ==> y[i] == '0'
    requires q == "" || q[|q| - 1] != '0'
    requires Less(x, y)
    ensures Less(Tail(p), Tail(q)) <==> !(p <= q)
  {
    FractionText(x, y, p, q);
    if q == "" { AllZeros(x, y); }
    LessAfter('.', p + ['Z'], q + ['Z']);
  }

  /**
   The trimmed form keeps the order of two instants exactly when they differ in
   their second or the printed fraction of the earlier does not begin that of the
   later; a whole second, for one, sorts after every later instant within it.
   */
  lemma TrimmedOrderIff(a: Time, b: Time)
    requires InRange(a) && InRange(b) && a < b
    ensures Less(FormatTrimmed(a), FormatTrimmed(b)) <==>
            StampOf(a).(nano := 0) != StampOf(b).(nano := 0) || !(Fraction(a) <= Fraction(b))
  {
    Widths();
    var x, y := StampOf(a), StampOf(b);
    InstantOrder(x, y);
    StampSplit(x, y);
    SecondText(x, y);
    LessAppend(ToSecond(x), ToSecond(y), Tail(Fraction(a)), Tail(Fraction(b)));
    if x.(nano := 0) == y.(nano := 0) {
      DigitsOrder(x.nano, y.nano, 9);
      TailOrder(Digits(x.nano, 9), Digits(y.nano, 9), Fraction(a), Fraction(b));
    }
  }
}
