/**
 Dates and times as Python's `datetime` module handles them: the proleptic
 Gregorian calendar, `date.toordinal()`, `datetime.strptime` with the formats
 "%Y/%m/%d" and "%Y/%m/%d/%H/%M/%S", and the `seconds` attribute of the
 `timedelta` between two datetimes.

 The rest of the model works with day ordinals: adding `timedelta(days=k)` to
 a date is adding `k` to its ordinal, and comparing two dates is comparing
 their ordinals (OrdinalOrder).
 */
module Calendar {
  import opened Wrappers
  import opened PyStr

  datatype Date = Date(year: int, month: int, day: int)

  datatype DateTime = DateTime(date: Date, hour: int, minute: int, second: int)

  const SecondsPerDay: int := 86400

  /** `9999/01/01`, the date the script uses for a missing start date. */
  const FarFutureDate: Date := Date(9999, 1, 1)

  /** `1111/11/11/11/11/11`, the datetime the script uses for a missing or unreadable snapshot. */
  const SentinelDateTime: DateTime := DateTime(Date(1111, 11, 11), 11, 11, 11)

  predicate IsLeap(y: int) {
    y % 4 == 0 && (y % 100 != 0 || y % 400 == 0)
  }

  function DaysInMonth(y: int, m: int): (n: int)
    requires 1 <= m <= 12
    ensures 28 <= n <= 31
  {
    if m == 2 then (if IsLeap(y) then 29 else 28)
    else if m == 4 || m == 6 || m == 9 || m == 11 then 30
    else 31
  }

  function DaysInYear(y: int): int {
    if IsLeap(y) then 366 else 365
  }

  /** A date `datetime.date` accepts (years 1 to 9999). */
  predicate ValidDate(d: Date) {
    1 <= d.year <= 9999 && 1 <= d.month <= 12 && 1 <= d.day <= DaysInMonth(d.year, d.month)
  }

  /** A datetime `datetime.datetime` accepts (no leap seconds). */
  predicate ValidDateTime(t: DateTime) {
    ValidDate(t.date) && 0 <= t.hour < 24 && 0 <= t.minute < 60 && 0 <= t.second < 60
  }

  /** Python's `<` on dates: year, then month, then day. */
  predicate DateBefore(a: Date, b: Date) {
    a.year < b.year || (a.year == b.year && (a.month < b.month || (a.month == b.month && a.day < b.day)))
  }

  function DaysBeforeMonth(y: int, m: int): nat
    requires 1 <= m <= 12
    decreases m
  {
    if m == 1 then 0 else DaysBeforeMonth(y, m - 1) + DaysInMonth(y, m - 1)
  }

  function DaysBeforeYear(y: int): int
    requires y >= 1
  {
    var p := y - 1;
    p * 365 + p / 4 - p / 100 + p / 400
  }

  /** `date.toordinal()`: 1 January of year 1 is day 1. */
  function Ordinal(d: Date): int
    requires ValidDate(d)
  {
    DaysBeforeYear(d.year) + DaysBeforeMonth(d.year, d.month) + d.day
  }

  lemma {:induction false} DaysBeforeLaterMonth(y: int, m1: int, m2: int)
    requires 1 <= m1 < m2 <= 12
    ensures DaysBeforeMonth(y, m1) + DaysInMonth(y, m1) <= DaysBeforeMonth(y, m2)
    decreases m2
  {
    if m1 < m2 - 1 {
      DaysBeforeLaterMonth(y, m1, m2 - 1);
    }
  }

  lemma DaysBeforeDecember(y: int)
    ensures DaysBeforeMonth(y, 12) + DaysInMonth(y, 12) == DaysInYear(y)
  {
    var feb := DaysInMonth(y, 2);
    assert DaysBeforeMonth(y, 2) == 31;
    assert DaysBeforeMonth(y, 3) == 31 + feb;
    assert DaysBeforeMonth(y, 4) == 62 + feb;
    assert DaysBeforeMonth(y, 5) == 92 + feb;
    assert DaysBeforeMonth(y, 6) == 123 + feb;
    assert DaysBeforeMonth(y, 7) == 153 + feb;
    assert DaysBeforeMonth(y, 8) == 184 + feb;
    assert DaysBeforeMonth(y, 9) == 215 + feb;
    assert DaysBeforeMonth(y, 10) == 245 + feb;
    assert DaysBeforeMonth(y, 11) == 276 + feb;
    assert DaysBeforeMonth(y, 12) == 306 + feb;
  }

  /** Counting multiples of 4, 100 and 400 up to `p + 1` adds one exactly when `p + 1` is such a multiple. */
  lemma MultiplesStep(p: int)
    ensures (p + 1) / 4 == p / 4 + (if (p + 1) % 4 == 0 then 1 else 0)
    ensures (p + 1) / 100 == p / 100 + (if (p + 1) % 100 == 0 then 1 else 0)
    ensures (p + 1) / 400 == p / 400 + (if (p + 1) % 400 == 0 then 1 else 0)
  {
  }

  lemma YearStep(y: int)
    requires y >= 1
    ensures DaysBeforeYear(y + 1) == DaysBeforeYear(y) + DaysInYear(y)
  {
    MultiplesStep(y - 1);
    DivisorsNest(y);
    var p := y - 1;
    assert DaysBeforeYear(y + 1) - DaysBeforeYear(y) == 365 + ((p + 1) / 4 - p / 4) - ((p + 1) / 100 - p / 100) + ((p + 1) / 400 - p / 400);
  }

  lemma MultipleOf100(y: int, k: int)
    requires y == 100 * k
    ensures y % 100 == 0
  {
  }

  lemma MultipleOf4(y: int, k: int)
    requires y == 4 * k
    ensures y % 4 == 0
  {
  }

  /** A multiple of 400 is one of 100, and a multiple of 100 one of 4. */
  lemma DivisorsNest(y: int)
    ensures y % 400 == 0 ==> y % 100 == 0
    ensures y % 100 == 0 ==> y % 4 == 0
  {
    if y % 400 == 0 {
      MultipleOf100(y, y / 400 * 4);
    }
    if y % 100 == 0 {
      MultipleOf4(y, y / 100 * 25);
    }
  }

  lemma {:induction false} LaterYear(y1: int, y2: int)
    requires 1 <= y1 < y2
    ensures DaysBeforeYear(y1) + DaysInYear(y1) <= DaysBeforeYear(y2)
    decreases y2 - y1
  {
    YearStep(y1);
    if y1 + 1 < y2 {
      LaterYear(y1 + 1, y2);
    }
  }

  /** Comparing two valid dates is comparing their ordinals. */
  lemma OrdinalOrder(a: Date, b: Date)
    requires ValidDate(a) && ValidDate(b)
    ensures DateBefore(a, b) <==> Ordinal(a) < Ordinal(b)
    ensures a == b <==> Ordinal(a) == Ordinal(b)
  {
    if DateBefore(a, b) {
      OrdinalBefore(a, b);
    } else if DateBefore(b, a) {
      OrdinalBefore(b, a);
    }
  }

  lemma OrdinalBefore(a: Date, b: Date)
    requires ValidDate(a) && ValidDate(b) && DateBefore(a, b)
    ensures Ordinal(a) < Ordinal(b)
  {
    if a.year < b.year {
      LaterYear(a.year, b.year);
      if a.month < 12 {
        DaysBeforeLaterMonth(a.year, a.month, 12);
      }
      DaysBeforeDecember(a.year);
    } else if a.month < b.month {
      DaysBeforeLaterMonth(a.year, a.month, b.month);
    }
  }

  /** A one- or two-digit field with a value in [lo, hi], as the `strptime`
      directives %m (1..12), %d (1..31), %H (0..23), %M (0..59) and %S (0..61) read it. */
  function RangedField(f: string, lo: int, hi: int): Option<int> {
    if (|f| == 1 || |f| == 2) && AllDigits(f) && lo <= DigitsValue(f) <= hi
    then Some(DigitsValue(f)) else None
  }

  /** The %Y directive: exactly four digits. */
  function YearField(f: string): Option<int> {
    if |f| == 4 && AllDigits(f) then Some(DigitsValue(f)) else None
  }

  /** The %d directive, which also reads a space followed by one non-zero digit. */
  function DayField(f: string): Option<int> {
    if |f| == 2 && f[0] == ' ' && '1' <= f[1] <= '9' then Some(DigitValue(f[1]))
    else RangedField(f, 1, 31)
  }

  /** `datetime.strptime(s, "%Y/%m/%d").date()`, with `None` where Python raises `ValueError`. */
  function ParseDate(s: string): (r: Option<Date>)
    ensures r.Some? ==> ValidDate(r.value)
  {
    var f := Split(s, '/');
    if |f| != 3 then None
    else
      match (YearField(f[0]), RangedField(f[1], 1, 12), DayField(f[2]))
      case (Some(y), Some(m), Some(d)) =>
        if ValidDate(Date(y, m, d)) then Some(Date(y, m, d)) else None
      case _ => None
  }

  /** `datetime.strptime(s, "%Y/%m/%d/%H/%M/%S")`, with `None` where Python raises `ValueError`
      (a field out of range, a day past the end of its month, year 0, second 60 or 61). */
  function ParseDateTime(s: string): (r: Option<DateTime>)
    ensures r.Some? ==> ValidDateTime(r.value)
  {
    var f := Split(s, '/');
    if |f| != 6 then None
    else
      match (YearField(f[0]), RangedField(f[1], 1, 12), DayField(f[2]),
             RangedField(f[3], 0, 23), RangedField(f[4], 0, 59), RangedField(f[5], 0, 61))
      case (Some(y), Some(mo), Some(d), Some(h), Some(mi), Some(sec)) =>
        var t := DateTime(Date(y, mo, d), h, mi, sec);
        if ValidDateTime(t) then Some(t) else None
      case _ => None
  }

  /** Two digits, zero-padded: `"%02d" % n`. */
  function Pad2(n: nat): (s: string)
    requires n < 100
    ensures |s| == 2 && AllDigits(s) && DigitsValue(s) == n
  {
    var s := [DigitChar(n / 10), DigitChar(n % 10)];
    assert s[..1] == [DigitChar(n / 10)];
    assert s[..1][..0] == [];
    assert DigitsValue(s[..1]) == n / 10;
    s
  }

  /** Four digits, zero-padded: `"%04d" % n`. */
  function Pad4(n: nat): (s: string)
    requires n < 10000
    ensures |s| == 4 && AllDigits(s) && DigitsValue(s) == n
  {
    var hi, lo := Pad2(n / 100), Pad2(n % 100);
    var s := hi + lo;
    assert s[..3] == hi + [lo[0]];
    assert s[..3][..2] == hi;
    assert DigitsValue(s[..3]) == 10 * DigitsValue(hi) + DigitValue(lo[0]);
    assert lo[..1] == [lo[0]];
    s
  }

  /** `d.strftime("%Y/%m/%d")` */
  function FormatDate(d: Date): string
    requires ValidDate(d)
  {
    Join([Pad4(d.year), Pad2(d.month), Pad2(d.day)], '/')
  }

  /** `t.strftime("%Y/%m/%d/%H/%M/%S")` */
  function FormatDateTime(t: DateTime): string
    requires ValidDateTime(t)
  {
    Join([Pad4(t.date.year), Pad2(t.date.month), Pad2(t.date.day),
          Pad2(t.hour), Pad2(t.minute), Pad2(t.second)], '/')
  }

  lemma DigitsHaveNoSlash(s: string)
    requires AllDigits(s)
    ensures '/' !in s
  {
  }

  /** Every valid date, written as "%Y/%m/%d", is read back by ParseDate. */
  lemma ParseFormatDate(d: Date)
    requires ValidDate(d)
    ensures ParseDate(FormatDate(d)) == Some(d)
  {
    var parts := [Pad4(d.year), Pad2(d.month), Pad2(d.day)];
    forall i | 0 <= i < |parts| ensures '/' !in parts[i] {
      DigitsHaveNoSlash(parts[i]);
    }
    SplitJoin(parts, '/');
  }

  /** Every valid datetime, written as "%Y/%m/%d/%H/%M/%S", is read back by ParseDateTime. */
  lemma ParseFormatDateTime(t: DateTime)
    requires ValidDateTime(t)
    ensures ParseDateTime(FormatDateTime(t)) == Some(t)
  {
    var parts := [Pad4(t.date.year), Pad2(t.date.month), Pad2(t.date.day),
                  Pad2(t.hour), Pad2(t.minute), Pad2(t.second)];
    forall i | 0 <= i < |parts| ensures '/' !in parts[i] {
      DigitsHaveNoSlash(parts[i]);
    }
    SplitJoin(parts, '/');
  }

  function SecondsOfDay(t: DateTime): int {
    t.hour * 3600 + t.minute * 60 + t.second
  }

  /** `(finish - start).total_seconds()` for two datetimes. */
  function DifferenceSeconds(finish: DateTime, start: DateTime): int
    requires ValidDateTime(finish) && ValidDateTime(start)
  {
    (Ordinal(finish.date) - Ordinal(start.date)) * SecondsPerDay + SecondsOfDay(finish) - SecondsOfDay(start)
  }

  lemma ModAddDays(k: int, x: int)
    ensures (k * SecondsPerDay + x) % SecondsPerDay == x % SecondsPerDay
  {
    var q, r := x / SecondsPerDay, x % SecondsPerDay;
    assert k * SecondsPerDay + x == (k + q) * SecondsPerDay + r;
  }

  /** `(finish - start).seconds`: the difference floor-modulo one day, so only the
      time of day of each datetime matters and the calendar days drop out. */
  function TimedeltaSeconds(finish: DateTime, start: DateTime): (r: int)
    requires ValidDateTime(finish) && ValidDateTime(start)
    ensures 0 <= r < SecondsPerDay
    ensures r == (SecondsOfDay(finish) - SecondsOfDay(start)) % SecondsPerDay
  {
    ModAddDays(Ordinal(finish.date) - Ordinal(start.date), SecondsOfDay(finish) - SecondsOfDay(start));
    DifferenceSeconds(finish, start) % SecondsPerDay
  }

  /** The same time of day on any two days gives zero seconds. */
  lemma TimedeltaSameTimeOfDay(finish: DateTime, start: DateTime)
    requires ValidDateTime(finish) && ValidDateTime(start)
    requires SecondsOfDay(finish) == SecondsOfDay(start)
    ensures TimedeltaSeconds(finish, start) == 0
  {
  }
}
