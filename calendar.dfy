/** The local calendar: instants, local day numbers, proleptic Gregorian dates,
    `YYYY-MM-DD` day keys, and the week that starts on Monday (the recovery
    ledger) or on Sunday (the skipped-calorie counters).

    An instant is a count of milliseconds on the device's local wall clock,
    with 0 at 1970-01-01T00:00 local time. A day number counts days from
    0001-01-01, which was a Monday. */
module Calendar {
  import opened Util

  const DayMs: nat := 86_400_000

  /** The day number of 1970-01-01. */
  const EpochDay: nat := 719162

  /** Instants from 0001-01-01 on, so that every instant has a day number. */
  type Instant = t: int | -(EpochDay * DayMs) <= t

  /** The local calendar day of an instant (`Date` rounds down, also before 1970). */
  function DayOf(t: Instant): nat
  {
    EpochDay + t / DayMs
  }

  /** `setHours(0, 0, 0, 0)`: the first millisecond of the instant's day. */
  function StartOfDay(t: Instant): (r: Instant)
    ensures DayOf(r) == DayOf(t) && r <= t && t - r < DayMs
  {
    (t / DayMs) * DayMs
  }

  /** `setHours(23, 59, 59, 999)`: the last millisecond of the instant's day. */
  function EndOfDay(t: Instant): (r: Instant)
    ensures DayOf(r) == DayOf(t) && t <= r
    ensures DayOf(r + 1) == DayOf(t) + 1
  {
    StartOfDay(t) + DayMs - 1
  }

  /** The first millisecond of a given day number. */
  function StartOfDayNumber(n: nat): (r: Instant)
    ensures DayOf(r) == n
  {
    (n - EpochDay) * DayMs
  }

  // ---------------------------------------------------------------------
  // Dates

  datatype Date = Date(year: int, month: int, day: int)

  predicate IsLeap(y: int)
  {
    y % 4 == 0 && (y % 100 != 0 || y % 400 == 0)
  }

  function YearLength(y: int): nat
  {
    if IsLeap(y) then 366 else 365
  }

  function MonthLength(y: int, m: int): nat
    requires 1 <= m <= 12
  {
    if m == 2 then (if IsLeap(y) then 29 else 28)
    else if m == 4 || m == 6 || m == 9 || m == 11 then 30
    else 31
  }

  /** Days of the year that precede the first of month m. */
  function DaysBeforeMonth(y: int, m: int): nat
    requires 1 <= m <= 12
  {
    var common := if m == 1 then 0 else if m == 2 then 31 else if m == 3 then 59
      else if m == 4 then 90 else if m == 5 then 120 else if m == 6 then 151
      else if m == 7 then 181 else if m == 8 then 212 else if m == 9 then 243
      else if m == 10 then 273 else if m == 11 then 304 else 334;
    if m > 2 && IsLeap(y) then common + 1 else common
  }

  /** Days from 0001-01-01 to the first of year y. */
  function DaysBeforeYear(y: int): nat
    decreases y
  {
    if y <= 1 then 0 else DaysBeforeYear(y - 1) + YearLength(y - 1)
  }

  predicate ValidDate(d: Date)
  {
    d.year >= 1 && 1 <= d.month <= 12 && 1 <= d.day <= MonthLength(d.year, d.month)
  }

  function DayNumber(d: Date): nat
    requires ValidDate(d)
  {
    DaysBeforeYear(d.year) + DaysBeforeMonth(d.year, d.month) + d.day - 1
  }

  /** Chronological order of dates: by year, then month, then day. */
  predicate DateLess(a: Date, b: Date)
  {
    a.year < b.year || (a.year == b.year && (a.month < b.month || (a.month == b.month && a.day < b.day)))
  }

  function MonthFrom(n: nat, y: int, m: int): (r: Date)
    requires y >= 1 && 1 <= m <= 12
    requires DaysBeforeMonth(y, m) + n < YearLength(y)
    ensures ValidDate(r) && r.year == y
    ensures DaysBeforeMonth(y, r.month) + r.day - 1 == DaysBeforeMonth(y, m) + n
    decreases 12 - m
  {
    if n < MonthLength(y, m) then Date(y, m, n + 1)
    else MonthFrom(n - MonthLength(y, m), y, m + 1)
  }

  function YearFrom(n: nat, y: int): (r: Date)
    requires y >= 1
    ensures ValidDate(r) && DayNumber(r) == DaysBeforeYear(y) + n
    decreases n
  {
    if n < YearLength(y) then MonthFrom(n, y, 1)
    else YearFrom(n - YearLength(y), y + 1)
  }

  /** The calendar date of a day number (what `getFullYear`, `getMonth() + 1` and `getDate` report). */
  function DateOfDay(n: nat): (d: Date)
    ensures ValidDate(d) && DayNumber(d) == n
  {
    YearFrom(n, 1)
  }

  lemma {:induction false} DaysBeforeYearMonotone(a: int, b: int)
    requires a <= b
    ensures DaysBeforeYear(a) <= DaysBeforeYear(b)
    decreases b - a
  {
    if a < b { DaysBeforeYearMonotone(a, b - 1); }
  }

  lemma DaysBeforeMonthStep(y: int, m: int)
    requires 1 <= m < 12
    ensures DaysBeforeMonth(y, m) + MonthLength(y, m) == DaysBeforeMonth(y, m + 1)
  {
  }

  lemma {:induction false} DaysBeforeMonthMonotone(y: int, a: int, b: int)
    requires 1 <= a < b <= 12
    ensures DaysBeforeMonth(y, a) + MonthLength(y, a) <= DaysBeforeMonth(y, b)
    decreases b - a
  {
    DaysBeforeMonthStep(y, a);
    if a + 1 < b { DaysBeforeMonthMonotone(y, a + 1, b); }
  }

  /** A valid date's day number lies inside its year. */
  lemma DayNumberInYear(d: Date)
    requires ValidDate(d)
    ensures DaysBeforeYear(d.year) <= DayNumber(d) < DaysBeforeYear(d.year + 1)
  {
    if d.month < 12 { DaysBeforeMonthMonotone(d.year, d.month, 12); }
  }

  /** Day numbers follow the chronological order of dates. */
  lemma DayNumberOrder(a: Date, b: Date)
    requires ValidDate(a) && ValidDate(b)
    ensures DateLess(a, b) <==> DayNumber(a) < DayNumber(b)
    ensures a == b <==> DayNumber(a) == DayNumber(b)
  {
    DayNumberInYear(a);
    DayNumberInYear(b);
    if a.year < b.year {
      DaysBeforeYearMonotone(a.year + 1, b.year);
    } else if b.year < a.year {
      DaysBeforeYearMonotone(b.year + 1, a.year);
    } else if a.month < b.month {
      DaysBeforeMonthMonotone(a.year, a.month, b.month);
    } else if b.month < a.month {
      DaysBeforeMonthMonotone(a.year, b.month, a.month);
    }
  }

  /** Each valid date is the date of its own day number. */
  lemma DateRoundTrip(d: Date)
    requires ValidDate(d)
    ensures DateOfDay(DayNumber(d)) == d
  {
    DayNumberOrder(DateOfDay(DayNumber(d)), d);
  }

  /** Day n + j for j below the month's remaining length keeps year and month. */
  lemma DaysWithinMonth(n: nat, j: nat)
    requires DateOfDay(n).day + j <= MonthLength(DateOfDay(n).year, DateOfDay(n).month)
    ensures DateOfDay(n + j) == DateOfDay(n).(day := DateOfDay(n).day + j)
  {
    var d := DateOfDay(n);
    var e := d.(day := d.day + j);
    assert ValidDate(e) && DayNumber(e) == n + j;
    DateRoundTrip(e);
  }

  // ---------------------------------------------------------------------
  // Weeks

  /** `getDay()`: 0 for Sunday, 1 for Monday, ..., 6 for Saturday. Day 0 was a Monday. */
  function Weekday(n: nat): (r: nat)
    ensures r < 7
  {
    (n + 1) % 7
  }

  /** The Monday on or before day n (a Sunday steps back six days). */
  function MondayOnOrBefore(n: nat): (r: nat)
    ensures Weekday(r) == 1 && r <= n < r + 7
  {
    var day := Weekday(n);
    var diff := if day == 0 then -6 else 1 - day;
    n + diff
  }

  /** The Sunday on or before day n; for the first day numbers this lies before day 0. */
  function SundayOnOrBefore(n: nat): (r: int)
    ensures r <= n < r + 7 && (r == n <==> Weekday(n) == 0)
  {
    n - Weekday(n)
  }

  lemma MondayIsWeekStart(a: nat, b: nat)
    ensures MondayOnOrBefore(a) == MondayOnOrBefore(b) <==> a / 7 == b / 7
    ensures a <= b ==> MondayOnOrBefore(a) <= MondayOnOrBefore(b)
    ensures MondayOnOrBefore(MondayOnOrBefore(a)) == MondayOnOrBefore(a)
  {
    assert MondayOnOrBefore(a) == 7 * (a / 7);
    assert MondayOnOrBefore(b) == 7 * (b / 7);
    var m := MondayOnOrBefore(a);
    assert MondayOnOrBefore(m) == 7 * (m / 7);
  }

  // ---------------------------------------------------------------------
  // Day keys

  /** `${y}-${pad2(m)}-${pad2(d)}`: the year unpadded, month and day padded to two digits. */
  function DateKey(d: Date): string
    requires ValidDate(d)
  {
    DecimalString(d.year) + "-" + Pad2(d.month) + "-" + Pad2(d.day)
  }

  function DayKey(n: nat): string
  {
    DateKey(DateOfDay(n))
  }

  /** `getLocalDateKey`: the key of the instant's local day. */
  function LocalDateKey(t: Instant): string
  {
    DayKey(DayOf(t))
  }

  /** `getWeekStartLocalDateKey`: the key of the Monday that starts the instant's week. */
  function WeekStartKey(t: Instant): string
  {
    DayKey(MondayOnOrBefore(DayOf(t)))
  }

  /** Days whose year is written with exactly four digits. */
  predicate FourDigitYear(n: nat)
  {
    DaysBeforeYear(1000) <= n < DaysBeforeYear(10000)
  }

  lemma FourDigitYearOfDay(n: nat)
    requires FourDigitYear(n)
    ensures 1000 <= DateOfDay(n).year <= 9999
  {
    var y := DateOfDay(n).year;
    DayNumberInYear(DateOfDay(n));
    if y < 1000 { DaysBeforeYearMonotone(y + 1, 1000); }
    if y > 9999 { DaysBeforeYearMonotone(10000, y); }
  }

  lemma DateKeyPadded(d: Date)
    requires ValidDate(d) && 1000 <= d.year <= 9999
    ensures DateKey(d) == PadDigits(d.year, 4) + ("-" + PadDigits(d.month, 2) + "-" + PadDigits(d.day, 2))
  {
    assert Pow10(4) == 10000 && Pow10(3) == 1000;
    DecimalIsPadded(d.year, 4);
    Pad2IsPadded(d.month);
    Pad2IsPadded(d.day);
  }

  /** Three fixed-width fields joined by dashes compare field by field. */
  lemma {:induction false} DashedOrder(ya: string, ma: string, xa: string, yb: string, mb: string, xb: string)
    requires |ya| == |yb| && |ma| == |mb|
    ensures LexLess(ya + ("-" + ma + "-" + xa), yb + ("-" + mb + "-" + xb)) <==>
      LexLess(ya, yb) || (ya == yb && (LexLess(ma, mb) || (ma == mb && LexLess(xa, xb))))
  {
    LexLessAppend(ya, "-" + ma + "-" + xa, yb, "-" + mb + "-" + xb);
    assert "-" + ma + "-" + xa == "-" + (ma + "-" + xa);
    assert "-" + mb + "-" + xb == "-" + (mb + "-" + xb);
    LexLessAppend("-", ma + "-" + xa, "-", mb + "-" + xb);
    LexLessIrreflexive("-");
    assert ma + "-" + xa == ma + ("-" + xa);
    assert mb + "-" + xb == mb + ("-" + xb);
    LexLessAppend(ma, "-" + xa, mb, "-" + xb);
    LexLessAppend("-", xa, "-", xb);
  }

  /** Day keys of dates with four-digit years compare as the dates do. */
  lemma DateKeyOrder(da: Date, db: Date)
    requires ValidDate(da) && 1000 <= da.year <= 9999
    requires ValidDate(db) && 1000 <= db.year <= 9999
    ensures LexLess(DateKey(da), DateKey(db)) <==> DateLess(da, db)
    ensures DateKey(da) == DateKey(db) <==> da == db
  {
    DateKeyPadded(da);
    DateKeyPadded(db);
    assert Pow10(4) == 10000 && Pow10(2) == 100;
    var ya, yb := PadDigits(da.year, 4), PadDigits(db.year, 4);
    var ma, mb := PadDigits(da.month, 2), PadDigits(db.month, 2);
    var xa, xb := PadDigits(da.day, 2), PadDigits(db.day, 2);
    PadDigitsOrder(da.year, db.year, 4);
    PadDigitsOrder(da.month, db.month, 2);
    PadDigitsOrder(da.day, db.day, 2);
    DashedOrder(ya, ma, xa, yb, mb, xb);
    DashedEqual(ya, ma, xa, yb, mb, xb);
  }

  /** Three fixed-width fields joined by dashes are equal only field by field. */
  lemma DashedEqual(ya: string, ma: string, xa: string, yb: string, mb: string, xb: string)
    requires |ya| == |yb| && |ma| == |mb| && |xa| == |xb|
    ensures ya + ("-" + ma + "-" + xa) == yb + ("-" + mb + "-" + xb) ==> ya == yb && ma == mb && xa == xb
  {
    var ka, kb := ya + ("-" + ma + "-" + xa), yb + ("-" + mb + "-" + xb);
    if ka == kb {
      var i, j := |ya| + 1, |ya| + 1 + |ma| + 1;
      assert ka[..|ya|] == ya && kb[..|ya|] == yb;
      assert ka[i..i + |ma|] == ma && kb[i..i + |ma|] == mb;
      assert ka[j..] == xa && kb[j..] == xb;
    }
  }

  /** For four-digit years, comparing day keys as strings (as `>=` on strings
      does in the ledger sweep) is comparing the days themselves. */
  lemma DayKeyOrder(a: nat, b: nat)
    requires FourDigitYear(a) && FourDigitYear(b)
    ensures LexLess(DayKey(a), DayKey(b)) <==> a < b
    ensures DayKey(a) == DayKey(b) <==> a == b
  {
    FourDigitYearOfDay(a);
    FourDigitYearOfDay(b);
    DateKeyOrder(DateOfDay(a), DateOfDay(b));
    DayNumberOrder(DateOfDay(a), DateOfDay(b));
  }
}
