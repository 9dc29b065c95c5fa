/**
 The two closed-form date conversions of the compute layer, next to the plain
 Gregorian calendar that walks one day at a time. Day counts start at
 1970-01-01 and every intermediate value has the width the source gives it.
 */
module Calendar {
  import opened Prelude

  datatype Date = Date(year: int, month: int, day: int)

  // ------------------------------------------------------------------
  // The reference: leap years of Appendix C of RFC 3339, day by day
  // ------------------------------------------------------------------

  predicate Leap(year: int) {
    year % 4 == 0 && (year % 100 != 0 || year % 400 == 0)
  }

  function MonthLength(year: int, month: int): int {
    if month == 2 then (if Leap(year) then 29 else 28)
    else if month == 4 || month == 6 || month == 9 || month == 11 then 30
    else 31
  }

  predicate ValidDate(d: Date) {
    1 <= d.month <= 12 && 1 <= d.day <= MonthLength(d.year, d.month)
  }

  const EPOCH: Date := Date(1970, 1, 1)

  function NextDay(d: Date): Date {
    if d.day < MonthLength(d.year, d.month) then Date(d.year, d.month, d.day + 1)
    else if d.month < 12 then Date(d.year, d.month + 1, 1)
    else Date(d.year + 1, 1, 1)
  }

  /** The date reached from 1970-01-01 by `n` single-day steps. */
  function CivilDate(n: nat): Date {
    if n == 0 then EPOCH else NextDay(CivilDate(n - 1))
  }

  /** Lexicographic order on dates. */
  predicate Before(a: Date, b: Date) {
    || a.year < b.year
    || (a.year == b.year && a.month < b.month)
    || (a.year == b.year && a.month == b.month && a.day < b.day)
  }

  // ------------------------------------------------------------------
  // The code
  // ------------------------------------------------------------------

  const EPOCH_SHIFT: int := 719468

  /** The year of the era that day `doe` of the era falls in. */
  function YearIn(doe: int): int {
    (doe - doe / 1460 + doe / 36524 - doe / 146096) / 365
  }

  /** The days of an era before its year `yoe`. */
  function YearStart(yoe: int): int {
    365 * yoe + yoe / 4 - yoe / 100
  }

  /** The date of day `doy` of the March-based year `y`. */
  function MarchDate(y: int, doy: int): Date {
    var mp := (5 * doy + 2) / 153;
    var d := doy - (153 * mp + 2) / 5 + 1;
    var m := if mp < 10 then mp + 3 else mp - 9;
    Date(if m <= 2 then y + 1 else y, m, d)
  }

  /** `days_to_ymd` from the day `doe` of an era on. */
  function CivilOfEra(era: int, doe: int): Date {
    var yoe := YearIn(doe);
    MarchDate(yoe + era * 400, doe - YearStart(yoe))
  }

  /** `days_to_ymd` in exact arithmetic, once the shifted day number `z` is known. */
  function CivilFromShifted(z: int): Date {
    var era := TruncDiv(if z >= 0 then z else z - 146096, 146097);
    CivilOfEra(era, z - era * 146097)
  }

  /** The same in `i64` and `u64`: both subtractions can wrap, and `InEraRange` says nothing after them does. */
  function CivilFromShifted64(z: int): Date {
    var era := TruncDiv(if z >= 0 then z else WrapI64(z - 146096), 146097);
    CivilOfEra(era, WrapU64(z - era * 146097))
  }

  /** `days_to_ymd`: the cast and the addition in `i64`, the year cast back to `u64`. */
  function DaysToYmd(days: nat): Date {
    var date := CivilFromShifted64(WrapI64(WrapI64(days) + EPOCH_SHIFT));
    date.(year := WrapU64(date.year))
  }

  /** The day number from an era, a year of the era, and a day; `days5` is `153 * mp + 2`. */
  function ShiftedFromEra(era: int, yoe: int, days5: int, day: int): int {
    var doy := days5 / 5 + day - 1;
    era * 146097 + YearStart(yoe) + doy
  }

  /** `ymd_to_days` in exact arithmetic, from the March-based year `y` on. */
  function ShiftedFromMarch(y: int, days5: int, day: int): int {
    var era := TruncDiv(if y >= 0 then y else y - 399, 400);
    ShiftedFromEra(era, y - era * 400, days5, day)
  }

  function MarchYear(year: int, month: int): int {
    if month <= 2 then year - 1 else year
  }

  function MarchDays5(month: int): int {
    153 * (if month > 2 then month - 3 else month + 9) + 2
  }

  /**
   `ymd_to_days`: the year is cast to `i64`, the month term is a `u64`, and the
   era and the year of the era are found in those widths. What follows is sums
   and products, so one reduction at the end stands for those in between.
   */
  function YmdToDays(year: nat, month: nat, day: nat): nat {
    var y := WrapI64(MarchYear(year, month));
    var era := TruncDiv(if y >= 0 then y else WrapI64(y - 399), 400);
    var yoe := WrapU64(y - era * 400);
    WrapU64(ShiftedFromEra(era, yoe, WrapU64(MarchDays5(month)), day) - EPOCH_SHIFT)
  }

  /** The same conversion in exact arithmetic. */
  function DayNumber(d: Date): int {
    ShiftedFromMarch(MarchYear(d.year, d.month), MarchDays5(d.month), d.day) - EPOCH_SHIFT
  }

  // ------------------------------------------------------------------
  // The closed forms invert each other
  // ------------------------------------------------------------------

  /** Whether the March-based year `y` of an era ends with a leap day. */
  predicate LongYear(y: int) {
    y % 4 == 3 && (y % 100 != 99 || y == 399)
  }

  /** The year-of-era formula finds the year of any day of the era. */
  lemma YearOfEra(c: int, q: int, r: int, doy: int)
    requires 0 <= c < 4 && 0 <= q < 25 && 0 <= r < 4
    requires 0 <= doy < (if LongYear(100 * c + 4 * q + r) then 366 else 365)
    ensures var y := 100 * c + 4 * q + r;
            var doe := YearStart(y) + doy;
            0 <= doe < 146097 && YearIn(doe) == y
  {
    var y := 100 * c + 4 * q + r;
    assert y / 100 == c && y / 4 == 25 * c + q;
    var doe := YearStart(y) + doy;
    assert doe == 36524 * c + 1461 * q + 365 * r + doy;
    if doe == 146096 {
      assert y == 399 && doy == 365;
    } else {
      var rest := 24 * c + q + 365 * r + doy;
      assert doe == 1460 * (25 * c + q) + rest;
      assert doe / 1460 == 25 * c + q + (if rest >= 1460 then 1 else 0);
      assert doe / 36524 == c;
      assert doe / 146096 == 0;
    }
  }

  /** The month formula and its inverse agree on every day of a March-based year. */
  lemma MonthOfYear(month: int, day: int)
    requires 1 <= month <= 12 && 1 <= day <= 31
    requires month == 2 ==> day <= 29
    requires month in {4, 6, 9, 11} ==> day <= 30
    ensures var p := if month > 2 then month - 3 else month + 9;
            var doy := (153 * p + 2) / 5 + day - 1;
            && 0 <= doy < 366
            && (doy == 365 <==> month == 2 && day == 29)
            && (5 * doy + 2) / 153 == p
  {
  }

  lemma NextYearMultiple(era: int, yoe: int, b: int, m: int)
    requires b > 0 && b * m == 400
    ensures (400 * era + yoe + 1) % b == 0 <==> yoe % b == b - 1
  {
    var q, r := yoe / b, yoe % b;
    assert 400 * era == b * (m * era);
    assert 400 * era + yoe + 1 == b * (m * era + q) + r + 1;
    if r + 1 < b {
      QuotientUnique(400 * era + yoe + 1, b, m * era + q, r + 1);
    } else {
      QuotientUnique(400 * era + yoe + 1, b, m * era + q + 1, 0);
    }
  }

  /** A leap day ends a March-based year exactly when that year is a long one. */
  lemma LeapIsLong(year: int, era: int, yoe: int)
    requires year - 1 == 400 * era + yoe && 0 <= yoe < 400
    ensures Leap(year) <==> LongYear(yoe)
  {
    NextYearMultiple(era, yoe, 4, 100);
    NextYearMultiple(era, yoe, 100, 4);
    NextYearMultiple(era, yoe, 400, 1);
  }

  /** The guarded truncating division of both functions is division rounding down. */
  lemma GuardedDivision(a: int, b: int)
    requires b > 0
    ensures TruncDiv(if a >= 0 then a else a - (b - 1), b) == a / b
  {
    if a < 0 {
      var n := -(a - (b - 1));
      assert n == b * (n / b) + n % b;
      assert a == b * (a / b) + a % b;
      QuotientUnique(a, b, -(n / b), b - 1 - n % b);
    }
  }

  /** Days before the March-based year `y`, in the proleptic calendar. */
  function DaysBeforeYear(y: int): int {
    365 * y + y / 4 - y / 100 + y / 400
  }

  /** The date-to-day form with its era and year of era spelled as quotient and remainder. */
  lemma ShiftedByEra(y: int, days5: int, day: int)
    ensures ShiftedFromMarch(y, days5, day) ==
            y / 400 * 146097 + YearStart(y % 400) + days5 / 5 + day - 1
  {
    hide TruncDiv, YearStart;
    GuardedDivision(y, 400);
  }

  lemma EraQuotients(y: int)
    ensures y / 4 == y / 400 * 100 + y % 400 / 4
    ensures y / 100 == y / 400 * 4 + y % 400 / 100
  {
    var era, yoe := y / 400, y % 400;
    QuotientUnique(y, 4, era * 100 + yoe / 4, yoe % 4);
    QuotientUnique(y, 100, era * 4 + yoe / 100, yoe % 100);
  }

  lemma DayNumberClosed(d: Date)
    ensures DayNumber(d) ==
            DaysBeforeYear(MarchYear(d.year, d.month)) + MarchDays5(d.month) / 5 + d.day - 1 - EPOCH_SHIFT
  {
    hide ShiftedFromMarch, MarchDays5, MarchYear;
    var y := MarchYear(d.year, d.month);
    ShiftedByEra(y, MarchDays5(d.month), d.day);
    EraQuotients(y);
  }

  lemma CivilFromEra(era: int, doe: int)
    requires 0 <= doe < 146097
    ensures CivilFromShifted(era * 146097 + doe) == CivilOfEra(era, doe)
  {
    hide CivilOfEra, TruncDiv;
    var z := era * 146097 + doe;
    GuardedDivision(z, 146097);
    QuotientUnique(z, 146097, era, doe);
  }

  /** The exact day-to-date form undoes the exact date-to-day form on every valid date. */
  lemma CivilOfDayNumber(d: Date)
    requires ValidDate(d)
    ensures CivilFromShifted(DayNumber(d) + EPOCH_SHIFT) == d
  {
    hide ShiftedFromMarch, MarchDays5, MarchYear, CivilFromShifted, CivilOfEra, ValidDate, YearStart;
    var y := MarchYear(d.year, d.month);
    var era, yoe := y / 400, y % 400;
    var doy := MarchDays5(d.month) / 5 + d.day - 1;
    ShiftedByEra(y, MarchDays5(d.month), d.day);
    CivilOfEraDay(d, era, yoe, doy);
    CivilFromEra(era, YearStart(yoe) + doy);
  }

  lemma CivilOfEraDay(d: Date, era: int, yoe: int, doy: int)
    requires ValidDate(d) && 0 <= yoe < 400
    requires MarchYear(d.year, d.month) == 400 * era + yoe
    requires doy == MarchDays5(d.month) / 5 + d.day - 1
    ensures var doe := YearStart(yoe) + doy;
            CivilOfEra(era, doe) == d && 0 <= doe < 146097
  {
    hide YearIn, YearStart;
    MonthOfYear(d.month, d.day);
    assert doy == 365 ==> LongYear(yoe) by {
      if doy == 365 {
        LeapIsLong(d.year, era, yoe);
      }
    }
    YearOfEraDay(yoe, doy);
  }

  lemma YearOfEraDay(yoe: int, doy: int)
    requires 0 <= yoe < 400 && 0 <= doy < (if LongYear(yoe) then 366 else 365)
    ensures var doe := YearStart(yoe) + doy;
            0 <= doe < 146097 && YearIn(doe) == yoe
  {
    YearOfEra(yoe / 100, yoe % 100 / 4, yoe % 100 % 4, doy);
  }

  lemma QuotientStep(y: int, b: int)
    requires b > 0
    ensures y / b - (y - 1) / b == (if y % b == 0 then 1 else 0)
  {
    if y % b == 0 {
      QuotientUnique(y - 1, b, y / b - 1, b - 1);
    } else {
      QuotientUnique(y - 1, b, y / b, y % b - 1);
    }
  }

  lemma YearLength(year: int)
    ensures DaysBeforeYear(year) - DaysBeforeYear(year - 1) == (if Leap(year) then 366 else 365)
  {
    QuotientStep(year, 4);
    QuotientStep(year, 100);
    QuotientStep(year, 400);
  }

  /** The month offsets of the March-based year are the month lengths added up. */
  lemma MonthStep(year: int, month: int)
    requires 1 <= month <= 12 && month != 2
    ensures MarchDays5(if month == 12 then 1 else month + 1) / 5 ==
            MarchDays5(month) / 5 + MonthLength(year, month)
  {
  }

  /** One calendar step is one more day. */
  lemma NextDayNumber(d: Date)
    requires ValidDate(d)
    ensures ValidDate(NextDay(d)) && DayNumber(NextDay(d)) == DayNumber(d) + 1
  {
    hide DayNumber, DaysBeforeYear;
    var before, after := MarchYear(d.year, d.month), MarchYear(NextDay(d).year, NextDay(d).month);
    DayNumberClosed(d);
    DayNumberClosed(NextDay(d));
    if d.day < MonthLength(d.year, d.month) {
      assert before == after;
    } else if d.month == 2 {
      YearLength(d.year);
      assert after == before + 1;
    } else {
      MonthStep(d.year, d.month);
      assert before == after;
    }
  }

  lemma {:induction false} CivilDateNumber(n: nat)
    ensures ValidDate(CivilDate(n)) && DayNumber(CivilDate(n)) == n
  {
    if n > 0 {
      CivilDateNumber(n - 1);
      NextDayNumber(CivilDate(n - 1));
    }
  }

  // ------------------------------------------------------------------
  // Agreement with the calendar, in the widths of the source
  // ------------------------------------------------------------------

  /** The first day count whose shift leaves `i64`. */
  const DAY_LIMIT: int := TWO_63 - EPOCH_SHIFT

  /** A year of at most 366 days and at least 365 bounds the year by the day. */
  lemma YearBounds(d: Date)
    requires ValidDate(d) && DayNumber(d) >= 0
    ensures 365 * (d.year - 1) <= DayNumber(d) + EPOCH_SHIFT <= 366 * (d.year + 1)
    ensures d.year >= 1970
  {
    DayNumberClosed(d);
    MonthOfYear(d.month, d.day);
  }

  lemma EpochIsFirst(d: Date)
    requires ValidDate(d) && !Before(d, EPOCH)
    ensures DayNumber(d) >= 0
  {
    DayNumberClosed(d);
    MonthOfYear(d.month, d.day);
  }

  /** Every valid date from the epoch on is reached by stepping its day number. */
  lemma CivilDateReaches(d: Date)
    requires ValidDate(d) && !Before(d, EPOCH)
    ensures DayNumber(d) >= 0 && CivilDate(DayNumber(d)) == d
  {
    hide DayNumber, CivilFromShifted;
    EpochIsFirst(d);
    CivilDateNumber(DayNumber(d));
    CivilOfDayNumber(d);
    CivilOfDayNumber(CivilDate(DayNumber(d)));
  }

  /** Every day of an era falls in a year of the era. */
  lemma SplitEraDay(doe: int) returns (c: int, q: int, r: int, doy: int)
    requires 0 <= doe < 146097
    ensures 0 <= c < 4 && 0 <= q < 25 && 0 <= r < 4
    ensures 0 <= doy < (if LongYear(100 * c + 4 * q + r) then 366 else 365)
    ensures doe == YearStart(100 * c + 4 * q + r) + doy
  {
    c := if doe / 36524 < 4 then doe / 36524 else 3;
    var inCentury := doe - 36524 * c;
    q := inCentury / 1461;
    var inCycle := inCentury - 1461 * q;
    r := if inCycle / 365 < 4 then inCycle / 365 else 3;
    doy := inCycle - 365 * r;
    var y := 100 * c + 4 * q + r;
    assert y / 100 == c && y / 4 == 25 * c + q;
  }

  /** One era too far the year formula still finds the year; only an era's last day is out of its reach. */
  lemma YearOfNextEra(c: int, q: int, r: int, doy: int)
    requires 0 <= c < 4 && 0 <= q < 25 && 0 <= r < 4
    requires 0 <= doy < (if LongYear(100 * c + 4 * q + r) then 366 else 365)
    requires YearStart(100 * c + 4 * q + r) + doy < 146096
    ensures var y := 100 * c + 4 * q + r;
            YearIn(146097 + YearStart(y) + doy) == 400 + y
  {
    var y := 100 * c + 4 * q + r;
    assert y / 100 == c && y / 4 == 25 * c + q;
    var doe := 146097 + YearStart(y) + doy;
    var rest := 97 + 24 * c + q + 365 * r + doy;
    assert doe == 1460 * (100 + 25 * c + q) + rest;
    assert doe / 1460 == 100 + 25 * c + q + (if rest >= 1460 then 1 else 0);
    var inCentury := 1 + 1461 * q + 365 * r + doy;
    assert doe == 36524 * (4 + c) + inCentury;
    assert doe / 36524 == 4 + c + (if inCentury >= 36524 then 1 else 0);
    assert doe / 146096 == if doe == 292192 then 2 else 1;
  }

  lemma NextEraStart(y: int)
    ensures YearStart(y + 400) == YearStart(y) + 146096
  {
  }

  /** No subtraction after the era is found goes below zero, even when the era was found with a wrap. */
  lemma InEraRange(doe: int)
    requires 0 <= doe <= 292192
    ensures 0 <= YearIn(doe) < 800 && YearStart(YearIn(doe)) <= doe
  {
    hide YearIn, YearStart;
    if doe < 146097 {
      var c, q, r, doy := SplitEraDay(doe);
      YearOfEra(c, q, r, doy);
    } else {
      var c, q, r, doy := SplitEraDay(doe - 146097);
      YearOfNextEra(c, q, r, doy);
      NextEraStart(100 * c + 4 * q + r);
    }
  }

  lemma EraYear(era: int, doe: int)
    requires 0 <= doe <= 292192
    ensures 400 * era <= CivilOfEra(era, doe).year <= 400 * era + 800
  {
    hide YearIn, YearStart;
    InEraRange(doe);
  }

  /** The shifted day number as the `i64` cast and addition leave it. */
  lemma ShiftedDay(n: int)
    requires 0 <= n < TWO_64
    ensures WrapI64(WrapI64(n) + EPOCH_SHIFT) == n + EPOCH_SHIFT - (if n < DAY_LIMIT then 0 else TWO_64)
  {
  }

  lemma WrapNearU64(x: int)
    requires -TWO_64 <= x < TWO_64
    ensures WrapU64(x) == if x < 0 then x + TWO_64 else x
  {
  }

  /** The first day count past the limit for which the guarded division does not wrap either. */
  const WINDOW_END: int := DAY_LIMIT + 146096

  /** Where the guarded division does not wrap, the machine form is the exact one. */
  lemma ExactOutsideWindow(z: int)
    requires -TWO_63 + 146096 <= z < TWO_63
    ensures CivilFromShifted64(z) == CivilOfEra(z / 146097, z % 146097)
  {
    hide CivilOfEra, TruncDiv;
    assert z < 0 ==> WrapI64(z - 146096) == z - 146096;
    GuardedDivision(z, 146097);
    assert WrapU64(z % 146097) == z % 146097;
  }

  lemma WindowShift(n: int)
    requires DAY_LIMIT <= n < WINDOW_END
    ensures var z, x := n + EPOCH_SHIFT - TWO_64, n + EPOCH_SHIFT - 146096;
            && WrapI64(z - 146096) == x
            && WrapU64(z - x / 146097 * 146097) == x % 146097 + 146096
  {
    var z, x := n + EPOCH_SHIFT - TWO_64, n + EPOCH_SHIFT - 146096;
    assert z - x / 146097 * 146097 == x % 146097 + 146096 - TWO_64;
  }

  /** Inside it the era is found for a day 146096 too early, and the day of the era comes out that much larger. */
  lemma WrapsInWindow(n: int)
    requires DAY_LIMIT <= n < WINDOW_END
    ensures var x := n + EPOCH_SHIFT - 146096;
            DaysToYmd(n) == CivilOfEra(x / 146097, x % 146097 + 146096)
    ensures DaysToYmd(n).year < 0x80_0000_0000_0000
  {
    var x := n + EPOCH_SHIFT - 146096;
    hide CivilOfEra, WrapI64, WrapU64;
    EraYear(x / 146097, x % 146097 + 146096);
    ShiftedDay(n);
    WindowShift(n);
    WrapNearU64(CivilOfEra(x / 146097, x % 146097 + 146096).year);
  }

  /** A date tells the day of its March-based year. */
  lemma MarchDateTells(y: int, doy: int, doy': int)
    requires 0 <= doy <= 366 && 0 <= doy' <= 366
    ensures MarchDate(y, doy) == MarchDate(y, doy') ==> doy == doy'
  {
  }

  /** A day named by the wrong era comes out as another date. */
  lemma OneEraOff(era: int, doe: int)
    requires 0 <= doe < 146096
    ensures CivilOfEra(era, doe + 146097) != CivilOfEra(era + 1, doe)
  {
    hide MarchDate, YearIn, YearStart;
    var c, q, r, doy := SplitEraDay(doe);
    YearOfEra(c, q, r, doy);
    YearOfNextEra(c, q, r, doy);
    var y := 100 * c + 4 * q + r;
    NextEraStart(y);
    MarchDateTells(y + (era + 1) * 400, doy, doy + 1);
  }

  /** The one day past the limit that the wrapped form still gets right: the last of an era. */
  const STRAY_DAY: int := 9223372036854145980

  lemma StrayInWindow(n: int)
    requires DAY_LIMIT <= n < WINDOW_END
    ensures (n + EPOCH_SHIFT - 146096) % 146097 == 0 <==> n == STRAY_DAY
  {
    var x, k := n + EPOCH_SHIFT - 146096, n - STRAY_DAY;
    assert x == 146097 * 63131837319416 + k;
    if k >= 0 {
      QuotientUnique(x, 146097, 63131837319416, k);
    } else {
      QuotientUnique(x, 146097, 63131837319415, 146097 + k);
    }
  }

  lemma WindowIsCivilOnce(n: nat)
    requires DAY_LIMIT <= n < WINDOW_END
    ensures DaysToYmd(n) == CivilDate(n) <==> n == STRAY_DAY
  {
    hide CivilOfEra, DaysToYmd, CivilFromShifted, DayNumber;
    var x := n + EPOCH_SHIFT - 146096;
    var era, r := x / 146097, x % 146097;
    WrapsInWindow(n);
    StrayInWindow(n);
    CivilDateNumber(n);
    CivilOfDayNumber(CivilDate(n));
    if r == 0 {
      CivilFromEra(era, 146096);
    } else {
      CivilFromEra(era + 1, r - 1);
      OneEraOff(era, r - 1);
    }
  }

  /** Past the limit the year is none of a date near that day, or the day is in the window. */
  lemma WrappedYear(n: int)
    requires DAY_LIMIT <= n < TWO_64
    ensures || DaysToYmd(n).year < 3000 || DaysToYmd(n).year >= TWO_63
            || (n < WINDOW_END && DaysToYmd(n).year < 0x80_0000_0000_0000)
  {
    if n < WINDOW_END {
      WrapsInWindow(n);
    } else {
      hide CivilOfEra, CivilFromShifted64, WrapI64, WrapU64;
      ShiftedDay(n);
      var z := n + EPOCH_SHIFT - TWO_64;
      ExactOutsideWindow(z);
      EraYear(z / 146097, z % 146097);
      WrapNearU64(CivilFromShifted64(z).year);
    }
  }

  lemma CivilBelowLimit(n: nat)
    requires n < DAY_LIMIT
    ensures DaysToYmd(n) == CivilDate(n)
  {
    hide CivilFromShifted, CivilFromShifted64, CivilOfEra, DayNumber, WrapI64, WrapU64, ValidDate;
    var d, z := CivilDate(n), n + EPOCH_SHIFT;
    CivilDateNumber(n);
    YearBounds(d);
    ShiftedDay(n);
    CivilOfDayNumber(d);
    ExactOutsideWindow(z);
    CivilFromEra(z / 146097, z % 146097);
    WrapNearU64(d.year);
  }

  /** The closed form is the calendar exactly while the shifted count fits `i64`, and on one stray day. */
  lemma DaysToYmdIsCivil(n: nat)
    requires n < TWO_64
    ensures DaysToYmd(n) == CivilDate(n) <==> n < DAY_LIMIT || n == STRAY_DAY
    ensures ValidDate(CivilDate(n))
  {
    hide DaysToYmd, DayNumber;
    CivilDateNumber(n);
    if n < DAY_LIMIT {
      CivilBelowLimit(n);
    } else if n < WINDOW_END {
      WindowIsCivilOnce(n);
    } else {
      YearBounds(CivilDate(n));
      WrappedYear(n);
    }
  }

  lemma YmdToDaysExact(d: Date)
    requires ValidDate(d) && 0 <= d.year < TWO_63
    ensures YmdToDays(d.year, d.month, d.day) == WrapU64(DayNumber(d))
  {
    hide ShiftedFromEra, TruncDiv;
    var y := MarchYear(d.year, d.month);
    GuardedDivision(y, 400);
    assert WrapI64(y) == y && (y < 0 ==> WrapI64(y - 399) == y - 399);
    assert WrapU64(y % 400) == y % 400;
    assert WrapU64(MarchDays5(d.month)) == MarchDays5(d.month);
  }

  /** Date to day to date: the identity exactly for the day counts the calendar theorem names. */
  lemma DateRoundTrip(d: Date)
    requires ValidDate(d) && !Before(d, EPOCH) && d.year < TWO_63
    ensures DaysToYmd(YmdToDays(d.year, d.month, d.day)) == d <==>
            DayNumber(d) < DAY_LIMIT || DayNumber(d) == STRAY_DAY
    ensures DayNumber(d) < TWO_64 ==> YmdToDays(d.year, d.month, d.day) == DayNumber(d)
  {
    hide CivilFromShifted, ShiftedFromMarch, DaysToYmd, YmdToDays, DayNumber;
    CivilDateReaches(d);
    YearBounds(d);
    var n := YmdToDays(d.year, d.month, d.day);
    YmdToDaysExact(d);
    CivilDateNumber(n);
    DaysToYmdIsCivil(n);
    if n >= DAY_LIMIT {
      WrappedYear(n);
    }
  }

  /** Day to date to day: the identity on every day count below the limit. */
  lemma DayRoundTrip(n: nat)
    requires n < DAY_LIMIT
    ensures var d := DaysToYmd(n);
            ValidDate(d) && 1970 <= d.year < TWO_64 && YmdToDays(d.year, d.month, d.day) == n
  {
    hide DaysToYmd, YmdToDays, DayNumber;
    DaysToYmdIsCivil(n);
    CivilDateNumber(n);
    YearBounds(CivilDate(n));
    NotBeforeEpoch(CivilDate(n));
    DateRoundTrip(CivilDate(n));
  }

  lemma NotBeforeEpoch(d: Date)
    requires ValidDate(d) && d.year >= 1970
    ensures !Before(d, EPOCH)
  {
  }

  // ------------------------------------------------------------------
  // Order
  // ------------------------------------------------------------------

  lemma {:induction false} CivilDateIncreases(m: nat, n: nat)
    requires m < n
    ensures Before(CivilDate(m), CivilDate(n))
  {
    hide DayNumber;
    CivilDateNumber(n - 1);
    if m < n - 1 {
      CivilDateIncreases(m, n - 1);
    }
  }

  /** The calendar keeps the order of days, both ways. */
  lemma CivilDateOrder(m: nat, n: nat)
    ensures m < n <==> Before(CivilDate(m), CivilDate(n))
  {
    if m < n {
      CivilDateIncreases(m, n);
    } else if n < m {
      CivilDateIncreases(n, m);
    }
  }

  /** `days_to_ymd` keeps the order of days. */
  lemma DaysToYmdIncreases(m: nat, n: nat)
    requires m < DAY_LIMIT && n < DAY_LIMIT
    ensures m < n <==> Before(DaysToYmd(m), DaysToYmd(n))
  {
    hide DaysToYmd;
    DaysToYmdIsCivil(m);
    DaysToYmdIsCivil(n);
    CivilDateOrder(m, n);
  }

  /** `ymd_to_days` keeps the order of dates, as long as their day counts fit `u64`. */
  lemma YmdToDaysIncreases(a: Date, b: Date)
    requires ValidDate(a) && ValidDate(b) && !Before(a, EPOCH) && !Before(b, EPOCH)
    requires DayNumber(a) < TWO_64 && DayNumber(b) < TWO_64
    ensures a.year > 0 && b.year > 0
    ensures Before(a, b) <==> YmdToDays(a.year, a.month, a.day) < YmdToDays(b.year, b.month, b.day)
  {
    hide DaysToYmd, YmdToDays, DayNumber;
    CivilDateReaches(a);
    CivilDateReaches(b);
    YearBounds(a);
    YearBounds(b);
    DateRoundTrip(a);
    DateRoundTrip(b);
    CivilDateOrder(DayNumber(a), DayNumber(b));
  }
}
