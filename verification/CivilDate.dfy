/**
  The date shown for a daemon's start: a closed formula from day numbers to dates, proved
  to be the Gregorian calendar as section 5.7 and Appendix C of RFC 3339 describe it.
 */
module CivilDate {
  import opened Bytes

  datatype Date = Date(year: int, month: int, day: int)

  const EPOCH := Date(1970, 1, 1)
  const DAYS_PER_ERA := 146_097
  const EPOCH_SHIFT := 719_468

  // ------------------------------------------------------------ the calendar

  /** Appendix C of RFC 3339. */
  predicate IsLeap(year: int) {
    year % 4 == 0 && (year % 100 != 0 || year % 400 == 0)
  }

  /** Section 5.7 of RFC 3339. */
  function DaysInMonth(year: int, month: int): int {
    if month == 2 then (if IsLeap(year) then 29 else 28)
    else if month == 4 || month == 6 || month == 9 || month == 11 then 30
    else 31
  }

  predicate IsDate(d: Date) {
    1 <= d.month <= 12 && 1 <= d.day <= DaysInMonth(d.year, d.month)
  }

  function NextDay(d: Date): Date {
    if d.day < DaysInMonth(d.year, d.month) then d.(day := d.day + 1)
    else if d.month < 12 then Date(d.year, d.month + 1, 1)
    else Date(d.year + 1, 1, 1)
  }

  predicate Before(a: Date, b: Date) {
    || a.year < b.year
    || (a.year == b.year && (a.month < b.month || (a.month == b.month && a.day < b.day)))
  }

  /** Counting days on the calendar, one at a time. */
  function DayAfterEpoch(n: nat): Date {
    if n == 0 then EPOCH else NextDay(DayAfterEpoch(n - 1))
  }

  // ------------------------------------------------------------- the formula

  /** Division that drops the fraction, as the source's operator does. */
  function Quot(a: int, b: int): int
    requires b > 0
  {
    if a >= 0 then a / b else -((-a) / b)
  }

  function Era(shifted: int): int {
    Quot(if shifted >= 0 then shifted else shifted - 146_096, DAYS_PER_ERA)
  }

  function YearOfEra(dayOfEra: nat): nat {
    (dayOfEra - dayOfEra / 1_460 + dayOfEra / 36_524 - dayOfEra / 146_096) / 365
  }

  /** The day of the era on which its year `y`, counted from March, begins. */
  function YearStart(y: nat): nat {
    365 * y + y / 4 - y / 100
  }

  function MonthPart(dayOfYear: nat): nat {
    (5 * dayOfYear + 2) / 153
  }

  /** A date from a year counted from March and a day of it. */
  function FromMarchYear(year: int, dayOfYear: nat): Date {
    var monthPart := MonthPart(dayOfYear);
    var day := dayOfYear - (153 * monthPart + 2) / 5 + 1;
    var month := monthPart + if monthPart < 10 then 3 else -9;
    Date(year + if month <= 2 then 1 else 0, month, day)
  }

  /** The source's formula; the day of the era is never negative, see `EraIsFloor`. */
  function CivilDate(n: int): Date {
    var shifted := n + EPOCH_SHIFT;
    var era := Era(shifted);
    EraIsFloor(shifted);
    var dayOfEra := shifted - era * DAYS_PER_ERA;
    YearIsLocated(dayOfEra);
    var yearOfEra := YearOfEra(dayOfEra);
    FromMarchYear(yearOfEra + era * 400, dayOfEra - YearStart(yearOfEra))
  }

  // --------------------------------------------------------------- the years

  lemma EraIsFloor(shifted: int)
    ensures 0 <= shifted - Era(shifted) * DAYS_PER_ERA < DAYS_PER_ERA
  {
  }

  lemma EraUnique(shifted: int, era: int, dayOfEra: int)
    requires shifted == era * DAYS_PER_ERA + dayOfEra && 0 <= dayOfEra < DAYS_PER_ERA
    ensures Era(shifted) == era
  {
    EraIsFloor(shifted);
  }

  /** How many days a year counted from March has: the February that ends it is next year's. */
  function MarchYearLength(year: int): nat {
    if IsLeap(year + 1) then 366 else 365
  }

  /** The cycles a day of the era lies in: centuries, four-year cycles, years. */
  lemma YearFromCycles(c: nat, q: nat, s: nat)
    requires c <= 3 && q <= 24 && s <= 1460 && (s == 1460 ==> q < 24 || c == 3)
    ensures YearOfEra(36_524 * c + 1_461 * q + s) == 100 * c + 4 * q + Min(s / 365, 3)
  {
    var d := 36_524 * c + 1_461 * q + s;
    assert d / 1_460 == 25 * c + q + (24 * c + q + s) / 1_460;
    assert d / 146_096 == (if c == 3 && q == 24 && s == 1460 then 1 else 0);
    assert d / 36_524 == c + (if c == 3 && q == 24 && s == 1460 then 1 else 0);
  }

  lemma StartFromCycles(c: nat, q: nat, p: nat)
    requires c <= 3 && q <= 24 && p <= 3
    ensures YearStart(100 * c + 4 * q + p) == 36_524 * c + 1_461 * q + 365 * p
    ensures 100 * c + 4 * q + p <= 399
    ensures IsLeap(100 * c + 4 * q + p + 1) <==> p == 3 && (q < 24 || c == 3)
  {
    var y := 100 * c + 4 * q + p;
    assert y / 4 == 25 * c + q;
    assert y / 100 == c;
    assert (y + 1) % 4 == (p + 1) % 4;
    if p == 3 {
      assert (y + 1) % 100 == 0 <==> q == 24;
    }
  }

  lemma YearIsLocated(dayOfEra: int)
    requires 0 <= dayOfEra < DAYS_PER_ERA
    ensures var y := YearOfEra(dayOfEra);
            y <= 399 && YearStart(y) <= dayOfEra < YearStart(y) + MarchYearLength(y)
  {
    hide YearOfEra, YearStart, IsLeap;
    var c := Min(dayOfEra / 36_524, 3);
    var r := dayOfEra - 36_524 * c;
    var q, s := r / 1_461, r % 1_461;
    YearFromCycles(c, q, s);
    StartFromCycles(c, q, Min(s / 365, 3));
  }

  lemma NextYearStart(y: nat)
    requires y <= 399
    ensures YearStart(y) + MarchYearLength(y) == if y < 399 then YearStart(y + 1) else DAYS_PER_ERA
  {
  }

  lemma YearUnique(dayOfEra: int, y: nat)
    requires y <= 399 && YearStart(y) <= dayOfEra < YearStart(y) + MarchYearLength(y)
    ensures 0 <= dayOfEra < DAYS_PER_ERA && YearOfEra(dayOfEra) == y
  {
    hide YearOfEra, YearStart, IsLeap;
    NextYearStart(y);
    if y < 399 {
      StartsAscend(y + 1, 399);
    }
    NextYearStart(399);
    var z := YearOfEra(dayOfEra);
    YearIsLocated(dayOfEra);
    NextYearStart(z);
    if y < z {
      StartsAscend(y + 1, z);
    } else if z < y {
      StartsAscend(z + 1, y);
    }
  }

  lemma StartsAscend(a: nat, b: nat)
    requires a <= b
    ensures YearStart(a) <= YearStart(b)
  {
  }

  /** A day number as a year counted from March and a day of it. */
  ghost predicate Located(n: int, year: int, dayOfYear: int) {
    && 0 <= dayOfYear < MarchYearLength(year)
    && n + EPOCH_SHIFT == (year / 400) * DAYS_PER_ERA + YearStart(year % 400) + dayOfYear
  }

  lemma RemaindersRepeat(x: int, era: int)
    ensures (x + 400 * era) % 4 == x % 4
    ensures (x + 400 * era) % 100 == x % 100
    ensures (x + 400 * era) % 400 == x % 400
  {
    Remainder4(x, 100 * era);
    Remainder100(x, 4 * era);
    Remainder400(x, era);
  }

  lemma Remainder4(x: int, k: int)
    ensures (x + 4 * k) % 4 == x % 4
  {
  }

  lemma Remainder100(x: int, k: int)
    ensures (x + 100 * k) % 100 == x % 100
  {
  }

  lemma Remainder400(x: int, k: int)
    ensures (x + 400 * k) % 400 == x % 400
  {
  }

  lemma LeapRepeats(year: int)
    ensures IsLeap(year % 400 + 1) <==> IsLeap(year + 1)
  {
    var era, next := year / 400, year % 400 + 1;
    RemaindersRepeat(next, era);
    assert year + 1 == next + 400 * era;
  }

  /** The formula finds the only such year and day. */
  lemma CivilIsLocated(n: int, year: int, dayOfYear: int)
    requires Located(n, year, dayOfYear)
    ensures CivilDate(n) == FromMarchYear(year, dayOfYear)
  {
    hide FromMarchYear, YearOfEra, YearStart, Era, IsLeap;
    var era, y := year / 400, year % 400;
    LeapRepeats(year);
    YearUnique(YearStart(y) + dayOfYear, y);
    EraUnique(n + EPOCH_SHIFT, era, YearStart(y) + dayOfYear);
  }

  lemma Locate(n: int) returns (year: int, dayOfYear: int)
    ensures Located(n, year, dayOfYear)
  {
    hide YearOfEra, YearStart, Era, IsLeap;
    var shifted := n + EPOCH_SHIFT;
    var era := Era(shifted);
    EraIsFloor(shifted);
    var dayOfEra := shifted - era * DAYS_PER_ERA;
    YearIsLocated(dayOfEra);
    var y := YearOfEra(dayOfEra);
    year, dayOfYear := era * 400 + y, dayOfEra - YearStart(y);
    assert year / 400 == era && year % 400 == y;
    LeapRepeats(year);
  }

  lemma LocatedNext(n: int, year: int, dayOfYear: int)
    requires Located(n, year, dayOfYear)
    ensures if dayOfYear + 1 < MarchYearLength(year) then Located(n + 1, year, dayOfYear + 1)
            else Located(n + 1, year + 1, 0)
  {
    hide YearStart, IsLeap;
    LeapRepeats(year);
    NextYearStart(year % 400);
    if year % 400 == 399 {
      assert (year + 1) / 400 == year / 400 + 1 && (year + 1) % 400 == 0;
      FirstStart();
    } else {
      assert (year + 1) / 400 == year / 400 && (year + 1) % 400 == year % 400 + 1;
    }
  }

  lemma FirstStart()
    ensures YearStart(0) == 0
  {
  }

  // -------------------------------------------------------------- the months

  lemma MonthBounds(dayOfYear: nat)
    requires dayOfYear <= 365
    ensures var m := MonthPart(dayOfYear);
            m <= 11 && (153 * m + 2) / 5 <= dayOfYear < (153 * (m + 1) + 2) / 5
  {
  }

  lemma MonthUnique(dayOfYear: nat, m: nat)
    requires (153 * m + 2) / 5 <= dayOfYear < (153 * (m + 1) + 2) / 5
    ensures MonthPart(dayOfYear) == m
  {
  }

  /** Months counted from March have the calendar's lengths, February excepted. */
  lemma MonthLength(year: int, m: nat)
    requires m <= 10
    ensures (153 * (m + 1) + 2) / 5 - (153 * m + 2) / 5
         == DaysInMonth(year, m + if m < 10 then 3 else -9)
  {
  }

  lemma DatesAreValid(year: int, dayOfYear: nat)
    requires dayOfYear < MarchYearLength(year)
    ensures IsDate(FromMarchYear(year, dayOfYear))
  {
    hide IsLeap;
    MonthBounds(dayOfYear);
    var m := MonthPart(dayOfYear);
    if m <= 10 {
      MonthLength(if m < 10 then year else year + 1, m);
    }
  }

  lemma NextInYear(year: int, dayOfYear: nat)
    requires dayOfYear + 1 < MarchYearLength(year)
    ensures FromMarchYear(year, dayOfYear + 1) == NextDay(FromMarchYear(year, dayOfYear))
  {
    hide IsLeap, MonthPart;
    MonthBounds(dayOfYear);
    MonthBounds(dayOfYear + 1);
    var m := MonthPart(dayOfYear);
    if m <= 10 {
      MonthLength(if m < 10 then year else year + 1, m);
    }
    if dayOfYear + 1 < (153 * (m + 1) + 2) / 5 {
      MonthUnique(dayOfYear + 1, m);
    } else {
      MonthUnique(dayOfYear + 1, m + 1);
    }
  }

  lemma NextAcrossYears(year: int, dayOfYear: nat)
    requires dayOfYear + 1 == MarchYearLength(year)
    ensures FromMarchYear(year + 1, 0) == NextDay(FromMarchYear(year, dayOfYear))
  {
    hide IsLeap;
  }

  // ------------------------------------------------------------- the results

  /** Every day number, before the epoch too, is a date that exists. */
  lemma AlwaysADate(n: int)
    ensures IsDate(CivilDate(n))
  {
    hide CivilDate, IsDate, FromMarchYear;
    var year, dayOfYear := Locate(n);
    CivilIsLocated(n, year, dayOfYear);
    DatesAreValid(year, dayOfYear);
  }

  /** The next day number is the next day on the calendar. */
  lemma NextDayIsNext(n: int)
    ensures CivilDate(n + 1) == NextDay(CivilDate(n))
  {
    hide CivilDate, NextDay, FromMarchYear, IsLeap, YearStart;
    var year, dayOfYear := Locate(n);
    CivilIsLocated(n, year, dayOfYear);
    LocatedNext(n, year, dayOfYear);
    if dayOfYear + 1 < MarchYearLength(year) {
      CivilIsLocated(n + 1, year, dayOfYear + 1);
      NextInYear(year, dayOfYear);
    } else {
      CivilIsLocated(n + 1, year + 1, 0);
      NextAcrossYears(year, dayOfYear);
    }
  }

  lemma EpochIsFirst()
    ensures CivilDate(0) == EPOCH
  {
    hide CivilDate;
    CivilIsLocated(0, 1969, 306);
  }

  /** The formula is counting days from 1 January 1970. */
  lemma {:induction false} CountsFromEpoch(n: nat)
    ensures CivilDate(n) == DayAfterEpoch(n)
  {
    hide CivilDate, NextDay;
    if n == 0 {
      EpochIsFirst();
    } else {
      CountsFromEpoch(n - 1);
      NextDayIsNext(n - 1);
    }
  }

  lemma NextIsLater(d: Date)
    requires IsDate(d)
    ensures Before(d, NextDay(d)) && IsDate(NextDay(d))
  {
    hide IsLeap;
  }

  /** Later day numbers are later dates, so no two share one. */
  lemma {:induction false} LaterIsLater(a: int, b: int)
    requires a < b
    ensures Before(CivilDate(a), CivilDate(b))
    decreases b - a
  {
    hide CivilDate, NextDay, IsDate;
    AlwaysADate(b - 1);
    NextDayIsNext(b - 1);
    NextIsLater(CivilDate(b - 1));
    if a < b - 1 {
      LaterIsLater(a, b - 1);
    }
  }

  // ------------------------------------------------------------- the machine

  const I64_MAX := 0x7FFF_FFFF_FFFF_FFFF
  const MILLIS_PER_DAY := 86_400_000

  predicate FitsI64(x: int) {
    -I64_MAX - 1 <= x <= I64_MAX
  }

  /** Under the guard no intermediate result of the formula leaves 64 bits; one day more and the first does. */
  lemma NothingOverflows(n: int)
    requires FitsI64(n)
    ensures n <= I64_MAX - EPOCH_SHIFT <==> FitsI64(n + EPOCH_SHIFT)
    ensures n <= I64_MAX - EPOCH_SHIFT ==>
              var shifted := n + EPOCH_SHIFT;
              var era := Era(shifted);
              var dayOfEra := shifted - era * DAYS_PER_ERA;
              && FitsI64(if shifted >= 0 then shifted else shifted - 146_096)
              && FitsI64(era) && FitsI64(era * DAYS_PER_ERA) && 0 <= dayOfEra < DAYS_PER_ERA
              && FitsI64(era * 400) && FitsI64(YearOfEra(dayOfEra) + era * 400) && FitsI64(CivilDate(n).year)
  {
    hide FromMarchYear, YearOfEra, YearStart;
    var shifted := n + EPOCH_SHIFT;
    EraIsFloor(shifted);
    var dayOfEra := shifted - Era(shifted) * DAYS_PER_ERA;
    YearIsLocated(dayOfEra);
    YearOnly(YearOfEra(dayOfEra) + Era(shifted) * 400, dayOfEra - YearStart(YearOfEra(dayOfEra)));
  }

  lemma YearOnly(year: int, dayOfYear: nat)
    ensures year <= FromMarchYear(year, dayOfYear).year <= year + 1
  {
  }

  datatype Stamp = Stamp(date: Date, hour: int, minute: int, second: int, millis: int)

  /** What a start time is shown as; nothing where the source falls back to the bare number. */
  function UtcStamp(ms: nat): Option<Stamp> {
    var days := ms / MILLIS_PER_DAY;
    if days > I64_MAX - EPOCH_SHIFT then None
    else
      var rest := ms % MILLIS_PER_DAY;
      Some(Stamp(CivilDate(days), rest / 3_600_000, rest / 60_000 % 60, rest / 1_000 % 60, rest % 1_000))
  }

  /** The millisecond of the day a stamp shows. */
  function MillisOfDay(s: Stamp): int {
    ((s.hour * 60 + s.minute) * 60 + s.second) * 1_000 + s.millis
  }

  predicate IsTime(s: Stamp) {
    0 <= s.hour < 24 && 0 <= s.minute < 60 && 0 <= s.second < 60 && 0 <= s.millis < 1_000
  }

  /** Every 64-bit time has a stamp: a real date and time, and the time is that millisecond of the day. */
  lemma EveryTimeHasStamp(ms: nat)
    requires ms < 0x1_0000_0000_0000_0000
    ensures UtcStamp(ms).Some?
    ensures var s := UtcStamp(ms).value;
            IsTime(s) && IsDate(s.date) && MillisOfDay(s) == ms % MILLIS_PER_DAY
            && s.date == DayAfterEpoch(ms / MILLIS_PER_DAY)
  {
    hide CivilDate, IsDate;
    AlwaysADate(ms / MILLIS_PER_DAY);
    CountsFromEpoch(ms / MILLIS_PER_DAY);
  }

  /** Two different times are never shown alike. */
  lemma StampsTellTimesApart(a: nat, b: nat)
    requires a < b < 0x1_0000_0000_0000_0000
    ensures UtcStamp(a) != UtcStamp(b)
  {
    hide CivilDate, UtcStamp;
    EveryTimeHasStamp(a);
    EveryTimeHasStamp(b);
    var x, y := a / MILLIS_PER_DAY, b / MILLIS_PER_DAY;
    if x < y {
      LaterIsLater(x, y);
      CountsFromEpoch(x);
      CountsFromEpoch(y);
    }
  }
}
