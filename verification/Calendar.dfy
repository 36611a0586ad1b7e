/** The civil-date formatter (crates/close/src/main.rs `date`): days since
    1970-01-01 to the Gregorian calendar, by closed-form arithmetic. */
module Calendar {

  datatype Civil = Civil(year: int, month: int, day: int)

  datatype Stamp = Stamp(date: Civil, hour: int, minute: int)

  // ---- the calendar itself ---------------------------------------------------------

  /** Appendix C of RFC 3339. */
  predicate Leap(year: int) {
    year % 4 == 0 && (year % 100 != 0 || year % 400 == 0)
  }

  /** The table of section 5.7 of RFC 3339. */
  function DaysIn(year: int, month: int): int {
    if month == 2 then (if Leap(year) then 29 else 28)
    else if month == 4 || month == 6 || month == 9 || month == 11 then 30
    else 31
  }

  predicate Valid(c: Civil) {
    1 <= c.month <= 12 && 1 <= c.day <= DaysIn(c.year, c.month)
  }

  function Tomorrow(c: Civil): Civil {
    if c.day < DaysIn(c.year, c.month) then c.(day := c.day + 1)
    else if c.month < 12 then Civil(c.year, c.month + 1, 1)
    else Civil(c.year + 1, 1, 1)
  }

  predicate Before(a: Civil, b: Civil) {
    || a.year < b.year
    || (a.year == b.year && a.month < b.month)
    || (a.year == b.year && a.month == b.month && a.day < b.day)
  }

  /** The date `n` days after 1970-01-01, by counting. */
  function Counted(n: nat): Civil {
    if n == 0 then Civil(1970, 1, 1) else Tomorrow(Counted(n - 1))
  }

  // ---- the conversion ------------------------------------------------------------------

  /** Position in a 400-year era whose years start on the first of March. */
  datatype Era = Era(era: int, yearOfEra: int, dayOfYear: int)

  /** Days before the first of March of a year of the era. */
  function YearStart(yoe: int): int {
    365 * yoe + yoe / 4 - yoe / 100
  }

  function YearOfEra(doe: int): int {
    (doe - doe / 1460 + doe / 36_524 - doe / 146_096) / 365
  }

  function EraOf(days: int): Era {
    var z := days + 719_468;
    var doe := z % 146_097;
    var yoe := YearOfEra(doe);
    Era(z / 146_097, yoe, doe - YearStart(yoe))
  }

  function MonthAndDayOf(doy: int): (int, int) {
    var mp := (5 * doy + 2) / 153;
    (if mp < 10 then mp + 3 else mp - 9, doy - (153 * mp + 2) / 5 + 1)
  }

  function CivilOf(e: Era): Civil {
    var (m, d) := MonthAndDayOf(e.dayOfYear);
    var y := e.yearOfEra + e.era * 400;
    Civil(if m <= 2 then y + 1 else y, m, d)
  }

  function CivilFromDays(days: int): Civil {
    CivilOf(EraOf(days))
  }

  newtype u64 = x: int | 0 <= x < 0x1_0000_0000_0000_0000
  newtype i64 = x: int | -0x8000_0000_0000_0000 <= x < 0x8000_0000_0000_0000

  // ---- the proof ------------------------------------------------------------------------

  /** The March-based year that ends in a leap February. */
  predicate EndsLeap(yoe: int) {
    Leap(yoe + 1)
  }

  /** A day of the era as century, four-year cycle and day of the cycle. Only
      the last cycle of the era keeps its leap day at a century's end. */
  predicate Parts(doe: int, c: int, q: int, r: int) {
    && 0 <= c <= 3 && 0 <= q <= 24 && 0 <= r <= 1460
    && (q == 24 && r == 1460 ==> c == 3)
    && doe == 36_524 * c + 1461 * q + r
  }

  lemma EveryDayHasParts(doe: int) returns (c: int, q: int, r: int)
    requires 0 <= doe < 146_097
    ensures Parts(doe, c, q, r)
  {
    c := if doe == 146_096 then 3 else doe / 36_524;
    q, r := (doe - 36_524 * c) / 1461, (doe - 36_524 * c) % 1461;
  }

  function YearOfCycle(r: int): int {
    if r >= 1095 then 3 else r / 365
  }

  lemma YearOfEraIs(doe: int, c: int, q: int, r: int)
    requires Parts(doe, c, q, r)
    ensures YearOfEra(doe) == 100 * c + 4 * q + YearOfCycle(r)
  {
    assert doe / 146_096 == if doe == 146_096 then 1 else 0;
    assert doe / 36_524 == if doe == 146_096 then 4 else c;
    var e := (24 * c + q + r) / 1460;
    assert doe == 1460 * (25 * c + q) + (24 * c + q + r);
    assert doe / 1460 == 25 * c + q + e;
    assert doe - doe / 1460 + doe / 36_524 - doe / 146_096 == 365 * (100 * c + 4 * q) + (r - e);
    assert (r - e) / 365 == YearOfCycle(r);
  }

  lemma YearStartIs(c: int, q: int, k: int)
    requires 0 <= c <= 3 && 0 <= q <= 24 && 0 <= k <= 3
    ensures YearStart(100 * c + 4 * q + k) == 36_524 * c + 1461 * q + 365 * k
  {
    var yoe := 100 * c + 4 * q + k;
    assert yoe / 4 == 25 * c + q;
    assert yoe / 100 == c;
  }

  /** Every fourth year of the cycle ends leap, but for the last of a century that
      is not the last of the era. */
  lemma FourthYearEndsLeap(c: int, q: int)
    requires 0 <= c <= 3 && 0 <= q <= 24 && (q == 24 ==> c == 3)
    ensures EndsLeap(100 * c + 4 * q + 3)
  {
    var year := 100 * c + 4 * q + 4;
    assert year == 4 * (25 * c + q + 1);
    if q < 24 {
      assert year / 100 == c && year % 100 == 4 * q + 4;
    }
  }

  lemma YearOfEraIsRight(doe: int)
    requires 0 <= doe < 146_097
    ensures var yoe := YearOfEra(doe);
            && 0 <= yoe < 400
            && 0 <= doe - YearStart(yoe) <= 365
            && (doe - YearStart(yoe) == 365 ==> EndsLeap(yoe))
  {
    var c, q, r := EveryDayHasParts(doe);
    var k := YearOfCycle(r);
    YearOfEraIs(doe, c, q, r);
    YearStartIs(c, q, k);
    assert doe - YearStart(YearOfEra(doe)) == r - 365 * k;
    if r - 365 * k == 365 {
      FourthYearEndsLeap(c, q);
    }
  }

  // ---- in the source's integer types -----------------------------------------------------

  /** Year of the era and day of the year, computed in 64 bits. */
  function YearAndDay(doe: i64): (r: (i64, i64))
    requires 0 <= doe < 146_097
    ensures r.0 as int == YearOfEra(doe as int) && 0 <= r.0 < 400
    ensures r.1 as int == doe as int - YearStart(YearOfEra(doe as int)) && 0 <= r.1 < 366
  {
    YearOfEraIsRight(doe as int);
    var yoe := (doe - doe / 1460 + doe / 36_524 - doe / 146_096) / 365;
    (yoe, doe - (365 * yoe + yoe / 4 - yoe / 100))
  }

  function MonthAndDay(doy: i64): (r: (i64, i64))
    requires 0 <= doy < 366
    ensures (r.0 as int, r.1 as int) == MonthAndDayOf(doy as int)
  {
    var mp := (5 * doy + 2) / 153;
    var d := doy - (153 * mp + 2) / 5 + 1;
    (if mp < 10 then mp + 3 else mp - 9, d)
  }

  function YearMonthDay(days: i64): (c: Civil)
    requires 0 <= days <= 213_503_982_334_601
    ensures c == CivilFromDays(days as int)
  {
    var z := days + 719_468;
    var era, doe := z / 146_097, z % 146_097;
    var (yoe, doy) := YearAndDay(doe);
    var y := yoe + era * 400;
    var (m, d) := MonthAndDay(doy);
    Civil((if m <= 2 then y + 1 else y) as int, m as int, d as int)
  }

  function HourAndMinute(secs: u64): (r: (int, int))
    requires secs < 86_400
    ensures 0 <= r.0 < 24 && 0 <= r.1 < 60
    ensures 0 <= secs as int - 3600 * r.0 - 60 * r.1 < 60
  {
    ((secs / 3600) as int, ((secs % 3600) / 60) as int)
  }

  /** The whole computation; that every intermediate value fits its type is
      checked by the types. */
  function Date(unix: u64): (s: Stamp)
    ensures s.date == CivilFromDays(unix as int / 86_400)
    ensures 0 <= s.hour < 24 && 0 <= s.minute < 60
    ensures 0 <= unix as int % 86_400 - 3600 * s.hour - 60 * s.minute < 60
  {
    var days, secs := unix / 86_400, unix % 86_400;
    var (hour, minute) := HourAndMinute(secs);
    Stamp(YearMonthDay(days as i64), hour, minute)
  }

  // ---- the conversion counts days ---------------------------------------------------------

  /** A March-based year is exactly as long as its February allows. */
  predicate EraValid(e: Era) {
    0 <= e.yearOfEra < 400 && 0 <= e.dayOfYear <= 365 && (e.dayOfYear == 365 ==> EndsLeap(e.yearOfEra))
  }

  function EraDays(e: Era): int {
    146_097 * e.era + YearStart(e.yearOfEra) + e.dayOfYear - 719_468
  }

  function NextInEra(e: Era): Era {
    if e.dayOfYear < 364 || (e.dayOfYear == 364 && EndsLeap(e.yearOfEra)) then e.(dayOfYear := e.dayOfYear + 1)
    else if e.yearOfEra < 399 then Era(e.era, e.yearOfEra + 1, 0)
    else Era(e.era + 1, 0, 0)
  }

  lemma SplitIsEra(days: int, era: int, doe: int, yoe: int, doy: int)
    requires days + 719_468 == 146_097 * era + doe && doe == YearStart(yoe) + doy
    ensures EraDays(Era(era, yoe, doy)) == days
  {
  }

  lemma EraOfIsRight(days: int)
    ensures EraValid(EraOf(days)) && EraDays(EraOf(days)) == days
  {
    var z := days + 719_468;
    var era, doe := z / 146_097, z % 146_097;
    var yoe := YearOfEra(doe);
    YearOfEraIsRight(doe);
    assert z == 146_097 * era + doe;
    SplitIsEra(days, era, doe, yoe, doe - YearStart(yoe));
    assert EraOf(days) == Era(era, yoe, doe - YearStart(yoe));
  }

  lemma YearLength(yoe: int)
    requires 0 <= yoe < 400
    ensures yoe < 399 ==> YearStart(yoe + 1) == YearStart(yoe) + (if EndsLeap(yoe) then 366 else 365)
    ensures yoe == 399 ==> EndsLeap(yoe) && YearStart(yoe) + 366 == 146_097
  {
    var c, k := yoe / 100, yoe % 100;
    assert yoe == 100 * c + k;
    assert yoe / 4 == 25 * c + k / 4;
  }

  lemma NextInEraIsNext(e: Era)
    requires EraValid(e)
    ensures EraValid(NextInEra(e)) && EraDays(NextInEra(e)) == EraDays(e) + 1
  {
    YearLength(e.yearOfEra);
  }

  lemma YearsAreApart(a: int, b: int)
    requires 0 <= a < b < 400
    ensures YearStart(a) + (if EndsLeap(a) then 366 else 365) <= YearStart(b)
    decreases b
  {
    YearLength(b - 1);
    if a < b - 1 {
      YearsAreApart(a, b - 1);
    }
  }

  lemma WithinEra(e: Era)
    requires EraValid(e)
    ensures 0 <= YearStart(e.yearOfEra) + e.dayOfYear < 146_097
  {
    YearLength(e.yearOfEra);
    if e.yearOfEra < 399 {
      YearsAreApart(e.yearOfEra, 399);
    }
  }

  lemma QuotientIsUnique(p: int, x: int, q: int, y: int)
    requires 0 <= x < 146_097 && 0 <= y < 146_097 && 146_097 * p + x == 146_097 * q + y
    ensures p == q && x == y
  {
  }

  lemma EraIsUnique(a: Era, b: Era)
    requires EraValid(a) && EraValid(b) && EraDays(a) == EraDays(b)
    ensures a == b
  {
    WithinEra(a);
    WithinEra(b);
    QuotientIsUnique(a.era, YearStart(a.yearOfEra) + a.dayOfYear, b.era, YearStart(b.yearOfEra) + b.dayOfYear);
    YearAndDayAreUnique(a.yearOfEra, a.dayOfYear, b.yearOfEra, b.dayOfYear);
  }

  lemma YearAndDayAreUnique(y: int, d: int, y': int, d': int)
    requires EraValid(Era(0, y, d)) && EraValid(Era(0, y', d'))
    requires YearStart(y) + d == YearStart(y') + d'
    ensures y == y' && d == d'
  {
    if y < y' { YearsAreApart(y, y'); }
    if y' < y { YearsAreApart(y', y); }
  }

  lemma ShiftBy4(x: int, k: int)
    ensures (x + 4 * k) % 4 == x % 4
  {
  }

  lemma ShiftBy100(x: int, k: int)
    ensures (x + 100 * k) % 100 == x % 100
  {
  }

  lemma ShiftBy400(x: int, k: int)
    ensures (x + 400 * k) % 400 == x % 400
  {
  }

  lemma LeapRepeats(yoe: int, era: int)
    ensures Leap(yoe + 1 + 400 * era) == Leap(yoe + 1)
  {
    ShiftBy4(yoe + 1, 100 * era);
    ShiftBy100(yoe + 1, 4 * era);
    ShiftBy400(yoe + 1, era);
  }

  /** Days of a March-based year before month `mp`, March being month 0. */
  function MonthStart(mp: int): int {
    match mp
    case 0 => 0
    case 1 => 31
    case 2 => 61
    case 3 => 92
    case 4 => 122
    case 5 => 153
    case 6 => 184
    case 7 => 214
    case 8 => 245
    case 9 => 275
    case 10 => 306
    case 11 => 337
    case _ => 366
  }

  function MonthOf(mp: int): int { if mp < 10 then mp + 3 else mp - 9 }

  /** The closed form puts a day in the month whose start and end enclose it. */
  lemma CivilInMonth(e: Era, mp: int)
    requires 0 <= mp <= 11 && MonthStart(mp) <= e.dayOfYear < MonthStart(mp + 1)
    ensures CivilOf(e) ==
            Civil(e.yearOfEra + 400 * e.era + (if mp < 10 then 0 else 1), MonthOf(mp), e.dayOfYear - MonthStart(mp) + 1)
  {
    assert (5 * e.dayOfYear + 2) / 153 == mp;
    assert (153 * mp + 2) / 5 == MonthStart(mp);
  }

  lemma MonthEncloses(doy: int) returns (mp: int)
    requires 0 <= doy <= 365
    ensures 0 <= mp <= 11 && MonthStart(mp) <= doy < MonthStart(mp + 1)
  {
    mp := 0;
    while doy >= MonthStart(mp + 1)
      invariant 0 <= mp <= 11 && MonthStart(mp) <= doy
      decreases 11 - mp
    {
      mp := mp + 1;
    }
  }

  /** How long month `mp` is, in the year of era `e`. */
  lemma MonthLength(e: Era, mp: int)
    requires EraValid(e) && 0 <= mp <= 11
    ensures DaysIn(e.yearOfEra + 400 * e.era + (if mp < 10 then 0 else 1), MonthOf(mp)) ==
            if mp == 11 then (if EndsLeap(e.yearOfEra) then 29 else 28) else MonthStart(mp + 1) - MonthStart(mp)
  {
    LeapRepeats(e.yearOfEra, e.era);
    assert mp == 11 || MonthOf(mp) != 2;
  }

  lemma CivilIsNext(e: Era)
    requires EraValid(e)
    ensures Valid(CivilOf(e)) && CivilOf(NextInEra(e)) == Tomorrow(CivilOf(e))
  {
    var mp := MonthEncloses(e.dayOfYear);
    var next := NextInEra(e);
    CivilInMonth(e, mp);
    MonthLength(e, mp);
    if next.dayOfYear == 0 {
      CivilInMonth(next, 0);
    } else if next.dayOfYear < MonthStart(mp + 1) {
      CivilInMonth(next, mp);
    } else {
      CivilInMonth(next, mp + 1);
    }
  }

  /** Consecutive day numbers are consecutive calendar dates. */
  lemma ConsecutiveDays(days: int)
    ensures Valid(CivilFromDays(days))
    ensures CivilFromDays(days + 1) == Tomorrow(CivilFromDays(days))
  {
    EraOfIsRight(days);
    EraOfIsRight(days + 1);
    NextInEraIsNext(EraOf(days));
    EraIsUnique(EraOf(days + 1), NextInEra(EraOf(days)));
    CivilIsNext(EraOf(days));
  }

  lemma {:induction false} CountsDays(f: int -> Civil, n: nat)
    requires f(0) == Civil(1970, 1, 1)
    requires forall days: int :: f(days + 1) == Tomorrow(f(days))
    ensures f(n) == Counted(n)
  {
    if n > 0 {
      CountsDays(f, n - 1);
      assert f((n - 1) + 1) == Tomorrow(f(n - 1));
    }
  }

  lemma EraOfDayZero()
    ensures EraOf(0) == Era(4, 369, 306)
  {
    assert 719_468 == 4 * 146_097 + 135_080;
    assert YearOfEra(135_080) == 369 && YearStart(369) == 134_774;
  }

  lemma FirstOfJanuary()
    ensures CivilOf(Era(4, 369, 306)) == Civil(1970, 1, 1)
  {
    assert MonthAndDayOf(306) == (1, 1);
  }

  lemma EpochIsDayZero()
    ensures CivilFromDays(0) == Civil(1970, 1, 1)
  {
    EraOfDayZero();
    FirstOfJanuary();
  }

  /** The conversion is the Gregorian calendar: it gives the date reached by
      counting days from 1970-01-01. */
  lemma ConversionCountsDays(n: nat)
    ensures CivilFromDays(n) == Counted(n)
  {
    var f := CivilFromDays;
    EpochIsDayZero();
    forall days: int ensures f(days + 1) == Tomorrow(f(days)) {
      ConsecutiveDays(days);
    }
    CountsDays(f, n);
  }

  lemma {:induction false} LaterIsLater(f: int -> Civil, a: int, b: int)
    requires forall days: int :: Valid(f(days)) && f(days + 1) == Tomorrow(f(days))
    requires a < b
    ensures Before(f(a), f(b))
    decreases b - a
  {
    assert f((b - 1) + 1) == Tomorrow(f(b - 1));
    if a < b - 1 {
      LaterIsLater(f, a, b - 1);
    }
  }

  /** Later days have later dates, so no date is given to two days. */
  lemma LaterDaysAreLater(a: int, b: int)
    requires a < b
    ensures Before(CivilFromDays(a), CivilFromDays(b))
  {
    var f := CivilFromDays;
    forall days: int ensures Valid(f(days)) && f(days + 1) == Tomorrow(f(days)) {
      ConsecutiveDays(days);
    }
    LaterIsLater(f, a, b);
  }
}
