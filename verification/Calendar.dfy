/** Day numbers and civil dates: the closed-form conversion behind every
    timestamp of the export report, against the Gregorian calendar itself. */
module Calendar {
  import opened Arithmetic

  datatype Date = Date(year: int, month: int, day: int)

  /** Rust's `/` on signed integers rounds toward zero; Dafny's rounds so that
      the remainder is never negative. */
  function TruncDiv(a: int, b: int): int
    requires b > 0
  {
    if a >= 0 then a / b else -((-a) / b)
  }

  /** Days since 1970-01-01 to a date of the proleptic Gregorian calendar. */
  function CivilFromDays(days: int): Date {
    var z := days + 719_468;
    var era := TruncDiv(if z >= 0 then z else z - 146_096, 146_097);
    var doe := z - era * 146_097;
    CivilInEra(era, doe)
  }

  function YearOfEra(doe: int): int {
    (doe - doe / 1460 + doe / 36524 - doe / 146096) / 365
  }

  function CivilInEra(era: int, doe: int): Date {
    var yoe := YearOfEra(doe);
    var y := yoe + era * 400;
    var doy := doe - (365 * yoe + yoe / 4 - yoe / 100);
    var mp := (5 * doy + 2) / 153;
    var d := doy - (153 * mp + 2) / 5 + 1;
    var m := if mp < 10 then mp + 3 else mp - 9;
    Date(if m <= 2 then y + 1 else y, m, d)
  }

  // ----- The calendar, independently of the conversion (RFC 3339, section 5.7 and Appendix C)

  predicate IsLeap(year: int) {
    year % 4 == 0 && (year % 100 != 0 || year % 400 == 0)
  }

  function DaysInMonth(year: int, month: int): int {
    if month == 2 then (if IsLeap(year) then 29 else 28)
    else if month in {4, 6, 9, 11} then 30
    else 31
  }

  predicate IsDate(d: Date) {
    1 <= d.month <= 12 && 1 <= d.day <= DaysInMonth(d.year, d.month)
  }

  function NextDay(d: Date): Date {
    if d.day < DaysInMonth(d.year, d.month) then d.(day := d.day + 1)
    else if d.month < 12 then Date(d.year, d.month + 1, 1)
    else Date(d.year + 1, 1, 1)
  }

  /** First day of year `y` of a 400-year era, where years run March to February. */
  function YearStart(y: int): int {
    365 * y + y / 4 - y / 100
  }

  /** The length of that March-to-February year. */
  function YearLength(y: int): int {
    if (y + 1) % 4 == 0 && ((y + 1) % 100 != 0 || y == 399) then 366 else 365
  }

  /** Century, four-year cycle and year within the cycle, and the year's start and length in those terms. */
  lemma YearAt(q: int, t: int, s: int)
    requires 0 <= q <= 3 && 0 <= t <= 24 && 0 <= s <= 3
    ensures YearStart(100 * q + 4 * t + s) == 36524 * q + 1461 * t + 365 * s
    ensures YearLength(100 * q + 4 * t + s) == if s == 3 && (t < 24 || q == 3) then 366 else 365
  {
    var y := 100 * q + 4 * t + s;
    QuotientIs(y, 4, 25 * q + t);
    QuotientIs(y, 100, q);
    QuotientIs(y + 1, 4, if s == 3 then 25 * q + t + 1 else 25 * q + t);
    QuotientIs(y + 1, 100, if 4 * t + s == 99 then q + 1 else q);
  }

  /** The leap-day corrections cancel exactly: every day of the year maps back to the year. */
  lemma YearOfEraAt(q: int, t: int, s: int, doy: int)
    requires 0 <= q <= 3 && 0 <= t <= 24 && 0 <= s <= 3
    requires 0 <= doy < if s == 3 && (t < 24 || q == 3) then 366 else 365
    ensures YearOfEra(36524 * q + 1461 * t + 365 * s + doy) == 100 * q + 4 * t + s
  {
    var v := 365 * s + doy;
    var doe := 36524 * q + 1461 * t + v;
    var last := if doe == 146_096 then 1 else 0;
    var f := if 24 * q + t + v >= 1460 then 1 else 0;
    QuotientIs(doe, 1460, 25 * q + t + f);
    QuotientIs(doe, 36524, q + last);
    QuotientIs(doe, 146_096, last);
    QuotientIs(365 * (100 * q + 4 * t) + v - f, 365, 100 * q + 4 * t + s);
  }

  /** Every day of an era lies in some March-based year. */
  lemma DaySplits(doe: int) returns (y: int, doy: int)
    requires 0 <= doe < 146_097
    ensures 0 <= y <= 399 && 0 <= doy < YearLength(y) && doe == YearStart(y) + doy
    ensures YearOfEra(doe) == y
  {
    var q := if doe == 146_096 then 3 else doe / 36524;
    var u := doe - 36524 * q;
    var t := if u == 36524 then 24 else u / 1461;
    var v := u - 1461 * t;
    var s := if v >= 1460 then 3 else v / 365;
    y, doy := 100 * q + 4 * t + s, v - 365 * s;
    YearAt(q, t, s);
    YearOfEraAt(q, t, s, doy);
  }

  lemma YearParts(y: int) returns (q: int, t: int, s: int)
    requires 0 <= y <= 399
    ensures 0 <= q <= 3 && 0 <= t <= 24 && 0 <= s <= 3 && y == 100 * q + 4 * t + s
  {
    q := y / 100;
    t := (y - 100 * q) / 4;
    s := y - 100 * q - 4 * t;
  }

  // ----- Months of a March-based year

  function MonthStart(mp: int): int {
    (153 * mp + 2) / 5
  }

  function MonthOfYear(mp: int): int {
    if mp < 10 then mp + 3 else mp - 9
  }

  lemma MonthAt(doy: int, mp: int)
    requires MonthStart(mp) <= doy < MonthStart(mp + 1)
    ensures (5 * doy + 2) / 153 == mp
  {
    QuotientIs(5 * doy + 2, 153, mp);
  }

  lemma MonthExists(doy: int) returns (mp: int)
    requires 0 <= doy <= 365
    ensures 0 <= mp <= 11 && MonthStart(mp) <= doy < MonthStart(mp + 1)
    ensures (5 * doy + 2) / 153 == mp
  {
    mp := (5 * doy + 2) / 153;
  }

  lemma MonthLength(year: int, mp: int)
    requires 0 <= mp <= 10
    ensures DaysInMonth(year, MonthOfYear(mp)) == MonthStart(mp + 1) - MonthStart(mp)
  {
    assert mp == 0 || mp == 1 || mp == 2 || mp == 3 || mp == 4 || mp == 5
        || mp == 6 || mp == 7 || mp == 8 || mp == 9 || mp == 10;
  }

  /** The date `doy` days after 1 March of year `year`. */
  function MarchBased(year: int, doy: int): Date {
    var mp := (5 * doy + 2) / 153;
    var m := MonthOfYear(mp);
    Date(if m <= 2 then year + 1 else year, m, doy - MonthStart(mp) + 1)
  }

  lemma MarchBasedAt(year: int, doy: int, mp: int)
    requires 0 <= mp <= 11 && MonthStart(mp) <= doy < MonthStart(mp + 1)
    ensures MarchBased(year, doy)
         == Date(if mp >= 10 then year + 1 else year, MonthOfYear(mp), doy - MonthStart(mp) + 1)
  {
    MonthAt(doy, mp);
  }

  /** Month after month, the day-of-year arithmetic walks the calendar to the
      last day of February, whatever its length. */
  lemma MarchBasedWalks(year: int, doy: int)
    requires 0 <= doy < (if IsLeap(year + 1) then 366 else 365)
    ensures IsDate(MarchBased(year, doy))
    ensures NextDay(MarchBased(year, doy))
         == if doy + 1 < (if IsLeap(year + 1) then 366 else 365) then MarchBased(year, doy + 1)
           else Date(year + 1, 3, 1)
  {
    var mp := MonthExists(doy);
    MarchBasedAt(year, doy, mp);
    assert MonthStart(11) == 337 && MonthStart(12) == 367;
    if mp <= 10 {
      MonthLength(if mp >= 10 then year + 1 else year, mp);
      if doy + 1 < MonthStart(mp + 1) {
        MarchBasedAt(year, doy + 1, mp);
      } else {
        assert MonthStart(mp + 1) < MonthStart(mp + 2);
        MarchBasedAt(year, doy + 1, mp + 1);
      }
    } else if doy + 1 < (if IsLeap(year + 1) then 366 else 365) {
      MarchBasedAt(year, doy + 1, mp);
    }
  }

  // ----- Eras

  lemma EraIs(z: int, era: int)
    requires era * 146_097 <= z < era * 146_097 + 146_097
    ensures TruncDiv(if z >= 0 then z else z - 146_096, 146_097) == era
  {
    if z >= 0 {
      QuotientIs(z, 146_097, era);
    } else {
      QuotientIs(146_096 - z, 146_097, -era);
    }
  }

  lemma CivilInEraAt(days: int, era: int, doe: int)
    requires days == era * 146_097 + doe - 719_468 && 0 <= doe < 146_097
    ensures CivilFromDays(days) == CivilInEra(era, doe)
  {
    hide CivilInEra;
    EraIs(days + 719_468, era);
  }

  lemma DayOfEraAt(y: int, doy: int)
    requires 0 <= y <= 399 && 0 <= doy < YearLength(y)
    ensures 0 <= YearStart(y) + doy < 146_097
    ensures YearOfEra(YearStart(y) + doy) == y
  {
    var q, t, s := YearParts(y);
    YearAt(q, t, s);
    hide *;
    YearOfEraAt(q, t, s, doy);
  }

  /** Position of a day within the eras determines its date. */
  lemma CivilAt(days: int, era: int, y: int, doy: int)
    requires 0 <= y <= 399 && 0 <= doy < YearLength(y)
    requires days == era * 146_097 + YearStart(y) + doy - 719_468
    ensures CivilFromDays(days) == MarchBased(y + 400 * era, doy)
  {
    hide CivilFromDays, YearLength, YearOfEra;
    DayOfEraAt(y, doy);
    CivilInEraAt(days, era, YearStart(y) + doy);
  }

  lemma EraSplits(days: int) returns (era: int, y: int, doy: int)
    ensures 0 <= y <= 399 && 0 <= doy < YearLength(y)
    ensures days == era * 146_097 + YearStart(y) + doy - 719_468
    ensures CivilFromDays(days) == MarchBased(y + 400 * era, doy)
  {
    era := (days + 719_468) / 146_097;
    y, doy := DaySplits(days + 719_468 - era * 146_097);
    hide *;
    CivilAt(days, era, y, doy);
  }

  lemma YearStartStep(y: int)
    requires 0 <= y <= 399
    ensures YearStart(y) + YearLength(y) == (if y < 399 then YearStart(y + 1) else 146_097)
  {
    var q, t, s := YearParts(y);
    YearAt(q, t, s);
    if s < 3 {
      YearAt(q, t, s + 1);
    } else if t < 24 {
      YearAt(q, t + 1, 0);
    } else if q < 3 {
      YearAt(q + 1, 0, 0);
    }
  }

  lemma LeapYearLength(era: int, y: int)
    requires 0 <= y <= 399
    ensures IsLeap(y + 400 * era + 1) <==> YearLength(y) == 366
    ensures YearLength(y) in {365, 366}
  {
    var next := y + 1;
    QuotientIs(next + 400 * era, 4, next / 4 + 100 * era);
    QuotientIs(next + 400 * era, 100, next / 100 + 4 * era);
    QuotientIs(next + 400 * era, 400, next / 400 + era);
  }

  /** The day after a position in the eras, and its date. */
  lemma NextPosition(era: int, y: int, doy: int, d: Date) returns (era': int, y': int, doy': int)
    requires 0 <= y <= 399 && 0 <= doy < YearLength(y) && d == MarchBased(y + 400 * era, doy)
    ensures IsDate(d)
    ensures 0 <= y' <= 399 && 0 <= doy' < YearLength(y')
    ensures era' * 146_097 + YearStart(y') + doy' == era * 146_097 + YearStart(y) + doy + 1
    ensures NextDay(d) == MarchBased(y' + 400 * era', doy')
  {
    LeapYearLength(era, y);
    MarchBasedWalks(y + 400 * era, doy);
    YearStartStep(y);
    if doy + 1 < YearLength(y) {
      era', y', doy' := era, y, doy + 1;
    } else if y < 399 {
      era', y', doy' := era, y + 1, 0;
    } else {
      era', y', doy' := era + 1, 0, 0;
    }
  }

  lemma DayZero()
    ensures CivilFromDays(0) == Date(1970, 1, 1)
  {
  }

  /** The conversion is right for every day, past or future: day 0 is
      1970-01-01, every result is a date of the calendar, and the next day
      number is the next day of the calendar. */
  lemma CivilFromDaysFollowsCalendar(days: int)
    ensures CivilFromDays(0) == Date(1970, 1, 1)
    ensures IsDate(CivilFromDays(days))
    ensures CivilFromDays(days + 1) == NextDay(CivilFromDays(days))
  {
    hide *;
    DayZero();
    var era, y, doy := EraSplits(days);
    var era', y', doy' := NextPosition(era, y, doy, CivilFromDays(days));
    CivilAt(days + 1, era', y', doy');
  }

  // ----- The inverse conversion

  function DaysFromCivil(d: Date): int {
    var year := if d.month <= 2 then d.year - 1 else d.year;
    (year / 400) * 146_097 + YearStart(year % 400) + DayOfYear(d) - 719_468
  }

  function DayOfYear(d: Date): int {
    MonthStart(if d.month > 2 then d.month - 3 else d.month + 9) + d.day - 1
  }

  /** Day numbers and dates determine each other. */
  lemma DaysFromCivilUndoes(days: int)
    ensures DaysFromCivil(CivilFromDays(days)) == days
  {
    var era, y, doy := EraSplits(days);
    var mp := MonthExists(doy);
    MarchBasedAt(y + 400 * era, doy, mp);
    QuotientIs(y + 400 * era, 400, era);
    hide CivilFromDays;
  }

  lemma DayOfYearOf(d: Date, year: int)
    requires IsDate(d) && year == if d.month <= 2 then d.year - 1 else d.year
    ensures 0 <= DayOfYear(d) < (if IsLeap(year + 1) then 366 else 365)
    ensures MarchBased(year, DayOfYear(d)) == d
  {
    var mp := if d.month > 2 then d.month - 3 else d.month + 9;
    assert MonthStart(11) == 337 && MonthStart(12) == 367;
    if mp <= 10 {
      MonthLength(d.year, mp);
    }
    MarchBasedAt(year, DayOfYear(d), mp);
  }

  lemma CivilFromDaysUndoes(d: Date)
    requires IsDate(d)
    ensures CivilFromDays(DaysFromCivil(d)) == d
  {
    var year := if d.month <= 2 then d.year - 1 else d.year;
    var era, y := year / 400, year % 400;
    assert DaysFromCivil(d) == era * 146_097 + YearStart(y) + DayOfYear(d) - 719_468;
    assert year == y + 400 * era;
    hide *;
    DayOfYearOf(d, year);
    LeapYearLength(era, y);
    CivilAt(DaysFromCivil(d), era, y, DayOfYear(d));
  }

  // ----- Order

  predicate Earlier(a: Date, b: Date) {
    a.year < b.year || (a.year == b.year && (a.month < b.month || (a.month == b.month && a.day < b.day)))
  }

  lemma NextDayIsLater(d: Date, earlier: Date)
    requires IsDate(d)
    ensures Earlier(d, NextDay(d))
    ensures Earlier(earlier, d) ==> Earlier(earlier, NextDay(d))
  {
  }

  lemma {:induction false} LaterDayLaterDate(a: int, b: int)
    requires a < b
    ensures Earlier(CivilFromDays(a), CivilFromDays(b))
    decreases b - a
  {
    hide *;
    CivilFromDaysFollowsCalendar(b - 1);
    assert b - 1 + 1 == b;
    NextDayIsLater(CivilFromDays(b - 1), CivilFromDays(a));
    if a < b - 1 {
      LaterDayLaterDate(a, b - 1);
    }
  }
}
