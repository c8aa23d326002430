/** The report's UTC timestamps: rendering, reading back, and order. */
module Timestamp {
  import opened Wrappers
  import opened Arithmetic
  import opened Order
  import opened Calendar

  const SECONDS_PER_DAY := 86_400

  // ----- Rendering

  function Digit(n: nat): char
    requires n <= 9
  {
    ('0' as int + n) as char
  }

  function Decimal(n: nat): string {
    if n < 10 then [Digit(n)] else Decimal(n / 10) + [Digit(n % 10)]
  }

  function Zeros(n: nat): string {
    seq(n, _ => '0')
  }

  /** A number padded with zeros to a minimum width; a minus sign counts toward the width. */
  function ZeroPadded(n: int, width: nat): string {
    var sign := if n < 0 then "-" else "";
    var digits := Decimal(if n < 0 then -n else n);
    sign + Zeros(if |sign| + |digits| < width then width - |sign| - |digits| else 0) + digits
  }

  function UnixToIso8601(secs: int): string {
    var date := CivilFromDays(secs / SECONDS_PER_DAY);
    var timeOfDay := secs % SECONDS_PER_DAY;
    ZeroPadded(date.year, 4) + "-" + ZeroPadded(date.month, 2) + "-" + ZeroPadded(date.day, 2)
    + "T" + ZeroPadded(timeOfDay / 3600, 2) + ":" + ZeroPadded(timeOfDay % 3600 / 60, 2)
    + ":" + ZeroPadded(timeOfDay % 60, 2) + "Z"
  }

  // ----- Reading: the date-time of RFC 3339, section 5.6, in UTC without a fraction

  predicate IsDigit(c: char) {
    '0' <= c <= '9'
  }

  function ReadTwo(s: string, at: nat): Option<nat>
    requires at + 2 <= |s|
  {
    if IsDigit(s[at]) && IsDigit(s[at + 1])
    then Some((s[at] as int - '0' as int) * 10 + (s[at + 1] as int - '0' as int))
    else None
  }

  function ReadIso8601(s: string): Option<int> {
    if |s| != 20 || s[4] != '-' || s[7] != '-' || s[10] != 'T' || s[13] != ':' || s[16] != ':' || s[19] != 'Z' then None
    else
      match (ReadTwo(s, 0), ReadTwo(s, 2), ReadTwo(s, 5), ReadTwo(s, 8), ReadTwo(s, 11), ReadTwo(s, 14), ReadTwo(s, 17))
      case (Some(century), Some(year), Some(month), Some(day), Some(hour), Some(minute), Some(second)) =>
        var date := Date(century * 100 + year, month, day);
        if IsDate(date) && hour < 24 && minute < 60 && second < 60
        then Some(DaysFromCivil(date) * SECONDS_PER_DAY + hour * 3600 + minute * 60 + second)
        else None
      case _ => None
  }

  // ----- The text of an in-range timestamp, field by field

  function Two(n: nat): string
    requires n <= 99
  {
    [Digit(n / 10), Digit(n % 10)]
  }

  datatype Fields = Fields(century: int, year: int, month: int, day: int, hour: int, minute: int, second: int) {
    predicate Valid() {
      0 <= century <= 99 && 0 <= year <= 99 && IsDate(GetDate())
      && 0 <= hour < 24 && 0 <= minute < 60 && 0 <= second < 60
    }

    function GetDate(): Date {
      Date(century * 100 + year, month, day)
    }

    function Seconds(): int {
      DaysFromCivil(GetDate()) * SECONDS_PER_DAY + hour * 3600 + minute * 60 + second
    }
  }

  function Text(f: Fields): string
    requires f.Valid()
  {
    Two(f.century) + (Two(f.year) + ("-" + (Two(f.month) + ("-" + (Two(f.day)
    + ("T" + (Two(f.hour) + (":" + (Two(f.minute) + (":" + (Two(f.second) + "Z")))))))))))
  }

  /** From 0000-01-01T00:00:00Z up to, but not including, 10000-01-01T00:00:00Z. */
  predicate FourDigitYear(secs: int) {
    -62_167_219_200 <= secs < 253_402_300_800
  }

  lemma YearZero()
    ensures CivilFromDays(-719_528) == Date(0, 1, 1)
  {
    hide CivilFromDays;
    CivilFromDaysUndoes(Date(0, 1, 1));
  }

  lemma TenThousand()
    ensures CivilFromDays(2_932_897) == Date(10_000, 1, 1)
  {
    hide CivilFromDays;
    CivilFromDaysUndoes(Date(10_000, 1, 1));
  }

  /** The first day of a year separates the days of earlier years from the rest. */
  lemma YearStartSeparates(days: int, start: int, year: int)
    requires CivilFromDays(start) == Date(year, 1, 1)
    ensures days < start <==> CivilFromDays(days).year < year
  {
    CivilFromDaysFollowsCalendar(days);
    hide CivilFromDays;
    if days < start {
      LaterDayLaterDate(days, start);
    } else if start < days {
      LaterDayLaterDate(start, days);
    }
  }

  lemma FourDigitYearIs(secs: int)
    ensures FourDigitYear(secs) <==> 0 <= CivilFromDays(secs / SECONDS_PER_DAY).year <= 9999
  {
    hide CivilFromDays;
    YearZero();
    TenThousand();
    YearStartSeparates(secs / SECONDS_PER_DAY, -719_528, 0);
    YearStartSeparates(secs / SECONDS_PER_DAY, 2_932_897, 10_000);
    assert FourDigitYear(secs) <==> -719_528 <= secs / SECONDS_PER_DAY < 2_932_897;
  }

  function FieldsOf(secs: int): Fields {
    var date := CivilFromDays(secs / SECONDS_PER_DAY);
    var timeOfDay := secs % SECONDS_PER_DAY;
    Fields(date.year / 100, date.year % 100, date.month, date.day,
           timeOfDay / 3600, timeOfDay % 3600 / 60, timeOfDay % 60)
  }

  lemma FieldsOfSeconds(secs: int)
    requires FourDigitYear(secs)
    ensures FieldsOf(secs).Valid()
    ensures FieldsOf(secs).GetDate() == CivilFromDays(secs / SECONDS_PER_DAY)
    ensures FieldsOf(secs).Seconds() == secs
  {
    hide CivilFromDays, DaysFromCivil;
    FourDigitYearIs(secs);
    CivilFromDaysFollowsCalendar(secs / SECONDS_PER_DAY);
    DaysFromCivilUndoes(secs / SECONDS_PER_DAY);
  }

  lemma PaddedTwo(n: nat)
    requires n <= 99
    ensures ZeroPadded(n, 2) == Two(n)
  {
    if n < 10 {
      assert ZeroPadded(n, 2) == "" + Zeros(1) + Decimal(n);
    } else {
      assert Decimal(n) == Decimal(n / 10) + [Digit(n % 10)] && Decimal(n / 10) == [Digit(n / 10)];
    }
  }

  lemma LastTwo(n: nat)
    requires 100 <= n <= 9999
    ensures Decimal(n) == Decimal(n / 100) + Two(n % 100)
  {
    assert n % 100 / 10 == n / 10 % 10 && n % 100 % 10 == n % 10 && n / 10 / 10 == n / 100;
    assert Decimal(n) == Decimal(n / 10) + [Digit(n % 10)];
    assert Decimal(n / 10) == Decimal(n / 100) + [Digit(n / 10 % 10)];
  }

  lemma DecimalTwo(n: nat)
    requires n <= 99
    ensures Decimal(n) == if n < 10 then [Digit(n)] else Two(n)
  {
    if n >= 10 {
      assert Decimal(n / 10) == [Digit(n / 10)];
    }
  }

  lemma PaddedFour(n: nat)
    requires n <= 9999
    ensures ZeroPadded(n, 4) == Two(n / 100) + Two(n % 100)
  {
    hide Decimal;
    if n < 100 {
      DecimalTwo(n);
      assert Two(0) == Zeros(2);
    } else {
      LastTwo(n);
      DecimalTwo(n / 100);
    }
  }

  lemma TextAt(f: Fields)
    requires f.Valid()
    ensures Text(f) == [
      Digit(f.century / 10), Digit(f.century % 10), Digit(f.year / 10), Digit(f.year % 10), '-',
      Digit(f.month / 10), Digit(f.month % 10), '-', Digit(f.day / 10), Digit(f.day % 10), 'T',
      Digit(f.hour / 10), Digit(f.hour % 10), ':', Digit(f.minute / 10), Digit(f.minute % 10), ':',
      Digit(f.second / 10), Digit(f.second % 10), 'Z']
  {
  }

  lemma RendersText(secs: int)
    requires FourDigitYear(secs)
    ensures FieldsOf(secs).Valid() && UnixToIso8601(secs) == Text(FieldsOf(secs))
  {
    hide CivilFromDays, ZeroPadded;
    FieldsOfSeconds(secs);
    var f := FieldsOf(secs);
    PaddedFour(f.GetDate().year);
    PaddedTwo(f.month);
    PaddedTwo(f.day);
    PaddedTwo(f.hour);
    PaddedTwo(f.minute);
    PaddedTwo(f.second);
  }

  lemma ReadsTwo(s: string, at: nat, n: nat)
    requires at + 2 <= |s| && n <= 99 && s[at] == Digit(n / 10) && s[at + 1] == Digit(n % 10)
    ensures ReadTwo(s, at) == Some(n)
  {
  }

  lemma ReadsText(f: Fields)
    requires f.Valid()
    ensures ReadIso8601(Text(f)) == Some(f.Seconds())
  {
    hide DaysFromCivil, Text, ReadTwo;
    TextAt(f);
    ReadsTwo(Text(f), 0, f.century);
    ReadsTwo(Text(f), 2, f.year);
    ReadsTwo(Text(f), 5, f.month);
    ReadsTwo(Text(f), 8, f.day);
    ReadsTwo(Text(f), 11, f.hour);
    ReadsTwo(Text(f), 14, f.minute);
    ReadsTwo(Text(f), 17, f.second);
  }

  lemma TwoDigits(a: char, b: char) returns (n: nat)
    requires IsDigit(a) && IsDigit(b)
    ensures n <= 99 && n == (a as int - '0' as int) * 10 + (b as int - '0' as int)
    ensures a == Digit(n / 10) && b == Digit(n % 10)
  {
    n := (a as int - '0' as int) * 10 + (b as int - '0' as int);
  }

  /** Whatever the reader accepts is the text of some valid fields. */
  lemma ReadIsText(s: string) returns (f: Fields)
    requires ReadIso8601(s).Some?
    ensures f.Valid() && s == Text(f) && ReadIso8601(s) == Some(f.Seconds())
  {
    hide DaysFromCivil, Text, IsDate;
    var century := TwoDigits(s[0], s[1]);
    var year := TwoDigits(s[2], s[3]);
    var month := TwoDigits(s[5], s[6]);
    var day := TwoDigits(s[8], s[9]);
    var hour := TwoDigits(s[11], s[12]);
    var minute := TwoDigits(s[14], s[15]);
    var second := TwoDigits(s[17], s[18]);
    f := Fields(century, year, month, day, hour, minute, second);
    TextAt(f);
  }

  // ----- The round trip, both ways

  lemma ClockFields(hour: nat, minute: nat, second: nat)
    requires hour < 24 && minute < 60 && second < 60
    ensures var rest := hour * 3600 + minute * 60 + second;
            rest < SECONDS_PER_DAY && rest / 3600 == hour && rest % 3600 / 60 == minute && rest % 60 == second
  {
    QuotientIs(hour * 3600 + minute * 60 + second, 3600, hour);
    QuotientIs(minute * 60 + second, 60, minute);
    QuotientIs(hour * 3600 + minute * 60 + second, 60, hour * 60 + minute);
  }

  lemma FieldsAreUnique(f: Fields, secs: int)
    requires f.Valid() && secs == f.Seconds()
    ensures FourDigitYear(secs) && FieldsOf(secs) == f
  {
    var days := DaysFromCivil(f.GetDate());
    var rest := f.hour * 3600 + f.minute * 60 + f.second;
    CivilFromDaysUndoes(f.GetDate());
    hide CivilFromDays, DaysFromCivil;
    ClockFields(f.hour, f.minute, f.second);
    assert secs == days * SECONDS_PER_DAY + rest;
    QuotientIs(secs, SECONDS_PER_DAY, days);
    FourDigitYearIs(secs);
  }

  lemma LongDecimal(n: nat)
    requires n >= 10_000
    ensures |Decimal(n)| >= 5
  {
    assert |Decimal(n / 1000)| >= 2;
    assert |Decimal(n / 100)| >= 3;
    assert |Decimal(n / 10)| >= 4;
  }

  /** A negative year shows its sign, one beyond 9999 its length. */
  lemma OddYear(year: int)
    requires year < 0 || year >= 10_000
    ensures |ZeroPadded(year, 4)| >= 5 || (|ZeroPadded(year, 4)| > 0 && ZeroPadded(year, 4)[0] == '-')
  {
    if year >= 10_000 {
      LongDecimal(year);
    }
  }

  lemma OutOfRangeUnreadable(secs: int)
    requires !FourDigitYear(secs)
    ensures ReadIso8601(UnixToIso8601(secs)) == None
  {
    hide ZeroPadded, Decimal, Zeros, CivilFromDays, DaysFromCivil;
    var days := secs / SECONDS_PER_DAY;
    var date := CivilFromDays(days);
    CivilFromDaysFollowsCalendar(days);
    FourDigitYearIs(secs);
    PaddedTwo(date.month);
    PaddedTwo(date.day);
    PaddedTwo(secs % SECONDS_PER_DAY / 3600);
    PaddedTwo(secs % SECONDS_PER_DAY % 3600 / 60);
    PaddedTwo(secs % SECONDS_PER_DAY % 60);
    OddYear(date.year);
    var text := UnixToIso8601(secs);
    assert |text| == |ZeroPadded(date.year, 4)| + 16 && text[0] == ZeroPadded(date.year, 4)[0];
  }

  /** A rendered timestamp reads back to the same second exactly when its year has four digits. */
  lemma RenderThenRead(secs: int)
    ensures ReadIso8601(UnixToIso8601(secs)) == if FourDigitYear(secs) then Some(secs) else None
  {
    if FourDigitYear(secs) {
      FieldsOfSeconds(secs);
      RendersText(secs);
      ReadsText(FieldsOf(secs));
    } else {
      OutOfRangeUnreadable(secs);
    }
  }

  /** Every text the reader accepts is the rendering of the second it denotes. */
  lemma ReadThenRender(text: string)
    requires ReadIso8601(text).Some?
    ensures UnixToIso8601(ReadIso8601(text).value) == text
  {
    var f := ReadIsText(text);
    FieldsAreUnique(f, f.Seconds());
    RendersText(f.Seconds());
  }

  // ----- Order

  lemma DigitOrder(a: nat, b: nat)
    requires a <= 9 && b <= 9
    ensures Before([Digit(a)], [Digit(b)]) <==> a < b
    ensures [Digit(a)] == [Digit(b)] <==> a == b
  {
    assert [Digit(a)][0] == Digit(a) && [Digit(b)][0] == Digit(b);
  }

  lemma TwoOrder(a: nat, b: nat, rest: string, rest': string)
    requires a <= 99 && b <= 99
    ensures Before(Two(a) + rest, Two(b) + rest') <==> a < b || (a == b && Before(rest, rest'))
  {
    DigitOrder(a / 10, b / 10);
    DigitOrder(a % 10, b % 10);
    Concatenation([Digit(a / 10)], [Digit(b / 10)], [Digit(a % 10)], [Digit(b % 10)]);
    assert Two(a) == [Digit(a / 10)] + [Digit(a % 10)] && Two(b) == [Digit(b / 10)] + [Digit(b % 10)];
    hide Before;
    assert Two(a) == Two(b) ==> Two(a)[0] == Two(b)[0] && Two(a)[1] == Two(b)[1];
    Concatenation(Two(a), Two(b), rest, rest');
  }

  predicate EarlierFields(f: Fields, g: Fields) {
    Earlier(f.GetDate(), g.GetDate())
    || (f.GetDate() == g.GetDate()
        && (f.hour < g.hour
            || (f.hour == g.hour && (f.minute < g.minute || (f.minute == g.minute && f.second < g.second)))))
  }

  lemma SeparatorOrder(separator: string, rest: string, rest': string)
    ensures Before(separator + rest, separator + rest') <==> Before(rest, rest')
  {
    Concatenation(separator, separator, rest, rest');
    Irreflexive(separator);
  }

  lemma TextOrder(f: Fields, g: Fields)
    requires f.Valid() && g.Valid()
    ensures Before(Text(f), Text(g)) <==> EarlierFields(f, g)
  {
    assert f.day <= 31 && f.month <= 12 && g.day <= 31 && g.month <= 12;
    hide IsDate;
    var s, s' := Two(f.second) + "Z", Two(g.second) + "Z";
    var m, m' := Two(f.minute) + (":" + s), Two(g.minute) + (":" + s');
    var h, h' := Two(f.hour) + (":" + m), Two(g.hour) + (":" + m');
    var d, d' := Two(f.day) + ("T" + h), Two(g.day) + ("T" + h');
    var n, n' := Two(f.month) + ("-" + d), Two(g.month) + ("-" + d');
    var y, y' := Two(f.year) + ("-" + n), Two(g.year) + ("-" + n');
    Irreflexive("Z");
    TwoOrder(f.second, g.second, "Z", "Z");
    SeparatorOrder(":", s, s');
    TwoOrder(f.minute, g.minute, ":" + s, ":" + s');
    SeparatorOrder(":", m, m');
    TwoOrder(f.hour, g.hour, ":" + m, ":" + m');
    SeparatorOrder("T", h, h');
    TwoOrder(f.day, g.day, "T" + h, "T" + h');
    SeparatorOrder("-", d, d');
    TwoOrder(f.month, g.month, "-" + d, "-" + d');
    SeparatorOrder("-", n, n');
    TwoOrder(f.year, g.year, "-" + n, "-" + n');
    TwoOrder(f.century, g.century, y, y');
  }

  lemma ClockOrder(t: nat, t': nat)
    requires t < t'
    ensures t / 3600 < t' / 3600
         || (t / 3600 == t' / 3600 && (t % 3600 / 60 < t' % 3600 / 60
             || (t % 3600 / 60 == t' % 3600 / 60 && t % 60 < t' % 60)))
  {
    var h, h' := t / 3600, t' / 3600;
    var r, r' := t % 3600, t' % 3600;
    assert t == 3600 * h + r && t' == 3600 * h' + r';
    QuotientIs(t, 60, 60 * h + r / 60);
    QuotientIs(t', 60, 60 * h' + r' / 60);
  }

  lemma ClockDecides(f: Fields, g: Fields, t: nat, t': nat)
    requires f.GetDate() == g.GetDate() && t < t'
    requires f.hour == t / 3600 && f.minute == t % 3600 / 60 && f.second == t % 60
    requires g.hour == t' / 3600 && g.minute == t' % 3600 / 60 && g.second == t' % 60
    ensures EarlierFields(f, g)
  {
    ClockOrder(t, t');
  }

  lemma LaterSecondLaterFields(a: int, b: int)
    requires FourDigitYear(a) && FourDigitYear(b) && a < b
    ensures EarlierFields(FieldsOf(a), FieldsOf(b))
  {
    hide CivilFromDays, DaysFromCivil, Fields.Seconds, Fields.Valid, FourDigitYear;
    FieldsOfSeconds(a);
    FieldsOfSeconds(b);
    if a / SECONDS_PER_DAY < b / SECONDS_PER_DAY {
      LaterDayLaterDate(a / SECONDS_PER_DAY, b / SECONDS_PER_DAY);
    } else {
      ClockDecides(FieldsOf(a), FieldsOf(b), a % SECONDS_PER_DAY, b % SECONDS_PER_DAY);
    }
  }

  /** Sorting the texts sorts the moments. */
  lemma TextOrderIsTimeOrder(a: int, b: int)
    requires FourDigitYear(a) && FourDigitYear(b)
    ensures Before(UnixToIso8601(a), UnixToIso8601(b)) <==> a < b
  {
    hide *;
    RendersText(a);
    RendersText(b);
    TextOrder(FieldsOf(a), FieldsOf(b));
    TextOrder(FieldsOf(b), FieldsOf(a));
    if a < b {
      LaterSecondLaterFields(a, b);
    } else if b < a {
      LaterSecondLaterFields(b, a);
    }
    Exclusive(UnixToIso8601(a), UnixToIso8601(b));
  }

  lemma StartsWithYear(secs: int, year: string)
    requires year == ZeroPadded(CivilFromDays(secs / SECONDS_PER_DAY).year, 4)
    ensures |year| <= |UnixToIso8601(secs)| && UnixToIso8601(secs)[..|year|] == year
  {
    hide CivilFromDays, ZeroPadded;
  }

  lemma SecondCharacterDecides(a: string, b: string)
    requires |a| >= 2 && |b| >= 2 && a[0] == b[0] && a[1] < b[1]
    ensures Before(a, b)
  {
  }

  lemma PaddedTenThousand()
    ensures ZeroPadded(10_000, 4) == "10000"
  {
    assert Decimal(10) == "10";
    assert Decimal(100) == "100";
    assert Decimal(1000) == "1000";
  }

  /** With a five-digit year the order of texts is no longer the order of time. */
  lemma FiveDigitYearSortsFirst()
    ensures FourDigitYear(0) && !FourDigitYear(253_402_300_800)
    ensures Before(UnixToIso8601(253_402_300_800), UnixToIso8601(0))
  {
    hide CivilFromDays, UnixToIso8601, ZeroPadded;
    DayZero();
    TenThousand();
    assert 253_402_300_800 / SECONDS_PER_DAY == 2_932_897;
    PaddedTenThousand();
    PaddedFour(1970);
    StartsWithYear(253_402_300_800, "10000");
    StartsWithYear(0, "1970");
    SecondCharacterDecides(UnixToIso8601(253_402_300_800), UnixToIso8601(0));
  }
}
