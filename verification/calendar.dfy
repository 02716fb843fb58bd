/** Whole-day calendar arithmetic shared by the booking calendar: day numbers,
    weekdays, proleptic Gregorian civil dates and the `YYYY-MM-DD` keys under
    which holidays, special-price dates and blocked dates are stored. */
module Calendar {

  /** A calendar day, counted from 1970-01-01 (day 0). Comparisons between
      days are whole-day comparisons. */
  type Day = int

  /** A civil date: year, 1-based month, day of month. */
  datatype Civil = Civil(year: int, month: int, day: int)

  /** The field bounds of a civil date: month 1 to 12, day 1 to 31. It does
      not check the month's length (it accepts 31 February); it is only the
      range premise under which `IsoKey` keeps keys apart. Dates produced by
      `CivilOfDay` are real calendar dates by the round trip. */
  predicate ValidCivil(c: Civil) {
    1 <= c.month <= 12 && 1 <= c.day <= 31
  }

  /** Day of the week as returned by `getDay()`: 0 is Sunday, 6 is Saturday.
      Day 0 (1970-01-01) was a Thursday. */
  function Weekday(d: Day): (w: int)
    ensures 0 <= w < 7
  {
    (d + 4) % 7
  }

  /** Day number of a civil date (days from civil, 400-year era decomposition). */
  function DaysFromCivil(c: Civil): Day {
    var y := if c.month <= 2 then c.year - 1 else c.year;
    var era := y / 400;
    var yoe := y - era * 400;
    var mp := if c.month > 2 then c.month - 3 else c.month + 9;
    var doy := (153 * mp + 2) / 5 + c.day - 1;
    var doe := yoe * 365 + yoe / 4 - yoe / 100 + doy;
    era * 146097 + doe - 719468
  }

  /** A day number split into its 400-year era, the year of the era and the
      day of that year, years being counted from March so that the leap day
      closes each year. An era is 146097 days, a century 36524 (the last one a
      day longer), a four-year cycle 1461 (the last one of a century a day
      shorter). */
  datatype MarchDate = MarchDate(era: int, yoe: int, doy: int)

  function SplitDay(d: Day): (m: MarchDate)
    ensures 0 <= m.yoe <= 399 && 0 <= m.doy <= 365
    ensures m.era * 146097 + m.yoe * 365 + m.yoe / 4 - m.yoe / 100 + m.doy == d + 719468
  {
    var z := d + 719468;
    var era := z / 146097;
    var doe := z % 146097;
    var c := if doe / 36524 < 3 then doe / 36524 else 3;
    var doc := doe - 36524 * c;
    var q := doc / 1461;
    var doq := doc % 1461;
    var yy := if doq / 365 < 3 then doq / 365 else 3;
    var yoe := 100 * c + 4 * q + yy;
    assert 0 <= q <= 24;
    assert yoe / 4 == 25 * c + q;
    assert yoe / 100 == c;
    MarchDate(era, yoe, doq - 365 * yy)
  }

  /** Month of a March-based day of year: 0 is March, 11 is February. */
  function MonthOfYearDay(doy: int): (mp: int)
    requires 0 <= doy <= 365
    ensures 0 <= mp <= 11
    ensures 0 <= doy - (153 * mp + 2) / 5 <= 30
  {
    (5 * doy + 2) / 153
  }

  /** Civil date of a March-based date: months from March on belong to the
      year the era and year of era name, January and February to the next. */
  function CivilOfMarchDate(m: MarchDate): (c: Civil)
    requires 0 <= m.doy <= 365
    ensures ValidCivil(c)
  {
    var mp := MonthOfYearDay(m.doy);
    var month := if mp < 10 then mp + 3 else mp - 9;
    Civil(m.yoe + 400 * m.era + (if month <= 2 then 1 else 0), month, m.doy - (153 * mp + 2) / 5 + 1)
  }

  /** Civil date of a day number. */
  function CivilOfDay(d: Day): (c: Civil)
    ensures ValidCivil(c)
  {
    CivilOfMarchDate(SplitDay(d))
  }

  /** CivilOfDay is a right inverse of DaysFromCivil: converting a day to its
      civil date and back yields the same day. */
  lemma CivilRoundTrip(d: Day)
    ensures DaysFromCivil(CivilOfDay(d)) == d
  {
    var m := SplitDay(d);
    var mp := MonthOfYearDay(m.doy);
    var c := CivilOfDay(d);
    var y := if c.month <= 2 then c.year - 1 else c.year;
    assert y == m.yoe + 400 * m.era;
    assert y / 400 == m.era;
    assert y - (y / 400) * 400 == m.yoe;
    var mp' := if c.month > 2 then c.month - 3 else c.month + 9;
    assert mp' == mp;
    assert (153 * mp' + 2) / 5 + c.day - 1 == m.doy;
  }

  /** Two days with the same civil date are the same day. */
  lemma CivilOfDayInjective(a: Day, b: Day)
    requires CivilOfDay(a) == CivilOfDay(b)
    ensures a == b
  {
    CivilRoundTrip(a);
    CivilRoundTrip(b);
  }

  // ---------------------------------------------------------------------------
  // Decimal rendering, as JavaScript's String(n) and padStart(2, '0')
  // ---------------------------------------------------------------------------

  function Digit(k: int): (ch: char)
    requires 0 <= k < 10
    ensures '0' <= ch <= '9'
  {
    (48 + k) as char
  }

  predicate IsDigitString(s: string) {
    forall i :: 0 <= i < |s| ==> '0' <= s[i] <= '9'
  }

  /** Decimal digits of n, most significant first, without leading zeros. */
  function NatToString(n: nat): (s: string)
    ensures |s| >= 1 && IsDigitString(s)
    ensures n >= 10 ==> s[0] != '0'
  {
    if n < 10 then [Digit(n)] else NatToString(n / 10) + [Digit(n % 10)]
  }

  /** `${y}` for a year: a minus sign in front of negative years. */
  function YearString(y: int): string {
    if y < 0 then "-" + NatToString(-y) else NatToString(y)
  }

  /** `String(n).padStart(2, '0')`. */
  function Pad2(n: nat): string {
    if n < 10 then "0" + NatToString(n) else NatToString(n)
  }

  /** The `YYYY-MM-DD` key built from a civil date's year, month and day. */
  function IsoKey(c: Civil): string
    requires ValidCivil(c)
  {
    YearString(c.year) + "-" + Pad2(c.month) + "-" + Pad2(c.day)
  }

  /** The key of a calendar day. */
  function DayKey(d: Day): string {
    IsoKey(CivilOfDay(d))
  }

  lemma {:induction false} NatToStringInjective(a: nat, b: nat)
    requires NatToString(a) == NatToString(b)
    ensures a == b
    decreases a
  {
    var s := NatToString(a);
    if a < 10 && b < 10 {
    } else if a >= 10 && b >= 10 {
      var sa := NatToString(a / 10);
      var sb := NatToString(b / 10);
      assert s == sa + [Digit(a % 10)] == sb + [Digit(b % 10)];
      assert |sa| == |sb|;
      assert sa == s[..|s| - 1] == sb;
      NatToStringInjective(a / 10, b / 10);
      assert Digit(a % 10) == s[|s| - 1] == Digit(b % 10);
    }
  }

  /** The years 1000..9999 render with four characters. */
  lemma NatToStringFourDigits(n: nat)
    requires 1000 <= n <= 9999
    ensures |NatToString(n)| == 4
  {
    assert |NatToString(n / 1000)| == 1;
    assert |NatToString(n / 100)| == 2;
    assert |NatToString(n / 10)| == 3;
  }

  lemma Pad2TwoDigits(n: nat)
    requires n < 100
    ensures Pad2(n) == [Digit(n / 10), Digit(n % 10)]
  {
    if n >= 10 {
      assert NatToString(n) == NatToString(n / 10) + [Digit(n % 10)];
    }
  }

  lemma Pad2Injective(a: nat, b: nat)
    requires a < 100 && b < 100 && Pad2(a) == Pad2(b)
    ensures a == b
  {
    Pad2TwoDigits(a);
    Pad2TwoDigits(b);
    assert Digit(a / 10) == Pad2(a)[0] == Digit(b / 10);
    assert Digit(a % 10) == Pad2(a)[1] == Digit(b % 10);
  }

  lemma YearStringInjective(a: int, b: int)
    requires YearString(a) == YearString(b)
    ensures a == b
  {
    if a < 0 && b < 0 {
      assert NatToString(-a) == YearString(a)[1..] == NatToString(-b);
      NatToStringInjective(-a, -b);
    } else if a >= 0 && b >= 0 {
      NatToStringInjective(a, b);
    }
  }

  /** A key for a four-digit year is always 10 characters long. */
  lemma IsoKeyLength(c: Civil)
    requires ValidCivil(c) && 1000 <= c.year <= 9999
    ensures |IsoKey(c)| == 10
  {
    NatToStringFourDigits(c.year);
    Pad2TwoDigits(c.month);
    Pad2TwoDigits(c.day);
  }

  /** Different civil dates have different keys. */
  lemma IsoKeyInjective(c1: Civil, c2: Civil)
    requires ValidCivil(c1) && ValidCivil(c2) && IsoKey(c1) == IsoKey(c2)
    ensures c1 == c2
  {
    var k := IsoKey(c1);
    Pad2TwoDigits(c1.month);
    Pad2TwoDigits(c1.day);
    Pad2TwoDigits(c2.month);
    Pad2TwoDigits(c2.day);
    var y1 := YearString(c1.year);
    var y2 := YearString(c2.year);
    assert |k| == |y1| + 6 == |y2| + 6;
    assert y1 == k[..|y1|] == y2;
    YearStringInjective(c1.year, c2.year);
    assert Pad2(c1.month) == k[|y1| + 1..|y1| + 3] == Pad2(c2.month);
    assert Pad2(c1.day) == k[|y1| + 4..] == Pad2(c2.day);
    Pad2Injective(c1.month, c2.month);
    Pad2Injective(c1.day, c2.day);
  }

  /** Comparing day keys is comparing days: the key of a day determines it. */
  lemma DayKeyInjective(a: Day, b: Day)
    requires DayKey(a) == DayKey(b)
    ensures a == b
  {
    IsoKeyInjective(CivilOfDay(a), CivilOfDay(b));
    CivilOfDayInjective(a, b);
  }

  /** A day's key is its year's rendering, a dash, and five more characters. */
  lemma DayKeyYearPrefix(d: Day)
    ensures var y := YearString(CivilOfDay(d).year);
      |DayKey(d)| == |y| + 6 && DayKey(d)[..|y|] == y && DayKey(d)[|y|] == '-'
  {
    var c := CivilOfDay(d);
    Pad2TwoDigits(c.month);
    Pad2TwoDigits(c.day);
  }
}
