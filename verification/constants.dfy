/** Static data: the initial pricing configuration and the holiday table with
    its lookup by calendar day. */
module Constants {
  import opened Calendar
  import opened Types

  /** The initial pricing: 60000 per day, multiplier 1.3, 10 guests included,
      5000 per extra guest and day, no special-price dates. */
  const InitialPricing: PricingRule := PricingRule(60000.0, 1.3, 10, 5000.0, [])

  /** The holiday table, keyed by `YYYY-MM-DD`. It lists 2026 only. */
  const Holidays: seq<(string, string)> := [
    ("2026-01-01", "Año Nuevo"),
    ("2026-02-16", "Carnaval"),
    ("2026-02-17", "Carnaval"),
    ("2026-03-24", "Día de la Memoria"),
    ("2026-04-02", "Malvinas"),
    ("2026-04-03", "Viernes Santo"),
    ("2026-05-01", "Día del Trabajador"),
    ("2026-05-25", "Revolución de Mayo"),
    ("2026-06-20", "Día de la Bandera"),
    ("2026-07-09", "Día de la Independencia"),
    ("2026-12-08", "Inmaculada Concepción"),
    ("2026-12-25", "Navidad")
  ]

  /** The name stored under `key` in a table, looked up as a record lookup. */
  function Lookup(table: seq<(string, string)>, key: string): (r: Option<string>)
    ensures r.Some? <==> exists i :: 0 <= i < |table| && table[i].0 == key
    ensures r.Some? ==> exists i :: 0 <= i < |table| && table[i] == (key, r.value)
  {
    if |table| == 0 then None
    else if table[0].0 == key then Some(table[0].1)
    else Lookup(table[1..], key)
  }

  /** `getHolidayName`: the table entry under the day's key built from its
      year, zero-padded 1-based month and zero-padded day; an empty name reads
      as no holiday. */
  function HolidayName(d: Day): (r: Option<string>)
    ensures r.Some? ==> r.value != "" && exists i :: 0 <= i < |Holidays| && Holidays[i] == (DayKey(d), r.value)
  {
    match Lookup(Holidays, DayKey(d))
    case Some(name) => if name == "" then None else Some(name)
    case None => None
  }

  /** The days of the table's entries, in table order: the key of entry i
      is the key of day i (`HolidayEntry`). */
  const HolidayDays: seq<Day> := [20454, 20500, 20501, 20536, 20545, 20546, 20574, 20598, 20624, 20643, 20795, 20812]

  /** A holiday, as a day of the table. `HolidayNameByDay` shows this is
      exactly when `getHolidayName` finds a name. */
  predicate IsHoliday(d: Day) {
    d in HolidayDays
  }

  /** Every name of the table is non-empty. */
  lemma NamesNonEmpty(i: int)
    requires 0 <= i < |Holidays|
    ensures Holidays[i].1 != ""
  {
  }

  /** Every key of the table has the shape `2026-MM-DD`. */
  lemma HolidayKeysIn2026(i: int)
    requires 0 <= i < |Holidays|
    ensures |Holidays[i].0| == 10 && Holidays[i].0[..4] == "2026" && Holidays[i].0[4] == '-'
  {
  }

  lemma YearString2026()
    ensures YearString(2026) == "2026"
  {
    assert NatToString(2) == "2";
    assert NatToString(20) == "20";
    assert NatToString(202) == "202";
  }

  /** The table holds 2026 dates only: a day of any other year has no holiday. */
  lemma HolidaysOnlyIn2026(d: Day)
    requires HolidayName(d).Some?
    ensures CivilOfDay(d).year == 2026
  {
    var i :| 0 <= i < |Holidays| && Holidays[i] == (DayKey(d), HolidayName(d).value);
    HolidayKeysIn2026(i);
    var c := CivilOfDay(d);
    var y := YearString(c.year);
    DayKeyYearPrefix(d);
    assert y == DayKey(d)[..4];
    YearString2026();
    YearStringInjective(c.year, 2026);
  }

  /** The calendar dates of the table's entries, in table order. */
  const HolidayDates: seq<Civil> := [
    Civil(2026, 1, 1),
    Civil(2026, 2, 16),
    Civil(2026, 2, 17),
    Civil(2026, 3, 24),
    Civil(2026, 4, 2),
    Civil(2026, 4, 3),
    Civil(2026, 5, 1),
    Civil(2026, 5, 25),
    Civil(2026, 6, 20),
    Civil(2026, 7, 9),
    Civil(2026, 12, 8),
    Civil(2026, 12, 25)
  ]

  /** Entry k of the three lists agrees once its day, date and key are known:
      the day falls on the date and the date's key is the table's key. */
  lemma EntryFromFacts(k: int, d: Day, c: Civil, key: string)
    requires 0 <= k < |Holidays| == |HolidayDays| == |HolidayDates|
    requires HolidayDays[k] == d && HolidayDates[k] == c && Holidays[k].0 == key
    requires CivilOfDay(d) == c && DayKey(d) == key
    ensures CivilOfDay(HolidayDays[k]) == HolidayDates[k] && IsoKey(HolidayDates[k]) == Holidays[k].0
  {
  }

  lemma NewYearSplit()
    ensures SplitDay(20454) == MarchDate(5, 25, 306)
  {
  }

  /** Entry 0: day 20454 is 2026-01-01. */
  lemma NewYear()
    ensures CivilOfDay(HolidayDays[0]) == HolidayDates[0] && IsoKey(HolidayDates[0]) == Holidays[0].0
  {
    NewYearSplit();
    YearString2026();
    EntryFromFacts(0, 20454, Civil(2026, 1, 1), "2026-01-01");
  }

  lemma CarnivalMondaySplit()
    ensures SplitDay(20500) == MarchDate(5, 25, 352)
  {
  }

  /** Entry 1: day 20500 is 2026-02-16. */
  lemma CarnivalMonday()
    ensures CivilOfDay(HolidayDays[1]) == HolidayDates[1] && IsoKey(HolidayDates[1]) == Holidays[1].0
  {
    CarnivalMondaySplit();
    YearString2026();
    EntryFromFacts(1, 20500, Civil(2026, 2, 16), "2026-02-16");
  }

  lemma CarnivalTuesdaySplit()
    ensures SplitDay(20501) == MarchDate(5, 25, 353)
  {
  }

  /** Entry 2: day 20501 is 2026-02-17. */
  lemma CarnivalTuesday()
    ensures CivilOfDay(HolidayDays[2]) == HolidayDates[2] && IsoKey(HolidayDates[2]) == Holidays[2].0
  {
    CarnivalTuesdaySplit();
    YearString2026();
    EntryFromFacts(2, 20501, Civil(2026, 2, 17), "2026-02-17");
  }

  lemma MemoryDaySplit()
    ensures SplitDay(20536) == MarchDate(5, 26, 23)
  {
  }

  /** Entry 3: day 20536 is 2026-03-24. */
  lemma MemoryDay()
    ensures CivilOfDay(HolidayDays[3]) == HolidayDates[3] && IsoKey(HolidayDates[3]) == Holidays[3].0
  {
    MemoryDaySplit();
    YearString2026();
    EntryFromFacts(3, 20536, Civil(2026, 3, 24), "2026-03-24");
  }

  lemma MalvinasSplit()
    ensures SplitDay(20545) == MarchDate(5, 26, 32)
  {
  }

  /** Entry 4: day 20545 is 2026-04-02. */
  lemma Malvinas()
    ensures CivilOfDay(HolidayDays[4]) == HolidayDates[4] && IsoKey(HolidayDates[4]) == Holidays[4].0
  {
    MalvinasSplit();
    YearString2026();
    EntryFromFacts(4, 20545, Civil(2026, 4, 2), "2026-04-02");
  }

  lemma GoodFridaySplit()
    ensures SplitDay(20546) == MarchDate(5, 26, 33)
  {
  }

  /** Entry 5: day 20546 is 2026-04-03. */
  lemma GoodFriday()
    ensures CivilOfDay(HolidayDays[5]) == HolidayDates[5] && IsoKey(HolidayDates[5]) == Holidays[5].0
  {
    GoodFridaySplit();
    YearString2026();
    EntryFromFacts(5, 20546, Civil(2026, 4, 3), "2026-04-03");
  }

  lemma LabourDaySplit()
    ensures SplitDay(20574) == MarchDate(5, 26, 61)
  {
  }

  /** Entry 6: day 20574 is 2026-05-01. */
  lemma LabourDay()
    ensures CivilOfDay(HolidayDays[6]) == HolidayDates[6] && IsoKey(HolidayDates[6]) == Holidays[6].0
  {
    LabourDaySplit();
    YearString2026();
    EntryFromFacts(6, 20574, Civil(2026, 5, 1), "2026-05-01");
  }

  lemma MayRevolutionSplit()
    ensures SplitDay(20598) == MarchDate(5, 26, 85)
  {
  }

  /** Entry 7: day 20598 is 2026-05-25. */
  lemma MayRevolution()
    ensures CivilOfDay(HolidayDays[7]) == HolidayDates[7] && IsoKey(HolidayDates[7]) == Holidays[7].0
  {
    MayRevolutionSplit();
    YearString2026();
    EntryFromFacts(7, 20598, Civil(2026, 5, 25), "2026-05-25");
  }

  lemma FlagDaySplit()
    ensures SplitDay(20624) == MarchDate(5, 26, 111)
  {
  }

  /** Entry 8: day 20624 is 2026-06-20. */
  lemma FlagDay()
    ensures CivilOfDay(HolidayDays[8]) == HolidayDates[8] && IsoKey(HolidayDates[8]) == Holidays[8].0
  {
    FlagDaySplit();
    YearString2026();
    EntryFromFacts(8, 20624, Civil(2026, 6, 20), "2026-06-20");
  }

  lemma IndependenceDaySplit()
    ensures SplitDay(20643) == MarchDate(5, 26, 130)
  {
  }

  /** Entry 9: day 20643 is 2026-07-09. */
  lemma IndependenceDay()
    ensures CivilOfDay(HolidayDays[9]) == HolidayDates[9] && IsoKey(HolidayDates[9]) == Holidays[9].0
  {
    IndependenceDaySplit();
    YearString2026();
    EntryFromFacts(9, 20643, Civil(2026, 7, 9), "2026-07-09");
  }

  lemma ImmaculateConceptionSplit()
    ensures SplitDay(20795) == MarchDate(5, 26, 282)
  {
  }

  /** Entry 10: day 20795 is 2026-12-08. */
  lemma ImmaculateConception()
    ensures CivilOfDay(HolidayDays[10]) == HolidayDates[10] && IsoKey(HolidayDates[10]) == Holidays[10].0
  {
    ImmaculateConceptionSplit();
    YearString2026();
    EntryFromFacts(10, 20795, Civil(2026, 12, 8), "2026-12-08");
  }

  lemma ChristmasSplit()
    ensures SplitDay(20812) == MarchDate(5, 26, 299)
  {
  }

  /** Entry 11: day 20812 is 2026-12-25. */
  lemma Christmas()
    ensures CivilOfDay(HolidayDays[11]) == HolidayDates[11] && IsoKey(HolidayDates[11]) == Holidays[11].0
  {
    ChristmasSplit();
    YearString2026();
    EntryFromFacts(11, 20812, Civil(2026, 12, 25), "2026-12-25");
  }

  /** Day i of the list falls on date i, and the key of date i is the key of
      entry i of the table. */
  lemma HolidayEntry(i: int)
    requires 0 <= i < |Holidays|
    ensures |HolidayDays| == |HolidayDates| == |Holidays|
    ensures CivilOfDay(HolidayDays[i]) == HolidayDates[i] && IsoKey(HolidayDates[i]) == Holidays[i].0
  {
    if i == 0 { NewYear(); }
    else if i == 1 { CarnivalMonday(); }
    else if i == 2 { CarnivalTuesday(); }
    else if i == 3 { MemoryDay(); }
    else if i == 4 { Malvinas(); }
    else if i == 5 { GoodFriday(); }
    else if i == 6 { LabourDay(); }
    else if i == 7 { MayRevolution(); }
    else if i == 8 { FlagDay(); }
    else if i == 9 { IndependenceDay(); }
    else if i == 10 { ImmaculateConception(); }
    else { Christmas(); }
  }

  /** `getHolidayName` finds a name for a day exactly when the day is one of
      the listed holiday days. */
  lemma HolidayNameByDay(d: Day)
    ensures HolidayName(d).Some? <==> IsHoliday(d)
  {
    var key := DayKey(d);
    if HolidayName(d).Some? {
      var i :| 0 <= i < |Holidays| && Holidays[i] == (key, HolidayName(d).value);
      HolidayEntry(i);
      IsoKeyInjective(HolidayDates[i], CivilOfDay(d));
      CivilOfDayInjective(d, HolidayDays[i]);
    }
    if IsHoliday(d) {
      var i :| 0 <= i < |HolidayDays| && HolidayDays[i] == d;
      HolidayEntry(i);
      assert Holidays[i].0 == key;
      var name := Lookup(Holidays, key);
      var j :| 0 <= j < |Holidays| && Holidays[j] == (key, name.value);
      NamesNonEmpty(j);
    }
  }
}
