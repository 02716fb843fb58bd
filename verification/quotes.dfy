/** Worked quotes under the initial pricing (60000 per day, multiplier 1.3,
    10 guests included, 5000 per extra guest and day): a Saturday, three plain
    weekdays, and Good Friday 2026, a holiday on a Friday. */
module Quotes {
  import opened Calendar
  import opened Types
  import opened Constants
  import opened Pricing

  // ---------------------------------------------------------------------
  // The dates involved

  /** 2026-01-03, a Saturday. */
  lemma January3()
    ensures CivilOfDay(20456) == Civil(2026, 1, 3) && Weekday(20456) == 6
  {
    assert SplitDay(20456) == MarchDate(5, 25, 308);
  }

  /** A Monday to Thursday that is no holiday, under a pricing without
      special dates, is charged the plain rate. */
  lemma PlainDay(rules: PricingRule, d: Day)
    requires rules.specialPriceDates == [] && 1 <= Weekday(d) <= 4 && !IsHoliday(d)
    ensures !IsPremiumDay(rules, d)
  {
  }

  /** 2026-01-05, a Monday. */
  lemma January5()
    ensures CivilOfDay(20458) == Civil(2026, 1, 5) && Weekday(20458) == 1
  {
    assert SplitDay(20458) == MarchDate(5, 25, 310);
  }

  /** 2026-01-06, a Tuesday. */
  lemma January6()
    ensures CivilOfDay(20459) == Civil(2026, 1, 6) && Weekday(20459) == 2
  {
    assert SplitDay(20459) == MarchDate(5, 25, 311);
  }

  /** 2026-01-07, a Wednesday. */
  lemma January7()
    ensures CivilOfDay(20460) == Civil(2026, 1, 7) && Weekday(20460) == 3
  {
    assert SplitDay(20460) == MarchDate(5, 25, 312);
  }

  /** 2026-04-03, Good Friday: a Friday, and a day of the holiday table. */
  lemma GoodFriday2026()
    ensures CivilOfDay(20546) == Civil(2026, 4, 3) && Weekday(20546) == 5
    ensures IsHoliday(20546) && DayKey(20546) == Holidays[5].0
  {
    GoodFriday();
  }

  // ---------------------------------------------------------------------
  // The quotes

  lemma January5To7Plain()
    ensures !IsPremiumDay(InitialPricing, 20458)
    ensures !IsPremiumDay(InitialPricing, 20459)
    ensures !IsPremiumDay(InitialPricing, 20460)
  {
    PlainDay(InitialPricing, 20458);
    PlainDay(InitialPricing, 20459);
    PlainDay(InitialPricing, 20460);
  }

  /** Counting the premium days of one more day adds that day's flag. */
  lemma CountPremiumStep(rules: PricingRule, start: Day, n: nat)
    ensures CountPremium(PremiumMask(rules, start, n + 1))
         == CountPremium(PremiumMask(rules, start, n)) + (if IsPremiumDay(rules, start + n) then 1 else 0)
  {
    var mask := PremiumMask(rules, start, n + 1);
    PremiumMaskPrefix(rules, start, n);
    assert mask[n] == IsPremiumDay(rules, start + n);
  }

  /** None of the three weekdays is a premium day. */
  lemma January5To7Count()
    ensures CountPremium(PremiumMask(InitialPricing, 20458, 3)) == 0
  {
    January5To7Plain();
    CountPremiumStep(InitialPricing, 20458, 0);
    CountPremiumStep(InitialPricing, 20458, 1);
    CountPremiumStep(InitialPricing, 20458, 2);
  }

  /** One Saturday for 10 guests: the Saturday is multiplied once and 10
      guests, exactly the threshold, add nothing: 78000. */
  lemma SaturdayForTen()
    ensures QuoteSpec(InitialPricing, 20456, 20456, 10) == 78000
  {
    January3();
    var mask := PremiumMask(InitialPricing, 20456, 1);
    assert mask[0] == IsPremiumDay(InitialPricing, 20456);
    assert mask == [true];
    assert CountPremium(mask) == CountPremium([]) + 1;
    assert BaseSpec(InitialPricing, mask) == 78000.0;
  }

  /** Monday to Wednesday for 12 guests: three days at 60000 plus two extra
      guests at 5000 for each of the three days: 180000 + 30000 = 210000. */
  lemma ThreeWeekdaysForTwelve()
    ensures QuoteSpec(InitialPricing, 20458, 20460, 12) == 210000
  {
    January5To7Count();
    assert BaseSpec(InitialPricing, PremiumMask(InitialPricing, 20458, 3)) == 180000.0;
    assert Surcharge(InitialPricing, 12, 3) == 30000.0;
  }

  /** Good Friday meets two premium conditions, weekend and holiday, and is
      still charged the multiplied rate once: 78000, not 60000 × 1.3 × 1.3. */
  lemma GoodFridayMultipliedOnce()
    ensures IsWeekend(20546) && IsHoliday(20546)
    ensures DayRate(InitialPricing, 20546) == 78000.0
    ensures DayRate(InitialPricing, 20546) != 60000.0 * 1.3 * 1.3
  {
    GoodFriday2026();
  }
}
