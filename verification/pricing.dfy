/** The pricing rule shared by the booking form and the administrator's
    manual booking: which days are charged at the multiplied rate, the
    extra-guest surcharge, rounding, and the closed form of a quote. */
module Pricing {
  import opened Calendar
  import opened Types
  import opened Constants

  /** The bounds the administrator's pricing editor keeps. */
  predicate ValidPricing(rules: PricingRule) {
    && rules.dailyPrice >= 0.0
    && rules.weekendMultiplier >= 1.0
    && rules.guestThreshold >= 1
    && rules.extraGuestPrice >= 0.0
  }

  /** Friday, Saturday or Sunday (`getDay()` 5, 6 or 0). */
  predicate IsWeekend(d: Day) {
    var w := Weekday(d);
    w == 0 || w == 5 || w == 6
  }

  /** The day's key is one of the special-price dates. */
  predicate IsSpecial(rules: PricingRule, d: Day) {
    exists i :: 0 <= i < |rules.specialPriceDates| && rules.specialPriceDates[i] == DayKey(d)
  }

  /** A day charged at the multiplied rate: weekend, special-price date or holiday. */
  predicate IsPremiumDay(rules: PricingRule, d: Day) {
    IsWeekend(d) || IsSpecial(rules, d) || IsHoliday(d)
  }

  /** The rate of a day: the daily price, multiplied once when the day is a
      premium day, however many of the premium conditions hold. */
  function RateFor(rules: PricingRule, premium: bool): real {
    if premium then rules.dailyPrice * rules.weekendMultiplier else rules.dailyPrice
  }

  function DayRate(rules: PricingRule, d: Day): real {
    RateFor(rules, IsPremiumDay(rules, d))
  }

  /** Which of the n days from `start` on are premium days. */
  function PremiumMask(rules: PricingRule, start: Day, n: nat): (mask: seq<bool>)
    ensures |mask| == n
  {
    seq(n, i => IsPremiumDay(rules, start + i))
  }

  /** The number of premium days flagged in a mask. */
  function CountPremium(mask: seq<bool>): (k: nat)
    ensures k <= |mask|
  {
    if |mask| == 0 then 0
    else CountPremium(mask[..|mask| - 1]) + (if mask[|mask| - 1] then 1 else 0)
  }

  /** Days priced for a selection: the whole-day distance between the ends
      plus one. Both ends are included; a one-day stay counts one day. */
  function DayCount(start: Day, end: Day): (n: nat)
    ensures n >= 1
    ensures start <= end ==> n == end - start + 1
  {
    (if end >= start then end - start else start - end) + 1
  }

  /** The sum of the day rates of the days of a mask, in closed form: every
      day at the daily price, plus (multiplier - 1) times the daily price for
      each premium day. */
  function BaseSpec(rules: PricingRule, mask: seq<bool>): real {
    rules.dailyPrice * |mask| as real
      + rules.dailyPrice * (rules.weekendMultiplier - 1.0) * CountPremium(mask) as real
  }

  /** Extra-guest surcharge for a stay of n days: each guest above the
      threshold pays the extra price for every day. */
  function Surcharge(rules: PricingRule, guests: int, n: nat): (s: real)
    ensures guests <= rules.guestThreshold ==> s == 0.0
    ensures guests > rules.guestThreshold && rules.extraGuestPrice >= 0.0 ==> s >= 0.0
    ensures guests > rules.guestThreshold && rules.extraGuestPrice > 0.0 && n > 0 ==> s > 0.0
  {
    if guests > rules.guestThreshold then
      (guests - rules.guestThreshold) as real * rules.extraGuestPrice * n as real
    else 0.0
  }

  /** `Math.round`: the nearest integer, halves rounded up. */
  function Round(x: real): (r: int)
    ensures r as real - 0.5 <= x < r as real + 0.5
  {
    (x + 0.5).Floor
  }

  /** The quote of a selection from `start` to `end` for `guests` guests. */
  function QuoteSpec(rules: PricingRule, start: Day, end: Day, guests: int): int {
    var n := DayCount(start, end);
    Round(BaseSpec(rules, PremiumMask(rules, start, n)) + Surcharge(rules, guests, n))
  }

  lemma RoundMonotone(x: real, y: real)
    requires x <= y
    ensures Round(x) <= Round(y)
  {
  }

  lemma ProductMonotone(a: real, b: real, c: real)
    requires a <= b && c >= 0.0
    ensures a * c <= b * c
  {
    assert b * c - a * c == (b - a) * c;
  }

  /** One more day adds its rate to the closed form (pure real arithmetic). */
  lemma ClosedFormStep(p: real, m: real, n: real, k: real, n0: real, k0: real, premium: bool)
    requires n == n0 + 1.0 && k == k0 + (if premium then 1.0 else 0.0)
    ensures p * n + p * (m - 1.0) * k == p * n0 + p * (m - 1.0) * k0 + (if premium then p * m else p)
  {
    assert p * n == p * n0 + p;
    if premium {
      assert p * (m - 1.0) * k == p * (m - 1.0) * k0 + p * (m - 1.0);
      assert p * (m - 1.0) == p * m - p;
    }
  }

  /** Adding a day to a stay adds that day's rate to the closed form: each
      day is charged the daily price or the multiplied price, the latter
      exactly on premium days, and a day meeting several premium conditions is
      still multiplied only once. */
  lemma {:induction false} BaseSpecStep(rules: PricingRule, mask: seq<bool>)
    requires |mask| > 0
    ensures BaseSpec(rules, mask) == BaseSpec(rules, mask[..|mask| - 1]) + RateFor(rules, mask[|mask| - 1])
  {
    var premium := mask[|mask| - 1];
    var prefix := mask[..|mask| - 1];
    ClosedFormStep(rules.dailyPrice, rules.weekendMultiplier, |mask| as real, CountPremium(mask) as real,
                   |prefix| as real, CountPremium(prefix) as real, premium);
  }

  /** The mask of a longer stay extends the mask of a shorter one. */
  lemma PremiumMaskPrefix(rules: PricingRule, start: Day, n: nat)
    ensures PremiumMask(rules, start, n + 1)[..n] == PremiumMask(rules, start, n)
  {
  }

  /** The closed form over n days is the closed form over the first n - 1
      days plus the rate of the last day. */
  lemma BaseSpecExtend(rules: PricingRule, start: Day, n: nat)
    requires n > 0
    ensures BaseSpec(rules, PremiumMask(rules, start, n))
         == BaseSpec(rules, PremiumMask(rules, start, n - 1)) + DayRate(rules, start + (n - 1))
  {
    var mask := PremiumMask(rules, start, n);
    PremiumMaskPrefix(rules, start, n - 1);
    assert mask[n - 1] == IsPremiumDay(rules, start + (n - 1));
    BaseSpecStep(rules, mask);
  }

  /** The sum of the day rates of the n days from `start` on, added day by
      day as the price loops do. */
  function BaseTotal(rules: PricingRule, start: Day, n: nat): real {
    if n == 0 then 0.0 else BaseTotal(rules, start, n - 1) + DayRate(rules, start + (n - 1))
  }

  /** The day-by-day sum equals the closed form. */
  lemma {:induction false} BaseTotalClosedForm(rules: PricingRule, start: Day, n: nat)
    ensures BaseTotal(rules, start, n) == BaseSpec(rules, PremiumMask(rules, start, n))
  {
    if n > 0 {
      BaseTotalClosedForm(rules, start, n - 1);
      BaseSpecExtend(rules, start, n);
    }
  }

  /** One more day adds its rate to the day-by-day sum. */
  lemma AddDayRate(rules: PricingRule, start: Day, n: nat, total: real, rate: real)
    requires total == BaseTotal(rules, start, n) && rate == DayRate(rules, start + n)
    ensures total + rate == BaseTotal(rules, start, n + 1)
  {
  }

  /** The quote is the rounded day-by-day sum plus the surcharge. */
  lemma QuoteFromTotal(rules: PricingRule, start: Day, end: Day, guests: int)
    ensures QuoteSpec(rules, start, end, guests)
         == Round(BaseTotal(rules, start, DayCount(start, end)) + Surcharge(rules, guests, DayCount(start, end)))
  {
    BaseTotalClosedForm(rules, start, DayCount(start, end));
  }

  /** Whether the price loops multiply a day: a Friday, Saturday or Sunday
      (`getDay()` 5, 6 or 0), a special-price date or a holiday. */
  method IsMultiplied(rules: PricingRule, currentDay: Day) returns (multiplied: bool)
    ensures multiplied == IsPremiumDay(rules, currentDay)
  {
    var dayOfWeek := Weekday(currentDay);
    var iso := DayKey(currentDay);
    var isWeekend := dayOfWeek == 0 || dayOfWeek == 5 || dayOfWeek == 6;
    var isSpecial := iso in rules.specialPriceDates;
    var isHoliday := HolidayName(currentDay).Some?;
    HolidayNameByDay(currentDay);
    multiplied := isWeekend || isSpecial || isHoliday;
  }

  /** The rate of one day as the price loops compute it: the daily price,
      multiplied once when the day is a premium day. */
  method DailyRate(rules: PricingRule, currentDay: Day) returns (dailyRate: real)
    ensures dailyRate == DayRate(rules, currentDay)
  {
    var multiplied := IsMultiplied(rules, currentDay);
    dailyRate := rules.dailyPrice;
    if multiplied {
      dailyRate := dailyRate * rules.weekendMultiplier;
    }
  }

  /** One round of the price loop: the rate of day `start + n` added to the
      sum of the days before it. */
  method AddDailyRate(rules: PricingRule, start: Day, n: nat, total: real) returns (total': real)
    requires total == BaseTotal(rules, start, n)
    ensures total' == BaseTotal(rules, start, n + 1)
  {
    var dailyRate := DailyRate(rules, start + n);
    AddDayRate(rules, start, n, total, dailyRate);
    total' := total + dailyRate;
  }

  /** The price loop: the rates of `diffDays` days from `start` on, added
      day by day, come to the closed form: every day at the daily price plus
      (multiplier - 1) times the daily price for each premium day. */
  method SumDailyRates(rules: PricingRule, start: Day, diffDays: nat) returns (totalBase: real)
    ensures totalBase == BaseSpec(rules, PremiumMask(rules, start, diffDays))
  {
    totalBase := 0.0;
    var i := 0;
    while i < diffDays
      invariant 0 <= i <= diffDays
      invariant totalBase == BaseTotal(rules, start, i)
    {
      totalBase := AddDailyRate(rules, start, i, totalBase);
      i := i + 1;
    }
    BaseTotalClosedForm(rules, start, diffDays);
  }

  /** With valid pricing a stay costs between the plain and the fully
      multiplied daily price for each day. */
  lemma BaseSpecBounds(rules: PricingRule, mask: seq<bool>)
    requires ValidPricing(rules)
    ensures rules.dailyPrice * |mask| as real <= BaseSpec(rules, mask)
    ensures BaseSpec(rules, mask) <= rules.dailyPrice * rules.weekendMultiplier * |mask| as real
  {
    var p := rules.dailyPrice;
    var m := rules.weekendMultiplier;
    var n := |mask| as real;
    var k := CountPremium(mask) as real;
    var extra := p * (m - 1.0);
    assert extra >= 0.0 by { ProductMonotone(0.0, p, m - 1.0); }
    ProductMonotone(0.0, k, extra);
    ProductMonotone(k, n, extra);
    assert extra * k == p * (m - 1.0) * k;
    assert p * m * n == p * n + extra * n;
  }

  /** More guests never make a stay cheaper (with a non-negative extra price);
      a guest count at or below the threshold adds nothing. */
  lemma QuoteMonotoneInGuests(rules: PricingRule, start: Day, end: Day, g1: int, g2: int)
    requires rules.extraGuestPrice >= 0.0 && g1 <= g2
    ensures QuoteSpec(rules, start, end, g1) <= QuoteSpec(rules, start, end, g2)
  {
    var n := DayCount(start, end);
    var t := rules.guestThreshold;
    var e := rules.extraGuestPrice;
    if g1 > t {
      assert e * n as real >= 0.0 by { ProductMonotone(0.0, e, n as real); }
      ProductMonotone((g1 - t) as real, (g2 - t) as real, e * n as real);
      assert Surcharge(rules, g1, n) == (g1 - t) as real * (e * n as real);
      assert Surcharge(rules, g2, n) == (g2 - t) as real * (e * n as real);
    }
    assert Surcharge(rules, g1, n) <= Surcharge(rules, g2, n);
    var base := BaseSpec(rules, PremiumMask(rules, start, n));
    RoundMonotone(base + Surcharge(rules, g1, n), base + Surcharge(rules, g2, n));
  }

  /** With valid pricing, a mask one day longer, with the surcharge of one
      more day, costs at least as much (pure arithmetic on masks). */
  lemma LongerMaskCostsMore(rules: PricingRule, mask: seq<bool>, guests: int)
    requires ValidPricing(rules) && |mask| > 0
    ensures var n := |mask| - 1;
      BaseSpec(rules, mask[..n]) + Surcharge(rules, guests, n) <= BaseSpec(rules, mask) + Surcharge(rules, guests, n + 1)
  {
    var n := |mask| - 1;
    BaseSpecStep(rules, mask);
    assert RateFor(rules, mask[n]) >= 0.0 by {
      ProductMonotone(0.0, rules.dailyPrice, rules.weekendMultiplier);
    }
    if guests > rules.guestThreshold {
      var x := (guests - rules.guestThreshold) as real * rules.extraGuestPrice;
      assert x >= 0.0 by {
        ProductMonotone(0.0, (guests - rules.guestThreshold) as real, rules.extraGuestPrice);
      }
      assert x * (n + 1) as real == x * n as real + x;
    }
  }

  /** With valid pricing, one more day never makes a stay cheaper. */
  lemma QuoteMonotoneInLength(rules: PricingRule, start: Day, end: Day, guests: int)
    requires ValidPricing(rules) && start <= end
    ensures QuoteSpec(rules, start, end, guests) <= QuoteSpec(rules, start, end + 1, guests)
  {
    var n := DayCount(start, end);
    assert DayCount(start, end + 1) == n + 1;
    var mask := PremiumMask(rules, start, n);
    var mask' := PremiumMask(rules, start, n + 1);
    PremiumMaskPrefix(rules, start, n);
    LongerMaskCostsMore(rules, mask', guests);
    RoundMonotone(BaseSpec(rules, mask) + Surcharge(rules, guests, n),
                  BaseSpec(rules, mask') + Surcharge(rules, guests, n + 1));
  }
}
