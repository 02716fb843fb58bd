/** The public booking form: the price estimate of the selected range, the
    request it submits and its advisory capacity warning. */
module BookingForm {
  import opened Calendar
  import opened Types
  import opened Constants
  import opened Pricing
  import opened Store

  /** The form's fields; a fresh form holds one guest and empty text. */
  datatype FormData = FormData(name: string, email: string, phone: string, guests: int, message: string)

  /** `calculate`: with no range the estimate stays `current`; otherwise every
      day from the start on, as many days as the range spans, is charged its
      rate, the extra-guest surcharge is added when the guests exceed the
      threshold, and the total is rounded. */
  method Calculate(range: Option<DateRange>, rules: PricingRule, guests: int, current: int)
    returns (price: int)
    ensures range.None? ==> price == current
    ensures range.Some? ==> price == QuoteSpec(rules, range.value.start, range.value.end, guests)
  {
    if range.None? {
      return current;
    }
    var start := range.value.start;
    var end := range.value.end;
    var diffDays := DayCount(start, end);
    var totalBase := SumDailyRates(rules, start, diffDays);
    var extra := Surcharge(rules, guests, diffDays);
    QuoteFromTotal(rules, start, end, guests);
    price := Round(totalBase + extra);
  }

  /** The request `handleSubmit` hands to booking creation: the form's guest
      data, the range's ends, the estimate as the total price and the message;
      no status, payment status, deposit or manual flag. */
  function SubmittedDraft(range: DateRange, form: FormData, estimatedPrice: int): (draft: BookingDraft)
    ensures draft.status.None? && draft.paymentStatus.None? && draft.depositAmount.None? && draft.isManual.None?
    ensures draft.totalPrice == estimatedPrice as real
    ensures draft.startDate == range.start && draft.endDate == range.end
  {
    BookingDraft(form.name, form.email, form.phone, form.guests, range.start, range.end,
                 estimatedPrice as real, None, None, None, Some(form.message), None)
  }

  /** `handleSubmit`: nothing without a range; otherwise one booking request
      is stored, Pending with payment Pending and deposit 0, priced at the
      estimate. */
  function HandleSubmit(range: Option<DateRange>, form: FormData, estimatedPrice: int,
                        stored: seq<Booking>, id: string, createdAt: string): (r: seq<Booking>)
    ensures range.None? ==> r == stored
    ensures range.Some? ==> |r| == |stored| + 1 && r[..|stored|] == GetBookings(stored)
    ensures range.Some? ==>
      var b := r[|stored|];
      && b.status == Pending && b.paymentStatus == Some(PaymentPending) && b.depositAmount == Some(0.0)
      && b.totalPrice == estimatedPrice as real && b.guestCount == form.guests
      && b.startDate == range.value.start && b.endDate == range.value.end
      && b.guestName == form.name && b.id == id && b.isManual.None?
  {
    match range
    case None => stored
    case Some(rg) => CreateBooking(stored, SubmittedDraft(rg, form, estimatedPrice), id, createdAt)
  }

  /** The warning shown when the guests exceed the recommended capacity. */
  predicate CapacityWarning(form: FormData, maxCap: int) {
    form.guests > maxCap
  }

  /** The capacity warning is advisory: a request over capacity is stored
      all the same, with its guest count as entered. */
  lemma OverCapacityStillSubmitted(range: DateRange, form: FormData, maxCap: int, estimatedPrice: int,
                                   stored: seq<Booking>, id: string, createdAt: string)
    requires CapacityWarning(form, maxCap)
    ensures var r := HandleSubmit(Some(range), form, estimatedPrice, stored, id, createdAt);
      |r| == |stored| + 1 && r[|stored|].guestCount > maxCap
  {
  }
}
