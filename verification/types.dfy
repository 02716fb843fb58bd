/** The records and enumerations of the booking calendar. Dates that the
    application stores as ISO timestamps are whole days here; dates it stores
    as `YYYY-MM-DD` strings (special-price dates, blocked dates) stay strings. */
module Types {
  import opened Calendar

  /** An optional value; `None` stands for a missing (undefined or null) field. */
  datatype Option<T> = None | Some(value: T) {
    function GetOr(default: T): (r: T)
      ensures Some? ==> r == value
      ensures None? ==> r == default
    {
      match this
      case Some(v) => v
      case None => default
    }
  }

  /** The four booking states ('Pendiente', 'Aprobada', 'Rechazada', 'Cancelada'). */
  datatype BookingStatus = Pending | Approved | Rejected | Cancelled

  /** The payment label ('Pendiente', 'Seña', 'Pagado Total'), a field of its
      own, independent of the booking status. */
  datatype PaymentStatus = PaymentPending | PaymentPartial | PaymentFull

  /** The pricing configuration. Money amounts and the multiplier are exact
      reals; the multiplier of the initial configuration is 1.3. */
  datatype PricingRule = PricingRule(
    dailyPrice: real,
    weekendMultiplier: real,
    guestThreshold: int,
    extraGuestPrice: real,
    specialPriceDates: seq<string>)

  /** A booking record. `depositAmount`, `paymentStatus`, `message` and
      `isManual` are optional in stored data. */
  datatype Booking = Booking(
    id: string,
    guestName: string,
    guestEmail: string,
    guestPhone: string,
    guestCount: int,
    startDate: Day,
    endDate: Day,
    totalPrice: real,
    depositAmount: Option<real>,
    status: BookingStatus,
    paymentStatus: Option<PaymentStatus>,
    message: Option<string>,
    createdAt: string,
    isManual: Option<bool>)

  /** What a caller hands to booking creation: a booking without `id` and
      `createdAt`, whose `status` is optional too. */
  datatype BookingDraft = BookingDraft(
    guestName: string,
    guestEmail: string,
    guestPhone: string,
    guestCount: int,
    startDate: Day,
    endDate: Day,
    totalPrice: real,
    depositAmount: Option<real>,
    status: Option<BookingStatus>,
    paymentStatus: Option<PaymentStatus>,
    message: Option<string>,
    isManual: Option<bool>)

  /** An entry of the blocked-date list: a `YYYY-MM-DD` date and a flag. */
  datatype DayStatus = DayStatus(date: string, isBlocked: bool, bookingId: Option<string>)

  /** An inclusive range of days as the selector hands it to the booking form. */
  datatype DateRange = DateRange(start: Day, end: Day)
}
