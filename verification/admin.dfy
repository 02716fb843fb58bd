/** The administrator dashboard: which actions each booking offers, the
    pricing editor's clamps, the calendar's three click modes (block, special
    price, reserve), the manual-booking quote and the manual booking itself. */
module Admin {
  import opened Calendar
  import opened Types
  import opened Constants
  import opened Pricing
  import opened Store
  import opened Selector

  // ---------------------------------------------------------------------
  // Booking actions

  /** The buttons of the bookings table. */
  datatype Action = Approve | Reject | Cancel

  /** The status an action asks the store to set. */
  function ActionTarget(a: Action): BookingStatus {
    match a
    case Approve => Approved
    case Reject => Rejected
    case Cancel => Cancelled
  }

  /** The lifecycle the dashboard offers: a request is approved or rejected,
      an approved booking may be cancelled; Rejected and Cancelled are final. */
  predicate LifecycleStep(from: BookingStatus, to: BookingStatus) {
    (from == Pending && (to == Approved || to == Rejected)) || (from == Approved && to == Cancelled)
  }

  /** Rejected and Cancelled bookings are shown faded, with no action and no
      payment controls. */
  predicate IsClosed(s: BookingStatus) {
    s == Cancelled || s == Rejected
  }

  /** The actions offered for a booking of status `s`: approve and reject on
      a Pending booking, cancel on an Approved one, nothing otherwise. */
  function AvailableActions(s: BookingStatus): (r: set<Action>)
    ensures Approve in r <==> s == Pending
    ensures Reject in r <==> s == Pending
    ensures Cancel in r <==> s == Approved
    ensures r == {} <==> IsClosed(s)
  {
    match s
    case Pending => {Approve, Reject}
    case Approved => {Cancel}
    case Rejected => {}
    case Cancelled => {}
  }

  /** The offered actions are exactly the lifecycle's steps: a status can be
      reached from `s` through a button iff the lifecycle allows the step. */
  lemma ActionsFollowLifecycle(s: BookingStatus, t: BookingStatus)
    ensures (exists a :: a in AvailableActions(s) && ActionTarget(a) == t) <==> LifecycleStep(s, t)
  {
    if LifecycleStep(s, t) {
      var a := if t == Approved then Approve else if t == Rejected then Reject else Cancel;
      assert a in AvailableActions(s) && ActionTarget(a) == t;
    }
  }

  /** `handleBookingAction`: once the administrator confirms, the store sets
      the action's status on the booking with that id; declining the
      confirmation leaves the store as it was. */
  function HandleBookingAction(stored: seq<Booking>, id: string, a: Action, confirmed: bool): (r: seq<Booking>)
    ensures !confirmed ==> r == stored
    ensures confirmed ==> r == UpdateBookingStatus(stored, id, ActionTarget(a))
  {
    if confirmed then UpdateBookingStatus(stored, id, ActionTarget(a)) else stored
  }

  /** An action taken from the buttons of the booking it belongs to moves
      that booking one lifecycle step. */
  lemma OfferedActionIsLifecycleStep(stored: seq<Booking>, id: string, i: int, a: Action)
    requires FirstWithId(stored, id, i) && a in AvailableActions(stored[i].status)
    ensures LifecycleStep(stored[i].status, HandleBookingAction(stored, id, a, true)[i].status)
  {
  }

  /** The balance shown under the deposit: the total minus the deposit, a
      missing or zero deposit counting as none. */
  function Balance(b: Booking): (r: real)
    ensures r + b.depositAmount.GetOr(0.0) == b.totalPrice
    ensures b.depositAmount.None? ==> r == b.totalPrice
  {
    b.totalPrice - b.depositAmount.GetOr(0.0)
  }

  /** The deposit is stored as entered: a deposit above the total leaves a
      negative balance. */
  lemma DepositAboveTotalGivesNegativeBalance(stored: seq<Booking>, id: string, i: int, amount: real)
    requires FirstWithId(stored, id, i) && amount > stored[i].totalPrice
    ensures Balance(UpdateDepositAmount(stored, id, amount)[i]) < 0.0
  {
  }

  // ---------------------------------------------------------------------
  // Pricing editor

  function MaxReal(a: real, b: real): (r: real)
    ensures r >= a && r >= b && (r == a || r == b)
  {
    if a >= b then a else b
  }

  function MaxInt(a: int, b: int): (r: int)
    ensures r >= a && r >= b && (r == a || r == b)
  {
    if a >= b then a else b
  }

  /** One edit of a pricing field as entered. */
  datatype PricingEdit =
    | SetDailyPrice(price: real)
    | SetMultiplier(multiplier: real)
    | SetThreshold(threshold: int)
    | SetExtraGuestPrice(extra: real)

  /** An edit stores the entered value raised to its field's bound (daily
      price and extra-guest price 0, multiplier and threshold 1); every other
      field is kept. */
  function EditPricing(p: PricingRule, e: PricingEdit): (r: PricingRule)
    ensures ValidPricing(p) ==> ValidPricing(r)
    ensures r.specialPriceDates == p.specialPriceDates
    ensures e.SetDailyPrice? ==>
      r == p.(dailyPrice := r.dailyPrice) && r.dailyPrice >= 0.0
      && (e.price >= 0.0 ==> r.dailyPrice == e.price) && (e.price < 0.0 ==> r.dailyPrice == 0.0)
    ensures e.SetMultiplier? ==>
      r == p.(weekendMultiplier := r.weekendMultiplier) && r.weekendMultiplier >= 1.0
      && (e.multiplier >= 1.0 ==> r.weekendMultiplier == e.multiplier) && (e.multiplier < 1.0 ==> r.weekendMultiplier == 1.0)
    ensures e.SetThreshold? ==>
      r == p.(guestThreshold := r.guestThreshold) && r.guestThreshold >= 1
      && (e.threshold >= 1 ==> r.guestThreshold == e.threshold) && (e.threshold < 1 ==> r.guestThreshold == 1)
    ensures e.SetExtraGuestPrice? ==>
      r == p.(extraGuestPrice := r.extraGuestPrice) && r.extraGuestPrice >= 0.0
      && (e.extra >= 0.0 ==> r.extraGuestPrice == e.extra) && (e.extra < 0.0 ==> r.extraGuestPrice == 0.0)
  {
    match e
    case SetDailyPrice(v) => p.(dailyPrice := MaxReal(0.0, v))
    case SetMultiplier(v) => p.(weekendMultiplier := MaxReal(1.0, v))
    case SetThreshold(n) => p.(guestThreshold := MaxInt(1, n))
    case SetExtraGuestPrice(v) => p.(extraGuestPrice := MaxReal(0.0, v))
  }

  function EditAll(p: PricingRule, edits: seq<PricingEdit>): PricingRule
    decreases |edits|
  {
    if |edits| == 0 then p else EditAll(EditPricing(p, edits[0]), edits[1..])
  }

  /** The initial pricing meets the editor's bounds, and no sequence of edits
      leaves them. */
  lemma {:induction false} EditsKeepPricingValid(p: PricingRule, edits: seq<PricingEdit>)
    requires ValidPricing(p)
    ensures ValidPricing(EditAll(p, edits))
    decreases |edits|
  {
    if |edits| > 0 {
      EditsKeepPricingValid(EditPricing(p, edits[0]), edits[1..]);
    }
  }

  lemma InitialPricingValid()
    ensures ValidPricing(InitialPricing) && InitialPricing.specialPriceDates == []
  {
  }

  // ---------------------------------------------------------------------
  // Special-price dates

  /** Every occurrence of `x` filtered out, the rest kept in order. */
  function RemoveAll(dates: seq<string>, x: string): (r: seq<string>)
    ensures x !in r
    ensures forall k :: k != x ==> (k in r <==> k in dates)
    ensures x !in dates ==> r == dates
    ensures |r| <= |dates|
    ensures x in dates ==> |r| < |dates|
  {
    if |dates| == 0 then []
    else if dates[|dates| - 1] == x then RemoveAll(dates[..|dates| - 1], x)
    else RemoveAll(dates[..|dates| - 1], x) + [dates[|dates| - 1]]
  }

  /** Special-price mode: a listed date is filtered out (every occurrence),
      an unlisted one appended. */
  function ToggleSpecialDate(dates: seq<string>, iso: string): (r: seq<string>)
    ensures (iso in r) <==> (iso !in dates)
    ensures forall k :: k != iso ==> (k in r <==> k in dates)
    ensures iso !in dates ==> r == dates + [iso]
    ensures iso in dates ==> |r| < |dates|
  {
    if iso in dates then RemoveAll(dates, iso) else dates + [iso]
  }

  /** Toggling a date twice restores the membership of every date, and
      restores the list itself when the date was not listed. Unlike the
      blocked-date toggle, no distinctness is needed: the filter removes
      every copy. */
  lemma ToggleSpecialTwice(dates: seq<string>, iso: string)
    ensures forall k :: k in ToggleSpecialDate(ToggleSpecialDate(dates, iso), iso) <==> k in dates
    ensures iso !in dates ==> ToggleSpecialDate(ToggleSpecialDate(dates, iso), iso) == dates
  {
    if iso !in dates {
      var once := dates + [iso];
      assert once[..|once| - 1] == dates;
    }
  }

  // ---------------------------------------------------------------------
  // Calendar clicks

  datatype AdminMode = BlockMode | SpecialPriceMode | ReserveMode

  /** The stored data the dashboard works on. */
  datatype Backend = Backend(bookings: seq<Booking>, blocked: seq<DayStatus>, pricing: PricingRule)

  /** The dashboard's own state: its copy of the pricing (absent until
      loaded, possibly holding unsaved edits), the reserve-mode selection and
      whether the manual-booking form is open. */
  datatype View = View(pricing: Option<PricingRule>, selection: Selection, showManualForm: bool)

  datatype AdminState = AdminState(backend: Backend, view: View)

  /** The manual-booking form is open exactly when a range is complete. */
  predicate FormMatchesSelection(v: View) {
    v.showManualForm <==> Complete(v.selection)
  }

  /** The reserve-mode click on the dashboard's state. */
  function ReserveModeClick(v: View, d: Day): (r: View)
    ensures r.pricing == v.pricing
    ensures r.selection == ReserveClick(v.selection, d)
    ensures FormMatchesSelection(v) ==> FormMatchesSelection(r)
  {
    var s := v.selection;
    if s.start.None? || Complete(s) then v.(selection := ReserveClick(s, d), showManualForm := false)
    else if d < s.start.value then v.(selection := ReserveClick(s, d))
    else v.(selection := ReserveClick(s, d), showManualForm := true)
  }

  /** `handleDayClick`. Block mode toggles the day's entry in the stored
      blocked list and reloads, so the dashboard's pricing becomes the stored
      one; special-price mode (once pricing is loaded) toggles the day in the
      dashboard's pricing and stores that whole pricing; reserve mode moves
      the selection. */
  function HandleDayClick(st: AdminState, mode: AdminMode, d: Day): (r: AdminState)
    ensures mode == BlockMode ==>
      && r.backend == st.backend.(blocked := ToggleDateBlock(st.backend.blocked, DayKey(d)))
      && r.view == st.view.(pricing := Some(st.backend.pricing))
    ensures mode == SpecialPriceMode && st.view.pricing.None? ==> r == st
    ensures mode == SpecialPriceMode && st.view.pricing.Some? ==>
      var p := st.view.pricing.value;
      && r.view.pricing == Some(r.backend.pricing)
      && r.backend.pricing == p.(specialPriceDates := r.backend.pricing.specialPriceDates)
      && r.backend.pricing.specialPriceDates == ToggleSpecialDate(p.specialPriceDates, DayKey(d))
      && (DayKey(d) in r.backend.pricing.specialPriceDates <==> DayKey(d) !in p.specialPriceDates)
      && r.backend.bookings == st.backend.bookings && r.backend.blocked == st.backend.blocked
      && r.view.selection == st.view.selection && r.view.showManualForm == st.view.showManualForm
    ensures mode == ReserveMode ==>
      r.backend == st.backend && r.view == ReserveModeClick(st.view, d)
  {
    match mode
    case BlockMode =>
      var backend := st.backend.(blocked := ToggleDateBlock(st.backend.blocked, DayKey(d)));
      AdminState(backend, st.view.(pricing := Some(backend.pricing)))
    case SpecialPriceMode =>
      if st.view.pricing.None? then st
      else
        var p := st.view.pricing.value;
        var newPricing := p.(specialPriceDates := ToggleSpecialDate(p.specialPriceDates, DayKey(d)));
        AdminState(st.backend.(pricing := newPricing), st.view.(pricing := Some(newPricing)))
    case ReserveMode =>
      AdminState(st.backend, ReserveModeClick(st.view, d))
  }

  /** The state the dashboard keeps sound: valid stored and local pricing,
      every blocked entry flagged, the form open exactly on a complete
      selection, and a complete selection ordered. */
  predicate Sound(st: AdminState) {
    && ValidPricing(st.backend.pricing)
    && (st.view.pricing.Some? ==> ValidPricing(st.view.pricing.value))
    && AllFlagged(st.backend.blocked)
    && FormMatchesSelection(st.view)
    && (Complete(st.view.selection) ==> st.view.selection.start.value <= st.view.selection.end.value)
  }

  /** Every click keeps the dashboard sound. */
  lemma DayClickKeepsSound(st: AdminState, mode: AdminMode, d: Day)
    requires Sound(st)
    ensures Sound(HandleDayClick(st, mode, d))
  {
    if mode == BlockMode {
      ToggleKeepsListWellFormed(st.backend.blocked, DayKey(d));
    }
  }

  /** Block mode toggles the day in the stored list; a second click on the
      same day restores which dates are listed. */
  lemma BlockClickTwiceRestores(st: AdminState, d: Day)
    requires DatesDistinct(st.backend.blocked)
    ensures var r := HandleDayClick(HandleDayClick(st, BlockMode, d), BlockMode, d);
      forall k :: HasDate(r.backend.blocked, k) <==> HasDate(st.backend.blocked, k)
  {
    ToggleTwiceRestores(st.backend.blocked, DayKey(d));
  }

  // ---------------------------------------------------------------------
  // Manual booking

  /** `calculatePrice`: nothing is computed unless both ends of the
      selection and the pricing are present, in which case the manual price
      becomes the quote of the range for the entered guests. The price field
      itself holds any number, fractions included, since the administrator
      may type over the quote. */
  method CalculatePrice(selection: Selection, pricing: Option<PricingRule>, manualGuests: int, manualPrice: real)
    returns (price: real)
    ensures !Complete(selection) || pricing.None? ==> price == manualPrice
    ensures Complete(selection) && pricing.Some? ==>
      price == QuoteSpec(pricing.value, selection.start.value, selection.end.value, manualGuests) as real
  {
    if selection.start.None? || selection.end.None? || pricing.None? {
      return manualPrice;
    }
    var start := selection.start.value;
    var end := selection.end.value;
    var rules := pricing.value;
    var diffDays := DayCount(start, end);
    var totalBase := SumDailyRates(rules, start, diffDays);
    var extra := Surcharge(rules, manualGuests, diffDays);
    QuoteFromTotal(rules, start, end, manualGuests);
    price := Round(totalBase + extra) as real;
  }

  /** The manual-booking form's fields; the price is whatever number was
      typed or last computed. */
  datatype ManualForm = ManualForm(name: string, email: string, phone: string, guests: int, message: string, price: real)

  /** `x || fallback` on strings: the empty string falls back. */
  function OrDefault(x: string, fallback: string): (r: string)
    ensures x != "" ==> r == x
    ensures x == "" ==> r == fallback
  {
    if x == "" then fallback else x
  }

  /** The record a manual booking hands to booking creation: defaults for
      missing guest data, Approved, flagged manual, priced as entered. */
  function ManualDraft(f: ManualForm, start: Day, end: Day): (draft: BookingDraft)
    ensures draft.status == Some(Approved) && draft.isManual == Some(true)
    ensures draft.startDate == start && draft.endDate == end
    ensures draft.guestName == OrDefault(f.name, "Reserva Manual")
    ensures draft.guestEmail == OrDefault(f.email, "manual@admin.com")
    ensures draft.guestPhone == OrDefault(f.phone, "-")
    ensures draft.totalPrice == f.price && draft.guestCount == f.guests
    ensures draft.paymentStatus.None? && draft.depositAmount.None?
  {
    BookingDraft(OrDefault(f.name, "Reserva Manual"), OrDefault(f.email, "manual@admin.com"),
                 OrDefault(f.phone, "-"), f.guests, start, end, f.price,
                 None, Some(Approved), None, Some(f.message), Some(true))
  }

  /** `createManualBooking`: without a complete selection nothing happens.
      Otherwise an Approved, manual booking for the selected range is stored,
      the selection and the form are cleared (the price field keeps its
      value) and the form closes. */
  function CreateManualBooking(st: AdminState, f: ManualForm, id: string, createdAt: string)
    : (r: (AdminState, ManualForm))
    ensures !Complete(st.view.selection) ==> r == (st, f)
    ensures Complete(st.view.selection) ==>
      var s := st.view.selection;
      && r.0.backend.bookings == CreateBooking(st.backend.bookings, ManualDraft(f, s.start.value, s.end.value), id, createdAt)
      && r.0.backend.blocked == st.backend.blocked && r.0.backend.pricing == st.backend.pricing
      && r.0.view == View(Some(st.backend.pricing), NoSelection, false)
      && r.1 == ManualForm("", "", "", 1, "", f.price)
  {
    var s := st.view.selection;
    if !Complete(s) then (st, f)
    else
      var bookings := CreateBooking(st.backend.bookings, ManualDraft(f, s.start.value, s.end.value), id, createdAt);
      (AdminState(st.backend.(bookings := bookings), View(Some(st.backend.pricing), NoSelection, false)),
       ManualForm("", "", "", 1, "", f.price))
  }

  /** A manual booking is Approved at once, so every day of its range is
      unavailable on the public calendar afterwards; nothing checks the range
      against existing bookings. */
  lemma ManualBookingBlocksItsRange(st: AdminState, f: ManualForm, id: string, createdAt: string, d: Day)
    requires Complete(st.view.selection)
    requires st.view.selection.start.value <= d <= st.view.selection.end.value
    ensures var r := CreateManualBooking(st, f, id, createdAt).0;
      Availability.IsDateBlocked(r.backend.blocked, r.backend.bookings, d)
  {
    var r := CreateManualBooking(st, f, id, createdAt).0;
    var n := |st.backend.bookings|;
    var b := r.backend.bookings[n];
    assert b.status == Approved && Availability.Covers(b, d);
  }

  /** Creating a manual booking keeps the dashboard sound. */
  lemma ManualBookingKeepsSound(st: AdminState, f: ManualForm, id: string, createdAt: string)
    requires Sound(st)
    ensures Sound(CreateManualBooking(st, f, id, createdAt).0)
  {
  }
}
