/** The booking and blocked-date store as pure transformations of the stored
    lists. Every write first re-reads the bookings through the read
    normalisation, so a successful update stores the normalised list; a write
    whose id is not found stores nothing. Record ids and creation timestamps
    are parameters, and nothing assumes ids are unique. */
module Store {
  import opened Types

  // ---------------------------------------------------------------------------
  // Reading bookings
  // ---------------------------------------------------------------------------

  /** A record whose optional payment fields are filled in. */
  predicate Normalized(b: Booking) {
    b.paymentStatus.Some? && b.depositAmount.Some?
  }

  predicate AllNormalized(bs: seq<Booking>) {
    forall i :: 0 <= i < |bs| ==> Normalized(bs[i])
  }

  /** The read normalisation of one record: a missing payment status reads as
      Pending, a missing or zero deposit as 0. */
  function NormalizeBooking(b: Booking): (r: Booking)
    ensures Normalized(r)
    ensures r.(paymentStatus := b.paymentStatus, depositAmount := b.depositAmount) == b
    ensures b.paymentStatus.Some? ==> r.paymentStatus == b.paymentStatus
    ensures b.paymentStatus.None? ==> r.paymentStatus == Some(PaymentPending)
    ensures b.depositAmount.Some? ==> r.depositAmount == b.depositAmount
    ensures b.depositAmount.None? ==> r.depositAmount == Some(0.0)
  {
    b.(paymentStatus := Some(b.paymentStatus.GetOr(PaymentPending)),
       depositAmount := Some(b.depositAmount.GetOr(0.0)))
  }

  /** `getBookings`: the stored list, each record normalised. */
  function GetBookings(stored: seq<Booking>): (bs: seq<Booking>)
    ensures |bs| == |stored| && AllNormalized(bs)
    ensures forall i :: 0 <= i < |bs| ==> bs[i] == NormalizeBooking(stored[i])
  {
    seq(|stored|, i requires 0 <= i < |stored| => NormalizeBooking(stored[i]))
  }

  /** Normalisation leaves a normalised list alone, so reading twice is
      reading once. */
  lemma GetBookingsFixesNormalized(stored: seq<Booking>)
    requires AllNormalized(stored)
    ensures GetBookings(stored) == stored
  {
  }

  lemma GetBookingsIdempotent(stored: seq<Booking>)
    ensures GetBookings(GetBookings(stored)) == GetBookings(stored)
  {
    GetBookingsFixesNormalized(GetBookings(stored));
  }

  /** `findIndex` by id: the first position holding `id`. */
  function FindBooking(bs: seq<Booking>, id: string): (r: Option<nat>)
    ensures r.Some? ==> r.value < |bs| && bs[r.value].id == id
    ensures r.Some? ==> forall j :: 0 <= j < r.value ==> bs[j].id != id
    ensures r.None? ==> forall j :: 0 <= j < |bs| ==> bs[j].id != id
  {
    if |bs| == 0 then None
    else if bs[0].id == id then Some(0)
    else match FindBooking(bs[1..], id)
      case None => None
      case Some(k) => Some(k + 1)
  }

  /** `i` is the first position of a booking with this id. */
  predicate FirstWithId(bs: seq<Booking>, id: string, i: int) {
    0 <= i < |bs| && bs[i].id == id && forall j :: 0 <= j < i ==> bs[j].id != id
  }

  predicate HasId(bs: seq<Booking>, id: string) {
    exists i :: 0 <= i < |bs| && bs[i].id == id
  }

  // ---------------------------------------------------------------------------
  // Creating a booking
  // ---------------------------------------------------------------------------

  /** The record `createBooking` builds: status Pending, payment Pending and
      deposit 0 unless the caller supplies them, the caller's other fields, and
      a freshly generated id and timestamp. */
  function NewBooking(draft: BookingDraft, id: string, createdAt: string): (b: Booking)
    ensures Normalized(b)
    ensures b.id == id && b.createdAt == createdAt
    ensures draft.status.None? ==> b.status == Pending
    ensures draft.status.Some? ==> b.status == draft.status.value
    ensures draft.paymentStatus.None? ==> b.paymentStatus == Some(PaymentPending)
    ensures draft.paymentStatus.Some? ==> b.paymentStatus == draft.paymentStatus
    ensures draft.depositAmount.None? ==> b.depositAmount == Some(0.0)
    ensures draft.depositAmount.Some? ==> b.depositAmount == draft.depositAmount
    ensures b.guestName == draft.guestName && b.guestEmail == draft.guestEmail
    ensures b.guestPhone == draft.guestPhone && b.guestCount == draft.guestCount
    ensures b.startDate == draft.startDate && b.endDate == draft.endDate
    ensures b.totalPrice == draft.totalPrice && b.message == draft.message
    ensures b.isManual == draft.isManual
  {
    Booking(
      id := id,
      guestName := draft.guestName,
      guestEmail := draft.guestEmail,
      guestPhone := draft.guestPhone,
      guestCount := draft.guestCount,
      startDate := draft.startDate,
      endDate := draft.endDate,
      totalPrice := draft.totalPrice,
      depositAmount := Some(draft.depositAmount.GetOr(0.0)),
      status := draft.status.GetOr(Pending),
      paymentStatus := Some(draft.paymentStatus.GetOr(PaymentPending)),
      message := draft.message,
      createdAt := createdAt,
      isManual := draft.isManual)
  }

  /** `createBooking`: the stored list after creation is the re-read list with
      exactly one record appended. Existing records are only normalised. */
  function CreateBooking(stored: seq<Booking>, draft: BookingDraft, id: string, createdAt: string)
    : (r: seq<Booking>)
    ensures |r| == |stored| + 1
    ensures r[..|stored|] == GetBookings(stored)
    ensures r[|stored|] == NewBooking(draft, id, createdAt)
    ensures AllNormalized(r)
    ensures AllNormalized(stored) ==> r[..|stored|] == stored
  {
    GetBookings(stored) + [NewBooking(draft, id, createdAt)]
  }

  // ---------------------------------------------------------------------------
  // Updating a booking found by id
  // ---------------------------------------------------------------------------

  /** One field edit of a booking record. */
  datatype Edit = SetStatus(status: BookingStatus) | SetPayment(payment: PaymentStatus) | SetDeposit(amount: real)

  function ApplyEdit(b: Booking, e: Edit): Booking {
    match e
    case SetStatus(s) => b.(status := s)
    case SetPayment(p) => b.(paymentStatus := Some(p))
    case SetDeposit(a) => b.(depositAmount := Some(a))
  }

  /** Re-read the bookings, find the first record with `id`, edit it and write
      the list back; when no record has `id` nothing is written. */
  function UpdateFirst(stored: seq<Booking>, id: string, e: Edit): (r: seq<Booking>)
    ensures !HasId(stored, id) ==> r == stored
    ensures |r| == |stored|
    ensures forall i :: FirstWithId(stored, id, i) ==>
      && r[i] == ApplyEdit(NormalizeBooking(stored[i]), e)
      && forall j :: 0 <= j < |r| && j != i ==> r[j] == NormalizeBooking(stored[j])
  {
    var bs := GetBookings(stored);
    match FindBooking(bs, id)
    case None => stored
    case Some(i) => bs[i := ApplyEdit(bs[i], e)]
  }

  /** `updateBookingStatus`: sets the status of the first booking with `id`,
      whatever its current status; no transition rule and no overlap check
      applies. Every other record and every other field is only normalised;
      an unknown id changes nothing. */
  function UpdateBookingStatus(stored: seq<Booking>, id: string, status: BookingStatus): (r: seq<Booking>)
    ensures !HasId(stored, id) ==> r == stored
    ensures |r| == |stored|
    ensures forall i :: FirstWithId(stored, id, i) ==>
      && r[i] == NormalizeBooking(stored[i]).(status := status)
      && forall j :: 0 <= j < |r| && j != i ==> r[j] == NormalizeBooking(stored[j])
  {
    UpdateFirst(stored, id, SetStatus(status))
  }

  /** `updatePaymentStatus`: sets only the payment status of the first booking
      with `id`; no booking's status changes. */
  function UpdatePaymentStatus(stored: seq<Booking>, id: string, payment: PaymentStatus): (r: seq<Booking>)
    ensures !HasId(stored, id) ==> r == stored
    ensures |r| == |stored|
    ensures forall j :: 0 <= j < |r| ==> r[j].status == stored[j].status && r[j].id == stored[j].id
    ensures forall i :: FirstWithId(stored, id, i) ==>
      && r[i] == NormalizeBooking(stored[i]).(paymentStatus := Some(payment))
      && forall j :: 0 <= j < |r| && j != i ==> r[j] == NormalizeBooking(stored[j])
  {
    UpdateFirst(stored, id, SetPayment(payment))
  }

  /** `updateDepositAmount`: stores the amount as given (no clamp to the total
      price, no sign check) on the first booking with `id`; no booking's status
      or payment label changes beyond normalisation. */
  function UpdateDepositAmount(stored: seq<Booking>, id: string, amount: real): (r: seq<Booking>)
    ensures !HasId(stored, id) ==> r == stored
    ensures |r| == |stored|
    ensures forall j :: 0 <= j < |r| ==> r[j].status == stored[j].status && r[j].id == stored[j].id
    ensures forall i :: FirstWithId(stored, id, i) ==>
      && r[i].depositAmount == Some(amount)
      && r[i] == NormalizeBooking(stored[i]).(depositAmount := Some(amount))
      && forall j :: 0 <= j < |r| && j != i ==> r[j] == NormalizeBooking(stored[j])
  {
    UpdateFirst(stored, id, SetDeposit(amount))
  }

  // ---------------------------------------------------------------------------
  // Blocked dates
  // ---------------------------------------------------------------------------

  predicate HasDate(blocked: seq<DayStatus>, date: string) {
    exists i :: 0 <= i < |blocked| && blocked[i].date == date
  }

  /** No date appears twice in the list. */
  predicate DatesDistinct(blocked: seq<DayStatus>) {
    forall i, j :: 0 <= i < j < |blocked| ==> blocked[i].date != blocked[j].date
  }

  /** Every entry carries the blocked flag. */
  predicate AllFlagged(blocked: seq<DayStatus>) {
    forall i :: 0 <= i < |blocked| ==> blocked[i].isBlocked
  }

  /** `findIndex` by date: the first entry for `date`. */
  function FindDate(blocked: seq<DayStatus>, date: string): (r: Option<nat>)
    ensures r.Some? ==> r.value < |blocked| && blocked[r.value].date == date
    ensures r.Some? ==> forall j :: 0 <= j < r.value ==> blocked[j].date != date
    ensures r.None? ==> !HasDate(blocked, date)
  {
    if |blocked| == 0 then None
    else if blocked[0].date == date then Some(0)
    else match FindDate(blocked[1..], date)
      case None => None
      case Some(k) => Some(k + 1)
  }

  /** `toggleDateBlock`: removes the first entry for `date` if there is one,
      otherwise appends a blocked entry for it. */
  function ToggleDateBlock(blocked: seq<DayStatus>, date: string): (r: seq<DayStatus>)
    ensures !HasDate(blocked, date) ==> r == blocked + [DayStatus(date, true, None)]
    ensures HasDate(blocked, date) ==> |r| == |blocked| - 1
    ensures HasDate(blocked, date) ==> exists i :: (0 <= i < |blocked| && blocked[i].date == date
      && (forall j :: 0 <= j < i ==> blocked[j].date != date) && r == blocked[..i] + blocked[i + 1..])
    ensures forall k :: k != date ==> (HasDate(r, k) <==> HasDate(blocked, k))
    ensures DatesDistinct(blocked) ==> (HasDate(r, date) <==> !HasDate(blocked, date))
  {
    match FindDate(blocked, date)
    case Some(i) =>
      var r := blocked[..i] + blocked[i + 1..];
      assert forall k :: k != date && HasDate(blocked, k) ==> HasDate(r, k) by {
        forall k | k != date && HasDate(blocked, k) ensures HasDate(r, k) {
          var j :| 0 <= j < |blocked| && blocked[j].date == k;
          if j < i { assert r[j] == blocked[j]; } else { assert r[j - 1] == blocked[j]; }
        }
      }
      r
    case None =>
      var r := blocked + [DayStatus(date, true, None)];
      assert r[|blocked|].date == date;
      assert forall k :: HasDate(blocked, k) ==> HasDate(r, k) by {
        forall k | HasDate(blocked, k) ensures HasDate(r, k) {
          var j :| 0 <= j < |blocked| && blocked[j].date == k;
          assert r[j] == blocked[j];
        }
      }
      r
  }

  /** Removing entry i keeps the others, in order. */
  lemma RemoveAtEntries(blocked: seq<DayStatus>, i: int)
    requires 0 <= i < |blocked|
    ensures var r := blocked[..i] + blocked[i + 1..];
      |r| == |blocked| - 1 && forall j :: 0 <= j < |r| ==> r[j] == blocked[if j < i then j else j + 1]
  {
  }

  /** Toggling keeps dates distinct and keeps every entry flagged. */
  lemma ToggleKeepsListWellFormed(blocked: seq<DayStatus>, date: string)
    ensures DatesDistinct(blocked) ==> DatesDistinct(ToggleDateBlock(blocked, date))
    ensures AllFlagged(blocked) ==> AllFlagged(ToggleDateBlock(blocked, date))
  {
    var r := ToggleDateBlock(blocked, date);
    match FindDate(blocked, date)
    case Some(i) =>
      RemoveAtEntries(blocked, i);
    case None =>
      assert r == blocked + [DayStatus(date, true, None)];
  }

  /** Toggling a date twice restores every date's membership; from a list
      without the date it restores the list itself. */
  lemma ToggleTwiceRestores(blocked: seq<DayStatus>, date: string)
    requires DatesDistinct(blocked)
    ensures forall k :: HasDate(ToggleDateBlock(ToggleDateBlock(blocked, date), date), k) <==> HasDate(blocked, k)
    ensures !HasDate(blocked, date) ==> ToggleDateBlock(ToggleDateBlock(blocked, date), date) == blocked
  {
    var once := ToggleDateBlock(blocked, date);
    ToggleKeepsListWellFormed(blocked, date);
    if !HasDate(blocked, date) {
      assert FindDate(once, date) == Some(|blocked|);
      assert once[..|blocked|] == blocked;
    }
  }
}
