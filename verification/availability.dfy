/** Which calendar days are taken: a day is unavailable when the blocked-date
    list has an entry for it or when an Approved booking's inclusive span
    covers it. Pending, Rejected and Cancelled bookings never take a day. */
module Availability {
  import opened Calendar
  import opened Types

  /** The public calendar's manual-block test: an entry for the day's key
      whose flag is set. */
  predicate ManuallyBlocked(blocked: seq<DayStatus>, d: Day) {
    exists i :: 0 <= i < |blocked| && blocked[i].date == DayKey(d) && blocked[i].isBlocked
  }

  /** The administrator calendar's test: any entry for the day's key, whatever
      its flag. */
  function HasBlockEntry(blocked: seq<DayStatus>, key: string): (r: bool)
    ensures r <==> exists i :: 0 <= i < |blocked| && blocked[i].date == key
  {
    if |blocked| == 0 then false
    else blocked[0].date == key || HasBlockEntry(blocked[1..], key)
  }

  predicate Covers(b: Booking, d: Day) {
    b.startDate <= d <= b.endDate
  }

  /** Some Approved booking's inclusive span covers the day; the first such
      booking is the one the administrator calendar finds. */
  function ApprovedCovering(bookings: seq<Booking>, d: Day): (r: Option<nat>)
    ensures r.Some? ==> r.value < |bookings| && bookings[r.value].status == Approved && Covers(bookings[r.value], d)
    ensures r.None? <==> forall i :: 0 <= i < |bookings| ==> !(bookings[i].status == Approved && Covers(bookings[i], d))
  {
    if |bookings| == 0 then None
    else if bookings[0].status == Approved && Covers(bookings[0], d) then Some(0)
    else match ApprovedCovering(bookings[1..], d)
      case None => None
      case Some(k) => Some(k + 1)
  }

  predicate IsBooked(bookings: seq<Booking>, d: Day) {
    ApprovedCovering(bookings, d).Some?
  }

  /** `isDateBlocked` of the public calendar. */
  predicate IsDateBlocked(blocked: seq<DayStatus>, bookings: seq<Booking>, d: Day) {
    ManuallyBlocked(blocked, d) || IsBooked(bookings, d)
  }

  /** A day is blocked exactly when a flagged entry has its key or an Approved
      booking covers it; bookings of any other status play no part. */
  lemma IsDateBlockedMeaning(blocked: seq<DayStatus>, bookings: seq<Booking>, d: Day)
    ensures IsDateBlocked(blocked, bookings, d) <==>
      (exists i :: 0 <= i < |blocked| && blocked[i].date == DayKey(d) && blocked[i].isBlocked)
      || (exists i :: 0 <= i < |bookings| && bookings[i].status == Approved && bookings[i].startDate <= d <= bookings[i].endDate)
  {
  }

  /** The administrator calendar's view of a day. */
  datatype DateStatus = DateStatus(blocked: bool, booked: bool)

  /** `getDateStatus`: blocked iff the list has an entry for the day (flag
      ignored); booked iff some Approved booking covers the day. */
  function GetDateStatus(blocked: seq<DayStatus>, bookings: seq<Booking>, d: Day): (s: DateStatus)
    ensures s.blocked <==> exists i :: 0 <= i < |blocked| && blocked[i].date == DayKey(d)
    ensures s.booked <==> exists i :: 0 <= i < |bookings| && bookings[i].status == Approved && Covers(bookings[i], d)
  {
    DateStatus(HasBlockEntry(blocked, DayKey(d)), IsBooked(bookings, d))
  }

  /** When every entry carries the flag, as every entry the store creates
      does, both calendars agree on which days are unavailable. */
  lemma CalendarsAgree(blocked: seq<DayStatus>, bookings: seq<Booking>, d: Day)
    requires forall i :: 0 <= i < |blocked| ==> blocked[i].isBlocked
    ensures var s := GetDateStatus(blocked, bookings, d);
      (s.blocked || s.booked) <==> IsDateBlocked(blocked, bookings, d)
  {
  }

  /** A booking that is not Approved never makes a day unavailable: adding
      one changes no day's availability. */
  lemma NonApprovedBookingNeverBlocks(blocked: seq<DayStatus>, bookings: seq<Booking>, b: Booking, d: Day)
    requires b.status != Approved
    ensures IsDateBlocked(blocked, bookings + [b], d) <==> IsDateBlocked(blocked, bookings, d)
  {
    var bs := bookings + [b];
    if IsBooked(bs, d) {
      var i := ApprovedCovering(bs, d).value;
      assert bs[i] == bookings[i];
    }
    if IsBooked(bookings, d) {
      var i := ApprovedCovering(bookings, d).value;
      assert bs[i] == bookings[i];
    }
  }
}
