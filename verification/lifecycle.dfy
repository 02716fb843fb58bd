/** How status changes in the store reach the calendars: approving makes a
    booking's days unavailable, cancelling only ever frees days, and the store
    itself enforces neither the dashboard's lifecycle nor non-overlap. */
module Lifecycle {
  import opened Calendar
  import opened Types
  import opened Store
  import opened Availability
  import opened Admin

  /** Approving a booking makes every day of its inclusive range unavailable,
      whatever else is stored. */
  lemma ApproveBlocksRange(blocked: seq<DayStatus>, stored: seq<Booking>, id: string, i: int, d: Day)
    requires FirstWithId(stored, id, i) && Covers(stored[i], d)
    ensures IsDateBlocked(blocked, UpdateBookingStatus(stored, id, Approved), d)
  {
    var r := UpdateBookingStatus(stored, id, Approved);
    assert r[i].status == Approved && Covers(r[i], d);
  }

  /** Cancelling never makes a day unavailable that was available before. */
  lemma CancelNeverBlocks(blocked: seq<DayStatus>, stored: seq<Booking>, id: string, d: Day)
    ensures IsDateBlocked(blocked, UpdateBookingStatus(stored, id, Cancelled), d) ==> IsDateBlocked(blocked, stored, d)
  {
    var r := UpdateBookingStatus(stored, id, Cancelled);
    if IsBooked(r, d) {
      var j := ApprovedCovering(r, d).value;
      if HasId(stored, id) {
        var i := FindBooking(stored, id).value;
        assert FirstWithId(stored, id, i);
        assert r[j] == NormalizeBooking(stored[j]);
      }
      assert stored[j].status == Approved && Covers(stored[j], d);
    }
  }

  /** Cancelling the only Approved booking covering a day that has no flagged
      block entry frees the day on the public calendar. */
  lemma CancelFreesDates(blocked: seq<DayStatus>, stored: seq<Booking>, id: string, i: int, d: Day)
    requires FirstWithId(stored, id, i)
    requires !ManuallyBlocked(blocked, d)
    requires forall j :: 0 <= j < |stored| && j != i ==> !(stored[j].status == Approved && Covers(stored[j], d))
    ensures !IsDateBlocked(blocked, UpdateBookingStatus(stored, id, Cancelled), d)
  {
    var r := UpdateBookingStatus(stored, id, Cancelled);
    forall j | 0 <= j < |r| ensures !(r[j].status == Approved && Covers(r[j], d)) {
      if j != i {
        assert r[j] == NormalizeBooking(stored[j]);
      }
    }
  }

  /** The store has no transition guard: a Cancelled booking can be set
      Approved again, a step the dashboard's lifecycle does not offer. */
  lemma StoreIgnoresLifecycle(stored: seq<Booking>, id: string, i: int)
    requires FirstWithId(stored, id, i) && stored[i].status == Cancelled
    ensures UpdateBookingStatus(stored, id, Approved)[i].status == Approved
    ensures !LifecycleStep(stored[i].status, Approved)
  {
  }

  /** Approving checks no overlap: two requests for the same day, approved
      one after the other, are both Approved and both cover the day. */
  lemma OverlappingApprovalsAccepted(b1: Booking, b2: Booking, d: Day)
    requires b1.id != b2.id && Covers(b1, d) && Covers(b2, d)
    ensures var r := UpdateBookingStatus(UpdateBookingStatus([b1, b2], b1.id, Approved), b2.id, Approved);
      && |r| == 2
      && r[0].status == Approved && r[1].status == Approved
      && Covers(r[0], d) && Covers(r[1], d)
  {
    var s := [b1, b2];
    assert FirstWithId(s, b1.id, 0);
    var r1 := UpdateBookingStatus(s, b1.id, Approved);
    assert r1[1] == NormalizeBooking(b2);
    assert FirstWithId(r1, b2.id, 1);
    var r := UpdateBookingStatus(r1, b2.id, Approved);
    assert r[0] == NormalizeBooking(r1[0]);
  }
}
