/** The date-range selector: two clicks make a range. The public calendar
    refuses past and unavailable days and re-anchors a range that would cross
    an unavailable day; the administrator's reserve mode does neither. */
module Selector {
  import opened Calendar
  import opened Types
  import opened Availability

  /** The selection state: no start, a start only, or both ends. */
  datatype Selection = Selection(start: Option<Day>, end: Option<Day>)

  const NoSelection: Selection := Selection(None, None)

  predicate Complete(s: Selection) {
    s.start.Some? && s.end.Some?
  }

  predicate StartOnly(s: Selection) {
    s.start.Some? && s.end.None?
  }

  /** The public calendar's availability test (`isDateBlocked`) over the
      current blocked-date list and bookings, as the selector consults it. */
  function BlockedTest(blocked: seq<DayStatus>, bookings: seq<Booking>): Day -> bool {
    t => IsDateBlocked(blocked, bookings, t)
  }

  /** The public calendar accepts clicks on days from today on that are not
      taken. */
  predicate Accepted(date: Day, today: Day, taken: Day -> bool) {
    date >= today && !taken(date)
  }

  /** Whether any day from `lo` to `hi`, both included, is taken. */
  function TakenBetween(taken: Day -> bool, lo: Day, hi: Day): (r: bool)
    ensures r <==> exists t :: lo <= t <= hi && taken(t)
    decreases hi - lo
  {
    if lo > hi then false
    else taken(lo) || TakenBetween(taken, lo + 1, hi)
  }

  /** A complete selection is ordered and holds no taken day. */
  predicate RangeFree(s: Selection, taken: Day -> bool) {
    Complete(s) ==> s.start.value <= s.end.value && !TakenBetween(taken, s.start.value, s.end.value)
  }

  /** The public calendar's response to a click on `date`, `today` being the
      current day and `taken` its availability test. */
  function Click(s: Selection, date: Day, today: Day, taken: Day -> bool): (r: Selection)
    // a click on a past or taken day changes nothing
    ensures !Accepted(date, today, taken) ==> r == s
    // from no start or a complete range, the click starts a new range
    ensures Accepted(date, today, taken) && (s.start.None? || Complete(s)) ==>
      r == Selection(Some(date), None)
    // with a start only, an earlier click moves the start
    ensures Accepted(date, today, taken) && StartOnly(s) && date < s.start.value ==>
      r == Selection(Some(date), None)
    // with a start only, a later click closes the range unless the span holds
    // a taken day, in which case the click becomes the new start
    ensures Accepted(date, today, taken) && StartOnly(s) && date >= s.start.value ==>
      r == if exists t :: s.start.value <= t <= date && taken(t)
           then Selection(Some(date), None) else Selection(s.start, Some(date))
    // a complete range only ever arises ordered and free
    ensures RangeFree(s, taken) ==> RangeFree(r, taken)
  {
    if date < today || taken(date) then s
    else if s.start.None? || Complete(s) then Selection(Some(date), None)
    else if date < s.start.value then Selection(Some(date), None)
    else if TakenBetween(taken, s.start.value, date) then Selection(Some(date), None)
    else Selection(s.start, Some(date))
  }

  /** `handleDateClick` as the calendar runs it: the span from the start to
      the clicked day is scanned day by day, stopping at the first taken day. */
  method HandleDateClick(s: Selection, date: Day, today: Day, taken: Day -> bool) returns (r: Selection)
    ensures r == Click(s, date, today, taken)
  {
    if date < today || taken(date) {
      return s;
    }
    if s.start.None? || Complete(s) {
      return Selection(Some(date), None);
    }
    var start := s.start.value;
    if date < start {
      return Selection(Some(date), None);
    }
    var hasBlockedInBetween := false;
    var temp := start;
    while temp <= date
      invariant start <= temp <= date + 1
      invariant forall t :: start <= t < temp ==> !taken(t)
      invariant hasBlockedInBetween ==> taken(temp) && temp <= date
      decreases date + 1 - temp
    {
      if taken(temp) {
        hasBlockedInBetween := true;
        break;
      }
      temp := temp + 1;
    }
    if hasBlockedInBetween {
      r := Selection(Some(date), None);
    } else {
      r := Selection(s.start, Some(date));
    }
  }

  /** Clicking the start day again gives a one-day range. */
  lemma ClickOnStartGivesOneDay(start: Day, today: Day, taken: Day -> bool)
    requires start >= today && !taken(start)
    ensures Click(Selection(Some(start), None), start, today, taken) == Selection(Some(start), Some(start))
  {
  }

  /** The selection after a sequence of clicks. */
  function ClickAll(s: Selection, dates: seq<Day>, today: Day, taken: Day -> bool): Selection
    decreases |dates|
  {
    if |dates| == 0 then s
    else ClickAll(Click(s, dates[0], today, taken), dates[1..], today, taken)
  }

  /** Whatever the clicks, a complete range of the public selector, starting
      from a free selection, is ordered and holds no taken day, as long as the
      availability test stays as it was while selecting. */
  lemma {:induction false} ClicksKeepRangeFree(s: Selection, dates: seq<Day>, today: Day, taken: Day -> bool)
    requires RangeFree(s, taken)
    ensures RangeFree(ClickAll(s, dates, today, taken), taken)
    decreases |dates|
  {
    if |dates| > 0 {
      ClicksKeepRangeFree(Click(s, dates[0], today, taken), dates[1..], today, taken);
    }
  }

  /** `isInRange` (and the administrator's `isDayInSelection`): both ends set
      and the day between them, ends included. */
  predicate IsInRange(s: Selection, d: Day) {
    Complete(s) && s.start.value <= d <= s.end.value
  }

  /** Every day highlighted by a free selection is free. */
  lemma InRangeDaysAreAvailable(s: Selection, d: Day, taken: Day -> bool)
    requires RangeFree(s, taken) && IsInRange(s, d)
    ensures !taken(d)
  {
  }

  /** Whatever the clicks after a reset ("choose other dates", "make another
      request"), every day of a complete range the selector holds was
      available on the public calendar when it was selected. */
  lemma SelectedDaysAreAvailable(dates: seq<Day>, today: Day, blocked: seq<DayStatus>, bookings: seq<Booking>, d: Day)
    requires IsInRange(ClickAll(NoSelection, dates, today, BlockedTest(blocked, bookings)), d)
    ensures !IsDateBlocked(blocked, bookings, d)
  {
    var taken := BlockedTest(blocked, bookings);
    ClicksKeepRangeFree(NoSelection, dates, today, taken);
    InRangeDaysAreAvailable(ClickAll(NoSelection, dates, today, taken), d, taken);
  }

  /** The administrator's reserve-mode click: no past or availability check.
      A click with no start or on a complete range starts anew, a click before
      the start moves it, any other click closes the range. */
  function ReserveClick(s: Selection, date: Day): (r: Selection)
    ensures r.start.Some?
    ensures s.start.None? || Complete(s) ==> r == Selection(Some(date), None)
    ensures s.start.Some? && s.end.None? && date < s.start.value ==> r == Selection(Some(date), None)
    ensures s.start.Some? && s.end.None? && date >= s.start.value ==> r == Selection(s.start, Some(date))
    ensures Complete(r) ==> r.start.value <= r.end.value && r.end.value == date
  {
    if s.start.None? || Complete(s) then Selection(Some(date), None)
    else if date < s.start.value then Selection(Some(date), None)
    else Selection(s.start, Some(date))
  }

  /** Where a taken day lies between the start and an acceptable click, the
      public selector re-anchors at the click while reserve mode closes the
      range across the taken day. */
  lemma ReserveModeSpansBlockedDays(start: Day, t: Day, date: Day, today: Day, taken: Day -> bool)
    requires start <= t <= date && taken(t) && today <= date && !taken(date)
    ensures var s := Selection(Some(start), None);
      && ReserveClick(s, date) == Selection(Some(start), Some(date))
      && TakenBetween(taken, start, date)
      && Click(s, date, today, taken) == Selection(Some(date), None)
  {
  }
}
