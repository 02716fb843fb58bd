# Booking calendar core in Dafny

A model of the availability, pricing and booking-lifecycle core of a
single-property booking site (a country house rented by the day). Guests pick
a date range on a public calendar and send a request from a booking form
that shows a price estimate. The owner uses a dashboard to approve, reject
or cancel requests. On the same dashboard the owner blocks days, marks
special-price days, edits the pricing rule and enters manual bookings. A
browser-local store holds the bookings, the blocked-date list and the
pricing rule.

The model is written as pure functions over immutable data:

- `Calendar`: days are integers counted from 1970-01-01, the civil-date
  conversion has a proved round trip, and the `YYYY-MM-DD` day key is proved
  injective.
- `Types` and `Constants`: the records of the store, the initial pricing and
  the 2026 holiday table with its lookup.
- `Store`: the store operations. Every write re-reads the bookings through
  the read normalisation. An update whose id is not found writes nothing.
- `Availability`: when a day is unavailable on the public calendar and on
  the dashboard, and when the two calendars agree.
- `Pricing`: the per-day rate and the extra-guest surcharge. The quote
  loop is a method, proved equal to a closed form.
- `Selector`: the public two-click range selector and the dashboard's
  reserve-mode clicks. The selector takes the availability test as a
  parameter, and `Selector.BlockedTest` instantiates it with the public
  calendar's test.
- `BookingForm`: the estimate and submission of a guest request.
- `Admin`: the booking-action buttons, the pricing editor's clamps, the
  three calendar click modes and manual bookings.
- `Lifecycle`: how status changes reach the calendars.
- `Quotes`: worked quotes under the initial pricing.

The code leaves the following unchecked, and the model follows the code:

- Approving a booking does not re-check it against other Approved bookings
  (`Lifecycle.OverlappingApprovalsAccepted`).
- The store does not enforce the lifecycle: it sets any status on any
  booking, including making a Cancelled booking Approved again
  (`Lifecycle.StoreIgnoresLifecycle`). Only the dashboard's buttons follow
  the lifecycle Pending → Approved/Rejected, Approved → Cancelled
  (`Admin.ActionsFollowLifecycle`).
- Submitting a request and creating a manual booking check nothing against
  the calendar. The public selector keeps blocked days out of the range, but
  neither the form nor the store checks the range again.
- A deposit is stored as entered, with no clamp to the total price
  (`Admin.DepositAboveTotalGivesNegativeBalance`).

Creating a booking leaves the existing records unchanged only when they are
already normalised. The store writes back the re-read, normalised list
(`Store.CreateBooking`).

## Model

| member | source | states |
|---|---|---|
| `Calendar.CivilRoundTrip` | constants.ts:48-50 | The year, month and day read off a day determine that day again: converting a day to its civil date and back gives the same day. |
| `Calendar.CivilOfDayInjective` | constants.ts:48-50 | Two days with the same year, month and day are the same day. |
| `Calendar.NatToStringInjective` | constants.ts:48 | Rendering a number in decimal loses nothing: equal renderings mean equal numbers. |
| `Calendar.IsoKeyLength` | constants.ts:51 | A `YYYY-MM-DD` key of a four-digit year is ten characters long. |
| `Calendar.IsoKeyInjective` | constants.ts:49-51 | Zero-padding month and day keeps keys apart: different valid dates have different keys. |
| `Calendar.DayKeyInjective` | constants.ts:47-51 | Comparing day keys, as every date lookup of the system does, is comparing days: equal keys mean the same day. |
| `Calendar.DayKeyYearPrefix` | constants.ts:51 | A day's key starts with its year, then a dash, then five more characters. |
| `Constants.Lookup` | constants.ts:52 | A key yields a name exactly when the table has an entry under that key, and the name comes from such an entry. |
| `Constants.HolidayName` | constants.ts:47-53 | A holiday name always comes from a table entry under the day's key and is never empty: an empty name counts as none, as `|| null` makes it. |
| `Constants.HolidayEntry` | constants.ts:32-45 | Each entry of the holiday table is keyed by the `YYYY-MM-DD` key of its date, and that date is the civil date of the entry's day. |
| `Constants.HolidayNameByDay` | constants.ts:47-53 | A day has a holiday name exactly when it is one of the twelve 2026 holidays, so the pricing's holiday test is the table lookup. |
| `Constants.HolidayKeysIn2026` | constants.ts:32-45 | Every key of the holiday table is a ten-character 2026 key. |
| `Constants.HolidaysOnlyIn2026` | constants.ts:32-45 | A day that has a holiday name lies in 2026. In any other year no day gets the holiday rate. |
| `Store.NormalizeBooking` | services/mockBackend.ts:40-44 | A record read back always has a payment status and a deposit. A missing one reads as Pending or 0, and every other field is kept. |
| `Store.GetBookings` | services/mockBackend.ts:36-45 | Reading gives one normalised record per stored record, in the same order. |
| `Store.GetBookingsFixesNormalized` | services/mockBackend.ts:40-44 | A list whose records are already normalised reads back unchanged. |
| `Store.GetBookingsIdempotent` | services/mockBackend.ts:40-44 | Reading twice is reading once. |
| `Store.FindBooking` | services/mockBackend.ts:66 | The lookup by id returns the first position holding the id, or nothing when no record has it. |
| `Store.NewBooking` | services/mockBackend.ts:49-56 | A new record is Pending, payment Pending and deposit 0 unless the caller supplies these. It carries the caller's other fields and the generated id and timestamp. |
| `Store.CreateBooking` | services/mockBackend.ts:47-61 | Creation appends exactly one new record to the re-read list. The earlier records are only normalised, and unchanged when already normalised. |
| `Store.UpdateBookingStatus` | services/mockBackend.ts:63-71 | Only the first record with the id gets the new status, whatever its old status. The other records are only normalised, and an unknown id changes nothing. |
| `Store.UpdatePaymentStatus` | services/mockBackend.ts:73-83 | Only the first record with the id gets the payment label. No record's status or id changes, and an unknown id changes nothing. |
| `Store.UpdateDepositAmount` | services/mockBackend.ts:85-93 | The first record with the id stores exactly the amount given. No record's status changes, and an unknown id changes nothing. |
| `Store.FindDate` | services/mockBackend.ts:104 | The lookup by date returns the first entry for the date, or nothing when the list has no entry for it. |
| `Store.ToggleDateBlock` | services/mockBackend.ts:101-111 | An unlisted date gets one flagged entry appended. A listed date loses exactly one entry, the first one. No other date's presence changes, and in a list without duplicates the date's presence flips. |
| `Store.RemoveAtEntries` | services/mockBackend.ts:106 | Removing the entry at a position keeps every other entry, in order, and shortens the list by one. |
| `Store.ToggleKeepsListWellFormed` | services/mockBackend.ts:104-108 | Toggling keeps the dates of the blocked list distinct and every entry flagged. |
| `Store.ToggleTwiceRestores` | services/mockBackend.ts:101-111 | In a list without duplicates, which every toggle keeps, toggling a date twice restores which dates are listed. It restores the list itself when the date was not listed. |
| `Availability.HasBlockEntry` | pages/AdminDashboard.tsx:233 | The dashboard's block test holds exactly when any entry has the day's key, whatever its flag. |
| `Availability.ApprovedCovering` | pages/AdminDashboard.tsx:234-240 | Finds an Approved booking whose inclusive span covers the day, and finds none exactly when no Approved booking covers it. |
| `Availability.IsDateBlockedMeaning` | pages/PublicHome.tsx:31-49 | A day is unavailable exactly when a flagged entry has its key or an Approved booking's inclusive span covers it. |
| `Availability.GetDateStatus` | pages/AdminDashboard.tsx:231-242 | The dashboard shows a day blocked exactly when the list has an entry for it, and booked exactly when an Approved booking covers it. |
| `Availability.CalendarsAgree` | pages/AdminDashboard.tsx:233 | When every entry carries the blocked flag, the dashboard and the public calendar agree on which days are taken. |
| `Availability.NonApprovedBookingNeverBlocks` | pages/PublicHome.tsx:38-39 | Adding a booking that is not Approved changes no day's availability. |
| `Pricing.DayCount` | pages/AdminDashboard.tsx:85-86 | A stay counts at least one day. For an ordered range it counts every day from start to end, both ends included. |
| `Pricing.Surcharge` | pages/AdminDashboard.tsx:105-107 | A guest count at or below the threshold adds nothing. Above it, with a non-negative extra price, the surcharge is non-negative, and positive for a positive price. |
| `Pricing.Round` | components/BookingForm.tsx:61 | The total is rounded to the nearest integer, halves upward. |
| `Pricing.RoundMonotone` | components/BookingForm.tsx:61 | Rounding never reverses the order of two totals. |
| `Pricing.BaseSpecStep` | pages/AdminDashboard.tsx:94-102 | One more day adds exactly that day's rate: the daily price, multiplied once on a premium day, however many premium conditions hold. |
| `Pricing.BaseTotalClosedForm` | pages/AdminDashboard.tsx:88-103 | The running total after n days equals the closed form: every day at the daily price, plus (multiplier − 1) × daily price per premium day. |
| `Pricing.QuoteFromTotal` | pages/AdminDashboard.tsx:105-108 | The quote is the rounded sum of the day total and the surcharge. |
| `Pricing.IsMultiplied` | pages/AdminDashboard.tsx:91-99 | A day is multiplied exactly when it is a Friday, Saturday or Sunday, a special-price date or a holiday. |
| `Pricing.DailyRate` | pages/AdminDashboard.tsx:94-101 | The rate the loop charges for a day is that day's rate. |
| `Pricing.SumDailyRates` | components/BookingForm.tsx:39-54 | The loop's total over the priced days equals the closed form: every day at the daily price, plus (multiplier − 1) × daily price for each premium day. |
| `Pricing.BaseSpecBounds` | pages/AdminDashboard.tsx:94-102 | With valid pricing a stay costs between the plain and the fully multiplied daily price for every day. |
| `Pricing.QuoteMonotoneInGuests` | pages/AdminDashboard.tsx:105-107 | With a non-negative extra price, more guests never lower the quote. |
| `Pricing.LongerMaskCostsMore` | pages/AdminDashboard.tsx:94-107 | With valid pricing, one more day at any rate, with its surcharge, never lowers the unrounded total. |
| `Pricing.QuoteMonotoneInLength` | pages/AdminDashboard.tsx:85-108 | With valid pricing, extending a stay by one day never lowers the quote. |
| `Selector.TakenBetween` | pages/PublicHome.tsx:63-71 | True exactly when some day between the two ends, both included, is unavailable. |
| `Selector.Click` | pages/PublicHome.tsx:51-79 | Past and unavailable days are ignored. A first click, or a click after a complete range, starts anew, and an earlier click moves the start. A later click closes the range only when no day in between is unavailable, and otherwise becomes the new start. A free range stays free. |
| `Selector.HandleDateClick` | pages/PublicHome.tsx:51-79 | Scanning the span day by day and stopping at the first unavailable day gives the same selection as the rule above. |
| `Selector.ClickOnStartGivesOneDay` | pages/PublicHome.tsx:62-76 | Clicking the start day again gives a one-day range. |
| `Selector.ClicksKeepRangeFree` | pages/PublicHome.tsx:51-79 | After any sequence of clicks, a complete range is ordered and holds no unavailable day, as long as the calendar data does not change meanwhile. |
| `Selector.InRangeDaysAreAvailable` | pages/PublicHome.tsx:81-84 | Every day highlighted by a free range is available. |
| `Selector.SelectedDaysAreAvailable` | pages/PublicHome.tsx:51-84 | After a reset and any clicks, every day of a complete range the public selector holds is available. |
| `Selector.ReserveClick` | pages/AdminDashboard.tsx:152-163 | Reserve mode has no past or availability check. A first click or a click on a complete range starts anew, an earlier click moves the start, and any other click closes the range at the clicked day. |
| `Selector.ReserveModeSpansBlockedDays` | pages/AdminDashboard.tsx:152-163 | For any availability test, with an unavailable day between start and click, reserve mode closes the range across it, while the public selector re-anchors at the click. |
| `BookingForm.Calculate` | components/BookingForm.tsx:26-62 | Without a range the estimate is unchanged. With one, the estimate is the quote of the range for the entered guests. |
| `BookingForm.SubmittedDraft` | components/BookingForm.tsx:73-82 | The request carries the range's ends and the estimate as total price. It sets no status, payment status, deposit or manual flag. |
| `BookingForm.HandleSubmit` | components/BookingForm.tsx:67-90 | Without a range nothing is stored. With one, exactly one record is appended: Pending, payment Pending, deposit 0, priced at the estimate, with the form's guests and range. |
| `BookingForm.OverCapacityStillSubmitted` | components/BookingForm.tsx:146-148 | The capacity warning is advisory: a request over capacity is stored all the same. |
| `Admin.AvailableActions` | pages/AdminDashboard.tsx:357-384 | Approve and reject are offered exactly on Pending bookings and cancel exactly on Approved ones. Rejected and Cancelled bookings offer nothing. |
| `Admin.ActionsFollowLifecycle` | pages/AdminDashboard.tsx:357-384 | A button leads from a status to another exactly when the lifecycle allows that step. |
| `Admin.HandleBookingAction` | pages/AdminDashboard.tsx:113-135 | A declined confirmation changes nothing. A confirmed one sets the action's status in the store. |
| `Admin.OfferedActionIsLifecycleStep` | pages/AdminDashboard.tsx:357-384 | A confirmed action offered on a booking moves it one lifecycle step. |
| `Admin.Balance` | pages/AdminDashboard.tsx:310 | Balance plus deposit is the total price, and a missing deposit counts as none. |
| `Admin.DepositAboveTotalGivesNegativeBalance` | pages/AdminDashboard.tsx:343 | A deposit above the total is stored as entered and leaves a negative balance. |
| `Admin.EditPricing` | pages/AdminDashboard.tsx:527-540 | Each edit stores the entered value raised to its field's bound: price and extra price at least 0, multiplier and threshold at least 1. The other fields are kept and valid pricing stays valid. |
| `Admin.EditsKeepPricingValid` | pages/AdminDashboard.tsx:527-540 | No sequence of edits takes valid pricing out of the editor's bounds. |
| `Admin.InitialPricingValid` | constants.ts:19-25 | The initial pricing is within the editor's bounds and lists no special dates. |
| `Admin.RemoveAll` | pages/AdminDashboard.tsx:146 | Filtering removes every copy of the date and keeps every other date. |
| `Admin.ToggleSpecialDate` | pages/AdminDashboard.tsx:145-147 | A listed date is removed and an unlisted one appended. No other date's presence changes. |
| `Admin.ToggleSpecialTwice` | pages/AdminDashboard.tsx:145-148 | Toggling a special date twice restores which dates are listed, even with duplicates. It restores the list itself when the date was not listed. |
| `Admin.ReserveModeClick` | pages/AdminDashboard.tsx:151-164 | The reserve click moves the selection and opens the manual form exactly when the range becomes complete. |
| `Admin.HandleDayClick` | pages/AdminDashboard.tsx:137-165 | Block mode toggles the day's stored entry and reloads the stored pricing. Special-price mode does nothing before pricing is loaded, and otherwise flips the day's listing, stores the whole local pricing and changes nothing else. Reserve mode writes nothing to the store; it moves the selection and opens or closes the manual form. |
| `Admin.DayClickKeepsSound` | pages/AdminDashboard.tsx:137-165 | Every click keeps the pricing valid, every blocked entry flagged, and the form open exactly on a complete, ordered range. |
| `Admin.BlockClickTwiceRestores` | pages/AdminDashboard.tsx:140-142 | In a blocked list without duplicates, which every toggle keeps, two block-mode clicks on the same day restore which days are blocked. |
| `Admin.CalculatePrice` | pages/AdminDashboard.tsx:79-109 | Without both ends and loaded pricing the manual price is unchanged. Otherwise it becomes the quote of the selection for the entered guests. |
| `Admin.OrDefault` | pages/AdminDashboard.tsx:172-174 | An empty field falls back to the default, and any other value is kept. |
| `Admin.ManualDraft` | pages/AdminDashboard.tsx:171-182 | A manual booking is Approved and flagged manual, priced exactly as entered, fractions included. Missing name, email or phone take their defaults. |
| `Admin.CreateManualBooking` | pages/AdminDashboard.tsx:167-195 | Without a complete selection nothing happens. Otherwise one Approved manual booking is appended, the selection and the form are cleared (the price field keeps its value) and the form closes. |
| `Admin.ManualBookingBlocksItsRange` | pages/AdminDashboard.tsx:179 | Every day of a manual booking's range is unavailable afterwards, with no check against existing bookings. |
| `Admin.ManualBookingKeepsSound` | pages/AdminDashboard.tsx:184-191 | Creating a manual booking keeps the dashboard sound. |
| `Lifecycle.ApproveBlocksRange` | pages/AdminDashboard.tsx:116-117 | Approving a booking makes every day of its range unavailable. |
| `Lifecycle.CancelNeverBlocks` | pages/AdminDashboard.tsx:120-121 | Cancelling never makes an available day unavailable. |
| `Lifecycle.CancelFreesDates` | pages/AdminDashboard.tsx:120-121 | Cancelling the only Approved booking covering an otherwise free day frees that day on the public calendar. |
| `Lifecycle.StoreIgnoresLifecycle` | services/mockBackend.ts:63-71 | The store sets a Cancelled booking Approved again, a step the lifecycle does not allow. |
| `Lifecycle.OverlappingApprovalsAccepted` | services/mockBackend.ts:63-71 | Two requests covering the same day can both be approved; both end Approved. |
| `Quotes.SaturdayForTen` | constants.ts:19-25 | Under the initial pricing, one Saturday for 10 guests costs 78000: multiplied once, and no surcharge at the threshold. |
| `Quotes.ThreeWeekdaysForTwelve` | constants.ts:19-25 | Under the initial pricing, Monday to Wednesday for 12 guests costs 210000: 180000 for the days plus 2 × 5000 × 3. |
| `Quotes.GoodFridayMultipliedOnce` | constants.ts:38 | Good Friday 2026 is both a weekend day and a holiday, and is charged 78000, not 60000 × 1.3 × 1.3. |

## Left out

- The hand-off from the public selector to the booking form. The page passes the selection with non-null assertions (pages/PublicHome.tsx:310), and the calendar stays clickable while the form is open, so a click can restart the range and leave its end unset. The form then reads the missing end (components/BookingForm.tsx:79 and 99) and fails. The model's form takes a complete range or none, so this state and its failure are not modelled. `Selector.SelectedDaysAreAvailable` speaks of complete ranges only.
- Constants.HolidayName: its own contract states one direction only: a name comes from a table entry under the day's key and is non-empty. The converse, that every listed day gets its name, is `Constants.HolidayNameByDay`, because proving it needs the civil date of each entry.
- Time zones and times of day. Every date is a whole day. The code builds the dashboard's key and the special-price key from the UTC date, and the holiday key and the public block key from the local date. The model uses one key for all of them, so it assumes the browser's time zone is UTC.
- The millisecond day count `Math.ceil(|end − start| / 86400000) + 1` becomes the whole-day distance plus one. With whole days the two agree. Days across a daylight-saving change are not modelled.
- Floating point. Money and the multiplier are exact reals, so `1.3` is exactly 13/10. JavaScript's rounding error in sums and NaN from an emptied guest field (`parseInt("")` in the booking form) is not modelled. An emptied field of the pricing editor reads as 0 and is clamped, which the model covers. Guest counts and the guest threshold are integers.
- Persistence and timing: `localStorage`, JSON, the artificial delays and the asynchronous calls are not modelled. Stored lists are values passed in and returned. Interleavings of two sessions, for example a read-modify-write race, are not modelled.
- Generated ids and timestamps (`Math.random`, `new Date()`) are parameters. Ids are not assumed unique, and "today" is a parameter of the public selector.
- The confirmation dialog is the `confirmed` parameter. Error alerts and the saving spinner are not modelled.
- The pricing the booking form loads (`getPricing`, with the initial pricing as fallback) and the configured maximum capacity are parameters. The estimate the form submits is a parameter too, since the code computes it asynchronously.
- `getPricing`/`updatePricing` are not separate members: storing pricing is replacing the `pricing` field of the stored state.
- `handleSaveAll` is not modelled. It stores the dashboard's pricing and the property configuration as a whole. The configuration (texts, images, capacity) is outside this core.
- Image upload and removal, month navigation, login, the page shell and all rendering are not modelled.
- The AI assistant service is not modelled. It only reads pricing and never writes bookings.
- The `bookingId` field of a blocked-date entry is carried but never set, as in the code.
