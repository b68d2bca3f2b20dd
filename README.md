# QuestScout reservation engine in Dafny

A model of the QuestScout escape-room booking system.

The centre is the API's reservation engine. It covers:

- the slot lattice `availableSlots` offers;
- the booking table with `createBooking`, `deleteBooking`, `updateBookingPayment`, `updateBooking` and `getSingleBooking`;
- the owner-or-admin access rule;
- the two independent booking enums, `status` and `payment_status`, with their column defaults;
- the hourly `completeExpiredBookings` sweep.

Around it sits the client logic that decides what a customer can book and what the admin sees:

- the booking calendar;
- the older fixed 12:00–20:00 slot generator;
- both booking forms;
- the card-payment dialog;
- both copies of the room catalogue's filter and sort;
- the admin dashboard's revenue and top-room aggregates;
- the sign-up form's checks.

The model works in these units and state:

- Dates are day numbers. Times are minutes since midnight.
- The clock `now` is a parameter.
- The database is a map from booking id to row. The catalogue is a map from room id to room.
- Prices and amounts are integers.

The modules and what each holds:

- **`Reservations`** states every server mutation as a pure function from the table, the caller and the arguments to an outcome and a new table. It proves:
  - the table's consistency invariant and the no-double-booking invariant (at most one active booking per room, date and time) for every mutation;
  - that `updateBooking` is the exception, with a concrete table on which it breaks the invariant;
  - that the sweep is idempotent.
- **`Store`** holds the class `BookingStore`. Its methods run the same operations step by step (the nested slot loops, the sweep's loop over the active rows) and are proved equal to those functions.
- **The client pages** are classes whose methods update the React state they model. JavaScript's `parseInt`, NaN, `toLowerCase`, `trim`, `includes`, string `<` and the stable `Array.prototype.sort` are spelled out (modules `Js`, `Sequences`). Times and dates as the pages write and read them are in module `Clock`.

Behaviour of the reservation engine worth knowing, which the model follows as written:

- `createBooking` runs its room, player-count and free-slot checks inside one `try`. All three failures are rethrown as the same `ApolloError` ("Failed to create booking. Please try again."). They are not distinct errors.
- Nothing keeps `payment_status` monotonic. `updateBookingPayment` stores any of the three ENUM values on any booking the caller may access, so a completed or cancelled payment can return to pending.
- The admin's `updateBooking` writes its input without checking the slot. It can re-activate a cancelled booking on a slot that another active booking holds (`Reservations.UpdateBookingCanDoubleBook`).
- A room's `duration` is any integer. No resolver checks it (server/schemas/resolvers.js:676-704), and the room form's menu is the only place that offers just 60, 90 and 120. For a duration of 0 or less the inner loop of `availableSlots` never ends. The model answers no slot for such a room instead; see "## Findings".
- The sweep has no login check and reports no partial failure. It always answers `true`. A database error midway ends it with the generic error, and rows already updated stay updated.

Two more modelling notes:

- The sign-up form shows its "already in use" message only when the server's error text is exactly "Email is already in use.". The server's answer is a parameter of the model. The server's `createUser` throws that text inside its `try` (server/schemas/resolvers.js:421-423), and its `catch` rethrows every error as "Failed to create user. Please try again." (server/schemas/resolvers.js:436-438). Against this server the form's specific branch is therefore never taken (`SignUpForm.CreateUserFailureIsGeneric`).
- Descending sorts use the comparator `key(b) - key(a)`, not a reversed list. An unknown difficulty therefore sorts last on the newer page and first on the older one.

## Model

| member | source | states |
|---|---|---|
| BookingModel.ParseStatus | client/server/models/Booking.js:51-54 | the `status` ENUM accepts exactly "active", "completed" and "cancelled", each naming its own state |
| BookingModel.ParsePaymentStatus | client/server/models/Booking.js:41-44 | the `payment_status` ENUM accepts exactly "pending", "completed" and "cancelled", each naming its own state |
| BookingModel.InsertWithDefaults | client/server/models/Booking.js:6-62 | a row inserted with only the required columns is active, payment pending, with no amount and no method, and both timestamps set to the insert time |
| BookingModel.PaymentStatusView | server/schemas/resolvers.js:772 | the API always shows a string the `payment_status` ENUM accepts: the stored status's own name, or the column default "pending" when none is stored |
| BookingModel.PaymentAmountView | server/schemas/resolvers.js:773 | the shown amount is 0 exactly when the stored amount is null or 0, and otherwise is the stored amount |
| BookingModel.PaymentMethodView | server/schemas/resolvers.js:774 | only a non-empty stored method is shown, and every non-empty one is; an empty or missing one reads as null |
| Reservations.Touch | server/schemas/resolvers.js:306 | an update that changes no column leaves the row as it was; any other writes the new row with `updated_at` set to now |
| Reservations.CreateBookingRejection | server/schemas/resolvers.js:531-556 | the booking may be created iff the room exists, the player count is within its min and max, and no active booking holds that room, date and time; an unknown room is the not-found error |
| Reservations.CreateBookingSpec | server/schemas/resolvers.js:521-574 | no user gives the login error; any failed check is rethrown as the generic failure; a failure leaves the table as it was; success adds exactly one row under the next id, owned by the caller, active, payment pending, amount price × players, no method |
| Reservations.CreateBookingPreserves | server/schemas/resolvers.js:521-574 | creating keeps the table consistent and never double-books a slot, and every earlier row is unchanged |
| Reservations.CreatedRowIsDefaultInsert | server/schemas/resolvers.js:558-566 | the "pending" and "active" that `createBooking` passes are the column defaults, so the new row is the defaults insert with only the amount price × players added |
| Reservations.CreatedBookingView | server/schemas/resolvers.js:771-775 | through the Booking field resolvers a new booking reads as payment "pending", price × players as amount, and null as method |
| Reservations.DeleteBookingSpec | server/schemas/resolvers.js:576-606 | login, not-found and forbidden errors in that order, each leaving the table as it was; otherwise the answer is true, an admin removes the row and an owner sets status and payment status to cancelled with every other row kept |
| Reservations.DeleteBookingPreserves | server/schemas/resolvers.js:576-606 | deleting or cancelling keeps the table consistent and never double-books |
| Reservations.UpdateBookingPaymentSpec | server/schemas/resolvers.js:314-349 | login, not-found and forbidden errors leave the table as it was; on success the payment status and method are stored as given, the amount becomes price × players whatever the client sent, and the status is unchanged; a status outside the ENUM fails as the generic error |
| Reservations.UpdateBookingPaymentPreserves | server/schemas/resolvers.js:314-349 | paying keeps the table consistent and never double-books |
| Reservations.PaidBookingView | server/schemas/resolvers.js:771-775 | through the field resolvers a paid booking reads as the status string given, price × players as amount whatever the client sent, and the method given, an empty one as null |
| Reservations.UpdateAmount | server/schemas/resolvers.js:301-304 | when the input marks the payment completed and the row has no amount (null or 0), the amount becomes price × players; otherwise it is the input's |
| Reservations.UpdateAmountFillsShownZero | server/schemas/resolvers.js:301-304 | the `!booking.payment_amount` test is the test that the API shows the amount as 0: price × players is filled in exactly for a row that reads as unpaid and is being marked completed |
| Reservations.ApplyInput | server/schemas/resolvers.js:306 | each field present in the input is written as given, every absent field and the slot, owner and players are kept |
| Reservations.UpdateBookingSpec | server/schemas/resolvers.js:288-312 | only an admin may update, and an unknown id is not found, both leaving the table as it was; on success exactly that row is replaced by the input applied to it |
| Reservations.UpdateBookingKeepsStore | server/schemas/resolvers.js:288-312 | the admin's update keeps the table consistent |
| Reservations.UpdateBookingPreservesNoDoubleBooking | server/schemas/resolvers.js:288-312 | the admin's update keeps the no-double-booking invariant whenever it does not re-activate a booking onto a slot an active booking holds |
| Reservations.UpdateBookingCanDoubleBook | server/schemas/resolvers.js:306 | a concrete table on which an admin re-activates a cancelled booking onto a held slot: the update succeeds and the table then holds two active bookings for one slot |
| Reservations.GetSingleBooking | server/schemas/resolvers.js:185-214 | the booking is returned iff the caller is logged in, it exists and the caller owns it or is an admin; each failure has its own error |
| Reservations.CanAccess | server/schemas/resolvers.js:207 | an admin may access every booking; anyone else exactly the bookings they own |
| Reservations.SlotTaken | server/schemas/resolvers.js:545-552 | only an active row of the same room can hold a slot, so an empty table holds none |
| Reservations.SweepOne | server/schemas/resolvers.js:361-381 | a row that is not active or has not ended is unchanged; an ended active paid row becomes completed; an ended active unpaid row gets status and payment status cancelled; the result is never an ended active row |
| Reservations.SweepSpec | server/schemas/resolvers.js:351-388 | the sweep keeps every id and treats each row as `SweepOne` does |
| Reservations.SweepEffect | server/schemas/resolvers.js:351-388 | after the sweep no active booking has ended, and a row changed iff it was active and had ended |
| Reservations.SweepIdempotent | server/schemas/resolvers.js:351-388 | a second sweep with the same clock changes nothing |
| Reservations.SweepPreserves | server/schemas/resolvers.js:351-388 | the sweep keeps the table consistent and never double-books |
| Reservations.AvailableSlotsSpec | server/schemas/resolvers.js:56-113 | an unknown room is the "Escape room not found" error; any known room gets a list of slots; a room whose duration is not positive gets none (the corrected behaviour of the finding below) |
| Reservations.Free | server/schemas/resolvers.js:86-103 | a start that has already begun is never offered; with no bookings every future start is |
| Reservations.SlotWalkNeverEnds | server/schemas/resolvers.js:78-107 | with a duration of 0 or less, after any number of passes the inner loop still holds `currentTime < endTime` and skips the break, so it never ends |
| Reservations.DayFrom | server/schemas/resolvers.js:78-107 | every slot one day's walk keeps is on that day |
| Reservations.RangeSlots | server/schemas/resolvers.js:72-110 | every slot of the walk over a range of days is on a day of the range |
| Reservations.DayFromStep | server/schemas/resolvers.js:78-107 | one step of the walk through a day: this start is kept or not, then the walk goes on one duration later |
| Reservations.DayFromMember | server/schemas/resolvers.js:78-107 | a slot is kept on a day iff its time is on the lattice from the given start and it is free |
| Reservations.RangeSlotsMember | server/schemas/resolvers.js:72-110 | a slot is kept over a range of days iff its day is in the range, its time on the room's lattice and it is free |
| Reservations.AvailableSlotsMembership | server/schemas/resolvers.js:72-107 | a slot is offered iff its date is in the inclusive range, its start is 10:00 plus a multiple of the duration and ends by 22:00, it is strictly after now and no active booking holds it |
| Reservations.DayFromChronological | server/schemas/resolvers.js:78-107 | one day's slots are time-ascending and no earlier than the start |
| Reservations.RangeSlotsChronological | server/schemas/resolvers.js:72-110 | over a range of days the slots are date-ascending and time-ascending within a date |
| Reservations.AvailableSlotsChronological | server/schemas/resolvers.js:72-112 | the offered slots are date-ascending and time-ascending within a date, with no repeats |
| Reservations.ActiveOnly | server/schemas/resolvers.js:89-96 | the table restricted to exactly its active rows |
| Reservations.DayFromActiveOnly | server/schemas/resolvers.js:89-96 | one day's slots depend only on the active rows |
| Reservations.RangeSlotsActiveOnly | server/schemas/resolvers.js:89-96 | the slots of a range of days depend only on the active rows |
| Reservations.AvailableSlotsIgnoresInactive | server/schemas/resolvers.js:88-103 | cancelled and completed bookings never block a slot: the answer is that of the active rows alone |
| Store.BookingStore.constructor | client/server/models/Booking.js:8-12 | an empty consistent table with the auto-increment counter at 1 |
| Store.BookingStore.DaySlots | server/schemas/resolvers.js:74-107 | the walk through one day returns exactly that day's kept starts, as `DayFrom` from 10:00 gives them |
| Store.BookingStore.AvailableSlots | server/schemas/resolvers.js:56-113 | the unknown room fails; a room of no positive duration gets no slot; otherwise the loop over the days, each walked by `DaySlots`, returns exactly `AvailableSlotsSpec` |
| Store.BookingStore.CreateBooking | server/schemas/resolvers.js:521-574 | the answer, the new table and counter are those of `CreateBookingSpec`, and the table stays consistent |
| Store.BookingStore.DeleteBooking | server/schemas/resolvers.js:576-606 | the answer and the new table are those of `DeleteBookingSpec`, and the table stays consistent |
| Store.BookingStore.UpdateBookingPayment | server/schemas/resolvers.js:314-349 | the answer and the new table are those of `UpdateBookingPaymentSpec`, and the table stays consistent |
| Store.BookingStore.UpdateBooking | server/schemas/resolvers.js:288-312 | the answer and the new table are those of `UpdateBookingSpec`, and the table stays consistent |
| Store.BookingStore.CompleteExpiredBookings | server/schemas/resolvers.js:351-388 | the loop over the active rows answers true and leaves exactly `SweepSpec` of the old table |
| Clock.InstantOrder | server/schemas/resolvers.js:86-88 | one slot is before another iff its day is earlier, or the day is the same and its time earlier |
| Clock.LatticeFromShape | server/schemas/resolvers.js:74-83 | the starts from `t` on are exactly `t`, `t + d`, `t + 2d`, … while the slot ends by 22:00, and the next one would not |
| Clock.LatticeBounds | server/schemas/resolvers.js:74-83 | start `i` of a room's day is 10:00 plus `i` durations, at or after 10:00, and its slot ends by 22:00 |
| Clock.LatticeCount | server/schemas/resolvers.js:74-106 | a day has ⌊720 / duration⌋ starts |
| Clock.LatticeMember | server/schemas/resolvers.js:74-106 | a time is a start iff it is at or after 10:00, a whole number of durations after it, and its slot ends by 22:00 |
| Clock.LatticeIncreasing | server/schemas/resolvers.js:78-106 | the starts are strictly increasing |
| Clock.LatticeOfHour | client/src/components/BookingCalendar/BookingCalendar.js:24-42 | a 60-minute room has 12 starts, 10:00 to 21:00 |
| Clock.LatticeOfNinetyMinutes | client/src/components/BookingCalendar/BookingCalendar.js:24-42 | a 90-minute room has 8 starts, the last at 20:30 |
| Clock.TwoDigits | server/schemas/resolvers.js:85 | a number below 100 is written as two digits |
| Clock.FormatTime | server/schemas/resolvers.js:85 | a time of day is written as eight characters, "HH:mm:ss" |
| Clock.ParseFormatTime | server/schemas/resolvers.js:85-86 | reading back a written time gives the time |
| Clock.FormatParseTime | server/schemas/resolvers.js:85-86 | writing a time that was read gives the original string |
| Clock.FormatTimeInjective | server/schemas/resolvers.js:85 | two times have the same label iff they are equal |
| Clock.StringLessSame | client/BookingForm.js:52-54 | strings with a common prefix compare as their remainders do |
| Clock.StringLessDiff | client/BookingForm.js:52-54 | strings first differing at position `k` compare as their characters there |
| Clock.StringLessIrreflexive | client/BookingForm.js:52-54 | no string is less than itself |
| Js.StringLessAsymmetric | client/BookingForm.js:52-54 | string `<` never holds both ways |
| Js.StringLessTransitive | client/BookingForm.js:52-54 | string `<` is transitive, so with irreflexivity it is a strict order |
| Clock.FormatTimeOrder | client/BookingForm.js:52-54 | on "HH:mm:ss" labels, JavaScript's string `<` is the order of the times |
| Clock.IsoWeekday | client/src/components/BookingCalendar/BookingCalendar.js:16-19 | the ISO day of the week is between Monday (0) and Sunday (6) |
| Clock.WeekStart | client/src/components/BookingCalendar/BookingCalendar.js:16-19 | `startOf("isoWeek")` is a Monday, at most six days before the day |
| Clock.WeekStartOfWeekDay | client/src/components/BookingCalendar/BookingCalendar.js:16-19 | every day of a week has that week's Monday as its week start |
| Clock.FourDigits | client/src/components/BookingCalendar/BookingCalendar.js:59-60 | a number below 10000 is written as four digits |
| Clock.FormatIsoDate | client/src/components/BookingCalendar/BookingCalendar.js:59-60 | a valid date is written as ten characters, "YYYY-MM-DD" |
| Clock.ParseIsoDate | client/src/pages/AdminDashboard/AdminDashboard.js:68-75 | a date read from "YYYY-MM-DD" is a valid calendar date |
| Clock.TwoDigitsValue | client/src/components/BookingCalendar/BookingCalendar.js:59-60 | two written digits read back as their number |
| Clock.FourDigitsValue | client/src/components/BookingCalendar/BookingCalendar.js:59-60 | four written digits read back as their number |
| Clock.ParseFormatIsoDate | client/src/components/BookingCalendar/BookingCalendar.js:59-60 | reading back a written date gives the date |
| Clock.MonthOfIndex | client/src/pages/AdminDashboard/AdminDashboard.js:63-66 | the month of a month count is between 1 and 12 |
| Clock.MonthIndexRoundTrip | client/src/pages/AdminDashboard/AdminDashboard.js:63-66 | a month count is recovered from its year and month |
| Clock.MonthIndexInverse | client/src/pages/AdminDashboard/AdminDashboard.js:63-66 | the year and month are recovered from their month count |
| Js.DigitPrefix | client/src/components/BookingFormComponent/BookingForm.js:43 | the digits `parseInt` reads are the longest all-digit prefix |
| Js.SkipSpaces | client/src/components/BookingFormComponent/BookingForm.js:43 | `parseInt` skips exactly the leading white space |
| Js.NatToString | client/src/pages/AdminDashboard/AdminDashboard.js:86 | a number is written as decimal digits denoting it, with no leading zero |
| Js.IntToString | client/src/pages/AdminDashboard/AdminDashboard.js:86 | every integer is written as at least one character |
| Js.ParseIntOfIntToString | client/src/components/BookingFormComponent/BookingForm.js:43 | `parseInt(String(i), 10)` is `i` |
| Js.ParseInt | client/src/components/BookingFormComponent/BookingForm.js:43 | the empty string, and one that starts with anything but white space, a sign or a digit, read as NaN; only a leading minus gives a negative value |
| Js.Times | client/src/components/BookingFormComponent/BookingForm.js:49 | a product is a number iff both sides are, and then it is their product |
| Js.Plus | client/src/pages/AdminDashboard/AdminDashboard.js:311-316 | a sum is a number iff both sides are, and then it is their sum |
| Js.StripNonDigits | client/src/components/PayPalPaymentModal/PayPalPaymentModal.js:132 | removing non-digits leaves only digits, and keeps a string of digits |
| Js.StripNonDigitsIdempotent | client/src/components/PayPalPaymentModal/PayPalPaymentModal.js:132 | removing non-digits twice is removing them once |
| Js.LowerChar | client/src/components/SignUpForm/SignUpForm.js:74 | a lower-cased character is never an upper-case ASCII letter |
| Js.ToLower | client/src/components/SignUpForm/SignUpForm.js:74 | lower-casing acts character by character and keeps the length |
| Js.ToLowerIdempotent | client/src/components/SignUpForm/SignUpForm.js:74 | lower-casing twice is lower-casing once |
| Js.TrimStart | client/src/components/PayPalPaymentModal/PayPalPaymentModal.js:97 | after trimming the start, the string does not begin with white space |
| Js.TrimEnd | client/src/components/PayPalPaymentModal/PayPalPaymentModal.js:97 | after trimming the end, the string is a prefix of the original and does not end with white space |
| Js.Trim | client/src/components/PayPalPaymentModal/PayPalPaymentModal.js:97 | a trimmed string neither begins nor ends with white space, and is empty iff the string was all white space |
| Js.TrimAllSpace | client/src/components/PayPalPaymentModal/PayPalPaymentModal.js:97 | trimming both ends gives "" iff the string is all white space |
| Js.SkipSpacesAll | client/src/components/PayPalPaymentModal/PayPalPaymentModal.js:97 | skipping leading white space gives "" iff the string is all white space |
| Js.TrimEndEmpty | client/src/components/PayPalPaymentModal/PayPalPaymentModal.js:97 | trimming the end gives "" iff the string is all white space |
| Js.IncludesFromMeans | client/src/pages/EscapeRoomsPage/EscapeRoomsPage.js:79-87 | `includes` from position `k` holds iff the needle occurs at some position at or after `k` |
| Js.Includes | client/src/pages/EscapeRoomsPage/EscapeRoomsPage.js:79-87 | `includes` holds iff the needle occurs at some position of the haystack |
| Js.IncludesEmpty | client/src/pages/EscapeRoomsPage/EscapeRoomsPage.js:79-87 | every string includes the empty string |
| Calendar.SlotLabelsFrom | client/src/components/BookingCalendar/BookingCalendar.js:29-42 | one label per start of the lattice from `t` on |
| Calendar.SlotLabelsParse | client/src/components/BookingCalendar/BookingCalendar.js:29-42 | each label reads back as the start at its position |
| Calendar.GeneratePossibleSlots | client/src/components/BookingCalendar/BookingCalendar.js:29-42 | the loop returns exactly the "HH:mm:ss" labels of the room's lattice |
| Calendar.LabelsDetermined | client/src/components/BookingCalendar/BookingCalendar.js:29-42 | the labels are the only strings reading back as the lattice's starts in order |
| Calendar.PossibleSlotsFormat | client/src/components/BookingCalendar/BookingCalendar.js:37 | label `i` is the written lattice start `i` |
| Calendar.PossibleSlotsMember | client/src/components/BookingCalendar/BookingCalendar.js:29-42 | a string is drawn iff it reads as a time on the server's lattice for that duration |
| Calendar.PossibleSlots | client/src/components/BookingCalendar/BookingCalendar.js:29-42 | the calendar draws one label per start of the server's lattice for that duration |
| Calendar.PossibleSlotsAscending | client/src/components/BookingCalendar/BookingCalendar.js:29-42 | the labels ascend, under the string order as well |
| Calendar.TimeLabel | client/src/components/BookingCalendar/BookingCalendar.js:37 | the label of hour `h`, minute `m`, digit by digit, with seconds "00" |
| Calendar.PossibleSlotsOfHour | client/src/components/BookingCalendar/BookingCalendar.js:29-42 | a 60-minute room shows 12 slots, "10:00:00" to "21:00:00" |
| Calendar.PossibleSlotsOfNinetyMinutes | client/src/components/BookingCalendar/BookingCalendar.js:29-42 | a 90-minute room shows 8 slots, the last "20:30:00" |
| Calendar.GenerateWeekDays | client/src/components/BookingCalendar/BookingCalendar.js:46-52 | exactly 7 consecutive days from the week's start, all in that week when it starts on a Monday |
| Calendar.MondaysApart | client/src/components/BookingCalendar/BookingCalendar.js:90-96 | two different Mondays are at least a week apart |
| Calendar.TimesOnMember | client/src/components/BookingCalendar/BookingCalendar.js:66-76 | a time is in a date's bucket iff the server sent that date and time |
| Calendar.TimesOnAppend | client/src/components/BookingCalendar/BookingCalendar.js:68-74 | a pushed slot extends only its own date's bucket, at the end |
| Calendar.TimesOnOther | client/src/components/BookingCalendar/BookingCalendar.js:66-76 | a date the server did not send has an empty bucket |
| Calendar.GroupByDate | client/src/components/BookingCalendar/BookingCalendar.js:66-76 | the buckets are exactly the dates sent, each holding its times in the server's order |
| Calendar.IsSlotAvailableMeans | client/src/components/BookingCalendar/BookingCalendar.js:119-127 | a drawn slot is available iff it has not begun and the server sent its date and time |
| Calendar.IsSlotAvailable | client/src/components/BookingCalendar/BookingCalendar.js:119-127 | a slot is clickable only if the server listed that time for that date; a date the server sent nothing for has none |
| Calendar.BookingCalendar.constructor | client/src/components/BookingCalendar/BookingCalendar.js:16-22 | the calendar opens on the current ISO week with its Monday selected and no time |
| Calendar.BookingCalendar.HandleNextWeek | client/src/components/BookingCalendar/BookingCalendar.js:84-88 | the shown week moves seven days on, nothing else changes |
| Calendar.BookingCalendar.HandlePrevWeek | client/src/components/BookingCalendar/BookingCalendar.js:90-96 | the week goes back seven days unless that is before today's week; it never moves before the current ISO week |
| Calendar.BookingCalendar.HandleDateSelect | client/src/components/BookingCalendar/BookingCalendar.js:98-102 | the day is selected with its offset in the week, and the time cleared |
| Calendar.BookingCalendar.HandleTimeSelect | client/src/components/BookingCalendar/BookingCalendar.js:104-117 | re-selecting the time clears it and reports an empty date and time; another time is selected and reported with the selected date |
| Calendar.BookingCalendar.ClickTimeSlot | client/src/components/BookingCalendar/BookingCalendar.js:166-181 | a click changes and reports nothing unless the slot is available; on an available slot it acts as `HandleTimeSelect` |
| Calendar.BookingCalendar.OnSlotsLoaded | client/src/components/BookingCalendar/BookingCalendar.js:65-82 | the slots are grouped by date and the week's Monday is selected with no time |
| LegacyResolvers.HourLabelIsFormatTime | server/resolvers.js:13 | the pushed label of hour `i` is the "HH:mm:ss" time of that full hour |
| LegacyResolvers.GenerateTimeSlots | server/resolvers.js:10-16 | the loop returns the nine labels of hours 12 to 20, in order |
| LegacyResolvers.FixedSlots | server/resolvers.js:10-16 | the fixed lattice has nine slots |
| LegacyResolvers.FixedSlotsLiteral | server/resolvers.js:10-16 | the fixed lattice is exactly "12:00:00" … "20:00:00" |
| LegacyResolvers.FixedSlotsAscending | server/resolvers.js:10-16 | the fixed slots ascend under JavaScript's string `<` |
| LegacyResolvers.BookedTimes | server/resolvers.js:21-32 | the time of every booking of the room on the date is booked, whatever its status |
| LegacyResolvers.GetAvailableSlots | server/resolvers.js:18-36 | with no booking on the date all nine slots; otherwise, in order, exactly the generated slots no booking's time equals |
| LegacyResolvers.AnyBookingBlocks | server/resolvers.js:21-33 | any booking of the room on the date removes its time, active or not |
| LegacyResolvers.BookedTimesOfSameSchedule | server/resolvers.js:21-32 | the booked times depend only on the rooms, dates and times of the bookings |
| LegacyResolvers.ScheduleDetermines | server/resolvers.js:18-36 | the answer depends only on the rooms, dates and times of the bookings |
| LegacyResolvers.StatusIrrelevant | server/resolvers.js:21-26 | the lookup has no status filter: changing a booking's status changes nothing |
| BookingForm.PlayerOptions | client/src/components/BookingFormComponent/BookingForm.js:20-28 | the loop returns exactly min, min + 1, …, max, and nothing when min > max |
| BookingForm.PlayerOptionsMember | client/src/components/BookingFormComponent/BookingForm.js:20-28 | a count is offered iff it lies within the room's bounds |
| BookingForm.TotalPrice | client/src/components/BookingFormComponent/BookingForm.js:47-50 | price × players, 0 without a room, NaN when the players are NaN |
| BookingForm.BookingFormState.constructor | client/src/components/BookingFormComponent/BookingForm.js:14-18 | the form starts with no player options, not sending, no snack bar |
| BookingForm.BookingFormState.OnRoomLoaded | client/src/components/BookingFormComponent/BookingForm.js:20-28 | with a room, the options become exactly its player counts in order; without one nothing changes |
| BookingForm.BookingFormState.HandleInputChange | client/src/components/BookingFormComponent/BookingForm.js:39-45 | the named field alone gets `parseInt` of the value |
| BookingForm.BookingFormState.SelectPlayers | client/src/components/BookingFormComponent/BookingForm.js:103-118 | a player button sets the count to its number and nothing else |
| BookingForm.BookingFormState.HandleTimeSlotClick | client/src/components/BookingFormComponent/BookingForm.js:52-64 | the current time again sets the time to ""; another time is set; every other field is kept |
| BookingForm.BookingFormState.BookRoom | client/src/components/BookingFormComponent/BookingForm.js:66-93 | nothing is sent iff the date or time is empty, exactly when the button is disabled; the confirmation page opens only after the booking succeeds, the snack bar otherwise; sending always ends |
| LegacyBookingForm.ClockString | client/BookingForm.js:20 | the clock is written as eight characters, seconds included |
| LegacyBookingForm.StringLessCommonPrefix | client/BookingForm.js:52-54 | two strings that agree up to where they differ from a third compare with it alike |
| LegacyBookingForm.LaterThanClock | client/BookingForm.js:52-54 | a slot is later than the clock string iff its minute is later than the clock's |
| LegacyBookingForm.ShownSlots | client/BookingForm.js:47-61 | other dates keep all slots; today keeps, in order, exactly the slots later than the clock string |
| LegacyBookingForm.ShownSlotsToday | client/BookingForm.js:47-61 | today a slot is shown iff the server offers it and its minute is still to come |
| LegacyBookingForm.ClampDate | client/BookingForm.js:135-150 | a date before today becomes today's date; anything else is kept |
| LegacyBookingForm.ClampDateNotPast | client/BookingForm.js:135-150 | the clamped date is never before today, and clamping twice is clamping once |
| LegacyBookingForm.FindRoom | client/BookingForm.js:82-84 | the first room with the id, or none iff no room has it |
| LegacyBookingForm.LegacyBookingFormState.constructor | client/BookingForm.js:23-27 | no slots, no player options and no selected room |
| LegacyBookingForm.LegacyBookingFormState.OnSlotsLoaded | client/BookingForm.js:47-61 | the shown slots are those of `ShownSlots` for the chosen date |
| LegacyBookingForm.LegacyBookingFormState.OnTimeSlotsChanged | client/BookingForm.js:74-78 | with slots shown, the first becomes the time; otherwise nothing changes |
| LegacyBookingForm.LegacyBookingFormState.OnRoomChanged | client/BookingForm.js:80-102 | for a known room, it is selected, its player counts offered and the players reset to its minimum; otherwise nothing changes |
| LegacyBookingForm.LegacyBookingFormState.HandleInputChange | client/BookingForm.js:113-154 | a new room rebuilds the player options and resets the players to its minimum (an unknown id fails); players are parsed; a past date becomes today; the time is kept verbatim |
| LegacyBookingForm.LegacyBookingFormState.TotalPriceShown | client/BookingForm.js:160-163 | 0 with no selected room, otherwise its price × the players |
| Payment.StripNonDigitsAppend | client/src/components/PayPalPaymentModal/PayPalPaymentModal.js:132 | removing non-digits distributes over concatenation |
| Payment.StripNonDigitsSkipSpaces | client/src/components/PayPalPaymentModal/PayPalPaymentModal.js:251 | dropping leading white space keeps the digits |
| Payment.StripNonDigitsTrimEnd | client/src/components/PayPalPaymentModal/PayPalPaymentModal.js:251 | dropping trailing white space keeps the digits |
| Payment.GroupFoursDigits | client/src/components/PayPalPaymentModal/PayPalPaymentModal.js:251 | grouping by four only adds spaces: its digits are the card number |
| Payment.CardDisplay | client/src/components/PayPalPaymentModal/PayPalPaymentModal.js:131-136 | the card number as displayed (in groups of four, line 251) goes back through the change handler to the stored number |
| Payment.ExpiryText | client/src/components/PayPalPaymentModal/PayPalPaymentModal.js:138-144 | the digits typed, with "/" after the first two when there are more than two; it fits the field's shape iff at most four digits were typed |
| Payment.BeforeSlash | client/src/components/PayPalPaymentModal/PayPalPaymentModal.js:79 | the part before the first "/" has no "/" and is followed by one when shorter than the string |
| Payment.SplitExpiry | client/src/components/PayPalPaymentModal/PayPalPaymentModal.js:79 | the month is the part before the first "/", and a year exists iff there is a "/" |
| Payment.ParseTwoDigits | client/src/components/PayPalPaymentModal/PayPalPaymentModal.js:83-87 | `parseInt` of two digits is their value |
| Payment.SplitFullExpiry | client/src/components/PayPalPaymentModal/PayPalPaymentModal.js:79-87 | a full "MM/YY" field parses to its month and its year |
| Payment.ExpiryValid | client/src/components/PayPalPaymentModal/PayPalPaymentModal.js:76-91 | the expiry passes iff it has 5 characters, its month is 1 to 12, and it is not before the current year and month |
| Payment.FormValid | client/src/components/PayPalPaymentModal/PayPalPaymentModal.js:69-103 | the form is valid iff the card has 16 characters, the CVV 3, the name is not all white space and the expiry passes |
| Payment.NoErrorsIffAccepted | client/src/components/PayPalPaymentModal/PayPalPaymentModal.js:69-103 | for every input the change handlers can produce, validateForm records no error iff the card has 16 digits, the CVV 3, the name is not blank and the expiry is a full MM/YY with month 01-12 not before the current month |
| Payment.FormErrorsOf | client/src/components/PayPalPaymentModal/PayPalPaymentModal.js:69-103 | the card number is flagged exactly when it does not have 16 characters, the CVV when it does not have 3, the name when it is blank, and the expiry by the expiry check |
| Payment.FormatDate | client/src/components/PayPalPaymentModal/PayPalPaymentModal.js:24-31 | "" for no date; an unreadable date gives "NaN.NaN.NaN" |
| Payment.NatToStringFourDigits | client/src/components/PayPalPaymentModal/PayPalPaymentModal.js:29-30 | a four-digit year is written as its four digits |
| Payment.FormatDateOfIsoDate | client/src/components/PayPalPaymentModal/PayPalPaymentModal.js:24-31 | a date with a four-digit year becomes its day, month and year zero-padded as "DD.MM.YYYY" |
| Payment.PaymentModal.constructor | client/src/components/PayPalPaymentModal/PayPalPaymentModal.js:6-15 | empty inputs, no errors, nothing processing or paid |
| Payment.PaymentModal.OnBookingStatus | client/src/components/PayPalPaymentModal/PayPalPaymentModal.js:33-37 | a completed booking opens as paid; nothing else changes |
| Payment.PaymentModal.HandleCardNumberChange | client/src/components/PayPalPaymentModal/PayPalPaymentModal.js:131-136 | the digits typed replace the card number when there are at most 16, else the old value is kept |
| Payment.PaymentModal.HandleExpiryDateChange | client/src/components/PayPalPaymentModal/PayPalPaymentModal.js:138-148 | the slashed digits replace the expiry when at most 5 characters, which is when at most four digits were typed |
| Payment.PaymentModal.HandleCvvChange | client/src/components/PayPalPaymentModal/PayPalPaymentModal.js:150-155 | the digits typed replace the CVV when there are at most 3 |
| Payment.PaymentModal.HandleNameChange | client/src/components/PayPalPaymentModal/PayPalPaymentModal.js:157-162 | the text replaces the name only when it is letters and white space, the test of `validateName` |
| Payment.PaymentModal.ValidateForm | client/src/components/PayPalPaymentModal/PayPalPaymentModal.js:69-103 | on inputs the change handlers let through, the recorded errors are those of the current inputs, and the form is valid iff there is none, that is iff the card has 16 digits, the CVV 3, the name is not blank and the expiry is a full MM/YY with month 01-12 not before the current month |
| Payment.PaymentModal.HandleSubmit | client/src/components/PayPalPaymentModal/PayPalPaymentModal.js:105-129 | on inputs the change handlers let through, the payment is sent iff the form is valid (the card accepted as in ValidateForm), always as "completed" by "PayPal" with the booking's amount; only a successful payment shows the success message; sending always ends |
| Payment.PaymentModal.Pay | client/src/components/PayPalPaymentModal/PayPalPaymentModal.js:110-128 | the request is sent, processing ends, and the dialog turns to paid iff the mutation succeeded |
| Payment.PaymentModal.HandleViewDetails | client/src/components/PayPalPaymentModal/PayPalPaymentModal.js:164-167 | the success message closes and the payment details open |
| RoomCatalog.EmptyFiltersMatch | client/src/pages/EscapeRoomsPage/EscapeRoomsPage.js:89-125 | with every field empty, every room passes the filters |
| RoomCatalog.FieldsPassAll | client/src/pages/EscapeRoomsPage/EscapeRoomsPage.js:89-125 | the seven steps together are exactly the filter predicate |
| RoomCatalog.Advance | client/src/pages/EscapeRoomsPage/EscapeRoomsPage.js:89-125 | filtering what passed the earlier steps by step `k`'s test leaves what passes the first `k` steps; a step that passes everything can be skipped |
| RoomCatalog.ApplyStep | client/src/pages/EscapeRoomsPage/EscapeRoomsPage.js:89-125 | `if (field) result = result.filter(test)` turns what passed `k - 1` steps into what passes `k` |
| RoomCatalog.ApplyFieldFilters | client/src/pages/EscapeRoomsPage/EscapeRoomsPage.js:89-125 | the chain keeps, in order, exactly the rooms matching genre and difficulty by equality, the parsed age at most the selected one (an unparsable age dropped), the players within the bounds, the price within min and max, and the duration by equality; an empty field passes every room |
| RoomCatalog.AllSteps | client/src/pages/EscapeRoomsPage/EscapeRoomsPage.js:89-125 | filtering by all seven steps is filtering by the filter predicate |
| RoomCatalog.IndexOf | client/src/pages/EscapeRoomsPage/EscapeRoomsPage.js:155-156 | the first position of the string, or -1 iff it is absent |
| RoomCatalog.SortRooms | client/src/pages/EscapeRoomsPage/EscapeRoomsPage.js:134-195 | the copy is sorted by the option's key: rating (missing as 0), parsed age, maximum players, duration, price or difficulty rank, negated for descending |
| RoomCatalog.SortRoomsSorted | client/src/pages/EscapeRoomsPage/EscapeRoomsPage.js:134-195 | the sorted list is a permutation of the rooms, ascending by the key or descending as asked |
| RoomCatalog.DifficultyIndices | client/src/pages/EscapeRoomsPage/EscapeRoomsPage.js:149-156 | Expert, Advanced, Intermediate and Beginner are at 0 to 3 of the order; any other difficulty is -1 |
| RoomCatalog.ArrangedPermutes | client/src/pages/EscapeRoomsPage/EscapeRoomsPage.js:127-129 | the shown list is a permutation of the filtered rooms, and is them unchanged when no option is selected |
| RoomCatalog.NextSort | client/src/pages/EscapeRoomsPage/EscapeRoomsPage.js:209-220 | "none" clears the option and sorts ascending; the same option flips the direction; a new option is selected ascending |
| RoomCatalog.NextSortTwice | client/src/pages/EscapeRoomsPage/EscapeRoomsPage.js:209-220 | clicking the selected option twice restores the direction; a different option starts ascending |
| RoomsPage.SearchIgnoresCase | client/src/pages/EscapeRoomsPage/EscapeRoomsPage.js:79-87 | a query and its lower-case form find the same rooms |
| RoomsPage.SearchFindsOwnFields | client/src/pages/EscapeRoomsPage/EscapeRoomsPage.js:79-87 | a room is found by its own theme, description or genre |
| RoomsPage.ApplyFilters | client/src/pages/EscapeRoomsPage/EscapeRoomsPage.js:76-132 | the search step, the seven filter steps and the optional sort give exactly the shown list |
| RoomsPage.ShownRooms | client/src/pages/EscapeRoomsPage/EscapeRoomsPage.js:76-132 | the page shows exactly the catalogue's rooms that match, as often as in the catalogue, and unsorted it is a subsequence of the catalogue |
| RoomsPage.Shown | client/src/pages/EscapeRoomsPage/EscapeRoomsPage.js:76-132 | without a sort option the page shows the matching rooms in catalogue order; never more rooms than the catalogue has |
| RoomsPage.NothingSetShowsAll | client/src/pages/EscapeRoomsPage/EscapeRoomsPage.js:76-132 | with no query and no field set, every room is shown in order |
| RoomsPage.DifficultyAscendingBeginnerFirst | client/src/pages/EscapeRoomsPage/EscapeRoomsPage.js:147-159 | ascending difficulty orders Beginner, Intermediate, Advanced, Expert, then any other; descending the reverse |
| RoomsPage.EasiestFirstKey | client/src/pages/EscapeRoomsPage/EscapeRoomsPage.js:155-157 | the difficulty key of the newer page is the easiest-first rank |
| RoomsPage.EscapeRoomsPage.constructor | client/src/pages/EscapeRoomsPage/EscapeRoomsPage.js:24-38 | no rooms, an empty query, every filter empty, no sort, ascending |
| RoomsPage.EscapeRoomsPage.OnRoomsLoaded | client/src/pages/EscapeRoomsPage/EscapeRoomsPage.js:52-56 | the fetched catalogue is kept and shown as it is |
| RoomsPage.EscapeRoomsPage.Refresh | client/src/pages/EscapeRoomsPage/EscapeRoomsPage.js:58-74 | a non-empty catalogue is shown filtered and sorted; an empty one leaves the list alone |
| RoomsPage.EscapeRoomsPage.HandleSortOptionClick | client/src/pages/EscapeRoomsPage/EscapeRoomsPage.js:209-220 | the option and direction follow `NextSort` and the dropdown closes |
| RoomsPage.EscapeRoomsPage.ResetFilters | client/src/pages/EscapeRoomsPage/EscapeRoomsPage.js:197-207 | all seven filters and the query are cleared and the whole catalogue is shown |
| LegacyRoomsPage.ApplyFilters | client/EscapeRoomsPage.js:55-103 | the seven filter steps and the optional sort give exactly the shown list |
| LegacyRoomsPage.FiltersAsNewerPage | client/EscapeRoomsPage.js:55-103 | the filters are the newer page's with an empty search, and the unsorted list is a subsequence of the catalogue |
| LegacyRoomsPage.ShownPermutes | client/EscapeRoomsPage.js:105-166 | every sort option shows a permutation of the filtered rooms |
| LegacyRoomsPage.Shown | client/EscapeRoomsPage.js:55-166 | without a sort option the page shows the matching rooms in catalogue order; never more rooms than the catalogue has |
| LegacyRoomsPage.HardestFirstKey | client/EscapeRoomsPage.js:126-128 | the difficulty key of the older page is the hardest-first rank |
| LegacyRoomsPage.DifficultyAscendingExpertFirst | client/EscapeRoomsPage.js:118-130 | ascending difficulty orders any other difficulty, then Expert, Advanced, Intermediate, Beginner; descending the reverse |
| LegacyRoomsPage.DifficultyOrdersOpposite | client/EscapeRoomsPage.js:118-130 | on the four difficulties the two pages' ranks are opposite |
| LegacyRoomsPage.SortLabel | client/EscapeRoomsPage.js:192-205 | "Sort ↑↓" with no option, otherwise the option's label, a space and "↑" or "↓" |
| LegacyRoomsPage.SortLabelDistinguishes | client/EscapeRoomsPage.js:192-205 | equal labels mean the same option and direction |
| LegacyRoomsPage.SortLabelOfNone | client/EscapeRoomsPage.js:192-205 | a selected option's label never reads as the unsorted one |
| LegacyRoomsPage.LegacyEscapeRoomsPage.constructor | client/EscapeRoomsPage.js:8-22 | no rooms, every filter empty, no sort, ascending |
| LegacyRoomsPage.LegacyEscapeRoomsPage.OnRoomsLoaded | client/EscapeRoomsPage.js:32-36 | the fetched catalogue is kept and shown as it is |
| LegacyRoomsPage.LegacyEscapeRoomsPage.Refresh | client/EscapeRoomsPage.js:38-53 | a non-empty catalogue is shown filtered and sorted; an empty one leaves the list alone |
| LegacyRoomsPage.LegacyEscapeRoomsPage.HandleSortOptionClick | client/EscapeRoomsPage.js:179-190 | the option and direction follow `NextSort` and the dropdown closes |
| LegacyRoomsPage.LegacyEscapeRoomsPage.ResetFilters | client/EscapeRoomsPage.js:168-177 | all seven filters are cleared and the whole catalogue is shown |
| AdminDashboard.RevenueSumAppend | client/src/pages/AdminDashboard/AdminDashboard.js:310-316 | the revenue of two lists is the sum of their revenues |
| AdminDashboard.TotalRevenueAppend | client/src/pages/AdminDashboard/AdminDashboard.js:308-317 | the total of two lists of bookings is the sum of their totals |
| AdminDashboard.BookingRevenue | client/src/pages/AdminDashboard/AdminDashboard.js:311-316 | a booking earns its amount, or price × players when the amount is 0; never negative when neither is |
| AdminDashboard.TotalRevenue | client/src/pages/AdminDashboard/AdminDashboard.js:308-317 | with no completed payment the total is 0 |
| AdminDashboard.TotalRevenueIgnoresUnpaid | client/src/pages/AdminDashboard/AdminDashboard.js:309 | a booking whose payment is not completed adds nothing, wherever it stands |
| AdminDashboard.TotalRevenueOfPaid | client/src/pages/AdminDashboard/AdminDashboard.js:310-316 | a completed booking adds its amount, or price × players when the amount is 0 |
| AdminDashboard.TotalRevenueSplit | client/src/pages/AdminDashboard/AdminDashboard.js:308-317 | splitting the bookings by any test splits the total |
| AdminDashboard.RevenueSumNonNegative | client/src/pages/AdminDashboard/AdminDashboard.js:310-316 | with no negative amount, price or players, no revenue is negative |
| AdminDashboard.MonthRevenueIsTotal | client/src/pages/AdminDashboard/AdminDashboard.js:68-83 | a month's revenue is the total revenue of the bookings dated in that month and year |
| AdminDashboard.MonthRevenueWithinTotal | client/src/pages/AdminDashboard/AdminDashboard.js:68-83 | with no negative amounts, a month's revenue is between 0 and the total revenue |
| AdminDashboard.ShortMonthNameRoundTrip | client/src/pages/AdminDashboard/AdminDashboard.js:65 | every short month name has three letters and names that month only |
| AdminDashboard.PeriodOf | client/src/pages/AdminDashboard/AdminDashboard.js:64 | `new Date(year, month - i, 1)` normalises to a month between 1 and 12 |
| AdminDashboard.PeriodNameInjective | client/src/pages/AdminDashboard/AdminDashboard.js:65-66 | a bar's label names one month of one year only |
| AdminDashboard.PeriodOfInjective | client/src/pages/AdminDashboard/AdminDashboard.js:64 | different month counts are different months |
| AdminDashboard.MonthsFrom | client/src/pages/AdminDashboard/AdminDashboard.js:63-89 | `n` months give `n` bars |
| AdminDashboard.MonthsFromAt | client/src/pages/AdminDashboard/AdminDashboard.js:63-89 | bar `k` is the bar of the `k`-th month from the first |
| AdminDashboard.MonthlyRevenueData | client/src/pages/AdminDashboard/AdminDashboard.js:59-92 | the loop from 5 down to 0 returns exactly the six bars ending at the current month |
| AdminDashboard.SixMonthsEntries | client/src/pages/AdminDashboard/AdminDashboard.js:63-89 | each of the six bars from a given month is the bar of its month, and no two bars are the same month |
| AdminDashboard.SixMonthsAt | client/src/pages/AdminDashboard/AdminDashboard.js:63-89 | the chart has six bars, bar `k` is the bar of the month `5 - k` months back, and no two bars are the same month |
| AdminDashboard.SixMonthsEndsNow | client/src/pages/AdminDashboard/AdminDashboard.js:63-65 | the last bar is the current month and year |
| AdminDashboard.SixMonthsBars | client/src/pages/AdminDashboard/AdminDashboard.js:59-92 | six bars, oldest first: bar `k` is the month `5 - k` months back, with the revenue of the completed payments dated in it; the last is the current month; no two bars are the same month |
| AdminDashboard.SixMonths | client/src/pages/AdminDashboard/AdminDashboard.js:63-89 | the chart always has six bars |
| AdminDashboard.Top | client/src/pages/AdminDashboard/AdminDashboard.js:56-57 | sorting and `slice(0, k)` keeps `k` elements, or all when there are fewer; the recent bookings use the same shape |
| AdminDashboard.TopProperties | client/src/pages/AdminDashboard/AdminDashboard.js:56-57 | the kept elements are in key order and taken from the list, and an element left out has a key no smaller than any kept; the recent bookings use the same shape |
| AdminDashboard.TopLeftOut | client/src/pages/AdminDashboard/AdminDashboard.js:56-57 | in a sorted list, an element missing from the first `n` comes after them all |
| AdminDashboard.Stats | client/src/pages/AdminDashboard/AdminDashboard.js:45-55 | one entry per room, in the rooms' order |
| AdminDashboard.TopRooms | client/src/pages/AdminDashboard/AdminDashboard.js:45-57 | at most five rooms, most booked first; each entry is a room's theme, its number of bookings of any status by theme, and that number × its price; a room left out has no more bookings than any listed |
| AdminDashboard.TopRoomsData | client/src/pages/AdminDashboard/AdminDashboard.js:45-57 | five rooms, or every room when there are fewer |
| AdminDashboard.StatBounded | client/src/pages/AdminDashboard/AdminDashboard.js:47-49 | no room has more bookings than there are bookings |
| AdminDashboard.RecentBookingsNewest | client/src/pages/AdminDashboard/AdminDashboard.js:94-96 | the five newest bookings, or all when there are fewer, newest first; a booking left out is no newer than any listed |
| AdminDashboard.RecentBookings | client/src/pages/AdminDashboard/AdminDashboard.js:94-96 | five bookings, or all when there are fewer, each taken from the bookings |
| AdminDashboard.RevenueSumAsQueriedNaN | client/src/utils/queries.js:181-183 | with the fetched data the sum is NaN iff some booking has no amount, and otherwise is the intended sum |
| AdminDashboard.TotalRevenueAsQueriedNaN | client/src/pages/AdminDashboard/AdminDashboard.js:308-317 | as written, the total is NaN iff some completed booking has no amount, and otherwise is the intended total |
| AdminDashboard.TotalRevenueAsQueriedExample | client/src/pages/AdminDashboard/AdminDashboard.js:308-317 | one completed booking of 4 players at 500 with no amount: NaN as written, 2000 as intended |
| SignUpForm.WithInput | client/src/components/SignUpForm/SignUpForm.js:69-81 | the named field alone takes the value, lower-cased for the email and verbatim otherwise |
| SignUpForm.EmailStoredLowerCase | client/src/components/SignUpForm/SignUpForm.js:69-81 | the stored email has no upper-case ASCII letter, and typing it again changes nothing |
| SignUpForm.ValidationPasses | client/src/components/SignUpForm/SignUpForm.js:85-102 | the form goes to the server iff both names have at most 23 characters, the password at least 8 and the confirmation repeats it |
| SignUpForm.ValidationMessage | client/src/components/SignUpForm/SignUpForm.js:85-102 | a rejection is always one of the form's own three messages, never a server message |
| SignUpForm.ValidationOrder | client/src/components/SignUpForm/SignUpForm.js:85-102 | a name too long is reported whatever the passwords are, and a short password before a mismatch |
| SignUpForm.SubmitErrorMessages | client/src/components/SignUpForm/SignUpForm.js:114-122 | the specific message appears iff the server says "Email is already in use."; anything else gives the generic one |
| SignUpForm.CreateUserFailureIsGeneric | server/schemas/resolvers.js:436-438 | the only error text `createUser` answers with gives the generic message, not the "already in use" one |
| SignUpForm.SignUpFormState.constructor | client/src/components/SignUpForm/SignUpForm.js:9-17 | every field empty and the snack bar hidden |
| SignUpForm.SignUpFormState.HandleInputChange | client/src/components/SignUpForm/SignUpForm.js:69-81 | the form becomes `WithInput` of the old form |
| SignUpForm.SignUpFormState.ShowSnackbar | client/src/components/SignUpForm/SignUpForm.js:62-67 | the snack bar shows the message |
| SignUpForm.SignUpFormState.HideSnackbar | client/src/components/SignUpForm/SignUpForm.js:64-66 | the snack bar hides again |
| SignUpForm.SignUpFormState.HandleFormSubmit | client/src/components/SignUpForm/SignUpForm.js:83-131 | nothing is sent iff a check fails, and then its message shows and the form is kept; otherwise the names, email and password are sent; success logs in with the token and empties the form; an error shows its mapped message and keeps the form |
| Sequences.Filter | client/src/pages/EscapeRoomsPage/EscapeRoomsPage.js:89-91 | `filter` keeps, in order, exactly the elements passing the test |
| Sequences.FilterFilter | client/src/pages/EscapeRoomsPage/EscapeRoomsPage.js:89-95 | filtering twice is filtering once by both tests |
| Sequences.FilterAppend | client/src/pages/AdminDashboard/AdminDashboard.js:308-309 | filtering distributes over concatenation |
| Sequences.SortBy | client/src/pages/EscapeRoomsPage/EscapeRoomsPage.js:134-139 | sorting keeps the length |
| Sequences.SortBySorted | client/src/pages/EscapeRoomsPage/EscapeRoomsPage.js:134-195 | the sorted list is ordered by the key and is a permutation of the input |
| Sequences.InsertByStable | client/src/pages/EscapeRoomsPage/EscapeRoomsPage.js:135-139 | for every key, inserting an element keeps the elements of that key in order and, when it has that key, places it after all of them |
| Sequences.SortByStable | client/src/pages/EscapeRoomsPage/EscapeRoomsPage.js:134-139 | the sort is stable: for every key, the elements with that key come out in their input order |
| Sequences.SortInPlace | client/src/pages/EscapeRoomsPage/EscapeRoomsPage.js:135-139 | sorting the copied array in place leaves exactly the stable sort of its old contents |
| Sequences.InsertAt | client/src/pages/EscapeRoomsPage/EscapeRoomsPage.js:135-139 | one pass moves an element left past the greater keys and keeps the rest |

## Left out

- Concurrency: the model's store is sequential. The unguarded check-then-insert of `createBooking` (server/schemas/resolvers.js:545-567) is not modelled as a race.
- The hourly cron trigger (server/server.js:35-44): the sweep is a method that takes `now` as a parameter.
- A database error inside a mutation or midway through the sweep: the in-memory map never fails. Only the failures the code itself raises are modelled: the missing room, a value outside an ENUM, and the checks rethrown as `ApolloError`.
- GraphQL, Apollo, Sequelize queries and associations, and Express: the database is a map from booking id to row and the catalogue a map from room id to room.
- Authentication: JWT, tokens, localStorage and bcrypt are not modelled. Every operation takes the caller as `Option<User>`, with `None` for no login.
- The Google sign-up (client/src/components/SignUpForm/SignUpForm.js:37-60) and the account resolvers (`createUser`, `login` and the rest): these are authentication. The answer of `createUser` is a parameter of `SignUpForm.SignUpFormState.HandleFormSubmit`.
- Time zones, and the mix of `toISOString` (UTC) with local-time strings: dates are day numbers, times are minutes since midnight, and every time string's seconds are "00".
- The `created_at` strings and their `Date` conversion: a timestamp is an integer instant.
- Floating point: prices and amounts are integers. The `averageRating` division (server/schemas/resolvers.js:749-750) is not modelled; a room carries its rating as an optional integer.
- Explicit `null` values in columns are not modelled beyond the absence that `Option` models.
- The `availableSlots` resolver of server/resolvers.js:80-82: it only passes its arguments on to `getAvailableSlots`, which is `LegacyResolvers.GetAvailableSlots`.
- The fetch effects of client/BookingForm.js (42-45, 63-72) and its own `bookRoom` (165-185): the fetched slots are a parameter of the model.
- The mutations `createABooking` and `updateBookingPayment` as the pages call them: each page method takes the answer as a `Result` parameter.
- Timers: `setTimeout` is not modelled. The sign-up snack bar is hidden by an explicit `HideSnackbar`; the booking form's snack bar stays shown, since its three-second timeout is not modelled.
- The unused pattern validators of client/src/components/PayPalPaymentModal/PayPalPaymentModal.js:39-62: nothing calls them.
- The sort label of the newer catalogue page: it lives in JSX, not in a function.
- The dashboard's count cards and its `toLocaleString` formatting: these are presentation only.
- The admin management screens, the booking lists and the other presentation files.
- RoomCatalog.SortRooms: an age that does not parse gets the key 0. In the code the comparator then returns NaN, which makes it inconsistent, and the resulting order is implementation-defined.
- Js.ToLower: folds only the ASCII letters A to Z, not the rest of Unicode.
- Js.Trim: strips the common whitespace characters, not every character JavaScript counts as white space.
- SignUpForm.ValidationMessage: counts characters, where JavaScript's `length` counts UTF-16 code units.
- Calendar.PossibleSlots: is defined for positive durations only. The calendar's own loop (client/src/components/BookingCalendar/BookingCalendar.js:34-39) never ends for a duration of 0 or less, like the server's loop in "## Findings"; the calendar is only drawn for a stored room.
- Calendar.GeneratePossibleSlots: requires a positive duration for the same reason.
- Js.ParseInt: reads decimal digits only, not the `0x` prefix that `parseInt` also accepts.

## Findings

| source | as written | input that shows it | evidently intended | confidence | as-written member | corrected member |
|---|---|---|---|---|---|---|
| client/src/pages/AdminDashboard/AdminDashboard.js:308-317 | for a completed booking without an amount, the total adds `escaperoom.price * numberOfPlayers`. The dashboard's bookings query (client/src/utils/queries.js:181-183) fetches only the room's `theme`, so the price is undefined and the product is NaN. The total, and each month's revenue (AdminDashboard.js:77-83), is then NaN | one completed booking of room "Lab" (price 500) for 4 players with `payment_amount` 0 | the fallback adds price × players, giving 2000 | high, not executed | AdminDashboard.TotalRevenueAsQueriedExample | AdminDashboard.TotalRevenueOfPaid |
| server/schemas/resolvers.js:78-107 | the inner loop of `availableSlots` steps `currentTime` by the room's duration and stops only when it reaches 22:00 or the next slot would end after it. `createEscapeRoom` and `updateEscapeRoom` store any integer duration (server/schemas/resolvers.js:676-704), and the column has no check (server/EscapeRoom.js:46-49) | `availableSlots` for a room stored with `duration` 0: `currentTime` stays at 10:00, so the request never answers | the walk ends for every stored room; a room without a positive duration offers no slot | medium, not executed | Reservations.SlotWalkNeverEnds | Reservations.AvailableSlotsSpec |

