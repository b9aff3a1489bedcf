# Meeting-room booking rules, modelled in Dafny

A model of the booking rules of a small meeting-room reservation web app
backed by a document store. Three pages and one utility file carry the rules:

- **The weekly calendar** (`HomePage.js`) shows the week, Monday first,
  around a current date. It moves a week back or forward, loads the bookings
  dated within the week, and puts each booking into the cell of its room,
  its day and its start slot.
- **The booking form** (`BookingPage.js`) validates seven of its eight
  fields; the purpose is optional and never checked. It then
  rejects a time range that collides with an existing booking of the same
  room and day, and writes the booking.
- **The lookup page** (`MyBookingPage.js`) finds a booking by representative
  name and phone number. It marks the booking past or upcoming, and deletes
  it on a confirmed cancel.
- **The date utilities** (`dateUtils.js`) give the seven days of a week and
  the `HH:MM` start slots of the business day.

The modules follow those files:

| module | file | contents |
|---|---|---|
| `JsSemantics` | `js_semantics.dfy` | the JavaScript behaviour the rules rely on: `Array.prototype.find` and `filter`, `<` on strings, `trim`, the phone pattern `/^[0-9-]+$/` |
| `DateUtils` | `date_utils.dfy` | `generateTimeSlots` as a loop proved against a slot-minute function, and `getWeekDates` on day numbers |
| `Records` | `records.dfy` | rooms, settings, bookings and documents; the sort of rooms by `order`; the bookings collection as a class `BookingStore` with `Add` and `Delete`; the no-double-booking invariant |
| `BookingPage` | `booking_page.dfy` | the form, `validate`, `checkConflict`, `handleChange`, `handleSubmit` |
| `MyBookingPage` | `my_booking_page.dfy` | the search form, its `validate`, the query's first match, the past check, `handleCancel`, `handleNewSearch` |
| `HomePage` | `home_page.dfy` | the week window query, `getBookingForSlot`, the week navigation, the reload effect |

Stateful page logic becomes a class whose methods change its fields:
`BookingPage.BookingForm`, `MyBookingPage.LookupPage` and
`HomePage.Calendar`. Each such method is proved against a pure function of
its inputs and the old state (`Submission`, `SearchResult`,
`BookingsInWindow`, `FieldErrors`). The properties are proved about those
functions as lemmas.

A few representation choices run through the model:

- **Dates** are day numbers; day 0 is Thursday 1970-01-01. `formatDate`
  gives `YYYY-MM-DD` strings, whose order is the order of the days. So
  comparing date strings is modelled as comparing day numbers.
- **Times of a booking** stay strings, because the source compares them as
  strings. The slot generator receives the business hours already split
  into hour and minute.
- **The form's fields** are typed: the date field holds `Some(day)` or
  `None` for an empty input, and the number field `Some(n)` or `None`.
  Error messages form a datatype; `Cleared` stands for the empty message
  that `handleChange` writes.
- **Outside values** are parameters: the current day and time, the id the
  store assigns to a new document, and the answer of the confirm dialog.

The model states these properties:

- **Slot generation.** The generated slots are exactly the `HH:MM` labels
  of `start, start + interval, …` below the end time. The first slot is the
  start time, and the slots increase both as numbers and as strings.
- **The conflict check.** The source's three-clause test equals plain
  interval overlap for well-formed intervals. Touching intervals do not
  conflict.
- **Submission keeps the store free of double bookings.**
  - `HandleSubmit` writes only when every field is valid and no booking of
    the room and day overlaps.
  - The written record carries the form's values.
  - The store then still has no two overlapping bookings of one room and
    day.
  - Cancelling keeps that invariant too.
- **The lookup** returns the matching document with the least id (the
  store's order for an unordered query). It is past exactly when its start
  lies strictly before now.
- **The calendar.**
  - Its window loads exactly the bookings dated on the seven days shown.
  - Under the invariant, each booking appears in its own start cell, and
    the later cells it covers stay empty, whatever the query order.

## Model

| member | source | states |
|---|---|---|
| JsSemantics.Find | HomePage.js:123-128 | `find`: nothing iff no element satisfies the test; otherwise the element at the first satisfying index |
| JsSemantics.Filter | HomePage.js:85-95 | `filter`: every kept element comes from the input and passes the test, every passing element is kept, and no element is kept more often than it occurs |
| JsSemantics.StrLess | BookingPage.js:121-163 | JavaScript `<` on strings: lexicographic by character, a proper prefix before any extension; the order facts the rules use are the four lemmas below |
| JsSemantics.StrLessIrreflexive | BookingPage.js:121 | no time string is before itself, so `startTime >= endTime` holds for equal times |
| JsSemantics.StrLessTransitive | BookingPage.js:161-163 | JavaScript string `<` is transitive |
| JsSemantics.StrLessTotal | BookingPage.js:121 | any two time strings are equal or one is before the other, so `>=` is the negation of `<` |
| JsSemantics.StrLessAsymmetric | BookingPage.js:161-163 | two strings are never each before the other |
| JsSemantics.TrimEmptyIffBlank | BookingPage.js:126-128 | `!s.trim()` holds exactly for strings made only of whitespace |
| JsSemantics.PhonePatternNotBlank | BookingPage.js:130-134 | a string that matches `/^[0-9-]+$/` is never blank, so the pattern branch is reached only for non-blank input |
| JsSemantics.MatchesPhonePattern | BookingPage.js:132 | `/^[0-9-]+$/.test(s)`: one or more characters, each a digit or a hyphen; `PhonePatternNotBlank` and `PhoneRule` state what validation draws from it |
| JsSemantics.Trim | BookingPage.js:126-134 | `trim` leaves a string that neither starts nor ends with white space and is no longer than the input |
| JsSemantics.TrimDropsOnlyWhitespace | BookingPage.js:126-134 | `trim` removes only white space: its result is the part of the input between two blank margins |
| DateUtils.BeforeIsMinutesLess | dateUtils.js:33 | the loop guard `h < eh \|\| (h == eh && m < em)` is minutes-since-midnight comparison for well-formed times |
| DateUtils.CarryPreservesMinutes | dateUtils.js:40-43 | carrying whole hours out of the minute counter keeps the time and leaves a minute below 60 |
| DateUtils.Tick | dateUtils.js:39-43 | one loop step, with or without the carry, advances the time by exactly the interval |
| DateUtils.Pad2Order | dateUtils.js:35 | `padStart(2, '0')` keeps order and equality for values below 100 |
| DateUtils.Pad2 | dateUtils.js:35 | `String(n).padStart(2, '0')` is at least two characters, and exactly the two digits of n below 100 |
| DateUtils.FormatTime | dateUtils.js:35 | the label of an hour and a minute below 100 is five characters: two digits, a colon, two digits |
| DateUtils.SlotLabelShape | dateUtils.js:35 | a label is five characters `DD:DD` with minute tens at most 5 |
| DateUtils.SlotLabelOrder | dateUtils.js:35 | labels compare as strings exactly as their minutes compare as numbers, and are equal exactly when the minutes are |
| DateUtils.SlotMinutesShape | dateUtils.js:33-44 | slot i is `start + i*interval` and below the end; the count is the least one that reaches the end; no slots when start is not before end |
| DateUtils.SlotCount | dateUtils.js:33-44 | the number of slots is the span divided by the interval, rounded up |
| DateUtils.SlotsIncreasing | dateUtils.js:39 | slot minutes increase strictly, consecutive ones by the interval |
| DateUtils.GenerateTimeSlots | dateUtils.js:22-47 | the loop emits exactly the labels of the slot minutes from the start time up to, not including, the end time |
| DateUtils.FirstSlot | dateUtils.js:33-36 | no slots when the start is not before the end; otherwise the first slot is the start time itself |
| DateUtils.AppendStep | dateUtils.js:35-39 | appending the current label and advancing by the interval keeps "emitted so far + still to come = all slots" |
| DateUtils.LabelOfClock | dateUtils.js:35 | the label built from hour and minute equals the label of its minutes since midnight |
| DateUtils.SlotsLexicallyIncreasing | dateUtils.js:22-47 | the generated labels increase as strings, so the `<` and `>=` tests on times agree with time order |
| DateUtils.IsoWeekday | dateUtils.js:7 | the weekday of a day number is between 1 (Monday) and 7 (Sunday); `IsoWeekdayCalendar` ties it to the calendar |
| DateUtils.IsoWeekdayCalendar | dateUtils.js:7 | day 0 (1970-01-01) is a Thursday, and each next day is the next weekday, Sunday wrapping to Monday |
| DateUtils.StartOfWeek | dateUtils.js:7 | `startOfWeek(d, {weekStartsOn: 1})` is a Monday no later than d and less than seven days before it |
| DateUtils.WeekDates | dateUtils.js:6-9 | seven consecutive days starting on the Monday of the base day's week, which they contain |
| DateUtils.SameWeekSameDates | dateUtils.js:6-9 | any two days of one Monday-to-Sunday week give the same seven dates |
| DateUtils.MondayIsUnique | dateUtils.js:7 | the Monday of a day's week is unique |
| DateUtils.WeekDatesWeekdays | dateUtils.js:6-9 | date i of the week is weekday i+1, Monday to Sunday |
| DateUtils.NextWeekDates | HomePage.js:110-114 | the week seven days later is the same week shifted by seven days |
| Records.InsertByOrder | BookingPage.js:45 | inserting into a list sorted by `order` keeps it sorted and adds exactly that room |
| Records.SortRoomsByOrder | BookingPage.js:45 | `sort((a, b) => a.order - b.order)` gives a list sorted by `order` with the same rooms |
| Records.FindRoom | BookingPage.js:196 | `rooms.find(room => room.id === roomId)`: a room with that id from the list, and nothing exactly when none has it |
| Records.RemoveId | MyBookingPage.js:129 | `deleteDoc`: the document with that id is gone, every other stays; a missing id changes nothing; distinct ids stay distinct |
| Records.RemoveIdRemovesOne | MyBookingPage.js:129 | deleting a present id removes exactly one document |
| Records.RemoveIdIdempotent | MyBookingPage.js:129 | deleting the same id twice is the same as once |
| Records.BookingsOfRoomOnDate | BookingPage.js:149-156 | the query `roomId ==, date ==` returns exactly the stored bookings of that room and day |
| Records.BookingsOfRoomOnDateCounts | BookingPage.js:149-156 | the query returns each record of that room and day exactly as often as the collection holds it, and no other record |
| Records.NoDoubleBookingCons | BookingPage.js:159-169 | the invariant of a collection is: first booking well-formed, compatible with all later ones, and the rest keeps it |
| Records.AddKeepsNoDoubleBooking | BookingPage.js:212 | adding a well-formed booking that overlaps none of its room and day keeps the invariant |
| Records.RemoveKeepsNoDoubleBooking | MyBookingPage.js:129 | deleting a document keeps the invariant |
| Records.BookingStore.constructor | BookingPage.js:212 | an empty collection with valid ids |
| Records.BookingStore.Add | BookingPage.js:212 | `addDoc` appends the record under a fresh non-empty id; ids stay distinct |
| Records.BookingStore.Delete | MyBookingPage.js:129 | `deleteDoc` removes the document with that id, exactly one when present |
| BookingPage.Get | BookingPage.js:15-24 | reading a field gives a value of that field's kind |
| BookingPage.Set | BookingPage.js:72-75 | `{...prev, [name]: value}`: that field takes the value and every other field keeps its value |
| BookingPage.Horizon | BookingPage.js:103 | `settings?.maxBookingDays \|\| 60`: the configured limit when there are settings and it is not zero, otherwise 60 |
| BookingPage.CollectErrors | BookingPage.js:87-144 | building the error object field by field gives exactly the per-field complaints |
| BookingPage.FieldErrors | BookingPage.js:87-143 | one entry per failing field, not only the first; never one for the optional purpose; every entry is a shown message |
| BookingPage.FieldError | BookingPage.js:87-143 | the complaint `validate` records for one field: room and start time must be chosen, the name must not be blank, purpose is never checked; `FieldErrorsInOrder`, `ValidFormIsBookable` and `BookableFormIsValid` state what the checks add up to |
| BookingPage.DateError | BookingPage.js:94-110 | no date asks for one; a date before today is past; a date after today plus the horizon is out of range; `DateWindow` states the window |
| BookingPage.EndTimeError | BookingPage.js:116-124 | no end time asks for one; with both times given, an end not after the start is refused, overriding the first complaint; `EndTimeRule` states it |
| BookingPage.PhoneError | BookingPage.js:130-134 | a blank phone asks for input; otherwise a phone outside the digits-and-hyphens pattern is refused; `PhoneRule` states it |
| BookingPage.NumberOfPeopleError | BookingPage.js:136-140 | no head count asks for one; a count below 1 is refused |
| BookingPage.FieldErrorsInOrder | BookingPage.js:88-141 | the error map is the sequence of the seven field checks in form order, each adding its complaint when there is one |
| BookingPage.CheckDate | BookingPage.js:94-110 | the date complaint: empty, before today, or beyond the horizon |
| BookingPage.CheckEndTime | BookingPage.js:116-124 | the end-time complaint: empty, or not after the start; the order complaint replaces the empty one |
| BookingPage.CheckPhone | BookingPage.js:130-134 | the phone complaint: blank, or not digits and hyphens |
| BookingPage.CheckNumberOfPeople | BookingPage.js:136-140 | the head-count complaint: empty, or below 1 |
| BookingPage.AddIfRecords | BookingPage.js:88-141 | adding a field's complaint keeps the map equal to the complaints of the fields handled so far |
| BookingPage.InFormOrderRecordsAll | BookingPage.js:88-141 | checking the fields one by one collects exactly the complaints of all fields |
| BookingPage.ValidFormIsBookable | BookingPage.js:87-144 | no errors means a room, a date from today to the horizon, a non-empty start before the end, a non-blank name, a phone of digits and hyphens, and at least one person |
| BookingPage.BookableFormIsValid | BookingPage.js:87-144 | the converse: a form meeting all those conditions has no errors, so validation accepts exactly the bookable forms |
| BookingPage.DateWindow | BookingPage.js:94-110 | the date has no error exactly when it is given and lies from today to today plus the horizon |
| BookingPage.PhoneRule | BookingPage.js:130-134 | the phone has no error iff it matches the pattern; a blank phone asks for input and any other non-match asks for digits and hyphens |
| BookingPage.EndTimeRule | BookingPage.js:120-124 | with both times given, the end-time error is "end not after start" exactly when the end is not after the start |
| BookingPage.TwoErrorsExample | BookingPage.js:126-134 | a form with an empty name and the phone "abc" has exactly those two errors |
| BookingPage.ThreeClauseConflict | BookingPage.js:160-164 | the three clauses of the loop body, as string comparisons; `ThreeClauseIsOverlap` proves they are interval overlap |
| BookingPage.OverlapImpliesThreeClause | BookingPage.js:160-164 | every overlap of the two half-open intervals is caught by one of the three clauses |
| BookingPage.ThreeClauseIsOverlap | BookingPage.js:160-164 | for well-formed intervals the three clauses hold exactly when the intervals overlap |
| BookingPage.TouchingIntervalsDoNotConflict | BookingPage.js:160-164 | a booking ending when another starts is not a conflict |
| BookingPage.CheckConflict | BookingPage.js:158-169 | the loop answers true exactly when some existing booking meets a clause, and so, for well-formed intervals, exactly when one overlaps |
| BookingPage.ConflictExamples | BookingPage.js:160-164 | 08:30-09:00 and 10:00-11:00 are free next to 09:00-10:00; 08:30-09:01 and 09:30-09:45 conflict |
| BookingPage.NoConflictKeepsInvariant | BookingPage.js:147-212 | a well-formed booking that passes the check against its room and day keeps the store free of double bookings |
| BookingPage.Submission | BookingPage.js:177-227 | submitting is invalid exactly when there are field errors; a save failure means the room is not in the loaded list |
| BookingPage.Saving | BookingPage.js:186-223 | after validation the outcome is never "invalid"; a save failure means the room is not in the loaded list |
| BookingPage.BookedRecordIsValid | BookingPage.js:196-210 | a written record carries the form's room, date, times, name, phone, head count and purpose, the room's name and the server time, and all of them pass validation, including a non-empty start time |
| BookingPage.ConflictIffOverlap | BookingPage.js:186-193 | a valid submission is refused as a conflict exactly when a stored booking of that room and day overlaps it |
| BookingPage.SavingKeepsNoDoubleBooking | BookingPage.js:186-212 | the record written after the check keeps the invariant |
| BookingPage.SubmissionKeepsNoDoubleBooking | BookingPage.js:177-227 | whatever the form, a successful submission keeps the store free of double bookings |
| BookingPage.BookingForm.constructor | BookingPage.js:10-30 | the empty form, no errors, nothing loaded, loading, not complete |
| BookingPage.BookingForm.LoadInitialData | BookingPage.js:37-67 | rooms sorted by `order`; when a settings document exists, it and the slots generated from it; loading ends |
| BookingPage.BookingForm.HandleChange | BookingPage.js:70-84 | the field takes the value; its error, if shown, is cleared; other fields and errors are unchanged |
| BookingPage.BookingForm.Validate | BookingPage.js:87-144 | the shown errors become the field errors, and the answer is true exactly when there are none |
| BookingPage.BookingForm.HandleSubmit | BookingPage.js:177-227 | the outcome is the submission's; only a booked outcome appends the record and shows it as complete; the invariant is kept |
| BookingPage.BookingForm.Save | BookingPage.js:186-223 | conflict check, room lookup and write, as the saving outcome says; nothing changes unless booked; the invariant is kept |
| MyBookingPage.Update | MyBookingPage.js:23-26 | the named search field takes the value and the other keeps its value |
| MyBookingPage.SearchErrors | MyBookingPage.js:38-51 | a name error exactly when the name trims to empty, a phone error exactly when the phone does, each with its message |
| MyBookingPage.SearchValidIffNotBlank | MyBookingPage.js:38-51 | the search is valid exactly when neither field is blank |
| MyBookingPage.NoPhonePatternInSearch | MyBookingPage.js:45-47 | the search accepts a phone "abc" that the booking form would refuse |
| MyBookingPage.Matches | MyBookingPage.js:67-71 | the query `representativeName ==, phoneNumber ==`: a document matches when both fields equal the search values exactly, untrimmed; `FirstMatch` and `FirstMatchLeast` state what the lookup returns |
| MyBookingPage.FirstMatch | MyBookingPage.js:67-77 | nothing exactly when no document has that name and phone; otherwise a stored document with both |
| MyBookingPage.FirstMatchLeast | MyBookingPage.js:73-77 | the document returned first has the least id among the matches |
| MyBookingPage.FirstMatchUnique | MyBookingPage.js:73-77 | with distinct ids, the match with the least id is the one returned |
| MyBookingPage.ParseTime | MyBookingPage.js:84 | a readable `HH:MM` gives at most 24 hours' worth of minutes |
| MyBookingPage.DigitValueOfDigitChar | MyBookingPage.js:84 | reading a printed digit gives the digit back |
| MyBookingPage.ParseFormatTime | MyBookingPage.js:84 | reading a slot label gives back its minutes since midnight |
| MyBookingPage.FormatParseTime | MyBookingPage.js:84 | the other round trip: every accepted `HH:MM` below 24:00 is the label of the minutes it reads as |
| MyBookingPage.IsPast | MyBookingPage.js:84-93 | `new Date(date + 'T' + startTime) < now`, an unreadable time never being past; `IsPastIffStartBeforeNow` states its meaning |
| MyBookingPage.IsPastIffStartBeforeNow | MyBookingPage.js:84-93 | past exactly when the start instant is strictly before now; at the start instant itself it is upcoming, one millisecond later past |
| MyBookingPage.IsPastMonotone | MyBookingPage.js:84-93 | once past, a booking stays past as time goes on |
| MyBookingPage.IsPastOfSlot | MyBookingPage.js:84-93 | for a start time that is a slot label, past means the day and slot minutes lie before now |
| MyBookingPage.SearchResult | MyBookingPage.js:67-96 | nothing exactly when no document matches; otherwise a stored matching document with its id and its past flag |
| MyBookingPage.LookupPage.constructor | MyBookingPage.js:8-18 | empty search, no booking, not searched, not cancelled, no errors |
| MyBookingPage.LookupPage.CancelOffered | MyBookingPage.js:153-305 | the cancel button is rendered exactly for a found booking that is not past while no cancel has completed, since a completed cancel shows the success screen instead; `HandleCancel` states that a completed cancel withdraws it |
| MyBookingPage.LookupPage.HandleChange | MyBookingPage.js:21-35 | the field takes the value; its error, if shown, is cleared; others unchanged |
| MyBookingPage.LookupPage.Validate | MyBookingPage.js:38-51 | the shown errors become the search errors; true exactly when neither field is blank |
| MyBookingPage.LookupPage.HandleSearch | MyBookingPage.js:54-105 | an invalid search changes only the errors; a valid one shows the search result and marks the page searched |
| MyBookingPage.LookupPage.HandleCancel | MyBookingPage.js:108-138 | no booking, an empty id or a refused confirm change nothing; otherwise the document is deleted and the cancel is complete, so the cancel button is no longer offered; the invariant is kept |
| MyBookingPage.LookupPage.HandleNewSearch | MyBookingPage.js:141-150 | the page returns to its initial state |
| HomePage.BookingsInWindow | HomePage.js:80-96 | the query `date >= first, date <= last` returns exactly the stored bookings dated in that range, none of them more often than stored |
| HomePage.WindowIsWeek | HomePage.js:23-29 | for the week of the current date, a booking is loaded exactly when its date is one of the seven days shown |
| HomePage.WindowKeepsNoDoubleBooking | HomePage.js:80-96 | the loaded bookings keep the no-double-booking invariant of the store |
| HomePage.BookingForSlot | HomePage.js:122-129 | nothing exactly when no loaded booking has that room, day and start time; otherwise the first such booking in the loaded list |
| HomePage.CellShowsItsBooking | HomePage.js:175-188 | under the invariant each loaded booking is the one shown in its own start cell, whatever the query order |
| HomePage.CoveredCellsAreEmpty | HomePage.js:175-188 | under the invariant the cells of slots strictly inside a booking show nothing |
| HomePage.Calendar.constructor | HomePage.js:10-15 | current date today, nothing loaded, loading |
| HomePage.Calendar.LoadInitialData | HomePage.js:32-77 | rooms sorted by `order`; slots generated from the first settings document when there is one; loading ends |
| HomePage.Calendar.LoadBookings | HomePage.js:80-100 | the loaded bookings are those dated from the first to the last of the given days |
| HomePage.Calendar.WeekChanged | HomePage.js:23-29 | once rooms are loaded, the week of the current date and its bookings, which keep the invariant; before that nothing changes |
| HomePage.Calendar.GoToPreviousWeek | HomePage.js:103-107 | seven days back, and the shown week moves back by seven days |
| HomePage.Calendar.GoToNextWeek | HomePage.js:110-114 | seven days forward, and the shown week moves forward by seven days |
| HomePage.Calendar.GoToThisWeek | HomePage.js:117-119 | the current date becomes today |

## Left out

- Network and store failures are not modelled. The model leaves out the `catch` paths of loading, searching, cancelling and saving, with their `console` and `alert` output. The one error path it keeps is the room lookup that finds nothing, where `selectedRoom.name` throws; it is `SaveFailed`.
- The check-then-write race is not modelled. Two submissions can both pass `checkConflict` before either is written; the model runs each handler to completion on one store.
- Rendering is not modelled: markup, styles, `formatDateDisplay` and the `date-fns` display formats. The rendered cancel button is the predicate `CancelOffered`, and the calendar cells are `BookingForSlot`.
- `window.confirm` and the clock become parameters: `confirmed`, `today` and `now`.
- The transient flags `submitting`, `searching` and `canceling` are not modelled. Each handler resets them in `finally` before it ends.
- `formatDate` is not modelled as a string function. Dates are day numbers, and date strings are assumed to compare as their days do.
- BookingPage.DateError: time zones are not modelled. `new Date('YYYY-MM-DD')` is UTC midnight, while `today` and `maxDate` are local, and `maxDate` carries the time of day. The model compares whole days: from today to today plus the horizon, inclusive.
- MyBookingPage.IsPast: the model reads only `HH:MM` start times. Other strings count as an invalid date, which is never past. Time zones are not modelled; `now` is on the same clock as the day numbers.
- DateUtils.GenerateTimeSlots: it receives the business hours as numbers. The `split(':').map(Number)` parsing of the settings strings, and its `NaN` cases, are not modelled. The interval must be positive, since the source loops forever otherwise.
- `parseInt` of the head count, and fractional or non-numeric number input, are not modelled. The number field holds an integer or nothing.
- JsSemantics.StrLess compares characters by code point. JavaScript compares UTF-16 code units. The two orders agree on the digit-and-colon time strings the rules compare.
- Records.SortRoomsByOrder: sort stability is not stated. The contract gives sortedness and the same rooms, not the relative order of rooms with equal `order`.
- HomePage.BookingsInWindow: keeps the order of the store's sequence, while the range query on `date` returns documents by date and then by id. The order only decides which booking `BookingForSlot` shows when two bookings share a room, day and start time, which the invariant excludes (`CellShowsItsBooking`).
- Firestore document ids are a parameter of `BookingStore.Add`. A query without `orderBy` is taken to return documents in id order, which decides which match `MyBookingPage.FirstMatch` returns.
- `InitDataPage.js`, `AdminDashboard.js` and `App.js` are not part of this model.
