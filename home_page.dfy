/** The weekly calendar: the week around the current date, the bookings
    whose date falls in that week, and the lookup that puts a booking into
    the cell of its room, day and start time. */
module HomePage {
  import opened JsSemantics
  import opened DateUtils
  import opened Records

  // ---------------------------------------------------------------------
  // The bookings of one week

  /** The query `date >= first && date <= last` over the bookings
      collection, in the order the store returns them. */
  function BookingsInWindow(docs: seq<Doc>, first: int, last: int): (r: seq<Doc>)
    ensures multiset(r) <= multiset(docs)
    ensures forall k :: 0 <= k < |r| ==> r[k] in docs && first <= r[k].data.date <= last
    ensures forall d :: d in docs && first <= d.data.date <= last ==> d in r
  {
    Filter(docs, (d: Doc) => first <= d.data.date <= last)
  }

  /** The window queried for a week runs from its Monday to its Sunday, so a
      document is loaded exactly when its date is one of the seven days
      shown. */
  lemma WindowIsWeek(docs: seq<Doc>, current: int)
    ensures forall d :: d in BookingsInWindow(docs, WeekDates(current)[0], WeekDates(current)[6]) <==>
                          d in docs && d.data.date in WeekDates(current)
  {
    var week := WeekDates(current);
    forall d | d in docs && week[0] <= d.data.date <= week[6]
      ensures d.data.date in week
    {
      assert week[d.data.date - week[0]] == d.data.date;
    }
  }

  /** The window query keeps the no-double-booking invariant: it returns a
      subsequence of the collection. */
  lemma {:induction false} WindowKeepsNoDoubleBooking(docs: seq<Doc>, first: int, last: int)
    requires NoDoubleBooking(docs)
    ensures NoDoubleBooking(BookingsInWindow(docs, first, last))
    decreases |docs|
  {
    if docs != [] {
      var d, rest := docs[0], docs[1..];
      assert docs == [d] + rest;
      NoDoubleBookingTail(d, rest);
      WindowKeepsNoDoubleBooking(rest, first, last);
      var tail := BookingsInWindow(rest, first, last);
      if first <= d.data.date <= last {
        assert BookingsInWindow(docs, first, last) == [d] + tail;
        forall k | 0 <= k < |tail| ensures Compatible(d.data, tail[k].data) {
          assert tail[k] in rest;
        }
        NoDoubleBookingPrepend(d, tail);
      } else {
        assert BookingsInWindow(docs, first, last) == tail;
      }
    }
  }

  // ---------------------------------------------------------------------
  // The cell lookup: `getBookingForSlot`

  /** The booking shown in the cell of `roomId`, day `date` and slot `time`:
      the first loaded booking of that room and day starting at that slot. */
  function BookingForSlot(bookings: seq<Doc>, roomId: string, date: int, time: string): (r: Option<Doc>)
    ensures r.None? <==> forall k :: 0 <= k < |bookings| ==>
                           !(bookings[k].data.roomId == roomId && bookings[k].data.date == date &&
                             bookings[k].data.startTime == time)
    ensures r.Some? ==> r.value in bookings && r.value.data.roomId == roomId &&
                        r.value.data.date == date && r.value.data.startTime == time
    ensures r.Some? ==> exists i :: 0 <= i < |bookings| && bookings[i] == r.value &&
                          forall j :: 0 <= j < i ==>
                            !(bookings[j].data.roomId == roomId && bookings[j].data.date == date &&
                              bookings[j].data.startTime == time)
  {
    Find(bookings, (d: Doc) => d.data.roomId == roomId && d.data.date == date && d.data.startTime == time)
  }

  /** Under the invariant, a booking is the only one of its room and day
      that starts at its start time, so its own cell shows it whatever the
      order the query returned the documents in. */
  lemma CellShowsItsBooking(bookings: seq<Doc>, i: int)
    requires NoDoubleBooking(bookings)
    requires 0 <= i < |bookings|
    ensures BookingForSlot(bookings, bookings[i].data.roomId, bookings[i].data.date,
                           bookings[i].data.startTime) == Some(bookings[i])
  {
    var b := bookings[i].data;
    forall k | 0 <= k < |bookings| && k != i && bookings[k].data.roomId == b.roomId &&
               bookings[k].data.date == b.date
      ensures bookings[k].data.startTime != b.startTime
    {
      var c := bookings[k].data;
      if k < i {
        assert Compatible(c, b);
      } else {
        assert Compatible(b, c);
      }
    }
  }

  /** A booking is drawn in its start cell only: under the invariant, the
      cells of the later slots it covers show no booking at all. */
  lemma CoveredCellsAreEmpty(bookings: seq<Doc>, i: int, time: string)
    requires NoDoubleBooking(bookings)
    requires 0 <= i < |bookings|
    requires StrLess(bookings[i].data.startTime, time) && StrLess(time, bookings[i].data.endTime)
    ensures BookingForSlot(bookings, bookings[i].data.roomId, bookings[i].data.date, time) == None
  {
    var b := bookings[i].data;
    forall k | 0 <= k < |bookings| && bookings[k].data.roomId == b.roomId && bookings[k].data.date == b.date
      ensures bookings[k].data.startTime != time
    {
      var c := bookings[k].data;
      if k == i {
        StrLessIrreflexive(time);
      } else {
        if k < i {
          assert Compatible(c, b);
        } else {
          assert Compatible(b, c);
        }
        if StrLess(b.startTime, c.startTime) && StrLess(c.startTime, c.endTime) {
          StrLessTransitive(b.startTime, c.startTime, c.endTime);
        }
      }
    }
  }

  // ---------------------------------------------------------------------
  // The page

  class Calendar {
    var currentDate: int
    var weekDates: seq<int>
    var rooms: seq<Room>
    var bookings: seq<Doc>
    var timeSlots: seq<string>
    var loading: bool

    /** The initial state: the current date is `today`, nothing is loaded. */
    constructor (today: int)
      ensures currentDate == today && weekDates == [] && rooms == [] && bookings == []
      ensures timeSlots == [] && loading
    {
      currentDate, weekDates := today, [];
      rooms, bookings, timeSlots := [], [], [];
      loading := true;
    }

    /** `loadInitialData`: the fetched rooms sorted by `order`, and the slots
        generated from the first settings document, if any. */
    method LoadInitialData(fetchedRooms: seq<Room>, fetchedSettings: seq<Settings>)
      requires fetchedSettings != [] ==> UsableSettings(fetchedSettings[0])
      modifies this`rooms, this`timeSlots, this`loading
      ensures rooms == SortRoomsByOrder(fetchedRooms)
      ensures fetchedSettings == [] ==> timeSlots == old(timeSlots)
      ensures fetchedSettings != [] ==>
                timeSlots == Labels(SlotMinutes(Minutes(fetchedSettings[0].businessStartTime),
                                                Minutes(fetchedSettings[0].businessEndTime),
                                                fetchedSettings[0].bookingIntervalMinutes))
      ensures !loading
    {
      rooms := SortRoomsByOrder(fetchedRooms);
      if fetchedSettings != [] {
        var settings := fetchedSettings[0];
        timeSlots := GenerateTimeSlots(settings.businessStartTime, settings.businessEndTime,
                                       settings.bookingIntervalMinutes);
      }
      loading := false;
    }

    /** `loadBookings`: the documents dated from the first to the last of
        the given days. */
    method LoadBookings(store: BookingStore, dates: seq<int>)
      requires |dates| == 7
      modifies this`bookings
      ensures bookings == BookingsInWindow(store.docs, dates[0], dates[6])
    {
      bookings := BookingsInWindow(store.docs, dates[0], dates[6]);
    }

    /** The effect run when the current date or the rooms change: once rooms
        are loaded, the week of the current date and its bookings. */
    method WeekChanged(store: BookingStore)
      modifies this`weekDates, this`bookings
      ensures old(rooms) == [] ==> weekDates == old(weekDates) && bookings == old(bookings)
      ensures old(rooms) != [] ==>
                weekDates == WeekDates(currentDate) &&
                bookings == BookingsInWindow(store.docs, weekDates[0], weekDates[6])
      ensures old(rooms) != [] && NoDoubleBooking(store.docs) ==> NoDoubleBooking(bookings)
    {
      if |rooms| > 0 {
        var dates := WeekDates(currentDate);
        weekDates := dates;
        LoadBookings(store, dates);
        if NoDoubleBooking(store.docs) {
          WindowKeepsNoDoubleBooking(store.docs, dates[0], dates[6]);
        }
      }
    }

    /** `goToPreviousWeek`: the current date moves back seven days. */
    method GoToPreviousWeek()
      modifies this`currentDate
      ensures currentDate == old(currentDate) - 7
      ensures forall k :: 0 <= k < 7 ==> WeekDates(currentDate)[k] == WeekDates(old(currentDate))[k] - 7
    {
      currentDate := currentDate - 7;
      NextWeekDates(currentDate);
    }

    /** `goToNextWeek`: the current date moves forward seven days. */
    method GoToNextWeek()
      modifies this`currentDate
      ensures currentDate == old(currentDate) + 7
      ensures forall k :: 0 <= k < 7 ==> WeekDates(currentDate)[k] == WeekDates(old(currentDate))[k] + 7
    {
      NextWeekDates(currentDate);
      currentDate := currentDate + 7;
    }

    /** `goToThisWeek`: the current date is today again. */
    method GoToThisWeek(today: int)
      modifies this`currentDate
      ensures currentDate == today
    {
      currentDate := today;
    }

  }

}
