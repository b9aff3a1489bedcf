/** The booking form: field-by-field validation, the overlap check against
    the bookings of the chosen room and day, and the submit handler that
    writes a booking only when both pass. */
module BookingPage {
  import opened JsSemantics
  import opened DateUtils
  import opened Records

  // ---------------------------------------------------------------------
  // Form state

  datatype Field =
    | RoomId | Date | StartTime | EndTime
    | RepresentativeName | PhoneNumber | NumberOfPeople | Purpose

  /** What an input element hands to `handleChange`: text, the day picked
      in the date input, or the number typed in the number input. `None`
      is the empty string of an untouched or cleared input. */
  datatype Input = Text(text: string) | DayInput(day: Option<int>) | CountInput(count: Option<int>)

  /** The date field carries a day, the party size a number, every other
      field text. */
  predicate Fits(name: Field, value: Input)
  {
    match name
    case Date => value.DayInput?
    case NumberOfPeople => value.CountInput?
    case _ => value.Text?
  }

  datatype FormData = FormData(
    roomId: string,
    date: Option<int>,
    startTime: string,
    endTime: string,
    representativeName: string,
    phoneNumber: string,
    numberOfPeople: Option<int>,
    purpose: string)

  const EmptyForm := FormData("", None, "", "", "", "", None, "")

  /** `formData[name]` */
  function Get(form: FormData, name: Field): (v: Input)
    ensures Fits(name, v)
  {
    match name
    case RoomId => Text(form.roomId)
    case Date => DayInput(form.date)
    case StartTime => Text(form.startTime)
    case EndTime => Text(form.endTime)
    case RepresentativeName => Text(form.representativeName)
    case PhoneNumber => Text(form.phoneNumber)
    case NumberOfPeople => CountInput(form.numberOfPeople)
    case Purpose => Text(form.purpose)
  }

  /** `{ ...form, [name]: value }`: the named field takes the new value and
      every other field keeps its old one. */
  function Set(form: FormData, name: Field, value: Input): (r: FormData)
    requires Fits(name, value)
    ensures Get(r, name) == value
    ensures forall other :: other != name ==> Get(r, other) == Get(form, other)
  {
    match name
    case RoomId => form.(roomId := value.text)
    case Date => form.(date := value.day)
    case StartTime => form.(startTime := value.text)
    case EndTime => form.(endTime := value.text)
    case RepresentativeName => form.(representativeName := value.text)
    case PhoneNumber => form.(phoneNumber := value.text)
    case NumberOfPeople => form.(numberOfPeople := value.count)
    case Purpose => form.(purpose := value.text)
  }

  /** The error messages of the form; `Cleared` is the empty message that
      `handleChange` leaves behind, which the page does not show. */
  datatype Message =
    | Cleared
    | SelectRoom
    | SelectDate | PastDate | BeyondHorizon(days: int)
    | SelectStartTime | SelectEndTime | EndNotAfterStart
    | EnterName
    | EnterPhone | PhoneDigitsAndHyphens
    | EnterNumberOfPeople | AtLeastOnePerson

  predicate Shown(errors: map<Field, Message>, name: Field)
  {
    name in errors && errors[name] != Cleared
  }

  // ---------------------------------------------------------------------
  // Validation

  /** `settings?.maxBookingDays || 60`: the configured horizon, or 60 days
      when there are no settings or the value is 0. */
  function Horizon(settings: Option<Settings>): (days: int)
    ensures days != 0
    ensures settings.Some? && settings.value.maxBookingDays != 0 ==> days == settings.value.maxBookingDays
    ensures settings.None? || settings.value.maxBookingDays == 0 ==> days == 60
  {
    if settings.None? || settings.value.maxBookingDays == 0 then 60 else settings.value.maxBookingDays
  }

  function DateError(date: Option<int>, settings: Option<Settings>, today: int): Option<Message>
  {
    if date.None? then Some(SelectDate)
    else if date.value < today then Some(PastDate)
    else if date.value > today + Horizon(settings) then Some(BeyondHorizon(Horizon(settings)))
    else None
  }

  function EndTimeError(startTime: string, endTime: string): Option<Message>
  {
    if startTime != "" && endTime != "" && !StrLess(startTime, endTime) then Some(EndNotAfterStart)
    else if endTime == "" then Some(SelectEndTime)
    else None
  }

  function PhoneError(phoneNumber: string): Option<Message>
  {
    if Trim(phoneNumber) == "" then Some(EnterPhone)
    else if !MatchesPhonePattern(phoneNumber) then Some(PhoneDigitsAndHyphens)
    else None
  }

  function NumberOfPeopleError(count: Option<int>): Option<Message>
  {
    if count.None? then Some(EnterNumberOfPeople)
    else if count.value < 1 then Some(AtLeastOnePerson)
    else None
  }

  /** The complaint about a field that must not be empty. */
  function Required(value: string, complaint: Message): Option<Message>
  {
    if value == "" then Some(complaint) else None
  }

  /** The complaint about one field, if any, given today's day number. */
  function FieldError(form: FormData, settings: Option<Settings>, today: int, name: Field): Option<Message>
  {
    match name
    case RoomId => Required(form.roomId, SelectRoom)
    case Date => DateError(form.date, settings, today)
    case StartTime => Required(form.startTime, SelectStartTime)
    case EndTime => EndTimeError(form.startTime, form.endTime)
    case RepresentativeName => Required(Trim(form.representativeName), EnterName)
    case PhoneNumber => PhoneError(form.phoneNumber)
    case NumberOfPeople => NumberOfPeopleError(form.numberOfPeople)
    case Purpose => None
  }

  const AllFields: set<Field> :=
    {RoomId, Date, StartTime, EndTime, RepresentativeName, PhoneNumber, NumberOfPeople, Purpose}

  /** One entry for every field that fails, not only the first. The purpose
      is optional and never complained about, and every entry is a message
      the page shows. */
  function FieldErrors(form: FormData, settings: Option<Settings>, today: int): (errors: map<Field, Message>)
    ensures Purpose !in errors
    ensures forall name :: name in errors ==> Shown(errors, name)
  {
    map name | name in AllFields && FieldError(form, settings, today, name).Some? ::
      FieldError(form, settings, today, name).value
  }

  /** `validate`'s construction of `newErrors`, one field after another. */
  method CollectErrors(form: FormData, settings: Option<Settings>, today: int)
    returns (newErrors: map<Field, Message>)
    ensures newErrors == FieldErrors(form, settings, today)
  {
    newErrors := map[];
    if form.roomId == "" {
      newErrors := newErrors[RoomId := SelectRoom];
    }
    newErrors := CheckDate(newErrors, form.date, settings, today);
    if form.startTime == "" {
      newErrors := newErrors[StartTime := SelectStartTime];
    }
    newErrors := CheckEndTime(newErrors, form.startTime, form.endTime);
    if Trim(form.representativeName) == "" {
      newErrors := newErrors[RepresentativeName := EnterName];
    }
    newErrors := CheckPhone(newErrors, form.phoneNumber);
    newErrors := CheckNumberOfPeople(newErrors, form.numberOfPeople);
    FieldErrorsInOrder(form, settings, today);
  }

  /** The map of all complaints, recorded field after field. */
  lemma FieldErrorsInOrder(form: FormData, settings: Option<Settings>, today: int)
    ensures FieldErrors(form, settings, today) ==
      AddIf(AddIf(AddIf(AddIf(AddIf(AddIf(AddIf(map[],
        RoomId, Required(form.roomId, SelectRoom)),
        Date, DateError(form.date, settings, today)),
        StartTime, Required(form.startTime, SelectStartTime)),
        EndTime, EndTimeError(form.startTime, form.endTime)),
        RepresentativeName, Required(Trim(form.representativeName), EnterName)),
        PhoneNumber, PhoneError(form.phoneNumber)),
        NumberOfPeople, NumberOfPeopleError(form.numberOfPeople))
  {
    var e := (name: Field) => FieldError(form, settings, today, name);
    InFormOrderRecordsAll(e);
    assert FieldErrors(form, settings, today) == InFormOrder(e);
  }

  /** The date block of `validate`: missing, in the past, or beyond the
      booking horizon. */
  method CheckDate(errors: map<Field, Message>, date: Option<int>, settings: Option<Settings>, today: int)
    returns (newErrors: map<Field, Message>)
    ensures newErrors == AddIf(errors, Date, DateError(date, settings, today))
  {
    newErrors := errors;
    if date.None? {
      newErrors := newErrors[Date := SelectDate];
    } else {
      var selectedDate := date.value;
      var maxDate := today + Horizon(settings);
      if selectedDate < today {
        newErrors := newErrors[Date := PastDate];
      } else if selectedDate > maxDate {
        newErrors := newErrors[Date := BeyondHorizon(Horizon(settings))];
      }
    }
  }

  /** The end-time block of `validate`: missing, then not after the start,
      the second complaint replacing the first. */
  method CheckEndTime(errors: map<Field, Message>, startTime: string, endTime: string)
    returns (newErrors: map<Field, Message>)
    ensures newErrors == AddIf(errors, EndTime, EndTimeError(startTime, endTime))
  {
    newErrors := errors;
    if endTime == "" {
      newErrors := newErrors[EndTime := SelectEndTime];
    }
    if startTime != "" && endTime != "" {
      if !StrLess(startTime, endTime) {
        newErrors := newErrors[EndTime := EndNotAfterStart];
      }
    }
  }

  /** The phone block of `validate`: blank, or not matching the pattern. */
  method CheckPhone(errors: map<Field, Message>, phoneNumber: string)
    returns (newErrors: map<Field, Message>)
    ensures newErrors == AddIf(errors, PhoneNumber, PhoneError(phoneNumber))
  {
    newErrors := errors;
    if Trim(phoneNumber) == "" {
      newErrors := newErrors[PhoneNumber := EnterPhone];
    } else if !MatchesPhonePattern(phoneNumber) {
      newErrors := newErrors[PhoneNumber := PhoneDigitsAndHyphens];
    }
  }

  /** The number-of-people block of `validate`: missing, or below one. */
  method CheckNumberOfPeople(errors: map<Field, Message>, count: Option<int>)
    returns (newErrors: map<Field, Message>)
    ensures newErrors == AddIf(errors, NumberOfPeople, NumberOfPeopleError(count))
  {
    newErrors := errors;
    if count.None? {
      newErrors := newErrors[NumberOfPeople := EnterNumberOfPeople];
    } else if count.value < 1 {
      newErrors := newErrors[NumberOfPeople := AtLeastOnePerson];
    }
  }

  /** `m`, with the complaint `e` recorded under `name` if there is one. */
  function AddIf(m: map<Field, Message>, name: Field, e: Option<Message>): map<Field, Message>
  {
    if e.Some? then m[name := e.value] else m
  }

  /** `m` holds exactly the complaints `f` makes about the fields in `done`. */
  ghost predicate RecordsComplaints(m: map<Field, Message>, f: Field -> Option<Message>, done: set<Field>)
  {
    forall name :: (name in m <==> name in done && f(name).Some?) &&
                   (name in m ==> m[name] == f(name).value)
  }

  lemma AddIfRecords(m: map<Field, Message>, f: Field -> Option<Message>, done: set<Field>, name: Field)
    requires RecordsComplaints(m, f, done)
    ensures RecordsComplaints(AddIf(m, name, f(name)), f, done + {name})
  {
  }

  /** The complaints `f` makes, recorded one field after another in the
      order of the form. */
  function InFormOrder(f: Field -> Option<Message>): map<Field, Message>
  {
    AddIf(AddIf(AddIf(AddIf(AddIf(AddIf(AddIf(map[],
      RoomId, f(RoomId)), Date, f(Date)), StartTime, f(StartTime)), EndTime, f(EndTime)),
      RepresentativeName, f(RepresentativeName)), PhoneNumber, f(PhoneNumber)),
      NumberOfPeople, f(NumberOfPeople))
  }

  /** Recording field after field gives every complaint, when the purpose
      field draws none. */
  lemma InFormOrderRecordsAll(f: Field -> Option<Message>)
    requires f(Purpose).None?
    ensures InFormOrder(f) == map name | name in AllFields && f(name).Some? :: f(name).value
  {
    var m0: map<Field, Message> := map[];
    var m1 := AddIf(m0, RoomId, f(RoomId));
    AddIfRecords(m0, f, {}, RoomId);
    var m2 := AddIf(m1, Date, f(Date));
    AddIfRecords(m1, f, {RoomId}, Date);
    var m3 := AddIf(m2, StartTime, f(StartTime));
    AddIfRecords(m2, f, {RoomId, Date}, StartTime);
    var m4 := AddIf(m3, EndTime, f(EndTime));
    AddIfRecords(m3, f, {RoomId, Date, StartTime}, EndTime);
    var m5 := AddIf(m4, RepresentativeName, f(RepresentativeName));
    AddIfRecords(m4, f, {RoomId, Date, StartTime, EndTime}, RepresentativeName);
    var m6 := AddIf(m5, PhoneNumber, f(PhoneNumber));
    AddIfRecords(m5, f, {RoomId, Date, StartTime, EndTime, RepresentativeName}, PhoneNumber);
    var m7 := AddIf(m6, NumberOfPeople, f(NumberOfPeople));
    AddIfRecords(m6, f, {RoomId, Date, StartTime, EndTime, RepresentativeName, PhoneNumber}, NumberOfPeople);
    var done := {RoomId, Date, StartTime, EndTime, RepresentativeName, PhoneNumber, NumberOfPeople};
    var all := map name | name in AllFields && f(name).Some? :: f(name).value;
    forall name ensures name in m7 <==> name in all {
      match name
      case Purpose =>
      case _ => assert name in done;
    }
    assert m7 == all;
  }

  /** A form without errors describes a bookable request: a room, a day in
      the booking window, a start strictly before the end, a non-blank
      name, a phone number of digits and hyphens, and at least one person. */
  lemma ValidFormIsBookable(form: FormData, settings: Option<Settings>, today: int)
    requires FieldErrors(form, settings, today) == map[]
    ensures form.roomId != ""
    ensures form.date.Some? && today <= form.date.value <= today + Horizon(settings)
    ensures form.startTime != "" && StrLess(form.startTime, form.endTime)
    ensures !IsBlank(form.representativeName)
    ensures MatchesPhonePattern(form.phoneNumber)
    ensures form.numberOfPeople.Some? && form.numberOfPeople.value >= 1
  {
    var errors := FieldErrors(form, settings, today);
    forall name | name in AllFields
      ensures FieldError(form, settings, today, name).None?
    {
      assert name !in errors;
    }
    assert FieldError(form, settings, today, RepresentativeName).None?;
    TrimEmptyIffBlank(form.representativeName);
  }

  /** The converse: a bookable request passes every check, so validation
      accepts exactly the bookable forms. */
  lemma BookableFormIsValid(form: FormData, settings: Option<Settings>, today: int)
    requires form.roomId != ""
    requires form.date.Some? && today <= form.date.value <= today + Horizon(settings)
    requires form.startTime != "" && StrLess(form.startTime, form.endTime)
    requires !IsBlank(form.representativeName)
    requires MatchesPhonePattern(form.phoneNumber)
    requires form.numberOfPeople.Some? && form.numberOfPeople.value >= 1
    ensures FieldErrors(form, settings, today) == map[]
  {
    TrimEmptyIffBlank(form.representativeName);
    PhonePatternNotBlank(form.phoneNumber);
    forall name | name in AllFields
      ensures FieldError(form, settings, today, name).None?
    {
    }
  }

  /** The date is accepted exactly inside [today, today + horizon]. */
  lemma DateWindow(form: FormData, settings: Option<Settings>, today: int)
    ensures Date !in FieldErrors(form, settings, today) <==>
            form.date.Some? && today <= form.date.value <= today + Horizon(settings)
  {
  }

  /** The phone number is accepted exactly when it matches `^[0-9-]+$`;
      a blank one is reported as missing, any other mismatch as a format
      error. */
  lemma PhoneRule(form: FormData, settings: Option<Settings>, today: int)
    ensures PhoneNumber !in FieldErrors(form, settings, today) <==> MatchesPhonePattern(form.phoneNumber)
    ensures IsBlank(form.phoneNumber) ==> FieldErrors(form, settings, today)[PhoneNumber] == EnterPhone
    ensures !IsBlank(form.phoneNumber) && !MatchesPhonePattern(form.phoneNumber) ==>
            FieldErrors(form, settings, today)[PhoneNumber] == PhoneDigitsAndHyphens
  {
    TrimEmptyIffBlank(form.phoneNumber);
    if MatchesPhonePattern(form.phoneNumber) {
      PhonePatternNotBlank(form.phoneNumber);
    }
  }

  /** With both times chosen and the start not before the end, the end
      time carries the ordering error. */
  lemma EndTimeRule(form: FormData, settings: Option<Settings>, today: int)
    requires form.startTime != "" && form.endTime != ""
    ensures !StrLess(form.startTime, form.endTime) <==>
            EndTime in FieldErrors(form, settings, today) &&
            FieldErrors(form, settings, today)[EndTime] == EndNotAfterStart
  {
  }

  /** An otherwise complete form with an empty name and the phone number
      "abc" yields exactly two errors, keyed by the name and the phone. */
  lemma TwoErrorsExample(today: int)
    ensures var form := FormData("room1", Some(today), "09:00", "10:00", "", "abc", Some(3), "");
      var errors := FieldErrors(form, None, today);
      errors.Keys == {RepresentativeName, PhoneNumber} &&
      errors[RepresentativeName] == EnterName && errors[PhoneNumber] == PhoneDigitsAndHyphens
  {
    var form := FormData("room1", Some(today), "09:00", "10:00", "", "abc", Some(3), "");
    assert StrLess("09:00", "10:00");
    assert !IsBlank("abc") by {
      assert !IsJsWhitespace("abc"[0]);
    }
    TrimEmptyIffBlank("abc");
    assert !MatchesPhonePattern("abc") by {
      assert !IsDigit("abc"[0]);
    }
    var errors := FieldErrors(form, None, today);
    assert errors.Keys == {RepresentativeName, PhoneNumber};
  }

  // ---------------------------------------------------------------------
  // The conflict check

  /** The source's test of a candidate [startTime, endTime) against an
      existing booking, in three clauses. */
  predicate ThreeClauseConflict(startTime: string, endTime: string, b: Booking)
  {
    (!StrLess(startTime, b.startTime) && StrLess(startTime, b.endTime)) ||
    (StrLess(b.startTime, endTime) && !StrLess(b.endTime, endTime)) ||
    (!StrLess(b.startTime, startTime) && !StrLess(endTime, b.endTime))
  }

  /** Overlap always trips the three-clause test. */
  lemma OverlapImpliesThreeClause(startTime: string, endTime: string, b: Booking)
    requires Overlaps(startTime, endTime, b.startTime, b.endTime)
    ensures ThreeClauseConflict(startTime, endTime, b)
  {
    StrLessTotal(startTime, b.startTime);
    StrLessTotal(endTime, b.endTime);
    if StrLess(startTime, b.startTime) && StrLess(b.endTime, endTime) {
      StrLessAsymmetric(startTime, b.startTime);
      StrLessAsymmetric(b.endTime, endTime);
    }
  }

  /** On well-formed intervals the three-clause test is the half-open
      overlap test. */
  lemma ThreeClauseIsOverlap(startTime: string, endTime: string, b: Booking)
    requires StrLess(startTime, endTime) && StrLess(b.startTime, b.endTime)
    ensures ThreeClauseConflict(startTime, endTime, b) <==> Overlaps(startTime, endTime, b.startTime, b.endTime)
  {
    if ThreeClauseConflict(startTime, endTime, b) {
      StrLessTotal(startTime, b.startTime);
      StrLessTotal(endTime, b.endTime);
      StrLessTotal(b.startTime, endTime);
      StrLessTotal(startTime, b.endTime);
      if !StrLess(startTime, b.startTime) && StrLess(startTime, b.endTime) {
        if startTime != b.startTime {
          StrLessTransitive(b.startTime, startTime, endTime);
        }
      } else if StrLess(b.startTime, endTime) && !StrLess(b.endTime, endTime) {
        if b.endTime != endTime {
          StrLessTransitive(startTime, endTime, b.endTime);
        }
      } else {
        if b.startTime != startTime {
          StrLessTransitive(startTime, b.startTime, b.endTime);
        }
        if endTime != b.endTime {
          StrLessTransitive(b.startTime, b.endTime, endTime);
        }
      }
    } else if Overlaps(startTime, endTime, b.startTime, b.endTime) {
      OverlapImpliesThreeClause(startTime, endTime, b);
    }
  }

  /** Intervals that only touch (one ends where the other starts) do not
      conflict. */
  lemma TouchingIntervalsDoNotConflict(startTime: string, endTime: string, b: Booking)
    requires StrLess(startTime, endTime) && StrLess(b.startTime, b.endTime)
    requires endTime == b.startTime || b.endTime == startTime
    ensures !ThreeClauseConflict(startTime, endTime, b)
  {
    ThreeClauseIsOverlap(startTime, endTime, b);
    StrLessIrreflexive(endTime);
    StrLessIrreflexive(startTime);
    if endTime == b.startTime {
      StrLessAsymmetric(startTime, endTime);
    } else {
      StrLessAsymmetric(b.startTime, b.endTime);
    }
  }

  /** `checkConflict`'s loop over the bookings of the chosen room and day:
      true on the first booking the three-clause test flags. */
  method CheckConflict(startTime: string, endTime: string, existingBookings: seq<Booking>)
    returns (conflict: bool)
    ensures conflict <==> exists i :: 0 <= i < |existingBookings| &&
                                      ThreeClauseConflict(startTime, endTime, existingBookings[i])
    ensures StrLess(startTime, endTime) &&
            (forall i :: 0 <= i < |existingBookings| ==>
               StrLess(existingBookings[i].startTime, existingBookings[i].endTime)) ==>
            (conflict <==>
               exists i :: 0 <= i < |existingBookings| &&
                           Overlaps(startTime, endTime, existingBookings[i].startTime, existingBookings[i].endTime))
  {
    for i := 0 to |existingBookings|
      invariant forall j :: 0 <= j < i ==> !ThreeClauseConflict(startTime, endTime, existingBookings[j])
    {
      var booking := existingBookings[i];
      if ThreeClauseConflict(startTime, endTime, booking) {
        forall j | 0 <= j < |existingBookings| && StrLess(startTime, endTime) &&
                   StrLess(existingBookings[j].startTime, existingBookings[j].endTime)
          ensures ThreeClauseConflict(startTime, endTime, existingBookings[j]) <==>
                  Overlaps(startTime, endTime, existingBookings[j].startTime, existingBookings[j].endTime)
        {
          ThreeClauseIsOverlap(startTime, endTime, existingBookings[j]);
        }
        return true;
      }
    }
    forall j | 0 <= j < |existingBookings|
      ensures !Overlaps(startTime, endTime, existingBookings[j].startTime, existingBookings[j].endTime)
    {
      if Overlaps(startTime, endTime, existingBookings[j].startTime, existingBookings[j].endTime) {
        OverlapImpliesThreeClause(startTime, endTime, existingBookings[j]);
      }
    }
    return false;
  }

  /** The examples against an existing booking [09:00, 10:00). */
  lemma ConflictExamples()
    ensures var b := Booking("r", "R", 0, "09:00", "10:00", "n", "1", 1, "", 0);
      !ThreeClauseConflict("08:30", "09:00", b) &&
      ThreeClauseConflict("08:30", "09:01", b) &&
      !ThreeClauseConflict("10:00", "11:00", b) &&
      ThreeClauseConflict("09:30", "09:45", b)
  {
  }

  /** A well-formed booking that the check lets through keeps the store
      free of double bookings. */
  lemma NoConflictKeepsInvariant(docs: seq<Doc>, existing: seq<Booking>, d: Doc)
    requires NoDoubleBooking(docs)
    requires existing == BookingsOfRoomOnDate(docs, d.data.roomId, d.data.date)
    requires StrLess(d.data.startTime, d.data.endTime)
    requires forall i :: 0 <= i < |existing| ==> !ThreeClauseConflict(d.data.startTime, d.data.endTime, existing[i])
    ensures NoDoubleBooking(docs + [d])
  {
    forall i | 0 <= i < |docs| && docs[i].data.roomId == d.data.roomId && docs[i].data.date == d.data.date
      ensures !Overlaps(d.data.startTime, d.data.endTime, docs[i].data.startTime, docs[i].data.endTime)
    {
      var k :| 0 <= k < |existing| && existing[k] == docs[i].data;
      if Overlaps(d.data.startTime, d.data.endTime, docs[i].data.startTime, docs[i].data.endTime) {
        OverlapImpliesThreeClause(d.data.startTime, d.data.endTime, existing[k]);
      }
    }
    AddKeepsNoDoubleBooking(docs, d);
  }

  // ---------------------------------------------------------------------
  // The page

  datatype SubmitOutcome =
    | Invalid             // validation failed; the errors are shown
    | Conflict            // the slot is taken; nothing is written
    | SaveFailed          // the chosen room is not among the loaded rooms
    | Booked(record: Booking)

  /** What submitting `form` against the stored documents `docs` and the
      loaded `rooms` leads to: the validation errors, then the conflict
      check against the bookings of the chosen room and day, then the room
      lookup, then the record that is written. */
  function Submission(docs: seq<Doc>, rooms: seq<Room>, form: FormData, settings: Option<Settings>,
                      today: int, now: int): (outcome: SubmitOutcome)
    ensures outcome.Invalid? <==> FieldErrors(form, settings, today) != map[]
    ensures outcome.SaveFailed? ==> FindRoom(rooms, form.roomId).None?
  {
    if FieldErrors(form, settings, today) != map[] then Invalid
    else
      ValidFormIsBookable(form, settings, today);
      Saving(docs, rooms, form, now)
  }

  /** The part of a submission after validation: the conflict check against
      the bookings of the chosen room and day, the room lookup, and the
      record that is written. */
  function Saving(docs: seq<Doc>, rooms: seq<Room>, form: FormData, now: int): (outcome: SubmitOutcome)
    requires form.date.Some? && form.numberOfPeople.Some?
    ensures !outcome.Invalid?
    ensures outcome.SaveFailed? ==> FindRoom(rooms, form.roomId).None?
  {
    var existing := BookingsOfRoomOnDate(docs, form.roomId, form.date.value);
    if exists i :: 0 <= i < |existing| && ThreeClauseConflict(form.startTime, form.endTime, existing[i])
    then Conflict
    else
      match FindRoom(rooms, form.roomId)
      case None => SaveFailed
      case Some(room) =>
        Booked(Booking(form.roomId, room.name, form.date.value, form.startTime, form.endTime,
                       form.representativeName, form.phoneNumber, form.numberOfPeople.value,
                       form.purpose, now))
  }

  /** The record written is the form's content with the room's name and the
      creation time, and it passed every check: a non-empty room, a date in
      the booking window, an end after the start, a non-blank name, a phone
      number of digits and hyphens, at least one person. */
  lemma BookedRecordIsValid(docs: seq<Doc>, rooms: seq<Room>, form: FormData, settings: Option<Settings>,
                            today: int, now: int)
    requires Submission(docs, rooms, form, settings, today, now).Booked?
    ensures var r := Submission(docs, rooms, form, settings, today, now).record;
      FindRoom(rooms, form.roomId).Some? && r.roomName == FindRoom(rooms, form.roomId).value.name &&
      r.roomId == form.roomId != "" && Some(r.date) == form.date &&
      today <= r.date <= today + Horizon(settings) &&
      r.startTime == form.startTime && r.endTime == form.endTime &&
      r.startTime != "" && StrLess(r.startTime, r.endTime) &&
      r.representativeName == form.representativeName && !IsBlank(r.representativeName) &&
      r.phoneNumber == form.phoneNumber && MatchesPhonePattern(r.phoneNumber) &&
      Some(r.numberOfPeople) == form.numberOfPeople && r.numberOfPeople >= 1 &&
      r.purpose == form.purpose && r.createdAt == now
  {
    ValidFormIsBookable(form, settings, today);
  }

  /** A valid form is refused as a conflict exactly when its interval
      overlaps a stored booking of the same room and day, provided the
      stored bookings end after they start. */
  lemma ConflictIffOverlap(docs: seq<Doc>, rooms: seq<Room>, form: FormData, settings: Option<Settings>,
                           today: int, now: int)
    requires FieldErrors(form, settings, today) == map[]
    requires forall i :: 0 <= i < |docs| ==> StrLess(docs[i].data.startTime, docs[i].data.endTime)
    ensures form.date.Some?
    ensures Submission(docs, rooms, form, settings, today, now).Conflict? <==>
              exists i :: 0 <= i < |docs| && docs[i].data.roomId == form.roomId &&
                          Some(docs[i].data.date) == form.date &&
                          Overlaps(form.startTime, form.endTime, docs[i].data.startTime, docs[i].data.endTime)
  {
    ValidFormIsBookable(form, settings, today);
    var existing := BookingsOfRoomOnDate(docs, form.roomId, form.date.value);
    if Submission(docs, rooms, form, settings, today, now).Conflict? {
      var k :| 0 <= k < |existing| && ThreeClauseConflict(form.startTime, form.endTime, existing[k]);
      var j :| 0 <= j < |docs| && docs[j].data == existing[k];
      ThreeClauseIsOverlap(form.startTime, form.endTime, existing[k]);
    } else {
      forall j | 0 <= j < |docs| && docs[j].data.roomId == form.roomId && Some(docs[j].data.date) == form.date
        ensures !Overlaps(form.startTime, form.endTime, docs[j].data.startTime, docs[j].data.endTime)
      {
        assert docs[j].data in existing;
        var k :| 0 <= k < |existing| && existing[k] == docs[j].data;
        if Overlaps(form.startTime, form.endTime, docs[j].data.startTime, docs[j].data.endTime) {
          OverlapImpliesThreeClause(form.startTime, form.endTime, existing[k]);
        }
      }
    }
  }

  /** Writing the record of a successful save keeps the store free of
      double bookings. */
  lemma SavingKeepsNoDoubleBooking(docs: seq<Doc>, rooms: seq<Room>, form: FormData, now: int, id: string)
    requires NoDoubleBooking(docs)
    requires form.date.Some? && form.numberOfPeople.Some? && StrLess(form.startTime, form.endTime)
    requires Saving(docs, rooms, form, now).Booked?
    ensures NoDoubleBooking(docs + [Doc(id, Saving(docs, rooms, form, now).record)])
  {
    var r := Saving(docs, rooms, form, now).record;
    NoConflictKeepsInvariant(docs, BookingsOfRoomOnDate(docs, form.roomId, form.date.value), Doc(id, r));
  }

  /** Writing the record of a successful submission keeps the store free of
      double bookings. */
  lemma SubmissionKeepsNoDoubleBooking(docs: seq<Doc>, rooms: seq<Room>, form: FormData,
                                       settings: Option<Settings>, today: int, now: int, id: string)
    requires NoDoubleBooking(docs)
    requires Submission(docs, rooms, form, settings, today, now).Booked?
    ensures NoDoubleBooking(docs + [Doc(id, Submission(docs, rooms, form, settings, today, now).record)])
  {
    ValidFormIsBookable(form, settings, today);
    SavingKeepsNoDoubleBooking(docs, rooms, form, now, id);
  }

  class BookingForm {
    var rooms: seq<Room>
    var settings: Option<Settings>
    var timeSlots: seq<string>
    var formData: FormData
    var errors: map<Field, Message>
    var loading: bool
    var bookingComplete: bool
    var bookingDetails: Option<Booking>

    constructor ()
      ensures rooms == [] && settings == None && timeSlots == []
      ensures formData == EmptyForm && errors == map[]
      ensures loading && !bookingComplete && bookingDetails == None
    {
      rooms, settings, timeSlots := [], None, [];
      formData, errors := EmptyForm, map[];
      loading, bookingComplete, bookingDetails := true, false, None;
    }

    /** `loadInitialData`: the fetched rooms sorted by `order`; the first
        settings document, if any, and the slots generated from it. */
    method LoadInitialData(fetchedRooms: seq<Room>, fetchedSettings: seq<Settings>)
      requires fetchedSettings != [] ==> UsableSettings(fetchedSettings[0])
      modifies this`rooms, this`settings, this`timeSlots, this`loading
      ensures rooms == SortRoomsByOrder(fetchedRooms)
      ensures fetchedSettings == [] ==> settings == old(settings) && timeSlots == old(timeSlots)
      ensures fetchedSettings != [] ==>
                settings == Some(fetchedSettings[0]) &&
                timeSlots == Labels(SlotMinutes(Minutes(fetchedSettings[0].businessStartTime),
                                                Minutes(fetchedSettings[0].businessEndTime),
                                                fetchedSettings[0].bookingIntervalMinutes))
      ensures !loading
    {
      rooms := SortRoomsByOrder(fetchedRooms);
      if fetchedSettings != [] {
        var settingsData := fetchedSettings[0];
        settings := Some(settingsData);
        timeSlots := GenerateTimeSlots(settingsData.businessStartTime, settingsData.businessEndTime,
                                       settingsData.bookingIntervalMinutes);
      }
      loading := false;
    }

    /** `handleChange`: the named field takes the value; that field's error,
        if shown, is cleared; every other field and error is unchanged. */
    method HandleChange(name: Field, value: Input)
      requires Fits(name, value)
      modifies this`formData, this`errors
      ensures formData == Set(old(formData), name, value)
      ensures errors == if Shown(old(errors), name) then old(errors)[name := Cleared] else old(errors)
      ensures !Shown(errors, name)
      ensures forall other :: other != name ==>
                (other in errors <==> other in old(errors)) &&
                (other in errors ==> errors[other] == old(errors)[other])
    {
      formData := Set(formData, name, value);
      if Shown(errors, name) {
        errors := errors[name := Cleared];
      }
    }

    /** `validate`: the errors of the current form replace the old ones;
        true when there are none. */
    method Validate(today: int) returns (ok: bool)
      modifies this`errors
      ensures errors == FieldErrors(formData, settings, today)
      ensures ok <==> errors == map[]
    {
      var newErrors := CollectErrors(formData, settings, today);
      errors := newErrors;
      ok := |newErrors| == 0;
      if !ok {
        assert newErrors != map[];
      }
    }

    /** `handleSubmit`, with `today` the current day, `now` the creation
        timestamp, and `newId` the id the server gives the new document. */
    method HandleSubmit(store: BookingStore, today: int, now: int, newId: string)
      returns (outcome: SubmitOutcome)
      requires store.Valid() && newId != "" && !store.Contains(newId)
      modifies store, this`errors, this`bookingComplete, this`bookingDetails
      ensures store.Valid()
      ensures outcome == Submission(old(store.docs), rooms, formData, settings, today, now)
      ensures errors == FieldErrors(formData, settings, today)
      ensures outcome.Booked? ==>
                store.docs == old(store.docs) + [Doc(newId, outcome.record)] &&
                bookingComplete && bookingDetails == Some(outcome.record)
      ensures !outcome.Booked? ==>
                store.docs == old(store.docs) &&
                bookingComplete == old(bookingComplete) && bookingDetails == old(bookingDetails)
      ensures NoDoubleBooking(old(store.docs)) ==> NoDoubleBooking(store.docs)
    {
      var ok := Validate(today);
      if !ok {
        return Invalid;
      }
      ValidFormIsBookable(formData, settings, today);
      outcome := Save(store, now, newId);
    }

    /** The `try` block of `handleSubmit`, on a form that passed validation:
        the conflict check, the room lookup, and the write. */
    method Save(store: BookingStore, now: int, newId: string) returns (outcome: SubmitOutcome)
      requires store.Valid() && newId != "" && !store.Contains(newId)
      requires formData.date.Some? && formData.numberOfPeople.Some?
      requires StrLess(formData.startTime, formData.endTime)
      modifies store, this`bookingComplete, this`bookingDetails
      ensures store.Valid()
      ensures outcome == Saving(old(store.docs), rooms, formData, now)
      ensures outcome.Booked? ==>
                store.docs == old(store.docs) + [Doc(newId, outcome.record)] &&
                bookingComplete && bookingDetails == Some(outcome.record)
      ensures !outcome.Booked? ==>
                store.docs == old(store.docs) &&
                bookingComplete == old(bookingComplete) && bookingDetails == old(bookingDetails)
      ensures NoDoubleBooking(old(store.docs)) ==> NoDoubleBooking(store.docs)
    {
      var existingBookings := BookingsOfRoomOnDate(store.docs, formData.roomId, formData.date.value);
      var hasConflict := CheckConflict(formData.startTime, formData.endTime, existingBookings);
      if hasConflict {
        return Conflict;
      }

      var selectedRoom := FindRoom(rooms, formData.roomId);
      if selectedRoom.None? {
        return SaveFailed;
      }

      var bookingData := Booking(
        formData.roomId,
        selectedRoom.value.name,
        formData.date.value,
        formData.startTime,
        formData.endTime,
        formData.representativeName,
        formData.phoneNumber,
        formData.numberOfPeople.value,
        formData.purpose,
        now);

      if NoDoubleBooking(store.docs) {
        SavingKeepsNoDoubleBooking(store.docs, rooms, formData, now, newId);
      }
      store.Add(newId, bookingData);

      bookingDetails := Some(bookingData);
      bookingComplete := true;
      outcome := Booked(bookingData);
    }
  }
}
