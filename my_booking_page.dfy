/** The booking lookup page: a search by representative name and phone
    number, the classification of the booking found as past or upcoming,
    and its cancellation. */
module MyBookingPage {
  import opened JsSemantics
  import opened DateUtils
  import opened Records

  // ---------------------------------------------------------------------
  // The search form

  datatype SearchField = RepresentativeName | PhoneNumber

  datatype SearchData = SearchData(representativeName: string, phoneNumber: string)

  const EmptySearch := SearchData("", "")

  function Value(data: SearchData, name: SearchField): string
  {
    match name
    case RepresentativeName => data.representativeName
    case PhoneNumber => data.phoneNumber
  }

  /** `{ ...prev, [name]: value }` */
  function Update(data: SearchData, name: SearchField, value: string): (r: SearchData)
    ensures Value(r, name) == value
    ensures forall other :: other != name ==> Value(r, other) == Value(data, other)
  {
    match name
    case RepresentativeName => data.(representativeName := value)
    case PhoneNumber => data.(phoneNumber := value)
  }

  /** The messages of the search form; `Cleared` is the empty message a
      change of the field leaves behind. */
  datatype Complaint = Cleared | EnterName | EnterPhone

  predicate Shown(errors: map<SearchField, Complaint>, name: SearchField)
  {
    name in errors && errors[name] != Cleared
  }

  /** `validate`'s `newErrors`: a complaint for each field that is empty
      after trimming. The phone number has no format rule here. */
  function SearchErrors(data: SearchData): (errors: map<SearchField, Complaint>)
    ensures RepresentativeName in errors <==> Trim(data.representativeName) == ""
    ensures PhoneNumber in errors <==> Trim(data.phoneNumber) == ""
    ensures RepresentativeName in errors ==> errors[RepresentativeName] == EnterName
    ensures PhoneNumber in errors ==> errors[PhoneNumber] == EnterPhone
  {
    var withName: map<SearchField, Complaint> :=
      if Trim(data.representativeName) == "" then map[RepresentativeName := EnterName] else map[];
    if Trim(data.phoneNumber) == "" then withName[PhoneNumber := EnterPhone] else withName
  }

  /** The search is accepted exactly when neither field is blank. */
  lemma SearchValidIffNotBlank(data: SearchData)
    ensures SearchErrors(data) == map[] <==>
              !IsBlank(data.representativeName) && !IsBlank(data.phoneNumber)
  {
    TrimEmptyIffBlank(data.representativeName);
    TrimEmptyIffBlank(data.phoneNumber);
    var errors := SearchErrors(data);
    if errors == map[] {
      assert RepresentativeName !in errors && PhoneNumber !in errors;
    } else {
      var k :| k in errors;
      assert k == RepresentativeName || k == PhoneNumber;
    }
  }

  /** The phone number is never checked against the booking form's pattern:
      a search with letters in the phone number is accepted. */
  lemma NoPhonePatternInSearch()
    ensures SearchErrors(SearchData("Yamada", "abc")) == map[]
    ensures !MatchesPhonePattern("abc")
  {
    assert !IsJsWhitespace('Y') && !IsJsWhitespace('a');
    TrimEmptyIffBlank("Yamada");
    TrimEmptyIffBlank("abc");
    assert !IsDigit("abc"[0]);
  }

  // ---------------------------------------------------------------------
  // The query

  /** A document the query `where(representativeName == name),
      where(phoneNumber == phone)` returns: both fields equal exactly. */
  predicate Matches(d: Doc, name: string, phone: string)
  {
    d.data.representativeName == name && d.data.phoneNumber == phone
  }

  /** `bookingsSnapshot.docs[0]`: of the matching documents, the one the
      query returns first. A query without an ordering returns documents in
      ascending id order, so this is the match with the least id. */
  function FirstMatch(docs: seq<Doc>, name: string, phone: string): (r: Option<Doc>)
    ensures r.None? <==> forall i :: 0 <= i < |docs| ==> !Matches(docs[i], name, phone)
    ensures r.Some? ==> r.value in docs && Matches(r.value, name, phone)
  {
    if docs == [] then None
    else
      var rest := FirstMatch(docs[1..], name, phone);
      assert forall i :: 1 <= i < |docs| ==> docs[i] == docs[1..][i - 1];
      if Matches(docs[0], name, phone) && (rest.None? || StrLess(docs[0].id, rest.value.id)) then Some(docs[0])
      else rest
  }

  /** No matching document has a smaller id than the one returned. */
  lemma {:induction false} FirstMatchLeast(docs: seq<Doc>, name: string, phone: string)
    requires FirstMatch(docs, name, phone).Some?
    ensures forall i :: 0 <= i < |docs| && Matches(docs[i], name, phone) ==>
                        !StrLess(docs[i].id, FirstMatch(docs, name, phone).value.id)
  {
    var r := FirstMatch(docs, name, phone).value;
    var rest := FirstMatch(docs[1..], name, phone);
    assert forall i :: 1 <= i < |docs| ==> docs[i] == docs[1..][i - 1];
    if rest.Some? {
      FirstMatchLeast(docs[1..], name, phone);
    }
    forall i | 0 <= i < |docs| && Matches(docs[i], name, phone)
      ensures !StrLess(docs[i].id, r.id)
    {
      if i == 0 {
        if r == docs[0] {
          StrLessIrreflexive(r.id);
        } else {
          // docs[0] matches but was passed over: rest's id is not larger.
          StrLessTotal(docs[0].id, r.id);
          if docs[0].id != r.id {
            StrLessAsymmetric(r.id, docs[0].id);
          } else {
            StrLessIrreflexive(r.id);
          }
        }
      } else {
        assert docs[1..][i - 1] == docs[i];
        if r == docs[0] && rest.Some? && StrLess(docs[i].id, r.id) {
          StrLessTransitive(docs[i].id, r.id, rest.value.id);
        }
      }
    }
  }

  /** With distinct ids the match returned is unique: it is the only
      matching document whose id no other match undercuts. */
  lemma FirstMatchUnique(docs: seq<Doc>, name: string, phone: string, i: nat)
    requires IdsDistinct(docs) && i < |docs| && Matches(docs[i], name, phone)
    requires forall j :: 0 <= j < |docs| && Matches(docs[j], name, phone) ==> !StrLess(docs[j].id, docs[i].id)
    ensures FirstMatch(docs, name, phone) == Some(docs[i])
  {
    var r := FirstMatch(docs, name, phone).value;
    FirstMatchLeast(docs, name, phone);
    var k :| 0 <= k < |docs| && docs[k] == r;
    StrLessTotal(docs[i].id, r.id);
  }

  // ---------------------------------------------------------------------
  // Past or upcoming

  /** The minutes since midnight of an `HH:MM` string as an ISO date-time
      string's time part reads it: hours 00 to 23 with minutes 00 to 59, or
      exactly 24:00; anything else makes an invalid date. */
  function ParseTime(s: string): (r: Option<nat>)
    ensures r.Some? ==> r.value <= 1440
  {
    if |s| == 5 && IsDigit(s[0]) && IsDigit(s[1]) && s[2] == ':' && IsDigit(s[3]) && IsDigit(s[4]) then
      var h := 10 * DigitValue(s[0]) + DigitValue(s[1]);
      var m := 10 * DigitValue(s[3]) + DigitValue(s[4]);
      if (h <= 23 && m <= 59) || (h == 24 && m == 0) then Some(h * 60 + m) else None
    else None
  }

  function DigitValue(c: char): (d: nat)
    requires IsDigit(c)
    ensures d < 10
  {
    (c as int) - ('0' as int)
  }

  lemma DigitValueOfDigitChar(d: nat)
    requires d < 10
    ensures DigitValue(DigitChar(d)) == d
  {
  }

  lemma DigitCharOfDigitValue(c: char)
    requires IsDigit(c)
    ensures DigitChar(DigitValue(c)) == c
  {
  }

  /** Reading a time of day and printing it again gives the same string:
      every accepted `HH:MM` below 24:00 is the label of its minutes. */
  lemma FormatParseTime(s: string, t: nat)
    requires ParseTime(s) == Some(t) && t < 1440
    ensures SlotLabel(t) == s
  {
    var a, b := DigitValue(s[0]), DigitValue(s[1]);
    var c, d := DigitValue(s[3]), DigitValue(s[4]);
    var h, m := 10 * a + b, 10 * c + d;
    assert t == h * 60 + m && m < 60;
    SplitMinutes(h, m);
    assert h / 10 == a && h % 10 == b && m / 10 == c && m % 10 == d;
    DigitCharOfDigitValue(s[0]);
    DigitCharOfDigitValue(s[1]);
    DigitCharOfDigitValue(s[3]);
    DigitCharOfDigitValue(s[4]);
    assert Pad2(h) == [s[0], s[1]] && Pad2(m) == [s[3], s[4]];
    assert SlotLabel(t) == Pad2(h) + ":" + Pad2(m);
  }

  /** Reading back a label the slot generator writes gives its time. */
  lemma ParseFormatTime(c: Clock)
    requires c.hour < 24 && WellFormed(c)
    ensures ParseTime(FormatTime(c)) == Some(Minutes(c))
  {
    var s := FormatTime(c);
    assert Pad2(c.hour) == [DigitChar(c.hour / 10), DigitChar(c.hour % 10)];
    assert Pad2(c.minute) == [DigitChar(c.minute / 10), DigitChar(c.minute % 10)];
    assert s == [DigitChar(c.hour / 10), DigitChar(c.hour % 10), ':', DigitChar(c.minute / 10), DigitChar(c.minute % 10)];
    DigitValueOfDigitChar(c.hour / 10);
    DigitValueOfDigitChar(c.hour % 10);
    DigitValueOfDigitChar(c.minute / 10);
    DigitValueOfDigitChar(c.minute % 10);
  }

  const MillisPerMinute := 60000
  const MinutesPerDay := 1440

  /** `new Date(`${date}T${startTime}`) < now`, with `now` in milliseconds
      on the same local clock as the day numbers. An unreadable start time
      gives an invalid date, which is never before anything. */
  function IsPast(b: Booking, now: int): bool
  {
    match ParseTime(b.startTime)
    case None => false
    case Some(t) => (b.date * MinutesPerDay + t) * MillisPerMinute < now
  }

  /** A booking is past exactly when its start lies strictly before now: one
      starting at this very millisecond is still upcoming. */
  lemma IsPastIffStartBeforeNow(b: Booking, now: int, t: nat)
    requires ParseTime(b.startTime) == Some(t)
    ensures IsPast(b, now) <==> (b.date * MinutesPerDay + t) * MillisPerMinute < now
    ensures !IsPast(b, (b.date * MinutesPerDay + t) * MillisPerMinute)
    ensures IsPast(b, (b.date * MinutesPerDay + t) * MillisPerMinute + 1)
  {
  }

  /** Once past, always past. */
  lemma IsPastMonotone(b: Booking, now: int, later: int)
    requires IsPast(b, now) && now <= later
    ensures IsPast(b, later)
  {
  }

  /** The start of a booking made from a generated slot on day `date` is the
      slot's time on that day. */
  lemma IsPastOfSlot(b: Booking, c: Clock, now: int)
    requires c.hour < 24 && WellFormed(c) && b.startTime == FormatTime(c)
    ensures IsPast(b, now) <==> (b.date * MinutesPerDay + Minutes(c)) * MillisPerMinute < now
  {
    ParseFormatTime(c);
  }

  /** The booking shown: its document id, its data, and whether it is past. */
  datatype FoundBooking = FoundBooking(id: string, data: Booking, isPast: bool)

  /** The outcome of a search that passed validation. */
  function SearchResult(docs: seq<Doc>, data: SearchData, now: int): (r: Option<FoundBooking>)
    ensures r.None? <==> forall i :: 0 <= i < |docs| ==>
                           !Matches(docs[i], data.representativeName, data.phoneNumber)
    ensures r.Some? ==> Doc(r.value.id, r.value.data) in docs &&
                        r.value.data.representativeName == data.representativeName &&
                        r.value.data.phoneNumber == data.phoneNumber &&
                        r.value.isPast == IsPast(r.value.data, now)
  {
    match FirstMatch(docs, data.representativeName, data.phoneNumber)
    case None => None
    case Some(d) => Some(FoundBooking(d.id, d.data, IsPast(d.data, now)))
  }

  // ---------------------------------------------------------------------
  // The page

  class LookupPage {
    var searchData: SearchData
    var booking: Option<FoundBooking>
    var searched: bool
    var cancelComplete: bool
    var errors: map<SearchField, Complaint>

    /** The page as it first renders. */
    ghost predicate Initial()
      reads this
    {
      searchData == EmptySearch && booking == None && !searched && !cancelComplete && errors == map[]
    }

    constructor ()
      ensures Initial()
    {
      searchData, booking, searched, cancelComplete, errors := EmptySearch, None, false, false, map[];
    }

    /** The cancel button is rendered for a found booking that is not past,
        and only while no cancellation has completed: once one has, the
        page shows the success screen instead of the booking. */
    predicate CancelOffered()
      reads this
    {
      booking.Some? && !booking.value.isPast && !cancelComplete
    }

    /** `handleChange`: the named field takes the value and its error, if
        shown, is cleared; nothing else changes. */
    method HandleChange(name: SearchField, value: string)
      modifies this`searchData, this`errors
      ensures searchData == Update(old(searchData), name, value)
      ensures errors == if Shown(old(errors), name) then old(errors)[name := Cleared] else old(errors)
      ensures !Shown(errors, name)
      ensures forall other :: other != name ==>
                (other in errors <==> other in old(errors)) &&
                (other in errors ==> errors[other] == old(errors)[other])
    {
      searchData := Update(searchData, name, value);
      if Shown(errors, name) {
        errors := errors[name := Cleared];
      }
    }

    /** `validate`: the complaints about the current search replace the old
        ones; true when there are none. */
    method Validate() returns (ok: bool)
      modifies this`errors
      ensures errors == SearchErrors(searchData)
      ensures ok <==> errors == map[]
      ensures ok <==> !IsBlank(searchData.representativeName) && !IsBlank(searchData.phoneNumber)
    {
      var newErrors: map<SearchField, Complaint> := map[];
      if Trim(searchData.representativeName) == "" {
        newErrors := newErrors[RepresentativeName := EnterName];
      }
      if Trim(searchData.phoneNumber) == "" {
        newErrors := newErrors[PhoneNumber := EnterPhone];
      }
      errors := newErrors;
      SearchValidIffNotBlank(searchData);
      ok := |newErrors| == 0;
      if !ok {
        assert newErrors != map[];
      }
    }

    /** `handleSearch` at time `now` (milliseconds): a rejected search only
        shows its complaints; an accepted one shows the first match, or
        that there is none. */
    method HandleSearch(store: BookingStore, now: int)
      modifies this`errors, this`booking, this`searched
      ensures errors == SearchErrors(searchData)
      ensures errors != map[] ==> booking == old(booking) && searched == old(searched)
      ensures errors == map[] ==> booking == SearchResult(store.docs, searchData, now) && searched
    {
      var ok := Validate();
      if !ok {
        return;
      }
      SearchValidIffNotBlank(searchData);
      searched := false;
      booking := None;

      var bookingDoc := FirstMatch(store.docs, searchData.representativeName, searchData.phoneNumber);
      if bookingDoc.Some? {
        var bookingData := bookingDoc.value;
        if IsPast(bookingData.data, now) {
          booking := Some(FoundBooking(bookingData.id, bookingData.data, true));
        } else {
          booking := Some(FoundBooking(bookingData.id, bookingData.data, false));
        }
      } else {
        booking := None;
      }
      searched := true;
    }

    /** `handleCancel`, with `confirmed` the answer to the confirmation
        dialog. Nothing happens without a booking with an id, or when the
        answer is no; otherwise exactly the document with that id is
        deleted. Whether the booking is past is not looked at. */
    method HandleCancel(store: BookingStore, confirmed: bool)
      requires store.Valid()
      modifies store, this`cancelComplete
      ensures store.Valid()
      ensures booking.None? || booking.value.id == "" || !confirmed ==>
                store.docs == old(store.docs) && cancelComplete == old(cancelComplete)
      ensures booking.Some? && booking.value.id != "" && confirmed ==>
                store.docs == RemoveId(old(store.docs), booking.value.id) && cancelComplete
      ensures booking.Some? && booking.value.id != "" && confirmed ==> !CancelOffered()
      ensures NoDoubleBooking(old(store.docs)) ==> NoDoubleBooking(store.docs)
    {
      if booking.None? || booking.value.id == "" {
        return;
      }
      if !confirmed {
        return;
      }
      if NoDoubleBooking(store.docs) {
        RemoveKeepsNoDoubleBooking(store.docs, booking.value.id);
      }
      store.Delete(booking.value.id);
      cancelComplete := true;
    }

    /** `handleNewSearch`: back to the page as it first renders. */
    method HandleNewSearch()
      modifies this
      ensures Initial()
    {
      searchData := EmptySearch;
      booking := None;
      searched := false;
      cancelComplete := false;
      errors := map[];
    }
  }
}
