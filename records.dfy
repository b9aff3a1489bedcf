/** The three collections of the document store (rooms, settings, bookings)
    and the in-memory stand-in for the bookings collection: a sequence of
    documents with server-assigned ids, added to and deleted from. */
module Records {
  import opened JsSemantics
  import opened DateUtils

  datatype Room = Room(id: string, name: string, capacity: int, order: int)

  /** The settings singleton, with the business hours already split into
      hour and minute. */
  datatype Settings = Settings(
    businessStartTime: Clock,
    businessEndTime: Clock,
    bookingIntervalMinutes: int,
    maxBookingDays: int)

  /** Settings the slot generator can run on. */
  predicate UsableSettings(s: Settings)
  {
    s.bookingIntervalMinutes > 0 && WellFormed(s.businessStartTime) && WellFormed(s.businessEndTime)
  }

  /** A stored booking. `date` is a day number; times are the `HH:MM`
      strings chosen in the form; `createdAt` is the server timestamp. */
  datatype Booking = Booking(
    roomId: string,
    roomName: string,
    date: int,
    startTime: string,
    endTime: string,
    representativeName: string,
    phoneNumber: string,
    numberOfPeople: int,
    purpose: string,
    createdAt: int)

  /** A document of the bookings collection: its id and its data. */
  datatype Doc = Doc(id: string, data: Booking)

  // ---------------------------------------------------------------------
  // Rooms, sorted by `order`: `roomsData.sort((a, b) => a.order - b.order)`

  predicate SortedByOrder(rooms: seq<Room>)
  {
    forall i, j :: 0 <= i < j < |rooms| ==> rooms[i].order <= rooms[j].order
  }

  function InsertByOrder(room: Room, sorted: seq<Room>): (r: seq<Room>)
    requires SortedByOrder(sorted)
    ensures SortedByOrder(r)
    ensures multiset(r) == multiset(sorted) + multiset{room}
  {
    if sorted == [] || room.order <= sorted[0].order then [room] + sorted
    else
      var rest := InsertByOrder(room, sorted[1..]);
      assert sorted == [sorted[0]] + sorted[1..];
      FirstIsLeast(sorted[0], rest, sorted[1..], room);
      [sorted[0]] + rest
  }

  lemma FirstIsLeast(first: Room, rest: seq<Room>, tail: seq<Room>, room: Room)
    requires SortedByOrder([first] + tail) && SortedByOrder(rest)
    requires first.order < room.order
    requires multiset(rest) == multiset(tail) + multiset{room}
    ensures SortedByOrder([first] + rest)
  {
    forall i | 0 <= i < |rest|
      ensures first.order <= rest[i].order
    {
      assert rest[i] in multiset(rest);
      if rest[i] != room {
        assert rest[i] in multiset(tail);
        var k :| 0 <= k < |tail| && tail[k] == rest[i];
        var whole := [first] + tail;
        assert whole[0] == first && whole[k + 1] == tail[k];
        assert whole[0].order <= whole[k + 1].order;
      }
    }
  }

  /** The rooms in ascending `order`, a permutation of the rooms fetched;
      rooms with equal `order` keep their fetched order, as the stable
      `Array.prototype.sort` keeps them. */
  function SortRoomsByOrder(rooms: seq<Room>): (r: seq<Room>)
    ensures SortedByOrder(r)
    ensures multiset(r) == multiset(rooms)
  {
    if rooms == [] then []
    else
      assert rooms == [rooms[0]] + rooms[1..];
      InsertByOrder(rooms[0], SortRoomsByOrder(rooms[1..]))
  }

  /** `rooms.find(room => room.id === id)` */
  function FindRoom(rooms: seq<Room>, id: string): (r: Option<Room>)
    ensures r.Some? ==> r.value in rooms && r.value.id == id
    ensures r.None? <==> forall i :: 0 <= i < |rooms| ==> rooms[i].id != id
  {
    Find(rooms, (room: Room) => room.id == id)
  }

  // ---------------------------------------------------------------------
  // The bookings collection

  predicate IdsDistinct(docs: seq<Doc>)
  {
    forall i, j :: 0 <= i < j < |docs| ==> docs[i].id != docs[j].id
  }

  predicate HasId(docs: seq<Doc>, id: string)
  {
    exists i :: 0 <= i < |docs| && docs[i].id == id
  }

  /** The collection after `deleteDoc` of `id`: every other document, in
      order. Deleting an id that is not there changes nothing. */
  function RemoveId(docs: seq<Doc>, id: string): (r: seq<Doc>)
    ensures forall d :: d in r <==> d in docs && d.id != id
    ensures !HasId(docs, id) ==> r == docs
    ensures IdsDistinct(docs) ==> IdsDistinct(r)
  {
    if docs == [] then []
    else
      var rest := RemoveId(docs[1..], id);
      assert forall d :: d in docs <==> d == docs[0] || d in docs[1..];
      assert !HasId(docs, id) ==> !HasId(docs[1..], id) && docs == [docs[0]] + docs[1..];
      assert IdsDistinct(docs) ==> IdsDistinct(docs[1..]);
      if docs[0].id == id then rest else [docs[0]] + rest
  }

  /** With distinct ids, deleting an id that is present removes exactly
      one document. */
  lemma {:induction false} RemoveIdRemovesOne(docs: seq<Doc>, id: string)
    requires IdsDistinct(docs) && HasId(docs, id)
    ensures |RemoveId(docs, id)| == |docs| - 1
  {
    if docs[0].id == id {
      assert !HasId(docs[1..], id) by {
        forall i | 0 <= i < |docs| - 1 ensures docs[1..][i].id != id {
          assert docs[1..][i] == docs[i + 1];
        }
      }
    } else {
      var i :| 0 <= i < |docs| && docs[i].id == id;
      assert docs[1..][i - 1] == docs[i];
      assert IdsDistinct(docs[1..]);
      RemoveIdRemovesOne(docs[1..], id);
    }
  }

  /** Deleting is idempotent: a second delete of the same id changes nothing. */
  lemma RemoveIdIdempotent(docs: seq<Doc>, id: string)
    ensures RemoveId(RemoveId(docs, id), id) == RemoveId(docs, id)
  {
  }

  /** The booking records of a sequence of documents, in order. */
  function DataOf(docs: seq<Doc>): (r: seq<Booking>)
    ensures |r| == |docs|
    ensures forall i :: 0 <= i < |docs| ==> r[i] == docs[i].data
  {
    if docs == [] then [] else [docs[0].data] + DataOf(docs[1..])
  }

  /** The query `where(roomId == ...), where(date == ...)`: each matching
      document's record, once per document. */
  function BookingsOfRoomOnDate(docs: seq<Doc>, roomId: string, date: int): (r: seq<Booking>)
    ensures |r| <= |docs|
    ensures forall i :: 0 <= i < |r| ==> r[i].roomId == roomId && r[i].date == date &&
                                         exists j :: 0 <= j < |docs| && docs[j].data == r[i]
    ensures forall j :: 0 <= j < |docs| && docs[j].data.roomId == roomId && docs[j].data.date == date ==>
                          docs[j].data in r
  {
    if docs == [] then []
    else
      var rest := BookingsOfRoomOnDate(docs[1..], roomId, date);
      assert forall j :: 1 <= j < |docs| ==> docs[j] == docs[1..][j - 1];
      if docs[0].data.roomId == roomId && docs[0].data.date == date then [docs[0].data] + rest else rest
  }
  /** The query returns each matching record exactly as many times as the
      collection holds it, and no other record: no repeats are made up. */
  lemma {:induction false} BookingsOfRoomOnDateCounts(docs: seq<Doc>, roomId: string, date: int)
    ensures forall b :: multiset(BookingsOfRoomOnDate(docs, roomId, date))[b] ==
                          if b.roomId == roomId && b.date == date then multiset(DataOf(docs))[b] else 0
  {
    if docs != [] {
      BookingsOfRoomOnDateCounts(docs[1..], roomId, date);
      assert DataOf(docs) == [docs[0].data] + DataOf(docs[1..]);
    }
  }


  // ---------------------------------------------------------------------
  // The no-double-booking invariant

  /** Half-open intervals [s1, e1) and [s2, e2) of `HH:MM` strings overlap. */
  predicate Overlaps(s1: string, e1: string, s2: string, e2: string)
  {
    StrLess(s1, e2) && StrLess(s2, e1)
  }

  /** Two bookings can coexist: they are for different rooms or days, or
      their intervals do not overlap. */
  predicate Compatible(a: Booking, b: Booking)
  {
    a.roomId == b.roomId && a.date == b.date ==> !Overlaps(a.startTime, a.endTime, b.startTime, b.endTime)
  }

  /** Every booking ends after it starts, and no two bookings of one room on
      one day overlap. */
  predicate NoDoubleBooking(docs: seq<Doc>)
  {
    (forall i :: 0 <= i < |docs| ==> StrLess(docs[i].data.startTime, docs[i].data.endTime)) &&
    forall i, j :: 0 <= i < j < |docs| ==> Compatible(docs[i].data, docs[j].data)
  }

  /** The invariant of a collection with a first document: that document is
      well-formed and compatible with every later one, and the rest keeps
      the invariant. */
  lemma NoDoubleBookingCons(d: Doc, rest: seq<Doc>)
    ensures NoDoubleBooking([d] + rest) <==>
              StrLess(d.data.startTime, d.data.endTime) &&
              (forall k :: 0 <= k < |rest| ==> Compatible(d.data, rest[k].data)) &&
              NoDoubleBooking(rest)
  {
    if NoDoubleBooking([d] + rest) {
      NoDoubleBookingTail(d, rest);
    } else if StrLess(d.data.startTime, d.data.endTime) &&
              (forall k :: 0 <= k < |rest| ==> Compatible(d.data, rest[k].data)) &&
              NoDoubleBooking(rest) {
      NoDoubleBookingPrepend(d, rest);
    }
  }

  lemma NoDoubleBookingTail(d: Doc, rest: seq<Doc>)
    requires NoDoubleBooking([d] + rest)
    ensures StrLess(d.data.startTime, d.data.endTime)
    ensures forall k :: 0 <= k < |rest| ==> Compatible(d.data, rest[k].data)
    ensures NoDoubleBooking(rest)
  {
    var all := [d] + rest;
    assert all[0] == d;
    forall k | 0 <= k < |rest| ensures Compatible(d.data, rest[k].data) && StrLess(rest[k].data.startTime, rest[k].data.endTime) {
      assert all[k + 1] == rest[k];
    }
    forall i, j | 0 <= i < j < |rest| ensures Compatible(rest[i].data, rest[j].data) {
      assert all[i + 1] == rest[i] && all[j + 1] == rest[j];
    }
  }

  lemma NoDoubleBookingPrepend(d: Doc, rest: seq<Doc>)
    requires StrLess(d.data.startTime, d.data.endTime)
    requires forall k :: 0 <= k < |rest| ==> Compatible(d.data, rest[k].data)
    requires NoDoubleBooking(rest)
    ensures NoDoubleBooking([d] + rest)
  {
    var all := [d] + rest;
    forall i | 0 <= i < |all| ensures StrLess(all[i].data.startTime, all[i].data.endTime) {
      if i > 0 {
        assert all[i] == rest[i - 1];
      }
    }
    forall i, j | 0 <= i < j < |all| ensures Compatible(all[i].data, all[j].data) {
      assert all[j] == rest[j - 1];
      if i > 0 {
        assert all[i] == rest[i - 1];
      }
    }
  }

  /** Appending a well-formed booking that overlaps no booking of its room
      and day keeps the invariant. */
  lemma AddKeepsNoDoubleBooking(docs: seq<Doc>, d: Doc)
    requires NoDoubleBooking(docs)
    requires StrLess(d.data.startTime, d.data.endTime)
    requires forall i :: 0 <= i < |docs| && docs[i].data.roomId == d.data.roomId &&
                         docs[i].data.date == d.data.date ==>
                         !Overlaps(d.data.startTime, d.data.endTime, docs[i].data.startTime, docs[i].data.endTime)
    ensures NoDoubleBooking(docs + [d])
  {
    var all := docs + [d];
    forall i, j | 0 <= i < j < |all|
      ensures Compatible(all[i].data, all[j].data)
    {
      if j == |docs| {
        assert all[i] == docs[i];
      }
    }
  }

  /** Deleting a document keeps the invariant. */
  lemma {:induction false} RemoveKeepsNoDoubleBooking(docs: seq<Doc>, id: string)
    requires NoDoubleBooking(docs)
    ensures NoDoubleBooking(RemoveId(docs, id))
  {
    if docs != [] {
      var tail := docs[1..];
      assert docs == [docs[0]] + tail;
      NoDoubleBookingCons(docs[0], tail);
      RemoveKeepsNoDoubleBooking(tail, id);
      var rest := RemoveId(tail, id);
      if docs[0].id != id {
        forall k | 0 <= k < |rest| ensures Compatible(docs[0].data, rest[k].data) {
          assert rest[k] in tail;
        }
        NoDoubleBookingCons(docs[0], rest);
      }
    }
  }

  /** The Firestore bookings collection, held in memory. */
  class BookingStore {
    var docs: seq<Doc>

    /** Document ids are non-empty and unique, as the server assigns them. */
    ghost predicate Valid()
      reads this
    {
      IdsDistinct(docs) && forall i :: 0 <= i < |docs| ==> docs[i].id != ""
    }

    constructor ()
      ensures Valid() && docs == []
    {
      docs := [];
    }

    predicate Contains(id: string)
      reads this
    {
      HasId(docs, id)
    }

    /** `addDoc`: the new document, under the id the server assigns, is
        appended; nothing else changes. */
    method Add(id: string, data: Booking)
      requires Valid() && id != "" && !Contains(id)
      modifies this
      ensures Valid()
      ensures docs == old(docs) + [Doc(id, data)]
    {
      docs := docs + [Doc(id, data)];
    }

    /** `deleteDoc`: the document with `id` goes, if there is one. */
    method Delete(id: string)
      requires Valid()
      modifies this
      ensures Valid()
      ensures docs == RemoveId(old(docs), id)
      ensures old(Contains(id)) ==> |docs| == |old(docs)| - 1
    {
      if Contains(id) {
        RemoveIdRemovesOne(docs, id);
      }
      docs := RemoveId(docs, id);
    }
  }
}
