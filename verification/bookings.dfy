/**
 * The booking ledger: booking a slot, cancelling a booking, and the two
 * role-gated booking lists. The caller is the user the authorization gate
 * resolved (see AuthGate.Authorize); `now` is the request's clock reading.
 */
module Bookings {
  import opened Wrappers
  import opened Seqs
  import opened Models

  /** `not data or not data.get('slotId')`: no body, no field, null, or the falsy id 0. */
  predicate SlotIdMissing(slotId: Option<int>) {
    slotId.None? || slotId.value == 0
  }

  /** The row `book` inserts; its id is chosen by the database. */
  function NewBooking(t: Tables, caller: User, slotId: int, now: int): Booking {
    Booking(NextId(t.bookings, BookingKey), caller.id, slotId, now)
  }

  /** `POST /book`: the checks in source order, then one inserted booking. */
  function BookStep(t: Tables, caller: User, slotId: Option<int>, now: int): (s: Step<BookingView>)
    ensures SlotIdMissing(slotId) ==> s == Step(Failure(MissingSlotId), t)
    ensures !SlotIdMissing(slotId) && slotId.value !in SlotIds(t.slots) ==>
              s == Step(Failure(SlotNotFound), t)
    ensures !SlotIdMissing(slotId) && slotId.value in SlotIds(t.slots) && IsBooked(slotId.value, t.bookings) ==>
              s == Step(Failure(SlotTaken), t)
    ensures s.result.Success? <==>
              !SlotIdMissing(slotId) && slotId.value in SlotIds(t.slots) && !IsBooked(slotId.value, t.bookings)
    ensures s.result.Success? ==>
              && s.after.users == t.users
              && s.after.slots == t.slots
              && |s.after.bookings| == |t.bookings| + 1
              && s.after.bookings[..|t.bookings|] == t.bookings
              && var b := s.after.bookings[|t.bookings|];
                 && b.userId == caller.id && b.slotId == slotId.value && b.createdAt == now
                 && b.id !in BookingIds(t.bookings)
                 && s.result.value == BookingToDict(b, t.users, t.slots)
  {
    if SlotIdMissing(slotId) then Step(Failure(MissingSlotId), t)
    else if FindSlot(t.slots, slotId.value).None? then Step(Failure(SlotNotFound), t)
    else if BookingOfSlot(t.bookings, slotId.value).Some? then Step(Failure(SlotTaken), t)
    else
      var b := NewBooking(t, caller, slotId.value, now);
      assert (t.bookings + [b])[..|t.bookings|] == t.bookings;
      Step(Success(BookingToDict(b, t.users, t.slots)), t.(bookings := t.bookings + [b]))
  }

  /** A successful booking keeps every store constraint, in particular one booking per slot. */
  lemma BookKeepsWellFormed(t: Tables, caller: User, slotId: Option<int>, now: int)
    requires WellFormed(t) && caller in t.users
    ensures WellFormed(BookStep(t, caller, slotId, now).after)
  {
    var s := BookStep(t, caller, slotId, now);
    if s.result.Success? {
      var b := NewBooking(t, caller, slotId.value, now);
      assert s.after.bookings == t.bookings + [b];
      DistinctAppend(t.bookings, b, BookingKey);
      DistinctAppend(t.bookings, b, BookedSlotKey);
      assert caller.id in UserIds(t.users);
    }
  }

  /**
   * Two bookings of one slot, one after the other: once the first has
   * succeeded, the second fails with SLOT_TAKEN and changes nothing,
   * whoever makes it.
   */
  lemma SecondBookingIsTaken(t: Tables, first: User, second: User, slotId: Option<int>, now1: int, now2: int)
    requires BookStep(t, first, slotId, now1).result.Success?
    ensures var mid := BookStep(t, first, slotId, now1).after;
            BookStep(mid, second, slotId, now2) == Step(Failure(SlotTaken), mid)
  {
    var mid := BookStep(t, first, slotId, now1).after;
    var b := mid.bookings[|t.bookings|];
    assert b in mid.bookings && b.slotId == slotId.value;
  }

  /** The booking view a successful `book` answers names the caller and the booked slot. */
  lemma BookedViewResolves(t: Tables, caller: User, slotId: Option<int>, now: int, slot: Slot)
    requires WellFormed(t) && caller in t.users
    requires slot in t.slots && !SlotIdMissing(slotId) && slot.id == slotId.value
    requires BookStep(t, caller, slotId, now).result.Success?
    ensures var v := BookStep(t, caller, slotId, now).result.value;
            && v.userName == Some(caller.name) && v.userEmail == Some(caller.email)
            && v.slotStart == Some(slot.startAt) && v.slotEnd == Some(slot.endAt)
  {
    LookupUnique(t.users, UserKey, FindUser(t.users, caller.id).value, caller);
    LookupUnique(t.slots, SlotKey, FindSlot(t.slots, slot.id).value, slot);
  }

  /** Owners may cancel their own bookings, admins any booking. */
  predicate MayCancel(caller: User, b: Booking) {
    caller.role == Admin || b.userId == caller.id
  }

  /** The booking rows other than `bookingId`. */
  function BookingsWithout(bookings: seq<Booking>, bookingId: int): seq<Booking> {
    Filter(bookings, (b: Booking) => b.id != bookingId)
  }

  /** `DELETE /cancel/<booking_id>`: the checks in source order, then the booking is deleted. */
  function CancelStep(t: Tables, caller: User, bookingId: int, now: int): (s: Step<int>)
    requires WellFormed(t)
    ensures bookingId !in BookingIds(t.bookings) ==> s == Step(Failure(BookingNotFound), t)
    ensures bookingId in BookingIds(t.bookings) ==>
              var b := FindBooking(t.bookings, bookingId).value;
              && b.slotId in SlotIds(t.slots)
              && var start := FindSlot(t.slots, b.slotId).value.startAt;
                 && (!MayCancel(caller, b) ==> s == Step(Failure(Forbidden), t))
                 && (MayCancel(caller, b) && start < now ==> s == Step(Failure(PastBooking), t))
                 && (MayCancel(caller, b) && now <= start ==> s.result == Success(bookingId))
    ensures s.result.Success? ==>
              && s.after.users == t.users
              && s.after.slots == t.slots
              && (forall x :: x in s.after.bookings ==> x in t.bookings && x.id != bookingId)
              && (forall x :: x in t.bookings && x.id != bookingId ==> x in s.after.bookings)
    ensures s.result.Failure? ==> s.after == t
  {
    match FindBooking(t.bookings, bookingId)
    case None => Step(Failure(BookingNotFound), t)
    case Some(b) =>
      if caller.role != Admin && b.userId != caller.id then Step(Failure(Forbidden), t)
      else
        assert b.slotId in SlotIds(t.slots);
        if FindSlot(t.slots, b.slotId).value.startAt < now then Step(Failure(PastBooking), t)
        else Step(Success(bookingId), t.(bookings := BookingsWithout(t.bookings, bookingId)))
  }

  /** A cancellation keeps every store constraint. */
  lemma CancelKeepsWellFormed(t: Tables, caller: User, bookingId: int, now: int)
    requires WellFormed(t)
    ensures WellFormed(CancelStep(t, caller, bookingId, now).after)
  {
    DistinctFilter(t.bookings, (b: Booking) => b.id != bookingId, BookingKey);
    DistinctFilter(t.bookings, (b: Booking) => b.id != bookingId, BookedSlotKey);
  }

  /** A successful cancellation frees the cancelled booking's slot: it is no longer booked. */
  lemma CancelFreesSlot(t: Tables, caller: User, bookingId: int, now: int)
    requires WellFormed(t)
    requires CancelStep(t, caller, bookingId, now).result.Success?
    ensures var b := FindBooking(t.bookings, bookingId).value;
            !IsBooked(b.slotId, CancelStep(t, caller, bookingId, now).after.bookings)
  {
    var b := FindBooking(t.bookings, bookingId).value;
    var after := CancelStep(t, caller, bookingId, now).after;
    forall x | x in after.bookings ensures x.slotId != b.slotId {
      if x.slotId == b.slotId {
        LookupUnique(t.bookings, BookedSlotKey, x, b);
      }
    }
  }

  /**
   * Booking a slot and then cancelling that booking (by the same caller,
   * before the slot starts) answers success and gives back the store as it
   * was before the booking.
   */
  lemma BookThenCancel(t: Tables, caller: User, slotId: Option<int>, now: int, later: int)
    requires WellFormed(t) && caller in t.users
    requires BookStep(t, caller, slotId, now).result.Success?
    requires FindSlot(t.slots, slotId.value).value.startAt >= later
    ensures var mid := BookStep(t, caller, slotId, now);
            && WellFormed(mid.after)
            && CancelStep(mid.after, caller, mid.result.value.id, later) == Step(Success(mid.result.value.id), t)
  {
    var mid := BookStep(t, caller, slotId, now);
    BookKeepsWellFormed(t, caller, slotId, now);
    var b := NewBooking(t, caller, slotId.value, now);
    assert mid.after.bookings == t.bookings + [b];
    assert b in mid.after.bookings;
    LookupUnique(mid.after.bookings, BookingKey, FindBooking(mid.after.bookings, b.id).value, b);
    FilterDropsAppended(t.bookings, b, (x: Booking) => x.id != b.id);
  }

  /** The sort key of `order_by(Booking.created_at.desc())`. */
  function NewestFirstKey(b: Booking): int { -b.createdAt }

  /** `filter_by(user_id=userId)`. */
  function OwnBookings(bookings: seq<Booking>, userId: int): seq<Booking> {
    Filter(bookings, (b: Booking) => b.userId == userId)
  }

  /** The response list: each row through `Booking.to_dict`, in row order. */
  function BookingViews(rows: seq<Booking>, t: Tables): (vs: seq<BookingView>)
    ensures |vs| == |rows|
    ensures forall i :: 0 <= i < |rows| ==> vs[i] == BookingToDict(rows[i], t.users, t.slots)
  {
    seq(|rows|, i requires 0 <= i < |rows| => BookingToDict(rows[i], t.users, t.slots))
  }

  /** The rows, newest first, serialised; lists exactly the given rows, each once. */
  lemma NewestFirstViews(rows: seq<Booking>, t: Tables)
    ensures var vs := BookingViews(SortBy(rows, NewestFirstKey), t);
            && |vs| == |rows|
            && (forall b :: b in rows ==> BookingToDict(b, t.users, t.slots) in vs)
            && (forall v :: v in vs ==> exists b :: b in rows && v == BookingToDict(b, t.users, t.slots))
            && (forall i, j :: 0 <= i < j < |vs| ==> vs[i].createdAt >= vs[j].createdAt)
  {
    var sorted := SortBy(rows, NewestFirstKey);
    var vs := BookingViews(sorted, t);
    assert |sorted| == |multiset(sorted)| == |multiset(rows)| == |rows|;
    forall b | b in rows ensures BookingToDict(b, t.users, t.slots) in vs {
      assert b in multiset(rows);
      var i :| 0 <= i < |sorted| && sorted[i] == b;
      assert vs[i] == BookingToDict(b, t.users, t.slots);
    }
    forall v | v in vs ensures exists b :: b in rows && v == BookingToDict(b, t.users, t.slots) {
      var i :| 0 <= i < |vs| && vs[i] == v;
      assert sorted[i] in multiset(sorted);
    }
    forall i, j | 0 <= i < j < |vs| ensures vs[i].createdAt >= vs[j].createdAt {
      assert NewestFirstKey(sorted[i]) <= NewestFirstKey(sorted[j]);
    }
  }

  /** `GET /my-bookings`: patients only; their own bookings, newest first. */
  function MyBookings(caller: User, t: Tables): (r: Result<seq<BookingView>, Error>)
    ensures r.Failure? <==> caller.role != Patient
    ensures r.Failure? ==> r.error == Forbidden
    ensures r.Success? ==>
              && |r.value| == |OwnBookings(t.bookings, caller.id)|
              && (forall b :: b in t.bookings && b.userId == caller.id ==> BookingToDict(b, t.users, t.slots) in r.value)
              && (forall v :: v in r.value ==> v.userId == caller.id && v.id in BookingIds(t.bookings))
              && (forall i, j :: 0 <= i < j < |r.value| ==> r.value[i].createdAt >= r.value[j].createdAt)
  {
    if caller.role != Patient then Failure(Forbidden)
    else
      var own := OwnBookings(t.bookings, caller.id);
      NewestFirstViews(own, t);
      Success(BookingViews(SortBy(own, NewestFirstKey), t))
  }

  /** `GET /all-bookings`: admins only; every booking, newest first. */
  function AllBookings(caller: User, t: Tables): (r: Result<seq<BookingView>, Error>)
    ensures r.Failure? <==> caller.role != Admin
    ensures r.Failure? ==> r.error == Forbidden
    ensures r.Success? ==>
              && |r.value| == |t.bookings|
              && (forall b :: b in t.bookings ==> BookingToDict(b, t.users, t.slots) in r.value)
              && (forall v :: v in r.value ==> v.id in BookingIds(t.bookings))
              && (forall i, j :: 0 <= i < j < |r.value| ==> r.value[i].createdAt >= r.value[j].createdAt)
  {
    if caller.role != Admin then Failure(Forbidden)
    else
      NewestFirstViews(t.bookings, t);
      Success(BookingViews(SortBy(t.bookings, NewestFirstKey), t))
  }

  /** `book_slot`, step by step against the session. */
  method Book(db: Database, caller: User, slotId: Option<int>, now: int) returns (r: Result<BookingView, Error>)
    requires db.Valid() && caller in db.users
    modifies db
    ensures db.Valid()
    ensures r == BookStep(old(db.Snapshot()), caller, slotId, now).result
    ensures db.Snapshot() == BookStep(old(db.Snapshot()), caller, slotId, now).after
  {
    BookKeepsWellFormed(db.Snapshot(), caller, slotId, now);
    if slotId.None? || slotId.value == 0 {
      return Failure(MissingSlotId);
    }
    var id := slotId.value;
    var slot := FindSlot(db.slots, id);
    if slot.None? {
      return Failure(SlotNotFound);
    }
    var existing := BookingOfSlot(db.bookings, id);
    if existing.Some? {
      return Failure(SlotTaken);
    }
    var booking := Booking(NextId(db.bookings, BookingKey), caller.id, id, now);
    db.bookings := db.bookings + [booking];
    r := Success(BookingToDict(booking, db.users, db.slots));
  }

  /** `cancel_booking`, step by step against the session. */
  method Cancel(db: Database, caller: User, bookingId: int, now: int) returns (r: Result<int, Error>)
    requires db.Valid()
    modifies db
    ensures db.Valid()
    ensures r == CancelStep(old(db.Snapshot()), caller, bookingId, now).result
    ensures db.Snapshot() == CancelStep(old(db.Snapshot()), caller, bookingId, now).after
  {
    CancelKeepsWellFormed(db.Snapshot(), caller, bookingId, now);
    var booking := FindBooking(db.bookings, bookingId);
    if booking.None? {
      return Failure(BookingNotFound);
    }
    var b := booking.value;
    if caller.role != Admin && b.userId != caller.id {
      return Failure(Forbidden);
    }
    assert b.slotId in SlotIds(db.slots);
    var slot := FindSlot(db.slots, b.slotId).value;
    if slot.startAt < now {
      return Failure(PastBooking);
    }
    db.bookings := BookingsWithout(db.bookings, bookingId);
    r := Success(bookingId);
  }
}
