/**
 * The ledger as a whole: any sequence of requests against the store keeps
 * its constraints (one booking per slot, unique emails, one slot per start
 * time, no dangling booking), and the booking endpoints agree with the
 * availability listing.
 */
module Ledger {
  import opened Wrappers
  import opened Seqs
  import opened Models
  import opened Auth
  import opened Bookings
  import opened Slots
  import opened Bootstrap

  /** A request that can change the store. The acting user is named by id, as a decoded token names it. */
  datatype Request =
    | RegisterUser(req: RegisterRequest, salt: nat)
    | BookSlot(callerId: int, slotId: Option<int>)
    | CancelBooking(callerId: int, bookingId: int)
    | ListSlots(fromArg: DateArg, toArg: DateArg, today: int)
    | SeedAdmin(salt: nat)
    | RemoveUser(removedId: int)
    | RemoveSlot(removedSlot: int)

  /** One request at minute `now`. A caller id with no stored user is turned away, as the gate does. */
  function Apply(t: Tables, r: Request, now: int, hasher: Hasher): (after: Tables)
    requires WellFormed(t)
    ensures WellFormed(after)
    ensures r.BookSlot? || r.CancelBooking? ==> after.users == t.users && after.slots == t.slots
    ensures r.ListSlots? ==> after.users == t.users && after.bookings == t.bookings
  {
    match r
    case RegisterUser(req, salt) =>
      RegisterKeepsWellFormed(t, req, salt, hasher, now);
      RegisterStep(t, req, salt, hasher, now).after
    case BookSlot(callerId, slotId) =>
      var caller := FindUser(t.users, callerId);
      if caller.None? then t
      else
        BookKeepsWellFormed(t, caller.value, slotId, now);
        BookStep(t, caller.value, slotId, now).after
    case CancelBooking(callerId, bookingId) =>
      var caller := FindUser(t.users, callerId);
      if caller.None? then t
      else
        CancelKeepsWellFormed(t, caller.value, bookingId, now);
        CancelStep(t, caller.value, bookingId, now).after
    case ListSlots(fromArg, toArg, today) =>
      var window := ResolveWindow(fromArg, toArg, today);
      if window.Failure? then t
      else
        ListSlotsKeepsWellFormed(t, window.value.0, window.value.1, now);
        ListSlotsStep(t, window.value.0, window.value.1, now).after
    case SeedAdmin(salt) =>
      SeedAdminKeepsWellFormed(t, salt, hasher, now);
      SeedAdminStep(t, salt, hasher, now)
    case RemoveUser(userId) =>
      DeleteUserKeepsWellFormed(t, userId);
      DeleteUserStep(t, userId)
    case RemoveSlot(slotId) =>
      DeleteSlotKeepsWellFormed(t, slotId);
      DeleteSlotStep(t, slotId)
  }

  /** Requests applied in order, each with its clock reading. */
  function Run(t: Tables, requests: seq<(Request, int)>, hasher: Hasher): (after: Tables)
    requires WellFormed(t)
    ensures WellFormed(after)
    decreases |requests|
  {
    if |requests| == 0 then t
    else Run(Apply(t, requests[0].0, requests[0].1, hasher), requests[1..], hasher)
  }

  /** From an empty database, no sequence of requests ever puts two bookings on one slot or registers one email twice. */
  lemma NoDoubleBooking(requests: seq<(Request, int)>, hasher: Hasher)
    ensures var t := Run(Tables([], [], []), requests, hasher);
            && Distinct(t.bookings, BookedSlotKey)
            && Distinct(t.users, EmailKey)
            && Distinct(t.slots, StartKey)
  {
    var t := Run(Tables([], [], []), requests, hasher);
    assert WellFormed(t);
  }

  /** A slot that has just been booked is no longer offered by the availability listing. */
  lemma BookedSlotNotListed(t: Tables, caller: User, slotId: Option<int>, now: int, lo: int, hi: int)
    requires BookStep(t, caller, slotId, now).result.Success?
    ensures forall v :: v in AvailableViews(BookStep(t, caller, slotId, now).after, lo, hi) ==> v.id != slotId.value
  {
    var after := BookStep(t, caller, slotId, now).after;
    var b := after.bookings[|t.bookings|];
    assert b in after.bookings;
    forall v | v in AvailableViews(after, lo, hi) ensures v.id != slotId.value {
      var s :| s in after.slots && !IsBooked(s.id, after.bookings) && v == SlotToDict(s, after.bookings);
      assert b.slotId == slotId.value;
    }
  }

  /** A slot whose booking has been cancelled is offered again whenever its start lies in the window. */
  lemma CancelledSlotListed(t: Tables, caller: User, bookingId: int, now: int, lo: int, hi: int)
    requires WellFormed(t)
    requires CancelStep(t, caller, bookingId, now).result.Success?
    ensures var b := FindBooking(t.bookings, bookingId).value;
            var s := FindSlot(t.slots, b.slotId).value;
            var after := CancelStep(t, caller, bookingId, now).after;
            lo <= s.startAt <= hi ==> SlotToDict(s, after.bookings) in AvailableViews(after, lo, hi)
  {
    CancelFreesSlot(t, caller, bookingId, now);
  }
}
