/**
 * The three tables of the booking system (users, slots, bookings), their
 * column constraints and relationships, password hashing and the `to_dict`
 * serialisations of each row kind.
 *
 * A table is a sequence of rows in insertion order. Timestamps are integer
 * minutes since an arbitrary epoch; the column defaults (`created_at`) are
 * always filled in when a row is created, so they are plain integers here.
 */
module Models {
  import opened Wrappers
  import opened Seqs

  /** The `role` column: 'patient' or 'admin'. */
  datatype Role = Patient | Admin

  /** The column default of `role`. */
  const DefaultRole: Role := Patient

  /**
   * The `password_hash` column. `NoHash` is a freshly constructed user
   * before `set_password`; the column is NOT NULL, so no stored user has it.
   * A hash records its salt and the digest; the password itself is never kept.
   */
  datatype PasswordHash = NoHash | Hashed(salt: nat, digest: int)

  /** The one-way salted hash of werkzeug, as an opaque function of salt and password. */
  type Hasher = (nat, string) -> int

  datatype User = User(id: int, name: string, email: string, passwordHash: PasswordHash, role: Role, createdAt: int)

  datatype Slot = Slot(id: int, startAt: int, endAt: int, createdAt: int)

  datatype Booking = Booking(id: int, userId: int, slotId: int, createdAt: int)

  /** The machine-readable error codes of the API. */
  datatype Error =
    | MissingFields | EmailExists | MissingCredentials | InvalidCredentials
    | TokenMissing | InvalidTokenFormat | TokenExpired | InvalidToken | UserNotFound
    | Forbidden | MissingSlotId | SlotNotFound | SlotTaken | BookingNotFound | PastBooking
    | InvalidDateFormat

  /** The whole store. */
  datatype Tables = Tables(users: seq<User>, slots: seq<Slot>, bookings: seq<Booking>)

  /** What a state-changing request answers, and the store after it. */
  datatype Step<T> = Step(result: Result<T, Error>, after: Tables)

  function UserKey(u: User): int { u.id }
  function EmailKey(u: User): string { u.email }
  function SlotKey(s: Slot): int { s.id }
  function StartKey(s: Slot): int { s.startAt }
  function BookingKey(b: Booking): int { b.id }
  function BookedSlotKey(b: Booking): int { b.slotId }

  function UserIds(users: seq<User>): set<int> { set u | u in users :: u.id }
  function Emails(users: seq<User>): set<string> { set u | u in users :: u.email }
  function SlotIds(slots: seq<Slot>): set<int> { set s | s in slots :: s.id }
  function BookingIds(bookings: seq<Booking>): set<int> { set b | b in bookings :: b.id }

  /** Some booking references the slot (the `Slot.booking` relationship is not None). */
  predicate IsBooked(slotId: int, bookings: seq<Booking>) {
    exists b :: b in bookings && b.slotId == slotId
  }

  /**
   * The constraints the store keeps. The schema enforces the primary keys,
   * the UNIQUE columns `users.email` and `bookings.slot_id` and NOT NULL
   * `password_hash`. Two more are kept by the handlers alone, when requests
   * run one at a time: the two foreign keys of a booking (SQLite enforces
   * them only under `PRAGMA foreign_keys=ON`, which the app never sets) and
   * one slot per start time (`start_at` is not UNIQUE; slot generation
   * creates a slot only for a start time not yet stored).
   */
  predicate WellFormed(t: Tables) {
    && Distinct(t.users, UserKey)
    && Distinct(t.users, EmailKey)
    && (forall u :: u in t.users ==> u.passwordHash.Hashed?)
    && Distinct(t.slots, SlotKey)
    && Distinct(t.slots, StartKey)
    && Distinct(t.bookings, BookingKey)
    && Distinct(t.bookings, BookedSlotKey)
    && (forall b :: b in t.bookings ==> b.userId in UserIds(t.users) && b.slotId in SlotIds(t.slots))
  }

  /** `User.query.get(id)`. */
  function FindUser(users: seq<User>, id: int): (r: Option<User>)
    ensures r.Some? ==> r.value in users && r.value.id == id
    ensures r.None? <==> id !in UserIds(users)
  {
    First(users, (u: User) => u.id == id)
  }

  /** `User.query.filter_by(email=email).first()`. */
  function FindUserByEmail(users: seq<User>, email: string): (r: Option<User>)
    ensures r.Some? ==> r.value in users && r.value.email == email
    ensures r.None? <==> email !in Emails(users)
  {
    First(users, (u: User) => u.email == email)
  }

  /** `Slot.query.get(id)`. */
  function FindSlot(slots: seq<Slot>, id: int): (r: Option<Slot>)
    ensures r.Some? ==> r.value in slots && r.value.id == id
    ensures r.None? <==> id !in SlotIds(slots)
  {
    First(slots, (s: Slot) => s.id == id)
  }

  /** `Booking.query.get(id)`. */
  function FindBooking(bookings: seq<Booking>, id: int): (r: Option<Booking>)
    ensures r.Some? ==> r.value in bookings && r.value.id == id
    ensures r.None? <==> id !in BookingIds(bookings)
  {
    First(bookings, (b: Booking) => b.id == id)
  }

  /** `Booking.query.filter_by(slot_id=slotId).first()`. */
  function BookingOfSlot(bookings: seq<Booking>, slotId: int): (r: Option<Booking>)
    ensures r.Some? ==> r.value in bookings && r.value.slotId == slotId
    ensures r.None? <==> !IsBooked(slotId, bookings)
  {
    First(bookings, (b: Booking) => b.slotId == slotId)
  }

  /** On a unique key, a lookup finds the one row that has it. */
  lemma LookupUnique<T, K>(s: seq<T>, key: T -> K, x: T, y: T)
    requires Distinct(s, key)
    requires x in s && y in s && key(x) == key(y)
    ensures x == y
  {
    var i :| 0 <= i < |s| && s[i] == x;
    var j :| 0 <= j < |s| && s[j] == y;
    assert key(s[i]) == key(s[j]);
    assert i == j;
  }

  /** `User(name=..., email=..., role=...)`: a user row before `set_password`. */
  function NewUser(id: int, name: string, email: string, role: Option<Role>, createdAt: int): (u: User)
    ensures u.id == id && u.name == name && u.email == email && u.createdAt == createdAt
    ensures role.None? ==> u.role == Patient
    ensures role.Some? ==> u.role == role.value
    ensures u.passwordHash == NoHash
  {
    User(id, name, email, NoHash, match role case Some(r) => r case None => DefaultRole, createdAt)
  }

  /** `check_password`: recompute the digest with the stored salt and compare. */
  predicate CheckPassword(u: User, password: string, hasher: Hasher) {
    u.passwordHash.Hashed? && hasher(u.passwordHash.salt, password) == u.passwordHash.digest
  }

  /** `set_password`: store a salted digest of the password, nothing else changes. */
  function SetPassword(u: User, password: string, salt: nat, hasher: Hasher): (r: User)
    ensures CheckPassword(r, password, hasher)
    ensures r.passwordHash.Hashed? && r.passwordHash.salt == salt
    ensures r.(passwordHash := u.passwordHash) == u
    ensures (forall q :: hasher(salt, q) == hasher(salt, password) ==> q == password) ==>
              forall q :: CheckPassword(r, q, hasher) ==> q == password
  {
    u.(passwordHash := Hashed(salt, hasher(salt, password)))
  }

  datatype UserView = UserView(id: int, name: string, email: string, role: Role, createdAt: int)

  datatype SlotView = SlotView(id: int, startAt: int, endAt: int, isBooked: bool, createdAt: int)

  datatype BookingView = BookingView(
    id: int, userId: int, slotId: int,
    userName: Option<string>, userEmail: Option<string>,
    slotStart: Option<int>, slotEnd: Option<int>,
    createdAt: int)

  /** `User.to_dict`: every column except the password hash. */
  function UserToDict(u: User): (v: UserView)
    ensures v.id == u.id && v.name == u.name && v.email == u.email
    ensures v.role == u.role && v.createdAt == u.createdAt
  {
    UserView(u.id, u.name, u.email, u.role, u.createdAt)
  }

  /** `Slot.to_dict`: `is_booked` is derived from the bookings, never stored. */
  function SlotToDict(s: Slot, bookings: seq<Booking>): (v: SlotView)
    ensures v.id == s.id && v.startAt == s.startAt && v.endAt == s.endAt && v.createdAt == s.createdAt
    ensures v.isBooked <==> exists b :: b in bookings && b.slotId == s.id
  {
    SlotView(s.id, s.startAt, s.endAt, BookingOfSlot(bookings, s.id).Some?, s.createdAt)
  }

  /**
   * `Booking.to_dict`: the user fields are null exactly when the booking's
   * user is absent, the slot fields exactly when its slot is absent.
   */
  function BookingToDict(b: Booking, users: seq<User>, slots: seq<Slot>): (v: BookingView)
    ensures v.id == b.id && v.userId == b.userId && v.slotId == b.slotId && v.createdAt == b.createdAt
    ensures v.userName.None? <==> b.userId !in UserIds(users)
    ensures v.userEmail.None? <==> b.userId !in UserIds(users)
    ensures v.slotStart.None? <==> b.slotId !in SlotIds(slots)
    ensures v.slotEnd.None? <==> b.slotId !in SlotIds(slots)
  {
    var user := FindUser(users, b.userId);
    var slot := FindSlot(slots, b.slotId);
    BookingView(
      b.id, b.userId, b.slotId,
      if user.Some? then Some(user.value.name) else None,
      if user.Some? then Some(user.value.email) else None,
      if slot.Some? then Some(slot.value.startAt) else None,
      if slot.Some? then Some(slot.value.endAt) else None,
      b.createdAt)
  }

  /** In a well-formed store a booking's view shows its own user's and slot's data, never null. */
  lemma StoredBookingView(t: Tables, b: Booking, u: User, s: Slot)
    requires WellFormed(t)
    requires b in t.bookings && u in t.users && s in t.slots
    requires u.id == b.userId && s.id == b.slotId
    ensures BookingToDict(b, t.users, t.slots).userName == Some(u.name)
    ensures BookingToDict(b, t.users, t.slots).userEmail == Some(u.email)
    ensures BookingToDict(b, t.users, t.slots).slotStart == Some(s.startAt)
    ensures BookingToDict(b, t.users, t.slots).slotEnd == Some(s.endAt)
  {
    LookupUnique(t.users, UserKey, FindUser(t.users, b.userId).value, u);
    LookupUnique(t.slots, SlotKey, FindSlot(t.slots, b.slotId).value, s);
  }

  /** The user rows other than `userId`. */
  function UsersWithout(users: seq<User>, userId: int): seq<User> {
    Filter(users, (u: User) => u.id != userId)
  }

  /** The booking rows not owned by `userId`. */
  function BookingsNotOwnedBy(bookings: seq<Booking>, userId: int): seq<Booking> {
    Filter(bookings, (b: Booking) => b.userId != userId)
  }

  /** The slot rows other than `slotId`. */
  function SlotsWithout(slots: seq<Slot>, slotId: int): seq<Slot> {
    Filter(slots, (s: Slot) => s.id != slotId)
  }

  /** The booking rows not on `slotId`. */
  function BookingsNotOn(bookings: seq<Booking>, slotId: int): seq<Booking> {
    Filter(bookings, (b: Booking) => b.slotId != slotId)
  }

  /** Deleting a user; `cascade='all, delete-orphan'` deletes the user's bookings with it. */
  function DeleteUserStep(t: Tables, userId: int): (r: Tables)
    ensures userId !in UserIds(r.users)
    ensures forall u :: u in t.users && u.id != userId ==> u in r.users
    ensures forall u :: u in r.users ==> u in t.users
    ensures forall b :: b in r.bookings ==> b in t.bookings && b.userId != userId
    ensures forall b :: b in t.bookings && b.userId != userId ==> b in r.bookings
    ensures r.slots == t.slots
  {
    Tables(UsersWithout(t.users, userId), t.slots, BookingsNotOwnedBy(t.bookings, userId))
  }

  /** Deleting a slot; `cascade='all, delete-orphan'` deletes its booking with it. */
  function DeleteSlotStep(t: Tables, slotId: int): (r: Tables)
    ensures slotId !in SlotIds(r.slots)
    ensures forall s :: s in t.slots && s.id != slotId ==> s in r.slots
    ensures forall s :: s in r.slots ==> s in t.slots
    ensures !IsBooked(slotId, r.bookings)
    ensures forall b :: b in t.bookings && b.slotId != slotId ==> b in r.bookings
    ensures forall b :: b in r.bookings ==> b in t.bookings
    ensures r.users == t.users
  {
    Tables(t.users, SlotsWithout(t.slots, slotId), BookingsNotOn(t.bookings, slotId))
  }

  /** The cascade leaves no booking pointing at a deleted user. */
  lemma DeleteUserKeepsWellFormed(t: Tables, userId: int)
    requires WellFormed(t)
    ensures WellFormed(DeleteUserStep(t, userId))
  {
    var r := DeleteUserStep(t, userId);
    DistinctFilter(t.users, (u: User) => u.id != userId, UserKey);
    DistinctFilter(t.users, (u: User) => u.id != userId, EmailKey);
    DistinctFilter(t.bookings, (b: Booking) => b.userId != userId, BookingKey);
    DistinctFilter(t.bookings, (b: Booking) => b.userId != userId, BookedSlotKey);
    forall b | b in r.bookings ensures b.userId in UserIds(r.users) {
      var u :| u in t.users && u.id == b.userId;
      assert u in r.users;
    }
  }

  /** The cascade leaves no booking pointing at a deleted slot. */
  lemma DeleteSlotKeepsWellFormed(t: Tables, slotId: int)
    requires WellFormed(t)
    ensures WellFormed(DeleteSlotStep(t, slotId))
  {
    var r := DeleteSlotStep(t, slotId);
    DistinctFilter(t.slots, (s: Slot) => s.id != slotId, SlotKey);
    DistinctFilter(t.slots, (s: Slot) => s.id != slotId, StartKey);
    DistinctFilter(t.bookings, (b: Booking) => b.slotId != slotId, BookingKey);
    DistinctFilter(t.bookings, (b: Booking) => b.slotId != slotId, BookedSlotKey);
    forall b | b in r.bookings ensures b.slotId in SlotIds(r.slots) {
      var s :| s in t.slots && s.id == b.slotId;
      assert s in r.slots;
    }
  }

  /** The database session: the three tables, changed in place by the request handlers. */
  class Database {
    var users: seq<User>
    var slots: seq<Slot>
    var bookings: seq<Booking>

    function Snapshot(): Tables
      reads this
    {
      Tables(users, slots, bookings)
    }

    predicate Valid()
      reads this
    {
      WellFormed(Snapshot())
    }

    /** `db.create_all()` on an empty database. */
    constructor ()
      ensures Valid()
      ensures Snapshot() == Tables([], [], [])
    {
      users, slots, bookings := [], [], [];
    }

    /** `db.session.delete(user)`, with its cascade. */
    method DeleteUser(userId: int)
      requires Valid()
      modifies this
      ensures Valid()
      ensures Snapshot() == DeleteUserStep(old(Snapshot()), userId)
    {
      DeleteUserKeepsWellFormed(Snapshot(), userId);
      bookings := BookingsNotOwnedBy(bookings, userId);
      users := UsersWithout(users, userId);
    }

    /** `db.session.delete(slot)`, with its cascade. */
    method DeleteSlot(slotId: int)
      requires Valid()
      modifies this
      ensures Valid()
      ensures Snapshot() == DeleteSlotStep(old(Snapshot()), slotId)
    {
      DeleteSlotKeepsWellFormed(Snapshot(), slotId);
      bookings := BookingsNotOn(bookings, slotId);
      slots := SlotsWithout(slots, slotId);
    }
  }
}
