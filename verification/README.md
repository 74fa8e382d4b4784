# Appointment booking ledger, modelled in Dafny

The system is a small appointment service. Patients register and log in, and
receive a signed token that expires after 24 hours. They see the free
30-minute slots of a date window (09:00 to 17:00 every day), book a slot and
cancel their bookings. Administrators see every booking and may cancel any of
them, and an administrator account is seeded when the server starts. A
front-end helper builds the API URLs.

This project models the core of that system: the store of users, slots and
bookings and every rule that reads or changes it. The store is a value of
three tables, `Models.Tables`. Each state-changing endpoint is a pure `...Step`
function from the store before the request to the answer and the store after
it. The session, `Models.Database`, is a class holding the three tables as
fields. Its own methods `DeleteUser` and `DeleteSlot`, and the module-level
endpoint methods that take it with `modifies db` (`Bookings.Book`,
`Bookings.Cancel`, `Auth.Register`, `Slots.GetSlots`,
`Bootstrap.SeedAdminUser`), change those fields in place. Each is proved to do
exactly what its `...Step` function says.

Other modelling choices:

- Time is counted in whole minutes. Day `d` starts at minute `d * 1440`.
- A table is a sequence of rows in insertion order. A new row gets one more
  than the largest id in its table, as SQLite does.
- These are parameters rather than computed:
  - the password hash function (`Models.Hasher`) and its salt;
  - the outcome of decoding a token (`AuthGate.Decoded`);
  - the clock reading of each request (`now`, `today`);
  - the parsed `from`/`to` dates (`Slots.DateArg`);
  - the `VITE_API_URL` build variable.

Modules:

- `Seqs`: the query primitives (filter, first, order by, unique keys, next row id).
- `Models`: the three tables, their constraints, hashing and `to_dict`.
- `Slots`: slot generation and `GET /slots`.
- `Bookings`: book, cancel and the two booking lists.
- `Auth`: register, login and the token payload.
- `Words`: Python's `str.split(" ")` and `" ".join` on strings.
- `AuthGate`: the `token_required` decorator.
- `Bootstrap`: the admin seed.
- `ApiConfig`: `getApiUrl`.
- `Ledger`: the whole-ledger properties.

## Model

| member | source | states |
|---|---|---|
| Models.WellFormed | appointment-booking-api/src/models/user.py:10-64 | The store constraints. User ids, slot ids and booking ids are unique. Emails are unique (user.py:12). `bookings.slot_id` is unique (user.py:64). Every stored user has a hash. Every booking refers to a stored user and a stored slot. Start times are unique. Only the email, id and `slot_id` constraints are enforced by the schema: `start_at` has no UNIQUE (user.py:42), and the foreign keys (user.py:63-64) are not enforced because SQLite needs `PRAGMA foreign_keys=ON`, which the app never sets (main.py:44-46). Those two invariants hold because every handler keeps them when requests run one at a time (`Ledger.Run`). |
| Models.FindUser | appointment-booking-api/src/utils/auth.py:39 | `User.query.get`: returns a stored row with that id; None exactly when no stored row has that id. |
| Models.FindUserByEmail | appointment-booking-api/src/routes/auth.py:34 | `filter_by(email=...).first()`: returns a stored row with that email; None exactly when no user has that email. |
| Models.FindSlot | appointment-booking-api/src/routes/bookings.py:26 | `Slot.query.get`: returns a stored slot with that id; None exactly when no slot has it. |
| Models.FindBooking | appointment-booking-api/src/routes/bookings.py:132 | `Booking.query.get`: returns a stored booking with that id; None exactly when there is none. |
| Models.BookingOfSlot | appointment-booking-api/src/routes/bookings.py:36 | Returns a booking on the slot; None exactly when the slot is not booked. |
| Models.LookupUnique | appointment-booking-api/src/models/user.py:12 | On a unique column, two stored rows with the same key are the same row, so a lookup finds the only match. |
| Models.NewUser | appointment-booking-api/src/models/user.py:14 | A new user's role is the given role, or `patient` when none is given; there is no password hash until `set_password`. |
| Models.SetPassword | appointment-booking-api/src/models/user.py:20-26 | Afterwards `check_password` accepts the password just set. Only the hash field changes, and it records the salt, never the password. If the hash function is injective for that salt, only that password is accepted. |
| Models.UserToDict | appointment-booking-api/src/models/user.py:28-36 | Has every column of the user except the password hash. |
| Models.SlotToDict | appointment-booking-api/src/models/user.py:49-57 | Copies the slot's columns; `is_booked` is true iff some booking refers to the slot. |
| Models.BookingToDict | appointment-booking-api/src/models/user.py:67-78 | Copies the booking's columns. The user name and email are null iff the booking's user is not stored. The slot start and end are null iff its slot is not stored. |
| Models.StoredBookingView | appointment-booking-api/src/models/user.py:73-76 | In a well-formed store, a booking's dict shows its own user's name and email and its own slot's times, never null. |
| Models.DeleteUserStep | appointment-booking-api/src/models/user.py:18 | Deleting a user removes exactly that user and exactly the bookings that user owns (the cascade); slots are untouched. |
| Models.DeleteSlotStep | appointment-booking-api/src/models/user.py:47 | Deleting a slot removes exactly that slot and leaves it unbooked; every other booking stays; users are untouched. |
| Models.DeleteUserKeepsWellFormed | appointment-booking-api/src/models/user.py:18 | The user cascade leaves no booking pointing at a deleted user, and keeps every constraint. |
| Models.DeleteSlotKeepsWellFormed | appointment-booking-api/src/models/user.py:47 | The slot cascade leaves no booking pointing at a deleted slot, and keeps every constraint. |
| Models.Database.constructor | appointment-booking-api/src/main.py:67-68 | `db.create_all()` on a fresh database: three empty tables, which satisfy the constraints. |
| Models.Database.DeleteUser | appointment-booking-api/src/models/user.py:18 | The in-place delete leaves the tables equal to `DeleteUserStep` of the old tables, and keeps them well formed. |
| Models.Database.DeleteSlot | appointment-booking-api/src/models/user.py:47 | The in-place delete leaves the tables equal to `DeleteSlotStep` of the old tables, and keeps them well formed. |
| Slots.DayGrid | src/routes/slots.py:14-17 | One day has 16 candidates. |
| Slots.SlotStartingAt | src/routes/slots.py:20 | `filter_by(start_at=...).first()`: None exactly when no stored slot starts at that time. |
| Slots.Unstored | src/routes/slots.py:19-23 | The kept candidates are exactly the candidates whose start time no stored slot has. |
| Slots.UnstoredAppend | src/routes/slots.py:12-25 | Filtering a concatenation of candidate lists equals concatenating the filtered parts, so the filter can run one day and one minute at a time. |
| Slots.GenerateDay | src/routes/slots.py:14-23 | The nested hour/minute loops return, in loop order, exactly that day's unstored candidates. |
| Slots.GenerateSlotsForDateRange | src/routes/slots.py:7-27 | The day loop returns exactly the unstored candidates of the whole range, in order, and changes nothing in the store. |
| Slots.CandidateCount | src/routes/slots.py:12-25 | A range of n days (start no later than end) has 16 × n candidates. If start > end there are none. |
| Slots.CandidateShape | src/routes/slots.py:14-17 | Every candidate lasts 30 minutes. It lies on the half-hour grid between 09:00 and 17:00 of a day in the range. |
| Slots.CandidatesIncreasing | src/routes/slots.py:12-25 | Candidate start times strictly increase, so generation never proposes two slots with the same start. |
| Slots.UnstoredIncreasing | src/routes/slots.py:19-23 | Dropping the stored candidates keeps the start times strictly increasing. |
| Slots.AddSlots | src/routes/slots.py:54-56 | `add_all` appends one row per new slot, in order, with that slot's times and creation time; the existing rows are unchanged. |
| Slots.AddSlotsStarts | src/routes/slots.py:54-56 | After `add_all`, the stored start times are the old ones plus those of the new slots. |
| Slots.AddSlotsKeepsIds | src/routes/slots.py:54-56 | New slot ids are fresh, so slot ids stay unique. |
| Slots.AddSlotsKeepsStarts | src/routes/slots.py:54-56 | Adding slots with fresh, distinct start times keeps one slot per start time. |
| Slots.ResolveWindow | src/routes/slots.py:37-50 | If `from` or `to` is missing or empty, the window is today through today + 7. Otherwise a malformed date gives INVALID_DATE_FORMAT, and two valid dates are the window. |
| Slots.StartOrderedViews | src/routes/slots.py:63-65 | Sorting by start time and serialising gives one dict per row: each row's dict is present, every dict comes from a row, and starts are ascending. |
| Slots.AvailableViews | src/routes/slots.py:59-65 | The listing holds exactly the unbooked stored slots whose start lies in the window, one dict per slot, sorted by start ascending. |
| Slots.ListSlotsStep | src/routes/slots.py:53-65 | Generation and listing only append the window's unstored candidates to the slots; users and bookings are unchanged. The answer is a success, sorted by start, holding exactly the views of the stored unbooked slots whose start lies from `from` 00:00 to `to` + 1 day: every view is the `to_dict` of such a slot, every such slot is listed, and there are exactly as many views as such slots. |
| Slots.ListSlotsStoresGrid | src/routes/slots.py:53-56 | After a listing, every grid start time of the window is stored. |
| Slots.ListSlotsKeepsWellFormed | src/routes/slots.py:53-56 | Generation keeps every store constraint, in particular one slot per start time. |
| Slots.UnstoredAllStored | src/routes/slots.py:19-23 | If every candidate's start is stored, nothing is generated. |
| Slots.GenerationIdempotent | src/routes/slots.py:19-23 | A second generation over the same range, after the first one's slots are stored, proposes nothing. |
| Slots.ListSlotsIdempotent | src/routes/slots.py:29-65 | Listing a window twice leaves the same store and gives the same answer as listing it once. |
| Slots.GetSlotsStep | src/routes/slots.py:29-65 | A malformed date answers INVALID_DATE_FORMAT and changes nothing. Otherwise the answer is the generation-and-listing step over the resolved window. |
| Slots.AddAll | src/routes/slots.py:54-56 | The in-place `add_all` loop leaves the slot table equal to `AddSlots` of the old one; users and bookings are unchanged. |
| Slots.GetSlots | src/routes/slots.py:29-65 | The in-place handler answers and leaves the store exactly as `GetSlotsStep`, and keeps the store well formed. |
| Bookings.BookStep | appointment-booking-api/src/routes/bookings.py:8-57 | The checks run in source order, and each failure leaves the store unchanged. A missing or falsy (0) slot id gives MISSING_SLOT_ID. An unknown slot gives SLOT_NOT_FOUND. A booked slot gives SLOT_TAKEN. Success happens iff none apply; then exactly one booking with a fresh id is appended for (caller, slot, now), nothing else changes, and the answer is that booking's dict. |
| Bookings.BookKeepsWellFormed | appointment-booking-api/src/routes/bookings.py:46-57 | A booking by a stored user keeps every constraint, in particular at most one booking per slot. |
| Bookings.SecondBookingIsTaken | src/routes/bookings.py:36-43 | Once one booking of a slot has succeeded, the next booking of that slot fails with SLOT_TAKEN and changes nothing, whoever makes it. |
| Bookings.BookedViewResolves | src/routes/bookings.py:54-57 | The dict that `book` answers names the caller and the booked slot's times. |
| Bookings.CancelStep | appointment-booking-api/src/routes/bookings.py:127-168 | The checks run in source order, and each failure leaves the store unchanged. An unknown id gives BOOKING_NOT_FOUND. A caller who is neither admin nor owner gets FORBIDDEN. A slot that started before now gives PAST_BOOKING, for admins too. Otherwise the answer is the booking id, exactly that booking is removed, every other booking stays, and users and slots are unchanged. |
| Bookings.CancelKeepsWellFormed | appointment-booking-api/src/routes/bookings.py:162-163 | A cancellation keeps every store constraint. |
| Bookings.CancelFreesSlot | appointment-booking-api/src/routes/bookings.py:162-163 | After a successful cancellation the cancelled booking's slot is unbooked. |
| Bookings.BookThenCancel | appointment-booking-api/src/routes/bookings.py:127-168 | Booking a slot and then cancelling that booking before the slot starts succeeds, and gives back the store exactly as it was before the booking. |
| Bookings.NewestFirstViews | src/routes/bookings.py:89-91 | Sorting by `created_at` descending and serialising gives one dict per row: each row's dict is present, every dict comes from a row, and newest comes first. |
| Bookings.MyBookings | appointment-booking-api/src/routes/bookings.py:76-91 | FORBIDDEN iff the caller is not a patient. Otherwise the list has exactly the caller's bookings, one dict each and nobody else's, newest first. |
| Bookings.AllBookings | src/routes/bookings.py:101-116 | FORBIDDEN iff the caller is not an admin. Otherwise every booking appears, one dict each, newest first. |
| Bookings.Book | src/routes/bookings.py:8-57 | The in-place handler answers and leaves the store exactly as `BookStep`, and keeps the store well formed. |
| Bookings.Cancel | appointment-booking-api/src/routes/bookings.py:127-168 | The in-place handler answers and leaves the store exactly as `CancelStep`, and keeps the store well formed. |
| Auth.GenerateToken | appointment-booking-api/src/routes/auth.py:11-17 | The token payload carries the user id and role, and expires 24 hours after it is issued. |
| Auth.RegisterStep | appointment-booking-api/src/routes/auth.py:19-57 | A missing or empty name, email or password gives MISSING_FIELDS. A registered email gives EMAIL_EXISTS. Neither changes the store. Success happens iff neither applies; then exactly one user is appended with a fresh id, the given name and email, role `patient`, and a hash that accepts the given password. The answer is that user's dict. |
| Auth.RegisterKeepsWellFormed | appointment-booking-api/src/routes/auth.py:44-52 | Registration keeps ids and emails unique and every stored password hashed. |
| Auth.Register | appointment-booking-api/src/routes/auth.py:19-57 | The in-place handler answers and leaves the store exactly as `RegisterStep`, and keeps the store well formed. |
| Auth.Login | appointment-booking-api/src/routes/auth.py:68-101 | A missing or empty email or password gives MISSING_CREDENTIALS. Any other failure, an unknown email as much as a wrong password, is INVALID_CREDENTIALS. On success the password checks against the user with that email, the token carries that user's id and role and expires 24 h later, and the answer has the stored role and the user's dict. The store is only read. |
| Auth.LoginSucceedsIff | appointment-booking-api/src/routes/auth.py:83-92 | With unique emails, login succeeds iff some stored user has that email and the password checks against that user's hash. |
| Auth.RegisterThenLogin | appointment-booking-api/src/routes/auth.py:44-101 | After a successful registration the same email and password log in at once, as a patient, as the registered user. |
| Words.Split | appointment-booking-api/src/utils/auth.py:19 | Python's `split(" ")` gives at least one piece, and no piece contains a space. |
| Words.SplitCount | appointment-booking-api/src/utils/auth.py:19 | There is exactly one more piece than there are spaces in the header. |
| Words.JoinSplit | appointment-booking-api/src/utils/auth.py:19 | Joining the pieces with single spaces gives back the header. |
| Words.SplitJoin | appointment-booking-api/src/utils/auth.py:19 | Pieces without spaces are recovered by splitting their join. |
| AuthGate.BearerToken | appointment-booking-api/src/utils/auth.py:16-34 | No header gives TOKEN_MISSING. INVALID_TOKEN_FORMAT happens iff the header has no space. A token that is returned is non-empty and has no space. |
| AuthGate.BearerTokenIsSecondPiece | appointment-booking-api/src/utils/auth.py:19 | The token is the second piece, whatever the first word is; extra pieces are ignored. |
| AuthGate.EmptySecondPiece | appointment-booking-api/src/utils/auth.py:19-34 | Any header whose second space-separated piece is empty (`"Bearer "`, `"Bearer  tok"`, `"Bearer  "`) gives TOKEN_MISSING, not INVALID_TOKEN_FORMAT, whatever follows. |
| AuthGate.EmptySecondPieceExamples | appointment-booking-api/src/utils/auth.py:19-34 | `"Bearer "` and `"Bearer  x"` both give TOKEN_MISSING. |
| AuthGate.Authorize | appointment-booking-api/src/utils/auth.py:9-66 | Header errors pass through unchanged. Otherwise: TOKEN_EXPIRED iff the decode result is "expired"; INVALID_TOKEN iff it is any other decode failure; USER_NOT_FOUND iff the decoded id is not stored. On success the user is stored and has exactly the decoded id. |
| AuthGate.AuthorizedUserIsStored | appointment-booking-api/src/utils/auth.py:39-64 | With unique ids, the endpoint receives exactly the stored user whose id the token names. |
| AuthGate.LoginThenAuthorize | appointment-booking-api/src/utils/auth.py:9-66 | A token issued by login lets that same user in when it is sent back as `<scheme> <token>` and decodes to its own claims. |
| ApiConfig.ApiBaseUrl | appointment-booking-frontend/src/config/api.js:2 | The base is `VITE_API_URL` when it is set and non-empty, else `http://localhost:5000`. |
| ApiConfig.GetApiUrl | appointment-booking-frontend/src/config/api.js:5-15 | An endpoint starting with `/` is appended to the base as is. Any other endpoint is appended after one `/`. |
| ApiConfig.UrlShape | appointment-booking-frontend/src/config/api.js:8 | The URL is always the base, one `/`, then the endpoint without one leading slash. |
| ApiConfig.LeadingSlashIgnored | appointment-booking-frontend/src/config/api.js:7-8 | `getApiUrl("/" + e) == getApiUrl(e)` for any e that does not start with `/`. |
| ApiConfig.OnlyOneSlashDropped | appointment-booking-frontend/src/config/api.js:7 | At most one leading slash is removed, so `"//x"` keeps one slash. |
| Bootstrap.SeedAdminStep | appointment-booking-api/src/main.py:48-65 | If `admin@example.com` is registered, nothing changes. Otherwise exactly one user is appended: fresh id, name `Admin User`, that email, role `admin`, and a hash that accepts `Passw0rd!`. Afterwards the email is always registered. |
| Bootstrap.SeedAdminKeepsWellFormed | main.py:45-54 | Seeding keeps ids and emails unique, and the admin's password is stored only as a hash. |
| Bootstrap.SeedAdminIdempotent | main.py:40-57 | Seeding twice leaves the same store as seeding once. |
| Bootstrap.SeededAdminCanLogIn | appointment-booking-api/src/main.py:53-62 | A newly seeded admin logs in with the seeded password and gets role `admin`. |
| Bootstrap.SeedAdminUser | main.py:40-57 | The in-place seed leaves the store exactly as `SeedAdminStep`, and keeps the store well formed. |
| Ledger.Apply | appointment-booking-api/src/routes/bookings.py:8-168 | Any single request keeps every store constraint. Book and cancel never touch users or slots. A slot listing never touches users or bookings. |
| Ledger.Run | appointment-booking-api/src/routes/bookings.py:8-168 | Any sequence of requests keeps every store constraint. |
| Ledger.NoDoubleBooking | appointment-booking-api/src/models/user.py:64 | Starting from an empty database, no sequence of requests gives two bookings for one slot, two users one email, or two slots one start time. |
| Ledger.BookedSlotNotListed | src/routes/slots.py:59-63 | After a successful `book`, the availability listing no longer offers the booked slot, whatever the window. |
| Ledger.CancelledSlotListed | appointment-booking-api/src/routes/bookings.py:162-163 | After a successful cancellation, the freed slot is offered again by any window containing its start. |

## Left out

- Flask routing, request parsing, `jsonify` and HTTP status codes are not modelled. Each answer is a `Result` with an error code from `Models.Error`.
- Static file serving, CORS, the health check and request logging in both `main.py` files are not modelled. They are file-system and HTTP concerns.
- Console output is not modelled: the `console.log` of `getApiUrl` (appointment-booking-frontend/src/config/api.js:11-12) and the `print` calls of `seed_admin_user` in both `main.py` files. They do not affect any result or stored row.
- The generic exception branches are not modelled: BOOKING_FAILED, BOOKING_CANCEL_FAILED, BOOKINGS_FETCH_FAILED, SLOTS_FETCH_FAILED, REGISTRATION_FAILED and LOGIN_FAILED. They catch unspecified runtime failures.
- The `IntegrityError` branch of `book` is not modelled. It handles two concurrent requests for one slot, and the model runs requests one at a time. Its SLOT_TAKEN answer is the ordinary one (`Bookings.SecondBookingIsTaken`), and the unique `slot_id` column it relies on is part of `Models.WellFormed`.
- JWT signing and verification (HS256) are not modelled. Login answers the token payload. The gate receives the outcome of decoding as a parameter. A decoded payload without `user_id`, which would raise an unhandled `KeyError`, is not modelled.
- werkzeug password hashing is the `Hasher` parameter, and its random salt is a parameter.
- The wall clock is not modelled. `now` and `today` are parameters, in minutes and days. The source reads two clocks, and each step uses only one of them:
  - In `Bookings.BookStep`, `Auth.RegisterStep`, `Slots.ListSlotsStep` and `Bootstrap.SeedAdminStep`, `now` fills `created_at`. It stands for the column default `datetime.utcnow` (user.py:15, 44, 65), truncated to the whole minute; the microseconds of the source's timestamp are not modelled.
  - In `Bookings.CancelStep`, `now` is the local reading of `datetime.now()` rounded UP to the next whole minute (a reading of exactly a whole minute stays as it is). With that convention `startAt < now` gives the same PAST_BOOKING answer as the source's comparison of a whole-minute `start_at` with a reading that has seconds (bookings.py:153). A reading rounded down would disagree during the first minute of a slot.
- `strptime` is not modelled. A date argument arrives already classified as missing, malformed or a day number.
- A JSON body field with a non-string name/email/password or a non-integer `slotId` is not modelled.
- Bookings.CancelStep: requires a well-formed store. That a booking's slot exists is not guaranteed by the database, since SQLite does not enforce the foreign key here; it is kept by every handler (`Ledger.Run`). A dangling booking would end in the generic failure branch, which is not modelled.
- Concurrent slot generation is not modelled. Two simultaneous `GET /slots` requests over one window can both see a grid time as unstored and both insert it, so the source can store duplicate start times. The model runs requests one at a time, and under that assumption start times stay unique (`Models.WellFormed`, `Ledger.Run`).
- The `RemoveUser` and `RemoveSlot` requests of `Ledger.Request` exercise the ORM cascades of `user.py` (`Models.DeleteUserStep`, `Models.DeleteSlotStep`). No route of the source performs them; they are included so the whole-ledger invariant covers the cascades too.
- Bookings.Book: requires the caller to be a stored user. `token_required` only passes stored users (`AuthGate.AuthorizedUserIsStored`).
- Bookings.MyBookings: the order of bookings with equal `created_at` is not stated. The source's `created_at` carries microseconds, so two bookings made within the same minute are strictly ordered by `order_by(created_at.desc())` (bookings.py:89); with whole-minute timestamps the model makes them a tie and admits either order.
- Bookings.AllBookings: the order of bookings with equal `created_at` is not stated, for the same reason: the same-minute order of `order_by(created_at.desc())` (bookings.py:114) is lost to whole-minute timestamps.
- `created_at` is always filled by its column default, so the `to_dict` branches for a missing `created_at` are not modelled.
- The React pages, `vite.config.js`, `run_app.py`, `wsgi.py` and the hard-coded secret keys are not modelled. They only present or configure the rules modelled here.
