/**
 * Slot generation and the availability listing of `GET /slots`.
 *
 * A day is an integer; day `d` starts at minute `d * 1440`. Each day of a
 * range gets a grid of 30-minute slots starting at 09:00, 09:30, ..., 16:30,
 * created only for start times not yet stored.
 */
module Slots {
  import opened Wrappers
  import opened Seqs
  import opened Models

  const MinutesPerDay: int := 1440
  const OpeningHour: int := 9
  const ClosingHour: int := 17
  const SlotLength: int := 30
  const SlotsPerDay: int := 16

  /** The times of a slot that generation proposes; it has no id until it is stored. */
  datatype SlotTimes = SlotTimes(startAt: int, endAt: int)

  /** `current_date.replace(hour=hour, minute=minute)` and that plus 30 minutes. */
  function SlotAt(day: int, hour: int, minute: int): SlotTimes {
    var start := day * 1440 + hour * 60 + minute;
    SlotTimes(start, start + 30)
  }

  /** One day's candidates, in the order of `for hour in range(9, 17): for minute in [0, 30]`. */
  function DayGrid(day: int): (g: seq<SlotTimes>)
    ensures |g| == SlotsPerDay
  {
    seq(16, k requires 0 <= k < 16 => SlotAt(day, 9 + k / 2, 30 * (k % 2)))
  }

  /** The candidates of the days `fromDay` to `toDay`, inclusive, in generation order. */
  function Candidates(fromDay: int, toDay: int): seq<SlotTimes>
    decreases toDay - fromDay
  {
    if toDay < fromDay then [] else Candidates(fromDay, toDay - 1) + DayGrid(toDay)
  }

  /** The start times of the stored slots. */
  function Starts(slots: seq<Slot>): set<int> {
    set s | s in slots :: s.startAt
  }

  /** `Slot.query.filter_by(start_at=start).first()`. */
  function SlotStartingAt(slots: seq<Slot>, start: int): (r: Option<Slot>)
    ensures r.Some? ==> r.value in slots && r.value.startAt == start
    ensures r.None? <==> start !in Starts(slots)
  {
    First(slots, (s: Slot) => s.startAt == start)
  }

  /** The candidates whose start time no stored slot has, in order. */
  function Unstored(cands: seq<SlotTimes>, slots: seq<Slot>): (r: seq<SlotTimes>)
    ensures forall c :: c in r ==> c in cands && c.startAt !in Starts(slots)
    ensures forall c :: c in cands && c.startAt !in Starts(slots) ==> c in r
  {
    if |cands| == 0 then []
    else
      var last := cands[|cands| - 1];
      assert cands == cands[..|cands| - 1] + [last];
      Unstored(cands[..|cands| - 1], slots) + (if last.startAt in Starts(slots) then [] else [last])
  }

  lemma {:induction false} UnstoredAppend(a: seq<SlotTimes>, b: seq<SlotTimes>, slots: seq<Slot>)
    ensures Unstored(a + b, slots) == Unstored(a, slots) + Unstored(b, slots)
    decreases |b|
  {
    if |b| == 0 {
      assert a + b == a;
    } else {
      var last := b[|b| - 1];
      assert (a + b)[..|a + b| - 1] == a + b[..|b| - 1];
      UnstoredAppend(a, b[..|b| - 1], slots);
    }
  }

  /** The candidate at position `2 * (hour - 9) + i` of a day is the one for `hour` and minute `30 * i`. */
  lemma DayGridAt(day: int, hour: int, i: int)
    requires OpeningHour <= hour < ClosingHour && 0 <= i < 2
    ensures DayGrid(day)[2 * (hour - OpeningHour) + i] == SlotAt(day, hour, 30 * i)
  {
    var k := 2 * (hour - OpeningHour) + i;
    assert k / 2 == hour - OpeningHour && k % 2 == i;
  }

  /** The two candidates of one hour, at minute 0 and minute 30. */
  function HourPair(day: int, hour: int): seq<SlotTimes> {
    [SlotAt(day, hour, 0), SlotAt(day, hour, 30)]
  }

  /** One step of the hour loop: the hour's pair extends the day's grid prefix. */
  lemma HourStep(day: int, hour: int, slots: seq<Slot>)
    requires OpeningHour <= hour < ClosingHour
    ensures var k := 2 * (hour - OpeningHour);
            Unstored(DayGrid(day)[..k + 2], slots) == Unstored(DayGrid(day)[..k], slots) + Unstored(HourPair(day, hour), slots)
  {
    var k := 2 * (hour - OpeningHour);
    DayGridAt(day, hour, 0);
    DayGridAt(day, hour, 1);
    assert DayGrid(day)[..k + 2] == DayGrid(day)[..k] + HourPair(day, hour);
    UnstoredAppend(DayGrid(day)[..k], HourPair(day, hour), slots);
  }

  /** One step of the day loop. */
  lemma DayStep(startDay: int, day: int, slots: seq<Slot>)
    requires startDay <= day
    ensures Unstored(Candidates(startDay, day), slots)
            == Unstored(Candidates(startDay, day - 1), slots) + Unstored(DayGrid(day), slots)
  {
    UnstoredAppend(Candidates(startDay, day - 1), DayGrid(day), slots);
  }

  /** The body of the hour loop: the hour's :00 and :30 candidates whose start is not stored. */
  method GenerateHour(stored: seq<Slot>, day: int, hour: int) returns (created: seq<SlotTimes>)
    ensures created == Unstored(HourPair(day, hour), stored)
  {
    created := [];
    var minutes := [0, 30];
    for i := 0 to 2
      invariant created == Unstored(HourPair(day, hour)[..i], stored)
    {
      var minute := minutes[i];
      var slot := SlotAt(day, hour, minute);
      var existing := SlotStartingAt(stored, slot.startAt);
      assert HourPair(day, hour)[..i + 1] == HourPair(day, hour)[..i] + [slot];
      UnstoredAppend(HourPair(day, hour)[..i], [slot], stored);
      if existing.None? {
        created := created + [slot];
      }
    }
    assert HourPair(day, hour)[..2] == HourPair(day, hour);
  }

  /** The body of the day loop: one day's unstored candidates, hour by hour. */
  method GenerateDay(stored: seq<Slot>, day: int) returns (created: seq<SlotTimes>)
    ensures created == Unstored(DayGrid(day), stored)
  {
    created := [];
    var hour := OpeningHour;
    while hour < ClosingHour
      invariant OpeningHour <= hour <= ClosingHour
      invariant created == Unstored(DayGrid(day)[..2 * (hour - OpeningHour)], stored)
    {
      var ofHour := GenerateHour(stored, day, hour);
      HourStep(day, hour, stored);
      created := created + ofHour;
      hour := hour + 1;
    }
    assert DayGrid(day)[..16] == DayGrid(day);
  }

  /**
   * `generate_slots_for_date_range`: walks the days of the range and
   * collects the candidates whose start time no stored slot has, in order.
   * The store itself is not changed.
   */
  method GenerateSlotsForDateRange(db: Database, startDay: int, endDay: int) returns (created: seq<SlotTimes>)
    ensures created == Unstored(Candidates(startDay, endDay), db.slots)
  {
    var stored := db.slots;
    created := [];
    var day := startDay;
    while day <= endDay
      invariant (startDay <= day <= endDay + 1) || day == startDay
      invariant created == Unstored(Candidates(startDay, day - 1), stored)
      decreases endDay - day
    {
      var ofDay := GenerateDay(stored, day);
      DayStep(startDay, day, stored);
      created := created + ofDay;
      day := day + 1;
    }
  }

  /** For start <= end the range has 16 candidates per day, none when start > end. */
  lemma {:induction false} CandidateCount(fromDay: int, toDay: int)
    ensures fromDay <= toDay ==> |Candidates(fromDay, toDay)| == SlotsPerDay * (toDay - fromDay + 1)
    ensures toDay < fromDay ==> Candidates(fromDay, toDay) == []
    decreases toDay - fromDay
  {
    if fromDay <= toDay {
      CandidateCount(fromDay, toDay - 1);
    }
  }

  /** A candidate lasts 30 minutes and lies on the half-hour grid inside 09:00-17:00 of a day in range. */
  predicate InBusinessHours(c: SlotTimes, day: int) {
    && day * MinutesPerDay + OpeningHour * 60 <= c.startAt
    && c.endAt <= day * MinutesPerDay + ClosingHour * 60
    && (c.startAt - day * MinutesPerDay) % SlotLength == 0
  }

  lemma {:induction false} CandidateShape(fromDay: int, toDay: int)
    ensures forall c :: c in Candidates(fromDay, toDay) ==>
              && c.endAt == c.startAt + SlotLength
              && exists day :: fromDay <= day <= toDay && InBusinessHours(c, day)
    decreases toDay - fromDay
  {
    if fromDay <= toDay {
      CandidateShape(fromDay, toDay - 1);
      forall c | c in DayGrid(toDay)
        ensures c.endAt == c.startAt + SlotLength && InBusinessHours(c, toDay)
      {
        var k :| 0 <= k < 16 && DayGrid(toDay)[k] == c;
        assert c == SlotAt(toDay, 9 + k / 2, 30 * (k % 2));
      }
    }
  }

  /** Start times strictly increase along `s`. */
  predicate StrictlyIncreasing(s: seq<SlotTimes>) {
    forall i, j :: 0 <= i < j < |s| ==> s[i].startAt < s[j].startAt
  }

  lemma DayGridIncreasing(day: int)
    ensures StrictlyIncreasing(DayGrid(day))
    ensures forall c :: c in DayGrid(day) ==> day * 1440 + 540 <= c.startAt <= day * 1440 + 990
  {
    forall k | 0 <= k < 16 ensures DayGrid(day)[k].startAt == day * 1440 + 540 + 30 * k {
      assert 60 * (k / 2) + 30 * (k % 2) == 30 * k;
    }
  }

  /** Generation never proposes two candidates with one start time. */
  lemma {:induction false} CandidatesIncreasing(fromDay: int, toDay: int)
    ensures StrictlyIncreasing(Candidates(fromDay, toDay))
    ensures forall c :: c in Candidates(fromDay, toDay) ==> c.startAt < (toDay + 1) * 1440
    decreases toDay - fromDay
  {
    if fromDay <= toDay {
      CandidatesIncreasing(fromDay, toDay - 1);
      DayGridIncreasing(toDay);
      var a: seq<SlotTimes> := Candidates(fromDay, toDay - 1);
      var g: seq<SlotTimes> := DayGrid(toDay);
      forall i, j | 0 <= i < j < |a + g| ensures (a + g)[i].startAt < (a + g)[j].startAt {
        if j >= |a| && i < |a| {
          assert a[i] in a && g[j - |a|] in g;
        } else if j >= |a| {
          assert (a + g)[i] == g[i - |a|] && (a + g)[j] == g[j - |a|];
        }
      }
    }
  }

  lemma {:induction false} UnstoredIncreasing(cands: seq<SlotTimes>, slots: seq<Slot>)
    requires StrictlyIncreasing(cands)
    ensures StrictlyIncreasing(Unstored(cands, slots))
    decreases |cands|
  {
    if |cands| > 0 {
      var init := cands[..|cands| - 1];
      var last := cands[|cands| - 1];
      UnstoredIncreasing(init, slots);
      var r := Unstored(init, slots);
      forall c | c in r ensures c.startAt < last.startAt {
        var i :| 0 <= i < |init| && init[i] == c;
        assert cands[i] == c;
      }
    }
  }

  function TimesStartKey(c: SlotTimes): int { c.startAt }

  /** `db.session.add_all(new_slots)`: each new slot gets the next row id. */
  function AddSlots(slots: seq<Slot>, news: seq<SlotTimes>, now: int): (r: seq<Slot>)
    ensures |r| == |slots| + |news|
    ensures r[..|slots|] == slots
    ensures forall k :: 0 <= k < |news| ==>
              && r[|slots| + k].startAt == news[k].startAt
              && r[|slots| + k].endAt == news[k].endAt
              && r[|slots| + k].createdAt == now
    decreases |news|
  {
    if |news| == 0 then slots
    else
      var base := AddSlots(slots, news[..|news| - 1], now);
      var c := news[|news| - 1];
      base + [Slot(NextId(base, SlotKey), c.startAt, c.endAt, now)]
  }

  lemma {:induction false} AddSlotsStarts(slots: seq<Slot>, news: seq<SlotTimes>, now: int)
    ensures forall x :: x in Starts(AddSlots(slots, news, now)) <==>
              x in Starts(slots) || exists c :: c in news && c.startAt == x
    decreases |news|
  {
    var r := AddSlots(slots, news, now);
    forall x | x in Starts(r) ensures x in Starts(slots) || exists c :: c in news && c.startAt == x {
      var s :| s in r && s.startAt == x;
      var i :| 0 <= i < |r| && r[i] == s;
      if i < |slots| {
        assert r[..|slots|][i] == s;
      } else {
        assert news[i - |slots|] in news;
      }
    }
    forall x | x in Starts(slots) || (exists c :: c in news && c.startAt == x) ensures x in Starts(r) {
      if x in Starts(slots) {
        var s :| s in slots && s.startAt == x;
        var i :| 0 <= i < |slots| && slots[i] == s;
        assert r[i] == r[..|slots|][i];
        assert r[i] in r;
      } else {
        var c :| c in news && c.startAt == x;
        var k :| 0 <= k < |news| && news[k] == c;
        assert r[|slots| + k] in r;
      }
    }
  }

  lemma {:induction false} AddSlotsKeepsIds(slots: seq<Slot>, news: seq<SlotTimes>, now: int)
    requires Distinct(slots, SlotKey)
    ensures Distinct(AddSlots(slots, news, now), SlotKey)
    ensures SlotIds(slots) <= SlotIds(AddSlots(slots, news, now))
    decreases |news|
  {
    if |news| > 0 {
      var base := AddSlots(slots, news[..|news| - 1], now);
      AddSlotsKeepsIds(slots, news[..|news| - 1], now);
      var c := news[|news| - 1];
      DistinctAppend(base, Slot(NextId(base, SlotKey), c.startAt, c.endAt, now), SlotKey);
    }
  }

  lemma {:induction false} AddSlotsKeepsStarts(slots: seq<Slot>, news: seq<SlotTimes>, now: int)
    requires Distinct(slots, StartKey)
    requires StrictlyIncreasing(news)
    requires forall c :: c in news ==> c.startAt !in Starts(slots)
    ensures Distinct(AddSlots(slots, news, now), StartKey)
    decreases |news|
  {
    if |news| > 0 {
      var init := news[..|news| - 1];
      var c := news[|news| - 1];
      var base := AddSlots(slots, init, now);
      AddSlotsKeepsStarts(slots, init, now);
      AddSlotsStarts(slots, init, now);
      forall y | y in base ensures y.startAt != c.startAt {
        assert y.startAt in Starts(base);
        if exists d :: d in init && d.startAt == y.startAt {
          var d :| d in init && d.startAt == y.startAt;
          var i :| 0 <= i < |init| && init[i] == d;
          assert news[i] == d;
        }
      }
      DistinctAppend(base, Slot(NextId(base, SlotKey), c.startAt, c.endAt, now), StartKey);
    }
  }

  /** The date query parameters `from` and `to`. */
  datatype DateArg =
    | Missing          // absent, or the empty string
    | Malformed        // present, but not a YYYY-MM-DD date
    | Date(day: int)   // a YYYY-MM-DD date, as its day number

  /**
   * The window of `get_slots`: today through today + 7 when either parameter
   * is missing, otherwise both must parse.
   */
  function ResolveWindow(fromArg: DateArg, toArg: DateArg, today: int): (r: Result<(int, int), Error>)
    ensures fromArg.Missing? || toArg.Missing? ==> r == Success((today, today + 7))
    ensures !fromArg.Missing? && !toArg.Missing? && (fromArg.Malformed? || toArg.Malformed?) ==>
              r == Failure(InvalidDateFormat)
    ensures fromArg.Date? && toArg.Date? ==> r == Success((fromArg.day, toArg.day))
  {
    if fromArg.Missing? || toArg.Missing? then Success((today, today + 7))
    else if fromArg.Malformed? || toArg.Malformed? then Failure(InvalidDateFormat)
    else Success((fromArg.day, toArg.day))
  }

  /** The stored slots with no booking whose start lies in [lo, hi]. */
  function OpenSlots(t: Tables, lo: int, hi: int): seq<Slot> {
    Filter(t.slots, (s: Slot) => lo <= s.startAt <= hi && !IsBooked(s.id, t.bookings))
  }

  /** `[slot.to_dict() for slot in rows]`. */
  function SlotViews(rows: seq<Slot>, bookings: seq<Booking>): seq<SlotView> {
    seq(|rows|, i requires 0 <= i < |rows| => SlotToDict(rows[i], bookings))
  }

  /** The views of the rows ordered by start time: one per row, in start order. */
  lemma StartOrderedViews(rows: seq<Slot>, bookings: seq<Booking>)
    ensures var vs := SlotViews(SortBy(rows, StartKey), bookings);
            && |vs| == |rows|
            && (forall s :: s in rows ==> SlotToDict(s, bookings) in vs)
            && (forall v :: v in vs ==> exists s :: s in rows && v == SlotToDict(s, bookings))
            && (forall i, j :: 0 <= i < j < |vs| ==> vs[i].startAt <= vs[j].startAt)
  {
    var sorted := SortBy(rows, StartKey);
    var vs := SlotViews(sorted, bookings);
    assert |sorted| == |multiset(sorted)| == |multiset(rows)| == |rows|;
    forall s | s in rows ensures SlotToDict(s, bookings) in vs {
      assert s in multiset(rows);
      var i :| 0 <= i < |sorted| && sorted[i] == s;
      assert vs[i] == SlotToDict(s, bookings);
    }
    forall v | v in vs ensures exists s :: s in rows && v == SlotToDict(s, bookings) {
      var i :| 0 <= i < |vs| && vs[i] == v;
      assert sorted[i] in multiset(sorted);
    }
    forall i, j | 0 <= i < j < |vs| ensures vs[i].startAt <= vs[j].startAt {
      assert StartKey(sorted[i]) <= StartKey(sorted[j]);
    }
  }

  /** The availability query: open slots in the window, ordered by start, as `Slot.to_dict`. */
  function AvailableViews(t: Tables, lo: int, hi: int): (vs: seq<SlotView>)
    ensures |vs| == |OpenSlots(t, lo, hi)|
    ensures forall v :: v in vs ==> !v.isBooked && lo <= v.startAt <= hi && v.id in SlotIds(t.slots)
    ensures forall v :: v in vs ==>
              exists s :: s in t.slots && lo <= s.startAt <= hi && !IsBooked(s.id, t.bookings) && v == SlotToDict(s, t.bookings)
    ensures forall s :: s in t.slots && lo <= s.startAt <= hi && !IsBooked(s.id, t.bookings) ==>
              SlotToDict(s, t.bookings) in vs
    ensures forall i, j :: 0 <= i < j < |vs| ==> vs[i].startAt <= vs[j].startAt
  {
    var open := OpenSlots(t, lo, hi);
    StartOrderedViews(open, t.bookings);
    SlotViews(SortBy(open, StartKey), t.bookings)
  }

  /** Generation plus listing for the window `fromDay`..`toDay` (listing up to the next midnight). */
  function ListSlotsStep(t: Tables, fromDay: int, toDay: int, now: int): (s: Step<seq<SlotView>>)
    ensures s.after.users == t.users && s.after.bookings == t.bookings
    ensures s.after.slots == AddSlots(t.slots, Unstored(Candidates(fromDay, toDay), t.slots), now)
    ensures s.result.Success?
    ensures |s.result.value| == |OpenSlots(s.after, fromDay * MinutesPerDay, (toDay + 1) * MinutesPerDay)|
    ensures forall v :: v in s.result.value ==>
              exists x :: x in s.after.slots && fromDay * MinutesPerDay <= x.startAt <= (toDay + 1) * MinutesPerDay
                          && !IsBooked(x.id, s.after.bookings) && v == SlotToDict(x, s.after.bookings)
    ensures forall x :: x in s.after.slots && fromDay * MinutesPerDay <= x.startAt <= (toDay + 1) * MinutesPerDay
                        && !IsBooked(x.id, s.after.bookings) ==>
              SlotToDict(x, s.after.bookings) in s.result.value
    ensures forall i, j :: 0 <= i < j < |s.result.value| ==> s.result.value[i].startAt <= s.result.value[j].startAt
  {
    var created := Unstored(Candidates(fromDay, toDay), t.slots);
    var after := t.(slots := AddSlots(t.slots, created, now));
    Step(Success(AvailableViews(after, fromDay * MinutesPerDay, (toDay + 1) * MinutesPerDay)), after)
  }

  /** After listing a window, every start time of its grid is stored. */
  lemma ListSlotsStoresGrid(t: Tables, fromDay: int, toDay: int, now: int)
    ensures forall c :: c in Candidates(fromDay, toDay) ==>
              c.startAt in Starts(ListSlotsStep(t, fromDay, toDay, now).after.slots)
  {
    var created := Unstored(Candidates(fromDay, toDay), t.slots);
    AddSlotsStarts(t.slots, created, now);
  }

  /** Listing a window keeps every store constraint, including one slot per start time. */
  lemma ListSlotsKeepsWellFormed(t: Tables, fromDay: int, toDay: int, now: int)
    requires WellFormed(t)
    ensures WellFormed(ListSlotsStep(t, fromDay, toDay, now).after)
  {
    var created := Unstored(Candidates(fromDay, toDay), t.slots);
    CandidatesIncreasing(fromDay, toDay);
    UnstoredIncreasing(Candidates(fromDay, toDay), t.slots);
    AddSlotsKeepsIds(t.slots, created, now);
    AddSlotsKeepsStarts(t.slots, created, now);
  }

  /** Nothing is proposed when every candidate's start is stored. */
  lemma {:induction false} UnstoredAllStored(cands: seq<SlotTimes>, slots: seq<Slot>)
    requires forall c :: c in cands ==> c.startAt in Starts(slots)
    ensures Unstored(cands, slots) == []
    decreases |cands|
  {
    if |cands| > 0 {
      assert cands[|cands| - 1] in cands;
      UnstoredAllStored(cands[..|cands| - 1], slots);
    }
  }

  /** A second generation over the same range proposes nothing. */
  lemma GenerationIdempotent(slots: seq<Slot>, fromDay: int, toDay: int, now: int)
    ensures var cands := Candidates(fromDay, toDay);
            Unstored(cands, AddSlots(slots, Unstored(cands, slots), now)) == []
  {
    var cands := Candidates(fromDay, toDay);
    var created := Unstored(cands, slots);
    var after := AddSlots(slots, created, now);
    AddSlotsStarts(slots, created, now);
    forall c | c in cands ensures c.startAt in Starts(after) {
      if c.startAt !in Starts(slots) {
        assert c in created;
      }
    }
    UnstoredAllStored(cands, after);
  }

  /** Listing the same window twice leaves the store as listing it once, and answers the same. */
  lemma ListSlotsIdempotent(t: Tables, fromDay: int, toDay: int, now1: int, now2: int)
    ensures var once := ListSlotsStep(t, fromDay, toDay, now1);
            ListSlotsStep(once.after, fromDay, toDay, now2) == once
  {
    GenerationIdempotent(t.slots, fromDay, toDay, now1);
  }

  /** `GET /slots`: window, generation, then the availability listing. */
  function GetSlotsStep(t: Tables, fromArg: DateArg, toArg: DateArg, today: int, now: int): (s: Step<seq<SlotView>>)
    ensures ResolveWindow(fromArg, toArg, today).Failure? ==> s == Step(Failure(InvalidDateFormat), t)
    ensures ResolveWindow(fromArg, toArg, today).Success? ==>
              var (f, to) := ResolveWindow(fromArg, toArg, today).value;
              s == ListSlotsStep(t, f, to, now)
  {
    match ResolveWindow(fromArg, toArg, today)
    case Failure(e) => Step(Failure(e), t)
    case Success((f, to)) => ListSlotsStep(t, f, to, now)
  }

  /** `db.session.add_all(new_slots)` on the slot table. */
  method AddAll(db: Database, created: seq<SlotTimes>, now: int)
    modifies db
    ensures db.slots == AddSlots(old(db.slots), created, now)
    ensures db.users == old(db.users) && db.bookings == old(db.bookings)
  {
    ghost var before := db.slots;
    for k := 0 to |created|
      invariant db.slots == AddSlots(before, created[..k], now)
      invariant db.users == old(db.users) && db.bookings == old(db.bookings)
    {
      assert created[..k + 1][..k] == created[..k];
      db.slots := db.slots + [Slot(NextId(db.slots, SlotKey), created[k].startAt, created[k].endAt, now)];
    }
    assert created[..|created|] == created;
  }

  /** `get_slots`, step by step against the session. */
  method GetSlots(db: Database, fromArg: DateArg, toArg: DateArg, today: int, now: int)
    returns (r: Result<seq<SlotView>, Error>)
    requires db.Valid()
    modifies db
    ensures db.Valid()
    ensures r == GetSlotsStep(old(db.Snapshot()), fromArg, toArg, today, now).result
    ensures db.Snapshot() == GetSlotsStep(old(db.Snapshot()), fromArg, toArg, today, now).after
  {
    var window := ResolveWindow(fromArg, toArg, today);
    if window.Failure? {
      return Failure(window.error);
    }
    var (fromDay, toDay) := window.value;
    ListSlotsKeepsWellFormed(db.Snapshot(), fromDay, toDay, now);
    var created := GenerateSlotsForDateRange(db, fromDay, toDay);
    AddAll(db, created, now);
    r := Success(AvailableViews(db.Snapshot(), fromDay * MinutesPerDay, (toDay + 1) * MinutesPerDay));
  }
}
