/**
 How far the bounded reads must reach: exactly over every start a request can be offered, twelve
 hours before it and to the end of its longest buffer. Where they reach less, some booking that is
 not read would have blocked a slot.
 */
module ReadLimits {
  import opened Prelude
  import opened Intervals
  import B = Bookings
  import S = Schedule
  import Z = Zone
  import opened Slots
  import opened Reads

  /** Both queries offer the same starts. */
  ghost predicate ReadsAlike(a: Ask) {
    && Asked(WholeQuery(a)) && Asked(ReadQuery(a))
    && forall t :: IsSlot(WholeQuery(a), a.first, a.last, t) <==> IsSlot(ReadQuery(a), a.first, a.last, t)
  }

  // ---- The starts a zone's days allow ----

  /** A start at the instant `at`, in a shift of `day` that opens at this minute. */
  datatype Start = Start(day: int, opens: int, step: int, duration: int, at: int)

  /** Some week and settings put this start on the grid, whatever is booked. */
  ghost predicate Possible(z: Z.Zone, s: Start) {
    && 0 <= s.opens < LAST_MINUTE && s.step in {5, 10, 15, 20, 30, 60}
    && SHORTEST_SERVICE <= s.duration <= LONGEST_SERVICE
    && Anchor(s.opens, s.step) != None
    && OnGrid(s.at, Instant(z, s.day, Anchor(s.opens, s.step).value), s.step * MINUTE)
    && Instant(z, s.day, s.opens) <= s.at && s.at + s.duration * MINUTE <= Instant(z, s.day, LAST_MINUTE)
  }

  /** The longest buffer of a service this long. */
  function LongestBuffer(duration: int): int {
    Max(LONGEST_OWN_BUFFER, duration)
  }

  /** The window holds the start with the longest booking and buffer before it, and its own after. */
  ghost predicate Reached(z: Z.Zone, first: int, last: int, s: Start) {
    && Instant(z, first - 1, 0) + 12 * HOUR <= s.at
    && s.at + (s.duration + LongestBuffer(s.duration)) * MINUTE <= Instant(z, last + 2, 0)
  }

  ghost predicate ReachesAll(z: Z.Zone, first: int, last: int) {
    forall s: Start :: first <= s.day <= last && Possible(z, s) ==> Reached(z, first, last, s)
  }

  lemma {:induction false} SlotIsPossible(q: Query, day: int, x: int, y: int, t: int)
    requires Asked(q) && q.step in {5, 10, 15, 20, 30, 60} && SHORTEST_SERVICE <= q.duration <= LONGEST_SERVICE
    requires SlotIn(q, day, x, y, t)
    ensures Possible(q.zone, Start(day, x, q.step, q.duration, t))
  {
    StretchInDay(q, IsoWeekday(day), x, y);
    LaterIsLater(q.zone, day, y, day, LAST_MINUTE);
  }

  /** A slot of either query lies where the reads answer for it. */
  lemma {:induction false} SlotIsInside(a: Ask, q: Query, day: int, x: int, y: int, t: int)
    requires Allowed(a) && ReachesAll(a.q.zone, a.first, a.last)
    requires Asked(q) && q.zone == a.q.zone && q.duration == a.q.duration && q.step == a.q.step
    requires a.first <= day <= a.last && SlotIn(q, day, x, y, t)
    ensures InDays(a, t) && Inside(a, t)
  {
    SlotIsInDays(a, q, day, x, y, t);
    SlotIsPossible(q, day, x, y, t);
    assert Reached(a.q.zone, a.first, a.last, Start(day, x, q.step, q.duration, t));
    BufferIsTied(a);
  }

  lemma {:induction false} ReachedIsAlike(a: Ask)
    requires Allowed(a) && ReachesAll(a.q.zone, a.first, a.last)
    ensures ReadsAlike(a)
  {
    BothAsked(a);
    forall t ensures IsSlot(WholeQuery(a), a.first, a.last, t) <==> IsSlot(ReadQuery(a), a.first, a.last, t) {
      if day, x, y :| a.first <= day <= a.last && SlotIn(WholeQuery(a), day, x, y, t) {
        SlotIsInside(a, WholeQuery(a), day, x, y, t);
        SlotInSame(a, day, x, y, t);
      }
      if day, x, y :| a.first <= day <= a.last && SlotIn(ReadQuery(a), day, x, y, t) {
        SlotIsInside(a, ReadQuery(a), day, x, y, t);
        SlotInSame(a, day, x, y, t);
      }
    }
  }

  // ---- One worker, one shift to the end of the day, one booking ----

  function Confirmed(start: int, end: int): Row {
    Row(0, B.Booking(0, 7, 0, start, end, B.Confirmed, None, false, 0, 0, None, None, 0, 0, []), None)
  }

  /** A request that can be offered `s` and no earlier start, with bookings buffered in full. */
  function Lone(z: Z.Zone, first: int, last: int, s: Start, own: Option<nat>, row: Row): Ask
    requires s.duration >= 0
  {
    var shift := S.Row(IsoWeekday(s.day), s.opens, LAST_MINUTE);
    var buffer := BufferFor(s.duration, own, 100);
    var q := Query([shift], map[], z, [], [], s.duration, buffer, 100, s.step, s.at);
    Ask(q, own, [row], [], 7, 0, None, first, last)
  }

  lemma {:induction false} WorksToTheEnd(q: Query, weekday: int, opens: int)
    requires q.rows == [S.Row(weekday, opens, LAST_MINUTE)] && q.opening == map[] && opens < LAST_MINUTE
    ensures Stretch(q, weekday, opens, LAST_MINUTE)
  {
    forall m ensures Available(q, weekday, m) <==> opens <= m < LAST_MINUTE {
      assert opens <= m < LAST_MINUTE ==> q.rows[0].start <= m < q.rows[0].end;
    }
  }

  lemma {:induction false} FreeIsASlot(q: Query, first: int, last: int, s: Start)
    requires Asked(q) && q.rows == [S.Row(IsoWeekday(s.day), s.opens, LAST_MINUTE)] && q.opening == map[]
    requires q.step == s.step && q.duration == s.duration
    requires first <= s.day <= last && Possible(q.zone, s) && Free(q, s.at)
    ensures IsSlot(q, first, last, s.at)
  {
    WorksToTheEnd(q, IsoWeekday(s.day), s.opens);
    assert SlotIn(q, s.day, s.opens, LAST_MINUTE, s.at);
  }

  lemma {:induction false} SomeMember(s: seq<Booked>)
    ensures s == [] || exists b :: b in s
  {
    if s != [] { assert s[0] in s; }
  }

  lemma {:induction false} BookingBlocks(q: Query, x: Booked, t: int)
    requires Bookable(q.booked) && x in q.booked && x.start <= x.end
    requires || Hits(WithBuffer(x, q.pct), t, t + q.duration * MINUTE)
             || Hits(Interval(x.start, x.end), t, t + (q.duration + q.buffer) * MINUTE)
    ensures !Free(q, t)
  {
    BufferedHas(q.booked, q.pct, x);
    assert WithBuffer(x, q.pct) in Blocked(q);
    MeetsIsSome(Blocked(q), t, t + q.duration * MINUTE);
    MeetsIsSome(Raw(q.booked), t, t + (q.duration + q.buffer) * MINUTE);
  }

  lemma {:induction false} LoneIsAllowed(z: Z.Zone, first: int, last: int, s: Start, own: Option<nat>, row: Row)
    requires Z.Regular(z) && Possible(z, s) && RowAllowed(row)
    requires own.Some? ==> own.value <= LONGEST_OWN_BUFFER
    ensures Allowed(Lone(z, first, last, s, own, row))
  {
    assert |S.InOrder(Lone(z, first, last, s, own, row).q.rows)| == 1;
  }

  /** The read offers the start and the whole tables do not. */
  ghost predicate ReadDiffers(a: Ask, t: int) {
    && Allowed(a) && Asked(WholeQuery(a)) && Asked(ReadQuery(a))
    && IsSlot(ReadQuery(a), a.first, a.last, t) && !IsSlot(WholeQuery(a), a.first, a.last, t)
  }

  /** A booking that is not read and would have blocked the start makes the two queries differ. */
  lemma {:induction false} UnreadDiffers(z: Z.Zone, first: int, last: int, s: Start, own: Option<nat>, row: Row)
    requires Z.Regular(z) && Possible(z, s) && first <= s.day <= last && RowAllowed(row)
    requires own.Some? ==> own.value <= LONGEST_OWN_BUFFER
    requires Occupies(row, 7, 0, None) && !NearBooking(row, Instant(z, first - 1, 0), Instant(z, last + 2, 0))
    requires
      || Hits(WithBuffer(AsBooked(row), 100), s.at, s.at + s.duration * MINUTE)
      || Hits(Interval(row.booking.startsAt, row.booking.endsAt),
              s.at, s.at + (s.duration + BufferFor(s.duration, own, 100)) * MINUTE)
    ensures ReadDiffers(Lone(z, first, last, s, own, row), s.at)
  {
    var a := Lone(z, first, last, s, own, row);
    LoneIsAllowed(z, first, last, s, own, row);
    BothAsked(a);
    var w, r := WholeQuery(a), ReadQuery(a);
    SomeMember(r.booked);
    assert r.booked == [] && r.timeOff == [];
    assert Blocked(r) == [] && Raw(r.booked) == [];
    FreeIsASlot(r, first, last, s);
    assert row in a.rows && AsBooked(row) in w.booked;
    BookingBlocks(w, AsBooked(row), s.at);
  }

  // ---- A start that the window does not reach ----

  /** A twelve-hour booking that ends as the window starts, with twelve hours of buffer. */
  function BeforeTheWindow(z: Z.Zone, first: int): Row {
    var end := Instant(z, first - 1, 0);
    Confirmed(end - 12 * HOUR, end)
  }

  function BeforeAsk(z: Z.Zone, first: int, last: int, s: Start): Ask
    requires s.duration >= 0
  {
    Lone(z, first, last, s, Some(0), BeforeTheWindow(z, first))
  }

  lemma {:induction false} TooEarlyDiffers(z: Z.Zone, first: int, last: int, s: Start)
    requires Z.Regular(z) && Possible(z, s) && first <= s.day <= last
    requires s.at < Instant(z, first - 1, 0) + 12 * HOUR
    ensures ReadDiffers(BeforeAsk(z, first, last, s), s.at)
  {
    var row := BeforeTheWindow(z, first);
    LaterIsLater(z, first - 1, 0, s.day, s.opens);
    assert (row.booking.endsAt - row.booking.startsAt) / MINUTE == 720;
    assert WithBuffer(AsBooked(row), 100).end == row.booking.endsAt + 12 * HOUR;
    UnreadDiffers(z, first, last, s, Some(0), row);
  }

  /** A booking that starts as the window ends. */
  function AfterTheWindow(z: Z.Zone, last: int): Row {
    var start := Instant(z, last + 2, 0);
    Confirmed(start, start + HOUR)
  }

  /** The buffer is the service's own four hours, or for a longer service as long as it is. */
  function AfterAsk(z: Z.Zone, first: int, last: int, s: Start): Ask
    requires s.duration >= 0
  {
    Lone(z, first, last, s, if s.duration <= LONGEST_OWN_BUFFER then Some(LONGEST_OWN_BUFFER) else None,
         AfterTheWindow(z, last))
  }

  lemma {:induction false} TooLateDiffers(z: Z.Zone, first: int, last: int, s: Start)
    requires Z.Regular(z) && Possible(z, s) && first <= s.day <= last
    requires s.at + (s.duration + LongestBuffer(s.duration)) * MINUTE > Instant(z, last + 2, 0)
    ensures ReadDiffers(AfterAsk(z, first, last, s), s.at)
  {
    var own := if s.duration <= LONGEST_OWN_BUFFER then Some(LONGEST_OWN_BUFFER) else None;
    assert BufferFor(s.duration, own, 100) == LongestBuffer(s.duration);
    LaterIsLater(z, s.day, LAST_MINUTE, last + 2, 0);
    UnreadDiffers(z, first, last, s, own, AfterTheWindow(z, last));
  }

  /**
   Every request the tables and the settings allow is answered from the bounded reads as from the
   whole tables, exactly when the window reaches every start its days allow.
   */
  lemma {:induction false} ReadsAlikeExactly(z: Z.Zone, first: int, last: int)
    requires Z.Regular(z)
    ensures
      (forall a: Ask :: Allowed(a) && a.q.zone == z && a.first == first && a.last == last ==> ReadsAlike(a))
      <==> ReachesAll(z, first, last)
  {
    if ReachesAll(z, first, last) {
      forall a: Ask | Allowed(a) && a.q.zone == z && a.first == first && a.last == last ensures ReadsAlike(a) {
        ReachedIsAlike(a);
      }
    } else {
      var s: Start :| first <= s.day <= last && Possible(z, s) && !Reached(z, first, last, s);
      if s.at < Instant(z, first - 1, 0) + 12 * HOUR {
        TooEarlyDiffers(z, first, last, s);
        assert !ReadsAlike(BeforeAsk(z, first, last, s));
      } else {
        TooLateDiffers(z, first, last, s);
        assert !ReadsAlike(AfterAsk(z, first, last, s));
      }
    }
  }

  // ---- In closed form, for a last day without a change ----

  /** The clock runs on through the day. */
  ghost predicate Steady(z: Z.Zone, day: int) {
    forall m :: 0 <= m <= LAST_MINUTE ==> Instant(z, day, m) == Instant(z, day, 0) + m * MINUTE
  }

  /** Its midnight is not skipped, and no change comes before 23:59. */
  predicate NoChange(z: Z.Zone, day: int) {
    var midnight := Instant(z, day, 0);
    && Z.Local(z, midnight) == Wall(day, 0)
    && forall i :: 0 <= i < |z.changes| ==>
         z.changes[i].at <= midnight || z.changes[i].at > midnight + LAST_MINUTE * MINUTE
  }

  lemma {:induction false} NoChangeIsSteady(z: Z.Zone, day: int)
    requires Z.Regular(z) && NoChange(z, day)
    ensures Steady(z, day)
  {
    var midnight := Instant(z, day, 0);
    var k := Z.Passed(z, midnight);
    forall m | 0 <= m <= LAST_MINUTE ensures Instant(z, day, m) == midnight + m * MINUTE {
      Z.LeastFromIsLeast(z, Wall(day, 0), 0);
      forall v | midnight <= v <= midnight + m * MINUTE ensures Z.Local(z, v) == Wall(day, 0) + (v - midnight) {
        forall i | k <= i < |z.changes| ensures z.changes[i].at > v {
          assert z.changes[i].at > midnight;
        }
        Z.PassedIs(z, v, k);
      }
      assert Z.IsLeast(z, Wall(day, m), midnight + m * MINUTE);
      Z.LeastIsUnique(z, Wall(day, m), midnight + m * MINUTE);
    }
  }

  /** The day has room for the shortest service. */
  ghost predicate HoldsASlot(z: Z.Zone, day: int) {
    Instant(z, day, LAST_MINUTE) - Instant(z, day, 0) >= SHORTEST_SERVICE * MINUTE
  }

  /** The whole day before the first is at least twelve hours, and the time from 23:59 of the last to
   the window's end at least one minute less. */
  ghost predicate Reaches(z: Z.Zone, first: int, last: int) {
    LongDay(z, first - 1) && Instant(z, last + 2, 0) - Instant(z, last, LAST_MINUTE) >= 719 * MINUTE
  }

  /** The `k`-th stride from a multiple of the step. */
  lemma {:induction false} StridesFromMultiple(step: int, n: int, k: int)
    ensures n * step * MINUTE + Times(k, step * MINUTE) == (n + k) * step * MINUTE
  {
    assert k * (step * MINUTE) == k * step * MINUTE;
    assert (n + k) * step == n * step + k * step;
  }

  /** On a steady day the clock shows a multiple of the step at every start. */
  lemma {:induction false} OnTheStep(z: Z.Zone, s: Start) returns (n: int)
    requires Steady(z, s.day) && Possible(z, s)
    ensures s.at == Instant(z, s.day, 0) + n * s.step * MINUTE
  {
    var m := -((-s.opens) / s.step);
    var anchor := Anchor(s.opens, s.step).value;
    AnchorRoundsUp(s.opens, s.step);
    assert anchor == m * s.step && 0 <= anchor <= LAST_MINUTE;
    var k :| s.at == Instant(z, s.day, anchor) + Times(k, s.step * MINUTE);
    StridesFromMultiple(s.step, m, k);
    n := m + k;
  }

  lemma {:induction false} Fives(step: int, n: int)
    requires step in {5, 10, 15, 20, 30, 60}
    ensures n * step == 5 * (n * (step / 5))
  {
    var c := step / 5;
    assert step == 5 * c;
    assert c == 1 || c == 2 || c == 3 || c == 4 || c == 6 || c == 12;
  }

  lemma {:induction false} LastDayReached(z: Z.Zone, first: int, last: int, s: Start)
    requires Z.Regular(z) && Steady(z, last) && Reaches(z, first, last) && s.day == last && Possible(z, s)
    ensures s.at + (s.duration + LongestBuffer(s.duration)) * MINUTE <= Instant(z, last + 2, 0)
  {
    var n := OnTheStep(z, s);
    Fives(s.step, n);
    var j := n * (s.step / 5);
    assert Instant(z, last, LAST_MINUTE) == Instant(z, last, 0) + LAST_MINUTE * MINUTE;
    assert 5 * j + s.duration <= LAST_MINUTE;
    assert 5 * j + s.duration + LongestBuffer(s.duration) <= LAST_MINUTE + 719;
  }

  lemma {:induction false} EarlierDayReached(z: Z.Zone, first: int, last: int, s: Start)
    requires Z.Regular(z) && Steady(z, last) && Reaches(z, first, last) && s.day < last && Possible(z, s)
    ensures s.at + (s.duration + LongestBuffer(s.duration)) * MINUTE <= Instant(z, last + 2, 0)
  {
    LaterIsLater(z, s.day, LAST_MINUTE, last, 0);
    assert Instant(z, last, LAST_MINUTE) == Instant(z, last, 0) + LAST_MINUTE * MINUTE;
  }

  /** A service of 719 minutes from noon: its end and its buffer are as late as any. */
  function FromNoon(z: Z.Zone, last: int): Start {
    Start(last, 0, 5, 719, Instant(z, last, 720))
  }

  lemma {:induction false} FromNoonIsPossible(z: Z.Zone, last: int)
    requires Steady(z, last)
    ensures Possible(z, FromNoon(z, last))
  {
    assert Anchor(0, 5) == Some(0);
    assert Instant(z, last, 720) == Instant(z, last, 0) + Times(144, 5 * MINUTE);
    assert Instant(z, last, LAST_MINUTE) == Instant(z, last, 0) + LAST_MINUTE * MINUTE;
  }

  function AtMidnight(z: Z.Zone, day: int): Start {
    Start(day, 0, 5, SHORTEST_SERVICE, Instant(z, day, 0))
  }

  lemma {:induction false} AtMidnightIsPossible(z: Z.Zone, day: int)
    requires HoldsASlot(z, day)
    ensures Possible(z, AtMidnight(z, day))
  {
    assert Anchor(0, 5) == Some(0);
    assert Instant(z, day, 0) == Instant(z, day, 0) + Times(0, 5 * MINUTE);
  }

  lemma {:induction false} ReachesAllNeeds(z: Z.Zone, first: int, last: int)
    requires Z.Regular(z) && first <= last && HoldsASlot(z, first) && Steady(z, last)
    requires ReachesAll(z, first, last)
    ensures Reaches(z, first, last)
  {
    AtMidnightIsPossible(z, first);
    assert Reached(z, first, last, AtMidnight(z, first));
    FromNoonIsPossible(z, last);
    assert Reached(z, first, last, FromNoon(z, last));
    assert Instant(z, last, LAST_MINUTE) == Instant(z, last, 0) + LAST_MINUTE * MINUTE;
    assert Instant(z, last, 720) == Instant(z, last, 0) + 720 * MINUTE;
  }

  lemma {:induction false} ReachesIsEnough(z: Z.Zone, first: int, last: int, s: Start)
    requires Z.Regular(z) && Steady(z, last) && Reaches(z, first, last)
    requires first <= s.day <= last && Possible(z, s)
    ensures Reached(z, first, last, s)
  {
    LaterIsLater(z, first, 0, s.day, s.opens);
    if s.day < last { EarlierDayReached(z, first, last, s); } else { LastDayReached(z, first, last, s); }
  }

  /** So a slot of a day without a change is on the step of the business's clock, and every minute of it is
   worked and open. */
  lemma {:induction false} ASlotOnASteadyDay(q: Query, day: int, x: int, y: int, t: int) returns (n: int)
    requires Asked(q) && q.step in {5, 10, 15, 20, 30, 60} && SHORTEST_SERVICE <= q.duration <= LONGEST_SERVICE
    requires Steady(q.zone, day) && SlotIn(q, day, x, y, t)
    ensures t == Instant(q.zone, day, 0) + n * q.step * MINUTE && x <= n * q.step && n * q.step + q.duration <= y
    ensures forall m :: n * q.step <= m < n * q.step + q.duration ==> Available(q, IsoWeekday(day), m)
  {
    SlotIsPossible(q, day, x, y, t);
    StretchInDay(q, IsoWeekday(day), x, y);
    n := OnTheStep(q.zone, Start(day, x, q.step, q.duration, t));
  }

  /** What the window must reach, for a last day that the clock runs through. */
  lemma {:induction false} ReachesAllExactly(z: Z.Zone, first: int, last: int)
    requires Z.Regular(z) && first <= last && HoldsASlot(z, first) && Steady(z, last)
    ensures ReachesAll(z, first, last) <==> Reaches(z, first, last)
  {
    if ReachesAll(z, first, last) { ReachesAllNeeds(z, first, last); }
    if Reaches(z, first, last) {
      forall s: Start | first <= s.day <= last && Possible(z, s) ensures Reached(z, first, last, s) {
        ReachesIsEnough(z, first, last, s);
      }
    }
  }

  // ---- A real zone ----

  // Local day 10 is skipped, as 30 December 2011 was in Samoa.
  const SKIPPING := Z.Zone(0, [Z.Change(10 * DAY, DAY)])

  lemma {:induction false} AfterTheSkip(day: int, minute: int)
    requires day >= 10 && 0 <= minute < 24 * 60
    ensures Instant(SKIPPING, day, minute) == Max((day - 1) * DAY + minute * MINUTE, 10 * DAY)
  {
    var wall := Wall(day, minute);
    assert wall == (day - 1) * DAY + minute * MINUTE + DAY;
    assert Z.LeastFrom(SKIPPING, wall, 1) == Max(wall - DAY, 10 * DAY);
  }

  /** On the day after the skipped one a start is offered that the buffer of a booking still blocks. */
  lemma {:induction false} ASkippedDayLosesABuffer()
    ensures ReadDiffers(BeforeAsk(SKIPPING, 11, 11, Start(11, 0, 5, 5, 10 * DAY)), 10 * DAY)
  {
    AfterTheSkip(10, 0);
    AfterTheSkip(11, 0);
    AfterTheSkip(11, LAST_MINUTE);
    AtMidnightIsPossible(SKIPPING, 11);
    TooEarlyDiffers(SKIPPING, 11, 11, AtMidnight(SKIPPING, 11));
  }

  /** On the day before it an hour is offered at 22:55, though the buffer it needs runs into a booking. */
  lemma {:induction false} ASkippedDayLosesATail()
    ensures
      var s := Start(9, 0, 5, 60, 9 * DAY + 1375 * MINUTE);
      ReadDiffers(Lone(SKIPPING, 9, 9, s, None, AfterTheWindow(SKIPPING, 9)), s.at)
  {
    var s := Start(9, 0, 5, 60, 9 * DAY + 1375 * MINUTE);
    AfterTheSkip(11, 0);
    assert Instant(SKIPPING, 9, 0) == 9 * DAY && Instant(SKIPPING, 9, LAST_MINUTE) == 9 * DAY + LAST_MINUTE * MINUTE;
    assert Anchor(0, 5) == Some(0);
    assert s.at == Instant(SKIPPING, 9, 0) + Times(275, 5 * MINUTE);
    UnreadDiffers(SKIPPING, 9, 9, s, None, AfterTheWindow(SKIPPING, 9));
  }
}
