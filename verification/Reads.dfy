/**
 The bounded reads behind the slot engine: only rows near the window are read, and nothing that
 could block a slot is lost.
 */
module Reads {
  import opened Prelude
  import opened Intervals
  import B = Bookings
  import S = Schedule
  import Z = Zone
  import opened Slots

  /** A booking joined with its service's own buffer. */
  datatype Row = Row(id: nat, booking: B.Booking, buffer: Option<nat>)

  /** Time off is a stretch of instants or a run of whole local days. */
  datatype Off = Clock(start: int, end: int) | Days(first: int, last: int)

  const LONGEST_BOOKING := 12 * HOUR
  const LONGEST_BUFFER := 720
  const LONGEST_OFF_DAYS := 366

  // What a service may ask for, in minutes.
  const SHORTEST_SERVICE := 5
  const LONGEST_SERVICE := 720
  const LONGEST_OWN_BUFFER := 240

  function AsBooked(r: Row): Booked {
    Booked(r.booking.startsAt, r.booking.endsAt, r.buffer)
  }

  /** The row holds this worker's time now, and is not the booking being moved. */
  predicate Occupies(r: Row, worker: nat, now: int, exclude: Option<nat>) {
    && r.booking.worker == worker
    && B.Occupying(r.booking.status)
    && (!B.Expiring(r.booking.status) || B.Holds(r.booking, now))
    && exclude != Some(r.id)
  }

  /** BOOKED's bounds: meets the window, and started less than a day before it. */
  predicate NearBooking(r: Row, start: int, end: int) {
    r.booking.startsAt < end && r.booking.endsAt > start && r.booking.startsAt > start - DAY
  }

  function Chosen(rows: seq<Row>, keep: Row -> bool): (s: seq<Booked>)
    ensures forall b :: b in s <==> exists r :: r in rows && keep(r) && b == AsBooked(r)
  {
    if rows == [] then []
    else
      assert rows == [rows[0]] + rows[1..];
      (if keep(rows[0]) then [AsBooked(rows[0])] else []) + Chosen(rows[1..], keep)
  }

  function DaySpan(z: Z.Zone, first: int, last: int): Interval {
    Interval(Instant(z, first, 0), Instant(z, last + 1, 0))
  }

  function AsBlock(z: Z.Zone, off: Off): Interval {
    match off
    case Clock(start, end) => Interval(start, end)
    case Days(first, last) => DaySpan(z, first, last)
  }

  /** TIME_OFF's bounds: meets the window or the days, and began at most 366 days before. */
  predicate NearOff(off: Off, first: int, last: int, start: int, end: int) {
    match off
    case Clock(s, e) => s < end && e > start && s > start - LONGEST_OFF_DAYS * DAY
    case Days(f, l) => f <= last && l >= first && f > first - LONGEST_OFF_DAYS
  }

  function Blocks(z: Z.Zone, offs: seq<Off>, keep: Off -> bool): (s: seq<Interval>)
    ensures forall i :: i in s <==> exists o :: o in offs && keep(o) && i == AsBlock(z, o)
  {
    if offs == [] then []
    else
      assert offs == [offs[0]] + offs[1..];
      (if keep(offs[0]) then [AsBlock(z, offs[0])] else []) + Blocks(z, offs[1..], keep)
  }

  // ---- What the table's constraints allow ----

  predicate RowAllowed(r: Row) {
    && r.booking.startsAt < r.booking.endsAt <= r.booking.startsAt + LONGEST_BOOKING
    && (r.buffer.Some? ==> r.buffer.value <= LONGEST_OWN_BUFFER)
  }

  predicate OffAllowed(o: Off) {
    match o
    case Clock(s, e) => s < e <= s + LONGEST_OFF_DAYS * DAY
    case Days(f, l) => f <= l && l - f < LONGEST_OFF_DAYS
  }

  /** A local day lasts at least twelve hours. */
  ghost predicate LongDay(z: Z.Zone, day: int) {
    Instant(z, day + 1, 0) - Instant(z, day, 0) >= 12 * HOUR
  }

  // The latest a shift may end: local times stop at 23:59.
  const LAST_MINUTE := 24 * 60 - 1

  /** The window reaches twelve hours past the days on either side: the whole day before the first,
   and the day after the last with the minute no shift reaches. */
  ghost predicate Padded(z: Z.Zone, first: int, last: int) {
    LongDay(z, first - 1) && Instant(z, last + 2, 0) - Instant(z, last, LAST_MINUTE) >= 12 * HOUR
  }

  lemma {:induction false} LongDaysArePadded(z: Z.Zone, first: int, last: int)
    requires Z.Regular(z) && LongDay(z, first - 1) && LongDay(z, last + 1)
    ensures Padded(z, first, last)
  {
    LaterIsLater(z, last, LAST_MINUTE, last + 1, 0);
  }

  /** The request, over what the tables hold. `own` is the asked service's buffer, if it has one. */
  datatype Ask = Ask(
    q: Query, own: Option<nat>, rows: seq<Row>, offs: seq<Off>, worker: nat, now: int, exclude: Option<nat>,
    first: int, last: int)

  predicate Allowed(a: Ask) {
    && (forall r :: r in a.rows ==> RowAllowed(r))
    && (forall o :: o in a.offs ==> OffAllowed(o))
    && Z.Regular(a.q.zone) && S.Forward(a.q.rows) && !S.Overlapping(a.q.rows) && InDay(a.q.rows)
    && (forall d :: d in a.q.opening ==> S.Tidy(a.q.opening[d]))
    && SHORTEST_SERVICE <= a.q.duration <= LONGEST_SERVICE && a.q.step in {5, 10, 15, 20, 30, 60} && a.q.pct <= 100
    && (a.own.Some? ==> a.own.value <= LONGEST_OWN_BUFFER)
    && a.q.buffer == BufferFor(a.q.duration, a.own, a.q.pct)
  }

  /** A buffer is at most four hours, or as long as the service. */
  lemma {:induction false} BufferIsTied(a: Ask)
    requires Allowed(a)
    ensures 0 <= a.q.buffer <= Max(LONGEST_OWN_BUFFER, a.q.duration)
  {
    if a.own.None? { ShareIsAtMost(a.q.duration, a.q.pct); }
  }

  lemma {:induction false} ShareIsAtMost(duration: nat, pct: nat)
    requires pct <= 100
    ensures BufferFor(duration, None, pct) <= duration
  {
    ProductAtMost(duration, pct, duration, 100);
  }

  function WindowStart(a: Ask): int {
    Instant(a.q.zone, a.first - 1, 0)
  }

  function WindowEnd(a: Ask): int {
    Instant(a.q.zone, a.last + 2, 0)
  }

  /** The slots computed from everything that holds the worker's time. */
  function WholeQuery(a: Ask): Query {
    a.q.(booked := Chosen(a.rows, r => Occupies(r, a.worker, a.now, a.exclude)),
         timeOff := Blocks(a.q.zone, a.offs, o => true))
  }

  /** The slots computed from what the two statements return. */
  function ReadQuery(a: Ask): Query {
    a.q.(booked := Chosen(a.rows, r => Occupies(r, a.worker, a.now, a.exclude)
                                       && NearBooking(r, WindowStart(a), WindowEnd(a))),
         timeOff := Blocks(a.q.zone, a.offs, o => NearOff(o, a.first, a.last, WindowStart(a), WindowEnd(a))))
  }

  lemma {:induction false} BothAsked(a: Ask)
    requires Allowed(a)
    ensures Asked(WholeQuery(a)) && Asked(ReadQuery(a))
  {
    ChosenBookable(a.rows, WholeQuery(a).booked);
    ChosenBookable(a.rows, ReadQuery(a).booked);
    BlocksProper(a, WholeQuery(a).timeOff);
    BlocksProper(a, ReadQuery(a).timeOff);
  }

  lemma {:induction false} ChosenBookable(rows: seq<Row>, booked: seq<Booked>)
    requires forall r :: r in rows ==> RowAllowed(r)
    requires forall b :: b in booked ==> exists r :: r in rows && b == AsBooked(r)
    ensures Bookable(booked)
  {
    forall i | 0 <= i < |booked| ensures booked[i].start <= booked[i].end {
      assert booked[i] in booked;
    }
  }

  lemma {:induction false} BlocksProper(a: Ask, blocks: seq<Interval>)
    requires Allowed(a)
    requires forall i :: i in blocks ==> exists o :: o in a.offs && i == AsBlock(a.q.zone, o)
    ensures Proper(blocks)
  {
    forall i | 0 <= i < |blocks| ensures blocks[i].start <= blocks[i].end {
      assert blocks[i] in blocks;
      var o :| o in a.offs && blocks[i] == AsBlock(a.q.zone, o);
      if o.Days? { LaterIsLater(a.q.zone, o.first, 0, o.last + 1, 0); }
    }
  }

  // ---- A row that is not read blocks nothing ----

  lemma {:induction false} BufferIsShort(r: Row, pct: nat)
    requires RowAllowed(r) && pct <= 100
    ensures r.booking.endsAt <= WithBuffer(AsBooked(r), pct).end <= r.booking.endsAt + LONGEST_BUFFER * MINUTE
  {
    var minutes := (r.booking.endsAt - r.booking.startsAt) / MINUTE;
    assert 0 <= minutes <= 720;
    if r.buffer.None? {
      var buffer := BufferFor(minutes, r.buffer, pct);
      assert minutes * pct <= 720 * 100 by { ProductAtMost(minutes, pct, 720, 100); }
      assert buffer <= 720;
    }
  }

  lemma {:induction false} ProductAtMost(a: int, b: int, c: int, d: int)
    requires 0 <= a <= c && 0 <= b <= d
    ensures a * b <= c * d
  {
    assert a * b <= c * b;
    assert c * b <= c * d;
  }

  /** `t` is where a slot of these days could be. */
  ghost predicate InDays(a: Ask, t: int) {
    Instant(a.q.zone, a.first, 0) <= t && t + a.q.duration * MINUTE <= Instant(a.q.zone, a.last, LAST_MINUTE)
  }

  /** From the twelfth hour of the window on, and with the whole tail before its end. */
  ghost predicate Inside(a: Ask, t: int) {
    WindowStart(a) + 12 * HOUR <= t && t + (a.q.duration + a.q.buffer) * MINUTE <= WindowEnd(a)
  }

  lemma {:induction false} PaddedIsInside(a: Ask, t: int)
    requires Allowed(a) && InDays(a, t) && Padded(a.q.zone, a.first, a.last)
    ensures Inside(a, t)
  {
    BufferIsTied(a);
  }

  lemma {:induction false} UnreadBookingIsClear(a: Ask, r: Row, t: int)
    requires Allowed(a) && r in a.rows && Inside(a, t)
    requires !NearBooking(r, WindowStart(a), WindowEnd(a))
    ensures !Hits(WithBuffer(AsBooked(r), a.q.pct), t, t + a.q.duration * MINUTE)
    ensures !Hits(Interval(r.booking.startsAt, r.booking.endsAt), t, t + (a.q.duration + a.q.buffer) * MINUTE)
  {
    BufferIsShort(r, a.q.pct);
  }

  lemma {:induction false} UnreadOffIsClear(a: Ask, o: Off, t: int)
    requires Allowed(a) && o in a.offs && InDays(a, t)
    requires !NearOff(o, a.first, a.last, WindowStart(a), WindowEnd(a))
    ensures !Hits(AsBlock(a.q.zone, o), t, t + a.q.duration * MINUTE)
  {
    LaterIsLater(a.q.zone, a.first - 1, 0, a.first, 0);
    LaterIsLater(a.q.zone, a.last, LAST_MINUTE, a.last + 1, 0);
    LaterIsLater(a.q.zone, a.last + 1, 0, a.last + 2, 0);
    match o
    case Clock(_, _) =>
    case Days(f, l) =>
      if f > a.last {
        LaterIsLater(a.q.zone, a.last + 1, 0, f, 0);
      } else {
        LaterIsLater(a.q.zone, l + 1, 0, a.first, 0);
      }
  }

  ghost predicate SomeHits(s: seq<Interval>, start: int, end: int) {
    exists i :: i in s && Hits(i, start, end)
  }

  lemma {:induction false} MeetsIsSome(s: seq<Interval>, start: int, end: int)
    ensures Meets(s, start, end) <==> SomeHits(s, start, end)
  {
    if i :| 0 <= i < |s| && Hits(s[i], start, end) { assert s[i] in s; }
  }

  lemma {:induction false} BlockedSame(a: Ask, t: int)
    requires Allowed(a) && InDays(a, t) && Inside(a, t)
    requires Asked(WholeQuery(a)) && Asked(ReadQuery(a))
    ensures
      var end := t + a.q.duration * MINUTE;
      Meets(Blocked(WholeQuery(a)), t, end) <==> Meets(Blocked(ReadQuery(a)), t, end)
  {
    var end := t + a.q.duration * MINUTE;
    var w, r := WholeQuery(a), ReadQuery(a);
    MeetsIsSome(Blocked(w), t, end);
    MeetsIsSome(Blocked(r), t, end);
    if i :| i in Blocked(w) && Hits(i, t, end) {
      if i in w.timeOff {
        var o :| o in a.offs && i == AsBlock(a.q.zone, o);
        if !NearOff(o, a.first, a.last, WindowStart(a), WindowEnd(a)) { UnreadOffIsClear(a, o, t); }
        assert i in r.timeOff && i in Blocked(r);
      } else {
        var k :| 0 <= k < |w.booked| && i == WithBuffer(w.booked[k], a.q.pct);
        assert w.booked[k] in w.booked;
        var row :| row in a.rows && Occupies(row, a.worker, a.now, a.exclude) && w.booked[k] == AsBooked(row);
        if !NearBooking(row, WindowStart(a), WindowEnd(a)) { UnreadBookingIsClear(a, row, t); }
        assert AsBooked(row) in r.booked;
        BufferedHas(r.booked, a.q.pct, AsBooked(row));
        assert i in Blocked(r);
      }
    }
    if i :| i in Blocked(r) && Hits(i, t, end) {
      if i in r.timeOff {
        assert i in w.timeOff && i in Blocked(w);
      } else {
        var k :| 0 <= k < |r.booked| && i == WithBuffer(r.booked[k], a.q.pct);
        assert r.booked[k] in r.booked && r.booked[k] in w.booked;
        BufferedHas(w.booked, a.q.pct, r.booked[k]);
        assert i in Blocked(w);
      }
    }
  }

  function Blocked(q: Query): seq<Interval>
    requires Bookable(q.booked)
  {
    q.timeOff + Buffered(q.booked, q.pct)
  }

  lemma {:induction false} BufferedHas(booked: seq<Booked>, pct: nat, b: Booked)
    requires Bookable(booked) && b in booked
    ensures b.start <= b.end && WithBuffer(b, pct) in Buffered(booked, pct)
    ensures Interval(b.start, b.end) in Raw(booked)
  {
    var k :| 0 <= k < |booked| && booked[k] == b;
    assert Buffered(booked, pct)[k] == WithBuffer(b, pct);
    assert Raw(booked)[k] == Interval(b.start, b.end);
  }

  lemma {:induction false} BookedSame(a: Ask, t: int)
    requires Allowed(a) && InDays(a, t) && Inside(a, t)
    requires Asked(WholeQuery(a)) && Asked(ReadQuery(a))
    ensures
      var end := t + (a.q.duration + a.q.buffer) * MINUTE;
      Meets(Raw(WholeQuery(a).booked), t, end) <==> Meets(Raw(ReadQuery(a).booked), t, end)
  {
    var end := t + (a.q.duration + a.q.buffer) * MINUTE;
    var w, r := WholeQuery(a), ReadQuery(a);
    if k :| 0 <= k < |Raw(w.booked)| && Hits(Raw(w.booked)[k], t, end) {
      assert w.booked[k] in w.booked;
      var row :| row in a.rows && Occupies(row, a.worker, a.now, a.exclude) && w.booked[k] == AsBooked(row);
      if !NearBooking(row, WindowStart(a), WindowEnd(a)) { UnreadBookingIsClear(a, row, t); }
      assert AsBooked(row) in r.booked;
      BufferedHas(r.booked, a.q.pct, AsBooked(row));
      MeetsIsSome(Raw(r.booked), t, end);
    }
    if k :| 0 <= k < |Raw(r.booked)| && Hits(Raw(r.booked)[k], t, end) {
      assert r.booked[k] in r.booked && r.booked[k] in w.booked;
      BufferedHas(w.booked, a.q.pct, r.booked[k]);
      MeetsIsSome(Raw(w.booked), t, end);
    }
  }

  lemma {:induction false} StretchSame(q: Query, p: Query, weekday: int, a: int, b: int)
    requires q.rows == p.rows && q.opening == p.opening
    ensures Stretch(q, weekday, a, b) <==> Stretch(p, weekday, a, b)
  {
    assert forall m :: Available(q, weekday, m) <==> Available(p, weekday, m);
  }

  /** A slot of a day is a time the reads answer for. */
  lemma {:induction false} SlotIsInDays(a: Ask, q: Query, day: int, x: int, y: int, t: int)
    requires Allowed(a) && Asked(q) && q.zone == a.q.zone && q.duration == a.q.duration
    requires a.first <= day <= a.last && SlotIn(q, day, x, y, t)
    ensures InDays(a, t)
  {
    StretchInDay(q, IsoWeekday(day), x, y);
    LaterIsLater(a.q.zone, a.first, 0, day, x);
    LaterIsLater(a.q.zone, day, y, a.last, LAST_MINUTE);
  }

  lemma {:induction false} FreeSame(a: Ask, t: int)
    requires Allowed(a) && InDays(a, t) && Inside(a, t)
    requires Asked(WholeQuery(a)) && Asked(ReadQuery(a))
    ensures Free(WholeQuery(a), t) <==> Free(ReadQuery(a), t)
  {
    BlockedSame(a, t);
    BookedSame(a, t);
  }

  lemma {:induction false} SlotInSame(a: Ask, day: int, x: int, y: int, t: int)
    requires Allowed(a) && InDays(a, t) && Inside(a, t)
    requires Asked(WholeQuery(a)) && Asked(ReadQuery(a))
    ensures SlotIn(WholeQuery(a), day, x, y, t) <==> SlotIn(ReadQuery(a), day, x, y, t)
  {
    StretchSame(WholeQuery(a), ReadQuery(a), IsoWeekday(day), x, y);
    FreeSame(a, t);
  }

  /**
   The bounded reads lose nothing: the slots computed from the rows they return are the slots
   computed from the whole tables, as long as the window is padded by twelve hours on either side.
   */
  lemma {:induction false} ReadsLoseNothing(a: Ask, t: int)
    requires Allowed(a) && Padded(a.q.zone, a.first, a.last)
    ensures Asked(WholeQuery(a)) && Asked(ReadQuery(a))
    ensures IsSlot(WholeQuery(a), a.first, a.last, t) <==> IsSlot(ReadQuery(a), a.first, a.last, t)
  {
    BothAsked(a);
    if day, x, y :| a.first <= day <= a.last && SlotIn(WholeQuery(a), day, x, y, t) {
      SlotIsInDays(a, WholeQuery(a), day, x, y, t);
      PaddedIsInside(a, t);
      SlotInSame(a, day, x, y, t);
    }
    if day, x, y :| a.first <= day <= a.last && SlotIn(ReadQuery(a), day, x, y, t) {
      SlotIsInDays(a, ReadQuery(a), day, x, y, t);
      PaddedIsInside(a, t);
      SlotInSame(a, day, x, y, t);
    }
  }

  // ---- The slots depend on nothing but what is booked ----

  /** The two queries differ at most in the order and number of the same bookings. */
  ghost predicate SameBut(q: Query, p: Query) {
    p == q.(booked := p.booked) && forall b :: b in q.booked <==> b in p.booked
  }

  lemma {:induction false} SameBlocked(q: Query, p: Query, i: Interval)
    requires Bookable(q.booked) && Bookable(p.booked) && SameBut(q, p)
    ensures i in Blocked(p) ==> i in Blocked(q)
    ensures i in Raw(p.booked) ==> i in Raw(q.booked)
  {
    if i in Buffered(p.booked, p.pct) {
      var k :| 0 <= k < |p.booked| && i == WithBuffer(p.booked[k], p.pct);
      assert p.booked[k] in q.booked;
      BufferedHas(q.booked, q.pct, p.booked[k]);
    }
    if i in Raw(p.booked) {
      var k :| 0 <= k < |p.booked| && i == Raw(p.booked)[k];
      assert p.booked[k] in q.booked;
      BufferedHas(q.booked, q.pct, p.booked[k]);
    }
  }

  lemma {:induction false} SameBookedSameFree(q: Query, p: Query, t: int)
    requires Bookable(q.booked) && Bookable(p.booked) && SameBut(q, p) && Free(q, t)
    ensures Free(p, t)
  {
    var end, tail := t + q.duration * MINUTE, t + (q.duration + q.buffer) * MINUTE;
    forall i ensures i in Blocked(p) ==> i in Blocked(q) { SameBlocked(q, p, i); }
    forall i ensures i in Raw(p.booked) ==> i in Raw(q.booked) { SameBlocked(q, p, i); }
    MeetsIsSome(Blocked(p), t, end);
    MeetsIsSome(Blocked(q), t, end);
    MeetsIsSome(Raw(p.booked), t, tail);
    MeetsIsSome(Raw(q.booked), t, tail);
  }

  lemma {:induction false} SameBookedSameSlots(q: Query, p: Query, first: int, last: int, t: int)
    requires Asked(q) && Asked(p) && SameBut(q, p)
    ensures IsSlot(q, first, last, t) <==> IsSlot(p, first, last, t)
  {
    forall day, x, y ensures SlotIn(q, day, x, y, t) <==> SlotIn(p, day, x, y, t) {
      StretchSame(q, p, IsoWeekday(day), x, y);
      if Free(q, t) { SameBookedSameFree(q, p, t); }
      if Free(p, t) { SameBookedSameFree(p, q, t); }
    }
  }

  /** Whole days off, and the hours off, take every start they meet: none is offered on a day off. */
  lemma {:induction false} NothingIsOfferedInTimeOff(a: Ask, o: Off, t: int)
    requires Allowed(a) && o in a.offs && Asked(WholeQuery(a)) && IsSlot(WholeQuery(a), a.first, a.last, t)
    ensures
      match o
      case Clock(start, end) => !Together(start, end, t, t + a.q.duration * MINUTE)
      case Days(first, last) =>
        forall day :: first <= day <= last ==> !(Instant(a.q.zone, day, 0) <= t < Instant(a.q.zone, day + 1, 0))
  {
    FreeExactly(WholeQuery(a), t);
    var q := WholeQuery(a);
    assert AsBlock(a.q.zone, o) in q.timeOff;
    if o.Days? {
      forall day | o.first <= day <= o.last
        ensures !(Instant(a.q.zone, day, 0) <= t < Instant(a.q.zone, day + 1, 0))
      {
        LaterIsLater(a.q.zone, o.first, 0, day, 0);
        LaterIsLater(a.q.zone, day + 1, 0, o.last + 1, 0);
      }
    }
  }

  // ---- When a local day is long enough ----

  /** No change of more than twelve hours, and no two within twelve hours of each other. */
  predicate Calm(z: Z.Zone) {
    && (forall i :: 0 <= i < |z.changes| ==> Z.Shift(z, i) <= 12 * HOUR)
    && (forall i, j :: 0 <= i < j < |z.changes| ==> z.changes[j].at - z.changes[i].at >= 12 * HOUR)
  }

  /** Over twelve hours the clock gains at most twelve more. */
  lemma {:induction false} LocalGrowth(z: Z.Zone, x: int, v: int)
    requires Z.Regular(z) && Calm(z) && x <= v <= x + 12 * HOUR
    ensures Z.Local(z, v) <= Z.Local(z, x) + (v - x) + 12 * HOUR
  {
    var j, k := Z.Passed(z, x), Z.Passed(z, v);
    if j < k {
      assert z.changes[j].at > x && z.changes[k - 1].at <= v;
      assert k == j + 1;
      assert Z.Shift(z, j) <= 12 * HOUR;
    }
  }

  lemma {:induction false} ADayLater(z: Z.Zone, wall: int, u: int, v: int)
    requires Z.Regular(z) && Calm(z) && Z.IsLeast(z, wall, u) && Z.IsLeast(z, wall + 24 * HOUR, v)
    ensures v - u >= 12 * HOUR
  {
    assert Z.Local(z, u - 1) < wall;
    assert v < u ==> Z.Local(z, v) < wall;
    if v - (u - 1) <= 12 * HOUR {
      LocalGrowth(z, u - 1, v);
    }
  }

  lemma {:induction false} CalmDaysAreLong(z: Z.Zone, day: int)
    requires Z.Regular(z) && Calm(z)
    ensures LongDay(z, day)
  {
    var today := Wall(day, 0);
    assert Wall(day + 1, 0) == today + DAY;
    Z.LeastFromIsLeast(z, today, 0);
    Z.LeastFromIsLeast(z, today + DAY, 0);
    ADayLater(z, today, Z.LeastInstant(z, today), Z.LeastInstant(z, today + DAY));
  }
}
