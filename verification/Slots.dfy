/**
 The slot engine: one worker's bookable starts, as nested loops over days, shifts and the grid, and
 as the set of instants they must be.
 */
module Slots {
  import opened Prelude
  import opened Intervals
  import S = Schedule
  import Z = Zone

  /** One booking as the read returns it: its service's own buffer, if any. */
  datatype Booked = Booked(start: int, end: int, override: Option<nat>)

  /** How long a worker rests after a booking: what the service sets, or a share of its length. */
  function BufferFor(duration: int, override: Option<nat>, pct: nat): (r: int)
    requires duration >= 0
    ensures r >= 0
    ensures override == None ==> 100 * (r - 1) < duration * pct <= 100 * r
  {
    match override
    case Some(own) => own
    case None => -((-duration * pct) / 100)
  }

  /** Where a shift's grid begins, in minutes of the day; none when that is the next day. */
  function Anchor(start: int, step: int): (r: Option<int>)
    requires step > 0
  {
    var minutes := -((-start) / step) * step;
    if minutes < 24 * 60 then Some(minutes) else None
  }

  /** The anchor is the least multiple of the step at or after the shift's start, if that is before
   midnight. */
  lemma {:induction false} AnchorRoundsUp(start: int, step: int)
    requires step > 0
    ensures
      var k := -((-start) / step);
      && (k - 1) * step < start <= k * step
      && Anchor(start, step) == (if k * step < 24 * 60 then Some(k * step) else None)
  {
    var k := -((-start) / step);
    var q := (-start) / step;
    assert -start == q * step + (-start) % step;
    assert k * step == -(q * step) by { Negated(q, step); }
    assert (k - 1) * step == k * step - step;
  }

  lemma {:induction false} Negated(q: int, step: int)
    ensures (-q) * step == -(q * step)
  {
  }

  function Raw(booked: seq<Booked>): (r: seq<Interval>)
    ensures |r| == |booked|
    ensures forall i :: 0 <= i < |booked| ==> r[i] == Interval(booked[i].start, booked[i].end)
  {
    seq(|booked|, i requires 0 <= i < |booked| => Interval(booked[i].start, booked[i].end))
  }

  function WithBuffer(b: Booked, pct: nat): Interval
    requires b.start <= b.end
  {
    Interval(b.start, b.end + BufferFor((b.end - b.start) / MINUTE, b.override, pct) * MINUTE)
  }

  predicate Bookable(booked: seq<Booked>) {
    forall i :: 0 <= i < |booked| ==> booked[i].start <= booked[i].end
  }

  function Buffered(booked: seq<Booked>, pct: nat): (r: seq<Interval>)
    requires Bookable(booked)
    ensures |r| == |booked|
    ensures forall i :: 0 <= i < |booked| ==> r[i] == WithBuffer(booked[i], pct)
  {
    seq(|booked|, i requires 0 <= i < |booked| => WithBuffer(booked[i], pct))
  }

  /** Monday is 1; day 0 is 1 January 1970, a Thursday. */
  function IsoWeekday(day: int): (w: int)
    ensures 1 <= w <= 7
  {
    (day + 3) % 7 + 1
  }

  /** The days of the week follow one another from that Thursday on. */
  lemma {:induction false} WeekdaysFollow(day: int)
    ensures IsoWeekday(0) == 4
    ensures IsoWeekday(day + 1) == if IsoWeekday(day) == 7 then 1 else IsoWeekday(day) + 1
  {
  }

  function Wall(day: int, minute: int): int {
    day * DAY + minute * MINUTE
  }

  function Instant(z: Z.Zone, day: int, minute: int): int {
    Z.LeastInstant(z, Wall(day, minute))
  }

  /** What one call is asked: a worker's week and blocks, the opening week, and the service. */
  datatype Query = Query(
    rows: seq<S.Row>, opening: map<int, seq<Interval>>, zone: Z.Zone,
    timeOff: seq<Interval>, booked: seq<Booked>,
    duration: int, buffer: int, pct: nat, step: int, earliest: int)

  predicate InDay(rows: seq<S.Row>) {
    forall i :: 0 <= i < |rows| ==> 0 <= rows[i].start && rows[i].end < 24 * 60
  }

  /** What the database's constraints and the settings give every caller. */
  predicate Asked(q: Query) {
    && S.Forward(q.rows) && !S.Overlapping(q.rows) && InDay(q.rows)
    && (forall d :: d in q.opening ==> S.Tidy(q.opening[d]))
    && Z.Regular(q.zone) && Proper(q.timeOff) && Bookable(q.booked)
    && q.duration > 0 && q.buffer >= 0 && q.step > 0
  }

  // ---- The set of slots ----

  /** Minute `m` of the weekday is worked and open. */
  predicate Available(q: Query, weekday: int, m: int) {
    S.Works(q.rows, weekday, m) && S.OpenOn(q.opening, weekday, m)
  }

  /** [a, b) is a longest stretch of such minutes. */
  ghost predicate Stretch(q: Query, weekday: int, a: int, b: int) {
    && a < b && !Available(q, weekday, a - 1) && !Available(q, weekday, b)
    && forall m :: a <= m < b ==> Available(q, weekday, m)
  }

  function Times(k: int, stride: int): int {
    k * stride
  }

  /** A whole number of strides from `from`, before or after it. */
  ghost predicate OnGrid(t: int, from: int, stride: int) {
    exists k :: t == from + Times(k, stride)
  }

  /** Not before the earliest start, off every block with its buffer, and with its own tail off every
   booking. */
  predicate Free(q: Query, t: int)
    requires Bookable(q.booked)
  {
    && t >= q.earliest
    && !Meets(q.timeOff + Buffered(q.booked, q.pct), t, t + q.duration * MINUTE)
    && !Meets(Raw(q.booked), t, t + (q.duration + q.buffer) * MINUTE)
  }

  /** `t` is on the grid of the stretch [a, b) of `day`, wholly inside it, and free. */
  ghost predicate SlotOf(q: Query, day: int, a: int, b: int, t: int)
    requires Asked(q)
  {
    && Anchor(a, q.step) != None
    && OnGrid(t, Instant(q.zone, day, Anchor(a, q.step).value), q.step * MINUTE)
    && Instant(q.zone, day, a) <= t && t + q.duration * MINUTE <= Instant(q.zone, day, b)
    && Free(q, t)
  }

  ghost predicate SlotIn(q: Query, day: int, a: int, b: int, t: int)
    requires Asked(q)
  {
    Stretch(q, IsoWeekday(day), a, b) && SlotOf(q, day, a, b, t)
  }

  ghost predicate IsSlot(q: Query, first: int, last: int, t: int)
    requires Asked(q)
  {
    exists day, a, b :: first <= day <= last && SlotIn(q, day, a, b, t)
  }

  predicate Ascending(s: seq<int>) {
    forall i, j :: 0 <= i < j < |s| ==> s[i] < s[j]
  }

  // ---- One stretch: step back from the anchor, then walk to the end ----

  lemma {:induction false} NextStride(k: int, stride: int)
    ensures Times(k + 1, stride) == Times(k, stride) + stride
  {
  }

  lemma {:induction false} TimesGrows(j: int, k: int, stride: int)
    requires stride > 0 && j < k
    ensures Times(j, stride) <= Times(k, stride) - stride
    decreases k - j
  {
    NextStride(k - 1, stride);
    if j < k - 1 { TimesGrows(j, k - 1, stride); }
  }

  /** Between two neighbours on the grid there is nothing. */
  lemma {:induction false} NoneBetween(j: int, k: int, stride: int)
    requires stride > 0
    ensures j < k ==> Times(j, stride) <= Times(k, stride) - stride
    ensures j > k ==> Times(j, stride) >= Times(k, stride) + stride
  {
    if j < k { TimesGrows(j, k, stride); }
    if j > k { TimesGrows(k, j, stride); }
  }

  lemma {:induction false} GridBelow(t: int, x: int, from: int, k: int, stride: int)
    requires stride > 0 && OnGrid(x, from, stride) && t == from + Times(k, stride) && x < t + stride
    ensures x <= t
  {
    var j :| x == from + Times(j, stride);
    NoneBetween(j, k, stride);
  }

  lemma {:induction false} GridAbove(t: int, x: int, from: int, k: int, stride: int)
    requires stride > 0 && OnGrid(x, from, stride) && t == from + Times(k, stride) && t - stride < x
    ensures t <= x
  {
    var j :| x == from + Times(j, stride);
    NoneBetween(j, k, stride);
  }

  /** What the walk between two instants must find. */
  ghost predicate Found(q: Query, from: int, opens: int, closes: int, t: int)
    requires Bookable(q.booked)
  {
    OnGrid(t, from, q.step * MINUTE) && opens <= t && t + q.duration * MINUTE <= closes && Free(q, t)
  }

  /** The blocks a caller has merged: what they meet is what the unmerged ones meet. */
  ghost predicate MergedFrom(blocks: seq<Interval>, intervals: seq<Interval>) {
    Separated(blocks) && forall s, e :: s < e ==> (Meets(blocks, s, e) <==> Meets(intervals, s, e))
  }

  method WalkShift(q: Query, blocked: seq<Interval>, bookings: seq<Interval>, from: int, opens: int, closes: int)
    returns (out: seq<int>)
    requires Bookable(q.booked) && q.duration > 0 && q.buffer >= 0 && q.step > 0
    requires MergedFrom(blocked, q.timeOff + Buffered(q.booked, q.pct)) && MergedFrom(bookings, Raw(q.booked))
    requires opens <= from
    ensures Ascending(out)
    ensures forall t :: t in out <==> Found(q, from, opens, closes, t)
  {
    var length := q.duration * MINUTE;
    var tail := (q.duration + q.buffer) * MINUTE;
    var stride := q.step * MINUTE;
    var t := from;
    ghost var k := 0;
    while t - stride >= opens
      invariant opens <= t && t == from + Times(k, stride)
      decreases t - opens
    {
      NextStride(k - 1, stride);
      t, k := t - stride, k - 1;
    }
    out := [];
    forall x | Found(q, from, opens, closes, x) ensures x >= t { GridAbove(t, x, from, k, stride); }
    while t + length <= closes
      invariant opens <= t && t == from + Times(k, stride)
      invariant Ascending(out) && forall i :: 0 <= i < |out| ==> out[i] < t
      invariant forall x :: x in out <==> x < t && Found(q, from, opens, closes, x)
      decreases closes - t
    {
      var blockedHere := Overlaps(blocked, t, t + length);
      var bookedHere := Overlaps(bookings, t, t + tail);
      assert Free(q, t) <==> t >= q.earliest && !blockedHere && !bookedHere;
      assert OnGrid(t, from, stride);
      if t >= q.earliest && !blockedHere && !bookedHere {
        out := out + [t];
      }
      forall x | Found(q, from, opens, closes, x) && x < t + stride ensures x <= t { GridBelow(t, x, from, k, stride); }
      NextStride(k, stride);
      t, k := t + stride, k + 1;
    }
  }

  // ---- Whole days ----

  /** The minutes worked and open on one day, as shifts. */
  method ShiftsOn(q: Query, weekday: int) returns (shifts: seq<Interval>)
    requires Asked(q)
    ensures S.Tidy(shifts)
    ensures forall a, b :: Interval(a, b) in shifts <==> Stretch(q, weekday, a, b)
  {
    shifts := S.DayShifts(q.rows, weekday);
    if q.opening != map[] {
      S.ClipIsIntersection(shifts, S.OpeningOn(q.opening, weekday));
      shifts := S.Clip(shifts, S.OpeningOn(q.opening, weekday));
    }
    assert forall m :: Covers(shifts, m) <==> Available(q, weekday, m);
    forall a, b ensures Interval(a, b) in shifts <==> Stretch(q, weekday, a, b) {
      MembersAreRuns(shifts, a, b);
      assert Run(shifts, a, b) <==> Stretch(q, weekday, a, b);
    }
  }

  lemma {:induction false} StretchInDay(q: Query, weekday: int, a: int, b: int)
    requires Asked(q) && Stretch(q, weekday, a, b)
    ensures 0 <= a < b < 24 * 60
  {
    assert Available(q, weekday, a) && Available(q, weekday, b - 1);
  }

  /** A later local time is never an earlier instant, within a day and from day to day. */
  lemma {:induction false} LaterIsLater(z: Z.Zone, d: int, a: int, e: int, b: int)
    requires Z.Regular(z) && Wall(d, a) <= Wall(e, b)
    ensures Instant(z, d, a) <= Instant(z, e, b)
  {
    Z.LeastIsMonotone(z, Wall(d, a), Wall(e, b));
  }

  ghost predicate InShifts(q: Query, day: int, shifts: seq<Interval>, t: int)
    requires Asked(q)
  {
    exists i :: 0 <= i < |shifts| && SlotOf(q, day, shifts[i].start, shifts[i].end, t)
  }

  /** The instant the business's clock shows this minute of the day. */
  method InstantOf(z: Z.Zone, day: int, minute: int) returns (u: int)
    requires Z.Regular(z)
    ensures u == Instant(z, day, minute)
  {
    assert Wall(day, minute) == (day * (24 * 60) + minute) * MINUTE;
    u := Z.ToUtc(z, Wall(day, minute));
  }

  /** One shift: its ends and its first grid point as instants, then the walk. */
  method ShiftSlots(q: Query, blocked: seq<Interval>, bookings: seq<Interval>, day: int, local: Interval)
    returns (out: seq<int>)
    requires Asked(q) && local.start <= local.end
    requires MergedFrom(blocked, q.timeOff + Buffered(q.booked, q.pct)) && MergedFrom(bookings, Raw(q.booked))
    ensures Ascending(out)
    ensures forall t :: t in out <==> SlotOf(q, day, local.start, local.end, t)
    ensures forall t :: t in out ==> Instant(q.zone, day, local.start) <= t < Instant(q.zone, day, local.end)
  {
    var opens := InstantOf(q.zone, day, local.start);
    var closes := InstantOf(q.zone, day, local.end);
    var at := Anchor(local.start, q.step);
    out := [];
    if at != None && closes > opens {
      var from := InstantOf(q.zone, day, at.value);
      AnchorRoundsUp(local.start, q.step);
      LaterIsLater(q.zone, day, local.start, day, at.value);
      out := WalkShift(q, blocked, bookings, from, opens, closes);
    }
  }

  lemma {:induction false} AscendingConcat(s: seq<int>, t: seq<int>, cut: int)
    requires Ascending(s) && Ascending(t)
    requires (forall x :: x in s ==> x < cut) && (forall x :: x in t ==> cut <= x)
    ensures Ascending(s + t)
  {
    forall i, j | 0 <= i < j < |s + t| ensures (s + t)[i] < (s + t)[j] {
      if i < |s| <= j { assert s[i] in s && t[j - |s|] in t; }
    }
  }

  lemma {:induction false} InShiftsSnoc(q: Query, day: int, shifts: seq<Interval>, x: Interval)
    requires Asked(q)
    ensures forall t ::
              InShifts(q, day, shifts + [x], t) <==> InShifts(q, day, shifts, t) || SlotOf(q, day, x.start, x.end, t)
  {
    var all := shifts + [x];
    forall t ensures InShifts(q, day, all, t) <==> InShifts(q, day, shifts, t) || SlotOf(q, day, x.start, x.end, t) {
      if i :| 0 <= i < |shifts| && SlotOf(q, day, shifts[i].start, shifts[i].end, t) { assert all[i] == shifts[i]; }
      if SlotOf(q, day, x.start, x.end, t) { assert all[|shifts|] == x; }
    }
  }

  /** The slots of a day's shifts are the slots of its stretches. */
  lemma {:induction false} ShiftsAreStretches(q: Query, day: int, shifts: seq<Interval>, t: int)
    requires Asked(q) && forall a, b :: Interval(a, b) in shifts <==> Stretch(q, IsoWeekday(day), a, b)
    ensures InShifts(q, day, shifts, t) <==> exists a, b :: SlotIn(q, day, a, b, t)
  {
    if i :| 0 <= i < |shifts| && SlotOf(q, day, shifts[i].start, shifts[i].end, t) {
      assert Interval(shifts[i].start, shifts[i].end) in shifts;
      assert SlotIn(q, day, shifts[i].start, shifts[i].end, t);
    }
    if a, b :| SlotIn(q, day, a, b, t) {
      assert Interval(a, b) in shifts;
    }
  }

  function LastEnd(shifts: seq<Interval>): int {
    if shifts == [] then 0 else shifts[|shifts| - 1].end
  }

  /** The slots of the shifts walked so far. */
  ghost predicate SoFar(q: Query, day: int, shifts: seq<Interval>, out: seq<int>)
    requires Asked(q)
  {
    && Ascending(out)
    && (forall t :: t in out <==> InShifts(q, day, shifts, t))
    && (forall t :: t in out ==> Instant(q.zone, day, 0) <= t < Instant(q.zone, day, LastEnd(shifts)))
  }

  lemma {:induction false} NextShift(q: Query, day: int, shifts: seq<Interval>, out: seq<int>, x: Interval,
                                     more: seq<int>)
    requires Asked(q) && SoFar(q, day, shifts, out) && 0 <= LastEnd(shifts) <= x.start <= x.end
    requires Ascending(more) && forall t :: t in more <==> SlotOf(q, day, x.start, x.end, t)
    requires forall t :: t in more ==> Instant(q.zone, day, x.start) <= t < Instant(q.zone, day, x.end)
    ensures SoFar(q, day, shifts + [x], out + more)
  {
    LaterIsLater(q.zone, day, 0, day, x.start);
    LaterIsLater(q.zone, day, LastEnd(shifts), day, x.start);
    LaterIsLater(q.zone, day, x.start, day, x.end);
    AscendingConcat(out, more, Instant(q.zone, day, x.start));
    InShiftsSnoc(q, day, shifts, x);
  }

  /** The slots of a day, shift by shift. */
  method DaySlots(q: Query, blocked: seq<Interval>, bookings: seq<Interval>, day: int) returns (out: seq<int>)
    requires Asked(q)
    requires MergedFrom(blocked, q.timeOff + Buffered(q.booked, q.pct)) && MergedFrom(bookings, Raw(q.booked))
    ensures Ascending(out)
    ensures forall t :: t in out <==> exists a, b :: SlotIn(q, day, a, b, t)
    ensures forall t :: t in out ==> Instant(q.zone, day, 0) <= t < Instant(q.zone, day + 1, 0)
  {
    var shifts := ShiftsOn(q, IsoWeekday(day));
    out := [];
    for i := 0 to |shifts|
      invariant SoFar(q, day, shifts[..i], out)
      invariant 0 <= LastEnd(shifts[..i]) < 24 * 60
    {
      var local := shifts[i];
      assert local in shifts && local == Interval(local.start, local.end);
      StretchInDay(q, IsoWeekday(day), local.start, local.end);
      var more := ShiftSlots(q, blocked, bookings, day, local);
      NextShift(q, day, shifts[..i], out, local, more);
      assert shifts[..i + 1] == shifts[..i] + [local];
      out := out + more;
    }
    assert shifts[..|shifts|] == shifts;
    forall t ensures t in out <==> exists a, b :: SlotIn(q, day, a, b, t) {
      ShiftsAreStretches(q, day, shifts, t);
    }
    LaterIsLater(q.zone, day, LastEnd(shifts), day + 1, 0);
  }

  /**
   The slots of a worker over a stretch of local days: strictly ascending, and exactly the instants on
   the grid of a stretch worked and open that fit inside it and are free.
   */
  method MemberSlots(q: Query, first: int, last: int) returns (out: seq<int>)
    requires Asked(q)
    ensures Ascending(out)
    ensures forall t :: t in out <==> IsSlot(q, first, last, t)
  {
    var bookings := Merged(Raw(q.booked));
    var blocked := Merged(q.timeOff + Buffered(q.booked, q.pct));
    out := [];
    var day := first;
    while day <= last
      invariant first <= day && (if first <= last then day <= last + 1 else day == first)
      invariant Ascending(out)
      invariant forall t :: t in out <==> IsSlot(q, first, day - 1, t)
      invariant forall t :: t in out ==> t < Instant(q.zone, day, 0)
    {
      var more := DaySlots(q, blocked, bookings, day);
      AscendingConcat(out, more, Instant(q.zone, day, 0));
      forall t
        ensures IsSlot(q, first, day, t) <==> IsSlot(q, first, day - 1, t) || exists a, b :: SlotIn(q, day, a, b, t)
      {
      }
      LaterIsLater(q.zone, day, 0, day + 1, 0);
      out := out + more;
      day := day + 1;
    }
  }

  /** Two ascending lists of the same instants are the same list. */
  lemma {:induction false} AscendingIsUnique(s: seq<int>, t: seq<int>)
    requires Ascending(s) && Ascending(t) && forall x :: x in s <==> x in t
    ensures s == t
  {
    assert (s == [] || s[0] in s) && (t == [] || t[0] in t);
    if s != [] {
      assert s[0] == t[0];
      forall x ensures x in s[1..] <==> x in t[1..] {
        TailOf(s, x);
        TailOf(t, x);
      }
      AscendingIsUnique(s[1..], t[1..]);
      assert s == [s[0]] + s[1..] && t == [t[0]] + t[1..];
    }
  }

  lemma {:induction false} TailOf(s: seq<int>, x: int)
    requires Ascending(s) && s != []
    ensures x in s[1..] <==> x in s && x != s[0]
  {
    assert s == [s[0]] + s[1..];
  }

  // ---- What a slot means for a client and a worker ----

  /** The two stretches of time have an instant in common. */
  predicate Together(a: int, b: int, c: int, d: int) {
    a < d && c < b
  }

  /** A start is free exactly when it is not too early, the appointment meets no time off and no booking nor
   the rest kept after one, and the rest it needs itself meets no booking. */
  lemma {:induction false} FreeExactly(q: Query, t: int)
    requires Bookable(q.booked)
    ensures
      var end, rested := t + q.duration * MINUTE, t + (q.duration + q.buffer) * MINUTE;
      Free(q, t) <==>
      && q.earliest <= t
      && (forall o :: o in q.timeOff ==> !Together(o.start, o.end, t, end))
      && (forall b :: b in q.booked ==>
            && b.start <= b.end
            && !Together(b.start, b.end + BufferFor((b.end - b.start) / MINUTE, b.override, q.pct) * MINUTE, t, end)
            && !Together(b.start, b.end, t, rested))
  {
    var end, rested := t + q.duration * MINUTE, t + (q.duration + q.buffer) * MINUTE;
    var blocked := q.timeOff + Buffered(q.booked, q.pct);
    if Free(q, t) {
      forall o | o in q.timeOff ensures !Together(o.start, o.end, t, end) {
        var k :| 0 <= k < |q.timeOff| && q.timeOff[k] == o;
        assert blocked[k] == o;
      }
      forall b | b in q.booked
        ensures b.start <= b.end && !Together(b.start, WithBuffer(b, q.pct).end, t, end)
        ensures !Together(b.start, b.end, t, rested)
      {
        var k :| 0 <= k < |q.booked| && q.booked[k] == b;
        assert blocked[|q.timeOff| + k] == WithBuffer(b, q.pct) && Raw(q.booked)[k] == Interval(b.start, b.end);
      }
    } else if q.earliest <= t {
      if k :| 0 <= k < |Raw(q.booked)| && Hits(Raw(q.booked)[k], t, rested) {
        assert q.booked[k] in q.booked;
      } else {
        var k :| 0 <= k < |blocked| && Hits(blocked[k], t, end);
        assert if k < |q.timeOff| then q.timeOff[k] in q.timeOff else q.booked[k - |q.timeOff|] in q.booked;
      }
    }
  }

  /** Every minute of the stretch a slot lies in is inside one of the worker's shifts and, where the business
   has opening hours, inside one of them. */
  lemma {:induction false} StretchIsWorkedAndOpen(q: Query, weekday: int, a: int, b: int, m: int)
    requires Stretch(q, weekday, a, b) && a <= m < b
    ensures exists r :: r in q.rows && r.weekday == weekday && r.start <= m < r.end
    ensures
      q.opening != map[] ==>
        weekday in q.opening && exists i :: i in q.opening[weekday] && i.start <= m < i.end
  {
    assert Available(q, weekday, m);
    var k :| 0 <= k < |q.rows| && q.rows[k].weekday == weekday && q.rows[k].start <= m < q.rows[k].end;
    assert q.rows[k] in q.rows;
    if q.opening != map[] {
      var open := S.OpeningOn(q.opening, weekday);
      var j :| 0 <= j < |open| && Has(open[j], m);
      assert open[j] in open;
    }
  }

  /** And a stretch goes on for as long as that lasts. */
  lemma {:induction false} StretchIsLongest(q: Query, weekday: int, a: int, b: int, m: int, r: S.Row)
    requires Stretch(q, weekday, a, b) && (m == a - 1 || m == b)
    requires r in q.rows && r.weekday == weekday && r.start <= m < r.end
    ensures
      q.opening != map[]
      && (weekday in q.opening ==> forall i :: i in q.opening[weekday] ==> !(i.start <= m < i.end))
  {
    assert !Available(q, weekday, m);
    var k :| 0 <= k < |q.rows| && q.rows[k] == r;
    if q.opening != map[] && weekday in q.opening {
      forall i | i in q.opening[weekday] ensures !(i.start <= m < i.end) {
        var j :| 0 <= j < |q.opening[weekday]| && q.opening[weekday][j] == i;
        assert Has(q.opening[weekday][j], m) <==> i.start <= m < i.end;
      }
    }
  }
}
