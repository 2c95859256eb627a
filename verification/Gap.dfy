/**
 Every write the slot grid accepts keeps each worker's bookings apart by their buffers, over whole
 runs and whatever the transactions' clocks say; and none of them ever meets the table's exclusion
 constraint.
 */
module Gap {
  import opened Prelude
  import opened Intervals
  import B = Bookings
  import R = Reads
  import S = Schedule
  import Sorting
  import T = BookingTable
  import Z = Zone
  import opened Slots

  /** The settings a run keeps fixed: the zone, the default buffer, and each service's own buffer. */
  datatype Shop = Shop(zone: Z.Zone, pct: nat, buffers: map<nat, nat>)

  predicate Sane(shop: Shop) {
    && Z.Regular(shop.zone) && R.Calm(shop.zone) && shop.pct <= 100
    && (forall s :: s in shop.buffers ==> shop.buffers[s] <= R.LONGEST_OWN_BUFFER)
  }

  function OwnBuffer(shop: Shop, service: nat): Option<nat> {
    if service in shop.buffers then Some(shop.buffers[service]) else None
  }

  function Minutes(b: B.Booking): int {
    (b.endsAt - b.startsAt) / MINUTE
  }

  /** The time kept free after a booking. */
  function Tail(shop: Shop, b: B.Booking): (r: int)
    requires b.startsAt <= b.endsAt
    ensures r >= 0
  {
    BufferFor(Minutes(b), OwnBuffer(shop, b.service), shop.pct) * MINUTE
  }

  /** A row as the table's constraints let it be: whole minutes, at most twelve hours, and a hold has
   a deadline. */
  predicate RowOk(b: B.Booking) {
    && b.startsAt < b.endsAt <= b.startsAt + R.LONGEST_BOOKING
    && (b.endsAt - b.startsAt) % MINUTE == 0
    && (B.Expiring(b.status) ==> b.expiresAt.Some?)
  }

  /** The earlier of the two ends, with its buffer, before the later starts. */
  predicate Clear(shop: Shop, x: B.Booking, y: B.Booking)
    requires RowOk(x) && RowOk(y)
  {
    x.endsAt + Tail(shop, x) <= y.startsAt || y.endsAt + Tail(shop, y) <= x.startsAt
  }

  predicate Rivals(x: B.Booking, y: B.Booking) {
    B.Occupying(x.status) && B.Occupying(y.status) && x.worker == y.worker
  }

  ghost predicate RowsOk(t: T.Table) {
    forall id :: id in t.rows ==> RowOk(t.rows[id])
  }

  ghost predicate Gapped(shop: Shop, t: T.Table)
    requires RowsOk(t)
  {
    forall i, j :: i in t.rows && j in t.rows && i != j && Rivals(t.rows[i], t.rows[j])
                   ==> Clear(shop, t.rows[i], t.rows[j])
  }

  /** The exclusion constraint refuses `row` under `id`: another booking has some of the time. */
  predicate Conflicts(t: T.Table, id: nat, row: B.Booking) {
    exists j :: j in t.rows && j != id && Rivals(t.rows[j], row)
      && t.rows[j].startsAt < row.endsAt && row.startsAt < t.rows[j].endsAt
  }

  // ---- What the grid offers ----

  /** The bookings joined with their services, in any order. */
  ghost predicate Lists(shop: Shop, t: T.Table, rows: seq<R.Row>) {
    forall r :: r in rows <==>
      r.id in t.rows && r.booking == t.rows[r.id] && r.buffer == OwnBuffer(shop, t.rows[r.id].service)
  }

  /** The grid offers this worker `start` for a booking of `b`'s service and length, at the clock
   `now`, not counting `exclude`. Hours, opening hours, time off, step and notice may be any. */
  ghost predicate Offers(shop: Shop, t: T.Table, a: R.Ask, b: B.Booking, now: int, exclude: Option<nat>)
    requires RowOk(b)
  {
    && R.Allowed(a) && Lists(shop, t, a.rows)
    && a.worker == b.worker && a.now == now && a.exclude == exclude && a.first == a.last
    && a.q.zone == shop.zone && a.q.pct == shop.pct
    && a.q.duration == Minutes(b) && a.own == OwnBuffer(shop, b.service)
    && Asked(R.ReadQuery(a)) && IsSlot(R.ReadQuery(a), a.first, a.last, b.startsAt)
  }

  /** The row holds its worker's time at this clock. */
  predicate Seen(b: B.Booking, now: int) {
    B.Occupying(b.status) && (!B.Expiring(b.status) || B.Holds(b, now))
  }

  /** A free start misses each booking: with the booking's buffer, and with its own. */
  lemma {:induction false} FreeMisses(q: Query, x: Booked, t: int)
    requires Bookable(q.booked) && x in q.booked && Free(q, t)
    ensures x.start <= x.end && !Hits(WithBuffer(x, q.pct), t, t + q.duration * MINUTE)
    ensures !Hits(Interval(x.start, x.end), t, t + (q.duration + q.buffer) * MINUTE)
  {
    R.BufferedHas(q.booked, q.pct, x);
    R.MeetsIsSome(R.Blocked(q), t, t + q.duration * MINUTE);
    R.MeetsIsSome(Raw(q.booked), t, t + (q.duration + q.buffer) * MINUTE);
    assert WithBuffer(x, q.pct) in R.Blocked(q);
  }

  lemma {:induction false} MissesIsClear(shop: Shop, x: B.Booking, b: B.Booking)
    requires RowOk(x) && RowOk(b)
    requires !Hits(Interval(x.startsAt, x.endsAt + Tail(shop, x)), b.startsAt, b.endsAt)
    requires !Hits(Interval(x.startsAt, x.endsAt), b.startsAt, b.endsAt + Tail(shop, b))
    ensures Clear(shop, x, b)
  {
  }

  /** An offered start is free against the whole table, not only what was read. */
  lemma {:induction false} OfferedIsFree(shop: Shop, t: T.Table, a: R.Ask, b: B.Booking, now: int, exclude: Option<nat>)
    requires Sane(shop) && RowOk(b) && Offers(shop, t, a, b, now, exclude)
    ensures Bookable(R.WholeQuery(a).booked) && Free(R.WholeQuery(a), b.startsAt)
  {
    R.CalmDaysAreLong(shop.zone, a.first - 1);
    R.CalmDaysAreLong(shop.zone, a.last + 1);
    R.LongDaysArePadded(shop.zone, a.first, a.last);
    R.ReadsLoseNothing(a, b.startsAt);
    var day, x, y :| a.first <= day <= a.last && SlotIn(R.WholeQuery(a), day, x, y, b.startsAt);
  }

  function AsBooked(shop: Shop, x: B.Booking): Booked {
    Booked(x.startsAt, x.endsAt, OwnBuffer(shop, x.service))
  }

  /** Whatever holds the worker's time is in the whole table's query. */
  lemma {:induction false} SeenIsBooked(shop: Shop, t: T.Table, a: R.Ask, id: nat)
    requires Lists(shop, t, a.rows) && id in t.rows && a.exclude != Some(id)
    requires t.rows[id].worker == a.worker && Seen(t.rows[id], a.now)
    ensures AsBooked(shop, t.rows[id]) in R.WholeQuery(a).booked
  {
    var row := R.Row(id, t.rows[id], OwnBuffer(shop, t.rows[id].service));
    assert row in a.rows && R.Occupies(row, a.worker, a.now, a.exclude);
    assert R.AsBooked(row) == AsBooked(shop, t.rows[id]);
  }

  /** And nothing else is: what blocks this worker's slots is exactly what takes the worker's time. */
  lemma {:induction false} BookedIsSeen(shop: Shop, t: T.Table, a: R.Ask, b: Booked)
    requires Lists(shop, t, a.rows)
    ensures b in R.WholeQuery(a).booked <==> exists id :: HoldsTime(shop, t, a, id, b)
  {
    if b in R.WholeQuery(a).booked {
      var r :| r in a.rows && R.Occupies(r, a.worker, a.now, a.exclude) && b == R.AsBooked(r);
      assert HoldsTime(shop, t, a, r.id, b);
    }
    if id :| HoldsTime(shop, t, a, id, b) { SeenIsBooked(shop, t, a, id); }
  }

  /** A confirmed or finished booking of this worker, or a hold still running, other than the excluded. */
  predicate TakesTime(t: T.Table, a: R.Ask, id: nat) {
    && id in t.rows && t.rows[id].worker == a.worker && a.exclude != Some(id)
    && (|| t.rows[id].status in {B.Confirmed, B.Completed}
        || (t.rows[id].status in {B.AwaitingPayment, B.Pending}
            && t.rows[id].expiresAt.Some? && a.now < t.rows[id].expiresAt.value))
  }

  ghost predicate HoldsTime(shop: Shop, t: T.Table, a: R.Ask, id: nat, b: Booked) {
    TakesTime(t, a, id) && b == AsBooked(shop, t.rows[id])
  }

  /** The same requests over the table and over the table without one row. */
  ghost predicate WithoutRow(shop: Shop, t: T.Table, id: nat, a: R.Ask, a': R.Ask) {
    && id in t.rows && Lists(shop, t, a.rows) && Lists(shop, t.(rows := t.rows - {id}), a'.rows)
    && a' == a.(rows := a'.rows) && R.Allowed(a) && R.Allowed(a')
  }

  lemma {:induction false} SameBooked(shop: Shop, t: T.Table, id: nat, a: R.Ask, a': R.Ask, b: Booked)
    requires WithoutRow(shop, t, id, a, a')
    requires !TakesTime(t, a, id)
    ensures b in R.WholeQuery(a).booked <==> b in R.WholeQuery(a').booked
  {
    var u := t.(rows := t.rows - {id});
    BookedIsSeen(shop, t, a, b);
    BookedIsSeen(shop, u, a', b);
    if j :| HoldsTime(shop, t, a, j, b) { assert HoldsTime(shop, u, a', j, b); }
    if j :| HoldsTime(shop, u, a', j, b) { assert HoldsTime(shop, t, a, j, b); }
  }

  /** A booking that is over, was refused, has lapsed, is another worker's or is the one being moved takes
   no slot: without it the same starts are offered. */
  lemma {:induction false} DeadRowsTakeNoSlot(shop: Shop, t: T.Table, id: nat, a: R.Ask, a': R.Ask, x: int)
    requires WithoutRow(shop, t, id, a, a')
    requires !TakesTime(t, a, id)
    ensures Asked(R.WholeQuery(a)) && Asked(R.WholeQuery(a'))
    ensures IsSlot(R.WholeQuery(a), a.first, a.last, x) <==> IsSlot(R.WholeQuery(a'), a.first, a.last, x)
  {
    R.BothAsked(a);
    R.BothAsked(a');
    forall b ensures b in R.WholeQuery(a).booked <==> b in R.WholeQuery(a').booked {
      SameBooked(shop, t, id, a, a', b);
    }
    R.SameBookedSameSlots(R.WholeQuery(a), R.WholeQuery(a'), a.first, a.last, x);
  }

  /** An offered start is clear of every booking that holds the worker's time. */
  lemma {:induction false} OfferedIsClear(shop: Shop, t: T.Table, a: R.Ask, b: B.Booking, now: int,
                                          exclude: Option<nat>, id: nat)
    requires Sane(shop) && RowsOk(t) && RowOk(b) && Offers(shop, t, a, b, now, exclude)
    requires id in t.rows && exclude != Some(id) && t.rows[id].worker == b.worker && Seen(t.rows[id], now)
    ensures Clear(shop, t.rows[id], b)
  {
    OfferedIsFree(shop, t, a, b, now, exclude);
    SeenIsBooked(shop, t, a, id);
    FreeMisses(R.WholeQuery(a), AsBooked(shop, t.rows[id]), b.startsAt);
    assert b.startsAt + Minutes(b) * MINUTE == b.endsAt;
    MissesIsClear(shop, t.rows[id], b);
  }

  // ---- The writes ----

  datatype Step =
    | Book(id: nat, row: B.Booking, ask: R.Ask)              // a new booking, by client or merchant
    | ClientMove(id: nat, st: B.Statement, ask: R.Ask)       // RESCHEDULE or PENDING_MOVE
    | MerchantMove(id: nat, start: int, worker: nat, ask: R.Ask)
    | Other(command: T.Command)                              // every statement that places nothing

  predicate Places(st: B.Statement) {
    st.Reschedule? || st.PendingMove? || st.Move?
  }

  predicate Plain(c: T.Command) {
    c.ExpireDue? || c.EraseClient? || (c.OnRow? && !Places(c.st))
  }

  function Expired(t: T.Table, now: int): T.Table {
    T.Exec(t, T.ExpireDue, now)
  }

  function Put(t: T.Table, id: nat, row: B.Booking): T.Table {
    t.(rows := t.rows[id := row])
  }

  function MovedRow(t: T.Table, id: nat, st: B.Statement, now: int): B.Booking
    requires id in t.rows
  {
    B.Apply(t.rows[id], st, now, t.rows[id].client in t.erased)
  }

  /** A move writes only what its statement matches, and only if the constraint lets it. */
  function MoveOr(t: T.Table, id: nat, st: B.Statement, now: int, before: T.Table): T.Table {
    if id !in t.rows || !B.Matches(t.rows[id], st, now, t.rows[id].client in t.erased) then before
    else if Conflicts(t, id, MovedRow(t, id, st, now)) then before
    else Put(t, id, MovedRow(t, id, st, now))
  }

  /** The booking as the grid is asked about it: the same length and service, at the new start. */
  function Shifted(b: B.Booking, start: int, worker: nat): B.Booking {
    b.(startsAt := start, endsAt := start + (b.endsAt - b.startsAt), worker := worker)
  }

  function Target(st: B.Statement): int
    requires Places(st)
  {
    match st
    case Reschedule(start, _) => start
    case PendingMove(start) => start
    case Move(start, _) => start
  }

  /** One transaction. A refusal or a conflict rolls the whole of it back. */
  ghost function Take(shop: Shop, t: T.Table, step: Step, now: int): T.Table
    requires RowsOk(t)
  {
    match step
    case Book(id, row, ask) =>
      var u := Expired(t, now);
      if !RowOk(row) || !T.Insertable(u, id, row) || !Offers(shop, u, ask, row, now, None) then t
      else if Conflicts(u, id, row) then t
      else Put(u, id, row)
    case ClientMove(id, st, ask) =>
      if id !in t.rows || !(st.Reschedule? || st.PendingMove?) then t
      else if !Offers(shop, t, ask, Shifted(t.rows[id], Target(st), t.rows[id].worker), now, Some(id)) then t
      else MoveOr(Expired(t, now), id, st, now, t)
    case MerchantMove(id, start, worker, ask) =>
      var u := Expired(t, now);
      if id !in t.rows || !RowOk(u.rows[id]) then t
      else if !Offers(shop, u, ask, Shifted(u.rows[id], start, worker), now, Some(id)) then t
      else MoveOr(u, id, B.Move(start, worker), now, t)
    case Other(c) => if Plain(c) then T.Exec(t, c, now) else t
  }

  datatype Timed = Timed(step: Step, now: int)

  ghost predicate Sound(shop: Shop, t: T.Table) {
    RowsOk(t) && Gapped(shop, t)
  }

  // ---- What the statements keep ----

  /** The row keeps its place, and holds no time it did not hold. */
  predicate KeepsPlace(before: B.Booking, after: B.Booking) {
    && after.startsAt == before.startsAt && after.endsAt == before.endsAt
    && after.worker == before.worker && after.service == before.service
    && (B.Occupying(after.status) ==> B.Occupying(before.status))
    && (B.Expiring(after.status) && before.expiresAt.Some? ==> after.expiresAt.Some?)
    && (B.Expiring(after.status) ==> B.Expiring(before.status))
  }

  lemma {:induction false} PlainKeepsPlace(b: B.Booking, st: B.Statement, now: int, erased: bool)
    requires !Places(st)
    ensures KeepsPlace(b, B.Apply(b, st, now, erased))
  {
    B.EndingsStand(b, st, now, erased);
  }

  lemma {:induction false} SamePlacesKeep(shop: Shop, t: T.Table, u: T.Table)
    requires Sound(shop, t) && u.rows.Keys == t.rows.Keys
    requires forall id :: id in u.rows ==> KeepsPlace(t.rows[id], u.rows[id])
    ensures Sound(shop, u)
  {
    forall i, j | i in u.rows && j in u.rows && i != j && Rivals(u.rows[i], u.rows[j])
      ensures Clear(shop, u.rows[i], u.rows[j])
    {
      assert Clear(shop, t.rows[i], t.rows[j]);
    }
  }

  lemma {:induction false} PlainKeeps(shop: Shop, t: T.Table, c: T.Command, now: int)
    requires Sound(shop, t) && Plain(c)
    ensures Sound(shop, T.Exec(t, c, now))
  {
    var u := T.Exec(t, c, now);
    forall id | id in u.rows ensures KeepsPlace(t.rows[id], u.rows[id]) {
      match c
      case ExpireDue => PlainKeepsPlace(t.rows[id], B.Expire, now, t.rows[id].client in t.erased);
      case OnRow(_, st) => PlainKeepsPlace(t.rows[id], st, now, t.rows[id].client in t.erased);
      case EraseClient(_, at) => PlainKeepsPlace(t.rows[id], B.EndForErasure(at), now, false);
    }
    SamePlacesKeep(shop, t, u);
  }

  /** After EXPIRE, every booking that occupies is one the read at the same clock sees. */
  lemma {:induction false} NoneUnseen(t: T.Table, now: int, id: nat)
    requires RowsOk(t) && id in t.rows
    ensures B.Occupying(Expired(t, now).rows[id].status) ==> Seen(Expired(t, now).rows[id], now)
    ensures Seen(t.rows[id], now) ==> Expired(t, now).rows[id] == t.rows[id]
    ensures !Seen(t.rows[id], now) ==> !B.Occupying(Expired(t, now).rows[id].status)
  {
  }

  lemma {:induction false} PutKeeps(shop: Shop, t: T.Table, id: nat, row: B.Booking)
    requires Sound(shop, t) && RowOk(row)
    requires forall j :: j in t.rows && j != id && Rivals(t.rows[j], row) ==> Clear(shop, t.rows[j], row)
    ensures Sound(shop, Put(t, id, row))
    ensures !Conflicts(t, id, row)
  {
    var u := Put(t, id, row);
    forall i, j | i in u.rows && j in u.rows && i != j && Rivals(u.rows[i], u.rows[j])
      ensures Clear(shop, u.rows[i], u.rows[j])
    {
      if i == id { assert Clear(shop, t.rows[j], row); }
    }
  }

  lemma {:induction false} OfferedKeeps(shop: Shop, t: T.Table, a: R.Ask, b: B.Booking, row: B.Booking, now: int,
                                        exclude: Option<nat>, id: nat)
    requires Sane(shop) && Sound(shop, t) && RowOk(b) && Offers(shop, t, a, b, now, exclude)
    requires exclude == Some(id) || (exclude == None && id !in t.rows)
    requires RowOk(row) && row.worker == b.worker && row.service == b.service
    requires row.startsAt == b.startsAt && row.endsAt == b.endsAt
    ensures Sound(shop, Put(Expired(t, now), id, row))
    ensures !Conflicts(Expired(t, now), id, row)
  {
    var u := Expired(t, now);
    PlainKeeps(shop, t, T.ExpireDue, now);
    forall j | j in u.rows && j != id && Rivals(u.rows[j], row) ensures Clear(shop, u.rows[j], row) {
      NoneUnseen(t, now, j);
      OfferedIsClear(shop, t, a, b, now, exclude, j);
    }
    PutKeeps(shop, u, id, row);
  }

  /** Expiring what has lapsed twice at one clock is expiring it once. */
  lemma {:induction false} ExpiredTwice(t: T.Table, now: int)
    ensures Expired(Expired(t, now), now) == Expired(t, now)
  {
    assert Expired(Expired(t, now), now).rows == Expired(t, now).rows;
  }

  lemma {:induction false} BookKeeps(shop: Shop, t: T.Table, id: nat, row: B.Booking, a: R.Ask, now: int)
    requires Sane(shop) && Sound(shop, t)
    ensures Sound(shop, Take(shop, t, Book(id, row, a), now))
    ensures
      var u := Expired(t, now);
      RowsOk(u) && (RowOk(row) && T.Insertable(u, id, row) && Offers(shop, u, a, row, now, None)
                    ==> Take(shop, t, Book(id, row, a), now) == Put(u, id, row))
  {
    var u := Expired(t, now);
    PlainKeeps(shop, t, T.ExpireDue, now);
    if RowOk(row) && T.Insertable(u, id, row) && Offers(shop, u, a, row, now, None) {
      OfferedKeeps(shop, u, a, row, row, now, None, id);
      ExpiredTwice(t, now);
    }
  }

  /** What a matched move writes, as far as the grid reads it. */
  lemma {:induction false} MoveWrites(b: B.Booking, st: B.Statement, now: int, erased: bool)
    requires RowOk(b) && Places(st) && B.Matches(b, st, now, erased)
    ensures
      var w := B.Apply(b, st, now, erased);
      var s := Shifted(b, Target(st), if st.Move? then st.worker else b.worker);
      RowOk(w) && w.worker == s.worker && w.service == s.service && w.startsAt == s.startsAt && w.endsAt == s.endsAt
  {
  }

  lemma {:induction false} ClientMoveKeeps(shop: Shop, t: T.Table, id: nat, st: B.Statement, a: R.Ask, now: int)
    requires Sane(shop) && Sound(shop, t)
    requires id in t.rows && (st.Reschedule? || st.PendingMove?)
    requires Offers(shop, t, a, Shifted(t.rows[id], Target(st), t.rows[id].worker), now, Some(id))
    ensures
      var u := Expired(t, now);
      var w := Take(shop, t, ClientMove(id, st, a), now);
      Sound(shop, w) &&
      w == if B.Matches(u.rows[id], st, now, u.rows[id].client in u.erased)
           then Put(u, id, MovedRow(u, id, st, now)) else t
  {
    var u := Expired(t, now);
    PlainKeeps(shop, t, T.ExpireDue, now);
    var b := Shifted(t.rows[id], Target(st), t.rows[id].worker);
    if B.Matches(u.rows[id], st, now, u.rows[id].client in u.erased) {
      MoveWrites(u.rows[id], st, now, u.rows[id].client in u.erased);
      PlainKeepsPlace(t.rows[id], B.Expire, now, t.rows[id].client in t.erased);
      OfferedKeeps(shop, t, a, b, MovedRow(u, id, st, now), now, Some(id), id);
    }
  }

  lemma {:induction false} MerchantMoveKeeps(shop: Shop, t: T.Table, id: nat, start: int, worker: nat, a: R.Ask,
                                             now: int)
    requires Sane(shop) && Sound(shop, t) && id in t.rows
    requires
      var u := Expired(t, now);
      RowOk(u.rows[id]) && Offers(shop, u, a, Shifted(u.rows[id], start, worker), now, Some(id))
    ensures
      var u := Expired(t, now);
      var w := Take(shop, t, MerchantMove(id, start, worker, a), now);
      Sound(shop, w) &&
      w == if B.Matches(u.rows[id], B.Move(start, worker), now, u.rows[id].client in u.erased)
           then Put(u, id, MovedRow(u, id, B.Move(start, worker), now)) else t
  {
    var u := Expired(t, now);
    var st := B.Move(start, worker);
    PlainKeeps(shop, t, T.ExpireDue, now);
    if B.Matches(u.rows[id], st, now, u.rows[id].client in u.erased) {
      MoveWrites(u.rows[id], st, now, u.rows[id].client in u.erased);
      OfferedKeeps(shop, u, a, Shifted(u.rows[id], start, worker), MovedRow(u, id, st, now), now, Some(id), id);
      ExpiredTwice(t, now);
    }
  }

  lemma {:induction false} StepKeepsTheGap(shop: Shop, t: T.Table, step: Step, now: int)
    requires Sane(shop) && Sound(shop, t)
    ensures Sound(shop, Take(shop, t, step, now))
  {
    match step
    case Book(id, row, ask) => BookKeeps(shop, t, id, row, ask, now);
    case ClientMove(id, st, ask) =>
      if id in t.rows && (st.Reschedule? || st.PendingMove?)
         && Offers(shop, t, ask, Shifted(t.rows[id], Target(st), t.rows[id].worker), now, Some(id))
      {
        ClientMoveKeeps(shop, t, id, st, ask, now);
      }
    case MerchantMove(id, start, worker, ask) =>
      var u := Expired(t, now);
      if id in t.rows && RowOk(u.rows[id]) && Offers(shop, u, ask, Shifted(u.rows[id], start, worker), now, Some(id)) {
        MerchantMoveKeeps(shop, t, id, start, worker, ask, now);
      }
    case Other(c) => if Plain(c) { PlainKeeps(shop, t, c, now); }
  }

  /** A run, as the tables it goes through: each is its transaction's, at whatever clock. */
  ghost predicate Runs(shop: Shop, tables: seq<T.Table>, steps: seq<Timed>) {
    && |tables| == |steps| + 1
    && forall k {:trigger Follows(shop, tables, steps, k)} :: 0 <= k < |steps| ==> Follows(shop, tables, steps, k)
  }

  ghost predicate Follows(shop: Shop, tables: seq<T.Table>, steps: seq<Timed>, k: nat)
    requires k < |steps| && |tables| == |steps| + 1
  {
    RowsOk(tables[k]) ==> tables[k + 1] == Take(shop, tables[k], steps[k].step, steps[k].now)
  }

  /**
   From a table that has the gaps, as the empty one does, any run of grid bookings, client and merchant
   moves on the grid, expiries, transitions, cancellations and erasures keeps every two occupying
   bookings of one worker apart by the earlier one's buffer.
   */
  lemma {:induction false} RunKeepsTheGap(shop: Shop, tables: seq<T.Table>, steps: seq<Timed>, k: nat)
    requires Sane(shop) && Runs(shop, tables, steps) && Sound(shop, tables[0]) && k <= |steps|
    ensures Sound(shop, tables[k])
  {
    if k > 0 {
      RunKeepsTheGap(shop, tables, steps, k - 1);
      assert Follows(shop, tables, steps, k - 1);
      StepKeepsTheGap(shop, tables[k - 1], steps[k - 1].step, steps[k - 1].now);
    }
  }

  // ---- Who takes a new booking ----

  /** How many of the rows read start on this local day, for one worker. */
  function Load(read: seq<R.Row>, worker: nat, day: int, zone: Z.Zone): nat {
    if read == [] then 0
    else
      Load(read[1..], worker, day, zone)
      + if read[0].booking.worker == worker && Z.Local(zone, read[0].booking.startsAt) / DAY == day then 1 else 0
  }

  /** The worker's rows that start between the local day's midnights. */
  ghost function StartsOn(read: seq<R.Row>, worker: nat, day: int, zone: Z.Zone): set<nat> {
    set i: nat | i < |read| && read[i].booking.worker == worker
                 && day * DAY <= Z.Local(zone, read[i].booking.startsAt) < (day + 1) * DAY
  }

  lemma {:induction false} LoadCounts(read: seq<R.Row>, worker: nat, day: int, zone: Z.Zone)
    ensures Load(read, worker, day, zone) == |StartsOn(read, worker, day, zone)|
  {
    if read == [] {
      assert StartsOn(read, worker, day, zone) == {};
    } else {
      LoadCounts(read[1..], worker, day, zone);
      OneLater(StartsOn(read[1..], worker, day, zone));
      FirstAndLater(read, worker, day, zone);
      OnTheDay(Z.Local(zone, read[0].booking.startsAt), day);
    }
  }

  lemma {:induction false} OnTheDay(wall: int, day: int)
    ensures wall / DAY == day <==> day * DAY <= wall < (day + 1) * DAY
  {
  }

  function Later(s: set<nat>): set<nat> {
    set i | i in s :: i + 1
  }

  lemma {:induction false} FirstAndLater(read: seq<R.Row>, worker: nat, day: int, zone: Z.Zone)
    requires read != []
    ensures
      var all, later := StartsOn(read, worker, day, zone), Later(StartsOn(read[1..], worker, day, zone));
      0 !in later && all == (if 0 in all then later + {0} else later)
  {
    var all, rest := StartsOn(read, worker, day, zone), StartsOn(read[1..], worker, day, zone);
    forall i: nat ensures i + 1 in all <==> i in rest {
      if i + 1 < |read| { assert read[1..][i] == read[i + 1]; }
    }
    forall i: nat | i in all && i != 0 ensures i in Later(rest) {
      var j: nat := i - 1;
      assert j + 1 in all && j in rest;
    }
  }

  lemma {:induction false} OneLater(s: set<nat>)
    ensures |Later(s)| == |s|
    decreases |s|
  {
    if s == {} {
      assert Later(s) == {};
    } else {
      var x :| x in s;
      OneLater(s - {x});
      forall i: nat ensures i in Later(s) <==> i in Later(s - {x}) || i == x + 1 {
        if j :| j in s && i == j + 1 { assert j == x || j in s - {x}; }
      }
      assert Later(s) == Later(s - {x}) + {x + 1};
    }
  }

  /** Worker `a` has fewer starts on the day than `b`, or as many and a smaller id. */
  ghost predicate Fewer(read: seq<R.Row>, day: int, zone: Z.Zone, a: nat, b: nat) {
    var x, y := |StartsOn(read, a, day, zone)|, |StartsOn(read, b, day, zone)|;
    x < y || (x == y && a <= b)
  }

  lemma {:induction false} BeforeIsFewer(read: seq<R.Row>, day: int, zone: Z.Zone, a: nat, b: nat)
    ensures Before(read, day, zone, a, b) <==> Fewer(read, day, zone, a, b)
  {
    LoadCounts(read, a, day, zone);
    LoadCounts(read, b, day, zone);
  }

  predicate Before(read: seq<R.Row>, day: int, zone: Z.Zone, a: nat, b: nat) {
    var x, y := Load(read, a, day, zone), Load(read, b, day, zone);
    x < y || (x == y && a <= b)
  }

  /** The candidates, those with fewer starts on the day first, ties by id. */
  function ByLoad(eligible: seq<nat>, read: seq<R.Row>, day: int, zone: Z.Zone): seq<nat> {
    Sorting.Sorted(eligible, (a, b) => Before(read, day, zone, a, b))
  }

  lemma {:induction false} ByLoadIsOrdered(eligible: seq<nat>, read: seq<R.Row>, day: int, zone: Z.Zone)
    ensures multiset(ByLoad(eligible, read, day, zone)) == multiset(eligible)
    ensures
      var queue := ByLoad(eligible, read, day, zone);
      forall i, j :: 0 <= i < j < |queue| ==> Fewer(read, day, zone, queue[i], queue[j])
  {
    var le := (a: nat, b: nat) => Before(read, day, zone, a, b);
    var queue := ByLoad(eligible, read, day, zone);
    Sorting.SortedIsOrdered(eligible, le);
    forall i, j | 0 <= i < j < |queue| ensures Fewer(read, day, zone, queue[i], queue[j]) {
      assert le(queue[i], queue[j]);
      BeforeIsFewer(read, day, zone, queue[i], queue[j]);
    }
  }

  /** So the head of the queue is the least loaded of the eligible. */
  lemma {:induction false} HeadIsLeast(eligible: seq<nat>, read: seq<R.Row>, day: int, zone: Z.Zone)
    requires eligible != []
    ensures
      var head := ByLoad(eligible, read, day, zone)[0];
      head in eligible && forall m :: m in eligible ==> Fewer(read, day, zone, head, m)
  {
    var queue := ByLoad(eligible, read, day, zone);
    ByLoadIsOrdered(eligible, read, day, zone);
    Sorting.SameElements(eligible, queue);
    assert queue[0] in queue;
    forall m | m in eligible ensures Fewer(read, day, zone, queue[0], m) {
      var k :| 0 <= k < |queue| && queue[k] == m;
    }
  }

  /** The candidate loop: the first worker the constraint does not refuse takes the booking. */
  method Place(t: T.Table, id: nat, row: B.Booking, workers: seq<nat>) returns (taken: Option<nat>, after: T.Table)
    ensures taken.None? ==> after == t && forall m :: m in workers ==> Conflicts(t, id, row.(worker := m))
    ensures taken.Some? ==>
              exists k :: 0 <= k < |workers| && taken.value == workers[k]
                && !Conflicts(t, id, row.(worker := workers[k])) && after == Put(t, id, row.(worker := workers[k]))
                && forall j :: 0 <= j < k ==> Conflicts(t, id, row.(worker := workers[j]))
  {
    var queue := workers;
    ghost var popped := 0;
    while queue != []
      invariant popped <= |workers| && queue == workers[popped..]
      invariant forall j :: 0 <= j < popped ==> Conflicts(t, id, row.(worker := workers[j]))
    {
      var candidate := queue[0];
      queue := queue[1..];
      if !Conflicts(t, id, row.(worker := candidate)) {
        return Some(candidate), Put(t, id, row.(worker := candidate));
      }
      popped := popped + 1;
    }
    return None, t;
  }

  ghost predicate AllOffered(shop: Shop, t: T.Table, asks: map<nat, R.Ask>, row: B.Booking, now: int,
                             eligible: seq<nat>)
    requires RowOk(row)
  {
    forall m :: m in eligible ==> m in asks && Offers(shop, t, asks[m], row.(worker := m), now, None)
  }

  function LocalDay(zone: Z.Zone, u: int): (day: int)
    ensures day * DAY <= Z.Local(zone, u) < (day + 1) * DAY
  {
    Z.Local(zone, u) / DAY
  }

  /** A booking with someone eligible always lands, on the one with the fewest starts on its local day
   among the rows read, ties by id, and keeps the gaps. */
  method BookOnline(shop: Shop, t: T.Table, id: nat, row: B.Booking, eligible: seq<nat>, read: seq<R.Row>,
                    now: int, ghost asks: map<nat, R.Ask>)
    returns (taken: Option<nat>, after: T.Table)
    requires Sane(shop) && Sound(shop, t) && RowOk(row) && id !in t.rows
    requires RowsOk(Expired(t, now)) && AllOffered(shop, Expired(t, now), asks, row, now, eligible)
    ensures taken.None? <==> eligible == []
    ensures taken.None? ==> after == t
    ensures taken.Some? ==>
              && taken.value in eligible
              && (forall m :: m in eligible ==>
                    Fewer(read, LocalDay(shop.zone, row.startsAt), shop.zone, taken.value, m))
              && after == Put(Expired(t, now), id, row.(worker := taken.value))
    ensures Sound(shop, after)
  {
    var u := Expired(t, now);
    PlainKeeps(shop, t, T.ExpireDue, now);
    if eligible == [] {
      return None, t;
    }
    var day := LocalDay(shop.zone, row.startsAt);
    var queue := ByLoad(eligible, read, day, shop.zone);
    HeadIsLeast(eligible, read, day, shop.zone);
    ghost var m := queue[0];
    ghost var b := row.(worker := m);
    OfferedKeeps(shop, u, asks[m], b, b, now, None, id);
    ExpiredTwice(t, now);
    taken, after := Place(u, id, row, queue);
  }
}
