/**
 The bookings table: the statements as guarded updates of its rows, and what an erasure ends for
 good over every run of them.
 */
module BookingTable {
  import opened Prelude
  import opened Bookings

  datatype Table = Table(rows: map<nat, Booking>, erased: set<nat>)

  // One transaction on the table. `EraseClient` is END_FOR_ERASURE and the erasure it precedes.
  datatype Command =
    | Insert(id: nat, row: Booking)
    | ExpireDue
    | OnRow(id: nat, st: Statement)
    | EraseClient(client: nat, at: Option<int>)

  /** The statements that name one booking. */
  predicate ByRow(st: Statement) {
    !st.Expire? && !st.EndForErasure?
  }

  /** A new booking is never an erased client's, and takes an id of its own. */
  predicate Insertable(t: Table, id: nat, row: Booking) {
    id !in t.rows && Born(row) && row.client !in t.erased
  }

  function Exec(t: Table, c: Command, now: int): Table {
    match c
    case Insert(id, row) =>
      if Insertable(t, id, row) then t.(rows := t.rows[id := row]) else t
    case ExpireDue =>
      t.(rows := map id | id in t.rows :: Apply(t.rows[id], Expire, now, t.rows[id].client in t.erased))
    case OnRow(id, st) =>
      if id in t.rows && ByRow(st)
      then t.(rows := t.rows[id := Apply(t.rows[id], st, now, t.rows[id].client in t.erased)])
      else t
    case EraseClient(client, at) =>
      Table(
        map id | id in t.rows ::
          if t.rows[id].client == client then Apply(t.rows[id], EndForErasure(at), now, false) else t.rows[id],
        t.erased + {client})
  }

  datatype Timed = Timed(command: Command, now: int)

  function Run(t: Table, steps: seq<Timed>): Table {
    if steps == [] then t
    else
      var last := steps[|steps| - 1];
      Exec(Run(t, steps[..|steps| - 1]), last.command, last.now)
  }

  /** The table as the program holds it: each method is one statement. */
  class Store {
    var rows: map<nat, Booking>
    var erased: set<nat>

    ghost function State(): Table
      reads this
    {
      Table(rows, erased)
    }

    constructor ()
      ensures State() == Table(map[], {})
    {
      rows := map[];
      erased := {};
    }

    method Place(id: nat, row: Booking) returns (placed: bool)
      requires Born(row)
      modifies this
      ensures placed == Insertable(old(State()), id, row)
      ensures State() == Exec(old(State()), Insert(id, row), 0)
    {
      placed := id !in rows && row.client !in erased;
      if placed {
        rows := rows[id := row];
      }
    }

    /** Returns the ids the statement returned: the rows it expired. */
    method SweepExpired(now: int) returns (gone: set<nat>)
      modifies this
      ensures State() == Exec(old(State()), ExpireDue, now)
      ensures forall id :: id in gone <==>
                id in old(rows) && Expiring(old(rows)[id].status) && Lapsed(old(rows)[id], now)
    {
      gone := set id | id in rows && Expiring(rows[id].status) && Lapsed(rows[id], now);
      rows := map id | id in rows :: if id in gone then SetStatus(rows[id], Expired) else rows[id];
    }

    /** A qualified update of one row: `changed` is whether it returned a row. */
    method Execute(id: nat, st: Statement, now: int) returns (changed: bool)
      requires ByRow(st)
      modifies this
      ensures State() == Exec(old(State()), OnRow(id, st), now)
      ensures changed <==> id in old(rows) && Matches(old(rows)[id], st, now, old(rows)[id].client in erased)
    {
      changed := id in rows && Matches(rows[id], st, now, rows[id].client in erased);
      if changed {
        rows := rows[id := Written(rows[id], st, now)];
      }
    }

    /** Returns the ids the statement returned: the client's live bookings, each ended. */
    method Erase(client: nat, at: Option<int>, now: int) returns (ended: set<nat>)
      modifies this
      ensures State() == Exec(old(State()), EraseClient(client, at), now)
      ensures forall id :: id in ended <==>
                id in old(rows) && old(rows)[id].client == client
                && Live(old(rows)[id], if at.Some? then at.value else now)
      ensures forall id :: id in ended ==> id in rows && Refunding(rows[id].status)
    {
      ended := set id | id in rows && rows[id].client == client
                        && Live(rows[id], if at.Some? then at.value else now);
      forall id | id in rows && rows[id].client == client
        ensures Apply(rows[id], EndForErasure(at), now, false) == if id in ended then Ended(rows[id]) else rows[id]
      {
        ErasureWrites(rows[id], at, now);
      }
      rows := map id | id in rows :: if id in ended then Ended(rows[id]) else rows[id];
      erased := erased + {client};
    }
  }

  function Ended(b: Booking): Booking {
    SetStatus(b, if b.status == AwaitingPayment then Expired else CancelledByMerchant)
  }

  lemma {:induction false} ErasureWrites(b: Booking, at: Option<int>, now: int)
    ensures
      Apply(b, EndForErasure(at), now, false)
      == if Live(b, if at.Some? then at.value else now) then Ended(b) else b
  {
  }

  // ---- An erasure is for good ----

  /** Nothing of the row is still to come at `c`: no statement whose clock is at or after `c` can
   make it live. */
  predicate Quiet(b: Booking, c: int) {
    && (b.status in {Confirmed, Completed} ==> b.startsAt <= c)
    && (Expiring(b.status) ==> !Holds(b, c))
  }

  /** A finished appointment has started: what TRANSITION's past_only keeps while clocks are in order. */
  predicate FinishedHasStarted(t: Table, c: int) {
    forall id :: id in t.rows && t.rows[id].status == Completed ==> t.rows[id].startsAt <= c
  }

  lemma {:induction false} StatementFinishesStarted(b: Booking, st: Statement, now: int, erased: bool, c: int)
    requires now <= c && (b.status == Completed ==> b.startsAt <= c)
    ensures
      var after := Apply(b, st, now, erased);
      after.status == Completed ==> after.startsAt <= c
  {
  }

  lemma {:induction false} StepFinishesStarted(t: Table, command: Command, now: int, c: int)
    requires FinishedHasStarted(t, c) && now <= c
    ensures FinishedHasStarted(Exec(t, command, now), c)
  {
    forall id | id in t.rows
      ensures var after := Apply(t.rows[id], Expire, now, t.rows[id].client in t.erased);
              after.status == Completed ==> after.startsAt <= c
    {
      StatementFinishesStarted(t.rows[id], Expire, now, t.rows[id].client in t.erased, c);
    }
    if command.OnRow? && command.id in t.rows {
      StatementFinishesStarted(t.rows[command.id], command.st, now, t.rows[command.id].client in t.erased, c);
    }
  }

  lemma {:induction false} RunFinishedHasStarted(t: Table, steps: seq<Timed>, c: int)
    requires FinishedHasStarted(t, c)
    requires forall i :: 0 <= i < |steps| ==> steps[i].now <= c
    ensures FinishedHasStarted(Run(t, steps), c)
  {
    if steps != [] {
      var last := steps[|steps| - 1];
      RunFinishedHasStarted(t, steps[..|steps| - 1], c);
      StepFinishesStarted(Run(t, steps[..|steps| - 1]), last.command, last.now, c);
    }
  }

  predicate ClientQuiet(t: Table, client: nat, c: int) {
    && client in t.erased
    && forall id :: id in t.rows && t.rows[id].client == client ==> Quiet(t.rows[id], c)
  }

  lemma {:induction false} StatementKeepsQuiet(b: Booking, st: Statement, now: int, c: int)
    requires Quiet(b, c) && c <= now
    ensures Quiet(Apply(b, st, now, true), c)
    ensures Apply(b, st, now, true).client == b.client
  {
  }

  lemma {:induction false} RunKeepsClientQuiet(t: Table, client: nat, c: int, steps: seq<Timed>)
    requires ClientQuiet(t, client, c)
    requires forall i :: 0 <= i < |steps| ==> c <= steps[i].now
    ensures ClientQuiet(Run(t, steps), client, c)
  {
    if steps != [] {
      var before := Run(t, steps[..|steps| - 1]);
      var last := steps[|steps| - 1];
      RunKeepsClientQuiet(t, client, c, steps[..|steps| - 1]);
      forall id | id in before.rows && before.rows[id].client == client
        ensures Quiet(Apply(before.rows[id], Expire, last.now, true), c)
      {
        StatementKeepsQuiet(before.rows[id], Expire, last.now, c);
      }
      if last.command.OnRow? && last.command.id in before.rows
         && before.rows[last.command.id].client == client {
        StatementKeepsQuiet(before.rows[last.command.id], last.command.st, last.now, c);
      }
    }
  }

  /**
   In any run, whatever came before the erasure of a client with a clock not past the erasure's,
   and whatever comes after it with a clock not before the erasure's, the erased client never has
   a live booking again, at any moment. A re-applied erasure (`at`) names a time in the past.
   */
  lemma {:induction false} ErasureIsForGood(before: seq<Timed>, client: nat, at: Option<int>, c: int, after: seq<Timed>)
    requires forall i :: 0 <= i < |before| ==> before[i].now <= c
    requires forall i :: 0 <= i < |after| ==> c <= after[i].now
    requires at.Some? ==> at.value <= c
    ensures
      var end := Run(Exec(Run(Table(map[], {}), before), EraseClient(client, at), c), after);
      forall id, m :: id in end.rows && end.rows[id].client == client && c <= m ==> !Live(end.rows[id], m)
  {
    var start := Run(Table(map[], {}), before);
    RunFinishedHasStarted(Table(map[], {}), before, c);
    var erased := Exec(start, EraseClient(client, at), c);
    assert ClientQuiet(erased, client, c);
    RunKeepsClientQuiet(erased, client, c, after);
  }

  /**
   Out of order clocks break it, and only in one way: a statement whose clock `n` is behind the
   erasure's `c` revives the client exactly when it accepts, or takes the payment of, a hold that
   still ran at `n`, and what it writes reaches past `c`.
   */
  lemma {:induction false} LateClockRevives(b: Booking, st: Statement, n: int, c: int)
    requires Quiet(b, c)
    ensures !Quiet(Apply(b, st, n, true), c) <==>
            && Matches(b, st, n, true) && Expiring(b.status) && Holds(b, n)
            && match st {
                 case Transition(target, _) => target.ToConfirmed? && b.startsAt > c
                 case Paid(ttlHours, _) => if b.autoConfirm then b.startsAt > c else n + ttlHours * HOUR > c
                 case _ => false
               }
  {
  }

  // A request for a later day whose hold runs out at 50.
  const HELD := Booking(1, 1, 1, 1000, 2000, Pending, Some(50), false, 0, 0, Some(1000), Some(1000), 2, 0, [Created])

  /** It happens: the hold has run out when the erasure runs at 100, so nothing ends it; then a merchant's
   acceptance that opened its transaction at 40 takes the lock. */
  lemma {:induction false} ALateAcceptanceRevives()
    ensures
      var accepted := Timed(OnRow(7, Transition(ToConfirmed, None)), 40);
      var steps := [Timed(Insert(7, HELD), 0), Timed(EraseClient(1, None), 100), accepted];
      var end := Run(Table(map[], {}), steps);
      1 in end.erased && 7 in end.rows && end.rows[7].client == 1 && Live(end.rows[7], 100)
  {
    var t := Table(map[], {});
    var placed, erased := Timed(Insert(7, HELD), 0), Timed(EraseClient(1, None), 100);
    var accepted := Timed(OnRow(7, Transition(ToConfirmed, None)), 40);
    assert [placed][..0] == [] && [placed, erased][..1] == [placed];
    assert [placed, erased, accepted][..2] == [placed, erased];
    var one := Table(map[7 := HELD], {});
    assert Run(t, [placed]) == Exec(t, placed.command, 0) == one;
    var two := Exec(one, erased.command, 100);
    assert two.rows[7] == HELD && two.erased == {1};
    assert Run(t, [placed, erased]) == two;
    assert Run(t, [placed, erased, accepted]) == Exec(two, accepted.command, 40);
  }

  /** What an erasure leaves live at its own clock: exactly the bookings its `at`, if it lies after
   the clock, does not count as live. So an `at` in the past leaves none. */
  lemma {:induction false} ErasureEndsAllLive(b: Booking, at: Option<int>, now: int)
    ensures Live(Apply(b, EndForErasure(at), now, false), now) <==>
            Live(b, now) && at.Some? && at.value > now && !Live(b, at.value)
  {
  }
}
