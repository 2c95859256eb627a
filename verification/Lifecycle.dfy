/**
 One booking over whole runs: what a client may still get back, how often the client may move it,
 and that an ending is final.
 */
module Lifecycle {
  import opened Prelude
  import opened Bookings
  import opened Cancellation

  // What can happen to a booking: the client's two link routes, or any statement no link runs.
  datatype Action =
    | LinkCancel(paid: bool, shownPct: nat)
    | LinkMove(start: int, echo: nat, seenStart: Option<int>)
    | Other(st: Statement)

  predicate ClientStatement(st: Statement) {
    st.ClientCancel? || st.Reschedule? || st.PendingMove?
  }

  // `statement` is what the action runs; None when the route refuses first.
  function Chosen(b: Booking, a: Action, now: int): Option<Statement> {
    match a
    case LinkCancel(paid, shownPct) => CancelStatement(b, paid, shownPct, now)
    case LinkMove(start, echo, seenStart) => MoveStatement(b, start, echo, seenStart, now)
    case Other(st) => if ClientStatement(st) then None else Some(st)
  }

  function Step(b: Booking, a: Action, now: int, erased: bool): Booking {
    var st := Chosen(b, a, now);
    if st.Some? then Apply(b, st.value, now, erased) else b
  }

  datatype Timed = Timed(action: Action, now: int, erased: bool)

  /** The row after a run, its steps in lock order. */
  function Run(b: Booking, steps: seq<Timed>): Booking {
    if steps == [] then b
    else
      var before := Run(b, steps[..|steps| - 1]);
      var last := steps[|steps| - 1];
      Step(before, last.action, last.now, last.erased)
  }

  // ---- What the client gets back ----

  /** The start refunds are counted from: the lowest recorded, else today's. */
  function Anchor(b: Booking): int {
    if b.earliestStartsAt.Some? then b.earliestStartsAt.value else b.startsAt
  }

  /** A recorded anchor is never past the current start (a CHECK of migration 0029). Rows older than
   the column have none recorded. */
  predicate AnchorOk(b: Booking) {
    b.earliestStartsAt.Some? ==> b.earliestStartsAt.value <= b.startsAt
  }

  /** What a booking past its holds keeps from one state to a later one. */
  predicate AnchorFalls(early: Booking, late: Booking) {
    && AnchorOk(late)
    && (early.earliestStartsAt.Some? ==> late.earliestStartsAt.Some? && Anchor(late) <= Anchor(early))
    && late.freeHours == early.freeHours
    && (late.earliestStartsAt.None? ==> late.startsAt == early.startsAt)
  }

  lemma {:induction false} StepKeepsAnchor(b: Booking, a: Action, now: int, erased: bool)
    requires AnchorOk(b) && !Expiring(b.status)
    ensures AnchorFalls(b, Step(b, a, now, erased))
    ensures !Expiring(Step(b, a, now, erased).status)
  {
  }

  lemma {:induction false} RunKeepsAnchor(b: Booking, steps: seq<Timed>)
    requires AnchorOk(b) && !Expiring(b.status)
    ensures AnchorFalls(b, Run(b, steps)) && !Expiring(Run(b, steps).status)
  {
    if steps != [] {
      var last := steps[|steps| - 1];
      RunKeepsAnchor(b, steps[..|steps| - 1]);
      StepKeepsAnchor(Run(b, steps[..|steps| - 1]), last.action, last.now, last.erased);
    }
  }

  /** No free-cancellation hours, and a later start than the anchor the booking is read at. */
  predicate Corner(b: Booking, after: Booking) {
    b.freeHours == 0 && b.startsAt == Anchor(after) < after.startsAt
  }

  lemma {:induction false} PctIs(b: Booking, now: int)
    ensures
      Decide(b, now).refundPct
      == if b.startsAt > now && Anchor(b) - now >= b.freeHours * HOUR then 100 else 0
  {
  }

  /**
   Once a booking no longer waits for a payment or an answer, whatever moves, restores and settlements
   happen between two looks, the later look refunds more exactly
   - where the anchor did not rise: with no free-cancellation hours, both looks at the very instant of
     the booking's start, and a move to later by a transaction with the same clock between them;
   - where it did: in time for the new anchor and not for the old one.
   A recorded anchor never rises.
   */
  lemma {:induction false} RefundNeverRises(b: Booking, steps: seq<Timed>, early: int, late: int)
    requires AnchorOk(b) && !Expiring(b.status) && early <= late
    ensures
      var after := Run(b, steps);
      && (b.earliestStartsAt.Some? ==> Anchor(after) <= Anchor(b))
      && (Decide(after, late).refundPct > Decide(b, early).refundPct
          <==> if Anchor(after) <= Anchor(b) then Corner(b, after) && early == late == b.startsAt
               else && late < after.startsAt && Anchor(after) - late >= b.freeHours * HOUR
                    && (b.startsAt <= early || b.startsAt - early < b.freeHours * HOUR))
  {
    RunKeepsAnchor(b, steps);
    var after := Run(b, steps);
    PctIs(b, early);
    PctIs(after, late);
    var free := b.freeHours * HOUR;
    assert free >= 0 && (free == 0 <==> b.freeHours == 0);
    assert Anchor(b) <= b.startsAt && Anchor(after) <= after.startsAt;
  }

  /** A pair of looks at which a raised anchor refunds more: the last instant free under the new one. */
  lemma {:induction false} ARaisedAnchorRefundsMore(b: Booking, steps: seq<Timed>)
    requires AnchorOk(b) && !Expiring(b.status) && Anchor(Run(b, steps)) > Anchor(b)
    ensures
      var after := Run(b, steps);
      exists look: int :: Decide(after, look).refundPct > Decide(b, look).refundPct
  {
    RunKeepsAnchor(b, steps);
    var after := Run(b, steps);
    var free := b.freeHours * HOUR;
    var look := if free == 0 then b.startsAt else Anchor(after) - free;
    RefundNeverRises(b, steps, look, look);
    assert Decide(after, look).refundPct > Decide(b, look).refundPct;
  }

  /**
   Some later look refunds more exactly when the run raises the anchor, or in the corner above. Only a
   row without a recorded anchor can have it raised: by a first move to later than its start that no move
   takes back.
   */
  lemma {:induction false} RefundCanRiseExactly(b: Booking, steps: seq<Timed>)
    requires AnchorOk(b) && !Expiring(b.status)
    ensures
      var after := Run(b, steps);
      && ((exists early: int, late: int :: early <= late && Decide(after, late).refundPct > Decide(b, early).refundPct)
          <==> Anchor(after) > Anchor(b) || Corner(b, after))
      && (Anchor(after) > Anchor(b) ==> b.earliestStartsAt.None? && after.earliestStartsAt.Some?)
  {
    RunKeepsAnchor(b, steps);
    var after := Run(b, steps);
    if early: int, late: int :| early <= late && Decide(after, late).refundPct > Decide(b, early).refundPct {
      RefundNeverRises(b, steps, early, late);
    }
    if Anchor(after) > Anchor(b) {
      ARaisedAnchorRefundsMore(b, steps);
    } else if Corner(b, after) {
      RefundNeverRises(b, steps, b.startsAt, b.startsAt);
    }
  }

  /** The exception above happens: a move and its second look share the clock of the start. */
  lemma {:induction false} RefundCanRiseAtTheStart()
    ensures exists b: Booking, steps: seq<Timed> ::
              && Born(b) && b.status == Confirmed
              && (forall i :: 0 <= i < |steps| ==> steps[i].now == b.startsAt)
              && Decide(b, b.startsAt).refundPct == 0
              && Decide(Run(b, steps), b.startsAt).refundPct == 100
  {
    var b := Booking(1, 1, 1, 10 * HOUR, 11 * HOUR, Confirmed, None, true, 0, 0,
                     Some(10 * HOUR), Some(10 * HOUR), 2, 0, [Created]);
    var steps := [Timed(Other(Move(20 * HOUR, 1)), 10 * HOUR, false)];
    assert steps[..0] == [];
    assert Run(b, steps[..0]) == b;
    assert Run(b, steps) == Written(b, Move(20 * HOUR, 1), 10 * HOUR);
    assert Born(b);
  }

  /** A row older than the anchor column has no anchor recorded, and its first move to a later time
   by the merchant raises what the client gets back. */
  lemma {:induction false} RefundCanRiseOnARowWithoutAnchor()
    ensures exists b: Booking, now: int ::
              && b.status == Confirmed && b.earliestStartsAt == None
              && Decide(b, now).refundPct == 0
              && Decide(Step(b, Other(Move(b.startsAt + 100 * HOUR, b.worker)), now, false), now).refundPct == 100
  {
    var b := Booking(1, 1, 1, 10 * HOUR, 11 * HOUR, Confirmed, None, true, 48, 0,
                     None, None, 2, 0, [Created]);
    assert Decide(b, 0).refundPct == 0;
    assert Decide(Step(b, Other(Move(b.startsAt + 100 * HOUR, b.worker)), 0, false), 0).refundPct == 100;
  }

  // ---- How often the client may move it ----

  /** The moves of the run the client's link made, of a confirmed booking and of a request. */
  function ClientMoves(b: Booking, steps: seq<Timed>, ofPending: bool): nat {
    if steps == [] then 0
    else
      var before := Run(b, steps[..|steps| - 1]);
      var last := steps[|steps| - 1];
      ClientMoves(b, steps[..|steps| - 1], ofPending)
      + if last.action.LinkMove?
           && (before.status == Pending) == ofPending
           && Step(before, last.action, last.now, last.erased) != before
        then 1 else 0
  }

  lemma {:induction false} MovesOfOneMore(events: seq<Event>, e: Event)
    ensures Moves(events + [e]) == Moves(events) + if e.Moved? then 1 else 0
  {
    assert (events + [e])[..|events|] == events;
  }

  /** The row's counters agree with what the client's link really did. */
  predicate Counted(b: Booking, born: Booking, steps: seq<Timed>) {
    && b.rescheduleCount == ClientMoves(born, steps, false) <= b.maxReschedules
    && ClientMoves(born, steps, true) <= PENDING_MOVES
    && b.maxReschedules == born.maxReschedules
    && (Expiring(b.status) ==> Moves(b.events) == ClientMoves(born, steps, true))
  }

  /** A move adds one `Moved` event, any other statement none. */
  lemma {:induction false} StatementMoves(b: Booking, st: Statement, now: int)
    ensures
      Moves(Written(b, st, now).events)
      == Moves(b.events) + if st.Reschedule? || st.PendingMove? || st.Move? then 1 else 0
  {
    var after := Written(b, st, now);
    var e := after.events[|b.events|];
    assert after.events == b.events + [e];
    MovesOfOneMore(b.events, e);
  }

  /** What one action does to the counters. */
  lemma {:induction false} StepCounts(b: Booking, a: Action, now: int, erased: bool)
    ensures
      var after := Step(b, a, now, erased);
      var moved := a.LinkMove? && after != b;
      && after.maxReschedules == b.maxReschedules
      && after.rescheduleCount == b.rescheduleCount + (if moved && b.status != Pending then 1 else 0)
      && (moved && b.status != Pending ==> b.rescheduleCount < b.maxReschedules)
      && (moved && b.status == Pending ==> Moves(b.events) < PENDING_MOVES)
  {
    var st := Chosen(b, a, now);
    if st.Some? && Matches(b, st.value, now, erased) && a.LinkMove? {
      assert Written(b, st.value, now).events != b.events;
    }
  }

  /** Nothing becomes a hold, and only a link's move of a request moves one. */
  lemma {:induction false} HoldsAreMovedByTheLink(b: Booking, st: Statement, now: int, erased: bool)
    requires Matches(b, st, now, erased) && Expiring(Written(b, st, now).status)
    ensures Expiring(b.status) && (b.status == Pending ==> Written(b, st, now).status == Pending)
    ensures (st.Reschedule? || st.PendingMove? || st.Move?) <==> st.PendingMove?
    ensures st.PendingMove? ==> b.status == Pending
  {
  }

  /** What one action does to the history of a hold. */
  lemma {:induction false} StepCountsMoves(b: Booking, a: Action, now: int, erased: bool)
    ensures
      var after := Step(b, a, now, erased);
      var moved := a.LinkMove? && after != b;
      Expiring(after.status) ==>
        && Expiring(b.status) && (b.status == Pending ==> after.status == Pending)
        && Moves(after.events) == Moves(b.events) + (if moved then 1 else 0)
        && (moved ==> b.status == Pending)
  {
    var st := Chosen(b, a, now);
    if st.Some? && Matches(b, st.value, now, erased) && Expiring(Written(b, st.value, now).status) {
      StatementMoves(b, st.value, now);
      HoldsAreMovedByTheLink(b, st.value, now, erased);
    }
  }

  /**
   Over every run from placement the client's link moves a confirmed booking at most
   max_reschedules times, and a request at most three; the row's counter is exactly the number of
   the client's own moves, so a merchant's move spends none of the allowance.
   */
  lemma {:induction false} ClientMovesAreBounded(born: Booking, steps: seq<Timed>)
    requires Born(born)
    ensures Counted(Run(born, steps), born, steps)
  {
    if steps == [] {
      assert Moves([Created]) == Moves([Created][..0]);
    } else {
      ClientMovesAreBounded(born, steps[..|steps| - 1]);
      var last := steps[|steps| - 1];
      StepCounts(Run(born, steps[..|steps| - 1]), last.action, last.now, last.erased);
      StepCountsMoves(Run(born, steps[..|steps| - 1]), last.action, last.now, last.erased);
    }
  }

  // ---- What the link shows is what the client gets ----

  /** The last instants: to cancel, before the start; for all of the money back, as many hours before the
   anchor as the booking was sold with; to move, the cutoff before the start. */
  lemma {:induction false} Deadlines(b: Booking, now: int)
    ensures
      var d := Decide(b, now);
      && (d.canCancel <==> now < b.startsAt)
      && d.refundPct == (if now < b.startsAt && now <= Anchor(b) - b.freeHours * HOUR then 100 else 0)
      && (d.canReschedule <==> now < b.startsAt && now <= b.startsAt - b.cutoffHours * HOUR
                               && b.rescheduleCount < b.maxReschedules && b.originalStartsAt.Some?)
  {
  }

  /** A cancel through the link ends the booking on the terms shown, and on no others. */
  lemma {:induction false} ACancelPaysWhatWasShown(b: Booking, paid: bool, shownPct: nat, now: int, erased: bool)
    ensures
      var after := Step(b, LinkCancel(paid, shownPct), now, erased);
      after != b <==> LinkLive(b, now) && shownPct == LinkDecide(b, paid, now).refundPct
    ensures
      var after := Step(b, LinkCancel(paid, shownPct), now, erased);
      after != b ==> && after.status == CancelledByClient
                     && after.events == b.events + [ClientCancelled(shownPct)]
  {
    assert b.events + [ClientCancelled(shownPct)] != b.events;
  }

  /** The client's next move, with today's row echoed as the page does. */
  function NextMove(b: Booking, start: int): Action {
    LinkMove(start, b.rescheduleCount, Some(b.startsAt))
  }

  /** One after another, to these starts, at one clock. */
  function MovedTo(b: Booking, starts: seq<int>, now: int): Booking
    decreases |starts|
  {
    if starts == [] then b else MovedTo(Step(b, NextMove(b, starts[0]), now, false), starts[1..], now)
  }

  function LeftToMove(b: Booking, now: int): nat {
    LinkDecide(b, false, now).reschedulesLeft
  }

  /** Far enough ahead to be moved again. */
  predicate FarAhead(b: Booking, start: int, now: int) {
    start > now && start - now >= b.cutoffHours * HOUR
  }

  lemma {:induction false} OneMoveLeftLess(b: Booking, start: int, now: int)
    requires LinkLive(b, now) && FarAhead(b, start, now)
    ensures
      var after := Step(b, NextMove(b, start), now, false);
      if LeftToMove(b, now) == 0 then after == b
      else && after.startsAt == start && after.status == b.status && after.cutoffHours == b.cutoffHours
           && LinkLive(after, now) && LeftToMove(after, now) == LeftToMove(b, now) - 1
  {
    MovesOfOneMore(b.events, Moved);
  }

  /** The number of moves a link shows is the number the client can still make: as many go through, each to
   the start asked for, and not one more. */
  lemma {:induction false} MovesLeftAreExact(b: Booking, starts: seq<int>, now: int)
    requires LinkLive(b, now) && forall i :: 0 <= i < |starts| ==> FarAhead(b, starts[i], now)
    ensures
      var k, after := Min(|starts|, LeftToMove(b, now)), MovedTo(b, starts, now);
      && after.startsAt == (if k == 0 then b.startsAt else starts[k - 1])
      && LeftToMove(after, now) == LeftToMove(b, now) - k
    decreases |starts|
  {
    if starts != [] {
      OneMoveLeftLess(b, starts[0], now);
      MovesLeftAreExact(Step(b, NextMove(b, starts[0]), now, false), starts[1..], now);
    }
  }

  /** A request as it was placed can be moved three times, and costs nothing to cancel: what was paid for it
   goes back in full. */
  lemma {:induction false} ARequestIsTheClientsOwn(born: Booking, paid: bool, now: int)
    requires Born(born) && born.status == Pending && now < born.startsAt
    ensures LeftToMove(born, now) == 3
    ensures LinkDecide(born, paid, now).canCancel && LinkDecide(born, paid, now).refundPct == if paid then 100 else 0
  {
    assert [Created][..0] == [];
    assert Moves([Created]) == Moves([]);
  }

  /** The link moves a booking only as its page showed it: the request at the start shown, the booking with the
   moves shown. */
  lemma {:induction false} AMoveIsOfWhatWasShown(b: Booking, start: int, echo: nat, seenStart: Option<int>, now: int,
                                                 erased: bool)
    requires Step(b, LinkMove(start, echo, seenStart), now, erased) != b
    ensures b.status in {Pending, Confirmed}
    ensures if b.status == Pending then seenStart == Some(b.startsAt) else echo == b.rescheduleCount
  {
  }

  lemma {:induction false} MovesAreNotForgotten(b: Booking, steps: seq<Timed>)
    ensures Run(b, steps).rescheduleCount >= b.rescheduleCount
  {
    if steps != [] {
      var last := steps[|steps| - 1];
      MovesAreNotForgotten(b, steps[..|steps| - 1]);
      StepCounts(Run(b, steps[..|steps| - 1]), last.action, last.now, last.erased);
    }
  }

  /** So of two moves sent from one page of a confirmed booking, whatever happens in between, only one goes
   through; nor does the statement itself run a second time for it. */
  lemma {:induction false} OnePageMovesOnce(b: Booking, first: Timed, between: seq<Timed>, second: Timed)
    requires b.status == Confirmed && first.action.LinkMove? && second.action.LinkMove?
    requires first.action.echo == second.action.echo
    requires Step(b, first.action, first.now, first.erased) != b
    ensures
      var late := Run(Step(b, first.action, first.now, first.erased), between);
      late.status == Confirmed ==>
        && Step(late, second.action, second.now, second.erased) == late
        && !Matches(late, Reschedule(second.action.start, second.action.echo), second.now, second.erased)
  {
    var moved := Step(b, first.action, first.now, first.erased);
    StepCounts(b, first.action, first.now, first.erased);
    AMoveIsOfWhatWasShown(b, first.action.start, first.action.echo, first.action.seenStart, first.now, first.erased);
    MovesAreNotForgotten(moved, between);
    var late := Run(moved, between);
    if late.status == Confirmed && Step(late, second.action, second.now, second.erased) != late {
      AMoveIsOfWhatWasShown(late, second.action.start, second.action.echo, second.action.seenStart, second.now,
                            second.erased);
    }
  }

  /** What refunds are counted from after a statement: a moved request starts afresh at its new start, a moved
   booking keeps the earlier of the two, and nothing else changes it. */
  lemma {:induction false} WhatRefundsAreCountedFrom(b: Booking, st: Statement, now: int, erased: bool)
    requires Matches(b, st, now, erased)
    ensures
      Anchor(Apply(b, st, now, erased)) ==
      match st
      case PendingMove(start) => start
      case Reschedule(start, _) => if b.earliestStartsAt.Some? then Min(Anchor(b), start) else start
      case Move(start, _) => if b.earliestStartsAt.Some? then Min(Anchor(b), start) else start
      case _ => Anchor(b)
  {
  }

  // ---- What an ending sends back stays the same ----

  /** Once a booking has ended with a refund its row is final, so every settle that reads it later
   computes the same percentage. */
  lemma {:induction false} EndingIsFinal(b: Booking, steps: seq<Timed>)
    requires Refunding(b.status)
    ensures Run(b, steps) == b
  {
    if steps != [] {
      var last := steps[|steps| - 1];
      EndingIsFinal(b, steps[..|steps| - 1]);
      var st := Chosen(b, last.action, last.now);
      if st.Some? { EndingsStand(b, st.value, last.now, last.erased); }
    }
  }
}
