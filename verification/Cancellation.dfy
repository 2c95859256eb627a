/** The cancellation rule engine, and what a booking link lets a client do with it. */
module Cancellation {
  import opened Prelude
  import opened Bookings

  datatype Decision = Decision(
    canCancel: bool, canReschedule: bool, refundPct: nat, reschedulesLeft: nat)

  function Decide(b: Booking, now: int): Decision {
    var lead := b.startsAt - now;
    if lead <= 0 then Decision(false, false, 0, 0)
    else
      var anchor := if b.earliestStartsAt.Some? then b.earliestStartsAt.value else b.startsAt;
      var refundPct := if anchor - now >= b.freeHours * HOUR then 100 else 0;
      var left := Max(b.maxReschedules - b.rescheduleCount, 0);
      var canReschedule := lead >= b.cutoffHours * HOUR && left > 0 && b.originalStartsAt.Some?;
      Decision(true, canReschedule, refundPct, if canReschedule then left else 0)
  }

  /** The decision a link shows: a pending request is cancelled in full and moved at most
   PENDING_MOVES times, whatever the engine says of its lead. */
  function LinkDecide(b: Booking, paid: bool, now: int): Decision {
    var d := Decide(b, now);
    if b.status != Pending then d
    else
      var left := if d.canCancel then PENDING_MOVES - Moves(b.events) else 0;
      Decision(d.canCancel, left > 0, if paid then 100 else 0, Max(left, 0))
  }

  /** A link is live only before the start of a confirmed booking or a request still held. */
  predicate LinkLive(b: Booking, now: int) {
    b.startsAt > now && (b.status == Confirmed || (b.status == Pending && Holds(b, now)))
  }

  /** The statement a client's cancel runs, if its terms are the ones the client was shown. */
  function CancelStatement(b: Booking, paid: bool, shownPct: nat, now: int): Option<Statement> {
    var d := LinkDecide(b, paid, now);
    if LinkLive(b, now) && d.canCancel && shownPct == d.refundPct
    then Some(ClientCancel(d.refundPct))
    else None
  }

  /** The statement a client's move runs: the echo of what the client was shown must still hold. */
  function MoveStatement(b: Booking, start: int, echo: nat, seenStart: Option<int>, now: int)
    : Option<Statement>
  {
    if !(LinkLive(b, now) && LinkDecide(b, false, now).canReschedule) then None
    else if b.status == Pending then
      if seenStart == Some(b.startsAt) then Some(PendingMove(start)) else None
    else
      if echo == b.rescheduleCount then Some(Reschedule(start, echo)) else None
  }

  /** A client's cancel runs exactly when its statement would find the row at this clock and the terms
   shown are today's; so it never reaches a row that has moved on. */
  lemma {:induction false} CancelLands(b: Booking, paid: bool, shownPct: nat, now: int, erased: bool)
    ensures
      CancelStatement(b, paid, shownPct, now) == Some(ClientCancel(shownPct))
      <==> Matches(b, ClientCancel(shownPct), now, erased) && shownPct == LinkDecide(b, paid, now).refundPct
    ensures
      var st := CancelStatement(b, paid, shownPct, now);
      st.Some? ==> st == Some(ClientCancel(shownPct))
  {
  }

  /** A client's move that passes the link's checks finds its row, unless the client is erased. */
  lemma {:induction false} MoveLands(b: Booking, start: int, echo: nat, seenStart: Option<int>, now: int, erased: bool)
    ensures
      var st := MoveStatement(b, start, echo, seenStart, now);
      st.Some? ==> (Matches(b, st.value, now, erased) <==> !erased)
  {
  }
}
