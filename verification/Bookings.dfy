/**
 The booking row and the SQL statements that write it. Every statement is one guarded update: it
 either changes the row it names or matches no row at all. `now` is the clock of the statement's
 transaction, which may run behind the order in which transactions take the tenant lock.
 */
module Bookings {
  import opened Prelude

  datatype Status =
    | AwaitingPayment | Pending | Confirmed | Declined | Expired
    | CancelledByMerchant | CancelledByClient | Completed | NoShow

  // What the history of one booking keeps (booking_events), as far as money and moves read it.
  datatype Event =
    | Created
    | Became(status: Status)
    | Moved
    | ClientCancelled(refundPct: nat)
    | PaymentLanded(payment: nat)
    | RefundSent(amount: nat)

  datatype Booking = Booking(
    client: nat,
    worker: nat,
    service: nat,
    startsAt: int,
    endsAt: int,
    status: Status,
    expiresAt: Option<int>,
    autoConfirm: bool,
    freeHours: nat,
    cutoffHours: nat,
    originalStartsAt: Option<int>,
    earliestStartsAt: Option<int>,
    maxReschedules: nat,
    rescheduleCount: nat,
    events: seq<Event>)

  const PENDING_MOVES := 3
  const AWAITING_PAYMENT_TTL := 30 * MINUTE

  /** The statuses that hold a worker's time. */
  predicate Occupying(s: Status) {
    s in {AwaitingPayment, Pending, Confirmed, Completed}
  }

  /** The occupying statuses whose hold runs out. */
  predicate Expiring(s: Status) {
    s in {AwaitingPayment, Pending}
  }

  /** The endings after which what was paid goes back. */
  predicate Refunding(s: Status) {
    s in {Declined, Expired, CancelledByMerchant, CancelledByClient}
  }

  /** SQL's `expires_at > now()`: no row without a deadline matches. */
  predicate Holds(b: Booking, now: int) {
    b.expiresAt.Some? && b.expiresAt.value > now
  }

  /** SQL's `expires_at <= now()`. */
  predicate Lapsed(b: Booking, now: int) {
    b.expiresAt.Some? && b.expiresAt.value <= now
  }

  /** What an erasure counts as live: still to come, or a hold still running. */
  predicate Live(b: Booking, now: int) {
    (b.status == Confirmed && b.startsAt > now) || (Expiring(b.status) && Holds(b, now))
  }

  datatype Target = ToConfirmed | ToDeclined | ToCancelledByMerchant | ToCompleted | ToNoShow

  /** The status each merchant target writes, the ones it may leave, and whether the appointment
   must have started. */
  function TargetStatus(t: Target): Status {
    match t
    case ToConfirmed => Confirmed
    case ToDeclined => Declined
    case ToCancelledByMerchant => CancelledByMerchant
    case ToCompleted => Completed
    case ToNoShow => NoShow
  }

  function Sources(t: Target): set<Status> {
    match t
    case ToConfirmed => {Pending, Completed}
    case ToDeclined => {Pending}
    case ToCancelledByMerchant => {Pending, Confirmed, Completed}
    case ToCompleted => {Confirmed}
    case ToNoShow => {Confirmed, Completed}
  }

  predicate PastOnly(t: Target) {
    t.ToCompleted? || t.ToNoShow?
  }

  function SetStatus(b: Booking, s: Status): Booking {
    b.(status := s, events := b.events + [Became(s)])
  }

  // One constructor per statement, with what the statement is given beside its clock.
  datatype Statement =
    | Expire                                            // EXPIRE
    | ExpireOne                                         // EXPIRE_ONE
    | Paid(ttlHours: nat, payment: nat)                 // PAID
    | Transition(target: Target, seen: Option<int>)     // TRANSITION
    | ClientCancel(refundPct: nat)                      // CLIENT_CANCEL
    | Reschedule(start: int, seenCount: nat)            // RESCHEDULE
    | PendingMove(start: int)                           // PENDING_MOVE
    | Move(start: int, worker: nat)                     // MOVE
    | EndForErasure(at: Option<int>)                    // END_FOR_ERASURE

  /** The statement's WHERE clause on one row. `erased` says the row's client is erased. */
  predicate Matches(b: Booking, st: Statement, now: int, erased: bool) {
    match st
    case Expire => Expiring(b.status) && Lapsed(b, now)
    case ExpireOne => b.status == AwaitingPayment
    case Paid(_, _) => b.status == AwaitingPayment && Holds(b, now)
    case Transition(target, seen) =>
      && b.status in Sources(target)
      && (!Expiring(b.status) || Holds(b, now))
      && (!PastOnly(target) || b.startsAt <= now)
      && (seen.None? || b.startsAt == seen.value)
    case ClientCancel(_) =>
      b.startsAt > now && (b.status == Confirmed || (b.status == Pending && Holds(b, now)))
    case Reschedule(_, seenCount) => b.status == Confirmed && b.rescheduleCount == seenCount && !erased
    case PendingMove(_) => b.status == Pending && Holds(b, now) && b.startsAt > now && !erased
    case Move(_, _) => b.status == Confirmed && !erased
    case EndForErasure(at) => Live(b, if at.Some? then at.value else now)
  }

  /** SQL's LEAST(earliest_starts_at, :new), which ignores a NULL. */
  function Least(earliest: Option<int>, start: int): Option<int> {
    if earliest.Some? then Some(Min(earliest.value, start)) else Some(start)
  }

  /** The statement's SET clause, and the event its transaction writes. */
  function Written(b: Booking, st: Statement, now: int): Booking {
    match st
    case Expire => SetStatus(b, Expired)
    case ExpireOne => SetStatus(b, Expired)
    case Paid(ttlHours, payment) =>
      b.(status := if b.autoConfirm then Confirmed else Pending,
         expiresAt := if b.autoConfirm then None else Some(now + ttlHours * HOUR),
         events := b.events + [PaymentLanded(payment)])
    case Transition(target, _) => SetStatus(b, TargetStatus(target))
    case ClientCancel(refundPct) =>
      b.(status := CancelledByClient, events := b.events + [ClientCancelled(refundPct)])
    case Reschedule(start, _) =>
      b.(startsAt := start, endsAt := start + (b.endsAt - b.startsAt),
         earliestStartsAt := Least(b.earliestStartsAt, start),
         rescheduleCount := b.rescheduleCount + 1,
         events := b.events + [Moved])
    case PendingMove(start) =>
      b.(startsAt := start, endsAt := start + (b.endsAt - b.startsAt),
         originalStartsAt := Some(start), earliestStartsAt := Some(start),
         events := b.events + [Moved])
    case Move(start, worker) =>
      b.(startsAt := start, endsAt := start + (b.endsAt - b.startsAt), worker := worker,
         earliestStartsAt := Least(b.earliestStartsAt, start),
         events := b.events + [Moved])
    case EndForErasure(_) =>
      SetStatus(b, if b.status == AwaitingPayment then Expired else CancelledByMerchant)
  }

  function Apply(b: Booking, st: Statement, now: int, erased: bool): Booking {
    if Matches(b, st, now, erased) then Written(b, st, now) else b
  }

  /** A row as INSERT_BOOKING writes it. */
  predicate Born(b: Booking) {
    && b.status in {AwaitingPayment, Pending, Confirmed}
    && (Expiring(b.status) ==> b.expiresAt.Some?)
    && b.startsAt < b.endsAt
    && b.originalStartsAt == Some(b.startsAt) && b.earliestStartsAt == Some(b.startsAt)
    && b.rescheduleCount == 0
    && b.events == [Created]
  }

  /** How many `Moved` events the row has: what a link's `moves` counts. */
  function Moves(events: seq<Event>): nat {
    if events == [] then 0
    else Moves(events[..|events| - 1]) + if events[|events| - 1].Moved? then 1 else 0
  }

  // ---- What every statement keeps ----

  /** No statement makes a status occupying that was not, and an ending that refunds is final:
   neither it nor the row's history changes again. */
  lemma {:induction false} EndingsStand(b: Booking, st: Statement, now: int, erased: bool)
    ensures Occupying(Apply(b, st, now, erased).status) ==> Occupying(b.status)
    ensures Refunding(b.status) ==> Apply(b, st, now, erased) == b
    ensures b.status == NoShow ==> Apply(b, st, now, erased) == b
  {
    match st
    case Transition(target, _) =>
      assert Refunding(b.status) || b.status == NoShow ==> b.status !in Sources(target);
      assert Matches(b, st, now, erased) ==> Occupying(b.status);
    case _ =>
  }

  /** A checkout is left once: no statement returns a row to awaiting_payment, and pending is
   reached only from it. */
  lemma {:induction false} CheckoutIsLeftOnce(b: Booking, st: Statement, now: int, erased: bool)
    ensures Apply(b, st, now, erased).status == AwaitingPayment ==> Apply(b, st, now, erased) == b
    ensures Apply(b, st, now, erased).status == Pending && b.status != Pending
            ==> st.Paid? && b.status == AwaitingPayment && Holds(b, now)
  {
  }

  // ---- What a statement may do, whatever it is ----

  /** Every change of status there is. */
  const CHANGES: set<(Status, Status)> := {
    (AwaitingPayment, Pending), (AwaitingPayment, Confirmed), (AwaitingPayment, Expired),
    (Pending, Confirmed), (Pending, Declined), (Pending, Expired),
    (Pending, CancelledByMerchant), (Pending, CancelledByClient),
    (Confirmed, CancelledByMerchant), (Confirmed, CancelledByClient), (Confirmed, Completed), (Confirmed, NoShow),
    (Completed, Confirmed), (Completed, CancelledByMerchant), (Completed, NoShow)}

  // A row whose appointment and hold are still to come at 0, and a past one.
  function Ahead(s: Status, autoConfirm: bool): Booking {
    Booking(0, 0, 0, 1, 2, s, Some(1), autoConfirm, 0, 0, Some(1), Some(1), 0, 0, [Created])
  }

  /** A statement that makes this change, and the row and clock at which it does. */
  function Maker(from: Status, to: Status): (r: (Booking, Statement, int)) {
    if from == AwaitingPayment && to != Expired then (Ahead(from, to == Confirmed), Paid(1, 0), 0)
    else if to == Expired then (Ahead(from, false), Expire, 1)
    else if to == CancelledByClient then (Ahead(from, false), ClientCancel(0), 0)
    else
      var target := match to
        case Declined => ToDeclined
        case CancelledByMerchant => ToCancelledByMerchant
        case Completed => ToCompleted
        case NoShow => ToNoShow
        case _ => ToConfirmed;
      (Ahead(from, false), Transition(target, None), if PastOnly(target) then 1 else 0)
  }

  /** A change of status happens, by some statement on some row, exactly when it is one of these. */
  lemma {:induction false} ChangesExactly(from: Status, to: Status)
    requires from != to
    ensures
      (exists b: Booking, st: Statement, now: int, erased: bool ::
         b.status == from && Apply(b, st, now, erased).status == to)
      <==> (from, to) in CHANGES
  {
    if b: Booking, st: Statement, now: int, erased: bool :|
      b.status == from && Apply(b, st, now, erased).status == to
    {
      StatusMoves(b, st, now, erased);
    }
    if (from, to) in CHANGES {
      MakerMakes(from, to);
      var m := Maker(from, to);
      assert m.0.status == from && Apply(m.0, m.1, m.2, false).status == to;
    }
  }

  lemma {:induction false} MakerMakes(from: Status, to: Status)
    requires (from, to) in CHANGES
    ensures
      var m := Maker(from, to);
      m.0.status == from && Apply(m.0, m.1, m.2, false).status == to
  {
    match from {
      case AwaitingPayment =>
      case Pending =>
      case Confirmed =>
      case Completed =>
    }
  }

  lemma {:induction false} StatusMoves(b: Booking, st: Statement, now: int, erased: bool)
    ensures
      var after := Apply(b, st, now, erased).status;
      after == b.status || (b.status, after) in CHANGES
  {
    if st.Transition? { assert b.status in Sources(st.target) ==> (b.status, TargetStatus(st.target)) in CHANGES; }
  }

  /** A statement that matches does what it is named for, to the time, the worker and the hold, and
   leaves the rest of what was agreed as it was. */
  lemma {:induction false} NothingElseChanges(b: Booking, st: Statement, now: int, erased: bool)
    requires Matches(b, st, now, erased)
    ensures
      var after := Apply(b, st, now, erased);
      && after.endsAt - after.startsAt == b.endsAt - b.startsAt
      && after.startsAt == (match st
                            case Reschedule(start, _) => start
                            case PendingMove(start) => start
                            case Move(start, _) => start
                            case _ => b.startsAt)
      && after.worker == (if st.Move? then st.worker else b.worker)
      && (after.expiresAt != b.expiresAt ==> st.Paid?)
      && (after.status == b.status <==> st.Reschedule? || st.PendingMove? || st.Move?)
      && |after.events| == |b.events| + 1 && after.events[..|b.events|] == b.events
      && after == b.(startsAt := after.startsAt, endsAt := after.endsAt, worker := after.worker,
                     status := after.status, expiresAt := after.expiresAt, events := after.events,
                     originalStartsAt := after.originalStartsAt, earliestStartsAt := after.earliestStartsAt,
                     rescheduleCount := after.rescheduleCount)
  {
    assert Written(b, st, now).events[..|b.events|] == b.events;
  }

  /** A merchant who names the start that was on the screen changes no booking that has been moved since. */
  lemma {:induction false} ATransitionIsOfWhatWasSeen(b: Booking, target: Target, seen: int, now: int, erased: bool)
    requires b.startsAt != seen
    ensures Apply(b, Transition(target, Some(seen)), now, erased) == b
  {
  }

  /** A merchant's transition reaches exactly the status asked for. */
  lemma {:induction false} ATransitionIsToItsTarget(b: Booking, seen: Option<int>, now: int, erased: bool)
    ensures Apply(b, Transition(ToConfirmed, seen), now, erased) == b
            || Apply(b, Transition(ToConfirmed, seen), now, erased).status == Confirmed
    ensures Apply(b, Transition(ToDeclined, seen), now, erased) == b
            || Apply(b, Transition(ToDeclined, seen), now, erased).status == Declined
    ensures Apply(b, Transition(ToCancelledByMerchant, seen), now, erased) == b
            || Apply(b, Transition(ToCancelledByMerchant, seen), now, erased).status == CancelledByMerchant
    ensures Apply(b, Transition(ToCompleted, seen), now, erased) == b
            || Apply(b, Transition(ToCompleted, seen), now, erased).status == Completed
    ensures Apply(b, Transition(ToNoShow, seen), now, erased) == b
            || Apply(b, Transition(ToNoShow, seen), now, erased).status == NoShow
  {
  }
}
