/**
 What the payment rows say of refunds, over every interleaving: a settled row never changes again, and
 a charge is settled only when its booking ended with a refund, with exactly what that ending owes.
 */
module CheckoutRefunds {
  import opened Prelude
  import opened Bookings
  import opened Checkout
  import opened CheckoutProtocol
  import opened CheckoutSafety

  /** Settled rows stay as they are. */
  predicate Frozen(t: Tables, t': Tables) {
    && |t.payments| <= |t'.payments|
    && forall p :: 0 <= p < |t.payments| && t.payments[p].settledAt.Some? ==> t'.payments[p] == t.payments[p]
  }

  predicate SettledCharge(t: Tables, p: nat) {
    p < |t.payments| && t.payments[p].status == PaidUp && t.payments[p].settledAt.Some?
  }

  /** Settled rows stay, and no charge is newly settled. */
  ghost predicate Quiet(t: Tables, t': Tables) {
    Frozen(t, t') && forall p: nat :: SettledCharge(t', p) ==> SettledCharge(t, p)
  }

  predicate OpenUnsettled(t: Tables) {
    forall p :: 0 <= p < |t.payments| && t.payments[p].status == Open ==> t.payments[p].settledAt.None?
  }

  lemma {:induction false} WorldUnsettled(w: World)
    requires WorldOk(w)
    ensures OpenUnsettled(w.t)
  {
    forall p | 0 <= p < |w.t.payments| && w.t.payments[p].status == Open ensures w.t.payments[p].settledAt.None? {
      assert RowOk(w.t.payments[p], w.intents, w.landed, w.t.price);
    }
  }

  // ---- Every transaction but a refund's is quiet ----

  lemma {:induction false} VoidIsQuiet(t: Tables, p: nat, now: int)
    requires OpenUnsettled(t) && p < |t.payments|
    ensures Quiet(t, MarkVoid(t, p, now)) && OpenUnsettled(MarkVoid(t, p, now))
  {
  }

  lemma {:induction false} InsertIsQuiet(t: Tables, kind: Kind, made: IntentId)
    ensures Quiet(t, InsertPayment(t, kind, made))
  {
  }

  lemma {:induction false} ReleaseIsQuiet(t: Tables, p: nat, now: int)
    requires p < |t.payments| && t.payments[p].status == Checked
    ensures Quiet(t, Released(t, p, now))
  {
  }

  lemma {:induction false} ReconcileIsQuiet(t: Tables, p: nat, seen: IntentStatus, seenAmount: nat, now: int,
                                            ttlHours: nat)
    requires OpenUnsettled(t) && p < |t.payments|
    ensures Quiet(t, ReconcileTx(t, p, seen, seenAmount, now, ttlHours))
  {
    VoidIsQuiet(t, p, now);
  }

  lemma {:induction false} ResumeIsQuiet(t: Tables, p: nat, kind: Kind, made: IntentId, now: int)
    requires OpenUnsettled(t) && p < |t.payments|
    ensures
      var r := ResumeTx(t, p, kind, made, now);
      r.Stored? ==> Quiet(t, r.tables)
  {
    VoidIsQuiet(t, p, now);
    InsertIsQuiet(MarkVoid(t, p, now), kind, made);
  }

  lemma {:induction false} AbandonIsQuiet(t: Tables, p: Option<nat>, now: int)
    requires OpenUnsettled(t) && (p.Some? ==> p.value < |t.payments|)
    ensures Quiet(t, AbandonTx(t, p, now))
  {
    if p.Some? { VoidIsQuiet(OnBooking(t, ExpireOne, now, false), p.value, now); }
  }

  lemma {:induction false} StartIsQuiet(w: World, a: Actor, now: int, c: Choice)
    requires a.StartCreate? || a.StartInsert? || a.StartGiveBack? || a.Reply?
    ensures Quiet(w.t, ActStart(w, a, now, c).0.t)
  {
    if a.StartInsert? { InsertIsQuiet(w.t, a.kind, a.made); }
  }

  lemma {:induction false} SettleIsQuiet(w: World, a: Actor, now: int, c: Choice)
    requires WorldOk(w) && ActorOk(w, a) && (a.Settle? || a.Rows? || a.SettleMark? || a.SettleRelease?)
    ensures Quiet(w.t, ActSettle(w, a, now, c).0.t)
  {
    WorldUnsettled(w);
    if a.SettleMark? { VoidIsQuiet(w.t, a.row.payment, now); }
    if a.SettleRelease? { ReleaseIsQuiet(w.t, a.row.payment, now); }
  }

  lemma {:induction false} ResumesAreQuiet(w: World, a: Actor, now: int, c: Choice)
    requires WorldOk(w) && (a.Resume? || a.ResumeLook? || a.ResumeCancel? || a.ResumeCreate? || a.ResumeInsert?
             || a.ResumeConflict? || a.ResumeTwice? || a.Orphan?)
    ensures Quiet(w.t, ActResume(w, a, now, c).0.t)
  {
    WorldUnsettled(w);
    if a.ResumeInsert? && a.payment < |w.t.payments| { ResumeIsQuiet(w.t, a.payment, a.kind, a.made, now); }
  }

  lemma {:induction false} AbandonsAreQuiet(w: World, a: Actor, now: int, c: Choice)
    requires WorldOk(w) && (a.Abandon? || a.AbandonCancel? || a.AbandonWrite?)
    ensures Quiet(w.t, ActAbandon(w, a, now, c).0.t)
  {
    WorldUnsettled(w);
    if a.AbandonWrite? && (a.read.Some? ==> a.read.value < |w.t.payments|) { AbandonIsQuiet(w.t, a.read, now); }
  }

  lemma {:induction false} ActIsQuiet(w: World, a: Actor, now: int, c: Choice)
    requires WorldOk(w) && ActorOk(w, a) && !a.SettleRefund?
    ensures Quiet(w.t, Act(w, a, now, c).0.t)
  {
    if a.StartCreate? || a.StartInsert? || a.StartGiveBack? || a.Reply? { StartIsQuiet(w, a, now, c); }
    else if a.Reconcile? || a.Look? || a.Write? {
      WorldUnsettled(w);
      if a.Write? { ReconcileIsQuiet(w.t, a.payment, a.seen, a.seenAmount, now, c.ttlHours); }
    }
    else if a.Settle? || a.Rows? || a.SettleMark? || a.SettleRelease? { SettleIsQuiet(w, a, now, c); }
    else if a.Abandon? || a.AbandonCancel? || a.AbandonWrite? { AbandonsAreQuiet(w, a, now, c); }
    else if !a.Done? { ResumesAreQuiet(w, a, now, c); }
  }

  // ---- What a settle read of a charge stays true ----

  /** The charge's ending, as it was read, is still the booking's, or is the end a lapsed hold is about
   to get. */
  predicate RowTrue(t: Tables, r: SettleRow) {
    r.status == PaidUp && Refunding(r.ending) ==>
      || (&& t.booking.status == r.ending
          && (r.ending == CancelledByClient ==> ClientPct(t.booking.events) == r.clientPct))
      || (t.booking.status == AwaitingPayment && r.bookingStatus == AwaitingPayment && r.ending == Expired)
  }

  lemma {:induction false} ReadIsTrue(t: Tables, p: nat, now: int)
    requires p < |t.payments|
    ensures RowTrue(t, RowOf(t, p, now))
  {
  }

  /** A late charge's booking is never booked: it only expires. */
  lemma {:induction false} RowStaysTrue(w: World, w': World, r: SettleRow)
    requires WorldOk(w) && WorldOk(w') && Evolves(w, w') && RowRead(w, r) && RowTrue(w.t, r)
    ensures RowTrue(w'.t, r)
  {
    if r.status == PaidUp && Refunding(r.ending) && w.t.booking.status == AwaitingPayment {
      assert w.t.payments[r.payment].status == PaidUp && w'.t.payments[r.payment].status == PaidUp;
    }
  }

  /** The rows an actor still holds from a settle's read. */
  function RowsOf(a: Actor): seq<SettleRow> {
    match a
    case Look(_, next) => if next.GoOn? then next.rows else []
    case Write(_, _, _, next) => if next.GoOn? then next.rows else []
    case Rows(rows, _, _) => rows
    case SettleMark(_, rest, _, _) => rest
    case SettleRelease(_, rest, _, _) => rest
    case SettleRefund(r, rest, _, _) => [r] + rest
    case _ => []
  }

  ghost predicate ActorTrue(t: Tables, a: Actor) {
    forall r :: r in RowsOf(a) ==> RowTrue(t, r)
  }

  lemma {:induction false} HeldRowsAreRead(w: World, a: Actor)
    requires ActorOk(w, a)
    ensures forall r :: r in RowsOf(a) ==> RowRead(w, r)
  {
  }

  lemma {:induction false} ActorStaysTrue(w: World, w': World, a: Actor)
    requires WorldOk(w) && WorldOk(w') && Evolves(w, w') && ActorOk(w, a) && ActorTrue(w.t, a)
    ensures ActorTrue(w'.t, a)
  {
    HeldRowsAreRead(w, a);
    forall r | r in RowsOf(a) ensures RowTrue(w'.t, r) { RowStaysTrue(w, w', r); }
  }

  lemma {:induction false} RowsRest(w: World, rows: seq<SettleRow>, again: bool, final: bool, c: Choice)
    ensures forall r :: r in RowsOf(ActRows(w, rows, again, final, c).1) ==> r in rows
  {
    if rows != [] { assert rows == [rows[0]] + rows[1..]; }
  }

  lemma {:induction false} SettleRowsComeFrom(w: World, a: Actor, now: int, c: Choice)
    requires a.Settle? || a.Rows? || a.SettleMark? || a.SettleRelease? || a.SettleRefund?
    ensures
      forall r :: r in RowsOf(ActSettle(w, a, now, c).1) ==>
        r in RowsOf(a) || (a.Settle? && r in SettleRows(w.t, now))
  {
    if a.Rows? { RowsRest(w, a.rows, a.again, a.final, c); }
  }

  lemma {:induction false} ResumesHoldNone(w: World, a: Actor, now: int, c: Choice)
    requires a.Resume? || a.ResumeLook? || a.ResumeCancel? || a.ResumeCreate? || a.ResumeInsert?
             || a.ResumeConflict? || a.ResumeTwice? || a.Orphan?
    ensures RowsOf(ActResume(w, a, now, c).1) == []
  {
  }

  /** A step keeps rows it was given, or reads new ones. */
  lemma {:induction false} RowsComeFrom(w: World, a: Actor, now: int, c: Choice)
    ensures
      var a' := Act(w, a, now, c).1;
      forall r :: r in RowsOf(a') ==> r in RowsOf(a) || (a.Settle? && r in SettleRows(w.t, now))
  {
    if a.Settle? || a.Rows? || a.SettleMark? || a.SettleRelease? || a.SettleRefund? {
      SettleRowsComeFrom(w, a, now, c);
    } else if a.StartCreate? || a.StartInsert? || a.StartGiveBack? || a.Reply? {
      assert RowsOf(ActStart(w, a, now, c).1) == [];
    } else if a.Abandon? || a.AbandonCancel? || a.AbandonWrite? {
      assert RowsOf(ActAbandon(w, a, now, c).1) == [];
    } else if !a.Done? && !a.Reconcile? && !a.Look? && !a.Write? {
      ResumesHoldNone(w, a, now, c);
    }
  }

  // ---- A refund settles with what the ending owes ----

  /** The booking ended with a refund, and this is all that ending owes. */
  predicate PaidBack(t: Tables, p: nat)
    requires p < |t.payments|
  {
    Refunding(t.booking.status) && DueOf(RowOf(t, p, 0), t.payments[p].amount) == Some(t.payments[p].refunded)
  }

  ghost predicate SettledOk(t: Tables) {
    forall p: nat :: SettledCharge(t, p) ==> PaidBack(t, p)
  }

  lemma {:induction false} QuietKeepsSettled(t: Tables, t': Tables)
    requires SettledOk(t) && Quiet(t, t') && BookingStands(t, t')
    ensures SettledOk(t')
  {
    forall p: nat | SettledCharge(t', p) ensures PaidBack(t', p) {
      assert SettledCharge(t, p) && PaidBack(t, p);
    }
  }

  lemma {:induction false} ToldPct(t: Tables, due: nat, refused: bool)
    ensures ClientPct(RefundTold(t, due, refused).booking.events) == ClientPct(t.booking.events)
    ensures RefundTold(t, due, refused).booking.status == t.booking.status
    ensures RefundTold(t, due, refused).payments == t.payments
  {
    ClientPctOneMore(t.booking.events, RefundSent(due));
  }

  /** Recording the refund ends the booking as the settle read it. */
  lemma {:induction false} RefundEnds(t: Tables, r: SettleRow, due: nat, refused: bool, now: int)
    requires RowTrue(t, r) && r.status == PaidUp && Refunding(r.ending)
    requires r.payment < |t.payments| && t.payments[r.payment].settledAt.None?
    ensures
      var t' := RefundTx(t, r, due, refused, now);
      && t'.booking.status == r.ending
      && (r.ending == CancelledByClient ==> ClientPct(t'.booking.events) == r.clientPct)
      && t'.payments == RefundRecorded(t, r.payment, due, now).payments
  {
    var done := RefundRecorded(t, r.payment, due, now);
    ToldPct(if r.bookingStatus == AwaitingPayment then OnBooking(done, ExpireOne, now, false) else done, due, refused);
  }

  /** Another settled charge beside an open one would be a second live payment. */
  lemma {:induction false} OnlyCharge(w: World, p: nat, q: nat)
    requires WorldOk(w) && p < |w.t.payments| && q < |w.t.payments|
    requires w.t.payments[p].status == PaidUp && w.t.payments[q].status == PaidUp
    ensures p == q
  {
  }

  lemma {:induction false} RefundSettles(w: World, r: SettleRow, due: nat, refused: bool, now: int)
    requires WorldOk(w) && RowRead(w, r) && RowTrue(w.t, r) && r.status == PaidUp && Refunding(r.ending)
    requires SettledOk(w.t) && DueOf(r, w.t.payments[r.payment].amount) == Some(due)
    ensures
      var t' := RefundTx(w.t, r, due, refused, now);
      Frozen(w.t, t') && SettledOk(t')
  {
    var p := r.payment;
    if w.t.payments[p].settledAt.None? {
      var t' := RefundTx(w.t, r, due, refused, now);
      RefundEnds(w.t, r, due, refused, now);
      forall q: nat | SettledCharge(t', q) ensures PaidBack(t', q) {
        OnlyCharge(w, p, q);
      }
    }
  }

  lemma {:induction false} RefundActSettles(w: World, a: Actor, now: int, c: Choice)
    requires WorldOk(w) && ActorOk(w, a) && a.SettleRefund? && ActorTrue(w.t, a) && SettledOk(w.t)
    ensures
      var t' := Act(w, a, now, c).0.t;
      Frozen(w.t, t') && SettledOk(t')
  {
    var r := a.row;
    assert r in RowsOf(a) && RowTrue(w.t, r);
    var due := DueOf(r, w.t.payments[r.payment].amount);
    if due.Some? { RefundSettles(w, r, due.value, c.refused, now); }
  }

  // ---- Over every run ----

  ghost predicate Accounted(s: Checkouts) {
    && Inv(s) && SettledOk(s.w.t)
    && forall i :: 0 <= i < |s.actors| ==> ActorTrue(s.w.t, s.actors[i])
  }

  lemma {:induction false} OthersStayTrue(w: World, w': World, actors: seq<Actor>)
    requires WorldOk(w) && WorldOk(w') && Evolves(w, w')
    requires forall i :: 0 <= i < |actors| ==> ActorOk(w, actors[i]) && ActorTrue(w.t, actors[i])
    ensures forall i :: 0 <= i < |actors| ==> ActorTrue(w'.t, actors[i])
  {
    forall i | 0 <= i < |actors| ensures ActorTrue(w'.t, actors[i]) { ActorStaysTrue(w, w', actors[i]); }
  }

  /** The actor that took the step holds only true rows, seen from the world it left. */
  lemma {:induction false} StepperStaysTrue(w: World, a: Actor, now: int, c: Choice)
    requires WorldOk(w) && ActorOk(w, a) && ActorTrue(w.t, a)
    ensures
      var r := Act(w, a, now, c);
      ActorTrue(r.0.t, r.1)
  {
    var (w', a') := Act(w, a, now, c);
    ActKeeps(w, a, now, c);
    RowsComeFrom(w, a, now, c);
    HeldRowsAreRead(w, a);
    forall r | r in RowsOf(a') ensures RowTrue(w'.t, r) {
      if r in RowsOf(a) {
        RowStaysTrue(w, w', r);
      } else {
        assert w' == w && r == RowOf(w.t, r.payment, now);
        ReadIsTrue(w.t, r.payment, now);
      }
    }
  }

  lemma {:induction false} ActAccounts(w: World, a: Actor, now: int, c: Choice)
    requires WorldOk(w) && ActorOk(w, a) && ActorTrue(w.t, a) && SettledOk(w.t)
    ensures
      var t' := Act(w, a, now, c).0.t;
      Frozen(w.t, t') && SettledOk(t')
  {
    if a.SettleRefund? {
      RefundActSettles(w, a, now, c);
    } else {
      ActIsQuiet(w, a, now, c);
      ActKeeps(w, a, now, c);
      QuietKeepsSettled(w.t, Act(w, a, now, c).0.t);
    }
  }

  /** What the environment does leaves the payment rows alone. */
  lemma {:induction false} ElsewhereLeavesRows(s: Checkouts, e: Happening)
    requires !e.Go?
    ensures Step(s, e).w.t.payments == s.w.t.payments
  {
  }

  lemma {:induction false} GoAccounts(s: Checkouts, e: Happening)
    requires Accounted(s) && e.Go?
    ensures Accounted(Step(s, e)) && Frozen(s.w.t, Step(s, e).w.t)
  {
    StepKeeps(s, e);
    if e.who < |s.actors| {
      var w, a := s.w, s.actors[e.who];
      ActAccounts(w, a, e.now, e.choice);
      StepperStaysTrue(w, a, e.now, e.choice);
      OthersStayTrue(w, Step(s, e).w, s.actors);
    }
  }

  lemma {:induction false} StepAccounts(s: Checkouts, e: Happening)
    requires Accounted(s)
    ensures Accounted(Step(s, e)) && Frozen(s.w.t, Step(s, e).w.t)
  {
    if e.Go? {
      GoAccounts(s, e);
    } else {
      StepKeeps(s, e);
      ElsewhereLeavesRows(s, e);
      QuietKeepsSettled(s.w.t, Step(s, e).w.t);
      OthersStayTrue(s.w, Step(s, e).w, s.actors);
    }
  }

  lemma {:induction false} RunAccounts(s: Checkouts, events: seq<Happening>)
    requires Accounted(s)
    ensures Accounted(Run(s, events)) && Frozen(s.w.t, Run(s, events).w.t)
  {
    if events != [] {
      var before := Run(s, events[..|events| - 1]);
      RunAccounts(s, events[..|events| - 1]);
      StepAccounts(before, events[|events| - 1]);
    }
  }

  lemma {:induction false} PlacedIsAccounted(s: Checkouts)
    requires Placed(s)
    ensures Accounted(s)
  {
    PlacedIsOk(s);
  }

  lemma {:induction false} PctIsAnEvent(events: seq<Event>)
    requires ClientPct(events).Some?
    ensures ClientCancelled(ClientPct(events).value) in events
  {
    var n := |events| - 1;
    if !events[n].ClientCancelled? { PctIsAnEvent(events[..n]); }
  }

  /**
   Over every run a charge is settled only when its booking has ended with a refund, and what is recorded as
   sent back is what that ending owes: the whole charge, or after the client's own cancellation the share
   that was recorded with it, rounded down.
   */
  lemma {:induction false} SettledIsWhatIsOwed(s: Checkouts, events: seq<Happening>, p: nat)
    requires Placed(s) && SettledCharge(Run(s, events).w.t, p)
    ensures
      var t := Run(s, events).w.t;
      var amount, back := t.payments[p].amount, t.payments[p].refunded;
      && t.booking.status in {Declined, Expired, CancelledByMerchant, CancelledByClient}
      && (t.booking.status != CancelledByClient ==> back == amount)
      && (t.booking.status == CancelledByClient ==>
            exists pct :: ClientCancelled(pct) in t.booking.events && back == amount * pct / 100)
  {
    PlacedIsAccounted(s);
    RunAccounts(s, events);
    var t := Run(s, events).w.t;
    assert PaidBack(t, p);
    if t.booking.status == CancelledByClient { PctIsAnEvent(t.booking.events); }
  }

  /** A settled payment is settled once: its row never changes again, whatever follows. */
  lemma {:induction false} SettledRowsStand(s: Checkouts, before: seq<Happening>, after: seq<Happening>, p: nat)
    requires Placed(s) && p < |Run(s, before).w.t.payments| && Run(s, before).w.t.payments[p].settledAt.Some?
    ensures
      var late := Run(Run(s, before), after).w.t;
      p < |late.payments| && late.payments[p] == Run(s, before).w.t.payments[p]
  {
    PlacedIsAccounted(s);
    RunAccounts(s, before);
    RunAccounts(Run(s, before), after);
  }
}
