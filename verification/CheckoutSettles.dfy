/**
 The settle job as the interleavings run it: what it steps over, and that left alone, with Stripe
 answering, it leaves nothing of the booking to settle.
 */
module CheckoutSettles {
  import opened Prelude
  import opened Bookings
  import opened Checkout
  import opened CheckoutProtocol
  import opened CheckoutSafety
  import opened CheckoutEffects

  // ---- What a settle pass steps over ----

  /** In any reachable state a settle pass steps over a row it has just read, with nothing done,
   exactly when settling has no action on it. */
  lemma {:induction false} StepsOverExactly(s: Checkouts, events: seq<Happening>, p: nat, read: int,
                                            rest: seq<SettleRow>, again: bool, final: bool, now: int, c: Choice)
    requires Placed(s) && p < |Run(s, events).w.t.payments|
    ensures
      var w := Run(s, events).w;
      var r := RowOf(w.t, p, read);
      Act(w, Rows([r] + rest, again, final), now, c) == (w, Rows(rest, again, final))
      <==> !HasAction(r, w.t.payments[p].intent)
  {
    ReachedIsOk(s, events);
    var w := Run(s, events).w;
    assert RowOk(w.t.payments[p], w.intents, w.landed, w.t.price);
    assert ([RowOf(w.t, p, read)] + rest)[1..] == rest;
  }

  /** What a settle pass does with a row it acts on: a refund is next, or Stripe has been asked to cancel. */
  lemma {:induction false} ActsByStatus(s: Checkouts, events: seq<Happening>, p: nat, read: int, rest: seq<SettleRow>,
                                        again: bool, final: bool, now: int, c: Choice)
    requires Placed(s) && p < |Run(s, events).w.t.payments| && !c.fails && c.took
    ensures
      var w := Run(s, events).w;
      var r, row := RowOf(w.t, p, read), w.t.payments[p];
      var (w', a') := Act(w, Rows([r] + rest, again, final), now, c);
      HasAction(r, row.intent) ==>
        && row.intent in w.intents && row.intent in w'.intents && w'.t == w.t
        && (row.status == PaidUp ==> w' == w && a' == SettleRefund(r, rest, again, final))
        && (row.status != PaidUp && w.intents[row.intent].status != Succeeded ==>
              && w'.intents[row.intent].status == Canceled
              && a' == if row.status == Open then SettleMark(r, rest, again, final)
                       else SettleRelease(r, rest, again, final))
  {
    ReachedIsOk(s, events);
    var w := Run(s, events).w;
    assert RowOk(w.t.payments[p], w.intents, w.landed, w.t.price);
    assert ([RowOf(w.t, p, read)] + rest)[1..] == rest;
  }

  /** The charge is settled with what goes back, a checkout that was only late is over, and the history tells
   what was sent. */
  ghost predicate RefundIsTold(t: Tables, t': Tables, r: SettleRow, refused: bool, now: int)
    requires r.payment < |t.payments| && (r.ending == CancelledByClient ==> r.clientPct.Some?)
  {
    var row, late := t.payments[r.payment], r.bookingStatus == AwaitingPayment && t.booking.status == AwaitingPayment;
    var due := if r.ending == CancelledByClient then row.amount * r.clientPct.value / 100 else row.amount;
    && OthersStay(t, t', r.payment)
    && t'.payments[r.payment] == row.(refunded := due, settledAt := Some(now))
    && t'.booking.status == (if late then Expired else t.booking.status)
    && t'.booking.events == t.booking.events + (if late then [Became(Expired)] else [])
                                             + (if due > 0 && !refused then [RefundSent(due)] else [])
  }

  lemma {:induction false} RefundWrites(t: Tables, r: SettleRow, now: int, refused: bool)
    requires r.payment < |t.payments| && t.payments[r.payment].settledAt.None?
    requires r.ending == CancelledByClient ==> r.clientPct.Some?
    ensures
      var due := DueOf(r, t.payments[r.payment].amount);
      due.Some? && RefundIsTold(t, RefundTx(t, r, due.value, refused, now), r, refused, now)
  {
    assert t.booking.events + [] + [] == t.booking.events + [] == t.booking.events;
  }

  /** The refund's step writes that, in any state of the tables. */
  lemma {:induction false} ARefundIsRecorded(w: World, r: SettleRow, rest: seq<SettleRow>, again: bool, final: bool,
                                             now: int, c: Choice)
    requires r.payment < |w.t.payments| && w.t.payments[r.payment].settledAt.None? && !c.fails
    requires r.ending == CancelledByClient ==> r.clientPct.Some?
    ensures
      var (w', a') := Act(w, SettleRefund(r, rest, again, final), now, c);
      RefundIsTold(w.t, w'.t, r, c.refused, now) && w' == w.(t := w'.t) && a' == Rows(rest, again, final)
  {
    RefundWrites(w.t, r, now, c.refused);
  }

  // ---- A settle job by itself ----

  /** A client's cancellation has recorded what share goes back. */
  predicate ShareKnown(b: Booking) {
    b.status == CancelledByClient ==> ClientPct(b.events).Some?
  }

  /** No checkout step cancels a booking for the client. */
  predicate NotByClient(b: Booking, b': Booking) {
    b'.status == b.status || b'.status in {Expired, Pending, Confirmed}
  }

  lemma {:induction false} ActIsNotByClient(w: World, a: Actor, now: int, c: Choice)
    ensures NotByClient(w.t.booking, Act(w, a, now, c).0.t.booking)
  {
    if a.StartCreate? || a.StartInsert? || a.StartGiveBack? || a.Reply? { StartIsNotByClient(w, a, now, c); }
    else if a.Reconcile? || a.Look? || a.Write? { ReconcileIsNotByClient(w, a, now, c); }
    else if a.SettleRefund? { RefundIsNotByClient(w, a.row, now, c); }
    else if a.Rows? { PassWritesNoBooking(w, a.rows, a.again, a.final, c); }
    else if a.Abandon? || a.AbandonCancel? || a.AbandonWrite? { AbandonIsNotByClient(w, a, now, c); }
    else if !a.Done? && !a.Settle? && !a.SettleMark? && !a.SettleRelease? { ResumeWritesNoBooking(w, a, now, c); }
  }

  lemma {:induction false} StartIsNotByClient(w: World, a: Actor, now: int, c: Choice)
    requires a.StartCreate? || a.StartInsert? || a.StartGiveBack? || a.Reply?
    ensures NotByClient(w.t.booking, ActStart(w, a, now, c).0.t.booking)
  {
  }

  lemma {:induction false} ReconcileIsNotByClient(w: World, a: Actor, now: int, c: Choice)
    requires a.Reconcile? || a.Look? || a.Write?
    ensures NotByClient(w.t.booking, ActReconcile(w, a, now, c).0.t.booking)
  {
  }

  lemma {:induction false} AbandonIsNotByClient(w: World, a: Actor, now: int, c: Choice)
    requires a.Abandon? || a.AbandonCancel? || a.AbandonWrite?
    ensures NotByClient(w.t.booking, ActAbandon(w, a, now, c).0.t.booking)
  {
  }

  lemma {:induction false} RefundIsNotByClient(w: World, r: SettleRow, now: int, c: Choice)
    ensures NotByClient(w.t.booking, ActRefund(w, r, now, c).0.t.booking)
  {
  }

  lemma {:induction false} PassWritesNoBooking(w: World, rows: seq<SettleRow>, again: bool, final: bool, c: Choice)
    ensures ActRows(w, rows, again, final, c).0.t == w.t
  {
  }

  lemma {:induction false} ResumeWritesNoBooking(w: World, a: Actor, now: int, c: Choice)
    requires a.Resume? || a.ResumeLook? || a.ResumeCancel? || a.ResumeCreate? || a.ResumeInsert?
             || a.ResumeConflict? || a.ResumeTwice? || a.Orphan?
    ensures ActResume(w, a, now, c).0.t.booking == w.t.booking
  {
  }

  lemma {:induction false} StatementKnowsTheShare(b: Booking, st: Statement, now: int)
    requires ShareKnown(b)
    ensures ShareKnown(Apply(b, st, now, false))
  {
    var b' := Apply(b, st, now, false);
    if st.ClientCancel? && b' != b {
      assert b'.events[..|b'.events| - 1] == b.events;
    } else {
      EndingsStand(b, st, now, false);
    }
  }

  lemma {:induction false} KnownAfter(b: Booking, b': Booking)
    requires ShareKnown(b) && NotByClient(b, b')
    requires Refunding(b.status) ==> b'.status == b.status && ClientPct(b'.events) == ClientPct(b.events)
    ensures ShareKnown(b')
  {
  }

  lemma {:induction false} ActKnowsTheShare(w: World, a: Actor, now: int, c: Choice)
    requires WorldOk(w) && ActorOk(w, a) && ShareKnown(w.t.booking)
    ensures StepOk(w, Act(w, a, now, c)) && ShareKnown(Act(w, a, now, c).0.t.booking)
  {
    ActKeeps(w, a, now, c);
    ActIsNotByClient(w, a, now, c);
    KnownAfter(w.t.booking, Act(w, a, now, c).0.t.booking);
  }

  lemma {:induction false} StepKnowsTheShare(s: Checkouts, e: Happening)
    requires Inv(s) && ShareKnown(s.w.t.booking)
    ensures ShareKnown(Step(s, e).w.t.booking)
  {
    match e {
      case Go(who, now, c) =>
        if who < |s.actors| { ActKnowsTheShare(s.w, s.actors[who], now, c); }
      case Elsewhere(st, now) => StatementKnowsTheShare(s.w.t.booking, st, now);
      case _ =>
    }
  }

  /** In every reachable state: so no refund waits for a percentage nobody recorded. */
  lemma {:induction false} TheShareIsKnown(s: Checkouts, events: seq<Happening>)
    requires Placed(s)
    ensures ShareKnown(Run(s, events).w.t.booking)
  {
    if events != [] {
      TheShareIsKnown(s, events[..|events| - 1]);
      ReachedIsOk(s, events[..|events| - 1]);
      StepKnowsTheShare(Run(s, events[..|events| - 1]), events[|events| - 1]);
    }
  }

  predicate NoneOpen(t: Tables) {
    forall p :: 0 <= p < |t.payments| ==> t.payments[p].status != Open
  }

  /** The one row a settle job has read at `n` and is about to act on. */
  predicate Handling(t: Tables, r: SettleRow, rest: seq<SettleRow>, again: bool, n: int) {
    && rest == [] && !again && AllSettledBut(t.payments, r.payment)
    && r == RowOf(t, r.payment, n)
  }

  /** A charge the job has found behind an open row: it is being written down. */
  predicate CatchingUp(w: World, p: nat, next: Next) {
    && next == GoOn([], false) && AllSettledBut(w.t.payments, p) && w.t.payments[p].status == Open
    && w.t.payments[p].intent in w.intents && w.intents[w.t.payments[p].intent].status == Succeeded
  }

  /** Where an undisturbed settle job stands; `n` is the clock it last read the rows at. */
  predicate JobOn(w: World, a: Actor, n: int) {
    match a
    case Done => NothingOwed(w.t, n)
    case Settle(final) => final ==> NoneOpen(w.t)
    case Rows(rows, again, final) =>
      if rows != [] then rows == SettleRows(w.t, n) && !again && (final ==> NoneOpen(w.t))
      else if again && !final then NoneOpen(w.t)
      else NothingOwed(w.t, n)
    case Look(p, next) => CatchingUp(w, p, next)
    case Write(p, seen, seenAmount, next) => CatchingUp(w, p, next) && seen == Succeeded
    case SettleMark(r, rest, again, final) => Handling(w.t, r, rest, again, n) && r.status == Open
    case SettleRelease(r, rest, again, final) =>
      Handling(w.t, r, rest, again, n) && r.status == Checked && w.t.payments[r.payment].settledAt.None?
    case SettleRefund(r, rest, again, final) =>
      Handling(w.t, r, rest, again, n) && w.t.payments[r.payment].settledAt.None?
    case _ => false
  }

  /** How many steps it has left at most. */
  function StepsLeft(a: Actor): nat {
    match a
    case Settle(final) => if final then 4 else 9
    case Rows(rows, _, final) => (if rows != [] then 3 else 1) + if final then 0 else if rows != [] then 5 else 4
    case Look(_, _) => 7
    case Write(_, _, _, _) => 6
    case SettleMark(_, _, _, final) => if final then 2 else 6
    case SettleRelease(_, _, _, final) => if final then 2 else 6
    case SettleRefund(_, _, _, final) => if final then 2 else 6
    case _ => 0
  }

  lemma {:induction false} SettleReadsAll(w: World, final: bool, n: int)
    requires WorldOk(w) && (final ==> NoneOpen(w.t))
    ensures JobOn(w, Rows(SettleRows(w.t, n), false, final), n)
  {
    AtMostOneUnsettled(w, n);
  }

  /** A row whose intent the job asks Stripe to cancel. */
  lemma {:induction false} CancelGoesOn(w: World, r: SettleRow, final: bool, n: int, c: Choice)
    requires WorldOk(w) && r.payment < |w.t.payments| && SettleRows(w.t, n) == [r] && !c.fails && c.took
    requires HasAction(r, w.t.payments[r.payment].intent) && r.status != PaidUp && (final ==> NoneOpen(w.t))
    ensures
      var (w', a') := ActRows(w, [r], false, final, c);
      JobOn(w', a', n) && StepsLeft(a') < StepsLeft(Rows([r], false, final))
  {
    AtMostOneUnsettled(w, n);
    assert r in SettleRows(w.t, n) && [r][1..] == [];
    assert RowOk(w.t.payments[r.payment], w.intents, w.landed, w.t.price);
    var id := w.t.payments[r.payment].intent;
    assert IntentOk(id, w.intents[id], w.exposed, w.landed, w.t.price);
  }

  /** A row with a refund to make, or with nothing to do. */
  lemma {:induction false} OtherRowGoesOn(w: World, r: SettleRow, final: bool, n: int, c: Choice)
    requires WorldOk(w) && r.payment < |w.t.payments| && SettleRows(w.t, n) == [r]
    requires HasAction(r, w.t.payments[r.payment].intent) ==> r.status == PaidUp
    ensures
      var (w', a') := ActRows(w, [r], false, final, c);
      JobOn(w', a', n) && StepsLeft(a') < StepsLeft(Rows([r], false, final))
  {
    AtMostOneUnsettled(w, n);
    assert r in SettleRows(w.t, n) && [r][1..] == [];
    assert RowOk(w.t.payments[r.payment], w.intents, w.landed, w.t.price);
  }

  lemma {:induction false} RowsGoOn(w: World, rows: seq<SettleRow>, again: bool, final: bool, n: int, c: Choice)
    requires WorldOk(w) && JobOn(w, Rows(rows, again, final), n) && !c.fails && c.took
    ensures
      var (w', a') := ActRows(w, rows, again, final, c);
      JobOn(w', a', n) && StepsLeft(a') < StepsLeft(Rows(rows, again, final))
  {
    if rows != [] {
      AtMostOneUnsettled(w, n);
      var r := rows[0];
      assert r in rows && rows == [r];
      if HasAction(r, w.t.payments[r.payment].intent) && r.status != PaidUp {
        CancelGoesOn(w, r, final, n, c);
      } else {
        OtherRowGoesOn(w, r, final, n, c);
      }
    }
  }

  lemma {:induction false} CatchUpGoesOn(w: World, p: nat, seen: IntentStatus, seenAmount: nat, next: Next, now: int,
                                         c: Choice)
    requires WorldOk(w) && ActorOk(w, Write(p, seen, seenAmount, next)) && !c.fails
    requires CatchingUp(w, p, next) && seen == Succeeded
    ensures NoneOpen(Act(w, Write(p, seen, seenAmount, next), now, c).0.t)
  {
    WriteAnswers(w, p, seen, seenAmount, next, now, c);
    assert RowOk(w.t.payments[p], w.intents, w.landed, w.t.price);
    var id := w.t.payments[p].intent;
    assert IntentOk(id, w.intents[id], w.exposed, w.landed, w.t.price);
    var t' := Act(w, Write(p, seen, seenAmount, next), now, c).0.t;
    forall q | 0 <= q < |t'.payments| ensures t'.payments[q].status != Open {
      if q != p { assert RowOk(w.t.payments[q], w.intents, w.landed, w.t.price); }
    }
  }

  /** The one row the job handles is settled, and the job is nearly over. */
  lemma {:induction false} HandledIsSettled(t: Tables, t': Tables, r: SettleRow, n: int)
    requires Handling(t, r, [], false, n) && OthersStay(t, t', r.payment) && t'.payments[r.payment].settledAt.Some?
    ensures NothingOwed(t', n)
  {
  }

  lemma {:induction false} MarkGoesOn(w: World, a: Actor, n: int, now: int, c: Choice)
    requires WorldOk(w) && JobOn(w, a, n) && !c.fails && (a.SettleMark? || a.SettleRelease?)
    ensures
      var (w', a') := ActSettle(w, a, now, c);
      JobOn(w', a', n) && StepsLeft(a') < StepsLeft(a)
  {
    assert RowOk(w.t.payments[a.row.payment], w.intents, w.landed, w.t.price);
    HandledIsSettled(w.t, ActSettle(w, a, now, c).0.t, a.row, n);
  }

  lemma {:induction false} RefundGoesOn(w: World, a: Actor, n: int, now: int, c: Choice)
    requires JobOn(w, a, n) && !c.fails && a.SettleRefund? && ShareKnown(w.t.booking)
    ensures
      var (w', a') := ActSettle(w, a, now, c);
      JobOn(w', a', n) && StepsLeft(a') < StepsLeft(a)
  {
    HandledIsSettled(w.t, ActSettle(w, a, now, c).0.t, a.row, n);
  }

  lemma {:induction false} LookGoesOn(w: World, a: Actor, n: int, now: int, c: Choice)
    requires WorldOk(w) && ActorOk(w, a) && JobOn(w, a, n) && !c.fails && (a.Look? || a.Write?)
    ensures
      var (w', a') := Act(w, a, now, c);
      JobOn(w', a', n) && StepsLeft(a') < StepsLeft(a)
  {
    if a.Write? { CatchUpGoesOn(w, a.payment, a.seen, a.seenAmount, a.next, now, c); }
  }

  lemma {:induction false} SettleGoesOn(w: World, a: Actor, n: int, now: int, c: Choice)
    requires WorldOk(w) && ActorOk(w, a) && JobOn(w, a, n) && !c.fails && c.took && ShareKnown(w.t.booking)
    requires !a.Done?
    ensures
      var (w', a') := Act(w, a, now, c);
      JobOn(w', a', if a.Settle? then now else n) && StepsLeft(a') < StepsLeft(a)
  {
    if a.Settle? {
      SettleReadsAll(w, a.final, now);
    } else if a.Rows? {
      RowsGoOn(w, a.rows, a.again, a.final, n, c);
    } else if a.Look? || a.Write? {
      LookGoesOn(w, a, n, now, c);
    } else if a.SettleRefund? {
      RefundGoesOn(w, a, n, now, c);
    } else {
      MarkGoesOn(w, a, n, now, c);
    }
  }

  /** All that a step of the job relies on, with `left` steps to go at most. */
  predicate OnCourse(w: World, a: Actor, n: int, left: nat) {
    WorldOk(w) && ActorOk(w, a) && JobOn(w, a, n) && ShareKnown(w.t.booking) && StepsLeft(a) <= left
  }

  lemma {:induction false} StaysOnCourse(w: World, a: Actor, n: int, left: nat, now: int, c: Choice)
    requires OnCourse(w, a, n, left + 1) && !c.fails && c.took && !a.Done?
    ensures OnCourse(Act(w, a, now, c).0, Act(w, a, now, c).1, if a.Settle? then now else n, left)
  {
    SettleGoesOn(w, a, n, now, c);
    ActKnowsTheShare(w, a, now, c);
  }

  /** It read the rows last at one of these clocks, or at `n`. */
  predicate ReadAt(ticks: seq<Tick>, n: int, m: int) {
    m == n || exists i :: 0 <= i < |ticks| && ticks[i].now == m
  }

  lemma {:induction false} ReadEarlier(ticks: seq<Tick>, n: int, m: int)
    requires ticks != [] && (ReadAt(ticks[1..], n, m) || ReadAt(ticks[1..], ticks[0].now, m))
    ensures ReadAt(ticks, n, m)
  {
    if i :| 0 <= i < |ticks[1..]| && ticks[1..][i].now == m { assert ticks[i + 1].now == m; }
  }

  lemma {:induction false} SettleAlone(w: World, a: Actor, n: int, ticks: seq<Tick>) returns (m: int)
    requires OnCourse(w, a, n, |ticks|) && Unhindered(ticks)
    ensures Alone(w, a, ticks).1.Done? && NothingOwed(Alone(w, a, ticks).0.t, m) && ReadAt(ticks, n, m)
    decreases |ticks|
  {
    if a.Done? || ticks == [] {
      m := n;
      DoneStays(w, ticks);
    } else {
      var now, c := ticks[0].now, ticks[0].choice;
      StaysOnCourse(w, a, n, |ticks| - 1, now, c);
      var k := if a.Settle? then now else n;
      m := SettleAlone(Act(w, a, now, c).0, Act(w, a, now, c).1, k, ticks[1..]);
      ReadEarlier(ticks, n, m);
    }
  }

  /**
   A settle job that starts in any reachable state and is left alone, with no call failing and Stripe
   refusing to cancel only what is charged, is over in nine steps, and nothing of the booking is left
   to settle at the clock at which it last read.
   */
  lemma {:induction false} ASettleLeavesNothing(s: Checkouts, events: seq<Happening>, who: nat, ticks: seq<Tick>)
    requires Placed(s) && |ticks| >= 9 && Unhindered(ticks)
    requires var actors := Run(s, events).actors; who < |actors| && actors[who] == Settle(false)
    ensures
      var end := Run(Run(s, events), Goes(who, ticks));
      Finished(end, who) && exists i :: 0 <= i < |ticks| && NothingOwed(end.w.t, ticks[i].now)
  {
    var m := Run(s, events);
    ReachedIsOk(s, events);
    TheShareIsKnown(s, events);
    RunsAlone(m, who, ticks);
    var n := ticks[0].now;
    var k := SettleAlone(m.w, Settle(false), n, ticks);
    if k == n { assert NothingOwed(Run(m, Goes(who, ticks)).w.t, ticks[0].now); }
  }
}
