/**
 What every interleaving of the checkout keeps: at most one payment of a booking holds the client's
 money at a time and at most one is ever charged; every charge either booked or is owed back in
 full; nothing is announced twice; and the sweep finds exactly the money that settling acts on.
 */
module CheckoutSafety {
  import opened Prelude
  import opened Bookings
  import opened Checkout
  import opened CheckoutProtocol

  // ---- The invariant ----

  /** The row's intent exists at Stripe and was made for it. */
  predicate RowOk(row: Payment, intents: map<IntentId, Intent>, landed: set<IntentId>, price: nat) {
    && row.intent in intents
    && intents[row.intent].kind == row.kind
    && intents[row.intent].amount == row.amount == price
    && (row.intent.Seti? ==> row.kind == Check)
    && (row.status == Void ==> intents[row.intent].status == Canceled)
    && (row.status == Checked ==> row.kind == Check && row.intent in landed)
    && (row.status == Checked && row.settledAt.None? ==> row.intent.Pi?)
    && (row.status == Checked && row.settledAt.Some? && row.intent.Pi? ==> intents[row.intent].status == Canceled)
    && (row.status == PaidUp ==> row.kind == Pay && intents[row.intent].status == Succeeded)
    && (row.status == Void ==> row.settledAt.Some?)
    && (row.status == Open ==> row.settledAt.None?)
  }

  predicate HasRow(payments: seq<Payment>, id: IntentId) {
    exists p :: 0 <= p < |payments| && payments[p].intent == id
  }

  predicate RowsOk(payments: seq<Payment>, intents: map<IntentId, Intent>, landed: set<IntentId>, price: nat) {
    && (forall p :: 0 <= p < |payments| ==> RowOk(payments[p], intents, landed, price))
    && (forall p, q :: 0 <= p < q < |payments| ==>
          && payments[p].intent != payments[q].intent
          && (payments[p].status == Void || payments[q].status == Void))
  }

  predicate IntentOk(id: IntentId, i: Intent, exposed: set<IntentId>, landed: set<IntentId>, price: nat) {
    && (i.status == Processing ==> id in exposed)
    && (Landed(id, i.kind, i.status) ==> id in landed)
    && (i.status in {RequiresCapture, Succeeded} ==> Landed(id, i.kind, i.status))
    && (id.Seti? ==> i.kind == Check)
    && i.amount == price
  }

  /** An intent that ever went through still holds the money, or was a card authorisation since
   canceled. */
  predicate LandedOk(id: IntentId, i: Intent) {
    Landed(id, i.kind, i.status) || (i.status == Canceled && i.kind == Check && id.Pi?)
  }

  predicate StripeOk(w: World) {
    && (forall id :: id in w.intents ==> IntentOk(id, w.intents[id], w.exposed, w.landed, w.t.price))
    && (forall id :: id in w.landed ==> id in w.exposed && id in w.intents && LandedOk(id, w.intents[id]))
    && (forall k :: k in w.keys ==> w.keys[k] in w.intents && w.intents[w.keys[k]].kind == k.1)
  }

  predicate ExposedOk(w: World) {
    forall id :: id in w.exposed ==> HasRow(w.t.payments, id)
  }

  /** The payment that booked the checkout, by the event its landing wrote. */
  function BookedBy(events: seq<Event>): Option<nat> {
    if events == [] then None
    else
      var e := events[|events| - 1];
      if e.PaymentLanded? then Some(e.payment) else BookedBy(events[..|events| - 1])
  }

  lemma {:induction false} BookedByOneMore(events: seq<Event>, e: Event)
    ensures BookedBy(events + [e]) == if e.PaymentLanded? then Some(e.payment) else BookedBy(events)
  {
    assert (events + [e])[..|events|] == events;
  }

  predicate BookingOk(t: Tables) {
    var booker := BookedBy(t.booking.events);
    && (booker.Some? ==> booker.value < |t.payments| && t.payments[booker.value].status in {Checked, PaidUp})
    && t.announced == (if booker.Some? then 1 else 0)
    && (t.booking.status == AwaitingPayment ==> booker.None?)
    && (t.booking.status !in {AwaitingPayment, Expired} ==> booker.Some?)
    && (forall p :: 0 <= p < |t.payments| && t.payments[p].status == PaidUp && booker != Some(p) ==>
          t.booking.status in {AwaitingPayment, Expired} && LatePaid(p) in t.jobs)
  }

  predicate WorldOk(w: World) {
    && RowsOk(w.t.payments, w.intents, w.landed, w.t.price)
    && StripeOk(w) && ExposedOk(w) && BookingOk(w.t)
  }

  /** The payment can no longer go through: its row is closed, or its intent is canceled. */
  predicate Stopped(w: World, p: nat) {
    && p < |w.t.payments| && w.t.payments[p].intent in w.intents
    && (w.t.payments[p].status != Open || w.intents[w.t.payments[p].intent].status == Canceled)
  }

  /** The hold on the card has been given back. */
  predicate HoldIsGone(w: World, p: nat) {
    p < |w.t.payments| && w.t.payments[p].intent in w.intents && w.intents[w.t.payments[p].intent].status == Canceled
  }

  predicate MadeOk(w: World, kind: Kind, made: IntentId) {
    made in w.intents && w.intents[made].kind == kind && w.intents[made].amount == w.t.price
  }

  predicate RowsRead(w: World, rows: seq<SettleRow>) {
    forall r :: r in rows ==> RowRead(w, r)
  }

  /** What a settle read of a row and still holds: a payment only moves on from open. */
  predicate RowRead(w: World, r: SettleRow) {
    && r.payment < |w.t.payments|
    && (r.status != Open ==> w.t.payments[r.payment].status == r.status)
    && r.status != Void
  }

  predicate NextOk(w: World, next: Next) {
    next.GoOn? ==> RowsRead(w, next.rows)
  }

  /** What a running request or job still knows of the world between two of its steps. */
  predicate ActorOk(w: World, a: Actor) {
    match a
    case StartInsert(kind, made) => MadeOk(w, kind, made)
    case Reply(intent) => HasRow(w.t.payments, intent)
    case Look(p, next) => p < |w.t.payments| && NextOk(w, next)
    case Write(p, seen, seenAmount, next) =>
      && p < |w.t.payments| && w.t.payments[p].intent in w.intents && NextOk(w, next)
      && (seen == Canceled ==> w.intents[w.t.payments[p].intent].status == Canceled)
      && (seen == Succeeded ==> w.intents[w.t.payments[p].intent].status == Succeeded)
      && (Landed(w.t.payments[p].intent, w.t.payments[p].kind, seen) ==> w.t.payments[p].intent in w.landed)
      && seenAmount == w.t.payments[p].amount
    case Rows(rows, _, _) => RowsRead(w, rows)
    case SettleMark(r, rest, _, _) => RowRead(w, r) && RowsRead(w, rest) && Stopped(w, r.payment)
    case SettleRelease(r, rest, _, _) =>
      RowRead(w, r) && RowsRead(w, rest) && r.status == Checked && HoldIsGone(w, r.payment)
    case SettleRefund(r, rest, _, _) =>
      RowRead(w, r) && RowsRead(w, rest) && r.status == PaidUp && Refunding(r.ending)
    case ResumeLook(p, _, _) => p < |w.t.payments|
    case ResumeCancel(p, _, _) => p < |w.t.payments|
    case ResumeCreate(p, _, _) => Stopped(w, p)
    case ResumeInsert(p, kind, made) => Stopped(w, p) && MadeOk(w, kind, made)
    case ResumeTwice(kind, made, live, status) =>
      live < |w.t.payments| && w.t.payments[live].intent == made
    case AbandonCancel(p) => p < |w.t.payments|
    case AbandonWrite(p) => p.Some? ==> Stopped(w, p.value)
    case _ => true
  }

  predicate Inv(s: Checkouts) {
    && WorldOk(s.w)
    && forall i :: 0 <= i < |s.actors| ==> ActorOk(s.w, s.actors[i])
  }

  // ---- How the world moves on ----

  /** Only the landing of an open payment, or of one not yet made, books the checkout; an ending that
   refunds is final, with what it sends back. */
  predicate BookingStands(t: Tables, t': Tables) {
    var booker, booker' := BookedBy(t.booking.events), BookedBy(t'.booking.events);
    && (|| booker' == booker
        || (booker'.Some? && (booker'.value < |t.payments| ==> t.payments[booker'.value].status == Open)))
    && (Refunding(t.booking.status) ==>
          t'.booking.status == t.booking.status && ClientPct(t'.booking.events) == ClientPct(t.booking.events))
  }

  lemma {:induction false} ClientPctOneMore(events: seq<Event>, e: Event)
    requires !e.ClientCancelled?
    ensures ClientPct(events + [e]) == ClientPct(events)
  {
    assert (events + [e])[..|events|] == events;
  }

  /** What no step ever undoes. */
  predicate Evolves(w: World, w': World) {
    && w'.t.price == w.t.price
    && |w.t.payments| <= |w'.t.payments|
    && (forall p {:trigger w'.t.payments[p]} {:trigger w.t.payments[p]} :: 0 <= p < |w.t.payments| ==>
          && w'.t.payments[p].intent == w.t.payments[p].intent
          && w'.t.payments[p].kind == w.t.payments[p].kind
          && w'.t.payments[p].amount == w.t.payments[p].amount
          && (w.t.payments[p].status != Open ==> w'.t.payments[p].status == w.t.payments[p].status))
    && (forall id {:trigger id in w'.intents} {:trigger id in w.intents} :: id in w.intents ==>
          && id in w'.intents
          && w'.intents[id].kind == w.intents[id].kind && w'.intents[id].amount == w.intents[id].amount
          && (w.intents[id].status in {Canceled, Succeeded} ==> w'.intents[id].status == w.intents[id].status))
    && w.exposed <= w'.exposed && w.landed <= w'.landed
    && (w.t.booking.status != AwaitingPayment ==> w'.t.booking.status != AwaitingPayment)
    && BookingStands(w.t, w'.t)
  }

  lemma {:induction false} HasRowKeeps(w: World, w': World, id: IntentId)
    requires Evolves(w, w') && HasRow(w.t.payments, id)
    ensures HasRow(w'.t.payments, id)
  {
    var p :| 0 <= p < |w.t.payments| && w.t.payments[p].intent == id;
    assert w'.t.payments[p].intent == id;
  }

  /** What is true of a request between two steps stays true however the world moves on. */
  lemma {:induction false} ActorKeeps(w: World, w': World, a: Actor)
    requires Evolves(w, w') && ActorOk(w, a)
    ensures ActorOk(w', a)
  {
    if a.Reply? { HasRowKeeps(w, w', a.intent); }
  }

  lemma {:induction false} StoppedKeeps(w: World, w': World, p: nat)
    requires Evolves(w, w') && Stopped(w, p)
    ensures Stopped(w', p)
  {
  }

  lemma {:induction false} ExposedKeeps(w: World, w': World)
    requires Evolves(w, w') && ExposedOk(w) && w'.exposed == w.exposed
    ensures ExposedOk(w')
  {
    forall id | id in w'.exposed ensures HasRow(w'.t.payments, id) {
      HasRowKeeps(w, w', id);
    }
  }

  // ---- Each kind of change keeps the world's invariant ----

  lemma {:induction false} CancelKeeps(w: World, id: IntentId, took: bool)
    requires WorldOk(w) && id in w.intents
    ensures WorldOk(CancelAt(w, id, took)) && Evolves(w, CancelAt(w, id, took))
  {
    ExposedKeeps(w, CancelAt(w, id, took));
  }

  lemma {:induction false} CreateKeeps(w: World, n: nat, kind: Kind, c: Choice)
    requires WorldOk(w) && MayCreate(w, n, kind, c)
    ensures
      var (w', made) := CreateAt(w, n, kind, c);
      WorldOk(w') && Evolves(w, w') && MadeOk(w', kind, made)
  {
    ExposedKeeps(w, CreateAt(w, n, kind, c).0);
  }

  lemma {:induction false} CallCreateKeeps(w: World, n: nat, kind: Kind, c: Choice)
    requires WorldOk(w) && MayCreate(w, n, kind, c)
    ensures
      var (w', made) := CallCreate(w, n, kind, c);
      WorldOk(w') && Evolves(w, w') && (made.Some? ==> MadeOk(w', kind, made.value))
  {
    CreateKeeps(w, n, kind, c);
  }

  lemma {:induction false} VoidKeeps(w: World, p: nat, now: int)
    requires WorldOk(w) && Stopped(w, p)
    ensures
      var w' := w.(t := MarkVoid(w.t, p, now));
      WorldOk(w') && Evolves(w, w')
  {
    ExposedKeeps(w, w.(t := MarkVoid(w.t, p, now)));
  }

  lemma {:induction false} InsertKeeps(w: World, kind: Kind, made: IntentId)
    requires WorldOk(w) && MadeOk(w, kind, made) && MayInsert(w.t, made)
    ensures
      var w' := w.(t := InsertPayment(w.t, kind, made));
      WorldOk(w') && Evolves(w, w') && HasRow(w'.t.payments, made)
  {
    var w' := w.(t := InsertPayment(w.t, kind, made));
    assert w'.t.payments[|w.t.payments|].intent == made;
    ExposedKeeps(w, w');
  }

  /** A statement that is no landing adds one event, which books nothing. */
  lemma {:induction false} StatementTells(b: Booking, st: Statement, now: int)
    requires !st.Paid?
    ensures BookedBy(Apply(b, st, now, false).events) == BookedBy(b.events)
  {
    if Matches(b, st, now, false) {
      var e := Written(b, st, now).events[|b.events|];
      assert Written(b, st, now).events == b.events + [e];
      BookedByOneMore(b.events, e);
    }
  }

  lemma {:induction false} StatementLeaves(b: Booking, st: Statement, now: int)
    requires !st.Paid?
    ensures
      var b' := Apply(b, st, now, false);
      && (b'.status == AwaitingPayment ==> b.status == AwaitingPayment)
      && (b'.status !in {AwaitingPayment, Expired} ==> b.status !in {AwaitingPayment, Expired})
      && (b.status == Expired ==> b'.status == Expired)
      && (b.status == AwaitingPayment ==> b'.status in {AwaitingPayment, Expired})
      && (Refunding(b.status) ==> b' == b)
  {
    EndingsStand(b, st, now, false);
  }

  lemma {:induction false} StatementKeepsBooking(t: Tables, st: Statement, now: int)
    requires BookingOk(t) && !st.Paid?
    ensures
      var t' := OnBooking(t, st, now, false);
      && BookingOk(t') && BookingStands(t, t')
      && (t.booking.status != AwaitingPayment ==> t'.booking.status != AwaitingPayment)
  {
    StatementTells(t.booking, st, now);
    StatementLeaves(t.booking, st, now);
  }

  lemma {:induction false} StatementKeeps(w: World, st: Statement, now: int)
    requires WorldOk(w) && !st.Paid?
    ensures
      var w' := w.(t := OnBooking(w.t, st, now, false));
      WorldOk(w') && Evolves(w, w')
  {
    StatementKeepsBooking(w.t, st, now);
    var t' := OnBooking(w.t, st, now, false);
    assert t'.payments == w.t.payments && t'.price == w.t.price;
    ExposedKeeps(w, w.(t := t'));
  }

  /** One row moves on and anything else of the tables may change: all but the booking's part. */
  lemma {:induction false} RowMovesOn(w: World, p: nat, row: Payment, t: Tables)
    requires WorldOk(w) && p < |w.t.payments|
    requires t.payments == w.t.payments[p := row] && t.price == w.t.price
    requires row.intent == w.t.payments[p].intent && row.kind == w.t.payments[p].kind
    requires row.amount == w.t.payments[p].amount && RowOk(row, w.intents, w.landed, w.t.price)
    requires w.t.payments[p].status != Open ==> row.status == w.t.payments[p].status
    requires w.t.booking.status != AwaitingPayment ==> t.booking.status != AwaitingPayment
    requires BookingStands(w.t, t)
    ensures
      var w' := w.(t := t);
      RowsOk(t.payments, w.intents, w.landed, t.price) && StripeOk(w') && ExposedOk(w') && Evolves(w, w')
  {
    var w' := w.(t := t);
    assert Evolves(w, w');
    ExposedKeeps(w, w');
  }

  /** The booking's part when an open payment has just landed. */
  lemma {:induction false} LandingKeepsBooking(t: Tables, p: nat, status: PaymentStatus, settledAt: Option<int>,
                                               jobs: set<SettleJob>, now: int, ttlHours: nat)
    requires BookingOk(t) && p < |t.payments| && t.payments[p].status == Open
    requires forall q :: 0 <= q < |t.payments| && q != p ==> t.payments[q].status == Void
    requires status in {Checked, PaidUp} && t.jobs <= jobs
    requires status == PaidUp && !LiveCheckout(t, now) ==> LatePaid(p) in jobs
    ensures
      var row := t.payments[p].(status := status, settledAt := settledAt);
      BookingOk(BookLive(t.(payments := t.payments[p := row], jobs := jobs), p, now, ttlHours))
  {
    BookedByOneMore(t.booking.events, PaymentLanded(p));
  }

  /** What a reconcile does to the booking. */
  lemma {:induction false} ReconcileStands(t: Tables, p: nat, seen: IntentStatus, seenAmount: nat, now: int,
                                           ttlHours: nat)
    requires p < |t.payments|
    ensures
      var t' := ReconcileTx(t, p, seen, seenAmount, now, ttlHours);
      && BookingStands(t, t')
      && (t.booking.status != AwaitingPayment ==> t'.booking.status != AwaitingPayment)
  {
    BookedByOneMore(t.booking.events, PaymentLanded(p));
  }

  /** A landing that Stripe reported moves the row on, and the booking with it. */
  lemma {:induction false} LandingKeeps(w: World, p: nat, seen: IntentStatus, seenAmount: nat, now: int, ttlHours: nat)
    requires WorldOk(w) && ActorOk(w, Write(p, seen, seenAmount, Stop))
    requires w.t.payments[p].status == Open && Landed(w.t.payments[p].intent, w.t.payments[p].kind, seen)
    ensures
      var w' := w.(t := ReconcileTx(w.t, p, seen, seenAmount, now, ttlHours));
      WorldOk(w') && Evolves(w, w')
  {
    var t := ReconcileTx(w.t, p, seen, seenAmount, now, ttlHours);
    assert RowOk(w.t.payments[p], w.intents, w.landed, w.t.price);
    ReconcileStands(w.t, p, seen, seenAmount, now, ttlHours);
    if t != w.t {
      RowMovesOn(w, p, t.payments[p], t);
      LandingKeepsBooking(w.t, p, t.payments[p].status, t.payments[p].settledAt, t.jobs, now, ttlHours);
    }
  }

  lemma {:induction false} ReconcileKeeps(w: World, p: nat, seen: IntentStatus, seenAmount: nat, next: Next, now: int,
                                          ttlHours: nat)
    requires WorldOk(w) && ActorOk(w, Write(p, seen, seenAmount, next))
    ensures
      var w' := w.(t := ReconcileTx(w.t, p, seen, seenAmount, now, ttlHours));
      WorldOk(w') && Evolves(w, w')
  {
    var row := w.t.payments[p];
    if row.status == Open && Landed(row.intent, row.kind, seen) {
      LandingKeeps(w, p, seen, seenAmount, now, ttlHours);
    } else if row.status == Open && seen == Canceled {
      VoidKeeps(w, p, now);
    }
  }

  lemma {:induction false} ReleaseKeeps(w: World, p: nat, now: int)
    requires WorldOk(w) && p < |w.t.payments| && w.t.payments[p].status == Checked && HoldIsGone(w, p)
    ensures
      var w' := w.(t := Released(w.t, p, now));
      WorldOk(w') && Evolves(w, w')
  {
    ExposedKeeps(w, w.(t := Released(w.t, p, now)));
  }

  lemma {:induction false} RefundRecordedKeeps(w: World, p: nat, due: nat, now: int)
    requires WorldOk(w) && p < |w.t.payments| && w.t.payments[p].status == PaidUp
    ensures
      var w' := w.(t := RefundRecorded(w.t, p, due, now));
      WorldOk(w') && Evolves(w, w')
  {
    RowMovesOn(w, p, w.t.payments[p].(refunded := due, settledAt := Some(now)), RefundRecorded(w.t, p, due, now));
  }

  lemma {:induction false} RefundToldStands(t: Tables, due: nat, refused: bool)
    requires BookingOk(t)
    ensures BookingOk(RefundTold(t, due, refused)) && BookingStands(t, RefundTold(t, due, refused))
  {
    BookedByOneMore(t.booking.events, RefundSent(due));
    ClientPctOneMore(t.booking.events, RefundSent(due));
  }

  lemma {:induction false} RefundToldKeeps(w: World, due: nat, refused: bool)
    requires WorldOk(w)
    ensures
      var w' := w.(t := RefundTold(w.t, due, refused));
      WorldOk(w') && Evolves(w, w')
  {
    RefundToldStands(w.t, due, refused);
    assert RefundTold(w.t, due, refused).payments == w.t.payments;
    ExposedKeeps(w, w.(t := RefundTold(w.t, due, refused)));
  }

  lemma {:induction false} EvolvesOn(a: World, b: World, c: World)
    requires Evolves(a, b) && Evolves(b, c)
    ensures Evolves(a, c)
  {
  }

  lemma {:induction false} ExpireAndTellKeeps(w: World, due: nat, refused: bool, now: int)
    requires WorldOk(w)
    ensures
      var w' := w.(t := RefundTold(OnBooking(w.t, ExpireOne, now, false), due, refused));
      WorldOk(w') && Evolves(w, w')
  {
    var ended := w.(t := OnBooking(w.t, ExpireOne, now, false));
    StatementKeeps(w, ExpireOne, now);
    RefundToldKeeps(ended, due, refused);
    EvolvesOn(w, ended, ended.(t := RefundTold(ended.t, due, refused)));
  }

  lemma {:induction false} RefundKeeps(w: World, r: SettleRow, due: nat, refused: bool, now: int)
    requires WorldOk(w) && r.payment < |w.t.payments| && w.t.payments[r.payment].status == PaidUp
    ensures
      var w' := w.(t := RefundTx(w.t, r, due, refused, now));
      WorldOk(w') && Evolves(w, w')
  {
    if w.t.payments[r.payment].settledAt.None? {
      var done := w.(t := RefundRecorded(w.t, r.payment, due, now));
      RefundRecordedKeeps(w, r.payment, due, now);
      if r.bookingStatus == AwaitingPayment {
        ExpireAndTellKeeps(done, due, refused, now);
      } else {
        RefundToldKeeps(done, due, refused);
      }
      EvolvesOn(w, done, w.(t := RefundTx(w.t, r, due, refused, now)));
    }
  }

  // ---- Every step keeps the invariant ----

  predicate StepOk(w: World, r: (World, Actor)) {
    WorldOk(r.0) && Evolves(w, r.0) && ActorOk(r.0, r.1)
  }

  /** A step that writes nothing. */
  lemma {:induction false} Unmoved(w: World, a: Actor)
    requires WorldOk(w) && ActorOk(w, a)
    ensures StepOk(w, (w, a))
  {
  }

  /** A step to a world already known to be in order. */
  lemma {:induction false} MovedTo(w: World, w': World, a: Actor)
    requires WorldOk(w') && Evolves(w, w') && ActorOk(w', a)
    ensures StepOk(w, (w', a))
  {
  }

  lemma {:induction false} ActStartKeeps(w: World, a: Actor, now: int, c: Choice)
    requires WorldOk(w) && ActorOk(w, a) && (a.StartCreate? || a.StartInsert? || a.StartGiveBack? || a.Reply?)
    ensures StepOk(w, ActStart(w, a, now, c))
  {
    match a
    case StartCreate(kind) => if MayCreate(w, 1, kind, c) { CallCreateKeeps(w, 1, kind, c); }
    case StartInsert(kind, made) => if MayInsert(w.t, made) { InsertKeeps(w, kind, made); }
    case StartGiveBack => StatementKeeps(w, ExpireOne, now);
    case Reply(intent) =>
  }

  lemma {:induction false} ActReconcileKeeps(w: World, a: Actor, now: int, c: Choice)
    requires WorldOk(w) && ActorOk(w, a) && (a.Reconcile? || a.Look? || a.Write?)
    ensures StepOk(w, ActReconcile(w, a, now, c))
  {
    if a.Write? { ReconcileKeeps(w, a.payment, a.seen, a.seenAmount, a.next, now, c.ttlHours); }
  }

  lemma {:induction false} SettleReads(w: World, now: int, final: bool)
    requires WorldOk(w)
    ensures ActorOk(w, Rows(SettleRows(w.t, now), false, final))
  {
    forall r | r in SettleRows(w.t, now) ensures RowRead(w, r) {
      assert RowOk(w.t.payments[r.payment], w.intents, w.landed, w.t.price);
    }
  }

  lemma {:induction false} AfterCancelOk(w: World, r: SettleRow, rest: seq<SettleRow>, again: bool, final: bool,
                                         canceled: bool)
    requires RowRead(w, r) && RowsRead(w, rest) && r.status in {Open, Checked}
    requires w.t.payments[r.payment].intent in w.intents
    requires canceled ==> w.intents[w.t.payments[r.payment].intent].status == Canceled
    ensures ActorOk(w, AfterCancel(r, rest, again, final, canceled))
  {
  }

  lemma {:induction false} CancelRowKeeps(w: World, rows: seq<SettleRow>, again: bool, final: bool, id: IntentId,
                                          took: bool)
    requires WorldOk(w) && RowsRead(w, rows) && rows != [] && rows[0].status in {Open, Checked}
    requires rows[0].payment < |w.t.payments| && w.t.payments[rows[0].payment].intent == id && id in w.intents
    ensures
      var w' := CancelAt(w, id, took);
      && WorldOk(w') && Evolves(w, w')
      && ActorOk(w', AfterCancel(rows[0], rows[1..], again, final, w'.intents[id].status == Canceled))
  {
    var w' := CancelAt(w, id, took);
    CancelKeeps(w, id, took);
    ActorKeeps(w, w', Rows(rows, again, final));
    AfterCancelOk(w', rows[0], rows[1..], again, final, w'.intents[id].status == Canceled);
  }

  lemma {:induction false} SettleRowsKeep(w: World, rows: seq<SettleRow>, again: bool, final: bool, c: Choice)
    requires WorldOk(w) && RowsRead(w, rows)
    ensures StepOk(w, ActRows(w, rows, again, final, c))
  {
    if rows != [] {
      var r := rows[0];
      assert RowRead(w, r) && RowOk(w.t.payments[r.payment], w.intents, w.landed, w.t.price);
      var id := w.t.payments[r.payment].intent;
      if (r.status == Open && !r.live) || (r.status == Checked && id.Pi?) {
        CancelRowKeeps(w, rows, again, final, id, c.took);
        assert ActRows(w, rows, again, final, c).0 == CancelAt(w, id, c.took);
      } else {
        assert ActRows(w, rows, again, final, c).0 == w;
        Unmoved(w, ActRows(w, rows, again, final, c).1);
      }
    }
  }

  lemma {:induction false} SettleMarkKeeps(w: World, a: Actor, now: int, c: Choice)
    requires WorldOk(w) && ActorOk(w, a) && a.SettleMark?
    ensures StepOk(w, ActSettle(w, a, now, c))
  {
    VoidKeeps(w, a.row.payment, now);
    ActorKeeps(w, w.(t := MarkVoid(w.t, a.row.payment, now)), Rows(a.rest, a.again, a.final));
  }

  lemma {:induction false} SettleReleaseKeeps(w: World, a: Actor, now: int, c: Choice)
    requires WorldOk(w) && ActorOk(w, a) && a.SettleRelease?
    ensures StepOk(w, ActSettle(w, a, now, c))
  {
    ReleaseKeeps(w, a.row.payment, now);
    ActorKeeps(w, w.(t := Released(w.t, a.row.payment, now)), Rows(a.rest, a.again, a.final));
  }

  lemma {:induction false} SettleRefundKeeps(w: World, r: SettleRow, now: int, c: Choice)
    requires WorldOk(w) && RowRead(w, r) && r.status == PaidUp
    ensures
      var w' := ActRefund(w, r, now, c).0;
      WorldOk(w') && Evolves(w, w')
  {
    var due := DueOf(r, w.t.payments[r.payment].amount);
    if due.Some? { RefundKeeps(w, r, due.value, c.refused, now); }
  }

  lemma {:induction false} ResumeTxKeeps(w: World, p: nat, kind: Kind, made: IntentId, now: int)
    requires WorldOk(w) && Stopped(w, p) && MadeOk(w, kind, made)
    ensures
      var r := ResumeTx(w.t, p, kind, made, now);
      r.Stored? ==>
        var w' := w.(t := r.tables);
        WorldOk(w') && Evolves(w, w') && HasRow(w'.t.payments, made)
  {
    var marked := w.(t := MarkVoid(w.t, p, now));
    VoidKeeps(w, p, now);
    if ResumeTx(w.t, p, kind, made, now).Stored? {
      InsertKeeps(marked, kind, made);
      EvolvesOn(w, marked, marked.(t := InsertPayment(marked.t, kind, made)));
    }
  }

  /** What LIVE_PAYMENT reads: a row that is closed cannot be paid any more. */
  lemma {:induction false} LivePaymentStopped(w: World)
    requires WorldOk(w)
    ensures
      var live := LivePayment(w.t);
      live.Some? ==> && w.t.payments[live.value].intent in w.intents
                     && (w.t.payments[live.value].status != Open ==> Stopped(w, live.value))
  {
  }

  lemma {:induction false} ResumeInsertKeeps(w: World, p: nat, kind: Kind, made: IntentId, now: int, c: Choice)
    requires WorldOk(w) && ActorOk(w, ResumeInsert(p, kind, made))
    ensures StepOk(w, ActResumeInsert(w, p, kind, made, now, c))
  {
    var r := ActResumeInsert(w, p, kind, made, now, c);
    if r.0 == w {
      Unmoved(w, r.1);
    } else {
      ResumeTxKeeps(w, p, kind, made, now);
      MovedTo(w, r.0, r.1);
    }
  }

  lemma {:induction false} ResumeCancelKeeps(w: World, a: Actor, now: int, c: Choice)
    requires WorldOk(w) && ActorOk(w, a) && (a.ResumeCancel? || a.Orphan?)
    ensures StepOk(w, ActResume(w, a, now, c))
  {
    var id := if a.ResumeCancel? then w.t.payments[a.payment].intent else a.made;
    if id in w.intents { CancelKeeps(w, id, c.took); }
  }

  lemma {:induction false} ResumeCreateKeeps(w: World, p: nat, n: nat, kind: Kind, c: Choice)
    requires WorldOk(w) && ActorOk(w, ResumeCreate(p, n, kind))
    ensures StepOk(w, ActResumeCreate(w, p, n, kind, c))
  {
    if MayCreate(w, n + 1, kind, c) {
      CallCreateKeeps(w, n + 1, kind, c);
      StoppedKeeps(w, CallCreate(w, n + 1, kind, c).0, p);
    }
  }

  lemma {:induction false} ResumeReadKeeps(w: World, a: Actor, now: int, c: Choice)
    requires WorldOk(w) && ActorOk(w, a)
    requires a.Resume? || a.ResumeLook? || a.ResumeConflict? || a.ResumeTwice?
    ensures StepOk(w, ActResume(w, a, now, c))
  {
    LivePaymentStopped(w);
    assert ActResume(w, a, now, c).0 == w;
    Unmoved(w, ActResume(w, a, now, c).1);
  }

  lemma {:induction false} AbandonReadKeeps(w: World, a: Actor, now: int, c: Choice)
    requires WorldOk(w) && ActorOk(w, a) && (a.Abandon? || a.AbandonCancel?)
    ensures StepOk(w, ActAbandon(w, a, now, c))
  {
    var r := ActAbandon(w, a, now, c);
    if a.Abandon? {
      LivePaymentStopped(w);
      Unmoved(w, r.1);
    } else {
      CancelKeeps(w, w.t.payments[a.payment].intent, c.took);
      MovedTo(w, r.0, r.1);
    }
  }

  lemma {:induction false} AbandonTxKeeps(w: World, p: Option<nat>, now: int)
    requires WorldOk(w) && (p.Some? ==> Stopped(w, p.value))
    ensures
      var w' := w.(t := AbandonTx(w.t, p, now));
      WorldOk(w') && Evolves(w, w')
  {
    if w.t.booking.status == AwaitingPayment {
      var gone := w.(t := OnBooking(w.t, ExpireOne, now, false));
      StatementKeeps(w, ExpireOne, now);
      if p.Some? {
        StoppedKeeps(w, gone, p.value);
        VoidKeeps(gone, p.value, now);
        EvolvesOn(w, gone, gone.(t := MarkVoid(gone.t, p.value, now)));
      }
    } else {
      Unmoved(w, Done);
    }
  }

  lemma {:induction false} AbandonWriteKeeps(w: World, a: Actor, now: int, c: Choice)
    requires WorldOk(w) && ActorOk(w, a) && a.AbandonWrite?
    ensures StepOk(w, ActAbandon(w, a, now, c))
  {
    if ActAbandon(w, a, now, c).0 == w {
      Unmoved(w, Done);
    } else {
      AbandonTxKeeps(w, a.read, now);
      MovedTo(w, w.(t := AbandonTx(w.t, a.read, now)), Done);
    }
  }

  lemma {:induction false} ActSettleKeeps(w: World, a: Actor, now: int, c: Choice)
    requires WorldOk(w) && ActorOk(w, a)
    requires a.Settle? || a.Rows? || a.SettleMark? || a.SettleRelease? || a.SettleRefund?
    ensures StepOk(w, ActSettle(w, a, now, c))
  {
    match a {
      case Settle(final) =>
        SettleReads(w, now, final);
        Unmoved(w, Rows(SettleRows(w.t, now), false, final));
      case Rows(rows, again, final) => SettleRowsKeep(w, rows, again, final, c);
      case SettleMark(_, _, _, _) => SettleMarkKeeps(w, a, now, c);
      case SettleRelease(_, _, _, _) => SettleReleaseKeeps(w, a, now, c);
      case SettleRefund(row, rest, again, final) =>
        var r := ActRefund(w, row, now, c);
        SettleRefundKeeps(w, row, now, c);
        ActorKeeps(w, r.0, Rows(rest, again, final));
        MovedTo(w, r.0, if r.1 then Rows(rest, again, final) else Done);
    }
  }

  lemma {:induction false} ActAbandonKeeps(w: World, a: Actor, now: int, c: Choice)
    requires WorldOk(w) && ActorOk(w, a) && (a.Abandon? || a.AbandonCancel? || a.AbandonWrite?)
    ensures StepOk(w, ActAbandon(w, a, now, c))
  {
    if a.AbandonWrite? { AbandonWriteKeeps(w, a, now, c); } else { AbandonReadKeeps(w, a, now, c); }
  }

  lemma {:induction false} ActResumeKeeps(w: World, a: Actor, now: int, c: Choice)
    requires WorldOk(w) && ActorOk(w, a)
    requires a.Resume? || a.ResumeLook? || a.ResumeCancel? || a.ResumeCreate? || a.ResumeInsert?
             || a.ResumeConflict? || a.ResumeTwice? || a.Orphan?
    ensures StepOk(w, ActResume(w, a, now, c))
  {
    if a.ResumeInsert? { ResumeInsertKeeps(w, a.payment, a.kind, a.made, now, c); }
    else if a.ResumeCancel? || a.Orphan? { ResumeCancelKeeps(w, a, now, c); }
    else if a.ResumeCreate? { ResumeCreateKeeps(w, a.payment, a.n, a.kind, c); }
    else { ResumeReadKeeps(w, a, now, c); }
  }

  lemma {:induction false} ActKeeps(w: World, a: Actor, now: int, c: Choice)
    requires WorldOk(w) && ActorOk(w, a)
    ensures StepOk(w, Act(w, a, now, c))
  {
    if a.Done? { Unmoved(w, a); }
    else if a.StartCreate? || a.StartInsert? || a.StartGiveBack? || a.Reply? { ActStartKeeps(w, a, now, c); }
    else if a.Reconcile? || a.Look? || a.Write? { ActReconcileKeeps(w, a, now, c); }
    else if a.Settle? || a.Rows? || a.SettleMark? || a.SettleRelease? || a.SettleRefund? {
      ActSettleKeeps(w, a, now, c);
    }
    else if a.Abandon? || a.AbandonCancel? || a.AbandonWrite? { ActAbandonKeeps(w, a, now, c); }
    else { ActResumeKeeps(w, a, now, c); }
  }

  lemma {:induction false} ProgressKeeps(w: World, id: IntentId, to: IntentStatus)
    requires WorldOk(w) && id in w.intents && id in w.exposed
    requires Forward(id, w.intents[id].kind, w.intents[id].status, to)
    ensures WorldOk(Progress(w, id, to)) && Evolves(w, Progress(w, id, to))
  {
    ExposedKeeps(w, Progress(w, id, to));
  }

  lemma {:induction false} OthersKeep(w: World, w': World, actors: seq<Actor>)
    requires Evolves(w, w') && forall i :: 0 <= i < |actors| ==> ActorOk(w, actors[i])
    ensures forall i :: 0 <= i < |actors| ==> ActorOk(w', actors[i])
  {
    forall i | 0 <= i < |actors| ensures ActorOk(w', actors[i]) {
      ActorKeeps(w, w', actors[i]);
    }
  }

  lemma {:induction false} GoKeeps(s: Checkouts, who: nat, now: int, c: Choice)
    requires Inv(s) && who < |s.actors|
    ensures Inv(Step(s, Go(who, now, c))) && Evolves(s.w, Step(s, Go(who, now, c)).w)
  {
    var r := Act(s.w, s.actors[who], now, c);
    ActKeeps(s.w, s.actors[who], now, c);
    OthersKeep(s.w, r.0, s.actors);
  }

  /** The world after something the actors do not do. */
  lemma {:induction false} ElsewhereKeeps(s: Checkouts, e: Happening)
    requires WorldOk(s.w) && !e.Go?
    ensures WorldOk(Step(s, e).w) && Evolves(s.w, Step(s, e).w)
  {
    match e {
      case Elsewhere(st, now) => if Foreign(st) { StatementKeeps(s.w, st, now); }
      case ClientPays(id, to) => if Step(s, e) != s { ProgressKeeps(s.w, id, to); }
      case Bank(id, to) => if Step(s, e) != s { ProgressKeeps(s.w, id, to); }
      case Lapses(id) => if id in s.w.intents { CancelKeeps(s.w, id, true); }
      case _ =>
    }
  }

  lemma {:induction false} StepKeeps(s: Checkouts, e: Happening)
    requires Inv(s)
    ensures Inv(Step(s, e)) && Evolves(s.w, Step(s, e).w)
  {
    if e.Go? {
      if e.who < |s.actors| { GoKeeps(s, e.who, e.now, e.choice); }
    } else {
      ElsewhereKeeps(s, e);
      OthersKeep(s.w, Step(s, e).w, s.actors);
    }
  }

  lemma {:induction false} RunKeeps(s: Checkouts, events: seq<Happening>)
    requires Inv(s)
    ensures Inv(Run(s, events)) && Evolves(s.w, Run(s, events).w)
  {
    if events != [] {
      var before := Run(s, events[..|events| - 1]);
      RunKeeps(s, events[..|events| - 1]);
      StepKeeps(before, events[|events| - 1]);
      EvolvesOn(s.w, before.w, Run(s, events).w);
    }
  }

  // ---- Safety over every run ----

  lemma {:induction false} PlacedIsOk(s: Checkouts)
    requires Placed(s)
    ensures Inv(s)
  {
    assert [Created][..0] == [];
    assert BookedBy([Created]) == BookedBy([]);
  }

  /**
   However the requests, jobs, crashes and Stripe's answers interleave, at any moment at most one
   intent of the booking holds the client's money, and it is one whose secret was handed out.
   */
  lemma {:induction false} AtMostOneHeld(s: Checkouts, events: seq<Happening>, a: IntentId, b: IntentId)
    requires Placed(s)
    requires
      var w := Run(s, events).w;
      && a in w.intents && Landed(a, w.intents[a].kind, w.intents[a].status)
      && b in w.intents && Landed(b, w.intents[b].kind, w.intents[b].status)
    ensures a == b && a in Run(s, events).w.exposed
  {
    PlacedIsOk(s);
    RunKeeps(s, events);
    var w := Run(s, events).w;
    var p :| 0 <= p < |w.t.payments| && w.t.payments[p].intent == a;
    var q :| 0 <= q < |w.t.payments| && w.t.payments[q].intent == b;
    assert RowOk(w.t.payments[p], w.intents, w.landed, w.t.price);
    assert RowOk(w.t.payments[q], w.intents, w.landed, w.t.price);
  }

  /** A charge is final: an intent charged at one moment and one charged at any later moment are
   the same, so the client is charged at most once for a booking, ever. */
  lemma {:induction false} ChargedOnce(s: Checkouts, before: seq<Happening>, after: seq<Happening>, a: IntentId,
                                       b: IntentId)
    requires Placed(s)
    requires
      var early, late := Run(s, before).w, Run(Run(s, before), after).w;
      && a in early.intents && early.intents[a].status == Succeeded
      && b in late.intents && late.intents[b].status == Succeeded
    ensures a == b
  {
    PlacedIsOk(s);
    RunKeeps(s, before);
    RunKeeps(Run(s, before), after);
    var w := Run(Run(s, before), after).w;
    assert Landed(a, w.intents[a].kind, Succeeded) && Landed(b, w.intents[b].kind, Succeeded);
    var p :| 0 <= p < |w.t.payments| && w.t.payments[p].intent == a;
    var q :| 0 <= q < |w.t.payments| && w.t.payments[q].intent == b;
    assert RowOk(w.t.payments[p], w.intents, w.landed, w.t.price);
    assert RowOk(w.t.payments[q], w.intents, w.landed, w.t.price);
  }

  /** Of two intents that ever went through, one is a card check whose authorisation has since been
   canceled: nothing was taken by it. */
  lemma {:induction false} LandedTwiceOnlyAfterARelease(s: Checkouts, events: seq<Happening>, a: IntentId, b: IntentId)
    requires Placed(s) && a != b && a in Run(s, events).w.landed && b in Run(s, events).w.landed
    ensures
      var w := Run(s, events).w;
      && a in w.intents && b in w.intents
      && ((a.Pi? && w.intents[a].kind == Check && w.intents[a].status == Canceled)
          || (b.Pi? && w.intents[b].kind == Check && w.intents[b].status == Canceled))
  {
    PlacedIsOk(s);
    RunKeeps(s, events);
    var w := Run(s, events).w;
    if Landed(a, w.intents[a].kind, w.intents[a].status) && Landed(b, w.intents[b].kind, w.intents[b].status) {
      AtMostOneHeld(s, events, a, b);
    }
  }

  /** So where no card check is an authorisation (cards are saved by SetupIntents, or only payments
   are taken), at most one intent of the booking ever lands. */
  lemma {:induction false} OneLandsWithoutCardHolds(s: Checkouts, events: seq<Happening>, a: IntentId, b: IntentId)
    requires Placed(s) && a in Run(s, events).w.landed && b in Run(s, events).w.landed
    requires
      var w := Run(s, events).w;
      forall id :: id in w.intents && id.Pi? ==> w.intents[id].kind == Pay
    ensures a == b
  {
    if a != b {
      LandedTwiceOnlyAfterARelease(s, events, a, b);
    }
  }

  /** A row marked canceled has a canceled intent at Stripe, for good. */
  lemma {:induction false} CanceledRowsStayCanceled(s: Checkouts, before: seq<Happening>, after: seq<Happening>, p: nat)
    requires Placed(s) && p < |Run(s, before).w.t.payments| && Run(s, before).w.t.payments[p].status == Void
    ensures
      var w := Run(Run(s, before), after).w;
      && p < |w.t.payments| && w.t.payments[p].intent in w.intents
      && w.intents[w.t.payments[p].intent].status == Canceled
  {
    PlacedIsOk(s);
    RunKeeps(s, before);
    RunKeeps(Run(s, before), after);
    var w := Run(Run(s, before), after).w;
    assert RowOk(w.t.payments[p], w.intents, w.landed, w.t.price);
  }

  // ---- No charge is lost ----

  /**
   A charge that reached its row either booked the checkout, which was announced once, or belongs
   to a booking that was never booked and never will be: it stays unbooked whatever happens later,
   a settle job was queued for it, and whenever its ending refunds, all of it is owed back.
   */
  lemma {:induction false} ChargesAreAnswered(s: Checkouts, before: seq<Happening>, after: seq<Happening>, p: nat,
                                              now: int)
    requires Placed(s) && p < |Run(s, before).w.t.payments| && Run(s, before).w.t.payments[p].status == PaidUp
    ensures
      var t, late := Run(s, before).w.t, Run(Run(s, before), after).w.t;
      && p < |late.payments|
      && if BookedBy(t.booking.events) == Some(p) then t.announced == 1 && t.booking.status != AwaitingPayment
         else
           && LatePaid(p) in t.jobs
           && BookedBy(late.booking.events) != Some(p)
           && late.booking.status in {AwaitingPayment, Expired}
           && (Lapsed(late.booking, now) || late.booking.status == Expired ==>
                 Refunding(Ending(late.booking, now)))
           && (Refunding(Ending(late.booking, now)) ==>
                 DueOf(RowOf(late, p, now), late.payments[p].amount) == Some(late.payments[p].amount))
  {
    PlacedIsOk(s);
    RunKeeps(s, before);
    RunKeeps(Run(s, before), after);
    var late := Run(Run(s, before), after).w.t;
    assert late.payments[p].status == PaidUp;
    assert RefundDue(late.payments[p].amount, 100) == late.payments[p].amount;
  }

  /** Whenever a charge's ending refunds, at whatever clock settling reads it, what is due is the same:
   overlapping and repeated settle runs never ask Stripe for different totals. */
  lemma {:induction false} DueIsConstant(s: Checkouts, before: seq<Happening>, after: seq<Happening>, p: nat, n: int,
                                         m: int)
    requires Placed(s) && p < |Run(s, before).w.t.payments| && Run(s, before).w.t.payments[p].status == PaidUp
    requires Refunding(Ending(Run(s, before).w.t.booking, n))
    ensures
      var t, late := Run(s, before).w.t, Run(Run(s, before), after).w.t;
      && p < |late.payments|
      && (Refunding(Ending(late.booking, m)) ==>
            DueOf(RowOf(late, p, m), late.payments[p].amount) == DueOf(RowOf(t, p, n), t.payments[p].amount))
  {
    PlacedIsOk(s);
    RunKeeps(s, before);
    RunKeeps(Run(s, before), after);
    var t, late := Run(s, before).w.t, Run(Run(s, before), after).w.t;
    if t.booking.status == AwaitingPayment {
      ChargesAreAnswered(s, before, after, p, m);
    }
  }

  /** A checkout is left at most once, and announced at most once, in any run; an announced one was
   booked by a payment that went through. */
  lemma {:induction false} LeftAndAnnouncedOnce(s: Checkouts, before: seq<Happening>, after: seq<Happening>)
    requires Placed(s)
    ensures
      var t, late := Run(s, before).w.t, Run(Run(s, before), after).w.t;
      && (t.booking.status != AwaitingPayment ==> late.booking.status != AwaitingPayment)
      && late.announced <= 1
      && (late.announced == 1 <==> BookedBy(late.booking.events).Some?)
      && (late.booking.status !in {AwaitingPayment, Expired} ==> late.announced == 1)
      && (BookedBy(late.booking.events).Some? ==>
            var p := BookedBy(late.booking.events).value;
            p < |late.payments| && late.payments[p].status in {Checked, PaidUp}
            && late.payments[p].intent in Run(Run(s, before), after).w.landed)
  {
    PlacedIsOk(s);
    RunKeeps(s, before);
    RunKeeps(Run(s, before), after);
    var w := Run(Run(s, before), after).w;
    var booker := BookedBy(w.t.booking.events);
    if booker.Some? {
      assert RowOk(w.t.payments[booker.value], w.intents, w.landed, w.t.price);
      var id := w.t.payments[booker.value].intent;
      assert IntentOk(id, w.intents[id], w.exposed, w.landed, w.t.price);
    }
  }

  // ---- A booking has one payment to settle ----

  predicate AllSettledBut(payments: seq<Payment>, p: nat) {
    p < |payments| && forall q :: 0 <= q < |payments| && q != p ==> payments[q].settledAt.Some?
  }

  /** A booking never has two payments that are both unsettled. */
  lemma {:induction false} OneUnsettled(w: World, p: nat)
    requires WorldOk(w) && p < |w.t.payments| && w.t.payments[p].settledAt.None?
    ensures AllSettledBut(w.t.payments, p)
  {
    assert RowOk(w.t.payments[p], w.intents, w.landed, w.t.price);
    forall q | 0 <= q < |w.t.payments| && q != p ensures w.t.payments[q].settledAt.Some? {
      assert RowOk(w.t.payments[q], w.intents, w.landed, w.t.price);
    }
  }

  lemma {:induction false} TwoRowsDiffer(t: Tables, now: int)
    ensures
      var rows := SettleRows(t, now);
      |rows| <= 1
      || exists p, q :: 0 <= p < q < |t.payments| && t.payments[p].settledAt.None? && t.payments[q].settledAt.None?
  {
    var rows := SettleRows(t, now);
    if |rows| >= 2 {
      assert rows[0] in rows && rows[1] in rows && rows[0].payment < rows[1].payment;
    }
  }

  lemma {:induction false} AtMostOneUnsettled(w: World, now: int)
    requires WorldOk(w)
    ensures
      var rows := SettleRows(w.t, now);
      && |rows| <= 1
      && (rows == [] ==> NothingOwed(w.t, now))
      && (forall r :: r in rows ==> AllSettledBut(w.t.payments, r.payment))
  {
    var rows := SettleRows(w.t, now);
    TwoRowsDiffer(w.t, now);
    forall r | r in rows ensures AllSettledBut(w.t.payments, r.payment) {
      OneUnsettled(w, r.payment);
    }
    if rows == [] {
      forall p | 0 <= p < |w.t.payments| ensures !Unsettled(w.t, p, now) {
        assert RowOf(w.t, p, now) in rows || w.t.payments[p].settledAt.Some?;
      }
    }
  }

  // ---- The sweep finds what settling acts on ----

  /** In every reachable state the rows settling acts on are those UNSETTLED selects, and, until the
   sweep's EXPIRE has run, a late charge on a hold that ran out. */
  lemma {:induction false} ActionsAreSelected(s: Checkouts, events: seq<Happening>, p: nat, now: int)
    requires Placed(s) && p < |Run(s, events).w.t.payments|
    ensures
      var t := Run(s, events).w.t;
      t.payments[p].settledAt.None? && HasAction(RowOf(t, p, now), t.payments[p].intent)
      <==> || Unsettled(t, p, now)
           || (t.payments[p].settledAt.None? && t.payments[p].status == PaidUp
               && t.booking.status == AwaitingPayment && Lapsed(t.booking, now))
  {
    PlacedIsOk(s);
    RunKeeps(s, events);
    var w := Run(s, events).w;
    assert RowOk(w.t.payments[p], w.intents, w.landed, w.t.price);
  }

  /**
   Right after EXPIRE with the same clock, the sweep selects exactly the bookings on which settling
   has an action. So when it selects none, no open intent is left on a dead booking, no hold is
   unreleased and no refund is unanswered.
   */
  lemma {:induction false} SweepIsExact(s: Checkouts, events: seq<Happening>, now: int)
    requires Placed(s)
    ensures
      var t := OnBooking(Run(s, events).w.t, Expire, now, false);
      && (forall p :: 0 <= p < |t.payments| ==>
            (Unsettled(t, p, now) <==>
             t.payments[p].settledAt.None? && HasAction(RowOf(t, p, now), t.payments[p].intent)))
      && ((forall p :: 0 <= p < |t.payments| ==> !Unsettled(t, p, now)) ==>
            forall p :: 0 <= p < |t.payments| ==>
              && (t.payments[p].status == Open ==> LiveCheckout(t, now))
              && (t.payments[p].status == Checked ==> t.payments[p].settledAt.Some?)
              && (t.payments[p].status == PaidUp && Refunding(t.booking.status) ==> t.payments[p].settledAt.Some?))
  {
    var swept := events + [Elsewhere(Expire, now)];
    assert swept[..|events|] == events;
    var t := OnBooking(Run(s, events).w.t, Expire, now, false);
    assert Run(s, swept).w.t == t;
    forall p | 0 <= p < |t.payments|
      ensures Unsettled(t, p, now) <==>
              t.payments[p].settledAt.None? && HasAction(RowOf(t, p, now), t.payments[p].intent)
    {
      ActionsAreSelected(s, swept, p, now);
      assert !(t.booking.status == AwaitingPayment && Lapsed(t.booking, now));
    }
    PlacedIsOk(s);
    RunKeeps(s, swept);
    forall p | 0 <= p < |t.payments| ensures t.payments[p].status == Open ==> t.payments[p].settledAt.None? {
      assert RowOk(t.payments[p], Run(s, swept).w.intents, Run(s, swept).w.landed, t.price);
    }
  }
}
