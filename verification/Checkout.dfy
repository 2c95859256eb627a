/**
 The money side of one booking: its payment rows, Stripe's intents, and each database transaction
 of the checkout as one function on the rows. The rows of one booking are all that any of these
 transactions reads or writes.
 */
module Checkout {
  import opened Prelude
  import opened Bookings

  datatype Kind = Check | Pay

  // What Stripe calls an intent: `pi_...` or `seti_...`. The prefix is its type.
  datatype IntentId = Pi(n: nat) | Seti(n: nat)

  // `Waiting` stands for every status in which the client still has something to do.
  datatype IntentStatus = Waiting | Processing | RequiresCapture | Succeeded | Canceled

  datatype Intent = Intent(kind: Kind, amount: nat, status: IntentStatus)

  datatype PaymentStatus = Open | Checked | PaidUp | Void

  datatype Payment = Payment(
    kind: Kind, intent: IntentId, amount: nat, status: PaymentStatus, settledAt: Option<int>, refunded: nat)

  // The settle jobs a transaction enqueues, by their dedupe key.
  datatype SettleJob = LatePaid(payment: nat) | ReleaseHold

  datatype Tables = Tables(
    booking: Booking, price: nat, payments: seq<Payment>, announced: nat, jobs: set<SettleJob>)

  /** What Stripe shows once the client is done: money set aside for a card check, otherwise success. */
  function LandedStatus(id: IntentId, kind: Kind): IntentStatus {
    if kind == Check && id.Pi? then RequiresCapture else Succeeded
  }

  predicate Landed(id: IntentId, kind: Kind, status: IntentStatus) {
    status == LandedStatus(id, kind)
  }

  function RefundDue(amount: nat, pct: nat): nat {
    amount * pct / 100
  }

  /** The share is rounded down to whole minor units, and is never more than the charge. */
  lemma {:induction false} RefundDueIsTheShare(amount: nat, pct: nat)
    ensures 100 * RefundDue(amount, pct) <= amount * pct < 100 * (RefundDue(amount, pct) + 1)
    ensures pct <= 100 ==> RefundDue(amount, pct) <= amount
  {
    if pct <= 100 {
      assert amount * pct <= amount * 100;
    }
  }

  // ---- Statements on the payment rows ----

  predicate LiveCheckout(t: Tables, now: int) {
    t.booking.status == AwaitingPayment && Holds(t.booking, now)
  }

  /** What both unique indexes let in: every row so far is void, and none has this intent. */
  predicate MayInsert(t: Tables, intent: IntentId) {
    forall p :: 0 <= p < |t.payments| ==> t.payments[p].status == Void && t.payments[p].intent != intent
  }

  function InsertPayment(t: Tables, kind: Kind, intent: IntentId): Tables {
    t.(payments := t.payments + [Payment(kind, intent, t.price, Open, None, 0)])
  }

  function MarkVoid(t: Tables, p: nat, now: int): Tables
    requires p < |t.payments|
  {
    if t.payments[p].status == Open
    then t.(payments := t.payments[p := t.payments[p].(status := Void, settledAt := Some(now))])
    else t
  }

  function Released(t: Tables, p: nat, now: int): Tables
    requires p < |t.payments|
  {
    if t.payments[p].settledAt.None?
    then t.(payments := t.payments[p := t.payments[p].(settledAt := Some(now))])
    else t
  }

  function OnBooking(t: Tables, st: Statement, now: int, erased: bool): Tables {
    t.(booking := Apply(t.booking, st, now, erased))
  }

  /** The live payment, else the newest: `ORDER BY (status <> 'canceled') DESC, created_at DESC`. */
  function NewestFrom(payments: seq<Payment>, void: bool): (p: Option<nat>)
    ensures p.Some? ==> p.value < |payments| && (void || payments[p.value].status != Void)
    ensures p.None? ==> forall q :: 0 <= q < |payments| ==> !void && payments[q].status == Void
  {
    if payments == [] then None
    else
      var last := |payments| - 1;
      if void || payments[last].status != Void then Some(last) else NewestFrom(payments[..last], void)
  }

  function LivePayment(t: Tables): (p: Option<nat>)
    ensures p.Some? ==> p.value < |t.payments|
    ensures p.None? <==> t.payments == []
    ensures p.Some? && t.payments[p.value].status == Void
            ==> forall q :: 0 <= q < |t.payments| ==> t.payments[q].status == Void
  {
    var live := NewestFrom(t.payments, false);
    if live.Some? then live else NewestFrom(t.payments, true)
  }

  // ---- Transactions ----

  /** `_live`: PAID, and if it returned a row the event and the announcement. */
  function BookLive(t: Tables, p: nat, now: int, ttlHours: nat): Tables {
    if LiveCheckout(t, now)
    then t.(booking := Apply(t.booking, Paid(ttlHours, p), now, false), announced := t.announced + 1)
    else t
  }

  /** The writing half of `reconcile`, on what Stripe said. */
  function ReconcileTx(t: Tables, p: nat, seen: IntentStatus, seenAmount: nat, now: int, ttlHours: nat): Tables
    requires p < |t.payments|
  {
    var row := t.payments[p];
    if row.status != Open then t
    else if row.intent.Pi? && seenAmount != row.amount then t
    else if Landed(row.intent, row.kind, seen) then
      if row.kind == Check then
        var checked := row.(status := Checked, settledAt := if row.intent.Seti? then Some(now) else row.settledAt);
        var marked := t.(payments := t.payments[p := checked],
                         jobs := if row.intent.Seti? then t.jobs else t.jobs + {ReleaseHold});
        BookLive(marked, p, now, ttlHours)
      else
        var marked := t.(payments := t.payments[p := row.(status := PaidUp)]);
        if LiveCheckout(t, now) then BookLive(marked, p, now, ttlHours)
        else marked.(jobs := marked.jobs + {LatePaid(p)})
    else if seen == Canceled then MarkVoid(t, p, now)
    else t
  }

  datatype ResumeOutcome = Gone | Conflict | Stored(tables: Tables)

  /** `resume`'s transaction: the live test, MARK_CANCELED on the payment it replaces, the insert.
   A unique violation rolls all of it back. */
  function ResumeTx(t: Tables, p: nat, kind: Kind, made: IntentId, now: int): ResumeOutcome
    requires p < |t.payments|
  {
    if !LiveCheckout(t, now) then Gone
    else
      var marked := MarkVoid(t, p, now);
      if MayInsert(marked, made) then Stored(InsertPayment(marked, kind, made)) else Conflict
  }

  /** `abandon`'s transaction: EXPIRE_ONE must return a row, or everything is rolled back. */
  function AbandonTx(t: Tables, p: Option<nat>, now: int): Tables
    requires p.Some? ==> p.value < |t.payments|
  {
    if t.booking.status != AwaitingPayment then t
    else
      var gone := OnBooking(t, ExpireOne, now, false);
      if p.Some? then MarkVoid(gone, p.value, now) else gone
  }

  // ---- Settling ----

  // One row of SETTLE_ROWS.
  datatype SettleRow = SettleRow(
    payment: nat, status: PaymentStatus, live: bool, bookingStatus: Status, ending: Status, clientPct: Option<nat>)

  /** How the booking ended, as far as money goes: a lapsed checkout counts as expired before it is swept. */
  function Ending(b: Booking, now: int): Status {
    if b.status == AwaitingPayment && Lapsed(b, now) then Expired else b.status
  }

  /** The refund percentage of the latest client cancellation. */
  function ClientPct(events: seq<Event>): Option<nat> {
    if events == [] then None
    else
      var e := events[|events| - 1];
      if e.ClientCancelled? then Some(e.refundPct) else ClientPct(events[..|events| - 1])
  }

  function RowOf(t: Tables, p: nat, now: int): SettleRow
    requires p < |t.payments|
  {
    SettleRow(p, t.payments[p].status, LiveCheckout(t, now), t.booking.status, Ending(t.booking, now),
              ClientPct(t.booking.events))
  }

  function SettleRowsFrom(t: Tables, from: nat, now: int): (rows: seq<SettleRow>)
    requires from <= |t.payments|
    ensures forall r :: r in rows ==>
              from <= r.payment < |t.payments| && t.payments[r.payment].settledAt.None? && r == RowOf(t, r.payment, now)
    ensures forall p {:trigger RowOf(t, p, now)} {:trigger t.payments[p]} ::
              from <= p < |t.payments| && t.payments[p].settledAt.None? ==> RowOf(t, p, now) in rows
    ensures forall i, j :: 0 <= i < j < |rows| ==> rows[i].payment < rows[j].payment
    decreases |t.payments| - from
  {
    if from == |t.payments| then []
    else
      (if t.payments[from].settledAt.None? then [RowOf(t, from, now)] else [])
      + SettleRowsFrom(t, from + 1, now)
  }

  /** SETTLE_ROWS: the booking's unsettled payments, oldest first. */
  function SettleRows(t: Tables, now: int): seq<SettleRow> {
    SettleRowsFrom(t, 0, now)
  }

  /** UNSETTLED selects the booking for this payment: something is left to cancel, release or refund. */
  predicate Unsettled(t: Tables, p: nat, now: int)
    requires p < |t.payments|
  {
    var row := t.payments[p];
    && row.settledAt.None?
    && (|| (row.status == Open && !LiveCheckout(t, now))
        || row.status == Checked
        || (row.status == PaidUp && Refunding(t.booking.status)))
  }

  /** UNSETTLED selects none of the booking's payments. */
  predicate NothingOwed(t: Tables, now: int) {
    forall p :: 0 <= p < |t.payments| ==> !Unsettled(t, p, now)
  }

  /** `_settle_pass` has something to do for a row it read. */
  predicate HasAction(r: SettleRow, intent: IntentId) {
    || (r.status == Open && !r.live)
    || (r.status == Checked && intent.Pi?)
    || (r.status == PaidUp && Refunding(r.ending))
  }

  /** What the refund of a settle row sends back; None where the code raises instead of guessing. */
  function DueOf(r: SettleRow, amount: nat): Option<nat> {
    if r.ending != CancelledByClient then Some(RefundDue(amount, 100))
    else if r.clientPct.None? then None
    else Some(RefundDue(amount, r.clientPct.value))
  }

  function RefundRecorded(t: Tables, p: nat, due: nat, now: int): Tables
    requires p < |t.payments|
  {
    t.(payments := t.payments[p := t.payments[p].(refunded := due, settledAt := Some(now))])
  }

  function RefundTold(t: Tables, due: nat, refused: bool): Tables {
    if due > 0 && !refused
    then t.(booking := t.booking.(events := t.booking.events + [RefundSent(due)]))
    else t
  }

  /** `_refund`'s recording transaction: REFUNDED, and if it returned a row the hold that ran out
   is expired. `refused` is a refund Stripe will not send: recorded, but nothing went back. */
  function RefundTx(t: Tables, r: SettleRow, due: nat, refused: bool, now: int): Tables
    requires r.payment < |t.payments|
  {
    if t.payments[r.payment].settledAt.Some? then t
    else
      var done := RefundRecorded(t, r.payment, due, now);
      RefundTold(if r.bookingStatus == AwaitingPayment then OnBooking(done, ExpireOne, now, false) else done,
                 due, refused)
  }
}
