/**
 The checkout as the program runs it: the payment rows and the booking it updates in place, each
 transaction step by step, and one undisturbed settle of a booking from start to end.
 */
module CheckoutBackend {
  import opened Prelude
  import opened Bookings
  import opened Checkout
  import opened CheckoutProtocol
  import opened CheckoutSafety

  class Backend {
    var booking: Booking
    var payments: seq<Payment>
    var announced: nat
    var jobs: set<SettleJob>
    var intents: map<IntentId, Intent>  // Stripe's side
    var clock: int                      // never runs back during an undisturbed settle
    const price: nat
    const pendingTtlHours: nat
    ghost var w: World                  // the same state, with what only the environment knows
    ghost var failures: nat             // the calls to Stripe that failed
    ghost var refusals: nat             // the cancels Stripe answered with an intent it has not canceled

    ghost predicate Valid()
      reads this
    {
      && w.t == State() && w.intents == intents
      && WorldOk(w)
    }

    function State(): Tables
      reads this
    {
      Tables(booking, price, payments, announced, jobs)
    }

    constructor (row: Booking, price: nat, pendingTtlHours: nat, now: int)
      requires Born(row) && row.status == AwaitingPayment
      ensures Valid() && State() == Tables(row, price, [], 0, {}) && intents == map[] && clock == now
    {
      booking, payments, announced, jobs := row, [], 0, {};
      intents, clock := map[], now;
      this.price, this.pendingTtlHours := price, pendingTtlHours;
      w := World(Tables(row, price, [], 0, {}), map[], map[], {}, {});
      failures, refusals := 0, 0;
      new;
      BookedByOneMore([], Created);
      assert row.events == [] + [Created];
    }

    /** A transaction opens: its clock is not behind the last one's. */
    method Begin() returns (now: int)
      modifies this`clock
      ensures now == clock >= old(clock)
    {
      var passed: int :| 0 <= passed;
      clock := clock + passed;
      now := clock;
    }

    // ---- Stripe ----

    method RetrieveIntent(id: IntentId) returns (failed: bool, seen: Intent)
      requires id in intents
      modifies this`failures
      ensures failures == old(failures) + if failed then 1 else 0
      ensures !failed ==> seen == intents[id]
    {
      failed := *;
      seen := intents[id];
      failures := failures + if failed then 1 else 0;
    }

    /** A refund asked for. What Stripe does with it is in `Refunds`. */
    method AskRefund() returns (failed: bool, refused: bool)
      modifies this`failures
      ensures failures == old(failures) + if failed then 1 else 0
    {
      failed, refused := *, *;
      failures := failures + if failed then 1 else 0;
    }

    /** Stripe's answer to a cancel; `failed` leaves open whether it took effect. */
    method CancelIntent(id: IntentId) returns (failed: bool, status: IntentStatus, ghost took: bool)
      requires Valid() && id in intents
      modifies this`intents, this`w, this`failures, this`refusals
      ensures Valid() && w == CancelAt(old(w), id, took)
      ensures failures == old(failures) + if failed then 1 else 0
      ensures refusals == old(refusals) + if !failed && status != Canceled then 1 else 0
      ensures !failed ==> status == intents[id].status
    {
      failed := *;
      var accepted: bool := *;
      took := accepted;
      CancelKeeps(w, id, took);
      w := CancelAt(w, id, took);
      if accepted && intents[id].status != Succeeded {
        intents := intents[id := intents[id].(status := Canceled)];
      }
      status := intents[id].status;
      failures := failures + if failed then 1 else 0;
      refusals := refusals + if !failed && status != Canceled then 1 else 0;
    }

    // ---- Transactions ----

    method ExpireCheckout(now: int) returns (changed: bool)
      requires Valid()
      modifies this`booking, this`w
      ensures Valid() && State() == OnBooking(old(State()), ExpireOne, now, false)
      ensures w == old(w).(t := State())
      ensures changed <==> old(booking).status == AwaitingPayment
    {
      StatementKeeps(w, ExpireOne, now);
      changed := booking.status == AwaitingPayment;
      if changed {
        booking := SetStatus(booking, Expired);
      }
      w := w.(t := State());
    }

    method MarkCanceled(p: nat, now: int) returns (changed: bool)
      requires Valid() && Stopped(w, p)
      modifies this`payments, this`w
      ensures Valid() && State() == MarkVoid(old(State()), p, now) && w == old(w).(t := State())
      ensures changed <==> old(payments)[p].status == Open
    {
      VoidKeeps(w, p, now);
      changed := payments[p].status == Open;
      if changed {
        payments := payments[p := payments[p].(status := Void, settledAt := Some(now))];
      }
      w := w.(t := State());
    }

    /** PAID and, if it returned a row, its event and the announcement. */
    method TakeLanding(p: nat, now: int) returns (booked: bool)
      modifies this`booking, this`announced
      ensures State() == BookLive(old(State()), p, now, pendingTtlHours)
      ensures booked == LiveCheckout(old(State()), now)
    {
      booked := booking.status == AwaitingPayment && Holds(booking, now);
      if booked {
        if booking.autoConfirm {
          booking := booking.(status := Confirmed, expiresAt := None);
        } else {
          booking := booking.(status := Pending, expiresAt := Some(now + pendingTtlHours * HOUR));
        }
        booking := booking.(events := booking.events + [PaymentLanded(p)]);
        announced := announced + 1;
      }
    }

    /** The writing half of `reconcile`. */
    method WriteReconciled(p: nat, seen: Intent, now: int)
      requires Valid() && ActorOk(w, Write(p, seen.status, seen.amount, Stop))
      modifies this`booking, this`payments, this`announced, this`jobs, this`w
      ensures Valid() && w == old(w).(t := State())
      ensures State() == ReconcileTx(old(State()), p, seen.status, seen.amount, now, pendingTtlHours)
    {
      ReconcileKeeps(w, p, seen.status, seen.amount, Stop, now, pendingTtlHours);
      var row := payments[p];
      if row.status == Open && !(row.intent.Pi? && seen.amount != row.amount) {
        if Landed(row.intent, row.kind, seen.status) {
          if row.kind == Check {
            var settledAt := if row.intent.Seti? then Some(now) else row.settledAt;
            payments := payments[p := row.(status := Checked, settledAt := settledAt)];
            if !row.intent.Seti? {
              jobs := jobs + {ReleaseHold};
            }
            var booked := TakeLanding(p, now);
          } else {
            payments := payments[p := row.(status := PaidUp)];
            var booked := TakeLanding(p, now);
            if !booked {
              jobs := jobs + {LatePaid(p)};
            }
          }
        } else if seen.status == Canceled {
          payments := payments[p := row.(status := Void, settledAt := Some(now))];
        }
      }
      w := w.(t := State());
    }

    /** The two unique indexes refuse a row for this intent. */
    method Refuses(made: IntentId) returns (conflict: bool)
      ensures conflict <==> !MayInsert(State(), made)
    {
      conflict := false;
      var i := 0;
      while i < |payments| && !conflict
        invariant 0 <= i <= |payments|
        invariant conflict <==> exists q :: 0 <= q < i && (payments[q].status != Void || payments[q].intent == made)
      {
        conflict := payments[i].status != Void || payments[i].intent == made;
        i := i + 1;
      }
    }

    /** `resume`'s last transaction, rolled back as a whole on a unique violation. */
    method StoreResumed(p: nat, kind: Kind, made: IntentId, now: int) returns (gone: bool, conflict: bool)
      requires Valid() && Stopped(w, p) && MadeOk(w, kind, made)
      modifies this`payments, this`w
      ensures Valid()
      ensures
        match ResumeTx(old(State()), p, kind, made, now)
        case Gone => gone && State() == old(State())
        case Conflict => !gone && conflict && State() == old(State())
        case Stored(tables) => !gone && !conflict && State() == tables && HasRow(payments, made)
    {
      ResumeTxKeeps(w, p, kind, made, now);
      gone, conflict := !(booking.status == AwaitingPayment && Holds(booking, now)), false;
      if !gone {
        var before, wBefore := payments, w;
        var changed := MarkCanceled(p, now);
        conflict := Refuses(made);
        if conflict {
          payments, w := before, wBefore;
        } else {
          payments := payments + [Payment(kind, made, price, Open, None, 0)];
          w := w.(t := State());
        }
      }
    }

    /** `abandon`'s transaction. */
    method WriteAbandoned(p: Option<nat>, now: int) returns (ok: bool)
      requires Valid() && (p.Some? ==> Stopped(w, p.value))
      modifies this`booking, this`payments, this`w
      ensures Valid() && State() == AbandonTx(old(State()), p, now)
      ensures ok <==> old(booking).status == AwaitingPayment
    {
      ok := ExpireCheckout(now);
      if ok && p.Some? {
        var changed := MarkCanceled(p.value, now);
      }
    }

    method ReadSettleRows(now: int) returns (rows: seq<SettleRow>)
      ensures rows == SettleRows(State(), now)
    {
      rows := [];
      var p := |payments|;
      while p > 0
        invariant 0 <= p <= |payments|
        invariant rows == SettleRowsFrom(State(), p, now)
      {
        p := p - 1;
        if payments[p].settledAt.None? {
          rows := [RowOf(State(), p, now)] + rows;
        }
      }
    }

    method Release(p: nat, now: int)
      requires Valid() && p < |payments| && payments[p].status == Checked && HoldIsGone(w, p)
      modifies this`payments, this`w
      ensures Valid() && State() == Released(old(State()), p, now)
    {
      ReleaseKeeps(w, p, now);
      if payments[p].settledAt.None? {
        payments := payments[p := payments[p].(settledAt := Some(now))];
      }
      w := w.(t := State());
    }

    method RecordRefund(r: SettleRow, due: nat, refused: bool, now: int)
      requires Valid() && r.payment < |payments| && payments[r.payment].status == PaidUp
      modifies this`booking, this`payments, this`w
      ensures Valid() && State() == RefundTx(old(State()), r, due, refused, now)
    {
      RefundKeeps(w, r, due, refused, now);
      var row := payments[r.payment];
      if row.settledAt.None? {
        payments := payments[r.payment := row.(refunded := due, settledAt := Some(now))];
        if r.bookingStatus == AwaitingPayment && booking.status == AwaitingPayment {
          booking := SetStatus(booking, Expired);
        }
        if due > 0 && !refused {
          booking := booking.(events := booking.events + [RefundSent(due)]);
        }
      }
      w := w.(t := State());
    }

    // ---- Settling ----

    method ReconcileRow(p: nat) returns (raised: bool)
      requires Valid() && p < |payments|
      modifies this
      ensures Valid() && clock >= old(clock)
      ensures failures == old(failures) + (if raised then 1 else 0) && refusals == old(refusals)
    {
      assert RowOk(payments[p], intents, w.landed, price);
      var id := payments[p].intent;
      var seen;
      raised, seen := RetrieveIntent(id);
      if !raised {
        assert IntentOk(id, intents[id], w.exposed, w.landed, price);
        var now := Begin();
        WriteReconciled(p, seen, now);
      }
    }

    method SettleCharge(r: SettleRow, due: nat, refused: bool)
      requires Valid() && r.payment < |payments| && payments[r.payment].status == PaidUp
      requires payments[r.payment].settledAt.None?
      modifies this`clock, this`booking, this`payments, this`w
      ensures Valid() && clock >= old(clock)
      ensures |payments| == |old(payments)| && payments[r.payment].settledAt.Some?
      ensures forall p :: 0 <= p < |payments| && p != r.payment ==> payments[p] == old(payments)[p]
    {
      var now := Begin();
      RefundTouchesOneRow(State(), r, due, refused, now);
      RecordRefund(r, due, refused, now);
    }

    /** The refund of a charge nothing booked, or whose booking ended. */
    method RefundRow(r: SettleRow) returns (raised: bool)
      requires Valid() && r.payment < |payments| && payments[r.payment].status == PaidUp
      requires payments[r.payment].settledAt.None?
      modifies this
      ensures Valid() && clock >= old(clock) && failures >= old(failures) && refusals == old(refusals)
      ensures failures > old(failures) ==> raised
      ensures raised ==> booking == old(booking)
      ensures raised ==> failures > old(failures) || (r.ending == CancelledByClient && r.clientPct.None?)
      ensures |payments| == |old(payments)|
      ensures !raised ==> payments[r.payment].settledAt.Some?
      ensures forall p :: 0 <= p < |payments| && p != r.payment ==> payments[p] == old(payments)[p]
    {
      assert RowOk(payments[r.payment], intents, w.landed, price);
      var seen, refused;
      raised, seen := RetrieveIntent(payments[r.payment].intent);
      if raised { return; }
      var due := DueOf(r, payments[r.payment].amount);
      if due.None? { return true; }
      raised, refused := AskRefund();
      if !raised { SettleCharge(r, due.value, refused); }
    }

    /** A payment that may no longer be made: its intent is canceled, or looked at once more. */
    method StopRow(p: nat, final: bool) returns (again: bool, raised: bool)
      requires Valid() && p < |payments| && payments[p].status == Open && AllSettledBut(payments, p)
      modifies this
      ensures Valid() && clock >= old(clock) && failures >= old(failures) && refusals >= old(refusals)
      ensures failures > old(failures) ==> raised
      ensures raised ==> failures > old(failures) || refusals > old(refusals)
      ensures final ==> !again
      ensures !raised && !again ==> AllSettled(payments)
    {
      again, raised := false, false;
      assert RowOk(payments[p], intents, w.landed, price);
      var failed, status, took := CancelIntent(payments[p].intent);
      if failed { raised := true; return; }
      if status == Canceled {
        var now := Begin();
        var changed := MarkCanceled(p, now);
      } else if final {
        raised := true;
      } else {
        raised := ReconcileRow(p);
        again := !raised;
      }
    }

    /** A check nobody needs any more: its hold on the card is given back. */
    method ReleaseRow(p: nat) returns (raised: bool)
      requires Valid() && p < |payments| && payments[p].status == Checked && payments[p].intent.Pi?
      requires AllSettledBut(payments, p)
      modifies this
      ensures Valid() && clock >= old(clock) && failures >= old(failures) && refusals >= old(refusals)
      ensures failures > old(failures) ==> raised
      ensures raised ==> failures > old(failures) || refusals > old(refusals)
      ensures !raised ==> AllSettled(payments)
    {
      assert RowOk(payments[p], intents, w.landed, price);
      var failed, status, took := CancelIntent(payments[p].intent);
      if failed || status != Canceled { return true; }
      var now := Begin();
      Release(p, now);
      raised := false;
    }

    /** One row of `_settle_pass`. `again` is a reconcile that ran. */
    method SettleOne(row: SettleRow, ghost at: int, final: bool) returns (again: bool, raised: bool)
      requires Valid() && AllSettledBut(payments, row.payment)
      requires payments[row.payment].settledAt.None? && row == RowOf(State(), row.payment, at)
      modifies this
      ensures Valid() && clock >= old(clock) && failures >= old(failures) && refusals >= old(refusals)
      ensures failures > old(failures) ==> raised
      ensures raised ==> failures > old(failures) || refusals > old(refusals) || ShareIsMissing(booking)
      ensures final ==> !again
      ensures !raised && !again ==> NothingOwed(State(), at)
    {
      again, raised := false, false;
      if row.status == Open && !row.live {
        again, raised := StopRow(row.payment, final);
      } else if row.status == Checked && payments[row.payment].intent.Pi? {
        raised := ReleaseRow(row.payment);
      } else if row.status == PaidUp && Refunding(row.ending) {
        raised := RefundRow(row);
      } else {
        assert RowOk(payments[row.payment], intents, w.landed, price);
      }
    }

    /** One pass over what the booking still has to settle. `at` is the clock it read at. When it neither
     raises nor asks for another look, nothing it saw is owed an answer any more; it raises when a call
     fails, and otherwise only over an intent not canceled or a share not recorded. */
    method SettlePass(final: bool) returns (again: bool, raised: bool, at: int)
      requires Valid()
      modifies this
      ensures Valid() && clock >= at >= old(clock) && failures >= old(failures) && refusals >= old(refusals)
      ensures failures > old(failures) ==> raised
      ensures raised ==> failures > old(failures) || refusals > old(refusals) || ShareIsMissing(booking)
      ensures final ==> !again
      ensures !raised && !again ==> NothingOwed(State(), at)
    {
      again, raised := false, false;
      at := Begin();
      var rows := ReadSettleRows(at);
      AtMostOneUnsettled(w, at);
      var i := 0;
      while i < |rows| && !raised
        invariant 0 <= i <= |rows| <= 1
        invariant Valid() && clock >= at && (final ==> !again)
        invariant failures >= old(failures) && refusals >= old(refusals) && (failures > old(failures) ==> raised)
        invariant raised ==> failures > old(failures) || refusals > old(refusals) || ShareIsMissing(booking)
        invariant i == 0 ==> !again && !raised && rows == SettleRows(State(), at)
                             && forall r :: r in rows ==> AllSettledBut(payments, r.payment)
        invariant i == |rows| && !again && !raised ==> NothingOwed(State(), at)
      {
        var ran;
        ran, raised := SettleOne(rows[i], at, final);
        again := again || ran;
        i := i + 1;
      }
    }

    /** The settle job, undisturbed: when it does not raise, UNSETTLED no longer selects the booking. It
     raises when a call to Stripe fails, and otherwise only if Stripe has not canceled an intent it was
     asked to, or the client's cancellation recorded no percentage. */
    method SettleBooking() returns (raised: bool, at: int)
      requires Valid()
      modifies this
      ensures Valid() && at >= old(clock)
      ensures !raised ==> NothingOwed(State(), at)
      ensures failures > old(failures) ==> raised
      ensures raised ==> failures > old(failures) || refusals > old(refusals) || ShareIsMissing(booking)
    {
      var again;
      again, raised, at := SettlePass(false);
      if !raised && again {
        again, raised, at := SettlePass(true);
      }
    }
  }

  lemma {:induction false} RefundTouchesOneRow(t: Tables, r: SettleRow, due: nat, refused: bool, now: int)
    requires r.payment < |t.payments| && t.payments[r.payment].settledAt.None?
    ensures
      RefundTx(t, r, due, refused, now).payments
      == t.payments[r.payment := t.payments[r.payment].(refunded := due, settledAt := Some(now))]
  {
  }

  /** The client canceled the booking, and no event says what share goes back. */
  predicate ShareIsMissing(b: Booking) {
    b.status == CancelledByClient && ClientPct(b.events).None?
  }

  predicate AllSettled(payments: seq<Payment>) {
    forall q :: 0 <= q < |payments| ==> payments[q].settledAt.Some?
  }
}
