/**
 What the checkout's requests and jobs bring about when nothing disturbs them, from any state the
 interleavings reach: a report from Stripe is taken, a settle job leaves nothing to settle, and a
 resume, an abandon and a placement each do what they are for.
 */
module CheckoutEffects {
  import opened Prelude
  import opened Bookings
  import opened Checkout
  import opened CheckoutProtocol
  import opened CheckoutSafety

  // ---- One request or job by itself ----

  // The clock of one step, and what the step does not decide itself.
  datatype Tick = Tick(now: int, choice: Choice)

  function Goes(who: nat, ticks: seq<Tick>): seq<Happening> {
    if ticks == [] then [] else [Go(who, ticks[0].now, ticks[0].choice)] + Goes(who, ticks[1..])
  }

  function Alone(w: World, a: Actor, ticks: seq<Tick>): (World, Actor)
    decreases |ticks|
  {
    if ticks == [] then (w, a)
    else
      var (w', a') := Act(w, a, ticks[0].now, ticks[0].choice);
      Alone(w', a', ticks[1..])
  }

  lemma {:induction false} RunFirst(s: Checkouts, e: Happening, rest: seq<Happening>)
    ensures Run(s, [e] + rest) == Run(Step(s, e), rest)
  {
    var all := [e] + rest;
    if rest == [] {
      assert all == [e] && [e][..0] == [];
    } else {
      RunFirst(s, e, rest[..|rest| - 1]);
      assert all[..|all| - 1] == [e] + rest[..|rest| - 1];
    }
  }

  /** What the steps of one request do in a run is what they do on the world alone. */
  lemma {:induction false} RunsAlone(s: Checkouts, who: nat, ticks: seq<Tick>)
    requires who < |s.actors|
    ensures
      var end, r := Run(s, Goes(who, ticks)), Alone(s.w, s.actors[who], ticks);
      end.w == r.0 && |end.actors| == |s.actors| && end.actors[who] == r.1
    decreases |ticks|
  {
    if ticks != [] {
      var e := Go(who, ticks[0].now, ticks[0].choice);
      RunFirst(s, e, Goes(who, ticks[1..]));
      RunsAlone(Step(s, e), who, ticks[1..]);
    }
  }

  lemma {:induction false} DoneStays(w: World, ticks: seq<Tick>)
    ensures Alone(w, Done, ticks) == (w, Done)
    decreases |ticks|
  {
    if ticks != [] { DoneStays(w, ticks[1..]); }
  }

  /** No call to Stripe fails, no transaction is refused, and a cancel is refused only for a charge. */
  predicate Unhindered(ticks: seq<Tick>) {
    forall i :: 0 <= i < |ticks| ==> !ticks[i].choice.fails && ticks[i].choice.took
  }

  // ---- Who may do what ----

  /** A webhook event, a settle job, a resume and an abandon may start at any moment, and any request or job
   may be cut off at any moment; neither writes anything. */
  lemma {:induction false} AnyoneMayStartAndStop(s: Checkouts, a: Actor, who: nat)
    requires a.Reconcile? || a == Settle(false) || a.Resume? || a == Abandon
    ensures Step(s, Arrive(a)) == s.(actors := s.actors + [a])
    ensures who < |s.actors| ==> Step(s, Crash(who)) == s.(actors := s.actors[who := Done])
  {
  }

  /** A client with the secret of an intent may pay, and the bank may let a payment through that was under way;
   without the secret nothing is paid. Stripe may give up on what is not charged. */
  lemma {:induction false} ClientsPayWithTheSecret(s: Checkouts, id: IntentId)
    requires id in s.w.intents
    ensures
      var done := LandedStatus(id, s.w.intents[id].kind);
      var paid, banked := Step(s, ClientPays(id, done)).w, Step(s, Bank(id, done)).w;
      && (id in s.w.exposed && s.w.intents[id].status == Waiting ==>
            id in paid.intents && paid.intents[id].status == done && id in paid.landed)
      && (id !in s.w.exposed || s.w.intents[id].status != Waiting ==> paid == s.w)
      && (s.w.intents[id].status == Processing ==>
            id in banked.intents && banked.intents[id].status == done && id in banked.landed)
      && (s.w.intents[id].status != Processing ==> banked == s.w)
    ensures
      s.w.intents[id].status != Succeeded ==>
        id in Step(s, Lapses(id)).w.intents && Step(s, Lapses(id)).w.intents[id].status == Canceled
  {
  }

  // ---- A report from Stripe ----

  /** The payment `p` went through: its row says so, a checkout still held at the clock is booked by
   it and announced once more, and what is left to give back has its job. */
  ghost predicate TakenIn(t: Tables, t': Tables, p: nat, now: int, ttlHours: nat)
    requires p < |t.payments|
  {
    var row := t.payments[p];
    && |t'.payments| == |t.payments|
    && t'.payments[p].status == (if row.kind == Pay then PaidUp else Checked)
    && (row.intent.Seti? ==> t'.payments[p].settledAt == Some(now))
    && (row.intent.Pi? ==> t'.payments[p].settledAt.None?)
    && (row.kind == Check && row.intent.Pi? ==> ReleaseHold in t'.jobs)
    && (if t.booking.status == AwaitingPayment && Holds(t.booking, now) then
          && t'.booking.status == (if t.booking.autoConfirm then Confirmed else Pending)
          && t'.booking.expiresAt == (if t.booking.autoConfirm then None else Some(now + ttlHours * HOUR))
          && BookedBy(t'.booking.events) == Some(p)
          && t'.announced == t.announced + 1
        else
          && t'.booking == t.booking && t'.announced == t.announced
          && (row.kind == Pay ==> LatePaid(p) in t'.jobs))
  }

  /** The payment `p` can never go through, and its row says so. */
  ghost predicate ClosedIn(t: Tables, t': Tables, p: nat, now: int)
    requires p < |t.payments|
  {
    && |t'.payments| == |t.payments|
    && t'.payments[p].status == Void && t'.payments[p].settledAt == Some(now)
    && t'.booking == t.booking && t'.announced == t.announced && t'.jobs == t.jobs
  }

  ghost predicate OthersStay(t: Tables, t': Tables, p: nat) {
    && |t'.payments| == |t.payments|
    && forall q :: 0 <= q < |t.payments| && q != p ==> t'.payments[q] == t.payments[q]
  }

  /** What a report does to the rows: it is taken, it closes the payment, or it says nothing new. */
  ghost predicate Answered(t: Tables, t': Tables, p: nat, seen: IntentStatus, now: int, ttlHours: nat)
    requires p < |t.payments|
  {
    var row := t.payments[p];
    && OthersStay(t, t', p)
    && (if row.status == Open && Landed(row.intent, row.kind, seen) then TakenIn(t, t', p, now, ttlHours)
        else if row.status == Open && seen == Canceled then ClosedIn(t, t', p, now)
        else t' == t)
  }

  /** An open row is not settled, a SetupIntent is a check's, and the report is of the row's own amount. */
  predicate Reportable(row: Payment, seenAmount: nat) {
    && (row.status == Open ==> row.settledAt.None?)
    && (row.intent.Seti? ==> row.kind == Check) && seenAmount == row.amount
  }

  lemma {:induction false} LandingIsTaken(t: Tables, p: nat, seen: IntentStatus, amount: nat, now: int, ttlHours: nat)
    requires p < |t.payments| && Reportable(t.payments[p], amount) && t.payments[p].status == Open
    requires Landed(t.payments[p].intent, t.payments[p].kind, seen)
    ensures
      var t' := ReconcileTx(t, p, seen, amount, now, ttlHours);
      OthersStay(t, t', p) && TakenIn(t, t', p, now, ttlHours)
  {
    BookedByOneMore(t.booking.events, PaymentLanded(p));
  }

  lemma {:induction false} ReportIsAnswered(t: Tables, p: nat, seen: IntentStatus, amount: nat, now: int, ttlHours: nat)
    requires p < |t.payments| && Reportable(t.payments[p], amount)
    ensures Answered(t, ReconcileTx(t, p, seen, amount, now, ttlHours), p, seen, now, ttlHours)
  {
    var row := t.payments[p];
    if row.status == Open && Landed(row.intent, row.kind, seen) {
      LandingIsTaken(t, p, seen, amount, now, ttlHours);
    }
  }

  lemma {:induction false} WriteAnswers(w: World, p: nat, seen: IntentStatus, seenAmount: nat, next: Next, now: int,
                                        c: Choice)
    requires WorldOk(w) && ActorOk(w, Write(p, seen, seenAmount, next)) && !c.fails
    ensures
      var (w', a') := Act(w, Write(p, seen, seenAmount, next), now, c);
      w' == w.(t := w'.t) && Answered(w.t, w'.t, p, seen, now, c.ttlHours) && a' == After(next)
  {
    assert RowOk(w.t.payments[p], w.intents, w.landed, w.t.price);
    ReportIsAnswered(w.t, p, seen, seenAmount, now, c.ttlHours);
  }

  lemma {:induction false} ReachedIsOk(s: Checkouts, events: seq<Happening>)
    requires Placed(s)
    ensures Inv(Run(s, events))
  {
    PlacedIsOk(s);
    RunKeeps(s, events);
  }

  lemma {:induction false} OneMore(s: Checkouts, events: seq<Happening>, e: Happening)
    ensures Run(s, events + [e]) == Step(Run(s, events), e)
  {
    assert (events + [e])[..|events|] == events;
  }

  /** In any reachable state a request that has read Stripe's answer, and whose transaction is not
   refused, writes all that the answer means. */
  lemma {:induction false} AReportIsTaken(s: Checkouts, events: seq<Happening>, who: nat, now: int, c: Choice)
    requires Placed(s) && !c.fails
    requires var actors := Run(s, events).actors; who < |actors| && actors[who].Write?
    ensures
      var m := Run(s, events);
      var t, t' := m.w.t, Run(s, events + [Go(who, now, c)]).w.t;
      var p, seen := m.actors[who].payment, m.actors[who].seen;
      p < |t.payments| && Answered(t, t', p, seen, now, c.ttlHours)
  {
    var m := Run(s, events);
    ReachedIsOk(s, events);
    OneMore(s, events, Go(who, now, c));
    var a := m.actors[who];
    assert ActorOk(m.w, a);
    WriteAnswers(m.w, a.payment, a.seen, a.seenAmount, a.next, now, c);
  }

  lemma {:induction false} OnlyRowOf(w: World, p: nat)
    requires WorldOk(w) && p < |w.t.payments|
    ensures PaymentOf(w.t.payments, w.t.payments[p].intent) == Some(p)
  {
    assert forall q :: 0 <= q < |w.t.payments| && q != p ==> w.t.payments[q].intent != w.t.payments[p].intent;
  }

  lemma {:induction false} WriteAlone(w: World, p: nat, seen: IntentStatus, seenAmount: nat, ticks: seq<Tick>)
    requires WorldOk(w) && ActorOk(w, Write(p, seen, seenAmount, Stop)) && Unhindered(ticks) && ticks != []
    ensures
      var (w', a') := Alone(w, Write(p, seen, seenAmount, Stop), ticks);
      a'.Done? && w' == w.(t := w'.t)
      && Answered(w.t, w'.t, p, seen, ticks[0].now, ticks[0].choice.ttlHours)
  {
    WriteAnswers(w, p, seen, seenAmount, Stop, ticks[0].now, ticks[0].choice);
    DoneStays(Act(w, Write(p, seen, seenAmount, Stop), ticks[0].now, ticks[0].choice).0, ticks[1..]);
  }

  lemma {:induction false} LookAlone(w: World, p: nat, ticks: seq<Tick>)
    requires WorldOk(w) && p < |w.t.payments| && Unhindered(ticks) && |ticks| >= 2
    ensures
      var id := w.t.payments[p].intent;
      var (w', a') := Alone(w, Look(p, Stop), ticks);
      a'.Done? && w' == w.(t := w'.t) && id in w.intents
      && Answered(w.t, w'.t, p, w.intents[id].status, ticks[1].now, ticks[1].choice.ttlHours)
  {
    assert RowOk(w.t.payments[p], w.intents, w.landed, w.t.price);
    var i := w.intents[w.t.payments[p].intent];
    assert IntentOk(w.t.payments[p].intent, i, w.exposed, w.landed, w.t.price);
    WriteAlone(w, p, i.status, i.amount, ticks[1..]);
  }

  /** A webhook event about an intent: three steps later its row says what Stripe showed. */
  lemma {:induction false} AWebhookCatchesUp(s: Checkouts, events: seq<Happening>, p: nat, who: nat, ticks: seq<Tick>)
    requires Placed(s) && |ticks| >= 3 && Unhindered(ticks)
    requires
      var m := Run(s, events);
      who < |m.actors| && p < |m.w.t.payments| && m.actors[who] == Reconcile(m.w.t.payments[p].intent)
    ensures
      var m := Run(s, events);
      var id, end := m.w.t.payments[p].intent, Run(m, Goes(who, ticks));
      && id in m.w.intents && Finished(end, who)
      && Answered(m.w.t, end.w.t, p, m.w.intents[id].status, ticks[2].now, ticks[2].choice.ttlHours)
  {
    var m := Run(s, events);
    ReachedIsOk(s, events);
    OnlyRowOf(m.w, p);
    RunsAlone(m, who, ticks);
    LookAlone(m.w, p, ticks[1..]);
  }

  predicate Finished(s: Checkouts, who: nat) {
    who < |s.actors| && s.actors[who].Done?
  }
}
