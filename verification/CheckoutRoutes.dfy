/**
 What the routes of a checkout bring about when nothing disturbs them, from any state the
 interleavings reach: placing hands out an intent or gives the slot back, a resume hands out one that
 can still be paid, and an abandon gives the slot back unless the client has been charged.
 */
module CheckoutRoutes {
  import opened Prelude
  import opened Bookings
  import opened Checkout
  import opened CheckoutProtocol
  import opened CheckoutSafety
  import opened CheckoutEffects

  predicate Charged(w: World, p: nat) {
    && p < |w.t.payments| && w.t.payments[p].status == Open
    && w.t.payments[p].intent in w.intents && w.intents[w.t.payments[p].intent].status == Succeeded
  }

  /** At most one payment is not void, and it is the one every request reads. */
  lemma {:induction false} OpenIsRead(w: World, p: nat)
    requires WorldOk(w) && p < |w.t.payments| && w.t.payments[p].status != Void
    ensures LivePayment(w.t) == Some(p)
    ensures forall q :: 0 <= q < |w.t.payments| && q != p ==> w.t.payments[q].status == Void
  {
    assert forall q :: 0 <= q < |w.t.payments| && q != p ==> w.t.payments[q].status == Void;
    NewestIsLive(w.t.payments, p);
  }

  lemma {:induction false} NewestIsLive(payments: seq<Payment>, p: nat)
    requires p < |payments| && payments[p].status != Void
    requires forall q :: 0 <= q < |payments| && q != p ==> payments[q].status == Void
    ensures NewestFrom(payments, false) == Some(p)
  {
    if p != |payments| - 1 { NewestIsLive(payments[..|payments| - 1], p); }
  }

  // ---- Abandon ----

  /** The slot is free again: the booking is over, and the payment `p` can never go through. */
  ghost predicate GivenBack(w: World, w': World, p: Option<nat>) {
    && w'.t.booking.status == Expired && w'.t.announced == w.t.announced && w'.t.jobs == w.t.jobs
    && |w'.t.payments| == |w.t.payments|
    && (forall q :: 0 <= q < |w.t.payments| && p != Some(q) ==> w'.t.payments[q] == w.t.payments[q])
    && (p.Some? && p.value < |w.t.payments| ==>
          && w'.t.payments[p.value].status == Void
          && w'.t.payments[p.value].intent in w'.intents
          && w'.intents[w'.t.payments[p.value].intent].status == Canceled)
  }

  lemma {:induction false} AbandonWriteAlone(w: World, p: Option<nat>, ticks: seq<Tick>)
    requires WorldOk(w) && ActorOk(w, AbandonWrite(p)) && Unhindered(ticks) && ticks != []
    requires w.t.booking.status == AwaitingPayment
    ensures
      var (w', a') := Alone(w, AbandonWrite(p), ticks);
      && a'.Done? && w'.intents == w.intents && |w'.t.payments| == |w.t.payments|
      && GivenBack(w, w', if p.Some? && w.t.payments[p.value].status == Open then p else None)
  {
    DoneStays(Act(w, AbandonWrite(p), ticks[0].now, ticks[0].choice).0, ticks[1..]);
  }

  lemma {:induction false} AbandonCancelAlone(w: World, p: nat, ticks: seq<Tick>)
    requires WorldOk(w) && p < |w.t.payments| && w.t.payments[p].status == Open && Unhindered(ticks) && |ticks| >= 3
    requires w.t.booking.status == AwaitingPayment
    ensures
      var (w', a') := Alone(w, AbandonCancel(p), ticks);
      && a'.Done?
      && if Charged(w, p) then Answered(w.t, w'.t, p, Succeeded, ticks[2].now, ticks[2].choice.ttlHours)
         else GivenBack(w, w', Some(p))
  {
    assert RowOk(w.t.payments[p], w.intents, w.landed, w.t.price);
    var id := w.t.payments[p].intent;
    CancelKeeps(w, id, true);
    var w' := CancelAt(w, id, true);
    if Charged(w, p) {
      LookAlone(w', p, ticks[1..]);
    } else {
      AbandonWriteAlone(w', Some(p), ticks[1..]);
    }
  }

  /** With an open payment: a charge is taken, or else the slot is given back and nothing can be charged. */
  lemma {:induction false} AnAbandonGivesBack(s: Checkouts, events: seq<Happening>, p: nat, who: nat, ticks: seq<Tick>)
    requires Placed(s) && |ticks| >= 4 && Unhindered(ticks)
    requires
      var m := Run(s, events);
      && who < |m.actors| && m.actors[who] == Abandon
      && p < |m.w.t.payments| && m.w.t.payments[p].status == Open
    ensures
      var m := Run(s, events);
      var end := Run(m, Goes(who, ticks));
      && Finished(end, who)
      && if !(m.w.t.booking.status == AwaitingPayment && Holds(m.w.t.booking, ticks[0].now)) then end.w == m.w
         else if Charged(m.w, p) then
           Answered(m.w.t, end.w.t, p, Succeeded, ticks[3].now, ticks[3].choice.ttlHours)
         else GivenBack(m.w, end.w, Some(p))
  {
    var m := Run(s, events);
    ReachedIsOk(s, events);
    RunsAlone(m, who, ticks);
    if LiveCheckout(m.w.t, ticks[0].now) {
      OpenIsRead(m.w, p);
      AbandonCancelAlone(m.w, p, ticks[1..]);
    } else {
      DoneStays(m.w, ticks[1..]);
    }
  }

  /** With none open the slot is given back at once, if the checkout still waits. */
  lemma {:induction false} AnAbandonWithoutOpenPayment(s: Checkouts, events: seq<Happening>, who: nat, ticks: seq<Tick>)
    requires Placed(s) && |ticks| >= 2 && Unhindered(ticks)
    requires
      var m := Run(s, events);
      && who < |m.actors| && m.actors[who] == Abandon
      && forall p :: 0 <= p < |m.w.t.payments| ==> m.w.t.payments[p].status != Open
    ensures
      var m := Run(s, events);
      var end := Run(m, Goes(who, ticks));
      && Finished(end, who)
      && if !(m.w.t.booking.status == AwaitingPayment && Holds(m.w.t.booking, ticks[0].now)) then end.w == m.w
         else GivenBack(m.w, end.w, None)
  {
    var m := Run(s, events);
    ReachedIsOk(s, events);
    RunsAlone(m, who, ticks);
    if LiveCheckout(m.w.t, ticks[0].now) {
      LivePaymentStopped(m.w);
      AbandonWriteAlone(m.w, LivePayment(m.w.t), ticks[1..]);
    } else {
      DoneStays(m.w, ticks[1..]);
    }
  }

  // ---- Resume ----

  /** Every create makes an intent of its own. */
  predicate MakesNew(w: World, kind: Kind, ticks: seq<Tick>) {
    forall i :: 0 <= i < |ticks| ==>
      && !ticks[i].choice.replay && ticks[i].choice.newId !in w.intents
      && (ticks[i].choice.newId.Pi? || kind == Check)
  }

  predicate HoldsThroughout(b: Booking, ticks: seq<Tick>) {
    b.status == AwaitingPayment && forall i :: 0 <= i < |ticks| ==> Holds(b, ticks[i].now)
  }

  /** The last payment is a new one of this kind, and its intent is in the client's hands. */
  ghost predicate HandedOut(w: World, w': World, kind: Kind, made: IntentId) {
    var n := |w.t.payments|;
    && |w'.t.payments| == n + 1 && w'.t.payments[n] == Payment(kind, made, w.t.price, Open, None, 0)
    && made !in w.intents && made in w'.exposed
    && made in w'.intents && w'.intents[made] == Intent(kind, w.t.price, Waiting)
  }

  /** A new intent of this kind has taken the place of payment `p`, which can never go through. */
  ghost predicate Replaced(w: World, w': World, p: nat, kind: Kind) {
    && p < |w.t.payments| < |w'.t.payments|
    && HandedOut(w, w', kind, w'.t.payments[|w.t.payments|].intent)
    && w'.t.payments[p].status == Void
    && w'.t.payments[p].intent in w'.intents && w'.intents[w'.t.payments[p].intent].status == Canceled
    && (forall q :: 0 <= q < |w.t.payments| && q != p ==> w'.t.payments[q] == w.t.payments[q])
    && w'.t.booking == w.t.booking && w'.t.announced == w.t.announced && w'.t.jobs == w.t.jobs
  }

  lemma {:induction false} ReplyAlone(w: World, id: IntentId, ticks: seq<Tick>)
    requires ticks != []
    ensures Alone(w, Reply(id), ticks) == (w.(exposed := w.exposed + {id}), Done)
  {
    DoneStays(w.(exposed := w.exposed + {id}), ticks[1..]);
  }

  /** Payment `p` is the only one that may not be void, and is not closed otherwise. */
  predicate OnlyOpen(t: Tables, p: nat) {
    && p < |t.payments| && t.payments[p].status in {Open, Void}
    && forall q :: 0 <= q < |t.payments| && q != p ==> t.payments[q].status == Void
  }

  lemma {:induction false} InsertStep(w: World, p: nat, kind: Kind, made: IntentId, now: int, c: Choice)
    requires OnlyOpen(w.t, p) && !c.fails && w.t.booking.status == AwaitingPayment && Holds(w.t.booking, now)
    requires forall q :: 0 <= q < |w.t.payments| ==> w.t.payments[q].intent != made
    ensures
      Act(w, ResumeInsert(p, kind, made), now, c)
      == (w.(t := InsertPayment(MarkVoid(w.t, p, now), kind, made)), Reply(made))
  {
    assert MayInsert(MarkVoid(w.t, p, now), made);
  }

  lemma {:induction false} ResumeInsertAlone(w: World, p: nat, kind: Kind, made: IntentId, ticks: seq<Tick>)
    requires OnlyOpen(w.t, p) && Unhindered(ticks) && |ticks| >= 2 && HoldsThroughout(w.t.booking, ticks)
    requires forall q :: 0 <= q < |w.t.payments| ==> w.t.payments[q].intent != made
    ensures
      Alone(w, ResumeInsert(p, kind, made), ticks)
      == (w.(t := InsertPayment(MarkVoid(w.t, p, ticks[0].now), kind, made), exposed := w.exposed + {made}), Done)
  {
    InsertStep(w, p, kind, made, ticks[0].now, ticks[0].choice);
    ReplyAlone(w.(t := InsertPayment(MarkVoid(w.t, p, ticks[0].now), kind, made)), made, ticks[1..]);
  }

  lemma {:induction false} CreateStep(w: World, p: nat, n: nat, kind: Kind, now: int, c: Choice)
    requires !c.fails && !c.replay && c.newId !in w.intents && (c.newId.Pi? || kind == Check)
    ensures
      Act(w, ResumeCreate(p, n, kind), now, c)
      == (w.(intents := w.intents[c.newId := Intent(kind, w.t.price, Waiting)],
             keys := w.keys[(n + 1, kind) := c.newId]), ResumeInsert(p, kind, c.newId))
  {
  }

  lemma {:induction false} ResumeCreateAlone(w: World, p: nat, kind: Kind, ticks: seq<Tick>)
    requires WorldOk(w) && OnlyOpen(w.t, p) && Stopped(w, p) && Unhindered(ticks) && |ticks| >= 3
    requires MakesNew(w, kind, ticks) && HoldsThroughout(w.t.booking, ticks)
    ensures Alone(w, ResumeCreate(p, |w.t.payments|, kind), ticks).1.Done?
    ensures Replaced(w, Alone(w, ResumeCreate(p, |w.t.payments|, kind), ticks).0, p, kind)
  {
    var n, c := |w.t.payments|, ticks[0].choice;
    CreateStep(w, p, n, kind, ticks[0].now, c);
    var w1 := Act(w, ResumeCreate(p, n, kind), ticks[0].now, c).0;
    forall q | 0 <= q < n ensures w.t.payments[q].intent != c.newId {
      assert RowOk(w.t.payments[q], w.intents, w.landed, w.t.price);
    }
    ResumeInsertAlone(w1, p, kind, c.newId, ticks[1..]);
    assert RowOk(w.t.payments[p], w.intents, w.landed, w.t.price);
    IsReplaced(w, w1, p, kind, c.newId, ticks[1].now);
  }

  lemma {:induction false} IsReplaced(w: World, w1: World, p: nat, kind: Kind, made: IntentId, now: int)
    requires OnlyOpen(w.t, p) && w1.t == w.t && made !in w.intents
    requires w1.intents == w.intents[made := Intent(kind, w.t.price, Waiting)]
    requires w.t.payments[p].intent in w.intents && w.intents[w.t.payments[p].intent].status == Canceled
    ensures
      Replaced(w, w1.(t := InsertPayment(MarkVoid(w.t, p, now), kind, made), exposed := w1.exposed + {made}), p, kind)
  {
  }

  lemma {:induction false} CancelStep(w: World, p: nat, n: nat, kind: Kind, now: int, c: Choice)
    requires p < |w.t.payments| && w.t.payments[p].intent in w.intents && !c.fails && c.took
    requires w.intents[w.t.payments[p].intent].status != Succeeded
    ensures
      Act(w, ResumeCancel(p, n, kind), now, c)
      == (CancelAt(w, w.t.payments[p].intent, true), ResumeCreate(p, n, kind))
  {
  }

  /** What replaces a payment after its intent was canceled has replaced it. */
  lemma {:induction false} ReplacedFromHere(w: World, w1: World, w': World, p: nat, kind: Kind)
    requires w1.t == w.t && w1.intents.Keys == w.intents.Keys && Replaced(w1, w', p, kind)
    ensures Replaced(w, w', p, kind)
  {
  }

  lemma {:induction false} ResumeCancelAlone(w: World, p: nat, kind: Kind, ticks: seq<Tick>)
    requires WorldOk(w) && p < |w.t.payments| && w.t.payments[p].status == Open && Unhindered(ticks) && |ticks| >= 4
    requires MakesNew(w, kind, ticks) && HoldsThroughout(w.t.booking, ticks)
    requires !Charged(w, p)
    ensures Alone(w, ResumeCancel(p, |w.t.payments|, kind), ticks).1.Done?
    ensures Replaced(w, Alone(w, ResumeCancel(p, |w.t.payments|, kind), ticks).0, p, kind)
  {
    assert RowOk(w.t.payments[p], w.intents, w.landed, w.t.price);
    var id, n := w.t.payments[p].intent, |w.t.payments|;
    var w1 := CancelAt(w, id, true);
    CancelKeeps(w, id, true);
    OpenIsRead(w, p);
    CancelStep(w, p, n, kind, ticks[0].now, ticks[0].choice);
    ResumeCreateAlone(w1, p, kind, ticks[1..]);
    ReplacedFromHere(w, w1, Alone(w1, ResumeCreate(p, n, kind), ticks[1..]).0, p, kind);
  }

  /** What a resume finds behind an open payment, and what it does about it. */
  ghost predicate Resumed(w: World, w': World, p: nat, kind: Kind, ticks: seq<Tick>)
    requires p < |w.t.payments| && w.t.payments[p].intent in w.intents && |ticks| >= 4
  {
    var row := w.t.payments[p];
    var status := w.intents[row.intent].status;
    if Landed(row.intent, row.kind, status) then
      Answered(w.t, w'.t, p, status, ticks[3].now, ticks[3].choice.ttlHours)
    else if status == Canceled || kind != row.kind then Replaced(w, w', p, kind)
    else w' == w.(exposed := w.exposed + {row.intent})
  }

  /** What a resume does next about the intent it looks at. */
  function AfterLook(row: Payment, status: IntentStatus, p: nat, n: nat, kind: Kind): Actor {
    if Landed(row.intent, row.kind, status) then Look(p, Stop)
    else if status == Canceled then ResumeCreate(p, n, kind)
    else if kind != row.kind then ResumeCancel(p, n, kind)
    else Reply(row.intent)
  }

  lemma {:induction false} LookStep(w: World, p: nat, n: nat, kind: Kind, now: int, c: Choice)
    requires p < |w.t.payments| && w.t.payments[p].intent in w.intents && !c.fails
    ensures
      var row := w.t.payments[p];
      Act(w, ResumeLook(p, n, kind), now, c) == (w, AfterLook(row, w.intents[row.intent].status, p, n, kind))
  {
  }

  lemma {:induction false} ResumeLookAlone(w: World, p: nat, kind: Kind, ticks: seq<Tick>)
    requires WorldOk(w) && p < |w.t.payments| && w.t.payments[p].status == Open && Unhindered(ticks) && |ticks| >= 6
    requires MakesNew(w, kind, ticks) && HoldsThroughout(w.t.booking, ticks)
    ensures
      var (w', a') := Alone(w, ResumeLook(p, |w.t.payments|, kind), ticks[1..]);
      a'.Done? && w.t.payments[p].intent in w.intents && Resumed(w, w', p, kind, ticks)
  {
    assert RowOk(w.t.payments[p], w.intents, w.landed, w.t.price);
    var row := w.t.payments[p];
    var status := w.intents[row.intent].status;
    assert IntentOk(row.intent, w.intents[row.intent], w.exposed, w.landed, w.t.price);
    LookStep(w, p, |w.t.payments|, kind, ticks[1].now, ticks[1].choice);
    assert ticks[1..][1..] == ticks[2..];
    AfterLookAlone(w, p, kind, ticks);
  }

  lemma {:induction false} AfterLookAlone(w: World, p: nat, kind: Kind, ticks: seq<Tick>)
    requires WorldOk(w) && p < |w.t.payments| && w.t.payments[p].status == Open && Unhindered(ticks) && |ticks| >= 6
    requires MakesNew(w, kind, ticks) && HoldsThroughout(w.t.booking, ticks)
    requires w.t.payments[p].intent in w.intents
    requires Landed(w.t.payments[p].intent, w.t.payments[p].kind, w.intents[w.t.payments[p].intent].status)
             || w.intents[w.t.payments[p].intent].status != Succeeded
    ensures
      var row := w.t.payments[p];
      var a := AfterLook(row, w.intents[row.intent].status, p, |w.t.payments|, kind);
      Alone(w, a, ticks[2..]).1.Done? && Resumed(w, Alone(w, a, ticks[2..]).0, p, kind, ticks)
  {
    var row := w.t.payments[p];
    var status := w.intents[row.intent].status;
    if Landed(row.intent, row.kind, status) {
      LookAlone(w, p, ticks[2..]);
    } else if status == Canceled {
      OpenIsRead(w, p);
      ResumeCreateAlone(w, p, kind, ticks[2..]);
    } else if kind != row.kind {
      ResumeCancelAlone(w, p, kind, ticks[2..]);
    } else {
      ReplyAlone(w, row.intent, ticks[2..]);
    }
  }

  /** With an open payment on a checkout still held, in the kind it has or in one on offer. */
  lemma {:induction false} AResumeHandsOut(s: Checkouts, events: seq<Happening>, p: nat, kind: Kind, who: nat,
                                           ticks: seq<Tick>)
    requires Placed(s) && |ticks| >= 6 && Unhindered(ticks)
    requires
      var m := Run(s, events);
      && who < |m.actors| && m.actors[who] == Resume(kind)
      && p < |m.w.t.payments| && m.w.t.payments[p].status == Open
      && MakesNew(m.w, kind, ticks) && HoldsThroughout(m.w.t.booking, ticks)
      && (kind == m.w.t.payments[p].kind || ticks[0].choice.offered)
    ensures
      var m := Run(s, events);
      var end := Run(m, Goes(who, ticks));
      && Finished(end, who) && m.w.t.payments[p].intent in m.w.intents && Resumed(m.w, end.w, p, kind, ticks)
  {
    var m := Run(s, events);
    ReachedIsOk(s, events);
    RunsAlone(m, who, ticks);
    OpenIsRead(m.w, p);
    ResumeLookAlone(m.w, p, kind, ticks);
  }

  /** With every payment void, a new intent takes the newest one's place. */
  lemma {:induction false} AResumeBeginsAgain(s: Checkouts, events: seq<Happening>, kind: Kind, who: nat,
                                              ticks: seq<Tick>)
    requires Placed(s) && |ticks| >= 4 && Unhindered(ticks)
    requires
      var m := Run(s, events);
      && who < |m.actors| && m.actors[who] == Resume(kind) && m.w.t.payments != []
      && (forall q :: 0 <= q < |m.w.t.payments| ==> m.w.t.payments[q].status == Void)
      && MakesNew(m.w, kind, ticks) && HoldsThroughout(m.w.t.booking, ticks)
      && (kind == m.w.t.payments[|m.w.t.payments| - 1].kind || ticks[0].choice.offered)
    ensures
      var m := Run(s, events);
      var end := Run(m, Goes(who, ticks));
      Finished(end, who) && Replaced(m.w, end.w, |m.w.t.payments| - 1, kind)
  {
    var m := Run(s, events);
    ReachedIsOk(s, events);
    RunsAlone(m, who, ticks);
    LivePaymentStopped(m.w);
    ResumeCreateAlone(m.w, |m.w.t.payments| - 1, kind, ticks[1..]);
  }

  /** A checkout that is over, a payment already made and a kind not on offer: nothing is touched. */
  lemma {:induction false} AResumeRefuses(s: Checkouts, events: seq<Happening>, p: nat, kind: Kind, who: nat,
                                          ticks: seq<Tick>)
    requires Placed(s) && ticks != []
    requires
      var m := Run(s, events);
      && who < |m.actors| && m.actors[who] == Resume(kind)
      && p < |m.w.t.payments| && m.w.t.payments[p].status != Void
      && (|| m.w.t.payments[p].status != Open
          || !(m.w.t.booking.status == AwaitingPayment && Holds(m.w.t.booking, ticks[0].now))
          || (kind != m.w.t.payments[p].kind && !ticks[0].choice.offered))
    ensures
      var m := Run(s, events);
      var end := Run(m, Goes(who, ticks));
      Finished(end, who) && end.w == m.w
  {
    var m := Run(s, events);
    ReachedIsOk(s, events);
    RunsAlone(m, who, ticks);
    OpenIsRead(m.w, p);
    DoneStays(m.w, ticks[1..]);
  }

  // ---- A resume that lost a race ----

  /** An intent no payment will ever use: canceled at Stripe, unless it is charged, and nothing else. */
  ghost predicate ThrownAway(w: World, w': World, made: IntentId)
    requires made in w.intents
  {
    && made in w'.intents && (w.intents[made].status != Succeeded ==> w'.intents[made].status == Canceled)
    && w' == w.(intents := w'.intents) && w'.intents - {made} == w.intents - {made}
  }

  lemma {:induction false} OrphanAlone(w: World, made: IntentId, ticks: seq<Tick>)
    requires made in w.intents && ticks != [] && ticks[0].choice.took
    ensures var (w', a') := Alone(w, Orphan(made), ticks); a'.Done? && ThrownAway(w, w', made)
  {
    var w' := CancelAt(w, made, true);
    assert w'.intents - {made} == w.intents - {made};
    DoneStays(w', ticks[1..]);
  }

  /** Too late: the hold ran out while Stripe made the intent. */
  lemma {:induction false} AResumeComesTooLate(s: Checkouts, events: seq<Happening>, who: nat, ticks: seq<Tick>)
    requires Placed(s) && |ticks| >= 2 && Unhindered(ticks)
    requires
      var m := Run(s, events);
      && who < |m.actors| && m.actors[who].ResumeInsert?
      && !(m.w.t.booking.status == AwaitingPayment && Holds(m.w.t.booking, ticks[0].now))
    ensures
      var m := Run(s, events);
      var end, made := Run(m, Goes(who, ticks)), m.actors[who].made;
      Finished(end, who) && made in m.w.intents && ThrownAway(m.w, end.w, made)
  {
    var m := Run(s, events);
    ReachedIsOk(s, events);
    RunsAlone(m, who, ticks);
    assert ActorOk(m.w, m.actors[who]);
    OrphanAlone(m.w, m.actors[who].made, ticks[1..]);
  }

  lemma {:induction false} TwiceAlone(w: World, kind: Kind, p: nat, ticks: seq<Tick>)
    requires WorldOk(w) && p < |w.t.payments| && Unhindered(ticks) && |ticks| >= 3
    requires w.t.payments[p].status == Open && w.t.payments[p].kind == kind
    ensures
      var id := w.t.payments[p].intent;
      var (w', a') := Alone(w, ResumeTwice(kind, id, p, Open), ticks);
      && a'.Done? && id in w.intents
      && if Landed(id, kind, w.intents[id].status)
         then Answered(w.t, w'.t, p, w.intents[id].status, ticks[2].now, ticks[2].choice.ttlHours)
         else w' == w.(exposed := w.exposed + {id})
  {
    assert RowOk(w.t.payments[p], w.intents, w.landed, w.t.price);
    var id := w.t.payments[p].intent;
    if Landed(id, kind, w.intents[id].status) {
      LookAlone(w, p, ticks[1..]);
    } else {
      ReplyAlone(w, id, ticks[1..]);
    }
  }

  /** Two resumes at once: the second finds the intent the first has stored and hands it out too, or
   takes what has landed. */
  lemma {:induction false} AConflictHandsItOutToo(s: Checkouts, events: seq<Happening>, p: nat, who: nat,
                                                  ticks: seq<Tick>)
    requires Placed(s) && |ticks| >= 4 && Unhindered(ticks)
    requires
      var m := Run(s, events);
      && who < |m.actors| && p < |m.w.t.payments| && m.w.t.payments[p].status == Open
      && m.actors[who] == ResumeConflict(m.w.t.payments[p].kind, m.w.t.payments[p].intent)
    ensures
      var m := Run(s, events);
      var end, id := Run(m, Goes(who, ticks)), m.w.t.payments[p].intent;
      && Finished(end, who) && id in m.w.intents
      && if Landed(id, m.w.t.payments[p].kind, m.w.intents[id].status)
         then Answered(m.w.t, end.w.t, p, m.w.intents[id].status, ticks[3].now, ticks[3].choice.ttlHours)
         else end.w == m.w.(exposed := m.w.exposed + {id})
  {
    var m := Run(s, events);
    ReachedIsOk(s, events);
    RunsAlone(m, who, ticks);
    OpenIsRead(m.w, p);
    TwiceAlone(m.w, m.w.t.payments[p].kind, p, ticks[1..]);
  }

  /** An intent that lost to another payment and that no row has is thrown away. */
  lemma {:induction false} AConflictThrowsAway(s: Checkouts, events: seq<Happening>, who: nat, ticks: seq<Tick>)
    requires Placed(s) && |ticks| >= 2 && Unhindered(ticks)
    requires
      var m := Run(s, events);
      && who < |m.actors| && m.actors[who].ResumeConflict? && m.actors[who].made in m.w.intents
      && forall p :: 0 <= p < |m.w.t.payments| ==> m.w.t.payments[p].intent != m.actors[who].made
    ensures
      var m := Run(s, events);
      var end := Run(m, Goes(who, ticks));
      Finished(end, who) && ThrownAway(m.w, end.w, m.actors[who].made)
  {
    var m := Run(s, events);
    RunsAlone(m, who, ticks);
    OrphanAlone(m.w, m.actors[who].made, ticks[1..]);
  }

  // ---- Placing ----

  /** The booking's first intent is stored and in the client's hands. */
  lemma {:induction false} APlacementHandsOut(s: Checkouts, ticks: seq<Tick>)
    requires Placed(s) && |ticks| >= 3 && Unhindered(ticks) && MakesNew(s.w, s.actors[0].kind, ticks)
    ensures
      var end := Run(s, Goes(0, ticks));
      var kind, id := s.actors[0].kind, ticks[0].choice.newId;
      && Finished(end, 0) && id in end.w.intents && end.w.intents[id] == Intent(kind, s.w.t.price, Waiting)
      && end.w.t == s.w.t.(payments := [Payment(kind, id, s.w.t.price, Open, None, 0)])
      && end.w.exposed == {id}
  {
    RunsAlone(s, 0, ticks);
    var kind := s.actors[0].kind;
    var (w1, made) := CallCreate(s.w, 1, kind, ticks[0].choice);
    ReplyAlone(w1.(t := InsertPayment(w1.t, kind, made.value)), made.value, ticks[1..][1..]);
  }

  lemma {:induction false} GiveBackAlone(w: World, ticks: seq<Tick>)
    requires ticks != [] && !ticks[0].choice.fails
    ensures Alone(w, StartGiveBack, ticks) == (w.(t := OnBooking(w.t, ExpireOne, ticks[0].now, false)), Done)
  {
    DoneStays(w.(t := OnBooking(w.t, ExpireOne, ticks[0].now, false)), ticks[1..]);
  }

  /** If Stripe's call fails, or storing its intent does, the slot is given back and nothing has been
   handed out. */
  lemma {:induction false} AFailedPlacementGivesBack(s: Checkouts, ticks: seq<Tick>)
    requires Placed(s) && |ticks| >= 3 && MakesNew(s.w, s.actors[0].kind, ticks)
    requires ticks[0].choice.fails || ticks[1].choice.fails
    requires !ticks[if ticks[0].choice.fails then 1 else 2].choice.fails
    ensures
      var end := Run(s, Goes(0, ticks));
      Finished(end, 0) && end.w.t.booking.status == Expired && end.w.exposed == {}
  {
    RunsAlone(s, 0, ticks);
    var kind, c := s.actors[0].kind, ticks[0].choice;
    var (w1, a1) := ActStart(s.w, s.actors[0], ticks[0].now, c);
    assert w1.t == s.w.t && w1.exposed == {};
    if c.fails {
      GiveBackAlone(w1, ticks[1..]);
    } else {
      AFailedInsertGivesBack(w1, kind, c.newId, ticks[1..]);
    }
  }

  lemma {:induction false} AFailedInsertGivesBack(w: World, kind: Kind, made: IntentId, ticks: seq<Tick>)
    requires |ticks| >= 2 && ticks[0].choice.fails && !ticks[1].choice.fails
    requires w.t.booking.status == AwaitingPayment
    ensures
      var (w', a') := Alone(w, StartInsert(kind, made), ticks);
      a'.Done? && w'.t.booking.status == Expired && w'.exposed == w.exposed
  {
    GiveBackAlone(ActStart(w, StartInsert(kind, made), ticks[0].now, ticks[0].choice).0, ticks[1..]);
  }
}
