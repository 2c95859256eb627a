/**
 When a payment that has landed is undone. Stripe cancels an authorisation that is only held, so a
 cancel that meets a card check landed a moment ago succeeds, and the hold on the card is given back
 although the client did everything asked. Two runs show it, and over every run it happens exactly to
 such authorisations.
 */
module CheckoutRaces {
  import opened Prelude
  import opened Bookings
  import opened Checkout
  import opened CheckoutProtocol
  import opened CheckoutSafety

  /** One more happening takes the run from `x` to `y`. */
  lemma {:induction false} Then(s: Checkouts, events: seq<Happening>, e: Happening, x: Checkouts, y: Checkouts)
    requires Run(s, events) == x && Step(x, e) == y
    ensures Run(s, events + [e]) == y
  {
    assert (events + [e])[..|events|] == events;
  }

  const CHECK_ID := Pi(1)
  const PAY_ID := Pi(2)

  function Plain(id: IntentId): Choice {
    Choice(false, true, false, id, true, false, 24)
  }

  function CheckedOut(): Checkouts {
    var b := Booking(1, 1, 1, 10 * DAY, 10 * DAY + HOUR, AwaitingPayment, Some(AWAITING_PAYMENT_TTL), true, 48, 24,
                     Some(10 * DAY), Some(10 * DAY), 2, 0, [Created]);
    Checkouts(World(Tables(b, 5000, [], 0, {}), map[], map[], {}, {}), [StartCreate(Check)])
  }

  // The placing request makes the check's intent, stores it and hands out its secret.
  function Started(): seq<Happening> {
    [Go(0, 1, Plain(CHECK_ID)), Go(0, 2, Plain(CHECK_ID)), Go(0, 3, Plain(CHECK_ID))]
  }

  /** Its intent made at Stripe, then stored, then handed out. */
  function MadeFirst(): World {
    CheckedOut().w.(intents := map[CHECK_ID := Intent(Check, 5000, Waiting)], keys := map[(1, Check) := CHECK_ID])
  }

  function StoredFirst(): World {
    MadeFirst().(t := InsertPayment(CheckedOut().w.t, Check, CHECK_ID))
  }

  function Shown(): World {
    StoredFirst().(exposed := {CHECK_ID})
  }

  lemma {:induction false} StartSteps()
    ensures
      Step(CheckedOut(), Go(0, 1, Plain(CHECK_ID))) == Checkouts(MadeFirst(), [StartInsert(Check, CHECK_ID)])
    ensures
      Step(Checkouts(MadeFirst(), [StartInsert(Check, CHECK_ID)]), Go(0, 2, Plain(CHECK_ID)))
      == Checkouts(StoredFirst(), [Reply(CHECK_ID)])
    ensures
      Step(Checkouts(StoredFirst(), [Reply(CHECK_ID)]), Go(0, 3, Plain(CHECK_ID))) == Checkouts(Shown(), [Done])
  {
  }

  lemma {:induction false} CheckedOutIsPlaced()
    ensures Placed(CheckedOut())
  {
  }

  lemma {:induction false} AfterStart()
    ensures Run(CheckedOut(), Started()) == Checkouts(Shown(), [Done])
  {
    var s := CheckedOut();
    var e1, e2, e3 := Started()[0], Started()[1], Started()[2];
    var x := Checkouts(MadeFirst(), [StartInsert(Check, CHECK_ID)]);
    var y := Checkouts(StoredFirst(), [Reply(CHECK_ID)]);
    StartSteps();
    RunThree(s, e1, e2, e3, x, y, Checkouts(Shown(), [Done]));
    assert Started() == [e1, e2, e3];
  }

  lemma {:induction false} RunThree(s: Checkouts, e1: Happening, e2: Happening, e3: Happening,
                                    x: Checkouts, y: Checkouts, z: Checkouts)
    requires Step(s, e1) == x && Step(x, e2) == y && Step(y, e3) == z
    ensures Run(s, [e1, e2, e3]) == z
  {
    Then(s, [], e1, s, x);
    Then(s, [e1], e2, x, y);
    Then(s, [e1, e2], e3, y, z);
    assert [] + [e1] == [e1] && [e1] + [e2] == [e1, e2] && [e1, e2] + [e3] == [e1, e2, e3];
  }

  /** The check goes through, and then its authorisation is canceled. */
  function Held(w: World): World {
    w.(intents := w.intents[CHECK_ID := Intent(Check, 5000, RequiresCapture)], landed := {CHECK_ID})
  }

  function Undone(w: World): World {
    Held(w).(intents := Held(w).intents[CHECK_ID := Intent(Check, 5000, Canceled)])
  }

  // ---- One step at a time, from the checkout as shown ----

  /** The placing request is over and one other runs. */
  function At(w: World, a: Actor): Checkouts {
    Checkouts(w, [Done, a])
  }

  lemma {:induction false} CheckIsHeld(who: Actor)
    ensures Step(At(Shown(), who), ClientPays(CHECK_ID, RequiresCapture)) == At(Held(Shown()), who)
  {
  }

  lemma {:induction false} CancelTakes()
    ensures CancelAt(Held(Shown()), CHECK_ID, true) == Undone(Shown())
  {
  }

  lemma {:induction false} AbandonCancels()
    ensures Step(At(Held(Shown()), AbandonCancel(0)), Go(1, 4, Plain(CHECK_ID)))
            == At(Undone(Shown()), AbandonWrite(Some(0)))
  {
    CancelTakes();
    assert Act(Held(Shown()), AbandonCancel(0), 4, Plain(CHECK_ID)) == (Undone(Shown()), AbandonWrite(Some(0)));
  }

  lemma {:induction false} AbandonReads()
    ensures Step(Checkouts(Shown(), [Done]), Arrive(Abandon)) == At(Shown(), Abandon)
    ensures Step(At(Shown(), Abandon), Go(1, 4, Plain(CHECK_ID)))
            == At(Shown(), AbandonCancel(0))
  {
  }

  /** The checkout after abandon's transaction. */
  function Gone(): World {
    Undone(Shown()).(t := AbandonTx(Undone(Shown()).t, Some(0), 4))
  }

  lemma {:induction false} AbandonEnds()
    ensures Step(At(Undone(Shown()), AbandonWrite(Some(0))), Go(1, 4, Plain(CHECK_ID))) == At(Gone(), Done)
    ensures
      && CHECK_ID in Gone().landed && CHECK_ID in Gone().intents && Gone().intents[CHECK_ID].status == Canceled
      && Gone().t.booking.status == Expired && Gone().t.announced == 0
  {
  }

  /** The client confirms the check between abandon's read and its cancel: the hold is canceled and
   the checkout expires, although the check had gone through. */
  lemma {:induction false} AbandonUndoesALandedCheck()
    ensures exists s: Checkouts, events: seq<Happening> ::
              && Placed(s)
              && CHECK_ID in Run(s, events).w.landed && CHECK_ID in Run(s, events).w.intents
              && Run(s, events).w.intents[CHECK_ID].status == Canceled
              && Run(s, events).w.t.booking.status == Expired
              && Run(s, events).w.t.announced == 0
  {
    CheckedOutIsPlaced();
    AfterStart();
    AbandonReads();
    CheckIsHeld(AbandonCancel(0));
    AbandonCancels();
    AbandonEnds();
    var s := CheckedOut();
    var go := Go(1, 4, Plain(CHECK_ID));
    var e1 := Started() + [Arrive(Abandon)];
    var e2 := e1 + [go];
    var e3 := e2 + [ClientPays(CHECK_ID, RequiresCapture)];
    var e4 := e3 + [go];
    Then(s, Started(), Arrive(Abandon), Checkouts(Shown(), [Done]), At(Shown(), Abandon));
    Then(s, e1, go, At(Shown(), Abandon), At(Shown(), AbandonCancel(0)));
    Then(s, e2, ClientPays(CHECK_ID, RequiresCapture),
         At(Shown(), AbandonCancel(0)), At(Held(Shown()), AbandonCancel(0)));
    Then(s, e3, go, At(Held(Shown()), AbandonCancel(0)), At(Undone(Shown()), AbandonWrite(Some(0))));
    Then(s, e4, go, At(Undone(Shown()), AbandonWrite(Some(0))), At(Gone(), Done));
    assert Run(s, e4 + [go]).w == Gone();
  }

  lemma {:induction false} SwitchArrives()
    ensures Step(Checkouts(Shown(), [Done]), Arrive(Resume(Pay))) == At(Shown(), Resume(Pay))
    ensures Step(At(Shown(), Resume(Pay)), Go(1, 4, Plain(PAY_ID))) == At(Shown(), ResumeLook(0, 1, Pay))
  {
  }

  lemma {:induction false} SwitchLooks()
    ensures Step(At(Shown(), ResumeLook(0, 1, Pay)), Go(1, 4, Plain(PAY_ID))) == At(Shown(), ResumeCancel(0, 1, Pay))
  {
  }

  lemma {:induction false} SwitchCancels()
    ensures Step(At(Held(Shown()), ResumeCancel(0, 1, Pay)), Go(1, 4, Plain(PAY_ID)))
            == At(Undone(Shown()), ResumeCreate(0, 1, Pay))
  {
    CancelTakes();
    assert Act(Held(Shown()), ResumeCancel(0, 1, Pay), 4, Plain(PAY_ID)) == (Undone(Shown()), ResumeCreate(0, 1, Pay));
  }

  /** The switch's own intent: made at Stripe, stored in the check's place, handed out, and paid. */
  function Made(): World {
    var w := Undone(Shown());
    w.(intents := w.intents[PAY_ID := Intent(Pay, 5000, Waiting)], keys := w.keys[(2, Pay) := PAY_ID])
  }

  function StoredInstead(): World {
    Made().(t := InsertPayment(MarkVoid(Made().t, 0, 4), Pay, PAY_ID))
  }

  function HandedOut(): World {
    StoredInstead().(exposed := {CHECK_ID, PAY_ID})
  }

  lemma {:induction false} SwitchMakes()
    ensures Step(At(Undone(Shown()), ResumeCreate(0, 1, Pay)), Go(1, 4, Plain(PAY_ID)))
            == At(Made(), ResumeInsert(0, Pay, PAY_ID))
  {
  }

  lemma {:induction false} SwitchHandsOut()
    ensures Step(At(Made(), ResumeInsert(0, Pay, PAY_ID)), Go(1, 4, Plain(PAY_ID)))
            == At(StoredInstead(), Reply(PAY_ID))
    ensures Step(At(StoredInstead(), Reply(PAY_ID)), Go(1, 4, Plain(PAY_ID))) == At(HandedOut(), Done)
  {
  }

  lemma {:induction false} PaymentLandsToo()
    ensures Step(At(HandedOut(), Done), ClientPays(PAY_ID, Succeeded)).w.landed == {CHECK_ID, PAY_ID}
  {
  }

  /** The run up to the switch's cancel: it undoes the check that has just gone through. */
  function SwitchedOver(): seq<Happening> {
    var go := Go(1, 4, Plain(PAY_ID));
    Started() + [Arrive(Resume(Pay))] + [go] + [go] + [ClientPays(CHECK_ID, RequiresCapture)] + [go]
  }

  lemma {:induction false} SwitchUndoesALandedCheck()
    ensures Run(CheckedOut(), SwitchedOver()) == At(Undone(Shown()), ResumeCreate(0, 1, Pay))
  {
    CheckedOutIsPlaced();
    AfterStart();
    SwitchArrives();
    SwitchLooks();
    CheckIsHeld(ResumeCancel(0, 1, Pay));
    SwitchCancels();
    var s := CheckedOut();
    var go := Go(1, 4, Plain(PAY_ID));
    var e1 := Started() + [Arrive(Resume(Pay))];
    var e4 := e1 + [go] + [go] + [ClientPays(CHECK_ID, RequiresCapture)];
    Then(s, Started(), Arrive(Resume(Pay)), Checkouts(Shown(), [Done]), At(Shown(), Resume(Pay)));
    Then(s, e1, go, At(Shown(), Resume(Pay)), At(Shown(), ResumeLook(0, 1, Pay)));
    Then(s, e1 + [go], go, At(Shown(), ResumeLook(0, 1, Pay)), At(Shown(), ResumeCancel(0, 1, Pay)));
    Then(s, e1 + [go] + [go], ClientPays(CHECK_ID, RequiresCapture),
         At(Shown(), ResumeCancel(0, 1, Pay)), At(Held(Shown()), ResumeCancel(0, 1, Pay)));
    Then(s, e4, go, At(Held(Shown()), ResumeCancel(0, 1, Pay)), At(Undone(Shown()), ResumeCreate(0, 1, Pay)));
  }

  /** The client confirms the check between a switch's look and its cancel: both the check and the
   payment that replaces it go through, one after the other. */
  lemma {:induction false} SwitchLetsTwoIntentsLand()
    ensures exists s: Checkouts, events: seq<Happening> ::
              Placed(s) && {CHECK_ID, PAY_ID} <= Run(s, events).w.landed
  {
    CheckedOutIsPlaced();
    AfterStart();
    SwitchUndoesALandedCheck();
    SwitchMakes();
    SwitchHandsOut();
    PaymentLandsToo();
    var s := CheckedOut();
    var go := Go(1, 4, Plain(PAY_ID));
    var e := SwitchedOver();
    var done := At(HandedOut(), Done);
    Then(s, e, go, At(Undone(Shown()), ResumeCreate(0, 1, Pay)), At(Made(), ResumeInsert(0, Pay, PAY_ID)));
    Then(s, e + [go], go, At(Made(), ResumeInsert(0, Pay, PAY_ID)), At(StoredInstead(), Reply(PAY_ID)));
    Then(s, e + [go] + [go], go, At(StoredInstead(), Reply(PAY_ID)), done);
    Then(s, e + [go] + [go] + [go], ClientPays(PAY_ID, Succeeded), done, Step(done, ClientPays(PAY_ID, Succeeded)));
    assert Run(s, e + [go] + [go] + [go] + [ClientPays(PAY_ID, Succeeded)]).w.landed == {CHECK_ID, PAY_ID};
  }

  // ---- Exactly when a landed intent is undone ----

  predicate LandedIn(w: World, id: IntentId) {
    id in w.intents && Landed(id, w.intents[id].kind, w.intents[id].status)
  }

  /** Whatever follows, an intent that landed still holds or has the money, unless it was a card
   authorisation and is now canceled. */
  lemma {:induction false} LandedStaysUnlessReleased(s: Checkouts, before: seq<Happening>, after: seq<Happening>,
                                                     id: IntentId)
    requires Placed(s) && LandedIn(Run(s, before).w, id)
    ensures
      var w := Run(Run(s, before), after).w;
      && id in w.intents
      && (!LandedIn(w, id) <==> id.Pi? && w.intents[id].kind == Check && w.intents[id].status == Canceled)
  {
    PlacedIsOk(s);
    RunKeeps(s, before);
    RunKeeps(Run(s, before), after);
    var early, late := Run(s, before).w, Run(Run(s, before), after).w;
    assert IntentOk(id, early.intents[id], early.exposed, early.landed, early.t.price);
    assert LandedOk(id, late.intents[id]);
  }

  /** Where card checks are SetupIntents nothing undoes an intent that landed: neither an abandon nor a
   switch, nor anything else. */
  lemma {:induction false} SetupChecksAreNeverUndone(s: Checkouts, before: seq<Happening>, after: seq<Happening>,
                                                     id: IntentId)
    requires Placed(s) && LandedIn(Run(s, before).w, id)
    requires
      var w := Run(Run(s, before), after).w;
      forall i :: i in w.intents && i.Pi? ==> w.intents[i].kind == Pay
    ensures LandedIn(Run(Run(s, before), after).w, id)
  {
    LandedStaysUnlessReleased(s, before, after, id);
  }

  predicate Cancels(a: Actor, p: nat) {
    a == AbandonCancel(p) || (a.ResumeCancel? && a.payment == p)
  }

  lemma {:induction false} CancelStep(w: World, a: Actor, p: nat, now: int, c: Choice)
    requires Cancels(a, p) && p < |w.t.payments| && w.t.payments[p].intent in w.intents
    ensures Act(w, a, now, c).0 == CancelAt(w, w.t.payments[p].intent, c.took)
  {
  }

  /** The step of an abandon or a switch that cancels payment `p` undoes its landed intent exactly when
   Stripe takes the cancel and the intent is a card authorisation. */
  lemma {:induction false} ACancelUndoesExactly(s: Checkouts, events: seq<Happening>, who: nat, p: nat, now: int,
                                                c: Choice)
    requires
      var at := Run(s, events);
      && Placed(s) && who < |at.actors| && p < |at.w.t.payments| && Cancels(at.actors[who], p)
      && LandedIn(at.w, at.w.t.payments[p].intent)
    ensures
      var at := Run(s, events);
      var id := at.w.t.payments[p].intent;
      !LandedIn(Run(s, events + [Go(who, now, c)]).w, id) <==> c.took && id.Pi? && at.w.intents[id].kind == Check
  {
    var at := Run(s, events);
    var id := at.w.t.payments[p].intent;
    assert (events + [Go(who, now, c)])[..|events|] == events;
    CancelStep(at.w, at.actors[who], p, now, c);
    PlacedIsOk(s);
    RunKeeps(s, events);
    assert IntentOk(id, at.w.intents[id], at.w.exposed, at.w.landed, at.w.t.price);
  }
}
