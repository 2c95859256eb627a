/**
 The flag that says a refund fell short: what it says after any run of settle jobs and refund events,
 when that is right, and a run after which it is wrong.
 */
module RefundFlag {
  import opened Prelude
  import opened Refunds

  /** A check has read Stripe and not yet written. */
  predicate Pending(c: Charge, who: nat) {
    who < |c.runs| && c.runs[who].Checks?
  }

  /** This run is about to record the refund. */
  predicate Records(c: Charge, who: nat) {
    who < |c.runs| && c.runs[who].Answered? && !c.settled
  }

  /**
   What was last taken to be sent back: a check's read, the read of a refused refund, or all of what is
   due where the refund was not refused.
   */
  function NextJudged(before: Charge, e: Happening, judged: nat): nat {
    if e.CheckWrite? && Pending(before, e.who) then before.runs[e.who].refunded
    else if e.Record? && Records(before, e.who) then
      if before.runs[e.who].refused then before.runs[e.who].seen else before.due
    else judged
  }

  function Judged(c: Charge, events: seq<Happening>): nat {
    if events == [] then c.due
    else
      var init := events[..|events| - 1];
      NextJudged(Run(c, init), events[|events| - 1], Judged(c, init))
  }

  lemma {:induction false} StepFlags(s: Charge, e: Happening, judged: nat)
    requires s.flagged <==> s.settled && judged < s.due
    ensures
      var after := Step(s, e);
      after.due == s.due && (after.flagged <==> after.settled && NextJudged(s, e, judged) < s.due)
  {
  }

  /** What the flag says, over every run. */
  lemma {:induction false} FlagIsTheLastWord(c: Charge, events: seq<Happening>)
    requires Fresh(c)
    ensures Run(c, events).due == c.due
    ensures Run(c, events).flagged <==> Run(c, events).settled && Judged(c, events) < c.due
  {
    if events != [] {
      var init := events[..|events| - 1];
      FlagIsTheLastWord(c, init);
      StepFlags(Run(c, init), events[|events| - 1], Judged(c, init));
    }
  }

  /** A refund recorded as refused is flagged at once, in every run: no check follows it that could. */
  lemma {:induction false} ARefusalIsFlagged(c: Charge, events: seq<Happening>, who: nat)
    requires Fresh(c) && NoneFails(events) && Records(Run(c, events), who) && Run(c, events).runs[who].refused
    ensures
      var after := Step(Run(c, events), Record(who));
      after.settled && after.refused && after.flagged
  {
    SettledIsCovered(c, events);
    var s := Run(c, events);
    assert RunCovered(Sent(s.refunds), s.due, s.runs[who]);
  }

  /** Money is still owed: the refund is recorded, and less is back than is due. */
  predicate Short(c: Charge) {
    c.settled && Sent(c.refunds) < c.due
  }

  /** The flag is right exactly when what was last taken to be sent back lies on the same side of what
   is due as what is really back. */
  lemma {:induction false} FlagIsRightExactly(c: Charge, events: seq<Happening>)
    requires Fresh(c)
    ensures
      var s := Run(c, events);
      (s.flagged <==> Short(s)) <==> (s.settled ==> (Judged(c, events) < s.due <==> Sent(s.refunds) < s.due))
  {
    FlagIsTheLastWord(c, events);
  }

  // ---- What a caller can see to ----

  /** What may change Stripe's amount: a request, a refund by hand, a refund that fails. */
  predicate Touches(e: Happening) {
    e.Send? || e.ByHand? || e.Fails?
  }

  lemma {:induction false} OnlyTouchesChange(c: Charge, e: Happening)
    requires !Touches(e)
    ensures Step(c, e).refunds == c.refunds
  {
  }

  /** The checks whose read is older than the last change. */
  function Stale(c: Charge, events: seq<Happening>): set<nat> {
    if events == [] then {}
    else
      var init := events[..|events| - 1];
      var before := Run(c, init);
      if Touches(events[|events| - 1]) then set who: nat | who < |before.runs| && before.runs[who].Checks?
      else Stale(c, init)
  }

  /** No refund changes between a check's read and its write. */
  ghost predicate Undisturbed(c: Charge, events: seq<Happening>) {
    forall k :: 0 <= k < |events| ==> WritesCurrent(c, events, k)
  }

  predicate WritesCurrent(c: Charge, events: seq<Happening>, k: nat)
    requires k < |events|
  {
    var e := events[k];
    e.CheckWrite? && Pending(Run(c, events[..k]), e.who) ==> e.who !in Stale(c, events[..k])
  }

  /** The last change, and the recording, are followed by a check. */
  predicate Checked(c: Charge, events: seq<Happening>) {
    events == []
    || var init, e := events[..|events| - 1], events[|events| - 1];
       if Touches(e) || (e.Record? && Records(Run(c, init), e.who)) then false
       else (e.CheckWrite? && Pending(Run(c, init), e.who)) || Checked(c, init)
  }

  lemma {:induction false} UndisturbedPrefix(c: Charge, events: seq<Happening>)
    requires events != [] && Undisturbed(c, events)
    ensures Undisturbed(c, events[..|events| - 1])
  {
    var init := events[..|events| - 1];
    forall k | 0 <= k < |init| ensures WritesCurrent(c, init, k) {
      assert init[..k] == events[..k] && WritesCurrent(c, events, k);
    }
  }

  ghost predicate ReadsCurrent(s: Charge, stale: set<nat>) {
    forall who: nat :: Pending(s, who) && who !in stale ==> s.runs[who].refunded == Sent(s.refunds)
  }

  lemma {:induction false} StepReadsCurrent(s: Charge, e: Happening, stale: set<nat>)
    requires ReadsCurrent(s, stale) && !Touches(e)
    ensures ReadsCurrent(Step(s, e), stale)
  {
    var after := Step(s, e);
    OnlyTouchesChange(s, e);
    forall who: nat | Pending(after, who) && who !in stale ensures after.runs[who].refunded == Sent(after.refunds) {
      assert Pending(s, who) || e == CheckRead(who);
    }
  }

  /** A touch makes every pending check stale. */
  lemma {:induction false} TouchReadsCurrent(s: Charge, e: Happening)
    requires Touches(e)
    ensures ReadsCurrent(Step(s, e), set who: nat | who < |s.runs| && s.runs[who].Checks?)
  {
  }

  lemma {:induction false} RunReadsCurrent(c: Charge, events: seq<Happening>)
    requires Fresh(c)
    ensures ReadsCurrent(Run(c, events), Stale(c, events))
  {
    if events != [] {
      var init, e := events[..|events| - 1], events[|events| - 1];
      RunReadsCurrent(c, init);
      if Touches(e) { TouchReadsCurrent(Run(c, init), e); } else { StepReadsCurrent(Run(c, init), e, Stale(c, init)); }
    }
  }

  lemma {:induction false} StepKeepsRight(s: Charge, e: Happening)
    requires (s.flagged <==> Short(s)) && !Touches(e) && !(e.Record? && Records(s, e.who))
    requires e.CheckWrite? && Pending(s, e.who) ==> s.runs[e.who].refunded == Sent(s.refunds)
    requires !s.settled ==> !s.flagged
    ensures Step(s, e).flagged <==> Short(Step(s, e))
  {
  }

  lemma {:induction false} CheckMakesRight(s: Charge, who: nat)
    requires Pending(s, who) && s.runs[who].refunded == Sent(s.refunds)
    ensures Step(s, CheckWrite(who)).flagged <==> Short(Step(s, CheckWrite(who)))
  {
  }

  /**
   Over every run in which no refund changes between a check's read and its write: once the last change
   and the recording have been followed by a check, the flag says exactly whether money is still owed.
   */
  lemma {:induction false} ChecksKeepTheFlagRight(c: Charge, events: seq<Happening>)
    requires Fresh(c) && Undisturbed(c, events) && Checked(c, events)
    ensures Run(c, events).flagged <==> Short(Run(c, events))
  {
    if events != [] {
      var init, e := events[..|events| - 1], events[|events| - 1];
      var before := Run(c, init);
      RunReadsCurrent(c, init);
      assert WritesCurrent(c, events, |init|) && events[..|init|] == init;
      if e.CheckWrite? && Pending(before, e.who) {
        CheckMakesRight(before, e.who);
      } else {
        UndisturbedPrefix(c, events);
        ChecksKeepTheFlagRight(c, init);
        FlagIsTheLastWord(c, init);
        StepKeepsRight(before, e);
      }
    }
  }

  // ---- A run that leaves it wrong ----

  const FAILED := Refund(100, true, true)

  /** A run reads, asks and is answered. */
  function Answering(): seq<Happening> {
    [Arrive] + [Read(0)] + [Send(0, Refunds(false))]
  }

  /** The refund is recorded, and a refund event arrives. */
  function Recorded(): seq<Happening> {
    Answering() + [Record(0)] + [Told(0)]
  }

  /** One check reads before the refund fails and another after. */
  function Crossed(): seq<Happening> {
    Recorded() + [CheckRead(0)] + [Fails(0)] + [CheckRead(1)]
  }

  function Asked(): Charge {
    PRISTINE.(refunds := [SENT], key := Some(Key(100, 0, Some(0))))
  }

  function Settled(): Charge {
    Asked().(settled := true, recorded := 1)
  }

  function Failed(): Charge {
    Settled().(refunds := [FAILED])
  }

  lemma {:induction false} AsksOnce()
    ensures
      Step(PRISTINE.(runs := [HasRead(0, 0)]), Send(0, Refunds(false)))
      == Asked().(runs := [Answered(Some(0), false, 0)])
  {
    assert [] + [SENT] == [SENT] && Sent([]) == 0;
  }

  lemma {:induction false} AnsweringRuns()
    ensures Run(PRISTINE, Answering()) == Asked().(runs := [Answered(Some(0), false, 0)])
  {
    var c := PRISTINE;
    Then(c, [], Arrive, c, c.(runs := [Started]));
    assert [] + [Arrive] == [Arrive] && Sent([]) == 0;
    AsksOnce();
    Then(c, [Arrive], Read(0), c.(runs := [Started]), c.(runs := [HasRead(0, 0)]));
    Then(c, [Arrive] + [Read(0)], Send(0, Refunds(false)),
         c.(runs := [HasRead(0, 0)]), Asked().(runs := [Answered(Some(0), false, 0)]));
  }

  lemma {:induction false} RecordedRuns()
    ensures Run(PRISTINE, Recorded()) == Settled().(runs := [Follows(0), Follows(0)])
  {
    AnsweringRuns();
    Then(PRISTINE, Answering(), Record(0),
         Asked().(runs := [Answered(Some(0), false, 0)]), Settled().(runs := [Follows(0)]));
    Then(PRISTINE, Answering() + [Record(0)], Told(0),
         Settled().(runs := [Follows(0)]), Settled().(runs := [Follows(0), Follows(0)]));
  }

  lemma {:induction false} CrossedRuns()
    ensures Run(PRISTINE, Crossed()) == Failed().(runs := [Checks(100), Checks(0)]) && Sent([FAILED]) == 0
  {
    SentOnce();
    OneMore([], FAILED);
    assert [] + [FAILED] == [FAILED];
    RecordedRuns();
    var e := Recorded();
    Then(PRISTINE, e, CheckRead(0),
         Settled().(runs := [Follows(0), Follows(0)]), Settled().(runs := [Checks(100), Follows(0)]));
    Then(PRISTINE, e + [CheckRead(0)], Fails(0),
         Settled().(runs := [Checks(100), Follows(0)]), Failed().(runs := [Checks(100), Follows(0)]));
    Then(PRISTINE, e + [CheckRead(0)] + [Fails(0)], CheckRead(1),
         Failed().(runs := [Checks(100), Follows(0)]), Failed().(runs := [Checks(100), Checks(0)]));
  }

  /** Two refund events handled at once: the earlier read is written last, and a refund that failed is
   not flagged although every event has been handled. */
  lemma {:induction false} AStaleCheckUnflags()
    ensures Fresh(PRISTINE)
    ensures
      var events := Crossed() + [CheckWrite(1)] + [CheckWrite(0)];
      var s := Run(PRISTINE, events);
      Short(s) && !s.flagged && Checked(PRISTINE, events) && s.runs == [Over, Over]
  {
    CrossedRuns();
    var s := Failed().(runs := [Checks(100), Checks(0)]);
    var flagged := Failed().(flagged := true, runs := [Checks(100), Over]);
    var last := Crossed() + [CheckWrite(1)];
    Then(PRISTINE, Crossed(), CheckWrite(1), s, flagged);
    Then(PRISTINE, last, CheckWrite(0), flagged, flagged.(flagged := false, runs := [Over, Over]));
    assert (last + [CheckWrite(0)])[..|last|] == last;
  }
}
