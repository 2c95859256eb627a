/**
 Refunding one charge. Any number of settle runs read what Stripe has sent back already, ask it for
 the rest under the payment's one idempotency key, and record the refund; each may crash, repeat,
 lose Stripe's answer or overlap another, while the business refunds by hand and refunds fail.
 */
module Refunds {
  import opened Prelude

  const KEY_LIFE := 24 * HOUR

  // A refund at Stripe. A failed one no longer counts as sent back.
  datatype Refund = Refund(amount: nat, ours: bool, failed: bool)

  // What Stripe keeps under the payment's key: the amount asked, and the refund made, if any.
  datatype Key = Key(amount: nat, at: int, made: Option<nat>)

  datatype SettleRun =
    | Started
    | HasRead(seen: nat, at: int)                   // retrieve_intent
    | MustLookAgain                                 // Stripe refused the request as invalid
    | Answered(made: Option<nat>, refused: bool, seen: nat)
    | Follows(refund: nat)                          // refund_changed, for the refund just recorded
    | Checks(refunded: nat)                         // what refund_changed read
    | Over

  datatype Charge = Charge(
    amount: nat, due: nat, refunds: seq<Refund>, key: Option<Key>, clock: int,
    settled: bool, recorded: nat, refused: bool, flagged: bool, runs: seq<SettleRun>)

  /** Stripe's amount_refunded. */
  function Sent(refunds: seq<Refund>): nat {
    if refunds == [] then 0
    else
      var last := refunds[|refunds| - 1];
      Sent(refunds[..|refunds| - 1]) + if last.failed then 0 else last.amount
  }

  /** The part of it this program asked for. */
  function Ours(refunds: seq<Refund>): nat {
    if refunds == [] then 0
    else
      var last := refunds[|refunds| - 1];
      Ours(refunds[..|refunds| - 1]) + if last.failed || !last.ours then 0 else last.amount
  }

  predicate KeyLive(c: Charge) {
    c.key.Some? && c.clock < c.key.value.at + KEY_LIFE
  }

  // How Stripe treats a request it has no answer kept for: it refunds, refuses (keeping the refusal
  // under the key or not), or is never reached. `lost` is an answer that does not come back.
  datatype Treats = Refunds(lost: bool) | Refuses(kept: bool) | Unreached

  datatype Happening =
    | Tick(passed: nat)
    | ByHand(amount: nat)
    | Fails(refund: nat)
    | Arrive
    | Told(refund: nat)                             // a refund event: refund_changed runs
    | Read(who: nat)
    | Send(who: nat, how: Treats)
    | LookAgain(who: nat)
    | Record(who: nat)
    | CheckRead(who: nat)
    | CheckWrite(who: nat)
    | Crash(who: nat)

  function SetRun(c: Charge, who: nat, r: SettleRun): Charge
    requires who < |c.runs|
  {
    c.(runs := c.runs[who := r])
  }

  /** Stripe still holds the key: the kept answer for the same request, else an error. */
  function SendKept(c: Charge, who: nat, seen: nat, how: Treats): SettleRun
    requires KeyLive(c) && seen < c.due
  {
    var key := c.key.value;
    if key.amount != c.due - seen || key.made.None? then MustLookAgain
    else if how == Refunds(false) then Answered(key.made, false, seen)
    else Over
  }

  /** A request under a key Stripe knows nothing of. */
  function SendNew(c: Charge, who: nat, seen: nat, how: Treats): (r: (seq<Refund>, Option<Key>, SettleRun))
    requires seen < c.due
  {
    var asked := c.due - seen;
    match how
    case Unreached => (c.refunds, c.key, Over)
    case Refuses(kept) => (c.refunds, if kept then Some(Key(asked, c.clock, None)) else c.key, MustLookAgain)
    case Refunds(lost) =>
      if Sent(c.refunds) + asked > c.amount then (c.refunds, Some(Key(asked, c.clock, None)), MustLookAgain)
      else
        var made := Some(|c.refunds|);
        (c.refunds + [Refund(asked, true, false)], Some(Key(asked, c.clock, made)),
         if lost then Over else Answered(made, false, seen))
  }

  /** `_refund`'s request, from what the run read. */
  function SendAt(c: Charge, who: nat, seen: nat, how: Treats): Charge
    requires who < |c.runs|
  {
    if c.due <= seen then SetRun(c, who, Answered(None, false, seen))
    else if KeyLive(c) then SetRun(c, who, SendKept(c, who, seen, how))
    else
      var (refunds, key, run) := SendNew(c, who, seen, how);
      SetRun(c.(refunds := refunds, key := key), who, run)
  }

  function RecordAt(c: Charge, who: nat, refund: Option<nat>, refused: bool, seen: nat): Charge
    requires who < |c.runs|
  {
    if c.settled then SetRun(c, who, Over)
    else
      SetRun(c.(settled := true, recorded := c.recorded + 1, refused := refused,
                flagged := if refused then seen < c.due else c.flagged),
             who, if refund.Some? then Follows(refund.value) else Over)
  }

  function Step(c: Charge, e: Happening): Charge {
    match e
    case Tick(passed) => c.(clock := c.clock + passed)
    case ByHand(amount) =>
      if Sent(c.refunds) + amount <= c.amount then c.(refunds := c.refunds + [Refund(amount, false, false)]) else c
    case Fails(i) =>
      if i < |c.refunds| then c.(refunds := c.refunds[i := c.refunds[i].(failed := true)]) else c
    case Arrive => c.(runs := c.runs + [Started])
    case Told(i) => if i < |c.refunds| then c.(runs := c.runs + [Follows(i)]) else c
    case Read(who) =>
      if who < |c.runs| && c.runs[who].Started? then SetRun(c, who, HasRead(Sent(c.refunds), c.clock)) else c
    case Send(who, how) =>
      if who < |c.runs| && c.runs[who].HasRead? then SendAt(c, who, c.runs[who].seen, how) else c
    case LookAgain(who) =>
      if who < |c.runs| && c.runs[who].MustLookAgain?
      then SetRun(c, who, Answered(None, Sent(c.refunds) < c.due, Sent(c.refunds))) else c
    case Record(who) =>
      if who < |c.runs| && c.runs[who].Answered?
      then RecordAt(c, who, c.runs[who].made, c.runs[who].refused, c.runs[who].seen) else c
    case CheckRead(who) =>
      if who < |c.runs| && c.runs[who].Follows? then SetRun(c, who, Checks(Sent(c.refunds))) else c
    case CheckWrite(who) =>
      if who < |c.runs| && c.runs[who].Checks?
      then SetRun(c.(flagged := c.runs[who].refunded < if c.settled then c.due else 0), who, Over) else c
    case Crash(who) => if who < |c.runs| then SetRun(c, who, Over) else c
  }

  function Run(c: Charge, events: seq<Happening>): Charge {
    if events == [] then c else Step(Run(c, events[..|events| - 1]), events[|events| - 1])
  }

  /** A charge whose booking's ending owes `due` back, nothing sent yet by this program. */
  predicate Fresh(c: Charge) {
    && c.due <= c.amount && Ours(c.refunds) == 0 && Sent(c.refunds) <= c.amount
    && c.key.None? && !c.settled && c.recorded == 0 && !c.refused && !c.flagged && c.runs == []
  }

  /** No run waits longer than `lag` between what it read and what it asks. */
  predicate Prompt(c: Charge, events: seq<Happening>, lag: nat) {
    forall i :: 0 <= i < |events| ==> PromptAt(Run(c, events[..i]), events[i], lag)
  }

  predicate PromptAt(c: Charge, e: Happening, lag: nat) {
    e.Send? && e.who < |c.runs| && c.runs[e.who].HasRead? ==> c.clock <= c.runs[e.who].at + lag
  }

  // ---- Sums ----

  lemma {:induction false} OneMore(refunds: seq<Refund>, r: Refund)
    ensures Sent(refunds + [r]) == Sent(refunds) + if r.failed then 0 else r.amount
    ensures Ours(refunds + [r]) == Ours(refunds) + if r.failed || !r.ours then 0 else r.amount
  {
    assert (refunds + [r])[..|refunds|] == refunds;
  }

  lemma {:induction false} FailingLowers(refunds: seq<Refund>, i: nat)
    requires i < |refunds|
    ensures
      var after := refunds[i := refunds[i].(failed := true)];
      Sent(after) <= Sent(refunds) && Ours(after) <= Ours(refunds)
  {
    var after := refunds[i := refunds[i].(failed := true)];
    var n := |refunds| - 1;
    if i == n {
      assert after[..n] == refunds[..n];
    } else {
      FailingLowers(refunds[..n], i);
      assert after[..n] == refunds[..n][i := refunds[i].(failed := true)];
    }
  }

  lemma {:induction false} OursIsSent(refunds: seq<Refund>)
    ensures Ours(refunds) <= Sent(refunds)
  {
    if refunds != [] { OursIsSent(refunds[..|refunds| - 1]); }
  }

  // ---- Never more than is due ----

  /** What a run that has read and not yet asked relies on: either all this program has sent is in
   what it read, or whatever was sent since is still kept under the key. */
  predicate ReadOk(ours: nat, key: Option<Key>, clock: int, r: SettleRun) {
    r.HasRead? ==> r.at <= clock && (ours <= r.seen || (key.Some? && key.value.at >= r.at))
  }

  predicate ReadsOk(ours: nat, key: Option<Key>, clock: int, runs: seq<SettleRun>) {
    forall r :: r in runs ==> ReadOk(ours, key, clock, r)
  }

  predicate Bounded(c: Charge) {
    && Ours(c.refunds) <= c.due <= c.amount
    && Sent(c.refunds) <= c.amount
    && (c.key.Some? ==> c.key.value.at <= c.clock)
    && ReadsOk(Ours(c.refunds), c.key, c.clock, c.runs)
    && c.recorded == (if c.settled then 1 else 0)
  }

  lemma {:induction false} ReadsOkSet(ours: nat, key: Option<Key>, clock: int, runs: seq<SettleRun>, who: nat,
                                      r: SettleRun)
    requires ReadsOk(ours, key, clock, runs) && who < |runs| && ReadOk(ours, key, clock, r)
    ensures ReadsOk(ours, key, clock, runs[who := r])
  {
  }

  lemma {:induction false} SetRunKeeps(c: Charge, who: nat, r: SettleRun)
    requires Bounded(c) && who < |c.runs| && !r.HasRead?
    ensures Bounded(SetRun(c, who, r))
  {
    ReadsOkSet(Ours(c.refunds), c.key, c.clock, c.runs, who, r);
  }

  /** A key set now covers every read before it. */
  lemma {:induction false} NewKeyCovers(ours: nat, key: Option<Key>, clock: int, runs: seq<SettleRun>, more: nat,
                                        latest: Key)
    requires ReadsOk(ours, key, clock, runs) && latest.at == clock
    ensures ReadsOk(more, Some(latest), clock, runs)
  {
    forall r | r in runs ensures ReadOk(more, Some(latest), clock, r) {
      assert ReadOk(ours, key, clock, r);
    }
  }

  /** A new request: the key did not live, so all this program has sent is in what the run read. */
  lemma {:induction false} SendNewKeeps(c: Charge, who: nat, seen: nat, how: Treats)
    requires Bounded(c) && seen < c.due && Ours(c.refunds) <= seen
    ensures
      var (refunds, key, run) := SendNew(c, who, seen, how);
      && Ours(refunds) <= c.due && Sent(refunds) <= c.amount
      && (key.Some? ==> key.value.at <= c.clock)
      && ReadsOk(Ours(refunds), key, c.clock, c.runs) && !run.HasRead?
  {
    var asked := c.due - seen;
    match how
    case Unreached =>
    case Refuses(kept) =>
      if kept { NewKeyCovers(Ours(c.refunds), c.key, c.clock, c.runs, Ours(c.refunds), Key(asked, c.clock, None)); }
    case Refunds(_) =>
      if Sent(c.refunds) + asked > c.amount {
        NewKeyCovers(Ours(c.refunds), c.key, c.clock, c.runs, Ours(c.refunds), Key(asked, c.clock, None));
      } else {
        OneMore(c.refunds, Refund(asked, true, false));
        var made := Key(asked, c.clock, Some(|c.refunds|));
        NewKeyCovers(Ours(c.refunds), c.key, c.clock, c.runs, Ours(c.refunds) + asked, made);
      }
  }

  lemma {:induction false} SendKeeps(c: Charge, who: nat, how: Treats)
    requires Bounded(c) && who < |c.runs| && c.runs[who].HasRead?
    requires c.clock < c.runs[who].at + KEY_LIFE
    ensures Bounded(SendAt(c, who, c.runs[who].seen, how))
  {
    var seen := c.runs[who].seen;
    assert ReadOk(Ours(c.refunds), c.key, c.clock, c.runs[who]);
    if c.due <= seen {
      SetRunKeeps(c, who, Answered(None, false, seen));
    } else if KeyLive(c) {
      SetRunKeeps(c, who, SendKept(c, who, seen, how));
    } else {
      SendNewKeeps(c, who, seen, how);
      var (refunds, key, run) := SendNew(c, who, seen, how);
      SetRunKeeps(c.(refunds := refunds, key := key), who, run);
    }
  }

  lemma {:induction false} ByHandKeeps(c: Charge, amount: nat)
    requires Bounded(c)
    ensures Bounded(Step(c, ByHand(amount)))
  {
    OneMore(c.refunds, Refund(amount, false, false));
  }

  lemma {:induction false} FailsKeeps(c: Charge, i: nat)
    requires Bounded(c)
    ensures Bounded(Step(c, Fails(i)))
  {
    if i < |c.refunds| {
      FailingLowers(c.refunds, i);
      forall r | r in c.runs ensures ReadOk(Ours(Step(c, Fails(i)).refunds), c.key, c.clock, r) {
        assert ReadOk(Ours(c.refunds), c.key, c.clock, r);
      }
    }
  }

  lemma {:induction false} ReadKeeps(c: Charge, who: nat)
    requires Bounded(c) && who < |c.runs|
    ensures Bounded(SetRun(c, who, HasRead(Sent(c.refunds), c.clock)))
  {
    OursIsSent(c.refunds);
    ReadsOkSet(Ours(c.refunds), c.key, c.clock, c.runs, who, HasRead(Sent(c.refunds), c.clock));
  }

  lemma {:induction false} JoinKeeps(c: Charge, r: SettleRun)
    requires Bounded(c) && !r.HasRead?
    ensures Bounded(c.(runs := c.runs + [r]))
  {
  }

  lemma {:induction false} TickKeeps(c: Charge, passed: nat)
    requires Bounded(c)
    ensures Bounded(c.(clock := c.clock + passed))
  {
    forall r | r in c.runs ensures ReadOk(Ours(c.refunds), c.key, c.clock + passed, r) {
      assert ReadOk(Ours(c.refunds), c.key, c.clock, r);
    }
  }

  lemma {:induction false} StepKeeps(c: Charge, e: Happening, lag: nat)
    requires Bounded(c) && PromptAt(c, e, lag) && lag < KEY_LIFE
    ensures Bounded(Step(c, e)) && Step(c, e).due == c.due
  {
    match e {
      case ByHand(amount) => ByHandKeeps(c, amount);
      case Fails(i) => FailsKeeps(c, i);
      case Read(who) =>
        if who < |c.runs| { ReadKeeps(c, who); }
      case Tick(passed) => TickKeeps(c, passed);
      case Arrive => JoinKeeps(c, Started);
      case Told(i) => JoinKeeps(c, Follows(i));
      case Send(who, how) =>
        if who < |c.runs| && c.runs[who].HasRead? { SendKeeps(c, who, how); }
      case LookAgain(who) =>
        if who < |c.runs| { SetRunKeeps(c, who, Answered(None, Sent(c.refunds) < c.due, Sent(c.refunds))); }
      case Record(who) =>
        if who < |c.runs| && c.runs[who].Answered? {
          SetRunKeeps(c, who, if c.settled || c.runs[who].made.None? then Over else Follows(c.runs[who].made.value));
        }
      case CheckRead(who) =>
        if who < |c.runs| { SetRunKeeps(c, who, Checks(Sent(c.refunds))); }
      case CheckWrite(who) =>
        if who < |c.runs| { SetRunKeeps(c, who, Over); }
      case Crash(who) =>
        if who < |c.runs| { SetRunKeeps(c, who, Over); }
    }
  }

  lemma {:induction false} RunKeeps(c: Charge, events: seq<Happening>, lag: nat)
    requires Fresh(c) && Prompt(c, events, lag) && lag < KEY_LIFE
    ensures Bounded(Run(c, events)) && Run(c, events).due == c.due
  {
    if events != [] {
      var front := events[..|events| - 1];
      assert forall i :: 0 <= i < |front| ==> front[..i] == events[..i];
      RunKeeps(c, front, lag);
      StepKeeps(Run(c, front), events[|events| - 1], lag);
    }
  }

  /**
   Over any number of overlapping, crashed and repeated runs, with refunds lost, refused, replayed,
   failed or made by hand, what this program has sent back never exceeds what is due, and at most
   one run records the refund, while no run waits as long as a key lives.
   */
  lemma {:induction false} NeverMoreThanDue(c: Charge, events: seq<Happening>, lag: nat)
    requires Fresh(c) && Prompt(c, events, lag) && lag < KEY_LIFE
    ensures Ours(Run(c, events).refunds) <= c.due
    ensures Run(c, events).recorded <= 1
  {
    RunKeeps(c, events, lag);
  }

  // ---- Not less either ----

  /** No refund fails. */
  predicate NoneFails(events: seq<Happening>) {
    forall i :: 0 <= i < |events| ==> !events[i].Fails?
  }

  predicate RunCovered(sent: nat, due: nat, r: SettleRun) {
    && (r.HasRead? ==> r.seen <= sent)
    && (r.Answered? && !r.refused ==> due <= sent)
    && (r.Answered? && r.refused ==> r.seen < due)
  }

  predicate CoveredBy(sent: nat, due: nat, key: Option<Key>, answered: bool, runs: seq<SettleRun>) {
    && (forall r :: r in runs ==> RunCovered(sent, due, r))
    && (key.Some? && key.value.made.Some? ==> due <= sent)
    && (answered ==> due <= sent)
  }

  predicate Covered(c: Charge) {
    CoveredBy(Sent(c.refunds), c.due, c.key, c.settled && !c.refused, c.runs)
  }

  lemma {:induction false} SetRunCovers(c: Charge, who: nat, r: SettleRun)
    requires Covered(c) && who < |c.runs| && RunCovered(Sent(c.refunds), c.due, r)
    ensures Covered(SetRun(c, who, r))
  {
  }

  lemma {:induction false} MoreSentCovers(sent: nat, due: nat, key: Option<Key>, answered: bool, runs: seq<SettleRun>,
                                          more: nat)
    requires sent <= more && CoveredBy(sent, due, key, answered, runs)
    ensures CoveredBy(more, due, key, answered, runs)
  {
    forall r | r in runs ensures RunCovered(more, due, r) {
      assert RunCovered(sent, due, r);
    }
  }

  lemma {:induction false} SendNewCovers(c: Charge, who: nat, seen: nat, how: Treats)
    requires Covered(c) && seen < c.due && seen <= Sent(c.refunds)
    ensures
      var (refunds, key, run) := SendNew(c, who, seen, how);
      && CoveredBy(Sent(refunds), c.due, key, c.settled && !c.refused, c.runs)
      && RunCovered(Sent(refunds), c.due, run)
  {
    var asked := c.due - seen;
    match how
    case Unreached =>
    case Refuses(_) =>
    case Refunds(_) =>
      if Sent(c.refunds) + asked <= c.amount {
        OneMore(c.refunds, Refund(asked, true, false));
        MoreSentCovers(Sent(c.refunds), c.due, c.key, c.settled && !c.refused, c.runs, Sent(c.refunds) + asked);
      }
  }

  lemma {:induction false} SendCovers(c: Charge, who: nat, seen: nat, how: Treats)
    requires Covered(c) && who < |c.runs| && c.runs[who].HasRead? && c.runs[who].seen == seen
    ensures Covered(SendAt(c, who, seen, how))
  {
    assert RunCovered(Sent(c.refunds), c.due, c.runs[who]);
    if c.due <= seen {
      SetRunCovers(c, who, Answered(None, false, seen));
    } else if KeyLive(c) {
      SetRunCovers(c, who, SendKept(c, who, seen, how));
    } else {
      SendNewCovers(c, who, seen, how);
      var (refunds, key, run) := SendNew(c, who, seen, how);
      SetRunCovers(c.(refunds := refunds, key := key), who, run);
    }
  }

  lemma {:induction false} ByHandCovers(c: Charge, amount: nat)
    requires Covered(c)
    ensures Covered(Step(c, ByHand(amount)))
  {
    OneMore(c.refunds, Refund(amount, false, false));
    var after := Step(c, ByHand(amount));
    MoreSentCovers(Sent(c.refunds), c.due, c.key, c.settled && !c.refused, c.runs, Sent(after.refunds));
  }

  lemma {:induction false} RecordCovers(c: Charge, who: nat)
    requires Covered(c) && who < |c.runs| && c.runs[who].Answered?
    ensures Covered(Step(c, Record(who)))
  {
    assert RunCovered(Sent(c.refunds), c.due, c.runs[who]);
    var after := Step(c, Record(who));
    forall r | r in after.runs ensures RunCovered(Sent(c.refunds), c.due, r) {
      if r in c.runs { assert RunCovered(Sent(c.refunds), c.due, r); }
    }
  }

  lemma {:induction false} StepCovers(c: Charge, e: Happening)
    requires Covered(c) && !e.Fails?
    ensures Covered(Step(c, e)) && Step(c, e).due == c.due
  {
    match e {
      case ByHand(amount) => ByHandCovers(c, amount);
      case Send(who, how) =>
        if who < |c.runs| && c.runs[who].HasRead? { SendCovers(c, who, c.runs[who].seen, how); }
      case Read(who) =>
        if who < |c.runs| { SetRunCovers(c, who, HasRead(Sent(c.refunds), c.clock)); }
      case LookAgain(who) =>
        if who < |c.runs| { SetRunCovers(c, who, Answered(None, Sent(c.refunds) < c.due, Sent(c.refunds))); }
      case Record(who) =>
        if who < |c.runs| && c.runs[who].Answered? { RecordCovers(c, who); }
      case CheckRead(who) =>
        if who < |c.runs| { SetRunCovers(c, who, Checks(Sent(c.refunds))); }
      case CheckWrite(who) =>
        if who < |c.runs| { SetRunCovers(c, who, Over); }
      case Crash(who) =>
        if who < |c.runs| { SetRunCovers(c, who, Over); }
      case _ =>
    }
  }

  /** While no refund fails, a charge settled without a refusal really has at least its due back,
   whoever sent it. */
  lemma {:induction false} SettledIsCovered(c: Charge, events: seq<Happening>)
    requires Fresh(c) && NoneFails(events)
    ensures Covered(Run(c, events)) && Run(c, events).due == c.due
  {
    if events != [] {
      SettledIsCovered(c, events[..|events| - 1]);
      StepCovers(Run(c, events[..|events| - 1]), events[|events| - 1]);
    }
  }

  /** One more happening takes the run from `x` to `y`. */
  lemma {:induction false} Then(c: Charge, events: seq<Happening>, e: Happening, x: Charge, y: Charge)
    requires Run(c, events) == x && Step(x, e) == y
    ensures Run(c, events + [e]) == y
  {
    assert (events + [e])[..|events|] == events;
  }

  /** The business may refund by hand whatever the charge has left, and any refund may fail. */
  lemma {:induction false} OthersRefundToo(c: Charge, amount: nat, i: nat)
    requires Sent(c.refunds) + amount <= c.amount
    ensures
      var byHand := Step(c, ByHand(amount));
      Sent(byHand.refunds) == Sent(c.refunds) + amount && Ours(byHand.refunds) == Ours(c.refunds)
    ensures i < |c.refunds| ==> Step(c, Fails(i)).refunds == c.refunds[i := c.refunds[i].(failed := true)]
  {
    OneMore(c.refunds, Refund(amount, false, false));
  }

  /** While Stripe holds the key it gives the same request the answer it gave before, whoever asks: a refund
   made is not made again, even where its answer was lost, and a refusal kept stays one. */
  lemma {:induction false} TheKeyAnswersAgain(c: Charge, who: nat, first: Treats, other: nat, passed: nat)
    requires who < |c.runs| && other < |c.runs| && who != other && !KeyLive(c) && passed < KEY_LIFE
    requires c.runs[who].HasRead? && c.runs[other].HasRead? && c.runs[who].seen == c.runs[other].seen < c.due
    requires first == Refuses(true) || (first.Refunds? && Sent(c.refunds) + c.due - c.runs[who].seen <= c.amount)
    ensures
      var one := Step(Step(c, Send(who, first)), Tick(passed));
      var two := Step(one, Send(other, Refunds(false)));
      && two.refunds == one.refunds
      && (first.Refunds? ==> |one.refunds| == |c.refunds| + 1
                             && two.runs[other] == Answered(Some(|c.refunds|), false, c.runs[who].seen))
      && (first.Refuses? ==> one.refunds == c.refunds && two.runs[other] == MustLookAgain)
  {
    SentOnceKept(c, who, first);
    var one := Step(Step(c, Send(who, first)), Tick(passed));
    assert one.runs[other] == c.runs[other] && one.due == c.due;
  }

  lemma {:induction false} SentOnceKept(c: Charge, who: nat, how: Treats)
    requires who < |c.runs| && !KeyLive(c) && c.runs[who].HasRead? && c.runs[who].seen < c.due
    requires how == Refuses(true) || (how.Refunds? && Sent(c.refunds) + c.due - c.runs[who].seen <= c.amount)
    ensures
      var one := Step(c, Send(who, how));
      && one.key == Some(Key(c.due - c.runs[who].seen, c.clock, if how.Refunds? then Some(|c.refunds|) else None))
      && |one.refunds| == |c.refunds| + (if how.Refunds? then 1 else 0) && (how.Refuses? ==> one.refunds == c.refunds)
      && one.clock == c.clock && one.due == c.due && |one.runs| == |c.runs|
      && forall j :: 0 <= j < |c.runs| && j != who ==> one.runs[j] == c.runs[j]
  {
  }

  // ---- When a refund is refused, and when all of it is sent ----

  /** Stripe does not send `asked`: it keeps another request or a refusal under the key, it refuses, or the
   charge has not that much left. */
  predicate Rejects(c: Charge, asked: nat, how: Treats) {
    if KeyLive(c) then c.key.value.amount != asked || c.key.value.made.None?
    else how.Refuses? || (how.Refunds? && Sent(c.refunds) + asked > c.amount)
  }

  /** A run asks for what is still due, and Stripe does not send it. */
  predicate MeetsRefusal(c: Charge, e: Happening) {
    && e.Send? && e.who < |c.runs| && c.runs[e.who].HasRead? && c.runs[e.who].seen < c.due
    && Rejects(c, c.due - c.runs[e.who].seen, e.how)
  }

  predicate SomeRefusal(c: Charge, events: seq<Happening>) {
    exists k :: 0 <= k < |events| && MeetsRefusal(Run(c, events[..k]), events[k])
  }

  /** Nothing says so far that a refund was refused. */
  predicate NothingRefused(c: Charge) {
    !c.refused && forall r :: r in c.runs ==> !r.MustLookAgain? && (r.Answered? ==> !r.refused)
  }

  lemma {:induction false} SendRefusesNothing(c: Charge, who: nat, how: Treats)
    requires NothingRefused(c) && who < |c.runs| && c.runs[who].HasRead? && !MeetsRefusal(c, Send(who, how))
    ensures NothingRefused(SendAt(c, who, c.runs[who].seen, how))
  {
  }

  lemma {:induction false} StepRefusesNothing(c: Charge, e: Happening)
    requires NothingRefused(c) && !MeetsRefusal(c, e)
    ensures NothingRefused(Step(c, e))
  {
    if e.Send? {
      if e.who < |c.runs| && c.runs[e.who].HasRead? { SendRefusesNothing(c, e.who, e.how); }
    } else if e.Record? && e.who < |c.runs| {
      assert c.runs[e.who] in c.runs;
    }
  }

  /** A charge is recorded as refused only after Stripe did not send what a run asked for. */
  lemma {:induction false} RefusedOnlyByStripe(c: Charge, events: seq<Happening>)
    requires Fresh(c) && !SomeRefusal(c, events)
    ensures NothingRefused(Run(c, events))
  {
    if events != [] {
      var front := events[..|events| - 1];
      forall k | 0 <= k < |front| ensures !MeetsRefusal(Run(c, front[..k]), front[k]) {
        assert front[..k] == events[..k];
      }
      RefusedOnlyByStripe(c, front);
      assert events[..|front|] == front;
      StepRefusesNothing(Run(c, front), events[|front|]);
    }
  }

  /** A new run, through to its recording. */
  function Through(c: Charge): Charge {
    var n := |c.runs|;
    Step(Step(Step(Step(c, Arrive), Read(n)), Send(n, Refunds(false))), Record(n))
  }

  lemma {:induction false} ArrivesAndReads(c: Charge)
    ensures
      Step(Step(c, Arrive), Read(|c.runs|)) == c.(runs := c.runs + [HasRead(Sent(c.refunds), c.clock)])
  {
  }

  /** Under a key Stripe knows nothing of, all that was not there when the run read. */
  lemma {:induction false} AsksForTheRest(c: Charge, n: nat)
    requires n < |c.runs| && c.runs[n].HasRead? && c.runs[n].seen == Sent(c.refunds) && c.due <= c.amount
    requires !KeyLive(c)
    ensures
      var asked := Step(c, Send(n, Refunds(false)));
      && |asked.runs| == |c.runs| && asked.runs[n].Answered? && !asked.runs[n].refused
      && asked.settled == c.settled && asked.refused == c.refused && asked.due == c.due
      && Sent(asked.refunds) == Max(c.due, Sent(c.refunds))
      && Ours(asked.refunds) == Ours(c.refunds) + Max(c.due - Sent(c.refunds), 0)
  {
    var sent := Sent(c.refunds);
    if sent < c.due { OneMore(c.refunds, Refund(c.due - sent, true, false)); }
  }

  lemma {:induction false} RecordsWhatItSent(c: Charge, n: nat)
    requires n < |c.runs| && c.runs[n].Answered? && !c.runs[n].refused && !c.settled
    ensures
      var end := Step(c, Record(n));
      end.settled && !end.refused && end.refunds == c.refunds
  {
  }

  lemma {:induction false} ThroughSendsTheRest(c: Charge)
    requires c.due <= c.amount && !c.settled && !KeyLive(c)
    ensures
      var end := Through(c);
      && end.settled && !end.refused
      && Sent(end.refunds) == Max(c.due, Sent(c.refunds))
      && Ours(end.refunds) == Ours(c.refunds) + Max(c.due - Sent(c.refunds), 0)
  {
    var n := |c.runs|;
    ArrivesAndReads(c);
    var read := Step(Step(c, Arrive), Read(n));
    AsksForTheRest(read, n);
    RecordsWhatItSent(Step(read, Send(n, Refunds(false))), n);
  }

  lemma {:induction false} FourMore(c: Charge, events: seq<Happening>, d: Happening, e: Happening, f: Happening,
                                    g: Happening)
    ensures Run(c, events + [d] + [e] + [f] + [g]) == Step(Step(Step(Step(Run(c, events), d), e), f), g)
  {
    var x := Run(c, events);
    Then(c, events, d, x, Step(x, d));
    Then(c, events + [d], e, Step(x, d), Step(Step(x, d), e));
    Then(c, events + [d] + [e], f, Step(Step(x, d), e), Step(Step(Step(x, d), e), f));
    Then(c, events + [d] + [e] + [f], g, Step(Step(Step(x, d), e), f), Step(Step(Step(Step(x, d), e), f), g));
  }

  lemma {:induction false} ThroughIsARun(c: Charge, before: seq<Happening>, n: nat)
    requires n == |Run(c, before).runs|
    ensures
      Run(c, before + [Arrive] + [Read(n)] + [Send(n, Refunds(false))] + [Record(n)]) == Through(Run(c, before))
  {
    FourMore(c, before, Arrive, Read(n), Send(n, Refunds(false)), Record(n));
  }

  /** A run that meets no live key and nothing in its way sends exactly the rest of what is due, however
   much was sent before it and by whom, and records it as sent. */
  lemma {:induction false} ARunSendsTheRest(c: Charge, before: seq<Happening>, lag: nat)
    requires Fresh(c) && Prompt(c, before, lag) && lag < KEY_LIFE
    requires !Run(c, before).settled && !KeyLive(Run(c, before))
    ensures
      var m, end := Run(c, before), Through(Run(c, before));
      && end.settled && !end.refused
      && Sent(end.refunds) == Max(c.due, Sent(m.refunds))
      && Ours(end.refunds) == Ours(m.refunds) + Max(c.due - Sent(m.refunds), 0)
  {
    RunKeeps(c, before, lag);
    ThroughSendsTheRest(Run(c, before));
  }

  // ---- How long a run may wait ----

  const PRISTINE := Charge(200, 100, [], None, 0, false, 0, false, false, [])

  /** One more happening, and no wait is longer than `lag` yet. */
  lemma {:induction false} ThenPrompt(c: Charge, events: seq<Happening>, e: Happening, x: Charge, y: Charge, lag: nat)
    requires Run(c, events) == x && Step(x, e) == y && Prompt(c, events, lag) && PromptAt(x, e, lag)
    ensures Run(c, events + [e]) == y && Prompt(c, events + [e], lag)
  {
    Then(c, events, e, x, y);
    forall i | 0 <= i < |events + [e]| ensures PromptAt(Run(c, (events + [e])[..i]), (events + [e])[i], lag) {
      assert (events + [e])[..i] == events[..i];
    }
  }

  const SENT := Refund(100, true, false)

  lemma {:induction false} SentOnce()
    ensures Sent([SENT]) == 100 && Ours([SENT]) == 100 && Sent([SENT, SENT]) == 200 && Ours([SENT, SENT]) == 200
  {
    OneMore([], SENT);
    OneMore([SENT], SENT);
    assert [] + [SENT] == [SENT] && [SENT] + [SENT] == [SENT, SENT];
  }

  /** Two settle runs that have both read before either asks. */
  const BOTH_READ := [Arrive] + [Arrive] + [Read(0)] + [Read(1)]

  lemma {:induction false} BothRead()
    ensures
      && Prompt(PRISTINE, BOTH_READ, KEY_LIFE)
      && Run(PRISTINE, BOTH_READ) == PRISTINE.(runs := [HasRead(0, 0), HasRead(0, 0)])
  {
    var one, two := PRISTINE.(runs := [Started]), PRISTINE.(runs := [Started, Started]);
    var read := PRISTINE.(runs := [HasRead(0, 0), Started]);
    var last := PRISTINE.(runs := [HasRead(0, 0), HasRead(0, 0)]);
    ThenPrompt(PRISTINE, [], Arrive, PRISTINE, one, KEY_LIFE);
    assert [] + [Arrive] == [Arrive];
    ThenPrompt(PRISTINE, [Arrive], Arrive, one, two, KEY_LIFE);
    ThenPrompt(PRISTINE, [Arrive] + [Arrive], Read(0), two, read, KEY_LIFE);
    ThenPrompt(PRISTINE, [Arrive] + [Arrive] + [Read(0)], Read(1), read, last, KEY_LIFE);
  }

  /** A run that sleeps a key's life between its read and its request sends the money again. */
  lemma {:induction false} ASlowRunPaysTwice() returns (events: seq<Happening>)
    ensures Fresh(PRISTINE) && Prompt(PRISTINE, events, KEY_LIFE)
    ensures Ours(Run(PRISTINE, events).refunds) == 2 * PRISTINE.due > 0
  {
    BothRead();
    SentOnce();
    var read := PRISTINE.(runs := [HasRead(0, 0), HasRead(0, 0)]);
    var once := read.(refunds := [SENT], key := Some(Key(100, 0, Some(0))), runs := [Over, HasRead(0, 0)]);
    var later := once.(clock := KEY_LIFE);
    var twice := later.(refunds := [SENT, SENT], key := Some(Key(100, KEY_LIFE, Some(1))), runs := [Over, Over]);
    var asked := BOTH_READ + [Send(0, Refunds(true))];
    ThenPrompt(PRISTINE, BOTH_READ, Send(0, Refunds(true)), read, once, KEY_LIFE);
    ThenPrompt(PRISTINE, asked, Tick(KEY_LIFE), once, later, KEY_LIFE);
    ThenPrompt(PRISTINE, asked + [Tick(KEY_LIFE)], Send(1, Refunds(true)), later, twice, KEY_LIFE);
    events := asked + [Tick(KEY_LIFE)] + [Send(1, Refunds(true))];
  }

  /** The due of every charge bounds what this program sends over every run without a longer wait. */
  ghost predicate DueBounds(lag: nat) {
    forall c: Charge, events: seq<Happening> ::
      Fresh(c) && Prompt(c, events, lag) ==> Ours(Run(c, events).refunds) <= c.due
  }

  /** Waits are harmless exactly while they are shorter than a key's life. */
  lemma {:induction false} DueBoundsExactly(lag: nat)
    ensures DueBounds(lag) <==> lag < KEY_LIFE
  {
    if lag < KEY_LIFE {
      forall c: Charge, events: seq<Happening> | Fresh(c) && Prompt(c, events, lag)
        ensures Ours(Run(c, events).refunds) <= c.due
      {
        NeverMoreThanDue(c, events, lag);
      }
    } else {
      var events := ASlowRunPaysTwice();
      assert Prompt(PRISTINE, events, lag);
    }
  }
}
