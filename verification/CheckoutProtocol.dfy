/**
 The checkout as a transition system. One step is one database transaction or one Stripe call of
 one running request or job, a crash of it, something the client or Stripe does, or another
 statement on the booking. Any number of requests and jobs run at once and interleave at every
 step; every transaction reads a clock of its own, in any order.
 */
module CheckoutProtocol {
  import opened Prelude
  import opened Bookings
  import opened Checkout

  // `exposed` are the intents whose secret reached a browser; `landed` those that ever went through.
  datatype World = World(
    t: Tables, intents: map<IntentId, Intent>, keys: map<(nat, Kind), IntentId>,
    exposed: set<IntentId>, landed: set<IntentId>)

  // Where a reconcile was called from, and so what follows it.
  datatype Next = Stop | GoOn(rows: seq<SettleRow>, final: bool)

  // A running request or job, at the point between two of its steps, with its local variables.
  datatype Actor =
    | Done
    | StartCreate(kind: Kind)
    | StartInsert(kind: Kind, made: IntentId)
    | StartGiveBack
    | Reply(intent: IntentId)
    | Reconcile(intent: IntentId)
    | Look(payment: nat, next: Next)
    | Write(payment: nat, seen: IntentStatus, seenAmount: nat, next: Next)
    | Settle(final: bool)
    | Rows(rows: seq<SettleRow>, again: bool, final: bool)
    | SettleMark(row: SettleRow, rest: seq<SettleRow>, again: bool, final: bool)
    | SettleRelease(row: SettleRow, rest: seq<SettleRow>, again: bool, final: bool)
    | SettleRefund(row: SettleRow, rest: seq<SettleRow>, again: bool, final: bool)
    | Resume(kind: Kind)
    | ResumeLook(payment: nat, n: nat, kind: Kind)
    | ResumeCancel(payment: nat, n: nat, kind: Kind)
    | ResumeCreate(payment: nat, n: nat, kind: Kind)
    | ResumeInsert(payment: nat, kind: Kind, made: IntentId)
    | ResumeConflict(kind: Kind, made: IntentId)
    | ResumeTwice(kind: Kind, made: IntentId, live: nat, status: PaymentStatus)
    | Orphan(made: IntentId)
    | Abandon
    | AbandonCancel(payment: nat)
    | AbandonWrite(read: Option<nat>)

  // What a step does not decide itself. `fails`: the Stripe call raises, or the transaction is
  // refused (a lock timeout, no connection). `took`: its effect happened all the same, or a refused
  // cancel. `replay`: Stripe still holds the idempotency key. `newId`: the id Stripe gives.
  datatype Choice = Choice(
    fails: bool, took: bool, replay: bool, newId: IntentId, offered: bool, refused: bool, ttlHours: nat)

  // ---- Stripe's side of a call ----

  /** Cancelling works on an intent that has not been charged; Stripe may refuse before
   that, and always does afterwards. */
  function CancelAt(w: World, id: IntentId, took: bool): World
    requires id in w.intents
  {
    var i := w.intents[id];
    if took && i.status != Succeeded then w.(intents := w.intents[id := i.(status := Canceled)]) else w
  }

  /** The key's intent while Stripe holds the key, else a new one of the kind asked for. */
  predicate MayCreate(w: World, n: nat, kind: Kind, c: Choice) {
    || (c.replay && (n, kind) in w.keys && w.keys[(n, kind)] in w.intents)
    || (!c.replay && c.newId !in w.intents && (c.newId.Pi? || kind == Check))
  }

  function CreateAt(w: World, n: nat, kind: Kind, c: Choice): (r: (World, IntentId))
    requires MayCreate(w, n, kind, c)
  {
    if c.replay then (w, w.keys[(n, kind)])
    else (w.(intents := w.intents[c.newId := Intent(kind, w.t.price, Waiting)],
             keys := w.keys[(n, kind) := c.newId]), c.newId)
  }

  /** The create call: the intent it gave, or None when it failed, its effect lost or not. */
  function CallCreate(w: World, n: nat, kind: Kind, c: Choice): (r: (World, Option<IntentId>))
    requires MayCreate(w, n, kind, c)
  {
    if c.fails && !c.took then (w, None)
    else
      var (w', made) := CreateAt(w, n, kind, c);
      (w', if c.fails then None else Some(made))
  }

  // ---- One step of one actor ----

  function ActStart(w: World, a: Actor, now: int, c: Choice): (World, Actor)
    requires a.StartCreate? || a.StartInsert? || a.StartGiveBack? || a.Reply?
  {
    match a
    case StartCreate(kind) =>
      if !MayCreate(w, 1, kind, c) then (w, a)
      else
        var (w', made) := CallCreate(w, 1, kind, c);
        (w', if made.Some? then StartInsert(kind, made.value) else StartGiveBack)
    case StartInsert(kind, made) =>
      if (c.fails && !c.took) || !MayInsert(w.t, made) then (w, StartGiveBack)
      else
        var w' := w.(t := InsertPayment(w.t, kind, made));
        (w', if c.fails then StartGiveBack else Reply(made))
    case StartGiveBack =>
      (if c.fails then w else w.(t := OnBooking(w.t, ExpireOne, now, false)), Done)
    case Reply(intent) =>
      (w.(exposed := w.exposed + {intent}), Done)
  }

  function After(next: Next): Actor {
    match next
    case Stop => Done
    case GoOn(rows, final) => Rows(rows, true, final)
  }

  function PaymentOf(payments: seq<Payment>, id: IntentId): (p: Option<nat>)
    ensures p.Some? ==> p.value < |payments| && payments[p.value].intent == id
    ensures p.None? ==> forall q :: 0 <= q < |payments| ==> payments[q].intent != id
  {
    if payments == [] then None
    else if payments[|payments| - 1].intent == id then Some(|payments| - 1)
    else PaymentOf(payments[..|payments| - 1], id)
  }

  function ActReconcile(w: World, a: Actor, now: int, c: Choice): (World, Actor)
    requires a.Reconcile? || a.Look? || a.Write?
  {
    match a
    case Reconcile(id) =>
      var p := PaymentOf(w.t.payments, id);
      (w, if p.None? then Done else Look(p.value, Stop))
    case Look(p, next) =>
      if c.fails || p >= |w.t.payments| || w.t.payments[p].intent !in w.intents then (w, Done)
      else
        var i := w.intents[w.t.payments[p].intent];
        (w, Write(p, i.status, i.amount, next))
    case Write(p, seen, seenAmount, next) =>
      if c.fails || p >= |w.t.payments| then (w, Done)
      else (w.(t := ReconcileTx(w.t, p, seen, seenAmount, now, c.ttlHours)), After(next))
  }

  /** `_settle_pass` after it asked Stripe to cancel a row's intent. */
  function AfterCancel(r: SettleRow, rest: seq<SettleRow>, again: bool, final: bool, canceled: bool): Actor {
    if r.status == Open then
      if canceled then SettleMark(r, rest, again, final)
      else if final then Done
      else Look(r.payment, GoOn(rest, final))
    else
      if canceled then SettleRelease(r, rest, again, final) else Done
  }

  function ActRows(w: World, rows: seq<SettleRow>, again: bool, final: bool, c: Choice): (World, Actor) {
    if rows == [] then (w, if again && !final then Settle(true) else Done)
    else
      var r, rest := rows[0], rows[1..];
      if r.payment >= |w.t.payments| || w.t.payments[r.payment].intent !in w.intents then (w, Done)
      else
        var id := w.t.payments[r.payment].intent;
        if (r.status == Open && !r.live) || (r.status == Checked && id.Pi?) then
          var w' := CancelAt(w, id, c.took);
          (w', if c.fails then Done else AfterCancel(r, rest, again, final, w'.intents[id].status == Canceled))
        else if r.status == PaidUp && Refunding(r.ending) then (w, SettleRefund(r, rest, again, final))
        else (w, Rows(rest, again, final))
  }

  function ActRefund(w: World, r: SettleRow, now: int, c: Choice): (World, bool) {
    if c.fails || r.payment >= |w.t.payments| then (w, false)
    else
      var due := DueOf(r, w.t.payments[r.payment].amount);
      if due.None? then (w, false) else (w.(t := RefundTx(w.t, r, due.value, c.refused, now)), true)
  }

  function ActSettle(w: World, a: Actor, now: int, c: Choice): (World, Actor)
    requires a.Settle? || a.Rows? || a.SettleMark? || a.SettleRelease? || a.SettleRefund?
  {
    match a
    case Settle(final) => (w, Rows(SettleRows(w.t, now), false, final))
    case Rows(rows, again, final) => ActRows(w, rows, again, final, c)
    case SettleMark(r, rest, again, final) =>
      if c.fails || r.payment >= |w.t.payments| then (w, Done)
      else (w.(t := MarkVoid(w.t, r.payment, now)), Rows(rest, again, final))
    case SettleRelease(r, rest, again, final) =>
      if c.fails || r.payment >= |w.t.payments| then (w, Done)
      else (w.(t := Released(w.t, r.payment, now)), Rows(rest, again, final))
    case SettleRefund(r, rest, again, final) =>
      var (w', recorded) := ActRefund(w, r, now, c);
      (w', if recorded then Rows(rest, again, final) else Done)
  }

  function ActResumeCreate(w: World, p: nat, n: nat, kind: Kind, c: Choice): (World, Actor) {
    if !MayCreate(w, n + 1, kind, c) then (w, ResumeCreate(p, n, kind))
    else
      var r := CallCreate(w, n + 1, kind, c);
      (r.0, if r.1.Some? then ResumeInsert(p, kind, r.1.value) else Done)
  }

  function ActResumeInsert(w: World, p: nat, kind: Kind, made: IntentId, now: int, c: Choice): (World, Actor) {
    if (c.fails && !c.took) || p >= |w.t.payments| then (w, Done)
    else
      var outcome := ResumeTx(w.t, p, kind, made, now);
      match outcome
      case Gone => (w, Orphan(made))
      case Conflict => (w, ResumeConflict(kind, made))
      case Stored(tables) => (w.(t := tables), if c.fails then Done else Reply(made))
  }

  function ActResume(w: World, a: Actor, now: int, c: Choice): (World, Actor)
    requires a.Resume? || a.ResumeLook? || a.ResumeCancel? || a.ResumeCreate? || a.ResumeInsert?
             || a.ResumeConflict? || a.ResumeTwice? || a.Orphan?
  {
    match a
    case Resume(kind) =>
      var live := LivePayment(w.t);
      if live.None? then (w, Done)
      else
        var p := live.value;
        var row := w.t.payments[p];
        if row.status in {Checked, PaidUp} || !LiveCheckout(w.t, now) || (kind != row.kind && !c.offered)
        then (w, Done)
        else if row.status == Open then (w, ResumeLook(p, |w.t.payments|, kind))
        else (w, ResumeCreate(p, |w.t.payments|, kind))
    case ResumeLook(p, n, kind) =>
      if c.fails || p >= |w.t.payments| || w.t.payments[p].intent !in w.intents then (w, Done)
      else
        var row := w.t.payments[p];
        var status := w.intents[row.intent].status;
        if Landed(row.intent, row.kind, status) then (w, Look(p, Stop))
        else if status == Canceled then (w, ResumeCreate(p, n, kind))
        else if kind != row.kind then (w, ResumeCancel(p, n, kind))
        else (w, Reply(row.intent))
    case ResumeCancel(p, n, kind) =>
      if p >= |w.t.payments| || w.t.payments[p].intent !in w.intents then (w, Done)
      else
        var id := w.t.payments[p].intent;
        var w' := CancelAt(w, id, c.took);
        if c.fails then (w', Done)
        else if w'.intents[id].status == Canceled then (w', ResumeCreate(p, n, kind))
        else (w', Look(p, Stop))
    case ResumeCreate(p, n, kind) => ActResumeCreate(w, p, n, kind, c)
    case ResumeInsert(p, kind, made) => ActResumeInsert(w, p, kind, made, now, c)
    case ResumeConflict(kind, made) =>
      var live := LivePayment(w.t);
      if live.Some? && w.t.payments[live.value].intent == made
      then (w, ResumeTwice(kind, made, live.value, w.t.payments[live.value].status))
      else (w, Orphan(made))
    case ResumeTwice(kind, made, live, status) =>
      if c.fails || made !in w.intents then (w, Done)
      else if status != Open || Landed(made, kind, w.intents[made].status) then (w, Look(live, Stop))
      else (w, Reply(made))
    case Orphan(made) =>
      (if made in w.intents then CancelAt(w, made, c.took) else w, Done)
  }

  function ActAbandon(w: World, a: Actor, now: int, c: Choice): (World, Actor)
    requires a.Abandon? || a.AbandonCancel? || a.AbandonWrite?
  {
    match a
    case Abandon =>
      if !LiveCheckout(w.t, now) then (w, Done)
      else
        var live := LivePayment(w.t);
        if live.Some? && w.t.payments[live.value].status == Open then (w, AbandonCancel(live.value))
        else (w, AbandonWrite(live))
    case AbandonCancel(p) =>
      if p >= |w.t.payments| || w.t.payments[p].intent !in w.intents then (w, Done)
      else
        var id := w.t.payments[p].intent;
        var w' := CancelAt(w, id, c.took);
        if c.fails then (w', Done)
        else if w'.intents[id].status == Canceled then (w', AbandonWrite(Some(p)))
        else (w', Look(p, Stop))
    case AbandonWrite(p) =>
      if c.fails || (p.Some? && p.value >= |w.t.payments|) then (w, Done)
      else (w.(t := AbandonTx(w.t, p, now)), Done)
  }

  function Act(w: World, a: Actor, now: int, c: Choice): (World, Actor) {
    if a.Done? then (w, a)
    else if a.StartCreate? || a.StartInsert? || a.StartGiveBack? || a.Reply? then ActStart(w, a, now, c)
    else if a.Reconcile? || a.Look? || a.Write? then ActReconcile(w, a, now, c)
    else if a.Settle? || a.Rows? || a.SettleMark? || a.SettleRelease? || a.SettleRefund? then ActSettle(w, a, now, c)
    else if a.Abandon? || a.AbandonCancel? || a.AbandonWrite? then ActAbandon(w, a, now, c)
    else ActResume(w, a, now, c)
  }

  // ---- Everything that can happen ----

  datatype Happening =
    | Arrive(actor: Actor)                       // a route, a webhook event or a job starts
    | Crash(who: nat)
    | Go(who: nat, now: int, choice: Choice)
    | Elsewhere(st: Statement, now: int)         // a merchant, a link, the sweep or an erasure
    | ClientPays(id: IntentId, to: IntentStatus) // only with the secret
    | Bank(id: IntentId, to: IntentStatus)       // a payment under way ends
    | Lapses(id: IntentId)                       // Stripe gives up on an uncharged intent

  /** What may start at any time. The start of a checkout runs once, from its placement. */
  predicate Entry(a: Actor) {
    a.Reconcile? || a == Settle(false) || a.Resume? || a.Abandon?
  }

  /** The statements on the booking that are not the checkout's own. */
  predicate Foreign(st: Statement) {
    !st.Paid? && !st.ExpireOne?
  }

  /** Where a payment may go from `from`: it goes through, waits at the bank, or is declined. */
  predicate Forward(id: IntentId, kind: Kind, from: IntentStatus, to: IntentStatus) {
    && (from == Waiting || from == Processing)
    && (to in {Waiting, Processing} || to == LandedStatus(id, kind))
  }

  datatype Checkouts = Checkouts(w: World, actors: seq<Actor>)

  function Progress(w: World, id: IntentId, to: IntentStatus): World
    requires id in w.intents
  {
    var i := w.intents[id];
    w.(intents := w.intents[id := i.(status := to)],
       landed := if Landed(id, i.kind, to) then w.landed + {id} else w.landed)
  }

  function Step(s: Checkouts, e: Happening): Checkouts {
    match e
    case Arrive(a) => if Entry(a) then s.(actors := s.actors + [a]) else s
    case Crash(who) => if who < |s.actors| then s.(actors := s.actors[who := Done]) else s
    case Go(who, now, c) =>
      if who < |s.actors| then
        var (w, a) := Act(s.w, s.actors[who], now, c);
        Checkouts(w, s.actors[who := a])
      else s
    case Elsewhere(st, now) =>
      if Foreign(st) then s.(w := s.w.(t := OnBooking(s.w.t, st, now, false))) else s
    case ClientPays(id, to) =>
      if id in s.w.exposed && id in s.w.intents && s.w.intents[id].status == Waiting
         && Forward(id, s.w.intents[id].kind, Waiting, to)
      then s.(w := Progress(s.w, id, to)) else s
    case Bank(id, to) =>
      if id in s.w.intents && s.w.intents[id].status == Processing
         && Forward(id, s.w.intents[id].kind, Processing, to)
      then s.(w := Progress(s.w, id, to)) else s
    case Lapses(id) =>
      if id in s.w.intents then s.(w := CancelAt(s.w, id, true)) else s
  }

  function Run(s: Checkouts, events: seq<Happening>): Checkouts {
    if events == [] then s else Step(Run(s, events[..|events| - 1]), events[|events| - 1])
  }

  /** A checkout just placed: no intent yet, and the rest of the placing request still to run. */
  predicate Placed(s: Checkouts) {
    && Born(s.w.t.booking) && s.w.t.booking.status == AwaitingPayment
    && s.w.t.payments == [] && s.w.t.announced == 0 && s.w.t.jobs == {}
    && s.w.intents == map[] && s.w.keys == map[] && s.w.exposed == {} && s.w.landed == {}
    && |s.actors| == 1 && s.actors[0].StartCreate?
  }
}
