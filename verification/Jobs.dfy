/**
 The leased job queue: what several workers' claims, crashes, completions and prunes keep, in any
 order and at whatever clocks.
 */
module Jobs {
  import opened Prelude

  const MAX_ATTEMPTS := 5
  const BATCH := 20
  const RETENTION := 30 * DAY

  datatype Job = Job(
    kind: nat, key: nat, dueAt: int, nextAttemptAt: int, attempts: nat,
    completedAt: Option<int>, skipped: bool, lastError: Option<nat>)

  /** One job taken by one worker, at its transaction's clock. */
  datatype Claim = Claim(id: nat, clock: int)

  /** The table, the ids ever given out, and every claim that committed, oldest first. */
  datatype Queue = Queue(rows: map<nat, Job>, used: set<nat>, claims: seq<Claim>)

  datatype Step =
    | Enqueue(id: nat, kind: nat, key: nat, due: Option<int>, now: int)
    | Take(batch: seq<nat>, kinds: set<nat>, locked: set<nat>, now: int)   // CLAIM by one worker
    | Finish(id: nat, skipped: bool, now: int)                             // completed or skipped
    | Fail(id: nat, error: nat)
    | Prune(now: int)

  function Pow2(n: nat): (r: int)
    ensures r >= 1
  {
    if n == 0 then 1 else 2 * Pow2(n - 1)
  }

  // ---- The statements ----

  predicate KeyKept(rows: map<nat, Job>, key: nat) {
    exists id :: id in rows && rows[id].key == key
  }

  function Added(kind: nat, key: nat, due: Option<int>, now: int): Job {
    var at := if due.Some? then due.value else now;
    Job(kind, key, at, at, 0, None, false, None)
  }

  /** CLAIM's WHERE clause. */
  predicate Claimable(j: Job, kinds: set<nat>, now: int) {
    j.completedAt.None? && j.attempts < MAX_ATTEMPTS && j.nextAttemptAt <= now && j.kind in kinds
  }

  /** A claim hides the job for a minute, and for twice as long each time after. */
  function Claimed(j: Job, now: int): Job {
    j.(attempts := j.attempts + 1, nextAttemptAt := now + Pow2(j.attempts) * MINUTE)
  }

  predicate Prunable(j: Job, now: int) {
    || (j.completedAt.Some? && j.completedAt.value < now - RETENTION)
    || (j.completedAt.None? && j.attempts >= MAX_ATTEMPTS && j.nextAttemptAt < now - RETENTION)
  }

  predicate Distinct(ids: seq<nat>) {
    forall i, j :: 0 <= i < j < |ids| ==> ids[i] != ids[j]
  }

  function Waiting(rows: map<nat, Job>, kinds: set<nat>, locked: set<nat>, now: int): set<nat> {
    set id | id in rows && id !in locked && Claimable(rows[id], kinds, now)
  }

  /** `batch` is what ORDER BY next_attempt_at LIMIT 20 SKIP LOCKED may return. */
  predicate IsBatch(rows: map<nat, Job>, kinds: set<nat>, locked: set<nat>, now: int, batch: seq<nat>) {
    var waiting := Waiting(rows, kinds, locked, now);
    && Distinct(batch) && (forall id :: id in batch ==> id in waiting)
    && |batch| <= BATCH
    && (|batch| < BATCH ==> forall id :: id in waiting ==> id in batch)
    && (forall x, y :: x in batch && y in waiting && y !in batch ==> rows[x].nextAttemptAt <= rows[y].nextAttemptAt)
  }

  function Taken(rows: map<nat, Job>, batch: seq<nat>, now: int): map<nat, Job> {
    map id | id in rows :: if id in batch then Claimed(rows[id], now) else rows[id]
  }

  function Claims(batch: seq<nat>, now: int): seq<Claim> {
    if batch == [] then []
    else Claims(batch[..|batch| - 1], now) + [Claim(batch[|batch| - 1], now)]
  }

  function Next(q: Queue, step: Step): Queue {
    match step
    case Enqueue(id, kind, key, due, now) =>
      if id in q.used || KeyKept(q.rows, key) then q
      else q.(rows := q.rows[id := Added(kind, key, due, now)], used := q.used + {id})
    case Take(batch, kinds, locked, now) =>
      if !IsBatch(q.rows, kinds, locked, now, batch) then q
      else q.(rows := Taken(q.rows, batch, now), claims := q.claims + Claims(batch, now))
    case Finish(id, skipped, now) =>
      if id !in q.rows then q
      else q.(rows := q.rows[id := q.rows[id].(completedAt := Some(now), skipped := q.rows[id].skipped || skipped)])
    case Fail(id, error) =>
      if id !in q.rows then q else q.(rows := q.rows[id := q.rows[id].(lastError := Some(error))])
    case Prune(now) => q.(rows := map id | id in q.rows && !Prunable(q.rows[id], now) :: q.rows[id])
  }

  function Run(q: Queue, steps: seq<Step>): Queue {
    if steps == [] then q else Next(Run(q, steps[..|steps| - 1]), steps[|steps| - 1])
  }

  const EMPTY := Queue(map[], {}, [])

  // ---- A job's claims ----

  /** The clocks at which a job was claimed, in order. */
  function ClocksOf(claims: seq<Claim>, id: nat): seq<int> {
    if claims == [] then []
    else
      var last := claims[|claims| - 1];
      ClocksOf(claims[..|claims| - 1], id) + if last.id == id then [last.clock] else []
  }

  lemma {:induction false} ClocksSnoc(claims: seq<Claim>, c: Claim, id: nat)
    ensures ClocksOf(claims + [c], id) == ClocksOf(claims, id) + if c.id == id then [c.clock] else []
  {
    assert (claims + [c])[..|claims|] == claims;
  }

  lemma {:induction false} LastOfBatch(batch: seq<nat>, id: nat)
    requires Distinct(batch) && batch != []
    ensures
      var n := |batch| - 1;
      && Distinct(batch[..n]) && batch[n] !in batch[..n]
      && (id in batch <==> id in batch[..n] || id == batch[n])
  {
    var n := |batch| - 1;
    if id in batch {
      var k :| 0 <= k < |batch| && batch[k] == id;
      if k < n { assert batch[..n][k] == id; }
    }
  }

  /** Claiming a batch adds one claim to each job in it and none to any other. */
  lemma {:induction false} BatchAdds(claims: seq<Claim>, batch: seq<nat>, now: int, id: nat)
    requires Distinct(batch)
    ensures
      ClocksOf(claims + Claims(batch, now), id)
      == if id in batch then ClocksOf(claims, id) + [now] else ClocksOf(claims, id)
  {
    if batch == [] {
      assert claims + Claims(batch, now) == claims;
    } else {
      var n := |batch| - 1;
      BatchAdds(claims, batch[..n], now, id);
      LastOfBatch(batch, id);
      var before := claims + Claims(batch[..n], now);
      assert claims + Claims(batch, now) == before + [Claim(batch[n], now)];
      ClocksSnoc(before, Claim(batch[n], now), id);
    }
  }

  /** Each claim is at least 1, 2, 4, 8 minutes after the one before it. */
  predicate Spaced(clocks: seq<int>) {
    forall k {:trigger Backoff(clocks, k)} :: 0 < k < |clocks| ==> Backoff(clocks, k)
  }

  predicate Backoff(clocks: seq<int>, k: nat)
    requires 0 < k < |clocks|
  {
    clocks[k - 1] + Pow2(k - 1) * MINUTE <= clocks[k]
  }

  lemma {:induction false} SpacedSnoc(clocks: seq<int>, now: int)
    requires Spaced(clocks)
    requires clocks != [] ==> clocks[|clocks| - 1] + Pow2(|clocks| - 1) * MINUTE <= now
    ensures Spaced(clocks + [now])
  {
    var after := clocks + [now];
    forall k | 0 < k < |after| ensures Backoff(after, k) {
      if k < |clocks| { assert Backoff(clocks, k); }
    }
  }

  // ---- The invariant ----

  /** What a kept row says about the job's claims. */
  predicate RowTells(j: Job, clocks: seq<int>) {
    && j.attempts == |clocks| <= MAX_ATTEMPTS
    && j.nextAttemptAt == if clocks == [] then j.dueAt else clocks[|clocks| - 1] + Pow2(|clocks| - 1) * MINUTE
  }

  ghost predicate Rows(q: Queue) {
    forall id :: id in q.rows ==> id in q.used && RowTells(q.rows[id], ClocksOf(q.claims, id))
  }

  ghost predicate Clocks(q: Queue) {
    forall id: nat :: |ClocksOf(q.claims, id)| <= MAX_ATTEMPTS && Spaced(ClocksOf(q.claims, id))
  }

  ghost predicate Unused(q: Queue) {
    forall id: nat :: id !in q.used ==> ClocksOf(q.claims, id) == []
  }

  predicate OneRowPerKey(rows: map<nat, Job>) {
    forall i, j :: i in rows && j in rows && rows[i].key == rows[j].key ==> i == j
  }

  ghost predicate Inv(q: Queue) {
    Rows(q) && Clocks(q) && Unused(q) && OneRowPerKey(q.rows)
  }

  lemma {:induction false} TakeKeeps(q: Queue, batch: seq<nat>, kinds: set<nat>, locked: set<nat>, now: int)
    requires Inv(q) && IsBatch(q.rows, kinds, locked, now, batch)
    ensures Inv(Next(q, Take(batch, kinds, locked, now)))
  {
    var w := Next(q, Take(batch, kinds, locked, now));
    forall id: nat
      ensures
        var clocks := ClocksOf(w.claims, id);
        && |clocks| <= MAX_ATTEMPTS && Spaced(clocks)
        && (id in w.rows ==> id in w.used && RowTells(w.rows[id], clocks))
        && (id !in w.used ==> clocks == [])
    {
      BatchAdds(q.claims, batch, now, id);
      if id in batch {
        assert id in Waiting(q.rows, kinds, locked, now);
        assert RowTells(q.rows[id], ClocksOf(q.claims, id));
        SpacedSnoc(ClocksOf(q.claims, id), now);
        assert w.rows[id] == Claimed(q.rows[id], now);
      } else {
        assert id in w.rows ==> w.rows[id] == q.rows[id];
      }
    }
  }

  lemma {:induction false} StepKeeps(q: Queue, step: Step)
    requires Inv(q)
    ensures Inv(Next(q, step))
  {
    match step
    case Take(batch, kinds, locked, now) =>
      if IsBatch(q.rows, kinds, locked, now, batch) { TakeKeeps(q, batch, kinds, locked, now); }
    case Enqueue(id, kind, key, due, now) =>
      assert id !in q.used ==> ClocksOf(q.claims, id) == [];
    case Finish(id, skipped, now) =>
    case Fail(id, error) =>
    case Prune(now) =>
  }

  lemma {:induction false} RunKeeps(q: Queue, steps: seq<Step>)
    requires Inv(q)
    ensures Inv(Run(q, steps))
  {
    if steps != [] {
      RunKeeps(q, steps[..|steps| - 1]);
      StepKeeps(Run(q, steps[..|steps| - 1]), steps[|steps| - 1]);
    }
  }

  lemma {:induction false} EmptyHolds()
    ensures Inv(EMPTY)
  {
  }

  /**
   In every run, from an empty queue, a job is claimed at most five times, its claims are 1, 2, 4
   and 8 minutes apart at the least, and no dedupe key has two kept rows.
   */
  lemma {:induction false} ClaimsAreSpaced(steps: seq<Step>, id: nat)
    ensures
      var q := Run(EMPTY, steps);
      && |ClocksOf(q.claims, id)| <= MAX_ATTEMPTS && Spaced(ClocksOf(q.claims, id))
      && OneRowPerKey(q.rows)
      && (id in q.rows ==> q.rows[id].attempts == |ClocksOf(q.claims, id)|)
  {
    EmptyHolds();
    RunKeeps(EMPTY, steps);
  }

  lemma {:induction false} SpacedFar(clocks: seq<int>, i: nat, j: nat)
    requires Spaced(clocks) && i < j < |clocks|
    ensures clocks[i] + (Pow2(j) - Pow2(i)) * MINUTE <= clocks[j]
    decreases j - i
  {
    assert Backoff(clocks, j);
    if i < j - 1 { SpacedFar(clocks, i, j - 1); }
  }

  // ---- Runs of the registered kinds ----

  const SECOND := 1_000_000
  const LEASE := MINUTE

  datatype Kind =
    | EmailSend | EmailToken | EmailInvite | EmailBooking | EmailBookingFlood | EmailContactEmail
    | MediaDelete | StripeEvent | PaymentSettle | ErasureHoldPurge | ErasureLedger

  /** How long the worker lets a run of this kind go on. */
  function Timeout(k: Kind): int {
    if k.StripeEvent? || k.PaymentSettle? then 50 * SECOND else 30 * SECOND
  }

  // One run of a claimed job: when its handler starts, after the claim, and when it is over.
  datatype JobRun = JobRun(begins: int, ends: int)

  /** A run the `i`-th claim began: it waits at most `wait` for its turn, and is cut at its timeout. */
  predicate RunOf(k: Kind, clocks: seq<int>, i: nat, wait: int, run: JobRun) {
    && i < |clocks|
    && clocks[i] <= run.begins <= clocks[i] + wait
    && run.begins <= run.ends <= run.begins + Timeout(k)
  }

  /** No run of the job goes on when a later claim of it is made. */
  ghost predicate NoOverlap(k: Kind, clocks: seq<int>, wait: int) {
    forall i: nat, j: nat, run :: i < j < |clocks| && RunOf(k, clocks, i, wait, run) ==> run.ends <= clocks[j]
  }

  lemma {:induction false} RunsEndInTheirLease(steps: seq<Step>, id: nat, k: Kind, wait: int)
    requires wait + Timeout(k) <= LEASE
    ensures NoOverlap(k, ClocksOf(Run(EMPTY, steps).claims, id), wait)
  {
    var clocks := ClocksOf(Run(EMPTY, steps).claims, id);
    ClaimsAreSpaced(steps, id);
    forall i: nat, j: nat, run | i < j < |clocks| && RunOf(k, clocks, i, wait, run) ensures run.ends <= clocks[j] {
      SpacedFar(clocks, i, j);
      Pow2Grows(i, j);
    }
  }

  // One job, claimed at once and again as soon as its lease is over.
  function ClaimedTwice(): seq<Step> {
    [Enqueue(0, 0, 0, None, 0), Take([0], {0}, {}, 0), Take([0], {0}, {}, LEASE)]
  }

  lemma {:induction false} ClaimedAtBothEnds()
    ensures ClocksOf(Run(EMPTY, ClaimedTwice()).claims, 0) == [0, LEASE]
  {
    var s := ClaimedTwice();
    var one := Added(0, 0, None, 0);
    var q2 := Queue(map[0 := Claimed(one, 0)], {0}, [Claim(0, 0)]);
    assert s[..1] == [s[0]] && s[..2] == [s[0], s[1]] && s[..2][..1] == [s[0]];
    AddedAlone();
    ClaimNext(map[0 := one], [], 0);
    assert [] + [Claim(0, 0)] == [Claim(0, 0)];
    assert Run(EMPTY, s[..2]) == Next(Run(EMPTY, s[..2][..1]), s[1]) == q2;
    ClaimNext(q2.rows, q2.claims, LEASE);
    assert Run(EMPTY, s).claims == [Claim(0, 0)] + [Claim(0, LEASE)];
    ClocksSnoc([], Claim(0, 0), 0);
    ClocksSnoc([Claim(0, 0)], Claim(0, LEASE), 0);
  }

  lemma {:induction false} AddedAlone()
    ensures
      Run(EMPTY, [Enqueue(0, 0, 0, None, 0)]) == Queue(map[0 := Added(0, 0, None, 0)], {0}, [])
  {
    var add := Enqueue(0, 0, 0, None, 0);
    assert [add][..0] == [] && !KeyKept(EMPTY.rows, 0);
    assert Next(EMPTY, add).used == {0} && Next(EMPTY, add).rows == map[0 := Added(0, 0, None, 0)];
  }

  lemma {:induction false} ClaimNext(rows: map<nat, Job>, claims: seq<Claim>, now: int)
    requires rows.Keys == {0} && Claimable(rows[0], {0}, now)
    ensures
      Next(Queue(rows, {0}, claims), Take([0], {0}, {}, now))
      == Queue(map[0 := Claimed(rows[0], now)], {0}, claims + [Claim(0, now)])
  {
    assert Waiting(rows, {0}, {}, now) == {0};
    assert IsBatch(rows, {0}, {}, now, [0]);
    assert Claims([0], now) == Claims([0][..0], now) + [Claim(0, now)];
    assert Taken(rows, [0], now) == map[0 := Claimed(rows[0], now)];
  }

  /**
   In every run of the workers, runs of a job of this kind never overlap exactly when the wait before a
   handler starts and the kind's timeout fit in the lease together: ten seconds of wait for Stripe's
   kinds, thirty for the others.
   */
  lemma {:induction false} RunsDoNotOverlapExactly(k: Kind, wait: nat)
    ensures
      (forall steps: seq<Step>, id: nat :: NoOverlap(k, ClocksOf(Run(EMPTY, steps).claims, id), wait))
      <==> wait + Timeout(k) <= LEASE
  {
    if wait + Timeout(k) <= LEASE {
      forall steps: seq<Step>, id: nat ensures NoOverlap(k, ClocksOf(Run(EMPTY, steps).claims, id), wait) {
        RunsEndInTheirLease(steps, id, k, wait);
      }
    } else {
      ClaimedAtBothEnds();
      var clocks := ClocksOf(Run(EMPTY, ClaimedTwice()).claims, 0);
      var run := JobRun(wait, wait + Timeout(k));
      assert RunOf(k, clocks, 0, wait, run) && clocks[1] == LEASE < run.ends;
      assert !NoOverlap(k, clocks, wait);
    }
  }

  lemma {:induction false} Pow2Grows(i: nat, j: nat)
    requires i < j
    ensures Pow2(j) - Pow2(i) >= 1
  {
    if i < j - 1 { Pow2Grows(i, j - 1); }
  }

  /** A job that gives up does so at least a quarter of an hour after its first claim. */
  lemma {:induction false} GivesUpAfterFifteenMinutes(steps: seq<Step>, id: nat)
    requires |ClocksOf(Run(EMPTY, steps).claims, id)| == MAX_ATTEMPTS
    ensures
      var clocks := ClocksOf(Run(EMPTY, steps).claims, id);
      clocks[4] >= clocks[0] + 15 * MINUTE
  {
    ClaimsAreSpaced(steps, id);
    SpacedFar(ClocksOf(Run(EMPTY, steps).claims, id), 0, 4);
    FifthLease();
  }

  // ---- Over is over ----

  /** Done, given up, or gone: nothing can claim it. */
  predicate Retired(q: Queue, id: nat) {
    id in q.used && (id in q.rows ==> q.rows[id].completedAt.Some? || q.rows[id].attempts >= MAX_ATTEMPTS)
  }

  lemma {:induction false} StepRetires(q: Queue, step: Step, id: nat)
    requires Retired(q, id)
    ensures Retired(Next(q, step), id)
    ensures ClocksOf(Next(q, step).claims, id) == ClocksOf(q.claims, id)
  {
    match step
    case Take(batch, kinds, locked, now) =>
      if IsBatch(q.rows, kinds, locked, now, batch) {
        assert id in batch ==> id in Waiting(q.rows, kinds, locked, now);
        BatchAdds(q.claims, batch, now, id);
      }
    case Enqueue(_, _, _, _, _) =>
    case Finish(_, _, _) =>
    case Fail(_, _) =>
    case Prune(_) =>
  }

  /** A completed, given-up or pruned job is never claimed again, whatever follows. */
  lemma {:induction false} NeverClaimedAgain(q: Queue, steps: seq<Step>, id: nat)
    requires Retired(q, id)
    ensures Retired(Run(q, steps), id)
    ensures ClocksOf(Run(q, steps).claims, id) == ClocksOf(q.claims, id)
  {
    if steps != [] {
      NeverClaimedAgain(q, steps[..|steps| - 1], id);
      StepRetires(Run(q, steps[..|steps| - 1]), steps[|steps| - 1], id);
    }
  }

  /** A job whose handler succeeded, or came too late, is completed at that clock and no other row moves. */
  lemma {:induction false} FinishRetires(q: Queue, id: nat, skipped: bool, now: int)
    requires Inv(q) && id in q.rows
    ensures
      var after := Next(q, Finish(id, skipped, now));
      && Retired(after, id) && after.rows.Keys == q.rows.Keys
      && after.rows[id].completedAt == Some(now) && (after.rows[id].skipped <==> q.rows[id].skipped || skipped)
      && forall j :: j in q.rows && j != id ==> after.rows[j] == q.rows[j]
  {
  }

  /** So in every run a job that was recorded as done is never claimed again, and stays done. */
  lemma {:induction false} DoneIsNeverClaimedAgain(before: seq<Step>, id: nat, skipped: bool, now: int,
                                                   after: seq<Step>)
    requires id in Run(EMPTY, before).rows
    ensures
      var q := Run(EMPTY, before);
      var end := Run(Next(q, Finish(id, skipped, now)), after);
      ClocksOf(end.claims, id) == ClocksOf(q.claims, id) && (id in end.rows ==> end.rows[id].completedAt.Some?)
  {
    var q := Run(EMPTY, before);
    EmptyHolds();
    RunKeeps(EMPTY, before);
    FinishRetires(q, id, skipped, now);
    NeverClaimedAgain(Next(q, Finish(id, skipped, now)), after, id);
    StaysDone(Next(q, Finish(id, skipped, now)), after, id);
  }

  lemma {:induction false} StaysDone(q: Queue, steps: seq<Step>, id: nat)
    requires id in q.used && (id in q.rows ==> q.rows[id].completedAt.Some?)
    ensures
      var end := Run(q, steps);
      id in end.used && (id in end.rows ==> end.rows[id].completedAt.Some?)
  {
    if steps != [] { StaysDone(q, steps[..|steps| - 1], id); }
  }

  /** In every run a kept job may be claimed exactly while it is not done, has a claim left, and its due
   time or the wait after its last claim is over; so one that failed or was lost comes back. */
  lemma {:induction false} ClaimableExactly(steps: seq<Step>, id: nat, kinds: set<nat>, now: int)
    requires id in Run(EMPTY, steps).rows
    ensures
      var j, clocks := Run(EMPTY, steps).rows[id], ClocksOf(Run(EMPTY, steps).claims, id);
      Claimable(j, kinds, now) <==>
      && j.kind in kinds && j.completedAt.None? && |clocks| < MAX_ATTEMPTS
      && now >= (if clocks == [] then j.dueAt else clocks[|clocks| - 1] + Pow2(|clocks| - 1) * MINUTE)
  {
    EmptyHolds();
    RunKeeps(EMPTY, steps);
  }

  /** A failed handler leaves the job as it was, with the error: it is neither done nor put off. */
  lemma {:induction false} AFailureComesBack(steps: seq<Step>, id: nat, error: nat, kinds: set<nat>, now: int)
    requires id in Run(EMPTY, steps).rows
    ensures
      var q := Run(EMPTY, steps);
      var after := Next(q, Fail(id, error));
      && id in after.rows && after.rows[id].lastError == Some(error)
      && (Claimable(after.rows[id], kinds, now) <==> Claimable(q.rows[id], kinds, now))
      && forall j :: j in q.rows && j != id ==> j in after.rows && after.rows[j] == q.rows[j]
  {
  }

  /** PRUNE deletes exactly what was finished, or given up at its last claim, more than the retention
   ago: none that could still be running. */
  lemma {:induction false} PruneDeletesExactly(steps: seq<Step>, id: nat, now: int)
    requires id in Run(EMPTY, steps).rows
    ensures
      var q := Run(EMPTY, steps);
      var clocks := ClocksOf(q.claims, id);
      id !in Next(q, Prune(now)).rows <==>
      || (q.rows[id].completedAt.Some? && q.rows[id].completedAt.value < now - RETENTION)
      || (q.rows[id].completedAt.None? && |clocks| == MAX_ATTEMPTS && clocks[4] + 16 * MINUTE < now - RETENTION)
  {
    EmptyHolds();
    RunKeeps(EMPTY, steps);
    FifthLease();
    var q := Run(EMPTY, steps);
    assert RowTells(q.rows[id], ClocksOf(q.claims, id));
    assert id !in Next(q, Prune(now)).rows <==> Prunable(q.rows[id], now);
  }

  lemma {:induction false} FifthLease()
    ensures Pow2(4) == 16
  {
    assert Pow2(2) == 4;
  }

  // ---- The table as the program holds it ----

  lemma {:induction false} EarliestExists(ids: set<nat>, rows: map<nat, Job>)
    requires ids != {} && ids <= rows.Keys
    ensures exists x :: x in ids && forall y :: y in ids ==> rows[x].nextAttemptAt <= rows[y].nextAttemptAt
    decreases |ids|
  {
    var z :| z in ids;
    var rest := ids - {z};
    var least := z;
    if rest != {} {
      EarliestExists(rest, rows);
      var x :| x in rest && forall y :: y in rest ==> rows[x].nextAttemptAt <= rows[y].nextAttemptAt;
      if rows[x].nextAttemptAt < rows[z].nextAttemptAt { least := x; }
    }
    forall y | y in ids ensures rows[least].nextAttemptAt <= rows[y].nextAttemptAt {
      assert y == z || y in rest;
    }
  }

  lemma {:induction false} RowsLeft(rows: map<nat, Job>, gone: set<nat>)
    requires gone <= rows.Keys
    ensures |rows - gone| == |rows| - |gone|
  {
    assert (rows - gone).Keys == rows.Keys - gone;
    assert |rows.Keys| == |rows| && |(rows - gone).Keys| == |rows - gone|;
  }

  class JobTable {
    var rows: map<nat, Job>
    var used: set<nat>
    ghost var claims: seq<Claim>

    ghost function State(): Queue
      reads this
    {
      Queue(rows, used, claims)
    }

    constructor ()
      ensures State() == EMPTY
    {
      rows, used, claims := map[], {}, [];
    }

    /** ENQUEUE: whether it was added. `id` is the fresh id the database would give it. */
    method Enqueue(id: nat, kind: nat, key: nat, due: Option<int>, now: int) returns (added: bool)
      requires id !in used
      modifies this
      ensures added <==> !KeyKept(old(rows), key)
      ensures added ==> id in rows && rows[id].kind == kind && rows[id].key == key && rows[id].completedAt.None?
                        && rows[id].attempts == 0 && rows[id].dueAt == if due.Some? then due.value else now
      ensures forall j :: j in old(rows) && j != id ==> j in rows && rows[j] == old(rows)[j]
      ensures State() == Next(old(State()), Step.Enqueue(id, kind, key, due, now))
    {
      added := !KeyKept(rows, key);
      if added {
        rows := rows[id := Added(kind, key, due, now)];
        used := used + {id};
      }
    }

    /** CLAIM: up to twenty due jobs, the longest waiting first, passing over locked rows. */
    method Take(kinds: set<nat>, locked: set<nat>, now: int) returns (batch: seq<nat>)
      modifies this
      ensures IsBatch(old(rows), kinds, locked, now, batch)
      ensures State() == Next(old(State()), Step.Take(batch, kinds, locked, now))
    {
      ghost var waiting := Waiting(rows, kinds, locked, now);
      var left := Waiting(rows, kinds, locked, now);
      batch := [];
      while left != {} && |batch| < BATCH
        invariant rows == old(rows) && used == old(used) && claims == old(claims)
        invariant left <= waiting && |batch| <= BATCH && Distinct(batch)
        invariant forall id :: id in waiting <==> id in left || id in batch
        invariant forall id :: id in batch ==> id !in left
        invariant forall x, y :: x in batch && y in left ==> rows[x].nextAttemptAt <= rows[y].nextAttemptAt
        decreases left
      {
        EarliestExists(left, rows);
        var x :| x in left && forall y :: y in left ==> rows[x].nextAttemptAt <= rows[y].nextAttemptAt;
        batch := batch + [x];
        left := left - {x};
      }
      rows := Taken(rows, batch, now);
      claims := claims + Claims(batch, now);
    }

    /** What `_run` records once the handler is over: skipped if too late, done, or the error. */
    method Record(id: nat, overdue: int, grace: int, error: Option<nat>, now: int)
      modifies this
      ensures State() == Next(old(State()),
                              if overdue > grace then Finish(id, true, now)
                              else if error.Some? then Fail(id, error.value)
                              else Finish(id, false, now))
      ensures rows.Keys == old(rows).Keys && forall j :: j in rows && j != id ==> rows[j] == old(rows)[j]
      ensures id in rows && overdue > grace ==> rows[id].completedAt == Some(now) && rows[id].skipped
      ensures id in rows && overdue <= grace && error.None? ==>
                rows[id].completedAt == Some(now) && rows[id].skipped == old(rows)[id].skipped
      ensures id in rows && overdue <= grace && error.Some? ==>
                rows[id].lastError == error && rows[id].completedAt == old(rows)[id].completedAt
    {
      if id in rows {
        if overdue > grace {
          rows := rows[id := rows[id].(completedAt := Some(now), skipped := true)];
        } else if error.Some? {
          rows := rows[id := rows[id].(lastError := error)];
        } else {
          rows := rows[id := rows[id].(completedAt := Some(now))];
        }
      }
    }

    /** PRUNE: how many rows it deleted. */
    method Prune(now: int) returns (deleted: nat)
      modifies this
      ensures State() == Next(old(State()), Step.Prune(now))
      ensures deleted == |old(rows)| - |rows|
    {
      var gone := set id | id in rows && Prunable(rows[id], now);
      var before := rows;
      rows := rows - gone;
      assert rows == map id | id in before && !Prunable(before[id], now) :: before[id];
      deleted := |gone|;
      RowsLeft(before, gone);
    }
  }
}
