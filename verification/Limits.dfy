/**
 The fixed-window rate limiter: purging old rows never changes an answer, and how many attempts any
 stretch of time admits.
 */
module Limits {
  import opened Prelude

  const MAX_WINDOW := DAY
  const MARGIN := HOUR

  datatype Row = Row(start: int, hits: nat)
  type Rows = map<nat, Row>

  datatype Op =
    | Hit(keys: set<nat>, window: int, now: int)
    | Refund(keys: set<nat>, window: int, now: int)
    | Count(keys: set<nat>, window: int, now: int)
    | Purge(gone: set<nat>, now: int)    // any of the old rows: a batch, skipping the locked ones

  // ---- The statements ----

  predicate LiveRow(r: Row, window: int, now: int) {
    r.start > now - window
  }

  predicate LiveAt(rows: Rows, key: nat, window: int, now: int) {
    key in rows && LiveRow(rows[key], window, now)
  }

  /** HIT on one key: count on in a live window, else start again at 1. */
  function Bumped(rows: Rows, key: nat, window: int, now: int): Row {
    if LiveAt(rows, key, window, now) then rows[key].(hits := rows[key].hits + 1) else Row(now, 1)
  }

  predicate Old(r: Row, now: int) {
    r.start < now - (MAX_WINDOW + MARGIN)
  }

  function Apply(rows: Rows, op: Op): Rows {
    match op
    case Hit(keys, window, now) =>
      map key | key in rows.Keys + keys :: if key in keys then Bumped(rows, key, window, now) else rows[key]
    case Refund(keys, window, now) =>
      map key | key in rows ::
        if key in keys && rows[key].hits > 0 && LiveRow(rows[key], window, now)
        then rows[key].(hits := rows[key].hits - 1) else rows[key]
    case Count(_, _, _) => rows
    case Purge(gone, now) => map key | key in rows && !(key in gone && Old(rows[key], now)) :: rows[key]
  }

  /** What one key's caller is told: the hits it has after a hit, or the hits a count finds. */
  function Answer(rows: Rows, op: Op, key: nat): nat {
    match op
    case Hit(_, window, now) => Bumped(rows, key, window, now).hits
    case Count(_, window, now) => if LiveAt(rows, key, window, now) then rows[key].hits else 0
    case _ => 0
  }

  function Purging(ops: seq<Op>): Rows {
    if ops == [] then map[] else Apply(Purging(ops[..|ops| - 1]), ops[|ops| - 1])
  }

  /** The limiter that never deletes a row. */
  function Keeping(ops: seq<Op>): Rows {
    if ops == [] then map[]
    else if ops[|ops| - 1].Purge? then Keeping(ops[..|ops| - 1])
    else Apply(Keeping(ops[..|ops| - 1]), ops[|ops| - 1])
  }

  // ---- Purging refines keeping ----

  predicate Allowed(op: Op) {
    op.Purge? || op.window <= MAX_WINDOW
  }

  /** This operation's clock is at most `lag` behind every purge before it. */
  predicate Timely(ops: seq<Op>, k: nat, lag: nat)
    requires k < |ops|
  {
    !ops[k].Purge? ==> forall j :: 0 <= j < k && ops[j].Purge? ==> ops[j].now - lag <= ops[k].now
  }

  predicate Orderly(ops: seq<Op>, lag: nat) {
    forall k :: 0 <= k < |ops| ==> Allowed(ops[k]) && Timely(ops, k, lag)
  }

  // A purge spares what is exactly the longest window and the margin old, and a window ends at its
  // own length: a microsecond each.
  const LONGEST_LAG := MARGIN + 1

  /** Some purge found the row old. */
  predicate PurgedOld(ops: seq<Op>, r: Row) {
    exists j :: 0 <= j < |ops| && ops[j].Purge? && Old(r, ops[j].now)
  }

  /** The purging limiter has the keeping one's row, or none where that row is long over. */
  ghost predicate Agree(ops: seq<Op>, p: Rows, q: Rows) {
    && p.Keys <= q.Keys
    && (forall key :: key in p ==> p[key] == q[key])
    && (forall key :: key in q && key !in p ==> PurgedOld(ops, q[key]))
  }

  /** A row some purge found old is dead to every timely operation. */
  lemma {:induction false} OldIsDead(ops: seq<Op>, op: Op, r: Row, lag: nat)
    requires lag <= LONGEST_LAG && Orderly(ops + [op], lag) && !op.Purge? && PurgedOld(ops, r)
    ensures !LiveRow(r, op.window, op.now)
  {
    var j :| 0 <= j < |ops| && ops[j].Purge? && Old(r, ops[j].now);
    var all := ops + [op];
    assert all[|ops|] == op && Allowed(all[|ops|]) && Timely(all, |ops|, lag);
    assert all[j] == ops[j];
  }

  lemma {:induction false} StillOld(ops: seq<Op>, op: Op, r: Row)
    requires PurgedOld(ops, r)
    ensures PurgedOld(ops + [op], r)
  {
    var j :| 0 <= j < |ops| && ops[j].Purge? && Old(r, ops[j].now);
    assert (ops + [op])[j] == ops[j];
  }

  lemma {:induction false} SameAnswer(ops: seq<Op>, op: Op, p: Rows, q: Rows, key: nat, lag: nat)
    requires lag <= LONGEST_LAG && Orderly(ops + [op], lag) && Agree(ops, p, q) && !op.Purge?
    ensures Answer(p, op, key) == Answer(q, op, key)
    ensures Bumped(p, key, op.window, op.now) == Bumped(q, key, op.window, op.now)
  {
    if key in q && key !in p { OldIsDead(ops, op, q[key], lag); }
  }

  lemma {:induction false} OperationAgrees(ops: seq<Op>, op: Op, p: Rows, q: Rows, lag: nat)
    requires lag <= LONGEST_LAG && Orderly(ops + [op], lag) && Agree(ops, p, q) && !op.Purge?
    ensures Agree(ops + [op], Apply(p, op), Apply(q, op))
  {
    var p1, q1 := Apply(p, op), Apply(q, op);
    forall key | key in p1 ensures p1[key] == q1[key] {
      SameAnswer(ops, op, p, q, key, lag);
    }
    forall key | key in q1 && key !in p1 ensures PurgedOld(ops + [op], q1[key]) {
      OldIsDead(ops, op, q[key], lag);
      StillOld(ops, op, q[key]);
    }
  }

  lemma {:induction false} PurgeAgrees(ops: seq<Op>, op: Op, p: Rows, q: Rows)
    requires Agree(ops, p, q) && op.Purge?
    ensures Agree(ops + [op], Apply(p, op), q)
  {
    var p1 := Apply(p, op);
    forall key | key in q && key !in p1 ensures PurgedOld(ops + [op], q[key]) {
      if key in p {
        assert (ops + [op])[|ops|] == op;
      } else {
        StillOld(ops, op, q[key]);
      }
    }
  }

  lemma {:induction false} OrderlyPrefix(ops: seq<Op>, lag: nat)
    requires ops != [] && Orderly(ops, lag)
    ensures Orderly(ops[..|ops| - 1], lag)
  {
    var init := ops[..|ops| - 1];
    forall k | 0 <= k < |init| ensures Allowed(init[k]) && Timely(init, k, lag) {
      assert init[k] == ops[k] && Timely(ops, k, lag);
    }
  }

  lemma {:induction false} RunsAgree(ops: seq<Op>, lag: nat)
    requires lag <= LONGEST_LAG && Orderly(ops, lag)
    ensures Agree(ops, Purging(ops), Keeping(ops))
  {
    if ops != [] {
      var init, op := ops[..|ops| - 1], ops[|ops| - 1];
      OrderlyPrefix(ops, lag);
      RunsAgree(init, lag);
      assert ops == init + [op];
      if op.Purge? {
        PurgeAgrees(init, op, Purging(init), Keeping(init));
      } else {
        OperationAgrees(init, op, Purging(init), Keeping(init), lag);
      }
    }
  }

  /**
   Purging changes no answer: for every allowed window, with each reader at most the margin and a
   microsecond behind the purges before it, `hit`, `refund` and `count` do what they would do had no
   row been deleted.
   */
  lemma {:induction false} PurgingRefinesKeeping(ops: seq<Op>, op: Op, key: nat, lag: nat)
    requires lag <= LONGEST_LAG && Orderly(ops + [op], lag) && !op.Purge?
    ensures Answer(Purging(ops), op, key) == Answer(Keeping(ops), op, key)
  {
    OrderlyPrefix(ops + [op], lag);
    assert (ops + [op])[..|ops|] == ops;
    RunsAgree(ops, lag);
    SameAnswer(ops, op, Purging(ops), Keeping(ops), key, lag);
  }

  /** A microsecond later still, and a reader can be told otherwise. */
  lemma {:induction false} ALaterReaderDisagrees()
    ensures
      var ops := [Hit({7}, DAY, 0), Purge({7}, DAY + MARGIN + 1)];
      var op := Count({7}, DAY, DAY - 1);
      && Orderly(ops + [op], LONGEST_LAG + 1)
      && Answer(Purging(ops), op, 7) == 0 && Answer(Keeping(ops), op, 7) == 1
  {
    var hit, purge := Hit({7}, DAY, 0), Purge({7}, DAY + MARGIN + 1);
    assert [hit, purge][..1] == [hit] && [hit][..0] == [];
    assert Keeping([hit]) == Apply(map[], hit) && Purging([hit]) == Apply(map[], hit);
    assert Apply(map[], hit)[7] == Row(0, 1);
    assert Keeping([hit, purge]) == Keeping([hit]);
    assert Purging([hit, purge]) == Apply(Purging([hit]), purge);
  }

  /** In every run where no reader lags more, the answers are those of a limiter that never purges. */
  ghost predicate PurgingIsUnseen(lag: nat) {
    forall ops: seq<Op>, op: Op, key: nat ::
      Orderly(ops + [op], lag) && !op.Purge? ==> Answer(Purging(ops), op, key) == Answer(Keeping(ops), op, key)
  }

  /** How far behind a purge a reader may be: the margin and one microsecond, and no more. */
  lemma {:induction false} PurgingIsUnseenExactly(lag: nat)
    ensures PurgingIsUnseen(lag) <==> lag <= MARGIN + 1
  {
    if lag <= LONGEST_LAG {
      forall ops: seq<Op>, op: Op, key: nat | Orderly(ops + [op], lag) && !op.Purge?
        ensures Answer(Purging(ops), op, key) == Answer(Keeping(ops), op, key)
      {
        PurgingRefinesKeeping(ops, op, key, lag);
      }
    } else {
      ALaterReaderDisagrees();
      var ops, op := [Hit({7}, DAY, 0), Purge({7}, DAY + MARGIN + 1)], Count({7}, DAY, DAY - 1);
      assert Orderly(ops + [op], LONGEST_LAG + 1);
      assert Orderly(ops + [op], lag);
      assert Answer(Purging(ops), op, 7) != Answer(Keeping(ops), op, 7);
    }
  }

  // ---- What the counts count ----

  /** The hits a key has at this clock. */
  function HitsAt(rows: Rows, key: nat, window: int, now: int): nat {
    Answer(rows, Count({key}, window, now), key)
  }

  /** An attempt adds one to the count of each of its keys and to no other, and its caller is told the new
   count. */
  lemma {:induction false} AHitCountsOne(rows: Rows, keys: set<nat>, window: int, now: int, key: nat)
    requires window > 0
    ensures
      var after := Apply(rows, Hit(keys, window, now));
      && HitsAt(after, key, window, now) == HitsAt(rows, key, window, now) + (if key in keys then 1 else 0)
      && (key in keys ==> Answer(rows, Hit(keys, window, now), key) == HitsAt(after, key, window, now))
  {
  }

  /** A window begins with the first attempt after the last one ended, and counts until its length is over. */
  lemma {:induction false} AWindowLasts(rows: Rows, keys: set<nat>, window: int, start: int, later: int, key: nat)
    requires key in keys && !LiveAt(rows, key, window, start) && start <= later
    ensures
      HitsAt(Apply(rows, Hit(keys, window, start)), key, window, later) == if later < start + window then 1 else 0
  {
  }

  /** An attempt in a window leaves the window's end where it was. */
  lemma {:induction false} AHitKeepsTheWindow(rows: Rows, keys: set<nat>, window: int, now: int, later: int, key: nat)
    requires HitsAt(rows, key, window, now) > 0 && now <= later
    ensures
      HitsAt(Apply(rows, Hit(keys, window, now)), key, window, later) > 0 <==> HitsAt(rows, key, window, later) > 0
  {
  }

  /** A refund takes one off each of its keys that has one, and nothing off any other. */
  lemma {:induction false} ARefundTakesOne(rows: Rows, keys: set<nat>, window: int, now: int, key: nat)
    ensures
      var before := HitsAt(rows, key, window, now);
      HitsAt(Apply(rows, Refund(keys, window, now)), key, window, now)
      == if key in keys && before > 0 then before - 1 else before
  {
  }

  /** So an attempt given back in its window was never counted. */
  lemma {:induction false} ARefundUndoesAHit(rows: Rows, keys: set<nat>, window: int, now: int, key: nat)
    requires window > 0
    ensures
      HitsAt(Apply(Apply(rows, Hit(keys, window, now)), Refund(keys, window, now)), key, window, now)
      == HitsAt(rows, key, window, now)
  {
    AHitCountsOne(rows, keys, window, now, key);
    ARefundTakesOne(Apply(rows, Hit(keys, window, now)), keys, window, now, key);
  }

  /** Counting changes nothing, and a purge takes nothing that any allowed window still counts. */
  lemma {:induction false} APurgeTakesNothingLive(rows: Rows, gone: set<nat>, now: int, window: int, later: int,
                                                  key: nat)
    requires window <= MAX_WINDOW && now - LONGEST_LAG <= later
    ensures HitsAt(Apply(rows, Purge(gone, now)), key, window, later) == HitsAt(rows, key, window, later)
  {
  }

  // ---- How many attempts a stretch admits ----

  /** One key's row after attempts at these clocks, in the order they took the row lock. */
  function After(clocks: seq<int>, window: int): Option<Row> {
    if clocks == [] then None
    else
      var before := After(clocks[..|clocks| - 1], window);
      var now := clocks[|clocks| - 1];
      if before.Some? && LiveRow(before.value, window, now)
      then Some(Row(before.value.start, before.value.hits + 1))
      else Some(Row(now, 1))
  }

  /** How many of them are let through at clocks in [from, from + window). */
  function Admitted(clocks: seq<int>, window: int, limit: nat, from: int): nat {
    if clocks == [] then 0
    else
      var now := clocks[|clocks| - 1];
      Admitted(clocks[..|clocks| - 1], window, limit, from)
      + if from <= now < from + window && After(clocks, window).value.hits <= limit then 1 else 0
  }

  /** No clock is more than `lag` behind one whose transaction took the lock before it. */
  predicate Behind(clocks: seq<int>, lag: nat) {
    forall i, j :: 0 <= i < j < |clocks| ==> clocks[i] - lag <= clocks[j]
  }

  function Times(k: int, w: int): int {
    k * w
  }

  lemma {:induction false} TimesNext(k: int, w: int)
    ensures Times(k + 1, w) == Times(k, w) + w
  {
  }

  lemma {:induction false} TimesOrder(j: int, k: int, w: int)
    requires w >= 0 && j <= k
    ensures Times(j, w) <= Times(k, w)
    decreases k - j
  {
    if j < k {
      TimesNext(k - 1, w);
      TimesOrder(j, k - 1, w);
    }
  }

  /** Whether a window begun here may spend its first attempt in the stretch. */
  function Inside(start: int, from: int): int {
    if start >= from then 1 else 0
  }

  /**
   Counting by windows: `n` windows so far could have let some of the stretch through, each starts a
   window after the one before it, and each let through at most `limit`, the first of them before the
   stretch unless the window began in it. At most one did.
   */
  ghost predicate Tally(row: Row, admitted: nat, n: nat, window: int, limit: nat, from: int) {
    && (row.start > from - window ==> n >= 1)
    && (n == 0 ==> admitted == 0)
    && (n >= 1 ==>
          && row.start > from - window + Times(n - 1, window)
          && admitted <= Times(n, limit - 1) + Inside(row.start, from) - (limit - Min(row.hits, limit)))
  }

  /** The windows counted so far, and where the last one can start. */
  function Windows(clocks: seq<int>, window: int, from: int): nat {
    if clocks == [] then 0
    else
      var init := clocks[..|clocks| - 1];
      var before := After(init, window);
      var now := clocks[|clocks| - 1];
      Windows(init, window, from)
      + if (before.Some? && LiveRow(before.value, window, now)) || now <= from - window then 0 else 1
  }

  lemma {:induction false} TallyHolds(clocks: seq<int>, window: int, limit: nat, from: int)
    requires window > 0 && limit > 0 && clocks != []
    ensures
      Tally(After(clocks, window).value, Admitted(clocks, window, limit, from), Windows(clocks, window, from),
            window, limit, from)
  {
    var init := clocks[..|clocks| - 1];
    var n: int := Windows(init, window, from);
    TimesNext(n - 1, window);
    TimesNext(n, limit - 1);
    TimesNext(0, limit - 1);
    if init != [] {
      TallyHolds(init, window, limit, from);
    }
  }

  /** Every window starts at one of the clocks. */
  lemma {:induction false} StartIsAClock(clocks: seq<int>, window: int)
    requires clocks != []
    ensures exists k :: 0 <= k < |clocks| && After(clocks, window).value.start == clocks[k]
  {
    var init := clocks[..|clocks| - 1];
    var before := After(init, window);
    if before.Some? && LiveRow(before.value, window, clocks[|clocks| - 1]) {
      StartIsAClock(init, window);
      var k :| 0 <= k < |init| && before.value.start == init[k];
      assert clocks[k] == init[k];
    } else {
      assert After(clocks, window).value.start == clocks[|clocks| - 1];
    }
  }

  lemma {:induction false} BehindPrefix(clocks: seq<int>, lag: nat)
    requires clocks != [] && Behind(clocks, lag)
    ensures Behind(clocks[..|clocks| - 1], lag)
  {
  }

  /** How many windows can let some of a stretch through when no clock lags more than `lag`. */
  lemma {:induction false} AdmitsByWindows(clocks: seq<int>, window: int, limit: nat, from: int, lag: nat, most: nat)
    requires window > 0 && limit > 0 && Behind(clocks, lag)
    requires Times(most, window) >= 2 * window + lag - 1
    ensures Admitted(clocks, window, limit, from) <= Times(most, limit - 1) + 1
  {
    if clocks == [] {
      TimesOrder(0, most, limit - 1);
    } else {
      var init := clocks[..|clocks| - 1];
      var now := clocks[|clocks| - 1];
      BehindPrefix(clocks, lag);
      if from <= now < from + window {
        TallyHolds(clocks, window, limit, from);
        var n := Windows(clocks, window, from);
        StartIsAClock(clocks, window);
        var row := After(clocks, window).value;
        assert row.start <= now + lag;
        if n > most { TimesOrder(most, n - 1, window); }
        TimesOrder(n, most, limit - 1);
      } else {
        AdmitsByWindows(init, window, limit, from, lag, most);
      }
    }
  }

  /**
   Without refunds, with no transaction's clock more than `lags` whole windows behind the lock's order,
   any stretch one window long admits at most `limit - 1` for each of `2 + lags` windows, and one more.
   */
  lemma {:induction false} AdmitsAtMost(clocks: seq<int>, window: int, limit: nat, from: int, lags: nat)
    requires window > 0 && limit > 0 && Behind(clocks, Lag(lags, window))
    ensures Admitted(clocks, window, limit, from) <= Times(2 + lags, limit - 1) + 1
  {
    TimesNext(lags, window);
    TimesNext(lags + 1, window);
    AdmitsByWindows(clocks, window, limit, from, Lag(lags, window), 2 + lags);
  }

  function Lag(lags: nat, window: int): (r: nat)
    requires window > 0
  {
    TimesOrder(0, lags, window);
    Times(lags, window)
  }

  lemma {:induction false} NoneAdmitted(clocks: seq<int>, window: int, from: int)
    ensures Admitted(clocks, window, 0, from) == 0
  {
    if clocks != [] { NoneAdmitted(clocks[..|clocks| - 1], window, from); }
  }

  /** With clocks in the lock's order, or at most a microsecond out of it: less than twice the limit. */
  lemma {:induction false} UnderTwiceTheLimit(clocks: seq<int>, window: int, limit: nat, from: int)
    requires window > 0 && Behind(clocks, 1)
    ensures Admitted(clocks, window, limit, from) <= Max(2 * limit - 1, 0)
  {
    if limit == 0 {
      NoneAdmitted(clocks, window, from);
    } else {
      AdmitsByWindows(clocks, window, limit, from, 1, 2);
    }
  }

  // ---- From which limit and lag more than twice the limit passes ----

  /** `k` more attempts, all at one clock. */
  function Again(clocks: seq<int>, c: int, k: nat): seq<int> {
    if k == 0 then clocks else Again(clocks, c, k - 1) + [c]
  }

  lemma {:induction false} AgainIs(clocks: seq<int>, c: int, k: nat)
    ensures
      var r := Again(clocks, c, k);
      && |r| == |clocks| + k
      && (forall i :: 0 <= i < |clocks| ==> r[i] == clocks[i])
      && (forall i :: |clocks| <= i < |r| ==> r[i] == c)
  {
    if k > 0 { AgainIs(clocks, c, k - 1); }
  }

  /** The row that stands after these attempts, and how many of the stretch from 0 they let through. */
  predicate Stands(clocks: seq<int>, window: int, limit: nat, row: Row, passed: int) {
    clocks != [] && After(clocks, window) == Some(row) && Admitted(clocks, window, limit, 0) == passed
  }

  lemma {:induction false} LiveCounts(clocks: seq<int>, c: int, window: int, limit: nat, row: Row, passed: int)
    requires Stands(clocks, window, limit, row, passed)
    requires LiveRow(row, window, c) && row.hits < limit && 0 <= c < window
    ensures Stands(clocks + [c], window, limit, Row(row.start, row.hits + 1), passed + 1)
  {
    assert (clocks + [c])[..|clocks|] == clocks;
  }

  /** An attempt that begins a window. */
  lemma {:induction false} BeginCounts(clocks: seq<int>, c: int, window: int, limit: nat, row: Row, passed: int)
    requires limit > 0 && Stands(clocks, window, limit, row, passed) && !LiveRow(row, window, c)
    ensures Stands(clocks + [c], window, limit, Row(c, 1), passed + if 0 <= c < window then 1 else 0)
  {
    assert (clocks + [c])[..|clocks|] == clocks;
  }

  /** Attempts at one clock in a live window, up to its limit, all pass. */
  lemma {:induction false} RepeatCounts(clocks: seq<int>, c: int, k: nat, window: int, limit: nat, row: Row,
                                        passed: int)
    requires Stands(clocks, window, limit, row, passed)
    requires LiveRow(row, window, c) && row.hits + k <= limit && 0 <= c < window
    ensures Stands(Again(clocks, c, k), window, limit, Row(row.start, row.hits + k), passed + k)
  {
    if k > 0 {
      RepeatCounts(clocks, c, k - 1, window, limit, row, passed);
      LiveCounts(Again(clocks, c, k - 1), c, window, limit, Row(row.start, row.hits + k - 1), passed + k - 1);
    }
  }

  /** A window begun before the stretch and filled in it. */
  function FirstFilled(window: int, limit: nat): seq<int>
    requires limit > 0
  {
    Again([1 - window], 0, limit - 1)
  }

  /** And the next one, begun and filled in it. */
  function InOrder(window: int, limit: nat): seq<int>
    requires limit > 0
  {
    Again(FirstFilled(window, limit) + [1], 1, limit - 1)
  }

  /** And one begun past the stretch, which two microseconds of lag let late attempts of the stretch into. */
  function Squeezed(window: int, limit: nat): seq<int>
    requires limit > 0
  {
    Again(InOrder(window, limit) + [window + 1], window - 1, limit - 1)
  }

  lemma {:induction false} FirstAttempt(c: int, window: int, limit: nat)
    requires c < 0
    ensures Stands([c], window, limit, Row(c, 1), 0)
  {
    var a := [c];
    assert a[..|a| - 1] == [] && After([], window) == None;
    assert After(a, window) == Some(Row(c, 1));
  }

  lemma {:induction false} FirstCounts(window: int, limit: nat)
    requires window >= 3 && limit > 0
    ensures Stands(FirstFilled(window, limit), window, limit, Row(1 - window, limit), limit - 1)
  {
    FirstAttempt(1 - window, window, limit);
    RepeatCounts([1 - window], 0, limit - 1, window, limit, Row(1 - window, 1), 0);
  }

  /** The bound for clocks in order is reached. */
  lemma {:induction false} InOrderReachesIt(window: int, limit: nat)
    requires window >= 3 && limit > 0
    ensures Stands(InOrder(window, limit), window, limit, Row(1, limit), 2 * limit - 1)
  {
    var a := FirstFilled(window, limit);
    FirstCounts(window, limit);
    BeginCounts(a, 1, window, limit, Row(1 - window, limit), limit - 1);
    RepeatCounts(a + [1], 1, limit - 1, window, limit, Row(1, 1), limit);
  }

  /** Two microseconds out of order, more passes. */
  lemma {:induction false} SqueezedReaches(window: int, limit: nat)
    requires window >= 3 && limit > 0
    ensures Stands(Squeezed(window, limit), window, limit, Row(window + 1, limit), 3 * limit - 2)
  {
    var b := InOrder(window, limit);
    InOrderReachesIt(window, limit);
    BeginCounts(b, window + 1, window, limit, Row(1, limit), 2 * limit - 1);
    RepeatCounts(b + [window + 1], window - 1, limit - 1, window, limit, Row(window + 1, 1), 2 * limit - 1);
  }

  predicate AtMost(clocks: seq<int>, c: int) {
    forall i :: 0 <= i < |clocks| ==> clocks[i] <= c
  }

  /** More attempts at a clock that lags at most `lag` behind all before it. */
  lemma {:induction false} AgainLags(clocks: seq<int>, c: int, k: nat, lag: nat, top: int)
    requires Behind(clocks, lag) && AtMost(clocks, top) && top - lag <= c <= top
    ensures Behind(Again(clocks, c, k), lag) && AtMost(Again(clocks, c, k), top)
  {
    AgainIs(clocks, c, k);
  }

  lemma {:induction false} OneMoreLags(clocks: seq<int>, c: int, lag: nat, top: int)
    requires Behind(clocks, lag) && AtMost(clocks, top) && top <= c
    ensures Behind(clocks + [c], lag) && AtMost(clocks + [c], c)
  {
  }

  lemma {:induction false} InOrderIsInOrder(window: int, limit: nat)
    requires window >= 3 && limit > 0
    ensures Behind(InOrder(window, limit), 0) && AtMost(InOrder(window, limit), 1)
  {
    var k := limit - 1;
    OneMoreLags([1 - window], 0, 0, 1 - window);
    if k > 0 { AgainIs([1 - window], 0, k); }
    assert Behind(FirstFilled(window, limit), 0) && AtMost(FirstFilled(window, limit), 0);
    OneMoreLags(FirstFilled(window, limit), 1, 0, 0);
    AgainLags(FirstFilled(window, limit) + [1], 1, k, 0, 1);
  }

  lemma {:induction false} SqueezedLags(window: int, limit: nat)
    requires window >= 3 && limit > 0
    ensures Behind(Squeezed(window, limit), 2)
  {
    InOrderIsInOrder(window, limit);
    var b := InOrder(window, limit);
    OneMoreLags(b, window + 1, 2, 1);
    AgainLags(b + [window + 1], window - 1, limit - 1, 2, window + 1);
  }

  /** No run of attempts lets more than twice the limit through in a stretch one window long. */
  ghost predicate HoldsTwice(window: int, limit: nat, lag: nat) {
    forall clocks: seq<int>, from: int :: Behind(clocks, lag) ==> Admitted(clocks, window, limit, from) <= 2 * limit
  }

  /**
   For clocks out of the lock's order by less than a window, twice the limit holds for every run of
   attempts exactly when the limit is at most two, or they are out by no more than a microsecond.
   */
  lemma {:induction false} TwiceTheLimitExactly(window: int, limit: nat, lag: nat)
    requires 3 <= window && lag <= window
    ensures HoldsTwice(window, limit, lag) <==> limit <= 2 || lag <= 1
  {
    if lag <= 1 {
      forall clocks: seq<int>, from: int | Behind(clocks, lag)
        ensures Admitted(clocks, window, limit, from) <= 2 * limit
      {
        UnderTwiceTheLimit(clocks, window, limit, from);
      }
    } else if limit <= 2 {
      forall clocks: seq<int>, from: int | Behind(clocks, lag)
        ensures Admitted(clocks, window, limit, from) <= 2 * limit
      {
        if limit == 0 {
          NoneAdmitted(clocks, window, from);
        } else {
          AdmitsByWindows(clocks, window, limit, from, lag, 3);
        }
      }
    } else {
      SqueezedReaches(window, limit);
      SqueezedLags(window, limit);
      assert Behind(Squeezed(window, limit), lag);
    }
  }

  /** An ordinary limit, five attempts a minute, with clocks two microseconds out of order. */
  lemma {:induction false} LateClocksAdmitMore()
    ensures Admitted(Squeezed(MINUTE, 5), MINUTE, 5, 0) == 13 && Behind(Squeezed(MINUTE, 5), 2)
  {
    SqueezedReaches(MINUTE, 5);
    SqueezedLags(MINUTE, 5);
  }

  // ---- A key's row is the row of its own attempts ----

  /** The clocks of the attempts on one key. */
  function ClocksOf(ops: seq<Op>, key: nat): seq<int> {
    if ops == [] then []
    else
      var op := ops[|ops| - 1];
      ClocksOf(ops[..|ops| - 1], key) + if op.Hit? && key in op.keys then [op.now] else []
  }

  /** Nothing is given back on this key, and every attempt on it uses one window. */
  predicate OneWindow(ops: seq<Op>, key: nat, window: int) {
    forall k :: 0 <= k < |ops| ==>
      && (ops[k].Refund? ==> key !in ops[k].keys)
      && (ops[k].Hit? && key in ops[k].keys ==> ops[k].window == window)
  }

  lemma {:induction false} KeyFollowsItsAttempts(ops: seq<Op>, key: nat, window: int)
    requires OneWindow(ops, key, window)
    ensures (if key in Keeping(ops) then Some(Keeping(ops)[key]) else None) == After(ClocksOf(ops, key), window)
  {
    if ops != [] {
      var init, op := ops[..|ops| - 1], ops[|ops| - 1];
      KeyFollowsItsAttempts(init, key, window);
      if op.Hit? && key in op.keys {
        var clocks := ClocksOf(init, key);
        assert (clocks + [op.now])[..|clocks|] == clocks;
      } else {
        assert ClocksOf(ops, key) == ClocksOf(init, key);
      }
    }
  }

  /** How many attempts on a key the program lets through in [from, from + window), purges and all. */
  function LetThrough(ops: seq<Op>, key: nat, window: int, limit: nat, from: int): nat {
    if ops == [] then 0
    else
      var init, op := ops[..|ops| - 1], ops[|ops| - 1];
      LetThrough(init, key, window, limit, from)
      + if op.Hit? && key in op.keys && from <= op.now < from + window && Answer(Purging(init), op, key) <= limit
        then 1 else 0
  }

  lemma {:induction false} LetThroughIsAdmitted(ops: seq<Op>, key: nat, window: int, limit: nat, from: int)
    requires Orderly(ops, LONGEST_LAG) && OneWindow(ops, key, window)
    ensures LetThrough(ops, key, window, limit, from) == Admitted(ClocksOf(ops, key), window, limit, from)
  {
    if ops != [] {
      var init, op := ops[..|ops| - 1], ops[|ops| - 1];
      OrderlyPrefix(ops, LONGEST_LAG);
      assert ops == init + [op];
      LetThroughIsAdmitted(init, key, window, limit, from);
      KeyFollowsItsAttempts(init, key, window);
      var clocks := ClocksOf(init, key);
      if op.Hit? && key in op.keys {
        assert (clocks + [op.now])[..|clocks|] == clocks;
        PurgingRefinesKeeping(init, op, key, LONGEST_LAG);
      } else {
        assert ClocksOf(ops, key) == clocks;
      }
    }
  }

  /** The limiter as it runs, purges included: in any stretch one window long less than twice the limit
   passes, when no attempt on the key is given back and its clocks come in order. */
  lemma {:induction false} UnderTwiceTheLimitPasses(ops: seq<Op>, key: nat, window: int, limit: nat, from: int)
    requires Orderly(ops, LONGEST_LAG) && OneWindow(ops, key, window) && window > 0
    requires Behind(ClocksOf(ops, key), 1)
    ensures LetThrough(ops, key, window, limit, from) <= Max(2 * limit - 1, 0)
  {
    LetThroughIsAdmitted(ops, key, window, limit, from);
    UnderTwiceTheLimit(ClocksOf(ops, key), window, limit, from);
  }

  // ---- Calls in flight ----

  const MAX_IN_FLIGHT := 2
  const MAX_IN_FLIGHT_PER_48 := 8

  // The two buckets of a call, under names of their own.
  datatype Bucket = Address(address: nat) | Network(network: nat)

  function Cap(b: Bucket): nat {
    if b.Address? then MAX_IN_FLIGHT else MAX_IN_FLIGHT_PER_48
  }

  datatype Host = Host(address: nat, network: nat)

  predicate Uses(h: Host, b: Bucket) {
    if b.Address? then h.address == b.address else h.network == b.network
  }

  /** The calls that hold a slot of this bucket. */
  function HoldersOf(open: map<nat, Host>, b: Bucket): set<nat> {
    set c | c in open && Uses(open[c], b)
  }

  /** The counters hold, for every bucket, how many calls use it, and no entry otherwise. */
  ghost predicate Counts(inFlight: map<Bucket, nat>, open: map<nat, Host>) {
    forall b: Bucket ::
      (if b in inFlight then inFlight[b] else 0) == |HoldersOf(open, b)| && (b in inFlight ==> inFlight[b] > 0)
  }

  lemma {:induction false} Joins(open: map<nat, Host>, call: nat, host: Host, b: Bucket)
    requires call !in open
    ensures |HoldersOf(open[call := host], b)| == |HoldersOf(open, b)| + if Uses(host, b) then 1 else 0
  {
    var after := HoldersOf(open[call := host], b);
    assert after == HoldersOf(open, b) + if Uses(host, b) then {call} else {};
  }

  lemma {:induction false} GivesBack(open: map<nat, Host>, call: nat, b: Bucket)
    requires call in open
    ensures |HoldersOf(open - {call}, b)| == |HoldersOf(open, b)| - if Uses(open[call], b) then 1 else 0
  {
    var after := HoldersOf(open - {call}, b);
    assert after == HoldersOf(open, b) - if Uses(open[call], b) then {call} else {};
  }

  /** One call fewer; an entry that reaches zero goes. */
  function Dropped(inFlight: map<Bucket, nat>, b: Bucket): (r: map<Bucket, nat>)
    requires b in inFlight && inFlight[b] > 0
    ensures forall c: Bucket :: c in r <==> c in inFlight && (c == b ==> inFlight[b] > 1)
    ensures forall c: Bucket :: c in r ==> r[c] == if c == b then inFlight[b] - 1 else inFlight[c]
  {
    if inFlight[b] == 1 then inFlight - {b} else inFlight[b := inFlight[b] - 1]
  }

  class Gate {
    var inFlight: map<Bucket, nat>
    ghost var open: map<nat, Host>

    ghost predicate Valid()
      reads this
    {
      Counts(inFlight, open) && forall b: Bucket :: |HoldersOf(open, b)| <= Cap(b)
    }

    /** Both the address and its network have a slot to spare. */
    ghost predicate HasRoom(host: Host)
      reads this
    {
      && |HoldersOf(open, Address(host.address))| < MAX_IN_FLIGHT
      && |HoldersOf(open, Network(host.network))| < MAX_IN_FLIGHT_PER_48
    }

    constructor ()
      ensures Valid() && open == map[]
    {
      inFlight, open := map[], map[];
      new;
      assert forall b: Bucket :: HoldersOf(open, b) == {};
    }

    /** Take a slot of the address and of its network, or none when either is full. */
    method Enter(ghost call: nat, host: Host) returns (entered: bool)
      requires Valid() && call !in open
      modifies this
      ensures Valid()
      ensures entered <==> old(HasRoom(host))
      ensures entered <==> forall b: Bucket :: |HoldersOf(old(open)[call := host], b)| <= Cap(b)
      ensures open == if entered then old(open)[call := host] else old(open)
    {
      var a, n := Address(host.address), Network(host.network);
      var onA := if a in inFlight then inFlight[a] else 0;
      var onN := if n in inFlight then inFlight[n] else 0;
      entered := onA < MAX_IN_FLIGHT && onN < MAX_IN_FLIGHT_PER_48;
      forall b: Bucket
        ensures |HoldersOf(open[call := host], b)| == |HoldersOf(open, b)| + if Uses(host, b) then 1 else 0
      {
        Joins(open, call, host, b);
      }
      assert Uses(host, a) && Uses(host, n);
      if entered {
        inFlight := inFlight[a := onA + 1][n := onN + 1];
        open := open[call := host];
      }
    }

    /** Give both slots back. */
    method Leave(ghost call: nat, host: Host)
      requires Valid() && call in open && open[call] == host
      modifies this
      ensures Valid() && open == old(open) - {call}
    {
      var a, n := Address(host.address), Network(host.network);
      forall b: Bucket
        ensures |HoldersOf(open - {call}, b)| == |HoldersOf(open, b)| - if Uses(host, b) then 1 else 0
        ensures Uses(host, b) ==> |HoldersOf(open, b)| >= 1
      {
        GivesBack(open, call, b);
      }
      assert Uses(host, a) && Uses(host, n);
      inFlight := Dropped(inFlight, a);
      inFlight := Dropped(inFlight, n);
      open := open - {call};
    }
  }

  // ---- The table as the program holds it ----

  const PURGED_AT_ONCE := 100

  /** What PURGE may delete: old rows nobody has locked, all of them or a hundred. */
  predicate IsPurge(rows: Rows, locked: set<nat>, now: int, gone: set<nat>) {
    var due := set key | key in rows && Old(rows[key], now) && key !in locked;
    gone <= due && |gone| <= PURGED_AT_ONCE && (|gone| < PURGED_AT_ONCE ==> gone == due)
  }

  datatype HitAnswer = TooLong | AtCap | Counted(over: bool)

  /** Some key is past its limit once this attempt is counted. */
  predicate OverSome(rows: Rows, limits: map<nat, nat>, window: int, now: int) {
    exists key :: key in limits && Answer(rows, Hit(limits.Keys, window, now), key) > limits[key]
  }

  /** An attempt is over the limit exactly when some key had all its limit allows before it. */
  lemma {:induction false} OverExactly(rows: Rows, limits: map<nat, nat>, window: int, now: int)
    requires window > 0
    ensures
      OverSome(rows, limits, window, now)
      <==> exists key :: key in limits && HitsAt(rows, key, window, now) >= limits[key]
  {
    forall key | key in limits
      ensures Answer(rows, Hit(limits.Keys, window, now), key) == HitsAt(rows, key, window, now) + 1
    {
      AHitCountsOne(rows, limits.Keys, window, now, key);
    }
  }

  class Limiter {
    var rows: Rows

    constructor ()
      ensures rows == map[]
    {
      rows := map[];
    }

    /** Counts one attempt on each key, then purges. None when the window is longer than any may be. */
    method Charge(keys: set<nat>, window: int, locked: set<nat>, now: int)
      returns (counted: Option<map<nat, nat>>, gone: set<nat>)
      modifies this
      ensures counted.None? <==> window > MAX_WINDOW
      ensures counted.None? ==> rows == old(rows)
      ensures counted.Some? ==>
                && counted.value.Keys == keys
                && (forall key :: key in keys ==>
                      counted.value[key] == Answer(old(rows), Op.Hit(keys, window, now), key))
                && IsPurge(Apply(old(rows), Op.Hit(keys, window, now)), locked, now, gone)
                && rows == Apply(Apply(old(rows), Op.Hit(keys, window, now)), Purge(gone, now))
    {
      gone := {};
      if window > MAX_WINDOW {
        return None, gone;
      }
      var told := Bump(keys, window, now);
      gone := PurgeSome(locked, now);
      counted := Some(told);
    }

    method PurgeSome(locked: set<nat>, now: int) returns (gone: set<nat>)
      modifies this`rows
      ensures IsPurge(old(rows), locked, now, gone)
      ensures rows == Apply(old(rows), Purge(gone, now))
    {
      var due := set key | key in rows && Old(rows[key], now) && key !in locked;
      var left := due;
      gone := {};
      while left != {} && |gone| < PURGED_AT_ONCE
        invariant left + gone == due && left !! gone && |gone| <= PURGED_AT_ONCE
        decreases left
      {
        var key :| key in left;
        gone, left := gone + {key}, left - {key};
      }
      rows := map key | key in rows && !(key in gone && Old(rows[key], now)) :: rows[key];
    }

    /** HIT on each key of the set, and nothing else: what each now has. */
    method Bump(keys: set<nat>, window: int, now: int) returns (told: map<nat, nat>)
      modifies this`rows
      ensures told.Keys == keys
      ensures forall key :: key in keys ==> told[key] == Answer(old(rows), Op.Hit(keys, window, now), key)
      ensures rows == Apply(old(rows), Op.Hit(keys, window, now))
    {
      var left := keys;
      told := map[];
      ghost var hit := Op.Hit(keys, window, now);
      while left != {}
        invariant left <= keys && told.Keys == keys - left
        invariant forall key :: key in told ==> told[key] == Answer(old(rows), hit, key)
        invariant rows.Keys == old(rows).Keys + (keys - left)
        invariant forall key :: key in rows ==>
                    rows[key] == if key in keys - left then Bumped(old(rows), key, window, now) else old(rows)[key]
        decreases left
      {
        var key :| key in left;
        var row := Bumped(rows, key, window, now);
        rows, told, left := rows[key := row], told[key := row.hits], left - {key};
      }
      assert rows == Apply(old(rows), hit);
    }

    /**
     Counts one attempt on each key and says whether that puts one of them past its limit. In a caller's own
     session it only counts: no slot, no purge. Else a request's client first takes a slot in flight, and
     is refused with nothing counted when there is none; a worker has no client.
     */
    method Hit(limits: map<nat, nat>, window: int, locked: set<nat>, now: int, session: bool,
               client: Option<Host>, gate: Gate, ghost call: nat)
      returns (answer: HitAnswer, gone: set<nat>)
      requires gate.Valid() && call !in gate.open
      modifies this`rows, gate
      ensures gate.Valid() && gate.open == old(gate.open)
      ensures answer.TooLong? <==> window > MAX_WINDOW
      ensures answer.AtCap? <==>
                window <= MAX_WINDOW && !session && client.Some? && old(!gate.HasRoom(client.value))
      ensures !answer.Counted? ==> rows == old(rows)
      ensures answer.Counted? ==>
                && (answer.over <==> OverSome(old(rows), limits, window, now))
                && var hit := Apply(old(rows), Op.Hit(limits.Keys, window, now));
                   if session then rows == hit
                   else IsPurge(hit, locked, now, gone) && rows == Apply(hit, Purge(gone, now))
    {
      gone := {};
      if window > MAX_WINDOW {
        return TooLong, gone;
      }
      var told;
      if session {
        told := Bump(limits.Keys, window, now);
      } else {
        if client.Some? {
          var entered := gate.Enter(call, client.value);
          if !entered {
            return AtCap, gone;
          }
        }
        told := Bump(limits.Keys, window, now);
        gone := PurgeSome(locked, now);
        if client.Some? {
          gate.Leave(call, client.value);
        }
      }
      answer := Counted(exists key :: key in told && told[key] > limits[key]);
    }

    /** Takes one hit off each key that has one in a window still running. */
    method Refund(keys: set<nat>, window: int, now: int) returns (done: bool)
      modifies this
      ensures done <==> window <= MAX_WINDOW
      ensures rows == if done then Apply(old(rows), Op.Refund(keys, window, now)) else old(rows)
    {
      if window > MAX_WINDOW {
        return false;
      }
      var left := keys;
      while left != {}
        invariant left <= keys && rows.Keys == old(rows).Keys
        invariant forall key :: key in rows ==>
                    rows[key] == if key in left then old(rows)[key]
                                 else Apply(old(rows), Op.Refund(keys, window, now))[key]
        decreases left
      {
        var key :| key in left;
        if key in rows && rows[key].hits > 0 && LiveRow(rows[key], window, now) {
          rows := rows[key := rows[key].(hits := rows[key].hits - 1)];
        }
        left := left - {key};
      }
      assert rows == Apply(old(rows), Op.Refund(keys, window, now));
      return true;
    }

    method CountOf(key: nat, window: int, now: int) returns (hits: Option<nat>)
      ensures hits == if window > MAX_WINDOW then None else Some(Answer(rows, Op.Count({key}, window, now), key))
    {
      if window > MAX_WINDOW {
        return None;
      }
      hits := Some(if key in rows && LiveRow(rows[key], window, now) then rows[key].hits else 0);
    }
  }
}
