/**
 A time zone as a finite table of offset changes, the `fold=0` reading of a wall time that PEP 495
 defines, and the walk that turns a business's local time into an instant.
 */
module Zone {
  import opened Prelude

  datatype Change = Change(at: int, offset: int)
  datatype Zone = Zone(base: int, changes: seq<Change>)

  /** The offset once the first `k` changes have happened. */
  function Offset(z: Zone, k: nat): int
    requires k <= |z.changes|
  {
    if k == 0 then z.base else z.changes[k - 1].offset
  }

  /** How many changes have happened at the instant `u`. */
  function Passed(z: Zone, u: int): (k: nat)
    ensures k <= |z.changes|
    ensures k > 0 ==> z.changes[k - 1].at <= u
    ensures forall i :: k <= i < |z.changes| ==> z.changes[i].at > u
  {
    PassedOf(z.changes, u)
  }

  function PassedOf(changes: seq<Change>, u: int): (k: nat)
    ensures k <= |changes|
    ensures k > 0 ==> changes[k - 1].at <= u
    ensures forall i :: k <= i < |changes| ==> changes[i].at > u
  {
    if changes == [] then 0
    else if changes[|changes| - 1].at <= u then |changes|
    else PassedOf(changes[..|changes| - 1], u)
  }

  /** What the business's clock shows at the instant `u`. */
  function Local(z: Zone, u: int): int {
    u + Offset(z, Passed(z, u))
  }

  /** The wall time from which a change counts for fold=0: the first of a repeated hour, and a
   skipped hour, still belong to the offset before it. */
  function Threshold(z: Zone, i: nat): int
    requires i < |z.changes|
  {
    z.changes[i].at + Max(Offset(z, i), Offset(z, i + 1))
  }

  function FoldZero(z: Zone, wall: int, upTo: nat): (k: nat)
    requires upTo <= |z.changes|
    ensures k <= upTo
    ensures k > 0 ==> Threshold(z, k - 1) <= wall
    ensures forall i :: k <= i < upTo ==> Threshold(z, i) > wall
  {
    if upTo == 0 then 0
    else if Threshold(z, upTo - 1) <= wall then upTo
    else FoldZero(z, wall, upTo - 1)
  }

  /** `wall.replace(tzinfo=tz).astimezone(UTC)`. */
  function AsUtc(z: Zone, wall: int): int {
    wall - Offset(z, FoldZero(z, wall, |z.changes|))
  }

  function Abs(x: int): nat {
    if x < 0 then -x else x
  }

  function Shift(z: Zone, i: nat): nat
    requires i < |z.changes|
  {
    Abs(Offset(z, i + 1) - Offset(z, i))
  }

  /** The `i`-th change is over before the next one begins. */
  predicate Apart(z: Zone, i: nat)
    requires i + 1 < |z.changes|
  {
    && z.changes[i].at < z.changes[i + 1].at
    && z.changes[i].at + Shift(z, i) + Shift(z, i + 1) <= z.changes[i + 1].at
  }

  /** Whole-minute offsets and changes, and no change before the clocks have caught up with the one
   before it. */
  predicate Regular(z: Zone) {
    && z.base % MINUTE == 0
    && (forall i :: 0 <= i < |z.changes| ==> z.changes[i].at % MINUTE == 0 && z.changes[i].offset % MINUTE == 0)
    && (forall i {:trigger Apart(z, i)} :: 0 <= i < |z.changes| - 1 ==> Apart(z, i))
  }

  // ---- The least instant at or past a wall time ----

  ghost predicate IsLeast(z: Zone, wall: int, u: int) {
    Local(z, u) >= wall && forall v :: v < u ==> Local(z, v) < wall
  }

  /** The first instant, from the `k`-th stretch of constant offset on, that reads `wall` or later. */
  function LeastFrom(z: Zone, wall: int, k: nat): int
    requires k <= |z.changes|
    decreases |z.changes| - k
  {
    var here := wall - Offset(z, k);
    var u := if k == 0 then here else Max(here, z.changes[k - 1].at);
    if k < |z.changes| && u >= z.changes[k].at then LeastFrom(z, wall, k + 1) else u
  }

  function LeastInstant(z: Zone, wall: int): int {
    LeastFrom(z, wall, 0)
  }

  lemma {:induction false} Ordered(z: Zone, i: nat, j: nat)
    requires Regular(z) && i <= j < |z.changes|
    ensures i < j ==> z.changes[i].at < z.changes[j].at
    ensures Threshold(z, i) <= Threshold(z, j)
    decreases j - i
  {
    if i < j {
      Ordered(z, i, j - 1);
      assert Apart(z, j - 1);
    }
  }

  lemma {:induction false} PassedIs(z: Zone, u: int, k: nat)
    requires Regular(z) && k <= |z.changes|
    requires k > 0 ==> z.changes[k - 1].at <= u
    requires k < |z.changes| ==> u < z.changes[k].at
    ensures Passed(z, u) == k
  {
    var p := Passed(z, u);
    if k + 1 < p { Ordered(z, k, p - 1); }
  }

  /** Up to where the `k`-th stretch reads `wall`, nothing has read it. */
  lemma {:induction false} NotYet(z: Zone, wall: int, k: nat, end: int)
    requires Regular(z) && k <= |z.changes|
    requires k > 0 ==> forall v :: v < z.changes[k - 1].at ==> Local(z, v) < wall
    requires k < |z.changes| ==> end <= z.changes[k].at
    requires end <= wall - Offset(z, k) || (k > 0 && end <= z.changes[k - 1].at)
    ensures forall v :: v < end ==> Local(z, v) < wall
  {
    forall v | v < end ensures Local(z, v) < wall {
      if k == 0 || z.changes[k - 1].at <= v {
        PassedIs(z, v, k);
      }
    }
  }

  lemma {:induction false} LeastFromIsLeast(z: Zone, wall: int, k: nat)
    requires Regular(z) && k <= |z.changes|
    requires k > 0 ==> forall v :: v < z.changes[k - 1].at ==> Local(z, v) < wall
    ensures IsLeast(z, wall, LeastFrom(z, wall, k))
    decreases |z.changes| - k
  {
    var here := wall - Offset(z, k);
    var u := if k == 0 then here else Max(here, z.changes[k - 1].at);
    if k < |z.changes| && u >= z.changes[k].at {
      NotYet(z, wall, k, z.changes[k].at);
      LeastFromIsLeast(z, wall, k + 1);
    } else {
      NotYet(z, wall, k, u);
      PassedIs(z, u, k);
    }
  }

  lemma {:induction false} LeastIsUnique(z: Zone, wall: int, u: int)
    requires Regular(z) && IsLeast(z, wall, u)
    ensures u == LeastInstant(z, wall)
  {
    LeastFromIsLeast(z, wall, 0);
  }

  /** A later wall time is never an earlier instant. */
  lemma {:induction false} LeastIsMonotone(z: Zone, a: int, b: int)
    requires Regular(z) && a <= b
    ensures LeastInstant(z, a) <= LeastInstant(z, b)
  {
    LeastFromIsLeast(z, a, 0);
    LeastFromIsLeast(z, b, 0);
  }

  lemma {:induction false} WholeMinutesFrom(z: Zone, wall: int, k: nat)
    requires Regular(z) && k <= |z.changes| && wall % MINUTE == 0
    ensures LeastFrom(z, wall, k) % MINUTE == 0
    decreases |z.changes| - k
  {
    assert Offset(z, k) % MINUTE == 0;
    var here := wall - Offset(z, k);
    var u := if k == 0 then here else Max(here, z.changes[k - 1].at);
    if k < |z.changes| && u >= z.changes[k].at { WholeMinutesFrom(z, wall, k + 1); }
  }

  // ---- The walk ----

  /** The wall time is skipped: the clock jumps from before it past it at the `i`-th change. */
  predicate Skipped(z: Zone, wall: int, i: nat) {
    && i < |z.changes| && FoldZero(z, wall, |z.changes|) == i
    && z.changes[i].at + Offset(z, i) <= wall < z.changes[i].at + Offset(z, i + 1)
  }

  /** Before the change at which fold=0 still reads the old offset, no instant reads `wall` yet. */
  lemma {:induction false} BeforeReadsLess(z: Zone, wall: int, k: nat, u: int)
    requires Regular(z) && k == FoldZero(z, wall, |z.changes|)
    requires u + Offset(z, k) <= wall && (k < |z.changes| ==> u <= z.changes[k].at)
    ensures forall v :: v < u ==> Local(z, v) < wall
  {
    forall v | v < u ensures Local(z, v) < wall {
      var j := Passed(z, v);
      if j < k {
        Ordered(z, j, k - 1);
      } else if j > k {
        Ordered(z, k, j - 1);
      }
    }
  }

  /** A skipped wall time is not read back: the clock first reads it or later as it jumps. */
  lemma {:induction false} SkippedReads(z: Zone, wall: int, k: nat)
    requires Regular(z) && Skipped(z, wall, k)
    ensures Local(z, AsUtc(z, wall)) != wall
    ensures forall w :: wall <= w <= z.changes[k].at + Offset(z, k + 1) ==> IsLeast(z, w, z.changes[k].at)
  {
    var at := z.changes[k].at;
    assert Threshold(z, k) > wall;
    if k + 1 < |z.changes| { assert Apart(z, k); }
    PassedIs(z, at, k + 1);
    BeforeReadsLess(z, wall, k, at);
    PassedIs(z, AsUtc(z, wall), k + 1);
  }

  lemma {:induction false} UnskippedReads(z: Zone, wall: int, k: nat)
    requires Regular(z) && k == FoldZero(z, wall, |z.changes|) && !Skipped(z, wall, k)
    ensures Local(z, AsUtc(z, wall)) == wall && IsLeast(z, wall, AsUtc(z, wall))
  {
    if k < |z.changes| { assert Threshold(z, k) > wall; }
    if k + 1 < |z.changes| { assert Apart(z, k); }
    PassedIs(z, AsUtc(z, wall), k);
    BeforeReadsLess(z, wall, k, AsUtc(z, wall));
  }

  /** A wall time that is not skipped is read back, at its first instant. */
  lemma {:induction false} ReadBack(z: Zone, wall: int)
    requires Regular(z)
    ensures
      var k := FoldZero(z, wall, |z.changes|);
      if Skipped(z, wall, k) then
        && Local(z, AsUtc(z, wall)) != wall
        && IsLeast(z, wall, z.changes[k].at)
        && (forall w :: wall <= w <= z.changes[k].at + Offset(z, k + 1) ==> IsLeast(z, w, z.changes[k].at))
      else Local(z, AsUtc(z, wall)) == wall && IsLeast(z, wall, AsUtc(z, wall))
  {
    var k := FoldZero(z, wall, |z.changes|);
    if Skipped(z, wall, k) { SkippedReads(z, wall, k); } else { UnskippedReads(z, wall, k); }
  }

  lemma {:induction false} SkippedOnce(z: Zone, wall: int, w: int)
    requires Regular(z)
    requires
      var k := FoldZero(z, wall, |z.changes|);
      w == wall || (Skipped(z, wall, k) && wall <= w <= z.changes[k].at + Offset(z, k + 1))
    requires Skipped(z, w, FoldZero(z, w, |z.changes|))
    ensures
      var k := FoldZero(z, wall, |z.changes|);
      Skipped(z, wall, k) && w < z.changes[k].at + Offset(z, k + 1)
  {
    var k := FoldZero(z, wall, |z.changes|);
    if w != wall {
      var j := FoldZero(z, w, |z.changes|);
      assert j <= k ==> Threshold(z, k) > w;
      if k + 1 < |z.changes| { assert Apart(z, k); }
      if j > k + 1 {
        Ordered(z, k + 1, j - 1);
      }
    }
  }

  lemma {:induction false} WholeMinutes(a: int, b: int, w: int)
    requires a % MINUTE == 0 && b % MINUTE == 0 && w % MINUTE == 0 && w < a + b
    ensures w + MINUTE <= a + b && (w + MINUTE) % MINUTE == 0
  {
  }

  predicate OnTheWay(z: Zone, wall: int, w: int) {
    var k := FoldZero(z, wall, |z.changes|);
    && w % MINUTE == 0
    && (w == wall || (Skipped(z, wall, k) && wall <= w <= z.changes[k].at + Offset(z, k + 1)))
  }

  /** One step of the walk over a skipped stretch: still the same least instant. */
  lemma {:induction false} WalkStep(z: Zone, wall: int, w: int)
    requires Regular(z) && OnTheWay(z, wall, w) && Local(z, AsUtc(z, w)) != w
    ensures
      var k := FoldZero(z, wall, |z.changes|);
      && OnTheWay(z, wall, w + MINUTE) && k < |z.changes|
      && w + MINUTE <= z.changes[k].at + Offset(z, k + 1)
      && LeastInstant(z, w + MINUTE) == LeastInstant(z, w)
  {
    var k := FoldZero(z, wall, |z.changes|);
    ReadBack(z, w);
    SkippedOnce(z, wall, w);
    WholeMinutes(z.changes[k].at, Offset(z, k + 1), w);
    ReadBack(z, wall);
    LeastIsUnique(z, w, z.changes[k].at);
    LeastIsUnique(z, w + MINUTE, z.changes[k].at);
  }

  /**
   Walks `wall` forward by minutes until it is a time the clock really shows, then reads it with fold=0.
   */
  method ToUtc(z: Zone, wall: int) returns (u: int)
    requires Regular(z) && wall % MINUTE == 0
    ensures u == LeastInstant(z, wall)
    ensures IsLeast(z, wall, u)
  {
    var w := wall;
    ghost var k := FoldZero(z, wall, |z.changes|);
    while Local(z, AsUtc(z, w)) != w
      invariant OnTheWay(z, wall, w) && LeastInstant(z, w) == LeastInstant(z, wall)
      decreases if k < |z.changes| then z.changes[k].at + Offset(z, k + 1) - w else 0
    {
      WalkStep(z, wall, w);
      w := w + MINUTE;
    }
    u := AsUtc(z, w);
    ReadBack(z, w);
    LeastIsUnique(z, w, u);
    LeastFromIsLeast(z, wall, 0);
  }
}
