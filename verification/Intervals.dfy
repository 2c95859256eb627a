/** Half-open intervals: joining overlapping or touching ones, and asking whether a stretch is free. */
module Intervals {
  import opened Prelude
  import Sorting

  datatype Interval = Interval(start: int, end: int)

  predicate Proper(s: seq<Interval>) {
    forall i :: 0 <= i < |s| ==> s[i].start <= s[i].end
  }

  predicate NonEmpty(s: seq<Interval>) {
    forall i :: 0 <= i < |s| ==> s[i].start < s[i].end
  }

  predicate Has(i: Interval, p: int) {
    i.start <= p < i.end
  }

  predicate Hits(i: Interval, start: int, end: int) {
    i.start < end && start < i.end
  }

  predicate Covers(s: seq<Interval>, p: int) {
    exists i :: 0 <= i < |s| && Has(s[i], p)
  }

  /** Some interval meets [start, end). */
  predicate Meets(s: seq<Interval>, start: int, end: int) {
    exists i :: 0 <= i < |s| && Hits(s[i], start, end)
  }

  /** In order, with a gap between any two. */
  predicate Separated(s: seq<Interval>) {
    && Proper(s)
    && (forall i, j :: 0 <= i < j < |s| ==> s[i].end < s[j].start)
  }

  predicate Leq(a: Interval, b: Interval) {
    a.start < b.start || (a.start == b.start && a.end <= b.end)
  }

  function Ordered(s: seq<Interval>): seq<Interval> {
    Sorting.Sorted(s, Leq)
  }

  lemma {:induction false} OrderedHas(s: seq<Interval>)
    ensures forall x :: x in s <==> x in Ordered(s)
    ensures forall i, j :: 0 <= i < j < |Ordered(s)| ==> Ordered(s)[i].start <= Ordered(s)[j].start
  {
    Sorting.SortedIsOrdered(s, Leq);
    Sorting.SameElements(s, Ordered(s));
  }

  lemma {:induction false} SameReach(s: seq<Interval>, t: seq<Interval>)
    requires forall x :: x in s <==> x in t
    ensures Proper(s) ==> Proper(t)
    ensures forall p :: Covers(s, p) <==> Covers(t, p)
    ensures forall a, b :: Meets(s, a, b) <==> Meets(t, a, b)
  {
    assert Proper(s) ==> Proper(t) by {
      forall i | 0 <= i < |t| && Proper(s) ensures t[i].start <= t[i].end { assert t[i] in s; }
    }
    forall p ensures Covers(s, p) <==> Covers(t, p) {
      if i :| 0 <= i < |s| && Has(s[i], p) { assert s[i] in t; }
      if i :| 0 <= i < |t| && Has(t[i], p) { assert t[i] in s; }
    }
    forall a, b ensures Meets(s, a, b) <==> Meets(t, a, b) {
      if i :| 0 <= i < |s| && Hits(s[i], a, b) { assert s[i] in t; }
      if i :| 0 <= i < |t| && Hits(t[i], a, b) { assert t[i] in s; }
    }
  }

  /** `out` joins what `s` holds: the same points, and the same stretches met. */
  ghost predicate Joins(out: seq<Interval>, s: seq<Interval>) {
    && (forall p :: Covers(out, p) <==> Covers(s, p))
    && (forall a, b :: a < b ==> (Meets(out, a, b) <==> Meets(s, a, b)))
  }

  lemma {:induction false} Snoc(s: seq<Interval>, x: Interval)
    ensures forall p :: Covers(s + [x], p) <==> Covers(s, p) || Has(x, p)
    ensures forall a, b :: Meets(s + [x], a, b) <==> Meets(s, a, b) || Hits(x, a, b)
  {
    var t := s + [x];
    assert t[|s|] == x;
    forall p ensures Covers(t, p) <==> Covers(s, p) || Has(x, p) {
      if i :| 0 <= i < |s| && Has(s[i], p) { assert t[i] == s[i]; }
    }
    forall a, b ensures Meets(t, a, b) <==> Meets(s, a, b) || Hits(x, a, b) {
      if i :| 0 <= i < |s| && Hits(s[i], a, b) { assert t[i] == s[i]; }
    }
  }

  lemma {:induction false} AppendJoins(out: seq<Interval>, s: seq<Interval>, x: Interval)
    requires Joins(out, s)
    ensures Joins(out + [x], s + [x])
  {
    Snoc(out, x);
    Snoc(s, x);
  }

  /** Rewriting the last interval to reach the end of one that overlaps or touches it. */
  lemma {:induction false} StretchJoins(init: seq<Interval>, l: Interval, s: seq<Interval>, x: Interval)
    requires Joins(init + [l], s) && l.start <= x.start <= l.end && x.start <= x.end
    ensures Joins(init + [Interval(l.start, Max(l.end, x.end))], s + [x])
  {
    var m := Interval(l.start, Max(l.end, x.end));
    Snoc(init, l);
    Snoc(init, m);
    Snoc(s, x);
    assert forall p :: Has(m, p) <==> Has(l, p) || Has(x, p);
    assert forall a, b :: a < b ==> (Hits(m, a, b) <==> Hits(l, a, b) || Hits(x, a, b));
  }

  lemma {:induction false} JoinsAll(out: seq<Interval>, s: seq<Interval>, intervals: seq<Interval>)
    requires Joins(out, s) && forall x :: x in intervals <==> x in s
    ensures Joins(out, intervals)
  {
    SameReach(intervals, s);
  }

  lemma {:induction false} AppendSeparates(out: seq<Interval>, x: Interval)
    requires Separated(out) && x.start <= x.end
    requires out != [] ==> out[|out| - 1].end < x.start
    ensures Separated(out + [x])
  {
  }

  lemma {:induction false} StretchSeparates(out: seq<Interval>, end: int)
    requires Separated(out) && out != [] && out[|out| - 1].end <= end
    ensures Separated(out[..|out| - 1] + [Interval(out[|out| - 1].start, end)])
  {
  }

  /** Walks the intervals in order, stretching the last one kept over whatever it reaches. */
  method Merged(intervals: seq<Interval>) returns (out: seq<Interval>)
    requires Proper(intervals)
    ensures Separated(out)
    ensures forall p :: Covers(out, p) <==> Covers(intervals, p)
    ensures forall a, b :: a < b ==> (Meets(out, a, b) <==> Meets(intervals, a, b))
  {
    var s := Ordered(intervals);
    OrderedHas(intervals);
    SameReach(intervals, s);
    out := [];
    for i := 0 to |s|
      invariant Separated(out) && Joins(out, s[..i])
      invariant out != [] ==> i > 0 && out[|out| - 1].start <= s[i - 1].start
    {
      var x := s[i];
      assert s[..i + 1] == s[..i] + [x];
      if out != [] && x.start <= out[|out| - 1].end {
        var n := |out| - 1;
        assert out == out[..n] + [out[n]];
        StretchJoins(out[..n], out[n], s[..i], x);
        StretchSeparates(out, Max(out[n].end, x.end));
        out := out[..n] + [Interval(out[n].start, Max(out[n].end, x.end))];
      } else {
        AppendJoins(out, s[..i], x);
        AppendSeparates(out, x);
        out := out + [x];
      }
    }
    assert s[..|s|] == s;
    JoinsAll(out, s, intervals);
  }

  /** Where a value would go after every end that is not past it. */
  method BisectRight(blocks: seq<Interval>, x: int) returns (i: nat)
    requires forall j, k :: 0 <= j < k < |blocks| ==> blocks[j].end <= blocks[k].end
    ensures i <= |blocks|
    ensures forall k :: 0 <= k < i ==> blocks[k].end <= x
    ensures forall k :: i <= k < |blocks| ==> x < blocks[k].end
  {
    var lo, hi := 0, |blocks|;
    while lo < hi
      invariant 0 <= lo <= hi <= |blocks|
      invariant forall k :: 0 <= k < lo ==> blocks[k].end <= x
      invariant forall k :: hi <= k < |blocks| ==> x < blocks[k].end
    {
      var mid := (lo + hi) / 2;
      if x < blocks[mid].end {
        hi := mid;
      } else {
        lo := mid + 1;
      }
    }
    i := lo;
  }

  /** Looks at one block only: the first that ends past `start`. */
  method Overlaps(blocks: seq<Interval>, start: int, end: int) returns (r: bool)
    requires Separated(blocks)
    ensures r <==> Meets(blocks, start, end)
  {
    var i := BisectRight(blocks, start);
    r := i < |blocks| && blocks[i].start < end;
    if r { assert Hits(blocks[i], start, end); }
  }

  // ---- A separated list is determined by the points it covers ----

  /** [a, b) is a longest run of points that `s` covers. */
  ghost predicate Run(s: seq<Interval>, a: int, b: int) {
    && a < b && !Covers(s, a - 1) && !Covers(s, b)
    && forall p :: a <= p < b ==> Covers(s, p)
  }

  lemma {:induction false} EndIsFree(s: seq<Interval>, i: nat)
    requires Separated(s) && i < |s|
    ensures !Covers(s, s[i].end)
  {
    forall j | 0 <= j < |s| ensures !Has(s[j], s[i].end) {
    }
  }

  /** The members are the longest runs, and nothing else is. */
  lemma {:induction false} MembersAreRuns(s: seq<Interval>, a: int, b: int)
    requires Separated(s) && NonEmpty(s)
    ensures Interval(a, b) in s <==> Run(s, a, b)
  {
    if Interval(a, b) in s {
      var i :| 0 <= i < |s| && s[i] == Interval(a, b);
      forall p | a <= p < b ensures Covers(s, p) { assert Has(s[i], p); }
      if j :| 0 <= j < |s| && Has(s[j], b) { assert false; }
      if j :| 0 <= j < |s| && Has(s[j], a - 1) { assert false; }
    }
    if Run(s, a, b) {
      assert Covers(s, a);
      var i :| 0 <= i < |s| && Has(s[i], a);
      EndIsFree(s, i);
      assert !Has(s[i], b) && !Has(s[i], a - 1);
      assert s[i] == Interval(a, b);
    }
  }

  lemma {:induction false} TailMembers(s: seq<Interval>, x: Interval)
    requires Separated(s) && NonEmpty(s) && s != []
    ensures x in s[1..] <==> x in s && x != s[0]
  {
    assert s == [s[0]] + s[1..];
    if x in s[1..] {
      var k :| 1 <= k < |s| && s[k] == x;
    }
  }

  lemma {:induction false} SameMembers(s: seq<Interval>, t: seq<Interval>)
    requires Separated(s) && Separated(t) && NonEmpty(s) && NonEmpty(t)
    requires forall x :: x in s <==> x in t
    ensures s == t
  {
    assert (s == [] || s[0] in s) && (t == [] || t[0] in t);
    if s != [] {
      assert s[0] == t[0];
      forall x ensures x in s[1..] <==> x in t[1..] {
        TailMembers(s, x);
        TailMembers(t, x);
      }
      SameMembers(s[1..], t[1..]);
      assert s == [s[0]] + s[1..] && t == [t[0]] + t[1..];
    }
  }

  /** Only one separated list of nonempty intervals covers a given set of points. */
  lemma {:induction false} CoverDetermines(s: seq<Interval>, t: seq<Interval>)
    requires Separated(s) && Separated(t) && NonEmpty(s) && NonEmpty(t)
    requires forall p :: Covers(s, p) <==> Covers(t, p)
    ensures s == t
  {
    forall x ensures x in s <==> x in t {
      MembersAreRuns(s, x.start, x.end);
      MembersAreRuns(t, x.start, x.end);
      assert x == Interval(x.start, x.end);
    }
    SameMembers(s, t);
  }
}
