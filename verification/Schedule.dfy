/** A member's working week and the business's opening week, in minutes of the local day. */
module Schedule {
  import opened Prelude
  import opened Intervals
  import Sorting

  datatype Row = Row(weekday: int, start: int, end: int)

  predicate RowLeq(a: Row, b: Row) {
    if a.weekday != b.weekday then a.weekday < b.weekday
    else if a.start != b.start then a.start < b.start
    else a.end <= b.end
  }

  function InOrder(rows: seq<Row>): seq<Row> {
    Sorting.Sorted(rows, RowLeq)
  }

  predicate Forward(rows: seq<Row>) {
    forall i :: 0 <= i < |rows| ==> rows[i].start < rows[i].end
  }

  /** The row after the `k`-th one starts, the same day, before that one ends. */
  predicate Bumps(s: seq<Row>, k: nat) {
    k + 1 < |s| && s[k].weekday == s[k + 1].weekday && s[k + 1].start < s[k].end
  }

  /** The program's test for a clash: it looks at neighbours in sorted order only. */
  predicate Overlapping(rows: seq<Row>) {
    var s := InOrder(rows);
    exists k: nat :: k < |s| && Bumps(s, k)
  }

  predicate Share(a: Row, b: Row) {
    a.weekday == b.weekday && a.start < b.end && b.start < a.end
  }

  predicate SomePair(rows: seq<Row>) {
    exists i, j :: 0 <= i < j < |rows| && Share(rows[i], rows[j])
  }

  predicate SharesWith(x: Row, s: seq<Row>) {
    exists k :: 0 <= k < |s| && Share(x, s[k])
  }

  lemma {:induction false} ConsPair(x: Row, s: seq<Row>)
    ensures SomePair([x] + s) <==> SharesWith(x, s) || SomePair(s)
  {
    var t := [x] + s;
    if k :| 0 <= k < |s| && Share(x, s[k]) { assert Share(t[0], t[k + 1]); }
    if i, j :| 0 <= i < j < |s| && Share(s[i], s[j]) { assert Share(t[i + 1], t[j + 1]); }
    if i, j :| 0 <= i < j < |t| && Share(t[i], t[j]) {
      assert t[j] == s[j - 1];
      if i > 0 { assert t[i] == s[i - 1]; }
    }
  }

  lemma {:induction false} SharesWithMembers(x: Row, s: seq<Row>, t: seq<Row>)
    requires multiset(s) == multiset(t)
    ensures SharesWith(x, s) <==> SharesWith(x, t)
  {
    Sorting.SameElements(s, t);
    if k :| 0 <= k < |s| && Share(x, s[k]) { assert s[k] in t; }
    if k :| 0 <= k < |t| && Share(x, t[k]) { assert t[k] in s; }
  }

  lemma {:induction false} SharesWithCons(x: Row, y: Row, s: seq<Row>)
    ensures SharesWith(x, [y] + s) <==> Share(x, y) || SharesWith(x, s)
  {
    var t := [y] + s;
    if k :| 0 <= k < |s| && Share(x, s[k]) { assert Share(x, t[k + 1]); }
    if Share(x, y) { assert Share(x, t[0]); }
    if k :| 0 <= k < |t| && Share(x, t[k]) {
      if k > 0 { assert t[k] == s[k - 1]; }
    }
  }

  lemma {:induction false} InsertPair(x: Row, s: seq<Row>)
    ensures SomePair(Sorting.Insert(x, s, RowLeq)) <==> SomePair([x] + s)
  {
    if s == [] || RowLeq(x, s[0]) {
    } else {
      var rest := s[1..];
      var inserted := Sorting.Insert(x, rest, RowLeq);
      InsertPair(x, rest);
      Sorting.InsertMembers(x, rest, RowLeq);
      SharesWithMembers(s[0], inserted, [x] + rest);
      assert s == [s[0]] + rest;
      ConsPair(s[0], inserted);
      ConsPair(x, rest);
      ConsPair(x, s);
      ConsPair(s[0], rest);
      SharesWithCons(s[0], x, rest);
      SharesWithCons(x, s[0], rest);
    }
  }

  lemma {:induction false} SortedPair(rows: seq<Row>)
    ensures SomePair(InOrder(rows)) <==> SomePair(rows)
  {
    if rows != [] {
      var rest := InOrder(rows[1..]);
      SortedPair(rows[1..]);
      InsertPair(rows[0], rest);
      ConsPair(rows[0], rest);
      ConsPair(rows[0], rows[1..]);
      assert rows == [rows[0]] + rows[1..];
      Sorting.SortedIsOrdered(rows[1..], RowLeq);
      SharesWithMembers(rows[0], rest, rows[1..]);
    }
  }

  lemma {:induction false} InOrderFacts(rows: seq<Row>)
    ensures forall r :: r in rows <==> r in InOrder(rows)
    ensures Sorting.Ordered(InOrder(rows), RowLeq)
    ensures Forward(rows) ==> Forward(InOrder(rows))
  {
    var s := InOrder(rows);
    Sorting.SortedIsOrdered(rows, RowLeq);
    Sorting.SameElements(rows, s);
    forall i | 0 <= i < |s| && Forward(rows) ensures s[i].start < s[i].end {
      assert s[i] in rows;
    }
  }

  /** With no neighbours bumping, no row starts before an earlier one ends. */
  lemma {:induction false} NeighboursDecide(s: seq<Row>, i: nat, j: nat)
    requires Sorting.Ordered(s, RowLeq) && Forward(s) && i < j < |s|
    requires forall k: nat :: k < |s| ==> !Bumps(s, k)
    ensures s[i].weekday == s[j].weekday ==> s[i].end <= s[j].start
  {
    assert !Bumps(s, j - 1);
    if i + 1 < j && s[i].weekday == s[j].weekday {
      assert RowLeq(s[i], s[j - 1]) && RowLeq(s[j - 1], s[j]);
      NeighboursDecide(s, i, j - 1);
    }
  }

  /** The test on neighbours finds an overlap exactly when some two shifts overlap. */
  lemma {:induction false} OverlappingIsSomePair(rows: seq<Row>)
    requires Forward(rows)
    ensures Overlapping(rows) <==> SomePair(rows)
  {
    var s := InOrder(rows);
    SortedPair(rows);
    InOrderFacts(rows);
    if k: nat :| k < |s| && Bumps(s, k) {
      assert RowLeq(s[k], s[k + 1]);
      assert Share(s[k], s[k + 1]);
    } else if i, j :| 0 <= i < j < |s| && Share(s[i], s[j]) {
      NeighboursDecide(s, i, j);
    }
  }

  // ---- One weekday's shifts ----

  function OfDay(rows: seq<Row>, weekday: int): (r: seq<Row>)
    ensures forall x :: x in r <==> x in rows && x.weekday == weekday
  {
    if rows == [] then []
    else if rows[0].weekday == weekday then [rows[0]] + OfDay(rows[1..], weekday)
    else OfDay(rows[1..], weekday)
  }

  lemma {:induction false} OfDayPair(rows: seq<Row>, weekday: int)
    requires SomePair(OfDay(rows, weekday))
    ensures SomePair(rows)
  {
    if rows != [] {
      var rest := OfDay(rows[1..], weekday);
      assert rows == [rows[0]] + rows[1..];
      ConsPair(rows[0], rows[1..]);
      if rows[0].weekday == weekday {
        ConsPair(rows[0], rest);
        if SharesWith(rows[0], rest) {
          var k :| 0 <= k < |rest| && Share(rows[0], rest[k]);
          assert rest[k] in rest && rest[k] in rows[1..];
        } else {
          OfDayPair(rows[1..], weekday);
        }
      } else {
        OfDayPair(rows[1..], weekday);
      }
    }
  }

  /** Minute `m` of this weekday is inside some shift. */
  predicate Works(rows: seq<Row>, weekday: int, m: int) {
    exists i :: 0 <= i < |rows| && rows[i].weekday == weekday && rows[i].start <= m < rows[i].end
  }

  function Span(r: Row): Interval {
    Interval(r.start, r.end)
  }

  lemma {:induction false} WorksMembers(rows: seq<Row>, s: seq<Row>, spans: seq<Interval>, weekday: int)
    requires forall r :: r in s <==> r in rows && r.weekday == weekday
    requires |spans| == |s| && forall i :: 0 <= i < |s| ==> spans[i] == Span(s[i])
    ensures forall m :: Works(rows, weekday, m) <==> Covers(spans, m)
  {
    forall m ensures Works(rows, weekday, m) <==> Covers(spans, m) {
      if i :| 0 <= i < |rows| && rows[i].weekday == weekday && rows[i].start <= m < rows[i].end {
        assert rows[i] in s;
        var k :| 0 <= k < |s| && s[k] == rows[i];
        assert Has(spans[k], m);
      }
      if i :| 0 <= i < |spans| && Has(spans[i], m) {
        assert s[i] in rows;
      }
    }
  }

  lemma {:induction false} DayMembers(rows: seq<Row>, weekday: int)
    ensures forall r :: r in InOrder(OfDay(rows, weekday)) <==> r in rows && r.weekday == weekday
  {
    InOrderFacts(OfDay(rows, weekday));
  }

  lemma {:induction false} DayForward(rows: seq<Row>, weekday: int)
    requires Forward(rows)
    ensures Forward(InOrder(OfDay(rows, weekday)))
  {
    var day := OfDay(rows, weekday);
    forall i | 0 <= i < |day| ensures day[i].start < day[i].end { assert day[i] in day; }
    InOrderFacts(day);
  }

  /** Each row starts at or after the end of the one before it. */
  predicate InTurn(s: seq<Row>) {
    forall k :: 0 < k < |s| ==> s[k - 1].end <= s[k].start
  }

  lemma {:induction false} DayInTurn(rows: seq<Row>, weekday: int)
    requires Forward(rows) && !Overlapping(rows)
    ensures InTurn(InOrder(OfDay(rows, weekday)))
  {
    var day := OfDay(rows, weekday);
    var s := InOrder(day);
    DayForward(rows, weekday);
    forall i | 0 <= i < |day| ensures day[i].start < day[i].end { assert day[i] in day; }
    InOrderFacts(day);
    if SomePair(day) { OfDayPair(rows, weekday); }
    OverlappingIsSomePair(rows);
    OverlappingIsSomePair(day);
    forall k | 0 < k < |s| ensures s[k - 1].end <= s[k].start {
      assert !Bumps(s, k - 1);
      assert s[k - 1] in day && s[k] in day;
    }
  }

  /** `joined` holds the shifts seen so far, whatever order they came in. */
  ghost predicate Joined(joined: seq<Interval>, seen: seq<Interval>) {
    NonEmpty(joined) && forall m :: Covers(joined, m) <==> Covers(seen, m)
  }

  lemma {:induction false} AppendKeeps(joined: seq<Interval>, seen: seq<Interval>, x: Interval)
    requires Joined(joined, seen) && x.start < x.end
    ensures Joined(joined + [x], seen + [x])
  {
    Snoc(joined, x);
    Snoc(seen, x);
  }

  lemma {:induction false} TouchKeeps(init: seq<Interval>, l: Interval, seen: seq<Interval>, x: Interval)
    requires Joined(init + [l], seen) && l.end == x.start && x.start < x.end
    ensures Joined(init + [Interval(l.start, x.end)], seen + [x])
  {
    var m := Interval(l.start, x.end);
    assert (init + [l])[|init|] == l;
    assert forall i :: 0 <= i < |init| ==> (init + [l])[i] == init[i];
    Snoc(init, l);
    Snoc(init, m);
    Snoc(seen, x);
    assert forall p :: Has(m, p) <==> Has(l, p) || Has(x, p);
  }

  /** The day's rows in order, each appended or grown onto the last where the two meet. */
  method DayShifts(rows: seq<Row>, weekday: int) returns (joined: seq<Interval>)
    ensures Forward(rows) ==> forall m :: Covers(joined, m) <==> Works(rows, weekday, m)
    ensures Forward(rows) ==> NonEmpty(joined)
    ensures Forward(rows) && !Overlapping(rows) ==> Separated(joined)
  {
    var s := InOrder(OfDay(rows, weekday));
    ghost var ok := Forward(rows);
    ghost var apart := ok && !Overlapping(rows);
    if ok { DayForward(rows, weekday); }
    if apart { DayInTurn(rows, weekday); }
    ghost var seen: seq<Interval> := [];
    joined := [];
    for k := 0 to |s|
      invariant |seen| == k && forall j :: 0 <= j < k ==> seen[j] == Span(s[j])
      invariant ok ==> Joined(joined, seen)
      invariant apart ==> Separated(joined)
      invariant joined != [] ==> k > 0 && joined[|joined| - 1].end == s[k - 1].end
    {
      ghost var x := Span(s[k]);
      var n := |joined| - 1;
      if joined != [] && s[k].start == joined[n].end {
        assert joined == joined[..n] + [joined[n]];
        if ok { TouchKeeps(joined[..n], joined[n], seen, x); }
        if apart { StretchSeparates(joined, s[k].end); }
        joined := joined[..n] + [Interval(joined[n].start, s[k].end)];
      } else {
        if ok { AppendKeeps(joined, seen, x); }
        if apart { AppendSeparates(joined, x); }
        joined := joined + [Span(s[k])];
      }
      seen := seen + [x];
    }
    if ok {
      DayMembers(rows, weekday);
      WorksMembers(rows, s, seen, weekday);
    }
  }

  /** The days a week has rows for. */
  function Weekdays(rows: seq<Row>): set<int> {
    set r | r in rows :: r.weekday
  }

  predicate Tidy(shifts: seq<Interval>) {
    Separated(shifts) && NonEmpty(shifts)
  }

  /** The whole week's shifts, one entry for each day that has rows. */
  method ByWeekday(rows: seq<Row>) returns (week: map<int, seq<Interval>>)
    requires Forward(rows) && !Overlapping(rows)
    ensures week.Keys == Weekdays(rows)
    ensures forall d :: d in week ==> Tidy(week[d]) && forall m :: Covers(week[d], m) <==> Works(rows, d, m)
  {
    week := map[];
    var left := Weekdays(rows);
    while left != {}
      invariant left + week.Keys == Weekdays(rows) && left !! week.Keys
      invariant forall d :: d in week ==> Tidy(week[d]) && forall m :: Covers(week[d], m) <==> Works(rows, d, m)
      decreases left
    {
      var d :| d in left;
      var shifts := DayShifts(rows, d);
      week := week[d := shifts];
      left := left - {d};
    }
  }

  // ---- Cutting a weekday's shifts to the opening shifts ----

  function Cut(shift: Interval, piece: Interval): Interval {
    Interval(Max(shift.start, piece.start), Min(shift.end, piece.end))
  }

  function CutShift(shift: Interval, envelope: seq<Interval>): seq<Interval> {
    if envelope == [] then []
    else
      var cut := Cut(shift, envelope[0]);
      (if cut.start < cut.end then [cut] else []) + CutShift(shift, envelope[1..])
  }

  function Clip(shifts: seq<Interval>, envelope: seq<Interval>): seq<Interval> {
    if shifts == [] then [] else CutShift(shifts[0], envelope) + Clip(shifts[1..], envelope)
  }

  lemma {:induction false} ConsCovers(x: Interval, s: seq<Interval>)
    ensures forall p :: Covers([x] + s, p) <==> Has(x, p) || Covers(s, p)
  {
    ConcatCovers([x], s);
    assert [x][0] == x;
  }

  lemma {:induction false} ConcatCovers(s: seq<Interval>, t: seq<Interval>)
    ensures forall p :: Covers(s + t, p) <==> Covers(s, p) || Covers(t, p)
  {
    forall p ensures Covers(s + t, p) <==> Covers(s, p) || Covers(t, p) {
      if i :| 0 <= i < |s| && Has(s[i], p) { assert (s + t)[i] == s[i]; }
      if i :| 0 <= i < |t| && Has(t[i], p) { assert (s + t)[|s| + i] == t[i]; }
    }
  }

  predicate Bounded(s: seq<Interval>, lo: int, hi: int) {
    forall i :: 0 <= i < |s| ==> lo <= s[i].start && s[i].end <= hi
  }

  lemma {:induction false} CutShiftBounds(shift: Interval, envelope: seq<Interval>)
    requires Tidy(envelope)
    ensures Bounded(CutShift(shift, envelope), shift.start, shift.end)
    ensures envelope != [] ==> Bounded(CutShift(shift, envelope), envelope[0].start, shift.end)
  {
    if envelope != [] {
      CutShiftBounds(shift, envelope[1..]);
    }
  }

  lemma {:induction false} ConsTidy(x: Interval, s: seq<Interval>)
    requires x.start < x.end && Tidy(s) && forall i :: 0 <= i < |s| ==> x.end < s[i].start
    ensures Tidy([x] + s)
  {
  }

  lemma {:induction false} CutShiftTidy(shift: Interval, envelope: seq<Interval>)
    requires Tidy(envelope)
    ensures Tidy(CutShift(shift, envelope))
  {
    if envelope != [] {
      var rest := CutShift(shift, envelope[1..]);
      var cut := Cut(shift, envelope[0]);
      CutShiftTidy(shift, envelope[1..]);
      CutShiftBounds(shift, envelope[1..]);
      if cut.start < cut.end {
        ConsTidy(cut, rest);
      } else {
        assert [] + rest == rest;
      }
    }
  }

  lemma {:induction false} CutShiftCovers(shift: Interval, envelope: seq<Interval>)
    ensures forall p :: Covers(CutShift(shift, envelope), p) <==> Has(shift, p) && Covers(envelope, p)
  {
    if envelope != [] {
      var rest := CutShift(shift, envelope[1..]);
      var cut := Cut(shift, envelope[0]);
      CutShiftCovers(shift, envelope[1..]);
      ConsCovers(cut, rest);
      ConsCovers(envelope[0], envelope[1..]);
      assert envelope == [envelope[0]] + envelope[1..];
      assert [] + rest == rest;
      assert forall p :: Has(cut, p) <==> Has(shift, p) && Has(envelope[0], p);
    }
  }

  /** Clipping keeps exactly the minutes both weeks have, and stays sorted with gaps. */
  lemma {:induction false} ClipIsIntersection(shifts: seq<Interval>, envelope: seq<Interval>)
    requires Tidy(shifts) && Tidy(envelope)
    ensures Tidy(Clip(shifts, envelope))
    ensures forall p :: Covers(Clip(shifts, envelope), p) <==> Covers(shifts, p) && Covers(envelope, p)
    ensures shifts != [] ==> forall i :: 0 <= i < |Clip(shifts, envelope)| ==>
              shifts[0].start <= Clip(shifts, envelope)[i].start
  {
    if shifts != [] {
      var first := CutShift(shifts[0], envelope);
      var rest := Clip(shifts[1..], envelope);
      CutShiftBounds(shifts[0], envelope);
      CutShiftTidy(shifts[0], envelope);
      CutShiftCovers(shifts[0], envelope);
      ClipIsIntersection(shifts[1..], envelope);
      ConcatCovers(first, rest);
      ConsCovers(shifts[0], shifts[1..]);
      assert shifts == [shifts[0]] + shifts[1..];
    }
  }

  // ---- A week inside the opening week ----

  predicate Within(shift: Interval, envelope: seq<Interval>) {
    exists k :: 0 <= k < |envelope| && envelope[k].start <= shift.start && shift.end <= envelope[k].end
  }

  /** A shift fits inside one joined opening shift exactly when every minute of it is open. */
  lemma {:induction false} WithinIsInside(shift: Interval, envelope: seq<Interval>)
    requires Tidy(envelope) && shift.start < shift.end
    ensures Within(shift, envelope) <==> forall p :: Has(shift, p) ==> Covers(envelope, p)
  {
    if k :| 0 <= k < |envelope| && envelope[k].start <= shift.start && shift.end <= envelope[k].end {
      forall p | Has(shift, p) ensures Covers(envelope, p) { assert Has(envelope[k], p); }
    } else if forall p :: Has(shift, p) ==> Covers(envelope, p) {
      assert Has(shift, shift.start);
      var k :| 0 <= k < |envelope| && Has(envelope[k], shift.start);
      EndIsFree(envelope, k);
      assert !Has(shift, envelope[k].end);
    }
  }

  datatype Refusal = EndNotAfterStart | OverlappingHours | OutsideOpeningHours(weekday: int)

  function OpeningOn(opening: map<int, seq<Interval>>, weekday: int): seq<Interval> {
    if weekday in opening then opening[weekday] else []
  }

  function FirstOutside(s: seq<Row>, opening: map<int, seq<Interval>>): Option<Refusal> {
    if s == [] then None
    else if !Within(Span(s[0]), OpeningOn(opening, s[0].weekday)) then Some(OutsideOpeningHours(s[0].weekday))
    else FirstOutside(s[1..], opening)
  }

  /** Why a new working week is refused, if it is. */
  function Refused(rows: seq<Row>, opening: map<int, seq<Interval>>): Option<Refusal> {
    if !Forward(rows) then Some(EndNotAfterStart)
    else if Overlapping(rows) then Some(OverlappingHours)
    else if opening == map[] then None
    else FirstOutside(InOrder(rows), opening)
  }

  predicate AllInside(s: seq<Row>, opening: map<int, seq<Interval>>) {
    forall i :: 0 <= i < |s| ==> Within(Span(s[i]), OpeningOn(opening, s[i].weekday))
  }

  lemma {:induction false} FirstOutsideDecides(s: seq<Row>, opening: map<int, seq<Interval>>)
    ensures FirstOutside(s, opening) == None <==> AllInside(s, opening)
  {
    if s != [] {
      FirstOutsideDecides(s[1..], opening);
      assert s == [s[0]] + s[1..];
    }
  }

  predicate OpenOn(opening: map<int, seq<Interval>>, weekday: int, m: int) {
    opening == map[] || Covers(OpeningOn(opening, weekday), m)
  }

  /** Every shift fits the opening week exactly when every minute worked is open. */
  lemma {:induction false} InsideIsOpen(rows: seq<Row>, opening: map<int, seq<Interval>>)
    requires Forward(rows) && opening != map[] && forall d :: d in opening ==> Tidy(opening[d])
    ensures AllInside(rows, opening) <==> forall d, m :: Works(rows, d, m) ==> OpenOn(opening, d, m)
  {
    if AllInside(rows, opening) {
      forall d, m | Works(rows, d, m) ensures OpenOn(opening, d, m) {
        var i :| 0 <= i < |rows| && rows[i].weekday == d && rows[i].start <= m < rows[i].end;
        WithinIsInside(Span(rows[i]), OpeningOn(opening, d));
        assert Has(Span(rows[i]), m);
      }
    }
    if forall d, m :: Works(rows, d, m) ==> OpenOn(opening, d, m) {
      forall k | 0 <= k < |rows| ensures Within(Span(rows[k]), OpeningOn(opening, rows[k].weekday)) {
        var d := rows[k].weekday;
        forall p | Has(Span(rows[k]), p) ensures Covers(OpeningOn(opening, d), p) {
          assert Works(rows, d, p);
          assert OpenOn(opening, d, p);
        }
        WithinIsInside(Span(rows[k]), OpeningOn(opening, d));
      }
    }
  }

  lemma {:induction false} AllInsideMembers(s: seq<Row>, t: seq<Row>, opening: map<int, seq<Interval>>)
    requires forall r :: r in s <==> r in t
    ensures AllInside(s, opening) <==> AllInside(t, opening)
  {
    if AllInside(s, opening) {
      forall k | 0 <= k < |t| ensures Within(Span(t[k]), OpeningOn(opening, t[k].weekday)) { assert t[k] in s; }
    }
    if AllInside(t, opening) {
      forall k | 0 <= k < |s| ensures Within(Span(s[k]), OpeningOn(opening, s[k].weekday)) { assert s[k] in t; }
    }
  }

  /** A week is accepted exactly when its shifts run forward, share no minute, and every minute
   worked is a minute open. */
  lemma {:induction false} AcceptedExactly(rows: seq<Row>, opening: map<int, seq<Interval>>)
    requires forall d :: d in opening ==> Tidy(opening[d])
    ensures
      Refused(rows, opening) == None
      <==> Forward(rows) && !SomePair(rows) && forall d, m :: Works(rows, d, m) ==> OpenOn(opening, d, m)
  {
    if Forward(rows) {
      OverlappingIsSomePair(rows);
      if opening != map[] {
        InOrderFacts(rows);
        AllInsideMembers(rows, InOrder(rows), opening);
        FirstOutsideDecides(InOrder(rows), opening);
        InsideIsOpen(rows, opening);
      }
    }
  }

  /** Clipping an accepted week to the opening week it was accepted under changes nothing. */
  lemma {:induction false} AcceptedWeekIsNotClipped(rows: seq<Row>, opening: map<int, seq<Interval>>, weekday: int,
                                                    shifts: seq<Interval>)
    requires forall d :: d in opening ==> Tidy(opening[d])
    requires Refused(rows, opening) == None && opening != map[]
    requires Tidy(shifts) && forall m :: Covers(shifts, m) <==> Works(rows, weekday, m)
    ensures Clip(shifts, OpeningOn(opening, weekday)) == shifts
  {
    var envelope := OpeningOn(opening, weekday);
    AcceptedExactly(rows, opening);
    ClipIsIntersection(shifts, envelope);
    forall p ensures Covers(shifts, p) <==> Covers(Clip(shifts, envelope), p) {
      if Covers(shifts, p) {
        assert Works(rows, weekday, p);
        assert OpenOn(opening, weekday, p);
      }
    }
    CoverDetermines(shifts, Clip(shifts, envelope));
  }
}
