/**
 * The time covered by measured sessions: the sweep of `unionHours` (shared/web-audit/src/metrics.ts:19-27).
 *
 * An interval from `a` to `b` covers the milliseconds a, a + 1, and so on up to b - 1.
 */
module IntervalUnion {

  type Interval = (int, int)

  /** The milliseconds an interval covers. */
  function Span(i: Interval): (r: set<int>)
    ensures forall t :: t in r <==> i.0 <= t < i.1
    decreases i.1 - i.0
  {
    if i.1 <= i.0 then {} else Span((i.0, i.1 - 1)) + {i.1 - 1}
  }

  /** The union of the intervals. */
  function Covered(s: seq<Interval>): set<int> {
    if s == [] then {} else Span(s[0]) + Covered(s[1..])
  }

  /** The part of a set that is not before time zero. */
  function FromZero(x: set<int>): set<int> {
    set t | t in x && t >= 0
  }

  predicate Ordered(s: seq<Interval>) {
    forall i, j :: 0 <= i < j < |s| ==> s[i].0 <= s[j].0
  }

  /** Sessions end after they start. */
  predicate Proper(s: seq<Interval>) {
    forall i :: 0 <= i < |s| ==> s[i].0 <= s[i].1
  }

  function InsertByStart(x: Interval, s: seq<Interval>): (r: seq<Interval>)
    ensures |r| == |s| + 1
  {
    if s == [] || x.0 <= s[0].0 then [x] + s else [s[0]] + InsertByStart(x, s[1..])
  }

  /** The stable sort by start. */
  function SortByStart(s: seq<Interval>): (r: seq<Interval>)
    ensures |r| == |s|
  {
    if s == [] then [] else InsertByStart(s[0], SortByStart(s[1..]))
  }

  lemma {:induction false} InsertKeeps(x: Interval, s: seq<Interval>)
    requires Ordered(s) && Proper(s) && x.0 <= x.1
    ensures var r := InsertByStart(x, s);
      Ordered(r) && Proper(r) && Covered(r) == Span(x) + Covered(s)
    ensures forall y :: y in InsertByStart(x, s) ==> y == x || y in s
  {
    hide Span;
    if s != [] && x.0 > s[0].0 {
      var t := InsertByStart(x, s[1..]);
      InsertKeeps(x, s[1..]);
      assert ([s[0]] + t)[1..] == t;
      forall j | 0 <= j < |t| ensures s[0].0 <= t[j].0 {
        assert t[j] in t;
        assert t[j] == x || t[j] in s[1..];
      }
    } else {
      assert ([x] + s)[1..] == s;
    }
  }

  lemma {:induction false} SortKeeps(s: seq<Interval>)
    requires Proper(s)
    ensures var r := SortByStart(s); Ordered(r) && Proper(r) && Covered(r) == Covered(s)
  {
    if s != [] {
      SortKeeps(s[1..]);
      InsertKeeps(s[0], SortByStart(s[1..]));
    }
  }

  /** The intervals with one start, in the order in which they stand. */
  function StartingAt(s: seq<Interval>, start: int): seq<Interval> {
    if s == [] then [] else (if s[0].0 == start then [s[0]] else []) + StartingAt(s[1..], start)
  }

  lemma ConsOrdered(x: Interval, s: seq<Interval>)
    requires Ordered(s) && forall y :: y in multiset(s) ==> x.0 <= y.0
    ensures Ordered([x] + s)
  {
    forall j | 0 <= j < |s| ensures x.0 <= s[j].0 {
      assert s[j] in multiset(s);
    }
  }

  lemma {:induction false} InsertAddsOne(x: Interval, s: seq<Interval>)
    ensures multiset(InsertByStart(x, s)) == multiset(s) + multiset{x}
  {
    if s != [] && x.0 > s[0].0 {
      InsertAddsOne(x, s[1..]);
      assert s == [s[0]] + s[1..];
    }
  }

  lemma {:induction false} InsertSorts(x: Interval, s: seq<Interval>)
    requires Ordered(s)
    ensures Ordered(InsertByStart(x, s))
  {
    if s != [] && x.0 > s[0].0 {
      InsertSorts(x, s[1..]);
      InsertAddsOne(x, s[1..]);
      assert forall y :: y in s[1..] ==> s[0].0 <= y.0;
      ConsOrdered(s[0], InsertByStart(x, s[1..]));
    } else {
      if s != [] { assert forall y :: y in s ==> s[0].0 <= y.0; }
      ConsOrdered(x, s);
    }
  }

  lemma StartingAtCons(x: Interval, s: seq<Interval>, start: int)
    ensures StartingAt([x] + s, start) == (if x.0 == start then [x] else []) + StartingAt(s, start)
  {
    assert ([x] + s)[1..] == s;
  }

  lemma {:induction false} InsertIsStable(x: Interval, s: seq<Interval>, start: int)
    ensures StartingAt(InsertByStart(x, s), start) == (if x.0 == start then [x] else []) + StartingAt(s, start)
  {
    if s != [] && x.0 > s[0].0 {
      InsertIsStable(x, s[1..], start);
      StartingAtCons(s[0], InsertByStart(x, s[1..]), start);
      assert s == [s[0]] + s[1..];
      StartingAtCons(s[0], s[1..], start);
    } else {
      StartingAtCons(x, s, start);
    }
  }

  /**
   * The sort orders by start, keeps every interval as often as it occurs, and keeps the order of those with one start.
   */
  lemma {:induction false} SortIsStable(s: seq<Interval>)
    ensures Ordered(SortByStart(s)) && multiset(SortByStart(s)) == multiset(s)
    ensures forall start :: StartingAt(SortByStart(s), start) == StartingAt(s, start)
  {
    if s != [] {
      SortIsStable(s[1..]);
      InsertSorts(s[0], SortByStart(s[1..]));
      InsertAddsOne(s[0], SortByStart(s[1..]));
      forall start ensures StartingAt(SortByStart(s), start) == StartingAt(s, start) {
        InsertIsStable(s[0], SortByStart(s[1..]), start);
      }
      assert s == [s[0]] + s[1..];
    }
  }

  lemma {:induction false} SpanSize(a: int, b: int)
    requires a <= b
    ensures |Span((a, b))| == b - a
    decreases b - a
  {
    if a < b {
      SpanSize(a, b - 1);
      assert Span((a, b)) == Span((a, b - 1)) + {b - 1};
    } else {
      assert Span((a, b)) == {};
    }
  }

  lemma {:induction false} CoveredLast(s: seq<Interval>, x: Interval)
    ensures Covered(s + [x]) == Covered(s) + Span(x)
  {
    if s != [] {
      assert (s + [x])[1..] == s[1..] + [x];
      CoveredLast(s[1..], x);
    } else {
      assert [x][1..] == [];
    }
  }

  /** What is covered so far is counted in `ms` but for its last stretch, which runs from `start` to `end`. */
  ghost predicate Swept(done: set<int>, start: int, end: int, ms: int) {
    && 0 <= start <= end
    && (forall t :: t in FromZero(done) && t >= start <==> start <= t < end)
    && ms + end - start == |FromZero(done)|
  }

  lemma AddSpan(done: set<int>, a: int, b: int)
    requires 0 <= a <= b && forall t :: a <= t < b ==> t !in done
    ensures |FromZero(done + Span((a, b)))| == |FromZero(done)| + b - a
  {
    SpanSize(a, b);
    assert FromZero(done + Span((a, b))) == FromZero(done) + Span((a, b));
    assert FromZero(done) !! Span((a, b));
  }

  /** One step of the sweep. */
  lemma SweepStep(done: set<int>, start: int, end: int, ms: int, x: Interval)
    requires Swept(done, start, end, ms) && x.0 <= x.1 && (start == 0 || start <= x.0)
    ensures x.0 > end ==> Swept(done + Span(x), x.0, x.1, ms + end - start)
    ensures x.0 <= end ==> Swept(done + Span(x), start, if end >= x.1 then end else x.1, ms)
  {
    hide Swept;
    if x.0 > end {
      SweepBeyond(done, start, end, ms, x);
    } else {
      SweepOver(done, start, end, ms, x);
    }
  }

  /** Nothing covered so far lies beyond the current stretch. */
  lemma NothingBeyond(done: set<int>, start: int, end: int, ms: int, a: int, b: int)
    requires Swept(done, start, end, ms) && end <= a <= b
    ensures |FromZero(done + Span((a, b)))| == |FromZero(done)| + b - a
    ensures forall t :: t in FromZero(done + Span((a, b))) <==> t in FromZero(done) || a <= t < b
  {
    forall t | a <= t < b ensures t !in done {
      assert t in FromZero(done) <==> t in done;
    }
    AddSpan(done, a, b);
    forall t ensures t in FromZero(done + Span((a, b))) <==> t in FromZero(done) || a <= t < b {
      assert t in Span((a, b)) <==> a <= t < b;
    }
  }

  lemma SweepBeyond(done: set<int>, start: int, end: int, ms: int, x: Interval)
    requires Swept(done, start, end, ms) && end < x.0 <= x.1
    ensures Swept(done + Span(x), x.0, x.1, ms + end - start)
  {
    NothingBeyond(done, start, end, ms, x.0, x.1);
    hide FromZero, Span;
  }

  lemma SameFromZero(a: set<int>, b: set<int>)
    requires forall t :: t in FromZero(a) <==> t in FromZero(b)
    ensures FromZero(a) == FromZero(b)
  {
  }

  lemma SweepOver(done: set<int>, start: int, end: int, ms: int, x: Interval)
    requires Swept(done, start, end, ms) && x.0 <= x.1 && x.0 <= end && (start == 0 || start <= x.0)
    ensures Swept(done + Span(x), start, if end >= x.1 then end else x.1, ms)
  {
    hide FromZero, Span;
    Overlapped(done, start, end, x);
    if x.1 > end {
      NothingBeyond(done, start, end, ms, end, x.1);
      SameFromZero(done + Span(x), done + Span((end, x.1)));
    } else {
      SameFromZero(done + Span(x), done);
    }
  }

  /** What an overlapping interval adds lies beyond the current stretch. */
  lemma Overlapped(done: set<int>, start: int, end: int, x: Interval)
    requires forall t :: start <= t < end ==> t in FromZero(done)
    requires 0 <= start <= end && x.0 <= end && (start == 0 || start <= x.0)
    ensures forall t :: t in FromZero(done + Span(x)) <==> t in FromZero(done) || end <= t < x.1
  {
    forall t ensures t in FromZero(done + Span(x)) <==> t in FromZero(done) || end <= t < x.1 {
      assert t in Span(x) <==> x.0 <= t < x.1;
      assert start <= t < end ==> t in FromZero(done);
    }
  }

  /** The sort the program calls, in place: by start, a permutation, and stable. */
  method SortIntervals(intervals: array<Interval>)
    modifies intervals
    ensures Ordered(intervals[..]) && multiset(intervals[..]) == multiset(old(intervals[..]))
    ensures forall start :: StartingAt(intervals[..], start) == StartingAt(old(intervals[..]), start)
    ensures intervals[..] == SortByStart(old(intervals[..]))
  {
    var sorted := SortByStart(intervals[..]);
    SortIsStable(intervals[..]);
    for i := 0 to intervals.Length
      invariant forall j :: 0 <= j < i ==> intervals[j] == sorted[j]
    {
      intervals[i] := sorted[i];
    }
    assert intervals[..] == sorted;
  }

  const MS_PER_HOUR: real := 3_600_000.0

  /** `unionHours`: whatever their order, overlap or repetition, the time at or after zero that the intervals cover. */
  method UnionHours(intervals: array<Interval>) returns (hours: real)
    requires Proper(intervals[..])
    modifies intervals
    ensures hours == |FromZero(Covered(old(intervals[..])))| as real / MS_PER_HOUR
    ensures intervals[..] == SortByStart(old(intervals[..]))
  {
    SortKeeps(intervals[..]);
    SortIntervals(intervals);
    ghost var ordered := intervals[..];
    var start, end, ms := 0, 0, 0;
    assert FromZero({}) == {};
    for i := 0 to intervals.Length
      invariant Swept(Covered(ordered[..i]), start, end, ms)
      invariant start == 0 || exists j :: 0 <= j < i && start == ordered[j].0
      invariant intervals[..] == ordered
    {
      var (a, b) := intervals[i];
      assert intervals[i] == ordered[i] == (a, b);
      CoveredLast(ordered[..i], ordered[i]);
      assert ordered[..i + 1] == ordered[..i] + [ordered[i]];
      SweepStep(Covered(ordered[..i]), start, end, ms, ordered[i]);
      if a > end {
        ms := ms + (end - start);
        start := a;
        end := b;
      } else {
        end := if end >= b then end else b;
      }
    }
    assert ordered[..intervals.Length] == ordered;
    hours := (ms + end - start) as real / MS_PER_HOUR;
  }

  /** The result is the whole union exactly when no session reaches back before time zero. */
  lemma NothingBeforeZero(s: seq<Interval>)
    requires Proper(s)
    ensures |FromZero(Covered(s))| == |Covered(s)| <==> forall i :: 0 <= i < |s| && s[i].0 < s[i].1 ==> s[i].0 >= 0
  {
    var all, kept := Covered(s), FromZero(Covered(s));
    assert all == kept + (all - kept) && kept !! (all - kept);
    forall i | 0 <= i < |s| && s[i].0 < s[i].1 && s[i].0 < 0 ensures all != kept {
      InCovered(s, i, s[i].0);
      assert s[i].0 !in kept;
    }
    if t :| t in all && t < 0 {
      var i := CoveredBy(s, t);
    } else {
      assert all == kept;
    }
  }

  lemma {:induction false} InCovered(s: seq<Interval>, i: nat, t: int)
    requires i < |s| && s[i].0 <= t < s[i].1
    ensures t in Covered(s)
  {
    if i > 0 { InCovered(s[1..], i - 1, t); }
  }

  lemma {:induction false} CoveredBy(s: seq<Interval>, t: int) returns (i: nat)
    requires t in Covered(s)
    ensures i < |s| && s[i].0 <= t < s[i].1
  {
    if t in Span(s[0]) {
      i := 0;
    } else {
      i := CoveredBy(s[1..], t);
      i := i + 1;
    }
  }
}
