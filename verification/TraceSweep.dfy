/** Overlap accounting for the traces of one request, in whole nanoseconds. */
module TraceSweep {
  import opened Basics

  datatype Interval = Interval(start: int, end: int, trace: string)

  datatype Overlap = Overlap(trace: string, overlapsWith: string, duration: int)

  /** The order of Python's tuples `(start, end, trace)`. */
  predicate IntervalLeq(a: Interval, b: Interval) {
    || a.start < b.start
    || (a.start == b.start && (a.end < b.end || (a.end == b.end && StringLeq(a.trace, b.trace))))
  }

  lemma {:induction false} IntervalOrder()
    ensures TotalPreorder(IntervalLeq)
  {
    StringOrder();
  }

  // ----- the sweep ----------------------------------------------------------------------------------

  datatype Sweep = Sweep(overlaps: seq<Overlap>, previousEnd: int, previousTrace: string)

  function Advance(s: Sweep, i: Interval): Sweep {
    var overlaps := if i.start < s.previousEnd
                    then s.overlaps + [Overlap(i.trace, s.previousTrace, Min(i.end, s.previousEnd) - i.start)]
                    else s.overlaps;
    if i.end > s.previousEnd then Sweep(overlaps, i.end, i.trace) else s.(overlaps := overlaps)
  }

  function Swept(intervals: seq<Interval>): Sweep {
    if intervals == [] then Sweep([], 0, "")
    else Advance(Swept(intervals[..|intervals| - 1]), intervals[|intervals| - 1])
  }

  method GroupedOverlaps(intervals: seq<Interval>) returns (overlaps: seq<Overlap>, sequential: bool)
    ensures overlaps == Swept(Sort(IntervalLeq, intervals)).overlaps
    ensures sequential <==> overlaps == []
  {
    var sorted := Sort(IntervalLeq, intervals);
    var previousEnd, previousTrace := 0, "";
    overlaps := [];
    for n := 0 to |sorted|
      invariant Sweep(overlaps, previousEnd, previousTrace) == Swept(sorted[..n])
    {
      assert sorted[..n + 1][..n] == sorted[..n];
      var i := sorted[n];
      if i.start < previousEnd {
        overlaps := overlaps + [Overlap(i.trace, previousTrace, Min(i.end, previousEnd) - i.start)];
      }
      if i.end > previousEnd { previousEnd, previousTrace := i.end, i.trace; }
    }
    assert sorted[..|sorted|] == sorted;
    sequential := overlaps == [];
  }

  // ----- lengths and covered nanoseconds ---------------------------------------------------------------

  function Ticks(start: int, end: int): (ticks: set<int>)
    ensures forall t :: t in ticks <==> start <= t < end
    decreases end - start
  {
    if start < end then Ticks(start, end - 1) + {end - 1} else {}
  }

  function Covered(intervals: seq<Interval>): set<int> {
    if intervals == [] then {}
    else Covered(intervals[..|intervals| - 1]) + Ticks(intervals[|intervals| - 1].start, intervals[|intervals| - 1].end)
  }

  function Lengths(intervals: seq<Interval>): int {
    if intervals == [] then 0
    else Lengths(intervals[..|intervals| - 1]) + intervals[|intervals| - 1].end - intervals[|intervals| - 1].start
  }

  function Total(overlaps: seq<Overlap>): int {
    if overlaps == [] then 0 else Total(overlaps[..|overlaps| - 1]) + overlaps[|overlaps| - 1].duration
  }

  ghost predicate Proper(intervals: seq<Interval>) {
    forall i :: 0 <= i < |intervals| ==> 0 <= intervals[i].start <= intervals[i].end
  }

  lemma {:induction false} TicksCount(start: int, end: int)
    requires start <= end
    ensures |Ticks(start, end)| == end - start
    decreases end - start
  {
    if start < end { TicksCount(start, end - 1); }
  }

  /** A nanosecond from the next start on is covered exactly when it lies before the latest end. */
  lemma {:induction false} CoveredAhead(intervals: seq<Interval>, t: int)
    requires Proper(intervals) && forall i :: 0 <= i < |intervals| ==> intervals[i].start <= t
    ensures t in Covered(intervals) <==> t < Swept(intervals).previousEnd && intervals != []
    ensures Swept(intervals).previousEnd >= 0 && (intervals == [] ==> Swept(intervals).previousEnd == 0)
  {
    if intervals != [] {
      CoveredAhead(intervals[..|intervals| - 1], t);
      if |intervals| == 1 { assert intervals[..0] == []; }
    }
  }

  lemma {:induction false} DisjointOrShared(a: set<int>, b: set<int>, shared: set<int>)
    requires a * b == shared
    ensures |a + b| == |a| + |b| - |shared|
  {
    assert a + b == a + (b - shared);
    assert b == (b - shared) + shared;
    assert |b| == |b - shared| + |shared|;
  }

  lemma {:induction false} AdvanceAccounts(intervals: seq<Interval>, i: Interval)
    requires Proper(intervals) && 0 <= i.start <= i.end
    requires forall k :: 0 <= k < |intervals| ==> intervals[k].start <= i.start
    ensures var s := Swept(intervals);
            && |Covered(intervals) + Ticks(i.start, i.end)| + Total(Advance(s, i).overlaps)
               == |Covered(intervals)| + i.end - i.start + Total(s.overlaps)
  {
    var s := Swept(intervals);
    var to := if i.start < s.previousEnd then Min(i.end, s.previousEnd) else i.start;
    CoveredAhead(intervals, i.start);
    forall t | i.start <= t < i.end ensures t in Covered(intervals) <==> t < s.previousEnd {
      CoveredAhead(intervals, t);
    }
    assert Covered(intervals) * Ticks(i.start, i.end) == Ticks(i.start, to);
    DisjointOrShared(Covered(intervals), Ticks(i.start, i.end), Ticks(i.start, to));
    TicksCount(i.start, i.end);
    TicksCount(i.start, to);
    if i.start < s.previousEnd {
      var o := Overlap(i.trace, s.previousTrace, to - i.start);
      assert (s.overlaps + [o])[..|s.overlaps|] == s.overlaps;
    }
  }

  lemma {:induction false} SweepAccounts(sorted: seq<Interval>, n: nat)
    requires Proper(sorted) && SortedBy(IntervalLeq, sorted) && n <= |sorted|
    ensures Total(Swept(sorted[..n]).overlaps) == Lengths(sorted[..n]) - |Covered(sorted[..n])|
  {
    if n > 0 {
      SweepAccounts(sorted, n - 1);
      assert sorted[..n][..n - 1] == sorted[..n - 1];
      var front := sorted[..n - 1];
      forall k | 0 <= k < |front| ensures front[k].start <= sorted[n - 1].start {
        assert IntervalLeq(sorted[k], sorted[n - 1]);
      }
      AdvanceAccounts(front, sorted[n - 1]);
    }
  }

  // ----- the order of the inputs does not matter ---------------------------------------------------------

  lemma {:induction false} SnocSums(s: seq<Interval>, x: Interval)
    ensures Lengths(s + [x]) == Lengths(s) + x.end - x.start
    ensures Covered(s + [x]) == Covered(s) + Ticks(x.start, x.end)
  {
    assert (s + [x])[..|s|] == s;
  }

  lemma {:induction false} BothSnoc(r: seq<Interval>, front: seq<Interval>, last: Interval, x: Interval)
    requires Lengths(r) == Lengths(front) + x.end - x.start
    requires Covered(r) == Covered(front) + Ticks(x.start, x.end)
    ensures Lengths(r + [last]) == Lengths(front + [last]) + x.end - x.start
    ensures Covered(r + [last]) == Covered(front + [last]) + Ticks(x.start, x.end)
  {
    SnocSums(r, last);
    SnocSums(front, last);
  }

  lemma {:induction false} InsertSums(x: Interval, s: seq<Interval>)
    ensures Lengths(Insert(IntervalLeq, x, s)) == Lengths(s) + x.end - x.start
    ensures Covered(Insert(IntervalLeq, x, s)) == Covered(s) + Ticks(x.start, x.end)
  {
    if s == [] {
      SnocSums([], x);
      assert [] + [x] == [x];
    } else if IntervalLeq(s[|s| - 1], x) {
      SnocSums(s, x);
    } else {
      var front, last := s[..|s| - 1], s[|s| - 1];
      InsertSums(x, front);
      assert s == front + [last];
      BothSnoc(Insert(IntervalLeq, x, front), front, last, x);
    }
  }

  lemma {:induction false} SortSums(s: seq<Interval>)
    ensures Lengths(Sort(IntervalLeq, s)) == Lengths(s) && Covered(Sort(IntervalLeq, s)) == Covered(s)
  {
    if s != [] {
      SortSums(s[..|s| - 1]);
      InsertSums(s[|s| - 1], Sort(IntervalLeq, s[..|s| - 1]));
    }
  }

  lemma {:induction false} SortProper(s: seq<Interval>)
    requires Proper(s)
    ensures Proper(Sort(IntervalLeq, s))
  {
    var r := Sort(IntervalLeq, s);
    SameMultisetSameMembers(r, s);
    forall i | 0 <= i < |r| ensures 0 <= r[i].start <= r[i].end {
      assert r[i] in r;
    }
  }

  /** The overlaps add up to what the lengths exceed the union by, whatever order the traces come in. */
  lemma {:induction false} OverlapIsExcess(intervals: seq<Interval>)
    requires Proper(intervals)
    ensures Total(Swept(Sort(IntervalLeq, intervals)).overlaps) == Lengths(intervals) - |Covered(intervals)|
  {
    var sorted := Sort(IntervalLeq, intervals);
    IntervalOrder();
    SortSorted(IntervalLeq, intervals);
    SortSums(intervals);
    SortProper(intervals);
    assert sorted[..|sorted|] == sorted;
    SweepAccounts(sorted, |sorted|);
  }

  // ----- sequential ------------------------------------------------------------------------------------------

  /** Every earlier end is at most the start. */
  predicate StartsAfter(intervals: seq<Interval>, n: nat)
    requires n < |intervals|
  {
    0 <= intervals[n].start && forall i :: 0 <= i < n ==> intervals[i].end <= intervals[n].start
  }

  lemma {:induction false} LatestEnd(intervals: seq<Interval>, t: int)
    ensures Swept(intervals).previousEnd <= t <==> 0 <= t && forall i :: 0 <= i < |intervals| ==> intervals[i].end <= t
  {
    if intervals != [] {
      var front := intervals[..|intervals| - 1];
      LatestEnd(front, t);
      assert (forall i :: 0 <= i < |intervals| ==> intervals[i].end <= t)
        <==> (forall i :: 0 <= i < |front| ==> front[i].end <= t) && intervals[|intervals| - 1].end <= t;
    }
  }

  lemma {:induction false} NoOverlapExactly(intervals: seq<Interval>, n: nat)
    requires n <= |intervals|
    ensures Swept(intervals[..n]).overlaps == [] <==> forall k: nat :: k < n ==> StartsAfter(intervals, k)
  {
    if n > 0 {
      NoOverlapExactly(intervals, n - 1);
      assert intervals[..n][..n - 1] == intervals[..n - 1];
      LatestEnd(intervals[..n - 1], intervals[n - 1].start);
      assert StartsAfter(intervals, n - 1) <==> Swept(intervals[..n - 1]).previousEnd <= intervals[n - 1].start;
    }
  }

  /** `sequential` holds exactly when, in sorted order, no trace starts before time zero or before
      an earlier one has ended. */
  lemma {:induction false} SequentialExactly(intervals: seq<Interval>)
    ensures var sorted := Sort(IntervalLeq, intervals);
            Swept(sorted).overlaps == [] <==> forall k: nat :: k < |sorted| ==> StartsAfter(sorted, k)
  {
    var sorted := Sort(IntervalLeq, intervals);
    assert sorted[..|sorted|] == sorted;
    NoOverlapExactly(sorted, |sorted|);
  }

  // ----- what an overlap record names --------------------------------------------------------------------------

  /** The record's partner really runs through the shared nanoseconds. */
  ghost predicate Witnessed(intervals: seq<Interval>, o: Overlap) {
    exists i, j :: 0 <= i < j < |intervals| && intervals[j].trace == o.trace && intervals[i].trace == o.overlapsWith
      && Min(intervals[i].end, intervals[j].end) - Max(intervals[i].start, intervals[j].start) == o.duration
  }

  ghost predicate LastEnds(intervals: seq<Interval>, s: Sweep) {
    s.previousEnd > 0 ==> exists i :: 0 <= i < |intervals| && intervals[i].trace == s.previousTrace && intervals[i].end == s.previousEnd
  }

  lemma {:induction false} PartnerEnds(intervals: seq<Interval>)
    ensures LastEnds(intervals, Swept(intervals))
  {
    if intervals != [] {
      var front := intervals[..|intervals| - 1];
      PartnerEnds(front);
      var s := Swept(front);
      if i :| 0 <= i < |front| && front[i].trace == s.previousTrace && front[i].end == s.previousEnd {
        assert intervals[i] == front[i];
      }
      assert intervals[|intervals| - 1].end == intervals[|intervals| - 1].end;
    }
  }

  lemma {:induction false} WitnessedLonger(a: seq<Interval>, b: seq<Interval>, o: Overlap)
    requires a <= b && Witnessed(a, o)
    ensures Witnessed(b, o)
  {
    var i, j :| 0 <= i < j < |a| && a[j].trace == o.trace && a[i].trace == o.overlapsWith
      && Min(a[i].end, a[j].end) - Max(a[i].start, a[j].start) == o.duration;
    assert b[i] == a[i] && b[j] == a[j];
  }

  lemma {:induction false} NewestWitnessed(front: seq<Interval>, i: Interval, o: Overlap)
    requires Proper(front) && i.start >= 0
    requires forall k :: 0 <= k < |front| ==> front[k].start <= i.start
    requires var s := Swept(front); i.start < s.previousEnd && o == Overlap(i.trace, s.previousTrace, Min(i.end, s.previousEnd) - i.start)
    ensures Witnessed(front + [i], o)
  {
    PartnerEnds(front);
    var s, whole := Swept(front), front + [i];
    var k :| 0 <= k < |front| && front[k].trace == s.previousTrace && front[k].end == s.previousEnd;
    assert whole[k] == front[k] && whole[|front|] == i;
  }

  /** Every record names two traces and the exact time they share. */
  lemma {:induction false} OverlapsWitnessed(sorted: seq<Interval>, n: nat)
    requires Proper(sorted) && SortedBy(IntervalLeq, sorted) && n <= |sorted|
    ensures forall o :: o in Swept(sorted[..n]).overlaps ==> Witnessed(sorted[..n], o)
  {
    if n > 0 {
      var front, whole := sorted[..n - 1], sorted[..n];
      assert whole[..n - 1] == front && whole == front + [sorted[n - 1]];
      OverlapsWitnessed(sorted, n - 1);
      forall k | 0 <= k < |front| ensures front[k].start <= sorted[n - 1].start {
        assert IntervalLeq(sorted[k], sorted[n - 1]);
      }
      forall o | o in Swept(whole).overlaps ensures Witnessed(whole, o) {
        if o in Swept(front).overlaps {
          WitnessedLonger(front, whole, o);
        } else {
          NewestWitnessed(front, sorted[n - 1], o);
        }
      }
    }
  }

  // ----- exactly which records there are ----------------------------------------------------------------------------

  /** `a` comes before `b`: by start, then by end, then by trace id. */
  ghost predicate TupleBefore(a: Interval, b: Interval) {
    || a.start < b.start
    || (a.start == b.start && a.end < b.end)
    || (a.start == b.start && a.end == b.end && (a.trace <= b.trace || exists k: nat :: SmallerAt(a.trace, b.trace, k)))
  }

  /** The sweep takes the traces in this order, each as often as it is given. */
  lemma {:induction false} SortedInOrder(intervals: seq<Interval>, i: nat, j: nat)
    requires i < j < |Sort(IntervalLeq, intervals)|
    ensures multiset(Sort(IntervalLeq, intervals)) == multiset(intervals)
    ensures TupleBefore(Sort(IntervalLeq, intervals)[i], Sort(IntervalLeq, intervals)[j])
  {
    var sorted := Sort(IntervalLeq, intervals);
    IntervalOrder();
    SortSorted(IntervalLeq, intervals);
    StringLeqExactly(sorted[i].trace, sorted[j].trace);
  }

  /** The latest end among the first `n`, with the first trace that reaches it; zero when none is later. */
  ghost predicate Latest(intervals: seq<Interval>, n: nat, end: int, trace: string)
    requires n <= |intervals|
  {
    && (forall i :: 0 <= i < n ==> intervals[i].end <= end)
    && (|| (end == 0 && trace == "")
        || exists k :: 0 <= k < n && FirstToReach(intervals, k, end) && trace == intervals[k].trace)
    && end >= 0
  }

  predicate FirstToReach(intervals: seq<Interval>, k: nat, end: int)
    requires k < |intervals|
  {
    intervals[k].end == end > 0 && forall i :: 0 <= i < k ==> intervals[i].end < end
  }

  lemma {:induction false} LatestExactly(intervals: seq<Interval>)
    ensures Latest(intervals, |intervals|, Swept(intervals).previousEnd, Swept(intervals).previousTrace)
  {
    if intervals != [] {
      var front, n := intervals[..|intervals| - 1], |intervals| - 1;
      LatestExactly(front);
      var s := Swept(front);
      if intervals[n].end > s.previousEnd {
        assert FirstToReach(intervals, n, intervals[n].end);
      } else if k :| 0 <= k < n && FirstToReach(front, k, s.previousEnd) && s.previousTrace == front[k].trace {
        assert FirstToReach(intervals, k, s.previousEnd);
      }
    }
  }

  /** The record of the trace at place `n`: its partner is the first to reach the latest end before it. */
  ghost predicate RecordOf(intervals: seq<Interval>, n: nat, o: Overlap)
    requires n < |intervals|
  {
    exists end, partner :: Latest(intervals, n, end, partner) && intervals[n].start < end
      && o == Overlap(intervals[n].trace, partner, (if intervals[n].end < end then intervals[n].end else end) - intervals[n].start)
  }

  ghost predicate PlacesTold(intervals: seq<Interval>, at: seq<nat>, overlaps: seq<Overlap>) {
    |at| == |overlaps| && forall a :: 0 <= a < |at| ==> at[a] < |intervals| && RecordOf(intervals, at[a], overlaps[a])
  }

  ghost predicate PlacesAll(intervals: seq<Interval>, at: seq<nat>) {
    && (forall a, b :: 0 <= a < b < |at| ==> at[a] < at[b])
    && (forall n: nat :: n < |intervals| ==> (n in at <==> !StartsAfter(intervals, n)))
  }

  /** One record, in order, for each trace that starts before time zero or before an earlier end. */
  ghost predicate Records(intervals: seq<Interval>, at: seq<nat>, overlaps: seq<Overlap>) {
    PlacesTold(intervals, at, overlaps) && PlacesAll(intervals, at)
  }

  lemma {:induction false} SweepExactly(intervals: seq<Interval>) returns (at: seq<nat>)
    ensures Records(intervals, at, Swept(intervals).overlaps)
  {
    at := [];
    if intervals != [] {
      var n := |intervals| - 1;
      at := SweepExactly(intervals[..n]);
      NewestTrace(intervals, n);
      RecordsAdd(intervals, n, at, Swept(intervals[..n]).overlaps, Swept(intervals).overlaps);
      if !StartsAfter(intervals, n) { at := at + [n]; }
    }
  }

  /** What the newest trace adds. */
  ghost predicate AddsRecord(intervals: seq<Interval>, n: nat, before: seq<Overlap>, after: seq<Overlap>)
    requires n < |intervals|
  {
    if StartsAfter(intervals, n) then after == before
    else |after| == |before| + 1 && after[..|before|] == before && RecordOf(intervals, n, after[|before|])
  }

  lemma {:induction false} NewestTrace(intervals: seq<Interval>, n: nat)
    requires |intervals| == n + 1
    ensures AddsRecord(intervals, n, Swept(intervals[..n]).overlaps, Swept(intervals).overlaps)
  {
    LatestEnd(intervals[..n], intervals[n].start);
    assert StartsAfter(intervals, n) <==> Swept(intervals[..n]).previousEnd <= intervals[n].start;
    if !StartsAfter(intervals, n) { NewestRecord(intervals, n); }
  }

  lemma {:induction false} PlacesToldMore(intervals: seq<Interval>, at: seq<nat>, n: nat, before: seq<Overlap>, o: Overlap)
    requires PlacesTold(intervals, at, before) && n < |intervals| && RecordOf(intervals, n, o)
    ensures PlacesTold(intervals, at + [n], before + [o])
  {
  }

  lemma {:induction false} RecordsAdd(intervals: seq<Interval>, n: nat, at: seq<nat>, before: seq<Overlap>, after: seq<Overlap>)
    requires |intervals| == n + 1 && Records(intervals[..n], at, before) && AddsRecord(intervals, n, before, after)
    ensures Records(intervals, if StartsAfter(intervals, n) then at else at + [n], after)
  {
    RecordsStay(intervals, at, before);
    assert PlacesTold(intervals, at, before);
    if StartsAfter(intervals, n) {
      assert PlacesAll(intervals, at);
    } else {
      PlacesToldMore(intervals, at, n, before, after[|before|]);
      assert after == before + [after[|before|]];
      assert PlacesAll(intervals, at + [n]);
    }
  }

  /** What is said about the earlier traces stands when one more is added. */
  lemma {:induction false} RecordsStay(intervals: seq<Interval>, at: seq<nat>, overlaps: seq<Overlap>)
    requires intervals != [] && Records(intervals[..|intervals| - 1], at, overlaps)
    ensures forall a :: 0 <= a < |at| ==> at[a] < |intervals| - 1 && RecordOf(intervals, at[a], overlaps[a])
    ensures forall n: nat :: n < |intervals| - 1 ==> (n in at <==> !StartsAfter(intervals, n))
  {
    var front := intervals[..|intervals| - 1];
    forall a | 0 <= a < |at| ensures at[a] < |front| && RecordOf(intervals, at[a], overlaps[a]) {
      assert RecordOf(front, at[a], overlaps[a]);
      RecordStays(intervals, at[a], overlaps[a]);
    }
    forall n: nat | n < |front| ensures n in at <==> !StartsAfter(intervals, n) { SameStart(intervals, n); }
  }

  lemma {:induction false} SameStart(intervals: seq<Interval>, n: nat)
    requires n + 1 < |intervals|
    ensures StartsAfter(intervals[..|intervals| - 1], n) <==> StartsAfter(intervals, n)
  {
  }

  lemma {:induction false} LatestStays(a: seq<Interval>, b: seq<Interval>, n: nat, end: int, trace: string)
    requires a <= b && n <= |a| && Latest(a, n, end, trace)
    ensures Latest(b, n, end, trace)
  {
    if k :| 0 <= k < n && FirstToReach(a, k, end) && trace == a[k].trace { assert FirstToReach(b, k, end); }
  }

  lemma {:induction false} RecordStays(intervals: seq<Interval>, n: nat, o: Overlap)
    requires n + 1 < |intervals| && RecordOf(intervals[..|intervals| - 1], n, o)
    ensures RecordOf(intervals, n, o)
  {
    var front := intervals[..|intervals| - 1];
    var end, partner :| Latest(front, n, end, partner) && front[n].start < end
      && o == Overlap(front[n].trace, partner, (if front[n].end < end then front[n].end else end) - front[n].start);
    LatestStays(front, intervals, n, end, partner);
  }

  lemma {:induction false} NewestRecord(intervals: seq<Interval>, n: nat)
    requires |intervals| == n + 1 && intervals[n].start < Swept(intervals[..n]).previousEnd
    ensures var s := Swept(intervals[..n]);
            RecordOf(intervals, n, Overlap(intervals[n].trace, s.previousTrace, Min(intervals[n].end, s.previousEnd) - intervals[n].start))
  {
    var s := Swept(intervals[..n]);
    LatestExactly(intervals[..n]);
    LatestStays(intervals[..n], intervals, n, s.previousEnd, s.previousTrace);
  }
}
