/** The steps of the fusion told from the records themselves: which section a coarse hit gets, which
    candidates share a scope and why, and what a merge leaves. */
module FusionScope {
  import opened Basics
  import opened ContentRanges
  import opened Fusion

  // ----- the section of a coarse hit ----------------------------------------------------------------

  function LinesOf(r: Range): set<int> { set line | r.start <= line <= r.end && Holds(r, line) }

  lemma {:induction false} LineCount(r: Range)
    requires r.start <= r.end + 1
    ensures |LinesOf(r)| == r.end - r.start + 1
    decreases r.end - r.start + 1
  {
    if r.start <= r.end {
      LineCount(Range(r.start, r.end - 1));
      assert LinesOf(r) == LinesOf(Range(r.start, r.end - 1)) + {r.end};
    } else {
      assert LinesOf(r) == {};
    }
  }

  /** A section's width adds up over its ranges, and one range is as wide as it has lines. */
  lemma {:induction false} SpanCountsLines(ranges: seq<Range>, more: seq<Range>, r: Range)
    ensures Span(ranges + more) == Span(ranges) + Span(more)
    ensures r.start <= r.end ==> Span([r]) == |LinesOf(r)|
    ensures Span([]) == 0
  {
    if r.start <= r.end { LineCount(r); }
    if more == [] {
      assert ranges + more == ranges;
    } else {
      assert (ranges + more)[..|ranges + more| - 1] == ranges + more[..|more| - 1];
      SpanCountsLines(ranges, more[..|more| - 1], r);
    }
  }

  /** `a` is narrower than `b`, or as wide and deeper, or as deep too and smaller in its id. */
  ghost predicate Narrower(a: IndexedSection, b: IndexedSection) {
    var x, y := Span(SectionRanges(a)), Span(SectionRanges(b));
    || x < y
    || (x == y && a.depth > b.depth)
    || (x == y && a.depth == b.depth && a.id != b.id && StringLeq(a.id, b.id))
  }

  lemma {:induction false} BetterIsNarrower(a: IndexedSection, b: IndexedSection)
    ensures Better(a, b) <==> Narrower(a, b)
  {
  }

  ghost predicate Touched(s: IndexedSection, start: int, end: int) {
    exists i :: 0 <= i < |SectionRanges(s)| && start <= SectionRanges(s)[i].end && SectionRanges(s)[i].start <= end
  }

  /** The one at place `a` is chosen over the other when both are touched. */
  ghost predicate Prevails(a: IndexedSection, b: IndexedSection, first: bool, start: int, end: int) {
    Touched(b, start, end) ==> if first then !Narrower(b, a) else Narrower(a, b)
  }

  /** Place `k` is the hit's: it is touched, every earlier touched one is worse, no later one is better. */
  ghost predicate BestAt(sections: seq<IndexedSection>, start: int, end: int, k: nat) {
    && k < |sections| && Touched(sections[k], start, end)
    && forall j :: 0 <= j < |sections| && j != k ==> Prevails(sections[k], sections[j], k < j, start, end)
  }

  lemma {:induction false} BestExactly(sections: seq<IndexedSection>, start: int, end: int)
    ensures BestSection(sections, start, end).None? ==> forall k :: 0 <= k < |sections| ==> !Touched(sections[k], start, end)
    ensures BestSection(sections, start, end).Some? ==>
              exists k: nat :: BestAt(sections, start, end, k) && sections[k] == BestSection(sections, start, end).value
  {
    if sections != [] {
      var front, n := sections[..|sections| - 1], |sections| - 1;
      BestExactly(front, start, end);
      assert Overlaps(start, end, SectionRanges(sections[n])) <==> Touched(sections[n], start, end);
      forall k | 0 <= k < n ensures sections[k] == front[k] {}
      if BestSection(front, start, end).Some? {
        var k: nat :| BestAt(front, start, end, k) && front[k] == BestSection(front, start, end).value;
        BetterIsNarrower(sections[n], sections[k]);
        if Touched(sections[n], start, end) && Better(sections[n], sections[k]) {
          BestReplaced(sections, start, end, k, n);
        } else {
          BestKept(sections, start, end, k, n);
        }
      } else if Touched(sections[n], start, end) {
        assert BestAt(sections, start, end, n);
      }
    }
  }

  lemma {:induction false} StillBest(a: IndexedSection, b: IndexedSection, c: IndexedSection)
    requires Narrower(a, b) && !Narrower(c, b)
    ensures Narrower(a, c)
  {
    BetterIsNarrower(a, b);
    BetterIsNarrower(c, b);
    BetterIsNarrower(a, c);
    BetterOrder(a, c, b);
  }

  lemma {:induction false} NotBoth(a: IndexedSection, b: IndexedSection)
    ensures Narrower(a, b) ==> !Narrower(b, a)
  {
    BetterIsNarrower(a, b);
    BetterIsNarrower(b, a);
    BetterOrder(a, b, a);
  }

  lemma {:induction false} StillPrevails(a: IndexedSection, b: IndexedSection, c: IndexedSection, first: bool, start: int, end: int)
    requires Narrower(a, b) && Prevails(b, c, first, start, end)
    ensures Prevails(a, c, false, start, end)
  {
    NotBoth(b, c);
    if !Narrower(c, b) { StillBest(a, b, c); }
  }

  lemma {:induction false} BestReplaced(sections: seq<IndexedSection>, start: int, end: int, k: nat, n: nat)
    requires |sections| == n + 1 && BestAt(sections[..n], start, end, k)
    requires Touched(sections[n], start, end) && Narrower(sections[n], sections[k])
    ensures BestAt(sections, start, end, n)
  {
    forall j | 0 <= j < n ensures Prevails(sections[n], sections[j], false, start, end) {
      if j != k {
        assert Prevails(sections[..n][k], sections[..n][j], k < j, start, end);
        StillPrevails(sections[n], sections[k], sections[j], k < j, start, end);
      }
    }
  }

  lemma {:induction false} BestKept(sections: seq<IndexedSection>, start: int, end: int, k: nat, n: nat)
    requires |sections| == n + 1 && BestAt(sections[..n], start, end, k)
    requires Prevails(sections[k], sections[n], true, start, end)
    ensures BestAt(sections, start, end, k)
  {
    assert sections[..n][k] == sections[k];
    forall j | 0 <= j < |sections| && j != k ensures Prevails(sections[k], sections[j], k < j, start, end) {
      if j < n { assert Prevails(sections[..n][k], sections[..n][j], k < j, start, end); }
    }
  }

  // ----- sharing a scope -----------------------------------------------------------------------------------

  ghost predicate ShareLine(left: Candidate, right: Candidate) {
    exists line :: Covered(Lines(left), line) && Covered(Lines(right), line)
  }

  /** Both name one section. */
  predicate SameSection(left: Candidate, right: Candidate) { left.id != "" && left.id == right.id }

  predicate SameTitleKey(left: Candidate, right: Candidate) { left.title.key != "" && left.title.key == right.title.key }

  /** Two candidates share a scope for this reason: the section they both name; a title over a
      common line; or, for two without a section, a common line alone. */
  ghost predicate Shares(left: Candidate, right: Candidate, reason: Reason) {
    && left.doc == right.doc
    && match reason
       case DuplicateSection => SameSection(left, right)
       case DuplicateTitleRange => !SameSection(left, right) && SameTitleKey(left, right) && ShareLine(left, right)
       case DuplicateDocumentRange =>
         left.id == "" && right.id == "" && !SameTitleKey(left, right) && ShareLine(left, right)
  }

  lemma {:induction false} SharesExactly(left: Candidate, right: Candidate, reason: Reason)
    ensures SameScope(left, right) == Some(reason) <==> Shares(left, right, reason)
  {
    OverlapIsSharedLine(Lines(left), Lines(right));
  }

  ghost predicate Shared(left: Candidate, right: Candidate) { exists reason :: Shares(left, right, reason) }

  lemma {:induction false} SharedExactly(left: Candidate, right: Candidate)
    ensures SameScope(left, right).Some? <==> Shared(left, right)
  {
    forall reason ensures SameScope(left, right) == Some(reason) <==> Shares(left, right, reason) { SharesExactly(left, right, reason); }
    if SameScope(left, right).Some? { assert Shares(left, right, SameScope(left, right).value); }
  }

  // ----- a step -------------------------------------------------------------------------------------------------

  /** `merged` is `target` completed from `incoming`: its own section and title where it has them, the
      incoming rank of every incoming route, and the ranges of both, in order and once each. */
  ghost predicate Completes(target: Candidate, incoming: Candidate, merged: Candidate) {
    && merged.doc == target.doc
    && merged.id == (if target.id != "" then target.id else incoming.id)
    && merged.title == (if target.title.text != "" then target.title else incoming.title)
    && (forall route :: route in merged.ranks <==> route in target.ranks || route in incoming.ranks)
    && (forall route :: route in merged.ranks ==>
          merged.ranks[route] == if route in incoming.ranks then incoming.ranks[route] else target.ranks[route])
    && (forall r :: r in Lines(merged) <==> r in Lines(target) || r in Lines(incoming))
    && (forall i, j :: 0 <= i < j < |Lines(merged)| ==> Before(Lines(merged)[i], Lines(merged)[j]))
  }

  predicate Before(a: Range, b: Range) { a.start < b.start || (a.start == b.start && a.end < b.end) }

  lemma {:induction false} CompletesExactly(target: Candidate, incoming: Candidate)
    ensures Completes(target, incoming, Merge(target, incoming))
  {
    var both := Lines(target) + Lines(incoming);
    MergedRanges(target, incoming);
    UnionMembers(Lines(target), Lines(incoming));
    RangeOrder();
    SortSorted(RangeLeq, Dedupe(both));
    var u := Union(Lines(target), Lines(incoming));
    forall i, j | 0 <= i < j < |u| ensures Before(u[i], u[j]) {
      assert RangeLeq(u[i], u[j]);
      UnionDistinct(both, i, j);
    }
  }

  lemma {:induction false} UnionDistinct(both: seq<Range>, i: nat, j: nat)
    requires i < j < |Dedupe(both)|
    ensures Sort(RangeLeq, Dedupe(both))[i] != Sort(RangeLeq, Dedupe(both))[j]
  {
    OnceEach(Sort(RangeLeq, Dedupe(both)), Dedupe(both), i, j);
  }

  lemma {:induction false} OnceEach<T>(a: seq<T>, b: seq<T>, i: nat, j: nat)
    requires multiset(a) == multiset(b) && i < j < |a| && forall m, n :: 0 <= m < n < |b| ==> b[m] != b[n]
    ensures a[i] != a[j]
  {
    AtMostOne(b, a[i]);
    assert a == a[..i] + [a[i]] + a[i + 1..];
    assert a[j] in a[i + 1..];
    assert multiset(a)[a[i]] == multiset(b)[a[i]];
  }

  lemma {:induction false} AtMostOne<T>(b: seq<T>, x: T)
    requires forall m, n :: 0 <= m < n < |b| ==> b[m] != b[n]
    ensures multiset(b)[x] <= 1
  {
    if b != [] {
      var front := b[..|b| - 1];
      assert b == front + [b[|b| - 1]];
      AtMostOne(front, x);
      if x == b[|b| - 1] { assert x !in front; }
    }
  }

  /** What one candidate does: alone in its scope it is retained at the end; else the first
      retained one that shares it takes it in, and the rejection says why and into what. */
  ghost predicate Absorbs(f: Fused, c: Candidate, g: Fused) {
    if forall i :: 0 <= i < |f.retained| ==> !Shared(f.retained[i], c) then
      g.retained == f.retained + [c] && g.rejected == f.rejected
    else
      exists k: nat, reason :: TakenBy(f, c, g, k, reason)
  }

  ghost predicate TakenBy(f: Fused, c: Candidate, g: Fused, k: nat, reason: Reason) {
    && k < |f.retained| == |g.retained| && Shares(f.retained[k], c, reason)
    && (forall i :: 0 <= i < k ==> !Shared(f.retained[i], c))
    && (forall i :: 0 <= i < |f.retained| && i != k ==> g.retained[i] == f.retained[i])
    && Completes(f.retained[k], c, g.retained[k])
    && g.rejected == f.rejected + [Rejected(c.doc, c.title, reason, if g.retained[k].id != "" then g.retained[k].id else g.retained[k].title.text)]
  }

  lemma {:induction false} StepExactly(f: Fused, c: Candidate)
    ensures Absorbs(f, c, Step(f, c))
  {
    var k := FirstMatch(f.retained, c);
    forall i | 0 <= i < k ensures !Shared(f.retained[i], c) {
      BeforeMatch(f.retained, c, 0, i);
      SharedExactly(f.retained[i], c);
    }
    if k < |f.retained| {
      var reason := SameScope(f.retained[k], c).value;
      SharesExactly(f.retained[k], c, reason);
      CompletesExactly(f.retained[k], c);
      assert Shared(f.retained[k], c);
      assert TakenBy(f, c, Step(f, c), k, reason);
    }
  }

  /** The states between the inputs, from nothing on. */
  ghost predicate FusesTo(inputs: seq<Candidate>, fs: seq<Fused>) {
    && |fs| == |inputs| + 1 && fs[0] == Fused([], [])
    && forall n: nat :: n < |inputs| ==> AbsorbsAt(inputs, fs, n)
  }

  ghost predicate AbsorbsAt(inputs: seq<Candidate>, fs: seq<Fused>, n: nat)
    requires |fs| == |inputs| + 1 && n < |inputs|
  {
    Absorbs(fs[n], inputs[n], fs[n + 1])
  }

  /** The fused candidates are what the inputs, taken in one by one, lead to. */
  lemma {:induction false} FuseExactly(inputs: seq<Candidate>) returns (fs: seq<Fused>)
    ensures FusesTo(inputs, fs) && fs[|inputs|] == Fuse(inputs)
  {
    if inputs == [] {
      fs := [Fused([], [])];
    } else {
      var front, n := inputs[..|inputs| - 1], |inputs| - 1;
      var before := FuseExactly(front);
      StepExactly(before[n], inputs[n]);
      fs := before + [Step(before[n], inputs[n])];
      forall m: nat | m < |inputs| ensures AbsorbsAt(inputs, fs, m) { AbsorbsOn(front, before, inputs, fs, m); }
    }
  }

  lemma {:induction false} AbsorbsOn(front: seq<Candidate>, before: seq<Fused>, inputs: seq<Candidate>, fs: seq<Fused>, m: nat)
    requires |inputs| == |front| + 1 && |before| == |inputs| && |fs| == |inputs| + 1 && m < |inputs|
    requires front == inputs[..|front|] && before == fs[..|before|]
    requires m < |front| ==> AbsorbsAt(front, before, m)
    requires Absorbs(fs[|front|], inputs[|front|], fs[|inputs|])
    ensures AbsorbsAt(inputs, fs, m)
  {
    if m < |front| { assert before[m] == fs[m] && before[m + 1] == fs[m + 1] && front[m] == inputs[m]; }
  }

  // ----- the inputs -------------------------------------------------------------------------------------------------

  /** The line a coarse hit names; the first one when it names none. */
  predicate Names(n: Option<int>, line: int) { line == if n.None? || n.value == 0 then 1 else n.value }

  /** A candidate made from a section: its id, lines and span, ranked on one route. */
  ghost predicate MadeFrom(c: Candidate, doc: string, s: IndexedSection, route: string, rank: nat) {
    c.doc == doc && c.id == s.id && c.start == s.start && c.end == s.end && c.ranks == map[route := rank] && Lines(c) == SectionRanges(s)
  }

  lemma {:induction false} SectionMakes(doc: string, s: IndexedSection, title: Title, route: string, rank: nat)
    ensures MadeFrom(FromSection(doc, s, title, route, rank), doc, s, route, rank)
  {
    WrittenBack(SectionRanges(s), s.ranges, s.start, s.end);
  }

  ghost predicate InSection(projections: map<string, seq<IndexedSection>>, doc: string, start: int, end: int) {
    doc in projections && exists k: nat :: k < |projections[doc]| && Touched(projections[doc][k], start, end)
  }

  /** A coarse hit becomes a candidate of the best section it touches, or, without one, of its own lines. */
  ghost predicate CoarseGives(item: Coarse, rank: nat, projections: map<string, seq<IndexedSection>>, route: string, c: Candidate,
                              start: int, end: int) {
    && Names(item.start, start) && Names(item.end, end)
    && if InSection(projections, item.doc, start, end) then
         exists k: nat :: BestAt(projections[item.doc], start, end, k) && MadeFrom(c, item.doc, projections[item.doc][k], route, rank)
           && c.title == (if projections[item.doc][k].title.text != "" then projections[item.doc][k].title else item.heading)
       else
         c == Candidate(item.doc, "", item.heading, [RawRange(Number(start), Number(end))], Number(start), Number(end), map[route := rank])
  }

  lemma {:induction false} CoarseExactly(item: Coarse, rank: nat, projections: map<string, seq<IndexedSection>>, route: string)
    ensures CoarseGives(item, rank, projections, route, FromCoarse(item, rank, projections, route), Line(item.start), Line(item.end))
  {
    var start, end := Line(item.start), Line(item.end);
    if item.doc in projections {
      var sections := projections[item.doc];
      BestExactly(sections, start, end);
      if BestSection(sections, start, end).Some? {
        var k: nat :| BestAt(sections, start, end, k) && sections[k] == BestSection(sections, start, end).value;
        var s := sections[k];
        SectionMakes(item.doc, s, if s.title.text != "" then s.title else item.heading, route, rank);
      }
    }
  }

  /** The inputs: the hierarchical hits with their ranks, then the coarse ones with theirs. */
  lemma {:induction false} HierarchicalFirst(hierarchical: seq<Hierarchical>, coarse: seq<Coarse>,
                                             projections: map<string, seq<IndexedSection>>, route: string, i: nat)
    requires i < |hierarchical|
    ensures var c := Inputs(hierarchical, coarse, projections, route)[i];
            && MadeFrom(c, hierarchical[i].doc, hierarchical[i].section, "hierarchical-search", i + 1)
            && c.title == hierarchical[i].section.title
  {
    SectionMakes(hierarchical[i].doc, hierarchical[i].section, hierarchical[i].section.title, "hierarchical-search", i + 1);
  }

  lemma {:induction false} CoarseAfter(hierarchical: seq<Hierarchical>, coarse: seq<Coarse>, projections: map<string, seq<IndexedSection>>,
                                       route: string, i: nat) returns (start: int, end: int)
    requires i < |coarse|
    ensures CoarseGives(coarse[i], i + 1, projections, route, Inputs(hierarchical, coarse, projections, route)[|hierarchical| + i], start, end)
  {
    start, end := Line(coarse[i].start), Line(coarse[i].end);
    assert Inputs(hierarchical, coarse, projections, route)[|hierarchical| + i] == FromCoarse(coarse[i], i + 1, projections, route);
    CoarseExactly(coarse[i], i + 1, projections, route);
  }
}
