/** Fusing hierarchical and coarse retrieval candidates that cover the same scope. */
module Fusion {
  import opened Basics
  import opened ContentRanges

  // ----- reading line ranges ---------------------------------------------------------------------

  /** A line number as a record gives it: missing, a number, or text no number can be read from. */
  datatype Raw = Absent | Number(n: int) | Unreadable

  datatype RawRange = NotAnObject | RawRange(start: Raw, end: Raw)

  /** `int(raw or default)`. */
  function Read(raw: Raw, default: int): Option<int> {
    match raw
    case Absent => Some(default)
    case Number(n) => Some(if n == 0 then default else n)
    case Unreadable => None
  }

  function Valid(start: Option<int>, end: Option<int>): (r: seq<Range>)
    ensures |r| <= 1
    ensures forall i :: 0 <= i < |r| ==> 1 <= r[i].start <= r[i].end
  {
    if start.Some? && end.Some? && 1 <= start.value <= end.value then [Range(start.value, end.value)] else []
  }

  function ReadOne(raw: RawRange): seq<Range> {
    match raw
    case NotAnObject => []
    case RawRange(start, end) => Valid(Read(start, 1), Read(end, 1))
  }

  function ReadAll(raws: seq<RawRange>): (r: seq<Range>)
    ensures forall i :: 0 <= i < |r| ==> 1 <= r[i].start <= r[i].end
  {
    if raws == [] then [] else ReadAll(raws[..|raws| - 1]) + ReadOne(raws[|raws| - 1])
  }

  function Whole(start: Raw, end: Raw): seq<Range> {
    var first := Read(start, 1);
    if first.None? then [] else Valid(first, Read(end, first.value))
  }

  /** The usable ranges, or the whole span when there are none. */
  function Ranges(raws: seq<RawRange>, start: Raw, end: Raw): (r: seq<Range>)
    ensures forall i :: 0 <= i < |r| ==> 1 <= r[i].start <= r[i].end
  {
    if ReadAll(raws) != [] then ReadAll(raws) else Whole(start, end)
  }

  method RangesFor(raws: seq<RawRange>, start: Raw, end: Raw) returns (ranges: seq<Range>)
    ensures ranges == Ranges(raws, start, end)
  {
    ranges := [];
    for n := 0 to |raws|
      invariant ranges == ReadAll(raws[..n])
    {
      assert raws[..n + 1][..n] == raws[..n];
      ranges := ranges + ReadOne(raws[n]);
    }
    assert raws[..|raws|] == raws;
    if ranges == [] { ranges := Whole(start, end); }
  }

  /** The line a field stands for: its number, or the default when it is missing or zero. */
  predicate Means(raw: Raw, default: int, line: int) {
    (raw == Absent && line == default) || (raw.Number? && line == if raw.n == 0 then default else raw.n)
  }

  /** The item of a record is readable as this range. */
  predicate Usable(raw: RawRange, r: Range) {
    raw.RawRange? && Means(raw.start, 1, r.start) && Means(raw.end, 1, r.end) && 1 <= r.start <= r.end
  }

  /** The span of the record itself is: a missing end is the start. */
  predicate UsableSpan(start: Raw, end: Raw, r: Range) {
    Means(start, 1, r.start) && Means(end, r.start, r.end) && 1 <= r.start <= r.end
  }

  lemma {:induction false} ReadOneExactly(raw: RawRange, r: Range)
    ensures r in ReadOne(raw) <==> Usable(raw, r)
  {
  }

  lemma {:induction false} ReadAllExactly(raws: seq<RawRange>, r: Range)
    ensures r in ReadAll(raws) <==> exists raw :: raw in raws && Usable(raw, r)
  {
    if raws != [] {
      var front, last := raws[..|raws| - 1], raws[|raws| - 1];
      ReadAllExactly(front, r);
      ReadOneExactly(last, r);
      assert raws == front + [last];
    }
  }

  /** A section's ranges are its usable items, and only without any its own span, if that is usable. */
  lemma {:induction false} RangesExactly(raws: seq<RawRange>, start: Raw, end: Raw, r: Range)
    ensures r in Ranges(raws, start, end) <==>
              if exists raw, other :: raw in raws && Usable(raw, other) then exists raw :: raw in raws && Usable(raw, r)
              else UsableSpan(start, end, r)
  {
    ReadAllExactly(raws, r);
    if ReadAll(raws) != [] {
      assert ReadAll(raws)[0] in ReadAll(raws);
      ReadAllExactly(raws, ReadAll(raws)[0]);
    } else {
      forall raw, other | raw in raws ensures !Usable(raw, other) { ReadAllExactly(raws, other); }
    }
  }

  /** They come in the order of the items they were read from. */
  lemma {:induction false} ReadInOrder(a: seq<RawRange>, b: seq<RawRange>)
    ensures ReadAll(a + b) == ReadAll(a) + ReadAll(b)
  {
    if b == [] {
      assert a + b == a;
    } else {
      var front, last := b[..|b| - 1], b[|b| - 1];
      assert (a + b)[..|a + b| - 1] == a + front;
      ReadInOrder(a, front);
    }
  }

  function AsRaw(ranges: seq<Range>): (raws: seq<RawRange>)
    ensures |raws| == |ranges|
    ensures forall i :: 0 <= i < |raws| ==> raws[i] == RawRange(Number(ranges[i].start), Number(ranges[i].end))
  {
    seq(|ranges|, i requires 0 <= i < |ranges| => RawRange(Number(ranges[i].start), Number(ranges[i].end)))
  }

  lemma {:induction false} ReadSnoc(raws: seq<RawRange>, r: RawRange)
    ensures ReadAll(raws + [r]) == ReadAll(raws) + ReadOne(r)
  {
    assert (raws + [r])[..|raws|] == raws;
  }

  lemma {:induction false} ReadBackOne(r: Range)
    requires 1 <= r.start <= r.end
    ensures ReadOne(RawRange(Number(r.start), Number(r.end))) == [r]
  {
  }

  /** Ranges once read are read back unchanged. */
  lemma {:induction false} ReadBack(ranges: seq<Range>)
    requires forall i :: 0 <= i < |ranges| ==> 1 <= ranges[i].start <= ranges[i].end
    ensures ReadAll(AsRaw(ranges)) == ranges
  {
    if ranges != [] {
      var front, last := ranges[..|ranges| - 1], ranges[|ranges| - 1];
      ReadBack(front);
      assert AsRaw(ranges) == AsRaw(front) + [RawRange(Number(last.start), Number(last.end))];
      ReadSnoc(AsRaw(front), RawRange(Number(last.start), Number(last.end)));
      ReadBackOne(last);
      assert ranges == front + [last];
    }
  }

  predicate Overlaps(start: int, end: int, ranges: seq<Range>) {
    exists i :: 0 <= i < |ranges| && start <= ranges[i].end && end >= ranges[i].start
  }

  predicate AnyOverlap(left: seq<Range>, right: seq<Range>) {
    exists i :: 0 <= i < |left| && Overlaps(left[i].start, left[i].end, right)
  }

  /** Two lists of ranges overlap exactly when they share a line. */
  lemma {:induction false} OverlapIsSharedLine(left: seq<Range>, right: seq<Range>)
    requires forall i :: 0 <= i < |left| ==> left[i].start <= left[i].end
    requires forall i :: 0 <= i < |right| ==> right[i].start <= right[i].end
    ensures AnyOverlap(left, right) <==> exists line :: Covered(left, line) && Covered(right, line)
  {
    if AnyOverlap(left, right) {
      var i :| 0 <= i < |left| && Overlaps(left[i].start, left[i].end, right);
      var j :| 0 <= j < |right| && left[i].start <= right[j].end && left[i].end >= right[j].start;
      var line := Max(left[i].start, right[j].start);
      assert Holds(left[i], line) && Holds(right[j], line);
      assert Covered(left, line) && Covered(right, line);
    }
    forall line | Covered(left, line) && Covered(right, line) ensures AnyOverlap(left, right) {
      var i :| 0 <= i < |left| && Holds(left[i], line);
      var j :| 0 <= j < |right| && Holds(right[j], line);
      assert left[i].start <= right[j].end && left[i].end >= right[j].start;
      assert Overlaps(left[i].start, left[i].end, right);
    }
  }

  // ----- the section a coarse hit falls in --------------------------------------------------------

  /** A title with the key it is compared under. */
  datatype Title = Title(text: string, key: string)

  datatype IndexedSection = IndexedSection(id: string, title: Title, depth: nat, ranges: seq<RawRange>, start: Raw, end: Raw)

  function SectionRanges(s: IndexedSection): seq<Range> { Ranges(s.ranges, s.start, s.end) }

  function Span(ranges: seq<Range>): int {
    if ranges == [] then 0 else Span(ranges[..|ranges| - 1]) + ranges[|ranges| - 1].end - ranges[|ranges| - 1].start + 1
  }

  /** The narrowest section first, then the deepest, then the smaller id. */
  predicate Better(a: IndexedSection, b: IndexedSection) {
    var x, y := Span(SectionRanges(a)), Span(SectionRanges(b));
    x < y || (x == y && (a.depth > b.depth || (a.depth == b.depth && a.id != b.id && StringLeq(a.id, b.id))))
  }

  function BestSection(sections: seq<IndexedSection>, start: int, end: int): (best: Option<IndexedSection>)
    ensures best.Some? ==> best.value in sections && Overlaps(start, end, SectionRanges(best.value))
    ensures best.None? <==> forall s :: s in sections ==> !Overlaps(start, end, SectionRanges(s))
  {
    if sections == [] then None
    else
      var front, s := sections[..|sections| - 1], sections[|sections| - 1];
      assert sections == front + [s];
      var best := BestSection(front, start, end);
      if !Overlaps(start, end, SectionRanges(s)) then best
      else if best.None? || Better(s, best.value) then Some(s)
      else best
  }

  lemma {:induction false} BetterOrder(a: IndexedSection, b: IndexedSection, c: IndexedSection)
    ensures !Better(a, a)
    ensures !Better(a, b) && !Better(b, c) ==> !Better(a, c)
    ensures Better(a, b) ==> !Better(b, a)
  {
    StringOrder();
  }

  /** No matching section is better than the one chosen. */
  lemma {:induction false} BestIsLeast(sections: seq<IndexedSection>, start: int, end: int, s: IndexedSection)
    requires s in sections && Overlaps(start, end, SectionRanges(s))
    ensures BestSection(sections, start, end).Some? && !Better(s, BestSection(sections, start, end).value)
  {
    var front, last := sections[..|sections| - 1], sections[|sections| - 1];
    var before, best := BestSection(front, start, end), BestSection(sections, start, end).value;
    if s in front {
      BestIsLeast(front, start, end, s);
      if best != before.value {
        BetterOrder(s, before.value, best);
        BetterOrder(best, before.value, s);
      }
    } else {
      assert s == last;
      BetterOrder(s, s, s);
    }
  }

  method FindBestSection(sections: seq<IndexedSection>, start: int, end: int) returns (best: Option<IndexedSection>)
    ensures best == BestSection(sections, start, end)
  {
    best := None;
    for n := 0 to |sections|
      invariant best == BestSection(sections[..n], start, end)
    {
      assert sections[..n + 1][..n] == sections[..n];
      var ranges := RangesFor(sections[n].ranges, sections[n].start, sections[n].end);
      if Overlaps(start, end, ranges) && (best.None? || Better(sections[n], best.value)) { best := Some(sections[n]); }
    }
    assert sections[..|sections|] == sections;
  }

  // ----- candidates --------------------------------------------------------------------------------

  /** A missing section id is the empty string. */
  datatype Candidate = Candidate(doc: string, id: string, title: Title, ranges: seq<RawRange>, start: Raw, end: Raw,
                                 ranks: map<string, nat>)

  function Lines(c: Candidate): (r: seq<Range>)
    ensures forall i :: 0 <= i < |r| ==> 1 <= r[i].start <= r[i].end
  {
    Ranges(c.ranges, c.start, c.end)
  }

  datatype Hierarchical = Hierarchical(doc: string, section: IndexedSection)

  datatype Coarse = Coarse(doc: string, heading: Title, start: Option<int>, end: Option<int>)

  function FromSection(doc: string, s: IndexedSection, title: Title, route: string, rank: nat): Candidate {
    Candidate(doc, s.id, title, AsRaw(SectionRanges(s)), s.start, s.end, map[route := rank])
  }

  function FromHierarchical(item: Hierarchical, rank: nat): Candidate {
    FromSection(item.doc, item.section, item.section.title, "hierarchical-search", rank)
  }

  function Line(n: Option<int>): int { if n.Some? && n.value != 0 then n.value else 1 }

  function FromCoarse(item: Coarse, rank: nat, projections: map<string, seq<IndexedSection>>, route: string): Candidate {
    var start, end := Line(item.start), Line(item.end);
    var best := if item.doc in projections then BestSection(projections[item.doc], start, end) else None;
    if best.Some? then
      FromSection(item.doc, best.value, if best.value.title.text != "" then best.value.title else item.heading, route, rank)
    else
      Candidate(item.doc, "", item.heading, [RawRange(Number(start), Number(end))], Number(start), Number(end), map[route := rank])
  }

  datatype Reason = DuplicateSection | DuplicateTitleRange | DuplicateDocumentRange

  function SameScope(left: Candidate, right: Candidate): Option<Reason> {
    if left.doc != right.doc then None
    else if left.id != "" && left.id == right.id then Some(DuplicateSection)
    else
      var overlap := AnyOverlap(Lines(left), Lines(right));
      if left.title.key != "" && left.title.key == right.title.key && overlap then Some(DuplicateTitleRange)
      else if left.id == "" && right.id == "" && overlap then Some(DuplicateDocumentRange)
      else None
  }

  /** The ranges of both, sorted, each once. */
  function Union(a: seq<Range>, b: seq<Range>): seq<Range> { Sort(RangeLeq, Dedupe(a + b)) }

  function Merge(target: Candidate, incoming: Candidate): Candidate {
    target.(ranks := target.ranks + incoming.ranks,
            id := if target.id == "" then incoming.id else target.id,
            title := if target.title.text == "" then incoming.title else target.title,
            ranges := AsRaw(Union(Lines(target), Lines(incoming))))
  }

  datatype Rejected = Rejected(doc: string, title: Title, reason: Reason, mergedInto: string)

  function Label(c: Candidate): string { if c.id != "" then c.id else c.title.text }

  datatype Fused = Fused(retained: seq<Candidate>, rejected: seq<Rejected>)

  /** The first candidate of the same scope, from index `k` on. */
  function MatchFrom(retained: seq<Candidate>, c: Candidate, k: nat): (m: nat)
    requires k <= |retained|
    ensures k <= m <= |retained|
    decreases |retained| - k
  {
    if k == |retained| || SameScope(retained[k], c).Some? then k else MatchFrom(retained, c, k + 1)
  }

  function FirstMatch(retained: seq<Candidate>, c: Candidate): (k: nat)
    ensures k <= |retained|
    ensures k < |retained| ==> SameScope(retained[k], c).Some?
  {
    MatchIsSame(retained, c, 0);
    MatchFrom(retained, c, 0)
  }

  lemma {:induction false} MatchIsSame(retained: seq<Candidate>, c: Candidate, k: nat)
    requires k <= |retained|
    ensures var m := MatchFrom(retained, c, k);
            m < |retained| ==> SameScope(retained[m], c).Some?
    decreases |retained| - k
  {
    if k < |retained| && SameScope(retained[k], c).None? { MatchIsSame(retained, c, k + 1); }
  }

  lemma {:induction false} BeforeMatch(retained: seq<Candidate>, c: Candidate, k: nat, i: nat)
    requires k <= |retained| && k <= i < MatchFrom(retained, c, k)
    ensures SameScope(retained[i], c).None?
    decreases |retained| - k
  {
    if i > k { BeforeMatch(retained, c, k + 1, i); }
  }

  function Step(f: Fused, c: Candidate): Fused {
    var k := FirstMatch(f.retained, c);
    if k == |f.retained| then f.(retained := f.retained + [c])
    else
      var merged := Merge(f.retained[k], c);
      Fused(f.retained[k := merged],
            f.rejected + [Rejected(c.doc, c.title, SameScope(f.retained[k], c).value, Label(merged))])
  }

  function Fuse(inputs: seq<Candidate>): Fused {
    if inputs == [] then Fused([], []) else Step(Fuse(inputs[..|inputs| - 1]), inputs[|inputs| - 1])
  }

  lemma {:induction false} FuseSnoc(front: seq<Candidate>, c: Candidate)
    ensures Fuse(front + [c]) == Step(Fuse(front), c)
  {
    assert (front + [c])[..|front|] == front;
  }

  lemma {:induction false} FuseNext(inputs: seq<Candidate>, n: nat)
    requires n < |inputs|
    ensures Fuse(inputs[..n + 1]) == Step(Fuse(inputs[..n]), inputs[n])
  {
    assert inputs[..n + 1] == inputs[..n] + [inputs[n]];
    FuseSnoc(inputs[..n], inputs[n]);
  }

  function Inputs(hierarchical: seq<Hierarchical>, coarse: seq<Coarse>, projections: map<string, seq<IndexedSection>>,
                  route: string): (r: seq<Candidate>)
    ensures |r| == |hierarchical| + |coarse|
  {
    seq(|hierarchical|, i requires 0 <= i < |hierarchical| => FromHierarchical(hierarchical[i], i + 1))
    + seq(|coarse|, i requires 0 <= i < |coarse| => FromCoarse(coarse[i], i + 1, projections, route))
  }

  method FuseCandidates(hierarchical: seq<Hierarchical>, coarse: seq<Coarse>, projections: map<string, seq<IndexedSection>>, route: string)
      returns (retained: seq<Candidate>, rejected: seq<Rejected>)
    ensures Fused(retained, rejected) == Fuse(Inputs(hierarchical, coarse, projections, route))
  {
    var inputs := Inputs(hierarchical, coarse, projections, route);
    retained, rejected := [], [];
    for n := 0 to |inputs|
      invariant Fused(retained, rejected) == Fuse(inputs[..n])
    {
      FuseNext(inputs, n);
      retained, rejected := Absorb(retained, rejected, inputs[n]);
    }
    assert inputs[..|inputs|] == inputs;
  }

  method Absorb(retained: seq<Candidate>, rejected: seq<Rejected>, c: Candidate)
      returns (kept: seq<Candidate>, dropped: seq<Rejected>)
    ensures Fused(kept, dropped) == Step(Fused(retained, rejected), c)
  {
    var k := FindMatch(retained, c);
    if k == |retained| { return retained + [c], rejected; }
    var merged := Merge(retained[k], c);
    return retained[k := merged], rejected + [Rejected(c.doc, c.title, SameScope(retained[k], c).value, Label(merged))];
  }

  method FindMatch(retained: seq<Candidate>, c: Candidate) returns (k: nat)
    ensures k == FirstMatch(retained, c)
  {
    k := 0;
    while k < |retained| && SameScope(retained[k], c).None?
      invariant k <= |retained| && MatchFrom(retained, c, k) == FirstMatch(retained, c)
    {
      k := k + 1;
    }
  }

  // ----- nothing is lost ---------------------------------------------------------------------------

  ghost predicate Covers(cs: seq<Candidate>, doc: string, line: int) {
    exists i :: 0 <= i < |cs| && cs[i].doc == doc && Covered(Lines(cs[i]), line)
  }

  ghost predicate HasRoute(cs: seq<Candidate>, doc: string, route: string) {
    exists i :: 0 <= i < |cs| && cs[i].doc == doc && route in cs[i].ranks
  }

  lemma {:induction false} UnionMembers(a: seq<Range>, b: seq<Range>)
    ensures forall r :: r in Union(a, b) <==> r in a + b
    ensures Union(a, b) == [] <==> a + b == []
  {
    SameMultisetSameMembers(Union(a, b), Dedupe(a + b));
    if Union(a, b) != [] { assert Union(a, b)[0] in Union(a, b); }
    if a + b != [] { assert (a + b)[0] in a + b; }
  }

  lemma {:induction false} WrittenBack(ranges: seq<Range>, raws: seq<RawRange>, start: Raw, end: Raw)
    requires forall i :: 0 <= i < |ranges| ==> 1 <= ranges[i].start <= ranges[i].end
    requires ranges == [] ==> Ranges(raws, start, end) == []
    ensures Ranges(AsRaw(ranges), start, end) == ranges
  {
    ReadBack(ranges);
  }

  lemma {:induction false} UnionValid(a: seq<Range>, b: seq<Range>)
    requires forall r :: r in a + b ==> 1 <= r.start <= r.end
    ensures forall i :: 0 <= i < |Union(a, b)| ==> 1 <= Union(a, b)[i].start <= Union(a, b)[i].end
  {
    UnionMembers(a, b);
    forall i | 0 <= i < |Union(a, b)| ensures 1 <= Union(a, b)[i].start <= Union(a, b)[i].end {
      assert Union(a, b)[i] in Union(a, b);
    }
  }

  /** A merged candidate has the ranges of both, each once. */
  lemma {:induction false} MergedRanges(t: Candidate, c: Candidate)
    ensures Lines(Merge(t, c)) == Union(Lines(t), Lines(c))
  {
    UnionMembers(Lines(t), Lines(c));
    UnionValid(Lines(t), Lines(c));
    WrittenBack(Union(Lines(t), Lines(c)), t.ranges, t.start, t.end);
  }

  /** A merged candidate covers the lines of both. */
  lemma {:induction false} MergedLines(t: Candidate, c: Candidate, line: int)
    ensures Covered(Lines(Merge(t, c)), line) <==> Covered(Lines(t), line) || Covered(Lines(c), line)
  {
    MergedRanges(t, c);
    UnionMembers(Lines(t), Lines(c));
    SameRangesSameLines(Union(Lines(t), Lines(c)), Lines(t) + Lines(c), line);
    AppendCovers(Lines(t), Lines(c), line);
  }

  lemma {:induction false} SameRangesSameLines(a: seq<Range>, b: seq<Range>, line: int)
    requires forall r :: r in a <==> r in b
    ensures Covered(a, line) <==> Covered(b, line)
  {
    if i :| 0 <= i < |a| && Holds(a[i], line) {
      assert a[i] in b;
    }
    if i :| 0 <= i < |b| && Holds(b[i], line) {
      assert b[i] in a;
    }
  }

  lemma {:induction false} AppendCovers(a: seq<Range>, b: seq<Range>, line: int)
    ensures Covered(a + b, line) <==> Covered(a, line) || Covered(b, line)
  {
    if i :| 0 <= i < |a| && Holds(a[i], line) {
      assert (a + b)[i] == a[i];
    }
    if i :| 0 <= i < |b| && Holds(b[i], line) {
      assert (a + b)[|a| + i] == b[i];
    }
  }

  /** One step adds the candidate's lines and routes to its document and changes nothing else. */
  lemma {:induction false} StepCovers(f: Fused, c: Candidate, doc: string, line: int)
    ensures Covers(Step(f, c).retained, doc, line) <==> Covers(f.retained, doc, line) || (c.doc == doc && Covered(Lines(c), line))
  {
    var k := FirstMatch(f.retained, c);
    var after := Step(f, c).retained;
    if k < |f.retained| {
      MergedLines(f.retained[k], c, line);
      assert after[k] == Merge(f.retained[k], c);
      if i :| 0 <= i < |f.retained| && f.retained[i].doc == doc && Covered(Lines(f.retained[i]), line) {
        assert after[i].doc == doc && Covered(Lines(after[i]), line);
      }
    } else {
      assert after[k] == c;
      if i :| 0 <= i < |f.retained| && f.retained[i].doc == doc && Covered(Lines(f.retained[i]), line) {
        assert after[i] == f.retained[i];
      }
    }
  }

  lemma {:induction false} StepRoutes(f: Fused, c: Candidate, doc: string, route: string)
    ensures HasRoute(Step(f, c).retained, doc, route) <==> HasRoute(f.retained, doc, route) || (c.doc == doc && route in c.ranks)
  {
    var k := FirstMatch(f.retained, c);
    var after := Step(f, c).retained;
    if k < |f.retained| { assert after[k] == Merge(f.retained[k], c); } else { assert after[k] == c; }
    if i :| 0 <= i < |f.retained| && f.retained[i].doc == doc && route in f.retained[i].ranks {
      assert after[i].doc == doc && route in after[i].ranks;
    }
  }

  lemma {:induction false} CoversFront(cs: seq<Candidate>, doc: string, line: int)
    requires cs != []
    ensures var front, c := cs[..|cs| - 1], cs[|cs| - 1];
            Covers(cs, doc, line) <==> Covers(front, doc, line) || (c.doc == doc && Covered(Lines(c), line))
  {
    var front := cs[..|cs| - 1];
    if i :| 0 <= i < |front| && front[i].doc == doc && Covered(Lines(front[i]), line) {
      assert cs[i] == front[i];
    }
  }

  /** Every input is retained or rejected, and each document keeps exactly the lines and the
      routes its inputs had. */
  lemma {:induction false} WorkConserved(inputs: seq<Candidate>)
    ensures |Fuse(inputs).retained| + |Fuse(inputs).rejected| == |inputs|
    ensures forall doc, line :: Covers(Fuse(inputs).retained, doc, line) <==> Covers(inputs, doc, line)
    ensures forall doc, route :: HasRoute(Fuse(inputs).retained, doc, route) <==> HasRoute(inputs, doc, route)
  {
    if inputs != [] {
      var front, c := inputs[..|inputs| - 1], inputs[|inputs| - 1];
      WorkConserved(front);
      forall doc, line ensures Covers(Fuse(inputs).retained, doc, line) <==> Covers(inputs, doc, line) {
        StepCovers(Fuse(front), c, doc, line);
        CoversFront(inputs, doc, line);
      }
      forall doc, route ensures HasRoute(Fuse(inputs).retained, doc, route) <==> HasRoute(inputs, doc, route) {
        StepRoutes(Fuse(front), c, doc, route);
        RoutesFront(inputs, doc, route);
      }
    }
  }

  lemma {:induction false} RoutesFront(cs: seq<Candidate>, doc: string, route: string)
    requires cs != []
    ensures var front, c := cs[..|cs| - 1], cs[|cs| - 1];
            HasRoute(cs, doc, route) <==> HasRoute(front, doc, route) || (c.doc == doc && route in c.ranks)
  {
    var front := cs[..|cs| - 1];
    if i :| 0 <= i < |front| && front[i].doc == doc && route in front[i].ranks {
      assert cs[i] == front[i];
    }
  }
}
