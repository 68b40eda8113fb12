/** When fused candidates name each section of a document once. */
module FusionSelectors {
  import opened ContentRanges
  import opened Fusion

  ghost predicate SelectorsDistinct(cs: seq<Candidate>) {
    forall i, j :: 0 <= i < j < |cs| && cs[i].doc == cs[j].doc && cs[i].id != "" ==> cs[i].id != cs[j].id
  }

  predicate Selects(cs: seq<Candidate>, doc: string, id: string) {
    exists i :: 0 <= i < |cs| && cs[i].doc == doc && cs[i].id == id
  }

  /** The candidate is merged into one without a section id and hands it an id already retained
      in the document. */
  predicate Spoils(f: Fused, c: Candidate) {
    var k := FirstMatch(f.retained, c);
    k < |f.retained| && f.retained[k].id == "" && c.id != "" && Selects(f.retained, c.doc, c.id)
  }

  lemma {:induction false} StepDistinct(f: Fused, c: Candidate)
    ensures SelectorsDistinct(Step(f, c).retained) <==> SelectorsDistinct(f.retained) && !Spoils(f, c)
  {
    var k, a, b := FirstMatch(f.retained, c), f.retained, Step(f, c).retained;
    if k == |a| {
      forall i | 0 <= i < |a| && a[i].doc == c.doc && a[i].id != "" ensures a[i].id != c.id {
        BeforeMatch(a, c, 0, i);
      }
      assert SelectorsDistinct(b) ==> SelectorsDistinct(a) by {
        assert forall i :: 0 <= i < |a| ==> b[i] == a[i];
      }
    } else {
      assert a[k].doc == c.doc;
      assert forall i :: 0 <= i < |a| && i != k ==> b[i] == a[i];
      assert b[k].doc == a[k].doc && (a[k].id != "" ==> b[k].id == a[k].id) && (a[k].id == "" ==> b[k].id == c.id);
      if Spoils(f, c) {
        var i :| 0 <= i < |a| && a[i].doc == c.doc && a[i].id == c.id;
        assert b[i].id == b[k].id && i != k;
      } else {
        MergedDistinct(a, b, k, c);
      }
    }
  }

  lemma {:induction false} MergedDistinct(a: seq<Candidate>, b: seq<Candidate>, k: nat, c: Candidate)
    requires |a| == |b| && k < |a| && a[k].doc == b[k].doc == c.doc
    requires forall i :: 0 <= i < |a| && i != k ==> b[i] == a[i]
    requires a[k].id != "" ==> b[k].id == a[k].id
    requires a[k].id == "" ==> b[k].id == c.id && (c.id == "" || !Selects(a, c.doc, c.id))
    ensures SelectorsDistinct(b) <==> SelectorsDistinct(a)
  {
    if SelectorsDistinct(a) {
      forall i, j | 0 <= i < j < |b| && b[i].doc == b[j].doc && b[i].id != "" ensures b[i].id != b[j].id {
        if a[k].id == "" && c.id != "" && i == k { assert a[j].id != c.id; }
        if a[k].id == "" && c.id != "" && j == k { assert a[i].id != c.id; }
      }
    }
    if SelectorsDistinct(b) {
      forall i, j | 0 <= i < j < |a| && a[i].doc == a[j].doc && a[i].id != "" ensures a[i].id != a[j].id {
        assert i != k ==> b[i] == a[i];
        assert j != k ==> b[j] == a[j];
      }
    }
  }

  /** The states the loop passes through. */
  ghost predicate Trace(fs: seq<Fused>, inputs: seq<Candidate>) {
    && |fs| == |inputs| + 1 && fs[0].retained == []
    && forall n: nat :: n < |inputs| ==> Follows(fs, inputs, n)
  }

  ghost predicate Follows(fs: seq<Fused>, inputs: seq<Candidate>, n: nat)
    requires |fs| == |inputs| + 1 && n < |inputs|
  {
    fs[n + 1] == Step(fs[n], inputs[n])
  }

  ghost predicate SpoiledAt(fs: seq<Fused>, inputs: seq<Candidate>, n: nat)
    requires |fs| == |inputs| + 1 && n < |inputs|
  {
    Spoils(fs[n], inputs[n])
  }

  /** `good` fails from the first `bad` step on. */
  lemma {:induction false} GoodUntilBad(good: seq<bool>, bad: seq<bool>, m: nat)
    requires m <= |bad| && |good| == |bad| + 1 && good[0]
    requires forall n: nat :: n < |bad| ==> (good[n + 1] <==> good[n] && !bad[n])
    ensures good[m] <==> forall n: nat :: n < m ==> !bad[n]
  {
    if m > 0 { GoodUntilBad(good, bad, m - 1); }
  }

  lemma {:induction false} TraceDistinct(fs: seq<Fused>, inputs: seq<Candidate>)
    requires Trace(fs, inputs)
    ensures SelectorsDistinct(fs[|inputs|].retained) <==> forall n: nat :: n < |inputs| ==> !SpoiledAt(fs, inputs, n)
  {
    var good := seq(|fs|, n requires 0 <= n < |fs| => SelectorsDistinct(fs[n].retained));
    var bad := seq(|inputs|, n requires 0 <= n < |inputs| => SpoiledAt(fs, inputs, n));
    forall n: nat | n < |inputs| ensures good[n + 1] <==> good[n] && !bad[n] {
      TraceStep(fs, inputs, n);
    }
    GoodUntilBad(good, bad, |inputs|);
    assert forall n: nat :: n < |inputs| ==> bad[n] == SpoiledAt(fs, inputs, n);
  }

  lemma {:induction false} TraceStep(fs: seq<Fused>, inputs: seq<Candidate>, n: nat)
    requires |fs| == |inputs| + 1 && n < |inputs| && Follows(fs, inputs, n)
    ensures SelectorsDistinct(fs[n + 1].retained) <==> SelectorsDistinct(fs[n].retained) && !SpoiledAt(fs, inputs, n)
  {
    StepDistinct(fs[n], inputs[n]);
  }

  ghost function Passes(inputs: seq<Candidate>): (fs: seq<Fused>)
    ensures |fs| == |inputs| + 1 && forall n :: 0 <= n <= |inputs| ==> fs[n] == Fuse(inputs[..n])
  {
    seq(|inputs| + 1, n requires 0 <= n <= |inputs| => Fuse(inputs[..n]))
  }

  lemma {:induction false} PassesTrace(inputs: seq<Candidate>)
    ensures Trace(Passes(inputs), inputs)
  {
    var fs := Passes(inputs);
    assert inputs[..0] == [];
    forall n: nat | n < |inputs| ensures Follows(fs, inputs, n) {
      FuseNext(inputs, n);
    }
  }

  /** The retained selectors are distinct exactly when no step of the run spoils them. */
  lemma {:induction false} DistinctExactly(inputs: seq<Candidate>)
    ensures SelectorsDistinct(Passes(inputs)[|inputs|].retained) <==> forall n: nat :: n < |inputs| ==> !SpoiledAt(Passes(inputs), inputs, n)
    ensures Passes(inputs)[|inputs|] == Fuse(inputs)
  {
    assert inputs[..|inputs|] == inputs;
    PassesTrace(inputs);
    TraceDistinct(Passes(inputs), inputs);
  }

  // ----- a condition on the inputs ----------------------------------------------------------------

  /** In no document does a candidate without a section id share a line with one that has an id. */
  ghost predicate Apart(inputs: seq<Candidate>) {
    forall i, j :: 0 <= i < |inputs| && 0 <= j < |inputs| ==> KeepApart(inputs[i], inputs[j])
  }

  predicate KeepApart(a: Candidate, b: Candidate) {
    a.doc == b.doc && a.id == "" && b.id != "" ==> !AnyOverlap(Lines(a), Lines(b))
  }

  /** The line comes from an input of the same document and of the same kind. */
  ghost predicate Sourced(inputs: seq<Candidate>, r: Candidate, line: int) {
    exists i :: 0 <= i < |inputs| && inputs[i].doc == r.doc && (inputs[i].id == "" <==> r.id == "") && Covered(Lines(inputs[i]), line)
  }

  ghost predicate AllSourced(inputs: seq<Candidate>, r: Candidate) {
    forall line :: Covered(Lines(r), line) ==> Sourced(inputs, r, line)
  }

  lemma {:induction false} OtherKindElsewhere(inputs: seq<Candidate>, r: Candidate, c: Candidate)
    requires Apart(inputs) && c in inputs && AllSourced(inputs, r)
    requires r.doc == c.doc && !(r.id == "" <==> c.id == "")
    ensures !AnyOverlap(Lines(r), Lines(c))
  {
    var j :| 0 <= j < |inputs| && inputs[j] == c;
    forall line | Covered(Lines(r), line) ensures !Covered(Lines(c), line) {
      assert Sourced(inputs, r, line);
      var i :| 0 <= i < |inputs| && inputs[i].doc == r.doc && (inputs[i].id == "" <==> r.id == "") && Covered(Lines(inputs[i]), line);
      assert KeepApart(inputs[i], inputs[j]) && KeepApart(inputs[j], inputs[i]);
      OverlapIsSharedLine(Lines(inputs[i]), Lines(c));
      OverlapIsSharedLine(Lines(c), Lines(inputs[i]));
    }
    OverlapIsSharedLine(Lines(r), Lines(c));
  }

  /** Candidates of different kinds are not merged while the inputs stay apart. */
  lemma {:induction false} KindsDoNotMeet(inputs: seq<Candidate>, r: Candidate, c: Candidate)
    requires Apart(inputs) && c in inputs && AllSourced(inputs, r) && SameScope(r, c).Some?
    ensures r.id == "" <==> c.id == ""
  {
    if !(r.id == "" <==> c.id == "") { OtherKindElsewhere(inputs, r, c); }
  }

  lemma {:induction false} InputSourced(inputs: seq<Candidate>, c: Candidate)
    requires c in inputs
    ensures AllSourced(inputs, c)
  {
    var j :| 0 <= j < |inputs| && inputs[j] == c;
    forall line | Covered(Lines(c), line) ensures Sourced(inputs, c, line) {
      assert Covered(Lines(inputs[j]), line);
    }
  }

  lemma {:induction false} MergeSourced(inputs: seq<Candidate>, r: Candidate, c: Candidate)
    requires AllSourced(inputs, r) && AllSourced(inputs, c) && r.doc == c.doc && (r.id == "" <==> c.id == "")
    ensures AllSourced(inputs, Merge(r, c))
  {
    forall line | Covered(Lines(Merge(r, c)), line) ensures Sourced(inputs, Merge(r, c), line) {
      MergedLines(r, c, line);
      assert Sourced(inputs, r, line) || Sourced(inputs, c, line);
    }
  }

  ghost predicate RetainedSourced(inputs: seq<Candidate>, cs: seq<Candidate>) {
    forall i :: 0 <= i < |cs| ==> AllSourced(inputs, cs[i])
  }

  lemma {:induction false} StepSourced(inputs: seq<Candidate>, f: Fused, c: Candidate)
    requires Apart(inputs) && c in inputs && RetainedSourced(inputs, f.retained)
    ensures RetainedSourced(inputs, Step(f, c).retained) && !Spoils(f, c)
  {
    var k := FirstMatch(f.retained, c);
    InputSourced(inputs, c);
    if k < |f.retained| {
      KindsDoNotMeet(inputs, f.retained[k], c);
      MergeSourced(inputs, f.retained[k], c);
    }
  }

  /** What holds at first and is kept by every step holds throughout. */
  lemma {:induction false} KeptThroughout(good: seq<bool>, n: nat)
    requires n < |good| && good[0]
    requires forall k: nat :: k < |good| - 1 ==> good[k] ==> good[k + 1]
    ensures good[n]
  {
    if n > 0 {
      KeptThroughout(good, n - 1);
      var k := n - 1;
      assert good[k] ==> good[k + 1];
    }
  }

  lemma {:induction false} TraceSourced(fs: seq<Fused>, inputs: seq<Candidate>, n: nat)
    requires Apart(inputs) && Trace(fs, inputs) && n <= |inputs|
    ensures RetainedSourced(inputs, fs[n].retained)
  {
    var good := seq(|fs|, k requires 0 <= k < |fs| => RetainedSourced(inputs, fs[k].retained));
    forall k: nat | k < |inputs| ensures good[k] ==> good[k + 1] {
      if good[k] { SourcedAfter(fs, inputs, k); }
    }
    KeptThroughout(good, n);
  }

  lemma {:induction false} SourcedAfter(fs: seq<Fused>, inputs: seq<Candidate>, n: nat)
    requires Apart(inputs) && |fs| == |inputs| + 1 && n < |inputs| && Follows(fs, inputs, n)
    requires RetainedSourced(inputs, fs[n].retained)
    ensures RetainedSourced(inputs, fs[n + 1].retained) && !SpoiledAt(fs, inputs, n)
  {
    StepSourced(inputs, fs[n], inputs[n]);
  }

  /** What a caller can check beforehand: no candidate without a section id overlaps a candidate
      with one in its document. */
  lemma {:induction false} ApartDistinct(inputs: seq<Candidate>)
    requires Apart(inputs)
    ensures SelectorsDistinct(Fuse(inputs).retained)
  {
    var fs := Passes(inputs);
    PassesTrace(inputs);
    forall n: nat | n < |inputs| ensures !SpoiledAt(fs, inputs, n) {
      TraceSourced(fs, inputs, n);
      assert Follows(fs, inputs, n);
      SourcedAfter(fs, inputs, n);
    }
    DistinctExactly(inputs);
  }

  // ----- candidates that carry the projections' own sections ----------------------------------------

  ghost predicate KnownSection(projections: map<string, seq<IndexedSection>>, doc: string, ranges: seq<Range>) {
    doc in projections && exists i :: 0 <= i < |projections[doc]| && SectionRanges(projections[doc][i]) == ranges
  }

  /** Projected sections have ids, and a hierarchical candidate repeats one of them. */
  ghost predicate Faithful(hierarchical: seq<Hierarchical>, projections: map<string, seq<IndexedSection>>) {
    && (forall doc :: doc in projections ==> forall i :: 0 <= i < |projections[doc]| ==> projections[doc][i].id != "")
    && (forall i :: 0 <= i < |hierarchical| ==>
          hierarchical[i].section.id != "" && KnownSection(projections, hierarchical[i].doc, SectionRanges(hierarchical[i].section)))
  }

  /** With an id, the candidate has a projected section's ranges; without, it touches no section. */
  ghost predicate Placed(projections: map<string, seq<IndexedSection>>, c: Candidate) {
    && (c.id != "" ==> KnownSection(projections, c.doc, Lines(c)))
    && (c.id == "" && c.doc in projections ==>
          forall i :: 0 <= i < |projections[c.doc]| ==> !AnyOverlap(Lines(c), SectionRanges(projections[c.doc][i])))
  }

  lemma {:induction false} SectionLines(doc: string, s: IndexedSection, title: Title, route: string, rank: nat)
    ensures Lines(FromSection(doc, s, title, route, rank)) == SectionRanges(s)
  {
    WrittenBack(SectionRanges(s), s.ranges, s.start, s.end);
  }

  lemma {:induction false} CoarseLines(start: int, end: int)
    requires start != 0 && end != 0
    ensures var r := Ranges([RawRange(Number(start), Number(end))], Number(start), Number(end));
            r == [] || r == [Range(start, end)]
  {
    var raws := [RawRange(Number(start), Number(end))];
    assert raws[..0] == [];
    assert ReadAll(raws) == ReadAll([]) + ReadOne(raws[0]);
  }

  lemma {:induction false} CoarsePlaced(item: Coarse, rank: nat, projections: map<string, seq<IndexedSection>>, route: string)
    requires forall doc :: doc in projections ==> forall i :: 0 <= i < |projections[doc]| ==> projections[doc][i].id != ""
    ensures Placed(projections, FromCoarse(item, rank, projections, route))
  {
    var c, start, end := FromCoarse(item, rank, projections, route), Line(item.start), Line(item.end);
    CoarseLines(start, end);
    if item.doc in projections {
      var sections := projections[item.doc];
      var best := BestSection(sections, start, end);
      if best.Some? {
        SectionLines(item.doc, best.value, c.title, route, rank);
        var i :| 0 <= i < |sections| && sections[i] == best.value;
        assert projections[item.doc][i].id != "";
      } else {
        forall i | 0 <= i < |sections| ensures !AnyOverlap(Lines(c), SectionRanges(sections[i])) {
          assert sections[i] in sections;
        }
      }
    }
  }

  lemma {:induction false} PlacedApart(projections: map<string, seq<IndexedSection>>, a: Candidate, b: Candidate)
    requires Placed(projections, a) && Placed(projections, b)
    ensures KeepApart(a, b)
  {
  }

  lemma {:induction false} InputPlaced(
      hierarchical: seq<Hierarchical>, coarse: seq<Coarse>, projections: map<string, seq<IndexedSection>>, route: string, i: nat)
    requires Faithful(hierarchical, projections) && i < |hierarchical| + |coarse|
    ensures Placed(projections, Inputs(hierarchical, coarse, projections, route)[i])
  {
    InputAt(hierarchical, coarse, projections, route, i);
    if i < |hierarchical| {
      HierarchicalPlaced(hierarchical[i], i + 1, projections);
    } else {
      CoarsePlaced(coarse[i - |hierarchical|], i - |hierarchical| + 1, projections, route);
    }
  }

  lemma {:induction false} InputAt(
      hierarchical: seq<Hierarchical>, coarse: seq<Coarse>, projections: map<string, seq<IndexedSection>>, route: string, i: nat)
    requires i < |hierarchical| + |coarse|
    ensures Inputs(hierarchical, coarse, projections, route)[i]
         == if i < |hierarchical| then FromHierarchical(hierarchical[i], i + 1)
            else FromCoarse(coarse[i - |hierarchical|], i - |hierarchical| + 1, projections, route)
  {
  }

  lemma {:induction false} HierarchicalPlaced(h: Hierarchical, rank: nat, projections: map<string, seq<IndexedSection>>)
    requires h.section.id != "" && KnownSection(projections, h.doc, SectionRanges(h.section))
    ensures Placed(projections, FromHierarchical(h, rank))
  {
    SectionLines(h.doc, h.section, h.section.title, "hierarchical-search", rank);
  }

  lemma {:induction false} AllPlacedApart(projections: map<string, seq<IndexedSection>>, inputs: seq<Candidate>)
    requires forall i :: 0 <= i < |inputs| ==> Placed(projections, inputs[i])
    ensures Apart(inputs)
  {
    forall i, j | 0 <= i < |inputs| && 0 <= j < |inputs| ensures KeepApart(inputs[i], inputs[j]) {
      PlacedApart(projections, inputs[i], inputs[j]);
    }
  }

  /** When hierarchical candidates carry the projections' own ids and ranges, no two retained
      candidates name the same section of the same document. */
  lemma {:induction false} FaithfulInputsDistinct(
      hierarchical: seq<Hierarchical>, coarse: seq<Coarse>, projections: map<string, seq<IndexedSection>>, route: string)
    requires Faithful(hierarchical, projections)
    ensures SelectorsDistinct(Fuse(Inputs(hierarchical, coarse, projections, route)).retained)
  {
    var inputs := Inputs(hierarchical, coarse, projections, route);
    forall i | 0 <= i < |inputs| ensures Placed(projections, inputs[i]) {
      InputPlaced(hierarchical, coarse, projections, route, i);
    }
    AllPlacedApart(projections, inputs);
    ApartDistinct(inputs);
  }

  // ----- rejected candidates ---------------------------------------------------------------------------

  ghost predicate HasSurvivor(cs: seq<Candidate>, r: Rejected) {
    r.mergedInto != "" ==>
      exists i :: 0 <= i < |cs| && cs[i].doc == r.doc && (cs[i].id == r.mergedInto || cs[i].title.text == r.mergedInto)
  }

  lemma {:induction false} SurvivorStays(f: Fused, c: Candidate, r: Rejected)
    requires HasSurvivor(f.retained, r)
    ensures HasSurvivor(Step(f, c).retained, r)
  {
    if r.mergedInto != "" {
      var i :| 0 <= i < |f.retained| && f.retained[i].doc == r.doc
            && (f.retained[i].id == r.mergedInto || f.retained[i].title.text == r.mergedInto);
      var b := Step(f, c).retained[i];
      assert b.doc == r.doc && (b.id == r.mergedInto || b.title.text == r.mergedInto);
    }
  }

  /** A rejected candidate names a retained one of its own document, even after later merges. */
  lemma {:induction false} RejectedHaveSurvivors(inputs: seq<Candidate>)
    ensures forall n :: 0 <= n < |Fuse(inputs).rejected| ==> HasSurvivor(Fuse(inputs).retained, Fuse(inputs).rejected[n])
  {
    if inputs != [] {
      var f, c := Fuse(inputs[..|inputs| - 1]), inputs[|inputs| - 1];
      RejectedHaveSurvivors(inputs[..|inputs| - 1]);
      var g, k := Step(f, c), FirstMatch(f.retained, c);
      forall n | 0 <= n < |g.rejected| ensures HasSurvivor(g.retained, g.rejected[n]) {
        if n < |f.rejected| {
          SurvivorStays(f, c, f.rejected[n]);
        } else {
          assert g.retained[k].doc == c.doc;
        }
      }
    }
  }

  // ----- why the condition is needed ------------------------------------------------------------------

  function Sample(id: string, title: string, line: nat): Hierarchical {
    Hierarchical("a.md", IndexedSection(id, Title(title, title), 0, [], Number(line), Number(line)))
  }

  lemma {:induction false} SampleLines(id: string, title: string, line: nat, rank: nat)
    requires line > 0
    ensures Lines(FromHierarchical(Sample(id, title, line), rank)) == [Range(line, line)]
  {
    var s := Sample(id, title, line).section;
    SectionLines("a.md", s, s.title, "hierarchical-search", rank);
  }

  lemma {:induction false} OtherTitle(b: Candidate, a: Candidate)
    requires b.id == "" && a.id != "" && b.title.key != a.title.key
    ensures SameScope(b, a).None?
  {
  }

  lemma {:induction false} SameTitle(b: Candidate, c: Candidate, line: nat)
    requires b.doc == c.doc && b.title.key == c.title.key != "" && Lines(b) == Lines(c) == [Range(line, line)]
    ensures SameScope(b, c).Some?
  {
    assert Overlaps(line, line, Lines(c)) by { assert Lines(c)[0].start <= line <= Lines(c)[0].end; }
    assert Lines(b)[0] == Range(line, line);
    assert AnyOverlap(Lines(b), Lines(c));
  }

  /** A hit without an id picks up, through its title, the id of a section already retained. */
  lemma {:induction false} UnfaithfulRepeats()
    ensures var a := FromHierarchical(Sample("s1", "intro", 1), 2);
            var b := FromHierarchical(Sample("", "scope", 5), 1);
            var c := FromHierarchical(Sample("s1", "scope", 5), 3);
            && Spoils(Fuse([b, a]), c)
            && !SelectorsDistinct(Fuse([b, a, c]).retained)
  {
    var a := FromHierarchical(Sample("s1", "intro", 1), 2);
    var b := FromHierarchical(Sample("", "scope", 5), 1);
    var c := FromHierarchical(Sample("s1", "scope", 5), 3);
    SampleLines("", "scope", 5, 1);
    SampleLines("s1", "scope", 5, 3);
    SameTitle(b, c, 5);
    assert b.title.key[0] != a.title.key[0];
    OtherTitle(b, a);
    ThirdSpoils(b, a, c);
  }

  lemma {:induction false} FirstAlone(b: Candidate)
    ensures Fuse([b]).retained == [b]
  {
    FuseSnoc([], b);
    assert [] + [b] == [b];
  }

  lemma {:induction false} TwoApart(b: Candidate, a: Candidate)
    requires SameScope(b, a).None?
    ensures Fuse([b, a]).retained == [b, a]
  {
    FirstAlone(b);
    FuseSnoc([b], a);
    assert [b] + [a] == [b, a];
    FirstOf([b], a, 1);
  }

  lemma {:induction false} ThirdSpoils(b: Candidate, a: Candidate, c: Candidate)
    requires b.id == "" && a.id == c.id != "" && a.doc == c.doc
    requires SameScope(b, a).None? && SameScope(b, c).Some?
    ensures Spoils(Fuse([b, a]), c) && !SelectorsDistinct(Fuse([b, a, c]).retained)
  {
    TwoApart(b, a);
    SpoilFrom(Fuse([b, a]), b, a, c);
    FuseSnoc([b, a], c);
    assert [b, a] + [c] == [b, a, c];
  }

  lemma {:induction false} SpoilFrom(f: Fused, b: Candidate, a: Candidate, c: Candidate)
    requires b.id == "" && a.id == c.id != "" && a.doc == c.doc
    requires f.retained == [b, a] && SameScope(b, c).Some?
    ensures Spoils(f, c) && !SelectorsDistinct(Step(f, c).retained)
  {
    FirstOf(f.retained, c, 0);
    assert f.retained[1].id == c.id;
    StepDistinct(f, c);
  }

  lemma {:induction false} FirstOf(cs: seq<Candidate>, c: Candidate, k: nat)
    requires k <= |cs| && forall i :: 0 <= i < k ==> SameScope(cs[i], c).None?
    requires k < |cs| ==> SameScope(cs[k], c).Some?
    ensures FirstMatch(cs, c) == k
  {
    MatchAt(cs, c, 0, k);
  }

  lemma {:induction false} MatchAt(cs: seq<Candidate>, c: Candidate, j: nat, k: nat)
    requires j <= k <= |cs| && forall i :: j <= i < k ==> SameScope(cs[i], c).None?
    requires k < |cs| ==> SameScope(cs[k], c).Some?
    ensures MatchFrom(cs, c, j) == k
    decreases k - j
  {
    if j < k { MatchAt(cs, c, j + 1, k); }
  }
}
