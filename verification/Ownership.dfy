/** The stack outline and the child subtraction agree: from any document text, every
    section owns exactly the lines from its heading to the line before the next heading. */
module Ownership {
  import opened Basics
  import opened TextLines
  import opened Outline
  import opened ContentRanges

  /** What the proofs below need of an outline over `total` lines. */
  ghost predicate WellBuilt(entries: seq<Entry>, total: nat) {
    && (forall i :: 0 <= i < |entries| ==> 1 <= entries[i].startLine <= total)
    && (forall i, j :: 0 <= i < j < |entries| ==> entries[i].startLine < entries[j].startLine)
    && (forall i, j :: 0 <= i < j < |entries| ==> entries[i].id != entries[j].id)
    && (forall i {:trigger EndsAt(entries, total, i, entries[i].endLine)} ::
          0 <= i < |entries| ==> EndsAt(entries, total, i, entries[i].endLine))
    && (forall i {:trigger Parent(entries, i)} :: 0 <= i < |entries| ==>
          var p := Parent(entries, i);
          entries[i].parent == if p.Some? then Some(entries[p.value].id) else None)
  }

  lemma {:induction false} OutlineWellBuilt(lines: seq<string>, base: (string, nat) -> string, entries: seq<Entry>)
    requires IsOutline(lines, base, entries)
    ensures WellBuilt(entries, |lines|)
  {
    IdsDistinct(entries, base);
    var hs := HeadingsUpTo(lines, |lines|);
    forall i | 0 <= i < |entries|
      ensures var p := Parent(entries, i);
              entries[i].parent == if p.Some? then Some(entries[p.value].id) else None
    {
      assert LinkedAt(entries, base, i);
    }
    assert forall i :: 0 <= i < |hs| ==> entries[i].startLine == hs[i].line;
  }

  // ----- nesting ------------------------------------------------------------------------

  /** Heading `j` lies in the scope opened by heading `i`. */
  ghost predicate Nested(entries: seq<Entry>, i: nat, j: nat) {
    i < j < |entries| && forall k :: i < k <= j ==> entries[k].level > entries[i].level
  }

  /** The heading a line falls under: the last one at or above it. */
  ghost predicate Under(entries: seq<Entry>, line: nat, m: nat) {
    && m < |entries| && entries[m].startLine <= line
    && forall k :: m < k < |entries| ==> entries[k].startLine > line
  }

  lemma {:induction false} UnderExists(entries: seq<Entry>, line: nat, n: nat) returns (m: nat)
    requires n < |entries| && entries[0].startLine <= line
    requires forall k :: n < k < |entries| ==> entries[k].startLine > line
    ensures Under(entries, line, m)
    decreases n
  {
    if entries[n].startLine <= line { m := n; } else { m := UnderExists(entries, line, n - 1); }
  }

  /** A scope holds a line exactly when it is the line's own heading's or one enclosing it. */
  lemma {:induction false} ScopeHolds(entries: seq<Entry>, total: nat, line: nat, m: nat, i: nat)
    requires WellBuilt(entries, total) && line <= total && Under(entries, line, m) && i < |entries|
    ensures InScope(entries[i], line) <==> i == m || Nested(entries, i, m)
  {
    var end := entries[i].endLine;
    assert EndsAt(entries, total, i, end);
    if i <= m && (exists j :: i < j < |entries| && entries[j].level <= entries[i].level) {
      assert exists c :: i < c < |entries| && Closes(entries, i, c) && end == entries[c].startLine - 1;
      var c :| i < c < |entries| && Closes(entries, i, c) && end == entries[c].startLine - 1;
      assert c > m <==> entries[c].startLine > line;
    }
  }

  lemma {:induction false} ParentEncloses(entries: seq<Entry>, i: nat)
    requires i < |entries| && Parent(entries, i).Some?
    ensures Nested(entries, Parent(entries, i).value, i)
  {
  }

  /** Below any enclosing heading there is a direct child on the way down. */
  lemma {:induction false} ChildOnTheWay(entries: seq<Entry>, i: nat, m: nat) returns (c: nat)
    requires Nested(entries, i, m)
    ensures i < c <= m && Parent(entries, c) == Some(i)
    ensures c == m || Nested(entries, c, m)
    decreases m
  {
    var p := Parent(entries, m);
    assert p.Some? && p.value >= i;
    if p.value == i {
      c := m;
    } else {
      c := ChildOnTheWay(entries, i, p.value);
    }
  }

  /** Scopes nest: a child's scope lies strictly inside its parent's. */
  lemma {:induction false} ChildInsideParent(entries: seq<Entry>, total: nat, i: nat)
    requires WellBuilt(entries, total) && i < |entries| && Parent(entries, i).Some?
    ensures var p := Parent(entries, i).value;
            entries[p].startLine < entries[i].startLine <= entries[i].endLine <= entries[p].endLine
  {
    var p, last := Parent(entries, i).value, entries[i].endLine;
    ScopeNotEmpty(entries, total, i);
    LastLineOfScope(entries, total, i);
    var m := UnderExists(entries, last, |entries| - 1);
    ScopeHolds(entries, total, last, m, i);
    ScopeHolds(entries, total, last, m, p);
    ParentEncloses(entries, i);
    assert InScope(entries[i], last);
    assert Nested(entries, p, m);
    assert InScope(entries[p], last);
  }

  lemma {:induction false} ScopeNotEmpty(entries: seq<Entry>, total: nat, i: nat)
    requires WellBuilt(entries, total) && i < |entries|
    ensures 1 <= entries[i].startLine <= entries[i].endLine <= total
  {
    assert EndsAt(entries, total, i, entries[i].endLine);
  }

  lemma {:induction false} LastLineOfScope(entries: seq<Entry>, total: nat, i: nat)
    requires WellBuilt(entries, total) && i < |entries|
    ensures entries[0].startLine <= entries[i].endLine
  {
    ScopeNotEmpty(entries, total, i);
    assert i > 0 ==> entries[0].startLine < entries[i].startLine;
  }

  /** Scopes of different sections are disjoint unless one encloses the other; siblings never share a line. */
  lemma {:induction false} SiblingsDisjoint(entries: seq<Entry>, total: nat, i: nat, j: nat, line: nat)
    requires WellBuilt(entries, total) && i < j < |entries|
    requires Parent(entries, i) == Parent(entries, j)
    ensures !(InScope(entries[i], line) && InScope(entries[j], line))
  {
    if entries[0].startLine <= line <= total {
      var m := UnderExists(entries, line, |entries| - 1);
      ScopeHolds(entries, total, line, m, i);
      ScopeHolds(entries, total, line, m, j);
      NestedLower(entries, i, j);
    } else {
      ScopeNotEmpty(entries, total, j);
      assert entries[0].startLine < entries[j].startLine;
    }
  }

  lemma {:induction false} NestedLower(entries: seq<Entry>, i: nat, j: nat)
    requires i < j < |entries|
    ensures Nested(entries, i, j) ==> Parent(entries, i) != Parent(entries, j)
  {
    if Nested(entries, i, j) { assert Parent(entries, j).Some? && Parent(entries, j).value >= i; }
  }

  // ----- what each section owns ---------------------------------------------------------

  ghost function OwnRange(entries: seq<Entry>, total: nat, i: nat): Range
    requires i < |entries|
  {
    Range(entries[i].startLine, if i + 1 < |entries| then entries[i + 1].startLine - 1 else total)
  }

  ghost function NodeOf(e: Entry): Section {
    Section(e.id, e.parent, Range(e.startLine, e.endLine), [], [], true)
  }

  ghost function NodesOf(entries: seq<Entry>): (nodes: seq<Section>)
    ensures |nodes| == |entries|
    ensures forall i :: 0 <= i < |entries| ==> nodes[i] == NodeOf(entries[i])
  {
    seq(|entries|, i requires 0 <= i < |entries| => NodeOf(entries[i]))
  }

  lemma {:induction false} ChildIdMeansParent(entries: seq<Entry>, total: nat, byId: map<string, nat>, i: nat, c: string)
    requires WellBuilt(entries, total) && i < |entries| && IndexOf(NodesOf(entries), byId)
    ensures c in ChildIds(NodesOf(entries), entries[i].id, |entries|) <==>
            c in byId && byId[c] < |entries| && Parent(entries, byId[c]) == Some(i)
  {
    var nodes := NodesOf(entries);
    ChildIdsAreChildren(nodes, entries[i].id, |entries|, c);
    if c in ChildIds(nodes, entries[i].id, |entries|) {
      var k :| 0 <= k < |entries| && nodes[k].parent == Some(entries[i].id) && nodes[k].id == c;
      assert nodes[k].id in byId && entries[byId[c]].id == entries[k].id;
      assert byId[c] == k;
      assert Parent(entries, k).Some?;
    }
    if c in byId && byId[c] < |entries| && Parent(entries, byId[c]) == Some(i) {
      var k := byId[c];
      assert nodes[k].id == c && entries[k].parent == Some(entries[i].id);
    }
  }

  lemma {:induction false} ChildrenCover(entries: seq<Entry>, total: nat, byId: map<string, nat>, i: nat, line: nat, m: nat)
    requires WellBuilt(entries, total) && i < |entries| && IndexOf(NodesOf(entries), byId)
    requires line <= total && Under(entries, line, m)
    requires forall id :: id in ChildIds(NodesOf(entries), entries[i].id, |entries|) ==> id in byId && byId[id] < |entries|
    ensures Covered(ScopesOf(NodesOf(entries), byId, ChildIds(NodesOf(entries), entries[i].id, |entries|)), line)
            <==> Nested(entries, i, m)
  {
    var ids := ChildIds(NodesOf(entries), entries[i].id, |entries|);
    var scopes := ScopesOf(NodesOf(entries), byId, ids);
    if Covered(scopes, line) {
      var k :| 0 <= k < |scopes| && Holds(scopes[k], line);
      ChildCovers(entries, total, byId, i, line, m, ids[k]);
    }
    if Nested(entries, i, m) {
      var c := CoveringChild(entries, total, byId, i, line, m);
      var k :| 0 <= k < |ids| && ids[k] == c;
      assert Holds(scopes[k], line);
    }
  }

  lemma {:induction false} ChildCovers(entries: seq<Entry>, total: nat, byId: map<string, nat>, i: nat,
                                       line: nat, m: nat, c: string)
    requires WellBuilt(entries, total) && i < |entries| && IndexOf(NodesOf(entries), byId)
    requires line <= total && Under(entries, line, m)
    requires c in ChildIds(NodesOf(entries), entries[i].id, |entries|) && c in byId && byId[c] < |entries|
    requires Holds(NodesOf(entries)[byId[c]].scope, line)
    ensures Nested(entries, i, m)
  {
    ChildIdMeansParent(entries, total, byId, i, c);
    ScopeHolds(entries, total, line, m, byId[c]);
    ParentEncloses(entries, byId[c]);
  }

  lemma {:induction false} CoveringChild(entries: seq<Entry>, total: nat, byId: map<string, nat>, i: nat,
                                         line: nat, m: nat) returns (id: string)
    requires WellBuilt(entries, total) && i < |entries| && IndexOf(NodesOf(entries), byId)
    requires line <= total && Under(entries, line, m) && Nested(entries, i, m)
    ensures id in ChildIds(NodesOf(entries), entries[i].id, |entries|) && id in byId && byId[id] < |entries|
    ensures Holds(NodesOf(entries)[byId[id]].scope, line)
  {
    var c := ChildOnTheWay(entries, i, m);
    id := entries[c].id;
    IndexUnique(entries, total, byId, c);
    ScopeHolds(entries, total, line, m, c);
    ChildIdMeansParent(entries, total, byId, i, id);
  }

  /** One line: it is in the scope and in no child's exactly when it comes before the next heading. */
  lemma {:induction false} OwnLine(entries: seq<Entry>, total: nat, byId: map<string, nat>, i: nat, children: seq<string>, line: int)
    requires WellBuilt(entries, total) && i < |entries| && IndexOf(NodesOf(entries), byId)
    requires children == ChildIds(NodesOf(entries), entries[i].id, |entries|)
    requires forall id :: id in children ==> id in byId && byId[id] < |entries|
    ensures Holds(NodeOf(entries[i]).scope, line) && !Covered(ScopesOf(NodesOf(entries), byId, children), line)
       <==> Holds(OwnRange(entries, total, i), line)
  {
    ScopeNotEmpty(entries, total, i);
    if entries[i].startLine <= line <= total {
      assert entries[0].startLine <= entries[i].startLine;
      var m := UnderExists(entries, line, |entries| - 1);
      ScopeHolds(entries, total, line, m, i);
      ChildrenCover(entries, total, byId, i, line, m);
      OwnedUnder(entries, total, i, line, m);
    }
  }

  /** One section: subtracting the children leaves the lines down to the next heading. */
  lemma {:induction false} OwnsToNextHeading(entries: seq<Entry>, total: nat, byId: map<string, nat>, i: nat, done: Section)
    requires WellBuilt(entries, total) && i < |entries| && IndexOf(NodesOf(entries), byId)
    requires Assigned(NodesOf(entries), byId, i, done) && done.scope == NodeOf(entries[i]).scope
    ensures done.contentRanges == [OwnRange(entries, total, i)] && done.ingestUnit
  {
    var own, scopes := OwnRange(entries, total, i), ScopesOf(NodesOf(entries), byId, done.children);
    IndexUnique(entries, total, byId, i);
    ScopeNotEmpty(entries, total, i);
    OwnedExact(done.scope, scopes);
    forall line ensures Covered(done.contentRanges, line) <==> Covered([own], line) {
      OwnLine(entries, total, byId, i, done.children, line);
      CoveredOne(own, line);
    }
    SeparatedUnique(done.contentRanges, [own]);
  }

  lemma {:induction false} OwnedUnder(entries: seq<Entry>, total: nat, i: nat, line: nat, m: nat)
    requires WellBuilt(entries, total) && i < |entries| && line <= total && Under(entries, line, m)
    ensures Holds(OwnRange(entries, total, i), line) <==> m == i
  {
    if i < m { assert entries[i + 1].startLine <= entries[m].startLine; }
  }

  lemma {:induction false} IndexUnique(entries: seq<Entry>, total: nat, byId: map<string, nat>, i: nat)
    requires WellBuilt(entries, total) && i < |entries| && IndexOf(NodesOf(entries), byId)
    ensures entries[i].id in byId && byId[entries[i].id] == i
  {
    var nodes := NodesOf(entries);
    assert nodes[i].id in byId;
    assert nodes[byId[nodes[i].id]].id == nodes[i].id;
  }

  /** The assignment never refuses an outline built from text. */
  lemma {:induction false} NeverRefused(entries: seq<Entry>, total: nat, byId: map<string, nat>, i: nat, child: string)
    requires WellBuilt(entries, total) && i < |entries| && IndexOf(NodesOf(entries), byId)
    ensures !Leaves(NodesOf(entries), byId, i, child)
  {
    var nodes := NodesOf(entries);
    ChildIdMeansParent(entries, total, byId, i, child);
    if child in byId && byId[child] < |entries| && Parent(entries, byId[child]) == Some(i) {
      ChildInsideParent(entries, total, byId[child]);
      var scope := nodes[byId[child]].scope;
      assert forall k :: 0 <= k < |[scope]| ==> [scope][k] == scope;
    }
  }

  // ----- the partition --------------------------------------------------------------------

  lemma {:induction false} DeepestIsHighest(entries: seq<Entry>, line: nat)
    ensures var best := DeepestSection(entries, line);
            if best.None? then forall i :: 0 <= i < |entries| ==> !InScope(entries[i], line)
            else forall i :: 0 <= i < |entries| && InScope(entries[i], line) && i != best.value ==>
                   entries[i].level < entries[best.value].level
                   || (entries[i].level == entries[best.value].level && i > best.value)
  {
    if entries != [] {
      var last := |entries| - 1;
      DeepestIsHighest(entries[..last], line);
      assert forall i :: 0 <= i < last ==> entries[..last][i] == entries[i];
    }
  }

  /** Every line from the first heading on is owned by exactly one section, and it is the one
      `deepest_section` finds; lines above the first heading are owned by none. */
  lemma {:induction false} OwnedRangesPartition(entries: seq<Entry>, total: nat, line: nat)
    requires WellBuilt(entries, total) && 1 <= line <= total
    ensures forall i :: 0 <= i < |entries| ==>
              (Holds(OwnRange(entries, total, i), line) <==> DeepestSection(entries, line) == Some(i))
    ensures DeepestSection(entries, line).Some? <==> entries != [] && entries[0].startLine <= line
  {
    var best := DeepestSection(entries, line);
    DeepestIsHighest(entries, line);
    if entries != [] && entries[0].startLine <= line {
      var m := UnderExists(entries, line, |entries| - 1);
      forall i | 0 <= i < |entries|
        ensures InScope(entries[i], line) <==> i == m || Nested(entries, i, m)
        ensures Holds(OwnRange(entries, total, i), line) <==> m == i
      {
        ScopeHolds(entries, total, line, m, i);
        OwnedUnder(entries, total, i, line, m);
      }
      assert InScope(entries[m], line);
      assert best == Some(m);
    } else {
      forall i | 0 <= i < |entries| ensures entries[i].startLine > line {
        assert i > 0 ==> entries[0].startLine < entries[i].startLine;
      }
    }
  }

  // ----- the text -----------------------------------------------------------------------------

  /** The text of the owned ranges of the sections from `i` on, in order (`section_text`). */
  ghost function OwnedText(entries: seq<Entry>, lines: seq<string>, i: nat): string
    requires WellBuilt(entries, |lines|) && i <= |entries|
    decreases |entries| - i
  {
    if i == |entries| then ""
    else
      var own := OwnRange(entries, |lines|, i);
      assert i + 1 < |entries| ==> entries[i].startLine < entries[i + 1].startLine;
      Flatten(lines[own.start - 1..own.end]) + OwnedText(entries, lines, i + 1)
  }

  lemma {:induction false} OwnedTextIsRest(entries: seq<Entry>, lines: seq<string>, i: nat)
    requires WellBuilt(entries, |lines|) && i < |entries|
    ensures OwnedText(entries, lines, i) == Flatten(lines[entries[i].startLine - 1..])
    decreases |entries| - i
  {
    var first, end := entries[i].startLine - 1, OwnRange(entries, |lines|, i).end;
    assert i + 1 < |entries| ==> entries[i].startLine < entries[i + 1].startLine;
    if i + 1 < |entries| { OwnedTextIsRest(entries, lines, i + 1); }
    assert OwnedText(entries, lines, i + 1) == Flatten(lines[end..]);
    SplitAt(lines, first, end);
    FlattenAppend(lines[first..end], lines[end..]);
  }

  lemma {:induction false} SplitAt(lines: seq<string>, first: nat, end: nat)
    requires first <= end <= |lines|
    ensures lines[first..] == lines[first..end] + lines[end..]
  {
  }

  /** Nothing is ingested twice and nothing after the first heading is dropped: the owned
      texts, in outline order, are the document text from the first heading on. */
  lemma {:induction false} OwnedTextConserved(text: string, base: (string, nat) -> string, entries: seq<Entry>)
    requires IsOutline(Lines(text), base, entries) && entries != []
    ensures WellBuilt(entries, |LinesWithEnds(text)|)
    ensures text == Flatten(LinesWithEnds(text)[..entries[0].startLine - 1])
                    + OwnedText(entries, LinesWithEnds(text), 0)
  {
    TwoViewsOfOneText(text);
    OutlineWellBuilt(Lines(text), base, entries);
    var lines, first := LinesWithEnds(text), entries[0].startLine - 1;
    OwnedTextIsRest(entries, lines, 0);
    assert lines == lines[..first] + lines[first..];
    FlattenAppend(lines[..first], lines[first..]);
  }

  // ----- end to end -----------------------------------------------------------------------------

  /** Text to ledger sections: outline, section entries, content ranges. It never fails. */
  method SectionsOfText(text: string, base: (string, nat) -> string)
    returns (entries: seq<Entry>, sections: array<Section>)
    requires forall t, k :: base(t, k) != ""
    ensures IsOutline(Lines(text), base, entries)
    ensures fresh(sections) && sections.Length == |entries|
    ensures forall i :: 0 <= i < |entries| ==>
      sections[i].id == entries[i].id && sections[i].ingestUnit
      && sections[i].contentRanges == [OwnRange(entries, |LinesWithEnds(text)|, i)]
  {
    var total := |LinesWithEnds(text)|;
    entries := BuildOutline(Lines(text), base);
    TwoViewsOfOneText(text);
    OutlineWellBuilt(Lines(text), base, entries);
    sections := MakeSections(entries, total);
    IdsNonEmpty(Lines(text), base, entries);
    var byId, bad := AssignContentRanges(sections);
    AssignedAsOwned(entries, total, byId, bad, sections[..]);
  }

  lemma {:induction false} AssignedAsOwned(entries: seq<Entry>, total: nat, byId: map<string, nat>, bad: Option<string>, now: seq<Section>)
    requires WellBuilt(entries, total) && SameNodes(now, NodesOf(entries)) && IndexOf(NodesOf(entries), byId)
    requires bad.None? ==> AllAssigned(NodesOf(entries), byId, now, |entries|)
    requires bad.Some? ==> exists i :: 0 <= i < |entries| && FirstLeaves(NodesOf(entries), byId, i, bad.value)
    ensures bad.None?
    ensures forall i :: 0 <= i < |entries| ==>
      now[i].id == entries[i].id && now[i].ingestUnit && now[i].contentRanges == [OwnRange(entries, total, i)]
  {
    if bad.Some? {
      forall i | 0 <= i < |entries| ensures !Leaves(NodesOf(entries), byId, i, bad.value) {
        NeverRefused(entries, total, byId, i, bad.value);
      }
      assert false;
    }
    forall i | 0 <= i < |entries|
      ensures now[i].id == entries[i].id && now[i].ingestUnit && now[i].contentRanges == [OwnRange(entries, total, i)]
    {
      OwnsToNextHeading(entries, total, byId, i, now[i]);
    }
  }

  lemma {:induction false} IdsNonEmpty(lines: seq<string>, base: (string, nat) -> string, entries: seq<Entry>)
    requires IsOutline(lines, base, entries)
    requires forall t, k :: base(t, k) != ""
    ensures forall i :: 0 <= i < |entries| ==> entries[i].id != ""
  {
    forall i | 0 <= i < |entries| ensures entries[i].id != "" {
      assert LinkedAt(entries, base, i);
    }
  }

  /** The check of `make_section_entry` accepts every entry of an outline. */
  lemma {:induction false} EntriesAccepted(
      lines: seq<string>, base: (string, nat) -> string, entries: seq<Entry>, i: nat)
    requires IsOutline(lines, base, entries) && i < |entries|
    requires forall t, k :: base(t, k) != ""
    ensures var e := entries[i];
            MakeSection(e.id, e.parent, e.startLine, e.endLine, |lines|) == Ok(NodeOf(e))
  {
    IdsNonEmpty(lines, base, entries);
    OutlineWellBuilt(lines, base, entries);
    ScopeNotEmpty(entries, |lines|, i);
  }

  method MakeSections(entries: seq<Entry>, ghost total: nat) returns (sections: array<Section>)
    requires WellBuilt(entries, total)
    ensures fresh(sections) && sections[..] == NodesOf(entries)
    ensures forall i :: 0 <= i < |entries| ==> NodeOf(entries[i]).scope.start <= NodeOf(entries[i]).scope.end
  {
    sections := new Section[|entries|](i requires 0 <= i < |entries| =>
      Section(entries[i].id, entries[i].parent, Range(entries[i].startLine, entries[i].endLine), [], [], true));
    forall i | 0 <= i < |entries| ensures entries[i].startLine <= entries[i].endLine {
      ScopeNotEmpty(entries, total, i);
    }
  }
}
