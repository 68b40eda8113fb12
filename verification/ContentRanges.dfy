/** The lines a section owns: its scope with the scopes of its direct children cut out. */
module ContentRanges {
  import opened Basics

  datatype Range = Range(start: int, end: int)

  predicate Holds(r: Range, line: int) { r.start <= line <= r.end }

  ghost predicate Covered(ranges: seq<Range>, line: int) {
    exists i :: 0 <= i < |ranges| && Holds(ranges[i], line)
  }

  /** Sorted, non-empty, and with at least one line between neighbours. */
  ghost predicate Separated(ranges: seq<Range>) {
    && (forall i :: 0 <= i < |ranges| ==> ranges[i].start <= ranges[i].end)
    && (forall i, j :: 0 <= i < j < |ranges| ==> ranges[i].end + 1 < ranges[j].start)
  }

  /** The order of Python's tuples `(start, end)`. */
  predicate RangeLeq(a: Range, b: Range) {
    a.start < b.start || (a.start == b.start && a.end <= b.end)
  }

  lemma {:induction false} RangeOrder()
    ensures TotalPreorder(RangeLeq)
  {
  }

  // ----- cutting children out of a scope ---------------------------------------------

  /** What the cursor loop still has to emit for the children left over. */
  function Carve(cursor: int, end: int, children: seq<Range>): (owned: seq<Range>)
    decreases |children|
  {
    if children == [] then
      if cursor <= end then [Range(cursor, end)] else []
    else
      var c := children[0];
      (if cursor < c.start then [Range(cursor, c.start - 1)] else [])
      + Carve(Max(cursor, c.end + 1), end, children[1..])
  }

  function Owned(scope: Range, children: seq<Range>): (owned: seq<Range>) {
    Carve(scope.start, scope.end, Sort(RangeLeq, children))
  }

  ghost predicate Inside(scope: Range, children: seq<Range>) {
    forall i :: 0 <= i < |children| ==>
      scope.start <= children[i].start <= children[i].end <= scope.end
  }

  lemma {:induction false} CarveExact(cursor: int, end: int, children: seq<Range>)
    requires SortedBy(RangeLeq, children)
    requires forall i :: 0 <= i < |children| ==> children[i].start <= children[i].end <= end
    ensures Separated(Carve(cursor, end, children))
    ensures forall i :: 0 <= i < |Carve(cursor, end, children)| ==> cursor <= Carve(cursor, end, children)[i].start
    ensures forall line :: Covered(Carve(cursor, end, children), line)
              <==> cursor <= line <= end && !Covered(children, line)
    decreases |children|
  {
    if children == [] {
      forall line ensures Covered(Carve(cursor, end, children), line) <==> cursor <= line <= end {
        if cursor <= end { CoveredOne(Range(cursor, end), line); }
      }
    } else {
      var c, rest, next := children[0], children[1..], Max(cursor, children[0].end + 1);
      CarveExact(next, end, rest);
      var tail := Carve(next, end, rest);
      var head := if cursor < c.start then [Range(cursor, c.start - 1)] else [];
      var owned := Carve(cursor, end, children);
      assert owned == head + tail && children == [c] + rest;
      forall line ensures Covered(owned, line) <==> cursor <= line <= end && !Covered(children, line) {
        CarveStep(cursor, end, children, tail, line);
      }
    }
  }

  lemma {:induction false} CarveStep(cursor: int, end: int, children: seq<Range>, tail: seq<Range>, line: int)
    requires SortedBy(RangeLeq, children) && children != []
    requires forall i :: 0 <= i < |children| ==> children[i].start <= children[i].end <= end
    requires Covered(tail, line) <==> Max(cursor, children[0].end + 1) <= line <= end && !Covered(children[1..], line)
    ensures var head := if cursor < children[0].start then [Range(cursor, children[0].start - 1)] else [];
            Covered(head + tail, line) <==> cursor <= line <= end && !Covered(children, line)
  {
    var c, rest := children[0], children[1..];
    var head := if cursor < c.start then [Range(cursor, c.start - 1)] else [];
    assert children == [c] + rest;
    CoveredCons(c, rest, line);
    CoveredAppend(head, tail, line);
    if cursor < c.start { CoveredOne(Range(cursor, c.start - 1), line); }
    if i :| 0 <= i < |rest| && Holds(rest[i], line) { assert RangeLeq(c, children[i + 1]); }
  }

  lemma {:induction false} CoveredOne(r: Range, line: int)
    ensures Covered([r], line) <==> Holds(r, line)
  {
    assert [r][0] == r;
  }

  lemma {:induction false} CoveredCons(c: Range, rest: seq<Range>, line: int)
    ensures Covered([c] + rest, line) <==> Holds(c, line) || Covered(rest, line)
  {
    CoveredAppend([c], rest, line);
    CoveredOne(c, line);
  }

  lemma {:induction false} CoveredAppend(a: seq<Range>, b: seq<Range>, line: int)
    ensures Covered(a + b, line) <==> Covered(a, line) || Covered(b, line)
  {
    if Covered(a, line) {
      var i :| 0 <= i < |a| && Holds(a[i], line);
      assert (a + b)[i] == a[i];
    }
    if Covered(b, line) {
      var i :| 0 <= i < |b| && Holds(b[i], line);
      assert (a + b)[|a| + i] == b[i];
    }
  }

  lemma {:induction false} CoveredPermutation(a: seq<Range>, b: seq<Range>, line: int)
    requires multiset(a) == multiset(b)
    ensures Covered(a, line) <==> Covered(b, line)
  {
    SameMultisetSameMembers(a, b);
    if Covered(a, line) {
      var i :| 0 <= i < |a| && Holds(a[i], line);
      assert a[i] in b;
    }
    if Covered(b, line) {
      var i :| 0 <= i < |b| && Holds(b[i], line);
      assert b[i] in a;
    }
  }

  /** For any children inside the scope — overlapping, nested, in any order — the owned
      ranges are the canonical form of scope minus the union of the children. */
  lemma {:induction false} OwnedExact(scope: Range, children: seq<Range>)
    requires Inside(scope, children)
    ensures Separated(Owned(scope, children))
    ensures forall line :: Covered(Owned(scope, children), line)
              <==> Holds(scope, line) && !Covered(children, line)
  {
    var sorted := Sort(RangeLeq, children);
    RangeOrder();
    SortSorted(RangeLeq, children);
    SameMultisetSameMembers(sorted, children);
    forall i | 0 <= i < |sorted| ensures sorted[i].start <= sorted[i].end <= scope.end {
      assert sorted[i] in children;
    }
    CarveExact(scope.start, scope.end, sorted);
    forall line ensures Covered(sorted, line) <==> Covered(children, line) {
      CoveredPermutation(sorted, children, line);
    }
  }

  lemma {:induction false} CoversSomething(a: seq<Range>)
    requires Separated(a)
    ensures a != [] ==> Covered(a, a[0].start)
  {
    if a != [] { assert Holds(a[0], a[0].start); }
  }

  /** A set of lines has only one separated list of ranges, so OwnedExact leaves no freedom. */
  lemma {:induction false} SeparatedUnique(a: seq<Range>, b: seq<Range>)
    requires Separated(a) && Separated(b)
    requires forall line :: Covered(a, line) <==> Covered(b, line)
    ensures a == b
    decreases |a|
  {
    if a == [] || b == [] {
      CoversSomething(a);
      CoversSomething(b);
    } else {
      FirstStart(a, b);
      FirstStart(b, a);
      FirstEnd(a, b);
      FirstEnd(b, a);
      var a', b' := a[1..], b[1..];
      assert a == [a[0]] + a' && b == [b[0]] + b';
      forall line ensures Covered(a', line) <==> Covered(b', line) {
        CoveredCons(a[0], a', line);
        CoveredCons(b[0], b', line);
        TailApart(a, line);
        TailApart(b, line);
      }
      SeparatedUnique(a', b');
    }
  }

  lemma {:induction false} TailApart(a: seq<Range>, line: int)
    requires Separated(a) && a != []
    ensures Covered(a[1..], line) ==> line > a[0].end + 1
  {
    if Covered(a[1..], line) {
      var i :| 0 <= i < |a[1..]| && Holds(a[1..][i], line);
      assert a[1..][i] == a[i + 1];
    }
  }

  lemma {:induction false} FirstStart(a: seq<Range>, b: seq<Range>)
    requires Separated(a) && Separated(b) && a != [] && b != []
    requires forall line :: Covered(a, line) <==> Covered(b, line)
    ensures a[0].start <= b[0].start
  {
    assert Holds(b[0], b[0].start);
    assert Covered(a, b[0].start);
    var i :| 0 <= i < |a| && Holds(a[i], b[0].start);
  }

  lemma {:induction false} FirstEnd(a: seq<Range>, b: seq<Range>)
    requires Separated(a) && Separated(b) && a != [] && b != []
    requires forall line :: Covered(a, line) <==> Covered(b, line)
    requires a[0].start == b[0].start
    ensures a[0].end <= b[0].end
  {
    var line := b[0].end + 1;
    assert forall i :: 0 <= i < |b| ==> !Holds(b[i], line);
    assert !Covered(a, line) && !Holds(a[0], line);
  }

  // ----- the ledger's sections --------------------------------------------------------

  /** One outline node in the ledger; the assignment rewrites its last three fields. */
  datatype Section = Section(id: string, parent: Option<string>, scope: Range,
                             children: seq<string>, contentRanges: seq<Range>, ingestUnit: bool)

  /** `make_section_entry`: no children yet, and the scope must lie within the document. */
  function MakeSection(id: string, parent: Option<string>, start: int, end: int, total: nat)
    : (s: Result<Section, string>)
    ensures s.Ok? <==> id != "" && 1 <= start <= end <= total
    ensures s.Ok? ==> forall line :: Holds(s.value.scope, line) ==> 1 <= line <= total
  {
    if id == "" || start < 1 || end < start || end > total then Err(id)
    else Ok(Section(id, parent, Range(start, end), [], [], true))
  }

  /** `{id: section}` built in order: the last section with an id is the one found. */
  ghost predicate IndexOf(sections: seq<Section>, byId: map<string, nat>) {
    && (forall id :: id in byId ==> byId[id] < |sections| && sections[byId[id]].id == id)
    && (forall i :: 0 <= i < |sections| ==> sections[i].id in byId && i <= byId[sections[i].id])
  }

  /** Ids of the sections among the first `n` that name `id` as their parent, in order. */
  ghost function ChildIds(sections: seq<Section>, id: string, n: nat): (ids: seq<string>)
    requires n <= |sections|
  {
    if n == 0 then []
    else ChildIds(sections, id, n - 1)
         + (if sections[n - 1].parent == Some(id) then [sections[n - 1].id] else [])
  }

  lemma {:induction false} ChildIdsAreChildren(sections: seq<Section>, id: string, n: nat, c: string)
    requires n <= |sections|
    ensures c in ChildIds(sections, id, n) <==>
            exists k :: 0 <= k < n && sections[k].parent == Some(id) && sections[k].id == c
  {
    if n > 0 {
      ChildIdsAreChildren(sections, id, n - 1, c);
      var last := sections[n - 1];
      assert c in ChildIds(sections, id, n)
        <==> c in ChildIds(sections, id, n - 1) || (last.parent == Some(id) && last.id == c);
    }
  }

  /** The children are listed in the order of the sections; `at` are their places. */
  lemma {:induction false} ChildrenInOrder(sections: seq<Section>, id: string, n: nat) returns (at: seq<nat>)
    requires n <= |sections|
    ensures |at| == |ChildIds(sections, id, n)| && forall i, j :: 0 <= i < j < |at| ==> at[i] < at[j]
    ensures forall i :: 0 <= i < |at| ==> at[i] < n && ChildIds(sections, id, n)[i] == sections[at[i]].id
    ensures forall k: nat :: k < n ==> (k in at <==> sections[k].parent == Some(id))
  {
    at := [];
    if n > 0 {
      at := ChildrenInOrder(sections, id, n - 1);
      if sections[n - 1].parent == Some(id) { at := at + [n - 1]; }
    }
  }

  /** Scopes of the named children, as the index finds them. */
  function ScopesOf(sections: seq<Section>, byId: map<string, nat>, ids: seq<string>): (scopes: seq<Range>)
    requires forall id :: id in ids ==> id in byId && byId[id] < |sections|
    ensures |scopes| == |ids|
    ensures forall i :: 0 <= i < |ids| ==> scopes[i] == sections[byId[ids[i]]].scope
  {
    seq(|ids|, i requires 0 <= i < |ids| => sections[byId[ids[i]]].scope)
  }

  /** The same nodes, whatever has been written into their last three fields. */
  ghost predicate SameNodes(a: seq<Section>, b: seq<Section>) {
    |a| == |b| && forall i :: 0 <= i < |a| ==>
      a[i].id == b[i].id && a[i].parent == b[i].parent && a[i].scope == b[i].scope
  }

  ghost predicate LinkedUpTo(sections: seq<Section>, byId: map<string, nat>, i: nat, children: seq<string>, n: nat)
    requires i < |sections| && n <= |sections|
  {
    var id := sections[i].id;
    children == if id in byId && byId[id] == i then ChildIds(sections, id, n) else []
  }

  ghost predicate Assigned(sections: seq<Section>, byId: map<string, nat>, i: nat, s: Section)
    requires i < |sections|
  {
    && LinkedUpTo(sections, byId, i, s.children, |sections|)
    && (forall id :: id in s.children ==> id in byId && byId[id] < |sections|)
    && Inside(s.scope, ScopesOf(sections, byId, s.children))
    && s.contentRanges == Owned(s.scope, ScopesOf(sections, byId, s.children))
    && s.ingestUnit == (s.contentRanges != [])
  }

  ghost predicate AllLinked(nodes: seq<Section>, byId: map<string, nat>, now: seq<Section>, n: nat) {
    && SameNodes(now, nodes) && n <= |nodes|
    && forall i :: 0 <= i < |nodes| ==> LinkedUpTo(nodes, byId, i, now[i].children, n)
  }

  ghost predicate AllAssigned(nodes: seq<Section>, byId: map<string, nat>, now: seq<Section>, n: nat) {
    n <= |nodes| == |now| && forall i :: 0 <= i < n ==> Assigned(nodes, byId, i, now[i])
  }

  /** One appended child id keeps every list of children right. */
  lemma {:induction false} LinkStep(nodes: seq<Section>, byId: map<string, nat>, now: seq<Section>, n: nat)
    requires IndexOf(nodes, byId) && AllLinked(nodes, byId, now, n) && n < |nodes|
    ensures var parent := nodes[n].parent;
            if parent.Some? && parent.value in byId then
              var p := byId[parent.value];
              AllLinked(nodes, byId, now[p := now[p].(children := now[p].children + [nodes[n].id])], n + 1)
            else AllLinked(nodes, byId, now, n + 1)
  {
    var parent := nodes[n].parent;
    if parent.Some? && parent.value in byId {
      LinkAdopted(nodes, byId, now, n, byId[parent.value]);
    } else {
      forall i | 0 <= i < |nodes| ensures LinkedUpTo(nodes, byId, i, now[i].children, n + 1) {
        LinkOne(nodes, byId, i, now[i].children, n);
      }
    }
  }

  lemma {:induction false} LinkAdopted(nodes: seq<Section>, byId: map<string, nat>, now: seq<Section>, n: nat, p: nat)
    requires IndexOf(nodes, byId) && AllLinked(nodes, byId, now, n) && n < |nodes| && p < |nodes| && Adopts(nodes, byId, n, p)
    ensures AllLinked(nodes, byId, now[p := now[p].(children := now[p].children + [nodes[n].id])], n + 1)
  {
    var after := now[p := now[p].(children := now[p].children + [nodes[n].id])];
    assert SameNodes(after, nodes);
    forall i | 0 <= i < |nodes| ensures LinkedUpTo(nodes, byId, i, after[i].children, n + 1) {
      LinkAt(nodes, byId, now[i].children, after[i].children, n, p, i);
    }
  }

  lemma {:induction false} LinkAt(
      nodes: seq<Section>, byId: map<string, nat>, before: seq<string>, after: seq<string>, n: nat, p: nat, i: nat)
    requires IndexOf(nodes, byId) && n < |nodes| && i < |nodes| && Adopts(nodes, byId, n, p)
    requires LinkedUpTo(nodes, byId, i, before, n) && after == if i == p then before + [nodes[n].id] else before
    ensures LinkedUpTo(nodes, byId, i, after, n + 1)
  {
    LinkOne(nodes, byId, i, before, n);
  }

  /** Section `i` is the one the parent of section `n` names. */
  ghost predicate Adopts(nodes: seq<Section>, byId: map<string, nat>, n: nat, i: nat)
    requires n < |nodes|
  {
    nodes[n].parent.Some? && nodes[n].parent.value in byId && byId[nodes[n].parent.value] == i
  }

  lemma {:induction false} LinkOne(nodes: seq<Section>, byId: map<string, nat>, i: nat, children: seq<string>, n: nat)
    requires IndexOf(nodes, byId) && i < |nodes| && n < |nodes| && LinkedUpTo(nodes, byId, i, children, n)
    ensures LinkedUpTo(nodes, byId, i, if Adopts(nodes, byId, n, i) then children + [nodes[n].id] else children, n + 1)
  {
  }

  ghost predicate Leaves(sections: seq<Section>, byId: map<string, nat>, i: nat, child: string)
    requires i < |sections|
  {
    && child in ChildIds(sections, sections[i].id, |sections|)
    && child in byId && byId[child] < |sections|
    && !Inside(sections[i].scope, [sections[byId[child]].scope])
  }

  /** The first of section `i`'s children, in their order, whose scope leaves its own. */
  ghost predicate FirstLeaves(sections: seq<Section>, byId: map<string, nat>, i: nat, child: string)
    requires i < |sections|
  {
    var ids := ChildIds(sections, sections[i].id, |sections|);
    Leaves(sections, byId, i, child)
    && exists k :: 0 <= k < |ids| && ids[k] == child && forall j :: 0 <= j < k ==> !Leaves(sections, byId, i, ids[j])
  }

  /** On success every section carries exactly its owned ranges. The only failure is a child whose
      scope leaves its parent's: the first such child of the first such parent, and the sections
      before that parent are assigned. */
  method AssignContentRanges(sections: array<Section>) returns (byId: map<string, nat>, bad: Option<string>)
    requires forall i :: 0 <= i < sections.Length ==>
      sections[i].scope.start <= sections[i].scope.end && sections[i].children == []
    modifies sections
    ensures SameNodes(sections[..], old(sections[..])) && IndexOf(old(sections[..]), byId)
    ensures bad.None? ==> AllAssigned(old(sections[..]), byId, sections[..], sections.Length)
    ensures bad.Some? ==> exists i :: 0 <= i < sections.Length && FirstLeaves(old(sections[..]), byId, i, bad.value)
                                      && AllAssigned(old(sections[..]), byId, sections[..], i)
  {
    byId := ById(sections);
    LinkChildren(sections, byId);
    bad := AssignAll(sections, byId, old(sections[..]));
  }

  method AssignAll(sections: array<Section>, byId: map<string, nat>, ghost nodes: seq<Section>)
    returns (bad: Option<string>)
    requires IndexOf(nodes, byId) && AllLinked(nodes, byId, sections[..], |nodes|)
    requires forall i :: 0 <= i < |nodes| ==> nodes[i].scope.start <= nodes[i].scope.end
    modifies sections
    ensures SameNodes(sections[..], nodes)
    ensures bad.None? ==> AllAssigned(nodes, byId, sections[..], |nodes|)
    ensures bad.Some? ==> exists i :: 0 <= i < |nodes| && FirstLeaves(nodes, byId, i, bad.value)
                                      && AllAssigned(nodes, byId, sections[..], i)
  {
    for n := 0 to sections.Length
      invariant AllLinked(nodes, byId, sections[..], |nodes|)
      invariant AllAssigned(nodes, byId, sections[..], n)
    {
      var before := sections[..];
      var done;
      done, bad := AssignOne(before, byId, n, nodes);
      if bad.Some? { return; }
      AssignStep(nodes, byId, before, n, done);
      sections[n] := done;
      assert sections[..] == before[n := done];
    }
    bad := None;
  }

  lemma {:induction false} AssignStep(nodes: seq<Section>, byId: map<string, nat>, now: seq<Section>, n: nat, done: Section)
    requires AllLinked(nodes, byId, now, |nodes|) && n < |nodes|
    requires AllAssigned(nodes, byId, now, n) && Assigned(nodes, byId, n, done)
    requires done.id == now[n].id && done.parent == now[n].parent && done.scope == now[n].scope
    ensures AllLinked(nodes, byId, now[n := done], |nodes|)
    ensures AllAssigned(nodes, byId, now[n := done], n + 1)
  {
  }

  method ById(sections: array<Section>) returns (byId: map<string, nat>)
    ensures IndexOf(sections[..], byId)
  {
    byId := map[];
    for n := 0 to sections.Length
      invariant IndexOf(sections[..n], byId)
    {
      byId := byId[sections[n].id := n];
      assert sections[..n + 1] == sections[..n] + [sections[n]];
    }
    assert sections[..sections.Length] == sections[..];
  }

  method LinkChildren(sections: array<Section>, byId: map<string, nat>)
    requires IndexOf(sections[..], byId)
    requires forall i :: 0 <= i < sections.Length ==> sections[i].children == []
    modifies sections
    ensures AllLinked(old(sections[..]), byId, sections[..], sections.Length)
  {
    ghost var nodes := sections[..];
    for n := 0 to sections.Length
      invariant AllLinked(nodes, byId, sections[..], n)
    {
      ghost var before := sections[..];
      LinkStep(nodes, byId, before, n);
      var parent := sections[n].parent;
      if parent.Some? && parent.value in byId {
        var p := byId[parent.value];
        sections[p] := sections[p].(children := sections[p].children + [sections[n].id]);
        assert sections[..] == before[p := before[p].(children := before[p].children + [nodes[n].id])];
      }
    }
  }

  lemma {:induction false} ChildrenKnown(sections: seq<Section>, byId: map<string, nat>, i: nat, ids: seq<string>)
    requires IndexOf(sections, byId) && i < |sections|
    requires LinkedUpTo(sections, byId, i, ids, |sections|)
    ensures forall c :: c in ids ==> c in byId && byId[c] < |sections|
    ensures ids == [] || ids == ChildIds(sections, sections[i].id, |sections|)
  {
    forall c | c in ids ensures c in byId && byId[c] < |sections| {
      ChildIdsAreChildren(sections, sections[i].id, |sections|, c);
    }
  }

  predicate Within(outer: Range, inner: Range) { outer.start <= inner.start && inner.end <= outer.end }

  /** The child check and the owned ranges of one section. */
  method AssignOne(sections: seq<Section>, byId: map<string, nat>, n: nat, ghost nodes: seq<Section>)
    returns (done: Section, bad: Option<string>)
    requires SameNodes(sections, nodes) && IndexOf(nodes, byId) && n < |sections|
    requires LinkedUpTo(nodes, byId, n, sections[n].children, |nodes|)
    requires forall i :: 0 <= i < |nodes| ==> nodes[i].scope.start <= nodes[i].scope.end
    ensures done.id == sections[n].id && done.parent == sections[n].parent
    ensures done.scope == sections[n].scope && done.children == sections[n].children
    ensures bad.None? ==> Assigned(nodes, byId, n, done)
    ensures bad.Some? ==> FirstLeaves(nodes, byId, n, bad.value)
  {
    var s := sections[n];
    ChildrenKnown(nodes, byId, n, s.children);
    var scopes, k := ChildScopes(sections, byId, s);
    if k.None? {
      var owned := OwnedRanges(s.scope, scopes);
      done, bad := s.(contentRanges := owned, ingestUnit := owned != []), None;
      AssignedSo(nodes, byId, n, scopes, done);
    } else {
      done, bad := s, Some(s.children[k.value]);
      LeavesSo(nodes, byId, n, s.children, k.value);
    }
  }

  lemma {:induction false} AssignedSo(nodes: seq<Section>, byId: map<string, nat>, n: nat, scopes: seq<Range>, done: Section)
    requires n < |nodes| && LinkedUpTo(nodes, byId, n, done.children, |nodes|)
    requires forall i :: 0 <= i < |nodes| ==> nodes[i].scope.start <= nodes[i].scope.end
    requires forall id :: id in done.children ==> id in byId && byId[id] < |nodes|
    requires |scopes| == |done.children| && forall i :: 0 <= i < |scopes| ==> scopes[i] == nodes[byId[done.children[i]]].scope
    requires forall i :: 0 <= i < |scopes| ==> Within(done.scope, scopes[i])
    requires done.contentRanges == Owned(done.scope, scopes) && done.ingestUnit == (done.contentRanges != [])
    ensures Assigned(nodes, byId, n, done)
  {
    assert scopes == ScopesOf(nodes, byId, done.children);
    AllInside(nodes, byId, done.scope, done.children, scopes);
  }

  lemma {:induction false} AllInside(nodes: seq<Section>, byId: map<string, nat>, scope: Range, children: seq<string>, scopes: seq<Range>)
    requires forall i :: 0 <= i < |nodes| ==> nodes[i].scope.start <= nodes[i].scope.end
    requires forall id :: id in children ==> id in byId && byId[id] < |nodes|
    requires |scopes| == |children| && forall i :: 0 <= i < |scopes| ==> scopes[i] == nodes[byId[children[i]]].scope
    requires forall i :: 0 <= i < |scopes| ==> Within(scope, scopes[i])
    ensures Inside(scope, scopes)
  {
  }

  lemma {:induction false} LeavesSo(nodes: seq<Section>, byId: map<string, nat>, n: nat, children: seq<string>, k: nat)
    requires n < |nodes| && k < |children| && children == ChildIds(nodes, nodes[n].id, |nodes|)
    requires forall i :: 0 <= i < |nodes| ==> nodes[i].scope.start <= nodes[i].scope.end
    requires forall id :: id in children ==> id in byId && byId[id] < |nodes|
    requires forall j :: 0 <= j < k ==> Within(nodes[n].scope, nodes[byId[children[j]]].scope)
    requires !Within(nodes[n].scope, nodes[byId[children[k]]].scope)
    ensures FirstLeaves(nodes, byId, n, children[k])
  {
    forall j | 0 <= j <= k ensures Leaves(nodes, byId, n, children[j]) <==> j == k {
      var scope := nodes[byId[children[j]]].scope;
      assert [scope][0] == scope;
    }
  }

  /** The scopes of the children, up to the first that is not within the parent's. */
  method ChildScopes(sections: seq<Section>, byId: map<string, nat>, s: Section)
    returns (scopes: seq<Range>, k: Option<nat>)
    requires forall id :: id in s.children ==> id in byId && byId[id] < |sections|
    ensures var n := if k.None? then |s.children| else k.value;
            && n <= |s.children| && |scopes| == n
            && (forall i :: 0 <= i < n ==> scopes[i] == sections[byId[s.children[i]]].scope && Within(s.scope, scopes[i]))
            && (k.Some? ==> n < |s.children| && !Within(s.scope, sections[byId[s.children[n]]].scope))
  {
    scopes, k := [], None;
    for n := 0 to |s.children|
      invariant |scopes| == n
      invariant forall i :: 0 <= i < n ==> scopes[i] == sections[byId[s.children[i]]].scope && Within(s.scope, scopes[i])
    {
      var child := sections[byId[s.children[n]]].scope;
      if child.start < s.scope.start || child.end > s.scope.end { return scopes, Some(n); }
      scopes := scopes + [child];
    }
  }

  /** The cursor loop over the sorted child scopes. */
  method OwnedRanges(scope: Range, children: seq<Range>) returns (owned: seq<Range>)
    ensures owned == Owned(scope, children)
  {
    owned := CarveLoop(scope.start, scope.end, Sort(RangeLeq, children));
  }

  method CarveLoop(start: int, end: int, sorted: seq<Range>) returns (owned: seq<Range>)
    ensures owned == Carve(start, end, sorted)
  {
    var cursor := start;
    owned := [];
    assert sorted[0..] == sorted;
    for n := 0 to |sorted|
      invariant Carve(start, end, sorted) == owned + Carve(cursor, end, sorted[n..])
    {
      CarveNext(cursor, end, sorted, n, owned);
      if cursor < sorted[n].start {
        owned := owned + [Range(cursor, sorted[n].start - 1)];
      }
      cursor := Max(cursor, sorted[n].end + 1);
    }
    if cursor <= end {
      owned := owned + [Range(cursor, end)];
    }
  }

  lemma {:induction false} CarveNext(cursor: int, end: int, sorted: seq<Range>, n: nat, owned: seq<Range>)
    requires n < |sorted|
    ensures var rest := Carve(Max(cursor, sorted[n].end + 1), end, sorted[n + 1..]);
            owned + Carve(cursor, end, sorted[n..])
            == (if cursor < sorted[n].start then owned + [Range(cursor, sorted[n].start - 1)] else owned) + rest
  {
    assert sorted[n..][0] == sorted[n] && sorted[n..][1..] == sorted[n + 1..];
  }
}
