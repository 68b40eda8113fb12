/** What a blocked node does to the board: which cards it takes down, in which order. */
module KanbanDispatch {
  import opened Basics
  import opened KanbanGraph

  // ----- transitive dependents ---------------------------------------------------------------

  ghost predicate Link(nodes: seq<Node>, p: Name, c: Name) {
    exists i :: 0 <= i < |nodes| && nodes[i].name == c && p in nodes[i].parents
  }

  ghost predicate Chain(nodes: seq<Node>, path: seq<Name>) {
    && path != []
    && forall k {:trigger path[k + 1]} :: 0 <= k < |path| - 1 ==> Link(nodes, path[k], path[k + 1])
  }

  /** `n` is `root` or waits for it through a chain of parent links. */
  ghost predicate Depends(nodes: seq<Node>, root: Name, n: Name) {
    exists path :: Chain(nodes, path) && path[0] == root && path[|path| - 1] == n
  }

  ghost predicate NamesDistinct(nodes: seq<Node>) {
    forall i, j :: 0 <= i < j < |nodes| ==> nodes[i].name != nodes[j].name
  }

  predicate Touches(node: Node, marked: set<Name>) { exists p :: p in node.parents && p in marked }

  /** One forward pass over the nodes. */
  function Marked(nodes: seq<Node>, root: Name): set<Name> {
    if nodes == [] then {root}
    else
      var before := Marked(nodes[..|nodes| - 1], root);
      if Touches(nodes[|nodes| - 1], before) then before + {nodes[|nodes| - 1].name} else before
  }

  lemma {:induction false} MarkedGrows(nodes: seq<Node>, n: nat, root: Name)
    requires n <= |nodes|
    ensures root in Marked(nodes, root)
    ensures Marked(nodes[..n], root) <= Marked(nodes, root)
  {
    if nodes == [] {
    } else if n == |nodes| {
      assert nodes[..n] == nodes;
      MarkedGrows(nodes[..|nodes| - 1], |nodes| - 1, root);
    } else {
      assert nodes[..|nodes| - 1][..n] == nodes[..n];
      MarkedGrows(nodes[..|nodes| - 1], n, root);
    }
  }

  /** Once a node's turn has passed, a later turn of another node cannot mark it. */
  lemma {:induction false} MarkedInTime(nodes: seq<Node>, root: Name, j: nat, n: nat)
    requires NamesDistinct(nodes) && j < n <= |nodes|
    requires nodes[j].name in Marked(nodes, root)
    ensures nodes[j].name in Marked(nodes[..n], root)
  {
    if n < |nodes| {
      var front := nodes[..|nodes| - 1];
      assert front[..n] == nodes[..n];
      assert front[j].name != nodes[|nodes| - 1].name;
      MarkedInTime(front, root, j, n);
    } else {
      assert nodes[..n] == nodes;
    }
  }

  lemma {:induction false} LastMarked(nodes: seq<Node>, root: Name, p: Name)
    requires nodes != [] && p in nodes[|nodes| - 1].parents && p in Marked(nodes[..|nodes| - 1], root)
    ensures nodes[|nodes| - 1].name in Marked(nodes, root)
  {
    assert Touches(nodes[|nodes| - 1], Marked(nodes[..|nodes| - 1], root));
  }

  lemma {:induction false} MarkedClosedAt(nodes: seq<Node>, root: Name, j: nat, i: nat)
    requires NamesDistinct(nodes) && j < i < |nodes|
    requires nodes[j].name in nodes[i].parents && nodes[j].name in Marked(nodes, root)
    ensures nodes[i].name in Marked(nodes, root)
  {
    MarkedInTime(nodes, root, j, i);
    assert nodes[..i + 1][..i] == nodes[..i];
    LastMarked(nodes[..i + 1], root, nodes[j].name);
    MarkedGrows(nodes, i + 1, root);
  }

  lemma {:induction false} MarkedClosed(nodes: seq<Node>, root: Name, p: Name, c: Name)
    requires ParentsFirst(nodes) && NamesDistinct(nodes)
    requires Link(nodes, p, c) && p in Marked(nodes, root)
    ensures c in Marked(nodes, root)
  {
    var i :| 0 <= i < |nodes| && nodes[i].name == c && p in nodes[i].parents;
    assert Named(nodes[..i], p);
    var j :| 0 <= j < i && nodes[..i][j].name == p;
    MarkedClosedAt(nodes, root, j, i);
  }

  lemma {:induction false} ChainMarked(nodes: seq<Node>, root: Name, path: seq<Name>, k: nat)
    requires ParentsFirst(nodes) && NamesDistinct(nodes)
    requires Chain(nodes, path) && path[0] == root && k < |path|
    ensures path[k] in Marked(nodes, root)
  {
    MarkedGrows(nodes, 0, root);
    if k > 0 {
      ChainMarked(nodes, root, path, k - 1);
      var j := k - 1;
      assert Link(nodes, path[j], path[j + 1]);
      MarkedClosed(nodes, root, path[k - 1], path[k]);
    }
  }

  lemma {:induction false} DependsStep(nodes: seq<Node>, root: Name, p: Name, c: Name)
    requires Depends(nodes, root, p) && Link(nodes, p, c)
    ensures Depends(nodes, root, c)
  {
    var path :| Chain(nodes, path) && path[0] == root && path[|path| - 1] == p;
    var longer := path + [c];
    forall k | 0 <= k < |longer| - 1 ensures Link(nodes, longer[k], longer[k + 1]) {
      if k < |path| - 1 { assert Link(nodes, path[k], path[k + 1]); }
    }
    assert Chain(nodes, longer);
  }

  lemma {:induction false} DependsOnItself(nodes: seq<Node>, root: Name)
    ensures Depends(nodes, root, root)
  {
    assert Chain(nodes, [root]);
  }

  lemma {:induction false} MarkedDepends(nodes: seq<Node>, n: nat, root: Name, c: Name)
    requires n <= |nodes| && c in Marked(nodes[..n], root)
    ensures Depends(nodes, root, c)
  {
    if n == 0 {
      DependsOnItself(nodes, root);
    } else {
      assert nodes[..n][..n - 1] == nodes[..n - 1];
      var before := Marked(nodes[..n - 1], root);
      if c in before {
        MarkedDepends(nodes, n - 1, root, c);
      } else {
        var p :| p in nodes[n - 1].parents && p in before;
        MarkedDepends(nodes, n - 1, root, p);
        assert Link(nodes, p, c);
        DependsStep(nodes, root, p, c);
      }
    }
  }

  /** One forward pass marks exactly the transitive dependents. */
  lemma {:induction false} MarkedExactly(nodes: seq<Node>, root: Name)
    requires ParentsFirst(nodes) && NamesDistinct(nodes)
    ensures forall c :: c in Marked(nodes, root) <==> Depends(nodes, root, c)
  {
    forall c ensures c in Marked(nodes, root) <==> Depends(nodes, root, c) {
      if c in Marked(nodes, root) {
        assert nodes[..|nodes|] == nodes;
        MarkedDepends(nodes, |nodes|, root, c);
      }
      if Depends(nodes, root, c) {
        var path :| Chain(nodes, path) && path[0] == root && path[|path| - 1] == c;
        ChainMarked(nodes, root, path, |path| - 1);
      }
    }
  }

  // ----- the desired graphs name each node once -------------------------------------------------

  ghost predicate InputsDistinct(w: Workflow) {
    && Distinct(w.sources) && Distinct(SliceIds(w.slices))
    && (w.revision.Some? ==> Distinct(w.revision.value))
    && (w.canary.Some? ==> Distinct(w.canary.value))
  }

  lemma {:induction false} DistinctAppend(a: seq<Node>, b: seq<Node>)
    requires NamesDistinct(a) && NamesDistinct(b)
    requires forall i, j :: 0 <= i < |a| && 0 <= j < |b| ==> a[i].name != b[j].name
    ensures NamesDistinct(a + b)
  {
    var c := a + b;
    forall i, j | 0 <= i < j < |c| ensures c[i].name != c[j].name {
      if j < |a| {
        assert c[i] == a[i] && c[j] == a[j];
      } else if i < |a| {
        assert c[i] == a[i] && c[j] == b[j - |a|];
      } else {
        assert c[i] == b[i - |a|] && c[j] == b[j - |a|];
      }
    }
  }

  lemma {:induction false} SourcesAre(w: Workflow, n: nat)
    requires n <= |w.sources|
    ensures |Sources(w, n)| == n
    ensures forall i :: 0 <= i < n ==> Sources(w, n)[i].name == SourcePrepare(w.sources[i])
  {
    if n > 0 { SourcesAre(w, n - 1); }
  }

  lemma {:induction false} SameMultisetDistinct<T(!new)>(a: seq<T>, b: seq<T>)
    requires multiset(a) == multiset(b) && Distinct(b)
    ensures Distinct(a)
  {
    forall i, j | 0 <= i < j < |a| ensures a[i] != a[j] {
      if a[i] == a[j] {
        assert a == a[..i] + [a[i]] + a[i + 1..];
        assert a[j] in a[i + 1..];
        assert multiset(a)[a[i]] >= 2;
        AtMostOnce(b, a[i]);
      }
    }
  }

  lemma {:induction false} AtMostOnce<T>(b: seq<T>, x: T)
    requires Distinct(b)
    ensures multiset(b)[x] <= 1
  {
    if b != [] {
      var front := b[..|b| - 1];
      assert b == front + [b[|b| - 1]];
      AtMostOnce(front, x);
      if x == b[|b| - 1] { assert x !in front; }
    }
  }

  lemma {:induction false} ResourcesDistinct(w: Workflow)
    ensures Distinct(Resources(w))
  {
    SameMultisetDistinct(Resources(w), Dedupe(TargetResources(w.tasks)));
  }

  lemma {:induction false} TailDistinct(w: Workflow, reducers: seq<Name>)
    ensures NamesDistinct(Tail(w, reducers))
    ensures forall j :: 0 <= j < |Tail(w, reducers)| ==> !Tail(w, reducers)[j].name.PassSlice? && !Tail(w, reducers)[j].name.ResourceReduce?
  {
  }

  ghost predicate EarlyKinds(nodes: seq<Node>) {
    forall i :: 0 <= i < |nodes| ==> nodes[i].name.PassSlice? || nodes[i].name.ResourceReduce?
  }

  lemma {:induction false} FrontDistinct(ids: seq<string>, reducers: seq<Node>, resources: seq<string>)
    requires Distinct(ids) && Distinct(resources) && |reducers| == |resources|
    requires forall i :: 0 <= i < |reducers| ==> reducers[i].name == ResourceReduce(resources[i])
    ensures NamesDistinct(Passes(ids) + reducers) && EarlyKinds(Passes(ids) + reducers)
  {
    DistinctAppend(Passes(ids), reducers);
  }

  lemma {:induction false} FullDistinct(w: Workflow)
    requires Distinct(SliceIds(w.slices))
    ensures NamesDistinct(FullGraph(w))
  {
    var reducers := Reducers(w, Resources(w));
    ResourcesDistinct(w);
    FrontDistinct(SliceIds(w.slices), reducers, Resources(w));
    TailDistinct(w, NamesOf(reducers));
    EarlyBeforeTail(Passes(SliceIds(w.slices)) + reducers, Tail(w, NamesOf(reducers)));
    FullGraphSplits(w);
  }

  lemma {:induction false} EarlyBeforeTail(front: seq<Node>, tail: seq<Node>)
    requires NamesDistinct(front) && EarlyKinds(front) && NamesDistinct(tail)
    requires forall j :: 0 <= j < |tail| ==> !tail[j].name.PassSlice? && !tail[j].name.ResourceReduce?
    ensures NamesDistinct(front + tail)
  {
    DistinctAppend(front, tail);
  }

  lemma {:induction false} DesiredDistinct(w: Workflow)
    requires InputsDistinct(w)
    ensures NamesDistinct(Desired(w))
  {
    if w.hasBatch {
      FullDistinct(w);
      PassesDistinct(SliceIds(w.slices));
      if w.revision.Some? { PassesDistinct(w.revision.value); }
      if w.canary.Some? { PassesDistinct(w.canary.value); }
    } else {
      PlanDistinct(w);
    }
  }

  lemma {:induction false} PassesDistinct(ids: seq<string>)
    requires Distinct(ids)
    ensures NamesDistinct(Passes(ids))
  {
  }

  lemma {:induction false} PlanDistinct(w: Workflow)
    requires Distinct(w.sources)
    ensures NamesDistinct(Sources(w, |w.sources|) + [Node(ExactPlan, NamesOf(Sources(w, |w.sources|)), false)])
  {
    SourcesAre(w, |w.sources|);
    DistinctAppend(Sources(w, |w.sources|), [Node(ExactPlan, NamesOf(Sources(w, |w.sources|)), false)]);
  }

  /** On the graph a workflow wants, the pass takes down exactly what waits for the blocked node. */
  lemma {:induction false} DesiredMarkedExactly(w: Workflow, root: Name)
    requires InputsDistinct(w)
    ensures forall c :: c in Marked(Desired(w), root) <==> Depends(Desired(w), root, c)
  {
    DesiredParentsFirst(w);
    DesiredDistinct(w);
    MarkedExactly(Desired(w), root);
  }

  // ----- what the release waits for --------------------------------------------------------------

  /** From index `n` on, each node waits for the one before it. */
  ghost predicate InLine(nodes: seq<Node>, n: nat) {
    forall i :: n < i < |nodes| ==> nodes[i - 1].name in nodes[i].parents
  }

  lemma {:induction false} LineWaits(nodes: seq<Node>, n: nat, root: Name, k: nat)
    requires InLine(nodes, n) && n <= k < |nodes| && Depends(nodes, root, nodes[n].name)
    ensures Depends(nodes, root, nodes[k].name)
  {
    if k > n {
      LineWaits(nodes, n, root, k - 1);
      assert Link(nodes, nodes[k - 1].name, nodes[k].name);
      DependsStep(nodes, root, nodes[k - 1].name, nodes[k].name);
    }
  }

  lemma {:induction false} TailInLine(w: Workflow, front: seq<Node>, reducers: seq<Name>)
    ensures InLine(front + Tail(w, reducers), |front|)
  {
    var tail, nodes := Tail(w, reducers), front + Tail(w, reducers);
    forall i | |front| < i < |nodes| ensures nodes[i - 1].name in nodes[i].parents {
      var k := i - |front|;
      assert tail[k].parents == [tail[k - 1].name];
      assert nodes[i] == tail[k] && nodes[i - 1] == tail[k - 1];
    }
  }

  lemma {:induction false} TailWaits(w: Workflow, front: seq<Node>, reducers: seq<Name>, root: Name)
    requires Depends(front + Tail(w, reducers), root, GlobalReduce)
    ensures forall g :: g in {Checkpoint1Gate, Checkpoint2Gate, ReleaseApply, Acceptance} ==> Depends(front + Tail(w, reducers), root, g)
  {
    TailInLine(w, front, reducers);
    TailNames(w, reducers);
    LineReaches(front, Tail(w, reducers), root, 2);
    LineReaches(front, Tail(w, reducers), root, 6);
    LineReaches(front, Tail(w, reducers), root, 7);
    LineReaches(front, Tail(w, reducers), root, |Tail(w, reducers)| - 1);
  }

  lemma {:induction false} TailNames(w: Workflow, reducers: seq<Name>)
    ensures var tail := Tail(w, reducers);
            && |tail| >= 9 && tail[0].name == GlobalReduce && tail[2].name == Checkpoint1Gate
            && tail[6].name == Checkpoint2Gate && tail[7].name == ReleaseApply && tail[|tail| - 1].name == Acceptance
  {
  }

  lemma {:induction false} LineReaches(front: seq<Node>, tail: seq<Node>, root: Name, k: nat)
    requires InLine(front + tail, |front|) && k < |tail| && Depends(front + tail, root, tail[0].name)
    ensures Depends(front + tail, root, tail[k].name)
  {
    assert (front + tail)[|front| + k] == tail[k] && (front + tail)[|front|] == tail[0];
    LineWaits(front + tail, |front|, root, |front| + k);
  }

  lemma {:induction false} ReducerPlace(w: Workflow, r: nat)
    requires r < |Resources(w)|
    ensures Node(ResourceReduce(Resources(w)[r]), ReducerParents(w, Resources(w)[r]), false) in FullGraph(w)
  {
    var reducers := Reducers(w, Resources(w));
    FullGraphSplits(w);
    ReducersAt(w, Resources(w), r);
    InMiddle(Passes(SliceIds(w.slices)), reducers, Tail(w, NamesOf(reducers)), r);
  }

  lemma {:induction false} InMiddle<T>(a: seq<T>, b: seq<T>, c: seq<T>, i: nat)
    requires i < |b|
    ensures b[i] in a + b + c
  {
    assert (a + b + c)[|a| + i] == b[i];
  }

  lemma {:induction false} AwaitedIsParent(w: Workflow, resource: string, slice: string)
    requires slice in AwaitedSlices(w, resource, w.tasks)
    ensures PassSlice(slice) in ReducerParents(w, resource)
  {
    var awaited := Dedupe(AwaitedSlices(w, resource, w.tasks));
    SameMultisetSameMembers(Sort(StringLeq, awaited), awaited);
    var k: nat :| k < |awaited| && Sort(StringLeq, awaited)[k] == slice;
    assert ReducerParents(w, resource)[k] == PassSlice(slice);
  }

  lemma {:induction false} DirectlyDepends(nodes: seq<Node>, p: Name, c: Node)
    requires c in nodes && p in c.parents
    ensures Depends(nodes, p, c.name)
  {
    DependsOnItself(nodes, p);
    var i :| 0 <= i < |nodes| && nodes[i] == c;
    assert Link(nodes, p, c.name);
    DependsStep(nodes, p, p, c.name);
  }

  lemma {:induction false} AwaitedReaches(w: Workflow, resource: string, slice: string)
    requires resource in Resources(w) && slice in AwaitedSlices(w, resource, w.tasks)
    ensures Depends(FullGraph(w), PassSlice(slice), ResourceReduce(resource))
  {
    var r: nat :| r < |Resources(w)| && Resources(w)[r] == resource;
    ReducerPlace(w, r);
    AwaitedIsParent(w, resource, slice);
    DirectlyDepends(FullGraph(w), PassSlice(slice), Node(ResourceReduce(resource), ReducerParents(w, resource), false));
  }

  lemma {:induction false} ReducerHoldsGlobal(w: Workflow, resource: string)
    requires resource in Resources(w)
    ensures Link(FullGraph(w), ResourceReduce(resource), GlobalReduce)
  {
    var nodes, reducers := FullGraph(w), Reducers(w, Resources(w));
    var r: nat :| r < |Resources(w)| && Resources(w)[r] == resource;
    assert NamesOf(reducers)[r] == ResourceReduce(resource);
    assert nodes[|w.slices| + |reducers|] == Node(GlobalReduce, NamesOf(reducers), false);
  }

  lemma {:induction false} FullGraphSplits(w: Workflow)
    ensures var reducers := Reducers(w, Resources(w));
            FullGraph(w) == Passes(SliceIds(w.slices)) + reducers + Tail(w, NamesOf(reducers))
  {
  }

  /** Both gates and the release wait for every slice some reducer waits for. */
  lemma {:induction false} ReleaseWaitsForParents(w: Workflow, resource: string, slice: string)
    requires resource in Resources(w) && slice in AwaitedSlices(w, resource, w.tasks)
    ensures forall g :: g in {Checkpoint1Gate, Checkpoint2Gate, ReleaseApply, Acceptance} ==> Depends(FullGraph(w), PassSlice(slice), g)
  {
    AwaitedReaches(w, resource, slice);
    ReducerHoldsGlobal(w, resource);
    DependsStep(FullGraph(w), PassSlice(slice), ResourceReduce(resource), GlobalReduce);
    FullGraphSplits(w);
    TailWaits(w, Passes(SliceIds(w.slices)) + Reducers(w, Resources(w)), NamesOf(Reducers(w, Resources(w))), PassSlice(slice));
  }

  lemma {:induction false} FullGraphMarkedExactly(w: Workflow, root: Name, c: Name)
    requires Distinct(SliceIds(w.slices))
    ensures c in Marked(FullGraph(w), root) <==> Depends(FullGraph(w), root, c)
  {
    TailFollows(w);
    FullDistinct(w);
    MarkedExactly(FullGraph(w), root);
  }

  // ----- the board ------------------------------------------------------------------------------------

  /** A card planned from the graph, or a child card the board itself made. */
  datatype Card = Planned(name: Name) | Native(id: string)

  datatype Event = Failed(card: Card) | Archived(card: Card)

  predicate IsArchived(log: seq<Event>, c: Card) { Archived(c) in log }

  /** Every archive comes after the archives of all the card's children. */
  ghost predicate ChildrenFirst(children: Card -> seq<Card>, log: seq<Event>) {
    forall i, c :: 0 <= i < |log| && log[i].Archived? && c in children(log[i].card) ==> Archived(c) in log[..i]
  }

  /** Child links never return to a card they started from. */
  ghost predicate Grounded(children: Card -> seq<Card>, depth: Card -> nat) {
    forall p, c :: c in children(p) ==> depth(c) < depth(p)
  }

  ghost predicate OnlyArchives(log: seq<Event>) { forall i :: 0 <= i < |log| ==> log[i].Archived? }

  /** `b` continues `a` with archives alone, keeping the order and each card archived once. */
  ghost predicate Archiving(children: Card -> seq<Card>, a: seq<Event>, b: seq<Event>) {
    && a <= b && OnlyArchives(b[|a|..])
    && (ChildrenFirst(children, a) ==> ChildrenFirst(children, b))
    && (ArchivedOnce(a) ==> ArchivedOnce(b))
  }

  ghost predicate ArchivedOnce(log: seq<Event>) {
    forall i, j :: 0 <= i < j < |log| && log[i].Archived? ==> log[i] != log[j]
  }

  lemma {:induction false} ArchivingStep(children: Card -> seq<Card>, a: seq<Event>, b: seq<Event>, card: Card)
    requires Archiving(children, a, b) && !IsArchived(b, card)
    requires forall c :: c in children(card) ==> IsArchived(b, c)
    ensures Archiving(children, a, b + [Archived(card)])
  {
    var d := b + [Archived(card)];
    assert d[|a|..] == b[|a|..] + [Archived(card)];
    if ChildrenFirst(children, a) {
      forall i, c | 0 <= i < |d| && d[i].Archived? && c in children(d[i].card) ensures Archived(c) in d[..i] {
        if i < |b| { assert d[..i] == b[..i]; } else { assert d[..i] == b; }
      }
    }
  }

  lemma {:induction false} ArchivingChain(children: Card -> seq<Card>, a: seq<Event>, b: seq<Event>, c: seq<Event>)
    requires Archiving(children, a, b) && Archiving(children, b, c)
    ensures Archiving(children, a, c)
  {
    forall i | 0 <= i < |c[|a|..]| ensures c[|a|..][i].Archived? {
      if |a| + i < |b| {
        assert c[|a| + i] == b[|a| + i] && b[|a|..][i].Archived?;
      } else {
        assert c[|b|..][|a| + i - |b|].Archived?;
      }
    }
  }

  /** The cards in the subtree of `p`. */
  ghost predicate Below(children: Card -> seq<Card>, depth: Card -> nat, p: Card, c: Card)
    requires Grounded(children, depth)
    decreases depth(p)
  {
    p == c || exists k :: k in children(p) && Below(children, depth, k, c)
  }

  lemma {:induction false} BelowIsDeeper(children: Card -> seq<Card>, depth: Card -> nat, p: Card, c: Card)
    requires Grounded(children, depth) && Below(children, depth, p, c)
    ensures p == c || depth(c) < depth(p)
    decreases depth(p)
  {
    if p != c {
      var k :| k in children(p) && Below(children, depth, k, c);
      BelowIsDeeper(children, depth, k, c);
    }
  }

  /** What `b` archived beyond `a` lies in the subtree of `p`. */
  ghost predicate OnlyBelow(children: Card -> seq<Card>, depth: Card -> nat, a: seq<Event>, b: seq<Event>, p: Card)
    requires Grounded(children, depth)
  {
    forall c :: IsArchived(b, c) && !IsArchived(a, c) ==> Below(children, depth, p, c)
  }

  lemma {:induction false} KidNotParent(children: Card -> seq<Card>, depth: Card -> nat, card: Card, kid: Card)
    requires Grounded(children, depth) && kid in children(card)
    ensures !Below(children, depth, kid, card)
  {
    if Below(children, depth, kid, card) { BelowIsDeeper(children, depth, kid, card); }
  }

  lemma {:induction false} KidStep(
      children: Card -> seq<Card>, depth: Card -> nat, a: seq<Event>, b: seq<Event>, c: seq<Event>, card: Card, kid: Card)
    requires Grounded(children, depth) && kid in children(card)
    requires OnlyBelow(children, depth, a, b, card) && OnlyBelow(children, depth, b, c, kid)
    requires !IsArchived(b, card)
    ensures OnlyBelow(children, depth, a, c, card) && !IsArchived(c, card)
  {
    KidNotParent(children, depth, card, kid);
  }

  /** At no moment does an archived card have a child still open: closing it promotes nothing. */
  lemma {:induction false} NothingPromoted(children: Card -> seq<Card>, log: seq<Event>, n: nat, p: Card, c: Card)
    requires ChildrenFirst(children, log) && n <= |log|
    requires IsArchived(log[..n], p) && c in children(p)
    ensures IsArchived(log[..n], c)
  {
    var i: nat :| i < n && log[i] == Archived(p);
    assert Archived(c) in log[..i];
    assert log[..i] == log[..n][..i];
  }

  // ----- the guards ------------------------------------------------------------------------------------

  /** `guarded` continues `before` with failure records alone: each marked node has one,
      each new one is for a marked node that had none. */
  ghost predicate Guarding(before: seq<Event>, guarded: seq<Event>, marked: set<Name>) {
    && before <= guarded
    && (forall c :: c in marked ==> Failed(Planned(c)) in guarded)
    && (forall i :: |before| <= i < |guarded| ==> NewGuard(guarded[..i], guarded[i], marked))
  }

  ghost predicate NewGuard(earlier: seq<Event>, e: Event, marked: set<Name>) {
    e.Failed? && e.card.Planned? && e.card.name in marked && e !in earlier
  }

  lemma {:induction false} GuardingStep(before: seq<Event>, guarded: seq<Event>, marked: set<Name>, c: Name)
    requires Guarding(before, guarded, marked)
    ensures var more := if Failed(Planned(c)) in guarded then guarded else guarded + [Failed(Planned(c))];
            Guarding(before, more, marked + {c})
  {
    var more := if Failed(Planned(c)) in guarded then guarded else guarded + [Failed(Planned(c))];
    forall i | |before| <= i < |more| ensures NewGuard(more[..i], more[i], marked + {c}) {
      if i < |guarded| {
        assert more[..i] == guarded[..i];
        assert NewGuard(guarded[..i], guarded[i], marked);
      } else {
        assert more[..i] == guarded;
      }
    }
  }

  /** The new archives lie in the subtrees of marked cards. */
  ghost predicate OnlyUnder(children: Card -> seq<Card>, depth: Card -> nat, a: seq<Event>, b: seq<Event>, marked: set<Name>)
    requires Grounded(children, depth)
  {
    forall c :: IsArchived(b, c) && !IsArchived(a, c) ==> UnderMarked(children, depth, c, marked)
  }

  ghost predicate UnderMarked(children: Card -> seq<Card>, depth: Card -> nat, c: Card, marked: set<Name>)
    requires Grounded(children, depth)
  {
    exists m :: m in marked && Below(children, depth, Planned(m), c)
  }

  lemma {:induction false} OnlyUnderStep(
      children: Card -> seq<Card>, depth: Card -> nat, a: seq<Event>, b: seq<Event>, c: seq<Event>, marked: set<Name>, m: Name)
    requires Grounded(children, depth) && m in marked
    requires OnlyUnder(children, depth, a, b, marked) && OnlyBelow(children, depth, b, c, Planned(m))
    ensures OnlyUnder(children, depth, a, c, marked)
  {
  }

  // ----- the order of the second pass -------------------------------------------------------------------

  /** The board's own links never lead from a node's card to the card of an earlier node. */
  ghost predicate FollowsGraph(children: Card -> seq<Card>, depth: Card -> nat, nodes: seq<Node>)
    requires Grounded(children, depth)
  {
    forall i, j :: 0 <= i < |nodes| && 0 <= j < |nodes| && Below(children, depth, Planned(nodes[i].name), Planned(nodes[j].name))
      ==> i <= j
  }

  ghost predicate ComesFirst(nodes: seq<Node>, root: Name, marked: set<Name>) {
    forall r, j :: 0 <= r < |nodes| && 0 <= j < |nodes| && nodes[r].name == root && nodes[j].name in marked ==> r <= j
  }

  lemma {:induction false} NoParentAhead(nodes: seq<Node>, root: Name, r: nat, x: nat)
    requires ParentsFirst(nodes) && NamesDistinct(nodes) && x <= r < |nodes| && nodes[r].name == root
    ensures root !in nodes[x].parents
  {
    assert root in nodes[x].parents ==> Named(nodes[..x], root);
    forall j | 0 <= j < x ensures nodes[..x][j].name != root { assert nodes[j].name != nodes[r].name; }
  }

  /** Before a node has its turn nothing but the root is marked, if the root comes later. */
  lemma {:induction false} NothingMarkedBefore(nodes: seq<Node>, root: Name, r: nat, n: nat)
    requires ParentsFirst(nodes) && NamesDistinct(nodes) && n <= r < |nodes| && nodes[r].name == root
    ensures Marked(nodes[..n], root) == {root}
  {
    if n > 0 {
      NothingMarkedBefore(nodes, root, r, n - 1);
      assert nodes[..n][..n - 1] == nodes[..n - 1];
      NoParentAhead(nodes, root, r, n - 1);
    }
  }

  lemma {:induction false} RootComesFirst(nodes: seq<Node>, root: Name)
    requires ParentsFirst(nodes) && NamesDistinct(nodes)
    ensures ComesFirst(nodes, root, Marked(nodes, root))
  {
    forall r: nat, j: nat | j < r < |nodes| && nodes[r].name == root ensures nodes[j].name !in Marked(nodes, root) {
      assert nodes[j].name != root;
      NothingMarkedBefore(nodes, root, r, j + 1);
      if nodes[j].name in Marked(nodes, root) { MarkedInTime(nodes, root, j, j + 1); }
    }
  }

  /** `b` archives a marked card, unless `a` had it archived, after those of all later marked nodes. */
  ghost predicate LaterFirst(nodes: seq<Node>, marked: set<Name>, a: seq<Event>, b: seq<Event>) {
    forall i, j, k :: 0 <= i < j < |nodes| && nodes[i].name in marked && nodes[j].name in marked
      && |a| <= k < |b| && b[k] == Archived(Planned(nodes[i].name)) && !IsArchived(a, Planned(nodes[i].name))
      ==> IsArchived(b[..k], Planned(nodes[j].name))
  }

  /** The marked nodes before `n`, and the root, are as `a` had them. */
  ghost predicate Untouched(nodes: seq<Node>, root: Name, marked: set<Name>, a: seq<Event>, b: seq<Event>, n: nat)
    requires n <= |nodes|
  {
    forall i :: 0 <= i < |nodes| && nodes[i].name in marked && (i < n || nodes[i].name == root) ==>
      IsArchived(b, Planned(nodes[i].name)) ==> IsArchived(a, Planned(nodes[i].name))
  }

  ghost predicate DoneFrom(nodes: seq<Node>, root: Name, marked: set<Name>, log: seq<Event>, n: nat) {
    forall i :: n <= i < |nodes| && nodes[i].name in marked - {root} ==> IsArchived(log, Planned(nodes[i].name))
  }

  /** Archiving the subtree of node `n` when all later marked nodes are done keeps the order. */
  lemma {:induction false} LaterFirstStep(children: Card -> seq<Card>, depth: Card -> nat, nodes: seq<Node>, root: Name,
                                          marked: set<Name>, a: seq<Event>, b: seq<Event>, c: seq<Event>, n: nat)
    requires Grounded(children, depth) && FollowsGraph(children, depth, nodes) && ComesFirst(nodes, root, marked)
    requires n < |nodes| && nodes[n].name in marked && a <= b <= c
    requires OnlyBelow(children, depth, b, c, Planned(nodes[n].name))
    requires LaterFirst(nodes, marked, a, b)
    requires Untouched(nodes, root, marked, a, b, n + 1) && DoneFrom(nodes, root, marked, b, n + 1)
    ensures LaterFirst(nodes, marked, a, c)
    ensures Untouched(nodes, root, marked, a, c, n) || nodes[n].name == root
  {
    forall i, j, k | 0 <= i < j < |nodes| && nodes[i].name in marked && nodes[j].name in marked
      && |a| <= k < |c| && c[k] == Archived(Planned(nodes[i].name)) && !IsArchived(a, Planned(nodes[i].name))
      ensures IsArchived(c[..k], Planned(nodes[j].name))
    {
      if k < |b| {
        assert b[k] == c[k] && c[..k] == b[..k];
      } else {
        assert c[..|b|] == b;
        NotEarlier(children, depth, nodes, root, marked, a, b, c, n, i);
        assert n <= i < j && nodes[j].name != root;
        assert IsArchived(b, Planned(nodes[j].name));
        assert forall e :: e in b ==> e in c[..k];
      }
    }
    forall i | 0 <= i < |nodes| && nodes[i].name in marked && (i < n || nodes[i].name == root)
               && IsArchived(c, Planned(nodes[i].name)) && nodes[n].name != root
      ensures IsArchived(a, Planned(nodes[i].name))
    {
      NotEarlier(children, depth, nodes, root, marked, a, b, c, n, i);
    }
  }

  /** What the subtree of node `n` adds is no earlier marked node, and not the root. */
  lemma {:induction false} NotEarlier(children: Card -> seq<Card>, depth: Card -> nat, nodes: seq<Node>, root: Name,
                                      marked: set<Name>, a: seq<Event>, b: seq<Event>, c: seq<Event>, n: nat, i: nat)
    requires Grounded(children, depth) && FollowsGraph(children, depth, nodes) && ComesFirst(nodes, root, marked)
    requires n < |nodes| && i < |nodes| && nodes[n].name in marked && nodes[i].name in marked
    requires OnlyBelow(children, depth, b, c, Planned(nodes[n].name)) && Untouched(nodes, root, marked, a, b, n + 1)
    ensures IsArchived(c, Planned(nodes[i].name)) && !IsArchived(a, Planned(nodes[i].name)) ==>
              n <= i && (nodes[i].name == root ==> i == n)
  {
    assert IsArchived(c, Planned(nodes[i].name)) && !IsArchived(b, Planned(nodes[i].name))
      ==> Below(children, depth, Planned(nodes[n].name), Planned(nodes[i].name));
  }

  /** The root closes the pass: every marked node is done. */
  lemma {:induction false} RootLast(nodes: seq<Node>, root: Name, marked: set<Name>, a: seq<Event>, b: seq<Event>, c: seq<Event>)
    requires ComesFirst(nodes, root, marked) && a <= b <= c && LaterFirst(nodes, marked, a, b) && DoneFrom(nodes, root, marked, b, 0)
    ensures LaterFirst(nodes, marked, a, c)
  {
    forall i, j, k | 0 <= i < j < |nodes| && nodes[i].name in marked && nodes[j].name in marked
      && |a| <= k < |c| && c[k] == Archived(Planned(nodes[i].name)) && !IsArchived(a, Planned(nodes[i].name))
      ensures IsArchived(c[..k], Planned(nodes[j].name))
    {
      if k < |b| {
        assert b[k] == c[k] && c[..k] == b[..k];
      } else {
        assert nodes[j].name != root && IsArchived(b, Planned(nodes[j].name));
        assert forall e :: e in b ==> e in c[..k];
      }
    }
  }

  /** Whenever a marked card is archived that was open before, every marked node that waits for it
      is archived already. */
  ghost predicate DependentsFirst(nodes: seq<Node>, marked: set<Name>, a: seq<Event>, b: seq<Event>) {
    forall i, j, k :: 0 <= i < |nodes| && 0 <= j < |nodes| && nodes[i].name in marked && nodes[j].name in marked
      && nodes[i].name in nodes[j].parents
      && |a| <= k < |b| && b[k] == Archived(Planned(nodes[i].name)) && !IsArchived(a, Planned(nodes[i].name))
      ==> IsArchived(b[..k], Planned(nodes[j].name))
  }

  lemma {:induction false} LaterAreDependents(nodes: seq<Node>, marked: set<Name>, a: seq<Event>, b: seq<Event>)
    requires ParentsFirst(nodes) && NamesDistinct(nodes) && LaterFirst(nodes, marked, a, b)
    ensures DependentsFirst(nodes, marked, a, b)
  {
    forall i, j | 0 <= i < |nodes| && 0 <= j < |nodes| && nodes[i].name in nodes[j].parents ensures i < j {
      assert Named(nodes[..j], nodes[i].name);
      var x :| 0 <= x < j && nodes[..j][x].name == nodes[i].name;
      assert nodes[x].name == nodes[i].name;
    }
  }

  class Board {
    const children: Card -> seq<Card>
    var log: seq<Event>

    constructor (children: Card -> seq<Card>)
      ensures this.children == children && log == []
    {
      this.children := children;
      log := [];
    }

    /** `KanbanCLI.archive`: the subtree first, children before parents, nothing outside it. */
    method Archive(card: Card, ghost depth: Card -> nat)
      requires Grounded(children, depth)
      modifies this
      ensures Archiving(children, old(log), log) && IsArchived(log, card)
      ensures OnlyBelow(children, depth, old(log), log, card)
      decreases depth(card)
    {
      if !IsArchived(log, card) {
        var kids := children(card);
        for k := 0 to |kids|
          invariant Archiving(children, old(log), log) && !IsArchived(log, card)
          invariant forall j :: 0 <= j < k ==> IsArchived(log, kids[j])
          invariant OnlyBelow(children, depth, old(log), log, card)
        {
          ghost var before := log;
          Archive(kids[k], depth);
          ArchivingChain(children, old(log), before, log);
          KidStep(children, depth, old(log), before, log, card, kids[k]);
        }
        ArchivingStep(children, old(log), log, card);
        log := log + [Archived(card)];
      }
    }

    /** First pass: mark the dependents, and record a failure for each that has none. */
    method Guard(nodes: seq<Node>, root: Name) returns (marked: set<Name>)
      requires Failed(Planned(root)) in log
      modifies this
      ensures marked == Marked(nodes, root)
      ensures Guarding(old(log), log, marked)
    {
      marked := {root};
      for n := 0 to |nodes|
        invariant marked == Marked(nodes[..n], root)
        invariant Guarding(old(log), log, marked)
      {
        assert nodes[..n + 1][..n] == nodes[..n];
        if Touches(nodes[n], marked) {
          var c := nodes[n].name;
          GuardingStep(old(log), log, marked, c);
          marked := marked + {c};
          if Failed(Planned(c)) !in log { log := log + [Failed(Planned(c))]; }
        }
      }
      assert nodes[..|nodes|] == nodes;
    }

    /** Second pass: archive the marked cards from the last node to the first, `root` at the end. */
    method Close(nodes: seq<Node>, root: Name, marked: set<Name>, ghost depth: Card -> nat)
      requires Grounded(children, depth) && root in marked
      modifies this
      ensures Archiving(children, old(log), log)
      ensures forall i :: 0 <= i < |nodes| && nodes[i].name in marked ==> IsArchived(log, Planned(nodes[i].name))
      ensures IsArchived(log, Planned(root))
      ensures OnlyUnder(children, depth, old(log), log, marked)
      ensures FollowsGraph(children, depth, nodes) && ComesFirst(nodes, root, marked) ==> LaterFirst(nodes, marked, old(log), log)
    {
      ghost var ordered := FollowsGraph(children, depth, nodes) && ComesFirst(nodes, root, marked);
      for n := |nodes| downto 0
        invariant Archiving(children, old(log), log)
        invariant DoneFrom(nodes, root, marked, log, n)
        invariant OnlyUnder(children, depth, old(log), log, marked)
        invariant ordered ==> LaterFirst(nodes, marked, old(log), log) && Untouched(nodes, root, marked, old(log), log, n)
      {
        if nodes[n].name in marked && nodes[n].name != root {
          ghost var before := log;
          CloseOne(nodes[n].name, marked, old(log), depth);
          if ordered { LaterFirstStep(children, depth, nodes, root, marked, old(log), before, log, n); }
        }
      }
      ghost var before := log;
      CloseOne(root, marked, old(log), depth);
      if ordered { RootLast(nodes, root, marked, old(log), before, log); }
    }

    method CloseOne(m: Name, marked: set<Name>, ghost start: seq<Event>, ghost depth: Card -> nat)
      requires Grounded(children, depth) && m in marked
      requires Archiving(children, start, log) && OnlyUnder(children, depth, start, log, marked)
      modifies this
      ensures Archiving(children, start, log) && OnlyUnder(children, depth, start, log, marked)
      ensures old(log) <= log && IsArchived(log, Planned(m))
      ensures OnlyBelow(children, depth, old(log), log, Planned(m))
    {
      Archive(Planned(m), depth);
      ArchivingChain(children, start, old(log), log);
      OnlyUnderStep(children, depth, start, old(log), log, marked, m);
    }

    /** A blocked node takes down exactly what waits for it: every dependent has its failure
        record before the first archive, and the archives go children first. When the board's own
        links go with the graph, each of them is archived before the marked nodes it waits for. */
    method TakeDown(nodes: seq<Node>, root: Name, ghost depth: Card -> nat) returns (ghost guarded: seq<Event>)
      requires Grounded(children, depth) && Failed(Planned(root)) in log
      requires ParentsFirst(nodes) && NamesDistinct(nodes)
      modifies this
      ensures Guarding(old(log), guarded, Marked(nodes, root))
      ensures forall c :: Depends(nodes, root, c) ==> Failed(Planned(c)) in guarded && IsArchived(log, Planned(c))
      ensures Archiving(children, guarded, log)
      ensures OnlyUnder(children, depth, guarded, log, Marked(nodes, root))
      ensures FollowsGraph(children, depth, nodes) ==> DependentsFirst(nodes, Marked(nodes, root), guarded, log)
    {
      var marked := Guard(nodes, root);
      guarded := log;
      MarkedGrows(nodes, 0, root);
      Close(nodes, root, marked, depth);
      RootComesFirst(nodes, root);
      if FollowsGraph(children, depth, nodes) { LaterAreDependents(nodes, marked, guarded, log); }
      MarkedExactly(nodes, root);
      MarkedNamed(nodes, root);
    }
  }

  lemma {:induction false} MarkedNamed(nodes: seq<Node>, root: Name)
    ensures forall c :: c in Marked(nodes, root) && c != root ==> Named(nodes, c)
  {
    if nodes != [] {
      var front := nodes[..|nodes| - 1];
      MarkedNamed(front, root);
      forall c | c in Marked(nodes, root) && c != root ensures Named(nodes, c) {
        if c in Marked(front, root) {
          NamedInLonger(front, nodes, c);
        } else {
          assert nodes[|nodes| - 1].name == c;
        }
      }
    }
  }
}
