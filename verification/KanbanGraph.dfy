/** The desired task graph of an ingest workflow, derived from Vault records. */
module KanbanGraph {
  import opened Basics

  /** A node's name; the text before the first colon is its kind. */
  datatype Name =
    | SourcePrepare(digest: string)
    | ExactPlan
    | PassSlice(slice: string)
    | ResourceReduce(resource: string)
    | GlobalReduce
    | Checkpoint1Validate
    | Checkpoint1Gate
    | BuildFinalize
    | VaultFinalizePlan
    | Checkpoint2Validate
    | Checkpoint2Gate
    | ReleaseApply
    | ProviderSync
    | Acceptance

  datatype Node = Node(name: Name, parents: seq<Name>, gate: bool)

  datatype Stage = Analyzing | Reducing | Checkpoint1 | BuildFinalizing | ReleasePlanning | Checkpoint2
                 | Applying | Indexing | Validating | Done

  datatype Slice = Slice(id: string, tasks: seq<string>)

  /** `resources` are the task's target resources, sorted and without repetition. */
  datatype Task = Task(id: string, skipped: bool, resources: seq<string>)

  /** What the graph reads from the workflow record and the Vault. `canary` are the dispatch
      policy's slice ids when its mode is canary; `gaps` are the partly excluded slices. */
  datatype Workflow = Workflow(
    hasBatch: bool, sources: seq<string>, awaitingReview: bool, revision: Option<seq<string>>,
    staged: bool, pausedAtPlan: bool, canaryOnly: bool, autoFull: bool, canary: Option<seq<string>>,
    stage: Stage, providerSync: bool, slices: seq<Slice>, tasks: seq<Task>, gaps: set<string>, passed: set<string>)

  // ----- the graph as a function -------------------------------------------------------------

  function Sources(w: Workflow, n: nat): seq<Node>
    requires n <= |w.sources|
  {
    if n == 0 then [] else Sources(w, n - 1) + [Node(SourcePrepare(w.sources[n - 1]), [], false)]
  }

  function Passes(ids: seq<string>): (nodes: seq<Node>)
    ensures |nodes| == |ids| && forall i :: 0 <= i < |ids| ==> nodes[i] == Node(PassSlice(ids[i]), [], false)
  {
    seq(|ids|, i requires 0 <= i < |ids| => Node(PassSlice(ids[i]), [], false))
  }

  function SliceIds(slices: seq<Slice>): (ids: seq<string>)
    ensures |ids| == |slices| && forall i :: 0 <= i < |ids| ==> ids[i] == slices[i].id
  {
    seq(|slices|, i requires 0 <= i < |slices| => slices[i].id)
  }

  lemma {:induction false} SliceIdsGrow(slices: seq<Slice>)
    requires slices != []
    ensures forall id :: id in SliceIds(slices[..|slices| - 1]) ==> id in SliceIds(slices)
  {
    assert SliceIds(slices) == SliceIds(slices[..|slices| - 1]) + [slices[|slices| - 1].id];
  }

  /** `pass_nodes`: the last slice that lists the task. */
  function SliceOf(slices: seq<Slice>, task: string): (slice: Option<string>)
    ensures slice.Some? ==> slice.value in SliceIds(slices)
  {
    if slices == [] then None
    else
      var last := slices[|slices| - 1];
      if task in last.tasks then
        assert SliceIds(slices)[|slices| - 1] == last.id;
        Some(last.id)
      else
        SliceIdsGrow(slices);
        SliceOf(slices[..|slices| - 1], task)
  }

  function TargetResources(tasks: seq<Task>): seq<string> {
    if tasks == [] then []
    else
      var t := tasks[|tasks| - 1];
      TargetResources(tasks[..|tasks| - 1]) + (if t.skipped then [] else t.resources)
  }

  function Resources(w: Workflow): seq<string> { Sort(StringLeq, Dedupe(TargetResources(w.tasks))) }

  /** The slices a resource waits for: those of its live tasks, unless the slice is partly
      excluded and the task has its own verified passes. */
  function AwaitedSlices(w: Workflow, resource: string, tasks: seq<Task>): (ids: seq<string>)
    ensures forall id :: id in ids ==> id in SliceIds(w.slices)
  {
    if tasks == [] then []
    else
      var t := tasks[|tasks| - 1];
      var s := SliceOf(w.slices, t.id);
      AwaitedSlices(w, resource, tasks[..|tasks| - 1])
      + (if !t.skipped && resource in t.resources && s.Some? && !(s.value in w.gaps && t.id in w.passed) then [s.value] else [])
  }

  function ReducerParents(w: Workflow, resource: string): seq<Name> {
    var ids := Sort(StringLeq, Dedupe(AwaitedSlices(w, resource, w.tasks)));
    PassNames(ids)
  }

  function PassNames(ids: seq<string>): (names: seq<Name>)
    ensures |names| == |ids| && forall i :: 0 <= i < |ids| ==> names[i] == PassSlice(ids[i])
  {
    if ids == [] then [] else PassNames(ids[..|ids| - 1]) + [PassSlice(ids[|ids| - 1])]
  }

  function Reducer(w: Workflow, resource: string): Node { Node(ResourceReduce(resource), ReducerParents(w, resource), false) }

  function Reducers(w: Workflow, resources: seq<string>): (nodes: seq<Node>)
    ensures |nodes| == |resources|
    ensures forall i :: 0 <= i < |nodes| ==> nodes[i].name == ResourceReduce(resources[i])
  {
    if resources == [] then []
    else Reducers(w, resources[..|resources| - 1]) + [Reducer(w, resources[|resources| - 1])]
  }

  lemma {:induction false} ReducersAt(w: Workflow, resources: seq<string>, i: nat)
    requires i < |resources|
    ensures Reducers(w, resources)[i] == Reducer(w, resources[i])
  {
    if i < |resources| - 1 { ReducersAt(w, resources[..|resources| - 1], i); }
  }

  function NamesOf(nodes: seq<Node>): (names: seq<Name>)
    ensures |names| == |nodes| && forall i :: 0 <= i < |nodes| ==> names[i] == nodes[i].name
  {
    seq(|nodes|, i requires 0 <= i < |nodes| => nodes[i].name)
  }

  function Tail(w: Workflow, reducers: seq<Name>): seq<Node> {
    [Node(GlobalReduce, reducers, false), Node(Checkpoint1Validate, [GlobalReduce], false),
     Node(Checkpoint1Gate, [Checkpoint1Validate], true), Node(BuildFinalize, [Checkpoint1Gate], false),
     Node(VaultFinalizePlan, [BuildFinalize], false), Node(Checkpoint2Validate, [VaultFinalizePlan], false),
     Node(Checkpoint2Gate, [Checkpoint2Validate], true), Node(ReleaseApply, [Checkpoint2Gate], false)]
    + (if w.providerSync then [Node(ProviderSync, [ReleaseApply], false), Node(Acceptance, [ProviderSync], false)]
       else [Node(Acceptance, [ReleaseApply], false)])
  }

  function FullGraph(w: Workflow): seq<Node> {
    var reducers := Reducers(w, Resources(w));
    Passes(SliceIds(w.slices)) + reducers + Tail(w, NamesOf(reducers))
  }

  /** The last kind a staged workflow may open in its current stage. */
  predicate LastKind(w: Workflow, name: Name) {
    match w.stage
    case Analyzing => name.PassSlice?
    case Reducing => name.Checkpoint1Validate?
    case Checkpoint1 => name.Checkpoint1Gate?
    case BuildFinalizing => name.BuildFinalize?
    case ReleasePlanning => name.Checkpoint2Validate?
    case Checkpoint2 => name.Checkpoint2Gate?
    case Applying => name.ReleaseApply?
    case Indexing => if w.providerSync then name.ProviderSync? else name.ReleaseApply?
    case Validating => name.Acceptance?
    case Done => name.Acceptance?
  }

  /** Length of the prefix that ends at the last node of the eligible kind. */
  function EligibleLength(w: Workflow, nodes: seq<Node>): (n: nat)
    ensures n <= |nodes|
  {
    if nodes == [] then 0
    else if LastKind(w, nodes[|nodes| - 1].name) then |nodes|
    else EligibleLength(w, nodes[..|nodes| - 1])
  }

  function Desired(w: Workflow): seq<Node> {
    if !w.hasBatch then
      Sources(w, |w.sources|) + [Node(ExactPlan, NamesOf(Sources(w, |w.sources|)), false)]
    else if w.awaitingReview then []
    else if w.revision.Some? then Passes(w.revision.value)
    else if w.staged && w.pausedAtPlan then []
    else if (w.canaryOnly || w.staged) && w.canary.Some? then Passes(w.canary.value)
    else if w.stage == Analyzing && (w.staged || w.autoFull) then Passes(SliceIds(w.slices))
    else if w.staged then FullGraph(w)[..EligibleLength(w, FullGraph(w))]
    else FullGraph(w)
  }

  // ----- the builder ------------------------------------------------------------------------------

  method DesiredGraph(w: Workflow) returns (nodes: seq<Node>)
    ensures nodes == Desired(w)
  {
    if !w.hasBatch {
      nodes := [];
      for n := 0 to |w.sources|
        invariant nodes == Sources(w, n)
      {
        nodes := nodes + [Node(SourcePrepare(w.sources[n]), [], false)];
      }
      return nodes + [Node(ExactPlan, NamesOf(nodes), false)];
    }
    if w.awaitingReview || (w.revision.None? && w.staged && w.pausedAtPlan) { return []; }
    if w.revision.Some? { return Passes(w.revision.value); }
    if (w.canaryOnly || w.staged) && w.canary.Some? { return Passes(w.canary.value); }
    nodes := AddPasses(w.slices);
    if w.stage == Analyzing && (w.staged || w.autoFull) { return; }
    var reducers := AddReducers(w);
    nodes := nodes + reducers + Tail(w, NamesOf(reducers));
    if w.staged {
      var keep := PrefixEnd(w, nodes);
      nodes := nodes[..keep];
    }
  }

  method AddPasses(slices: seq<Slice>) returns (nodes: seq<Node>)
    ensures nodes == Passes(SliceIds(slices))
  {
    nodes := [];
    for n := 0 to |slices|
      invariant |nodes| == n && forall i :: 0 <= i < n ==> nodes[i] == Node(PassSlice(slices[i].id), [], false)
    {
      nodes := nodes + [Node(PassSlice(slices[n].id), [], false)];
    }
  }

  lemma {:induction false} ReducersNext(w: Workflow, resources: seq<string>, n: nat)
    requires n < |resources|
    ensures Reducers(w, resources[..n + 1]) == Reducers(w, resources[..n]) + [Reducer(w, resources[n])]
  {
    assert resources[..n + 1][..n] == resources[..n];
  }

  method AddReducers(w: Workflow) returns (nodes: seq<Node>)
    ensures nodes == Reducers(w, Resources(w))
  {
    var resources := Resources(w);
    nodes := [];
    for n := 0 to |resources|
      invariant nodes == Reducers(w, resources[..n])
    {
      ReducersNext(w, resources, n);
      nodes := nodes + [Node(ResourceReduce(resources[n]), ReducerParents(w, resources[n]), false)];
    }
    assert resources[..|resources|] == resources;
  }

  method PrefixEnd(w: Workflow, nodes: seq<Node>) returns (keep: nat)
    ensures keep == EligibleLength(w, nodes)
  {
    keep := 0;
    for n := 0 to |nodes|
      invariant keep == EligibleLength(w, nodes[..n]) <= n
    {
      assert nodes[..n + 1][..n] == nodes[..n];
      if LastKind(w, nodes[n].name) { keep := n + 1; }
    }
    assert nodes[..|nodes|] == nodes;
  }

  // ----- parents first ------------------------------------------------------------------------------

  /** Every parent of a node is the name of an earlier node. */
  ghost predicate ParentsFirst(nodes: seq<Node>) {
    forall i, p :: 0 <= i < |nodes| && p in nodes[i].parents ==> Named(nodes[..i], p)
  }

  ghost predicate Named(nodes: seq<Node>, p: Name) { exists j :: 0 <= j < |nodes| && nodes[j].name == p }

  lemma {:induction false} NamedInLonger(a: seq<Node>, b: seq<Node>, p: Name)
    requires a <= b && Named(a, p)
    ensures Named(b, p)
  {
    var j :| 0 <= j < |a| && a[j].name == p;
    assert b[j] == a[j];
  }

  /** Appending nodes whose parents are already there. */
  lemma {:induction false} ParentsFirstAppend(a: seq<Node>, b: seq<Node>)
    requires ParentsFirst(a)
    requires forall i, p :: 0 <= i < |b| && p in b[i].parents ==> Named(a + b[..i], p)
    ensures ParentsFirst(a + b)
  {
    var c := a + b;
    forall i, p | 0 <= i < |c| && p in c[i].parents ensures Named(c[..i], p) {
      if i < |a| {
        assert c[..i] == a[..i];
      } else {
        assert c[..i] == a + b[..i - |a|] && c[i] == b[i - |a|];
      }
    }
  }

  lemma {:induction false} ReducersFollowPasses(w: Workflow)
    ensures ParentsFirst(Passes(SliceIds(w.slices)) + Reducers(w, Resources(w)))
  {
    var passes, reducers := Passes(SliceIds(w.slices)), Reducers(w, Resources(w));
    forall i, p | 0 <= i < |reducers| && p in reducers[i].parents ensures Named(passes + reducers[..i], p) {
      ReducersAt(w, Resources(w), i);
      ParentIsPass(w, Resources(w)[i], p);
      NamedInLonger(passes, passes + reducers[..i], p);
    }
    ParentsFirstAppend(passes, reducers);
  }

  lemma {:induction false} ParentIsPass(w: Workflow, resource: string, p: Name)
    requires p in ReducerParents(w, resource)
    ensures Named(Passes(SliceIds(w.slices)), p)
  {
    var ids, awaited := SliceIds(w.slices), Dedupe(AwaitedSlices(w, resource, w.tasks));
    SameMultisetSameMembers(Sort(StringLeq, awaited), awaited);
    var k :| 0 <= k < |ReducerParents(w, resource)| && ReducerParents(w, resource)[k] == p;
    assert Sort(StringLeq, awaited)[k] in awaited;
    var j :| 0 <= j < |ids| && ids[j] == Sort(StringLeq, awaited)[k];
    assert Passes(ids)[j].name == p;
  }

  lemma {:induction false} TailFollows(w: Workflow)
    ensures ParentsFirst(FullGraph(w))
  {
    var reducers := Reducers(w, Resources(w));
    var front := Passes(SliceIds(w.slices)) + reducers;
    ReducersFollowPasses(w);
    forall k | 0 <= k < |reducers| ensures Named(front, reducers[k].name) {
      assert front[|w.slices| + k].name == reducers[k].name;
    }
    TailAfter(w, front, NamesOf(reducers));
    ParentsFirstAppend(front, Tail(w, NamesOf(reducers)));
  }

  lemma {:induction false} TailAfter(w: Workflow, front: seq<Node>, reducers: seq<Name>)
    requires forall k :: 0 <= k < |reducers| ==> Named(front, reducers[k])
    ensures var tail := Tail(w, reducers);
            forall i, p :: 0 <= i < |tail| && p in tail[i].parents ==> Named(front + tail[..i], p)
  {
    var tail := Tail(w, reducers);
    forall i, p | 0 <= i < |tail| && p in tail[i].parents ensures Named(front + tail[..i], p) {
      if i == 0 {
        assert front + tail[..0] == front;
      } else {
        assert tail[i].parents == [tail[i - 1].name];
        assert (front + tail[..i])[|front| + i - 1].name == p;
      }
    }
  }

  lemma {:induction false} SourcesFree(w: Workflow, n: nat)
    requires n <= |w.sources|
    ensures forall i :: 0 <= i < |Sources(w, n)| ==> Sources(w, n)[i].parents == []
  {
    if n > 0 { SourcesFree(w, n - 1); }
  }

  lemma {:induction false} PrefixParentsFirst(nodes: seq<Node>, n: nat)
    requires ParentsFirst(nodes) && n <= |nodes|
    ensures ParentsFirst(nodes[..n])
  {
    forall i, p | 0 <= i < n && p in nodes[i].parents ensures Named(nodes[..n][..i], p) {
      assert nodes[..n][..i] == nodes[..i];
    }
  }

  /** Every desired graph lists parents before children, the staged prefix included. */
  lemma {:induction false} DesiredParentsFirst(w: Workflow)
    ensures ParentsFirst(Desired(w))
  {
    if !w.hasBatch {
      var sources := Sources(w, |w.sources|);
      SourcesFree(w, |w.sources|);
      assert ParentsFirst(sources);
      var last := [Node(ExactPlan, NamesOf(sources), false)];
      forall i, p | 0 <= i < |last| && p in last[i].parents ensures Named(sources + last[..i], p) {
        var k :| 0 <= k < |sources| && NamesOf(sources)[k] == p;
        assert (sources + last[..i])[k].name == p;
      }
      ParentsFirstAppend(sources, last);
    } else {
      TailFollows(w);
      PrefixParentsFirst(FullGraph(w), EligibleLength(w, FullGraph(w)));
    }
  }

  /** The canary filter keeps only pass slices, and they have no parents to lose. */
  function CanaryCut(nodes: seq<Node>, selected: set<string>): (kept: seq<Node>) {
    if nodes == [] then []
    else
      var n := nodes[|nodes| - 1];
      CanaryCut(nodes[..|nodes| - 1], selected)
      + (if n.name.PassSlice? && n.name.slice in selected then [n] else [])
  }

  ghost predicate FreePasses(nodes: seq<Node>) {
    forall i :: 0 <= i < |nodes| ==> nodes[i].name.PassSlice? ==> nodes[i].parents == []
  }

  lemma {:induction false} FreePassesAppend(a: seq<Node>, b: seq<Node>)
    requires FreePasses(a) && FreePasses(b)
    ensures FreePasses(a + b)
  {
  }

  lemma {:induction false} PrefixFree(nodes: seq<Node>, n: nat)
    requires FreePasses(nodes) && n <= |nodes|
    ensures FreePasses(nodes[..n])
  {
  }

  lemma {:induction false} TailFree(w: Workflow, reducers: seq<Name>)
    ensures FreePasses(Tail(w, reducers))
  {
  }

  lemma {:induction false} FullGraphFree(w: Workflow)
    ensures FreePasses(FullGraph(w))
  {
    var passes, reducers := Passes(SliceIds(w.slices)), Reducers(w, Resources(w));
    TailFree(w, NamesOf(reducers));
    FreePassesAppend(passes, reducers);
    FreePassesAppend(passes + reducers, Tail(w, NamesOf(reducers)));
  }

  lemma {:induction false} PlanFree(w: Workflow)
    ensures FreePasses(Sources(w, |w.sources|) + [Node(ExactPlan, NamesOf(Sources(w, |w.sources|)), false)])
  {
    SourcesFree(w, |w.sources|);
    FreePassesAppend(Sources(w, |w.sources|), [Node(ExactPlan, NamesOf(Sources(w, |w.sources|)), false)]);
  }

  lemma {:induction false} PrefixOfFullFree(w: Workflow, n: nat)
    requires n <= |FullGraph(w)|
    ensures FreePasses(FullGraph(w)[..n])
  {
    FullGraphFree(w);
    PrefixFree(FullGraph(w), n);
  }

  lemma {:induction false} PassesFree(ids: seq<string>)
    ensures FreePasses(Passes(ids))
  {
  }

  lemma {:induction false} PassSlicesHaveNoParents(w: Workflow)
    ensures FreePasses(Desired(w))
  {
    PlanFree(w);
    FullGraphFree(w);
    PrefixOfFullFree(w, EligibleLength(w, FullGraph(w)));
    PassesFree(SliceIds(w.slices));
    if w.revision.Some? { PassesFree(w.revision.value); }
    if w.canary.Some? { PassesFree(w.canary.value); }
  }

  lemma {:induction false} CanaryCutClosed(w: Workflow, selected: set<string>)
    ensures ParentsFirst(CanaryCut(Desired(w), selected))
  {
    PassSlicesHaveNoParents(w);
    CutOfParentless(Desired(w), selected);
  }

  lemma {:induction false} CutOfParentless(nodes: seq<Node>, selected: set<string>)
    requires FreePasses(nodes)
    ensures forall i :: 0 <= i < |CanaryCut(nodes, selected)| ==> CanaryCut(nodes, selected)[i].parents == []
    ensures ParentsFirst(CanaryCut(nodes, selected))
  {
    if nodes != [] { CutOfParentless(nodes[..|nodes| - 1], selected); }
  }
}
