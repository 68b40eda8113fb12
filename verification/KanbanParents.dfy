/** The desired graph told from the workflow record: which nodes there are, what each of them waits
    for, and which of them a stage opens. */
module KanbanParents {
  import opened Basics
  import opened KanbanGraph
  import opened KanbanDispatch

  // ----- what a reducer waits for ------------------------------------------------------------------------

  /** Slice `k` is the last one that lists the task. */
  predicate LastLists(slices: seq<Slice>, k: nat, task: string) {
    k < |slices| && task in slices[k].tasks && forall m :: k < m < |slices| ==> task !in slices[m].tasks
  }

  ghost predicate ListedIn(slices: seq<Slice>, task: string, slice: string) {
    exists k: nat :: LastLists(slices, k, task) && slices[k].id == slice
  }

  /** A live task of the resource has its passes in this slice, and they are still needed: they
      are not when the slice is partly excluded and the task has its own verified passes. */
  ghost predicate Needs(w: Workflow, resource: string, slice: string, t: Task) {
    && !t.skipped && resource in t.resources && ListedIn(w.slices, t.id, slice)
    && !(slice in w.gaps && t.id in w.passed)
  }

  ghost predicate NeededBy(w: Workflow, resource: string, slice: string, tasks: seq<Task>) {
    exists t :: t in tasks && Needs(w, resource, slice, t)
  }

  ghost predicate Awaits(w: Workflow, resource: string, slice: string) { NeededBy(w, resource, slice, w.tasks) }

  lemma {:induction false} LastListsEarlier(slices: seq<Slice>, task: string, k: nat)
    requires slices != [] && task !in slices[|slices| - 1].tasks
    ensures LastLists(slices, k, task) <==> LastLists(slices[..|slices| - 1], k, task)
  {
  }

  lemma {:induction false} LastListsAtEnd(slices: seq<Slice>, task: string, k: nat)
    requires slices != [] && task in slices[|slices| - 1].tasks
    ensures LastLists(slices, k, task) <==> k == |slices| - 1
  {
  }

  lemma {:induction false} SliceOfExactly(slices: seq<Slice>, task: string, slice: string)
    ensures SliceOf(slices, task) == Some(slice) <==> ListedIn(slices, task, slice)
  {
    if slices != [] {
      var front, last := slices[..|slices| - 1], |slices| - 1;
      SliceOfExactly(front, task, slice);
      if task in slices[last].tasks {
        forall k: nat ensures LastLists(slices, k, task) <==> k == last { LastListsAtEnd(slices, task, k); }
        assert LastLists(slices, last, task);
      } else {
        forall k: nat ensures LastLists(slices, k, task) <==> LastLists(front, k, task) { LastListsEarlier(slices, task, k); }
      }
    }
  }

  /** What the last task of a list adds. */
  lemma {:induction false} LastAwaits(w: Workflow, resource: string, tasks: seq<Task>, slice: string)
    requires tasks != []
    ensures slice in AwaitedSlices(w, resource, tasks) <==>
            slice in AwaitedSlices(w, resource, tasks[..|tasks| - 1]) || Needs(w, resource, slice, tasks[|tasks| - 1])
  {
    SliceOfExactly(w.slices, tasks[|tasks| - 1].id, slice);
  }

  lemma {:induction false} NeededByMore(w: Workflow, resource: string, slice: string, front: seq<Task>, t: Task)
    ensures NeededBy(w, resource, slice, front + [t]) <==> NeededBy(w, resource, slice, front) || Needs(w, resource, slice, t)
  {
    if u :| u in front && Needs(w, resource, slice, u) { assert u in front + [t]; }
    assert t in front + [t];
  }

  lemma {:induction false} AwaitedExactly(w: Workflow, resource: string, tasks: seq<Task>, slice: string)
    ensures slice in AwaitedSlices(w, resource, tasks) <==> NeededBy(w, resource, slice, tasks)
  {
    if tasks != [] {
      var front := tasks[..|tasks| - 1];
      AwaitedExactly(w, resource, front, slice);
      LastAwaits(w, resource, tasks, slice);
      NeededByMore(w, resource, slice, front, tasks[|tasks| - 1]);
      assert tasks == front + [tasks[|tasks| - 1]];
    }
  }

  lemma {:induction false} DedupeMembers(w: Workflow, resource: string, slice: string)
    ensures PassSlice(slice) in ReducerParents(w, resource) <==> slice in AwaitedSlices(w, resource, w.tasks)
    ensures forall p :: p in ReducerParents(w, resource) ==> p.PassSlice?
  {
    var awaited := Dedupe(AwaitedSlices(w, resource, w.tasks));
    var sorted := Sort(StringLeq, awaited);
    SameMultisetSameMembers(sorted, awaited);
    var names := PassNames(sorted);
    if slice in sorted {
      var i :| 0 <= i < |sorted| && sorted[i] == slice;
      assert names[i] == PassSlice(slice);
    }
  }

  /** A reducer waits for a pass slice exactly when some live task of its resource needs it, and for
      nothing else. */
  lemma {:induction false} ReducerWaitsExactly(w: Workflow, resource: string, p: Name)
    ensures p in ReducerParents(w, resource) <==> p.PassSlice? && Awaits(w, resource, p.slice)
  {
    if p.PassSlice? {
      DedupeMembers(w, resource, p.slice);
      AwaitedExactly(w, resource, w.tasks, p.slice);
    } else {
      DedupeMembers(w, resource, "");
    }
  }

  /** Its parents come once each, in the order of their slice ids. */
  lemma {:induction false} ParentsInOrder(w: Workflow, resource: string, i: nat, j: nat)
    requires i < j < |ReducerParents(w, resource)|
    ensures var parents := ReducerParents(w, resource);
            && parents[i].PassSlice? && parents[j].PassSlice?
            && StringLeq(parents[i].slice, parents[j].slice) && parents[i].slice != parents[j].slice
  {
    var awaited := Dedupe(AwaitedSlices(w, resource, w.tasks));
    StringOrder();
    SortSorted(StringLeq, awaited);
    SameMultisetDistinct(Sort(StringLeq, awaited), awaited);
  }

  // ----- which reducers there are ------------------------------------------------------------------------

  ghost predicate Targeted(tasks: seq<Task>, resource: string) {
    exists t :: t in tasks && !t.skipped && resource in t.resources
  }

  lemma {:induction false} TargetedMore(front: seq<Task>, t: Task, resource: string)
    ensures Targeted(front + [t], resource) <==> Targeted(front, resource) || (!t.skipped && resource in t.resources)
  {
    if u :| u in front && !u.skipped && resource in u.resources { assert u in front + [t]; }
    assert t in front + [t];
  }

  lemma {:induction false} TargetedExactly(tasks: seq<Task>, resource: string)
    ensures resource in TargetResources(tasks) <==> Targeted(tasks, resource)
  {
    if tasks != [] {
      var front := tasks[..|tasks| - 1];
      TargetedExactly(front, resource);
      TargetedMore(front, tasks[|tasks| - 1], resource);
      assert tasks == front + [tasks[|tasks| - 1]];
    }
  }

  lemma {:induction false} ResourcesExactly(w: Workflow, resource: string)
    ensures resource in Resources(w) <==> Targeted(w.tasks, resource)
  {
    TargetedExactly(w.tasks, resource);
    SameMultisetSameMembers(Resources(w), Dedupe(TargetResources(w.tasks)));
  }

  // ----- the whole graph -------------------------------------------------------------------------------------

  /** Which nodes the full graph has. */
  ghost predicate Present(w: Workflow, name: Name) {
    match name
    case SourcePrepare(_) => false
    case ExactPlan => false
    case PassSlice(id) => id in SliceIds(w.slices)
    case ResourceReduce(resource) => Targeted(w.tasks, resource)
    case ProviderSync => w.providerSync
    case _ => true
  }

  /** What each of them waits for. */
  ghost predicate Waits(w: Workflow, name: Name, p: Name) {
    match name
    case ResourceReduce(resource) => p.PassSlice? && Awaits(w, resource, p.slice)
    case GlobalReduce => p.ResourceReduce? && Targeted(w.tasks, p.resource)
    case Checkpoint1Validate => p == GlobalReduce
    case Checkpoint1Gate => p == Checkpoint1Validate
    case BuildFinalize => p == Checkpoint1Gate
    case VaultFinalizePlan => p == BuildFinalize
    case Checkpoint2Validate => p == VaultFinalizePlan
    case Checkpoint2Gate => p == Checkpoint2Validate
    case ReleaseApply => p == Checkpoint2Gate
    case ProviderSync => p == ReleaseApply
    case Acceptance => p == if w.providerSync then ProviderSync else ReleaseApply
    case _ => false
  }

  ghost predicate AsTold(w: Workflow, node: Node) {
    && Present(w, node.name)
    && (forall p :: p in node.parents <==> Waits(w, node.name, p))
    && (node.gate <==> node.name in {Checkpoint1Gate, Checkpoint2Gate})
  }

  lemma {:induction false} InParts<T>(a: seq<T>, b: seq<T>, c: seq<T>, x: T)
    ensures x in a + b + c <==> x in a || x in b || x in c
  {
  }

  lemma {:induction false} PassTold(w: Workflow, node: Node)
    requires node in Passes(SliceIds(w.slices))
    ensures AsTold(w, node)
  {
  }

  lemma {:induction false} ReducerTold(w: Workflow, resource: string)
    requires Targeted(w.tasks, resource)
    ensures AsTold(w, Reducer(w, resource))
  {
    forall p ensures p in ReducerParents(w, resource) <==> p.PassSlice? && Awaits(w, resource, p.slice) {
      ReducerWaitsExactly(w, resource, p);
    }
  }

  lemma {:induction false} ReducersTold(w: Workflow, resources: seq<string>, node: Node)
    requires forall r :: r in resources ==> Targeted(w.tasks, r)
    requires node in Reducers(w, resources)
    ensures AsTold(w, node)
  {
    var nodes := Reducers(w, resources);
    var i: nat :| i < |nodes| && nodes[i] == node;
    ReducersAt(w, resources, i);
    ReducerTold(w, resources[i]);
  }

  /** The fixed part of the graph, as a table. */
  predicate TailRow(w: Workflow, reducers: seq<Name>, node: Node) {
    match node.name
    case GlobalReduce => node.parents == reducers && !node.gate
    case Checkpoint1Validate => node.parents == [GlobalReduce] && !node.gate
    case Checkpoint1Gate => node.parents == [Checkpoint1Validate] && node.gate
    case BuildFinalize => node.parents == [Checkpoint1Gate] && !node.gate
    case VaultFinalizePlan => node.parents == [BuildFinalize] && !node.gate
    case Checkpoint2Validate => node.parents == [VaultFinalizePlan] && !node.gate
    case Checkpoint2Gate => node.parents == [Checkpoint2Validate] && node.gate
    case ReleaseApply => node.parents == [Checkpoint2Gate] && !node.gate
    case ProviderSync => w.providerSync && node.parents == [ReleaseApply] && !node.gate
    case Acceptance => node.parents == [if w.providerSync then ProviderSync else ReleaseApply] && !node.gate
    case _ => false
  }

  lemma {:induction false} TailRows(w: Workflow, reducers: seq<Name>, node: Node)
    requires node in Tail(w, reducers)
    ensures TailRow(w, reducers, node)
  {
  }

  lemma {:induction false} NamesAre(nodes: seq<Node>, resources: seq<string>, p: Name)
    requires |nodes| == |resources| && forall i :: 0 <= i < |nodes| ==> nodes[i].name == ResourceReduce(resources[i])
    ensures p in NamesOf(nodes) <==> p.ResourceReduce? && p.resource in resources
  {
    if p.ResourceReduce? && p.resource in resources {
      var i :| 0 <= i < |resources| && resources[i] == p.resource;
      assert NamesOf(nodes)[i] == p;
    }
  }

  lemma {:induction false} ReducerNames(w: Workflow, resources: seq<string>, p: Name)
    requires forall r :: r in resources <==> Targeted(w.tasks, r)
    ensures p in NamesOf(Reducers(w, resources)) <==> p.ResourceReduce? && Targeted(w.tasks, p.resource)
  {
    NamesAre(Reducers(w, resources), resources, p);
  }

  lemma {:induction false} RowTold(w: Workflow, reducers: seq<Name>, node: Node)
    requires TailRow(w, reducers, node)
    requires forall p :: p in reducers <==> p.ResourceReduce? && Targeted(w.tasks, p.resource)
    ensures AsTold(w, node)
  {
  }

  /** Every node of the full graph is one the record calls for, waits for exactly what the table
      says, and is a gate exactly at the two checkpoints. */
  lemma {:induction false} FullGraphTold(w: Workflow, node: Node)
    requires node in FullGraph(w)
    ensures AsTold(w, node)
  {
    FullGraphSplits(w);
    forall r ensures r in Resources(w) <==> Targeted(w.tasks, r) { ResourcesExactly(w, r); }
    PartsTold(w, Resources(w), node);
  }

  lemma {:induction false} PartsTold(w: Workflow, resources: seq<string>, node: Node)
    requires forall r :: r in resources <==> Targeted(w.tasks, r)
    requires node in Passes(SliceIds(w.slices)) + Reducers(w, resources) + Tail(w, NamesOf(Reducers(w, resources)))
    ensures AsTold(w, node)
  {
    var reducers := Reducers(w, resources);
    InParts(Passes(SliceIds(w.slices)), reducers, Tail(w, NamesOf(reducers)), node);
    if node in Passes(SliceIds(w.slices)) {
      PassTold(w, node);
    } else if node in reducers {
      ReducersTold(w, resources, node);
    } else {
      TailRows(w, NamesOf(reducers), node);
      forall p ensures p in NamesOf(reducers) <==> p.ResourceReduce? && Targeted(w.tasks, p.resource) { ReducerNames(w, resources, p); }
      RowTold(w, NamesOf(reducers), node);
    }
  }

  lemma {:induction false} PassNamed(w: Workflow, slice: string)
    requires slice in SliceIds(w.slices)
    ensures Named(FullGraph(w), PassSlice(slice))
  {
    var ids := SliceIds(w.slices);
    var i: nat :| i < |ids| && ids[i] == slice;
    FullGraphSplits(w);
    assert FullGraph(w)[i] == Passes(ids)[i];
  }

  lemma {:induction false} ReducerNamed(w: Workflow, resource: string)
    requires Targeted(w.tasks, resource)
    ensures Named(FullGraph(w), ResourceReduce(resource))
  {
    ResourcesExactly(w, resource);
    var r: nat :| r < |Resources(w)| && Resources(w)[r] == resource;
    ReducerPlace(w, r);
  }

  lemma {:induction false} TailHas(w: Workflow, reducers: seq<Name>, name: Name)
    requires Present(w, name) && !name.PassSlice? && !name.ResourceReduce?
    ensures Named(Tail(w, reducers), name)
  {
    var tail := Tail(w, reducers);
    assert tail[0].name == GlobalReduce && tail[1].name == Checkpoint1Validate && tail[2].name == Checkpoint1Gate;
    assert tail[3].name == BuildFinalize && tail[4].name == VaultFinalizePlan && tail[5].name == Checkpoint2Validate;
    assert tail[6].name == Checkpoint2Gate && tail[7].name == ReleaseApply;
    assert tail[|tail| - 1].name == Acceptance && (w.providerSync ==> tail[8].name == ProviderSync);
  }

  lemma {:induction false} NamedInEnd(a: seq<Node>, b: seq<Node>, name: Name)
    requires Named(b, name)
    ensures Named(a + b, name)
  {
    var i :| 0 <= i < |b| && b[i].name == name;
    assert (a + b)[|a| + i].name == name;
  }

  /** And nothing the record calls for is missing. */
  lemma {:induction false} FullGraphNames(w: Workflow, name: Name)
    ensures Named(FullGraph(w), name) <==> Present(w, name)
  {
    if Named(FullGraph(w), name) {
      var i :| 0 <= i < |FullGraph(w)| && FullGraph(w)[i].name == name;
      FullGraphTold(w, FullGraph(w)[i]);
    } else if Present(w, name) && name.PassSlice? {
      PassNamed(w, name.slice);
    } else if Present(w, name) && name.ResourceReduce? {
      ReducerNamed(w, name.resource);
    } else if Present(w, name) {
      var reducers := Reducers(w, Resources(w));
      FullGraphSplits(w);
      TailHas(w, NamesOf(reducers), name);
      NamedInEnd(Passes(SliceIds(w.slices)) + reducers, Tail(w, NamesOf(reducers)), name);
    }
  }

  // ----- what the release waits for ------------------------------------------------------------------------------

  lemma {:induction false} FirstLink(nodes: seq<Node>, root: Name, n: Name) returns (c: Node)
    requires Depends(nodes, root, n) && n != root
    ensures c in nodes && root in c.parents
  {
    var path :| Chain(nodes, path) && path[0] == root && path[|path| - 1] == n;
    var k := 0;
    assert |path| > 1 && Link(nodes, path[k], path[k + 1]);
    var i :| 0 <= i < |nodes| && nodes[i].name == path[1] && root in nodes[i].parents;
    c := nodes[i];
  }

  /** Both gates, the release and the acceptance wait for a slice exactly when a live task of some
      resource needs it. */
  lemma {:induction false} ReleaseWaitsForSlices(w: Workflow, slice: string, g: Name)
    requires g in {Checkpoint1Gate, Checkpoint2Gate, ReleaseApply, Acceptance}
    ensures Depends(FullGraph(w), PassSlice(slice), g) <==> exists resource :: Awaits(w, resource, slice)
  {
    if Depends(FullGraph(w), PassSlice(slice), g) {
      var c := FirstLink(FullGraph(w), PassSlice(slice), g);
      FullGraphTold(w, c);
      assert Waits(w, c.name, PassSlice(slice));
    }
    if resource :| Awaits(w, resource, slice) {
      var t :| t in w.tasks && Needs(w, resource, slice, t);
      ResourcesExactly(w, resource);
      AwaitedExactly(w, resource, w.tasks, slice);
      ReleaseWaitsForParents(w, resource, slice);
    }
  }

  /** While a slice is blocked, the pass takes the release down with it exactly when a live task
      needs that slice. */
  lemma {:induction false} BlockedSliceHoldsRelease(w: Workflow, slice: string, g: Name)
    requires Distinct(SliceIds(w.slices))
    requires g in {Checkpoint1Gate, Checkpoint2Gate, ReleaseApply, Acceptance}
    ensures g in Marked(FullGraph(w), PassSlice(slice)) <==> exists resource :: Awaits(w, resource, slice)
  {
    ReleaseWaitsForSlices(w, slice, g);
    FullGraphMarkedExactly(w, PassSlice(slice), g);
  }

  // ----- what a stage opens ------------------------------------------------------------------------------------------

  /** The stage from which on a staged workflow has the node, counted from the first. */
  function OpensAt(name: Name): nat {
    match name
    case SourcePrepare(_) => 0
    case ExactPlan => 0
    case PassSlice(_) => 0
    case ResourceReduce(_) => 1
    case GlobalReduce => 1
    case Checkpoint1Validate => 1
    case Checkpoint1Gate => 2
    case BuildFinalize => 3
    case VaultFinalizePlan => 4
    case Checkpoint2Validate => 4
    case Checkpoint2Gate => 5
    case ReleaseApply => 6
    case ProviderSync => 7
    case Acceptance => 8
  }

  function StageNumber(stage: Stage): nat {
    match stage
    case Analyzing => 0
    case Reducing => 1
    case Checkpoint1 => 2
    case BuildFinalizing => 3
    case ReleasePlanning => 4
    case Checkpoint2 => 5
    case Applying => 6
    case Indexing => 7
    case Validating => 8
    case Done => 9
  }

  /** Where the fixed part is cut in a stage after the first. */
  function TailCut(w: Workflow): nat {
    match w.stage
    case Analyzing => 0
    case Reducing => 1
    case Checkpoint1 => 2
    case BuildFinalizing => 3
    case ReleasePlanning => 5
    case Checkpoint2 => 6
    case Applying => 7
    case Indexing => if w.providerSync then 8 else 7
    case Validating => if w.providerSync then 9 else 8
    case Done => if w.providerSync then 9 else 8
  }

  lemma {:induction false} TailCuts(w: Workflow, reducers: seq<Name>, j: nat)
    requires !w.stage.Analyzing? && j < |Tail(w, reducers)|
    ensures TailCut(w) < |Tail(w, reducers)|
    ensures LastKind(w, Tail(w, reducers)[j].name) ==> j <= TailCut(w)
    ensures LastKind(w, Tail(w, reducers)[TailCut(w)].name)
    ensures j <= TailCut(w) <==> OpensAt(Tail(w, reducers)[j].name) <= StageNumber(w.stage)
  {
  }

  /** The prefix ends at the last node of the kind. */
  lemma {:induction false} EligibleEnd(w: Workflow, nodes: seq<Node>, k: nat)
    requires k < |nodes| && LastKind(w, nodes[k].name)
    requires forall j :: k < j < |nodes| ==> !LastKind(w, nodes[j].name)
    ensures EligibleLength(w, nodes) == k + 1
  {
    if k < |nodes| - 1 { EligibleEnd(w, nodes[..|nodes| - 1], k); }
  }

  ghost predicate CutAt(w: Workflow, tail: seq<Node>, cut: nat) {
    && cut < |tail| && LastKind(w, tail[cut].name)
    && (forall j: nat :: j < |tail| ==> LastKind(w, tail[j].name) ==> j <= cut)
    && (forall j: nat :: j < |tail| ==> (j <= cut <==> OpensAt(tail[j].name) <= StageNumber(w.stage)))
  }

  lemma {:induction false} TailCutAt(w: Workflow, reducers: seq<Name>)
    requires !w.stage.Analyzing?
    ensures CutAt(w, Tail(w, reducers), TailCut(w))
  {
    TailCuts(w, reducers, 0);
    forall j: nat | j < |Tail(w, reducers)|
      ensures LastKind(w, Tail(w, reducers)[j].name) ==> j <= TailCut(w)
      ensures j <= TailCut(w) <==> OpensAt(Tail(w, reducers)[j].name) <= StageNumber(w.stage)
    {
      TailCuts(w, reducers, j);
    }
  }

  lemma {:induction false} PrefixOpens(w: Workflow, nodes: seq<Node>, front: seq<Node>, tail: seq<Node>, cut: nat)
    requires CutAt(w, tail, cut) && nodes == front + tail && EarlyKinds(front) && !w.stage.Analyzing?
    ensures forall node :: node in nodes[..EligibleLength(w, nodes)] <==>
                           node in nodes && OpensAt(node.name) <= StageNumber(w.stage)
  {
    var n := |front| + cut;
    forall j | n < j < |nodes| ensures !LastKind(w, nodes[j].name) { assert nodes[j] == tail[j - |front|]; }
    EligibleEnd(w, nodes, n);
    forall i | 0 <= i < |nodes| ensures i < n + 1 <==> OpensAt(nodes[i].name) <= StageNumber(w.stage) {
      if i >= |front| { assert nodes[i] == tail[i - |front|]; }
    }
    CutMembers(nodes, n + 1, StageNumber(w.stage));
  }

  lemma {:induction false} CutMembers(nodes: seq<Node>, n: nat, stage: nat)
    requires n <= |nodes|
    requires forall i :: 0 <= i < |nodes| ==> (i < n <==> OpensAt(nodes[i].name) <= stage)
    ensures forall node :: node in nodes[..n] <==> node in nodes && OpensAt(node.name) <= stage
  {
    forall node | node in nodes && OpensAt(node.name) <= stage ensures node in nodes[..n] {
      var i :| 0 <= i < |nodes| && nodes[i] == node;
      assert nodes[..n][i] == node;
    }
  }

  lemma {:induction false} FrontEarly(ids: seq<string>, reducers: seq<Node>)
    requires forall i :: 0 <= i < |reducers| ==> reducers[i].name.ResourceReduce?
    ensures EarlyKinds(Passes(ids) + reducers)
  {
  }

  lemma {:induction false} StagedPrefix(w: Workflow)
    requires !w.stage.Analyzing?
    ensures forall node :: node in FullGraph(w)[..EligibleLength(w, FullGraph(w))] <==>
                           node in FullGraph(w) && OpensAt(node.name) <= StageNumber(w.stage)
  {
    var reducers := Reducers(w, Resources(w));
    var front, names := Passes(SliceIds(w.slices)) + reducers, NamesOf(reducers);
    FullGraphSplits(w);
    TailCutAt(w, names);
    FrontEarly(SliceIds(w.slices), reducers);
    PrefixOpens(w, FullGraph(w), front, Tail(w, names), TailCut(w));
  }

  /** The batch is known, nothing holds the phase back, and no revision or canary narrows it. */
  predicate Whole(w: Workflow) {
    && w.hasBatch && !w.awaitingReview && w.revision.None? && !(w.staged && w.pausedAtPlan)
    && !((w.canaryOnly || w.staged) && w.canary.Some?)
  }

  ghost predicate Later(nodes: seq<Node>) { forall node :: node in nodes ==> OpensAt(node.name) > 0 }

  lemma {:induction false} TailLater(w: Workflow, reducers: seq<Name>)
    ensures Later(Tail(w, reducers))
  {
    forall node | node in Tail(w, reducers) ensures OpensAt(node.name) > 0 { TailRows(w, reducers, node); }
  }

  lemma {:induction false} FirstOnly(ids: seq<string>, b: seq<Node>, c: seq<Node>, node: Node)
    requires Later(b) && Later(c)
    ensures node in Passes(ids) <==> node in Passes(ids) + b + c && OpensAt(node.name) == 0
  {
    InParts(Passes(ids), b, c, node);
  }

  lemma {:induction false} AnalyzingOpens(w: Workflow, node: Node)
    ensures node in Passes(SliceIds(w.slices)) <==> node in FullGraph(w) && OpensAt(node.name) == 0
  {
    var reducers := Reducers(w, Resources(w));
    FullGraphSplits(w);
    TailLater(w, NamesOf(reducers));
    FirstOnly(SliceIds(w.slices), reducers, Tail(w, NamesOf(reducers)), node);
  }

  /** A staged workflow has exactly the nodes of the full graph its stage has reached; an automatic
      one in its first stage has the pass slices; any other has the full graph. */
  lemma {:induction false} OpensExactly(w: Workflow, node: Node)
    requires Whole(w)
    ensures node in Desired(w) <==>
            && node in FullGraph(w)
            && (w.staged ==> OpensAt(node.name) <= StageNumber(w.stage))
            && (w.autoFull && w.stage == Analyzing ==> OpensAt(node.name) == 0)
  {
    AnalyzingOpens(w, node);
    if w.staged && w.stage != Analyzing { StagedPrefix(w); }
  }

  lemma {:induction false} PassMembers(ids: seq<string>, node: Node)
    ensures node in Passes(ids) <==> node.name.PassSlice? && node.name.slice in ids && node.parents == [] && !node.gate
  {
    if node.name.PassSlice? && node.name.slice in ids && node.parents == [] && !node.gate {
      var i :| 0 <= i < |ids| && ids[i] == node.name.slice;
      assert Passes(ids)[i] == node;
    }
  }

  /** Held back, the graph is empty; a running revision or a canary has exactly its own slices. */
  lemma {:induction false} NarrowedExactly(w: Workflow, node: Node)
    requires w.hasBatch
    ensures w.awaitingReview ==> Desired(w) == []
    ensures !w.awaitingReview && w.revision.Some? ==>
              (node in Desired(w) <==> node.name.PassSlice? && node.name.slice in w.revision.value && node.parents == [] && !node.gate)
    ensures !w.awaitingReview && w.revision.None? && w.staged && w.pausedAtPlan ==> Desired(w) == []
    ensures !w.awaitingReview && w.revision.None? && !(w.staged && w.pausedAtPlan) && (w.canaryOnly || w.staged) && w.canary.Some? ==>
              (node in Desired(w) <==> node.name.PassSlice? && node.name.slice in w.canary.value && node.parents == [] && !node.gate)
  {
    if w.revision.Some? { PassMembers(w.revision.value, node); }
    if w.canary.Some? { PassMembers(w.canary.value, node); }
  }

  lemma {:induction false} SourceNodes(w: Workflow, n: nat, i: nat)
    requires i < n <= |w.sources|
    ensures i < |Sources(w, n)| && Sources(w, n)[i] == Node(SourcePrepare(w.sources[i]), [], false)
  {
    SourcesAre(w, n);
    SourcesAre(w, n - 1);
    if i < n - 1 { SourceNodes(w, n - 1, i); }
  }

  /** Without a batch there is one free node per source, in order, and the plan waits for all of them. */
  lemma {:induction false} PlanExactly(w: Workflow)
    requires !w.hasBatch
    ensures |Desired(w)| == |w.sources| + 1
    ensures forall i :: 0 <= i < |w.sources| ==> Desired(w)[i] == Node(SourcePrepare(w.sources[i]), [], false)
    ensures var plan := Desired(w)[|w.sources|];
            && plan.name == ExactPlan && !plan.gate && |plan.parents| == |w.sources|
            && forall i :: 0 <= i < |w.sources| ==> plan.parents[i] == SourcePrepare(w.sources[i])
  {
    var n := |w.sources|;
    SourcesAre(w, n);
    forall i | 0 <= i < n ensures Sources(w, n)[i] == Node(SourcePrepare(w.sources[i]), [], false) { SourceNodes(w, n, i); }
  }

  // ----- the canary filter -----------------------------------------------------------------------------------------------

  predicate Selected(node: Node, selected: set<string>) { node.name.PassSlice? && node.name.slice in selected }

  /** `kept` are the selected nodes, in their order; `at` are their places. */
  ghost predicate KeepsSelected(nodes: seq<Node>, selected: set<string>, kept: seq<Node>, at: seq<nat>) {
    && |at| == |kept| && (forall i, j :: 0 <= i < j < |at| ==> at[i] < at[j])
    && (forall i :: 0 <= i < |at| ==> at[i] < |nodes| && kept[i] == nodes[at[i]])
    && (forall n: nat :: n < |nodes| ==> (n in at <==> Selected(nodes[n], selected)))
  }

  /** The canary filter keeps exactly the selected pass slices, in order. */
  lemma {:induction false} CanaryCutExactly(nodes: seq<Node>, selected: set<string>) returns (at: seq<nat>)
    ensures KeepsSelected(nodes, selected, CanaryCut(nodes, selected), at)
  {
    at := [];
    if nodes != [] {
      var front, n := nodes[..|nodes| - 1], |nodes| - 1;
      at := CanaryCutExactly(front, selected);
      forall m: nat | m < n ensures nodes[m] == front[m] {}
      if Selected(nodes[n], selected) { at := at + [n]; }
    }
  }
}
