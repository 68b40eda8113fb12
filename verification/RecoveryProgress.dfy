/** The automatic controller reaches the end of an intent when nothing interrupts it. */
module RecoveryProgress {
  import opened Basics
  import opened RecoveryGrants
  import opened RecoveryEvidence
  import opened RecoveryRuns

  /** A retry of the intent can be granted: nothing is saved, recorded or reported for it, and its
      evidence stands. */
  ghost predicate Grantable(d: Disk, saved: map<Id, Request>, intent: seq<AutoAction>, k: nat, now: Observed)
    requires k < |intent|
  {
    var a, id := intent[k], Auto(intent, intent[k].node);
    && id !in saved && Unused(d, id) && id !in d.reports
    && Grounded(d, if a.kind.BudgetRetry? then BudgetLock else LocalReview, now, Entry(a.node, a.failure))
  }

  /** From action `k` on each action is an isolation or a retry that can be granted. */
  ghost predicate AllGrantable(w: World, now: Observed, k: nat) {
    && w.pending.Some? && now.ready
    && forall j: nat :: k <= j < |w.pending.value| && !w.pending.value[j].kind.Isolate? ==> Grantable(w.disk, w.saved, w.pending.value, j, now)
  }

  ghost predicate OneNodeEach(intent: seq<AutoAction>) {
    forall i, j :: 0 <= i < j < |intent| ==> intent[i].node != intent[j].node
  }

  predicate ByController(s: Step) { !s.Call? && !s.OtherMutation? && !s.Die? }

  // ----- one action ---------------------------------------------------------------------------------

  /** The disk after a grant of one slice keeps the evidence for another. */
  lemma {:induction false} OthersStayGrounded(d: Disk, after: Disk, scope: Scope, now: Observed, e: Entry, r: Record)
    requires Grounded(d, scope, now, e) && after.slices == d.slices && after.history == d.history + [r] && e.node !in r.nodes
    ensures Grounded(after, scope, now, e)
  {
    assert forall x :: x in after.history ==> x in d.history || x == r;
  }

  lemma {:induction false} StillGrantable(w: World, v: World, k: nat, j: nat, now: Observed, r: Record)
    requires w.pending.Some? && v.pending == w.pending && k < j < |w.pending.value| && OneNodeEach(w.pending.value)
    requires Grantable(w.disk, w.saved, w.pending.value, j, now)
    requires v.disk.slices == w.disk.slices && v.disk.history == w.disk.history + [r]
    requires r.id == Auto(w.pending.value, w.pending.value[k].node) && r.nodes == [w.pending.value[k].node]
    requires forall id :: id != r.id ==> (id in v.saved <==> id in w.saved) && (id in v.disk.reports <==> id in w.disk.reports)
    ensures Grantable(v.disk, v.saved, v.pending.value, j, now)
  {
    var a := w.pending.value[j];
    OthersStayGrounded(w.disk, v.disk, if a.kind.BudgetRetry? then BudgetLock else LocalReview, now, Entry(a.node, a.failure), r);
    assert forall x :: x in v.disk.history ==> x in w.disk.history || x == r;
  }

  /** The retry of action `k`: the request is saved, applied and recorded, and the next action is up. */
  ghost predicate RetryDone(w: World, v: World, k: nat) {
    && w.pending.Some? && v.pending == w.pending && k < |w.pending.value| && v.pc == Some(k + 1)
    && v.disk.slices == w.disk.slices && |v.disk.history| == |w.disk.history| + 1
    && var r := v.disk.history[|w.disk.history|];
       && v.disk.history == w.disk.history + [r] && r.id == Auto(w.pending.value, w.pending.value[k].node)
       && r.nodes == [w.pending.value[k].node] && AsksFor(w.pending.value[k], w.pending.value[k].node, r.request)
       && forall id :: id != r.id ==> (id in v.saved <==> id in w.saved) && (id in v.disk.reports <==> id in w.disk.reports)
  }

  lemma {:induction false} RetryGoesOn(w: World, now: Observed, k: nat)
    requires Sound(w) && w.pc == Some(k) && AllGrantable(w, now, k) && k < |w.pending.value| && !w.pending.value[k].kind.Isolate?
    ensures Enabled(w, Save) && Enabled(Next(w, Save), Apply(now, 2))
    ensures RetryDone(w, Next(Next(w, Save), Apply(now, 2)), k)
  {
    var a := w.pending.value[k];
    var id, q, saved := AutoId(w.pending.value, k), AutoRequest(w, k), Next(w, Save);
    assert Grantable(w.disk, w.saved, w.pending.value, k, now);
    assert saved.saved[id] == q && AsksFor(a, a.node, q);
    NextKeeps(w, Save);
    assert Deserves(w.disk, q, now);
    GrantedExactly(w.disk, q, now, 2);
    GrantEffect(w.disk, q, now, 2);
    OneNamed(w.disk, q, now, Recover(w.disk, q, now, 2).0);
  }

  lemma {:induction false} OneNamed(d: Disk, q: Request, now: Observed, after: Disk)
    requires |q.entries| == 1 && exists report :: GrantWritten(d, q, now, after, report)
    ensures |after.history| == |d.history| + 1 && after.slices == d.slices
    ensures var r := after.history[|d.history|];
            after.history == d.history + [r] && r.id == q.id && r.request == q && r.nodes == [q.entries[0].node]
    ensures forall id :: id != q.id ==> (id in after.reports <==> id in d.reports)
  {
    var report :| GrantWritten(d, q, now, after, report);
    assert after.history == after.history[..|d.history|] + [after.history[|d.history|]];
  }

  // ----- the whole intent ----------------------------------------------------------------------------------

  /** A run of the controller alone, from `w` to the world where its intent is done. */
  ghost predicate Completes(w: World, ws: seq<World>, steps: seq<Step>) {
    && Run(ws, steps) && ws[0] == w && (forall i :: 0 <= i < |steps| ==> ByController(steps[i]))
    && ws[|steps|].pending.None? && ws[|steps|].pc.None?
  }

  /** The retries of the intent from action `k` on are recorded, for the very slice and failure. */
  ghost predicate AllRecorded(intent: seq<AutoAction>, k: nat, history: seq<Record>) {
    forall j: nat :: k <= j < |intent| && !intent[j].kind.Isolate? ==> RecordedFor(intent, j, history)
  }

  ghost predicate RecordedFor(intent: seq<AutoAction>, j: nat, history: seq<Record>)
    requires j < |intent|
  {
    exists r :: r in history && r.id == Auto(intent, intent[j].node) && AsksFor(intent[j], intent[j].node, r.request)
  }

  lemma {:induction false} OneStepFirst(w: World, s: Step, ws: seq<World>, steps: seq<Step>)
    requires Enabled(w, s) && ByController(s) && Completes(Next(w, s), ws, steps)
    ensures Completes(w, [w] + ws, [s] + steps)
  {
    var all, more := [w] + ws, [s] + steps;
    forall i | 0 <= i < |more| ensures Enabled(all[i], more[i]) && all[i + 1] == Next(all[i], more[i]) && ByController(more[i]) {
      if i > 0 { assert more[i] == steps[i - 1]; }
    }
  }

  /** Between two actions. */
  ghost predicate Ready(w: World, now: Observed, k: nat, intent: seq<AutoAction>) {
    Sound(w) && w.pending == Some(intent) && w.pc == Some(k) && AllGrantable(w, now, k) && OneNodeEach(intent)
  }

  lemma {:induction false} IsolatedNext(w: World, now: Observed, k: nat, intent: seq<AutoAction>)
    requires Ready(w, now, k, intent) && k < |intent| && intent[k].kind.Isolate?
    ensures Enabled(w, Isolated(true)) && Ready(Next(w, Isolated(true)), now, k + 1, intent)
    ensures Next(w, Isolated(true)).disk == w.disk
  {
    var v := Next(w, Isolated(true));
    NextKeeps(w, Isolated(true));
    forall j: nat | k + 1 <= j < |intent| && !intent[j].kind.Isolate? ensures Grantable(v.disk, v.saved, intent, j, now) {
      assert Grantable(w.disk, w.saved, intent, j, now);
    }
  }

  lemma {:induction false} RetryNext(w: World, now: Observed, k: nat, intent: seq<AutoAction>)
    requires Ready(w, now, k, intent) && k < |intent| && !intent[k].kind.Isolate?
    ensures Enabled(w, Save) && Enabled(Next(w, Save), Apply(now, 2))
    ensures var v := Next(Next(w, Save), Apply(now, 2)); Ready(v, now, k + 1, intent) && RetryDone(w, v, k)
  {
    var u := Next(w, Save);
    RetryGoesOn(w, now, k);
    NextKeeps(w, Save);
    NextKeeps(u, Apply(now, 2));
    AllStillGrantable(w, Next(u, Apply(now, 2)), now, k);
  }

  /** The run of the controller alone ends with the retries from `k` on recorded. */
  ghost predicate Finishes(w: World, ws: seq<World>, steps: seq<Step>, k: nat, intent: seq<AutoAction>) {
    Completes(w, ws, steps) && w.disk.history <= ws[|steps|].disk.history && AllRecorded(intent, k, ws[|steps|].disk.history)
  }

  lemma {:induction false} FinishIntent(w: World, now: Observed, k: nat, intent: seq<AutoAction>)
    returns (ws: seq<World>, steps: seq<Step>)
    requires Ready(w, now, k, intent)
    ensures Finishes(w, ws, steps, k, intent)
    decreases |intent| - k
  {
    if k == |intent| {
      ws, steps := [w, Next(w, Unlink)], [Unlink];
    } else if intent[k].kind.Isolate? {
      IsolatedNext(w, now, k, intent);
      ws, steps := FinishIntent(Next(w, Isolated(true)), now, k + 1, intent);
      OneStepFirst(w, Isolated(true), ws, steps);
      ws, steps := [w] + ws, [Isolated(true)] + steps;
    } else {
      RetryNext(w, now, k, intent);
      ws, steps := FinishIntent(Next(Next(w, Save), Apply(now, 2)), now, k + 1, intent);
      TwoStepsFirst(w, now, k, intent, ws, steps);
      ws, steps := [w] + ([Next(w, Save)] + ws), [Save] + ([Apply(now, 2)] + steps);
    }
  }

  lemma {:induction false} TwoStepsFirst(w: World, now: Observed, k: nat, intent: seq<AutoAction>, ws: seq<World>, steps: seq<Step>)
    requires Ready(w, now, k, intent) && k < |intent| && !intent[k].kind.Isolate?
    requires Enabled(w, Save) && Enabled(Next(w, Save), Apply(now, 2)) && RetryDone(w, Next(Next(w, Save), Apply(now, 2)), k)
    requires Finishes(Next(Next(w, Save), Apply(now, 2)), ws, steps, k + 1, intent)
    ensures Finishes(w, [w] + ([Next(w, Save)] + ws), [Save] + ([Apply(now, 2)] + steps), k, intent)
  {
    var u := Next(w, Save);
    var v := Next(u, Apply(now, 2));
    RecordedStays(intent, k, v.disk.history, ws[|steps|].disk.history, |w.disk.history|);
    OneStepFirst(u, Apply(now, 2), ws, steps);
    OneStepFirst(w, Save, [u] + ws, [Apply(now, 2)] + steps);
  }

  lemma {:induction false} RecordedStays(intent: seq<AutoAction>, k: nat, history: seq<Record>, later: seq<Record>, n: nat)
    requires k < |intent| && history <= later && n < |history|
    requires history[n].id == Auto(intent, intent[k].node) && AsksFor(intent[k], intent[k].node, history[n].request)
    ensures RecordedFor(intent, k, later)
  {
    assert later[n] == history[n];
  }

  lemma {:induction false} AllStillGrantable(w: World, v: World, now: Observed, k: nat)
    requires AllGrantable(w, now, k) && OneNodeEach(w.pending.value) && RetryDone(w, v, k)
    ensures AllGrantable(v, now, k + 1)
  {
    forall j: nat | k + 1 <= j < |v.pending.value| && !v.pending.value[j].kind.Isolate?
      ensures Grantable(v.disk, v.saved, v.pending.value, j, now)
    {
      StillGrantable(w, v, k, j, now, v.disk.history[|w.disk.history|]);
    }
  }

  /** The intent a controller that starts now works on. */
  function Taken(w: World, selected: seq<AutoAction>): seq<AutoAction> {
    if w.pending.Some? then w.pending.value else selected
  }

  /** Started on an intent whose retries can be granted, new or left by a crash, and not interrupted,
      the controller records every retry and unlinks the intent. */
  lemma {:induction false} IntentCompletes(w: World, selected: seq<AutoAction>, now: Observed) returns (ws: seq<World>, steps: seq<Step>)
    requires Sound(w) && w.pc.None? && Taken(w, selected) != [] && OneNodeEach(Taken(w, selected)) && now.ready
    requires forall j: nat :: j < |Taken(w, selected)| && !Taken(w, selected)[j].kind.Isolate? ==>
               Grantable(w.disk, w.saved, Taken(w, selected), j, now)
    ensures Completes(w, ws, steps)
    ensures AllRecorded(Taken(w, selected), 0, ws[|steps|].disk.history)
  {
    var v := Next(w, Begin(selected));
    NextKeeps(w, Begin(selected));
    ws, steps := FinishIntent(v, now, 0, Taken(w, selected));
    OneStepFirst(w, Begin(selected), ws, steps);
    ws, steps := [w] + ws, [Begin(selected)] + steps;
  }
}
