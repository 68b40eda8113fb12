/** What every run of ledger commands keeps. */
module LedgerRuns {
  import opened Basics
  import CR = ContentRanges
  import opened SectionLedger

  datatype Command = Init(snap: Snapshot) | Change(update: Update)

  /** A command that succeeds on an existing ledger. */
  ghost predicate Step(a: Ledger, c: Command, b: Ledger) {
    match c
    case Init(snap) => FreshSnapshot(snap) && Reconciled(a, snap) == Ok(b)
    case Change(u) => Updated(a, u) == Ok(b)
  }

  /** The ledgers a run passes through, from the first build on. */
  ghost predicate Run(ls: seq<Ledger>, cs: seq<Command>) {
    && |ls| == |cs| + 1
    && (exists snap :: FreshSnapshot(snap) && ls[0] == FirstBuild(snap))
    && forall k {:trigger cs[k]} :: 0 <= k < |cs| ==> Step(ls[k], cs[k], ls[k + 1])
  }

  // ----- revisions ---------------------------------------------------------------------

  function RevisionOf(e: Event): nat { e.revision }

  /** The revision is the length of the history, and event `i` carries revision `i + 1`. */
  ghost predicate Numbered(l: Ledger) {
    l.revision == |l.history| && forall i :: 0 <= i < |l.history| ==> RevisionOf(l.history[i]) == i + 1
  }

  lemma {:induction false} RevisionIsHistoryLength(ls: seq<Ledger>, cs: seq<Command>, k: nat)
    requires Run(ls, cs) && k < |ls|
    ensures Numbered(ls[k])
  {
    if k > 0 {
      RevisionIsHistoryLength(ls, cs, k - 1);
      assert Step(ls[k - 1], cs[k - 1], ls[k]);
    }
  }

  // ----- an ingested section is what was ingested -----------------------------------------

  /** Some section with this id and content is marked ingested. */
  ghost predicate IngestedAs(l: Ledger, id: string, content: string) {
    exists i :: 0 <= i < |l.sections| && IsIngested(l.sections[i], id, content)
  }

  predicate IsIngested(s: Section, id: string, content: string) {
    s.id == id && s.content == content && s.status == Ingested
  }

  /** This step moved a section in progress, with this very content, to ingested. */
  ghost predicate Enters(a: Ledger, c: Command, b: Ledger, id: string, content: string) {
    c.Change? && c.update.section == id
    && exists i :: 0 <= i < |a.sections| == |b.sections|
         && a.sections[i].id == id && a.sections[i].content == content && a.sections[i].status == InProgress
         && IsIngested(b.sections[i], id, content) && b.sections[i].outputs != []
  }

  /** A section that reads ingested after reconciliation was, with the same content, before. */
  lemma {:induction false} CarriedIngested(next: Section, prior: seq<Section>, id: string, content: string)
    requires (next.status == Pending || next.status == QaRequired) && IsIngested(Carried(next, prior), id, content)
    ensures exists j :: 0 <= j < |prior| && IsIngested(prior[j], id, content)
  {
    var was := LastWith(prior, next.id).value;
    var j :| 0 <= j < |prior| && prior[j] == was;
    assert IsIngested(prior[j], id, content);
  }

  lemma {:induction false} IngestedStep(a: Ledger, c: Command, b: Ledger, id: string, content: string)
    requires Step(a, c, b) && IngestedAs(b, id, content)
    ensures IngestedAs(a, id, content) || Enters(a, c, b, id, content)
  {
    var i :| 0 <= i < |b.sections| && IsIngested(b.sections[i], id, content);
    match c {
      case Init(snap) =>
        assert b.sections[i] == Carried(snap.sections[i], a.sections);
        CarriedIngested(snap.sections[i], a.sections, id, content);
        var j :| 0 <= j < |a.sections| && IsIngested(a.sections[j], id, content);
      case Change(u) =>
        var at := FirstWith(a.sections, u.section).value;
        if i != at {
          assert IsIngested(a.sections[i], id, content);
        } else if a.sections[at].status == Ingested {
          assert IsIngested(a.sections[at], id, content);
        } else {
          assert Allowed(a.sections[at].status, Ingested);
          assert a.sections[at].outputs <= b.sections[at].outputs;
          if u.outputs != [] { assert u.outputs[0] in b.sections[at].outputs; }
        }
    }
  }

  lemma {:induction false} NothingIngestedAtFirst(ls: seq<Ledger>, cs: seq<Command>, id: string, content: string)
    requires Run(ls, cs)
    ensures !IngestedAs(ls[0], id, content)
  {
    var snap :| FreshSnapshot(snap) && ls[0] == FirstBuild(snap);
    forall i | 0 <= i < |ls[0].sections| ensures !IsIngested(ls[0].sections[i], id, content) {
      assert ls[0].sections[i] == snap.sections[i];
    }
  }

  /** What is ingested after step `m` was ingested before it, or entered by it. */
  ghost predicate EntryAt(ls: seq<Ledger>, cs: seq<Command>, m: nat, id: string, content: string)
    requires m < |cs| < |ls|
  {
    IngestedAs(ls[m + 1], id, content) ==> IngestedAs(ls[m], id, content) || Enters(ls[m], cs[m], ls[m + 1], id, content)
  }

  lemma {:induction false} LastEntry(ls: seq<Ledger>, cs: seq<Command>, n: nat, id: string, content: string) returns (k: nat)
    requires n <= |cs| < |ls| && !IngestedAs(ls[0], id, content) && IngestedAs(ls[n], id, content)
    requires forall m: nat {:trigger EntryAt(ls, cs, m, id, content)} :: m < n ==> EntryAt(ls, cs, m, id, content)
    ensures k < n && Enters(ls[k], cs[k], ls[k + 1], id, content)
    ensures forall m :: k < m <= n ==> IngestedAs(ls[m], id, content)
  {
    assert EntryAt(ls, cs, n - 1, id, content);
    if Enters(ls[n - 1], cs[n - 1], ls[n], id, content) {
      k := n - 1;
    } else {
      k := LastEntry(ls, cs, n - 1, id, content);
    }
  }

  /** A section marked ingested has had the same content ever since the update that ingested it. */
  lemma {:induction false} IngestedContentUnchanged(ls: seq<Ledger>, cs: seq<Command>, n: nat, id: string, content: string)
    returns (k: nat)
    requires Run(ls, cs) && n < |ls| && IngestedAs(ls[n], id, content)
    ensures k < n && Enters(ls[k], cs[k], ls[k + 1], id, content)
    ensures forall m :: k < m <= n ==> IngestedAs(ls[m], id, content)
  {
    NothingIngestedAtFirst(ls, cs, id, content);
    forall m: nat | m < n ensures EntryAt(ls, cs, m, id, content) { RunEntry(ls, cs, m, id, content); }
    k := LastEntry(ls, cs, n, id, content);
  }

  lemma {:induction false} RunEntry(ls: seq<Ledger>, cs: seq<Command>, m: nat, id: string, content: string)
    requires Run(ls, cs) && m < |cs|
    ensures EntryAt(ls, cs, m, id, content)
  {
    if IngestedAs(ls[m + 1], id, content) { IngestedStep(ls[m], cs[m], ls[m + 1], id, content); }
  }

  // ----- when a ledger reads complete after a new conversion ------------------------------------------

  function LedgerState(l: Ledger): string {
    if l.validationFailed then "blocked"
    else if exists s :: s in l.sections && s.ingestUnit && s.status == Stale then "stale"
    else if (exists s :: s in l.sections && s.ingestUnit)
            && (forall s :: s in l.sections && s.ingestUnit ==> Terminal(s.status)) then "complete"
    else "active"
  }

  /** The section was finished before, with the very content it has now. */
  predicate Finished(next: Section, prior: seq<Section>) {
    var was := LastWith(prior, next.id);
    was.Some? && Terminal(was.value.status) && was.value.content == next.content
  }

  /** Work on the section had begun, and its content has changed or had changed before. */
  predicate Reopened(next: Section, prior: seq<Section>) {
    var was := LastWith(prior, next.id);
    was.Some? && was.value.status != Pending && was.value.status != QaRequired
    && (was.value.content != next.content || was.value.status == Stale)
  }

  lemma {:induction false} CarriedStatus(next: Section, prior: seq<Section>)
    requires next.status == Pending || next.status == QaRequired
    ensures Terminal(Carried(next, prior).status) <==> Finished(next, prior)
    ensures Carried(next, prior).status == Stale <==> Reopened(next, prior)
  {
  }

  /** After a reconciliation the ledger reads complete exactly when the bundle is valid, has an
      ingest unit, and every unit was finished before with the content it has now; it reads
      stale exactly when the bundle is valid and some unit on which work had begun has changed, and
      blocked exactly when the bundle is not valid. */
  lemma {:induction false} CompleteExactly(a: Ledger, snap: Snapshot, b: Ledger)
    requires FreshSnapshot(snap) && Reconciled(a, snap) == Ok(b)
    ensures LedgerState(b) == "complete" <==>
              && !snap.validationFailed
              && (exists i :: 0 <= i < |snap.sections| && snap.sections[i].ingestUnit)
              && forall i :: 0 <= i < |snap.sections| && snap.sections[i].ingestUnit ==> Finished(snap.sections[i], a.sections)
    ensures LedgerState(b) == "stale" <==>
              !snap.validationFailed
              && exists i :: 0 <= i < |snap.sections| && snap.sections[i].ingestUnit && Reopened(snap.sections[i], a.sections)
    ensures LedgerState(b) == "blocked" <==> snap.validationFailed
    ensures LedgerState(b) in {"blocked", "stale", "complete", "active"}
  {
    forall i | 0 <= i < |snap.sections|
      ensures b.sections[i] in b.sections && b.sections[i].ingestUnit == snap.sections[i].ingestUnit
      ensures Terminal(b.sections[i].status) <==> Finished(snap.sections[i], a.sections)
      ensures b.sections[i].status == Stale <==> Reopened(snap.sections[i], a.sections)
    {
      assert b.sections[i] == Carried(snap.sections[i], a.sections);
      CarriedStatus(snap.sections[i], a.sections);
    }
    Stated(b);
  }

  /** The ledger's state in terms of the places of its sections. */
  lemma {:induction false} Stated(l: Ledger)
    ensures LedgerState(l) == "stale" <==>
              !l.validationFailed && exists i :: 0 <= i < |l.sections| && l.sections[i].ingestUnit && l.sections[i].status == Stale
    ensures LedgerState(l) == "complete" <==>
              && !l.validationFailed && (exists i :: 0 <= i < |l.sections| && l.sections[i].ingestUnit)
              && forall i :: 0 <= i < |l.sections| && l.sections[i].ingestUnit ==> Terminal(l.sections[i].status)
  {
  }

  // ----- recorded outputs ------------------------------------------------------------------

  /** The output is still recorded under this id, in a section or an orphaned section. */
  ghost predicate Recorded(l: Ledger, id: string, output: string) {
    || (exists i :: 0 <= i < |l.sections| && Carries(l.sections[i], id, output))
    || (exists i :: 0 <= i < |l.orphaned| && Carries(l.orphaned[i], id, output))
  }

  predicate Carries(s: Section, id: string, output: string) { s.id == id && output in s.outputs }

  ghost predicate DistinctIds(sections: seq<Section>) {
    forall i, j :: 0 <= i < j < |sections| ==> sections[i].id != sections[j].id
  }

  lemma {:induction false} UpdateKeepsOutputs(a: Ledger, u: Update, b: Ledger, id: string, output: string)
    requires Updated(a, u) == Ok(b) && Recorded(a, id, output)
    ensures Recorded(b, id, output)
    ensures |b.sections| == |a.sections|
    ensures forall i :: 0 <= i < |a.sections| ==> b.sections[i].id == a.sections[i].id
  {
    var at := FirstWith(a.sections, u.section).value;
    if i :| 0 <= i < |a.sections| && Carries(a.sections[i], id, output) {
      assert i != at ==> b.sections[i] == a.sections[i];
      assert Carries(b.sections[i], id, output);
    } else {
      var i :| 0 <= i < |a.orphaned| && Carries(a.orphaned[i], id, output);
      assert Carries(b.orphaned[i], id, output);
    }
  }

  lemma {:induction false} OrphanPlace(prior: seq<Section>, current: set<string>, id: string) returns (k: nat)
    requires LastWith(prior, id).Some? && id !in current
    ensures k < |Orphans(prior, current)| && Orphans(prior, current)[k] == LastWith(prior, id).value.(status := Stale)
  {
    assert LastWith(prior, id).value in prior;
    KeysHaveSections(prior);
    OrphanCollected(prior, Keys(prior), current, id);
    k :| 0 <= k < |Orphans(prior, current)| && Orphans(prior, current)[k] == LastWith(prior, id).value.(status := Stale);
  }

  /** Reconciliation keeps what the dictionary sees: the last section with each id. */
  lemma {:induction false} ReconcileKeepsLast(a: Ledger, snap: Snapshot, b: Ledger, id: string, output: string)
    requires Reconciled(a, snap) == Ok(b)
    requires LastWith(a.sections, id).Some? && output in LastWith(a.sections, id).value.outputs
    ensures Recorded(b, id, output)
  {
    var prior := LastWith(a.sections, id).value;
    if id in IdsOf(snap.sections) {
      CurrentKeepsLast(a, snap, b, id, output);
    } else {
      var k := OrphanPlace(a.sections, IdsOf(snap.sections), id);
      assert b.orphaned[|a.orphaned| + k] == prior.(status := Stale);
      assert Carries(b.orphaned[|a.orphaned| + k], id, output);
    }
  }

  lemma {:induction false} CurrentKeepsLast(a: Ledger, snap: Snapshot, b: Ledger, id: string, output: string)
    requires Reconciled(a, snap) == Ok(b) && id in IdsOf(snap.sections)
    requires LastWith(a.sections, id).Some? && output in LastWith(a.sections, id).value.outputs
    ensures Recorded(b, id, output)
  {
    var s :| s in snap.sections && s.id == id;
    var i :| 0 <= i < |snap.sections| && snap.sections[i] == s;
    assert b.sections[i] == Carried(s, a.sections);
    assert Carries(b.sections[i], id, output);
  }

  lemma {:induction false} OrphanCollected(prior: seq<Section>, keys: seq<string>, current: set<string>, id: string)
    requires forall key :: key in keys ==> LastWith(prior, key).Some?
    requires id in keys && id !in current
    ensures LastWith(prior, id).value.(status := Stale) in OrphansAmong(keys, prior, current)
  {
    var last := |keys| - 1;
    if keys[last] != id {
      assert keys == keys[..last] + [keys[last]];
      OrphanCollected(prior, keys[..last], current, id);
    }
  }

  // ----- repeated ids: exactly when outputs can be lost -----------------------------------------

  /** A bundle written elsewhere may repeat a section id; validation then fails, but the ledger is
      still built. Updates reach the first section with an id, reconciliation the last. The
      outputs are safe when no repeated id has an ingest unit as its first section. */
  ghost predicate SafelyNamed(sections: seq<Section>) {
    forall i, j :: 0 <= i < j < |sections| && sections[i].id == sections[j].id && FirstWith(sections, sections[i].id) == Some(i)
      ==> !sections[i].ingestUnit
  }

  /** The last section with an id has the outputs of every section with it. */
  ghost predicate LastHoldsAll(sections: seq<Section>) {
    forall i, output :: 0 <= i < |sections| && output in sections[i].outputs ==> LastHolds(sections, sections[i].id, output)
  }

  predicate LastHolds(sections: seq<Section>, id: string, output: string) {
    LastWith(sections, id).Some? && output in LastWith(sections, id).value.outputs
  }

  lemma {:induction false} LastExists(sections: seq<Section>, i: nat)
    requires i < |sections|
    ensures LastWith(sections, sections[i].id).Some?
  {
    assert sections[i] in sections;
  }

  /** Every copy carries over the same outputs, those of the last section with its id. */
  lemma {:induction false} CarriedOutputs(snap: Snapshot, prior: seq<Section>, i: nat)
    requires FreshSnapshot(snap) && i < |snap.sections|
    ensures var was, now := LastWith(prior, snap.sections[i].id), Carried(snap.sections[i], prior);
            now.id == snap.sections[i].id && now.outputs == if was.Some? then was.value.outputs else []
  {
  }

  lemma {:induction false} ReconcileLastHolds(a: Ledger, snap: Snapshot, b: Ledger)
    requires FreshSnapshot(snap) && Reconciled(a, snap) == Ok(b)
    ensures LastHoldsAll(b.sections)
  {
    forall i, output | 0 <= i < |b.sections| && output in b.sections[i].outputs
      ensures LastHolds(b.sections, b.sections[i].id, output)
    {
      LastExists(b.sections, i);
      var last := LastWith(b.sections, b.sections[i].id).value;
      var j :| 0 <= j < |b.sections| && b.sections[j] == last;
      assert b.sections[i] == Carried(snap.sections[i], a.sections) && b.sections[j] == Carried(snap.sections[j], a.sections);
      CarriedOutputs(snap, a.sections, i);
      CarriedOutputs(snap, a.sections, j);
    }
  }

  ghost predicate SameShape(a: seq<Section>, b: seq<Section>) {
    |a| == |b| && forall i :: 0 <= i < |a| ==> a[i].id == b[i].id && a[i].ingestUnit == b[i].ingestUnit
  }

  lemma {:induction false} FirstWithByIds(a: seq<Section>, b: seq<Section>, id: string)
    requires SameShape(a, b)
    ensures FirstWith(a, id) == FirstWith(b, id)
  {
    var x, y := FirstWith(a, id), FirstWith(b, id);
    assert x.Some? ==> a[x.value].id == b[x.value].id;
    assert y.Some? ==> a[y.value].id == b[y.value].id;
  }

  lemma {:induction false} ShapeKeepsSafe(a: seq<Section>, b: seq<Section>)
    requires SameShape(a, b) && SafelyNamed(a)
    ensures SafelyNamed(b)
  {
    forall i, j | 0 <= i < j < |b| && b[i].id == b[j].id && FirstWith(b, b[i].id) == Some(i) ensures !b[i].ingestUnit {
      FirstWithByIds(a, b, b[i].id);
      assert a[i].id == a[j].id;
    }
  }

  lemma {:induction false} UniqueFound(sections: seq<Section>, i: nat)
    requires i < |sections|
    requires forall j :: 0 <= j < |sections| && j != i ==> sections[j].id != sections[i].id
    ensures LastWith(sections, sections[i].id) == Some(sections[i])
  {
    var last := |sections| - 1;
    if i < last {
      assert sections[..last][i] == sections[i];
      UniqueFound(sections[..last], i);
    }
  }

  /** A section changed in place changes what is found under its own id only. */
  lemma {:induction false} LastElsewhere(sections: seq<Section>, at: nat, s: Section, id: string)
    requires at < |sections| && s.id == sections[at].id && id != s.id
    ensures LastWith(sections[at := s], id) == LastWith(sections, id)
  {
    var last := |sections| - 1;
    if at < last {
      assert sections[at := s][..last] == sections[..last][at := s];
      LastElsewhere(sections[..last], at, s, id);
    } else {
      assert sections[at := s][..last] == sections[..last];
    }
  }

  /** An update reaches an ingest unit that is first with its id; safely named, it is the only one. */
  lemma {:induction false} UpdateLastHolds(a: Ledger, u: Update, b: Ledger)
    requires Updated(a, u) == Ok(b) && SafelyNamed(a.sections) && LastHoldsAll(a.sections)
    ensures SafelyNamed(b.sections) && LastHoldsAll(b.sections)
  {
    var at := FirstWith(a.sections, u.section).value;
    assert SameShape(a.sections, b.sections);
    ShapeKeepsSafe(a.sections, b.sections);
    UniqueFound(b.sections, at);
    forall i, output | 0 <= i < |b.sections| && output in b.sections[i].outputs
      ensures LastHolds(b.sections, b.sections[i].id, output)
    {
      if i != at {
        assert LastHolds(a.sections, a.sections[i].id, output);
        LastElsewhere(a.sections, at, b.sections[at], a.sections[i].id);
      }
    }
  }

  /** Every bundle the ledger is built from is safely named. */
  ghost predicate SafeRun(ls: seq<Ledger>, cs: seq<Command>) {
    Run(ls, cs) && SafelyNamed(ls[0].sections)
    && forall k :: 0 <= k < |cs| && cs[k].Init? ==> SafelyNamed(cs[k].snap.sections)
  }

  lemma {:induction false} SafeStep(a: Ledger, c: Command, b: Ledger)
    requires Step(a, c, b) && SafelyNamed(a.sections) && LastHoldsAll(a.sections)
    requires c.Init? ==> SafelyNamed(c.snap.sections)
    ensures SafelyNamed(b.sections) && LastHoldsAll(b.sections)
  {
    match c {
      case Change(u) => UpdateLastHolds(a, u, b);
      case Init(snap) =>
        forall i | 0 <= i < |snap.sections|
          ensures b.sections[i].id == snap.sections[i].id && b.sections[i].ingestUnit == snap.sections[i].ingestUnit
        {
          assert b.sections[i] == Carried(snap.sections[i], a.sections);
        }
        ShapeKeepsSafe(snap.sections, b.sections);
        ReconcileLastHolds(a, snap, b);
    }
  }

  ghost predicate Safe(l: Ledger) { SafelyNamed(l.sections) && LastHoldsAll(l.sections) }

  ghost predicate SafeAt(ls: seq<Ledger>, m: nat)
    requires m + 1 < |ls|
  {
    Safe(ls[m]) ==> Safe(ls[m + 1])
  }

  lemma {:induction false} SafeOnward(ls: seq<Ledger>, k: nat)
    requires k < |ls| && Safe(ls[0])
    requires forall m: nat {:trigger SafeAt(ls, m)} :: m < k ==> SafeAt(ls, m)
    ensures Safe(ls[k])
  {
    if k > 0 {
      assert SafeAt(ls, k - 1);
      SafeOnward(ls, k - 1);
    }
  }

  lemma {:induction false} SafeRunKeeps(ls: seq<Ledger>, cs: seq<Command>, k: nat)
    requires SafeRun(ls, cs) && k < |ls|
    ensures Safe(ls[k])
  {
    forall m: nat | m < k ensures SafeAt(ls, m) {
      if Safe(ls[m]) { SafeStep(ls[m], cs[m], ls[m + 1]); }
    }
    SafeOnward(ls, k);
  }

  lemma {:induction false} StepKeepsOutputs(a: Ledger, c: Command, b: Ledger, id: string, output: string)
    requires Step(a, c, b) && LastHoldsAll(a.sections) && Recorded(a, id, output)
    ensures Recorded(b, id, output)
  {
    match c {
      case Change(u) => UpdateKeepsOutputs(a, u, b, id, output);
      case Init(snap) =>
        if i :| 0 <= i < |a.sections| && Carries(a.sections[i], id, output) {
          assert LastHolds(a.sections, id, output);
          ReconcileKeepsLast(a, snap, b, id, output);
        } else {
          var i :| 0 <= i < |a.orphaned| && Carries(a.orphaned[i], id, output);
          assert b.orphaned[i] == a.orphaned[i];
          assert Carries(b.orphaned[i], id, output);
        }
    }
  }

  ghost predicate KeepsAt(ls: seq<Ledger>, m: nat, id: string, output: string)
    requires m + 1 < |ls|
  {
    Recorded(ls[m], id, output) ==> Recorded(ls[m + 1], id, output)
  }

  lemma {:induction false} RecordedOnward(ls: seq<Ledger>, k: nat, n: nat, id: string, output: string)
    requires k <= n < |ls| && Recorded(ls[k], id, output)
    requires forall m: nat {:trigger KeepsAt(ls, m, id, output)} :: k <= m < n ==> KeepsAt(ls, m, id, output)
    ensures Recorded(ls[n], id, output)
    decreases n
  {
    if k < n {
      RecordedOnward(ls, k, n - 1, id, output);
      assert KeepsAt(ls, n - 1, id, output);
    }
  }

  /** When every bundle is safely named, no output recorded at any point of a run is ever lost. */
  lemma {:induction false} SafeNamesKeepOutputs(ls: seq<Ledger>, cs: seq<Command>, k: nat, n: nat, id: string, output: string)
    requires SafeRun(ls, cs) && k <= n < |ls| && Recorded(ls[k], id, output)
    ensures Recorded(ls[n], id, output)
  {
    forall m: nat | k <= m < n ensures KeepsAt(ls, m, id, output) {
      SafeRunKeeps(ls, cs, m);
      if Recorded(ls[m], id, output) { StepKeepsOutputs(ls[m], cs[m], ls[m + 1], id, output); }
    }
    RecordedOnward(ls, k, n, id, output);
  }

  /** Outlines built from text have distinct ids, and so do the snapshots taken of them. */
  ghost predicate DistinctRun(ls: seq<Ledger>, cs: seq<Command>) {
    Run(ls, cs) && DistinctIds(ls[0].sections)
    && forall k :: 0 <= k < |cs| && cs[k].Init? ==> DistinctIds(cs[k].snap.sections)
  }

  lemma {:induction false} DistinctRunIsSafe(ls: seq<Ledger>, cs: seq<Command>)
    requires DistinctRun(ls, cs)
    ensures SafeRun(ls, cs)
  {
    forall k | 0 <= k < |cs| && cs[k].Init? ensures SafelyNamed(cs[k].snap.sections) {
      assert DistinctIds(cs[k].snap.sections);
    }
  }

  /** In particular none is lost when no bundle repeats an id. */
  lemma {:induction false} NoOutputLost(ls: seq<Ledger>, cs: seq<Command>, k: nat, n: nat, id: string, output: string)
    requires DistinctRun(ls, cs) && k <= n < |ls| && Recorded(ls[k], id, output)
    ensures Recorded(ls[n], id, output)
  {
    DistinctRunIsSafe(ls, cs);
    SafeNamesKeepOutputs(ls, cs, k, n, id, output);
  }

  /** The ledger's sections are those of a bundle whose content ranges were assigned. */
  ghost predicate BuiltFrom(sections: seq<Section>, nodes: seq<CR.Section>, byId: map<string, nat>, now: seq<CR.Section>) {
    && |sections| == |nodes| && CR.IndexOf(nodes, byId) && CR.SameNodes(now, nodes) && CR.AllAssigned(nodes, byId, now, |nodes|)
    && forall i :: 0 <= i < |sections| ==>
         && sections[i].id == nodes[i].id && sections[i].ingestUnit == now[i].ingestUnit
         && nodes[i].scope.start <= nodes[i].scope.end
  }

  /** Children are handed to the last section with an id, so an earlier one owns its whole scope. */
  lemma {:induction false} ShadowedIsUnit(sections: seq<Section>, nodes: seq<CR.Section>, byId: map<string, nat>,
                                          now: seq<CR.Section>, i: nat, j: nat)
    requires BuiltFrom(sections, nodes, byId, now) && i < j < |sections| && sections[i].id == sections[j].id
    ensures sections[i].ingestUnit
  {
    assert byId[nodes[j].id] >= j;
    assert CR.Assigned(nodes, byId, i, now[i]);
    assert now[i].children == [];
    assert CR.Owned(now[i].scope, []) == [CR.Range(now[i].scope.start, now[i].scope.end)];
  }

  lemma {:induction false} FirstRepeated(sections: seq<Section>, i: nat, j: nat) returns (first: nat)
    requires i < j < |sections| && sections[i].id == sections[j].id
    ensures first < j && sections[first].id == sections[j].id && FirstWith(sections, sections[first].id) == Some(first)
  {
    first := FirstWith(sections, sections[i].id).value;
  }

  lemma {:induction false} DistinctIsSafe(sections: seq<Section>)
    ensures DistinctIds(sections) ==> SafelyNamed(sections)
  {
  }

  /** On the sections the program builds, safely named means that no id is repeated. */
  lemma {:induction false} SafeMeansDistinct(sections: seq<Section>, nodes: seq<CR.Section>, byId: map<string, nat>, now: seq<CR.Section>)
    requires BuiltFrom(sections, nodes, byId, now)
    ensures SafelyNamed(sections) <==> DistinctIds(sections)
  {
    forall i, j | 0 <= i < j < |sections| && sections[i].id == sections[j].id ensures !SafelyNamed(sections) {
      var first := FirstRepeated(sections, i, j);
      ShadowedIsUnit(sections, nodes, byId, now, first, j);
    }
    DistinctIsSafe(sections);
  }

  /** The ledger after the first build and some accepted updates. */
  ghost predicate Updates(ls: seq<Ledger>, us: seq<Update>, snap: Snapshot) {
    && |ls| == |us| + 1 && FreshSnapshot(snap) && ls[0] == FirstBuild(snap)
    && forall k {:trigger us[k]} :: 0 <= k < |us| ==> Updated(ls[k], us[k]) == Ok(ls[k + 1])
  }

  /** Unsafe names: one update and one reconciliation with the same bundle lose an output. */
  lemma {:induction false} UnsafeNamesLoseOutput(snap: Snapshot)
    returns (ls: seq<Ledger>, us: seq<Update>, b: Ledger, id: string, output: string)
    requires FreshSnapshot(snap) && !SafelyNamed(snap.sections)
    ensures Updates(ls, us, snap) && Reconciled(ls[|us|], snap) == Ok(b)
    ensures Recorded(ls[|us|], id, output) && !Recorded(b, id, output)
  {
    var i, j :| 0 <= i < j < |snap.sections| && snap.sections[i].id == snap.sections[j].id
                && FirstWith(snap.sections, snap.sections[i].id) == Some(i) && snap.sections[i].ingestUnit;
    output := "20_Notes/a.md";
    id := snap.sections[i].id;
    var u := Update(None, id, None, [output], [], "recorded");
    var l1 := FirstRecorded(snap, i, u);
    RecordedByUpdate(FirstBuild(snap).sections[i], u, output);
    assert Carries(l1.sections[i], id, output);
    ls, us := [FirstBuild(snap), l1], [u];
    OneUpdate(snap, u, l1);
    b := LostAgain(snap, l1, i, j, output);
  }

  lemma {:induction false} OneUpdate(snap: Snapshot, u: Update, l1: Ledger)
    requires FreshSnapshot(snap) && Updated(FirstBuild(snap), u) == Ok(l1)
    ensures Updates([FirstBuild(snap), l1], [u], snap)
  {
  }

  lemma {:induction false} LostAgain(snap: Snapshot, l1: Ledger, i: nat, j: nat, output: string) returns (b: Ledger)
    requires FreshSnapshot(snap) && i < j < |snap.sections| == |l1.sections| && snap.sections[i].id == snap.sections[j].id
    requires l1.bundle == snap.bundle && l1.orphaned == []
    requires forall k :: 0 <= k < |snap.sections| && k != i ==> l1.sections[k] == snap.sections[k]
    ensures Reconciled(l1, snap) == Ok(b) && !Recorded(b, snap.sections[i].id, output)
  {
    var id := snap.sections[i].id;
    b := Reconciled(l1, snap).value;
    LastIsLater(l1.sections, id, j);
    var k :| j <= k < |l1.sections| && LastWith(l1.sections, id) == Some(l1.sections[k]);
    assert l1.sections[k] == snap.sections[k];
    LostWhenLastHasNone(l1, snap, b, id, output);
  }

  lemma {:induction false} RecordedByUpdate(s: Section, u: Update, output: string)
    requires u.outputs == [output]
    ensures output in WithUpdate(s, u).outputs
  {
    assert output in [output];
  }

  /** The ledger after one update of a fresh snapshot's section `i`. */
  lemma {:induction false} FirstRecorded(snap: Snapshot, i: nat, u: Update) returns (l1: Ledger)
    requires FreshSnapshot(snap) && i < |snap.sections| && snap.sections[i].ingestUnit
    requires FirstWith(snap.sections, u.section) == Some(i) && u == Update(None, snap.sections[i].id, None, u.outputs, [], "recorded")
    ensures var l0 := FirstBuild(snap);
            Updated(l0, u) == Ok(l1) && l1.sections == l0.sections[i := WithUpdate(l0.sections[i], u)]
            && l1.orphaned == [] && l1.bundle == snap.bundle && l0.sections == snap.sections
  {
    var l0 := FirstBuild(snap);
    l1 := Updated(l0, u).value;
  }

  lemma {:induction false} LostWhenLastHasNone(a: Ledger, snap: Snapshot, b: Ledger, id: string, output: string)
    requires FreshSnapshot(snap) && Reconciled(a, snap) == Ok(b) && a.orphaned == []
    requires id in IdsOf(snap.sections)
    requires LastWith(a.sections, id).Some? && LastWith(a.sections, id).value.outputs == []
    ensures !Recorded(b, id, output)
  {
    forall k | 0 <= k < |b.sections| ensures !Carries(b.sections[k], id, output) {
      assert b.sections[k] == Carried(snap.sections[k], a.sections);
    }
    KeysHaveSections(a.sections);
    NothingOrphaned(a.sections, Keys(a.sections), IdsOf(snap.sections), id);
    assert forall k :: 0 <= k < |b.orphaned| ==> b.orphaned[k] in b.orphaned;
  }

  lemma {:induction false} LastIsLater(sections: seq<Section>, id: string, j: nat)
    requires j < |sections| && sections[j].id == id
    ensures exists k :: j <= k < |sections| && LastWith(sections, id) == Some(sections[k])
  {
    var last := |sections| - 1;
    if sections[last].id != id {
      assert sections[..last][j] == sections[j];
      LastIsLater(sections[..last], id, j);
      var k :| j <= k < last && LastWith(sections[..last], id) == Some(sections[..last][k]);
      assert sections[..last][k] == sections[k];
    } else {
      assert LastWith(sections, id) == Some(sections[last]);
    }
  }

  lemma {:induction false} NothingOrphaned(prior: seq<Section>, keys: seq<string>, current: set<string>, id: string)
    requires forall key :: key in keys ==> LastWith(prior, key).Some?
    requires id in current
    ensures forall s :: s in OrphansAmong(keys, prior, current) ==> s.id != id
  {
    if keys != [] { NothingOrphaned(prior, keys[..|keys| - 1], current, id); }
  }
}
