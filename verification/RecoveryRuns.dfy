/** Retry grants over whole runs: crashes, reruns, an operator and the automatic controller. */
module RecoveryRuns {
  import opened Basics
  import opened RecoveryEvidence
  import opened RecoveryGrants

  // ----- how many grants --------------------------------------------------------------------------

  /** The keys of the grants a node has had, oldest first. */
  function KeysOf(history: seq<Record>, node: string): seq<Key> {
    if history == [] then []
    else
      var last := history[|history| - 1];
      KeysOf(history[..|history| - 1], node) + (if node in last.nodes then [KeyOf(last, node)] else [])
  }

  function AllKeys(): set<Key> {
    {Key(Mechanical, None), Key(PhasePacketGrouping, None), Key(CorrectionReserve, None), Key(LegacySliceConfig, None),
     Key(AmendmentResult, None), Key(LocalReview, None), Key(BudgetLock, None), Key(CitationPacket, Some(AccessDenied)),
     Key(CitationPacket, Some(StaleInput)), Key(CitationPacket, Some(InspectionClassification)),
     Key(CitationPacket, Some(CanonicalBindingBootstrap))}
  }

  ghost predicate Fits(history: seq<Record>) {
    forall i, j :: 0 <= i < j < |history| ==> MayFollow(history[i], history[j])
  }

  lemma {:induction false} KeyKnown(d: Disk, r: Record, node: string)
    requires Backed(d, r) && node in r.nodes
    ensures KeyOf(r, node) in AllKeys()
  {
    match r.request.scope {
      case CitationPacket =>
        assert CauseFor(r.report.entries, node).Some?;
        match CauseFor(r.report.entries, node).value {
          case AccessDenied =>
          case StaleInput =>
          case InspectionClassification =>
          case CanonicalBindingBootstrap =>
        }
      case Mechanical =>
      case PhasePacketGrouping =>
      case CorrectionReserve =>
      case LegacySliceConfig =>
      case AmendmentResult =>
      case LocalReview =>
      case BudgetLock =>
    }
  }

  lemma {:induction false} KeyFromRecord(history: seq<Record>, node: string, key: Key)
    requires key in KeysOf(history, node)
    ensures exists r :: r in history && node in r.nodes && KeyOf(r, node) == key
  {
    var last, front := history[|history| - 1], history[..|history| - 1];
    if key in KeysOf(front, node) {
      KeyFromRecord(front, node, key);
      var r :| r in front && node in r.nodes && KeyOf(r, node) == key;
      assert r in history;
    } else {
      assert last in history && node in last.nodes && KeyOf(last, node) == key;
    }
  }

  /** Grants of one node never repeat a key, and a mechanical one can only be the first. */
  lemma {:induction false} KeysDistinct(history: seq<Record>, node: string)
    requires Fits(history)
    ensures Distinct(KeysOf(history, node))
    ensures forall k :: 1 <= k < |KeysOf(history, node)| ==> KeysOf(history, node)[k].scope != Mechanical
  {
    if history != [] {
      var last, front := history[|history| - 1], history[..|history| - 1];
      forall i, j | 0 <= i < j < |front| ensures MayFollow(front[i], front[j]) {
        assert MayFollow(history[i], history[j]);
      }
      KeysDistinct(front, node);
      var keys := KeysOf(front, node);
      forall key | key in KeysOf(front, node) && node in last.nodes
        ensures key != KeyOf(last, node) && last.request.scope != Mechanical
      {
        KeyFromRecord(front, node, key);
        var r :| r in front && node in r.nodes && KeyOf(r, node) == key;
        var i: nat :| i < |front| && front[i] == r;
        assert MayFollow(history[i], history[|history| - 1]);
      }
      forall i | 0 <= i < |keys| && node in last.nodes ensures keys[i] != KeyOf(last, node) && last.request.scope != Mechanical {
        assert keys[i] in keys;
      }
      var all := KeysOf(history, node);
      forall k | 1 <= k < |all| ensures all[k].scope != Mechanical {
        if k < |keys| { assert all[k] == keys[k]; } else { assert keys[0] != KeyOf(last, node); }
      }
    }
  }

  lemma {:induction false} DistinctIsSmall<T>(s: seq<T>, all: set<T>)
    requires Distinct(s) && forall x :: x in s ==> x in all
    ensures |s| <= |all|
  {
    if s != [] {
      var front, last := s[..|s| - 1], s[|s| - 1];
      assert last in s && last !in front;
      assert forall x :: x in front ==> x in s;
      DistinctIsSmall(front, all - {last});
    }
  }

  lemma {:induction false} ElevenKeys()
    ensures |AllKeys()| <= 11
  {
    var citation := {Key(CitationPacket, Some(AccessDenied)), Key(CitationPacket, Some(StaleInput)),
                     Key(CitationPacket, Some(InspectionClassification)), Key(CitationPacket, Some(CanonicalBindingBootstrap))};
    var others := {Key(Mechanical, None), Key(PhasePacketGrouping, None), Key(CorrectionReserve, None), Key(LegacySliceConfig, None),
                   Key(AmendmentResult, None), Key(LocalReview, None), Key(BudgetLock, None)};
    assert AllKeys() == citation + others;
    assert |citation| == 4;
    assert |others| == 7;
  }

  /** A slice gets at most eleven grants: one per scope, and per cause for citation packets. */
  lemma {:induction false} GrantsPerSlice(d: Disk, node: string)
    requires Inv(d)
    ensures |KeysOf(d.history, node)| <= 11
  {
    KeysDistinct(d.history, node);
    forall key | key in KeysOf(d.history, node) ensures key in AllKeys() {
      KeyFromRecord(d.history, node, key);
      var r :| r in d.history && node in r.nodes && KeyOf(r, node) == key;
      assert Backed(d, r);
      KeyKnown(d, r, node);
    }
    DistinctIsSmall(KeysOf(d.history, node), AllKeys());
    ElevenKeys();
  }

  /** How many records name a node of `nodes`. */
  function Naming(history: seq<Record>, nodes: set<string>): nat {
    if history == [] then 0
    else
      var last := history[|history| - 1];
      Naming(history[..|history| - 1], nodes) + (if exists n :: n in last.nodes && n in nodes then 1 else 0)
  }

  lemma {:induction false} NamingSplits(history: seq<Record>, nodes: set<string>, x: string)
    ensures Naming(history, nodes) <= Naming(history, nodes - {x}) + |KeysOf(history, x)|
  {
    if history != [] {
      var last := history[|history| - 1];
      NamingSplits(history[..|history| - 1], nodes, x);
      if n :| n in last.nodes && n in nodes && x !in last.nodes {
        assert n in nodes - {x};
      }
    }
  }

  lemma {:induction false} NamingBound(d: Disk, nodes: set<string>)
    requires Inv(d)
    ensures Naming(d.history, nodes) <= 11 * |nodes|
  {
    if nodes == {} {
      NamingNone(d.history);
    } else {
      var x :| x in nodes;
      NamingBound(d, nodes - {x});
      NamingSplits(d.history, nodes, x);
      GrantsPerSlice(d, x);
    }
  }

  lemma {:induction false} NamingNone(history: seq<Record>)
    ensures Naming(history, {}) == 0
  {
    if history != [] { NamingNone(history[..|history| - 1]); }
  }

  lemma {:induction false} NamingAll(history: seq<Record>, nodes: set<string>)
    requires forall r :: r in history ==> r.nodes != [] && forall n :: n in r.nodes ==> n in nodes
    ensures Naming(history, nodes) == |history|
  {
    if history != [] {
      var last := history[|history| - 1];
      assert last in history && last.nodes[0] in last.nodes;
      NamingAll(history[..|history| - 1], nodes);
    }
  }

  /** However calls and crashes are scheduled, a batch gets finitely many grants in all. */
  lemma {:induction false} TotalGrants(d: Disk)
    requires Inv(d)
    ensures |d.history| <= 11 * |d.slices|
  {
    forall r | r in d.history ensures r.nodes != [] && forall n :: n in r.nodes ==> n in d.slices {
      assert Backed(d, r);
    }
    NamingAll(d.history, d.slices);
    NamingBound(d, d.slices);
  }

  // ----- crashes and reruns of one request ------------------------------------------------------------

  /** `Earlier` reads only the reports of recorded grants. */
  lemma {:induction false} EarlierUnmoved(d: Disk, id: Id, report: Report, node: string, hit: Report -> bool, n: nat)
    requires n <= |d.history| && forall x :: x in d.history ==> x.id != id
    ensures Earlier(d.(reports := d.reports[id := report]), node, hit, n) == Earlier(d, node, hit, n)
    decreases |d.history| - n
  {
    if n < |d.history| {
      assert d.history[n] in d.history;
      EarlierUnmoved(d, id, report, node, hit, n + 1);
    }
  }

  lemma {:induction false} AuditUnmoved(d: Disk, id: Id, report: Report, q: Request, now: Observed, e: Entry)
    requires forall x :: x in d.history ==> x.id != id
    ensures Audit(d.(reports := d.reports[id := report]), q, now, e) == Audit(d, q, now, e)
  {
    EarlierUnmoved(d, id, report, e.node, SameScope(q.scope), 0);
    if e.failure.cause.Some? { EarlierUnmoved(d, id, report, e.node, SameCause(e.node, e.failure.cause.value), 0); }
  }

  lemma {:induction false} AuditAllUnmoved(d: Disk, id: Id, report: Report, q: Request, now: Observed, n: nat)
    requires n <= |q.entries| && forall x :: x in d.history ==> x.id != id
    ensures AuditAll(d.(reports := d.reports[id := report]), q, now, n) == AuditAll(d, q, now, n)
  {
    if n > 0 {
      AuditAllUnmoved(d, id, report, q, now, n - 1);
      AuditUnmoved(d, id, report, q, now, q.entries[n - 1]);
    }
  }

  /** Deciding again after the report is on disk gives the same report. */
  lemma {:induction false} DecideAgain(d: Disk, q: Request, now: Observed, report: Report)
    requires Decide(d, q, now) == Ok(Some(report))
    ensures Decide(d.(reports := d.reports[q.id := report]), q, now) == Ok(Some(report))
  {
    AuditAllUnmoved(d, q.id, report, q, now, |q.entries|);
  }

  lemma {:induction false} GrantedReplays(d: Disk, q: Request, now: Observed, later: Observed, more: nat)
    requires Inv(d) && Recover(d, q, now, 2).1 == Granted
    ensures var done := Recover(d, q, now, 2).0;
            Recover(done, q, later, more) == (done, Replayed)
  {
    var done := Recover(d, q, now, 2).0;
    RecoverKeepsInv(d, q, now, 2);
    assert done.history[|d.history|].id == q.id;
    OnlyPrior(done, |d.history|);
  }

  /** A call cut off anywhere and repeated with the same observations ends as if never cut off,
      and a third call replays: one grant, one record. */
  lemma {:induction false} RerunCompletes(d: Disk, q: Request, now: Observed, budget: nat)
    requires Inv(d) && Recover(d, q, now, 2).1 == Granted
    ensures var whole, first := Recover(d, q, now, 2), Recover(d, q, now, budget);
            && Recover(first.0, q, now, 2).0 == whole.0
            && (first.1 == Crashed ==> Recover(first.0, q, now, 2).1 == Granted)
            && forall later, more :: Recover(whole.0, q, later, more) == (whole.0, Replayed)
  {
    var report := Decide(d, q, now).value.value;
    DecideAgain(d, q, now, report);
    forall later, more ensures Recover(Recover(d, q, now, 2).0, q, later, more) == (Recover(d, q, now, 2).0, Replayed) {
      GrantedReplays(d, q, now, later, more);
    }
    DecidedRequest(d, q, now, report);
  }

  lemma {:induction false} DecidedRequest(d: Disk, q: Request, now: Observed, report: Report)
    requires Decide(d, q, now) == Ok(Some(report))
    ensures report.request == q
  {
  }

  lemma {:induction false} OnlyPrior(d: Disk, i: nat)
    requires Inv(d) && i < |d.history|
    ensures Prior(d.history, d.history[i].id) == Some(d.history[i]) && Backed(d, d.history[i])
  {
    var r := Prior(d.history, d.history[i].id).value;
    var j: nat :| j < |d.history| && d.history[j] == r;
    if i < j { assert MayFollow(d.history[i], d.history[j]); }
    if j < i { assert MayFollow(d.history[j], d.history[i]); }
  }

  /** After a crash between the two writes, a rerun that would decide anything else is refused and
      writes nothing: with a report of its own it conflicts with the one on disk, and otherwise it
      is refused for its own reason. */
  lemma {:induction false} RerunElseConflicts(d: Disk, q: Request, now: Observed, later: Observed, budget: nat)
    requires Recover(d, q, now, 1).1 == Crashed
    ensures var half := Recover(d, q, now, 1).0;
            Decide(d, q, later) != Decide(d, q, now) ==>
              Recover(half, q, later, budget)
              == (half, Refused(match Decide(d, q, later) case Ok(_) => IdempotencyConflict case Err(why) => why))
  {
    var report := Decide(d, q, now).value.value;
    AuditAllUnmoved(d, q.id, report, q, later, |q.entries|);
  }

  lemma {:induction false} HalfwayAttests(d: Disk, q: Request, now: Observed, later: Observed)
    requires Inv(d) && Recover(d, q, now, 1).1 == Crashed
    ensures var half := Recover(d, q, now, 1).0;
            && half.slices == d.slices && half.history == d.history && half.revision == d.revision && q.id in half.reports
            && (Attests(half.reports[q.id], q, later) <==>
                  forall i :: 0 <= i < |q.entries| ==>
                    && q.entries[i].node in later.proofs && q.entries[i].node in now.proofs
                    && later.proofs[q.entries[i].node] == now.proofs[q.entries[i].node])
  {
    DecidedExactly(d, q, now);
    AttestsBoth(Recover(d, q, now, 1).0.reports[q.id], q, now, later);
  }

  lemma {:induction false} AttestsBoth(report: Report, q: Request, now: Observed, later: Observed)
    requires Attests(report, q, now)
    ensures Attests(report, q, later) <==>
              forall i :: 0 <= i < |q.entries| ==>
                && q.entries[i].node in later.proofs && q.entries[i].node in now.proofs
                && later.proofs[q.entries[i].node] == now.proofs[q.entries[i].node]
  {
    if Attests(report, q, later) {
      forall i | 0 <= i < |q.entries|
        ensures q.entries[i].node in later.proofs && q.entries[i].node in now.proofs
        ensures later.proofs[q.entries[i].node] == now.proofs[q.entries[i].node]
      {
        assert report.entries[i].proof == later.proofs[q.entries[i].node];
      }
    }
  }

  lemma {:induction false} GroundedUnmoved(d: Disk, half: Disk, q: Request, later: Observed, e: Entry)
    requires half.slices == d.slices && half.history == d.history
    ensures Grounded(half, q.scope, later, e) <==> Grounded(d, q.scope, later, e)
  {
  }

  /** A rerun after that crash is granted exactly when the batch is still ready, every entry still
      stands on current evidence, and each proof is the one the first call saw; else it writes
      nothing. */
  lemma {:induction false} RerunGrantedExactly(d: Disk, q: Request, now: Observed, later: Observed, budget: nat)
    requires Inv(d) && Recover(d, q, now, 1).1 == Crashed && budget >= 2
    ensures var half := Recover(d, q, now, 1).0;
            && (Recover(half, q, later, budget).1 == Granted <==>
                  && later.ready
                  && forall i :: 0 <= i < |q.entries| ==>
                       var n := q.entries[i].node;
                       Grounded(d, q.scope, later, q.entries[i]) && n in now.proofs && later.proofs[n] == now.proofs[n])
            && (Recover(half, q, later, budget).1 != Granted ==> Recover(half, q, later, budget).0 == half)
  {
    var half := Recover(d, q, now, 1).0;
    RecoverKeepsInv(d, q, now, 1);
    DecidedExactly(d, q, now);
    GrantedExactly(half, q, later, budget);
    HalfwayAttests(d, q, now, later);
    forall e ensures Grounded(half, q.scope, later, e) <==> Grounded(d, q.scope, later, e) { GroundedUnmoved(d, half, q, later, e); }
    if Recover(half, q, later, budget).1 != Granted { OtherEffectWhole(half, q, later, budget); }
  }

  lemma {:induction false} OtherEffectWhole(d: Disk, q: Request, now: Observed, budget: nat)
    requires Inv(d) && Recover(d, q, now, budget).1 != Granted && budget >= 2
    ensures Recover(d, q, now, budget).0 == d
  {
    OtherEffect(d, q, now, budget);
  }

  // ----- the automatic controller -----------------------------------------------------------------------

  /** `saved` are the request files; `pc` is the controller's place in the intent's actions, lost
      when its process dies. */
  datatype World = World(disk: Disk, pending: Option<seq<AutoAction>>, saved: map<Id, Request>, pc: Option<nat>)

  datatype Step =
    | Call(q: Request, now: Observed, budget: nat)
    | OtherMutation
    | Begin(selected: seq<AutoAction>)
    | Save
    | Apply(now: Observed, budget: nat)
    | Isolated(again: bool)
    | Unlink
    | Die

  predicate IsRetry(a: AutoAction) { !a.kind.Isolate? }

  function AutoId(intent: seq<AutoAction>, k: nat): Id
    requires k < |intent|
  {
    Auto(intent, intent[k].node)
  }

  /** The request the controller saves before it applies action `k`. */
  function AutoRequest(w: World, k: nat): Request
    requires w.pending.Some? && k < |w.pending.value|
  {
    var a := w.pending.value[k];
    Request(AutoId(w.pending.value, k), if a.kind.BudgetRetry? then BudgetLock else LocalReview,
            [Entry(a.node, a.failure)], w.disk.revision)
  }

  predicate AtRetry(w: World) {
    w.pending.Some? && w.pc.Some? && w.pc.value < |w.pending.value| && IsRetry(w.pending.value[w.pc.value])
  }

  predicate Enabled(w: World, s: Step) {
    match s
    case Call(_, _, _) => true
    case OtherMutation => true
    case Begin(selected) => w.pc.None? && (w.pending.Some? || selected != [])
    case Save => AtRetry(w) && AutoId(w.pending.value, w.pc.value) !in w.saved
    case Apply(_, _) => AtRetry(w) && AutoId(w.pending.value, w.pc.value) in w.saved
    case Isolated(_) => w.pending.Some? && w.pc.Some? && w.pc.value < |w.pending.value| && !IsRetry(w.pending.value[w.pc.value])
    case Unlink => w.pending.Some? && w.pc == Some(|w.pending.value|)
    case Die => true
  }

  function Next(w: World, s: Step): World
    requires Enabled(w, s)
  {
    match s
    case Call(q, now, budget) => w.(disk := Recover(w.disk, q, now, budget).0)
    case OtherMutation => w.(disk := w.disk.(revision := w.disk.revision + 1))
    case Begin(selected) => w.(pending := if w.pending.Some? then w.pending else Some(selected), pc := Some(0))
    case Save => w.(saved := w.saved[AutoId(w.pending.value, w.pc.value) := AutoRequest(w, w.pc.value)])
    case Apply(now, budget) =>
      var (disk, outcome) := Recover(w.disk, w.saved[AutoId(w.pending.value, w.pc.value)], now, budget);
      w.(disk := disk, pc := if outcome.Granted? || outcome.Replayed? then Some(w.pc.value + 1) else None)
    case Isolated(again) =>
      w.(disk := if again then w.disk else w.disk.(revision := w.disk.revision + 1), pc := Some(w.pc.value + 1))
    case Unlink => w.(pending := None, pc := None)
    case Die => w.(pc := None)
  }

  ghost predicate Run(ws: seq<World>, steps: seq<Step>) {
    && |ws| == |steps| + 1
    && forall i {:trigger steps[i]} :: 0 <= i < |steps| ==> Enabled(ws[i], steps[i]) && ws[i + 1] == Next(ws[i], steps[i])
  }

  ghost predicate Fresh(w: World) { w.disk.history == [] && w.disk.reports == map[] && w.saved == map[] && w.pending.None? && w.pc.None? }

  /** The saved request of action `k` has its one record. */
  ghost predicate Settled(w: World, k: nat)
    requires w.pending.Some? && k < |w.pending.value|
  {
    var id := AutoId(w.pending.value, k);
    id in w.saved && exists r :: r in w.disk.history && r.id == id && r.request == w.saved[id]
  }

  ghost predicate Sound(w: World) {
    && Inv(w.disk)
    && (w.pc.Some? ==> w.pending.Some? && w.pc.value <= |w.pending.value|)
    && (w.pc.Some? ==> forall k: nat :: k < w.pc.value && IsRetry(w.pending.value[k]) ==> Settled(w, k))
    && (forall id :: id in w.saved ==>
          w.saved[id].id == id && |w.saved[id].entries| == 1 && w.saved[id].expectedRevision <= w.disk.revision)
  }

  /** No step erases a record, a report of a record, or a saved request. */
  ghost predicate Extends(a: World, b: World) {
    && a.disk.history <= b.disk.history && a.disk.revision <= b.disk.revision
    && (forall id :: id in a.saved ==> id in b.saved && b.saved[id] == a.saved[id])
  }

  lemma {:induction false} NextExtends(w: World, s: Step)
    requires Enabled(w, s)
    ensures Extends(w, Next(w, s))
  {
  }

  lemma {:induction false} SettledStays(a: World, b: World, k: nat)
    requires a.pending.Some? && b.pending == a.pending && k < |a.pending.value| && Settled(a, k) && Extends(a, b)
    ensures Settled(b, k)
  {
    var id := AutoId(a.pending.value, k);
    var r :| r in a.disk.history && r.id == id && r.request == a.saved[id];
    assert r in b.disk.history;
  }

  /** The request is the one for an action of the intent in its id: the slice and failure of the
      action, and the scope of its kind. */
  ghost predicate SavedFor(id: Id, q: Request) {
    && id.Auto? && q.id == id
    && exists k :: 0 <= k < |id.actions| && AsksFor(id.actions[k], id.node, q)
  }

  predicate AsksFor(a: AutoAction, node: string, q: Request) {
    && a.node == node && q.entries == [Entry(node, a.failure)]
    && match a.kind
       case Retry => q.scope == LocalReview
       case BudgetRetry => q.scope == BudgetLock
       case Isolate => false
  }

  ghost predicate AllSavedFor(w: World) { forall id :: id in w.saved ==> SavedFor(id, w.saved[id]) }

  lemma {:induction false} NextSavedFor(w: World, s: Step)
    requires Enabled(w, s) && AllSavedFor(w)
    ensures AllSavedFor(Next(w, s))
  {
    if s.Save? {
      var k := w.pc.value;
      assert AsksFor(w.pending.value[k], w.pending.value[k].node, AutoRequest(w, k));
      assert SavedFor(AutoId(w.pending.value, k), AutoRequest(w, k));
    }
  }

  /** Over every schedule a saved request asks for exactly the retry its intent names. */
  lemma {:induction false} SavedRequestsFit(ws: seq<World>, steps: seq<Step>, i: nat)
    requires Run(ws, steps) && Fresh(ws[0]) && i < |ws|
    ensures AllSavedFor(ws[i])
  {
    if i > 0 {
      SavedRequestsFit(ws, steps, i - 1);
      assert ws[i] == Next(ws[i - 1], steps[i - 1]);
      NextSavedFor(ws[i - 1], steps[i - 1]);
    }
  }

  lemma {:induction false} ApplySettles(w: World, now: Observed, budget: nat)
    requires Sound(w) && Enabled(w, Apply(now, budget)) && Next(w, Apply(now, budget)).pc.Some?
    ensures Settled(Next(w, Apply(now, budget)), w.pc.value)
  {
    var id := AutoId(w.pending.value, w.pc.value);
    var q, d := w.saved[id], Recover(w.disk, w.saved[id], now, budget).0;
    if Recover(w.disk, q, now, budget).1.Replayed? {
      var r := Prior(w.disk.history, id).value;
      assert r in d.history && r.request == q;
    } else {
      assert d.history[|w.disk.history|].request == q;
    }
  }

  lemma {:induction false} RevisionIrrelevant(d: Disk, revision: nat)
    requires Inv(d)
    ensures Inv(d.(revision := revision))
  {
    var w := d.(revision := revision);
    forall r | r in w.history ensures Backed(w, r) {
      assert Backed(d, r);
    }
  }

  lemma {:induction false} DiskStaysSound(w: World, s: Step)
    requires Sound(w) && Enabled(w, s)
    ensures Inv(Next(w, s).disk)
  {
    match s
    case Call(q, now, budget) => RecoverKeepsInv(w.disk, q, now, budget);
    case Apply(now, budget) => RecoverKeepsInv(w.disk, w.saved[AutoId(w.pending.value, w.pc.value)], now, budget);
    case OtherMutation => RevisionIrrelevant(w.disk, w.disk.revision + 1);
    case Isolated(_) => RevisionIrrelevant(w.disk, w.disk.revision + 1);
    case Begin(_) =>
    case Save =>
    case Unlink =>
    case Die =>
  }

  lemma {:induction false} NextKeeps(w: World, s: Step)
    requires Sound(w) && Enabled(w, s)
    ensures Sound(Next(w, s))
  {
    var b := Next(w, s);
    DiskStaysSound(w, s);
    NextExtends(w, s);
    if b.pc.Some? {
      forall k: nat | k < b.pc.value && IsRetry(b.pending.value[k]) ensures Settled(b, k) {
        if k < w.pc.value {
          SettledStays(w, b, k);
        } else {
          ApplySettles(w, s.now, s.budget);
        }
      }
    }
  }

  lemma {:induction false} RunSound(ws: seq<World>, steps: seq<Step>, n: nat)
    requires Run(ws, steps) && Fresh(ws[0]) && n <= |steps|
    ensures Sound(ws[n])
  {
    if n > 0 {
      RunSound(ws, steps, n - 1);
      var s := steps[n - 1];
      NextKeeps(ws[n - 1], s);
    }
  }

  /** Over every schedule: each recovery id has at most one record, each slice at most one grant
      per key with a mechanical one only in front, and the whole batch finitely many. */
  lemma {:induction false} GrantsBounded(ws: seq<World>, steps: seq<Step>, n: nat)
    requires Run(ws, steps) && Fresh(ws[0]) && n <= |steps|
    ensures var d := ws[n].disk;
            && (forall i, j :: 0 <= i < j < |d.history| ==> d.history[i].id != d.history[j].id)
            && (forall node :: Distinct(KeysOf(d.history, node)) && |KeysOf(d.history, node)| <= 11)
            && (forall node, k :: 1 <= k < |KeysOf(d.history, node)| ==> KeysOf(d.history, node)[k].scope != Mechanical)
            && |d.history| <= 11 * |d.slices|
  {
    RunSound(ws, steps, n);
    var d := ws[n].disk;
    forall i, j | 0 <= i < j < |d.history| ensures d.history[i].id != d.history[j].id {
      assert MayFollow(d.history[i], d.history[j]);
    }
    forall node
      ensures Distinct(KeysOf(d.history, node)) && |KeysOf(d.history, node)| <= 11
      ensures forall k :: 1 <= k < |KeysOf(d.history, node)| ==> KeysOf(d.history, node)[k].scope != Mechanical
    {
      KeysDistinct(d.history, node);
      GrantsPerSlice(d, node);
    }
    TotalGrants(d);
  }

  /** While an intent is pending no crash or restart replaces it; it is unlinked only when each of
      its retries has its one record, made for the request saved before it. */
  lemma {:induction false} IntentHolds(w: World, s: Step)
    requires Sound(w) && w.pending.Some? && Enabled(w, s)
    ensures s != Unlink ==> Next(w, s).pending == w.pending
    ensures s == Unlink ==> forall k: nat :: k < |w.pending.value| && IsRetry(w.pending.value[k]) ==> Settled(w, k)
  {
  }

  /** Minting the same intent again grants nothing: its saved requests are only replayed. */
  lemma {:induction false} SameIntentOnlyReplays(w: World, s: Step)
    requires Sound(w) && s.Apply? && Enabled(w, s) && Settled(w, w.pc.value)
    ensures Next(w, s).disk == w.disk && Next(w, s).pc == Some(w.pc.value + 1)
  {
    RecordedReplays(w.disk, w.saved[AutoId(w.pending.value, w.pc.value)], s.now, s.budget);
  }

  lemma {:induction false} RecordedReplays(d: Disk, q: Request, now: Observed, budget: nat)
    requires Inv(d) && |q.entries| == 1 && exists r :: r in d.history && r.id == q.id && r.request == q
    ensures Recover(d, q, now, budget) == (d, Replayed)
  {
    var r :| r in d.history && r.id == q.id && r.request == q;
    var i: nat :| i < |d.history| && d.history[i] == r;
    OnlyPrior(d, i);
  }

  // ----- when an intent can still complete ----------------------------------------------------------------

  /** A retry whose request is saved but not recorded, and was saved at an earlier revision. */
  ghost predicate Outdated(w: World, k: nat)
    requires w.pending.Some? && k < |w.pending.value|
  {
    var id := AutoId(w.pending.value, k);
    id in w.saved && !Settled(w, k) && w.saved[id].expectedRevision < w.disk.revision
  }

  /** Without its record a saved request is granted only at the revision it was saved at. */
  lemma {:induction false} OutdatedRefused(d: Disk, q: Request, now: Observed, budget: nat)
    requires q.expectedRevision < d.revision && !(exists r :: r in d.history && r.id == q.id && r.request == q)
    ensures Recover(d, q, now, budget).0 == d && Recover(d, q, now, budget).1.Refused?
  {
    assert Prior(d.history, q.id).Some? ==> Prior(d.history, q.id).value.request != q;
  }

  /** A call about any other request leaves it unrecorded. */
  lemma {:induction false} OthersDoNotRecord(d: Disk, q: Request, now: Observed, budget: nat, saved: Request)
    requires saved.expectedRevision < d.revision && !(exists r :: r in d.history && r.id == saved.id && r.request == saved)
    ensures !(exists r :: r in Recover(d, q, now, budget).0.history && r.id == saved.id && r.request == saved)
  {
    if q == saved {
      OutdatedRefused(d, q, now, budget);
    } else {
      var after := Recover(d, q, now, budget).0;
      assert after.history == d.history || after.history[..|d.history|] == d.history;
      forall r | r in after.history ensures !(r.id == saved.id && r.request == saved) {
        assert r in d.history || r == after.history[|d.history|];
      }
    }
  }

  /** An outdated retry stays outdated under every step, and its intent is not unlinked. */
  lemma {:induction false} OutdatedStays(w: World, s: Step, k: nat)
    requires Sound(w) && Enabled(w, s) && w.pending.Some? && k < |w.pending.value| && IsRetry(w.pending.value[k]) && Outdated(w, k)
    ensures s != Unlink && Next(w, s).pending == w.pending && Outdated(Next(w, s), k)
  {
    var id := AutoId(w.pending.value, k);
    if s.Call? {
      OthersDoNotRecord(w.disk, s.q, s.now, s.budget, w.saved[id]);
    } else if s.Apply? {
      OthersDoNotRecord(w.disk, w.saved[AutoId(w.pending.value, w.pc.value)], s.now, s.budget, w.saved[id]);
    }
    NextExtends(w, s);
  }

  ghost predicate OutdatedAt(ws: seq<World>, m: nat, actions: seq<AutoAction>, k: nat)
    requires m < |ws| && k < |actions|
  {
    ws[m].pending == Some(actions) && Outdated(ws[m], k)
  }

  ghost predicate OutdatedNext(ws: seq<World>, m: nat, actions: seq<AutoAction>, k: nat)
    requires m + 1 < |ws| && k < |actions|
  {
    OutdatedAt(ws, m, actions, k) ==> OutdatedAt(ws, m + 1, actions, k)
  }

  lemma {:induction false} OutdatedOnward(ws: seq<World>, actions: seq<AutoAction>, k: nat, i: nat, j: nat)
    requires i <= j < |ws| && k < |actions| && OutdatedAt(ws, i, actions, k)
    requires forall m: nat {:trigger OutdatedNext(ws, m, actions, k)} :: i <= m < j ==> OutdatedNext(ws, m, actions, k)
    ensures OutdatedAt(ws, j, actions, k)
    decreases j
  {
    if i < j {
      OutdatedOnward(ws, actions, k, i, j - 1);
      assert OutdatedNext(ws, j - 1, actions, k);
    }
  }

  /** After a request was saved, a crash and one other mutation of the workflow block the intent
      for good: whatever is scheduled, it stays pending and is never unlinked. */
  lemma {:induction false} OutdatedForEver(ws: seq<World>, steps: seq<Step>, actions: seq<AutoAction>, k: nat, i: nat, j: nat)
    requires Run(ws, steps) && Fresh(ws[0]) && i <= j <= |steps|
    requires k < |actions| && IsRetry(actions[k]) && OutdatedAt(ws, i, actions, k)
    ensures OutdatedAt(ws, j, actions, k) && !Enabled(ws[j], Unlink)
  {
    forall m: nat | i <= m < j ensures OutdatedNext(ws, m, actions, k) {
      RunSound(ws, steps, m);
      if OutdatedAt(ws, m, actions, k) { OutdatedStays(ws[m], steps[m], k); }
    }
    OutdatedOnward(ws, actions, k, i, j);
    RunSound(ws, steps, j);
  }

  /** How a retry becomes outdated: its request is saved, the process dies, and the workflow moves on. */
  lemma {:induction false} CrashOutdates(w: World)
    requires Sound(w) && Enabled(w, Save) && forall r :: r in w.disk.history ==> r.id != AutoId(w.pending.value, w.pc.value)
    ensures var after := Next(Next(Next(w, Save), Die), OtherMutation);
            after.pending == w.pending && Outdated(after, w.pc.value)
  {
  }

  /** Exactly when applying a saved request leaves it recorded: it is recorded already, or its
      id is unused, nothing has changed the workflow since it was saved, the slice is cancelled with
      the failure the intent was made for, no grant of it is in the way, no different report stands
      under the id, and the call is not cut off. */
  lemma {:induction false} ApplySettlesExactly(w: World, now: Observed, budget: nat)
    requires Sound(w) && Enabled(w, Apply(now, budget))
    ensures var k, d := w.pc.value, w.disk;
            var q := w.saved[AutoId(w.pending.value, k)];
            Settled(Next(w, Apply(now, budget)), k) <==>
              || Settled(w, k)
              || (&& Unused(d, q.id) && q.expectedRevision == d.revision && now.ready && budget >= 2
                  && Grounded(d, q.scope, now, q.entries[0])
                  && (q.id in d.reports ==> Attests(d.reports[q.id], q, now)))
  {
    var k, d := w.pc.value, w.disk;
    var q := w.saved[AutoId(w.pending.value, k)];
    NextExtends(w, Apply(now, budget));
    if Settled(w, k) {
      SameIntentOnlyReplays(w, Apply(now, budget));
    } else {
      UnrecordedGrant(d, q, now, budget);
    }
  }

  lemma {:induction false} UnrecordedGrant(d: Disk, q: Request, now: Observed, budget: nat)
    requires Inv(d) && !(exists r :: r in d.history && r.id == q.id && r.request == q) && |q.entries| == 1
    ensures var recorded := exists r :: r in Recover(d, q, now, budget).0.history && r.id == q.id && r.request == q;
            recorded <==> Recover(d, q, now, budget).1 == Granted
    ensures Recover(d, q, now, budget).1 == Granted <==>
              && Unused(d, q.id) && q.expectedRevision == d.revision && now.ready && budget >= 2
              && Grounded(d, q.scope, now, q.entries[0])
              && (q.id in d.reports ==> Attests(d.reports[q.id], q, now))
  {
    var after := Recover(d, q, now, budget).0;
    GrantedExactly(d, q, now, budget);
    if Recover(d, q, now, budget).1 == Granted {
      var last := after.history[|d.history|];
      assert last in after.history && last.id == q.id && last.request == q;
    }
  }
}
