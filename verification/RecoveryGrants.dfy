/** Bounded retry grants for cancelled pass slices. Equal digests stand for equal content, so a
    record holds the request and the report whose digests the workflow file keeps. */
module RecoveryGrants {
  import opened Basics

  datatype Scope =
    | Mechanical
    | PhasePacketGrouping
    | CorrectionReserve
    | LegacySliceConfig
    | CitationPacket
    | AmendmentResult
    | LocalReview
    | BudgetLock

  /** The corrected causes `packet_recovery_cause` knows. */
  datatype Cause = AccessDenied | StaleInput | InspectionClassification | CanonicalBindingBootstrap

  datatype Failure = Failure(cause: Option<Cause>, text: string)

  /** What the controller found wrong with one slice, and what it did about it. */
  datatype AutoAction = AutoAction(node: string, failure: Failure, kind: AutoKind)

  datatype AutoKind = Retry | BudgetRetry | Isolate

  /** Recovery ids: an operator's own, or the one derived from an intent's actions and a node. */
  datatype Id = Operator(name: string) | Auto(actions: seq<AutoAction>, node: string)

  datatype Entry = Entry(node: string, failure: Failure)

  datatype Request = Request(id: Id, scope: Scope, entries: seq<Entry>, expectedRevision: nat)

  /** `proof` stands for the evidence the live checks attach. */
  datatype Audited = Audited(node: string, failure: Failure, proof: string)

  datatype Report = Report(request: Request, entries: seq<Audited>)

  datatype Record = Record(id: Id, request: Request, report: Report, nodes: seq<string>)

  datatype Disk = Disk(slices: set<string>, history: seq<Record>, revision: nat, reports: map<Id, Report>)

  /** What one call observes: whether the batch is cancelled, drained and authorized; the
      cancelled slices; their failure reports; and what the live checks prove for a node. */
  datatype Observed = Observed(ready: bool, cancelled: set<string>, failures: map<string, Failure>, proofs: map<string, string>)

  datatype Refusal =
    | InvalidSchema
    | IdempotencyConflict
    | StaleEvidence
    | RevisionConflict
    | InvalidTransition
    | RecoveryExhausted
    | RecoveryNotAllowed

  datatype Outcome = Granted | Replayed | Refused(why: Refusal) | Crashed

  // ----- one call as a function -----------------------------------------------------------------

  predicate UniqueNodes(entries: seq<Entry>) {
    forall i, j :: 0 <= i < j < |entries| ==> entries[i].node != entries[j].node
  }

  function Prior(history: seq<Record>, id: Id): (r: Option<Record>)
    ensures r.Some? ==> r.value in history && r.value.id == id
    ensures r.None? <==> forall x :: x in history ==> x.id != id
  {
    if history == [] then None
    else if history[0].id == id then Some(history[0])
    else Prior(history[1..], id)
  }

  predicate HasPrevious(history: seq<Record>, node: string) { exists r :: r in history && node in r.nodes }

  /** Whether an earlier grant of the node, read from its report, satisfies `hit`. */
  function Earlier(d: Disk, node: string, hit: Report -> bool, n: nat): Result<bool, Refusal>
    requires n <= |d.history|
    decreases |d.history| - n
  {
    if n == |d.history| then Ok(false)
    else
      var r := d.history[n];
      if node !in r.nodes then Earlier(d, node, hit, n + 1)
      else if r.id !in d.reports then Err(StaleEvidence)
      else if hit(d.reports[r.id]) then Ok(true)
      else Earlier(d, node, hit, n + 1)
  }

  function SameScope(scope: Scope): Report -> bool { (r: Report) => r.request.scope == scope }

  predicate Mentions(entries: seq<Audited>, node: string, cause: Cause) {
    exists e :: e in entries && e.node == node && e.failure.cause == Some(cause)
  }

  function SameCause(node: string, cause: Cause): Report -> bool {
    (r: Report) => r.request.scope == CitationPacket && Mentions(r.entries, node, cause)
  }

  function Repeated(d: Disk, node: string, scope: Scope): Result<bool, Refusal> {
    if scope == Mechanical && HasPrevious(d.history, node) then Ok(true)
    else Earlier(d, node, SameScope(scope), 0)
  }

  function CauseCheck(d: Disk, e: Entry): Result<bool, Refusal> {
    match e.failure.cause
    case None => Err(RecoveryNotAllowed)
    case Some(cause) => Earlier(d, e.node, SameCause(e.node, cause), 0)
  }

  function Audit(d: Disk, q: Request, now: Observed, e: Entry): Result<Audited, Refusal> {
    if e.node !in d.slices || e.node !in now.cancelled then Err(InvalidTransition)
    else match Repeated(d, e.node, q.scope)
      case Err(why) => Err(why)
      case Ok(repeated) =>
        if repeated && q.scope != CitationPacket then Err(RecoveryExhausted)
        else if e.node !in now.failures || now.failures[e.node] != e.failure then Err(StaleEvidence)
        else
          var again := if q.scope == CitationPacket then CauseCheck(d, e) else Ok(false);
          if again.Err? then Err(again.error)
          else if again.value then Err(RecoveryExhausted)
          else if e.node !in now.proofs then Err(RecoveryNotAllowed)
          else Ok(Audited(e.node, e.failure, now.proofs[e.node]))
  }

  /** The first `n` entries in order; the first refusal ends the audit. */
  function AuditAll(d: Disk, q: Request, now: Observed, n: nat): Result<seq<Audited>, Refusal>
    requires n <= |q.entries|
  {
    if n == 0 then Ok([])
    else
      var front := AuditAll(d, q, now, n - 1);
      if front.Err? then front
      else
        var a := Audit(d, q, now, q.entries[n - 1]);
        if a.Err? then Err(a.error) else Ok(front.value + [a.value])
  }

  function Nodes(entries: seq<Audited>): (nodes: seq<string>)
    ensures |nodes| == |entries| && forall i :: 0 <= i < |nodes| ==> nodes[i] == entries[i].node
  {
    seq(|entries|, i requires 0 <= i < |entries| => entries[i].node)
  }

  function Recorded(d: Disk, report: Report): Disk {
    d.(history := d.history + [Record(report.request.id, report.request, report, Nodes(report.entries))],
       revision := d.revision + 1)
  }

  /** Everything before the first write. */
  function Decide(d: Disk, q: Request, now: Observed): Result<Option<Report>, Refusal> {
    if q.entries == [] || !UniqueNodes(q.entries) then Err(InvalidSchema)
    else
      var prior := Prior(d.history, q.id);
      if prior.Some? then
        if prior.value.request != q then Err(IdempotencyConflict)
        else if q.id !in d.reports || d.reports[q.id] != prior.value.report then Err(StaleEvidence)
        else Ok(None)
      else if q.expectedRevision != d.revision then Err(RevisionConflict)
      else if !now.ready then Err(InvalidTransition)
      else
        var audited := AuditAll(d, q, now, |q.entries|);
        if audited.Err? then Err(audited.error)
        else if q.id in d.reports && d.reports[q.id] != Report(q, audited.value) then Err(IdempotencyConflict)
        else Ok(Some(Report(q, audited.value)))
  }

  /** The whole call, cut off before write number `budget + 1`: the report, then the workflow. */
  function Recover(d: Disk, q: Request, now: Observed, budget: nat): (Disk, Outcome) {
    match Decide(d, q, now)
    case Err(why) => (d, Refused(why))
    case Ok(None) => (d, Replayed)
    case Ok(Some(report)) =>
      if budget == 0 then (d, Crashed)
      else
        var written := d.(reports := d.reports[q.id := report]);
        if budget == 1 then (written, Crashed) else (Recorded(written, report), Granted)
  }

  // ----- the call ------------------------------------------------------------------------------------

  class Controller {
    var disk: Disk

    constructor (slices: set<string>)
      ensures disk == Disk(slices, [], 0, map[])
    {
      disk := Disk(slices, [], 0, map[]);
    }

    method RecoverPassExecution(q: Request, now: Observed, budget: nat) returns (outcome: Outcome)
      modifies this
      ensures (disk, outcome) == Recover(old(disk), q, now, budget)
    {
      if q.entries == [] || !UniqueNodes(q.entries) { return Refused(InvalidSchema); }
      var prior := Prior(disk.history, q.id);
      if prior.Some? {
        if prior.value.request != q { return Refused(IdempotencyConflict); }
        if q.id !in disk.reports || disk.reports[q.id] != prior.value.report { return Refused(StaleEvidence); }
        return Replayed;
      }
      if q.expectedRevision != disk.revision { return Refused(RevisionConflict); }
      if !now.ready { return Refused(InvalidTransition); }
      var audited := AuditEntries(disk, q, now);
      if audited.Err? { return Refused(audited.error); }
      var report := Report(q, audited.value);
      if q.id in disk.reports && disk.reports[q.id] != report { return Refused(IdempotencyConflict); }
      if budget == 0 { return Crashed; }
      disk := disk.(reports := disk.reports[q.id := report]);
      if budget == 1 { return Crashed; }
      disk := disk.(history := disk.history + [Record(q.id, q, report, Nodes(report.entries))], revision := disk.revision + 1);
      return Granted;
    }
  }

  method AuditEntries(d: Disk, q: Request, now: Observed) returns (r: Result<seq<Audited>, Refusal>)
    ensures r == AuditAll(d, q, now, |q.entries|)
  {
    var audited: seq<Audited> := [];
    for n := 0 to |q.entries|
      invariant AuditAll(d, q, now, n) == Ok(audited)
    {
      var a := Audit(d, q, now, q.entries[n]);
      if a.Err? {
        RefusalEnds(d, q, now, n + 1, |q.entries|);
        return Err(a.error);
      }
      audited := audited + [a.value];
    }
    return Ok(audited);
  }

  lemma {:induction false} RefusalEnds(d: Disk, q: Request, now: Observed, n: nat, m: nat)
    requires n <= m <= |q.entries| && AuditAll(d, q, now, n).Err?
    ensures AuditAll(d, q, now, m) == AuditAll(d, q, now, n)
  {
    if n < m { RefusalEnds(d, q, now, n, m - 1); }
  }

  // ----- what every call keeps ---------------------------------------------------------------------

  /** What a grant is for: a scope, and for citation packets the cause too. */
  datatype Key = Key(scope: Scope, cause: Option<Cause>)

  function CauseFor(entries: seq<Audited>, node: string): Option<Cause> {
    if entries == [] then None
    else if entries[0].node == node then entries[0].failure.cause
    else CauseFor(entries[1..], node)
  }

  function KeyOf(r: Record, node: string): Key {
    Key(r.request.scope, if r.request.scope == CitationPacket then CauseFor(r.report.entries, node) else None)
  }

  /** The record agrees with the report on disk, and names each node once. */
  ghost predicate Backed(d: Disk, r: Record) {
    && r.id in d.reports && d.reports[r.id] == r.report && r.report.request == r.request && r.request.id == r.id
    && r.nodes == Nodes(r.report.entries) && r.nodes != [] && Distinct(r.nodes)
    && (forall n :: n in r.nodes ==> n in d.slices)
    && (r.request.scope == CitationPacket ==> forall n :: n in r.nodes ==> CauseFor(r.report.entries, n).Some?)
  }

  /** `b` may follow `a`: no node gets the same grant twice, and a mechanical grant is a first one. */
  ghost predicate MayFollow(a: Record, b: Record) {
    && a.id != b.id
    && forall n :: n in a.nodes && n in b.nodes ==> KeyOf(a, n) != KeyOf(b, n) && b.request.scope != Mechanical
  }

  ghost predicate Inv(d: Disk) {
    && (forall r :: r in d.history ==> Backed(d, r))
    && (forall i, j :: 0 <= i < j < |d.history| ==> MayFollow(d.history[i], d.history[j]))
  }

  lemma {:induction false} EarlierMisses(d: Disk, node: string, hit: Report -> bool, n: nat, r: Record)
    requires n <= |d.history| && Earlier(d, node, hit, n) == Ok(false)
    requires r in d.history[n..] && node in r.nodes
    ensures r.id in d.reports && !hit(d.reports[r.id])
    decreases |d.history| - n
  {
    if d.history[n] != r {
      assert d.history[n..] == [d.history[n]] + d.history[n + 1..];
      EarlierMisses(d, node, hit, n + 1, r);
    }
  }

  lemma {:induction false} CauseMentioned(entries: seq<Audited>, node: string, cause: Cause)
    requires CauseFor(entries, node) == Some(cause)
    ensures Mentions(entries, node, cause)
  {
    if entries[0].node == node {
      assert entries[0] in entries;
    } else {
      CauseMentioned(entries[1..], node, cause);
      var e :| e in entries[1..] && e.node == node && e.failure.cause == Some(cause);
      assert e in entries;
    }
  }

  /** What an audit that passes says about the earlier grants of the node. */
  lemma {:induction false} AuditedFresh(d: Disk, q: Request, now: Observed, e: Entry, r: Record)
    requires Audit(d, q, now, e).Ok? && r in d.history && e.node in r.nodes && Backed(d, r)
    ensures q.scope != Mechanical
    ensures q.scope != CitationPacket ==> r.request.scope != q.scope
    ensures q.scope == CitationPacket ==> KeyOf(r, e.node) != Key(CitationPacket, e.failure.cause)
  {
    assert d.history[0..] == d.history;
    if q.scope == CitationPacket {
      var cause := e.failure.cause.value;
      EarlierMisses(d, e.node, SameCause(e.node, cause), 0, r);
      if CauseFor(r.report.entries, e.node) == Some(cause) { CauseMentioned(r.report.entries, e.node, cause); }
    } else {
      EarlierMisses(d, e.node, SameScope(q.scope), 0, r);
    }
  }

  lemma {:induction false} AuditedEntries(d: Disk, q: Request, now: Observed, n: nat)
    requires n <= |q.entries| && AuditAll(d, q, now, n).Ok?
    ensures var a := AuditAll(d, q, now, n).value;
            && |a| == n
            && forall i :: 0 <= i < n ==> Audit(d, q, now, q.entries[i]) == Ok(a[i])
  {
    if n > 0 { AuditedEntries(d, q, now, n - 1); }
  }

  lemma {:induction false} CauseAt(entries: seq<Audited>, i: nat)
    requires i < |entries| && Distinct(Nodes(entries))
    ensures CauseFor(entries, entries[i].node) == entries[i].failure.cause
  {
    if i > 0 {
      assert Nodes(entries)[0] != Nodes(entries)[i];
      assert forall k :: 0 <= k < |entries| - 1 ==> Nodes(entries[1..])[k] == Nodes(entries)[k + 1];
      CauseAt(entries[1..], i - 1);
    }
  }

  lemma {:induction false} AuditNames(d: Disk, q: Request, now: Observed, e: Entry)
    requires Audit(d, q, now, e).Ok?
    ensures var a := Audit(d, q, now, e).value;
            a.node == e.node && a.failure == e.failure && e.node in d.slices && (q.scope == CitationPacket ==> e.failure.cause.Some?)
  {
  }

  /** The audited entries are the request's, in order. */
  lemma {:induction false} AuditedAll(d: Disk, q: Request, now: Observed, entries: seq<Audited>)
    requires AuditAll(d, q, now, |q.entries|) == Ok(entries)
    ensures |entries| == |q.entries| && forall i :: 0 <= i < |entries| ==>
              && Audit(d, q, now, q.entries[i]).Ok? && entries[i].node == q.entries[i].node && entries[i].failure == q.entries[i].failure
              && q.entries[i].node in d.slices && (q.scope == CitationPacket ==> q.entries[i].failure.cause.Some?)
  {
    AuditedEntries(d, q, now, |q.entries|);
    forall i | 0 <= i < |entries|
      ensures entries[i].node == q.entries[i].node && entries[i].failure == q.entries[i].failure
      ensures q.entries[i].node in d.slices && (q.scope == CitationPacket ==> q.entries[i].failure.cause.Some?)
    {
      AuditNames(d, q, now, q.entries[i]);
    }
  }

  /** Each node's grant differs from every earlier one of the node. */
  lemma {:induction false} AuditedFollows(d: Disk, q: Request, now: Observed, entries: seq<Audited>, x: Record)
    requires AuditAll(d, q, now, |q.entries|) == Ok(entries) && x in d.history && Backed(d, x) && x.id != q.id
    requires Distinct(Nodes(entries))
    ensures MayFollow(x, Record(q.id, q, Report(q, entries), Nodes(entries)))
  {
    var r := Record(q.id, q, Report(q, entries), Nodes(entries));
    AuditedAll(d, q, now, entries);
    forall n | n in x.nodes && n in r.nodes ensures KeyOf(x, n) != KeyOf(r, n) && q.scope != Mechanical {
      var i: nat :| i < |r.nodes| && r.nodes[i] == n;
      CauseAt(entries, i);
      AuditedFresh(d, q, now, q.entries[i], x);
    }
  }

  /** A freshly decided grant fits behind the whole history. */
  lemma {:induction false} DecidedFits(d: Disk, q: Request, now: Observed, report: Report)
    requires Inv(d) && Decide(d, q, now) == Ok(Some(report))
    ensures report.request == q
    ensures var r := Record(q.id, q, report, Nodes(report.entries));
            && Backed(d.(reports := d.reports[q.id := report]), r)
            && (forall x :: x in d.history ==> MayFollow(x, r))
  {
    var nodes := Nodes(report.entries);
    AuditedAll(d, q, now, report.entries);
    assert Distinct(nodes) by {
      assert forall i :: 0 <= i < |nodes| ==> nodes[i] == q.entries[i].node;
    }
    forall n | n in nodes && q.scope == CitationPacket ensures CauseFor(report.entries, n).Some? {
      var i: nat :| i < |nodes| && nodes[i] == n;
      CauseAt(report.entries, i);
    }
    forall x | x in d.history ensures MayFollow(x, Record(q.id, q, report, nodes)) {
      AuditedFollows(d, q, now, report.entries, x);
    }
  }

  lemma {:induction false} ReportKeepsInv(d: Disk, id: Id, report: Report)
    requires Inv(d) && forall x :: x in d.history ==> x.id != id
    ensures Inv(d.(reports := d.reports[id := report]))
  {
    var w := d.(reports := d.reports[id := report]);
    forall r | r in w.history ensures Backed(w, r) {
      assert Backed(d, r);
    }
  }

  lemma {:induction false} AppendKeepsInv(d: Disk, r: Record, revision: nat)
    requires Inv(d) && Backed(d, r) && forall x :: x in d.history ==> MayFollow(x, r)
    ensures Inv(d.(history := d.history + [r], revision := revision))
  {
    var w := d.(history := d.history + [r], revision := revision);
    forall x | x in w.history ensures Backed(w, x) {
      assert x in d.history || x == r;
      assert Backed(d, x);
    }
  }

  /** Every call, wherever it is cut off, keeps the bounds. */
  lemma {:induction false} RecoverKeepsInv(d: Disk, q: Request, now: Observed, budget: nat)
    requires Inv(d)
    ensures Inv(Recover(d, q, now, budget).0)
  {
    var decision := Decide(d, q, now);
    if decision.Ok? && decision.value.Some? {
      var report := decision.value.value;
      DecidedFits(d, q, now, report);
      ReportKeepsInv(d, q.id, report);
      AppendKeepsInv(d.(reports := d.reports[q.id := report]), Record(q.id, q, report, Nodes(report.entries)), d.revision + 1);
    }
  }
}
