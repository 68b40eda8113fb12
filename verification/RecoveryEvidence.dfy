/** On which evidence a retry is granted, told from the request, the history and what the call
    observes. */
module RecoveryEvidence {
  import opened Basics
  import opened RecoveryGrants

  // ----- what a grant rests on -------------------------------------------------------------------

  /** The record granted the node a retry for this very cause. */
  ghost predicate GrantedCause(r: Record, node: string, cause: Option<Cause>) {
    exists x :: x in r.report.entries && x.node == node && x.failure.cause == cause
  }

  /** The grant `r` rules out another one of this scope for the entry. */
  ghost predicate RulesOut(r: Record, scope: Scope, e: Entry) {
    && e.node in r.nodes
    && (if scope == Mechanical then true
        else if scope == CitationPacket then r.request.scope == CitationPacket && GrantedCause(r, e.node, e.failure.cause)
        else r.request.scope == scope)
  }

  ghost predicate Spent(d: Disk, scope: Scope, e: Entry) {
    exists r :: r in d.history && RulesOut(r, scope, e)
  }

  /** The slice is cancelled, and its failure is the one observed now. */
  ghost predicate Current(d: Disk, now: Observed, e: Entry) {
    && e.node in d.slices && e.node in now.cancelled
    && e.node in now.failures && now.failures[e.node] == e.failure
  }

  /** What an entry needs: current evidence, a proof, a cause where the scope is about one, and no
      grant that rules it out. */
  ghost predicate Grounded(d: Disk, scope: Scope, now: Observed, e: Entry) {
    && Current(d, now, e) && e.node in now.proofs
    && (scope == CitationPacket ==> e.failure.cause.Some?)
    && !Spent(d, scope, e)
  }

  /** The report says what the request named and the call observed, in the request's order. */
  ghost predicate Attests(report: Report, q: Request, now: Observed) {
    && report.request == q && |report.entries| == |q.entries|
    && forall i :: 0 <= i < |q.entries| ==>
         && report.entries[i].node == q.entries[i].node && report.entries[i].failure == q.entries[i].failure
         && q.entries[i].node in now.proofs && report.entries[i].proof == now.proofs[q.entries[i].node]
  }

  ghost predicate WellFormed(q: Request) {
    q.entries != [] && forall i, j :: 0 <= i < j < |q.entries| ==> q.entries[i].node != q.entries[j].node
  }

  ghost predicate Unused(d: Disk, id: Id) { forall r :: r in d.history ==> r.id != id }

  /** All a first call needs to be granted. */
  ghost predicate Deserves(d: Disk, q: Request, now: Observed) {
    && WellFormed(q) && Unused(d, q.id) && q.expectedRevision == d.revision && now.ready
    && (forall i :: 0 <= i < |q.entries| ==> Grounded(d, q.scope, now, q.entries[i]))
    && (q.id in d.reports ==> Attests(d.reports[q.id], q, now))
  }

  // ----- one entry ----------------------------------------------------------------------------------

  /** Some record from `n` on names the node and its own report satisfies `hit`. */
  ghost predicate HitFrom(d: Disk, node: string, hit: Report -> bool, n: nat) {
    exists k: nat :: n <= k < |d.history| && node in d.history[k].nodes && hit(d.history[k].report)
  }

  /** Reading the earlier grants' reports from disk answers the question about the records. */
  lemma {:induction false} EarlierExactly(d: Disk, node: string, hit: Report -> bool, n: nat)
    requires Inv(d) && n <= |d.history|
    ensures Earlier(d, node, hit, n) == Ok(HitFrom(d, node, hit, n))
    decreases |d.history| - n
  {
    if n < |d.history| {
      var m := n + 1;
      EarlierExactly(d, node, hit, m);
      assert Backed(d, d.history[n]);
      HitFromNext(d, node, hit, n, m);
    }
  }

  lemma {:induction false} HitFromNext(d: Disk, node: string, hit: Report -> bool, n: nat, m: nat)
    requires n < |d.history| && m == n + 1
    ensures HitFrom(d, node, hit, n) <==> HitFrom(d, node, hit, m) || (node in d.history[n].nodes && hit(d.history[n].report))
  {
    if k: nat :| n <= k < |d.history| && node in d.history[k].nodes && hit(d.history[k].report) {
      assert k == n || m <= k;
    }
  }

  lemma {:induction false} PreviousExactly(d: Disk, e: Entry)
    ensures HasPrevious(d.history, e.node) <==> Spent(d, Mechanical, e)
  {
    if r :| r in d.history && e.node in r.nodes { assert RulesOut(r, Mechanical, e); }
  }

  lemma {:induction false} ScopeExactly(d: Disk, scope: Scope, e: Entry)
    requires scope != Mechanical && scope != CitationPacket && Inv(d)
    ensures HitFrom(d, e.node, SameScope(scope), 0) <==> Spent(d, scope, e)
  {
    if r :| r in d.history && RulesOut(r, scope, e) {
      var k: nat :| k < |d.history| && d.history[k] == r;
      assert Backed(d, r) && SameScope(scope)(d.history[k].report);
    }
    if k: nat :| k < |d.history| && e.node in d.history[k].nodes && SameScope(scope)(d.history[k].report) {
      assert Backed(d, d.history[k]) && RulesOut(d.history[k], scope, e);
    }
  }

  lemma {:induction false} CauseExactly(d: Disk, e: Entry)
    requires e.failure.cause.Some? && Inv(d)
    ensures HitFrom(d, e.node, SameCause(e.node, e.failure.cause.value), 0) <==> Spent(d, CitationPacket, e)
  {
    var hit := SameCause(e.node, e.failure.cause.value);
    if r :| r in d.history && RulesOut(r, CitationPacket, e) {
      var k: nat :| k < |d.history| && d.history[k] == r;
      assert Backed(d, r) && Mentions(r.report.entries, e.node, e.failure.cause.value) && hit(d.history[k].report);
    }
    if k: nat :| k < |d.history| && e.node in d.history[k].nodes && hit(d.history[k].report) {
      assert Backed(d, d.history[k]) && GrantedCause(d.history[k], e.node, e.failure.cause);
      assert RulesOut(d.history[k], CitationPacket, e);
    }
  }

  /** Whether a retry is repeated, outside citation packets. */
  lemma {:induction false} RepeatedExactly(d: Disk, scope: Scope, e: Entry)
    requires Inv(d)
    ensures Repeated(d, e.node, scope).Ok?
    ensures scope != CitationPacket ==> Repeated(d, e.node, scope) == Ok(Spent(d, scope, e))
  {
    EarlierExactly(d, e.node, SameScope(scope), 0);
    if scope == Mechanical {
      PreviousExactly(d, e);
      if k: nat :| k < |d.history| && e.node in d.history[k].nodes && SameScope(scope)(d.history[k].report) {
        assert d.history[k] in d.history;
      }
    } else if scope != CitationPacket {
      ScopeExactly(d, scope, e);
    }
  }

  /** Each answer to one entry, and when it is given. */
  ghost predicate Answer(d: Disk, scope: Scope, now: Observed, e: Entry, a: Result<Audited, Refusal>) {
    match a
    case Ok(x) => Grounded(d, scope, now, e) && x == Audited(e.node, e.failure, now.proofs[e.node])
    case Err(InvalidTransition) => e.node !in d.slices || e.node !in now.cancelled
    case Err(StaleEvidence) =>
      e.node in d.slices && e.node in now.cancelled && !Current(d, now, e) && (scope != CitationPacket ==> !Spent(d, scope, e))
    case Err(RecoveryExhausted) =>
      && e.node in d.slices && e.node in now.cancelled && Spent(d, scope, e)
      && (scope == CitationPacket ==> Current(d, now, e) && e.failure.cause.Some?)
    case Err(RecoveryNotAllowed) =>
      && Current(d, now, e)
      && (if scope == CitationPacket && e.failure.cause.None? then true else !Spent(d, scope, e) && e.node !in now.proofs)
    case _ => false
  }

  lemma {:induction false} AuditAnswers(d: Disk, q: Request, now: Observed, e: Entry)
    requires Inv(d)
    ensures Answer(d, q.scope, now, e, Audit(d, q, now, e))
  {
    RepeatedExactly(d, q.scope, e);
    if q.scope == CitationPacket && e.failure.cause.Some? {
      EarlierExactly(d, e.node, SameCause(e.node, e.failure.cause.value), 0);
      CauseExactly(d, e);
    }
  }

  /** No two answers fit the same entry. */
  lemma {:induction false} OneAnswer(d: Disk, scope: Scope, now: Observed, e: Entry, a: Result<Audited, Refusal>, b: Result<Audited, Refusal>)
    requires Answer(d, scope, now, e, a) && Answer(d, scope, now, e, b)
    ensures a == b
  {
  }

  // ----- the whole call -----------------------------------------------------------------------------------

  lemma {:induction false} AllGrounded(d: Disk, q: Request, now: Observed, n: nat)
    requires Inv(d) && n <= |q.entries|
    ensures AuditAll(d, q, now, n).Ok? <==> forall i :: 0 <= i < n ==> Grounded(d, q.scope, now, q.entries[i])
    ensures AuditAll(d, q, now, n).Ok? ==>
              var a := AuditAll(d, q, now, n).value;
              |a| == n && forall i :: 0 <= i < n ==>
                q.entries[i].node in now.proofs && a[i] == Audited(q.entries[i].node, q.entries[i].failure, now.proofs[q.entries[i].node])
  {
    if n > 0 {
      AllGrounded(d, q, now, n - 1);
      AuditAnswers(d, q, now, q.entries[n - 1]);
    }
  }

  /** A refused list of entries gives the answer to its first entry that is not in order. */
  lemma {:induction false} FirstRefusal(d: Disk, q: Request, now: Observed, n: nat, i: nat, why: Refusal)
    requires Inv(d) && i < n <= |q.entries|
    requires forall j :: 0 <= j < i ==> Grounded(d, q.scope, now, q.entries[j])
    requires Answer(d, q.scope, now, q.entries[i], Err(why))
    ensures AuditAll(d, q, now, n) == Err(why)
  {
    if i < n - 1 {
      FirstRefusal(d, q, now, n - 1, i, why);
    } else {
      AllGrounded(d, q, now, i);
      AuditAnswers(d, q, now, q.entries[i]);
      OneAnswer(d, q.scope, now, q.entries[i], Err(why), Audit(d, q, now, q.entries[i]));
    }
  }

  /** One report attests a request. */
  lemma {:induction false} OneReport(a: Report, b: Report, q: Request, now: Observed)
    requires Attests(a, q, now) && Attests(b, q, now)
    ensures a == b
  {
    forall i | 0 <= i < |q.entries| ensures a.entries[i] == b.entries[i] {
      assert a.entries[i].proof == now.proofs[q.entries[i].node] == b.entries[i].proof;
    }
    assert a.entries == b.entries;
  }

  lemma {:induction false} DecidedExactly(d: Disk, q: Request, now: Observed)
    requires Inv(d)
    ensures Deserves(d, q, now) <==> Decide(d, q, now).Ok? && Decide(d, q, now).value.Some?
    ensures Deserves(d, q, now) ==> Attests(Decide(d, q, now).value.value, q, now)
  {
    AllGrounded(d, q, now, |q.entries|);
    var audited := AuditAll(d, q, now, |q.entries|);
    if audited.Ok? {
      assert Attests(Report(q, audited.value), q, now);
      if q.id in d.reports && Attests(d.reports[q.id], q, now) { OneReport(d.reports[q.id], Report(q, audited.value), q, now); }
    }
  }

  /** A call is granted exactly when it deserves it and is not cut off; cut off, it has written the
      report or nothing. */
  lemma {:induction false} GrantedExactly(d: Disk, q: Request, now: Observed, budget: nat)
    requires Inv(d)
    ensures Recover(d, q, now, budget).1 == Granted <==> Deserves(d, q, now) && budget >= 2
    ensures Recover(d, q, now, budget).1 == Crashed <==> Deserves(d, q, now) && budget < 2
  {
    DecidedExactly(d, q, now);
  }

  /** What a granted call leaves behind: the report of exactly what was asked and observed, one
      record more that names its slices in order, and the next revision. */
  ghost predicate GrantWritten(d: Disk, q: Request, now: Observed, after: Disk, report: Report) {
    && Attests(report, q, now) && after.reports == d.reports[q.id := report]
    && after.slices == d.slices && after.revision == d.revision + 1
    && |after.history| == |d.history| + 1 && after.history[..|d.history|] == d.history
    && var last := after.history[|d.history|];
       && last.id == q.id && last.request == q && last.report == report && |last.nodes| == |q.entries|
       && forall i :: 0 <= i < |q.entries| ==> last.nodes[i] == q.entries[i].node
  }

  lemma {:induction false} GrantEffect(d: Disk, q: Request, now: Observed, budget: nat)
    requires Inv(d) && Recover(d, q, now, budget).1 == Granted
    ensures exists report :: GrantWritten(d, q, now, Recover(d, q, now, budget).0, report)
  {
    DecidedExactly(d, q, now);
    GrantedExactly(d, q, now, budget);
    var report := Decide(d, q, now).value.value;
    assert GrantWritten(d, q, now, Recover(d, q, now, budget).0, report);
  }

  /** What a call that is not granted leaves behind. */
  lemma {:induction false} OtherEffect(d: Disk, q: Request, now: Observed, budget: nat)
    requires Inv(d) && Recover(d, q, now, budget).1 != Granted
    ensures var after := Recover(d, q, now, budget).0;
            || after == d
            || (Recover(d, q, now, budget).1 == Crashed && budget == 1 && after.history == d.history && after.revision == d.revision
                && after.slices == d.slices && exists report :: Attests(report, q, now) && after.reports == d.reports[q.id := report])
  {
    DecidedExactly(d, q, now);
    if Recover(d, q, now, budget).1 == Crashed && budget == 1 {
      var report := Decide(d, q, now).value.value;
      assert Attests(report, q, now) && Recover(d, q, now, budget).0.reports == d.reports[q.id := report];
    }
  }

  /** A well-formed request whose id is recorded is replayed when it is the recorded one, and is a
      conflict otherwise. */
  lemma {:induction false} RecordedExactly(d: Disk, q: Request, now: Observed, budget: nat, r: Record)
    requires Inv(d) && WellFormed(q) && r in d.history && r.id == q.id
    ensures Recover(d, q, now, budget) == (d, if r.request == q then Replayed else Refused(IdempotencyConflict))
  {
    var p := Prior(d.history, q.id).value;
    assert Backed(d, p);
    SameRecord(d, p, r);
  }

  lemma {:induction false} SameRecord(d: Disk, a: Record, b: Record)
    requires Inv(d) && a in d.history && b in d.history && a.id == b.id
    ensures a == b
  {
    var i: nat :| i < |d.history| && d.history[i] == a;
    var j: nat :| j < |d.history| && d.history[j] == b;
    if i < j { assert MayFollow(d.history[i], d.history[j]); }
    if j < i { assert MayFollow(d.history[j], d.history[i]); }
  }

  /** The order of the refusals: the shape of the request first, then the id, then the revision, then
      the state of the batch. */
  lemma {:induction false} RefusedEarly(d: Disk, q: Request, now: Observed, budget: nat)
    ensures !WellFormed(q) ==> Recover(d, q, now, budget) == (d, Refused(InvalidSchema))
    ensures WellFormed(q) && Unused(d, q.id) && q.expectedRevision != d.revision ==>
              Recover(d, q, now, budget) == (d, Refused(RevisionConflict))
    ensures WellFormed(q) && Unused(d, q.id) && q.expectedRevision == d.revision && !now.ready ==>
              Recover(d, q, now, budget) == (d, Refused(InvalidTransition))
  {
  }

  /** Past those, the first entry that is not in order decides; a different report under the id
      comes last. */
  lemma {:induction false} RefusedByEntry(d: Disk, q: Request, now: Observed, budget: nat, i: nat, why: Refusal)
    requires Inv(d) && WellFormed(q) && Unused(d, q.id) && q.expectedRevision == d.revision && now.ready
    requires i < |q.entries| && Answer(d, q.scope, now, q.entries[i], Err(why))
    requires forall j :: 0 <= j < i ==> Grounded(d, q.scope, now, q.entries[j])
    ensures Recover(d, q, now, budget) == (d, Refused(why))
  {
    FirstRefusal(d, q, now, |q.entries|, i, why);
  }

  lemma {:induction false} RefusedByReport(d: Disk, q: Request, now: Observed, budget: nat)
    requires Inv(d) && WellFormed(q) && Unused(d, q.id) && q.expectedRevision == d.revision && now.ready
    requires forall j :: 0 <= j < |q.entries| ==> Grounded(d, q.scope, now, q.entries[j])
    requires q.id in d.reports && !Attests(d.reports[q.id], q, now)
    ensures Recover(d, q, now, budget) == (d, Refused(IdempotencyConflict))
  {
    AllGrounded(d, q, now, |q.entries|);
    assert Attests(Report(q, AuditAll(d, q, now, |q.entries|).value), q, now);
  }
}
