/** Source governance resolution: one authorized request edits both registries through a
    journal, so that a crash between the two file replacements can be repaired exactly. */
module GovernanceJournal {
  import opened Basics
  import opened Governance
  import opened GovernanceOps

  // ----- the planned edit -----------------------------------------------------------------

  /** A resolved source identity; `name` is normalized like a label. */
  datatype Identity = Identity(organization: string, name: string, wellFormed: bool)

  datatype Mapping = Mapping(original: Occurrence, resolved: seq<Identity>)

  /** One selected resource, as the inventory reports it. */
  datatype Row = Row(version: string, resolved: bool, mappings: seq<Mapping>)

  /** Names further occurrences after the original id and the organization. */
  type Deriver = (string, string) -> string

  function Admitted(orgs: seq<Organization>, x: Identity): seq<Organization> {
    var at := FindOrganization(orgs, x.organization);
    if at.None? then orgs + [Organization(x.organization, [x.name], Approved, x.wellFormed)]
    else orgs[at.value := orgs[at.value].(status := Approved)]
  }

  function AdmittedAll(orgs: seq<Organization>, xs: seq<Identity>): seq<Organization> {
    if xs == [] then orgs else Admitted(AdmittedAll(orgs, xs[..|xs| - 1]), xs[|xs| - 1])
  }

  function Identities(rows: seq<Row>): seq<Identity> {
    if rows == [] then []
    else
      var row := rows[|rows| - 1];
      Identities(rows[..|rows| - 1]) + (if row.resolved then MappedIdentities(row.mappings) else [])
  }

  function MappedIdentities(ms: seq<Mapping>): seq<Identity> {
    if ms == [] then [] else MappedIdentities(ms[..|ms| - 1]) + ms[|ms| - 1].resolved
  }

  function Sources(m: Mapping, derive: Deriver, n: nat): seq<Occurrence>
    requires n <= |m.resolved|
  {
    if n == 0 then []
    else
      var oid := m.resolved[n - 1].organization;
      var id := if n == 1 then m.original.id else derive(m.original.id, oid);
      Sources(m, derive, n - 1) + [m.original.(id := id, organization := oid)]
  }

  function AllSources(ms: seq<Mapping>, derive: Deriver): seq<Occurrence> {
    if ms == [] then [] else AllSources(ms[..|ms| - 1], derive) + Sources(ms[|ms| - 1], derive, |ms[|ms| - 1].resolved|)
  }

  function Demoted(vs: seq<Version>, id: Option<string>): (ws: seq<Version>)
    ensures |ws| == |vs|
  {
    seq(|vs|, i requires 0 <= i < |vs| =>
      if Some(vs[i].id) == id && vs[i].status == Active then vs[i].(status := Superseded) else vs[i])
  }

  function RowApplied(vs: seq<Version>, row: Row, derive: Deriver): seq<Version> {
    var at := Find(vs, row.version);
    if !row.resolved || at.None? then vs
    else
      var v := vs[at.value].(occurrences := AllSources(row.mappings, derive), status := Active);
      Demoted(vs[at.value := v], v.supersedes)
  }

  function RowsApplied(vs: seq<Version>, rows: seq<Row>, derive: Deriver): seq<Version> {
    if rows == [] then vs else RowApplied(RowsApplied(vs, rows[..|rows| - 1], derive), rows[|rows| - 1], derive)
  }

  /** Each registry that changed gets the next revision and its own event. */
  function Stamped<T(==)>(r: Registry<T>, items: seq<T>, event: string): Registry<T> {
    if items == r.items then r else Commit(r, items, event)
  }

  datatype Request = Request(orgRevision: nat, registryRevision: nat, rows: seq<Row>, orgEvent: string, registryEvent: string)

  function Planned(s: State, q: Request, derive: Deriver): State {
    State(Stamped(s.orgs, AdmittedAll(s.orgs.items, Identities(q.rows)), q.orgEvent),
          Stamped(s.reg, RowsApplied(s.reg.items, q.rows, derive), q.registryEvent))
  }

  /** The plan is journaled only when both the state it starts from and its result are valid. */
  ghost predicate Plannable(s: State, q: Request, derive: Deriver) {
    && s.orgs.revision == q.orgRevision && s.reg.revision == q.registryRevision
    && IsValid(s) && IsValid(Planned(s, q, derive))
  }

  method PlanOrganizations(orgs: seq<Organization>, rows: seq<Row>) returns (items: seq<Organization>)
    ensures items == AdmittedAll(orgs, Identities(rows))
  {
    items := orgs;
    for n := 0 to |rows|
      invariant items == AdmittedAll(orgs, Identities(rows[..n]))
    {
      assert rows[..n + 1][..n] == rows[..n];
      var xs := if rows[n].resolved then MappedIdentities(rows[n].mappings) else [];
      items := AdmitEach(orgs, Identities(rows[..n]), items, xs);
    }
    assert rows[..|rows|] == rows;
  }

  method AdmitEach(ghost orgs: seq<Organization>, ghost before: seq<Identity>, items: seq<Organization>, xs: seq<Identity>)
    returns (more: seq<Organization>)
    requires items == AdmittedAll(orgs, before)
    ensures more == AdmittedAll(orgs, before + xs)
  {
    more := items;
    assert before + xs[..0] == before;
    for k := 0 to |xs|
      invariant more == AdmittedAll(orgs, before + xs[..k])
    {
      assert (before + xs[..k + 1])[..|before| + k] == before + xs[..k];
      more := Admitted(more, xs[k]);
    }
    assert xs[..|xs|] == xs;
  }

  method PlanVersions(vs: seq<Version>, rows: seq<Row>, derive: Deriver) returns (items: seq<Version>)
    ensures items == RowsApplied(vs, rows, derive)
  {
    items := vs;
    for n := 0 to |rows|
      invariant items == RowsApplied(vs, rows[..n], derive)
    {
      assert rows[..n + 1][..n] == rows[..n];
      items := RowApplied(items, rows[n], derive);
    }
    assert rows[..|rows|] == rows;
  }

  // ----- organizations only gain ---------------------------------------------------------------

  /** Known stays known, and approved stays approved. */
  ghost predicate Gains(a: seq<Organization>, b: seq<Organization>) {
    forall id :: (Known(a, id) ==> Known(b, id)) && (IsApproved(a, id) ==> IsApproved(b, id))
  }

  lemma {:induction false} AdmittedGains(orgs: seq<Organization>, x: Identity)
    ensures Gains(orgs, Admitted(orgs, x))
  {
    var more := Admitted(orgs, x);
    forall id ensures (Known(orgs, id) ==> Known(more, id)) && (IsApproved(orgs, id) ==> IsApproved(more, id)) {
      if i :| 0 <= i < |orgs| && orgs[i].id == id { assert more[i].id == id; }
      if i :| 0 <= i < |orgs| && orgs[i].id == id && orgs[i].status == Approved {
        assert more[i].id == id && more[i].status == Approved;
      }
    }
  }

  lemma {:induction false} AdmittedAllGains(orgs: seq<Organization>, xs: seq<Identity>)
    ensures Gains(orgs, AdmittedAll(orgs, xs))
  {
    if xs != [] {
      AdmittedAllGains(orgs, xs[..|xs| - 1]);
      AdmittedGains(AdmittedAll(orgs, xs[..|xs| - 1]), xs[|xs| - 1]);
    }
  }

  /** New organizations never invalidate the old versions: the state between the two writes. */
  lemma {:induction false} HalfwayValid(s: State, q: Request, derive: Deriver)
    requires Plannable(s, q, derive)
    ensures Valid(Planned(s, q, derive).orgs, s.reg)
  {
    var after := Planned(s, q, derive).orgs;
    AdmittedAllGains(s.orgs.items, Identities(q.rows));
    forall i | 0 <= i < |s.reg.items| ensures VersionOk(after.items, s.reg.items[i]) {
      assert VersionOk(s.orgs.items, s.reg.items[i]);
    }
  }

  // ----- the journal -----------------------------------------------------------------------------

  datatype Transaction = Transaction(request: Request, before: State, after: State)

  /** The files the operation touches; `receipts` counts how often a receipt was written. */
  datatype Disk = Disk(files: State, txn: Option<Transaction>, receipt: bool, receipts: nat)

  datatype Outcome = Applied | Replayed | Conflict | Rejected | Crashed

  /** One call of `resolve` that may perform at most `budget` file writes before it crashes;
      `intact` says whether the evidence still authenticates. */
  ghost function Resolve(d: Disk, q: Request, derive: Deriver, intact: bool, budget: nat): (Disk, Outcome) {
    if d.txn.Some? then
      if d.txn.value.request != q then (d, Conflict)
      else if d.receipt then (d, Replayed)
      else Finish(d, d.txn.value, intact, budget)
    else if !Plannable(d.files, q, derive) then (d, Rejected)
    else if budget == 0 then (d, Crashed)
    else
      var txn := Transaction(q, d.files, Planned(d.files, q, derive));
      Finish(d.(txn := Some(txn)), txn, intact, budget - 1)
  }

  function Finish(d: Disk, t: Transaction, intact: bool, budget: nat): (Disk, Outcome) {
    if (d.files.orgs != t.before.orgs && d.files.orgs != t.after.orgs)
       || (d.files.reg != t.before.reg && d.files.reg != t.after.reg) || !intact then (d, Rejected)
    else
      var needOrgs := d.files.orgs != t.after.orgs;
      if needOrgs && budget == 0 then (d, Crashed)
      else
        var d1 := d.(files := d.files.(orgs := t.after.orgs));
        var left := if needOrgs then budget - 1 else budget;
        var needReg := d.files.reg != t.after.reg;
        if needReg && left == 0 then (d1, Crashed)
        else
          var d2 := d1.(files := t.after);
          var last := if needReg then left - 1 else left;
          if last == 0 then (d2, Crashed) else (d2.(receipt := true, receipts := d2.receipts + 1), Applied)
  }

  /** The files on disk, written one atomic replacement at a time. */
  class Journal {
    var disk: Disk

    constructor (files: State)
      ensures disk == Disk(files, None, false, 0)
    {
      disk := Disk(files, None, false, 0);
    }

    method Run(q: Request, derive: Deriver, intact: bool, budget: nat) returns (outcome: Outcome)
      modifies this
      ensures (disk, outcome) == Resolve(old(disk), q, derive, intact, budget)
    {
      var left := budget;
      if disk.txn.Some? {
        if disk.txn.value.request != q { return Conflict; }
        if disk.receipt { return Replayed; }
      } else {
        var plan := Prepare(disk.files, q, derive);
        if plan.None? { return Rejected; }
        if left == 0 { return Crashed; }
        disk := disk.(txn := Some(Transaction(q, disk.files, plan.value)));
        left := left - 1;
      }
      outcome := Settle(intact, left);
    }

    method Settle(intact: bool, budget: nat) returns (outcome: Outcome)
      requires disk.txn.Some?
      modifies this
      ensures (disk, outcome) == Finish(old(disk), old(disk).txn.value, intact, budget)
    {
      var t, left := disk.txn.value, budget;
      if disk.files.orgs != t.before.orgs && disk.files.orgs != t.after.orgs { return Rejected; }
      if disk.files.reg != t.before.reg && disk.files.reg != t.after.reg { return Rejected; }
      if !intact { return Rejected; }
      if disk.files.orgs != t.after.orgs {
        if left == 0 { return Crashed; }
        disk := disk.(files := disk.files.(orgs := t.after.orgs));
        left := left - 1;
      }
      if disk.files.reg != t.after.reg {
        if left == 0 { return Crashed; }
        disk := disk.(files := disk.files.(reg := t.after.reg));
        left := left - 1;
      }
      if left == 0 { return Crashed; }
      disk := disk.(receipt := true, receipts := disk.receipts + 1);
      return Applied;
    }
  }

  method Prepare(s: State, q: Request, derive: Deriver) returns (plan: Option<State>)
    ensures plan == if Plannable(s, q, derive) then Some(Planned(s, q, derive)) else None
  {
    if s.orgs.revision != q.orgRevision || s.reg.revision != q.registryRevision { return None; }
    var issues := Validate(s.orgs, s.reg);
    if issues != [] { return None; }
    var orgs := PlanOrganizations(s.orgs.items, q.rows);
    var versions := PlanVersions(s.reg.items, q.rows, derive);
    var next := State(Stamped(s.orgs, orgs, q.orgEvent), Stamped(s.reg, versions, q.registryEvent));
    issues := Validate(next.orgs, next.reg);
    if issues != [] { return None; }
    return Some(next);
  }

  // ----- crashes and reruns -----------------------------------------------------------------------

  /** The only three pairs the two files can form. */
  ghost predicate OnTrack(d: Disk, s: State, q: Request, derive: Deriver) {
    && Plannable(s, q, derive)
    && match d.txn
       case None => d.files == s && !d.receipt && d.receipts == 0
       case Some(t) =>
         && t == Transaction(q, s, Planned(s, q, derive))
         && (d.files == s || d.files == State(t.after.orgs, s.reg) || d.files == t.after)
         && (d.receipt ==> d.files == t.after) && d.receipts == (if d.receipt then 1 else 0)
  }

  /** Wherever calls of the same request crash, the files stay on track. */
  lemma {:induction false} ResolveStaysOnTrack(d: Disk, s: State, q: Request, derive: Deriver, intact: bool, budget: nat)
    requires OnTrack(d, s, q, derive)
    ensures OnTrack(Resolve(d, q, derive, intact, budget).0, s, q, derive)
  {
  }

  /** Every state a crash can leave behind is accepted by the validator. */
  lemma {:induction false} OnTrackValid(d: Disk, s: State, q: Request, derive: Deriver)
    requires OnTrack(d, s, q, derive)
    ensures IsValid(d.files)
  {
    HalfwayValid(s, q, derive);
  }

  /** A sequence of calls of one request, each with its own crash point. */
  ghost function Calls(d: Disk, q: Request, derive: Deriver, budgets: seq<nat>): Disk {
    if budgets == [] then d
    else Resolve(Calls(d, q, derive, budgets[..|budgets| - 1]), q, derive, true, budgets[|budgets| - 1]).0
  }

  /** However many calls crashed, one call that is not interrupted ends at the planned state with
      exactly one receipt, and any call after that replays it without writing. */
  lemma {:induction false} RerunConverges(s: State, q: Request, derive: Deriver, budgets: seq<nat>, budget: nat)
    requires Plannable(s, q, derive) && budget >= 4
    ensures var crashed := Calls(Disk(s, None, false, 0), q, derive, budgets);
            var done := Resolve(crashed, q, derive, true, budget).0;
            && OnTrack(crashed, s, q, derive) && IsValid(crashed.files)
            && done.files == Planned(s, q, derive) && done.receipt && done.receipts == 1
            && forall intact, more :: Resolve(done, q, derive, intact, more) == (done, Replayed)
  {
    CallsOnTrack(s, q, derive, budgets);
    var crashed := Calls(Disk(s, None, false, 0), q, derive, budgets);
    OnTrackValid(crashed, s, q, derive);
    ResolveStaysOnTrack(crashed, s, q, derive, true, budget);
  }

  lemma {:induction false} CallsOnTrack(s: State, q: Request, derive: Deriver, budgets: seq<nat>)
    requires Plannable(s, q, derive)
    ensures OnTrack(Calls(Disk(s, None, false, 0), q, derive, budgets), s, q, derive)
  {
    if budgets != [] {
      var front := budgets[..|budgets| - 1];
      CallsOnTrack(s, q, derive, front);
      ResolveStaysOnTrack(Calls(Disk(s, None, false, 0), q, derive, front), s, q, derive, true, budgets[|budgets| - 1]);
    }
  }

  // ----- foreign commits ---------------------------------------------------------------------------

  ghost predicate HasEvent<T>(r: Registry<T>, event: string) {
    exists i :: 0 <= i < |r.events| && r.events[i].id == event
  }

  /** Another writer's commit: it appends an event with an id of its own. */
  ghost predicate Foreign<T>(a: Registry<T>, b: Registry<T>, planned: Registry<T>) {
    exists e: Event :: b.events == a.events + [e] && !HasEvent(planned, e.id)
  }

  /** One of the two files carries an event that the plan does not. */
  ghost predicate Spoiled(d: Disk) {
    d.txn.Some? && !d.receipt
    && ((exists e :: HasEvent(d.files.orgs, e) && !HasEvent(d.txn.value.after.orgs, e))
        || (exists e :: HasEvent(d.files.reg, e) && !HasEvent(d.txn.value.after.reg, e)))
  }

  /** The journal was planned from what it recorded, so its own events include the earlier ones. */
  ghost predicate Journaled(d: Disk, derive: Deriver) {
    d.txn.Some? ==> d.txn.value.after == Planned(d.txn.value.before, d.txn.value.request, derive)
  }

  lemma {:induction false} StampedKeepsEvents<T>(r: Registry<T>, items: seq<T>, event: string, e: string)
    requires HasEvent(r, e)
    ensures HasEvent(Stamped(r, items, event), e)
  {
    var i :| 0 <= i < |r.events| && r.events[i].id == e;
    assert Stamped(r, items, event).events[i] == r.events[i];
  }

  lemma {:induction false} ForeignCommitSpoils(d: Disk, files: State, derive: Deriver)
    requires d.txn.Some? && !d.receipt
    requires (Foreign(d.files.orgs, files.orgs, d.txn.value.after.orgs) && files.reg == d.files.reg)
             || (Foreign(d.files.reg, files.reg, d.txn.value.after.reg) && files.orgs == d.files.orgs)
    ensures Spoiled(d.(files := files))
  {
    if Foreign(d.files.orgs, files.orgs, d.txn.value.after.orgs) && files.reg == d.files.reg {
      var e: Event :| files.orgs.events == d.files.orgs.events + [e] && !HasEvent(d.txn.value.after.orgs, e.id);
      assert files.orgs.events[|d.files.orgs.events|] == e;
      assert HasEvent(files.orgs, e.id);
    } else {
      var e: Event :| files.reg.events == d.files.reg.events + [e] && !HasEvent(d.txn.value.after.reg, e.id);
      assert files.reg.events[|d.files.reg.events|] == e;
      assert HasEvent(files.reg, e.id);
    }
  }

  /** Once spoiled, always spoiled: later commits only append. */
  lemma {:induction false} StaysSpoiled(d: Disk, files: State)
    requires Spoiled(d)
    requires d.files.orgs.events <= files.orgs.events && d.files.reg.events <= files.reg.events
    ensures Spoiled(d.(files := files))
  {
    if e :| HasEvent(d.files.orgs, e) && !HasEvent(d.txn.value.after.orgs, e) {
      var i :| 0 <= i < |d.files.orgs.events| && d.files.orgs.events[i].id == e;
      assert files.orgs.events[i].id == e;
      assert HasEvent(files.orgs, e);
    } else {
      var e :| HasEvent(d.files.reg, e) && !HasEvent(d.txn.value.after.reg, e);
      var i :| 0 <= i < |d.files.reg.events| && d.files.reg.events[i].id == e;
      assert files.reg.events[i].id == e;
      assert HasEvent(files.reg, e);
    }
  }

  /** After a foreign commit no rerun overwrites anything: it is rejected before any write. */
  lemma {:induction false} SpoiledNeverOverwritten(d: Disk, derive: Deriver, intact: bool, budget: nat)
    requires Spoiled(d) && Journaled(d, derive)
    ensures Resolve(d, d.txn.value.request, derive, intact, budget) == (d, Rejected)
  {
    var t := d.txn.value;
    if e :| HasEvent(d.files.orgs, e) && !HasEvent(t.after.orgs, e) {
      if d.files.orgs == t.before.orgs {
        StampedKeepsEvents(t.before.orgs, AdmittedAll(t.before.orgs.items, Identities(t.request.rows)), t.request.orgEvent, e);
      }
    } else {
      var e :| HasEvent(d.files.reg, e) && !HasEvent(t.after.reg, e);
      if d.files.reg == t.before.reg {
        StampedKeepsEvents(t.before.reg, RowsApplied(t.before.reg.items, t.request.rows, derive), t.request.registryEvent, e);
      }
    }
  }

  /** What may happen to the disk after that: reruns of the request, each cut off anywhere, and
      more commits of other writers. */
  datatype Happening = Rerun(intact: bool, budget: nat) | OtherWrite(files: State)

  ghost function Happens(d: Disk, derive: Deriver, h: Happening): Disk
    requires d.txn.Some?
  {
    match h
    case Rerun(intact, budget) => Resolve(d, d.txn.value.request, derive, intact, budget).0
    case OtherWrite(files) => d.(files := files)
  }

  ghost predicate Appending(d: Disk, h: Happening) {
    h.OtherWrite? ==> d.files.orgs.events <= h.files.orgs.events && d.files.reg.events <= h.files.reg.events
  }

  ghost predicate History(ds: seq<Disk>, derive: Deriver, hs: seq<Happening>) {
    && |ds| == |hs| + 1
    && forall i {:trigger hs[i]} :: 0 <= i < |hs| ==>
         ds[i].txn.Some? && Appending(ds[i], hs[i]) && ds[i + 1] == Happens(ds[i], derive, hs[i])
  }

  lemma {:induction false} HappeningStaysSpoiled(d: Disk, derive: Deriver, h: Happening)
    requires Spoiled(d) && Journaled(d, derive) && Appending(d, h)
    ensures var after := Happens(d, derive, h);
            && Spoiled(after) && Journaled(after, derive) && after.txn == d.txn && after.receipts == d.receipts
            && (h.Rerun? ==> after == d)
  {
    match h
    case Rerun(intact, budget) => SpoiledNeverOverwritten(d, derive, intact, budget);
    case OtherWrite(files) => StaysSpoiled(d, files);
  }

  /** Over the whole history that follows a foreign commit, no rerun ever changes a file or issues
      a receipt. */
  lemma {:induction false} SpoiledForever(ds: seq<Disk>, derive: Deriver, hs: seq<Happening>, n: nat)
    requires History(ds, derive, hs) && n < |ds| && Spoiled(ds[0]) && Journaled(ds[0], derive)
    ensures Spoiled(ds[n]) && Journaled(ds[n], derive) && ds[n].txn == ds[0].txn && ds[n].receipts == ds[0].receipts
    ensures forall i {:trigger hs[i]} :: 0 <= i < n && hs[i].Rerun? ==> ds[i + 1] == ds[i]
  {
    if n > 0 {
      SpoiledForever(ds, derive, hs, n - 1);
      var h := hs[n - 1];
      HappeningStaysSpoiled(ds[n - 1], derive, h);
    }
  }
}
