/** What a finished source resolution has done to the two registries, told from the request and
    the state it started from. */
module GovernancePlan {
  import opened Basics
  import opened Supersedes
  import opened Governance
  import opened GovernanceOps
  import opened GovernanceRuns
  import opened GovernanceJournal

  // ----- the occurrences of a resolved version --------------------------------------------------------

  /** How many identities the first `m` mappings resolve. */
  function Before(ms: seq<Mapping>, m: nat): nat
    requires m <= |ms|
  {
    if m == 0 then 0 else Before(ms, m - 1) + |ms[m - 1].resolved|
  }

  /** One occurrence per mapping and resolved identity, in order: the first keeps the original's
      id, the others get derived ones, and each names its own organization. */
  ghost predicate SourcedFrom(occurrences: seq<Occurrence>, ms: seq<Mapping>, derive: Deriver) {
    && |occurrences| == Before(ms, |ms|)
    && forall m: nat, r: nat :: m < |ms| && r < |ms[m].resolved| ==> SourceIn(occurrences, ms, derive, m, r)
  }

  /** The occurrence for identity `r` of mapping `m`, in its place. */
  predicate SourceIn(occurrences: seq<Occurrence>, ms: seq<Mapping>, derive: Deriver, m: nat, r: nat)
    requires m < |ms| && r < |ms[m].resolved|
  {
    && Before(ms, m) + r < |occurrences|
    && IsSource(occurrences[Before(ms, m) + r], ms[m].original, ms[m].resolved[r].organization, r == 0, derive)
  }

  predicate IsSource(o: Occurrence, original: Occurrence, organization: string, first: bool, derive: Deriver) {
    o.organization == organization && o.wellFormed == original.wellFormed
    && o.id == if first then original.id else derive(original.id, organization)
  }

  lemma {:induction false} SourcesExactly(m: Mapping, derive: Deriver, n: nat)
    requires n <= |m.resolved|
    ensures |Sources(m, derive, n)| == n
    ensures forall r :: 0 <= r < n ==> IsSource(Sources(m, derive, n)[r], m.original, m.resolved[r].organization, r == 0, derive)
  {
    if n > 0 { SourcesExactly(m, derive, n - 1); }
  }

  lemma {:induction false} BeforeFront(ms: seq<Mapping>, m: nat)
    requires ms != [] && m < |ms|
    ensures Before(ms[..|ms| - 1], m) == Before(ms, m)
  {
    if m > 0 { BeforeFront(ms, m - 1); }
  }

  lemma {:induction false} AllSourcesLength(ms: seq<Mapping>, derive: Deriver)
    ensures |AllSources(ms, derive)| == Before(ms, |ms|)
  {
    if ms != [] {
      AllSourcesLength(ms[..|ms| - 1], derive);
      BeforeFront(ms, |ms| - 1);
      SourcesExactly(ms[|ms| - 1], derive, |ms[|ms| - 1].resolved|);
    }
  }

  lemma {:induction false} SourceAt(ms: seq<Mapping>, derive: Deriver, m: nat, r: nat)
    requires m < |ms| && r < |ms[m].resolved|
    ensures SourceIn(AllSources(ms, derive), ms, derive, m, r)
  {
    var front := ms[..|ms| - 1];
    BeforeFront(ms, m);
    AllSourcesLength(front, derive);
    SourcesExactly(ms[|ms| - 1], derive, |ms[|ms| - 1].resolved|);
    if m < |ms| - 1 {
      SourceAt(front, derive, m, r);
      assert front[m] == ms[m];
    }
  }

  lemma {:induction false} AllSourcesExactly(ms: seq<Mapping>, derive: Deriver)
    ensures SourcedFrom(AllSources(ms, derive), ms, derive)
  {
    AllSourcesLength(ms, derive);
    forall m: nat, r: nat | m < |ms| && r < |ms[m].resolved| ensures SourceIn(AllSources(ms, derive), ms, derive, m, r) {
      SourceAt(ms, derive, m, r);
    }
  }

  // ----- the versions -------------------------------------------------------------------------------------

  predicate Names(rows: seq<Row>, i: nat, id: string)
    requires i < |rows|
  {
    rows[i].resolved && rows[i].version == id
  }

  /** Row `i` is the last of the first `n` rows that resolves the version. */
  ghost predicate LastNames(rows: seq<Row>, n: nat, i: nat, id: string)
    requires n <= |rows|
  {
    i < n && Names(rows, i, id) && forall j :: i < j < n ==> !Names(rows, j, id)
  }

  ghost predicate Untouched(rows: seq<Row>, n: nat, id: string)
    requires n <= |rows|
  {
    forall i :: 0 <= i < n ==> !Names(rows, i, id)
  }

  /** Row `j` resolves a version that supersedes this one. */
  ghost predicate Replaces(vs: seq<Version>, rows: seq<Row>, j: nat, id: string)
    requires j < |rows|
  {
    exists k :: 0 <= k < |vs| && Names(rows, j, vs[k].id) && vs[k].supersedes == Some(id)
  }

  /** Everything but occurrences and status. */
  predicate SameRecord(v: Version, w: Version) {
    w == v.(occurrences := w.occurrences, status := w.status)
  }

  /** One of the rows from `i` up to `n` does. */
  ghost predicate ReplacedIn(vs: seq<Version>, rows: seq<Row>, i: nat, n: nat, id: string)
    requires n <= |rows|
  {
    exists j: nat :: i <= j < n && Replaces(vs, rows, j, id)
  }

  /** What the first `n` rows make of a version. */
  ghost predicate Resolved(vs: seq<Version>, rows: seq<Row>, n: nat, derive: Deriver, v: Version, w: Version)
    requires n <= |rows|
  {
    && SameRecord(v, w)
    && (forall i: nat :: LastNames(rows, n, i, v.id) ==>
          && SourcedFrom(w.occurrences, rows[i].mappings, derive)
          && w.status == if ReplacedIn(vs, rows, i + 1, n, v.id) then Superseded else Active)
    && (Untouched(rows, n, v.id) ==>
          && w.occurrences == v.occurrences
          && w.status == if v.status == Active && ReplacedIn(vs, rows, 0, n, v.id) then Superseded else v.status)
  }

  ghost predicate AllResolved(vs: seq<Version>, rows: seq<Row>, n: nat, derive: Deriver, ws: seq<Version>)
    requires n <= |rows|
  {
    |ws| == |vs| && forall k :: 0 <= k < |vs| ==> Resolved(vs, rows, n, derive, vs[k], ws[k])
  }

  ghost predicate Plain(vs: seq<Version>) {
    DistinctVersions(vs) && forall k :: 0 <= k < |vs| ==> vs[k].supersedes != Some(vs[k].id)
  }

  lemma {:induction false} FindAt(vs: seq<Version>, k: nat)
    requires DistinctVersions(vs) && k < |vs|
    ensures Find(vs, vs[k].id) == Some(k)
  {
    var at := Find(vs, vs[k].id).value;
    assert vs[at].id == vs[k].id;
  }

  lemma {:induction false} SameFind(vs: seq<Version>, ws: seq<Version>, id: string)
    requires |vs| == |ws| && forall k :: 0 <= k < |vs| ==> vs[k].id == ws[k].id
    ensures Find(ws, id) == Find(vs, id)
  {
    if vs != [] && vs[0].id != id { SameFind(vs[1..], ws[1..], id); }
  }

  lemma {:induction false} LastNamesKept(rows: seq<Row>, n: nat, id: string)
    requires n < |rows| && !Names(rows, n, id)
    ensures forall i: nat :: LastNames(rows, n + 1, i, id) <==> LastNames(rows, n, i, id)
    ensures Untouched(rows, n + 1, id) <==> Untouched(rows, n, id)
  {
    forall i: nat ensures LastNames(rows, n + 1, i, id) <==> LastNames(rows, n, i, id) {}
  }

  lemma {:induction false} LastNamesNew(rows: seq<Row>, n: nat, m: nat, id: string)
    requires n < |rows| && m == n + 1 && Names(rows, n, id)
    ensures forall i: nat :: LastNames(rows, m, i, id) ==> i == n
    ensures LastNames(rows, m, n, id) && !Untouched(rows, m, id)
  {
  }

  lemma {:induction false} ReplacedMore(vs: seq<Version>, rows: seq<Row>, i: nat, n: nat, id: string)
    requires n < |rows|
    ensures ReplacedIn(vs, rows, i, n + 1, id) <==> ReplacedIn(vs, rows, i, n, id) || (i <= n && Replaces(vs, rows, n, id))
  {
  }

  lemma {:induction false} ReplacedNow(vs: seq<Version>, rows: seq<Row>, n: nat, m: nat, id: string)
    requires n < |rows| && m == n + 1 && Replaces(vs, rows, n, id)
    ensures forall i: nat :: i <= n ==> ReplacedIn(vs, rows, i, m, id)
  {
  }

  /** A row that is not resolved, or names no known version, replaces nothing. */
  lemma {:induction false} IdleRow(vs: seq<Version>, rows: seq<Row>, n: nat, derive: Deriver, v: Version, w: Version)
    requires n < |rows| && Resolved(vs, rows, n, derive, v, w)
    requires !Names(rows, n, v.id) && !Replaces(vs, rows, n, v.id)
    ensures Resolved(vs, rows, n + 1, derive, v, w)
  {
    LastNamesKept(rows, n, v.id);
    forall i: nat ensures ReplacedIn(vs, rows, i, n, v.id) <==> ReplacedIn(vs, rows, i, n + 1, v.id) { ReplacedMore(vs, rows, i, n, v.id); }
  }

  lemma {:induction false} NamingRow(vs: seq<Version>, rows: seq<Row>, n: nat, derive: Deriver, v: Version, w: Version)
    requires n < |rows| && Names(rows, n, v.id) && SameRecord(v, w)
    requires w.occurrences == AllSources(rows[n].mappings, derive) && w.status == Active
    ensures Resolved(vs, rows, n + 1, derive, v, w)
  {
    AllSourcesExactly(rows[n].mappings, derive);
    LastNamesNew(rows, n, n + 1, v.id);
    assert !ReplacedIn(vs, rows, n + 1, n + 1, v.id);
  }

  lemma {:induction false} ReplacingRow(vs: seq<Version>, rows: seq<Row>, n: nat, derive: Deriver, v: Version, w: Version, x: Version)
    requires n < |rows| && Resolved(vs, rows, n, derive, v, w) && !Names(rows, n, v.id) && Replaces(vs, rows, n, v.id)
    requires x == if w.status == Active then w.(status := Superseded) else w
    ensures Resolved(vs, rows, n + 1, derive, v, x)
  {
    LastNamesKept(rows, n, v.id);
    ReplacedNow(vs, rows, n, n + 1, v.id);
  }

  lemma {:induction false} RowResolves(vs: seq<Version>, rows: seq<Row>, n: nat, derive: Deriver, ws: seq<Version>)
    requires n < |rows| && Plain(vs) && AllResolved(vs, rows, n, derive, ws)
    ensures AllResolved(vs, rows, n + 1, derive, RowApplied(ws, rows[n], derive))
  {
    var row, xs := rows[n], RowApplied(ws, rows[n], derive);
    forall k | 0 <= k < |vs| ensures ws[k].id == vs[k].id && ws[k].supersedes == vs[k].supersedes {
      assert Resolved(vs, rows, n, derive, vs[k], ws[k]);
    }
    SameFind(vs, ws, row.version);
    forall k | 0 <= k < |vs| ensures Resolved(vs, rows, n + 1, derive, vs[k], xs[k]) {
      assert Resolved(vs, rows, n, derive, vs[k], ws[k]);
      RowResolvesOne(vs, rows, n, derive, ws, k);
    }
  }

  lemma {:induction false} RowResolvesOne(vs: seq<Version>, rows: seq<Row>, n: nat, derive: Deriver, ws: seq<Version>, k: nat)
    requires n < |rows| && Plain(vs) && |ws| == |vs| && k < |vs| && Resolved(vs, rows, n, derive, vs[k], ws[k])
    requires forall j :: 0 <= j < |vs| ==> ws[j].id == vs[j].id && ws[j].supersedes == vs[j].supersedes
    requires Find(ws, rows[n].version) == Find(vs, rows[n].version)
    ensures |RowApplied(ws, rows[n], derive)| == |vs|
    ensures Resolved(vs, rows, n + 1, derive, vs[k], RowApplied(ws, rows[n], derive)[k])
  {
    var row, at := rows[n], Find(vs, rows[n].version);
    WhoIsReplaced(vs, rows, n, vs[k].id);
    if !row.resolved || at.None? {
      IdleRow(vs, rows, n, derive, vs[k], ws[k]);
    } else {
      var x := RowApplied(ws, row, derive)[k];
      if k == at.value {
        assert vs[k].supersedes != Some(vs[k].id);
        NamingRow(vs, rows, n, derive, vs[k], x);
      } else if vs[at.value].supersedes == Some(vs[k].id) {
        FindAt(vs, k);
        ReplacingRow(vs, rows, n, derive, vs[k], ws[k], x);
      } else {
        FindAt(vs, k);
        IdleRow(vs, rows, n, derive, vs[k], x);
      }
    }
  }

  lemma {:induction false} WhoIsReplaced(vs: seq<Version>, rows: seq<Row>, n: nat, id: string)
    requires n < |rows| && DistinctVersions(vs)
    ensures var at := Find(vs, rows[n].version);
            Replaces(vs, rows, n, id) <==> rows[n].resolved && at.Some? && vs[at.value].supersedes == Some(id)
  {
    var at := Find(vs, rows[n].version);
    forall k | 0 <= k < |vs| && Names(rows, n, vs[k].id) ensures at == Some(k) { FindAt(vs, k); }
  }

  lemma {:induction false} RowsResolve(vs: seq<Version>, rows: seq<Row>, n: nat, derive: Deriver)
    requires n <= |rows| && Plain(vs)
    ensures AllResolved(vs, rows, n, derive, RowsApplied(vs, rows[..n], derive))
  {
    if n > 0 {
      RowsResolve(vs, rows, n - 1, derive);
      assert rows[..n][..n - 1] == rows[..n - 1];
      RowResolves(vs, rows, n - 1, derive, RowsApplied(vs, rows[..n - 1], derive));
    }
  }

  // ----- the organizations ---------------------------------------------------------------------------------

  /** The identities of the resolved rows, in the order of rows, mappings and identities. */
  lemma {:induction false} IdentitiesInOrder(rows: seq<Row>, more: seq<Row>, ms: seq<Mapping>, m: Mapping)
    ensures Identities(rows + more) == Identities(rows) + Identities(more)
    ensures Identities([Row("", true, ms)]) == MappedIdentities(ms) && Identities([Row("", false, ms)]) == []
    ensures MappedIdentities(ms + [m]) == MappedIdentities(ms) + m.resolved
  {
    IdentitiesAppend(rows, more);
    assert [Row("", true, ms)][..0] == [] && [Row("", false, ms)][..0] == [];
    assert (ms + [m])[..|ms|] == ms;
  }

  lemma {:induction false} IdentitiesSnoc(rows: seq<Row>, row: Row)
    ensures Identities(rows + [row]) == Identities(rows) + (if row.resolved then MappedIdentities(row.mappings) else [])
  {
    assert (rows + [row])[..|rows|] == rows;
  }

  lemma {:induction false} IdentitiesOneMore(rows: seq<Row>, front: seq<Row>, last: Row, more: seq<Row>)
    requires more == front + [last] && Identities(rows + front) == Identities(rows) + Identities(front)
    ensures Identities(rows + more) == Identities(rows) + Identities(more)
  {
    var extra := if last.resolved then MappedIdentities(last.mappings) else [];
    Regrouped(rows, front, [last]);
    IdentitiesSnoc(rows + front, last);
    IdentitiesSnoc(front, last);
    Regrouped(Identities(rows), Identities(front), extra);
  }

  lemma {:induction false} IdentitiesAppend(rows: seq<Row>, more: seq<Row>)
    ensures Identities(rows + more) == Identities(rows) + Identities(more)
  {
    if more == [] {
      assert rows + more == rows;
    } else {
      IdentitiesAppend(rows, more[..|more| - 1]);
      IdentitiesOneMore(rows, more[..|more| - 1], more[|more| - 1], more);
    }
  }

  ghost predicate Identified(xs: seq<Identity>, id: string) { exists k :: 0 <= k < |xs| && xs[k].organization == id }

  /** Identity `k` is the first of its organization. */
  predicate FirstOf(xs: seq<Identity>, k: nat, id: string) {
    k < |xs| && xs[k].organization == id && forall j :: 0 <= j < k ==> xs[j].organization != id
  }

  ghost predicate DistinctOrganizations(orgs: seq<Organization>) {
    forall i, j :: 0 <= i < j < |orgs| ==> orgs[i].id != orgs[j].id
  }

  /** Identified organizations are approved, and new ones are added under the first name given;
      everything else about organizations stays. */
  ghost predicate AdmittedFrom(orgs: seq<Organization>, xs: seq<Identity>, more: seq<Organization>) {
    && |orgs| <= |more| && DistinctOrganizations(more)
    && (forall i :: 0 <= i < |orgs| ==> more[i] == if Identified(xs, orgs[i].id) then orgs[i].(status := Approved) else orgs[i])
    && (forall i :: |orgs| <= i < |more| ==> Added(orgs, xs, more[i]))
    && (forall k :: 0 <= k < |xs| ==> Known(more, xs[k].organization))
  }

  ghost predicate Added(orgs: seq<Organization>, xs: seq<Identity>, org: Organization) {
    !Known(orgs, org.id)
    && exists k: nat :: FirstOf(xs, k, org.id) && org == Organization(org.id, [xs[k].name], Approved, xs[k].wellFormed)
  }

  lemma {:induction false} AdmittedExactly(orgs: seq<Organization>, xs: seq<Identity>)
    requires DistinctOrganizations(orgs)
    ensures AdmittedFrom(orgs, xs, AdmittedAll(orgs, xs))
  {
    if xs != [] {
      var front, last := xs[..|xs| - 1], xs[|xs| - 1];
      AdmittedExactly(orgs, front);
      assert xs == front + [last];
      OneAdmitted(orgs, front, AdmittedAll(orgs, front), last);
    }
  }

  lemma {:induction false} OrganizationAt(orgs: seq<Organization>, i: nat)
    requires DistinctOrganizations(orgs) && i < |orgs|
    ensures FindOrganization(orgs, orgs[i].id) == Some(i)
  {
    var at := FindOrganization(orgs, orgs[i].id).value;
    assert orgs[at].id == orgs[i].id;
  }

  lemma {:induction false} IdentifiedMore(xs: seq<Identity>, x: Identity, id: string)
    ensures Identified(xs + [x], id) <==> Identified(xs, id) || x.organization == id
  {
    var ys := xs + [x];
    if Identified(xs, id) {
      var k :| 0 <= k < |xs| && xs[k].organization == id;
      assert ys[k].organization == id;
    }
    assert ys[|xs|] == x;
  }

  lemma {:induction false} AddedMore(orgs: seq<Organization>, xs: seq<Identity>, x: Identity, org: Organization)
    requires Added(orgs, xs, org)
    ensures Added(orgs, xs + [x], org)
  {
    var k: nat :| FirstOf(xs, k, org.id) && org == Organization(org.id, [xs[k].name], Approved, xs[k].wellFormed);
    assert FirstOf(xs + [x], k, org.id);
  }

  lemma {:induction false} OneAdmitted(orgs: seq<Organization>, xs: seq<Identity>, more: seq<Organization>, x: Identity)
    requires AdmittedFrom(orgs, xs, more)
    ensures AdmittedFrom(orgs, xs + [x], Admitted(more, x))
  {
    var ys, next := xs + [x], Admitted(more, x);
    var at := FindOrganization(more, x.organization);
    forall i | 0 <= i < |more| && at == Some(i) ensures more[i].id == x.organization {}
    forall i | 0 <= i < |orgs| ensures next[i] == if Identified(ys, orgs[i].id) then orgs[i].(status := Approved) else orgs[i] {
      IdentifiedMore(xs, x, orgs[i].id);
      OrganizationAt(more, i);
    }
    if at.None? { NewlyAdded(orgs, xs, more, x); }
    forall i | |orgs| <= i < |next| ensures Added(orgs, ys, next[i]) {
      if i < |more| { AddedMore(orgs, xs, x, more[i]); }
    }
    forall k | 0 <= k < |ys| ensures Known(next, ys[k].organization) { StillKnown(xs, more, x, k); }
  }

  lemma {:induction false} NewlyAdded(orgs: seq<Organization>, xs: seq<Identity>, more: seq<Organization>, x: Identity)
    requires AdmittedFrom(orgs, xs, more) && FindOrganization(more, x.organization).None?
    ensures Added(orgs, xs + [x], Organization(x.organization, [x.name], Approved, x.wellFormed))
  {
    forall k | 0 <= k < |xs| ensures xs[k].organization != x.organization { assert Known(more, xs[k].organization); }
    assert FirstOf(xs + [x], |xs|, x.organization);
    forall i | 0 <= i < |orgs| ensures orgs[i].id != x.organization { assert more[i].id == orgs[i].id; }
  }

  lemma {:induction false} StillKnown(xs: seq<Identity>, more: seq<Organization>, x: Identity, k: nat)
    requires k <= |xs| && forall j :: 0 <= j < |xs| ==> Known(more, xs[j].organization)
    ensures Known(Admitted(more, x), (xs + [x])[k].organization)
  {
    var next, id := Admitted(more, x), (xs + [x])[k].organization;
    if k < |xs| {
      var i :| 0 <= i < |more| && more[i].id == id;
      assert next[i].id == id;
    } else {
      var at := FindOrganization(more, x.organization);
      assert next[if at.Some? then at.value else |more|].id == id;
    }
  }

  // ----- the finished disk ----------------------------------------------------------------------------------

  /** A registry that a plan changed has the next revision and one event more. */
  ghost predicate OneMore<T>(r: Registry<T>, s: Registry<T>, event: string) {
    if s.items == r.items then s == r
    else s.revision == r.revision + 1 && |s.events| == |r.events| + 1 && s.events[..|r.events|] == r.events
         && s.events[|r.events|].id == event && s.events[|r.events|].revision == r.revision + 1
  }

  /** However its calls crashed, a finished resolution has done this and nothing else: every version
      a row resolves has, in order, one occurrence per mapping and resolved identity and is active,
      unless a later row resolves a version that supersedes it; the active versions that resolved
      ones supersede are superseded; every other version is as it was; the organizations of the
      resolved rows are approved, new ones added, and the others are as they were. */
  lemma {:induction false} ResolutionEffect(s: State, q: Request, derive: Deriver, budgets: seq<nat>, budget: nat)
    requires Plannable(s, q, derive) && budget >= 4
    ensures var done := Resolve(Calls(Disk(s, None, false, 0), q, derive, budgets), q, derive, true, budget).0.files;
            && AllResolved(s.reg.items, q.rows, |q.rows|, derive, done.reg.items)
            && AdmittedFrom(s.orgs.items, Identities(q.rows), done.orgs.items)
            && OneMore(s.reg, done.reg, q.registryEvent) && OneMore(s.orgs, done.orgs, q.orgEvent)
  {
    RerunConverges(s, q, derive, budgets, budget);
    ValidIsPlain(s);
    RowsResolve(s.reg.items, q.rows, |q.rows|, derive);
    assert q.rows[..|q.rows|] == q.rows;
    AdmittedExactly(s.orgs.items, Identities(q.rows));
  }

  lemma {:induction false} ValidIsPlain(s: State)
    requires IsValid(s)
    ensures Plain(s.reg.items) && DistinctOrganizations(s.orgs.items)
  {
    IdsDiffer(s.orgs.items, s.reg.items);
    forall i, j | 0 <= i < j < |s.orgs.items| ensures s.orgs.items[i].id != s.orgs.items[j].id {
      assert Unambiguous(s.orgs.items[i], s.orgs.items[j]);
    }
    forall k | 0 <= k < |s.reg.items| ensures s.reg.items[k].supersedes != Some(s.reg.items[k].id) {
      NotItsOwn(s.reg.items, k);
    }
  }

  /** A version that superseded itself would be a cycle. */
  lemma {:induction false} NotItsOwn(vs: seq<Version>, k: nat)
    requires DistinctVersions(vs) && Acyclic(ChainOf(vs)) && k < |vs| && vs[k].id != ""
    ensures vs[k].supersedes != Some(vs[k].id)
  {
    ChainEntry(vs, k);
    var rank :| Ranks(ChainOf(vs), rank);
    assert vs[k].id in ChainOf(vs);
  }

  /** A call writes only for the request that is journaled, or for one at the current revisions of a
      valid state, with its evidence intact, and while neither file has drifted from the journal. */
  lemma {:induction false} WritesOnlyWhenAllowed(d: Disk, q: Request, derive: Deriver, intact: bool, budget: nat)
    requires Resolve(d, q, derive, intact, budget).0 != d
    ensures d.txn.None? ==>
              q.orgRevision == d.files.orgs.revision && q.registryRevision == d.files.reg.revision && IsValid(d.files)
    ensures d.txn.Some? ==>
              && q == d.txn.value.request && !d.receipt && intact
              && (d.files.orgs == d.txn.value.before.orgs || d.files.orgs == d.txn.value.after.orgs)
              && (d.files.reg == d.txn.value.before.reg || d.files.reg == d.txn.value.after.reg)
    ensures Resolve(d, q, derive, intact, budget).0.files != d.files || Resolve(d, q, derive, intact, budget).0.receipt != d.receipt
            ==> intact
  {
  }
}
