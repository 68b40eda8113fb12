/** Exactly when each governed mutation other than activation commits, and what it changes. */
module GovernanceEffects {
  import opened Basics
  import opened Supersedes
  import opened Governance
  import opened GovernanceOps
  import opened GovernanceRuns

  /** The call replaces a stored file. */
  ghost predicate Commits(s: State, call: Call, s': State) { After(s, call) == Some(s') && s' != s }

  ghost predicate Replaces(next: Option<State>, s: State) { next.Some? && next.value != s }

  ghost predicate SomethingCommits(s: State, call: Call) { Replaces(After(s, call), s) }

  /** The registry's next revision, with one event more. */
  ghost predicate Logged<T>(r: Registry<T>, r': Registry<T>, event: string) {
    r'.revision == r.revision + 1 && r'.events == r.events + [Event(event, r.revision + 1, true)]
  }

  /** Only item `at` changed, into `w`. */
  ghost predicate Edited<T>(vs: seq<T>, ws: seq<T>, at: nat, w: T) {
    |ws| == |vs| && at < |vs| && ws[at] == w && forall i :: 0 <= i < |vs| && i != at ==> ws[i] == vs[i]
  }

  // ----- an edit of one version that keeps its identity, sources and link --------------------------

  ghost predicate SameFile(v: Version, w: Version) {
    SameIdentity(v, w) && w.occurrences == v.occurrences && w.wellFormed == v.wellFormed && w.supersedes == v.supersedes
  }

  lemma {:induction false} EditVersions(orgs: seq<Organization>, vs: seq<Version>, at: nat, w: Version)
    requires VersionsOk(orgs, vs) && at < |vs| && SameFile(vs[at], w) && (w.status == Active ==> vs[at].status == Active)
    ensures VersionsOk(orgs, vs[at := w]) <==> (w.status == Active ==> w.processing == Completed)
  {
    var ws := vs[at := w];
    SameOccurrences(vs, ws);
    assert VersionOk(orgs, vs[at]);
    forall i | 0 <= i < |ws| && i != at ensures VersionOk(orgs, ws[i]) { assert VersionOk(orgs, vs[i]); }
    forall i, j | 0 <= i < j < |ws| ensures Compatible(ws[i], ws[j]) { assert Compatible(vs[i], vs[j]); }
    assert VersionOk(orgs, ws[at]) <==> (w.status == Active ==> w.processing == Completed);
  }

  lemma {:induction false} EditChain(vs: seq<Version>, at: nat, w: Version)
    requires DistinctVersions(vs) && at < |vs| && SameFile(vs[at], w)
    ensures ChainOf(vs[at := w]) == ChainOf(vs)
  {
    ChainEntry(vs, at);
    ChainUpdated(vs, vs[at := w], at);
  }

  /** Versions with the same ids, documents and links. */
  ghost predicate SameLinks(vs: seq<Version>, ws: seq<Version>) {
    |vs| == |ws| && forall i :: 0 <= i < |vs| ==> vs[i].id == ws[i].id && vs[i].document == ws[i].document && Link(vs[i]) == Link(ws[i])
  }

  lemma {:induction false} LinksCarry(vs: seq<Version>, ws: seq<Version>)
    requires LinksOk(vs) && SameLinks(vs, ws)
    ensures LinksOk(ws)
  {
    forall i | 0 <= i < |ws| ensures LinkOk(ws, ws[i]) {
      assert LinkOk(vs, vs[i]);
      if Link(ws[i]).Some? {
        var j :| 0 <= j < |vs| && vs[j].id == Link(vs[i]).value && vs[j].document == vs[i].document;
        assert ws[j].id == Link(ws[i]).value;
      }
    }
  }

  /** What a commit to a valid state has to keep. */
  lemma {:induction false} CommitValid(s: State, items: seq<Version>, event: string)
    requires IsValid(s)
    ensures IsValid(s.(reg := Commit(s.reg, items, event))) <==>
            NewEvent(s.reg.events, event) && VersionsOk(s.orgs.items, items) && LinksOk(items) && Acyclic(ChainOf(items))
  {
    OneEventMore(s.reg.events, s.reg.revision, event);
  }

  lemma {:induction false} EditValid(s: State, at: nat, w: Version, event: string)
    requires IsValid(s) && at < |s.reg.items| && SameFile(s.reg.items[at], w)
    requires w.status == Active ==> s.reg.items[at].status == Active
    ensures IsValid(s.(reg := Commit(s.reg, s.reg.items[at := w], event)))
            <==> NewEvent(s.reg.events, event) && (w.status == Active ==> w.processing == Completed)
  {
    var vs := s.reg.items;
    EditVersions(s.orgs.items, vs, at, w);
    IdsDiffer(s.orgs.items, vs);
    EditChain(vs, at, w);
    LinksCarry(vs, vs[at := w]);
    CommitValid(s, vs[at := w], event);
  }

  lemma {:induction false} EditCommits(s: State, expected: int, event: string, change: Change<Version>, at: nat, w: Version)
    requires IsValid(s) && at < |s.reg.items| && SameFile(s.reg.items[at], w)
    requires w.status == Active ==> s.reg.items[at].status == Active
    requires change.Changed? ==> change.items == s.reg.items[at := w]
    ensures Replaces(AfterVersions(s, expected, event, change), s) <==>
            && expected == s.reg.revision && NewEvent(s.reg.events, event)
            && change.Changed? && (w.status == Active ==> w.processing == Completed)
  {
    CommitsExactly(s, expected, event, change);
    EditValid(s, at, w, event);
  }

  /** In a valid registry an id names one version. */
  lemma {:induction false} FoundAt(s: State, id: string, at: nat)
    requires IsValid(s) && at < |s.reg.items| && s.reg.items[at].id == id
    ensures Find(s.reg.items, id) == Some(at)
  {
    IdsDiffer(s.orgs.items, s.reg.items);
  }

  // ----- set-status --------------------------------------------------------------------------------------

  /** The fields an update names. */
  ghost predicate Takes<T>(given: Option<T>, before: T, after: T) {
    match given
    case Some(x) => after == x
    case None => after == before
  }

  predicate Differs<T(==)>(given: Option<T>, before: T) { given.Some? && given.value != before }

  predicate Settable(status: Option<Status>) { status != Some(Active) && status != Some(Superseded) }

  ghost predicate StatusMaySet(v: Version, p: Option<Processing>, st: Option<Status>, a: Option<Authority>) {
    && Settable(st) && (Differs(p, v.processing) || Differs(st, v.status) || Differs(a, v.authority))
    && (v.status == Active && st.None? ==> !Differs(p, Completed))
  }

  /** The edit itself, for a known version. */
  lemma {:induction false} StatusEdits(vs: seq<Version>, id: string, at: nat, p: Option<Processing>, st: Option<Status>,
                                       a: Option<Authority>) returns (w: Version)
    requires Find(vs, id) == Some(at)
    ensures SameFile(vs[at], w)
    ensures Takes(p, vs[at].processing, w.processing) && Takes(st, vs[at].status, w.status) && Takes(a, vs[at].authority, w.authority)
    ensures var changes := Settable(st) && (Differs(p, vs[at].processing) || Differs(st, vs[at].status) || Differs(a, vs[at].authority));
            && (StatusSet(vs, id, p, st, a).Changed? <==> changes)
            && (changes ==> StatusSet(vs, id, p, st, a).items == vs[at := w])
  {
    w := vs[at].(processing := p.GetOr(vs[at].processing), status := st.GetOr(vs[at].status), authority := a.GetOr(vs[at].authority));
  }

  ghost predicate SomeVersion(vs: seq<Version>, id: string, at: nat) { at < |vs| && vs[at].id == id }

  lemma {:induction false} Located(s: State, id: string)
    requires IsValid(s)
    ensures Find(s.reg.items, id).None? ==> forall n: nat :: !SomeVersion(s.reg.items, id, n)
    ensures Find(s.reg.items, id).Some? ==> forall n: nat :: SomeVersion(s.reg.items, id, n) <==> n == Find(s.reg.items, id).value
  {
    forall n: nat | SomeVersion(s.reg.items, id, n) ensures Find(s.reg.items, id) == Some(n) { FoundAt(s, id, n); }
  }

  lemma {:induction false} SetStatusKnown(s: State, id: string, at: nat, p: Option<Processing>, st: Option<Status>,
                                          a: Option<Authority>, expected: int, event: string)
    requires IsValid(s) && Find(s.reg.items, id) == Some(at)
    ensures SomethingCommits(s, Call(SetStatus(id, p, st, a), expected, event)) <==>
            expected == s.reg.revision && NewEvent(s.reg.events, event) && StatusMaySet(s.reg.items[at], p, st, a)
  {
    if Settable(st) {
      var w := StatusEdits(s.reg.items, id, at, p, st, a);
      EditCommits(s, expected, event, StatusSet(s.reg.items, id, p, st, a), at, w);
      ActiveIsCompleted(s, at);
    }
  }

  /** A status update commits exactly when it would change something, does not make the version
      active or superseded, and does not reopen an active version. */
  lemma {:induction false} SetStatusExactly(s: State, id: string, p: Option<Processing>, st: Option<Status>, a: Option<Authority>,
                                            expected: int, event: string)
    requires IsValid(s)
    ensures SomethingCommits(s, Call(SetStatus(id, p, st, a), expected, event)) <==>
              && expected == s.reg.revision && NewEvent(s.reg.events, event)
              && exists at: nat :: SomeVersion(s.reg.items, id, at) && StatusMaySet(s.reg.items[at], p, st, a)
  {
    Located(s, id);
    if Find(s.reg.items, id).Some? { SetStatusKnown(s, id, Find(s.reg.items, id).value, p, st, a, expected, event); }
  }

  lemma {:induction false} ActiveIsCompleted(s: State, at: nat)
    requires IsValid(s) && at < |s.reg.items|
    ensures s.reg.items[at].status == Active ==> s.reg.items[at].processing == Completed
  {
    assert VersionOk(s.orgs.items, s.reg.items[at]);
  }

  lemma {:induction false} SetStatusEffect(s: State, id: string, p: Option<Processing>, st: Option<Status>, a: Option<Authority>,
                                           expected: int, event: string, s': State, at: nat)
    requires IsValid(s) && Commits(s, Call(SetStatus(id, p, st, a), expected, event), s')
    requires at < |s.reg.items| && s.reg.items[at].id == id
    ensures s'.orgs == s.orgs && Logged(s.reg, s'.reg, event)
    ensures exists w :: Edited(s.reg.items, s'.reg.items, at, w) && SameFile(s.reg.items[at], w)
              && Takes(p, s.reg.items[at].processing, w.processing) && Takes(st, s.reg.items[at].status, w.status)
              && Takes(a, s.reg.items[at].authority, w.authority)
  {
    FoundAt(s, id, at);
    var w := StatusEdits(s.reg.items, id, at, p, st, a);
    assert Edited(s.reg.items, s'.reg.items, at, w);
  }

  // ----- finish-ingest ----------------------------------------------------------------------------------------

  ghost predicate MayFinish(v: Version, hash: string, result: Processing) {
    (result == Completed || result == Failed) && v.hash == hash && v.processing != result && v.status != Active
  }

  lemma {:induction false} FinishEdits(vs: seq<Version>, id: string, at: nat, hash: string, result: Processing)
    requires Find(vs, id) == Some(at)
    ensures var changes := (result == Completed || result == Failed) && vs[at].hash == hash && vs[at].processing != result;
            && (IngestFinished(vs, id, hash, result).Changed? <==> changes)
            && (changes ==> IngestFinished(vs, id, hash, result).items == vs[at := vs[at].(processing := result)])
  {
  }

  lemma {:induction false} FinishKnown(s: State, id: string, at: nat, hash: string, result: Processing, expected: int, event: string)
    requires IsValid(s) && Find(s.reg.items, id) == Some(at)
    ensures SomethingCommits(s, Call(FinishIngest(id, hash, result), expected, event)) <==>
            expected == s.reg.revision && NewEvent(s.reg.events, event) && MayFinish(s.reg.items[at], hash, result)
  {
    var vs := s.reg.items;
    FinishEdits(vs, id, at, hash, result);
    EditCommits(s, expected, event, IngestFinished(vs, id, hash, result), at, vs[at].(processing := result));
    ActiveIsCompleted(s, at);
  }

  /** A finished ingest is recorded exactly when it completed or failed, the content is the version's
      own, the version says otherwise so far, and it is not active. */
  lemma {:induction false} FinishExactly(s: State, id: string, hash: string, result: Processing, expected: int, event: string)
    requires IsValid(s)
    ensures SomethingCommits(s, Call(FinishIngest(id, hash, result), expected, event)) <==>
              && expected == s.reg.revision && NewEvent(s.reg.events, event)
              && exists at: nat :: SomeVersion(s.reg.items, id, at) && MayFinish(s.reg.items[at], hash, result)
  {
    Located(s, id);
    if Find(s.reg.items, id).Some? { FinishKnown(s, id, Find(s.reg.items, id).value, hash, result, expected, event); }
  }

  lemma {:induction false} FinishEffect(s: State, id: string, hash: string, result: Processing, expected: int, event: string,
                                        s': State, at: nat)
    requires IsValid(s) && Commits(s, Call(FinishIngest(id, hash, result), expected, event), s')
    requires at < |s.reg.items| && s.reg.items[at].id == id
    ensures s'.orgs == s.orgs && Logged(s.reg, s'.reg, event)
    ensures Edited(s.reg.items, s'.reg.items, at, s.reg.items[at].(processing := result))
  {
    FoundAt(s, id, at);
    FinishEdits(s.reg.items, id, at, hash, result);
  }

  // ----- add-source ---------------------------------------------------------------------------------------------

  ghost predicate UsedOccurrence(vs: seq<Version>, id: string) {
    exists i, k :: 0 <= i < |vs| && 0 <= k < |vs[i].occurrences| && vs[i].occurrences[k].id == id
  }

  lemma {:induction false} UsedOnce(vs: seq<Version>, id: string)
    ensures id in OccurrenceIds(vs) <==> UsedOccurrence(vs, id)
  {
    if vs != [] {
      var front, last := vs[..|vs| - 1], vs[|vs| - 1];
      UsedOnce(front, id);
      if i, k :| 0 <= i < |vs| && 0 <= k < |vs[i].occurrences| && vs[i].occurrences[k].id == id {
        if i < |front| {
          assert front[i].occurrences[k].id == id;
        } else {
          assert IdsOf(last.occurrences)[k] == id;
        }
      }
      if i, k :| 0 <= i < |front| && 0 <= k < |front[i].occurrences| && front[i].occurrences[k].id == id {
        assert vs[i].occurrences[k].id == id;
      }
      if id in IdsOf(last.occurrences) {
        var k :| 0 <= k < |last.occurrences| && IdsOf(last.occurrences)[k] == id;
        assert vs[|vs| - 1].occurrences[k].id == id;
      }
    }
  }

  /** One occurrence more adds its id to the registry's. */
  lemma {:induction false} OccurrenceAdded(vs: seq<Version>, at: nat, o: Occurrence)
    requires at < |vs|
    ensures multiset(OccurrenceIds(vs[at := vs[at].(occurrences := vs[at].occurrences + [o])]))
            == multiset(OccurrenceIds(vs)) + multiset{o.id}
  {
    var ws := vs[at := vs[at].(occurrences := vs[at].occurrences + [o])];
    var last := |vs| - 1;
    if at == last {
      assert ws[..last] == vs[..last];
      assert IdsOf(ws[last].occurrences) == IdsOf(vs[last].occurrences) + [o.id];
    } else {
      OccurrenceAdded(vs[..last], at, o);
      assert ws[..last] == vs[..last][at := ws[at]];
    }
  }

  lemma {:induction false} DistinctOnce<T(!new)>(s: seq<T>)
    ensures Distinct(s) <==> forall x :: multiset(s)[x] <= 1
  {
    if Distinct(s) {
      forall x ensures multiset(s)[x] <= 1 { OnlyOnce(s, x); }
    } else {
      var i, j :| 0 <= i < j < |s| && s[i] == s[j];
      assert s == s[..i] + [s[i]] + s[i + 1..];
      assert s[j] in s[i + 1..];
      assert multiset(s)[s[i]] >= 2;
    }
  }

  lemma {:induction false} OnlyOnce<T>(s: seq<T>, x: T)
    requires Distinct(s)
    ensures multiset(s)[x] <= 1
  {
    if s != [] {
      var front := s[..|s| - 1];
      assert s == front + [s[|s| - 1]];
      OnlyOnce(front, x);
      if x == s[|s| - 1] { assert x !in front; }
    }
  }

  lemma {:induction false} OneMoreDistinct(before: seq<string>, after: seq<string>, id: string)
    requires Distinct(before) && multiset(after) == multiset(before) + multiset{id}
    ensures Distinct(after) <==> id !in before
  {
    DistinctOnce(before);
    DistinctOnce(after);
    assert multiset(after)[id] == multiset(before)[id] + 1;
    assert id in before <==> multiset(before)[id] > 0;
    forall x | x != id ensures multiset(after)[x] == multiset(before)[x] {}
  }

  ghost predicate MayAdd(s: State, v: Version, o: Occurrence) {
    && o.wellFormed && Known(s.orgs.items, o.organization) && (v.status == Active ==> IsApproved(s.orgs.items, o.organization))
    && !UsedOccurrence(s.reg.items, o.id)
  }

  function WithSource(v: Version, o: Occurrence): Version { v.(occurrences := v.occurrences + [o]) }

  lemma {:induction false} SourceOccurrences(vs: seq<Version>, at: nat, o: Occurrence)
    requires at < |vs| && Distinct(OccurrenceIds(vs))
    ensures Distinct(OccurrenceIds(vs[at := WithSource(vs[at], o)])) <==> !UsedOccurrence(vs, o.id)
  {
    UsedOnce(vs, o.id);
    OccurrenceAdded(vs, at, o);
    OneMoreDistinct(OccurrenceIds(vs), OccurrenceIds(vs[at := WithSource(vs[at], o)]), o.id);
  }

  lemma {:induction false} SourceVersions(s: State, at: nat, o: Occurrence)
    requires IsValid(s) && at < |s.reg.items|
    ensures VersionsOk(s.orgs.items, s.reg.items[at := WithSource(s.reg.items[at], o)]) <==> MayAdd(s, s.reg.items[at], o)
  {
    SourceOccurrences(s.reg.items, at, o);
    SourceItems(s.orgs.items, s.reg.items, at, o);
  }

  lemma {:induction false} SourceItems(orgs: seq<Organization>, vs: seq<Version>, at: nat, o: Occurrence)
    requires VersionsOk(orgs, vs) && at < |vs|
    ensures VersionsOk(orgs, vs[at := WithSource(vs[at], o)]) <==>
            && o.wellFormed && Known(orgs, o.organization) && (vs[at].status == Active ==> IsApproved(orgs, o.organization))
            && Distinct(OccurrenceIds(vs[at := WithSource(vs[at], o)]))
  {
    var ws := vs[at := WithSource(vs[at], o)];
    assert VersionOk(orgs, vs[at]);
    SourceVersionOk(orgs, vs[at], o);
    forall i | 0 <= i < |ws| && i != at ensures VersionOk(orgs, ws[i]) { assert VersionOk(orgs, vs[i]); }
    forall i, j | 0 <= i < j < |ws| ensures Compatible(ws[i], ws[j]) { assert Compatible(vs[i], vs[j]); }
    assert ws[at] == WithSource(vs[at], o);
  }

  lemma {:induction false} SourceVersionOk(orgs: seq<Organization>, v: Version, o: Occurrence)
    requires VersionOk(orgs, v)
    ensures VersionOk(orgs, WithSource(v, o)) <==>
            o.wellFormed && Known(orgs, o.organization) && (v.status == Active ==> IsApproved(orgs, o.organization))
  {
    var w := WithSource(v, o);
    assert w.occurrences[|v.occurrences|] == o;
    forall i | 0 <= i < |v.occurrences| ensures w.occurrences[i] == v.occurrences[i] {}
  }

  lemma {:induction false} SourceLinks(vs: seq<Version>, at: nat, o: Occurrence)
    requires DistinctVersions(vs) && at < |vs| && LinksOk(vs)
    ensures LinksOk(vs[at := WithSource(vs[at], o)]) && ChainOf(vs[at := WithSource(vs[at], o)]) == ChainOf(vs)
  {
    var ws := vs[at := WithSource(vs[at], o)];
    LinksCarry(vs, ws);
    ChainEntry(vs, at);
    ChainUpdated(vs, ws, at);
  }

  lemma {:induction false} SourceEdits(s: State, id: string, at: nat, o: Occurrence)
    requires Find(s.reg.items, id) == Some(at)
    ensures var change := SourceAdded(s.reg.items, id, o);
            && (change.Changed? ==> change.items == s.reg.items[at := WithSource(s.reg.items[at], o)])
            && (!UsedOccurrence(s.reg.items, o.id) ==> change.Changed?)
            && (change.Unchanged? <==> o in s.reg.items[at].occurrences)
  {
    var v := s.reg.items[at];
    if x :| x in v.occurrences && x.id == o.id {
      var k :| 0 <= k < |v.occurrences| && v.occurrences[k] == x;
      assert s.reg.items[at].occurrences[k].id == o.id;
    }
    if o in v.occurrences { assert o.id == o.id; }
  }

  lemma {:induction false} AddSourceKnown(s: State, id: string, at: nat, o: Occurrence, expected: int, event: string)
    requires IsValid(s) && Find(s.reg.items, id) == Some(at)
    ensures SomethingCommits(s, Call(AddSource(id, o), expected, event)) <==>
            expected == s.reg.revision && NewEvent(s.reg.events, event) && MayAdd(s, s.reg.items[at], o)
  {
    var ws := s.reg.items[at := WithSource(s.reg.items[at], o)];
    SourceEdits(s, id, at, o);
    IdsDiffer(s.orgs.items, s.reg.items);
    SourceVersions(s, at, o);
    SourceLinks(s.reg.items, at, o);
    CommitValid(s, ws, event);
    CommitsExactly(s, expected, event, SourceAdded(s.reg.items, id, o));
  }

  /** A source is added exactly when it is well formed, its organization is known (and approved, if the
      version is active), and no version of the registry has an occurrence with its id. */
  lemma {:induction false} AddSourceExactly(s: State, id: string, o: Occurrence, expected: int, event: string)
    requires IsValid(s)
    ensures SomethingCommits(s, Call(AddSource(id, o), expected, event)) <==>
              && expected == s.reg.revision && NewEvent(s.reg.events, event)
              && exists at: nat :: SomeVersion(s.reg.items, id, at) && MayAdd(s, s.reg.items[at], o)
  {
    Located(s, id);
    if Find(s.reg.items, id).Some? { AddSourceKnown(s, id, Find(s.reg.items, id).value, o, expected, event); }
  }

  lemma {:induction false} AddSourceEffect(s: State, id: string, o: Occurrence, expected: int, event: string, s': State, at: nat)
    requires IsValid(s) && Commits(s, Call(AddSource(id, o), expected, event), s')
    requires at < |s.reg.items| && s.reg.items[at].id == id
    ensures s'.orgs == s.orgs && Logged(s.reg, s'.reg, event)
    ensures Edited(s.reg.items, s'.reg.items, at, s.reg.items[at].(occurrences := s.reg.items[at].occurrences + [o]))
  {
    FoundAt(s, id, at);
    SourceEdits(s, id, at, o);
  }

  // ----- register -------------------------------------------------------------------------------------------------

  ghost predicate KnownPredecessor(vs: seq<Version>, v: Version) {
    v.supersedes.Some? && v.supersedes.value != "" ==>
      exists j :: 0 <= j < |vs| && vs[j].id == v.supersedes.value && vs[j].document == v.document
  }

  /** The organization is registered with this status, or, without one, registered at all. */
  ghost predicate Rated(orgs: seq<Organization>, id: string, status: Option<OrgStatus>) {
    exists o :: o in orgs && o.id == id && (status.Some? ==> o.status == status.value)
  }

  ghost predicate InOrder(orgs: seq<Organization>, v: Version) {
    && v.wellFormed && v.id != "" && |v.occurrences| > 0
    && (forall x :: x in v.occurrences ==> x.wellFormed && Rated(orgs, x.organization, None))
    && (v.status == Active ==> v.processing == Completed && forall x :: x in v.occurrences ==> Rated(orgs, x.organization, Some(Approved)))
  }

  ghost predicate Apart(u: Version, v: Version) {
    && u.id != v.id && u.resource != v.resource && u.hash != v.hash
    && (u.status == Active && v.status == Active ==> u.document != v.document)
  }

  lemma {:induction false} RatedExactly(orgs: seq<Organization>, id: string)
    ensures Known(orgs, id) <==> Rated(orgs, id, None)
    ensures IsApproved(orgs, id) <==> Rated(orgs, id, Some(Approved))
  {
    if o :| o in orgs && o.id == id {
      var i :| 0 <= i < |orgs| && orgs[i] == o;
      assert orgs[i].id == id;
    }
    if o :| o in orgs && o.id == id && o.status == Approved {
      var i :| 0 <= i < |orgs| && orgs[i] == o;
      assert orgs[i].id == id && orgs[i].status == Approved;
    }
  }

  /** The validator's rules for one version and for two, written out. */
  lemma {:induction false} RulesSpelledOut(orgs: seq<Organization>, u: Version, v: Version)
    ensures VersionOk(orgs, v) <==> InOrder(orgs, v)
    ensures Compatible(u, v) <==> Apart(u, v)
  {
    forall id ensures (Known(orgs, id) <==> Rated(orgs, id, None)) && (IsApproved(orgs, id) <==> Rated(orgs, id, Some(Approved))) {
      RatedExactly(orgs, id);
    }
    forall k | 0 <= k < |v.occurrences| ensures v.occurrences[k] in v.occurrences {}
  }

  /** What a new version needs: to be in order by itself, to share no id, resource, content or active
      place with a registered one, occurrence ids of its own, and a registered predecessor if any. */
  ghost predicate MayRegister(s: State, v: Version) {
    && InOrder(s.orgs.items, v) && (forall i :: 0 <= i < |s.reg.items| ==> Apart(s.reg.items[i], v))
    && (forall i, k :: 0 <= i < k < |v.occurrences| ==> v.occurrences[i].id != v.occurrences[k].id)
    && (forall k :: 0 <= k < |v.occurrences| ==> !UsedOccurrence(s.reg.items, v.occurrences[k].id))
    && KnownPredecessor(s.reg.items, v)
  }

  lemma {:induction false} DistinctBoth<T>(a: seq<T>, b: seq<T>)
    ensures Distinct(a + b) <==> Distinct(a) && Distinct(b) && forall k :: 0 <= k < |b| ==> b[k] !in a
  {
    var c := a + b;
    if Distinct(c) {
      forall i, j | 0 <= i < j < |a| ensures a[i] != a[j] { assert c[i] == a[i] && c[j] == a[j]; }
      forall i, j | 0 <= i < j < |b| ensures b[i] != b[j] { assert c[|a| + i] == b[i] && c[|a| + j] == b[j]; }
      forall k, i | 0 <= k < |b| && 0 <= i < |a| ensures b[k] != a[i] { assert c[i] == a[i] && c[|a| + k] == b[k]; }
    }
  }

  lemma {:induction false} RegisterOccurrences(vs: seq<Version>, v: Version)
    requires Distinct(OccurrenceIds(vs))
    ensures Distinct(OccurrenceIds(vs + [v])) <==>
            Distinct(IdsOf(v.occurrences)) && forall k :: 0 <= k < |v.occurrences| ==> !UsedOccurrence(vs, v.occurrences[k].id)
  {
    assert (vs + [v])[..|vs|] == vs;
    DistinctBoth(OccurrenceIds(vs), IdsOf(v.occurrences));
    forall k | 0 <= k < |v.occurrences|
      ensures IdsOf(v.occurrences)[k] in OccurrenceIds(vs) <==> UsedOccurrence(vs, v.occurrences[k].id)
    {
      UsedOnce(vs, v.occurrences[k].id);
    }
  }

  lemma {:induction false} RegisterVersions(orgs: seq<Organization>, vs: seq<Version>, v: Version)
    requires VersionsOk(orgs, vs)
    ensures VersionsOk(orgs, vs + [v]) <==>
            VersionOk(orgs, v) && (forall i :: 0 <= i < |vs| ==> Compatible(vs[i], v)) && Distinct(OccurrenceIds(vs + [v]))
  {
    var ws := vs + [v];
    if VersionsOk(orgs, ws) {
      assert VersionOk(orgs, ws[|vs|]);
      forall i | 0 <= i < |vs| ensures Compatible(vs[i], v) { assert Compatible(ws[i], ws[|vs|]); }
    }
    forall i, j | 0 <= i < j < |vs| ensures Compatible(ws[i], ws[j]) { assert Compatible(vs[i], vs[j]); }
    forall i | 0 <= i < |vs| ensures VersionOk(orgs, ws[i]) { assert VersionOk(orgs, vs[i]); }
  }

  lemma {:induction false} ChainClosed(vs: seq<Version>, id: string)
    requires DistinctVersions(vs) && LinksOk(vs) && id in ChainOf(vs) && ChainOf(vs)[id].Some?
    ensures ChainOf(vs)[id].value in ChainOf(vs)
  {
    var i :| 0 <= i < |vs| && vs[i].id == id;
    ChainEntry(vs, i);
    assert LinkOk(vs, vs[i]);
  }

  lemma {:induction false} NoRank(g: Chain, id: string, rank: map<string, nat>)
    ensures !Ranks(g[id := Some(id)], rank)
  {
    assert g[id := Some(id)][id] == Some(id);
  }

  lemma {:induction false} RegisterAcyclic(g: Chain, id: string, link: Option<string>)
    requires Acyclic(g) && id !in g && (link.Some? ==> link.value in g || link.value == id)
    requires forall u :: u in g && g[u].Some? ==> g[u].value in g
    ensures Acyclic(g[id := link]) <==> link != Some(id)
  {
    var h := g[id := link];
    if link == Some(id) {
      forall rank ensures !Ranks(h, rank) { NoRank(g, id, rank); }
    } else {
      var rank :| Ranks(g, rank);
      assert Ranks(h, rank[id := if link.None? then 0 else rank[link.value] + 1]);
    }
  }

  lemma {:induction false} RegisterLinks(orgs: seq<Organization>, vs: seq<Version>, v: Version)
    requires VersionsOk(orgs, vs) && LinksOk(vs) && Acyclic(ChainOf(vs)) && forall i :: 0 <= i < |vs| ==> vs[i].id != v.id
    ensures LinksOk(vs + [v]) && Acyclic(ChainOf(vs + [v])) <==> KnownPredecessor(vs, v)
  {
    var ws, g := vs + [v], ChainOf(vs);
    assert ws[..|vs|] == vs;
    IdsDiffer(orgs, vs);
    forall u | u in g && g[u].Some? ensures g[u].value in g { ChainClosed(vs, u); }
    forall i | 0 <= i < |vs| ensures LinkOk(ws, ws[i]) {
      assert LinkOk(vs, vs[i]);
      if Link(vs[i]).Some? {
        var j :| 0 <= j < |vs| && vs[j].id == Link(vs[i]).value && vs[j].document == vs[i].document;
        assert ws[j] == vs[j];
      }
    }
    PredecessorIn(vs, v);
    if Link(v).None? || Link(v).value in g || Link(v).value == v.id { RegisterAcyclic(g, v.id, Link(v)); }
  }

  lemma {:induction false} PredecessorIn(vs: seq<Version>, v: Version)
    requires forall i :: 0 <= i < |vs| ==> vs[i].id != v.id
    ensures KnownPredecessor(vs, v) ==> LinkOk(vs + [v], v) && Link(v) != Some(v.id) && (Link(v).Some? ==> Link(v).value in ChainOf(vs))
    ensures LinkOk(vs + [v], v) && Link(v) != Some(v.id) ==> KnownPredecessor(vs, v)
    ensures LinkOk(vs + [v], v) && Link(v).Some? ==> Link(v).value in ChainOf(vs) || Link(v).value == v.id
    ensures LinksOk(vs + [v]) ==> LinkOk(vs + [v], v)
  {
    var ws := vs + [v];
    if Link(v).Some? {
      if KnownPredecessor(vs, v) {
        var j :| 0 <= j < |vs| && vs[j].id == Link(v).value && vs[j].document == v.document;
        assert ws[j] == vs[j];
      }
      if LinkOk(ws, v) {
        var j :| 0 <= j < |ws| && ws[j].id == Link(v).value && ws[j].document == v.document;
        assert j < |vs| ==> ws[j] == vs[j];
      }
    }
    assert ws[|vs|] == v;
  }

  lemma {:induction false} RegisterSettles(vs: seq<Version>, v: Version, i: nat)
    requires i <= |vs|
    ensures RegisteredFrom(vs, v, i).Changed? ==> RegisteredFrom(vs, v, i).items == vs + [v]
    ensures RegisteredFrom(vs, v, i).Changed? <==> forall j :: i <= j < |vs| ==> vs[j].id != v.id && vs[j].hash != v.hash
    decreases |vs| - i
  {
    if i < |vs| { RegisterSettles(vs, v, i + 1); }
  }

  /** A version is registered exactly when it fits; it is appended. */
  lemma {:induction false} RegisterExactly(s: State, v: Version, expected: int, event: string)
    requires IsValid(s)
    ensures SomethingCommits(s, Call(Register(v), expected, event)) <==>
            expected == s.reg.revision && NewEvent(s.reg.events, event) && MayRegister(s, v)
  {
    var vs := s.reg.items;
    RegisterSettles(vs, v, 0);
    CommitsExactly(s, expected, event, Registered(vs, v));
    CommitValid(s, vs + [v], event);
    RegisterVersions(s.orgs.items, vs, v);
    RegisterOccurrences(vs, v);
    RulesSpelledOut(s.orgs.items, v, v);
    forall i | 0 <= i < |vs| ensures Compatible(vs[i], v) <==> Apart(vs[i], v) { RulesSpelledOut(s.orgs.items, vs[i], v); }
    if forall i :: 0 <= i < |vs| ==> vs[i].id != v.id { RegisterLinks(s.orgs.items, vs, v); }
  }

  lemma {:induction false} RegisterEffect(s: State, v: Version, expected: int, event: string, s': State)
    requires IsValid(s) && Commits(s, Call(Register(v), expected, event), s')
    ensures s'.orgs == s.orgs && Logged(s.reg, s'.reg, event) && s'.reg.items == s.reg.items + [v]
  {
    RegisterSettles(s.reg.items, v, 0);
  }

  // ----- organizations -------------------------------------------------------------------------------------------------

  /** The versions still stand under the changed organizations. */
  lemma {:induction false} CommitOrganizations(s: State, items: seq<Organization>, event: string)
    requires IsValid(s)
    ensures IsValid(s.(orgs := Commit(s.orgs, items, event))) <==>
            && NewEvent(s.orgs.events, event) && OrganizationsOk(items)
            && forall i :: 0 <= i < |s.reg.items| ==> VersionOk(items, s.reg.items[i])
  {
    OneEventMore(s.orgs.events, s.orgs.revision, event);
    forall i, j | 0 <= i < j < |s.reg.items| ensures Compatible(s.reg.items[i], s.reg.items[j]) {}
  }

  lemma {:induction false} OrganizationCommits(s: State, expected: int, event: string, change: Change<Organization>)
    requires IsValid(s)
    ensures Replaces(AfterOrganizations(s, expected, event, change), s)
            <==> expected == s.orgs.revision && change.Changed? && IsValid(s.(orgs := Commit(s.orgs, change.items, event)))
  {
  }

  lemma {:induction false} GrownOrganizations(orgs: seq<Organization>, more: seq<Organization>, v: Version)
    requires VersionOk(orgs, v) && orgs <= more
    ensures VersionOk(more, v)
  {
    forall k | 0 <= k < |v.occurrences|
      ensures Known(more, v.occurrences[k].organization)
      ensures v.status == Active ==> IsApproved(more, v.occurrences[k].organization)
    {
      assert Known(orgs, v.occurrences[k].organization);
      if v.status == Active { assert IsApproved(orgs, v.occurrences[k].organization); }
    }
  }

  ghost predicate MayEnter(orgs: seq<Organization>, o: Organization) {
    o.wellFormed && forall i :: 0 <= i < |orgs| ==> orgs[i].id != o.id && forall l :: l in orgs[i].labels ==> l !in o.labels
  }

  lemma {:induction false} EntersOk(orgs: seq<Organization>, o: Organization)
    requires OrganizationsOk(orgs)
    ensures OrganizationsOk(orgs + [o]) <==> MayEnter(orgs, o)
  {
    var more := orgs + [o];
    if OrganizationsOk(more) {
      assert more[|orgs|].wellFormed;
      forall i | 0 <= i < |orgs| ensures Unambiguous(orgs[i], o) { assert Unambiguous(more[i], more[|orgs|]); }
    }
    forall i, j | 0 <= i < j < |orgs| ensures Unambiguous(more[i], more[j]) { assert Unambiguous(orgs[i], orgs[j]); }
  }

  /** An organization is added exactly when it is well formed and shares neither id nor label with
      another; it is appended. */
  lemma {:induction false} AddOrganizationExactly(s: State, o: Organization, expected: int, event: string)
    requires IsValid(s)
    ensures SomethingCommits(s, Call(AddOrganization(o), expected, event)) <==>
            expected == s.orgs.revision && NewEvent(s.orgs.events, event) && MayEnter(s.orgs.items, o)
  {
    var change := OrganizationAddedTo(s.orgs.items, o);
    OrganizationCommits(s, expected, event, change);
    CommitOrganizations(s, s.orgs.items + [o], event);
    EntersOk(s.orgs.items, o);
    forall i | 0 <= i < |s.reg.items| ensures VersionOk(s.orgs.items + [o], s.reg.items[i]) {
      assert VersionOk(s.orgs.items, s.reg.items[i]);
      GrownOrganizations(s.orgs.items, s.orgs.items + [o], s.reg.items[i]);
    }
    if FindOrganization(s.orgs.items, o.id).Some? {
      var at := FindOrganization(s.orgs.items, o.id).value;
      assert !Unambiguous(s.orgs.items[at], o);
    }
  }

  lemma {:induction false} AddOrganizationEffect(s: State, o: Organization, expected: int, event: string, s': State)
    requires IsValid(s) && Commits(s, Call(AddOrganization(o), expected, event), s')
    ensures s'.reg == s.reg && Logged(s.orgs, s'.orgs, event) && s'.orgs.items == s.orgs.items + [o]
  {
  }

  /** An active version comes from this organization. */
  ghost predicate BehindActive(vs: seq<Version>, id: string) {
    exists i, k :: 0 <= i < |vs| && vs[i].status == Active && 0 <= k < |vs[i].occurrences| && vs[i].occurrences[k].organization == id
  }

  ghost predicate SomeOrganization(orgs: seq<Organization>, id: string, at: nat) { at < |orgs| && orgs[at].id == id }

  lemma {:induction false} OneOrganization(orgs: seq<Organization>, i: nat, j: nat)
    requires OrganizationsOk(orgs) && i < |orgs| && j < |orgs| && orgs[i].id == orgs[j].id
    ensures i == j
  {
    assert i < j ==> Unambiguous(orgs[i], orgs[j]);
    assert j < i ==> Unambiguous(orgs[j], orgs[i]);
  }

  function WithStatus(orgs: seq<Organization>, at: nat, status: OrgStatus): seq<Organization>
    requires at < |orgs|
  {
    orgs[at := orgs[at].(status := status)]
  }

  lemma {:induction false} StatusOrganizations(orgs: seq<Organization>, at: nat, status: OrgStatus)
    requires OrganizationsOk(orgs) && at < |orgs|
    ensures OrganizationsOk(WithStatus(orgs, at, status))
    ensures forall id :: Known(WithStatus(orgs, at, status), id) <==> Known(orgs, id)
    ensures forall id :: id != orgs[at].id ==> (IsApproved(WithStatus(orgs, at, status), id) <==> IsApproved(orgs, id))
    ensures IsApproved(WithStatus(orgs, at, status), orgs[at].id) <==> status == Approved
  {
    var ws := WithStatus(orgs, at, status);
    forall i, j | 0 <= i < j < |ws| ensures Unambiguous(ws[i], ws[j]) { assert Unambiguous(orgs[i], orgs[j]); }
    assert forall i :: 0 <= i < |orgs| ==> ws[i].id == orgs[i].id && (i != at ==> ws[i] == orgs[i]);
    if status != Approved {
      forall i | 0 <= i < |ws| ensures !(ws[i].id == orgs[at].id && ws[i].status == Approved) {
        if ws[i].id == orgs[at].id { OneOrganization(orgs, i, at); }
      }
    }
    assert ws[at].status == status;
  }

  /** A version stands under the changed status exactly when it is not active or does not come from
      an organization that is not approved any more. */
  lemma {:induction false} StatusVersionOk(orgs: seq<Organization>, at: nat, status: OrgStatus, v: Version)
    requires OrganizationsOk(orgs) && at < |orgs| && VersionOk(orgs, v)
    ensures VersionOk(WithStatus(orgs, at, status), v) <==>
            (v.status == Active && status != Approved ==>
               forall k :: 0 <= k < |v.occurrences| ==> v.occurrences[k].organization != orgs[at].id)
  {
    StatusOrganizations(orgs, at, status);
  }

  ghost predicate MayRate(s: State, at: nat, status: OrgStatus)
    requires at < |s.orgs.items|
  {
    s.orgs.items[at].status != status && (status != Approved ==> !BehindActive(s.reg.items, s.orgs.items[at].id))
  }

  lemma {:induction false} RateKnown(s: State, id: string, at: nat, status: OrgStatus, expected: int, event: string)
    requires IsValid(s) && FindOrganization(s.orgs.items, id) == Some(at)
    ensures SomethingCommits(s, Call(SetOrganizationStatus(id, status), expected, event)) <==>
            expected == s.orgs.revision && NewEvent(s.orgs.events, event) && MayRate(s, at, status)
  {
    var ws := WithStatus(s.orgs.items, at, status);
    OrganizationCommits(s, expected, event, OrganizationStatusSet(s.orgs.items, id, status));
    CommitOrganizations(s, ws, event);
    StatusOrganizations(s.orgs.items, at, status);
    forall i | 0 <= i < |s.reg.items|
      ensures VersionOk(ws, s.reg.items[i]) <==>
              (s.reg.items[i].status == Active && status != Approved ==>
                 forall k :: 0 <= k < |s.reg.items[i].occurrences| ==> s.reg.items[i].occurrences[k].organization != id)
    {
      assert VersionOk(s.orgs.items, s.reg.items[i]);
      StatusVersionOk(s.orgs.items, at, status, s.reg.items[i]);
    }
  }

  /** An organization's status changes exactly when it is another one and, unless it is approval, no
      active version comes from the organization. */
  lemma {:induction false} SetOrganizationStatusExactly(s: State, id: string, status: OrgStatus, expected: int, event: string)
    requires IsValid(s)
    ensures SomethingCommits(s, Call(SetOrganizationStatus(id, status), expected, event)) <==>
              && expected == s.orgs.revision && NewEvent(s.orgs.events, event)
              && exists at: nat :: SomeOrganization(s.orgs.items, id, at) && MayRate(s, at, status)
  {
    var at := FindOrganization(s.orgs.items, id);
    if at.Some? {
      RateKnown(s, id, at.value, status, expected, event);
      forall n: nat | SomeOrganization(s.orgs.items, id, n) ensures n == at.value { OneOrganization(s.orgs.items, n, at.value); }
      assert SomeOrganization(s.orgs.items, id, at.value);
    }
  }

  lemma {:induction false} SetOrganizationStatusEffect(s: State, id: string, status: OrgStatus, expected: int, event: string,
                                                       s': State, at: nat)
    requires IsValid(s) && Commits(s, Call(SetOrganizationStatus(id, status), expected, event), s')
    requires at < |s.orgs.items| && s.orgs.items[at].id == id
    ensures s'.reg == s.reg && Logged(s.orgs, s'.orgs, event)
    ensures Edited(s.orgs.items, s'.orgs.items, at, s.orgs.items[at].(status := status))
  {
    OneOrganization(s.orgs.items, at, FindOrganization(s.orgs.items, id).value);
  }

  // ----- what every run keeps, in the same words --------------------------------------------------------------------------

  lemma {:induction false} OccurrencesApart(vs: seq<Version>, i: nat, j: nat, n: nat, m: nat)
    requires Distinct(OccurrenceIds(vs)) && i < |vs| && j < |vs| && n < |vs[i].occurrences| && m < |vs[j].occurrences|
    ensures vs[i].occurrences[n].id == vs[j].occurrences[m].id ==> i == j && n == m
  {
    var last := |vs| - 1;
    var front, own := vs[..last], IdsOf(vs[last].occurrences);
    DistinctBoth(OccurrenceIds(front), own);
    if i < last && j < last {
      OccurrencesApart(front, i, j, n, m);
    } else if i == last && j == last {
      assert (n < m ==> own[n] != own[m]) && (m < n ==> own[m] != own[n]);
    } else if i == last {
      UsedOnce(front, own[n]);
      assert own[n] !in OccurrenceIds(front) && front[j] == vs[j];
    } else {
      UsedOnce(front, own[m]);
      assert own[m] !in OccurrenceIds(front) && front[i] == vs[i];
    }
  }

  /** In every state of every run each version is in order, two versions share neither id, resource,
      content, active place nor occurrence id, and a named predecessor is registered for the same
      document. */
  lemma {:induction false} RunOrderly(ss: seq<State>, calls: seq<Call>, k: nat, i: nat, j: nat)
    requires Run(ss, calls) && k < |ss| && i < |ss[k].reg.items| && j < |ss[k].reg.items|
    ensures var (v, w) := (ss[k].reg.items[i], ss[k].reg.items[j]);
            && InOrder(ss[k].orgs.items, v) && KnownPredecessor(ss[k].reg.items, v) && (i != j ==> Apart(v, w))
            && forall n, m :: 0 <= n < |v.occurrences| && 0 <= m < |w.occurrences| && v.occurrences[n].id == w.occurrences[m].id
                 ==> i == j && n == m
  {
    RunValid(ss, calls, k);
    var vs := ss[k].reg.items;
    RulesSpelledOut(ss[k].orgs.items, vs[j], vs[i]);
    RulesSpelledOut(ss[k].orgs.items, vs[i], vs[j]);
    assert VersionOk(ss[k].orgs.items, vs[i]) && LinkOk(vs, vs[i]);
    assert i < j ==> Compatible(vs[i], vs[j]);
    assert j < i ==> Compatible(vs[j], vs[i]);
    forall n: nat, m: nat | n < |vs[i].occurrences| && m < |vs[j].occurrences|
      ensures vs[i].occurrences[n].id == vs[j].occurrences[m].id ==> i == j && n == m
    {
      OccurrencesApart(vs, i, j, n, m);
    }
  }
}
