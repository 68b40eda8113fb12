/** When activation succeeds, what it changes, and what every run of mutations keeps. */
module GovernanceRuns {
  import opened Basics
  import opened Supersedes
  import opened Governance
  import opened GovernanceOps

  // ----- activation: exactly when --------------------------------------------------------------

  /** Everything a caller can check beforehand. `prior` is the version now active. */
  ghost predicate MayActivate(s: State, id: string, expected: int, event: string) {
    var at := Find(s.reg.items, id);
    && expected == s.reg.revision && NewEvent(s.reg.events, event)
    && at.Some? && Eligible(s.orgs.items, s.reg.items[at.value])
    && var c := Current(s.reg.items, s.reg.items[at.value].document, id);
       c.Some? ==> MaySucceed(s.reg.items, s.reg.items[at.value], s.reg.items[c.value].id)
  }

  ghost predicate NewEvent(events: seq<Event>, event: string) {
    forall i :: 0 <= i < |events| ==> events[i].id != event
  }

  predicate Eligible(orgs: seq<Organization>, t: Version) {
    t.status != Active && t.status != Withdrawn && t.processing == Completed && AllApproved(orgs, t)
  }

  ghost predicate MaySucceed(vs: seq<Version>, t: Version, prior: string) {
    (t.supersedes == None || t.supersedes == Some(prior)) && !Reaches(ChainOf(vs), prior, t.id)
  }

  ghost predicate DistinctVersions(vs: seq<Version>) {
    forall i, j :: 0 <= i < j < |vs| ==> vs[i].id != vs[j].id
  }

  lemma {:induction false} ChainEntry(vs: seq<Version>, i: nat)
    requires DistinctVersions(vs) && i < |vs|
    ensures ChainOf(vs)[vs[i].id] == Link(vs[i])
  {
    var last := |vs| - 1;
    if i < last {
      assert vs[..last][i] == vs[i];
      ChainEntry(vs[..last], i);
    }
  }

  /** The same versions with one supersedes link rewritten. */
  lemma {:induction false} ChainUpdated(vs: seq<Version>, ws: seq<Version>, at: nat)
    requires DistinctVersions(vs) && |ws| == |vs| && at < |vs|
    requires forall i :: 0 <= i < |vs| ==> ws[i].id == vs[i].id && (i != at ==> Link(ws[i]) == Link(vs[i]))
    ensures ChainOf(ws) == ChainOf(vs)[vs[at].id := Link(ws[at])]
  {
    var g, h := ChainOf(vs)[vs[at].id := Link(ws[at])], ChainOf(ws);
    forall id ensures id in g <==> id in h {
      if id in h { var i :| 0 <= i < |ws| && ws[i].id == id; assert vs[i].id == id; }
      if id in g { var i :| 0 <= i < |vs| && vs[i].id == id; assert ws[i].id == id; }
    }
    forall id | id in h ensures g[id] == h[id] {
      var i :| 0 <= i < |ws| && ws[i].id == id;
      ChainEntry(vs, i);
      ChainEntry(ws, i);
    }
  }

  /** Versions that agree on everything the pairwise and link checks read. */
  ghost predicate SameExceptStatus(vs: seq<Version>, ws: seq<Version>) {
    |vs| == |ws| && forall i :: 0 <= i < |vs| ==> SameIdentity(vs[i], ws[i]) && vs[i].occurrences == ws[i].occurrences
                                                  && vs[i].wellFormed == ws[i].wellFormed
  }

  predicate SameIdentity(a: Version, b: Version) {
    a.id == b.id && a.document == b.document && a.resource == b.resource && a.hash == b.hash
  }

  lemma {:induction false} SameOccurrences(vs: seq<Version>, ws: seq<Version>)
    requires SameExceptStatus(vs, ws)
    ensures OccurrenceIds(ws) == OccurrenceIds(vs)
  {
    if vs != [] { SameOccurrences(vs[..|vs| - 1], ws[..|ws| - 1]); }
  }

  /** At most the target is active for its document afterwards. */
  ghost predicate ActivesFollow(vs: seq<Version>, ws: seq<Version>, at: nat) {
    |vs| == |ws| && at < |ws|
    && (forall i :: 0 <= i < |vs| && i != at ==> ws[i].status == Active ==> vs[i].status == Active)
    && (forall i :: 0 <= i < |vs| && i != at && ws[i].document == ws[at].document ==> ws[i].status != Active)
  }

  lemma {:induction false} StillVersionsOk(orgs: seq<Organization>, vs: seq<Version>, ws: seq<Version>, at: nat)
    requires VersionsOk(orgs, vs) && SameExceptStatus(vs, ws) && ActivesFollow(vs, ws, at)
    requires forall i :: 0 <= i < |vs| && i != at ==> ws[i].processing == vs[i].processing
    requires ws[at].processing == Completed && AllApproved(orgs, ws[at])
    ensures VersionsOk(orgs, ws)
  {
    SameOccurrences(vs, ws);
    forall i | 0 <= i < |ws| ensures VersionOk(orgs, ws[i]) { assert VersionOk(orgs, vs[i]); }
    forall i, j | 0 <= i < j < |ws| ensures Compatible(ws[i], ws[j]) { assert Compatible(vs[i], vs[j]); }
  }

  lemma {:induction false} OneEventMore(events: seq<Event>, revision: nat, event: string)
    requires EventsOk(events, revision)
    ensures EventsOk(events + [Event(event, revision + 1, true)], revision + 1) <==> NewEvent(events, event)
  {
    var more := events + [Event(event, revision + 1, true)];
    assert more[|events|].id == event && forall i :: 0 <= i < |events| ==> more[i] == events[i];
  }

  /** What activating `at` makes of the versions when `c` is the version now active. */
  function Promoted(vs: seq<Version>, at: nat, c: Option<nat>): seq<Version>
    requires at < |vs| && (c.Some? ==> c.value < |vs|)
  {
    if c.None? then vs[at := vs[at].(status := Active)]
    else vs[c.value := vs[c.value].(status := Superseded)]
           [at := vs[at].(status := Active, supersedes := Some(vs[c.value].id))]
  }

  lemma {:induction false} PromotedVersions(orgs: seq<Organization>, vs: seq<Version>, at: nat, c: Option<nat>)
    requires VersionsOk(orgs, vs) && at < |vs| && Eligible(orgs, vs[at]) && c == Current(vs, vs[at].document, vs[at].id)
    ensures VersionsOk(orgs, Promoted(vs, at, c))
    ensures c.Some? ==> c.value != at
  {
    var ws := Promoted(vs, at, c);
    forall i | 0 <= i < |vs| && i != at && ws[i].document == ws[at].document ensures ws[i].status != Active {
      OnlyCurrent(orgs, vs, at, c, i);
    }
    StillVersionsOk(orgs, vs, ws, at);
  }

  /** The version found active is the only one of its document. */
  lemma {:induction false} OnlyCurrent(orgs: seq<Organization>, vs: seq<Version>, at: nat, c: Option<nat>, i: nat)
    requires VersionsOk(orgs, vs) && at < |vs| && c == Current(vs, vs[at].document, vs[at].id)
    requires i < |vs| && i != at && vs[i].document == vs[at].document
    ensures vs[i].status == Active <==> c == Some(i)
  {
    PairCompatible(orgs, vs, i, at);
    assert vs[i].status == Active ==> IsCurrent(vs[i], vs[at].document, vs[at].id);
    if c.Some? && c.value != i { PairCompatible(orgs, vs, i, c.value); }
  }

  lemma {:induction false} PairCompatible(orgs: seq<Organization>, vs: seq<Version>, i: nat, j: nat)
    requires VersionsOk(orgs, vs) && i < |vs| && j < |vs| && i != j
    ensures Compatible(vs[i], vs[j])
  {
    if i < j { assert Compatible(vs[i], vs[j]); } else { assert Compatible(vs[j], vs[i]); }
  }

  lemma {:induction false} PromotedLinks(orgs: seq<Organization>, vs: seq<Version>, at: nat, c: Option<nat>)
    requires VersionsOk(orgs, vs) && LinksOk(vs) && at < |vs| && c == Current(vs, vs[at].document, vs[at].id)
    ensures LinksOk(Promoted(vs, at, c))
  {
    var ws := Promoted(vs, at, c);
    assert forall j :: 0 <= j < |vs| ==> SameIdentity(vs[j], ws[j]);
    forall i | 0 <= i < |ws| ensures LinkOk(ws, ws[i]) {
      assert LinkOk(vs, vs[i]);
      if i == at && c.Some? {
        assert ws[c.value].id == vs[c.value].id && ws[c.value].document == vs[at].document;
      } else if Link(ws[i]).Some? {
        var j :| 0 <= j < |vs| && vs[j].id == Link(vs[i]).value && vs[j].document == vs[i].document;
        assert ws[j].id == Link(ws[i]).value;
      }
    }
  }

  lemma {:induction false} PromotedChain(vs: seq<Version>, at: nat, c: Option<nat>)
    requires DistinctVersions(vs) && Acyclic(ChainOf(vs)) && at < |vs| && c == Current(vs, vs[at].document, vs[at].id)
    requires forall i :: 0 <= i < |vs| ==> vs[i].id != ""
    ensures Acyclic(ChainOf(Promoted(vs, at, c)))
            <==> (c.Some? ==> !Reaches(ChainOf(vs), vs[c.value].id, vs[at].id))
  {
    if c.None? {
      PromotedKeepsChain(vs, at);
    } else {
      PromotedOverChain(vs, at, c.value);
      NewEdgeAcyclic(ChainOf(vs), vs[at].id, vs[c.value].id);
    }
  }

  lemma {:induction false} PromotedKeepsChain(vs: seq<Version>, at: nat)
    requires DistinctVersions(vs) && at < |vs|
    ensures ChainOf(Promoted(vs, at, None)) == ChainOf(vs)
  {
    ChainEntry(vs, at);
    ChainUpdated(vs, Promoted(vs, at, None), at);
  }

  lemma {:induction false} PromotedOverChain(vs: seq<Version>, at: nat, c: nat)
    requires DistinctVersions(vs) && at < |vs| && c < |vs| && c != at && vs[c].id != ""
    ensures ChainOf(Promoted(vs, at, Some(c))) == ChainOf(vs)[vs[at].id := Some(vs[c].id)]
    ensures vs[at].id in ChainOf(vs) && vs[c].id in ChainOf(vs)
  {
    var ws := Promoted(vs, at, Some(c));
    ChainUpdated(vs, ws, at);
    assert Link(ws[at]) == Some(vs[c].id);
  }

  lemma {:induction false} IdsDiffer(orgs: seq<Organization>, vs: seq<Version>)
    requires VersionsOk(orgs, vs)
    ensures DistinctVersions(vs) && forall i :: 0 <= i < |vs| ==> vs[i].id != ""
  {
    forall i | 0 <= i < |vs| ensures vs[i].id != "" { assert VersionOk(orgs, vs[i]); }
    forall i, j | 0 <= i < j < |vs| ensures vs[i].id != vs[j].id { assert Compatible(vs[i], vs[j]); }
  }

  lemma {:induction false} ActivatedPromotes(orgs: seq<Organization>, vs: seq<Version>, id: string)
    ensures var change := Activated(orgs, vs, id);
            var at := Find(vs, id);
            change.Changed? <==>
              at.Some? && Eligible(orgs, vs[at.value])
              && var c := Current(vs, vs[at.value].document, id);
                 c.Some? ==> vs[at.value].supersedes == None || vs[at.value].supersedes == Some(vs[c.value].id)
    ensures Activated(orgs, vs, id).Changed? ==>
              var at := Find(vs, id).value;
              Activated(orgs, vs, id).items == Promoted(vs, at, Current(vs, vs[at].document, id))
  {
  }

  /** On a valid state, activation changes the state exactly under these conditions; otherwise
      it is refused, or the version was already active and nothing changes. */
  lemma {:induction false} ActivateExactly(s: State, id: string, expected: int, event: string)
    requires IsValid(s)
    ensures var next := AfterVersions(s, expected, event, Activated(s.orgs.items, s.reg.items, id));
            (next.Some? && next.value != s) <==> MayActivate(s, id, expected, event)
  {
    var change := Activated(s.orgs.items, s.reg.items, id);
    ActivatedPromotes(s.orgs.items, s.reg.items, id);
    CommitsExactly(s, expected, event, change);
    var at := Find(s.reg.items, id);
    if at.Some? && Eligible(s.orgs.items, s.reg.items[at.value]) { PromotedValid(s, at.value, event); }
  }

  /** A mutation of the versions changes a valid state exactly when it has something to commit, at
      the expected revision, and the result is valid. */
  lemma {:induction false} CommitsExactly(s: State, expected: int, event: string, change: Change<Version>)
    requires IsValid(s)
    ensures var next := AfterVersions(s, expected, event, change);
            (next.Some? && next.value != s)
            <==> expected == s.reg.revision && change.Changed? && IsValid(s.(reg := Commit(s.reg, change.items, event)))
  {
  }

  lemma {:induction false} PromotedValid(s: State, at: nat, event: string)
    requires IsValid(s) && at < |s.reg.items| && Eligible(s.orgs.items, s.reg.items[at])
    ensures var c := Current(s.reg.items, s.reg.items[at].document, s.reg.items[at].id);
            IsValid(s.(reg := Commit(s.reg, Promoted(s.reg.items, at, c), event)))
            <==> (NewEvent(s.reg.events, event)
                  && (c.Some? ==> !Reaches(ChainOf(s.reg.items), s.reg.items[c.value].id, s.reg.items[at].id)))
  {
    var vs, orgs := s.reg.items, s.orgs.items;
    var c := Current(vs, vs[at].document, vs[at].id);
    IdsDiffer(orgs, vs);
    PromotedVersions(orgs, vs, at, c);
    PromotedLinks(orgs, vs, at, c);
    PromotedChain(vs, at, c);
    OneEventMore(s.reg.events, s.reg.revision, event);
  }

  /** After an activation the target is the only active version of its document, it names the
      version that was active before, which is superseded, and no other version changed. */
  lemma {:induction false} ActivationEffect(s: State, id: string, expected: int, event: string, s': State, at: nat, i: nat)
    requires IsValid(s) && AfterVersions(s, expected, event, Activated(s.orgs.items, s.reg.items, id)) == Some(s') && s' != s
    requires Find(s.reg.items, id) == Some(at) && i < |s.reg.items|
    ensures s'.orgs == s.orgs && |s'.reg.items| == |s.reg.items| && s'.reg.revision == s.reg.revision + 1
    ensures var v, w, t := s.reg.items[i], s'.reg.items[i], s.reg.items[at];
            && (i == at ==> w.status == Active && SameIdentity(v, w))
            && (i != at && v.document == t.document && v.status == Active ==>
                  w == v.(status := Superseded) && s'.reg.items[at].supersedes == Some(v.id))
            && (i != at && !(v.document == t.document && v.status == Active) ==> w == v)
    ensures s'.reg.items[i].status == Active && s'.reg.items[i].document == s.reg.items[at].document <==> i == at
  {
    var vs, orgs := s.reg.items, s.orgs.items;
    ActivateExactly(s, id, expected, event);
    var c := Current(vs, vs[at].document, id);
    assert s'.reg.items == Promoted(vs, at, c);
    if i != at && vs[i].document == vs[at].document { OnlyCurrent(orgs, vs, at, c, i); }
    if c.Some? { assert c.value != at; }
  }

  // ----- refusals that keep active versions sound ------------------------------------------------

  /** An organization behind an active version cannot be demoted. */
  lemma {:induction false} DemotionRefused(s: State, i: nat, k: nat, status: OrgStatus, expected: int, event: string)
    requires IsValid(s) && i < |s.reg.items| && s.reg.items[i].status == Active
    requires k < |s.reg.items[i].occurrences| && status != Approved
    ensures AfterOrganizations(s, expected, event,
              OrganizationStatusSet(s.orgs.items, s.reg.items[i].occurrences[k].organization, status)).None?
  {
    var id := s.reg.items[i].occurrences[k].organization;
    var change := OrganizationStatusSet(s.orgs.items, id, status);
    assert VersionOk(s.orgs.items, s.reg.items[i]);
    assert IsApproved(s.orgs.items, id);
    var j :| 0 <= j < |s.orgs.items| && s.orgs.items[j].id == id && s.orgs.items[j].status == Approved;
    var at := FindOrganization(s.orgs.items, id).value;
    assert at < j ==> Unambiguous(s.orgs.items[at], s.orgs.items[j]);
    assert j < at ==> Unambiguous(s.orgs.items[j], s.orgs.items[at]);
    assert change == Changed(s.orgs.items[at := s.orgs.items[at].(status := status)]);
    forall n | 0 <= n < |change.items| ensures !(change.items[n].id == id && change.items[n].status == Approved) {
      assert n < at ==> Unambiguous(s.orgs.items[n], s.orgs.items[at]);
      assert at < n ==> Unambiguous(s.orgs.items[at], s.orgs.items[n]);
    }
    assert !IsApproved(change.items, id);
    assert !VersionOk(change.items, s.reg.items[i]);
  }

  /** Processing of an active version cannot be reopened or failed. */
  lemma {:induction false} ActiveStaysCompleted(s: State, i: nat, hash: string, expected: int, event: string)
    requires IsValid(s) && i < |s.reg.items| && s.reg.items[i].status == Active
    ensures AfterVersions(s, expected, event, IngestFinished(s.reg.items, s.reg.items[i].id, hash, Failed)).None?
  {
    var id := s.reg.items[i].id;
    var change := IngestFinished(s.reg.items, id, hash, Failed);
    assert VersionOk(s.orgs.items, s.reg.items[i]);
    var at := Find(s.reg.items, id).value;
    assert at < i ==> Compatible(s.reg.items[at], s.reg.items[i]);
    if change.Changed? { assert !VersionOk(s.orgs.items, change.items[i]); }
  }

  // ----- runs ----------------------------------------------------------------------------------------

  datatype Command =
    | Register(version: Version)
    | AddSource(id: string, source: Occurrence)
    | SetStatus(id: string, processing: Option<Processing>, status: Option<Status>, authority: Option<Authority>)
    | FinishIngest(id: string, hash: string, result: Processing)
    | Activate(id: string)
    | AddOrganization(org: Organization)
    | SetOrganizationStatus(id: string, orgStatus: OrgStatus)

  datatype Call = Call(command: Command, expected: int, event: string)

  predicate OnOrganizations(c: Command) { c.AddOrganization? || c.SetOrganizationStatus? }

  function VersionChange(orgs: seq<Organization>, vs: seq<Version>, c: Command): Change<Version> {
    match c
    case Register(v) => Registered(vs, v)
    case AddSource(id, o) => SourceAdded(vs, id, o)
    case SetStatus(id, p, st, a) => StatusSet(vs, id, p, st, a)
    case FinishIngest(id, hash, p) => IngestFinished(vs, id, hash, p)
    case Activate(id) => Activated(orgs, vs, id)
    case _ => Unchanged
  }

  function OrganizationChange(orgs: seq<Organization>, c: Command): Change<Organization> {
    match c
    case AddOrganization(org) => OrganizationAddedTo(orgs, org)
    case SetOrganizationStatus(id, st) => OrganizationStatusSet(orgs, id, st)
    case _ => Unchanged
  }

  ghost function After(s: State, call: Call): Option<State> {
    if OnOrganizations(call.command) then
      AfterOrganizations(s, call.expected, call.event, OrganizationChange(s.orgs.items, call.command))
    else
      AfterVersions(s, call.expected, call.event, VersionChange(s.orgs.items, s.reg.items, call.command))
  }

  /** A run from the empty registry; refused calls change nothing and are left out. */
  ghost predicate Run(ss: seq<State>, calls: seq<Call>) {
    && |ss| == |calls| + 1 && ss[0] == EMPTY
    && forall i {:trigger calls[i]} :: 0 <= i < |calls| ==> After(ss[i], calls[i]) == Some(ss[i + 1])
  }

  lemma {:induction false} EmptyValid()
    ensures IsValid(EMPTY)
  {
    assert Ranks(ChainOf([]), map[]);
  }

  lemma {:induction false} RunValid(ss: seq<State>, calls: seq<Call>, k: nat)
    requires Run(ss, calls) && k < |ss|
    ensures IsValid(ss[k])
  {
    if k == 0 {
      EmptyValid();
    } else {
      RunValid(ss, calls, k - 1);
      assert After(ss[k - 1], calls[k - 1]) == Some(ss[k]);
    }
  }

  ghost predicate Numbered<T>(r: Registry<T>) {
    r.revision == |r.events| && forall i :: 0 <= i < |r.events| ==> r.events[i].revision == i + 1
  }

  /** Revisions count the events of each registry, and event `i` carries revision `i + 1`. */
  lemma {:induction false} RevisionsCountEvents(ss: seq<State>, calls: seq<Call>, k: nat)
    requires Run(ss, calls) && k < |ss|
    ensures Numbered(ss[k].orgs) && Numbered(ss[k].reg)
  {
    if k > 0 {
      RevisionsCountEvents(ss, calls, k - 1);
      assert After(ss[k - 1], calls[k - 1]) == Some(ss[k]);
    }
  }

  /** In every state of every run: one active version per document at most, each of them completed
      with every source organization approved, and no two versions with one resource or content. */
  lemma {:induction false} RunSound(ss: seq<State>, calls: seq<Call>, k: nat, i: nat, j: nat)
    requires Run(ss, calls) && k < |ss| && i < |ss[k].reg.items| && j < |ss[k].reg.items|
    ensures var (v, w) := (ss[k].reg.items[i], ss[k].reg.items[j]);
            && (v.status == Active ==> v.processing == Completed && AllApproved(ss[k].orgs.items, v))
            && (v.status == Active && w.status == Active && v.document == w.document ==> i == j)
            && (v.resource == w.resource || v.hash == w.hash || v.id == w.id ==> i == j)
  {
    RunValid(ss, calls, k);
    var vs := ss[k].reg.items;
    assert VersionOk(ss[k].orgs.items, vs[i]);
    assert i < j ==> Compatible(vs[i], vs[j]);
    assert j < i ==> Compatible(vs[j], vs[i]);
  }

  /** A registered version keeps its place, identity and content, and its sources only grow. */
  ghost predicate Extends(vs: seq<Version>, ws: seq<Version>) {
    |vs| <= |ws| && forall i :: 0 <= i < |vs| ==> SameIdentity(vs[i], ws[i]) && vs[i].occurrences <= ws[i].occurrences
  }

  lemma {:induction false} EditExtends(vs: seq<Version>, at: nat, w: Version)
    requires at < |vs| && SameIdentity(vs[at], w) && vs[at].occurrences <= w.occurrences
    ensures Extends(vs, vs[at := w])
  {
  }

  lemma {:induction false} ActivatedExtends(orgs: seq<Organization>, vs: seq<Version>, id: string)
    ensures Activated(orgs, vs, id).Changed? ==> Extends(vs, Activated(orgs, vs, id).items)
  {
  }

  lemma {:induction false} ChangeExtends(orgs: seq<Organization>, vs: seq<Version>, c: Command, ws: seq<Version>)
    requires VersionChange(orgs, vs, c) == Changed(ws)
    ensures Extends(vs, ws)
  {
    match c {
      case Register(v) => RegisteredAppends(vs, v, 0);
      case AddSource(id, o) =>
        var at := Find(vs, id).value;
        EditExtends(vs, at, vs[at].(occurrences := vs[at].occurrences + [o]));
      case SetStatus(id, p, st, a) => EditExtends(vs, Find(vs, id).value, ws[Find(vs, id).value]);
      case FinishIngest(id, hash, p) => EditExtends(vs, Find(vs, id).value, ws[Find(vs, id).value]);
      case Activate(id) => ActivatedExtends(orgs, vs, id);
      case _ =>
    }
  }

  lemma {:induction false} StepExtends(s: State, call: Call, s': State)
    requires After(s, call) == Some(s')
    ensures Extends(s.reg.items, s'.reg.items)
  {
    if s'.reg.items != s.reg.items { ChangeExtends(s.orgs.items, s.reg.items, call.command, s'.reg.items); }
  }

  lemma {:induction false} RegisteredAppends(vs: seq<Version>, v: Version, i: nat)
    requires i <= |vs|
    ensures RegisteredFrom(vs, v, i).Changed? ==> RegisteredFrom(vs, v, i).items == vs + [v]
    decreases |vs| - i
  {
    if i < |vs| { RegisteredAppends(vs, v, i + 1); }
  }

  ghost predicate ExtendsAt(ss: seq<State>, m: nat)
    requires m + 1 < |ss|
  {
    Extends(ss[m].reg.items, ss[m + 1].reg.items)
  }

  lemma {:induction false} ExtendsOnward(ss: seq<State>, k: nat, n: nat)
    requires k <= n < |ss|
    requires forall m: nat {:trigger ExtendsAt(ss, m)} :: k <= m < n ==> ExtendsAt(ss, m)
    ensures Extends(ss[k].reg.items, ss[n].reg.items)
    decreases n
  {
    if k < n {
      ExtendsOnward(ss, k, n - 1);
      assert ExtendsAt(ss, n - 1);
    }
  }

  /** Registered versions are immutable: nothing in a later state of the run contradicts an earlier one. */
  lemma {:induction false} VersionsImmutable(ss: seq<State>, calls: seq<Call>, k: nat, n: nat)
    requires Run(ss, calls) && k <= n < |ss|
    ensures Extends(ss[k].reg.items, ss[n].reg.items)
  {
    forall m: nat | k <= m < n ensures ExtendsAt(ss, m) { StepExtends(ss[m], calls[m], ss[m + 1]); }
    ExtendsOnward(ss, k, n);
  }
}
