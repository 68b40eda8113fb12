/** The governance state and its validator. Checks of one field's format (identifiers, hashes,
    timestamps, URIs, required text) are folded into the `wellFormed` flag of the item. */
module Governance {
  import opened Basics
  import opened Supersedes

  datatype OrgStatus = OrgCandidate | Approved | Retired

  /** `labels` are the name and aliases, stripped and case-folded. */
  datatype Organization = Organization(id: string, labels: seq<string>, status: OrgStatus, wellFormed: bool)

  datatype Processing = Unprocessed | InProcess | Completed | Failed
  datatype Status = Candidate | Active | Superseded | Withdrawn | Unknown
  datatype Authority = Official | Reference | Draft | Unofficial | Unrated

  datatype Occurrence = Occurrence(id: string, organization: string, wellFormed: bool)

  /** One immutable document version. An empty `supersedes_version_id` is kept as it is: it links
      to nothing, but it is a declared predecessor. */
  datatype Version = Version(document: string, id: string, resource: string, hash: string,
                             processing: Processing, status: Status, authority: Authority,
                             occurrences: seq<Occurrence>, supersedes: Option<string>, wellFormed: bool)

  /** The version named by the supersedes field, if it names one. */
  function Link(v: Version): Option<string> { if v.supersedes == Some("") then None else v.supersedes }

  datatype Event = Event(id: string, revision: int, wellFormed: bool)

  datatype Registry<T> = Registry(items: seq<T>, revision: nat, events: seq<Event>)

  type Organizations = Registry<Organization>
  type Versions = Registry<Version>

  datatype Issue =
    | Malformed(at: nat) | DuplicateId(at: nat) | LabelConflict(at: nat) | BadRevision(at: nat)
    | SharedResource(at: nat) | SharedContent(at: nat) | SecondActive(at: nat) | ActiveNotCompleted(at: nat)
    | NoOccurrence(at: nat) | DuplicateOccurrence(at: nat) | UnknownOrganization(at: nat) | ActiveUnapproved(at: nat)
    | UnknownSuperseded(at: nat) | CrossDocument(at: nat) | VersionCycle

  // ----- what a valid state is ---------------------------------------------------------------

  ghost predicate OrganizationsOk(orgs: seq<Organization>) {
    && (forall i :: 0 <= i < |orgs| ==> orgs[i].wellFormed)
    && (forall i, j :: 0 <= i < j < |orgs| ==> Unambiguous(orgs[i], orgs[j]))
  }

  ghost predicate Unambiguous(a: Organization, b: Organization) {
    a.id != b.id && forall l :: l in a.labels ==> l !in b.labels
  }

  ghost predicate EventsOk(events: seq<Event>, revision: nat) {
    && (forall i :: 0 <= i < |events| ==> events[i].wellFormed && 1 <= events[i].revision <= revision)
    && (forall i, j :: 0 <= i < j < |events| ==> events[i].id != events[j].id)
  }

  predicate Known(orgs: seq<Organization>, id: string) { exists i :: 0 <= i < |orgs| && orgs[i].id == id }

  predicate IsApproved(orgs: seq<Organization>, id: string) {
    exists i :: 0 <= i < |orgs| && orgs[i].id == id && orgs[i].status == Approved
  }

  /** What must hold of one version by itself. */
  ghost predicate VersionOk(orgs: seq<Organization>, v: Version) {
    && v.wellFormed && v.id != "" && v.occurrences != []
    && (forall i :: 0 <= i < |v.occurrences| ==> v.occurrences[i].wellFormed && Known(orgs, v.occurrences[i].organization))
    && (v.status == Active ==> v.processing == Completed && AllApproved(orgs, v))
  }

  predicate AllApproved(orgs: seq<Organization>, v: Version) {
    forall i :: 0 <= i < |v.occurrences| ==> IsApproved(orgs, v.occurrences[i].organization)
  }

  /** What must hold between two versions. */
  ghost predicate Compatible(a: Version, b: Version) {
    && a.id != b.id && a.resource != b.resource && a.hash != b.hash
    && !(a.status == Active && b.status == Active && a.document == b.document)
  }

  ghost predicate VersionsOk(orgs: seq<Organization>, vs: seq<Version>) {
    && (forall i :: 0 <= i < |vs| ==> VersionOk(orgs, vs[i]))
    && (forall i, j :: 0 <= i < j < |vs| ==> Compatible(vs[i], vs[j]))
    && Distinct(OccurrenceIds(vs))
  }

  function IdsOf(occurrences: seq<Occurrence>): (ids: seq<string>)
    ensures |ids| == |occurrences| && forall i :: 0 <= i < |ids| ==> ids[i] == occurrences[i].id
  {
    seq(|occurrences|, i requires 0 <= i < |occurrences| => occurrences[i].id)
  }

  /** All occurrence ids of the registry, in order. */
  ghost function OccurrenceIds(vs: seq<Version>): seq<string> {
    if vs == [] then [] else OccurrenceIds(vs[..|vs| - 1]) + IdsOf(vs[|vs| - 1].occurrences)
  }

  /** A superseded version is known and belongs to the same document. */
  ghost predicate LinkOk(vs: seq<Version>, v: Version) {
    Link(v).Some? ==> exists j :: 0 <= j < |vs| && vs[j].id == Link(v).value && vs[j].document == v.document
  }

  ghost predicate LinksOk(vs: seq<Version>) { forall i :: 0 <= i < |vs| ==> LinkOk(vs, vs[i]) }

  /** The supersedes relation; with distinct ids every version has its own entry. */
  function ChainOf(vs: seq<Version>): (g: Chain)
    ensures forall id :: id in g <==> exists i :: 0 <= i < |vs| && vs[i].id == id
  {
    if vs == [] then map[]
    else
      var v := vs[|vs| - 1];
      ChainOf(vs[..|vs| - 1])[v.id := Link(v)]
  }

  ghost predicate Valid(orgs: Organizations, reg: Versions) {
    && OrganizationsOk(orgs.items) && EventsOk(orgs.events, orgs.revision)
    && VersionsOk(orgs.items, reg.items) && EventsOk(reg.events, reg.revision)
    && LinksOk(reg.items) && Acyclic(ChainOf(reg.items))
  }

  // ----- the validator -------------------------------------------------------------------------

  method CheckOrganizations(orgs: seq<Organization>) returns (byId: map<string, Organization>, issues: seq<Issue>)
    ensures issues == [] <==> OrganizationsOk(orgs)
    ensures OrganizationsOk(orgs) ==> IndexedBy(orgs, byId)
  {
    byId, issues := map[], [];
    var owners: map<string, string> := map[];
    for n := 0 to |orgs|
      invariant issues == [] <==> OrganizationsOk(orgs[..n])
      invariant OrganizationsOk(orgs[..n]) ==> IndexedBy(orgs[..n], byId) && Owned(orgs[..n], owners)
    {
      var org := orgs[n];
      assert orgs[..n + 1] == orgs[..n] + [org];
      OrganizationAdded(orgs[..n], org, byId, owners);
      if !org.wellFormed { issues := issues + [Malformed(n)]; }
      if org.id in byId { issues := issues + [DuplicateId(n)]; }
      byId := byId[org.id := org];
      var conflict;
      owners, conflict := ClaimLabels(org, owners);
      if conflict { issues := issues + [LabelConflict(n)]; }
    }
    assert orgs[..|orgs|] == orgs;
  }

  ghost predicate IndexedBy(orgs: seq<Organization>, byId: map<string, Organization>) {
    && (forall id :: id in byId ==> exists i :: 0 <= i < |orgs| && orgs[i].id == id && byId[id] == orgs[i])
    && (forall i :: 0 <= i < |orgs| ==> orgs[i].id in byId)
  }

  ghost predicate Owned(orgs: seq<Organization>, owners: map<string, string>) {
    && (forall l :: l in owners ==> exists i :: 0 <= i < |orgs| && l in orgs[i].labels && owners[l] == orgs[i].id)
    && (forall i, l :: 0 <= i < |orgs| && l in orgs[i].labels ==> l in owners)
  }

  function Claimed(owners: map<string, string>, labels: seq<string>, id: string): map<string, string> {
    if labels == [] then owners else Claimed(owners, labels[..|labels| - 1], id)[labels[|labels| - 1] := id]
  }

  lemma {:induction false} ClaimedKeys(owners: map<string, string>, labels: seq<string>, id: string, l: string)
    ensures l in Claimed(owners, labels, id) <==> l in owners || l in labels
    ensures l in labels ==> Claimed(owners, labels, id)[l] == id
    ensures l !in labels && l in owners ==> Claimed(owners, labels, id)[l] == owners[l]
  {
    if labels != [] {
      var last := |labels| - 1;
      ClaimedKeys(owners, labels[..last], id, l);
      assert labels == labels[..last] + [labels[last]];
    }
  }

  method ClaimLabels(org: Organization, owners: map<string, string>)
    returns (claimed: map<string, string>, conflict: bool)
    ensures claimed == Claimed(owners, org.labels, org.id)
    ensures conflict <==> exists l :: l in org.labels && l in owners && owners[l] != org.id
  {
    claimed, conflict := owners, false;
    for n := 0 to |org.labels|
      invariant claimed == Claimed(owners, org.labels[..n], org.id)
      invariant conflict <==> exists l :: l in org.labels[..n] && l in owners && owners[l] != org.id
    {
      var l := org.labels[n];
      assert org.labels[..n + 1][..n] == org.labels[..n];
      ClaimedKeys(owners, org.labels[..n], org.id, l);
      if l in claimed && claimed[l] != org.id { conflict := true; }
      claimed := claimed[l := org.id];
    }
    assert org.labels[..|org.labels|] == org.labels;
  }

  /** One more organization is fine exactly when the three checks of the loop find nothing. */
  lemma {:induction false} OrganizationAdded(orgs: seq<Organization>, org: Organization, byId: map<string, Organization>,
                                             owners: map<string, string>)
    requires OrganizationsOk(orgs) ==> IndexedBy(orgs, byId) && Owned(orgs, owners)
    ensures OrganizationsOk(orgs + [org]) ==> OrganizationsOk(orgs)
    ensures OrganizationsOk(orgs) ==>
              (OrganizationsOk(orgs + [org])
               <==> (org.wellFormed && org.id !in byId && !(exists l :: l in org.labels && l in owners && owners[l] != org.id)))
    ensures OrganizationsOk(orgs + [org]) ==>
              IndexedBy(orgs + [org], byId[org.id := org]) && Owned(orgs + [org], Claimed(owners, org.labels, org.id))
  {
    var more := orgs + [org];
    assert more[|orgs|] == org && forall i :: 0 <= i < |orgs| ==> more[i] == orgs[i];
    if OrganizationsOk(orgs) {
      NewLabels(orgs, org, owners);
      if OrganizationsOk(more) { NewOwners(orgs, org, owners); NewIndex(orgs, org, byId); }
    }
  }

  lemma {:induction false} NewLabels(orgs: seq<Organization>, org: Organization, owners: map<string, string>)
    requires Owned(orgs, owners)
    ensures (forall i :: 0 <= i < |orgs| ==> orgs[i].id != org.id) ==>
              ((exists l :: l in org.labels && l in owners && owners[l] != org.id)
               <==> exists i :: 0 <= i < |orgs| && !Unambiguous(orgs[i], org))
  {
    if (forall i :: 0 <= i < |orgs| ==> orgs[i].id != org.id) {
      if l :| l in org.labels && l in owners && owners[l] != org.id {
        var i :| 0 <= i < |orgs| && l in orgs[i].labels && owners[l] == orgs[i].id;
        assert !Unambiguous(orgs[i], org);
      }
      if i :| 0 <= i < |orgs| && !Unambiguous(orgs[i], org) {
        var l :| l in orgs[i].labels && l in org.labels;
        assert l in owners;
      }
    }
  }

  lemma {:induction false} NewOwners(orgs: seq<Organization>, org: Organization, owners: map<string, string>)
    requires Owned(orgs, owners)
    ensures Owned(orgs + [org], Claimed(owners, org.labels, org.id))
  {
    var more, claimed := orgs + [org], Claimed(owners, org.labels, org.id);
    forall l | l in claimed ensures exists i :: 0 <= i < |more| && l in more[i].labels && claimed[l] == more[i].id {
      ClaimedKeys(owners, org.labels, org.id, l);
      if l in org.labels {
        assert more[|orgs|] == org;
      } else {
        var i :| 0 <= i < |orgs| && l in orgs[i].labels && owners[l] == orgs[i].id;
        assert more[i] == orgs[i];
      }
    }
    forall i, l | 0 <= i < |more| && l in more[i].labels ensures l in claimed {
      ClaimedKeys(owners, org.labels, org.id, l);
    }
  }

  lemma {:induction false} NewIndex(orgs: seq<Organization>, org: Organization, byId: map<string, Organization>)
    requires IndexedBy(orgs, byId)
    ensures IndexedBy(orgs + [org], byId[org.id := org])
  {
    var more, after := orgs + [org], byId[org.id := org];
    forall id | id in after ensures exists i :: 0 <= i < |more| && more[i].id == id && after[id] == more[i] {
      if id == org.id {
        assert more[|orgs|] == org;
      } else {
        var i :| 0 <= i < |orgs| && orgs[i].id == id && byId[id] == orgs[i];
        assert more[i] == orgs[i];
      }
    }
  }

  method CheckEvents(events: seq<Event>, revision: nat) returns (issues: seq<Issue>)
    ensures issues == [] <==> EventsOk(events, revision)
  {
    issues := [];
    var seen: set<string> := {};
    for n := 0 to |events|
      invariant issues == [] <==> EventsOk(events[..n], revision)
      invariant EventsOk(events[..n], revision) ==> seen == set i | 0 <= i < n :: events[i].id
    {
      var e := events[n];
      assert events[..n + 1] == events[..n] + [e];
      if !e.wellFormed { issues := issues + [Malformed(n)]; }
      if e.id in seen { issues := issues + [DuplicateId(n)]; } else { seen := seen + {e.id}; }
      if e.revision < 1 || e.revision > revision { issues := issues + [BadRevision(n)]; }
    }
    assert events[..|events|] == events;
  }

  /** What the loop over the versions remembers of the ones already read. */
  datatype Seen = Seen(ids: set<string>, resources: map<string, string>, hashes: map<string, string>,
                       active: set<string>, occurrences: set<string>)

  function Recall(seen: Seen, v: Version): Seen {
    Seen(seen.ids + {v.id}, seen.resources[v.resource := v.id], seen.hashes[v.hash := v.id],
         if v.status == Active then seen.active + {v.document} else seen.active,
         seen.occurrences + set o | o in v.occurrences :: o.id)
  }

  ghost function Memory(vs: seq<Version>): Seen {
    if vs == [] then Seen({}, map[], map[], {}, {}) else Recall(Memory(vs[..|vs| - 1]), vs[|vs| - 1])
  }

  /** The checks one version needs against the earlier ones. */
  ghost predicate Clears(seen: Seen, v: Version) {
    ClearsVersions(seen, v) && ClearsOccurrences(seen, v)
  }

  ghost predicate ClearsVersions(seen: Seen, v: Version) {
    && v.id !in seen.ids
    && !(v.resource in seen.resources && seen.resources[v.resource] != v.id)
    && !(v.hash in seen.hashes && seen.hashes[v.hash] != v.id)
    && !(v.status == Active && v.document in seen.active)
  }

  ghost predicate ClearsOccurrences(seen: Seen, v: Version) {
    Distinct(IdsOf(v.occurrences)) && forall i :: 0 <= i < |v.occurrences| ==> v.occurrences[i].id !in seen.occurrences
  }

  method CheckVersions(orgs: seq<Organization>, byId: map<string, Organization>, vs: seq<Version>) returns (issues: seq<Issue>)
    requires OrganizationsOk(orgs) && IndexedBy(orgs, byId)
    ensures issues == [] <==> VersionsOk(orgs, vs)
  {
    issues := [];
    var seen := Seen({}, map[], map[], {}, {});
    for n := 0 to |vs|
      invariant issues == [] <==> VersionsOk(orgs, vs[..n])
      invariant seen == Memory(vs[..n])
    {
      VersionAdded(orgs, vs[..n], vs[n]);
      assert vs[..n + 1] == vs[..n] + [vs[n]];
      var found := CheckOne(n, vs[n], orgs, byId, seen);
      issues := issues + found;
      seen := Recall(seen, vs[n]);
    }
    assert vs[..|vs|] == vs;
  }

  method CheckOne(n: nat, v: Version, ghost orgs: seq<Organization>, byId: map<string, Organization>, seen: Seen)
    returns (issues: seq<Issue>)
    requires OrganizationsOk(orgs) && IndexedBy(orgs, byId)
    ensures issues == [] <==> VersionOk(orgs, v) && Clears(seen, v)
  {
    var own := CheckVersion(n, v, seen);
    var sources := CheckOccurrences(n, v, orgs, byId, seen.occurrences);
    issues := own + sources;
  }

  method CheckVersion(n: nat, v: Version, seen: Seen) returns (issues: seq<Issue>)
    ensures issues == [] <==>
            (v.wellFormed && v.id != "" && v.occurrences != [] && v.id !in seen.ids
             && !(v.resource in seen.resources && seen.resources[v.resource] != v.id)
             && !(v.hash in seen.hashes && seen.hashes[v.hash] != v.id)
             && (v.status == Active ==> v.document !in seen.active && v.processing == Completed))
  {
    issues := [];
    if !v.wellFormed || v.id == "" { issues := issues + [Malformed(n)]; }
    if v.id in seen.ids { issues := issues + [DuplicateId(n)]; }
    if v.resource in seen.resources && seen.resources[v.resource] != v.id { issues := issues + [SharedResource(n)]; }
    if v.hash in seen.hashes && seen.hashes[v.hash] != v.id { issues := issues + [SharedContent(n)]; }
    if v.status == Active {
      if v.document in seen.active { issues := issues + [SecondActive(n)]; }
      if v.processing != Completed { issues := issues + [ActiveNotCompleted(n)]; }
    }
    if v.occurrences == [] { issues := issues + [NoOccurrence(n)]; }
  }

  ghost predicate OccurrenceClear(v: Version, orgs: seq<Organization>, o: Occurrence) {
    o.wellFormed && Known(orgs, o.organization) && (v.status == Active ==> IsApproved(orgs, o.organization))
  }

  method CheckOccurrences(n: nat, v: Version, ghost orgs: seq<Organization>, byId: map<string, Organization>, before: set<string>)
    returns (issues: seq<Issue>)
    requires OrganizationsOk(orgs) && IndexedBy(orgs, byId)
    ensures issues == [] <==> FirstClear(v, orgs, before, |v.occurrences|)
  {
    issues := [];
    var seen := before;
    for k := 0 to |v.occurrences|
      invariant seen == before + set i | 0 <= i < k :: v.occurrences[i].id
      invariant issues == [] <==> FirstClear(v, orgs, before, k)
    {
      var o := v.occurrences[k];
      OneMoreClear(v, orgs, before, seen, k);
      var found := CheckOccurrence(n, v, orgs, o, byId, o.id in seen);
      issues := issues + found;
      seen := seen + {o.id};
    }
  }

  /** The first `k` occurrences have new and distinct ids, and each is clear. */
  ghost predicate FirstClear(v: Version, orgs: seq<Organization>, before: set<string>, k: nat)
    requires k <= |v.occurrences|
  {
    && (forall i, j :: 0 <= i < j < k ==> v.occurrences[i].id != v.occurrences[j].id)
    && (forall i :: 0 <= i < k ==> v.occurrences[i].id !in before && OccurrenceClear(v, orgs, v.occurrences[i]))
  }

  lemma {:induction false} OneMoreClear(v: Version, orgs: seq<Organization>, before: set<string>, seen: set<string>, k: nat)
    requires k < |v.occurrences| && seen == before + set i | 0 <= i < k :: v.occurrences[i].id
    ensures FirstClear(v, orgs, before, k + 1)
       <==> FirstClear(v, orgs, before, k) && v.occurrences[k].id !in seen && OccurrenceClear(v, orgs, v.occurrences[k])
  {
  }

  method CheckOccurrence(n: nat, v: Version, ghost orgs: seq<Organization>, o: Occurrence, byId: map<string, Organization>, repeated: bool)
    returns (issues: seq<Issue>)
    requires OrganizationsOk(orgs) && IndexedBy(orgs, byId)
    ensures issues == [] <==> !repeated && OccurrenceClear(v, orgs, o)
  {
    issues := [];
    OrganizationFound(orgs, byId, o.organization);
    if !o.wellFormed { issues := issues + [Malformed(n)]; }
    if repeated { issues := issues + [DuplicateOccurrence(n)]; }
    if o.organization !in byId { issues := issues + [UnknownOrganization(n)]; }
    else if v.status == Active && byId[o.organization].status != Approved { issues := issues + [ActiveUnapproved(n)]; }
  }

  lemma {:induction false} OrganizationFound(orgs: seq<Organization>, byId: map<string, Organization>, id: string)
    requires OrganizationsOk(orgs) && IndexedBy(orgs, byId)
    ensures id in byId <==> Known(orgs, id)
    ensures id in byId ==> (byId[id].status == Approved <==> IsApproved(orgs, id))
  {
    if id in byId {
      var i :| 0 <= i < |orgs| && orgs[i].id == id && byId[id] == orgs[i];
      if j :| 0 <= j < |orgs| && orgs[j].id == id && orgs[j].status == Approved {
        assert i == j by {
          assert i < j ==> Unambiguous(orgs[i], orgs[j]);
          assert j < i ==> Unambiguous(orgs[j], orgs[i]);
        }
      }
    }
  }

  lemma {:induction false} DistinctAppend(a: seq<string>, b: seq<string>)
    ensures Distinct(a + b) <==> Distinct(a) && Distinct(b) && forall x :: x in a ==> x !in b
  {
    var c := a + b;
    if Distinct(c) {
      forall i, j | 0 <= i < j < |a| ensures a[i] != a[j] { assert c[i] != c[j]; }
      forall i, j | 0 <= i < j < |b| ensures b[i] != b[j] { assert c[|a| + i] != c[|a| + j]; }
      forall x | x in a ensures x !in b {
        var i :| 0 <= i < |a| && a[i] == x;
        forall j | 0 <= j < |b| ensures b[j] != x { assert c[i] != c[|a| + j]; }
      }
    }
    if Distinct(a) && Distinct(b) && forall x :: x in a ==> x !in b {
      forall i, j | 0 <= i < j < |c| ensures c[i] != c[j] {
        if j >= |a| && i < |a| { assert a[i] in a && b[j - |a|] in b; }
      }
    }
  }

  lemma {:induction false} VersionAdded(orgs: seq<Organization>, vs: seq<Version>, v: Version)
    ensures VersionsOk(orgs, vs + [v]) <==> VersionsOk(orgs, vs) && VersionOk(orgs, v) && Clears(Memory(vs), v)
    ensures Memory(vs + [v]) == Recall(Memory(vs), v)
  {
    var more := vs + [v];
    assert more[|vs|] == v && more[..|vs|] == vs && forall i :: 0 <= i < |vs| ==> more[i] == vs[i];
    DistinctAppend(OccurrenceIds(vs), IdsOf(v.occurrences));
    if VersionsOk(orgs, vs) { VersionsClear(vs, v); }
    OccurrencesClear(vs, v);
  }

  lemma {:induction false} VersionsClear(vs: seq<Version>, v: Version)
    requires forall i, j :: 0 <= i < j < |vs| ==> Compatible(vs[i], vs[j])
    ensures ClearsVersions(Memory(vs), v) <==> forall i :: 0 <= i < |vs| ==> Compatible(vs[i], v)
  {
    MemoryOfId(vs, v.id);
    MemoryOfResource(vs, v.resource);
    MemoryOfHash(vs, v.hash);
    MemoryOfActive(vs, v.document);
  }

  lemma {:induction false} OccurrencesClear(vs: seq<Version>, v: Version)
    ensures ClearsOccurrences(Memory(vs), v) <==>
            Distinct(IdsOf(v.occurrences)) && forall o :: o in OccurrenceIds(vs) ==> o !in IdsOf(v.occurrences)
  {
    forall o ensures o in Memory(vs).occurrences <==> o in OccurrenceIds(vs) { MemoryOfOccurrence(vs, o); }
    var ids := IdsOf(v.occurrences);
    forall i | 0 <= i < |v.occurrences| ensures v.occurrences[i].id in ids { assert ids[i] == v.occurrences[i].id; }
    forall o | o in ids ensures exists i :: 0 <= i < |v.occurrences| && v.occurrences[i].id == o {
      var i :| 0 <= i < |ids| && ids[i] == o;
      assert v.occurrences[i].id == o;
    }
  }

  lemma {:induction false} MemoryOfId(vs: seq<Version>, id: string)
    ensures id in Memory(vs).ids <==> exists i :: 0 <= i < |vs| && vs[i].id == id
  {
    if vs != [] { MemoryOfId(vs[..|vs| - 1], id); }
  }

  lemma {:induction false} MemoryOfResource(vs: seq<Version>, r: string)
    ensures r in Memory(vs).resources <==> exists i :: 0 <= i < |vs| && vs[i].resource == r
    ensures r in Memory(vs).resources ==> exists i :: 0 <= i < |vs| && vs[i].resource == r && vs[i].id == Memory(vs).resources[r]
  {
    if vs != [] {
      var front := vs[..|vs| - 1];
      MemoryOfResource(front, r);
      assert forall i :: 0 <= i < |front| ==> front[i] == vs[i];
    }
  }

  lemma {:induction false} MemoryOfHash(vs: seq<Version>, h: string)
    ensures h in Memory(vs).hashes <==> exists i :: 0 <= i < |vs| && vs[i].hash == h
    ensures h in Memory(vs).hashes ==> exists i :: 0 <= i < |vs| && vs[i].hash == h && vs[i].id == Memory(vs).hashes[h]
  {
    if vs != [] {
      var front := vs[..|vs| - 1];
      MemoryOfHash(front, h);
      assert forall i :: 0 <= i < |front| ==> front[i] == vs[i];
    }
  }

  lemma {:induction false} MemoryOfActive(vs: seq<Version>, d: string)
    ensures d in Memory(vs).active <==> exists i :: 0 <= i < |vs| && vs[i].status == Active && vs[i].document == d
  {
    if vs != [] { MemoryOfActive(vs[..|vs| - 1], d); }
  }

  lemma {:induction false} MemoryOfOccurrence(vs: seq<Version>, o: string)
    ensures o in Memory(vs).occurrences <==> o in OccurrenceIds(vs)
  {
    if vs != [] {
      var v := vs[|vs| - 1];
      MemoryOfOccurrence(vs[..|vs| - 1], o);
      assert o in IdsOf(v.occurrences) <==> exists x :: x in v.occurrences && x.id == o by {
        assert forall i :: 0 <= i < |v.occurrences| ==> v.occurrences[i] in v.occurrences && IdsOf(v.occurrences)[i] == v.occurrences[i].id;
      }
    }
  }

  method CheckLinks(vs: seq<Version>, documents: map<string, string>) returns (issues: seq<Issue>)
    requires DocumentsOf(vs, documents)
    ensures issues == [] <==> LinksOk(vs)
  {
    issues := [];
    for n := 0 to |vs|
      invariant issues == [] <==> forall i :: 0 <= i < n ==> LinkOk(vs, vs[i])
    {
      var v := vs[n];
      if Link(v).Some? {
        if Link(v).value !in documents {
          issues := issues + [UnknownSuperseded(n)];
        } else if documents[Link(v).value] != v.document {
          issues := issues + [CrossDocument(n)];
        }
      }
    }
  }

  ghost predicate DocumentsOf(vs: seq<Version>, documents: map<string, string>) {
    && (forall id :: id in documents <==> exists j :: 0 <= j < |vs| && vs[j].id == id)
    && (forall j :: 0 <= j < |vs| ==> vs[j].id in documents && documents[vs[j].id] == vs[j].document)
  }

  method IndexDocuments(vs: seq<Version>) returns (documents: map<string, string>)
    requires forall i, j :: 0 <= i < j < |vs| ==> vs[i].id != vs[j].id
    ensures DocumentsOf(vs, documents)
  {
    documents := map[];
    for n := 0 to |vs|
      invariant DocumentsOf(vs[..n], documents)
    {
      documents := documents[vs[n].id := vs[n].document];
      assert vs[..n + 1] == vs[..n] + [vs[n]];
    }
    assert vs[..|vs|] == vs;
  }

  /** `validate_state`: it reports nothing exactly when the state is valid. */
  method Validate(orgs: Organizations, reg: Versions) returns (issues: seq<Issue>)
    ensures issues == [] <==> Valid(orgs, reg)
  {
    var byId;
    byId, issues := CheckOrganizations(orgs.items);
    if issues != [] { return; }
    var a := CheckEvents(orgs.events, orgs.revision);
    var b := CheckEvents(reg.events, reg.revision);
    var c := CheckVersions(orgs.items, byId, reg.items);
    issues := a + b + c;
    if c != [] { return; }
    var documents := IndexDocuments(reg.items);
    var links := CheckLinks(reg.items, documents);
    var cycle := FindCycle(ChainOf(reg.items));
    issues := issues + links + if cycle then [VersionCycle] else [];
  }
}
