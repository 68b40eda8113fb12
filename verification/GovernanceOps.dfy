/** The governed mutations: each edits a copy of one registry, appends one event, validates
    the whole state, and only then replaces the stored file. */
module GovernanceOps {
  import opened Basics
  import opened Governance

  datatype State = State(orgs: Organizations, reg: Versions)

  ghost predicate IsValid(s: State) { Valid(s.orgs, s.reg) }

  /** What an operation makes of the copied items. */
  datatype Change<T> = Refused(reason: string) | Unchanged | Changed(items: seq<T>)

  // ----- the operations ---------------------------------------------------------------------

  function Find(vs: seq<Version>, id: string): (at: Option<nat>)
    ensures at.Some? ==> at.value < |vs| && vs[at.value].id == id
    ensures at.Some? ==> forall i :: 0 <= i < at.value ==> vs[i].id != id
    ensures at.None? ==> forall i :: 0 <= i < |vs| ==> vs[i].id != id
  {
    if vs == [] then None
    else if vs[0].id == id then Some(0)
    else
      var rest := Find(vs[1..], id);
      if rest.Some? then Some(rest.value + 1) else None
  }

  function FindOrganization(orgs: seq<Organization>, id: string): (at: Option<nat>)
    ensures at.Some? ==> at.value < |orgs| && orgs[at.value].id == id
    ensures at.None? ==> forall i :: 0 <= i < |orgs| ==> orgs[i].id != id
  {
    if orgs == [] then None
    else if orgs[0].id == id then Some(0)
    else
      var rest := FindOrganization(orgs[1..], id);
      if rest.Some? then Some(rest.value + 1) else None
  }

  /** The first record that settles a registration: the same version, or the same content. */
  function Registered(vs: seq<Version>, v: Version): Change<Version> {
    RegisteredFrom(vs, v, 0)
  }

  function RegisteredFrom(vs: seq<Version>, v: Version, i: nat): Change<Version>
    requires i <= |vs|
    decreases |vs| - i
  {
    if i == |vs| then Changed(vs + [v])
    else if vs[i].id == v.id then if vs[i] == v then Unchanged else Refused("version_id already exists")
    else if vs[i].hash == v.hash then Refused("content already registered")
    else RegisteredFrom(vs, v, i + 1)
  }

  function SourceAdded(vs: seq<Version>, id: string, o: Occurrence): Change<Version> {
    var at := Find(vs, id);
    if at.None? then Refused("unknown version")
    else
      var v := vs[at.value];
      if o in v.occurrences then Unchanged
      else if exists x :: x in v.occurrences && x.id == o.id then Refused("source_occurrence_id already exists")
      else Changed(vs[at.value := v.(occurrences := v.occurrences + [o])])
  }

  function StatusSet(vs: seq<Version>, id: string, processing: Option<Processing>, status: Option<Status>,
                     authority: Option<Authority>): Change<Version>
  {
    if status == Some(Active) || status == Some(Superseded) then Refused("use activate")
    else
      var at := Find(vs, id);
      if at.None? then Refused("unknown version")
      else
        var v := vs[at.value];
        var v' := v.(processing := processing.GetOr(v.processing), status := status.GetOr(v.status),
                     authority := authority.GetOr(v.authority));
        if v' == v then Unchanged else Changed(vs[at.value := v'])
  }

  function IngestFinished(vs: seq<Version>, id: string, hash: string, processing: Processing): Change<Version> {
    if processing != Completed && processing != Failed then Refused("must be completed or failed")
    else
      var at := Find(vs, id);
      if at.None? then Refused("unknown version")
      else if vs[at.value].hash != hash then Refused("source hash differs")
      else if vs[at.value].processing == processing then Unchanged
      else Changed(vs[at.value := vs[at.value].(processing := processing)])
  }

  /** The first other active version of the same document. */
  function Current(vs: seq<Version>, document: string, except: string): (at: Option<nat>)
    ensures at.Some? ==> at.value < |vs| && IsCurrent(vs[at.value], document, except)
    ensures at.None? ==> forall i :: 0 <= i < |vs| ==> !IsCurrent(vs[i], document, except)
  {
    if vs == [] then None
    else if IsCurrent(vs[0], document, except) then Some(0)
    else
      var rest := Current(vs[1..], document, except);
      if rest.Some? then Some(rest.value + 1) else None
  }

  predicate IsCurrent(v: Version, document: string, except: string) {
    v.document == document && v.status == Active && v.id != except
  }

  function Activated(orgs: seq<Organization>, vs: seq<Version>, id: string): Change<Version> {
    var at := Find(vs, id);
    if at.None? then Refused("unknown version")
    else
      var t := vs[at.value];
      if t.status == Active then Unchanged
      else if t.status == Withdrawn then Refused("withdrawn")
      else if t.processing != Completed then Refused("not completed")
      else if !AllApproved(orgs, t) then Refused("organization not approved")
      else
        var c := Current(vs, t.document, id);
        if c.None? then Changed(vs[at.value := t.(status := Active)])
        else
          var prior := vs[c.value];
          if t.supersedes != None && t.supersedes != Some(prior.id) then Refused("declared predecessor differs")
          else Changed(vs[c.value := prior.(status := Superseded)]
                         [at.value := t.(status := Active, supersedes := Some(prior.id))])
  }

  function OrganizationAddedTo(orgs: seq<Organization>, org: Organization): Change<Organization> {
    var at := FindOrganization(orgs, org.id);
    if at.None? then Changed(orgs + [org])
    else if orgs[at.value] == org then Unchanged else Refused("organization already exists")
  }

  function OrganizationStatusSet(orgs: seq<Organization>, id: string, status: OrgStatus): Change<Organization> {
    var at := FindOrganization(orgs, id);
    if at.None? then Refused("unknown organization")
    else if orgs[at.value].status == status then Unchanged
    else Changed(orgs[at.value := orgs[at.value].(status := status)])
  }

  // ----- _mutate -------------------------------------------------------------------------------

  function Commit<T>(r: Registry<T>, items: seq<T>, event: string): Registry<T> {
    Registry(items, r.revision + 1, r.events + [Event(event, r.revision + 1, true)])
  }

  ghost function AfterVersions(s: State, expected: int, event: string, change: Change<Version>): Option<State> {
    if !IsValid(s) || expected != s.reg.revision || change.Refused? then None
    else if change.Unchanged? then Some(s)
    else
      var s' := s.(reg := Commit(s.reg, change.items, event));
      if IsValid(s') then Some(s') else None
  }

  ghost function AfterOrganizations(s: State, expected: int, event: string, change: Change<Organization>): Option<State> {
    if !IsValid(s) || expected != s.orgs.revision || change.Refused? then None
    else if change.Unchanged? then Some(s)
    else
      var s' := s.(orgs := Commit(s.orgs, change.items, event));
      if IsValid(s') then Some(s') else None
  }

  /** The stored registries of one vault. A refused mutation leaves them as they were. */
  class Repository {
    var state: State

    constructor ()
      ensures state == EMPTY
    {
      state := EMPTY;
    }

    method MutateVersions(expected: int, actor: string, event: string,
                          op: (seq<Organization>, seq<Version>) -> Change<Version>) returns (done: bool)
      modifies this
      ensures var next := AfterVersions(old(state), expected, event, op(old(state).orgs.items, old(state).reg.items));
              if actor != "" && expected >= 0 && next.Some? then done && state == next.value
              else !done && state == old(state)
    {
      var issues := Validate(state.orgs, state.reg);
      if actor == "" || expected < 0 || issues != [] || expected != state.reg.revision { return false; }
      var change := op(state.orgs.items, state.reg.items);
      if change.Refused? { return false; }
      if change.Changed? {
        var reg := Commit(state.reg, change.items, event);
        issues := Validate(state.orgs, reg);
        if issues != [] { return false; }
        state := state.(reg := reg);
      }
      return true;
    }

    method MutateOrganizations(expected: int, actor: string, event: string,
                               op: seq<Organization> -> Change<Organization>) returns (done: bool)
      modifies this
      ensures var next := AfterOrganizations(old(state), expected, event, op(old(state).orgs.items));
              if actor != "" && expected >= 0 && next.Some? then done && state == next.value
              else !done && state == old(state)
    {
      var issues := Validate(state.orgs, state.reg);
      if actor == "" || expected < 0 || issues != [] || expected != state.orgs.revision { return false; }
      var change := op(state.orgs.items);
      if change.Refused? { return false; }
      if change.Changed? {
        var orgs := Commit(state.orgs, change.items, event);
        issues := Validate(orgs, state.reg);
        if issues != [] { return false; }
        state := state.(orgs := orgs);
      }
      return true;
    }

    method Activate(id: string, expected: int, actor: string, event: string) returns (done: bool)
      modifies this
      ensures var next := AfterVersions(old(state), expected, event,
                                        Activated(old(state).orgs.items, old(state).reg.items, id));
              if actor != "" && expected >= 0 && next.Some? then done && state == next.value
              else !done && state == old(state)
    {
      done := MutateVersions(expected, actor, event, (orgs, vs) => Activated(orgs, vs, id));
    }
  }

  const EMPTY := State(Registry([], 0, []), Registry([], 0, []))
}
