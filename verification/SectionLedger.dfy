/** The section ingestion ledger: initialised from a bundle, reconciled when the bundle is
    converted again, and updated section by section. */
module SectionLedger {
  import opened Basics

  datatype Status = Pending | InProgress | Ingested | QaRequired | Skipped | Stale

  predicate Terminal(s: Status) { s == Ingested || s == Skipped }

  /** The transition table of unforced updates. */
  predicate Allowed(from: Status, to: Status) {
    || from == to
    || match from
       case Pending => to == InProgress || to == QaRequired || to == Skipped
       case InProgress => to == Pending || to == Ingested || to == QaRequired || to == Skipped
       case QaRequired => to == InProgress || to == Skipped
       case Ingested => to == QaRequired || to == Stale
       case Skipped => to == Pending || to == InProgress
       case Stale => to == InProgress || to == QaRequired || to == Skipped
  }

  /** One section; `content` stands for `content_sha256`, the digest of its owned lines. */
  datatype Section = Section(id: string, content: string, ingestUnit: bool, status: Status,
                             outputs: seq<string>, qaItems: seq<string>, notes: seq<string>,
                             previous: Option<Status>)

  datatype Event =
    | Built(revision: nat, changed: seq<string>)
    | SectionUpdated(revision: nat, section: string, from: Status, to: Status, outputs: seq<string>)

  datatype Ledger = Ledger(bundle: string, validationFailed: bool, revision: nat,
                           sections: seq<Section>, orphaned: seq<Section>, history: seq<Event>)

  datatype Snapshot = Snapshot(bundle: string, validationFailed: bool, sections: seq<Section>)

  /** `make_section_entry` starts every section pending, or in QA when something is wrong. */
  ghost predicate FreshSnapshot(snap: Snapshot) {
    forall i :: 0 <= i < |snap.sections| ==>
      var s := snap.sections[i];
      && s.id != "" && s.outputs == [] && s.qaItems == [] && s.notes == [] && s.previous == None
      && (s.status == Pending || s.status == QaRequired)
  }

  // ----- reconciling --------------------------------------------------------------------

  const CHANGED_NOTE := "Section content changed since the previous ledger revision."

  function Preserved(next: Section, prior: Section): Section {
    if next.content != prior.content then
      next.(status := match prior.status
                       case Pending => Pending
                       case QaRequired => QaRequired
                       case _ => Stale,
             previous := Some(prior.status), outputs := prior.outputs, qaItems := prior.qaItems,
             notes := prior.notes + [CHANGED_NOTE])
    else
      next.(status := prior.status, previous := prior.previous, outputs := prior.outputs,
             qaItems := prior.qaItems, notes := prior.notes)
  }

  /** A dictionary keyed by id keeps the last section with that id. */
  function LastWith(sections: seq<Section>, id: string): (found: Option<Section>)
    ensures found.Some? ==> found.value in sections && found.value.id == id
    ensures found.None? ==> forall s :: s in sections ==> s.id != id
  {
    if sections == [] then None
    else if sections[|sections| - 1].id == id then Some(sections[|sections| - 1])
    else LastWith(sections[..|sections| - 1], id)
  }

  function Carried(next: Section, prior: seq<Section>): Section {
    var found := LastWith(prior, next.id);
    if found.Some? then Preserved(next, found.value) else next
  }

  function CarriedAll(next: seq<Section>, prior: seq<Section>): (r: seq<Section>)
    ensures |r| == |next| && forall i :: 0 <= i < |next| ==> r[i] == Carried(next[i], prior)
  {
    seq(|next|, i requires 0 <= i < |next| => Carried(next[i], prior))
  }

  function ChangedIds(next: seq<Section>, prior: seq<Section>): seq<string> {
    if next == [] then []
    else
      var s := next[|next| - 1];
      var found := LastWith(prior, s.id);
      ChangedIds(next[..|next| - 1], prior)
      + (if found.Some? && s.content != found.value.content then [s.id] else [])
  }

  /** The keys of the dictionary, in the order they were first inserted. */
  function Keys(sections: seq<Section>): (keys: seq<string>)
    ensures forall id :: id in keys <==> exists s :: s in sections && s.id == id
  {
    if sections == [] then []
    else
      var front, s := sections[..|sections| - 1], sections[|sections| - 1];
      assert sections == front + [s];
      var keys := Keys(front);
      if s.id in keys then keys else keys + [s.id]
  }

  function OrphansAmong(keys: seq<string>, prior: seq<Section>, current: set<string>): (r: seq<Section>)
    requires forall id :: id in keys ==> LastWith(prior, id).Some?
  {
    if keys == [] then []
    else
      var id := keys[|keys| - 1];
      OrphansAmong(keys[..|keys| - 1], prior, current)
      + (if id in current then [] else [LastWith(prior, id).value.(status := Stale)])
  }

  function IdsOf(sections: seq<Section>): set<string> { set s | s in sections :: s.id }

  lemma {:induction false} KeysHaveSections(sections: seq<Section>)
    ensures forall id :: id in Keys(sections) ==> LastWith(sections, id).Some?
  {
  }

  function Orphans(prior: seq<Section>, current: set<string>): seq<Section> {
    KeysHaveSections(prior);
    OrphansAmong(Keys(prior), prior, current)
  }

  function FirstBuild(snap: Snapshot): Ledger {
    Ledger(snap.bundle, snap.validationFailed, 1, snap.sections, [], [Built(1, [])])
  }

  function Reconciled(l: Ledger, snap: Snapshot): Result<Ledger, string> {
    if l.bundle != snap.bundle then Err("different source")
    else
      Ok(Ledger(snap.bundle, snap.validationFailed, l.revision + 1,
                CarriedAll(snap.sections, l.sections),
                l.orphaned + Orphans(l.sections, IdsOf(snap.sections)),
                l.history + [Built(l.revision + 1, ChangedIds(snap.sections, l.sections))]))
  }

  // ----- updating one section --------------------------------------------------------------

  /** The arguments of an unforced update; an absent note is the empty string. */
  datatype Update = Update(expected: Option<nat>, section: string, status: Option<Status>,
                           outputs: seq<string>, qaItems: seq<string>, note: string)

  function FirstWith(sections: seq<Section>, id: string): (found: Option<nat>)
    ensures found.Some? ==> found.value < |sections| && sections[found.value].id == id
    ensures found.Some? ==> forall i :: 0 <= i < found.value ==> sections[i].id != id
    ensures found.None? ==> forall i :: 0 <= i < |sections| ==> sections[i].id != id
  {
    if sections == [] then None
    else if sections[0].id == id then Some(0)
    else
      var rest := FirstWith(sections[1..], id);
      if rest.Some? then Some(rest.value + 1) else None
  }

  function MergeUnique(existing: seq<string>, values: seq<string>): (r: seq<string>)
    ensures existing <= r
    ensures forall v :: v in r <==> v in existing || v in values
  {
    if values == [] then existing
    else
      var front, v := values[..|values| - 1], values[|values| - 1];
      assert values == front + [v];
      var r := MergeUnique(existing, front);
      if v in r then r else r + [v]
  }

  function Refusal(l: Ledger, u: Update): Option<string> {
    if u.expected.Some? && u.expected.value != l.revision then Some("revision conflict")
    else
      var at := FirstWith(l.sections, u.section);
      if at.None? then Some("unknown section")
      else
        var s := l.sections[at.value];
        var to := u.status.GetOr(s.status);
        if !s.ingestUnit then Some("not an ingest unit")
        else if !Allowed(s.status, to) then Some("invalid transition")
        else if to == Ingested && u.outputs == [] && s.outputs == [] then Some("ingested needs an output")
        else if to == Skipped && u.note == "" then Some("skipped needs a note")
        else if to == QaRequired && u.qaItems == [] && u.note == "" && s.qaItems == [] then Some("QA needs a reason")
        else None
  }

  function WithUpdate(s: Section, u: Update): Section {
    s.(status := u.status.GetOr(s.status),
       outputs := MergeUnique(s.outputs, u.outputs),
       qaItems := MergeUnique(s.qaItems, u.qaItems),
       notes := if u.note != "" then MergeUnique(s.notes, [u.note]) else s.notes)
  }

  function Updated(l: Ledger, u: Update): Result<Ledger, string> {
    var refusal := Refusal(l, u);
    if refusal.Some? then Err(refusal.value)
    else
      var at := FirstWith(l.sections, u.section).value;
      var s := l.sections[at];
      Ok(l.(revision := l.revision + 1,
            sections := l.sections[at := WithUpdate(s, u)],
            history := l.history
                       + [SectionUpdated(l.revision + 1, u.section, s.status, u.status.GetOr(s.status), u.outputs)]))
  }

  // ----- the ledger file -------------------------------------------------------------------

  /** The stored ledger; each command loads it, edits it, and replaces it atomically. */
  class LedgerFile {
    var stored: Option<Ledger>

    constructor ()
      ensures stored == None
    {
      stored := None;
    }

    /** `init` without `--replace`: the first build, or a reconciliation with the stored one. */
    method Init(snap: Snapshot) returns (error: Option<string>)
      modifies this
      ensures old(stored).None? ==>
                && error.None? && stored.Some? && stored.value.bundle == snap.bundle && stored.value.revision == 1
                && stored.value.validationFailed == snap.validationFailed && stored.value.sections == snap.sections
                && stored.value.orphaned == [] && stored.value.history == [Built(1, [])]
      ensures old(stored).Some? ==>
                match Reconciled(old(stored).value, snap)
                case Ok(l) => error.None? && stored == Some(l)
                case Err(e) => error == Some(e) && stored == old(stored)
    {
      if stored.None? {
        stored, error := Some(FirstBuild(snap)), None;
      } else if stored.value.bundle != snap.bundle {
        error := Some("different source");
      } else {
        var l := stored.value;
        var byId, keys := IndexById(l.sections);
        var sections, changed := CarryOver(snap.sections, l.sections, byId);
        var orphans := CollectOrphans(l.sections, byId, keys, IdsOf(snap.sections));
        stored := Some(Ledger(snap.bundle, snap.validationFailed, l.revision + 1, sections,
                              l.orphaned + orphans, l.history + [Built(l.revision + 1, changed)]));
        error := None;
      }
    }

    /** `update`, without `--force-transition`. */
    method Update(u: Update) returns (error: Option<string>)
      requires stored.Some?
      modifies this
      ensures match Updated(old(stored).value, u)
              case Ok(l) => error.None? && stored == Some(l)
              case Err(e) => error == Some(e) && stored == old(stored)
    {
      var l := stored.value;
      error := Refusal(l, u);
      if error.None? {
        var at := FindSection(l.sections, u.section);
        var s := l.sections[at.value];
        var edited := EditSection(s, u);
        stored := Some(l.(revision := l.revision + 1, sections := l.sections[at.value := edited],
                          history := l.history + [SectionUpdated(l.revision + 1, u.section, s.status,
                                                                 edited.status, u.outputs)]));
      }
    }
  }

  method IndexById(sections: seq<Section>) returns (byId: map<string, Section>, keys: seq<string>)
    ensures forall id :: id in byId <==> LastWith(sections, id).Some?
    ensures forall id :: id in byId ==> Some(byId[id]) == LastWith(sections, id)
    ensures keys == Keys(sections)
  {
    byId, keys := map[], [];
    for n := 0 to |sections|
      invariant forall id :: id in byId <==> LastWith(sections[..n], id).Some?
      invariant forall id :: id in byId ==> Some(byId[id]) == LastWith(sections[..n], id)
      invariant keys == Keys(sections[..n])
    {
      assert sections[..n + 1][..n] == sections[..n];
      if sections[n].id !in keys { keys := keys + [sections[n].id]; }
      byId := byId[sections[n].id := sections[n]];
    }
    assert sections[..|sections|] == sections;
  }

  method CarryOver(next: seq<Section>, ghost prior: seq<Section>, byId: map<string, Section>)
    returns (sections: seq<Section>, changed: seq<string>)
    requires forall id :: id in byId <==> LastWith(prior, id).Some?
    requires forall id :: id in byId ==> Some(byId[id]) == LastWith(prior, id)
    ensures sections == CarriedAll(next, prior) && changed == ChangedIds(next, prior)
  {
    sections, changed := [], [];
    for n := 0 to |next|
      invariant |sections| == n && forall i :: 0 <= i < n ==> sections[i] == Carried(next[i], prior)
      invariant changed == ChangedIds(next[..n], prior)
    {
      var section := next[n];
      assert next[..n + 1][..n] == next[..n];
      if section.id in byId {
        section := Preserved(section, byId[section.id]);
        if section.content != byId[section.id].content { changed := changed + [section.id]; }
      }
      sections := sections + [section];
    }
    assert next[..|next|] == next;
  }

  method CollectOrphans(ghost prior: seq<Section>, byId: map<string, Section>, keys: seq<string>, current: set<string>)
    returns (orphans: seq<Section>)
    requires forall id :: id in byId ==> Some(byId[id]) == LastWith(prior, id)
    requires forall id :: id in byId <==> LastWith(prior, id).Some?
    requires keys == Keys(prior)
    ensures orphans == Orphans(prior, current)
  {
    KeysHaveSections(prior);
    orphans := [];
    for n := 0 to |keys|
      invariant orphans == OrphansAmong(keys[..n], prior, current)
    {
      assert keys[..n + 1][..n] == keys[..n];
      if keys[n] !in current {
        assert keys[n] in keys;
        orphans := orphans + [byId[keys[n]].(status := Stale)];
      }
    }
    assert keys[..|keys|] == keys;
  }

  method FindSection(sections: seq<Section>, id: string) returns (at: Option<nat>)
    ensures at == FirstWith(sections, id)
  {
    for n := 0 to |sections|
      invariant forall i :: 0 <= i < n ==> sections[i].id != id
    {
      if sections[n].id == id { return Some(n); }
    }
    return None;
  }

  method EditSection(s: Section, u: Update) returns (edited: Section)
    ensures edited == WithUpdate(s, u)
  {
    var outputs := AppendMissing(s.outputs, u.outputs);
    var qaItems := AppendMissing(s.qaItems, u.qaItems);
    var notes := s.notes;
    if u.note != "" { notes := AppendMissing(notes, [u.note]); }
    edited := s.(status := u.status.GetOr(s.status), outputs := outputs, qaItems := qaItems, notes := notes);
  }

  /** `merge_unique`. */
  method AppendMissing(existing: seq<string>, values: seq<string>) returns (result: seq<string>)
    ensures result == MergeUnique(existing, values)
  {
    result := existing;
    for n := 0 to |values|
      invariant result == MergeUnique(existing, values[..n])
    {
      assert values[..n + 1][..n] == values[..n];
      if values[n] !in result { result := result + [values[n]]; }
    }
    assert values[..|values|] == values;
  }
}
