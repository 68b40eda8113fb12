/** What a reconciliation and an update make of a ledger, told from the sections before and after. */
module LedgerEffects {
  import opened Basics
  import opened SectionLedger

  // ----- places of an id ----------------------------------------------------------------------------

  predicate LastAt(sections: seq<Section>, id: string, k: nat) {
    k < |sections| && sections[k].id == id && forall m :: k < m < |sections| ==> sections[m].id != id
  }

  predicate FirstAt(sections: seq<Section>, id: string, k: nat) {
    k < |sections| && sections[k].id == id && forall m :: 0 <= m < k ==> sections[m].id != id
  }

  ghost predicate Named(sections: seq<Section>, id: string) { exists i :: 0 <= i < |sections| && sections[i].id == id }

  lemma {:induction false} LastPlace(sections: seq<Section>, id: string)
    ensures LastWith(sections, id).Some? <==> Named(sections, id)
    ensures LastWith(sections, id).Some? ==> exists k: nat :: LastAt(sections, id, k) && sections[k] == LastWith(sections, id).value
  {
    if sections != [] {
      if sections[|sections| - 1].id == id {
        assert LastAt(sections, id, |sections| - 1);
      } else {
        LastPlace(sections[..|sections| - 1], id);
        NamedEarlier(sections, id);
        LastEarlier(sections, id);
      }
    }
  }

  lemma {:induction false} LastEarlier(sections: seq<Section>, id: string)
    requires sections != [] && sections[|sections| - 1].id != id
    requires var front := sections[..|sections| - 1];
             LastWith(front, id).Some? ==> exists k: nat :: LastAt(front, id, k) && front[k] == LastWith(front, id).value
    ensures var found := LastWith(sections[..|sections| - 1], id);
            found.Some? ==> exists k: nat :: LastAt(sections, id, k) && sections[k] == found.value
  {
    var front := sections[..|sections| - 1];
    if LastWith(front, id).Some? {
      var k: nat :| LastAt(front, id, k) && front[k] == LastWith(front, id).value;
      forall m | k < m < |sections| ensures sections[m].id != id { assert m < |front| ==> front[m].id != id; }
      assert LastAt(sections, id, k);
    }
  }

  lemma {:induction false} NamedEarlier(sections: seq<Section>, id: string)
    requires sections != [] && sections[|sections| - 1].id != id
    ensures Named(sections, id) <==> Named(sections[..|sections| - 1], id)
  {
    var front := sections[..|sections| - 1];
    if i :| 0 <= i < |sections| && sections[i].id == id { assert front[i].id == id; }
    if i :| 0 <= i < |front| && front[i].id == id { assert sections[i].id == id; }
  }

  lemma {:induction false} LastIs(sections: seq<Section>, id: string, k: nat)
    requires LastAt(sections, id, k)
    ensures LastWith(sections, id) == Some(sections[k])
  {
    LastPlace(sections, id);
    var m: nat :| LastAt(sections, id, m) && sections[m] == LastWith(sections, id).value;
    assert m == k;
  }

  // ----- reconciling ----------------------------------------------------------------------------------

  /** The status of a section whose content changed. */
  predicate Restarted(before: Status, after: Status) {
    if before == Pending || before == QaRequired then after == before else after == Stale
  }

  /** What `now` takes over from the section `was` with the same id. */
  ghost predicate TakesOver(next: Section, was: Section, now: Section) {
    && now.id == next.id && now.content == next.content && now.ingestUnit == next.ingestUnit
    && now.outputs == was.outputs && now.qaItems == was.qaItems
    && (was.content == next.content ==> now.status == was.status && now.notes == was.notes && now.previous == was.previous)
    && (was.content != next.content ==>
          Restarted(was.status, now.status) && now.previous == Some(was.status) && now.notes == was.notes + [CHANGED_NOTE])
  }

  /** A section of the new bundle takes over the last section with its id, and is fresh if there is none. */
  ghost predicate Follows(next: Section, prior: seq<Section>, now: Section) {
    && (!Named(prior, next.id) ==> now == next)
    && forall k: nat :: LastAt(prior, next.id, k) ==> TakesOver(next, prior[k], now)
  }

  lemma {:induction false} CarriedExactly(next: Section, prior: seq<Section>)
    ensures Follows(next, prior, Carried(next, prior))
  {
    LastPlace(prior, next.id);
    forall k: nat | LastAt(prior, next.id, k) ensures TakesOver(next, prior[k], Carried(next, prior)) { LastIs(prior, next.id, k); }
  }

  ghost predicate HasChanged(next: Section, prior: seq<Section>) {
    exists k: nat :: LastAt(prior, next.id, k) && prior[k].content != next.content
  }

  /** `ids` are the ids of the sections at the places `at`. */
  ghost predicate Picked(sections: seq<Section>, at: seq<nat>, ids: seq<string>) {
    && |ids| == |at| && (forall i, j :: 0 <= i < j < |at| ==> at[i] < at[j])
    && forall i :: 0 <= i < |at| ==> at[i] < |sections| && ids[i] == sections[at[i]].id
  }

  ghost predicate PicksChanged(next: seq<Section>, prior: seq<Section>, at: seq<nat>) {
    forall i: nat :: i < |next| ==> (i in at <==> HasChanged(next[i], prior))
  }

  lemma {:induction false} ChangedHere(s: Section, prior: seq<Section>)
    ensures HasChanged(s, prior) <==> LastWith(prior, s.id).Some? && s.content != LastWith(prior, s.id).value.content
  {
    LastPlace(prior, s.id);
    forall k: nat | LastAt(prior, s.id, k) ensures LastWith(prior, s.id) == Some(prior[k]) { LastIs(prior, s.id, k); }
  }

  /** The changed ids in the history are those of the changed sections, in order. */
  lemma {:induction false} ChangedExactly(next: seq<Section>, prior: seq<Section>) returns (at: seq<nat>)
    ensures Picked(next, at, ChangedIds(next, prior)) && PicksChanged(next, prior, at)
  {
    at := [];
    if next != [] {
      var front, last := next[..|next| - 1], |next| - 1;
      at := ChangedExactly(front, prior);
      ChangedHere(next[last], prior);
      forall i | 0 <= i < |at| ensures at[i] < last && next[at[i]] == front[at[i]] {}
      PicksMore(next, prior, at);
      if HasChanged(next[last], prior) { at := at + [last]; }
    }
  }

  lemma {:induction false} PicksMore(next: seq<Section>, prior: seq<Section>, at: seq<nat>)
    requires next != [] && PicksChanged(next[..|next| - 1], prior, at) && forall i :: 0 <= i < |at| ==> at[i] < |next| - 1
    ensures PicksChanged(next, prior, if HasChanged(next[|next| - 1], prior) then at + [|next| - 1] else at)
  {
    var front, last := next[..|next| - 1], |next| - 1;
    forall i: nat | i < |next|
      ensures i in (if HasChanged(next[last], prior) then at + [last] else at) <==> HasChanged(next[i], prior)
    {
      if i < last { assert front[i] == next[i]; }
    }
  }

  /** A removed section: the last one with an id the new bundle does not have, now stale. */
  ghost predicate Removed(prior: seq<Section>, next: seq<Section>, r: Section) {
    !Named(next, r.id) && exists k: nat :: LastAt(prior, r.id, k) && r == prior[k].(status := Stale)
  }

  lemma {:induction false} IdsNamed(sections: seq<Section>, id: string)
    ensures id in SectionLedger.IdsOf(sections) <==> Named(sections, id)
  {
    if s :| s in sections && s.id == id {
      var i :| 0 <= i < |sections| && sections[i] == s;
      assert sections[i].id == id;
    }
  }

  lemma {:induction false} KeysDistinct(sections: seq<Section>)
    ensures Distinct(Keys(sections))
  {
    if sections != [] { KeysDistinct(sections[..|sections| - 1]); }
  }

  lemma {:induction false} KeysNamed(sections: seq<Section>, id: string)
    ensures id in Keys(sections) <==> Named(sections, id)
  {
    IdsNamed(sections, id);
    assert id in Keys(sections) <==> exists s :: s in sections && s.id == id;
  }

  /** Orphans by their keys: one for each key the new bundle lacks. */
  lemma {:induction false} OrphansOf(keys: seq<string>, prior: seq<Section>, current: set<string>, r: Section)
    requires forall id :: id in keys ==> LastWith(prior, id).Some?
    ensures r in OrphansAmong(keys, prior, current) <==>
            r.id in keys && r.id !in current && r == LastWith(prior, r.id).value.(status := Stale)
  {
    if keys != [] {
      var front, id := keys[..|keys| - 1], keys[|keys| - 1];
      assert keys == front + [id];
      OrphansOf(front, prior, current, r);
    }
  }

  lemma {:induction false} OrphansOnce(keys: seq<string>, prior: seq<Section>, current: set<string>)
    requires Distinct(keys) && forall id :: id in keys ==> LastWith(prior, id).Some?
    ensures var r := OrphansAmong(keys, prior, current); forall i, j :: 0 <= i < j < |r| ==> r[i].id != r[j].id
  {
    if keys != [] {
      var front, id := keys[..|keys| - 1], keys[|keys| - 1];
      OrphansOnce(front, prior, current);
      var few := OrphansAmong(front, prior, current);
      forall i | 0 <= i < |few| ensures few[i].id in front { OrphansOf(front, prior, current, few[i]); }
      assert id !in front;
    }
  }

  lemma {:induction false} OrphansExactly(prior: seq<Section>, next: seq<Section>, r: Section)
    ensures r in Orphans(prior, SectionLedger.IdsOf(next)) <==> Removed(prior, next, r)
  {
    KeysHaveSections(prior);
    OrphansOf(Keys(prior), prior, SectionLedger.IdsOf(next), r);
    KeysNamed(prior, r.id);
    IdsNamed(next, r.id);
    LastPlace(prior, r.id);
    forall k: nat | LastAt(prior, r.id, k) ensures LastWith(prior, r.id) == Some(prior[k]) { LastIs(prior, r.id, k); }
  }

  ghost predicate AllFollow(next: seq<Section>, prior: seq<Section>, now: seq<Section>) {
    |now| == |next| && forall i :: 0 <= i < |next| ==> Follows(next[i], prior, now[i])
  }

  /** `removed` are the removed sections, once each. */
  ghost predicate AllRemoved(prior: seq<Section>, next: seq<Section>, removed: seq<Section>) {
    && (forall r :: r in removed <==> Removed(prior, next, r))
    && forall i, j :: 0 <= i < j < |removed| ==> removed[i].id != removed[j].id
  }

  lemma {:induction false} OrphansAll(prior: seq<Section>, next: seq<Section>)
    ensures AllRemoved(prior, next, Orphans(prior, SectionLedger.IdsOf(next)))
  {
    var removed, keys := Orphans(prior, SectionLedger.IdsOf(next)), Keys(prior);
    KeysHaveSections(prior);
    KeysDistinct(prior);
    OrphansOnce(keys, prior, SectionLedger.IdsOf(next));
    assert removed == OrphansAmong(keys, prior, SectionLedger.IdsOf(next));
    forall r ensures r in removed <==> Removed(prior, next, r) { OrphansExactly(prior, next, r); }
    assert forall i, j :: 0 <= i < j < |removed| ==> removed[i].id != removed[j].id;
  }

  lemma {:induction false} CarriedFollow(next: seq<Section>, prior: seq<Section>)
    ensures AllFollow(next, prior, CarriedAll(next, prior))
  {
    var now := CarriedAll(next, prior);
    forall i | 0 <= i < |next| ensures Follows(next[i], prior, now[i]) { CarriedExactly(next[i], prior); }
  }

  /** A reconciliation is refused exactly on another source; else each section takes over the last
      one with its id, the removed ones join the orphans, once each, and the history says which
      sections changed. */
  lemma {:induction false} ReconciledExactly(a: Ledger, snap: Snapshot) returns (at: seq<nat>, removed: seq<Section>)
    ensures Reconciled(a, snap).Ok? <==> a.bundle == snap.bundle
    ensures PicksChanged(snap.sections, a.sections, at) && AllRemoved(a.sections, snap.sections, removed)
    ensures Reconciled(a, snap).Ok? ==>
              var b := Reconciled(a, snap).value;
              && b.bundle == snap.bundle && b.validationFailed == snap.validationFailed && b.revision == a.revision + 1
              && AllFollow(snap.sections, a.sections, b.sections) && b.orphaned == a.orphaned + removed
              && exists changed :: Picked(snap.sections, at, changed) && b.history == a.history + [Built(b.revision, changed)]
  {
    at := ChangedExactly(snap.sections, a.sections);
    removed := Orphans(a.sections, SectionLedger.IdsOf(snap.sections));
    OrphansAll(a.sections, snap.sections);
    CarriedFollow(snap.sections, a.sections);
    assert Picked(snap.sections, at, ChangedIds(snap.sections, a.sections));
  }

  // ----- updating ---------------------------------------------------------------------------------------

  const TRANSITIONS: set<(Status, Status)> := {
    (Pending, Pending), (Pending, InProgress), (Pending, QaRequired), (Pending, Skipped),
    (InProgress, InProgress), (InProgress, Pending), (InProgress, Ingested), (InProgress, QaRequired), (InProgress, Skipped),
    (QaRequired, QaRequired), (QaRequired, InProgress), (QaRequired, Skipped),
    (Ingested, Ingested), (Ingested, QaRequired), (Ingested, Stale),
    (Skipped, Skipped), (Skipped, Pending), (Skipped, InProgress),
    (Stale, Stale), (Stale, InProgress), (Stale, QaRequired), (Stale, Skipped)
  }

  lemma {:induction false} AllowedExactly(before: Status, after: Status)
    ensures Allowed(before, after) <==> (before, after) in TRANSITIONS
  {
  }

  /** The status the section is to have. */
  predicate Becomes(s: Section, u: Update, to: Status) { to == if u.status.Some? then u.status.value else s.status }

  /** The section may take the status: the table has the step, and an ingested section has an
      output, a skipped one a note, and one in QA a reason. */
  ghost predicate MayBecome(s: Section, u: Update, to: Status) {
    && s.ingestUnit && (s.status, to) in TRANSITIONS
    && (to == Ingested ==> |u.outputs| + |s.outputs| > 0)
    && (to == Skipped ==> u.note != "")
    && (to == QaRequired ==> |u.qaItems| + |u.note| + |s.qaItems| > 0)
  }

  /** An update succeeds exactly at the expected revision, on a known section that may take the status. */
  lemma {:induction false} UpdateExactly(l: Ledger, u: Update)
    ensures Updated(l, u).Ok? <==>
              && (u.expected.Some? ==> u.expected.value == l.revision)
              && exists k: nat, to :: FirstAt(l.sections, u.section, k) && Becomes(l.sections[k], u, to) && MayBecome(l.sections[k], u, to)
  {
    var at := FirstWith(l.sections, u.section);
    if at.Some? {
      var s := l.sections[at.value];
      assert FirstAt(l.sections, u.section, at.value);
      AllowedExactly(s.status, u.status.GetOr(s.status));
      assert Becomes(s, u, u.status.GetOr(s.status));
      forall k: nat | FirstAt(l.sections, u.section, k) ensures k == at.value {}
    }
  }

  /** `r` is `existing` followed by the new values, each once, in the order they were given. */
  ghost predicate Merged(existing: seq<string>, values: seq<string>, r: seq<string>) {
    && existing <= r && (forall v :: v in r <==> v in existing || v in values)
    && (forall i :: |existing| <= i < |r| ==> r[i] !in r[..i])
    && (forall i, j :: |existing| <= i < j < |r| ==> GivenBefore(values, r[i], r[j]))
  }

  /** `a` is given somewhere before every place of `b`. */
  ghost predicate GivenBefore(values: seq<string>, a: string, b: string) {
    forall n :: 0 <= n < |values| && values[n] == b ==> a in values[..n]
  }

  lemma {:induction false} GivenMore(front: seq<string>, v: string, a: string, b: string)
    requires GivenBefore(front, a, b) && (b in front || a in front)
    ensures GivenBefore(front + [v], a, b)
  {
    var values := front + [v];
    forall n | 0 <= n < |values| && values[n] == b ensures a in values[..n] {
      if n < |front| {
        assert values[..n] == front[..n];
      } else {
        assert values[..n] == front;
        if b in front {
          var m :| 0 <= m < |front| && front[m] == b;
          assert a in front[..m];
        }
      }
    }
  }

  lemma {:induction false} MergedExactly(existing: seq<string>, values: seq<string>)
    ensures Merged(existing, values, MergeUnique(existing, values))
  {
    if values != [] {
      var front, v := values[..|values| - 1], values[|values| - 1];
      assert values == front + [v];
      MergedExactly(existing, front);
      var r, r' := MergeUnique(existing, front), MergeUnique(existing, values);
      forall i | |existing| <= i < |r'| ensures r'[i] !in r'[..i] {
        assert r'[..i] == r[..i];
      }
      forall i, j | |existing| <= i < j < |r'| ensures GivenBefore(values, r'[i], r'[j]) {
        NotExisting(existing, front, r, i);
        if j < |r| {
          GivenMore(front, v, r[i], r[j]);
        } else {
          assert v !in front;
          GivenMore(front, v, r[i], v);
        }
      }
    }
  }

  lemma {:induction false} NotExisting(existing: seq<string>, values: seq<string>, r: seq<string>, i: nat)
    requires Merged(existing, values, r)
    ensures |existing| <= i < |r| ==> r[i] in values
  {
    if |existing| <= i < |r| {
      assert r[i] !in r[..i];
      assert existing <= r[..i];
      assert r[i] in r;
    }
  }

  ghost predicate Edits(s: Section, u: Update, t: Section) {
    && t.id == s.id && t.content == s.content && t.ingestUnit == s.ingestUnit && t.previous == s.previous
    && Becomes(s, u, t.status) && Merged(s.outputs, u.outputs, t.outputs) && Merged(s.qaItems, u.qaItems, t.qaItems)
    && Merged(s.notes, if u.note == "" then [] else [u.note], t.notes)
  }

  lemma {:induction false} EditsExactly(s: Section, u: Update)
    ensures Edits(s, u, WithUpdate(s, u))
  {
    MergedExactly(s.outputs, u.outputs);
    MergedExactly(s.qaItems, u.qaItems);
    if u.note == "" { MergedExactly(s.notes, []); } else { MergedExactly(s.notes, [u.note]); }
  }

  /** What a successful update changes: one section, the revision, and one line of history. */
  lemma {:induction false} UpdateEffect(l: Ledger, u: Update, b: Ledger, k: nat)
    requires Updated(l, u) == Ok(b) && FirstAt(l.sections, u.section, k)
    ensures b.bundle == l.bundle && b.validationFailed == l.validationFailed && b.orphaned == l.orphaned
    ensures b.revision == l.revision + 1 && |b.sections| == |l.sections|
    ensures forall i :: 0 <= i < |l.sections| && i != k ==> b.sections[i] == l.sections[i]
    ensures Edits(l.sections[k], u, b.sections[k])
    ensures b.history == l.history + [SectionUpdated(b.revision, u.section, l.sections[k].status, b.sections[k].status, u.outputs)]
  {
    assert FirstWith(l.sections, u.section) == Some(k);
    EditsExactly(l.sections[k], u);
  }
}
