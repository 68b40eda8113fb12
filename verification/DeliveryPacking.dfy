/** Fitting the content fields of a delivery into a character budget. */
module DeliveryPacking {
  import opened Basics
  import opened Excerpts

  const MIN_FIELD: nat := 400

  /** One content field; `record` stands for everything else its container holds: paths, ids,
      evidence references. The original content is the passage's text. */
  datatype Field = Field(record: string, passage: Passage, weight: nat, content: string, excerpted: bool)

  /** The serialized size of the delivery with these fields in it. */
  type Sizer = seq<Field> -> nat

  // ----- the first cut: a share of the budget for each field --------------------------------------------

  function Emptied(fields: seq<Field>): (e: seq<Field>)
    ensures |e| == |fields|
  {
    if fields == [] then [] else Emptied(fields[..|fields| - 1]) + [fields[|fields| - 1].(content := "")]
  }

  function TotalWeight(fields: seq<Field>): nat {
    if fields == [] then 0 else TotalWeight(fields[..|fields| - 1]) + fields[|fields| - 1].weight
  }

  function Share(available: nat, weight: nat, total: nat): nat { available * weight / Max(1, total) }

  function Cut(f: Field, available: nat, total: nat): Field {
    var content := Excerpt(f.passage, Max(MIN_FIELD, Share(available, f.weight, total)));
    f.(content := content, excerpted := f.excerpted || content != f.passage.text)
  }

  function Cuts(fields: seq<Field>, available: nat, total: nat): (r: seq<Field>)
    ensures |r| == |fields|
  {
    if fields == [] then []
    else Cuts(fields[..|fields| - 1], available, total) + [Cut(fields[|fields| - 1], available, total)]
  }

  function Shared(fields: seq<Field>, available: nat): (r: seq<Field>)
    ensures |r| == |fields|
  {
    Cuts(fields, available, TotalWeight(fields))
  }

  function FirstCut(fields: seq<Field>, size: Sizer, budget: nat): (r: seq<Field>)
    ensures |r| == |fields|
  {
    if size(fields) <= budget || fields == [] then fields
    else Shared(fields, Max(MIN_FIELD * |fields|, budget - size(Emptied(fields))))
  }

  // ----- the packing loop ----------------------------------------------------------------------------------

  function Largest(fields: seq<Field>): (k: nat)
    requires fields != []
    ensures k < |fields| && forall i :: 0 <= i < |fields| ==> |fields[i].content| <= |fields[k].content|
    ensures forall i :: 0 <= i < k ==> |fields[i].content| < |fields[k].content|
  {
    if |fields| == 1 then 0
    else
      var k := Largest(fields[..|fields| - 1]);
      if |fields[|fields| - 1].content| > |fields[k].content| then |fields| - 1 else k
  }

  function Shrunk(f: Field): (s: Field)
    ensures |f.content| > MIN_FIELD ==> |s.content| < |f.content|
  {
    var target := Max(MIN_FIELD, |f.content| * 4 / 5);
    ExcerptWithinLimit(f.passage, target);
    f.(content := Excerpt(f.passage, target), excerpted := true)
  }

  function TotalContent(fields: seq<Field>): nat {
    if fields == [] then 0 else TotalContent(fields[..|fields| - 1]) + |fields[|fields| - 1].content|
  }

  lemma {:induction false} TotalAfter(fields: seq<Field>, k: nat, f: Field)
    requires k < |fields|
    ensures TotalContent(fields[k := f]) == TotalContent(fields) - |fields[k].content| + |f.content|
  {
    var last := |fields| - 1;
    if k == last {
      assert fields[k := f][..last] == fields[..last];
    } else {
      assert fields[k := f][..last] == fields[..last][k := f];
      TotalAfter(fields[..last], k, f);
    }
  }

  function Packing(fields: seq<Field>, size: Sizer, budget: nat): (r: seq<Field>)
    ensures |r| == |fields|
    decreases TotalContent(fields)
  {
    if size(fields) <= budget || fields == [] then fields
    else
      var k := Largest(fields);
      if |fields[k].content| <= MIN_FIELD then fields
      else
        TotalAfter(fields, k, Shrunk(fields[k]));
        Packing(fields[k := Shrunk(fields[k])], size, budget)
  }

  // ----- in place --------------------------------------------------------------------------------------------

  method CompactContents(fields: array<Field>, size: Sizer, budget: nat)
    modifies fields
    ensures fields[..] == Packing(FirstCut(old(fields[..]), size, budget), size, budget)
  {
    CutWhenOver(fields, size, budget);
    PackFields(fields, size, budget);
  }

  method CutWhenOver(fields: array<Field>, size: Sizer, budget: nat)
    modifies fields
    ensures fields[..] == FirstCut(old(fields[..]), size, budget)
  {
    if size(fields[..]) > budget && fields.Length > 0 { CutFields(fields, size, budget); }
  }

  method CutFields(fields: array<Field>, size: Sizer, budget: nat)
    requires fields.Length > 0
    modifies fields
    ensures fields[..] == Shared(old(fields[..]), Max(MIN_FIELD * fields.Length, budget - size(Emptied(old(fields[..])))))
  {
    ghost var originals := fields[..];
    var total := WeightOf(fields);
    var available := EmptyFields(fields, size, budget);
    CutEach(fields, originals, available, total);
  }

  method EmptyFields(fields: array<Field>, size: Sizer, budget: nat) returns (available: nat)
    modifies fields
    ensures fields[..] == Emptied(old(fields[..]))
    ensures available == Max(MIN_FIELD * fields.Length, budget - size(Emptied(old(fields[..]))))
  {
    Empty(fields);
    available := Max(MIN_FIELD * fields.Length, budget - size(fields[..]));
  }

  lemma {:induction false} EmptiedAt(fields: seq<Field>, i: nat)
    requires i < |fields|
    ensures Emptied(fields)[i] == fields[i].(content := "")
  {
    if i < |fields| - 1 { EmptiedAt(fields[..|fields| - 1], i); }
  }

  method CutEach(fields: array<Field>, ghost originals: seq<Field>, available: nat, total: nat)
    requires fields[..] == Emptied(originals)
    modifies fields
    ensures fields[..] == Cuts(originals, available, total)
  {
    ghost var empty := fields[..];
    for n := 0 to fields.Length
      invariant fields[..n] == Cuts(originals[..n], available, total)
      invariant fields[n..] == empty[n..]
    {
      EmptiedAt(originals, n);
      assert fields[n] == fields[n..][0] == empty[n];
      assert originals[..n + 1][..n] == originals[..n];
      fields[n] := CutOne(fields[n], originals[n], available, total);
      assert fields[n + 1..] == empty[n..][1..];
    }
    assert originals[..|originals|] == originals;
  }

  method CutOne(f: Field, ghost original: Field, available: nat, total: nat) returns (cut: Field)
    requires f == original.(content := "")
    ensures cut == Cut(original, available, total)
  {
    var allocation := Max(MIN_FIELD, Share(available, f.weight, total));
    var excerpt := MatchedExcerpt(f.passage, allocation);
    cut := f.(content := excerpt, excerpted := f.excerpted || excerpt != f.passage.text);
  }

  method WeightOf(fields: array<Field>) returns (total: nat)
    ensures total == TotalWeight(fields[..])
  {
    total := 0;
    for n := 0 to fields.Length
      invariant total == TotalWeight(fields[..n])
    {
      assert fields[..n + 1][..n] == fields[..n];
      total := total + fields[n].weight;
    }
    assert fields[..fields.Length] == fields[..];
  }

  method Empty(fields: array<Field>)
    modifies fields
    ensures fields[..] == Emptied(old(fields[..]))
  {
    ghost var originals := fields[..];
    for n := 0 to fields.Length
      invariant fields[..n] == Emptied(originals[..n])
      invariant fields[n..] == originals[n..]
    {
      assert fields[n] == fields[n..][0] == originals[n];
      assert originals[..n + 1][..n] == originals[..n];
      fields[n] := fields[n].(content := "");
      assert fields[n + 1..] == originals[n..][1..];
    }
    assert fields[..fields.Length] == fields[..] && originals[..fields.Length] == originals;
  }

  method PackFields(fields: array<Field>, size: Sizer, budget: nat)
    modifies fields
    ensures fields[..] == Packing(old(fields[..]), size, budget)
  {
    while size(fields[..]) > budget && fields.Length > 0
      invariant Packing(fields[..], size, budget) == Packing(old(fields[..]), size, budget)
      decreases TotalContent(fields[..])
    {
      var k := FindLargest(fields);
      var f := fields[k];
      if |f.content| <= MIN_FIELD { break; }
      var target := Max(MIN_FIELD, |f.content| * 4 / 5);
      var excerpt := MatchedExcerpt(f.passage, target);
      ghost var before := fields[..];
      TotalAfter(before, k, Shrunk(f));
      fields[k] := f.(content := excerpt, excerpted := true);
      assert fields[..] == before[k := Shrunk(f)];
    }
  }

  method FindLargest(fields: array<Field>) returns (k: nat)
    requires fields.Length > 0
    ensures k == Largest(fields[..])
  {
    k := 0;
    for n := 1 to fields.Length
      invariant k < n && forall i :: 0 <= i < n ==> |fields[i].content| <= |fields[k].content|
      invariant forall i :: 0 <= i < k ==> |fields[i].content| < |fields[k].content|
    {
      if |fields[n].content| > |fields[k].content| { k := n; }
    }
    assert |fields[..][k].content| == |fields[..][Largest(fields[..])].content|;
  }

  // ----- what packing guarantees ------------------------------------------------------------------------------

  /** What is not content is the same before and after. */
  ghost predicate SameRecords(a: seq<Field>, b: seq<Field>) {
    |a| == |b| && forall i :: 0 <= i < |a| ==> a[i].record == b[i].record && a[i].passage == b[i].passage && a[i].weight == b[i].weight
  }

  /** A field is marked exactly when its content is not the original, and its content is the
      original or an excerpt of it within some limit. */
  ghost predicate Marked(f: Field) {
    && (f.excerpted <==> f.content != f.passage.text)
    && (f.excerpted ==> exists limit: nat :: f.content == Excerpt(f.passage, limit))
  }

  ghost predicate AllMarked(fields: seq<Field>) { forall i :: 0 <= i < |fields| ==> Marked(fields[i]) }

  lemma {:induction false} ExcerptNoLonger(p: Passage, limit: nat)
    ensures |Excerpt(p, limit)| <= |p.text|
  {
    if |p.text| > limit { ExcerptWithinLimit(p, limit); }
  }

  lemma {:induction false} MarkedNoLonger(f: Field)
    requires Marked(f)
    ensures |f.content| <= |f.passage.text|
  {
    if f.excerpted {
      var limit: nat :| f.content == Excerpt(f.passage, limit);
      ExcerptNoLonger(f.passage, limit);
    }
  }

  lemma {:induction false} ShrunkMarked(f: Field)
    requires Marked(f) && |f.content| > MIN_FIELD
    ensures Marked(Shrunk(f))
  {
    MarkedNoLonger(f);
    assert Shrunk(f).content == Excerpt(f.passage, Max(MIN_FIELD, |f.content| * 4 / 5));
  }

  lemma {:induction false} CutMarked(f: Field, available: nat, total: nat)
    requires !f.excerpted
    ensures Marked(Cut(f, available, total))
  {
    assert Cut(f, available, total).content == Excerpt(f.passage, Max(MIN_FIELD, Share(available, f.weight, total)));
  }

  lemma {:induction false} CutsAt(fields: seq<Field>, available: nat, total: nat, i: nat)
    requires i < |fields|
    ensures Cuts(fields, available, total)[i] == Cut(fields[i], available, total)
  {
    if i < |fields| - 1 { CutsAt(fields[..|fields| - 1], available, total, i); }
  }

  /** One round of the loop: a strictly smaller total, everything else as before. */
  lemma {:induction false} RoundShrinks(fields: seq<Field>, k: nat)
    requires k < |fields| && |fields[k].content| > MIN_FIELD && AllMarked(fields)
    ensures var after := fields[k := Shrunk(fields[k])];
            TotalContent(after) < TotalContent(fields) && SameRecords(fields, after) && AllMarked(after)
  {
    TotalAfter(fields, k, Shrunk(fields[k]));
    ShrunkMarked(fields[k]);
  }

  lemma {:induction false} PackingOutcome(fields: seq<Field>, size: Sizer, budget: nat)
    requires AllMarked(fields)
    ensures var r := Packing(fields, size, budget);
            && SameRecords(fields, r) && AllMarked(r)
            && (size(r) <= budget || forall i :: 0 <= i < |r| ==> |r[i].content| <= MIN_FIELD)
            && TotalContent(r) <= TotalContent(fields)
            && (r == fields || TotalContent(r) < TotalContent(fields))
    decreases TotalContent(fields)
  {
    if size(fields) > budget && fields != [] && |fields[Largest(fields)].content| > MIN_FIELD {
      var k := Largest(fields);
      RoundShrinks(fields, k);
      PackingOutcome(fields[k := Shrunk(fields[k])], size, budget);
    }
  }

  ghost predicate Fresh(fields: seq<Field>) {
    forall i :: 0 <= i < |fields| ==> !fields[i].excerpted && fields[i].content == fields[i].passage.text
  }

  /** On exit the budget holds or every content field is at its minimum; paths, ids and evidence
      references are untouched, and exactly the changed fields are marked as excerpts. */
  lemma {:induction false} DeliveryOutcome(fields: seq<Field>, size: Sizer, budget: nat)
    requires Fresh(fields)
    ensures var r := Packing(FirstCut(fields, size, budget), size, budget);
            && SameRecords(fields, r) && AllMarked(r)
            && (size(r) <= budget || forall i :: 0 <= i < |r| ==> |r[i].content| <= MIN_FIELD)
            && (size(fields) <= budget ==> r == fields)
  {
    var cut := FirstCut(fields, size, budget);
    if size(fields) > budget && fields != [] {
      var available, total := Max(MIN_FIELD * |fields|, budget - size(Emptied(fields))), TotalWeight(fields);
      forall i | 0 <= i < |fields| ensures Marked(cut[i]) && cut[i].record == fields[i].record
                                   && cut[i].passage == fields[i].passage && cut[i].weight == fields[i].weight {
        CutsAt(fields, available, total, i);
        CutMarked(fields[i], available, total);
      }
    }
    PackingOutcome(cut, size, budget);
  }

  // ----- the shares ----------------------------------------------------------------------------------------------

  function TotalShare(fields: seq<Field>, available: nat, total: nat): nat {
    if fields == [] then 0
    else TotalShare(fields[..|fields| - 1], available, total) + Share(available, fields[|fields| - 1].weight, total)
  }

  lemma {:induction false} ShareBound(available: nat, weight: nat, total: nat)
    requires total > 0
    ensures Share(available, weight, total) * total <= available * weight
  {
  }

  lemma {:induction false} SharesBound(fields: seq<Field>, available: nat, total: nat)
    requires total > 0
    ensures TotalShare(fields, available, total) * total <= available * TotalWeight(fields)
  {
    if fields != [] {
      var front, w := fields[..|fields| - 1], fields[|fields| - 1].weight;
      SharesBound(front, available, total);
      ShareBound(available, w, total);
      Sums(TotalShare(front, available, total), Share(available, w, total), total, available, TotalWeight(front), w);
    }
  }

  lemma {:induction false} Sums(a: nat, b: nat, total: nat, available: nat, v: nat, w: nat)
    requires a * total <= available * v && b * total <= available * w
    ensures (a + b) * total <= available * (v + w)
  {
    assert (a + b) * total == a * total + b * total;
    assert available * (v + w) == available * v + available * w;
  }

  /** The shares never add up to more than what is available. */
  lemma {:induction false} SharesFit(fields: seq<Field>, available: nat)
    ensures TotalShare(fields, available, TotalWeight(fields)) <= available
  {
    var total := TotalWeight(fields);
    if total > 0 {
      SharesBound(fields, available, total);
      Cancel(TotalShare(fields, available, total), available, total);
    } else {
      NoShare(fields, available);
    }
  }

  lemma {:induction false} Cancel(a: nat, b: nat, c: nat)
    requires c > 0
    ensures a > b ==> a * c > b * c
  {
    if a > b { assert a * c == b * c + (a - b) * c; }
  }

  lemma {:induction false} NoShare(fields: seq<Field>, available: nat)
    requires TotalWeight(fields) == 0
    ensures TotalShare(fields, available, 0) == 0
  {
    if fields != [] { NoShare(fields[..|fields| - 1], available); }
  }

  /** When every share reaches the minimum, the first cut alone leaves no more content than is
      available beside the fixed part. */
  lemma {:induction false} FirstCutFits(fields: seq<Field>, available: nat)
    requires forall i :: 0 <= i < |fields| ==> Share(available, fields[i].weight, TotalWeight(fields)) >= MIN_FIELD
    ensures TotalContent(Shared(fields, available)) <= available
  {
    CutsWithinShares(fields, available, TotalWeight(fields));
    SharesFit(fields, available);
  }

  lemma {:induction false} CutsWithinShares(fields: seq<Field>, available: nat, total: nat)
    requires forall i :: 0 <= i < |fields| ==> Share(available, fields[i].weight, total) >= MIN_FIELD
    ensures TotalContent(Cuts(fields, available, total)) <= TotalShare(fields, available, total)
  {
    if fields != [] {
      var front, last := fields[..|fields| - 1], fields[|fields| - 1];
      CutsWithinShares(front, available, total);
      ExcerptWithinLimit(last.passage, Max(MIN_FIELD, Share(available, last.weight, total)));
      var cuts := Cuts(front, available, total);
      assert (cuts + [Cut(last, available, total)])[..|cuts|] == cuts;
    }
  }
}
