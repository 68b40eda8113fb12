/** The cuts of a delivery told from its fields: the share each field gets, and each round of the
    packing loop. */
module DeliveryRounds {
  import opened Basics
  import opened Excerpts
  import opened DeliveryPacking

  // ----- the shares ------------------------------------------------------------------------------

  /** A share is the part of the room its weight calls for, rounded down. */
  lemma {:induction false} ShareExactly(available: nat, weight: nat, total: nat)
    requires total > 0
    ensures Share(available, weight, total) * total <= available * weight < (Share(available, weight, total) + 1) * total
  {
    Quotient(available * weight, total);
  }

  lemma {:induction false} Quotient(n: nat, d: nat)
    requires d > 0
    ensures n / d * d <= n < (n / d + 1) * d
  {
  }

  lemma {:induction false} SharesAbove(fields: seq<Field>, available: nat, total: nat)
    requires total > 0 && fields != []
    ensures available * TotalWeight(fields) < (TotalShare(fields, available, total) + |fields|) * total
  {
    var front, w := fields[..|fields| - 1], fields[|fields| - 1].weight;
    ShareExactly(available, w, total);
    var a, b := TotalShare(front, available, total) + |front|, Share(available, w, total) + 1;
    if front != [] {
      SharesAbove(front, available, total);
    } else {
      assert available * TotalWeight(front) == 0 && a * total == 0;
    }
    assert (a + b) * total == a * total + b * total;
    assert available * (TotalWeight(front) + w) == available * TotalWeight(front) + available * w;
  }

  /** Rounding loses less than one character a field. */
  lemma {:induction false} SharesNotShort(fields: seq<Field>, available: nat)
    requires TotalWeight(fields) > 0
    ensures available < TotalShare(fields, available, TotalWeight(fields)) + |fields|
  {
    var total, given := TotalWeight(fields), TotalShare(fields, available, TotalWeight(fields)) + |fields|;
    SharesAbove(fields, available, total);
    AtMost(given, available, total);
  }

  lemma {:induction false} AtMost(a: nat, b: nat, c: nat)
    ensures a <= b ==> a * c <= b * c
  {
    if a <= b { assert b * c == a * c + (b - a) * c; }
  }

  // ----- the first cut --------------------------------------------------------------------------------

  ghost predicate WithoutContent(fields: seq<Field>, empty: seq<Field>) {
    |empty| == |fields| && forall i :: 0 <= i < |fields| ==> empty[i] == fields[i].(content := "")
  }

  lemma {:induction false} EmptiedExactly(fields: seq<Field>)
    ensures WithoutContent(fields, Emptied(fields))
  {
    forall i | 0 <= i < |fields| ensures Emptied(fields)[i] == fields[i].(content := "") { EmptiedAt(fields, i); }
  }

  /** The room for content: the budget less the size without any, but the minimum for each field at least. */
  ghost predicate Room(fields: seq<Field>, size: Sizer, budget: nat, empty: seq<Field>, available: nat) {
    && WithoutContent(fields, empty)
    && available == if budget - size(empty) >= MIN_FIELD * |fields| then budget - size(empty) else MIN_FIELD * |fields|
  }

  /** Field `i` gets an excerpt as long as its share, but of the minimum length at least, and is marked when
      that is not its own text. */
  ghost predicate CutTo(f: Field, cut: Field, available: nat, total: nat) {
    && cut.record == f.record && cut.passage == f.passage && cut.weight == f.weight
    && (cut.excerpted <==> f.excerpted || cut.content != f.passage.text)
    && exists limit: nat :: cut.content == Excerpt(f.passage, limit) && limit >= MIN_FIELD
         && (limit == MIN_FIELD || limit == Share(available, f.weight, total)) && limit >= Share(available, f.weight, total)
  }

  /** A delivery over its budget is cut field by field; any other stays as it is. */
  lemma {:induction false} FirstCutExactly(fields: seq<Field>, size: Sizer, budget: nat) returns (empty: seq<Field>, available: nat)
    ensures Room(fields, size, budget, empty, available) && |FirstCut(fields, size, budget)| == |fields|
    ensures if size(fields) <= budget then FirstCut(fields, size, budget) == fields
            else forall i :: 0 <= i < |fields| ==> CutTo(fields[i], FirstCut(fields, size, budget)[i], available, TotalWeight(fields))
  {
    empty, available := Emptied(fields), Max(MIN_FIELD * |fields|, budget - size(Emptied(fields)));
    EmptiedExactly(fields);
    forall i | 0 <= i < |fields| ensures CutTo(fields[i], Cuts(fields, available, TotalWeight(fields))[i], available, TotalWeight(fields)) {
      CutsAt(fields, available, TotalWeight(fields), i);
      CutAsTold(fields[i], available, TotalWeight(fields));
    }
  }

  lemma {:induction false} CutAsTold(f: Field, available: nat, total: nat)
    ensures CutTo(f, Cut(f, available, total), available, total)
  {
    var limit: nat := Max(MIN_FIELD, Share(available, f.weight, total));
    assert Cut(f, available, total).content == Excerpt(f.passage, limit);
  }

  // ----- the rounds ---------------------------------------------------------------------------------------

  /** The first of the longest fields. */
  predicate LongestAt(fields: seq<Field>, k: nat) {
    && k < |fields| && (forall i :: 0 <= i < k ==> |fields[i].content| < |fields[k].content|)
    && forall i :: k < i < |fields| ==> |fields[i].content| <= |fields[k].content|
  }

  /** One round: over the budget, the first of the longest fields, longer than the minimum, is cut
      again to four fifths of its length, but not below the minimum. */
  ghost predicate Round(a: seq<Field>, size: Sizer, budget: nat, b: seq<Field>, k: nat, target: nat) {
    && size(a) > budget && LongestAt(a, k) && |a[k].content| > MIN_FIELD && |b| == |a|
    && target >= MIN_FIELD && 5 * target > 4 * |a[k].content| - 5 && (target == MIN_FIELD || 5 * target <= 4 * |a[k].content|)
    && (forall i :: 0 <= i < |a| && i != k ==> b[i] == a[i])
    && b[k] == a[k].(content := Excerpt(a[k].passage, target), excerpted := true)
  }

  ghost predicate SomeRound(a: seq<Field>, size: Sizer, budget: nat, b: seq<Field>) {
    exists k, target :: Round(a, size, budget, b, k, target)
  }

  ghost predicate RoundAt(rs: seq<seq<Field>>, size: Sizer, budget: nat, n: nat)
    requires n + 1 < |rs|
  {
    SomeRound(rs[n], size, budget, rs[n + 1])
  }

  /** The packing is a sequence of such rounds, and ends when the budget holds or no field is longer
      than the minimum. */
  lemma {:induction false} PackingRounds(fields: seq<Field>, size: Sizer, budget: nat) returns (rs: seq<seq<Field>>)
    ensures rs != [] && rs[0] == fields && rs[|rs| - 1] == Packing(fields, size, budget)
    ensures forall n: nat :: n + 1 < |rs| ==> RoundAt(rs, size, budget, n)
    ensures var last := rs[|rs| - 1]; size(last) <= budget || forall i :: 0 <= i < |last| ==> |last[i].content| <= MIN_FIELD
    decreases TotalContent(fields)
  {
    if size(fields) <= budget || fields == [] || |fields[Largest(fields)].content| <= MIN_FIELD {
      rs := [fields];
    } else {
      var k := Largest(fields);
      var after := fields[k := Shrunk(fields[k])];
      TotalAfter(fields, k, Shrunk(fields[k]));
      OneRound(fields, size, budget);
      var rest := PackingRounds(after, size, budget);
      rs := [fields] + rest;
      forall n: nat | n + 1 < |rs| ensures RoundAt(rs, size, budget, n) { RoundOn(fields, rest, size, budget, n); }
    }
  }

  lemma {:induction false} OneRound(fields: seq<Field>, size: Sizer, budget: nat)
    requires size(fields) > budget && fields != [] && |fields[Largest(fields)].content| > MIN_FIELD
    ensures SomeRound(fields, size, budget, fields[Largest(fields) := Shrunk(fields[Largest(fields)])])
  {
    var k := Largest(fields);
    var target: nat := Max(MIN_FIELD, |fields[k].content| * 4 / 5);
    assert Round(fields, size, budget, fields[k := Shrunk(fields[k])], k, target);
  }

  lemma {:induction false} RoundOn(first: seq<Field>, rest: seq<seq<Field>>, size: Sizer, budget: nat, n: nat)
    requires rest != [] && n < |rest| && SomeRound(first, size, budget, rest[0])
    requires forall m: nat :: m + 1 < |rest| ==> RoundAt(rest, size, budget, m)
    ensures RoundAt([first] + rest, size, budget, n)
  {
    if n > 0 { assert RoundAt(rest, size, budget, n - 1); }
  }
}
