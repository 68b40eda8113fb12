/** Query-matched excerpts of a passage under a character limit. */
module Excerpts {
  import opened Basics

  const MARKER: string := "[... unmatched source content omitted from agent delivery ...]"

  const GAP: string := "\n\n"

  /** A passage as the query sees it: its non-empty blocks, the distinct terms looked for, which of
      them each block holds, and the place in the text that a last-resort window is put around. */
  datatype Passage = Passage(text: string, blocks: seq<string>, terms: seq<string>, found: seq<set<string>>,
                             anchor: nat)

  ghost predicate Read(p: Passage) {
    && |p.found| == |p.blocks|
    && (forall i, t :: 0 <= i < |p.found| && t in p.found[i] ==> t in p.terms)
    && Distinct(p.terms)
  }

  ghost predicate IsPart(whole: string, part: string) { exists a, b :: whole == a + part + b }

  /** Python's `part in whole`. */
  predicate Contains(whole: string, part: string) {
    part <= whole || (whole != [] && Contains(whole[1..], part))
  }

  lemma {:induction false} FoundIsPart(whole: string, part: string)
    requires Contains(whole, part)
    ensures IsPart(whole, part)
  {
    if part <= whole {
      assert whole == [] + part + whole[|part|..];
    } else {
      FoundIsPart(whole[1..], part);
      var a, b :| whole[1..] == a + part + b;
      assert whole == ([whole[0]] + a) + part + b;
    }
  }

  lemma {:induction false} PartIsFound(a: string, part: string, b: string)
    ensures Contains(a + part + b, part)
  {
    if a == [] {
      assert part <= a + part + b;
    } else {
      PartIsFound(a[1..], part, b);
      assert (a + part + b)[1..] == a[1..] + part + b;
    }
  }

  lemma {:induction false} ContainsExactly(whole: string, part: string)
    ensures Contains(whole, part) <==> IsPart(whole, part)
  {
    if Contains(whole, part) { FoundIsPart(whole, part); }
    if a, b :| whole == a + part + b { PartIsFound(a, part, b); }
  }

  /** The terms a block holds are those that occur in it once its case is folded. */
  ghost predicate HeldIn(p: Passage, fold: string -> string) {
    && Read(p)
    && forall i, t :: 0 <= i < |p.blocks| ==> (t in p.found[i] <==> t in p.terms && IsPart(fold(p.blocks[i]), t))
  }

  method FindHeld(text: string, blocks: seq<string>, terms: seq<string>, fold: string -> string, anchor: nat) returns (p: Passage)
    requires Distinct(terms)
    ensures p.text == text && p.blocks == blocks && p.terms == terms && p.anchor == anchor && HeldIn(p, fold)
  {
    var found: seq<set<string>> := [];
    for n := 0 to |blocks|
      invariant |found| == n
      invariant forall i, t :: 0 <= i < n ==> (t in found[i] <==> t in terms && IsPart(fold(blocks[i]), t))
    {
      var folded := fold(blocks[n]);
      forall t ensures Contains(folded, t) <==> IsPart(folded, t) { ContainsExactly(folded, t); }
      found := found + [set t | t in terms && Contains(folded, t)];
    }
    p := Passage(text, blocks, terms, found, anchor);
  }

  // ----- choosing blocks ---------------------------------------------------------------------------------

  /** A term weighs its length, and at least one. */
  function Weight(terms: seq<string>, held: set<string>): nat {
    if terms == [] then 0
    else
      var t := terms[|terms| - 1];
      Weight(terms[..|terms| - 1], held) + (if t in held then Max(1, |t|) else 0)
  }

  lemma {:induction false} NoWeight(terms: seq<string>, held: set<string>)
    requires Weight(terms, held) == 0
    ensures forall t :: t in terms ==> t !in held
  {
    if terms != [] {
      NoWeight(terms[..|terms| - 1], held);
      assert terms == terms[..|terms| - 1] + [terms[|terms| - 1]];
    }
  }

  /** The sort key of a block: the weight of the terms still missing, then of all its terms; the
      earlier block wins a tie. */
  predicate Stronger(p: Passage, uncovered: set<string>, i: nat, j: nat)
    requires i < |p.found| && j < |p.found|
  {
    var x, y := Weight(p.terms, p.found[i] * uncovered), Weight(p.terms, p.found[j] * uncovered);
    x > y || (x == y && Weight(p.terms, p.found[i]) > Weight(p.terms, p.found[j]))
  }

  /** The best of the first `n` blocks that are not yet selected. */
  function Best(p: Passage, selected: set<nat>, uncovered: set<string>, n: nat): (best: Option<nat>)
    requires n <= |p.found|
    ensures best.Some? ==> best.value < n && best.value !in selected
    ensures best.None? ==> forall i: nat :: i < n ==> i in selected
  {
    if n == 0 then None
    else
      var before := Best(p, selected, uncovered, n - 1);
      if n - 1 in selected then before
      else if before.None? || Stronger(p, uncovered, n - 1, before.value) then Some(n - 1)
      else before
  }

  lemma {:induction false} BestIsStrongest(p: Passage, selected: set<nat>, uncovered: set<string>, n: nat, i: nat)
    requires i < n <= |p.found| && i !in selected
    ensures var best := Best(p, selected, uncovered, n);
            best.Some? && Weight(p.terms, p.found[i] * uncovered) <= Weight(p.terms, p.found[best.value] * uncovered)
  {
    if i < n - 1 { BestIsStrongest(p, selected, uncovered, n - 1, i); }
  }

  function Unselected(p: Passage, selected: set<nat>): nat { |set i: nat | i < |p.found| && i !in selected| }

  lemma {:induction false} OneFewer(p: Passage, selected: set<nat>, i: nat)
    requires i < |p.found| && i !in selected
    ensures Unselected(p, selected + {i}) < Unselected(p, selected)
  {
    var a := set k: nat | k < |p.found| && k !in selected;
    var b := set k: nat | k < |p.found| && k !in selected + {i};
    assert b == a - {i};
  }

  /** The greedy choice, continued from `selected`. */
  function Greedy(p: Passage, selected: set<nat>, uncovered: set<string>): set<nat>
    decreases Unselected(p, selected)
  {
    var best := Best(p, selected, uncovered, |p.found|);
    if uncovered == {} || best.None? || p.found[best.value] * uncovered == {} then selected
    else
      OneFewer(p, selected, best.value);
      Greedy(p, selected + {best.value}, uncovered - p.found[best.value])
  }

  function TermSet(p: Passage): set<string> { set t | t in p.terms }

  function Chosen(p: Passage): set<nat> { Greedy(p, {}, TermSet(p)) }

  method ChooseBlocks(p: Passage) returns (selected: set<nat>)
    ensures selected == Chosen(p)
  {
    var uncovered := TermSet(p);
    selected := {};
    while uncovered != {}
      invariant Greedy(p, selected, uncovered) == Chosen(p)
      decreases Unselected(p, selected)
    {
      var best := FindBest(p, selected, uncovered);
      if best.None? || p.found[best.value] * uncovered == {} { return; }
      OneFewer(p, selected, best.value);
      selected := selected + {best.value};
      uncovered := uncovered - p.found[best.value];
    }
  }

  method FindBest(p: Passage, selected: set<nat>, uncovered: set<string>) returns (best: Option<nat>)
    ensures best == Best(p, selected, uncovered, |p.found|)
  {
    best := None;
    for n := 0 to |p.found|
      invariant best == Best(p, selected, uncovered, n)
    {
      if n !in selected && (best.None? || Stronger(p, uncovered, n, best.value)) { best := Some(n); }
    }
  }

  ghost predicate CoveredBy(p: Passage, selected: set<nat>, t: string) {
    exists i: nat :: i < |p.found| && i in selected && t in p.found[i]
  }

  lemma {:induction false} GreedyCovers(p: Passage, selected: set<nat>, uncovered: set<string>)
    requires Read(p)
    requires forall t :: t in p.terms && t !in uncovered ==> CoveredBy(p, selected, t)
    ensures selected <= Greedy(p, selected, uncovered)
    ensures forall i: nat, t :: i < |p.found| && t in p.found[i] ==> CoveredBy(p, Greedy(p, selected, uncovered), t)
    decreases Unselected(p, selected)
  {
    var best := Best(p, selected, uncovered, |p.found|);
    if uncovered == {} || best.None? || p.found[best.value] * uncovered == {} {
      forall i: nat, t | i < |p.found| && t in p.found[i] ensures CoveredBy(p, selected, t) {
        if i !in selected && t in uncovered {
          NothingLeft(p, selected, uncovered, i, t);
        }
      }
    } else {
      OneFewer(p, selected, best.value);
      var more := selected + {best.value};
      forall t | t in p.terms && t !in uncovered - p.found[best.value] ensures CoveredBy(p, more, t) {
        if t !in uncovered {
          var i: nat :| i < |p.found| && i in selected && t in p.found[i];
          assert i in more;
        }
      }
      GreedyCovers(p, more, uncovered - p.found[best.value]);
    }
  }

  /** Where the greedy choice stops, no block left out holds a missing term. */
  lemma {:induction false} NothingLeft(p: Passage, selected: set<nat>, uncovered: set<string>, i: nat, t: string)
    requires Read(p) && i < |p.found| && i !in selected && t in p.found[i]
    requires var best := Best(p, selected, uncovered, |p.found|);
             uncovered == {} || best.None? || p.found[best.value] * uncovered == {}
    ensures t !in uncovered
  {
    BestIsStrongest(p, selected, uncovered, |p.found|, i);
    var best := Best(p, selected, uncovered, |p.found|).value;
    if p.found[best] * uncovered == {} {
      EmptyWeight(p.terms);
      NoWeight(p.terms, p.found[i] * uncovered);
      assert t in p.terms;
    }
  }

  lemma {:induction false} EmptyWeight(terms: seq<string>)
    ensures Weight(terms, {}) == 0
  {
    if terms != [] { EmptyWeight(terms[..|terms| - 1]); }
  }

  /** Every term that some block holds is held by a chosen block. */
  lemma {:induction false} ChosenCoverAll(p: Passage, i: nat, t: string)
    requires Read(p) && i < |p.found| && t in p.found[i]
    ensures CoveredBy(p, Chosen(p), t)
  {
    GreedyCovers(p, {}, TermSet(p));
  }

  // ----- writing the blocks out -----------------------------------------------------------------------------

  predicate Near(s: set<nat>, i: nat) { i in s || i + 1 in s || (i > 0 && i - 1 in s) }

  /** The chosen blocks with their neighbours; the first block when none was chosen. */
  function Widened(p: Passage, chosen: set<nat>): (wide: set<nat>)
    ensures p.blocks != [] && (chosen != {} ==> forall i :: i in chosen ==> i < |p.blocks|) ==> wide != {}
    ensures forall i :: i in wide ==> i < |p.blocks|
    ensures forall i: nat :: i in chosen && i < |p.blocks| ==> i in wide
  {
    var start: set<nat> := if chosen == {} then {0} else chosen;
    var wide := set i: nat | i < |p.blocks| && Near(start, i);
    assert p.blocks != [] && chosen == {} ==> 0 in wide;
    assert p.blocks != [] && chosen != {} && (forall i :: i in chosen ==> i < |p.blocks|) ==> wide != {} by {
      if i :| i in chosen { assert i < |p.blocks| ==> i in wide; }
    }
    wide
  }

  function Optional(present: bool, part: string): seq<string> { if present then [part] else [] }

  /** The parts for the first `n` blocks: a marker where blocks were skipped between two others. */
  function Inner(p: Passage, s: set<nat>, n: nat): seq<string>
    requires n <= |p.blocks|
  {
    if n == 0 then []
    else if n - 1 !in s then Inner(p, s, n - 1)
    else
      Inner(p, s, n - 1)
      + Optional(Inner(p, s, n - 1) != [] && n >= 2 && n - 2 !in s, MARKER)
      + [p.blocks[n - 1]]
  }

  function Parts(p: Passage, s: set<nat>): seq<string> {
    Optional(0 !in s, MARKER) + Inner(p, s, |p.blocks|) + Optional(|p.blocks| > 0 && |p.blocks| - 1 !in s, MARKER)
  }

  function Join(parts: seq<string>): string {
    if parts == [] then [] else if |parts| == 1 then parts[0] else Join(parts[..|parts| - 1]) + GAP + parts[|parts| - 1]
  }

  function Render(p: Passage, s: set<nat>): string { Join(Parts(p, s)) }

  method RenderBlocks(p: Passage, s: set<nat>) returns (text: string)
    ensures text == Render(p, s)
  {
    var parts: seq<string> := [];
    var previous: Option<nat> := None;
    for n := 0 to |p.blocks|
      invariant parts == Inner(p, s, n)
      invariant previous.None? <==> parts == []
      invariant previous.Some? ==> previous.value < n && previous.value in s
      invariant forall i: nat :: (previous.Some? ==> previous.value < i) && i < n ==> i !in s
    {
      if n in s {
        if previous.Some? && n != previous.value + 1 { parts := parts + [MARKER]; }
        parts := parts + [p.blocks[n]];
        previous := Some(n);
      }
    }
    if 0 !in s { parts := [MARKER] + parts; }
    if |p.blocks| > 0 && |p.blocks| - 1 !in s { parts := parts + [MARKER]; }
    assert parts == Parts(p, s);
    return Join(parts);
  }

  /** The same parts said block by block: every run of left-out blocks becomes one marker. */
  function Collapsed(p: Passage, s: set<nat>, n: nat): seq<string>
    requires n <= |p.blocks|
  {
    if n == 0 then []
    else if n - 1 in s then Collapsed(p, s, n - 1) + [p.blocks[n - 1]]
    else if n == 1 || n - 2 in s then Collapsed(p, s, n - 1) + [MARKER]
    else Collapsed(p, s, n - 1)
  }

  ghost predicate AnyBefore(s: set<nat>, n: nat) { exists i: nat :: i < n && i in s }

  lemma {:induction false} OneFurther(s: set<nat>, n: nat)
    requires n > 0
    ensures AnyBefore(s, n) <==> n - 1 in s || AnyBefore(s, n - 1)
  {
  }

  lemma {:induction false} NothingYet(p: Passage, s: set<nat>, n: nat)
    requires n <= |p.blocks|
    ensures Inner(p, s, n) != [] <==> AnyBefore(s, n)
    ensures !AnyBefore(s, n) ==> Collapsed(p, s, n) == Optional(n > 0, MARKER)
  {
    if n > 0 {
      NothingYet(p, s, n - 1);
      OneFurther(s, n);
      assert !AnyBefore(s, n) && n > 1 ==> n - 2 !in s;
    }
  }

  /** The first block that is kept comes after at most one marker. */
  lemma {:induction false} CollapsedFirst(p: Passage, s: set<nat>, n: nat)
    requires 0 < n <= |p.blocks| && n - 1 in s && !AnyBefore(s, n - 1)
    ensures Collapsed(p, s, n) == Optional(0 !in s, MARKER) + Inner(p, s, n)
  {
    NothingYet(p, s, n - 1);
    assert n > 1 <==> 0 !in s;
    assert [] + [] + [p.blocks[n - 1]] == [p.blocks[n - 1]];
  }

  lemma {:induction false} Regroup(head: seq<string>, inner: seq<string>, gap: seq<string>, last: string)
    ensures head + inner + gap + [last] == head + (inner + gap + [last])
    ensures head + inner + [] + [last] == head + inner + [last]
  {
  }

  lemma {:induction false} CollapsedSoFar(p: Passage, s: set<nat>, n: nat)
    requires n <= |p.blocks| && AnyBefore(s, n)
    ensures Collapsed(p, s, n) == Optional(0 !in s, MARKER) + Inner(p, s, n) + Optional(n - 1 !in s, MARKER)
  {
    OneFurther(s, n);
    if AnyBefore(s, n - 1) {
      CollapsedSoFar(p, s, n - 1);
      NothingYet(p, s, n - 1);
      Regroup(Optional(0 !in s, MARKER), Inner(p, s, n - 1), Optional(n - 2 !in s, MARKER), if n - 1 in s then p.blocks[n - 1] else MARKER);
    } else {
      CollapsedFirst(p, s, n);
    }
  }

  /** A marker stands exactly where blocks were left out, one for each run of them. */
  lemma {:induction false} MarkersWhereLeftOut(p: Passage, s: set<nat>)
    requires AnyBefore(s, |p.blocks|)
    ensures Parts(p, s) == Collapsed(p, s, |p.blocks|)
  {
    CollapsedSoFar(p, s, |p.blocks|);
  }

  lemma {:induction false} InnerHas(p: Passage, s: set<nat>, n: nat, i: nat)
    requires i < n <= |p.blocks| && i in s
    ensures p.blocks[i] in Inner(p, s, n)
  {
    if i < n - 1 { InnerHas(p, s, n - 1, i); }
  }

  // ----- the excerpt ------------------------------------------------------------------------------------------

  predicate Heavier(p: Passage, i: nat, j: nat) {
    (i < |p.found| && j < |p.found|) ==> Weight(p.terms, p.found[i]) >= Weight(p.terms, p.found[j])
  }

  function ByWeight(p: Passage): (nat, nat) -> bool { (i: nat, j: nat) => Heavier(p, i, j) }

  function Ascending(s: set<nat>, n: nat): seq<nat> {
    if n == 0 then [] else Ascending(s, n - 1) + (if n - 1 in s then [n - 1] else [])
  }

  /** The blocks by falling weight, the earlier first among equals. */
  function Ranked(p: Passage, s: set<nat>): seq<nat> {
    Sort(ByWeight(p), Ascending(s, |p.blocks|))
  }

  /** Adds ranked blocks while the text stays within the limit; the first is always in. */
  function Packed(p: Passage, ranked: seq<nat>, limit: nat, n: nat): set<nat>
    requires n <= |ranked|
  {
    if n == 0 then {}
    else
      var before := Packed(p, ranked, limit, n - 1);
      if before != {} && |Render(p, before + {ranked[n - 1]})| > limit then before else before + {ranked[n - 1]}
  }

  function Prefix(s: string, n: nat): string { s[..if n < |s| then n else |s|] }

  /** A window of the text around the anchor, between two markers, cut to the limit. */
  function Window(p: Passage, limit: nat): string {
    var span := Max(1, limit - (2 * |MARKER| + 4));
    var start := Max(0, p.anchor - span / 3);
    var end := Min(|p.text|, start + span);
    Prefix(MARKER + GAP + (if start <= end then p.text[start..end] else []) + GAP + MARKER, limit)
  }

  function Excerpt(p: Passage, limit: nat): string {
    if |p.text| <= limit then p.text
    else if p.blocks == [] then Prefix(p.text, limit)
    else
      var wide := Widened(p, Chosen(p));
      if |Render(p, wide)| <= limit then Render(p, wide)
      else
        var ranked := Ranked(p, wide);
        var packed := Packed(p, ranked, limit, |ranked|);
        if |Render(p, packed)| <= limit then Render(p, packed) else Window(p, limit)
  }

  method MatchedExcerpt(p: Passage, limit: nat) returns (excerpt: string)
    ensures excerpt == Excerpt(p, limit)
  {
    if |p.text| <= limit { return p.text; }
    if p.blocks == [] { return Prefix(p.text, limit); }
    var chosen := ChooseBlocks(p);
    var wide := Widened(p, chosen);
    excerpt := RenderBlocks(p, wide);
    if |excerpt| <= limit { return; }
    var packed := PackRanked(p, Ranked(p, wide), limit);
    excerpt := RenderBlocks(p, packed);
    if |excerpt| <= limit { return; }
    return Window(p, limit);
  }

  method PackRanked(p: Passage, ranked: seq<nat>, limit: nat) returns (packed: set<nat>)
    ensures packed == Packed(p, ranked, limit, |ranked|)
  {
    packed := {};
    for n := 0 to |ranked|
      invariant packed == Packed(p, ranked, limit, n)
    {
      var trial := RenderBlocks(p, packed + {ranked[n]});
      if packed == {} || |trial| <= limit { packed := packed + {ranked[n]}; }
    }
  }

  /** No branch exceeds the limit. */
  lemma {:induction false} ExcerptWithinLimit(p: Passage, limit: nat)
    ensures |Excerpt(p, limit)| <= limit
  {
  }

  lemma {:induction false} JoinHas(parts: seq<string>, part: string)
    requires part in parts
    ensures IsPart(Join(parts), part)
  {
    if |parts| == 1 {
      assert Join(parts) == [] + part + [];
    } else {
      var front, last := parts[..|parts| - 1], parts[|parts| - 1];
      if part in front {
        JoinHas(front, part);
        var a, b :| Join(front) == a + part + b;
        assert Join(parts) == a + part + (b + GAP + last);
      } else {
        assert part == last;
        assert Join(parts) == (Join(front) + GAP) + part + [];
      }
    }
  }

  lemma {:induction false} RenderHas(p: Passage, s: set<nat>, i: nat)
    requires i < |p.blocks| && i in s
    ensures IsPart(Render(p, s), p.blocks[i])
  {
    InnerHas(p, s, |p.blocks|, i);
    JoinHas(Parts(p, s), p.blocks[i]);
  }

  /** When the chosen blocks with their neighbours fit, the excerpt contains, for every term that
      occurs in some block, a whole block in which it occurs. */
  lemma {:induction false} FittingExcerptCovers(p: Passage, fold: string -> string, limit: nat, i: nat, t: string)
    requires HeldIn(p, fold) && |p.text| > limit && |Render(p, Widened(p, Chosen(p)))| <= limit
    requires i < |p.blocks| && t in p.terms && IsPart(fold(p.blocks[i]), t)
    ensures exists k: nat :: k < |p.blocks| && IsPart(fold(p.blocks[k]), t) && IsPart(Excerpt(p, limit), p.blocks[k])
  {
    ChosenCoverAll(p, i, t);
    var k: nat :| k < |p.found| && k in Chosen(p) && t in p.found[k];
    RenderHas(p, Widened(p, Chosen(p)), k);
  }
}
