/** Which blocks an excerpt keeps and what it looks like, told from the passage. */
module ExcerptChoice {
  import opened Basics
  import opened Excerpts

  // ----- weights -----------------------------------------------------------------------------------

  /** A list of terms weighs what its terms weigh, and one term its length, at least one, where it is held. */
  lemma {:induction false} WeightAdds(a: seq<string>, b: seq<string>, t: string, held: set<string>)
    ensures Weight(a + b, held) == Weight(a, held) + Weight(b, held)
    ensures Weight([t], held) == if t !in held then 0 else if t == "" then 1 else |t|
  {
    if b == [] {
      assert a + b == a;
    } else {
      assert (a + b)[..|a + b| - 1] == a + b[..|b| - 1];
      WeightAdds(a, b[..|b| - 1], t, held);
    }
  }

  // ----- the greedy choice ---------------------------------------------------------------------------

  /** The terms none of the picked blocks holds. */
  function Missing(p: Passage, picks: seq<nat>): set<string> {
    set t | t in p.terms && forall k :: 0 <= k < |picks| && picks[k] < |p.found| ==> t !in p.found[picks[k]]
  }

  /** Block `i` is no stronger than `k`: by the weight of its missing terms, then of all its terms,
      then by its place. */
  ghost predicate NoStronger(p: Passage, missing: set<string>, i: nat, k: nat)
    requires i < |p.found| && k < |p.found|
  {
    var x, y := Weight(p.terms, p.found[i] * missing), Weight(p.terms, p.found[k] * missing);
    var u, v := Weight(p.terms, p.found[i]), Weight(p.terms, p.found[k]);
    x < y || (x == y && (u < v || (u == v && k <= i)))
  }

  /** The next pick after `picks`: it holds a missing term, and no block left is stronger. */
  ghost predicate NextPick(p: Passage, picks: seq<nat>, k: nat) {
    && k < |p.found| && k !in picks && (exists t :: t in p.found[k] && t in Missing(p, picks))
    && forall i: nat :: i < |p.found| && i !in picks ==> NoStronger(p, Missing(p, picks), i, k)
  }

  ghost predicate PickedAt(p: Passage, picks: seq<nat>, n: nat)
    requires n < |picks|
  {
    NextPick(p, picks[..n], picks[n])
  }

  ghost predicate GreedyPicks(p: Passage, picks: seq<nat>) {
    && (forall n: nat :: n < |picks| ==> PickedAt(p, picks, n))
    && forall i: nat, t :: i < |p.found| && t in p.found[i] ==> t !in Missing(p, picks)
  }

  lemma {:induction false} BestPick(p: Passage, selected: set<nat>, uncovered: set<string>, n: nat, i: nat)
    requires i < n <= |p.found| && i !in selected
    ensures Best(p, selected, uncovered, n).Some? && NoStronger(p, uncovered, i, Best(p, selected, uncovered, n).value)
  {
    if i < n - 1 { BestPick(p, selected, uncovered, n - 1, i); }
  }

  lemma {:induction false} MissingAfter(p: Passage, picks: seq<nat>, k: nat)
    requires k < |p.found|
    ensures Missing(p, picks + [k]) == Missing(p, picks) - p.found[k]
  {
    var more := picks + [k];
    forall t ensures t in Missing(p, more) <==> t in Missing(p, picks) && t !in p.found[k] {
      if t in Missing(p, more) {
        assert more[|picks|] == k;
        forall m | 0 <= m < |picks| && picks[m] < |p.found| ensures t !in p.found[picks[m]] { assert more[m] == picks[m]; }
      }
      if t in Missing(p, picks) && t !in p.found[k] {
        forall m | 0 <= m < |more| && more[m] < |p.found| ensures t !in p.found[more[m]] { assert m < |picks| ==> more[m] == picks[m]; }
      }
    }
  }

  lemma {:induction false} PicksKept(p: Passage, picks: seq<nat>, k: nat)
    requires (forall n: nat :: n < |picks| ==> PickedAt(p, picks, n)) && NextPick(p, picks, k)
    ensures forall n: nat :: n < |picks| + 1 ==> PickedAt(p, picks + [k], n)
  {
    var more := picks + [k];
    forall n: nat | n < |more| ensures PickedAt(p, more, n) {
      assert more[..n] == picks[..n];
      if n < |picks| { assert PickedAt(p, picks, n); } else { assert picks[..n] == picks; }
    }
  }

  function Indices(picks: seq<nat>): set<nat> { set k | k in picks }

  /** The rest of the choice, from what is picked so far. */
  lemma {:induction false} GreedyRest(p: Passage, picks: seq<nat>) returns (all: seq<nat>)
    requires Read(p) && forall n: nat :: n < |picks| ==> PickedAt(p, picks, n)
    ensures GreedyPicks(p, all) && Indices(all) == Greedy(p, Indices(picks), Missing(p, picks))
    decreases Unselected(p, Indices(picks))
  {
    var selected, uncovered := Indices(picks), Missing(p, picks);
    var best := Best(p, selected, uncovered, |p.found|);
    if uncovered == {} || best.None? || p.found[best.value] * uncovered == {} {
      all := picks;
      forall i: nat, t | i < |p.found| && t in p.found[i] ensures t !in uncovered { Stopped(p, picks, i, t); }
    } else {
      var k := best.value;
      var t :| t in p.found[k] * uncovered;
      forall i: nat | i < |p.found| && i !in picks ensures NoStronger(p, uncovered, i, k) { BestPick(p, selected, uncovered, |p.found|, i); }
      assert NextPick(p, picks, k);
      PicksKept(p, picks, k);
      MissingAfter(p, picks, k);
      assert Indices(picks + [k]) == selected + {k};
      OneFewer(p, selected, k);
      all := GreedyRest(p, picks + [k]);
    }
  }

  lemma {:induction false} Stopped(p: Passage, picks: seq<nat>, i: nat, t: string)
    requires Read(p) && i < |p.found| && t in p.found[i]
    requires var best := Best(p, Indices(picks), Missing(p, picks), |p.found|);
             Missing(p, picks) == {} || best.None? || p.found[best.value] * Missing(p, picks) == {}
    ensures t !in Missing(p, picks)
  {
    if i in picks {
      var k :| 0 <= k < |picks| && picks[k] == i;
    } else {
      NothingLeft(p, Indices(picks), Missing(p, picks), i, t);
    }
  }

  /** The chosen blocks are the picks of the greedy choice: each the strongest of those left that still
      holds a missing term, until no block holds one. */
  lemma {:induction false} ChosenExactly(p: Passage) returns (picks: seq<nat>)
    requires Read(p)
    ensures GreedyPicks(p, picks) && Indices(picks) == Chosen(p)
  {
    assert Indices([]) == {} && Missing(p, []) == TermSet(p);
    picks := GreedyRest(p, []);
  }

  predicate NextTo(k: nat, i: nat) { k <= i + 1 && i <= k + 1 }

  lemma {:induction false} NearExactly(s: set<nat>, i: nat)
    ensures Near(s, i) <==> exists k: nat :: k in s && NextTo(k, i)
  {
    if i in s { assert NextTo(i, i); }
    if i + 1 in s { assert NextTo(i + 1, i); }
    if i > 0 && i - 1 in s { assert NextTo(i - 1, i); }
  }

  /** Blocks are kept with their neighbours; without a choice, the first block and its neighbour. */
  lemma {:induction false} WidenedExactly(p: Passage, chosen: set<nat>, i: nat)
    ensures i in Widened(p, chosen) <==>
            i < |p.blocks| && exists k: nat :: (if chosen == {} then k == 0 else k in chosen) && NextTo(k, i)
  {
    var start: set<nat> := if chosen == {} then {0} else chosen;
    NearExactly(start, i);
    assert forall k: nat :: k in start <==> if chosen == {} then k == 0 else k in chosen;
  }

  // ----- the ranking ---------------------------------------------------------------------------------------

  lemma {:induction false} AscendingExactly(s: set<nat>, n: nat)
    ensures forall i: nat :: i in Ascending(s, n) <==> i in s && i < n
    ensures forall a, b :: 0 <= a < b < |Ascending(s, n)| ==> Ascending(s, n)[a] < Ascending(s, n)[b]
  {
    if n > 0 {
      AscendingExactly(s, n - 1);
      var front := Ascending(s, n - 1);
      forall a | 0 <= a < |front| ensures front[a] < n - 1 { assert front[a] in front; }
    }
  }

  /** `i` comes before `j` in a ranking: it is heavier, or as heavy and earlier. */
  predicate Outranks(p: Passage, i: nat, j: nat)
    requires i < |p.found| && j < |p.found|
  {
    Weight(p.terms, p.found[i]) > Weight(p.terms, p.found[j])
    || (Weight(p.terms, p.found[i]) == Weight(p.terms, p.found[j]) && i < j)
  }

  predicate Precedes(p: Passage, i: nat, j: nat) { i < |p.found| && j < |p.found| && Outranks(p, i, j) }

  lemma {:induction false} InsertRanked<T(!new)>(leq: (T, T) -> bool, precedes: (T, T) -> bool, x: T, s: seq<T>)
    requires forall a, b, c :: precedes(a, b) && precedes(b, c) ==> precedes(a, c)
    requires SortedBy(precedes, s) && forall i :: 0 <= i < |s| ==> if leq(s[i], x) then precedes(s[i], x) else precedes(x, s[i])
    ensures SortedBy(precedes, Insert(leq, x, s))
  {
    if s != [] {
      var front, last := s[..|s| - 1], s[|s| - 1];
      if leq(last, x) {
        forall i | 0 <= i < |front| ensures precedes(s[i], x) { assert precedes(s[i], last) && precedes(last, x); }
      } else {
        InsertRanked(leq, precedes, x, front);
        var more := Insert(leq, x, front);
        forall a | 0 <= a < |more| ensures precedes(more[a], last) {
          assert more[a] in multiset(more);
          assert more[a] in multiset(front) || more[a] == x;
          if more[a] != x { assert more[a] in front; }
        }
      }
    }
  }

  lemma {:induction false} PrecedesOrder(p: Passage, i: nat, j: nat, k: nat)
    ensures Precedes(p, i, j) && Precedes(p, j, k) ==> Precedes(p, i, k)
  {
  }

  function ByRank(p: Passage): (nat, nat) -> bool { (i: nat, j: nat) => Precedes(p, i, j) }

  lemma {:induction false} SortRanked(p: Passage, r: seq<nat>)
    requires (forall a, b :: 0 <= a < b < |r| ==> r[a] < r[b]) && forall a :: 0 <= a < |r| ==> r[a] < |p.found|
    ensures SortedBy(ByRank(p), Sort(ByWeight(p), r))
  {
    if r != [] {
      var front, last := r[..|r| - 1], r[|r| - 1];
      SortRanked(p, front);
      var sorted := Sort(ByWeight(p), front);
      SameMultisetSameMembers(sorted, front);
      forall a | 0 <= a < |sorted| ensures sorted[a] < last && sorted[a] < |p.found| { assert sorted[a] in front; }
      forall i: nat, j: nat, k: nat ensures ByRank(p)(i, j) && ByRank(p)(j, k) ==> ByRank(p)(i, k) { PrecedesOrder(p, i, j, k); }
      InsertRanked<nat>(ByWeight(p), ByRank(p), last, sorted);
    }
  }

  ghost predicate RankedRight(p: Passage, r: seq<nat>) {
    forall a, b :: 0 <= a < b < |r| ==> Precedes(p, r[a], r[b])
  }

  /** The ranking lists exactly the given blocks, once each, by falling weight, the earlier first. */
  lemma {:induction false} RankedExactly(p: Passage, s: set<nat>)
    requires |p.found| == |p.blocks|
    ensures RankedRight(p, Ranked(p, s)) && forall i: nat :: i in Ranked(p, s) <==> i in s && i < |p.blocks|
  {
    var ascending := Ascending(s, |p.blocks|);
    AscendingExactly(s, |p.blocks|);
    forall a | 0 <= a < |ascending| ensures ascending[a] < |p.found| { assert ascending[a] in ascending; }
    SortRanked(p, ascending);
    var ranked := Ranked(p, s);
    SameMultisetSameMembers(ranked, ascending);
    forall a, b | 0 <= a < b < |ranked| ensures Precedes(p, ranked[a], ranked[b]) { assert ByRank(p)(ranked[a], ranked[b]); }
  }

  // ----- the packing -------------------------------------------------------------------------------------------

  /** The packed blocks among the first `n` of the ranking. */
  function PackedAmong(ranked: seq<nat>, packed: set<nat>, n: nat): set<nat>
    requires n <= |ranked|
  {
    set i | i in ranked[..n] && i in packed
  }

  /** Block `n` of the ranking is packed exactly when nothing is packed before it or the text stays
      within the limit with it. */
  ghost predicate PackedRight(p: Passage, ranked: seq<nat>, packed: set<nat>, limit: nat, n: nat)
    requires n < |ranked|
  {
    var before := PackedAmong(ranked, packed, n);
    ranked[n] in packed <==> before == {} || |Render(p, before + {ranked[n]})| <= limit
  }

  lemma {:induction false} AmongMore(ranked: seq<nat>, packed: set<nat>, x: nat, n: nat)
    requires n <= |ranked| && x !in ranked[..n]
    ensures PackedAmong(ranked, packed + {x}, n) == PackedAmong(ranked, packed, n)
  {
  }

  lemma {:induction false} AmongAll(ranked: seq<nat>, packed: set<nat>, n: nat)
    requires n <= |ranked| && forall i :: i in packed ==> i in ranked[..n]
    ensures PackedAmong(ranked, packed, n) == packed
  {
  }

  lemma {:induction false} PackedSoFar(p: Passage, ranked: seq<nat>, limit: nat, n: nat, m: nat)
    requires n <= m <= |ranked| && forall a, b :: 0 <= a < b < |ranked| ==> ranked[a] != ranked[b]
    ensures PackedAmong(ranked, Packed(p, ranked, limit, m), n) == Packed(p, ranked, limit, n)
  {
    if n < m {
      PackedSoFar(p, ranked, limit, n, m - 1);
      AmongMore(ranked, Packed(p, ranked, limit, m - 1), ranked[m - 1], n);
    } else {
      PackedIn(p, ranked, limit, n);
      AmongAll(ranked, Packed(p, ranked, limit, n), n);
    }
  }

  lemma {:induction false} PackedIn(p: Passage, ranked: seq<nat>, limit: nat, n: nat)
    requires n <= |ranked|
    ensures forall i :: i in Packed(p, ranked, limit, n) ==> i in ranked[..n]
  {
    if n > 0 {
      PackedIn(p, ranked, limit, n - 1);
      assert ranked[..n] == ranked[..n - 1] + [ranked[n - 1]];
    }
  }

  lemma {:induction false} PackedExactly(p: Passage, ranked: seq<nat>, limit: nat)
    requires forall a, b :: 0 <= a < b < |ranked| ==> ranked[a] != ranked[b]
    ensures var packed := Packed(p, ranked, limit, |ranked|);
            && (forall i :: i in packed ==> i in ranked)
            && forall n: nat :: n < |ranked| ==> PackedRight(p, ranked, packed, limit, n)
  {
    PackedIn(p, ranked, limit, |ranked|);
    assert ranked[..|ranked|] == ranked;
    forall n: nat | n < |ranked| ensures PackedRight(p, ranked, Packed(p, ranked, limit, |ranked|), limit, n) {
      PackedAt(p, ranked, limit, n, n + 1);
    }
  }

  lemma {:induction false} PackedAt(p: Passage, ranked: seq<nat>, limit: nat, n: nat, m: nat)
    requires n < |ranked| && m == n + 1 && forall a, b :: 0 <= a < b < |ranked| ==> ranked[a] != ranked[b]
    ensures PackedRight(p, ranked, Packed(p, ranked, limit, |ranked|), limit, n)
  {
    PackedSoFar(p, ranked, limit, n, |ranked|);
    PackedSoFar(p, ranked, limit, m, |ranked|);
    AmongLast(ranked, Packed(p, ranked, limit, |ranked|), n, m);
    PackedIn(p, ranked, limit, n);
    PackedNext(p, ranked, limit, m);
  }

  lemma {:induction false} AmongLast(ranked: seq<nat>, packed: set<nat>, n: nat, m: nat)
    requires n < |ranked| && m == n + 1
    ensures ranked[n] in packed <==> ranked[n] in PackedAmong(ranked, packed, m)
  {
    assert ranked[..m][n] == ranked[n];
  }

  lemma {:induction false} PackedNext(p: Passage, ranked: seq<nat>, limit: nat, m: nat)
    requires 0 < m <= |ranked| && ranked[m - 1] !in Packed(p, ranked, limit, m - 1)
    ensures var before := Packed(p, ranked, limit, m - 1);
            ranked[m - 1] in Packed(p, ranked, limit, m) <==> before == {} || |Render(p, before + {ranked[m - 1]})| <= limit
  {
  }

  // ----- the text ------------------------------------------------------------------------------------------------

  /** A list of parts with a gap before each but the first. */
  function Spaced(parts: seq<string>): seq<string> {
    seq(|parts|, i requires 0 <= i < |parts| => if i == 0 then parts[0] else GAP + parts[i])
  }

  lemma {:induction false} JoinIsFlat(parts: seq<string>)
    ensures Join(parts) == Flatten(Spaced(parts))
  {
    if |parts| == 1 {
      assert Spaced(parts) == [parts[0]];
      assert Flatten([parts[0]]) == parts[0] + Flatten([]);
    } else if |parts| > 1 {
      var front, last := parts[..|parts| - 1], parts[|parts| - 1];
      JoinIsFlat(front);
      assert Spaced(parts) == Spaced(front) + [GAP + last];
      FlattenAppend(Spaced(front), [GAP + last]);
      assert Flatten([GAP + last]) == (GAP + last) + Flatten([]);
      assert Join(parts) == Join(front) + (GAP + last);
    }
  }

  /** The window is a piece of the text with the anchor in it, between two markers; it is as long as
      the limit allows, unless the text ends first. */
  lemma {:induction false} WindowExactly(p: Passage, limit: nat) returns (start: nat, end: nat)
    requires p.anchor < |p.text| && limit > 2 * |MARKER| + 2 * |GAP|
    ensures start <= p.anchor < end <= |p.text|
    ensures Window(p, limit) == MARKER + GAP + p.text[start..end] + GAP + MARKER
    ensures var room := limit - 2 * |MARKER| - 2 * |GAP|;
            end == (if start + room < |p.text| then start + room else |p.text|)
            && (start == 0 || start + room / 3 == p.anchor) && (start == 0 ==> p.anchor <= room / 3)
  {
    start, end := WindowBounds(p.anchor, |p.text|, limit - (2 * |MARKER| + 4));
    WindowText(p, limit, start, end);
  }

  lemma {:induction false} WindowText(p: Passage, limit: nat, start: nat, end: nat)
    requires limit > 2 * |MARKER| + 4 && start <= end <= |p.text|
    requires var room := limit - (2 * |MARKER| + 4);
             start == Max(0, p.anchor - room / 3) && end == Min(|p.text|, start + room)
    ensures Window(p, limit) == MARKER + GAP + p.text[start..end] + GAP + MARKER
  {
    Between(MARKER, GAP, p.text[start..end], limit);
  }

  lemma {:induction false} WindowBounds(anchor: nat, length: nat, room: nat) returns (start: nat, end: nat)
    requires anchor < length && room > 0
    ensures start == Max(0, anchor - room / 3) && end == Min(length, start + room) && start <= anchor < end <= length
    ensures (start == 0 || start + room / 3 == anchor) && (start == 0 ==> anchor <= room / 3)
  {
    start := Max(0, anchor - room / 3);
    end := Min(length, start + room);
  }

  lemma {:induction false} Between(marker: string, gap: string, part: string, limit: nat)
    requires 2 * |marker| + 2 * |gap| + |part| <= limit
    ensures Prefix(marker + gap + part + gap + marker, limit) == marker + gap + part + gap + marker
  {
  }

  /** Which text the excerpt is. */
  lemma {:induction false} ExcerptCases(p: Passage, limit: nat)
    ensures |p.text| <= limit ==> Excerpt(p, limit) == p.text
    ensures |p.text| > limit && p.blocks == [] ==> Excerpt(p, limit) == p.text[..limit]
    ensures |p.text| > limit && p.blocks != [] ==>
              var wide := Widened(p, Chosen(p));
              var packed := Packed(p, Ranked(p, wide), limit, |Ranked(p, wide)|);
              Excerpt(p, limit) ==
                if |Render(p, wide)| <= limit then Render(p, wide)
                else if |Render(p, packed)| <= limit then Render(p, packed)
                else Window(p, limit)
  {
  }
}
