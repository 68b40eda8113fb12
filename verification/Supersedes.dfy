/** The supersedes relation of a version registry: every version names at most one other, so
    the validator can look for cycles by following one chain at a time. */
module Supersedes {
  import opened Basics

  /** Each known version and the version it says it supersedes. */
  type Chain = map<string, Option<string>>

  /** The k-th version of the chain that starts at `v`; None once it has left the registry. */
  ghost function Walk(g: Chain, v: string, k: nat): Option<string> {
    if k == 0 then Some(v)
    else
      var prior := Walk(g, v, k - 1);
      if prior.Some? && prior.value in g then g[prior.value] else None
  }

  ghost predicate Ended(g: Chain, v: string, k: nat) {
    Walk(g, v, k).None? || Walk(g, v, k).value !in g
  }

  ghost predicate Halts(g: Chain, v: string) { exists k :: Ended(g, v, k) }

  ghost predicate Reaches(g: Chain, from: string, to: string) { exists k :: Walk(g, from, k) == Some(to) }

  /** Every supersedes edge between known versions goes strictly down. */
  ghost predicate Ranks(g: Chain, rank: map<string, nat>) {
    forall v :: v in g ==> v in rank && (g[v].Some? && g[v].value in g ==> g[v].value in rank && rank[g[v].value] < rank[v])
  }

  ghost predicate Acyclic(g: Chain) { exists rank :: Ranks(g, rank) }

  // ----- walks ----------------------------------------------------------------------------

  lemma {:induction false} WalkSplits(g: Chain, v: string, j: nat, k: nat)
    requires Walk(g, v, j).Some?
    ensures Walk(g, v, j + k) == Walk(g, Walk(g, v, j).value, k)
  {
    if k > 0 { WalkSplits(g, v, j, k - 1); }
  }

  lemma {:induction false} WalkStep(g: Chain, v: string, k: nat)
    requires v in g && g[v].Some?
    ensures Walk(g, v, k + 1) == Walk(g, g[v].value, k)
  {
    assert Walk(g, v, 1) == g[v];
    WalkSplits(g, v, 1, k);
  }

  /** A chain that meets itself goes round for ever. */
  lemma {:induction false} RoundForEver(g: Chain, v: string, j: nat, k: nat, m: nat)
    requires j < k && Walk(g, v, j) == Walk(g, v, k)
    requires forall i :: 0 <= i < k ==> !Ended(g, v, i)
    ensures !Ended(g, v, m)
    decreases m
  {
    if m >= k {
      RoundForEver(g, v, j, k, m - (k - j));
      assert !Ended(g, v, j);
      WalkSplits(g, v, j, m - k);
      WalkSplits(g, v, k, m - k);
    }
  }

  // ----- halting and ranks --------------------------------------------------------------------

  lemma {:induction false} RankDescends(g: Chain, rank: map<string, nat>, v: string, k: nat)
    requires Ranks(g, rank) && v in g && !Ended(g, v, k)
    ensures Walk(g, v, k).value in rank && rank[Walk(g, v, k).value] + k <= rank[v]
  {
    if k > 0 { RankDescends(g, rank, v, k - 1); }
  }

  lemma {:induction false} RankedHalts(g: Chain, rank: map<string, nat>, v: string)
    requires Ranks(g, rank)
    ensures Halts(g, v)
  {
    if v !in g {
      assert Ended(g, v, 0);
    } else {
      var k := rank[v] + 1;
      if !Ended(g, v, k) { RankDescends(g, rank, v, k); }
      assert Ended(g, v, k);
    }
  }

  /** The number of versions on the chain from `v`. */
  ghost function Length(g: Chain, v: string): (n: nat)
    requires Halts(g, v)
    ensures Ended(g, v, n) && forall k :: 0 <= k < n ==> !Ended(g, v, k)
  {
    var k: nat :| Ended(g, v, k);
    FirstEnd(g, v, k)
  }

  ghost function FirstEnd(g: Chain, v: string, k: nat): (n: nat)
    requires Ended(g, v, k)
    ensures Ended(g, v, n) && forall i :: 0 <= i < n ==> !Ended(g, v, i)
  {
    if exists j :: 0 <= j < k && Ended(g, v, j) then
      var j :| 0 <= j < k && Ended(g, v, j);
      FirstEnd(g, v, j)
    else k
  }

  lemma {:induction false} NextIsShorter(g: Chain, v: string)
    requires v in g && g[v].Some? && g[v].value in g && Halts(g, v)
    ensures Halts(g, g[v].value) && Length(g, g[v].value) < Length(g, v)
  {
    var n := Length(g, v);
    assert n > 0 by { assert !Ended(g, v, 0); }
    WalkStep(g, v, n - 1);
    assert Ended(g, g[v].value, n - 1);
  }

  /** A rank exists exactly when every chain ends: the chain lengths are one. */
  lemma {:induction false} AcyclicMeansHalting(g: Chain)
    ensures Acyclic(g) <==> forall v :: v in g ==> Halts(g, v)
  {
    if Acyclic(g) {
      var rank :| Ranks(g, rank);
      forall v | v in g ensures Halts(g, v) { RankedHalts(g, rank, v); }
    }
    if forall v :: v in g ==> Halts(g, v) {
      var rank := map v | v in g :: Length(g, v);
      forall v | v in g && g[v].Some? && g[v].value in g ensures rank[g[v].value] < rank[v] { NextIsShorter(g, v); }
      assert Ranks(g, rank);
    }
  }

  // ----- the validator's walk --------------------------------------------------------------------

  /** The versions already met: the first `k` of the chain, all of them known. */
  ghost predicate Seen(g: Chain, start: string, seen: set<string>, k: nat) {
    && seen <= g.Keys
    && (forall i :: 0 <= i < k ==> !Ended(g, start, i) && Walk(g, start, i).value in seen)
    && (forall v :: v in seen ==> Met(g, start, v, k))
  }

  ghost predicate Met(g: Chain, start: string, v: string, k: nat) {
    exists i :: 0 <= i < k && Walk(g, start, i) == Some(v)
  }

  lemma {:induction false} SeenOne(g: Chain, start: string, seen: set<string>, k: nat)
    requires Seen(g, start, seen, k) && !Ended(g, start, k)
    ensures Seen(g, start, seen + {Walk(g, start, k).value}, k + 1)
  {
    forall v | v in seen + {Walk(g, start, k).value} ensures Met(g, start, v, k + 1) {
      if v in seen { assert Met(g, start, v, k); }
    }
  }

  lemma {:induction false} SeenTwice(g: Chain, start: string, seen: set<string>, k: nat)
    requires Seen(g, start, seen, k) && Walk(g, start, k).Some? && Walk(g, start, k).value in seen
    ensures !Halts(g, start)
  {
    assert Met(g, start, Walk(g, start, k).value, k);
    var j: nat :| 0 <= j < k && Walk(g, start, j) == Walk(g, start, k);
    forall m: nat ensures !Ended(g, start, m) { RoundForEver(g, start, j, k, m); }
  }

  /** One chain, with the set of versions already seen on it. */
  method WalkFrom(g: Chain, start: string) returns (cycle: bool)
    ensures cycle <==> !Halts(g, start)
  {
    var seen: set<string> := {};
    var current := Some(start);
    ghost var k := 0;
    while current.Some? && current.value in g
      invariant current == Walk(g, start, k)
      invariant Seen(g, start, seen, k)
      decreases |g.Keys - seen|
    {
      if current.value in seen {
        SeenTwice(g, start, seen, k);
        return true;
      }
      SeenOne(g, start, seen, k);
      assert g.Keys - (seen + {current.value}) == (g.Keys - seen) - {current.value};
      seen := seen + {current.value};
      current := g[current.value];
      k := k + 1;
    }
    assert Ended(g, start, k);
    return false;
  }

  /** The walk repeated from every version: it reports no cycle exactly when a strictly
      decreasing rank exists. */
  method FindCycle(g: Chain) returns (cycle: bool)
    ensures cycle <==> !Acyclic(g)
  {
    AcyclicMeansHalting(g);
    var left := g.Keys;
    while left != {}
      invariant left <= g.Keys
      invariant forall v :: v in g && v !in left ==> Halts(g, v)
      decreases |left|
    {
      var v :| v in left;
      var round := WalkFrom(g, v);
      if round { return true; }
      left := left - {v};
    }
    return false;
  }

  // ----- adding one edge ---------------------------------------------------------------------------

  lemma {:induction false} SameWalk(g: Chain, h: Chain, t: string, v: string, k: nat)
    requires t in g && t in h && h == g[t := h[t]]
    requires forall i :: 0 <= i < k ==> Walk(g, v, i) != Some(t)
    ensures Walk(h, v, k) == Walk(g, v, k)
  {
    if k > 0 { SameWalk(g, h, t, v, k - 1); }
  }

  lemma {:induction false} StillHalts(g: Chain, h: Chain, t: string, v: string, n: nat)
    requires t in g && t in h && h == g[t := h[t]] && Halts(h, t) && Ended(g, v, n)
    ensures Halts(h, v)
    decreases n
  {
    if v != t && v in g && g[v].Some? && n > 0 {
      WalkStep(g, v, n - 1);
      StillHalts(g, h, t, g[v].value, n - 1);
      var m: nat :| Ended(h, g[v].value, m);
      WalkStep(h, v, m);
      assert Ended(h, v, m + 1);
    } else if v != t {
      if v in g && g[v].None? { assert Walk(h, v, 1).None?; assert Ended(h, v, 1); } else { assert Ended(h, v, 0); }
    }
  }

  /** Pointing `t` at `p` keeps the relation acyclic exactly when `p`'s chain does not lead to `t`. */
  lemma {:induction false} NewEdgeAcyclic(g: Chain, t: string, p: string)
    requires Acyclic(g) && t in g && p in g
    ensures Acyclic(g[t := Some(p)]) <==> !Reaches(g, p, t)
  {
    var h := g[t := Some(p)];
    if Reaches(g, p, t) {
      LoopClosed(g, h, t, p);
    } else {
      AcyclicMeansHalting(g);
      AcyclicMeansHalting(h);
      var n: nat :| Ended(g, p, n);
      forall i | 0 <= i <= n ensures Walk(h, p, i) == Walk(g, p, i) { SameWalk(g, h, t, p, i); }
      assert Ended(h, p, n);
      WalkStep(h, t, n);
      assert Ended(h, t, n + 1);
      forall v | v in h ensures Halts(h, v) {
        var m: nat :| Ended(g, v, m);
        StillHalts(g, h, t, v, m);
      }
    }
  }

  lemma {:induction false} FirstArrival(g: Chain, p: string, t: string, k: nat) returns (j: nat)
    requires Walk(g, p, k) == Some(t)
    ensures Walk(g, p, j) == Some(t) && forall i :: 0 <= i < j ==> Walk(g, p, i) != Some(t)
    decreases k
  {
    if i :| 0 <= i < k && Walk(g, p, i) == Some(t) { j := FirstArrival(g, p, t, i); } else { j := k; }
  }

  lemma {:induction false} LoopClosed(g: Chain, h: Chain, t: string, p: string)
    requires t in g && p in g && h == g[t := Some(p)] && Reaches(g, p, t)
    ensures !Acyclic(h)
  {
    var k: nat :| Walk(g, p, k) == Some(t);
    var j := FirstArrival(g, p, t, k);
    SameWalk(g, h, t, p, j);
    assert !Ended(h, p, j);
    forall rank ensures !Ranks(h, rank) {
      if Ranks(h, rank) { RankDescends(h, rank, p, j); }
    }
  }
}
