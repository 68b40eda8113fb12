/** The section outline of a converted document: a tree built with a stack while the
    lines are read, and scope ends found afterwards by looking ahead. */
module Outline {
  import opened Basics
  import opened Decimal
  import opened TextLines

  datatype Entry = Entry(id: string, title: string, level: Level, parent: Option<string>,
                         path: seq<string>, startLine: nat, endLine: nat)

  // ----- what an outline should be ------------------------------------------------

  datatype Heading = Heading(level: Level, title: string, line: nat)

  /** The headings of the first `n` lines, numbered from line 1. */
  ghost function HeadingsUpTo(lines: seq<string>, n: nat): (hs: seq<Heading>)
    requires n <= |lines|
    ensures forall i :: 0 <= i < |hs| ==> 1 <= hs[i].line <= n
    ensures forall i, j :: 0 <= i < j < |hs| ==> hs[i].line < hs[j].line
  {
    if n == 0 then []
    else
      var before := HeadingsUpTo(lines, n - 1);
      var level := HeadingLevel(lines[n - 1]);
      if level.None? then before
      else before + [Heading(level.value, HeadingTitle(lines[n - 1]), n)]
  }

  /** The nearest earlier heading of a lower level, searched below position `k`. */
  ghost function NearestLower(entries: seq<Entry>, level: Level, k: nat): (p: Option<nat>)
    requires k <= |entries|
    ensures p.Some? ==> p.value < k && entries[p.value].level < level
    ensures p.Some? ==> forall j :: p.value < j < k ==> entries[j].level >= level
    ensures p.None? ==> forall j :: 0 <= j < k ==> entries[j].level >= level
  {
    if k == 0 then None
    else if entries[k - 1].level < level then Some(k - 1)
    else NearestLower(entries, level, k - 1)
  }

  ghost function Parent(entries: seq<Entry>, i: nat): (p: Option<nat>)
    requires i < |entries|
    ensures p.Some? ==> p.value < i && entries[p.value].level < entries[i].level
    ensures p.Some? ==> forall j :: p.value < j < i ==> entries[j].level >= entries[i].level
    ensures p.None? ==> forall j :: 0 <= j < i ==> entries[j].level >= entries[i].level
  {
    NearestLower(entries, entries[i].level, i)
  }

  /** A scope runs to the line before the next heading of the same or a lower level. */
  ghost predicate EndsAt(entries: seq<Entry>, total: nat, i: nat, end: nat)
    requires i < |entries|
  {
    || (end == total && forall j :: i < j < |entries| ==> entries[j].level > entries[i].level)
    || exists j :: i < j < |entries| && Closes(entries, i, j) && end == entries[j].startLine - 1
  }

  ghost predicate Closes(entries: seq<Entry>, i: nat, j: nat)
    requires i < j < |entries|
  {
    entries[j].level <= entries[i].level
    && forall k :: i < k < j ==> entries[k].level > entries[i].level
  }

  /** The k-th name tried for a section: the base itself, then `base-2`, `base-3`, … */
  function Candidate(base: string, k: nat): (name: string)
    requires k >= 1
  {
    if k == 1 then base else base + "-" + Notation(k)
  }

  ghost predicate FirstUnused(base: string, used: set<string>, id: string) {
    && id !in used
    && exists k :: k >= 1 && id == Candidate(base, k)
                   && forall j :: 1 <= j < k ==> Candidate(base, j) in used
  }

  ghost function IdsBefore(entries: seq<Entry>, i: nat): set<string>
    requires i <= |entries|
  {
    set j | 0 <= j < i :: entries[j].id
  }

  ghost predicate Matches(entries: seq<Entry>, hs: seq<Heading>) {
    && |entries| == |hs|
    && forall i :: 0 <= i < |hs| ==>
         entries[i].level == hs[i].level && entries[i].title == hs[i].title && entries[i].startLine == hs[i].line
  }

  /** Everything but the scope ends. `base` is the name a title suggests at a position. */
  ghost predicate Linked(entries: seq<Entry>, base: (string, nat) -> string) {
    forall i {:trigger LinkedAt(entries, base, i)} :: 0 <= i < |entries| ==> LinkedAt(entries, base, i)
  }

  ghost predicate LinkedAt(entries: seq<Entry>, base: (string, nat) -> string, i: nat)
    requires i < |entries|
  {
    var e, p := entries[i], Parent(entries, i);
    && FirstUnused(base(e.title, i + 1), IdsBefore(entries, i), e.id)
    && e.parent == (if p.Some? then Some(entries[p.value].id) else None)
    && e.path == (if p.Some? then entries[p.value].path else []) + [e.id]
  }

  ghost predicate IsOutline(lines: seq<string>, base: (string, nat) -> string, entries: seq<Entry>) {
    && Matches(entries, HeadingsUpTo(lines, |lines|))
    && Linked(entries, base)
    && forall i :: 0 <= i < |entries| ==> EndsAt(entries, |lines|, i, entries[i].endLine)
  }

  // ----- naming --------------------------------------------------------------------

  lemma {:induction false} CandidatesDiffer(base: string, j: nat, k: nat)
    requires 1 <= j < k
    ensures Candidate(base, j) != Candidate(base, k)
  {
    var s, t := Candidate(base, j), Candidate(base, k);
    if s == t {
      assert |t| > |base|;
      assert j >= 2;
      assert s[|base| + 1..] == Notation(j) && t[|base| + 1..] == Notation(k);
      NotationInjective(j, k);
    }
  }

  lemma {:induction false} CandidateNew(base: string, n: int)
    requires n >= 1
    ensures forall j :: 1 <= j < n ==> Candidate(base, j) != Candidate(base, n)
  {
    forall j | 1 <= j < n ensures Candidate(base, j) != Candidate(base, n) {
      CandidatesDiffer(base, j, n);
    }
  }

  /** `section_id`: the suffix grows until the name is unused. It always ends, because the
      names tried are different from one another and only finitely many are used. */
  method UnusedName(base: string, used: set<string>) returns (id: string)
    ensures FirstUnused(base, used, id)
  {
    id := base;
    var suffix := 2;
    ghost var tried: set<string> := {};
    while id in used
      invariant suffix >= 2 && id == Candidate(base, suffix - 1)
      invariant AllTried(base, tried, suffix - 1) && tried <= used
      decreases |used - tried|
    {
      TriedOneMore(base, used, tried, suffix - 1);
      tried := tried + {id};
      id := base + "-" + Notation(suffix);
      suffix := suffix + 1;
    }
    UnusedFound(base, used, tried, suffix - 1);
  }

  /** `tried` are the candidates below `n`. */
  ghost predicate AllTried(base: string, tried: set<string>, n: int) {
    && (forall j :: 1 <= j < n ==> Candidate(base, j) in tried)
    && (forall name :: name in tried ==> exists j :: 1 <= j < n && name == Candidate(base, j))
  }

  lemma {:induction false} TriedOneMore(base: string, used: set<string>, tried: set<string>, n: int)
    requires n >= 1 && AllTried(base, tried, n) && tried <= used && Candidate(base, n) in used
    ensures AllTried(base, tried + {Candidate(base, n)}, n + 1)
    ensures |used - (tried + {Candidate(base, n)})| < |used - tried|
  {
    var id := Candidate(base, n);
    CandidateNew(base, n);
    assert id !in tried;
    assert used - (tried + {id}) == (used - tried) - {id};
  }

  lemma {:induction false} UnusedFound(base: string, used: set<string>, tried: set<string>, n: int)
    requires n >= 1 && AllTried(base, tried, n) && tried <= used && Candidate(base, n) !in used
    ensures FirstUnused(base, used, Candidate(base, n))
  {
  }

  lemma {:induction false} IdsDistinct(entries: seq<Entry>, base: (string, nat) -> string)
    requires Linked(entries, base)
    ensures forall i, j :: 0 <= i < j < |entries| ==> entries[i].id != entries[j].id
  {
    forall i, j | 0 <= i < j < |entries| ensures entries[i].id != entries[j].id {
      assert LinkedAt(entries, base, j);
      assert entries[i].id in IdsBefore(entries, j);
    }
  }

  // ----- the builder -----------------------------------------------------------------

  /** Heading `j` is still open after `n` headings: everything since is nested in it. */
  ghost predicate Open(entries: seq<Entry>, j: nat)
    requires j < |entries|
  {
    forall k :: j < k < |entries| ==> entries[k].level > entries[j].level
  }

  /** The stack holds exactly the open headings, oldest first. */
  ghost predicate StackOf(entries: seq<Entry>, open: seq<nat>, stack: seq<Entry>) {
    && |open| == |stack|
    && (forall t :: 0 <= t < |open| ==> open[t] < |entries| && stack[t] == entries[open[t]])
    && (forall t, u :: 0 <= t < u < |open| ==> open[t] < open[u])
    && (forall j :: 0 <= j < |entries| ==> (j in open <==> Open(entries, j)))
    && (forall t :: 0 <= t < |open| ==> entries[open[t]].path == PathOf(stack[..t + 1]))
  }

  function PathOf(stack: seq<Entry>): (path: seq<string>)
    ensures |path| == |stack|
    ensures forall i :: 0 <= i < |stack| ==> path[i] == stack[i].id
  {
    seq(|stack|, i requires 0 <= i < |stack| => stack[i].id)
  }

  /** Appending one entry disturbs nothing that was said about the earlier ones. */
  lemma {:induction false} LinkedExtends(entries: seq<Entry>, base: (string, nat) -> string, e: Entry)
    requires Linked(entries, base)
    requires LinkedAt(entries + [e], base, |entries|)
    ensures Linked(entries + [e], base)
  {
    var more := entries + [e];
    forall i | 0 <= i < |entries| ensures LinkedAt(more, base, i) {
      assert LinkedAt(entries, base, i);
      assert more[i] == entries[i];
      SamePrefixSameParent(entries, more, i);
      assert IdsBefore(more, i) == IdsBefore(entries, i);
    }
    assert more[|entries|] == e;
  }

  lemma {:induction false} SamePrefixNearestLower(a: seq<Entry>, b: seq<Entry>, level: Level, k: nat)
    requires k <= |a| && k <= |b|
    requires forall j :: 0 <= j < k ==> a[j].level == b[j].level
    ensures NearestLower(a, level, k) == NearestLower(b, level, k)
  {
    if k > 0 { SamePrefixNearestLower(a, b, level, k - 1); }
  }

  lemma {:induction false} SamePrefixSameParent(a: seq<Entry>, b: seq<Entry>, i: nat)
    requires i < |a| && i < |b|
    requires forall j :: 0 <= j <= i ==> a[j].level == b[j].level
    ensures Parent(a, i) == Parent(b, i)
  {
    SamePrefixNearestLower(a, b, a[i].level, i);
  }

  /** Popping the stack while its top is not lower leaves the parent on top. */
  lemma {:induction false} TopIsParent(entries: seq<Entry>, open: seq<nat>, stack: seq<Entry>, n: nat, level: Level)
    requires StackOf(entries, open, stack) && n <= |stack|
    requires forall j :: 0 <= j < |entries| ==> (j in open[..n] <==> Open(entries, j) && entries[j].level < level)
    ensures NearestLower(entries, level, |entries|) == if n == 0 then None else Some(open[n - 1])
  {
    var p := NearestLower(entries, level, |entries|);
    if p.Some? {
      assert Open(entries, p.value);
      assert p.value in open[..n];
    }
    if n > 0 {
      var last := open[n - 1];
      assert last in open[..n];
      assert entries[last].level < level;
      assert last <= p.value;
    }
  }

  ghost predicate Building(entries: seq<Entry>, base: (string, nat) -> string, stack: seq<Entry>,
                           open: seq<nat>, used: set<string>)
  {
    Linked(entries, base) && StackOf(entries, open, stack) && used == IdsBefore(entries, |entries|)
  }

  method BuildOutline(lines: seq<string>, base: (string, nat) -> string) returns (entries: seq<Entry>)
    ensures IsOutline(lines, base, entries)
  {
    entries := [];
    var stack: seq<Entry> := [];
    var used: set<string> := {};
    ghost var open: seq<nat> := [];
    for n := 0 to |lines|
      invariant Matches(entries, HeadingsUpTo(lines, n))
      invariant Building(entries, base, stack, open, used)
    {
      var level := HeadingLevel(lines[n]);
      if level.Some? {
        entries, stack, used, open := AddHeading(entries, stack, used, open, base, level.value,
                                                 HeadingTitle(lines[n]), n + 1, |lines|);
      }
    }
    entries := CloseScopes(entries, |lines|, base, HeadingsUpTo(lines, |lines|));
  }

  /** One heading: name it, pop what it closes, link it to the new top, push it. */
  method AddHeading(entries: seq<Entry>, stack: seq<Entry>, used: set<string>, ghost open: seq<nat>,
                    base: (string, nat) -> string, level: Level, title: string, line: nat, total: nat)
    returns (entries': seq<Entry>, stack': seq<Entry>, used': set<string>, ghost open': seq<nat>)
    requires Building(entries, base, stack, open, used)
    ensures |entries'| == |entries| + 1 && entries'[..|entries|] == entries
    ensures var e := entries'[|entries|]; e.level == level && e.title == title && e.startLine == line
    ensures Building(entries', base, stack', open', used')
  {
    var id := UnusedName(base(title, |entries| + 1), used);
    var kept := PopClosed(stack, level);
    var parent := if kept == [] then None else Some(kept[|kept| - 1].id);
    var entry := Entry(id, title, level, parent, PathOf(kept) + [id], line, total);
    entries', stack', used', open' := entries + [entry], kept + [entry], used + {id}, open[..|kept|] + [|entries|];
    Pushed(entries, stack, open, used, base, |kept|, entry);
  }

  lemma {:induction false} Pushed(entries: seq<Entry>, stack: seq<Entry>, open: seq<nat>, used: set<string>,
               base: (string, nat) -> string, n: nat, e: Entry)
    requires Building(entries, base, stack, open, used)
    requires n <= |stack| && (n > 0 ==> stack[n - 1].level < e.level)
    requires forall t :: n <= t < |stack| ==> stack[t].level >= e.level
    requires FirstUnused(base(e.title, |entries| + 1), used, e.id)
    requires e.parent == if n == 0 then None else Some(stack[n - 1].id)
    requires e.path == PathOf(stack[..n]) + [e.id]
    ensures Building(entries + [e], base, stack[..n] + [e], open[..n] + [|entries|], used + {e.id})
  {
    StillOpen(entries, stack, open, e.level, n);
    TopIsParent(entries, open, stack, n, e.level);
    EntryLinked(entries, base, stack, open, n, e);
    PushOpen(entries, open, stack, n, e);
    LinkedExtends(entries, base, e);
    IdsBeforeExtends(entries, e);
  }

  lemma {:induction false} IdsBeforeExtends(entries: seq<Entry>, e: Entry)
    ensures IdsBefore(entries + [e], |entries| + 1) == IdsBefore(entries, |entries|) + {e.id}
  {
    var more := entries + [e];
    assert more[|entries|] == e;
    assert forall j :: 0 <= j < |entries| ==> more[j] == entries[j];
  }

  /** Pops every heading the new level closes. */
  method PopClosed(stack: seq<Entry>, level: Level) returns (kept: seq<Entry>)
    ensures |kept| <= |stack| && kept == stack[..|kept|]
    ensures kept != [] ==> kept[|kept| - 1].level < level
    ensures forall t :: |kept| <= t < |stack| ==> stack[t].level >= level
  {
    kept := stack;
    while kept != [] && kept[|kept| - 1].level >= level
      invariant |kept| <= |stack| && kept == stack[..|kept|]
      invariant forall t :: |kept| <= t < |stack| ==> stack[t].level >= level
    {
      kept := kept[..|kept| - 1];
    }
  }

  /** Levels grow along the stack, so popping from the top keeps exactly the lower ones. */
  lemma {:induction false} StillOpen(entries: seq<Entry>, stack: seq<Entry>, open: seq<nat>, level: Level, n: nat)
    requires StackOf(entries, open, stack)
    requires n <= |stack|
    requires n > 0 ==> stack[n - 1].level < level
    requires forall t :: n <= t < |stack| ==> stack[t].level >= level
    ensures forall j :: 0 <= j < |entries| ==> (j in open[..n] <==> Open(entries, j) && entries[j].level < level)
  {
    forall j | 0 <= j < |entries|
      ensures j in open[..n] <==> Open(entries, j) && entries[j].level < level
    {
      if j in open {
        var t :| 0 <= t < |open| && open[t] == j;
        assert stack[t] == entries[j];
        if t < n {
          assert open[..n][t] == j;
          assert Open(entries, j);
          assert entries[open[n - 1]] == stack[n - 1];
        } else {
          assert forall u :: 0 <= u < n ==> open[u] < open[t];
        }
      }
    }
  }

  lemma {:induction false} EntryLinked(entries: seq<Entry>, base: (string, nat) -> string, stack: seq<Entry>, open: seq<nat>,
                    n: nat, e: Entry)
    requires StackOf(entries, open, stack) && n <= |stack|
    requires NearestLower(entries, e.level, |entries|) == if n == 0 then None else Some(open[n - 1])
    requires FirstUnused(base(e.title, |entries| + 1), IdsBefore(entries, |entries|), e.id)
    requires e.parent == if n == 0 then None else Some(stack[n - 1].id)
    requires e.path == PathOf(stack[..n]) + [e.id]
    ensures LinkedAt(entries + [e], base, |entries|)
  {
    var more, m := entries + [e], |entries|;
    assert more[m] == e && more[..m] == entries;
    assert forall j :: 0 <= j < m ==> more[j] == entries[j];
    SamePrefixNearestLower(entries, more, e.level, m);
    assert IdsBefore(more, m) == IdsBefore(entries, m);
    if n > 0 {
      assert more[open[n - 1]] == stack[n - 1];
      assert stack[n - 1].path == PathOf(stack[..n]);
    } else {
      assert PathOf(stack[..n]) == [];
    }
  }

  lemma {:induction false} PushOpen(entries: seq<Entry>, open: seq<nat>, stack: seq<Entry>, n: nat, e: Entry)
    requires StackOf(entries, open, stack) && n <= |stack|
    requires forall j :: 0 <= j < |entries| ==> (j in open[..n] <==> Open(entries, j) && entries[j].level < e.level)
    requires e.path == PathOf(stack[..n]) + [e.id]
    ensures StackOf(entries + [e], open[..n] + [|entries|], stack[..n] + [e])
  {
    var more, open', stack' := entries + [e], open[..n] + [|entries|], stack[..n] + [e];
    assert more[|entries|] == e;
    assert forall k :: 0 <= k < |entries| ==> more[k] == entries[k];
    forall j | 0 <= j < |more| ensures j in open' <==> Open(more, j) {
      if j < |entries| {
        assert Open(more, j) <==> Open(entries, j) && entries[j].level < e.level;
        assert j in open' <==> j in open[..n];
      }
    }
    forall t | 0 <= t < |open'| ensures more[open'[t]].path == PathOf(stack'[..t + 1]) {
      if t < n {
        assert stack'[..t + 1] == stack[..t + 1];
      } else {
        assert stack'[..t + 1] == stack';
        assert PathOf(stack') == PathOf(stack[..n]) + [e.id];
      }
    }
  }

  /** The second pass rewrites each `end_line` by looking ahead. */
  method CloseScopes(open: seq<Entry>, total: nat, ghost base: (string, nat) -> string, ghost hs: seq<Heading>)
    returns (entries: seq<Entry>)
    requires Matches(open, hs) && Linked(open, base)
    requires forall i :: 0 <= i < |hs| ==> hs[i].line >= 1
    ensures Matches(entries, hs) && Linked(entries, base)
    ensures forall i :: 0 <= i < |entries| ==> EndsAt(entries, total, i, entries[i].endLine)
  {
    entries := open;
    for index := 0 to |entries|
      invariant SameButEnds(open, entries)
      invariant forall i :: 0 <= i < index ==> EndsAt(open, total, i, entries[i].endLine)
    {
      var end := ScopeEnd(entries, total, index);
      SameButEndsEndsAt(entries, open, total, index, end);
      entries := entries[index := entries[index].(endLine := end)];
    }
    SameButEndsLinked(open, entries, base);
    forall i | 0 <= i < |entries| ensures EndsAt(entries, total, i, entries[i].endLine) {
      SameButEndsEndsAt(open, entries, total, i, entries[i].endLine);
    }
  }

  method ScopeEnd(entries: seq<Entry>, total: nat, index: nat) returns (end: nat)
    requires index < |entries|
    requires forall i :: 0 <= i < |entries| ==> entries[i].startLine >= 1
    ensures EndsAt(entries, total, index, end)
  {
    for next := index + 1 to |entries|
      invariant forall j :: index < j < next ==> entries[j].level > entries[index].level
    {
      if entries[next].level <= entries[index].level {
        assert Closes(entries, index, next);
        return entries[next].startLine - 1;
      }
    }
    return total;
  }

  ghost predicate SameButEnds(a: seq<Entry>, b: seq<Entry>) {
    |a| == |b| && forall i :: 0 <= i < |a| ==> a[i].(endLine := 0) == b[i].(endLine := 0)
  }

  lemma {:induction false} SameButEndsLinked(a: seq<Entry>, b: seq<Entry>, base: (string, nat) -> string)
    requires SameButEnds(a, b) && Linked(a, base)
    ensures Linked(b, base)
  {
    forall i | 0 <= i < |b| ensures LinkedAt(b, base, i) {
      assert LinkedAt(a, base, i);
      assert forall j :: 0 <= j < |a| ==> a[j].(endLine := 0) == b[j].(endLine := 0);
      SamePrefixSameParent(a, b, i);
      assert IdsBefore(a, i) == IdsBefore(b, i);
    }
  }

  lemma {:induction false} SameButEndsEndsAt(a: seq<Entry>, b: seq<Entry>, total: nat, i: nat, end: nat)
    requires SameButEnds(a, b) && i < |a| && EndsAt(a, total, i, end)
    ensures EndsAt(b, total, i, end)
  {
    assert forall j :: 0 <= j < |a| ==> a[j].(endLine := 0) == b[j].(endLine := 0);
    if j :| i < j < |a| && Closes(a, i, j) && end == a[j].startLine - 1 {
      assert Closes(b, i, j);
    }
  }

  // ----- looking a line up -----------------------------------------------------------

  predicate InScope(e: Entry, line: nat) { e.startLine <= line <= e.endLine }

  /** `deepest_section`: among the scopes holding the line, the first of the highest level. */
  function DeepestSection(entries: seq<Entry>, line: nat): (best: Option<nat>)
    ensures best.Some? ==> best.value < |entries| && InScope(entries[best.value], line)
  {
    if entries == [] then None
    else
      var last := |entries| - 1;
      var best := DeepestSection(entries[..last], line);
      if InScope(entries[last], line) && (best.None? || entries[best.value].level < entries[last].level)
      then Some(last) else best
  }
}
