/** The tool-owned provenance block of a page, and the authored text around it. */
module Provenance {
  import opened Basics
  import opened TextLines

  type Marker = m: string | m != [] witness "<"

  datatype Markers = Markers(start: Marker, end: Marker)

  function Mark(kind: string): Marker { Opening() + kind + " -->" }

  function Opening(): string { "<!-- " + "knowledge-" + "provenance:" }

  /** The markers of the tool. */
  function Tool(): Markers { Markers(Mark("start"), Mark("end")) }

  // ----- finding markers -----------------------------------------------------------------------------

  predicate OccursAt(s: string, m: string, k: nat) { k + |m| <= |s| && s[k..k + |m|] == m }

  ghost predicate Occurs(s: string, m: string) { exists k: nat :: OccursAt(s, m, k) }

  /** The first occurrence at or after `from`. */
  function Find(s: string, m: string, from: nat): (r: Option<nat>)
    ensures r.Some? ==> r.value >= from && OccursAt(s, m, r.value)
    ensures forall k: nat :: from <= k && (r.Some? ==> k < r.value) ==> !OccursAt(s, m, k)
    decreases |s| - from
  {
    if from > |s| then None
    else if OccursAt(s, m, from) then Some(from)
    else if from == |s| then None
    else Find(s, m, from + 1)
  }

  /** `str.count`: occurrences that do not overlap. */
  function Count(s: string, m: Marker, from: nat): nat
    decreases |s| - from
  {
    var k := Find(s, m, from);
    if k.None? then 0 else 1 + Count(s, m, k.value + |m|)
  }

  ghost predicate OnlyAt(s: string, m: string, k: nat) {
    OccursAt(s, m, k) && forall j: nat :: OccursAt(s, m, j) ==> j == k
  }

  /** The first character of a marker occurs nowhere else in it. */
  ghost predicate Headed(m: string) {
    && m != [] && m[0] == '<' && '\n' !in m
    && forall i :: 0 < i < |m| ==> m[i] != '<'
  }

  /** Headed, and different within their common length. */
  ghost predicate Usable(x: Markers) {
    && Headed(x.start) && Headed(x.end)
    && exists i :: 0 <= i < |x.start| && i < |x.end| && x.start[i] != x.end[i]
  }

  lemma {:induction false} HeadedLonger(a: string, b: string)
    requires Headed(a) && '<' !in b && '\n' !in b
    ensures Headed(a + b)
  {
    forall i | 0 < i < |a + b| ensures (a + b)[i] != '<' {
      if i >= |a| { assert (a + b)[i] == b[i - |a|]; }
    }
  }

  lemma {:induction false} OpeningHeaded()
    ensures Headed(Opening()) && |Opening()| == 26
  {
    HeadedLonger("<!-- ", "knowledge-");
    HeadedLonger("<!-- " + "knowledge-", "provenance:");
  }

  lemma {:induction false} MarkHeaded(kind: string)
    requires kind != [] && '<' !in kind && '\n' !in kind
    ensures Headed(Mark(kind)) && |Mark(kind)| > 26 && Mark(kind)[26] == kind[0]
  {
    OpeningHeaded();
    HeadedLonger(Opening(), kind);
    HeadedLonger(Opening() + kind, " -->");
  }

  lemma {:induction false} ToolUsable()
    ensures Usable(Tool())
  {
    MarkHeaded("start");
    MarkHeaded("end");
  }

  lemma {:induction false} OccursChar(s: string, m: string, k: nat, i: nat)
    requires OccursAt(s, m, k) && i < |m|
    ensures s[k + i] == m[i]
  {
    assert s[k..k + |m|][i] == s[k + i];
  }

  lemma {:induction false} CountZero(s: string, m: Marker, from: nat)
    ensures Count(s, m, from) == 0 <==> forall k: nat :: from <= k ==> !OccursAt(s, m, k)
  {
    var k := Find(s, m, from);
    if k.Some? { assert OccursAt(s, m, k.value); }
  }

  /** Occurrences of headed markers never overlap. */
  lemma {:induction false} HeadedApart(s: string, m: string, n: string, j: nat, k: nat)
    requires Headed(m) && Headed(n) && OccursAt(s, m, j) && OccursAt(s, n, k) && j < k
    ensures j + |m| <= k
  {
    OccursChar(s, m, j, if k - j < |m| then k - j else 0);
    OccursChar(s, n, k, 0);
  }

  lemma {:induction false} CountOne(s: string, m: Marker)
    requires Headed(m)
    ensures Count(s, m, 0) == 1 <==> exists k: nat :: OnlyAt(s, m, k)
  {
    var f := Find(s, m, 0);
    if f.Some? {
      CountZero(s, m, f.value + |m|);
      if Count(s, m, 0) == 1 {
        forall j: nat | OccursAt(s, m, j) ensures j == f.value {
          if f.value < j { HeadedApart(s, m, m, f.value, j); }
        }
        assert OnlyAt(s, m, f.value);
      }
    } else {
      assert Count(s, m, 0) == 0;
      assert forall k: nat :: !OccursAt(s, m, k);
    }
  }

  // ----- authored text ----------------------------------------------------------------------------------

  function Normalize(s: string): string {
    if s == [] then []
    else if |s| >= 2 && s[0] == '\r' && s[1] == '\n' then ['\n'] + Normalize(s[2..])
    else [s[0]] + Normalize(s[1..])
  }

  datatype Malformed = Unbalanced | Reversed

  function Canonical(text: string): string { Strip(Normalize(text)) + ['\n'] }

  /** The page without its block. */
  function Unblocked(x: Markers, text: string): Result<string, Malformed> {
    if Count(text, x.start, 0) != Count(text, x.end, 0) || Count(text, x.start, 0) > 1 then Err(Unbalanced)
    else
      var start := Find(text, x.start, 0);
      if start.None? then Ok(text)
      else
        var end := Find(text, x.end, 0);
        if end.None? || end.value < start.value then Err(Reversed)
        else Ok(text[..start.value] + text[end.value + |x.end|..])
  }

  function AuthoredText(x: Markers, text: string): Result<string, Malformed> {
    match Unblocked(x, text)
    case Ok(authored) => Ok(Canonical(authored))
    case Err(why) => Err(why)
  }

  /** The page has no marker at all. */
  ghost predicate Bare(x: Markers, text: string) { !Occurs(text, x.start) && !Occurs(text, x.end) }

  function Page(x: Markers, before: string, body: string, after: string): string {
    before + (x.start + (body + (x.end + after)))
  }

  ghost predicate MarkedAt(x: Markers, text: string, i: nat, j: nat) { OnlyAt(text, x.start, i) && OnlyAt(text, x.end, j) }

  /** The page is authored text around one block. */
  ghost predicate Wraps(x: Markers, text: string, before: string, body: string, after: string) {
    text == Page(x, before, body, after) && MarkedAt(x, text, |before|, |before| + |x.start| + |body|)
  }

  ghost predicate HasBlock(x: Markers, text: string) { exists before, body, after :: Wraps(x, text, before, body, after) }

  lemma {:induction false} MarkersDiffer(x: Markers, s: string, k: nat)
    requires Usable(x)
    ensures !(OccursAt(s, x.start, k) && OccursAt(s, x.end, k))
  {
    var i :| 0 <= i < |x.start| && i < |x.end| && x.start[i] != x.end[i];
    if OccursAt(s, x.start, k) {
      OccursChar(s, x.start, k, i);
      assert k + |x.end| <= |s| ==> s[k..k + |x.end|][i] == s[k + i];
    }
  }

  lemma {:induction false} CutAt(x: Markers, text: string, i: nat, j: nat)
    requires Usable(x) && OnlyAt(text, x.start, i) && OnlyAt(text, x.end, j) && i < j
    ensures i + |x.start| <= j && Wraps(x, text, text[..i], text[i + |x.start|..j], text[j + |x.end|..])
  {
    HeadedApart(text, x.start, x.end, i, j);
    PageAt(x, text, i, j);
  }

  lemma {:induction false} PageAt(x: Markers, text: string, i: nat, j: nat)
    requires OccursAt(text, x.start, i) && OccursAt(text, x.end, j) && i + |x.start| <= j
    ensures text == Page(x, text[..i], text[i + |x.start|..j], text[j + |x.end|..])
  {
    Pieces(text, i, i + |x.start|, j, j + |x.end|);
  }

  lemma {:induction false} Pieces(s: string, a: nat, b: nat, c: nat, d: nat)
    requires a <= b <= c <= d <= |s|
    ensures s == s[..a] + (s[a..b] + (s[b..c] + (s[c..d] + s[d..])))
  {
    assert s[c..] == s[c..d] + s[d..];
    assert s[b..] == s[b..c] + s[c..];
    assert s[a..] == s[a..b] + s[b..];
  }

  lemma {:induction false} PageEnds(x: Markers, before: string, body: string, after: string)
    ensures var page := Page(x, before, body, after);
            && page[..|before|] == before
            && |page| == |before| + |x.start| + |body| + |x.end| + |after|
            && page[|before| + |x.start| + |body| + |x.end|..] == after
  {
    assert Page(x, before, body, after) == (before + x.start + body + x.end) + after;
  }

  lemma {:induction false} UnblockedFrom(x: Markers, text: string, i: nat, j: nat)
    requires Count(text, x.start, 0) == Count(text, x.end, 0) == 1
    requires Find(text, x.start, 0) == Some(i) && Find(text, x.end, 0) == Some(j)
    ensures Unblocked(x, text) == if j < i then Err(Reversed) else Ok(text[..i] + text[j + |x.end|..])
  {
  }

  lemma {:induction false} UnblockedAtMostOnce(x: Markers, text: string)
    requires Unblocked(x, text).Ok?
    ensures Count(text, x.start, 0) == Count(text, x.end, 0) <= 1
  {
  }

  lemma {:induction false} FindOnly(s: string, m: string, i: nat)
    requires OnlyAt(s, m, i)
    ensures Find(s, m, 0) == Some(i)
  {
  }

  lemma {:induction false} OnceCounted(s: string, m: Marker, i: nat)
    requires Headed(m) && OnlyAt(s, m, i)
    ensures Count(s, m, 0) == 1 && Find(s, m, 0) == Some(i)
  {
    CountOne(s, m);
    FindOnly(s, m, i);
  }

  lemma {:induction false} OutsideBlock(x: Markers, before: string, body: string, after: string)
    ensures var page := Page(x, before, body, after);
            page[..|before|] + page[|before| + |x.start| + |body| + |x.end|..] == before + after
  {
    PageEnds(x, before, body, after);
  }

  /** Both markers are counted once and found where the block is. */
  ghost predicate FoundAt(x: Markers, text: string, i: nat, j: nat) {
    && Count(text, x.start, 0) == 1 && Find(text, x.start, 0) == Some(i)
    && Count(text, x.end, 0) == 1 && Find(text, x.end, 0) == Some(j)
  }

  lemma {:induction false} FoundOnce(x: Markers, text: string, i: nat, j: nat)
    requires Usable(x) && MarkedAt(x, text, i, j)
    ensures FoundAt(x, text, i, j)
  {
    OnceCounted(text, x.start, i);
    OnceCounted(text, x.end, j);
  }

  lemma {:induction false} MarkedUnblocked(x: Markers, text: string, i: nat, j: nat)
    requires Usable(x) && MarkedAt(x, text, i, j)
    ensures Unblocked(x, text) == if j < i then Err(Reversed) else Ok(text[..i] + text[j + |x.end|..])
  {
    FoundOnce(x, text, i, j);
    UnblockedFrom(x, text, i, j);
  }

  lemma {:induction false} WrappedUnblocked(x: Markers, text: string, before: string, body: string, after: string)
    requires Usable(x) && Wraps(x, text, before, body, after)
    ensures Unblocked(x, text) == Ok(before + after)
  {
    OutsideBlock(x, before, body, after);
    MarkedUnblocked(x, text, |before|, |before| + |x.start| + |body|);
  }

  lemma {:induction false} BareUnblocked(x: Markers, text: string)
    requires Usable(x) && Bare(x, text)
    ensures Unblocked(x, text) == Ok(text)
  {
    CountZero(text, x.start, 0);
    CountZero(text, x.end, 0);
  }

  lemma {:induction false} OncePlaced(s: string, m: Marker) returns (i: nat)
    requires Headed(m) && Count(s, m, 0) == 1
    ensures OnlyAt(s, m, i) && Find(s, m, 0) == Some(i)
  {
    CountOne(s, m);
    i :| OnlyAt(s, m, i);
    FindOnly(s, m, i);
  }

  lemma {:induction false} UnblockedCounts(x: Markers, text: string)
    requires Usable(x) && Unblocked(x, text).Ok?
    ensures Bare(x, text) || HasBlock(x, text)
  {
    UnblockedAtMostOnce(x, text);
    if Count(text, x.start, 0) == 0 {
      CountZero(text, x.start, 0);
      CountZero(text, x.end, 0);
    } else {
      var i := OncePlaced(text, x.start);
      var j := OncePlaced(text, x.end);
      UnblockedFrom(x, text, i, j);
      MarkersDiffer(x, text, i);
      CutHasBlock(x, text, i, j);
    }
  }

  lemma {:induction false} CutHasBlock(x: Markers, text: string, i: nat, j: nat)
    requires Usable(x) && OnlyAt(text, x.start, i) && OnlyAt(text, x.end, j) && i < j
    ensures HasBlock(x, text)
  {
    CutAt(x, text, i, j);
  }

  /** The authored text is defined exactly on pages with one block or none. */
  lemma {:induction false} ReadableExactly(x: Markers, text: string)
    requires Usable(x)
    ensures AuthoredText(x, text).Ok? <==> Bare(x, text) || HasBlock(x, text)
  {
    if Unblocked(x, text).Ok? { UnblockedCounts(x, text); }
    if Bare(x, text) { BareUnblocked(x, text); }
    if before, body, after :| Wraps(x, text, before, body, after) {
      WrappedUnblocked(x, text, before, body, after);
    }
  }

  // ----- where markers can occur --------------------------------------------------------------------------

  /** An occurrence does not reach into a part that begins like a marker. */
  lemma {:induction false} NotAcross(a: string, b: string, m: string, k: nat)
    requires Headed(m) && b != [] && b[0] == '<' && OccursAt(a + b, m, k)
    ensures OccursAt(a, m, k) || (k >= |a| && OccursAt(b, m, k - |a|))
  {
    var s := a + b;
    if k < |a| {
      OccursChar(s, m, k, if |a| - k < |m| then |a| - k else 0);
      assert s[k..k + |m|] == a[k..k + |m|];
    } else {
      assert s[k..k + |m|] == b[k - |a|..k - |a| + |m|];
    }
  }

  /** After a marker, occurrences begin at its head or beyond it. */
  lemma {:induction false} BeyondMarker(marker: string, rest: string, m: string, k: nat)
    requires Headed(m) && Headed(marker) && OccursAt(marker + rest, m, k)
    ensures k == 0 || (k >= |marker| && OccursAt(rest, m, k - |marker|))
  {
    var s := marker + rest;
    OccursChar(s, m, k, 0);
    if k >= |marker| { assert s[k..k + |m|] == rest[k - |marker|..k - |marker| + |m|]; }
  }

  /** The places a marker can have in a page with a block. */
  ghost predicate Somewhere(x: Markers, before: string, body: string, after: string, m: string, k: nat) {
    var b := |before| + |x.start|;
    var e := b + |body|;
    || OccursAt(before, m, k)
    || k == |before|
    || (k >= b && OccursAt(body, m, k - b))
    || k == e
    || (k >= e + |x.end| && OccursAt(after, m, k - e - |x.end|))
  }

  lemma {:induction false} Placed(x: Markers, before: string, body: string, after: string, m: string, k: nat)
    requires Usable(x) && Headed(m) && OccursAt(Page(x, before, body, after), m, k)
    ensures Somewhere(x, before, body, after, m, k)
  {
    var tail := x.end + after;
    var inner := body + tail;
    NotAcross(before, x.start + inner, m, k);
    if !OccursAt(before, m, k) {
      BeyondMarker(x.start, inner, m, k - |before|);
      if k > |before| {
        NotAcross(body, tail, m, k - |before| - |x.start|);
        if !OccursAt(body, m, k - |before| - |x.start|) {
          BeyondMarker(x.end, after, m, k - |before| - |x.start| - |body|);
        }
      }
    }
  }

  lemma {:induction false} OccursIn(a: string, mid: string, b: string, m: string, k: nat)
    ensures OccursAt(mid, m, k) ==> OccursAt(a + (mid + b), m, |a| + k)
  {
    var s := a + (mid + b);
    if OccursAt(mid, m, k) { assert s[|a| + k..|a| + k + |m|] == mid[k..k + |m|]; }
  }

  lemma {:induction false} Assoc(a: string, b: string, c: string)
    ensures (a + b) + c == a + (b + c)
  {
  }

  /** The page cut before its body, and before its last part. */
  lemma {:induction false} PageParts(x: Markers, before: string, body: string, after: string)
    ensures var page := Page(x, before, body, after);
            && page == (before + x.start) + (body + (x.end + after))
            && page == (before + x.start + body) + (x.end + after)
            && page == (before + x.start + body + x.end) + after
  {
    Assoc(before, x.start, body + (x.end + after));
    Assoc(before + x.start, body, x.end + after);
    Assoc(before + x.start + body, x.end, after);
  }

  lemma {:induction false} InBefore(x: Markers, before: string, body: string, after: string, m: string, k: nat)
    ensures OccursAt(before, m, k) ==> OccursAt(Page(x, before, body, after), m, k)
  {
    var rest := x.start + (body + (x.end + after));
    OccursIn([], before, rest, m, k);
    assert [] + (before + rest) == before + rest;
  }

  lemma {:induction false} InBody(x: Markers, before: string, body: string, after: string, m: string, k: nat)
    ensures OccursAt(body, m, k) ==> OccursAt(Page(x, before, body, after), m, |before| + |x.start| + k)
  {
    PageParts(x, before, body, after);
    OccursIn(before + x.start, body, x.end + after, m, k);
  }

  lemma {:induction false} InAfter(x: Markers, before: string, body: string, after: string, m: string, k: nat)
    ensures OccursAt(after, m, k) ==> OccursAt(Page(x, before, body, after), m, |before| + |x.start| + |body| + |x.end| + k)
  {
    PageParts(x, before, body, after);
    OccursIn(before + x.start + body + x.end, after, [], m, k);
    assert after + [] == after;
  }

  lemma {:induction false} InParts(x: Markers, before: string, body: string, after: string, m: string, k: nat)
    ensures var page := Page(x, before, body, after);
            && (OccursAt(before, m, k) ==> OccursAt(page, m, k))
            && (OccursAt(body, m, k) ==> OccursAt(page, m, |before| + |x.start| + k))
            && (OccursAt(after, m, k) ==> OccursAt(page, m, |before| + |x.start| + |body| + |x.end| + k))
  {
    InBefore(x, before, body, after, m, k);
    InBody(x, before, body, after, m, k);
    InAfter(x, before, body, after, m, k);
  }

  lemma {:induction false} MarkersThere(x: Markers, before: string, body: string, after: string)
    ensures OccursAt(Page(x, before, body, after), x.start, |before|)
    ensures OccursAt(Page(x, before, body, after), x.end, |before| + |x.start| + |body|)
  {
    PageParts(x, before, body, after);
    OccursIn(before, x.start, body + (x.end + after), x.start, 0);
    OccursIn(before + x.start + body, x.end, after, x.end, 0);
  }

  /** Free parts put together around a block make a page with exactly that block. */
  lemma {:induction false} WrapsFreeParts(x: Markers, before: string, body: string, after: string)
    requires Usable(x) && Bare(x, before) && Bare(x, body) && Bare(x, after)
    ensures Wraps(x, Page(x, before, body, after), before, body, after)
  {
    var text := Page(x, before, body, after);
    MarkersThere(x, before, body, after);
    MarkersDiffer(x, text, |before|);
    MarkersDiffer(x, text, |before| + |x.start| + |body|);
    forall k: nat | OccursAt(text, x.start, k) ensures k == |before| {
      Placed(x, before, body, after, x.start, k);
    }
    forall k: nat | OccursAt(text, x.end, k) ensures k == |before| + |x.start| + |body| {
      Placed(x, before, body, after, x.end, k);
    }
  }

  /** The parts of a page with one block are free of markers. */
  lemma {:induction false} PartsFree(x: Markers, text: string, before: string, body: string, after: string)
    requires Usable(x) && Wraps(x, text, before, body, after)
    ensures Bare(x, before) && Bare(x, body) && Bare(x, after)
  {
    forall k: nat ensures !OccursAt(before, x.start, k) && !OccursAt(body, x.start, k) && !OccursAt(after, x.start, k) {
      InParts(x, before, body, after, x.start, k);
    }
    forall k: nat ensures !OccursAt(before, x.end, k) && !OccursAt(body, x.end, k) && !OccursAt(after, x.end, k) {
      InParts(x, before, body, after, x.end, k);
      assert OccursAt(before, x.end, k) ==> k + |x.end| <= |before|;
      assert OccursAt(body, x.end, k) ==> k + |x.end| <= |body|;
    }
  }

  // ----- rewriting a page ----------------------------------------------------------------------------------

  function Block(x: Markers, body: string): string { x.start + (body + x.end) }

  /** The page with the block in place of the old one, or at the end. A start without an end raises. */
  function Synchronized(x: Markers, original: string, block: string): Option<string> {
    var begin, end := Find(original, x.start, 0), Find(original, x.end, 0);
    if begin.None? then Some(RStrip(original) + ("\n\n" + (block + "\n")))
    else if end.None? then None
    else Some(original[..begin.value] + (block + original[end.value + |x.end|..]))
  }

  lemma {:induction false} BlockInPage(x: Markers, before: string, body: string, after: string)
    ensures before + (Block(x, body) + after) == Page(x, before, body, after)
  {
    assert Block(x, body) + after == x.start + (body + (x.end + after));
  }

  lemma {:induction false} Spliced(x: Markers, text: string, block: string, i: nat, j: nat)
    requires Find(text, x.start, 0) == Some(i) && Find(text, x.end, 0) == Some(j)
    ensures Synchronized(x, text, block) == Some(text[..i] + (block + text[j + |x.end|..]))
  {
  }

  lemma {:induction false} NewBlock(x: Markers, text: string, before: string, inner: string, after: string, body: string)
    requires text == Page(x, before, inner, after)
    ensures text[..|before|] + (Block(x, body) + text[|before| + |x.start| + |inner| + |x.end|..]) == Page(x, before, body, after)
  {
    PageEnds(x, before, inner, after);
    BlockInPage(x, before, body, after);
  }

  lemma {:induction false} MarkedSpliced(x: Markers, text: string, block: string, i: nat, j: nat)
    requires Usable(x) && MarkedAt(x, text, i, j)
    ensures Synchronized(x, text, block) == Some(text[..i] + (block + text[j + |x.end|..]))
  {
    FoundOnce(x, text, i, j);
    Spliced(x, text, block, i, j);
  }

  lemma {:induction false} Replaced(x: Markers, text: string, before: string, inner: string, after: string, body: string)
    requires Usable(x) && Wraps(x, text, before, inner, after)
    ensures Synchronized(x, text, Block(x, body)) == Some(Page(x, before, body, after))
  {
    NewBlock(x, text, before, inner, after, body);
    MarkedSpliced(x, text, Block(x, body), |before|, |before| + |x.start| + |inner|);
  }

  lemma {:induction false} Inserted(x: Markers, text: string, body: string)
    requires Usable(x) && Bare(x, text)
    ensures Synchronized(x, text, Block(x, body)) == Some(Page(x, RStrip(text) + "\n\n", body, "\n"))
  {
    assert Find(text, x.start, 0).None?;
    var kept := RStrip(text);
    BlockInPage(x, kept + "\n\n", body, "\n");
    assert kept + ("\n\n" + (Block(x, body) + "\n")) == (kept + "\n\n") + (Block(x, body) + "\n");
  }

  /** Trailing characters that no marker contains add no occurrence. */
  lemma {:induction false} BreaksAddNone(a: string, w: string, m: string, k: nat)
    requires m != [] && forall i :: 0 <= i < |w| ==> w[i] !in m
    ensures OccursAt(a + w, m, k) ==> OccursAt(a, m, k)
  {
    var s := a + w;
    assert forall i :: |a| <= i < |s| ==> s[i] == w[i - |a|];
    if OccursAt(s, m, k) {
      OccursChar(s, m, k, |m| - 1);
      assert s[k + |m| - 1] in m;
      assert s[k..k + |m|] == a[k..k + |m|];
    }
  }

  lemma {:induction false} PrefixOccurs(a: string, s: string, m: string, k: nat)
    requires a <= s
    ensures OccursAt(a, m, k) ==> OccursAt(s, m, k)
  {
    if OccursAt(a, m, k) { assert s[k..k + |m|] == a[k..k + |m|]; }
  }

  lemma {:induction false} InsertedPartsFree(x: Markers, text: string)
    requires Usable(x) && Bare(x, text)
    ensures Bare(x, RStrip(text) + "\n\n") && Bare(x, "\n")
  {
    InsertedMarkerFree(text, x.start);
    InsertedMarkerFree(text, x.end);
  }

  lemma {:induction false} InsertedMarkerFree(text: string, m: string)
    requires Headed(m) && !Occurs(text, m)
    ensures !Occurs(RStrip(text) + "\n\n", m) && !Occurs("\n", m)
  {
    var kept := RStrip(text);
    forall k: nat ensures !OccursAt(kept + "\n\n", m, k) && !OccursAt("\n", m, k) {
      BreaksAddNone(kept, "\n\n", m, k);
      PrefixOccurs(kept, text, m, k);
      BreaksAddNone([], "\n", m, k);
      assert [] + "\n" == "\n";
    }
  }

  // ----- the authored text survives ------------------------------------------------------------------------

  lemma {:induction false} BreakStep(s: string)
    requires |s| >= 2 && s[0] == '\r' && s[1] == '\n'
    ensures Normalize(s) == ['\n'] + Normalize(s[2..])
  {
  }

  lemma {:induction false} BreakJoined(a: string, b: string, s: string)
    requires s == a + b && |a| >= 2 && a[0] == '\r' && a[1] == '\n'
    ensures Normalize(s) == ['\n'] + Normalize(a[2..] + b)
  {
    assert s[0] == a[0] && s[1] == a[1] && s[2..] == a[2..] + b;
    BreakStep(s);
  }

  lemma {:induction false} NormalizeBreak(a: string, b: string)
    requires |a| >= 2 && a[0] == '\r' && a[1] == '\n'
    requires Normalize(a[2..] + b) == Normalize(a[2..]) + Normalize(b)
    ensures Normalize(a + b) == Normalize(a) + Normalize(b)
  {
    BreakJoined(a, b, a + b);
    BreakStep(a);
    ConsAppend('\n', Normalize(a[2..]), Normalize(b));
  }

  lemma {:induction false} ConsAppend(c: char, x: string, y: string)
    ensures [c] + (x + y) == ([c] + x) + y
  {
  }

  lemma {:induction false} NormalizePlain(a: string, b: string)
    requires a != [] && a[|a| - 1] != '\r' && (|a| >= 2 ==> !(a[0] == '\r' && a[1] == '\n'))
    requires Normalize(a[1..] + b) == Normalize(a[1..]) + Normalize(b)
    ensures Normalize(a + b) == Normalize(a) + Normalize(b)
  {
    PlainJoined(a, b, a + b);
    PlainStep(a);
    ConsAppend(a[0], Normalize(a[1..]), Normalize(b));
  }

  lemma {:induction false} PlainJoined(a: string, b: string, s: string)
    requires s == a + b && a != [] && a[|a| - 1] != '\r' && (|a| >= 2 ==> !(a[0] == '\r' && a[1] == '\n'))
    ensures Normalize(s) == [a[0]] + Normalize(a[1..] + b)
  {
    assert s[0] == a[0] && s[1..] == a[1..] + b;
    assert |a| >= 2 ==> s[1] == a[1];
    PlainStep(s);
  }

  lemma {:induction false} PlainStep(s: string)
    requires s != [] && (|s| < 2 || s[0] != '\r' || s[1] != '\n')
    ensures Normalize(s) == [s[0]] + Normalize(s[1..])
  {
  }

  lemma {:induction false} NormalizeAppend(a: string, b: string)
    requires a == [] || a[|a| - 1] != '\r'
    ensures Normalize(a + b) == Normalize(a) + Normalize(b)
  {
    if a == [] {
      assert a + b == b;
    } else if |a| >= 2 && a[0] == '\r' && a[1] == '\n' {
      NormalizeAppend(a[2..], b);
      NormalizeBreak(a, b);
    } else {
      NormalizeAppend(a[1..], b);
      NormalizePlain(a, b);
    }
  }

  lemma {:induction false} NormalizeSpace(w: string)
    requires AllSpace(w)
    ensures AllSpace(Normalize(w))
  {
    if |w| >= 2 && w[0] == '\r' && w[1] == '\n' {
      NormalizeSpace(w[2..]);
    } else if w != [] {
      NormalizeSpace(w[1..]);
    }
  }

  lemma {:induction false} RStripSpace(s: string, w: string)
    requires AllSpace(w)
    ensures RStrip(s + w) == RStrip(s)
  {
    if w == [] {
      assert s + w == s;
    } else {
      assert (s + w)[..|s + w| - 1] == s + w[..|w| - 1];
      RStripSpace(s, w[..|w| - 1]);
    }
  }

  lemma {:induction false} StripSpace(s: string, w: string)
    requires AllSpace(w)
    ensures Strip(s + w) == Strip(s)
  {
    if s == [] {
      assert s + w == w;
      AllStripped(w);
    } else if IsSpace(s[0]) {
      assert (s + w)[1..] == s[1..] + w;
      StripSpace(s[1..], w);
    } else {
      RStripSpace(s, w);
    }
  }

  lemma {:induction false} AllStripped(w: string)
    requires AllSpace(w)
    ensures LStrip(w) == []
  {
    if w != [] { AllStripped(w[1..]); }
  }

  lemma {:induction false} TrailingSpaceIgnored(s: string, w: string)
    requires AllSpace(w) && (s == [] || s[|s| - 1] != '\r')
    ensures Canonical(s + w) == Canonical(s)
  {
    NormalizeAppend(s, w);
    NormalizeSpace(w);
    StripSpace(Normalize(s), Normalize(w));
  }

  lemma {:induction false} InsertedCanonical(text: string)
    ensures Canonical((RStrip(text) + "\n\n") + "\n") == Canonical(text)
  {
    var kept := RStrip(text);
    assert text == kept + text[|kept|..];
    assert (kept + "\n\n") + "\n" == kept + "\n\n\n";
    TrailingSpaceIgnored(kept, text[|kept|..]);
    TrailingSpaceIgnored(kept, "\n\n\n");
  }

  /** The page a rewrite makes: the parts around its block, and what the authored text was. */
  ghost predicate Rewrites(x: Markers, original: string, before: string, after: string) {
    && Bare(x, before) && Bare(x, after)
    && AuthoredText(x, original) == Ok(Canonical(before + after))
    && forall body :: Synchronized(x, original, Block(x, body)) == Some(Page(x, before, body, after))
  }

  /** On every readable page the rewrite only exchanges the block. */
  lemma {:induction false} RewriteShape(x: Markers, original: string) returns (before: string, after: string)
    requires Usable(x) && AuthoredText(x, original).Ok?
    ensures Rewrites(x, original, before, after)
  {
    UnblockedCounts(x, original);
    if Bare(x, original) {
      before, after := RStrip(original) + "\n\n", "\n";
      BareUnblocked(x, original);
      InsertedCanonical(original);
      InsertedPartsFree(x, original);
      forall body ensures Synchronized(x, original, Block(x, body)) == Some(Page(x, before, body, after)) {
        Inserted(x, original, body);
      }
    } else {
      before, after := BlockShape(x, original);
    }
  }

  lemma {:induction false} BlockShape(x: Markers, original: string) returns (before: string, after: string)
    requires Usable(x) && HasBlock(x, original)
    ensures Rewrites(x, original, before, after)
  {
    ghost var inner: string;
    before, inner, after :| Wraps(x, original, before, inner, after);
    WrappedUnblocked(x, original, before, inner, after);
    PartsFree(x, original, before, inner, after);
    forall body ensures Synchronized(x, original, Block(x, body)) == Some(Page(x, before, body, after)) {
      Replaced(x, original, before, inner, after, body);
    }
  }

  /** A page around a body that holds marker text is not readable. */
  lemma {:induction false} ReadablePageBody(x: Markers, before: string, body: string, after: string)
    requires Usable(x) && AuthoredText(x, Page(x, before, body, after)).Ok?
    ensures Bare(x, body)
  {
    UnblockedCounts(x, Page(x, before, body, after));
    MarkersThere(x, before, body, after);
    OnlyBlock(x, Page(x, before, body, after), before, body, after);
  }

  lemma {:induction false} OnlyBlock(x: Markers, page: string, before: string, body: string, after: string)
    requires Usable(x) && HasBlock(x, page) && page == Page(x, before, body, after)
    ensures Bare(x, body)
  {
    var b, inner, a :| Wraps(x, page, b, inner, a);
    PartsFree(x, page, b, inner, a);
    SameBody(x, page, b, inner, a, before, body, after);
  }

  lemma {:induction false} SameBody(
      x: Markers, page: string, b: string, inner: string, a: string, before: string, body: string, after: string)
    requires Wraps(x, page, b, inner, a) && page == Page(x, before, body, after)
    ensures inner == body
  {
    MarkersThere(x, before, body, after);
    assert |b| == |before| && |inner| == |body|;
    PageBody(x, before, body, after);
    PageBody(x, b, inner, a);
  }

  lemma {:induction false} PageBody(x: Markers, before: string, body: string, after: string)
    ensures |Page(x, before, body, after)| >= |before| + |x.start| + |body|
    ensures Page(x, before, body, after)[|before| + |x.start|..|before| + |x.start| + |body|] == body
  {
    assert Page(x, before, body, after) == (before + x.start) + body + (x.end + after);
  }

  /** Inserting or replacing the block leaves the authored text as it was exactly when the block's
      own text holds no marker. */
  lemma {:induction false} AuthoredTextKeptExactly(x: Markers, original: string, body: string)
    requires Usable(x) && AuthoredText(x, original).Ok?
    ensures var updated := Synchronized(x, original, Block(x, body));
            updated.Some? && (AuthoredText(x, updated.value) == AuthoredText(x, original) <==> Bare(x, body))
  {
    var before, after := RewriteShape(x, original);
    var page := Page(x, before, body, after);
    assert Synchronized(x, original, Block(x, body)) == Some(page);
    if Bare(x, body) {
      WrapsFreeParts(x, before, body, after);
      WrappedUnblocked(x, page, before, body, after);
    }
    if AuthoredText(x, page).Ok? { ReadablePageBody(x, before, body, after); }
  }

  /** A second rewrite replaces the first: with the same rows nothing changes any more. */
  lemma {:induction false} LastRewriteWins(x: Markers, original: string, first: string, second: string)
    requires Usable(x) && AuthoredText(x, original).Ok? && Bare(x, first)
    ensures var once := Synchronized(x, original, Block(x, first));
            && once.Some?
            && Synchronized(x, once.value, Block(x, second)) == Synchronized(x, original, Block(x, second))
            && Synchronized(x, once.value, Block(x, first)) == once
  {
    var before, after := RewriteShape(x, original);
    var page := Page(x, before, first, after);
    assert Synchronized(x, original, Block(x, first)) == Some(page);
    assert Synchronized(x, original, Block(x, second)) == Some(Page(x, before, second, after));
    WrapsFreeParts(x, before, first, after);
    Replaced(x, page, before, first, after, first);
    Replaced(x, page, before, first, after, second);
  }

  // ----- the text of the block --------------------------------------------------------------------------------

  /** `lead` is the heading with one of the two fixed notices. */
  function Body(lead: string, rows: string): string { lead + (rows + "\n```\n") }

  lemma {:induction false} MarkerInRows(lead: string, rows: string, m: string, k: nat)
    requires Headed(m) && '<' !in lead
    ensures OccursAt(Body(lead, rows), m, k) ==> k >= |lead| && OccursAt(rows, m, k - |lead|)
  {
    var s, tail := Body(lead, rows), "\n```\n";
    assert forall i :: 0 <= i < |lead| ==> s[i] == lead[i];
    assert forall i :: 0 <= i < |rows| ==> s[|lead| + i] == rows[i];
    assert s[|lead| + |rows|..] == tail;
    if OccursAt(s, m, k) {
      OccursChar(s, m, k, 0);
      var cut := |lead| + |rows| - k;
      assert tail[0] == '\n' && forall i :: 0 <= i < |tail| ==> tail[i] != '<';
      assert forall i :: |lead| + |rows| <= i < |s| ==> s[i] == tail[i - |lead| - |rows|];
      OccursChar(s, m, k, if 0 <= cut < |m| then cut else 0);
      assert s[k..k + |m|] == rows[k - |lead|..k - |lead| + |m|];
    }
  }

  /** The block is free of markers exactly when its rows are. */
  lemma {:induction false} BodyFreeExactly(x: Markers, lead: string, rows: string)
    requires Usable(x) && '<' !in lead
    ensures Bare(x, Body(lead, rows)) <==> Bare(x, rows)
  {
    forall k: nat
      ensures OccursAt(Body(lead, rows), x.start, |lead| + k) <==> OccursAt(rows, x.start, k)
      ensures OccursAt(Body(lead, rows), x.end, |lead| + k) <==> OccursAt(rows, x.end, k)
    {
      MarkerInRows(lead, rows, x.start, |lead| + k);
      MarkerInRows(lead, rows, x.end, |lead| + k);
      OccursIn(lead, rows, "\n```\n", x.start, k);
      OccursIn(lead, rows, "\n```\n", x.end, k);
    }
    forall k: nat ensures OccursAt(Body(lead, rows), x.start, k) ==> Occurs(rows, x.start) {
      MarkerInRows(lead, rows, x.start, k);
    }
    forall k: nat ensures OccursAt(Body(lead, rows), x.end, k) ==> Occurs(rows, x.end) {
      MarkerInRows(lead, rows, x.end, k);
    }
  }
}
