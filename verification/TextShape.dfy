/** What splitting, stripping and reading headings give, told from the characters. */
module TextShape {
  import opened Basics
  import opened TextLines

  const BREAKS: set<char> := {'\n', '\U{B}', '\U{C}', '\r', '\U{1C}', '\U{1D}', '\U{1E}', '\U{85}', '\U{2028}', '\U{2029}'}

  lemma {:induction false} BreaksAre(c: char)
    ensures IsBreak(c) <==> c in BREAKS
  {
  }

  // ----- stripping ---------------------------------------------------------------------------------

  predicate Cut(whole: string, a: string, core: string, b: string) { whole == a + core + b && AllSpace(a) && AllSpace(b) }

  /** `core` is `whole` without the whitespace at its ends. */
  ghost predicate Stripped(whole: string, core: string) {
    && (exists a, b :: Cut(whole, a, core, b))
    && (core != "" ==> !IsSpace(core[0]) && !IsSpace(core[|core| - 1]))
  }

  lemma {:induction false} OneSpaceMore(c: char, a: string)
    requires IsSpace(c) && AllSpace(a)
    ensures AllSpace([c] + a)
  {
  }

  lemma {:induction false} LStripSuffix(s: string) returns (a: string)
    ensures s == a + LStrip(s) && AllSpace(a)
  {
    if s != [] && IsSpace(s[0]) {
      var rest := LStripSuffix(s[1..]);
      OneSpaceMore(s[0], rest);
      a := [s[0]] + rest;
      assert s == [s[0]] + s[1..];
      assert [s[0]] + (rest + LStrip(s[1..])) == a + LStrip(s[1..]);
    } else {
      a := "";
      assert s == "" + s;
    }
  }

  lemma {:induction false} CutInside(s: string, a: string, rest: string, core: string)
    requires s == a + rest && core <= rest && AllSpace(a) && AllSpace(rest[|core|..])
    ensures Cut(s, a, core, rest[|core|..])
  {
    assert rest == core + rest[|core|..];
  }

  lemma {:induction false} FirstKept(rest: string, core: string)
    requires core <= rest && (rest != "" ==> !IsSpace(rest[0]))
    ensures core != "" ==> !IsSpace(core[0])
  {
  }

  lemma {:induction false} StripCuts(s: string) returns (a: string, b: string)
    ensures Cut(s, a, Strip(s), b)
  {
    a := LStripSuffix(s);
    b := LStrip(s)[|Strip(s)|..];
    CutInside(s, a, LStrip(s), Strip(s));
  }

  lemma {:induction false} StripExactly(s: string)
    ensures Stripped(s, Strip(s))
  {
    var a, b := StripCuts(s);
    FirstKept(LStrip(s), Strip(s));
  }

  // ----- lines --------------------------------------------------------------------------------------------

  /** A line with its terminator, and without: the terminator is one break or CR LF, and only the
      last line may lack one. */
  ghost predicate LinePair(kept: string, plain: string, last: bool) {
    && (forall i :: 0 <= i < |plain| ==> !IsBreak(plain[i]))
    && (|| (exists c :: IsBreak(c) && kept == plain + [c])
        || kept == plain + "\r\n"
        || (last && plain != "" && kept == plain))
  }

  /** Nowhere is a CR LF split between two lines. */
  ghost predicate WholeBreaks(kept: seq<string>) {
    forall i, j :: 0 <= i && j == i + 1 && j < |kept| ==> BreakBetween(kept[i], kept[j])
  }

  predicate BreakBetween(line: string, next: string) {
    line != "" && next != "" && !(line[|line| - 1] == '\r' && next[0] == '\n')
  }

  ghost predicate SplitInto(text: string, kept: seq<string>, plain: seq<string>) {
    && Flatten(kept) == text && |plain| == |kept| && WholeBreaks(kept)
    && forall i :: 0 <= i < |kept| ==> LinePair(kept[i], plain[i], i == |kept| - 1)
  }

  lemma {:induction false} FirstLine(text: string)
    requires text != []
    ensures FirstIs(text, LineLength(text), BodyLength(text))
  {
    if IsBreak(text[0]) {
      FirstBreak(text);
    } else if |text| == 1 {
      assert text[..1] == text;
    } else {
      FirstLine(text[1..]);
      FirstFurther(text, text[1..], LineLength(text[1..]), BodyLength(text[1..]));
    }
  }

  /** The first line is `n` characters long, `m` of them before the terminator. */
  ghost predicate FirstIs(text: string, n: nat, m: nat) {
    && 0 < n <= |text| && m <= n && LinePair(text[..n], text[..m], n == |text|)
    && (n < |text| ==> !(text[n - 1] == '\r' && text[n] == '\n'))
  }

  lemma {:induction false} FirstBreak(text: string)
    requires text != [] && IsBreak(text[0])
    ensures FirstIs(text, LineLength(text), 0)
  {
    assert text[..0] == "";
    if LineLength(text) == 2 { assert text[..2] == "" + "\r\n"; } else { assert text[..1] == "" + [text[0]]; }
  }

  lemma {:induction false} FirstFurther(text: string, rest: string, n: nat, m: nat)
    requires text != [] && rest == text[1..] && !IsBreak(text[0]) && FirstIs(rest, n, m)
    ensures FirstIs(text, n + 1, m + 1)
  {
    assert text[..n + 1] == [text[0]] + rest[..n] && text[..m + 1] == [text[0]] + rest[..m];
    OneFurther(text[0], rest[..n], rest[..m], n == |rest|);
  }

  lemma {:induction false} OneFurther(c: char, kept: string, plain: string, last: bool)
    requires !IsBreak(c) && LinePair(kept, plain, last)
    ensures LinePair([c] + kept, [c] + plain, last)
  {
    if t :| IsBreak(t) && kept == plain + [t] { assert [c] + kept == ([c] + plain) + [t]; }
    if kept == plain + "\r\n" { assert [c] + kept == ([c] + plain) + "\r\n"; }
  }

  /** Both ways of splitting a text give its lines: broken exactly at the line breaks, CR LF being one. */
  lemma {:induction false} LinesExactly(text: string)
    ensures SplitInto(text, LinesWithEnds(text), Lines(text))
    decreases |text|
  {
    TwoViewsOfOneText(text);
    if text != [] {
      var n := LineLength(text);
      FirstLine(text);
      LinesExactly(text[n..]);
      ConsSplit(text, n, BodyLength(text), LinesWithEnds(text[n..]), Lines(text[n..]));
    }
  }

  lemma {:induction false} ConsSplit(text: string, n: nat, m: nat, kept: seq<string>, plain: seq<string>)
    requires FirstIs(text, n, m)
    requires SplitInto(text[n..], kept, plain) && (kept == [] <==> n == |text|)
    ensures WholeBreaks([text[..n]] + kept)
    ensures forall i :: 0 <= i < |kept| + 1 ==> LinePair(([text[..n]] + kept)[i], ([text[..m]] + plain)[i], i == |kept|)
  {
    var all := [text[..n]] + kept;
    if kept != [] {
      assert kept[0] != "" by { assert LinePair(kept[0], plain[0], 0 == |kept| - 1); }
      assert Flatten(kept) == kept[0] + Flatten(kept[1..]);
      assert text[n] == kept[0][0];
    }
    forall i, j | 0 <= i && j == i + 1 && j < |all| ensures BreakBetween(all[i], all[j]) {
      if i > 0 { assert all[i] == kept[i - 1] && all[j] == kept[j - 1]; }
    }
    forall i | 0 <= i < |all| ensures LinePair(all[i], ([text[..m]] + plain)[i], i == |kept|) {
      if i > 0 { assert LinePair(kept[i - 1], plain[i - 1], i - 1 == |kept| - 1); }
    }
  }

  // ----- headings ----------------------------------------------------------------------------------------------

  /** The line is one to six `#`, whitespace and at least one more character; `title` is what follows
      the `#`, stripped. */
  ghost predicate IsHeading(line: string, n: nat, title: string) {
    && 1 <= n <= 6 && n + 1 < |line| && (forall i :: 0 <= i < n ==> line[i] == '#') && IsSpace(line[n])
    && Stripped(line[n..], title)
  }

  lemma {:induction false} HashesExactly(line: string)
    ensures var k := HashRun(line);
            (forall i :: 0 <= i < k ==> line[i] == '#') && (k < |line| ==> line[k] != '#')
  {
    if line != [] && line[0] == '#' {
      HashesExactly(line[1..]);
      forall i | 0 <= i < HashRun(line) ensures line[i] == '#' { if i > 0 { assert line[i] == line[1..][i - 1]; } }
    }
  }

  /** A line opens a section exactly when it is such a heading, at the level of its `#`. */
  lemma {:induction false} HeadingExactly(line: string)
    ensures HeadingLevel(line).Some? ==> IsHeading(line, HeadingLevel(line).value, HeadingTitle(line))
    ensures HeadingLevel(line).None? ==> forall n: nat, title :: !IsHeading(line, n, title)
  {
    var k := HashRun(line);
    HashesExactly(line);
    StripExactly(line[k..]);
    forall n: nat, title | IsHeading(line, n, title) ensures n == k { assert !IsSpace('#') && line[n] != '#'; }
  }
}
