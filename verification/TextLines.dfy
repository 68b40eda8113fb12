/** Python's view of text: whitespace, `str.strip`, and both forms of `str.splitlines`. */
module TextLines {
  import opened Basics

  predicate IsSpace(c: char) {
    || '\t' <= c <= '\r' || '\U{1C}' <= c <= ' ' || c == '\U{85}' || c == '\U{A0}'
    || c == '\U{1680}' || '\U{2000}' <= c <= '\U{200A}' || c == '\U{2028}' || c == '\U{2029}'
    || c == '\U{202F}' || c == '\U{205F}' || c == '\U{3000}'
  }

  predicate AllSpace(s: string) { forall c :: c in s ==> IsSpace(c) }

  function LStrip(s: string): (r: string)
    ensures r == [] || !IsSpace(r[0])
  {
    if s != [] && IsSpace(s[0]) then LStrip(s[1..]) else s
  }

  function RStrip(s: string): (r: string)
    ensures r == [] || !IsSpace(r[|r| - 1])
    ensures r <= s && AllSpace(s[|r|..])
    ensures |r| < |s| ==> IsSpace(s[|r|])
  {
    if s != [] && IsSpace(s[|s| - 1]) then
      var r := RStrip(s[..|s| - 1]);
      assert s[|r|..] == s[..|s| - 1][|r|..] + [s[|s| - 1]];
      r
    else s
  }

  function Strip(s: string): string { RStrip(LStrip(s)) }

  // ----- lines ----------------------------------------------------------------

  predicate IsBreak(c: char) {
    || '\n' <= c <= '\r' || '\U{1C}' <= c <= '\U{1E}'
    || c == '\U{85}' || c == '\U{2028}' || c == '\U{2029}'
  }

  /** Length of the first line, its terminator included; CR LF is one terminator. */
  function LineLength(text: string): (n: nat)
    requires text != []
    ensures 1 <= n <= |text|
  {
    if IsBreak(text[0]) then
      if text[0] == '\r' && |text| > 1 && text[1] == '\n' then 2 else 1
    else if |text| == 1 then 1
    else 1 + LineLength(text[1..])
  }

  /** Length of the first line without its terminator. */
  function BodyLength(text: string): (n: nat)
    requires text != []
    ensures n <= LineLength(text)
    ensures forall i :: 0 <= i < n ==> !IsBreak(text[i])
  {
    if IsBreak(text[0]) then 0
    else if |text| == 1 then 1
    else 1 + BodyLength(text[1..])
  }

  /** `text.splitlines(keepends=True)`, the form the section ledger reads. */
  function LinesWithEnds(text: string): (lines: seq<string>) {
    if text == [] then []
    else
      var n := LineLength(text);
      [text[..n]] + LinesWithEnds(text[n..])
  }

  /** `text.splitlines()`, the form the outline builder reads. */
  function Lines(text: string): (lines: seq<string>) {
    if text == [] then []
    else
      var n := LineLength(text);
      [text[..BodyLength(text)]] + Lines(text[n..])
  }

  lemma {:induction false} FirstKept(line: string, rest: seq<string>)
    ensures Flatten([line] + rest) == line + Flatten(rest)
  {
    assert ([line] + rest)[1..] == rest;
  }

  lemma {:induction false} PrefixesCons(a: string, short: seq<string>, b: string, long: seq<string>)
    requires |short| == |long| && a <= b && forall i :: 0 <= i < |short| ==> short[i] <= long[i]
    ensures forall i :: 0 <= i < |[a] + short| ==> ([a] + short)[i] <= ([b] + long)[i]
  {
  }

  /** Both readers number the same lines, and the kept terminators lose no character. */
  lemma {:induction false} TwoViewsOfOneText(text: string)
    ensures |Lines(text)| == |LinesWithEnds(text)|
    ensures forall i :: 0 <= i < |Lines(text)| ==> Lines(text)[i] <= LinesWithEnds(text)[i]
    ensures Flatten(LinesWithEnds(text)) == text
    decreases |text|
  {
    if text != [] {
      var n := LineLength(text);
      TwoViewsOfOneText(text[n..]);
      FirstKept(text[..n], LinesWithEnds(text[n..]));
      assert text == text[..n] + text[n..];
      PrefixesCons(text[..BodyLength(text)], Lines(text[n..]), text[..n], LinesWithEnds(text[n..]));
    }
  }

  // ----- headings -------------------------------------------------------------

  type Level = n: nat | 1 <= n <= 6 witness 1

  function HashRun(line: string): (n: nat)
    ensures n <= |line|
  {
    if line != [] && line[0] == '#' then 1 + HashRun(line[1..]) else 0
  }

  /** A Markdown heading: one to six `#`, whitespace, and at least one more character. */
  function HeadingLevel(line: string): (level: Option<Level>) {
    var k := HashRun(line);
    if 1 <= k <= 6 && k + 1 < |line| && IsSpace(line[k]) then Some(k) else None
  }

  function HeadingTitle(line: string): string { Strip(line[HashRun(line)..]) }
}
