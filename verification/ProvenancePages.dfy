/** Rewriting the provenance blocks of all output pages of a build record. */
module ProvenancePages {
  import opened Basics
  import opened Provenance

  /** A page path with the text its block is to hold. */
  datatype Output = Output(path: string, body: string)

  datatype Outcome = Applied | Refused | Interrupted

  type Pages = map<string, string>

  predicate PathsDistinct(outputs: seq<Output>) {
    forall i, j :: 0 <= i < j < |outputs| ==> outputs[i].path != outputs[j].path
  }

  predicate ReadyOne(x: Markers, pages: Pages, o: Output) { o.path in pages && AuthoredText(x, pages[o.path]).Ok? }

  /** Every page exists and has a readable authored text. */
  predicate Ready(x: Markers, pages: Pages, outputs: seq<Output>) {
    forall i :: 0 <= i < |outputs| ==> ReadyOne(x, pages, outputs[i])
  }

  function Updated(x: Markers, pages: Pages, o: Output): string
    requires o.path in pages
  {
    Synchronized(x, pages[o.path], Block(x, o.body)).GetOr(pages[o.path])
  }

  function Texts(x: Markers, pages: Pages, outputs: seq<Output>): (texts: seq<string>)
    requires forall i :: 0 <= i < |outputs| ==> outputs[i].path in pages
    ensures |texts| == |outputs| && forall i :: 0 <= i < |outputs| ==> texts[i] == Updated(x, pages, outputs[i])
  {
    seq(|outputs|, i requires 0 <= i < |outputs| => Updated(x, pages, outputs[i]))
  }

  function Overlay(pages: Pages, outputs: seq<Output>, texts: seq<string>, n: nat): Pages
    requires n <= |outputs| == |texts|
  {
    if n == 0 then pages else Overlay(pages, outputs, texts, n - 1)[outputs[n - 1].path := texts[n - 1]]
  }

  /** The pages once the first `n` outputs are written. */
  function Rewritten(x: Markers, pages: Pages, outputs: seq<Output>, n: nat): Pages
    requires n <= |outputs| && forall i :: 0 <= i < |outputs| ==> outputs[i].path in pages
  {
    Overlay(pages, outputs, Texts(x, pages, outputs), n)
  }

  class Vault {
    var pages: Pages

    constructor (pages: Pages)
      ensures this.pages == pages
    {
      this.pages := pages;
    }

    /** All pages are read and checked before the first is written; the run may be cut off after
        any page. */
    method Synchronize(x: Markers, outputs: seq<Output>, budget: nat) returns (outcome: Outcome)
      requires Usable(x) && PathsDistinct(outputs)
      modifies this
      ensures !Ready(x, old(pages), outputs) ==> outcome == Refused && pages == old(pages)
      ensures Ready(x, old(pages), outputs) ==>
                && outcome == (if budget < |outputs| then Interrupted else Applied)
                && pages == Rewritten(x, old(pages), outputs, Min(budget, |outputs|))
    {
      var plan := Collect(x, pages, outputs);
      if plan.None? { return Refused; }
      assert plan.value == Texts(x, pages, outputs);
      outcome := WriteAll(outputs, plan.value, budget);
    }

    method WriteAll(outputs: seq<Output>, texts: seq<string>, budget: nat) returns (outcome: Outcome)
      requires |texts| == |outputs|
      modifies this
      ensures outcome == if budget < |outputs| then Interrupted else Applied
      ensures pages == Overlay(old(pages), outputs, texts, Min(budget, |outputs|))
    {
      for n := 0 to |outputs|
        invariant n <= budget && pages == Overlay(old(pages), outputs, texts, n)
      {
        if n == budget { return Interrupted; }
        pages := pages[outputs[n].path := texts[n]];
      }
      return Applied;
    }
  }

  method Collect(x: Markers, pages: Pages, outputs: seq<Output>) returns (plan: Option<seq<string>>)
    requires Usable(x)
    ensures plan.Some? <==> Ready(x, pages, outputs)
    ensures plan.Some? ==>
              |plan.value| == |outputs| && forall i :: 0 <= i < |outputs| ==> plan.value[i] == Updated(x, pages, outputs[i])
  {
    var updated: seq<string> := [];
    for n := 0 to |outputs|
      invariant |updated| == n && Ready(x, pages, outputs[..n])
      invariant forall i :: 0 <= i < n ==> updated[i] == Updated(x, pages, outputs[i])
    {
      assert outputs[..n + 1][..n] == outputs[..n];
      ReadyLonger(x, pages, outputs[..n], outputs[n]);
      ReadyShorter(x, pages, outputs, n + 1);
      var text := CollectOne(x, pages, outputs[n]);
      assert outputs[..n] + [outputs[n]] == outputs[..n + 1];
      if text.None? { return None; }
      updated := updated + [text.value];
    }
    assert outputs[..|outputs|] == outputs;
    return Some(updated);
  }

  method CollectOne(x: Markers, pages: Pages, o: Output) returns (text: Option<string>)
    requires Usable(x)
    ensures text.Some? <==> ReadyOne(x, pages, o)
    ensures text.Some? ==> text.value == Updated(x, pages, o)
  {
    if o.path !in pages { return None; }
    var original := pages[o.path];
    if AuthoredText(x, original).Err? { return None; }
    return Some(Synchronized(x, original, Block(x, o.body)).GetOr(original));
  }

  lemma {:induction false} ReadyLonger(x: Markers, pages: Pages, outputs: seq<Output>, o: Output)
    ensures Ready(x, pages, outputs + [o]) <==> Ready(x, pages, outputs) && ReadyOne(x, pages, o)
  {
    assert (outputs + [o])[|outputs|] == o && forall i :: 0 <= i < |outputs| ==> (outputs + [o])[i] == outputs[i];
  }

  lemma {:induction false} ReadyShorter(x: Markers, pages: Pages, outputs: seq<Output>, n: nat)
    requires n <= |outputs|
    ensures Ready(x, pages, outputs) ==> Ready(x, pages, outputs[..n])
  {
  }

  // ----- what a run leaves ------------------------------------------------------------------------------

  lemma {:induction false} OverlayAt(pages: Pages, outputs: seq<Output>, texts: seq<string>, n: nat, i: nat)
    requires PathsDistinct(outputs) && n <= |outputs| == |texts| && i < |outputs| && outputs[i].path in pages
    ensures var path := outputs[i].path;
            path in Overlay(pages, outputs, texts, n)
            && Overlay(pages, outputs, texts, n)[path] == if i < n then texts[i] else pages[path]
  {
    if n > 0 { OverlayAt(pages, outputs, texts, n - 1, i); }
  }

  lemma {:induction false} OverlayOutside(pages: Pages, outputs: seq<Output>, texts: seq<string>, n: nat, path: string)
    requires n <= |outputs| == |texts| && forall k :: 0 <= k < |outputs| ==> outputs[k].path != path
    ensures path in Overlay(pages, outputs, texts, n) <==> path in pages
    ensures path in pages ==> Overlay(pages, outputs, texts, n)[path] == pages[path]
  {
    if n > 0 { OverlayOutside(pages, outputs, texts, n - 1, path); }
  }

  lemma {:induction false} RewrittenAt(x: Markers, pages: Pages, outputs: seq<Output>, n: nat, i: nat)
    requires PathsDistinct(outputs) && n <= |outputs| && i < |outputs|
    requires forall k :: 0 <= k < |outputs| ==> outputs[k].path in pages
    ensures var path := outputs[i].path;
            path in Rewritten(x, pages, outputs, n)
            && Rewritten(x, pages, outputs, n)[path] == if i < n then Updated(x, pages, outputs[i]) else pages[path]
  {
    OverlayAt(pages, outputs, Texts(x, pages, outputs), n, i);
  }

  lemma {:induction false} OthersUntouched(x: Markers, pages: Pages, outputs: seq<Output>, n: nat, path: string)
    requires n <= |outputs| && forall k :: 0 <= k < |outputs| ==> outputs[k].path in pages
    requires forall k :: 0 <= k < |outputs| ==> outputs[k].path != path
    ensures path in Rewritten(x, pages, outputs, n) <==> path in pages
    ensures path in pages ==> Rewritten(x, pages, outputs, n)[path] == pages[path]
  {
    OverlayOutside(pages, outputs, Texts(x, pages, outputs), n, path);
  }

  ghost predicate BodiesFree(x: Markers, outputs: seq<Output>) {
    forall i :: 0 <= i < |outputs| ==> Bare(x, outputs[i].body)
  }

  /** Wherever the run is cut off, every page keeps its authored text. */
  lemma {:induction false} EveryAuthoredTextKept(x: Markers, pages: Pages, outputs: seq<Output>, n: nat, path: string)
    requires Usable(x) && PathsDistinct(outputs) && Ready(x, pages, outputs) && BodiesFree(x, outputs)
    requires n <= |outputs| && path in pages
    ensures path in Rewritten(x, pages, outputs, n)
    ensures AuthoredText(x, Rewritten(x, pages, outputs, n)[path]) == AuthoredText(x, pages[path])
  {
    if i: nat :| i < |outputs| && outputs[i].path == path {
      RewrittenAt(x, pages, outputs, n, i);
      AuthoredTextKeptExactly(x, pages[path], outputs[i].body);
    } else {
      OthersUntouched(x, pages, outputs, n, path);
    }
  }

  lemma {:induction false} StillReady(x: Markers, pages: Pages, outputs: seq<Output>, n: nat)
    requires Usable(x) && PathsDistinct(outputs) && Ready(x, pages, outputs) && BodiesFree(x, outputs) && n <= |outputs|
    ensures Ready(x, Rewritten(x, pages, outputs, n), outputs)
  {
    forall i | 0 <= i < |outputs|
      ensures outputs[i].path in Rewritten(x, pages, outputs, n)
      ensures AuthoredText(x, Rewritten(x, pages, outputs, n)[outputs[i].path]).Ok?
    {
      EveryAuthoredTextKept(x, pages, outputs, n, outputs[i].path);
    }
  }

  predicate SameAt(a: Pages, b: Pages, path: string) { (path in a <==> path in b) && (path in b ==> a[path] == b[path]) }

  lemma {:induction false} SameEverywhere(a: Pages, b: Pages)
    requires forall path :: SameAt(a, b, path)
    ensures a == b
  {
    assert forall path :: path in a ==> SameAt(a, b, path);
    assert forall path :: path in b ==> SameAt(a, b, path);
  }

  lemma {:induction false} RerunPage(x: Markers, pages: Pages, outputs: seq<Output>, n: nat, path: string)
    requires Usable(x) && PathsDistinct(outputs) && Ready(x, pages, outputs) && BodiesFree(x, outputs) && n <= |outputs|
    requires Ready(x, Rewritten(x, pages, outputs, n), outputs)
    ensures SameAt(Rewritten(x, Rewritten(x, pages, outputs, n), outputs, |outputs|), Rewritten(x, pages, outputs, |outputs|), path)
  {
    var half, m := Rewritten(x, pages, outputs, n), |outputs|;
    if i: nat :| i < |outputs| && outputs[i].path == path {
      RewrittenAt(x, pages, outputs, n, i);
      RewrittenAt(x, pages, outputs, m, i);
      RewrittenAt(x, half, outputs, m, i);
      LastRewriteWins(x, pages[path], outputs[i].body, outputs[i].body);
    } else {
      OthersUntouched(x, pages, outputs, n, path);
      OthersUntouched(x, pages, outputs, m, path);
      OthersUntouched(x, half, outputs, m, path);
    }
  }

  /** Rerunning after any interruption, or after a whole run, gives the pages of one whole run. */
  lemma {:induction false} RerunConverges(x: Markers, pages: Pages, outputs: seq<Output>, n: nat)
    requires Usable(x) && PathsDistinct(outputs) && Ready(x, pages, outputs) && BodiesFree(x, outputs) && n <= |outputs|
    ensures Ready(x, Rewritten(x, pages, outputs, n), outputs)
    ensures Rewritten(x, Rewritten(x, pages, outputs, n), outputs, |outputs|) == Rewritten(x, pages, outputs, |outputs|)
  {
    StillReady(x, pages, outputs, n);
    forall path ensures SameAt(Rewritten(x, Rewritten(x, pages, outputs, n), outputs, |outputs|), Rewritten(x, pages, outputs, |outputs|), path) {
      RerunPage(x, pages, outputs, n, path);
    }
    SameEverywhere(Rewritten(x, Rewritten(x, pages, outputs, n), outputs, |outputs|), Rewritten(x, pages, outputs, |outputs|));
  }
}
