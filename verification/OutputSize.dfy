/** Outputs that record their own size: the number recorded is part of what is measured. */
module OutputSize {
  import opened Basics
  import opened Decimal

  // ----- the unbounded loop ----------------------------------------------------------------------

  /** Size of an output whose text without the recorded number `n` takes `rest` characters. */
  function Measured(rest: nat, n: nat): nat { rest + Width(n) }

  lemma {:induction false} PowerOutgrows(k: nat)
    ensures Pow10(k) > 2 * k
  {
    if k > 0 { PowerOutgrows(k - 1); }
  }

  /** Some size is large enough never to be exceeded. */
  lemma {:induction false} Ceiling(rest: nat)
    ensures Measured(rest, 2 * rest + 2) <= 2 * rest + 2
  {
    PowerOutgrows(rest + 2);
    WidthBelowPower(2 * rest + 2, rest + 2);
  }

  ghost predicate LeastFixed(rest: nat, n: nat) {
    n == Measured(rest, n) && forall x: nat :: x == Measured(rest, x) ==> n <= x
  }

  /** The receipt's size loop ends, and records the least size that is its own measure. */
  method SettleReceipt(packet: nat, receipt: nat) returns (recorded: nat)
    ensures LeastFixed(packet + receipt + 1, recorded)
  {
    ghost var rest := packet + receipt + 1;
    recorded := packet;
    Ceiling(rest);
    while true
      invariant recorded <= Measured(rest, recorded) && recorded <= 2 * rest + 2
      invariant forall x: nat :: x == Measured(rest, x) ==> recorded <= x
      decreases 2 * rest + 2 - recorded
    {
      var measured := packet + (receipt + Width(recorded)) + 1;
      if measured == recorded { return; }
      WidthMonotone(recorded, 2 * rest + 2);
      WidthMonotone(recorded, measured);
      forall x: nat | x == Measured(rest, x) ensures measured <= x {
        WidthMonotone(recorded, x);
      }
      recorded := measured;
    }
  }

  // ----- the loop of at most eight rounds ---------------------------------------------------------

  const ROUNDS: nat := 8

  /** The metrics object around its three numbers. */
  const BEFORE_STDOUT: string := "\"output_metrics\":{\"serialization\":\"compact-json\",\"stdout_chars\":"
  const BEFORE_EVIDENCE: string := ",\"evidence_packet_chars\":"
  const BEFORE_OVERHEAD: string := ",\"response_overhead_chars\":"
  const AFTER_OVERHEAD: string := ",\"output_complete\":true}"

  /** What is printed: the object with the metrics among its other members, and a newline. */
  function Printed(before: string, after: string, stdout: nat, evidence: nat, overhead: nat): string {
    before + BEFORE_STDOUT + Notation(stdout) + BEFORE_EVIDENCE + Notation(evidence) + BEFORE_OVERHEAD + Notation(overhead)
    + AFTER_OVERHEAD + after + "\n"
  }

  const FRAME: nat := |BEFORE_STDOUT| + |BEFORE_EVIDENCE| + |BEFORE_OVERHEAD| + |AFTER_OVERHEAD|

  /** What surrounds the two changing numbers: the rest of the object, the metrics, a newline. */
  function Fixed(rest: nat, evidence: nat): (n: nat)
    ensures n >= 100
  {
    rest + FRAME + Width(evidence) + 1
  }

  function Overhead(stdout: nat, evidence: nat): nat { Max(0, stdout - evidence) }

  function Emitted(f: nat, stdout: nat, overhead: nat): nat { f + Width(stdout) + Width(overhead) }

  function Round(f: nat, e: nat, stdout: nat): nat { Emitted(f, stdout, Overhead(stdout, e)) }

  lemma {:induction false} RoundMonotone(f: nat, e: nat, a: nat, b: nat)
    requires a <= b
    ensures Round(f, e, a) <= Round(f, e, b)
  {
    WidthMonotone(a, b);
    WidthMonotone(Overhead(a, e), Overhead(b, e));
  }

  function Iterate(r: nat -> nat, k: nat): nat {
    if k == 0 then 0 else r(Iterate(r, k - 1))
  }

  ghost predicate Monotone(r: nat -> nat) { forall a: nat, b: nat :: a <= b ==> r(a) <= r(b) }

  lemma {:induction false} IterateGrows(r: nat -> nat, k: nat)
    requires Monotone(r)
    ensures Iterate(r, k) <= Iterate(r, k + 1)
  {
    if k > 0 { IterateGrows(r, k - 1); }
  }

  lemma {:induction false} IterateBelow(r: nat -> nat, k: nat, x: nat)
    requires Monotone(r) && x == r(x)
    ensures Iterate(r, k) <= x
  {
    if k > 0 { IterateBelow(r, k - 1, x); }
  }

  lemma {:induction false} IterateStays(r: nat -> nat, j: nat, k: nat)
    requires j <= k && r(Iterate(r, j)) == Iterate(r, j)
    ensures Iterate(r, k) == Iterate(r, j)
  {
    if j < k { IterateStays(r, j, k - 1); }
  }

  function RoundOf(f: nat, e: nat): nat -> nat { (s: nat) => Round(f, e, s) }

  lemma {:induction false} RoundOfMonotone(f: nat, e: nat)
    ensures Monotone(RoundOf(f, e))
  {
    forall a: nat, b: nat | a <= b ensures RoundOf(f, e)(a) <= RoundOf(f, e)(b) {
      RoundMonotone(f, e, a, b);
    }
  }

  /** A number that grows by at most eighty gains at most one digit. */
  lemma {:induction false} WidthStep(a: nat, b: nat)
    requires a <= b <= a + 80
    ensures Width(a) <= Width(b) <= Width(a) + 1
  {
    WidthMonotone(a, b);
    WidthBelowPower(a, Width(a));
    WidthBelowPower(b, Width(a) + 1);
    TenMore(Width(a));
  }

  lemma {:induction false} TenMore(k: nat)
    requires k >= 1
    ensures Pow10(k) >= 10 && Pow10(k + 1) >= Pow10(k) + 90
  {
    if k > 1 { TenMore(k - 1); }
  }

  lemma {:induction false} RoundSpread(f: nat, e: nat, a: nat, b: nat)
    requires a <= b <= a + 80
    ensures Round(f, e, a) <= Round(f, e, b) <= Round(f, e, a) + 2
  {
    WidthStep(a, b);
    WidthStep(Overhead(a, e), Overhead(b, e));
  }

  lemma {:induction false} NarrowWidths(f: nat, e: nat, s: nat)
    requires s <= f + 80 && f + 80 < Pow10(40)
    ensures Round(f, e, s) <= f + 80
  {
    WidthBelowPower(s, 40);
    WidthBelowPower(Overhead(s, e), 40);
  }

  /** From a start below its image, three more rounds are enough. */
  lemma {:induction false} ThreeMore(f: nat, e: nat, s1: nat, s2: nat, s3: nat, s4: nat)
    requires s2 == Round(f, e, s1) && s3 == Round(f, e, s2) && s4 == Round(f, e, s3)
    requires s1 <= s2 <= s3 <= s4 <= Round(f, e, s4) && s4 <= s1 + 80
    ensures Round(f, e, s4) == s4
  {
    RoundSpread(f, e, s1, s2);
    RoundSpread(f, e, s1, s3);
    RoundSpread(f, e, s1, s4);
    assert s2 <= s3 <= s4 <= Round(f, e, s4) <= s2 + 2;
    if s3 == s2 || s4 == s3 {
      assert Round(f, e, s4) == s4;
    }
  }

  /** The value recorded after `k` rounds. */
  function After(f: nat, e: nat, k: nat): nat { Iterate(RoundOf(f, e), k) }

  lemma {:induction false} AfterNext(f: nat, e: nat, k: nat)
    ensures After(f, e, k + 1) == Round(f, e, After(f, e, k))
    ensures After(f, e, k) <= After(f, e, k + 1)
  {
    RoundOfMonotone(f, e);
    IterateGrows(RoundOf(f, e), k);
  }

  lemma {:induction false} FirstRound(f: nat, e: nat)
    ensures After(f, e, 0) == 0 && After(f, e, 1) == f + 2
  {
    AfterNext(f, e, 0);
  }

  /** Four rounds reach the fixed point, for every output below 10^39 characters. */
  lemma {:induction false} FourRounds(f: nat, e: nat)
    requires f + 80 < Pow10(40)
    ensures Round(f, e, After(f, e, 4)) == After(f, e, 4)
  {
    FirstRound(f, e);
    AfterNext(f, e, 1);
    AfterNext(f, e, 2);
    AfterNext(f, e, 3);
    AfterNext(f, e, 4);
    FromFirst(f, e, After(f, e, 1), After(f, e, 2), After(f, e, 3), After(f, e, 4));
  }

  lemma {:induction false} FromFirst(f: nat, e: nat, s1: nat, s2: nat, s3: nat, s4: nat)
    requires f + 80 < Pow10(40) && s1 == f + 2
    requires s2 == Round(f, e, s1) && s3 == Round(f, e, s2) && s4 == Round(f, e, s3)
    requires s1 <= s2 <= s3 <= s4 <= Round(f, e, s4)
    ensures Round(f, e, s4) == s4
  {
    NarrowWidths(f, e, s1);
    NarrowWidths(f, e, s2);
    NarrowWidths(f, e, s3);
    ThreeMore(f, e, s1, s2, s3, s4);
  }

  /** What the metrics record once the loop is over. */
  ghost predicate Honest(f: nat, e: nat, stdout: nat, overhead: nat) {
    && stdout == Emitted(f, stdout, overhead)
    && overhead == Overhead(stdout, e)
    && forall x: nat :: x == Round(f, e, x) ==> stdout <= x
  }

  /** The size the loop computes is that of the text printed with its two numbers. */
  lemma {:induction false} PrintedSize(before: string, after: string, stdout: nat, evidence: nat, overhead: nat)
    ensures |Printed(before, after, stdout, evidence, overhead)|
            == Emitted(Fixed(|before| + |after|, evidence), stdout, overhead)
  {
  }

  /** Honest numbers are those of the text that is printed with them. */
  lemma {:induction false} HonestlyPrinted(rest: nat, evidence: nat, stdout: nat, overhead: nat)
    requires Honest(Fixed(rest, evidence), evidence, stdout, overhead)
    ensures overhead == if stdout > evidence then stdout - evidence else 0
    ensures forall before, after :: |before| + |after| == rest ==> |Printed(before, after, stdout, evidence, overhead)| == stdout
  {
    forall before, after | |before| + |after| == rest ensures |Printed(before, after, stdout, evidence, overhead)| == stdout {
      PrintedSize(before, after, stdout, evidence, overhead);
    }
  }

  /** The recorded size is the emitted size, the recorded overhead is what exceeds the evidence,
      and no smaller size would have been consistent. */
  method AttachMetrics(rest: nat, evidence: nat) returns (stdout: nat, overhead: nat)
    requires Fixed(rest, evidence) + 80 < Pow10(40)
    ensures Honest(Fixed(rest, evidence), evidence, stdout, overhead)
    ensures overhead == if stdout > evidence then stdout - evidence else 0
    ensures forall before, after :: |before| + |after| == rest ==> |Printed(before, after, stdout, evidence, overhead)| == stdout
  {
    var f := Fixed(rest, evidence);
    FirstRound(f, evidence);
    stdout, overhead := 0, 0;
    for k := 0 to ROUNDS
      invariant stdout == After(f, evidence, k) && overhead == Overhead(stdout, evidence)
    {
      AfterNext(f, evidence, k);
      stdout := Emitted(f, stdout, overhead);
      overhead := Overhead(stdout, evidence);
      if Emitted(f, stdout, overhead) == stdout {
        SettledIsHonest(f, evidence, k + 1, stdout);
        HonestlyPrinted(rest, evidence, stdout, overhead);
        return;
      }
    }
    FourRounds(f, evidence);
    StaysSettled(f, evidence, 4, 8);
    SettledIsHonest(f, evidence, 8, stdout);
    HonestlyPrinted(rest, evidence, stdout, overhead);
  }

  lemma {:induction false} StaysSettled(f: nat, e: nat, j: nat, k: nat)
    requires j <= k && Round(f, e, After(f, e, j)) == After(f, e, j)
    ensures After(f, e, k) == After(f, e, j)
  {
    IterateStays(RoundOf(f, e), j, k);
  }

  lemma {:induction false} SettledIsHonest(f: nat, e: nat, k: nat, s: nat)
    requires s == After(f, e, k) && Round(f, e, s) == s
    ensures Honest(f, e, s, Overhead(s, e))
  {
    RoundOfMonotone(f, e);
    forall x: nat | x == Round(f, e, x) ensures s <= x {
      IterateBelow(RoundOf(f, e), k, x);
    }
  }
}
