/** Decimal notation of naturals: what `str(n)` and `json.dumps(n)` print. */
module Decimal {
  function Digit(d: nat): (c: char)
    requires d < 10
  {
    ['0', '1', '2', '3', '4', '5', '6', '7', '8', '9'][d]
  }

  function Notation(n: nat): (s: string)
    ensures |s| >= 1
    ensures forall c :: c in s ==> '0' <= c <= '9'
  {
    if n < 10 then [Digit(n)] else Notation(n / 10) + [Digit(n % 10)]
  }

  /** Two numbers with the same notation are the same number. */
  lemma {:induction false} NotationInjective(m: nat, n: nat)
    requires Notation(m) == Notation(n)
    ensures m == n
  {
    var s, t := Notation(m), Notation(n);
    if m < 10 && n < 10 {
    } else if m >= 10 && n >= 10 {
      assert s[..|s| - 1] == Notation(m / 10) && t[..|t| - 1] == Notation(n / 10);
      assert s[|s| - 1] == Digit(m % 10) && t[|t| - 1] == Digit(n % 10);
      NotationInjective(m / 10, n / 10);
    }
  }

  /** The number a row of digits denotes. */
  function Denoted(s: string): int {
    if s == [] then 0 else Denoted(s[..|s| - 1]) * 10 + (s[|s| - 1] as int - '0' as int)
  }

  /** The notation denotes its number, without a leading zero. */
  lemma {:induction false} NotationReads(n: nat)
    ensures Denoted(Notation(n)) == n
    ensures n > 0 ==> Notation(n)[0] != '0'
  {
    if n < 10 {
      assert Denoted([]) == 0 && [Digit(n)][..0] == [];
    } else {
      NotationReads(n / 10);
      var front := Notation(n / 10);
      assert (front + [Digit(n % 10)])[..|front|] == front;
    }
  }

  function Width(n: nat): (w: nat) { |Notation(n)| }

  lemma {:induction false} WidthMonotone(m: nat, n: nat)
    requires m <= n
    ensures Width(m) <= Width(n)
    decreases n
  {
    if n >= 10 && m >= 10 { WidthMonotone(m / 10, n / 10); }
  }

  function Pow10(k: nat): (p: nat)
    ensures p >= 1
  {
    if k == 0 then 1 else 10 * Pow10(k - 1)
  }

  /** `n` needs at most `k` digits exactly when it is below the k-th power of ten. */
  lemma {:induction false} WidthBelowPower(n: nat, k: nat)
    requires k >= 1
    ensures Width(n) <= k <==> n < Pow10(k)
    decreases n
  {
    if n < 10 {
      PowerMonotone(1, k);
      assert Pow10(1) == 10;
    } else if k == 1 {
      assert Pow10(1) == 10;
    } else {
      WidthBelowPower(n / 10, k - 1);
    }
  }

  lemma {:induction false} PowerMonotone(j: nat, k: nat)
    requires j <= k
    ensures Pow10(j) <= Pow10(k)
  {
    if j < k { PowerMonotone(j, k - 1); }
  }
}
