/** Positional notation: the digits print_number produces and skip_atoi reads. */
module Digits {
  import opened Basics

  /** The digits of n, least significant first, as the divide loop stores them. */
  function Reversed(n: nat, base: nat): (r: seq<nat>)
    requires base >= 2
    ensures forall i :: 0 <= i < |r| ==> r[i] < base
    ensures n > 0 ==> |r| > 0 && r[|r| - 1] > 0
    decreases n
  {
    if n == 0 then [] else
      Smaller(n, base);
      [n % base] + Reversed(n / base, base)
  }

  lemma Smaller(n: nat, base: nat)
    requires base >= 2 && n > 0
    ensures n / base < n
  {
  }

  function Value(ds: seq<nat>, base: nat): nat {
    if ds == [] then 0 else ds[0] + base * Value(ds[1..], base)
  }

  /** The digits stand for the number. */
  lemma {:induction false} ReversedValue(n: nat, base: nat)
    requires base >= 2
    ensures Value(Reversed(n, base), base) == n
    decreases n
  {
    if n > 0 {
      Smaller(n, base);
      ReversedValue(n / base, base);
      DivMod(n, base);
      assert Reversed(n, base)[1..] == Reversed(n / base, base);
    }
  }

  function Pow(base: nat, k: nat): nat { if k == 0 then 1 else base * Pow(base, k - 1) }

  /** A number below base^k has at most k digits. */
  lemma {:induction false} DigitCount(n: nat, base: nat, k: nat)
    requires base >= 2 && n < Pow(base, k)
    ensures |Reversed(n, base)| <= k
    decreases k
  {
    if n > 0 {
      Smaller(n, base);
      Quotient(n, base, Pow(base, k - 1));
      DigitCount(n / base, base, k - 1);
    }
  }

  lemma Quotient(n: nat, base: nat, p: nat)
    requires base > 0 && n < base * p
    ensures n / base < p
  {
    DivMod(n, base);
    MulMono(base, p, n / base);
  }

  lemma DivMod(n: nat, base: nat)
    requires base > 0
    ensures n == n % base + base * (n / base) && 0 <= n % base < base
  {
  }

  lemma MulMono(c: nat, a: nat, b: nat)
    ensures a <= b ==> c * a <= c * b
  {
  }

  lemma {:induction false} PowMono(a: nat, b: nat, k: nat)
    requires a <= b
    ensures Pow(a, k) <= Pow(b, k)
  {
    if k > 0 {
      PowMono(a, b, k - 1);
      MulMono(Pow(a, k - 1), a, b);
      MulMono(b, Pow(a, k - 1), Pow(b, k - 1));
    }
  }

  const TWO_64: nat := 0x1_0000_0000_0000_0000

  lemma PowTwo64()
    ensures Pow(2, 64) == TWO_64
  {
    assert Pow(2, 8) == 256;
    PowAdd(2, 8, 8);
    PowAdd(2, 16, 16);
    PowAdd(2, 32, 32);
  }

  lemma {:induction false} PowAdd(b: nat, m: nat, n: nat)
    ensures Pow(b, m + n) == Pow(b, m) * Pow(b, n)
  {
    if m > 0 {
      var x, y := Pow(b, m - 1), Pow(b, n);
      assert Pow(b, m) == b * x && Pow(b, m + n) == b * Pow(b, m - 1 + n);
      hide *;
      PowAdd(b, m - 1, n);
      MulAssociates(b, x, y);
    }
  }

  /** The buffer of 64 digits is large enough for every base and 64-bit number. */
  lemma FitsBuffer(n: nat, base: nat)
    requires base >= 2 && n < TWO_64
    ensures |Reversed(n, base)| <= 64
  {
    PowTwo64();
    PowMono(2, base, 64);
    DigitCount(n, base, 64);
  }
}
