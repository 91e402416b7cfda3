/** Shared by the models: options, bytes and some arithmetic. */
module Basics {
  datatype Option<+T> = None | Some(value: T)

  type byte = n: int | 0 <= n < 256

  /** A line is low or high. */
  type bit = n: int | 0 <= n <= 1

  const TWO_32: nat := 0x1_0000_0000

  function Max(a: int, b: int): int { if a < b then b else a }

  function Min(a: int, b: int): int { if a < b then a else b }

  lemma MulAssociates(a: int, b: int, c: int)
    ensures a * (b * c) == a * b * c
  {
  }

  lemma AtLeast(m: int, d: int)
    requires m > 0 && d >= 1
    ensures m * d >= m
  {
    assert m * d == m + m * (d - 1);
    assert m * (d - 1) >= 0;
  }

  /** Quotient and remainder are unique. */
  lemma Euclid(n: int, m: int, q: int, r: int)
    requires m > 0 && n == m * q + r && 0 <= r < m
    ensures n / m == q && n % m == r
  {
    var q' := n / m;
    assert m * (q - q') == n % m - r;
    if q > q' {
      AtLeast(m, q - q');
    } else if q < q' {
      AtLeast(m, q' - q);
    }
  }

  lemma Periodic(n: int, m: int, k: int)
    requires m > 0
    ensures (n + m * k) % m == n % m
  {
    var q, r := n / m, n % m;
    assert n + m * k == m * (q + k) + r;
    Euclid(n + m * k, m, q + k, r);
  }

  // ----- powers of two

  function Pow2(k: nat): (p: nat)
    ensures p > 0
  {
    if k == 0 then 1 else 2 * Pow2(k - 1)
  }

  lemma {:induction false} Pow2Add(i: nat, j: nat)
    ensures Pow2(i + j) == Pow2(i) * Pow2(j)
  {
    if i > 0 {
      var x, y := Pow2(i - 1), Pow2(j);
      assert Pow2(i) == 2 * x && Pow2(i + j) == 2 * Pow2(i - 1 + j);
      hide *;
      Pow2Add(i - 1, j);
      MulAssociates(2, x, y);
    }
  }

  lemma {:induction false} Pow2Mono(i: nat, j: nat)
    requires i <= j
    ensures Pow2(i) <= Pow2(j)
  {
    if i < j {
      Pow2Mono(i, j - 1);
    }
  }
}
