/** The bit-reversal table of ppu.cpp, built by doubling. */
module BitReversal {
  import opened Basics

  /** n with its lowest `bits` bits in the opposite order. */
  function Reverse(n: nat, bits: nat): nat
    decreases bits
  {
    if bits == 0 then 0 else (if n % 2 == 1 then Pow2(bits - 1) else 0) + Reverse(n / 2, bits - 1)
  }

  lemma {:induction false} ReverseBound(n: nat, bits: nat)
    ensures Reverse(n, bits) < Pow2(bits)
    decreases bits
  {
    if bits > 0 {
      ReverseBound(n / 2, bits - 1);
    }
  }

  /** One more bit on top comes in one place further down. */
  lemma {:induction false} ReverseTop(n: nat, k: nat, bits: nat)
    requires n < Pow2(k) && k < bits
    ensures Reverse(n + Pow2(k), bits) == Reverse(n, bits) + Pow2(bits - 1 - k)
    decreases k
  {
    if k == 0 {
      assert Reverse(1, bits) == Pow2(bits - 1) + Reverse(0, bits - 1);
      assert Reverse(0, bits) == Reverse(0, bits - 1);
    } else {
      assert (n + Pow2(k)) % 2 == n % 2 && (n + Pow2(k)) / 2 == n / 2 + Pow2(k - 1);
      ReverseTop(n / 2, k - 1, bits - 1);
    }
  }

  /** Reversal of the high bit and the rest. */
  lemma {:induction false} ReverseSnoc(n: nat, bits: nat)
    requires n < Pow2(bits) && bits > 0
    ensures Reverse(n, bits) == 2 * Reverse(n % Pow2(bits - 1), bits - 1) + n / Pow2(bits - 1)
    decreases bits
  {
    if bits == 1 {
      assert Reverse(n, 1) == n % 2 + Reverse(n / 2, 0);
    } else {
      var p := Pow2(bits - 2);
      ReverseSnoc(n / 2, bits - 1);
      Parts(n, p);
      assert Pow2(bits - 1) == 2 * p;
    }
  }

  lemma Parts(n: nat, p: nat)
    requires p > 0
    ensures n % (2 * p) % 2 == n % 2 && n % (2 * p) / 2 == n / 2 % p && n / (2 * p) == n / 2 / p
  {
    var q, r := n / 2 / p, n / 2 % p;
    assert n / 2 == p * q + r;
    assert n == (2 * p) * q + (2 * r + n % 2);
    Euclid(n, 2 * p, q, 2 * r + n % 2);
  }

  /** Reversing twice gives the number back. */
  lemma {:induction false} ReverseTwice(n: nat, bits: nat)
    requires n < Pow2(bits)
    ensures Reverse(Reverse(n, bits), bits) == n
    decreases bits
  {
    if bits > 0 {
      var p := Pow2(bits - 1);
      var low, high := n % 2, n / 2;
      var rest, m := Reverse(high, bits - 1), Reverse(n, bits);
      assert high < p && m == low * p + rest;
      hide *;
      ReverseBound(high, bits - 1);
      ReverseBound(n, bits);
      ReverseTwice(high, bits - 1);
      assert low * p == p * low;
      Euclid(m, p, low, rest);
      ReverseSnoc(m, bits);
    }
  }

  /** Bit i of the reversal is bit bits - 1 - i of the number. */
  lemma {:induction false} ReverseBit(n: nat, bits: nat, i: nat)
    requires i < bits
    ensures Reverse(n, bits) / Pow2(i) % 2 == n / Pow2(bits - 1 - i) % 2
    decreases bits
  {
    var low, rest, p := n % 2, Reverse(n / 2, bits - 1), Pow2(bits - 1);
    assert Reverse(n, bits) == low * p + rest;
    ReverseBound(n / 2, bits - 1);
    if i == bits - 1 {
      hide Reverse;
      assert low * p == p * low && Pow2(0) == 1;
      Euclid(p * low + rest, p, low, rest);
    } else {
      ReverseBit(n / 2, bits - 1, i);
      var q := Pow2(bits - 2 - i);
      Pow2Add(i, bits - 1 - i);
      assert Pow2(bits - 1 - i) == 2 * q;
      hide Reverse, Pow2;
      HighIgnored(low, Pow2(i), q, rest);
      Parts(n, q);
    }
  }

  lemma HighIgnored(low: nat, a: nat, q: nat, rest: nat)
    requires a > 0
    ensures (low * (a * (2 * q)) + rest) / a % 2 == rest / a % 2
  {
    var t, r := rest / a, rest % a;
    assert low * (a * (2 * q)) == a * (2 * (low * q));
    assert a * (2 * (low * q)) + rest == a * (2 * (low * q) + t) + r;
    Euclid(a * (2 * (low * q)) + rest, a, 2 * (low * q) + t, r);
    Periodic(t, 2, low * q);
  }

  /** The constructor of BITREVLUT: each round doubles the filled part. */
  method BuildTable(bits: nat) returns (lut: array<nat>)
    requires bits >= 1
    ensures fresh(lut) && lut.Length == Pow2(bits)
    ensures forall i :: 0 <= i < lut.Length ==> lut[i] == Reverse(i, bits)
  {
    var n := Pow2(bits);
    lut := new nat[n];
    var m, a, j := 1, Pow2(bits - 1), 2;
    FirstTwo(bits);
    lut[0] := 0;
    lut[1] := a;
    ghost var k := 1;
    var rounds := bits - 1;
    while rounds > 0
      invariant rounds == bits - k && 1 <= k <= bits
      invariant m == Pow2(k - 1) && a == Pow2(bits - k) && j == 2 * m <= n
      invariant forall i :: 0 <= i < j ==> lut[i] == Reverse(i, bits)
    {
      assert Pow2(k) == 2 * Pow2(k - 1) && Pow2(bits - k) == 2 * Pow2(bits - k - 1);
      m := m * 2;
      a := a / 2;
      Grows(k, bits);
      var i := 0;
      while i < m
        invariant 0 <= i <= m && j == m + i && m == Pow2(k) && 2 * m <= n
        invariant forall i :: 0 <= i < j ==> lut[i] == Reverse(i, bits)
      {
        ReverseTop(i, k, bits);
        lut[j] := lut[i] + a;
        j := j + 1;
        i := i + 1;
      }
      k := k + 1;
      rounds := rounds - 1;
    }
  }

  lemma FirstTwo(bits: nat)
    requires bits >= 1
    ensures Reverse(0, bits) == 0 && Reverse(1, bits) == Pow2(bits - 1)
  {
    ZeroReversed(bits);
    ZeroReversed(bits - 1);
  }

  lemma {:induction false} ZeroReversed(bits: nat)
    ensures Reverse(0, bits) == 0
  {
    if bits > 0 {
      ZeroReversed(bits - 1);
    }
  }

  lemma {:induction false} Grows(k: nat, bits: nat)
    requires k < bits
    ensures 2 * Pow2(k) <= Pow2(bits)
  {
    if k + 1 < bits {
      Grows(k, bits - 1);
    }
  }
}
