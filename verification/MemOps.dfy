/** rt_memset, rt_memcpy and rt_memmove over one byte-addressed memory. */
module MemOps {
  import opened Basics

  /** sizeof(long), the word the blocked loops move. */
  type WordSize = n: nat | n == 2 || n == 4 || n == 8 witness 4
  const W: WordSize

  predicate Aligned(a: nat) { a % W == 0 }

  // ----- what the C standard asks for

  /** memmove: the n bytes at d become what the n bytes at s were. */
  function Moved(m: seq<byte>, d: nat, s: nat, n: nat): (r: seq<byte>)
    requires d + n <= |m| && s + n <= |m|
    ensures |r| == |m|
  {
    m[..d] + m[s..s + n] + m[d + n..]
  }

  /** memset: the n bytes at s become c. */
  function Filled(m: seq<byte>, s: nat, c: byte, n: nat): (r: seq<byte>)
    requires s + n <= |m|
    ensures |r| == |m|
  {
    m[..s] + seq(n, _ => c) + m[s + n..]
  }

  /** Every byte after a memmove, and after a memset. */
  lemma MovedAt(m: seq<byte>, d: nat, s: nat, n: nat, i: nat)
    requires d + n <= |m| && s + n <= |m| && i < |m|
    ensures Moved(m, d, s, n)[i] == if d <= i < d + n then m[s + (i - d)] else m[i]
  {
    if d <= i < d + n {
      assert m[s..s + n][i - d] == m[s + (i - d)];
    }
  }

  lemma FilledAt(m: seq<byte>, s: nat, c: byte, n: nat, i: nat)
    requires s + n <= |m| && i < |m|
    ensures Filled(m, s, c, n)[i] == if s <= i < s + n then c else m[i]
  {
  }

  /** A byte-by-byte copy from low to high addresses. */
  function Forward(m: seq<byte>, d: nat, s: nat, n: nat): (r: seq<byte>)
    requires d + n <= |m| && s + n <= |m|
    ensures |r| == |m|
    decreases n
  {
    if n == 0 then m else Forward(m[d := m[s]], d + 1, s + 1, n - 1)
  }

  lemma {:induction false} ForwardSplit(m: seq<byte>, d: nat, s: nat, a: nat, b: nat)
    requires d + a + b <= |m| && s + a + b <= |m|
    ensures Forward(m, d, s, a + b) == Forward(Forward(m, d, s, a), d + a, s + a, b)
    decreases a
  {
    if a > 0 {
      ForwardSplit(m[d := m[s]], d + 1, s + 1, a - 1, b);
    }
  }

  /** Byte i of the target after a forward copy.  Inside an overlap from below
      the first d - s bytes repeat. */
  lemma {:induction false} ForwardAt(m: seq<byte>, d: nat, s: nat, n: nat, i: nat)
    requires d + n <= |m| && s + n <= |m| && i < |m|
    ensures i < d || d + n <= i ==> Forward(m, d, s, n)[i] == m[i]
    ensures d <= i < d + n && !(s < d < s + n) ==> Forward(m, d, s, n)[i] == m[s + (i - d)]
    ensures d <= i < d + n && s < d < s + n && i - d < d - s ==> Forward(m, d, s, n)[i] == m[s + (i - d)]
    ensures d <= i < d + n && s < d < s + n && i - d >= d - s ==>
      Forward(m, d, s, n)[i] == Forward(m, d, s, n)[i - (d - s)]
    decreases n
  {
    if n > 0 {
      var m' := m[d := m[s]];
      ForwardAt(m', d + 1, s + 1, n - 1, i);
      if d <= i < d + n && s < d < s + n && i - d >= d - s {
        ForwardAt(m', d + 1, s + 1, n - 1, i - (d - s));
      }
    }
  }

  lemma CopyIsMove(m: seq<byte>, d: nat, s: nat, n: nat)
    requires d + n <= |m| && s + n <= |m| && !(s < d < s + n)
    ensures Forward(m, d, s, n) == Moved(m, d, s, n)
  {
    forall i | 0 <= i < |m| ensures Forward(m, d, s, n)[i] == Moved(m, d, s, n)[i] {
      ForwardAt(m, d, s, n, i);
    }
  }

  /** Inside an overlap from below the first source byte comes back too early. */
  lemma CopyCorrupts(m: seq<byte>, d: nat, s: nat, n: nat)
    requires d + n <= |m| && s < d < s + n && m[s] != m[d]
    ensures Forward(m, d, s, n) != Moved(m, d, s, n)
  {
    var i := d + (d - s);
    ForwardAt(m, d, s, n, i);
    ForwardAt(m, d, s, n, d);
    assert Forward(m, d, s, n)[i] == m[s] && Moved(m, d, s, n)[i] == m[d];
  }

  /** A forward copy is a memmove on every memory exactly when the target does
      not start inside the source. */
  lemma CopyIsMoveExactly(len: nat, d: nat, s: nat, n: nat)
    requires d + n <= len && s + n <= len
    ensures !(s < d < s + n) <==> forall m: seq<byte> | |m| == len :: Forward(m, d, s, n) == Moved(m, d, s, n)
  {
    hide Forward, Moved;
    if s < d < s + n {
      CopyCorrupts(seq(len, i => if i == s then 1 else 0), d, s, n);
    } else {
      forall m: seq<byte> | |m| == len ensures Forward(m, d, s, n) == Moved(m, d, s, n) {
        CopyIsMove(m, d, s, n);
      }
    }
  }

  /** Reading a whole word before writing it is the same as a byte copy when
      the two words coincide or do not overlap. */
  lemma WordStep(m: seq<byte>, d: nat, s: nat, n: nat)
    requires n >= W && d + n <= |m| && s + n <= |m| && Aligned(d) && Aligned(s)
    ensures Forward(m, d, s, n) == Forward(Moved(m, d, s, W), d + W, s + W, n - W)
  {
    NextWords(d, s);
    ForwardSplit(m, d, s, W, n - W);
    CopyIsMove(m, d, s, W);
  }

  lemma NextWords(d: nat, s: nat)
    requires Aligned(d) && Aligned(s)
    ensures !(s < d < s + W) && Aligned(d + W) && Aligned(s + W)
  {
    NextWord(d);
    NextWord(s);
    if s < d < s + W {
      NotAligned(s, d - s);
    }
  }

  lemma NextWord(a: nat)
    requires Aligned(a)
    ensures Aligned(a + W)
  {
    Euclid(a + W, W, a / W + 1, 0);
  }

  lemma NotAligned(a: nat, x: nat)
    requires Aligned(a) && 0 < x < W
    ensures !Aligned(a + x)
  {
    Euclid(a + x, W, a / W, x);
  }

  lemma IsMoved(was: seq<byte>, now: seq<byte>, d: nat, s: nat, n: nat)
    requires |now| == |was| && d + n <= |was| && s + n <= |was|
    requires forall j {:trigger now[j]} :: 0 <= j < |was| ==>
      now[j] == if d <= j < d + n then was[s + (j - d)] else was[j]
    ensures now == Moved(was, d, s, n)
  {
    var want := Moved(was, d, s, n);
    assert forall j :: 0 <= j < |was| ==> now[j] == want[j];
  }

  // ----- the code

  /** One store of a machine word. */
  method StoreWord(mem: array<byte>, a: nat, w: seq<byte>)
    requires |w| == W && a + W <= mem.Length
    modifies mem
    ensures forall j :: 0 <= j < mem.Length ==> mem[j] == if a <= j < a + W then w[j - a] else old(mem[j])
  {
    for i := 0 to W
      invariant forall j :: 0 <= j < mem.Length ==> mem[j] == if a <= j < a + i then w[j - a] else old(mem[j])
    {
      mem[a + i] := w[i];
    }
  }

  method LoadWord(mem: array<byte>, a: nat) returns (w: seq<byte>)
    requires a + W <= mem.Length
    ensures |w| == W && forall j :: 0 <= j < W ==> w[j] == mem[a + j]
  {
    w := mem[a..a + W];
  }

  method MemSet(mem: array<byte>, s: nat, c: int, count: nat)
    requires s + count <= mem.Length
    modifies mem
    ensures mem[..] == Filled(old(mem[..]), s, c % 256, count)
  {
    var d: byte := c % 256;
    var m: nat, n: nat := s, count;
    if n >= W && Aligned(s) {
      var buffer: seq<byte> := seq(W, _ => d);
      while n >= W * 4
        invariant m + n == s + count && s <= m
        invariant forall j :: 0 <= j < mem.Length ==> mem[j] == if s <= j < m then d else old(mem[j])
      {
        StoreWord(mem, m, buffer);
        StoreWord(mem, m + W, buffer);
        StoreWord(mem, m + 2 * W, buffer);
        StoreWord(mem, m + 3 * W, buffer);
        m, n := m + 4 * W, n - 4 * W;
      }
      while n >= W
        invariant m + n == s + count && s <= m
        invariant forall j :: 0 <= j < mem.Length ==> mem[j] == if s <= j < m then d else old(mem[j])
      {
        StoreWord(mem, m, buffer);
        m, n := m + W, n - W;
      }
    }
    while n > 0
      invariant m + n == s + count && s <= m
      invariant forall j :: 0 <= j < mem.Length ==> mem[j] == if s <= j < m then d else old(mem[j])
    {
      mem[m] := d;
      m, n := m + 1, n - 1;
    }
  }

  /** rt_memcpy: for every length, alignment and overlap the blocked loops do
      what a byte-by-byte copy does. */
  method MemCpy(mem: array<byte>, dst: nat, src: nat, count: nat)
    requires dst + count <= mem.Length && src + count <= mem.Length
    modifies mem
    ensures mem[..] == Forward(old(mem[..]), dst, src, count)
    ensures !(src < dst < src + count) ==> mem[..] == Moved(old(mem[..]), dst, src, count)
  {
    hide Aligned, Moved;
    var d: nat, s: nat, len: nat := dst, src, count;
    ghost var want := Forward(mem[..], dst, src, count);
    if len >= 4 * W && Aligned(d) && Aligned(s) {
      while len >= 4 * W
        invariant d + len == dst + count && s + len == src + count && Aligned(d) && Aligned(s)
        invariant Forward(mem[..], d, s, len) == want
      {
        CopyFourWords(mem, d, s, len);
        d, s, len := d + 4 * W, s + 4 * W, len - 4 * W;
      }
      while len >= W
        invariant d + len == dst + count && s + len == src + count && Aligned(d) && Aligned(s)
        invariant Forward(mem[..], d, s, len) == want
      {
        CopyWord(mem, d, s, len);
        d, s, len := d + W, s + W, len - W;
      }
    }
    while len > 0
      invariant d + len == dst + count && s + len == src + count
      invariant Forward(mem[..], d, s, len) == want
    {
      CopyByte(mem, d, s, len);
      d, s, len := d + 1, s + 1, len - 1;
    }
    if !(src < dst < src + count) {
      CopyIsMove(old(mem[..]), dst, src, count);
    }
  }

  method CopyByte(mem: array<byte>, d: nat, s: nat, ghost len: nat)
    requires len > 0 && d + len <= mem.Length && s + len <= mem.Length
    modifies mem
    ensures Forward(mem[..], d + 1, s + 1, len - 1) == Forward(old(mem[..]), d, s, len)
  {
    ghost var before := mem[..];
    mem[d] := mem[s];
    assert mem[..] == before[d := before[s]];
  }

  /** One aligned word is copied. */
  method CopyWord(mem: array<byte>, d: nat, s: nat, ghost len: nat)
    requires len >= W && d + len <= mem.Length && s + len <= mem.Length && Aligned(d) && Aligned(s)
    modifies mem
    ensures Aligned(d + W) && Aligned(s + W)
    ensures Forward(mem[..], d + W, s + W, len - W) == Forward(old(mem[..]), d, s, len)
  {
    hide Aligned, Forward, Moved;
    NextWords(d, s);
    WordStep(mem[..], d, s, len);
    MoveWord(mem, d, s);
  }

  method MoveWord(mem: array<byte>, d: nat, s: nat)
    requires d + W <= mem.Length && s + W <= mem.Length
    modifies mem
    ensures mem[..] == Moved(old(mem[..]), d, s, W)
  {
    hide Moved;
    var w := LoadWord(mem, s);
    StoreWord(mem, d, w);
    IsMoved(old(mem[..]), mem[..], d, s, W);
  }

  method CopyFourWords(mem: array<byte>, d: nat, s: nat, ghost len: nat)
    requires len >= 4 * W && d + len <= mem.Length && s + len <= mem.Length && Aligned(d) && Aligned(s)
    modifies mem
    ensures Aligned(d + 4 * W) && Aligned(s + 4 * W)
    ensures Forward(mem[..], d + 4 * W, s + 4 * W, len - 4 * W) == Forward(old(mem[..]), d, s, len)
  {
    hide Aligned, Forward;
    CopyWord(mem, d, s, len);
    CopyWord(mem, d + W, s + W, len - W);
    CopyWord(mem, d + 2 * W, s + 2 * W, len - 2 * W);
    CopyWord(mem, d + 3 * W, s + 3 * W, len - 3 * W);
  }

  /** rt_memmove: correct for every overlap. */
  method MemMove(mem: array<byte>, dest: nat, src: nat, n: nat)
    requires dest + n <= mem.Length && src + n <= mem.Length
    modifies mem
    ensures mem[..] == Moved(old(mem[..]), dest, src, n)
  {
    hide Moved;
    if src < dest < src + n {
      MoveDown(mem, dest, src, n);
    } else {
      MoveUp(mem, dest, src, n);
    }
    IsMoved(old(mem[..]), mem[..], dest, src, n);
  }

  method MoveDown(mem: array<byte>, dest: nat, src: nat, n: nat)
    requires dest + n <= mem.Length && src < dest < src + n
    modifies mem
    ensures forall j :: 0 <= j < mem.Length ==>
      mem[j] == if dest <= j < dest + n then old(mem[src + (j - dest)]) else old(mem[j])
  {
    var tmp, s, k := dest + n, src + n, n;
    while k > 0
      invariant 0 <= k <= n && tmp == dest + k && s == src + k
      invariant forall j :: 0 <= j < mem.Length ==>
        mem[j] == if tmp <= j < dest + n then old(mem[src + (j - dest)]) else old(mem[j])
    {
      tmp, s, k := tmp - 1, s - 1, k - 1;
      mem[tmp] := mem[s];
    }
  }

  method MoveUp(mem: array<byte>, dest: nat, src: nat, n: nat)
    requires dest + n <= mem.Length && src + n <= mem.Length && !(src < dest < src + n)
    modifies mem
    ensures forall j :: 0 <= j < mem.Length ==>
      mem[j] == if dest <= j < dest + n then old(mem[src + (j - dest)]) else old(mem[j])
  {
    var tmp, s, k := dest, src, n;
    while k > 0
      invariant 0 <= k <= n && tmp == dest + (n - k) && s == src + (n - k)
      invariant forall j :: 0 <= j < mem.Length ==>
        mem[j] == if dest <= j < tmp then old(mem[src + (j - dest)]) else old(mem[j])
    {
      mem[tmp] := mem[s];
      tmp, s, k := tmp + 1, s + 1, k - 1;
    }
  }
}
