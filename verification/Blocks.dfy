/** Address-ordered runs of memory blocks, shared by the two boundary-tag
    allocators.  A block is a header of `h` bytes followed by `size` payload
    bytes; addresses are offsets from the start of the pool. */
module Blocks {

  const ALIGN: nat := 8

  /** RT_ALIGN and RT_ALIGN_DOWN for RT_ALIGN_SIZE. */
  function AlignUp(n: nat): nat { (n + (ALIGN - 1)) / ALIGN * ALIGN }

  function AlignDown(n: nat): nat { n / ALIGN * ALIGN }

  datatype Block = Block(addr: int, size: int, used: bool) {
    function End(h: nat): int { addr + h + size }
  }

  /** The blocks cover [lo, hi) in address order, without gaps or overlaps. */
  ghost predicate Tiles(bs: seq<Block>, h: nat, lo: int, hi: int) {
    && |bs| > 0
    && bs[0].addr == lo
    && bs[|bs| - 1].End(h) == hi
    && (forall i :: 0 <= i < |bs| ==> bs[i].size >= 0 && bs[i].addr % ALIGN == 0)
    && (forall i, j :: 0 <= i < |bs| && j == i + 1 < |bs| ==> bs[j].addr == bs[i].End(h))
  }

  /** No two neighbours are both free. */
  ghost predicate Coalesced(bs: seq<Block>) {
    forall i, j :: 0 <= i < |bs| && j == i + 1 < |bs| ==> bs[i].used || bs[j].used
  }

  /** Total payload of the free blocks. */
  ghost function FreeBytes(bs: seq<Block>): int {
    if bs == [] then 0 else (if bs[0].used then 0 else bs[0].size) + FreeBytes(bs[1..])
  }

  /** Total span, headers included, of the used blocks. */
  ghost function UsedSpan(bs: seq<Block>, h: nat): int {
    if bs == [] then 0 else (if bs[0].used then h + bs[0].size else 0) + UsedSpan(bs[1..], h)
  }

  /** The addresses of the free blocks, each counted as often as it occurs. */
  ghost function FreeBag(bs: seq<Block>): multiset<int> {
    if bs == [] then multiset{}
    else (if bs[0].used then multiset{} else multiset{bs[0].addr}) + FreeBag(bs[1..])
  }

  ghost function Addrs(bs: seq<Block>): set<int> {
    if bs == [] then {} else {bs[0].addr} + Addrs(bs[1..])
  }

  lemma {:induction false} SplitBytes(a: seq<Block>, b: seq<Block>)
    ensures FreeBytes(a + b) == FreeBytes(a) + FreeBytes(b)
  {
    if a == [] {
      assert a + b == b;
    } else {
      SplitBytes(a[1..], b);
      assert (a + b)[1..] == a[1..] + b;
    }
  }

  lemma {:induction false} SplitSpan(a: seq<Block>, b: seq<Block>, h: nat)
    ensures UsedSpan(a + b, h) == UsedSpan(a, h) + UsedSpan(b, h)
  {
    if a == [] {
      assert a + b == b;
    } else {
      SplitSpan(a[1..], b, h);
      assert (a + b)[1..] == a[1..] + b;
    }
  }

  lemma {:induction false} SplitBag(a: seq<Block>, b: seq<Block>)
    ensures FreeBag(a + b) == FreeBag(a) + FreeBag(b)
  {
    if a == [] {
      assert a + b == b;
    } else {
      var x := if a[0].used then multiset{} else multiset{a[0].addr};
      assert FreeBag(a) == x + FreeBag(a[1..]);
      assert FreeBag(a + b) == x + FreeBag(a[1..] + b) by {
        assert (a + b)[1..] == a[1..] + b;
      }
      hide *;
      SplitBag(a[1..], b);
      BagAssociates(x, FreeBag(a[1..]), FreeBag(b));
    }
  }

  lemma BagAssociates(x: multiset<int>, y: multiset<int>, z: multiset<int>)
    ensures x + (y + z) == x + y + z
  {
  }

  lemma {:induction false} SplitAddrs(a: seq<Block>, b: seq<Block>)
    ensures Addrs(a + b) == Addrs(a) + Addrs(b)
  {
    if a == [] {
      assert a + b == b;
    } else {
      SplitAddrs(a[1..], b);
      assert (a + b)[1..] == a[1..] + b;
    }
  }

  lemma SplitSums(a: seq<Block>, b: seq<Block>, h: nat)
    ensures FreeBytes(a + b) == FreeBytes(a) + FreeBytes(b)
    ensures UsedSpan(a + b, h) == UsedSpan(a, h) + UsedSpan(b, h)
    ensures FreeBag(a + b) == FreeBag(a) + FreeBag(b)
    ensures Addrs(a + b) == Addrs(a) + Addrs(b)
  {
    hide *;
    SplitBytes(a, b);
    SplitSpan(a, b, h);
    SplitBag(a, b);
    SplitAddrs(a, b);
  }

  lemma {:induction false} FreeBagAt(bs: seq<Block>, a: int)
    ensures a in FreeBag(bs) <==> exists i :: 0 <= i < |bs| && bs[i].addr == a && !bs[i].used
  {
    if bs != [] {
      FreeBagAt(bs[1..], a);
      if a in FreeBag(bs[1..]) {
        var i :| 0 <= i < |bs[1..]| && bs[1..][i].addr == a && !bs[1..][i].used;
        assert bs[i + 1].addr == a && !bs[i + 1].used;
      }
      if i :| 0 <= i < |bs| && bs[i].addr == a && !bs[i].used {
        if i > 0 {
          assert bs[1..][i - 1].addr == a && !bs[1..][i - 1].used;
        }
      }
    }
  }

  lemma {:induction false} AddrsAt(bs: seq<Block>, a: int)
    ensures a in Addrs(bs) <==> exists i :: 0 <= i < |bs| && bs[i].addr == a
  {
    if bs != [] {
      AddrsAt(bs[1..], a);
      if a in Addrs(bs[1..]) {
        var i :| 0 <= i < |bs[1..]| && bs[1..][i].addr == a;
        assert bs[i + 1].addr == a;
      }
      if i :| 0 <= i < |bs| && bs[i].addr == a {
        if i > 0 {
          assert bs[1..][i - 1].addr == a;
        }
      }
    }
  }

  /** A later block starts no earlier than where an earlier one ends. */
  lemma {:induction false} Ordered(bs: seq<Block>, h: nat, lo: int, hi: int, i: int, j: int)
    requires Tiles(bs, h, lo, hi) && 0 <= i < j < |bs|
    ensures bs[i].End(h) <= bs[j].addr
    decreases j
  {
    if i + 1 < j {
      Ordered(bs, h, lo, hi, i, j - 1);
      assert bs[j].addr == bs[j - 1].End(h);
    }
  }

  ghost predicate Apart(bs: seq<Block>, h: nat) {
    forall i, j :: 0 <= i < j < |bs| ==> bs[i].End(h) <= bs[j].addr
  }

  lemma AllApart(bs: seq<Block>, h: nat, lo: int, hi: int)
    requires Tiles(bs, h, lo, hi)
    ensures Apart(bs, h)
    ensures forall i :: 0 <= i < |bs| ==> lo <= bs[i].addr && bs[i].End(h) <= hi
  {
    forall i, j | 0 <= i < j < |bs| ensures bs[i].End(h) <= bs[j].addr {
      Ordered(bs, h, lo, hi, i, j);
    }
  }

  /** Blocks start at different addresses. */
  ghost predicate DistinctBlocks(bs: seq<Block>) {
    forall i, j :: 0 <= i < j < |bs| ==> bs[i].addr != bs[j].addr
  }

  lemma TilesDistinct(bs: seq<Block>, h: nat, lo: int, hi: int)
    requires Tiles(bs, h, lo, hi) && h > 0
    ensures DistinctBlocks(bs)
  {
    AllApart(bs, h, lo, hi);
  }

  /** The index of the block at address a. */
  ghost function IndexOf(bs: seq<Block>, a: int): (k: nat)
    ensures k <= |bs| && (k < |bs| ==> bs[k].addr == a)
  {
    if bs == [] || bs[0].addr == a then 0 else 1 + IndexOf(bs[1..], a)
  }

  lemma {:induction false} IndexIs(bs: seq<Block>, k: nat)
    requires k < |bs| && DistinctBlocks(bs)
    ensures IndexOf(bs, bs[k].addr) == k
  {
    if k > 0 {
      IndexIs(bs[1..], k - 1);
    }
  }

  /** No free block holds n bytes. */
  ghost predicate NoneFits(bs: seq<Block>, n: int) {
    forall i :: 0 <= i < |bs| && !bs[i].used ==> bs[i].size < n
  }

  lemma TilesTail(bs: seq<Block>, h: nat, lo: int, hi: int)
    requires Tiles(bs, h, lo, hi) && |bs| > 1
    ensures Tiles(bs[1..], h, bs[0].End(h), hi)
  {
    var t := bs[1..];
    assert t[|t| - 1] == bs[|bs| - 1];
    assert bs[1].addr == bs[0].End(h);
    forall i, j | 0 <= i < |t| && j == i + 1 < |t| ensures t[j].addr == t[i].End(h) {
      assert bs[j + 1].addr == bs[i + 1].End(h);
    }
  }

  /** The headers of the free blocks. */
  ghost function FreeHeaders(bs: seq<Block>, h: nat): int {
    if bs == [] then 0 else (if bs[0].used then 0 else h) + FreeHeaders(bs[1..], h)
  }

  /** Conservation: payload and headers of the free blocks and span of the
      used blocks add up to the whole pool. */
  lemma {:induction false} Conservation(bs: seq<Block>, h: nat, lo: int, hi: int)
    requires Tiles(bs, h, lo, hi)
    ensures FreeBytes(bs) + FreeHeaders(bs, h) + UsedSpan(bs, h) == hi - lo
  {
    if |bs| == 1 {
      assert bs[1..] == [];
    } else {
      TilesTail(bs, h, lo, hi);
      Conservation(bs[1..], h, bs[0].End(h), hi);
    }
  }

  // ----- what the allocators do to a run of blocks

  /** Block k keeps n payload bytes; the rest becomes a free block. */
  ghost function Split(bs: seq<Block>, k: nat, h: nat, n: int): seq<Block>
    requires k < |bs|
  {
    bs[..k] + ([Block(bs[k].addr, n, bs[k].used)]
               + ([Block(bs[k].addr + h + n, bs[k].size - n - h, false)] + bs[k + 1..]))
  }

  /** Block k absorbs its right neighbour. */
  ghost function Merge(bs: seq<Block>, k: nat, h: nat): seq<Block>
    requires k + 1 < |bs|
  {
    bs[..k] + ([Block(bs[k].addr, bs[k].size + h + bs[k + 1].size, bs[k].used)] + bs[k + 2..])
  }

  ghost function Mark(bs: seq<Block>, k: nat, used: bool): seq<Block>
    requires k < |bs|
  {
    bs[..k] + ([Block(bs[k].addr, bs[k].size, used)] + bs[k + 1..])
  }

  ghost function Bytes(b: Block): int { if b.used then 0 else b.size }

  ghost function Span(b: Block, h: nat): int { if b.used then h + b.size else 0 }

  ghost function Bag(b: Block): multiset<int> { if b.used then multiset{} else multiset{b.addr} }

  lemma ConsSums(x: Block, c: seq<Block>, h: nat)
    ensures FreeBytes([x] + c) == Bytes(x) + FreeBytes(c)
    ensures UsedSpan([x] + c, h) == Span(x, h) + UsedSpan(c, h)
    ensures FreeBag([x] + c) == Bag(x) + FreeBag(c)
    ensures Addrs([x] + c) == {x.addr} + Addrs(c)
  {
    assert ([x] + c)[1..] == c;
  }

  lemma Sums1(a: seq<Block>, x: Block, c: seq<Block>, h: nat)
    ensures var bs := a + ([x] + c);
      && FreeBytes(bs) == FreeBytes(a) + Bytes(x) + FreeBytes(c)
      && UsedSpan(bs, h) == UsedSpan(a, h) + Span(x, h) + UsedSpan(c, h)
      && FreeBag(bs) == FreeBag(a) + Bag(x) + FreeBag(c)
      && Addrs(bs) == Addrs(a) + {x.addr} + Addrs(c)
  {
    SplitSums(a, [x] + c, h);
    ConsSums(x, c, h);
  }

  lemma Sums2(a: seq<Block>, x: Block, y: Block, c: seq<Block>, h: nat)
    ensures var bs := a + ([x] + ([y] + c));
      && FreeBytes(bs) == FreeBytes(a) + Bytes(x) + Bytes(y) + FreeBytes(c)
      && UsedSpan(bs, h) == UsedSpan(a, h) + Span(x, h) + Span(y, h) + UsedSpan(c, h)
      && FreeBag(bs) == FreeBag(a) + Bag(x) + Bag(y) + FreeBag(c)
      && Addrs(bs) == Addrs(a) + {x.addr, y.addr} + Addrs(c)
  {
    Sums1(a, x, [y] + c, h);
    ConsSums(y, c, h);
  }

  lemma SplitTiles(bs: seq<Block>, k: nat, h: nat, n: int, lo: int, hi: int)
    requires Tiles(bs, h, lo, hi) && k < |bs| && 0 <= n && n + h <= bs[k].size
    requires n % ALIGN == 0 && h % ALIGN == 0
    ensures Tiles(Split(bs, k, h, n), h, lo, hi)
  {
    var t := Split(bs, k, h, n);
    SplitShape(bs, k, h, n);
    hide Split;
    forall i, j | 0 <= i < |t| && j == i + 1 < |t| ensures t[j].addr == t[i].End(h) {
      if i < k - 1 {
        assert bs[j].addr == bs[i].End(h);
      } else if i == k - 1 {
        assert bs[k].addr == bs[i].End(h);
      } else if i > k {
        assert bs[i].addr == bs[i - 1].End(h);
      }
    }
    forall i | 0 <= i < |t| ensures t[i].size >= 0 && t[i].addr % ALIGN == 0 {
      if i > k + 1 {
        assert t[i] == bs[i - 1];
      }
    }
  }

  lemma SplitShape(bs: seq<Block>, k: nat, h: nat, n: int)
    requires k < |bs|
    ensures var t := Split(bs, k, h, n);
      && |t| == |bs| + 1
      && (forall i :: 0 <= i < k ==> t[i] == bs[i])
      && t[k] == Block(bs[k].addr, n, bs[k].used)
      && t[k + 1] == Block(bs[k].addr + h + n, bs[k].size - n - h, false)
      && (forall i :: k + 1 < i < |t| ==> t[i] == bs[i - 1])
  {
  }

  lemma At(bs: seq<Block>, k: nat, h: nat)
    requires k < |bs|
    ensures var a, x, c := bs[..k], bs[k], bs[k + 1..];
      && FreeBytes(bs) == FreeBytes(a) + Bytes(x) + FreeBytes(c)
      && UsedSpan(bs, h) == UsedSpan(a, h) + Span(x, h) + UsedSpan(c, h)
      && FreeBag(bs) == FreeBag(a) + Bag(x) + FreeBag(c)
      && Addrs(bs) == Addrs(a) + {x.addr} + Addrs(c)
  {
    assert bs == bs[..k] + ([bs[k]] + bs[k + 1..]);
    Sums1(bs[..k], bs[k], bs[k + 1..], h);
  }

  lemma AddToBag(s: multiset<int>, b: multiset<int>, a: multiset<int>, x: multiset<int>, y: multiset<int>,
          c: multiset<int>)
    requires s == a + x + y + c && b == a + x + c
    ensures s == b + y
  {}

  lemma AddToSet(s: set<int>, b: set<int>, a: set<int>, x: int, y: int, c: set<int>)
    requires s == a + {x, y} + c && b == a + {x} + c
    ensures s == b + {y}
  {}

  lemma SplitParts(bs: seq<Block>, t: seq<Block>, a: seq<Block>, x: Block, x': Block, y: Block, c: seq<Block>, h: nat)
    requires bs == a + ([x] + c) && t == a + ([x'] + ([y] + c))
    requires x'.addr == x.addr && x'.used == x.used && !y.used
    ensures FreeBytes(t) == FreeBytes(bs) - Bytes(x) + Bytes(x') + y.size
    ensures UsedSpan(t, h) == UsedSpan(bs, h) - Span(x, h) + Span(x', h)
    ensures FreeBag(t) == FreeBag(bs) + multiset{y.addr}
    ensures Addrs(t) == Addrs(bs) + {y.addr}
  {
    Sums1(a, x, c, h);
    Sums2(a, x', y, c, h);
    assert Bag(x') == Bag(x);
    AddToBag(FreeBag(t), FreeBag(bs), FreeBag(a), Bag(x), Bag(y), FreeBag(c));
    AddToSet(Addrs(t), Addrs(bs), Addrs(a), x.addr, y.addr, Addrs(c));
  }

  lemma SplitSummary(bs: seq<Block>, k: nat, h: nat, n: int)
    requires k < |bs|
    ensures var t, b := Split(bs, k, h, n), bs[k]; var y := b.addr + h + n;
      && FreeBytes(t) == FreeBytes(bs) + (if b.used then b.size - n - h else 0 - h)
      && UsedSpan(t, h) == UsedSpan(bs, h) - (if b.used then b.size - n else 0)
      && FreeBag(t) == FreeBag(bs) + multiset{y}
      && Addrs(t) == Addrs(bs) + {y}
  {
    assert bs == bs[..k] + ([bs[k]] + bs[k + 1..]);
    var x, y := Block(bs[k].addr, n, bs[k].used), Block(bs[k].addr + h + n, bs[k].size - n - h, false);
    SplitParts(bs, Split(bs, k, h, n), bs[..k], bs[k], x, y, bs[k + 1..], h);
  }

  lemma MergeTiles(bs: seq<Block>, k: nat, h: nat, lo: int, hi: int)
    requires Tiles(bs, h, lo, hi) && k + 1 < |bs|
    requires h % ALIGN == 0
    ensures Tiles(Merge(bs, k, h), h, lo, hi)
  {
    var t := Merge(bs, k, h);
    assert bs[k + 1].addr == bs[k].End(h);
    forall i, j | 0 <= i < |t| && j == i + 1 < |t| ensures t[j].addr == t[i].End(h) {
      if i < k {
        assert bs[j].addr == bs[i].End(h);
      } else {
        assert bs[j + 1].addr == bs[i + 1].End(h);
      }
    }
  }

  lemma MergeSummary(bs: seq<Block>, k: nat, h: nat)
    requires k + 1 < |bs|
    ensures var t, b, c := Merge(bs, k, h), bs[k], bs[k + 1];
      && FreeBytes(t) == FreeBytes(bs) - Bytes(c) + (if b.used then 0 else h + c.size)
      && UsedSpan(t, h) == UsedSpan(bs, h) - Span(c, h) + (if b.used then h + c.size else 0)
      && FreeBag(t) + Bag(c) == FreeBag(bs)
      && Addrs(t) + {c.addr} == Addrs(bs)
  {
    assert bs == bs[..k] + ([bs[k]] + ([bs[k + 1]] + bs[k + 2..]));
    Sums2(bs[..k], bs[k], bs[k + 1], bs[k + 2..], h);
    Sums1(bs[..k], Block(bs[k].addr, bs[k].size + h + bs[k + 1].size, bs[k].used), bs[k + 2..], h);
  }

  lemma MarkTiles(bs: seq<Block>, k: nat, u: bool, h: nat, lo: int, hi: int)
    requires Tiles(bs, h, lo, hi) && k < |bs|
    ensures Tiles(Mark(bs, k, u), h, lo, hi)
  {
    var t := Mark(bs, k, u);
    forall i, j | 0 <= i < |t| && j == i + 1 < |t| ensures t[j].addr == t[i].End(h) {
      assert bs[j].addr == bs[i].End(h);
    }
  }

  lemma MarkSummary(bs: seq<Block>, k: nat, u: bool, h: nat)
    requires k < |bs|
    ensures var t, b := Mark(bs, k, u), bs[k];
      && FreeBytes(t) == FreeBytes(bs) - Bytes(b) + Bytes(Block(b.addr, b.size, u))
      && UsedSpan(t, h) == UsedSpan(bs, h) - Span(b, h) + Span(Block(b.addr, b.size, u), h)
      && FreeBag(t) + Bag(b) == FreeBag(bs) + Bag(Block(b.addr, b.size, u))
      && Addrs(t) == Addrs(bs)
  {
    At(bs, k, h);
    Sums1(bs[..k], Block(bs[k].addr, bs[k].size, u), bs[k + 1..], h);
  }
}
