/** Block contents: which pool bytes header writes may touch, which blocks are
    live, and what alloc, free and realloc do to both.  Shared by the two
    boundary-tag allocators; HDR stands for the rounded size of the header
    struct of either of them. */
module Payloads {
  import opened Basics
  import opened Blocks
  import opened AllocClient

  /** RT_ALIGN(sizeof(struct rt_memheap_item), RT_ALIGN_SIZE), or SIZEOF_STRUCT_MEM */
  type HeaderSize = n: nat | n > 0 && n % ALIGN == 0 witness 24

  const HDR: HeaderSize

  /** i lies inside a header of Z. */
  ghost predicate InHeader(Z: set<int>, i: int) {
    exists a :: a in Z && a <= i < a + HDR
  }

  /** Only bytes inside the headers of Z may differ. */
  ghost predicate Kept(d: seq<byte>, d': seq<byte>, Z: set<int>) {
    |d| == |d'| && forall i :: 0 <= i < |d| && !InHeader(Z, i) ==> d'[i] == d[i]
  }

  /** Header writes compose. */
  lemma KeptTrans(Z: set<int>)
    ensures forall a :: Kept(a, a, Z)
    ensures forall a, b, c :: Kept(a, b, Z) && Kept(b, c, Z) ==> Kept(a, c, Z)
  {
  }

  /** The magic words say which blocks are used, and there is no header
      other than those of the blocks. */
  ghost predicate Tagged(magic: map<int, bool>, bs: seq<Block>) {
    && magic.Keys == Addrs(bs)
    && forall i :: 0 <= i < |bs| ==> bs[i].addr in magic && magic[bs[i].addr] == bs[i].used
  }

  /** A new heap: one free block and the used one of size 0 at the end. */
  lemma TwoBlocks(size: int)
    requires size >= 0 && size % ALIGN == 0
    ensures var end := size + HDR; var bs := [Block(0, size, false), Block(end, 0, true)];
      Tiles(bs, HDR, 0, size + 2 * HDR) && Tagged(map[0 := false, end := true], bs)
  {
    hide FreeBytes, UsedSpan, FreeBag;
    var end := size + HDR;
    var x, y := Block(0, size, false), Block(end, 0, true);
    assert end % ALIGN == 0;
    assert [x, y] == [x] + [y] && [y] == [y] + [];
    ConsSums(x, [y], HDR);
    ConsSums(y, [], HDR);
    assert Addrs([x, y]) == {0, end};
    TwoTagged(end, x, y);
  }

  lemma TwoTagged(end: int, x: Block, y: Block)
    requires Addrs([x, y]) == {0, end} && x.addr == 0 && y.addr == end != 0 && !x.used && y.used
    ensures Tagged(map[0 := false, end := true], [x, y])
  {
    hide Addrs;
    assert (map[0 := false, end := true]).Keys == {0, end};
  }

  /** A block's header lies inside the pool and is a key of the header maps. */
  lemma HeaderAt(magic: map<int, bool>, bs: seq<Block>, pool: int, i: nat)
    requires Tiles(bs, HDR, 0, pool) && Tagged(magic, bs) && i < |bs|
    ensures bs[i].addr in magic && 0 <= bs[i].addr && bs[i].addr + HDR <= pool
    ensures magic.Keys == Addrs(bs)
  {
    AllApart(bs, HDR, 0, pool);
  }

  /** The payload bytes of block b are the same in both pools. */
  ghost predicate SamePayload(d: seq<byte>, d': seq<byte>, b: Block) {
    |d| == |d'| && forall i :: 0 <= i < |d| && b.addr + HDR <= i < b.End(HDR) ==> d'[i] == d[i]
  }

  /** The first n payload bytes of b in d are those of nb in d'. */
  ghost predicate SamePrefix(d: seq<byte>, d': seq<byte>, b: Block, nb: Block, n: int) {
    var p, q := b.addr + HDR, nb.addr + HDR;
    0 <= p <= p + n <= |d| && 0 <= q <= q + n <= |d'| && d'[q..q + n] == d[p..p + n]
  }

  /** The blocks in the hands of callers (and the tail). */
  ghost function Live(bs: seq<Block>): set<Block> {
    set b | b in bs && b.used
  }

  /** The blocks of bs other than one at x keep their contents. */
  ghost predicate Preserved(d: seq<byte>, d': seq<byte>, live: set<Block>, x: int) {
    forall b :: b in live && b.addr != x ==> SamePayload(d, d', b)
  }

  lemma PreservedRefl(d: seq<byte>, live: set<Block>, x: int)
    ensures Preserved(d, d, live, x)
  {
  }

  lemma PayloadKept(d: seq<byte>, d': seq<byte>, b: Block, Z: set<int>)
    requires Kept(d, d', Z)
    requires forall z :: z in Z ==> z + HDR <= b.addr + HDR || b.End(HDR) <= z
    ensures SamePayload(d, d', b)
  {
  }

  lemma PrefixOfPayload(d: seq<byte>, d': seq<byte>, b: Block, nb: Block, n: nat)
    requires SamePayload(d, d', b) && nb.addr == b.addr >= 0 && n <= b.size && b.End(HDR) <= |d|
    ensures SamePrefix(d, d', b, nb, n)
  {
  }

  /** A header of the list, or one carved out of block k, does not reach into
      the payload of another block. */
  lemma ClearOfHeaders(bs: seq<Block>, i: nat, k: nat, Z: set<int>)
    requires Apart(bs, HDR) && i < |bs| && k < |bs| && i != k
    requires forall j :: 0 <= j < |bs| ==> bs[j].size >= 0
    requires forall z :: z in Z ==> z in Addrs(bs) || bs[k].addr <= z <= z + HDR <= bs[k].End(HDR)
    ensures forall z :: z in Z ==> z + HDR <= bs[i].addr + HDR || bs[i].End(HDR) <= z
  {
    forall z | z in Z ensures z + HDR <= bs[i].addr + HDR || bs[i].End(HDR) <= z {
      AddrsAt(bs, z);
      if z in Addrs(bs) {
        var j :| 0 <= j < |bs| && bs[j].addr == z;
        if j < i { assert bs[j].End(HDR) <= bs[i].addr; }
      }
    }
  }

  /** The first n payload bytes of block k lie between its header and the one
      carved out behind them. */
  lemma ClearPrefix(bs: seq<Block>, k: nat, n: nat, Z: set<int>)
    requires Apart(bs, HDR) && k < |bs| && n <= bs[k].size
    requires forall j :: 0 <= j < |bs| ==> bs[j].size >= 0
    requires forall z :: z in Z ==> z in Addrs(bs) || z == bs[k].addr + HDR + n
    ensures forall z :: z in Z ==> z + HDR <= bs[k].addr + HDR || bs[k].addr + HDR + n <= z
  {
    forall z | z in Z ensures z + HDR <= bs[k].addr + HDR || bs[k].addr + HDR + n <= z {
      AddrsAt(bs, z);
      if z in Addrs(bs) {
        var j :| 0 <= j < |bs| && bs[j].addr == z;
        if j < k { assert bs[j].End(HDR) <= bs[k].addr; }
      }
    }
  }

  /** Writes to headers in Z, which may include one carved out of block k,
      keep every payload but that of block k. */
  lemma KeptPayloads(d: seq<byte>, d': seq<byte>, bs: seq<Block>, pool: int, k: nat, Z: set<int>)
    requires Tiles(bs, HDR, 0, pool) && Kept(d, d', Z) && k < |bs|
    requires forall z :: z in Z ==> z in Addrs(bs) || bs[k].addr <= z <= z + HDR <= bs[k].End(HDR)
    ensures forall i :: 0 <= i < |bs| && i != k ==> SamePayload(d, d', bs[i])
    ensures bs[k].used ==> Preserved(d, d', Live(bs), bs[k].addr)
    ensures !bs[k].used ==> Preserved(d, d', Live(bs), NULL)
  {
    AllApart(bs, HDR, 0, pool);
    forall i | 0 <= i < |bs| && i != k ensures SamePayload(d, d', bs[i]) {
      ClearOfHeaders(bs, i, k, Z);
      PayloadKept(d, d', bs[i], Z);
    }
  }

  lemma MergeShape(bs: seq<Block>, k: nat)
    requires k + 1 < |bs|
    ensures var t := Merge(bs, k, HDR);
      && |t| == |bs| - 1
      && t[k] == Block(bs[k].addr, bs[k].size + HDR + bs[k + 1].size, bs[k].used)
      && (forall i :: 0 <= i < k ==> t[i] == bs[i])
      && (forall i :: k < i < |t| ==> t[i] == bs[i + 1])
  {
  }

  lemma MarkShape(bs: seq<Block>, k: nat, u: bool)
    requires k < |bs|
    ensures var t := Mark(bs, k, u);
      && |t| == |bs|
      && t[k] == Block(bs[k].addr, bs[k].size, u)
      && (forall i :: 0 <= i < |bs| && i != k ==> t[i] == bs[i])
  {
  }

  /** The address of a block to be carved out of block k is new. */
  lemma FreshAddr(bs: seq<Block>, pool: int, k: nat, n: int)
    requires Tiles(bs, HDR, 0, pool) && k < |bs| && 0 <= n && n + HDR <= bs[k].size
    ensures var y := bs[k].addr + HDR + n;
      y !in Addrs(bs) && 0 <= y && y + HDR <= pool
  {
    AllApart(bs, HDR, 0, pool);
    AddrsAt(bs, bs[k].addr + HDR + n);
  }

  lemma SplitTagged(magic: map<int, bool>, bs: seq<Block>, k: nat, n: int)
    requires Tagged(magic, bs) && k < |bs|
    ensures var y := bs[k].addr + HDR + n; y !in magic ==> Tagged(magic[y := false], Split(bs, k, HDR, n))
  {
    SplitSummary(bs, k, HDR, n);
    var y, t := bs[k].addr + HDR + n, Split(bs, k, HDR, n);
    if y !in magic {
      forall i | 0 <= i < |t| ensures t[i].addr in magic[y := false] && magic[y := false][t[i].addr] == t[i].used {
        if i != k + 1 {
          var o := if i <= k then i else i - 1;
          assert t[i].addr == bs[o].addr && t[i].used == bs[o].used;
        }
      }
    }
  }

  lemma MarkTagged(magic: map<int, bool>, bs: seq<Block>, k: nat, u: bool)
    requires Tagged(magic, bs) && Apart(bs, HDR) && k < |bs|
    requires forall i :: 0 <= i < |bs| ==> bs[i].size >= 0
    ensures Tagged(magic[bs[k].addr := u], Mark(bs, k, u))
  {
    MarkSummary(bs, k, u, HDR);
    var t := Mark(bs, k, u);
    forall i | 0 <= i < |t|
      ensures t[i].addr in magic && magic[bs[k].addr := u][t[i].addr] == t[i].used
    {
      assert t[i].addr == bs[i].addr && (i != k ==> t[i].addr != bs[k].addr);
    }
  }

  lemma MergeTagged(magic: map<int, bool>, bs: seq<Block>, k: nat)
    requires Tagged(magic, bs) && Apart(bs, HDR) && k + 1 < |bs|
    requires forall i :: 0 <= i < |bs| ==> bs[i].size >= 0
    ensures Tagged(magic - {bs[k + 1].addr}, Merge(bs, k, HDR))
  {
    MergeSummary(bs, k, HDR);
    var t, y := Merge(bs, k, HDR), bs[k + 1].addr;
    forall i | 0 <= i < |t| ensures t[i].addr in magic && t[i].addr != y && magic[t[i].addr] == t[i].used {
      var o := if i <= k then i else i + 1;
      assert t[i].addr == bs[o].addr && t[i].used == bs[o].used;
    }
    AddrsAt(t, y);
    assert (magic - {y}).Keys == Addrs(t);
  }

  lemma LiveConcat(a: seq<Block>, b: seq<Block>)
    ensures Live(a + b) == Live(a) + Live(b)
  {
  }

  /** Replacing blocks [k, k + w) by mid. */
  lemma LiveSplice(bs: seq<Block>, t: seq<Block>, k: nat, w: nat, mid: seq<Block>)
    requires k + w <= |bs| && t == bs[..k] + mid + bs[k + w..]
    ensures Live(t) == Live(bs[..k]) + Live(mid) + Live(bs[k + w..])
    ensures Live(bs) == Live(bs[..k]) + Live(bs[k..k + w]) + Live(bs[k + w..])
  {
    LiveConcat(bs[..k] + mid, bs[k + w..]);
    LiveConcat(bs[..k], mid);
    assert bs == bs[..k] + bs[k..k + w] + bs[k + w..];
    LiveConcat(bs[..k] + bs[k..k + w], bs[k + w..]);
    LiveConcat(bs[..k], bs[k..k + w]);
  }

  lemma LivePair(a: Block, b: Block)
    requires a.used && !b.used
    ensures Live([a, b]) == {a} && Live([a]) == {a}
  {
  }

  lemma OnlyOnce(bs: seq<Block>, k: nat, w: nat, pool: int)
    requires Tiles(bs, HDR, 0, pool) && w > 0 && k + w <= |bs|
    ensures bs[k] !in Live(bs[..k]) && bs[k] !in Live(bs[k + w..])
  {
    AllApart(bs, HDR, 0, pool);
  }

  lemma ReplaceOne(s: set<Block>, s': set<Block>, a: set<Block>, c: set<Block>, b: Block, nb: Block)
    requires s == a + {b} + c && s' == a + {nb} + c && b !in a && b !in c
    ensures s' == s - {b} + {nb}
  {
  }

  /** Take free block k for `need` bytes, splitting it when another block fits behind. */
  ghost function Carve(bs: seq<Block>, k: nat, need: nat, limit: nat): seq<Block>
    requires k < |bs|
  {
    if bs[k].size >= need + HDR + limit then Mark(Split(bs, k, HDR, need), k, true) else Mark(bs, k, true)
  }

  /** Free block k gives need bytes at q, and the list becomes bs'. */
  ghost predicate TakenAt(bs: seq<Block>, k: nat, need: nat, limit: nat, q: int, bs': seq<Block>) {
    && k < |bs| && !bs[k].used && bs[k].size >= need && q == bs[k].addr + HDR
    && bs' == Carve(bs, k, need, limit)
  }

  /** The headers written when block k is carved. */
  ghost function CarveHeaders(bs: seq<Block>, k: nat, need: nat, limit: nat): set<int>
    requires k < |bs|
  {
    if bs[k].size >= need + HDR + limit then Addrs(bs) + {bs[k].addr + HDR + need} else Addrs(bs)
  }

  lemma CarvePreserves(d: seq<byte>, d': seq<byte>, bs: seq<Block>, k: nat, need: nat, limit: nat, pool: int)
    requires Tiles(bs, HDR, 0, pool) && k < |bs| && !bs[k].used && bs[k].size >= need
    requires Kept(d, d', CarveHeaders(bs, k, need, limit))
    ensures Preserved(d, d', Live(bs), NULL)
  {
    KeptPayloads(d, d', bs, pool, k, CarveHeaders(bs, k, need, limit));
  }

  lemma CarveShape(bs: seq<Block>, k: nat, need: nat, limit: nat) returns (mid: seq<Block>)
    requires k < |bs| && !bs[k].used && bs[k].size >= need
    ensures var t := Carve(bs, k, need, limit);
      && |t| >= |bs| && t[k].addr == bs[k].addr && t[k].used && t[k].size >= need
      && t == bs[..k] + mid + bs[k + 1..] && Live(mid) == {t[k]}
  {
    var t := Carve(bs, k, need, limit);
    mid := if |t| == |bs| then [t[k]] else [t[k], t[k + 1]];
    assert t == bs[..k] + mid + bs[k + 1..];
  }

  /** Carving adds one live block and leaves the others alone. */
  lemma CarveLive(bs: seq<Block>, k: nat, need: nat, limit: nat, pool: int)
    requires Tiles(bs, HDR, 0, pool) && k < |bs| && !bs[k].used && bs[k].size >= need
    ensures var t := Carve(bs, k, need, limit);
      && |t| >= |bs| && t[k].addr == bs[k].addr && t[k].used && t[k].size >= need
      && Live(t) == Live(bs) + {t[k]} && t[k] !in Live(bs)
  {
    hide Carve;
    var mid := CarveShape(bs, k, need, limit);
    LiveSplice(bs, Carve(bs, k, need, limit), k, 1, mid);
    assert Live(bs[k..k + 1]) == {};
    AllApart(bs, HDR, 0, pool);
  }

  lemma CarveCoalesced(bs: seq<Block>, k: nat, need: nat, limit: nat)
    requires Coalesced(bs) && k < |bs| - 1 && !bs[k].used
    ensures Coalesced(Carve(bs, k, need, limit))
  {
    var t := Carve(bs, k, need, limit);
    forall i, j | 0 <= i < |t| && j == i + 1 < |t| ensures t[i].used || t[j].used {
      assert bs[k].used || bs[k + 1].used;
      if i < k - 1 {
        assert bs[i].used || bs[j].used;
      } else if i > k {
        var o := if |t| == |bs| then i else i - 1;
        assert bs[o].used || (o + 1 < |bs| && bs[o + 1].used);
      }
    }
  }

  /** Merge block k with its right neighbour if that is free. */
  ghost function AbsorbRight(bs: seq<Block>, k: nat): seq<Block>
    requires k < |bs|
  {
    if k + 1 < |bs| && !bs[k + 1].used then Merge(bs, k, HDR) else bs
  }

  lemma AbsorbShape(bs: seq<Block>, k: nat)
    requires k < |bs| && !bs[k].used
    ensures var u, d := AbsorbRight(bs, k), if k + 1 < |bs| && !bs[k + 1].used then 1 else 0;
      && |u| == |bs| - d && !u[k].used && u[k].addr == bs[k].addr
      && (forall i :: 0 <= i < k ==> u[i] == bs[i])
      && (forall i :: k < i < |u| ==> u[i] == bs[i + d])
  {
    hide Merge;
    if k + 1 < |bs| && !bs[k + 1].used {
      MergeShape(bs, k);
    }
  }

  /** What freeing block k makes of the block list. */
  ghost function Released(bs: seq<Block>, k: nat): seq<Block>
    requires k < |bs|
  {
    var t := Mark(bs, k, false);
    if k > 0 && !t[k - 1].used then AbsorbRight(Merge(t, k - 1, HDR), k - 1) else AbsorbRight(t, k)
  }

  /** u is bs with blocks [lo, hi) made one free block. */
  ghost predicate Joined(bs: seq<Block>, u: seq<Block>, lo: nat, hi: nat)
    requires lo < hi <= |bs|
  {
    && |u| == lo + 1 + (|bs| - hi) && !u[lo].used && u[lo].addr == bs[lo].addr
    && (forall i :: 0 <= i < lo ==> u[i] == bs[i])
    && (forall i :: lo < i < |u| ==> u[i] == bs[i - lo - 1 + hi])
  }

  lemma AbsorbJoins(bs: seq<Block>, k: nat)
    requires k < |bs| && !bs[k].used
    ensures Joined(bs, AbsorbRight(bs, k), k, if k + 1 < |bs| && !bs[k + 1].used then k + 2 else k + 1)
  {
    hide AbsorbRight;
    AbsorbShape(bs, k);
  }

  lemma MergeJoins(bs: seq<Block>, k: nat)
    requires k + 1 < |bs| && !bs[k].used
    ensures Joined(bs, Merge(bs, k, HDR), k, k + 2)
  {
    hide Merge;
    MergeShape(bs, k);
  }

  /** Joining [lo, mid) and then the result with what follows it up to hi. */
  lemma JoinedTwice(bs: seq<Block>, t: seq<Block>, u: seq<Block>, lo: nat, mid: nat, hi: nat)
    requires lo < mid <= hi <= |bs| && Joined(bs, t, lo, mid) && Joined(t, u, lo, lo + 1 + (hi - mid))
    ensures Joined(bs, u, lo, hi)
  {
    forall i | lo < i < |u| ensures u[i] == bs[i - lo - 1 + hi] {
      assert u[i] == t[i + (hi - mid)];
    }
  }

  lemma JoinedMark(bs: seq<Block>, t: seq<Block>, u: seq<Block>, k: nat, lo: nat, hi: nat)
    requires lo <= k < hi <= |bs| == |t| && Joined(t, u, lo, hi) && t[lo].addr == bs[lo].addr
    requires forall i :: 0 <= i < |bs| && i != k ==> t[i] == bs[i]
    ensures Joined(bs, u, lo, hi)
  {
  }

  /** Blocks [lo, hi), which are block k and its free neighbours, become one. */
  lemma ReleasedShape(bs: seq<Block>, k: nat) returns (lo: nat, hi: nat)
    requires k < |bs| - 1
    ensures lo == (if k > 0 && !bs[k - 1].used then k - 1 else k)
    ensures hi == (if !bs[k + 1].used then k + 2 else k + 1)
    ensures Joined(bs, Released(bs, k), lo, hi)
  {
    hide Mark, Merge, AbsorbRight, Joined;
    var t := Mark(bs, k, false);
    MarkShape(bs, k, false);
    hi := if !bs[k + 1].used then k + 2 else k + 1;
    if k > 0 && !bs[k - 1].used {
      lo := k - 1;
      var t' := Merge(t, lo, HDR);
      MergeJoins(t, lo);
      MergeShape(t, lo);
      AbsorbJoins(t', lo);
      JoinedTwice(t, t', AbsorbRight(t', lo), lo, k + 1, hi);
    } else {
      lo := k;
      AbsorbJoins(t, lo);
    }
    JoinedMark(bs, t, Released(bs, k), k, lo, hi);
  }

  lemma ReleasedLive(bs: seq<Block>, k: nat, u: seq<Block>, lo: nat, hi: nat)
    requires Coalesced(bs) && lo <= k < hi < |bs| + 1 && k - 1 <= lo && hi <= k + 2
    requires bs[k].used && (lo < k ==> !bs[lo].used) && (hi > k + 1 ==> !bs[k + 1].used)
    requires (lo == k && k > 0 ==> bs[k - 1].used) && (hi == k + 1 < |bs| ==> bs[k + 1].used)
    requires forall i :: 0 <= i < |bs| && i != k ==> bs[i] != bs[k]
    requires |u| == lo + 1 + (|bs| - hi) && !u[lo].used
    requires forall i :: 0 <= i < lo ==> u[i] == bs[i]
    requires forall i :: lo < i < |u| ==> u[i] == bs[i - lo - 1 + hi]
    ensures Coalesced(u)
    ensures Live(u) == Live(bs) - {bs[k]}
  {
    forall b | b in Live(u) ensures b in Live(bs) - {bs[k]} {
      var i :| 0 <= i < |u| && u[i] == b;
      assert bs[if i < lo then i else i - lo - 1 + hi] == b;
    }
    forall b | b in Live(bs) - {bs[k]} ensures b in Live(u) {
      var i :| 0 <= i < |bs| && bs[i] == b;
      assert u[if i < lo then i else i + lo + 1 - hi] == b;
    }
    forall i, j | 0 <= i < |u| && j == i + 1 < |u| ensures u[i].used || u[j].used {
      if j <= lo {
        assert bs[j] == bs[i + 1];
      } else {
        var o := i - lo - 1 + hi;
        assert i == lo ==> hi == k + 1 || bs[k + 1].used || bs[k + 2].used;
        assert i > lo ==> bs[o].used || bs[o + 1].used;
      }
    }
  }

  /** Freeing coalesces and takes exactly block k out of the live blocks. */
  lemma ReleasedOk(bs: seq<Block>, k: nat)
    requires Coalesced(bs) && k < |bs| - 1 && bs[k].used && bs[|bs| - 1].used
    requires forall i :: 0 <= i < |bs| && i != k ==> bs[i] != bs[k]
    ensures Coalesced(Released(bs, k))
    ensures Live(Released(bs, k)) == Live(bs) - {bs[k]}
  {
    hide Released, Live, Coalesced;
    var lo, hi := ReleasedShape(bs, k);
    ReleasedLive(bs, k, Released(bs, k), lo, hi);
  }

  /** Freeing writes headers only. */
  lemma FreePreserves(d: seq<byte>, d': seq<byte>, bs: seq<Block>, pool: int, k: nat)
    requires Tiles(bs, HDR, 0, pool) && k < |bs| && bs[k].used && Kept(d, d', Addrs(bs))
    ensures Preserved(d, d', Live(bs), bs[k].addr)
    ensures forall i :: 0 <= i < |bs| && i != k ==> bs[i] != bs[k]
  {
    AllApart(bs, HDR, 0, pool);
    KeptPayloads(d, d', bs, pool, k, Addrs(bs));
  }

  lemma ShrunkLive(bs: seq<Block>, k: nat, n: nat, pool: int)
    requires Tiles(bs, HDR, 0, pool) && k + 1 < |bs| && bs[k].used
    ensures Live(AbsorbRight(Split(bs, k, HDR, n), k + 1)) == Live(bs) - {bs[k]} + {Block(bs[k].addr, n, true)}
  {
    hide Tiles, Merge, Split, Live;
    SplitShape(bs, k, HDR, n);
    var t := AbsorbRight(Split(bs, k, HDR, n), k + 1);
    var w := 1;
    if !bs[k + 1].used {
      MergeShape(Split(bs, k, HDR, n), k + 1);
      w := 2;
    }
    var mid := [t[k], t[k + 1]];
    LivePair(t[k], t[k + 1]);
    LivePair(bs[k], if w == 1 then t[k + 1] else bs[k + 1]);
    assert t == bs[..k] + mid + bs[k + w..];
    LiveSplice(bs, t, k, w, mid);
    assert bs[k..k + w] == if w == 1 then [bs[k]] else [bs[k], bs[k + 1]];
    OnlyOnce(bs, k, w, pool);
    ReplaceOne(Live(bs), Live(t), Live(bs[..k]), Live(bs[k + w..]), bs[k], t[k]);
  }

  /** The shrunk block replaces the old one and keeps what is left of it. */
  lemma ShrunkKeeps(d: seq<byte>, d': seq<byte>, bs: seq<Block>, pool: int, k: nat, n: nat)
    requires Tiles(bs, HDR, 0, pool) && |d| == |d'| == pool
    requires k < |bs| - 1 && bs[k].used && n + HDR <= bs[k].size
    requires Kept(d, d', Addrs(bs) + {bs[k].addr + HDR + n})
    ensures var b, nb := bs[k], Block(bs[k].addr, n, true);
      && Live(AbsorbRight(Split(bs, k, HDR, n), k + 1)) == Live(bs) - {b} + {nb}
      && SamePrefix(d, d', b, nb, n)
      && Preserved(d, d', Live(bs), b.addr)
  {
    hide Live, Preserved, AbsorbRight, Split;
    var b, nb, Z := bs[k], Block(bs[k].addr, n, true), Addrs(bs) + {bs[k].addr + HDR + n};
    ShrunkLive(bs, k, n, pool);
    KeptPayloads(d, d', bs, pool, k, Z);
    AllApart(bs, HDR, 0, pool);
    ClearPrefix(bs, k, n, Z);
    PayloadKept(d, d', nb, Z);
    PrefixOfPayload(d, d', nb, nb, n);
  }

  lemma ShrunkCoalesced(bs: seq<Block>, k: nat, n: nat)
    requires Coalesced(bs) && k < |bs| - 1 && bs[k].used && n + HDR <= bs[k].size
    ensures var t, y := Split(bs, k, HDR, n), bs[k].addr + HDR + n;
      && |t| == |bs| + 1 && t[k] == Block(bs[k].addr, n, true)
      && t[k + 1] == Block(y, bs[k].size - n - HDR, false)
      && (forall i :: 0 <= i < k ==> t[i] == bs[i])
      && (forall i :: k + 1 < i < |t| ==> t[i] == bs[i - 1])
      && Coalesced(AbsorbRight(t, k + 1))
  {
    hide Merge, Split;
    var t := Split(bs, k, HDR, n);
    SplitShape(bs, k, HDR, n);
    if !t[k + 2].used {
      MergeShape(t, k + 1);
    }
    var u := AbsorbRight(t, k + 1);
    forall i, j | 0 <= i < |u| && j == i + 1 < |u| ensures u[i].used || u[j].used {
      if j <= k {
        assert bs[i].used || bs[j].used;
      } else if i > k + 1 {
        var o := if |u| == |t| then i - 1 else i;
        assert bs[o].used || bs[o + 1].used;
      } else if |u| < |t| && i == k + 1 {
        assert bs[k + 1].used || bs[k + 2].used;
      }
    }
  }

  lemma Unmoved(d: seq<byte>, bs: seq<Block>, pool: int, k: nat)
    requires Tiles(bs, HDR, 0, pool) && |d| == pool && k < |bs| && bs[k].used
    ensures Live(bs) == Live(bs) - {bs[k]} + {bs[k]}
    ensures SamePrefix(d, d, bs[k], bs[k], bs[k].size)
  {
    AllApart(bs, HDR, 0, pool);
  }

  /** The block to be moved is still there after the allocation, apart from the new one. */
  lemma MovedIndex(bs0: seq<Block>, bs: seq<Block>, pool: int, k: nat, k1: nat) returns (k2: nat)
    requires Tiles(bs0, HDR, 0, pool) && k < |bs0| - 1 && bs0[k].used
    requires Tiles(bs, HDR, 0, pool) && |bs| > 0 && bs[|bs| - 1] == Block(pool - HDR, 0, true)
    requires k1 < |bs| && bs[k1].used && Live(bs) == Live(bs0) + {bs[k1]} && bs[k1] !in Live(bs0)
    ensures k2 < |bs| - 1 && bs[k2] == bs0[k] && k2 != k1 && bs0[k] in Live(bs0)
    ensures var b, nb := bs[k2], bs[k1];
      && 0 <= b.addr && b.End(HDR) <= pool && 0 <= nb.addr && nb.End(HDR) <= pool
      && (b.End(HDR) <= nb.addr || nb.End(HDR) <= b.addr)
  {
    assert bs0[k] in Live(bs);
    k2 :| 0 <= k2 < |bs| && bs[k2] == bs0[k];
    AllApart(bs0, HDR, 0, pool);
    AllApart(bs, HDR, 0, pool);
    assert bs0[k].End(HDR) <= bs0[|bs0| - 1].addr;
  }

  lemma LiveMoved(live: set<Block>, mid: set<Block>, b: Block, nb: Block)
    requires mid == live + {nb} && b != nb
    ensures mid - {b} == live - {b} + {nb}
  {
  }

  /** rt_memcpy of n bytes between disjoint areas of the pool. */
  function MemCopy(d: seq<byte>, dst: int, src: int, n: int): (r: seq<byte>)
    requires 0 <= n && 0 <= dst && dst + n <= |d| && 0 <= src && src + n <= |d|
    requires dst + n <= src || src + n <= dst
    ensures |r| == |d| && r[dst..dst + n] == d[src..src + n]
    ensures forall i :: 0 <= i < |d| && !(dst <= i < dst + n) ==> r[i] == d[i]
  {
    d[..dst] + d[src..src + n] + d[dst + n..]
  }

  /** What copying n bytes from block b to block nb does to the pool. */
  ghost predicate Copied(d1: seq<byte>, d2: seq<byte>, b: Block, nb: Block, n: int) {
    && SamePrefix(d1, d2, b, nb, n)
    && |d1| == |d2|
    && forall i :: 0 <= i < |d1| && !(nb.addr + HDR <= i < nb.End(HDR)) ==> d2[i] == d1[i]
  }

  lemma IsCopy(d1: seq<byte>, d2: seq<byte>, b: Block, nb: Block, n: nat)
    requires n <= b.size && n <= nb.size
    requires 0 <= b.addr + HDR && b.End(HDR) <= |d1| && 0 <= nb.addr + HDR && nb.End(HDR) <= |d1|
    requires b.End(HDR) <= nb.addr || nb.End(HDR) <= b.addr
    requires d2 == MemCopy(d1, nb.addr + HDR, b.addr + HDR, n)
    ensures Copied(d1, d2, b, nb, n)
  {
  }

  /** Copying into block k1 and then freeing block k2 keeps the other blocks
      and leaves the copied bytes in place. */
  lemma CopyThenFree(d1: seq<byte>, d2: seq<byte>, d3: seq<byte>, bs: seq<Block>, pool: int, k2: nat, k1: nat, n: nat)
    requires Tiles(bs, HDR, 0, pool) && k1 < |bs| && k2 < |bs| && k1 != k2
    requires bs[k1].used && n <= bs[k1].size
    requires Preserved(d2, d3, Live(bs), bs[k2].addr) && Copied(d1, d2, bs[k2], bs[k1], n)
    ensures Preserved(d1, d3, Live(bs) - {bs[k1]}, bs[k2].addr)
    ensures SamePrefix(d1, d3, bs[k2], bs[k1], n)
  {
    hide Tiles, Copied, SamePayload, SamePrefix;
    var nb := bs[k1];
    forall c | c in Live(bs) - {nb} && c.addr != bs[k2].addr ensures SamePayload(d1, d3, c) {
      var m :| 0 <= m < |bs| && bs[m] == c;
      PairApart(bs, pool, m, k1);
      PayloadCopied(d1, d2, d3, bs[k2], nb, n, c);
    }
    PairApart(bs, pool, k1, k2);
    assert nb in Live(bs) && SamePayload(d2, d3, nb);
    PrefixCopied(d1, d2, d3, bs[k2], nb, n);
  }

  /** The copy into nb misses block c. */
  lemma PayloadCopied(d1: seq<byte>, d2: seq<byte>, d3: seq<byte>, b: Block, nb: Block, n: nat, c: Block)
    requires Copied(d1, d2, b, nb, n) && SamePayload(d2, d3, c)
    requires nb.End(HDR) <= c.addr || c.End(HDR) <= nb.addr
    ensures SamePayload(d1, d3, c)
  {
  }

  lemma PrefixCopied(d1: seq<byte>, d2: seq<byte>, d3: seq<byte>, b: Block, nb: Block, n: nat)
    requires Copied(d1, d2, b, nb, n) && SamePayload(d2, d3, nb) && n <= nb.size
    ensures SamePrefix(d1, d3, b, nb, n)
  {
    var q := nb.addr + HDR;
    assert d3[q..q + n] == d2[q..q + n];
  }

  /** Allocation and the two steps after it together. */
  lemma MoveKeeps(d0: seq<byte>, d1: seq<byte>, d3: seq<byte>, live: set<Block>, b: Block, nb: Block, n: nat)
    requires b in live && b.addr != NULL && nb !in live && n <= b.size
    requires Preserved(d0, d1, live, NULL) && Preserved(d1, d3, live + {nb} - {nb}, b.addr)
    requires SamePrefix(d1, d3, b, nb, n)
    requires forall c :: c in live ==> c.addr != NULL
    ensures Preserved(d0, d3, live, b.addr)
    ensures SamePrefix(d0, d3, b, nb, n)
  {
    forall c | c in live && c.addr != b.addr ensures SamePayload(d0, d3, c) {
      assert SamePayload(d0, d1, c) && SamePayload(d1, d3, c);
    }
    assert SamePayload(d0, d1, b);
    var p := b.addr + HDR;
    assert d0[p..p + n] == d1[p..p + n];
  }

  lemma LiveAddrs(bs: seq<Block>, pool: int)
    requires Tiles(bs, HDR, 0, pool)
    ensures forall c :: c in Live(bs) ==> c.addr != NULL
  {
    AllApart(bs, HDR, 0, pool);
  }

  lemma PairApart(bs: seq<Block>, pool: int, i: nat, j: nat)
    requires Tiles(bs, HDR, 0, pool) && i < |bs| && j < |bs| && i != j
    ensures 0 <= bs[i].addr && bs[i].End(HDR) <= pool && 0 <= bs[j].addr && bs[j].End(HDR) <= pool
    ensures bs[i].End(HDR) <= bs[j].addr || bs[j].End(HDR) <= bs[i].addr
    ensures bs[i].addr != bs[j].addr
  {
    AllApart(bs, HDR, 0, pool);
  }
}
