/** The two circular lists of a memheap pool as values: what the header words
    say, and what each piece of pointer surgery does to them. */
module MemHeapLists {
  import opened Basics
  import opened Blocks
  import opened Rings
  import opened AllocClient
  import opened Payloads

  /** RT_MEMHEAP_MINIALLOC */
  const MINIALLOC: nat := AlignUp(12)

  /** The address of the free list header, which lies outside the pool. */
  const FREE_LIST: int := -1

  ghost function Starts(bs: seq<Block>): (r: seq<int>)
    ensures |r| == |bs| && forall i :: 0 <= i < |r| ==> r[i] == bs[i].addr
  {
    seq(|bs|, i requires 0 <= i < |bs| => bs[i].addr)
  }

  /** The headers hold the block list bs of a pool: it tiles the pool in address
      order, ends in the zero-length used tail, prev inverts next. */
  ghost predicate ListOk(magic: map<int, bool>, next: Links, prev: Links, bs: seq<Block>, pool: int) {
    && |bs| >= 2
    && Tiles(bs, HDR, 0, pool)
    && bs[|bs| - 1] == Block(pool - HDR, 0, true)
    && Tagged(magic, bs)
    && Ring(next, prev, Starts(bs))
  }

  lemma InitialTotals(pool: int)
    ensures var bs := [Block(0, pool - 2 * HDR, false), Block(pool - HDR, 0, true)];
      FreeBag(bs) == multiset{0} && FreeBytes(bs) == pool - 2 * HDR && Addrs(bs) == {0, pool - HDR}
  {
    var x, y := Block(0, pool - 2 * HDR, false), Block(pool - HDR, 0, true);
    assert [x, y] == [x] + [y] && [y] == [y] + [];
    ConsSums(x, [y], HDR);
    ConsSums(y, [], HDR);
  }

  /** The words rt_memheap_init writes. */
  lemma InitialList(pool: int)
    requires pool >= 2 * HDR && pool % ALIGN == 0
    ensures var tail := pool - HDR; var bs := [Block(0, pool - 2 * HDR, false), Block(tail, 0, true)];
      && ListOk(map[0 := false, tail := true], map[0 := tail, tail := 0], map[0 := tail, tail := 0], bs, pool)
      && FreeBag(bs) == multiset([0]) && FreeBytes(bs) == pool - 2 * HDR
      && Ring(map[0 := FREE_LIST, FREE_LIST := 0, tail := NULL], map[0 := FREE_LIST, FREE_LIST := 0, tail := NULL],
              [FREE_LIST] + [0])
  {
    hide Ring, Tagged, Tiles, FreeBag, FreeBytes, Starts;
    var tail := pool - HDR;
    var bs := [Block(0, pool - 2 * HDR, false), Block(tail, 0, true)];
    InitialTotals(pool);
    InitialBlocks(pool);
    assert Starts(bs) == [0, tail];
    PairRing(map[0 := tail, tail := 0], map[0 := tail, tail := 0], 0, tail);
    PairRing(map[0 := FREE_LIST, FREE_LIST := 0, tail := NULL], map[0 := FREE_LIST, FREE_LIST := 0, tail := NULL],
             FREE_LIST, 0);
    assert [FREE_LIST] + [0] == [FREE_LIST, 0];
    assert multiset([0]) == multiset{0};
  }

  lemma InitialBlocks(pool: int)
    requires pool >= 2 * HDR && pool % ALIGN == 0
    ensures var tail := pool - HDR; var bs := [Block(0, pool - 2 * HDR, false), Block(tail, 0, true)];
      Tiles(bs, HDR, 0, pool) && Tagged(map[0 := false, tail := true], bs)
  {
    hide Tiles, Tagged;
    assert (pool - 2 * HDR) % ALIGN == 0;
    TwoBlocks(pool - 2 * HDR);
  }

  lemma PairRing(nx: Links, pv: Links, a: int, b: int)
    requires a != b && a in nx && b in nx && a in pv && b in pv
    requires nx[a] == b && nx[b] == a && pv[a] == b && pv[b] == a
    ensures Ring(nx, pv, [a, b])
  {
  }

  lemma ListTiles(magic: map<int, bool>, next: Links, prev: Links, bs: seq<Block>, pool: int)
    requires ListOk(magic, next, prev, bs, pool)
    ensures Tiles(bs, HDR, 0, pool) && magic.Keys == Addrs(bs)
    ensures |bs| >= 2 && bs[|bs| - 1] == Block(pool - HDR, 0, true)
  {
  }

  /** The size an allocation request is rounded to. */
  function Rounded(n: nat): nat {
    if AlignUp(n) < MINIALLOC then MINIALLOC else AlignUp(n)
  }

  lemma RoundedUp(n: nat)
    ensures Rounded(n) % ALIGN == 0 && Rounded(n) >= n && Rounded(Rounded(n)) == Rounded(n) >= MINIALLOC > 0
    ensures n >= MINIALLOC ==> Rounded(n) < n + 8
  {
  }

  ghost function CarveFrees(bs: seq<Block>, fs: seq<int>, k: nat, j: nat, need: nat): seq<int>
    requires k < |bs| && j < |fs|
  {
    if bs[k].size >= need + HDR + MINIALLOC then Inserted(Without(fs, j), 0, bs[k].addr + HDR + need)
    else Without(fs, j)
  }

  // ----- the order of the free list after a free

  /** fs without its entry a. */
  ghost function Drop(fs: seq<int>, a: int): seq<int> {
    if fs == [] then [] else if fs[0] == a then fs[1..] else [fs[0]] + Drop(fs[1..], a)
  }

  lemma {:induction false} DropIs(fs: seq<int>, j: nat)
    requires j < |fs| && forall i :: 0 <= i < j ==> fs[i] != fs[j]
    ensures Drop(fs, fs[j]) == Without(fs, j)
  {
    if j > 0 {
      DropIs(fs[1..], j - 1);
      assert Without(fs, j) == [fs[0]] + Without(fs[1..], j - 1);
    }
  }

  lemma RingDrop(nextFree: Links, prevFree: Links, fs: seq<int>, j: nat)
    requires Ring(nextFree, prevFree, [FREE_LIST] + fs) && j < |fs|
    ensures Drop(fs, fs[j]) == Without(fs, j)
  {
    var r := [FREE_LIST] + fs;
    assert forall i :: 0 <= i < |fs| ==> fs[i] == r[i + 1];
    DropIs(fs, j);
  }

  /** The size of the block at address a. */
  ghost function SizeAt(bs: seq<Block>, a: int): int {
    if bs == [] then 0 else if bs[0].addr == a then bs[0].size else SizeAt(bs[1..], a)
  }

  lemma {:induction false} SizeAtIndex(bs: seq<Block>, k: nat)
    requires k < |bs| && DistinctBlocks(bs)
    ensures SizeAt(bs, bs[k].addr) == bs[k].size
  {
    if k > 0 {
      SizeAtIndex(bs[1..], k - 1);
    }
  }

  /** Where a freed block of the given size goes: to the head, or in best mode in front
      of the first free block that is not smaller. */
  ghost function PlaceOf(bs: seq<Block>, fs: seq<int>, size: int, best: bool): (j: nat)
    ensures j <= |fs|
  {
    if !best || fs == [] || size <= SizeAt(bs, fs[0]) then 0 else 1 + PlaceOf(bs, fs[1..], size, best)
  }

  lemma {:induction false} PlaceIs(bs: seq<Block>, fs: seq<int>, size: int, j: nat)
    requires j <= |fs| && forall i :: 0 <= i < j ==> SizeAt(bs, fs[i]) < size
    requires j < |fs| ==> size <= SizeAt(bs, fs[j])
    ensures PlaceOf(bs, fs, size, true) == j
  {
    if j > 0 {
      assert SizeAt(bs, fs[0]) < size;
      assert forall i :: 0 <= i < j - 1 ==> SizeAt(bs, fs[1..][i]) == SizeAt(bs, fs[i + 1]) < size;
      PlaceIs(bs, fs[1..], size, j - 1);
    }
  }

  /** fs without the right neighbour of block k, if that is free. */
  ghost function Rid(bs: seq<Block>, fs: seq<int>, k: nat): seq<int> {
    if k + 1 < |bs| && !bs[k + 1].used then Drop(fs, bs[k + 1].addr) else fs
  }

  lemma RidIs(nextFree: Links, prevFree: Links, bs: seq<Block>, fs: seq<int>, k: nat, j: nat)
    requires Ring(nextFree, prevFree, [FREE_LIST] + fs) && j < |fs|
    requires k + 1 < |bs| && !bs[k + 1].used && fs[j] == bs[k + 1].addr
    ensures Rid(bs, fs, k) == Without(fs, j)
  {
    RingDrop(nextFree, prevFree, fs, j);
  }

  /** The free list after freeing block k. u is the block list then. */
  ghost function ReleasedFrees(bs: seq<Block>, u: seq<Block>, fs: seq<int>, k: nat, best: bool): seq<int>
    requires k < |bs|
  {
    var mid := Rid(bs, fs, k);
    if k > 0 && !bs[k - 1].used then mid
    else Inserted(mid, PlaceOf(u, mid, SizeAt(u, bs[k].addr), best), bs[k].addr)
  }

  /** The condition under which realloc grows block k where it is. */
  ghost predicate Growable(bs: seq<Block>, k: nat, n: nat) {
    k + 1 < |bs| && !bs[k + 1].used && bs[k + 1].size + bs[k].size > n + MINIALLOC
  }

  /** The condition under which alloc gives nothing: the comparison with the free total, or
      no block to give. */
  ghost predicate Refused(bs: seq<Block>, need: nat) {
    need >= FreeBytes(bs) || NoneFits(bs, need)
  }

  /** The block list and the free list, and whether the latter is kept in best mode. */
  datatype Layout = Layout(best: bool, blocks: seq<Block>, frees: seq<int>)

  /** Entry j of the free list, block k, is the first to hold need bytes and is taken. */
  ghost predicate FirstTaken(l: Layout, k: nat, j: nat, need: nat, q: int, l': Layout) {
    && TakenAt(l.blocks, k, need, MINIALLOC, q, l'.blocks)
    && j < |l.frees| && l.frees[j] == l.blocks[k].addr && FirstIn(l.blocks, l.frees[..j], need)
    && l' == Layout(l.best, l'.blocks, CarveFrees(l.blocks, l.frees, k, j, need))
  }

  /** What alloc of need bytes does. */
  ghost predicate Allocated(l: Layout, need: nat, q: int, l': Layout) {
    && (q == NULL <==> Refused(l.blocks, need))
    && (if q == NULL then l' == l else exists k, j :: FirstTaken(l, k, j, need, q, l'))
  }

  lemma IsAllocated(l: Layout, k: nat, j: nat, need: nat, q: int, l': Layout)
    requires q == NULL <==> Refused(l.blocks, need)
    requires if q == NULL then l' == l else FirstTaken(l, k, j, need, q, l')
    ensures Allocated(l, need, q, l')
  {
  }

  /** Block k has been freed. */
  ghost function Freed(l: Layout, k: nat): Layout
    requires k < |l.blocks|
  {
    var u := Released(l.blocks, k);
    Layout(l.best, u, ReleasedFrees(l.blocks, u, l.frees, k, l.best))
  }

  /** The rest behind need bytes of block k heads the free list. */
  ghost function RestFirst(l: Layout, k: nat, need: nat): seq<int>
    requires k < |l.blocks|
  {
    Inserted(Rid(l.blocks, l.frees, k), 0, l.blocks[k].addr + HDR + need)
  }

  /** Block k cut down to need bytes. */
  ghost function Cut(l: Layout, k: nat, need: nat): Layout
    requires k < |l.blocks|
  {
    Layout(l.best, AbsorbRight(Split(l.blocks, k, HDR, need), k + 1), RestFirst(l, k, need))
  }

  /** Block k grown to need bytes into its free right neighbour. */
  ghost function Grown(l: Layout, k: nat, need: nat): Layout
    requires k + 1 < |l.blocks|
  {
    Layout(l.best, Split(Merge(l.blocks, k, HDR), k, HDR, need), RestFirst(l, k, need))
  }

  /** What realloc of block k to need bytes does: nothing or a cut, growth into the right
      neighbour, or allocation and release. mid is the layout before the release. */
  ghost predicate Reallocated(l: Layout, k: nat, need: nat, q: int, mid: Layout, l': Layout)
    requires k < |l.blocks|
  {
    var b := l.blocks[k];
    if need <= b.size then
      q == b.addr + HDR && mid == l && l' == if need + HDR + MINIALLOC >= b.size then l else Cut(l, k, need)
    else if Growable(l.blocks, k, need) then q == b.addr + HDR && mid == l' == Grown(l, k, need)
    else Moved(l, k, need, q, mid, l')
  }

  ghost predicate Moved(l: Layout, k: nat, need: nat, q: int, mid: Layout, l': Layout)
    requires k < |l.blocks|
  {
    && Allocated(l, need, q, mid)
    && if q == NULL then l' == l else FreedAt(mid, l.blocks[k].addr, l')
  }

  /** The block at address a has been freed. */
  ghost predicate FreedAt(l: Layout, a: int, l': Layout) {
    IndexOf(l.blocks, a) < |l.blocks| && l' == Freed(l, IndexOf(l.blocks, a))
  }

  lemma GrownThere(l: Layout, k: nat, need: nat)
    requires k < |l.blocks| && need > l.blocks[k].size && Growable(l.blocks, k, need)
    ensures Reallocated(l, k, need, l.blocks[k].addr + HDR, Grown(l, k, need), Grown(l, k, need))
  {
  }

  lemma MovedAway(l: Layout, k: nat, need: nat, q: int, mid: Layout, l': Layout)
    requires k < |l.blocks| && need > l.blocks[k].size && !Growable(l.blocks, k, need)
    requires Moved(l, k, need, q, mid, l')
    ensures Reallocated(l, k, need, q, mid, l')
  {
  }

  lemma NotMoved(l: Layout, k: nat, need: nat, mid: Layout)
    requires k < |l.blocks| && Allocated(l, need, NULL, mid)
    ensures Moved(l, k, need, NULL, mid, l)
  {
  }

  lemma IsMoved(l: Layout, k: nat, need: nat, q: int, mid: Layout, k2: nat, l': Layout, pool: int)
    requires k < |l.blocks| && k2 < |mid.blocks| && mid.blocks[k2].addr == l.blocks[k].addr
      && Tiles(mid.blocks, HDR, 0, pool)
    requires Allocated(l, need, q, mid) && q != NULL && l' == Freed(mid, k2)
    ensures Moved(l, k, need, q, mid, l')
  {
    hide Freed, Allocated, Tiles;
    TilesDistinct(mid.blocks, HDR, 0, pool);
    IndexIs(mid.blocks, k2);
  }

  /** What the words of block k's header say about its neighbours. */
  lemma Neighbours(magic: map<int, bool>, next: Links, prev: Links, bs: seq<Block>, pool: int, k: nat)
    requires ListOk(magic, next, prev, bs, pool) && k < |bs| - 1
    ensures var x, l := bs[k].addr, if k > 0 then bs[k - 1] else bs[|bs| - 1];
      && x in magic && magic[x] == bs[k].used
      && x in next && next[x] == bs[k + 1].addr != x && next[x] in magic && magic[next[x]] == bs[k + 1].used
      && x in prev && prev[x] == l.addr && prev[x] in magic && magic[prev[x]] == l.used
      && bs[k].size == next[x] - x - HDR >= 0
      && bs[|bs| - 1].used
  {
    var r := Starts(bs);
    assert Node(next, prev, r[k], r[Succ(|r|, k)], r[Pred(|r|, k)]);
    assert bs[k + 1].addr == bs[k].End(HDR);
  }

  lemma AddrsStarts(bs: seq<Block>)
    ensures forall a :: a in Starts(bs) ==> a in Addrs(bs)
  {
    forall a | a in Starts(bs) ensures a in Addrs(bs) {
      AddrsAt(bs, a);
    }
  }

  lemma SplitStarts(bs: seq<Block>, k: nat, n: int)
    requires k < |bs|
    ensures Starts(Split(bs, k, HDR, n)) == Inserted(Starts(bs), k + 1, bs[k].addr + HDR + n)
  {
  }

  lemma SplitRing(next: Links, prev: Links, bs: seq<Block>, k: nat, n: int)
    requires Ring(next, prev, Starts(bs)) && k < |bs| - 1
    requires bs[k].addr + HDR + n !in Starts(bs)
    ensures var x, y, z := bs[k].addr, bs[k].addr + HDR + n, bs[k + 1].addr;
      && x in next && next[x] == z && z in prev && prev[z] == x
      && Ring(next[y := z][x := y], prev[y := x][z := y], Starts(Split(bs, k, HDR, n)))
  {
    InsertIntoRing(next, prev, Starts(bs), k + 1, bs[k].addr + HDR + n);
    SplitStarts(bs, k, n);
  }

  lemma SplitList(magic: map<int, bool>, next: Links, prev: Links, bs: seq<Block>, pool: int, k: nat, n: int)
    requires ListOk(magic, next, prev, bs, pool) && k < |bs| - 1
    requires 0 <= n && n % ALIGN == 0 && n + HDR <= bs[k].size
    ensures var x, y, z := bs[k].addr, bs[k].addr + HDR + n, bs[k + 1].addr;
      && y !in magic && x in next && next[x] == z && z in prev
      && x in magic && z in magic && 0 <= x && x + HDR <= pool && 0 <= z && z + HDR <= pool && y + HDR <= pool
      && ListOk(magic[y := false], next[y := z][x := y], prev[y := x][z := y], Split(bs, k, HDR, n), pool)
  {
    hide Tiles, Ring, Tagged, Addrs, Starts, Split;
    FreshAddr(bs, pool, k, n);
    AddrsStarts(bs);
    HeaderAt(magic, bs, pool, k);
    HeaderAt(magic, bs, pool, k + 1);
    SplitShape(bs, k, HDR, n);
    SplitRing(next, prev, bs, k, n);
    SplitTiles(bs, k, HDR, n, 0, pool);
    SplitTagged(magic, bs, k, n);
  }

  lemma MarkList(magic: map<int, bool>, next: Links, prev: Links, bs: seq<Block>, pool: int, k: nat, u: bool)
    requires ListOk(magic, next, prev, bs, pool) && k < |bs| - 1
    ensures var x := bs[k].addr;
      && x in magic && 0 <= x && x + HDR <= pool
      && ListOk(magic[x := u], next, prev, Mark(bs, k, u), pool)
  {
    hide Ring, Tagged, Addrs, Mark, Starts;
    AllApart(bs, HDR, 0, pool);
    HeaderAt(magic, bs, pool, k);
    MarkTiles(bs, k, u, HDR, 0, pool);
    MarkTagged(magic, bs, k, u);
    MarkShape(bs, k, u);
    MarkStarts(bs, k, u);
  }

  lemma MarkStarts(bs: seq<Block>, k: nat, u: bool)
    requires k < |bs|
    ensures Starts(Mark(bs, k, u)) == Starts(bs)
  {
    hide Mark;
    MarkShape(bs, k, u);
    assert forall i :: 0 <= i < |bs| ==> Mark(bs, k, u)[i].addr == bs[i].addr;
  }

  lemma MergeRing(next: Links, prev: Links, bs: seq<Block>, k: nat)
    requires Ring(next, prev, Starts(bs)) && k < |bs| - 2
    ensures var x, y, z := bs[k].addr, bs[k + 1].addr, bs[k + 2].addr;
      && x in next && y in next && next[y] == z && z in prev && x != y
      && Ring(next[x := z], prev[z := x], Starts(Merge(bs, k, HDR)))
  {
    var r := Starts(bs);
    RemoveFromRing(next, prev, r, k + 1);
    assert Node(next, prev, r[k + 1], r[Succ(|r|, k + 1)], r[Pred(|r|, k + 1)]);
    assert Node(next, prev, r[k], r[Succ(|r|, k)], r[Pred(|r|, k)]);
    assert Starts(Merge(bs, k, HDR)) == Without(r, k + 1);
  }

  lemma MergeList(magic: map<int, bool>, next: Links, prev: Links, bs: seq<Block>, pool: int, k: nat)
    requires ListOk(magic, next, prev, bs, pool) && k < |bs| - 2
    ensures var x, y, z := bs[k].addr, bs[k + 1].addr, bs[k + 2].addr;
      && x in next && y in next && next[y] == z && z in prev && x != y
      && x in magic && z in magic && 0 <= x && x + HDR <= pool && 0 <= z && z + HDR <= pool
      && ListOk(magic - {y}, next[x := z], prev[z := x], Merge(bs, k, HDR), pool)
  {
    AllApart(bs, HDR, 0, pool);
    HeaderAt(magic, bs, pool, k);
    HeaderAt(magic, bs, pool, k + 2);
    MergeRing(next, prev, bs, k);
    MergeTiles(bs, k, HDR, 0, pool);
    MergeTagged(magic, bs, k);
  }

  lemma BagWithout(fs: seq<int>, j: nat)
    requires j < |fs|
    ensures multiset(Without(fs, j)) + multiset{fs[j]} == multiset(fs)
  {
    assert fs == fs[..j] + [fs[j]] + fs[j + 1..];
  }

  lemma BagInserted(fs: seq<int>, j: nat, x: int)
    requires j <= |fs|
    ensures multiset(Inserted(fs, j, x)) == multiset(fs) + multiset{x}
  {
    assert fs == fs[..j] + fs[j..];
  }

  lemma BagWithoutSnoc(fs: seq<int>, j: nat, y: int)
    requires j < |fs|
    ensures multiset(Without(fs + [y], j)) == multiset(Without(fs, j)) + multiset{y}
  {
    assert Without(fs + [y], j) == Without(fs, j) + [y];
  }

  lemma CancelBag(a: multiset<int>, b: multiset<int>, c: multiset<int>)
    requires a + c == b + c
    ensures a == b
  {
    assert forall x :: a[x] + c[x] == (a + c)[x] && b[x] + c[x] == (b + c)[x];
  }

  /** The block behind free list entry j. */
  lemma FreeBlockAt(magic: map<int, bool>, next: Links, prev: Links, bs: seq<Block>, pool: int, fs: seq<int>, j: nat)
    returns (k: nat)
    requires ListOk(magic, next, prev, bs, pool) && multiset(fs) <= FreeBag(bs) && j < |fs|
    ensures k < |bs| - 1 && bs[k].addr == fs[j] && !bs[k].used && fs[j] in next
    ensures bs[k].size == next[fs[j]] - fs[j] - HDR
    ensures DistinctBlocks(bs)
  {
    hide FreeBag, Tagged;
    assert fs[j] in multiset(fs);
    FreeBagAt(bs, fs[j]);
    k :| 0 <= k < |bs| && bs[k].addr == fs[j] && !bs[k].used;
    var r := Starts(bs);
    assert Node(next, prev, r[k], r[Succ(|r|, k)], r[Pred(|r|, k)]);
    assert bs[k + 1].addr == bs[k].End(HDR);
    AllApart(bs, HDR, 0, pool);
  }

  /** The free list headers are headers of blocks. */
  lemma FreesInPool(magic: map<int, bool>, next: Links, prev: Links, bs: seq<Block>, pool: int, fs: seq<int>)
    requires ListOk(magic, next, prev, bs, pool) && multiset(fs) <= FreeBag(bs)
    ensures forall i :: 0 <= i < |fs| ==> fs[i] in magic.Keys && 0 <= fs[i] && fs[i] + HDR <= pool
  {
    forall i | 0 <= i < |fs| ensures fs[i] in magic.Keys && 0 <= fs[i] && fs[i] + HDR <= pool {
      var k := FreeBlockAt(magic, next, prev, bs, pool, fs, i);
      HeaderAt(magic, bs, pool, k);
    }
  }

  lemma FreeBlockFresh(bs: seq<Block>, fs: seq<int>, pool: int, k: nat, y: int)
    requires Tiles(bs, HDR, 0, pool) && multiset(fs) == FreeBag(bs)
    requires k < |bs| && bs[k].addr < y < y + HDR <= bs[k].End(HDR)
    ensures y !in fs && 0 <= y && y + HDR <= pool
  {
    AllApart(bs, HDR, 0, pool);
    FreeBagAt(bs, y);
    assert y in fs ==> y in multiset(fs);
  }

  lemma UsedNotFree(magic: map<int, bool>, next: Links, prev: Links, bs: seq<Block>, pool: int, fs: seq<int>, k: nat)
    requires ListOk(magic, next, prev, bs, pool) && multiset(fs) == FreeBag(bs) && k < |bs| && bs[k].used
    ensures bs[k].addr !in fs
  {
    AllApart(bs, HDR, 0, pool);
    FreeBagAt(bs, bs[k].addr);
    assert bs[k].addr !in multiset(fs);
  }

  /** Where free block k stands on the free list. */
  lemma FreeIndex(bs: seq<Block>, fs: seq<int>, k: nat, extra: multiset<int>) returns (j: nat)
    requires k < |bs| && !bs[k].used && FreeBag(bs) == multiset(fs) + extra && bs[k].addr !in extra
    ensures j < |fs| && fs[j] == bs[k].addr
  {
    FreeBagAt(bs, bs[k].addr);
    assert bs[k].addr in multiset(fs);
    j :| 0 <= j < |fs| && fs[j] == bs[k].addr;
  }

  lemma NextFree(nextFree: Links, prevFree: Links, fs: seq<int>, j: nat)
    requires Ring(nextFree, prevFree, [FREE_LIST] + fs) && j < |fs|
    ensures fs[j] in nextFree && nextFree[fs[j]] == if j + 1 < |fs| then fs[j + 1] else FREE_LIST
  {
    var r := [FREE_LIST] + fs;
    assert Node(nextFree, prevFree, r[j + 1], r[Succ(|r|, j + 1)], r[Pred(|r|, j + 1)]);
  }

  lemma AddrsDistinct(magic: map<int, bool>, next: Links, prev: Links, bs: seq<Block>, pool: int)
    requires ListOk(magic, next, prev, bs, pool)
    ensures DistinctBlocks(bs)
  {
    hide Tagged, Ring;
    AllApart(bs, HDR, 0, pool);
  }

  lemma FreesNotHead(nextFree: Links, prevFree: Links, fs: seq<int>)
    requires Ring(nextFree, prevFree, [FREE_LIST] + fs)
    ensures FREE_LIST !in fs
  {
    var r := [FREE_LIST] + fs;
    assert forall i :: 0 <= i < |fs| ==> fs[i] == r[i + 1] != r[0];
  }

  /** The free list with x in front of n, which is entry j or the list header. */
  lemma FreesInserted(nextFree: Links, prevFree: Links, fs: seq<int>, j: nat, x: int, n: int)
    requires Ring(nextFree, prevFree, [FREE_LIST] + fs) && x !in fs && x != FREE_LIST
    requires j <= |fs| && n == if j < |fs| then fs[j] else FREE_LIST
    ensures n in prevFree
    ensures var p := prevFree[n];
      && (p == FREE_LIST || p in fs) && p in nextFree
      && Ring(nextFree[x := n][p := x], prevFree[x := p][n := x], [FREE_LIST] + Inserted(fs, j, x))
  {
    hide Ring, Inserted;
    var r := [FREE_LIST] + fs;
    var p := r[j];
    assert n == if j + 1 < |r| then r[j + 1] else r[0];
    InsertIntoRing(nextFree, prevFree, r, j + 1, x);
    HeadInserted(fs, j, x);
    assert prevFree[n] == p && (p == FREE_LIST || p in fs);
  }

  lemma HeadInserted(fs: seq<int>, j: nat, x: int)
    requires j <= |fs|
    ensures [FREE_LIST] + Inserted(fs, j, x) == Inserted([FREE_LIST] + fs, j + 1, x)
  {
  }

  lemma InsertedMembers(fs: seq<int>, j: nat, x: int)
    requires j <= |fs|
    ensures |Inserted(fs, j, x)| == |fs| + 1
    ensures forall i :: 0 <= i <= |fs| ==> var a := Inserted(fs, j, x)[i]; a == x || a in fs
  {
  }

  /** Putting block k on the free list makes the list complete. */
  lemma InsertAt(magic: map<int, bool>, next: Links, prev: Links, bs: seq<Block>, pool: int, fs: seq<int>, k: nat,
          j: nat, Z: set<int>)
    requires ListOk(magic, next, prev, bs, pool) && magic.Keys <= Z
    requires k < |bs| && j <= |fs| && FreeBag(bs) == multiset(fs) + multiset{bs[k].addr}
    ensures multiset(Inserted(fs, j, bs[k].addr)) == FreeBag(bs)
    ensures bs[k].addr in Z && 0 <= bs[k].addr && bs[k].addr + HDR <= pool
  {
    HeaderAt(magic, bs, pool, k);
    BagInserted(fs, j, bs[k].addr);
  }

  /** None of the free blocks whose addresses are in fs holds size bytes. */
  ghost predicate FirstIn(bs: seq<Block>, fs: seq<int>, size: nat) {
    forall i :: 0 <= i < |bs| && !bs[i].used && bs[i].addr in fs ==> bs[i].size < size
  }

  lemma NoneBefore(bs: seq<Block>, size: nat)
    ensures FirstIn(bs, [], size)
  {
  }

  lemma FirstInStep(bs: seq<Block>, fs: seq<int>, k: nat, size: nat)
    requires FirstIn(bs, fs, size) && k < |bs| && bs[k].size < size && DistinctBlocks(bs)
    ensures FirstIn(bs, fs + [bs[k].addr], size)
  {
  }

  lemma Searched(bs: seq<Block>, fs: seq<int>, size: nat)
    requires FirstIn(bs, fs, size) && multiset(fs) == FreeBag(bs)
    ensures forall i :: 0 <= i < |bs| && !bs[i].used ==> bs[i].size < size
  {
    forall i | 0 <= i < |bs| && !bs[i].used ensures bs[i].size < size {
      FreeBagAt(bs, bs[i].addr);
      assert bs[i].addr in multiset(fs);
    }
  }

  lemma CarveWhole(bs: seq<Block>, fs: seq<int>, k: nat, j: nat)
    requires multiset(fs) == FreeBag(bs) && k < |bs| && j < |fs| && fs[j] == bs[k].addr && !bs[k].used
    ensures var bs' := Mark(bs, k, true);
      multiset(Without(fs, j)) == FreeBag(bs') && FreeBytes(bs') == FreeBytes(bs) - bs[k].size
  {
    var bs' := Mark(bs, k, true);
    BagWithout(fs, j);
    MarkSummary(bs, k, true, HDR);
    CancelBag(multiset(Without(fs, j)), FreeBag(bs'), multiset{fs[j]});
  }

  lemma CarveSplit(bs: seq<Block>, fs: seq<int>, k: nat, j: nat, need: nat)
    requires multiset(fs) == FreeBag(bs) && k < |bs| && j < |fs| && fs[j] == bs[k].addr && !bs[k].used
    ensures var t := Split(bs, k, HDR, need);
      && multiset(Inserted(Without(fs, j), 0, bs[k].addr + HDR + need)) == FreeBag(Mark(t, k, true))
      && FreeBytes(Mark(t, k, true)) == FreeBytes(bs) - need - HDR
  {
    hide FreeBag, FreeBytes, Without, Inserted, Mark, Split;
    var y, t := bs[k].addr + HDR + need, Split(bs, k, HDR, need);
    SplitShape(bs, k, HDR, need);
    SplitSummary(bs, k, HDR, need);
    CarveWhole(t, fs + [y], k, j);
    BagWithoutSnoc(fs, j, y);
    BagInserted(Without(fs, j), 0, y);
  }

  /** What the split branch needs to know about the new block. */
  lemma CarveFront(magic: map<int, bool>, next: Links, prev: Links, bs: seq<Block>, fs: seq<int>, pool: int, k: nat,
          j: nat, need: nat)
    requires ListOk(magic, next, prev, bs, pool) && multiset(fs) == FreeBag(bs)
    requires k < |bs| && j < |fs| && bs[k].size >= need + HDR + MINIALLOC
    ensures var y, t := bs[k].addr + HDR + need, Split(bs, k, HDR, need);
      && y !in Without(fs, j) && 0 <= y && y + HDR <= pool
      && CarveHeaders(bs, k, need, MINIALLOC) == magic.Keys + {y}
      && Carve(bs, k, need, MINIALLOC) == Mark(t, k, true)
      && |t| == |bs| + 1 && t[k].addr == bs[k].addr
  {
    FreeBlockFresh(bs, fs, pool, k, bs[k].addr + HDR + need);
    SplitShape(bs, k, HDR, need);
  }

  lemma FreedTotals(bs: seq<Block>, fs: seq<int>, k: nat)
    requires k < |bs| && bs[k].used && multiset(fs) == FreeBag(bs)
    ensures FreeBag(Mark(bs, k, false)) == multiset(fs) + multiset{bs[k].addr}
    ensures FreeBytes(Mark(bs, k, false)) == FreeBytes(bs) + bs[k].size
  {
    MarkSummary(bs, k, false, HDR);
  }

  lemma MergeTotals(bs: seq<Block>, fs: seq<int>, k: nat, j: nat, extra: multiset<int>)
    requires k + 1 < |bs| && !bs[k].used && !bs[k + 1].used && j < |fs| && fs[j] == bs[k + 1].addr
    requires FreeBag(bs) == multiset(fs) + extra
    ensures FreeBag(Merge(bs, k, HDR)) == multiset(Without(fs, j)) + extra
    ensures FreeBytes(Merge(bs, k, HDR)) == FreeBytes(bs) + HDR
  {
    hide FreeBag, FreeBytes, Merge, Without;
    MergeSummary(bs, k, HDR);
    BagWithout(fs, j);
    CancelBag(FreeBag(Merge(bs, k, HDR)), multiset(Without(fs, j)) + extra, multiset{fs[j]});
  }

  /** Totals of the grown block list. */
  lemma GrownTotals(bs: seq<Block>, fs: seq<int>, k: nat, j: nat, n: nat)
    requires k + 1 < |bs| && bs[k].used && !bs[k + 1].used && multiset(fs) == FreeBag(bs)
    requires j < |fs| && fs[j] == bs[k + 1].addr
    ensures var t := Merge(bs, k, HDR); var u := Split(t, k, HDR, n);
      && FreeBag(t) == multiset(Without(fs, j))
      && FreeBag(u) == multiset(Inserted(Without(fs, j), 0, bs[k].addr + HDR + n))
      && FreeBytes(u) == FreeBytes(bs) - (n - bs[k].size)
  {
    hide FreeBag, FreeBytes, Merge, Split, Without, Inserted;
    var t := Merge(bs, k, HDR);
    MergeShape(bs, k);
    MergeSummary(bs, k, HDR);
    BagWithout(fs, j);
    CancelBag(FreeBag(t), multiset(Without(fs, j)), multiset{fs[j]});
    SplitSummary(t, k, HDR, n);
    BagInserted(Without(fs, j), 0, bs[k].addr + HDR + n);
  }

  lemma GrownCoalesced(bs: seq<Block>, k: nat, n: nat)
    requires Coalesced(bs) && k < |bs| - 2 && bs[k].used && !bs[k + 1].used
    ensures Coalesced(Split(Merge(bs, k, HDR), k, HDR, n))
  {
    hide Merge, Split;
    var t := Merge(bs, k, HDR);
    MergeShape(bs, k);
    SplitShape(t, k, HDR, n);
    var u := Split(t, k, HDR, n);
    forall i, j | 0 <= i < |u| && j == i + 1 < |u| ensures u[i].used || u[j].used {
      assert bs[i].used || bs[j].used;
    }
  }

  lemma GrownShape(magic: map<int, bool>, next: Links, prev: Links, bs: seq<Block>, pool: int, fs: seq<int>, k: nat,
          j: nat, n: nat)
    requires ListOk(magic, next, prev, bs, pool) && multiset(fs) == FreeBag(bs) && Coalesced(bs)
    requires k < |bs| - 2 && bs[k].used && !bs[k + 1].used && j < |fs| && fs[j] == bs[k + 1].addr
    requires bs[k].size < n && n + MINIALLOC < bs[k].size + bs[k + 1].size
    requires FreeBag(Merge(bs, k, HDR)) == multiset(Without(fs, j))
    ensures var t := Merge(bs, k, HDR);
      && |t| == |bs| - 1 && t[k] == Block(bs[k].addr, bs[k].size + HDR + bs[k + 1].size, true)
      && Coalesced(Split(t, k, HDR, n))
      && bs[k].addr + HDR + n !in Without(fs, j)
      && 0 <= bs[k].addr + HDR + n <= pool - HDR
  {
    hide FreeBag, Ring, Merge, Split;
    var t := Merge(bs, k, HDR);
    MergeShape(bs, k);
    MergeTiles(bs, k, HDR, 0, pool);
    FreeBlockFresh(t, Without(fs, j), pool, k, bs[k].addr + HDR + n);
    GrownCoalesced(bs, k, n);
  }

  lemma LastUsed(magic: map<int, bool>, next: Links, prev: Links, bs: seq<Block>, pool: int, k: nat)
    requires ListOk(magic, next, prev, bs, pool) && k < |bs| - 1
    ensures bs[|bs| - 1].used && bs[k].size >= 0
  {
  }

  /** Cutting a block does not change what its right neighbour is. */
  lemma SameRest(bs: seq<Block>, fs: seq<int>, k: nat, n: nat)
    requires k < |bs| - 1
    ensures Rid(Split(bs, k, HDR, n), fs, k + 1) == Rid(bs, fs, k)
  {
    hide Split, Drop;
    SplitShape(bs, k, HDR, n);
  }

  /** Neither does freeing it, alone or merged to the left. */
  lemma ReleasedRid(bs: seq<Block>, fs: seq<int>, k: nat)
    requires k < |bs| - 1
    ensures Rid(Mark(bs, k, false), fs, k) == Rid(bs, fs, k)
    ensures k > 0 ==> Rid(Merge(Mark(bs, k, false), k - 1, HDR), fs, k - 1) == Rid(bs, fs, k)
  {
    hide Mark, Merge, Drop;
    MarkShape(bs, k, false);
    if k > 0 {
      MergeShape(Mark(bs, k, false), k - 1);
    }
  }

  /** Everything the growth of block k in place relies on; j is where its neighbour stands on the free list. */
  lemma GrowReady(magic: map<int, bool>, next: Links, prev: Links, nextFree: Links, prevFree: Links,
                  bs: seq<Block>, pool: int, fs: seq<int>, k: nat, n: nat) returns (j: nat)
    requires ListOk(magic, next, prev, bs, pool) && multiset(fs) == FreeBag(bs) && Coalesced(bs)
    requires Ring(nextFree, prevFree, [FREE_LIST] + fs)
    requires k < |bs| - 2 && bs[k].used && !bs[k + 1].used
    requires bs[k].size < n && n + MINIALLOC < bs[k].size + bs[k + 1].size
    ensures var x, t := bs[k].addr, Merge(bs, k, HDR); var u := Split(t, k, HDR, n);
      && x in next && next[x] == bs[k + 1].addr && next[x] - x - HDR == bs[k].size
      && j < |fs| && fs[j] == bs[k + 1].addr && Rid(bs, fs, k) == Without(fs, j)
      && FreeBag(u) == multiset(Inserted(Without(fs, j), 0, x + HDR + n))
          && FreeBytes(u) == FreeBytes(bs) - (n - bs[k].size)
      && |t| == |bs| - 1 && t[k].addr == x && n + HDR <= t[k].size
      && Coalesced(u) && x + HDR + n !in Without(fs, j) && 0 <= x + HDR + n <= pool - HDR
  {
    hide ListOk, Ring, FreeBag, FreeBytes, Merge, Split, Coalesced, Drop, Rid, Without, Inserted;
    Neighbours(magic, next, prev, bs, pool, k);
    j := FreeIndex(bs, fs, k + 1, multiset{});
    RidIs(nextFree, prevFree, bs, fs, k, j);
    GrownTotals(bs, fs, k, j, n);
    GrownShape(magic, next, prev, bs, pool, fs, k, j, n);
  }

  lemma GrownLive(bs: seq<Block>, k: nat, n: nat, pool: int)
    requires Tiles(bs, HDR, 0, pool) && k + 1 < |bs| && bs[k].used && !bs[k + 1].used
    ensures Live(Split(Merge(bs, k, HDR), k, HDR, n)) == Live(bs) - {bs[k]} + {Block(bs[k].addr, n, true)}
  {
    hide Tiles, Merge, Split, Live;
    MergeShape(bs, k);
    SplitShape(Merge(bs, k, HDR), k, HDR, n);
    var t := Split(Merge(bs, k, HDR), k, HDR, n);
    var mid := [t[k], t[k + 1]];
    assert t == bs[..k] + mid + bs[k + 2..];
    LiveSplice(bs, t, k, 2, mid);
    LivePair(t[k], t[k + 1]);
    LivePair(bs[k], bs[k + 1]);
    assert bs[k..k + 2] == [bs[k], bs[k + 1]];
    OnlyOnce(bs, k, 2, pool);
    ReplaceOne(Live(bs), Live(t), Live(bs[..k]), Live(bs[k + 2..]), bs[k], t[k]);
  }

  /** The block grown in place replaces the old one and keeps its contents. */
  lemma GrownKeeps(d: seq<byte>, d': seq<byte>, magic: map<int, bool>, next: Links, prev: Links, bs: seq<Block>,
          pool: int, k: nat, n: nat)
    requires ListOk(magic, next, prev, bs, pool) && |d| == |d'| == pool
    requires k < |bs| - 2 && bs[k].used && !bs[k + 1].used
    requires bs[k].size < n && n + MINIALLOC < bs[k].size + bs[k + 1].size
    requires Kept(d, d', magic.Keys + {bs[k].addr + HDR + n})
    ensures var b, nb := bs[k], Block(bs[k].addr, n, true);
      && Live(Split(Merge(bs, k, HDR), k, HDR, n)) == Live(bs) - {b} + {nb}
      && SamePrefix(d, d', b, nb, b.size)
      && Preserved(d, d', Live(bs), b.addr)
  {
    var b, nb, y := bs[k], Block(bs[k].addr, n, true), bs[k].addr + HDR + n;
    GrownLive(bs, k, n, pool);
    assert bs[k + 1].addr == b.End(HDR);
    KeptPayloads(d, d', bs, pool, k + 1, magic.Keys + {y});
    AllApart(bs, HDR, 0, pool);
    PrefixOfPayload(d, d', b, nb, b.size);
  }

  lemma ShrunkShape(magic: map<int, bool>, next: Links, prev: Links, bs: seq<Block>, pool: int, fs: seq<int>, k: nat,
          n: nat)
    requires ListOk(magic, next, prev, bs, pool) && multiset(fs) == FreeBag(bs) && Coalesced(bs)
    requires k < |bs| - 1 && bs[k].used && n + HDR <= bs[k].size
    ensures var t, y := Split(bs, k, HDR, n), bs[k].addr + HDR + n;
      && |t| == |bs| + 1 && t[k] == Block(bs[k].addr, n, true)
      && t[k + 1] == Block(y, bs[k].size - n - HDR, false)
      && (forall i :: k + 1 < i < |t| ==> t[i] == bs[i - 1])
      && Coalesced(AbsorbRight(t, k + 1))
      && y !in fs
  {
    hide FreeBag, Ring, Split;
    ShrunkCoalesced(bs, k, n);
    FreeBlockFresh(bs, fs, pool, k, bs[k].addr + HDR + n);
  }

  lemma {:induction false} FreeBytesZero(bs: seq<Block>)
    requires forall i :: 0 <= i < |bs| ==> bs[i].size >= 0
    ensures FreeBytes(bs) >= 0
    ensures FreeBytes(bs) == 0 <==> forall i :: 0 <= i < |bs| && !bs[i].used ==> bs[i].size == 0
  {
    if bs != [] {
      var t := bs[1..];
      FreeBytesZero(t);
      assert forall i :: 0 <= i < |t| ==> t[i] == bs[i + 1];
      assert forall i :: 0 < i < |bs| ==> bs[i] == t[i - 1];
    }
  }

  /** rt_memheap_alloc compares the request with the total of free bytes before
      it looks at the blocks, and with `<`.  A request that fits some free block
      is turned away exactly when it asks for all the free bytes there are. */
  lemma RefusedFit(bs: seq<Block>, k: nat, need: nat)
    requires k < |bs| && !bs[k].used && bs[k].size >= need
    requires forall i :: 0 <= i < |bs| ==> bs[i].size >= 0
    ensures need >= FreeBytes(bs) <==>
      need == bs[k].size && forall i :: 0 <= i < |bs| && i != k && !bs[i].used ==> bs[i].size == 0
  {
    var a, c := bs[..k], bs[k + 1..];
    At(bs, k, HDR);
    FreeBytesZero(a);
    FreeBytesZero(c);
    assert forall i :: k < i < |bs| ==> bs[i] == c[i - k - 1];
    assert forall i :: 0 <= i < k ==> bs[i] == a[i];
  }

  /** In a fresh pool alloc refuses the largest request that fits its one free block. */
  lemma FreshPoolRefuses(pool: int)
    requires pool >= 2 * HDR && pool % ALIGN == 0
    ensures var bs := [Block(0, pool - 2 * HDR, false), Block(pool - HDR, 0, true)];
      Refused(bs, Rounded(pool - 2 * HDR))
  {
    InitialTotals(pool);
    RoundedUp(pool - 2 * HDR);
  }
}
