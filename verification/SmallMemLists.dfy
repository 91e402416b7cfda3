/** The offset-linked block chain of the small memory allocator as values. */
module SmallMemLists {
  import opened Basics
  import opened Blocks
  import opened Rings
  import opened AllocClient
  import opened Payloads

  /** MIN_SIZE: 24 with ARCH_CPU_64BIT, 12 without. */
  type MinSize = n: nat | n == 12 || n == 24 witness 12
  const MIN_SIZE: MinSize
  const MIN_SIZE_ALIGNED: nat := AlignUp(MIN_SIZE)

  ghost predicate Word(next: Links, prev: Links, bs: seq<Block>, i: nat)
    requires i < |bs|
  {
    var x := bs[i].addr;
    && x in next && x in prev
    && next[x] == bs[if i < |bs| - 1 then i + 1 else i].addr
    && (i < |bs| - 1 ==> prev[x] == bs[if i > 0 then i - 1 else 0].addr)
  }

  /** next runs from each block to the following one, the end block to itself;
      prev inverts it, the first block's prev is itself.  The prev word of the
      end block is left out: a split does not maintain it. */
  ghost predicate Chain(next: Links, prev: Links, bs: seq<Block>) {
    forall i :: 0 <= i < |bs| ==> Word(next, prev, bs, i)
  }

  /** The headers hold the block list bs of a heap of `mem` payload-or-header
      bytes between the first header and the end header. */
  ghost predicate ChainOk(magic: map<int, bool>, next: Links, prev: Links, bs: seq<Block>, mem: int) {
    && |bs| >= 2
    && Tiles(bs, HDR, 0, mem + 2 * HDR)
    && bs[|bs| - 1] == Block(mem + HDR, 0, true)
    && Tagged(magic, bs)
    && Chain(next, prev, bs)
  }

  /** Block l is the lowest free block, or the end block if there is none. */
  ghost predicate Lowest(bs: seq<Block>, l: nat) {
    && l < |bs|
    && (forall i :: 0 <= i < l ==> bs[i].used)
    && (bs[l].used ==> l == |bs| - 1)
  }

  function Rounded(n: nat): nat {
    if AlignUp(n) < MIN_SIZE_ALIGNED then MIN_SIZE_ALIGNED else AlignUp(n)
  }

  /** realloc leaves the block where it is: same size, or room for a free block behind. */
  predicate InPlace(size: int, newSize: int) {
    size == newSize || newSize + HDR + MIN_SIZE < size
  }

  lemma RoundedUp(n: nat)
    ensures Rounded(n) % ALIGN == 0 && Rounded(n) >= n && Rounded(n) > 0
    ensures AlignUp(n) % ALIGN == 0 && AlignUp(n) >= n && (n > 0 <==> AlignUp(n) > 0)
    ensures AlignUp(n) == (n + 7) / 8 * 8 < n + 8 && (n >= MIN_SIZE ==> Rounded(n) < n + 8)
    ensures AlignUp(AlignUp(n)) == AlignUp(n) && Rounded(AlignUp(n)) == Rounded(n) >= AlignUp(n)
  {
  }

  lemma ChainWords(magic: map<int, bool>, next: Links, prev: Links, bs: seq<Block>, mem: int, k: nat)
    requires ChainOk(magic, next, prev, bs, mem) && k < |bs| - 1
    ensures var x := bs[k].addr;
      && x in magic && magic[x] == bs[k].used
      && x in next && next[x] == bs[k + 1].addr && next[x] in magic && next[x] in next && next[x] in prev
      && magic[next[x]] == bs[k + 1].used
      && x in prev && prev[x] == bs[if k > 0 then k - 1 else 0].addr && prev[x] in magic
      && magic[prev[x]] == bs[if k > 0 then k - 1 else 0].used
      && bs[k].size == next[x] - x - HDR >= 0
      && 0 <= x && x + HDR <= next[x] && next[x] + HDR <= mem + 2 * HDR
      && (next[x] == mem + HDR <==> k + 1 == |bs| - 1)
      && (k > 0 ==> bs[k - 1].addr + HDR <= x)
      && bs[|bs| - 1] == Block(mem + HDR, 0, true)
  {
    assert Word(next, prev, bs, k) && Word(next, prev, bs, k + 1);
    assert bs[k + 1].addr == bs[k].End(HDR);
    AllApart(bs, HDR, 0, mem + 2 * HDR);
  }

  /** Later blocks have higher addresses, so comparing addresses compares positions. */
  lemma Positions(bs: seq<Block>, pool: int, i: nat, j: nat)
    requires Tiles(bs, HDR, 0, pool) && i < |bs| && j < |bs|
    ensures bs[i].addr < bs[j].addr <==> i < j
    ensures bs[i].addr == bs[j].addr <==> i == j
  {
    AllApart(bs, HDR, 0, pool);
  }

  // ----- splitting

  lemma SplitChain(magic: map<int, bool>, next: Links, prev: Links, bs: seq<Block>, mem: int, k: nat, n: nat)
    requires ChainOk(magic, next, prev, bs, mem) && k < |bs| - 1
    requires n % ALIGN == 0 && n + HDR <= bs[k].size
    ensures var x, y, z := bs[k].addr, bs[k].addr + HDR + n, bs[k + 1].addr;
      && y !in magic && 0 <= y && y + HDR <= mem + HDR
      && ChainOk(magic[y := false], next[y := z][x := y],
                 if z == mem + HDR then prev[y := x] else prev[y := x][z := y], Split(bs, k, HDR, n), mem)
  {
    hide Tiles, Tagged, Addrs, Split;
    FreshAddr(bs, mem + 2 * HDR, k, n);
    HeaderAt(magic, bs, mem + 2 * HDR, k);
    SplitTiles(bs, k, HDR, n, 0, mem + 2 * HDR);
    SplitTagged(magic, bs, k, n);
    SplitShape(bs, k, HDR, n);
    SplitLinks(next, prev, bs, mem, k, n);
    BelowEnd(bs, mem, k);
  }

  lemma BelowEnd(bs: seq<Block>, mem: int, k: nat)
    requires Tiles(bs, HDR, 0, mem + 2 * HDR) && k < |bs| - 1 && bs[|bs| - 1] == Block(mem + HDR, 0, true)
    ensures 0 <= bs[k].addr && bs[k].End(HDR) <= mem + HDR
  {
    AllApart(bs, HDR, 0, mem + 2 * HDR);
  }

  lemma SplitLinks(next: Links, prev: Links, bs: seq<Block>, mem: int, k: nat, n: nat)
    requires Tiles(bs, HDR, 0, mem + 2 * HDR) && Chain(next, prev, bs) && k < |bs| - 1
    requires bs[|bs| - 1] == Block(mem + HDR, 0, true) && n + HDR <= bs[k].size
    ensures var x, y, z := bs[k].addr, bs[k].addr + HDR + n, bs[k + 1].addr;
      Chain(next[y := z][x := y], if z == mem + HDR then prev[y := x] else prev[y := x][z := y], Split(bs, k, HDR, n))
  {
    hide Split, Tiles, Chain, Word;
    SplitShape(bs, k, HDR, n);
    var x, y, z := bs[k].addr, bs[k].addr + HDR + n, bs[k + 1].addr;
    var nx, pv := next[y := z][x := y], if z == mem + HDR then prev[y := x] else prev[y := x][z := y];
    AllWords(next, prev, bs);
    SplitApart(bs, mem, k, n);
    var t := Split(bs, k, HDR, n);
    forall i | 0 <= i < |t| ensures Word(nx, pv, t, i) {
      SplitWord(next, prev, bs, mem, k, n, t, i);
    }
    FromWords(nx, pv, t);
  }

  lemma AllWords(next: Links, prev: Links, bs: seq<Block>)
    requires Chain(next, prev, bs)
    ensures forall i :: 0 <= i < |bs| ==> Word(next, prev, bs, i)
  {
  }

  lemma FromWords(next: Links, prev: Links, bs: seq<Block>)
    requires forall i :: 0 <= i < |bs| ==> Word(next, prev, bs, i)
    ensures Chain(next, prev, bs)
  {
  }

  lemma SplitApart(bs: seq<Block>, mem: int, k: nat, n: nat)
    requires Tiles(bs, HDR, 0, mem + 2 * HDR) && k < |bs| - 1
    requires bs[|bs| - 1] == Block(mem + HDR, 0, true) && n + HDR <= bs[k].size
    ensures forall i, j :: 0 <= i < j < |bs| ==> bs[i].addr != bs[j].addr
    ensures forall i :: 0 <= i < |bs| ==> bs[i].addr != bs[k].addr + HDR + n
    ensures forall i :: 0 <= i < |bs| - 1 ==> bs[i].addr < mem + HDR
  {
    AllApart(bs, HDR, 0, mem + 2 * HDR);
  }

  lemma SplitWord(next: Links, prev: Links, bs: seq<Block>, mem: int, k: nat, n: nat, t: seq<Block>, i: nat)
    requires k < |bs| - 1 && |t| == |bs| + 1 && i < |t| && bs[|bs| - 1].addr == mem + HDR
    requires forall j :: 0 <= j < |bs| ==> Word(next, prev, bs, j)
    requires forall a, b :: 0 <= a < b < |bs| ==> bs[a].addr != bs[b].addr
    requires forall j :: 0 <= j < |bs| ==> bs[j].addr != bs[k].addr + HDR + n
    requires forall j :: 0 <= j < |bs| - 1 ==> bs[j].addr < mem + HDR
    requires forall j :: 0 <= j <= k ==> t[j].addr == bs[j].addr
    requires t[k + 1].addr == bs[k].addr + HDR + n
    requires forall j :: k + 1 < j < |t| ==> t[j].addr == bs[j - 1].addr
    ensures var x, y, z := bs[k].addr, bs[k].addr + HDR + n, bs[k + 1].addr;
      Word(next[y := z][x := y], if z == mem + HDR then prev[y := x] else prev[y := x][z := y], t, i)
  {
    var o := if i <= k then i else i - 1;
    assert Word(next, prev, bs, o);
    assert Word(next, prev, bs, k + 1);
  }

  // ----- merging and marking

  lemma MergeChain(magic: map<int, bool>, next: Links, prev: Links, bs: seq<Block>, mem: int, k: nat)
    requires ChainOk(magic, next, prev, bs, mem) && k < |bs| - 2
    ensures var x, y, z := bs[k].addr, bs[k + 1].addr, bs[k + 2].addr;
      ChainOk(magic - {y}, next[x := z], prev[z := x], Merge(bs, k, HDR), mem)
  {
    hide Tiles, Tagged, Addrs, Merge, Chain, Word;
    var x, y, z := bs[k].addr, bs[k + 1].addr, bs[k + 2].addr;
    var nx, pv, t := next[x := z], prev[z := x], Merge(bs, k, HDR);
    Ordering(bs, mem + 2 * HDR);
    MergeTiles(bs, k, HDR, 0, mem + 2 * HDR);
    MergeTagged(magic, bs, k);
    MergeShape(bs, k);
    AllWords(next, prev, bs);
    forall i | 0 <= i < |t| ensures Word(nx, pv, t, i) {
      MergeWord(next, prev, bs, k, t, i);
    }
    FromWords(nx, pv, t);
  }

  lemma Ordering(bs: seq<Block>, pool: int)
    requires Tiles(bs, HDR, 0, pool)
    ensures Apart(bs, HDR)
    ensures forall i :: 0 <= i < |bs| ==> bs[i].size >= 0
    ensures forall i, j :: 0 <= i < j < |bs| ==> bs[i].addr != bs[j].addr
  {
    AllApart(bs, HDR, 0, pool);
  }

  lemma MergeWord(next: Links, prev: Links, bs: seq<Block>, k: nat, t: seq<Block>, i: nat)
    requires k < |bs| - 2 && |t| == |bs| - 1 && i < |t|
    requires forall j :: 0 <= j < |bs| ==> Word(next, prev, bs, j)
    requires forall a, b :: 0 <= a < b < |bs| ==> bs[a].addr != bs[b].addr
    requires forall j :: 0 <= j <= k ==> t[j].addr == bs[j].addr
    requires forall j :: k < j < |t| ==> t[j].addr == bs[j + 1].addr
    ensures Word(next[bs[k].addr := bs[k + 2].addr], prev[bs[k + 2].addr := bs[k].addr], t, i)
  {
    assert Word(next, prev, bs, if i <= k then i else i + 1);
    assert Word(next, prev, bs, k + 2);
  }

  lemma MarkChain(magic: map<int, bool>, next: Links, prev: Links, bs: seq<Block>, mem: int, k: nat, u: bool)
    requires ChainOk(magic, next, prev, bs, mem) && k < |bs| - 1
    ensures ChainOk(magic[bs[k].addr := u], next, prev, Mark(bs, k, u), mem)
  {
    hide Tiles, Tagged, Addrs, Mark, Chain, Word;
    Ordering(bs, mem + 2 * HDR);
    MarkTiles(bs, k, u, HDR, 0, mem + 2 * HDR);
    MarkTagged(magic, bs, k, u);
    MarkShape(bs, k, u);
    var t := Mark(bs, k, u);
    AllWords(next, prev, bs);
    forall i | 0 <= i < |t| ensures Word(next, prev, t, i) {
      SameWord(next, prev, bs, t, i);
    }
    FromWords(next, prev, t);
  }

  lemma SameWord(next: Links, prev: Links, bs: seq<Block>, t: seq<Block>, i: nat)
    requires i < |bs| == |t| && Word(next, prev, bs, i)
    requires forall j :: 0 <= j < |bs| ==> t[j].addr == bs[j].addr
    ensures Word(next, prev, t, i)
  {
  }

  // ----- freeing

  /** Where lfree may stand when plug_holes is called for free block k: at the
      lowest free block, or at one of the blocks about to be merged with it. */
  ghost predicate NearLowest(bs: seq<Block>, k: nat, l: nat) {
    && k < |bs| - 1 && l < |bs|
    && (bs[l].used ==> l == |bs| - 1)
    && forall i :: 0 <= i < l && !bs[i].used ==>
         (i == k || i == k - 1) && l <= k + 1 && !bs[l].used
  }

  /** Merge free block k with its right, then with its left neighbour. */
  ghost function Plugged(bs: seq<Block>, k: nat): seq<Block>
    requires k < |bs|
  {
    var t := AbsorbRight(bs, k);
    if k > 0 && !t[k - 1].used then Merge(t, k - 1, HDR) else t
  }

  /** plug_holes and the memheap's free coalesce to the same list. */
  lemma PluggedReleased(bs: seq<Block>, k: nat)
    requires k < |bs| - 1 && bs[|bs| - 1].used && !bs[k].used
    ensures var t := Plugged(bs, k);
      var lo, hi := if k > 0 && !bs[k - 1].used then k - 1 else k, if !bs[k + 1].used then k + 2 else k + 1;
      && |t| == lo + 1 + (|bs| - hi) && !t[lo].used && t[lo].addr == bs[lo].addr
      && (forall i :: 0 <= i < lo ==> t[i] == bs[i])
      && (forall i :: lo < i < |t| ==> t[i] == bs[i - lo - 1 + hi])
  {
    hide Merge, AbsorbRight;
    AbsorbShape(bs, k);
    var t := AbsorbRight(bs, k);
    if k > 0 && !t[k - 1].used {
      MergeShape(t, k - 1);
    }
  }

  /** plug_holes leaves lfree at the lowest free block. */
  lemma PluggedLowest(bs: seq<Block>, k: nat, l: nat, l': nat)
    requires k < |bs| - 1 && bs[|bs| - 1].used && !bs[k].used && NearLowest(bs, k, l)
    requires l' == Min(l, if k > 0 && !bs[k - 1].used then k - 1 else k)
    ensures Lowest(Plugged(bs, k), l')
  {
    hide Plugged;
    PluggedReleased(bs, k);
  }

  lemma PluggedSpan(bs: seq<Block>, k: nat)
    requires k < |bs| && !bs[k].used
    ensures UsedSpan(Plugged(bs, k), HDR) == UsedSpan(bs, HDR)
  {
    hide UsedSpan, Merge;
    var t := bs;
    if k + 1 < |bs| && !bs[k + 1].used {
      MergeSummary(bs, k, HDR);
      MergeShape(bs, k);
      t := Merge(bs, k, HDR);
    }
    if k > 0 && !t[k - 1].used {
      MergeSummary(t, k - 1, HDR);
    }
  }

  /** Freeing coalesces and takes exactly block k out of the live blocks. */
  lemma FreedOk(bs: seq<Block>, k: nat)
    requires Coalesced(bs) && k < |bs| - 1 && bs[k].used && bs[|bs| - 1].used
    requires forall i :: 0 <= i < |bs| && i != k ==> bs[i] != bs[k]
    ensures var t := Plugged(Mark(bs, k, false), k); Coalesced(t) && Live(t) == Live(bs) - {bs[k]}
  {
    hide Plugged, Live, Coalesced, Mark;
    MarkShape(bs, k, false);
    PluggedReleased(Mark(bs, k, false), k);
    ReleasedLive(bs, k, Plugged(Mark(bs, k, false), k),
      if k > 0 && !bs[k - 1].used then k - 1 else k, if !bs[k + 1].used then k + 2 else k + 1);
  }

  /** Comparing lfree with the addresses at hand compares positions. */
  lemma Where(magic: map<int, bool>, next: Links, prev: Links, bs: seq<Block>, mem: int, k: nat, l: nat)
    requires ChainOk(magic, next, prev, bs, mem) && NearLowest(bs, k, l) && !bs[k].used
    ensures l <= k + 1
    ensures bs[l].addr == bs[k].addr <==> l == k
    ensures bs[l].addr == bs[k + 1].addr <==> l == k + 1
    ensures bs[k].addr != bs[k + 1].addr && (k > 0 ==> bs[k - 1].addr != bs[k].addr)
    ensures l == k + 1 ==> !bs[k + 1].used
  {
    Ordering(bs, mem + 2 * HDR);
  }

  lemma ChainTiles(magic: map<int, bool>, next: Links, prev: Links, bs: seq<Block>, mem: int)
    requires ChainOk(magic, next, prev, bs, mem)
    ensures Tiles(bs, HDR, 0, mem + 2 * HDR) && magic.Keys == Addrs(bs)
    ensures |bs| >= 2 && bs[|bs| - 1] == Block(mem + HDR, 0, true)
  {
  }

  /** Marking block k free: totals and the place of lfree. */
  lemma FreedLow(magic: map<int, bool>, next: Links, prev: Links, bs: seq<Block>, mem: int, k: nat, l: nat)
    requires ChainOk(magic, next, prev, bs, mem) && k < |bs| - 1 && bs[k].used && Lowest(bs, l)
    ensures var t := Mark(bs, k, false);
      && UsedSpan(t, HDR) == UsedSpan(bs, HDR) - (HDR + bs[k].size)
      && (bs[k].addr < bs[l].addr <==> k < l)
      && |t| == |bs| && t[k] == Block(bs[k].addr, bs[k].size, false)
      && (forall i :: 0 <= i < |bs| ==> t[i].addr == bs[i].addr)
      && NearLowest(t, k, if k < l then k else l)
  {
    hide UsedSpan, Mark, Chain;
    assert Word(next, prev, bs, k) by { AllWords(next, prev, bs); }
    assert bs[k + 1].addr == bs[k].End(HDR);
    MarkSummary(bs, k, false, HDR);
    MarkShape(bs, k, false);
    Positions(bs, mem + 2 * HDR, k, l);
  }

  /** The words rt_smem_init writes. */
  lemma InitialChain(mem: int)
    requires mem >= 0 && mem % ALIGN == 0
    ensures var end := mem + HDR; var bs := [Block(0, mem, false), Block(end, 0, true)];
      && ChainOk(map[0 := false, end := true], map[0 := end, end := end], map[0 := 0, end := end], bs, mem)
      && UsedSpan(bs, HDR) == HDR
  {
    hide UsedSpan, Tiles, Tagged, Addrs;
    InitialSums(mem);
  }

  lemma InitialSums(mem: int)
    requires mem >= 0 && mem % ALIGN == 0
    ensures var end := mem + HDR; var bs := [Block(0, mem, false), Block(end, 0, true)];
      UsedSpan(bs, HDR) == HDR && Tiles(bs, HDR, 0, mem + 2 * HDR) && Tagged(map[0 := false, end := true], bs)
  {
    hide Tiles, Tagged, Addrs, FreeBytes, FreeBag;
    var x, y := Block(0, mem, false), Block(mem + HDR, 0, true);
    TwoBlocks(mem);
    assert [x, y] == [x] + [y] && [y] == [y] + [];
    ConsSums(x, [y], HDR);
    ConsSums(y, [], HDR);
  }

  // ----- allocating

  lemma CarvedSpan(bs: seq<Block>, k: nat, need: nat)
    requires k < |bs| && !bs[k].used
    ensures UsedSpan(Carve(bs, k, need, MIN_SIZE_ALIGNED), HDR) == UsedSpan(bs, HDR) + HDR
      + (if bs[k].size >= need + HDR + MIN_SIZE_ALIGNED then need else bs[k].size)
  {
    hide UsedSpan, Split, Mark;
    SplitShape(bs, k, HDR, need);
    SplitSummary(bs, k, HDR, need);
    MarkSummary(Split(bs, k, HDR, need), k, true, HDR);
    MarkSummary(bs, k, true, HDR);
  }

  /** Where lfree stands after block k has been carved. */
  lemma CarvedLow(bs: seq<Block>, k: nat, need: nat, l: nat)
    requires k < |bs| - 1 && !bs[k].used && Lowest(bs, l) && bs[|bs| - 1].used
    ensures var t := Carve(bs, k, need, MIN_SIZE_ALIGNED);
      && l <= k && |t| >= |bs| && t[l].addr == bs[l].addr && t[k].used && k < |t| - 1
      && (forall i :: 0 <= i < l ==> t[i].used) && t[|t| - 1].used
      && (l < k ==> !t[l].used)
  {
    hide Split, Mark;
    SplitShape(bs, k, HDR, need);
    MarkShape(bs, k, true);
    MarkShape(Split(bs, k, HDR, need), k, true);
  }

  lemma EndAddr(magic: map<int, bool>, next: Links, prev: Links, bs: seq<Block>, mem: int)
    requires ChainOk(magic, next, prev, bs, mem)
    ensures |bs| >= 2 && bs[|bs| - 1] == Block(mem + HDR, 0, true)
    ensures bs[|bs| - 1].addr in magic && magic[bs[|bs| - 1].addr]
    ensures forall i :: 0 <= i < |bs| - 1 ==> 0 <= bs[i].addr && bs[i].size >= 0 && bs[i].End(HDR) <= mem + HDR
    ensures Apart(bs, HDR)
  {
    AllApart(bs, HDR, 0, mem + 2 * HDR);
  }

  lemma SizesBounded(magic: map<int, bool>, next: Links, prev: Links, bs: seq<Block>, mem: int)
    requires ChainOk(magic, next, prev, bs, mem)
    ensures mem >= 0 && forall i :: 0 <= i < |bs| ==> bs[i].size <= mem
  {
    EndAddr(magic, next, prev, bs, mem);
  }

  // ----- shrinking in place

  /** Splitting used block k in front of lfree or behind it. */
  lemma SplitLow(bs: seq<Block>, mem: int, k: nat, n: nat, l: nat)
    requires Tiles(bs, HDR, 0, mem + 2 * HDR) && Lowest(bs, l) && k < |bs| - 1 && bs[k].used
    requires n + HDR <= bs[k].size && Coalesced(bs)
    ensures var t, y := Split(bs, k, HDR, n), bs[k].addr + HDR + n;
      && (y < bs[l].addr <==> k < l)
      && (l < k ==> t[l].addr == bs[l].addr)
      && t[k + 1].addr == y && !t[k + 1].used
      && NearLowest(t, k + 1, if k < l then k + 1 else l)
  {
    hide Split, Coalesced;
    AllApart(bs, HDR, 0, mem + 2 * HDR);
    SplitShape(bs, k, HDR, n);
  }

  lemma ShrunkPlugged(bs: seq<Block>, k: nat, n: nat)
    requires k < |bs| - 1 && bs[k].used
    ensures Plugged(Split(bs, k, HDR, n), k + 1) == AbsorbRight(Split(bs, k, HDR, n), k + 1)
  {
    hide Split, Merge;
    SplitShape(bs, k, HDR, n);
    if k + 2 < |bs| + 1 && !Split(bs, k, HDR, n)[k + 2].used {
      MergeShape(Split(bs, k, HDR, n), k + 1);
    }
  }

  // ----- what each call does to the block list

  /** alloc takes the first block in address order that holds need bytes. */
  ghost predicate FirstTaken(bs: seq<Block>, k: nat, need: nat, q: int, bs': seq<Block>) {
    && TakenAt(bs, k, need, MIN_SIZE_ALIGNED, q, bs')
    && forall i :: 0 <= i < k && !bs[i].used ==> bs[i].size < need
  }

  /** What alloc of n bytes does. */
  ghost predicate Allocated(bs: seq<Block>, n: nat, q: int, bs': seq<Block>) {
    && (q == NULL <==> n == 0 || NoneFits(bs, Rounded(n)))
    && if q == NULL then bs' == bs else exists k :: FirstTaken(bs, k, Rounded(n), q, bs')
  }

  lemma IsAllocated(bs: seq<Block>, k: nat, n: nat, q: int, bs': seq<Block>)
    requires q == NULL <==> n == 0 || NoneFits(bs, Rounded(n))
    requires if q == NULL then bs' == bs else FirstTaken(bs, k, Rounded(n), q, bs')
    ensures Allocated(bs, n, q, bs')
  {
  }

  /** Block k has been freed. */
  ghost function Freed(bs: seq<Block>, k: nat): seq<Block>
    requires k < |bs|
  {
    Plugged(Mark(bs, k, false), k)
  }

  /** What realloc of block k to the aligned size n does: nothing, a cut, or allocation and
      release.  mid is the list before the release. */
  ghost predicate Reallocated(bs: seq<Block>, k: nat, n: nat, q: int, mid: seq<Block>, bs': seq<Block>)
    requires k < |bs|
  {
    if InPlace(bs[k].size, n) then
      && q == bs[k].addr + HDR && mid == bs
      && bs' == if bs[k].size == n then bs else AbsorbRight(Split(bs, k, HDR, n), k + 1)
    else Moved(bs, k, n, q, mid, bs')
  }

  ghost predicate Moved(bs: seq<Block>, k: nat, n: nat, q: int, mid: seq<Block>, bs': seq<Block>)
    requires k < |bs|
  {
    && Allocated(bs, n, q, mid)
    && if q == NULL then bs' == bs
       else FreedAt(mid, bs[k].addr, bs')
  }

  /** The block at address a has been freed. */
  ghost predicate FreedAt(bs: seq<Block>, a: int, bs': seq<Block>) {
    IndexOf(bs, a) < |bs| && bs' == Freed(bs, IndexOf(bs, a))
  }

  lemma NotMoved(bs: seq<Block>, k: nat, n: nat)
    requires k < |bs| && NoneFits(bs, Rounded(n))
    ensures Moved(bs, k, n, NULL, bs, bs)
  {
  }

  lemma IsMoved(bs: seq<Block>, k: nat, n: nat, q: int, mid: seq<Block>, k2: nat, bs': seq<Block>, pool: int)
    requires k < |bs| && k2 < |mid| && mid[k2].addr == bs[k].addr && Tiles(mid, HDR, 0, pool)
    requires Allocated(bs, n, q, mid) && q != NULL && bs' == Freed(mid, k2)
    ensures Moved(bs, k, n, q, mid, bs')
  {
    TilesDistinct(mid, HDR, 0, pool);
    IndexIs(mid, k2);
    hide Freed, Allocated;
  }

  // ----- what the methods need to know of the chain

  /** The size word of one block. */
  lemma WordsOf(magic: map<int, bool>, next: Links, prev: Links, bs: seq<Block>, mem: int, k: nat)
    requires ChainOk(magic, next, prev, bs, mem) && k < |bs| - 1
    ensures var x := bs[k].addr; x in next && next[x] - x - HDR == bs[k].size >= 0 && 0 <= x
    ensures Tiles(bs, HDR, 0, mem + 2 * HDR) && bs[|bs| - 1] == Block(mem + HDR, 0, true)
  {
    ChainWords(magic, next, prev, bs, mem, k);
  }

  /** What the header of block l says of it, and of the block behind. */
  lemma AtLow(magic: map<int, bool>, next: Links, prev: Links, bs: seq<Block>, mem: int, l: nat)
    requires ChainOk(magic, next, prev, bs, mem) && l < |bs|
    ensures var x := bs[l].addr;
      && (x == mem + HDR <==> l == |bs| - 1) && x in magic && magic[x] == bs[l].used
      && (l < |bs| - 1 ==> x in next && next[x] == bs[l + 1].addr)
  {
    AllApart(bs, HDR, 0, mem + 2 * HDR);
    if l < |bs| - 1 {
      ChainWords(magic, next, prev, bs, mem, l);
    }
  }

  lemma HeadersOf(magic: map<int, bool>, next: Links, prev: Links, bs: seq<Block>, mem: int)
    requires ChainOk(magic, next, prev, bs, mem)
    ensures magic.Keys == Addrs(bs) && Tiles(bs, HDR, 0, mem + 2 * HDR)
  {
  }

  /** No block grows beyond the heap. */
  lemma TooBig(magic: map<int, bool>, next: Links, prev: Links, bs: seq<Block>, mem: int, n: nat)
    requires ChainOk(magic, next, prev, bs, mem) && n > mem && AlignUp(n) == n
    ensures NoneFits(bs, Rounded(n))
    ensures forall k: nat :: k < |bs| ==> !InPlace(bs[k].size, n) && Moved(bs, k, n, NULL, bs, bs)
  {
    hide ChainOk, AlignUp;
    SizesBounded(magic, next, prev, bs, mem);
    RoundedUp(n);
    forall k: nat | k < |bs| ensures Moved(bs, k, n, NULL, bs, bs) {
      NotMoved(bs, k, n);
    }
  }

  /** Two blocks lie apart inside the heap. */
  lemma PairInHeap(magic: map<int, bool>, next: Links, prev: Links, bs: seq<Block>, mem: int, i: nat, j: nat)
    requires ChainOk(magic, next, prev, bs, mem) && i < |bs| && j < |bs| && i != j
    ensures Tiles(bs, HDR, 0, mem + 2 * HDR)
    ensures 0 <= bs[i].addr && bs[i].End(HDR) <= mem + 2 * HDR && 0 <= bs[j].addr && bs[j].End(HDR) <= mem + 2 * HDR
    ensures bs[i].End(HDR) <= bs[j].addr || bs[j].End(HDR) <= bs[i].addr
  {
    PairApart(bs, mem + 2 * HDR, i, j);
  }

  /** Everything the free of block k relies on. */
  lemma FreeReady(magic: map<int, bool>, next: Links, prev: Links, bs: seq<Block>, mem: int, k: nat, l: nat)
    requires ChainOk(magic, next, prev, bs, mem) && Lowest(bs, l) && Coalesced(bs) && k < |bs| - 1 && bs[k].used
    ensures var t, x := Mark(bs, k, false), bs[k].addr;
      && x in next && 0 <= x <= next[x] && magic.Keys == Addrs(bs) && Tiles(bs, HDR, 0, mem + 2 * HDR)
      && UsedSpan(Freed(bs, k), HDR) == UsedSpan(bs, HDR) - (next[x] - x)
      && (x < bs[l].addr <==> k < l) && l < |bs|
      && |t| == |bs| && t[k] == Block(x, bs[k].size, false) && (k >= l ==> t[l].addr == bs[l].addr)
      && NearLowest(t, k, if k < l then k else l)
      && Freed(bs, k) == Plugged(t, k) && Coalesced(Freed(bs, k)) && Live(Freed(bs, k)) == Live(bs) - {bs[k]}
  {
    hide Plugged, UsedSpan, Mark, Live, Coalesced, NearLowest, Lowest;
    ChainWords(magic, next, prev, bs, mem, k);
    FreedLow(magic, next, prev, bs, mem, k, l);
    PluggedSpan(Mark(bs, k, false), k);
    TilesDistinct(bs, HDR, 0, mem + 2 * HDR);
    FreedOk(bs, k);
    InChain(bs, l);
  }

  lemma InChain(bs: seq<Block>, l: nat)
    requires Lowest(bs, l)
    ensures l < |bs|
  {
  }

  /** Everything the shrinking of block k relies on. */
  lemma ShrinkReady(magic: map<int, bool>, next: Links, prev: Links, bs: seq<Block>, mem: int, k: nat, n: nat, l: nat)
    requires ChainOk(magic, next, prev, bs, mem) && Lowest(bs, l) && Coalesced(bs) && k < |bs| - 1 && bs[k].used
    requires n + HDR <= bs[k].size
    ensures var t, x, y := Split(bs, k, HDR, n), bs[k].addr, bs[k].addr + HDR + n;
      && x in next && next[x] - x - HDR == bs[k].size && magic.Keys == Addrs(bs)
      && UsedSpan(Plugged(t, k + 1), HDR) == UsedSpan(bs, HDR) - (bs[k].size - n)
      && (y < bs[l].addr <==> k < l) && l < |bs| && (k >= l ==> l < |t| && t[l].addr == bs[l].addr)
      && k + 1 < |t| && t[k + 1].addr == y && !t[k + 1].used
      && NearLowest(t, k + 1, if k < l then k + 1 else l)
      && Plugged(t, k + 1) == AbsorbRight(t, k + 1) && Coalesced(AbsorbRight(t, k + 1))
  {
    hide UsedSpan, Split, Plugged, AbsorbRight, Coalesced, NearLowest;
    ChainWords(magic, next, prev, bs, mem, k);
    ShrunkCoalesced(bs, k, n);
    SplitSummary(bs, k, HDR, n);
    SplitShape(bs, k, HDR, n);
    SplitLow(bs, mem, k, n, l);
    ShrunkPlugged(bs, k, n);
    PluggedSpan(Split(bs, k, HDR, n), k + 1);
  }

  /** Allocation of block k1, the copy and the release of block k2, which was block k, make a move. */
  lemma MovedOk(d0: seq<byte>, d1: seq<byte>, d3: seq<byte>, bs0: seq<Block>, mid: seq<Block>, bs: seq<Block>,
                k: nat, k1: nat, k2: nat, n: nat, q: int, pool: int)
    requires Tiles(bs0, HDR, 0, pool) && Tiles(mid, HDR, 0, pool) && k < |bs0| && k1 < |mid| && k2 < |mid|
    requires mid[k2] == bs0[k] && bs0[k].size >= 0 && bs0[k] in Live(bs0) && bs0[k].addr == mid[k2].addr
      && q == mid[k1].addr + HDR && q != NULL
    requires TakenHere(bs0, k1, n, q, mid)
    requires Live(mid) == Live(bs0) + {mid[k1]} && mid[k1] !in Live(bs0)
    requires Preserved(d0, d1, Live(bs0), NULL) && Preserved(d1, d3, Live(mid) - {mid[k1]}, bs0[k].addr)
    requires SamePrefix(d1, d3, mid[k2], mid[k1], Min(bs0[k].size, n))
    requires bs == Freed(mid, k2) && Live(bs) == Live(mid) - {mid[k2]}
    ensures Moved(bs0, k, n, q, mid, bs) && Live(bs) == Live(bs0) - {bs0[k]} + {mid[k1]}
    ensures SamePrefix(d0, d3, bs0[k], mid[k1], Min(bs0[k].size, n)) && Preserved(d0, d3, Live(bs0), bs0[k].addr)
    ensures mid[k1].addr != bs0[k].addr
  {
    Positions(mid, pool, k1, k2);
    hide Tiles, Live, Preserved, SamePrefix, Freed, Allocated, Moved;
    var b, nb := bs0[k], mid[k1];
    LiveAddrs(bs0, pool);
    MoveKeeps(d0, d1, d3, Live(bs0), b, nb, Min(b.size, n));
    LiveMoved(Live(bs0), Live(mid), b, nb);
    IsAllocated(bs0, k1, n, q, mid);
    IsMoved(bs0, k, n, q, mid, k2, bs, pool);
  }

  /** alloc of n bytes has succeeded with block k. */
  ghost predicate TakenHere(bs: seq<Block>, k: nat, n: nat, q: int, bs': seq<Block>) {
    FirstTaken(bs, k, Rounded(n), q, bs') && n > 0 && !NoneFits(bs, Rounded(n))
  }
}
