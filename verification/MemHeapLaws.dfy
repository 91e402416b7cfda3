/** What the calls of the memheap do, in plain numbers and lists. */
module MemHeapLaws {
  import opened Basics
  import opened Blocks
  import opened Rings
  import opened AllocClient
  import opened Payloads
  import opened BlockLaws
  import opened ClientViews
  import opened MemHeapLists
  import opened MemHeapRuns

  /** A request for n bytes takes m: the next multiple of 8, but no less than 16. */
  predicate Takes(n: nat, m: nat) { m % 8 == 0 && n <= m && 16 <= m && (m < n + 8 || m == 16) }

  lemma TakesRounded(n: nat, m: nat)
    requires Takes(n, m)
    ensures Rounded(n) == m && MINIALLOC == 16
  {
    assert m == m / 8 * 8;
  }

  /** The blocks that entries in front of j name are smaller than m bytes. */
  ghost predicate EarlierSmaller(l: Layout, j: nat, m: nat)
    requires j <= |l.frees|
  {
    forall i, x :: 0 <= i < j && 0 <= x < |l.blocks| && !l.blocks[x].used && l.blocks[x].addr == l.frees[i] ==>
                     l.blocks[x].size < m
  }

  /** Entry j of the free list, block k, is the first that holds m bytes and gives them at q; a rest of at
      least a header and 16 bytes heads the free list. */
  ghost predicate GivenFirst(l: Layout, k: nat, j: nat, m: nat, q: int, l': Layout) {
    && k < |l.blocks| && !l.blocks[k].used && m <= l.blocks[k].size && q == l.blocks[k].addr + HDR
    && j < |l.frees| && l.frees[j] == l.blocks[k].addr && EarlierSmaller(l, j, m)
    && l'.best == l.best && l'.blocks == Given(l.blocks, k, m, 16)
    && l'.frees == (if l.blocks[k].size < m + HDR + 16 then [] else [l.blocks[k].addr + HDR + m])
                   + l.frees[..j] + l.frees[j + 1..]
  }

  /** A request fails if and only if it takes all the free bytes or more, or more than every free block has.
      Otherwise the first block of the free list that is not smaller gives it. */
  lemma AllocPlain(l: Layout, n: nat, m: nat, r: Option<int>, mo: Moment<Layout>) returns (k: nat, j: nat)
    requires AllocatedBy(l, n, r, mo) && Takes(n, m)
    ensures r == None <==>
      m >= FreeBytes(l.blocks) || forall i :: 0 <= i < |l.blocks| && !l.blocks[i].used ==> l.blocks[i].size < m
    ensures if r == None then mo.after == l else GivenFirst(l, k, j, m, r.value, mo.after)
  {
    TakesRounded(n, m);
    hide Rounded, FreeBytes, FirstTaken, GivenFirst;
    k, j := 0, 0;
    if r.Some? {
      k, j :| FirstTaken(l, k, j, m, r.value, mo.after);
      TakenPlain(l, k, j, m, r.value, mo.after);
    }
  }

  lemma TakenPlain(l: Layout, k: nat, j: nat, m: nat, q: int, l': Layout)
    requires FirstTaken(l, k, j, m, q, l') && MINIALLOC == 16
    ensures GivenFirst(l, k, j, m, q, l')
  {
    hide Carve, Given, CarveFrees, FirstIn, EarlierSmaller;
    CarvePlain(l.blocks, k, m, 16);
    TakenFrees(l, k, j, m);
  }

  lemma TakenFrees(l: Layout, k: nat, j: nat, m: nat)
    requires k < |l.blocks| && j < |l.frees| && FirstIn(l.blocks, l.frees[..j], m) && MINIALLOC == 16
    ensures EarlierSmaller(l, j, m)
    ensures CarveFrees(l.blocks, l.frees, k, j, m) ==
      (if l.blocks[k].size < m + HDR + 16 then [] else [l.blocks[k].addr + HDR + m]) + l.frees[..j] + l.frees[j + 1..]
  {
    assert forall i :: 0 <= i < j ==> l.frees[i] in l.frees[..j];
  }

  /** So a request of at least 16 bytes that fails finds less than n + 8 bytes in all, or in each free block. */
  lemma FailsOnlyFull(l: Layout, n: nat, mo: Moment<Layout>, i: nat)
    requires AllocatedBy(l, n, None, mo) && n >= 16 && i < |l.blocks| && !l.blocks[i].used
    ensures FreeBytes(l.blocks) < n + 8 || l.blocks[i].size < n + 8
  {
    hide AllocatedBy, FreeBytes;
    var k, j := AllocPlain(l, n, (n + 7) / 8 * 8, None, mo);
  }

  lemma {:induction false} DropAt(fs: seq<int>, a: int) returns (j: nat)
    requires a in fs
    ensures j < |fs| && fs[j] == a && Drop(fs, a) == fs[..j] + fs[j + 1..]
  {
    if fs[0] == a {
      j := 0;
    } else {
      j := DropAt(fs[1..], a);
      assert fs[..j + 1] == [fs[0]] + fs[1..][..j];
      j := j + 1;
    }
  }

  /** fs' is fs without one entry a. */
  ghost predicate OneLess(fs: seq<int>, a: int, fs': seq<int>) {
    exists j :: 0 <= j < |fs| && fs[j] == a && fs' == fs[..j] + fs[j + 1..]
  }

  /** The free list without the right neighbour of block k, if that is free. */
  lemma RidPlain(bs: seq<Block>, fs: seq<int>, k: nat)
    requires k + 1 < |bs| && multiset(fs) == FreeBag(bs)
    ensures if bs[k + 1].used then Rid(bs, fs, k) == fs else OneLess(fs, bs[k + 1].addr, Rid(bs, fs, k))
  {
    hide Drop, FreeBag;
    if !bs[k + 1].used {
      FreeBagAt(bs, bs[k + 1].addr);
      assert bs[k + 1].addr in multiset(fs);
      var j := DropAt(fs, bs[k + 1].addr);
    }
  }

  /** Where the freed block stands: at the head, or in best mode behind the smaller ones. */
  ghost predicate PlacedAt(bs: seq<Block>, fs: seq<int>, b: Block, best: bool, fs': seq<int>) {
    exists i :: 0 <= i <= |fs| && fs' == fs[..i] + [b.addr] + fs[i..] && Ranked(bs, fs, b, best, i)
  }

  ghost predicate Ranked(bs: seq<Block>, fs: seq<int>, b: Block, best: bool, i: nat)
    requires i <= |fs|
  {
    if !best then i == 0
    else
      && (forall x, c :: 0 <= x < i && c in bs && c.addr == fs[x] ==> c.size < b.size)
      && (forall c :: i < |fs| && c in bs && c.addr == fs[i] ==> b.size <= c.size)
  }

  /** A freed block joins its free neighbours; the right one leaves the free list, and the block enters it
      unless it joined the left one. */
  lemma FreePlain(l: Layout, pool: int, k: nat, l': Layout) returns (mid: seq<int>)
    requires Tiles(l.blocks, HDR, 0, pool) && multiset(l.frees) == FreeBag(l.blocks)
    requires k < |l.blocks| - 1 && l.blocks[k].used && l.blocks[|l.blocks| - 1].used
    requires FreedAt(l, l.blocks[k].addr, l')
    ensures l'.best == l.best && l'.blocks == GivenBack(l.blocks, k)
    ensures if l.blocks[k + 1].used then mid == l.frees else OneLess(l.frees, l.blocks[k + 1].addr, mid)
    ensures if k > 0 && !l.blocks[k - 1].used then l'.frees == mid
            else PlacedAt(l'.blocks, mid, l'.blocks[k], l.best, l'.frees)
  {
    hide GivenBack, Tiles, FreeBag, Rid, ReleasedFrees;
    IndexHeld(l.blocks, pool, k);
    ReleasedPlain(l.blocks, pool, k);
    mid := Rid(l.blocks, l.frees, k);
    RidPlain(l.blocks, l.frees, k);
    FreeFrees(l, k, l', mid, pool);
  }

  lemma FreeFrees(l: Layout, k: nat, l': Layout, mid: seq<int>, pool: int)
    requires Tiles(l.blocks, HDR, 0, pool) && k < |l.blocks| - 1
    requires mid == Rid(l.blocks, l.frees, k) && l' == Freed(l, k) && l'.blocks == GivenBack(l.blocks, k)
    ensures if k > 0 && !l.blocks[k - 1].used then l'.frees == mid
            else PlacedAt(l'.blocks, mid, l'.blocks[k], l.best, l'.frees)
  {
    hide Released, Tiles, Rid;
    if !(k > 0 && !l.blocks[k - 1].used) {
      var b := l'.blocks[k];
      assert b.addr == l.blocks[k].addr;
      TilesDistinct(l.blocks, HDR, 0, pool);
      StillDistinct(l.blocks, k);
      SizeAtIndex(l'.blocks, k);
      var i := PlaceRanked(l'.blocks, mid, b, l.best);
      assert l'.frees == mid[..i] + [b.addr] + mid[i..];
    }
  }

  lemma StillDistinct(l: seq<Block>, k: nat)
    requires DistinctBlocks(l) && k + 1 < |l|
    ensures DistinctBlocks(GivenBack(l, k))
  {
    hide GivenBack;
    var u := GivenBack(l, k);
    forall i, j | 0 <= i < j < |u| ensures u[i].addr != u[j].addr {
      var x := StandsFor(l, k, i);
      var y := StandsFor(l, k, j);
    }
  }

  /** Block i of the joined list starts where block x of the list did. */
  lemma StandsFor(l: seq<Block>, k: nat, i: nat) returns (x: nat)
    requires k + 1 < |l| && i < |GivenBack(l, k)|
    ensures i <= x < |l| && GivenBack(l, k)[i].addr == l[x].addr
    ensures x == if i <= (if k > 0 && !l[k - 1].used then k - 1 else k) then i else i + (|l| - |GivenBack(l, k)|)
  {
    var lo, hi := if k > 0 && !l[k - 1].used then k - 1 else k, if l[k + 1].used then k + 1 else k + 2;
    x := if i <= lo then i else i - lo - 1 + hi;
  }

  lemma {:induction false} PlaceRanked(bs: seq<Block>, fs: seq<int>, b: Block, best: bool) returns (i: nat)
    requires DistinctBlocks(bs)
    ensures i == PlaceOf(bs, fs, b.size, best) && Ranked(bs, fs, b, best, i)
    decreases |fs|
  {
    i := PlaceOf(bs, fs, b.size, best);
    if best && fs != [] {
      forall c | c in bs && c.addr == fs[0] ensures SizeAt(bs, fs[0]) == c.size {
        var k :| 0 <= k < |bs| && bs[k] == c;
        SizeAtIndex(bs, k);
      }
      if i > 0 {
        var j := PlaceRanked(bs, fs[1..], b, best);
        assert forall x :: 0 < x < i ==> fs[x] == fs[1..][x - 1];
      }
    }
  }

  lemma ReleasedPlain(l: seq<Block>, pool: int, k: nat)
    requires Tiles(l, HDR, 0, pool) && k < |l| - 1 && l[|l| - 1].used
    ensures Released(l, k) == GivenBack(l, k)
  {
    hide Mark, AbsorbRight, Merge, Tiles, GivenBack;
    NextTo(l, pool, k);
    MarkPlain(l, k);
    var t := Mark(l, k, false);
    if k > 0 && !l[k - 1].used {
      NextTo(l, pool, k - 1);
      JoinLeft(l, t, k, k + 1, t[k]);
      LeftThenRight(l, k, Merge(t, k - 1, HDR));
    } else {
      RightJoined(l, k, t);
      WithRightOnly(l, k);
    }
  }

  lemma LeftThenRight(l: seq<Block>, k: nat, u: seq<Block>)
    requires 0 < k < |l| - 1 && !l[k - 1].used && l[k + 1].addr == l[k].addr + HDR + l[k].size
    requires u == l[..k - 1] + [Block(l[k - 1].addr, l[k].addr + l[k].size - l[k - 1].addr, false)] + l[k + 1..]
    ensures AbsorbRight(u, k - 1) == GivenBack(l, k)
  {
    hide AbsorbRight;
    assert u[k] == l[k + 1] && u[..k - 1] == l[..k - 1] && u[k + 1..] == l[k + 2..];
    AbsorbPlain(u, k - 1);
  }

  /** realloc of block k to a size n > 0 that takes m: a block that is large enough stays, and is cut if a header
      and more than 16 bytes are left over; one with a free right neighbour grows if more than 16 bytes of both
      are left over; any other is moved. */
  lemma ReallocPlain(l: Layout, pool: int, k: nat, n: nat, m: nat, r: Option<int>, mo: Moment<Layout>)
    requires Tiles(l.blocks, HDR, 0, pool) && multiset(l.frees) == FreeBag(l.blocks)
    requires k < |l.blocks| - 1 && l.blocks[k].used && l.blocks[|l.blocks| - 1].used
    requires ReallocatedAt(l, l.blocks[k].addr + HDR, n, r, mo) && 0 < n && Takes(n, m)
    ensures var b, c := l.blocks[k], l.blocks[k + 1];
      && (r == Some(b.addr + HDR) <==> m <= b.size || (!c.used && b.size + c.size > m + 16))
      && (r == Some(b.addr + HDR) ==> mo.mid == if m <= b.size then l else mo.after)
      && (b.size - HDR - 16 <= m <= b.size ==> mo.after == l)
      && (m < b.size - HDR - 16 ==> Behind(l, k, m, CutDown(l.blocks, k, m), mo.after))
      && (b.size < m && !c.used && b.size + c.size > m + 16 ==>
            Behind(l, k, m, l.blocks[..k]
                            + [Block(b.addr, m, true), Block(b.addr + HDR + m, b.size + c.size - m, false)]
                            + l.blocks[k + 2..], mo.after))
    ensures r != Some(l.blocks[k].addr + HDR) ==>
      && AllocatedBy(l, n, r, Moment(mo.mid, mo.mid)) && (r == None ==> mo.after == l)
      && (r.Some? ==> FreedAt(mo.mid, l.blocks[k].addr, mo.after))
  {
    hide Rounded, AbsorbRight, Split, Merge, Freed, Tiles, CutDown, Allocated, IndexOf, FreedAt, RestFirst;
    hide Behind, FreeBag;
    TakesRounded(n, m);
    IndexHeld(l.blocks, pool, k);
    BlockInPool(l.blocks, pool, k);
    CutPlain(l.blocks, k, m);
    GrownPlain(l.blocks, k, m);
    var b := l.blocks[k];
    if m <= b.size {
      RestPlain(l, k, m, CutDown(l.blocks, k, m));
    } else if Growable(l.blocks, k, m) {
      RestPlain(l, k, m, Grown(l, k, m).blocks);
    } else {
      MovePlain(l, pool, k, n, m, r, mo);
    }
  }

  /** The blocks are bs, and the rest behind the m bytes of block k heads the free list, which a free right
      neighbour has left. */
  ghost predicate Behind(l: Layout, k: nat, m: nat, bs: seq<Block>, l': Layout)
    requires k + 1 < |l.blocks|
  {
    && l'.best == l.best && l'.blocks == bs && l'.frees != [] && l'.frees[0] == l.blocks[k].addr + HDR + m
    && if l.blocks[k + 1].used then l'.frees[1..] == l.frees
       else OneLess(l.frees, l.blocks[k + 1].addr, l'.frees[1..])
  }

  lemma RestPlain(l: Layout, k: nat, m: nat, bs: seq<Block>)
    requires k + 1 < |l.blocks| && multiset(l.frees) == FreeBag(l.blocks)
    ensures Behind(l, k, m, bs, Layout(l.best, bs, RestFirst(l, k, m)))
  {
    hide FreeBag, Rid, OneLess;
    RidPlain(l.blocks, l.frees, k);
    var fs := Rid(l.blocks, l.frees, k);
    assert RestFirst(l, k, m)[1..] == fs;
  }

  lemma GrownPlain(l: seq<Block>, k: nat, m: nat)
    requires k + 1 < |l| && l[k].used
    ensures Split(Merge(l, k, HDR), k, HDR, m)
      == l[..k] + [Block(l[k].addr, m, true), Block(l[k].addr + HDR + m, l[k].size + l[k + 1].size - m, false)]
         + l[k + 2..]
  {
    hide Merge, Split;
    MergePlain(l, k);
    var u := Merge(l, k, HDR);
    assert u[..k] == l[..k] && u[k + 1..] == l[k + 2..];
    SplitPlain(u, k, m);
  }

  lemma MovePlain(l: Layout, pool: int, k: nat, n: nat, m: nat, r: Option<int>, mo: Moment<Layout>)
    requires Tiles(l.blocks, HDR, 0, pool) && k < |l.blocks| && l.blocks[k].used && r != Some(NULL) && Takes(n, m)
    requires Moved(l, k, m, Pointer(r), mo.mid, mo.after)
    ensures r != Some(l.blocks[k].addr + HDR)
    ensures (r == None ==> mo.after == l) && AllocatedBy(l, n, r, Moment(mo.mid, mo.mid))
    ensures r.Some? ==> FreedAt(mo.mid, l.blocks[k].addr, mo.after)
  {
    hide Rounded, Freed, Tiles, Allocated, Given, FreedAt, FreeBytes, EarlierSmaller;
    TakesRounded(n, m);
    var i, j := AllocPlain(l, n, m, r, Moment(mo.mid, mo.mid));
    if r.Some? {
      TilesDistinct(l.blocks, HDR, 0, pool);
    }
  }

  /** What is in use: the used blocks with their headers, and the headers of the free ones. */
  lemma UseIs(l: Layout, pool: int)
    requires Tiles(l.blocks, HDR, 0, pool)
    ensures Use(pool)(l) == UsedSpan(l.blocks, HDR) + FreeHeaders(l.blocks, HDR)
  {
    Conservation(l.blocks, HDR, 0, pool);
  }
}
