/** rt_memheap: the boundary-tag allocator with an address-ordered block list
    and a free list.  Addresses are offsets into the pool; each header word is
    a map from header address to value, and writing any word of a header
    scribbles over the HDR pool bytes the header occupies. */
module MemHeaps {
  import opened Basics
  import opened Blocks
  import opened Rings
  import opened AllocClient
  import opened Payloads
  import opened MemHeapLists

  class MemHeap {
    const poolSize: int
    const bestMode: bool          // RT_MEMHEAP_BEST_MODE
    var magic: map<int, bool>     // header -> RT_MEMHEAP_IS_USED
    var next: Links
    var prev: Links
    var nextFree: Links
    var prevFree: Links
    var data: seq<byte>
    var available: int
    var maxUsed: int

    ghost var blocks: seq<Block>  // the block list, in address order
    ghost var frees: seq<int>     // the free list, from its header on

    /** The block list by itself. */
    ghost predicate BlocksOk()
      reads this
    {
      ListOk(magic, next, prev, blocks, poolSize) && |data| == poolSize
    }

    /** The free list by itself; its members lie in Z. */
    ghost predicate FreesOk(Z: set<int>)
      reads this`nextFree, this`prevFree, this`frees
    {
      && Ring(nextFree, prevFree, [FREE_LIST] + frees)
      && forall i :: 0 <= i < |frees| ==> frees[i] in Z && 0 <= frees[i] && frees[i] + HDR <= poolSize
    }

    ghost predicate Valid()
      reads this
    {
      && BlocksOk()
      && Coalesced(blocks)
      && Ring(nextFree, prevFree, [FREE_LIST] + frees)
      && multiset(frees) == FreeBag(blocks)
      && available == FreeBytes(blocks)
      && maxUsed >= poolSize - available
    }

    /** The free list of a valid heap lies in its headers. */
    lemma FreesReady(Z: set<int>)
      requires BlocksOk() && Ring(nextFree, prevFree, [FREE_LIST] + frees) && multiset(frees) == FreeBag(blocks)
      requires magic.Keys <= Z
      ensures FreesOk(Z)
    {
      hide ListOk, Ring, FreeBag;
      FreesInPool(magic, next, prev, blocks, poolSize, frees);
    }

    lemma FreesRing(Z: set<int>)
      requires FreesOk(Z)
      ensures Ring(nextFree, prevFree, [FREE_LIST] + frees)
    {
    }

    ghost function View(): Layout
      reads this
    {
      Layout(bestMode, blocks, frees)
    }

    /** rt_memheap_init: one free block over the whole pool and the used tail. */
    constructor (memory: seq<byte>, best: bool)
      requires AlignDown(|memory|) >= 2 * HDR
      ensures Valid() && bestMode == best && poolSize == AlignDown(|memory|) == |memory| - |memory| % 8
      ensures blocks == [Block(0, poolSize - 2 * HDR, false), Block(poolSize - HDR, 0, true)]
      ensures maxUsed == poolSize - available
    {
      var size := AlignDown(|memory|);
      poolSize, bestMode, data := size, best, memory[..size];
      available := size - 2 * HDR;
      maxUsed := size - (size - 2 * HDR);
      var tail := 0 + (size - 2 * HDR) + HDR;
      magic := map[0 := false, tail := true];
      next := map[0 := tail, tail := 0];
      prev := map[0 := tail, tail := 0];
      nextFree := map[0 := FREE_LIST, FREE_LIST := 0, tail := NULL];
      prevFree := map[0 := FREE_LIST, FREE_LIST := 0, tail := NULL];
      blocks := [Block(0, size - 2 * HDR, false), Block(size - HDR, 0, true)];
      frees := [0];
      new;
      hide ListOk, Ring, FreeBag, FreeBytes;
      InitialList(size);
    }

    /** The program stores a byte. */
    method Store(a: int, v: byte)
      requires Valid() && 0 <= a < poolSize
      modifies `data
      ensures Valid() && data == old(data)[a := v]
    {
      data := data[a := v];
    }

    // ----- header words

    /** Any word of the header at a has been written. */
    method Touch(a: int, ghost Z: set<int>)
      requires a == FREE_LIST || (a in Z && 0 <= a && a + HDR <= |data|)
      modifies `data
      ensures Kept(old(data), data, Z) && |data| == |old(data)|
    {
      var junk: seq<byte> := *;
      if a != FREE_LIST && |junk| == HDR {
        data := data[..a] + junk + data[a + HDR..];
      }
    }

    /** The neighbours of x on the free list are joined to each other. */
    method RemoveFree(x: int, ghost j: nat, ghost Z: set<int>)
      requires FreesOk(Z) && |data| == poolSize && j < |frees| && frees[j] == x
      modifies `nextFree, `prevFree, `data, `frees
      ensures FreesOk(Z) && frees == Without(old(frees), j)
      ensures Kept(old(data), data, Z) && |data| == |old(data)|
    {
      ghost var r := [FREE_LIST] + frees;
      RemoveFromRing(nextFree, prevFree, r, j + 1);
      prevFree := prevFree[nextFree[x] := prevFree[x]];
      Touch(nextFree[x], Z);
      nextFree := nextFree[prevFree[x] := nextFree[x]];
      Touch(prevFree[x], Z);
      frees := Without(frees, j);
      assert [FREE_LIST] + frees == Without(r, j + 1);
    }

    /** Remove x from the free list and clear its free list words. */
    method TakeFree(x: int, ghost j: nat, ghost Z: set<int>)
      requires FreesOk(Z) && |data| == poolSize && j < |frees| && frees[j] == x
      modifies `nextFree, `prevFree, `data, `frees
      ensures FreesOk(Z) && frees == Without(old(frees), j)
      ensures Kept(old(data), data, Z) && |data| == |old(data)|
    {
      ghost var r := [FREE_LIST] + frees;
      assert x == r[j + 1];
      RemoveFree(x, j, Z);
      ghost var r' := [FREE_LIST] + frees;
      assert r' == Without(r, j + 1);
      WithoutLacks(r, j + 1);
      ForgetNode(nextFree, prevFree, r', x, NULL);
      nextFree := nextFree[x := NULL];
      prevFree := prevFree[x := NULL];
      Touch(x, Z);
    }

    /** The first entry of the free list. */
    function FirstFree(): (n: int)
      requires Ring(nextFree, prevFree, [FREE_LIST] + frees)
      reads this
      ensures n == if |frees| > 0 then frees[0] else FREE_LIST
    {
      ghost var r := [FREE_LIST] + frees;
      assert Node(nextFree, prevFree, r[0], r[Succ(|r|, 0)], r[Pred(|r|, 0)]);
      nextFree[FREE_LIST]
    }

    /** Put x in front of n, which is free list entry j or the list header. */
    method InsertFree(n: int, x: int, ghost j: nat, ghost Z: set<int>)
      requires FreesOk(Z) && |data| == poolSize && j <= |frees| && n == if j < |frees| then frees[j] else FREE_LIST
      requires x in Z && 0 <= x && x + HDR <= |data| && x !in frees
      modifies `nextFree, `prevFree, `data, `frees
      ensures FreesOk(Z) && frees == Inserted(old(frees), j, x)
      ensures Kept(old(data), data, Z) && |data| == |old(data)|
    {
      hide Ring, Inserted;
      FreesInserted(nextFree, prevFree, frees, j, x, n);
      InsertedMembers(frees, j, x);
      var p := prevFree[n];
      nextFree := nextFree[x := n];
      prevFree := prevFree[x := p];
      Touch(x, Z);
      nextFree := nextFree[p := x];
      Touch(p, Z);
      prevFree := prevFree[n := x];
      Touch(n, Z);
      frees := Inserted(frees, j, x);
    }

    /** Put y at the head of the free list. */
    method InsertFirst(y: int, ghost Z: set<int>)
      requires FreesOk(Z) && |data| == poolSize && y in Z && 0 <= y && y + HDR <= poolSize && y !in frees
      modifies `nextFree, `prevFree, `data, `frees
      ensures FreesOk(Z) && frees == Inserted(old(frees), 0, y)
      ensures Kept(old(data), data, Z) && |data| == |old(data)|
    {
      hide Ring, Kept;
      var first := FirstFree();
      InsertFree(first, y, 0, Z);
    }

    /** A fresh free header y, behind n payload bytes of x, is linked in between x and
        what followed it. */
    method SplitBlock(x: int, y: int, n: int, ghost k: nat, ghost Z: set<int>)
      requires BlocksOk() && k < |blocks| - 1 && blocks[k].addr == x
      requires 0 <= n && n % ALIGN == 0 && n + HDR <= blocks[k].size && y == x + HDR + n
      requires magic.Keys + {y} <= Z
      modifies `magic, `next, `prev, `data, `blocks
      ensures BlocksOk() && blocks == Split(old(blocks), k, HDR, n)
      ensures magic.Keys == old(magic.Keys) + {y}
      ensures Kept(old(data), data, Z)
    {
      hide ListOk, Split, InHeader;
      SplitList(magic, next, prev, blocks, poolSize, k, n);
      var n0 := next[x];
      magic := magic[y := false];
      prev := prev[y := x];
      next := next[y := n0];
      Touch(y, Z);
      prev := prev[n0 := y];
      Touch(n0, Z);
      next := next[x := y];
      Touch(x, Z);
      blocks := Split(blocks, k, HDR, n);
    }

    /** Block x absorbs its right neighbour y: x and what follows y are joined to each other,
        and y's header stops being one. */
    method Absorb(x: int, y: int, ghost k: nat, ghost Z: set<int>)
      requires BlocksOk() && k < |blocks| - 2 && blocks[k].addr == x && blocks[k + 1].addr == y
      requires magic.Keys <= Z
      modifies `magic, `next, `prev, `data, `blocks
      ensures BlocksOk() && blocks == Merge(old(blocks), k, HDR)
      ensures magic.Keys == old(magic.Keys) - {y}
      ensures Kept(old(data), data, Z)
    {
      hide ListOk, Merge, InHeader;
      MergeList(magic, next, prev, blocks, poolSize, k);
      prev := prev[next[y] := x];
      Touch(next[y], Z);
      next := next[x := next[y]];
      Touch(x, Z);
      magic := magic - {y};
      blocks := Merge(blocks, k, HDR);
    }

    /** Store the magic word of block k. */
    method SetUsed(x: int, used: bool, ghost k: nat, ghost Z: set<int>)
      requires BlocksOk() && k < |blocks| - 1 && blocks[k].addr == x
      requires magic.Keys <= Z
      modifies `magic, `data, `blocks
      ensures BlocksOk() && blocks == Mark(old(blocks), k, used)
      ensures magic.Keys == old(magic.Keys)
      ensures Kept(old(data), data, Z)
    {
      hide Kept, ListOk, Mark;
      MarkList(magic, next, prev, blocks, poolSize, k, used);
      magic := magic[x := used];
      Touch(x, Z);
      blocks := Mark(blocks, k, used);
    }

    // ----- rt_memheap_alloc

    function ItemSize(x: int): int
      requires x in next
      reads this
    {
      next[x] - x - HDR
    }

    /** Walk the free list for the first block of at least `size` bytes. */
    method FirstFit(size: nat) returns (x: int, freeSize: int, ghost j: nat, ghost k: nat)
      requires Valid() && size > 0
      ensures freeSize < size ==> forall i :: 0 <= i < |blocks| && !blocks[i].used ==> blocks[i].size < size
      ensures freeSize >= size ==>
        && j < |frees| && frees[j] == x
        && k < |blocks| - 1 && blocks[k] == Block(x, freeSize, false)
        && FirstIn(blocks, frees[..j], size)
    {
      hide ListOk, Ring, FreeBag, FreeBytes, Coalesced, FirstIn;
      x := FirstFree();
      freeSize, j, k := 0, 0, 0;
      NoneBefore(blocks, size);
      FreesNotHead(nextFree, prevFree, frees);
      while x != FREE_LIST && freeSize < size
        invariant j <= |frees| && x == if j < |frees| then frees[j] else FREE_LIST
        invariant FirstIn(blocks, frees[..j], size)
        invariant freeSize < size || (j < |frees| && k < |blocks| - 1 && blocks[k] == Block(x, freeSize, false))
        decreases |frees| - j, if freeSize < size then 1 else 0
      {
        NextFree(nextFree, prevFree, frees, j);
        k := FreeBlockAt(magic, next, prev, blocks, poolSize, frees, j);
        freeSize := ItemSize(x);
        if freeSize < size {
          x := nextFree[x];
          assert frees[..j + 1] == frees[..j] + [frees[j]];
          FirstInStep(blocks, frees[..j], k, size);
          j := j + 1;
        }
      }
      if freeSize < size {
        assert frees[..j] == frees;
        Searched(blocks, frees, size);
      }
    }

    method Alloc(n: nat) returns (p: int, ghost k: nat, ghost j: nat)
      requires Valid()
      modifies this
      ensures Valid()
      ensures p == NULL ==> blocks == old(blocks) && frees == old(frees) && data == old(data) && maxUsed == old(maxUsed)
      ensures p == NULL <==>
        Refused(old(blocks), Rounded(n))
      ensures p == NULL && n >= MINIALLOC ==> FreeBytes(old(blocks)) < n + 8 || NoneFits(old(blocks), n + 8)
      ensures p != NULL ==>
        && k < |old(blocks)| - 1 && !old(blocks)[k].used && old(blocks)[k].size >= Rounded(n)
        && j < |old(frees)| && old(frees)[j] == old(blocks)[k].addr == p - HDR
        && FirstIn(old(blocks), old(frees)[..j], Rounded(n))
        && blocks == Carve(old(blocks), k, Rounded(n), MINIALLOC)
        && frees == CarveFrees(old(blocks), old(frees), k, j, Rounded(n))
      ensures p != NULL ==>
        && k < |blocks| - 1 && blocks[k].addr == p - HDR && blocks[k].used && blocks[k].size >= Rounded(n)
        && Live(blocks) == Live(old(blocks)) + {blocks[k]} && blocks[k] !in Live(old(blocks))
      ensures Preserved(old(data), data, Live(old(blocks)), NULL)
      ensures maxUsed == Max(old(maxUsed), poolSize - available)
    {
      hide Kept, InHeader, Ring, Tiles, Tagged, Coalesced, Preserved, Live, FirstIn, FreeBag, FreeBytes, Split, Mark,
           Without, Inserted;
      PreservedRefl(data, Live(blocks), NULL);
      var size := AlignUp(n);
      if size < MINIALLOC {
        size := MINIALLOC;
      }
      k, j := 0, 0;
      if size < available {
        var x, freeSize;
        x, freeSize, j, k := FirstFit(size);
        if freeSize >= size {
          HeaderAt(magic, blocks, poolSize, k);
          if freeSize >= size + HDR + MINIALLOC {
            TakeFront(x, size, j, k);
          } else {
            TakeWhole(x, freeSize, j, k);
          }
          CarveCoalesced(old(blocks), k, size, MINIALLOC);
          CarvePreserves(old(data), data, old(blocks), k, size, MINIALLOC, poolSize);
          CarveLive(old(blocks), k, size, MINIALLOC, poolSize);
          return x + HDR, k, j;
        }
      }
      return NULL, k, j;
    }

    /** The split branch of rt_memheap_alloc. */
    method TakeFront(x: int, size: nat, ghost j: nat, ghost k: nat)
      requires Valid() && size % ALIGN == 0
      requires j < |frees| && frees[j] == x
      requires k < |blocks| - 1 && blocks[k].addr == x && !blocks[k].used && blocks[k].size >= size + HDR + MINIALLOC
      modifies this
      ensures BlocksOk() && Ring(nextFree, prevFree, [FREE_LIST] + frees)
      ensures blocks == Carve(old(blocks), k, size, MINIALLOC)
        && frees == CarveFrees(old(blocks), old(frees), k, j, size)
      ensures multiset(frees) == FreeBag(blocks) && available == FreeBytes(blocks)
      ensures maxUsed == Max(old(maxUsed), poolSize - available)
      ensures Kept(old(data), data, CarveHeaders(old(blocks), k, size, MINIALLOC))
    {
      hide InHeader, ListOk, Ring, Coalesced, FreeBag, FreeBytes, Carve, CarveHeaders, Split, Mark, Without,
           Inserted, FreesOk;
      var y := x + size + HDR;
      ghost var Z := CarveHeaders(blocks, k, size, MINIALLOC);
      CarveFront(magic, next, prev, blocks, frees, poolSize, k, j, size);
      FreesReady(Z);
      CarveSplit(blocks, frees, k, j, size);
      SplitBlock(x, y, size, k, Z);
      TakeFree(x, j, Z);
      InsertFirst(y, Z);
      FreesRing(Z);
      Charge(size + HDR);
      SetUsed(x, true, k, Z);
    }

    /** The other branch: the block is handed out whole. */
    method TakeWhole(x: int, freeSize: int, ghost j: nat, ghost k: nat)
      requires Valid() && j < |frees| && frees[j] == x
      requires k < |blocks| - 1 && blocks[k] == Block(x, freeSize, false)
      modifies this
      ensures BlocksOk() && Ring(nextFree, prevFree, [FREE_LIST] + frees)
      ensures blocks == Mark(old(blocks), k, true) && frees == Without(old(frees), j)
      ensures multiset(frees) == FreeBag(blocks) && available == FreeBytes(blocks)
      ensures maxUsed == Max(old(maxUsed), poolSize - available)
      ensures Kept(old(data), data, Addrs(old(blocks)))
    {
      hide InHeader, Tiles, Ring, Tagged, Coalesced, FreeBag, FreeBytes;
      ghost var Z := magic.Keys;
      HeaderAt(magic, blocks, poolSize, k);
      FreesInPool(magic, next, prev, blocks, poolSize, frees);
      CarveWhole(blocks, frees, k, j);
      Charge(freeSize);
      TakeFree(x, j, Z);
      SetUsed(x, true, k, Z);
    }

    // ----- rt_memheap_free

    /** Merge block y with its free right neighbour, which leaves the free list. */
    method AbsorbFree(x: int, ghost k: nat, ghost Z: set<int>, ghost extra: multiset<int>)
      requires BlocksOk() && FreesOk(Z) && magic.Keys <= Z
      requires k < |blocks| - 2 && blocks[k].addr == x && !blocks[k].used && !blocks[k + 1].used
      requires FreeBag(blocks) == multiset(frees) + extra && blocks[k + 1].addr !in extra
      modifies `magic, `next, `prev, `nextFree, `prevFree, `data, `blocks, `frees
      ensures BlocksOk() && FreesOk(Z) && magic.Keys <= Z
      ensures FreeBag(blocks) == multiset(frees) + extra
      ensures FreeBytes(blocks) == FreeBytes(old(blocks)) + HDR
      ensures blocks == Merge(old(blocks), k, HDR) && forall f :: f in frees ==> f in old(frees)
      ensures frees == Drop(old(frees), old(blocks)[k + 1].addr)
      ensures Kept(old(data), data, Z)
    {
      hide ListOk, Ring, Kept, FreeBag, FreeBytes, Merge, Drop;
      Neighbours(magic, next, prev, blocks, poolSize, k);
      ghost var j := FreeIndex(blocks, frees, k + 1, extra);
      RingDrop(nextFree, prevFree, frees, j);
      MergeTotals(blocks, frees, k, j, extra);
      var y := next[x];
      Absorb(x, y, k, Z);
      RemoveFree(y, j, Z);
      KeptTrans(Z);
    }

    /** Merge freed block x into its free left neighbour. */
    method MergeLeft(x: int, ghost k: nat, ghost Z: set<int>)
      requires BlocksOk() && FreesOk(Z) && magic.Keys <= Z
      requires 0 < k < |blocks| - 1 && blocks[k].addr == x && !blocks[k].used && !blocks[k - 1].used
      requires FreeBag(blocks) == multiset(frees) + multiset{x}
      requires available == FreeBytes(blocks)
      modifies `available, `magic, `next, `prev, `data, `blocks
      ensures BlocksOk() && FreesOk(Z) && magic.Keys <= Z
      ensures FreeBag(blocks) == multiset(frees)
      ensures available == FreeBytes(blocks) >= old(available)
      ensures blocks == Merge(old(blocks), k - 1, HDR)
      ensures Kept(old(data), data, Z)
    {
      hide ListOk, Ring, Kept, FreeBag, FreeBytes, Merge;
      Neighbours(magic, next, prev, blocks, poolSize, k);
      MergeSummary(blocks, k - 1, HDR);
      CancelBag(FreeBag(Merge(blocks, k - 1, HDR)), multiset(frees), multiset{x});
      available := available + HDR;
      Absorb(prev[x], x, k - 1, Z);
    }

    /** Merge freed block x to the right, then put it on the free list unless a
        left merge already made it part of a free block. */
    method FreeTail(x: int, insertHeader: bool, ghost k: nat, ghost Z: set<int>)
      requires BlocksOk() && FreesOk(Z) && magic.Keys <= Z
      requires k < |blocks| - 1 && blocks[k].addr == x && !blocks[k].used
      requires FreeBag(blocks) == multiset(frees) + (if insertHeader then multiset{x} else multiset{})
      requires insertHeader ==> x !in frees
      requires available == FreeBytes(blocks)
      modifies this
      ensures BlocksOk() && Ring(nextFree, prevFree, [FREE_LIST] + frees)
      ensures multiset(frees) == FreeBag(blocks)
      ensures available == FreeBytes(blocks) >= old(available) && maxUsed == old(maxUsed)
      ensures blocks == AbsorbRight(old(blocks), k)
      ensures var mid := Rid(old(blocks), old(frees), k);
              frees == if insertHeader then Inserted(mid, PlaceOf(blocks, mid, SizeAt(blocks, x), bestMode), x) else mid
      ensures Kept(old(data), data, Z)
    {
      hide ListOk, Ring, Kept, FreeBag, FreeBytes, Merge, Drop, PlaceOf, SizeAt;
      KeptTrans(Z);
      ghost var extra := if insertHeader then multiset{x} else multiset{};
      Neighbours(magic, next, prev, blocks, poolSize, k);
      if !magic[next[x]] {
        available := available + HDR;
        AbsorbFree(x, k, Z, extra);
        MergeShape(old(blocks), k);
      }
      if insertHeader {
        InsertFreed(x, k, Z);
      }
    }

    method InsertFreed(x: int, ghost k: nat, ghost Z: set<int>)
      requires BlocksOk() && FreesOk(Z) && magic.Keys <= Z
      requires k < |blocks| - 1 && blocks[k].addr == x && x !in frees
      requires FreeBag(blocks) == multiset(frees) + multiset{x}
      modifies `nextFree, `prevFree, `data, `frees
      ensures BlocksOk() && FreesOk(Z)
      ensures multiset(frees) == FreeBag(blocks)
      ensures frees == Inserted(old(frees), PlaceOf(blocks, old(frees), SizeAt(blocks, x), bestMode), x)
      ensures Kept(old(data), data, Z)
    {
      hide ListOk, Ring, Kept, FreeBag, PlaceOf, SizeAt;
      var n, j := InsertionPoint(x, k, Z);
      InsertAt(magic, next, prev, blocks, poolSize, frees, k, j, Z);
      InsertFree(n, x, j, Z);
    }

    /** Where rt_memheap_free inserts: in front of the first free block, or,
        with RT_MEMHEAP_BEST_MODE, of the first one that is not smaller. */
    method InsertionPoint(x: int, ghost k: nat, ghost Z: set<int>) returns (n: int, ghost j: nat)
      requires BlocksOk() && FreesOk(Z) && multiset(frees) <= FreeBag(blocks)
      requires k < |blocks| - 1 && blocks[k].addr == x
      ensures j <= |frees| && n == if j < |frees| then frees[j] else FREE_LIST
      ensures j == PlaceOf(blocks, frees, SizeAt(blocks, x), bestMode)
    {
      hide ListOk, FreeBag, SizeAt, Drop;
      Neighbours(magic, next, prev, blocks, poolSize, k);
      n, j := FirstFree(), 0;
      if bestMode {
        var blkSize := ItemSize(x);
        AddrsDistinct(magic, next, prev, blocks, poolSize);
        SizeAtIndex(blocks, k);
        while n != FREE_LIST
          invariant j <= |frees| && n == if j < |frees| then frees[j] else FREE_LIST
          invariant forall i :: 0 <= i < j ==> SizeAt(blocks, frees[i]) < blkSize
          decreases |frees| - j
        {
          ghost var b := FreeBlockAt(magic, next, prev, blocks, poolSize, frees, j);
          SizeAtIndex(blocks, b);
          if blkSize <= ItemSize(n) {
            break;
          }
          NextFree(nextFree, prevFree, frees, j);
          n, j := nextFree[n], j + 1;
        }
        FreesNotHead(nextFree, prevFree, frees);
        PlaceIs(blocks, frees, blkSize, j);
      }
    }

    method Free(p: int, ghost k: nat)
      requires Valid()
      requires p != NULL ==> k < |blocks| - 1 && blocks[k].used && blocks[k].addr == p - HDR
      modifies this
      ensures Valid()
      ensures p == NULL ==> blocks == old(blocks) && frees == old(frees) && data == old(data)
      ensures p != NULL ==> blocks == Released(old(blocks), k)
      ensures p != NULL ==> frees == ReleasedFrees(old(blocks), blocks, old(frees), k, bestMode)
      ensures p != NULL ==> Live(blocks) == Live(old(blocks)) - {old(blocks)[k]}
      ensures Preserved(old(data), data, Live(old(blocks)), p - HDR)
      ensures maxUsed == old(maxUsed) && available >= old(available)
    {
      hide ListOk, Tiles, Addrs, Ring, Kept, FreeBag, FreeBytes, Coalesced, Preserved, Live, FreesOk, Released,
           ReleasedFrees;
      ListTiles(magic, next, prev, blocks, poolSize);
      if p == NULL {
        PreservedRefl(data, Live(blocks), p - HDR);
        return;
      }
      Release(p - HDR, k);
      FreePreserves(old(data), data, old(blocks), poolSize, k);
      ReleasedOk(old(blocks), k);
    }

    /** Block x becomes free and is merged with its free neighbours. */
    method Release(x: int, ghost k: nat)
      requires Valid() && k < |blocks| - 1 && blocks[k].used && blocks[k].addr == x
      modifies this
      ensures BlocksOk() && Ring(nextFree, prevFree, [FREE_LIST] + frees)
      ensures multiset(frees) == FreeBag(blocks)
      ensures available == FreeBytes(blocks) >= old(available) && maxUsed == old(maxUsed)
      ensures blocks == Released(old(blocks), k)
      ensures frees == ReleasedFrees(old(blocks), blocks, old(frees), k, bestMode)
      ensures Kept(old(data), data, old(magic.Keys))
    {
      hide ListOk, Tiles, Addrs, Ring, Kept, FreeBag, FreeBytes, Merge, Mark, Coalesced, Drop, PlaceOf, SizeAt, FreesOk,
           Rid, Inserted;
      ghost var Z := magic.Keys;
      FreesReady(Z);
      UsedNotFree(magic, next, prev, blocks, poolSize, frees, k);
      FreedTotals(blocks, frees, k);
      LastUsed(magic, next, prev, blocks, poolSize, k);
      ReleasedRid(blocks, frees, k);
      KeptTrans(Z);
      SetUsed(x, false, k, Z);
      MarkShape(old(blocks), k, false);
      Neighbours(magic, next, prev, blocks, poolSize, k);
      available := available + ItemSize(x);
      if !magic[prev[x]] {
        var l := prev[x];
        MergeLeft(x, k, Z);
        MergeShape(Mark(old(blocks), k, false), k - 1);
        FreeTail(l, false, k - 1, Z);
      } else {
        FreeTail(x, true, k, Z);
      }
    }

    // ----- rt_memheap_realloc

    /** Grow block x into its free right neighbour, whose rest becomes a new free block. */
    method GrowInPlace(x: int, newSize: nat, ghost k: nat)
      requires Valid() && newSize % ALIGN == 0
      requires k < |blocks| - 2 && blocks[k].addr == x && blocks[k].used && !blocks[k + 1].used
      requires blocks[k].size < newSize && newSize + MINIALLOC < blocks[k].size + blocks[k + 1].size
      modifies this
      ensures Valid()
      ensures View() == Grown(old(View()), k, newSize)
      ensures blocks == Split(Merge(old(blocks), k, HDR), k, HDR, newSize)
      ensures maxUsed == Max(old(maxUsed), poolSize - available)
      ensures Kept(old(data), data, old(magic.Keys) + {x + HDR + newSize})
    {
      hide ListOk, Ring, FreeBag, FreeBytes, Merge, Split, Coalesced, Kept, InHeader, Drop, Rid, Without, Inserted,
           FreesOk;
      var y := x + HDR + newSize;
      ghost var Z := magic.Keys + {y};
      KeptTrans(Z);
      FreesReady(Z);
      ghost var j := GrowReady(magic, next, prev, nextFree, prevFree, blocks, poolSize, frees, k, newSize);
      var n := next[x];
      Charge(newSize - ItemSize(x));
      RemoveFree(n, j, Z);
      Absorb(x, n, k, Z);
      SplitBlock(x, y, newSize, k, Z);
      InsertFirst(y, Z);
      FreesRing(Z);
    }

    /** n bytes fewer are available. */
    method Charge(n: int)
      modifies `available, `maxUsed
      ensures available == old(available) - n && maxUsed == Max(old(maxUsed), poolSize - available)
    {
      available := available - n;
      if poolSize - available > maxUsed {
        maxUsed := poolSize - available;
      }
    }

    /** Cut block x down to newSize bytes; the rest is freed and merged to the right. */
    method Shrink(x: int, newSize: nat, ghost k: nat)
      requires Valid() && newSize % ALIGN == 0
      requires k < |blocks| - 1 && blocks[k].addr == x && blocks[k].used
      requires newSize + HDR + MINIALLOC < blocks[k].size
      modifies this
      ensures Valid()
      ensures View() == Cut(old(View()), k, newSize)
      ensures blocks == AbsorbRight(Split(old(blocks), k, HDR, newSize), k + 1)
      ensures available >= old(available) && maxUsed == old(maxUsed)
      ensures Kept(old(data), data, old(magic.Keys) + {x + HDR + newSize})
    {
      hide ListOk, Ring, FreeBag, FreeBytes, Merge, Split, Coalesced, Kept, InHeader, Drop, FreesOk, Inserted, Rid,
           AbsorbRight;
      var y := x + HDR + newSize;
      ghost var Z := magic.Keys + {y};
      KeptTrans(Z);
      FreesReady(Z);
      SameRest(blocks, frees, k, newSize);
      ShrunkShape(magic, next, prev, blocks, poolSize, frees, k, newSize);
      SplitSummary(blocks, k, HDR, newSize);
      SplitBlock(x, y, newSize, k, Z);
      FreeRest(y, k + 1, Z);
    }

    /** Free the block y cut off by a shrinking realloc. */
    method FreeRest(y: int, ghost k: nat, ghost Z: set<int>)
      requires BlocksOk() && FreesOk(Z) && magic.Keys <= Z
      requires k < |blocks| - 1 && blocks[k].addr == y && !blocks[k].used && y !in frees
      requires FreeBag(blocks) == multiset(frees) + multiset{y}
      requires available + blocks[k].size == FreeBytes(blocks)
      modifies this
      ensures BlocksOk() && Ring(nextFree, prevFree, [FREE_LIST] + frees)
      ensures blocks == AbsorbRight(old(blocks), k)
      ensures frees == Inserted(Rid(old(blocks), old(frees), k), 0, y)
      ensures multiset(frees) == FreeBag(blocks)
      ensures available == FreeBytes(blocks) >= old(available) && maxUsed == old(maxUsed)
      ensures Kept(old(data), data, Z)
    {
      hide ListOk, Ring, FreeBag, FreeBytes, Merge, Kept, Drop, FreesOk, Inserted;
      KeptTrans(Z);
      Neighbours(magic, next, prev, blocks, poolSize, k);
      if !magic[next[y]] {
        Neighbours(magic, next, prev, blocks, poolSize, k + 1);
        MergeShape(blocks, k);
        available := available - ItemSize(next[y]);
        AbsorbFree(y, k, Z, multiset{y});
        Neighbours(magic, next, prev, blocks, poolSize, k);
      }
      InsertAt(magic, next, prev, blocks, poolSize, frees, k, 0, Z);
      InsertFirst(y, Z);
      FreesRing(Z);
      available := available + ItemSize(y);
    }

    /** Copy n bytes from block k2 to block k1, then free block k2. */
    method CopyAndFree(p: int, q: int, n: int, ghost k2: nat, ghost k1: nat)
      requires Valid()
      requires k2 < |blocks| - 1 && blocks[k2].used && blocks[k2].addr == p - HDR && p != NULL
      requires k1 < |blocks| - 1 && blocks[k1].used && blocks[k1].addr == q - HDR && k1 != k2
      requires 0 <= n <= blocks[k2].size && n <= blocks[k1].size
      modifies this
      ensures Valid()
      ensures View() == Freed(old(View()), k2)
      ensures Live(blocks) == Live(old(blocks)) - {old(blocks)[k2]}
      ensures Preserved(old(data), data, Live(old(blocks)) - {old(blocks)[k1]}, p - HDR)
      ensures SamePrefix(old(data), data, old(blocks)[k2], old(blocks)[k1], n)
      ensures maxUsed == old(maxUsed)
    {
      hide ListOk, Tiles, Tagged, Ring, FreeBag, FreeBytes, Kept, Released, ReleasedFrees, Live, Coalesced, Preserved,
           Copied, SamePrefix, FreesOk;
      ListTiles(magic, next, prev, blocks, poolSize);
      ghost var d1 := data;
      CopyBlock(p, q, n, k2, k1);
      ghost var d2 := data;
      Free(p, k2);
      CopyThenFree(d1, d2, data, old(blocks), poolSize, k2, k1, n);
    }

    method CopyBlock(p: int, q: int, n: int, ghost k2: nat, ghost k1: nat)
      requires Valid() && k1 != k2
      requires k2 < |blocks| && blocks[k2].addr == p - HDR && k1 < |blocks| && blocks[k1].addr == q - HDR
      requires 0 <= n <= blocks[k2].size && n <= blocks[k1].size
      modifies `data
      ensures Valid() && Copied(old(data), data, blocks[k2], blocks[k1], n)
    {
      hide ListOk, Tiles, Tagged, Ring, FreeBag, FreeBytes, Coalesced, Copied, MemCopy, FreesOk;
      ListTiles(magic, next, prev, blocks, poolSize);
      PairApart(blocks, poolSize, k2, k1);
      IsCopy(data, MemCopy(data, q, p, n), blocks[k2], blocks[k1], n);
      data := MemCopy(data, q, p, n);
    }

    /** Block k of the list bs from before the allocation goes into block k1, which was allocated. */
    method MoveInto(p: int, q: int, n: int, ghost bs: seq<Block>, ghost k: nat, ghost k1: nat) returns (ghost k2: nat)
      requires Valid() && Tiles(bs, HDR, 0, poolSize)
      requires k < |bs| - 1 && bs[k].used && bs[k].addr == p - HDR && n == bs[k].size
      requires k1 < |blocks| - 1 && blocks[k1].used && blocks[k1].addr == q - HDR && blocks[k1].size >= n
      requires Live(blocks) == Live(bs) + {blocks[k1]} && blocks[k1] !in Live(bs)
      modifies this
      ensures Valid() && maxUsed == old(maxUsed) && bs[k] in Live(bs)
      ensures k2 < |old(blocks)| && old(blocks)[k2] == bs[k] && View() == Freed(old(View()), k2)
      ensures Live(blocks) == Live(bs) - {bs[k]} + {old(blocks)[k1]}
      ensures Preserved(old(data), data, Live(bs) + {old(blocks)[k1]} - {old(blocks)[k1]}, p - HDR)
      ensures SamePrefix(old(data), data, bs[k], old(blocks)[k1], n)
    {
      hide Ring, Tiles, Tagged, FreeBag, FreeBytes, Live, Coalesced, Preserved, Kept, Copied, SamePrefix, Freed, ListOk;
      ListTiles(magic, next, prev, blocks, poolSize);
      k2 := MovedIndex(bs, blocks, poolSize, k, k1);
      LiveAddrs(bs, poolSize);
      LiveMoved(Live(bs), Live(blocks), bs[k], blocks[k1]);
      CopyAndFree(p, q, n, k2, k1);
    }

    /** The moving branch of rt_memheap_realloc: allocate, copy, free. */
    method Move(p: int, newSize: nat, ghost k: nat) returns (q: int, ghost mid: Layout, ghost nb: Block)
      requires Valid()
      requires k < |blocks| - 1 && blocks[k].used && blocks[k].addr == p - HDR
      requires Rounded(newSize) == newSize > blocks[k].size
      modifies this
      ensures Valid()
      ensures q == NULL ==> View() == mid == old(View()) && data == old(data)
      ensures Moved(old(View()), k, newSize, q, mid, View()) && (q == NULL <==> Refused(old(blocks), newSize))
      ensures q != NULL ==>
        && nb.used && nb.addr == q - HDR && nb.size >= newSize
        && Live(blocks) == Live(old(blocks)) - {old(blocks)[k]} + {nb}
        && SamePrefix(old(data), data, old(blocks)[k], nb, old(blocks)[k].size)
      ensures Preserved(old(data), data, Live(old(blocks)), p - HDR)
      ensures maxUsed == Max(old(maxUsed), poolSize - FreeBytes(mid.blocks))
    {
      hide Ring, Tiles, Tagged, FreeBag, FreeBytes, Live, Coalesced, Preserved, Kept, Copied, SamePrefix, Rounded,
           AlignUp, Carve, CarveFrees, Released, Allocated, Moved, Refused, Freed, ListOk;
      ListTiles(magic, next, prev, blocks, poolSize);
      Neighbours(magic, next, prev, blocks, poolSize, k);
      var oldSize := ItemSize(p - HDR);
      ghost var k1, j;
      q, k1, j := Alloc(newSize);
      mid := View();
      IsAllocated(old(View()), k1, j, newSize, q, mid);
      ListTiles(magic, next, prev, blocks, poolSize);
      if q == NULL {
        NotMoved(old(View()), k, newSize, mid);
        nb := Block(0, 0, true);
        PreservedRefl(data, Live(blocks), p - HDR);
      } else {
        nb := blocks[k1];
        ghost var b, d1 := old(blocks)[k], data;
        ghost var k2 := MoveInto(p, q, if oldSize < newSize then oldSize else newSize, old(blocks), k, k1);
        LiveAddrs(old(blocks), poolSize);
        MoveKeeps(old(data), d1, data, Live(old(blocks)), b, nb, b.size);
        IsMoved(old(View()), k, newSize, q, mid, k2, View(), poolSize);
      }
    }

    /** The enlarging half of rt_memheap_realloc. */
    method Enlarge(p: int, newSize: nat, ghost k: nat) returns (q: int, ghost mid: Layout, ghost nb: Block)
      requires Valid()
      requires k < |blocks| - 1 && blocks[k].used && blocks[k].addr == p - HDR
      requires Rounded(newSize) == newSize > blocks[k].size
      modifies this
      ensures Valid()
      ensures q == NULL ==> View() == mid == old(View()) && data == old(data)
      ensures q == NULL <==> !Growable(old(blocks), k, newSize) && Refused(old(blocks), newSize)
      ensures Reallocated(old(View()), k, newSize, q, mid, View())
      ensures q != NULL ==>
        && nb.used && nb.addr == q - HDR && nb.size >= newSize
        && Live(blocks) == Live(old(blocks)) - {old(blocks)[k]} + {nb}
        && SamePrefix(old(data), data, old(blocks)[k], nb, old(blocks)[k].size)
      ensures Preserved(old(data), data, Live(old(blocks)), p - HDR)
      ensures maxUsed == Max(old(maxUsed), poolSize - FreeBytes(mid.blocks))
    {
      hide ListOk, Ring, FreeBag, FreeBytes, Live, Coalesced, Preserved, Kept, SamePrefix, Split, Merge, Reallocated,
           Grown, Moved, Refused, Rounded;
      Neighbours(magic, next, prev, blocks, poolSize, k);
      RoundedUp(newSize);
      var x := p - HDR;
      var oldSize := ItemSize(x);
      var y := next[x];
      if !magic[y] {
        Neighbours(magic, next, prev, blocks, poolSize, k + 1);
        if ItemSize(y) + oldSize > newSize + MINIALLOC {
          GrowInPlace(x, newSize, k);
          GrownKeeps(old(data), data, old(magic), old(next), old(prev), old(blocks), poolSize, k, newSize);
          GrownThere(old(View()), k, newSize);
          return p, View(), Block(x, newSize, true);
        }
      }
      q, mid, nb := Move(p, newSize, k);
      MovedAway(old(View()), k, newSize, q, mid, View());
    }

    /** The other half: the block stays, and is cut if that leaves room for another one. */
    method Lessen(p: int, newSize: nat, ghost k: nat) returns (ghost nb: Block)
      requires Valid() && newSize % ALIGN == 0
      requires k < |blocks| - 1 && blocks[k].used && blocks[k].addr == p - HDR && newSize <= blocks[k].size
      modifies this
      ensures Valid()
      ensures Reallocated(old(View()), k, newSize, p, old(View()), View())
      ensures nb.used && nb.addr == p - HDR && nb.size >= newSize
      ensures Live(blocks) == Live(old(blocks)) - {old(blocks)[k]} + {nb}
      ensures SamePrefix(old(data), data, old(blocks)[k], nb, Min(old(blocks)[k].size, nb.size))
      ensures Preserved(old(data), data, Live(old(blocks)), p - HDR)
      ensures maxUsed == old(maxUsed)
    {
      hide ListOk, Addrs, Ring, FreeBag, FreeBytes, Live, Coalesced, Preserved, Kept, SamePrefix, Cut, AbsorbRight,
           Split, Tiles;
      ListTiles(magic, next, prev, blocks, poolSize);
      Neighbours(magic, next, prev, blocks, poolSize, k);
      var x := p - HDR;
      var oldSize := ItemSize(x);
      if newSize + HDR + MINIALLOC >= oldSize {
        PreservedRefl(data, Live(blocks), x);
        Unmoved(data, blocks, poolSize, k);
        return blocks[k];
      }
      nb := Block(x, newSize, true);
      Shrink(x, newSize, k);
      ShrunkKeeps(old(data), data, old(blocks), poolSize, k, newSize);
    }

    method Realloc(p: int, n: nat, ghost k: nat) returns (q: int, ghost mid: Layout, ghost nb: Block)
      requires Valid()
      requires p != NULL ==> k < |blocks| - 1 && blocks[k].used && blocks[k].addr == p - HDR
      modifies this
      ensures Valid()
      ensures n == 0 ==> q == NULL && mid == old(View())
      ensures n == 0 ==> View() == if p == NULL then old(View()) else Freed(old(View()), k)
      ensures n == 0 && p != NULL ==> Live(blocks) == Live(old(blocks)) - {old(blocks)[k]}
      ensures n > 0 && q == NULL ==> View() == old(View()) && data == old(data)
      ensures n > 0 ==> (q == NULL <==>
        && (p != NULL ==> Rounded(n) > old(blocks)[k].size && !Growable(old(blocks), k, Rounded(n)))
        && Refused(old(blocks), Rounded(n)))
      ensures n > 0 && p == NULL ==> mid == View() && Allocated(old(View()), Rounded(n), q, mid)
      ensures n > 0 && p != NULL ==> Reallocated(old(View()), k, Rounded(n), q, mid, View())
      ensures n > 0 && q != NULL ==> nb.used && nb.addr == q - HDR && nb.size >= Rounded(n)
      ensures n > 0 && q != NULL && p == NULL ==> Live(blocks) == Live(old(blocks)) + {nb} && nb !in Live(old(blocks))
      ensures n > 0 && q != NULL && p != NULL ==>
        && Live(blocks) == Live(old(blocks)) - {old(blocks)[k]} + {nb}
        && SamePrefix(old(data), data, old(blocks)[k], nb, Min(old(blocks)[k].size, nb.size))
      ensures Preserved(old(data), data, Live(old(blocks)), if p == NULL then NULL else p - HDR)
      ensures maxUsed == Max(old(maxUsed), poolSize - FreeBytes(mid.blocks))
    {
      hide ListOk, Ring, FreeBag, FreeBytes, Live, Coalesced, Preserved, SamePrefix, AlignUp, Allocated, Moved, Cut,
           Grown, Refused, Growable, Released, ReleasedFrees, Carve, CarveFrees, FirstIn;
      RoundedUp(n);
      mid, nb := View(), Block(p - HDR, 0, true);
      PreservedRefl(data, Live(blocks), NULL);
      if n == 0 {
        Free(p, k);
        return NULL, mid, nb;
      }
      var newSize := AlignUp(n);
      if newSize < MINIALLOC {
        newSize := MINIALLOC;
      }
      if p == NULL {
        ghost var k1, j;
        q, k1, j := Alloc(newSize);
        IsAllocated(old(View()), k1, j, newSize, q, View());
        return q, View(), if q == NULL then nb else blocks[k1];
      }
      Neighbours(magic, next, prev, blocks, poolSize, k);
      if newSize > ItemSize(p - HDR) {
        q, mid, nb := Enlarge(p, newSize, k);
      } else {
        q := p;
        nb := Lessen(p, newSize, k);
      }
    }
  }
}
