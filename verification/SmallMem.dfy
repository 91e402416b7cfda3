/** rt_smem: the first-fit allocator over an offset-linked chain of blocks, with
    the lowest free block kept in lfree.  As in the memheap model, addresses
    are offsets from heap_ptr, each header word is a map, and writing a header
    word scribbles over the HDR bytes of that header. */
module SmallMems {
  import opened Basics
  import opened Blocks
  import opened Rings
  import opened AllocClient
  import opened Payloads
  import opened SmallMemLists

  class SmallMem {
    const memSize: int            // mem_size_aligned
    var magic: map<int, bool>     // header -> MEM_ISUSED
    var next: Links
    var prev: Links
    var data: seq<byte>
    var lfree: int
    var used: int
    var max: int

    ghost var blocks: seq<Block>
    ghost var low: nat            // lfree is block `low`

    ghost predicate ChainValid()
      reads this
    {
      ChainOk(magic, next, prev, blocks, memSize) && |data| == memSize + 2 * HDR
    }

    ghost predicate Valid()
      reads this
    {
      && ChainValid()
      && Coalesced(blocks)
      && Lowest(blocks, low) && lfree == blocks[low].addr
      && used + HDR == UsedSpan(blocks, HDR)
      && max >= used
    }

    function HeapEnd(): int { memSize + HDR }

    /** Any word of the header at a has been written. */
    method Touch(a: int, ghost Z: set<int>)
      requires a in Z && 0 <= a && a + HDR <= |data|
      modifies `data
      ensures Kept(old(data), data, Z) && |data| == |old(data)|
    {
      var junk: seq<byte> := *;
      if |junk| == HDR {
        data := data[..a] + junk + data[a + HDR..];
      }
    }

    /** The program stores a byte. */
    method Store(a: int, v: byte)
      requires Valid() && 0 <= a < |data|
      modifies `data
      ensures Valid() && data == old(data)[a := v]
    {
      data := data[a := v];
    }

    /** A header is marked as used or free. */
    method SetUsed(x: int, u: bool, ghost k: nat, ghost Z: set<int>)
      requires ChainValid() && k < |blocks| - 1 && blocks[k].addr == x && magic.Keys <= Z
      modifies `magic, `data, `blocks
      ensures ChainValid() && blocks == Mark(old(blocks), k, u)
      ensures magic.Keys == old(magic.Keys)
      ensures Kept(old(data), data, Z)
    {
      hide ChainOk, Mark, Kept;
      ChainWords(magic, next, prev, blocks, memSize, k);
      MarkChain(magic, next, prev, blocks, memSize, k, u);
      magic := magic[x := u];
      Touch(x, Z);
      blocks := Mark(blocks, k, u);
    }

    /** Create a free block y behind n payload bytes of x. */
    method SplitBlock(x: int, y: int, n: int, ghost k: nat, ghost Z: set<int>)
      requires ChainValid() && k < |blocks| - 1 && blocks[k].addr == x
      requires 0 <= n && n % ALIGN == 0 && n + HDR <= blocks[k].size && y == x + HDR + n
      requires magic.Keys + {y} <= Z
      modifies `magic, `next, `prev, `data, `blocks
      ensures ChainValid() && blocks == Split(old(blocks), k, HDR, n)
      ensures magic.Keys == old(magic.Keys) + {y}
      ensures Kept(old(data), data, Z)
    {
      hide ChainOk, Split, InHeader;
      ChainWords(magic, next, prev, blocks, memSize, k);
      SplitChain(magic, next, prev, blocks, memSize, k, n);
      magic := magic[y := false];
      next := next[y := next[x]];
      prev := prev[y := x];
      Touch(y, Z);
      next := next[x := y];
      Touch(x, Z);
      if next[y] != memSize + HDR {
        prev := prev[next[y] := y];
        Touch(next[y], Z);
      }
      blocks := Split(blocks, k, HDR, n);
    }

    /** Block x is linked to what follows block y, and that back to x. */
    method Absorb(x: int, y: int, ghost k: nat, ghost Z: set<int>)
      requires ChainValid() && k < |blocks| - 2 && blocks[k].addr == x && blocks[k + 1].addr == y
      requires magic.Keys <= Z
      modifies `magic, `next, `prev, `data, `blocks
      ensures ChainValid() && blocks == Merge(old(blocks), k, HDR)
      ensures magic.Keys == old(magic.Keys) - {y}
      ensures Kept(old(data), data, Z)
    {
      hide ChainOk, Merge, InHeader;
      ChainWords(magic, next, prev, blocks, memSize, k);
      ChainWords(magic, next, prev, blocks, memSize, k + 1);
      MergeChain(magic, next, prev, blocks, memSize, k);
      Touch(y, Z);
      magic := magic - {y};
      next := next[x := next[y]];
      Touch(x, Z);
      prev := prev[next[y] := x];
      Touch(next[y], Z);
      blocks := Merge(blocks, k, HDR);
    }

    method PlugHoles(mem: int, ghost k: nat, ghost Z: set<int>)
      requires ChainValid() && NearLowest(blocks, k, low) && lfree == blocks[low].addr
      requires blocks[k].addr == mem && !blocks[k].used && magic.Keys <= Z
      modifies `magic, `next, `prev, `data, `blocks, `lfree, `low
      ensures ChainValid() && blocks == Plugged(old(blocks), k)
      ensures Lowest(blocks, low) && lfree == blocks[low].addr
      ensures Kept(old(data), data, Z)
    {
      hide ChainOk, Merge, Kept;
      KeptTrans(Z);
      ChainWords(magic, next, prev, blocks, memSize, k);
      ghost var bs, left := blocks, if k > 0 && !blocks[k - 1].used then k - 1 else k;
      PluggedReleased(bs, k);
      PluggedLowest(bs, k, low, Min(low, left));
      Where(magic, next, prev, bs, memSize, k, low);
      var nmem := next[mem];
      if mem != nmem && !magic[nmem] && nmem != HeapEnd() {
        MergeShape(blocks, k);
        if lfree == nmem {
          lfree := mem;
        }
        Absorb(mem, nmem, k, Z);
        ChainWords(magic, next, prev, blocks, memSize, k);
      }
      var pmem := prev[mem];
      if pmem != mem && !magic[pmem] {
        if lfree == mem {
          lfree := pmem;
        }
        Absorb(pmem, mem, k - 1, Z);
      }
      low := Min(low, left);
    }

    method Free(p: int, ghost k: nat)
      requires Valid()
      requires p != NULL ==> k < |blocks| - 1 && blocks[k].used && blocks[k].addr == p - HDR
      modifies this
      ensures Valid()
      ensures p == NULL ==> blocks == old(blocks) && data == old(data) && used == old(used)
      ensures p != NULL ==> blocks == Freed(old(blocks), k)
      ensures p != NULL ==> Live(blocks) == Live(old(blocks)) - {old(blocks)[k]}
      ensures Preserved(old(data), data, Live(old(blocks)), p - HDR)
      ensures max == old(max)
    {
      hide ChainOk, Tiles, Addrs, Kept, UsedSpan, Freed, Coalesced, Preserved, Live, Lowest;
      if p == NULL {
        PreservedRefl(data, Live(blocks), p - HDR);
        return;
      }
      FreeReady(magic, next, prev, blocks, memSize, k, low);
      Release(p - HDR, k);
      FreePreserves(old(data), data, old(blocks), memSize + 2 * HDR, k);
    }

    /** The block mem becomes free, and holes are plugged. */
    method Release(mem: int, ghost k: nat)
      requires Valid() && k < |blocks| - 1 && blocks[k].used && blocks[k].addr == mem
      modifies this
      ensures Valid() && blocks == Freed(old(blocks), k) && max == old(max)
      ensures Kept(old(data), data, old(magic.Keys))
    {
      hide ChainOk, Tiles, Addrs, Kept, UsedSpan, Mark, Freed, Coalesced, Live, Lowest;
      ghost var m0 := magic.Keys;
      KeptTrans(m0);
      FreeReady(magic, next, prev, blocks, memSize, k, low);
      SetUsed(mem, false, k, m0);
      if mem < lfree {
        lfree := mem;
        low := k;
      }
      used := used - (next[mem] - mem);
      PlugHoles(mem, k, m0);
    }

    /** rt_smem_init: one free block over the whole heap and the used end block. */
    constructor (memory: seq<byte>)
      requires AlignDown(|memory|) >= 2 * HDR
      ensures Valid() && memSize == AlignDown(|memory|) - 2 * HDR == |memory| - |memory| % 8 - 2 * HDR
      ensures blocks == [Block(0, memSize, false), Block(memSize + HDR, 0, true)] && used == max == 0
    {
      var size := AlignDown(|memory|) - 2 * HDR;
      memSize, data := size, memory[..AlignDown(|memory|)];
      var end := size + HDR;
      magic := map[0 := false, end := true];
      next := map[0 := end, end := end];
      prev := map[0 := 0, end := end];
      lfree, used, max := 0, 0, 0;
      blocks, low := [Block(0, size, false), Block(end, 0, true)], 0;
      new;
      InitialChain(memSize);
    }

    /** The scan of rt_smem_alloc: from lfree upwards, up to the last offset
        at which `size` bytes still fit in the heap. */
    method FirstFit(size: nat) returns (found: bool, ptr: int, ghost k: nat)
      requires Valid() && 0 < size <= memSize
      ensures found ==> k < |blocks| - 1 && blocks[k].addr == ptr && !blocks[k].used && blocks[k].size >= size
      ensures found ==> forall i :: 0 <= i < k && !blocks[i].used ==> blocks[i].size < size
      ensures !found <==> NoneFits(blocks, size)
    {
      hide ChainOk, Coalesced, UsedSpan;
      EndAddr(magic, next, prev, blocks, memSize);
      ptr, k := lfree, low;
      while ptr <= memSize - size
        invariant k < |blocks| && ptr == blocks[k].addr
        invariant k == |blocks| - 1 ==> ptr == memSize + HDR
        invariant forall i :: 0 <= i < k && !blocks[i].used ==> blocks[i].size < size
        decreases memSize - ptr
      {
        ChainWords(magic, next, prev, blocks, memSize, k);
        if !magic[ptr] && next[ptr] - (ptr + HDR) >= size {
          return true, ptr, k;
        }
        ptr, k := next[ptr], k + 1;
      }
      forall i | 0 <= i < |blocks| && !blocks[i].used ensures blocks[i].size < size {
        if i > k {
          assert blocks[k].End(HDR) <= blocks[i].addr;
        }
      }
      return false, ptr, k;
    }

    /** mem is handed out: split it if that leaves room for another block. */
    method Take(mem: int, size: nat, ghost k: nat)
      requires Valid() && size % ALIGN == 0
      requires k < |blocks| - 1 && blocks[k].addr == mem && !blocks[k].used && blocks[k].size >= size
      modifies this
      ensures ChainValid() && blocks == Carve(old(blocks), k, size, MIN_SIZE_ALIGNED)
      ensures low == old(low) && lfree == old(lfree)
      ensures used + HDR == UsedSpan(blocks, HDR) && max == Max(old(max), used)
      ensures Kept(old(data), data, CarveHeaders(old(blocks), k, size, MIN_SIZE_ALIGNED))
    {
      hide ChainOk, Tiles, Addrs, Kept, UsedSpan, Split, Mark, Coalesced;
      ChainTiles(magic, next, prev, blocks, memSize);
      ChainWords(magic, next, prev, blocks, memSize, k);
      CarvedSpan(blocks, k, size);
      ghost var Z := CarveHeaders(blocks, k, size, MIN_SIZE_ALIGNED);
      KeptTrans(Z);
      if next[mem] - (mem + HDR) >= size + HDR + MIN_SIZE_ALIGNED {
        var y := mem + HDR + size;
        SplitShape(blocks, k, HDR, size);
        SplitBlock(mem, y, size, k, Z);
        used := used + (size + HDR);
        if max < used {
          max := used;
        }
      } else {
        used := used + (next[mem] - mem);
        if max < used {
          max := used;
        }
      }
      SetUsed(mem, true, k, Z);
    }

    /** Move lfree up to the next free block, or the end of the heap. */
    method AdvanceLow()
      requires ChainValid() && low < |blocks| && lfree == blocks[low].addr
      requires forall i :: 0 <= i < low ==> blocks[i].used
      modifies `lfree, `low
      ensures Lowest(blocks, low) && lfree == blocks[low].addr
    {
      hide ChainOk;
      AtLow(magic, next, prev, blocks, memSize, low);
      while magic[lfree] && lfree != HeapEnd()
        invariant low < |blocks| && lfree == blocks[low].addr && lfree in magic && magic[lfree] == blocks[low].used
        invariant lfree == HeapEnd() <==> low == |blocks| - 1
        invariant forall i :: 0 <= i < low ==> blocks[i].used
        decreases |blocks| - low
      {
        AtLow(magic, next, prev, blocks, memSize, low);
        AtLow(magic, next, prev, blocks, memSize, low + 1);
        lfree, low := next[lfree], low + 1;
      }
    }

    /** Hand out mem and bring lfree up to date. */
    method Claim(mem: int, size: nat, ghost k: nat)
      requires Valid() && size % ALIGN == 0
      requires k < |blocks| - 1 && blocks[k].addr == mem && !blocks[k].used && blocks[k].size >= size
      modifies this
      ensures Valid()
      ensures blocks == Carve(old(blocks), k, size, MIN_SIZE_ALIGNED)
      ensures max == Max(old(max), used)
      ensures mem >= 0
      ensures Kept(old(data), data, CarveHeaders(old(blocks), k, size, MIN_SIZE_ALIGNED))
    {
      hide ChainOk, Tiles, Kept, UsedSpan, Coalesced, Carve, CarveHeaders;
      ChainTiles(magic, next, prev, blocks, memSize);
      EndAddr(magic, next, prev, blocks, memSize);
      CarvedLow(blocks, k, size, low);
      Positions(blocks, memSize + 2 * HDR, k, low);
      CarveCoalesced(blocks, k, size, MIN_SIZE_ALIGNED);
      Take(mem, size, k);
      if mem == lfree {
        AdvanceLow();
      }
    }

    method Alloc(n: nat) returns (p: int, ghost k: nat)
      requires Valid()
      modifies this
      ensures Valid()
      ensures p == NULL ==> blocks == old(blocks) && data == old(data) && used == old(used) && max == old(max)
      ensures p == NULL <==>
        || n == 0
        || NoneFits(old(blocks), Rounded(n))
      ensures p == NULL && n >= MIN_SIZE ==> NoneFits(old(blocks), n + 8)
      ensures p != NULL ==>
        && k < |old(blocks)| - 1 && !old(blocks)[k].used && old(blocks)[k].size >= Rounded(n)
        && old(blocks)[k].addr == p - HDR
        && (forall i :: 0 <= i < k && !old(blocks)[i].used ==> old(blocks)[i].size < Rounded(n))
        && blocks == Carve(old(blocks), k, Rounded(n), MIN_SIZE_ALIGNED)
      ensures p != NULL ==>
        && k < |blocks| - 1 && blocks[k].addr == p - HDR && blocks[k].used && blocks[k].size >= Rounded(n)
        && Live(blocks) == Live(old(blocks)) + {blocks[k]} && blocks[k] !in Live(old(blocks))
      ensures Preserved(old(data), data, Live(old(blocks)), NULL)
      ensures max == Max(old(max), used)
    {
      hide ChainOk, Tiles, Kept, UsedSpan, Coalesced, Preserved, Live, AlignUp, Carve, CarveHeaders;
      PreservedRefl(data, Live(blocks), NULL);
      RoundedUp(n);
      k := 0;
      if n == 0 {
        return NULL, k;
      }
      var size := AlignUp(n);
      if size < MIN_SIZE_ALIGNED {
        size := MIN_SIZE_ALIGNED;
      }
      ChainTiles(magic, next, prev, blocks, memSize);
      if size > memSize {
        SizesBounded(magic, next, prev, blocks, memSize);
        return NULL, k;
      }
      var found, mem;
      found, mem, k := FirstFit(size);
      if !found {
        return NULL, k;
      }
      Claim(mem, size, k);
      CarvePreserves(old(data), data, old(blocks), k, size, MIN_SIZE_ALIGNED, memSize + 2 * HDR);
      CarveLive(old(blocks), k, size, MIN_SIZE_ALIGNED, memSize + 2 * HDR);
      return mem + HDR, k;
    }

    // ----- rt_smem_realloc

    /** Cut block mem down to newSize bytes and free the rest. */
    method Shrink(mem: int, newSize: nat, ghost k: nat)
      requires Valid() && newSize % ALIGN == 0
      requires k < |blocks| - 1 && blocks[k].addr == mem && blocks[k].used
      requires newSize + HDR + MIN_SIZE < blocks[k].size
      modifies this
      ensures Valid()
      ensures blocks == AbsorbRight(Split(old(blocks), k, HDR, newSize), k + 1)
      ensures used == old(used) - (old(blocks)[k].size - newSize) && max == old(max)
      ensures Kept(old(data), data, old(magic.Keys) + {mem + HDR + newSize})
    {
      hide ChainOk, Tiles, Addrs, Kept, UsedSpan, Split, Plugged, AbsorbRight, Coalesced, Lowest, NearLowest;
      var y := mem + HDR + newSize;
      ghost var Z := magic.Keys + {y};
      KeptTrans(Z);
      ShrinkReady(magic, next, prev, blocks, memSize, k, newSize, low);
      used := used - ((next[mem] - mem - HDR) - newSize);
      SplitBlock(mem, y, newSize, k, Z);
      if y < lfree {
        lfree := y;
        low := k + 1;
      }
      PlugHoles(y, k + 1, Z);
    }

    /** Copy n bytes from block k2 to block k1, then free block k2. */
    method CopyAndFree(p: int, q: int, n: int, ghost k2: nat, ghost k1: nat)
      requires Valid()
      requires k2 < |blocks| - 1 && blocks[k2].used && blocks[k2].addr == p - HDR && p != NULL
      requires k1 < |blocks| - 1 && blocks[k1].used && blocks[k1].addr == q - HDR && k1 != k2
      requires 0 <= n <= blocks[k2].size && n <= blocks[k1].size
      modifies this
      ensures Valid()
      ensures blocks == Freed(old(blocks), k2)
      ensures Live(blocks) == Live(old(blocks)) - {old(blocks)[k2]}
      ensures Preserved(old(data), data, Live(old(blocks)) - {old(blocks)[k1]}, p - HDR)
      ensures SamePrefix(old(data), data, old(blocks)[k2], old(blocks)[k1], n)
      ensures max == old(max)
    {
      hide ChainOk, Tiles, Tagged, UsedSpan, Kept, Freed, Lowest, Live, Coalesced, Preserved, Copied, SamePrefix;
      ghost var b, nb, d1 := blocks[k2], blocks[k1], data;
      PairInHeap(magic, next, prev, blocks, memSize, k2, k1);
      data := MemCopy(data, q, p, n);
      ghost var d2 := data;
      IsCopy(d1, d2, b, nb, n);
      Free(p, k2);
      CopyThenFree(d1, d2, data, old(blocks), memSize + 2 * HDR, k2, k1, n);
    }

    /** The moving branch: allocate, copy, free. */
    method Move(p: int, newSize: nat, ghost k: nat) returns (q: int, ghost mid: seq<Block>, ghost nb: Block)
      requires Valid()
      requires k < |blocks| - 1 && blocks[k].used && blocks[k].addr == p - HDR
      requires newSize > 0 && AlignUp(newSize) == newSize
      modifies this
      ensures Valid()
      ensures q == NULL ==> blocks == mid == old(blocks) && data == old(data)
      ensures (q == NULL <==> NoneFits(old(blocks), Rounded(newSize))) && q != p
      ensures Moved(old(blocks), k, newSize, q, mid, blocks)
      ensures q != NULL ==>
        && nb.used && nb.addr == q - HDR && nb.size >= newSize
        && Live(blocks) == Live(old(blocks)) - {old(blocks)[k]} + {nb}
        && SamePrefix(old(data), data, old(blocks)[k], nb, Min(old(blocks)[k].size, newSize))
      ensures Preserved(old(data), data, Live(old(blocks)), p - HDR)
      ensures max == Max(old(max), UsedSpan(mid, HDR) - HDR)
    {
      hide ChainOk, Tiles, Tagged, UsedSpan, Live, Coalesced, Preserved, Kept, Copied, SamePrefix, Rounded, AlignUp,
           Carve, Freed, Lowest, Allocated, Moved, NoneFits;
      WordsOf(magic, next, prev, blocks, memSize, k);
      RoundedUp(newSize);
      nb := Block(0, 0, true);
      var size := next[p - HDR] - (p - HDR) - HDR;
      ghost var k1;
      q, k1 := Alloc(newSize);
      mid := blocks;
      if q == NULL {
        NotMoved(blocks, k, newSize);
        PreservedRefl(data, Live(blocks), p - HDR);
      } else {
        nb := blocks[k1];
        WordsOf(magic, next, prev, blocks, memSize, k1);
        ghost var d1 := data;
        ghost var k2 := MovedIndex(old(blocks), blocks, memSize + 2 * HDR, k, k1);
        CopyAndFree(p, q, if size < newSize then size else newSize, k2, k1);
        MovedOk(old(data), d1, data, old(blocks), mid, blocks, k, k1, k2, newSize, q, memSize + 2 * HDR);
      }
    }

    /** The two branches in which the block stays where it is. */
    method Stay(p: int, newSize: nat, ghost k: nat) returns (ghost nb: Block)
      requires Valid() && newSize % ALIGN == 0
      requires k < |blocks| - 1 && blocks[k].used && blocks[k].addr == p - HDR && InPlace(blocks[k].size, newSize)
      modifies this
      ensures Valid()
      ensures Reallocated(old(blocks), k, newSize, p, old(blocks), blocks)
      ensures nb.used && nb.addr == p - HDR && nb.size >= newSize
      ensures Live(blocks) == Live(old(blocks)) - {old(blocks)[k]} + {nb}
      ensures SamePrefix(old(data), data, old(blocks)[k], nb, Min(old(blocks)[k].size, newSize))
      ensures Preserved(old(data), data, Live(old(blocks)), p - HDR)
      ensures max == old(max)
    {
      hide ChainOk, Tiles, Addrs, UsedSpan, Live, Coalesced, Preserved, Kept, SamePrefix, Split, AbsorbRight, Lowest,
           Moved;
      WordsOf(magic, next, prev, blocks, memSize, k);
      HeadersOf(magic, next, prev, blocks, memSize);
      var mem := p - HDR;
      if next[mem] - mem - HDR == newSize {
        PreservedRefl(data, Live(blocks), mem);
        Unmoved(data, blocks, memSize + 2 * HDR, k);
        return blocks[k];
      }
      nb := Block(mem, newSize, true);
      Shrink(mem, newSize, k);
      ShrunkKeeps(old(data), data, old(blocks), memSize + 2 * HDR, k, newSize);
    }

    method Realloc(p: int, n: nat, ghost k: nat) returns (q: int, ghost mid: seq<Block>, ghost nb: Block)
      requires Valid()
      requires p != NULL ==> k < |blocks| - 1 && blocks[k].used && blocks[k].addr == p - HDR
      modifies this
      ensures Valid()
      ensures n == 0 ==> q == NULL && mid == old(blocks)
      ensures n == 0 && p != NULL ==> blocks == Freed(old(blocks), k)
      ensures n == 0 && p != NULL ==> Live(blocks) == Live(old(blocks)) - {old(blocks)[k]}
      ensures n > 0 && q == NULL ==> blocks == old(blocks) && data == old(data)
      ensures n > 0 ==> (q == NULL <==>
        && NoneFits(old(blocks), Rounded(n))
        && (p == NULL || !InPlace(old(blocks)[k].size, AlignUp(n))))
      ensures n > 0 && p != NULL ==>
        var size, m := old(blocks)[k].size, (n + 7) / 8 * 8;
        q == p <==> size == m || size > m + HDR + MIN_SIZE
      ensures n > 0 && p == NULL ==> mid == blocks && Allocated(old(blocks), n, q, blocks)
      ensures n > 0 && p != NULL ==> Reallocated(old(blocks), k, AlignUp(n), q, mid, blocks)
      ensures n > 0 && q != NULL ==> nb.used && nb.addr == q - HDR && nb.size >= AlignUp(n)
      ensures n > 0 && q != NULL && p == NULL ==> Live(blocks) == Live(old(blocks)) + {nb}
      ensures n > 0 && q != NULL && p != NULL ==>
        && Live(blocks) == Live(old(blocks)) - {old(blocks)[k]} + {nb}
        && SamePrefix(old(data), data, old(blocks)[k], nb, Min(old(blocks)[k].size, AlignUp(n)))
      ensures Preserved(old(data), data, Live(old(blocks)), if p == NULL then NULL else p - HDR)
      ensures max == Max(old(max), UsedSpan(mid, HDR) - HDR)
    {
      hide ChainOk, Tiles, Addrs, UsedSpan, Live, Coalesced, Preserved, Kept, SamePrefix, Split, AbsorbRight, Lowest,
           AlignUp, Rounded, Allocated, Moved, Carve, Freed, NoneFits;
      RoundedUp(n);
      PreservedRefl(data, Live(blocks), if p == NULL then NULL else p - HDR);
      SizesBounded(magic, next, prev, blocks, memSize);
      mid, nb := blocks, Block(p - HDR, 0, true);
      var newSize := AlignUp(n);
      if newSize > memSize {
        TooBig(magic, next, prev, blocks, memSize, newSize);
        IsAllocated(blocks, 0, n, NULL, blocks);
        return NULL, mid, nb;
      } else if newSize == 0 {
        Free(p, k);
        return NULL, mid, nb;
      }
      if p == NULL {
        ghost var k1;
        q, k1 := Alloc(newSize);
        IsAllocated(old(blocks), k1, n, q, blocks);
        return q, blocks, if q == NULL then nb else blocks[k1];
      }
      var mem := p - HDR;
      WordsOf(magic, next, prev, blocks, memSize, k);
      var size := next[mem] - mem - HDR;
      if size == newSize || newSize + HDR + MIN_SIZE < size {
        q := p;
        nb := Stay(p, newSize, k);
      } else {
        q, mid, nb := Move(p, newSize, k);
      }
    }
  }
}
