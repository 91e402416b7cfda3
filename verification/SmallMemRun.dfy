/** Whole runs of a program against one small memory heap. */
module SmallMemRuns {
  import opened Basics
  import opened Blocks
  import opened AllocClient
  import opened Payloads
  import opened ClientViews
  import opened SmallMemLists
  import opened SmallMems

  /** What is in use: the used blocks but for the end block. */
  ghost function Use(bs: seq<Block>): int { UsedSpan(bs, HDR) - HDR }

  /** alloc has been asked for n bytes. */
  ghost predicate AllocatedBy(l: seq<Block>, n: nat, r: Option<int>, mo: Moment<seq<Block>>) {
    r != Some(NULL) && mo.mid == mo.after && Allocated(l, n, Pointer(r), mo.after)
  }

  /** The block at p has been resized to n bytes. */
  ghost predicate ReallocatedAt(l: seq<Block>, p: int, n: nat, r: Option<int>, mo: Moment<seq<Block>>) {
    && IndexOf(l, p - HDR) < |l| && r != Some(NULL)
    && Reallocated(l, IndexOf(l, p - HDR), AlignUp(n), Pointer(r), mo.mid, mo.after)
  }

  /** What one call does to layout l for a program that holds m, and what it returns: realloc of NULL
      is alloc.  Calls with a pointer the program does not hold are not made. */
  ghost predicate Does(l: seq<Block>, m: map<int, Contents>, op: Op, r: Option<int>, mo: Moment<seq<Block>>) {
    match op
    case Alloc(n) => AllocatedBy(l, n, r, mo)
    case Free(p) => r == None && mo.mid == l && (if p in m then FreedAt(l, p - HDR, mo.after) else mo.after == l)
    case Realloc(p, n) =>
      if p == NULL && n > 0 then AllocatedBy(l, n, r, mo)
      else if p in m && n > 0 then ReallocatedAt(l, p, n, r, mo)
      else r == None && mo.mid == l && (if p in m then FreedAt(l, p - HDR, mo.after) else mo.after == l)
    case Write(_, _, _) => r == None && mo == Moment(l, l)
  }

  /** realloc of a held block to a size above 0 fails exactly when the block does not stay where
      it is and no free block holds the new size. */
  lemma ReallocFails(l: seq<Block>, pool: int, m: map<int, Contents>, p: int, n: nat, r: Option<int>,
          mo: Moment<seq<Block>>)
    requires Does(l, m, Realloc(p, n), r, mo) && p in m && p != NULL && n > 0 && Tiles(l, HDR, 0, pool)
    ensures r == None <==> !InPlace(l[IndexOf(l, p - HDR)].size, AlignUp(n)) && NoneFits(l, Rounded(n))
    ensures r == None ==> mo.after == l
  {
    hide AlignUp, Rounded, Tiles, NoneFits;
    RoundedUp(n);
    BlockInPool(l, pool, IndexOf(l, p - HDR));
  }

  /** One call. */
  method StepProgram(heap: SmallMem, op: Op, m: map<int, Contents>, ghost own: map<int, Block>)
    returns (r: Option<int>, ghost own': map<int, Block>, ghost mo: Moment<seq<Block>>)
    requires heap.Valid() && Consistent(Live(heap.blocks), heap.data, heap.memSize + 2 * HDR, own, m)
    modifies heap
    ensures heap.Valid() && heap.blocks == mo.after
    ensures Consistent(Live(heap.blocks), heap.data, heap.memSize + 2 * HDR, own', Step(m, op, r))
    ensures Does(old(heap.blocks), m, op, r, mo) && NewResult(m, op, r)
    ensures heap.max == Max(old(heap.max), Use(mo.mid))
  {
    hide Consistent, Live, ChainOk, Coalesced, Lowest, UsedSpan, AllocatedBy, FreedAt, ReallocatedAt;
    r, own', mo := None, own, Moment(heap.blocks, heap.blocks);
    match op
    case Alloc(n) => r, own', mo := StepAlloc(heap, n, m, own);
    case Free(p) =>
      if p in m {
        mo := StepFree(heap, p, m, own);
      } else {
        assert m - {p} == m;
      }
    case Realloc(p, n) =>
      NullNotHeld(Live(heap.blocks), heap.data, heap.memSize + 2 * HDR, own, m);
      if p == NULL && n > 0 {
        r, own', mo := StepReallocNull(heap, n, m, own);
      } else if p in m && n > 0 {
        r, own', mo := StepRealloc(heap, p, n, m, own);
      } else if p in m {
        mo := StepReallocZero(heap, p, m, own);
      }
    case Write(p, i, v) =>
      if p in m && i < |m[p]| {
        StepWrite(heap, p, i, v, m, own);
      }
  }

  method StepAlloc(heap: SmallMem, n: nat, m: map<int, Contents>, ghost own: map<int, Block>)
    returns (r: Option<int>, ghost own': map<int, Block>, ghost mo: Moment<seq<Block>>)
    requires heap.Valid() && Consistent(Live(heap.blocks), heap.data, heap.memSize + 2 * HDR, own, m)
    modifies heap
    ensures heap.Valid() && heap.blocks == mo.after
    ensures Consistent(Live(heap.blocks), heap.data, heap.memSize + 2 * HDR, own', Step(m, Alloc(n), r))
    ensures AllocatedBy(old(heap.blocks), n, r, mo) && NewResult(m, Alloc(n), r)
    ensures heap.max == Max(old(heap.max), Use(mo.mid))
  {
    hide Live, Preserved, Carve, Coalesced, Consistent, Holds, NoneFits, Lowest, UsedSpan, Rounded, Tagged, AlignUp,
         Allocated;
    ghost var l, d := heap.blocks, heap.data;
    ghost var k;
    var q;
    q, k := heap.Alloc(n);
    mo := Moment(heap.blocks, heap.blocks);
    IsAllocated(l, k, n, q, heap.blocks);
    if q == NULL {
      return None, own, mo;
    }
    r, own' := Some(q), own[q := heap.blocks[k]];
    BlockInPool(heap.blocks, heap.memSize + 2 * HDR, k);
    TakenFresh(l, d, heap.memSize + 2 * HDR, own, m, k, Rounded(n), MIN_SIZE_ALIGNED, q, heap.blocks);
    RoundedUp(n);
    AllocConsistent(Live(l), d, Live(heap.blocks), heap.data, heap.memSize + 2 * HDR, own, m, q, heap.blocks[k], n);
  }

  method StepReallocNull(heap: SmallMem, n: nat, m: map<int, Contents>, ghost own: map<int, Block>)
    returns (r: Option<int>, ghost own': map<int, Block>, ghost mo: Moment<seq<Block>>)
    requires heap.Valid() && Consistent(Live(heap.blocks), heap.data, heap.memSize + 2 * HDR, own, m) && n > 0
    modifies heap
    ensures heap.Valid() && heap.blocks == mo.after
    ensures Consistent(Live(heap.blocks), heap.data, heap.memSize + 2 * HDR, own', Step(m, Alloc(n), r))
    ensures AllocatedBy(old(heap.blocks), n, r, mo) && NewResult(m, Alloc(n), r)
    ensures heap.max == Max(old(heap.max), Use(mo.mid))
  {
    hide Live, Preserved, Coalesced, Consistent, NoneFits, Reallocated, Lowest, UsedSpan, Rounded, AlignUp, Tagged,
         Allocated, Freed;
    ghost var l, d := heap.blocks, heap.data;
    ghost var mid, nb;
    var q;
    q, mid, nb := heap.Realloc(NULL, n, 0);
    mo := Moment(mid, mid);
    if q == NULL {
      return None, own, mo;
    }
    r, own' := Some(q), own[q := nb];
    ghost var k' := Found(heap.blocks, nb);
    BlockInPool(heap.blocks, heap.memSize + 2 * HDR, k');
    AllocFresh(l, d, heap.memSize + 2 * HDR, own, m, n, q, mid);
    RoundedUp(n);
    AllocConsistent(Live(l), d, Live(heap.blocks), heap.data, heap.memSize + 2 * HDR, own, m, q, nb, n);
  }

  lemma AllocFresh(l: seq<Block>, data: seq<byte>, pool: int, own: map<int, Block>, m: map<int, Contents>,
                   n: nat, q: int, l': seq<Block>)
    requires Tiles(l, HDR, 0, pool) && Consistent(Live(l), data, pool, own, m)
    requires Allocated(l, n, q, l') && q != NULL
    ensures q !in m
  {
    hide Consistent, Live, Tiles, NoneFits, TakenAt, Rounded;
    var k :| FirstTaken(l, k, Rounded(n), q, l');
    TakenFresh(l, data, pool, own, m, k, Rounded(n), MIN_SIZE_ALIGNED, q, l');
  }

  method StepFree(heap: SmallMem, p: int, m: map<int, Contents>, ghost own: map<int, Block>)
    returns (ghost mo: Moment<seq<Block>>)
    requires heap.Valid() && Consistent(Live(heap.blocks), heap.data, heap.memSize + 2 * HDR, own, m) && p in m
    modifies heap
    ensures heap.Valid() && heap.blocks == mo.after
    ensures Consistent(Live(heap.blocks), heap.data, heap.memSize + 2 * HDR, own, m - {p})
    ensures mo.mid == old(heap.blocks) && FreedAt(mo.mid, p - HDR, mo.after)
    ensures heap.max == Max(old(heap.max), Use(mo.mid))
  {
    hide Preserved, Coalesced, Lowest, UsedSpan, Freed, Tagged;
    ghost var l, d := heap.blocks, heap.data;
    ghost var k := Held(l, heap.memSize + 2 * HDR, own[p]);
    IndexHeld(l, heap.memSize + 2 * HDR, k);
    heap.Free(p, k);
    FreeConsistent(Live(l), d, Live(heap.blocks), heap.data, heap.memSize + 2 * HDR, own, m, p);
    mo := Moment(l, heap.blocks);
  }

  method StepRealloc(heap: SmallMem, p: int, n: nat, m: map<int, Contents>, ghost own: map<int, Block>)
    returns (r: Option<int>, ghost own': map<int, Block>, ghost mo: Moment<seq<Block>>)
    requires heap.Valid() && Consistent(Live(heap.blocks), heap.data, heap.memSize + 2 * HDR, own, m) && p in m
      && p != NULL && n > 0
    modifies heap
    ensures heap.Valid() && heap.blocks == mo.after
    ensures Consistent(Live(heap.blocks), heap.data, heap.memSize + 2 * HDR, own', Step(m, Realloc(p, n), r))
    ensures Does(old(heap.blocks), m, Realloc(p, n), r, mo) && NewResult(m, Realloc(p, n), r)
    ensures heap.max == Max(old(heap.max), Use(mo.mid))
  {
    hide AlignUp, Coalesced, Live, Preserved, SamePrefix, Lowest, UsedSpan, Reallocated, Allocated, Freed, Tagged,
         Rounded, NoneFits;
    RoundedUp(n);
    ghost var l, d := heap.blocks, heap.data;
    ghost var k := Held(l, heap.memSize + 2 * HDR, own[p]);
    IndexHeld(l, heap.memSize + 2 * HDR, k);
    ghost var mid, nb;
    var q;
    q, mid, nb := heap.Realloc(p, n, k);
    mo := Moment(mid, heap.blocks);
    r := if q == NULL then None else Some(q);
    own' := if q == NULL then own else own[q := nb];
    ReallocFresh(l, d, heap.memSize + 2 * HDR, own, m, k, AlignUp(n), q, mo);
    if q != NULL {
      ghost var k' := Found(heap.blocks, nb);
      BlockInPool(heap.blocks, heap.memSize + 2 * HDR, k');
      ReallocConsistent(Live(l), d, Live(heap.blocks), heap.data, heap.memSize + 2 * HDR, own, m, p, q, nb, n);
    }
  }

  /** realloc to size 0 frees. */
  method StepReallocZero(heap: SmallMem, p: int, m: map<int, Contents>, ghost own: map<int, Block>)
    returns (ghost mo: Moment<seq<Block>>)
    requires heap.Valid() && Consistent(Live(heap.blocks), heap.data, heap.memSize + 2 * HDR, own, m) && p in m
      && p != NULL
    modifies heap
    ensures heap.Valid() && heap.blocks == mo.after
    ensures Consistent(Live(heap.blocks), heap.data, heap.memSize + 2 * HDR, own, m - {p})
    ensures mo.mid == old(heap.blocks) && FreedAt(mo.mid, p - HDR, mo.after)
    ensures heap.max == Max(old(heap.max), Use(mo.mid))
  {
    hide Preserved, Coalesced, Lowest, UsedSpan, Freed, Tagged, Allocated, Reallocated, NoneFits, AlignUp, Rounded,
         SamePrefix;
    ghost var l, d := heap.blocks, heap.data;
    ghost var k := Held(l, heap.memSize + 2 * HDR, own[p]);
    IndexHeld(l, heap.memSize + 2 * HDR, k);
    ghost var mid, nb;
    var q;
    q, mid, nb := heap.Realloc(p, 0, k);
    FreeConsistent(Live(l), d, Live(heap.blocks), heap.data, heap.memSize + 2 * HDR, own, m, p);
    mo := Moment(l, heap.blocks);
  }

  /** What realloc hands out is the old block, or a block that was free. */
  lemma ReallocFresh(l: seq<Block>, data: seq<byte>, pool: int, own: map<int, Block>, m: map<int, Contents>,
                     k: nat, need: nat, q: int, mo: Moment<seq<Block>>)
    requires Tiles(l, HDR, 0, pool) && Consistent(Live(l), data, pool, own, m)
    requires k < |l| && Reallocated(l, k, need, q, mo.mid, mo.after)
    ensures q == NULL || q == l[k].addr + HDR || q !in m
  {
    hide Consistent, Live, Tiles, Allocated, Split, AbsorbRight, FreedAt;
    if q != NULL && q != l[k].addr + HDR {
      AllocFresh(l, data, pool, own, m, need, q, mo.mid);
    }
  }

  /** The program's stores stay clear of every header. */
  method StepWrite(heap: SmallMem, p: int, i: nat, v: byte, m: map<int, Contents>, ghost own: map<int, Block>)
    requires heap.Valid() && Consistent(Live(heap.blocks), heap.data, heap.memSize + 2 * HDR, own, m) && p in m
      && i < |m[p]|
    modifies heap`data
    ensures heap.Valid()
    ensures Consistent(Live(heap.blocks), heap.data, heap.memSize + 2 * HDR, own, m[p := m[p][i := Some(v)]])
    ensures !InHeader(Addrs(heap.blocks), p + i) && heap.data == old(heap.data)[p + i := v]
  {
    hide Coalesced, Lowest, UsedSpan, Tagged, InHeader, Consistent;
    ghost var d := heap.data;
    StoreConsistent(heap.blocks, d, heap.memSize + 2 * HDR, own, m, p, i, v);
    heap.Store(p + i, v);
  }

  /** Any sequence of calls: every call does to the block list exactly what Does
      says, and fails exactly when Does says; a block handed out is not held at that moment;
      every byte the program stored through a pointer it still holds can be read back; and
      the recorded maximum is the highest use of the whole run. */
  method RunProgram(heap: SmallMem, ops: seq<Op>)
    returns (rs: seq<Option<int>>, ghost own: map<int, Block>, ghost ms: seq<Moment<seq<Block>>>)
    requires heap.Valid()
    modifies heap
    ensures heap.Valid() && Trace(Does, old(heap.blocks), ops, rs, ms)
    ensures heap.blocks == Before(old(heap.blocks), ms, |ops|)
    ensures Consistent(Live(heap.blocks), heap.data, heap.memSize + 2 * HDR, own, Run(map[], ops, rs))
    ensures Peak(Use, heap.max, old(heap.max), ms)
  {
    hide Holds, Live, ChainOk, Coalesced, Lowest, UsedSpan, Does, NewResult, Run, Step, Before, Trace;
    rs, own, ms := [], map[], [];
    var m: map<int, Contents> := map[];
    ghost var l := heap.blocks;
    TraceStart(Does, l);
    for t := 0 to |ops|
      invariant heap.Valid() && |rs| == |ms| == t && m == Run(map[], ops[..t], rs)
      invariant Trace(Does, l, ops[..t], rs, ms) && heap.blocks == Before(l, ms, t)
      invariant Consistent(Live(heap.blocks), heap.data, heap.memSize + 2 * HDR, own, m)
      invariant Peak(Use, heap.max, old(heap.max), ms)
    {
      var r;
      ghost var mo;
      ghost var before := heap.max;
      r, own, mo := StepProgram(heap, ops[t], m, own);
      TraceSnoc(Does, l, ops[..t], rs, ms, ops[t], r, mo);
      PeakSnoc(Use, before, old(heap.max), ms, mo);
      assert ops[..t + 1] == ops[..t] + [ops[t]];
      m, rs, ms := Step(m, ops[t], r), rs + [r], ms + [mo];
    }
    assert ops[..|ops|] == ops;
  }

  lemma OneBlock(total: nat, mem: int)
    requires mem == AlignDown(total) - 2 * HDR >= MIN_SIZE_ALIGNED
    ensures var last := Block(mem + HDR, 0, true);
            var bs, bs' := [Block(0, mem, false), last], [Block(0, mem, true), last];
      && mem > 8 && Rounded(mem) == mem && !NoneFits(bs, mem)
      && Carve(bs, 0, mem, MIN_SIZE_ALIGNED) == bs'
      && NoneFits(bs', Rounded(mem - 8)) && !InPlace(mem, AlignUp(mem - 8))
  {
    assert !NoneFits([Block(0, mem, false), Block(mem + HDR, 0, true)], mem) by {
      var bs := [Block(0, mem, false), Block(mem + HDR, 0, true)];
      assert !bs[0].used && bs[0].size >= mem;
    }
  }

  /** A heap whose only block is in use cannot give back 8 of its bytes. */
  method ShrinkFails(memory: seq<byte>) returns (heap: SmallMem, p: int, q: int)
    requires AlignDown(|memory|) >= 2 * HDR + MIN_SIZE_ALIGNED
    ensures heap.Valid() && heap.blocks == [Block(0, heap.memSize, true), Block(heap.memSize + HDR, 0, true)]
    ensures p == HDR && q == NULL
  {
    hide ChainOk, Coalesced, Lowest, UsedSpan, Live, Preserved, SamePrefix, Reallocated, Freed, AlignUp, AlignDown,
         Rounded, NoneFits, Carve, InPlace;
    heap := new SmallMem(memory);
    OneBlock(|memory|, heap.memSize);
    ghost var k, mid, nb;
    p, k := heap.Alloc(heap.memSize);
    q, mid, nb := heap.Realloc(p, heap.memSize - 8, k);
  }
}
