/** Whole runs of a program against one memheap. */
module MemHeapRuns {
  import opened Basics
  import opened Blocks
  import opened AllocClient
  import opened Payloads
  import opened ClientViews
  import opened MemHeapLists
  import opened MemHeaps

  /** What is in use, headers included. */
  ghost function Use(pool: int): Layout -> int {
    (l: Layout) => pool - FreeBytes(l.blocks)
  }

  /** alloc has been asked for n bytes. */
  ghost predicate AllocatedBy(l: Layout, n: nat, r: Option<int>, mo: Moment<Layout>) {
    r != Some(NULL) && mo.mid == mo.after && Allocated(l, Rounded(n), Pointer(r), mo.after)
  }

  /** The block at p has been resized to n bytes. */
  ghost predicate ReallocatedAt(l: Layout, p: int, n: nat, r: Option<int>, mo: Moment<Layout>) {
    && IndexOf(l.blocks, p - HDR) < |l.blocks| && r != Some(NULL)
    && Reallocated(l, IndexOf(l.blocks, p - HDR), Rounded(n), Pointer(r), mo.mid, mo.after)
  }

  /** What one call does to layout l for a program that holds m, and what it returns: realloc of NULL
      is alloc.  Calls with a pointer the program does not hold are not made. */
  ghost predicate Does(l: Layout, m: map<int, Contents>, op: Op, r: Option<int>, mo: Moment<Layout>) {
    match op
    case Alloc(n) => AllocatedBy(l, n, r, mo)
    case Free(p) => r == None && mo.mid == l && (if p in m then FreedAt(l, p - HDR, mo.after) else mo.after == l)
    case Realloc(p, n) =>
      if p == NULL && n > 0 then AllocatedBy(l, n, r, mo)
      else if p in m && n > 0 then ReallocatedAt(l, p, n, r, mo)
      else r == None && mo.mid == l && (if p in m then FreedAt(l, p - HDR, mo.after) else mo.after == l)
    case Write(_, _, _) => r == None && mo == Moment(l, l)
  }

  /** realloc of a held block to a size above 0 fails exactly when the block is too small, cannot
      grow in place, and alloc refuses. */
  lemma ReallocFails(l: Layout, pool: int, m: map<int, Contents>, p: int, n: nat, r: Option<int>, mo: Moment<Layout>)
    requires Does(l, m, Realloc(p, n), r, mo) && p in m && p != NULL && n > 0 && Tiles(l.blocks, HDR, 0, pool)
    ensures var k := IndexOf(l.blocks, p - HDR);
      r == None <==>
        Rounded(n) > l.blocks[k].size && !Growable(l.blocks, k, Rounded(n)) && Refused(l.blocks, Rounded(n))
    ensures r == None ==> mo.after == l
  {
    hide Refused, FreeBytes, Rounded, FirstTaken, Tiles, Cut, Grown;
    BlockInPool(l.blocks, pool, IndexOf(l.blocks, p - HDR));
  }

  /** One call. */
  method StepProgram(heap: MemHeap, op: Op, m: map<int, Contents>, ghost own: map<int, Block>)
    returns (r: Option<int>, ghost own': map<int, Block>, ghost mo: Moment<Layout>)
    requires heap.Valid() && Consistent(Live(heap.blocks), heap.data, heap.poolSize, own, m)
    modifies heap
    ensures heap.Valid() && heap.View() == mo.after
    ensures Consistent(Live(heap.blocks), heap.data, heap.poolSize, own', Step(m, op, r))
    ensures Does(old(heap.View()), m, op, r, mo) && NewResult(m, op, r)
    ensures heap.maxUsed == Max(old(heap.maxUsed), Use(heap.poolSize)(mo.mid))
  {
    hide Consistent, Live, ListOk, Coalesced, FreeBag, FreeBytes, AllocatedBy, FreedAt, ReallocatedAt, Rounded;
    r, own', mo := None, own, Moment(heap.View(), heap.View());
    match op
    case Alloc(n) => r, own', mo := StepAlloc(heap, n, m, own);
    case Free(p) =>
      if p in m {
        mo := StepFree(heap, p, m, own);
      } else {
        assert m - {p} == m;
      }
    case Realloc(p, n) =>
      NullNotHeld(Live(heap.blocks), heap.data, heap.poolSize, own, m);
      if p == NULL && n > 0 {
        r, own', mo := StepReallocNull(heap, n, m, own);
      } else if p in m && n > 0 {
        r, own', mo := StepRealloc(heap, p, n, m, own);
      } else if p in m {
        mo := StepReallocZero(heap, p, m, own);
      }
    case Write(p, i, v) =>
      if p in m && i < |m[p]| {
        StepWrite(heap, p, i, v, m, own);
      }
  }

  method StepAlloc(heap: MemHeap, n: nat, m: map<int, Contents>, ghost own: map<int, Block>)
    returns (r: Option<int>, ghost own': map<int, Block>, ghost mo: Moment<Layout>)
    requires heap.Valid() && Consistent(Live(heap.blocks), heap.data, heap.poolSize, own, m)
    modifies heap
    ensures heap.Valid() && heap.View() == mo.after
    ensures Consistent(Live(heap.blocks), heap.data, heap.poolSize, own', Step(m, Alloc(n), r))
    ensures AllocatedBy(old(heap.View()), n, r, mo) && NewResult(m, Alloc(n), r)
    ensures heap.maxUsed == Max(old(heap.maxUsed), Use(heap.poolSize)(mo.mid))
  {
    hide Live, Preserved, Carve, Coalesced, Consistent, Holds, Refused, FreeBag, FreeBytes, Rounded, CarveFrees, Tagged,
         FirstIn, Allocated;
    ghost var l, d := heap.View(), heap.data;
    ghost var k, j;
    var q;
    q, k, j := heap.Alloc(n);
    mo := Moment(heap.View(), heap.View());
    IsAllocated(l, k, j, Rounded(n), q, heap.View());
    if q == NULL {
      return None, own, mo;
    }
    r, own' := Some(q), own[q := heap.blocks[k]];
    BlockInPool(heap.blocks, heap.poolSize, k);
    TakenFresh(l.blocks, d, heap.poolSize, own, m, k, Rounded(n), MINIALLOC, q, heap.blocks);
    RoundedUp(n);
    AllocConsistent(Live(l.blocks), d, Live(heap.blocks), heap.data, heap.poolSize, own, m, q, heap.blocks[k], n);
  }

  method StepReallocNull(heap: MemHeap, n: nat, m: map<int, Contents>, ghost own: map<int, Block>)
    returns (r: Option<int>, ghost own': map<int, Block>, ghost mo: Moment<Layout>)
    requires heap.Valid() && Consistent(Live(heap.blocks), heap.data, heap.poolSize, own, m) && n > 0
    modifies heap
    ensures heap.Valid() && heap.View() == mo.after
    ensures Consistent(Live(heap.blocks), heap.data, heap.poolSize, own', Step(m, Alloc(n), r))
    ensures AllocatedBy(old(heap.View()), n, r, mo) && NewResult(m, Alloc(n), r)
    ensures heap.maxUsed == Max(old(heap.maxUsed), Use(heap.poolSize)(mo.mid))
  {
    hide Live, Preserved, Coalesced, Consistent, Refused, Growable, Reallocated, FreeBag, FreeBytes, Rounded, Tagged,
         Allocated, Freed;
    ghost var l, d := heap.View(), heap.data;
    ghost var mid, nb;
    var q;
    q, mid, nb := heap.Realloc(NULL, n, 0);
    mo := Moment(mid, mid);
    if q == NULL {
      return None, own, mo;
    }
    r, own' := Some(q), own[q := nb];
    ghost var k' := Found(heap.blocks, nb);
    BlockInPool(heap.blocks, heap.poolSize, k');
    AllocFresh(l, d, heap.poolSize, own, m, Rounded(n), q, mid);
    RoundedUp(n);
    AllocConsistent(Live(l.blocks), d, Live(heap.blocks), heap.data, heap.poolSize, own, m, q, nb, n);
  }

  lemma AllocFresh(l: Layout, data: seq<byte>, pool: int, own: map<int, Block>, m: map<int, Contents>,
                   need: nat, q: int, l': Layout)
    requires Tiles(l.blocks, HDR, 0, pool) && Consistent(Live(l.blocks), data, pool, own, m)
    requires Allocated(l, need, q, l') && q != NULL
    ensures q !in m
  {
    hide Consistent, Live, Tiles, Refused, TakenAt, FirstIn, CarveFrees;
    var k, j :| FirstTaken(l, k, j, need, q, l');
    TakenFresh(l.blocks, data, pool, own, m, k, need, MINIALLOC, q, l'.blocks);
  }

  method StepFree(heap: MemHeap, p: int, m: map<int, Contents>, ghost own: map<int, Block>)
    returns (ghost mo: Moment<Layout>)
    requires heap.Valid() && Consistent(Live(heap.blocks), heap.data, heap.poolSize, own, m) && p in m
    modifies heap
    ensures heap.Valid() && heap.View() == mo.after
    ensures Consistent(Live(heap.blocks), heap.data, heap.poolSize, own, m - {p})
    ensures mo.mid == old(heap.View()) && FreedAt(mo.mid, p - HDR, mo.after)
    ensures heap.maxUsed == Max(old(heap.maxUsed), Use(heap.poolSize)(mo.mid))
  {
    hide Preserved, Coalesced, FreeBag, FreeBytes, Released, Tagged, ReleasedFrees;
    ghost var l, d := heap.View(), heap.data;
    ghost var k := Held(l.blocks, heap.poolSize, own[p]);
    IndexHeld(l.blocks, heap.poolSize, k);
    heap.Free(p, k);
    FreeConsistent(Live(l.blocks), d, Live(heap.blocks), heap.data, heap.poolSize, own, m, p);
    mo := Moment(l, heap.View());
  }

  method StepRealloc(heap: MemHeap, p: int, n: nat, m: map<int, Contents>, ghost own: map<int, Block>)
    returns (r: Option<int>, ghost own': map<int, Block>, ghost mo: Moment<Layout>)
    requires heap.Valid() && Consistent(Live(heap.blocks), heap.data, heap.poolSize, own, m) && p in m
      && p != NULL && n > 0
    modifies heap
    ensures heap.Valid() && heap.View() == mo.after
    ensures Consistent(Live(heap.blocks), heap.data, heap.poolSize, own', Step(m, Realloc(p, n), r))
    ensures Does(old(heap.View()), m, Realloc(p, n), r, mo) && NewResult(m, Realloc(p, n), r)
    ensures heap.maxUsed == Max(old(heap.maxUsed), Use(heap.poolSize)(mo.mid))
  {
    hide ListOk, Tiles, AlignUp, Coalesced, Live, Preserved, SamePrefix, FreeBag, FreeBytes, Reallocated, Allocated,
         Released, Freed, Tagged,
         Rounded, Refused, Growable;
    RoundedUp(n);
    ListTiles(heap.magic, heap.next, heap.prev, heap.blocks, heap.poolSize);
    ghost var l, d := heap.View(), heap.data;
    ghost var k := Held(l.blocks, heap.poolSize, own[p]);
    IndexHeld(l.blocks, heap.poolSize, k);
    ghost var mid, nb;
    var q;
    q, mid, nb := heap.Realloc(p, n, k);
    mo := Moment(mid, heap.View());
    r := if q == NULL then None else Some(q);
    own' := if q == NULL then own else own[q := nb];
    ReallocFresh(l, d, heap.poolSize, own, m, k, Rounded(n), q, mo);
    if q != NULL {
      ListTiles(heap.magic, heap.next, heap.prev, heap.blocks, heap.poolSize);
      ghost var k' := Found(heap.blocks, nb);
      BlockInPool(heap.blocks, heap.poolSize, k');
      ReallocConsistent(Live(l.blocks), d, Live(heap.blocks), heap.data, heap.poolSize, own, m, p, q, nb, n);
    }
  }

  /** realloc to size 0 frees. */
  method StepReallocZero(heap: MemHeap, p: int, m: map<int, Contents>, ghost own: map<int, Block>)
    returns (ghost mo: Moment<Layout>)
    requires heap.Valid() && Consistent(Live(heap.blocks), heap.data, heap.poolSize, own, m) && p in m && p != NULL
    modifies heap
    ensures heap.Valid() && heap.View() == mo.after
    ensures Consistent(Live(heap.blocks), heap.data, heap.poolSize, own, m - {p})
    ensures mo.mid == old(heap.View()) && FreedAt(mo.mid, p - HDR, mo.after)
    ensures heap.maxUsed == Max(old(heap.maxUsed), Use(heap.poolSize)(mo.mid))
  {
    hide Preserved, Coalesced, FreeBag, FreeBytes, Released, Tagged, ReleasedFrees, Allocated, Reallocated, Refused,
         AlignUp, Rounded, SamePrefix;
    ghost var l, d := heap.View(), heap.data;
    ghost var k := Held(l.blocks, heap.poolSize, own[p]);
    IndexHeld(l.blocks, heap.poolSize, k);
    ghost var mid, nb;
    var q;
    q, mid, nb := heap.Realloc(p, 0, k);
    FreeConsistent(Live(l.blocks), d, Live(heap.blocks), heap.data, heap.poolSize, own, m, p);
    mo := Moment(l, heap.View());
  }

  /** What realloc hands out is the old block, or a block that was free. */
  lemma ReallocFresh(l: Layout, data: seq<byte>, pool: int, own: map<int, Block>, m: map<int, Contents>,
                     k: nat, need: nat, q: int, mo: Moment<Layout>)
    requires Tiles(l.blocks, HDR, 0, pool) && Consistent(Live(l.blocks), data, pool, own, m)
    requires k < |l.blocks| && Reallocated(l, k, need, q, mo.mid, mo.after)
    ensures q == NULL || q == l.blocks[k].addr + HDR || q !in m
  {
    hide Consistent, Live, Tiles, Growable, Allocated, Cut, Grown, FreedAt;
    if q != NULL && q != l.blocks[k].addr + HDR {
      AllocFresh(l, data, pool, own, m, need, q, mo.mid);
    }
  }

  /** The program's stores stay clear of every header. */
  method StepWrite(heap: MemHeap, p: int, i: nat, v: byte, m: map<int, Contents>, ghost own: map<int, Block>)
    requires heap.Valid() && Consistent(Live(heap.blocks), heap.data, heap.poolSize, own, m) && p in m && i < |m[p]|
    modifies heap`data
    ensures heap.Valid()
    ensures Consistent(Live(heap.blocks), heap.data, heap.poolSize, own, m[p := m[p][i := Some(v)]])
    ensures !InHeader(Addrs(heap.blocks), p + i) && heap.data == old(heap.data)[p + i := v]
  {
    hide Coalesced, FreeBag, FreeBytes, Tagged, InHeader, Consistent;
    ghost var d := heap.data;
    StoreConsistent(heap.blocks, d, heap.poolSize, own, m, p, i, v);
    heap.Store(p + i, v);
  }

  /** Any sequence of calls: every call does to block list and free list exactly what Does
      says, and fails exactly when Does says; a block handed out is not held at that moment;
      every byte the program stored through a pointer it still holds can be read back; and
      max_used_size is the highest use of the whole run. */
  method RunProgram(heap: MemHeap, ops: seq<Op>)
    returns (rs: seq<Option<int>>, ghost own: map<int, Block>, ghost ms: seq<Moment<Layout>>)
    requires heap.Valid()
    modifies heap
    ensures heap.Valid() && Trace(Does, old(heap.View()), ops, rs, ms)
    ensures heap.View() == Before(old(heap.View()), ms, |ops|)
    ensures Consistent(Live(heap.blocks), heap.data, heap.poolSize, own, Run(map[], ops, rs))
    ensures Peak(Use(heap.poolSize), heap.maxUsed, old(heap.maxUsed), ms)
  {
    hide Holds, Live, ListOk, Coalesced, FreeBag, FreeBytes, Does, NewResult, Run, Step, Before, Trace;
    rs, own, ms := [], map[], [];
    var m: map<int, Contents> := map[];
    ghost var l := heap.View();
    TraceStart(Does, l);
    for t := 0 to |ops|
      invariant heap.Valid() && |rs| == |ms| == t && m == Run(map[], ops[..t], rs)
      invariant Trace(Does, l, ops[..t], rs, ms) && heap.View() == Before(l, ms, t)
      invariant Consistent(Live(heap.blocks), heap.data, heap.poolSize, own, m)
      invariant Peak(Use(heap.poolSize), heap.maxUsed, old(heap.maxUsed), ms)
    {
      var r;
      ghost var mo;
      ghost var before := heap.maxUsed;
      r, own, mo := StepProgram(heap, ops[t], m, own);
      TraceSnoc(Does, l, ops[..t], rs, ms, ops[t], r, mo);
      PeakSnoc(Use(heap.poolSize), before, old(heap.maxUsed), ms, mo);
      assert ops[..t + 1] == ops[..t] + [ops[t]];
      m, rs, ms := Step(m, ops[t], r), rs + [r], ms + [mo];
    }
    assert ops[..|ops|] == ops;
  }

  /** A fresh pool gives nothing to the request for its whole free block. */
  method AskForAll(memory: seq<byte>, best: bool) returns (heap: MemHeap, n: nat, q: int)
    requires AlignDown(|memory|) >= 2 * HDR
    ensures heap.Valid() && heap.blocks == [Block(0, n, false), Block(n + HDR, 0, true)] && q == NULL
  {
    hide ListOk, Coalesced, FreeBag, Live, Preserved, Carve, FirstIn;
    heap := new MemHeap(memory, best);
    n := heap.poolSize - 2 * HDR;
    FreshPoolRefuses(heap.poolSize);
    ghost var k, j;
    q, k, j := heap.Alloc(n);
  }
}
