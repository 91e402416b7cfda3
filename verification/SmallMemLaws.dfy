/** What the calls of the small memory heap do, in plain numbers and lists. */
module SmallMemLaws {
  import opened Basics
  import opened Blocks
  import opened AllocClient
  import opened Payloads
  import opened BlockLaws
  import opened ClientViews
  import opened SmallMemLists
  import opened SmallMemRuns

  /** MIN_SIZE rounded up to 8 bytes. */
  const LEAST: nat := if MIN_SIZE == 12 then 16 else 24

  /** A request for n bytes takes m: the next multiple of 8, but no less than LEAST. */
  predicate Takes(n: nat, m: nat) {
    m % 8 == 0 && n <= m && LEAST <= m && (m < n + 8 || m == LEAST)
  }

  lemma TakesRounded(n: nat, m: nat)
    requires Takes(n, m)
    ensures Rounded(n) == m && MIN_SIZE_ALIGNED == LEAST
  {
    assert m == m / 8 * 8;
  }

  lemma Aligned(n: nat, m: nat)
    requires m % 8 == 0 && n <= m < n + 8
    ensures AlignUp(n) == m
  {
    assert m == m / 8 * 8;
  }

  /** A request n > 0 fails if and only if every free block is smaller than what it takes.  Otherwise the
      first block in address order that is not smaller gives it. */
  lemma AllocPlain(l: seq<Block>, n: nat, m: nat, r: Option<int>, mo: Moment<seq<Block>>) returns (k: nat)
    requires AllocatedBy(l, n, r, mo) && Takes(n, m)
    ensures r == None <==> n == 0 || forall i :: 0 <= i < |l| && !l[i].used ==> l[i].size < m
    ensures r == None ==> mo.after == l
    ensures r.Some? ==>
      && k < |l| && !l[k].used && m <= l[k].size && r == Some(l[k].addr + HDR) && mo.after == Given(l, k, m, LEAST)
      && forall i :: 0 <= i < k && !l[i].used ==> l[i].size < m
  {
    TakesRounded(n, m);
    hide Rounded, Carve, Given;
    k := 0;
    if r.Some? {
      k :| FirstTaken(l, k, m, r.value, mo.after);
      CarvePlain(l, k, m, LEAST);
    }
  }

  /** So a request of at least MIN_SIZE bytes that fails finds no free block of n + 8 bytes. */
  lemma FailsOnlyFull(l: seq<Block>, n: nat, mo: Moment<seq<Block>>, i: nat)
    requires AllocatedBy(l, n, None, mo) && n >= MIN_SIZE && i < |l| && !l[i].used
    ensures l[i].size < n + 8
  {
    hide AllocatedBy;
    var k := AllocPlain(l, n, (n + 7) / 8 * 8, None, mo);
  }

  /** A block that is freed and its free neighbours become one. */
  lemma FreePlain(l: seq<Block>, pool: int, k: nat, l': seq<Block>)
    requires Tiles(l, HDR, 0, pool) && k < |l| - 1 && l[|l| - 1].used && FreedAt(l, l[k].addr, l')
    ensures l' == GivenBack(l, k)
  {
    hide Freed, GivenBack;
    IndexHeld(l, pool, k);
    FreedPlain(l, pool, k);
  }

  lemma FreedPlain(l: seq<Block>, pool: int, k: nat)
    requires Tiles(l, HDR, 0, pool) && k < |l| - 1 && l[|l| - 1].used
    ensures Freed(l, k) == GivenBack(l, k)
  {
    hide Mark, AbsorbRight, Merge, Tiles, GivenBack;
    NextTo(l, pool, k);
    MarkPlain(l, k);
    var t := Mark(l, k, false);
    RightJoined(l, k, t);
    RightThenLeft(l, pool, k, AbsorbRight(t, k));
  }

  lemma RightThenLeft(l: seq<Block>, pool: int, k: nat, u: seq<Block>)
    requires Tiles(l, HDR, 0, pool) && k < |l| - 1
    requires u == WithRight(l, k)
    ensures (if k > 0 && !u[k - 1].used then Merge(u, k - 1, HDR) else u) == GivenBack(l, k)
  {
    hide Merge, Tiles;
    if k > 0 && !l[k - 1].used {
      NextTo(l, pool, k - 1);
      JoinLeft(l, u, k, if l[k + 1].used then k + 1 else k + 2, u[k]);
    }
  }

  /** realloc of block k to n > 0 bytes, m being n rounded up to 8: the pointer stays if and only if the size
      is m already or leaves more than a header and MIN_SIZE behind m, whatever else is free. */
  lemma ReallocPlain(l: seq<Block>, pool: int, k: nat, n: nat, m: nat, r: Option<int>, mo: Moment<seq<Block>>)
    requires Tiles(l, HDR, 0, pool) && k < |l| - 1 && l[k].used && l[|l| - 1].used
    requires ReallocatedAt(l, l[k].addr + HDR, n, r, mo) && m % 8 == 0 && 0 < n <= m < n + 8
    ensures r == Some(l[k].addr + HDR) <==> l[k].size == m || l[k].size > m + HDR + MIN_SIZE
    ensures l[k].size == m ==> mo.mid == mo.after == l
    ensures l[k].size > m + HDR + MIN_SIZE ==> mo.mid == l && mo.after == CutDown(l, k, m)
    ensures r != Some(l[k].addr + HDR) ==>
      && (r == None <==> forall i :: 0 <= i < |l| && !l[i].used ==> l[i].size < Max(m, LEAST))
      && (r == None ==> mo.after == l) && AllocatedBy(l, n, r, Moment(mo.mid, mo.mid))
      && (r.Some? ==> FreedAt(mo.mid, l[k].addr, mo.after))
  {
    hide AlignUp, AbsorbRight, Split, Freed, Tiles, CutDown, Allocated, AllocatedBy, IndexOf, FreedAt;
    Aligned(n, m);
    IndexHeld(l, pool, k);
    if InPlace(l[k].size, m) {
      BlockInPool(l, pool, k);
      CutPlain(l, k, m);
    } else {
      MovePlain(l, pool, k, n, m, r, mo);
    }
  }

  lemma MovePlain(l: seq<Block>, pool: int, k: nat, n: nat, m: nat, r: Option<int>, mo: Moment<seq<Block>>)
    requires Tiles(l, HDR, 0, pool) && k < |l| && l[k].used && r != Some(NULL) && 0 < n && AlignUp(n) == m
    requires Moved(l, k, m, Pointer(r), mo.mid, mo.after)
    ensures r != Some(l[k].addr + HDR)
    ensures r == None <==> forall i :: 0 <= i < |l| && !l[i].used ==> l[i].size < Max(m, LEAST)
    ensures (r == None ==> mo.after == l) && AllocatedBy(l, n, r, Moment(mo.mid, mo.mid))
    ensures r.Some? ==> FreedAt(mo.mid, l[k].addr, mo.after)
  {
    hide AlignUp, Rounded, Freed, Tiles, Allocated, Given, FreedAt;
    var at := Moment(mo.mid, mo.mid);
    RoundedUp(n);
    AskAligned(l, n, m, r, at);
    var j := AllocPlain(l, m, Max(m, LEAST), r, at);
    if r.Some? {
      Positions(l, pool, j, k);
    }
  }

  lemma AskAligned(l: seq<Block>, n: nat, m: nat, r: Option<int>, at: Moment<seq<Block>>)
    requires 0 < n && AlignUp(n) == m && r != Some(NULL) && Allocated(l, m, Pointer(r), at.after) && at.mid == at.after
    ensures AllocatedBy(l, n, r, at) && AllocatedBy(l, m, r, at)
  {
    hide AlignUp, Rounded, NoneFits;
    RoundedUp(n);
  }

  /** What is in use and what is free make up the heap, but for the end block's header. */
  lemma UseIs(l: seq<Block>, pool: int)
    requires Tiles(l, HDR, 0, pool)
    ensures Use(l) + FreeBytes(l) + FreeHeaders(l, HDR) == pool - HDR
  {
    Conservation(l, HDR, 0, pool);
  }
}
