/** What both allocators make of a list of blocks, written out as lists. */
module BlockLaws {
  import opened Blocks
  import opened Payloads

  /** Block k gives m bytes and becomes used: whole, unless a block of `least` bytes fits behind. */
  ghost function Given(l: seq<Block>, k: nat, m: nat, least: nat): seq<Block>
    requires k < |l|
  {
    var a, size := l[k].addr, l[k].size;
    if size < m + HDR + least then l[..k] + [Block(a, size, true)] + l[k + 1..]
    else l[..k] + [Block(a, m, true), Block(a + HDR + m, size - m - HDR, false)] + l[k + 1..]
  }

  /** Block k keeps m bytes; the rest is free, together with a free block behind it. */
  ghost function CutDown(l: seq<Block>, k: nat, m: nat): seq<Block>
    requires k + 1 < |l|
  {
    var a, size := l[k].addr, l[k].size;
    if l[k + 1].used then l[..k] + [Block(a, m, true), Block(a + HDR + m, size - m - HDR, false)] + l[k + 1..]
    else l[..k] + [Block(a, m, true), Block(a + HDR + m, size - m + l[k + 1].size, false)] + l[k + 2..]
  }

  /** Block k and its free neighbours are one free block. */
  ghost function GivenBack(l: seq<Block>, k: nat): seq<Block>
    requires k + 1 < |l|
  {
    var lo, hi := if k > 0 && !l[k - 1].used then k - 1 else k, if l[k + 1].used then k + 1 else k + 2;
    l[..lo] + [Block(l[lo].addr, l[hi - 1].addr + l[hi - 1].size - l[lo].addr, false)] + l[hi..]
  }

  lemma CarvePlain(l: seq<Block>, k: nat, m: nat, least: nat)
    requires k < |l|
    ensures Carve(l, k, m, least) == Given(l, k, m, least)
  {
    var u := Split(l, k, HDR, m);
    assert u[..k] == l[..k] && u[k + 1..] == [Block(l[k].addr + HDR + m, l[k].size - m - HDR, false)] + l[k + 1..];
  }

  lemma CutPlain(l: seq<Block>, k: nat, m: nat)
    requires k < |l| - 1 && l[k].used
    ensures AbsorbRight(Split(l, k, HDR, m), k + 1) == CutDown(l, k, m)
  {
    hide AbsorbRight, Split;
    var x, z := Block(l[k].addr, m, true), Block(l[k].addr + HDR + m, l[k].size - m - HDR, false);
    SplitPlain(l, k, m);
    var u := Split(l, k, HDR, m);
    assert u[k + 1] == z && u[k + 2] == l[k + 1] && u[..k + 1] == l[..k] + [x] && u[k + 3..] == l[k + 2..];
    AbsorbPlain(u, k + 1);
    if !l[k + 1].used {
      Regroup(l[..k], x, z.(size := l[k].size - m + l[k + 1].size), l[k + 2..]);
    }
  }

  lemma SplitPlain(l: seq<Block>, k: nat, m: nat)
    requires k < |l| && l[k].used
    ensures Split(l, k, HDR, m)
            == l[..k] + [Block(l[k].addr, m, true), Block(l[k].addr + HDR + m, l[k].size - m - HDR, false)] + l[k + 1..]
  {
    Regroup(l[..k], Block(l[k].addr, m, true), Block(l[k].addr + HDR + m, l[k].size - m - HDR, false), l[k + 1..]);
  }

  lemma Regroup(a: seq<Block>, x: Block, y: Block, c: seq<Block>)
    ensures a + [x] + [y] + c == a + [x, y] + c == a + ([x] + ([y] + c))
  {
  }

  lemma NextTo(l: seq<Block>, pool: int, k: nat)
    requires Tiles(l, HDR, 0, pool) && k < |l| - 1
    ensures l[k + 1].addr == l[k].addr + HDR + l[k].size
  {
  }

  lemma MarkPlain(l: seq<Block>, k: nat)
    requires k < |l|
    ensures Mark(l, k, false) == l[..k] + [Block(l[k].addr, l[k].size, false)] + l[k + 1..]
  {
  }

  lemma MergePlain(l: seq<Block>, k: nat)
    requires k + 1 < |l|
    ensures Merge(l, k, HDR) == l[..k] + [Block(l[k].addr, l[k].size + HDR + l[k + 1].size, l[k].used)] + l[k + 2..]
  {
  }

  lemma AbsorbPlain(l: seq<Block>, k: nat)
    requires k + 1 < |l|
    ensures AbsorbRight(l, k) == if l[k + 1].used then l
      else l[..k] + [Block(l[k].addr, l[k].size + HDR + l[k + 1].size, l[k].used)] + l[k + 2..]
  {
    hide Merge;
    if !l[k + 1].used {
      MergePlain(l, k);
    }
  }

  /** Block k is free, together with a free block behind it. */
  ghost function WithRight(l: seq<Block>, k: nat): seq<Block>
    requires k + 1 < |l|
  {
    var hi := if l[k + 1].used then k + 1 else k + 2;
    l[..k] + [Block(l[k].addr, l[hi - 1].addr + l[hi - 1].size - l[k].addr, false)] + l[hi..]
  }

  lemma RightJoined(l: seq<Block>, k: nat, t: seq<Block>)
    requires k < |l| - 1 && l[k + 1].addr == l[k].addr + HDR + l[k].size
    requires t == l[..k] + [Block(l[k].addr, l[k].size, false)] + l[k + 1..]
    ensures AbsorbRight(t, k) == WithRight(l, k)
  {
    hide AbsorbRight;
    assert t[k + 1] == l[k + 1] && t[..k] == l[..k] && t[k + 2..] == l[k + 2..];
    AbsorbPlain(t, k);
  }

  lemma WithRightOnly(l: seq<Block>, k: nat)
    requires k + 1 < |l| && (k > 0 ==> l[k - 1].used)
    ensures WithRight(l, k) == GivenBack(l, k)
  {
  }

  lemma JoinLeft(l: seq<Block>, u: seq<Block>, k: nat, hi: nat, x: Block)
    requires 0 < k < hi <= |l| && u == l[..k] + [x] + l[hi..] && x.addr == l[k - 1].addr + HDR + l[k - 1].size
    ensures Merge(u, k - 1, HDR)
            == l[..k - 1] + [Block(l[k - 1].addr, x.addr + x.size - l[k - 1].addr, l[k - 1].used)] + l[hi..]
  {
    hide Merge;
    assert u[..k - 1] == l[..k - 1] && u[k + 1..] == l[hi..];
    MergePlain(u, k - 1);
  }
}
