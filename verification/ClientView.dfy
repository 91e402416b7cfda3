/** The blocks a program holds, seen from inside an allocator. */
module ClientViews {
  import opened Basics
  import opened Blocks
  import opened AllocClient
  import opened Payloads

  /** Block own[p] is live at p, is not the tail, and holds the bytes the
      program stored there. */
  ghost predicate Holds(live: set<Block>, data: seq<byte>, pool: int, own: map<int, Block>, p: int, c: Contents) {
    && p in own && own[p] in live && own[p].addr == p - HDR && 0 <= own[p].addr < pool - HDR
    && |c| <= own[p].size && p + |c| <= |data|
    && forall i :: 0 <= i < |c| && c[i].Some? ==> data[p + i] == c[i].value
  }

  ghost predicate Consistent(live: set<Block>, data: seq<byte>, pool: int, own: map<int, Block>,
                             m: map<int, Contents>)
  {
    forall p :: p in m ==> Holds(live, data, pool, own, p, m[p])
  }

  /** Every byte the program's view records is in the memory. */
  lemma StoredReads(live: set<Block>, data: seq<byte>, pool: int, own: map<int, Block>, m: map<int, Contents>,
                    p: int, i: nat)
    requires Consistent(live, data, pool, own, m) && p in m && i < |m[p]| && m[p][i].Some?
    ensures 0 <= p + i < |data| && data[p + i] == m[p][i].value
  {
    assert Holds(live, data, pool, own, p, m[p]);
  }

  /** The index of a held block. */
  lemma Held(bs: seq<Block>, pool: int, b: Block) returns (k: nat)
    requires Tiles(bs, HDR, 0, pool) && |bs| >= 2 && bs[|bs| - 1] == Block(pool - HDR, 0, true)
    requires b in Live(bs) && b.addr < pool - HDR
    ensures k < |bs| - 1 && bs[k] == b && b.used
  {
    k :| 0 <= k < |bs| && bs[k] == b;
  }

  lemma HoldsKept(live: set<Block>, d: seq<byte>, live': set<Block>, d': seq<byte>, pool: int,
                  own: map<int, Block>, own': map<int, Block>, p: int, c: Contents)
    requires Holds(live, d, pool, own, p, c)
    requires p in own' && own'[p] == own[p] && own[p] in live' && SamePayload(d, d', own[p])
    ensures Holds(live', d', pool, own', p, c)
  {
  }

  /** A new block joins what the program holds. */
  lemma AllocConsistent(live: set<Block>, d: seq<byte>, live': set<Block>, d': seq<byte>, pool: int,
                        own: map<int, Block>, m: map<int, Contents>, q: int, nb: Block, n: nat)
    requires Consistent(live, d, pool, own, m) && live <= live' && nb in live' && Preserved(d, d', live, NULL)
    requires nb.addr == q - HDR && 0 <= nb.addr < pool - HDR && n <= nb.size && q + n <= |d'|
    ensures Consistent(live', d', pool, own[q := nb], m[q := Unwritten(n)])
  {
    hide SamePayload;
    var own', m' := own[q := nb], m[q := Unwritten(n)];
    forall p | p in m' ensures Holds(live', d', pool, own', p, m'[p]) {
      if p != q {
        HoldsKept(live, d, live', d', pool, own, own', p, m[p]);
      }
    }
  }

  /** The contents of a resized block. */
  lemma HoldsResized(live: set<Block>, d: seq<byte>, live': set<Block>, d': seq<byte>, pool: int,
                     own: map<int, Block>, own': map<int, Block>, p: int, q: int, c: Contents, n: nat)
    requires Holds(live, d, pool, own, p, c) && q in own' && own'[q] in live' && n <= own'[q].size
    requires own'[q].addr == q - HDR && 0 <= own'[q].addr < pool - HDR && q + n <= |d'|
    requires exists k :: Min(own[p].size, n) <= k && SamePrefix(d, d', own[p], own'[q], k)
    ensures Holds(live', d', pool, own', q, Resize(c, n))
  {
    var r := Resize(c, n);
    var k :| Min(own[p].size, n) <= k && SamePrefix(d, d', own[p], own'[q], k);
    forall i | 0 <= i < n && r[i].Some? ensures d'[q + i] == r[i].value {
      assert i < |c| && i < k;
      assert d'[q..q + k][i] == d[p..p + k][i];
    }
  }

  lemma BlockInPool(bs: seq<Block>, pool: int, k: nat)
    requires Tiles(bs, HDR, 0, pool) && k < |bs|
    ensures 0 <= bs[k].addr && bs[k].End(HDR) <= pool
  {
    AllApart(bs, HDR, 0, pool);
  }

  lemma Found(bs: seq<Block>, b: Block) returns (k: nat)
    requires b in Live(bs)
    ensures k < |bs| && bs[k] == b
  {
    k :| 0 <= k < |bs| && bs[k] == b;
  }

  /** Live blocks do not overlap. */
  lemma Disjoint(bs: seq<Block>, pool: int, a: Block, b: Block)
    requires Tiles(bs, HDR, 0, pool) && a in Live(bs) && b in Live(bs) && a != b
    ensures a.End(HDR) <= b.addr || b.End(HDR) <= a.addr
  {
    AllApart(bs, HDR, 0, pool);
  }

  lemma NullNotHeld(live: set<Block>, d: seq<byte>, pool: int, own: map<int, Block>, m: map<int, Contents>)
    requires Consistent(live, d, pool, own, m)
    ensures NULL !in m
  {
    assert NULL in m ==> Holds(live, d, pool, own, NULL, m[NULL]);
  }

  /** A released block leaves what the program holds. */
  lemma FreeConsistent(live: set<Block>, d: seq<byte>, live': set<Block>, d': seq<byte>, pool: int,
                       own: map<int, Block>, m: map<int, Contents>, p: int)
    requires Consistent(live, d, pool, own, m) && p in m && Preserved(d, d', live, p - HDR)
    requires live' == live - {own[p]}
    ensures Consistent(live', d', pool, own, m - {p})
  {
    hide SamePayload;
    forall p' | p' in m && p' != p ensures Holds(live', d', pool, own, p', m[p']) {
      HoldsKept(live, d, live', d', pool, own, own, p', m[p']);
    }
  }

  /** A resized block takes the place of the old one. */
  lemma ReallocConsistent(live: set<Block>, d: seq<byte>, live': set<Block>, d': seq<byte>, pool: int,
                          own: map<int, Block>, m: map<int, Contents>, p: int, q: int, nb: Block, n: nat)
    requires Consistent(live, d, pool, own, m) && p in m && Preserved(d, d', live, p - HDR)
    requires live' == live - {own[p]} + {nb} && n <= nb.size
    requires nb.addr == q - HDR && 0 <= nb.addr < pool - HDR && q + n <= |d'|
    requires exists k :: Min(own[p].size, n) <= k && SamePrefix(d, d', own[p], nb, k)
    ensures Consistent(live', d', pool, own[q := nb], (m - {p})[q := Resize(m[p], n)])
  {
    hide SamePayload, SamePrefix, Resize;
    var own' := own[q := nb];
    forall p' | p' in m && p' != p && p' != q ensures Holds(live', d', pool, own', p', m[p']) {
      HoldsKept(live, d, live', d', pool, own, own', p', m[p']);
    }
    HoldsResized(live, d, live', d', pool, own, own', p, q, m[p], n);
  }

  /** A store goes to the payload of a held block: no header, and no other block, is touched. */
  lemma StoreConsistent(bs: seq<Block>, d: seq<byte>, pool: int, own: map<int, Block>, m: map<int, Contents>,
                        p: int, i: nat, v: byte)
    requires Tiles(bs, HDR, 0, pool) && |d| == pool && Consistent(Live(bs), d, pool, own, m) && p in m && i < |m[p]|
    ensures 0 <= p + i < pool && !InHeader(Addrs(bs), p + i)
    ensures forall j :: 0 <= j < |bs| ==> p + i < bs[j].addr || bs[j].addr + HDR <= p + i
    ensures Consistent(Live(bs), d[p + i := v], pool, own, m[p := m[p][i := Some(v)]])
  {
    hide Tiles, Live;
    var k := Found(bs, own[p]);
    BlockInPool(bs, pool, k);
    PayloadClear(bs, pool, k, p + i);
    forall p' | p' in m && p' != p ensures Holds(Live(bs), d[p + i := v], pool, own, p', m[p']) {
      Disjoint(bs, pool, own[p], own[p']);
      HoldsKept(Live(bs), d, Live(bs), d[p + i := v], pool, own, own, p', m[p']);
    }
  }

  lemma PayloadClear(bs: seq<Block>, pool: int, k: nat, a: int)
    requires Tiles(bs, HDR, 0, pool) && k < |bs| && bs[k].addr + HDR <= a < bs[k].End(HDR)
    ensures !InHeader(Addrs(bs), a) && forall j :: 0 <= j < |bs| ==> a < bs[j].addr || bs[j].addr + HDR <= a
  {
    AllApart(bs, HDR, 0, pool);
    assert forall j :: 0 <= j < |bs| && j != k ==> bs[j].End(HDR) <= bs[k].addr || bs[k].End(HDR) <= bs[j].addr;
    forall x | x in Addrs(bs) ensures !(x <= a < x + HDR) {
      AddrsAt(bs, x);
    }
  }

  /** A held block is found by its address. */
  lemma IndexHeld(bs: seq<Block>, pool: int, k: nat)
    requires Tiles(bs, HDR, 0, pool) && k < |bs|
    ensures IndexOf(bs, bs[k].addr) == k
  {
    TilesDistinct(bs, HDR, 0, pool);
    IndexIs(bs, k);
  }

  // ----- whole runs

  /** What one call makes of an allocator's layout S: the layout when most is in use, and the
      one it leaves. */
  datatype Moment<S> = Moment(mid: S, after: S)

  /** What a call does to a layout for a program that holds certain blocks, and what it returns. */
  type CallRelation<!S> = (S, map<int, Contents>, Op, Option<int>, Moment<S>) -> bool

  /** The layout in front of call i of a run that starts with layout l. */
  ghost function Before<S>(l: S, ms: seq<Moment<S>>, i: nat): S
    requires i <= |ms|
  {
    if i == 0 then l else ms[i - 1].after
  }

  /** Every call of a run from layout l does what it should to the layout it finds, and
      hands out no block the program holds at that moment. */
  ghost predicate Trace<S>(does: CallRelation<S>, l: S, ops: seq<Op>, rs: seq<Option<int>>, ms: seq<Moment<S>>) {
    && |ops| == |rs| == |ms|
    && forall i :: 0 <= i < |ops| ==>
         && does(Before(l, ms, i), Run(map[], ops[..i], rs[..i]), ops[i], rs[i], ms[i])
         && NewResult(Run(map[], ops[..i], rs[..i]), ops[i], rs[i])
  }

  lemma TraceStart<S>(does: CallRelation<S>, l: S)
    ensures Trace(does, l, [], [], []) && Before(l, [], 0) == l && Run(map[], [], []) == map[]
  {
  }

  lemma TraceSnoc<S>(does: CallRelation<S>, l: S, ops: seq<Op>, rs: seq<Option<int>>, ms: seq<Moment<S>>,
                     op: Op, r: Option<int>, mo: Moment<S>)
    requires Trace(does, l, ops, rs, ms)
    requires does(Before(l, ms, |ms|), Run(map[], ops, rs), op, r, mo) && NewResult(Run(map[], ops, rs), op, r)
    ensures Trace(does, l, ops + [op], rs + [r], ms + [mo])
    ensures Before(l, ms + [mo], |ms| + 1) == mo.after
    ensures Run(map[], ops + [op], rs + [r]) == Step(Run(map[], ops, rs), op, r)
  {
    hide NewResult, Run;
    RunSnoc(map[], ops, rs, op, r);
    var ops', rs', ms' := ops + [op], rs + [r], ms + [mo];
    forall i | 0 <= i < |ops'| ensures does(Before(l, ms', i), Run(map[], ops'[..i], rs'[..i]), ops'[i], rs'[i], ms'[i])
      && NewResult(Run(map[], ops'[..i], rs'[..i]), ops'[i], rs'[i])
    {
      assert ops'[..i] == ops[..i] && rs'[..i] == rs[..i];
      assert Before(l, ms', i) == Before(l, ms, i);
      if i == |ops| {
        assert ops[..i] == ops && rs[..i] == rs;
      }
    }
  }

  /** max is the highest use of a run that starts with the recorded maximum start. */
  ghost predicate Peak<S>(use: S -> int, max: int, start: int, ms: seq<Moment<S>>) {
    && start <= max && (forall i :: 0 <= i < |ms| ==> use(ms[i].mid) <= max && use(ms[i].after) <= max)
    && (max == start || exists i :: 0 <= i < |ms| && max == use(ms[i].mid))
  }

  lemma PeakSnoc<S>(use: S -> int, max: int, start: int, ms: seq<Moment<S>>, mo: Moment<S>)
    requires Peak(use, max, start, ms) && use(mo.after) <= Max(max, use(mo.mid))
    ensures Peak(use, Max(max, use(mo.mid)), start, ms + [mo])
  {
    var ms', max' := ms + [mo], Max(max, use(mo.mid));
    assert ms'[|ms|] == mo;
    if max' == max && max != start {
      var i :| 0 <= i < |ms| && max == use(ms[i].mid);
      assert ms'[i] == ms[i];
    }
  }

  /** The pointer the program is given. */
  function Pointer(r: Option<int>): int { if r.None? then NULL else r.value }

  /** A block handed out is not held yet; only realloc may give its own block back. */
  ghost predicate NewResult(m: map<int, Contents>, op: Op, r: Option<int>) {
    && (op.Alloc? && r.Some? ==> r.value !in m)
    && (op.Realloc? && r.Some? ==> r.value == op.p || r.value !in m)
  }

  /** A free block is held by nobody. */
  lemma TakenFresh(bs: seq<Block>, data: seq<byte>, pool: int, own: map<int, Block>, m: map<int, Contents>,
                   k: nat, need: nat, limit: nat, q: int, bs': seq<Block>)
    requires Tiles(bs, HDR, 0, pool) && Consistent(Live(bs), data, pool, own, m)
    requires TakenAt(bs, k, need, limit, q, bs')
    ensures q !in m && q != NULL
  {
    hide Carve;
    AllApart(bs, HDR, 0, pool);
    if q in m {
      assert Holds(Live(bs), data, pool, own, q, m[q]);
      var i := Found(bs, own[q]);
      assert false;
    }
  }
}
