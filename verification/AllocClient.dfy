/** What a program sees of an allocator: pointers and the bytes it has stored
    through them. */
module AllocClient {
  import opened Basics

  const NULL: int := -2

  /** Contents of one block as far as the program has written it. */
  type Contents = seq<Option<byte>>

  datatype Op =
    | Alloc(n: nat)
    | Free(p: int)
    | Realloc(p: int, n: nat)
    | Write(p: int, i: nat, v: byte)

  function Unwritten(n: nat): (c: Contents)
    ensures |c| == n && forall i :: 0 <= i < n ==> c[i] == None
  {
    seq(n, _ => None)
  }

  /** A block's contents after realloc to n bytes: the common prefix survives. */
  function Resize(c: Contents, n: nat): (r: Contents)
    ensures |r| == n && forall i :: 0 <= i < n && i < |c| ==> r[i] == c[i]
  {
    if n <= |c| then c[..n] else c + Unwritten(n - |c|)
  }

  /** The blocks the program holds after one call that returned r.  It passes on only
      NULL and pointers it holds; NULL results of alloc and realloc change nothing. */
  function Step(m: map<int, Contents>, op: Op, r: Option<int>): map<int, Contents>
    decreases op.Realloc?
  {
    match op
    case Alloc(n) => if r.None? then m else m[r.value := Unwritten(n)]
    case Free(p) => m - {p}
    case Realloc(p, n) =>
      if p == NULL && n > 0 then Step(m, Alloc(n), r)
      else if p !in m then m
      else if n == 0 then m - {p}
      else if r.None? then m
      else (m - {p})[r.value := Resize(m[p], n)]
    case Write(p, i, v) => if p in m && i < |m[p]| then m[p := m[p][i := Some(v)]] else m
  }

  /** The same for a whole run. */
  function Run(m: map<int, Contents>, ops: seq<Op>, rs: seq<Option<int>>): map<int, Contents>
    requires |ops| == |rs|
  {
    if ops == [] then m
    else Step(Run(m, ops[..|ops| - 1], rs[..|rs| - 1]), ops[|ops| - 1], rs[|rs| - 1])
  }

  /** A stored byte stays in the view until a store to the same place, a free or realloc of its block, or an
      allocation at its address. */
  lemma StaysStored(m: map<int, Contents>, op: Op, r: Option<int>, p: int, i: nat, v: byte)
    requires p in m && i < |m[p]| && m[p][i] == Some(v)
    requires (op.Alloc? || op.Realloc?) && r.Some? ==> r.value != p
    requires op.Write? ==> op.p != p || op.i != i
    requires op.Free? || op.Realloc? ==> op.p != p
    ensures var m' := Step(m, op, r); p in m' && |m'[p]| == |m[p]| && m'[p][i] == Some(v)
  {
  }

  /** A store puts the byte into the view, and a realloc that succeeds takes it along up to the new size. */
  lemma GetsStored(m: map<int, Contents>, op: Op, r: Option<int>)
    ensures op.Write? && op.p in m && op.i < |m[op.p]| ==>
              Step(m, op, r) == m[op.p := m[op.p][op.i := Some(op.v)]]
    ensures op.Realloc? && op.p in m && op.n > 0 && r.Some? && op.p != NULL ==>
              && r.value in Step(m, op, r) && |Step(m, op, r)[r.value]| == op.n
              && forall i :: 0 <= i < op.n && i < |m[op.p]| ==> Step(m, op, r)[r.value][i] == m[op.p][i]
    ensures op.Alloc? && r.Some? ==> r.value in Step(m, op, r) && |Step(m, op, r)[r.value]| == op.n
  {
  }

  lemma RunSnoc(m: map<int, Contents>, ops: seq<Op>, rs: seq<Option<int>>, op: Op, r: Option<int>)
    requires |ops| == |rs|
    ensures Run(m, ops + [op], rs + [r]) == Step(Run(m, ops, rs), op, r)
  {
    assert (ops + [op])[..|ops|] == ops && (rs + [r])[..|rs|] == rs;
  }
}
