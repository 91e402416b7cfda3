/** Circular doubly linked lists whose next and prev words are kept in maps
    from node address to node address. */
module Rings {

  type Links = map<int, int>

  ghost predicate Distinct(r: seq<int>) {
    forall i, j :: 0 <= i < j < |r| ==> r[i] != r[j]
  }

  function Succ(n: nat, i: nat): nat { if i + 1 < n then i + 1 else 0 }

  function Pred(n: nat, i: nat): int { if i > 0 then i - 1 else n - 1 }

  ghost predicate Node(nx: Links, pv: Links, x: int, n: int, p: int) {
    x in nx && x in pv && nx[x] == n && pv[x] == p
  }

  /** Following nx from r[0] visits r in order and comes back to r[0]; pv is
      the inverse of nx. */
  ghost predicate Ring(nx: Links, pv: Links, r: seq<int>) {
    && |r| > 0
    && Distinct(r)
    && forall i :: 0 <= i < |r| ==> Node(nx, pv, r[i], r[Succ(|r|, i)], r[Pred(|r|, i)])
  }

  function Without<T>(s: seq<T>, k: nat): seq<T>
    requires k < |s|
  {
    s[..k] + s[k + 1..]
  }

  function Inserted<T>(s: seq<T>, k: nat, x: T): seq<T>
    requires k <= |s|
  {
    s[..k] + [x] + s[k..]
  }

  lemma WithoutLacks(r: seq<int>, k: nat)
    requires Distinct(r) && k < |r|
    ensures r[k] !in Without(r, k)
  {
  }

  /** A node that left the ring may be overwritten. */
  lemma ForgetNode(nx: Links, pv: Links, r: seq<int>, x: int, v: int)
    requires Ring(nx, pv, r) && x !in r
    ensures Ring(nx[x := v], pv[x := v], r)
  {
    forall i | 0 <= i < |r| ensures r[i] in nx && r[i] in pv {
      assert Node(nx, pv, r[i], r[Succ(|r|, i)], r[Pred(|r|, i)]);
    }
    RingFrame(nx, pv, nx[x := v], pv[x := v], r);
  }

  /** Joining the neighbours of a node to each other takes it out of the ring. */
  lemma RemoveFromRing(nx: Links, pv: Links, r: seq<int>, k: nat)
    requires Ring(nx, pv, r) && 0 < k < |r|
    ensures r[k] in nx && r[k] in pv && nx[r[k]] in pv && pv[r[k]] in nx
    ensures Ring(nx[pv[r[k]] := nx[r[k]]], pv[nx[r[k]] := pv[r[k]]], Without(r, k))
    ensures nx[r[k]] in r && pv[r[k]] in r && nx[r[k]] != r[k]
  {
    var x := r[k];
    assert Node(nx, pv, r[k], r[Succ(|r|, k)], r[Pred(|r|, k)]);
    var s := Succ(|r|, k);
    assert Node(nx, pv, r[k - 1], r[Succ(|r|, k - 1)], r[Pred(|r|, k - 1)]);
    assert Node(nx, pv, r[s], r[Succ(|r|, s)], r[Pred(|r|, s)]);
    var nx', pv' := nx[pv[x] := nx[x]], pv[nx[x] := pv[x]];
    RemovedNodes(nx, pv, nx', pv', r, k, Without(r, k));
  }

  lemma RemovedNodes(nx: Links, pv: Links, nx': Links, pv': Links, r: seq<int>, k: nat, r': seq<int>)
    requires Ring(nx, pv, r) && 0 < k < |r|
    requires nx' == nx[r[k - 1] := r[Succ(|r|, k)]] && pv' == pv[r[Succ(|r|, k)] := r[k - 1]]
    requires |r'| == |r| - 1
    requires forall i :: 0 <= i < |r'| ==> r'[i] == r[if i < k then i else i + 1]
    ensures Ring(nx', pv', r')
  {
    forall i | 0 <= i < |r'| ensures Node(nx', pv', r'[i], r'[Succ(|r'|, i)], r'[Pred(|r'|, i)]) {
      var o := if i < k then i else i + 1;
      assert Node(nx, pv, r[o], r[Succ(|r|, o)], r[Pred(|r|, o)]);
    }
  }

  /** Put the new node x in front of node k (in front of node 0, at the far
      end of the list, when k == |r|). */
  lemma InsertIntoRing(nx: Links, pv: Links, r: seq<int>, k: nat, x: int)
    requires Ring(nx, pv, r) && 0 < k <= |r| && x !in r
    ensures var n := if k < |r| then r[k] else r[0];
      && n in pv && pv[n] == r[k - 1] && r[k - 1] in nx && nx[r[k - 1]] == n
      && Ring(nx[x := n][r[k - 1] := x], pv[x := r[k - 1]][n := x], Inserted(r, k, x))
  {
    var s := if k < |r| then k else 0;
    assert Node(nx, pv, r[k - 1], r[Succ(|r|, k - 1)], r[Pred(|r|, k - 1)]);
    assert Node(nx, pv, r[s], r[Succ(|r|, s)], r[Pred(|r|, s)]);
    InsertedNodes(nx, pv, nx[x := r[s]][r[k - 1] := x], pv[x := r[k - 1]][r[s] := x], r, k, x, Inserted(r, k, x));
  }

  lemma InsertedNodes(nx: Links, pv: Links, nx': Links, pv': Links, r: seq<int>, k: nat, x: int, r': seq<int>)
    requires Ring(nx, pv, r) && 0 < k <= |r| && x !in r
    requires var s := if k < |r| then r[k] else r[0];
      nx' == nx[x := s][r[k - 1] := x] && pv' == pv[x := r[k - 1]][s := x]
    requires |r'| == |r| + 1 && r'[k] == x
    requires forall i :: 0 <= i < |r'| && i != k ==> r'[i] == r[if i < k then i else i - 1]
    ensures Ring(nx', pv', r')
  {
    forall i | 0 <= i < |r'| ensures Node(nx', pv', r'[i], r'[Succ(|r'|, i)], r'[Pred(|r'|, i)]) {
      if i != k {
        var o := if i < k then i else i - 1;
        assert Node(nx, pv, r[o], r[Succ(|r|, o)], r[Pred(|r|, o)]);
      }
    }
  }

  ghost predicate Agree(m: Links, m': Links, r: seq<int>) {
    forall i :: 0 <= i < |r| ==> r[i] in m && r[i] in m' && m'[r[i]] == m[r[i]]
  }

  /** A ring only depends on the words of its own nodes. */
  lemma RingFrame(nx: Links, pv: Links, nx': Links, pv': Links, r: seq<int>)
    requires Ring(nx, pv, r)
    requires Agree(nx, nx', r) && Agree(pv, pv', r)
    ensures Ring(nx', pv', r)
  {
    forall i | 0 <= i < |r| ensures Node(nx', pv', r[i], r[Succ(|r|, i)], r[Pred(|r|, i)]) {
      assert Node(nx, pv, r[i], r[Succ(|r|, i)], r[Pred(|r|, i)]);
    }
  }
}
