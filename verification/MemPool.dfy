/** rt_mp: a pool of equal blocks with an intrusive free list.  The first word
    of a free block links to the next free block, that of an allocated block
    points to the pool.  Each method is one interrupt-disabled section, so any
    order of calls is an interleaving of the callers. */
module MemPools {
  import opened Blocks
  import opened Rings

  /** sizeof(rt_uint8_t *) */
  type PointerSize = n: nat | n == 4 || n == 8 witness 4
  const PTR: PointerSize

  const NULL: int := -1
  const POOL: int := -2   // the address of the pool object, as stored in allocated blocks

  datatype ThreadState =
    | Ready
    | Suspended             // linked into suspend_thread
    | Resumed(ok: bool)     // back on the ready list; thread->error == RT_EOK iff ok

  datatype Outcome =
    | Got(p: int)
    | Failed                // rt_mp_alloc returns RT_NULL
    | Waits                 // the thread goes to sleep inside rt_mp_alloc
    | Done                  // a section that returns nothing
    | Skipped               // a section that does not take place

  datatype Section =
    | Alloc(t: int, mayWait: bool)
    | Awake(t: int, mayWait: bool)
    | TimerFires(t: int)
    | Release(p: int)

  /** The pool as its callers see it. */
  datatype Pool = Pool(free: seq<int>, held: set<int>, suspended: seq<int>, threads: map<int, ThreadState>)

  /** A thread asks for a block. */
  function Ask(s: Pool, t: int, mayWait: bool): (Pool, Outcome) {
    if |s.free| > 0 then
      (Pool(s.free[1..], s.held + {s.free[0]}, s.suspended, s.threads[t := Ready]), Got(s.free[0] + PTR))
    else if mayWait then (s.(suspended := [t] + s.suspended, threads := s.threads[t := Suspended]), Waits)
    else (s.(threads := s.threads[t := Ready]), Failed)
  }

  /** Thread t asks in this section: it calls alloc, or was resumed without an error. */
  predicate Asks(s: Pool, sec: Section) {
    || (sec.Alloc? && sec.t in s.threads && s.threads[sec.t] == Ready)
    || (sec.Awake? && sec.t in s.threads && s.threads[sec.t] == Resumed(true))
  }

  /** One section. One whose thread is not in the right state, and the release of
      a block that is not held, do not take place. */
  function Act(s: Pool, sec: Section): (Pool, Outcome) {
    match sec
    case Alloc(t, mayWait) => if Asks(s, sec) then Ask(s, t, mayWait) else (s, Skipped)
    case Awake(t, mayWait) =>
      if Asks(s, sec) then Ask(s, t, mayWait)
      else if t in s.threads && s.threads[t] == Resumed(false) then (s.(threads := s.threads[t := Ready]), Failed)
      else (s, Skipped)
    case TimerFires(t) =>
      if t in s.threads && s.threads[t] == Suspended then
        (s.(suspended := Leave(s.suspended, t), threads := s.threads[t := Resumed(false)]), Done)
      else (s, Skipped)
    case Release(p) =>
      if p - PTR !in s.held then (s, Skipped)
      else (ResumeFirst(s.(free := [p - PTR] + s.free, held := s.held - {p - PTR})), Done)
  }

  function ResumeFirst(s: Pool): Pool {
    if s.suspended == [] then s
    else s.(suspended := s.suspended[1..], threads := s.threads[s.suspended[0] := Resumed(true)])
  }

  /** q without its first t. */
  function Leave(q: seq<int>, t: int): seq<int> {
    if q == [] then [] else if q[0] == t then q[1..] else [q[0]] + Leave(q[1..], t)
  }

  lemma {:induction false} LeaveAt(q: seq<int>, k: nat)
    requires k < |q| && forall i :: 0 <= i < k ==> q[i] != q[k]
    ensures Leave(q, q[k]) == q[..k] + q[k + 1..]
  {
    if k > 0 {
      LeaveAt(q[1..], k - 1);
      assert [q[0]] + q[1..][..k - 1] == q[..k];
    }
  }

  /** The word at a links to the block after it on the free list. */
  ghost predicate Links(word: map<int, int>, free: seq<int>, i: nat)
    requires i < |free|
  {
    free[i] in word && word[free[i]] == if i + 1 < |free| then free[i + 1] else NULL
  }

  /** blockList leads through all of free, each block once, and ends. */
  ghost predicate FreeChain(word: map<int, int>, head: int, free: seq<int>) {
    && head == (if |free| > 0 then free[0] else NULL)
    && Distinct(free)
    && forall i :: 0 <= i < |free| ==> Links(word, free, i)
  }

  /** Block n of the pool. */
  function Nth(n: nat, stride: nat): int { n * stride }

  ghost function AllBlocks(total: nat, stride: nat): set<int> {
    set n | 0 <= n < total :: Nth(n, stride)
  }

  lemma BlocksApart(m: nat, n: nat, stride: nat)
    requires m < n
    ensures Nth(m, stride) + stride <= Nth(n, stride)
    decreases n
  {
    assert Nth(n, stride) == Nth(n - 1, stride) + stride;
    if m < n - 1 {
      BlocksApart(m, n - 1, stride);
    }
  }

  lemma PopChain(word: map<int, int>, free: seq<int>)
    requires |free| > 0 && FreeChain(word, free[0], free)
    ensures free[0] in word && FreeChain(word[free[0] := POOL], word[free[0]], free[1..])
  {
    assert Links(word, free, 0);
    var w, f := word[free[0] := POOL], free[1..];
    forall i | 0 <= i < |f| ensures Links(w, f, i) {
      assert Links(word, free, i + 1);
    }
  }

  lemma PushChain(word: map<int, int>, head: int, free: seq<int>, a: int)
    requires FreeChain(word, head, free) && a !in free
    ensures FreeChain(word[a := head], a, [a] + free)
  {
    var w, f := word[a := head], [a] + free;
    forall i | 0 <= i < |f| ensures Links(w, f, i) {
      if i > 0 { assert Links(word, free, i - 1); }
    }
  }

  lemma InitChain(word: map<int, int>, f: seq<int>, total: nat, stride: nat)
    requires |f| == total > 0 && stride > 0
    requires forall i :: 0 <= i < total ==> f[i] == Nth(i, stride) && f[i] in word
    requires forall i :: 0 <= i < total - 1 ==> word[f[i]] == Nth(i + 1, stride)
    requires word[f[total - 1]] == NULL
    ensures FreeChain(word, Nth(0, stride), f)
    ensures forall a :: a in f ==> a in AllBlocks(total, stride)
  {
    forall i, j | 0 <= i < j < |f| ensures f[i] != f[j] {
      BlocksApart(i, j, stride);
    }
    forall i | 0 <= i < |f| ensures Links(word, f, i) {
      assert i < total - 1 ==> f[i + 1] == Nth(i + 1, stride);
    }
  }

  lemma BlockAddr(a: int, total: nat, stride: nat)
    requires a in AllBlocks(total, stride)
    ensures a >= 0
  {
    var n :| 0 <= n < total && a == Nth(n, stride);
    assert n * stride >= 0;
  }

  lemma {:induction false} BlockCount(total: nat, stride: nat)
    requires stride > 0
    ensures |AllBlocks(total, stride)| == total
  {
    if total > 0 {
      BlockCount(total - 1, stride);
      var last := Nth(total - 1, stride);
      forall n | 0 <= n < total - 1 ensures Nth(n, stride) != last {
        BlocksApart(n, total - 1, stride);
      }
      assert AllBlocks(total, stride) == AllBlocks(total - 1, stride) + {last};
    }
  }

  lemma AtLeastOne(size: nat, stride: nat)
    requires size >= stride > 0
    ensures size / stride > 0
  {
  }

  lemma WholeBlocks(size: nat, blockSize: nat, stride: nat)
    requires blockSize > 0 && stride == AlignUp(blockSize) + PTR
    ensures blockSize + PTR <= stride < blockSize + PTR + 8 && (stride - PTR) % 8 == 0
    ensures var n := AlignDown(size) / stride; n * stride <= size - size % 8 < (n + 1) * stride
  {
    var a := AlignDown(size);
    assert a == size - size % 8;
    assert a == a / stride * stride + a % stride;
  }

  /** Initialise the free block list: each block links to the next one, the last to NULL. */
  method LinkBlocks(total: nat, stride: nat) returns (w: map<int, int>, ghost f: seq<int>)
    requires total > 0 && stride > 0
    ensures FreeChain(w, Nth(0, stride), f) && |f| == total
    ensures forall a :: a in w ==> a in f
    ensures forall a :: a in f ==> a in AllBlocks(total, stride)
  {
    hide Nth, AllBlocks;
    w, f := map[], [];
    var offset := 0;
    while offset < total
      invariant 0 <= offset <= total && |f| == offset && forall a :: a in w ==> a in f
      invariant forall i :: 0 <= i < offset ==> f[i] == Nth(i, stride) && f[i] in w && w[f[i]] == Nth(i + 1, stride)
    {
      forall i | 0 <= i < offset ensures Nth(i, stride) != Nth(offset, stride) {
        BlocksApart(i, offset, stride);
      }
      w := w[Nth(offset, stride) := Nth(offset + 1, stride)];
      f := f + [Nth(offset, stride)];
      offset := offset + 1;
    }
    forall i | 0 <= i < offset - 1 ensures Nth(i, stride) != Nth(offset - 1, stride) {
      BlocksApart(i, offset - 1, stride);
    }
    w := w[Nth(offset - 1, stride) := NULL];
    InitChain(w, f, total, stride);
  }

  class MemPool {
    const stride: nat               // block_size + sizeof(rt_uint8_t *)
    const total: nat                // block_total_count
    var word: map<int, int>         // block address -> its first word
    var blockList: int
    var freeCount: nat
    var suspended: seq<int>         // suspend_thread, first to be resumed first
    var threads: map<int, ThreadState>

    ghost var free: seq<int>        // the free list
    ghost var held: set<int>        // the allocated blocks

    ghost predicate Valid()
      reads this
    {
      && stride > PTR
      && FreeChain(word, blockList, free)
      && freeCount == |free|
      && (forall a :: a in free ==> a in AllBlocks(total, stride) && a !in held)
      && held <= AllBlocks(total, stride)
      && freeCount + |held| == total
      && (forall a :: a in held ==> a in word && word[a] == POOL)
      && (forall a :: a in word ==> a in held || a in free)
      && Distinct(suspended)
      && (forall t :: t in suspended <==> t in threads && threads[t] == Suspended)
    }

    lemma MarkedHeld(a: int)
      requires Valid() && a in word && word[a] == POOL
      ensures a in held && a + PTR != NULL
    {
      Marked(word, blockList, free, held, total, stride, a);
      BlockAddr(a, total, stride);
    }

    lemma UnmarkedFree(a: int)
      requires Valid() && !(a in word && word[a] == POOL)
      ensures a !in held
    {
    }

    ghost function State(): Pool
      reads this
    {
      Pool(free, held, suspended, threads)
    }

    lemma InitialInv()
      requires Valid() && Initial(State())
      ensures Inv(State(), total)
    {
      hide AllBlocks;
    }

    /** rt_mp_init for a system with the given threads; the pool must have room for one block. */
    constructor (size: nat, blockSize: nat, ts: set<int>)
      requires blockSize > 0 && AlignDown(size) >= AlignUp(blockSize) + PTR
      ensures Valid() && Initial(State()) && threads.Keys == ts && freeCount == total > 0
      ensures stride == AlignUp(blockSize) + PTR && total == AlignDown(size) / stride
      ensures blockSize + PTR <= stride < blockSize + PTR + 8 && (stride - PTR) % 8 == 0
      ensures total * stride <= size - size % 8 < (total + 1) * stride
    {
      hide AlignUp, AlignDown;
      var st := AlignUp(blockSize) + PTR;
      var n := AlignDown(size) / st;
      stride, total := st, n;
      freeCount := n;
      suspended, threads := [], map t | t in ts :: Ready;
      AtLeastOne(AlignDown(size), st);
      WholeBlocks(size, blockSize, st);
      var w;
      ghost var f;
      w, f := LinkBlocks(n, st);
      word, blockList, free, held := w, Nth(0, st), f, {};
    }

    /** rt_mp_alloc from disabling interrupts to enabling them again: take a
        block, give up, or go to sleep.  The source's assertion that the list
        head is not NULL is the first statement after the test of the count. */
    method TryAlloc(t: int, mayWait: bool) returns (r: Outcome)
      requires Valid() && t in threads && !threads[t].Suspended?
      modifies this
      ensures Valid() && (State(), r) == Ask(old(State()), t, mayWait)
      ensures r == Waits ==>
        && old(freeCount) == 0 && mayWait && threads == old(threads)[t := Suspended]
        && suspended == [t] + old(suspended) && held == old(held) && free == old(free)
      ensures r != Waits ==> threads == old(threads)[t := Ready] && suspended == old(suspended)
      ensures r == Failed <==> old(freeCount) == 0 && !mayWait
      ensures r == Failed ==> held == old(held) && free == old(free)
      ensures r.Got? <==> old(freeCount) > 0
      ensures r.Got? || r == Failed || r == Waits
      ensures r.Got? ==>
        && |old(free)| > 0 && r.p - PTR == old(free)[0] && free == old(free)[1..]
        && r.p - PTR !in old(held) && held == old(held) + {r.p - PTR}
        && word[r.p - PTR] == POOL
    {
      hide AllBlocks, FreeChain, Distinct;
      if freeCount == 0 {
        if !mayWait {
          KeepRunning(t);
          return Failed;
        }
        GoToSleep(t);
        return Waits;
      }
      var blockPtr := TakeHead();
      KeepRunning(t);
      return Got(blockPtr + PTR);
    }

    method KeepRunning(t: int)
      requires Valid() && t in threads && !threads[t].Suspended?
      modifies `threads
      ensures Valid() && threads == old(threads)[t := Ready]
    {
      hide AllBlocks, FreeChain, Distinct;
      threads := threads[t := Ready];
    }

    /** Puts the calling thread at the head of the waiting list. */
    method GoToSleep(t: int)
      requires Valid() && t in threads && !threads[t].Suspended?
      modifies `suspended, `threads
      ensures Valid() && suspended == [t] + old(suspended) && threads == old(threads)[t := Suspended]
    {
      hide AllBlocks, FreeChain;
      suspended := [t] + suspended;
      threads := threads[t := Suspended];
    }

    /** Takes the first free block off the list. */
    method TakeHead() returns (blockPtr: int)
      requires Valid() && freeCount > 0
      modifies `freeCount, `blockList, `word, `free, `held
      ensures Valid() && |old(free)| > 0 && blockPtr == old(free)[0] && blockPtr !in old(held)
      ensures free == old(free)[1..] && held == old(held) + {blockPtr} && word[blockPtr] == POOL
    {
      hide AllBlocks, FreeChain;
      HeadOf(word, blockList, free);
      freeCount := freeCount - 1;
      blockPtr := blockList;
      BlockAddr(free[0], total, stride);
      assert blockPtr != NULL;
      PopChain(word, free);
      blockList := word[blockPtr];
      word := word[blockPtr := POOL];
      free, held := free[1..], held + {blockPtr};
    }

    /** What a resumed thread does when it runs again: report the error it was
        woken with, or go round the loop and look again. */
    method AfterSleep(t: int, mayWait: bool) returns (r: Outcome)
      requires Valid() && t in threads && threads[t].Resumed?
      modifies this
      ensures Valid() && (State(), r) == Act(old(State()), Awake(t, mayWait))
      ensures !old(threads[t]).ok ==>
        && r == Failed && threads == old(threads)[t := Ready]
        && held == old(held) && free == old(free) && suspended == old(suspended)
      ensures old(threads[t]).ok ==>
        && (r.Got? <==> old(freeCount) > 0)
        && (r == Failed <==> old(freeCount) == 0 && !mayWait)
        && (r == Waits ==> suspended == [t] + old(suspended) && threads == old(threads)[t := Suspended])
        && (r != Waits ==> suspended == old(suspended) && threads == old(threads)[t := Ready])
      ensures r.Got? ==>
        && |old(free)| > 0 && r.p - PTR == old(free)[0] && free == old(free)[1..]
        && held == old(held) + {r.p - PTR} && r.p - PTR !in old(held)
      ensures !r.Got? ==> held == old(held) && free == old(free)
    {
      hide AllBlocks, FreeChain;
      if !threads[t].ok {
        KeepRunning(t);
        return Failed;
      }
      r := TryAlloc(t, mayWait);
    }

    /** The timer of a waiting thread fires. */
    method Timeout(t: int)
      requires Valid() && t in threads && threads[t] == Suspended
      modifies `suspended, `threads
      ensures Valid() && (State(), Done) == Act(old(State()), TimerFires(t))
      ensures threads == old(threads)[t := Resumed(false)]
      ensures forall u :: u in suspended <==> u in old(suspended) && u != t
    {
      hide FreeChain, AllBlocks, Leave;
      ghost var i :| 0 <= i < |suspended| && suspended[i] == t;
      var k := 0;
      while suspended[k] != t
        invariant 0 <= k <= i && forall j :: 0 <= j < k ==> suspended[j] != t
        decreases i - k
      {
        k := k + 1;
      }
      LeaveAt(suspended, k);
      LeaveMembers(suspended, t);
      suspended := suspended[..k] + suspended[k + 1..];
      threads := threads[t := Resumed(false)];
    }

    /** rt_mp_free: put the block back and resume the first waiting thread. */
    method Free(p: int)
      requires Valid() && (p == NULL || p - PTR in held)
      modifies this
      ensures Valid()
      ensures p != NULL ==> (State(), Done) == Act(old(State()), Release(p))
      ensures p == NULL ==> suspended == old(suspended)
      ensures p == NULL ==> held == old(held) && free == old(free) && threads == old(threads)
      ensures p != NULL ==> held == old(held) - {p - PTR} && free == [p - PTR] + old(free)
      ensures p != NULL && old(suspended) == [] ==> threads == old(threads) && suspended == []
      ensures p != NULL && old(suspended) != [] ==>
        threads == old(threads)[old(suspended)[0] := Resumed(true)] && suspended == old(suspended)[1..]
    {
      hide AllBlocks, FreeChain;
      if p == NULL {
        return;
      }
      PutBack(p - PTR);
      if suspended != [] {
        ResumeWaiter();
      }
    }

    /** Puts a held block at the head of the free list. */
    method PutBack(blockPtr: int)
      requires Valid() && blockPtr in held
      modifies `freeCount, `blockList, `word, `free, `held
      ensures Valid() && free == [blockPtr] + old(free) && held == old(held) - {blockPtr}
    {
      hide AllBlocks, FreeChain;
      freeCount := freeCount + 1;
      PushChain(word, blockList, free, blockPtr);
      word := word[blockPtr := blockList];
      blockList := blockPtr;
      free, held := [blockPtr] + free, held - {blockPtr};
    }

    /** Resumes the first waiting thread. */
    method ResumeWaiter()
      requires Valid() && suspended != []
      modifies `suspended, `threads
      ensures Valid() && State() == ResumeFirst(old(State()))
    {
      hide AllBlocks, FreeChain;
      var first := suspended[0];
      assert first in suspended && first in threads;
      threads := threads[first := Resumed(true)];
      suspended := suspended[1..];
    }
  }

  lemma HeadOf(word: map<int, int>, head: int, free: seq<int>)
    requires FreeChain(word, head, free)
    ensures |free| > 0 ==> head == free[0] && free[0] !in free[1..]
    ensures |free| > 0 ==> free == [free[0]] + free[1..]
  {
  }

  /** A block whose word points to the pool is allocated. */
  lemma Marked(word: map<int, int>, head: int, free: seq<int>, held: set<int>, total: nat, stride: nat, a: int)
    requires FreeChain(word, head, free) && (forall b :: b in free ==> b in AllBlocks(total, stride))
    requires a in word && word[a] == POOL && (a in held || a in free)
    ensures a in held
  {
    if a in free {
      var i :| 0 <= i < |free| && free[i] == a;
      assert Links(word, free, i);
      if i + 1 < |free| {
        BlockAddr(free[i + 1], total, stride);
      }
    }
  }

  /** Conservation: free and held blocks are all the blocks, each once. */
  lemma AllAccounted(free: seq<int>, held: set<int>, total: nat, stride: nat)
    requires stride > 0 && Distinct(free)
    requires forall a :: a in free ==> a in AllBlocks(total, stride) && a !in held
    requires held <= AllBlocks(total, stride) && |free| + |held| == total
    ensures (set a | a in free) + held == AllBlocks(total, stride)
  {
    var f := set a | a in free;
    DistinctCount(free);
    BlockCount(total, stride);
    assert |f + held| == |f| + |held|;
    Subset(f + held, AllBlocks(total, stride));
  }

  lemma {:induction false} DistinctCount(s: seq<int>)
    requires Distinct(s)
    ensures |set a | a in s| == |s|
  {
    if s != [] {
      DistinctCount(s[1..]);
      assert (set a | a in s) == {s[0]} + set a | a in s[1..];
    } else {
      assert (set a | a in s) == {};
    }
  }

  lemma Subset(a: set<int>, b: set<int>)
    requires a <= b && |a| == |b|
    ensures a == b
  {
    assert |b - a| == |b| - |a|;
  }

  // ----- whole runs

  /** No block handed out, nobody waiting. */
  predicate Initial(s: Pool) {
    s.held == {} && s.suspended == [] && forall t :: t in s.threads ==> s.threads[t] == Ready
  }

  /** The pool after the sections ss. */
  function After(s: Pool, ss: seq<Section>): Pool {
    if ss == [] then s else Act(After(s, ss[..|ss| - 1]), ss[|ss| - 1]).0
  }

  /** The result of section i. */
  function Result(s: Pool, ss: seq<Section>, i: nat): Outcome
    requires i < |ss|
  {
    Act(After(s, ss[..i]), ss[i]).1
  }

  lemma AfterNext(s: Pool, ss: seq<Section>, i: nat)
    requires i < |ss|
    ensures After(s, ss[..i + 1]) == Act(After(s, ss[..i]), ss[i]).0
  {
    assert ss[..i + 1][..i] == ss[..i];
  }

  /** The threads resumed for a block that have not run yet. */
  ghost function Woken(s: Pool): set<int> {
    set t | t in s.threads && s.threads[t] == Resumed(true)
  }

  /** While a thread waits, every free block has a thread that was resumed for it. */
  ghost predicate NoLostWakeup(s: Pool) {
    s.suspended != [] ==> |s.free| <= |Woken(s)|
  }

  ghost predicate Inv(s: Pool, total: nat) {
    && Distinct(s.free) && (forall a :: a in s.free ==> a !in s.held)
    && |s.free| + |s.held| == total
    && Distinct(s.suspended)
    && (forall t :: t in s.suspended <==> t in s.threads && s.threads[t] == Suspended)
    && NoLostWakeup(s)
  }

  lemma WokenUpdate(s: Pool, t: int, x: ThreadState)
    ensures var s' := s.(threads := s.threads[t := x]);
      Woken(s') == if x == Resumed(true) then Woken(s) + {t} else Woken(s) - {t}
  {
  }

  lemma {:induction false} LeaveMembers(q: seq<int>, t: int)
    requires Distinct(q)
    ensures Distinct(Leave(q, t)) && forall u :: u in Leave(q, t) <==> u in q && u != t
  {
    if q != [] {
      LeaveMembers(q[1..], t);
      if q[0] != t {
        DistinctCons(q[0], Leave(q[1..], t));
      }
    }
  }

  lemma DistinctCons(x: int, r: seq<int>)
    requires Distinct(r) && x !in r
    ensures Distinct([x] + r)
  {
  }

  lemma AskInv(s: Pool, total: nat, t: int, mayWait: bool)
    requires Inv(s, total) && t in s.threads && (s.threads[t] == Ready || s.threads[t] == Resumed(true))
    ensures Inv(Ask(s, t, mayWait).0, total)
  {
    var s' := Ask(s, t, mayWait).0;
    WokenUpdate(s, t, s'.threads[t]);
    assert Woken(s') == Woken(s.(threads := s'.threads));
    if |s.free| > 0 {
      assert s.free == [s.free[0]] + s.free[1..];
    }
  }

  lemma ReleaseInv(s: Pool, total: nat, a: int)
    requires Inv(s, total) && a in s.held
    ensures Inv(ResumeFirst(s.(free := [a] + s.free, held := s.held - {a})), total)
  {
    var s' := ResumeFirst(s.(free := [a] + s.free, held := s.held - {a}));
    if s.suspended != [] {
      var first := s.suspended[0];
      assert first in s.suspended && first in s.threads;
      WokenUpdate(s, first, Resumed(true));
      assert Woken(s') == Woken(s.(threads := s'.threads));
      assert first !in Woken(s);
      assert s.suspended == [first] + s.suspended[1..];
    }
  }

  lemma TimerInv(s: Pool, total: nat, t: int)
    requires Inv(s, total) && t in s.threads && s.threads[t] == Suspended
    ensures Inv(s.(suspended := Leave(s.suspended, t), threads := s.threads[t := Resumed(false)]), total)
  {
    var s' := s.(suspended := Leave(s.suspended, t), threads := s.threads[t := Resumed(false)]);
    LeaveMembers(s.suspended, t);
    WokenUpdate(s, t, Resumed(false));
    assert Woken(s') == Woken(s.(threads := s'.threads));
    assert t in s.suspended;
    hide Leave;
  }

  lemma ErrorInv(s: Pool, total: nat, t: int)
    requires Inv(s, total) && t in s.threads && s.threads[t] == Resumed(false)
    ensures Inv(s.(threads := s.threads[t := Ready]), total)
  {
    WokenUpdate(s, t, Ready);
  }

  /** Every section of every thread keeps the invariant. */
  lemma ActInv(s: Pool, total: nat, sec: Section)
    requires Inv(s, total)
    ensures Inv(Act(s, sec).0, total)
  {
    hide Inv, Ask, ResumeFirst, Leave;
    match sec
    case Alloc(t, mayWait) =>
      if Asks(s, sec) { AskInv(s, total, t, mayWait); }
    case Awake(t, mayWait) =>
      if Asks(s, sec) {
        AskInv(s, total, t, mayWait);
      } else if t in s.threads && s.threads[t] == Resumed(false) {
        ErrorInv(s, total, t);
      }
    case TimerFires(t) =>
      if t in s.threads && s.threads[t] == Suspended { TimerInv(s, total, t); }
    case Release(p) =>
      if p - PTR in s.held { ReleaseInv(s, total, p - PTR); }
  }

  lemma {:induction false} RunInv(s: Pool, total: nat, ss: seq<Section>)
    requires Inv(s, total)
    ensures Inv(After(s, ss), total)
  {
    if ss != [] {
      RunInv(s, total, ss[..|ss| - 1]);
      ActInv(After(s, ss[..|ss| - 1]), total, ss[|ss| - 1]);
    }
  }

  /** The blocks handed out and not yet given back, as the callers count them. */
  function Outstanding(ss: seq<Section>, rs: seq<Outcome>): set<int>
    requires |ss| == |rs|
  {
    if ss == [] then {}
    else
      var n := |ss| - 1;
      Counted(Outstanding(ss[..n], rs[..n]), ss[n], rs[n])
  }

  function Counted(before: set<int>, sec: Section, r: Outcome): set<int> {
    if r.Got? then before + {r.p - PTR} else if sec.Release? then before - {sec.p - PTR} else before
  }

  lemma ActCounted(s: Pool, sec: Section)
    ensures Act(s, sec).0.held == Counted(s.held, sec, Act(s, sec).1)
  {
  }

  lemma {:induction false} OutstandingIs(s: Pool, ss: seq<Section>, rs: seq<Outcome>)
    requires s.held == {} && |rs| == |ss| && forall i :: 0 <= i < |ss| ==> rs[i] == Result(s, ss, i)
    ensures After(s, ss).held == Outstanding(ss, rs)
  {
    if ss != [] {
      hide Act, Counted;
      var n := |ss| - 1;
      assert forall i :: 0 <= i < n ==> ss[..n][..i] == ss[..i];
      OutstandingIs(s, ss[..n], rs[..n]);
      assert rs[n] == Result(s, ss, n);
      ActCounted(After(s, ss[..n]), ss[n]);
    }
  }

  /** What the callers can rely on in section i of a run of a pool of total blocks: a block
      handed out is not outstanding, and a thread that asks gets a block exactly if some block is
      not outstanding, and otherwise waits exactly if it may. */
  predicate Served(s: Pool, total: nat, ss: seq<Section>, rs: seq<Outcome>, i: nat)
    requires i < |ss| == |rs|
  {
    var out := Outstanding(ss[..i], rs[..i]);
    && (rs[i].Got? ==> rs[i].p - PTR !in out && Asks(After(s, ss[..i]), ss[i]))
    && (Asks(After(s, ss[..i]), ss[i]) ==>
         && (rs[i].Got? <==> |out| < total)
         && (rs[i] == Waits <==> |out| == total && ss[i].mayWait)
         && (rs[i] == Failed <==> |out| == total && !ss[i].mayWait))
  }

  lemma AllServed(s: Pool, total: nat, ss: seq<Section>, rs: seq<Outcome>, i: nat)
    requires Inv(s, total) && s.held == {} && i < |ss| == |rs|
    requires forall j :: 0 <= j < |ss| ==> rs[j] == Result(s, ss, j)
    ensures Served(s, total, ss, rs, i)
  {
    hide Act, Inv, After, Outstanding;
    RunInv(s, total, ss[..i]);
    assert forall j :: 0 <= j < i ==> ss[..i][..j] == ss[..j];
    OutstandingIs(s, ss[..i], rs[..i]);
    assert rs[i] == Result(s, ss, i);
    ActServes(After(s, ss[..i]), total, ss[i]);
  }

  lemma ActServes(s: Pool, total: nat, sec: Section)
    requires Inv(s, total)
    ensures var r := Act(s, sec).1;
      && (r.Got? ==> r.p - PTR !in s.held && Asks(s, sec))
      && (Asks(s, sec) ==>
           && (r.Got? <==> |s.held| < total)
           && (r == Waits <==> |s.held| == total && sec.mayWait)
           && (r == Failed <==> |s.held| == total && !sec.mayWait))
  {
    hide Leave, ResumeFirst;
    assert |s.free| > 0 ==> s.free[0] in s.free;
  }

  /** Interrupt-disabled sections of any threads in any order, on a new pool: the pool and
      the results are those of the model, every request is served as Served says, free and
      outstanding blocks are all blocks, and no wake-up is lost. */
  method RunSections(mp: MemPool, ss: seq<Section>) returns (rs: seq<Outcome>)
    requires mp.Valid() && Initial(mp.State())
    modifies mp
    ensures mp.Valid() && |rs| == |ss|
    ensures mp.State() == After(old(mp.State()), ss)
    ensures forall i :: 0 <= i < |ss| ==> rs[i] == Result(old(mp.State()), ss, i)
    ensures forall i :: 0 <= i < |ss| ==> Served(old(mp.State()), mp.total, ss, rs, i)
    ensures mp.held == Outstanding(ss, rs) && mp.freeCount + |Outstanding(ss, rs)| == mp.total
    ensures NoLostWakeup(mp.State())
  {
    hide FreeChain, AllBlocks, Act, Served, Outstanding, NoLostWakeup;
    rs := [];
    ghost var s := mp.State();
    mp.InitialInv();
    for i := 0 to |ss|
      invariant mp.Valid() && |rs| == i && mp.State() == After(s, ss[..i])
      invariant forall j :: 0 <= j < i ==> rs[j] == Result(s, ss, j)
    {
      var r := RunSection(mp, ss[i]);
      AfterNext(s, ss, i);
      rs := rs + [r];
    }
    assert ss[..|ss|] == ss;
    RunInv(s, mp.total, ss);
    OutstandingIs(s, ss, rs);
    forall i | 0 <= i < |ss| ensures Served(s, mp.total, ss, rs, i) {
      AllServed(s, mp.total, ss, rs, i);
    }
  }

  method RunSection(mp: MemPool, sec: Section) returns (r: Outcome)
    requires mp.Valid()
    modifies mp
    ensures mp.Valid() && (mp.State(), r) == Act(old(mp.State()), sec)
  {
    hide MemPool.Valid, FreeChain, Ask, ResumeFirst, Leave;
    r := Skipped;
    match sec
    case Alloc(t, mayWait) =>
      if t in mp.threads && mp.threads[t] == Ready {
        r := mp.TryAlloc(t, mayWait);
      }
    case Awake(t, mayWait) =>
      if t in mp.threads && mp.threads[t].Resumed? {
        r := mp.AfterSleep(t, mayWait);
      }
    case TimerFires(t) =>
      if t in mp.threads && mp.threads[t] == Suspended {
        mp.Timeout(t);
        r := Done;
      }
    case Release(p) =>
      if p - PTR in mp.word && mp.word[p - PTR] == POOL {
        mp.MarkedHeld(p - PTR);
        mp.Free(p);
        r := Done;
      } else {
        mp.UnmarkedFree(p - PTR);
      }
  }

  /** The same from rt_mp_init on: a pool of at least one block, none handed out, and any set of threads,
      all ready. */
  method RunPool(size: nat, blockSize: nat, ts: set<int>, ss: seq<Section>)
    returns (mp: MemPool, rs: seq<Outcome>, ghost s: Pool)
    requires blockSize > 0 && AlignDown(size) >= AlignUp(blockSize) + PTR
    ensures mp.Valid() && mp.total == AlignDown(size) / (AlignUp(blockSize) + PTR) > 0
    ensures Initial(s) && |s.free| == mp.total && s.threads.Keys == ts
    ensures |rs| == |ss| && forall i :: 0 <= i < |ss| ==> rs[i] == Result(s, ss, i)
    ensures forall i :: 0 <= i < |ss| ==> Served(s, mp.total, ss, rs, i)
    ensures mp.State() == After(s, ss) && NoLostWakeup(After(s, ss))
    ensures mp.held == Outstanding(ss, rs) && mp.freeCount + |Outstanding(ss, rs)| == mp.total
  {
    hide FreeChain, AllBlocks, Result, Served, Outstanding, NoLostWakeup, After;
    mp := new MemPool(size, blockSize, ts);
    s := mp.State();
    rs := RunSections(mp, ss);
  }
}
