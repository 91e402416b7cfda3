/** What waiting threads of the fixed-block pool may rely on over whole runs: timeouts and the order in which
    they are resumed. */
module PoolLaws {
  import opened Rings
  import opened MemPools

  // ----- timeouts

  /** The timer of t fired in section i, and t has not run again before section n. */
  ghost predicate FiredSince(s: Pool, ss: seq<Section>, i: nat, n: nat, t: int) {
    && i < n <= |ss| && ss[i] == TimerFires(t) && Result(s, ss, i) == Done
    && forall j :: i < j < n ==> !(ss[j].Awake? && ss[j].t == t)
  }

  lemma StaysFailed(s: Pool, total: nat, sec: Section, t: int)
    requires Inv(s, total) && t in s.threads && s.threads[t] == Resumed(false) && !(sec.Awake? && sec.t == t)
    ensures var s' := Act(s, sec).0; t in s'.threads && s'.threads[t] == Resumed(false)
  {
    hide Leave;
    assert s.suspended != [] ==> s.suspended[0] in s.suspended;
  }

  lemma BecomesFailed(s: Pool, sec: Section, t: int)
    ensures sec == TimerFires(t) && Act(s, sec).1 == Done ==>
              && t in s.threads && s.threads[t] == Suspended
              && t in Act(s, sec).0.threads && Act(s, sec).0.threads[t] == Resumed(false)
    ensures t in Act(s, sec).0.threads && Act(s, sec).0.threads[t] == Resumed(false) ==>
              || (sec == TimerFires(t) && Act(s, sec).1 == Done)
              || (t in s.threads && s.threads[t] == Resumed(false) && !(sec.Awake? && sec.t == t))
  {
    hide Leave;
  }

  lemma {:induction false} FiredStays(s: Pool, total: nat, ss: seq<Section>, i: nat, n: nat, t: int)
    requires Inv(s, total) && FiredSince(s, ss, i, n, t)
    ensures var s' := After(s, ss[..n]); t in s'.threads && s'.threads[t] == Resumed(false)
    decreases n
  {
    hide Inv, Act;
    AfterNext(s, ss, n - 1);
    if n == i + 1 {
      BecomesFailed(After(s, ss[..i]), ss[i], t);
    } else {
      FiredStays(s, total, ss, i, n - 1, t);
      RunInv(s, total, ss[..n - 1]);
      StaysFailed(After(s, ss[..n - 1]), total, ss[n - 1], t);
    }
  }

  lemma {:induction false} FailedFired(s: Pool, ss: seq<Section>, n: nat, t: int) returns (i: nat)
    requires Initial(s) && n <= |ss|
    requires var s' := After(s, ss[..n]); t in s'.threads && s'.threads[t] == Resumed(false)
    ensures FiredSince(s, ss, i, n, t)
    decreases n
  {
    hide Act;
    if n > 0 {
      AfterNext(s, ss, n - 1);
      BecomesFailed(After(s, ss[..n - 1]), ss[n - 1], t);
      if ss[n - 1] == TimerFires(t) && Result(s, ss, n - 1) == Done {
        i := n - 1;
      } else {
        i := FailedFired(s, ss, n - 1, t);
      }
    }
  }

  /** A thread that runs again after its wait reports failure without asking again if and only if its timer
      fired since it last ran, whatever sections lie between; it then changes neither blocks nor queue. */
  lemma TimesOutExactly(s: Pool, total: nat, ss: seq<Section>, n: nat, t: int, mayWait: bool)
    requires Initial(s) && Inv(s, total) && n < |ss| && ss[n] == Awake(t, mayWait)
    ensures var before, after := After(s, ss[..n]), After(s, ss[..n + 1]);
      && (Result(s, ss, n) == Failed && !Asks(before, ss[n]) <==> exists i :: FiredSince(s, ss, i, n, t))
      && ((exists i :: FiredSince(s, ss, i, n, t)) ==>
            Result(s, ss, n) == Failed && after == before.(threads := before.threads[t := Ready]))
  {
    AfterNext(s, ss, n);
    var before := After(s, ss[..n]);
    if i :| FiredSince(s, ss, i, n, t) {
      FiredStays(s, total, ss, i, n, t);
    } else if t in before.threads && before.threads[t] == Resumed(false) {
      var i := FailedFired(s, ss, n, t);
    }
    hide FiredSince, Inv, Ask, ResumeFirst, Leave;
  }

  // ----- who is resumed

  /** One more than the last section in which t went to sleep. */
  ghost function WaitedAt(s: Pool, ss: seq<Section>, t: int): nat {
    if ss == [] then 0
    else
      var n := |ss| - 1;
      if (ss[n].Alloc? || ss[n].Awake?) && ss[n].t == t && Result(s, ss, n) == Waits then n + 1
      else WaitedAt(s, ss[..n], t)
  }

  lemma {:induction false} WaitedBefore(s: Pool, ss: seq<Section>, t: int)
    ensures WaitedAt(s, ss, t) <= |ss|
  {
    if ss != [] {
      WaitedBefore(s, ss[..|ss| - 1], t);
    }
  }

  /** Every section leaves the waiting threads in their order, but for one that goes to sleep and comes to the
      head. */
  lemma QueueStep(s: Pool, sec: Section)
    ensures var q, q' := s.suspended, Act(s, sec).0.suspended;
      if Act(s, sec).1 == Waits then (sec.Alloc? || sec.Awake?) && q' == [sec.t] + q
      else q' == q || (q != [] && q' == q[1..]) || (sec.TimerFires? && q' == Leave(q, sec.t))
  {
    hide Leave;
    var q' := Act(s, sec).0.suspended;
    match sec
    case Release(_) => assert q' == s.suspended || (s.suspended != [] && q' == s.suspended[1..]);
    case _ =>
  }

  /** Threads that went to sleep later stand in front. */
  ghost predicate Latest(s: Pool, ss: seq<Section>, q: seq<int>) {
    forall a, b :: 0 <= a < b < |q| ==> WaitedAt(s, ss, q[a]) > WaitedAt(s, ss, q[b])
  }

  lemma {:induction false} LeaveOrder(s: Pool, ss: seq<Section>, q: seq<int>, t: int)
    requires Latest(s, ss, q)
    ensures Latest(s, ss, Leave(q, t))
  {
    hide WaitedAt;
    if q != [] && q[0] != t {
      LeaveOrder(s, ss, q[1..], t);
      LeaveFrom(q[1..], t);
      var rest := Leave(q[1..], t);
      forall b | 0 <= b < |rest| ensures WaitedAt(s, ss, q[0]) > WaitedAt(s, ss, rest[b]) {
        assert rest[b] in rest;
        var k :| 0 <= k < |q[1..]| && q[1..][k] == rest[b];
        assert q[k + 1] == rest[b];
      }
    }
  }

  lemma {:induction false} LeaveFrom(q: seq<int>, t: int)
    ensures forall u :: u in Leave(q, t) ==> u in q
  {
    if q != [] {
      LeaveFrom(q[1..], t);
    }
  }

  lemma {:induction false} QueueOrder(s: Pool, total: nat, ss: seq<Section>)
    requires Initial(s) && Inv(s, total)
    ensures Latest(s, ss, After(s, ss).suspended)
  {
    if ss != [] {
      hide Act, Inv, Leave;
      var n := |ss| - 1;
      var front, before := ss[..n], After(s, ss[..n]);
      QueueOrder(s, total, front);
      RunInv(s, total, front);
      QueueStep(before, ss[n]);
      var q, q' := before.suspended, After(s, ss).suspended;
      if Act(before, ss[n]).1 == Waits {
        NewHead(s, total, ss, n);
      } else {
        assert forall t :: WaitedAt(s, ss, t) == WaitedAt(s, front, t);
        if ss[n].TimerFires? && q' == Leave(q, ss[n].t) {
          LeaveOrder(s, front, q, ss[n].t);
        }
      }
    }
  }

  lemma NewHead(s: Pool, total: nat, ss: seq<Section>, n: nat)
    requires n + 1 == |ss| && Inv(After(s, ss[..n]), total) && Latest(s, ss[..n], After(s, ss[..n]).suspended)
    requires Result(s, ss, n) == Waits && (ss[n].Alloc? || ss[n].Awake?)
    requires After(s, ss).suspended == [ss[n].t] + After(s, ss[..n]).suspended
    ensures Latest(s, ss, After(s, ss).suspended)
  {
    hide Act;
    var q, t := After(s, ss[..n]).suspended, ss[n].t;
    NotWaiting(After(s, ss[..n]), total, ss[n]);
    forall u | u in q ensures WaitedAt(s, ss, u) == WaitedAt(s, ss[..n], u) <= n {
      WaitedBefore(s, ss[..n], u);
    }
  }

  lemma NotWaiting(s: Pool, total: nat, sec: Section)
    requires Inv(s, total) && Act(s, sec).1 == Waits && (sec.Alloc? || sec.Awake?)
    ensures sec.t !in s.suspended
  {
  }

  /** A release resumes, of all waiting threads, the one that went to sleep last; the others go on waiting. */
  lemma ResumesLatest(s: Pool, total: nat, ss: seq<Section>, n: nat, p: int) returns (t: int)
    requires Initial(s) && Inv(s, total) && n < |ss| && ss[n] == Release(p) && Result(s, ss, n) == Done
    requires After(s, ss[..n]).suspended != []
    ensures var before, after := After(s, ss[..n]), After(s, ss[..n + 1]);
      && t in before.threads && before.threads[t] == Suspended && after.threads == before.threads[t := Resumed(true)]
      && forall u :: u in before.threads && before.threads[u] == Suspended && u != t ==>
           WaitedAt(s, ss[..n], u) < WaitedAt(s, ss[..n], t)
  {
    AfterNext(s, ss, n);
    RunInv(s, total, ss[..n]);
    QueueOrder(s, total, ss[..n]);
    var q := After(s, ss[..n]).suspended;
    t := q[0];
    assert t in q;
    forall u | u in q && u != t ensures WaitedAt(s, ss[..n], u) < WaitedAt(s, ss[..n], t) {
      var b :| 0 <= b < |q| && q[b] == u;
    }
  }

  // ----- which block is handed out

  /** One more than the last section in which block a was given back. */
  ghost function BackAt(s: Pool, ss: seq<Section>, a: int): nat {
    if ss == [] then 0
    else
      var n := |ss| - 1;
      if ss[n] == Release(a + PTR) && Result(s, ss, n) == Done then n + 1 else BackAt(s, ss[..n], a)
  }

  lemma {:induction false} BackBefore(s: Pool, ss: seq<Section>, a: int)
    ensures BackAt(s, ss, a) <= |ss|
  {
    if ss != [] {
      BackBefore(s, ss[..|ss| - 1], a);
    }
  }

  lemma FreeStep(s: Pool, total: nat, sec: Section)
    requires Inv(s, total)
    ensures var f, f' := s.free, Act(s, sec).0.free;
      if Act(s, sec).1.Got? then !sec.Release? && f != [] && f' == f[1..] && Act(s, sec).1.p == f[0] + PTR
      else if sec.Release? && Act(s, sec).1 == Done then f' == [sec.p - PTR] + f && sec.p - PTR !in f
      else f' == f
  {
    hide Leave;
  }

  /** Blocks given back later stand in front, those never given back at the end. */
  ghost predicate Freshest(s: Pool, ss: seq<Section>, f: seq<int>) {
    forall i, j :: 0 <= i < j < |f| ==> BackAt(s, ss, f[i]) >= BackAt(s, ss, f[j])
  }

  lemma {:induction false} FreeOrder(s: Pool, total: nat, ss: seq<Section>)
    requires Inv(s, total)
    ensures Freshest(s, ss, After(s, ss).free)
  {
    if ss != [] {
      hide Act, Leave, Inv, Freshest, BackAt;
      var n := |ss| - 1;
      FreeOrder(s, total, ss[..n]);
      RunInv(s, total, ss[..n]);
      FreeStep(After(s, ss[..n]), total, ss[n]);
      if ss[n].Release? && Result(s, ss, n) == Done {
        BackFirst(s, ss, n, After(s, ss[..n]).free, ss[n].p - PTR);
      } else {
        BackSame(s, ss, n, After(s, ss[..n]).free, After(s, ss).free);
      }
    }
  }

  lemma BackFirst(s: Pool, ss: seq<Section>, n: nat, f: seq<int>, a: int)
    requires n + 1 == |ss| && ss[n] == Release(a + PTR) && Result(s, ss, n) == Done
    requires Freshest(s, ss[..n], f) && a !in f
    ensures Freshest(s, ss, [a] + f)
  {
    forall i | 0 <= i < |f| ensures BackAt(s, ss, f[i]) == BackAt(s, ss[..n], f[i]) <= n {
      BackBefore(s, ss[..n], f[i]);
    }
  }

  lemma BackSame(s: Pool, ss: seq<Section>, n: nat, f: seq<int>, f': seq<int>)
    requires n + 1 == |ss| && !(ss[n].Release? && Result(s, ss, n) == Done) && Freshest(s, ss[..n], f)
    requires f' == f || (f != [] && f' == f[1..])
    ensures Freshest(s, ss, f')
  {
    hide Result;
    assert forall a :: BackAt(s, ss, a) == BackAt(s, ss[..n], a);
  }

  /** So a thread that gets a block gets, of the free ones, the one given back last. */
  lemma TakesLatest(s: Pool, total: nat, ss: seq<Section>, n: nat, a: int)
    requires Inv(s, total) && n < |ss| && Result(s, ss, n).Got? && a in After(s, ss[..n]).free
    ensures BackAt(s, ss[..n], a) <= BackAt(s, ss[..n], Result(s, ss, n).p - PTR)
  {
    hide Act, BackAt, Inv;
    RunInv(s, total, ss[..n]);
    FreeOrder(s, total, ss[..n]);
    FreeStep(After(s, ss[..n]), total, ss[n]);
  }
}
