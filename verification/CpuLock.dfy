/** The SMP big kernel lock: one spinlock, a nesting count per thread, and the
    hand-over at a context switch.  Each CPU runs its own sequence of steps; a
    step is what one CPU does between two points at which another CPU may act. */
module CpuLocks {
  import opened Basics

  /** Where a CPU stands inside the lock code. */
  datatype Phase =
    | Running                // between calls
    | Spinning(critical: bool) // in rt_hw_spin_lock(&_cpus_lock), called by rt_enter_critical or not
    | Starting               // has taken the lock in rtthread_startup, no thread yet
    | Switching(to: int)     // in rt_hw_context_switch*, before the restore
    | Restoring              // in rt_cpus_lock_status_restore, current_thread already set

  /** cpus_lock_nest, scheduler_lock_nest and critical_lock_nest of a thread. */
  datatype Thread = Thread(lockNest: int, schedNest: int, critNest: int)

  /** The calls of rt_cpus_lock and of _cpu_preempt_disable a thread has made and not undone. */
  datatype Open = Open(locks: nat, preempts: nat)

  /** inIrq: between the entry of an interrupt and the return from it. */
  datatype Cpu = Cpu(current: Option<int>, phase: Phase, inIrq: bool)

  /** The spinlock is one bit: it does not know who took it. */
  datatype State = State(locked: bool, threads: seq<Thread>, open: seq<Open>, cpus: seq<Cpu>)

  datatype Step =
    | Lock(c: nat)               // rt_cpus_lock up to rt_hw_spin_lock
    | Acquire(c: nat)            // rt_hw_spin_lock returns
    | Unlock(c: nat)             // rt_cpus_unlock
    | EnterCritical(c: nat)      // rt_enter_critical up to rt_hw_spin_lock, or all of it
    | ExitCritical(c: nat)       // rt_exit_critical up to rt_schedule
    | PreemptOff(c: nat)         // _cpu_preempt_disable
    | PreemptOn(c: nat)          // _cpu_preempt_enable up to rt_schedule
    | Interrupt(c: nat)          // an interrupt comes in
    | IrqReturn(c: nat)          // back to the interrupted thread
    | Startup(c: nat)            // rt_hw_spin_lock in rtthread_startup
    | StartFirst(c: nat, t: int) // rt_system_scheduler_start
    | Switch(c: nat, t: int)     // rt_schedule picks another thread
    | IrqSwitch(c: nat, t: int)  // rt_scheduler_do_irq_switch picks another thread
    | SetCurrent(c: nat)         // the target becomes the current thread
    | Restore(c: nat)            // the lock is released unless the target counts it

  ghost predicate WellFormed(s: State) {
    |s.open| == |s.threads| && forall c :: 0 <= c < |s.cpus| ==>
      && (s.cpus[c].current.Some? ==> 0 <= s.cpus[c].current.value < |s.threads|)
      && (s.cpus[c].phase.Switching? ==> 0 <= s.cpus[c].phase.to < |s.threads|)
      && (s.cpus[c].phase == Spinning(true) ==> s.cpus[c].current.Some?)
      && (s.cpus[c].phase.Restoring? ==> s.cpus[c].current.Some?)
  }

  ghost predicate HasThread(s: State, c: nat)
    requires c < |s.cpus|
  {
    s.cpus[c].current.Some? && 0 <= s.cpus[c].current.value < |s.threads|
  }

  ghost function Nest(s: State, c: nat): int
    requires c < |s.cpus| && HasThread(s, c)
  {
    s.threads[s.cpus[c].current.value].lockNest
  }

  ghost function Counts(s: State, c: nat): Thread
    requires c < |s.cpus| && HasThread(s, c)
  {
    s.threads[s.cpus[c].current.value]
  }

  ghost function Calls(s: State, c: nat): Open
    requires c < |s.cpus| && HasThread(s, c) && |s.open| == |s.threads|
  {
    s.open[s.cpus[c].current.value]
  }

  /** Thread t runs on no CPU and no CPU is about to run it. */
  ghost predicate Off(s: State, t: int) {
    && 0 <= t < |s.threads|
    && forall c :: 0 <= c < |s.cpus| ==> s.cpus[c].current != Some(t) && s.cpus[c].phase != Switching(t)
  }

  /** When a step can happen.  A thread undoes only what it has done.  Interrupts are off from
      rt_cpus_lock to rt_cpus_unlock, but not in a critical section.  rt_schedule switches
      when its own rt_cpus_lock is all that locks the scheduler (scheduler_lock_nest == 1), and
      not in an interrupt; rt_scheduler_do_irq_switch asks the same, at the end of an
      interrupt that has undone all its own calls but this last rt_cpus_lock. */
  ghost predicate Enabled(s: State, st: Step)
    requires WellFormed(s)
  {
    && 0 <= st.c < |s.cpus|
    && LocalEnabled(LocalOf(s, st.c), st)
    && (st.StartFirst? || st.Switch? || st.IrqSwitch? ==> Off(s, st.t))
  }

  /** What a CPU sees of the state: the lock, itself, and its thread, if it has one. */
  datatype Local = Local(locked: bool, cpu: Cpu, thread: Thread, open: Open)

  ghost function LocalOf(s: State, c: nat): Local
    requires WellFormed(s) && c < |s.cpus|
  {
    if HasThread(s, c) then Local(s.locked, s.cpus[c], Counts(s, c), Calls(s, c))
    else Local(s.locked, s.cpus[c], Thread(0, 0, 0), Open(0, 0))
  }

  predicate LocalEnabled(l: Local, st: Step) {
    var threaded := l.cpu.current.Some?;
    match st
    case Lock(_) => l.cpu.phase.Running?
    case Acquire(_) => l.cpu.phase.Spinning? && !l.locked
    case Unlock(_) => l.cpu.phase.Running? && (threaded ==> l.open.locks > 0)
    case EnterCritical(_) => l.cpu.phase.Running?
    case ExitCritical(_) => l.cpu.phase.Running? && (threaded ==> l.thread.critNest > 0)
    case PreemptOff(_) => l.cpu.phase.Running?
    case PreemptOn(_) => l.cpu.phase.Running? && (threaded ==> l.open.preempts > 0)
    case Interrupt(_) => l.cpu.phase.Running? && threaded && l.open.locks == 0
    case IrqReturn(_) => l.cpu.phase.Running? && l.cpu.inIrq && threaded && l.open.locks == 0
    case Startup(_) => l.cpu.phase.Running? && !threaded
    case StartFirst(_, _) => l.cpu.phase.Starting?
    case Switch(_, _) =>
      l.cpu.phase.Running? && !l.cpu.inIrq && threaded && l.open.locks > 0 && l.thread.schedNest == 1
    case IrqSwitch(_, _) =>
      l.cpu.phase.Running? && l.cpu.inIrq && threaded && l.open.locks == 1 && l.thread.schedNest == 1
    case SetCurrent(_) => l.cpu.phase.Switching?
    case Restore(_) => l.cpu.phase.Restoring? && threaded
  }

  /** Add to the counts of the thread. */
  function Bump(l: Local, dl: int, ds: int, dc: int): Local {
    var th := l.thread;
    l.(thread := Thread(th.lockNest + dl, th.schedNest + ds, th.critNest + dc))
  }

  /** Add to its open calls. */
  function Call(l: Local, dl: int, dp: int): Local
    requires l.open.locks + dl >= 0 && l.open.preempts + dp >= 0
  {
    l.(open := Open(l.open.locks + dl, l.open.preempts + dp))
  }

  function SetPhase(l: Local, p: Phase): Local { l.(cpu := l.cpu.(phase := p)) }

  /** What a step does to what the CPU sees. */
  function Effect(l: Local, st: Step): Local
    requires LocalEnabled(l, st)
  {
    if l.cpu.current.None? then
      match st
      case Acquire(_) => SetPhase(l.(locked := true), Starting)
      case Startup(_) => SetPhase(l, Spinning(false))
      case StartFirst(_, t) => SetPhase(l, Switching(t))
      case SetCurrent(_) => l.(cpu := Cpu(Some(l.cpu.phase.to), Restoring, false))
      case _ => l
    else
      var nest := l.thread.lockNest;
      match st
      case Lock(_) =>
        if nest == 0 then SetPhase(Call(Bump(l, 1, 1, 0), 1, 0), Spinning(false)) else Call(Bump(l, 1, 0, 0), 1, 0)
      case Acquire(_) =>
        SetPhase((if l.cpu.phase.critical then Bump(l, 0, 1, 1) else l).(locked := true), Running)
      case Unlock(_) =>
        if nest == 1 then Call(Bump(l, -1, -1, 0), -1, 0).(locked := false) else Call(Bump(l, -1, 0, 0), -1, 0)
      case EnterCritical(_) =>
        if nest == 0 then SetPhase(Bump(l, 1, 1, 0), Spinning(true)) else Bump(l, 1, 1, 1)
      case ExitCritical(_) =>
        var sched := l.thread.schedNest - (if nest == 1 then 2 else 1);
        l.(thread := Thread(nest - 1, if sched <= 0 then 0 else sched, l.thread.critNest - 1),
           locked := if nest == 1 then false else l.locked)
      case PreemptOff(_) => Call(Bump(l, 0, 1, 0), 0, 1)
      case PreemptOn(_) => Call(Bump(l, 0, -1, 0), 0, -1)
      case Interrupt(_) => l.(cpu := l.cpu.(inIrq := true))
      case IrqReturn(_) => l.(cpu := l.cpu.(inIrq := false))
      case Switch(_, u) => SetPhase(l, Switching(u))
      case IrqSwitch(_, u) => Call(Bump(l, -1, -1, 0), -1, 0).(cpu := Cpu(l.cpu.current, Switching(u), false))
      case SetCurrent(_) => l.(cpu := Cpu(Some(l.cpu.phase.to), Restoring, false))
      case Restore(_) => SetPhase(if nest == 0 then l.(locked := false) else l, Running)
      case _ => l
  }

  /** Where a step leaves its CPU. */
  lemma EffectCpu(l: Local, st: Step)
    requires LocalEnabled(l, st)
    ensures var cpu, cpu' := l.cpu, Effect(l, st).cpu;
      && (if st.SetCurrent? then cpu.phase.Switching? && cpu'.current == Some(cpu.phase.to) && cpu'.phase.Restoring?
          else cpu'.current == cpu.current)
      && (cpu'.phase.Switching? ==>
            || (cpu.phase == cpu'.phase && !st.SetCurrent?)
            || ((st.StartFirst? || st.Switch? || st.IrqSwitch?) && cpu'.phase.to == st.t))
      && (cpu'.phase.Switching? ==> !cpu.phase.Switching?)
      && (cpu'.phase == Spinning(true) && cpu.phase != Spinning(true) ==> cpu.current.Some?)
      && (cpu'.phase.Restoring? ==> st.SetCurrent? || cpu.phase.Restoring?)
      && (cpu'.phase.Starting? ==> cpu.phase.Starting? || cpu.current.None?)
  {
  }

  /** CPU c, and the thread it had, become what l says. */
  ghost function Back(s: State, c: nat, l: Local): State
    requires WellFormed(s) && c < |s.cpus|
  {
    if HasThread(s, c) then
      var t := s.cpus[c].current.value;
      State(l.locked, s.threads[t := l.thread], s.open[t := l.open], s.cpus[c := l.cpu])
    else State(l.locked, s.threads, s.open, s.cpus[c := l.cpu])
  }

  ghost function Apply(s: State, st: Step): State
    requires WellFormed(s) && Enabled(s, st)
  {
    Back(s, st.c, Effect(LocalOf(s, st.c), st))
  }

  /** CPU c is the one that holds the lock. */
  ghost predicate Owns(s: State, c: nat)
    requires c < |s.cpus|
  {
    match s.cpus[c].phase
    case Running => HasThread(s, c) && Nest(s, c) > 0
    case Spinning(_) => false
    case Starting => true
    case Switching(_) => true
    case Restoring => true
  }

  ghost predicate Init(s: State) {
    && !s.locked
    && (forall t :: 0 <= t < |s.threads| ==> s.threads[t] == Thread(0, 0, 0))
    && s.open == seq(|s.threads|, _ => Open(0, 0))
    && (forall c :: 0 <= c < |s.cpus| ==> s.cpus[c] == Cpu(None, Running, false))
  }

  /** A thread runs on one CPU at most. */
  ghost predicate Placed(s: State) {
    && WellFormed(s)
    && (forall c, d :: 0 <= c < d < |s.cpus| && s.cpus[c].current.Some? ==> s.cpus[c].current != s.cpus[d].current)
    && (forall c, d :: 0 <= c < |s.cpus| && 0 <= d < |s.cpus| && s.cpus[c].phase.Switching? ==>
          s.cpus[d].current != Some(s.cpus[c].phase.to))
    && (forall c :: 0 <= c < |s.cpus| && s.cpus[c].phase.Starting? ==> s.cpus[c].current.None?)
  }

  /** Mutual exclusion, and the bit is set exactly while somebody owns the lock. */
  ghost predicate Exclusive(s: State) {
    && (forall c, d :: 0 <= c < d < |s.cpus| ==> !(Owns(s, c) && Owns(s, d)))
    && (s.locked ==> exists c :: 0 <= c < |s.cpus| && Owns(s, c))
    && (!s.locked ==> forall c :: 0 <= c < |s.cpus| ==> !Owns(s, c))
  }

  /** Thread t spins on its way into a critical section. */
  ghost predicate Entering(s: State, t: int) {
    exists c :: 0 <= c < |s.cpus| && s.cpus[c].current == Some(t) && s.cpus[c].phase == Spinning(true)
  }

  /** cpus_lock_nest counts the open calls of rt_cpus_lock and rt_enter_critical; the scheduler
      is locked once for the big lock, once for every critical section and every disabling of preemption. */
  predicate CountsOk(th: Thread, o: Open, entering: bool) {
    && th.critNest >= 0
    && th.lockNest == o.locks + th.critNest + (if entering then 1 else 0)
    && th.schedNest == (if th.lockNest > 0 then 1 else 0) + th.critNest + o.preempts
  }

  ghost predicate Counted(s: State)
    requires |s.open| == |s.threads|
  {
    && (forall c :: 0 <= c < |s.cpus| && s.cpus[c].phase.Spinning? && HasThread(s, c) ==> Nest(s, c) == 1)
    && (forall t :: 0 <= t < |s.threads| ==> CountsOk(s.threads[t], s.open[t], Entering(s, t)))
  }

  ghost predicate Inv(s: State) {
    Placed(s) && Exclusive(s) && Counted(s)
  }

  /** The counts of a CPU's thread bear out the source's assertions: what a caller may undo is
      counted, and a switch finds just the one lock of its own. */
  lemma CurrentOk(s: State, c: nat)
    requires Inv(s) && c < |s.cpus| && s.cpus[c].current.Some?
    ensures HasThread(s, c) && |s.open| == |s.threads| && Nest(s, c) >= 0
    ensures s.cpus[c].phase.Running? ==>
      && Counts(s, c).critNest >= 0 && Nest(s, c) == Calls(s, c).locks + Counts(s, c).critNest
      && (Counts(s, c).schedNest == 1 && Nest(s, c) > 0 ==> Counts(s, c).critNest == Calls(s, c).preempts == 0)
  {
    if s.cpus[c].phase.Running? {
      assert !Entering(s, s.cpus[c].current.value);
    }
  }

  /** Before any CPU takes the lock. */
  lemma InitInv(s: State)
    requires Init(s)
    ensures Inv(s)
  {
  }

  lemma StepWellFormed(s: State, st: Step)
    requires WellFormed(s) && Enabled(s, st)
    ensures var s' := Apply(s, st);
      && st.c < |s.cpus| && WellFormed(s') && |s'.cpus| == |s.cpus| && |s'.threads| == |s.threads|
      && forall d :: 0 <= d < |s.cpus| && d != st.c ==> s'.cpus[d] == s.cpus[d]
  {
    hide Off, Effect, LocalEnabled;
    EffectCpu(LocalOf(s, st.c), st);
    if st.StartFirst? || st.Switch? || st.IrqSwitch? {
      OffExists(s, st.t);
    }
  }

  lemma OffExists(s: State, t: int)
    requires Off(s, t)
    ensures 0 <= t < |s.threads|
  {
  }

  lemma OtherThreads(s: State, st: Step, t: int)
    requires WellFormed(s) && Enabled(s, st) && 0 <= t < |s.threads| && s.cpus[st.c].current != Some(t)
    ensures var s' := Apply(s, st);
      && |s'.threads| == |s.threads| == |s'.open| && s'.threads[t] == s.threads[t] && s'.open[t] == s.open[t]
  {
  }

  lemma NotShared(s: State, c: nat, d: nat)
    requires Placed(s) && c < |s.cpus| && d < |s.cpus| && c != d && s.cpus[d].current.Some?
    ensures s.cpus[c].current != s.cpus[d].current
  {
    if c < d {
      assert s.cpus[c].current.Some? ==> s.cpus[c].current != s.cpus[d].current;
    } else {
      assert s.cpus[d].current != s.cpus[c].current;
    }
  }

  /** What a step of CPU c can change about another CPU d: nothing. */
  lemma OthersKeep(s: State, st: Step, d: nat)
    requires Inv(s) && Enabled(s, st) && d < |s.cpus| && d != st.c
    ensures var s' := Apply(s, st);
      && |s'.cpus| == |s.cpus| && |s'.threads| == |s.threads| && s'.cpus[d] == s.cpus[d]
      && (HasThread(s, d) <==> HasThread(s', d)) && (HasThread(s, d) ==> Nest(s', d) == Nest(s, d))
      && (Owns(s', d) <==> Owns(s, d))
  {
    hide Apply, Enabled, Counted, Exclusive;
    StepWellFormed(s, st);
    if HasThread(s, d) {
      NotShared(s, st.c, d);
      OtherThreads(s, st, s.cpus[d].current.value);
    }
  }

  /** What a step of CPU c does to the lock: if c owned it, the bit follows
      c's ownership (kept, handed to the next thread, or released); otherwise
      nothing happens to the lock unless c takes it while it is free. */
  lemma OwnStep(s: State, st: Step)
    requires Inv(s) && Enabled(s, st)
    ensures LockFollows(s, st)
  {
    hide Apply, LockFollows;
    if s.cpus[st.c].current.Some? {
      CurrentOk(s, st.c);
    }
    LocalStep(s, st);
  }

  ghost predicate LockFollows(s: State, st: Step)
    requires WellFormed(s) && Enabled(s, st)
  {
    var s', c := Apply(s, st), st.c;
    && |s'.cpus| == |s.cpus|
    && (Owns(s, c) ==> s.locked && (s'.locked <==> Owns(s', c)))
    && (!Owns(s, c) ==>
         || (s'.locked == s.locked && !Owns(s', c))
         || (st.Acquire? && !s.locked && s'.locked && Owns(s', c)))
  }

  /** What a CPU sees of its owning the lock. */
  predicate OwnsLocal(l: Local) {
    match l.cpu.phase
    case Running => l.cpu.current.Some? && l.thread.lockNest > 0
    case Spinning(_) => false
    case _ => true
  }

  lemma EffectLock(l: Local, st: Step)
    requires LocalEnabled(l, st) && (OwnsLocal(l) ==> l.locked)
    requires l.cpu.phase.Starting? ==> l.cpu.current.None?
    requires l.cpu.current.Some? ==> l.thread.lockNest >= 0
    requires l.cpu.phase.Spinning? && l.cpu.current.Some? ==> l.thread.lockNest == 1
    requires l.cpu.phase.Running? && l.cpu.current.Some? ==>
      l.thread.lockNest == l.open.locks + l.thread.critNest && l.thread.critNest >= 0
    ensures var l' := Effect(l, st);
      && (OwnsLocal(l) ==> l'.locked == OwnsLocal(l'))
      && (!OwnsLocal(l) ==>
            || (l'.locked == l.locked && !OwnsLocal(l'))
            || (st.Acquire? && !l.locked && l'.locked && OwnsLocal(l')))
  {
  }

  lemma LocalStep(s: State, st: Step)
    requires WellFormed(s) && Enabled(s, st) && (Owns(s, st.c) ==> s.locked)
    requires s.cpus[st.c].phase.Starting? ==> s.cpus[st.c].current.None?
    requires HasThread(s, st.c) ==> Nest(s, st.c) >= 0
    requires s.cpus[st.c].phase.Spinning? && HasThread(s, st.c) ==> Nest(s, st.c) == 1
    requires s.cpus[st.c].phase.Running? && HasThread(s, st.c) ==>
      Nest(s, st.c) == Calls(s, st.c).locks + Counts(s, st.c).critNest && Counts(s, st.c).critNest >= 0
    ensures LockFollows(s, st)
  {
    hide Off, Effect, LocalEnabled;
    EffectLock(LocalOf(s, st.c), st);
    EffectCpu(LocalOf(s, st.c), st);
  }

  lemma StepExclusive(s: State, st: Step)
    requires Inv(s) && Enabled(s, st)
    ensures Exclusive(Apply(s, st))
  {
    hide Apply, Enabled, Counted, Owns;
    StepWellFormed(s, st);
    var s' := Apply(s, st);
    OwnStep(s, st);
    forall d | 0 <= d < |s.cpus| && d != st.c ensures Owns(s', d) <==> Owns(s, d) {
      OthersKeep(s, st, d);
    }
    if s'.locked && !Owns(s', st.c) {
      var o :| 0 <= o < |s.cpus| && Owns(s, o);
      assert Owns(s', o);
    }
  }

  /** What a step can do to the CPU that takes it. */
  lemma CpuStep(s: State, st: Step)
    requires WellFormed(s) && Enabled(s, st) && (s.cpus[st.c].phase.Starting? ==> s.cpus[st.c].current.None?)
    ensures var s' := Apply(s, st); var cpu, cpu' := s.cpus[st.c], s'.cpus[st.c];
      && |s'.cpus| == |s.cpus|
      && (if st.SetCurrent? then cpu.phase.Switching? && cpu'.current == Some(cpu.phase.to) && cpu'.phase.Restoring?
          else cpu'.current == cpu.current)
      && (cpu'.phase.Switching? ==> Off(s, cpu'.phase.to))
      && (cpu'.phase.Starting? ==> cpu'.current.None?)
  {
    hide Off, Effect, LocalEnabled;
    EffectCpu(LocalOf(s, st.c), st);
  }

  lemma StepPlaced(s: State, st: Step)
    requires Inv(s) && Enabled(s, st)
    ensures Placed(Apply(s, st))
  {
    hide Exclusive, Counted, Owns, Apply, Enabled, Placed, Off;
    OneSwitching(s);
    PlacedOk(s);
    StepWellFormed(s, st);
    if s.cpus[st.c].phase.Starting? {
      StartingIdle(s, st.c);
    }
    CpuStep(s, st);
    StaysPlaced(s, Apply(s, st), st.c, st.SetCurrent?);
  }

  lemma PlacedOk(s: State)
    requires Placed(s)
    ensures WellFormed(s)
  {
  }

  lemma StartingIdle(s: State, c: nat)
    requires Placed(s) && c < |s.cpus| && s.cpus[c].phase.Starting?
    ensures s.cpus[c].current.None?
  {
  }

  /** One CPU has moved: to the thread it was switching to, or on without another thread. */
  lemma StaysPlaced(s: State, s': State, c: nat, moves: bool)
    requires Placed(s) && WellFormed(s') && c < |s.cpus| && |s'.cpus| == |s.cpus| && |s'.threads| == |s.threads|
    requires forall d :: 0 <= d < |s.cpus| && d != c ==> s'.cpus[d] == s.cpus[d]
    requires forall d, e :: 0 <= d < |s.cpus| && 0 <= e < |s.cpus| && d != e && s.cpus[d].phase.Switching? ==>
               !s.cpus[e].phase.Switching?
    requires if !moves then s'.cpus[c].current == s.cpus[c].current
             else
               && s.cpus[c].phase.Switching? && s'.cpus[c].current == Some(s.cpus[c].phase.to)
               && s'.cpus[c].phase.Restoring?
    requires s'.cpus[c].phase.Switching? ==> Off(s, s'.cpus[c].phase.to)
    requires s'.cpus[c].phase.Starting? ==> s'.cpus[c].current.None?
    ensures Placed(s')
  {
    hide WellFormed;
  }

  /** Only the owner of the lock can be switching. */
  lemma OneSwitching(s: State)
    requires Inv(s)
    ensures forall c, d :: 0 <= c < |s.cpus| && 0 <= d < |s.cpus| && c != d && s.cpus[c].phase.Switching? ==>
              !s.cpus[d].phase.Switching?
  {
    assert forall c :: 0 <= c < |s.cpus| && s.cpus[c].phase.Switching? ==> Owns(s, c);
  }

  /** A thread is entering a critical section only where it runs. */
  lemma OnlyHere(s: State, c: nat, t: int)
    requires Placed(s) && c < |s.cpus| && s.cpus[c].current == Some(t)
    ensures Entering(s, t) <==> s.cpus[c].phase == Spinning(true)
  {
  }

  lemma NotHere(s: State, s': State, c: nat, t: int)
    requires c < |s.cpus| && |s'.cpus| == |s.cpus|
    requires forall d :: 0 <= d < |s.cpus| && d != c ==> s'.cpus[d] == s.cpus[d]
    requires s.cpus[c].current != Some(t) || s.cpus[c].phase != Spinning(true)
    requires s'.cpus[c].current != Some(t) || s'.cpus[c].phase != Spinning(true)
    ensures Entering(s', t) <==> Entering(s, t)
  {
  }

  /** A step changes the counts of its own thread only, and keeps them right. */
  lemma OwnThread(s: State, st: Step, t: int)
    requires WellFormed(s) && Enabled(s, st) && 0 <= t < |s.threads| && s.cpus[st.c].current == Some(t)
    requires CountsOk(s.threads[t], s.open[t], s.cpus[st.c].phase == Spinning(true))
    ensures var s', c := Apply(s, st), st.c;
      && |s'.threads| == |s.threads| == |s'.open|
      && CountsOk(s'.threads[t], s'.open[t], s'.cpus[c].current == Some(t) && s'.cpus[c].phase == Spinning(true))
  {
    hide Off;
  }

  lemma StepSpins(s: State, st: Step, d: nat)
    requires Inv(s) && Enabled(s, st) && d < |s.cpus|
    ensures var s' := Apply(s, st);
      |s'.cpus| == |s.cpus| && (s'.cpus[d].phase.Spinning? && HasThread(s', d) ==> Nest(s', d) == 1)
  {
    if d != st.c {
      OthersKeep(s, st, d);
    }
  }

  lemma StepCounted(s: State, st: Step)
    requires Inv(s) && Enabled(s, st)
    ensures |Apply(s, st).open| == |Apply(s, st).threads| && Counted(Apply(s, st))
  {
    var s', c := Apply(s, st), st.c;
    CpuStep(s, st);
    StepPlaced(s, st);
    hide Apply, Enabled, Exclusive, Owns, CountsOk, Entering;
    StepWellFormed(s, st);
    forall t | 0 <= t < |s'.threads| ensures CountsOk(s'.threads[t], s'.open[t], Entering(s', t)) {
      if s.cpus[c].current == Some(t) {
        OnlyHere(s, c, t);
        OwnThread(s, st, t);
      } else {
        OtherThreads(s, st, t);
      }
      if s'.cpus[c].current == Some(t) {
        OnlyHere(s', c, t);
      }
      if s.cpus[c].current != Some(t) || s'.cpus[c].current != Some(t) {
        NotHere(s, s', c, t);
      }
    }
    forall d | 0 <= d < |s'.cpus| && s'.cpus[d].phase.Spinning? && HasThread(s', d) ensures Nest(s', d) == 1 {
      StepSpins(s, st, d);
    }
  }

  // ----- whole runs

  ghost predicate Next(s: State, st: Step, s': State) {
    WellFormed(s) && Enabled(s, st) && s' == Apply(s, st)
  }

  /** States of a run, one step of one CPU between neighbours. */
  ghost predicate IsRun(ss: seq<State>, steps: seq<Step>) {
    && |ss| == |steps| + 1
    && Init(ss[0])
    && forall i :: 0 <= i < |steps| ==> Next(ss[i], steps[i], ss[i + 1])
  }

  lemma {:induction false} RunInv(ss: seq<State>, steps: seq<Step>, i: nat)
    requires IsRun(ss, steps) && i < |ss|
    ensures Inv(ss[i])
  {
    if i == 0 {
      InitInv(ss[0]);
    } else {
      RunInv(ss, steps, i - 1);
      assert Next(ss[i - 1], steps[i - 1], ss[i]);
      StepKeepsInv(ss[i - 1], steps[i - 1]);
    }
  }

  /** In every reachable state at most one CPU owns the lock, and the CPUs whose
      current thread counts the lock are its owner and the ones still spinning. */
  lemma LockDiscipline(ss: seq<State>, steps: seq<Step>, i: nat, c: nat)
    requires IsRun(ss, steps) && i < |ss| && c < |ss[i].cpus|
    ensures Owns(ss[i], c) ==> ss[i].locked && forall d :: 0 <= d < |ss[i].cpus| && d != c ==> !Owns(ss[i], d)
    ensures ss[i].locked ==> exists d :: 0 <= d < |ss[i].cpus| && Owns(ss[i], d)
    ensures HasThread(ss[i], c) && Nest(ss[i], c) > 0 ==> Owns(ss[i], c) || ss[i].cpus[c].phase.Spinning?
    ensures ss[i].cpus[c].phase.Running? && Owns(ss[i], c) ==> HasThread(ss[i], c) && Nest(ss[i], c) > 0
  {
    RunInv(ss, steps, i);
  }

  /** The lock is released only by its owner, and the restore step at a context
      switch hands it over or releases it as the target's count says. */
  lemma ReleaseDiscipline(ss: seq<State>, steps: seq<Step>, i: nat)
    requires IsRun(ss, steps) && i < |steps|
    ensures var s, st, s' := ss[i], steps[i], ss[i + 1];
      && (s.locked && !s'.locked ==> Owns(s, st.c) && (st.Unlock? || st.ExitCritical? || st.Restore?))
      && (st.Restore? ==> s.locked && (s'.locked <==> Nest(s, st.c) > 0) && (s'.locked ==> Owns(s', st.c)))
      && ((st.Unlock? || st.ExitCritical?) && HasThread(s, st.c) ==> s.locked && (s'.locked <==> Nest(s, st.c) > 1))
  {
    RunInv(ss, steps, i);
    assert Next(ss[i], steps[i], ss[i + 1]);
    OwnStep(ss[i], steps[i]);
    if HasThread(ss[i], steps[i].c) {
      CurrentOk(ss[i], steps[i].c);
    }
  }

  /** No context switch leaves a thread inside a critical section or with preemption disabled, and
      one at the end of an interrupt leaves a thread that counts nothing at all. */
  lemma SwitchDiscipline(ss: seq<State>, steps: seq<Step>, i: nat)
    requires IsRun(ss, steps) && i < |steps| && (steps[i].Switch? || steps[i].IrqSwitch?)
    ensures var s, st, s' := ss[i], steps[i], ss[i + 1];
      && HasThread(s, st.c) && Counts(s, st.c).critNest == Calls(s, st.c).preempts == 0 && Owns(s, st.c)
      && (st.IrqSwitch? ==> Nest(s, st.c) == 1 && HasThread(s', st.c) && Counts(s', st.c) == Thread(0, 0, 0))
  {
    RunInv(ss, steps, i);
    assert Next(ss[i], steps[i], ss[i + 1]);
    CurrentOk(ss[i], steps[i].c);
  }

  /** While a thread that is not entering is in a critical section, its CPU owns the lock. */
  lemma CriticalExcludes(ss: seq<State>, steps: seq<Step>, i: nat, c: nat, d: nat)
    requires IsRun(ss, steps) && i < |ss| && c < |ss[i].cpus| && d < |ss[i].cpus| && c != d
    requires ss[i].cpus[c].phase.Running? && HasThread(ss[i], c) && Counts(ss[i], c).critNest > 0
    ensures Owns(ss[i], c) && ss[i].locked && !Owns(ss[i], d)
    ensures ss[i].cpus[d].phase.Running? && HasThread(ss[i], d) ==> Counts(ss[i], d).critNest == 0
  {
    RunInv(ss, steps, i);
    CurrentOk(ss[i], c);
    assert Owns(ss[i], c);
    if ss[i].cpus[d].current.Some? {
      CurrentOk(ss[i], d);
    }
  }

  // ----- progress

  /** What a CPU can do: a running one can take the lock and undo what its thread has done; one that spins gets the
      lock when it is free; the others go on with the start or the switch they are in. */
  lemma NeverStuck(s: State, c: nat, t: int)
    requires Inv(s) && c < |s.cpus|
    ensures var threaded := s.cpus[c].current.Some?;
      match s.cpus[c].phase
      case Running =>
        && Enabled(s, Lock(c)) && Enabled(s, EnterCritical(c)) && Enabled(s, PreemptOff(c))
        && (!threaded ==> Enabled(s, Startup(c)))
        && (threaded ==> HasThread(s, c)
                         && (Calls(s, c).locks > 0 ==> Enabled(s, Unlock(c)))
                         && (Counts(s, c).critNest > 0 ==> Enabled(s, ExitCritical(c)))
                         && (Calls(s, c).preempts > 0 ==> Enabled(s, PreemptOn(c)))
                         && (Calls(s, c).locks == 0 ==> Enabled(s, Interrupt(c)))
                         && (Counts(s, c).schedNest == 1 && Calls(s, c).locks > 0 && !s.cpus[c].inIrq && Off(s, t) ==>
                               Enabled(s, Switch(c, t))))
      case Spinning(_) => !s.locked ==> Enabled(s, Acquire(c))
      case Starting => Off(s, t) ==> Enabled(s, StartFirst(c, t))
      case Switching(_) => Enabled(s, SetCurrent(c))
      case Restoring => Enabled(s, Restore(c))
  {
    hide Off, Exclusive, Counted, Placed;
    PlacedOk(s);
  }

  /** The way to give back the lock: undo a call, or finish the switch. */
  ghost function GiveStep(s: State, c: nat): Step
    requires WellFormed(s) && c < |s.cpus| && Owns(s, c)
  {
    match s.cpus[c].phase
    case Switching(_) => SetCurrent(c)
    case Restoring => Restore(c)
    case _ => if HasThread(s, c) && Calls(s, c).locks > 0 then Unlock(c) else ExitCritical(c)
  }

  /** How many such steps are left. */
  ghost function Rank(s: State, c: nat): int
    requires WellFormed(s) && c < |s.cpus|
  {
    match s.cpus[c].phase
    case Switching(to) => s.threads[to].lockNest + 2
    case Restoring => if HasThread(s, c) then Nest(s, c) + 1 else 0
    case _ => if HasThread(s, c) then Nest(s, c) else 0
  }

  lemma OneGiven(s: State, c: nat)
    requires Inv(s) && c < |s.cpus| && Owns(s, c) && !s.cpus[c].phase.Starting?
    ensures var st := GiveStep(s, c);
      && st.c == c && Enabled(s, st) && Rank(s, c) >= 1 && WellFormed(Apply(s, st)) && |Apply(s, st).cpus| == |s.cpus|
      && (Apply(s, st).cpus[c].phase.Running? || Apply(s, st).cpus[c].phase.Restoring?)
      && (Apply(s, st).locked ==> Rank(Apply(s, st), c) == Rank(s, c) - 1)
      && (!Apply(s, st).locked ==> Rank(s, c) == 1)
  {
    hide Off, Placed;
    PlacedOk(s);
    if s.cpus[c].current.Some? {
      CurrentOk(s, c);
    }
    var st := GiveStep(s, c);
    StepWellFormed(s, st);
  }

  /** A CPU that owns the lock and has a thread to run can give it back all by itself, in as many steps as the thread
      counts it, and whoever spins can then take it. */
  lemma {:induction false} GivesBack(s: State, c: nat) returns (ss: seq<State>, steps: seq<Step>)
    requires Inv(s) && c < |s.cpus| && Owns(s, c) && !s.cpus[c].phase.Starting?
    ensures |steps| == Rank(s, c) && |ss| == |steps| + 1 && ss[0] == s
    ensures forall i :: 0 <= i < |steps| ==> Next(ss[i], steps[i], ss[i + 1]) && steps[i].c == c
    ensures var s' := ss[|steps|];
      && Inv(s') && !s'.locked && |s'.cpus| == |s.cpus|
      && forall d :: 0 <= d < |s.cpus| && d != c ==>
           s'.cpus[d] == s.cpus[d] && (s.cpus[d].phase.Spinning? ==> Enabled(s', Acquire(d)))
    decreases Rank(s, c)
  {
    hide Enabled, Apply, Owns, Rank, GiveStep, Exclusive, Counted, WellFormed;
    OneGiven(s, c);
    var st := GiveStep(s, c);
    var s1 := Apply(s, st);
    StepKeepsInv(s, st);
    StepWellFormed(s, st);
    if s1.locked {
      OwnStep(s, st);
      ss, steps := GivesBack(s1, c);
      ss, steps := [s] + ss, [st] + steps;
    } else {
      ss, steps := [s, s1], [st];
      forall d | 0 <= d < |s.cpus| && d != c && s.cpus[d].phase.Spinning? ensures Enabled(s1, Acquire(d)) {
        NeverStuck(s1, d, 0);
      }
    }
  }

  // ----- the counts as the history of the calls

  /** What a thread has called and not undone: rt_cpus_lock or rt_enter_critical, rt_enter_critical once it has
      the lock, _cpu_preempt_disable. */
  datatype Tally = Tally(locks: int, crits: int, preempts: int)

  ghost function Tallied(a: Tally, s: State, st: Step, t: nat): Tally
    requires WellFormed(s) && st.c < |s.cpus|
  {
    var cpu := s.cpus[st.c];
    if cpu.current != Some(t) then a
    else
      match st
      case Lock(_) => a.(locks := a.locks + 1)
      case Unlock(_) => a.(locks := a.locks - 1)
      case IrqSwitch(_, _) => a.(locks := a.locks - 1)
      case EnterCritical(_) =>
        a.(locks := a.locks + 1, crits := if s.threads[t].lockNest > 0 then a.crits + 1 else a.crits)
      case Acquire(_) => a.(crits := if cpu.phase == Spinning(true) then a.crits + 1 else a.crits)
      case ExitCritical(_) => a.(locks := a.locks - 1, crits := a.crits - 1)
      case PreemptOff(_) => a.(preempts := a.preempts + 1)
      case PreemptOn(_) => a.(preempts := a.preempts - 1)
      case _ => a
  }

  ghost function TallyAt(ss: seq<State>, steps: seq<Step>, i: nat, t: nat): Tally
    requires IsRun(ss, steps) && i < |ss|
  {
    if i == 0 then Tally(0, 0, 0)
    else
      assert Next(ss[i - 1], steps[i - 1], ss[i]);
      Tallied(TallyAt(ss, steps, i - 1, t), ss[i - 1], steps[i - 1], t)
  }

  lemma StepTally(s: State, st: Step, t: nat)
    requires Inv(s) && Enabled(s, st) && t < |s.threads|
    ensures var s' := Apply(s, st);
      && |s'.threads| == |s'.open| == |s.threads| == |s.open| && TallyOf(s', t) == Tallied(TallyOf(s, t), s, st, t)
  {
    hide Exclusive, Counted, Off, Placed;
    LockNestAtLeast(s, t);
  }

  lemma LockNestAtLeast(s: State, t: nat)
    requires Inv(s) && t < |s.threads|
    ensures s.threads[t].lockNest >= 0 && WellFormed(s)
  {
    hide Exclusive;
    assert CountsOk(s.threads[t], s.open[t], Entering(s, t));
  }

  /** In every state of every run the three counts of every thread are those of its open calls: the big lock's, the
      critical sections', and for the scheduler one for the big lock, one for every critical section and
      one for every disabling of preemption. */
  lemma {:induction false} CountsAreCalls(ss: seq<State>, steps: seq<Step>, i: nat, t: nat)
    requires IsRun(ss, steps) && i < |ss| && t < |ss[0].threads|
    ensures |ss[i].threads| == |ss[0].threads| && |ss[i].open| == |ss[0].threads|
    ensures var a := TallyAt(ss, steps, i, t);
      && ss[i].threads[t] == Thread(a.locks, (if a.locks > 0 then 1 else 0) + a.crits + a.preempts, a.crits)
      && ss[i].open[t].preempts == a.preempts
  {
    hide TallyAt, Placed, Exclusive, WellFormed, Next;
    RunInv(ss, steps, i);
    TallyFollows(ss, steps, i, t);
    SameLength(ss[i]);
    assert CountsOk(ss[i].threads[t], ss[i].open[t], Entering(ss[i], t));
  }

  ghost function TallyOf(s: State, t: nat): Tally
    requires t < |s.threads| == |s.open|
  {
    Tally(s.threads[t].lockNest, s.threads[t].critNest, s.open[t].preempts)
  }

  lemma {:induction false} TallyFollows(ss: seq<State>, steps: seq<Step>, i: nat, t: nat)
    requires IsRun(ss, steps) && i < |ss| && t < |ss[0].threads|
    ensures |ss[i].threads| == |ss[i].open| == |ss[0].threads| && TallyOf(ss[i], t) == TallyAt(ss, steps, i, t)
  {
    hide Enabled, Apply, Inv, Tallied, WellFormed;
    if i == 0 {
      InitInv(ss[0]);
      SameLength(ss[0]);
    } else {
      TallyFollows(ss, steps, i - 1, t);
      RunInv(ss, steps, i - 1);
      assert Next(ss[i - 1], steps[i - 1], ss[i]);
      StepTally(ss[i - 1], steps[i - 1], t);
    }
  }

  lemma SameLength(s: State)
    requires Inv(s)
    ensures |s.open| == |s.threads|
  {
  }

  // ----- the code of cpu.c, section by section

  class Smp {
    var locked: bool
    var threads: seq<Thread>
    var cpus: seq<Cpu>
    ghost var open: seq<Open>

    ghost function Abs(): State
      reads this
    {
      State(locked, threads, open, cpus)
    }

    /** The state is a good one and the step can happen. */
    ghost predicate Can(st: Step)
      reads this
    {
      Inv(Abs()) && Enabled(Abs(), st)
    }

    /** rt_cpus_lock on CPU c, up to the point where it has to wait. */
    method CpusLock(c: nat)
      requires Can(Lock(c))
      modifies this
      ensures Abs() == Apply(old(Abs()), Lock(c)) && Inv(Abs())
    {
      hide Exclusive, Placed, Off;
      StepKeepsInv(Abs(), Lock(c));
      if cpus[c].current != None {
        CurrentOk(Abs(), c);
      }
      if cpus[c].current != None {
        var t := cpus[c].current.value;
        open := open[t := Open(open[t].locks + 1, open[t].preempts)];
        var lockNest := threads[t].lockNest;
        threads := threads[t := threads[t].(lockNest := lockNest + 1)];
        if lockNest == 0 {
          threads := threads[t := threads[t].(schedNest := threads[t].schedNest + 1)];
          cpus := cpus[c := cpus[c].(phase := Spinning(false))];
        }
      }
    }

    /** rt_hw_spin_lock(&_cpus_lock) finds the lock free; rt_enter_critical then goes on. */
    method SpinLock(c: nat)
      requires Can(Acquire(c))
      modifies this
      ensures Abs() == Apply(old(Abs()), Acquire(c)) && Inv(Abs())
    {
      StepKeepsInv(Abs(), Acquire(c));
      locked := true;
      if cpus[c].phase.critical {
        var t := cpus[c].current.value;
        threads := threads[t := threads[t].(critNest := threads[t].critNest + 1)];
        threads := threads[t := threads[t].(schedNest := threads[t].schedNest + 1)];
      }
      cpus := cpus[c := cpus[c].(phase := if cpus[c].current == None then Starting else Phase.Running)];
    }

    /** rt_cpus_unlock on CPU c. */
    method CpusUnlock(c: nat)
      requires Can(Unlock(c))
      modifies this
      ensures Abs() == Apply(old(Abs()), Unlock(c)) && Inv(Abs())
    {
      hide Exclusive, Placed;
      StepKeepsInv(Abs(), Unlock(c));
      if cpus[c].current != None {
        CurrentOk(Abs(), c);
        var t := cpus[c].current.value;
        assert threads[t].lockNest > 0;
        open := open[t := Open(open[t].locks - 1, open[t].preempts)];
        threads := threads[t := threads[t].(lockNest := threads[t].lockNest - 1)];
        if threads[t].lockNest == 0 {
          threads := threads[t := threads[t].(schedNest := threads[t].schedNest - 1)];
          locked := false;
        }
      }
    }

    /** rt_enter_critical on CPU c, up to the point where it has to wait. */
    method CriticalEnter(c: nat)
      requires Can(EnterCritical(c))
      modifies this
      ensures Abs() == Apply(old(Abs()), EnterCritical(c)) && Inv(Abs())
    {
      hide Exclusive, Placed, Off;
      StepKeepsInv(Abs(), EnterCritical(c));
      if cpus[c].current != None {
        CurrentOk(Abs(), c);
        var t := cpus[c].current.value;
        var lockNest := threads[t].lockNest;
        threads := threads[t := threads[t].(lockNest := lockNest + 1)];
        assert threads[t].lockNest != 0;
        if lockNest == 0 {
          threads := threads[t := threads[t].(schedNest := threads[t].schedNest + 1)];
          cpus := cpus[c := cpus[c].(phase := Spinning(true))];
          return;
        }
        threads := threads[t := threads[t].(critNest := threads[t].critNest + 1)];
        threads := threads[t := threads[t].(schedNest := threads[t].schedNest + 1)];
      }
    }

    /** rt_exit_critical on CPU c; it goes on to rt_schedule when the scheduler is unlocked. */
    method CriticalExit(c: nat) returns (schedule: bool)
      requires Can(ExitCritical(c))
      modifies this
      ensures Abs() == Apply(old(Abs()), ExitCritical(c)) && Inv(Abs())
      ensures schedule <==> HasThread(Abs(), c) && Counts(Abs(), c).schedNest == 0
    {
      hide Exclusive, Placed, Counted, Off;
      StepKeepsInv(Abs(), ExitCritical(c));
      schedule := false;
      if cpus[c].current != None {
        CurrentOk(Abs(), c);
        var t := cpus[c].current.value;
        threads := threads[t := threads[t].(schedNest := threads[t].schedNest - 1)];
        threads := threads[t := threads[t].(critNest := threads[t].critNest - 1)];
        assert threads[t].lockNest > 0;
        threads := threads[t := threads[t].(lockNest := threads[t].lockNest - 1)];
        if threads[t].lockNest == 0 {
          threads := threads[t := threads[t].(schedNest := threads[t].schedNest - 1)];
          locked := false;
        }
        if threads[t].schedNest <= 0 {
          threads := threads[t := threads[t].(schedNest := 0)];
          schedule := true;
        }
      }
    }

    /** _cpu_preempt_disable on CPU c. */
    method PreemptDisable(c: nat)
      requires Can(PreemptOff(c))
      modifies this
      ensures Abs() == Apply(old(Abs()), PreemptOff(c)) && Inv(Abs())
    {
      hide Exclusive, Placed;
      StepKeepsInv(Abs(), PreemptOff(c));
      if cpus[c].current != None {
        CurrentOk(Abs(), c);
        var t := cpus[c].current.value;
        open := open[t := Open(open[t].locks, open[t].preempts + 1)];
        threads := threads[t := threads[t].(schedNest := threads[t].schedNest + 1)];
      }
    }

    /** _cpu_preempt_enable on CPU c, up to its rt_schedule. */
    method PreemptEnable(c: nat)
      requires Can(PreemptOn(c))
      modifies this
      ensures Abs() == Apply(old(Abs()), PreemptOn(c)) && Inv(Abs())
    {
      hide Exclusive, Placed;
      StepKeepsInv(Abs(), PreemptOn(c));
      if cpus[c].current != None {
        CurrentOk(Abs(), c);
        var t := cpus[c].current.value;
        open := open[t := Open(open[t].locks, open[t].preempts - 1)];
        threads := threads[t := threads[t].(schedNest := threads[t].schedNest - 1)];
      }
    }

    /** What rt_scheduler_do_irq_switch does to the counts before it switches to thread u. */
    method LeaveByIrq(c: nat, u: int)
      requires Can(IrqSwitch(c, u))
      modifies this
      ensures Abs() == Apply(old(Abs()), IrqSwitch(c, u)) && Inv(Abs())
      ensures Counts(Abs(), c) == Thread(0, 0, 0) && Calls(Abs(), c) == Open(0, 0)
    {
      hide Exclusive, Placed, Off;
      StepKeepsInv(Abs(), IrqSwitch(c, u));
      CurrentOk(Abs(), c);
      var t := cpus[c].current.value;
      assert threads[t].lockNest > 0;
      open := open[t := Open(open[t].locks - 1, open[t].preempts)];
      threads := threads[t := threads[t].(lockNest := threads[t].lockNest - 1)];
      threads := threads[t := threads[t].(schedNest := threads[t].schedNest - 1)];
      cpus := cpus[c := Cpu(cpus[c].current, Switching(u), false)];
    }

    /** rt_cpus_lock_status_restore, first line: the target becomes current. */
    method SetCurrentThread(c: nat)
      requires Can(SetCurrent(c))
      modifies this
      ensures Abs() == Apply(old(Abs()), SetCurrent(c)) && Inv(Abs())
    {
      StepKeepsInv(Abs(), SetCurrent(c));
      cpus := cpus[c := Cpu(Some(cpus[c].phase.to), Restoring, false)];
    }

    /** rt_cpus_lock_status_restore, the rest. */
    method LockStatusRestore(c: nat)
      requires Can(Restore(c))
      modifies this
      ensures Abs() == Apply(old(Abs()), Restore(c)) && Inv(Abs())
    {
      StepKeepsInv(Abs(), Restore(c));
      if threads[cpus[c].current.value].lockNest == 0 {
        locked := false;
      }
      cpus := cpus[c := cpus[c].(phase := Phase.Running)];
    }
  }

  lemma StepKeepsInv(s: State, st: Step)
    requires Inv(s) && Enabled(s, st)
    ensures Inv(Apply(s, st))
  {
    StepExclusive(s, st);
    StepPlaced(s, st);
    StepCounted(s, st);
  }
}
