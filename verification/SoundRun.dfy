/** Whole runs of the sound unit: any schedule of catch-ups gives the same samples,
    and no field of a packed sample ever carries into the next. */
module SoundRun {
  import opened Basics
  import opened SoundSpec
  import opened SoundLazy

  // ----- invariants of the eager machine

  /** The fields of a packed sample index the two lookup tables. */
  predicate Fits(w: nat) { w % WORD == 0 && w / WORD % 256 <= 202 && w / SQ <= 30 }

  predicate PhaseOk(c: nat, p: Phase) { p.wl >= 1 && (c < 2 ==> p.step < 8) && (c == 3 ==> p.step < 0x8000) }

  /** What the channels but the sample channel may add up to. */
  predicate Rest(w: nat) { w % WORD == 0 && w / WORD % 256 <= 75 && w / SQ <= 30 }

  predicate Above(w: nat, level: nat) { w >= level && Rest(w - level) }

  /** pcm is where the sample channel's cursor stands: from there on, every sample of the period
      contains its present level. */
  ghost predicate Inv(e: Eager, s: Settings, pcm: nat) {
    && EagerOk(e) && RegsOk(e.r) && pcm <= e.now
    && (forall c :: 0 <= c < 5 ==> PhaseOk(c, e.ph[c]))
    && (forall i :: e.base <= i < e.now ==> Fits(e.wave[i]))
    && (forall i :: e.base <= i < e.now && pcm <= i ==> Above(e.wave[i], PcmLevel(e.r, s)))
    && (forall i :: e.now <= i < |e.wave| ==> e.wave[i] == 0)
  }

  /** Five channels inside their shares: the sums stay in their fields. */
  lemma MixedFields(r: Regs, s: Settings, ph: seq<Phase>) returns (level: seq<nat>)
    requires RegsOk(r) && |ph| == 5
    ensures |level| == 5 && forall c :: 0 <= c < 5 ==> Sample(ConfigOf(r, s, c), ph[c]) == level[c] * Unit(c)
    ensures var w := Mixed(r, s, ph);
            && w % WORD == 0
            && w / WORD % 256 == level[2] + level[3] + level[4] <= 202 && level[2] + level[3] <= 75
            && w / SQ == level[0] + level[1] <= 30
  {
    hide Sample, ConfigOf;
    var l0 := SampleBound(r, s, 0, ph[0]);
    var l1 := SampleBound(r, s, 1, ph[1]);
    var l2 := SampleBound(r, s, 2, ph[2]);
    var l3 := SampleBound(r, s, 3, ph[3]);
    var l4 := SampleBound(r, s, 4, ph[4]);
    level := [l0, l1, l2, l3, l4];
    Fields(l0 + l1, l2 + l3 + l4);
    assert Mixed(r, s, ph) == (l0 + l1) * SQ + (l2 + l3 + l4) * WORD;
  }

  lemma Fields(a: nat, b: nat)
    requires b < 256
    ensures var w := a * SQ + b * WORD;
            w % WORD == 0 && w / WORD % 256 == b && w / SQ == a
  {
    assert (a * SQ + b * WORD) / WORD == a * 256 + b;
  }

  lemma MixedFits(r: Regs, s: Settings, ph: seq<Phase>)
    requires RegsOk(r) && |ph| == 5
    ensures Fits(Mixed(r, s, ph)) && Above(Mixed(r, s, ph), PcmLevel(r, s))
  {
    hide Mixed, Sample;
    var l := MixedFields(r, s, ph);
    PcmPart(r, s, ph);
    CutBound(r.latch, s.pcm);
    Fields(l[0] + l[1], l[2] + l[3]);
  }

  /** The sample channel's share of a mixed sample. */
  lemma PcmPart(r: Regs, s: Settings, ph: seq<Phase>)
    requires RegsOk(r) && |ph| == 5
    ensures Mixed(r, s, ph) == Sample(ConfigOf(r, s, 0), ph[0]) + Sample(ConfigOf(r, s, 1), ph[1])
      + Sample(ConfigOf(r, s, 2), ph[2]) + Sample(ConfigOf(r, s, 3), ph[3]) + PcmLevel(r, s)
  {
  }

  lemma AboveFits(w: nat, r: Regs, r': Regs, s: Settings)
    requires r'.latch < 128 && Above(w, PcmLevel(r, s))
    ensures Fits(w - PcmLevel(r, s) + PcmLevel(r', s))
    ensures Above(w - PcmLevel(r, s) + PcmLevel(r', s), PcmLevel(r', s))
  {
    var rest := w - PcmLevel(r, s);
    CutBound(r'.latch, s.pcm);
    var k := r'.latch * s.pcm / 256;
    assert rest == rest / SQ * SQ + rest / WORD % 256 * WORD;
    Fields(rest / SQ, rest / WORD % 256 + k);
  }

  lemma TickInv(e: Eager, s: Settings, pcm: nat)
    requires Inv(e, s, pcm) && e.now < |e.wave|
    ensures Inv(EagerTick(e, s), s, pcm)
  {
    hide Mixed, Sample, SampleAt, Fits, Above, PcmLevel;
    MixedFits(e.r, s, e.ph);
    forall c | 0 <= c < 5
      ensures PhaseOk(c, Next(ConfigOf(e.r, s, c), e.ph[c]))
    {
    }
  }

  lemma RegsInv(r: Regs, s: Settings, a: nat, v: Byte)
    requires RegsOk(r) && a < 16
    ensures RegsOk(WritePsg(r, s, a, v))
  {
    hide Loaded;
  }

  lemma SweptBound(r: Regs, x: nat)
    requires Shaped(r) && x < 2 && r.curfreq[x] < 0x800
    ensures SweptFreq(r, x) < 0x800
  {
    hide Pow2;
    var shift, cf := r.psg[4 * x + 1] % 8, r.curfreq[x];
    if cf >= 8 && shift >= 1 {
      SweepStays(cf, shift, x);
    }
  }

  lemma HalfFrameInv(r: Regs)
    requires RegsOk(r)
    ensures RegsOk(HalfFrame(r))
  {
    hide SweptFreq, SweptCount, Counted;
    SweptBound(r, 0);
    SweptBound(r, 1);
  }

  lemma QuarterFrameInv(r: Regs)
    requires RegsOk(r)
    ensures RegsOk(QuarterFrame(r))
  {
  }

  lemma RegsShaped(r: Regs)
    requires RegsOk(r)
    ensures Shaped(r)
  {
  }

  lemma FrameInv(r: Regs, fcnt: nat)
    requires RegsOk(r)
    ensures RegsOk(Frame(r, fcnt))
  {
    hide HalfFrame, QuarterFrame, RegsOk;
    RegsShaped(r);
    HalfFrameInv(r);
    QuarterFrameInv(r);
    QuarterFrameInv(HalfFrame(r));
  }

  lemma FlushInv(e: Eager, s: Settings, pcm: nat, left: nat)
    requires Inv(e, s, pcm) && left <= e.now
    ensures Inv(EagerFlush(e, left), s, if e.now == e.base then pcm else left)
  {
    hide Fits, Above, PcmLevel;
  }

  /** Where an event leaves the time, the period's beginning and the sample channel's cursor. */
  datatype Clock = Clock(now: nat, base: nat, pcm: nat)

  function ClockOf(m: Lazy): Clock
    requires LazyOk(m)
  {
    Clock(m.now, m.base, m.cur[4])
  }

  function ClockStep(c: Clock, ev: Event): Clock {
    match ev
    case Tick => c.(now := c.now + 1)
    case Catch(x) => if x == 4 then c.(pcm := c.now) else c
    case Latch(_) => c.(pcm := c.now)
    case Delta(_, back) => if back <= c.now then c.(pcm := c.now - back) else c
    case Status(_) => c.(pcm := c.now)
    case Flush(left) => if c.now == c.base then c else Clock(left, left, left)
    case _ => c
  }

  lemma StepInv(e: Eager, s: Settings, pcm: nat, ev: Event)
    requires Inv(e, s, pcm) && Enabled(e.now, |e.wave|, ev) && !ev.Delta?
    ensures Inv(EagerStep(e, s, ev), s, ClockStep(Clock(e.now, e.base, pcm), ev).pcm)
  {
    hide Fits, Above, PcmLevel;
    match ev {
      case Tick => TickInv(e, s, pcm);
      case Psg(a, v) =>
        RegsInv(e.r, s, a, v);
        LatchKept(e.r, s, a, v);
      case FrameStep(fcnt) =>
        FrameInv(e.r, fcnt);
        FrameLatch(e.r, s, fcnt);
      case Flush(left) => FlushInv(e, s, pcm, left);
      case _ =>
    }
  }

  lemma LatchKept(r: Regs, s: Settings, a: nat, v: Byte)
    requires RegsOk(r) && a < 16
    ensures PcmLevel(WritePsg(r, s, a, v), s) == PcmLevel(r, s)
  {
    hide Loaded;
  }

  lemma FrameLatch(r: Regs, s: Settings, fcnt: nat)
    requires RegsOk(r)
    ensures PcmLevel(Frame(r, fcnt), s) == PcmLevel(r, s)
  {
    hide Counted, SweptFreq, SweptCount, Decayed;
  }

  /** The event makes a sample of the period be rendered twice: the sample channel's cursor comes back. */
  predicate Doubles(c: Clock, ev: Event) { ev.Delta? && Max(c.base, c.now - ev.back) < c.pcm }

  /** A bit of the sample keeps the range unless it makes the channel render a sample twice. */
  lemma DeltaInv(m: Lazy, s: Settings, up: bool, back: nat)
    requires LazyOk(m) && Inv(Abs(m, s), s, m.cur[4]) && back <= m.now && !Doubles(ClockOf(m), Delta(up, back))
    ensures Inv(Abs(LazyDelta(m, s, up, back), s), s, m.now - back)
  {
    hide Fits, Above, PcmLevel, Owed, ConfigOf;
    var w, e := LazyDelta(m, s, up, back), Abs(m, s);
    var e', to := Abs(w, s), m.now - back;
    DeltaBound(m.r.latch, up);
    forall c | 0 <= c < 5 ensures PhaseOk(c, e'.ph[c]) {
      DeltaPhase(m, s, up, back, c);
      assert PhaseOk(c, e.ph[c]);
    }
    forall i | e.base <= i < |e.wave|
      ensures i < e.now ==> Fits(e'.wave[i])
      ensures to <= i < e.now ==> Above(e'.wave[i], PcmLevel(w.r, s))
      ensures i >= e.now ==> e'.wave[i] == 0
    {
      DeltaAt(m, s, up, back, i);
      if to <= i < e.now {
        AboveFits(e.wave[i], m.r, w.r, s);
      }
    }
  }

  lemma DeltaBound(latch: nat, up: bool)
    ensures latch < 128 ==> DeltaLatch(latch, up) < 128
  {
  }

  // ----- runs

  ghost predicate Runs(now: nat, base: nat, size: nat, evs: seq<Event>)
    decreases |evs|
  {
    evs == []
    || (&& Enabled(now, size, evs[0])
        && match evs[0]
           case Tick => Runs(now + 1, base, size, evs[1..])
           case Flush(left) => if now == base then Runs(now, base, size, evs[1..]) else Runs(left, left, size, evs[1..])
           case _ => Runs(now, base, size, evs[1..]))
  }

  function Run(m: Lazy, s: Settings, evs: seq<Event>): (m': Lazy)
    requires LazyOk(m) && Runs(m.now, m.base, |m.wave|, evs)
    ensures LazyOk(m')
    decreases |evs|
  {
    if evs == [] then m else
      StepClock(m, s, evs[0]);
      Run(LazyStep(m, s, evs[0]), s, evs[1..])
  }

  lemma StepClock(m: Lazy, s: Settings, ev: Event)
    requires LazyOk(m) && Enabled(m.now, |m.wave|, ev)
    ensures var m' := LazyStep(m, s, ev);
            && |m'.wave| == |m.wave| && ClockOf(m') == ClockStep(ClockOf(m), ev)
            && match ev
               case Tick => m'.now == m.now + 1 && m'.base == m.base
               case Flush(left) => if m.now == m.base then m'.now == m.now && m'.base == m.base
                                   else m'.now == left && m'.base == left
               case _ => m'.now == m.now && m'.base == m.base
  {
  }

  function EagerRun(e: Eager, s: Settings, evs: seq<Event>): (e': Eager)
    requires EagerOk(e) && Runs(e.now, e.base, |e.wave|, evs)
    ensures EagerOk(e')
    decreases |evs|
  {
    if evs == [] then e else EagerRun(EagerStep(e, s, evs[0]), s, evs[1..])
  }

  /** Every bit of the sample is on time. */
  predicate Timely(c: Clock, evs: seq<Event>)
    decreases |evs|
  {
    evs != [] ==> OnTime(c.now, c.pcm, evs[0]) && Timely(ClockStep(c, evs[0]), evs[1..])
  }

  /** No sample is rendered twice. */
  predicate NoDouble(c: Clock, evs: seq<Event>)
    decreases |evs|
  {
    evs != [] ==> !Doubles(c, evs[0]) && NoDouble(ClockStep(c, evs[0]), evs[1..])
  }

  lemma {:induction false} TimelyNoDouble(c: Clock, evs: seq<Event>)
    requires Timely(c, evs)
    ensures NoDouble(c, evs)
    decreases |evs|
  {
    if evs != [] {
      TimelyNoDouble(ClockStep(c, evs[0]), evs[1..]);
    }
  }

  /** If every bit is played at once, all are on time. */
  lemma {:induction false} PromptTimely(c: Clock, size: nat, evs: seq<Event>)
    requires c.base <= c.now && c.pcm <= c.now && Runs(c.now, c.base, size, evs)
    requires forall i :: 0 <= i < |evs| && evs[i].Delta? ==> evs[i].back == 0
    ensures Timely(c, evs)
    decreases |evs|
  {
    if evs != [] {
      assert evs[0].Delta? ==> evs[0].back == 0;
      PromptTimely(ClockStep(c, evs[0]), size, evs[1..]);
    }
  }

  /** Over any run with its bits on time the lazy renderer stands for the eager one. */
  lemma {:induction false} RunRefines(m: Lazy, s: Settings, evs: seq<Event>)
    requires LazyOk(m) && Runs(m.now, m.base, |m.wave|, evs) && Timely(ClockOf(m), evs)
    ensures Abs(Run(m, s, evs), s) == EagerRun(Abs(m, s), s, evs)
    decreases |evs|
  {
    hide Abs, LazyStep, EagerStep;
    if evs != [] {
      StepClock(m, s, evs[0]);
      StepAbs(m, s, evs[0]);
      RunRefines(LazyStep(m, s, evs[0]), s, evs[1..]);
    }
  }

  ghost predicate LazyInv(m: Lazy, s: Settings) { LazyOk(m) && Inv(Abs(m, s), s, m.cur[4]) }

  lemma LazyStepInv(m: Lazy, s: Settings, ev: Event)
    requires LazyInv(m, s) && Enabled(m.now, |m.wave|, ev) && !Doubles(ClockOf(m), ev)
    ensures LazyInv(LazyStep(m, s, ev), s)
  {
    hide Abs, Inv, LazyStep, EagerStep, LazyDelta;
    StepClock(m, s, ev);
    if ev.Delta? {
      DeltaInv(m, s, ev.up, ev.back);
      IsDelta(m, s, ev);
    } else {
      StepAbs(m, s, ev);
      StepInv(Abs(m, s), s, m.cur[4], ev);
    }
  }

  lemma IsDelta(m: Lazy, s: Settings, ev: Event)
    requires LazyOk(m) && Enabled(m.now, |m.wave|, ev) && ev.Delta?
    ensures LazyStep(m, s, ev) == LazyDelta(m, s, ev.up, ev.back) && ClockStep(ClockOf(m), ev).pcm == m.now - ev.back
  {
  }

  lemma {:induction false} RunInv(m: Lazy, s: Settings, evs: seq<Event>)
    requires LazyInv(m, s) && Runs(m.now, m.base, |m.wave|, evs) && NoDouble(ClockOf(m), evs)
    ensures LazyInv(Run(m, s, evs), s)
    decreases |evs|
  {
    hide Abs, Inv, LazyStep;
    if evs != [] {
      StepClock(m, s, evs[0]);
      LazyStepInv(m, s, evs[0]);
      RunInv(LazyStep(m, s, evs[0]), s, evs[1..]);
    }
  }

  lemma EagerClock(e: Eager, s: Settings, ev: Event)
    requires EagerOk(e) && Enabled(e.now, |e.wave|, ev)
    ensures var e' := EagerStep(e, s, ev);
            && |e'.wave| == |e.wave|
            && match ev
               case Tick => e'.now == e.now + 1 && e'.base == e.base
               case Flush(left) => if e.now == e.base then e'.now == e.now && e'.base == e.base
                                   else e'.now == left && e'.base == left
               case _ => e'.now == e.now && e'.base == e.base
  {
  }

  // ----- main results

  /** If a flush came now, its table indices would be in range. */
  predicate InRange(m: Lazy, s: Settings)
    requires LazyOk(m)
  {
    forall i :: m.base <= i < m.now ==> Fits(CatchAll(m, s).wave[i])
  }

  lemma FlushInRange(m: Lazy, s: Settings)
    requires LazyInv(m, s)
    ensures InRange(m, s)
  {
    hide Abs, CatchAll, Fits;
    CatchAllAbs(m, s);
  }

  /** At whatever point of a run a flush comes, no field has carried, as long as the sample
      channel renders nothing twice. */
  lemma RunInRange(m: Lazy, s: Settings, evs: seq<Event>)
    requires LazyInv(m, s) && Runs(m.now, m.base, |m.wave|, evs) && NoDouble(ClockOf(m), evs)
    ensures LazyInv(Run(m, s, evs), s) && InRange(Run(m, s, evs), s)
  {
    hide Inv, Abs, InRange;
    RunInv(m, s, evs);
    FlushInRange(Run(m, s, evs), s);
  }

  const POWER_ON: Regs := Regs([0, 0, 0, 0, 0, 0, 0, 0, 0, 0, 0, 0, 0, 0, 0, 0],
                               [Env(0, 0, 0, 0, false), Env(0, 0, 0, 0, false), Env(0, 0, 0, 0, false)],
                               [0, 0, 0, 0], [0, 0], [false, false], [0, 0], [false, false], 0, false, 0, 0)

  /** After power-on and reset with a buffer of `size` samples, and a first $4011 write of the latch. */
  function Start(size: nat, latch: nat): (m: Lazy)
    ensures LazyOk(m)
  {
    Lazy(POWER_ON.(latch := latch), [Phase(0, 2048), Phase(0, 2048), Phase(0, 1), Phase(1, 2048), Phase(0, 1)],
         [0, 0, 0, 0, 0], seq(size, _ => 0), 0, 0)
  }

  lemma StartInv(size: nat, latch: nat, s: Settings)
    requires latch < 128
    ensures LazyInv(Start(size, latch), s) && ClockOf(Start(size, latch)) == Clock(0, 0, 0)
  {
    var m := Start(size, latch);
    assert forall c :: 0 <= c < 5 ==> CaughtUp(m, c);
    SettledAbs(m, s);
  }

  lemma FirstWrite(size: nat, v: Byte, s: Settings)
    requires v < 128
    ensures LazyStep(Start(size, 0), s, Latch(v)) == Start(size, v)
  {
    var m := Start(size, 0);
    assert CatchUp(m, s, 4).wave == m.wave && CatchUp(m, s, 4).ph == m.ph;
  }

  function WithoutCatch(evs: seq<Event>): seq<Event> {
    if evs == [] then [] else if evs[0].Catch? then WithoutCatch(evs[1..]) else [evs[0]] + WithoutCatch(evs[1..])
  }

  lemma {:induction false} CatchNeutral(e: Eager, s: Settings, evs: seq<Event>)
    requires EagerOk(e) && Runs(e.now, e.base, |e.wave|, evs)
    ensures Runs(e.now, e.base, |e.wave|, WithoutCatch(evs))
    ensures EagerRun(e, s, evs) == EagerRun(e, s, WithoutCatch(evs))
    decreases |evs|
  {
    if evs != [] {
      EagerClock(e, s, evs[0]);
      CatchNeutral(EagerStep(e, s, evs[0]), s, evs[1..]);
      if !evs[0].Catch? {
        assert ([evs[0]] + WithoutCatch(evs[1..]))[1..] == WithoutCatch(evs[1..]);
      }
    }
  }

  /** However the same events are interleaved with catch-ups, rendering everything
      owed at the end leaves the same registers, phases, cursors and samples. */
  lemma SchedulesAgree(m: Lazy, s: Settings, evs1: seq<Event>, evs2: seq<Event>)
    requires LazyOk(m) && Runs(m.now, m.base, |m.wave|, evs1) && Runs(m.now, m.base, |m.wave|, evs2)
    requires Timely(ClockOf(m), evs1) && Timely(ClockOf(m), evs2)
    requires WithoutCatch(evs1) == WithoutCatch(evs2)
    ensures CatchAll(Run(m, s, evs1), s) == CatchAll(Run(m, s, evs2), s)
  {
    hide Abs, CatchAll, WithoutCatch, Runs;
    RunRefines(m, s, evs1);
    RunRefines(m, s, evs2);
    CatchNeutral(Abs(m, s), s, evs1);
    CatchNeutral(Abs(m, s), s, evs2);
    CatchAllAbs(Run(m, s, evs1), s);
    CatchAllAbs(Run(m, s, evs2), s);
    var w1, w2 := CatchAll(Run(m, s, evs1), s), CatchAll(Run(m, s, evs2), s);
    assert w1.cur == w2.cur;
  }
}
