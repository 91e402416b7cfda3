/** Exactly when the fields of the packed samples stay inside the lookup tables. */
module SoundRange {
  import opened Basics
  import opened SoundSpec
  import opened SoundLazy
  import opened SoundRun

  /** At every point of the run a flush would find its table indices in range. */
  predicate AlwaysInRange(m: Lazy, s: Settings, evs: seq<Event>)
    requires LazyOk(m)
    decreases |evs|
  {
    && InRange(m, s)
    && (evs != [] && Enabled(m.now, |m.wave|, evs[0]) ==> AlwaysInRange(LazyStep(m, s, evs[0]), s, evs[1..]))
  }

  /** An event without the value that is written. */
  function Bare(ev: Event): Event {
    match ev
    case Psg(a, _) => Psg(a, 0)
    case Latch(_) => Latch(0)
    case Delta(_, back) => Delta(true, back)
    case Status(_) => Status(0)
    case _ => ev
  }

  /** The same events at the same times, with other values. */
  predicate SameTiming(evs: seq<Event>, evs2: seq<Event>) {
    |evs| == |evs2| && forall i :: 0 <= i < |evs| ==> Bare(evs[i]) == Bare(evs2[i])
  }

  lemma {:induction false} SameDoubles(c: Clock, evs: seq<Event>, evs2: seq<Event>)
    requires SameTiming(evs, evs2)
    ensures NoDouble(c, evs) == NoDouble(c, evs2)
    decreases |evs|
  {
    if evs != [] {
      assert Bare(evs[0]) == Bare(evs2[0]);
      SameDoubles(ClockStep(c, evs[0]), evs[1..], evs2[1..]);
    }
  }

  lemma {:induction false} AllInRange(m: Lazy, s: Settings, evs: seq<Event>)
    requires LazyInv(m, s) && NoDouble(ClockOf(m), evs)
    ensures AlwaysInRange(m, s, evs)
    decreases |evs|
  {
    hide Abs, Inv, LazyStep, InRange, Enabled;
    FlushInRange(m, s);
    if evs != [] && Enabled(m.now, |m.wave|, evs[0]) {
      StepClock(m, s, evs[0]);
      LazyStepInv(m, s, evs[0]);
      AllInRange(LazyStep(m, s, evs[0]), s, evs[1..]);
    }
  }

  // ----- the loudest values

  /** The sample channel alone, at full volume. */
  const LOUD: Settings := Settings(0, 0, 0, 0, 256, false, false)

  function Loudest(ev: Event): Event {
    match ev
    case Latch(_) => Latch(127)
    case Delta(_, back) => Delta(true, back)
    case _ => ev
  }

  /** Every sample of the period that was rendered holds the full level once. */
  predicate Once(m: Lazy) {
    && LazyOk(m) && m.r.latch == 127
    && forall i :: m.base <= i < |m.wave| ==> m.wave[i] == if i < m.cur[4] then 127 * WORD else 0
  }

  lemma Mute(r: Regs, c: nat, p: Phase)
    requires Shaped(r) && c < 4
    ensures Sample(ConfigOf(r, LOUD, c), p) == 0
  {
    hide CheckFreq, EnvLevel, RectDuty, NoisePeriod, TriLevel;
  }

  lemma FullLevel(r: Regs)
    requires r.latch == 127
    ensures PcmLevel(r, LOUD) == 127 * WORD
  {
  }

  /** The other channels add nothing to the samples. */
  lemma MuteCatch(m: Lazy, c: nat)
    requires LazyOk(m) && c < 4
    ensures CatchUp(m, LOUD, c).wave == m.wave
  {
    hide CheckFreq, Scaled, EnvLevel, RectDuty, PcmLevel, NoisePeriod, Sample, PhaseAt;
    forall i | 0 <= i < |m.wave| ensures Pending(m, LOUD, c, i) == 0 {
      if m.cur[c] <= i < m.now {
        Mute(m.r, c, PhaseAt(ConfigOf(m.r, LOUD, c), m.ph[c], i - m.cur[c]));
      }
    }
  }

  /** What rendering the sample channel up to a time leaves. */
  lemma LoudRender(m: Lazy, to: nat)
    requires LazyOk(m) && m.r.latch == 127 && to <= m.now
    ensures var w := RenderPcm(m, LOUD, to);
      forall i :: 0 <= i < |m.wave| ==> w.wave[i] == m.wave[i] + if m.cur[4] <= i < to then 127 * WORD else 0
  {
    hide PcmLevel;
    FullLevel(m.r);
  }

  lemma CatchAllWave(m: Lazy)
    requires LazyOk(m) && m.r.latch == 127
    ensures forall i :: 0 <= i < |m.wave| ==>
              CatchAll(m, LOUD).wave[i] == m.wave[i] + if m.cur[4] <= i < m.now then 127 * WORD else 0
  {
    hide CatchUp, RenderPcm;
    var m1 := CatchUp(m, LOUD, 0);
    var m2 := CatchUp(m1, LOUD, 1);
    var m3 := CatchUp(m2, LOUD, 2);
    var m4 := CatchUp(m3, LOUD, 3);
    MuteCatch(m, 0);
    MuteCatch(m1, 1);
    MuteCatch(m2, 2);
    MuteCatch(m3, 3);
    RenderPcmNow(m4, LOUD);
    LoudRender(m4, m4.now);
  }

  lemma LatchStays(r: Regs, s: Settings, a: nat, v: Byte, fcnt: nat)
    requires Shaped(r)
    ensures a < 16 ==> WritePsg(r, s, a, v).latch == r.latch
    ensures Frame(r, fcnt).latch == r.latch && WriteStatus(r, v).latch == r.latch
    ensures DeltaLatch(127, true) == 127
  {
    hide Loaded, Counted, SweptFreq, SweptCount, Decayed;
  }

  lemma OnceFrame(m: Lazy, v: nat)
    requires Once(m)
    ensures Once(LazyFrame(m, LOUD, v))
  {
    hide CatchUp, Frame;
    var m1 := CatchUp(m, LOUD, 0);
    var m2 := CatchUp(m1, LOUD, 1);
    var m3 := CatchUp(m2, LOUD, 3);
    MuteCatch(m, 0);
    MuteCatch(m1, 1);
    MuteCatch(m2, 3);
    MuteCatch(m3, 2);
    LatchStays(m.r, LOUD, 0, 0, v);
  }

  lemma OncePsg(m: Lazy, a: nat, v: Byte)
    requires Once(m) && a < 16
    ensures Once(LazyPsg(m, LOUD, a, v))
  {
    hide CatchUp, WritePsg, Restart;
    if HEARD_FIRST[a] < 5 {
      MuteCatch(m, HEARD_FIRST[a]);
    }
    LatchStays(m.r, LOUD, a, v, 0);
  }

  lemma OnceCaught(m: Lazy, w: Lazy)
    requires Once(m) && LazyOk(w) && |w.wave| == |m.wave| && w.base == m.base && w.now == m.now && w.cur[4] == m.now
    requires w.r.latch == 127
    requires forall i :: 0 <= i < |m.wave| ==> w.wave[i] == m.wave[i] + if m.cur[4] <= i < m.now then 127 * WORD else 0
    ensures Once(w)
  {
  }

  lemma OnceCatch(m: Lazy, c: nat)
    requires Once(m) && c < 5
    ensures Once(CatchUp(m, LOUD, c))
  {
    hide CatchUp, RenderPcm;
    if c < 4 {
      MuteCatch(m, c);
    } else {
      RenderPcmNow(m, LOUD);
      LoudRender(m, m.now);
      OnceCaught(m, CatchUp(m, LOUD, 4));
    }
  }

  lemma OnceDelta(m: Lazy, back: nat)
    requires Once(m) && back <= m.now && !Doubles(ClockOf(m), Delta(true, back))
    ensures Once(LazyDelta(m, LOUD, true, back))
  {
    hide RenderPcm;
    LoudRender(m, m.now - back);
    LatchStays(m.r, LOUD, 0, 0, 0);
  }

  lemma OnceStatus(m: Lazy, v: Byte)
    requires Once(m)
    ensures Once(LazyStep(m, LOUD, Status(v)))
  {
    hide CatchAll, WriteStatus;
    CatchAllWave(m);
    LatchStays(m.r, LOUD, 0, v, 0);
    var w := CatchAll(m, LOUD);
    OnceCaught(m, w.(r := WriteStatus(w.r, v)));
  }

  lemma OnceFlush(m: Lazy, left: nat)
    requires Once(m) && left <= m.now
    ensures Once(LazyFlush(m, LOUD, left))
  {
    hide CatchAll, Converted;
  }

  /** As long as nothing is rendered twice. */
  lemma OnceStep(m: Lazy, ev: Event)
    requires Once(m) && Enabled(m.now, |m.wave|, ev) && !Doubles(ClockOf(m), ev)
    ensures Once(LazyStep(m, LOUD, Loudest(ev)))
  {
    hide CatchUp, CatchAll, WritePsg, Frame, WriteStatus, LazyDelta, LazyFlush, LazyFrame, LazyPsg;
    match ev {
      case Tick =>
      case Catch(c) => OnceCatch(m, c);
      case Psg(a, v) => OncePsg(m, a, v);
      case Latch(_) => OnceCatch(m, 4);
      case Delta(_, back) => OnceDelta(m, back);
      case Status(v) => OnceStatus(m, v);
      case FrameStep(fcnt) => OnceFrame(m, fcnt);
      case Flush(left) => OnceFlush(m, left);
    }
  }

  /** A sample rendered twice at full level: 254 is no index of a table of 203. */
  lemma TwiceIsTooMuch(m: Lazy, back: nat)
    requires Once(m) && back <= m.now && Doubles(ClockOf(m), Delta(true, back))
    ensures !InRange(LazyDelta(m, LOUD, true, back), LOUD)
  {
    hide RenderPcm, CatchAll;
    var w := LazyDelta(m, LOUD, true, back);
    var i := Max(m.base, m.now - back);
    LoudRender(m, m.now - back);
    LatchStays(m.r, LOUD, 0, 0, 0);
    CatchAllWave(w);
    assert CatchAll(w, LOUD).wave[i] == 254 * WORD;
    assert !Fits(254 * WORD);
  }

  lemma {:induction false} LoudestOverflows(m: Lazy, evs: seq<Event>, evs2: seq<Event>)
    requires Once(m) && Runs(m.now, m.base, |m.wave|, evs) && !NoDouble(ClockOf(m), evs)
    requires |evs2| == |evs| && forall i :: 0 <= i < |evs| ==> evs2[i] == Loudest(evs[i])
    ensures !AlwaysInRange(m, LOUD, evs2)
    decreases |evs|
  {
    hide LazyStep, InRange;
    assert evs2[0] == Loudest(evs[0]);
    StepClock(m, LOUD, evs2[0]);
    if Doubles(ClockOf(m), evs[0]) {
      TwiceIsTooMuch(m, evs[0].back);
      IsDelta(m, LOUD, evs2[0]);
      assert !InRange(LazyStep(m, LOUD, evs2[0]), LOUD);
    } else {
      OnceStep(m, evs[0]);
      LoudestOverflows(LazyStep(m, LOUD, evs2[0]), evs[1..], evs2[1..]);
    }
  }

  /** A schedule of events keeps every table index in range for all values that may be written, all
      settings and any latch, if and only if it makes the sample channel render nothing twice. */
  lemma RangeExactly(size: nat, evs: seq<Event>)
    requires Runs(0, 0, size, evs)
    ensures NoDouble(Clock(0, 0, 0), evs) <==>
      forall s, latch, evs2 :: latch < 128 && SameTiming(evs, evs2) ==> AlwaysInRange(Start(size, latch), s, evs2)
  {
    hide AlwaysInRange, NoDouble, SameTiming;
    var c := Clock(0, 0, 0);
    if NoDouble(c, evs) {
      forall s, latch: nat, evs2 | latch < 128 && SameTiming(evs, evs2)
        ensures AlwaysInRange(Start(size, latch), s, evs2)
      {
        StartInv(size, latch, s);
        SameDoubles(c, evs, evs2);
        AllInRange(Start(size, latch), s, evs2);
      }
    } else {
      var evs2 := seq(|evs|, i requires 0 <= i < |evs| => Loudest(evs[i]));
      StartInv(size, 127, LOUD);
      StartOnce(size);
      LoudTiming(evs, evs2);
      LoudestOverflows(Start(size, 127), evs, evs2);
    }
  }

  lemma StartOnce(size: nat)
    ensures Once(Start(size, 127))
  {
  }

  lemma LoudTiming(evs: seq<Event>, evs2: seq<Event>)
    requires |evs2| == |evs| && forall i :: 0 <= i < |evs| ==> evs2[i] == Loudest(evs[i])
    ensures SameTiming(evs, evs2)
  {
  }

  /** An input: the latch is set to 127, four cycles pass, a second $4011 write renders them, and then
      a bit of the sample arrives that was due three cycles ago. */
  lemma LateBit(size: nat)
    requires size >= 4
    ensures !AlwaysInRange(Start(size, 127), LOUD, [Tick, Tick, Tick, Tick, Latch(127), Delta(true, 3)])
  {
    var evs := [Tick, Tick, Tick, Tick, Latch(127), Delta(true, 3)];
    StartOnce(size);
    LateDoubles(size);
    LoudestOverflows(Start(size, 127), evs, evs);
  }

  /** Why SchedulesAgree asks for the bits to be on time: a bit due one cycle ago, once with the channel
      caught up before it and once without. */
  lemma SchedulesPart(size: nat)
    requires size >= 1
    ensures var evs, evs2 := [Tick, Delta(true, 1)], [Tick, Catch(4), Delta(true, 1)];
      && Runs(0, 0, size, evs) && Runs(0, 0, size, evs2) && WithoutCatch(evs) == WithoutCatch(evs2)
      && CatchAll(Run(Start(size, 127), LOUD, evs), LOUD) != CatchAll(Run(Start(size, 127), LOUD, evs2), LOUD)
  {
    hide LazyStep, CatchAll, Once;
    var m0, late := Start(size, 127), Delta(true, 1);
    var evs, evs2 := [Tick, late], [Tick, Catch(4), late];
    StartOnce(size);
    StartInv(size, 127, LOUD);
    LateSchedules(size);
    assert m0.now == 0 && m0.base == 0 && |m0.wave| == size;
    assert evs2[1..] == [Catch(4), late] && evs2[1..][1..] == [late];
    RunInRange(m0, LOUD, evs);
    var m1 := LazyStep(m0, LOUD, Tick);
    StepClock(m0, LOUD, Tick);
    OnceStep(m0, Tick);
    var m2 := LazyStep(m1, LOUD, Catch(4));
    StepClock(m1, LOUD, Catch(4));
    OnceStep(m1, Catch(4));
    IsDelta(m2, LOUD, late);
    TwiceIsTooMuch(m2, 1);
  }

  lemma LateSchedules(size: nat)
    requires size >= 1
    ensures var evs, evs2 := [Tick, Delta(true, 1)], [Tick, Catch(4), Delta(true, 1)];
      && Runs(0, 0, size, evs) && Runs(0, 0, size, evs2) && WithoutCatch(evs) == WithoutCatch(evs2)
      && NoDouble(Clock(0, 0, 0), evs)
  {
    var late := Delta(true, 1);
    var evs, evs2 := [Tick, late], [Tick, Catch(4), late];
    assert evs[1..] == [late] && evs[1..][1..] == [];
    assert evs2[1..] == [Catch(4), late] && evs2[1..][1..] == [late] && evs2[1..][1..][1..] == [];
  }

  lemma LateDoubles(size: nat)
    requires size >= 4
    ensures var evs := [Tick, Tick, Tick, Tick, Latch(127), Delta(true, 3)];
      Runs(0, 0, size, evs) && !NoDouble(Clock(0, 0, 0), evs)
  {
    var evs := [Tick, Tick, Tick, Tick, Latch(127), Delta(true, 3)];
    assert evs[1..] == [Tick, Tick, Tick, Latch(127), Delta(true, 3)];
    assert evs[1..][1..] == [Tick, Tick, Latch(127), Delta(true, 3)];
    assert evs[1..][1..][1..] == [Tick, Latch(127), Delta(true, 3)];
    assert evs[1..][1..][1..][1..] == [Latch(127), Delta(true, 3)];
    assert evs[1..][1..][1..][1..][1..] == [Delta(true, 3)];
    assert Doubles(Clock(4, 0, 4), Delta(true, 3));
  }
}
