/** The sound unit as the code keeps it: registers, wave counters and one buffer of
    packed samples, all updated in place. */
module Sounds {
  import opened Basics
  import opened SoundSpec
  import opened SoundLazy
  import opened SoundRun
  import opened SampleChannels

  /** [from, to) of the buffer holds the samples of a channel on top of what was there. */
  ghost predicate Rendered(was: seq<nat>, wave: seq<nat>, cfg: Config, p: Phase, from: nat, to: nat) {
    && Tapped(cfg) && |wave| == |was|
    && forall i :: 0 <= i < |was| ==> wave[i] == was[i] + if from <= i < to then SampleAt(cfg, p, i - from) else 0
  }

  lemma RenderNext(was: seq<nat>, wave: seq<nat>, cfg: Config, p: Phase, from: nat, to: nat)
    requires Rendered(was, wave, cfg, p, from, to) && from <= to < |was|
    ensures wave[to] == was[to]
    ensures Rendered(was, wave[to := wave[to] + Sample(cfg, PhaseAt(cfg, p, to - from))], cfg, p, from, to + 1)
    ensures PhaseAt(cfg, p, to - from + 1) == Next(cfg, PhaseAt(cfg, p, to - from))
  {
    PhaseSnoc(cfg, p, to - from);
  }

  lemma RenderStart(was: seq<nat>, cfg: Config, p: Phase, from: nat)
    requires Tapped(cfg)
    ensures Rendered(was, was, cfg, p, from, from) && PhaseAt(cfg, p, 0) == p
  {
  }

  lemma NoiseNext(amp: nat, tap: nat, reload: nat, step: nat, wl: int)
    requires tap == 8 || tap == 13
    ensures var cfg := Noise(amp, tap, reload);
      && Sample(cfg, Phase(step, wl)) == (if step / 0x4000 % 2 == 0 then amp else 0)
      && Next(cfg, Phase(step, wl)) == if wl == 1 then Phase(Shifted(step, tap), reload) else Phase(step, wl - 1)
  {
    hide Shifted;
  }

  /** A channel that does not move stays where it is. */
  lemma {:induction false} Idle(cfg: Config, p: Phase, k: nat)
    requires Tapped(cfg) && Next(cfg, p) == p
    ensures PhaseAt(cfg, p, k) == p
  {
    if k > 0 {
      Idle(cfg, p, k - 1);
    }
  }

  lemma Silent(was: seq<nat>, cfg: Config, p: Phase, from: nat, to: nat)
    requires cfg.Square? && !cfg.audible
    ensures Rendered(was, was, cfg, p, from, to)
  {
    forall k: nat
      ensures SampleAt(cfg, p, k) == 0
    {
    }
  }

  /** A rendered buffer with moved phase and cursor is a caught-up machine. */
  lemma CaughtUpBy(m: Lazy, s: Settings, c: nat, wave: seq<nat>, ph: seq<Phase>, cur: seq<nat>)
    requires LazyOk(m) && c < 5
    requires Rendered(m.wave, wave, ConfigOf(m.r, s, c), m.ph[c], m.cur[c], m.now)
    requires ph == m.ph[c := PhaseNow(m, s, c)] && cur == m.cur[c := m.now]
    ensures CatchUp(m, s, c) == m.(wave := wave, ph := ph, cur := cur)
  {
    assert CatchUp(m, s, c).wave == wave;
  }

  class Apu {
    const opt: Settings
    const waveHi: array<nat>
    var regs: Regs
    var rectDutyCount: seq<nat>
    var wlcount: seq<int>
    var tristep: nat
    var nreg: nat
    var channelBC: seq<nat>
    var soundtsoffs: nat
    var soundtimestamp: nat
    var dmc: Dmc

    function Phases(): (ph: seq<Phase>)
      requires |rectDutyCount| == 2 && |wlcount| == 4
      reads this
      ensures |ph| == 5
    {
      [Phase(rectDutyCount[0], wlcount[0]), Phase(rectDutyCount[1], wlcount[1]), Phase(tristep, wlcount[2]),
       Phase(nreg, wlcount[3]), Phase(0, 1)]
    }

    function Now(): nat
      reads this
    {
      soundtimestamp + soundtsoffs
    }

    ghost function View(): Lazy
      requires |rectDutyCount| == 2 && |wlcount| == 4
      reads this, waveHi
    {
      Lazy(regs, Phases(), channelBC, waveHi[..], soundtsoffs, Now())
    }

    /** The cursors are not ahead of the time. */
    ghost predicate Valid()
      reads this, waveHi
    {
      |rectDutyCount| == 2 && |wlcount| == 4 && waveHi.Length == 40000 && LazyOk(View())
    }

    /** Power-on, then reset. */
    constructor (opt: Settings)
      ensures Valid() && fresh(waveHi) && this.opt == opt
      ensures View() == Start(40000, 0) && LazyInv(View(), opt)
      ensures dmc == ResetDmc(opt) && DmcOk(dmc)
    {
      this.opt := opt;
      waveHi := new nat[40000](_ => 0);
      regs := POWER_ON;
      rectDutyCount, wlcount, tristep, nreg := [0, 0], [2048, 2048, 1, 2048], 0, 1;
      channelBC, soundtsoffs, soundtimestamp := [0, 0, 0, 0, 0], 0, 0;
      dmc := Dmc(1, BitPeriod(opt, 0), 0, 0, 0, 0, 0, 0, 0, false, false, 0, false);
      new;
      assert POWER_ON.(latch := 0) == POWER_ON;
      assert waveHi[..] == seq(40000, _ => 0);
      StartInv(40000, 0, opt);
    }

    /** A CPU cycle goes by. */
    method Elapse()
      requires Valid() && Now() < waveHi.Length
      modifies this`soundtimestamp
      ensures Valid() && View() == LazyStep(old(View()), opt, Tick)
    {
      soundtimestamp := soundtimestamp + 1;
    }

    /** The sample loop of a sounding square channel. */
    method SquareLoop(x: nat, amp: nat, rthresh: nat, cf: nat) returns (currdc: nat, rc: int)
      requires Valid() && x < 2
      requires ConfigOf(regs, opt, x) == Square(true, amp, rthresh, cf)
      modifies waveHi
      ensures var m := old(View());
              && Rendered(m.wave, waveHi[..], Square(true, amp, rthresh, cf), m.ph[x], m.cur[x], m.now)
              && Phase(currdc, rc) == PhaseNow(m, opt, x)
    {
      ghost var m := View();
      ghost var cfg := Square(true, amp, rthresh, cf);
      ghost var p := Phases()[x];
      var now := Now();
      currdc, rc := rectDutyCount[x], wlcount[x];
      var d, v := channelBC[x], now - channelBC[x];
      hide ConfigOf, SampleAt;
      while v > 0
        invariant v >= 0 && d + v == now <= waveHi.Length && m.cur[x] <= d
        invariant Rendered(m.wave, waveHi[..], cfg, p, m.cur[x], d)
        invariant PhaseAt(cfg, p, d - m.cur[x]) == Phase(currdc, rc)
        modifies waveHi
      {
        hide PhaseAt, Rendered;
        RenderNext(m.wave, waveHi[..], cfg, p, m.cur[x], d);
        ghost var before := waveHi[..];
        if currdc < rthresh {
          waveHi[d] := waveHi[d] + amp;
        }
        assert waveHi[..] == before[d := before[d] + Sample(cfg, Phase(currdc, rc))];
        rc := rc - 1;
        if rc == 0 {
          rc := cf;
          currdc := (currdc + 1) % 8;
        }
        v := v - 1;
        d := d + 1;
      }
    }

    /** RDoSQ. */
    method RDoSQ(x: nat)
      requires Valid() && x < 2
      modifies this`channelBC, this`rectDutyCount, this`wlcount, waveHi
      ensures Valid() && View() == CatchUp(old(View()), opt, x)
    {
      ghost var m := View();
      ghost var cfg := ConfigOf(regs, opt, x);
      ghost var p := Phases()[x];
      var now := Now();
      hide CheckFreq, CatchUp, Rendered, PhaseAt;
      if regs.curfreq[x] < 8 || regs.curfreq[x] > 0x7ff || !CheckFreq(regs.curfreq[x], regs.psg[4 * x + 1])
          || regs.lengthcount[x] == 0 {
        Idle(cfg, p, now - channelBC[x]);
        Silent(m.wave, cfg, p, m.cur[x], now);
      } else {
        var amp := if regs.env[x].mode % 2 == 1 then regs.env[x].speed else regs.env[x].decvolume;
        var ampx := if x == 1 then opt.square2 else opt.square1;
        if ampx != 256 {
          amp := amp * ampx / 256;
        }
        amp := amp * SQ;
        var rthresh := RectDuty(regs.psg[4 * x] / 64 % 4);
        var cf := (regs.curfreq[x] + 1) * 2;
        assert cfg == Square(true, amp, rthresh, cf);
        var currdc, rc := SquareLoop(x, amp, rthresh, cf);
        rectDutyCount := rectDutyCount[x := currdc];
        wlcount := wlcount[x := rc];
      }
      channelBC := channelBC[x := now];
      CaughtUpBy(m, opt, x, waveHi[..], Phases(), channelBC);
    }

    /** The four samples-in-a-loop of a halted triangle channel. */
    method Hold(c: nat, level: nat)
      requires Valid() && c == 2
      requires var cfg := ConfigOf(regs, opt, c);
               Next(cfg, Phases()[c]) == Phases()[c] && Sample(cfg, Phases()[c]) == level
      modifies this`channelBC, waveHi
      ensures Valid() && View() == CatchUp(old(View()), opt, c)
    {
      ghost var m := View();
      ghost var cfg := ConfigOf(regs, opt, c);
      ghost var p := Phases()[c];
      Idle(cfg, p, Now() - channelBC[c]);
      var v := channelBC[c];
      while v < Now()
        invariant m.cur[c] <= v <= m.now
        invariant Rendered(m.wave, waveHi[..], cfg, p, m.cur[c], v)
        modifies waveHi
      {
        hide ConfigOf, SampleAt, Rendered, PhaseAt;
        Idle(cfg, p, v - m.cur[c]);
        RenderNext(m.wave, waveHi[..], cfg, p, m.cur[c], v);
        ghost var before := waveHi[..];
        waveHi[v] := waveHi[v] + level;
        assert waveHi[..] == before[v := before[v] + level];
        v := v + 1;
      }
      channelBC := channelBC[c := Now()];
      CaughtUpBy(m, opt, c, waveHi[..], Phases(), channelBC);
    }

    /** RDoPCM. */
    method RDoPCM()
      requires Valid()
      modifies this`channelBC, waveHi
      ensures Valid() && View() == CatchUp(old(View()), opt, 4)
    {
      RenderPcmNow(View(), opt);
      hide RenderPcm, CatchUp;
      PcmUpTo(Now());
    }

    /** The loop of RDoPCM, with the time at which it ends. */
    method PcmUpTo(soundts: nat)
      requires Valid() && soundts <= Now()
      modifies this`channelBC, waveHi
      ensures Valid() && View() == RenderPcm(old(View()), opt, soundts)
    {
      ghost var m := View();
      var val := regs.latch * WORD / 256 * opt.pcm / WORD * WORD;
      assert val == PcmLevel(regs, opt);
      hide PcmLevel;
      var v := channelBC[4];
      while v < soundts
        invariant m.cur[4] <= v && (v <= soundts || v == m.cur[4])
        invariant forall i :: 0 <= i < waveHi.Length ==> waveHi[i] == m.wave[i] + if m.cur[4] <= i < v then val else 0
        modifies waveHi
      {
        waveHi[v] := waveHi[v] + val;
        v := v + 1;
      }
      channelBC := channelBC[4 := soundts];
      assert waveHi[..] == RenderPcm(m, opt, soundts).wave;
    }

    /** RDoTriangle: a halted counter still puts its level out. */
    method RDoTriangle()
      requires Valid()
      modifies this`channelBC, this`wlcount, this`tristep, waveHi
      ensures Valid() && View() == CatchUp(old(View()), opt, 2)
    {
      var tcout := TriLevel(tristep) * 3 * WORD;
      if regs.lengthcount[2] == 0 || regs.triCount == 0 {
        Hold(2, tcout / 256 * opt.triangle / WORD * WORD);
        return;
      }
      ghost var m := View();
      hide CatchUp, PhaseAt, Rendered, TriLevel;
      TriangleLoop();
      channelBC := channelBC[2 := Now()];
      CaughtUpBy(m, opt, 2, waveHi[..], Phases(), channelBC);
    }

    /** The sample loop of a running triangle channel. */
    method TriangleLoop()
      requires Valid() && regs.lengthcount[2] != 0 && regs.triCount != 0
      modifies this`wlcount, this`tristep, waveHi
      ensures var m := old(View());
              && Rendered(m.wave, waveHi[..], ConfigOf(regs, opt, 2), m.ph[2], m.cur[2], m.now)
              && |wlcount| == 4 && wlcount == old(wlcount)[2 := wlcount[2]]
              && Phase(tristep, wlcount[2]) == PhaseNow(m, opt, 2)
    {
      var tcout := TriLevel(tristep) * 3 * WORD;
      ghost var m := View();
      ghost var cfg := ConfigOf(regs, opt, 2);
      ghost var p := Phases()[2];
      var v := channelBC[2];
      while v < Now()
        invariant m.cur[2] <= v <= m.now
        invariant Rendered(m.wave, waveHi[..], cfg, p, m.cur[2], v)
        invariant |wlcount| == 4 && wlcount == old(wlcount)[2 := wlcount[2]]
        invariant PhaseAt(cfg, p, v - m.cur[2]) == Phase(tristep, wlcount[2])
        invariant tcout == TriLevel(tristep) * 3 * WORD
        modifies waveHi, this`wlcount, this`tristep
      {
        hide ConfigOf, SampleAt, Rendered, PhaseAt, TriLevel;
        RenderNext(m.wave, waveHi[..], cfg, p, m.cur[2], v);
        ghost var before := waveHi[..];
        waveHi[v] := waveHi[v] + tcout / 256 * opt.triangle / WORD * WORD;
        assert waveHi[..] == before[v := before[v] + Sample(cfg, Phase(tristep, wlcount[2]))];
        wlcount := wlcount[2 := wlcount[2] - 1];
        if wlcount[2] == 0 {
          wlcount := wlcount[2 := regs.psg[0xa] + regs.psg[0xb] % 8 * 256 + 1];
          tristep := tristep + 1;
          tcout := TriLevel(tristep) * 3 * WORD;
        }
        v := v + 1;
      }
    }

    /** RDoNoise. */
    method RDoNoise()
      requires Valid()
      modifies this`channelBC, this`wlcount, this`nreg, waveHi
      ensures Valid() && View() == CatchUp(old(View()), opt, 3)
    {
      var amp := if regs.env[2].mode % 2 == 1 then regs.env[2].speed else regs.env[2].decvolume;
      if opt.noise != 256 {
        amp := amp * opt.noise / 256;
      }
      amp := amp * WORD * 2;
      if regs.lengthcount[3] == 0 {
        amp := 0;
      }
      var tap := if regs.psg[0xe] / 128 % 2 == 1 then 8 else 13;
      ghost var m := View();
      hide CatchUp, PhaseAt, Rendered;
      NoiseLoop(amp, tap, NoisePeriod(opt, regs.psg[0xe] % 16));
      channelBC := channelBC[3 := Now()];
      CaughtUpBy(m, opt, 3, waveHi[..], Phases(), channelBC);
    }

    /** The sample loop for either tap of the shift register. */
    method NoiseLoop(amp: nat, tap: nat, reload: nat)
      requires Valid() && ConfigOf(regs, opt, 3) == Noise(amp, tap, reload) && (tap == 8 || tap == 13)
      modifies this`wlcount, this`nreg, waveHi
      ensures var m := old(View());
              && Rendered(m.wave, waveHi[..], Noise(amp, tap, reload), m.ph[3], m.cur[3], m.now)
              && |wlcount| == 4 && wlcount == old(wlcount)[3 := wlcount[3]]
              && Phase(nreg, wlcount[3]) == PhaseNow(m, opt, 3)
    {
      hide ConfigOf, SampleAt, Rendered, PhaseAt, Shifted, Sample, Next;
      var outo := if nreg / 0x4000 % 2 == 0 then amp else 0;
      ghost var m := View();
      ghost var cfg := Noise(amp, tap, reload);
      ghost var p := Phases()[3];
      RenderStart(m.wave, cfg, p, m.cur[3]);
      var v := channelBC[3];
      while v < Now()
        invariant m.cur[3] <= v <= m.now
        invariant Rendered(m.wave, waveHi[..], cfg, p, m.cur[3], v)
        invariant |wlcount| == 4 && wlcount == old(wlcount)[3 := wlcount[3]]
        invariant PhaseAt(cfg, p, v - m.cur[3]) == Phase(nreg, wlcount[3])
        invariant outo == if nreg / 0x4000 % 2 == 0 then amp else 0
        modifies waveHi, this`wlcount, this`nreg
      {
        NoiseNext(amp, tap, reload, nreg, wlcount[3]);
        RenderNext(m.wave, waveHi[..], cfg, p, m.cur[3], v);
        ghost var before := waveHi[..];
        waveHi[v] := waveHi[v] + outo;
        assert waveHi[..] == before[v := before[v] + Sample(cfg, Phase(nreg, wlcount[3]))];
        wlcount := wlcount[3 := wlcount[3] - 1];
        if wlcount[3] == 0 {
          wlcount := wlcount[3 := reload];
          nreg := Shifted(nreg, tap);
          outo := if nreg / 0x4000 % 2 == 0 then amp else 0;
        }
        v := v + 1;
      }
    }

    // ----- register writes

    /** Write_PSG for $4000-$400F: the square channels, then the others. */
    method WritePSG(a: nat, v: Byte)
      requires Valid() && a < 16
      modifies this, waveHi
      ensures Valid() && View() == LazyStep(old(View()), opt, Psg(a, v))
    {
      if a < 8 {
        WriteSquare(a / 4, a % 4, v);
      } else {
        WriteOther(a, v);
      }
    }

    method WriteSquare(x: nat, k: nat, v: Byte)
      requires Valid() && x < 2 && k < 4
      modifies this, waveHi
      ensures Valid() && View() == LazyPsg(old(View()), opt, 4 * x + k, v)
    {
      hide CatchUp, WritePsg;
      RDoSQ(x);
      ghost var w := View();
      LoadSquare(x, k, v);
      assert (4 * x + k) / 4 == x && HEARD_FIRST[4 * x + k] == x;
      assert Phases() == Restart(w.ph, 4 * x + k);
    }

    /** What the four registers of a square channel do. */
    static lemma SquareWrite(r: Regs, s: Settings, x: nat, k: nat, v: Byte)
      requires Shaped(r) && x < 2 && k < 4
      ensures WritePsg(r, s, 4 * x + k, v) ==
        (match k
         case 0 => r.(env := r.env[x := r.env[x].(mode := v / 16 % 4, speed := v % 16)])
         case 1 => r.(sweepOn := r.sweepOn[x := v >= 128], sweepReload := r.sweepReload[x := true])
         case 2 => r.(curfreq := r.curfreq[x := r.curfreq[x] / 256 * 256 + v])
         case _ => r.(lengthcount := Loaded(r, x, v), curfreq := r.curfreq[x := r.curfreq[x] % 256 + v % 8 * 256],
                      env := r.env[x := r.env[x].(reload := true)]))
        .(psg := r.psg[4 * x + k := if k == 0 && s.swapDuty then Swapped(v) else v])
    {
      hide Loaded, Swapped;
    }

    method LoadSquare(x: nat, k: nat, v: Byte)
      requires Shaped(regs) && |rectDutyCount| == 2 && x < 2 && k < 4
      modifies this`regs, this`rectDutyCount
      ensures regs == WritePsg(old(regs), opt, 4 * x + k, v)
      ensures rectDutyCount == if k == 3 then old(rectDutyCount)[x := 7] else old(rectDutyCount)
    {
      hide Loaded, WritePsg, Swapped;
      SquareWrite(regs, opt, x, k, v);
      var stored := v;
      match k {
        case 0 =>
          SetEnv(x, v);
          if opt.swapDuty {
            stored := Swapped(v);
          }
        case 1 =>
          regs := regs.(sweepOn := regs.sweepOn[x := v >= 128], sweepReload := regs.sweepReload[x := true]);
        case 2 =>
          regs := regs.(curfreq := regs.curfreq[x := regs.curfreq[x] / 256 * 256 + v]);
        case _ =>
          regs := regs.(lengthcount := Loaded(regs, x, v),
                        curfreq := regs.curfreq[x := regs.curfreq[x] % 256 + v % 8 * 256],
                        env := regs.env[x := regs.env[x].(reload := true)]);
          rectDutyCount := rectDutyCount[x := 7];
      }
      regs := regs.(psg := regs.psg[4 * x + k := stored]);
    }

    method WriteOther(a: nat, v: Byte)
      requires Valid() && 8 <= a < 16
      modifies this, waveHi
      ensures Valid() && View() == LazyPsg(old(View()), opt, a, v)
    {
      hide CatchUp, WritePsg;
      if a == 0xa || a == 0xb {
        RDoTriangle();
      } else if a == 0xc || a == 0xe || a == 0xf {
        RDoNoise();
      }
      LoadOther(a, v);
    }

    method LoadOther(a: nat, v: Byte)
      requires Shaped(regs) && 8 <= a < 16
      modifies this`regs
      ensures regs == WritePsg(old(regs), opt, a, v)
    {
      hide Loaded;
      match a {
        case 0xb => regs := regs.(lengthcount := Loaded(regs, 2, v), triMode := true);
        case 0xc => SetEnv(2, v);
        case 0xf =>
          regs := regs.(lengthcount := Loaded(regs, 3, v), env := regs.env[2 := regs.env[2].(reload := true)]);
        case _ =>
      }
      regs := regs.(psg := regs.psg[a := v]);
    }

    method SetEnv(x: nat, v: Byte)
      requires Shaped(regs) && x < 3
      modifies this`regs
      ensures regs == old(regs).(env := old(regs.env)[x := old(regs.env)[x].(mode := v / 16 % 4, speed := v % 16)])
    {
      regs := regs.(env := regs.env[x := regs.env[x].(mode := v / 16 % 4, speed := v % 16)]);
    }

    /** Write_DMCRegs for $4011. */
    method WriteDac(v: Byte)
      requires Valid()
      modifies this`channelBC, this`regs, waveHi
      ensures Valid() && View() == LazyStep(old(View()), opt, Latch(v))
    {
      hide CatchUp;
      RDoPCM();
      regs := regs.(latch := v % 128);
    }

    /** The sample channel plays a bit that was due `back` cycles ago: soundtsoffs stands back for the
        time of the rendering, so that it ends, and the cursor comes to stand, in the past. */
    method DeltaBit(up: bool, back: nat)
      requires Valid() && back <= Now()
      modifies this`channelBC, this`regs, waveHi
      ensures Valid() && View() == LazyStep(old(View()), opt, Delta(up, back))
    {
      hide RenderPcm, DeltaLatch;
      PcmUpTo(Now() - back);
      MoveLatch(up);
    }

    method MoveLatch(up: bool)
      modifies this`regs
      ensures regs == old(regs).(latch := DeltaLatch(old(regs).latch, up))
    {
      var t := (if up then regs.latch + 2 else regs.latch + 254) % 256;
      if t / 128 == 0 {
        regs := regs.(latch := t);
      }
    }

    /** Write_DMCRegs for $4010, $4012 and $4013. */
    method WriteDmc(a: nat, v: Byte)
      requires Valid() && a in {0, 2, 3}
      modifies this`channelBC, this`dmc, waveHi
      ensures Valid() && View() == if a == 0 then LazyStep(old(View()), opt, Catch(4)) else old(View())
      ensures dmc == if a == 0 then Formatted(old(dmc), opt, v)
                     else if a == 2 then old(dmc).(addressLatch := v) else old(dmc).(sizeLatch := v)
    {
      hide CatchUp;
      if a == 0 {
        RDoPCM();
        dmc := dmc.(period := BitPeriod(opt, v % 16));
        if dmc.irq && v < 128 {
          dmc := dmc.(irq := false);
        }
        dmc := dmc.(format := v);
      } else if a == 2 {
        dmc := dmc.(addressLatch := v);
      } else {
        dmc := dmc.(sizeLatch := v);
      }
    }

    method PrepDPCM()
      modifies this`dmc
      ensures dmc == Prepared(old(dmc))
    {
      dmc := dmc.(address := 0x4000 + dmc.addressLatch * 64);
      dmc := dmc.(size := dmc.sizeLatch * 16 + 1);
    }

    /** DMCDMA with the byte it reads; the four cycles are ticks before it. */
    method DmcDma(b: Byte)
      modifies this`dmc
      ensures dmc == if old(dmc).size > 0 && !old(dmc).haveDma then Fetched(old(dmc), b) else old(dmc)
    {
      if dmc.size > 0 && !dmc.haveDma {
        dmc := dmc.(buffer := b, haveDma := true, address := (dmc.address + 1) % 0x8000, size := dmc.size - 1);
        if dmc.size == 0 {
          if dmc.format / 64 % 2 == 1 {
            PrepDPCM();
          } else {
            dmc := dmc.(irq := true);
          }
        }
      }
    }

    /** The loop of FCEU_SoundCPUHook: the bits due in the last `cycles` cycles come out. */
    method PlayBits(cycles: nat)
      requires Valid() && DmcOk(dmc) && cycles <= Now()
      modifies this`channelBC, this`regs, this`dmc, waveHi
      ensures Valid() && DmcOk(dmc) && dmc == Play(old(dmc).(acc := old(dmc).acc - cycles)).0
      ensures var evs := Play(old(dmc).(acc := old(dmc).acc - cycles)).1;
        && Runs(old(Now()), old(soundtsoffs), waveHi.Length, evs)
        && View() == Run(old(View()), opt, evs)
    {
      dmc := dmc.(acc := dmc.acc - cycles);
      ghost var d, m := dmc, View();
      PlayBacks(d, cycles);
      PlayOk(d);
      DeltasRun(Now(), soundtsoffs, waveHi.Length, Play(d).1);
      hide Play, Runs, Run, LazyDelta, DmcOk, LazyOk;
      while dmc.acc <= 0
        invariant Valid() && dmc.period >= 50 && dmc.acc + cycles > 0 && Now() == m.now
        invariant soundtsoffs == m.base && waveHi.Length == |m.wave|
        invariant Play(dmc).0 == Play(d).0
        invariant Runs(Now(), soundtsoffs, waveHi.Length, Play(dmc).1)
        invariant Run(View(), opt, Play(dmc).1) == Run(m, opt, Play(d).1)
        decreases -dmc.acc
      {
        PlayNext(View(), opt, dmc);
        PlayBit();
      }
      PlayDone(View(), opt, dmc);
    }

    method PlayBit()
      requires Valid() && dmc.acc <= 0 && (dmc.haveSample ==> -dmc.acc <= Now())
      modifies this`channelBC, this`regs, this`dmc, waveHi
      ensures Valid() && dmc == NextBit(old(dmc))
      ensures View() == if old(dmc).haveSample then LazyDelta(old(View()), opt, old(dmc).shift % 2 == 1, -old(dmc).acc)
                        else old(View())
    {
      hide LazyDelta, Tested, LazyOk;
      if dmc.haveSample {
        DeltaBit(dmc.shift % 2 == 1, -dmc.acc);
      }
      dmc := dmc.(acc := dmc.acc + dmc.period);
      dmc := dmc.(bitCount := (dmc.bitCount + 1) % 8);
      dmc := dmc.(shift := dmc.shift / 2);
      Tester();
    }

    method Tester()
      modifies this`dmc
      ensures dmc == Tested(old(dmc))
    {
      if dmc.bitCount == 0 {
        if !dmc.haveDma {
          dmc := dmc.(haveSample := false);
        } else {
          dmc := dmc.(haveSample := true);
          dmc := dmc.(shift := dmc.buffer);
          dmc := dmc.(haveDma := false);
        }
      }
    }

    method DoAll()
      requires Valid()
      modifies this, waveHi
      ensures dmc == old(dmc)
      ensures Valid() && View() == CatchAll(old(View()), opt)
      ensures soundtsoffs == old(soundtsoffs) && soundtimestamp == old(soundtimestamp)
    {
      hide CatchUp;
      RDoSQ(0);
      RDoSQ(1);
      RDoTriangle();
      RDoNoise();
      RDoPCM();
    }

    /** StatusWrite: $4015. */
    method StatusWrite(v: Byte)
      requires Valid()
      modifies this, waveHi
      ensures Valid() && View() == LazyStep(old(View()), opt, Status(v))
      ensures dmc == Switched(old(dmc), v)
    {
      hide CatchAll, WriteStatus;
      DoAll();
      ForceLengths(v);
      SwitchSample(v);
    }

    /** The registers of StatusWrite. */
    method ForceLengths(v: Byte)
      requires Shaped(regs)
      modifies this`regs
      ensures regs == WriteStatus(old(regs), v)
    {
      var r := regs;
      var x := 0;
      while x < 4
        invariant 0 <= x <= 4 && |regs.lengthcount| == 4
        invariant regs == r.(lengthcount := regs.lengthcount)
        invariant forall y :: 0 <= y < 4 ==>
                    regs.lengthcount[y] == if y < x && v / Pow2(y) % 2 == 0 then 0 else r.lengthcount[y]
        modifies this`regs
      {
        if v / Pow2(x) % 2 == 0 {
          regs := regs.(lengthcount := regs.lengthcount[x := 0]);
        }
        x := x + 1;
      }
      regs := regs.(enabled := v % 32);
      assert regs == WriteStatus(r, v);
    }

    /** The sample channel's part of StatusWrite. */
    method SwitchSample(v: Byte)
      modifies this`dmc
      ensures dmc == Switched(old(dmc), v)
    {
      if v / 16 % 2 == 1 {
        if dmc.size == 0 {
          PrepDPCM();
        }
      } else {
        dmc := dmc.(size := 0);
      }
      dmc := dmc.(irq := false);
    }

    /** FrameSoundStuff. */
    method FrameSoundStuff(fcnt: nat)
      requires Valid()
      modifies this, waveHi
      ensures Valid() && View() == LazyStep(old(View()), opt, FrameStep(fcnt))
    {
      hide CatchUp, HalfFrame, QuarterFrame;
      RDoSQ(0);
      RDoSQ(1);
      RDoNoise();
      RDoTriangle();
      if fcnt % 2 == 0 {
        CountAndSweep();
      }
      EnvelopesAndLinear();
    }

    method CountAndSweep()
      requires Shaped(regs)
      modifies this`regs
      ensures regs == HalfFrame(old(regs))
    {
      hide Counted, SweptFreq, SweptCount;
      var r := regs;
      var tri := LengthUnit(r, 2);
      var noise := LengthUnit(r, 3);
      regs := regs.(lengthcount := regs.lengthcount[2 := tri][3 := noise]);
      var x := 0;
      while x < 2
        invariant 0 <= x <= 2 && Shaped(regs)
        invariant regs == r.(lengthcount := regs.lengthcount, curfreq := regs.curfreq,
                             sweepCount := regs.sweepCount, sweepReload := regs.sweepReload)
        invariant regs.lengthcount[2] == Counted(r, 2) && regs.lengthcount[3] == Counted(r, 3)
        invariant forall y :: 0 <= y < x ==> Swept(r, regs, y)
      {
        ghost var before := regs;
        var length := LengthUnit(r, x);
        var freq, count := SweepUnit(r, x);
        regs := regs.(lengthcount := regs.lengthcount[x := length], curfreq := regs.curfreq[x := freq],
                      sweepCount := regs.sweepCount[x := count], sweepReload := regs.sweepReload[x := false]);
        if x == 1 {
          assert Swept(r, before, 0);
          assert Swept(r, regs, 0);
        }
        assert Swept(r, regs, x);
        x := x + 1;
      }
      assert Swept(r, regs, 0) && Swept(r, regs, 1);
    }

    /** Channel y has been counted and swept. */
    static ghost predicate Swept(r: Regs, r': Regs, y: nat)
      requires Shaped(r) && Shaped(r') && y < 2
    {
      && r'.lengthcount[y] == Counted(r, y) && r'.curfreq[y] == SweptFreq(r, y)
      && r'.sweepCount[y] == SweptCount(r, y) && !r'.sweepReload[y]
    }

    static method LengthUnit(r: Regs, x: nat) returns (n: nat)
      requires Shaped(r) && x < 4
      ensures n == Counted(r, x)
    {
      n := r.lengthcount[x];
      var looping := if x == 2 then r.psg[8] / 128 % 2 == 1 else r.psg[4 * x] / 32 % 2 == 1;
      if !looping && n > 0 {
        n := n - 1;
      }
    }

    /** The sweep code of one square channel. */
    static method SweepUnit(r: Regs, x: nat) returns (freq: nat, count: nat)
      requires Shaped(r) && x < 2
      ensures freq == SweptFreq(r, x) && count == SweptCount(r, x)
    {
      freq, count := r.curfreq[x], r.sweepCount[x];
      if count > 0 {
        count := count - 1;
      }
      if count <= 0 {
        var shift := r.psg[4 * x + 1] % 8;
        if r.sweepOn[x] && shift != 0 && freq >= 8 {
          var mod := freq / Pow2(shift);
          if r.psg[4 * x + 1] / 8 % 2 == 1 {
            SweepStays(freq, shift, x);
            freq := freq - (mod + (1 - x));
          } else if mod + freq < 0x800 {
            freq := freq + mod;
          }
        }
        count := r.psg[4 * x + 1] / 16 % 8 + 1;
      }
      if r.sweepReload[x] {
        count := r.psg[4 * x + 1] / 16 % 8 + 1;
      }
    }

    method EnvelopesAndLinear()
      requires Shaped(regs)
      modifies this`regs
      ensures regs == QuarterFrame(old(regs))
    {
      var r := regs;
      if regs.triMode {
        regs := regs.(triCount := regs.psg[8] % 128);
      } else if regs.triCount > 0 {
        regs := regs.(triCount := regs.triCount - 1);
      }
      if regs.psg[8] / 128 % 2 == 0 {
        regs := regs.(triMode := false);
      }
      var x := 0;
      while x < 3
        invariant 0 <= x <= 3 && |regs.env| == 3
        invariant regs == QuarterFrame(r).(env := regs.env)
        invariant forall y :: 0 <= y < 3 ==> regs.env[y] == if y < x then Decayed(r.env[y]) else r.env[y]
      {
        var e := regs.env[x];
        if e.reload {
          e := e.(decvolume := 15, decCountTo1 := e.speed + 1, reload := false);
        } else {
          if e.decCountTo1 > 0 {
            e := e.(decCountTo1 := e.decCountTo1 - 1);
          }
          if e.decCountTo1 == 0 {
            e := e.(decCountTo1 := e.speed + 1);
            if e.decvolume != 0 || e.mode / 2 % 2 == 1 {
              e := e.(decvolume := (e.decvolume + 15) % 16);
            }
          }
        }
        regs := regs.(env := regs.env[x := e]);
        x := x + 1;
      }
      assert regs.env == QuarterFrame(r).env;
    }

    // ----- flushing

    /** FlushEmulateSound. left is how many samples the output filter keeps. The two
        table lookups happen in range. */
    method FlushEmulateSound(wlookup1: seq<nat>, wlookup2: seq<nat>, left: nat)
      requires Valid() && left <= Now() && LazyInv(View(), opt)
      requires |wlookup1| == 32 && |wlookup2| == 203
      requires forall k :: 0 <= k < 32 ==> wlookup1[k] == Lookup1(k)
      requires forall k :: 0 <= k < 203 ==> wlookup2[k] == Lookup2(k)
      modifies this, waveHi
      ensures Valid() && View() == LazyStep(old(View()), opt, Flush(left))
    {
      if soundtimestamp == 0 {
        return;
      }
      hide CatchAll, LazyInv, FlushedWave, Rebased, Fits;
      FlushInRange(View(), opt);
      DoAll();
      EmptyBuffer(wlookup1, wlookup2, left);
    }

    method EmptyBuffer(wlookup1: seq<nat>, wlookup2: seq<nat>, left: nat)
      requires Valid() && left <= Now() && |wlookup1| == 32 && |wlookup2| == 203
      requires forall k :: 0 <= k < 32 ==> wlookup1[k] == Lookup1(k)
      requires forall k :: 0 <= k < 203 ==> wlookup2[k] == Lookup2(k)
      requires forall i :: soundtsoffs <= i < Now() ==> Fits(waveHi[i])
      modifies this`channelBC, this`soundtsoffs, this`soundtimestamp, waveHi
      ensures Valid()
      ensures var w := old(View());
              View() == w.(wave := Rebased(FlushedWave(w.wave, w.base, w.now), w.now - left, left), base := left,
                  now := left,
                           cur := [left, left, left, left, left])
    {
      hide FlushedWave, Rebased, Fits;
      Convert(wlookup1, wlookup2);
      Rebase(left);
      channelBC := [left, left, left, left, left];
      soundtsoffs, soundtimestamp := left, 0;
    }

    /** The conversion loop: soundtimestamp samples from soundtsoffs on. */
    method Convert(wlookup1: seq<nat>, wlookup2: seq<nat>)
      requires Valid() && |wlookup1| == 32 && |wlookup2| == 203
      requires forall k :: 0 <= k < 32 ==> wlookup1[k] == Lookup1(k)
      requires forall k :: 0 <= k < 203 ==> wlookup2[k] == Lookup2(k)
      requires forall i :: soundtsoffs <= i < Now() ==> Fits(waveHi[i])
      modifies waveHi
      ensures waveHi[..] == FlushedWave(old(waveHi[..]), soundtsoffs, Now())
    {
      hide Lookup1, Lookup2;
      var x, tmpo := soundtimestamp, soundtsoffs;
      while x > 0
        invariant 0 <= x && tmpo + x == Now() && soundtsoffs <= tmpo
        invariant forall i :: 0 <= i < waveHi.Length ==>
                                waveHi[i] == if soundtsoffs <= i < tmpo then Converted(old(waveHi[i]))
                                    else old(waveHi[i])
      {
        var b := waveHi[tmpo];
        assert Fits(old(waveHi[tmpo]));
        waveHi[tmpo] := b % WORD + wlookup2[b / WORD % 256] + wlookup1[b / SQ];
        x := x - 1;
        tmpo := tmpo + 1;
      }
    }

    /** memmove of the leftover to the front, memset of the rest. */
    method Rebase(left: nat)
      requires Valid() && left <= Now()
      modifies waveHi
      ensures waveHi[..] == Rebased(old(waveHi[..]), Now() - left, left)
    {
      var from := Now() - left;
      var i := 0;
      while i < left
        invariant 0 <= i <= left
        invariant forall k :: 0 <= k < waveHi.Length ==> waveHi[k] == if k < i then old(waveHi[from + k])
          else old(waveHi[k])
      {
        waveHi[i] := waveHi[from + i];
        i := i + 1;
      }
      while i < waveHi.Length
        invariant left <= i <= waveHi.Length
        invariant forall k :: 0 <= k < i ==> waveHi[k] == if k < left then old(waveHi[from + k]) else 0
      {
        waveHi[i] := 0;
        i := i + 1;
      }
    }

    // ----- whole runs

    /** One event; the tables are those of the power-on code. */
    method Handle(ev: Event, wlookup1: seq<nat>, wlookup2: seq<nat>)
      requires Valid() && LazyInv(View(), opt) && Enabled(Now(), waveHi.Length, ev)
      requires |wlookup1| == 32 && forall k :: 0 <= k < 32 ==> wlookup1[k] == Lookup1(k)
      requires |wlookup2| == 203 && forall k :: 0 <= k < 203 ==> wlookup2[k] == Lookup2(k)
      modifies this, waveHi
      ensures Valid() && View() == LazyStep(old(View()), opt, ev)
    {
      hide LazyInv, Lookup1, Lookup2, CatchUp, LazyPsg, LazyFrame, LazyFlush, LazyDelta, CatchAll, WriteStatus;
      match ev {
        case Tick => Elapse();
        case Catch(c) =>
          if c < 2 { RDoSQ(c); } else if c == 2 { RDoTriangle(); } else if c == 3 { RDoNoise(); } else { RDoPCM(); }
        case Psg(a, v) => WritePSG(a, v);
        case Latch(v) => WriteDac(v);
        case Delta(up, back) => DeltaBit(up, back);
        case Status(v) => StatusWrite(v);
        case FrameStep(fcnt) => FrameSoundStuff(fcnt);
        case Flush(left) => FlushEmulateSound(wlookup1, wlookup2, left);
      }
    }
  }

  /** From power-on through any events that render no sample twice: the unit is the model's, and
      every table index of every flush, now or later, is in range. */
  method RunApu(opt: Settings, evs: seq<Event>) returns (a: Apu)
    requires Runs(0, 0, 40000, evs) && NoDouble(Clock(0, 0, 0), evs)
    ensures fresh(a) && fresh(a.waveHi) && a.Valid() && a.opt == opt
    ensures a.View() == Run(Start(40000, 0), opt, evs) && LazyInv(a.View(), opt) && InRange(a.View(), opt)
  {
    hide LazyInv, Lookup1, Lookup2, InRange, LazyStep;
    var wlookup1 := seq(32, k requires 0 <= k => Lookup1(k));
    var wlookup2 := seq(203, k requires 0 <= k => Lookup2(k));
    a := new Apu(opt);
    StartInv(40000, 0, opt);
    var i := 0;
    while i < |evs|
      invariant 0 <= i <= |evs| && a.Valid() && a.opt == opt && fresh(a) && fresh(a.waveHi)
      invariant LazyInv(a.View(), opt) && NoDouble(ClockOf(a.View()), evs[i..])
      invariant Runs(a.Now(), a.soundtsoffs, 40000, evs[i..])
      invariant Run(a.View(), opt, evs[i..]) == Run(Start(40000, 0), opt, evs)
    {
      assert evs[i..][1..] == evs[i + 1..];
      LazyStepInv(a.View(), opt, evs[i]);
      StepClock(a.View(), opt, evs[i]);
      a.Handle(evs[i], wlookup1, wlookup2);
      i := i + 1;
    }
    FlushInRange(a.View(), opt);
  }
}
