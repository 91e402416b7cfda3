/** What the sound channels put out, as the hardware's documentation has it: waveforms, timing and
    the register bits. */
module SoundLaws {
  import opened Basics
  import opened SoundSpec
  import opened SoundLazy
  import opened SoundRun
  import opened SampleChannels

  // ----- the noise register

  /** The shift register moves up by one; bit 0 becomes the exclusive or of bit 14 and of bit 13, or of bit 8
      in short mode. */
  lemma NoiseStep(amp: nat, tap: nat, reload: nat, p: Phase)
    requires (tap == 8 || tap == 13) && p.wl == 1 && p.step < 0x8000
    ensures var p' := Next(Noise(amp, tap, reload), p);
      && p'.wl == reload && p'.step < 0x8000 && p'.step / 2 == p.step % 0x4000
      && (p'.step % 2 == 1 <==> p.step / 0x4000 % 2 != (if tap == 8 then p.step / 0x100 % 2 else p.step / 0x2000 % 2))
  {
    var x, y := p.step / 0x4000, p.step / if tap == 8 then 0x100 else 0x2000;
    MovedUp(p.step, (y + x) % 2);
    Parity(y, x);
  }

  lemma MovedUp(n: nat, bit: nat)
    requires bit < 2
    ensures var m := (n * 2 + bit) % 0x8000; m < 0x8000 && m % 2 == bit && m / 2 == n % 0x4000
  {
    var l := n % 0x4000;
    assert n == 0x4000 * (n / 0x4000) + l;
    Euclid(n * 2 + bit, 0x8000, n / 0x4000, 2 * l + bit);
  }

  lemma Parity(a: nat, b: nat)
    ensures (a + b) % 2 == 1 <==> a % 2 != b % 2
  {
  }

  /** Two different contents never become the same. */
  lemma NoiseInjective(tap: nat, a: nat, b: nat)
    requires (tap == 8 || tap == 13) && a < 0x8000 && b < 0x8000 && Shifted(a, tap) == Shifted(b, tap)
    ensures a == b
  {
    NoiseStep(0, tap, 1, Phase(a, 1));
    NoiseStep(0, tap, 1, Phase(b, 1));
    assert Next(Noise(0, tap, 1), Phase(a, 1)).step == Next(Noise(0, tap, 1), Phase(b, 1)).step;
    hide Shifted;
    Halves(a, b);
  }

  lemma Halves(a: nat, b: nat)
    requires a < 0x8000 && b < 0x8000 && a % 0x4000 == b % 0x4000
    ensures a / 0x2000 % 2 == b / 0x2000 % 2 && a / 0x100 % 2 == b / 0x100 % 2
    ensures a / 0x4000 % 2 == b / 0x4000 % 2 ==> a == b
  {
    LowBits(a);
    LowBits(b);
  }

  lemma LowBits(a: nat)
    requires a < 0x8000
    ensures var l := a % 0x4000; a / 0x2000 % 2 == l / 0x2000 % 2 && a / 0x100 % 2 == l / 0x100 % 2
    ensures a == 0x4000 * (a / 0x4000 % 2) + a % 0x4000
  {
    var h, l := a / 0x4000, a % 0x4000;
    assert a / 0x2000 == 2 * h + l / 0x2000;
    assert a / 0x100 == 64 * h + l / 0x100;
  }

  /** A register that is not all zeros stays so for good: the noise never dies out. */
  lemma {:induction false} NoiseLives(amp: nat, tap: nat, reload: nat, p: Phase, k: nat)
    requires (tap == 8 || tap == 13) && 0 < p.step < 0x8000
    ensures 0 < PhaseAt(Noise(amp, tap, reload), p, k).step < 0x8000
    decreases k
  {
    if k > 0 {
      var c := Noise(amp, tap, reload);
      if p.wl == 1 {
        NoiseStep(amp, tap, reload, p);
        ZeroNext(tap, p.step);
      }
      NoiseLives(amp, tap, reload, Next(c, p), k - 1);
    }
  }

  lemma ZeroNext(tap: nat, a: nat)
    requires (tap == 8 || tap == 13) && 0 < a < 0x8000
    ensures Shifted(a, tap) > 0
  {
    if Shifted(a, tap) == 0 {
      NoiseInjective(tap, a, 0);
    }
  }

  // ----- timing

  /** The step that follows. */
  function Following(c: Config, step: nat): nat
    requires Tapped(c)
  {
    match c
    case Square(_, _, _, _) => (step + 1) % 8
    case Triangle(_, _, _) => step + 1
    case Noise(_, tap, _) => Shifted(step, tap)
    case Pcm(_) => step
  }

  predicate Moving(c: Config) {
    match c case Square(audible, _, _, _) => audible case Triangle(running, _, _) => running case Noise(_, _, _) => true
            case Pcm(_) => false
  }

  function ReloadOf(c: Config): nat
    requires Moving(c)
  {
    match c case Square(_, _, _, reload) => reload case Triangle(_, _, reload) => reload
            case Noise(_, _, reload) => reload
  }

  /** A moving channel keeps its step until its counter has run down, and then takes the next one and reloads. */
  lemma {:induction false} StepTime(c: Config, p: Phase, k: nat)
    requires Tapped(c) && Moving(c) && 1 <= p.wl && k <= p.wl
    ensures PhaseAt(c, p, k) == if k < p.wl then Phase(p.step, p.wl - k) else Phase(Following(c, p.step), ReloadOf(c))
    decreases k
  {
    if k > 0 {
      PhaseSnoc(c, p, k - 1);
      StepTime(c, p, k - 1);
    }
  }

  /** n whole periods later a channel is n steps on. */
  lemma {:induction false} Periods(c: Config, step: nat, n: nat)
    requires Tapped(c) && Moving(c) && ReloadOf(c) >= 1
    ensures PhaseAt(c, Phase(step, ReloadOf(c)), n * ReloadOf(c)) == Phase(Steps(c, step, n), ReloadOf(c))
    decreases n
  {
    var w := ReloadOf(c);
    if n > 0 {
      StepTime(c, Phase(step, w), w);
      Periods(c, Following(c, step), n - 1);
      assert n * w == w + (n - 1) * w;
      PhaseAdd(c, Phase(step, w), w, (n - 1) * w);
    }
  }

  function Steps(c: Config, step: nat, n: nat): nat
    requires Tapped(c)
    decreases n
  {
    if n == 0 then step else Steps(c, Following(c, step), n - 1)
  }

  /** A channel that is not moving stays where it is. */
  lemma {:induction false} Still(c: Config, p: Phase, k: nat)
    requires Tapped(c) && !Moving(c)
    ensures PhaseAt(c, p, k) == p
    decreases k
  {
    if k > 0 {
      Still(c, p, k - 1);
    }
  }

  // ----- waveforms

  /** The duty bits of $4000 and $4004 give 1, 2, 4 and 6 of the eight steps, and these in one piece. */
  lemma Duty(r: Regs, s: Settings, x: nat, step: nat)
    requires RegsOk(r) && x < 2 && step < 8
    ensures var c, duty := ConfigOf(r, s, x), r.psg[4 * x] / 64;
      c.Square? && (!c.audible ==> Sample(c, Phase(step, 1)) == 0)
      && (c.audible ==> Sample(c, Phase(step, 1))
                        == if (duty == 0 && step < 1) || (duty == 1 && step < 2) || (duty == 2 && step < 4)
                              || (duty == 3 && step < 6) then c.amp else 0)
  {
    hide CheckFreq, Scaled, EnvLevel;
  }

  /** A square channel is audible if its length has not run out and its period is at least 8, and the one the
      sweep would raise it to stays below 2048 unless the sweep lowers it. */
  lemma Audible(r: Regs, s: Settings, x: nat)
    requires RegsOk(r) && x < 2
    ensures var sweep, cf := r.psg[4 * x + 1], r.curfreq[x];
      ConfigOf(r, s, x).audible <==>
        r.lengthcount[x] > 0 && cf >= 8 && (sweep / 8 % 2 == 1 || cf + cf / Pow2(sweep % 8) < 2048)
  {
    hide Pow2, EnvLevel, Scaled, RectDuty;
    var cf, d := r.curfreq[x], Pow2(r.psg[4 * x + 1] % 8);
    AtMost(cf, d);
    OneBit(cf / d + cf);
  }

  lemma OneBit(t: nat)
    requires t < 0x1000
    ensures t / 0x800 % 2 == 0 <==> t < 2048
  {
  }

  lemma AtMost(n: nat, d: nat)
    requires d > 0
    ensures n / d <= n
  {
    AtLeast(d, 1);
    var q := n / d;
    assert n == d * q + n % d;
    MulAtLeast(d, q);
  }

  lemma MulAtLeast(d: nat, q: nat)
    requires d > 0
    ensures d * q >= q
  {
    assert d * q == q + (d - 1) * q;
    assert (d - 1) * q >= 0;
  }

  /** A step of the square takes twice its period plus two cycles, that of the triangle its period plus one. */
  lemma StepLengths(r: Regs, s: Settings)
    requires RegsOk(r)
    ensures forall x :: 0 <= x < 2 && ConfigOf(r, s, x).audible ==> ReloadOf(ConfigOf(r, s, x)) == 2 * r.curfreq[x] + 2
    ensures var t := ConfigOf(r, s, 2);
      (Moving(t) <==> r.lengthcount[2] > 0 && r.triCount > 0)
      && (Moving(t) ==> ReloadOf(t) == r.psg[10] + 256 * (r.psg[11] % 8) + 1)
  {
    hide CheckFreq, Scaled, EnvLevel;
  }

  /** The triangle goes from 15 down to 0 and up again in 32 steps, one level at a time, staying at either end
      for two steps. */
  lemma TriangleWave(k: nat, x: nat)
    requires x < 32
    ensures var step := 32 * k + x;
      && TriLevel(step) <= 15 && TriLevel(step + 32) == TriLevel(step) && TriLevel(step) + TriLevel(step + 16) == 15
      && (x == 0 ==> TriLevel(step) == 15)
      && TriLevel(step + 1) == if x == 15 || x == 31 then TriLevel(step)
                               else if x < 15 then TriLevel(step) - 1 else TriLevel(step) + 1
  {
    hide TriLevel;
    Folded(k, x);
    Folded(k, x + 1);
    Folded(k, x + 16);
    Folded(k, x + 32);
  }

  lemma Folded(k: nat, x: nat)
    requires x < 64
    ensures TriLevel(32 * k + x)
      == if x < 16 then 15 - x else if x < 32 then x - 16 else if x < 48 then 47 - x else x - 48
  {
    assert (32 * k + x) / 16 == 2 * k + x / 16;
    assert (32 * k + x) % 16 == x % 16;
  }

  /** The level of the triangle counts three times and that of the sample channel once, scaled by the volume in
      256ths and cut to whole units. */
  lemma CutLevels(r: Regs, s: Settings, running: bool, volume: Volume, reload: nat, p: Phase)
    ensures Sample(Triangle(running, volume, reload), p) == TriLevel(p.step) * 3 * volume / 256 * WORD
    ensures PcmLevel(r, s) == r.latch * s.pcm / 256 * WORD
  {
    CutBound(TriLevel(p.step) * 3, volume);
    CutBound(r.latch, s.pcm);
  }

  /** The noise is heard while bit 14 of the register is 0 and the length has not run out; bit 7 of $400E
      selects the short sequence. */
  lemma NoiseHeard(r: Regs, s: Settings, p: Phase)
    requires RegsOk(r) && p.step < 0x8000
    ensures var c := ConfigOf(r, s, 3);
      && c.Noise? && (c.tap == 8 <==> r.psg[14] >= 128) && (c.tap == 13 <==> r.psg[14] < 128)
      && (r.lengthcount[3] == 0 || p.step >= 0x4000 ==> Sample(c, p) == 0)
      && (r.lengthcount[3] > 0 && p.step < 0x4000 ==>
            var level := if r.env[2].mode % 2 == 1 then r.env[2].speed else r.env[2].decvolume;
            var n := Sample(c, p) / WORD / 2;
            Sample(c, p) == n * 2 * WORD && 256 * n <= level * s.noise < 256 * (n + 1))
  {
    Scales(EnvLevel(r.env[2]), s.noise);
    hide Scaled;
  }

  // ----- envelopes

  function Decays(e: Env, n: nat): Env
    decreases n
  {
    if n == 0 then e else Decays(Decayed(e), n - 1)
  }

  lemma {:induction false} DecaysAdd(e: Env, m: nat, n: nat)
    ensures Decays(e, m + n) == Decays(Decays(e, m), n)
    decreases m
  {
    if m > 0 {
      DecaysAdd(Decayed(e), m - 1, n);
    }
  }

  /** Between two steps of an envelope pass speed + 1 quarter frames. */
  lemma {:induction false} OneDecay(e: Env, k: nat)
    requires !e.reload && k < e.decCountTo1
    ensures Decays(e, k) == e.(decCountTo1 := e.decCountTo1 - k)
    ensures Decays(e, e.decCountTo1) == e.(decCountTo1 := e.speed + 1, decvolume :=
              if e.decvolume > 0 then (e.decvolume + 15) % 16 else if e.mode / 2 % 2 == 1 then 15 else 0)
    decreases e.decCountTo1
  {
    if k > 0 {
      OneDecay(Decayed(e), k - 1);
    } else if e.decCountTo1 > 1 {
      OneDecay(Decayed(e), 0);
    } else {
      assert Decays(e, 1) == Decays(Decayed(e), 0);
    }
  }

  /** A restarted envelope begins at 15 and falls by one every speed + 1 quarter frames. */
  lemma {:induction false} EnvelopeFalls(e: Env, j: nat)
    requires e.reload && j <= 15
    ensures Decays(e, 1 + j * (e.speed + 1)) == e.(decvolume := 15 - j, decCountTo1 := e.speed + 1, reload := false)
    decreases j
  {
    var w := e.speed + 1;
    if j == 0 {
      assert Decays(e, 1) == Decays(Decayed(e), 0);
    } else {
      EnvelopeFalls(e, j - 1);
      var k := 1 + (j - 1) * w;
      assert 1 + j * w == k + w;
      DecaysAdd(e, k, w);
      OneDecay(e.(decvolume := 16 - j, decCountTo1 := w, reload := false), 0);
    }
  }

  /** At 0 it stays, or begins again at 15 if it loops. */
  lemma EnvelopeEnds(e: Env)
    requires !e.reload && e.decvolume == 0 && e.decCountTo1 == e.speed + 1
    ensures Decays(e, e.speed + 1).decvolume == if e.mode / 2 % 2 == 1 then 15 else 0
  {
    OneDecay(e, 0);
  }

  /** Bits 0 to 3 of $4000, $4004 and $400C are the volume if bit 4 is set, and else the speed of the decay. */
  lemma EnvelopeWrite(r: Regs, s: Settings, a: nat, v: Byte)
    requires Shaped(r) && a in {0, 4, 12}
    ensures var e := WritePsg(r, s, a, v).env[if a == 12 then 2 else a / 4];
      && e.speed == v % 16 && (v / 16 % 2 == 1 ==> EnvLevel(e) == v % 16)
      && (v / 16 % 2 == 0 ==> EnvLevel(e) == e.decvolume) && e.mode / 2 % 2 == v / 32 % 2
  {
  }

  // ----- lengths, periods and sweeps

  function HalfFrames(r: Regs, n: nat): (r': Regs)
    requires Shaped(r)
    ensures Shaped(r')
    decreases n
  {
    if n == 0 then r else HalfFrames(HalfFrame(r), n - 1)
  }

  /** A length counter loses one every half frame until it is 0, unless the halt bit of its channel is set. */
  lemma {:induction false} LengthRuns(r: Regs, x: nat, n: nat)
    requires Shaped(r) && x < 4
    ensures var halted := if x == 2 then r.psg[8] / 128 % 2 == 1 else r.psg[4 * x] / 32 % 2 == 1;
      HalfFrames(r, n).lengthcount[x] == if halted then r.lengthcount[x] else Max(0, r.lengthcount[x] - n)
    decreases n
  {
    hide SweptFreq, SweptCount;
    if n > 0 {
      LengthRuns(HalfFrame(r), x, n - 1);
    }
  }

  /** The length entries at odd places are the even numbers up to 30, but for 254; those at even places below 10
      are ten times, and from 16 to 24 twelve times, a power of two. */
  lemma LengthTable(i: nat)
    requires i < 32
    ensures i % 2 == 1 ==> LENGTHS[i] == if i == 1 then 254 else i - 1
    ensures i % 2 == 0 && i < 10 ==> LENGTHS[i] == 10 * Pow2(i / 2)
    ensures i % 2 == 0 && 16 <= i < 26 ==> LENGTHS[i] == 12 * Pow2(i / 2 - 8)
  {
    assert Pow2(0) == 1 && Pow2(1) == 2 && Pow2(2) == 4;
    assert Pow2(3) == 2 * Pow2(2) && Pow2(4) == 2 * Pow2(3);
  }

  /** $4002 and $4003 write the period, low byte first, and $4003 loads the length if the channel is enabled. */
  lemma PeriodWrite(r: Regs, s: Settings, x: nat, lo: Byte, hi: Byte)
    requires Shaped(r) && x < 2
    ensures var r' := WritePsg(WritePsg(r, s, 4 * x + 2, lo), s, 4 * x + 3, hi);
      && r'.curfreq[x] == lo + 256 * (hi % 8) && r'.curfreq[1 - x] == r.curfreq[1 - x] && r'.env[x].reload
      && r'.lengthcount[x] == if r.enabled / Pow2(x) % 2 == 1 then LENGTHS[hi / 8] else r.lengthcount[x]
  {
    hide WritePsg, Pow2, Loaded;
    LowWrite(r, s, x, lo);
    HighWrite(WritePsg(r, s, 4 * x + 2, lo), s, x, hi);
    LoadedAt(WritePsg(r, s, 4 * x + 2, lo), x, hi);
    Euclid(r.curfreq[x] / 256 * 256 + lo, 256, r.curfreq[x] / 256, lo);
  }

  lemma LowWrite(r: Regs, s: Settings, x: nat, lo: Byte)
    requires Shaped(r) && x < 2
    ensures WritePsg(r, s, 4 * x + 2, lo)
            == r.(curfreq := r.curfreq[x := r.curfreq[x] / 256 * 256 + lo], psg := r.psg[4 * x + 2 := lo])
  {
    hide Loaded, Swapped;
  }

  lemma HighWrite(r: Regs, s: Settings, x: nat, hi: Byte)
    requires Shaped(r) && x < 2
    ensures var r' := WritePsg(r, s, 4 * x + 3, hi);
      && r'.curfreq == r.curfreq[x := r.curfreq[x] % 256 + hi % 8 * 256] && r'.env[x].reload
      && r'.lengthcount == Loaded(r, x, hi)
  {
    hide Swapped, Pow2, Loaded;
  }

  lemma LoadedAt(r: Regs, x: nat, v: Byte)
    requires Shaped(r) && x < 2
    ensures Loaded(r, x, v)[x] == if r.enabled / Pow2(x) % 2 == 1 then LENGTHS[v / 8] else r.lengthcount[x]
  {
    hide Pow2;
  }

  /** $4015 silences the channels whose bits are 0 and lets the others be loaded. */
  lemma StatusBits(r: Regs, v: Byte, x: nat)
    requires Shaped(r) && x < 4
    ensures var r', on := WriteStatus(r, v), v / Pow2(x) % 2 == 1;
      && r'.lengthcount[x] == (if on then r.lengthcount[x] else 0) && (r'.enabled / Pow2(x) % 2 == 1 <==> on)
  {
    assert Pow2(x) == if x == 0 then 1 else if x == 1 then 2 else if x == 2 then 4 else 8 by {
      assert Pow2(0) == 1 && Pow2(1) == 2 && Pow2(2) == 4 && Pow2(3) == 2 * Pow2(2);
    }
    hide Pow2;
    LowFive(v);
  }

  lemma LowFive(v: Byte)
    ensures v % 32 / 1 % 2 == v / 1 % 2 && v % 32 / 2 % 2 == v / 2 % 2
    ensures v % 32 / 4 % 2 == v / 4 % 2 && v % 32 / 8 % 2 == v / 8 % 2
  {
    var k, l := v / 32, v % 32;
    Kept(k, l, 1, 16);
    Kept(k, l, 2, 8);
    Kept(k, l, 4, 4);
    Kept(k, l, 8, 2);
  }

  lemma Kept(k: nat, l: nat, d: nat, c: nat)
    requires d > 0 && 2 * c * d == 32
    ensures (32 * k + l) / d % 2 == l / d % 2
  {
    var q := l / d;
    assert l == d * q + l % d;
    assert d * (2 * (c * k) + q) == 2 * c * d * k + d * q;
    Euclid(32 * k + l, d, 2 * (c * k) + q, l % d);
    Periodic(q, 2, c * k);
  }

  /** A sweep is due every (bits 4 to 6 of $4001) + 1 half frames, counted from the last one. */
  lemma {:induction false} SweepTime(r: Regs, x: nat, k: nat)
    requires Shaped(r) && x < 2 && !r.sweepReload[x] && k < r.sweepCount[x]
    ensures HalfFrames(r, k).curfreq[x] == r.curfreq[x] && HalfFrames(r, k).sweepCount[x] == r.sweepCount[x] - k
    ensures HalfFrames(r, k).psg == r.psg && HalfFrames(r, k).sweepOn == r.sweepOn && !HalfFrames(r, k).sweepReload[x]
    decreases k
  {
    hide SweptFreq, SweptCount;
    if k > 0 {
      NotDue(r, x);
      SweepTime(HalfFrame(r), x, k - 1);
    }
  }

  lemma NotDue(r: Regs, x: nat)
    requires Shaped(r) && x < 2 && r.sweepCount[x] >= 2 && !r.sweepReload[x]
    ensures SweptFreq(r, x) == r.curfreq[x] && SweptCount(r, x) == r.sweepCount[x] - 1
  {
  }

  /** When it is due it raises the period by a power-of-two part of it while the sum is below 2048, or lowers it by
      that part, the first square channel by one more; it must be switched on with a shift, and the period at
      least 8. */
  lemma SweepActs(r: Regs, x: nat)
    requires Shaped(r) && x < 2 && r.sweepCount[x] <= 1
    ensures var r', sweep, cf := HalfFrame(r), r.psg[4 * x + 1], r.curfreq[x];
      var part := cf / Pow2(sweep % 8);
      && r'.sweepCount[x] == sweep / 16 % 8 + 1
      && r'.curfreq[x] == if !r.sweepOn[x] || sweep % 8 == 0 || cf < 8 then cf
                          else if sweep / 8 % 2 == 1 then cf - part - (if x == 0 then 1 else 0)
                          else if cf + part < 2048 then cf + part else cf
  {
    hide Pow2;
  }

  // ----- linear counter, sample latch, swapped duties

  function Quarters(r: Regs, n: nat): (r': Regs)
    requires Shaped(r)
    ensures Shaped(r')
    decreases n
  {
    if n == 0 then r else Quarters(QuarterFrame(r), n - 1)
  }

  /** The linear counter loses one every quarter frame. */
  lemma {:induction false} LinearRuns(r: Regs, n: nat)
    requires Shaped(r) && !r.triMode
    ensures Quarters(r, n).triCount == Max(0, r.triCount - n) && !Quarters(r, n).triMode
    decreases n
  {
    hide Decayed;
    if n > 0 {
      LinearRuns(QuarterFrame(r), n - 1);
    }
  }

  /** A write to $400B reloads it from $4008 at the next quarter frame, and at every one while bit 7 is set. */
  lemma LinearReload(r: Regs, s: Settings, v: Byte)
    requires Shaped(r)
    ensures var r' := QuarterFrame(WritePsg(r, s, 0xb, v));
      r'.triCount == r.psg[8] % 128 && (r'.triMode <==> r.psg[8] / 128 % 2 == 1)
  {
    hide Decayed, Loaded;
  }

  /** A bit of the sample moves the latch up or down by two unless it would leave 0 to 127. */
  lemma LatchMoves(latch: nat)
    requires latch < 128
    ensures DeltaLatch(latch, true) == if latch <= 125 then latch + 2 else latch
    ensures DeltaLatch(latch, false) == if latch >= 2 then latch - 2 else latch
  {
  }

  /** Swapping the duties exchanges 25% and 50% and keeps the other bits. */
  lemma DutiesSwapped(v: Byte)
    ensures Swapped(v) / 64 == (if v / 64 == 1 then 2 else if v / 64 == 2 then 1 else v / 64)
    ensures Swapped(v) % 64 == v % 64 && Swapped(Swapped(v)) == v
  {
    var d, l := v / 64, v % 64;
    assert v == 64 * d + l && v / 128 == d / 2;
    var d' := d / 2 + d % 2 * 2;
    assert Swapped(v) == 64 * d' + l;
  }

  // ----- the sample channel

  /** The sample begins at $C000 + 64 * $4012 and has 16 * $4013 + 1 bytes; $4015 starts it unless it plays. */
  lemma SampleBegins(d: Dmc, v: Byte)
    requires v / 16 % 2 == 1 && d.size == 0
    ensures var d' := Switched(d, v);
      0x8000 + d'.address == 0xC000 + 64 * d.addressLatch && d'.size == 16 * d.sizeLatch + 1 && !d'.irq
  {
  }

  /** Bits 0 to 3 of $4010 select the period of a bit; with bit 7 clear the interrupt is taken back. */
  lemma FormatWrite(d: Dmc, s: Settings, v: Byte)
    ensures var d' := Formatted(d, s, v);
      && d'.period == (if s.pal then PAL_DMC else NTSC_DMC)[v % 16] && (d'.irq <==> d.irq && v / 128 % 2 == 1)
      && (d'.format / 64 % 2 == 1 <==> v / 64 % 2 == 1) && d'.size == d.size && d'.acc == d.acc
  {
  }

  /** The periods of a bit and of the noise fall and rise from entry to entry, and on a PAL machine, whose clock is
      slower, they are never longer. */
  lemma PeriodTables(s: Settings, k: nat)
    requires k < 15
    ensures BitPeriod(s, k + 1) < BitPeriod(s, k) && NoisePeriod(s, k) < NoisePeriod(s, k + 1)
    ensures s.pal ==> var ntsc := s.(pal := false);
      && BitPeriod(s, k) < BitPeriod(ntsc, k) <= BitPeriod(s, k) * 28 / 25
      && NoisePeriod(s, k) <= NoisePeriod(ntsc, k) <= NoisePeriod(s, k) * 8 / 7
  {
  }

  /** After a reset the channel gives no bit until it has been given a byte. */
  lemma ResetSilent(s: Settings, n: nat)
    ensures !Bits(ResetDmc(s), n).haveSample && ResetDmc(s).size == 0 && !ResetDmc(s).irq
  {
    StaysSilent(ResetDmc(s), n);
  }

  lemma {:induction false} StaysSilent(d: Dmc, n: nat)
    requires !d.haveSample && !d.haveDma
    ensures !Bits(d, n).haveSample
    decreases n
  {
    if n > 0 {
      StaysSilent(NextBit(d), n - 1);
    }
  }

  /** The bytes are read upwards, $8000 following $FFFF; behind the last one the sample starts again if $4010 has
      bit 6 set, and raises its interrupt if not. */
  lemma SampleReads(d: Dmc, b: byte)
    requires d.size > 0 && d.address < 0x8000
    ensures var d' := Fetched(d, b);
      && d'.buffer == b && d'.haveDma
      && (d.size > 1 ==> d'.size == d.size - 1 && d'.irq == d.irq
                         && 0x8000 + d'.address == if d.address == 0x7fff then 0x8000 else 0x8000 + d.address + 1)
      && (d.size == 1 && d.format / 64 % 2 == 1 ==> 0x8000 + d'.address == 0xC000 + 64 * d.addressLatch
                                                    && d'.size == 16 * d.sizeLatch + 1)
      && (d.size == 1 && d.format / 64 % 2 == 0 ==> d'.size == 0 && d'.irq)
  {
  }

  function Bits(d: Dmc, n: nat): Dmc
    decreases n
  {
    if n == 0 then d else Bits(NextBit(d), n - 1)
  }

  /** The bits of a byte come out lowest first, a period apart, and behind the eighth the next byte is taken. */
  lemma {:induction false} ByteBits(d: Dmc, n: nat)
    requires d.bitCount + n <= 7
    ensures Bits(d, n).acc == d.acc + n * d.period && Bits(d, n).bitCount == d.bitCount + n
    ensures Bits(d, n).shift == d.shift / Pow2(n) && Bits(d, n).haveSample == d.haveSample
    ensures Bits(d, n).haveDma == d.haveDma && Bits(d, n).buffer == d.buffer
    ensures d.bitCount + n == 7 && d.haveDma ==>
              var d' := NextBit(Bits(d, n)); d'.shift == d.buffer && d'.haveSample && d'.bitCount == 0 && !d'.haveDma
    decreases n
  {
    hide NextBit;
    if n > 0 {
      OneBitOut(d);
      ByteBits(NextBit(d), n - 1);
      HalfOf(d.shift, Pow2(n - 1));
      assert n * d.period == d.period + (n - 1) * d.period;
    }
    if d.bitCount + n == 7 && d.haveDma {
      EighthBit(Bits(d, n));
    }
  }

  lemma OneBitOut(d: Dmc)
    requires d.bitCount < 7
    ensures NextBit(d) == d.(acc := d.acc + d.period, bitCount := d.bitCount + 1, shift := d.shift / 2)
  {
  }

  lemma EighthBit(d: Dmc)
    requires d.bitCount == 7 && d.haveDma
    ensures var d' := NextBit(d); d'.shift == d.buffer && d'.haveSample && d'.bitCount == 0 && !d'.haveDma
  {
  }

  lemma HalfOf(a: nat, p: nat)
    requires p > 0
    ensures a / 2 / p == a / (2 * p)
  {
    var q, r := a / 2 / p, a / 2 % p;
    assert a == (2 * p) * q + (2 * r + a % 2);
    Euclid(a, 2 * p, q, 2 * r + a % 2);
  }

  // ----- the mixer

  lemma Fraction(p: nat, q: nat, r: nat, s: nat)
    requires q > 0 && s > 0 && s * p <= q * r
    ensures p / q <= r / s
  {
    var t := DivParts(p, q);
    var u := DivParts(r, s);
    Ordered(p, q, r, s, t, u);
  }

  lemma Ordered(p: nat, q: nat, r: nat, s: nat, t: nat, u: nat)
    requires q > 0 && s > 0 && s * p <= q * r && q * t <= p && r < s * (u + 1)
    ensures t <= u
  {
    var x, y := q * t, s * t;
    Swap(s, q, t);
    Grows(s, x, p);
    Smaller(q, y, r);
    Smaller(s, t, u + 1);
  }

  lemma DivParts(p: nat, q: nat) returns (t: nat)
    requires q > 0
    ensures t == p / q && q * t <= p < q * (t + 1)
  {
    t := p / q;
  }

  lemma Swap(a: nat, b: nat, c: nat)
    ensures a * (b * c) == b * (a * c)
  {
  }

  lemma Smaller(c: nat, a: nat, b: nat)
    requires c > 0
    ensures c * a <= c * b ==> a <= b
    ensures c * a < c * b ==> a < b
  {
    if a >= b {
      Grows(c, b, a);
    }
    if a > b {
      Grows(c, b + 1, a);
    }
  }

  lemma Grows(c: nat, a: nat, b: nat)
    requires a <= b
    ensures c * a <= c * b
  {
  }

  /** Both tables rise. */
  lemma MixerRises(x: nat, y: nat)
    requires x <= y
    ensures Lookup1(x) <= Lookup1(y) && Lookup2(x) <= Lookup2(y)
  {
    Rises(1565000, 8128, x, y);
    Rises(2681569, 24329, x, y);
  }

  /** They begin at 0 and end at 4219 and 12164: a full sample converts to 14 bits. */
  lemma MixerEnds(x: nat)
    ensures x == 0 ==> Lookup1(x) == Lookup2(x) == 0
    ensures (x == 30 ==> Lookup1(x) == 4219) && (x == 202 ==> Lookup2(x) == 12164)
  {
  }

  lemma Rises(c: nat, d: nat, x: nat, y: nat)
    requires x <= y && d > 0
    ensures c * x / (d + 100 * x) <= c * y / (d + 100 * y)
  {
    Grows(c * d, x, y);
    Cross(c, d, x, y);
    Cross(c, d, y, x);
    Fraction(c * x, d + 100 * x, c * y, d + 100 * y);
  }

  lemma Cross(c: nat, d: nat, x: nat, y: nat)
    ensures (d + 100 * y) * (c * x) == c * d * x + 100 * (c * x * y) && c * x * y == c * y * x
  {
  }

  /** So a sample whose fields are in range converts to at most 16383 and its fraction. */
  lemma ConvertedBound(w: nat)
    requires w / WORD % 256 <= 202 && w / SQ <= 30
    ensures Converted(w) <= 16383 + w % WORD
  {
    hide Lookup1, Lookup2;
    MixerRises(w / WORD % 256, 202);
    MixerRises(w / SQ, 30);
    MixerEnds(30);
    MixerEnds(202);
  }

  // ----- volumes, restarts, flushes

  /** The volume settings scale a level by so many 256ths. */
  lemma SquareLevel(r: Regs, s: Settings, x: nat, step: nat)
    requires RegsOk(r) && x < 2 && ConfigOf(r, s, x).audible && step == 0
    ensures var level, e, v := Sample(ConfigOf(r, s, x), Phase(step, 1)) / SQ, EnvLevel(r.env[x]),
                               if x == 0 then s.square1 else s.square2;
      Sample(ConfigOf(r, s, x), Phase(step, 1)) == level * SQ && 256 * level <= e * v < 256 * (level + 1)
  {
    hide CheckFreq, EnvLevel, Pow2;
    Scales(EnvLevel(r.env[x]), if x == 0 then s.square1 else s.square2);
  }

  lemma Scales(level: nat, volume: Volume)
    ensures 256 * Scaled(level, volume) <= level * volume < 256 * (Scaled(level, volume) + 1)
    ensures Scaled(level, volume) * SQ / SQ == Scaled(level, volume)
  {
  }

  /** A write to $4003 or $4007 makes the duty begin anew at the next step. */
  lemma DutyRestarts(ph: seq<Phase>, a: nat, c: Config)
    requires |ph| == 5 && (a == 3 || a == 7) && c.Square?
    ensures var ph', x := Restart(ph, a), if a == 3 then 0 else 1;
      && Following(c, ph'[x].step) == 0 && ph'[x].wl == ph[x].wl
      && forall y :: 0 <= y < 5 && y != x ==> ph'[y] == ph[y]
  {
  }

  /** Lengths and periods change at even frame steps only. */
  lemma OddFrames(r: Regs, v: nat)
    requires Shaped(r) && v % 2 == 1
    ensures Frame(r, v).lengthcount == r.lengthcount && Frame(r, v).curfreq == r.curfreq
    ensures Frame(r, v) == QuarterFrame(r) && Frame(r, v + 1) == QuarterFrame(HalfFrame(r))
  {
    hide HalfFrame, Decayed;
  }

  /** The samples a flush keeps are the last ones of the period, converted, and the rest of the buffer is silent. */
  lemma LeftoverMoves(e: Eager, left: nat, i: nat)
    requires EagerOk(e) && left <= e.now && e.now > e.base && i < |e.wave|
    ensures EagerFlush(e, left).base == EagerFlush(e, left).now == left
    ensures var from := e.now - left + i;
      EagerFlush(e, left).wave[i]
      == if i >= left then 0 else if from >= e.base then Converted(e.wave[from]) else e.wave[from]
  {
    hide Converted;
  }

  /** A sample of squares a and other channels b converts by the two tables. */
  lemma FieldsConvert(a: nat, b: nat)
    requires b < 256
    ensures Converted(a * SQ + b * WORD) == Lookup1(a) + Lookup2(b)
  {
    hide Lookup1, Lookup2;
    assert (a * SQ + b * WORD) / WORD == a * 256 + b && (a * SQ + b * WORD) / SQ == a;
  }

  /** The noise register of every run from power-on is never zero. */
  lemma {:induction false} NoiseNeverStops(e: Eager, s: Settings, evs: seq<Event>)
    requires EagerOk(e) && Runs(e.now, e.base, |e.wave|, evs) && 0 < e.ph[3].step < 0x8000
    ensures 0 < EagerRun(e, s, evs).ph[3].step < 0x8000
    decreases |evs|
  {
    if evs != [] {
      hide EagerStep, ConfigOf;
      EagerClock(e, s, evs[0]);
      NoiseKept(e, s, evs[0]);
      NoiseNeverStops(EagerStep(e, s, evs[0]), s, evs[1..]);
    }
  }

  lemma NoiseKept(e: Eager, s: Settings, ev: Event)
    requires EagerOk(e) && Enabled(e.now, |e.wave|, ev) && 0 < e.ph[3].step < 0x8000
    ensures 0 < EagerStep(e, s, ev).ph[3].step < 0x8000
  {
    hide EagerFlush, EagerDelta, WritePsg, WriteStatus, Frame, Mixed;
    if ev == Tick {
      var c := ConfigOf(e.r, s, 3);
      assert c.Noise?;
      NoiseLives(c.amp, c.tap, c.reload, e.ph[3], 1);
      assert PhaseAt(c, e.ph[3], 1) == PhaseAt(c, Next(c, e.ph[3]), 0);
    } else if ev.Flush? {
      FlushKeepsPhases(e, ev.left);
    } else if ev.Delta? {
      DeltaKeepsPhases(e, s, ev.up, ev.back);
    }
  }

  lemma FlushKeepsPhases(e: Eager, left: nat)
    requires EagerOk(e) && left <= e.now
    ensures EagerFlush(e, left).ph == e.ph
  {
  }

  lemma DeltaKeepsPhases(e: Eager, s: Settings, up: bool, back: nat)
    requires EagerOk(e) && back <= e.now
    ensures EagerDelta(e, s, up, back).ph == e.ph
  {
  }

  /** At power-on it holds 1. */
  lemma NoiseStarts(size: nat, latch: nat, s: Settings, evs: seq<Event>)
    requires Runs(0, 0, size, evs)
    ensures 0 < EagerRun(Abs(Start(size, latch), s), s, evs).ph[3].step < 0x8000
  {
    var m := Start(size, latch);
    assert Abs(m, s).ph[3] == PhaseAt(ConfigOf(m.r, s, 3), Phase(1, 2048), 0);
    NoiseNeverStops(Abs(m, s), s, evs);
  }
}
