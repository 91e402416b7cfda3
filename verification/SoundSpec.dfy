/** The five sound channels of the NES, one sample at a time, and the registers
    they are controlled by. */
module SoundSpec {
  import opened Basics

  const WORD: nat := 0x1_0000
  const SQ: nat := 0x100_0000

  type Volume = v: nat | v <= 256 witness 256

  datatype Settings = Settings(square1: Volume, square2: Volume, triangle: Volume, noise: Volume, pcm: Volume,
                               pal: bool, swapDuty: bool)

  datatype Env = Env(speed: nat, mode: nat, decCountTo1: nat, decvolume: nat, reload: bool)

  datatype Regs = Regs(psg: seq<nat>, env: seq<Env>, lengthcount: seq<nat>, curfreq: seq<nat>,
                       sweepOn: seq<bool>, sweepCount: seq<nat>, sweepReload: seq<bool>,
                       triCount: nat, triMode: bool, enabled: nat, latch: nat)

  predicate Shaped(r: Regs) {
    && |r.psg| == 16 && |r.env| == 3 && |r.lengthcount| == 4 && |r.curfreq| == 2
    && |r.sweepOn| == 2 && |r.sweepCount| == 2 && |r.sweepReload| == 2
  }

  predicate EnvOk(e: Env) { e.speed <= 15 && e.decvolume <= 15 }

  predicate RegsOk(r: Regs) {
    && Shaped(r)
    && (forall i :: 0 <= i < 16 ==> r.psg[i] < 256)
    && EnvOk(r.env[0]) && EnvOk(r.env[1]) && EnvOk(r.env[2])
    && r.curfreq[0] < 0x800 && r.curfreq[1] < 0x800
    && r.latch < 128
  }

  type Byte = b: int | 0 <= b < 256

  // ----- what a channel needs to know of the registers

  datatype Config =
    | Square(audible: bool, amp: nat, rthresh: nat, reload: nat)
    | Triangle(running: bool, volume: nat, reload: nat)
    | Noise(amp: nat, tap: nat, reload: nat)
    | Pcm(level: nat)

  function Scaled(amp: nat, volume: nat): nat { if volume != 256 then amp * volume / 256 else amp }

  function EnvLevel(e: Env): nat { if e.mode % 2 == 1 then e.speed else e.decvolume }

  function RectDuty(k: nat): nat { if k == 0 then 1 else if k == 1 then 2 else if k == 2 then 4 else 6 }

  /** The sweep unit silences a channel whose next period would leave 11 bits. */
  predicate CheckFreq(cf: nat, sr: nat) { sr / 8 % 2 == 1 || (cf / Pow2(sr % 8) + cf) / 0x800 % 2 == 0 }

  const NTSC_NOISE: seq<nat> := [4, 8, 16, 32, 64, 96, 128, 160, 202, 254, 380, 508, 762, 1016, 2034, 4068]
  const PAL_NOISE: seq<nat> := [4, 7, 14, 30, 60, 88, 118, 148, 188, 236, 354, 472, 708, 944, 1890, 3778]

  function NoisePeriod(s: Settings, k: nat): (p: nat)
    requires k < 16
    ensures p > 0
  {
    if s.pal then PAL_NOISE[k] else NTSC_NOISE[k]
  }

  function SquareConfig(r: Regs, s: Settings, x: nat): Config
    requires Shaped(r) && x < 2
  {
    var cf := r.curfreq[x];
    if cf < 8 || cf > 0x7ff || !CheckFreq(cf, r.psg[4 * x + 1]) || r.lengthcount[x] == 0 then Square(false, 0, 0, 1)
    else Square(true, Scaled(EnvLevel(r.env[x]), if x == 0 then s.square1 else s.square2) * SQ,
                RectDuty(r.psg[4 * x] / 64 % 4), (cf + 1) * 2)
  }

  /** Channel c under the present registers. */
  function ConfigOf(r: Regs, s: Settings, c: nat): Config
    requires Shaped(r) && c < 5
  {
    if c < 2 then SquareConfig(r, s, c)
    else if c == 2 then Triangle(r.lengthcount[2] != 0 && r.triCount != 0, s.triangle,
                                 r.psg[0xa] + r.psg[0xb] % 8 * 256 + 1)
    else if c == 3 then Noise(if r.lengthcount[3] == 0 then 0 else Scaled(EnvLevel(r.env[2]), s.noise) * WORD * 2,
                              if r.psg[0xe] / 128 % 2 == 1 then 8 else 13, NoisePeriod(s, r.psg[0xe] % 16))
    else Pcm(PcmLevel(r, s))
  }

  /** The sample channel puts out its latch. */
  function PcmLevel(r: Regs, s: Settings): nat { r.latch * WORD / 256 * s.pcm / WORD * WORD }

  /** How far into its waveform a channel is: duty step, triangle step or shift
      register, and the cycles up to the next step. */
  datatype Phase = Phase(step: nat, wl: int)

  function TriLevel(step: nat): nat { if step / 16 % 2 == 1 then step % 16 else 15 - step % 16 }

  /** What the channel adds to a sample. */
  function Sample(c: Config, p: Phase): nat {
    match c
    case Square(audible, amp, rthresh, _) => if audible && p.step < rthresh then amp else 0
    case Triangle(_, volume, _) => TriLevel(p.step) * 3 * WORD / 256 * volume / WORD * WORD
    case Noise(amp, _, _) => if p.step / 0x4000 % 2 == 0 then amp else 0
    case Pcm(level) => level
  }

  /** Linear feedback over 15 bits. */
  function Shifted(nreg: nat, tap: nat): nat
    requires tap == 8 || tap == 13
  {
    var feedback := (nreg / (if tap == 8 then 0x100 else 0x2000) + nreg / 0x4000) % 2;
    (nreg * 2 + feedback) % 0x8000
  }

  predicate Tapped(c: Config) { c.Noise? ==> c.tap == 8 || c.tap == 13 }

  /** The phase one sample later. */
  function Next(c: Config, p: Phase): Phase
    requires Tapped(c)
  {
    match c
    case Square(audible, _, _, reload) =>
      if !audible then p else if p.wl == 1 then Phase((p.step + 1) % 8, reload) else Phase(p.step, p.wl - 1)
    case Triangle(running, _, reload) =>
      if !running then p else if p.wl == 1 then Phase(p.step + 1, reload) else Phase(p.step, p.wl - 1)
    case Noise(_, tap, reload) => if p.wl == 1 then Phase(Shifted(p.step, tap), reload) else Phase(p.step, p.wl - 1)
    case Pcm(_) => p
  }

  function PhaseAt(c: Config, p: Phase, k: nat): Phase
    requires Tapped(c)
    decreases k
  {
    if k == 0 then p else PhaseAt(c, Next(c, p), k - 1)
  }

  lemma {:induction false} PhaseAdd(c: Config, p: Phase, j: nat, k: nat)
    requires Tapped(c)
    ensures PhaseAt(c, p, j + k) == PhaseAt(c, PhaseAt(c, p, j), k)
    decreases j
  {
    if j > 0 {
      PhaseAdd(c, Next(c, p), j - 1, k);
    }
  }

  lemma PhaseSnoc(c: Config, p: Phase, k: nat)
    requires Tapped(c)
    ensures PhaseAt(c, p, k + 1) == Next(c, PhaseAt(c, p, k))
  {
    PhaseAdd(c, p, k, 1);
    assert PhaseAt(c, PhaseAt(c, p, k), 1) == PhaseAt(c, Next(c, PhaseAt(c, p, k)), 0);
  }

  // ----- register writes

  const LENGTHS: seq<nat> := [10, 254, 20, 2, 40, 4, 80, 6, 160, 8, 60, 10, 14, 12, 26, 14,
                              12, 16, 24, 18, 48, 20, 96, 22, 192, 24, 72, 26, 16, 28, 32, 30]

  function Loaded(r: Regs, x: nat, v: Byte): (ls: seq<nat>)
    requires Shaped(r) && x < 4
    ensures |ls| == 4
  {
    if r.enabled / Pow2(x) % 2 == 1 then r.lengthcount[x := LENGTHS[v / 8 % 32]] else r.lengthcount
  }

  function Swapped(v: Byte): (w: Byte) { v % 64 + v / 128 * 64 + v / 64 % 2 * 128 }

  /** $4000-$400F. */
  function WritePsg(r: Regs, s: Settings, a: nat, v: Byte): (r': Regs)
    requires Shaped(r) && a < 16
    ensures Shaped(r')
  {
    var x := a / 4;
    var stored := if (a == 0 || a == 4) && s.swapDuty then Swapped(v) else v;
    var w :=
      if a == 0 || a == 4 || a == 0xc
      then
        var y := if a == 0xc then 2 else x;
        r.(env := r.env[y := r.env[y].(mode := v / 16 % 4, speed := v % 16)])
      else if a == 1 || a == 5 then r.(sweepOn := r.sweepOn[x := v >= 128], sweepReload := r.sweepReload[x := true])
      else if a == 2 || a == 6 then r.(curfreq := r.curfreq[x := r.curfreq[x] / 256 * 256 + v])
      else if a == 3 || a == 7 then r.(lengthcount := Loaded(r, x, v),
                                       curfreq := r.curfreq[x := r.curfreq[x] % 256 + v % 8 * 256],
                                       env := r.env[x := r.env[x].(reload := true)])
      else if a == 0xb then r.(lengthcount := Loaded(r, 2, v), triMode := true)
      else if a == 0xf then r.(lengthcount := Loaded(r, 3, v), env := r.env[2 := r.env[2].(reload := true)])
      else r;
    w.(psg := w.psg[a := stored])
  }

  /** $4015. */
  function WriteStatus(r: Regs, v: Byte): (r': Regs)
    requires Shaped(r)
    ensures Shaped(r')
  {
    r.(lengthcount := seq(4, x requires 0 <= x < 4 => if v / Pow2(x) % 2 == 0 then 0 else r.lengthcount[x]),
       enabled := v % 32)
  }

  // ----- the frame sequencer

  function Pred(n: nat): nat { if n > 0 then n - 1 else n }

  /** The length counters, halted by a flag of their channel. */
  function Counted(r: Regs, x: nat): nat
    requires Shaped(r) && x < 4
  {
    var halted := if x == 2 then r.psg[8] / 128 % 2 == 1 else r.psg[4 * x] / 32 % 2 == 1;
    if halted then r.lengthcount[x] else Pred(r.lengthcount[x])
  }

  function SweepPeriod(r: Regs, x: nat): nat
    requires Shaped(r) && x < 2
  {
    r.psg[4 * x + 1] / 16 % 8 + 1
  }

  /** The period after the sweep unit has acted on it. */
  function SweptFreq(r: Regs, x: nat): nat
    requires Shaped(r) && x < 2
  {
    var shift, cf := r.psg[4 * x + 1] % 8, r.curfreq[x];
    var mod := cf / Pow2(shift);
    if Pred(r.sweepCount[x]) > 0 || !r.sweepOn[x] || shift == 0 || cf < 8 then cf
    else if r.psg[4 * x + 1] / 8 % 2 == 1 then
      SweepStays(cf, shift, x);
      cf - (mod + 1 - x)
    else if mod + cf < 0x800 then cf + mod
    else cf
  }

  /** Lowering a period of at least 8 never takes it below zero. */
  lemma SweepStays(cf: nat, shift: nat, x: nat)
    requires cf >= 8 && shift >= 1 && x < 2
    ensures cf / Pow2(shift) + 1 - x <= cf
  {
    assert Pow2(shift) == 2 * Pow2(shift - 1) >= 2;
    Halved(cf, Pow2(shift));
  }

  lemma Halved(n: nat, d: nat)
    requires d >= 2
    ensures n / d <= n / 2
  {
    var q := n / d;
    assert n == d * q + n % d;
    assert d * q >= 2 * q;
  }

  function SweptCount(r: Regs, x: nat): nat
    requires Shaped(r) && x < 2
  {
    if Pred(r.sweepCount[x]) == 0 || r.sweepReload[x] then SweepPeriod(r, x) else Pred(r.sweepCount[x])
  }

  /** Envelope decay. */
  function Decayed(e: Env): Env {
    if e.reload then e.(decvolume := 15, decCountTo1 := e.speed + 1, reload := false)
    else if Pred(e.decCountTo1) == 0 then
      e.(decCountTo1 := e.speed + 1,
         decvolume := if e.decvolume != 0 || e.mode / 2 % 2 == 1 then (e.decvolume + 15) % 16 else e.decvolume)
    else e.(decCountTo1 := Pred(e.decCountTo1))
  }

  /** FrameSoundStuff: even steps count lengths and sweep, every step runs the
      linear counter and the envelopes. */
  function HalfFrame(r: Regs): (r': Regs)
    requires Shaped(r)
    ensures Shaped(r')
  {
    r.(lengthcount := [Counted(r, 0), Counted(r, 1), Counted(r, 2), Counted(r, 3)],
       curfreq := [SweptFreq(r, 0), SweptFreq(r, 1)],
       sweepCount := [SweptCount(r, 0), SweptCount(r, 1)],
       sweepReload := [false, false])
  }

  function QuarterFrame(r: Regs): (r': Regs)
    requires Shaped(r)
    ensures Shaped(r')
  {
    r.(triCount := if r.triMode then r.psg[8] % 128 else Pred(r.triCount),
       triMode := r.triMode && r.psg[8] / 128 % 2 == 1,
       env := [Decayed(r.env[0]), Decayed(r.env[1]), Decayed(r.env[2])])
  }

  function Frame(r: Regs, v: nat): (r': Regs)
    requires Shaped(r)
    ensures Shaped(r')
  {
    QuarterFrame(if v % 2 == 0 then HalfFrame(r) else r)
  }

  /** A bit of delta-modulated sound moves the latch by two, inside 7 bits. */
  function DeltaLatch(latch: nat, up: bool): nat {
    var t := (if up then latch + 2 else latch + 254) % 256;
    if t >= 128 then latch else t
  }

  // ----- bounds

  /** The largest multiple of 0x10000 channel c contributes is its share; squares count in 0x1000000. */
  function Unit(c: nat): nat { if c < 2 then SQ else WORD }

  function Share(c: nat): nat { if c < 2 then 15 else if c == 2 then 45 else if c == 3 then 30 else 127 }

  lemma ScaledBound(amp: nat, volume: Volume)
    ensures Scaled(amp, volume) <= amp
  {
    assert amp * volume <= amp * 256;
  }

  lemma CutBound(level: nat, volume: Volume)
    ensures level * WORD / 256 * volume / WORD * WORD == level * volume / 256 * WORD
    ensures level * volume / 256 <= level
  {
    assert level * WORD / 256 == level * 256;
    assert level * 256 * volume == 256 * (level * volume);
    assert 256 * (level * volume) / WORD == level * volume / 256;
    ScaledBound(level, volume);
  }

  lemma SquareBound(r: Regs, s: Settings, c: nat, p: Phase) returns (level: nat)
    requires RegsOk(r) && c < 2
    ensures Sample(ConfigOf(r, s, c), p) == level * SQ && level <= 15
  {
    hide CheckFreq, RectDuty, Scaled;
    ScaledBound(EnvLevel(r.env[c]), if c == 0 then s.square1 else s.square2);
    level := if Sample(ConfigOf(r, s, c), p) == 0 then 0
             else Scaled(EnvLevel(r.env[c]), if c == 0 then s.square1 else s.square2);
  }

  lemma TriangleBound(r: Regs, s: Settings, p: Phase) returns (level: nat)
    requires RegsOk(r)
    ensures Sample(ConfigOf(r, s, 2), p) == level * WORD && level <= 45
  {
    CutBound(TriLevel(p.step) * 3, s.triangle);
    level := TriLevel(p.step) * 3 * s.triangle / 256;
  }

  lemma NoiseBound(r: Regs, s: Settings, p: Phase) returns (level: nat)
    requires RegsOk(r)
    ensures Sample(ConfigOf(r, s, 3), p) == level * WORD && level <= 30
  {
    hide NoisePeriod, Scaled;
    ScaledBound(EnvLevel(r.env[2]), s.noise);
    level := if Sample(ConfigOf(r, s, 3), p) == 0 then 0 else 2 * Scaled(EnvLevel(r.env[2]), s.noise);
  }

  lemma PcmBound(r: Regs, s: Settings, p: Phase) returns (level: nat)
    requires RegsOk(r)
    ensures Sample(ConfigOf(r, s, 4), p) == level * WORD && level <= 127
  {
    CutBound(r.latch, s.pcm);
    level := r.latch * s.pcm / 256;
  }

  /** No channel exceeds its share, and all are whole units. */
  lemma SampleBound(r: Regs, s: Settings, c: nat, p: Phase) returns (level: nat)
    requires RegsOk(r) && c < 5
    ensures Sample(ConfigOf(r, s, c), p) == level * Unit(c) && level <= Share(c)
  {
    hide ConfigOf, Sample;
    if c < 2 {
      level := SquareBound(r, s, c, p);
    } else if c == 2 {
      level := TriangleBound(r, s, p);
    } else if c == 3 {
      level := NoiseBound(r, s, p);
    } else {
      level := PcmBound(r, s, p);
    }
  }
}
