/** The delta-modulated sample channel: its memory reader, its shift register and the times at
    which its bits come out. */
module SampleChannels {
  import opened Basics
  import opened SoundSpec
  import opened SoundLazy
  import opened SoundRun

  /** acc: cycles to the next bit; size and address: what is left to read; irq: the channel's
      interrupt flag. */
  datatype Dmc = Dmc(acc: int, period: nat, bitCount: nat, shift: nat, size: nat, address: nat, format: Byte,
                     addressLatch: Byte, sizeLatch: Byte, irq: bool, haveDma: bool, buffer: Byte, haveSample: bool)

  const NTSC_DMC: seq<nat> := [428, 380, 340, 320, 286, 254, 226, 214, 190, 160, 142, 128, 106, 84, 72, 54]
  const PAL_DMC: seq<nat> := [398, 354, 316, 298, 276, 236, 210, 198, 176, 148, 132, 118, 98, 78, 66, 50]

  function BitPeriod(s: Settings, k: nat): (p: nat)
    requires k < 16
    ensures p >= 50
  {
    if s.pal then PAL_DMC[k] else NTSC_DMC[k]
  }

  predicate DmcOk(d: Dmc) { d.acc > 0 && d.period >= 50 && d.bitCount < 8 && d.shift < 256 }

  function ResetDmc(s: Settings): Dmc {
    Dmc(1, BitPeriod(s, 0), 0, 0, 0, 0, 0, 0, 0, false, false, 0, false)
  }

  function Prepared(d: Dmc): Dmc { d.(address := 0x4000 + d.addressLatch * 64, size := d.sizeLatch * 16 + 1) }

  /** $4015 starts the sample unless it is playing, or stops it, and clears its interrupt. */
  function Switched(d: Dmc, v: Byte): Dmc {
    (if v / 16 % 2 == 0 then d.(size := 0) else if d.size == 0 then Prepared(d) else d).(irq := false)
  }

  /** $4010: a write that turns the interrupt off also takes it back. */
  function Formatted(d: Dmc, s: Settings, v: Byte): Dmc {
    d.(period := BitPeriod(s, v % 16), format := v, irq := d.irq && v >= 128)
  }

  /** A byte b has been read from memory; at the end the sample starts again or raises its interrupt. */
  function Fetched(d: Dmc, b: Byte): Dmc
    requires d.size > 0
  {
    var w := d.(buffer := b, haveDma := true, address := (d.address + 1) % 0x8000, size := d.size - 1);
    if w.size > 0 then w else if d.format / 64 % 2 == 1 then Prepared(w) else w.(irq := true)
  }

  /** Behind the eighth bit the next byte is taken over, if there is one. */
  function Tested(d: Dmc): Dmc {
    if d.bitCount != 0 then d
    else if !d.haveDma then d.(haveSample := false)
    else d.(haveSample := true, shift := d.buffer, haveDma := false)
  }

  /** A bit has come out. */
  function NextBit(d: Dmc): Dmc {
    Tested(d.(acc := d.acc + d.period, bitCount := (d.bitCount + 1) % 8, shift := d.shift / 2))
  }

  /** The bits that are due, oldest first. */
  function Play(d: Dmc): (r: (Dmc, seq<Event>))
    requires d.period > 0
    ensures r.0.period == d.period && forall i :: 0 <= i < |r.1| ==> r.1[i].Delta?
    decreases if d.acc > 0 then 0 else 1 - d.acc
  {
    if d.acc > 0 then (d, [])
    else
      var r := Play(NextBit(d));
      (r.0, (if d.haveSample then [Delta(d.shift % 2 == 1, -d.acc)] else []) + r.1)
  }

  /** The bits of one hook call come in the order of their times, none later than the call and
      none before the cycles it accounts for. */
  lemma {:induction false} PlayBacks(d: Dmc, cycles: nat)
    requires d.period > 0 && d.acc + cycles > 0
    ensures var r := Play(d);
      && r.0.acc > 0
      && (forall i :: 0 <= i < |r.1| ==> r.1[i].Delta? && r.1[i].back < cycles && r.1[i].back <= -d.acc)
      && (forall i, j :: 0 <= i < j < |r.1| ==> r.1[j].back < r.1[i].back)
    decreases if d.acc > 0 then 0 else 1 - d.acc
  {
    if d.acc <= 0 {
      PlayBacks(NextBit(d), cycles);
      var rest, all := Play(NextBit(d)).1, Play(d).1;
      assert d.haveSample ==> forall i :: 1 <= i < |all| ==> all[i] == rest[i - 1];
    }
  }

  lemma {:induction false} PlayOk(d: Dmc)
    requires DmcOk(d.(acc := 1))
    ensures DmcOk(Play(d).0)
    decreases if d.acc > 0 then 0 else 1 - d.acc
  {
    if d.acc <= 0 {
      PlayOk(NextBit(d));
    }
  }

  lemma {:induction false} DeltasRun(now: nat, base: nat, size: nat, evs: seq<Event>)
    requires forall i :: 0 <= i < |evs| ==> evs[i].Delta? && evs[i].back <= now
    ensures Runs(now, base, size, evs)
    decreases |evs|
  {
    if evs != [] {
      DeltasRun(now, base, size, evs[1..]);
    }
  }

  /** The bits of one call are on time if and only if the first one is, and they make no sample be
      rendered twice if and only if the first one does not. */
  lemma {:induction false} FirstDecides(c: Clock, evs: seq<Event>)
    requires forall i :: 0 <= i < |evs| ==> evs[i].Delta? && evs[i].back <= c.now
    requires forall i, j :: 0 <= i < j < |evs| ==> evs[j].back < evs[i].back
    ensures Timely(c, evs) <==> evs == [] || OnTime(c.now, c.pcm, evs[0])
    ensures NoDouble(c, evs) <==> evs == [] || !Doubles(c, evs[0])
    decreases |evs|
  {
    if evs != [] {
      FirstDecides(ClockStep(c, evs[0]), evs[1..]);
      assert |evs| > 1 ==> evs[1].back < evs[0].back;
    }
  }

  /** One round of the loop takes the first of the bits still to come. */
  lemma PlayNext(m: Lazy, s: Settings, d: Dmc)
    requires LazyOk(m) && d.period > 0 && d.acc <= 0 && Runs(m.now, m.base, |m.wave|, Play(d).1)
    ensures Play(NextBit(d)).0 == Play(d).0
    ensures d.haveSample ==> -d.acc <= m.now
    ensures var w := if d.haveSample then LazyDelta(m, s, d.shift % 2 == 1, -d.acc) else m;
      && w.now == m.now && w.base == m.base && |w.wave| == |m.wave|
      && Runs(w.now, w.base, |w.wave|, Play(NextBit(d)).1)
      && Run(w, s, Play(NextBit(d)).1) == Run(m, s, Play(d).1)
  {
    hide NextBit, LazyDelta;
    var rest, all := Play(NextBit(d)).1, Play(d).1;
    if d.haveSample {
      assert all[0] == Delta(d.shift % 2 == 1, -d.acc) && all[1..] == rest;
      StepClock(m, s, all[0]);
    } else {
      assert all == rest;
    }
  }

  lemma PlayDone(m: Lazy, s: Settings, d: Dmc)
    requires LazyOk(m) && d.period > 0 && d.acc > 0
    ensures Play(d) == (d, []) && Run(m, s, []) == m
  {
  }

  /** So playing is safe exactly if the channel's cursor is not beyond the first bit that comes out. */
  lemma HookExactly(d: Dmc, cycles: nat, c: Clock)
    requires d.period > 0 && d.acc + cycles > 0 && cycles <= c.now
    ensures NoDouble(c, Play(d).1) <==> Play(d).1 == [] || Max(c.base, c.now - Play(d).1[0].back) >= c.pcm
  {
    hide Play, NoDouble, Timely;
    PlayBacks(d, cycles);
    FirstDecides(c, Play(d).1);
  }
}
