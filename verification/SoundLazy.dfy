/** Channels are rendered lazily, up to the present whenever something is about to
    change them. The result is what rendering every channel at every sample gives. */
module SoundLazy {
  import opened SoundSpec

  // ----- eager: every channel, every sample

  /** base: where the samples of this flush period begin. */
  datatype Eager = Eager(r: Regs, ph: seq<Phase>, wave: seq<nat>, base: nat, now: nat)

  predicate EagerOk(e: Eager) { Shaped(e.r) && |e.ph| == 5 && e.base <= e.now <= |e.wave| }

  function Mixed(r: Regs, s: Settings, ph: seq<Phase>): nat
    requires Shaped(r) && |ph| == 5
  {
    Sample(ConfigOf(r, s, 0), ph[0]) + Sample(ConfigOf(r, s, 1), ph[1]) + Sample(ConfigOf(r, s, 2), ph[2])
    + Sample(ConfigOf(r, s, 3), ph[3]) + Sample(ConfigOf(r, s, 4), ph[4])
  }

  function EagerTick(e: Eager, s: Settings): (e': Eager)
    requires EagerOk(e) && e.now < |e.wave|
    ensures EagerOk(e')
  {
    e.(wave := e.wave[e.now := e.wave[e.now] + Mixed(e.r, s, e.ph)], now := e.now + 1,
       ph := seq(5, c requires 0 <= c < 5 => Next(ConfigOf(e.r, s, c), e.ph[c])))
  }

  // ----- lazy: one cursor per channel

  datatype Lazy = Lazy(r: Regs, ph: seq<Phase>, cur: seq<nat>, wave: seq<nat>, base: nat, now: nat)

  predicate LazyOk(m: Lazy) {
    && Shaped(m.r) && |m.ph| == 5 && |m.cur| == 5 && m.base <= m.now <= |m.wave|
    && forall c :: 0 <= c < 5 ==> m.cur[c] <= m.now
  }

  function SampleAt(c: Config, p: Phase, k: nat): nat
    requires Tapped(c)
  {
    Sample(c, PhaseAt(c, p, k))
  }

  /** What channel c still owes to sample i. */
  function Pending(m: Lazy, s: Settings, c: nat, i: nat): nat
    requires LazyOk(m) && c < 5
  {
    if m.cur[c] <= i < m.now then SampleAt(ConfigOf(m.r, s, c), m.ph[c], i - m.cur[c]) else 0
  }

  function Owed(m: Lazy, s: Settings, i: nat): nat
    requires LazyOk(m)
  {
    Pending(m, s, 0, i) + Pending(m, s, 1, i) + Pending(m, s, 2, i) + Pending(m, s, 3, i) + Pending(m, s, 4, i)
  }

  function PhaseNow(m: Lazy, s: Settings, c: nat): Phase
    requires LazyOk(m) && c < 5
  {
    PhaseAt(ConfigOf(m.r, s, c), m.ph[c], m.now - m.cur[c])
  }

  /** Renders channel c up to the present. */
  function CatchUp(m: Lazy, s: Settings, c: nat): (m': Lazy)
    requires LazyOk(m) && c < 5
    ensures LazyOk(m') && |m'.wave| == |m.wave| && m'.cur == m.cur[c := m.now]
    ensures m'.r == m.r && m'.base == m.base && m'.now == m.now
  {
    m.(wave := seq(|m.wave|, i requires 0 <= i < |m.wave| => m.wave[i] + Pending(m, s, c, i)),
       ph := m.ph[c := PhaseNow(m, s, c)],
       cur := m.cur[c := m.now])
  }

  /** The eager state a lazy one stands for. */
  function Abs(m: Lazy, s: Settings): (e: Eager)
    requires LazyOk(m)
    ensures EagerOk(e) && e.r == m.r && e.base == m.base && e.now == m.now && |e.wave| == |m.wave|
  {
    Eager(m.r, seq(5, c requires 0 <= c < 5 => PhaseNow(m, s, c)),
          seq(|m.wave|, i requires 0 <= i < |m.wave| => m.wave[i] + Owed(m, s, i)), m.base, m.now)
  }

  /** Catching up is invisible. */
  lemma CatchUpAbs(m: Lazy, s: Settings, c: nat)
    requires LazyOk(m) && c < 5
    ensures Abs(CatchUp(m, s, c), s) == Abs(m, s)
  {
    var m' := CatchUp(m, s, c);
    forall i | 0 <= i < |m.wave|
      ensures m'.wave[i] + Owed(m', s, i) == m.wave[i] + Owed(m, s, i)
    {
      assert m'.wave[i] == m.wave[i] + Pending(m, s, c, i);
      assert Pending(m', s, c, i) == 0;
      assert forall d :: 0 <= d < 5 && d != c ==> Pending(m', s, d, i) == Pending(m, s, d, i);
    }
    forall d | 0 <= d < 5
      ensures PhaseNow(m', s, d) == PhaseNow(m, s, d)
    {
    }
    assert Abs(m', s).wave == Abs(m, s).wave;
    assert Abs(m', s).ph == Abs(m, s).ph;
  }

  /** Time passing does nothing but let every channel owe one sample more. */
  lemma TickAbs(m: Lazy, s: Settings)
    requires LazyOk(m) && m.now < |m.wave|
    ensures Abs(m.(now := m.now + 1), s) == EagerTick(Abs(m, s), s)
  {
    var m', e := m.(now := m.now + 1), Abs(m, s);
    forall c | 0 <= c < 5
      ensures PhaseNow(m', s, c) == Next(ConfigOf(m.r, s, c), PhaseNow(m, s, c))
    {
      PhaseSnoc(ConfigOf(m.r, s, c), m.ph[c], m.now - m.cur[c]);
    }
    assert Abs(m', s).ph == EagerTick(e, s).ph;
    forall i | 0 <= i < |m.wave|
      ensures Abs(m', s).wave[i] == EagerTick(e, s).wave[i]
    {
      TickOwed(m, s, i);
      hide Mixed, Owed;
    }
    assert Abs(m', s).wave == EagerTick(e, s).wave;
  }

  lemma TickOwed(m: Lazy, s: Settings, i: nat)
    requires LazyOk(m) && m.now < |m.wave|
    ensures Owed(m.(now := m.now + 1), s, i) == Owed(m, s, i) + if i == m.now then Mixed(m.r, s, Abs(m, s).ph) else 0
  {
    hide ConfigOf, Sample;
    forall c | 0 <= c < 5
      ensures Pending(m.(now := m.now + 1), s, c, i)
              == Pending(m, s, c, i) + if i == m.now then Sample(ConfigOf(m.r, s, c), Abs(m, s).ph[c]) else 0
    {
    }
  }

  // ----- the discipline: catch up what the change can be heard in

  predicate CaughtUp(m: Lazy, c: nat)
    requires |m.cur| == 5 && c < 5
  {
    m.cur[c] == m.now
  }

  /** Channel c is caught up, or notices nothing of the change. */
  predicate Unheard(m: Lazy, s: Settings, r: Regs, ph: seq<Phase>, c: nat)
    requires LazyOk(m) && Shaped(r) && |ph| == 5 && c < 5
  {
    m.cur[c] == m.now || (ConfigOf(r, s, c) == ConfigOf(m.r, s, c) && ph[c] == m.ph[c])
  }

  /** Under the discipline, changing registers (and phases) of the lazy machine
      changes the eager state it stands for in the same way. */
  lemma ChangeAbs(m: Lazy, s: Settings, r: Regs, ph: seq<Phase>)
    requires LazyOk(m) && Shaped(r) && |ph| == 5
    requires forall c :: 0 <= c < 5 ==> Unheard(m, s, r, ph, c)
    ensures var e, e' := Abs(m, s), Abs(m.(r := r, ph := ph), s);
            && e'.r == r && e'.wave == e.wave && e'.base == e.base && e'.now == e.now
            && forall c :: 0 <= c < 5 ==> e'.ph[c] == if CaughtUp(m, c) then ph[c] else e.ph[c]
  {
    var m' := m.(r := r, ph := ph);
    forall c | 0 <= c < 5
      ensures PhaseNow(m', s, c) == if CaughtUp(m, c) then ph[c] else PhaseNow(m, s, c)
      ensures forall i: nat :: Pending(m', s, c, i) == Pending(m, s, c, i)
    {
      assert Unheard(m, s, r, ph, c);
    }
    forall i | 0 <= i < |m.wave|
      ensures Owed(m', s, i) == Owed(m, s, i)
    {
    }
    assert Abs(m', s).wave == Abs(m, s).wave;
  }

  // ----- events

  datatype Event =
    | Tick
    | Catch(c: nat)
    | Psg(a: nat, v: Byte)
    | Latch(v: Byte)
    | Delta(up: bool, back: nat)    // a bit of the sample, `back` cycles ago
    | Status(v: Byte)
    | FrameStep(fcnt: nat)
    | Flush(left: nat)

  /** The square channels' trigger registers restart the duty cycle. */
  function Restart(ph: seq<Phase>, a: nat): (ph': seq<Phase>)
    requires |ph| == 5
    ensures |ph'| == 5
  {
    if a == 3 || a == 7 then ph[a / 4 := ph[a / 4].(step := 7)] else ph
  }

  const HEARD_FIRST: seq<nat> := [0, 0, 0, 0, 1, 1, 1, 1, 5, 5, 2, 2, 3, 5, 3, 3]

  /** Write_PSG renders the channel of the register first; $4008, $4009 and $400D none. */
  function LazyPsg(m: Lazy, s: Settings, a: nat, v: Byte): (m': Lazy)
    requires LazyOk(m) && a < 16
    ensures LazyOk(m')
  {
    var w := if HEARD_FIRST[a] < 5 then CatchUp(m, s, HEARD_FIRST[a]) else m;
    w.(r := WritePsg(w.r, s, a, v), ph := Restart(w.ph, a))
  }

  function CatchAll(m: Lazy, s: Settings): (m': Lazy)
    requires LazyOk(m)
    ensures LazyOk(m') && m'.r == m.r && m'.base == m.base && m'.now == m.now && |m'.wave| == |m.wave|
    ensures forall c :: 0 <= c < 5 ==> m'.cur[c] == m.now
  {
    CatchUp(CatchUp(CatchUp(CatchUp(CatchUp(m, s, 0), s, 1), s, 2), s, 3), s, 4)
  }

  function PcmShare(m: Lazy, s: Settings, to: nat, i: nat): nat
    requires LazyOk(m)
  {
    if m.cur[4] <= i < to then PcmLevel(m.r, s) else 0
  }

  /** The sample channel is rendered up to a time that need not be the present; a cursor
      that was beyond it comes back. */
  function RenderPcm(m: Lazy, s: Settings, to: nat): (m': Lazy)
    requires LazyOk(m) && to <= m.now
    ensures LazyOk(m') && |m'.wave| == |m.wave| && m'.cur == m.cur[4 := to]
    ensures m'.r == m.r && m'.ph == m.ph && m'.base == m.base && m'.now == m.now
  {
    m.(wave := seq(|m.wave|, i requires 0 <= i < |m.wave| => m.wave[i] + PcmShare(m, s, to, i)), cur := m.cur[4 := to])
  }

  function LazyDelta(m: Lazy, s: Settings, up: bool, back: nat): (m': Lazy)
    requires LazyOk(m) && back <= m.now
    ensures LazyOk(m') && |m'.wave| == |m.wave|
  {
    var w := RenderPcm(m, s, m.now - back);
    w.(r := w.r.(latch := DeltaLatch(w.r.latch, up)))
  }

  /** FrameSoundStuff does not touch the sample channel. */
  function LazyFrame(m: Lazy, s: Settings, v: nat): (m': Lazy)
    requires LazyOk(m)
    ensures LazyOk(m')
  {
    var w := CatchUp(CatchUp(CatchUp(CatchUp(m, s, 0), s, 1), s, 3), s, 2);
    w.(r := Frame(w.r, v))
  }

  // ----- flushing

  function Lookup1(x: nat): nat { 1565000 * x / (8128 + 100 * x) }

  function Lookup2(x: nat): nat { 2681569 * x / (24329 + 100 * x) }

  /** The conversion of one packed sample, if its fields index the tables. */
  function Converted(w: nat): nat {
    w % WORD + Lookup2(w / WORD % 256) + Lookup1(w / SQ)
  }

  function FlushedWave(wave: seq<nat>, base: nat, now: nat): (out: seq<nat>)
    requires base <= now <= |wave|
    ensures |out| == |wave|
  {
    seq(|wave|, i requires 0 <= i < |wave| => if base <= i < now then Converted(wave[i]) else wave[i])
  }

  /** The samples the filter leaves over move to the front, and the rest is silent. */
  function Rebased(wave: seq<nat>, from: nat, left: nat): (out: seq<nat>)
    requires from + left <= |wave|
    ensures |out| == |wave|
  {
    seq<nat>(|wave|, i requires 0 <= i < |wave| => if i < left then wave[from + i] else 0)
  }

  function EagerFlush(e: Eager, left: nat): (e': Eager)
    requires EagerOk(e) && left <= e.now
    ensures EagerOk(e')
  {
    if e.now == e.base then e
    else e.(wave := Rebased(FlushedWave(e.wave, e.base, e.now), e.now - left, left), base := left, now := left)
  }

  function LazyFlush(m: Lazy, s: Settings, left: nat): (m': Lazy)
    requires LazyOk(m) && left <= m.now
    ensures LazyOk(m')
  {
    if m.now == m.base then m
    else
      var w := CatchAll(m, s);
      w.(wave := Rebased(FlushedWave(w.wave, w.base, w.now), w.now - left, left), base := left, now := left,
         cur := [left, left, left, left, left])
  }

  // ----- runs

  predicate Enabled(now: nat, size: nat, ev: Event) {
    match ev
    case Tick => now < size
    case Catch(c) => c < 5
    case Psg(a, _) => a < 16
    case Delta(_, back) => back <= now
    case Flush(left) => left <= now
    case _ => true
  }

  /** The samples since then have been heard at the old level and get the new one. */
  function EagerDelta(e: Eager, s: Settings, up: bool, back: nat): (e': Eager)
    requires EagerOk(e) && back <= e.now
    ensures EagerOk(e')
  {
    var r := e.r.(latch := DeltaLatch(e.r.latch, up));
    e.(r := r, wave := seq(|e.wave|, i requires 0 <= i < |e.wave| =>
      if e.now - back <= i < e.now && e.wave[i] >= PcmLevel(e.r, s)
      then e.wave[i] - PcmLevel(e.r, s) + PcmLevel(r, s) else e.wave[i]))
  }

  function EagerStep(e: Eager, s: Settings, ev: Event): (e': Eager)
    requires EagerOk(e) && Enabled(e.now, |e.wave|, ev)
    ensures EagerOk(e')
  {
    match ev
    case Tick => EagerTick(e, s)
    case Catch(_) => e
    case Psg(a, v) => e.(r := WritePsg(e.r, s, a, v), ph := Restart(e.ph, a))
    case Latch(v) => e.(r := e.r.(latch := v % 128))
    case Delta(up, back) => EagerDelta(e, s, up, back)
    case Status(v) => e.(r := WriteStatus(e.r, v))
    case FrameStep(fcnt) => e.(r := Frame(e.r, fcnt))
    case Flush(left) => EagerFlush(e, left)
  }

  function LazyStep(m: Lazy, s: Settings, ev: Event): (m': Lazy)
    requires LazyOk(m) && Enabled(m.now, |m.wave|, ev)
    ensures LazyOk(m')
  {
    match ev
    case Tick => m.(now := m.now + 1)
    case Catch(c) => CatchUp(m, s, c)
    case Psg(a, v) => LazyPsg(m, s, a, v)
    case Latch(v) => var w := CatchUp(m, s, 4); w.(r := w.r.(latch := v % 128))
    case Delta(up, back) => LazyDelta(m, s, up, back)
    case Status(v) => var w := CatchAll(m, s); w.(r := WriteStatus(w.r, v))
    case FrameStep(fcnt) => LazyFrame(m, s, fcnt)
    case Flush(left) => LazyFlush(m, s, left)
  }

  // ----- the lazy machine refines the eager one

  lemma CatchAllAbs(m: Lazy, s: Settings)
    requires LazyOk(m)
    ensures Abs(CatchAll(m, s), s) == Abs(m, s)
    ensures CatchAll(m, s).wave == Abs(m, s).wave && CatchAll(m, s).ph == Abs(m, s).ph
  {
    hide CatchUp, Abs;
    var m1 := CatchUp(m, s, 0);
    var m2 := CatchUp(m1, s, 1);
    var m3 := CatchUp(m2, s, 2);
    var m4 := CatchUp(m3, s, 3);
    var w := CatchUp(m4, s, 4);
    CatchUpAbs(m, s, 0);
    CatchUpAbs(m1, s, 1);
    CatchUpAbs(m2, s, 2);
    CatchUpAbs(m3, s, 3);
    CatchUpAbs(m4, s, 4);
    SettledAbs(w, s);
  }

  /** With nothing pending the two states coincide. */
  lemma SettledAbs(w: Lazy, s: Settings)
    requires LazyOk(w) && forall c :: 0 <= c < 5 ==> CaughtUp(w, c)
    ensures Abs(w, s) == Eager(w.r, w.ph, w.wave, w.base, w.now)
  {
    forall c | 0 <= c < 5
      ensures PhaseNow(w, s, c) == w.ph[c]
      ensures forall i: nat :: Pending(w, s, c, i) == 0
    {
      assert CaughtUp(w, c);
    }
    assert Abs(w, s).ph == w.ph;
    assert Abs(w, s).wave == w.wave;
  }

  lemma PsgAbs(m: Lazy, s: Settings, a: nat, v: Byte)
    requires LazyOk(m) && a < 16
    ensures Abs(LazyPsg(m, s, a, v), s) == EagerStep(Abs(m, s), s, Psg(a, v))
  {
    var x := HEARD_FIRST[a];
    var w := if x < 5 then CatchUp(m, s, x) else m;
    if x < 5 {
      CatchUpAbs(m, s, x);
    }
    assert x < 5 ==> CaughtUp(w, x);
    assert a == 3 ==> x == 0;
    assert a == 7 ==> x == 1;
    WriteAbs(w, s, a, v);
  }

  lemma WriteAbs(w: Lazy, s: Settings, a: nat, v: Byte)
    requires LazyOk(w) && a < 16
    requires HEARD_FIRST[a] < 5 ==> CaughtUp(w, HEARD_FIRST[a])
    ensures Abs(w.(r := WritePsg(w.r, s, a, v), ph := Restart(w.ph, a)), s)
            == Abs(w, s).(r := WritePsg(w.r, s, a, v), ph := Restart(Abs(w, s).ph, a))
  {
    hide ConfigOf, WritePsg;
    var x := HEARD_FIRST[a];
    var r, ph := WritePsg(w.r, s, a, v), Restart(w.ph, a);
    forall c | 0 <= c < 5
      ensures Unheard(w, s, r, ph, c)
    {
      if c != x {
        PsgUnheard(w.r, s, a, v, c);
      }
    }
    ChangeAbs(w, s, r, ph);
    var e := Abs(w, s);
    assert CaughtUp(w, 0) ==> e.ph[0] == w.ph[0];
    assert CaughtUp(w, 1) ==> e.ph[1] == w.ph[1];
    assert Abs(w.(r := r, ph := ph), s).ph == Restart(e.ph, a);
  }

  /** A channel that is not rendered before a register write cannot hear it. */
  lemma PsgUnheard(r: Regs, s: Settings, a: nat, v: Byte, c: nat)
    requires Shaped(r) && a < 16 && c < 5 && c != HEARD_FIRST[a]
    ensures ConfigOf(WritePsg(r, s, a, v), s, c) == ConfigOf(r, s, c)
  {
    hide ConfigOf, WritePsg;
    if a < 8 && c < 2 {
      OtherSquare(r, s, a, v, c);
    } else if a < 8 {
      SquareUnheard(r, s, a, v, c);
    } else {
      OtherUnheard(r, s, a, v, c);
    }
  }

  lemma OtherSquare(r: Regs, s: Settings, a: nat, v: Byte, c: nat)
    requires Shaped(r) && a < 8 && c < 2 && c != a / 4
    ensures ConfigOf(WritePsg(r, s, a, v), s, c) == ConfigOf(r, s, c)
  {
    hide CheckFreq, Scaled, EnvLevel, RectDuty, Swapped, NoisePeriod, PcmLevel;
  }

  lemma SquareUnheard(r: Regs, s: Settings, a: nat, v: Byte, c: nat)
    requires Shaped(r) && a < 8 && 2 <= c < 5
    ensures ConfigOf(WritePsg(r, s, a, v), s, c) == ConfigOf(r, s, c)
  {
    hide CheckFreq, Scaled, EnvLevel, RectDuty, Swapped, NoisePeriod;
  }

  lemma OtherUnheard(r: Regs, s: Settings, a: nat, v: Byte, c: nat)
    requires Shaped(r) && 8 <= a < 16 && c < 5 && c != HEARD_FIRST[a]
    ensures ConfigOf(WritePsg(r, s, a, v), s, c) == ConfigOf(r, s, c)
  {
    hide CheckFreq, Scaled, EnvLevel, RectDuty, Swapped, NoisePeriod;
  }

  lemma LatchAbs(m: Lazy, s: Settings, latch: nat)
    requires LazyOk(m)
    ensures var w := CatchUp(m, s, 4);
            Abs(w.(r := w.r.(latch := latch)), s) == Abs(m, s).(r := m.r.(latch := latch))
  {
    CatchUpAbs(m, s, 4);
    var w := CatchUp(m, s, 4);
    SamePhases(w, s, w.r.(latch := latch));
  }

  lemma SamePhases(w: Lazy, s: Settings, r: Regs)
    requires LazyOk(w) && Shaped(r) && forall c :: 0 <= c < 5 ==> Unheard(w, s, r, w.ph, c)
    ensures Abs(w.(r := r), s) == Abs(w, s).(r := r)
  {
    hide ConfigOf;
    ChangeAbs(w, s, r, w.ph);
    var e := Abs(w, s);
    assert w.(r := r, ph := w.ph) == w.(r := r);
    assert Abs(w.(r := r), s).ph == e.ph;
  }

  lemma StatusAbs(m: Lazy, s: Settings, v: Byte)
    requires LazyOk(m)
    ensures Abs(LazyStep(m, s, Status(v)), s) == EagerStep(Abs(m, s), s, Status(v))
  {
    hide CatchAll;
    CatchAllAbs(m, s);
    var w := CatchAll(m, s);
    SamePhases(w, s, WriteStatus(w.r, v));
  }

  lemma FrameAbs(m: Lazy, s: Settings, v: nat)
    requires LazyOk(m)
    ensures Abs(LazyFrame(m, s, v), s) == EagerStep(Abs(m, s), s, FrameStep(v))
  {
    hide CatchUp, Abs;
    var m1 := CatchUp(m, s, 0);
    var m2 := CatchUp(m1, s, 1);
    var m3 := CatchUp(m2, s, 3);
    var w := CatchUp(m3, s, 2);
    CatchUpAbs(m, s, 0);
    CatchUpAbs(m1, s, 1);
    CatchUpAbs(m2, s, 3);
    CatchUpAbs(m3, s, 2);
    SamePhases(w, s, Frame(w.r, v));
  }

  lemma FlushAbs(m: Lazy, s: Settings, left: nat)
    requires LazyOk(m) && left <= m.now
    ensures Abs(LazyFlush(m, s, left), s) == EagerFlush(Abs(m, s), left)
  {
    hide CatchAll, Abs, Converted;
    if m.now != m.base {
      CatchAllAbs(m, s);
      SettledAbs(CatchAll(m, s), s);
      SettledAbs(LazyFlush(m, s, left), s);
    }
  }

  /** The sample channel, which has no phase, gets its new level from a time on; the old one goes
      where it has not been rendered. */
  lemma DeltaAt(m: Lazy, s: Settings, up: bool, back: nat, i: nat)
    requires LazyOk(m) && back <= m.now && i < |m.wave|
    ensures var w, to := LazyDelta(m, s, up, back), m.now - back;
      w.wave[i] + Owed(w, s, i) == m.wave[i] + Owed(m, s, i)
        + if to <= i < m.now then PcmLevel(w.r, s) - (if m.cur[4] <= i then PcmLevel(m.r, s) else 0) else 0
    ensures m.cur[4] <= i < m.now ==> m.wave[i] + Owed(m, s, i) >= PcmLevel(m.r, s)
  {
    hide PcmLevel, DeltaLatch;
    var w := LazyDelta(m, s, up, back);
    forall c | 0 <= c < 4 ensures Pending(w, s, c, i) == Pending(m, s, c, i) {
      DeltaUnheard(m.r, s, up, c);
    }
    assert Pending(m, s, 4, i) == if m.cur[4] <= i < m.now then PcmLevel(m.r, s) else 0;
    assert Pending(w, s, 4, i) == if m.now - back <= i < m.now then PcmLevel(w.r, s) else 0;
  }

  lemma DeltaUnheard(r: Regs, s: Settings, up: bool, c: nat)
    requires Shaped(r) && c < 4
    ensures ConfigOf(r.(latch := DeltaLatch(r.latch, up)), s, c) == ConfigOf(r, s, c)
  {
    hide CheckFreq, Scaled, EnvLevel, RectDuty, NoisePeriod, DeltaLatch;
  }

  lemma DeltaAbs(m: Lazy, s: Settings, up: bool, back: nat)
    requires LazyOk(m) && back <= m.now && (m.cur[4] <= m.now - back || PcmLevel(m.r, s) == 0)
    ensures Abs(LazyDelta(m, s, up, back), s) == EagerDelta(Abs(m, s), s, up, back)
  {
    hide PcmLevel, DeltaLatch, Owed, ConfigOf;
    var w, e := LazyDelta(m, s, up, back), Abs(m, s);
    forall i | 0 <= i < |m.wave| ensures Abs(w, s).wave[i] == EagerDelta(e, s, up, back).wave[i] {
      DeltaAt(m, s, up, back, i);
    }
    forall c | 0 <= c < 5 ensures PhaseNow(w, s, c) == PhaseNow(m, s, c) {
      DeltaPhase(m, s, up, back, c);
    }
    assert Abs(w, s).wave == EagerDelta(e, s, up, back).wave;
    assert Abs(w, s).ph == e.ph;
  }

  /** A late bit, its channel rendered beyond it, is the eager one exactly when the channel was silent. */
  lemma DeltaExactly(m: Lazy, s: Settings, back: nat)
    requires LazyOk(m) && back <= m.now && m.r.latch < 128
    ensures (forall up :: Abs(LazyDelta(m, s, up, back), s) == EagerDelta(Abs(m, s), s, up, back))
            <==> m.cur[4] + back <= m.now || PcmLevel(m.r, s) == 0
  {
    hide PcmLevel, Owed, ConfigOf, Abs, LazyDelta, EagerDelta;
    if m.cur[4] + back <= m.now || PcmLevel(m.r, s) == 0 {
      DeltaAbs(m, s, true, back);
      DeltaAbs(m, s, false, back);
    } else {
      LateDelta(m, s, back);
    }
  }

  lemma LateDelta(m: Lazy, s: Settings, back: nat)
    requires LazyOk(m) && back <= m.now < m.cur[4] + back && PcmLevel(m.r, s) > 0 && m.r.latch < 128
    ensures Abs(LazyDelta(m, s, true, back), s) != EagerDelta(Abs(m, s), s, true, back)
  {
    var i := m.now - back;
    Louder(m.r, s);
    hide PcmLevel, DeltaLatch, Owed, ConfigOf;
    DeltaAt(m, s, true, back, i);
    assert Abs(LazyDelta(m, s, true, back), s).wave[i] != EagerDelta(Abs(m, s), s, true, back).wave[i];
  }

  lemma Louder(r: Regs, s: Settings)
    requires r.latch < 128
    ensures PcmLevel(r.(latch := DeltaLatch(r.latch, true)), s) >= PcmLevel(r, s)
  {
    var latch' := DeltaLatch(r.latch, true);
    CutBound(r.latch, s.pcm);
    CutBound(latch', s.pcm);
    assert latch' * s.pcm == r.latch * s.pcm + (latch' - r.latch) * s.pcm;
    assert (latch' - r.latch) * s.pcm >= 0;
  }

  lemma DeltaPhase(m: Lazy, s: Settings, up: bool, back: nat, c: nat)
    requires LazyOk(m) && back <= m.now && c < 5
    ensures PhaseNow(LazyDelta(m, s, up, back), s, c) == PhaseNow(m, s, c)
  {
    hide PcmLevel, DeltaLatch;
    var w := LazyDelta(m, s, up, back);
    if c < 4 {
      DeltaUnheard(m.r, s, up, c);
    } else {
      PcmPhase(ConfigOf(m.r, s, 4), m.ph[4], m.now - m.cur[4]);
      PcmPhase(ConfigOf(w.r, s, 4), m.ph[4], w.now - w.cur[4]);
    }
  }

  lemma {:induction false} PcmPhase(cfg: Config, p: Phase, k: nat)
    requires cfg.Pcm?
    ensures PhaseAt(cfg, p, k) == p
  {
    if k > 0 {
      PcmPhase(cfg, p, k - 1);
    }
  }

  /** Rendering the sample channel to the present is catching it up. */
  lemma RenderPcmNow(m: Lazy, s: Settings)
    requires LazyOk(m)
    ensures RenderPcm(m, s, m.now) == CatchUp(m, s, 4)
  {
    hide PcmLevel;
    PcmPhase(ConfigOf(m.r, s, 4), m.ph[4], m.now - m.cur[4]);
    assert RenderPcm(m, s, m.now).wave == CatchUp(m, s, 4).wave;
    assert RenderPcm(m, s, m.now).ph == CatchUp(m, s, 4).ph;
  }

  /** A bit of the sample is on time if its channel has not been rendered beyond it. */
  predicate OnTime(now: nat, pcm: nat, ev: Event) { ev.Delta? ==> pcm + ev.back <= now }

  /** One event of the lazy machine is the same event of the eager one. */
  lemma StepAbs(m: Lazy, s: Settings, ev: Event)
    requires LazyOk(m) && Enabled(m.now, |m.wave|, ev) && OnTime(m.now, m.cur[4], ev)
    ensures Enabled(Abs(m, s).now, |Abs(m, s).wave|, ev)
    ensures Abs(LazyStep(m, s, ev), s) == EagerStep(Abs(m, s), s, ev)
  {
    match ev {
      case Tick => TickAbs(m, s);
      case Catch(c) => CatchUpAbs(m, s, c);
      case Psg(a, v) => PsgAbs(m, s, a, v);
      case Latch(v) => LatchAbs(m, s, v % 128);
      case Delta(up, back) => DeltaAbs(m, s, up, back);
      case Status(v) => StatusAbs(m, s, v);
      case FrameStep(fcnt) => FrameAbs(m, s, fcnt);
      case Flush(left) => FlushAbs(m, s, left);
    }
  }
}
