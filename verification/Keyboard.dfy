/** The PS/2 keyboard of nvboard: a queue of scan codes sent bit by bit, and a
    receiver that samples the data line whenever the clock falls. */
module Keyboards {
  import opened Basics

  const CLK_NUM: nat := 10
  const NOT_A_KEY: int := -1

  // ----- frames

  function Shr(a: nat, i: nat): nat
    decreases i
  {
    if i == 0 then a else Shr(a / 2, i - 1)
  }

  lemma {:induction false} ShrNext(a: nat, i: nat)
    ensures Shr(a, i + 1) == Shr(a, i) / 2
    decreases i
  {
    if i > 0 {
      ShrNext(a / 2, i - 1);
    }
  }

  function Bit(a: nat, i: nat): (b: int)
    ensures 0 <= b <= 1
  {
    Shr(a, i) % 2
  }

  function Xor(x: int, y: int): (b: int)
    ensures 0 <= b <= 1
  {
    if x == y then 0 else 1
  }

  /** UINT8_XOR folds the byte in halves. */
  function Uint8Xor(a: byte): (b: int)
    ensures 0 <= b <= 1
  {
    Xor(Xor(Xor(Bit(a, 7), Bit(a, 3)), Xor(Bit(a, 5), Bit(a, 1))),
        Xor(Xor(Bit(a, 6), Bit(a, 2)), Xor(Bit(a, 4), Bit(a, 0))))
  }

  /** Start 0, eight data bits, lowest first, a parity bit and stop 1. */
  function Frame(a: byte): (f: seq<bit>)
    ensures |f| == 11
  {
    [0, Bit(a, 0), Bit(a, 1), Bit(a, 2), Bit(a, 3), Bit(a, 4), Bit(a, 5), Bit(a, 6), Bit(a, 7), 1 - Uint8Xor(a), 1]
  }

  lemma FrameAt(a: byte, i: nat)
    requires i < 11
    ensures Frame(a)[i] == if i == 0 then 0 else if i <= 8 then Bit(a, i - 1) else if i == 9 then 1 - Uint8Xor(a) else 1
  {
    hide Bit, Uint8Xor;
  }

  /** Data and parity together have an odd number of ones. */
  lemma OddParity(a: byte)
    ensures (Bit(a, 0) + Bit(a, 1) + Bit(a, 2) + Bit(a, 3) + Bit(a, 4) + Bit(a, 5) + Bit(a, 6) + Bit(a, 7)
             + (1 - Uint8Xor(a))) % 2 == 1
  {
    hide Bit, Xor;
    var s, t := Bit(a, 7) + Bit(a, 3) + Bit(a, 5) + Bit(a, 1), Bit(a, 6) + Bit(a, 2) + Bit(a, 4) + Bit(a, 0);
    XorSum(Bit(a, 7), Bit(a, 3), Bit(a, 5), Bit(a, 1));
    XorSum(Bit(a, 6), Bit(a, 2), Bit(a, 4), Bit(a, 0));
    Complement(s, t);
  }

  lemma Complement(s: int, t: int)
    ensures (s + t + (1 - Xor(s % 2, t % 2))) % 2 == 1
  {
  }

  lemma XorSum(w: int, x: int, y: int, z: int)
    requires 0 <= w <= 1 && 0 <= x <= 1 && 0 <= y <= 1 && 0 <= z <= 1
    ensures Xor(Xor(w, x), Xor(y, z)) == (w + x + y + z) % 2
  {
  }

  /** The data bits give the byte back. */
  lemma DataBits(a: byte)
    ensures a == Bit(a, 0) + 2 * Bit(a, 1) + 4 * Bit(a, 2) + 8 * Bit(a, 3)
                 + 16 * Bit(a, 4) + 32 * Bit(a, 5) + 64 * Bit(a, 6) + 128 * Bit(a, 7)
  {
    hide Shr, Bit;
    FourBits(a, 0);
    FourBits(a, 4);
    ShrZero(a);
  }

  lemma ShrZero(a: nat)
    ensures Shr(a, 0) == a
  {
  }

  /** Four bits from bit i on are the remainder of the shifted byte by 16. */
  lemma FourBits(a: nat, i: nat)
    ensures Shr(a, i) == Bit(a, i) + 2 * Bit(a, i + 1) + 4 * Bit(a, i + 2) + 8 * Bit(a, i + 3) + 16 * Shr(a, i + 4)
    ensures Shr(a, i + 4) >= 0
  {
    hide Shr;
    HalfOf(a, i);
    HalfOf(a, i + 1);
    HalfOf(a, i + 2);
    HalfOf(a, i + 3);
  }

  lemma HalfOf(a: nat, i: nat)
    ensures Shr(a, i) == Bit(a, i) + 2 * Shr(a, i + 1)
  {
    hide Shr;
    ShrNext(a, i);
  }

  /** A frame begins with 0 and ends with 1; between them stand the byte, lowest bit first, and a bit that makes
      the number of ones odd. */
  lemma FrameReads(a: byte)
    ensures var f: seq<int> := Frame(a);
      && f[0] == 0 && f[10] == 1
      && f[1] + 2 * f[2] + 4 * f[3] + 8 * f[4] + 16 * f[5] + 32 * f[6] + 64 * f[7] + 128 * f[8] == a
      && (f[1] + f[2] + f[3] + f[4] + f[5] + f[6] + f[7] + f[8] + f[9]) % 2 == 1
  {
    hide Bit, Uint8Xor;
    DataBits(a);
    OddParity(a);
  }

  function Frames(bs: seq<byte>): (s: seq<bit>)
    ensures |s| == 11 * |bs|
  {
    if bs == [] then [] else Frames(bs[..|bs| - 1]) + Frame(bs[|bs| - 1])
  }

  // ----- the sender

  /** Fields and pins, and what the receiver has sampled. */
  datatype Kb = Kb(clk: bit, dat: bit, dataIdx: nat, leftClk: nat, curKey: int, allKeys: seq<byte>, idle: bool,
                   samples: seq<bit>)

  /** The bit put out at a rising clock. */
  function DataBit(k: Kb): bit
    requires k.curKey >= 0 && k.allKeys != []
  {
    if k.dataIdx == 9 then 1 - Uint8Xor(k.allKeys[0])
    else if k.dataIdx == 10 then 1
    else if 1 <= k.dataIdx <= 8 then k.curKey % 2
    else 0
  }

  /** KEYBOARD::update_state. */
  function Update(k: Kb): Kb {
    if k.curKey == NOT_A_KEY && k.allKeys == [] then k.(idle := true)
    else
      var l := if k.curKey == NOT_A_KEY then k.(curKey := k.allKeys[0], leftClk := CLK_NUM) else k;
      if l.leftClk > 0 then l.(leftClk := l.leftClk - 1)
      else if l.clk == 1 then
        var f := l.(clk := 0, leftClk := CLK_NUM, samples := l.samples + [l.dat]);
        if f.dataIdx == 11 && f.allKeys != []
            then f.(dataIdx := 0, curKey := NOT_A_KEY, allKeys := f.allKeys[1..]) else f
      else if l.curKey >= 0 && l.allKeys != [] then
        l.(clk := 1, leftClk := CLK_NUM, dat := DataBit(l), dataIdx := l.dataIdx + 1,
           curKey := if 1 <= l.dataIdx <= 8 then l.curKey / 2 else l.curKey)
      else l
  }

  /** The scan codes of a key: extended keys get a prefix, releases too. */
  function Codes(map0: byte, map1: byte, down: bool): (s: seq<byte>)
    ensures s != []
  {
    (if map0 == 0xe0 then [0xe0] else []) + (if down then [] else [0xf0]) + [if map0 == 0xe0 then map1 else map0]
  }

  /** A key that was pressed or released, from the extended part of the keyboard or not. */
  datatype Key = Key(extended: bool, code: byte, down: bool)

  function CodesOf(ks: seq<Key>): seq<byte> {
    if ks == [] then []
    else Codes(if ks[0].extended then 0xe0 else ks[0].code, ks[0].code, ks[0].down) + CodesOf(ks[1..])
  }

  /** What a host makes of scan codes: 0xe0 announces an extended key and 0xf0 a release. */
  function KeysIn(bs: seq<byte>, extended: bool, up: bool): seq<Key> {
    if bs == [] then []
    else if bs[0] == 0xe0 then KeysIn(bs[1..], true, up)
    else if bs[0] == 0xf0 then KeysIn(bs[1..], extended, true)
    else [Key(extended, bs[0], !up)] + KeysIn(bs[1..], false, false)
  }

  /** The host finds every key in its order, pressed or released, extended or not. */
  lemma {:induction false} KeysRead(ks: seq<Key>)
    requires forall i :: 0 <= i < |ks| ==> ks[i].code != 0xe0 && ks[i].code != 0xf0
    ensures KeysIn(CodesOf(ks), false, false) == ks
  {
    if ks != [] {
      KeysRead(ks[1..]);
      OneKey(ks[0], CodesOf(ks[1..]));
      assert ks == [ks[0]] + ks[1..];
    }
  }

  lemma OneKey(k: Key, rest: seq<byte>)
    requires k.code != 0xe0 && k.code != 0xf0
    ensures KeysIn(Codes(if k.extended then 0xe0 else k.code, k.code, k.down) + rest, false, false)
            == [k] + KeysIn(rest, false, false)
  {
    var c := [k.code] + rest;
    assert c[1..] == rest;
    Released(k, c);
    if k.extended {
      var u := (if k.down then [] else [0xf0]) + c;
      assert ([0xe0] + u)[1..] == u;
      assert Codes(0xe0, k.code, k.down) + rest == [0xe0] + u;
    } else {
      assert Codes(k.code, k.code, k.down) + rest == (if k.down then [] else [0xf0]) + c;
    }
  }

  lemma Released(k: Key, c: seq<byte>)
    requires k.code != 0xe0 && k.code != 0xf0 && c != [] && c[0] == k.code
    ensures forall e :: KeysIn((if k.down then [] else [0xf0]) + c, e, false)
                        == [Key(e, k.code, k.down)] + KeysIn(c[1..], false, false)
  {
    if k.down {
      assert [] + c == c;
    } else {
      assert ([0xf0] + c)[1..] == c;
    }
  }

  /** The codes written out. */
  lemma CodesAre(a: byte, b: byte)
    ensures a != 0xe0 ==> Codes(a, b, true) == [a] && Codes(a, b, false) == [0xf0, a]
    ensures Codes(0xe0, b, true) == [0xe0, b] && Codes(0xe0, b, false) == [0xe0, 0xf0, b]
  {
  }

  function PushKey(k: Kb, codes: seq<byte>): Kb { k.(allKeys := k.allKeys + codes, idle := false) }

  /** Falling edges in the present frame. */
  function Edges(k: Kb): int { if k.clk == 1 then k.dataIdx - 1 else k.dataIdx }

  /** The byte under way, and how much of it the receiver has. done are the bytes before
      it, stale what was sampled before any frame. */
  predicate Sending(k: Kb, stale: seq<bit>, done: seq<byte>) {
    && k.allKeys != [] && k.leftClk <= CLK_NUM && k.dataIdx <= 11 && 0 <= Edges(k) <= 10
    && k.curKey == Shr(k.allKeys[0], if k.dataIdx <= 1 then 0 else if k.dataIdx >= 9 then 8 else k.dataIdx - 1)
    && k.samples == stale + Frames(done) + Frame(k.allKeys[0])[..Edges(k)]
    && (k.clk == 1 ==> k.dat == Frame(k.allKeys[0])[k.dataIdx - 1])
  }

  predicate Waiting(k: Kb, stale: seq<bit>, done: seq<byte>) {
    k.curKey == NOT_A_KEY && k.dataIdx == 0 && k.clk == 0 && k.samples == stale + Frames(done)
  }

  predicate Inv(k: Kb, stale: seq<bit>, done: seq<byte>) {
    if k.curKey == NOT_A_KEY then Waiting(k, stale, done) else Sending(k, stale, done)
  }

  /** The bytes completed by an update. */
  function Done(k: Kb, done: seq<byte>): seq<byte> {
    if k.curKey != NOT_A_KEY && k.leftClk == 0 && k.clk == 1 && k.dataIdx == 11 && k.allKeys != []
    then done + [k.allKeys[0]] else done
  }

  lemma RiseInv(k: Kb, stale: seq<bit>, done: seq<byte>)
    requires Inv(k, stale, done) && k.curKey != NOT_A_KEY && k.leftClk == 0 && k.clk == 0
    ensures k.curKey >= 0 && Inv(Update(k), stale, done)
    ensures Update(k).allKeys == k.allKeys
  {
    var a := k.allKeys[0];
    if 1 <= k.dataIdx <= 8 {
      ShrNext(a, k.dataIdx - 1);
    }
    FrameAt(a, k.dataIdx);
    hide Shr, Uint8Xor, Frame;
  }

  lemma OneMore(pre: seq<bit>, f: seq<bit>, m: nat)
    requires m < |f|
    ensures pre + f[..m] + [f[m]] == pre + f[..m + 1]
  {
  }

  lemma FrameDone(stale: seq<bit>, done: seq<byte>, a: byte)
    ensures stale + Frames(done) + Frame(a)[..11] == stale + Frames(done + [a])
  {
    hide Frame;
    assert (done + [a])[..|done|] == done;
    assert Frame(a)[..11] == Frame(a);
    assert stale + Frames(done) + Frame(a) == stale + (Frames(done) + Frame(a));
  }

  lemma FallInv(k: Kb, stale: seq<bit>, done: seq<byte>)
    requires Inv(k, stale, done) && k.curKey != NOT_A_KEY && k.leftClk == 0 && k.clk == 1
    ensures Inv(Update(k), stale, Done(k, done))
    ensures Done(k, done) + Update(k).allKeys == done + k.allKeys
  {
    hide Shr, Frame, Frames, DataBit;
    var a := k.allKeys[0];
    OneMore(stale + Frames(done), Frame(a), k.dataIdx - 1);
    if k.dataIdx == 11 {
      FrameDone(stale, done, a);
      assert done + [a] + k.allKeys[1..] == done + k.allKeys;
    }
  }

  lemma UpdateInv(k: Kb, stale: seq<bit>, done: seq<byte>)
    requires Inv(k, stale, done)
    ensures Inv(Update(k), stale, Done(k, done))
    ensures Done(k, done) + Update(k).allKeys == done + k.allKeys
  {
    hide Uint8Xor, Frame;
    if k.curKey != NOT_A_KEY && k.leftClk == 0 {
      if k.clk == 0 {
        RiseInv(k, stale, done);
      } else {
        FallInv(k, stale, done);
      }
    } else if k.curKey == NOT_A_KEY && k.allKeys != [] {
      NothingOut(k.allKeys[0], stale, done);
    }
  }

  lemma NothingOut(a: byte, stale: seq<bit>, done: seq<byte>)
    ensures Shr(a, 0) == a && Frame(a)[..0] == [] && stale + Frames(done) + [] == stale + Frames(done)
  {
  }

  // ----- a clock that starts high

  /** Until the first falling edge nothing of a frame is out. */
  predicate High(k: Kb, dat: bit) {
    && k.clk == 1 && k.dat == dat && k.dataIdx == 0 && k.samples == [] && k.leftClk <= CLK_NUM
    && (k.curKey != NOT_A_KEY ==> k.allKeys != [] && k.curKey == k.allKeys[0])
  }

  /** That edge is sampled as a stray bit before the first frame. */
  lemma HighUpdate(k: Kb, dat: bit)
    requires High(k, dat)
    ensures Update(k).allKeys == k.allKeys
    ensures High(Update(k), dat) || Inv(Update(k), [dat], [])
  {
    hide Uint8Xor, Bit;
    if k.curKey != NOT_A_KEY {
      assert Frame(k.allKeys[0])[..0] == [];
    }
  }

  // ----- runs

  datatype Op = UpdateOp | KeyOp(map0: byte, map1: byte, down: bool)

  /** A run, and the bytes completed in it. */
  function Run(k: Kb, ops: seq<Op>): (Kb, seq<byte>) {
    if ops == [] then (k, []) else
      var (q, done) := Run(k, ops[..|ops| - 1]);
      match ops[|ops| - 1]
      case UpdateOp => (Update(q), Done(q, done))
      case KeyOp(map0, map1, down) => (PushKey(q, Codes(map0, map1, down)), done)
  }

  function Pushed(ops: seq<Op>): seq<byte> {
    if ops == [] then [] else
      match ops[|ops| - 1]
      case UpdateOp => Pushed(ops[..|ops| - 1])
      case KeyOp(map0, map1, down) => Pushed(ops[..|ops| - 1]) + Codes(map0, map1, down)
  }

  function Start(clk: bit, dat: bit): Kb { Kb(clk, dat, 0, 0, NOT_A_KEY, [], true, []) }

  lemma PushKeyInv(k: Kb, stale: seq<bit>, done: seq<byte>, codes: seq<byte>)
    requires Inv(k, stale, done)
    ensures Inv(PushKey(k, codes), stale, done)
  {
    hide Frame, Shr;
  }

  lemma StartInv(clk: bit, dat: bit)
    ensures if clk == 0 then Inv(Start(clk, dat), [], []) else High(Start(clk, dat), dat)
  {
  }

  /** From a low clock, in any interleaving of keys and updates: the samples are the frames of
      the completed bytes and the beginning of one more, and these bytes and the queue
      are the scan codes in the order of the keys. From a high clock one stray sample comes first. */
  lemma {:induction false} FramesInOrder(clk: bit, dat: bit, ops: seq<Op>)
    ensures var (k, done) := Run(Start(clk, dat), ops);
            && done + k.allKeys == Pushed(ops)
            && (clk == 0 ==> Inv(k, [], done))
            && (clk == 1 ==> (High(k, dat) && done == []) || Inv(k, [dat], done))
  {
    hide Inv, High, Update, Done, Codes;
    if ops == [] {
      StartInv(clk, dat);
    } else {
      var (q, done) := Run(Start(clk, dat), ops[..|ops| - 1]);
      FramesInOrder(clk, dat, ops[..|ops| - 1]);
      match ops[|ops| - 1] {
        case UpdateOp =>
          if Inv(q, [], done) {
            UpdateInv(q, [], done);
          }
          if Inv(q, [dat], done) {
            UpdateInv(q, [dat], done);
          } else if clk == 1 {
            HighUpdate(q, dat);
            NotDone(q, dat);
          }
        case KeyOp(map0, map1, down) =>
          var codes := Codes(map0, map1, down);
          assert done + (q.allKeys + codes) == done + q.allKeys + codes;
          if Inv(q, [], done) {
            PushKeyInv(q, [], done, codes);
          }
          if Inv(q, [dat], done) {
            PushKeyInv(q, [dat], done, codes);
          } else if clk == 1 {
            HighPush(q, dat, codes);
          }
      }
    }
  }

  /** The updates nvboard leaves out while the keyboard is idle would change nothing. */
  lemma {:induction false} IdleLosesNothing(clk: bit, dat: bit, ops: seq<Op>)
    ensures var k := Run(Start(clk, dat), ops).0; k.idle ==> k.curKey == NOT_A_KEY && k.allKeys == [] && Update(k) == k
  {
    if ops != [] {
      hide DataBit, Codes;
      IdleLosesNothing(clk, dat, ops[..|ops| - 1]);
    }
  }

  lemma NotDone(k: Kb, dat: bit)
    requires High(k, dat)
    ensures Done(k, []) == []
  {
  }

  lemma HighPush(k: Kb, dat: bit, codes: seq<byte>)
    requires High(k, dat)
    ensures High(PushKey(k, codes), dat)
  {
  }

  // ----- timing

  /** Updates until the byte under way is done: two toggles for each of 11 bits,
      CLK_NUM + 1 updates for each toggle. */
  function Left(k: Kb): int {
    if k.curKey == NOT_A_KEY then 22 * (CLK_NUM + 1)
    else (CLK_NUM + 1) * (21 - (2 * k.dataIdx - k.clk)) + k.leftClk + 1
  }

  lemma OneLess(k: Kb, stale: seq<bit>, done: seq<byte>)
    requires Inv(k, stale, done) && k.allKeys != []
    ensures Left(k) >= 1
    ensures Left(k) > 1 ==> Done(k, done) == done && Left(Update(k)) == Left(k) - 1 && Update(k).allKeys == k.allKeys
    ensures Left(k) == 1 ==> Done(k, done) == done + [k.allKeys[0]] && Update(k).curKey == NOT_A_KEY
  {
    UpdateInv(k, stale, done);
    hide Frame, Frames, Shr, DataBit;
  }

  function Updates(k: Kb, n: nat): Kb
    decreases n
  {
    if n == 0 then k else Updates(Update(k), n - 1)
  }

  lemma {:induction false} Completes(k: Kb, stale: seq<bit>, done: seq<byte>)
    requires Inv(k, stale, done) && k.allKeys != []
    ensures var q := Updates(k, Left(k));
            && Left(k) >= 1 && q.allKeys == k.allKeys[1..] && q.curKey == NOT_A_KEY
            && Inv(q, stale, done + [k.allKeys[0]])
    decreases Left(k)
  {
    hide Inv, Done, Update, Left;
    OneLess(k, stale, done);
    UpdateInv(k, stale, done);
    var l: nat := Left(k);
    assert Updates(k, l) == Updates(Update(k), l - 1);
    if l > 1 {
      Completes(Update(k), stale, done);
    } else {
      assert k.allKeys == [k.allKeys[0]] + k.allKeys[1..];
      assert done + [k.allKeys[0]] + Update(k).allKeys == done + k.allKeys;
      assert Update(k).allKeys == (done + k.allKeys)[|done| + 1..];
    }
  }

  /** A byte takes 22 toggles of CLK_NUM + 1 updates each, and leaves its frame behind. */
  lemma ByteTakes242(k: Kb, stale: seq<bit>, done: seq<byte>)
    requires Waiting(k, stale, done) && k.allKeys != []
    ensures var q := Updates(k, 242);
            && q.allKeys == k.allKeys[1..] && Waiting(q, stale, done + [k.allKeys[0]])
            && q.samples == k.samples + Frame(k.allKeys[0])
  {
    hide Frame, Updates;
    Completes(k, stale, done);
    FrameDone(stale, done, k.allKeys[0]);
    assert Frame(k.allKeys[0])[..11] == Frame(k.allKeys[0]);
  }

  // ----- the device

  class Keyboard {
    var clk: bit
    var dat: bit
    var dataIdx: nat
    var leftClk: nat
    var curKey: int
    var allKeys: seq<byte>
    var idle: bool
    ghost var samples: seq<bit>
    ghost var done: seq<byte>
    ghost const firstDat: bit

    ghost function View(): Kb
      reads this
    {
      Kb(clk, dat, dataIdx, leftClk, curKey, allKeys, idle, samples)
    }

    ghost predicate Valid()
      reads this
    {
      Fine(View(), firstDat, done)
    }

    constructor (clk: bit, dat: bit)
      ensures Valid() && View() == Start(clk, dat) && done == []
    {
      this.clk, this.dat, firstDat := clk, dat, dat;
      dataIdx, leftClk, curKey, allKeys, idle, samples, done := 0, 0, NOT_A_KEY, [], true, [], [];
    }

    method PushKeyCodes(map0: byte, map1: byte, down: bool)
      requires Valid()
      modifies this`allKeys, this`idle
      ensures Valid() && View() == PushKey(old(View()), Codes(map0, map1, down))
    {
      ghost var k := View();
      ghost var codes := Codes(map0, map1, down);
      var atKey := map0;
      if atKey == 0xe0 {
        allKeys := allKeys + [0xe0];
        atKey := map1;
      }
      if !down {
        allKeys := allKeys + [0xf0];
      }
      allKeys := allKeys + [atKey];
      idle := false;
      assert allKeys == k.allKeys + codes;
      hide Inv, High;
      Pushing(k, firstDat, done, codes);
    }

    /** update_state. Neither of its assertions can fail. */
    method UpdateState()
      requires Valid()
      modifies this
      ensures Valid() && View() == Update(old(View())) && done == Done(old(View()), old(done))
    {
      Stepping(View(), firstDat, done);
      hide Fine, DataBit;
      done := Done(View(), done);
      if curKey == NOT_A_KEY {
        if |allKeys| == 0 {
          idle := true;
          return;
        }
        curKey := allKeys[0];
        assert dataIdx == 0;
        leftClk := CLK_NUM;
      }
      if leftClk == 0 {
        Toggle();
      } else {
        leftClk := leftClk - 1;
      }
    }

    method Toggle()
      requires leftClk == 0 && curKey >= 0 && |allKeys| != 0
      modifies this`clk, this`dat, this`leftClk, this`curKey, this`dataIdx, this`allKeys, this`samples
      ensures View() == Update(old(View()))
    {
      hide Uint8Xor;
      var rising := clk == 0;
      clk := 1 - clk;
      leftClk := CLK_NUM;
      if rising {
        assert |allKeys| != 0;
        dat := if dataIdx == 9 then 1 - Uint8Xor(allKeys[0])
               else if dataIdx == 10 then 1
               else if 1 <= dataIdx <= 8 then curKey % 2
               else 0;
        if 1 <= dataIdx <= 8 {
          curKey := curKey / 2;
        }
        dataIdx := dataIdx + 1;
      } else {
        samples := samples + [dat];
        if dataIdx == 11 {
          dataIdx := 0;
          curKey := NOT_A_KEY;
          allKeys := allKeys[1..];
        }
      }
    }
  }

  ghost predicate Fine(k: Kb, dat: bit, done: seq<byte>) {
    Inv(k, [], done) || Inv(k, [dat], done) || (High(k, dat) && done == [])
  }

  lemma Pushing(k: Kb, dat: bit, done: seq<byte>, codes: seq<byte>)
    requires Fine(k, dat, done)
    ensures Fine(PushKey(k, codes), dat, done)
  {
    if Inv(k, [], done) {
      PushKeyInv(k, [], done, codes);
    } else if Inv(k, [dat], done) {
      PushKeyInv(k, [dat], done, codes);
    }
  }

  lemma Stepping(k: Kb, dat: bit, done: seq<byte>)
    requires Fine(k, dat, done)
    ensures Fine(Update(k), dat, Done(k, done))
    ensures k.curKey == NOT_A_KEY ==> k.dataIdx == 0
    ensures k.curKey != NOT_A_KEY ==> k.curKey >= 0 && k.allKeys != []
  {
    hide Update;
    if Inv(k, [], done) {
      UpdateInv(k, [], done);
    } else if Inv(k, [dat], done) {
      UpdateInv(k, [dat], done);
    } else {
      HighUpdate(k, dat);
      NotDone(k, dat);
    }
  }
}
