/** The serial device of nvboard with its line looped back: a bit-serial sender and
    receiver driven by one tick. */
module Uarts {
  import opened Basics
  import opened Terms

  /** The fields of the device, and the characters handed to the terminal so far. */
  datatype Port = Port(txState: nat, rxState: nat, txData: byte, rxData: byte, queue: seq<byte>, idle: bool,
                       line: bit, received: seq<byte>)

  const RESET: Port := Port(0, 0, 0, 0, [], true, 1, [])

  // ----- one tick, as it runs

  function ShiftIn(line: bit, data: byte): byte { line * 128 + data / 2 }

  function LowBit(data: byte): bit { data % 2 }

  function Rest(data: byte): byte { data / 2 }

  function TxReceive(p: Port): Port {
    if p.txState == 0 then (if p.line == 0 then p.(txData := 0, txState := 1) else p)
    else if 1 <= p.txState <= 8 then p.(txData := ShiftIn(p.line, p.txData), txState := p.txState + 1)
    else if p.txState == 9 && p.line != 0 then p.(txState := 0, received := p.received + [p.txData])
    else p
  }

  function RxSend(p: Port): Port {
    if p.rxState == 0 then
      var d := if p.queue == [] then 0 else p.queue[0];
      if d == 0 then p.(rxData := d, idle := true)
      else p.(rxData := d, queue := p.queue[1..], line := 0, rxState := 1)
    else if 1 <= p.rxState <= 8 then p.(line := LowBit(p.rxData), rxData := Rest(p.rxData), rxState := p.rxState + 1)
    else if p.rxState == 9 then p.(line := 1, rxState := 0)
    else p
  }

  /** The receiver samples the line before the sender drives it again. */
  function Tick(p: Port): Port {
    var q := TxReceive(p);
    if !q.idle then RxSend(q) else q
  }

  function Push(p: Port, ch: byte): Port { p.(queue := p.queue + [ch], idle := false) }

  // ----- the character on the line

  /** What the receiver will hold when the bits from k on have gone over the line: bit k
      is on it, the sender has the rest. */
  function Final(k: nat, left: byte, line: bit, got: byte): byte
    requires k <= 8
    decreases 8 - k
  {
    if k == 8 then got else Final(k + 1, Rest(left), LowBit(left), ShiftIn(line, got))
  }

  function Current(p: Port): byte
    requires 1 <= p.rxState <= 9
  {
    if p.rxState == 1 then p.rxData else Final(p.rxState - 2, p.rxData, p.line, p.txData)
  }

  function InFlight(p: Port): seq<int> {
    if 1 <= p.rxState <= 9 then [Current(p)] else if p.txState == 9 then [p.txData] else []
  }

  /** Everything pushed so far, wherever it is by now. */
  function Stream(p: Port): seq<int> { p.received + InFlight(p) + p.queue }

  /** The receiver follows the sender one state behind. */
  predicate Coupled(p: Port) {
    && p.rxState <= 9
    && (p.rxState == 0 ==> p.line == 1 && (p.txState == 0 || p.txState == 9))
    && (p.rxState == 1 ==> p.line == 0 && p.txState == 0)
    && (p.rxState >= 2 ==>
          p.txState == p.rxState - 1)
  }

  predicate Inv(p: Port) {
    && Coupled(p)
    && (p.idle ==> p.rxState == 0 && p.txState == 0 && (p.queue != [] ==> p.queue[0] == 0))
    && 0 !in p.received && 0 !in InFlight(p)
  }

  lemma Halves(left: byte, line: bit, got: byte, h: int)
    requires got == 2 * h
    ensures left == 2 * Rest(left) + LowBit(left) && ShiftIn(line, got) == 128 * line + h
  {
  }

  lemma Factored(p: int, q: int, line: int, g: int)
    requires p * q == 128
    ensures 128 * line + p * g == p * (q * line + g)
  {
    assert p * (q * line + g) == p * (q * line) + p * g;
    assert p * (q * line) == p * q * line;
  }

  /** The bits still to come make up the high part, those in the receiver the low part. */
  lemma {:induction false} FinalIs(k: nat, left: byte, line: bit, got: byte, g: int)
    requires k <= 7 && got == 2 * (Pow2(7 - k) * g) && left < Pow2(7 - k)
    ensures Final(k, left, line, got) == (2 * left + line) * Pow2(k) + g
    decreases 7 - k
  {
    hide *;
    var p, q := Pow2(7 - k), Pow2(k);
    Pow2Add(7 - k, k);
    Pow7();
    Halves(left, line, got, p * g);
    Factored(p, q, line, g);
    FinalStep(k, left, line, got);
    if k < 7 {
      var r := Pow2(6 - k);
      PowStep(6 - k);
      PowStep(k);
      Doubled(p, r, q * line + g);
      FinalIs(k + 1, Rest(left), LowBit(left), ShiftIn(line, got), q * line + g);
      Regrouped(left, q, line, g);
      Multiplied(2 * Rest(left) + LowBit(left), left, 2 * q);
    } else {
      Pow0();
      FinalStep(7, Rest(left), LowBit(left), ShiftIn(line, got));
    }
  }

  lemma Multiplied(a: int, b: int, c: int)
    requires a == b
    ensures a * c == b * c
  {
  }

  lemma Pow0()
    ensures Pow2(0) == 1
  {
  }

  lemma Pow7()
    ensures Pow2(7) == 128
  {
    assert Pow2(7) == 2 * (2 * (2 * Pow2(4)));
    assert Pow2(4) == 16;
  }

  lemma PowStep(k: nat)
    ensures Pow2(k + 1) == 2 * Pow2(k)
  {
  }

  lemma FinalStep(k: nat, left: byte, line: bit, got: byte)
    requires k <= 7
    ensures Final(k, left, line, got) == Final(k + 1, Rest(left), LowBit(left), ShiftIn(line, got))
    ensures Final(8, left, line, got) == got
  {
  }

  lemma Doubled(p: int, r: int, x: int)
    requires p == 2 * r
    ensures p * x == 2 * (r * x)
  {
  }

  lemma Regrouped(left: int, q: int, line: int, g: int)
    ensures left * (2 * q) + (q * line + g) == (2 * left + line) * q + g
  {
  }

  /** Eight bits out at one end and in at the other are the byte again. */
  lemma EightBits(c: byte)
    ensures Final(0, Rest(c), LowBit(c), 0) == c
  {
    hide *;
    Pow7();
    Pow0();
    Halves(c, 0, 0, 0);
    FinalIs(0, Rest(c), LowBit(c), 0, 0);
  }

  /** A bit moves from the sender over the line to the receiver, and the character stays the same. */
  lemma BitMoves(p: Port)
    requires Coupled(p) && 1 <= p.rxState <= 8
    ensures var q := RxSend(TxReceive(p));
            Coupled(q) && q.rxState == p.rxState + 1 && Current(q) == Current(p)
  {
    hide Final, ShiftIn, LowBit, Rest;
    if p.rxState == 1 {
      EightBits(p.rxData);
    } else {
      FinalStep(p.rxState - 2, p.rxData, p.line, p.txData);
    }
  }

  lemma LastBit(p: Port)
    requires Coupled(p) && p.rxState == 9
    ensures var q := RxSend(TxReceive(p));
            Coupled(q) && q.rxState == 0 && q.txState == 9 && q.txData == Current(p)
  {
    hide Final, ShiftIn, LowBit, Rest;
    FinalStep(7, p.rxData, p.line, p.txData);
    FinalStep(7, Rest(p.rxData), LowBit(p.rxData), ShiftIn(p.line, p.txData));
  }

  lemma TickInv(p: Port)
    requires Inv(p)
    ensures Inv(Tick(p)) && Stream(Tick(p)) == Stream(p)
  {
    hide Final, ShiftIn, LowBit, Rest;
    if 1 <= p.rxState <= 8 {
      BitMoves(p);
    } else if p.rxState == 9 {
      LastBit(p);
    } else {
      var q := TxReceive(p);
      assert q.received + InFlight(q) == p.received + InFlight(p);
      if q.queue != [] && q.queue[0] != 0 {
        assert q.queue == [q.queue[0]] + q.queue[1..];
      }
    }
  }

  // ----- runs

  datatype Event = TickEv | PushEv(ch: byte)

  function After(p: Port, ops: seq<Event>): Port {
    if ops == [] then p else
      var q := After(p, ops[..|ops| - 1]);
      match ops[|ops| - 1]
      case TickEv => Tick(q)
      case PushEv(ch) => Push(q, ch)
  }

  function Pushed(ops: seq<Event>): seq<int> {
    if ops == [] then [] else
      var s := Pushed(ops[..|ops| - 1]);
      match ops[|ops| - 1]
      case TickEv => s
      case PushEv(ch) => s + [ch]
  }

  lemma ResetInv()
    ensures Inv(RESET) && Stream(RESET) == []
  {
  }

  /** Received, then in flight, then queued: that is what was pushed, in order. */
  lemma {:induction false} Conserved(ops: seq<Event>)
    ensures Inv(After(RESET, ops)) && Stream(After(RESET, ops)) == Pushed(ops)
  {
    hide Inv, Stream, Tick, Push;
    if ops == [] {
      ResetInv();
    } else {
      var q := After(RESET, ops[..|ops| - 1]);
      Conserved(ops[..|ops| - 1]);
      match ops[|ops| - 1] {
        case TickEv => TickInv(q);
        case PushEv(ch) => PushInv(q, ch);
      }
    }
  }

  lemma PushInv(p: Port, ch: byte)
    requires Inv(p)
    ensures Inv(Push(p, ch)) && Stream(Push(p, ch)) == Stream(p) + [ch]
  {
    hide Final;
    assert Push(p, ch).received + InFlight(Push(p, ch)) + (p.queue + [ch]) == Stream(p) + [ch];
  }

  // ----- progress

  function Ticks(p: Port, n: nat): Port
    decreases n
  {
    if n == 0 then p else Ticks(Tick(p), n - 1)
  }

  /** Ticks until the last queued character is received. */
  function Due(p: Port): nat
    requires p.rxState <= 9
  {
    10 * |p.queue|
    + (if p.rxState >= 1 then 11 - p.rxState else if p.txState == 9 then 1 else if p.queue != [] then 1 else 0)
  }

  predicate Awake(p: Port) { p.idle ==> p.queue == [] }

  /** With no NUL in the queue every tick brings the end one tick nearer. */
  lemma OneNearer(p: Port)
    requires Inv(p) && 0 !in p.queue && Awake(p)
    ensures var q := Tick(p);
            && Inv(q) && 0 !in q.queue && Awake(q)
            && Due(q) == if Due(p) == 0 then 0 else Due(p) - 1
  {
    hide Final, ShiftIn, LowBit, Rest;
    TickInv(p);
  }

  /** Without NUL, everything pushed is received exactly when Due ticks have passed. */
  lemma {:induction false} Drains(p: Port, n: nat)
    requires Inv(p) && 0 !in p.queue && Awake(p)
    ensures Ticks(p, n).received == Stream(p) <==> n >= Due(p)
    decreases n
  {
    assert p.rxState <= 9 && Tick(p).rxState <= 9;
    hide Inv, Due, Stream, Tick;
    TickInv(p);
    OneNearer(p);
    if n == 0 {
      Finished(p);
    } else {
      Drains(Tick(p), n - 1);
      if Due(p) == 0 {
        Finished(p);
      }
    }
    assert Due(p) == 0 ==> Due(Tick(p)) == 0;
  }

  lemma Finished(p: Port)
    requires Inv(p) && Awake(p)
    ensures p.received == Stream(p) <==> Due(p) == 0
  {
    assert |Stream(p)| == |p.received| + |InFlight(p)| + |p.queue|;
    if Due(p) == 0 {
      assert Stream(p) == p.received;
    }
  }

  /** A queued NUL is never sent: at most what stands before it leaves the queue,
      however long the device runs and whatever is pushed behind it. */
  lemma {:induction false} NulStalls(p: Port, ops: seq<Event>, j: nat)
    requires Inv(p) && j < |p.queue| && p.queue[j] == 0
    ensures var q, all := After(p, ops), p.queue + Pushed(ops);
            && Inv(q) && |all| - j <= |q.queue| <= |all|
            && q.queue == all[|all| - |q.queue|..]
    decreases |ops|
  {
    hide Inv, Current, Tick;
    if ops != [] {
      var ops' := ops[..|ops| - 1];
      NulStalls(p, ops', j);
      var q, all := After(p, ops'), p.queue + Pushed(ops');
      assert all[j] == 0;
      match ops[|ops| - 1] {
        case TickEv =>
          TickInv(q);
          TickQueue(q);
          if Tick(q).queue != q.queue {
            DropFirst(all, q.queue, j);
          }
        case PushEv(ch) =>
          PushInv(q, ch);
          AddLast(p.queue, Pushed(ops'), q.queue, ch);
      }
    }
  }

  /** The first of a rest of all is dropped, and it is not entry j. */
  lemma DropFirst(all: seq<int>, queue: seq<int>, j: nat)
    requires j < |all| && all[j] == 0 && |all| - j <= |queue| <= |all| && queue == all[|all| - |queue|..]
    requires queue != [] && queue[0] != 0
    ensures |all| - j <= |queue[1..]| && queue[1..] == all[|all| - |queue[1..]|..]
  {
  }

  lemma AddLast(a: seq<int>, b: seq<int>, queue: seq<int>, ch: int)
    requires |queue| <= |a + b| && queue == (a + b)[|a + b| - |queue|..]
    ensures var all := a + (b + [ch]); queue + [ch] == all[|all| - |queue + [ch]|..]
  {
    assert a + (b + [ch]) == (a + b) + [ch];
  }

  lemma TickQueue(p: Port)
    ensures Tick(p).queue == p.queue || (p.queue != [] && p.queue[0] != 0 && Tick(p).queue == p.queue[1..])
  {
    hide ShiftIn, LowBit, Rest;
  }

  /** Until the first NUL comes up, the sender behaves as if the queue ended there. */
  lemma FrontTick(p: Port, rest: seq<byte>)
    requires rest != [] ==> rest[0] == 0
    ensures Tick(p.(queue := p.queue + rest)) == Tick(p).(queue := Tick(p).queue + rest)
  {
    hide ShiftIn, LowBit, Rest;
    if p.queue != [] {
      assert (p.queue + rest)[1..] == p.queue[1..] + rest;
    } else {
      assert p.queue + rest == rest;
    }
  }

  lemma {:induction false} FrontTicks(p: Port, rest: seq<byte>, n: nat)
    requires rest != [] ==> rest[0] == 0
    ensures Ticks(p.(queue := p.queue + rest), n) == Ticks(p, n).(queue := Ticks(p, n).queue + rest)
    decreases n
  {
    hide Tick;
    if n > 0 {
      FrontTick(p, rest);
      FrontTicks(Tick(p), rest, n - 1);
    }
  }

  /** With a NUL in the queue, what stands in front of the first one is received in
      full exactly when its ticks have passed, and nothing from the NUL on ever is. */
  lemma FrontDrains(p: Port, front: seq<byte>, rest: seq<byte>, n: nat)
    requires Inv(p) && p.queue == front + rest && 0 !in front && (rest != [] ==> rest[0] == 0)
    ensures var q := p.(queue := front);
            && (Ticks(p, n).received == p.received + InFlight(p) + front <==> n >= Due(q))
            && Ticks(p, n).received <= p.received + InFlight(p) + front
  {
    FrontInv(p, front, rest);
    hide Inv, Awake, Due, Ticks, InFlight;
    var q := p.(queue := front);
    assert p == q.(queue := q.queue + rest);
    FrontTicks(q, rest, n);
    Drains(q, n);
    TicksInv(q, n);
    var e := Ticks(q, n);
    assert Stream(e) == e.received + (InFlight(e) + e.queue);
  }

  lemma FrontInv(p: Port, front: seq<byte>, rest: seq<byte>)
    requires Inv(p) && p.queue == front + rest && 0 !in front && (rest != [] ==> rest[0] == 0)
    ensures var q := p.(queue := front); Inv(q) && Awake(q) && InFlight(q) == InFlight(p) && q.rxState <= 9
  {
    hide Final;
  }

  lemma {:induction false} TicksInv(p: Port, n: nat)
    requires Inv(p)
    ensures Inv(Ticks(p, n)) && Stream(Ticks(p, n)) == Stream(p)
    decreases n
  {
    hide Inv, Stream, Tick;
    if n > 0 {
      TickInv(p);
      TicksInv(Tick(p), n - 1);
    }
  }

  /** Left alone, the device sooner or later receives a byte that is no 7-bit character if and only
      if one was received before, is under way, or is queued in front of the first NUL. */
  lemma BadByteArrives(p: Port, front: seq<byte>, rest: seq<byte>)
    requires Inv(p) && p.queue == front + rest && 0 !in front && (rest != [] ==> rest[0] == 0)
    ensures (exists n: nat :: !Ascii(Ticks(p, n).received)) <==> !Ascii(p.received + InFlight(p) + front)
  {
    hide Inv, InFlight, Ticks;
    var all := p.received + InFlight(p) + front;
    if !Ascii(all) {
      var n := DueFront(p, front);
      FrontDrains(p, front, rest, n);
      assert !Ascii(Ticks(p, n).received);
    }
    forall n: nat | !Ascii(Ticks(p, n).received) ensures !Ascii(all) {
      FrontDrains(p, front, rest, n);
      var r := Ticks(p, n).received;
      var i :| 0 <= i < |r| && r[i] >= 128;
      assert all[i] == r[i];
    }
  }

  ghost function DueFront(p: Port, front: seq<byte>): nat
    requires Inv(p)
  {
    Due(p.(queue := front))
  }

  // ----- the device

  function Chars(bs: seq<byte>): (s: string)
    ensures |s| == |bs|
  {
    seq(|bs|, i requires 0 <= i < |bs| => bs[i] as char)
  }

  predicate Ascii(s: seq<int>) { forall i :: 0 <= i < |s| ==> s[i] < 128 }

  /** The device with its line looped back, and the terminal it feeds. */
  class Uart {
    const divisor: nat
    const term: Term
    var txState: nat
    var rxState: nat
    var txData: byte
    var rxData: byte
    var rxSendingStr: seq<byte>
    var rxIdle: bool
    var line: bit
    var divisorCnt: int
    var aborted: bool             // the terminal's assertion has failed
    ghost var received: seq<byte>

    ghost function View(): Port
      reads this
    {
      Port(txState, rxState, txData, rxData, rxSendingStr, rxIdle, line, received)
    }

    /** The terminal has failed exactly if it was handed a byte it does not accept, and otherwise
        shows what was received. */
    ghost predicate Fed()
      reads this, term, term.dirtyLine, term.dirtyChar, term.screen
    {
      && term.Valid()
      && (aborted <==> !Ascii(received))
      && (!aborted ==> term.T() == FeedAll(Fresh(term.w), term.w, Chars(received)))
    }

    ghost predicate Valid()
      reads this, term, term.dirtyLine, term.dirtyChar, term.screen
    {
      divisor >= 1 && Inv(View()) && Fed()
    }

    constructor (divisor: nat, w: nat, h: nat)
      requires divisor >= 1 && w >= 1 && h >= 1
      ensures Valid() && !aborted && View() == RESET && this.divisor == divisor && divisorCnt == 15
      ensures term.w == w && term.h == h
      ensures fresh(term) && fresh(term.dirtyLine) && fresh(term.dirtyChar) && fresh(term.screen)
    {
      this.divisor := divisor;
      term := new Term(w, h);
      txState, rxState, txData, rxData := 0, 0, 0, 0;
      rxSendingStr, rxIdle, line, divisorCnt, aborted, received := [], true, 1, 15, false, [];
    }

    /** tx_receive. The terminal asserts that it is fed 7-bit characters. */
    method TxReceiveBit()
      requires Valid() && !aborted
      modifies this`txState, this`txData, this`divisorCnt, this`received, this`aborted
      modifies term, term.dirtyLine, term.dirtyChar
      ensures View() == TxReceive(old(View())) && divisorCnt == divisor - 1
      ensures Fed() && (aborted ==> Inv(View()))
    {
      hide Inv, Stream, Ascii, Feed, FeedAll, Chars;
      ReceiveInv(View());
      divisorCnt := divisor - 1;
      if txState == 0 {
        if line == 0 {
          txData := 0;
          txState := txState + 1;
        }
      } else if 1 <= txState <= 8 {
        txData := line * 128 + txData / 2;
        txState := txState + 1;
      } else if txState == 9 {
        if line != 0 {
          txState := 0;
          HandOver();
        }
      }
    }

    /** The received character goes to the terminal. */
    method HandOver()
      requires Fed() && !aborted
      modifies this`received, this`aborted
      modifies term, term.dirtyLine, term.dirtyChar
      ensures Fed() && received == old(received) + [txData]
    {
      hide Ascii, Feed;
      var ok := term.FeedCh(txData as char);
      FeedReceived(term.w, received, txData);
      AsciiNext(received, txData);
      received := received + [txData];
      aborted := !ok;
    }

    /** rx_send. */
    method RxSendBit()
      modifies this`rxState, this`rxData, this`rxSendingStr, this`rxIdle, this`line
      ensures View() == RxSend(old(View()))
    {
      if rxState == 0 {
        rxData := if |rxSendingStr| == 0 then 0 else rxSendingStr[0];
        if rxData == 0 {
          rxIdle := true;
          return;
        }
        rxSendingStr := rxSendingStr[1..];
        line := 0;
        rxState := rxState + 1;
      } else if 1 <= rxState <= 8 {
        line := rxData % 2;
        rxData := rxData / 2;
        rxState := rxState + 1;
      } else if rxState == 9 {
        line := 1;
        rxState := 0;
      }
    }

    method RxGetchar(ch: byte)
      requires Valid()
      modifies this`rxSendingStr, this`rxIdle
      ensures Valid() && View() == Push(old(View()), ch)
    {
      PushInv(View(), ch);
      hide Inv, Stream;
      rxSendingStr := rxSendingStr + [ch];
      rxIdle := false;
    }

    /** The uart part of nvboard_update: every divisor-th call ticks.  A failed assertion ends
        the program in the middle of it. */
    method Update()
      requires Valid() && !aborted
      modifies this, term, term.dirtyLine, term.dirtyChar
      ensures Valid()
      ensures aborted <==> old(divisorCnt) <= 0 && !Ascii(Tick(old(View())).received)
      ensures !aborted ==> View() == if old(divisorCnt) <= 0 then Tick(old(View())) else old(View())
      ensures divisorCnt == if old(divisorCnt) <= 0 then divisor - 1 else old(divisorCnt) - 1
    {
      hide Inv, Stream, TxReceive, RxSend, Ascii;
      TickInv(View());
      divisorCnt := divisorCnt - 1;
      if divisorCnt < 0 {
        SendKeeps(TxReceive(old(View())));
        TxReceiveBit();
        assert received == TxReceive(old(View())).received;
        if aborted {
          return;
        }
        if !rxIdle {
          RxSendBit();
        }
      }
    }
  }

  lemma SendKeeps(p: Port)
    ensures RxSend(p).received == p.received
  {
  }

  lemma ReceiveInv(p: Port)
    requires Inv(p)
    ensures TxReceive(p).idle == p.idle && (p.line != 0 && p.txState == 9 ==> Inv(TxReceive(p)))
  {
  }

  lemma AsciiNext(bs: seq<byte>, b: byte)
    ensures Ascii(bs + [b]) <==> Ascii(bs) && b < 128
  {
    if Ascii(bs + [b]) {
      forall i | 0 <= i < |bs| ensures bs[i] < 128 {
        assert (bs + [b])[i] == bs[i];
      }
      assert (bs + [b])[|bs|] == b;
    }
  }

  lemma FeedReceived(w: nat, bs: seq<byte>, b: byte)
    requires w > 0
    ensures FeedAll(Fresh(w), w, Chars(bs + [b])) == Feed(FeedAll(Fresh(w), w, Chars(bs)), w, b as char)
  {
    assert Chars(bs + [b])[..|bs|] == Chars(bs);
  }

  // ----- the device over whole runs

  /** A call of nvboard_update, or a key for the device. */
  datatype Call = Poll | Press(ch: byte)

  /** The divisor counter and the ticks and keys so far. */
  datatype Clock = Clock(cnt: int, evs: seq<Event>)

  function ClockStep(c: Clock, divisor: nat, call: Call): Clock {
    match call
    case Press(ch) => c.(evs := c.evs + [PushEv(ch)])
    case Poll => if c.cnt <= 0 then Clock(divisor - 1, c.evs + [TickEv]) else c.(cnt := c.cnt - 1)
  }

  function Clocked(divisor: nat, calls: seq<Call>): Clock {
    if calls == [] then Clock(15, [])
    else ClockStep(Clocked(divisor, calls[..|calls| - 1]), divisor, calls[|calls| - 1])
  }

  function Polls(calls: seq<Call>): nat {
    if calls == [] then 0 else Polls(calls[..|calls| - 1]) + if calls[|calls| - 1].Poll? then 1 else 0
  }

  function TicksIn(evs: seq<Event>): nat {
    if evs == [] then 0 else TicksIn(evs[..|evs| - 1]) + if evs[|evs| - 1].TickEv? then 1 else 0
  }

  /** After n calls of nvboard_update: the first tick came with the sixteenth, the others every divisor calls. */
  predicate TicksOk(c: Clock, n: nat, divisor: nat)
    requires divisor >= 1
  {
    if n < 16 then TicksIn(c.evs) == 0 && c.cnt == 15 - n
    else TicksIn(c.evs) == (n - 16) / divisor + 1 && c.cnt == divisor - 1 - (n - 16) % divisor
  }

  lemma {:induction false} TickTimes(divisor: nat, calls: seq<Call>)
    requires divisor >= 1
    ensures TicksOk(Clocked(divisor, calls), Polls(calls), divisor)
  {
    if calls != [] {
      hide TicksOk, ClockStep;
      var front := calls[..|calls| - 1];
      TickTimes(divisor, front);
      CallTicks(Clocked(divisor, front), Polls(front), divisor, calls[|calls| - 1]);
    }
  }

  lemma CallTicks(c: Clock, n: nat, divisor: nat, call: Call)
    requires divisor >= 1 && TicksOk(c, n, divisor)
    ensures TicksOk(ClockStep(c, divisor, call), n + if call.Poll? then 1 else 0, divisor)
  {
    match call
    case Press(ch) => assert (c.evs + [PushEv(ch)])[..|c.evs|] == c.evs;
    case Poll =>
      assert (c.evs + [TickEv])[..|c.evs|] == c.evs;
      if n >= 16 {
        NextQuotient(n - 16, divisor);
      } else if n == 15 {
        Euclid(0, divisor, 0, 0);
      }
  }

  lemma NextQuotient(n: nat, d: nat)
    requires d > 0
    ensures (n + 1) / d == n / d + (if n % d == d - 1 then 1 else 0)
    ensures (n + 1) % d == if n % d == d - 1 then 0 else n % d + 1
  {
    var q, r := n / d, n % d;
    assert n == d * q + r && d * (q + 1) == d * q + d;
    if r == d - 1 {
      Euclid(n + 1, d, q + 1, 0);
    } else {
      Euclid(n + 1, d, q, r + 1);
    }
  }

  lemma AfterNext(p: Port, evs: seq<Event>, e: Event)
    ensures After(p, evs + [e]) == match e case TickEv => Tick(After(p, evs)) case PushEv(ch) => Push(After(p, evs), ch)
  {
    assert (evs + [e])[..|evs|] == evs;
  }

  lemma TickReceives(p: Port)
    ensures p.received <= Tick(p).received
  {
    hide ShiftIn, LowBit, Rest;
  }

  /** Nothing received is ever taken back. */
  lemma {:induction false} ReceivedGrows(divisor: nat, calls: seq<Call>, n: nat)
    requires n <= |calls|
    ensures After(RESET, Clocked(divisor, calls[..n]).evs).received
            <= After(RESET, Clocked(divisor, calls).evs).received
    decreases |calls|
  {
    if n == |calls| {
      assert calls[..n] == calls;
    } else {
      hide Tick, After;
      var front, last := calls[..|calls| - 1], calls[|calls| - 1];
      assert front[..n] == calls[..n];
      ReceivedGrows(divisor, front, n);
      var c := Clocked(divisor, front);
      AfterNext(RESET, c.evs, TickEv);
      TickReceives(After(RESET, c.evs));
      if last.Press? {
        AfterNext(RESET, c.evs, PushEv(last.ch));
      }
    }
  }

  method Serve(u: Uart, call: Call, ghost c: Clock, ghost divisor: nat)
    requires u.Valid() && !u.aborted && u.divisor == divisor
    requires u.View() == After(RESET, c.evs) && u.divisorCnt == c.cnt
    modifies u, u.term, u.term.dirtyLine, u.term.dirtyChar
    ensures var c' := ClockStep(c, divisor, call); var p := After(RESET, c'.evs);
      && u.Valid() && (u.aborted <==> !Ascii(p.received))
      && (!u.aborted ==> u.View() == p && u.divisorCnt == c'.cnt)
  {
    hide Inv, Ascii, Tick, After;
    AfterNext(RESET, c.evs, TickEv);
    match call {
      case Poll => u.Update();
      case Press(ch) =>
        AfterNext(RESET, c.evs, PushEv(ch));
        u.RxGetchar(ch);
    }
  }

  /** Any sequence of calls on a new device: the program ends at the terminal's assertion exactly
      if some byte received by then is no 7-bit character; otherwise the terminal shows all
      that was received, which is what was pushed but for what is under way or queued. */
  method RunDevice(divisor: nat, w: nat, h: nat, calls: seq<Call>) returns (u: Uart)
    requires divisor >= 1 && w >= 1 && h >= 1
    ensures var c := Clocked(divisor, calls); var p := After(RESET, c.evs);
      && u.Valid() && u.term.w == w
      && (u.aborted <==> !Ascii(p.received))
      && (!u.aborted ==> u.View() == p && u.term.T() == FeedAll(Fresh(w), w, Chars(p.received)))
      && Stream(p) == Pushed(c.evs)
  {
    hide Inv, Ascii, Stream, ClockStep, FeedAll, Fresh, Chars;
    u := new Uart(divisor, w, h);
    Conserved(Clocked(divisor, calls).evs);
    var i := 0;
    NothingYet(divisor);
    while i < |calls| && !u.aborted
      invariant 0 <= i <= |calls| && u.Valid() && u.divisor == divisor && u.term.w == w
      invariant fresh(u) && fresh(u.term) && fresh(u.term.dirtyLine) && fresh(u.term.dirtyChar) && fresh(u.term.screen)
      invariant u.aborted <==> !Ascii(After(RESET, Clocked(divisor, calls[..i]).evs).received)
      invariant !u.aborted ==> u.View() == After(RESET, Clocked(divisor, calls[..i]).evs)
      invariant !u.aborted ==> u.divisorCnt == Clocked(divisor, calls[..i]).cnt
    {
      assert calls[..i + 1][..i] == calls[..i];
      Serve(u, calls[i], Clocked(divisor, calls[..i]), divisor);
      i := i + 1;
    }
    if u.aborted {
      ReceivedGrows(divisor, calls, i);
      StillBad(After(RESET, Clocked(divisor, calls[..i]).evs).received,
               After(RESET, Clocked(divisor, calls).evs).received);
    } else {
      assert calls[..i] == calls;
    }
  }

  lemma NothingYet(divisor: nat)
    ensures Clocked(divisor, []) == Clock(15, []) && After(RESET, []) == RESET && Ascii(RESET.received)
  {
  }

  lemma StillBad(r: seq<int>, s: seq<int>)
    requires !Ascii(r) && r <= s
    ensures !Ascii(s)
  {
    var i :| 0 <= i < |r| && r[i] >= 128;
    assert s[i] == r[i];
  }
}
