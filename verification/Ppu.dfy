/** The scroll position of the picture unit, kept twice: packed in one address by the
    older renderer, and in five daisy-chained counters by the newer one. */
module Ppus {
  type u32 = bv32

  /** Fine vertical, nametable vertical and horizontal, tile row and tile column. */
  datatype Counters = Counters(fv: u32, v: u32, h: u32, vt: u32, ht: u32)

  predicate InRange(c: Counters) { c.fv < 8 && c.v < 2 && c.h < 2 && c.vt < 32 && c.ht < 32 }

  function Pack(fv: u32, v: u32, h: u32, vt: u32, ht: u32): u32 {
    (fv << 12) | (v << 11) | (h << 10) | (vt << 5) | ht
  }

  function Packed(c: Counters): u32 { Pack(c.fv, c.v, c.h, c.vt, c.ht) }

  /** The counters chained HT, VT, H, V, FV are one number of 15 bits. */
  predicate Stands(addr: u32, c: Counters) { InRange(c) && addr & 0x7FFF == Packed(c) }

  type Byte = b: u32 | b < 256

  // ----- the newer form: counters

  // Carry and remainder of a counter of 1, 3 or 5 bits.

  function Carry1(x: u32): u32 { x >> 1 }

  function Carry3(x: u32): u32 { x >> 3 }

  function Carry5(x: u32): u32 { x >> 5 }

  function Mod2(x: u32): u32 { x & 1 }

  function Mod8(x: u32): u32 { x & 7 }

  function Mod32(x: u32): u32 { x & 31 }

  function IncrementVs(c: Counters): Counters {
    var fv := c.fv + 1;
    var overflow := Carry3(fv);
    var vt := Mod32(c.vt + overflow);
    var wrap := vt == 30 && overflow == 1;
    c.(fv := Mod8(fv), vt := if wrap then 0 else vt, v := Mod2(if wrap then c.v + 1 else c.v))
  }

  function Increment2007(c: Counters, rendering: bool, by32: bool): Counters {
    if rendering then IncrementVs(c) else
      var ht := if by32 then c.ht else c.ht + 1;
      var vt := if by32 then c.vt + 1 else c.vt + Mod2(Carry5(ht));
      var h := c.h + Carry5(vt);
      var v := c.v + Carry1(h);
      var fv := c.fv + Carry1(v);
      Counters(Mod8(fv), Mod2(v), Mod2(h), Mod32(vt), Mod32(ht))
  }

  function InstallH(c: Counters, latch: Counters): Counters { c.(ht := latch.ht, h := latch.h) }

  function Access2007(c: Counters): u32 { ((c.fv & 3) << 12) | (c.v << 11) | (c.h << 10) | (c.vt << 5) | c.ht }

  // ----- the older form: a packed address

  function Fixit1(rad: u32): u32 {
    if rad & 0x7000 == 0x7000 then
      var r := rad ^ 0x7000;
      if r & 0x3E0 == 0x3A0 then r ^ 0xBA0
      else if r & 0x3E0 == 0x3E0 then r ^ 0x3E0
      else r + 0x20
    else rad + 0x1000
  }

  function Fixit2(rad: u32, temp: u32): u32 { (rad & 0xFBE0) | (temp & 0x041F) }

  function Step2007(addr: u32, by32: bool): u32 { if by32 then addr + 32 else addr + 1 }

  // ----- one form refines the other

  /** Within a tile only the fine scroll moves. */
  lemma InsideTile(addr: u32, fv: u32, v: u32, h: u32, vt: u32, ht: u32)
    requires fv < 8 && v < 2 && h < 2 && vt < 32 && ht < 32
    requires addr & 0x7FFF == Pack(fv, v, h, vt, ht)
    requires fv < 7
    ensures Fixit1(addr) & 0x7FFF == Pack(fv + 1, v, h, vt, ht)
  {
    hide *;
    FineScroll(addr, fv, v, h, vt, ht);
    NextFine(addr, fv, v, h, vt, ht);
    FixitInside(addr);
  }

  lemma FixitInside(addr: u32)
    requires addr & 0x7000 != 0x7000
    ensures Fixit1(addr) == addr + 0x1000
  {
  }

  lemma FineCount(fv: u32)
    requires fv < 7
    ensures fv + 1 < 8 && (fv + 1) >> 3 == 0 && (fv + 1) & 7 == fv + 1
  {
  }

  lemma FineScroll(addr: u32, fv: u32, v: u32, h: u32, vt: u32, ht: u32)
    requires fv < 7 && v < 2 && h < 2 && vt < 32 && ht < 32
    requires addr & 0x7FFF == Pack(fv, v, h, vt, ht)
    ensures addr & 0x7000 != 0x7000
  {
  }

  lemma NextFine(addr: u32, fv: u32, v: u32, h: u32, vt: u32, ht: u32)
    requires fv < 7 && v < 2 && h < 2 && vt < 32 && ht < 32
    requires addr & 0x7FFF == Pack(fv, v, h, vt, ht)
    ensures (addr + 0x1000) & 0x7FFF == Pack(fv + 1, v, h, vt, ht)
  {
  }

  /** From row 29, the last one of a nametable, into the other nametable. */
  lemma LastRow(addr: u32, fv: u32, v: u32, h: u32, vt: u32, ht: u32)
    requires fv < 8 && v < 2 && h < 2 && vt < 32 && ht < 32
    requires addr & 0x7FFF == Pack(fv, v, h, vt, ht)
    requires fv == 7 && vt == 29
    ensures Fixit1(addr) & 0x7FFF == Pack(0, (v + 1) & 1, h, 0, ht)
  {
  }

  /** From row 31, inside the attributes, around without switching. */
  lemma AttributeRow(addr: u32, fv: u32, v: u32, h: u32, vt: u32, ht: u32)
    requires fv < 8 && v < 2 && h < 2 && vt < 32 && ht < 32
    requires addr & 0x7FFF == Pack(fv, v, h, vt, ht)
    requires fv == 7 && vt == 31
    ensures Fixit1(addr) & 0x7FFF == Pack(0, v, h, 0, ht)
  {
  }

  lemma OtherRow(addr: u32, fv: u32, v: u32, h: u32, vt: u32, ht: u32)
    requires fv < 8 && v < 2 && h < 2 && vt < 32 && ht < 32
    requires addr & 0x7FFF == Pack(fv, v, h, vt, ht)
    requires fv == 7 && vt != 29 && vt != 31
    ensures Fixit1(addr) & 0x7FFF == Pack(0, v, h, vt + 1, ht) && (vt + 1) & 31 == vt + 1
  {
  }

  lemma VsRefines(addr: u32, c: Counters)
    requires Stands(addr, c)
    ensures Stands(Fixit1(addr), IncrementVs(c))
  {
    hide Fixit1, Pack;
    if c.fv < 7 {
      InsideTile(addr, c.fv, c.v, c.h, c.vt, c.ht);
      FineCount(c.fv);
    } else if c.vt == 29 {
      LastRow(addr, c.fv, c.v, c.h, c.vt, c.ht);
    } else if c.vt == 31 {
      AttributeRow(addr, c.fv, c.v, c.h, c.vt, c.ht);
    } else {
      OtherRow(addr, c.fv, c.v, c.h, c.vt, c.ht);
    }
  }

  lemma InstallRefines(addr: u32, c: Counters, temp: u32, latch: Counters)
    requires Stands(addr, c) && Stands(temp, latch)
    ensures Stands(Fixit2(addr, temp), InstallH(c, latch))
  {
    InstallPacked(addr, c.fv, c.v, c.h, c.vt, c.ht, temp, latch.fv, latch.v, latch.h, latch.vt, latch.ht);
    hide Fixit2, Pack;
  }

  lemma InstallPacked(addr: u32, fv: u32, v: u32, h: u32, vt: u32, ht: u32,
                      temp: u32, lfv: u32, lv: u32, lh: u32, lvt: u32, lht: u32)
    requires fv < 8 && v < 2 && h < 2 && vt < 32 && ht < 32 && lfv < 8 && lv < 2 && lh < 2 && lvt < 32 && lht < 32
    requires addr & 0x7FFF == Pack(fv, v, h, vt, ht) && temp & 0x7FFF == Pack(lfv, lv, lh, lvt, lht)
    ensures Fixit2(addr, temp) & 0x7FFF == Pack(fv, v, lh, vt, lht)
  {
  }

  lemma StepRefines(addr: u32, c: Counters, by32: bool)
    requires Stands(addr, c)
    ensures Stands(Step2007(addr, by32), Increment2007(c, false, by32))
  {
    if by32 {
      By32Packed(addr, c.fv, c.v, c.h, c.vt, c.ht);
    } else {
      ByOnePacked(addr, c.fv, c.v, c.h, c.vt, c.ht);
    }
    hide Pack;
  }

  lemma ByOnePacked(addr: u32, fv: u32, v: u32, h: u32, vt: u32, ht: u32)
    requires fv < 8 && v < 2 && h < 2 && vt < 32 && ht < 32
    requires addr & 0x7FFF == Pack(fv, v, h, vt, ht)
    ensures var ht1 := ht + 1;
            var vt1 := vt + ((ht1 >> 5) & 1);
            var h1 := h + (vt1 >> 5);
            var v1 := v + (h1 >> 1);
            var fv1 := fv + (v1 >> 1);
            (addr + 1) & 0x7FFF == Pack(fv1 & 7, v1 & 1, h1 & 1, vt1 & 31, ht1 & 31)
  {
  }

  lemma By32Packed(addr: u32, fv: u32, v: u32, h: u32, vt: u32, ht: u32)
    requires fv < 8 && v < 2 && h < 2 && vt < 32 && ht < 32
    requires addr & 0x7FFF == Pack(fv, v, h, vt, ht)
    ensures var vt1 := vt + 1;
            var h1 := h + (vt1 >> 5);
            var v1 := v + (h1 >> 1);
            var fv1 := fv + (v1 >> 1);
            (addr + 32) & 0x7FFF == Pack(fv1 & 7, v1 & 1, h1 & 1, vt1 & 31, ht & 31)
  {
  }

  /** $2007 accesses go to the same address. */
  lemma SameAccess(addr: u32, c: Counters)
    requires Stands(addr, c)
    ensures Access2007(c) & 0x3FFF == addr & 0x3FFF
  {
    AccessPacked(addr, c.fv, c.v, c.h, c.vt, c.ht);
  }

  lemma AccessPacked(addr: u32, fv: u32, v: u32, h: u32, vt: u32, ht: u32)
    requires fv < 8 && v < 2 && h < 2 && vt < 32 && ht < 32
    requires addr & 0x7FFF == Pack(fv, v, h, vt, ht)
    ensures (((fv & 3) << 12) | (v << 11) | (h << 10) | (vt << 5) | ht) & 0x3FFF == addr & 0x3FFF
  {
  }

  // ----- register writes

  /** The two writes to $2005 set the scroll position in dots: eight to a tile. */
  lemma ScrollPosition(n: New, x: Byte, y: Byte)
    ensures var n' := New2005(New2005(n, false, x), true, y);
      && n'.latch.ht * 8 + n'.fh == x && n'.latch.vt * 8 + n'.latch.fv == y
      && n'.latch.h == n.latch.h && n'.latch.v == n.latch.v && n'.cur == n.cur
  {
    TileAndFine(x);
    TileAndFine(y);
    hide Tile, Fine;
  }

  lemma TileAndFine(b: Byte)
    ensures Tile(b) * 8 + Fine(b) == b
  {
  }

  /** The next line of the picture: of the 240 of a nametable, the last one is followed by the first one of the other
      nametable; lines in the attributes wrap without switching. */
  lemma NextLine(c: Counters)
    requires InRange(c)
    ensures var c', line := IncrementVs(c), c.vt * 8 + c.fv;
      && c'.vt * 8 + c'.fv == (if line == 239 || line == 255 then 0 else line + 1)
      && c'.v == (if line == 239 then 1 - c.v else c.v) && c'.h == c.h && c'.ht == c.ht
  {
  }

  /** The older form: TempAddr, RefreshAddr, the write toggle and the fine horizontal scroll. */
  datatype Old = Old(temp: u32, refresh: u32, toggle: bool, xOffset: u32)

  /** The newer form: latches, counters and its own fine horizontal scroll. */
  datatype New = New(latch: Counters, cur: Counters, fh: u32)

  // The fields of a written byte.

  function Tile(b: u32): u32 { b >> 3 }

  function Fine(b: u32): u32 { b & 7 }

  function Bit0(b: u32): u32 { b & 1 }

  function Bit1(b: u32): u32 { (b >> 1) & 1 }

  function Bit2(b: u32): u32 { (b >> 2) & 1 }

  function Bit3(b: u32): u32 { (b >> 3) & 1 }

  function Bits45(b: u32): u32 { (b >> 4) & 3 }

  function Low5(b: u32): u32 { b & 31 }

  function RowHigh(vt: u32, b: u32): u32 { (vt & 0x07) | ((b & 3) << 3) }

  function RowLow(vt: u32, b: u32): u32 { (vt & 0x18) | (b >> 5) }

  // TempAddr after a write.

  function Temp2000(temp: u32, b: u32): u32 { (temp & 0xF3FF) | ((b & 3) << 10) }

  function Temp2005First(temp: u32, b: u32): u32 { (temp & 0xFFE0) | (b >> 3) }

  function Temp2005Second(temp: u32, b: u32): u32 {
    (temp & 0x8C1F) | ((b & 0xFFFF_FFF8) << 2) | ((b & 7) << 12)
  }

  function Temp2006First(temp: u32, b: u32): u32 { (temp & 0x00FF) | ((b & 0x3F) << 8) }

  function Temp2006Second(temp: u32, b: u32): u32 { (temp & 0xFF00) | b }

  function Old2000(o: Old, v: Byte): Old { o.(temp := Temp2000(o.temp, v)) }

  function New2000(n: New, v: Byte): New { n.(latch := n.latch.(h := Bit0(v), v := Bit1(v))) }

  function Old2005(o: Old, v: Byte): Old {
    if !o.toggle then o.(temp := Temp2005First(o.temp, v), xOffset := Fine(v), toggle := true)
    else o.(temp := Temp2005Second(o.temp, v), toggle := false)
  }

  function New2005(n: New, toggle: bool, v: Byte): New {
    if !toggle then n.(latch := n.latch.(ht := Tile(v)), fh := Fine(v))
    else n.(latch := n.latch.(vt := Tile(v), fv := Fine(v)))
  }

  function Old2006(o: Old, v: Byte): Old {
    if !o.toggle then o.(temp := Temp2006First(o.temp, v), toggle := true)
    else
      var temp := Temp2006Second(o.temp, v);
      o.(temp := temp, refresh := temp, toggle := false)
  }

  function New2006(n: New, toggle: bool, v: Byte): New {
    if !toggle then
      n.(latch := n.latch.(vt := RowHigh(n.latch.vt, v), h := Bit2(v), v := Bit3(v), fv := Bits45(v)))
    else
      var latch := n.latch.(vt := RowLow(n.latch.vt, v), ht := Low5(v));
      n.(latch := latch, cur := latch)
  }

  lemma Packed2000(temp: u32, fv: u32, v: u32, h: u32, vt: u32, ht: u32, b: u32)
    requires fv < 8 && v < 2 && h < 2 && vt < 32 && ht < 32 && b < 256
    requires temp & 0x7FFF == Pack(fv, v, h, vt, ht)
    ensures Temp2000(temp, b) & 0x7FFF == Pack(fv, Bit1(b), Bit0(b), vt, ht) && Bit1(b) < 2 && Bit0(b) < 2
  {
  }

  lemma Packed2005First(temp: u32, fv: u32, v: u32, h: u32, vt: u32, ht: u32, b: u32)
    requires fv < 8 && v < 2 && h < 2 && vt < 32 && ht < 32 && b < 256
    requires temp & 0x7FFF == Pack(fv, v, h, vt, ht)
    ensures Temp2005First(temp, b) & 0x7FFF == Pack(fv, v, h, vt, Tile(b)) && Tile(b) < 32
  {
  }

  lemma Packed2005Second(temp: u32, fv: u32, v: u32, h: u32, vt: u32, ht: u32, b: u32)
    requires fv < 8 && v < 2 && h < 2 && vt < 32 && ht < 32 && b < 256
    requires temp & 0x7FFF == Pack(fv, v, h, vt, ht)
    ensures Temp2005Second(temp, b) & 0x7FFF == Pack(Fine(b), v, h, Tile(b), ht) && Fine(b) < 8 && Tile(b) < 32
  {
  }

  lemma Packed2006First(temp: u32, fv: u32, v: u32, h: u32, vt: u32, ht: u32, b: u32)
    requires fv < 8 && v < 2 && h < 2 && vt < 32 && ht < 32 && b < 256
    requires temp & 0x7FFF == Pack(fv, v, h, vt, ht)
    ensures Temp2006First(temp, b) & 0x7FFF == Pack(Bits45(b), Bit3(b), Bit2(b), RowHigh(vt, b), ht)
    ensures Bits45(b) < 8 && Bit3(b) < 2 && Bit2(b) < 2 && RowHigh(vt, b) < 32
  {
  }

  lemma Packed2006Second(temp: u32, fv: u32, v: u32, h: u32, vt: u32, ht: u32, b: u32)
    requires fv < 8 && v < 2 && h < 2 && vt < 32 && ht < 32 && b < 256
    requires temp & 0x7FFF == Pack(fv, v, h, vt, ht)
    ensures Temp2006Second(temp, b) & 0x7FFF == Pack(fv, v, h, RowLow(vt, b), Low5(b))
    ensures RowLow(vt, b) < 32 && Low5(b) < 32
  {
  }

  /** Both forms hold the same latched scroll position. */
  predicate Latched(o: Old, n: New) { Stands(o.temp, n.latch) && o.xOffset == n.fh }

  /** And the same current one. */
  predicate Coupled(o: Old, n: New) { Latched(o, n) && Stands(o.refresh, n.cur) }

  lemma Write2000Coupled(o: Old, n: New, v: Byte)
    requires Coupled(o, n)
    ensures Coupled(Old2000(o, v), New2000(n, v))
  {
    hide Pack, Temp2000, Bit0, Bit1;
    Packed2000(o.temp, n.latch.fv, n.latch.v, n.latch.h, n.latch.vt, n.latch.ht, v);
  }

  lemma Write2005Coupled(o: Old, n: New, v: Byte)
    requires Coupled(o, n)
    ensures Coupled(Old2005(o, v), New2005(n, o.toggle, v))
  {
    hide Pack, Temp2005First, Temp2005Second, Tile, Fine;
    var l := n.latch;
    if !o.toggle {
      Packed2005First(o.temp, l.fv, l.v, l.h, l.vt, l.ht, v);
    } else {
      Packed2005Second(o.temp, l.fv, l.v, l.h, l.vt, l.ht, v);
    }
  }

  lemma Write2006Coupled(o: Old, n: New, v: Byte)
    requires Coupled(o, n)
    ensures Coupled(Old2006(o, v), New2006(n, o.toggle, v))
  {
    hide Pack, Temp2006First, Temp2006Second, RowHigh, RowLow, Bit2, Bit3, Bits45, Low5;
    var l := n.latch;
    if !o.toggle {
      Packed2006First(o.temp, l.fv, l.v, l.h, l.vt, l.ht, v);
    } else {
      Packed2006Second(o.temp, l.fv, l.v, l.h, l.vt, l.ht, v);
    }
  }

  // ----- runs

  /** on: the background or the sprites are shown; drawing: moreover, the beam is in the picture. */
  datatype Event =
    | W2000(b: Byte)
    | R2002
    | W2005(b: Byte)
    | W2006(b: Byte)
    | R2007(drawing: bool, by32: bool)
    | W2007(drawing: bool, by32: bool)
    | LineDone(on: bool)
    | LineBlank(on: bool)
    | FrameStart(on: bool)

  /** How an event moves the older form when the older renderer runs. */
  function OldStep(o: Old, e: Event): Old {
    match e
    case W2000(b) => Old2000(o, b)
    case R2002 => o.(toggle := false)
    case W2005(b) => Old2005(o, b)
    case W2006(b) => Old2006(o, b)
    case R2007(drawing, by32) => o.(refresh := if drawing then Fixit1(o.refresh) else Step2007(o.refresh, by32))
    case W2007(_, by32) => o.(refresh := Step2007(o.refresh, by32))
    case LineDone(on) => if on then o.(refresh := Fixit1(o.refresh)) else o
    case LineBlank(on) => if on then o.(refresh := Fixit2(o.refresh, o.temp)) else o
    case FrameStart(on) => if on then o.(refresh := o.temp) else o
  }

  /** How an event moves the newer form when the newer renderer runs. */
  function NewStep(n: New, toggle: bool, e: Event): New {
    match e
    case W2000(b) => New2000(n, b)
    case R2002 => n
    case W2005(b) => New2005(n, toggle, b)
    case W2006(b) => New2006(n, toggle, b)
    case R2007(drawing, by32) => n.(cur := Increment2007(n.cur, drawing, by32))
    case W2007(drawing, by32) => n.(cur := Increment2007(n.cur, drawing, by32))
    case LineDone(on) => if on then n.(cur := IncrementVs(n.cur)) else n
    case LineBlank(on) => if on then n.(cur := InstallH(n.cur, n.latch)) else n
    case FrameStart(on) => if on then n.(cur := n.latch) else n
  }

  lemma StepCoupled(o: Old, n: New, e: Event)
    requires Coupled(o, n) && !DrawingWrite(e)
    ensures Coupled(OldStep(o, e), NewStep(n, o.toggle, e))
  {
    hide Stands, Old2000, New2000, Old2005, New2005, Old2006, New2006, Fixit1, IncrementVs, Fixit2, InstallH,
         Step2007, Increment2007;
    match e {
      case W2000(b) => Write2000Coupled(o, n, b);
      case R2002 =>
      case W2005(b) => Write2005Coupled(o, n, b);
      case W2006(b) => Write2006Coupled(o, n, b);
      case R2007(drawing, by32) => ReadCoupled(o, n, drawing, by32);
      case W2007(_, by32) => StepRefines(o.refresh, n.cur, by32);
      case LineDone(on) => VsRefines(o.refresh, n.cur);
      case LineBlank(on) => InstallRefines(o.refresh, n.cur, o.temp, n.latch);
      case FrameStart(on) =>
    }
  }

  lemma ReadCoupled(o: Old, n: New, drawing: bool, by32: bool)
    requires Coupled(o, n)
    ensures Coupled(OldStep(o, R2007(drawing, by32)), NewStep(n, o.toggle, R2007(drawing, by32)))
  {
    hide Stands, Fixit1, IncrementVs, Step2007;
    VsRefines(o.refresh, n.cur);
    StepRefines(o.refresh, n.cur, by32);
    assert Increment2007(n.cur, true, by32) == IncrementVs(n.cur);
  }

  /** A $2007 write while the picture is drawn moves the two forms differently. */
  predicate DrawingWrite(e: Event) { e.W2007? && e.drawing }

  /** The current position is loaded from the latched one. */
  predicate Reloads(toggle: bool, e: Event) { e == FrameStart(true) || (e.W2006? && toggle) }

  lemma StepLatched(o: Old, n: New, e: Event)
    requires Latched(o, n)
    ensures Latched(OldStep(o, e), NewStep(n, o.toggle, e))
    ensures Reloads(o.toggle, e) ==> Coupled(OldStep(o, e), NewStep(n, o.toggle, e))
  {
    hide Stands, Temp2000, Temp2005First, Temp2005Second, Temp2006First, Temp2006Second, Tile, Fine, RowHigh, RowLow,
         Bit0, Bit1, Bit2, Bit3, Bits45, Low5, Fixit1, IncrementVs, Fixit2, InstallH, Step2007, Increment2007;
    var o', n' := o.(refresh := o.temp), n.(cur := n.latch);
    match e {
      case W2000(b) => Write2000Coupled(o', n', b);
      case W2005(b) => Write2005Coupled(o', n', b);
      case W2006(b) => Write2006Coupled(o', n', b);
      case _ =>
    }
  }

  // ----- the two renderers

  /** What the registers hold, whichever renderer runs. */
  datatype Regs = Regs(address: Old, ppur: New)

  /** One event with the older or the newer renderer running: the registers $2000, $2005 and
      $2006 write both forms, everything else moves the form of the renderer, and
      the newer one leaves its $2007 address in RefreshAddr. */
  function Step(newppu: bool, r: Regs, e: Event): Regs {
    if e.W2000? || e.R2002? || e.W2005? || e.W2006? then
      Regs(OldStep(r.address, e), NewStep(r.ppur, r.address.toggle, e))
    else if !newppu then r.(address := OldStep(r.address, e))
    else
      var n := NewStep(r.ppur, r.address.toggle, e);
      Regs(if e.R2007? || e.W2007? then r.address.(refresh := Access2007(n.cur)) else r.address, n)
  }

  function RunUnit(newppu: bool, r: Regs, es: seq<Event>): Regs
    decreases |es|
  {
    if es == [] then r else RunUnit(newppu, Step(newppu, r, es[0]), es[1..])
  }

  function ToggleStep(toggle: bool, e: Event): bool {
    if e.R2002? then false else if e.W2005? || e.W2006? then !toggle else toggle
  }

  /** No drawing write since the current position was last loaded. */
  function Clean(clean: bool, toggle: bool, es: seq<Event>): bool
    decreases |es|
  {
    if es == [] then clean
    else Clean(Reloads(toggle, es[0]) || (clean && !DrawingWrite(es[0])), ToggleStep(toggle, es[0]), es[1..])
  }

  /** Unit a with the older renderer and unit b with the newer one, after the same events. */
  predicate Agree(a: Regs, b: Regs, clean: bool) {
    && Latched(a.address, b.ppur)
    && a.address.temp == b.address.temp && a.address.xOffset == b.address.xOffset
    && a.address.toggle == b.address.toggle
    && a.ppur.latch == b.ppur.latch && a.ppur.fh == b.ppur.fh
    && (clean ==> Stands(a.address.refresh, b.ppur.cur))
  }

  lemma StepAgree(a: Regs, b: Regs, clean: bool, e: Event)
    requires Agree(a, b, clean)
    ensures var toggle := a.address.toggle;
      && Agree(Step(false, a, e), Step(true, b, e), Reloads(toggle, e) || (clean && !DrawingWrite(e)))
      && Step(false, a, e).address.toggle == ToggleStep(toggle, e)
  {
    StepLatched(a.address, b.ppur, e);
    if clean && !DrawingWrite(e) {
      StepCoupled(a.address, b.ppur, e);
    }
    hide Stands, Temp2000, Temp2005First, Temp2005Second, Temp2006First, Temp2006Second, Tile, Fine, RowHigh, RowLow,
         Bit0, Bit1, Bit2, Bit3, Bits45, Low5, Fixit1, IncrementVs, Fixit2, InstallH, Step2007, Increment2007,
             Access2007;
  }

  lemma {:induction false} RunsAgree(a: Regs, b: Regs, clean: bool, es: seq<Event>)
    requires Agree(a, b, clean)
    ensures Agree(RunUnit(false, a, es), RunUnit(true, b, es), Clean(clean, a.address.toggle, es))
    decreases |es|
  {
    hide Agree, Step;
    if es != [] {
      var toggle, e := a.address.toggle, es[0];
      StepAgree(a, b, clean, e);
      RunsAgree(Step(false, a, e), Step(true, b, e), Reloads(toggle, e) || (clean && !DrawingWrite(e)), es[1..]);
    }
  }

  const RESET: Regs := Regs(Old(0, 0, false, 0),
                            New(Counters(0, 0, 0, 0, 0), Counters(0, 0, 0, 0, 0), 0))

  /** The same events with either renderer: the latched scroll position is the same number in
      both forms of both units, and so is the current one if no $2007 write was made in
      the picture since it was last loaded. */
  lemma ScrollsAgree(es: seq<Event>)
    ensures var a, b := RunUnit(false, RESET, es), RunUnit(true, RESET, es);
      && Latched(a.address, b.ppur) && Latched(a.address, a.ppur) && Latched(b.address, b.ppur)
      && a.address.toggle == b.address.toggle
      && (Clean(true, false, es) ==> Coupled(a.address, b.ppur))
  {
    ResetAgree();
    hide Stands, Step, RunUnit;
    RunsAgree(RESET, RESET, true, es);
  }

  lemma ResetAgree()
    ensures Agree(RESET, RESET, true)
  {
    assert Pack(0, 0, 0, 0, 0) == 0;
  }

  /** In particular a program that keeps its $2007 writes out of the picture sees no difference. */
  lemma {:induction false} NoDrawingWrites(toggle: bool, es: seq<Event>)
    requires forall i :: 0 <= i < |es| ==> !DrawingWrite(es[i])
    ensures Clean(true, toggle, es)
    decreases |es|
  {
    if es != [] {
      NoDrawingWrites(ToggleStep(toggle, es[0]), es[1..]);
    }
  }

  /** Such a write always parts them: the older form steps by 1 or 32, the newer one clocks
      the vertical scroll. */
  lemma DrawingWriteParts(a: Regs, b: Regs, e: Event)
    requires Coupled(a.address, b.ppur) && DrawingWrite(e)
    ensures !Coupled(Step(false, a, e).address, Step(true, b, e).ppur)
  {
    hide Stands, Step2007, Increment2007, Access2007;
    PartsAt(a.address.refresh, b.ppur.cur, e.by32);
  }

  lemma PartsAt(addr: u32, c: Counters, by32: bool)
    requires Stands(addr, c)
    ensures !Stands(Step2007(addr, by32), Increment2007(c, true, by32))
  {
    hide Pack, Fixit1, Step2007;
    VsRefines(addr, c);
    NeverEqual(addr, by32);
  }

  lemma NeverEqual(addr: u32, by32: bool)
    ensures Step2007(addr, by32) & 0x7FFF != Fixit1(addr) & 0x7FFF
  {
    var step: u32 := if by32 then 32 else 1;
    if addr & 0x7000 != 0x7000 {
      FixitInside(addr);
      InsideParts(addr, step);
    } else if (addr ^ 0x7000) & 0x3E0 == 0x3A0 {
      LastRowParts(addr, step);
    } else if (addr ^ 0x7000) & 0x3E0 == 0x3E0 {
      AttributeParts(addr, step);
    } else {
      OtherParts(addr, step);
    }
  }

  lemma InsideParts(addr: u32, step: u32)
    requires step == 1 || step == 32
    ensures (addr + step) & 0x7FFF != (addr + 0x1000) & 0x7FFF
  {
  }

  lemma LastRowParts(addr: u32, step: u32)
    requires (step == 1 || step == 32) && addr & 0x7000 == 0x7000
    ensures (addr + step) & 0x7FFF != ((addr ^ 0x7000) ^ 0xBA0) & 0x7FFF
  {
  }

  lemma AttributeParts(addr: u32, step: u32)
    requires (step == 1 || step == 32) && addr & 0x7000 == 0x7000
    ensures (addr + step) & 0x7FFF != ((addr ^ 0x7000) ^ 0x3E0) & 0x7FFF
  {
  }

  lemma OtherParts(addr: u32, step: u32)
    requires (step == 1 || step == 32) && addr & 0x7000 == 0x7000
    ensures (addr + step) & 0x7FFF != ((addr ^ 0x7000) + 0x20) & 0x7FFF
  {
  }

  // ----- the registers, updated in place

  class Ppu {
    const newppu: bool            // which renderer runs
    var address: Old
    var ppur: New

    function Registers(): Regs
      reads this
    {
      Regs(address, ppur)
    }

    /** The latched position is the same in both forms. */
    ghost predicate Valid()
      reads this
    {
      Latched(address, ppur)
    }

    constructor (newppu: bool)
      ensures Valid() && this.newppu == newppu && Registers() == RESET
    {
      this.newppu := newppu;
      address, ppur := RESET.address, RESET.ppur;
      new;
      ResetAgree();
    }

    /** $2000. */
    method B2000(b: Byte)
      requires Valid()
      modifies this
      ensures Valid() && Registers() == Step(newppu, old(Registers()), W2000(b))
    {
      StepLatched(address, ppur, W2000(b));
      hide Latched, Temp2000, Bit0, Bit1;
      address := address.(temp := Temp2000(address.temp, b));
      ppur := ppur.(latch := ppur.latch.(h := Bit0(b)));
      ppur := ppur.(latch := ppur.latch.(v := Bit1(b)));
    }

    /** $2002 resets the write toggle. */
    method A2002()
      requires Valid()
      modifies this`address
      ensures Valid() && Registers() == Step(newppu, old(Registers()), R2002)
    {
      hide Stands;
      address := address.(toggle := false);
    }

    /** $2005. */
    method B2005(b: Byte)
      requires Valid()
      modifies this
      ensures Valid() && Registers() == Step(newppu, old(Registers()), W2005(b))
    {
      StepLatched(address, ppur, W2005(b));
      hide Latched, Temp2005First, Temp2005Second, Tile, Fine;
      var tmp := address.temp;
      if !address.toggle {
        tmp := Temp2005First(tmp, b);
        address := address.(xOffset := Fine(b));
        ppur := ppur.(latch := ppur.latch.(ht := Tile(b)), fh := Fine(b));
      } else {
        tmp := Temp2005Second(tmp, b);
        ppur := ppur.(latch := ppur.latch.(vt := Tile(b), fv := Fine(b)));
      }
      address := address.(temp := tmp, toggle := !address.toggle);
    }

    /** $2006. The second write makes the address current in both forms. */
    method B2006(b: Byte)
      requires Valid()
      modifies this
      ensures Valid() && Registers() == Step(newppu, old(Registers()), W2006(b))
      ensures old(address).toggle ==> Coupled(address, ppur)
    {
      StepLatched(address, ppur, W2006(b));
      hide Latched, Coupled, Temp2006First, Temp2006Second, RowHigh, RowLow, Bit2, Bit3, Bits45, Low5;
      if !address.toggle {
        address := address.(temp := Temp2006First(address.temp, b));
        ppur := ppur.(latch := ppur.latch.(vt := RowHigh(ppur.latch.vt, b), h := Bit2(b), v := Bit3(b),
            fv := Bits45(b)));
      } else {
        address := address.(temp := Temp2006Second(address.temp, b));
        address := address.(refresh := address.temp);
        ppur := ppur.(latch := ppur.latch.(vt := RowLow(ppur.latch.vt, b), ht := Low5(b)));
        ppur := ppur.(cur := ppur.latch);
      }
      address := address.(toggle := !address.toggle);
    }

    /** What a $2007 read does to the address, in the form of the running renderer. */
    method A2007(drawing: bool, by32: bool)
      requires Valid()
      modifies this
      ensures Valid() && Registers() == Step(newppu, old(Registers()), R2007(drawing, by32))
    {
      hide Stands, Fixit1, Increment2007, Step2007, Access2007;
      if newppu {
        ppur := ppur.(cur := Increment2007(ppur.cur, drawing, by32));
        address := address.(refresh := Access2007(ppur.cur));
      } else if drawing {
        address := address.(refresh := Fixit1(address.refresh));
      } else {
        address := address.(refresh := Step2007(address.refresh, by32));
      }
    }

    /** What a $2007 write does to it. */
    method B2007(drawing: bool, by32: bool)
      requires Valid()
      modifies this
      ensures Valid() && Registers() == Step(newppu, old(Registers()), W2007(drawing, by32))
    {
      hide Stands, Increment2007, Step2007, Access2007;
      if newppu {
        ppur := ppur.(cur := Increment2007(ppur.cur, drawing, by32));
        address := address.(refresh := Access2007(ppur.cur));
      } else {
        address := address.(refresh := Step2007(address.refresh, by32));
      }
    }

    /** The end of a visible line: Fixit1, or increment_vs. */
    method LineEnd(on: bool)
      requires Valid()
      modifies this
      ensures Valid() && Registers() == Step(newppu, old(Registers()), LineDone(on))
    {
      hide Stands, Fixit1, IncrementVs;
      if on {
        if newppu {
          ppur := ppur.(cur := IncrementVs(ppur.cur));
        } else {
          address := address.(refresh := Fixit1(address.refresh));
        }
      }
    }

    /** The horizontal blank: Fixit2, or install_h_latches. */
    method LineRestart(on: bool)
      requires Valid()
      modifies this
      ensures Valid() && Registers() == Step(newppu, old(Registers()), LineBlank(on))
    {
      hide Stands, Fixit2;
      if on {
        if newppu {
          ppur := ppur.(cur := ppur.cur.(ht := ppur.latch.ht));
          ppur := ppur.(cur := ppur.cur.(h := ppur.latch.h));
        } else {
          address := address.(refresh := Fixit2(address.refresh, address.temp));
        }
      }
    }

    /** The start of a frame loads the latched position into the form of the running renderer. */
    method FrameLoad(on: bool)
      requires Valid()
      modifies this
      ensures Valid() && Registers() == Step(newppu, old(Registers()), FrameStart(on))
    {
      hide Stands;
      if on {
        if newppu {
          ppur := ppur.(cur := ppur.latch);
        } else {
          address := address.(refresh := address.temp);
        }
      }
    }

    method Handle(e: Event)
      requires Valid()
      modifies this
      ensures Valid() && Registers() == Step(newppu, old(Registers()), e)
    {
      hide Step, Latched;
      match e {
        case W2000(b) => B2000(b);
        case R2002 => A2002();
        case W2005(b) => B2005(b);
        case W2006(b) => B2006(b);
        case R2007(drawing, by32) => A2007(drawing, by32);
        case W2007(drawing, by32) => B2007(drawing, by32);
        case LineDone(on) => LineEnd(on);
        case LineBlank(on) => LineRestart(on);
        case FrameStart(on) => FrameLoad(on);
      }
    }
  }

  /** Both units, each with its own renderer, through the same events. */
  method RunBoth(es: seq<Event>) returns (a: Ppu, b: Ppu)
    ensures fresh(a) && fresh(b) && a != b && !a.newppu && b.newppu
    ensures Latched(a.address, b.ppur) && Latched(b.address, a.ppur) && a.address.toggle == b.address.toggle
    ensures Clean(true, false, es) ==> Coupled(a.address, b.ppur)
  {
    hide Stands, Step;
    a := new Ppu(false);
    b := new Ppu(true);
    ResetAgree();
    RunsAgree(RESET, RESET, true, es);
    var i := 0;
    while i < |es|
      invariant 0 <= i <= |es| && a.Valid() && b.Valid() && !a.newppu && b.newppu && fresh(a) && fresh(b) && a != b
      invariant RunUnit(false, a.Registers(), es[i..]) == RunUnit(false, RESET, es)
      invariant RunUnit(true, b.Registers(), es[i..]) == RunUnit(true, RESET, es)
    {
      assert es[i..][1..] == es[i + 1..];
      a.Handle(es[i]);
      b.Handle(es[i]);
      i := i + 1;
    }
  }
}
