/** Bank switching: 32 page pointers of 2 KiB each, set from a bank number by masks. */
module Carts {
  import opened Basics

  const PAGE: nat := 0x800

  // ----- bit masks

  /** Bitwise and. */
  function And(a: nat, b: nat): nat
    decreases a
  {
    if a == 0 then 0 else (if a % 2 == 1 && b % 2 == 1 then 1 else 0) + 2 * And(a / 2, b / 2)
  }

  ghost predicate IsPow2(n: nat) { exists k: nat :: n == Pow2(k) }

  /** A mask of ones takes the remainder. */
  lemma {:induction false} MaskModulo(v: nat, k: nat)
    ensures And(v, Pow2(k) - 1) == v % Pow2(k)
    decreases k
  {
    if k == 0 {
      AndZero(v);
    } else {
      var p := Pow2(k - 1);
      assert Pow2(k) == 2 * p;
      hide *;
      MaskModulo(v / 2, k - 1);
      AndStep(v, p);
      Halved(v, p);
    }
  }

  lemma AndStep(v: nat, p: nat)
    requires p > 0
    ensures And(v, 2 * p - 1) == v % 2 + 2 * And(v / 2, p - 1)
  {
    assert (2 * p - 1) % 2 == 1 && (2 * p - 1) / 2 == p - 1;
  }

  lemma {:induction false} AndZero(v: nat)
    ensures And(v, 0) == 0
  {
    if v > 0 {
      AndZero(v / 2);
    }
  }

  lemma Halved(v: nat, p: nat)
    requires p > 0
    ensures v % (2 * p) == 2 * (v / 2 % p) + v % 2
  {
    var q, r := v / 2 / p, v / 2 % p;
    assert v / 2 == p * q + r;
    assert v == (2 * p) * q + (2 * r + v % 2);
    Euclid(v, 2 * p, q, 2 * r + v % 2);
  }

  /** Masking with n - 1 takes the remainder for every bank number exactly when n is a
      power of two. Otherwise already v = n fails. */
  lemma MaskIsModuloExactly(n: nat)
    requires n > 0
    ensures (forall v: nat :: And(v, n - 1) == v % n) <==> IsPow2(n)
  {
    if IsPow2(n) {
      var k: nat :| n == Pow2(k);
      forall v: nat
        ensures And(v, n - 1) == v % n
      {
        MaskModulo(v, k);
      }
    } else if forall v: nat :: And(v, n - 1) == v % n {
      assert And(n, n - 1) == n % n == 0;
      OneBit(n);
    }
  }

  /** Only a power of two has no bit in common with its predecessor. */
  lemma {:induction false} OneBit(n: nat)
    requires n > 0 && And(n, n - 1) == 0
    ensures IsPow2(n)
  {
    if n == 1 {
      assert 1 == Pow2(0);
    } else if n % 2 == 0 {
      assert (n - 1) / 2 == n / 2 - 1;
      OneBit(n / 2);
      var k: nat :| n / 2 == Pow2(k);
      assert n == Pow2(k + 1);
    } else {
      assert (n - 1) / 2 == n / 2;
      AndSelf(n / 2);
    }
  }

  lemma {:induction false} AndSelf(n: nat)
    ensures And(n, n) == n
  {
    if n > 0 {
      AndSelf(n / 2);
    }
  }

  // ----- pages

  /** A page pointer: chip and offset, already lowered by the address of the page. */
  datatype Ptr = Ptr(chip: nat, base: int)

  /** One PRG chip: contents, size in bytes, whether it is RAM. */
  datatype Chip = Chip(data: Option<seq<byte>>, size: nat, ram: bool)

  predicate ChipOk(c: Chip) { c.size < TWO_32 && (c.data.Some? ==> |c.data.value| == c.size) }

  /** PRGmask2 .. PRGmask32: n is the number of 2 KiB pages in a bank. */
  function Mask(c: Chip, n: nat): nat
    requires n > 0
  {
    (c.size / (n * PAGE) - 1) % TWO_32
  }

  type Pages = seq<Option<Ptr>>

  /** [ab, ab + n) replaced, by one pointer for all. */
  function Filled(pages: Pages, ab: nat, n: nat, p: Option<Ptr>): (r: Pages)
    ensures |r| == |pages|
  {
    seq(|pages|, k requires 0 <= k < |pages| => if ab <= k < ab + n then p else pages[k])
  }

  function Pointer(c: Chip, r: nat, offset: nat, a: nat): Option<Ptr> {
    if c.data.Some? then Some(Ptr(r, offset - a)) else None
  }

  /** The pages a bank of a small chip gets, one by one. */
  function Piecewise(pages: Pages, c: Chip, r: nat, n: nat, a: nat, v: nat, count: nat): (q: Pages)
    requires n > 0
    ensures |q| == |pages|
  {
    if count == 0 then pages else
      var x := count - 1;
      Filled(Piecewise(pages, c, r, n, a, v, x), a / PAGE + x, 1,
             Pointer(c, r, And((v * n % TWO_32 + x) % TWO_32, Mask(c, 1)) * PAGE, a + x * PAGE))
  }

  /** setprg8r, setprg16r and setprg32r with n = 4, 8 and 16. */
  function Banked(pages: Pages, c: Chip, r: nat, n: nat, a: nat, v: nat): Pages
    requires n > 0
  {
    if c.size >= n * PAGE
    then Filled(pages, a / PAGE, n, Pointer(c, r, And(v, Mask(c, n)) * (n * PAGE), a))
    else Piecewise(pages, c, r, n, a, v, n)
  }

  /** The one mapping: page k of the window shows page (v * n + k) of the chip, modulo its size. */
  function Window(pages: Pages, c: Chip, r: nat, n: nat, a: nat, v: nat): (q: Pages)
    requires c.size / PAGE > 0
    ensures |q| == |pages|
  {
    var ab := a / PAGE;
    seq(|pages|, k requires 0 <= k < |pages| =>
      if ab <= k < ab + n
      then Pointer(c, r, (v * n + (k - ab)) % (c.size / PAGE) * PAGE, k * PAGE)
      else pages[k])
  }

  lemma ModuloInside(v: nat, n: nat, q: nat, x: nat)
    requires n > 0 && q > 0 && x < n
    ensures (v * n + x) % (n * q) == v % q * n + x
  {
    var d, m := v / q, v % q;
    assert v == q * d + m;
    assert v * n + x == (n * q) * d + (m * n + x);
    assert m * n + x < n * q by {
      AtLeast(n, q - m);
      assert n * (q - m) == n * q - m * n;
    }
    assert n * q > 0;
    Euclid(v * n + x, n * q, d, m * n + x);
  }

  /** Wrapping at 32 bits does not matter to a modulus that divides 2^32. */
  lemma WrapInvisible(y: nat, x: nat, m: nat, c: nat)
    requires m > 0 && m * c == TWO_32
    ensures (y % TWO_32 + x) % TWO_32 % m == (y + x) % m
  {
    var z := y % TWO_32 + x;
    Reduces(z, m, c);
    Reduces(y, m, c);
    var d := y / TWO_32;
    assert y + x == z + m * (c * d) by {
      assert y == TWO_32 * d + y % TWO_32;
      assert m * (c * d) == (m * c) * d;
    }
    Periodic(z, m, c * d);
  }

  lemma Reduces(z: nat, m: nat, c: nat)
    requires m > 0 && m * c == TWO_32
    ensures z % TWO_32 % m == z % m
  {
    var d := z / TWO_32;
    assert z == z % TWO_32 + m * (c * d) by {
      assert z == TWO_32 * d + z % TWO_32;
      assert m * (c * d) == (m * c) * d;
    }
    Periodic(z % TWO_32, m, c * d);
  }

  // ----- both branches give one mapping

  /** size is 2^j, at least one page. */
  lemma Sizes(c: Chip, j: nat, n: nat)
    requires c.size == Pow2(j) * PAGE && c.size < TWO_32 && n > 0
    ensures c.size / PAGE == Pow2(j) && Mask(c, 1) == Pow2(j) - 1 && j < 32
  {
    Euclid(c.size, PAGE, Pow2(j), 0);
    assert 1 * PAGE == PAGE;
    if j >= 32 {
      Pow2Mono(32, j);
      Pow32();
    }
  }

  lemma Pow32()
    ensures Pow2(32) == TWO_32
  {
    hide Pow2;
    Pow4();
    Pow2Add(4, 4);
    Pow2Add(8, 8);
    Pow2Add(16, 16);
  }

  lemma Pow4()
    ensures Pow2(4) == 16
  {
  }

  /** A chip with whole banks: one masked bank number for the whole window. */
  lemma LargeChip(pages: Pages, c: Chip, r: nat, j: nat, i: nat, a: nat, v: nat)
    requires ChipOk(c) && c.size == Pow2(j) * PAGE && i <= j && a % PAGE == 0
    ensures c.size / PAGE > 0
    ensures Filled(pages, a / PAGE, Pow2(i), Pointer(c, r, And(v, Mask(c, Pow2(i))) * (Pow2(i) * PAGE), a))
            == Window(pages, c, r, Pow2(i), a, v)
  {
    var n, q := Pow2(i), Pow2(j - i);
    Sizes(c, j, n);
    LargeMask(c, j, i);
    MaskModulo(v, j - i);
    hide Pow2, Mask, And, Pointer, ChipOk, Filled, Window;
    LargeWindow(pages, c, r, n, q, a, v);
  }

  lemma LargeWindow(pages: Pages, c: Chip, r: nat, n: nat, q: nat, a: nat, v: nat)
    requires n > 0 && q > 0 && c.size / PAGE == n * q > 0 && a % PAGE == 0
    ensures Filled(pages, a / PAGE, n, Pointer(c, r, v % q * (n * PAGE), a)) == Window(pages, c, r, n, a, v)
  {
    hide Pointer;
    var left, right := Filled(pages, a / PAGE, n, Pointer(c, r, v % q * (n * PAGE), a)), Window(pages, c, r, n, a, v);
    forall k | 0 <= k < |pages|
      ensures left[k] == right[k]
    {
      if a / PAGE <= k < a / PAGE + n {
        SamePage(c, r, n, q, a, v, k);
      }
    }
    assert left == right;
  }

  lemma LargeMask(c: Chip, j: nat, i: nat)
    requires c.size == Pow2(j) * PAGE && c.size < TWO_32 && i <= j
    ensures Mask(c, Pow2(i)) == Pow2(j - i) - 1 && Pow2(j) == Pow2(i) * Pow2(j - i)
  {
    var n, q := Pow2(i), Pow2(j - i);
    Pow2Add(i, j - i);
    Pow2Mono(j - i, j);
    hide Pow2, Mask;
    assert q <= Pow2(j) <= c.size;
    MaskOf(c, n, q);
  }

  lemma MaskOf(c: Chip, n: nat, q: nat)
    requires n > 0 && 0 < q <= TWO_32 && c.size == (n * q) * PAGE
    ensures Mask(c, n) == q - 1
  {
    assert c.size == (n * PAGE) * q + 0;
    Euclid(c.size, n * PAGE, q, 0);
  }

  lemma SamePage(c: Chip, r: nat, n: nat, q: nat, a: nat, v: nat, k: nat)
    requires n > 0 && q > 0 && a % PAGE == 0 && a / PAGE <= k < a / PAGE + n
    ensures Pointer(c, r, v % q * (n * PAGE), a) == Pointer(c, r, (v * n + (k - a / PAGE)) % (n * q) * PAGE, k * PAGE)
  {
    var x := k - a / PAGE;
    ModuloInside(v, n, q, x);
    assert v % q * (n * PAGE) == (v % q * n) * PAGE;
    assert (v % q * n + x) * PAGE == (v % q * n) * PAGE + x * PAGE;
    assert a == a / PAGE * PAGE;
  }

  /** A smaller chip: page by page, the page number wrapping at 32 bits. */
  lemma {:induction false} SmallChip(pages: Pages, c: Chip, r: nat, j: nat, n: nat, a: nat, v: nat, count: nat)
    requires ChipOk(c) && c.size == Pow2(j) * PAGE && a % PAGE == 0 && n > 0
    ensures c.size / PAGE > 0
    ensures forall k :: 0 <= k < |pages| ==>
              Piecewise(pages, c, r, n, a, v, count)[k]
              == if a / PAGE <= k < a / PAGE + count
                 then Pointer(c, r, (v * n + (k - a / PAGE)) % (c.size / PAGE) * PAGE, k * PAGE) else pages[k]
  {
    hide Pow2, And, Mask, Pointer;
    Sizes(c, j, n);
    if count > 0 {
      var x := count - 1;
      SmallChip(pages, c, r, j, n, a, v, x);
      PageNumber(c, j, v * n, x);
      assert a + x * PAGE == (a / PAGE + x) * PAGE;
    }
  }

  /** The masked number of one page is the number modulo the pages of the chip. */
  lemma PageNumber(c: Chip, j: nat, y: nat, x: nat)
    requires c.size == Pow2(j) * PAGE && c.size < TWO_32
    ensures And((y % TWO_32 + x) % TWO_32, Mask(c, 1)) == (y + x) % Pow2(j)
  {
    Sizes(c, j, 1);
    Pow2Add(j, 32 - j);
    Pow32();
    hide Pow2, Mask;
    WrapInvisible(y, x, Pow2(j), Pow2(32 - j));
    MaskModulo((y % TWO_32 + x) % TWO_32, j);
  }

  lemma NotLarger(c: Chip, i: nat, j: nat)
    requires c.size == Pow2(j) * PAGE && c.size >= Pow2(i) * PAGE
    ensures i <= j
  {
    if i > j {
      Pow2Mono(j + 1, i);
    }
  }

  /** Both branches of setprg8r, setprg16r and setprg32r give the same mapping when the
      size is a power of two of at least one page. */
  lemma OneMapping(pages: Pages, c: Chip, r: nat, j: nat, i: nat, a: nat, v: nat)
    requires ChipOk(c) && c.size == Pow2(j) * PAGE && a % PAGE == 0
    ensures c.size / PAGE > 0
    ensures Banked(pages, c, r, Pow2(i), a, v) == Window(pages, c, r, Pow2(i), a, v)
  {
    hide Pow2, Mask, And, Pointer, Filled, Window, Piecewise;
    var n := Pow2(i);
    Sizes(c, j, n);
    if c.size >= n * PAGE {
      NotLarger(c, i, j);
      LargeChip(pages, c, r, j, i, a, v);
    } else {
      SmallWindow(pages, c, r, j, n, a, v);
    }
  }

  lemma SmallWindow(pages: Pages, c: Chip, r: nat, j: nat, n: nat, a: nat, v: nat)
    requires ChipOk(c) && c.size == Pow2(j) * PAGE && a % PAGE == 0 && n > 0
    ensures c.size / PAGE > 0 && Piecewise(pages, c, r, n, a, v, n) == Window(pages, c, r, n, a, v)
  {
    hide Pointer, Piecewise, Pow2, ChipOk;
    SmallChip(pages, c, r, j, n, a, v, n);
  }

  // ----- reads

  /** The byte behind an address, with the page pointer lowered by it: CartBR. */
  function Look(pages: Pages, chips: seq<Chip>, a: nat): Option<byte>
    requires |pages| == 32 && a < 0x1_0000
  {
    match pages[a / PAGE]
    case None => None
    case Some(p) =>
      if p.chip < |chips| && chips[p.chip].data.Some? && 0 <= p.base + a < |chips[p.chip].data.value|
      then Some(chips[p.chip].data.value[p.base + a]) else None
  }

  /** A CPU read at a + offset returns byte (v * window + offset) mod size of the chip. */
  lemma WindowRead(pages: Pages, chips: seq<Chip>, r: nat, n: nat, a: nat, v: nat, offset: nat)
    requires |pages| == 32 && r < |chips| && ChipOk(chips[r]) && chips[r].data.Some?
    requires chips[r].size % PAGE == 0 && chips[r].size > 0
    requires a % PAGE == 0 && a + n * PAGE <= 0x1_0000 && offset < n * PAGE
    ensures chips[r].size / PAGE > 0
    ensures Look(Window(pages, chips[r], r, n, a, v), chips, a + offset)
            == Some(chips[r].data.value[(v * (n * PAGE) + offset) % chips[r].size])
  {
    hide Look, Window, ChipOk;
    var m, ab := chips[r].size / PAGE, a / PAGE;
    var x, y := offset / PAGE, offset % PAGE;
    ReadAt(pages, chips, r, n, ab, v, m, x, y);
    Bytewise(v, n, x, y, m, offset, chips[r].size);
  }

  lemma ReadAt(pages: Pages, chips: seq<Chip>, r: nat, n: nat, ab: nat, v: nat, m: nat, x: nat, y: nat)
    requires |pages| == 32 && r < |chips| && ChipOk(chips[r]) && chips[r].data.Some?
    requires chips[r].size == m * PAGE && m > 0 && ab + n <= 32 && x < n && y < PAGE
    ensures chips[r].size / PAGE == m && (v * n + x) % m * PAGE + y < chips[r].size
    ensures Look(Window(pages, chips[r], r, n, ab * PAGE, v), chips, ab * PAGE + (x * PAGE + y))
            == Some(chips[r].data.value[(v * n + x) % m * PAGE + y])
  {
    hide Pointer, Window, Look;
    Euclid(chips[r].size, PAGE, m, 0);
    Euclid(ab * PAGE, PAGE, ab, 0);
    Euclid((ab + x) * PAGE, PAGE, ab + x, 0);
    InPage(v, n, x, y, m);
    WindowAt(pages, chips[r], r, n, ab * PAGE, v, ab + x);
    PointerRead(Window(pages, chips[r], r, n, ab * PAGE, v), chips, r, (v * n + x) % m * PAGE, (ab + x) * PAGE, y);
  }

  lemma Bytewise(v: nat, n: nat, x: nat, y: nat, m: nat, offset: nat, size: nat)
    requires m > 0 && y < PAGE && offset == x * PAGE + y && size == m * PAGE
    ensures (v * (n * PAGE) + offset) % size == (v * n + x) % m * PAGE + y
  {
    InPage(v, n, x, y, m);
  }

  lemma WindowAt(pages: Pages, c: Chip, r: nat, n: nat, a: nat, v: nat, k: nat)
    requires c.size / PAGE > 0 && a / PAGE <= k < a / PAGE + n && k < |pages|
    ensures Window(pages, c, r, n, a, v)[k]
            == Pointer(c, r, (v * n + (k - a / PAGE)) % (c.size / PAGE) * PAGE, k * PAGE)
  {
    hide Pointer;
  }

  lemma PointerRead(pages: Pages, chips: seq<Chip>, r: nat, offset: nat, a: nat, y: nat)
    requires |pages| == 32 && r < |chips| && chips[r].data.Some? && a % PAGE == 0 && y < PAGE && a / PAGE < 32
    requires pages[a / PAGE] == Pointer(chips[r], r, offset, a)
    requires ChipOk(chips[r]) && offset + y < chips[r].size
    ensures Look(pages, chips, a + y) == Some(chips[r].data.value[offset + y])
  {
  }

  lemma InPage(v: nat, n: nat, x: nat, y: nat, m: nat)
    requires m > 0 && y < PAGE
    ensures (v * n + x) % m * PAGE + y < m * PAGE
    ensures (v * (n * PAGE) + (x * PAGE + y)) % (m * PAGE) == (v * n + x) % m * PAGE + y
  {
    var z := v * n + x;
    var q, p := z / m, z % m;
    assert z == m * q + p;
    assert v * (n * PAGE) == (v * n) * PAGE;
    assert z * PAGE == (m * PAGE) * q + p * PAGE by {
      assert (m * q) * PAGE == (m * PAGE) * q;
    }
    assert v * (n * PAGE) + (x * PAGE + y) == z * PAGE + y;
    Euclid(z * PAGE + y, m * PAGE, q, p * PAGE + y);
  }

  /** Pages outside the window keep their bytes. */
  lemma OutsideWindow(pages: Pages, chips: seq<Chip>, r: nat, n: nat, a: nat, v: nat, at: nat)
    requires |pages| == 32 && r < |chips| && chips[r].size / PAGE > 0
    requires a % PAGE == 0 && at < 0x1_0000 && (at < a || at >= a + n * PAGE)
    ensures Look(Window(pages, chips[r], r, n, a, v), chips, at) == Look(pages, chips, at)
  {
    assert at / PAGE < a / PAGE || at / PAGE >= a / PAGE + n by {
      assert a == a / PAGE * PAGE;
    }
  }

  // ----- the mapper state

  class Cart {
    const page: array<Option<Ptr>>
    const prgIsRam: array<bool>
    var chips: seq<Chip>

    ghost predicate Valid()
      reads this, page
    {
      && page.Length == 32 && prgIsRam.Length == 32 && |chips| == 32
      && forall r :: 0 <= r < 32 ==> ChipOk(chips[r])
    }

    /** No chip, every page empty. */
    constructor ()
      ensures Valid() && fresh(page) && fresh(prgIsRam)
      ensures forall a :: 0 <= a < 0x1_0000 ==> Look(page[..], chips, a) == None
    {
      page := new Option<Ptr>[32](_ => None);
      prgIsRam := new bool[32](_ => false);
      chips := seq(32, _ => Chip(None, 0, false));
    }

    /** SetupCartPRGMapping. */
    method SetupCartPrgMapping(r: nat, data: Option<seq<byte>>, size: nat, ram: bool)
      requires Valid() && r < 32 && ChipOk(Chip(data, size, ram))
      modifies this`chips
      ensures Valid() && chips == old(chips)[r := Chip(data, size, ram)]
    {
      chips := chips[r := Chip(data, size, ram)];
    }

    /** setpageptr. */
    method SetPagePtr(n: nat, a: nat, p: Option<Ptr>, ram: bool)
      requires Valid() && a / PAGE + n <= 32
      modifies page, prgIsRam
      ensures page[..] == Filled(old(page[..]), a / PAGE, n, p)
      ensures forall k :: 0 <= k < 32 ==>
                            prgIsRam[k] == if a / PAGE <= k < a / PAGE + n then p.Some? && ram else old(prgIsRam[k])
    {
      var ab := a / PAGE;
      var x: int := n - 1;
      while x >= 0
        invariant -1 <= x < n
        invariant forall k :: 0 <= k < 32 ==> page[k] == if ab + x < k < ab + n then p else old(page[k])
        invariant forall k :: 0 <= k < 32 ==>
                                prgIsRam[k] == if ab + x < k < ab + n then p.Some? && ram else old(prgIsRam[k])
      {
        prgIsRam[ab + x] := if p.Some? then ram else false;
        page[ab + x] := p;
        x := x - 1;
      }
    }

    /** setprg8r, setprg16r, setprg32r: n = 4, 8, 16 pages. */
    method SetPrg(r: nat, n: nat, a: nat, v: nat)
      requires Valid() && r < 32 && n in {4, 8, 16} && a % PAGE == 0 && a / PAGE + n <= 32 && v < TWO_32
      modifies page, prgIsRam
      ensures page[..] == Banked(old(page[..]), chips[r], r, n, a, v)
      ensures forall k :: 0 <= k < 32 ==>
                            prgIsRam[k] == if a / PAGE <= k < a / PAGE + n then chips[r].data.Some? && chips[r].ram
                                           else old(prgIsRam[k])
    {
      hide And, Mask, Filled;
      var c := chips[r];
      if c.size >= n * PAGE {
        SetPagePtr(n, a, Pointer(c, r, And(v, Mask(c, n)) * (n * PAGE), a), c.ram);
      } else {
        var va := v * n % TWO_32;
        var x := 0;
        while x < n
          invariant 0 <= x <= n
          invariant page[..] == Piecewise(old(page[..]), c, r, n, a, v, x)
          invariant forall k :: 0 <= k < 32 ==>
                                  prgIsRam[k] == if a / PAGE <= k < a / PAGE + x then c.data.Some? && c.ram
                                                 else old(prgIsRam[k])
        {
          assert (a + x * PAGE) / PAGE == a / PAGE + x;
          SetPagePtr(1, a + x * PAGE, Pointer(c, r, And((va + x) % TWO_32, Mask(c, 1)) * PAGE, a + x * PAGE), c.ram);
          x := x + 1;
        }
      }
    }

    /** CartBR. A page that was never set has no byte. */
    method CartBR(a: nat) returns (b: Option<byte>)
      requires Valid() && a < 0x1_0000
      ensures b == Look(page[..], chips, a)
    {
      var p := page[a / PAGE];
      if p.None? {
        return None;
      }
      var chip, at := p.value.chip, p.value.base + a;
      if chip < |chips| && chips[chip].data.Some? && 0 <= at < |chips[chip].data.value| {
        b := Some(chips[chip].data.value[at]);
      } else {
        b := None;
      }
    }
  }

  /** After a bank switch on a power-of-two chip, reads inside the window give the bank's
      bytes and reads outside it what they gave before. */
  method SwitchAndRead(cart: Cart, r: nat, i: nat, j: nat, a: nat, v: nat, at: nat) returns (b: Option<byte>)
    requires cart.Valid() && r < 32 && 2 <= i <= 4 && v < TWO_32 && at < 0x1_0000
    requires a % PAGE == 0 && a / PAGE + Pow2(i) <= 32
    requires cart.chips[r].data.Some? && cart.chips[r].size == Pow2(j) * PAGE
    modifies cart.page, cart.prgIsRam
    ensures var window := Pow2(i) * PAGE;
            var c := cart.chips[r];
            b == if a <= at < a + window then Some(c.data.value[(v * window + (at - a)) % c.size])
                 else old(Look(cart.page[..], cart.chips, at))
  {
    hide Look, Window, Banked, ChipOk, Pow2;
    var n := Pow2(i);
    WindowPages(i);
    ghost var was := cart.page[..];
    OneMapping(was, cart.chips[r], r, j, i, a, v);
    PowerSize(cart.chips[r], j);
    cart.SetPrg(r, n, a, v);
    if a <= at < a + n * PAGE {
      Aligned(a, n);
      WindowRead(was, cart.chips, r, n, a, v, at - a);
    } else {
      OutsideWindow(was, cart.chips, r, n, a, v, at);
    }
    b := cart.CartBR(at);
  }

  lemma WindowPages(i: nat)
    requires 2 <= i <= 4
    ensures Pow2(i) in {4, 8, 16}
  {
    assert Pow2(2) == 4;
  }

  lemma PowerSize(c: Chip, j: nat)
    requires c.size == Pow2(j) * PAGE
    ensures c.size % PAGE == 0 && c.size > 0
  {
    Euclid(c.size, PAGE, Pow2(j), 0);
  }

  lemma Aligned(a: nat, n: nat)
    requires a % PAGE == 0 && a / PAGE + n <= 32
    ensures a + n * PAGE <= 0x1_0000
  {
    assert a == a / PAGE * PAGE;
  }
}
