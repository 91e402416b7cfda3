/** Reading a directive is the inverse of writing it. */
module DirectiveLaws {
  import opened Basics
  import opened Formats
  import opened FormatLaws

  /** A field width or precision as it is written: not at all, as a dot alone, as a number, or
      as `*` for the next argument. */
  datatype Amount = Absent | Bare | Given(n: nat) | Star

  datatype Size = Plain | H | L | LL | BigL

  /** A directive as it is written behind its `%`. */
  datatype Written = Written(flags: string, width: Amount, precision: Amount, size: Size, conv: char)

  predicate IsFlag(c: char) { c in {'-', '+', ' ', '#', '0'} }

  /** c can only be the conversion character. */
  predicate Ends(c: char) { !IsFlag(c) && !IsDigit(c) && c !in {'*', '.', 'h', 'l', 'L'} }

  /** A width has no leading zero, which would be a flag. */
  predicate Proper(d: Written) {
    && (forall i :: 0 <= i < |d.flags| ==> IsFlag(d.flags[i]))
    && d.width != Bare && d.width != Given(0)
    && Ends(d.conv)
  }

  function WidthText(w: Amount): string {
    match w case Given(n) => Decimal(n) case Star => "*" case _ => ""
  }

  function PrecisionText(p: Amount): string { if p == Absent then "" else "." + WidthText(p) }

  function SizeText(s: Size): string {
    match s case Plain => "" case H => "h" case L => "l" case LL => "ll" case BigL => "L"
  }

  function Text(d: Written): string {
    d.flags + (WidthText(d.width) + (PrecisionText(d.precision) + (SizeText(d.size) + [d.conv])))
  }

  // ----- what the parts mean

  function FlagsOf(fl: Flags, s: string): Flags {
    fl.(zeropad := fl.zeropad || '0' in s, plus := fl.plus || '+' in s, space := fl.space || ' ' in s,
        left := fl.left || '-' in s, special := fl.special || '#' in s)
  }

  function WidthOf(w: Amount, i: nat, args: Args, k: nat): Scan {
    match w
    case Given(n) => Scan(n, false, i, k)
    case Star => Scan(if args(k).i < 0 then -args(k).i else args(k).i, args(k).i < 0, i, k + 1)
    case _ => Scan(-1, false, i, k)
  }

  /** A dot alone is precision 0, and so is a negative argument. */
  function PrecisionOf(p: Amount, i: nat, args: Args, k: nat): Scan {
    match p
    case Given(n) => Scan(n, false, i, k)
    case Star => Scan(if args(k).i < 0 then 0 else args(k).i, false, i, k + 1)
    case Bare => Scan(0, false, i, k)
    case Absent => Scan(-1, false, i, k)
  }

  function SizeOf(s: Size): Qualifier {
    match s case Plain => NoQ case H => Half case L => Long case LL => LongLong case BigL => LongLong
  }

  /** The directive that d stands for when its conversion character is at i. */
  function Meaning(d: Written, i: nat, args: Args, k: nat): Directive {
    var w := WidthOf(d.width, i, args, k);
    var p := PrecisionOf(d.precision, i, args, w.k);
    var fl := FlagsOf(NO_FLAGS, d.flags);
    Directive(fl.(left := fl.left || w.left), w.value, p.value, SizeOf(d.size), d.conv, i, p.k)
  }

  // ----- reading the parts

  lemma {:induction false} FlagsRead(a: string, s: string, b: string, fl: Flags)
    requires (forall i :: 0 <= i < |s| ==> IsFlag(s[i])) && !IsFlag(At(b, 0))
    ensures ScanFlags(a + s + b, |a|, fl) == (FlagsOf(fl, s), |a| + |s|)
    decreases |s|
  {
    var fmt := a + s + b;
    if s == "" {
      assert |a| < |fmt| ==> fmt[|a|] == b[0];
      assert FlagsOf(fl, s) == fl;
    } else {
      var c, rest := s[0], s[1..];
      assert fmt == (a + [c]) + rest + b;
      FlagsSplit(fl, c, rest, s);
      FlagsRead(a + [c], rest, b, FlagsOf(fl, [c]));
      OneFlag(fmt, |a|, fl);
    }
  }

  lemma FlagsSplit(fl: Flags, c: char, rest: string, s: string)
    requires s == [c] + rest
    ensures FlagsOf(FlagsOf(fl, [c]), rest) == FlagsOf(fl, s)
  {
  }

  lemma OneFlag(fmt: string, i: nat, fl: Flags)
    requires i < |fmt| && IsFlag(fmt[i])
    ensures ScanFlags(fmt, i, fl) == ScanFlags(fmt, i + 1, FlagsOf(fl, [fmt[i]]))
  {
  }

  lemma WidthRead(a: string, w: Amount, b: string, args: Args, k: nat)
    requires w != Bare && !IsDigit(At(b, 0)) && At(b, 0) != '*'
    ensures ScanWidth(a + WidthText(w) + b, |a|, args, k) == WidthOf(w, |a| + |WidthText(w)|, args, k)
  {
    hide ScanNumber, Decimal;
    var fmt := a + WidthText(w) + b;
    DecimalStarts(w);
    assert At(fmt, |a|) == if w == Absent then At(b, 0) else WidthText(w)[0];
    if w.Given? {
      DecimalReads(w.n, a, b);
    }
  }

  lemma DecimalStarts(w: Amount)
    ensures w.Given? ==> |WidthText(w)| > 0 && IsDigit(WidthText(w)[0])
  {
    if w.Given? {
      DecimalWorth(w.n);
    }
  }

  lemma PrecisionRead(a: string, p: Amount, b: string, args: Args, k: nat)
    requires !IsDigit(At(b, 0)) && At(b, 0) != '*' && At(b, 0) != '.'
    ensures ScanPrecision(a + PrecisionText(p) + b, |a|, args, k) == PrecisionOf(p, |a| + |PrecisionText(p)|, args, k)
  {
    hide ScanNumber, Decimal;
    var fmt := a + PrecisionText(p) + b;
    if p == Absent {
      assert At(fmt, |a|) == At(b, 0);
    } else {
      assert At(fmt, |a|) == '.';
      assert fmt == (a + ".") + WidthText(p) + b;
      DecimalStarts(p);
      assert At(fmt, |a| + 1) == if p == Bare then At(b, 0) else WidthText(p)[0];
      if p.Given? {
        DecimalReads(p.n, a + ".", b);
      }
    }
  }

  lemma SizeRead(a: string, s: Size, b: string)
    requires At(b, 0) !in {'h', 'l', 'L'}
    ensures ScanQualifier(a + SizeText(s) + b, |a|) == (SizeOf(s), |a| + |SizeText(s)|)
  {
    var fmt := a + SizeText(s) + b;
    assert At(fmt, |a|) == if s == Plain then At(b, 0) else SizeText(s)[0];
    assert s == L ==> At(fmt, |a| + 1) == At(b, 0);
    assert s == LL ==> At(fmt, |a| + 1) == 'l';
  }

  /** What follows a part begins with the next part that is written. */
  lemma Follows(d: Written, after: string)
    requires Proper(d)
    ensures var c := [d.conv] + after;
            var q := SizeText(d.size) + c;
            var p := PrecisionText(d.precision) + q;
            var w := WidthText(d.width) + p;
      && At(c, 0) == d.conv
      && (At(q, 0) == d.conv || At(q, 0) in {'h', 'l', 'L'})
      && (At(p, 0) == At(q, 0) || At(p, 0) == '.')
      && (At(w, 0) == At(p, 0) || At(w, 0) == '*' || (IsDigit(At(w, 0)) && At(w, 0) != '0'))
  {
    hide Decimal;
    if d.width.Given? {
      DecimalWorth(d.width.n);
    }
  }

  /** Any proper directive, written anywhere in a format, is read as what it stands for. */
  lemma ParsesBack(before: string, d: Written, after: string, args: Args, k: nat)
    requires Proper(d)
    ensures Parse(before + Text(d) + after, |before|, args, k)
            == Meaning(d, |before| + |Text(d)| - 1, args, k)
  {
    hide ScanFlags, ScanWidth, ScanPrecision, ScanQualifier, FlagsOf, WidthOf, PrecisionOf, SizeOf, WidthText,
         PrecisionText, SizeText, IsDigit;
    Follows(d, after);
    var fmt := before + Text(d) + after;
    var c := [d.conv] + after;
    var q := SizeText(d.size) + c;
    var p := PrecisionText(d.precision) + q;
    var w := WidthText(d.width) + p;
    var a1 := before + d.flags;
    var a2 := a1 + WidthText(d.width);
    var a3 := a2 + PrecisionText(d.precision);
    var a4 := a3 + SizeText(d.size);
    assert fmt == a4 + c;
    assert fmt == a3 + SizeText(d.size) + c;
    assert fmt == a2 + PrecisionText(d.precision) + q;
    assert fmt == a1 + WidthText(d.width) + p;
    assert fmt == before + d.flags + w;
    FlagStart(d, p, w);
    FlagsRead(before, d.flags, w, NO_FLAGS);
    NotDigit(d);
    WidthRead(a1, d.width, p, args, k);
    var ws := WidthOf(d.width, |a2|, args, k);
    PrecisionRead(a2, d.precision, q, args, ws.k);
    SizeRead(a3, d.size, c);
    Places(d, |a2|, |a3|, |a4|, args, k);
    assert At(fmt, |a4|) == d.conv;
  }

  lemma NotDigit(d: Written)
    requires Proper(d)
    ensures !IsDigit(d.conv) && !IsDigit('.') && !IsDigit('h') && !IsDigit('l') && !IsDigit('L')
  {
  }

  lemma FlagStart(d: Written, p: string, w: string)
    requires Proper(d) && (At(p, 0) == d.conv || At(p, 0) in {'h', 'l', 'L', '.'})
    requires At(w, 0) == At(p, 0) || At(w, 0) == '*' || (IsDigit(At(w, 0)) && At(w, 0) != '0')
    ensures !IsFlag(At(w, 0))
  {
  }

  /** Only the position a part is read at depends on where it stands. */
  lemma Places(d: Written, i2: nat, i3: nat, i4: nat, args: Args, k: nat)
    ensures var w, w' := WidthOf(d.width, i2, args, k), WidthOf(d.width, i4, args, k);
      && w.i == i2 && w'.value == w.value && w'.left == w.left && w'.k == w.k
      && var p, p' := PrecisionOf(d.precision, i3, args, w.k), PrecisionOf(d.precision, i4, args, w.k);
         p.i == i3 && p'.value == p.value && p'.k == p.k
  {
  }
}
