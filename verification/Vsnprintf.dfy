/** rt_vsnprintf as the code runs it: a cursor that walks past the end of the
    buffer, a guard on every store, and the directives printed one by one. */
module Vsnprintf {
  import opened Basics
  import opened Digits
  import opened Formats

  // ----- guarded stores

  /** After text went out at str: what lies below end is stored, the rest is lost,
      and nothing else changed. */
  ghost predicate Written(before: string, after: string, str: nat, end: nat, text: string) {
    && |after| == |before|
    && forall i :: 0 <= i < |before| ==>
        after[i] == if str <= i < str + |text| && i < end then text[i - str] else before[i]
  }

  lemma WrittenNothing(b: string, str: nat, end: nat)
    ensures Written(b, b, str, end, "")
  {
  }

  lemma WrittenAppend(a: string, b: string, c: string, str: nat, end: nat, t: string, u: string)
    requires Written(a, b, str, end, t) && Written(b, c, str + |t|, end, u)
    ensures Written(a, c, str, end, t + u)
  {
  }

  /** One character behind the bounds check; the cursor moves on in any case. */
  method Put(buf: array<char>, str: nat, end: nat, c: char) returns (next: nat)
    requires end <= buf.Length
    modifies buf
    ensures next == str + 1 && Written(old(buf[..]), buf[..], str, end, [c])
  {
    if str < end {
      buf[str] := c;
    }
    next := str + 1;
  }

  /** n times the character c. */
  method Pad(buf: array<char>, str: nat, end: nat, c: char, n: int) returns (next: nat)
    requires end <= buf.Length
    modifies buf
    ensures next == str + |Repeat(c, n)| && Written(old(buf[..]), buf[..], str, end, Repeat(c, n))
  {
    next := str;
    var left := n;
    ghost var was := buf[..];
    WrittenNothing(was, str, end);
    while left > 0
      invariant left <= n && (n >= 0 ==> left >= 0) && (n < 0 ==> left == n)
      invariant next == str + (n - left)
      invariant Written(was, buf[..], str, end, Repeat(c, n - left))
    {
      ghost var mid := buf[..];
      next := Put(buf, next, end, c);
      WrittenAppend(was, mid, buf[..], str, end, Repeat(c, n - left), [c]);
      assert Repeat(c, n - left) + [c] == Repeat(c, n - left + 1);
      left := left - 1;
    }
  }

  /** Stores s[..len], or its reversal, one character at a time. */
  method PutString(buf: array<char>, str: nat, end: nat, s: string, len: nat) returns (next: nat)
    requires end <= buf.Length && len <= |s|
    modifies buf
    ensures next == str + len && Written(old(buf[..]), buf[..], str, end, s[..len])
  {
    next := str;
    ghost var was := buf[..];
    WrittenNothing(was, str, end);
    var i := 0;
    while i < len
      invariant 0 <= i <= len && next == str + i
      invariant Written(was, buf[..], str, end, s[..i])
    {
      ghost var mid := buf[..];
      next := Put(buf, next, end, s[i]);
      WrittenAppend(was, mid, buf[..], str, end, s[..i], [s[i]]);
      assert s[..i] + [s[i]] == s[..i + 1];
      i := i + 1;
    }
  }

  // ----- print_number

  /** The divide loop: tmp[..i] gets the digits of num, and 64 places are enough. */
  method DivideLoop(tmp: array<char>, num: nat, base: nat, large: bool) returns (i: nat)
    requires tmp.Length == 64 && 2 <= base <= 16 && num < TWO_64
    modifies tmp
    ensures i <= 64 && tmp[..i] == Tmp(num, base, large)
  {
    i := 0;
    if num == 0 {
      tmp[0] := '0';
      i := 1;
      return;
    }
    i := DigitsLoop(tmp, num, base, large);
  }

  method DigitsLoop(tmp: array<char>, num: nat, base: nat, large: bool) returns (i: nat)
    requires tmp.Length == 64 && 2 <= base <= 16 && 0 < num < TWO_64
    modifies tmp
    ensures i <= 64 && tmp[..i] == Tmp(num, base, large)
  {
    hide Tmp, Reversed, DigitChar;
    FitsBuffer(num, base);
    TmpDigits(num, base, large);
    ghost var ds, text := Reversed(num, base), Tmp(num, base, large);
    i := 0;
    var n := num;
    while n != 0
      invariant 0 <= i <= |ds|
      invariant ds[i..] == Reversed(n, base)
      invariant forall m :: 0 <= m < i ==> tmp[m] == text[m]
      decreases n
    {
      var rest, d := Divide(n, base);
      assert ds[i] == ds[i..][0] == d;
      assert ds[i + 1..] == ds[i..][1..];
      tmp[i] := DigitChar(d, large);
      n := rest;
      i := i + 1;
    }
    NoDigits(base);
  }

  lemma TmpDigits(num: nat, base: nat, large: bool)
    requires num > 0 && 2 <= base <= 16
    ensures var ds := Reversed(num, base);
            && |Tmp(num, base, large)| == |ds|
            && forall m :: 0 <= m < |ds| ==> ds[m] < base && Tmp(num, base, large)[m] == DigitChar(ds[m], large)
  {
  }

  /** divide: takes the lowest digit off. */
  method Divide(n: nat, base: nat) returns (rest: nat, d: nat)
    requires n > 0 && base >= 2
    ensures rest < n && d < base && Reversed(n, base) == [d] + Reversed(rest, base)
  {
    rest, d := n / base, n % base;
    Smaller(n, base);
  }

  lemma NoDigits(base: nat)
    requires base >= 2
    ensures Reversed(0, base) == []
  {
  }

  /** The digits in tmp, last one first. */
  method PutBackwards(buf: array<char>, str: nat, end: nat, tmp: array<char>, len: nat) returns (next: nat)
    requires end <= buf.Length && len <= tmp.Length && buf != tmp
    modifies buf
    ensures next == str + len && Written(old(buf[..]), buf[..], str, end, Backwards(tmp[..len]))
  {
    ghost var digits := Backwards(tmp[..len]);
    ghost var was := buf[..];
    WrittenNothing(was, str, end);
    next := str;
    var i: int := len;
    while i > 0
      invariant 0 <= i <= len && next == str + (len - i)
      invariant tmp[..len] == old(tmp[..len])
      invariant Written(was, buf[..], str, end, digits[..len - i])
    {
      ghost var mid := buf[..];
      i := i - 1;
      next := Put(buf, next, end, tmp[i]);
      WrittenAppend(was, mid, buf[..], str, end, digits[..len - i - 1], [tmp[i]]);
      assert digits[..len - i - 1] + [tmp[i]] == digits[..len - i];
    }
    assert digits[..len] == digits;
  }

  /** print_number: appends exactly the text of the number. */
  method PrintNumber(buf: array<char>, str: nat, end: nat, num: nat, base: nat, q: Qualifier,
                     s: int, precision: int, fl: Flags) returns (next: nat)
    requires end <= buf.Length && 2 <= base <= 16 && num < TWO_64
    modifies buf
    ensures var text := NumberText(num, base, q, s, precision, fl);
            next == str + |text| && Written(old(buf[..]), buf[..], str, end, text)
  {
    hide Written, Layout, Tmp, Repeat;
    var c := if fl.zeropad && !fl.left then '0' else ' ';
    var sign := SignChar(num, q, fl);
    var n := Magnitude(num, q, fl);
    var size := s - |Prefix(base, fl)|;
    var tmp := new char[64];
    MagnitudeBound(num, q, fl);
    var i := DivideLoop(tmp, n, base, fl.large);
    var prec := if i > precision then i else precision;
    size := size - prec;

    var pad := 0;
    if !fl.zeropad && !fl.left {
      pad := if sign != "" && size > 0 then size - 1 else size;
      size := -1;
    }
    size := size - |sign|;
    var fill := 0;
    if !fl.left {
      fill := size;
      size := -1;
    }
    var digits := if precision != 0 then i else 0;
    next := PutNumber(buf, str, end, pad, sign, Prefix(base, fl), c, fill, prec - i, tmp, digits, size);
    SignLength(num, q, fl);
    Pieces(sign, Prefix(base, fl), Tmp(n, base, fl.large), s, precision, fl, pad, fill, size, c, tmp[..digits]);
  }

  /** Padding, sign, prefix, fill, precision zeros, digits and trailing blanks, in this order. */
  method PutNumber(buf: array<char>, str: nat, end: nat, pad: int, sign: string, prefix: string, c: char, fill: int,
                   zeros: int, tmp: array<char>, digits: nat, tail: int) returns (next: nat)
    requires end <= buf.Length && digits <= tmp.Length && buf != tmp
    modifies buf
    ensures var text := Repeat(' ', pad) + sign + prefix + Repeat(c, fill) + Repeat('0', zeros)
                        + Backwards(tmp[..digits]) + Repeat(' ', tail);
            next == str + |text| && Written(old(buf[..]), buf[..], str, end, text)
  {
    hide Written, Repeat;
    assert sign[..|sign|] == sign && prefix[..|prefix|] == prefix;
    ghost var b0 := buf[..];
    next := Pad(buf, str, end, ' ', pad);
    ghost var b1 := buf[..];
    next := PutString(buf, next, end, sign, |sign|);
    ghost var b2 := buf[..];
    next := PutString(buf, next, end, prefix, |prefix|);
    ghost var b3 := buf[..];
    next := Pad(buf, next, end, c, fill);
    ghost var b4 := buf[..];
    next := Pad(buf, next, end, '0', zeros);
    ghost var b5 := buf[..];
    next := PutBackwards(buf, next, end, tmp, digits);
    ghost var b6 := buf[..];
    next := Pad(buf, next, end, ' ', tail);
    Join7(b0, b1, b2, b3, b4, b5, b6, buf[..], str, end, Repeat(' ', pad), sign, prefix,
          Repeat(c, fill), Repeat('0', zeros), Backwards(tmp[..digits]), Repeat(' ', tail));
  }

  lemma Join7(b0: string, b1: string, b2: string, b3: string, b4: string, b5: string, b6: string, b7: string,
              str: nat, end: nat, p0: string, p1: string, p2: string, p3: string, p4: string, p5: string, p6: string)
    requires Written(b0, b1, str, end, p0)
    requires Written(b1, b2, str + |p0|, end, p1)
    requires Written(b2, b3, str + |p0| + |p1|, end, p2)
    requires Written(b3, b4, str + |p0| + |p1| + |p2|, end, p3)
    requires Written(b4, b5, str + |p0| + |p1| + |p2| + |p3|, end, p4)
    requires Written(b5, b6, str + |p0| + |p1| + |p2| + |p3| + |p4|, end, p5)
    requires Written(b6, b7, str + |p0| + |p1| + |p2| + |p3| + |p4| + |p5|, end, p6)
    ensures Written(b0, b7, str, end, p0 + p1 + p2 + p3 + p4 + p5 + p6)
  {
    hide Written;
    WrittenAppend(b0, b1, b2, str, end, p0, p1);
    WrittenAppend(b0, b2, b3, str, end, p0 + p1, p2);
    WrittenAppend(b0, b3, b4, str, end, p0 + p1 + p2, p3);
    WrittenAppend(b0, b4, b5, str, end, p0 + p1 + p2 + p3, p4);
    WrittenAppend(b0, b5, b6, str, end, p0 + p1 + p2 + p3 + p4, p5);
    WrittenAppend(b0, b6, b7, str, end, p0 + p1 + p2 + p3 + p4 + p5, p6);
  }

  /** The seven loops of print_number together print the number's text. */
  lemma Pieces(sign: string, prefix: string, all: string, s: int, precision: int, fl: Flags,
               pad: int, fill: int, tail: int, c: char, digits: string)
    requires |sign| <= 1
    requires digits == (if precision != 0 then all else "")
    requires c == (if fl.zeropad && !fl.left then '0' else ' ')
    requires var room := s - |prefix| - Max(|all|, precision);
             if fl.left then pad == 0 && fill == 0 && tail == room - |sign|
             else if fl.zeropad then pad == 0 && fill == room - |sign| && tail < 0
             else pad == (if sign != "" && room > 0 then room - 1 else room) && fill < 0 && tail < 0
    ensures Repeat(' ', pad) + sign + prefix + Repeat(c, fill) + Repeat('0', Max(|all|, precision) - |all|)
            + Backwards(digits) + Repeat(' ', tail)
            == Layout(sign, prefix, all, s, precision, fl)
  {
    hide Layout, Repeat, Backwards;
    var zeros := Repeat('0', Max(|all|, precision) - |all|);
    Empties(Repeat(' ', pad), sign, prefix, Repeat(c, fill), zeros, Backwards(digits), Repeat(' ', tail));
    Blank(' ', pad);
    Blank(c, fill);
    Blank(' ', tail);
    Body(all, precision);
    LayoutIs(sign, prefix, all, s, precision, fl);
  }

  lemma Blank(c: char, n: int)
    ensures n <= 0 ==> Repeat(c, n) == ""
  {
  }

  /** The zeros and digits of a number. */
  lemma Body(all: string, precision: int)
    ensures var zeros := Repeat('0', Max(|all|, precision) - |all|);
            zeros + Backwards(if precision != 0 then all else "")
            == Repeat('0', precision - |all|) + (if precision == 0 then "" else Backwards(all))
  {
    assert Backwards("") == "";
  }

  lemma LayoutIs(sign: string, prefix: string, digits: string, width: int, precision: int, fl: Flags)
    ensures var body := Repeat('0', precision - |digits|) + (if precision == 0 then "" else Backwards(digits));
            var room := width - |prefix| - Max(|digits|, precision);
            Layout(sign, prefix, digits, width, precision, fl)
            == if fl.left then sign + prefix + body + Repeat(' ', room - |sign|)
               else if fl.zeropad then sign + prefix + Repeat('0', room - |sign|) + body
               else Repeat(' ', if room > 0 then room - |sign| else room) + sign + prefix + body
  {
    hide Repeat, Backwards;
  }

  lemma Empties(p0: string, p1: string, p2: string, p3: string, p4: string, p5: string, p6: string)
    ensures var all := p0 + p1 + p2 + p3 + p4 + p5 + p6;
            && (p0 == "" && p3 == "" ==> all == p1 + p2 + (p4 + p5) + p6)
            && (p0 == "" && p6 == "" ==> all == p1 + p2 + p3 + (p4 + p5))
            && (p3 == "" && p6 == "" ==> all == p0 + p1 + p2 + (p4 + p5))
  {
  }

  lemma SignLength(num: nat, q: Qualifier, fl: Flags)
    ensures |SignChar(num, q, fl)| <= 1
  {
  }

  lemma MagnitudeBound(num: nat, q: Qualifier, fl: Flags)
    requires num < TWO_64
    ensures Magnitude(num, q, fl) < TWO_64
  {
  }

  // ----- directives

  /** skip_atoi. */
  method SkipAtoi(fmt: string, start: nat) returns (n: nat, i: nat)
    ensures (n, i) == ScanNumber(fmt, start, 0)
  {
    n, i := 0, start;
    while IsDigit(At(fmt, i))
      invariant i >= start && ScanNumber(fmt, start, 0) == ScanNumber(fmt, i, n)
      decreases |fmt| - i
    {
      n := n * 10 + (fmt[i] as int - '0' as int);
      i := i + 1;
    }
  }

  /** The flag loop. */
  method ReadFlags(fmt: string, start: nat) returns (fl: Flags, i: nat)
    ensures (fl, i) == ScanFlags(fmt, start, NO_FLAGS)
  {
    fl, i := NO_FLAGS, start;
    while i < |fmt| && fmt[i] in {'-', '+', ' ', '#', '0'}
      invariant i >= start && ScanFlags(fmt, start, NO_FLAGS) == ScanFlags(fmt, i, fl)
      decreases |fmt| - i
    {
      fl := if fmt[i] == '-' then fl.(left := true)
            else if fmt[i] == '+' then fl.(plus := true)
            else if fmt[i] == ' ' then fl.(space := true)
            else if fmt[i] == '#' then fl.(special := true)
            else fl.(zeropad := true);
      i := i + 1;
    }
  }

  /** Digits, or `*` and the next argument; a negative argument asks for left alignment. */
  method ReadWidth(fmt: string, i: nat, args: Args, k: nat) returns (r: Scan)
    ensures r == ScanWidth(fmt, i, args, k)
  {
    hide ScanNumber;
    r := Scan(-1, false, i, k);
    if IsDigit(At(fmt, i)) {
      var n, j := SkipAtoi(fmt, i);
      r := Scan(n, false, j, k);
    } else if At(fmt, i) == '*' {
      var w := args(k).i;
      r := if w < 0 then Scan(-w, true, i + 1, k + 1) else Scan(w, false, i + 1, k + 1);
    }
  }

  method ReadPrecision(fmt: string, i: nat, args: Args, k: nat) returns (r: Scan)
    ensures r == ScanPrecision(fmt, i, args, k)
  {
    hide ScanNumber;
    r := Scan(-1, false, i, k);
    if At(fmt, i) == '.' {
      r := Scan(0, false, i + 1, k);
      if IsDigit(At(fmt, i + 1)) {
        var n, j := SkipAtoi(fmt, i + 1);
        r := Scan(n, false, j, k);
      } else if At(fmt, i + 1) == '*' {
        var p := args(k).i;
        r := Scan(if p < 0 then 0 else p, false, i + 2, k + 1);
      }
    }
  }

  /** h, l, ll or L. */
  method ReadQualifier(fmt: string, start: nat) returns (q: Qualifier, i: nat)
    ensures (q, i) == ScanQualifier(fmt, start)
  {
    q, i := NoQ, start;
    var c := At(fmt, i);
    if c == 'h' || c == 'l' || c == 'L' {
      q := if c == 'h' then Half else if c == 'l' then Long else LongLong;
      i := i + 1;
      if c == 'l' && At(fmt, i) == 'l' {
        q := LongLong;
        i := i + 1;
      }
    }
  }

  /** Flags, field width, precision and qualifier. */
  method ParseDirective(fmt: string, start: nat, args: Args, k: nat) returns (d: Directive)
    ensures d == Parse(fmt, start, args, k)
  {
    hide ScanFlags, ScanWidth, ScanPrecision, ScanQualifier;
    var fl, i := ReadFlags(fmt, start);
    var w := ReadWidth(fmt, i, args, k);
    var p := ReadPrecision(fmt, w.i, args, w.k);
    var q, j := ReadQualifier(fmt, p.i);
    d := Directive(fl.(left := fl.left || w.left), w.value, p.value, q, At(fmt, j), j, p.k);
  }

  /** %c: blanks before or behind one character. */
  method PrintChar(buf: array<char>, str: nat, end: nat, d: Directive, c: char) returns (next: nat)
    requires end <= buf.Length
    modifies buf
    ensures next == str + |CText(d, c)| && Written(old(buf[..]), buf[..], str, end, CText(d, c))
  {
    hide Written, Repeat;
    ghost var b0 := buf[..];
    next := Pad(buf, str, end, ' ', if d.fl.left then 0 else d.width - 1);
    ghost var b1 := buf[..];
    next := Put(buf, next, end, c);
    ghost var b2 := buf[..];
    next := Pad(buf, next, end, ' ', if d.fl.left then d.width - 1 else 0);
    Join3(b0, b1, b2, buf[..], str, end, Repeat(' ', if d.fl.left then 0 else d.width - 1), [c],
          Repeat(' ', if d.fl.left then d.width - 1 else 0));
    NoBlanks();
  }

  lemma NoBlanks()
    ensures Repeat(' ', 0) == ""
  {
  }

  method StringLength(d: Directive, s: string) returns (len: nat)
    ensures len == CutLength(d, s)
  {
    len := 0;
    while len != d.width && len < |s| && s[len] != '\0'
      invariant 0 <= len <= |s| && StrLen(s, 0) == StrLen(s, len)
      invariant 0 <= d.width ==> len <= d.width
      decreases |s| - len
    {
      len := len + 1;
    }
    if d.precision > 0 && len > d.precision {
      len := d.precision;
    }
  }

  /** %s: at most as many characters as the width, then as the precision allow. */
  method PrintString(buf: array<char>, str: nat, end: nat, d: Directive, arg: Option<string>) returns (next: nat)
    requires end <= buf.Length
    modifies buf
    ensures next == str + |SText(d, arg)| && Written(old(buf[..]), buf[..], str, end, SText(d, arg))
  {
    hide Written, Repeat, CutLength;
    var s := if arg.None? then "(NULL)" else arg.value;
    var len := StringLength(d, s);
    ghost var b0 := buf[..];
    next := Pad(buf, str, end, ' ', if d.fl.left then 0 else d.width - len);
    ghost var b1 := buf[..];
    next := PutString(buf, next, end, s, len);
    ghost var b2 := buf[..];
    next := Pad(buf, next, end, ' ', if d.fl.left then d.width - len else 0);
    Join3(b0, b1, b2, buf[..], str, end, Repeat(' ', if d.fl.left then 0 else d.width - len), s[..len],
          Repeat(' ', if d.fl.left then d.width - len else 0));
    NoBlanks();
  }

  lemma Join3(b0: string, b1: string, b2: string, b3: string, str: nat, end: nat, p0: string, p1: string, p2: string)
    requires Written(b0, b1, str, end, p0)
    requires Written(b1, b2, str + |p0|, end, p1)
    requires Written(b2, b3, str + |p0| + |p1|, end, p2)
    ensures Written(b0, b3, str, end, p0 + p1 + p2)
    ensures p0 == "" ==> p0 + p1 + p2 == p1 + p2
    ensures p2 == "" ==> p0 + p1 + p2 == p0 + p1
  {
    hide Written;
    WrittenAppend(b0, b1, b2, str, end, p0, p1);
    WrittenAppend(b0, b2, b3, str, end, p0 + p1, p2);
  }

  /** The switch on the conversion character. */
  method Convert(buf: array<char>, str: nat, end: nat, d: Directive, args: Args)
    returns (next: nat, i: nat, k: nat)
    requires end <= buf.Length && InRange(args(d.k))
    modifies buf
    ensures var (text, j, k') := Expand(d, args);
            next == str + |text| && i == j && k == k' && Written(old(buf[..]), buf[..], str, end, text)
  {
    hide Written, NumberText, SText, CText, Operand;
    var a := args(d.k);
    i, k := d.i + 1, d.k + 1;
    match d.conv {
      case 'c' => next := PrintChar(buf, str, end, d, (a.i % 256) as char);
      case 's' => next := PrintString(buf, str, end, d, a.s);
      case 'p' =>
        var width, fl := d.width, d.fl;
        if width == -1 {
          width := (if ULONG == TWO_32 then 8 else 16) + 2;
          fl := fl.(special := true, zeropad := true);
        }
        next := PrintNumber(buf, str, end, a.ul, 16, d.q, width, d.precision, fl);
      case '%' =>
        next := Put(buf, str, end, '%');
        k := d.k;
      case _ =>
        if IsInteger(d.conv) {
          var fl := ConvFlags(d.fl, d.conv);
          OperandBound(a, d.q, fl.sign);
          next := PrintNumber(buf, str, end, Operand(a, d.q, fl.sign), Base(d.conv), d.q, d.width, d.precision, fl);
        } else {
          ghost var b0 := buf[..];
          next := Put(buf, str, end, '%');
          k := d.k;
          if d.conv == '\0' {
            i := d.i;
          } else {
            ghost var b1 := buf[..];
            next := Put(buf, next, end, d.conv);
            WrittenAppend(b0, b1, buf[..], str, end, "%", [d.conv]);
            assert "%" + [d.conv] == ['%', d.conv];
          }
        }
    }
  }

  lemma OperandBound(a: Arg, q: Qualifier, signed: bool)
    requires InRange(a)
    ensures Operand(a, q, signed) < TWO_64
  {
  }

  /** What a caller of vsnprintf is promised: the length of the whole output whatever
      the size, as much of it as fits in front of a terminating NUL, and no store
      at size or beyond. */
  ghost predicate Delivered(before: string, after: string, size: nat, output: string) {
    && |after| == |before| && size <= |before|
    && (forall i :: size <= i < |before| ==> after[i] == before[i])
    && (size > 0 ==>
          var m := Min(|output|, size - 1);
          && after[..m] == output[..m]
          && after[m] == '\0'
          && forall i :: m < i < size ==> after[i] == before[i])
  }

  lemma OutputStep(fmt: string, i: nat, args: Args, k: nat)
    ensures At(fmt, i) == '\0' ==> Output(fmt, i, args, k) == ""
    ensures At(fmt, i) != '\0' && fmt[i] != '%' ==> Output(fmt, i, args, k) == [fmt[i]] + Output(fmt, i + 1, args, k)
    ensures At(fmt, i) != '\0' && fmt[i] == '%' ==>
              var (text, j, k') := Expand(Parse(fmt, i + 1, args, k), args);
              Output(fmt, i, args, k) == text + Output(fmt, j, args, k')
  {
  }

  /** The loop over the format. */
  method Emit(buf: array<char>, size: nat, fmt: string, args: Args) returns (str: nat)
    requires size <= buf.Length && forall k: nat :: InRange(args(k))
    modifies buf
    ensures str == |Output(fmt, 0, args, 0)| && Written(old(buf[..]), buf[..], 0, size, Output(fmt, 0, args, 0))
  {
    hide Written, Expand, Parse, Output;
    ghost var was := buf[..];
    ghost var done := "";
    WrittenNothing(was, 0, size);
    str := 0;
    var i, k := 0, 0;
    while At(fmt, i) != '\0'
      invariant i <= |fmt| && str == |done|
      invariant Output(fmt, 0, args, 0) == done + Output(fmt, i, args, k)
      invariant Written(was, buf[..], 0, size, done)
      decreases |fmt| - i
    {
      ghost var mid := buf[..];
      ghost var text := [fmt[i]];
      OutputStep(fmt, i, args, k);
      if fmt[i] != '%' {
        str := Put(buf, str, size, fmt[i]);
        i := i + 1;
      } else {
        var d := ParseDirective(fmt, i + 1, args, k);
        text := Expand(d, args).0;
        str, i, k := Convert(buf, str, size, d, args);
      }
      WrittenAppend(was, mid, buf[..], 0, size, done, text);
      assert done + (text + Output(fmt, i, args, k)) == (done + text) + Output(fmt, i, args, k);
      done := done + text;
    }
    OutputStep(fmt, i, args, k);
    assert done + "" == done;
  }

  /** rt_vsnprintf. */
  method VsnPrintf(buf: array<char>, size: nat, fmt: string, args: Args) returns (n: nat)
    requires size <= buf.Length && forall k: nat :: InRange(args(k))
    modifies buf
    ensures n == |Output(fmt, 0, args, 0)|
    ensures Delivered(old(buf[..]), buf[..], size, Output(fmt, 0, args, 0))
  {
    hide Output;
    n := Emit(buf, size, fmt, args);
    if size > 0 {
      if n < size {
        buf[n] := '\0';
      } else {
        buf[size - 1] := '\0';
      }
    }
  }
}
