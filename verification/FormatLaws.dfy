/** What the formatted output is worth to its reader: field widths, decimal
    numbers that read back, and signs. */
module FormatLaws {
  import opened Basics
  import opened Digits
  import opened Formats

  /** A number fills its field exactly, or outgrows it. An explicit precision 0
      counts the digits in the field and then prints none of them. */
  lemma WidthLaw(num: nat, base: nat, q: Qualifier, width: int, precision: int, fl: Flags)
    requires 2 <= base <= 16
    ensures var digits := Tmp(Magnitude(num, q, fl), base, fl.large);
            |NumberText(num, base, q, width, precision, fl)|
            == Max(width, |SignChar(num, q, fl)| + |Prefix(base, fl)| + Max(precision, |digits|))
               - (if precision == 0 then |digits| else 0)
  {
  }

  // ----- decimal numbers

  function Decimal(n: nat): string { Backwards(Tmp(n, 10, false)) }

  function SignedDecimal(v: int): string { if v < 0 then "-" + Decimal(-v) else Decimal(v) }

  /** The number a string of digits stands for, most significant first. */
  function Worth(s: string): nat
    requires forall i :: 0 <= i < |s| ==> IsDigit(s[i])
  {
    if s == "" then 0 else 10 * Worth(s[..|s| - 1]) + DigitValue(s[|s| - 1])
  }

  function DigitValue(c: char): nat
    requires IsDigit(c)
  {
    c as int - '0' as int
  }

  lemma {:induction false} DecimalWorth(n: nat)
    ensures forall i :: 0 <= i < |Decimal(n)| ==> IsDigit(Decimal(n)[i])
    ensures Worth(Decimal(n)) == n
    ensures |Decimal(n)| >= 1 && (Decimal(n)[0] == '0' <==> n == 0)
    decreases n
  {
    hide Decimal;
    if n < 10 {
      OneDigit(n);
      WorthNext("", '0' + n as char);
    } else {
      var m := n / 10;
      DecimalWorth(m);
      LastDigit(n);
      WorthNext(Decimal(m), '0' + (n % 10) as char);
    }
  }

  lemma OneDigit(n: nat)
    requires n < 10
    ensures Decimal(n) == ['0' + n as char]
  {
    assert n > 0 ==> Reversed(n, 10) == [n] + Reversed(0, 10);
  }

  lemma LastDigit(n: nat)
    requires n >= 10
    ensures Decimal(n) == Decimal(n / 10) + ['0' + (n % 10) as char]
  {
    hide Reversed, Backwards;
    ReversedNext(n);
    var c := '0' + (n % 10) as char;
    var s, t := Tmp(n / 10, 10, false), Tmp(n, 10, false);
    assert t == [c] + s;
    BackwardsCons(c, s);
  }

  lemma ReversedNext(n: nat)
    requires n >= 10
    ensures Reversed(n, 10) == [n % 10] + Reversed(n / 10, 10) && n / 10 > 0
  {
  }

  lemma BackwardsCons(c: char, s: string)
    ensures Backwards([c] + s) == Backwards(s) + [c]
  {
  }

  lemma WorthNext(s: string, c: char)
    requires (forall i :: 0 <= i < |s| ==> IsDigit(s[i])) && IsDigit(c)
    ensures forall i :: 0 <= i < |s + [c]| ==> IsDigit((s + [c])[i])
    ensures Worth(s + [c]) == 10 * Worth(s) + DigitValue(c)
  {
    assert (s + [c])[..|s|] == s;
  }

  /** skip_atoi stops at the first character that is no digit, with the value of those before it. */
  lemma {:induction false} ScanReads(fmt: string, start: nat, i: nat, j: nat)
    requires start <= i <= j <= |fmt| && !IsDigit(At(fmt, j))
    requires forall m :: start <= m < j ==> IsDigit(fmt[m])
    ensures ScanNumber(fmt, i, Worth(fmt[start..i])) == (Worth(fmt[start..j]), j)
    decreases j - i
  {
    if i < j {
      assert fmt[start..i + 1][..i - start] == fmt[start..i];
      ScanReads(fmt, start, i + 1, j);
    }
  }

  lemma ScanText(before: string, text: string, after: string)
    requires forall i :: 0 <= i < |text| ==> IsDigit(text[i])
    requires !IsDigit(At(after, 0))
    ensures ScanNumber(before + text + after, |before|, 0) == (Worth(text), |before| + |text|)
  {
    hide Worth, ScanNumber;
    var fmt := before + text + after;
    var j := |before| + |text|;
    assert fmt[|before|..j] == text;
    assert fmt[|before|..|before|] == "";
    assert At(fmt, j) == At(after, 0);
    ScanReads(fmt, |before|, |before|, j);
    WorthEmpty();
  }

  lemma WorthEmpty()
    ensures Worth("") == 0
  {
  }

  /** With no flags and no precision a number prints as its canonical decimal:
      no leading zero, and skip_atoi reads the same number back. */
  lemma DecimalRoundTrip(num: nat, q: Qualifier, text: string, before: string, after: string)
    requires text == NumberText(num, 10, q, -1, -1, NO_FLAGS) && !IsDigit(At(after, 0))
    ensures ScanNumber(before + text + after, |before|, 0) == (num, |before| + |text|)
    ensures |text| >= 1 && (text[0] == '0' <==> num == 0)
  {
    hide *;
    PlainText(num, q);
    DecimalReads(num, before, after);
  }

  lemma DecimalReads(num: nat, before: string, after: string)
    requires !IsDigit(At(after, 0))
    ensures ScanNumber(before + Decimal(num) + after, |before|, 0) == (num, |before| + |Decimal(num)|)
    ensures |Decimal(num)| >= 1 && (Decimal(num)[0] == '0' <==> num == 0)
  {
    hide *;
    DecimalWorth(num);
    ScanText(before, Decimal(num), after);
  }

  lemma PlainText(num: nat, q: Qualifier)
    ensures NumberText(num, 10, q, -1, -1, NO_FLAGS) == Decimal(num)
  {
    assert "" + "" + ("" + Decimal(num)) == Decimal(num);
  }

  lemma DecimalInjective(a: nat, b: nat)
    requires Decimal(a) == Decimal(b)
    ensures a == b
  {
    DecimalWorth(a);
    DecimalWorth(b);
  }

  lemma SignedShape(v: int)
    ensures |SignedDecimal(v)| > 0 && (SignedDecimal(v)[0] == '-' <==> v < 0)
    ensures v < 0 ==> SignedDecimal(v)[1..] == Decimal(-v)
  {
    DecimalWorth(if v < 0 then -v else v);
  }

  lemma SignedInjective(v: int, w: int)
    requires SignedDecimal(v) == SignedDecimal(w)
    ensures v == w
  {
    SignedShape(v);
    SignedShape(w);
    if v < 0 {
      DecimalInjective(-v, -w);
    } else {
      DecimalInjective(v, w);
    }
  }

  // ----- signs

  const SIGNED: Flags := NO_FLAGS.(sign := true)

  /** The number of values the qualifier's type holds. */
  function Width(q: Qualifier): int {
    match q case Half => TWO_16 case Long => ULONG case LongLong => TWO_64 case NoQ => TWO_32
  }

  /** The value the caller passes and the argument it is read from. */
  ghost predicate Passes(v: int, a: Arg, q: Qualifier) {
    && InRange(a)
    && -Width(q) / 2 <= v < Width(q) / 2
    && match q
       case Half => a.i % TWO_16 == v % TWO_16
       case Long => a.ul == v % ULONG
       case LongLong => a.ull == v % TWO_64
       case NoQ => a.ul % TWO_32 == v % TWO_32
  }

  /** %hd, %d and %ld print every value of their type, the most negative one included. */
  lemma SignedPrints(v: int, a: Arg, q: Qualifier)
    requires Passes(v, a, q) && q != LongLong
    ensures NumberText(Operand(a, q, true), 10, q, -1, -1, SIGNED) == SignedDecimal(v)
  {
    hide NumberText, Decimal, Operand, IsNegative, Negated;
    SignedText(Operand(a, q, true), q);
    SignedOperand(v, a, q);
  }

  /** The operand's sign and magnitude are the value's. */
  predicate OperandFits(v: int, a: Arg, q: Qualifier) {
    var num := Operand(a, q, true);
    && (IsNegative(num, q) <==> v < 0)
    && (if v < 0 then Negated(num, q) == -v else num == v)
  }

  lemma HalfOperand(v: int, a: Arg)
    requires Passes(v, a, Half)
    ensures OperandFits(v, a, Half)
  {
    Modulo(v, TWO_16);
  }

  lemma LongOperand(v: int, a: Arg)
    requires Passes(v, a, Long)
    ensures OperandFits(v, a, Long)
  {
    Modulo(v, ULONG);
  }

  lemma PlainOperand(v: int, a: Arg)
    requires Passes(v, a, NoQ)
    ensures OperandFits(v, a, NoQ)
  {
    Modulo(v, TWO_32);
  }

  lemma SignedOperand(v: int, a: Arg, q: Qualifier)
    requires Passes(v, a, q) && q != LongLong
    ensures OperandFits(v, a, q)
  {
    hide OperandFits, Passes;
    match q {
      case Half => HalfOperand(v, a);
      case Long => LongOperand(v, a);
      case NoQ => PlainOperand(v, a);
    }
  }

  lemma Modulo(v: int, m: int)
    requires m > 0 && -m <= v < m
    ensures v % m == if v < 0 then v + m else v
  {
    assert v < 0 ==> (v + m) % m == v % m;
  }

  lemma SignedText(num: nat, q: Qualifier)
    ensures NumberText(num, 10, q, -1, -1, SIGNED)
            == if IsNegative(num, q) then "-" + Decimal(Negated(num, q)) else Decimal(num)
  {
    var n := Magnitude(num, q, SIGNED);
    assert SignChar(num, q, SIGNED) + "" + ("" + Decimal(n)) == SignChar(num, q, SIGNED) + Decimal(n);
    assert "" + Decimal(n) == Decimal(n);
  }

  predicate LongHolds(v: int) {
    ULONG == TWO_64 || (0 <= v && v % TWO_32 < TWO_32 / 2) || -(TWO_32 / 2) <= v < 0
  }

  /** %lld tests and negates the sign in a `long`: where that has 32 bits it prints
      the value exactly when this condition holds. */
  lemma LongLongPrints(v: int, a: Arg)
    requires Passes(v, a, LongLong)
    ensures NumberText(Operand(a, LongLong, true), 10, LongLong, -1, -1, SIGNED) == SignedDecimal(v)
            <==> LongHolds(v)
  {
    hide NumberText, Decimal, SignedDecimal;
    var num := a.ull;
    Modulo(v, TWO_64);
    var w := Printed(num);
    PrintedText(num);
    PrintedValue(num, v);
    if SignedDecimal(w) == SignedDecimal(v) {
      SignedInjective(w, v);
    }
  }

  /** The value whose decimal %lld prints. */
  function Printed(num: nat): int {
    if IsNegative(num, LongLong) then 0 - Negated(num, LongLong) else num
  }

  lemma PrintedText(num: nat)
    ensures NumberText(num, 10, LongLong, -1, -1, SIGNED) == SignedDecimal(Printed(num))
  {
    hide NumberText, Decimal;
    SignedText(num, LongLong);
    assert IsNegative(num, LongLong) ==> Negated(num, LongLong) > 0;
  }

  lemma PrintedValue(num: nat, v: int)
    requires -0x8000_0000_0000_0000 <= v < 0x8000_0000_0000_0000
    requires num == if v < 0 then v + TWO_64 else v
    ensures Printed(num) == v <==> LongHolds(v)
  {
    if ULONG == TWO_64 {
      assert num % TWO_64 == num;
    } else {
      assert num % TWO_32 == v % TWO_32 by {
        assert v + TWO_64 == v + TWO_32 * TWO_32;
        Periodic(v, TWO_32, TWO_32);
      }
      if -(TWO_32 / 2) <= v < TWO_32 {
        Modulo(v, TWO_32);
      }
    }
  }

  /** On a 32-bit machine %lld prints 2147483648 as -2147483648. */
  lemma LongLongWrong()
    requires ULONG == TWO_32
    ensures NumberText(0x8000_0000, 10, LongLong, -1, -1, SIGNED) == SignedDecimal(-0x8000_0000)
    ensures NumberText(0x8000_0000, 10, LongLong, -1, -1, SIGNED) != SignedDecimal(0x8000_0000)
  {
    SignedText(0x8000_0000, LongLong);
    SignedShape(0x8000_0000);
    SignedShape(-0x8000_0000);
  }

  /** The complete output for the format "%d" is the value in decimal. */
  lemma PercentD(v: int, args: Args)
    requires Passes(v, args(0), NoQ)
    ensures Output("%d", 0, args, 0) == SignedDecimal(v)
  {
    hide SignedDecimal, NumberText, Passes;
    SignedPrints(v, args(0), NoQ);
    assert ScanFlags("%d", 1, NO_FLAGS) == (NO_FLAGS, 1);
    var d := Parse("%d", 1, args, 0);
    assert d == Directive(NO_FLAGS, -1, -1, NoQ, 'd', 1, 0);
    assert Output("%d", 2, args, 1) == "";
    assert SignedDecimal(v) + "" == SignedDecimal(v);
  }
}
