/** What a reader finds in the output of rt_vsnprintf: numerals in the base the conversion asks for, and
    fields of the width asked for. */
module PrintLaws {
  import opened Basics
  import opened Digits
  import opened Formats
  import opened FormatLaws
  import opened DirectiveLaws

  // ----- a reader of numerals

  /** The value of a digit, letters being upper case exactly in a large numeral; 99 if it is none. */
  function DigitOf(c: char, large: bool): nat {
    if '0' <= c <= '9' then c as int - 48
    else if !large && 'a' <= c <= 'f' then c as int - 87
    else if large && 'A' <= c <= 'F' then c as int - 55
    else 99
  }

  /** A numeral in the given base, without leading zeros. */
  predicate Numeral(s: string, base: nat, large: bool) {
    s != "" && (s[0] == '0' ==> s == "0") && forall i :: 0 <= i < |s| ==> DigitOf(s[i], large) < base
  }

  function Reading(s: string, base: nat, large: bool): nat {
    if s == "" then 0 else base * Reading(s[..|s| - 1], base, large) + DigitOf(s[|s| - 1], large)
  }

  /** The digits of the divide loop, turned round, are the numeral of the number. */
  lemma {:induction false} DigitsRead(n: nat, base: nat, large: bool)
    requires 2 <= base <= 16
    ensures var s := Backwards(Tmp(n, base, large));
      Numeral(s, base, large) && Reading(s, base, large) == n && (n > 0 ==> s[0] != '0')
    decreases n
  {
    hide Backwards, Tmp, DigitChar;
    if n < base {
      SmallNumeral(n, base, large);
      ReadingSnoc("", DigitChar(n, large), base, large);
    } else {
      Smaller(n, base);
      DivMod(n, base);
      var m := n / base;
      DigitsRead(m, base, large);
      LargeNumeral(n, base, large);
      DigitChars(n % base, base, large);
      ReadingSnoc(Backwards(Tmp(m, base, large)), DigitChar(n % base, large), base, large);
    }
  }

  lemma DigitChars(d: nat, base: nat, large: bool)
    requires d < base <= 16
    ensures DigitOf(DigitChar(d, large), large) == d && (DigitChar(d, large) == '0' <==> d == 0)
  {
  }

  lemma SmallNumeral(n: nat, base: nat, large: bool)
    requires n < base && 2 <= base <= 16
    ensures Backwards(Tmp(n, base, large)) == [DigitChar(n, large)] && DigitOf(DigitChar(n, large), large) == n
    ensures DigitChar(n, large) == '0' <==> n == 0
  {
    if n > 0 {
      OneDigitLeft(n, base);
    }
  }

  lemma OneDigitLeft(n: nat, base: nat)
    requires 0 < n < base && base >= 2
    ensures Reversed(n, base) == [n]
  {
    Euclid(n, base, 0, n);
    assert Reversed(0, base) == [];
  }

  lemma LargeNumeral(n: nat, base: nat, large: bool)
    requires n >= base && 2 <= base <= 16
    ensures n / base > 0
    ensures Backwards(Tmp(n, base, large)) == Backwards(Tmp(n / base, base, large)) + [DigitChar(n % base, large)]
  {
    hide Backwards;
    NotZero(n, base);
    var s, t := Tmp(n / base, base, large), Tmp(n, base, large);
    assert t == [DigitChar(n % base, large)] + s;
    BackwardsCons(DigitChar(n % base, large), s);
  }

  lemma NotZero(n: nat, base: nat)
    requires n >= base >= 2
    ensures n / base > 0
  {
    DivMod(n, base);
    Positive(base, n / base);
  }

  lemma Positive(a: nat, b: nat)
    requires a * b > 0
    ensures b > 0
  {
  }

  lemma ReadingSnoc(s: string, c: char, base: nat, large: bool)
    ensures Reading(s + [c], base, large) == base * Reading(s, base, large) + DigitOf(c, large)
  {
    assert (s + [c])[..|s|] == s;
    if s == "" {
      assert Reading("", base, large) == 0;
    }
  }

  // ----- number fields

  /** A field: blanks, sign, prefix, zeros, digits, blanks. */
  datatype Field = Field(left: string, sign: string, prefix: string, zeros: string, digits: string, right: string)

  function Whole(f: Field): string { f.left + (f.sign + (f.prefix + (f.zeros + (f.digits + f.right)))) }

  predicate All(c: char, s: string) { forall i :: 0 <= i < |s| ==> s[i] == c }

  /** The field is padded to the width on the side the flags ask for: '-' to the right with blanks, '0' in
      front of the digits, otherwise to the left with blanks. */
  ghost predicate Padded(f: Field, width: int, precision: int, fl: Flags) {
    && All(' ', f.left) && All(' ', f.right) && All('0', f.zeros)
    && (f.left != "" ==> !fl.left && !fl.zeropad) && (f.right != "" ==> fl.left)
    && (fl.left || !fl.zeropad ==> |f.zeros| == Max(0, precision - |f.digits|))
    && (precision != 0 ==> |Whole(f)| == Max(width, |f.sign| + |f.prefix| + Max(precision, |f.digits|)))
  }

  /** What print_number appends is such a field with the numeral of the number; an explicit precision 0
      leaves the digits out. */
  lemma NumberField(num: nat, base: nat, q: Qualifier, width: int, precision: int, fl: Flags) returns (f: Field)
    requires 2 <= base <= 16
    ensures Whole(f) == NumberText(num, base, q, width, precision, fl) && Padded(f, width, precision, fl)
    ensures f.sign == SignChar(num, q, fl) && f.prefix == Prefix(base, fl)
    ensures if precision == 0 then f.digits == ""
            else Numeral(f.digits, base, fl.large) && Reading(f.digits, base, fl.large) == Magnitude(num, q, fl)
    ensures precision != 0 ==> |f.digits| == |Tmp(Magnitude(num, q, fl), base, fl.large)|
  {
    var sign, prefix, tmp := SignChar(num, q, fl), Prefix(base, fl), Tmp(Magnitude(num, q, fl), base, fl.large);
    DigitsRead(Magnitude(num, q, fl), base, fl.large);
    hide SignChar, Prefix, Tmp, Numeral, Reading;
    f := FieldOf(sign, prefix, tmp, width, precision, fl);
  }

  lemma FieldOf(sign: string, prefix: string, tmp: string, width: int, precision: int, fl: Flags) returns (f: Field)
    requires |sign| <= 1
    ensures Whole(f) == Layout(sign, prefix, tmp, width, precision, fl) && Padded(f, width, precision, fl)
    ensures f.sign == sign && f.prefix == prefix && f.digits == if precision == 0 then "" else Backwards(tmp)
  {
    hide Repeat, Backwards;
    var zeros, digits := Repeat('0', precision - |tmp|), if precision == 0 then "" else Backwards(tmp);
    var room := width - |prefix| - Max(|tmp|, precision);
    if fl.left {
      var blanks := Repeat(' ', room - |sign|);
      f := Field("", sign, prefix, zeros, digits, blanks);
    } else if fl.zeropad {
      f := Field("", sign, prefix, Repeat('0', room - |sign|) + zeros, digits, "");
    } else {
      f := Field(Repeat(' ', if room > 0 then room - |sign| else room), sign, prefix, zeros, digits, "");
    }
    Regroup(f.left, sign, prefix, Repeat('0', room - |sign|), zeros, digits, f.right);
  }

  lemma Regroup(a: string, b: string, c: string, d: string, e: string, f: string, g: string)
    ensures b + c + (e + f) + g == "" + (b + (c + (e + (f + g))))
    ensures b + c + d + (e + f) == "" + (b + (c + ((d + e) + (f + ""))))
    ensures a + b + c + (e + f) == a + (b + (c + (e + (f + ""))))
  {
  }

  // ----- integer conversions

  /** The base a conversion prints in. */
  function BaseOf(c: char): nat {
    match c case 'b' => 2 case 'o' => 8 case 'x' => 16 case 'X' => 16 case _ => 10
  }

  /** What '#' puts in front. */
  function Mark(c: char): string {
    match c case 'b' => "0b" case 'o' => "0" case 'x' => "0x" case 'X' => "0X" case _ => ""
  }

  /** The argument as the qualifier's unsigned type. */
  function Unsigned(a: Arg, q: Qualifier): nat {
    match q case Half => a.i % 65536 case Long => a.ul case LongLong => a.ull case NoQ => a.ul % 0x1_0000_0000
  }

  /** %u, %o, %b, %x and %X: the argument in base 10, 8, 2, 16 and 16, letters upper case for %X alone, behind
      the mark of the base if '#' is given, padded to the width; no digits for an explicit precision 0. */
  lemma UnsignedField(d: Directive, args: Args) returns (f: Field)
    requires d.conv in {'u', 'o', 'b', 'x', 'X'} && !d.fl.sign && !d.fl.large
    ensures Expand(d, args).0 == Whole(f) && Padded(f, d.width, d.precision, d.fl)
    ensures f.sign == "" && f.prefix == if d.fl.special then Mark(d.conv) else ""
    ensures d.precision == 0 ==> f.digits == ""
    ensures d.precision != 0 ==>
      && Numeral(f.digits, BaseOf(d.conv), d.conv == 'X')
      && Reading(f.digits, BaseOf(d.conv), d.conv == 'X') == Unsigned(args(d.k), d.q)
  {
    hide NumberText, Numeral, Reading, Whole;
    var fl := ConvFlags(d.fl, d.conv);
    f := NumberField(Operand(args(d.k), d.q, false), BaseOf(d.conv), d.q, d.width, d.precision, fl);
  }

  /** %d and %i: the value in base 10 behind '-' if it is negative, else behind '+' or ' ' if asked for.
      (%lld: see LongLongPrints.) */
  lemma SignedField(d: Directive, args: Args, v: int) returns (f: Field)
    requires d.conv in {'d', 'i'} && !d.fl.large && d.q != LongLong && Passes(v, args(d.k), d.q)
    ensures Expand(d, args).0 == Whole(f) && Padded(f, d.width, d.precision, d.fl)
    ensures f.prefix == "" && f.sign == if v < 0 then "-" else if d.fl.plus then "+" else if d.fl.space then " " else ""
    ensures if d.precision == 0 then f.digits == ""
            else Numeral(f.digits, 10, false) && Reading(f.digits, 10, false) == if v < 0 then -v else v
  {
    hide NumberText, Numeral, Reading, Whole, Passes, SignChar, Magnitude, Prefix, Operand, Padded, Tmp;
    var fl := ConvFlags(d.fl, d.conv);
    SignAndSize(v, args(d.k), d.q, fl);
    f := NumberField(Operand(args(d.k), d.q, true), 10, d.q, d.width, d.precision, fl);
    SamePadding(f, d.width, d.precision, fl, d.fl);
  }

  lemma SamePadding(f: Field, width: int, precision: int, fl: Flags, fl': Flags)
    requires Padded(f, width, precision, fl) && fl'.left == fl.left && fl'.zeropad == fl.zeropad
    ensures Padded(f, width, precision, fl')
  {
  }

  lemma SignAndSize(v: int, a: Arg, q: Qualifier, fl: Flags)
    requires Passes(v, a, q) && q != LongLong && fl.sign
    ensures SignChar(Operand(a, q, true), q, fl)
            == if v < 0 then "-" else if fl.plus then "+" else if fl.space then " " else ""
    ensures Magnitude(Operand(a, q, true), q, fl) == (if v < 0 then -v else v) && Prefix(10, fl) == ""
  {
    hide Passes, Operand, IsNegative, Negated;
    SignedOperand(v, a, q);
  }

  // ----- the other conversions

  /** %s: the string up to its NUL, the width or a positive precision, whichever comes first, on the side '-' asks
      for in a field of exactly the width. */
  lemma StringField(d: Directive, args: Args) returns (n: nat, blanks: string)
    requires d.conv == 's'
    ensures var s := if args(d.k).s.None? then "(NULL)" else args(d.k).s.value;
      && n <= |s| && (forall i :: 0 <= i < n ==> s[i] != '\0')
      && (d.width >= 0 ==> n <= d.width) && (d.precision > 0 ==> n <= d.precision)
      && (n == |s| || s[n] == '\0' || n == d.width || (n == d.precision && n > 0))
      && All(' ', blanks) && |blanks| == Max(0, d.width - n)
      && Expand(d, args).0 == if d.fl.left then s[..n] + blanks else blanks + s[..n]
  {
    var s := if args(d.k).s.None? then "(NULL)" else args(d.k).s.value;
    StrLenIs(s, 0);
    n := CutLength(d, s);
    blanks := Repeat(' ', d.width - n);
  }

  lemma {:induction false} StrLenIs(s: string, i: nat)
    requires i <= |s|
    ensures var n := StrLen(s, i); (forall j :: i <= j < n ==> s[j] != '\0') && (n < |s| ==> s[n] == '\0')
    decreases |s| - i
  {
    if i < |s| && s[i] != '\0' {
      StrLenIs(s, i + 1);
    }
  }

  /** %c: the low byte of the argument in a field of the width. */
  lemma CharField(d: Directive, args: Args) returns (blanks: string)
    requires d.conv == 'c'
    ensures All(' ', blanks) && |blanks| == Max(0, d.width - 1)
    ensures var c := (args(d.k).i % 256) as char;
      Expand(d, args).0 == if d.fl.left then [c] + blanks else blanks + [c]
  {
    blanks := Repeat(' ', d.width - 1);
  }

  // ----- whole outputs

  /** Text without '%' is copied. */
  lemma {:induction false} Literal(fmt: string, i: nat, j: nat, args: Args, k: nat)
    requires i <= j <= |fmt| && forall n :: i <= n < j ==> fmt[n] != '%' && fmt[n] != '\0'
    ensures Output(fmt, i, args, k) == fmt[i..j] + Output(fmt, j, args, k)
    decreases j - i
  {
    hide Expand, Parse;
    if i < j {
      Literal(fmt, i + 1, j, args, k);
      assert fmt[i..j] == [fmt[i]] + fmt[i + 1..j];
    } else {
      assert fmt[i..j] == "";
    }
  }

  /** A directive behind such text adds its own text, and the format goes on with the arguments it left. */
  lemma InContext(before: string, d: Written, after: string, args: Args, k: nat)
    requires Proper(d) && d.conv != '\0' && forall n :: 0 <= n < |before| ==> before[n] != '%' && before[n] != '\0'
    ensures var fmt, j := before + "%" + Text(d) + after, |before| + |Text(d)|;
      var r := Expand(Meaning(d, j, args, k), args);
      Output(fmt, 0, args, k) == before + (r.0 + Output(fmt, j + 1, args, r.2))
  {
    hide Text, Meaning, Parse, Expand, Proper;
    var fmt, i := before + "%" + Text(d) + after, |before|;
    assert fmt == (before + "%") + Text(d) + after;
    ParsesBack(before + "%", d, after, args, k);
    TextEnds(d);
    var e := Parse(fmt, i + 1, args, k);
    Behind(e, args);
    assert fmt[0..i] == before && fmt[i] == '%';
    Literal(fmt, 0, i, args, k);
  }

  /** The output of a format that is one directive. */
  lemma OneDirective(d: Written, args: Args)
    requires Proper(d) && d.conv != '\0'
    ensures Output("%" + Text(d), 0, args, 0) == Expand(Meaning(d, |Text(d)|, args, 0), args).0
  {
    hide Text, Meaning, Parse, Expand, Proper;
    var fmt := "%" + Text(d);
    InContext("", d, "", args, 0);
    assert "" + "%" + Text(d) + "" == fmt;
    var r := Expand(Meaning(d, |Text(d)|, args, 0), args);
    assert Output(fmt, |fmt|, args, r.2) == "";
    assert "" + (r.0 + "") == r.0;
  }

  lemma TextEnds(d: Written)
    requires Proper(d)
    ensures |Text(d)| >= 1
    ensures forall i, args, k :: Meaning(d, i, args, k).i == i && Meaning(d, i, args, k).conv == d.conv
  {
    hide WidthOf, PrecisionOf, FlagsOf;
  }

  lemma Behind(d: Directive, args: Args)
    requires d.conv != '\0'
    ensures Expand(d, args).1 == d.i + 1
  {
    hide NumberText, CText, SText, PText, Operand;
  }

  /** The output for a single %u, %o, %b, %x or %X, with or without a qualifier, is just the numeral. */
  lemma UnsignedOutput(c: char, size: Size, args: Args)
    requires c in {'u', 'o', 'b', 'x', 'X'}
    ensures var out := Output("%" + (SizeText(size) + [c]), 0, args, 0);
      && Numeral(out, BaseOf(c), c == 'X')
      && Reading(out, BaseOf(c), c == 'X') == Unsigned(args(0), SizeOf(size))
  {
    var d := Written("", Absent, Absent, size, c);
    assert Text(d) == SizeText(size) + [c];
    OneDirective(d, args);
    hide Numeral, Reading, Output, Expand, Text, SizeText, SizeOf;
    var m := Meaning(d, |Text(d)|, args, 0);
    var f := UnsignedField(m, args);
    NothingElse(f, m);
  }

  lemma NothingElse(f: Field, d: Directive)
    requires Padded(f, -1, -1, d.fl) && d.fl == NO_FLAGS && f.sign == "" && f.prefix == ""
    ensures Whole(f) == f.digits
  {
  }

  /** %p: "0x" and the address in 8 or 16 hexadecimal digits. */
  lemma PointerOutput(args: Args) returns (digits: string)
    requires InRange(args(0))
    ensures Output("%p", 0, args, 0) == "0x" + digits && |digits| == if ULONG == 0x1_0000_0000 then 8 else 16
    ensures Reading(digits, 16, false) == args(0).ul && forall i :: 0 <= i < |digits| ==> DigitOf(digits[i], false) < 16
  {
    var d := Written("", Absent, Absent, Plain, 'p');
    assert Text(d) == "p" && "%" + "p" == "%p";
    OneDirective(d, args);
    hide Numeral, Reading, Output, Text, Padded, NumberText;
    var n, len := args(0).ul, if ULONG == 0x1_0000_0000 then 8 else 16;
    var fl := NO_FLAGS.(special := true, zeropad := true);
    var f := NumberField(n, 16, NoQ, len + 2, -1, fl);
    ShortAddress(n, len);
    digits := f.zeros + f.digits;
    PointerParts(f, len, fl);
    ZerosRead(f.zeros, f.digits);
  }

  lemma ShortAddress(n: nat, len: nat)
    requires n < ULONG && len == if ULONG == 0x1_0000_0000 then 8 else 16
    ensures |Tmp(n, 16, false)| <= len
  {
    assert Pow(16, 4) == 65536;
    PowAdd(16, 4, 4);
    PowAdd(16, 8, 8);
    DigitCount(n, 16, len);
  }

  lemma PointerParts(f: Field, len: nat, fl: Flags)
    requires Padded(f, len + 2, -1, fl) && fl.zeropad && !fl.left && f.sign == "" && f.prefix == "0x"
    requires 0 < |f.digits| <= len
    ensures Whole(f) == "0x" + (f.zeros + f.digits) && |f.zeros + f.digits| == len && All('0', f.zeros)
  {
  }

  lemma {:induction false} ZerosRead(zeros: string, digits: string)
    requires All('0', zeros) && forall i :: 0 <= i < |digits| ==> DigitOf(digits[i], false) < 16
    ensures Reading(zeros + digits, 16, false) == Reading(digits, 16, false)
    ensures forall i :: 0 <= i < |zeros + digits| ==> DigitOf((zeros + digits)[i], false) < 16
    decreases |digits|, |zeros|
  {
    if digits != "" {
      var n := |digits| - 1;
      ZerosRead(zeros, digits[..n]);
      assert zeros + digits == (zeros + digits[..n]) + [digits[n]];
      ReadingSnoc(zeros + digits[..n], digits[n], 16, false);
    } else if zeros != "" {
      var n := |zeros| - 1;
      ZerosRead(zeros[..n], "");
      assert zeros + "" == zeros[..n] + [zeros[n]] && zeros[..n] + "" == zeros[..n];
      ReadingSnoc(zeros[..n], zeros[n], 16, false);
    }
  }

  /** With a width of its own %p prints as %x does. */
  lemma PointerField(d: Directive, args: Args) returns (f: Field)
    requires d.conv == 'p' && d.width != -1 && !d.fl.sign && !d.fl.large
    ensures Expand(d, args).0 == Whole(f) && Padded(f, d.width, d.precision, d.fl)
    ensures f.sign == "" && f.prefix == if d.fl.special then "0x" else ""
    ensures if d.precision == 0 then f.digits == ""
            else Numeral(f.digits, 16, false) && Reading(f.digits, 16, false) == args(d.k).ul
  {
    hide NumberText, Numeral, Reading, Whole, Padded, Tmp;
    f := NumberField(args(d.k).ul, 16, d.q, d.width, d.precision, d.fl);
  }

  /** %% prints a percent sign, an unknown conversion itself, and a '%' at the end of the format itself. */
  lemma OtherConversions(d: Directive, args: Args)
    requires d.conv !in {'c', 's', 'p', 'b', 'o', 'x', 'X', 'd', 'i', 'u'}
    ensures Expand(d, args).0 == if d.conv == '%' || d.conv == '\0' then "%" else ['%', d.conv]
    ensures Expand(d, args).1 == (if d.conv == '\0' then d.i else d.i + 1) && Expand(d, args).2 == d.k
  {
  }

  /** The others take one argument. */
  lemma TakesOne(d: Directive, args: Args)
    requires d.conv in {'c', 's', 'p', 'b', 'o', 'x', 'X', 'd', 'i', 'u'}
    ensures Expand(d, args).1 == d.i + 1 && Expand(d, args).2 == d.k + 1
  {
    hide NumberText, CText, SText, PText, Operand;
  }
}
