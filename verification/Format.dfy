/** What a format string and its arguments stand for: the complete output of
    rt_vsnprintf, without any buffer. */
module Formats {
  import opened Basics
  import opened Digits

  /** 2 to the width of `unsigned long`. */
  type LongModulus = n: nat | n == 0x1_0000_0000 || n == TWO_64 witness 0x1_0000_0000
  const ULONG: LongModulus

  const TWO_16: nat := 0x1_0000
  /** One variadic argument, as each of the types va_arg reads it with. */
  datatype Arg = Arg(i: int, ul: nat, ull: nat, s: Option<string>)

  ghost predicate InRange(a: Arg) {
    -0x8000_0000 <= a.i < 0x8000_0000 && a.ul < ULONG && a.ull < TWO_64
  }

  type Args = nat -> Arg

  datatype Flags = Flags(zeropad: bool, sign: bool, plus: bool, space: bool, left: bool, special: bool, large: bool)

  const NO_FLAGS: Flags := Flags(false, false, false, false, false, false, false)

  datatype Qualifier = NoQ | Half | Long | LongLong

  function Repeat(c: char, n: int): (s: string)
    ensures |s| == Max(n, 0) && forall i :: 0 <= i < |s| ==> s[i] == c
  {
    if n <= 0 then "" else seq(n, _ => c)
  }

  // ----- print_number

  function DigitChar(d: nat, large: bool): char
    requires d < 16
  {
    if d < 10 then '0' + d as char else (if large then 'A' else 'a') + (d - 10) as char
  }

  /** The contents of tmp after the divide loop: digits, least significant first. */
  function Tmp(num: nat, base: nat, large: bool): (r: string)
    requires 2 <= base <= 16
    ensures |r| >= 1
  {
    if num == 0 then "0" else
      var ds := Reversed(num, base);
      seq(|ds|, i requires 0 <= i < |ds| => DigitChar(ds[i], large))
  }

  function Backwards(s: string): (r: string)
    ensures |r| == |s| && forall i :: 0 <= i < |s| ==> r[i] == s[|s| - 1 - i]
  {
    seq(|s|, i requires 0 <= i < |s| => s[|s| - 1 - i])
  }

  /** num read as a signed number of the qualifier's width: is it negative? */
  function IsNegative(num: nat, q: Qualifier): bool {
    match q
    case Half => num % TWO_16 >= TWO_16 / 2
    case Long => num % ULONG >= ULONG / 2
    case LongLong => num % ULONG >= ULONG / 2
    case NoQ => num % TWO_32 >= TWO_32 / 2
  }

  /** -num in the qualifier's width. */
  function Negated(num: nat, q: Qualifier): nat {
    var m := match q case Half => TWO_16 case Long => ULONG case LongLong => ULONG case NoQ => TWO_32;
    (m - num % m) % m
  }

  function SignChar(num: nat, q: Qualifier, fl: Flags): string {
    if !fl.sign then ""
    else if IsNegative(num, q) then "-"
    else if fl.plus then "+"
    else if fl.space then " "
    else ""
  }

  function Magnitude(num: nat, q: Qualifier, fl: Flags): nat {
    if fl.sign && IsNegative(num, q) then Negated(num, q) else num
  }

  function Prefix(base: nat, fl: Flags): string {
    if !fl.special then ""
    else if base == 2 then "0b"
    else if base == 8 then "0"
    else if base == 16 then (if fl.large then "0X" else "0x")
    else ""
  }

  /** Sign, prefix and digits (least significant first) laid out in a field. */
  function Layout(sign: string, prefix: string, digits: string, width: int, precision: int, fl: Flags): string {
    var body := Repeat('0', precision - |digits|) + (if precision == 0 then "" else Backwards(digits));
    var room := width - |prefix| - Max(|digits|, precision);
    if fl.left then sign + prefix + body + Repeat(' ', room - |sign|)
    else if fl.zeropad then sign + prefix + Repeat('0', room - |sign|) + body
    else Repeat(' ', if room > 0 then room - |sign| else room) + sign + prefix + body
  }

  /** The text print_number appends. */
  function NumberText(num: nat, base: nat, q: Qualifier, width: int, precision: int, fl: Flags): string
    requires 2 <= base <= 16
  {
    Layout(SignChar(num, q, fl), Prefix(base, fl), Tmp(Magnitude(num, q, fl), base, fl.large), width, precision, fl)
  }

  // ----- the directives

  function At(fmt: string, i: nat): char { if i < |fmt| then fmt[i] else '\0' }

  predicate IsDigit(c: char) { '0' <= c <= '9' }

  function ScanFlags(fmt: string, i: nat, fl: Flags): (r: (Flags, nat))
    ensures i <= r.1 && (i <= |fmt| ==> r.1 <= |fmt|)
    decreases |fmt| - i
  {
    if i >= |fmt| then (fl, i)
    else if fmt[i] == '-' then ScanFlags(fmt, i + 1, fl.(left := true))
    else if fmt[i] == '+' then ScanFlags(fmt, i + 1, fl.(plus := true))
    else if fmt[i] == ' ' then ScanFlags(fmt, i + 1, fl.(space := true))
    else if fmt[i] == '#' then ScanFlags(fmt, i + 1, fl.(special := true))
    else if fmt[i] == '0' then ScanFlags(fmt, i + 1, fl.(zeropad := true))
    else (fl, i)
  }

  /** skip_atoi: the number read so far and the first position that is no digit. */
  function ScanNumber(fmt: string, i: nat, acc: nat): (r: (nat, nat))
    ensures i <= r.1 && (i <= |fmt| ==> r.1 <= |fmt|)
    decreases |fmt| - i
  {
    if IsDigit(At(fmt, i)) then ScanNumber(fmt, i + 1, acc * 10 + (fmt[i] as int - '0' as int)) else (acc, i)
  }

  /** Field width: digits, `*` and the next argument, or -1. */
  datatype Scan = Scan(value: int, left: bool, i: nat, k: nat)

  function ScanWidth(fmt: string, i: nat, args: Args, k: nat): (r: Scan)
    ensures i <= r.i && (i <= |fmt| ==> r.i <= |fmt|)
  {
    if IsDigit(At(fmt, i)) then
      var (n, j) := ScanNumber(fmt, i, 0);
      Scan(n, false, j, k)
    else if At(fmt, i) == '*' then
      var w := args(k).i;
      Scan(if w < 0 then -w else w, w < 0, i + 1, k + 1)
    else Scan(-1, false, i, k)
  }

  function ScanPrecision(fmt: string, i: nat, args: Args, k: nat): (r: Scan)
    ensures i <= r.i && (i <= |fmt| ==> r.i <= |fmt|)
  {
    if At(fmt, i) != '.' then Scan(-1, false, i, k)
    else if IsDigit(At(fmt, i + 1)) then
      var (n, j) := ScanNumber(fmt, i + 1, 0);
      Scan(n, false, j, k)
    else if At(fmt, i + 1) == '*' then
      var p := args(k).i;
      Scan(if p < 0 then 0 else p, false, i + 2, k + 1)
    else Scan(0, false, i + 1, k)
  }

  function ScanQualifier(fmt: string, i: nat): (r: (Qualifier, nat))
    ensures i <= r.1 && (i <= |fmt| ==> r.1 <= |fmt|)
  {
    if At(fmt, i) == 'h' then (Half, i + 1)
    else if At(fmt, i) == 'L' then (LongLong, i + 1)
    else if At(fmt, i) == 'l' then (if At(fmt, i + 1) == 'l' then (LongLong, i + 2) else (Long, i + 1))
    else (NoQ, i)
  }

  /** A parsed directive: conversion character and how far it reaches. */
  datatype Directive = Directive(fl: Flags, width: int, precision: int, q: Qualifier, conv: char, i: nat, k: nat)

  function Parse(fmt: string, i: nat, args: Args, k: nat): (d: Directive)
    ensures i <= d.i && (i <= |fmt| ==> d.i <= |fmt|) && d.conv == At(fmt, d.i)
  {
    var (fl, i1) := ScanFlags(fmt, i, NO_FLAGS);
    var w := ScanWidth(fmt, i1, args, k);
    var p := ScanPrecision(fmt, w.i, args, w.k);
    var (q, i3) := ScanQualifier(fmt, p.i);
    Directive(fl.(left := fl.left || w.left), w.value, p.value, q, At(fmt, i3), i3, p.k)
  }

  function CText(d: Directive, c: char): string {
    if d.fl.left then [c] + Repeat(' ', d.width - 1) else Repeat(' ', d.width - 1) + [c]
  }

  function StrLen(s: string, i: nat): (n: nat)
    requires i <= |s|
    ensures i <= n <= |s|
    decreases |s| - i
  {
    if i == |s| || s[i] == '\0' then i else StrLen(s, i + 1)
  }

  /** %s cuts the string at the field width, when there is one, and at a positive precision. */
  function CutLength(d: Directive, s: string): (len: nat)
    ensures len <= |s|
  {
    var n := StrLen(s, 0);
    var cut := if 0 <= d.width < n then d.width else n;
    if d.precision > 0 && cut > d.precision then d.precision else cut
  }

  function SText(d: Directive, arg: Option<string>): string {
    var s := if arg.None? then "(NULL)" else arg.value;
    var len := CutLength(d, s);
    if d.fl.left then s[..len] + Repeat(' ', d.width - len) else Repeat(' ', d.width - len) + s[..len]
  }

  function PText(d: Directive, a: Arg): string {
    if d.width == -1
    then NumberText(a.ul, 16, d.q, (if ULONG == TWO_32 then 8 else 16) + 2, d.precision,
                    d.fl.(special := true, zeropad := true))
    else NumberText(a.ul, 16, d.q, d.width, d.precision, d.fl)
  }

  /** The number an integer conversion prints, as an unsigned long long. */
  function Operand(a: Arg, q: Qualifier, signed: bool): nat {
    match q
    case LongLong => a.ull
    case Long => a.ul
    case Half =>
      var h: nat := a.i % TWO_16;
      if signed && h >= TWO_16 / 2 then TWO_64 - TWO_16 + h else h
    case NoQ => a.ul % TWO_32
  }

  predicate IsInteger(c: char) { c in {'b', 'o', 'x', 'X', 'd', 'i', 'u'} }

  function Base(c: char): nat {
    if c == 'b' then 2 else if c == 'o' then 8 else if c == 'x' || c == 'X' then 16 else 10
  }

  function ConvFlags(fl: Flags, c: char): Flags {
    if c == 'X' then fl.(large := true) else if c == 'd' || c == 'i' then fl.(sign := true) else fl
  }

  /** The text of a directive, the position behind it and the next argument. */
  function Expand(d: Directive, args: Args): (r: (string, nat, nat))
    ensures d.i <= r.1 <= d.i + 1 && (d.conv == '\0' ==> r.1 == d.i)
  {
    if d.conv == 'c' then (CText(d, (args(d.k).i % 256) as char), d.i + 1, d.k + 1)
    else if d.conv == 's' then (SText(d, args(d.k).s), d.i + 1, d.k + 1)
    else if d.conv == 'p' then (PText(d, args(d.k)), d.i + 1, d.k + 1)
    else if d.conv == '%' then ("%", d.i + 1, d.k)
    else if IsInteger(d.conv) then
      var fl := ConvFlags(d.fl, d.conv);
      (NumberText(Operand(args(d.k), d.q, fl.sign), Base(d.conv), d.q, d.width, d.precision, fl), d.i + 1, d.k + 1)
    else if d.conv == '\0' then ("%", d.i, d.k)
    else (['%', d.conv], d.i + 1, d.k)
  }

  /** The complete output for the format from position i on. */
  function Output(fmt: string, i: nat, args: Args, k: nat): string
    decreases |fmt| - i
  {
    if At(fmt, i) == '\0' then ""
    else if fmt[i] != '%' then [fmt[i]] + Output(fmt, i + 1, args, k)
    else
      var (text, j, k') := Expand(Parse(fmt, i + 1, args, k), args);
      text + Output(fmt, j, args, k')
  }
}
