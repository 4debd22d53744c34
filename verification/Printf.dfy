/** Printing of integers: the conversions of `vcbprintf`. */
module Printf {

  const WORD := 0x1_0000_0000_0000_0000
  const HALF := 0x8000_0000_0000_0000
  /** `(size_t) -1`: no precision is given. */
  const NO_PRECISION := 0xFFFF_FFFF_FFFF_FFFF
  const BUF := 21

  const LOWER := "0123456789abcdef"
  const UPPER := "0123456789ABCDEF"

  // ----- Digits -----

  function Pow(b: nat, k: nat): nat
  {
    if k == 0 then 1 else Pow(b, k - 1) * b
  }

  /** The digits of a number, the most significant one first */
  function Digits(v: nat, b: nat, conv: string): (s: string)
    requires 2 <= b <= |conv|
    ensures s != []
    decreases v
  {
    if v < b then [conv[v]] else
      Quotient(v, b);
      Digits(v / b, b, conv) + [conv[v % b]]
  }

  lemma Quotient(v: nat, b: nat)
    requires 2 <= b
    ensures v / b * b + v % b == v && v % b < b
    ensures v >= b ==> 1 <= v / b < v
  {
    var q := v / b;
    if v >= b {
      Times(q, b);
    }
  }

  lemma Times(q: nat, b: nat)
    requires 2 <= b
    ensures q * b >= q + q
  {
    assert q * b == q * 2 + q * (b - 2);
    NonNegative(q, b - 2);
  }

  lemma NonNegative(a: nat, b: nat)
    ensures a * b >= 0
  {
  }

  /** What a digit stands for, 16 if it is none */
  function DigitValue(c: char): nat
  {
    if '0' <= c <= '9' then (c as int) - ('0' as int)
    else if 'a' <= c <= 'f' then (c as int) - ('a' as int) + 10
    else if 'A' <= c <= 'F' then (c as int) - ('A' as int) + 10
    else 16
  }

  /** The number that a string of digits stands for */
  function Value(s: string, b: nat): nat
  {
    if s == [] then 0 else Value(s[..|s| - 1], b) * b + DigitValue(s[|s| - 1])
  }

  predicate IsConv(conv: string)
  {
    conv == LOWER || conv == UPPER
  }

  lemma ConvValue(conv: string, d: nat)
    requires IsConv(conv) && d < 16
    ensures |conv| == 16 && DigitValue(conv[d]) == d && (conv[d] == '0' <==> d == 0)
    ensures DigitValue("0123456789abcdef"[d]) == d && DigitValue("0123456789ABCDEF"[d]) == d
  {
  }

  /** The digits read back give the number. */
  lemma {:induction false} DigitsValue(v: nat, b: nat, conv: string)
    requires 2 <= b <= 16 && IsConv(conv) && |conv| == 16
    ensures Value(Digits(v, b, conv), b) == v
    decreases v
  {
    if v < b {
      ConvValue(conv, v);
      assert Digits(v, b, conv)[..0] == [];
      OneDigit(conv[v], b);
    } else {
      Quotient(v, b);
      DigitsValue(v / b, b, conv);
      ConvValue(conv, v % b);
      assert Digits(v, b, conv)[..|Digits(v, b, conv)| - 1] == Digits(v / b, b, conv);
    }
  }

  lemma OneDigit(c: char, b: nat)
    ensures Value([c], b) == DigitValue(c)
  {
    assert [c][..0] == [];
  }

  /** There is no leading zero, but for the number 0 itself. */
  lemma {:induction false} NoLeadingZero(v: nat, b: nat, conv: string)
    requires 2 <= b <= 16 && IsConv(conv) && |conv| == 16
    ensures Digits(v, b, conv)[0] == '0' <==> v == 0
    ensures v == 0 ==> Digits(v, b, conv) == "0"
    decreases v
  {
    if v < b {
      ConvValue(conv, v);
    } else {
      Quotient(v, b);
      NoLeadingZero(v / b, b, conv);
    }
  }

  lemma DigitIs(c: char, b: nat, conv: string)
    requires b <= 16 && IsConv(conv) && |conv| == 16 && c in conv[..b]
    ensures DigitValue(c) < b && conv[DigitValue(c)] == c && (c == '0' <==> DigitValue(c) == 0)
  {
    var d: nat :| d < b && conv[..b][d] == c;
    ConvValue(conv, d);
  }

  /** Every string of digits without a leading zero is what its number is printed as. */
  lemma {:induction false} ValueDigits(s: string, b: nat, conv: string)
    requires 2 <= b <= 16 && IsConv(conv) && |conv| == 16
    requires s != [] && (|s| > 1 ==> s[0] != '0') && forall i | 0 <= i < |s| :: s[i] in conv[..b]
    ensures Digits(Value(s, b), b, conv) == s
    ensures Value(s, b) > 0 || s == "0"
    decreases |s|
  {
    hide DigitValue, IsConv;
    var t, c := s[..|s| - 1], s[|s| - 1];
    var d := DigitValue(c);
    DigitIs(c, b, conv);
    if |s| == 1 {
      OneDigit(c, b);
      assert s == [c];
    } else {
      assert t[0] == s[0] && forall i | 0 <= i < |t| :: t[i] == s[i];
      ValueDigits(t, b, conv);
      Rebuilt(Value(t, b), d, b);
      assert s == t + [c];
    }
  }

  lemma Rebuilt(q: nat, d: nat, b: nat)
    requires d < b && 2 <= b && q > 0
    ensures q * b + d >= b && (q * b + d) / b == q && (q * b + d) % b == d
  {
    Quotient(q * b + d, b);
    var p := (q * b + d) / b;
    assert q * b + d == p * b + (q * b + d) % b;
    if p < q {
      Gap(p, q, b);
    }
    if q < p {
      Gap(q, p, b);
    }
    Gap(0, q, b);
  }

  lemma Gap(p: nat, q: nat, b: nat)
    requires p < q
    ensures p * b + b <= q * b
  {
    assert q * b == p * b + b + (q - p - 1) * b;
    NonNegative(q - p - 1, b);
  }

  /** There are at most `k` digits exactly if the number is below the power. */
  lemma {:induction false} DigitCount(v: nat, b: nat, conv: string, k: nat)
    requires 2 <= b <= |conv| && k > 0
    ensures |Digits(v, b, conv)| <= k <==> v < Pow(b, k)
    decreases k
  {
    Quotient(v, b);
    if k == 1 {
      assert Pow(b, 1) == Pow(b, 0) * b == b;
    } else if v >= b {
      DigitCount(v / b, b, conv, k - 1);
      PowStep(v, b, Pow(b, k - 1));
    } else {
      PowLarge(b, k);
    }
  }

  lemma PowStep(v: nat, b: nat, p: nat)
    requires 2 <= b
    ensures v / b < p <==> v < p * b
  {
    Quotient(v, b);
    if v / b < p {
      Gap(v / b, p, b);
    } else if p < v / b {
      Gap(p, v / b, b);
    }
  }

  lemma {:induction false} PowLarge(b: nat, k: nat)
    requires 2 <= b && k > 0
    ensures Pow(b, k) >= b
    decreases k
  {
    if k == 1 {
      assert Pow(b, 1) == Pow(b, 0) * b == b;
    } else {
      PowLarge(b, k - 1);
      Times(b, Pow(b, k - 1));
    }
  }

  /** The digits and the zero behind them fit the buffer: always in base 10 and 16, in base 8 exactly below 2^60. */
  lemma BufferFits(v: nat, b: nat, conv: string)
    requires v < WORD && b in {8, 10, 16} && |conv| == 16
    ensures |Digits(v, b, conv)| + 1 <= BUF <==> b != 8 || v < 0x1000_0000_0000_0000
  {
    DigitCount(v, b, conv, 20);
    Powers();
  }

  lemma Powers()
    ensures Pow(8, 20) == 0x1000_0000_0000_0000 && Pow(10, 20) >= WORD && Pow(16, 20) >= WORD
  {
    assert Pow(8, 5) == 0x8000 && Pow(10, 5) == 100000 && Pow(16, 5) == 0x10_0000;
    assert Pow(8, 10) == 0x4000_0000 && Pow(10, 10) == 10000000000 && Pow(16, 10) == 0x100_0000_0000;
    assert Pow(8, 15) == 0x2000_0000_0000 && Pow(10, 15) == 1000000000000000 && Pow(16, 15) == 0x1000_0000_0000_0000;
  }

  // ----- The text of a conversion -----

  datatype Flags = Flags(hash: bool, minus: bool, plus: bool, space: bool, zero: bool)

  predicate IsSpecifier(c: char)
  {
    c in ['d', 'i', 'o', 'u', 'x', 'X']
  }

  function Base(specifier: char): nat
  {
    if specifier == 'x' || specifier == 'X' then 16 else if specifier == 'o' then 8 else 10
  }

  function Conv(specifier: char): string
  {
    if specifier == 'X' then UPPER else LOWER
  }

  function SignOf(negative: bool, flags: Flags): string
  {
    if negative then "-" else if flags.plus then "+" else if flags.space then " " else ""
  }

  function BaseMark(specifier: char, flags: Flags): string
  {
    if flags.hash && Base(specifier) == 16 then ['0', specifier] else if flags.hash && specifier == 'o' then "0" else ""
  }

  const PREFIX := 3

  /** The prefix and the zero behind it fit their buffer unless a sign and the mark of base 16 come together. */
  lemma PrefixFits(negative: bool, specifier: char, flags: Flags)
    ensures |SignOf(negative, flags)| + |BaseMark(specifier, flags)| + 1 <= PREFIX
            <==> !(flags.hash && Base(specifier) == 16 && (negative || flags.plus || flags.space))
  {
  }

  function Repeat(c: char, n: nat): (s: string)
    ensures |s| == n && forall i | 0 <= i < n :: s[i] == c
  {
    seq(n, _ => c)
  }

  /** `printed_width` */
  function PrintedWidth(precision: nat, digits: nat): nat
  {
    if precision != NO_PRECISION && precision > digits then precision else digits
  }

  /** `pad`, in `size_t` */
  function Pad(printed: nat, prefix: nat, width: nat): nat
  {
    var used := (printed + prefix) % WORD;
    if used > width then 0 else width - used
  }

  /** What the conversion emits: the blanks, the prefix, the zeros, the digits, and with '-' the blanks again */
  function Text(value: nat, negative: bool, specifier: char, flags: Flags, width: nat, precision: nat): string
    requires IsSpecifier(specifier)
  {
    var prefix, digits := SignOf(negative, flags) + BaseMark(specifier, flags),
      Digits(value, Base(specifier), Conv(specifier));
    var printed := PrintedWidth(precision, |digits|);
    Layout(prefix, digits, printed - |digits|, Pad(printed, |prefix|, width), flags.zero, flags.minus)
  }

  /** `extra` zeros bring the digits to the precision, `pad` characters bring the whole to the width. */
  function Layout(prefix: string, digits: string, extra: nat, pad: nat, zero: bool, minus: bool): string
  {
    Repeat(' ', if zero then 0 else pad) + prefix + Repeat('0', if zero && !minus then pad else 0) + Repeat('0', extra)
      + digits
    + Repeat(' ', if minus then pad else 0)
  }

  lemma LayoutLength(prefix: string, digits: string, extra: nat, pad: nat, zero: bool, minus: bool)
    ensures |Layout(prefix, digits, extra, pad, zero, minus)| == |prefix| + extra + |digits| + if minus
            && !zero then pad + pad else pad
  {
  }

  function Max(a: nat, b: nat): nat
  {
    if a > b then a else b
  }

  /** The conversion emits exactly as much as it should, the width or the prefix and the digits with their
      precision, unless it pads on both sides: with '-', without '0', where there is something to pad. */
  lemma EmittedLength(value: nat, negative: bool, specifier: char, flags: Flags, width: nat, precision: nat)
    requires IsSpecifier(specifier)
    requires var n := |Digits(value, Base(specifier), Conv(specifier))|;
             PrintedWidth(precision, n) + |SignOf(negative, flags)| + |BaseMark(specifier, flags)| < WORD
    ensures var n := |Digits(value, Base(specifier), Conv(specifier))|;
            var needed := |SignOf(negative, flags)| + |BaseMark(specifier, flags)| + if precision == NO_PRECISION then n
              else Max(precision, n);
            |Text(value, negative, specifier, flags, width, precision)| == Max(width, needed) <==>
                !flags.minus || flags.zero || width <= needed
  {
    hide Digits, Layout, SignOf, BaseMark;
    var prefix, digits := SignOf(negative, flags) + BaseMark(specifier, flags),
      Digits(value, Base(specifier), Conv(specifier));
    var printed := PrintedWidth(precision, |digits|);
    Unwrapped(printed + |prefix|);
    LayoutLength(prefix, digits, printed - |digits|, Pad(printed, |prefix|, width), flags.zero, flags.minus);
  }

  /** The count of a conversion, its digits, is the number of characters that are emitted only if these are all:
      no prefix, no zeros for the precision, no padding. */
  lemma CountExact(value: nat, negative: bool, specifier: char, flags: Flags, width: nat, precision: nat)
    requires IsSpecifier(specifier)
    requires var n := |Digits(value, Base(specifier), Conv(specifier))|;
             PrintedWidth(precision, n) + |SignOf(negative, flags)| + |BaseMark(specifier, flags)| < WORD
    ensures var n := |Digits(value, Base(specifier), Conv(specifier))|;
            n == |Text(value, negative, specifier, flags, width, precision)| <==>
              && SignOf(negative, flags) == "" && BaseMark(specifier, flags) == ""
              && width <= n && (precision <= n || precision == NO_PRECISION)
  {
    hide Digits, Layout, SignOf, BaseMark;
    var prefix, digits := SignOf(negative, flags) + BaseMark(specifier, flags),
      Digits(value, Base(specifier), Conv(specifier));
    var printed := PrintedWidth(precision, |digits|);
    Unwrapped(printed + |prefix|);
    LayoutLength(prefix, digits, printed - |digits|, Pad(printed, |prefix|, width), flags.zero, flags.minus);
  }

  lemma Unwrapped(n: nat)
    requires n < WORD
    ensures n % WORD == n
  {
  }

  // ----- Reading a conversion back -----

  function SkipSpaces(s: string): string
  {
    if s != [] && s[0] == ' ' then SkipSpaces(s[1..]) else s
  }

  function IsNegative(s: string): bool
  {
    s != [] && s[0] == '-'
  }

  function SkipSign(s: string): string
  {
    if s != [] && (s[0] == '-' || s[0] == '+') then s[1..] else s
  }

  function SkipMark(s: string, b: nat, hash: bool): string
  {
    if hash && b == 16 && |s| >= 2 then s[2..] else s
  }

  /** How many digits a string starts with */
  function Span(s: string, b: nat): (n: nat)
    ensures n <= |s|
  {
    if s == [] || DigitValue(s[0]) >= b then 0 else 1 + Span(s[1..], b)
  }

  /** The number at the start of a text: blanks, a sign, the mark of base 16, digits */
  function Read(s: string, b: nat, hash: bool): int
  {
    var t := SkipSpaces(s);
    var u := SkipMark(SkipSign(t), b, hash);
    var v: int := Value(u[..Span(u, b)], b);
    if IsNegative(t) then -v else v
  }

  lemma {:induction false} SkipRepeated(k: nat, t: string)
    ensures SkipSpaces(Repeat(' ', k) + t) == SkipSpaces(t)
    decreases k
  {
    var s := Repeat(' ', k) + t;
    if k == 0 {
      assert s == t;
    } else {
      assert s[1..] == Repeat(' ', k - 1) + t;
      SkipRepeated(k - 1, t);
    }
  }

  lemma {:induction false} SpanOf(d: string, r: string, b: nat)
    requires (forall i | 0 <= i < |d| :: DigitValue(d[i]) < b) && (r == [] || DigitValue(r[0]) >= b)
    ensures Span(d + r, b) == |d|
    decreases |d|
  {
    if d == [] {
      assert d + r == r;
    } else {
      assert (d + r)[1..] == d[1..] + r;
      SpanOf(d[1..], r, b);
    }
  }

  lemma {:induction false} ZerosValue(k: nat, s: string, b: nat)
    ensures Value(Repeat('0', k) + s, b) == Value(s, b)
    decreases k + |s|
  {
    var t := Repeat('0', k) + s;
    if s != [] {
      assert t[..|t| - 1] == Repeat('0', k) + s[..|s| - 1];
      ZerosValue(k, s[..|s| - 1], b);
    } else if k > 0 {
      assert t[..|t| - 1] == Repeat('0', k - 1) + [] && t[|t| - 1] == '0';
      ZerosValue(k - 1, [], b);
    } else {
      assert t == s;
    }
  }

  lemma {:induction false} DigitsAre(v: nat, b: nat, conv: string)
    requires 2 <= b <= 16 && IsConv(conv) && |conv| == 16
    ensures forall i | 0 <= i < |Digits(v, b, conv)| :: DigitValue(Digits(v, b, conv)[i]) < b
    decreases v
  {
    if v < b {
      ConvValue(conv, v);
    } else {
      Quotient(v, b);
      DigitsAre(v / b, b, conv);
      ConvValue(conv, v % b);
    }
  }

  /** The zeros and digits, with blanks behind them, are read as the number. */
  lemma ReadDigits(v: nat, b: nat, conv: string, zeros: nat, blanks: nat)
    requires 2 <= b <= 16 && IsConv(conv) && |conv| == 16
    ensures var u := Repeat('0', zeros) + Digits(v, b, conv) + Repeat(' ', blanks); Value(u[..Span(u, b)], b) == v
  {
    var d, r := Repeat('0', zeros) + Digits(v, b, conv), Repeat(' ', blanks);
    DigitsAre(v, b, conv);
    SpanOf(d, r, b);
    assert (d + r)[..|d|] == d;
    ZerosValue(zeros, Digits(v, b, conv), b);
    DigitsValue(v, b, conv);
  }

  /** Where the blanks, the sign and the mark end */
  lemma ReadPrefix(k: nat, sign: string, mark: string, u: string, b: nat, hash: bool)
    requires sign in ["", "-", "+", " "] && u != [] && DigitValue(u[0]) < 16
    requires |mark| == (if hash && b == 16 then 2 else 0) && (mark != [] ==> mark[0] == '0')
    ensures var t := SkipSpaces(Repeat(' ', k) + (sign + mark + u));
            SkipMark(SkipSign(t), b, hash) == u && (IsNegative(t) <==> sign == "-")
  {
    hide DigitValue, Repeat;
    var w := mark + u;
    assert sign + mark + u == sign + w;
    SkipRepeated(k, sign + w);
    NoSign(u[0]);
    NoSign('0');
    assert w[0] == (if mark == [] then u[0] else '0');
    MarkSkipped(mark, u, b, hash);
    if sign == "" {
      assert sign + w == w;
    } else {
      assert (sign + w)[1..] == w;
    }
  }

  lemma NoSign(c: char)
    ensures DigitValue(c) < 16 ==> c != ' ' && c != '-' && c != '+'
    ensures DigitValue('0') < 16
  {
  }

  lemma MarkSkipped(mark: string, u: string, b: nat, hash: bool)
    requires u != [] && |mark| == if hash && b == 16 then 2 else 0
    ensures SkipMark(mark + u, b, hash) == u
  {
    if mark == [] {
      assert mark + u == u;
    }
  }

  /** The layout, sorted for reading: blanks, the sign, the mark of base 16, zeros, digits, blanks */
  lemma Sorted(sign: string, mark: string, digits: string, extra: nat, pad: nat, zero: bool, minus: bool)
    ensures Layout(sign + mark, digits, extra, pad, zero, minus)
            == Repeat(' ', if zero then 0 else pad)
               + (sign + mark + (Repeat('0', (if zero && !minus then pad else 0) + extra) + digits
                 + Repeat(' ', if minus then pad else 0)))
  {
    ZerosJoin(if zero && !minus then pad else 0, extra);
    var z1, z2, l, r := Repeat('0', if zero && !minus then pad else 0), Repeat('0', extra),
      Repeat(' ', if zero then 0 else pad), Repeat(' ', if minus then pad else 0);
    Regroup(l, sign + mark, z1, z2, digits, r);
  }

  lemma ZerosJoin(a: nat, b: nat)
    ensures Repeat('0', a) + Repeat('0', b) == Repeat('0', a + b)
  {
  }

  lemma Regroup(a: string, b: string, c: string, d: string, e: string, f: string)
    ensures a + b + c + d + e + f == a + (b + ((c + d) + e + f))
  {
    assert a + b + c + d + e + f == (a + b) + ((c + d) + e + f);
  }

  /** The '0' that marks base 8 is read as a digit. */
  lemma OctalMark(sign: string, n: nat, digits: string, r: string)
    ensures sign + "0" + (Repeat('0', n) + digits + r) == sign + "" + (Repeat('0', n + 1) + digits + r)
  {
    assert Repeat('0', n + 1) == "0" + Repeat('0', n);
    assert "0" + (Repeat('0', n) + digits + r) == ("0" + Repeat('0', n)) + digits + r;
    assert sign + "" == sign;
  }

  /** Every conversion can be read back. */
  lemma ReadBack(value: nat, negative: bool, specifier: char, flags: Flags, width: nat, precision: nat)
    requires IsSpecifier(specifier)
    ensures var v: int := value;
            Read(Text(value, negative, specifier, flags, width, precision), Base(specifier), flags.hash)
              == if negative then -v else v
  {
    hide Layout, Repeat, Read, Digits, Value, Span, SkipSpaces, SkipSign, SkipMark, IsNegative, DigitValue;
    var b, conv := Base(specifier), Conv(specifier);
    var sign, mark, digits := SignOf(negative, flags), BaseMark(specifier, flags), Digits(value, b, conv);
    var printed := PrintedWidth(precision, |digits|);
    var pad := Pad(printed, |sign + mark|, width);
    var before, after := if flags.zero then 0 else pad, if flags.minus then pad else 0;
    var zeros := (if flags.zero && !flags.minus then pad else 0) + (printed - |digits|);
    Sorted(sign, mark, digits, printed - |digits|, pad, flags.zero, flags.minus);
    if mark == "0" {
      OctalMark(sign, zeros, digits, Repeat(' ', after));
      ReadParts(value, b, conv, flags.hash, sign, "", before, zeros + 1, after);
    } else {
      ReadParts(value, b, conv, flags.hash, sign, mark, before, zeros, after);
    }
  }

  lemma ReadParts(v: nat, b: nat, conv: string, hash: bool, sign: string, mark: string, before: nat, zeros: nat,
      after: nat)
    requires 2 <= b <= 16 && IsConv(conv) && |conv| == 16 && sign in ["", "-", "+", " "]
    requires |mark| == (if hash && b == 16 then 2 else 0) && (mark != [] ==> mark[0] == '0')
    ensures var n: int := v;
            Read(Repeat(' ', before) + (sign + mark + (Repeat('0', zeros) + Digits(v, b, conv) + Repeat(' ', after))),
              b, hash)
            == if sign == "-" then -n else n
  {
    var digits := Digits(v, b, conv);
    var u := Repeat('0', zeros) + digits + Repeat(' ', after);
    DigitsAre(v, b, conv);
    ReadDigits(v, b, conv, zeros, after);
    assert u[0] == if zeros > 0 then '0' else digits[0];
    ReadPrefix(before, sign, mark, u, b, hash);
  }

  // ----- The conversion -----

  /** What the callback has been given. It takes everything. */
  class Sink {
    var out: string

    constructor ()
      ensures out == ""
    {
      out := "";
    }

    method Put(s: string)
      modifies this
      ensures out == old(out) + s
    {
      out := out + s;
    }

    /** The loops that pad */
    method Fill(c: char, n: nat)
      modifies this
      ensures out == old(out) + Repeat(c, n)
    {
      for i := 0 to n
        invariant out == old(out) + Repeat(c, i)
      {
        assert Repeat(c, i + 1) == Repeat(c, i) + [c];
        Put([c]);
      }
    }
  }

  /** `buf_length`: the digits are counted. */
  method CountDigits(given: nat, b: nat, ghost conv: string) returns (length: nat)
    requires 2 <= b <= |conv|
    ensures length == |Digits(given, b, conv)|
  {
    var copy: nat := given;
    length := 1;
    while b <= copy
      invariant |Digits(given, b, conv)| + 1 == length + |Digits(copy, b, conv)|
      decreases copy
    {
      Quotient(copy, b);
      copy := copy / b;
      length := length + 1;
    }
  }

  lemma LastDigit(v: nat, b: nat, conv: string)
    requires 2 <= b <= |conv|
    ensures v % b < |conv| && v / b >= 0
    ensures Digits(v, b, conv) == (if |Digits(v, b, conv)| == 1 then "" else Digits(v / b, b, conv)) + [conv[v % b]]
  {
    Quotient(v, b);
    if v < b {
      Small(v, b);
    }
  }

  lemma Small(v: nat, b: nat)
    requires v < b
    ensures v % b == v
  {
  }

  /** The digits are written from the end of the buffer's used part to its start, and a zero behind them. */
  method WriteDigits(buf: array<char>, given: nat, b: nat, conv: string, length: nat)
    requires 2 <= b <= |conv| && length == |Digits(given, b, conv)| < buf.Length
    modifies buf
    ensures buf[..length] == Digits(given, b, conv) && buf[length] == '\0'
  {
    hide Digits;
    var value: nat := given;
    var i := length;
    while i > 0
      invariant 0 <= i <= length
      invariant i == 0 ==> buf[..length] == Digits(given, b, conv)
      invariant i > 0 ==>
                  |Digits(value, b, conv)| == i && Digits(given, b, conv) == Digits(value, b, conv) + buf[i..length]
    {
      LastDigit(value, b, conv);
      ghost var v, tail := value, buf[i..length];
      var c := conv[value % b];
      value := value / b;
      buf[i - 1] := c;
      assert buf[i - 1..length] == [c] + tail;
      i := i - 1;
    }
    ghost var text := buf[..length];
    buf[length] := '\0';
    assert buf[..length] == text;
  }

  /** The part of the conversion that emits */
  method Emit(sink: Sink, prefix: string, digits: string, extra: nat, pad: nat, flags: Flags)
    modifies sink
    ensures sink.out == old(sink.out) + Layout(prefix, digits, extra, pad, flags.zero, flags.minus)
  {
    hide Repeat;
    NoRepeats(' ');
    NoRepeats('0');
    var padChar := if flags.zero then '0' else ' ';
    ghost var before := sink.out;
    if padChar == ' ' {
      sink.Fill(' ', pad);
    }
    sink.Put(prefix);
    if padChar == '0' && !flags.minus {
      sink.Fill('0', pad);
    }
    if extra > 0 {
      sink.Fill('0', extra);
    }
    sink.Put(digits);
    if flags.minus {
      sink.Fill(' ', pad);
    }
    Joined(before, Repeat(' ', if flags.zero then 0 else pad), prefix,
      Repeat('0', if flags.zero && !flags.minus then pad else 0),
           Repeat('0', extra), digits, Repeat(' ', if flags.minus then pad else 0));
  }

  method WritePrefix(prefix: array<char>, negative: bool, specifier: char, flags: Flags) returns (length: nat)
    requires prefix.Length == PREFIX && |SignOf(negative, flags)| + |BaseMark(specifier, flags)| < PREFIX
    modifies prefix
    ensures length < PREFIX && prefix[..length] == SignOf(negative, flags) + BaseMark(specifier, flags)
    ensures prefix[length] == '\0'
  {
    length := 0;
    if negative {
      prefix[length], length := '-', length + 1;
    } else if flags.plus {
      prefix[length], length := '+', length + 1;
    } else if flags.space {
      prefix[length], length := ' ', length + 1;
    }
    if flags.hash && (specifier == 'x' || specifier == 'X') {
      prefix[length], length := '0', length + 1;
      prefix[length], length := specifier, length + 1;
    } else if flags.hash && specifier == 'o' {
      prefix[length], length := '0', length + 1;
    }
    prefix[length] := '\0';
  }

  /** The end of the conversion specifiers for integers. The two buffers have ends: an octal number has to be below
      2^60, and a sign and the mark of base 16 may not come together. */
  method Convert(sink: Sink, value: nat, negative: bool, specifier: char, flags: Flags, width: nat, precision: nat)
    returns (length: nat)
    requires IsSpecifier(specifier) && value < WORD && (specifier == 'o' ==> value < 0x1000_0000_0000_0000)
    requires !(flags.hash && Base(specifier) == 16 && (negative || flags.plus || flags.space))
    modifies sink
    ensures sink.out == old(sink.out) + Text(value, negative, specifier, flags, width, precision)
    ensures length == |Digits(value, Base(specifier), Conv(specifier))|
  {
    hide Digits, Layout, Pad;
    PrefixFits(negative, specifier, flags);
    var prefix := new char[PREFIX];
    var prefixLength := WritePrefix(prefix, negative, specifier, flags);
    var buf := new char[BUF];
    length := CountDigits(value, Base(specifier), Conv(specifier));
    BufferFits(value, Base(specifier), Conv(specifier));
    var printed := PrintedWidth(precision, length);
    var pad := Pad(printed, prefixLength, width);
    WriteDigits(buf, value, Base(specifier), Conv(specifier), length);
    Emit(sink, prefix[..prefixLength], buf[..length], printed - length, pad, flags);
  }

  lemma NoRepeats(c: char)
    ensures Repeat(c, 0) == ""
  {
  }

  lemma Joined(o: string, a: string, b: string, c: string, d: string, e: string, f: string)
    ensures o + a + b + c + d + e + f == o + (a + b + c + d + e + f)
    ensures o + "" == o && "" + b == b
    ensures forall s: string {:trigger s + ""} :: s + "" == s
  {
  }

  /** `(negative = (signed_value < 0)) ? (- (uintmax_t) signed_value) : (uintmax_t) signed_value` */
  function Magnitude(v: int): nat
  {
    if v < 0 then (-(v % WORD)) % WORD else v % WORD
  }

  lemma MagnitudeIs(v: int)
    requires -HALF <= v < HALF
    ensures Magnitude(v) == (if v < 0 then -v else v) < WORD
  {
    if v < 0 {
      assert v % WORD == v + WORD;
      assert (-(v % WORD)) % WORD == -v;
    }
  }

  /** `%d` and `%i` */
  method ConvertSigned(sink: Sink, v: int, flags: Flags, width: nat, precision: nat) returns (length: nat)
    requires -HALF <= v < HALF
    modifies sink
    ensures sink.out == old(sink.out) + Text(Magnitude(v), v < 0, 'd', flags, width, precision)
    ensures length == |Digits(Magnitude(v), 10, LOWER)|
  {
    MagnitudeIs(v);
    length := Convert(sink, Magnitude(v), v < 0, 'd', flags, width, precision);
  }
}
