/** What `vcbprintf` emits for every conversion specification, whatever stands in front of it and behind it. */
module PrintfLaws {
  import opened Printf
  import opened PrintfFormat

  // ----- Conversion specifications -----

  /** Flags, a width, perhaps a '*', a precision with its '.', a length modifier, and the conversion's character */
  datatype Spec = Spec(flags: string, width: string, star: bool, dot: string, modifier: string, c: char)

  predicate Proper(q: Spec)
  {
    && AreFlags(q.flags) && IsDigits(q.width) && (q.width != [] ==> q.width[0] != '0') && IsPrecision(q.dot)
    && q.modifier in ["", "hh", "h", "l", "ll", "L", "j", "z", "t"] && q.c !in "#-+ 0123456789.*hlLjzt"
    && (q.c == '%' ==> |Body(q)| > 1)
  }

  function Body(q: Spec): string
  {
    q.flags + q.width + (if q.star then "*" else "") + q.dot + (q.modifier + [q.c])
  }

  function Written(q: Spec): string
  {
    "%" + Body(q)
  }

  /** A '*' takes an argument, an `int`, ... */
  function StarArg(q: Spec, x: nat): seq<Arg>
  {
    if q.star then [Number(x)] else []
  }

  /** ... which is the width, as a `size_t`. */
  function WidthOf(q: Spec, x: nat): nat
  {
    if !q.star then Value(q.width, 10) % 0x1_0000_0000_0000_0000
    else x % 0x1_0000_0000 + if x % 0x1_0000_0000 < 0x8000_0000 then 0 else 0xFFFF_FFFF_0000_0000
  }

  function FieldsOf(q: Spec): Fields
  {
    Fields(FlagsIn(NO_FLAGS, q.flags), Value(q.width, 10) % 0x1_0000_0000_0000_0000, q.star, PrecisionOf(q.dot))
  }

  lemma LengthRead(m: string, c: char, rest: string) returns (l: Length)
    requires m in ["", "hh", "h", "l", "ll", "L", "j", "z", "t"] && c !in "hlLjzt"
    ensures TakeLength(m + [c] + rest) == (l, [c] + rest)
    ensures (IsShort(l) <==> m in ["", "h", "hh"]) && (l == LongDouble <==> m == "L")
  {
    var s := m + [c] + rest;
    l := TakeLength(s).0;
    assert s == m + ([c] + rest);
    assert s[|m|..] == [c] + rest;
    assert s[|m|] == c;
    NotModifier(c);
    TwoChars(s);
  }

  lemma NotModifier(c: char)
    requires c !in "hlLjzt"
    ensures c != 'h' && c != 'l' && c != 'L' && c != 'j' && c != 'z' && c != 't'
  {
    assert "hlLjzt"[0] == 'h' && "hlLjzt"[1] == 'l' && "hlLjzt"[2] == 'L' && "hlLjzt"[3] == 'j' && "hlLjzt"[4] == 'z'
      && "hlLjzt"[5] == 't';
  }

  lemma TwoChars(s: string)
    ensures |s| >= 2 ==>
              && (s[..2] == "hh" <==> s[0] == 'h' && s[1] == 'h') && (s[..2] == "ll" <==> s[0] == 'l' && s[1] == 'l')
  {
    if |s| >= 2 {
      assert s[..2] == [s[0], s[1]];
    }
  }

  /** A specification is read, and the conversion is made. */
  lemma Step(q: Spec, x: nat, args: seq<Arg>, rest: string) returns (l: Length)
    requires Proper(q)
    ensures (IsShort(l) <==> q.modifier in ["", "h", "hh"]) && (l == LongDouble <==> q.modifier == "L")
    ensures var f := Written(q) + rest;
            var o, k := Print(f, false, StarArg(q, x) + args), ConversionOf([q.c] + rest, l);
            if k == Unknown then o == Then(f[..Block(f)], Block(f), Print(f[Block(f)..], true, args))
            else if k == Percent then o == Then("%", 0, Print(rest, false, args))
            else
              && (k.Integer? ==> IsSpecifier(k.c) || k.c == 'p')
              && var t := Converted(k, FieldsOf(q), WidthOf(q, x), l, args);
                 if t == Undefined then o == Undefined
                 else args != [] && o == Then(t.text, t.written, Print(rest, false, args[1..]))
  {
    hide Print, TakeFields, TakeLength, Converted, FlagsIn, PrecisionOf, Value, Block;
    var f, all := Written(q) + rest, StarArg(q, x) + args;
    l := LengthRead(q.modifier, q.c, rest);
    var r := q.modifier + [q.c] + rest;
    Behind(q, rest);
    FieldsRead(q.flags, q.width, q.star, q.dot, r);
    NoneFirst(q, rest);
    PrintFields(f, all);
    WidthIs(q, x);
    assert ([q.c] + rest)[1..] == rest;
    assert q.star ==> all[0] == Number(x) && all[1..] == args;
    assert !q.star ==> all == args;
    NeedsArgument(ConversionOf([q.c] + rest, l), FieldsOf(q), WidthOf(q, x), l, args);
  }

  lemma NeedsArgument(k: Conversion, fields: Fields, width: nat, l: Length, args: seq<Arg>)
    ensures k != Unknown && k != Percent && (k.Integer? ==> IsSpecifier(k.c) || k.c == 'p') ==>
              Converted(k, fields, width, l, args) == Undefined || args != []
  {
  }

  lemma Behind(q: Spec, rest: string)
    requires Proper(q)
    ensures var r := q.modifier + [q.c] + rest;
            && (Written(q) + rest)[1..] == q.flags + q.width + (if q.star then "*" else "") + q.dot + r
            && r != [] && r[0] !in "#-+ 0123456789.*"
  {
    hide AreFlags, IsDigits, IsPrecision;
    assert q.c !in "#-+ 0123456789.*" by {
      Ends(q.c);
    }
    var w := q.flags + q.width + (if q.star then "*" else "") + q.dot;
    Grouped(w, q.modifier + [q.c], rest);
    EndsFields(q.modifier, q.c, rest);
  }

  lemma EndsFields(m: string, c: char, rest: string)
    requires m in ["", "hh", "h", "l", "ll", "L", "j", "z", "t"] && c !in "#-+ 0123456789.*"
    ensures var r := m + [c] + rest; r != [] && r[0] !in "#-+ 0123456789.*"
  {
    var r := m + [c] + rest;
    assert r[0] == if m == [] then c else m[0];
    assert m == [] || m[0] in ['h', 'l', 'L', 'j', 'z', 't'];
  }

  lemma Ends(c: char)
    requires c !in "#-+ 0123456789.*hlLjzt"
    ensures c !in "#-+ 0123456789.*"
  {
    assert "#-+ 0123456789.*hlLjzt" == "#-+ 0123456789.*" + "hlLjzt";
  }

  lemma Grouped(w: string, m: string, rest: string)
    ensures ("%" + (w + m) + rest)[1..] == w + (m + rest)
  {
  }

  /** What follows the '%' is not another one. */
  lemma NoneFirst(q: Spec, rest: string)
    requires Proper(q)
    ensures var f := Written(q) + rest; f != [] && f[0] == '%' && |f| > 1 && f[1] != '%'
  {
    hide AreFlags, IsDigits, IsPrecision;
    FirstChar(q);
    assert (Written(q) + rest)[1] == Body(q)[0];
  }

  lemma FirstChar(q: Spec)
    requires Proper(q)
    ensures Body(q)[0] != '%'
  {
    var b := Body(q);
    if q.flags != [] {
      assert b[0] == q.flags[0] && q.flags[0] in "#-+ 0";
    } else if q.width != [] {
      assert b[0] == q.width[0];
    } else if q.star {
      assert b[0] == '*';
    } else if q.dot != [] {
      assert b[0] == '.';
    } else {
      assert b == q.modifier + [q.c];
    }
  }

  lemma WidthIs(q: Spec, x: nat)
    ensures q.star ==> WidthArg(x) == WidthOf(q, x)
  {
    var n := x % TWO32;
    if n < TWO32 / 2 {
      assert n % WORD == n;
    } else {
      assert (n - TWO32) % WORD == n - TWO32 + WORD;
    }
  }

  // ----- '%', strings, characters and unknown conversions -----

  /** A '%' behind fields is emitted, and not counted. */
  lemma PercentPrinted(q: Spec, x: nat, args: seq<Arg>, rest: string)
    requires Proper(q) && q.c == '%'
    ensures Print(Written(q) + rest, false, StarArg(q, x) + args) == Then("%", 0, Print(rest, false, args))
  {
    hide Print, Written, Proper;
    var l := Step(q, x, args, rest);
  }

  /** A string is emitted up to the precision, and that much is counted. */
  lemma StringPrinted(q: Spec, x: nat, s: CString, args: seq<Arg>, rest: string)
    requires Proper(q) && q.c == 's'
    ensures var n := if |s| <= PrecisionOf(q.dot) then |s| else PrecisionOf(q.dot);
            Print(Written(q) + rest, false, StarArg(q, x) + ([Chars(s)] + args))
            == Then(s[..n], n, Print(rest, false, args))
  {
    hide Print, Written, Proper, PrecisionOf;
    var l := Step(q, x, [Chars(s)] + args, rest);
    assert ([Chars(s)] + args)[1..] == args;
  }

  /** A character is the argument's low byte. */
  lemma CharPrinted(q: Spec, x: nat, n: nat, args: seq<Arg>, rest: string)
    requires Proper(q) && q.c == 'c'
    ensures Print(Written(q) + rest, false, StarArg(q, x) + ([Number(n)] + args))
            == Then([(n % 256) as char], 1, Print(rest, false, args))
  {
    hide Print, Written, Proper;
    var l := Step(q, x, [Number(n)] + args, rest);
    assert ([Number(n)] + args)[1..] == args;
  }

  /** Doubled '%' made single */
  function Unescape(f: string): string
    decreases |f|
  {
    if f == [] then [] else if |f| > 1 && f[0] == '%' && f[1] == '%' then "%" + Unescape(f[2..])
    else [f[0]] + Unescape(f[1..])
  }

  lemma {:induction false} PlainKept(f: string)
    ensures Unescape(f) == f[..Plain(f)] + Unescape(f[Plain(f)..])
    decreases |f|
  {
    if f == [] || f[0] == '%' {
      assert f[..0] == [] && f[0..] == f && [] + Unescape(f) == Unescape(f);
    } else {
      PlainKept(f[1..]);
      var k := Plain(f[1..]);
      assert f[..1 + k] == [f[0]] + f[1..][..k] && f[1 + k..] == f[1..][k..];
    }
  }

  /** Once an unknown conversion has been met, all that follows is emitted as text. */
  lemma {:induction false} RestVerbatim(f: string, args: seq<Arg>)
    ensures Print(f, true, args) == Out(Unescape(f), |Unescape(f)|)
    decreases |f|
  {
    if f != [] {
      hide Print, Unescape, Block, Plain;
      PrintSteps(f, true, args);
      var doubled := |f| > 1 && f[0] == '%' && f[1] == '%';
      var g := if doubled then f[1..] else f;
      BlockKept(f, g);
      RestVerbatim(g[Block(g)..], args);
      if f[0] != '%' || !doubled {
        assert g == f;
      }
    } else {
      Nothing(args);
    }
  }

  lemma Nothing(args: seq<Arg>)
    ensures Print([], true, args) == Out(Unescape([]), 0) && Unescape([]) == []
  {
  }

  lemma BlockKept(f: string, g: string)
    requires f != [] && g == if |f| > 1 && f[0] == '%' && f[1] == '%' then f[1..] else f
    ensures g != [] && Unescape(f) == g[..Block(g)] + Unescape(g[Block(g)..])
  {
    hide Unescape, Plain;
    OneUnescaped(f);
    var k := Plain(g[1..]);
    PlainKept(g[1..]);
    SameTail(f, g);
    CutBlock(g[0], g[1..], k, Unescape(g[1..][k..]));
    assert g == [g[0]] + g[1..];
  }

  lemma OneUnescaped(f: string)
    requires f != []
    ensures Unescape(f) == if |f| > 1 && f[0] == '%' && f[1] == '%' then ['%'] + Unescape(f[2..])
            else [f[0]] + Unescape(f[1..])
  {
  }

  lemma SameTail(f: string, g: string)
    requires f != [] && g == if |f| > 1 && f[0] == '%' && f[1] == '%' then f[1..] else f
    ensures |f| > 1 && f[0] == '%' && f[1] == '%' ==> f[2..] == g[1..]
  {
  }

  lemma CutBlock(c: char, h: string, k: nat, r: string)
    requires k <= |h|
    ensures [c] + (h[..k] + r) == ([c] + h)[..1 + k] + r && ([c] + h)[1 + k..] == h[k..]
  {
    assert ([c] + h)[..1 + k] == [c] + h[..k];
  }

  /** A specification with an unknown conversion is emitted as text, with all that follows. */
  lemma UnknownPrinted(q: Spec, x: nat, args: seq<Arg>, rest: string)
    requires Proper(q) && q.c !in "%sc" && (q.c !in "dioupxX" || (q.modifier == "L" && q.c != 'p'))
    ensures var f := Written(q) + rest;
            Print(f, false, StarArg(q, x) + args) == Out(Unescape(f), |Unescape(f)|)
  {
    hide Print, Written, Unescape, Block;
    var l := Step(q, x, args, rest);
    var f := Written(q) + rest;
    NotKnown(q, rest, l);
    NoneFirst(q, rest);
    BlockKept(f, f);
    RestVerbatim(f[Block(f)..], args);
  }

  lemma NotKnown(q: Spec, rest: string, l: Length)
    requires q.c !in "%sc" && (q.c !in "dioupxX" || (q.modifier == "L" && q.c != 'p'))
    requires l == LongDouble <==> q.modifier == "L"
    ensures ConversionOf([q.c] + rest, l) == Unknown
  {
    assert "%sc"[0] == '%' && "%sc"[1] == 's' && "%sc"[2] == 'c' && "dioupxX"[4] == 'p';
    Integers(q.c);
  }

  lemma Integers(c: char)
    ensures IsSpecifier(c) <==> c in "dioupxX" && c != 'p'
  {
    assert "dioupxX" == ['d', 'i', 'o', 'u', 'p', 'x', 'X'];
  }

  // ----- Integers -----

  /** The number that the argument stands for: an `int` or `long` for 'd' and 'i', an `unsigned int` or `unsigned
      long` for the others */
  function NumberOf(q: Spec, n: nat): int
  {
    var m := if q.c != 'p' && q.modifier in ["", "h", "hh"] then 0x1_0000_0000 else 0x1_0000_0000_0000_0000;
    if q.c in "di" && n % m >= m / 2 then n % m - m else n % m
  }

  /** The two buffers are large enough. */
  predicate Fits(q: Spec, n: nat)
  {
    && (q.c == 'o' ==> NumberOf(q, n) < 0x1000_0000_0000_0000)
    && !(q.c in "pxX" && '#' in q.flags && ('+' in q.flags || ' ' in q.flags))
  }

  function Radix(c: char): nat
  {
    if c in "pxX" then 16 else if c == 'o' then 8 else 10
  }

  function Alphabet(c: char): string
  {
    if c == 'X' then "0123456789ABCDEF" else "0123456789abcdef"[..Radix(c)]
  }

  /** The parts of a number's text */
  datatype Parts = Parts(before: nat, sign: string, mark: string, zeros: nat, digits: string, after: nat)

  function Whole(t: Parts): string
  {
    Repeat(' ', t.before) + (t.sign + t.mark + (Repeat('0', t.zeros) + t.digits + Repeat(' ', t.after)))
  }

  /** The sign: '+' rules over ' ', and both are also given to unsigned numbers. */
  predicate SignRight(sign: string, flags: string, v: int)
  {
    sign == if v < 0 then "-" else if '+' in flags then "+" else if ' ' in flags then " " else ""
  }

  predicate MarkRight(mark: string, flags: string, c: char)
  {
    mark == if '#' !in flags then "" else if c == 'o' then "0" else if c == 'X' then "0X" else if c in "px" then "0x"
            else ""
  }

  /** The digits are those of the number, without a zero in front. */
  predicate DigitsRight(digits: string, c: char, v: int)
  {
    && digits != [] && (forall i | 0 <= i < |digits| :: digits[i] in Alphabet(c))
       && (digits[0] == '0' ==> digits == "0")
    && Value(digits, Radix(c)) == if v < 0 then -v else v
  }

  /** Zeros bring the digits to the precision. Blanks in front, or with '0' and without '-' zeros, bring the whole to
      the width, and with '-' blanks behind; without '0' there are as many in front. */
  predicate PaddingRight(t: Parts, q: Spec, width: nat)
  {
    var p, n := PrecisionOf(q.dot), |t.digits|;
    var shown := if p != 0xFFFF_FFFF_FFFF_FFFF && p > n then p else n;
    var used := (shown + |t.sign| + |t.mark|) % 0x1_0000_0000_0000_0000;
    var pad := if used > width then 0 else width - used;
    && t.before == (if '0' in q.flags then 0 else pad) && t.after == (if '-' in q.flags then pad else 0)
    && t.zeros == shown - n + if '0' in q.flags && '-' !in q.flags then pad else 0
  }

  predicate Right(t: Parts, q: Spec, width: nat, v: int)
  {
    SignRight(t.sign, q.flags, v) && MarkRight(t.mark, q.flags, q.c) && DigitsRight(t.digits, q.c, v)
      && PaddingRight(t, q, width)
  }

  lemma {:induction false} DigitsFrom(v: nat, b: nat, conv: string)
    requires 2 <= b <= |conv|
    ensures forall i | 0 <= i < |Digits(v, b, conv)| :: Digits(v, b, conv)[i] in conv[..b]
    decreases v
  {
    if v < b {
      assert conv[..b][v] == conv[v];
    } else {
      Quotient(v, b);
      DigitsFrom(v / b, b, conv);
      assert conv[..b][v % b] == conv[v % b];
    }
  }

  /** The text of a number in its parts */
  lemma InParts(value: nat, negative: bool, c: char, g: Flags, width: nat, precision: nat) returns (t: Parts)
    requires IsSpecifier(c)
    ensures Text(value, negative, c, g, width, precision) == Whole(t)
    ensures t.sign == SignOf(negative, g) && t.mark == BaseMark(c, g) && t.digits == Digits(value, Base(c), Conv(c))
    ensures var printed := PrintedWidth(precision, |t.digits|);
            var pad := Pad(printed, |t.sign| + |t.mark|, width);
            && t.before == (if g.zero then 0 else pad) && t.after == (if g.minus then pad else 0)
            && t.zeros == (if g.zero && !g.minus then pad else 0) + printed - |t.digits|
  {
    hide Digits, SignOf, BaseMark, Repeat, Layout;
    var sign, mark, digits := SignOf(negative, g), BaseMark(c, g), Digits(value, Base(c), Conv(c));
    var printed := PrintedWidth(precision, |digits|);
    var pad := Pad(printed, |sign + mark|, width);
    t := Parts(if g.zero then 0 else pad, sign, mark, (if g.zero && !g.minus then pad else 0) + (printed - |digits|),
      digits, if g.minus then pad else 0);
    Sorted(sign, mark, digits, printed - |digits|, pad, g.zero, g.minus);
  }

  /** Every integer conversion: the text has the right sign, mark, digits and padding, the digits are counted, and
      the text is read back as the number. */
  lemma NumberPrinted(q: Spec, x: nat, n: nat, args: seq<Arg>, rest: string) returns (t: Parts)
    requires Proper(q) && q.c in "dioupxX" && (q.modifier == "L" ==> q.c == 'p')
    ensures var o := Print(Written(q) + rest, false, StarArg(q, x) + ([Number(n)] + args));
            if Fits(q, n) then o == Then(Whole(t), |t.digits|, Print(rest, false, args)) else o == Undefined
    ensures Fits(q, n) ==> Right(t, q, WidthOf(q, x), NumberOf(q, n))
    ensures Fits(q, n) ==> Read(Whole(t), Radix(q.c), '#' in q.flags) == NumberOf(q, n)
  {
    hide Print, Written, Proper, Whole, Right, Read, PrecisionOf, WidthOf, NumberOf, Text, Converted, Fits, FlagsIn;
    var l := Step(q, x, [Number(n)] + args, rest);
    assert ([Number(n)] + args)[1..] == args;
    var c := if q.c == 'p' then 'x' else q.c;
    var v := NumberOf(q, n);
    var value := if v < 0 then -v else v;
    NumberConverted(q, n, l, rest, FieldsOf(q), WidthOf(q, x), [Number(n)] + args);
    t := InParts(value, v < 0, c, FlagsIn(NO_FLAGS, q.flags), WidthOf(q, x), PrecisionOf(q.dot));
    ReadBack(value, v < 0, c, FlagsIn(NO_FLAGS, q.flags), WidthOf(q, x), PrecisionOf(q.dot));
    IsRight(t, q, WidthOf(q, x), v, value, c);
    Bases(q.c);
    HashIs(q);
  }

  lemma NumberConverted(q: Spec, n: nat, l: Length, rest: string, fields: Fields, width: nat, args: seq<Arg>)
    requires q.c in "dioupxX" && (q.modifier == "L" ==> q.c == 'p') && fields.flags == FlagsIn(NO_FLAGS, q.flags)
    requires (IsShort(l) <==> q.modifier in ["", "h", "hh"]) && (l == LongDouble <==> q.modifier == "L")
    requires args != [] && args[0] == Number(n)
    ensures ConversionOf([q.c] + rest, l) == Integer(q.c) && (IsSpecifier(q.c) || q.c == 'p')
    ensures var v, c := NumberOf(q, n), if q.c == 'p' then 'x' else q.c;
            var value := if v < 0 then -v else v;
            && IsSpecifier(c)
            && Converted(Integer(q.c), fields, width, l, args) ==
               if Fits(q, n) then Out(Text(value, v < 0, c, fields.flags, width, fields.precision),
                 |Digits(value, Base(c), Conv(c))|) else Undefined
  {
    hide Text, Digits, Fits, Convertible, NumberOf, SignedArg, UnsignedArg, Magnitude, FlagsIn;
    Integers(q.c);
    assert ([q.c] + rest)[0] == q.c;
    ArgumentIs(q, n, l);
    FitsIf(q, n);
  }

  lemma HashIs(q: Spec)
    ensures FlagsIn(NO_FLAGS, q.flags).hash <==> '#' in q.flags
  {
  }

  lemma Bases(c: char)
    requires c in "dioupxX"
    ensures var d := if c == 'p' then 'x' else c; IsSpecifier(d) && Base(d) == Radix(c)
  {
    Integers(c);
  }

  /** The value that is converted */
  lemma ArgumentIs(q: Spec, n: nat, l: Length)
    requires q.c in "dioupxX" && (IsShort(l) <==> q.modifier in ["", "h", "hh"])
    ensures var v := NumberOf(q, n);
            && -HALF <= v < WORD
            && if q.c == 'd' || q.c == 'i' then SignedArg(n, l) == v && Magnitude(v) == (if v < 0 then -v else v)
               else v == UnsignedArg(n, if q.c == 'p' then Long else l) >= 0
  {
    assert "di" == ['d', 'i'];
    var v := NumberOf(q, n);
    if q.c == 'd' || q.c == 'i' {
      MagnitudeIs(v);
    }
  }

  lemma FitsIf(q: Spec, n: nat)
    requires q.c in "dioupxX"
    ensures var v := NumberOf(q, n);
            Fits(q, n) <==> Convertible(if v < 0 then -v else v, v < 0, if q.c == 'p' then 'x' else q.c,
              FlagsIn(NO_FLAGS, q.flags))
  {
  }

  lemma IsRight(t: Parts, q: Spec, width: nat, v: int, value: nat, c: char)
    requires q.c in "dioupxX" && c == (if q.c == 'p' then 'x' else q.c) && value == if v < 0 then -v else v
    requires var g := FlagsIn(NO_FLAGS, q.flags);
             t.sign == SignOf(v < 0, g) && t.mark == BaseMark(c, g) && t.digits == Digits(value, Base(c), Conv(c))
    requires var g := FlagsIn(NO_FLAGS, q.flags);
             var printed := PrintedWidth(PrecisionOf(q.dot), |t.digits|);
             var pad := Pad(printed, |t.sign| + |t.mark|, width);
             && t.before == (if g.zero then 0 else pad) && t.after == (if g.minus then pad else 0)
             && t.zeros == (if g.zero && !g.minus then pad else 0) + printed - |t.digits|
    ensures Right(t, q, width, v)
  {
    hide SignRight, MarkRight, DigitsRight, PaddingRight, Digits, SignOf, BaseMark, Base, Conv, Value;
    SignIs(t.sign, q, v);
    MarkIs(t.mark, q, c);
    DigitsIs(t.digits, q.c, v, value, c);
    PaddingIs(t, q, width);
  }

  lemma SignIs(sign: string, q: Spec, v: int)
    requires sign == SignOf(v < 0, FlagsIn(NO_FLAGS, q.flags))
    ensures SignRight(sign, q.flags, v)
  {
  }

  lemma MarkIs(mark: string, q: Spec, c: char)
    requires q.c in "dioupxX" && c == (if q.c == 'p' then 'x' else q.c)
    requires mark == BaseMark(c, FlagsIn(NO_FLAGS, q.flags))
    ensures MarkRight(mark, q.flags, q.c)
  {
    assert "px" == ['p', 'x'];
  }

  lemma DigitsIs(digits: string, c: char, v: int, value: nat, d: char)
    requires c in "dioupxX" && d == (if c == 'p' then 'x' else c) && value == if v < 0 then -v else v
    requires digits == Digits(value, Base(d), Conv(d))
    ensures DigitsRight(digits, c, v)
  {
    hide Digits, Value;
    Bases(c);
    DigitsFrom(value, Base(d), Conv(d));
    DigitsValue(value, Base(d), Conv(d));
    NoLeadingZero(value, Base(d), Conv(d));
    assert Conv(d)[..Base(d)] == Alphabet(c);
  }

  lemma PaddingIs(t: Parts, q: Spec, width: nat)
    requires var g := FlagsIn(NO_FLAGS, q.flags);
             var printed := PrintedWidth(PrecisionOf(q.dot), |t.digits|);
             var pad := Pad(printed, |t.sign| + |t.mark|, width);
             && t.before == (if g.zero then 0 else pad) && t.after == (if g.minus then pad else 0)
             && t.zeros == (if g.zero && !g.minus then pad else 0) + printed - |t.digits|
    ensures PaddingRight(t, q, width)
  {
    hide PrecisionOf;
    var n := PrintedWidth(PrecisionOf(q.dot), |t.digits|);
    assert n + (|t.sign| + |t.mark|) == n + |t.sign| + |t.mark|;
  }
}
