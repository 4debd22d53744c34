/** The format string of `vcbprintf`: literal text, the fields of a conversion, and what the whole call emits. */
module PrintfFormat {
  import opened Printf

  // ----- The fields of a conversion -----

  const NO_FLAGS := Flags(false, false, false, false, false)

  predicate IsFlag(c: char)
  {
    c in ['#', '-', '+', ' ', '0']
  }

  function WithFlag(g: Flags, c: char): Flags
  {
    if c == '#' then g.(hash := true) else if c == '-' then g.(minus := true) else if c == '+' then g.(plus := true)
    else if c == ' ' then g.(space := true) else g.(zero := true)
  }

  /** The flags at the start of a text, and what follows */
  function TakeFlags(s: string, g: Flags): (r: (Flags, string))
    ensures |r.1| <= |s|
  {
    if s != [] && IsFlag(s[0]) then TakeFlags(s[1..], WithFlag(g, s[0])) else (g, s)
  }

  predicate IsDecimal(c: char)
  {
    '0' <= c <= '9'
  }

  /** One digit more, in `size_t` */
  function Appended(n: nat, c: char): nat
  {
    (n * 10 + DigitValue(c)) % WORD
  }

  function TakeNumber(s: string, n: nat): (r: (nat, string))
    ensures |r.1| <= |s|
  {
    if s != [] && IsDecimal(s[0]) then TakeNumber(s[1..], Appended(n, s[0])) else (n, s)
  }

  datatype Fields = Fields(flags: Flags, width: nat, star: bool, precision: nat)

  /** Flags, width and precision; `star` says that the width is an argument. */
  function TakeFields(s: string): (r: (Fields, string))
    ensures |r.1| <= |s|
  {
    var (flags, s1) := TakeFlags(s, NO_FLAGS);
    var (width, s2) := TakeNumber(s1, 0);
    var star := s2 != [] && s2[0] == '*';
    var s3 := if star then s2[1..] else s2;
    if s3 != [] && s3[0] == '.' then
      var (precision, s4) := TakeNumber(s3[1..], 0);
      (Fields(flags, width, star, precision), s4)
    else
      (Fields(flags, width, star, NO_PRECISION), s3)
  }

  datatype Length = ShortShort | Short | Default | Long | LongLong | LongDouble | IntMax | SizeT | PtrDiff

  /** The longest length modifier at the start of a text */
  function TakeLength(s: string): (r: (Length, string))
    ensures |r.1| <= |s|
  {
    if |s| >= 2 && s[..2] == "hh" then (ShortShort, s[2..])
    else if |s| >= 2 && s[..2] == "ll" then (LongLong, s[2..])
    else if s == [] then (Default, s)
    else if s[0] == 'h' then (Short, s[1..])
    else if s[0] == 'l' then (Long, s[1..])
    else if s[0] == 'L' then (LongDouble, s[1..])
    else if s[0] == 'j' then (IntMax, s[1..])
    else if s[0] == 'z' then (SizeT, s[1..])
    else if s[0] == 't' then (PtrDiff, s[1..])
    else (Default, s)
  }

  // ----- The loops that scan them -----

  method ScanFlags(format: string, from: nat) returns (flags: Flags, at: nat)
    requires from <= |format|
    ensures at <= |format| && (flags, format[at..]) == TakeFlags(format[from..], NO_FLAGS)
  {
    flags, at := NO_FLAGS, from;
    while at < |format| && IsFlag(format[at])
      invariant at <= |format| && TakeFlags(format[at..], flags) == TakeFlags(format[from..], NO_FLAGS)
    {
      assert format[at..][1..] == format[at + 1..];
      flags, at := WithFlag(flags, format[at]), at + 1;
    }
  }

  method ScanNumber(format: string, from: nat) returns (n: nat, at: nat)
    requires from <= |format|
    ensures at <= |format| && (n, format[at..]) == TakeNumber(format[from..], 0)
  {
    n, at := 0, from;
    while at < |format| && IsDecimal(format[at])
      invariant at <= |format| && TakeNumber(format[at..], n) == TakeNumber(format[from..], 0)
    {
      assert format[at..][1..] == format[at + 1..];
      n, at := Appended(n, format[at]), at + 1;
    }
  }

  method ScanFields(format: string, from: nat) returns (fields: Fields, at: nat)
    requires from <= |format|
    ensures at <= |format| && (fields, format[at..]) == TakeFields(format[from..])
  {
    var flags, at1 := ScanFlags(format, from);
    var width, at2 := ScanNumber(format, at1);
    var star := at2 < |format| && format[at2] == '*';
    var at3 := if star then at2 + 1 else at2;
    assert format[at3..] == if star then format[at2..][1..] else format[at2..];
    if at3 < |format| && format[at3] == '.' {
      assert format[at3..][1..] == format[at3 + 1..];
      var precision;
      precision, at := ScanNumber(format, at3 + 1);
      fields := Fields(flags, width, star, precision);
    } else {
      fields, at := Fields(flags, width, star, NO_PRECISION), at3;
    }
  }

  // ----- Fields that are written down are read -----

  predicate IsDigits(d: string)
  {
    forall i | 0 <= i < |d| :: '0' <= d[i] <= '9'
  }

  predicate AreFlags(w: string)
  {
    forall i | 0 <= i < |w| :: w[i] in "#-+ 0"
  }

  /** The flags `g` and those in a text, in whatever order and however often */
  function FlagsIn(g: Flags, w: string): Flags
  {
    Flags(g.hash || '#' in w, g.minus || '-' in w, g.plus || '+' in w, g.space || ' ' in w, g.zero || '0' in w)
  }

  lemma {:induction false} FlagsRead(w: string, r: string, g: Flags)
    requires AreFlags(w) && r != [] && r[0] !in "#-+ 0"
    ensures TakeFlags(w + r, g) == (FlagsIn(g, w), r)
    decreases |w|
  {
    if w == [] {
      assert w + r == r;
      assert FlagsIn(g, w) == g;
    } else {
      hide WithFlag, FlagsIn, AreFlags;
      var c, t := w[0], w[1..];
      assert (w + r)[1..] == t + r;
      FirstFlag(w, g);
      FlagsRead(t, r, WithFlag(g, c));
      TakeOne(w + r, g);
    }
  }

  lemma TakeOne(s: string, g: Flags)
    requires s != [] && IsFlag(s[0])
    ensures TakeFlags(s, g) == TakeFlags(s[1..], WithFlag(g, s[0]))
  {
  }

  lemma FirstFlag(w: string, g: Flags)
    requires AreFlags(w) && w != []
    ensures IsFlag(w[0]) && AreFlags(w[1..]) && FlagsIn(WithFlag(g, w[0]), w[1..]) == FlagsIn(g, w)
  {
    var c, t := w[0], w[1..];
    assert w == [c] + t;
    assert c in "#-+ 0";
    FlagMatters(w, c, t, '#');
    FlagMatters(w, c, t, '-');
    FlagMatters(w, c, t, '+');
    FlagMatters(w, c, t, ' ');
    FlagMatters(w, c, t, '0');
  }

  lemma FlagMatters(w: string, c: char, t: string, x: char)
    requires w == [c] + t
    ensures x in w <==> c == x || x in t
  {
  }

  /** The number that digits stand for, in `size_t` */
  function Accumulated(d: string, n: nat): nat
  {
    if d == [] then n else Appended(Accumulated(d[..|d| - 1], n), d[|d| - 1])
  }

  lemma {:induction false} TakeDigits(d: string, r: string, n: nat)
    requires IsDigits(d) && (r == [] || !IsDecimal(r[0]))
    ensures TakeNumber(d + r, n) == (Accumulated(d, n), r)
    decreases |d|
  {
    if d == [] {
      assert d + r == r;
    } else {
      assert (d + r)[1..] == d[1..] + r;
      TakeDigits(d[1..], r, Appended(n, d[0]));
      AccumulateFirst(d, n);
    }
  }

  lemma {:induction false} AccumulateFirst(d: string, n: nat)
    requires d != []
    ensures Accumulated(d, n) == Accumulated(d[1..], Appended(n, d[0]))
    decreases |d|
  {
    if |d| > 1 {
      AccumulateFirst(d[..|d| - 1], n);
      assert d[..|d| - 1][1..] == d[1..][..|d[1..]| - 1];
    } else {
      assert d[..0] == [];
    }
  }

  lemma {:induction false} AccumulatedValue(d: string)
    ensures Accumulated(d, 0) == Value(d, 10) % 0x1_0000_0000_0000_0000
    decreases |d|
  {
    if d != [] {
      AccumulatedValue(d[..|d| - 1]);
      WrapsOnce(Value(d[..|d| - 1], 10), DigitValue(d[|d| - 1]));
    }
  }

  lemma WrapsOnce(v: nat, c: nat)
    ensures (v % WORD * 10 + c) % WORD == (v * 10 + c) % WORD
  {
    var q := v / WORD;
    assert v == q * WORD + v % WORD;
    assert v * 10 + c == (v % WORD * 10 + c) + q * 10 * WORD;
    WordsAdded(v % WORD * 10 + c, q * 10);
  }

  lemma WordsAdded(x: nat, k: nat)
    ensures (x + k * WORD) % WORD == x % WORD
  {
  }

  /** A number that is written down is read, in `size_t`. */
  lemma NumberRead(d: string, r: string)
    requires IsDigits(d) && (r == [] || !IsDecimal(r[0]))
    ensures TakeNumber(d + r, 0) == (Value(d, 10) % 0x1_0000_0000_0000_0000, r)
  {
    TakeDigits(d, r, 0);
    AccumulatedValue(d);
  }

  /** Nothing, or a '.' and digits, perhaps none */
  predicate IsPrecision(p: string)
  {
    p != [] ==> p[0] == '.' && IsDigits(p[1..])
  }

  /** 2^64 - 1 stands for none. */
  function PrecisionOf(p: string): nat
  {
    if p == [] then 0xFFFF_FFFF_FFFF_FFFF else Value(p[1..], 10) % 0x1_0000_0000_0000_0000
  }

  /** Fields that are written down are read, the ones in front of a character that is part of none. */
  lemma FieldsRead(w: string, d: string, star: bool, p: string, r: string)
    requires AreFlags(w) && IsDigits(d) && (d != [] ==> d[0] != '0') && IsPrecision(p)
    requires r != [] && r[0] !in "#-+ 0123456789.*"
    ensures TakeFields(w + d + (if star then "*" else "") + p + r)
            == (Fields(FlagsIn(NO_FLAGS, w), Value(d, 10) % 0x1_0000_0000_0000_0000, star, PrecisionOf(p)), r)
  {
    hide TakeNumber, TakeFlags, FlagsIn, Value, AreFlags, IsDigits, IsDecimal;
    var r3 := p + r;
    var r2 := (if star then "*" else "") + r3;
    var r1 := d + r2;
    assert w + d + (if star then "*" else "") + p + r == w + r1 by {
      Grouped(w, d, if star then "*" else "", p, r);
    }
    assert r3[0] == if p != [] then '.' else r[0];
    assert r2[0] == if star then '*' else r3[0];
    assert r1[0] == if d != [] then d[0] else r2[0];
    FirstOf(d, r1, r2);
    FlagsRead(w, r1, NO_FLAGS);
    NotDecimal(r2[0]);
    NumberRead(d, r2);
    assert star ==> r2[1..] == r3;
    assert !star ==> r2 == r3;
    if p != [] {
      assert r3[1..] == p[1..] + r;
      NotDecimal(r[0]);
      NumberRead(p[1..], r);
    } else {
      assert r3 == r;
    }
  }

  lemma Grouped(a: string, b: string, c: string, d: string, e: string)
    ensures a + b + c + d + e == a + (b + (c + (d + e)))
  {
  }

  /** A width does not start with a flag. */
  lemma FirstOf(d: string, r1: string, r2: string)
    requires IsDigits(d) && (d != [] ==> d[0] != '0') && r2 != [] && r2[0] !in "#-+ 0"
    requires r1 != [] && r1[0] == if d != [] then d[0] else r2[0]
    ensures r1[0] !in "#-+ 0"
  {
  }

  lemma NotDecimal(c: char)
    requires c !in "0123456789"
    ensures !IsDecimal(c)
  {
  }

  // ----- The whole call -----

  /** The characters before the zero that ends a string */
  type CString = s: string | '\0' !in s

  datatype Arg = Number(n: nat) | Chars(s: CString)

  /** What the call emits and how much of it is counted; undefined if an argument is missing or of another kind, or
      a buffer is too small. */
  datatype Output = Undefined | Out(text: string, written: nat)

  function Then(text: string, written: nat, o: Output): Output
  {
    match o
    case Undefined => Undefined
    case Out(rest, more) => Out(text + rest, written + more)
  }

  const INT_MAX := 0x7FFF_FFFF

  /** How far text without '%' goes */
  function Plain(f: string): (n: nat)
    ensures n <= |f|
  {
    if f == [] || f[0] == '%' then 0 else 1 + Plain(f[1..])
  }

  /** `block`: one character, whatever it is, and the text up to the next '%' */
  function Block(f: string): (n: nat)
    requires f != []
    ensures 1 <= n <= |f|
  {
    1 + Plain(f[1..])
  }

  const TWO32 := 0x1_0000_0000

  /** An argument of one of the 32-bit types */
  predicate IsShort(l: Length)
  {
    l in {ShortShort, Short, Default}
  }

  function SignedArg(n: nat, l: Length): int
  {
    if IsShort(l) then (if n % TWO32 < TWO32 / 2 then n % TWO32 else n % TWO32 - TWO32)
    else (if n % WORD < HALF then n % WORD else n % WORD - WORD)
  }

  function UnsignedArg(n: nat, l: Length): nat
  {
    if IsShort(l) then n % TWO32 else n % WORD
  }

  /** `(size_t) va_arg(args, int)` */
  function WidthArg(n: nat): nat
  {
    SignedArg(n, Default) % WORD
  }

  /** The two buffers are large enough. */
  predicate Convertible(value: nat, negative: bool, specifier: char, flags: Flags)
  {
    && value < WORD && (specifier == 'o' ==> value < 0x1000_0000_0000_0000)
    && !(flags.hash && Base(specifier) == 16 && (negative || flags.plus || flags.space))
  }

  function IntegerText(c: char, fields: Fields, width: nat, l: Length, n: nat): Output
    requires IsSpecifier(c) || c == 'p'
  {
    var specifier := if c == 'p' then 'x' else c;
    var signed := c == 'd' || c == 'i';
    var value := if signed then Magnitude(SignedArg(n, l)) else UnsignedArg(n, if c == 'p' then Long else l);
    var negative := signed && SignedArg(n, l) < 0;
    if Convertible(value, negative, specifier, fields.flags)
    then Out(Text(value, negative, specifier, fields.flags, width, fields.precision),
      |Digits(value, Base(specifier), Conv(specifier))|)
    else Undefined
  }

  /** What a conversion specifier asks for, or nothing if it is not known */
  datatype Conversion = Unknown | Percent | Str | Char | Integer(c: char)

  function ConversionOf(s: string, l: Length): Conversion
  {
    if s == [] then Unknown else
      var c := s[0];
      if c == '%' then Percent else if c == 's' then Str else if c == 'c' then Char
      else if c == 'p' || (IsSpecifier(c) && l != LongDouble) then Integer(c) else Unknown
  }

  /** The text of a conversion, from the next argument */
  function Converted(k: Conversion, fields: Fields, width: nat, l: Length, args: seq<Arg>): Output
    requires k != Unknown && k != Percent && (k.Integer? ==> IsSpecifier(k.c) || k.c == 'p')
  {
    match k
    case Str =>
      if args != [] && args[0].Chars? then
        var n := if fields.precision < |args[0].s| then fields.precision else |args[0].s|;
        Out(args[0].s[..n], n)
      else Undefined
    case Char => if args != [] && args[0].Number? then Out([(args[0].n % 256) as char], 1) else Undefined
    case Integer(c) => if args != [] && args[0].Number? then IntegerText(c, fields, width, l, args[0].n) else Undefined
  }

  /** What `vcbprintf` emits from a point of the format on; `bad` says that an unknown conversion was met. */
  function Print(f: string, bad: bool, args: seq<Arg>): Output
    decreases |f|
  {
    if f == [] then Out("", 0)
    else if f[0] != '%' || (bad && !(|f| > 1 && f[1] == '%')) then
      Then(f[..Block(f)], Block(f), Print(f[Block(f)..], bad, args))
    else if |f| > 1 && f[1] == '%' then
      var g := f[1..];
      Then(g[..Block(g)], Block(g), Print(g[Block(g)..], bad, args))
    else
      var (fields, s1) := TakeFields(f[1..]);
      if fields.star && (args == [] || !args[0].Number?) then Undefined else
      var width := if fields.star then WidthArg(args[0].n) else fields.width;
      var args1 := if fields.star then args[1..] else args;
      var (l, s2) := TakeLength(s1);
      var k := ConversionOf(s2, l);
      if k == Unknown then Then(f[..Block(f)], Block(f), Print(f[Block(f)..], true, args1))
      else if k == Percent then Then("%", 0, Print(s2[1..], false, args1))
      else
        var o := Converted(k, fields, width, l, args1);
        if o == Undefined then Undefined else Then(o.text, o.written, Print(s2[1..], false, args1[1..]))
  }

  // ----- The loops -----

  /** `length_modifiers` */
  const MODIFIERS: seq<(string, Length)> :=
    [("hh", ShortShort), ("h", Short), ("", Default), ("l", Long), ("ll", LongLong), ("L", LongDouble), ("j", IntMax),
      ("z", SizeT), ("t", PtrDiff)]

  predicate StartsWith(s: string, p: string)
  {
    |p| <= |s| && s[..|p|] == p
  }

  /** One turn of the loop over the modifiers: the longest one so far */
  function Better(s: string, i: nat, best: (Length, nat)): (Length, nat)
    requires i < |MODIFIERS|
  {
    var (name, l) := MODIFIERS[i];
    if |name| < best.1 || !StartsWith(s, name) then best else (l, |name|)
  }

  function BestOf(s: string, i: nat): (Length, nat)
    requires i <= |MODIFIERS|
  {
    if i == 0 then (Default, 0) else Better(s, i - 1, BestOf(s, i - 1))
  }

  /** The loop finds the longest modifier. */
  lemma LongestFound(s: string)
    ensures var (l, n) := BestOf(s, |MODIFIERS|); n <= |s| && TakeLength(s) == (l, s[n..])
  {
    hide BestOf, StartsWith;
    FirstModifiers(s);
    NextModifiers(s);
    LastModifiers(s);
    FirstChars(s);
    TakeByStart(s);
  }

  lemma TakeByStart(s: string)
    ensures TakeLength(s) == if StartsWith(s, "hh") then (ShortShort, s[2..])
            else if StartsWith(s, "ll") then (LongLong, s[2..])
                             else if s == [] then (Default, s[0..]) else if s[0] == 'h' then (Short, s[1..])
                               else if s[0] == 'l' then (Long, s[1..])
                             else if s[0] == 'L' then (LongDouble, s[1..]) else if s[0] == 'j' then (IntMax, s[1..])
                             else if s[0] == 'z' then (SizeT, s[1..]) else if s[0] == 't' then (PtrDiff, s[1..])
                               else (Default, s[0..])
    ensures (StartsWith(s, "hh") || StartsWith(s, "ll")) ==> |s| >= 2
  {
  }

  lemma FirstModifiers(s: string)
    ensures BestOf(s, 3) == if StartsWith(s, "hh") then (ShortShort, 2) else if StartsWith(s, "h") then (Short, 1)
            else (Default, 0)
  {
    assert BestOf(s, 1) == Better(s, 0, (Default, 0));
    assert BestOf(s, 2) == Better(s, 1, BestOf(s, 1));
    assert BestOf(s, 3) == Better(s, 2, BestOf(s, 2));
    if StartsWith(s, "hh") {
      assert s[..1] == "hh"[..1];
    }
  }

  lemma NextModifiers(s: string)
    ensures BestOf(s, 5) == if StartsWith(s, "ll") then (LongLong, 2) else if StartsWith(s, "l") then (Long, 1)
            else BestOf(s, 3)
  {
    FirstModifiers(s);
    assert BestOf(s, 4) == Better(s, 3, BestOf(s, 3));
    assert BestOf(s, 5) == Better(s, 4, BestOf(s, 4));
    FirstChars(s);
  }

  lemma LastModifiers(s: string)
    ensures BestOf(s, 9) == if StartsWith(s, "L") then (LongDouble, 1) else if StartsWith(s, "j") then (IntMax, 1)
                            else if StartsWith(s, "z") then (SizeT, 1) else if StartsWith(s, "t") then (PtrDiff, 1)
                              else BestOf(s, 5)
  {
    FirstModifiers(s);
    NextModifiers(s);
    assert BestOf(s, 6) == Better(s, 5, BestOf(s, 5));
    assert BestOf(s, 7) == Better(s, 6, BestOf(s, 6));
    assert BestOf(s, 8) == Better(s, 7, BestOf(s, 7));
    assert BestOf(s, 9) == Better(s, 8, BestOf(s, 8));
    FirstChars(s);
  }

  lemma FirstChars(s: string)
    ensures forall c: char {:trigger StartsWith(s, [c])} :: StartsWith(s, [c]) <==> s != [] && s[0] == c
    ensures StartsWith(s, "hh") ==> s[0] == 'h'
    ensures StartsWith(s, "ll") ==> s[0] == 'l'
  {
    if StartsWith(s, "hh") {
      assert s[..2][0] == 'h';
    }
    if StartsWith(s, "ll") {
      assert s[..2][0] == 'l';
    }
  }

  method ScanLength(format: string, from: nat) returns (l: Length, at: nat)
    requires from <= |format|
    ensures at <= |format| && (l, format[at..]) == TakeLength(format[from..])
  {
    l := Default;
    var n := 0;
    for i := 0 to |MODIFIERS|
      invariant (l, n) == BestOf(format[from..], i)
    {
      if |MODIFIERS[i].0| >= n && StartsWith(format[from..], MODIFIERS[i].0) {
        l, n := MODIFIERS[i].1, |MODIFIERS[i].0|;
      }
    }
    LongestFound(format[from..]);
    at := from + n;
    assert format[from..][n..] == format[at..];
  }

  /** `normal_print` */
  method PrintPlain(sink: Sink, format: string, from: nat) returns (at: nat)
    requires from < |format|
    modifies sink
    ensures at == from + Block(format[from..]) && sink.out == old(sink.out) + format[from..][..Block(format[from..])]
  {
    at := from + 1;
    assert format[from..][1..] == format[at..];
    while at < |format| && format[at] != '%'
      invariant from < at <= |format| && Block(format[from..]) == at - from + Plain(format[at..])
    {
      assert format[at..][1..] == format[at + 1..];
      at := at + 1;
    }
    assert format[from..][..at - from] == format[from..at];
    sink.Put(format[from..at]);
  }

  /** `vcbprintf`: it emits what the format and the arguments call for, and returns the count. */
  method Vcbprintf(sink: Sink, format: CString, args: seq<Arg>) returns (r: int)
    requires Print(format, false, args).Out?
    modifies sink
    ensures sink.out == old(sink.out) + Print(format, false, args).text
    ensures var n := Print(format, false, args).written % 0x1_0000_0000_0000_0000;
            r == if n > 0x7FFF_FFFF then -1 else n
  {
    hide Print;
    ghost var whole := Then(sink.out, 0, Print(format, false, args));
    var at, bad, rest := 0, false, args;
    var written: nat := 0;
    assert format[0..] == format;
    while at < |format|
      invariant at <= |format| && Emits(sink.out, written, Print(format[at..], bad, rest), whole)
      decreases |format| - at
    {
      at, bad, rest, written := Turn(sink, format, at, bad, rest, written, whole);
    }
    NothingLeft(format[at..], bad, rest);
    NoText(sink.out);
    r := if written % WORD > INT_MAX then -1 else written % WORD;
  }

  lemma NoText(s: string)
    ensures s + "" == s
  {
  }

  lemma NothingLeft(f: string, bad: bool, args: seq<Arg>)
    requires f == []
    ensures Print(f, bad, args) == Out("", 0)
  {
  }

  /** What has been emitted and what is still to be emitted are together `whole`. */
  ghost predicate Emits(out: string, written: nat, o: Output, whole: Output)
  {
    o.Out? && Then(out, written, o) == whole
  }

  lemma EmitsMore(out: string, written: nat, text: string, more: nat, o: Output, whole: Output)
    requires Emits(out, written, Then(text, more, o), whole)
    ensures Emits(out + text, written + more, o, whole)
  {
    assert o.Out? ==> out + text + o.text == out + (text + o.text);
  }

  /** One turn of the outer loop */
  method Turn(sink: Sink, format: string, from: nat, bad: bool, args: seq<Arg>, written: nat, ghost whole: Output)
    returns (at: nat, bad': bool, args': seq<Arg>, written': nat)
    requires from < |format| && Emits(sink.out, written, Print(format[from..], bad, args), whole)
    modifies sink
    ensures from < at <= |format| && Emits(sink.out, written', Print(format[at..], bad', args'), whole)
  {
    hide Emits, Print, Block, TakeFields, TakeLength, Then;
    ghost var out, f := sink.out, format[from..];
    PrintSteps(f, bad, args);
    bad', args' := bad, args;
    if format[from] != '%' {
      at := PrintPlain(sink, format, from);
      written' := written + (at - from);
      EmitsMore(out, written, f[..Block(f)], Block(f), Print(f[Block(f)..], bad, args), whole);
      assert f[Block(f)..] == format[at..];
    } else if from + 1 < |format| && format[from + 1] == '%' {
      ghost var g := f[1..];
      assert g == format[from + 1..];
      at := PrintPlain(sink, format, from + 1);
      written' := written + (at - (from + 1));
      EmitsMore(out, written, g[..Block(g)], Block(g), Print(g[Block(g)..], bad, args), whole);
      assert g[Block(g)..] == format[at..];
    } else if bad {
      at := PrintPlain(sink, format, from);
      written' := written + (at - from);
      EmitsMore(out, written, f[..Block(f)], Block(f), Print(f[Block(f)..], bad, args), whole);
      assert f[Block(f)..] == format[at..];
    } else {
      assert f[1..] == format[from + 1..];
      at, bad', args', written' := ConversionTurn(sink, format, from, args, written, whole);
    }
  }

  lemma PrintSteps(f: string, bad: bool, args: seq<Arg>)
    requires f != []
    ensures f[0] != '%' || (bad && !(|f| > 1 && f[1] == '%')) ==>
              Print(f, bad, args) == Then(f[..Block(f)], Block(f), Print(f[Block(f)..], bad, args))
    ensures f[0] == '%' && |f| > 1 && f[1] == '%' ==> var g := f[1..];
            Print(f, bad, args) == Then(g[..Block(g)], Block(g), Print(g[Block(g)..], bad, args))
  {
  }

  /** What a conversion prints, by the fields that were scanned */
  function PrintConversion(f: string, args: seq<Arg>, fields: Fields, l: Length, s2: string): Output
    requires f != [] && |s2| < |f|
  {
    if fields.star && (args == [] || !args[0].Number?) then Undefined else
    var width := if fields.star then WidthArg(args[0].n) else fields.width;
    var args1 := if fields.star then args[1..] else args;
    var k := ConversionOf(s2, l);
    if k == Unknown then Then(f[..Block(f)], Block(f), Print(f[Block(f)..], true, args1))
    else if k == Percent then Then("%", 0, Print(s2[1..], false, args1))
    else
      var o := Converted(k, fields, width, l, args1);
      if o == Undefined then Undefined else Then(o.text, o.written, Print(s2[1..], false, args1[1..]))
  }

  lemma PrintFields(f: string, args: seq<Arg>)
    requires f != [] && f[0] == '%' && !(|f| > 1 && f[1] == '%')
    ensures var (fields, s1) := TakeFields(f[1..]); var (l, s2) := TakeLength(s1);
            Print(f, false, args) == PrintConversion(f, args, fields, l, s2)
  {
  }

  /** A conversion specification */
  method ConversionTurn(sink: Sink, format: string, from: nat, args: seq<Arg>, written: nat, ghost whole: Output)
    returns (at: nat, bad: bool, args': seq<Arg>, written': nat)
    requires from < |format| && format[from] == '%' && !(from + 1 < |format| && format[from + 1] == '%')
    requires Emits(sink.out, written, Print(format[from..], false, args), whole)
    modifies sink
    ensures from < at <= |format| && Emits(sink.out, written', Print(format[at..], bad, args'), whole)
  {
    hide Print, Block, TakeFields, TakeLength, Converted, ConversionOf, WidthArg, Emits;
    ghost var f, out := format[from..], sink.out;
    PrintFields(f, args);
    assert f[1..] == format[from + 1..];
    var fields, at1 := ScanFields(format, from + 1);
    var l, at2 := ScanLength(format, at1);
    Shorter(format, from, at2, f, TakeFields(f[1..]).1);
    WholeDefined(out, written, PrintConversion(f, args, fields, l, format[at2..]), whole);
    var width := if fields.star then WidthArg(args[0].n) else fields.width;
    args' := if fields.star then args[1..] else args;
    var k := ConversionOf(format[at2..], l);
    if k == Unknown {
      bad := true;
      at := PrintPlain(sink, format, from);
      written' := written + (at - from);
      EmitsMore(out, written, f[..Block(f)], Block(f), Print(f[Block(f)..], true, args'), whole);
      assert f[Block(f)..] == format[at..];
    } else {
      Known(format[at2..], l);
      assert format[at2..][1..] == format[at2 + 1..];
      at, bad := at2 + 1, false;
      if k == Percent {
        sink.Put("%");
        written' := written;
        EmitsMore(out, written, "%", 0, Print(format[at..], false, args'), whole);
      } else {
        ghost var o := Converted(k, fields, width, l, args');
        var n := EmitOne(sink, k, fields, width, l, args');
        written' := written + n;
        EmitsMore(out, written, o.text, o.written, Print(format[at..], false, args'[1..]), whole);
        args' := args'[1..];
      }
    }
  }

  lemma Shorter(format: string, from: nat, at: nat, f: string, s1: string)
    requires from < |format| && f == format[from..] && at <= |format| && format[at..] == TakeLength(s1).1
    requires s1 == TakeFields(f[1..]).1
    ensures |format[at..]| < |f| && from < at
  {
  }

  lemma WholeDefined(out: string, written: nat, o: Output, whole: Output)
    requires Emits(out, written, o, whole)
    ensures o.Out?
  {
  }

  lemma Known(s: string, l: Length)
    requires ConversionOf(s, l) != Unknown
    ensures var k := ConversionOf(s, l); s != [] && (k.Integer? ==> IsSpecifier(k.c) || k.c == 'p')
  {
  }

  /** The text of one conversion, and its count */
  method EmitOne(sink: Sink, k: Conversion, fields: Fields, width: nat, l: Length, args: seq<Arg>) returns (n: nat)
    requires k != Unknown && k != Percent && (k.Integer? ==> IsSpecifier(k.c) || k.c == 'p')
    requires Converted(k, fields, width, l, args).Out?
    modifies sink
    ensures sink.out == old(sink.out) + Converted(k, fields, width, l, args).text && args != []
    ensures n == Converted(k, fields, width, l, args).written
  {
    hide Text, Digits;
    match k
    case Str =>
      var s := args[0].s;
      n := if fields.precision < |s| then fields.precision else |s|;
      sink.Put(s[..n]);
    case Char =>
      sink.Put([(args[0].n % 256) as char]);
      n := 1;
    case Integer(c) =>
      var arg := args[0].n;
      if c == 'd' || c == 'i' {
        SignedBounds(arg, l);
        if c == 'd' {
          n := ConvertSigned(sink, SignedArg(arg, l), fields.flags, width, fields.precision);
        } else {
          n := Convert(sink, Magnitude(SignedArg(arg, l)), SignedArg(arg, l) < 0, 'i', fields.flags, width,
            fields.precision);
        }
      } else {
        var specifier := if c == 'p' then 'x' else c;
        var value := UnsignedArg(arg, if c == 'p' then Long else l);
        n := Convert(sink, value, false, specifier, fields.flags, width, fields.precision);
      }
  }

  lemma SignedBounds(n: nat, l: Length)
    ensures -HALF <= SignedArg(n, l) < HALF
  {
  }

  // ----- Text comes out as it is -----

  /** Every '%' doubled */
  function Escape(t: string): string
  {
    if t == [] then [] else (if t[0] == '%' then "%%" else [t[0]]) + Escape(t[1..])
  }

  /** A format that goes on with a '%', or ends */
  predicate GoesOn(f: string)
  {
    f == [] || f[0] == '%'
  }

  lemma {:induction false} EscapePlain(t: string, f: string)
    requires GoesOn(f)
    ensures var k, e := Plain(t), Escape(t) + f;
            Plain(e) == k && k <= |e| && e[..k] == t[..k] && e[k..] == Escape(t[k..]) + f
    decreases |t|
  {
    var e := Escape(t) + f;
    if t == [] {
      assert e == f;
    } else if t[0] != '%' {
      hide Escape, Plain;
      var h := Escape(t[1..]) + f;
      EscapePlain(t[1..], f);
      EscapeFirst(t, f);
      Alone([t[0]] + h);
      PlainMore(t[0], h);
      PlainMore(t[0], t[1..]);
      OnePlain(t[0], h, t[1..], Plain(t[1..]));
      assert t == [t[0]] + t[1..];
    } else {
      assert e[0] == '%';
    }
  }

  lemma PlainMore(c: char, h: string)
    requires c != '%'
    ensures Plain([c] + h) == 1 + Plain(h)
  {
    assert ([c] + h)[1..] == h;
  }

  lemma OnePlain(c: char, e: string, t: string, k: nat)
    requires k <= |e| && k <= |t| && e[..k] == t[..k]
    ensures ([c] + e)[1..] == e && ([c] + e)[..1 + k] == ([c] + t)[..1 + k] && ([c] + e)[1 + k..] == e[k..]
    ensures ([c] + t)[1 + k..] == t[k..]
  {
  }

  lemma {:induction false} EscapedString(t: string)
    requires '\0' !in t
    ensures '\0' !in Escape(t)
  {
    if t != [] {
      EscapedString(t[1..]);
    }
  }

  /** Any text at all is emitted as it is once its '%' are doubled, after an unknown conversion too, its length is
      counted, and what follows is printed as it is by itself. */
  lemma EscapedText(t: CString, f: string, bad: bool, args: seq<Arg>)
    requires GoesOn(f)
    ensures '\0' !in Escape(t) && Print(Escape(t) + f, bad, args) == Then(t, |t|, Print(f, bad, args))
    ensures f == [] ==> Print(Escape(t) + f, bad, args) == Out(t, |t|)
  {
    EscapedString(t);
    EscapedFrom(t, f, bad, args);
    Alone(t);
  }

  lemma {:induction false} EscapedFrom(t: string, f: string, bad: bool, args: seq<Arg>)
    requires GoesOn(f)
    ensures Print(Escape(t) + f, bad, args) == Then(t, |t|, Print(f, bad, args))
    decreases |t|
  {
    if t != [] {
      hide Print, Escape, Block, Plain;
      var e, k := Escape(t[1..]) + f, Plain(t[1..]);
      EscapeFirst(t, f);
      EscapePlain(t[1..], f);
      BlockOf(t[0], e, k);
      PrintBlock(Escape(t) + f, [t[0]] + e, bad, args);
      EscapedFrom(t[1..][k..], f, bad, args);
      Parts(t, k);
      ThenThen([t[0]] + t[1..][..k], 1 + k, t[1..][k..], |t[1..][k..]|, Print(f, bad, args));
    } else {
      Alone(f);
      NothingFirst(Print(f, bad, args));
    }
  }

  lemma ThenThen(a: string, n: nat, b: string, m: nat, o: Output)
    ensures Then(a, n, Then(b, m, o)) == Then(a + b, n + m, o)
  {
    assert o.Out? ==> a + (b + o.text) == (a + b) + o.text;
  }

  lemma NothingFirst(o: Output)
    ensures Then([], 0, o) == o
  {
    assert o.Out? ==> [] + o.text == o.text;
  }

  lemma EscapeFirst(t: string, f: string)
    requires t != []
    ensures Escape(t) + f == (if t[0] == '%' then "%" else "") + ([t[0]] + (Escape(t[1..]) + f))
  {
    Twice(t[0], Escape(t[1..]), f);
  }

  lemma Twice(c: char, e: string, f: string)
    ensures "%%" + e + f == "%" + (['%'] + (e + f)) && [c] + e + f == "" + ([c] + (e + f))
  {
  }

  lemma Alone(r: string)
    ensures "" + r == r && r + "" == r && Escape([]) == []
  {
  }

  lemma Parts(t: string, k: nat)
    requires t != [] && k < |t|
    ensures t == ([t[0]] + t[1..][..k]) + t[1..][k..]
  {
  }

  lemma BlockOf(c: char, f: string, k: nat)
    requires Plain(f) == k
    ensures Block([c] + f) == 1 + k && ([c] + f)[..1 + k] == [c] + f[..k] && ([c] + f)[1 + k..] == f[k..]
  {
    assert ([c] + f)[1..] == f;
  }

  /** A block that starts with a doubled '%', or not with '%' at all */
  lemma PrintBlock(e: string, g: string, bad: bool, args: seq<Arg>)
    requires g != [] && e == (if g[0] == '%' then "%" else "") + g
    ensures Print(e, bad, args) == Then(g[..Block(g)], Block(g), Print(g[Block(g)..], bad, args))
  {
    if g[0] == '%' {
      assert e[1..] == g;
    } else {
      assert e == g;
    }
  }
}
