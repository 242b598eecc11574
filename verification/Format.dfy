/** The format strings of lib/libbmk_core/subr_prf.c: how kprintf takes them apart into literal
    characters and conversion specifications, and that every sequence of these can be written. */
module Format {
  import opened Common
  import opened Strtoul
  import opened Printf

  const INT_MAX: nat := 0x7FFF_FFFF

  /** An argument: a 64-bit word, or a string (what stands before its NUL), or NULL for one. */
  datatype Arg = Word(w: nat) | Chars(s: Option<string>)

  /** What va_arg and the casts make of a word as an int, a short and a long. */
  function IntOf(w: nat): int { var x := w % 0x1_0000_0000; if x > INT_MAX then x - 0x1_0000_0000 else x }
  function ShortOf(w: nat): int { var x := w % 0x1_0000; if x > 0x7FFF then x - 0x1_0000 else x }
  function LongOf(w: nat): int {
    var x := w % (MAX + 1);
    if x > 0x7FFF_FFFF_FFFF_FFFF then x - (MAX + 1) else x
  }

  /** Flags; `wide` stands for j, l, ll, q, t and z, which all read 64 bits. */
  datatype Flags =
    Flags(alt: bool, ladjust: bool, zeropad: bool, sign: char, width: nat, prec: int, wide: bool, short: bool)

  const PLAIN := Flags(false, false, false, '\0', 0, -1, false, false)

  /** SARG and UARG; an unsigned short is read as an int and not cut. */
  function SArg(fl: Flags, w: nat): int { if fl.wide then LongOf(w) else if fl.short then ShortOf(w) else IntOf(w) }

  function UArg(fl: Flags, w: nat): (v: nat)
    ensures v <= MAX
  {
    if fl.wide then w % (MAX + 1)
    else if fl.short then (if IntOf(w) < 0 then IntOf(w) + MAX + 1 else IntOf(w))
    else w % 0x1_0000_0000
  }

  // ----- one conversion specification -----

  /** What one turn of the switch comes to: on to the rest with other flags, a conversion, a
      conversion without output (%n), the end of the format, or something C leaves undefined: an
      argument that is not there or not of the kind, or an int overflow. */
  datatype Turn =
    | Again(rest: string, fl: Flags, args: seq<Arg>)
    | Conv(spec: Spec, rest: string, args: seq<Arg>)
    | Count(rest: string, args: seq<Arg>)
    | Stop
    | Undefined

  predicate IsDecimal(c: char) { '0' <= c <= '9' }

  /** The number at the start of s, with n before it. */
  function Number(s: string, n: nat): (r: (nat, string))
    ensures r.0 >= n && |r.1| <= |s| && (s != [] && IsDecimal(s[0]) ==> |r.1| < |s|)
    decreases |s|
  {
    if s != [] && IsDecimal(s[0]) then Number(s[1..], 10 * n + (s[0] as int - '0' as int)) else (n, s)
  }

  predicate HasWord(args: seq<Arg>) { args != [] && args[0].Word? }

  function SpecOf(fl: Flags, sign: char, conv: Conversion): Spec {
    Spec(fl.alt, fl.ladjust, fl.zeropad, sign, fl.width, fl.prec, conv)
  }

  /** Conversions of a word; any other character but s stands for itself. */
  predicate TakesWord(c: char) {
    || c == 'c' || c == 'D' || c == 'd' || c == 'i' || c == 'n' || c == 'O' || c == 'o' || c == 'p' || c == 'U'
    || c == 'u' || c == 'X' || c == 'x'
  }

  /** The cases of the switch that end it. */
  function Convert(c: char, rest: string, fl: Flags, args: seq<Arg>): (t: Turn)
    ensures !t.Again? && (t.Conv? || t.Count? ==> t.rest == rest) && (t.Conv? ==> ArgOk(t.spec.conv))
  {
    if c == 's' then
      if args == [] || !args[0].Chars? then Undefined
      else Conv(SpecOf(fl, '\0', Text(if args[0].s == None then "(null)" else args[0].s.value)), rest, args[1..])
    else if !TakesWord(c) then Conv(SpecOf(fl, '\0', Single(c)), rest, args)
    else if !HasWord(args) then Undefined
    else
      var w, wide := args[0].w, fl.(wide := true);
      if c == 'n' then Count(rest, args[1..])
      else if c == 'c' then Conv(SpecOf(fl, '\0', Single((w % 256) as char)), rest, args[1..])
      else if c == 'D' then Conv(SpecOf(fl, fl.sign, Signed(SArg(wide, w))), rest, args[1..])
      else if c == 'd' || c == 'i' then Conv(SpecOf(fl, fl.sign, Signed(SArg(fl, w))), rest, args[1..])
      else if c == 'O' then Conv(SpecOf(fl, '\0', Unsigned(UArg(wide, w), Oct)), rest, args[1..])
      else if c == 'o' then Conv(SpecOf(fl, '\0', Unsigned(UArg(fl, w), Oct)), rest, args[1..])
      else if c == 'U' then Conv(SpecOf(fl, '\0', Unsigned(UArg(wide, w), Dec)), rest, args[1..])
      else if c == 'u' then Conv(SpecOf(fl, '\0', Unsigned(UArg(fl, w), Dec)), rest, args[1..])
      else if c == 'p' then Conv(SpecOf(fl, '\0', Pointer(UArg(wide, w))), rest, args[1..])
      else Conv(SpecOf(fl, '\0', Hexadecimal(UArg(fl, w), c == 'X')), rest, args[1..])
  }

  /** A width given as an argument; a negative one is the flag - and its magnitude. */
  function StarWidth(rest: string, fl: Flags, args: seq<Arg>): Turn {
    if !HasWord(args) then Undefined
    else
      var n := IntOf(args[0].w);
      if n >= 0 then Again(rest, fl.(width := n), args[1..])
      else if -n > INT_MAX then Undefined
      else Again(rest, fl.(width := -n, ladjust := true), args[1..])
  }

  /** A precision given as an argument; a negative one is none. */
  function StarPrecision(rest: string, fl: Flags, args: seq<Arg>): Turn {
    if !HasWord(args) then Undefined
    else
      var n := IntOf(args[0].w);
      Again(rest, fl.(prec := if n < 0 then -1 else n), args[1..])
  }

  /** One turn of the switch. */
  function Switch(s: string, fl: Flags, args: seq<Arg>): (t: Turn)
    ensures t.Again? || t.Conv? || t.Count? ==> |t.rest| < |s|
    ensures t.Conv? ==> ArgOk(t.spec.conv)
  {
    if s == [] || s[0] == '\0' then Stop
    else
      var c, rest := s[0], s[1..];
      if c == ' ' then Again(rest, if fl.sign == '\0' then fl.(sign := ' ') else fl, args)
      else if c == '#' then Again(rest, fl.(alt := true), args)
      else if c == '*' then StarWidth(rest, fl, args)
      else if c == '-' then Again(rest, fl.(ladjust := true), args)
      else if c == '+' then Again(rest, fl.(sign := '+'), args)
      else if c == '.' then
        if rest != [] && rest[0] == '*' then StarPrecision(rest[1..], fl, args)
        else
          var (n, after) := Number(rest, 0);
          if n > INT_MAX then Undefined else Again(after, fl.(prec := n), args)
      else if c == '0' then Again(rest, fl.(zeropad := true), args)
      else if IsDecimal(c) then
        var (n, after) := Number(s, 0);
        if n > INT_MAX then Undefined else Again(after, fl.(width := n), args)
      else if c == 'h' then Again(rest, fl.(short := true), args)
      else if c == 'l' then
        Again(if rest != [] && rest[0] == 'l' then rest[1..] else rest, fl.(wide := true), args)
      else if c == 'j' || c == 'q' || c == 't' || c == 'z' then Again(rest, fl.(wide := true), args)
      else Convert(c, rest, fl, args)
  }

  /** The switch until it ends. */
  function Directive(s: string, fl: Flags, args: seq<Arg>): (t: Turn)
    ensures !t.Again? && (t.Conv? || t.Count? ==> |t.rest| < |s|) && (t.Conv? ==> ArgOk(t.spec.conv))
    decreases |s|
  {
    var t := Switch(s, fl, args);
    if t.Again? then Directive(t.rest, t.fl, t.args) else t
  }

  // ----- whole formats -----

  datatype Scanned = Pieces(ps: seq<Piece>) | Invalid

  function Before(p: Piece, r: Scanned): Scanned { if r.Pieces? then Pieces([p] + r.ps) else Invalid }

  /** The pieces of a format with its arguments; a % at its end puts out nothing. */
  function Scan(s: string, args: seq<Arg>): (r: Scanned)
    ensures r.Pieces? ==> forall i :: 0 <= i < |r.ps| ==> PieceOk(r.ps[i])
    decreases |s|
  {
    if s == [] || s[0] == '\0' then Pieces([])
    else if s[0] != '%' then Before(Literal(s[0]), Scan(s[1..], args))
    else
      var t := Directive(s[1..], PLAIN, args);
      match t
      case Conv(spec, rest, left) => Before(Field(spec), Scan(rest, left))
      case Count(rest, left) => Scan(rest, left)
      case Stop => Pieces([])
      case _ => Invalid
  }

  // ----- writing -----

  /** How the size of a number is shown: h, nothing, one of the marks for 64 bits, or, for signed,
      octal and decimal numbers of 64 bits, a capital letter. */
  datatype Size = Short | Plain | Long(mark: string) | Capital

  predicate IsMark(mark: string) {
    mark == "j" || mark == "l" || mark == "ll" || mark == "q" || mark == "t" || mark == "z"
  }

  /** `star` asks for width and precision from the arguments, `negative` for the flag - by a
      negative width. */
  datatype Layout = Layout(size: Size, star: bool, negative: bool)

  /** What a conversion specification can ask for: a sign only with a signed conversion, octal or
      decimal without one, and width and precision within an int. */
  predicate Writable(f: Spec) {
    && ArgOk(f.conv) && f.width <= INT_MAX && -1 <= f.prec <= INT_MAX
    && (f.sign == '\0' || (f.conv.Signed? && (f.sign == ' ' || f.sign == '+')))
    && (f.conv.Unsigned? ==> f.conv.base != Hex) && (f.conv.Single? ==> f.conv.c as int < 256)
  }

  /** The numbers that can be passed as a short, an int or a long. */
  predicate Fits(conv: Conversion, size: Size) {
    match size
    case Long(mark) => IsMark(mark) && (conv.Signed? || conv.Unsigned? || conv.Hexadecimal?)
    case Capital => conv.Signed? || conv.Unsigned?
    case Short =>
      || (conv.Signed? && -0x8000 <= conv.i < 0x8000)
      || (conv.Unsigned? && SmallUnsigned(conv.v)) || (conv.Hexadecimal? && SmallUnsigned(conv.h))
    case Plain =>
      match conv
      case Signed(i) => -0x8000_0000 <= i < 0x8000_0000
      case Unsigned(v, _) => v < 0x1_0000_0000
      case Hexadecimal(h, _) => h < 0x1_0000_0000
      case _ => true
  }

  /** An int, taken as an unsigned number of 64 bits. */
  predicate SmallUnsigned(v: nat) { v < 0x8000_0000 || MAX + 1 - 0x8000_0000 <= v <= MAX }

  function When(b: bool, s: string): string { if b then s else [] }

  function FlagText(f: Spec, minus: bool): string {
    When(f.alt, "#") + (When(minus, "-") + (When(f.zeropad, "0") + When(f.sign != '\0', [f.sign])))
  }

  function WidthText(f: Spec, star: bool): string { if star then "*" else When(f.width > 0, Digits(f.width, 10)) }

  function PrecisionText(f: Spec, star: bool): string {
    if star then ".*" else if f.prec >= 0 then "." + Digits(f.prec, 10) else []
  }

  function SizeText(size: Size): string {
    match size
    case Short => "h"
    case Long(mark) => mark
    case _ => []
  }

  function LastOf(conv: Conversion, size: Size): char {
    match conv
    case Signed(_) => if size == Capital then 'D' else 'd'
    case Unsigned(_, base) =>
      if base == Oct then (if size == Capital then 'O' else 'o') else if size == Capital then 'U' else 'u'
    case Hexadecimal(_, upper) => if upper then 'X' else 'x'
    case Pointer(_) => 'p'
    case Text(_) => 's'
    case Single(_) => 'c'
  }

  function FieldText(f: Spec, lay: Layout): string {
    "%" + (FlagText(f, f.ladjust && !lay.negative) + (WidthText(f, lay.star) + (PrecisionText(f, lay.star) +
    (SizeText(lay.size) + [LastOf(f.conv, lay.size)]))))
  }

  // ----- the arguments to go with it -----

  /** The low bits of w are those of n. */
  predicate Agrees(w: nat, n: int, bits: nat)
    requires bits > 0
  {
    (w - n) % bits == 0
  }

  /** A word carries a number if it agrees with it in the bits of its size; a short without sign
      is passed and read as an int. */
  predicate Carries(arg: Arg, conv: Conversion, size: Size) {
    match conv
    case Signed(i) =>
      && arg.Word?
      && Agrees(arg.w, i, if size == Short then 0x1_0000 else if size == Plain then 0x1_0000_0000 else MAX + 1)
    case Unsigned(v, _) => arg.Word? && Agrees(arg.w, v, UnsignedBits(size))
    case Hexadecimal(h, _) => arg.Word? && Agrees(arg.w, h, UnsignedBits(size))
    case Pointer(p) => arg.Word? && Agrees(arg.w, p, MAX + 1)
    case Text(s) => arg == Chars(Some(s)) || (arg == Chars(None) && s == "(null)")
    case Single(c) => arg.Word? && Agrees(arg.w, c as int, 256)
  }

  function UnsignedBits(size: Size): (bits: nat)
    ensures bits > 0
  {
    if size == Short || size == Plain then 0x1_0000_0000 else MAX + 1
  }

  predicate IsInt(arg: Arg, n: int) { arg.Word? && Agrees(arg.w, n, 0x1_0000_0000) }

  /** A negative int is no precision. */
  predicate IsPrecision(arg: Arg, prec: int) {
    arg.Word? && if prec >= 0 then IsInt(arg, prec) else arg.w % 0x1_0000_0000 > INT_MAX
  }

  function WidthPassed(f: Spec, negative: bool): int { if negative then -(f.width as int) else f.width }

  predicate Passed(f: Spec, lay: Layout, args: seq<Arg>) {
    if lay.star then
      && |args| == 3 && IsInt(args[0], WidthPassed(f, lay.negative)) && IsPrecision(args[1], f.prec)
      && Carries(args[2], f.conv, lay.size)
    else |args| == 1 && Carries(args[0], f.conv, lay.size)
  }

  /** A piece, how it is written, and the arguments it takes. */
  datatype Shown = Shown(p: Piece, lay: Layout, args: seq<Arg>)

  predicate ShownOk(x: Shown) {
    match x.p
    case Literal(c) => c != '%' && c != '\0' && x.args == []
    case Field(f) =>
      && Writable(f) && Fits(f.conv, x.lay.size) && Passed(f, x.lay, x.args)
      && (x.lay.negative ==> x.lay.star && f.ladjust && f.width > 0)
  }

  function TextOf(x: Shown): string { if x.p.Literal? then [x.p.c] else FieldText(x.p.spec, x.lay) }

  function Written(xs: seq<Shown>): string { if xs == [] then [] else TextOf(xs[0]) + Written(xs[1..]) }

  function Arguments(xs: seq<Shown>): seq<Arg> { if xs == [] then [] else xs[0].args + Arguments(xs[1..]) }

  function PiecesOf(xs: seq<Shown>): seq<Piece> { if xs == [] then [] else [xs[0].p] + PiecesOf(xs[1..]) }

  // ----- what is written is scanned -----

  /** u goes on with something that is not a digit. */
  predicate NoDigit(u: string) { u != [] && !IsDecimal(u[0]) }

  lemma {:induction false} NumberReads(v: nat, u: string)
    ensures Number(Digits(v, 10) + u, 0) == Number(u, v)
  {
    DivMod(v, 10);
    if v < 10 {
      assert ([DigitChar(v)] + u)[1..] == u;
    } else {
      var c := DigitChar(v % 10);
      assert Digits(v, 10) + u == Digits(v / 10, 10) + ([c] + u);
      NumberReads(v / 10, [c] + u);
      assert ([c] + u)[1..] == u;
    }
  }

  lemma Skips(c: char, u: string)
    ensures ([c] + u)[0] == c && ([c] + u)[1..] == u
  {
  }

  function Flagged(c: char, fl: Flags): Flags {
    if c == '#' then fl.(alt := true) else if c == '-' then fl.(ladjust := true)
    else if c == '0' then fl.(zeropad := true) else fl.(sign := c)
  }

  lemma FlagTurn(c: char, u: string, fl: Flags, args: seq<Arg>)
    requires c in "#-0 +" && fl.sign == '\0'
    ensures Directive([c] + u, fl, args) == Directive(u, Flagged(c, fl), args)
  {
    Skips(c, u);
    assert Switch([c] + u, fl, args) == Again(u, Flagged(c, fl), args);
  }

  /** A flag that is there or not, with t after it. */
  lemma FlagRead(b: bool, c: char, t: string, u: string, fl: Flags, fl': Flags, args: seq<Arg>)
    requires c in "#-0 +" && fl.sign == '\0' && fl' == if b then Flagged(c, fl) else fl
    ensures Directive((When(b, [c]) + t) + u, fl, args) == Directive(t + u, fl', args)
  {
    if b {
      Associates([c], t, u);
      FlagTurn(c, t + u, fl, args);
    } else {
      assert [] + t == t;
    }
  }

  lemma SignRead(sign: char, u: string, fl: Flags, args: seq<Arg>)
    requires sign in "\0 +" && fl.sign == '\0'
    ensures Directive(When(sign != '\0', [sign]) + u, fl, args) == Directive(u, fl.(sign := sign), args)
  {
    if sign != '\0' { FlagTurn(sign, u, fl, args); } else { assert [] + u == u; }
  }

  /** The flags once they have been read. */
  function FlagsOf(f: Spec, minus: bool): Flags { Flags(f.alt, minus, f.zeropad, f.sign, 0, -1, false, false) }

  lemma FlagsRead(f: Spec, minus: bool, u: string, args: seq<Arg>)
    requires f.sign == '\0' || f.sign == ' ' || f.sign == '+'
    ensures Directive(FlagText(f, minus) + u, PLAIN, args) == Directive(u, FlagsOf(f, minus), args)
  {
    var sign := When(f.sign != '\0', [f.sign]);
    var zero := When(f.zeropad, "0") + sign;
    var fl1 := Flags(f.alt, false, false, '\0', 0, -1, false, false);
    var fl2 := Flags(f.alt, minus, false, '\0', 0, -1, false, false);
    var fl3 := Flags(f.alt, minus, f.zeropad, '\0', 0, -1, false, false);
    FlagRead(f.alt, '#', When(minus, "-") + zero, u, PLAIN, fl1, args);
    FlagRead(minus, '-', zero, u, fl1, fl2, args);
    FlagRead(f.zeropad, '0', sign, u, fl2, fl3, args);
    SignRead(f.sign, u, fl3, args);
  }

  lemma IntAgrees(w: nat, v: nat)
    requires v < 0x1_0000_0000 && Agrees(w, v, 0x1_0000_0000)
    ensures w % 0x1_0000_0000 == v
  {
  }

  lemma IntRead(arg: Arg, n: int)
    requires IsInt(arg, n) && -0x8000_0000 <= n < 0x8000_0000
    ensures IntOf(arg.w) == n
  {
    var u := if n < 0 then n + 0x1_0000_0000 else n;
    assert Agrees(arg.w, u, 0x1_0000_0000);
    IntAgrees(arg.w, u);
  }

  lemma WidthRead(f: Spec, u: string, fl: Flags, args: seq<Arg>)
    requires f.width <= INT_MAX && fl.width == 0 && NoDigit(u)
    ensures Directive(WidthText(f, false) + u, fl, args) == Directive(u, fl.(width := f.width), args)
  {
    if f.width == 0 {
      assert [] + u == u;
    } else {
      NumberReads(f.width, u);
      NoLeadingZero(f.width, 10);
      var d := Digits(f.width, 10);
      assert IsDigit(d[0], 10) && (d + u)[0] == d[0];
    }
  }

  lemma StarWidthRead(f: Spec, negative: bool, u: string, fl: Flags, arg: Arg, args: seq<Arg>)
    requires f.width <= INT_MAX && IsInt(arg, WidthPassed(f, negative)) && (negative ==> f.width > 0)
    ensures Directive(WidthText(f, true) + u, fl, [arg] + args) ==
              Directive(u, fl.(width := f.width, ladjust := fl.ladjust || negative), args)
  {
    IntRead(arg, WidthPassed(f, negative));
    Skips('*', u);
    assert ([arg] + args)[1..] == args;
  }

  lemma PrecisionRead(f: Spec, u: string, fl: Flags, args: seq<Arg>)
    requires -1 <= f.prec <= INT_MAX && fl.prec == -1 && NoDigit(u)
    ensures Directive(PrecisionText(f, false) + u, fl, args) == Directive(u, fl.(prec := f.prec), args)
  {
    if f.prec == -1 {
      assert [] + u == u;
    } else {
      var d := Digits(f.prec, 10);
      NumberReads(f.prec, u);
      assert ("." + d) + u == ['.'] + (d + u);
      Skips('.', d + u);
      assert IsDigit(d[0], 10) && (d + u)[0] == d[0];
    }
  }

  lemma StarPrecisionRead(f: Spec, u: string, fl: Flags, arg: Arg, args: seq<Arg>)
    requires -1 <= f.prec <= INT_MAX && IsPrecision(arg, f.prec)
    ensures Directive(PrecisionText(f, true) + u, fl, [arg] + args) == Directive(u, fl.(prec := f.prec), args)
  {
    if f.prec >= 0 { IntRead(arg, f.prec); }
    assert ".*" + u == ['.'] + (['*'] + u);
    Skips('.', ['*'] + u);
    Skips('*', u);
    assert ([arg] + args)[1..] == args;
  }

  /** A character that ends the switch. */
  lemma EndsSwitch(c: char, u: string, fl: Flags, args: seq<Arg>)
    requires (TakesWord(c) || c == 's')
    ensures Directive([c] + u, fl, args) == Convert(c, u, fl, args)
  {
    Skips(c, u);
  }

  /** The flags that a size sets. */
  function Sized(fl: Flags, size: Size): Flags {
    if size == Short then fl.(short := true) else if size.Long? then fl.(wide := true) else fl
  }

  /** A mark of one letter. */
  lemma MarkRead(m: char, t: string, fl: Flags, args: seq<Arg>)
    requires m == 'h' || m == 'j' || m == 'l' || m == 'q' || m == 't' || m == 'z'
    requires t != [] && t[0] != 'l'
    ensures Directive([m] + t, fl, args) ==
              Directive(t, if m == 'h' then fl.(short := true) else fl.(wide := true), args)
  {
    Skips(m, t);
  }

  lemma DoubleMarkRead(t: string, fl: Flags, args: seq<Arg>)
    ensures Directive("ll" + t, fl, args) == Directive(t, fl.(wide := true), args)
  {
    assert "ll" + t == ['l'] + (['l'] + t);
    Skips('l', ['l'] + t);
    Skips('l', t);
  }

  lemma SizeRead(size: Size, c: char, u: string, fl: Flags, args: seq<Arg>)
    requires (TakesWord(c) || c == 's') && (size.Long? ==> IsMark(size.mark))
    ensures Directive((SizeText(size) + [c]) + u, fl, args) == Convert(c, u, Sized(fl, size), args)
  {
    var t := [c] + u;
    EndsSwitch(c, u, Sized(fl, size), args);
    Associates(SizeText(size), [c], u);
    if size == Long("ll") { DoubleMarkRead(t, fl, args); }
    else if size.Short? || size.Long? { MarkRead(SizeText(size)[0], t, fl, args); }
    else { assert [] + t == t; }
  }

  lemma LongAgrees(w: nat, v: nat)
    requires v <= MAX && Agrees(w, v, MAX + 1)
    ensures w % (MAX + 1) == v
  {
  }

  lemma LongSigned(w: nat, i: int)
    requires -0x8000_0000_0000_0000 <= i < 0x8000_0000_0000_0000 && Agrees(w, i, MAX + 1)
    ensures LongOf(w) == i
  {
    var u := if i < 0 then i + MAX + 1 else i;
    assert Agrees(w, u, MAX + 1);
    LongAgrees(w, u);
  }

  lemma ShortAgrees(w: nat, v: nat)
    requires v < 0x1_0000 && Agrees(w, v, 0x1_0000)
    ensures w % 0x1_0000 == v
  {
  }

  lemma ShortSigned(w: nat, i: int)
    requires -0x8000 <= i < 0x8000 && Agrees(w, i, 0x1_0000)
    ensures ShortOf(w) == i
  {
    var u := if i < 0 then i + 0x1_0000 else i;
    assert Agrees(w, u, 0x1_0000);
    ShortAgrees(w, u);
  }

  lemma SignedRead(w: nat, i: int, size: Size, fl: Flags)
    requires ArgOk(Signed(i)) && Fits(Signed(i), size) && Carries(Word(w), Signed(i), size)
    requires fl.wide == (size.Long? || size == Capital) && fl.short == (size == Short)
    ensures SArg(fl, w) == i
  {
    if size == Plain { IntRead(Word(w), i); }
    else if size == Short { ShortSigned(w, i); }
    else { LongSigned(w, i); }
  }

  lemma UnsignedRead(w: nat, v: nat, size: Size, fl: Flags)
    requires v <= MAX && Agrees(w, v, UnsignedBits(size))
    requires (size == Short ==> SmallUnsigned(v)) && (size == Plain ==> v < 0x1_0000_0000)
    requires fl.wide == (size.Long? || size == Capital) && fl.short == (size == Short)
    ensures UArg(fl, w) == v
  {
    if size == Plain { IntAgrees(w, v); }
    else if size == Short { ShortRead(w, v); }
    else { LongAgrees(w, v); }
  }

  lemma ShortRead(w: nat, v: nat)
    requires SmallUnsigned(v) && Agrees(w, v, 0x1_0000_0000)
    ensures IntOf(w) == if v < 0x8000_0000 then v else v - (MAX + 1)
  {
    var u := if v < 0x8000_0000 then v else v - (MAX + 1) + 0x1_0000_0000;
    assert Agrees(w, u, 0x1_0000_0000);
    IntAgrees(w, u);
  }

  /** The flags as a conversion of 64 bits by its letter takes them. */
  function Widened(fl: Flags, size: Size): Flags { if size == Capital then fl.(wide := true) else Sized(fl, size) }

  lemma SignedConverts(f: Spec, size: Size, u: string, fl: Flags, w: nat, args: seq<Arg>)
    requires f.conv.Signed? && Writable(f) && Fits(f.conv, size) && Carries(Word(w), f.conv, size)
    requires fl == Flags(f.alt, f.ladjust, f.zeropad, f.sign, f.width, f.prec, false, false)
    ensures Convert(LastOf(f.conv, size), u, Sized(fl, size), [Word(w)] + args) == Conv(f, u, args)
  {
    assert ([Word(w)] + args)[1..] == args;
    SignedRead(w, f.conv.i, size, Widened(fl, size));
  }

  lemma UnsignedConverts(f: Spec, size: Size, u: string, fl: Flags, w: nat, args: seq<Arg>)
    requires (f.conv.Unsigned? || f.conv.Hexadecimal?) && Writable(f) && Fits(f.conv, size)
    requires Carries(Word(w), f.conv, size)
    requires fl == Flags(f.alt, f.ladjust, f.zeropad, f.sign, f.width, f.prec, false, false)
    ensures Convert(LastOf(f.conv, size), u, Sized(fl, size), [Word(w)] + args) == Conv(f, u, args)
  {
    assert ([Word(w)] + args)[1..] == args;
    UnsignedRead(w, if f.conv.Unsigned? then f.conv.v else f.conv.h, size, Widened(fl, size));
  }

  lemma Converts(f: Spec, size: Size, u: string, fl: Flags, arg: Arg, args: seq<Arg>)
    requires Writable(f) && Fits(f.conv, size) && Carries(arg, f.conv, size)
    requires fl == Flags(f.alt, f.ladjust, f.zeropad, f.sign, f.width, f.prec, false, false)
    ensures Convert(LastOf(f.conv, size), u, Sized(fl, size), [arg] + args) == Conv(f, u, args)
  {
    assert ([arg] + args)[1..] == args;
    match f.conv
    case Signed(_) => SignedConverts(f, size, u, fl, arg.w, args);
    case Unsigned(_, _) => UnsignedConverts(f, size, u, fl, arg.w, args);
    case Hexadecimal(_, _) => UnsignedConverts(f, size, u, fl, arg.w, args);
    case Pointer(p) => UnsignedRead(arg.w, p, Capital, Widened(fl, Capital));
    case _ =>
  }

  lemma ConversionRead(f: Spec, size: Size, u: string, fl: Flags, arg: Arg, args: seq<Arg>)
    requires Writable(f) && Fits(f.conv, size) && Carries(arg, f.conv, size)
    requires fl == Flags(f.alt, f.ladjust, f.zeropad, f.sign, f.width, f.prec, false, false)
    ensures Directive((SizeText(size) + [LastOf(f.conv, size)]) + u, fl, [arg] + args) == Conv(f, u, args)
  {
    SizeRead(size, LastOf(f.conv, size), u, fl, [arg] + args);
    Converts(f, size, u, fl, arg, args);
  }

  /** Size and conversion, the end of a field. */
  function EndText(f: Spec, size: Size): string { SizeText(size) + [LastOf(f.conv, size)] }

  lemma FieldParts(f: Spec, lay: Layout, u: string)
    ensures (FieldText(f, lay) + u)[0] == '%'
    ensures (FieldText(f, lay) + u)[1..] == FlagText(f, f.ladjust && !lay.negative) + (WidthText(f, lay.star) +
                                            (PrecisionText(f, lay.star) + (EndText(f, lay.size) + u)))
  {
    var flags := FlagText(f, f.ladjust && !lay.negative);
    var c := EndText(f, lay.size);
    var p := PrecisionText(f, lay.star) + c;
    var w := WidthText(f, lay.star) + p;
    Associates("%", flags + w, u);
    Skips('%', (flags + w) + u);
    Associates(flags, w, u);
    Associates(WidthText(f, lay.star), p, u);
    Associates(PrecisionText(f, lay.star), c, u);
  }

  lemma NoDigits(f: Spec, size: Size, u: string)
    requires size.Long? ==> IsMark(size.mark)
    ensures NoDigit(EndText(f, size) + u) && NoDigit(PrecisionText(f, false) + (EndText(f, size) + u))
  {
  }

  /** Width and precision in the format. */
  lemma WrittenRead(f: Spec, size: Size, u: string, arg: Arg, args: seq<Arg>)
    requires Writable(f) && Fits(f.conv, size) && Carries(arg, f.conv, size)
    ensures Directive(WidthText(f, false) + (PrecisionText(f, false) + (EndText(f, size) + u)), FlagsOf(f, f.ladjust),
                      [arg] + args) == Conv(f, u, args)
  {
    var c, fl, all := EndText(f, size) + u, FlagsOf(f, f.ladjust), [arg] + args;
    NoDigits(f, size, u);
    WidthRead(f, PrecisionText(f, false) + c, fl, all);
    PrecisionRead(f, c, fl.(width := f.width), all);
    ConversionRead(f, size, u, fl.(width := f.width, prec := f.prec), arg, args);
  }

  /** Width and precision among the arguments. */
  lemma StarsRead(f: Spec, size: Size, negative: bool, u: string, w: Arg, p: Arg, arg: Arg, args: seq<Arg>)
    requires Writable(f) && Fits(f.conv, size) && Carries(arg, f.conv, size) && (negative ==> f.ladjust && f.width > 0)
    requires IsInt(w, WidthPassed(f, negative)) && IsPrecision(p, f.prec)
    ensures Directive(WidthText(f, true) + (PrecisionText(f, true) + (EndText(f, size) + u)),
                      FlagsOf(f, f.ladjust && !negative), [w] + ([p] + ([arg] + args))) == Conv(f, u, args)
  {
    var c, fl, fl' := EndText(f, size) + u, FlagsOf(f, f.ladjust && !negative), FlagsOf(f, f.ladjust);
    StarWidthRead(f, negative, PrecisionText(f, true) + c, fl, w, [p] + ([arg] + args));
    StarPrecisionRead(f, c, fl'.(width := f.width), p, [arg] + args);
    ConversionRead(f, size, u, fl'.(width := f.width, prec := f.prec), arg, args);
  }

  /** What is behind the flags. */
  lemma RestRead(f: Spec, lay: Layout, u: string, mine: seq<Arg>, args: seq<Arg>)
    requires ShownOk(Shown(Field(f), lay, mine))
    ensures Directive(WidthText(f, lay.star) + (PrecisionText(f, lay.star) + (EndText(f, lay.size) + u)),
                      FlagsOf(f, f.ladjust && !lay.negative), mine + args) == Conv(f, u, args)
  {
    if lay.star {
      assert mine + args == [mine[0]] + ([mine[1]] + ([mine[2]] + args));
      StarsRead(f, lay.size, lay.negative, u, mine[0], mine[1], mine[2], args);
    } else {
      assert mine + args == [mine[0]] + args;
      WrittenRead(f, lay.size, u, mine[0], args);
    }
  }

  lemma FieldRead(f: Spec, lay: Layout, u: string, mine: seq<Arg>, args: seq<Arg>)
    requires ShownOk(Shown(Field(f), lay, mine))
    ensures (FieldText(f, lay) + u)[0] == '%'
    ensures Directive((FieldText(f, lay) + u)[1..], PLAIN, mine + args) == Conv(f, u, args)
  {
    var rest := WidthText(f, lay.star) + (PrecisionText(f, lay.star) + (EndText(f, lay.size) + u));
    FieldParts(f, lay, u);
    FlagsRead(f, f.ladjust && !lay.negative, rest, mine + args);
    RestRead(f, lay, u, mine, args);
  }

  lemma ShownScans(x: Shown, u: string, args: seq<Arg>, ps: seq<Piece>)
    requires ShownOk(x) && Scan(u, args) == Pieces(ps)
    ensures Scan(TextOf(x) + u, x.args + args) == Pieces([x.p] + ps)
  {
    if x.p.Literal? {
      Skips(x.p.c, u);
      assert x.args + args == args;
    } else {
      FieldRead(x.p.spec, x.lay, u, x.args, args);
    }
  }

  /** Every sequence of literal characters and conversion specifications, each written in any way
      that fits it, is what its format is scanned to with any arguments that carry its values. */
  lemma {:induction false} WrittenScans(xs: seq<Shown>)
    requires forall i :: 0 <= i < |xs| ==> ShownOk(xs[i])
    ensures Scan(Written(xs), Arguments(xs)) == Pieces(PiecesOf(xs))
  {
    if xs != [] {
      WrittenScans(xs[1..]);
      ShownScans(xs[0], Written(xs[1..]), Arguments(xs[1..]), PiecesOf(xs[1..]));
    }
  }

  /** The flag + wins over the flag blank, whichever comes first. */
  lemma PlusWins(u: string, fl: Flags, args: seq<Arg>)
    ensures Directive("+ " + u, fl, args) == Directive(" +" + u, fl, args) == Directive(u, fl.(sign := '+'), args)
  {
    assert "+ " + u == ['+'] + ([' '] + u) && " +" + u == [' '] + (['+'] + u);
    Skips('+', [' '] + u);
    Skips(' ', u);
    Skips(' ', ['+'] + u);
    Skips('+', u);
  }

  /** A % that is doubled stands for itself and takes no argument. */
  lemma PercentScans(u: string, args: seq<Arg>, ps: seq<Piece>)
    requires Scan(u, args) == Pieces(ps)
    ensures Scan("%%" + u, args) == Pieces([Field(Spec(false, false, false, '\0', 0, -1, Single('%')))] + ps)
  {
    assert "%%" + u == ['%'] + (['%'] + u);
    Skips('%', ['%'] + u);
    Skips('%', u);
    assert Directive(['%'] + u, PLAIN, args) == Convert('%', u, PLAIN, args);
  }
}
