/** The conversions of lib/libbmk_core/subr_prf.c: what a conversion specification puts out, and that
    numbers put out are read back. */
module Printf {
  import opened Strtoul

  datatype Base = Oct | Dec | Hex

  datatype Conversion =
    | Signed(i: int)                       // %d %i %D
    | Unsigned(v: nat, base: Base)         // %u %U %o %O
    | Hexadecimal(h: nat, upper: bool)     // %x %X
    | Pointer(p: nat)                      // %p
    | Text(s: string)                      // %s, "(null)" for NULL
    | Single(c: char)                      // %c, and %? for any other character

  /** Flags `#`, `-` and `0`; sign is '\0', ' ' or '+'; prec is -1 if not given. */
  datatype Spec = Spec(alt: bool, ladjust: bool, zeropad: bool, sign: char, width: nat, prec: int, conv: Conversion)

  datatype Piece = Literal(c: char) | Field(spec: Spec)

  /** Arguments are 64-bit integers and strings without NUL. */
  predicate ArgOk(conv: Conversion) {
    match conv
    case Signed(i) => -0x8000_0000_0000_0000 <= i < 0x8000_0000_0000_0000
    case Unsigned(v, _) => v <= MAX
    case Hexadecimal(h, _) => h <= MAX
    case Pointer(p) => p <= MAX
    case _ => true
  }

  // ----- what a field is -----

  function Radix(base: Base): (r: nat)
    ensures 2 <= r <= 16
  {
    match base case Oct => 8 case Dec => 10 case Hex => 16
  }

  function Upper(c: char): char { if 'a' <= c <= 'f' then (c as int - 32) as char else c }

  /** Digits in the table hexdigits or HEXDIGITS. */
  function Cased(s: string, upper: bool): (t: string)
    ensures |t| == |s|
  {
    seq(|s|, i requires 0 <= i < |s| => if upper then Upper(s[i]) else s[i])
  }

  predicate IsNumber(conv: Conversion) { !conv.Text? && !conv.Single? }

  /** Magnitude and base of a number. */
  function Magnitude(conv: Conversion): nat
    requires IsNumber(conv)
  {
    match conv
    case Signed(i) => if i < 0 then -i else i
    case Unsigned(v, _) => v
    case Hexadecimal(h, _) => h
    case Pointer(p) => p
  }

  function BaseOf(conv: Conversion): Base
    requires IsNumber(conv)
  {
    match conv case Signed(_) => Dec case Unsigned(_, base) => base case _ => Hex
  }

  /** The digits of v in the case asked for, octal with a leading zero in the alternate form. */
  function Numeral(v: nat, base: Base, upper: bool, alt: bool): string {
    var d := Cased(Digits(v, Radix(base)), upper);
    if base == Oct && alt && d[0] != '0' then "0" + d else d
  }

  /** The characters proper: no digits at all for zero with precision zero. */
  function Body(f: Spec): string {
    match f.conv
    case Text(s) => if 0 <= f.prec < |s| then s[..f.prec] else s
    case Single(c) => [c]
    case _ =>
      if Magnitude(f.conv) == 0 && f.prec == 0 then []
      else Numeral(Magnitude(f.conv), BaseOf(f.conv), f.conv.Hexadecimal? && f.conv.upper, f.alt)
  }

  /** The sign of a signed conversion, or the prefix of a hexadecimal one. */
  function Prefix(f: Spec): string {
    match f.conv
    case Signed(i) => if i < 0 then "-" else if f.sign == '\0' then [] else [f.sign]
    case Hexadecimal(h, upper) => if f.alt && h != 0 then (if upper then "0X" else "0x") else []
    case Pointer(_) => "0x"
    case _ => []
  }

  function Repeat(c: char, n: int): (s: string)
    ensures |s| == (if n > 0 then n else 0) && forall i :: 0 <= i < |s| ==> s[i] == c
  {
    if n <= 0 then [] else seq(n, _ => c)
  }

  /** Zeroes that bring a number to its precision. */
  function Zeroes(f: Spec): string { Repeat('0', if IsNumber(f.conv) then f.prec - |Body(f)| else 0) }

  function Core(f: Spec): string { Prefix(f) + Zeroes(f) + Body(f) }

  /** A precision turns the 0 flag off for numbers. */
  predicate ZeroPadded(f: Spec) { f.zeropad && !(IsNumber(f.conv) && f.prec >= 0) }

  /** The field: at least `width` wide, padded on the left with blanks, inside the prefix with
      zeroes, or on the right with blanks. */
  function Render(f: Spec): (s: string)
    ensures |s| == if f.width > |Core(f)| then f.width else |Core(f)|
  {
    var pad := f.width - |Core(f)|;
    if f.ladjust then Core(f) + Repeat(' ', pad)
    else if ZeroPadded(f) then Prefix(f) + Repeat('0', pad) + Zeroes(f) + Body(f)
    else Repeat(' ', pad) + Core(f)
  }

  function RenderPiece(p: Piece): string { match p case Literal(c) => [c] case Field(f) => Render(f) }

  function RenderAll(ps: seq<Piece>): string {
    if ps == [] then [] else RenderPiece(ps[0]) + RenderAll(ps[1..])
  }

  lemma RenderCons(p: Piece, ps: seq<Piece>)
    ensures RenderAll([p] + ps) == RenderPiece(p) + RenderAll(ps)
  {
    assert ([p] + ps)[1..] == ps;
  }

  lemma Associates(a: string, b: string, c: string)
    ensures (a + b) + c == a + (b + c)
  {
  }

  predicate PieceOk(p: Piece) { p.Field? ==> ArgOk(p.spec.conv) }

  lemma CoreLength(f: Spec)
    ensures var dprec, size := if IsNumber(f.conv) then f.prec else 0, |Body(f)|;
            |Core(f)| == (if dprec > size then dprec else size) + |Prefix(f)| && Repeat('0', dprec - size) == Zeroes(f)
  {
  }

  /** The field in the order that it is put out, only one of the paddings not empty. */
  lemma RenderParts(f: Spec, o: string)
    ensures var pad := f.width - |Core(f)|;
            o + Render(f) == o + Repeat(' ', if !f.ladjust && !ZeroPadded(f) then pad else 0) + Prefix(f)
                               + Repeat('0', if !f.ladjust && ZeroPadded(f) then pad else 0) + Zeroes(f) + Body(f)
                               + Repeat(' ', if f.ladjust then pad else 0)
  {
    var pad := f.width - |Core(f)|;
    var p, z, b := Prefix(f), Zeroes(f), Body(f);
    if f.ladjust { PutTogether(o, [], p, [], z, b, Repeat(' ', pad)); }
    else if ZeroPadded(f) { PutTogether(o, [], p, Repeat('0', pad), z, b, []); }
    else { PutTogether(o, Repeat(' ', pad), p, [], z, b, []); }
  }

  lemma PutTogether(o: string, left: string, p: string, inner: string, z: string, b: string, right: string)
    ensures o + left + p + inner + z + b + right == o + (left + (p + inner + z + b) + right)
    ensures left == [] && inner == [] ==> left + (p + inner + z + b) + right == p + z + b + right
    ensures left == [] && right == [] ==> left + (p + inner + z + b) + right == p + inner + z + b
    ensures inner == [] && right == [] ==> left + (p + inner + z + b) + right == left + (p + z + b)
  {
    assert p + [] == p && [] + (p + inner + z + b) == p + inner + z + b;
    assert left + (p + inner + z + b) + [] == left + (p + inner + z + b);
  }

  // ----- digits, from the right end of the buffer -----

  lemma CasedAppend(s: string, c: char, tail: string, upper: bool)
    ensures Cased(s + [c], upper) + tail == Cased(s, upper) + (Cased([c], upper) + tail)
  {
    assert Cased(s + [c], upper) == Cased(s, upper) + Cased([c], upper);
  }

  lemma DigitsUnfold(q: nat, r: nat, tail: string, room: nat, upper: bool)
    requires 2 <= r <= 16 && q >= r && |Digits(q, r)| <= room
    ensures q / r < q && q % r < r && 0 < room && |Digits(q / r, r)| <= room - 1
    ensures Cased(Digits(q, r), upper) + tail ==
            Cased(Digits(q / r, r), upper) + (Cased([DigitChar(q % r)], upper) + tail)
  {
    DivMod(q, r);
    CasedAppend(Digits(q / r, r), DigitChar(q % r), tail, upper);
  }

  method PutBefore(bf: array<char>, cp: nat, c: char)
    requires 0 < cp <= bf.Length
    modifies bf
    ensures bf[cp - 1..] == [c] + old(bf[cp..])
  {
    bf[cp - 1] := c;
  }

  method PutDigit(bf: array<char>, cp: nat, q: nat, r: nat, upper: bool, ghost goal: string) returns (next: nat)
    requires 2 <= r <= 16 && q >= r && |Digits(q, r)| <= cp <= bf.Length &&
             goal == Cased(Digits(q, r), upper) + bf[cp..]
    modifies bf
    ensures next < q && |Digits(next, r)| < cp && goal == Cased(Digits(next, r), upper) + bf[cp - 1..]
  {
    DigitsUnfold(q, r, bf[cp..], cp, upper);
    PutBefore(bf, cp, Cased([DigitChar(q % r)], upper)[0]);
    next := q / r;
  }

  /** The loops of `number:`, which write the digits of v from the last to the first, so that they
      end at the end of the buffer. */
  method WriteDigits(bf: array<char>, v: nat, r: nat, upper: bool) returns (cp: nat)
    requires 2 <= r <= 16 && |Digits(v, r)| <= bf.Length
    modifies bf
    ensures cp + |Digits(v, r)| == bf.Length && bf[cp..] == Cased(Digits(v, r), upper)
  {
    var q: nat := v;
    cp := bf.Length;
    ghost var goal := Cased(Digits(v, r), upper);
    while q >= r
      invariant cp <= bf.Length && |Digits(q, r)| <= cp && goal == Cased(Digits(q, r), upper) + bf[cp..]
      decreases q
    {
      q := PutDigit(bf, cp, q, r, upper, goal);
      cp := cp - 1;
    }
    PutBefore(bf, cp, Cased([DigitChar(q)], upper)[0]);
    cp := cp - 1;
  }

  /** The digits of a number, as Numeral says, in the buffer of KPRINTF_BUFSIZE characters. */
  method WriteNumeral(v: nat, base: Base, upper: bool, alt: bool) returns (body: string)
    requires v <= MAX
    ensures body == Numeral(v, base, upper, alt)
  {
    FitsBuffer(v);
    var bf := new char[BUFSIZE](_ => '\0');
    var cp := WriteDigits(bf, v, Radix(base), upper);
    if base == Oct && alt && bf[cp] != '0' {
      PutBefore(bf, cp, '0');
      cp := cp - 1;
    }
    body := bf[cp..];
  }

  // ----- what is printed is read back -----

  /** A conversion without flags but `#`, width or precision. */
  function Simple(alt: bool, conv: Conversion): Spec { Spec(alt, false, false, '\0', 0, -1, conv) }

  lemma SimpleRender(alt: bool, conv: Conversion)
    ensures Render(Simple(alt, conv)) == Prefix(Simple(alt, conv)) + Body(Simple(alt, conv))
  {
    var f := Simple(alt, conv);
    assert Zeroes(f) == [];
    assert Prefix(f) + [] + Body(f) == Prefix(f) + Body(f);
    assert [] + Core(f) == Core(f);
  }

  lemma CasedSame(s: string)
    ensures Cased(s, false) == s
  {
  }

  lemma NumberIs(alt: bool, conv: Conversion)
    requires IsNumber(conv) && !conv.Signed?
    ensures var d := Digits(Magnitude(conv), Radix(BaseOf(conv)));
            !(conv.Hexadecimal? && conv.upper) && !(alt && conv.Unsigned? && conv.base == Oct) ==>
              Render(Simple(alt, conv)) == Prefix(Simple(alt, conv)) + d
  {
    SimpleRender(alt, conv);
    CasedSame(Digits(Magnitude(conv), Radix(BaseOf(conv))));
  }

  lemma UnsignedIs(v: nat, base: Base)
    ensures Render(Simple(false, Unsigned(v, base))) == Digits(v, Radix(base))
  {
    NumberIs(false, Unsigned(v, base));
    assert [] + Digits(v, Radix(base)) == Digits(v, Radix(base));
  }

  lemma HexadecimalIs(v: nat, alt: bool)
    ensures Render(Simple(alt, Hexadecimal(v, false))) == (if alt && v != 0 then "0x" else "") + Digits(v, 16)
    ensures Render(Simple(alt, Pointer(v))) == "0x" + Digits(v, 16)
  {
    NumberIs(alt, Hexadecimal(v, false));
    NumberIs(alt, Pointer(v));
  }

  lemma AltOctalIs(v: nat)
    ensures Render(Simple(true, Unsigned(v, Oct))) == if v == 0 then "0" else "0" + Digits(v, 8)
  {
    SimpleRender(true, Unsigned(v, Oct));
    CasedSame(Digits(v, 8));
    NoLeadingZero(v, 8);
    assert v == 0 ==> Digits(v, 8) == "0";
    var b := Body(Simple(true, Unsigned(v, Oct)));
    assert [] + b == b;
  }

  /** bmk_strtoul reads every 64-bit number back from %u, %o and %x in the base they are written
      in, and from %u, %#o, %#x and %p with the base left open. */
  lemma PrintedReadsBack(v: nat, base: Base)
    requires v <= MAX
    ensures Answer(Render(Simple(false, Unsigned(v, base))), Radix(base)) == v
    ensures Answer(Render(Simple(false, Unsigned(v, Dec))), 0) == v
    ensures Answer(Render(Simple(false, Hexadecimal(v, false))), 16) == v
    ensures Answer(Render(Simple(true, Unsigned(v, Oct))), 0) == v
    ensures Answer(Render(Simple(true, Hexadecimal(v, false))), 0) == v
    ensures Answer(Render(Simple(false, Pointer(v))), 0) == v
  {
    UnsignedReadsBack(v, base);
    HexadecimalReadsBack(v);
    AltOctalReadsBack(v);
  }

  lemma UnsignedReadsBack(v: nat, base: Base)
    requires v <= MAX
    ensures Answer(Render(Simple(false, Unsigned(v, base))), Radix(base)) == v
    ensures Answer(Render(Simple(false, Unsigned(v, Dec))), 0) == v
  {
    UnsignedIs(v, base);
    RoundTrip(v, Radix(base));
    UnsignedIs(v, Dec);
    OpenDecimal(v);
  }

  lemma HexadecimalReadsBack(v: nat)
    requires v <= MAX
    ensures Answer(Render(Simple(false, Hexadecimal(v, false))), 16) == v
    ensures Answer(Render(Simple(true, Hexadecimal(v, false))), 0) == v
    ensures Answer(Render(Simple(false, Pointer(v))), 0) == v
  {
    HexadecimalIs(v, false);
    HexadecimalIs(v, true);
    assert "" + Digits(v, 16) == Digits(v, 16);
    RoundTrip(v, 16);
    RoundTripOpen(v);
    assert v == 0 ==> Digits(v, 16) == Digits(v, 10);
  }

  lemma AltOctalReadsBack(v: nat)
    requires v <= MAX
    ensures Answer(Render(Simple(true, Unsigned(v, Oct))), 0) == v
  {
    AltOctalIs(v);
    OpenOctal(v);
    OpenDecimal(v);
    assert v == 0 ==> Digits(v, 10) == "0";
  }
}
