/** What the fields of lib/libbmk_core/subr_prf.c show, for all flags, widths and precisions: numbers
    that strtoul reads back, signs, and padding where it belongs. */
module Fields {
  import opened Strtoul
  import opened Printf

  // ----- texts that stand for a number -----

  /** Blank, tab, newline, vertical tab, form feed, carriage return. */
  predicate White(c: char) {
    c == ' ' || c as int == 9 || c as int == 10 || c as int == 11 || c as int == 12 || c as int == 13
  }

  predicate AllSpace(w: string) { forall k :: 0 <= k < |w| ==> White(w[k]) }

  /** White space, a sign, a prefix, digits, and what follows. */
  datatype Written = Written(space: string, sign: string, prefix: string, digits: string, rest: string)

  function Whole(x: Written): string { x.space + (x.sign + (x.prefix + (x.digits + x.rest))) }

  /** With the base given, or left open with 0, its digits are to be read in base b. */
  predicate Reads(x: Written, base: nat, b: nat) {
    && AllSpace(x.space) && (x.sign == "" || x.sign == "+" || x.sign == "-")
    && AreDigits(x.digits, b) && (x.rest == [] || !IsDigit(x.rest[0], b))
    && (if x.prefix == [] then
          && (x.sign == "" ==> !White(CharAt(x.digits + x.rest, 0)) && CharAt(x.digits + x.rest, 0) !in "+-")
          && CharAt(x.digits + x.rest, 1) !in "xX"
          && b == if base != 0 then base else if CharAt(x.digits + x.rest, 0) == '0' then 8 else 10
        else (x.prefix == "0x" || x.prefix == "0X") && (base == 0 || base == 16) && b == 16)
  }

  lemma {:induction false} SkipsSpace(w: string, u: string, i: nat)
    requires AllSpace(w) && i <= |w| && !White(CharAt(u, 0))
    ensures AfterSpace(w + u, i) == |w|
    decreases |w| - i
  {
    if i < |w| { SkipsSpace(w, u, i + 1); } else { assert CharAt(w + u, i) == CharAt(u, 0); }
  }

  lemma {:induction false} RunsTo(s: string, i: nat, e: nat, base: nat)
    requires i <= e <= |s| && (forall k :: i <= k < e ==> IsDigit(s[k], base)) && (e == |s| || !IsDigit(s[e], base))
    ensures RunEnd(s, i, base) == e
    decreases e - i
  {
    if i < e { RunsTo(s, i + 1, e, base); }
  }

  lemma CharsOf(a: string, b: string, k: nat)
    ensures CharAt(a + b, |a| + k) == CharAt(b, k)
  {
  }

  lemma Begins(x: Written, base: nat, b: nat)
    requires Reads(x, base, b)
    ensures Begin(Whole(x), base) == Start(x.sign == "-", |x.space| + |x.sign| + |x.prefix|, b)
  {
    var d := x.digits + x.rest;
    var p := x.prefix + d;
    var u := x.sign + p;
    CharsOf(x.prefix, d, 0);
    CharsOf(x.prefix, d, 1);
    CharsOf(x.sign, p, 0);
    CharsOf(x.sign, p, 1);
    SkipsSpace(x.space, u, 0);
    CharsOf(x.space, u, 0);
    CharsOf(x.space, u, |x.sign|);
    CharsOf(x.space, u, |x.sign| + 1);
  }

  lemma DigitsIn(x: Written, b: nat)
    requires AreDigits(x.digits, b) && (x.rest == [] || !IsDigit(x.rest[0], b))
    ensures var at := |x.space| + |x.sign| + |x.prefix|;
            RunEnd(Whole(x), at, b) == at + |x.digits| && Whole(x)[at..at + |x.digits|] == x.digits
  {
    var s, at := Whole(x), |x.space| + |x.sign| + |x.prefix|;
    assert s[at..] == x.digits + x.rest;
    forall k | at <= k < at + |x.digits| ensures s[k] == x.digits[k - at] { assert s[k] == s[at..][k - at]; }
    if x.rest != [] { assert s[at + |x.digits|] == s[at..][|x.digits|]; }
    RunsTo(s, at, at + |x.digits|, b);
  }

  /** Strtoul reads the number that the digits stand for, with its sign and in 64 bits, and says that
      it ends behind its digits; it answers the largest number, and the start as the end, if they
      stand for more; and 0 if there are none. */
  lemma ReadsNumber(x: Written, base: nat, b: nat)
    requires Reads(x, base, b) && b >= 2 && (base == 0 || base >= 2)
    ensures var v := Value(x.digits, b);
            && Answer(Whole(x), base) == (if v > MAX then MAX else if x.sign == "-" && v > 0 then MAX + 1 - v else v)
            && End(Whole(x), base) == if x.digits == [] || v > MAX then 0
                                      else |x.space| + |x.sign| + |x.prefix| + |x.digits|
  {
    Begins(x, base, b);
    DigitsIn(x, b);
    AnswerOf(Whole(x), base, Begin(Whole(x), base), x.digits);
  }

  lemma AnswerOf(s: string, base: nat, start: Start, d: string)
    requires (base == 0 || base >= 2) && Begin(s, base) == start && start.base >= 2
    requires RunEnd(s, start.at, start.base) == start.at + |d| <= |s| && s[start.at..start.at + |d|] == d
    ensures AreDigits(d, start.base)
    ensures var v := Value(d, start.base);
            && Answer(s, base) == (if v > MAX then MAX else if start.neg && v > 0 then MAX + 1 - v else v)
            && End(s, base) == if d == [] || v > MAX then 0 else start.at + |d|
  {
    assert Strtoul.Numeral(s, start) == d;
  }

  // ----- digits with zeroes before them, in either case -----

  lemma {:induction false} ZeroesBefore(n: nat, s: string, base: nat)
    requires AreDigits(s, base) && base >= 2
    ensures AreDigits(Repeat('0', n) + s, base) && Value(Repeat('0', n) + s, base) == Value(s, base)
  {
    if n == 0 {
      assert Repeat('0', n) + s == s;
    } else {
      ZeroesBefore(n - 1, s, base);
      ValueZero(Repeat('0', n - 1) + s, base);
      assert Repeat('0', n) + s == "0" + (Repeat('0', n - 1) + s);
    }
  }

  lemma {:induction false} CasedValue(s: string, base: nat, upper: bool)
    requires AreDigits(s, base) && base <= 16
    ensures AreDigits(Cased(s, upper), base) && Value(Cased(s, upper), base) == Value(s, base)
  {
    forall k | 0 <= k < |s| ensures DigitOf(Cased(s, upper)[k]) == DigitOf(s[k]) { }
    if s != [] {
      var n := |s| - 1;
      CasedValue(s[..n], base, upper);
      assert Cased(s, upper)[..n] == Cased(s[..n], upper);
    }
  }

  /** How many digits a number has of itself. */
  function Natural(f: Spec): nat
    requires IsNumber(f.conv)
  {
    var v := Magnitude(f.conv);
    if v == 0 && f.prec == 0 then 0
    else |Digits(v, Radix(BaseOf(f.conv)))| + if BaseOf(f.conv) == Oct && f.alt && v != 0 then 1 else 0
  }

  lemma BodyDigits(f: Spec)
    requires IsNumber(f.conv)
    ensures var r := Radix(BaseOf(f.conv));
            AreDigits(Body(f), r) && Value(Body(f), r) == Magnitude(f.conv) && |Body(f)| == Natural(f)
  {
    var v, r, upper := Magnitude(f.conv), Radix(BaseOf(f.conv)), f.conv.Hexadecimal? && f.conv.upper;
    var d := Digits(v, r);
    DigitsValue(v, r);
    CasedValue(d, r, upper);
    NoLeadingZero(v, r);
    assert Cased(d, upper)[0] == '0' <==> d[0] == '0';
    ValueZero(Cased(d, upper), r);
  }

  // ----- number fields -----

  predicate SignOk(f: Spec) { f.sign == '\0' || f.sign == ' ' || f.sign == '+' }

  /** The number with its sign. */
  function NumberOf(conv: Conversion): int
    requires IsNumber(conv)
  {
    if conv.Signed? then conv.i else Magnitude(conv)
  }

  function InWord(i: int): int { if i < 0 then i + MAX + 1 else i }

  /** The zero flag counts: not with the flag -, and not with a precision. */
  predicate ZeroInEffect(f: Spec) { f.zeropad && !f.ladjust && f.prec < 0 }

  function Padding(f: Spec): int { f.width - |Core(f)| }

  // Padding outside on the left, between prefix and digits, and on the right.
  function LeftPad(f: Spec): string { if f.ladjust || ZeroInEffect(f) then "" else Repeat(' ', Padding(f)) }
  function InnerPad(f: Spec): string { if ZeroInEffect(f) then Repeat('0', Padding(f)) else "" }
  function RightPad(f: Spec): string { if f.ladjust then Repeat(' ', Padding(f)) else "" }

  function AllDigits(f: Spec): string { InnerPad(f) + (Zeroes(f) + Body(f)) }

  lemma RenderedAs(f: Spec)
    requires IsNumber(f.conv)
    ensures Render(f) == LeftPad(f) + (Prefix(f) + (AllDigits(f) + RightPad(f)))
  {
    var p, z, b := Prefix(f), Zeroes(f), Body(f);
    assert ZeroInEffect(f) <==> ZeroPadded(f) && !f.ladjust;
    Associates(p, z, b);
    if f.ladjust { OnTheRight(p, z + b, Repeat(' ', Padding(f))); }
    else if ZeroInEffect(f) { Inside(p, Repeat('0', Padding(f)), z, b); }
    else { OnTheLeft(Repeat(' ', Padding(f)), p, z + b); }
  }

  lemma OnTheRight(p: string, d: string, pad: string)
    ensures (p + d) + pad == "" + (p + (("" + d) + pad))
  {
  }

  lemma OnTheLeft(pad: string, p: string, d: string)
    ensures pad + (p + d) == pad + (p + (("" + d) + ""))
  {
    assert ("" + d) + "" == d;
  }

  lemma Inside(p: string, pad: string, z: string, b: string)
    ensures p + pad + z + b == "" + (p + ((pad + (z + b)) + ""))
  {
  }

  /** The field taken apart: blanks and a blank for a sign, sign, prefix, all digits, blanks. */
  function Apart(f: Spec): Written
    requires IsNumber(f.conv)
  {
    var p := Prefix(f);
    Written(if p == " " then LeftPad(f) + p else LeftPad(f), if f.conv.Signed? && p != " " then p else "",
            if f.conv.Signed? then "" else p, AllDigits(f), RightPad(f))
  }

  lemma Glued(left: string, p: string, u: string)
    ensures (left + p) + ("" + ("" + u)) == left + (p + u)
    ensures left + (p + ("" + u)) == left + (p + u)
    ensures left + ("" + (p + u)) == left + (p + u)
  {
    assert "" + u == u && "" + (p + u) == p + u && "" + ("" + u) == u;
    Associates(left, p, u);
  }

  lemma ApartWhole(f: Spec)
    requires IsNumber(f.conv)
    ensures Whole(Apart(f)) == Render(f)
  {
    RenderedAs(f);
    Glued(LeftPad(f), Prefix(f), AllDigits(f) + RightPad(f));
  }

  lemma AllDigitsRead(f: Spec)
    requires IsNumber(f.conv)
    ensures var r := Radix(BaseOf(f.conv)); AreDigits(AllDigits(f), r) && Value(AllDigits(f), r) == Magnitude(f.conv)
    ensures |AllDigits(f)| == |InnerPad(f)| + if f.prec > Natural(f) then f.prec else Natural(f)
  {
    var r := Radix(BaseOf(f.conv));
    BodyDigits(f);
    Zeroed(f.prec - |Body(f)|, Body(f), r);
    Zeroed(if ZeroInEffect(f) then Padding(f) else 0, Zeroes(f) + Body(f), r);
  }

  lemma Zeroed(n: int, s: string, base: nat)
    requires AreDigits(s, base) && base >= 2
    ensures AreDigits(Repeat('0', n) + s, base) && Value(Repeat('0', n) + s, base) == Value(s, base)
  {
    ZeroesBefore(if n > 0 then n else 0, s, base);
    assert Repeat('0', n) == Repeat('0', if n > 0 then n else 0);
  }

  /** Digits of a number are not taken for anything else, and blanks end them. */
  lemma PlainDigits(d: string, right: string, b: nat)
    requires AreDigits(d, b) && b <= 16 && (forall k :: 0 <= k < |right| ==> right[k] == ' ')
    ensures CharAt(d + right, 1) !in "xX" && (right == [] || !IsDigit(right[0], b))
    ensures d != [] || right == [] ==> !White(CharAt(d + right, 0)) && CharAt(d + right, 0) !in "+-"
  {
    assert |d| > 1 ==> IsDigit(d[1], b);
    assert d != [] ==> IsDigit(d[0], b);
  }

  lemma PrefixIs(f: Spec)
    requires IsNumber(f.conv) && SignOk(f)
    ensures f.conv.Signed? ==>
              Prefix(f) ==
                if f.conv.i < 0 then "-" else if f.sign == ' ' then " " else if f.sign == '+' then "+" else ""
    ensures !f.conv.Signed? ==>
              (Prefix(f) == "" || ((Prefix(f) == "0x" || Prefix(f) == "0X") && BaseOf(f.conv) == Hex))
  {
  }

  lemma ApartSigns(f: Spec)
    requires IsNumber(f.conv) && SignOk(f)
    ensures var x := Apart(f);
            && AllSpace(x.space) && (x.sign == "" || x.sign == "+" || x.sign == "-")
            && (x.sign == "-" <==> NumberOf(f.conv) < 0)
            && (x.prefix == [] || ((x.prefix == "0x" || x.prefix == "0X") && BaseOf(f.conv) == Hex))
  {
    PrefixIs(f);
    assert "-"[0] != " "[0] && "+"[0] != " "[0] && "-"[0] != "+"[0];
    if Prefix(f) == " " { assert AllSpace(LeftPad(f)) && AllSpace(" "); }
  }

  lemma ApartReads(f: Spec)
    requires IsNumber(f.conv) && SignOk(f)
    requires AllDigits(f) != [] || RightPad(f) == [] || Apart(f).sign != "" || Apart(f).prefix != ""
    ensures var r := Radix(BaseOf(f.conv)); Reads(Apart(f), r, r)
  {
    ApartSigns(f);
    AllDigitsRead(f);
    PlainDigits(AllDigits(f), RightPad(f), Radix(BaseOf(f.conv)));
  }

  lemma BlankReads(s: string, base: nat)
    requires AllSpace(s) && base >= 2
    ensures Answer(s, base) == 0
  {
    var x := Written(s, "", "", "", "");
    assert Whole(x) == s;
    ReadsNumber(x, base, base);
  }

  /** Without digits or a sign to show there are only blanks, but for the prefix of a pointer. */
  lemma NothingShown(f: Spec)
    requires IsNumber(f.conv) && SignOk(f) && AllDigits(f) == [] && Apart(f).sign == "" && Apart(f).prefix == ""
    ensures AllSpace(Render(f)) && Magnitude(f.conv) == 0
  {
    RenderedAs(f);
    AllDigitsRead(f);
  }

  /** Every number field is read back by strtoul in the base it is written in, whatever its flags,
      width and precision; a negative number as the 64-bit word it is. */
  lemma FieldReadsBack(f: Spec)
    requires IsNumber(f.conv) && ArgOk(f.conv) && SignOk(f)
    ensures Answer(Render(f), Radix(BaseOf(f.conv))) == InWord(NumberOf(f.conv))
  {
    var r := Radix(BaseOf(f.conv));
    if AllDigits(f) == [] && Apart(f).sign == "" && Apart(f).prefix == "" {
      NothingShown(f);
      BlankReads(Render(f), r);
    } else {
      ApartWhole(f);
      ApartReads(f);
      ApartSigns(f);
      AllDigitsRead(f);
      ReadsNumber(Apart(f), r, r);
    }
  }

  // ----- signs -----

  lemma {:induction false} OnlySpace(s: string, i: nat)
    requires AllSpace(s) && i <= |s|
    ensures AfterSpace(s, i) == |s|
    decreases |s| - i
  {
    if i < |s| { OnlySpace(s, i + 1); }
  }

  /** What stands behind the white space of a field: its sign, or its first digit, or nothing. */
  lemma FirstShown(f: Spec)
    requires f.conv.Signed? && SignOk(f)
    ensures var s := Render(f); var k := AfterSpace(s, 0);
            && k >= |Apart(f).space|
            && CharAt(s, k) == if Apart(f).sign != "" then Apart(f).sign[0] else CharAt(AllDigits(f), 0)
  {
    var x := Apart(f);
    ApartWhole(f);
    ApartSigns(f);
    AllDigitsRead(f);
    if x.sign == "" && x.digits == [] {
      NothingShown(f);
      OnlySpace(Render(f), 0);
    } else {
      PlainDigits(x.digits, x.rest, 10);
      FirstOf(x);
    }
  }

  lemma FirstOf(x: Written)
    requires AllSpace(x.space) && x.prefix == "" && (x.sign != "" || x.digits != [])
    requires (x.sign == "" || x.sign == "+" || x.sign == "-") && (x.digits != [] ==> !White(x.digits[0]))
    ensures AfterSpace(Whole(x), 0) == |x.space|
    ensures CharAt(Whole(x), |x.space|) == if x.sign != "" then x.sign[0] else x.digits[0]
  {
    var u := x.sign + (x.prefix + (x.digits + x.rest));
    assert CharAt(u, 0) == if x.sign != "" then x.sign[0] else x.digits[0];
    SkipsSpace(x.space, u, 0);
    CharsOf(x.space, u, 0);
  }

  /** A signed field shows a minus exactly for a negative number, a plus exactly for another one with
      the flag +, each in front of the digits, and a blank there with the flag ' '. */
  lemma SignShown(f: Spec)
    requires f.conv.Signed? && SignOk(f)
    ensures var s := Render(f); var c := CharAt(s, AfterSpace(s, 0));
            && (c == '-' <==> f.conv.i < 0)
            && (c == '+' <==> f.conv.i >= 0 && f.sign == '+')
            && (f.conv.i >= 0 && f.sign == ' ' ==> AfterSpace(s, 0) > 0)
  {
    FirstShown(f);
    PrefixIs(f);
    AllDigitsRead(f);
    assert AllDigits(f) != [] ==> IsDigit(AllDigits(f)[0], 10);
  }

  // ----- padding -----

  /** The field without padding. */
  function Bare(f: Spec): Spec { f.(width := 0) }

  lemma BareParts(f: Spec)
    ensures var g := Bare(f); Prefix(g) == Prefix(f) && Zeroes(g) == Zeroes(f) && Body(g) == Body(f)
  {
  }

  lemma BareIs(f: Spec)
    ensures Render(Bare(f)) == Core(f)
  {
    var g := Bare(f);
    BareParts(f);
    var p, z, b := Prefix(g), Zeroes(g), Body(g);
    assert Repeat(' ', -|Core(g)|) == [] && Repeat('0', -|Core(g)|) == [];
    NothingAdded(p, z, b);
  }

  lemma NothingAdded(p: string, z: string, b: string)
    ensures (p + z + b) + [] == p + z + b && [] + (p + z + b) == p + z + b && p + [] + z + b == p + z + b
  {
    assert p + [] == p;
  }

  /** A field is padded to its width and not further: on the right with blanks, with the flag -; else
      on the left, with blanks unless the flag 0 is in effect. */
  lemma Padded(f: Spec)
    ensures var bare := Render(Bare(f)); var pad := f.width - |bare|;
            && |Render(f)| == (if pad > 0 then f.width else |bare|)
            && (f.ladjust ==> Render(f) == bare + Repeat(' ', pad))
            && (!f.ladjust && (!f.zeropad || (IsNumber(f.conv) && f.prec >= 0)) ==>
                  Render(f) == Repeat(' ', pad) + bare)
            && (!f.ladjust && f.zeropad && !IsNumber(f.conv) ==> Render(f) == Repeat('0', pad) + bare)
  {
    BareIs(f);
    PaddedCore(f, Render(Bare(f)));
  }

  lemma PaddedCore(f: Spec, core: string)
    requires core == Core(f)
    ensures var pad := f.width - |core|;
            && |Render(f)| == (if pad > 0 then f.width else |core|)
            && (f.ladjust ==> Render(f) == core + Repeat(' ', pad))
            && (!f.ladjust && (!f.zeropad || (IsNumber(f.conv) && f.prec >= 0)) ==>
                  Render(f) == Repeat(' ', pad) + core)
            && (!f.ladjust && f.zeropad && !IsNumber(f.conv) ==> Render(f) == Repeat('0', pad) + core)
  {
    if !f.ladjust && f.zeropad && !IsNumber(f.conv) { ZeroesBeforeText(f, core); }
  }

  lemma ZeroesBeforeText(f: Spec, core: string)
    requires !f.ladjust && f.zeropad && !IsNumber(f.conv) && core == Core(f)
    ensures Render(f) == Repeat('0', f.width - |core|) + core
  {
    var pad := Repeat('0', f.width - |core|);
    assert Prefix(f) == [] && Zeroes(f) == [];
    assert [] + pad + [] + Body(f) == pad + ([] + [] + Body(f));
  }

  lemma NoBlankDigits(d: string, b: nat)
    requires AreDigits(d, b)
    ensures ' ' !in d
  {
    forall k | 0 <= k < |d| ensures d[k] != ' ' { assert IsDigit(d[k], b); }
  }

  /** The only blank is that of the flag ' ', before a number that is not negative. */
  ghost predicate BlankForSign(s: string, f: Spec) {
    forall k :: 0 <= k < |s| && s[k] == ' ' ==> k == 0 && f.conv.Signed? && f.conv.i >= 0 && f.sign == ' '
  }

  lemma BlankInPrefix(f: Spec, d: string)
    requires IsNumber(f.conv) && SignOk(f) && ' ' !in d
    ensures BlankForSign(Prefix(f) + d, f)
  {
    PrefixIs(f);
    forall k | |Prefix(f)| <= k < |Prefix(f) + d| ensures (Prefix(f) + d)[k] != ' ' {
      assert (Prefix(f) + d)[k] == d[k - |Prefix(f)|];
    }
  }

  /** A number without padding has no blank but that of the flag ' ', and with the flag 0 in effect
      the padding has none either. */
  lemma NoBlanks(f: Spec)
    requires IsNumber(f.conv) && SignOk(f)
    ensures BlankForSign(Render(Bare(f)), f)
    ensures ZeroInEffect(f) ==> BlankForSign(Render(f), f)
  {
    BareIs(f);
    BodyDigits(f);
    NoBlankDigits(Body(f), Radix(BaseOf(f.conv)));
    Associates(Prefix(f), Zeroes(f), Body(f));
    BlankInPrefix(f, Zeroes(f) + Body(f));
    if ZeroInEffect(f) { NoBlanksInside(f); }
  }

  lemma NoBlanksInside(f: Spec)
    requires IsNumber(f.conv) && SignOk(f) && ZeroInEffect(f) && ' ' !in Body(f)
    ensures BlankForSign(Render(f), f)
  {
    var pad := Repeat('0', f.width - |Core(f)|);
    assert Prefix(f) + pad + Zeroes(f) + Body(f) == Prefix(f) + (pad + Zeroes(f) + Body(f));
    BlankInPrefix(f, pad + Zeroes(f) + Body(f));
  }

  /** As many digits as the precision asks for, and no more than that or the number needs. */
  lemma DigitsShown(f: Spec)
    requires IsNumber(f.conv) && SignOk(f)
    ensures |Render(Bare(f))| == |Prefix(f)| + if f.prec > Natural(f) then f.prec else Natural(f)
  {
    BareIs(f);
    BodyDigits(f);
  }

  /** A string field shows the string, cut at the precision. */
  lemma TextShown(f: Spec)
    requires f.conv.Text?
    ensures var t := Render(Bare(f)); t <= f.conv.s && |t| == if 0 <= f.prec < |f.conv.s| then f.prec else |f.conv.s|
  {
    BareIs(f);
    assert Core(f) == Body(f);
  }

  lemma CharShown(f: Spec)
    requires f.conv.Single?
    ensures Render(Bare(f)) == [f.conv.c]
  {
    BareIs(f);
    assert Core(f) == Body(f);
  }

  predicate OfCase(s: string, upper: bool) {
    forall k :: 0 <= k < |s| ==> if upper then !('a' <= s[k] <= 'z') else !('A' <= s[k] <= 'Z')
  }

  lemma HexDigits(f: Spec)
    requires f.conv.Hexadecimal? || f.conv.Pointer?
    ensures AreDigits(Zeroes(f) + Body(f), 16)
    ensures OfCase(Zeroes(f) + Body(f), f.conv.Hexadecimal? && f.conv.upper)
  {
    BodyDigits(f);
    Zeroed(f.prec - |Body(f)|, Body(f), 16);
    DigitsLower(Magnitude(f.conv));
    CasedCase(Digits(Magnitude(f.conv), 16), f.conv.Hexadecimal? && f.conv.upper);
  }

  lemma CasedCase(d: string, upper: bool)
    requires forall k :: 0 <= k < |d| ==> !('A' <= d[k] <= 'Z') && d[k] <= 'f'
    ensures OfCase(Cased(d, upper), upper)
  {
  }

  lemma Prefixed(p: string, d: string, upper: bool)
    requires AreDigits(d, 16) && OfCase(d, upper) && (p == "" || p == if upper then "0X" else "0x")
    ensures OfCase(p + d, upper) && (p != "" <==> |p + d| > 1 && (p + d)[1] in "xX")
  {
    assert |d| > 1 ==> IsDigit(d[1], 16);
  }

  /** Hexadecimal digits are of the case asked for, and 0x or 0X goes before them exactly in the
      alternate form of a number other than zero, and for a pointer. */
  lemma HexShown(f: Spec)
    requires f.conv.Hexadecimal? || f.conv.Pointer?
    ensures var s := Render(Bare(f));
            && OfCase(s, f.conv.Hexadecimal? && f.conv.upper)
            && ((f.conv.Pointer? || (f.alt && f.conv.h != 0)) <==> |s| > 1 && s[1] in "xX")
  {
    BareIs(f);
    HexDigits(f);
    Associates(Prefix(f), Zeroes(f), Body(f));
    Prefixed(Prefix(f), Zeroes(f) + Body(f), f.conv.Hexadecimal? && f.conv.upper);
  }

  lemma {:induction false} DigitsLower(v: nat)
    ensures forall k :: 0 <= k < |Digits(v, 16)| ==> !('A' <= Digits(v, 16)[k] <= 'Z') && Digits(v, 16)[k] <= 'f'
  {
    if v >= 16 { DigitsLower(v / 16); }
  }
}
