/** bmk_strtoul of lib/libbmk_core/strtoul.c, and the numerals that kprintf writes for it to
    read. */
module Strtoul {
  import opened Bits

  const MAX: nat := 0xFFFF_FFFF_FFFF_FFFF

  /** A C string: its characters, then NUL. */
  function CharAt(s: string, i: nat): char { if i < |s| then s[i] else '\0' }

  /** The value of a digit or letter, or -1. */
  function DigitOf(c: char): (d: int)
    ensures -1 <= d < 36
  {
    if '0' <= c <= '9' then c as int - '0' as int
    else if 'a' <= c <= 'z' then c as int - 'a' as int + 10
    else if 'A' <= c <= 'Z' then c as int - 'A' as int + 10
    else -1
  }

  predicate IsDigit(c: char, base: nat) { 0 <= DigitOf(c) < base }

  predicate IsSpace(c: char) { c == ' ' || '\t' <= c <= '\r' }

  // ----- what is read -----

  function AfterSpace(s: string, i: nat): (j: nat)
    ensures i <= j && (i <= |s| ==> j <= |s|) && !IsSpace(CharAt(s, j))
    decreases |s| - i
  {
    if IsSpace(CharAt(s, i)) then AfterSpace(s, i + 1) else i
  }

  /** The end of the run of digits from i. */
  function RunEnd(s: string, i: nat, base: nat): (j: nat)
    ensures i <= j && (i <= |s| ==> j <= |s|) && !IsDigit(CharAt(s, j), base)
    ensures forall k :: i <= k < j ==> k < |s| && IsDigit(s[k], base)
    decreases |s| - i
  {
    if i < |s| && IsDigit(s[i], base) then RunEnd(s, i + 1, base) else (assert !IsDigit('\0', base); i)
  }

  predicate AreDigits(s: string, base: nat) { forall k :: 0 <= k < |s| ==> IsDigit(s[k], base) }

  /** The number that a string of digits stands for. */
  function Value(s: string, base: nat): nat
    requires AreDigits(s, base)
  {
    if s == [] then 0 else Value(s[..|s| - 1], base) * base + DigitOf(s[|s| - 1])
  }

  /** Sign, prefix and base: where the digits start and how they are read. */
  datatype Start = Start(neg: bool, at: nat, base: nat)

  function Begin(s: string, base: nat): (b: Start)
    ensures b.at <= |s| && (base == 0 || base >= 2 ==> b.base >= 2)
  {
    var i := AfterSpace(s, 0);
    var neg := CharAt(s, i) == '-';
    var j := if neg || CharAt(s, i) == '+' then i + 1 else i;
    if (base == 0 || base == 16) && CharAt(s, j) == '0' && (CharAt(s, j + 1) == 'x' || CharAt(s, j + 1) == 'X') then
      Start(neg, j + 2, 16)
    else Start(neg, j, if base == 0 then (if CharAt(s, j) == '0' then 8 else 10) else base)
  }

  /** The digits of the number, its value, and where it ends. */
  function Numeral(s: string, b: Start): (n: string)
    requires b.base >= 2 && b.at <= |s|
    ensures AreDigits(n, b.base)
  {
    s[b.at..RunEnd(s, b.at, b.base)]
  }

  /** What bmk_strtoul answers: the value, MAX if it is larger, the negation in 64 bits if there is
      a minus sign. */
  function Answer(s: string, base: nat): nat
    requires base == 0 || base >= 2
  {
    var b := Begin(s, base);
    var v := Value(Numeral(s, b), b.base);
    if v > MAX then MAX else if b.neg && v > 0 then MAX + 1 - v else v
  }

  /** Where it says that the number ends: at the start if there was none, or too large a one. */
  function End(s: string, base: nat): nat
    requires base == 0 || base >= 2
  {
    var b := Begin(s, base);
    var n := Numeral(s, b);
    if n == [] || Value(n, b.base) > MAX then 0 else b.at + |n|
  }

  // ----- the loop -----

  lemma {:induction false} ValueGrows(s: string, k: nat, base: nat)
    requires AreDigits(s, base) && k <= |s| && base >= 2
    ensures Value(s[..k], base) <= Value(s, base)
    decreases |s|
  {
    if k < |s| {
      var t := s[..|s| - 1];
      ValueGrows(t, k, base);
      assert t[..k] == s[..k];
      MulMono(1, base, Value(t, base));
    } else { assert s[..k] == s; }
  }

  lemma ValueNext(s: string, k: nat, base: nat)
    requires AreDigits(s, base) && k < |s|
    ensures Value(s[..k + 1], base) == Value(s[..k], base) * base + DigitOf(s[k])
  {
    assert s[..k + 1][..k] == s[..k];
  }

  /** The overflow test: acc * base + d exceeds MAX exactly if acc exceeds the cutoff, or equals it
      and d exceeds the limit. */
  lemma Cutoff(acc: nat, base: nat, d: nat)
    requires base >= 2 && d < base
    ensures acc * base + d > MAX <==> acc > MAX / base || (acc == MAX / base && d > MAX % base)
  {
    var q, r := MAX / base, MAX % base;
    assert MAX == q * base + r;
    if acc > q { MulMono(q + 1, acc, base); }
    else if acc < q { MulMono(acc + 1, q, base); }
  }

  /** The digit loop: it stops at the first character that is no digit, or gives up at the first
      digit that takes the value beyond MAX. */
  method ReadDigits(s: string, i: nat, base: nat) returns (acc: nat, any: bool, j: nat)
    requires base >= 2 && i <= |s|
    ensures var n := Numeral(s, Start(false, i, base));
            if Value(n, base) > MAX then acc == MAX && !any
            else acc == Value(n, base) && any == (n != []) && j == i + |n|
  {
    ghost var n := Numeral(s, Start(false, i, base));
    ghost var e := RunEnd(s, i, base);
    acc, any, j := 0, false, i;
    while IsDigit(CharAt(s, j), base)
      invariant i <= j <= e && n[..j - i] == s[i..j] && acc == Value(n[..j - i], base) <= MAX && any == (j > i)
      decreases e - j
    {
      var d := DigitOf(CharAt(s, j));
      Cutoff(acc, base, d);
      ValueNext(n, j - i, base);
      ValueGrows(n, j - i + 1, base);
      if acc > MAX / base || (acc == MAX / base && d > MAX % base) { return MAX, false, j; }
      any := true;
      acc := acc * base + d;
      j := j + 1;
    }
    assert n[..j - i] == n;
  }

  /** White space, sign, prefix and base. */
  method ReadStart(s: string, base0: nat) returns (b: Start)
    requires base0 == 0 || 2 <= base0 <= 36
    ensures b == Begin(s, base0)
  {
    var i := 0;
    while IsSpace(CharAt(s, i))
      invariant i <= |s| && AfterSpace(s, i) == AfterSpace(s, 0)
      decreases |s| - i
    {
      i := i + 1;
    }
    var neg, base := false, base0;
    if CharAt(s, i) == '-' {
      neg := true;
      i := i + 1;
    } else if CharAt(s, i) == '+' { i := i + 1; }
    if (base == 0 || base == 16) && CharAt(s, i) == '0' && (CharAt(s, i + 1) == 'x' || CharAt(s, i + 1) == 'X') {
      i := i + 2;
      base := 16;
    }
    if base == 0 { base := if CharAt(s, i) == '0' then 8 else 10; }
    return Start(neg, i, base);
  }

  /** bmk_strtoul. */
  method Strtoul(s: string, base0: nat) returns (acc: nat, end: nat)
    requires base0 == 0 || 2 <= base0 <= 36
    ensures acc == Answer(s, base0) && end == End(s, base0)
  {
    var b := ReadStart(s, base0);
    var any, j;
    acc, any, j := ReadDigits(s, b.at, b.base);
    if b.neg && any { acc := if acc == 0 then 0 else MAX + 1 - acc; }
    end := if any then j else 0;
  }

  // ----- the numerals that are written -----

  function DigitChar(d: nat): (c: char)
    requires d < 16
    ensures DigitOf(c) == d && c != 'x' && c != 'X' && !IsSpace(c) && c != '-' && c != '+' && (c == '0' <==> d == 0)
  {
    ['0', '1', '2', '3', '4', '5', '6', '7', '8', '9', 'a', 'b', 'c', 'd', 'e', 'f'][d]
  }

  /** The digits of v. */
  function Digits(v: nat, base: nat): (s: string)
    requires 2 <= base <= 16
    ensures s != [] && AreDigits(s, base)
  {
    if v < base then [DigitChar(v)] else Digits(v / base, base) + [DigitChar(v % base)]
  }

  lemma Appended(t: string, c: char, base: nat)
    requires AreDigits(t, base) && IsDigit(c, base)
    ensures AreDigits(t + [c], base) && Value(t + [c], base) == Value(t, base) * base + DigitOf(c)
  {
    assert (t + [c])[..|t|] == t;
  }

  lemma DivMod(v: nat, base: nat)
    requires base > 1
    ensures v / base * base + v % base == v && v % base < base && (v > 0 ==> v / base < v)
  {
    var q, r := v / base, v % base;
    assert v == q * base + r;
    MulMono(2, base, q);
  }

  /** They stand for v. */
  lemma {:induction false} DigitsValue(v: nat, base: nat)
    requires 2 <= base <= 16
    ensures Value(Digits(v, base), base) == v
  {
    DivMod(v, base);
    var q, r := v / base, v % base;
    if v < base { Appended([], DigitChar(v), base); }
    else {
      DigitsValue(q, base);
      Appended(Digits(q, base), DigitChar(r), base);
    }
  }

  /** Only zero is written with a leading zero. */
  lemma {:induction false} NoLeadingZero(v: nat, base: nat)
    requires 2 <= base <= 16
    ensures Digits(v, base)[0] == '0' <==> v == 0
  {
    if v >= base {
      DivMod(v, base);
      NoLeadingZero(v / base, base);
      assert Digits(v, base)[0] == Digits(v / base, base)[0];
    }
  }

  predicate Plain(c: char) { c != 'x' && c != 'X' && !IsSpace(c) && c != '-' && c != '+' }

  /** No digit is taken for white space, a sign or the x of a prefix. */
  lemma {:induction false} DigitsPlain(v: nat, base: nat)
    requires 2 <= base <= 16
    ensures forall k :: 0 <= k < |Digits(v, base)| ==> Plain(Digits(v, base)[k])
  {
    if v >= base { DigitsPlain(v / base, base); }
  }

  lemma {:induction false} RunIs(s: string, i: nat, base: nat)
    requires i <= |s| && AreDigits(s[i..], base)
    ensures RunEnd(s, i, base) == |s|
    decreases |s| - i
  {
    if i < |s| {
      assert s[i] == s[i..][0] && s[i + 1..] == s[i..][1..];
      RunIs(s, i + 1, base);
    }
  }

  /** Digits after a prefix that Begin skips are read as the whole number. */
  lemma ReadsBack(s: string, base: nat, at: nat, b: nat, v: nat)
    requires (base == 0 || base >= 2) && Begin(s, base) == Start(false, at, b) && 2 <= b <= 16 && at <= |s|
    requires s[at..] == Digits(v, b) && v <= MAX
    ensures Answer(s, base) == v && End(s, base) == |s|
  {
    RunIs(s, at, b);
    DigitsValue(v, b);
    assert s[at..|s|] == s[at..];
  }

  /** Decimal, octal and hexadecimal, read in their own base. */
  lemma RoundTrip(v: nat, base: nat)
    requires v <= MAX && (base == 8 || base == 10 || base == 16)
    ensures Answer(Digits(v, base), base) == v && End(Digits(v, base), base) == |Digits(v, base)|
  {
    DigitsPlain(v, base);
    var s := Digits(v, base);
    assert Plain(s[0]) && (|s| > 1 ==> Plain(s[1]));
    assert s[0..] == s;
    ReadsBack(s, base, 0, base, v);
  }

  /** The alternate forms, and plain decimal, read with the base left open. */
  lemma RoundTripOpen(v: nat)
    requires v <= MAX
    ensures Answer(Digits(v, 10), 0) == v && End(Digits(v, 10), 0) == |Digits(v, 10)|
    ensures Answer("0" + Digits(v, 8), 0) == v && End("0" + Digits(v, 8), 0) == 1 + |Digits(v, 8)|
    ensures Answer("0x" + Digits(v, 16), 0) == v && End("0x" + Digits(v, 16), 0) == 2 + |Digits(v, 16)|
  {
    OpenDecimal(v);
    OpenOctal(v);
    var s := "0x" + Digits(v, 16);
    assert s[2..] == Digits(v, 16);
    ReadsBack(s, 0, 2, 16, v);
  }

  lemma OpenDecimal(v: nat)
    requires v <= MAX
    ensures Answer(Digits(v, 10), 0) == v && End(Digits(v, 10), 0) == |Digits(v, 10)|
  {
    var s := Digits(v, 10);
    NoLeadingZero(v, 10);
    DigitsPlain(v, 10);
    assert Plain(s[0]) && (|s| > 1 ==> Plain(s[1]));
    assert s[0..] == s;
    if v > 0 { ReadsBack(s, 0, 0, 10, v); } else { ReadsBack(s, 0, 0, 8, v); }
  }

  lemma {:induction false} ValueZero(s: string, base: nat)
    requires AreDigits(s, base) && base >= 2
    ensures AreDigits("0" + s, base) && Value("0" + s, base) == Value(s, base)
  {
    var t := "0" + s;
    if s != [] {
      assert t[..|t| - 1] == "0" + s[..|s| - 1];
      ValueZero(s[..|s| - 1], base);
    } else { assert t[..0] == []; }
  }

  lemma OpenOctal(v: nat)
    requires v <= MAX
    ensures Answer("0" + Digits(v, 8), 0) == v && End("0" + Digits(v, 8), 0) == 1 + |Digits(v, 8)|
  {
    var s := "0" + Digits(v, 8);
    DigitsPlain(v, 8);
    assert Plain(s[1]);
    ValueZero(Digits(v, 8), 8);
    assert s[0..] == s && s[0..|s|] == s;
    assert Begin(s, 0) == Start(false, 0, 8);
    RunIs(s, 0, 8);
    DigitsValue(v, 8);
  }

  // ----- how long they are -----

  function Power(base: nat, n: nat): nat { if n == 0 then 1 else base * Power(base, n - 1) }

  lemma {:induction false} DigitsLength(v: nat, base: nat, n: nat)
    requires 2 <= base <= 16 && n > 0 && v < Power(base, n)
    ensures |Digits(v, base)| <= n
  {
    DivMod(v, base);
    var q := v / base;
    if n == 1 { assert Power(base, 0) == 1; }
    else if v >= base {
      QuotientBelow(v, base, Power(base, n - 1));
      DigitsLength(q, base, n - 1);
    }
  }

  lemma QuotientBelow(v: nat, base: nat, p: nat)
    requires base > 0 && v < base * p
    ensures v / base < p
  {
    if v / base >= p { MulMono(p, v / base, base); }
  }

  /** KPRINTF_BUFSIZE. */
  const BUFSIZE: nat := 64 / 3 + 2

  /** Every 64-bit number fits the buffer in each base, octal with its leading zero. */
  lemma FitsBuffer(v: nat)
    requires v <= MAX
    ensures |Digits(v, 8)| + 1 <= BUFSIZE && |Digits(v, 10)| <= BUFSIZE && |Digits(v, 16)| <= BUFSIZE
  {
    Powers();
    DigitsLength(v, 8, 22);
    DigitsLength(v, 10, 20);
    DigitsLength(v, 16, 16);
  }

  lemma {:induction false} PowerAdd(base: nat, m: nat, n: nat)
    ensures Power(base, m + n) == Power(base, m) * Power(base, n)
  {
    if m > 0 {
      PowerAdd(base, m - 1, n);
      MulAssociates(base, Power(base, m - 1), Power(base, n));
    }
  }

  lemma MulAssociates(a: int, b: int, c: int)
    ensures a * (b * c) == (a * b) * c
  {
  }

  lemma Powers()
    ensures MAX < Power(8, 22) && MAX < Power(10, 20) && MAX < Power(16, 16)
  {
    assert Power(8, 5) == 32768;
    PowerAdd(8, 5, 5);
    PowerAdd(8, 10, 10);
    PowerAdd(8, 2, 20);
    assert Power(10, 5) == 100000;
    PowerAdd(10, 5, 5);
    PowerAdd(10, 10, 10);
    assert Power(16, 4) == 65536;
    PowerAdd(16, 4, 4);
    PowerAdd(16, 8, 8);
  }
}
