/** kprintf and bmk_vsnprintf of lib/libbmk_core/subr_prf.c: the scan of the format and the output of
    its pieces, in one loop. */
module Kprintf {
  import opened Strtoul
  import opened Printf
  import opened Format

  // ----- the scan of one conversion specification; s is what fmt points to -----

  /** The loops over the digits of a width or precision. */
  method ReadNumber(s0: string) returns (n: nat, s: string)
    ensures (n, s) == Number(s0, 0)
  {
    n, s := 0, s0;
    while s != [] && IsDecimal(s[0])
      invariant Number(s, n) == Number(s0, 0)
      decreases |s|
    {
      n := 10 * n + (s[0] as int - '0' as int);
      s := s[1..];
    }
  }

  /** One turn of the switch. */
  method Take(s: string, fl: Flags, args: seq<Arg>) returns (t: Turn)
    ensures t == Switch(s, fl, args)
  {
    if s != [] && s[0] == '.' && !(|s| > 1 && s[1] == '*') {
      var n, after := ReadNumber(s[1..]);
      t := if n > INT_MAX then Undefined else Again(after, fl.(prec := n), args);
    } else if s != [] && '1' <= s[0] <= '9' {
      var n, after := ReadNumber(s);
      t := if n > INT_MAX then Undefined else Again(after, fl.(width := n), args);
    } else {
      t := Switch(s, fl, args);
    }
  }

  lemma DirectiveTurn(s: string, fl: Flags, args: seq<Arg>)
    ensures var t := Switch(s, fl, args);
            Directive(s, fl, args) == if t.Again? then Directive(t.rest, t.fl, t.args) else t
  {
  }

  /** The turns of the switch. */
  method Turns(s0: string, args: seq<Arg>) returns (t: Turn)
    ensures t == Directive(s0, PLAIN, args)
  {
    t := Again(s0, PLAIN, args);
    while t.Again?
      invariant Directive(s0, PLAIN, args) == if t.Again? then Directive(t.rest, t.fl, t.args) else t
      decreases t.Again?, if t.Again? then |t.rest| else 0
    {
      DirectiveTurn(t.rest, t.fl, t.args);
      t := Take(t.rest, t.fl, t.args);
    }
  }

  // ----- the loop as a whole -----

  /** out, and then what s with args puts out, make up the goal. */
  ghost predicate Reaches(s: string, args: seq<Arg>, out: string, goal: string) {
    Scan(s, args).Pieces? && out + RenderAll(Scan(s, args).ps) == goal
  }

  predicate AtEnd(s: string) { s == [] || s[0] == '\0' }

  lemma Further(out: string, p: Piece, ps: seq<Piece>, goal: string)
    requires out + RenderAll([p] + ps) == goal
    ensures (out + RenderPiece(p)) + RenderAll(ps) == goal
  {
    RenderCons(p, ps);
    Associates(out, RenderPiece(p), RenderAll(ps));
  }

  lemma LiteralStep(s: string, args: seq<Arg>, out: string, goal: string)
    requires !AtEnd(s) && s[0] != '%' && Reaches(s, args, out, goal)
    ensures Reaches(s[1..], args, out + [s[0]], goal)
  {
    Further(out, Literal(s[0]), Scan(s[1..], args).ps, goal);
  }

  lemma EndStep(s: string, args: seq<Arg>, out: string, goal: string)
    requires AtEnd(s) && Reaches(s, args, out, goal)
    ensures out == goal
  {
    assert out + [] == out;
  }

  lemma DirectiveStep(s: string, args: seq<Arg>, out: string, goal: string, t: Turn)
    requires !AtEnd(s) && s[0] == '%' && Reaches(s, args, out, goal) && t == Directive(s[1..], PLAIN, args)
    ensures t.Conv? || t.Count? || t.Stop?
    ensures t.Conv? ==> Reaches(t.rest, t.args, out + Render(t.spec), goal)
    ensures t.Count? ==> Reaches(t.rest, t.args, out, goal)
    ensures t.Stop? ==> out == goal
  {
    if t.Conv? { Further(out, Field(t.spec), Scan(t.rest, t.args).ps, goal); }
    else if t.Stop? { assert out + [] == out; }
  }

  // ----- the output -----

  /** A buffer of some size behind a stream of characters: `out` is all that was put, and the
      buffer holds as much of its start as fits. */
  class Sink {
    const buf: array<char>
    var n: nat
    ghost var out: string

    ghost predicate Valid()
      reads this, buf
    {
      n == (if |out| < buf.Length then |out| else buf.Length) && buf[..n] == out[..n]
    }

    constructor (buf: array<char>)
      ensures Valid() && this.buf == buf && out == []
    {
      this.buf := buf;
      n := 0;
      out := [];
    }

    /** KPRINTF_PUTCHAR. */
    method Put(c: char)
      requires Valid()
      modifies this, buf
      ensures Valid() && out == old(out) + [c]
    {
      if n < buf.Length {
        buf[n] := c;
        n := n + 1;
      }
      out := out + [c];
    }

    method PutMany(c: char, n: int)
      requires Valid()
      modifies this, buf
      ensures Valid() && out == old(out) + Repeat(c, n)
    {
      var k := n;
      ghost var done := 0;
      while k > 0
        invariant Valid() && (n > 0 ==> 0 <= k && done == n - k) && (n <= 0 ==> done == 0) &&
                  out == old(out) + Repeat(c, done)
      {
        Put(c);
        done := done + 1;
        k := k - 1;
      }
    }

    method PutAll(s: string)
      requires Valid()
      modifies this, buf
      ensures Valid() && out == old(out) + s
    {
      var i := 0;
      while i < |s|
        invariant i <= |s| && Valid() && out == old(out) + s[..i]
      {
        Put(s[i]);
        i := i + 1;
      }
    }

    /** The end of kprintf's loop for one conversion, given its characters, its prefix and whether
        it is padded with zeroes; it answers the width it has taken. */
    method Emit(f: Spec, body: string, prefix: string, dprec: int, zeropad: bool) returns (w: nat)
      requires Valid() && body == Body(f) && prefix == Prefix(f) && dprec == (if IsNumber(f.conv) then f.prec else 0)
      requires zeropad == ZeroPadded(f)
      modifies this, buf
      ensures Valid() && out == old(out) + Render(f) && w == |Render(f)|
    {
      var size := |body|;
      var realsz := (if dprec > size then dprec else size) + |prefix|;
      CoreLength(f);
      var pad := f.width - realsz;
      w := if pad > 0 then f.width else realsz;
      PutMany(' ', if !f.ladjust && !zeropad then pad else 0);
      PutAll(prefix);
      PutMany('0', if !f.ladjust && zeropad then pad else 0);
      PutMany('0', dprec - size);
      PutAll(body);
      PutMany(' ', if f.ladjust then pad else 0);
      RenderParts(f, old(out));
    }

    /** One conversion specification of kprintf. */
    method PutField(f: Spec) returns (w: nat)
      requires Valid() && ArgOk(f.conv)
      modifies this, buf
      ensures Valid() && out == old(out) + Render(f) && w == |Render(f)|
    {
      var body: string, prefix: string, dprec, zeropad := [], [], 0, f.zeropad;
      if f.conv.Text? { body := if 0 <= f.prec < |f.conv.s| then f.conv.s[..f.prec] else f.conv.s; }
      else if f.conv.Single? { body := [f.conv.c]; }
      else {
        var upper := f.conv.Hexadecimal? && f.conv.upper;
        var sign := if f.conv.Signed? then (if f.conv.i < 0 then '-' else f.sign) else '\0';
        dprec := f.prec;
        if dprec >= 0 { zeropad := false; }
        if Magnitude(f.conv) != 0 || f.prec != 0 {
          body := WriteNumeral(Magnitude(f.conv), BaseOf(f.conv), upper, f.alt);
        }
        if sign != '\0' { prefix := [sign]; }
        else if f.conv.Pointer? || (f.conv.Hexadecimal? && f.alt && f.conv.h != 0) {
          prefix := ['0', if upper then 'X' else 'x'];
        }
      }
      w := Emit(f, body, prefix, dprec, zeropad);
    }

    /** The literal characters up to the next %. */
    method Literals(s0: string, args: seq<Arg>, ghost goal: string) returns (s: string, w: nat)
      requires Valid() && Reaches(s0, args, out, goal)
      modifies this, buf
      ensures Valid() && Reaches(s, args, out, goal) && |s| <= |s0| && |out| == |old(out)| + w
      ensures AtEnd(s) || s[0] == '%'
    {
      s, w := s0, 0;
      while !AtEnd(s) && s[0] != '%'
        invariant Valid() && Reaches(s, args, out, goal) && |s| <= |s0| && |out| == |old(out)| + w
        decreases |s|
      {
        LiteralStep(s, args, out, goal);
        Put(s[0]);
        w := w + 1;
        s := s[1..];
      }
    }

    /** One conversion specification; the answer is what is left, or nothing if the format ends in
        the middle of it. */
    method Directed(s: string, args: seq<Arg>, ghost goal: string) returns (rest: string, left: seq<Arg>, w: nat)
      requires Valid() && !AtEnd(s) && s[0] == '%' && Reaches(s, args, out, goal)
      modifies this, buf
      ensures Valid() && Reaches(rest, left, out, goal) && |rest| < |s| && |out| == |old(out)| + w
    {
      var t := Turns(s[1..], args);
      DirectiveStep(s, args, out, goal, t);
      w := 0;
      if t.Stop? {
        assert out + [] == out;
        return "", [], 0;
      }
      if t.Conv? { w := PutField(t.spec); }
      rest, left := t.rest, t.args;
    }

    /** kprintf: the characters of the format and its conversions, in order; the answer is how many. */
    method Kprintf(fmt: string, args: seq<Arg>) returns (ret: nat)
      requires Valid() && out == [] && Scan(fmt, args).Pieces?
      modifies this, buf
      ensures Valid() && out == RenderAll(Scan(fmt, args).ps) && ret == |out|
    {
      ghost var goal := RenderAll(Scan(fmt, args).ps);
      assert [] + goal == goal;
      var s, ap, w := fmt, args, 0;
      s, ret := Literals(s, ap, goal);
      while !AtEnd(s)
        invariant Valid() && Reaches(s, ap, out, goal) && ret == |out| && (AtEnd(s) || s[0] == '%')
        decreases |s|
      {
        s, ap, w := Directed(s, ap, goal);
        ret := ret + w;
        s, w := Literals(s, ap, goal);
        ret := ret + w;
      }
      EndStep(s, ap, out, goal);
    }
  }

  /** bmk_vsnprintf into a buffer of the size given: the answer is the length of the whole output,
      and the buffer holds as much of it as leaves room for a NUL, and the NUL. */
  method Vsnprintf(bf: array<char>, fmt: string, args: seq<Arg>) returns (ret: nat)
    requires Scan(fmt, args).Pieces?
    modifies bf
    ensures ret == |RenderAll(Scan(fmt, args).ps)|
    ensures bf.Length > 0 ==>
              var n := if ret < bf.Length then ret else bf.Length - 1;
              bf[..n] == RenderAll(Scan(fmt, args).ps)[..n] && bf[n] == '\0'
  {
    var sink := new Sink(bf);
    ret := sink.Kprintf(fmt, args);
    if bf.Length > 0 {
      ghost var n := if ret < bf.Length then ret else bf.Length - 1;
      assert bf[..n] == sink.buf[..sink.n][..n];
      if bf.Length <= ret { bf[bf.Length - 1] := '\0'; } else { bf[ret] := '\0'; }
    }
  }
}
