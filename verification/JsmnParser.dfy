/** The parser of lib/libbmk_core/jsmn.c, which works in place on the caller's token array. */
module JsmnParser {
  import opened Jsmn
  import opened JsonTree

  /** A token of the array, with the number of its children. */
  datatype Token = Token(tok: Tok, size: nat)

  function Shapes(s: seq<Token>): (t: seq<Tok>)
    ensures |t| == |s| && forall i :: 0 <= i < |s| ==> t[i] == s[i].tok
  {
    seq(|s|, i requires 0 <= i < |s| => s[i].tok)
  }

  function NodesOf(s: seq<Token>): (t: seq<Node>)
    ensures |t| == |s| && forall i :: 0 <= i < |s| ==> t[i] == Node(s[i].tok.kind, IsOpen(s[i].tok), s[i].size)
  {
    seq(|s|, i requires 0 <= i < |s| => Node(s[i].tok.kind, IsOpen(s[i].tok), s[i].size))
  }

  /** The characters that are items by themselves. */
  predicate IsMark(c: char) { c in ['{', '[', '}', ']', ':', ',', '\t', '\r', '\n', ' '] }

  function Mark(c: char): Item
    requires IsMark(c)
  {
    if c == '{' then Opening(Object) else if c == '[' then Opening(Array)
    else if c == '}' then Closing(Object) else if c == ']' then Closing(Array)
    else if c == ':' then Colon else if c == ',' then Item.Comma else Space
  }

  lemma LexMark(js: string, p: nat)
    requires !Over(js, p) && IsMark(js[p])
    ensures Lex(js, p) == (Mark(js[p]), p + 1) && Weight(Mark(js[p])) == if js[p] == '{' || js[p] == '[' then 1 else 0
  {
  }

  lemma LexScalar(js: string, p: nat)
    requires !Over(js, p) && !IsMark(js[p])
    ensures !EndsPrimitive(js[p])
    ensures var quoted := js[p] == '\"'; var e := if quoted then StringEnd(js, p + 1) else PrimitiveEnd(js, p);
            var start := if quoted then p + 1 else p;
            Lex(js, p) == if e.Bad? then (Wrong(e.error), p)
                          else (Leaf(LeafKind(quoted), start, e.p), if quoted then e.p + 1 else e.p)
  {
  }

  ghost predicate IsLastBelow(nodes: seq<Node>, i: int, below: nat) {
    -1 <= i < below <= |nodes| && (i >= 0 ==> nodes[i].open) && forall j :: i < j < below ==> !nodes[j].open
  }

  lemma ClosedGrows(t: Tree, i: nat, kind: Kind, t': Tree)
    requires -1 <= t.super < |t.nodes| && i == LastOpenNode(t.nodes)
    requires t'.nodes == t.nodes[i := t.nodes[i].(open := false)] && IsLastBelow(t'.nodes, t'.super, i)
    ensures t' == Grow(t, Close(kind))
  {
    assert t'.nodes[..i] == t.nodes[..i];
    forall j | t'.super < j < i ensures !t.nodes[..i][j].open { assert !t'.nodes[j].open; }
    LastOpenAt(t.nodes[..i], t'.super);
  }

  /** An item is taken into array and tree, or refused by both. */
  ghost predicate Answers(toks: seq<Tok>, t: Tree, item: Item, p: nat, num: nat, r: int, toks': seq<Tok>, t': Tree)
    requires -1 <= t.super < |t.nodes|
  {
    var fed := Feed(toks, item, p, num);
    if fed.Refused? then r == fed.error && toks' == toks && t' == t
    else r == 0 && toks' == fed.toks && t' == Grow(t, SignOf(item))
  }

  /** What a step has to do: answer r at pos' with count', toks' and t'. */
  ghost predicate Stepped(js: string, p: nat, toks: seq<Tok>, t: Tree, count: nat, num: nat,
                          r: int, pos': nat, count': nat, toks': seq<Tok>, t': Tree)
    requires !Over(js, p) && -1 <= t.super < |t.nodes|
  {
    var (item, next) := Lex(js, p);
    && Answers(toks, t, item, p, num, r, toks', t')
    && (Feed(toks, item, p, num).Tokens? ==> pos' + 1 == next && count' == count + Weight(item))
  }

  ghost predicate Counts(js: string, p: nat, count: nat, r: int, pos': nat, count': nat)
    requires !Over(js, p)
  {
    var (item, next) := Lex(js, p);
    if item.Wrong? then r == item.error else r == 0 && pos' + 1 == next && count' == count + Weight(item)
  }

  lemma StepCounts(js: string, p: nat, count: nat, r: int, pos': nat, count': nat)
    requires !Over(js, p) && Counts(js, p, count, r, pos', count')
    ensures r <= 0 && CountFrom(js, p, count) == if r == 0 then CountFrom(js, pos' + 1, count') else r
    ensures r == 0 ==> p <= pos'
  {
  }

  lemma StepOk(js: string, p: nat, toks: seq<Tok>, t: Tree, count: nat, num: nat,
               r: int, pos': nat, count': nat, toks': seq<Tok>, t': Tree)
    requires !Over(js, p) && Pictures(toks, t.nodes) && Ok(t)
    requires Stepped(js, p, toks, t, count, num, r, pos', count', toks', t')
    ensures r <= 0 && (r == 0 ==> Ok(t') && p <= pos')
  {
    var item := Lex(js, p).0;
    FeedPictures(toks, t, item, p, num);
    if Takes(t, SignOf(item), num) { GrowOk(t, SignOf(item), num); }
  }

  // ----- from steps to the pass as a whole -----

  /** The filling pass between two items. */
  datatype Snap = Snap(p: nat, toks: seq<Tok>, t: Tree, count: nat)

  ghost predicate Sound(s: Snap) { Pictures(s.toks, s.t.nodes) && Ok(s.t) }

  ghost predicate Goes(js: string, num: nat, a: Snap, b: Snap) {
    && !Over(js, a.p) && Sound(a) && b.p > 0
    && Stepped(js, a.p, a.toks, a.t, a.count, num, 0, b.p - 1, b.count, b.toks, b.t)
  }

  ghost predicate Stops(js: string, num: nat, a: Snap, r: int, toks: seq<Tok>, t: Tree) {
    && r < 0 && !Over(js, a.p) && Sound(a)
    && exists p': nat, count': nat :: Stepped(js, a.p, a.toks, a.t, a.count, num, r, p', count', toks, t)
  }

  ghost predicate GoesAt(js: string, num: nat, tr: seq<Snap>, i: nat)
    requires i + 1 < |tr|
  {
    Goes(js, num, tr[i], tr[i + 1])
  }

  ghost predicate Trace(js: string, num: nat, tr: seq<Snap>) {
    tr != [] && forall i: nat :: i + 1 < |tr| ==> GoesAt(js, num, tr, i)
  }

  lemma TraceAdds(js: string, num: nat, tr: seq<Snap>, s: Snap)
    requires Trace(js, num, tr) && Goes(js, num, tr[|tr| - 1], s)
    ensures Trace(js, num, tr + [s])
  {
    forall i: nat | i + 1 < |tr + [s]| ensures GoesAt(js, num, tr + [s], i) {
      if i + 1 < |tr| { assert GoesAt(js, num, tr, i); }
    }
  }

  lemma {:induction false} TraceFills(js: string, num: nat, tr: seq<Snap>, i: nat)
    requires Trace(js, num, tr) && i < |tr|
    ensures FillFrom(js, tr[0].p, tr[0].toks, tr[0].count, num) == FillFrom(js, tr[i].p, tr[i].toks, tr[i].count, num)
  {
    if i > 0 {
      TraceFills(js, num, tr, i - 1);
      assert GoesAt(js, num, tr, i - 1);
      GoesFills(js, num, tr[i - 1], tr[i]);
    }
  }

  lemma GoesFills(js: string, num: nat, a: Snap, b: Snap)
    requires Goes(js, num, a, b)
    ensures FillFrom(js, a.p, a.toks, a.count, num) == FillFrom(js, b.p, b.toks, b.count, num)
  {
    FillOne(js, a.p, a.toks, a.count, num);
  }

  lemma {:induction false} TraceGrows(js: string, num: nat, tr: seq<Snap>, i: nat)
    requires Trace(js, num, tr) && i < |tr|
    ensures GrowFrom(js, tr[0].p, tr[0].t, num) == GrowFrom(js, tr[i].p, tr[i].t, num)
  {
    if i > 0 {
      TraceGrows(js, num, tr, i - 1);
      assert GoesAt(js, num, tr, i - 1);
      GoesGrows(js, num, tr[i - 1], tr[i]);
    }
  }

  lemma GoesGrows(js: string, num: nat, a: Snap, b: Snap)
    requires Goes(js, num, a, b)
    ensures GrowFrom(js, a.p, a.t, num) == GrowFrom(js, b.p, b.t, num)
  {
    FeedPictures(a.toks, a.t, Lex(js, a.p).0, a.p, num);
    GrowOne(js, a.p, a.t, num);
  }

  lemma StopsThere(js: string, num: nat, s: Snap, r: int, toks: seq<Tok>, t: Tree)
    requires Stops(js, num, s, r, toks, t)
    ensures FillFrom(js, s.p, s.toks, s.count, num) == Filled(r, toks) && GrowFrom(js, s.p, s.t, num) == t
  {
    FeedPictures(s.toks, s.t, Lex(js, s.p).0, s.p, num);
    FillOne(js, s.p, s.toks, s.count, num);
    GrowOne(js, s.p, s.t, num);
  }

  /** The pass ends with the text, or with an item it refuses. */
  lemma TraceEnds(js: string, num: nat, tr: seq<Snap>, r: int, toks: seq<Tok>, t: Tree)
    requires Trace(js, num, tr)
    requires var s := tr[|tr| - 1];
             || Stops(js, num, s, r, toks, t)
             || (Over(js, s.p) && toks == s.toks && t == s.t && r == if LastOpen(toks) >= 0 then PART else s.count)
    ensures FillFrom(js, tr[0].p, tr[0].toks, tr[0].count, num) == Filled(r, toks)
    ensures GrowFrom(js, tr[0].p, tr[0].t, num) == t
  {
    var s := tr[|tr| - 1];
    TraceFills(js, num, tr, |tr| - 1);
    TraceGrows(js, num, tr, |tr| - 1);
    if !Over(js, s.p) { StopsThere(js, num, s, r, toks, t); }
  }

  lemma AddBefore(nodes: seq<Node>, i: int, n: Node)
    requires -1 <= i < |nodes|
    ensures Add(nodes + [n], i, 1) == Add(nodes, i, 1) + [n]
  {
  }

  class Parser {
    var pos: nat
    var toknext: nat
    var toksuper: int

    /** jsmn_init. */
    constructor ()
      ensures pos == 0 && toknext == 0 && toksuper == -1
    {
      pos, toknext, toksuper := 0, 0, -1;
    }

    /** The tokens in use fit the array, and the parent is one of them or none. */
    ghost predicate Fits(tokens: array?<Token>, num: nat)
      reads this
    {
      -1 <= toksuper < toknext && if tokens == null then toknext == 0 else toknext <= num <= tokens.Length
    }

    ghost function Toks(tokens: array?<Token>): seq<Tok>
      requires tokens != null ==> toknext <= tokens.Length
      reads this`toknext, tokens
    {
      if tokens == null then [] else Shapes(tokens[..toknext])
    }

    ghost function Nodes(tokens: array?<Token>): seq<Node>
      requires tokens != null ==> toknext <= tokens.Length
      reads this`toknext, tokens
    {
      if tokens == null then [] else NodesOf(tokens[..toknext])
    }

    /** The tree that tokens and parser spell out. */
    ghost function Grown(tokens: array?<Token>): Tree
      requires tokens != null ==> toknext <= tokens.Length
      reads this`toknext, this`toksuper, tokens
    {
      Tree(Nodes(tokens), toksuper)
    }

    lemma Alike(tokens: array?<Token>)
      requires tokens != null ==> toknext <= tokens.Length
      ensures Pictures(Toks(tokens), Nodes(tokens)) && LastOpen(Toks(tokens)) == LastOpenNode(Nodes(tokens))
    {
      SameLast(Toks(tokens), Nodes(tokens));
    }

    /** jsmn_alloc_token and jsmn_fill_token. */
    method AddToken(tokens: array<Token>, num: nat, kind: Kind, start: int, end: int) returns (ok: bool)
      requires Fits(tokens, num)
      modifies this`toknext, tokens
      ensures Fits(tokens, num) && ok == (|old(Toks(tokens))| < num)
      ensures Toks(tokens) == if ok then old(Toks(tokens)) + [Tok(kind, start, end)] else old(Toks(tokens))
      ensures ok ==> toknext == old(toknext) + 1
      ensures var more := if ok then [Node(kind, IsOpen(Tok(kind, start, end)), 0)] else [];
              Nodes(tokens) == old(Nodes(tokens)) + more
    {
      if toknext >= num { return false; }
      tokens[toknext] := Token(Tok(kind, start, end), 0);
      toknext := toknext + 1;
      return true;
    }

    /** jsmn_parse_primitive. */
    method ParsePrimitive(js: string, tokens: array?<Token>, num: nat) returns (r: int)
      requires Fits(tokens, num) && !Over(js, pos) && !EndsPrimitive(js[pos])
      modifies this`pos, this`toknext, tokens
      ensures Fits(tokens, num)
      ensures var e, toks := PrimitiveEnd(js, old(pos)), old(Toks(tokens));
              if e.Bad? then r == e.error && Toks(tokens) == toks
              else if tokens == null then r == 0 && pos + 1 == e.p
              else if |toks| >= num then r == NOMEM && Toks(tokens) == toks
              else r == 0 && pos + 1 == e.p && Toks(tokens) == toks + [Tok(Primitive, old(pos), e.p)]
      ensures var more := if r == 0 && tokens != null then [Node(Primitive, false, 0)] else [];
              Nodes(tokens) == old(Nodes(tokens)) + more
    {
      var start := pos;
      while !Over(js, pos) && !EndsPrimitive(js[pos])
        invariant start <= pos && PrimitiveEnd(js, pos) == PrimitiveEnd(js, start)
        invariant pos == start ==> !Over(js, pos) && !EndsPrimitive(js[pos])
        invariant Fits(tokens, num) && Toks(tokens) == old(Toks(tokens)) && Nodes(tokens) == old(Nodes(tokens))
        decreases |js| - pos
      {
        if Unprintable(js[pos]) {
          pos := start;
          return INVAL;
        }
        pos := pos + 1;
      }
      if tokens == null {
        pos := pos - 1;
        return 0;
      }
      var ok := AddToken(tokens, num, Primitive, start, pos);
      if !ok {
        pos := start;
        return NOMEM;
      }
      pos := pos - 1;
      return 0;
    }

    /** The \u case of jsmn_parse_string. */
    method ParseHex(js: string) returns (ok: bool)
      requires pos <= |js|
      modifies this`pos
      ensures var h := Hex(js, old(pos), 4); ok == h.At? && (ok ==> pos == h.p)
    {
      var i := 0;
      while i < 4 && !Over(js, pos)
        invariant 0 <= i <= 4 && pos <= |js| && Hex(js, pos, 4 - i) == Hex(js, old(pos), 4)
      {
        if !IsHex(js[pos]) { return false; }
        pos := pos + 1;
        i := i + 1;
      }
      return true;
    }

    /** The switch of jsmn_parse_string on the character after a backslash; pos is left on the last
        character of the escape. */
    method ParseEscape(js: string) returns (ok: bool)
      requires pos < |js|
      modifies this`pos
      ensures var e := EscapeEnd(js, old(pos)); ok == e.At? && (ok ==> pos + 1 == e.p)
    {
      if IsEscape(js[pos]) { return true; }
      if js[pos] != 'u' { return false; }
      pos := pos + 1;
      ok := ParseHex(js);
      if ok { pos := pos - 1; }
    }

    /** jsmn_parse_string. */
    method ParseString(js: string, tokens: array?<Token>, num: nat) returns (r: int)
      requires Fits(tokens, num) && !Over(js, pos) && js[pos] == '\"'
      modifies this`pos, this`toknext, tokens
      ensures Fits(tokens, num)
      ensures var e, toks := StringEnd(js, old(pos) + 1), old(Toks(tokens));
              if e.Bad? then r == e.error && Toks(tokens) == toks
              else if tokens == null then r == 0 && pos == e.p
              else if |toks| >= num then r == NOMEM && Toks(tokens) == toks
              else r == 0 && pos == e.p && Toks(tokens) == toks + [Tok(Str, old(pos) + 1, e.p)]
      ensures var more := if r == 0 && tokens != null then [Node(Str, false, 0)] else [];
              Nodes(tokens) == old(Nodes(tokens)) + more
    {
      var start := pos;
      pos := pos + 1;
      while !Over(js, pos)
        invariant pos <= |js| && StringEnd(js, pos) == StringEnd(js, start + 1)
        invariant Fits(tokens, num) && Toks(tokens) == old(Toks(tokens)) && Nodes(tokens) == old(Nodes(tokens))
        decreases |js| - pos
      {
        if js[pos] == '\"' {
          if tokens == null { return 0; }
          var ok := AddToken(tokens, num, Str, start + 1, pos);
          if !ok {
            pos := start;
            return NOMEM;
          }
          return 0;
        }
        if js[pos] == '\\' && pos + 1 < |js| {
          pos := pos + 1;
          var ok := ParseEscape(js);
          if !ok {
            pos := start;
            return INVAL;
          }
        }
        pos := pos + 1;
      }
      pos := start;
      return PART;
    }

    /** tokens[toksuper].size++, if there is a parent. */
    method CountChild(tokens: array?<Token>, num: nat)
      requires Fits(tokens, num)
      modifies tokens
      ensures Toks(tokens) == old(Toks(tokens))
      ensures tokens != null ==> Nodes(tokens) == Add(old(Nodes(tokens)), toksuper, 1)
    {
      if toksuper != -1 && tokens != null {
        tokens[toksuper] := tokens[toksuper].(size := tokens[toksuper].size + 1);
      }
    }

    /** An opening bracket in the filling pass. */
    method OpenBracket(tokens: array<Token>, num: nat, kind: Kind) returns (ok: bool)
      requires Fits(tokens, num)
      modifies this`toknext, this`toksuper, tokens
      ensures Fits(tokens, num) && ok == (|old(Toks(tokens))| < num)
      ensures Toks(tokens) == if ok then old(Toks(tokens)) + [Tok(kind, pos, -1)] else old(Toks(tokens))
      ensures Grown(tokens) == if ok then Grow(old(Grown(tokens)), Open(kind)) else old(Grown(tokens))
    {
      ok := AddToken(tokens, num, kind, pos, -1);
      if !ok { return; }
      AddBefore(old(Nodes(tokens)), toksuper, Node(kind, true, 0));
      CountChild(tokens, num);
      toksuper := toknext - 1;
    }

    /** The search for the last open token below a place. */
    method FindOpen(tokens: array<Token>, below: nat) returns (i: int)
      requires below <= toknext <= tokens.Length
      ensures IsLastBelow(Nodes(tokens), i, below)
    {
      i := below - 1;
      while i >= 0 && !IsOpen(tokens[i].tok)
        invariant -1 <= i < below && forall j :: i < j < below ==> !IsOpen(tokens[j].tok)
      {
        i := i - 1;
      }
    }

    method FindLast(tokens: array<Token>) returns (i: int)
      requires toknext <= tokens.Length
      ensures i == LastOpen(Toks(tokens)) == LastOpenNode(Nodes(tokens))
      ensures i >= 0 ==> tokens[i].tok == Toks(tokens)[i]
    {
      i := FindOpen(tokens, toknext);
      LastOpenAt(Nodes(tokens), i);
      Alike(tokens);
    }

    method CloseToken(tokens: array<Token>, i: nat)
      requires i < toknext <= tokens.Length && IsOpen(tokens[i].tok)
      modifies tokens
      ensures Toks(tokens) == old(Toks(tokens))[i := old(Toks(tokens))[i].(end := pos + 1)]
      ensures Nodes(tokens) == old(Nodes(tokens))[i := old(Nodes(tokens))[i].(open := false)]
    {
      tokens[i] := tokens[i].(tok := tokens[i].tok.(end := pos + 1));
    }

    /** The innermost bracket is closed, and the one around it becomes the parent. */
    method CloseFound(tokens: array<Token>, i: nat, ghost kind: Kind)
      requires i < toknext <= tokens.Length && -1 <= toksuper < toknext
      requires i == LastOpenNode(Nodes(tokens)) && IsOpen(tokens[i].tok)
      modifies this`toksuper, tokens
      ensures Toks(tokens) == old(Toks(tokens))[i := old(Toks(tokens))[i].(end := pos + 1)]
      ensures Grown(tokens) == Grow(old(Grown(tokens)), Close(kind)) && -1 <= toksuper < toknext
    {
      toksuper := -1;
      CloseToken(tokens, i);
      toksuper := FindOpen(tokens, i);
      ClosedGrows(old(Grown(tokens)), i, kind, Grown(tokens));
    }

    /** A closing bracket in the filling pass: the last open token is closed, if of the right kind,
        and the one open before it becomes the parent. */
    method CloseBracket(tokens: array<Token>, num: nat, kind: Kind) returns (ok: bool)
      requires Fits(tokens, num)
      modifies this`toksuper, tokens
      ensures Fits(tokens, num)
      ensures var toks := old(Toks(tokens)); var i := LastOpen(toks);
              && ok == (i != -1 && toks[i].kind == kind)
              && Toks(tokens) == if ok then toks[i := toks[i].(end := pos + 1)] else toks
      ensures Grown(tokens) == if ok then Grow(old(Grown(tokens)), Close(kind)) else old(Grown(tokens))
    {
      var i := FindLast(tokens);
      ok := i != -1 && tokens[i].tok.kind == kind;
      if ok { CloseFound(tokens, i, kind); }
    }

    /** A comma in the filling pass: back to the innermost open bracket.  Outside any container the
        source looks at what stands before the array; that it makes no difference is part of the
        contract. */
    method CommaParent(tokens: array<Token>, num: nat, before: Kind)
      requires Fits(tokens, num) && Ok(Grown(tokens))
      modifies this`toksuper
      ensures Fits(tokens, num) && Grown(tokens) == Grow(old(Grown(tokens)), Next)
    {
      var kind := if toksuper == -1 then before else tokens[toksuper].tok.kind;
      if kind != Array && kind != Object {
        ghost var nodes := Nodes(tokens);
        var i: int := toknext - 1;
        while i >= 0
          invariant -1 <= i < toknext && forall j :: i < j < toknext ==> !nodes[j].open
          invariant toksuper == old(toksuper)
        {
          assert nodes[i] == Node(tokens[i].tok.kind, IsOpen(tokens[i].tok), tokens[i].size);
          if (tokens[i].tok.kind == Array || tokens[i].tok.kind == Object) && IsOpen(tokens[i].tok) {
            LastOpenAt(nodes, i);
            toksuper := i;
            return;
          }
          i := i - 1;
        }
        LastOpenAt(nodes, -1);
      }
    }

    /** A string or a primitive, and its parent's count. */
    method Scalar(js: string, tokens: array?<Token>, num: nat, quoted: bool) returns (r: int)
      requires Fits(tokens, num) && !Over(js, pos) && if quoted then js[pos] == '\"' else !EndsPrimitive(js[pos])
      modifies this`pos, this`toknext, tokens
      ensures Fits(tokens, num)
      ensures var e := if quoted then StringEnd(js, old(pos) + 1) else PrimitiveEnd(js, old(pos));
              var toks, kind, start := old(Toks(tokens)), LeafKind(quoted), if quoted then old(pos) + 1 else old(pos);
              if e.Bad? then r == e.error && Toks(tokens) == toks
              else if tokens != null && |toks| >= num then r == NOMEM && Toks(tokens) == toks
              else r == 0 && pos + 1 == (if quoted then e.p + 1 else e.p)
                   && (tokens != null ==> Toks(tokens) == toks + [Tok(kind, start, e.p)])
      ensures tokens != null ==>
                var t := old(Grown(tokens));
                Grown(tokens) == if r == 0 then Grow(t, Value(LeafKind(quoted))) else t
    {
      if quoted { r := ParseString(js, tokens, num); } else { r := ParsePrimitive(js, tokens, num); }
      if r < 0 { return; }
      if tokens != null { AddBefore(old(Nodes(tokens)), toksuper, Node(LeafKind(quoted), false, 0)); }
      CountChild(tokens, num);
    }

    method Opens(tokens: array<Token>, num: nat, kind: Kind) returns (r: int)
      requires Fits(tokens, num)
      modifies this`toknext, this`toksuper, tokens
      ensures Fits(tokens, num)
      ensures Answers(old(Toks(tokens)), old(Grown(tokens)), Opening(kind), pos, num, r, Toks(tokens), Grown(tokens))
    {
      var ok := OpenBracket(tokens, num, kind);
      r := if ok then 0 else NOMEM;
    }

    method Closes(tokens: array<Token>, num: nat, kind: Kind) returns (r: int)
      requires Fits(tokens, num)
      modifies this`toksuper, tokens
      ensures Fits(tokens, num)
      ensures Answers(old(Toks(tokens)), old(Grown(tokens)), Closing(kind), pos, num, r, Toks(tokens), Grown(tokens))
    {
      var ok := CloseBracket(tokens, num, kind);
      r := if ok then 0 else INVAL;
    }

    /** A character of jsmn_parse's loop that is an item by itself. */
    method Character(tokens: array?<Token>, num: nat, c: char, before: Kind) returns (r: int)
      requires Fits(tokens, num) && IsMark(c) && (tokens != null ==> Ok(Grown(tokens)))
      modifies this`toknext, this`toksuper, tokens
      ensures Fits(tokens, num)
      ensures tokens == null ==> r == 0
      ensures tokens != null ==>
                Answers(old(Toks(tokens)), old(Grown(tokens)), Mark(c), pos, num, r, Toks(tokens), Grown(tokens))
    {
      r := 0;
      if c == '{' || c == '[' {
        if tokens != null { r := Opens(tokens, num, if c == '{' then Object else Array); }
      } else if c == '}' || c == ']' {
        if tokens != null { r := Closes(tokens, num, if c == '}' then Object else Array); }
      } else if c == ':' {
        toksuper := toknext - 1;
      } else if c == ',' {
        if tokens != null { CommaParent(tokens, num, before); }
      }
    }

    /** One character of jsmn_parse's loop, or one string or primitive. */
    method Step(js: string, tokens: array?<Token>, num: nat, count: nat, before: Kind) returns (r: int, count': nat)
      requires Fits(tokens, num) && !Over(js, pos) && (tokens != null ==> Ok(Grown(tokens)))
      modifies this, tokens
      ensures Fits(tokens, num)
      ensures tokens == null ==> Counts(js, old(pos), count, r, pos, count')
      ensures tokens != null ==>
                Stepped(js, old(pos), old(Toks(tokens)), old(Grown(tokens)), count, num,
                        r, pos, count', Toks(tokens), Grown(tokens))
    {
      var c := js[pos];
      count' := count;
      if IsMark(c) {
        LexMark(js, pos);
        r := Character(tokens, num, c, before);
        if c == '{' || c == '[' { count' := count + 1; }
      } else {
        LexScalar(js, pos);
        r := Scalar(js, tokens, num, c == '\"');
        if r < 0 { return; }
        count' := count + 1;
      }
    }

    /** The last loop of jsmn_parse. */
    method AnyOpen(tokens: array?<Token>, num: nat) returns (open: bool)
      requires Fits(tokens, num)
      ensures open == (LastOpen(Toks(tokens)) >= 0)
    {
      var i: int := toknext - 1;
      while i >= 0
        invariant -1 <= i < toknext
        invariant tokens != null ==> forall j :: i < j < toknext ==> !IsOpen(Toks(tokens)[j])
      {
        if IsOpen(tokens[i].tok) { return true; }
        i := i - 1;
      }
      return false;
    }

    ghost function Snapshot(tokens: array?<Token>, count: nat): Snap
      requires tokens != null ==> toknext <= tokens.Length
      reads this, tokens
    {
      Snap(pos, Toks(tokens), Grown(tokens), count)
    }

    method CountRound(js: string, num: nat, count: nat, before: Kind) returns (r: int, count': nat)
      requires Fits(null, num) && !Over(js, pos)
      modifies this
      ensures Fits(null, num) && r <= 0 && (r == 0 ==> old(pos) < pos)
      ensures CountFrom(js, old(pos), count) == if r == 0 then CountFrom(js, pos, count') else r
    {
      r, count' := Step(js, null, num, count, before);
      StepCounts(js, old(pos), count, r, pos, count');
      if r == 0 { pos := pos + 1; }
    }

    method FillRound(js: string, tokens: array<Token>, num: nat, count: nat, before: Kind) returns (r: int, count': nat)
      requires Fits(tokens, num) && !Over(js, pos) && Ok(Grown(tokens))
      modifies this, tokens
      ensures Fits(tokens, num) && r <= 0 && (r == 0 ==> old(pos) < pos && Ok(Grown(tokens)))
      ensures r == 0 ==> Goes(js, num, old(Snapshot(tokens, count)), Snapshot(tokens, count'))
      ensures r < 0 ==> Stops(js, num, old(Snapshot(tokens, count)), r, Toks(tokens), Grown(tokens))
    {
      Alike(tokens);
      ghost var toks, t := Toks(tokens), Grown(tokens);
      r, count' := Step(js, tokens, num, count, before);
      StepOk(js, old(pos), toks, t, count, num, r, pos, count', Toks(tokens), Grown(tokens));
      if r == 0 { pos := pos + 1; }
    }

    method FillAndTrace(js: string, tokens: array<Token>, num: nat, count: nat, before: Kind, ghost tr: seq<Snap>)
      returns (r: int, count': nat, ghost tr': seq<Snap>)
      requires Fits(tokens, num) && !Over(js, pos) && Ok(Grown(tokens))
      requires Trace(js, num, tr) && tr[|tr| - 1] == Snapshot(tokens, count)
      modifies this, tokens
      ensures Fits(tokens, num) && r <= 0 && (r == 0 ==> old(pos) < pos && Ok(Grown(tokens)))
      ensures r == 0 ==> Trace(js, num, tr') && tr'[0] == tr[0] && tr'[|tr'| - 1] == Snapshot(tokens, count')
      ensures r < 0 ==> tr' == tr && Stops(js, num, tr[|tr| - 1], r, Toks(tokens), Grown(tokens))
    {
      r, count' := FillRound(js, tokens, num, count, before);
      tr' := tr;
      if r == 0 {
        TraceAdds(js, num, tr, Snapshot(tokens, count'));
        tr' := tr + [Snapshot(tokens, count')];
      }
    }

    /** The loop of jsmn_parse. */
    method Rounds(js: string, tokens: array?<Token>, num: nat, before: Kind) returns (r: int, ghost tr: seq<Snap>)
      requires Fits(tokens, num) && (tokens != null ==> Ok(Grown(tokens)))
      modifies this, tokens
      ensures Fits(tokens, num)
      ensures tokens == null ==> r == CountFrom(js, old(pos), 0)
      ensures tokens != null ==> Trace(js, num, tr) && tr[0] == old(Snapshot(tokens, 0))
      ensures tokens != null ==>
                var s := tr[|tr| - 1];
                || Stops(js, num, s, r, Toks(tokens), Grown(tokens))
                || (Over(js, pos) && s == Snap(pos, Toks(tokens), Grown(tokens), s.count)
                    && r == if LastOpen(Toks(tokens)) >= 0 then PART else s.count)
    {
      var count := 0;
      tr := [Snapshot(tokens, 0)];
      while !Over(js, pos)
        invariant Fits(tokens, num) && (tokens != null ==> Ok(Grown(tokens)))
        invariant tokens == null ==> CountFrom(js, pos, count) == CountFrom(js, old(pos), 0)
        invariant tokens != null ==>
                    Trace(js, num, tr) && tr[0] == old(Snapshot(tokens, 0)) && tr[|tr| - 1] == Snapshot(tokens, count)
        decreases |js| - pos
      {
        if tokens == null { r, count := CountRound(js, num, count, before); }
        else { r, count, tr := FillAndTrace(js, tokens, num, count, before, tr); }
        if r < 0 { return; }
      }
      var open := AnyOpen(tokens, num);
      r := if open then PART else count;
    }

    /** jsmn_parse on a fresh parser: the counting pass if there is no array, else the filling pass
        into the first num tokens of it.  `before` is the kind of whatever stands before the array. */
    method Parse(js: string, tokens: array?<Token>, num: nat, before: Kind) returns (r: int)
      requires pos == 0 && toknext == 0 && toksuper == -1 && (tokens != null ==> num <= tokens.Length)
      modifies this, tokens
      ensures tokens == null ==> r == CountFrom(js, 0, 0)
      ensures tokens != null ==> toknext <= tokens.Length && Filled(r, Toks(tokens)) == FillFrom(js, 0, [], 0, num)
      ensures tokens != null ==> Grown(tokens) == GrowFrom(js, 0, EMPTY, num)
    {
      assert Toks(tokens) == [] && Nodes(tokens) == [];
      ghost var tr;
      r, tr := Rounds(js, tokens, num, before);
      if tokens != null { TraceEnds(js, num, tr, r, Toks(tokens), Grown(tokens)); }
    }
  }
}
