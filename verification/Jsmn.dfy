/** The JSON tokenizer of lib/libbmk_core/jsmn.c, in its non-strict form without parent links.
    A first pass without a token array counts, a second fills the array. */
module Jsmn {
  import opened Common

  const NOMEM: int := -1
  const INVAL: int := -2
  const PART: int := -3

  datatype Kind = Primitive | Object | Array | Str

  // ----- the text: strings and primitives -----

  datatype Scan = At(p: nat) | Bad(error: int)

  /** The text is over at its end and at a NUL. */
  predicate Over(js: string, p: nat) { p >= |js| || js[p] == '\0' }

  predicate IsHex(c: char) { '0' <= c <= '9' || 'A' <= c <= 'F' || 'a' <= c <= 'f' }
  predicate IsEscape(c: char) { c in ['\"', '/', '\\', 'b', 'f', 'r', 'n', 't'] }
  predicate EndsPrimitive(c: char) { c in [':', '\t', '\r', '\n', ' ', ',', ']', '}'] }
  predicate Unprintable(c: char) { c as int < 32 || c as int >= 127 }

  /** Up to n hexadecimal digits from p. */
  function Hex(js: string, p: nat, n: nat): (s: Scan)
    ensures s.At? ==> p <= s.p && (p <= |js| ==> s.p <= |js|)
    decreases n
  {
    if n == 0 || Over(js, p) then At(p) else if IsHex(js[p]) then Hex(js, p + 1, n - 1) else Bad(INVAL)
  }

  /** The first character after an escape whose backslash stands before p. */
  function EscapeEnd(js: string, p: nat): (s: Scan)
    requires p < |js|
    ensures s.At? ==> p < s.p <= |js|
  {
    if IsEscape(js[p]) then At(p + 1) else if js[p] == 'u' then Hex(js, p + 1, 4) else Bad(INVAL)
  }

  /** The closing quote of a string, from inside it. */
  function StringEnd(js: string, p: nat): (s: Scan)
    ensures s.At? ==> p <= s.p < |js| && js[s.p] == '\"'
    ensures s.Bad? ==> s.error == INVAL || s.error == PART
    decreases |js| - p
  {
    if Over(js, p) then Bad(PART)
    else if js[p] == '\"' then At(p)
    else if js[p] == '\\' && p + 1 < |js| then
      var e := EscapeEnd(js, p + 1);
      if e.At? then StringEnd(js, e.p) else Bad(INVAL)
    else StringEnd(js, p + 1)
  }

  /** The first character after a primitive. */
  function PrimitiveEnd(js: string, p: nat): (s: Scan)
    ensures s.At? ==> p <= s.p && (p <= |js| ==> s.p <= |js|)
    ensures s.Bad? ==> s.error == INVAL
    decreases |js| - p
  {
    if Over(js, p) || EndsPrimitive(js[p]) then At(p)
    else if Unprintable(js[p]) then Bad(INVAL)
    else PrimitiveEnd(js, p + 1)
  }

  /** What stands at a position: a token that is complete, an opening or closing bracket, one of
      the separators, or an error. */
  datatype Item =
    | Leaf(kind: Kind, start: nat, end: nat)
    | Opening(kind: Kind)
    | Closing(kind: Kind)
    | Colon
    | Comma
    | Space
    | Wrong(error: int)

  /** The item at p, and where the next one starts. */
  function Lex(js: string, p: nat): (r: (Item, nat))
    requires !Over(js, p)
    ensures p < r.1 <= |js| || r.0.Wrong?
    ensures r.0.Leaf? ==> p <= r.0.start <= r.0.end <= r.1 && r.0.start < r.1
    ensures r.0.Leaf? ==> r.0.kind == Str || r.0.kind == Primitive
    ensures r.0.Opening? || r.0.Closing? ==> r.0.kind == Object || r.0.kind == Array
    ensures r.0.Wrong? ==> r.0.error == INVAL || r.0.error == PART
  {
    var c := js[p];
    if c == '{' then (Opening(Object), p + 1)
    else if c == '[' then (Opening(Array), p + 1)
    else if c == '}' then (Closing(Object), p + 1)
    else if c == ']' then (Closing(Array), p + 1)
    else if c == '\"' then
      var e := StringEnd(js, p + 1);
      if e.At? then (Leaf(Str, p + 1, e.p), e.p + 1) else (Wrong(e.error), p)
    else if c == '\t' || c == '\r' || c == '\n' || c == ' ' then (Space, p + 1)
    else if c == ':' then (Colon, p + 1)
    else if c == ',' then (Comma, p + 1)
    else
      var e := PrimitiveEnd(js, p);
      if e.At? then (Leaf(Primitive, p, e.p), e.p) else (Wrong(e.error), p)
  }

  // ----- the token array -----

  /** A token without its size; `end` is -1 while the bracket is not closed. */
  datatype Tok = Tok(kind: Kind, start: int, end: int)

  predicate IsOpen(t: Tok) { t.start != -1 && t.end == -1 }

  /** The last token that is not closed, or -1. */
  function LastOpen(toks: seq<Tok>): (i: int)
    ensures -1 <= i < |toks| && (i >= 0 ==> IsOpen(toks[i]))
    ensures forall j :: i < j < |toks| ==> !IsOpen(toks[j])
  {
    if toks == [] then -1
    else if IsOpen(toks[|toks| - 1]) then |toks| - 1
    else LastOpen(toks[..|toks| - 1])
  }

  datatype Fed = Tokens(toks: seq<Tok>) | Refused(error: int)

  /** The effect of an item at p on the tokens, when there is room for num. */
  function Feed(toks: seq<Tok>, item: Item, p: nat, num: nat): Fed {
    match item
    case Leaf(kind, start, end) => if |toks| >= num then Refused(NOMEM) else Tokens(toks + [Tok(kind, start, end)])
    case Opening(kind) => if |toks| >= num then Refused(NOMEM) else Tokens(toks + [Tok(kind, p, -1)])
    case Closing(kind) =>
      var i := LastOpen(toks);
      if i == -1 || toks[i].kind != kind then Refused(INVAL) else Tokens(toks[i := toks[i].(end := p + 1)])
    case Wrong(error) => Refused(error)
    case _ => Tokens(toks)
  }

  function Weight(item: Item): nat { if item.Leaf? || item.Opening? then 1 else 0 }

  /** The counting pass, from p on with `count` already counted. */
  function CountFrom(js: string, p: nat, count: nat): int
    decreases |js| - p
  {
    if Over(js, p) then count
    else
      var (item, next) := Lex(js, p);
      if item.Wrong? then item.error else CountFrom(js, next, count + Weight(item))
  }

  datatype Filled = Filled(result: int, toks: seq<Tok>)

  /** The filling pass, from p on with tokens already filled. */
  function FillFrom(js: string, p: nat, toks: seq<Tok>, count: nat, num: nat): Filled
    decreases |js| - p
  {
    if Over(js, p) then Filled(if LastOpen(toks) >= 0 then PART else count, toks)
    else
      var (item, next) := Lex(js, p);
      var fed := Feed(toks, item, p, num);
      if fed.Refused? then Filled(fed.error, toks) else FillFrom(js, next, fed.toks, count + Weight(item), num)
  }

  /** One item for the filling pass. */
  lemma FillOne(js: string, p: nat, toks: seq<Tok>, count: nat, num: nat)
    requires !Over(js, p)
    ensures var (item, next) := Lex(js, p); var fed := Feed(toks, item, p, num);
            FillFrom(js, p, toks, count, num) ==
              if fed.Refused? then Filled(fed.error, toks) else FillFrom(js, next, fed.toks, count + Weight(item), num)
  {
  }

  // ----- counting and filling agree -----

  /** If the counting pass counts c more, then filling with room for them never runs out, and when
      it succeeds it has filled exactly that many and gives the same answer. */
  lemma {:induction false} CountThenFill(js: string, p: nat, toks: seq<Tok>, count: nat, num: nat)
    requires CountFrom(js, p, count) >= 0 && num >= |toks| + CountFrom(js, p, count) - count
    ensures CountFrom(js, p, count) >= count
    ensures FillFrom(js, p, toks, count, num).result != NOMEM
    ensures FillFrom(js, p, toks, count, num).result >= 0 ==>
              && FillFrom(js, p, toks, count, num).result == CountFrom(js, p, count)
              && |FillFrom(js, p, toks, count, num).toks| == |toks| + CountFrom(js, p, count) - count
    decreases |js| - p
  {
    if !Over(js, p) {
      var (item, next) := Lex(js, p);
      CountGrows(js, next, count + Weight(item));
      var fed := Feed(toks, item, p, num);
      if fed.Tokens? { CountThenFill(js, next, fed.toks, count + Weight(item), num); }
    }
  }

  lemma {:induction false} CountGrows(js: string, p: nat, count: nat)
    ensures CountFrom(js, p, count) >= count || CountFrom(js, p, count) == INVAL || CountFrom(js, p, count) == PART
    decreases |js| - p
  {
    if !Over(js, p) {
      var (item, next) := Lex(js, p);
      if !item.Wrong? { CountGrows(js, next, count + Weight(item)); }
    }
  }

  // ----- brackets -----

  /** What an item does to the stack: None if it does not fit. */
  function Stacked(stack: seq<Kind>, item: Item): (r: Option<seq<Kind>>) {
    match item
    case Wrong(_) => None
    case Opening(kind) => Some(stack + [kind])
    case Closing(kind) => if stack != [] && stack[|stack| - 1] == kind then Some(stack[..|stack| - 1]) else None
    case _ => Some(stack)
  }

  /** Whether the brackets outside strings match, by a stack of the open ones, and the text is
      otherwise accepted. */
  predicate Matches(js: string, p: nat, stack: seq<Kind>)
    decreases |js| - p
  {
    if Over(js, p) then stack == []
    else
      var (item, next) := Lex(js, p);
      var after := Stacked(stack, item);
      after.Some? && Matches(js, next, after.value)
  }

  /** The kinds of the tokens that are not closed: the token array as a stack. */
  function OpenKinds(toks: seq<Tok>): (s: seq<Kind>)
    ensures s == [] <==> LastOpen(toks) == -1
  {
    if toks == [] then []
    else
      var rest, t := OpenKinds(toks[..|toks| - 1]), toks[|toks| - 1];
      if IsOpen(t) then rest + [t.kind] else rest
  }

  lemma Pushed(toks: seq<Tok>, t: Tok)
    ensures OpenKinds(toks + [t]) == if IsOpen(t) then OpenKinds(toks) + [t.kind] else OpenKinds(toks)
  {
    assert (toks + [t])[..|toks|] == toks;
  }

  lemma {:induction false} Popped(toks: seq<Tok>, end: nat)
    requires LastOpen(toks) >= 0
    ensures var i, s := LastOpen(toks), OpenKinds(toks);
            s != [] && s[|s| - 1] == toks[i].kind && OpenKinds(toks[i := toks[i].(end := end)]) == s[..|s| - 1]
  {
    var i, n := LastOpen(toks), |toks| - 1;
    var toks' := toks[i := toks[i].(end := end)];
    if i == n { assert toks'[..n] == toks[..n]; }
    else {
      Popped(toks[..n], end);
      assert toks'[..n] == toks[..n][i := toks[i].(end := end)];
    }
  }

  /** The token array follows the stack, item by item. */
  lemma FeedStacks(toks: seq<Tok>, item: Item, p: nat, num: nat)
    requires (item.Leaf? ==> item.end >= 0) && Feed(toks, item, p, num) != Refused(NOMEM)
    requires item.Wrong? ==> item.error != NOMEM
    ensures var fed, stack := Feed(toks, item, p, num), Stacked(OpenKinds(toks), item);
            (fed.Tokens? <==> stack.Some?) && (fed.Tokens? ==> OpenKinds(fed.toks) == stack.value)
  {
    match item
    case Leaf(kind, start, end) => Pushed(toks, Tok(kind, start, end));
    case Opening(kind) => Pushed(toks, Tok(kind, p, -1));
    case Closing(_) => if LastOpen(toks) >= 0 { Popped(toks, p + 1); }
    case _ =>
  }

  /** Filling succeeds, given room, exactly if the brackets match. */
  lemma {:induction false} FillMatches(js: string, p: nat, toks: seq<Tok>, count: nat, num: nat)
    requires FillFrom(js, p, toks, count, num).result != NOMEM
    ensures FillFrom(js, p, toks, count, num).result >= 0 <==> Matches(js, p, OpenKinds(toks))
    decreases |js| - p
  {
    if !Over(js, p) {
      var (item, next) := Lex(js, p);
      var fed := Feed(toks, item, p, num);
      FeedStacks(toks, item, p, num);
      if fed.Tokens? { FillMatches(js, next, fed.toks, count + Weight(item), num); }
    }
  }

  // ----- token intervals -----

  /** Before position p: tokens start in order, those closed end by p, and a closed token either
      ends before a later one starts or contains it. */
  ghost predicate Apart(t: Tok, u: Tok) {
    t.start < u.start && (t.end == -1 || t.end <= u.start || (u.end != -1 && u.end <= t.end))
  }

  ghost predicate TokOk(t: Tok, p: nat) { 0 <= t.start < p && (t.end == -1 || t.start <= t.end <= p) }

  ghost predicate Nested(toks: seq<Tok>, p: nat) {
    && (forall i :: 0 <= i < |toks| ==> TokOk(toks[i], p))
    && (forall i, j :: 0 <= i < j < |toks| ==> Apart(toks[i], toks[j]))
  }

  lemma NestedAdds(toks: seq<Tok>, p: nat, t: Tok, next: nat)
    requires Nested(toks, p) && p <= t.start && p <= next && TokOk(t, next)
    ensures Nested(toks + [t], next)
  {
  }

  lemma NestedCloses(toks: seq<Tok>, p: nat)
    requires Nested(toks, p) && LastOpen(toks) >= 0
    ensures var i := LastOpen(toks); Nested(toks[i := toks[i].(end := p + 1)], p + 1)
  {
  }

  lemma {:induction false} FillNests(js: string, p: nat, toks: seq<Tok>, count: nat, num: nat)
    requires Nested(toks, p) && p <= |js| && FillFrom(js, p, toks, count, num).result >= 0
    ensures Nested(FillFrom(js, p, toks, count, num).toks, |js|) &&
            LastOpen(FillFrom(js, p, toks, count, num).toks) == -1
    decreases |js| - p
  {
    if Over(js, p) {
      forall i | 0 <= i < |toks| ensures TokOk(toks[i], |js|) { assert TokOk(toks[i], p); }
    } else {
      var (item, next) := Lex(js, p);
      if item.Leaf? { NestedAdds(toks, p, Tok(item.kind, item.start, item.end), next); }
      else if item.Opening? { NestedAdds(toks, p, Tok(item.kind, p, -1), next); }
      else if item.Closing? { NestedCloses(toks, p); }
      else { forall i | 0 <= i < |toks| ensures TokOk(toks[i], next) { assert TokOk(toks[i], p); } }
      FillNests(js, next, Feed(toks, item, p, num).toks, count + Weight(item), num);
    }
  }

  // ----- main result -----

  /** A text that counts c tokens: filling an array of c never answers NOMEM; it succeeds exactly if
      the brackets outside strings match, and then all c tokens are filled, lie in the text, and
      any two of them are disjoint or nested. */
  lemma CountedTextFills(js: string)
    requires CountFrom(js, 0, 0) >= 0
    ensures var c, out := CountFrom(js, 0, 0), FillFrom(js, 0, [], 0, CountFrom(js, 0, 0));
            && out.result != NOMEM
            && (out.result >= 0 <==> Matches(js, 0, []))
            && (out.result >= 0 ==> out.result == c == |out.toks|)
            && (out.result >= 0 ==> forall i :: 0 <= i < c ==> 0 <= out.toks[i].start <= out.toks[i].end <= |js|)
            && (out.result >= 0 ==> forall i, j :: 0 <= i < j < c ==>
                  out.toks[i].start < out.toks[j].start
                  && (out.toks[i].end <= out.toks[j].start || out.toks[j].end <= out.toks[i].end))
  {
    var c := CountFrom(js, 0, 0);
    var out := FillFrom(js, 0, [], 0, c);
    CountThenFill(js, 0, [], 0, c);
    FillMatches(js, 0, [], 0, c);
    if out.result >= 0 {
      FillNests(js, 0, [], 0, c);
      forall i | 0 <= i < c ensures 0 <= out.toks[i].start <= out.toks[i].end <= |js| {
        assert TokOk(out.toks[i], |js|) && !IsOpen(out.toks[i]);
      }
      forall i, j | 0 <= i < j < c
        ensures out.toks[i].start < out.toks[j].start
                && (out.toks[i].end <= out.toks[j].start || out.toks[j].end <= out.toks[i].end) {
        assert Apart(out.toks[i], out.toks[j]);
      }
    }
  }

  /** A filling pass that succeeds agrees with the counting pass and stays within its room. */
  lemma {:induction false} FillCounts(js: string, p: nat, toks: seq<Tok>, count: nat, num: nat)
    requires FillFrom(js, p, toks, count, num).result >= 0 && |toks| <= num
    ensures CountFrom(js, p, count) == FillFrom(js, p, toks, count, num).result
    ensures |FillFrom(js, p, toks, count, num).toks| == |toks| + CountFrom(js, p, count) - count <= num
    decreases |js| - p
  {
    if !Over(js, p) {
      var (item, next) := Lex(js, p);
      FillCounts(js, next, Feed(toks, item, p, num).toks, count + Weight(item), num);
    }
  }

  lemma {:induction false} MatchesCounts(js: string, p: nat, stack: seq<Kind>, count: nat)
    requires Matches(js, p, stack)
    ensures CountFrom(js, p, count) >= 0
    decreases |js| - p
  {
    if !Over(js, p) {
      var (item, next) := Lex(js, p);
      MatchesCounts(js, next, Stacked(stack, item).value, count + Weight(item));
    }
  }

  /** Filling succeeds exactly if the brackets match and there is room for the tokens counted. */
  lemma FillsIff(js: string, num: nat)
    ensures FillFrom(js, 0, [], 0, num).result >= 0 <==> Matches(js, 0, []) && CountFrom(js, 0, 0) <= num
  {
    if FillFrom(js, 0, [], 0, num).result >= 0 {
      FillCounts(js, 0, [], 0, num);
      FillMatches(js, 0, [], 0, num);
    }
    if Matches(js, 0, []) && CountFrom(js, 0, 0) <= num {
      MatchesCounts(js, 0, [], 0);
      CountThenFill(js, 0, [], 0, num);
      FillMatches(js, 0, [], 0, num);
    }
  }
}
