/** JSON documents written out by characters, as RFC 8259 does, and what lib/libbmk_core/jsmn.c reads
    in them: nothing here is defined by the tokenizer's own tests on characters. */
module JsonText {
  import opened Jsmn
  import opened JsonTree

  // ----- characters -----

  /** A character inside a string: as it is, after a backslash, or by four hexadecimal digits. */
  datatype Letter = Plain(c: char) | Escaped(c: char) | Unicode(digits: string)

  predicate Digit16(c: char) { '0' <= c <= '9' || 'a' <= c <= 'f' || 'A' <= c <= 'F' }

  predicate Escapable(c: char) {
    c == '\"' || c == '\\' || c == '/' || c == 'b' || c == 'f' || c == 'n' || c == 'r' || c == 't'
  }

  /** Section 7 of RFC 8259 also keeps control characters out of strings; here only NUL is. */
  predicate LetterOk(l: Letter) {
    match l
    case Plain(c) => c != '\"' && c != '\\' && c != '\0'
    case Escaped(c) => Escapable(c)
    case Unicode(ds) => |ds| == 4 && Digit16(ds[0]) && Digit16(ds[1]) && Digit16(ds[2]) && Digit16(ds[3])
  }

  function LetterText(l: Letter): string {
    match l
    case Plain(c) => [c]
    case Escaped(c) => ['\\', c]
    case Unicode(ds) => ['\\', 'u'] + ds
  }

  predicate LettersOk(ls: seq<Letter>) { ls == [] || (LetterOk(ls[0]) && LettersOk(ls[1..])) }

  function LettersText(ls: seq<Letter>): string { if ls == [] then [] else LetterText(ls[0]) + LettersText(ls[1..]) }

  predicate White(c: char) { c == ' ' || c == '\t' || c == '\n' || c == '\r' }

  /** Characters of a number, a literal or any other primitive. */
  predicate Bare(c: char) { ' ' < c <= '~' && c != ':' && c != ',' && c != ']' && c != '}' }

  predicate AllWhite(s: string) { forall i :: 0 <= i < |s| ==> White(s[i]) }

  predicate BareOk(s: string) {
    s != [] && s[0] != '[' && s[0] != '{' && s[0] != '\"' && forall i :: 0 <= i < |s| ==> Bare(s[i])
  }

  // ----- documents, with the blanks between their parts -----

  datatype Word = Quoted(letters: seq<Letter>) | Plainly(s: string)

  datatype Doc = Scalar(word: Word) | List(items: Items) | Record(fields: Fields)

  /** The blanks of NoItems stand before the closing bracket. */
  datatype Items = NoItems(gap: string) | Entry(before: string, head: Doc, after: string, tail: Items)

  datatype Fields =
    | NoFields(gap: string)
    | Field(before: string, key: Word, between: string, lead: string, value: Doc, after: string, rest: Fields)

  predicate WordOk(word: Word) {
    match word
    case Quoted(ls) => LettersOk(ls)
    case Plainly(s) => BareOk(s)
  }

  predicate DocOk(v: Doc) {
    match v
    case Scalar(word) => WordOk(word)
    case List(items) => ItemsOk(items)
    case Record(fields) => FieldsOk(fields)
  }

  predicate ItemsOk(es: Items) {
    match es
    case NoItems(gap) => AllWhite(gap)
    case Entry(before, head, after, tail) => AllWhite(before) && DocOk(head) && AllWhite(after) && ItemsOk(tail)
  }

  predicate FieldsOk(fs: Fields) {
    match fs
    case NoFields(gap) => AllWhite(gap)
    case Field(before, key, between, lead, value, after, rest) =>
      && AllWhite(before) && WordOk(key) && AllWhite(between) && AllWhite(lead)
      && DocOk(value) && AllWhite(after) && FieldsOk(rest)
  }

  function WordText(word: Word): string {
    match word
    case Quoted(ls) => ['\"'] + (LettersText(ls) + ['\"'])
    case Plainly(s) => s
  }

  function Text(v: Doc): string {
    match v
    case Scalar(word) => WordText(word)
    case List(items) => ['['] + (ItemsText(items, true) + [']'])
    case Record(fields) => ['{'] + (FieldsText(fields, true) + ['}'])
  }

  function Separator(first: bool): string { if first then [] else [','] }

  function ItemsText(es: Items, first: bool): string {
    match es
    case NoItems(gap) => gap
    case Entry(before, head, after, tail) =>
      Separator(first) + (before + (Text(head) + (after + ItemsText(tail, false))))
  }

  function FieldsText(fs: Fields, first: bool): string {
    match fs
    case NoFields(gap) => gap
    case Field(before, key, between, lead, value, after, rest) =>
      Separator(first) + (before + (WordText(key) + ((between + ([':'] + lead)) + (Text(value) + (after +
      FieldsText(rest, false))))))
  }

  // ----- what should be read -----

  /** The document without its characters. */
  function Shape(v: Doc): Json {
    match v
    case Scalar(word) => Atom(word.Quoted?)
    case List(items) => Arr(ItemShapes(items))
    case Record(fields) => Obj(FieldShapes(fields))
  }

  function ItemShapes(es: Items): Elems {
    match es
    case NoItems(_) => NoElems
    case Entry(_, head, _, tail) => Elem(Shape(head), ItemShapes(tail))
  }

  function FieldShapes(fs: Fields): Members {
    match fs
    case NoFields(_) => NoMembers
    case Field(_, key, _, _, value, _, rest) => Member(key.Quoted?, Shape(value), FieldShapes(rest))
  }

  /** What a token should cut out of the text: a string without its quotes, the characters of a
      primitive, a list or record from bracket to bracket. */
  datatype Cut = Cut(kind: Kind, text: string)

  function WordCut(word: Word): Cut {
    match word
    case Quoted(ls) => Cut(Str, LettersText(ls))
    case Plainly(s) => Cut(Primitive, s)
  }

  /** In preorder. */
  function Cuts(v: Doc): seq<Cut> {
    match v
    case Scalar(word) => [WordCut(word)]
    case List(items) => [Cut(Array, Text(v))] + ItemCuts(items)
    case Record(fields) => [Cut(Object, Text(v))] + FieldCuts(fields)
  }

  function ItemCuts(es: Items): seq<Cut> {
    match es
    case NoItems(_) => []
    case Entry(_, head, _, tail) => Cuts(head) + ItemCuts(tail)
  }

  function FieldCuts(fs: Fields): seq<Cut> {
    match fs
    case NoFields(_) => []
    case Field(_, key, _, _, value, _, rest) => [WordCut(key)] + (Cuts(value) + FieldCuts(rest))
  }

  // ----- places in a text -----

  /** s stands at p. */
  ghost predicate Stands(js: string, p: nat, s: string) {
    p + |s| <= |js| && forall i :: p <= i < p + |s| ==> js[i] == s[i - p]
  }

  lemma Slice(js: string, p: nat, s: string)
    requires Stands(js, p, s)
    ensures js[p..p + |s|] == s
  {
  }

  lemma Halves(js: string, p: nat, a: string, b: string)
    requires Stands(js, p, a + b)
    ensures Stands(js, p, a) && Stands(js, p + |a|, b)
  {
    forall i | p <= i < p + |a| ensures js[i] == a[i - p] { assert (a + b)[i - p] == a[i - p]; }
    forall i | p + |a| <= i < p + |a| + |b| ensures js[i] == b[i - p - |a|] {
      assert (a + b)[i - p] == b[i - p - |a|];
    }
  }

  lemma Joined(js: string, p: nat, a: string, b: string)
    requires Stands(js, p, a) && Stands(js, p + |a|, b)
    ensures Stands(js, p, a + b)
  {
  }

  lemma CharAt(js: string, p: nat, s: string, i: nat)
    requires Stands(js, p, s) && i < |s|
    ensures p + i < |js| && js[p + i] == s[i]
  {
  }

  lemma First(js: string, p: nat, c: char, s: string)
    requires Stands(js, p, [c] + s)
    ensures p < |js| && js[p] == c && Stands(js, p + 1, s)
  {
    CharAt(js, p, [c] + s, 0);
    Halves(js, p, [c], s);
  }

  lemma ListPlaces(js: string, p: nat, open: char, inside: string, close: char)
    requires Stands(js, p, [open] + (inside + [close]))
    ensures p < |js| && js[p] == open && Stands(js, p + 1, inside)
    ensures var q := p + 1 + |inside|; q < |js| && js[q] == close
  {
    First(js, p, open, inside + [close]);
    Halves(js, p + 1, inside, [close]);
    CharAt(js, p + 1 + |inside|, [close], 0);
  }

  // ----- strings -----

  /** k hexadecimal digits stand at p. */
  ghost predicate Digits16(js: string, p: nat, k: nat) {
    p + k <= |js| && forall i :: p <= i < p + k ==> Digit16(js[i])
  }

  /** After k digits comes something else, or the end of the text. */
  ghost predicate Stops(js: string, p: nat, k: nat) {
    Digits16(js, p, k) && !Over(js, p + k) && !Digit16(js[p + k])
  }

  ghost predicate RunsOut(js: string, p: nat, k: nat) { Digits16(js, p, k) && Over(js, p + k) }

  ghost predicate BadHex(js: string, p: nat) { exists k :: 0 <= k < 4 && Stops(js, p, k) }

  ghost predicate ShortHex(js: string, p: nat) { exists k :: 0 <= k < 4 && RunsOut(js, p, k) }

  /** A backslash with something behind it that is no escape. */
  ghost predicate BadEscape(js: string, q: nat) {
    && q + 1 < |js| && js[q] == '\\' && !Escapable(js[q + 1])
    && (js[q + 1] == 'u' ==> BadHex(js, q + 2))
  }

  /** The text is over, or is so within an escape that has begun. */
  ghost predicate Unclosed(js: string, q: nat) {
    || Over(js, q) || (js[q] == '\\' && q + 1 == |js|)
    || (js[q] == '\\' && js[q + 1] == 'u' && ShortHex(js, q + 2))
  }

  lemma {:induction false} HexStops(js: string, p: nat, n: nat, k: nat)
    requires k <= n && Digits16(js, p, k)
    ensures k == n ==> Hex(js, p, n) == At(p + k)
    ensures k < n && Over(js, p + k) ==> Hex(js, p, n) == At(p + k)
    ensures k < n && !Over(js, p + k) && !Digit16(js[p + k]) ==> Hex(js, p, n) == Bad(INVAL)
    decreases n
  {
    if k > 0 {
      assert Digit16(js[p]);
      HexStops(js, p + 1, n - 1, k - 1);
    }
  }

  lemma LetterRead(js: string, p: nat, l: Letter)
    requires LetterOk(l) && Stands(js, p, LetterText(l))
    ensures StringEnd(js, p) == StringEnd(js, p + |LetterText(l)|)
  {
    CharAt(js, p, LetterText(l), 0);
    match l
    case Plain(_) =>
    case Escaped(_) => CharAt(js, p, LetterText(l), 1);
    case Unicode(ds) =>
      CharAt(js, p, LetterText(l), 1);
      Halves(js, p, ['\\', 'u'], ds);
      forall i | p + 2 <= i < p + 6 ensures Digit16(js[i]) { CharAt(js, p + 2, ds, i - p - 2); }
      HexStops(js, p + 2, 4, 4);
  }

  lemma {:induction false} LettersRead(js: string, p: nat, ls: seq<Letter>, q: nat, end: Scan)
    requires LettersOk(ls) && Stands(js, p, LettersText(ls)) && q == p + |LettersText(ls)| && StringEnd(js, q) == end
    ensures StringEnd(js, p) == end
    decreases |ls|
  {
    if ls != [] {
      var a, b := LetterText(ls[0]), LettersText(ls[1..]);
      Halves(js, p, a, b);
      LetterRead(js, p, ls[0]);
      LettersRead(js, p + |a|, ls[1..], q, end);
    }
  }

  lemma HexLaw(js: string, p: nat)
    ensures BadHex(js, p) ==> Hex(js, p, 4) == Bad(INVAL)
    ensures ShortHex(js, p) ==> Hex(js, p, 4).At? && Over(js, Hex(js, p, 4).p)
  {
    forall k | 0 <= k < 4 && Stops(js, p, k) ensures Hex(js, p, 4) == Bad(INVAL) { HexStops(js, p, 4, k); }
    forall k | 0 <= k < 4 && RunsOut(js, p, k) ensures Hex(js, p, 4) == At(p + k) { HexStops(js, p, 4, k); }
  }

  lemma StringStops(js: string, q: nat)
    ensures q < |js| && js[q] == '\"' ==> StringEnd(js, q) == At(q)
    ensures BadEscape(js, q) ==> StringEnd(js, q) == Bad(INVAL)
    ensures Unclosed(js, q) ==> StringEnd(js, q) == Bad(PART)
  {
    HexLaw(js, q + 2);
  }

  /** Letters and what comes after them: a quote closes the string, a bad escape or a bad
      hexadecimal digit is refused, and so is a text that is over too soon. */
  lemma StringLaw(js: string, p: nat, ls: seq<Letter>)
    requires LettersOk(ls) && Stands(js, p, LettersText(ls))
    ensures var q := p + |LettersText(ls)|;
            && (q < |js| && js[q] == '\"' ==> StringEnd(js, p) == At(q))
            && (BadEscape(js, q) ==> StringEnd(js, p) == Bad(INVAL))
            && (Unclosed(js, q) ==> StringEnd(js, p) == Bad(PART))
  {
    var q := p + |LettersText(ls)|;
    StringStops(js, q);
    if q < |js| && js[q] == '\"' { LettersRead(js, p, ls, q, At(q)); }
    if BadEscape(js, q) { LettersRead(js, p, ls, q, Bad(INVAL)); }
    if Unclosed(js, q) { LettersRead(js, p, ls, q, Bad(PART)); }
  }

  /** The digits from p on, up to n of them, and why there are no more. */
  lemma {:induction false} HexCases(js: string, p: nat, n: nat) returns (k: nat)
    requires p <= |js|
    ensures k <= n && Digits16(js, p, k) && (k < n ==> Stops(js, p, k) || RunsOut(js, p, k))
    decreases n
  {
    if n == 0 || Over(js, p) || !Digit16(js[p]) {
      k := 0;
    } else {
      k := HexCases(js, p + 1, n - 1);
      k := k + 1;
    }
  }

  /** The letter at p, or none if the string goes no further. */
  lemma LetterCases(js: string, p: nat) returns (ls: seq<Letter>)
    requires p <= |js|
    ensures |ls| <= 1 && (ls != [] ==> LetterOk(ls[0]) && Stands(js, p, LetterText(ls[0])))
    ensures ls == [] ==> (p < |js| && js[p] == '\"') || BadEscape(js, p) || Unclosed(js, p)
  {
    ls := [];
    if !Over(js, p) && js[p] != '\"' {
      if js[p] != '\\' {
        ls := [Plain(js[p])];
      } else if p + 1 < |js| && Escapable(js[p + 1]) {
        ls := [Escaped(js[p + 1])];
      } else if p + 1 < |js| && js[p + 1] == 'u' {
        var k := HexCases(js, p + 2, 4);
        if k == 4 {
          assert Digit16(js[p + 2]) && Digit16(js[p + 3]) && Digit16(js[p + 4]) && Digit16(js[p + 5]);
          ls := [Unicode(js[p + 2..p + 6])];
          assert js[p..p + 6] == ['\\', 'u'] + js[p + 2..p + 6];
        }
      }
    }
  }

  /** There is no fourth case: from every place some letters lead to one of the three. */
  lemma {:induction false} StringCases(js: string, p: nat) returns (ls: seq<Letter>, q: nat)
    requires p <= |js|
    ensures LettersOk(ls) && Stands(js, p, LettersText(ls)) && q == p + |LettersText(ls)|
    ensures (q < |js| && js[q] == '\"') || BadEscape(js, q) || Unclosed(js, q)
    decreases |js| - p
  {
    var l := LetterCases(js, p);
    if l == [] {
      ls, q := [], p;
    } else {
      var rest;
      rest, q := StringCases(js, p + |LetterText(l[0])|);
      ls := Preceded(js, p, l[0], rest);
    }
  }

  lemma Preceded(js: string, p: nat, l: Letter, rest: seq<Letter>) returns (ls: seq<Letter>)
    requires LetterOk(l) && Stands(js, p, LetterText(l))
    requires LettersOk(rest) && Stands(js, p + |LetterText(l)|, LettersText(rest))
    ensures LettersOk(ls) && Stands(js, p, LettersText(ls))
    ensures |LettersText(ls)| == |LetterText(l)| + |LettersText(rest)|
  {
    ls := [l] + rest;
    assert ls[1..] == rest;
    Joined(js, p, LetterText(l), LettersText(rest));
  }

  /** A string is closed exactly if letters lead to a quote; otherwise it is refused, and why. */
  lemma StringVerdict(js: string, p: nat) returns (ls: seq<Letter>, q: nat)
    requires p <= |js|
    ensures LettersOk(ls) && Stands(js, p, LettersText(ls)) && q == p + |LettersText(ls)|
    ensures || (StringEnd(js, p) == At(q) && q < |js| && js[q] == '\"')
            || (StringEnd(js, p) == Bad(INVAL) && BadEscape(js, q))
            || (StringEnd(js, p) == Bad(PART) && Unclosed(js, q))
  {
    ls, q := StringCases(js, p);
    StringLaw(js, p, ls);
  }

  // ----- primitives -----

  /** A bare character goes on with a primitive; a blank, a separator, a closing bracket or the end
      of the text ends it, and any other character is refused. */
  ghost predicate EndsBare(js: string, q: nat) {
    forall i :: q <= i < q + 1 && !Over(js, i) ==>
      White(js[i]) || js[i] == ':' || js[i] == ',' || js[i] == ']' || js[i] == '}'
  }

  lemma {:induction false} BareLaw(js: string, p: nat, s: string)
    requires Stands(js, p, s) && forall i :: 0 <= i < |s| ==> Bare(s[i])
    ensures var q := p + |s|;
            && (EndsBare(js, q) ==> PrimitiveEnd(js, p) == At(q))
            && (!EndsBare(js, q) && !Bare(js[q]) ==> PrimitiveEnd(js, p) == Bad(INVAL))
    decreases |s|
  {
    if s != [] {
      assert [s[0]] + s[1..] == s;
      First(js, p, s[0], s[1..]);
      BareLaw(js, p + 1, s[1..]);
    }
  }

  // ----- moving through a text -----

  /** What is still to come at p: the signs, and the tokens with those there are. */
  ghost function Future(js: string, p: nat, toks: seq<Tok>, num: nat): (seq<Sign>, Filled) {
    (SignsOf(js, p), FillFrom(js, p, toks, |toks|, num))
  }

  /** From p to q the text shows the signs ss, and the tokens grow from toks to toks' if there is room. */
  ghost predicate Moves(js: string, p: nat, q: nat, ss: seq<Sign>, toks: seq<Tok>, toks': seq<Tok>) {
    && |toks| <= |toks'|
    && forall num :: |toks'| <= num ==>
         Future(js, p, toks, num) == (ss + Future(js, q, toks', num).0, Future(js, q, toks', num).1)
  }

  lemma Stays(js: string, p: nat, toks: seq<Tok>)
    ensures Moves(js, p, p, [], toks, toks)
  {
    forall num | |toks| <= num
      ensures Future(js, p, toks, num) == ([] + Future(js, p, toks, num).0, Future(js, p, toks, num).1) {
      assert [] + Future(js, p, toks, num).0 == Future(js, p, toks, num).0;
    }
  }

  lemma MovesOn(js: string, p: nat, q: nat, r: nat, ss: seq<Sign>, more: seq<Sign>, all: seq<Sign>,
                t: seq<Tok>, t1: seq<Tok>, t2: seq<Tok>)
    requires Moves(js, p, q, ss, t, t1) && Moves(js, q, r, more, t1, t2) && all == ss + more
    ensures Moves(js, p, r, all, t, t2)
  {
    forall num | |t2| <= num
      ensures Future(js, p, t, num) == (all + Future(js, r, t2, num).0, Future(js, r, t2, num).1) {
      assert ss + (more + Future(js, r, t2, num).0) == all + Future(js, r, t2, num).0;
    }
  }

  lemma SignsStep(js: string, p: nat, item: Jsmn.Item, next: nat, ss: seq<Sign>)
    requires !Over(js, p) && Lex(js, p) == (item, next) && !item.Wrong?
    requires ss == if item.Space? then [] else [SignOf(item)]
    ensures SignsOf(js, p) == ss + SignsOf(js, next)
  {
    assert [] + SignsOf(js, next) == SignsOf(js, next);
  }

  lemma FillStep(js: string, p: nat, item: Jsmn.Item, next: nat, toks: seq<Tok>, toks': seq<Tok>, num: nat)
    requires !Over(js, p) && Lex(js, p) == (item, next) && |toks'| == |toks| + Weight(item) && |toks'| <= num
    requires Feed(toks, item, p, |toks'|) == Tokens(toks')
    ensures FillFrom(js, p, toks, |toks|, num) == FillFrom(js, next, toks', |toks'|, num)
  {
    FillOne(js, p, toks, |toks|, num);
  }

  /** One item. */
  lemma ItemMoves(js: string, p: nat, item: Jsmn.Item, next: nat, ss: seq<Sign>, toks: seq<Tok>, toks': seq<Tok>)
    requires !Over(js, p) && Lex(js, p) == (item, next) && !item.Wrong? && |toks'| == |toks| + Weight(item)
    requires Feed(toks, item, p, |toks'|) == Tokens(toks') && ss == if item.Space? then [] else [SignOf(item)]
    ensures Moves(js, p, next, ss, toks, toks')
  {
    forall num | |toks'| <= num
      ensures Future(js, p, toks, num) == (ss + Future(js, next, toks', num).0, Future(js, next, toks', num).1) {
      SignsStep(js, p, item, next, ss);
      FillStep(js, p, item, next, toks, toks', num);
    }
  }

  lemma MarkMoves(js: string, p: nat, item: Jsmn.Item, ss: seq<Sign>, toks: seq<Tok>)
    requires p < |js| && (item.Space? || item.Comma? || item.Colon?)
    requires item.Space? <==> White(js[p])
    requires item.Comma? <==> js[p] == ','
    requires item.Colon? <==> js[p] == ':'
    requires ss == if item.Space? then [] else [SignOf(item)]
    ensures Moves(js, p, p + 1, ss, toks, toks)
  {
    ItemMoves(js, p, item, p + 1, ss, toks, toks);
  }

  lemma {:induction false} WhiteMoves(js: string, p: nat, s: string, toks: seq<Tok>)
    requires Stands(js, p, s) && AllWhite(s)
    ensures Moves(js, p, p + |s|, [], toks, toks)
    decreases |s|
  {
    if s == [] {
      Stays(js, p, toks);
    } else {
      assert [s[0]] + s[1..] == s;
      First(js, p, s[0], s[1..]);
      MarkMoves(js, p, Space, [], toks);
      WhiteMoves(js, p + 1, s[1..], toks);
      MovesOn(js, p, p + 1, p + |s|, [], [], [], toks, toks, toks);
    }
  }

  /** Each token cuts out what it should. */
  ghost predicate CutOut(js: string, t: Tok, c: Cut) {
    0 <= t.start <= t.end <= |js| && t.kind == c.kind && js[t.start..t.end] == c.text
  }

  ghost predicate CutsOut(js: string, toks: seq<Tok>, cuts: seq<Cut>) {
    |toks| == |cuts| && forall i :: 0 <= i < |toks| ==> CutOut(js, toks[i], cuts[i])
  }

  function WordTok(word: Word, p: nat): Tok {
    match word
    case Quoted(ls) => Tok(Str, p + 1, p + 1 + |LettersText(ls)|)
    case Plainly(s) => Tok(Primitive, p, p + |s|)
  }

  lemma StringCloses(js: string, p: nat, ls: seq<Letter>, q: nat)
    requires LettersOk(ls) && Stands(js, p, LettersText(ls)) && q == p + |LettersText(ls)| < |js| && js[q] == '\"'
    ensures StringEnd(js, p) == At(q)
  {
    StringLaw(js, p, ls);
  }

  lemma QuoteLexed(js: string, p: nat, q: nat)
    requires p < |js| && js[p] == '\"' && StringEnd(js, p + 1) == At(q)
    ensures Lex(js, p) == (Leaf(Str, p + 1, q), q + 1)
  {
  }

  /** A leaf is one item. */
  lemma QuotedLexed(js: string, p: nat, ls: seq<Letter>, q: nat)
    requires LettersOk(ls) && p < |js| && js[p] == '\"' && Stands(js, p + 1, LettersText(ls))
    requires q == p + 1 + |LettersText(ls)| < |js| && js[q] == '\"'
    ensures Lex(js, p) == (Leaf(Str, p + 1, q), q + 1)
  {
    StringCloses(js, p + 1, ls, q);
    QuoteLexed(js, p, q);
  }

  lemma BareLexed(js: string, p: nat, s: string)
    requires BareOk(s) && Stands(js, p, s) && EndsBare(js, p + |s|)
    ensures !Over(js, p) && Lex(js, p) == (Leaf(Primitive, p, p + |s|), p + |s|)
  {
    CharAt(js, p, s, 0);
    BareLaw(js, p, s);
  }

  /** A leaf that has been lexed. */
  lemma LexedMoves(js: string, p: nat, t: Tok, q: nat, toks: seq<Tok>)
    requires !Over(js, p) && 0 <= t.start && 0 <= t.end && Lex(js, p) == (Leaf(t.kind, t.start, t.end), q)
    ensures Moves(js, p, q, [Value(t.kind)], toks, toks + [t])
  {
    ItemMoves(js, p, Leaf(t.kind, t.start, t.end), q, [Value(t.kind)], toks, toks + [t]);
  }

  lemma QuotedMoves(js: string, p: nat, ls: seq<Letter>, q: nat, toks: seq<Tok>)
    requires LettersOk(ls) && p < |js| && js[p] == '\"' && Stands(js, p + 1, LettersText(ls))
    requires q == p + 1 + |LettersText(ls)| < |js| && js[q] == '\"'
    ensures Moves(js, p, q + 1, [Value(Str)], toks, toks + [Tok(Str, p + 1, q)])
  {
    QuotedLexed(js, p, ls, q);
    LexedMoves(js, p, Tok(Str, p + 1, q), q + 1, toks);
  }

  lemma BareMoves(js: string, p: nat, s: string, toks: seq<Tok>)
    requires BareOk(s) && Stands(js, p, s) && EndsBare(js, p + |s|)
    ensures Moves(js, p, p + |s|, [Value(Primitive)], toks, toks + [Tok(Primitive, p, p + |s|)])
  {
    BareLexed(js, p, s);
    LexedMoves(js, p, Tok(Primitive, p, p + |s|), p + |s|, toks);
  }

  lemma WordMoves(js: string, p: nat, word: Word, toks: seq<Tok>)
    requires WordOk(word) && Stands(js, p, WordText(word)) && EndsBare(js, p + |WordText(word)|)
    ensures Moves(js, p, p + |WordText(word)|, [Value(LeafKind(word.Quoted?))], toks, toks + [WordTok(word, p)])
  {
    match word
    case Quoted(ls) =>
      ListPlaces(js, p, '\"', LettersText(ls), '\"');
      QuotedMoves(js, p, ls, p + 1 + |LettersText(ls)|, toks);
    case Plainly(s) => BareMoves(js, p, s, toks);
  }

  lemma WordCutOut(js: string, p: nat, word: Word)
    requires Stands(js, p, WordText(word))
    ensures CutOut(js, WordTok(word, p), WordCut(word))
  {
    match word
    case Quoted(ls) =>
      ListPlaces(js, p, '\"', LettersText(ls), '\"');
      Slice(js, p + 1, LettersText(ls));
    case Plainly(s) => Slice(js, p, s);
  }

  lemma SeparatorMoves(js: string, p: nat, first: bool, toks: seq<Tok>)
    requires Stands(js, p, Separator(first))
    ensures Moves(js, p, p + |Separator(first)|, Lead(first), toks, toks)
  {
    if first {
      Stays(js, p, toks);
    } else {
      CharAt(js, p, Separator(first), 0);
      MarkMoves(js, p, Comma, [Next], toks);
    }
  }

  lemma ColonMoves(js: string, p: nat, toks: seq<Tok>)
    requires Stands(js, p, [':'])
    ensures Moves(js, p, p + 1, [Pair], toks, toks)
  {
    CharAt(js, p, [':'], 0);
    MarkMoves(js, p, Colon, [Pair], toks);
  }

  function OpenMark(kind: Kind): char { if kind == Object then '{' else '[' }
  function CloseMark(kind: Kind): char { if kind == Object then '}' else ']' }

  lemma OpenMoves(js: string, p: nat, kind: Kind, toks: seq<Tok>)
    requires p < |js| && js[p] == OpenMark(kind) && IsContainer(kind)
    ensures Moves(js, p, p + 1, [Open(kind)], toks, toks + [Tok(kind, p, -1)])
  {
    ItemMoves(js, p, Opening(kind), p + 1, [Open(kind)], toks, toks + [Tok(kind, p, -1)]);
  }

  lemma {:induction false} OpenedLast(toks: seq<Tok>, t: Tok, more: seq<Tok>)
    requires IsOpen(t) && forall i :: 0 <= i < |more| ==> !IsOpen(more[i])
    ensures LastOpen(toks + [t] + more) == |toks|
    decreases |more|
  {
    var all, n := toks + [t] + more, |more| - 1;
    if more == [] {
      assert all == toks + [t];
    } else {
      assert all[..|all| - 1] == toks + [t] + more[..n];
      OpenedLast(toks, t, more[..n]);
    }
  }

  lemma CloseMoves(js: string, p: nat, q: nat, kind: Kind, toks: seq<Tok>, more: seq<Tok>, cuts: seq<Cut>)
    requires q < |js| && js[q] == CloseMark(kind) && IsContainer(kind) && CutsOut(js, more, cuts)
    ensures Moves(js, q, q + 1, [Close(kind)], toks + [Tok(kind, p, -1)] + more,
                  toks + ([Tok(kind, p, q + 1)] + more))
  {
    var t := Tok(kind, p, -1);
    forall i | 0 <= i < |more| ensures !IsOpen(more[i]) { assert CutOut(js, more[i], cuts[i]); }
    OpenedLast(toks, t, more);
    var all := toks + [t] + more;
    assert all[|toks|] == t;
    assert all[|toks| := t.(end := q + 1)] == toks + ([Tok(kind, p, q + 1)] + more);
    ItemMoves(js, q, Closing(kind), q + 1, [Close(kind)], all, toks + ([Tok(kind, p, q + 1)] + more));
  }

  // ----- what ends a primitive in a document -----

  ghost predicate Ending(s: string) {
    s != [] ==> White(s[0]) || s[0] == ':' || s[0] == ',' || s[0] == ']' || s[0] == '}'
  }

  lemma EndsAt(js: string, p: nat, s: string)
    requires Stands(js, p, s) && Ending(s) && EndsBare(js, p + |s|)
    ensures EndsBare(js, p)
  {
    if s != [] { CharAt(js, p, s, 0); }
  }

  lemma ItemsEnding(gap: string, es: Items)
    requires AllWhite(gap) && ItemsOk(es)
    ensures Ending(gap + ItemsText(es, false))
  {
    if gap == [] { assert gap + ItemsText(es, false) == ItemsText(es, false); }
  }

  lemma FieldsEnding(gap: string, fs: Fields)
    requires AllWhite(gap) && FieldsOk(fs)
    ensures Ending(gap + FieldsText(fs, false))
  {
    if gap == [] { assert gap + FieldsText(fs, false) == FieldsText(fs, false); }
  }

  // ----- documents -----

  /** Some text from p to q, read as the signs ss and cut as it should be. */
  ghost predicate Reads(js: string, p: nat, q: nat, ss: seq<Sign>, toks: seq<Tok>, more: seq<Tok>, cuts: seq<Cut>) {
    Moves(js, p, q, ss, toks, toks + more) && CutsOut(js, more, cuts)
  }

  lemma ReadsOn(js: string, p: nat, q: nat, r: nat, s1: seq<Sign>, s2: seq<Sign>, ss: seq<Sign>, toks: seq<Tok>,
                m1: seq<Tok>, m2: seq<Tok>, c1: seq<Cut>, c2: seq<Cut>, cuts: seq<Cut>)
    requires Reads(js, p, q, s1, toks, m1, c1) && Reads(js, q, r, s2, toks + m1, m2, c2)
    requires ss == s1 + s2 && cuts == c1 + c2
    ensures Reads(js, p, r, ss, toks, m1 + m2, cuts)
  {
    assert toks + m1 + m2 == toks + (m1 + m2);
    MovesOn(js, p, q, r, s1, s2, ss, toks, toks + m1, toks + (m1 + m2));
  }

  lemma QuietThenReads(js: string, p: nat, q: nat, r: nat, s1: seq<Sign>, s2: seq<Sign>, ss: seq<Sign>,
                       toks: seq<Tok>, more: seq<Tok>, cuts: seq<Cut>)
    requires Moves(js, p, q, s1, toks, toks) && Reads(js, q, r, s2, toks, more, cuts) && ss == s1 + s2
    ensures Reads(js, p, r, ss, toks, more, cuts)
  {
    MovesOn(js, p, q, r, s1, s2, ss, toks, toks, toks + more);
  }

  lemma ReadsThenQuiet(js: string, p: nat, q: nat, r: nat, ss: seq<Sign>, toks: seq<Tok>, more: seq<Tok>,
                       cuts: seq<Cut>)
    requires Reads(js, p, q, ss, toks, more, cuts) && Moves(js, q, r, [], toks + more, toks + more)
    ensures Reads(js, p, r, ss, toks, more, cuts)
  {
    MovesOn(js, p, q, r, ss, [], ss, toks, toks + more, toks + more);
  }

  lemma Places(js: string, p: nat, a: string, b: string, c: string, d: string)
    requires Stands(js, p, a + (b + (c + d)))
    ensures Stands(js, p, a) && Stands(js, p + |a|, b) && Stands(js, p + |a| + |b|, c)
    ensures Stands(js, p + |a| + |b| + |c|, d)
  {
    Halves(js, p, a, b + (c + d));
    Halves(js, p + |a|, b, c + d);
    Halves(js, p + |a| + |b|, c, d);
  }

  lemma GapMoves(js: string, p: nat, first: bool, gap: string, toks: seq<Tok>)
    requires Stands(js, p, Separator(first)) && Stands(js, p + |Separator(first)|, gap) && AllWhite(gap)
    ensures Moves(js, p, p + |Separator(first)| + |gap|, Lead(first), toks, toks)
  {
    var p1 := p + |Separator(first)|;
    SeparatorMoves(js, p, first, toks);
    WhiteMoves(js, p1, gap, toks);
    MovesOn(js, p, p1, p1 + |gap|, Lead(first), [], Lead(first), toks, toks, toks);
  }

  lemma {:induction false} DocReads(v: Doc, js: string, p: nat, q: nat, toks: seq<Tok>)
    returns (more: seq<Tok>)
    requires DocOk(v) && Stands(js, p, Text(v)) && q == p + |Text(v)| && EndsBare(js, q)
    ensures Reads(js, p, q, Signs(Shape(v)), toks, more, Cuts(v))
    decreases v, 0
  {
    match v
    case Scalar(word) =>
      WordMoves(js, p, word, toks);
      WordCutOut(js, p, word);
      more := [WordTok(word, p)];
    case List(items) => more := ListReads(v, js, p, q, toks);
    case Record(fields) => more := RecordReads(v, js, p, q, toks);
  }

  lemma ListReads(v: Doc, js: string, p: nat, q: nat, toks: seq<Tok>) returns (more: seq<Tok>)
    requires v.List? && ItemsOk(v.items) && Stands(js, p, Text(v)) && q == p + |Text(v)|
    ensures Reads(js, p, q, Signs(Shape(v)), toks, more, Cuts(v))
    decreases v.items, 2
  {
    ListPlaces(js, p, '[', ItemsText(v.items, true), ']');
    OpenMoves(js, p, Array, toks);
    var inner := ItemsRead(v.items, true, js, p + 1, q - 1, toks + [Tok(Array, p, -1)]);
    more := Bracketed(v, js, p, q, Array, ElemSigns(ItemShapes(v.items), true), toks, inner, ItemCuts(v.items));
  }

  lemma RecordReads(v: Doc, js: string, p: nat, q: nat, toks: seq<Tok>) returns (more: seq<Tok>)
    requires v.Record? && FieldsOk(v.fields) && Stands(js, p, Text(v)) && q == p + |Text(v)|
    ensures Reads(js, p, q, Signs(Shape(v)), toks, more, Cuts(v))
    decreases v.fields, 2
  {
    ListPlaces(js, p, '{', FieldsText(v.fields, true), '}');
    OpenMoves(js, p, Object, toks);
    var inner := FieldsRead(v.fields, true, js, p + 1, q - 1, toks + [Tok(Object, p, -1)]);
    more := Bracketed(v, js, p, q, Object, MemberSigns(FieldShapes(v.fields), true), toks, inner, FieldCuts(v.fields));
  }

  lemma CutsAdd(js: string, t: Tok, text: string, inner: seq<Tok>, cuts: seq<Cut>)
    requires 0 <= t.start && Stands(js, t.start, text) && t.end == t.start + |text| && CutsOut(js, inner, cuts)
    ensures CutsOut(js, [t] + inner, [Cut(t.kind, text)] + cuts)
  {
    Slice(js, t.start, text);
  }

  /** The brackets around what has been read between them. */
  lemma Bracketed(v: Doc, js: string, p: nat, q: nat, kind: Kind, ss: seq<Sign>, toks: seq<Tok>, inner: seq<Tok>,
                  cuts: seq<Cut>) returns (more: seq<Tok>)
    requires Stands(js, p, Text(v)) && q == p + |Text(v)| && p + 2 <= q && IsContainer(kind)
    requires js[p] == OpenMark(kind) && js[q - 1] == CloseMark(kind)
    requires Moves(js, p, p + 1, [Open(kind)], toks, toks + [Tok(kind, p, -1)])
    requires Reads(js, p + 1, q - 1, ss, toks + [Tok(kind, p, -1)], inner, cuts)
    ensures Reads(js, p, q, [Open(kind)] + ss + [Close(kind)], toks, more, [Cut(kind, Text(v))] + cuts)
  {
    var t, unclosed, all := Tok(kind, p, q), toks + [Tok(kind, p, -1)], [Open(kind)] + ss;
    more := [t] + inner;
    CloseMoves(js, p, q - 1, kind, toks, inner, cuts);
    MovesOn(js, p, p + 1, q - 1, [Open(kind)], ss, all, toks, unclosed, unclosed + inner);
    MovesOn(js, p, q - 1, q, all, [Close(kind)], all + [Close(kind)], toks, unclosed + inner, toks + more);
    CutsAdd(js, t, Text(v), inner, cuts);
  }

  lemma {:induction false} ItemsRead(es: Items, first: bool, js: string, p: nat, q: nat, toks: seq<Tok>)
    returns (more: seq<Tok>)
    requires ItemsOk(es) && Stands(js, p, ItemsText(es, first)) && q == p + |ItemsText(es, first)| && EndsBare(js, q)
    ensures Reads(js, p, q, ElemSigns(ItemShapes(es), first), toks, more, ItemCuts(es))
    decreases es, 1
  {
    match es
    case NoItems(gap) =>
      WhiteMoves(js, p, gap, toks);
      more := [];
      assert toks + more == toks;
    case Entry(before, head, after, tail) =>
      var p1, m1 := EntryReads(es, first, js, p, q, toks);
      var m2 := ItemsRead(tail, false, js, p1, q, toks + m1);
      more := m1 + m2;
      ReadsOn(js, p, p1, q, Lead(first) + Signs(Shape(head)), ElemSigns(ItemShapes(tail), false),
              ElemSigns(ItemShapes(es), first), toks, m1, m2, Cuts(head), ItemCuts(tail), ItemCuts(es));
  }

  lemma EntryPlaces(es: Items, first: bool, js: string, p: nat, q: nat) returns (p2: nat, p3: nat)
    requires es.Entry? && ItemsOk(es) && Stands(js, p, ItemsText(es, first)) && q == p + |ItemsText(es, first)|
    requires EndsBare(js, q)
    ensures Stands(js, p, Separator(first)) && Stands(js, p + |Separator(first)|, es.before)
    ensures p2 == p + |Separator(first)| + |es.before| && Stands(js, p2, Text(es.head))
    ensures p3 == p2 + |Text(es.head)| && EndsBare(js, p3) && Stands(js, p3, es.after)
    ensures Stands(js, p3 + |es.after|, ItemsText(es.tail, false))
    ensures q == p3 + |es.after| + |ItemsText(es.tail, false)|
  {
    var sep, tail := Separator(first), ItemsText(es.tail, false);
    p2 := p + |sep| + |es.before|;
    p3 := p2 + |Text(es.head)|;
    Places(js, p, sep, es.before, Text(es.head), es.after + tail);
    ItemsEnding(es.after, es.tail);
    EndsAt(js, p3, es.after + tail);
    Halves(js, p3, es.after, tail);
  }

  /** An element with its comma and blanks. */
  lemma EntryReads(es: Items, first: bool, js: string, p: nat, q: nat, toks: seq<Tok>)
    returns (p4: nat, more: seq<Tok>)
    requires es.Entry? && ItemsOk(es) && Stands(js, p, ItemsText(es, first)) && q == p + |ItemsText(es, first)|
    requires EndsBare(js, q)
    ensures Stands(js, p4, ItemsText(es.tail, false)) && q == p4 + |ItemsText(es.tail, false)|
    ensures Reads(js, p, p4, Lead(first) + Signs(Shape(es.head)), toks, more, Cuts(es.head))
    decreases es, 0
  {
    var p2, p3 := EntryPlaces(es, first, js, p, q);
    p4 := p3 + |es.after|;
    more := DocReads(es.head, js, p2, p3, toks);
    Surrounded(js, p, p2, p3, first, es.before, Signs(Shape(es.head)), es.after, toks, more, Cuts(es.head));
  }

  /** A comma and blanks before, blanks after. */
  lemma Surrounded(js: string, p: nat, q: nat, r: nat, first: bool, before: string, ss: seq<Sign>, after: string,
                   toks: seq<Tok>, more: seq<Tok>, cuts: seq<Cut>)
    requires Stands(js, p, Separator(first)) && Stands(js, p + |Separator(first)|, before) && AllWhite(before)
    requires q == p + |Separator(first)| + |before| && Reads(js, q, r, ss, toks, more, cuts)
    requires Stands(js, r, after) && AllWhite(after)
    ensures Reads(js, p, r + |after|, Lead(first) + ss, toks, more, cuts)
  {
    GapMoves(js, p, first, before, toks);
    QuietThenReads(js, p, q, r, Lead(first), ss, Lead(first) + ss, toks, more, cuts);
    WhiteMoves(js, r, after, toks + more);
    ReadsThenQuiet(js, p, r, r + |after|, Lead(first) + ss, toks, more, cuts);
  }

  lemma {:induction false} FieldsRead(fs: Fields, first: bool, js: string, p: nat, q: nat, toks: seq<Tok>)
    returns (more: seq<Tok>)
    requires FieldsOk(fs) && Stands(js, p, FieldsText(fs, first)) && q == p + |FieldsText(fs, first)| && EndsBare(js, q)
    ensures Reads(js, p, q, MemberSigns(FieldShapes(fs), first), toks, more, FieldCuts(fs))
    decreases fs, 1
  {
    match fs
    case NoFields(gap) =>
      WhiteMoves(js, p, gap, toks);
      more := [];
      assert toks + more == toks;
    case Field(_, key, _, _, value, _, rest) =>
      var ss := [Value(LeafKind(key.Quoted?)), Pair] + Signs(Shape(value));
      var p4, m1 := FieldReads(fs, first, js, p, q, toks);
      var m2 := FieldsRead(rest, false, js, p4, q, toks + m1);
      assert [WordCut(key)] + Cuts(value) + FieldCuts(rest) == FieldCuts(fs);
      ReadsOn(js, p, p4, q, Lead(first) + ss, MemberSigns(FieldShapes(rest), false),
              MemberSigns(FieldShapes(fs), first), toks, m1, m2, [WordCut(key)] + Cuts(value), FieldCuts(rest),
              FieldCuts(fs));
      more := m1 + m2;
  }

  /** What is behind the colon and its blanks. */
  function AfterKey(fs: Fields): string
    requires fs.Field?
  {
    Text(fs.value) + (fs.after + FieldsText(fs.rest, false))
  }

  lemma KeyPlaces(fs: Fields, first: bool, js: string, p: nat) returns (p2: nat, p3: nat, p5: nat)
    requires fs.Field? && Stands(js, p, FieldsText(fs, first))
    ensures Stands(js, p, Separator(first)) && Stands(js, p + |Separator(first)|, fs.before)
    ensures p2 == p + |Separator(first)| + |fs.before| && Stands(js, p2, WordText(fs.key))
    ensures p3 == p2 + |WordText(fs.key)| && Stands(js, p3, fs.between + ([':'] + fs.lead))
    ensures p5 == p3 + |fs.between + ([':'] + fs.lead)| && Stands(js, p5, AfterKey(fs))
    ensures p5 + |AfterKey(fs)| == p + |FieldsText(fs, first)|
  {
    var colon := fs.between + ([':'] + fs.lead);
    p2 := p + |Separator(first)| + |fs.before|;
    p3 := p2 + |WordText(fs.key)|;
    p5 := p3 + |colon|;
    Places(js, p, Separator(first), fs.before, WordText(fs.key), colon + AfterKey(fs));
    Halves(js, p3, colon, AfterKey(fs));
  }

  lemma ValuePlaces(fs: Fields, js: string, p: nat, q: nat) returns (p1: nat, p2: nat)
    requires fs.Field? && FieldsOk(fs) && Stands(js, p, AfterKey(fs)) && q == p + |AfterKey(fs)| && EndsBare(js, q)
    ensures Stands(js, p, Text(fs.value)) && p1 == p + |Text(fs.value)| && EndsBare(js, p1)
    ensures Stands(js, p1, fs.after) && p2 == p1 + |fs.after|
    ensures Stands(js, p2, FieldsText(fs.rest, false)) && q == p2 + |FieldsText(fs.rest, false)|
  {
    var rest := FieldsText(fs.rest, false);
    p1 := p + |Text(fs.value)|;
    p2 := p1 + |fs.after|;
    Halves(js, p, Text(fs.value), fs.after + rest);
    FieldsEnding(fs.after, fs.rest);
    EndsAt(js, p1, fs.after + rest);
    Halves(js, p1, fs.after, rest);
  }

  /** A member with its comma and blanks. */
  lemma FieldReads(fs: Fields, first: bool, js: string, p: nat, q: nat, toks: seq<Tok>)
    returns (p7: nat, more: seq<Tok>)
    requires fs.Field? && FieldsOk(fs) && Stands(js, p, FieldsText(fs, first)) && q == p + |FieldsText(fs, first)|
    requires EndsBare(js, q)
    ensures Stands(js, p7, FieldsText(fs.rest, false)) && q == p7 + |FieldsText(fs.rest, false)|
    ensures Reads(js, p, p7, Lead(first) + ([Value(LeafKind(fs.key.Quoted?)), Pair] + Signs(Shape(fs.value))), toks,
                  more, [WordCut(fs.key)] + Cuts(fs.value))
    decreases fs, 0
  {
    var p2, p3, p5 := KeyPlaces(fs, first, js, p);
    var p6;
    p6, p7 := ValuePlaces(fs, js, p5, q);
    var key := [WordTok(fs.key, p2)];
    var value := DocReads(fs.value, js, p5, p6, toks + key);
    KeyReads(js, p, p2, p3, p5, first, fs.before, fs.key, fs.between, fs.lead, toks);
    more := key + value;
    MemberReads(js, p, p5, p6, p7, Lead(first), [Value(LeafKind(fs.key.Quoted?)), Pair], Signs(Shape(fs.value)),
                fs.after, toks, key, value, [WordCut(fs.key)], Cuts(fs.value));
  }

  /** A key with its comma, its colon and its blanks. */
  lemma KeyReads(js: string, p: nat, p2: nat, p3: nat, p5: nat, first: bool, before: string, key: Word,
                 between: string, lead: string, toks: seq<Tok>)
    requires Stands(js, p, Separator(first)) && Stands(js, p + |Separator(first)|, before) && AllWhite(before)
    requires p2 == p + |Separator(first)| + |before| && Stands(js, p2, WordText(key)) && WordOk(key)
    requires p3 == p2 + |WordText(key)| && Stands(js, p3, between + ([':'] + lead))
    requires AllWhite(between) && AllWhite(lead) && p5 == p3 + |between + ([':'] + lead)|
    ensures Reads(js, p, p5, Lead(first) + [Value(LeafKind(key.Quoted?)), Pair], toks, [WordTok(key, p2)],
                  [WordCut(key)])
  {
    var more, s1, ss := [WordTok(key, p2)], [Value(LeafKind(key.Quoted?))], [Value(LeafKind(key.Quoted?)), Pair];
    ColonReads(js, p3, between, lead, p5, toks + more);
    GapMoves(js, p, first, before, toks);
    WordMoves(js, p2, key, toks);
    WordCutOut(js, p2, key);
    MovesOn(js, p2, p3, p5, s1, [Pair], ss, toks, toks + more, toks + more);
    QuietThenReads(js, p, p2, p5, Lead(first), ss, Lead(first) + ss, toks, more, [WordCut(key)]);
  }

  lemma ColonReads(js: string, p: nat, between: string, lead: string, q: nat, toks: seq<Tok>)
    requires Stands(js, p, between + ([':'] + lead)) && AllWhite(between) && AllWhite(lead)
    requires q == p + |between + ([':'] + lead)|
    ensures EndsBare(js, p) && Moves(js, p, q, [Pair], toks, toks)
  {
    var p1 := p + |between|;
    Halves(js, p, between, [':'] + lead);
    Halves(js, p1, [':'], lead);
    ColonEnds(js, p, between);
    WhiteMoves(js, p, between, toks);
    ColonMoves(js, p1, toks);
    WhiteMoves(js, p1 + 1, lead, toks);
    MovesOn(js, p, p1, p1 + 1, [], [Pair], [Pair], toks, toks, toks);
    MovesOn(js, p, p1 + 1, q, [Pair], [], [Pair], toks, toks, toks);
  }

  lemma ColonEnds(js: string, p: nat, between: string)
    requires Stands(js, p, between) && AllWhite(between) && Stands(js, p + |between|, [':'])
    ensures EndsBare(js, p)
  {
    CharAt(js, p + |between|, [':'], 0);
    EndsAt(js, p, between);
  }

  lemma MemberReads(js: string, p: nat, p5: nat, p6: nat, p7: nat, lead: seq<Sign>, s1: seq<Sign>, s2: seq<Sign>,
                    after: string, toks: seq<Tok>, key: seq<Tok>, value: seq<Tok>, c1: seq<Cut>, c2: seq<Cut>)
    requires Reads(js, p, p5, lead + s1, toks, key, c1) && Reads(js, p5, p6, s2, toks + key, value, c2)
    requires Stands(js, p6, after) && AllWhite(after) && p7 == p6 + |after|
    ensures Reads(js, p, p7, lead + (s1 + s2), toks, key + value, c1 + c2)
  {
    assert lead + s1 + s2 == lead + (s1 + s2);
    ReadsOn(js, p, p5, p6, lead + s1, s2, lead + (s1 + s2), toks, key, value, c1, c2, c1 + c2);
    WhiteMoves(js, p6, after, toks + (key + value));
    ReadsThenQuiet(js, p, p6, p7, lead + (s1 + s2), toks, key + value, c1 + c2);
  }

  // ----- whole texts -----

  lemma WholeReads(v: Doc, before: string, after: string, js: string) returns (toks: seq<Tok>)
    requires DocOk(v) && AllWhite(before) && AllWhite(after) && js == before + (Text(v) + after)
    ensures Reads(js, 0, |js|, Signs(Shape(v)), [], toks, Cuts(v))
  {
    var p, q, ss := |before|, |before| + |Text(v)|, Signs(Shape(v));
    Halves(js, 0, before, Text(v) + after);
    Halves(js, p, Text(v), after);
    EndsAt(js, q, after);
    WhiteMoves(js, 0, before, []);
    toks := DocReads(v, js, p, q, []);
    QuietThenReads(js, 0, p, q, [], ss, ss, [], toks, Cuts(v));
    WhiteMoves(js, q, after, [] + toks);
    ReadsThenQuiet(js, 0, q, |js|, ss, [], toks, Cuts(v));
  }

  lemma Finished(js: string, ss: seq<Sign>, toks: seq<Tok>, cuts: seq<Cut>, num: nat)
    requires Reads(js, 0, |js|, ss, [], toks, cuts) && |cuts| <= num
    ensures SignsOf(js, 0) == ss && FillFrom(js, 0, [], 0, num) == Filled(|cuts|, toks)
  {
    assert [] + toks == toks;
    forall i | 0 <= i < |toks| ensures !IsOpen(toks[i]) { assert CutOut(js, toks[i], cuts[i]); }
    assert LastOpen(toks) == -1;
    assert Future(js, |js|, toks, num) == ([], Filled(|cuts|, toks));
    assert Future(js, 0, [], num) == (ss + [], Filled(|cuts|, toks));
    assert ss + [] == ss;
  }

  /** A document with blanks around it is read as itself, and its tokens cut out, in preorder, the
      characters of its strings and primitives and the text of its lists and records. */
  lemma TextReads(v: Doc, before: string, after: string, num: nat)
    requires DocOk(v) && AllWhite(before) && AllWhite(after) && |Cuts(v)| <= num
    ensures var js := before + (Text(v) + after); var out := FillFrom(js, 0, [], 0, num);
            && SignsOf(js, 0) == Signs(Shape(v))
            && out.result == |Cuts(v)| && CutsOut(js, out.toks, Cuts(v))
  {
    var js := before + (Text(v) + after);
    var toks := WholeReads(v, before, after, js);
    Finished(js, Signs(Shape(v)), toks, Cuts(v), num);
  }

  /** So there are as many tokens as nodes, and the sizes are those of the document. */
  lemma TextTree(v: Doc, before: string, after: string, num: nat)
    requires DocOk(v) && AllWhite(before) && AllWhite(after) && |Nodes(Shape(v))| <= num
    ensures GrowFrom(before + (Text(v) + after), 0, EMPTY, num).nodes == Nodes(Shape(v))
    ensures |Nodes(Shape(v))| == |Cuts(v)|
  {
    var js := before + (Text(v) + after);
    TextReads(v, before, after, num + |Cuts(v)|);
    DocumentFills(js, Shape(v), num + |Cuts(v)|);
    DocumentFills(js, Shape(v), num);
  }

  lemma Stopped(js: string, p: nat, error: int, toks: seq<Tok>, count: nat, num: nat)
    requires !Over(js, p) && Lex(js, p).0 == Wrong(error)
    ensures CountFrom(js, p, count) == error == FillFrom(js, p, toks, count, num).result
  {
    FillOne(js, p, toks, count, num);
  }

  lemma QuoteWrong(js: string, p: nat, error: int)
    requires p < |js| && js[p] == '\"' && StringEnd(js, p + 1) == Bad(error)
    ensures Lex(js, p).0 == Wrong(error)
  {
  }

  /** A string that is refused stops both passes, with its own error. */
  lemma StringRefused(js: string, p: nat, ls: seq<Letter>, q: nat, toks: seq<Tok>, count: nat, num: nat)
    requires LettersOk(ls) && p < |js| && js[p] == '\"' && Stands(js, p + 1, LettersText(ls))
    requires q == p + 1 + |LettersText(ls)|
    ensures BadEscape(js, q) ==> CountFrom(js, p, count) == INVAL == FillFrom(js, p, toks, count, num).result
    ensures Unclosed(js, q) ==> CountFrom(js, p, count) == PART == FillFrom(js, p, toks, count, num).result
  {
    StringLaw(js, p + 1, ls);
    if BadEscape(js, q) {
      QuoteWrong(js, p, INVAL);
      Stopped(js, p, INVAL, toks, count, num);
    }
    if Unclosed(js, q) {
      QuoteWrong(js, p, PART);
      Stopped(js, p, PART, toks, count, num);
    }
  }

  /** And so does a character that cannot be part of a primitive. */
  lemma BareRefused(js: string, p: nat, s: string, toks: seq<Tok>, count: nat, num: nat)
    requires BareOk(s) && Stands(js, p, s) && !EndsBare(js, p + |s|) && !Bare(js[p + |s|])
    ensures CountFrom(js, p, count) == INVAL == FillFrom(js, p, toks, count, num).result
  {
    CharAt(js, p, s, 0);
    BareLaw(js, p, s);
  }
}
