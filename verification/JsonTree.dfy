/** What the tokens of lib/libbmk_core/jsmn.c say of a JSON document: in preorder, the kind of each
    node and the number of its children.  The parser counts children through one index, toksuper,
    that it moves at brackets, colons and commas. */
module JsonTree {
  import opened Common
  import opened Jsmn

  // ----- signs: items without their places -----

  datatype Sign = Value(kind: Kind) | Open(kind: Kind) | Close(kind: Kind) | Pair | Next | Blank | Error

  function SignOf(item: Item): Sign {
    match item
    case Leaf(kind, _, _) => Value(kind)
    case Opening(kind) => Open(kind)
    case Closing(kind) => Close(kind)
    case Colon => Pair
    case Comma => Next
    case Space => Blank
    case Wrong(_) => Error
  }

  // ----- the tree as the parser keeps it -----

  datatype Node = Node(kind: Kind, open: bool, size: nat)

  /** `super` is the node that counts the next one as its child, or -1. */
  datatype Tree = Tree(nodes: seq<Node>, super: int)

  const EMPTY := Tree([], -1)

  predicate IsContainer(kind: Kind) { kind == Object || kind == Array }

  function LastOpenNode(nodes: seq<Node>): (i: int)
    ensures -1 <= i < |nodes| && (i >= 0 ==> nodes[i].open)
    ensures forall j :: i < j < |nodes| ==> !nodes[j].open
  {
    if nodes == [] then -1
    else if nodes[|nodes| - 1].open then |nodes| - 1
    else LastOpenNode(nodes[..|nodes| - 1])
  }

  /** n more children for node i. */
  function Add(nodes: seq<Node>, i: int, n: nat): (r: seq<Node>)
    requires -1 <= i < |nodes|
    ensures |r| == |nodes|
  {
    if i == -1 then nodes else nodes[i := nodes[i].(size := nodes[i].size + n)]
  }

  ghost predicate Ok(t: Tree) {
    && -1 <= t.super < |t.nodes| && (t.super == -1 ==> LastOpenNode(t.nodes) == -1)
    && (forall i :: 0 <= i < |t.nodes| && t.nodes[i].open ==> IsContainer(t.nodes[i].kind))
  }

  /** Whether the array of num tokens takes the sign. */
  predicate Takes(t: Tree, s: Sign, num: nat) {
    match s
    case Value(_) => |t.nodes| < num
    case Open(_) => |t.nodes| < num
    case Close(kind) => var i := LastOpenNode(t.nodes); i >= 0 && t.nodes[i].kind == kind
    case Error => false
    case _ => true
  }

  function Grow(t: Tree, s: Sign): Tree
    requires -1 <= t.super < |t.nodes|
  {
    match s
    case Value(kind) => Tree(Add(t.nodes, t.super, 1) + [Node(kind, false, 0)], t.super)
    case Open(kind) => Tree(Add(t.nodes, t.super, 1) + [Node(kind, true, 0)], |t.nodes|)
    case Close(_) =>
      var i := LastOpenNode(t.nodes);
      if i == -1 then t else Tree(t.nodes[i := t.nodes[i].(open := false)], LastOpenNode(t.nodes[..i]))
    case Pair => t.(super := |t.nodes| - 1)
    case Next =>
      var i := LastOpenNode(t.nodes);
      if t.super == -1 || IsContainer(t.nodes[t.super].kind) || i == -1 then t else t.(super := i)
    case _ => t
  }

  lemma {:induction false} LastOpenAt(nodes: seq<Node>, i: int)
    requires -1 <= i < |nodes| && (i >= 0 ==> nodes[i].open) && forall j :: i < j < |nodes| ==> !nodes[j].open
    ensures LastOpenNode(nodes) == i
  {
  }

  lemma GrowOk(t: Tree, s: Sign, num: nat)
    requires Ok(t) && Takes(t, s, num) && (s.Open? ==> IsContainer(s.kind))
    ensures Ok(Grow(t, s))
  {
    var t' := Grow(t, s);
    var i := LastOpenNode(t.nodes);
    match s
    case Value(_) => LastOpenAt(t'.nodes, i);
    case Close(_) => LastOpenAt(t'.nodes, LastOpenNode(t.nodes[..i]));
    case _ =>
  }

  // ----- runs over signs -----

  function Run(t: Tree, ss: seq<Sign>, num: nat): Option<Tree>
    decreases |ss|
  {
    if !(-1 <= t.super < |t.nodes|) then None
    else if ss == [] then Some(t)
    else if !Takes(t, ss[0], num) then None
    else Run(Grow(t, ss[0]), ss[1..], num)
  }

  lemma {:induction false} RunJoins(t: Tree, a: seq<Sign>, b: seq<Sign>, num: nat)
    requires Run(t, a, num).Some?
    ensures Run(t, a + b, num) == Run(Run(t, a, num).value, b, num)
    decreases |a|
  {
    if a == [] {
      assert a + b == b;
    } else {
      assert (a + b)[1..] == a[1..] + b;
      RunJoins(Grow(t, a[0]), a[1..], b, num);
    }
  }

  lemma RunOne(t: Tree, s: Sign, num: nat)
    requires -1 <= t.super < |t.nodes| && Takes(t, s, num)
    ensures var t' := Grow(t, s); -1 <= t'.super < |t'.nodes| ==> Run(t, [s], num) == Some(t')
  {
    assert [s][1..] == [];
  }

  // ----- JSON documents -----

  /** A document, or a part of it; a leaf is a string or a primitive. */
  datatype Json = Atom(quoted: bool) | Arr(elems: Elems) | Obj(members: Members)
  datatype Elems = NoElems | Elem(head: Json, tail: Elems)
  datatype Members = NoMembers | Member(key: bool, value: Json, rest: Members)

  function LeafKind(quoted: bool): Kind { if quoted then Str else Primitive }

  /** How a document is written. */
  function Signs(v: Json): seq<Sign> {
    match v
    case Atom(quoted) => [Value(LeafKind(quoted))]
    case Arr(elems) => [Open(Array)] + ElemSigns(elems, true) + [Close(Array)]
    case Obj(members) => [Open(Object)] + MemberSigns(members, true) + [Close(Object)]
  }

  function Lead(first: bool): seq<Sign> { if first then [] else [Next] }

  function ElemSigns(es: Elems, first: bool): seq<Sign> {
    match es
    case NoElems => []
    case Elem(head, tail) => Lead(first) + Signs(head) + ElemSigns(tail, false)
  }

  function MemberSigns(ms: Members, first: bool): seq<Sign> {
    match ms
    case NoMembers => []
    case Member(key, value, rest) =>
      Lead(first) + ([Value(LeafKind(key)), Pair] + Signs(value)) + MemberSigns(rest, false)
  }

  function Elements(es: Elems): nat { if es.NoElems? then 0 else 1 + Elements(es.tail) }
  function Pairs(ms: Members): nat { if ms.NoMembers? then 0 else 1 + Pairs(ms.rest) }

  /** The nodes of a document in preorder: an array has its elements as children, an object its
      keys, and a key its value. */
  function Nodes(v: Json): seq<Node>
    decreases v, 0
  {
    match v
    case Atom(quoted) => [Node(LeafKind(quoted), false, 0)]
    case Arr(elems) => [Node(Array, false, Elements(elems))] + ElemNodes(elems)
    case Obj(members) => [Node(Object, false, Pairs(members))] + MemberNodes(members)
  }

  function ElemNodes(es: Elems): seq<Node> {
    match es
    case NoElems => []
    case Elem(head, tail) => Nodes(head) + ElemNodes(tail)
  }

  function MemberNode(key: bool, value: Json): (r: seq<Node>)
    ensures |r| == 1 + |Nodes(value)|
    decreases value, 1
  {
    [Node(LeafKind(key), false, 1)] + Nodes(value)
  }

  function MemberNodes(ms: Members): seq<Node> {
    match ms
    case NoMembers => []
    case Member(key, value, rest) => MemberNode(key, value) + MemberNodes(rest)
  }

  ghost predicate AllClosed(nodes: seq<Node>) { forall i :: 0 <= i < |nodes| ==> !nodes[i].open }

  lemma {:induction false} NodesClosed(v: Json)
    ensures AllClosed(Nodes(v)) && |Nodes(v)| > 0
  {
    match v
    case Atom(_) =>
    case Arr(elems) => ElemsClosed(elems);
    case Obj(members) => MembersClosed(members);
  }

  lemma {:induction false} ElemsClosed(es: Elems)
    ensures AllClosed(ElemNodes(es))
  {
    if es.Elem? {
      NodesClosed(es.head);
      ElemsClosed(es.tail);
    }
  }

  lemma {:induction false} MembersClosed(ms: Members)
    ensures AllClosed(MemberNodes(ms))
  {
    if ms.Member? {
      NodesClosed(ms.value);
      MembersClosed(ms.rest);
    }
  }

  // ----- reading a document gives its nodes -----

  /** Node k is the innermost open bracket. */
  ghost predicate IsLast(nodes: seq<Node>, k: nat) {
    k < |nodes| && nodes[k].open && IsContainer(nodes[k].kind) && forall j :: k < j < |nodes| ==> !nodes[j].open
  }

  lemma StillLast(nodes: seq<Node>, k: nat, i: nat, more: seq<Node>)
    requires IsLast(nodes, k) && i < |nodes| && AllClosed(more)
    ensures IsLast(Add(nodes, i, 1) + more, k)
  {
  }

  /** From t to t' node k has got n more children, and `more` has been added behind. */
  ghost predicate Grown(t: Tree, t': Tree, k: nat, n: nat, more: seq<Node>) {
    k < |t.nodes| && -1 <= t'.super < |t'.nodes| && t'.nodes == Add(t.nodes, k, n) + more
  }

  lemma GrownTwice(t: Tree, t1: Tree, t': Tree, k: nat, n: nat, more: seq<Node>, last: seq<Node>,
                   total: nat, all: seq<Node>)
    requires Grown(t, t1, k, 1, more) && Grown(t1, t', k, n, last) && total == 1 + n && all == more + last
    ensures Grown(t, t', k, total, all)
  {
  }

  lemma GrownNot(t: Tree, k: nat)
    requires k < |t.nodes| && -1 <= t.super < |t.nodes|
    ensures Grown(t, t, k, 0, [])
  {
  }

  lemma RunThrice(t: Tree, a: seq<Sign>, b: seq<Sign>, c: seq<Sign>, num: nat, t1: Tree, t2: Tree)
    requires Run(t, a, num) == Some(t1) && Run(t1, b, num) == Some(t2)
    ensures Run(t, a + b + c, num) == Run(t2, c, num)
  {
    RunJoins(t, a, b, num);
    RunJoins(t, a + b, c, num);
  }

  /** The next child goes to the innermost open bracket, at k, or a comma leads back to it. */
  ghost predicate Inside(t: Tree, k: nat, first: bool) {
    && IsLast(t.nodes, k) && 0 <= t.super < |t.nodes|
    && (t.super == k || (!first && !IsContainer(t.nodes[t.super].kind)))
  }

  lemma LeadRuns(t: Tree, first: bool, k: nat, num: nat)
    requires Inside(t, k, first)
    ensures Run(t, Lead(first), num) == Some(t.(super := k))
  {
    LastOpenAt(t.nodes, k);
    if !first { RunOne(t, Next, num); }
  }

  lemma {:induction false} ValueGrows(v: Json, t: Tree, num: nat)
    requires -1 <= t.super < |t.nodes| && |t.nodes| + |Nodes(v)| <= num
    ensures Run(t, Signs(v), num) ==
              Some(Tree(Add(t.nodes, t.super, 1) + Nodes(v), if v.Atom? then t.super else LastOpenNode(t.nodes)))
    decreases v, 0
  {
    match v
    case Atom(quoted) => RunOne(t, Value(LeafKind(quoted)), num);
    case Arr(elems) =>
      RunOne(t, Open(Array), num);
      var t1 := Grow(t, Open(Array));
      var t2 := ElemsGrow(elems, true, t1, |t.nodes|, num);
      RunThrice(t, [Open(Array)], ElemSigns(elems, true), [Close(Array)], num, t1, t2);
      ElemsClosed(elems);
      Closes(t, Array, Elements(elems), ElemNodes(elems), t2, num);
    case Obj(members) =>
      RunOne(t, Open(Object), num);
      var t1 := Grow(t, Open(Object));
      var t2 := MembersGrow(members, true, t1, |t.nodes|, num);
      RunThrice(t, [Open(Object)], MemberSigns(members, true), [Close(Object)], num, t1, t2);
      MembersClosed(members);
      Closes(t, Object, Pairs(members), MemberNodes(members), t2, num);
  }

  /** The closing bracket of a container that was opened in t and has got its n children. */
  lemma Closes(t: Tree, kind: Kind, n: nat, inner: seq<Node>, t2: Tree, num: nat)
    requires -1 <= t.super < |t.nodes| && AllClosed(inner)
    requires t2.nodes == Add(Grow(t, Open(kind)).nodes, |t.nodes|, n) + inner && -1 <= t2.super < |t2.nodes|
    ensures Run(t2, [Close(kind)], num) ==
              Some(Tree(Add(t.nodes, t.super, 1) + ([Node(kind, false, n)] + inner), LastOpenNode(t.nodes)))
  {
    var k, base := |t.nodes|, Add(t.nodes, t.super, 1);
    assert t2.nodes == base + [Node(kind, true, n)] + inner;
    LastOpenAt(t2.nodes, k);
    assert t2.nodes[..k] == base;
    LastOpenAt(base, LastOpenNode(t.nodes));
    assert t2.nodes[k := Node(kind, false, n)] == base + ([Node(kind, false, n)] + inner);
    RunOne(t2, Close(kind), num);
  }

  /** The first element of an array at k, with its comma. */
  lemma FirstElem(es: Elems, first: bool, t: Tree, k: nat, num: nat) returns (t1: Tree)
    requires es.Elem? && Inside(t, k, first) && |t.nodes| + |Nodes(es.head)| <= num
    ensures Inside(t1, k, true) && Run(t, ElemSigns(es, first), num) == Run(t1, ElemSigns(es.tail, false), num)
    ensures Grown(t, t1, k, 1, Nodes(es.head))
    decreases es, 0
  {
    LeadRuns(t, first, k, num);
    ValueGrows(es.head, t.(super := k), num);
    LastOpenAt(t.nodes, k);
    t1 := Tree(Add(t.nodes, k, 1) + Nodes(es.head), k);
    NodesClosed(es.head);
    StillLast(t.nodes, k, k, Nodes(es.head));
    RunThrice(t, Lead(first), Signs(es.head), ElemSigns(es.tail, false), num, t.(super := k), t1);
  }

  lemma {:induction false} ElemsGrow(es: Elems, first: bool, t: Tree, k: nat, num: nat) returns (t': Tree)
    requires Inside(t, k, first) && |t.nodes| + |ElemNodes(es)| <= num
    ensures Run(t, ElemSigns(es, first), num) == Some(t') && Grown(t, t', k, Elements(es), ElemNodes(es))
    decreases es, 1
  {
    if es.NoElems? {
      GrownNot(t, k);
      t' := t;
    } else {
      var t1 := FirstElem(es, first, t, k, num);
      t' := ElemsGrow(es.tail, false, t1, k, num);
      GrownTwice(t, t1, t', k, Elements(es.tail), Nodes(es.head), ElemNodes(es.tail), Elements(es), ElemNodes(es));
    }
  }

  /** A key and its colon, in an object at k. */
  lemma KeyRuns(t: Tree, key: bool, k: nat, num: nat)
    requires t.super == k && IsLast(t.nodes, k) && |t.nodes| < num
    ensures var t' := Tree(Add(t.nodes, k, 1) + [Node(LeafKind(key), false, 0)], |t.nodes|);
            Run(t, [Value(LeafKind(key)), Pair], num) == Some(t') && IsLast(t'.nodes, k)
  {
    var t1 := Grow(t, Value(LeafKind(key)));
    RunOne(t, Value(LeafKind(key)), num);
    RunOne(t1, Pair, num);
    RunJoins(t, [Value(LeafKind(key))], [Pair], num);
    assert [Value(LeafKind(key))] + [Pair] == [Value(LeafKind(key)), Pair];
    StillLast(t.nodes, k, k, [Node(LeafKind(key), false, 0)]);
  }

  /** A member of an object at k. */
  lemma MemberRuns(key: bool, value: Json, t: Tree, k: nat, num: nat) returns (t': Tree)
    requires t.super == k && IsLast(t.nodes, k) && |t.nodes| + |MemberNode(key, value)| <= num
    ensures Run(t, [Value(LeafKind(key)), Pair] + Signs(value), num) == Some(t')
    ensures t'.nodes == Add(t.nodes, k, 1) + MemberNode(key, value) && Inside(t', k, false)
    decreases value, 1
  {
    KeyRuns(t, key, k, num);
    var m, t1 := |t.nodes|, Tree(Add(t.nodes, k, 1) + [Node(LeafKind(key), false, 0)], |t.nodes|);
    ValueGrows(value, t1, num);
    LastOpenAt(t1.nodes, k);
    RunJoins(t, [Value(LeafKind(key)), Pair], Signs(value), num);
    t' := Run(t1, Signs(value), num).value;
    assert Add(t1.nodes, m, 1) == Add(t.nodes, k, 1) + [Node(LeafKind(key), false, 1)];
    NodesClosed(value);
    StillLast(t1.nodes, k, m, Nodes(value));
  }

  lemma FirstMember(ms: Members, first: bool, t: Tree, k: nat, num: nat) returns (t1: Tree)
    requires ms.Member? && Inside(t, k, first) && |t.nodes| + |MemberNode(ms.key, ms.value)| <= num
    ensures Inside(t1, k, false) && Run(t, MemberSigns(ms, first), num) == Run(t1, MemberSigns(ms.rest, false), num)
    ensures Grown(t, t1, k, 1, MemberNode(ms.key, ms.value))
    decreases ms, 0
  {
    LeadRuns(t, first, k, num);
    t1 := MemberRuns(ms.key, ms.value, t.(super := k), k, num);
    var member := [Value(LeafKind(ms.key)), Pair] + Signs(ms.value);
    RunThrice(t, Lead(first), member, MemberSigns(ms.rest, false), num, t.(super := k), t1);
  }

  lemma {:induction false} MembersGrow(ms: Members, first: bool, t: Tree, k: nat, num: nat) returns (t': Tree)
    requires Inside(t, k, first) && |t.nodes| + |MemberNodes(ms)| <= num
    ensures Run(t, MemberSigns(ms, first), num) == Some(t') && Grown(t, t', k, Pairs(ms), MemberNodes(ms))
    decreases ms, 1
  {
    if ms.NoMembers? {
      GrownNot(t, k);
      t' := t;
    } else {
      var t1 := FirstMember(ms, first, t, k, num);
      t' := MembersGrow(ms.rest, false, t1, k, num);
      GrownTwice(t, t1, t', k, Pairs(ms.rest), MemberNode(ms.key, ms.value), MemberNodes(ms.rest),
                 Pairs(ms), MemberNodes(ms));
    }
  }

  // ----- texts -----

  /** The signs of a text from p on, without the blanks. */
  function SignsOf(js: string, p: nat): seq<Sign>
    decreases |js| - p
  {
    if Over(js, p) then []
    else
      var (item, next) := Lex(js, p);
      if item.Wrong? then [Error]
      else if item.Space? then SignsOf(js, next)
      else [SignOf(item)] + SignsOf(js, next)
  }

  /** What the filling pass makes of the tree, from p on, with room for num tokens. */
  function GrowFrom(js: string, p: nat, t: Tree, num: nat): Tree
    decreases |js| - p
  {
    if Over(js, p) || !(-1 <= t.super < |t.nodes|) then t
    else
      var (item, next) := Lex(js, p);
      if Takes(t, SignOf(item), num) then GrowFrom(js, next, Grow(t, SignOf(item)), num) else t
  }

  lemma GrowOne(js: string, p: nat, t: Tree, num: nat)
    requires !Over(js, p) && -1 <= t.super < |t.nodes|
    ensures var (item, next) := Lex(js, p);
            GrowFrom(js, p, t, num) ==
              if Takes(t, SignOf(item), num) then GrowFrom(js, next, Grow(t, SignOf(item)), num) else t
  {
  }

  /** The nodes are those of the tokens. */
  ghost predicate Pictures(toks: seq<Tok>, nodes: seq<Node>) {
    && |toks| == |nodes|
    && forall i :: 0 <= i < |toks| ==> nodes[i].kind == toks[i].kind && nodes[i].open == IsOpen(toks[i])
  }

  lemma SameLast(toks: seq<Tok>, nodes: seq<Node>)
    requires Pictures(toks, nodes)
    ensures LastOpen(toks) == LastOpenNode(nodes)
  {
    LastOpenAt(nodes, LastOpen(toks));
  }

  /** Array and tree take the same items, and stay alike. */
  lemma FeedPictures(toks: seq<Tok>, t: Tree, item: Item, p: nat, num: nat)
    requires Pictures(toks, t.nodes) && -1 <= t.super < |t.nodes| && (item.Leaf? ==> item.end >= 0)
    ensures var fed := Feed(toks, item, p, num);
            && (fed.Tokens? <==> Takes(t, SignOf(item), num))
            && (fed.Tokens? ==> Pictures(fed.toks, Grow(t, SignOf(item)).nodes))
            && (fed.Tokens? ==> |fed.toks| == |toks| + Weight(item))
  {
    SameLast(toks, t.nodes);
  }

  lemma SignStep(js: string, p: nat, t: Tree, num: nat, t': Tree)
    requires !Over(js, p) && Run(t, SignsOf(js, p), num) == Some(t')
    ensures var (item, next) := Lex(js, p);
            && !item.Wrong? && -1 <= t.super < |t.nodes| && Takes(t, SignOf(item), num)
            && Run(Grow(t, SignOf(item)), SignsOf(js, next), num) == Some(t')
  {
    var (item, next) := Lex(js, p);
    var ss := SignsOf(js, p);
    if !item.Space? && !item.Wrong? { assert ss[1..] == SignsOf(js, next); }
  }

  lemma {:induction false} TextGrows(js: string, p: nat, t: Tree, num: nat, t': Tree)
    requires Run(t, SignsOf(js, p), num) == Some(t')
    ensures GrowFrom(js, p, t, num) == t'
    decreases |js| - p
  {
    if !Over(js, p) {
      var (item, next) := Lex(js, p);
      SignStep(js, p, t, num, t');
      TextGrows(js, next, Grow(t, SignOf(item)), num, t');
    }
  }

  lemma TakenFills(js: string, p: nat, toks: seq<Tok>, t: Tree, count: nat, num: nat)
    requires !Over(js, p) && Pictures(toks, t.nodes) && -1 <= t.super < |t.nodes|
    requires Takes(t, SignOf(Lex(js, p).0), num)
    ensures var (item, next) := Lex(js, p); var fed := Feed(toks, item, p, num);
            && fed.Tokens? && Pictures(fed.toks, Grow(t, SignOf(item)).nodes)
            && |Grow(t, SignOf(item)).nodes| == |t.nodes| + Weight(item)
            && FillFrom(js, p, toks, count, num) == FillFrom(js, next, fed.toks, count + Weight(item), num)
  {
    FeedPictures(toks, t, Lex(js, p).0, p, num);
    FillOne(js, p, toks, count, num);
  }

  lemma {:induction false} TextFills(js: string, p: nat, toks: seq<Tok>, t: Tree, count: nat, num: nat, t': Tree)
    requires Pictures(toks, t.nodes) && Run(t, SignsOf(js, p), num) == Some(t')
    ensures FillFrom(js, p, toks, count, num).result ==
              if LastOpenNode(t'.nodes) >= 0 then PART else count + |t'.nodes| - |t.nodes|
    decreases |js| - p
  {
    if Over(js, p) {
      SameLast(toks, t.nodes);
    } else {
      var (item, next) := Lex(js, p);
      SignStep(js, p, t, num, t');
      TakenFills(js, p, toks, t, count, num);
      TextFills(js, next, Feed(toks, item, p, num).toks, Grow(t, SignOf(item)), count + Weight(item), num, t');
    }
  }

  /** A text that is a JSON document, with room for its nodes: the filling pass succeeds, and the
      tokens are the nodes of the document in preorder, each with its kind and the number of its
      children. */
  lemma DocumentFills(js: string, v: Json, num: nat)
    requires SignsOf(js, 0) == Signs(v) && |Nodes(v)| <= num
    ensures FillFrom(js, 0, [], 0, num).result == |Nodes(v)|
    ensures GrowFrom(js, 0, EMPTY, num).nodes == Nodes(v)
  {
    ValueGrows(v, EMPTY, num);
    var t' := Run(EMPTY, Signs(v), num).value;
    assert t'.nodes == Nodes(v);
    NodesClosed(v);
    LastOpenAt(t'.nodes, -1);
    TextGrows(js, 0, EMPTY, num, t');
    TextFills(js, 0, [], EMPTY, 0, num, t');
  }
}
