/** Any number of signed queues over the same threads and nodes.  A thread goes to sleep on one
    queue, is handed the sentinel of that queue as its next node when it is woken, and brings
    that node to the queue on which it sleeps next: nodes wander between queues.  Each queue is
    nevertheless the signed queue its users see. */
module QueueSystem {
  import opened Common
  import opened QueueSteps
  import SQ = SignedQueue

  datatype Queue = Queue(head: Ref, tail: Ref, hist: seq<NodeId>, objs: seq<Tid>, nenq: nat, ndeq: nat)

  /** An agent works on one queue at a time. */
  datatype At = At(q: Qid, l: Local)

  datatype State = State(
    qs: map<Qid, Queue>, nodes: map<NodeId, Node>, block: map<Tid, NodeId>,
    status: map<Tid, Status>, owner: map<NodeId, Owner>, loc: map<Aid, At>)

  /** Queue q with the memory all queues share. */
  function View(s: State, q: Qid): Mem
    requires q in s.qs
  {
    var Queue(head, tail, hist, objs, nenq, ndeq) := s.qs[q];
    Mem(q, head, tail, s.nodes, s.block, hist, objs, s.status, s.owner, nenq, ndeq)
  }

  ghost predicate Step(s: State, s': State, a: Aid) {
    && a in s.loc && a in s'.loc && s'.loc == s.loc[a := s'.loc[a]]
    && var At(q, l') := s'.loc[a];
       && (s.loc[a].l.AIdle? || s.loc[a].q == q)
       && q in s.qs && q in s'.qs && s'.qs == s.qs[q := s'.qs[q]]
       && Acts(View(s, q), a, s.loc[a].l, View(s', q), l')
  }

  ghost predicate Inv(s: State) {
    && (forall q :: q in s.qs ==> MemOk(View(s, q)))
    && (forall a :: a in s.loc ==> s.loc[a].q in s.qs && AgentOk(View(s, s.loc[a].q), a, s.loc[a].l))
  }

  ghost predicate AgentOk(m: Mem, a: Aid, l: Local) { Ends(m) && EOk(m, a, l) && DOk(m, a, l) }

  // ----- a step on one queue, seen from another -----

  ghost predicate Shared(m: Mem, n: Mem) {
    m.nodes == n.nodes && m.block == n.block && m.status == n.status && m.owner == n.owner
  }

  ghost predicate Own(n: Mem, n': Mem) {
    n' == n.(nodes := n'.nodes, block := n'.block, status := n'.status, owner := n'.owner)
  }

  /** m and n are two queues in one memory; a step turns m into m', and n into n' with it. */
  ghost predicate Elsewhere(m: Mem, m': Mem, n: Mem, n': Mem) {
    && n.q != m.q && Shared(m, n) && Shared(m', n') && Own(n, n')
    && MemOk(m) && MemOk(n) && MemOk(m') && Forward(m, m') && SparesQueues(m, m')
  }

  lemma ElsewhereLink(m: Mem, m': Mem, n: Mem, n': Mem, p: nat)
    requires Elsewhere(m, m', n, n') && n.head.stamp <= p < |n.hist|
    ensures n.hist[p] in n'.nodes && n'.nodes[n.hist[p]] == n.nodes[n.hist[p]] && LinkOk(n', p)
  {
    assert LinkOk(n, p);
  }

  lemma ElsewhereThread(m: Mem, m': Mem, n: Mem, n': Mem, t: Tid)
    requires Elsewhere(m, m', n, n') && t in n'.status
    ensures ThreadOk(n', t)
  {
    assert ThreadOk(m', t);
    if n'.status[t].Queued? && n'.status[t].q == n.q { assert ThreadOk(n, t); }
  }

  lemma ElsewhereEnds(m: Mem, m': Mem, n: Mem, n': Mem)
    requires Elsewhere(m, m', n, n')
    ensures Ends(n') && Forward(n, n')
  {
    forall p: nat | p < |n.hist| ensures n.hist[p] in n'.nodes { assert n.hist[p] in n.nodes; }
  }

  /** The other queue is still well formed, and nothing happened in it. */
  lemma ElsewhereOk(m: Mem, m': Mem, n: Mem, n': Mem)
    requires Elsewhere(m, m', n, n')
    ensures MemOk(n') && Abs(n') == Abs(n)
  {
    ElsewhereEnds(m, m', n, n');
    forall p: nat | n'.head.stamp <= p < |n'.hist| ensures LinkOk(n', p) { ElsewhereLink(m, m', n, n', p); }
    forall t | t in n'.status ensures ThreadOk(n', t) { ElsewhereThread(m, m', n, n', t); }
    ElsewhereLink(m, m', n, n', |n.hist| - 1);
  }

  lemma SparesShared(m: Mem, m': Mem, n: Mem, n': Mem, a: Aid)
    requires Shared(m, n) && Shared(m', n') && Spares(m, a, m')
    ensures Spares(n, a, n')
  {
  }

  // ----- every step keeps the invariant and refines each queue -----

  lemma StepActs(s: State, s': State, a: Aid)
    requires Inv(s) && Step(s, s', a)
    ensures var At(q, l') := s'.loc[a];
            Good(View(s, q), a, View(s', q), l') && AgentOk(View(s, q), a, s.loc[a].l)
  {
    var q := s'.loc[a].q;
    assert MemOk(View(s, q));
    assert AgentOk(View(s, s.loc[a].q), a, s.loc[a].l);
    ActsKeep(View(s, q), a, s.loc[a].l, View(s', q), s'.loc[a].l);
  }

  lemma IsElsewhere(s: State, s': State, a: Aid, l': Local, r: Qid, q: Qid)
    requires q in s.qs && r in s.qs && r in s'.qs && q != r && s'.qs == s.qs[r := s'.qs[r]]
    requires MemOk(View(s, r)) && MemOk(View(s, q)) && Good(View(s, r), a, View(s', r), l')
    ensures Elsewhere(View(s, r), View(s', r), View(s, q), View(s', q))
  {
  }

  lemma StepElsewhere(s: State, s': State, a: Aid, q: Qid)
    requires Inv(s) && Step(s, s', a) && q in s.qs && q != s'.loc[a].q
    ensures q in s'.qs && MemOk(View(s', q)) && Forward(View(s, q), View(s', q)) && Abs(View(s', q)) == Abs(View(s, q))
  {
    StepActs(s, s', a);
    var r := s'.loc[a].q;
    IsElsewhere(s, s', a, s'.loc[a].l, r, q);
    ElsewhereEnds(View(s, r), View(s', r), View(s, q), View(s', q));
    ElsewhereOk(View(s, r), View(s', r), View(s, q), View(s', q));
  }

  lemma StepViews(s: State, s': State, a: Aid, q: Qid)
    requires Inv(s) && Step(s, s', a) && q in s.qs
    ensures q in s'.qs && MemOk(View(s', q)) && Forward(View(s, q), View(s', q)) && Spares(View(s, q), a, View(s', q))
  {
    StepActs(s, s', a);
    var r := s'.loc[a].q;
    if q != r {
      StepElsewhere(s, s', a, q);
      SparesShared(View(s, r), View(s', r), View(s, q), View(s', q), a);
    }
  }

  lemma StepAgent(s: State, s': State, a: Aid, b: Aid)
    requires Inv(s) && Step(s, s', a) && b in s'.loc
    ensures s'.loc[b].q in s'.qs && AgentOk(View(s', s'.loc[b].q), b, s'.loc[b].l)
  {
    if b == a {
      StepActs(s, s', a);
    } else {
      var At(q, l) := s.loc[b];
      assert q in s.qs && AgentOk(View(s, q), b, l) && MemOk(View(s, q));
      StepViews(s, s', a, q);
      OtherE(View(s, q), a, View(s', q), b, l);
      OtherD(View(s, q), a, View(s', q), b, l);
    }
  }

  lemma NextKeeps(s: State, s': State, a: Aid)
    requires Inv(s) && Step(s, s', a)
    ensures Inv(s')
  {
    forall q | q in s'.qs ensures MemOk(View(s', q)) { StepViews(s, s', a, q); }
    forall b | b in s'.loc ensures s'.loc[b].q in s'.qs && AgentOk(View(s', s'.loc[b].q), b, s'.loc[b].l) {
      StepAgent(s, s', a, b);
    }
  }

  /** What a step of agent a does to queue q: nothing when it works on another one. */
  ghost function EventAt(s: State, s': State, a: Aid, q: Qid): SQ.Event {
    if a in s.loc && a in s'.loc && s'.loc[a].q == q && q in s.qs && q in s'.qs
    then EventOf(View(s, q), s.loc[a].l, View(s', q)) else SQ.Silent
  }

  lemma StepRefines(s: State, s': State, a: Aid, q: Qid)
    requires Inv(s) && Step(s, s', a) && q in s.qs
    ensures q in s'.qs && MemOk(View(s, q)) && MemOk(View(s', q))
    ensures var e := EventAt(s, s', a, q);
            SQ.Fits(Abs(View(s, q)), e) && Abs(View(s', q)) == SQ.After(Abs(View(s, q)), e)
  {
    if q == s'.loc[a].q {
      StepActs(s, s', a);
      ActRefines(View(s, q), a, s.loc[a].l, View(s', q), s'.loc[a].l);
    } else {
      StepElsewhere(s, s', a, q);
    }
  }

  /** Replaying es is legal and yields what the nodes of queue q spell out. */
  ghost predicate Replays(s: State, q: Qid, es: seq<SQ.Event>) {
    q in s.qs && MemOk(View(s, q)) && SQ.Legal(es) && SQ.Replay(es) == Abs(View(s, q))
  }

  lemma OneStep(s: State, s': State, a: Aid, q: Qid, es: seq<SQ.Event>, es': seq<SQ.Event>)
    requires Inv(s) && Step(s, s', a) && Replays(s, q, es) && es' == es + [EventAt(s, s', a, q)]
    ensures Inv(s') && Replays(s', q, es')
  {
    NextKeeps(s, s', a);
    StepRefines(s, s', a, q);
    SQ.Snoc(es, EventAt(s, s', a, q));
  }

  // ----- runs -----

  /** lfqueue_init of queue q: a sentinel of its own and no wakeup stored. */
  ghost predicate InitQueue(s: State, q: Qid)
    requires q in s.qs
  {
    var Queue(head, tail, hist, objs, nenq, ndeq) := s.qs[q];
    var z := head.node;
    && head == tail == Ref(0, z) && hist == [z] && |objs| == 1 && nenq == ndeq == 0
    && z in s.nodes && s.nodes[z].next == Cnt(0) && s.nodes[z].stamp == 0
    && z in s.owner && s.owner[z] == InChain(q, 0)
  }

  /** Every thread owns a node that bears its name. */
  ghost predicate InitThread(s: State, t: Tid)
    requires t in s.status
  {
    && s.status[t] == Running && t in s.block && s.block[t] in s.nodes && s.nodes[s.block[t]].who == t
    && s.block[t] in s.owner && s.owner[s.block[t]] == OfThread(t)
  }

  ghost predicate Init(s: State) {
    && (forall q :: q in s.qs ==> InitQueue(s, q))
    && (forall t :: t in s.status ==> InitThread(s, t))
    && (forall a :: a in s.loc ==> s.loc[a].q in s.qs && s.loc[a].l == AIdle(SQ.Silent))
  }

  lemma InitView(s: State, q: Qid)
    requires Init(s) && q in s.qs
    ensures MemOk(View(s, q)) && Abs(View(s, q)) == SQ.EMPTY
  {
    var m := View(s, q);
    assert InitQueue(s, q);
    forall t | t in m.status ensures ThreadOk(m, t) { assert InitThread(s, t); }
  }

  lemma IdleOk(m: Mem, a: Aid)
    requires Ends(m)
    ensures AgentOk(m, a, AIdle(SQ.Silent))
  {
  }

  lemma InitInv(s: State)
    requires Init(s)
    ensures Inv(s)
  {
    forall q | q in s.qs ensures MemOk(View(s, q)) { InitView(s, q); }
    forall a | a in s.loc ensures AgentOk(View(s, s.loc[a].q), a, s.loc[a].l) {
      InitView(s, s.loc[a].q);
      IdleOk(View(s, s.loc[a].q), a);
    }
  }

  ghost predicate StepAt(ss: seq<State>, ags: seq<Aid>, i: nat)
    requires i < |ags| == |ss| - 1
  {
    Step(ss[i], ss[i + 1], ags[i])
  }

  ghost predicate Steps(ss: seq<State>, ags: seq<Aid>) {
    |ss| == |ags| + 1 && forall i: nat :: i < |ags| ==> StepAt(ss, ags, i)
  }

  ghost predicate Run(ss: seq<State>, ags: seq<Aid>) { Steps(ss, ags) && Init(ss[0]) }

  lemma {:induction false} StepsInv(ss: seq<State>, ags: seq<Aid>, i: nat)
    requires Steps(ss, ags) && Inv(ss[0]) && i < |ss|
    ensures Inv(ss[i])
  {
    if i > 0 {
      StepsInv(ss, ags, i - 1);
      assert StepAt(ss, ags, i - 1);
      NextKeeps(ss[i - 1], ss[i], ags[i - 1]);
    }
  }

  lemma RunInv(ss: seq<State>, ags: seq<Aid>, i: nat)
    requires Run(ss, ags) && i < |ss|
    ensures Inv(ss[i])
  {
    InitInv(ss[0]);
    StepsInv(ss, ags, i);
  }

  /** The operations on queue q in the first i steps. */
  ghost function Events(ss: seq<State>, ags: seq<Aid>, q: Qid, i: nat): (es: seq<SQ.Event>)
    requires i <= |ags| == |ss| - 1
  {
    if i == 0 then [] else Events(ss, ags, q, i - 1) + [EventAt(ss[i - 1], ss[i], ags[i - 1], q)]
  }

  lemma {:induction false} StepsRefine(ss: seq<State>, ags: seq<Aid>, q: Qid, i: nat)
    requires Steps(ss, ags) && Inv(ss[0]) && Replays(ss[0], q, []) && i < |ss|
    ensures Inv(ss[i]) && Replays(ss[i], q, Events(ss, ags, q, i))
  {
    if i > 0 {
      StepsRefine(ss, ags, q, i - 1);
      assert StepAt(ss, ags, i - 1);
      OneStep(ss[i - 1], ss[i], ags[i - 1], q, Events(ss, ags, q, i - 1), Events(ss, ags, q, i));
    }
  }

  /** In every run each pointer-level queue is a signed queue: replaying its operations in the
      order in which their exchanges took effect is legal and yields what its nodes spell out. */
  lemma RunRefines(ss: seq<State>, ags: seq<Aid>, q: Qid, i: nat)
    requires Run(ss, ags) && q in ss[0].qs && i < |ss|
    ensures Inv(ss[i]) && Replays(ss[i], q, Events(ss, ags, q, i))
  {
    InitInv(ss[0]);
    InitView(ss[0], q);
    StepsRefine(ss, ags, q, i);
  }

  /** Hence, on every queue: sleepers leave in FIFO order, sleeps minus wakes is sleepers minus
      stored wakeups, and the two are never there together. */
  lemma RunBalance(ss: seq<State>, ags: seq<Aid>, q: Qid, i: nat)
    requires Run(ss, ags) && q in ss[0].qs && i < |ss|
    ensures q in ss[i].qs && MemOk(View(ss[i], q))
    ensures var es, b := Events(ss, ags, q, i), Abs(View(ss[i], q));
            && SQ.In(es) == SQ.Out(es) + b.q
            && SQ.Sleeps(es) - SQ.Wakes(es) == |b.q| - b.tokens
            && (b.q == [] || b.tokens == 0)
  {
    RunRefines(ss, ags, q, i);
    SQ.Balance(Events(ss, ags, q, i));
  }

  // ----- one node each, across all queues -----

  /** Position p of queue q is live: its sentinel or a sleeper. */
  ghost predicate Live(s: State, q: Qid, p: nat) { q in s.qs && s.qs[q].head.stamp <= p < |s.qs[q].hist| }

  predicate Awake(s: State, t: Tid) { t in s.status && (s.status[t].Running? || s.status[t].Blocking?) && t in s.block }

  predicate Holds(s: State, a: Aid) { a in s.loc && (s.loc[a].l.DFix? || s.loc[a].l.DWake?) }

  lemma LiveOwner(ss: seq<State>, ags: seq<Aid>, i: nat, q: Qid, p: nat)
    requires Run(ss, ags) && i < |ss| && Live(ss[i], q, p)
    ensures var s := ss[i]; var x := s.qs[q].hist[p]; x in s.owner && s.owner[x] == InChain(q, p)
  {
    RunInv(ss, ags, i);
    assert MemOk(View(ss[i], q));
    assert LinkOk(View(ss[i], q), p);
  }

  lemma AwakeOwner(ss: seq<State>, ags: seq<Aid>, i: nat, t: Tid)
    requires Run(ss, ags) && i < |ss| && Awake(ss[i], t)
    ensures var s := ss[i]; s.block[t] in s.owner && s.owner[s.block[t]] == OfThread(t)
  {
    if i == 0 {
      assert InitThread(ss[0], t);
    } else {
      assert StepAt(ss, ags, i - 1);
      var q := ss[i].loc[ags[i - 1]].q;
      RunInv(ss, ags, i);
      assert MemOk(View(ss[i], q));
      assert ThreadOk(View(ss[i], q), t);
    }
  }

  lemma HeldOk(m: Mem, a: Aid, l: Local)
    requires AgentOk(m, a, l) && (l.DFix? || l.DWake?)
    ensures l.x in m.owner && m.owner[l.x] == OfAgent(a)
  {
  }

  lemma HeldOwner(ss: seq<State>, ags: seq<Aid>, i: nat, a: Aid)
    requires Run(ss, ags) && i < |ss| && Holds(ss[i], a)
    ensures var s := ss[i]; s.loc[a].l.x in s.owner && s.owner[s.loc[a].l.x] == OfAgent(a)
  {
    RunInv(ss, ags, i);
    HeldOk(View(ss[i], ss[i].loc[a].q), a, ss[i].loc[a].l);
  }

  /** In every reachable state nodes are pairwise distinct across the node swap: the live nodes
      of all queues, sentinels included, the block nodes of the threads that are awake, and the
      nodes that wakers have taken out. */
  lemma NodesDistinct(ss: seq<State>, ags: seq<Aid>, i: nat)
    requires Run(ss, ags) && i < |ss|
    ensures var s := ss[i];
            && (forall q, p: nat, q', p': nat :: Live(s, q, p) && Live(s, q', p') && (q, p) != (q', p') ==>
                  s.qs[q].hist[p] != s.qs[q'].hist[p'])
            && (forall t, u :: Awake(s, t) && Awake(s, u) && t != u ==> s.block[t] != s.block[u])
            && (forall a, b :: Holds(s, a) && Holds(s, b) && a != b ==> s.loc[a].l.x != s.loc[b].l.x)
    ensures var s := ss[i];
            && (forall q, p: nat, t :: Live(s, q, p) && Awake(s, t) ==> s.block[t] != s.qs[q].hist[p])
            && (forall q, p: nat, a :: Live(s, q, p) && Holds(s, a) ==> s.loc[a].l.x != s.qs[q].hist[p])
            && (forall t, a :: Awake(s, t) && Holds(s, a) ==> s.loc[a].l.x != s.block[t])
  {
    var s := ss[i];
    forall q, p: nat | Live(s, q, p) ensures s.qs[q].hist[p] in s.owner && s.owner[s.qs[q].hist[p]] == InChain(q, p) {
      LiveOwner(ss, ags, i, q, p);
    }
    forall t | Awake(s, t) ensures s.block[t] in s.owner && s.owner[s.block[t]] == OfThread(t) {
      AwakeOwner(ss, ags, i, t);
    }
    forall a | Holds(s, a) ensures s.loc[a].l.x in s.owner && s.owner[s.loc[a].l.x] == OfAgent(a) {
      HeldOwner(ss, ags, i, a);
    }
  }

  /** A thread sleeps on at most one queue, once, and is asleep while it does. */
  lemma SleepsOnce(ss: seq<State>, ags: seq<Aid>, i: nat, q: Qid, p: nat, q': Qid, p': nat)
    requires Run(ss, ags) && i < |ss| && Live(ss[i], q, p) && Live(ss[i], q', p')
    requires var s := ss[i]; p > s.qs[q].head.stamp && p' > s.qs[q'].head.stamp
    ensures |ss[i].qs[q].objs| == |ss[i].qs[q].hist| && |ss[i].qs[q'].objs| == |ss[i].qs[q'].hist|
    ensures var t := ss[i].qs[q].objs[p];
            t in ss[i].status && ss[i].status[t] == Queued(q, p) && (t == ss[i].qs[q'].objs[p'] ==> (q, p) == (q', p'))
  {
    RunInv(ss, ags, i);
    assert MemOk(View(ss[i], q)) && MemOk(View(ss[i], q'));
    assert LinkOk(View(ss[i], q), p) && LinkOk(View(ss[i], q'), p');
  }

  lemma WokenActs(m: Mem, a: Aid, l: Local, m': Mem, l': Local)
    requires AgentOk(m, a, l) && l.DWake? && Acts(m, a, l, m', l')
    ensures l.obj in m.status && m.status[l.obj] == Handed(a) && m'.status == m.status[l.obj := Running]
    ensures l.obj in m'.block && m'.block[l.obj] == l.x && l.x in m'.nodes && m'.nodes[l.x].who == l.obj
    ensures l.x in m'.owner && m'.owner[l.x] == OfThread(l.obj)
  {
  }

  /** The thread made runnable at the end of a dequeue is the one taken out of the queue by it,
      it was asleep until then, and it gets a node of its own that bears its name. */
  lemma WokenThread(ss: seq<State>, ags: seq<Aid>, i: nat)
    requires Run(ss, ags) && i < |ags| && ags[i] in ss[i].loc && ss[i].loc[ags[i]].l.DWake?
    ensures var s, s', a := ss[i], ss[i + 1], ags[i];
            var DWake(x, t) := s.loc[a].l;
            && t in s.status && s.status[t] == Handed(a) && s'.status == s.status[t := Running]
            && t in s'.block && s'.block[t] == x && x in s'.nodes && s'.nodes[x].who == t
            && x in s'.owner && s'.owner[x] == OfThread(t)
  {
    RunInv(ss, ags, i);
    assert StepAt(ss, ags, i);
    var q := ss[i].loc[ags[i]].q;
    WokenActs(View(ss[i], q), ags[i], ss[i].loc[ags[i]].l, View(ss[i + 1], q), ss[i + 1].loc[ags[i]].l);
  }
}
