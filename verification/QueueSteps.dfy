/** The markable Michael-Scott queue of include/bmk-core/lfqueue.h (mark = true) with the two
    users of it in lib/libbmk_core/sched.c, block_queue_callback and bmk_block_queue_wake, as a
    step system, seen from one queue among any number.  Pointers carry stamps; a stamped pointer is
    loaded in two steps, stamp first, and compared and swapped in one.  QueueSystem puts the
    queues together: threads and their nodes move from one to the other. */
module QueueSteps {
  import opened Common
  import SQ = SignedQueue

  type Qid = nat
  type NodeId = nat
  type Tid = nat
  type Aid = nat

  /** A next field: odd values count wakeups that found nobody (Cnt(0) is __LFQ_NULL, and
      __LFQ_INC moves the count by one), even ones point to a node. */
  datatype Next = Cnt(k: nat) | Ptr(n: NodeId)

  datatype Node = Node(stamp: nat, next: Next, who: Tid)
  datatype Ref = Ref(stamp: nat, node: NodeId)

  /** Where a thread is: running (or runnable), blocked with its callback run by agent a, in
      queue q at position p, or taken out by agent a and about to be made runnable. */
  datatype Status = Running | Blocking(a: Aid) | Queued(q: Qid, p: nat) | Handed(a: Aid)

  /** Who owns a node: a thread (bt_block_node), queue q (at position p), or an agent that has
      just taken it out. */
  datatype Owner = OfThread(t: Tid) | InChain(q: Qid, p: nat) | OfAgent(a: Aid)

  /** Queue q and the memory it shares with the other queues (nodes, block, status, owner), and
      the history of the queue: `hist` lists every node that ever was the
      last one, in order, `objs` the threads that came with them; `nenq` and `ndeq` count the
      enqueues and dequeues that have taken effect. */
  datatype Mem = Mem(
    q: Qid, head: Ref, tail: Ref, nodes: map<NodeId, Node>, block: map<Tid, NodeId>,
    hist: seq<NodeId>, objs: seq<Tid>, status: map<Tid, Status>, owner: map<NodeId, Owner>,
    nenq: nat, ndeq: nat)

  datatype Local =
    | AIdle(last: SQ.Event)                                   // between calls; what the last one did
    // lfqueue_enqueue, called by block_queue_callback for thread t
    | EStamp(t: Tid)                                          // node->next.stamp++
    | EStore(t: Tid)                                          // node->next.value = NULL
    | ETailS(t: Tid)                                          // load tail.stamp
    | ETailV(t: Tid, ts: nat)                                 // load tail.value
    | ENextS(t: Tid, ts: nat, tv: NodeId)                     // load tail->next.stamp
    | ENextV(t: Tid, ts: nat, tv: NodeId, ns: nat)            // load tail->next.value
    | EHelp(t: Tid, ts: nat, tv: NodeId, nv: NodeId)          // swing tail to a linked node
    | ECheck(t: Tid, ts: nat, tv: NodeId, ns: nat, k: nat)    // reload tail.stamp
    | EConsume(t: Tid, ts: nat, tv: NodeId, ns: nat, k: nat)  // take one stored wakeup
    | EAppend(t: Tid, ts: nat, tv: NodeId, ns: nat)           // link the node
    | ESwing(t: Tid, x: NodeId, ts: nat, tv: NodeId)          // swing tail to the new node
    // lfqueue_dequeue, called by bmk_block_queue_wake
    | DHeadS                                                  // load head.stamp
    | DHeadV(hs: nat)                                         // load head.value
    | DTailS(hs: nat, hv: NodeId)                             // load tail.stamp
    | DTailV(hs: nat, hv: NodeId, ts: nat)                    // load tail.value
    | DNextS(hs: nat, hv: NodeId, ts: nat, tv: NodeId)        // load head->next.stamp
    | DNextV(hs: nat, hv: NodeId, ts: nat, tv: NodeId, ns: nat)
    | DCheck(hs: nat, hv: NodeId, ts: nat, tv: NodeId, ns: nat, nx: Next)   // reload head.stamp
    | DToken(hs: nat, hv: NodeId, ts: nat, tv: NodeId, ns: nat, k: nat)     // store a wakeup
    | DHelp(hs: nat, hv: NodeId, ts: nat, nv: NodeId)         // swing a lagging tail
    | DObject(hs: nat, hv: NodeId, nv: NodeId)                // load next->object
    | DSwing(hs: nat, hv: NodeId, nv: NodeId, obj: Tid)       // swing head
    | DFix(x: NodeId, obj: Tid)                               // old sentinel->object = object
    | DWake(x: NodeId, obj: Tid)                              // bt_block_node = node; make runnable

  // ----- steps: agent a, at l, turns m into m' and moves to l' -----

  /** After reading a next field (ns, nv) of the node tv (lines 81-91). */
  function EDecide(t: Tid, ts: nat, tv: NodeId, ns: nat, nv: Next): Local {
    match nv
    case Ptr(n) => EHelp(t, ts, tv, n)
    case Cnt(k) => ECheck(t, ts, tv, ns, k)
  }

  ghost predicate Begin(m: Mem, a: Aid, l: Local, m': Mem, l': Local) {
    && l.AIdle?
    && (|| (l'.EStamp? && l'.t in m.status && m.status[l'.t] == Running
            && m' == m.(status := m.status[l'.t := Blocking(a)]))
        || (l' == DHeadS && m' == m))
  }

  ghost predicate ELocal(m: Mem, l: Local, m': Mem, l': Local) {
    && m' == m
    && match l
       case ETailS(t) => l' == ETailV(t, m.tail.stamp)
       case ETailV(t, ts) => l' == ENextS(t, ts, m.tail.node)
       case ENextS(t, ts, tv) => tv in m.nodes && l' == ENextV(t, ts, tv, m.nodes[tv].stamp)
       case ENextV(t, ts, tv, ns) => tv in m.nodes && l' == EDecide(t, ts, tv, ns, m.nodes[tv].next)
       case ECheck(t, ts, tv, ns, k) =>
         l' == if m.tail.stamp != ts then ETailV(t, m.tail.stamp)
               else if k > 0 then EConsume(t, ts, tv, ns, k) else EAppend(t, ts, tv, ns)
       case _ => false
  }

  ghost predicate EPrepare(m: Mem, l: Local, m': Mem, l': Local) {
    match l
    case EStamp(t) =>
      && t in m.block && m.block[t] in m.nodes && l' == EStore(t)
      && var x := m.block[t];
         m' == m.(nodes := m.nodes[x := m.nodes[x].(stamp := m.nodes[x].stamp + 1)])
    case EStore(t) =>
      && t in m.block && m.block[t] in m.nodes && l' == ETailS(t)
      && var x := m.block[t];
         m' == m.(nodes := m.nodes[x := m.nodes[x].(next := Cnt(0))])
    case _ => false
  }

  /** A compare-and-swap of tail from (ts, tv) to nv; `back` is where a failure leads. */
  ghost predicate TailCas(m: Mem, m': Mem, ts: nat, tv: NodeId, nv: NodeId, l': Local, good: Local, bad: Local) {
    || (m.tail == Ref(ts, tv) && m' == m.(tail := Ref(ts + 1, nv)) && l' == good)
    || (m' == m && l' == bad)
  }

  ghost predicate EHelpStep(m: Mem, l: Local, m': Mem, l': Local) {
    && l.EHelp?
    && TailCas(m, m', l.ts, l.tv, l.nv, l', ENextS(l.t, l.ts + 1, l.nv), ENextS(l.t, m.tail.stamp, m.tail.node))
  }

  /** A failed compare-and-swap of tv->next yields its current value (lines 95-98, 103-111). */
  ghost predicate ERetry(m: Mem, l: Local, m': Mem, l': Local) {
    && (l.EConsume? || l.EAppend?) && l.tv in m.nodes
    && m' == m && l' == EDecide(l.t, l.ts, l.tv, m.nodes[l.tv].stamp, m.nodes[l.tv].next)
  }

  /** The enqueue answers false; the callback makes its thread runnable at once. */
  ghost predicate EConsumed(m: Mem, l: Local, m': Mem, l': Local) {
    && l.EConsume? && l.k > 0 && l.tv in m.nodes && l' == AIdle(SQ.Slept(l.t, false))
    && m.nodes[l.tv].stamp == l.ns && m.nodes[l.tv].next == Cnt(l.k)
    && m' == m.(nodes := m.nodes[l.tv := m.nodes[l.tv].(stamp := l.ns + 1, next := Cnt(l.k - 1))],
                status := m.status[l.t := Running], nenq := m.nenq + 1)
  }

  /** The node is linked: from here on the thread can be woken. */
  ghost predicate EAppended(m: Mem, l: Local, m': Mem, l': Local) {
    && l.EAppend? && l.tv in m.nodes && l.t in m.block
    && m.nodes[l.tv].stamp == l.ns && m.nodes[l.tv].next == Cnt(0)
    && var x := m.block[l.t];
       && l' == ESwing(l.t, x, l.ts, l.tv)
       && m' == m.(nodes := m.nodes[l.tv := m.nodes[l.tv].(stamp := l.ns + 1, next := Ptr(x))],
                   hist := m.hist + [x], objs := m.objs + [l.t], nenq := m.nenq + 1,
                   status := m.status[l.t := Queued(m.q, |m.hist|)], owner := m.owner[x := InChain(m.q, |m.hist|)])
  }

  ghost predicate ESwung(m: Mem, l: Local, m': Mem, l': Local) {
    && l.ESwing?
    && var done := AIdle(SQ.Slept(l.t, true)); TailCas(m, m', l.ts, l.tv, l.x, l', done, done)
  }

  ghost predicate DLocal(m: Mem, l: Local, m': Mem, l': Local) {
    && m' == m
    && match l
       case DHeadS => l' == DHeadV(m.head.stamp)
       case DHeadV(hs) => l' == DTailS(hs, m.head.node)
       case DTailS(hs, hv) => l' == DTailV(hs, hv, m.tail.stamp)
       case DTailV(hs, hv, ts) => l' == DNextS(hs, hv, ts, m.tail.node)
       case DNextS(hs, hv, ts, tv) => hv in m.nodes && l' == DNextV(hs, hv, ts, tv, m.nodes[hv].stamp)
       case DNextV(hs, hv, ts, tv, ns) => hv in m.nodes && l' == DCheck(hs, hv, ts, tv, ns, m.nodes[hv].next)
       case DCheck(hs, hv, ts, tv, ns, nv) =>
         l' == if m.head.stamp != hs then DHeadV(m.head.stamp)
               else if nv.Cnt? then DToken(hs, hv, ts, tv, ns, nv.k)
               else if hv == tv then DHelp(hs, hv, ts, nv.n) else DObject(hs, hv, nv.n)
       case DObject(hs, hv, nv) => nv in m.nodes && l' == DSwing(hs, hv, nv, m.nodes[nv].who)
       case _ => false
  }

  /** Nobody sleeps: the wakeup is stored and the dequeue answers NULL. */
  ghost predicate DStored(m: Mem, l: Local, m': Mem, l': Local) {
    && l.DToken? && l.hv in m.nodes && l' == AIdle(SQ.Woke(None))
    && m.nodes[l.hv].stamp == l.ns && m.nodes[l.hv].next == Cnt(l.k)
    && m' == m.(nodes := m.nodes[l.hv := m.nodes[l.hv].(stamp := l.ns + 1, next := Cnt(l.k + 1))],
                ndeq := m.ndeq + 1)
  }

  ghost predicate DRetry(m: Mem, l: Local, m': Mem, l': Local) {
    && l.DToken? && l.hv in m.nodes && m' == m
    && l' == DCheck(l.hs, l.hv, l.ts, l.tv, m.nodes[l.hv].stamp, m.nodes[l.hv].next)
  }

  /** Lines 147-152: a strong exchange, whose outcome is ignored. */
  ghost predicate DHelped(m: Mem, l: Local, m': Mem, l': Local) {
    && l.DHelp? && l' == DObject(l.hs, l.hv, l.nv)
    && m' == if m.tail == Ref(l.ts, l.hv) then m.(tail := Ref(l.ts + 1, l.nv)) else m
  }

  /** The first sleeper is taken out, together with the old sentinel. */
  ghost predicate DTaken(m: Mem, a: Aid, l: Local, m': Mem, l': Local) {
    && l.DSwing? && m.head == Ref(l.hs, l.hv) && l' == DFix(l.hv, l.obj)
    && m' == m.(head := Ref(l.hs + 1, l.nv), owner := m.owner[l.hv := OfAgent(a)], ndeq := m.ndeq + 1,
                status := m.status[l.obj := Handed(a)])
  }

  ghost predicate DLost(m: Mem, l: Local, m': Mem, l': Local) {
    l.DSwing? && m' == m && l' == DTailS(m.head.stamp, m.head.node)
  }

  ghost predicate DFinish(m: Mem, l: Local, m': Mem, l': Local) {
    match l
    case DFix(x, obj) =>
      && x in m.nodes && l' == DWake(x, obj)
      && m' == m.(nodes := m.nodes[x := m.nodes[x].(who := obj)])
    case DWake(x, obj) =>
      && x in m.nodes
      && var t := m.nodes[x].who;
         && l' == AIdle(SQ.Woke(Some(t)))
         && m' == m.(block := m.block[t := x], owner := m.owner[x := OfThread(t)], status := m.status[t := Running])
    case _ => false
  }

  ghost predicate Acts(m: Mem, a: Aid, l: Local, m': Mem, l': Local) {
    match l
    case AIdle(_) => Begin(m, a, l, m', l')
    case EStamp(_) => EPrepare(m, l, m', l')
    case EStore(_) => EPrepare(m, l, m', l')
    case EHelp(_, _, _, _) => EHelpStep(m, l, m', l')
    case EConsume(_, _, _, _, _) => ERetry(m, l, m', l') || EConsumed(m, l, m', l')
    case EAppend(_, _, _, _) => ERetry(m, l, m', l') || EAppended(m, l, m', l')
    case ESwing(_, _, _, _) => ESwung(m, l, m', l')
    case DToken(_, _, _, _, _, _) => DRetry(m, l, m', l') || DStored(m, l, m', l')
    case DHelp(_, _, _, _) => DHelped(m, l, m', l')
    case DSwing(_, _, _, _) => DTaken(m, a, l, m', l') || DLost(m, l, m', l')
    case DFix(_, _) => DFinish(m, l, m', l')
    case DWake(_, _) => DFinish(m, l, m', l')
    case _ => ELocal(m, l, m', l') || DLocal(m, l, m', l')
  }

  // ----- invariant -----

  function LastPos(m: Mem): int { |m.hist| - 1 }

  /** Stamps of head and tail are positions in the history. */
  ghost predicate Ends(m: Mem) {
    && m.head.stamp <= m.tail.stamp < |m.hist| == |m.objs|
    && m.head.node == m.hist[m.head.stamp] && m.tail.node == m.hist[m.tail.stamp]
    && (forall p: nat :: p < |m.hist| ==> m.hist[p] in m.nodes)
  }

  /** Position p of the live part: owned by the queue, linked to its successor. */
  ghost predicate LinkOk(m: Mem, p: nat)
    requires p < |m.hist| == |m.objs| && m.hist[p] in m.nodes
  {
    var x := m.hist[p];
    && x in m.owner && m.owner[x] == InChain(m.q, p)
    && (p + 1 < |m.hist| ==> m.nodes[x].next == Ptr(m.hist[p + 1]))
    && (p + 1 == |m.hist| ==> m.nodes[x].next.Cnt? && (m.nodes[x].next.k > 0 ==> m.head.stamp == p))
    && (p > m.head.stamp ==>
          && m.nodes[x].who == m.objs[p]
          && m.objs[p] in m.status && m.status[m.objs[p]] == Queued(m.q, p))
  }

  ghost predicate Chain(m: Mem)
    requires Ends(m)
  {
    forall p: nat :: m.head.stamp <= p < |m.hist| ==> LinkOk(m, p)
  }

  /** A thread that is not asleep owns its block node, which bears its name; one that is
      queued is where its status says. */
  ghost predicate ThreadOk(m: Mem, t: Tid)
    requires t in m.status
  {
    && t in m.block && m.block[t] in m.nodes
    && (m.status[t].Running? || m.status[t].Blocking? ==>
          m.block[t] in m.owner && m.owner[m.block[t]] == OfThread(t) && m.nodes[m.block[t]].who == t)
    && (m.status[t].Queued? && m.status[t].q == m.q ==>
          m.head.stamp < m.status[t].p < |m.objs| && m.objs[m.status[t].p] == t)
  }

  ghost predicate Threads(m: Mem) { forall t :: t in m.status ==> ThreadOk(m, t) }

  ghost predicate MemOk(m: Mem) {
    && Ends(m) && Chain(m) && Threads(m)
    && m.nenq - m.ndeq == Sleepers(m) - Tokens(m)
  }

  ghost function Sleepers(m: Mem): int { LastPos(m) - m.head.stamp }

  ghost function Tokens(m: Mem): int {
    if |m.hist| > 0 && m.hist[|m.hist| - 1] in m.nodes && m.nodes[m.hist[|m.hist| - 1]].next.Cnt?
    then m.nodes[m.hist[|m.hist| - 1]].next.k else 0
  }

  /** The thread on whose behalf an agent enqueues and whose node is not linked yet. */
  predicate Enqueues(l: Local) {
    l.EStamp? || l.EStore? || l.ETailS? || l.ETailV? || l.ENextS? || l.ENextV? || l.EHelp? || l.ECheck? ||
    l.EConsume? || l.EAppend?
  }

  /** A stamped pointer (ts, tv) read from tail is at worst out of date. */
  ghost predicate TailRef(m: Mem, ts: nat, tv: NodeId)
    requires Ends(m)
  {
    tv in m.nodes && ts <= m.tail.stamp && (m.tail.stamp == ts ==> tv == m.hist[ts])
  }

  ghost predicate HeadRef(m: Mem, hs: nat, hv: NodeId)
    requires Ends(m)
  {
    hv in m.nodes && hs <= m.head.stamp && (m.head.stamp == hs ==> hv == m.hist[hs])
  }

  /** nv is the successor of position p. */
  ghost predicate Follows(m: Mem, p: nat, nv: NodeId) { p + 1 < |m.hist| && nv == m.hist[p + 1] }

  /** (ns, nv) was read from x->next. */
  ghost predicate NextRead(m: Mem, x: NodeId, ns: nat)
    requires x in m.nodes
  {
    ns <= m.nodes[x].stamp
  }

  /** What a dequeuer knows of tail: it has not fallen behind head, and unless it was seen at
      head itself it is ahead of it. */
  ghost predicate TailSeen(m: Mem, hs: nat, hv: NodeId, ts: nat, tv: NodeId) {
    && tv in m.nodes && hs <= ts <= m.tail.stamp
    && (m.head.stamp == hs ==> if tv == hv then ts == hs else m.tail.stamp > hs)
  }

  /** An exchange of x->next from (ns, Cnt(k)) can only succeed on the last node. */
  ghost predicate ArmedLast(m: Mem, x: NodeId, ns: nat, k: nat, p: nat) {
    && x in m.nodes && ns <= m.nodes[x].stamp
    && (m.nodes[x].stamp == ns ==> m.nodes[x].next == Cnt(k) && p == LastPos(m) && m.hist[p] == x)
  }

  ghost predicate EOk(m: Mem, a: Aid, l: Local)
    requires Ends(m)
  {
    && (Enqueues(l) ==>
          && l.t in m.status && m.status[l.t] == Blocking(a)
          && l.t in m.block && m.block[l.t] in m.nodes
          && (!l.EStamp? && !l.EStore? ==> m.nodes[m.block[l.t]].next == Cnt(0)))
    && match l
       case ETailV(t, ts) => ts <= m.tail.stamp
       case ENextS(t, ts, tv) => TailRef(m, ts, tv)
       case ENextV(t, ts, tv, ns) => TailRef(m, ts, tv) && NextRead(m, tv, ns)
       case EHelp(t, ts, tv, nv) => TailRef(m, ts, tv) && (m.tail.stamp == ts ==> Follows(m, ts, nv))
       case ECheck(t, ts, tv, ns, k) =>
         && TailRef(m, ts, tv) && NextRead(m, tv, ns)
         && (m.tail.stamp == ts && m.nodes[tv].stamp == ns ==> m.nodes[tv].next == Cnt(k))
       case EConsume(t, ts, tv, ns, k) => TailRef(m, ts, tv) && ArmedLast(m, tv, ns, k, ts) && k > 0
       case EAppend(t, ts, tv, ns) => TailRef(m, ts, tv) && ArmedLast(m, tv, ns, 0, ts)
       case ESwing(_, x, ts, tv) => TailRef(m, ts, tv) && Follows(m, ts, x)
       case _ => true
  }

  ghost predicate DOk(m: Mem, a: Aid, l: Local)
    requires Ends(m)
  {
    match l
    case DHeadV(hs) => hs <= m.head.stamp
    case DTailS(hs, hv) => HeadRef(m, hs, hv)
    case DTailV(hs, hv, ts) => HeadRef(m, hs, hv) && hs <= ts <= m.tail.stamp
    case DNextS(hs, hv, ts, tv) => HeadRef(m, hs, hv) && TailSeen(m, hs, hv, ts, tv)
    case DNextV(hs, hv, ts, tv, ns) => HeadRef(m, hs, hv) && TailSeen(m, hs, hv, ts, tv) && NextRead(m, hv, ns)
    case DCheck(hs, hv, ts, tv, ns, nv) =>
      && HeadRef(m, hs, hv) && TailSeen(m, hs, hv, ts, tv) && NextRead(m, hv, ns)
      && (m.head.stamp == hs ==>
            && (m.nodes[hv].stamp == ns ==> m.nodes[hv].next == nv)
            && (nv.Ptr? ==> Follows(m, hs, nv.n)))
    case DToken(hs, hv, ts, tv, ns, k) =>
      && HeadRef(m, hs, hv) && TailSeen(m, hs, hv, ts, tv) && ArmedLast(m, hv, ns, k, hs)
      && (m.nodes[hv].stamp == ns ==> m.head.stamp == hs)
    case DHelp(hs, hv, ts, nv) => HeadRef(m, hs, hv) && ts == hs && Follows(m, hs, nv)
    case DObject(hs, hv, nv) => HeadRef(m, hs, hv) && Follows(m, hs, nv) && m.tail.stamp > hs
    case DSwing(hs, hv, nv, obj) =>
      HeadRef(m, hs, hv) && Follows(m, hs, nv) && m.tail.stamp > hs && (m.head.stamp == hs ==> obj == m.objs[hs + 1])
    case DFix(x, obj) => x in m.nodes && x in m.owner && m.owner[x] == OfAgent(a) &&
      obj in m.status && m.status[obj] == Handed(a)
    case DWake(x, obj) => x in m.nodes && x in m.owner && m.owner[x] == OfAgent(a) &&
      obj in m.status && m.status[obj] == Handed(a) && m.nodes[x].who == obj
    case _ => true
  }

  // ----- each kind of write keeps the memory well formed -----

  lemma SwingMem(m: Mem, nv: NodeId, m': Mem)
    requires MemOk(m) && Follows(m, m.tail.stamp, nv) && m' == m.(tail := Ref(m.tail.stamp + 1, nv))
    ensures MemOk(m')
  {
    forall p: nat | m'.head.stamp <= p < |m'.hist| ensures LinkOk(m', p) { assert LinkOk(m, p); }
    forall t | t in m'.status ensures ThreadOk(m', t) { assert ThreadOk(m, t); }
  }

  lemma PrepareMem(m: Mem, a: Aid, l: Local, m': Mem, l': Local)
    requires MemOk(m) && EOk(m, a, l) && EPrepare(m, l, m', l')
    ensures MemOk(m')
  {
    assert ThreadOk(m, l.t);
    forall p: nat | m'.head.stamp <= p < |m'.hist| ensures LinkOk(m', p) { assert LinkOk(m, p); }
    forall t | t in m'.status ensures ThreadOk(m', t) { assert ThreadOk(m, t); }
    assert LinkOk(m, |m.hist| - 1);
  }

  lemma BeginMem(m: Mem, a: Aid, l: Local, m': Mem, l': Local)
    requires MemOk(m) && Begin(m, a, l, m', l')
    ensures MemOk(m')
  {
    forall p: nat | m'.head.stamp <= p < |m'.hist| ensures LinkOk(m', p) { assert LinkOk(m, p); }
    forall t | t in m'.status ensures ThreadOk(m', t) { assert ThreadOk(m, t); }
  }

  lemma ConsumeMem(m: Mem, a: Aid, l: Local, m': Mem, l': Local)
    requires MemOk(m) && EOk(m, a, l) && EConsumed(m, l, m', l')
    ensures MemOk(m')
  {
    assert ThreadOk(m, l.t) && LinkOk(m, |m.hist| - 1);
    forall p: nat | m'.head.stamp <= p < |m'.hist| ensures LinkOk(m', p) { assert LinkOk(m, p); }
    forall t | t in m'.status ensures ThreadOk(m', t) { assert ThreadOk(m, t); }
  }

  lemma StoreMem(m: Mem, a: Aid, l: Local, m': Mem, l': Local)
    requires MemOk(m) && DOk(m, a, l) && DStored(m, l, m', l')
    ensures MemOk(m')
  {
    assert LinkOk(m, |m.hist| - 1);
    forall p: nat | m'.head.stamp <= p < |m'.hist| ensures LinkOk(m', p) { assert LinkOk(m, p); }
    forall t | t in m'.status ensures ThreadOk(m', t) { assert ThreadOk(m, t); }
  }

  lemma AppendMem(m: Mem, a: Aid, l: Local, m': Mem, l': Local)
    requires MemOk(m) && EOk(m, a, l) && EAppended(m, l, m', l')
    ensures MemOk(m')
  {
    assert ThreadOk(m, l.t) && LinkOk(m, |m.hist| - 1);
    forall p: nat | m'.head.stamp <= p < |m'.hist| ensures LinkOk(m', p) {
      if p < |m.hist| { assert LinkOk(m, p); }
    }
    forall t | t in m'.status ensures ThreadOk(m', t) { assert ThreadOk(m, t); }
  }

  lemma TakeMem(m: Mem, a: Aid, l: Local, m': Mem, l': Local)
    requires MemOk(m) && DOk(m, a, l) && DTaken(m, a, l, m', l')
    ensures MemOk(m')
  {
    assert LinkOk(m, l.hs) && LinkOk(m, l.hs + 1) && LinkOk(m, |m.hist| - 1);
    forall p: nat | m'.head.stamp <= p < |m'.hist| ensures LinkOk(m', p) { assert LinkOk(m, p); }
    forall t | t in m'.status ensures ThreadOk(m', t) { assert ThreadOk(m, t); }
  }

  lemma FinishMem(m: Mem, a: Aid, l: Local, m': Mem, l': Local)
    requires MemOk(m) && DOk(m, a, l) && DFinish(m, l, m', l')
    ensures MemOk(m')
  {
    forall p: nat | m'.head.stamp <= p < |m'.hist| ensures LinkOk(m', p) { assert LinkOk(m, p); }
    forall t | t in m'.status ensures ThreadOk(m', t) { assert ThreadOk(m, t); }
    assert LinkOk(m, |m.hist| - 1);
  }

  // ----- what a step leaves alone -----

  /** The memory moves forward: nodes of the queue change only with their stamp, the history
      grows by linking to the last node. */
  ghost predicate Forward(m: Mem, m': Mem) {
    && Ends(m) && Ends(m')
    && m.head.stamp <= m'.head.stamp && m.tail.stamp <= m'.tail.stamp
    && m.hist <= m'.hist && m.objs <= m'.objs
    && (forall n :: n in m.nodes ==>
          && n in m'.nodes && m.nodes[n].stamp <= m'.nodes[n].stamp
          && (m'.nodes[n].stamp == m.nodes[n].stamp && n in m.owner && m.owner[n].InChain? ==>
                m'.nodes[n].next == m.nodes[n].next))
    && (|m.hist| < |m'.hist| ==>
          m.nodes[m.hist[|m.hist| - 1]].stamp < m'.nodes[m.hist[|m.hist| - 1]].stamp)
  }

  /** Agent a does not touch what other agents are working on. */
  ghost predicate Spares(m: Mem, a: Aid, m': Mem) {
    && (forall t :: t in m.status && (m.status[t].Blocking? || m.status[t].Handed?) && m.status[t].a != a ==>
          t in m'.status && m'.status[t] == m.status[t])
    && (forall t ::
          t in m.status && m.status[t].Blocking? && m.status[t].a != a && t in m.block && m.block[t] in m.nodes ==>
          t in m'.block && m'.block[t] == m.block[t] &&
          m.block[t] in m'.nodes && m'.nodes[m.block[t]].next == m.nodes[m.block[t]].next)
    && (forall x :: x in m.owner && m.owner[x].OfAgent? && m.owner[x].a != a && x in m.nodes ==>
          x in m'.owner && m'.owner[x] == m.owner[x] && x in m'.nodes && m'.nodes[x].who == m.nodes[x].who)
  }

  /** What is in other queues stays there as it is, and nothing gets there. */
  ghost predicate SparesQueues(m: Mem, m': Mem) {
    && m'.q == m.q
    && (forall x :: x in m.owner && m.owner[x].InChain? && m.owner[x].q != m.q && x in m.nodes ==>
          x in m'.owner && m'.owner[x] == m.owner[x] && x in m'.nodes && m'.nodes[x] == m.nodes[x])
    && (forall t :: t in m.status && m.status[t].Queued? && m.status[t].q != m.q ==>
          t in m'.status && m'.status[t] == m.status[t])
    && (forall t :: t in m'.status && m'.status[t].Queued? && m'.status[t].q != m.q ==>
          t in m.status && m.status[t] == m'.status[t])
  }

  lemma OtherE(m: Mem, a: Aid, m': Mem, b: Aid, l: Local)
    requires MemOk(m) && Forward(m, m') && Spares(m, a, m') && b != a && EOk(m, b, l)
    ensures EOk(m', b, l)
  {
    assert LinkOk(m, |m.hist| - 1) && LinkOk(m, m.tail.stamp);
  }

  lemma OtherD(m: Mem, a: Aid, m': Mem, b: Aid, l: Local)
    requires MemOk(m) && Forward(m, m') && Spares(m, a, m') && b != a && DOk(m, b, l)
    ensures DOk(m', b, l)
  {
    assert LinkOk(m, |m.hist| - 1) && LinkOk(m, m.head.stamp);
  }

  lemma SwingFrame(m: Mem, a: Aid, nv: NodeId, m': Mem)
    requires MemOk(m) && Follows(m, m.tail.stamp, nv) && m' == m.(tail := Ref(m.tail.stamp + 1, nv))
    ensures Forward(m, m') && Spares(m, a, m') && SparesQueues(m, m')
  {
  }

  lemma BeginFrame(m: Mem, a: Aid, l: Local, m': Mem, l': Local)
    requires MemOk(m) && Begin(m, a, l, m', l')
    ensures Forward(m, m') && Spares(m, a, m') && SparesQueues(m, m')
  {
  }

  lemma PrepareFrame(m: Mem, a: Aid, l: Local, m': Mem, l': Local)
    requires MemOk(m) && EOk(m, a, l) && EPrepare(m, l, m', l')
    ensures Forward(m, m') && Spares(m, a, m')
  {
    assert ThreadOk(m, l.t);
    forall t | t in m.status && m.status[t].Blocking? && m.status[t].a != a ensures m.block[t] != m.block[l.t] {
      assert ThreadOk(m, t);
    }
  }

  lemma PrepareQueues(m: Mem, a: Aid, l: Local, m': Mem, l': Local)
    requires MemOk(m) && EOk(m, a, l) && EPrepare(m, l, m', l')
    ensures SparesQueues(m, m')
  {
    assert ThreadOk(m, l.t);
  }

  lemma ConsumeFrame(m: Mem, a: Aid, l: Local, m': Mem, l': Local)
    requires MemOk(m) && EOk(m, a, l) && EConsumed(m, l, m', l')
    ensures Forward(m, m') && Spares(m, a, m')
  {
    assert LinkOk(m, |m.hist| - 1);
    forall t | t in m.status && m.status[t].Blocking? ensures m.block[t] != l.tv { assert ThreadOk(m, t); }
  }

  lemma ConsumeQueues(m: Mem, a: Aid, l: Local, m': Mem, l': Local)
    requires MemOk(m) && EOk(m, a, l) && EConsumed(m, l, m', l')
    ensures SparesQueues(m, m')
  {
    assert LinkOk(m, |m.hist| - 1);
  }

  lemma StoreFrame(m: Mem, a: Aid, l: Local, m': Mem, l': Local)
    requires MemOk(m) && DOk(m, a, l) && DStored(m, l, m', l')
    ensures Forward(m, m') && Spares(m, a, m') && SparesQueues(m, m')
  {
    assert LinkOk(m, |m.hist| - 1);
    forall t | t in m.status && m.status[t].Blocking? ensures m.block[t] != l.hv { assert ThreadOk(m, t); }
  }

  lemma AppendFrame(m: Mem, a: Aid, l: Local, m': Mem, l': Local)
    requires MemOk(m) && EOk(m, a, l) && EAppended(m, l, m', l')
    ensures Forward(m, m') && Spares(m, a, m')
  {
    assert LinkOk(m, |m.hist| - 1) && ThreadOk(m, l.t);
    forall t | t in m.status && m.status[t].Blocking? ensures m.block[t] != l.tv { assert ThreadOk(m, t); }
  }

  lemma AppendQueues(m: Mem, a: Aid, l: Local, m': Mem, l': Local)
    requires MemOk(m) && EOk(m, a, l) && EAppended(m, l, m', l')
    ensures SparesQueues(m, m')
  {
    assert LinkOk(m, |m.hist| - 1) && ThreadOk(m, l.t);
  }

  lemma TakeFrame(m: Mem, a: Aid, l: Local, m': Mem, l': Local)
    requires MemOk(m) && DOk(m, a, l) && DTaken(m, a, l, m', l')
    ensures Forward(m, m') && Spares(m, a, m') && SparesQueues(m, m')
  {
    assert LinkOk(m, l.hs) && LinkOk(m, l.hs + 1);
  }

  lemma FinishFrame(m: Mem, a: Aid, l: Local, m': Mem, l': Local)
    requires MemOk(m) && DOk(m, a, l) && DFinish(m, l, m', l')
    ensures Forward(m, m') && Spares(m, a, m')
  {
  }

  lemma FinishQueues(m: Mem, a: Aid, l: Local, m': Mem, l': Local)
    requires MemOk(m) && DOk(m, a, l) && DFinish(m, l, m', l')
    ensures SparesQueues(m, m')
  {
  }

  // ----- what the acting agent knows afterwards -----

  lemma SelfELocal(m: Mem, a: Aid, l: Local, m': Mem, l': Local)
    requires Ends(m) && LinkOk(m, m.tail.stamp) && EOk(m, a, l) && ELocal(m, l, m', l')
    ensures EOk(m', a, l') && DOk(m', a, l')
  {
  }

  lemma SelfERetry(m: Mem, a: Aid, l: Local, m': Mem, l': Local)
    requires Ends(m) && LinkOk(m, m.tail.stamp) && EOk(m, a, l) && ERetry(m, l, m', l')
    ensures EOk(m', a, l') && DOk(m', a, l')
  {
  }

  lemma SelfEPrepare(m: Mem, a: Aid, l: Local, m': Mem, l': Local)
    requires Ends(m) && EOk(m, a, l) && Ends(m') && EPrepare(m, l, m', l')
    ensures EOk(m', a, l') && DOk(m', a, l')
  {
  }

  lemma SelfEWrite(m: Mem, a: Aid, l: Local, m': Mem, l': Local)
    requires Ends(m) && EOk(m, a, l) && Ends(m')
    requires EHelpStep(m, l, m', l') || EConsumed(m, l, m', l') || EAppended(m, l, m', l') || ESwung(m, l, m', l')
    ensures EOk(m', a, l') && DOk(m', a, l')
  {
  }

  lemma SelfDLocal(m: Mem, a: Aid, l: Local, m': Mem, l': Local)
    requires Ends(m) && Chain(m) && DOk(m, a, l) && DLocal(m, l, m', l')
    ensures EOk(m', a, l') && DOk(m', a, l')
  {
    assert LinkOk(m, m.head.stamp) && LinkOk(m, m.tail.stamp);
    if m.head.stamp + 1 < |m.hist| { assert LinkOk(m, m.head.stamp + 1); }
  }

  lemma SelfDRetry(m: Mem, a: Aid, l: Local, m': Mem, l': Local)
    requires Ends(m) && LinkOk(m, m.head.stamp) && DOk(m, a, l) && (DRetry(m, l, m', l') || DLost(m, l, m', l'))
    ensures EOk(m', a, l') && DOk(m', a, l')
  {
  }

  lemma SelfDWrite(m: Mem, a: Aid, l: Local, m': Mem, l': Local)
    requires MemOk(m) && DOk(m, a, l) && Ends(m')
    requires DStored(m, l, m', l') || DHelped(m, l, m', l') || DTaken(m, a, l, m', l') || DFinish(m, l, m', l')
    ensures EOk(m', a, l') && DOk(m', a, l')
  {
    if l.DSwing? { assert LinkOk(m, l.hs + 1); }
  }

  // ----- every step keeps the invariant -----

  /** What every step of an agent leaves behind. */
  ghost predicate Good(m: Mem, a: Aid, m': Mem, l': Local) {
    && MemOk(m') && Forward(m, m') && Spares(m, a, m') && SparesQueues(m, m')
    && EOk(m', a, l') && DOk(m', a, l')
  }

  lemma Still(m: Mem, a: Aid, l': Local)
    requires MemOk(m) && EOk(m, a, l') && DOk(m, a, l')
    ensures Good(m, a, m, l')
  {
  }

  lemma EReadKeeps(m: Mem, a: Aid, l: Local, m': Mem, l': Local)
    requires MemOk(m) && EOk(m, a, l) && (ELocal(m, l, m', l') || ERetry(m, l, m', l'))
    ensures Good(m, a, m', l')
  {
    assert LinkOk(m, m.tail.stamp);
    if ELocal(m, l, m', l') { SelfELocal(m, a, l, m', l'); } else { SelfERetry(m, a, l, m', l'); }
    Still(m, a, l');
  }

  lemma DReadKeeps(m: Mem, a: Aid, l: Local, m': Mem, l': Local)
    requires MemOk(m) && DOk(m, a, l) && (DLocal(m, l, m', l') || DRetry(m, l, m', l') || DLost(m, l, m', l'))
    ensures Good(m, a, m', l')
  {
    assert LinkOk(m, m.head.stamp);
    if DLocal(m, l, m', l') { SelfDLocal(m, a, l, m', l'); } else { SelfDRetry(m, a, l, m', l'); }
    Still(m, a, l');
  }

  lemma PrepareKeeps(m: Mem, a: Aid, l: Local, m': Mem, l': Local)
    requires MemOk(m) && EOk(m, a, l) && EPrepare(m, l, m', l')
    ensures Good(m, a, m', l')
  {
    PrepareMem(m, a, l, m', l'); PrepareFrame(m, a, l, m', l'); PrepareQueues(m, a, l, m', l');
    SelfEPrepare(m, a, l, m', l');
  }

  lemma ConsumeKeeps(m: Mem, a: Aid, l: Local, m': Mem, l': Local)
    requires MemOk(m) && EOk(m, a, l) && EConsumed(m, l, m', l')
    ensures Good(m, a, m', l')
  {
    ConsumeMem(m, a, l, m', l'); ConsumeFrame(m, a, l, m', l'); ConsumeQueues(m, a, l, m', l');
    SelfEWrite(m, a, l, m', l');
  }

  lemma AppendKeeps(m: Mem, a: Aid, l: Local, m': Mem, l': Local)
    requires MemOk(m) && EOk(m, a, l) && EAppended(m, l, m', l')
    ensures Good(m, a, m', l')
  {
    AppendMem(m, a, l, m', l'); AppendFrame(m, a, l, m', l'); AppendQueues(m, a, l, m', l');
    SelfEWrite(m, a, l, m', l');
  }

  lemma DequeueKeeps(m: Mem, a: Aid, l: Local, m': Mem, l': Local)
    requires MemOk(m) && DOk(m, a, l)
    requires DStored(m, l, m', l') || DTaken(m, a, l, m', l') || DFinish(m, l, m', l')
    ensures Good(m, a, m', l')
  {
    if DStored(m, l, m', l') { StoreMem(m, a, l, m', l'); StoreFrame(m, a, l, m', l'); }
    else if DTaken(m, a, l, m', l') { TakeMem(m, a, l, m', l'); TakeFrame(m, a, l, m', l'); }
    else { FinishMem(m, a, l, m', l'); FinishFrame(m, a, l, m', l'); FinishQueues(m, a, l, m', l'); }
    SelfDWrite(m, a, l, m', l');
  }

  lemma BeginKeeps(m: Mem, a: Aid, l: Local, m': Mem, l': Local)
    requires MemOk(m) && Begin(m, a, l, m', l')
    ensures Good(m, a, m', l')
  {
    BeginMem(m, a, l, m', l');
    BeginFrame(m, a, l, m', l');
    if l'.EStamp? { assert ThreadOk(m, l'.t); }
  }

  lemma SwingKeeps(m: Mem, a: Aid, nv: NodeId, m': Mem)
    requires MemOk(m) && (m' == m || (Follows(m, m.tail.stamp, nv) && m' == m.(tail := Ref(m.tail.stamp + 1, nv))))
    ensures MemOk(m') && Forward(m, m') && Spares(m, a, m') && SparesQueues(m, m')
  {
    if m' != m {
      SwingMem(m, nv, m');
      SwingFrame(m, a, nv, m');
    }
  }

  lemma ESwingKeeps(m: Mem, a: Aid, l: Local, m': Mem, l': Local)
    requires MemOk(m) && EOk(m, a, l) && (EHelpStep(m, l, m', l') || ESwung(m, l, m', l'))
    ensures Good(m, a, m', l')
  {
    SwingKeeps(m, a, if l.EHelp? then l.nv else l.x, m');
    SelfEWrite(m, a, l, m', l');
  }

  lemma DSwingKeeps(m: Mem, a: Aid, l: Local, m': Mem, l': Local)
    requires MemOk(m) && DOk(m, a, l) && DHelped(m, l, m', l')
    ensures Good(m, a, m', l')
  {
    SwingKeeps(m, a, l.nv, m');
    SelfDWrite(m, a, l, m', l');
  }

  lemma ELinkKeeps(m: Mem, a: Aid, l: Local, m': Mem, l': Local)
    requires MemOk(m) && EOk(m, a, l) && Acts(m, a, l, m', l') && (l.EConsume? || l.EAppend?)
    ensures Good(m, a, m', l')
  {
    if EConsumed(m, l, m', l') { ConsumeKeeps(m, a, l, m', l'); }
    else if EAppended(m, l, m', l') { AppendKeeps(m, a, l, m', l'); }
    else { EReadKeeps(m, a, l, m', l'); }
  }

  lemma EActsKeep(m: Mem, a: Aid, l: Local, m': Mem, l': Local)
    requires MemOk(m) && EOk(m, a, l) && Acts(m, a, l, m', l') && (Enqueues(l) || l.ESwing?)
    ensures Good(m, a, m', l')
  {
    if l.EStamp? || l.EStore? { PrepareKeeps(m, a, l, m', l'); }
    else if l.EHelp? || l.ESwing? { ESwingKeeps(m, a, l, m', l'); }
    else if l.EConsume? || l.EAppend? { ELinkKeeps(m, a, l, m', l'); }
    else { EReadKeeps(m, a, l, m', l'); }
  }

  lemma DActsKeep(m: Mem, a: Aid, l: Local, m': Mem, l': Local)
    requires MemOk(m) && DOk(m, a, l) && Acts(m, a, l, m', l') && !Enqueues(l) && !l.ESwing?
    ensures Good(m, a, m', l')
  {
    if l.AIdle? { BeginKeeps(m, a, l, m', l'); }
    else if l.DHelp? { DSwingKeeps(m, a, l, m', l'); }
    else if DStored(m, l, m', l') || DTaken(m, a, l, m', l') || DFinish(m, l, m', l') { DequeueKeeps(m, a, l, m', l'); }
    else { DReadKeeps(m, a, l, m', l'); }
  }

  lemma ActsKeep(m: Mem, a: Aid, l: Local, m': Mem, l': Local)
    requires MemOk(m) && EOk(m, a, l) && DOk(m, a, l) && Acts(m, a, l, m', l')
    ensures Good(m, a, m', l')
  {
    if Enqueues(l) || l.ESwing? { EActsKeep(m, a, l, m', l'); } else { DActsKeep(m, a, l, m', l'); }
  }

  // ----- refinement of the signed queue -----

  /** The queue as its users see it. */
  ghost function Abs(m: Mem): SQ.Signed
    requires MemOk(m)
  {
    SQ.Signed(m.objs[m.head.stamp + 1..], Tokens(m))
  }

  /** What a step does to the queue: the four exchanges that take effect. */
  ghost function EventOf(m: Mem, l: Local, m': Mem): SQ.Event {
    if l.EAppend? && m'.nenq > m.nenq then SQ.Slept(l.t, true)
    else if l.EConsume? && m'.nenq > m.nenq then SQ.Slept(l.t, false)
    else if l.DToken? && m'.ndeq > m.ndeq then SQ.Woke(None)
    else if l.DSwing? && m'.ndeq > m.ndeq then SQ.Woke(Some(l.obj))
    else SQ.Silent
  }

  /** The step is what its event says, with the outcome it has on the signed queue. */
  ghost predicate Refines(m: Mem, l: Local, m': Mem)
    requires MemOk(m) && MemOk(m')
  {
    var e := EventOf(m, l, m');
    SQ.Fits(Abs(m), e) && Abs(m') == SQ.After(Abs(m), e)
  }

  lemma AppendRefines(m: Mem, a: Aid, l: Local, m': Mem, l': Local)
    requires MemOk(m) && EOk(m, a, l) && EAppended(m, l, m', l') && MemOk(m')
    ensures Refines(m, l, m')
  {
    assert ThreadOk(m, l.t) && LinkOk(m, |m.hist| - 1);
    assert m'.objs[m'.head.stamp + 1..] == m.objs[m.head.stamp + 1..] + [l.t];
  }

  lemma ConsumeRefines(m: Mem, a: Aid, l: Local, m': Mem, l': Local)
    requires MemOk(m) && EOk(m, a, l) && EConsumed(m, l, m', l') && MemOk(m')
    ensures Refines(m, l, m')
  {
  }

  lemma StoreRefines(m: Mem, a: Aid, l: Local, m': Mem, l': Local)
    requires MemOk(m) && DOk(m, a, l) && DStored(m, l, m', l') && MemOk(m')
    ensures Refines(m, l, m')
  {
  }

  lemma TakeRefines(m: Mem, a: Aid, l: Local, m': Mem, l': Local)
    requires MemOk(m) && DOk(m, a, l) && DTaken(m, a, l, m', l') && MemOk(m')
    ensures Refines(m, l, m')
  {
  }

  /** Writes to tail, to the status of a thread or to other nodes leave the queue alone. */
  lemma SilentRefines(m: Mem, l: Local, m': Mem)
    requires MemOk(m) && MemOk(m') && m'.head == m.head && m'.hist == m.hist && m'.objs == m.objs
    requires m'.nenq == m.nenq && m'.ndeq == m.ndeq && Tokens(m') == Tokens(m)
    ensures Refines(m, l, m')
  {
  }

  lemma PrepareRefines(m: Mem, a: Aid, l: Local, m': Mem, l': Local)
    requires MemOk(m) && EOk(m, a, l) && EPrepare(m, l, m', l') && MemOk(m')
    ensures Refines(m, l, m')
  {
    assert m.block[l.t] != m.hist[|m.hist| - 1] by { assert ThreadOk(m, l.t) && LinkOk(m, |m.hist| - 1); }
    SilentRefines(m, l, m');
  }

  lemma FinishRefines(m: Mem, a: Aid, l: Local, m': Mem, l': Local)
    requires MemOk(m) && DOk(m, a, l) && DFinish(m, l, m', l') && MemOk(m')
    ensures Refines(m, l, m')
  {
    assert LinkOk(m, |m.hist| - 1);
    SilentRefines(m, l, m');
  }

  lemma ELinkRefines(m: Mem, a: Aid, l: Local, m': Mem, l': Local)
    requires MemOk(m) && EOk(m, a, l) && Acts(m, a, l, m', l') && MemOk(m') && (l.EConsume? || l.EAppend?)
    ensures Refines(m, l, m')
  {
    if EConsumed(m, l, m', l') { ConsumeRefines(m, a, l, m', l'); }
    else if EAppended(m, l, m', l') { AppendRefines(m, a, l, m', l'); }
    else { SilentRefines(m, l, m'); }
  }

  lemma EQuietRefines(m: Mem, a: Aid, l: Local, m': Mem, l': Local)
    requires MemOk(m) && Acts(m, a, l, m', l') && MemOk(m') && (Enqueues(l) || l.ESwing?)
    requires !l.EConsume? && !l.EAppend? && !l.EStamp? && !l.EStore?
    ensures Refines(m, l, m')
  {
    assert m' == m.(tail := m'.tail);
    SilentRefines(m, l, m');
  }

  lemma ERefines(m: Mem, a: Aid, l: Local, m': Mem, l': Local)
    requires MemOk(m) && EOk(m, a, l) && Acts(m, a, l, m', l') && MemOk(m') && (Enqueues(l) || l.ESwing?)
    ensures Refines(m, l, m')
  {
    if l.EConsume? || l.EAppend? { ELinkRefines(m, a, l, m', l'); }
    else if l.EStamp? || l.EStore? { PrepareRefines(m, a, l, m', l'); }
    else { EQuietRefines(m, a, l, m', l'); }
  }

  lemma DRefines(m: Mem, a: Aid, l: Local, m': Mem, l': Local)
    requires MemOk(m) && DOk(m, a, l) && Acts(m, a, l, m', l') && MemOk(m') && !Enqueues(l) && !l.ESwing?
    ensures Refines(m, l, m')
  {
    if m' == m { SilentRefines(m, l, m'); }
    else if l.DToken? { StoreRefines(m, a, l, m', l'); }
    else if l.DSwing? { TakeRefines(m, a, l, m', l'); }
    else if l.DFix? || l.DWake? { FinishRefines(m, a, l, m', l'); }
    else { SilentRefines(m, l, m'); }
  }

  /** Every step is one operation on the signed queue, with the outcome it has there, or none. */
  lemma ActRefines(m: Mem, a: Aid, l: Local, m': Mem, l': Local)
    requires MemOk(m) && EOk(m, a, l) && DOk(m, a, l) && Acts(m, a, l, m', l') && MemOk(m')
    ensures Refines(m, l, m')
  {
    if Enqueues(l) || l.ESwing? { ERefines(m, a, l, m', l'); } else { DRefines(m, a, l, m', l'); }
  }
}
