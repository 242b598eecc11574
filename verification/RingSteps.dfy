/** The SCQ ring of include/bmk-core/lfring.h as a step system: any number of threads, one
    shared access (and the thread-local computation that follows it) per step, sequential
    consistency, unbounded tickets. */
module RingSteps {
  import opened Common

  type Tid = nat

  /** The geometry of a ring: how many slots it has, which slot a ticket maps to and which
      cycle number it carries.  The steps below use nothing else about tickets. */
  datatype Geo = Geo(n: nat, slot: nat -> nat, cycle: nat -> nat)

  ghost predicate Same(g: Geo, T: nat, U: nat) { g.slot(T) == g.slot(U) }

  /** Two tickets that share a slot are ordered as their cycles are. */
  ghost predicate GeoOk(g: Geo) {
    && g.n >= 2
    && (forall T: nat :: g.slot(T) < g.n)
    && (forall T: nat, U: nat {:trigger Same(g, T, U)} :: Same(g, T, U) ==> (T < U <==> g.cycle(T) < g.cycle(U)))
  }

  /** One array word, unpacked: cycle number, safe bit, index (n - 1 is the empty pattern). */
  datatype Entry = Entry(cycle: int, safe: bool, idx: nat)

  /** What a call has answered: an enqueue true, a dequeue LFRING_EMPTY or an index. */
  datatype Reply = Never | Stored | Empty | Got(v: nat)

  datatype Local =
    | Idle(last: Reply)                                  // between calls
    // lfring_enqueue
    | EnqDraw(eidx: nat, ne: bool)                       // about to fetch_add tail
    | EnqLoad(eidx: nat, ne: bool, T: nat)               // about to load the slot of ticket T
    | EnqHead(eidx: nat, ne: bool, T: nat, e: Entry)     // unsafe slot: about to load head
    | EnqCas(eidx: nat, ne: bool, T: nat, e: Entry)      // about to compare-and-swap the slot
    | EnqThrLoad                                         // about to load threshold
    | EnqThrStore                                        // about to store threshold
    // lfring_dequeue
    | DeqThrLoad                                         // about to load threshold
    | DeqDraw(ne: bool)                                  // about to fetch_add head
    | DeqLoad(ne: bool, H: nat)                          // about to load the slot of ticket H
    | DeqTake(ne: bool, H: nat, i: nat)                  // about to fetch_or the empty pattern
    | DeqCas(ne: bool, H: nat, e: Entry, enew: Entry)    // about to compare-and-swap the slot
    | DeqTail(H: nat)                                    // about to load tail
    | CatchCas(t: nat, h: nat)                           // __lfring_catchup: about to swap tail
    | CatchHead                                          // about to reload head
    | CatchTail(h: nat)                                  // about to reload tail
    | DeqSubEmpty                                        // fetch_sub threshold, answer EMPTY
    | DeqSubTest                                         // fetch_sub threshold, then test it

  /** The shared words, and the history of what happened to them: `enq` and `deq` record what
      was stored and returned under each ticket, `lost` the head tickets given up, `drawer`
      which thread drew a head ticket, `tick` the ticket a slot is stamped with (-1: none). */
  datatype Mem = Mem(
    head: nat, tail: nat, threshold: int, slots: seq<Entry>,
    enq: map<nat, nat>, deq: map<nat, nat>, lost: set<nat>, drawer: map<nat, Tid>, tick: seq<int>)

  datatype State = State(m: Mem, loc: map<Tid, Local>)

  // ----- thread-local computation -----

  /** Lines 150-154: what an enqueuer does after it has read `e` from the slot of ticket T. */
  function EnqDecide(g: Geo, eidx: nat, ne: bool, T: nat, e: Entry): Local {
    if e.cycle < g.cycle(T) && e.idx == g.n - 1 then
      if e.safe then EnqCas(eidx, ne, T, e) else EnqHead(eidx, ne, T, e)
    else EnqDraw(eidx, ne)
  }

  /** Where a dequeuer goes once it has given its ticket up. */
  function AfterLoss(ne: bool, H: nat): Local { if ne then DeqDraw(true) else DeqTail(H) }

  /** Lines 200-214: what a dequeuer does after it has read `e` from the slot of ticket H;
      None means that the ticket is given up. */
  function DeqDecide(g: Geo, ne: bool, H: nat, e: Entry): Option<Local>
    requires g.n >= 1
  {
    if e.cycle == g.cycle(H) then Some(DeqTake(ne, H, e.idx))
    else if e.idx != g.n - 1 then
      if !e.safe || e.cycle > g.cycle(H) then None
      else Some(DeqCas(ne, H, e, e.(safe := false)))
    else if e.cycle < g.cycle(H) then Some(DeqCas(ne, H, e, Entry(g.cycle(H), e.safe, g.n - 1)))
    else None
  }

  // ----- steps: thread t, at l, turns m into m' and moves to l' -----

  ghost predicate Sized(g: Geo, m: Mem) { GeoOk(g) && |m.slots| == g.n == |m.tick| }

  /** A call starts.  The only demand on an index is that it is not the empty pattern. */
  ghost predicate Start(g: Geo, m: Mem, l: Local, m': Mem, l': Local) {
    && l.Idle? && m' == m
    && ((l'.EnqDraw? && l'.eidx < g.n - 1) || l'.DeqThrLoad? || l' == DeqDraw(true))
  }

  ghost predicate EnqDrawStep(g: Geo, m: Mem, l: Local, m': Mem, l': Local) {
    l.EnqDraw? && m' == m.(tail := m.tail + 1) && l' == EnqLoad(l.eidx, l.ne, m.tail)
  }

  ghost predicate EnqReads(g: Geo, m: Mem, l: Local, m': Mem, l': Local)
    requires Sized(g, m) && (l.EnqLoad? || l.EnqCas?)
  {
    m' == m && l' == EnqDecide(g, l.eidx, l.ne, l.T, m.slots[g.slot(l.T)])
  }

  ghost predicate EnqHeadStep(g: Geo, m: Mem, l: Local, m': Mem, l': Local) {
    && l.EnqHead? && m' == m
    && l' == if m.head <= l.T then EnqCas(l.eidx, l.ne, l.T, l.e) else EnqDraw(l.eidx, l.ne)
  }

  /** Lines 156-163.  The exchange is weak: it may fail although the slot matches, and a
      failed one is EnqReads. */
  ghost predicate EnqCasSucceeds(g: Geo, m: Mem, l: Local, m': Mem, l': Local)
    requires Sized(g, m)
  {
    && l.EnqCas?
    && var j := g.slot(l.T);
       && m.slots[j] == l.e
       && m' == m.(slots := m.slots[j := Entry(g.cycle(l.T), true, l.eidx)],
                   enq := m.enq[l.T := l.eidx], tick := m.tick[j := l.T])
       && l' == if l.ne then Idle(Stored) else EnqThrLoad
  }

  ghost predicate ThresholdStep(g: Geo, m: Mem, l: Local, m': Mem, l': Local) {
    && g.n >= 2
    && var full := g.n / 2 + g.n - 1;
       match l
       case EnqThrLoad => m' == m && l' == if m.threshold != full then EnqThrStore else Idle(Stored)
       case EnqThrStore => m' == m.(threshold := full) && l' == Idle(Stored)
       case DeqThrLoad => m' == m && l' == if m.threshold < 0 then Idle(Empty) else DeqDraw(false)
       case DeqSubEmpty => m' == m.(threshold := m.threshold - 1) && l' == Idle(Empty)
       case DeqSubTest =>
         && m' == m.(threshold := m.threshold - 1)
         && l' == if m.threshold <= 0 then Idle(Empty) else DeqDraw(false)
       case _ => false
  }

  ghost predicate DeqDrawStep(g: Geo, m: Mem, t: Tid, l: Local, m': Mem, l': Local) {
    && l.DeqDraw? && l' == DeqLoad(l.ne, m.head)
    && m' == m.(head := m.head + 1, drawer := m.drawer[m.head := t])
  }

  /** The dequeuer, holding ticket H, goes on with the slot value it has just read. */
  ghost predicate DeqReads(g: Geo, m: Mem, l: Local, m': Mem, l': Local)
    requires Sized(g, m)
  {
    && (l.DeqLoad? || l.DeqCas?) && m' == m
    && DeqDecide(g, l.ne, l.H, m.slots[g.slot(l.H)]) == Some(l')
  }

  /** ... or gives the ticket up because of it. */
  ghost predicate DeqGivesUp(g: Geo, m: Mem, l: Local, m': Mem, l': Local)
    requires Sized(g, m)
  {
    && (l.DeqLoad? || l.DeqCas?)
    && DeqDecide(g, l.ne, l.H, m.slots[g.slot(l.H)]) == None
    && m' == m.(lost := m.lost + {l.H}) && l' == AfterLoss(l.ne, l.H)
  }

  ghost predicate DeqTakeStep(g: Geo, m: Mem, l: Local, m': Mem, l': Local)
    requires Sized(g, m)
  {
    && l.DeqTake? && l' == Idle(Got(l.i))
    && var j := g.slot(l.H);
       m' == m.(slots := m.slots[j := m.slots[j].(idx := g.n - 1)], deq := m.deq[l.H := l.i])
  }

  /** Lines 215-217, again a weak exchange (a failed one is DeqReads or DeqGivesUp).
      Advancing an empty slot stamps it with H. */
  ghost predicate DeqCasSucceeds(g: Geo, m: Mem, l: Local, m': Mem, l': Local)
    requires Sized(g, m)
  {
    && l.DeqCas? && l' == AfterLoss(l.ne, l.H)
    && var j := g.slot(l.H);
       && m.slots[j] == l.e
       && m' == m.(slots := m.slots[j := l.enew], lost := m.lost + {l.H},
                   tick := if l.e.idx == g.n - 1 then m.tick[j := l.H] else m.tick)
  }

  ghost predicate CatchupStep(g: Geo, m: Mem, l: Local, m': Mem, l': Local) {
    match l
    case DeqTail(H) => m' == m && l' == if m.tail <= H + 1 then CatchCas(m.tail, H + 1) else DeqSubTest
    case CatchCas(tl, h) =>
      || (m.tail == tl && m' == m.(tail := h) && l' == DeqSubEmpty)
      || (m' == m && l' == CatchHead)
    case CatchHead => m' == m && l' == CatchTail(m.head)
    case CatchTail(h) => m' == m && l' == if m.tail >= h then DeqSubEmpty else CatchCas(m.tail, h)
    case _ => false
  }

  ghost predicate Acts(g: Geo, m: Mem, t: Tid, l: Local, m': Mem, l': Local)
    requires Sized(g, m)
  {
    match l
    case Idle(_) => Start(g, m, l, m', l')
    case EnqDraw(_, _) => EnqDrawStep(g, m, l, m', l')
    case EnqLoad(_, _, _) => EnqReads(g, m, l, m', l')
    case EnqHead(_, _, _, _) => EnqHeadStep(g, m, l, m', l')
    case EnqCas(_, _, _, _) => EnqReads(g, m, l, m', l') || EnqCasSucceeds(g, m, l, m', l')
    case DeqDraw(_) => DeqDrawStep(g, m, t, l, m', l')
    case DeqLoad(_, _) => DeqReads(g, m, l, m', l') || DeqGivesUp(g, m, l, m', l')
    case DeqTake(_, _, _) => DeqTakeStep(g, m, l, m', l')
    case DeqCas(_, _, _, _) =>
      DeqReads(g, m, l, m', l') || DeqGivesUp(g, m, l, m', l') || DeqCasSucceeds(g, m, l, m', l')
    case DeqTail(_) => CatchupStep(g, m, l, m', l')
    case CatchCas(_, _) => CatchupStep(g, m, l, m', l')
    case CatchHead => CatchupStep(g, m, l, m', l')
    case CatchTail(_) => CatchupStep(g, m, l, m', l')
    case _ => ThresholdStep(g, m, l, m', l')
  }

  ghost predicate Next(g: Geo, s: State, s': State, t: Tid) {
    && Sized(g, s.m) && t in s.loc && t in s'.loc
    && s'.loc == s.loc[t := s'.loc[t]]
    && Acts(g, s.m, t, s.loc[t], s'.m, s'.loc[t])
  }

  // ----- invariant -----

  predicate HoldsTail(l: Local) { l.EnqLoad? || l.EnqHead? || l.EnqCas? }
  predicate HoldsHead(l: Local) { l.DeqLoad? || l.DeqTake? || l.DeqCas? }

  /** `b` may be the value of a slot that once held `a`: cycles grow, and within a cycle the
      index is only emptied and the safe bit only cleared. */
  predicate Older(n: nat, a: Entry, b: Entry) {
    || a.cycle < b.cycle
    || (a.cycle == b.cycle && (b.idx == a.idx || b.idx == n - 1) && (b.safe ==> a.safe))
  }

  /** What slot j holds, word w stamped k, is what was stored under ticket k. */
  ghost predicate SlotOk(g: Geo, m: Mem, j: nat, w: Entry, k: int) {
    && w.idx < g.n
    && (if k < 0 then w.cycle == -1 && w.idx == g.n - 1
        else
          && g.slot(k) == j && w.cycle == g.cycle(k)
          && (if w.idx == g.n - 1 then k in m.deq || k in m.lost
              else k in m.enq && k !in m.deq && m.enq[k] == w.idx))
  }

  /** What ticket T stored is in its slot until it is returned, and is returned unchanged. */
  ghost predicate StoreOk(g: Geo, m: Mem, T: nat)
    requires Sized(g, m) && T in m.enq
  {
    && T < m.tail && T !in m.lost && m.enq[T] < g.n - 1
    && (if T in m.deq then m.deq[T] == m.enq[T]
        else m.tick[g.slot(T)] == T && m.slots[g.slot(T)].idx == m.enq[T])
  }

  ghost predicate MemOk(g: Geo, m: Mem) {
    && Sized(g, m)
    && (forall j: nat :: j < g.n ==> SlotOk(g, m, j, m.slots[j], m.tick[j]))
    && (forall T :: T in m.enq ==> StoreOk(g, m, T))
    && (forall T :: T in m.deq ==> T in m.enq && T < m.head && T !in m.lost)
    && (forall T :: T in m.lost ==> T < m.head)
  }

  /** What thread t knows: its tickets are its own, what it remembers of a slot is at worst
      out of date, and a catch-up target was reached by head. */
  ghost predicate ThreadOk(g: Geo, m: Mem, t: Tid, l: Local)
    requires Sized(g, m)
  {
    && ((l.EnqDraw? || HoldsTail(l)) ==> l.eidx < g.n - 1)
    && (HoldsTail(l) ==> l.T < m.tail && l.T !in m.enq)
    && (HoldsHead(l) ==>
          && l.H < m.head && l.H !in m.deq && l.H !in m.lost
          && l.H in m.drawer && m.drawer[l.H] == t)
    && match l
       case EnqHead(_, _, T, e) =>
         e.idx == g.n - 1 && e.cycle < g.cycle(T) && !e.safe && Older(g.n, e, m.slots[g.slot(T)])
       case EnqCas(_, _, T, e) =>
         e.idx == g.n - 1 && e.cycle < g.cycle(T) && Older(g.n, e, m.slots[g.slot(T)])
       case DeqTake(_, H, i) => H in m.enq && m.enq[H] == i
       case DeqCas(_, H, e, enew) =>
         && e.cycle < g.cycle(H) && Older(g.n, e, m.slots[g.slot(H)])
         && (if e.idx == g.n - 1 then enew == Entry(g.cycle(H), e.safe, g.n - 1)
             else e.safe && enew == e.(safe := false))
       case CatchCas(tl, h) => tl <= h <= m.head
       case CatchTail(h) => h <= m.head
       case DeqTail(H) => H < m.head
       case _ => true
  }

  ghost predicate Threads(g: Geo, m: Mem, loc: map<Tid, Local>)
    requires Sized(g, m)
  {
    forall t :: t in loc ==> ThreadOk(g, m, t, loc[t])
  }

  /** A tail ticket is held by one thread at most. */
  ghost predicate Exclusive(loc: map<Tid, Local>) {
    forall t, u | t in loc && u in loc && t != u && HoldsTail(loc[t]) && HoldsTail(loc[u]) ::
      loc[t].T != loc[u].T
  }

  /** A head ticket that was drawn is returned, given up, or in the hands of its drawer. */
  ghost predicate Accounted(m: Mem, loc: map<Tid, Local>) {
    forall T: nat :: T < m.head && T !in m.deq && T !in m.lost ==>
      T in m.drawer && m.drawer[T] in loc && HoldsHead(loc[m.drawer[T]]) && loc[m.drawer[T]].H == T
  }

  /** A thread at l is one exchange away from storing, in the slot of T, under a ticket up to T. */
  ghost predicate Armed(g: Geo, w: Entry, l: Local, T: nat) {
    l.EnqCas? && l.T <= T && Same(g, l.T, T) && l.e == w
  }

  /** The slot of T will not take a store under T (or an older ticket) any more. */
  ghost predicate Shut(g: Geo, m: Mem, loc: map<Tid, Local>, T: nat)
    requires Sized(g, m)
  {
    var w := m.slots[g.slot(T)];
    w.cycle >= g.cycle(T) || (!w.safe && forall t :: t in loc ==> !Armed(g, w, loc[t], T))
  }

  ghost predicate Closed(g: Geo, m: Mem, loc: map<Tid, Local>)
    requires Sized(g, m)
  {
    forall T :: T in m.lost ==> Shut(g, m, loc, T)
  }

  ghost predicate Inv(g: Geo, s: State) {
    && MemOk(g, s.m)
    && Threads(g, s.m, s.loc) && Exclusive(s.loc) && Accounted(s.m, s.loc) && Closed(g, s.m, s.loc)
  }

  // ----- what a step does to the memory -----

  /** The memory moves forward. */
  ghost predicate Forward(g: Geo, m: Mem, m': Mem)
    requires Sized(g, m)
  {
    && Sized(g, m') && m.head <= m'.head && m.tail <= m'.tail
    && (forall j: nat :: j < g.n ==> Older(g.n, m.slots[j], m'.slots[j]))
    && (forall T :: T in m.enq ==> T in m'.enq && m'.enq[T] == m.enq[T])
    && (forall T :: T in m.deq ==> T in m'.deq && m'.deq[T] == m.deq[T])
    && m.lost <= m'.lost
    && (forall T :: T in m.drawer && T < m.head ==> T in m'.drawer && m'.drawer[T] == m.drawer[T])
  }

  lemma OlderTransitive(n: nat, a: Entry, b: Entry, c: Entry)
    requires Older(n, a, b) && Older(n, b, c)
    ensures Older(n, a, c)
  {
  }

  lemma EnqCasMem(g: Geo, m: Mem, t: Tid, l: Local, m': Mem, l': Local)
    requires MemOk(g, m) && ThreadOk(g, m, t, l) && EnqCasSucceeds(g, m, l, m', l') && l.T !in m.lost
    ensures MemOk(g, m') && Forward(g, m, m')
  {
  }

  lemma DeqTakeMem(g: Geo, m: Mem, t: Tid, l: Local, m': Mem, l': Local)
    requires MemOk(g, m) && ThreadOk(g, m, t, l) && DeqTakeStep(g, m, l, m', l')
    ensures MemOk(g, m') && Forward(g, m, m')
  {
  }

  lemma DeqCasMem(g: Geo, m: Mem, t: Tid, l: Local, m': Mem, l': Local)
    requires MemOk(g, m) && ThreadOk(g, m, t, l) && DeqCasSucceeds(g, m, l, m', l')
    ensures MemOk(g, m') && Forward(g, m, m')
  {
  }

  lemma DeqGivesUpMem(g: Geo, m: Mem, t: Tid, l: Local, m': Mem, l': Local)
    requires MemOk(g, m) && ThreadOk(g, m, t, l) && DeqGivesUp(g, m, l, m', l')
    ensures MemOk(g, m') && Forward(g, m, m')
  {
  }

  /** Most steps leave the slots and the history alone and at most advance a counter. */
  ghost predicate Quiet(m: Mem, m': Mem) {
    && m' == m.(head := m'.head, tail := m'.tail, threshold := m'.threshold, drawer := m'.drawer)
    && m.head <= m'.head && m.tail <= m'.tail
    && (forall T :: T in m.drawer && T < m.head ==> T in m'.drawer && m'.drawer[T] == m.drawer[T])
  }

  lemma QuietSteps(g: Geo, m: Mem, t: Tid, l: Local, m': Mem, l': Local)
    requires Sized(g, m) && ThreadOk(g, m, t, l) && Acts(g, m, t, l, m', l')
    requires !l.EnqCas? && !HoldsHead(l)
    ensures Quiet(m, m')
  {
  }

  lemma QuietMem(g: Geo, m: Mem, m': Mem)
    requires MemOk(g, m) && Quiet(m, m')
    ensures MemOk(g, m') && Forward(g, m, m')
  {
    forall T | T in m'.enq ensures StoreOk(g, m', T) { assert StoreOk(g, m, T); }
  }

  // ----- threads -----

  lemma OtherThread(g: Geo, m: Mem, m': Mem, u: Tid, l: Local)
    requires Sized(g, m) && Forward(g, m, m') && ThreadOk(g, m, u, l)
    requires HoldsTail(l) ==> l.T !in m'.enq
    requires HoldsHead(l) ==> l.H !in m'.deq && l.H !in m'.lost
    ensures ThreadOk(g, m', u, l)
  {
  }

  /** A dequeuer that meets its own cycle has met what was stored under its ticket. */
  lemma Found(g: Geo, m: Mem, H: nat)
    requires MemOk(g, m) && H !in m.deq && H !in m.lost && m.slots[g.slot(H)].cycle == g.cycle(H)
    ensures H in m.enq && m.enq[H] == m.slots[g.slot(H)].idx
  {
    var j := g.slot(H);
    assert SlotOk(g, m, j, m.slots[j], m.tick[j]);
    assert Same(g, m.tick[j], H) && Same(g, H, m.tick[j]);
  }

  lemma EnqReadsSelf(g: Geo, m: Mem, t: Tid, l: Local, m': Mem, l': Local)
    requires Sized(g, m) && ThreadOk(g, m, t, l) && (l.EnqLoad? || l.EnqCas?) && EnqReads(g, m, l, m', l')
    ensures ThreadOk(g, m', t, l')
  {
  }

  lemma EnqSelf(g: Geo, m: Mem, t: Tid, l: Local, m': Mem, l': Local)
    requires Sized(g, m) && ThreadOk(g, m, t, l) && m.tail !in m.enq
    requires EnqDrawStep(g, m, l, m', l') || EnqHeadStep(g, m, l, m', l') || EnqCasSucceeds(g, m, l, m', l')
    ensures ThreadOk(g, m', t, l')
  {
  }

  lemma DeqReadsSelf(g: Geo, m: Mem, t: Tid, l: Local, m': Mem, l': Local)
    requires MemOk(g, m) && ThreadOk(g, m, t, l) && DeqReads(g, m, l, m', l')
    ensures ThreadOk(g, m', t, l')
  {
    if m.slots[g.slot(l.H)].cycle == g.cycle(l.H) { Found(g, m, l.H); }
  }

  lemma RestSelf(g: Geo, m: Mem, t: Tid, l: Local, m': Mem, l': Local)
    requires Sized(g, m) && ThreadOk(g, m, t, l) && Acts(g, m, t, l, m', l')
    requires m.head !in m.deq && m.head !in m.lost
    requires !(l.EnqDraw? || HoldsTail(l) || HoldsHead(l))
    ensures ThreadOk(g, m', t, l')
  {
  }

  /** What a step may change under the other threads' feet: nothing they hold. */
  ghost predicate Spares(m: Mem, l: Local, m': Mem) {
    && (forall T :: T in m'.enq && T !in m.enq ==> HoldsTail(l) && T == l.T)
    && (forall T :: (T in m'.deq && T !in m.deq) || (T in m'.lost && T !in m.lost) ==> HoldsHead(l) && T == l.H)
  }

  lemma OthersKept(g: Geo, s: State, s': State, t: Tid)
    requires Inv(g, s) && Next(g, s, s', t) && Forward(g, s.m, s'.m) && Spares(s.m, s.loc[t], s'.m)
    ensures forall u :: u in s'.loc && u != t ==> ThreadOk(g, s'.m, u, s'.loc[u])
  {
    forall u | u in s'.loc && u != t ensures ThreadOk(g, s'.m, u, s'.loc[u]) {
      assert ThreadOk(g, s.m, u, s.loc[u]) && ThreadOk(g, s.m, t, s.loc[t]);
      OtherThread(g, s.m, s'.m, u, s.loc[u]);
    }
  }

  lemma TailTicketKept(g: Geo, m: Mem, t: Tid, l: Local, m': Mem, l': Local)
    requires Sized(g, m) && Acts(g, m, t, l, m', l') && HoldsTail(l')
    ensures (HoldsTail(l) && l'.T == l.T) || l'.T == m.tail
  {
  }

  lemma ExclusiveKept(g: Geo, s: State, s': State, t: Tid)
    requires Inv(g, s) && Next(g, s, s', t)
    ensures Exclusive(s'.loc)
  {
    if HoldsTail(s'.loc[t]) { TailTicketKept(g, s.m, t, s.loc[t], s'.m, s'.loc[t]); }
    forall u, v | u in s'.loc && v in s'.loc && u != v && HoldsTail(s'.loc[u]) && HoldsTail(s'.loc[v])
      ensures s'.loc[u].T != s'.loc[v].T
    {
      assert ThreadOk(g, s.m, u, s.loc[u]) && ThreadOk(g, s.m, v, s.loc[v]);
    }
  }

  /** A head ticket leaves its holder only to be returned or given up. */
  ghost predicate HeadTicketKept(m: Mem, t: Tid, l: Local, m': Mem, l': Local) {
    && (HoldsHead(l) ==> (HoldsHead(l') && l'.H == l.H) || l.H in m'.deq || l.H in m'.lost)
    && (|| m'.head == m.head
        || (&& m'.head == m.head + 1 && !HoldsHead(l) && HoldsHead(l') && l'.H == m.head
            && m.head in m'.drawer && m'.drawer[m.head] == t))
  }

  lemma AccountedKept(g: Geo, s: State, s': State, t: Tid)
    requires Inv(g, s) && Next(g, s, s', t) && Forward(g, s.m, s'.m)
    requires HeadTicketKept(s.m, t, s.loc[t], s'.m, s'.loc[t])
    ensures Accounted(s'.m, s'.loc)
  {
  }

  // ----- a ticket given up stays closed -----

  lemma ArmedFacts(g: Geo, s: State, u: Tid, T: nat, w: Entry)
    requires Inv(g, s) && u in s.loc && Armed(g, w, s.loc[u], T)
    ensures w.idx == g.n - 1 && Older(g.n, w, s.m.slots[g.slot(T)])
  {
    assert ThreadOk(g, s.m, u, s.loc[u]);
  }

  lemma QuietShut(g: Geo, s: State, s': State, t: Tid, T: nat)
    requires Inv(g, s) && Next(g, s, s', t) && Sized(g, s'.m) && s'.m.slots == s.m.slots && T in s.m.lost
    ensures Shut(g, s'.m, s'.loc, T)
  {
    assert Shut(g, s.m, s.loc, T);
    var w := s.m.slots[g.slot(T)];
    if w.cycle < g.cycle(T) {
      forall u | u in s'.loc ensures !Armed(g, w, s'.loc[u], T) {
        if u != t { assert !Armed(g, w, s.loc[u], T); }
        else { QuietUnarmed(g, s.m, t, s.loc[t], s'.m, s'.loc[t], w, T); }
      }
    }
  }

  lemma QuietUnarmed(g: Geo, m: Mem, t: Tid, l: Local, m': Mem, l': Local, w: Entry, T: nat)
    requires Sized(g, m) && Acts(g, m, t, l, m', l') && T < m.head && w == m.slots[g.slot(T)] && !w.safe
    ensures !Armed(g, w, l', T)
  {
    assert l'.EnqCas? ==> Same(g, l'.T, T) || !Same(g, l'.T, T);
  }

  lemma EnqCasShut(g: Geo, s: State, s': State, t: Tid, T: nat)
    requires Inv(g, s) && Next(g, s, s', t) && Sized(g, s'.m)
    requires EnqCasSucceeds(g, s.m, s.loc[t], s'.m, s'.loc[t]) && T in s.m.lost
    ensures Shut(g, s'.m, s'.loc, T) && s.loc[t].T != T
  {
    var l := s.loc[t];
    assert Shut(g, s.m, s.loc, T) && ThreadOk(g, s.m, t, l);
    assert Armed(g, s.m.slots[g.slot(T)], l, T) <==> l.T <= T && Same(g, l.T, T);
    if Same(g, T, l.T) { assert Same(g, l.T, T); }
  }

  lemma DeqTakeShut(g: Geo, s: State, s': State, t: Tid, T: nat)
    requires Inv(g, s) && Next(g, s, s', t) && Sized(g, s'.m)
    requires DeqTakeStep(g, s.m, s.loc[t], s'.m, s'.loc[t]) && T in s.m.lost
    ensures Shut(g, s'.m, s'.loc, T)
  {
    var l := s.loc[t];
    assert Shut(g, s.m, s.loc, T) && ThreadOk(g, s.m, t, l) && StoreOk(g, s.m, l.H);
    var w, w' := s.m.slots[g.slot(T)], s'.m.slots[g.slot(T)];
    if w.cycle < g.cycle(T) {
      forall u | u in s'.loc ensures !Armed(g, w', s'.loc[u], T) {
        if u != t && Armed(g, w', s.loc[u], T) {
          assert !Armed(g, w, s.loc[u], T);
          ArmedFacts(g, s, u, T, w');
        }
      }
    }
  }

  lemma DeqCasShut(g: Geo, s: State, s': State, t: Tid, T: nat)
    requires Inv(g, s) && Next(g, s, s', t) && Sized(g, s'.m)
    requires DeqCasSucceeds(g, s.m, s.loc[t], s'.m, s'.loc[t]) && T in s'.m.lost
    ensures Shut(g, s'.m, s'.loc, T)
  {
    var l := s.loc[t];
    assert ThreadOk(g, s.m, t, l);
    assert T in s.m.lost ==> Shut(g, s.m, s.loc, T);
    var w, w' := s.m.slots[g.slot(T)], s'.m.slots[g.slot(T)];
    if w'.cycle < g.cycle(T) {
      forall u | u in s'.loc ensures !Armed(g, w', s'.loc[u], T) {
        if u != t && Armed(g, w', s.loc[u], T) {
          assert T in s.m.lost ==> !Armed(g, w, s.loc[u], T);
          ArmedFacts(g, s, u, T, w');
        }
      }
    }
  }

  lemma DeqGivesUpShut(g: Geo, s: State, s': State, t: Tid)
    requires Inv(g, s) && Next(g, s, s', t) && Sized(g, s'.m)
    requires DeqGivesUp(g, s.m, s.loc[t], s'.m, s'.loc[t])
    ensures Shut(g, s'.m, s'.loc, s.loc[t].H)
  {
    var l := s.loc[t];
    var w := s.m.slots[g.slot(l.H)];
    if w.cycle < g.cycle(l.H) {
      forall u | u in s'.loc ensures !Armed(g, w, s'.loc[u], l.H) {
        if u != t && Armed(g, w, s.loc[u], l.H) { ArmedFacts(g, s, u, l.H, w); }
      }
    }
  }

  // ----- every step keeps the invariant -----

  lemma WriterKeeps(g: Geo, s: State, s': State, t: Tid)
    requires Inv(g, s) && Next(g, s, s', t) && MemOk(g, s'.m) && Forward(g, s.m, s'.m)
    requires Spares(s.m, s.loc[t], s'.m) && HeadTicketKept(s.m, t, s.loc[t], s'.m, s'.loc[t])
    requires ThreadOk(g, s'.m, t, s'.loc[t]) && Closed(g, s'.m, s'.loc)
    ensures Inv(g, s')
  {
    OthersKept(g, s, s', t);
    ExclusiveKept(g, s, s', t);
    AccountedKept(g, s, s', t);
  }

  lemma QuietKeeps(g: Geo, s: State, s': State, t: Tid)
    requires Inv(g, s) && Next(g, s, s', t) && Quiet(s.m, s'.m)
    requires ThreadOk(g, s'.m, t, s'.loc[t]) && HeadTicketKept(s.m, t, s.loc[t], s'.m, s'.loc[t])
    ensures Inv(g, s') && Forward(g, s.m, s'.m)
  {
    QuietMem(g, s.m, s'.m);
    forall T | T in s'.m.lost ensures Shut(g, s'.m, s'.loc, T) { QuietShut(g, s, s', t, T); }
    WriterKeeps(g, s, s', t);
  }

  lemma QuietHeads(g: Geo, m: Mem, t: Tid, l: Local, m': Mem, l': Local)
    requires Sized(g, m) && Acts(g, m, t, l, m', l') && !HoldsHead(l)
    ensures HeadTicketKept(m, t, l, m', l')
  {
  }

  lemma EnqCasKeeps(g: Geo, s: State, s': State, t: Tid)
    requires Inv(g, s) && Next(g, s, s', t) && EnqCasSucceeds(g, s.m, s.loc[t], s'.m, s'.loc[t])
    ensures Inv(g, s') && Forward(g, s.m, s'.m)
  {
    var l := s.loc[t];
    assert ThreadOk(g, s.m, t, l);
    if l.T in s.m.lost { EnqCasShut(g, s, s', t, l.T); }
    EnqCasMem(g, s.m, t, l, s'.m, s'.loc[t]);
    forall T | T in s'.m.lost ensures Shut(g, s'.m, s'.loc, T) { EnqCasShut(g, s, s', t, T); }
    WriterKeeps(g, s, s', t);
  }

  lemma DeqTakeKeeps(g: Geo, s: State, s': State, t: Tid)
    requires Inv(g, s) && Next(g, s, s', t) && DeqTakeStep(g, s.m, s.loc[t], s'.m, s'.loc[t])
    ensures Inv(g, s') && Forward(g, s.m, s'.m)
  {
    assert ThreadOk(g, s.m, t, s.loc[t]);
    DeqTakeMem(g, s.m, t, s.loc[t], s'.m, s'.loc[t]);
    forall T | T in s'.m.lost ensures Shut(g, s'.m, s'.loc, T) { DeqTakeShut(g, s, s', t, T); }
    WriterKeeps(g, s, s', t);
  }

  lemma DeqCasKeeps(g: Geo, s: State, s': State, t: Tid)
    requires Inv(g, s) && Next(g, s, s', t) && DeqCasSucceeds(g, s.m, s.loc[t], s'.m, s'.loc[t])
    ensures Inv(g, s') && Forward(g, s.m, s'.m)
  {
    assert ThreadOk(g, s.m, t, s.loc[t]);
    DeqCasMem(g, s.m, t, s.loc[t], s'.m, s'.loc[t]);
    forall T | T in s'.m.lost ensures Shut(g, s'.m, s'.loc, T) { DeqCasShut(g, s, s', t, T); }
    WriterKeeps(g, s, s', t);
  }

  lemma DeqGivesUpKeeps(g: Geo, s: State, s': State, t: Tid)
    requires Inv(g, s) && Next(g, s, s', t) && DeqGivesUp(g, s.m, s.loc[t], s'.m, s'.loc[t])
    ensures Inv(g, s') && Forward(g, s.m, s'.m)
  {
    assert ThreadOk(g, s.m, t, s.loc[t]);
    DeqGivesUpMem(g, s.m, t, s.loc[t], s'.m, s'.loc[t]);
    DeqGivesUpShut(g, s, s', t);
    forall T | T in s'.m.lost ensures Shut(g, s'.m, s'.loc, T) {
      if T != s.loc[t].H { QuietShut(g, s, s', t, T); }
    }
    WriterKeeps(g, s, s', t);
  }

  lemma NextKeeps(g: Geo, s: State, s': State, t: Tid)
    requires Inv(g, s) && Next(g, s, s', t)
    ensures Inv(g, s') && Forward(g, s.m, s'.m)
  {
    var m, l, m', l' := s.m, s.loc[t], s'.m, s'.loc[t];
    assert ThreadOk(g, m, t, l);
    assert m.tail in m.enq ==> StoreOk(g, m, m.tail);
    if HoldsHead(l) {
      if l.DeqTake? { DeqTakeKeeps(g, s, s', t); }
      else if DeqReads(g, m, l, m', l') {
        DeqReadsSelf(g, m, t, l, m', l');
        QuietKeeps(g, s, s', t);
      } else if DeqGivesUp(g, m, l, m', l') { DeqGivesUpKeeps(g, s, s', t); }
      else { DeqCasKeeps(g, s, s', t); }
    } else if l.EnqCas? && EnqCasSucceeds(g, m, l, m', l') {
      EnqCasKeeps(g, s, s', t);
    } else {
      if l.EnqCas? { assert m' == m; } else { QuietSteps(g, m, t, l, m', l'); }
      QuietHeads(g, m, t, l, m', l');
      if l.EnqLoad? || l.EnqCas? { EnqReadsSelf(g, m, t, l, m', l'); }
      else if l.EnqDraw? || l.EnqHead? { EnqSelf(g, m, t, l, m', l'); }
      else { RestSelf(g, m, t, l, m', l'); }
      QuietKeeps(g, s, s', t);
    }
  }

  // ----- initial states -----

  /** lfring_init_empty, lfring_init_full and lfring_init_fill; `fill` is the index that
      lfring_init_full puts under ticket i. */
  datatype Start0 = EmptyRing | FullRing(fill: nat -> nat) | FilledRing(a: nat, b: nat)

  /** Geometry of a fresh ring: the first n tickets use every slot once, all in cycle 0. */
  ghost predicate GeoFresh(g: Geo, first: nat -> nat) {
    && GeoOk(g) && g.n % 2 == 0
    && (forall j: nat :: j < g.n ==> first(j) < g.n && g.slot(first(j)) == j)
    && (forall T: nat :: T < g.n ==> g.cycle(T) == 0 && first(g.slot(T)) == T)
  }

  ghost predicate StartOk(g: Geo, i0: Start0) {
    match i0
    case EmptyRing => true
    case FullRing(fill) => forall i: nat :: i < g.n / 2 ==> fill(i) < g.n / 2
    case FilledRing(a, b) => a <= b < g.n
  }

  ghost function StartHead(i0: Start0): nat { if i0.FilledRing? then i0.a else 0 }

  ghost function StartTail(g: Geo, i0: Start0): nat {
    match i0
    case EmptyRing => 0
    case FullRing(_) => g.n / 2
    case FilledRing(_, b) => b
  }

  /** The word stored at the slot of ticket i < n; lfring_init_full leaves the safe bit clear. */
  ghost function StartWord(g: Geo, i0: Start0, i: nat): Entry
    requires g.n >= 2
  {
    match i0
    case EmptyRing => Entry(-1, true, g.n - 1)
    case FullRing(fill) => if i < g.n / 2 then Entry(0, false, fill(i)) else Entry(-1, true, g.n - 1)
    case FilledRing(a, b) =>
      if i < a then Entry(0, true, g.n - 1) else if i < b then Entry(0, true, i) else Entry(-1, true, g.n - 1)
  }

  ghost predicate Init(g: Geo, first: nat -> nat, i0: Start0, s: State) {
    && GeoFresh(g, first) && StartOk(g, i0) && Sized(g, s.m)
    && s.m.head == StartHead(i0) && s.m.tail == StartTail(g, i0)
    && s.m.threshold == (if i0.EmptyRing? then -1 else g.n / 2 + g.n - 1)
    && (forall j: nat :: j < g.n ==> s.m.slots[j] == StartWord(g, i0, first(j)))
    && s.m.deq == map[] && s.m.drawer == map[]
    && (forall T: nat :: T in s.m.lost <==> T < s.m.head)
    && (forall T: nat :: T in s.m.enq <==> s.m.head <= T < s.m.tail)
    && (forall T :: T in s.m.enq ==> s.m.enq[T] == StartWord(g, i0, T).idx)
    && (forall j: nat :: j < g.n ==> s.m.tick[j] == if first(j) < s.m.tail then first(j) else -1)
    && (forall t :: t in s.loc ==> s.loc[t] == Idle(Never))
  }

  lemma InitMem(g: Geo, first: nat -> nat, i0: Start0, s: State)
    requires Init(g, first, i0, s)
    ensures MemOk(g, s.m)
  {
    forall T | T in s.m.enq ensures StoreOk(g, s.m, T) { assert first(g.slot(T)) == T; }
  }

  lemma InitInv(g: Geo, first: nat -> nat, i0: Start0, s: State)
    requires Init(g, first, i0, s)
    ensures Inv(g, s)
  {
    InitMem(g, first, i0, s);
    forall T | T in s.m.lost ensures Shut(g, s.m, s.loc, T) { assert first(g.slot(T)) == T; }
  }

  // ----- runs -----

  ghost predicate StepAt(g: Geo, ss: seq<State>, ts: seq<Tid>, i: nat)
    requires i < |ts| == |ss| - 1
  {
    Next(g, ss[i], ss[i + 1], ts[i])
  }

  ghost predicate Steps(g: Geo, ss: seq<State>, ts: seq<Tid>) {
    |ss| == |ts| + 1 && forall i: nat :: i < |ts| ==> StepAt(g, ss, ts, i)
  }

  ghost predicate Run(g: Geo, first: nat -> nat, i0: Start0, ss: seq<State>, ts: seq<Tid>) {
    Steps(g, ss, ts) && Init(g, first, i0, ss[0])
  }

  lemma {:induction false} StepsInv(g: Geo, ss: seq<State>, ts: seq<Tid>, i: nat)
    requires Steps(g, ss, ts) && Inv(g, ss[0]) && i < |ss|
    ensures Inv(g, ss[i])
  {
    if i > 0 {
      StepsInv(g, ss, ts, i - 1);
      assert StepAt(g, ss, ts, i - 1);
      NextKeeps(g, ss[i - 1], ss[i], ts[i - 1]);
    }
  }

  lemma RunInv(g: Geo, first: nat -> nat, i0: Start0, ss: seq<State>, ts: seq<Tid>, i: nat)
    requires Run(g, first, i0, ss, ts) && i < |ss|
    ensures Inv(g, ss[i])
  {
    InitInv(g, first, i0, ss[0]);
    StepsInv(g, ss, ts, i);
  }

  lemma ForwardTransitive(g: Geo, a: Mem, b: Mem, c: Mem)
    requires Sized(g, a) && Forward(g, a, b) && Forward(g, b, c)
    ensures Forward(g, a, c)
  {
    forall j: nat | j < g.n ensures Older(g.n, a.slots[j], c.slots[j]) {
      OlderTransitive(g.n, a.slots[j], b.slots[j], c.slots[j]);
    }
  }

  lemma {:induction false} StepsForward(g: Geo, ss: seq<State>, ts: seq<Tid>, i: nat, k: nat)
    requires Steps(g, ss, ts) && i <= k < |ss| && Inv(g, ss[i])
    ensures Forward(g, ss[i].m, ss[k].m)
    decreases k - i
  {
    if i < k {
      assert StepAt(g, ss, ts, i);
      NextKeeps(g, ss[i], ss[i + 1], ts[i]);
      StepsForward(g, ss, ts, i + 1, k);
      ForwardTransitive(g, ss[i].m, ss[i + 1].m, ss[k].m);
    }
  }

  /** Head, tail and slot cycles never go back over a run, and the history only grows. */
  lemma RunForward(g: Geo, first: nat -> nat, i0: Start0, ss: seq<State>, ts: seq<Tid>, i: nat, k: nat)
    requires Run(g, first, i0, ss, ts) && i <= k < |ss|
    ensures Sized(g, ss[i].m) && Forward(g, ss[i].m, ss[k].m)
  {
    RunInv(g, first, i0, ss, ts, i);
    StepsForward(g, ss, ts, i, k);
  }

  // ----- main results -----

  /** What is about to be returned was stored under the same ticket and is still in its slot. */
  lemma TakesWhatWasStored(g: Geo, s: State, t: Tid)
    requires Inv(g, s) && t in s.loc && s.loc[t].DeqTake?
    ensures var H, v := s.loc[t].H, s.loc[t].i;
            && Sized(g, s.m) && H in s.m.drawer && s.m.drawer[H] == t
            && H in s.m.enq && s.m.enq[H] == v && H !in s.m.deq
            && s.m.slots[g.slot(H)].cycle == g.cycle(H) && s.m.slots[g.slot(H)].idx == v
  {
    var H := s.loc[t].H;
    assert ThreadOk(g, s.m, t, s.loc[t]);
    assert StoreOk(g, s.m, H);
    var j := g.slot(H);
    assert SlotOk(g, s.m, j, s.m.slots[j], s.m.tick[j]);
  }

  lemma TakeReturns(g: Geo, s: State, s': State, t: Tid)
    requires Next(g, s, s', t) && s.loc[t].DeqTake? && s.loc[t].H in s.m.enq && s.m.enq[s.loc[t].H] == s.loc[t].i
    ensures s.loc[t].H in s'.m.deq && s'.m.deq[s.loc[t].H] == s.loc[t].i
  {
  }

  lemma NotTakenAgain(g: Geo, s: State, H: nat, u: Tid)
    requires Inv(g, s) && H in s.m.deq && u in s.loc && s.loc[u].DeqTake?
    ensures s.loc[u].H != H
  {
    assert ThreadOk(g, s.m, u, s.loc[u]);
  }

  lemma ReturnedStays(g: Geo, first: nat -> nat, i0: Start0, ss: seq<State>, ts: seq<Tid>, i: nat, k: nat, H: nat)
    requires Run(g, first, i0, ss, ts) && i <= k < |ss| && H in ss[i].m.deq
    ensures H in ss[k].m.deq && ss[k].m.deq[H] == ss[i].m.deq[H]
  {
    RunForward(g, first, i0, ss, ts, i, k);
  }

  /** When, at step i of any run, a thread returns v under head ticket H: that thread drew H, v
      is what was stored under tail ticket H, the slot still holds it, H was not returned
      before and will not be returned again. */
  lemma DeliveredByTicket(g: Geo, first: nat -> nat, i0: Start0, ss: seq<State>, ts: seq<Tid>, i: nat, k: nat)
    requires Run(g, first, i0, ss, ts) && i < |ts| && ts[i] in ss[i].loc && ss[i].loc[ts[i]].DeqTake?
    requires i < k < |ss|
    ensures var H, v := ss[i].loc[ts[i]].H, ss[i].loc[ts[i]].i;
            && Sized(g, ss[i].m) && H in ss[i].m.drawer && ss[i].m.drawer[H] == ts[i]
            && H in ss[i].m.enq && ss[i].m.enq[H] == v
            && ss[i].m.slots[g.slot(H)].cycle == g.cycle(H) && ss[i].m.slots[g.slot(H)].idx == v
            && H !in ss[i].m.deq && H in ss[k].m.deq && ss[k].m.deq[H] == v
            && (forall u :: u in ss[k].loc && ss[k].loc[u].DeqTake? ==> ss[k].loc[u].H != H)
  {
    var H := ss[i].loc[ts[i]].H;
    assert Inv(g, ss[i]) && Inv(g, ss[k]) by {
      RunInv(g, first, i0, ss, ts, i);
      RunInv(g, first, i0, ss, ts, k);
    }
    TakesWhatWasStored(g, ss[i], ts[i]);
    assert StepAt(g, ss, ts, i);
    TakeReturns(g, ss[i], ss[i + 1], ts[i]);
    ReturnedStays(g, first, i0, ss, ts, i + 1, k, H);
    forall u | u in ss[k].loc && ss[k].loc[u].DeqTake? ensures ss[k].loc[u].H != H {
      NotTakenAgain(g, ss[k], H, u);
    }
  }

  /** Only the holder of ticket H, in DeqTake, ever adds H to what has been returned. */
  lemma ReturnedOnlyByHolder(g: Geo, s: State, s': State, t: Tid, H: nat)
    requires Inv(g, s) && Next(g, s, s', t) && H in s'.m.deq && H !in s.m.deq
    ensures s.loc[t].DeqTake? && s.loc[t].H == H && s'.m.deq[H] == s.m.enq[H]
  {
    assert ThreadOk(g, s.m, t, s.loc[t]);
    if !s.loc[t].DeqTake? && !s.loc[t].DeqLoad? && !s.loc[t].DeqCas? && !s.loc[t].EnqCas? {
      QuietSteps(g, s.m, t, s.loc[t], s'.m, s'.loc[t]);
    }
  }

  /** Nothing is stranded: a ticket given up never receives a value afterwards, and a stored
      value is returned, or still in its slot for a dequeuer that has not drawn the ticket yet
      or that holds it and has not given up. */
  lemma NothingStranded(g: Geo, first: nat -> nat, i0: Start0, ss: seq<State>, ts: seq<Tid>, i: nat, k: nat, T: nat)
    requires Run(g, first, i0, ss, ts) && i <= k < |ss|
    ensures T in ss[i].m.lost ==> T !in ss[k].m.enq
    ensures T in ss[k].m.enq && T !in ss[k].m.deq ==>
              && Sized(g, ss[k].m)
              && ss[k].m.slots[g.slot(T)].cycle == g.cycle(T) && ss[k].m.slots[g.slot(T)].idx == ss[k].m.enq[T]
              && (|| T >= ss[k].m.head
                  || (&& T in ss[k].m.drawer && ss[k].m.drawer[T] in ss[k].loc
                      && HoldsHead(ss[k].loc[ss[k].m.drawer[T]]) && ss[k].loc[ss[k].m.drawer[T]].H == T))
  {
    RunInv(g, first, i0, ss, ts, k);
    RunForward(g, first, i0, ss, ts, i, k);
    var m := ss[k].m;
    if T in m.enq {
      assert StoreOk(g, m, T);
      if T !in m.deq {
        var j := g.slot(T);
        assert SlotOk(g, m, j, m.slots[j], m.tick[j]);
      }
    }
  }

  /** FIFO by ticket: if the value of a later ticket has been returned, the value of every
      earlier one has been returned too or its ticket is in the hands of the thread that drew
      it (and hence nobody else's). */
  lemma FifoByTicket(g: Geo, first: nat -> nat, i0: Start0, ss: seq<State>, ts: seq<Tid>, k: nat, T: nat, U: nat)
    requires Run(g, first, i0, ss, ts) && k < |ss| && T < U
    requires T in ss[k].m.enq && U in ss[k].m.deq
    ensures || (T in ss[k].m.deq && ss[k].m.deq[T] == ss[k].m.enq[T])
            || (&& T in ss[k].m.drawer && ss[k].m.drawer[T] in ss[k].loc
                && HoldsHead(ss[k].loc[ss[k].m.drawer[T]]) && ss[k].loc[ss[k].m.drawer[T]].H == T
                && (forall u :: u in ss[k].loc && HoldsHead(ss[k].loc[u]) && ss[k].loc[u].H == T ==>
                      u == ss[k].m.drawer[T]))
  {
    RunInv(g, first, i0, ss, ts, k);
    assert StoreOk(g, ss[k].m, T);
    forall u | u in ss[k].loc && HoldsHead(ss[k].loc[u]) && ss[k].loc[u].H == T
      ensures T in ss[k].m.drawer && u == ss[k].m.drawer[T]
    {
      assert ThreadOk(g, ss[k].m, u, ss[k].loc[u]);
    }
  }

  /** A tail ticket in a thread's hands has been drawn and not been used. */
  lemma HeldTicketUnused(g: Geo, first: nat -> nat, i0: Start0, ss: seq<State>, ts: seq<Tid>, k: nat, t: Tid)
    requires Run(g, first, i0, ss, ts) && k < |ss| && t in ss[k].loc && HoldsTail(ss[k].loc[t])
    ensures ss[k].loc[t].T < ss[k].m.tail && ss[k].loc[t].T !in ss[k].m.enq
  {
    RunInv(g, first, i0, ss, ts, k);
    assert ThreadOk(g, ss[k].m, t, ss[k].loc[t]);
  }

  /** At most one thread holds a given tail ticket. */
  lemma TailTicketsUnique(g: Geo, first: nat -> nat, i0: Start0, ss: seq<State>, ts: seq<Tid>, k: nat, t: Tid, u: Tid)
    requires Run(g, first, i0, ss, ts) && k < |ss| && t in ss[k].loc && u in ss[k].loc
    requires HoldsTail(ss[k].loc[t]) && HoldsTail(ss[k].loc[u]) && ss[k].loc[t].T == ss[k].loc[u].T
    ensures t == u
  {
    RunInv(g, first, i0, ss, ts, k);
    assert ThreadOk(g, ss[k].m, t, ss[k].loc[t]);
  }
}
