/** What the calls of bmk_block_queue_wake and of the block callback come to, over every run of any
    number of queues: each is one operation on its queue, the one it answers, and no thread is lost
    between two of them. */
module QueueCalls {
  import opened Common
  import opened QueueSteps
  import opened QueueSystem
  import SQ = SignedQueue

  // ----- one call -----

  /** A dequeue that has taken no effect yet. */
  predicate Dequeues(l: Local) {
    || l.DHeadS? || l.DHeadV? || l.DTailS? || l.DTailV? || l.DNextS? || l.DNextV? || l.DCheck? || l.DToken?
    || l.DHelp? || l.DObject? || l.DSwing?
  }

  /** What a call is for: to put a thread to sleep, or to wake one. */
  datatype Aim = ToSleep(t: Tid) | ToWake

  /** The call at l has taken no effect yet. */
  predicate Pending(l: Local, aim: Aim) { if aim.ToSleep? then Enqueues(l) && l.t == aim.t else Dequeues(l) }

  /** The call at l has had effect e. */
  predicate Effected(l: Local, e: SQ.Event) {
    match l
    case AIdle(last) => e == last
    case ESwing(t, _, _, _) => e == SQ.Slept(t, true)
    case DFix(_, t) => e == SQ.Woke(Some(t))
    case DWake(_, t) => e == SQ.Woke(Some(t))
    case _ => false
  }

  predicate Serves(e: SQ.Event, aim: Aim) { if aim.ToSleep? then e.Slept? && e.t == aim.t else e.Woke? }

  lemma PendingTurn(m: Mem, a: Aid, l: Local, m': Mem, l': Local, aim: Aim)
    requires Acts(m, a, l, m', l') && Pending(l, aim)
    ensures var e := EventOf(m, l, m');
            if e.Silent? then Pending(l', aim) else Serves(e, aim) && Effected(l', e)
  {
    if aim.ToSleep? { SleepTurn(m, a, l, m', l'); } else { WakeTurn(m, a, l, m', l'); }
  }

  lemma SleepTurn(m: Mem, a: Aid, l: Local, m': Mem, l': Local)
    requires Acts(m, a, l, m', l') && Enqueues(l)
    ensures var e := EventOf(m, l, m');
            if e.Silent? then Enqueues(l') && l'.t == l.t else e.Slept? && e.t == l.t && Effected(l', e)
  {
    if l.EConsume? || l.EAppend? { LinkTurn(m, a, l, m', l'); }
  }

  lemma LinkTurn(m: Mem, a: Aid, l: Local, m': Mem, l': Local)
    requires Acts(m, a, l, m', l') && (l.EConsume? || l.EAppend?)
    ensures var e := EventOf(m, l, m');
            if e.Silent? then Enqueues(l') && l'.t == l.t else e.Slept? && e.t == l.t && Effected(l', e)
  {
  }

  lemma WakeTurn(m: Mem, a: Aid, l: Local, m': Mem, l': Local)
    requires Acts(m, a, l, m', l') && Dequeues(l)
    ensures var e := EventOf(m, l, m'); if e.Silent? then Dequeues(l') else e.Woke? && Effected(l', e)
    ensures m'.status == m.status || DTaken(m, a, l, m', l')
  {
    if l.DToken? || l.DSwing? { TakeTurn(m, a, l, m', l'); }
  }

  lemma TakeTurn(m: Mem, a: Aid, l: Local, m': Mem, l': Local)
    requires Acts(m, a, l, m', l') && (l.DToken? || l.DSwing?)
    ensures var e := EventOf(m, l, m'); if e.Silent? then Dequeues(l') else e.Woke? && Effected(l', e)
    ensures m'.status == m.status || DTaken(m, a, l, m', l')
  {
  }

  lemma EffectedTurn(m: Mem, a: Aid, l: Local, m': Mem, l': Local, e: SQ.Event)
    requires Acts(m, a, l, m', l') && Effected(l, e) && !l.AIdle?
    requires l.DWake? ==> l.x in m.nodes && m.nodes[l.x].who == l.obj
    ensures EventOf(m, l, m').Silent? && Effected(l', e)
  {
  }

  lemma BeginTurn(m: Mem, a: Aid, l: Local, m': Mem, l': Local) returns (aim: Aim)
    requires Acts(m, a, l, m', l') && l.AIdle?
    ensures EventOf(m, l, m').Silent? && Pending(l', aim)
    ensures l'.EStamp? <==> aim.ToSleep?
  {
    aim := if l'.EStamp? then ToSleep(l'.t) else ToWake;
  }

  /** Agent a is in the call that it began with step i, up to k. */
  ghost predicate InCall(ss: seq<State>, ags: seq<Aid>, a: Aid, i: nat, k: nat)
    requires k <= |ags| == |ss| - 1
  {
    && i < k && ags[i] == a && a in ss[i].loc && ss[i].loc[a].l.AIdle?
    && (forall m: nat :: i < m < k ==> a in ss[m].loc && !ss[m].loc[a].l.AIdle?)
    && a in ss[k].loc
  }

  lemma CallStep(ss: seq<State>, ags: seq<Aid>, a: Aid, i: nat, k: nat)
    requires Steps(ss, ags) && i + 1 < k <= |ags| && InCall(ss, ags, a, i, k)
    ensures InCall(ss, ags, a, i, k - 1) && a in ss[k - 1].loc && !ss[k - 1].loc[a].l.AIdle?
    ensures ags[k - 1] != a ==> ss[k].loc[a] == ss[k - 1].loc[a]
  {
    assert StepAt(ss, ags, k - 1);
  }

  lemma PendingAt(ss: seq<State>, ags: seq<Aid>, k: nat, aim: Aim)
    requires Steps(ss, ags) && k < |ags| && ags[k] in ss[k].loc && Pending(ss[k].loc[ags[k]].l, aim)
    ensures var a := ags[k];
            && a in ss[k + 1].loc && ss[k + 1].loc[a].q == ss[k].loc[a].q
            && var e := EventAt(ss[k], ss[k + 1], a, ss[k].loc[a].q);
               if e.Silent? then Pending(ss[k + 1].loc[a].l, aim) else Serves(e, aim) && Effected(ss[k + 1].loc[a].l, e)
  {
    assert StepAt(ss, ags, k);
    var a := ags[k];
    var q := ss[k].loc[a].q;
    PendingTurn(View(ss[k], q), a, ss[k].loc[a].l, View(ss[k + 1], q), ss[k + 1].loc[a].l, aim);
  }

  lemma EffectedAt(ss: seq<State>, ags: seq<Aid>, k: nat, e: SQ.Event)
    requires Steps(ss, ags) && Inv(ss[0]) && k < |ags| && ags[k] in ss[k].loc
    requires Effected(ss[k].loc[ags[k]].l, e) && !ss[k].loc[ags[k]].l.AIdle?
    ensures var a := ags[k];
            && a in ss[k + 1].loc && ss[k + 1].loc[a].q == ss[k].loc[a].q
            && EventAt(ss[k], ss[k + 1], a, ss[k].loc[a].q).Silent? && Effected(ss[k + 1].loc[a].l, e)
  {
    assert StepAt(ss, ags, k);
    StepsInv(ss, ags, k);
    var a := ags[k];
    var q := ss[k].loc[a].q;
    EffectedTurn(View(ss[k], q), a, ss[k].loc[a].l, View(ss[k + 1], q), ss[k + 1].loc[a].l, e);
  }

  lemma BeginAt(ss: seq<State>, ags: seq<Aid>, k: nat) returns (aim: Aim)
    requires Steps(ss, ags) && k < |ags| && ags[k] in ss[k].loc && ss[k].loc[ags[k]].l.AIdle?
    ensures var a := ags[k];
            && a in ss[k + 1].loc && EventAt(ss[k], ss[k + 1], a, ss[k + 1].loc[a].q).Silent?
            && Pending(ss[k + 1].loc[a].l, aim) && (aim.ToSleep? <==> ss[k + 1].loc[a].l.EStamp?)
  {
    assert StepAt(ss, ags, k);
    var a := ags[k];
    var q := ss[k + 1].loc[a].q;
    aim := BeginTurn(View(ss[k], q), a, ss[k].loc[a].l, View(ss[k + 1], q), ss[k + 1].loc[a].l);
  }

  /** Agent a has no effect on queue q with the steps from i to k - 1, but for step j. */
  ghost predicate NoEffect(ss: seq<State>, ags: seq<Aid>, a: Aid, q: Qid, i: nat, k: nat, j: int)
    requires k <= |ags| == |ss| - 1
  {
    forall m: nat {:trigger ags[m]} :: i <= m < k && m != j && ags[m] == a ==> EventAt(ss[m], ss[m + 1], a, q).Silent?
  }

  ghost function EffectAt(ss: seq<State>, a: Aid, q: Qid, j: nat): SQ.Event
    requires j + 1 < |ss|
  {
    EventAt(ss[j], ss[j + 1], a, q)
  }

  /** What a call has done by step k: nothing yet, or its one effect, at step j. */
  lemma {:induction false} CallSoFar(ss: seq<State>, ags: seq<Aid>, a: Aid, i: nat, k: nat) returns (j: int, aim: Aim)
    requires Steps(ss, ags) && Inv(ss[0]) && k <= |ags| && InCall(ss, ags, a, i, k)
    ensures a in ss[i + 1].loc && (aim.ToSleep? <==> ss[i + 1].loc[a].l.EStamp?) && Pending(ss[i + 1].loc[a].l, aim)
    ensures ss[k].loc[a].q == ss[i + 1].loc[a].q
    ensures if j < 0 then Pending(ss[k].loc[a].l, aim)
            else
              && i < j < k && ags[j] == a && Effected(ss[k].loc[a].l, EffectAt(ss, a, ss[k].loc[a].q, j))
              && Serves(EffectAt(ss, a, ss[k].loc[a].q, j), aim)
    ensures NoEffect(ss, ags, a, ss[k].loc[a].q, i, k, j)
    decreases k
  {
    if k == i + 1 {
      aim := BeginAt(ss, ags, i);
      return -1, aim;
    }
    CallStep(ss, ags, a, i, k);
    j, aim := CallSoFar(ss, ags, a, i, k - 1);
    if ags[k - 1] == a {
      var q := ss[k - 1].loc[a].q;
      if j < 0 {
        PendingAt(ss, ags, k - 1, aim);
        if !EffectAt(ss, a, q, k - 1).Silent? { j := k - 1; }
      } else {
        EffectedAt(ss, ags, k - 1, EffectAt(ss, a, q, j));
      }
    }
  }

  /** A call that has returned by step k has had exactly one effect on its queue, at step j, and that
      is what it answers: that its thread was put to sleep or not, or which thread was woken, if any. */
  lemma OneEffect(ss: seq<State>, ags: seq<Aid>, a: Aid, i: nat, k: nat) returns (j: nat)
    requires Run(ss, ags) && k <= |ags| && InCall(ss, ags, a, i, k) && ss[k].loc[a].l.AIdle?
    ensures a in ss[i + 1].loc && ss[k].loc[a].q == ss[i + 1].loc[a].q
    ensures i < j < k && ags[j] == a && EffectAt(ss, a, ss[k].loc[a].q, j) == ss[k].loc[a].l.last
    ensures NoEffect(ss, ags, a, ss[k].loc[a].q, i, k, j)
    ensures var e := ss[k].loc[a].l.last;
            if ss[i + 1].loc[a].l.EStamp? then e.Slept? && e.t == ss[i + 1].loc[a].l.t else e.Woke?
  {
    InitInv(ss[0]);
    var j0, aim := CallSoFar(ss, ags, a, i, k);
    j := j0;
  }

  // ----- calls in numbers -----

  /** What the call of a on queue q that returns with this step answers, if one does. */
  ghost function Returned(s: State, s': State, a: Aid, q: Qid): SQ.Event {
    if a in s.loc && a in s'.loc && s'.loc[a].q == q && !s.loc[a].l.AIdle? && s'.loc[a].l.AIdle?
    then s'.loc[a].l.last else SQ.Silent
  }

  /** The calls on queue q that have returned by step i, with what they answer, in order. */
  ghost function Calls(ss: seq<State>, ags: seq<Aid>, q: Qid, i: nat): (es: seq<SQ.Event>)
    requires i <= |ags| == |ss| - 1
  {
    if i == 0 then [] else Calls(ss, ags, q, i - 1) + [Returned(ss[i - 1], ss[i], ags[i - 1], q)]
  }

  /** The agents that have put a thread to sleep on queue q, or taken one out of it, and have not
      returned yet. */
  ghost function PuttingToSleep(s: State, q: Qid): set<Aid> {
    set a | a in s.loc && s.loc[a].q == q && s.loc[a].l.ESwing?
  }

  ghost function Waking(s: State, q: Qid): set<Aid> {
    set a | a in s.loc && s.loc[a].q == q && (s.loc[a].l.DFix? || s.loc[a].l.DWake?)
  }

  function Num(b: bool): nat { if b then 1 else 0 }

  lemma OneChanges(x: set<Aid>, y: set<Aid>, a: Aid)
    requires x - {a} == y - {a}
    ensures |y| + Num(a in x) == |x| + Num(a in y)
  {
    assert x == if a in x then (x - {a}) + {a} else x - {a};
    assert y == if a in y then (y - {a}) + {a} else y - {a};
  }

  /** An agent's step: what it does to its queue and what it returns. */
  lemma AgentCounts(m: Mem, a: Aid, l: Local, m': Mem, l': Local)
    requires Acts(m, a, l, m', l') && (l.DWake? ==> l.x in m.nodes && m.nodes[l.x].who == l.obj)
    ensures var e := EventOf(m, l, m'); var r := if !l.AIdle? && l'.AIdle? then l'.last else SQ.Silent;
            && Num(e.Slept?) + Num(l.ESwing?) == Num(r.Slept?) + Num(l'.ESwing?)
            && Num(e.Woke?) + Num(l.DFix? || l.DWake?) == Num(r.Woke?) + Num(l'.DFix? || l'.DWake?)
  {
    if l.AIdle? { var aim := BeginTurn(m, a, l, m', l'); }
    else if Enqueues(l) { SleepTurn(m, a, l, m', l'); }
    else if Dequeues(l) { WakeTurn(m, a, l, m', l'); }
    else {
      var e := if l.ESwing? then SQ.Slept(l.t, true) else SQ.Woke(Some(l.obj));
      EffectedTurn(m, a, l, m', l', e);
    }
  }

  lemma SetsChange(s: State, s': State, a: Aid, q: Qid)
    requires a in s.loc && a in s'.loc && s'.loc == s.loc[a := s'.loc[a]]
    ensures |PuttingToSleep(s', q)| + Num(a in PuttingToSleep(s, q)) ==
              |PuttingToSleep(s, q)| + Num(a in PuttingToSleep(s', q))
    ensures |Waking(s', q)| + Num(a in Waking(s, q)) == |Waking(s, q)| + Num(a in Waking(s', q))
  {
    OneChanges(PuttingToSleep(s, q), PuttingToSleep(s', q), a);
    OneChanges(Waking(s, q), Waking(s', q), a);
  }

  /** The step in numbers, for the agent alone. */
  lemma AgentStepCounts(s: State, s': State, a: Aid)
    requires Inv(s) && Step(s, s', a)
    ensures a in s.loc && a in s'.loc && s'.loc == s.loc[a := s'.loc[a]]
    ensures s.loc[a].l.AIdle? || s.loc[a].q == s'.loc[a].q
    ensures var q, l, l' := s'.loc[a].q, s.loc[a].l, s'.loc[a].l;
            var e, r := EventAt(s, s', a, q), if !l.AIdle? && l'.AIdle? then l'.last else SQ.Silent;
            && Num(e.Slept?) + Num(l.ESwing?) == Num(r.Slept?) + Num(l'.ESwing?)
            && Num(e.Woke?) + Num(l.DFix? || l.DWake?) == Num(r.Woke?) + Num(l'.DFix? || l'.DWake?)
  {
    var q := s'.loc[a].q;
    StepActs(s, s', a);
    KnowsWho(View(s, q), a, s.loc[a].l);
    AgentCounts(View(s, q), a, s.loc[a].l, View(s', q), s'.loc[a].l);
  }

  lemma InSets(s: State, s': State, a: Aid, q: Qid)
    requires a in s.loc && a in s'.loc && (s.loc[a].l.AIdle? || s.loc[a].q == s'.loc[a].q)
    requires var p, l, l' := s'.loc[a].q, s.loc[a].l, s'.loc[a].l;
             var e, r := EventAt(s, s', a, p), if !l.AIdle? && l'.AIdle? then l'.last else SQ.Silent;
             && Num(e.Slept?) + Num(l.ESwing?) == Num(r.Slept?) + Num(l'.ESwing?)
             && Num(e.Woke?) + Num(l.DFix? || l.DWake?) == Num(r.Woke?) + Num(l'.DFix? || l'.DWake?)
    ensures var e, r := EventAt(s, s', a, q), Returned(s, s', a, q);
            && Num(e.Slept?) + Num(a in PuttingToSleep(s, q)) == Num(r.Slept?) + Num(a in PuttingToSleep(s', q))
            && Num(e.Woke?) + Num(a in Waking(s, q)) == Num(r.Woke?) + Num(a in Waking(s', q))
  {
  }

  lemma KnowsWho(m: Mem, a: Aid, l: Local)
    requires AgentOk(m, a, l)
    ensures l.DWake? ==> l.x in m.nodes && m.nodes[l.x].who == l.obj
  {
  }

  lemma StepCounts(s: State, s': State, a: Aid, q: Qid)
    requires Inv(s) && Step(s, s', a)
    ensures var e, r := EventAt(s, s', a, q), Returned(s, s', a, q);
            && Num(e.Slept?) + |PuttingToSleep(s, q)| == Num(r.Slept?) + |PuttingToSleep(s', q)|
            && Num(e.Woke?) + |Waking(s, q)| == Num(r.Woke?) + |Waking(s', q)|
  {
    AgentStepCounts(s, s', a);
    InSets(s, s', a, q);
    SetsChange(s, s', a, q);
  }

  lemma SnocCounts(es: seq<SQ.Event>, e: SQ.Event, es': seq<SQ.Event>)
    requires es' == es + [e]
    ensures SQ.Sleeps(es') == SQ.Sleeps(es) + Num(e.Slept?) && SQ.Wakes(es') == SQ.Wakes(es) + Num(e.Woke?)
  {
    assert es'[..|es|] == es;
  }

  /** The effects on queue q by step i are the calls that have returned and those about to. */
  ghost predicate AddUp(ss: seq<State>, ags: seq<Aid>, q: Qid, i: nat)
    requires i <= |ags| == |ss| - 1
  {
    && SQ.Sleeps(Events(ss, ags, q, i)) == SQ.Sleeps(Calls(ss, ags, q, i)) + |PuttingToSleep(ss[i], q)|
    && SQ.Wakes(Events(ss, ags, q, i)) == SQ.Wakes(Calls(ss, ags, q, i)) + |Waking(ss[i], q)|
  }

  /** Step i in numbers, on queue q. */
  ghost predicate Even(ss: seq<State>, ags: seq<Aid>, q: Qid, i: nat)
    requires i < |ags| == |ss| - 1
  {
    var e, r := EventAt(ss[i], ss[i + 1], ags[i], q), Returned(ss[i], ss[i + 1], ags[i], q);
    && Num(e.Slept?) + |PuttingToSleep(ss[i], q)| == Num(r.Slept?) + |PuttingToSleep(ss[i + 1], q)|
    && Num(e.Woke?) + |Waking(ss[i], q)| == Num(r.Woke?) + |Waking(ss[i + 1], q)|
  }

  lemma AddUpNext(ss: seq<State>, ags: seq<Aid>, q: Qid, i: nat)
    requires i < |ags| == |ss| - 1 && AddUp(ss, ags, q, i) && Even(ss, ags, q, i)
    ensures AddUp(ss, ags, q, i + 1)
  {
    SnocCounts(Events(ss, ags, q, i), EventAt(ss[i], ss[i + 1], ags[i], q), Events(ss, ags, q, i + 1));
    SnocCounts(Calls(ss, ags, q, i), Returned(ss[i], ss[i + 1], ags[i], q), Calls(ss, ags, q, i + 1));
  }

  lemma {:induction false} EffectsAreCalls(ss: seq<State>, ags: seq<Aid>, q: Qid, i: nat)
    requires Run(ss, ags) && i < |ss|
    ensures AddUp(ss, ags, q, i)
  {
    if i == 0 {
      NoneYet(ss[0], q);
    } else {
      EffectsAreCalls(ss, ags, q, i - 1);
      CountsAt(ss, ags, q, i - 1);
      AddUpNext(ss, ags, q, i - 1);
    }
  }

  lemma NoneYet(s: State, q: Qid)
    requires Init(s)
    ensures PuttingToSleep(s, q) == {} && Waking(s, q) == {}
  {
  }

  lemma CountsAt(ss: seq<State>, ags: seq<Aid>, q: Qid, i: nat)
    requires Run(ss, ags) && i < |ags|
    ensures Even(ss, ags, q, i)
  {
    RunInv(ss, ags, i);
    assert StepAt(ss, ags, i);
    StepCounts(ss[i], ss[i + 1], ags[i], q);
  }

  /** In every run, on every queue: the calls to put a thread to sleep, returned or about to, minus
      the calls to wake one are the threads asleep minus the wakeups stored, of which there is only
      one kind; and with no call about to return these are the calls that have returned. */
  lemma CallBalance(ss: seq<State>, ags: seq<Aid>, q: Qid, i: nat)
    requires Run(ss, ags) && q in ss[0].qs && i < |ss|
    ensures q in ss[i].qs && MemOk(View(ss[i], q))
    ensures var calls, b := Calls(ss, ags, q, i), Abs(View(ss[i], q));
            && (SQ.Sleeps(calls) + |PuttingToSleep(ss[i], q)|) - (SQ.Wakes(calls) + |Waking(ss[i], q)|) ==
                 |b.q| - b.tokens
            && (b.q == [] || b.tokens == 0)
  {
    RunBalance(ss, ags, q, i);
    EffectsAreCalls(ss, ags, q, i);
  }

  // ----- no thread is lost -----

  /** A thread that does not run is being put to sleep by an agent that is at it, sleeps on a queue,
      or has been taken out by an agent that will make it runnable. */
  ghost predicate Placed(s: State, t: Tid)
    requires t in s.status
  {
    match s.status[t]
    case Running => true
    case Blocking(a) => a in s.loc && Enqueues(s.loc[a].l) && s.loc[a].l.t == t
    case Queued(q, _) => q in s.qs
    case Handed(a) => a in s.loc && (s.loc[a].l.DFix? || s.loc[a].l.DWake?) && s.loc[a].l.obj == t
  }

  /** What a step of a does to the status of threads. */
  ghost predicate Restatus(m: Mem, a: Aid, l: Local, m': Mem, l': Local) {
    && m'.status.Keys == m.status.Keys
    && (forall t :: t in m.status && m'.status[t] != m.status[t] ==>
          match m'.status[t]
          case Running => true
          case Blocking(b) => b == a && Enqueues(l') && l'.t == t
          case Queued(q, _) => q == m.q
          case Handed(b) => b == a && l'.DFix? && l'.obj == t)
    && (forall t :: t in m.status && m'.status[t] == m.status[t] == Blocking(a) ==>
          Enqueues(l) && l.t == t ==> Enqueues(l') && l'.t == t)
    && (forall t :: t in m.status && m'.status[t] == m.status[t] == Handed(a) ==>
          (l.DFix? || l.DWake?) && l.obj == t ==> (l'.DFix? || l'.DWake?) && l'.obj == t)
  }

  /** A call that goes on keeps the thread it is about. */
  predicate KeepsThread(l: Local, l': Local) {
    && (Enqueues(l) ==> Enqueues(l') && l'.t == l.t)
    && (l.DFix? || l.DWake? ==> (l'.DFix? || l'.DWake?) && l'.obj == l.obj)
  }

  lemma SameStatus(m: Mem, a: Aid, l: Local, m': Mem, l': Local)
    requires m'.status == m.status && KeepsThread(l, l')
    ensures Restatus(m, a, l, m', l')
  {
  }

  lemma SleepRestatus(m: Mem, a: Aid, l: Local, m': Mem, l': Local)
    requires AgentOk(m, a, l) && (EConsumed(m, l, m', l') || EAppended(m, l, m', l'))
    ensures Restatus(m, a, l, m', l')
  {
  }

  lemma BeginRestatus(m: Mem, a: Aid, l: Local, m': Mem, l': Local)
    requires Begin(m, a, l, m', l')
    ensures Restatus(m, a, l, m', l')
  {
  }

  lemma TakeRestatus(m: Mem, a: Aid, l: Local, m': Mem, l': Local)
    requires MemOk(m) && AgentOk(m, a, l) && DTaken(m, a, l, m', l')
    ensures Restatus(m, a, l, m', l')
  {
    assert LinkOk(m, l.hs + 1);
  }

  lemma WakeRestatus(m: Mem, a: Aid, l: Local, m': Mem, l': Local)
    requires AgentOk(m, a, l) && l.DWake? && DFinish(m, l, m', l')
    ensures Restatus(m, a, l, m', l')
  {
  }

  lemma ESameStatus(m: Mem, a: Aid, l: Local, m': Mem, l': Local)
    requires Acts(m, a, l, m', l') && (Enqueues(l) || l.ESwing?)
    ensures EConsumed(m, l, m', l') || EAppended(m, l, m', l') || (m'.status == m.status && KeepsThread(l, l'))
  {
    if l.EConsume? || l.EAppend? { LinkTurn(m, a, l, m', l'); }
  }

  lemma DSameStatus(m: Mem, a: Aid, l: Local, m': Mem, l': Local)
    requires Acts(m, a, l, m', l') && (Dequeues(l) || l.DFix?)
    ensures DTaken(m, a, l, m', l') || (m'.status == m.status && KeepsThread(l, l'))
  {
    if Dequeues(l) { WakeTurn(m, a, l, m', l'); }
  }

  lemma ERestatus(m: Mem, a: Aid, l: Local, m': Mem, l': Local)
    requires AgentOk(m, a, l) && Acts(m, a, l, m', l') && (Enqueues(l) || l.ESwing?)
    ensures Restatus(m, a, l, m', l')
  {
    ESameStatus(m, a, l, m', l');
    if EConsumed(m, l, m', l') || EAppended(m, l, m', l') { SleepRestatus(m, a, l, m', l'); }
    else { SameStatus(m, a, l, m', l'); }
  }

  lemma DRestatus(m: Mem, a: Aid, l: Local, m': Mem, l': Local)
    requires MemOk(m) && AgentOk(m, a, l) && Acts(m, a, l, m', l') && (Dequeues(l) || l.DFix?)
    ensures Restatus(m, a, l, m', l')
  {
    DSameStatus(m, a, l, m', l');
    if DTaken(m, a, l, m', l') { TakeRestatus(m, a, l, m', l'); } else { SameStatus(m, a, l, m', l'); }
  }

  lemma ActsRestatus(m: Mem, a: Aid, l: Local, m': Mem, l': Local)
    requires MemOk(m) && AgentOk(m, a, l) && Acts(m, a, l, m', l')
    ensures Restatus(m, a, l, m', l')
  {
    if l.AIdle? { BeginRestatus(m, a, l, m', l'); }
    else if l.DWake? { WakeRestatus(m, a, l, m', l'); }
    else if Enqueues(l) || l.ESwing? { ERestatus(m, a, l, m', l'); }
    else { DRestatus(m, a, l, m', l'); }
  }

  lemma PlacedBy(s: State, s': State, a: Aid, t: Tid, q: Qid)
    requires a in s.loc && a in s'.loc && s'.loc == s.loc[a := s'.loc[a]] && s'.qs.Keys == s.qs.Keys && q in s.qs
    requires Restatus(View(s, q), a, s.loc[a].l, View(s', q), s'.loc[a].l) && t in s.status && Placed(s, t)
    ensures t in s'.status && Placed(s', t)
  {
  }

  lemma RestatusAt(ss: seq<State>, ags: seq<Aid>, i: nat)
    requires Run(ss, ags) && i < |ags|
    ensures var s, s', a := ss[i], ss[i + 1], ags[i];
            && a in s.loc && a in s'.loc && s'.loc == s.loc[a := s'.loc[a]] && s'.qs.Keys == s.qs.Keys
            && s'.loc[a].q in s.qs
            && Restatus(View(s, s'.loc[a].q), a, s.loc[a].l, View(s', s'.loc[a].q), s'.loc[a].l)
  {
    RunInv(ss, ags, i);
    assert StepAt(ss, ags, i);
    StepRestatus(ss[i], ss[i + 1], ags[i]);
  }

  lemma StepRestatus(s: State, s': State, a: Aid)
    requires Inv(s) && Step(s, s', a)
    ensures Restatus(View(s, s'.loc[a].q), a, s.loc[a].l, View(s', s'.loc[a].q), s'.loc[a].l)
  {
    StepActs(s, s', a);
    var q := s'.loc[a].q;
    assert MemOk(View(s, q));
    ActsRestatus(View(s, q), a, s.loc[a].l, View(s', q), s'.loc[a].l);
  }

  /** No thread is lost, in any reachable state. */
  lemma {:induction false} NoThreadLost(ss: seq<State>, ags: seq<Aid>, i: nat, t: Tid)
    requires Run(ss, ags) && i < |ss| && t in ss[0].status
    ensures t in ss[i].status && Placed(ss[i], t)
  {
    if i == 0 {
      assert InitThread(ss[0], t);
    } else {
      NoThreadLost(ss, ags, i - 1, t);
      RestatusAt(ss, ags, i - 1);
      PlacedBy(ss[i - 1], ss[i], ags[i - 1], t, ss[i].loc[ags[i - 1]].q);
    }
  }
}
