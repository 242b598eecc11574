/** The condition variable of lib/libbmk_rumpuser/rumpuser_synch.c without timeouts: a list of
    waiters used under a mutex that a waiter gives up only once it is off the processor.  The mutex
    is taken as the plain lock that Mutex.PlainLock shows it to be. */
module CondVar {
  import opened Common

  type Tid = nat

  datatype Pc =
    | Out                         // without the mutex
    | Acquire                     // will take the mutex, also to return from rumpuser_cv_wait
    | Held                        // has it
    | Going                       // on the list and off the processor, callback not run
    | Blocked                     // off the processor until the run queue names it
    | Signal                      // in rumpuser_cv_signal
    | Waking(who: Tid, all: bool) // has taken a waiter off the list and will wake it
    | Cast                        // in the loop of rumpuser_cv_broadcast

  /** `runq` counts the entries of each thread on the run queue. */
  datatype State = State(mtx: Option<Tid>, waiters: seq<Tid>, pc: map<Tid, Pc>, runq: map<Tid, nat>)

  // ----- steps of thread t -----

  ghost predicate Moves(s: State, s': State, t: Tid, p': Pc, mtx': Option<Tid>, waiters': seq<Tid>) {
    s' == State(mtx', waiters', s.pc[t := p'], s.runq)
  }

  /** rumpuser_cv_signal and one round of rumpuser_cv_broadcast. */
  ghost predicate TakeFirst(s: State, s': State, t: Tid, all: bool) {
    if s.waiters == [] then Moves(s, s', t, Held, s.mtx, [])
    else Moves(s, s', t, Waking(s.waiters[0], all), s.mtx, s.waiters[1..])
  }

  ghost predicate Next(s: State, s': State, t: Tid) {
    && t in s.pc && s.pc.Keys == s.runq.Keys
    && match s.pc[t]
       case Out => Moves(s, s', t, Acquire, s.mtx, s.waiters)
       case Acquire => s.mtx == None && Moves(s, s', t, Held, Some(t), s.waiters)
       case Held =>
         || Moves(s, s', t, Out, None, s.waiters)
         || Moves(s, s', t, Going, s.mtx, s.waiters + [t])
         || Moves(s, s', t, Signal, s.mtx, s.waiters)
         || Moves(s, s', t, Cast, s.mtx, s.waiters)
       case Signal => TakeFirst(s, s', t, false)
       case Cast => TakeFirst(s, s', t, true)
       case Waking(who, all) =>
         && who in s.runq
         && s' == s.(pc := s.pc[t := if all then Cast else Held], runq := s.runq[who := s.runq[who] + 1])
       case Going => Moves(s, s', t, Blocked, None, s.waiters)
       case Blocked => s.runq[t] > 0 && s' == s.(pc := s.pc[t := Acquire], runq := s.runq[t := s.runq[t] - 1])
  }

  // ----- invariant -----

  predicate HasMutex(p: Pc) { p.Held? || p.Going? || p.Signal? || p.Waking? || p.Cast? }

  /** The mutex owner is about to wake t. */
  ghost predicate BeingWoken(s: State, t: Tid) {
    s.mtx.Some? && s.mtx.value in s.pc && s.pc[s.mtx.value].Waking? && s.pc[s.mtx.value].who == t
  }

  /** A thread going to sleep is on the list; one asleep is on the list, being woken, or on the run
      queue, once; any other is on none of them. */
  ghost predicate ThreadOk(s: State, t: Tid)
    requires t in s.pc && t in s.runq
  {
    && (HasMutex(s.pc[t]) <==> s.mtx == Some(t))
    && match s.pc[t]
       case Going => t in s.waiters && s.runq[t] == 0 && !BeingWoken(s, t)
       case Blocked =>
         if t in s.waiters then s.runq[t] == 0 && !BeingWoken(s, t)
         else if s.runq[t] == 0 then BeingWoken(s, t) else s.runq[t] == 1 && !BeingWoken(s, t)
       case _ => t !in s.waiters && s.runq[t] == 0 && !BeingWoken(s, t)
  }

  ghost predicate Inv(s: State) {
    && s.pc.Keys == s.runq.Keys && Distinct(s.waiters)
    && (forall t :: t in s.waiters ==> t in s.pc)
    && (s.mtx.Some? ==> s.mtx.value in s.pc && (s.pc[s.mtx.value].Waking? ==> s.pc[s.mtx.value].who in s.pc))
    && (forall t :: t in s.pc ==> ThreadOk(s, t))
  }

  lemma TakeThread(s: State, s': State, t: Tid, u: Tid, all: bool)
    requires Inv(s) && t in s.pc && HasMutex(s.pc[t]) && !s.pc[t].Waking? && !s.pc[t].Going?
    requires TakeFirst(s, s', t, all) && u in s.pc
    ensures ThreadOk(s', u)
  {
    assert ThreadOk(s, t) && ThreadOk(s, u);
    if s.waiters != [] {
      assert s.waiters == [s.waiters[0]] + s.waiters[1..];
      assert ThreadOk(s, s.waiters[0]);
    }
  }

  lemma WakeThread(s: State, s': State, t: Tid, u: Tid)
    requires Inv(s) && Next(s, s', t) && s.pc[t].Waking? && u in s.pc
    ensures ThreadOk(s', u)
  {
    assert ThreadOk(s, t) && ThreadOk(s, u);
  }

  lemma MoveThread(s: State, s': State, t: Tid, u: Tid)
    requires Inv(s) && Next(s, s', t) && (s.pc[t].Out? || s.pc[t].Acquire? || s.pc[t].Going? || s.pc[t].Blocked?)
    requires u in s.pc
    ensures ThreadOk(s', u)
  {
    assert ThreadOk(s, t) && ThreadOk(s, u);
  }

  lemma HeldThread(s: State, s': State, t: Tid, u: Tid)
    requires Inv(s) && Next(s, s', t) && s.pc[t].Held? && u in s.pc
    ensures ThreadOk(s', u)
  {
    assert ThreadOk(s, t) && ThreadOk(s, u);
  }

  lemma StepThread(s: State, s': State, t: Tid, u: Tid)
    requires Inv(s) && Next(s, s', t) && u in s.pc
    ensures ThreadOk(s', u)
  {
    match s.pc[t]
    case Waking(_, _) => WakeThread(s, s', t, u);
    case Held => HeldThread(s, s', t, u);
    case Signal => TakeThread(s, s', t, u, false);
    case Cast => TakeThread(s, s', t, u, true);
    case _ => MoveThread(s, s', t, u);
  }

  lemma NextKeeps(s: State, s': State, t: Tid)
    requires Inv(s) && Next(s, s', t)
    ensures Inv(s')
  {
    assert ThreadOk(s, t);
    forall u | u in s'.pc ensures ThreadOk(s', u) { StepThread(s, s', t, u); }
  }

  ghost predicate Init(s: State) {
    && s.mtx == None && s.waiters == [] && s.pc.Keys == s.runq.Keys
    && (forall t :: t in s.pc ==> s.pc[t] == Out && s.runq[t] == 0)
  }

  ghost predicate StepAt(ss: seq<State>, ts: seq<Tid>, i: nat)
    requires i < |ts| == |ss| - 1
  {
    Next(ss[i], ss[i + 1], ts[i])
  }

  ghost predicate Run(ss: seq<State>, ts: seq<Tid>) {
    |ss| == |ts| + 1 && Init(ss[0]) && forall i: nat :: i < |ts| ==> StepAt(ss, ts, i)
  }

  lemma {:induction false} RunInv(ss: seq<State>, ts: seq<Tid>, i: nat)
    requires Run(ss, ts) && i < |ss|
    ensures Inv(ss[i])
  {
    if i > 0 {
      RunInv(ss, ts, i - 1);
      assert StepAt(ss, ts, i - 1);
      NextKeeps(ss[i - 1], ss[i], ts[i - 1]);
    }
  }

  // ----- main results -----

  /** A signal or broadcast wakes only threads that are off the processor and not yet on the run
      queue, though the waiter gives its mutex up from another thread's context. */
  lemma WokenWhenAsleep(ss: seq<State>, ts: seq<Tid>, i: nat, t: Tid)
    requires Run(ss, ts) && i < |ss| && t in ss[i].pc && ss[i].pc[t].Waking?
    ensures var s, u := ss[i], ss[i].pc[t].who;
            u in s.pc && u in s.runq && s.pc[u] == Blocked && s.runq[u] == 0 && u !in s.waiters
  {
    RunInv(ss, ts, i);
    assert ThreadOk(ss[i], t);
    assert ThreadOk(ss[i], ss[i].pc[t].who);
  }

  /** No waiter is lost: a thread asleep is on the list, being woken, or on the run queue, and on
      only one of them. */
  lemma NoneLost(ss: seq<State>, ts: seq<Tid>, i: nat, t: Tid)
    requires Run(ss, ts) && i < |ss| && t in ss[i].pc
    ensures t in ss[i].runq && ss[i].runq[t] <= 1
    ensures ss[i].pc[t] == Blocked ==>
              && (t in ss[i].waiters || BeingWoken(ss[i], t) || ss[i].runq[t] == 1)
              && !(t in ss[i].waiters && BeingWoken(ss[i], t))
              && (ss[i].runq[t] == 1 ==> t !in ss[i].waiters && !BeingWoken(ss[i], t))
    ensures ss[i].pc[t] != Blocked ==> ss[i].runq[t] == 0 && !BeingWoken(ss[i], t)
  {
    RunInv(ss, ts, i);
    assert ThreadOk(ss[i], t);
  }

  // ----- one wakeup for each wait -----

  predicate Asleep(p: Pc) { p.Going? || p.Blocked? }

  /** The next step of a wakes t. */
  predicate Wakes(s: State, a: Tid, t: Tid) { a in s.pc && s.pc[a].Waking? && s.pc[a].who == t }

  /** How many of the steps k to i - 1 wake t. */
  ghost function WakesOf(ss: seq<State>, ts: seq<Tid>, t: Tid, k: nat, i: nat): nat
    requires k <= i <= |ts| == |ss| - 1
  {
    if k == i then 0 else WakesOf(ss, ts, t, k, i - 1) + if Wakes(ss[i - 1], ts[i - 1], t) then 1 else 0
  }

  /** At step k thread t puts itself on the list, and it has been off the processor since. */
  ghost predicate SleepsSince(ss: seq<State>, ts: seq<Tid>, t: Tid, k: nat, i: nat)
    requires i <= |ts| == |ss| - 1
  {
    && k < i && ts[k] == t && t in ss[k].pc && ss[k].pc[t] == Held
    && (forall m: nat :: k < m <= i ==> t in ss[m].pc && Asleep(ss[m].pc[t]))
  }

  /** What a step of a does to the sleep of t. */
  lemma SleepStep(s: State, s': State, a: Tid, t: Tid)
    requires Inv(s) && Next(s, s', a) && t in s'.pc && Asleep(s'.pc[t])
    ensures t in s.pc && t in s.runq && t in s'.runq
    ensures Asleep(s.pc[t]) ==> s'.runq[t] == s.runq[t] + if Wakes(s, a, t) then 1 else 0
    ensures !Asleep(s.pc[t]) ==> a == t && s.pc[t] == Held && s'.runq[t] == 0
  {
    assert ThreadOk(s, t) && ThreadOk(s, a);
  }

  lemma {:induction false} AsleepSince(ss: seq<State>, ts: seq<Tid>, i: nat, t: Tid) returns (k: nat)
    requires Run(ss, ts) && i < |ss| && t in ss[i].pc && Asleep(ss[i].pc[t])
    ensures SleepsSince(ss, ts, t, k, i)
    ensures t in ss[i].runq && WakesOf(ss, ts, t, k, i) == ss[i].runq[t]
  {
    RunInv(ss, ts, i - 1);
    assert StepAt(ss, ts, i - 1);
    SleepStep(ss[i - 1], ss[i], ts[i - 1], t);
    if Asleep(ss[i - 1].pc[t]) {
      k := AsleepSince(ss, ts, i - 1, t);
    } else {
      k := i - 1;
      assert WakesOf(ss, ts, t, k, k) == 0;
    }
  }

  /** A wait returns only after a wakeup addressed to it: when t is about to run again there is
      the step at which it went on the list, it has been off the processor since, and exactly one
      step in between was a signal or broadcast waking t. */
  lemma ReturnsOnWakeup(ss: seq<State>, ts: seq<Tid>, i: nat) returns (k: nat)
    requires Run(ss, ts) && i < |ts| && ts[i] in ss[i].pc && ss[i].pc[ts[i]] == Blocked
    ensures SleepsSince(ss, ts, ts[i], k, i) && WakesOf(ss, ts, ts[i], k, i) == 1
  {
    RunInv(ss, ts, i);
    k := AsleepSince(ss, ts, i, ts[i]);
    assert StepAt(ss, ts, i);
    assert ThreadOk(ss[i], ts[i]);
  }

  // ----- wakeups in the order of the waits -----

  /** The threads that went on the list in the first i steps, and those woken, in order. */
  ghost function Waited(ss: seq<State>, ts: seq<Tid>, i: nat): seq<Tid>
    requires i <= |ts| == |ss| - 1
  {
    if i == 0 then [] else Waited(ss, ts, i - 1) + Joins(ss[i - 1], ss[i], ts[i - 1])
  }

  ghost function Woken(ss: seq<State>, ts: seq<Tid>, i: nat): seq<Tid>
    requires i <= |ts| == |ss| - 1
  {
    if i == 0 then [] else Woken(ss, ts, i - 1) + WokenBy(ss[i - 1], ts[i - 1])
  }

  function Joins(s: State, s': State, t: Tid): seq<Tid> {
    if t in s.pc && t in s'.pc && s.pc[t].Held? && s'.pc[t].Going? then [t] else []
  }

  function WokenBy(s: State, t: Tid): seq<Tid> { if t in s.pc && s.pc[t].Waking? then [s.pc[t].who] else [] }

  /** The waiter that the mutex owner has taken off the list and not woken yet. */
  function InHand(s: State): seq<Tid> { if s.mtx.Some? then WokenBy(s, s.mtx.value) else [] }

  /** A step without the mutex leaves the owner's hand alone. */
  lemma HandKept(s: State, s': State, t: Tid)
    requires Inv(s) && Next(s, s', t) && !HasMutex(s.pc[t])
    ensures InHand(s') == InHand(s) && s'.waiters == s.waiters && WokenBy(s, t) == Joins(s, s', t) == []
  {
    assert ThreadOk(s, t);
  }

  lemma TakeOrder(s: State, s': State, t: Tid, all: bool)
    requires s.mtx == Some(t) && t in s.pc && !s.pc[t].Waking? && TakeFirst(s, s', t, all)
    ensures WokenBy(s, t) + InHand(s') + s'.waiters == InHand(s) + s.waiters + Joins(s, s', t)
  {
    if s.waiters != [] { assert s.waiters == [s.waiters[0]] + s.waiters[1..]; }
  }

  lemma OrderStep(s: State, s': State, t: Tid)
    requires Inv(s) && Next(s, s', t)
    ensures WokenBy(s, t) + InHand(s') + s'.waiters == InHand(s) + s.waiters + Joins(s, s', t)
  {
    assert HasMutex(s.pc[t]) ==> s.mtx == Some(t) by { assert ThreadOk(s, t); }
    if !HasMutex(s.pc[t]) { HandKept(s, s', t); }
    else if s.pc[t] == Cast { TakeOrder(s, s', t, true); }
    else if s.pc[t] == Signal { TakeOrder(s, s', t, false); }
  }

  lemma Rearranged(woken: seq<Tid>, w: seq<Tid>, h': seq<Tid>, l': seq<Tid>, h: seq<Tid>, l: seq<Tid>, j: seq<Tid>)
    requires w + h' + l' == h + l + j
    ensures (woken + w) + h' + l' == (woken + h + l) + j
  {
    assert (woken + w) + h' + l' == woken + (w + h' + l');
    assert (woken + h + l) + j == woken + (h + l + j);
  }

  /** Over any run signals and broadcasts wake the waiters in the order in which they went on the
      list, and nobody else: those woken, the one in hand and those on the list are, in this
      order, all that ever waited. */
  lemma {:induction false} WokenInOrder(ss: seq<State>, ts: seq<Tid>, i: nat)
    requires Run(ss, ts) && i < |ss|
    ensures Woken(ss, ts, i) + InHand(ss[i]) + ss[i].waiters == Waited(ss, ts, i)
  {
    if i > 0 {
      WokenInOrder(ss, ts, i - 1);
      RunInv(ss, ts, i - 1);
      assert StepAt(ss, ts, i - 1);
      var s, s', t := ss[i - 1], ss[i], ts[i - 1];
      OrderStep(s, s', t);
      Rearranged(Woken(ss, ts, i - 1), WokenBy(s, t), InHand(s'), s'.waiters, InHand(s), s.waiters, Joins(s, s', t));
    }
  }

  /** When a broadcast ends, everyone who ever waited has been woken. */
  lemma BroadcastWakesAll(ss: seq<State>, ts: seq<Tid>, i: nat)
    requires Run(ss, ts) && i < |ts| && ts[i] in ss[i].pc && ss[i].pc[ts[i]] == Cast
    requires ts[i] in ss[i + 1].pc && ss[i + 1].pc[ts[i]] == Held
    ensures Woken(ss, ts, i + 1) == Waited(ss, ts, i + 1)
  {
    WokenInOrder(ss, ts, i + 1);
    RunInv(ss, ts, i);
    assert StepAt(ss, ts, i);
    assert ThreadOk(ss[i], ts[i]);
  }

  /** Once begun, a broadcast ends only when the list is empty; and while the mutex owner is at it
      nobody is added. */
  lemma BroadcastEmpties(ss: seq<State>, ts: seq<Tid>, i: nat, t: Tid)
    requires Run(ss, ts) && i < |ts| && t in ss[i].pc &&
             (ss[i].pc[t] == Cast || (ss[i].pc[t].Waking? && ss[i].pc[t].all))
    ensures t in ss[i + 1].pc
    ensures ss[i + 1].pc[t] == Held ==> ss[i].waiters == [] && ss[i + 1].waiters == []
    ensures |ss[i + 1].waiters| <= |ss[i].waiters|
    ensures ss[i + 1].pc[t] == Held || ss[i + 1].pc[t] == Cast || (ss[i + 1].pc[t].Waking? && ss[i + 1].pc[t].all)
  {
    RunInv(ss, ts, i);
    assert StepAt(ss, ts, i);
    assert ThreadOk(ss[i], t) && ThreadOk(ss[i], ts[i]);
  }

  // ----- what one signal does -----

  /** t is in rumpuser_cv_signal. */
  ghost predicate Signalling(s: State, t: Tid) {
    t in s.pc && (s.pc[t].Signal? || (s.pc[t].Waking? && !s.pc[t].all))
  }

  /** While t is at it the list only loses its head, to t's hand. */
  ghost predicate SoFar(s: State, t: Tid, list: seq<Tid>) {
    && Signalling(s, t)
    && (s.pc[t].Signal? ==> s.waiters == list)
    && (s.pc[t].Waking? ==> list != [] && s.pc[t].who == list[0] && s.waiters == list[1..])
  }

  /** Another thread's step concerns neither the list nor the run queue. */
  lemma OthersWait(s: State, s': State, t: Tid, a: Tid)
    requires Inv(s) && Next(s, s', a) && Signalling(s, t) && a != t
    ensures s'.waiters == s.waiters && WokenBy(s, a) == [] && t in s'.pc && s'.pc[t] == s.pc[t]
  {
    assert ThreadOk(s, t) && ThreadOk(s, a);
    HandKept(s, s', a);
  }

  lemma SignalStep(s: State, s': State, t: Tid, a: Tid, list: seq<Tid>)
    requires Inv(s) && Next(s, s', a) && SoFar(s, t, list)
    ensures t in s'.pc && (SoFar(s', t, list) || s'.pc[t].Held?)
    ensures SoFar(s', t, list) ==> WokenBy(s, a) == []
    ensures s'.pc[t].Held? ==> WokenBy(s, a) == list[..if list == [] then 0 else 1]
  {
    if a != t { OthersWait(s, s', t, a); }
  }

  lemma SignalStepAt(ss: seq<State>, ts: seq<Tid>, j: nat, t: Tid, list: seq<Tid>)
    requires Run(ss, ts) && j < |ts| && SoFar(ss[j], t, list)
    ensures t in ss[j + 1].pc && (SoFar(ss[j + 1], t, list) || ss[j + 1].pc[t].Held?)
    ensures SoFar(ss[j + 1], t, list) ==> WokenBy(ss[j], ts[j]) == []
    ensures ss[j + 1].pc[t].Held? ==> WokenBy(ss[j], ts[j]) == list[..if list == [] then 0 else 1]
  {
    RunInv(ss, ts, j);
    assert StepAt(ss, ts, j);
    SignalStep(ss[j], ss[j + 1], t, ts[j], list);
  }

  lemma {:induction false} SignalSoFar(ss: seq<State>, ts: seq<Tid>, i: nat, j: nat, t: Tid)
    requires Run(ss, ts) && i <= j < |ss| && t in ss[i].pc && ss[i].pc[t].Signal?
    requires forall m :: i <= m <= j ==> Signalling(ss[m], t)
    ensures SoFar(ss[j], t, ss[i].waiters) && Woken(ss, ts, j) == Woken(ss, ts, i)
  {
    assert Signalling(ss[j], t);
    if i < j {
      SignalSoFar(ss, ts, i, j - 1, t);
      SignalStepAt(ss, ts, j - 1, t, ss[i].waiters);
    }
  }

  /** A signal that has returned has woken the thread that was first on the list when it was called,
      and no other; it wakes nobody only if the list was empty. */
  lemma SignalWakesFirst(ss: seq<State>, ts: seq<Tid>, i: nat, k: nat, t: Tid)
    requires Run(ss, ts) && i < k < |ss| && t in ss[i].pc && ss[i].pc[t].Signal?
    requires (forall m :: i <= m < k ==> Signalling(ss[m], t)) && !Signalling(ss[k], t)
    ensures t in ss[k].pc && ss[k].pc[t].Held?
    ensures Woken(ss, ts, k) == Woken(ss, ts, i) + if ss[i].waiters == [] then [] else [ss[i].waiters[0]]
  {
    SignalSoFar(ss, ts, i, k - 1, t);
    SignalStepAt(ss, ts, k - 1, t, ss[i].waiters);
  }
}
