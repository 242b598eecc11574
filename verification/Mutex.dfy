/** The blocking mutex of lib/libbmk_rumpuser/rumpuser_synch.c on top of the signed queue:
    a fetch-add counter with hand-off.  A contended thread enters the queue only after it has
    been switched out, so a release may overtake it. */
module Mutex {
  import opened Common
  import opened SignedQueue

  datatype Pc =
    | Out
    | Entering     // rumpuser_mutex_enter, cv_mutex_enter: about to fetch_add counter
    | Spinning     // rumpuser_mutex_enter_nowrap: about to load counter
    | SpinCas      // ... saw 0, about to exchange 0 for 1
    | Trying       // rumpuser_mutex_tryenter: about to load counter
    | TryCas       // ... saw 0, about to exchange 0 for 1
    | Blocking     // counter was not 0: switched out, callback about to enqueue
    | Asleep       // in the block queue
    | Woken        // made runnable by a release (or by a stored wakeup): about to set owner
    | Got          // counter went from 0 to 1: about to set owner
    | Holds        // in the critical section
    | Leaving      // owner cleared, about to fetch_sub counter
    | Releasing    // counter was not 1: about to call bmk_block_queue_wake

  datatype State = State(counter: nat, owner: Option<Tid>, queue: Signed, pc: map<Tid, Pc>)

  // ----- steps of thread t -----

  ghost predicate At(s: State, t: Tid, p: Pc) { t in s.pc && s.pc[t] == p }

  ghost predicate Goes(s: State, s': State, t: Tid, p: Pc) {
    s' == s.(pc := s.pc[t := p])
  }

  /** A call starts; who may call rumpuser_mutex_exit is the caller's business: it is whoever
      holds the mutex, or a thread the holder has handed it to. */
  ghost predicate Call(s: State, s': State, t: Tid) {
    || (At(s, t, Out) && (Goes(s, s', t, Entering) || Goes(s, s', t, Spinning) || Goes(s, s', t, Trying)))
    || (At(s, t, Holds) && s' == s.(owner := None, pc := s.pc[t := Leaving]))
    || (exists u :: u != t && At(s, t, Holds) && At(s, u, Out) && s' == s.(pc := s.pc[t := Out][u := Holds]))
  }

  ghost predicate Enter(s: State, s': State, t: Tid) {
    && At(s, t, Entering)
    && s' == s.(counter := s.counter + 1, pc := s.pc[t := if s.counter == 0 then Got else Blocking])
  }

  /** The exchanges are weak and may fail although the counter is 0. */
  ghost predicate SpinOrTry(s: State, s': State, t: Tid) {
    || (At(s, t, Spinning) && Goes(s, s', t, if s.counter == 0 then SpinCas else Spinning))
    || (At(s, t, SpinCas) && Goes(s, s', t, Spinning))
    || (At(s, t, Trying) && Goes(s, s', t, if s.counter == 0 then TryCas else Out))
    || (At(s, t, TryCas) && Goes(s, s', t, if s.counter == 0 then TryCas else Out))
    || ((At(s, t, SpinCas) || At(s, t, TryCas)) && s.counter == 0
        && s' == s.(counter := 1, pc := s.pc[t := Got]))
  }

  ghost predicate Own(s: State, s': State, t: Tid) {
    (At(s, t, Got) || At(s, t, Woken)) && s' == s.(owner := Some(t), pc := s.pc[t := Holds])
  }

  /** block_queue_callback: enqueue, or stay awake if a wakeup is already there. */
  ghost predicate Callback(s: State, s': State, t: Tid) {
    && At(s, t, Blocking)
    && var (q, slept) := Sleep(s.queue, t);
       s' == s.(queue := q, pc := s.pc[t := if slept then Asleep else Woken])
  }

  ghost predicate Leave(s: State, s': State, t: Tid) {
    && At(s, t, Leaving) && s.counter > 0
    && s' == s.(counter := s.counter - 1, pc := s.pc[t := if s.counter == 1 then Out else Releasing])
  }

  /** bmk_block_queue_wake. */
  ghost predicate Release(s: State, s': State, t: Tid) {
    && At(s, t, Releasing)
    && var (q, woken) := Wake(s.queue);
       s' == s.(queue := q,
                pc := if woken.Some? then s.pc[t := Out][woken.value := Woken] else s.pc[t := Out])
  }

  ghost predicate Next(s: State, s': State, t: Tid) {
    || Call(s, s', t) || Enter(s, s', t) || SpinOrTry(s, s', t) || Own(s, s', t)
    || Callback(s, s', t) || Leave(s, s', t) || Release(s, s', t)
  }

  // ----- invariant -----

  /** The one permit there is while the counter is positive. */
  datatype Permit = Nowhere | Stored | With(t: Tid)

  predicate HasPermit(p: Pc) { p.Got? || p.Woken? || p.Holds? || p.Leaving? || p.Releasing? }
  predicate Counted(p: Pc) { p.Got? || p.Woken? || p.Holds? || p.Leaving? || p.Blocking? || p.Asleep? }

  ghost function Crowd(s: State): set<Tid> { set t | t in s.pc && Counted(s.pc[t]) }

  ghost predicate PermitIs(s: State, p: Permit) {
    match p
    case Nowhere => s.counter == 0 && s.queue.tokens == 0 && forall u :: u in s.pc ==> !HasPermit(s.pc[u])
    case Stored => s.counter > 0 && s.queue.tokens == 1 && forall u :: u in s.pc ==> !HasPermit(s.pc[u])
    case With(t) =>
      && s.counter > 0 && s.queue.tokens == 0
      && t in s.pc && HasPermit(s.pc[t]) && forall u :: u in s.pc && HasPermit(s.pc[u]) ==> u == t
  }

  /** The counter counts the holder and the waiters; the queue lists the sleepers. */
  ghost predicate Inv(s: State, p: Permit) {
    && PermitIs(s, p)
    && s.counter == |Crowd(s)|
    && Ok(s.queue)
    && (forall i: nat :: i < |s.queue.q| ==> At(s, s.queue.q[i], Asleep))
    && (forall i: nat, j: nat :: i < j < |s.queue.q| ==> s.queue.q[i] != s.queue.q[j])
    && (forall t :: At(s, t, Asleep) ==> t in s.queue.q)
  }

  // ----- every step keeps the invariant; p' is where the permit is afterwards -----

  lemma CallKeeps(s: State, s': State, t: Tid, p: Permit) returns (p': Permit)
    requires Inv(s, p) && Call(s, s', t)
    ensures Inv(s', p')
  {
    p' := p;
    if At(s, t, Out) || At(s', t, Leaving) { assert Crowd(s') == Crowd(s); }
    else {
      var u :| u != t && At(s, t, Holds) && At(s, u, Out) && s' == s.(pc := s.pc[t := Out][u := Holds]);
      HandOverKeeps(s, s', t, u, p);
      p' := With(u);
    }
  }

  lemma HandOverKeeps(s: State, s': State, t: Tid, u: Tid, p: Permit)
    requires Inv(s, p) && u != t && At(s, t, Holds) && At(s, u, Out) && s' == s.(pc := s.pc[t := Out][u := Holds])
    ensures Inv(s', With(u))
  {
    assert Crowd(s') == Crowd(s) - {t} + {u};
  }

  lemma EnterKeeps(s: State, s': State, t: Tid, p: Permit) returns (p': Permit)
    requires Inv(s, p) && Enter(s, s', t)
    ensures Inv(s', p')
  {
    p' := if s.counter == 0 then With(t) else p;
    assert Crowd(s') == Crowd(s) + {t};
  }

  lemma SpinOrTryKeeps(s: State, s': State, t: Tid, p: Permit) returns (p': Permit)
    requires Inv(s, p) && SpinOrTry(s, s', t)
    ensures Inv(s', p')
  {
    if At(s', t, Got) {
      p' := With(t);
      assert Crowd(s') == Crowd(s) + {t};
    } else {
      p' := p;
      assert Crowd(s') == Crowd(s);
    }
  }

  lemma OwnKeeps(s: State, s': State, t: Tid, p: Permit) returns (p': Permit)
    requires Inv(s, p) && Own(s, s', t)
    ensures Inv(s', p')
  {
    p' := p;
    assert Crowd(s') == Crowd(s);
  }

  lemma CallbackKeeps(s: State, s': State, t: Tid, p: Permit) returns (p': Permit)
    requires Inv(s, p) && Callback(s, s', t)
    ensures Inv(s', p')
  {
    p' := if s.queue.tokens > 0 then With(t) else p;
    assert Crowd(s') == Crowd(s);
  }

  lemma LeaveKeeps(s: State, s': State, t: Tid, p: Permit) returns (p': Permit)
    requires Inv(s, p) && Leave(s, s', t)
    ensures Inv(s', p')
  {
    p' := if s.counter == 1 then Nowhere else p;
    assert Crowd(s') == Crowd(s) - {t};
  }

  lemma ReleaseKeeps(s: State, s': State, t: Tid, p: Permit) returns (p': Permit)
    requires Inv(s, p) && Release(s, s', t)
    ensures Inv(s', p')
  {
    p' := if s.queue.q == [] then Stored else With(s.queue.q[0]);
    assert Crowd(s') == Crowd(s);
    var q := s.queue.q;
    assert q != [] ==> At(s, q[0], Asleep);
    forall u | At(s', u, Asleep) ensures u in s'.queue.q {
      assert At(s, u, Asleep) && (u == q[0] || u in q[1..]);
    }
  }

  lemma NextKeeps(s: State, s': State, t: Tid, p: Permit) returns (p': Permit)
    requires Inv(s, p) && Next(s, s', t)
    ensures Inv(s', p')
  {
    if Call(s, s', t) { p' := CallKeeps(s, s', t, p); }
    else if Enter(s, s', t) { p' := EnterKeeps(s, s', t, p); }
    else if SpinOrTry(s, s', t) { p' := SpinOrTryKeeps(s, s', t, p); }
    else if Own(s, s', t) { p' := OwnKeeps(s, s', t, p); }
    else if Callback(s, s', t) { p' := CallbackKeeps(s, s', t, p); }
    else if Leave(s, s', t) { p' := LeaveKeeps(s, s', t, p); }
    else { p' := ReleaseKeeps(s, s', t, p); }
  }

  // ----- runs -----

  /** rumpuser_mutex_init */
  ghost predicate Init(s: State) {
    s.counter == 0 && s.owner == None && s.queue == EMPTY && forall t :: t in s.pc ==> s.pc[t] == Out
  }

  ghost predicate Run(ss: seq<State>, ts: seq<Tid>) {
    && |ss| == |ts| + 1 && Init(ss[0])
    && (forall i: nat {:trigger ts[i]} :: i < |ts| ==> Next(ss[i], ss[i + 1], ts[i]))
  }

  lemma {:induction false} RunInv(ss: seq<State>, ts: seq<Tid>, i: nat) returns (p: Permit)
    requires Run(ss, ts) && i < |ss|
    ensures Inv(ss[i], p)
  {
    if i == 0 {
      p := Nowhere;
      assert Crowd(ss[0]) == {};
    } else {
      var q := RunInv(ss, ts, i - 1);
      p := NextKeeps(ss[i - 1], ss[i], ts[i - 1], q);
    }
  }

  // ----- main results -----

  /** At any time at most one thread holds the mutex (or is on its way in or out with it). */
  lemma MutualExclusion(ss: seq<State>, ts: seq<Tid>, i: nat, t: Tid, u: Tid)
    requires Run(ss, ts) && i < |ss| && t in ss[i].pc && u in ss[i].pc
    requires HasPermit(ss[i].pc[t]) && HasPermit(ss[i].pc[u])
    ensures t == u
  {
    var p := RunInv(ss, ts, i);
  }

  /** Exactly one permit while the counter is positive, none while it is zero: it is with one
      thread, or it is the one stored wakeup. */
  lemma OnePermit(ss: seq<State>, ts: seq<Tid>, i: nat)
    requires Run(ss, ts) && i < |ss|
    ensures var s := ss[i];
            var with := set t | t in s.pc && HasPermit(s.pc[t]);
            |with| + s.queue.tokens == if s.counter > 0 then 1 else 0
  {
    var p := RunInv(ss, ts, i);
    var s := ss[i];
    var with := set t | t in s.pc && HasPermit(s.pc[t]);
    if p.With? { assert with == {p.t}; } else { assert with == {}; }
  }

  /** No wakeup is lost: while a thread waits, the permit is with a thread that is neither
      asleep nor waiting, or it is stored and a thread that has not gone to sleep yet will find
      it.  A sleeping thread implies the former. */
  lemma NoLostWakeup(ss: seq<State>, ts: seq<Tid>, i: nat, t: Tid)
    requires Run(ss, ts) && i < |ss| && (At(ss[i], t, Blocking) || At(ss[i], t, Asleep))
    ensures var s := ss[i];
            || (exists u :: u in s.pc && HasPermit(s.pc[u]))
            || (At(s, t, Blocking) && s.queue.tokens == 1 && s.queue.q == [])
  {
    var p := RunInv(ss, ts, i);
    assert t in Crowd(ss[i]);
    if p.With? { assert HasPermit(ss[i].pc[p.t]); }
  }

  /** A stored wakeup always has a taker: some thread has been counted and has not enqueued
      itself yet. */
  lemma StoredWakeupHasTaker(ss: seq<State>, ts: seq<Tid>, i: nat)
    requires Run(ss, ts) && i < |ss| && ss[i].queue.tokens > 0
    ensures ss[i].queue.tokens == 1 && exists t :: At(ss[i], t, Blocking)
  {
    var p := RunInv(ss, ts, i);
    assert Crowd(ss[i]) != {};
    var t :| t in Crowd(ss[i]);
    assert t in ss[i].queue.q || !At(ss[i], t, Asleep);
    assert At(ss[i], t, Blocking);
  }

  /** tryenter and the spinning entry do not overtake waiters: they get in only when no thread
      holds the mutex, waits for it, or is handing it on. */
  lemma NoBarging(ss: seq<State>, ts: seq<Tid>, i: nat)
    requires Run(ss, ts) && i < |ts|
    requires At(ss[i], ts[i], SpinCas) || At(ss[i], ts[i], TryCas)
    requires At(ss[i + 1], ts[i], Got)
    ensures forall u :: u in ss[i].pc ==> !Counted(ss[i].pc[u]) && !ss[i].pc[u].Releasing?
    ensures ss[i].queue == EMPTY
  {
    var p := RunInv(ss, ts, i);
    assert Next(ss[i], ss[i + 1], ts[i]);
    assert Crowd(ss[i]) == {};
    forall u | u in ss[i].pc ensures !Counted(ss[i].pc[u]) { assert u !in Crowd(ss[i]); }
    SleeperCounts(ss[i], p);
  }

  /** Nobody holds the mutex, waits for it or is on the way in or out. */
  ghost predicate Idle(s: State) { forall u :: u in s.pc ==> !Counted(s.pc[u]) }

  /** tryenter gives up exactly when it finds the mutex in use: on an idle mutex it goes on until its
      exchange succeeds, and then it owns the mutex. */
  lemma TryFailsIff(ss: seq<State>, ts: seq<Tid>, i: nat)
    requires Run(ss, ts) && i < |ts| && (At(ss[i], ts[i], Trying) || At(ss[i], ts[i], TryCas))
    ensures At(ss[i + 1], ts[i], Out) <==> !Idle(ss[i])
    ensures Idle(ss[i]) ==> At(ss[i + 1], ts[i], TryCas) || At(ss[i + 1], ts[i], Got)
    ensures At(ss[i + 1], ts[i], Got) ==> At(ss[i], ts[i], TryCas) && ss[i + 1].counter == 1
  {
    var p := RunInv(ss, ts, i);
    var s, t := ss[i], ts[i];
    assert Next(s, ss[i + 1], t);
    if s.counter == 0 {
      assert Crowd(s) == {};
      forall u | u in s.pc ensures !Counted(s.pc[u]) { assert u !in Crowd(s); }
    } else {
      var u :| u in Crowd(s);
      assert Counted(s.pc[u]);
    }
  }

  lemma SleeperCounts(s: State, p: Permit)
    requires Inv(s, p)
    ensures s.queue.q != [] ==> s.counter > 0
  {
    if s.queue.q != [] { assert s.queue.q[0] in Crowd(s); }
  }

  /** A release wakes the first sleeper, who was asleep, or stores the wakeup; it never makes a
      second thread runnable with the mutex. */
  lemma ReleaseWakesOne(ss: seq<State>, ts: seq<Tid>, i: nat)
    requires Run(ss, ts) && i < |ts| && At(ss[i], ts[i], Releasing)
    ensures var s, s' := ss[i], ss[i + 1];
            if s.queue.q == [] then s'.queue.tokens == 1 && forall u :: At(s', u, Woken) ==> At(s, u, Woken)
            else
              && At(s, s.queue.q[0], Asleep) && At(s', s.queue.q[0], Woken)
              && (forall u :: At(s', u, Woken) ==> u == s.queue.q[0])
              && s'.queue == Signed(s.queue.q[1..], 0)
  {
    var p := RunInv(ss, ts, i);
    assert Next(ss[i], ss[i + 1], ts[i]);
    assert ss[i].queue.q != [] ==> At(ss[i], ss[i].queue.q[0], Asleep);
  }

  // ----- the mutex as a lock -----

  predicate IsIn(p: Pc) { p.Got? || p.Woken? || p.Holds? || p.Leaving? }

  /** The mutex is taken. */
  ghost predicate Taken(s: State) { exists t :: t in s.pc && IsIn(s.pc[t]) }

  /** Seen from outside it is a plain lock: a thread gets in only when the lock is free, ... */
  lemma PlainLock(ss: seq<State>, ts: seq<Tid>, i: nat, t: Tid)
    requires Run(ss, ts) && i < |ts|
    requires t in ss[i].pc && t in ss[i + 1].pc
    requires !HasPermit(ss[i].pc[t]) && (At(ss[i + 1], t, Got) || At(ss[i + 1], t, Woken))
    ensures !Taken(ss[i])
  {
    var p := RunInv(ss, ts, i);
    assert Next(ss[i], ss[i + 1], ts[i]);
    if ss[i].queue.q != [] { assert At(ss[i], ss[i].queue.q[0], Asleep); }
  }

  /** ... and it is freed only by the fetch_sub of the thread that had it: any other step leaves it
      with the same thread or hands it over whole. */
  lemma PlainUnlock(ss: seq<State>, ts: seq<Tid>, i: nat, t: Tid) returns (u: Tid)
    requires Run(ss, ts) && i < |ts| && t in ss[i].pc && IsIn(ss[i].pc[t]) && !At(ss[i], ts[i], Leaving)
    ensures u in ss[i + 1].pc && IsIn(ss[i + 1].pc[u])
    ensures u == t || (ts[i] == t && At(ss[i], t, Holds) && At(ss[i], u, Out))
  {
    var p := RunInv(ss, ts, i);
    assert Next(ss[i], ss[i + 1], ts[i]);
    assert ss[i].queue.q != [] ==> At(ss[i], ss[i].queue.q[0], Asleep);
    u := t;
    if !IsIn(ss[i + 1].pc[t]) {
      u :| u != t && At(ss[i], t, Holds) && At(ss[i], u, Out) &&
          ss[i + 1] == ss[i].(pc := ss[i].pc[t := Out][u := Holds]);
    }
  }
}
