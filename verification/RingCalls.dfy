/** What the callers of include/bmk-core/lfring.h get, over every run of the step system: an enqueue
    stores the index it was given, once; a dequeue returns one index or none. */
module RingCalls {
  import opened Common
  import opened RingSteps

  /** Thread t is in the call that it began with step i, up to k. */
  ghost predicate InCall(ss: seq<State>, ts: seq<Tid>, t: Tid, i: nat, k: nat)
    requires k <= |ts| == |ss| - 1
  {
    && i < k && ts[i] == t && t in ss[i].loc && ss[i].loc[t].Idle?
    && (forall m: nat :: i < m < k ==> t in ss[m].loc && !ss[m].loc[t].Idle?)
    && t in ss[k].loc
  }

  lemma CallStep(g: Geo, ss: seq<State>, ts: seq<Tid>, t: Tid, i: nat, k: nat)
    requires Steps(g, ss, ts) && i + 1 < k <= |ts| && InCall(ss, ts, t, i, k)
    ensures InCall(ss, ts, t, i, k - 1)
    ensures t in ss[k - 1].loc && !ss[k - 1].loc[t].Idle?
    ensures ts[k - 1] != t ==> ss[k].loc[t] == ss[k - 1].loc[t]
  {
    assert StepAt(g, ss, ts, k - 1);
  }

  // ----- enqueue -----

  /** In the loop of lfring_enqueue with index v. */
  predicate Enqueuing(l: Local, v: nat) { (l.EnqDraw? || HoldsTail(l)) && l.eidx == v }

  /** Behind the loop. */
  predicate Enqueued(l: Local) { l.EnqThrLoad? || l.EnqThrStore? || l == Idle(Stored) }

  /** The step from s to s' stores v under ticket T, in the slot of T. */
  ghost predicate StoresUnder(g: Geo, s: State, s': State, T: nat, v: nat) {
    && T !in s.m.enq && s'.m.enq == s.m.enq[T := v]
    && Sized(g, s'.m) && s'.m.slots[g.slot(T)] == Entry(g.cycle(T), true, v)
  }

  /** A step of a run, and what its thread knows before it. */
  lemma Turn(g: Geo, ss: seq<State>, ts: seq<Tid>, k: nat)
    requires Steps(g, ss, ts) && Inv(g, ss[0]) && k < |ts|
    ensures var t := ts[k]; Next(g, ss[k], ss[k + 1], t) && ThreadOk(g, ss[k].m, t, ss[k].loc[t])
  {
    assert StepAt(g, ss, ts, k);
    StepsInv(g, ss, ts, k);
  }

  lemma EnqueueTurn(g: Geo, s: State, s': State, t: Tid, v: nat)
    requires Next(g, s, s', t) && ThreadOk(g, s.m, t, s.loc[t]) && Enqueuing(s.loc[t], v)
    ensures || (Enqueuing(s'.loc[t], v) && s'.m.enq == s.m.enq)
            || (s.loc[t].EnqCas? && Enqueued(s'.loc[t]) && StoresUnder(g, s, s', s.loc[t].T, v))
  {
  }

  lemma EnqueuedTurn(g: Geo, s: State, s': State, t: Tid)
    requires Next(g, s, s', t) && Enqueued(s.loc[t]) && !s.loc[t].Idle?
    ensures Enqueued(s'.loc[t]) && s'.m.enq == s.m.enq
  {
  }

  lemma EnqueueTurnAt(g: Geo, ss: seq<State>, ts: seq<Tid>, t: Tid, k: nat, v: nat)
    requires Steps(g, ss, ts) && Inv(g, ss[0]) && k < |ts| && ts[k] == t && t in ss[k].loc && t in ss[k + 1].loc
    ensures Enqueuing(ss[k].loc[t], v) ==>
              || (Enqueuing(ss[k + 1].loc[t], v) && ss[k + 1].m.enq == ss[k].m.enq)
              || (&& ss[k].loc[t].EnqCas? && Enqueued(ss[k + 1].loc[t])
                  && StoresUnder(g, ss[k], ss[k + 1], ss[k].loc[t].T, v))
    ensures Enqueued(ss[k].loc[t]) && !ss[k].loc[t].Idle? ==>
              Enqueued(ss[k + 1].loc[t]) && ss[k + 1].m.enq == ss[k].m.enq
  {
    Turn(g, ss, ts, k);
    if Enqueuing(ss[k].loc[t], v) { EnqueueTurn(g, ss[k], ss[k + 1], t, v); }
    else if Enqueued(ss[k].loc[t]) && !ss[k].loc[t].Idle? { EnqueuedTurn(g, ss[k], ss[k + 1], t); }
  }

  /** Thread t stores nothing with the steps from i to k - 1, but for step j. */
  ghost predicate NoStore(ss: seq<State>, ts: seq<Tid>, t: Tid, i: nat, k: nat, j: int)
    requires k <= |ts| == |ss| - 1
  {
    forall m: nat {:trigger ts[m]} :: i <= m < k && m != j && ts[m] == t ==> ss[m + 1].m.enq == ss[m].m.enq
  }

  /** What a call of lfring_enqueue with index v has done by step k: nothing yet, or its store, at
      step j and under ticket T. */
  lemma {:induction false} EnqueueSoFar(g: Geo, ss: seq<State>, ts: seq<Tid>, t: Tid, i: nat, k: nat, v: nat)
    returns (j: int, T: nat)
    requires Steps(g, ss, ts) && Inv(g, ss[0]) && k <= |ts| && InCall(ss, ts, t, i, k)
    requires t in ss[i + 1].loc && ss[i + 1].loc[t].EnqDraw? && ss[i + 1].loc[t].eidx == v
    ensures if j < 0 then Enqueuing(ss[k].loc[t], v)
            else i < j < k && ts[j] == t && Enqueued(ss[k].loc[t]) && StoresUnder(g, ss[j], ss[j + 1], T, v)
    ensures NoStore(ss, ts, t, i, k, j)
    decreases k
  {
    if k == i + 1 {
      assert StepAt(g, ss, ts, i);
      return -1, 0;
    }
    CallStep(g, ss, ts, t, i, k);
    j, T := EnqueueSoFar(g, ss, ts, t, i, k - 1, v);
    if ts[k - 1] == t {
      EnqueueTurnAt(g, ss, ts, t, k - 1, v);
      if j < 0 && !Enqueuing(ss[k].loc[t], v) { j, T := k - 1, ss[k - 1].loc[t].T; }
    }
  }

  lemma StoredStays(g: Geo, first: nat -> nat, i0: Start0, ss: seq<State>, ts: seq<Tid>, i: nat, k: nat, T: nat)
    requires Run(g, first, i0, ss, ts) && i <= k < |ss| && T in ss[i].m.enq
    ensures T in ss[k].m.enq && ss[k].m.enq[T] == ss[i].m.enq[T]
  {
    RunForward(g, first, i0, ss, ts, i, k);
  }

  /** A call of lfring_enqueue with index v that has left its loop by step k has stored exactly once,
      at step j and under a ticket T not used before: then the slot of T held v under the cycle of T,
      and v is what is recorded under T ever after. */
  lemma EnqueueStores(g: Geo, first: nat -> nat, i0: Start0, ss: seq<State>, ts: seq<Tid>, t: Tid, i: nat, k: nat)
    returns (j: nat, T: nat)
    requires Run(g, first, i0, ss, ts) && k <= |ts| && InCall(ss, ts, t, i, k)
    requires t in ss[i + 1].loc && ss[i + 1].loc[t].EnqDraw? && Enqueued(ss[k].loc[t])
    ensures i < j < k && ts[j] == t && StoresUnder(g, ss[j], ss[j + 1], T, ss[i + 1].loc[t].eidx)
    ensures NoStore(ss, ts, t, i, k, j)
    ensures T in ss[k].m.enq && ss[k].m.enq[T] == ss[i + 1].loc[t].eidx
  {
    var v := ss[i + 1].loc[t].eidx;
    InitInv(g, first, i0, ss[0]);
    var j0, T0 := EnqueueSoFar(g, ss, ts, t, i, k, v);
    j, T := j0, T0;
    StoredStays(g, first, i0, ss, ts, j + 1, k, T);
  }

  /** A call of lfring_enqueue that returns answers true. */
  lemma EnqueueAnswers(g: Geo, first: nat -> nat, i0: Start0, ss: seq<State>, ts: seq<Tid>, t: Tid, i: nat, k: nat)
    requires Run(g, first, i0, ss, ts) && k <= |ts| && InCall(ss, ts, t, i, k)
    requires t in ss[i + 1].loc && ss[i + 1].loc[t].EnqDraw? && ss[k].loc[t].Idle?
    ensures ss[k].loc[t] == Idle(Stored)
  {
    InitInv(g, first, i0, ss[0]);
    var j, T := EnqueueSoFar(g, ss, ts, t, i, k, ss[i + 1].loc[t].eidx);
  }

  // ----- dequeue -----

  /** In lfring_dequeue, with nothing returned yet. */
  predicate Dequeuing(l: Local) {
    || l.DeqThrLoad? || l.DeqDraw? || HoldsHead(l) || l.DeqTail? || l.CatchCas? || l.CatchHead? || l.CatchTail?
    || l.DeqSubEmpty? || l.DeqSubTest?
  }

  /** In a call of lfring_dequeue with nonempty. */
  predicate SaysNonempty(l: Local) { (l.DeqDraw? || HoldsHead(l)) && l.ne }

  /** Thread t returns v under ticket H: it drew the ticket, v was stored under it, and nothing had
      been returned under it. */
  ghost predicate ReturnsUnder(s: State, s': State, t: Tid, H: nat, v: nat) {
    && H in s.m.drawer && s.m.drawer[H] == t && H in s.m.enq && s.m.enq[H] == v
    && H !in s.m.deq && s'.m.deq == s.m.deq[H := v]
  }

  lemma DequeueTurn(g: Geo, s: State, s': State, t: Tid)
    requires Next(g, s, s', t) && ThreadOk(g, s.m, t, s.loc[t]) && Dequeuing(s.loc[t])
    ensures || (s'.m.deq == s.m.deq && (Dequeuing(s'.loc[t]) || s'.loc[t] == Idle(Empty)))
            || (&& s.loc[t].DeqTake? && s'.loc[t] == Idle(Got(s.loc[t].i))
                && ReturnsUnder(s, s', t, s.loc[t].H, s.loc[t].i))
  {
  }

  lemma NonemptyTurn(g: Geo, s: State, s': State, t: Tid)
    requires Next(g, s, s', t) && SaysNonempty(s.loc[t])
    ensures SaysNonempty(s'.loc[t]) || (s'.loc[t].Idle? && s'.loc[t] != Idle(Empty))
  {
  }

  lemma DequeueTurnAt(g: Geo, ss: seq<State>, ts: seq<Tid>, t: Tid, k: nat)
    requires Steps(g, ss, ts) && Inv(g, ss[0]) && k < |ts| && ts[k] == t && t in ss[k].loc && t in ss[k + 1].loc
    requires Dequeuing(ss[k].loc[t])
    ensures || (ss[k + 1].m.deq == ss[k].m.deq && (Dequeuing(ss[k + 1].loc[t]) || ss[k + 1].loc[t] == Idle(Empty)))
            || (&& ss[k].loc[t].DeqTake? && ss[k + 1].loc[t] == Idle(Got(ss[k].loc[t].i))
                && ReturnsUnder(ss[k], ss[k + 1], t, ss[k].loc[t].H, ss[k].loc[t].i))
    ensures SaysNonempty(ss[k].loc[t]) ==>
              SaysNonempty(ss[k + 1].loc[t]) || (ss[k + 1].loc[t].Idle? && ss[k + 1].loc[t] != Idle(Empty))
  {
    Turn(g, ss, ts, k);
    DequeueTurn(g, ss[k], ss[k + 1], t);
    if SaysNonempty(ss[k].loc[t]) { NonemptyTurn(g, ss[k], ss[k + 1], t); }
  }

  /** Thread t returns nothing with the steps from i to k - 1. */
  ghost predicate NoReturn(ss: seq<State>, ts: seq<Tid>, t: Tid, i: nat, k: nat)
    requires k <= |ts| == |ss| - 1
  {
    forall m: nat {:trigger ts[m]} :: i <= m < k && ts[m] == t ==> ss[m + 1].m.deq == ss[m].m.deq
  }

  ghost predicate BeginsDequeue(ss: seq<State>, t: Tid, i: nat)
    requires i + 1 < |ss|
  {
    t in ss[i + 1].loc && Dequeuing(ss[i + 1].loc[t])
  }

  lemma {:induction false} DequeueSoFar(g: Geo, ss: seq<State>, ts: seq<Tid>, t: Tid, i: nat, k: nat)
    requires Steps(g, ss, ts) && Inv(g, ss[0]) && k <= |ts| && InCall(ss, ts, t, i, k) && BeginsDequeue(ss, t, i)
    requires !ss[k].loc[t].Idle?
    ensures Dequeuing(ss[k].loc[t]) && NoReturn(ss, ts, t, i, k)
    ensures SaysNonempty(ss[i + 1].loc[t]) ==> SaysNonempty(ss[k].loc[t])
    decreases k
  {
    if k == i + 1 {
      assert StepAt(g, ss, ts, i);
    } else {
      CallStep(g, ss, ts, t, i, k);
      DequeueSoFar(g, ss, ts, t, i, k - 1);
      if ts[k - 1] == t {
        DequeueTurnAt(g, ss, ts, t, k - 1);
      }
    }
  }

  /** A call of lfring_dequeue that returns at step k - 1 has returned nothing before, and then either
      answers an index, the one stored under a ticket H that it drew and under which nothing had been
      returned, and that is now recorded as returned; or it answers EMPTY, returns nothing at all,
      and was not called with nonempty. */
  lemma DequeueReturns(g: Geo, first: nat -> nat, i0: Start0, ss: seq<State>, ts: seq<Tid>, t: Tid, i: nat, k: nat)
    returns (H: nat)
    requires Run(g, first, i0, ss, ts) && k <= |ts| && InCall(ss, ts, t, i, k) && BeginsDequeue(ss, t, i)
    requires ss[k].loc[t].Idle?
    ensures i + 1 < k && ts[k - 1] == t && NoReturn(ss, ts, t, i, k - 1)
    ensures ss[k].loc[t].last.Empty? || ss[k].loc[t].last.Got?
    ensures ss[k].loc[t].last.Empty? ==> ss[k].m.deq == ss[k - 1].m.deq && !SaysNonempty(ss[i + 1].loc[t])
    ensures ss[k].loc[t].last.Got? ==> ReturnsUnder(ss[k - 1], ss[k], t, H, ss[k].loc[t].last.v)
  {
    InitInv(g, first, i0, ss[0]);
    CallStep(g, ss, ts, t, i, k);
    DequeueSoFar(g, ss, ts, t, i, k - 1);
    DequeueTurnAt(g, ss, ts, t, k - 1);
    H := if ss[k - 1].loc[t].DeqTake? then ss[k - 1].loc[t].H else 0;
  }
}
