/** Untimed parking of lib/librumprun_base/_lwp.c: one thread that parks, any number that unpark
    or wake it. */
module Park {

  /** rl_value: RL_MASK_UNPARK is 1 and RL_MASK_PARK is 2. */
  datatype Value = Zero | Unpark | Park | Both

  function XorPark(v: Value): Value {
    match v case Zero => Park case Park => Zero case Unpark => Both case Both => Unpark
  }

  datatype Pc =
    | Outside     // not in _lwp_park
    | Enter       // will exchange the value for PARK
    | Going       // has left the processor, callback not run
    | SelfWake    // callback has found an unpark, will wake the thread
    | Blocked     // off the processor until the run queue names it
    | Clean       // awake again, will store PARK and return

  /** `token` records that an unpark was issued since _lwp_park last returned; `waking` counts
      those that found 0 and will wake the thread, `runq` its entries on the run queue. */
  datatype State = State(value: Value, pc: Pc, waking: nat, runq: nat, token: bool)

  datatype Event = Thread | Wake | DoUnpark | DoWakeup(ok: bool)

  ghost predicate ThreadStep(s: State, s': State) {
    match s.pc
    case Outside => s' == s.(pc := Enter)
    case Enter =>
      if s.value == Unpark then s' == s.(value := Park, pc := Outside, token := false)
      else s' == s.(value := Park, pc := Going)
    case Going => s' == s.(value := XorPark(s.value), pc := if s.value != Park then SelfWake else Blocked)
    case SelfWake => s' == s.(runq := s.runq + 1, pc := Blocked)
    case Blocked => s.runq > 0 && s' == s.(runq := s.runq - 1, pc := Clean)
    case Clean => s' == s.(value := Park, pc := Outside, token := false)
  }

  ghost predicate Next(s: State, s': State, e: Event) {
    match e
    case Thread => ThreadStep(s, s')
    case Wake => s.waking > 0 && s' == s.(waking := s.waking - 1, runq := s.runq + 1)
    case DoUnpark => s' == s.(value := Unpark, token := true, waking := s.waking + if s.value == Zero then 1 else 0)
    case DoWakeup(ok) =>
      && ok == (s.value == Zero)
      && s' == if ok then s.(value := Unpark, token := true, waking := s.waking + 1) else s
  }

  /** The thread is on the run queue, or about to be put there, once or not at all. */
  ghost predicate Queued(s: State, once: bool) {
    if once then (s.waking == 1 && s.runq == 0) || (s.waking == 0 && s.runq == 1) else s.waking == 0 && s.runq == 0
  }

  ghost predicate Inv(s: State) {
    && (s.pc.Outside? || s.pc.Enter? || s.pc.Going? ==> s.value == if s.token then Unpark else Park)
    && (s.pc.SelfWake? || s.pc.Clean? ==> s.token && (s.value == Unpark || s.value == Both))
    && (s.pc.Blocked? ==> s.value != Park && (s.token <==> s.value != Zero))
    && (s.pc.Blocked? ==> Queued(s, s.token))
    && (!s.pc.Blocked? ==> Queued(s, false))
  }

  lemma NextKeeps(s: State, s': State, e: Event)
    requires Inv(s) && Next(s, s', e)
    ensures Inv(s')
  {
  }

  ghost predicate Run(ss: seq<State>, es: seq<Event>) {
    && |ss| == |es| + 1 && ss[0] == State(Park, Outside, 0, 0, false)
    && (forall i: nat {:trigger es[i]} :: i < |es| ==> Next(ss[i], ss[i + 1], es[i]))
  }

  lemma {:induction false} RunInv(ss: seq<State>, es: seq<Event>, i: nat)
    requires Run(ss, es) && i < |ss|
    ensures Inv(ss[i])
  {
    if i > 0 {
      RunInv(ss, es, i - 1);
      NextKeeps(ss[i - 1], ss[i], es[i - 1]);
    }
  }

  // ----- main results -----

  /** The thread is put on the run queue once per sleep, and only while it is off the processor. */
  lemma WokenOnce(ss: seq<State>, es: seq<Event>, i: nat)
    requires Run(ss, es) && i < |ss|
    ensures ss[i].waking + ss[i].runq <= 1
    ensures ss[i].waking + ss[i].runq == 1 ==> ss[i].pc == Blocked
    ensures ss[i].pc == SelfWake ==> ss[i].runq == 0 && ss[i].waking == 0
  {
    RunInv(ss, es, i);
  }

  ghost predicate Unparks(e: Event) { e == DoUnpark || e == DoWakeup(true) }

  /** _lwp_park returns at the step from s to s'. */
  ghost predicate Returns(s: State, s': State, e: Event) {
    e == Thread && (s.pc.Enter? || s.pc.Clean?) && s'.pc.Outside?
  }

  /** _lwp_park does not return between states k + 1 and j. */
  ghost predicate Stays(ss: seq<State>, es: seq<Event>, k: nat, j: nat)
    requires j < |ss| == |es| + 1
  {
    forall i {:trigger es[i]} :: k < i < j ==> !Returns(ss[i], ss[i + 1], es[i])
  }

  lemma TokenStays(s: State, s': State, e: Event)
    requires Inv(s) && Next(s, s', e) && !Returns(s, s', e) && (s.token || Unparks(e))
    ensures s'.token
  {
  }

  lemma TokenTurnsBack(s: State, s': State)
    requires Inv(s) && s.token && ThreadStep(s, s')
    ensures (s.pc == Enter ==> s'.pc == Outside) && (s.pc == Going ==> s'.pc == SelfWake)
  {
  }

  /** No unpark is lost: until _lwp_park returns after it, the thread is not left asleep, and if it
      is on its way to sleep it turns back. */
  lemma {:induction false} UnparkArrives(ss: seq<State>, es: seq<Event>, k: nat, j: nat)
    requires Run(ss, es) && k < j < |ss| && Unparks(es[k])
    requires Stays(ss, es, k, j)
    ensures ss[j].token
    ensures ss[j].pc == Blocked ==> Queued(ss[j], true)
    ensures j < |es| && es[j] == Thread ==>
              (ss[j].pc == Enter ==> ss[j + 1].pc == Outside) && (ss[j].pc == Going ==> ss[j + 1].pc == SelfWake)
    decreases j
  {
    RunInv(ss, es, j);
    RunInv(ss, es, j - 1);
    assert Next(ss[j - 1], ss[j], es[j - 1]);
    if k + 1 < j { UnparkArrives(ss, es, k, j - 1); }
    TokenStays(ss[j - 1], ss[j], es[j - 1]);
    if j < |es| && es[j] == Thread { TokenTurnsBack(ss[j], ss[j + 1]); }
  }

  /** The token is there exactly when an unpark has come since the last return. */
  lemma {:induction false} TokenMeansUnpark(ss: seq<State>, es: seq<Event>, j: nat)
    requires Run(ss, es) && j < |ss| && ss[j].token
    ensures exists k :: 0 <= k < j && Unparks(es[k]) && Stays(ss, es, k, j)
  {
    if j > 0 {
      assert Next(ss[j - 1], ss[j], es[j - 1]);
      if Unparks(es[j - 1]) {
        assert Stays(ss, es, j - 1, j);
      } else {
        TokenMeansUnpark(ss, es, j - 1);
        var k :| 0 <= k < j - 1 && Unparks(es[k]) && Stays(ss, es, k, j - 1);
        assert Stays(ss, es, k, j);
      }
    }
  }

  /** _lwp_park returns only to an unpark issued since it last returned: it is never woken for
      nothing. */
  lemma ReturnsToUnpark(ss: seq<State>, es: seq<Event>, j: nat)
    requires Run(ss, es) && j < |es| && Returns(ss[j], ss[j + 1], es[j])
    ensures exists k :: 0 <= k < j && Unparks(es[k]) && Stays(ss, es, k, j)
  {
    RunInv(ss, es, j);
    assert Next(ss[j], ss[j + 1], es[j]);
    TokenMeansUnpark(ss, es, j);
  }

  /** No unpark has come since the last return. */
  ghost predicate NoneSince(ss: seq<State>, es: seq<Event>, j: nat)
    requires j < |ss| == |es| + 1
  {
    forall k {:trigger es[k]} :: 0 <= k < j && Unparks(es[k]) ==> !Stays(ss, es, k, j)
  }

  /** _lwp_wakeup succeeds exactly if the thread is off the processor and no unpark has come since
      it last returned; then it is the one that wakes the thread. */
  lemma WakeupIff(ss: seq<State>, es: seq<Event>, j: nat)
    requires Run(ss, es) && j < |es| && es[j].DoWakeup?
    ensures es[j].ok <==> ss[j].pc == Blocked && NoneSince(ss, es, j)
    ensures es[j].ok ==> ss[j].waking == 0 && ss[j].runq == 0 && ss[j + 1].waking == 1
    ensures !es[j].ok ==> ss[j + 1] == ss[j]
  {
    RunInv(ss, es, j);
    assert Next(ss[j], ss[j + 1], es[j]);
    if ss[j].token { TokenMeansUnpark(ss, es, j); }
    forall k | 0 <= k < j && Unparks(es[k]) && Stays(ss, es, k, j) ensures ss[j].token {
      UnparkArrives(ss, es, k, j);
    }
  }
}
