/** Thread exit and join of lib/libbmk_core/sched.c: an exiting thread and its joiner meet twice,
    on the words bt_join and bt_exit, before the exited thread may be reaped. */
module Join {

  /** Thread addresses: `exiter` and `joiner` stand for the two threads; both are above 2. */
  datatype Threads = Threads(exiter: int, joiner: int)

  predicate Addresses(a: Threads) { a.exiter > 2 && a.joiner > 2 && a.exiter != a.joiner }

  /** A thread in join_wait. */
  datatype Wait = Before | Going | SelfWake | Blocked | Through

  /** A thread in join_post: `Waking(who)` holds the thread it has read from the word. */
  datatype Post = Unposted | Waking(who: int) | Posted

  /** The life of the exited thread after its two calls. */
  datatype Fate = Alive | Zombie | Reaped

  /** The exiting thread posts bt_join and then waits on bt_exit; its joiner waits on bt_join and
      then posts bt_exit.  `runE` and `runJ` count their entries on the run queue. */
  datatype State = State(join: int, exit: int, ePost: Post, eWait: Wait, fate: Fate, jWait: Wait, jPost: Post,
                         runE: nat, runJ: nat)

  datatype Event = Exiter | Joiner | Reaper

  // ----- join_wait and join_post on one word, by the thread `me` -----

  /** `runq` counts the entries of the waiting thread. */
  ghost predicate WaitStep(me: int, v: int, w: Wait, runq: nat, v': int, w': Wait, runq': nat) {
    match w
    case Before => v' == v - 1 && runq' == runq && w' == if v == 1 then Going else Through
    case Going => v' == me && runq' == runq && w' == if v == 1 then SelfWake else Blocked
    case SelfWake => v' == v && runq' == runq + 1 && w' == Blocked
    case Blocked => v' == v && runq > 0 && runq' == runq - 1 && w' == Through
    case Through => false
  }

  ghost predicate PostStep(v: int, p: Post, v': int, p': Post) {
    p == Unposted && v' == v + 1 && p' == if v > 1 then Waking(v) else Posted
  }

  // ----- the two threads and the reaper -----

  /** The wake that ends join_post, by thread address. */
  ghost predicate WakeStep(a: Threads, who: int, s: State, s': State) {
    if who == a.exiter then s' == s.(runE := s.runE + 1)
    else if who == a.joiner then s' == s.(runJ := s.runJ + 1)
    else false
  }

  ghost predicate ExiterStep(a: Threads, s: State, s': State) {
    if s.ePost == Unposted then
      PostStep(s.join, s.ePost, s'.join, s'.ePost) && s' == s.(join := s'.join, ePost := s'.ePost)
    else if s.ePost.Waking? then WakeStep(a, s.ePost.who, s.(ePost := Posted), s')
    else if s.eWait != Through then
      && WaitStep(a.exiter, s.exit, s.eWait, s.runE, s'.exit, s'.eWait, s'.runE)
      && s' == s.(exit := s'.exit, eWait := s'.eWait, runE := s'.runE)
    else s.fate == Alive && s' == s.(fate := Zombie)
  }

  ghost predicate JoinerStep(a: Threads, s: State, s': State) {
    if s.jWait != Through then
      && WaitStep(a.joiner, s.join, s.jWait, s.runJ, s'.join, s'.jWait, s'.runJ)
      && s' == s.(join := s'.join, jWait := s'.jWait, runJ := s'.runJ)
    else if s.jPost == Unposted then
      PostStep(s.exit, s.jPost, s'.exit, s'.jPost) && s' == s.(exit := s'.exit, jPost := s'.jPost)
    else s.jPost.Waking? && WakeStep(a, s.jPost.who, s.(jPost := Posted), s')
  }

  ghost predicate Next(a: Threads, s: State, s': State, e: Event) {
    match e
    case Exiter => ExiterStep(a, s, s')
    case Joiner => JoinerStep(a, s, s')
    case Reaper => s.fate == Zombie && s' == s.(fate := Reaped)
  }

  // ----- invariant of one word: waiter `me` at w with runq entries, poster at p -----

  ghost predicate Meeting(me: int, v: int, w: Wait, runq: nat, p: Post) {
    && (p.Waking? ==> p.who == me)
    && (w == Before ==> v == (if p == Unposted then 1 else 2) && !p.Waking? && runq == 0)
    && (w == Going ==> v == (if p == Unposted then 0 else 1) && !p.Waking? && runq == 0)
    && (w == SelfWake ==> v == me && p == Posted && runq == 0)
    && (w == Blocked && p == Unposted ==> v == me && runq == 0)
    && (w == Blocked && p.Waking? ==> runq == 0)
    && (w == Blocked && p == Posted ==> runq == 1)
    && (w == Through ==> p == Posted && runq == 0)
  }

  ghost predicate Inv(a: Threads, s: State) {
    && Meeting(a.joiner, s.join, s.jWait, s.runJ, s.ePost)
    && Meeting(a.exiter, s.exit, s.eWait, s.runE, s.jPost)
    && (s.ePost != Posted ==> s.eWait == Before)
    && (s.jWait != Through ==> s.jPost == Unposted)
    && (s.fate != Alive ==> s.eWait == Through)
  }

  lemma NextKeeps(a: Threads, s: State, s': State, e: Event)
    requires Addresses(a) && Inv(a, s) && Next(a, s, s', e)
    ensures Inv(a, s')
  {
  }

  ghost predicate Run(a: Threads, ss: seq<State>, es: seq<Event>) {
    && |ss| == |es| + 1 && ss[0] == State(1, 1, Unposted, Before, Alive, Before, Unposted, 0, 0)
    && (forall i: nat {:trigger es[i]} :: i < |es| ==> Next(a, ss[i], ss[i + 1], es[i]))
  }

  lemma {:induction false} RunInv(a: Threads, ss: seq<State>, es: seq<Event>, i: nat)
    requires Addresses(a) && Run(a, ss, es) && i < |ss|
    ensures Inv(a, ss[i])
  {
    if i > 0 {
      RunInv(a, ss, es, i - 1);
      NextKeeps(a, ss[i - 1], ss[i], es[i - 1]);
    }
  }

  // ----- main results -----

  /** Each of the two is put on the run queue at most once per sleep, and only while it is off the
      processor: a thread that is about to be woken, by the other's post or by its own callback,
      is not on the run queue. */
  lemma WokenOnce(a: Threads, ss: seq<State>, es: seq<Event>, i: nat)
    requires Addresses(a) && Run(a, ss, es) && i < |ss|
    ensures var s := ss[i];
            && s.runJ <= 1 && s.runE <= 1
            && (s.runJ == 1 ==> s.jWait == Blocked) && (s.runE == 1 ==> s.eWait == Blocked)
            && (s.ePost.Waking? ==> s.ePost.who == a.joiner && s.jWait == Blocked && s.runJ == 0)
            && (s.jPost.Waking? ==> s.jPost.who == a.exiter && s.eWait == Blocked && s.runE == 0)
            && (s.jWait == SelfWake ==> s.runJ == 0) && (s.eWait == SelfWake ==> s.runE == 0)
  {
    RunInv(a, ss, es, i);
  }

  /** Nobody is left asleep: a thread blocked on a word that has been posted is on the run queue
      or is being put there. */
  lemma NotLeftAsleep(a: Threads, ss: seq<State>, es: seq<Event>, i: nat)
    requires Addresses(a) && Run(a, ss, es) && i < |ss|
    ensures ss[i].jWait == Blocked && ss[i].ePost == Posted ==> ss[i].runJ == 1
    ensures ss[i].eWait == Blocked && ss[i].jPost == Posted ==> ss[i].runE == 1
  {
    RunInv(a, ss, es, i);
  }

  /** bmk_sched_join returns, and goes on to post, only when the thread has posted its exit; and
      the exited thread is not even a zombie, let alone reaped, before the joiner is done with
      it. */
  lemma ReapedAfterJoin(a: Threads, ss: seq<State>, es: seq<Event>, i: nat)
    requires Addresses(a) && Run(a, ss, es) && i < |ss|
    ensures ss[i].jWait == Through ==> ss[i].ePost == Posted
    ensures ss[i].fate != Alive ==> ss[i].jWait == Through && ss[i].jPost == Posted
  {
    RunInv(a, ss, es, i);
  }
}
