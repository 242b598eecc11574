/** Interrupt delivery of platform/hw/intr.c: interrupt handlers post bits in a word, one thread
    takes them out and sleeps when there are none. */
module Isr {

  /** The word isr_data.todo: its top bit `todo`, by which the thread says that it is awake, and
      the set of its other bits. */
  datatype Word = Word(todo: bool, bits: set<nat>)

  const ZERO := Word(false, {})
  const TODO := Word(true, {})

  function OrBits(a: Word, b: Word): Word { Word(a.todo || b.todo, a.bits + b.bits) }

  /** `a ^ isr_handler_todo`. */
  function XorTodo(a: Word): Word { Word(!a.todo, a.bits) }

  datatype Pc =
    | Going           // has left the processor, callback not run
    | SelfWake        // callback has found bits, will wake the thread
    | Blocked         // off the processor until the run queue names it
    | First           // will exchange the word for TODO, first time since it slept
    | Work(copy: Word, total: set<nat>)  // handles the bits of isrcopy, then exchanges again

  /** `waking` counts the calls of isr that have found 0 and will wake the thread, `runq` the
      entries of the thread on the run queue. */
  datatype State = State(word: Word, pc: Pc, waking: nat, runq: nat)

  datatype Event = Thread | Wake | Post(which: Word)

  ghost predicate ThreadStep(s: State, s': State) {
    match s.pc
    case Going => s' == s.(word := XorTodo(s.word), pc := if s.word != TODO then SelfWake else Blocked)
    case SelfWake => s' == s.(runq := s.runq + 1, pc := Blocked)
    case Blocked => s.runq > 0 && s' == s.(runq := s.runq - 1, pc := First)
    case First => s' == s.(word := TODO, pc := Work(s.word, s.word.bits))
    case Work(copy, total) =>
      var again := XorTodo(s.word);
      s' == s.(word := TODO, pc := if again == ZERO then Going else Work(again, total + again.bits))
  }

  ghost predicate Next(s: State, s': State, e: Event) {
    match e
    case Thread => ThreadStep(s, s')
    case Wake => s.waking > 0 && s' == s.(waking := s.waking - 1, runq := s.runq + 1)
    case Post(which) =>
      s' == s.(word := OrBits(s.word, which), waking := s.waking + if s.word == ZERO then 1 else 0)
  }

  const START := State(TODO, Going, 0, 0)

  ghost predicate Run(ss: seq<State>, es: seq<Event>) {
    && |ss| == |es| + 1 && ss[0] == START
    && (forall i: nat {:trigger es[i]} :: i < |es| ==> Next(ss[i], ss[i + 1], es[i]))
  }

  // ----- in every run, whatever isr is given -----

  ghost predicate Base(s: State) {
    && (s.pc.Going? || s.pc.Work? ==> s.word.todo)
    && (s.pc.Blocked? && s.word != ZERO ==> s.waking > 0 || s.runq > 0)
  }

  lemma BaseKept(s: State, s': State, e: Event)
    requires Base(s) && Next(s, s', e)
    ensures Base(s')
  {
  }

  lemma {:induction false} RunBase(ss: seq<State>, es: seq<Event>, i: nat)
    requires Run(ss, es) && i < |ss|
    ensures Base(ss[i])
  {
    if i > 0 {
      RunBase(ss, es, i - 1);
      BaseKept(ss[i - 1], ss[i], es[i - 1]);
    }
  }

  /** The bits of a word, the top one included. */
  datatype Bit = Low(n: nat) | Top

  predicate Has(w: Word, b: Bit) { match b case Low(n) => n in w.bits case Top => w.todo }

  /** The exchange at the step from s to s' gives bit b to the thread as part of isrcopy. */
  ghost predicate Copied(s: State, s': State, e: Event, b: Bit) {
    && e == Thread && (s.pc.First? || s.pc.Work?) && s'.pc.Work? && Has(s'.pc.copy, b)
    && (b.Low? ==> b.n in s'.pc.total)
  }

  /** Bit b is in the word, or has been copied since step k. */
  ghost predicate Arrived(ss: seq<State>, es: seq<Event>, k: nat, j: nat, b: Bit)
    requires j < |ss| == |es| + 1
  {
    Has(ss[j].word, b) || exists i {:trigger es[i]} :: k < i < j && Copied(ss[i], ss[i + 1], es[i], b)
  }

  /** Every bit but the top one that is given to isr is, ever after, in the word or has reached an
      isrcopy. */
  lemma {:induction false} BitArrives(ss: seq<State>, es: seq<Event>, k: nat, j: nat, n: nat)
    requires Run(ss, es) && k < j < |ss| && es[k].Post? && n in es[k].which.bits
    ensures Arrived(ss, es, k, j, Low(n))
    decreases j
  {
    if k + 1 == j { assert Next(ss[k], ss[j], es[k]); }
    else {
      BitArrives(ss, es, k, j - 1, n);
      assert Next(ss[j - 1], ss[j], es[j - 1]);
      if Has(ss[j - 1].word, Low(n)) && !Has(ss[j].word, Low(n)) { assert Copied(ss[j - 1], ss[j], es[j - 1], Low(n)); }
    }
  }

  /** The bits below the top one that are in the word or with the thread. */
  ghost predicate Shows(s: State, n: nat) {
    n in s.word.bits || (s.pc.Work? && (n in s.pc.copy.bits || n in s.pc.total))
  }

  /** And no other arrives: a bit that the thread sees has been given to isr before. */
  lemma {:induction false} OnlyPosted(ss: seq<State>, es: seq<Event>, j: nat, n: nat)
    requires Run(ss, es) && j < |ss| && Shows(ss[j], n)
    ensures exists k {:trigger es[k]} :: 0 <= k < j && es[k].Post? && n in es[k].which.bits
  {
    if j > 0 {
      assert Next(ss[j - 1], ss[j], es[j - 1]);
      if Shows(ss[j - 1], n) { OnlyPosted(ss, es, j - 1, n); }
    }
  }

  /** While a bit waits the thread is not left asleep, and on its way to sleep it turns back. */
  lemma WaitingBitKeepsAwake(ss: seq<State>, es: seq<Event>, i: nat)
    requires Run(ss, es) && i < |ss|
    ensures ss[i].pc == Blocked && ss[i].word != ZERO ==> ss[i].waking > 0 || ss[i].runq > 0
    ensures ss[i].pc == Going && ss[i].word.bits != {} && i < |es| && es[i] == Thread ==> ss[i + 1].pc == SelfWake
  {
    RunBase(ss, es, i);
    if i < |es| { assert Next(ss[i], ss[i + 1], es[i]); }
  }

  // ----- the top bit -----

  predicate OffDuty(p: Pc) { p.SelfWake? || p.Blocked? || p.First? }

  lemma TopStep(s: State, s': State, e: Event)
    requires OffDuty(s.pc) && s.word.todo && Next(s, s', e)
    ensures (OffDuty(s'.pc) && s'.word.todo) || Copied(s, s', e, Top)
  {
  }

  /** The top bit given to isr while the thread is off duty reaches its next isrcopy. */
  lemma {:induction false} TopBitArrives(ss: seq<State>, es: seq<Event>, k: nat, j: nat)
    requires Run(ss, es) && k < j < |ss| && es[k].Post? && es[k].which.todo && OffDuty(ss[k].pc)
    ensures (OffDuty(ss[j].pc) && ss[j].word.todo)
         || exists i {:trigger es[i]} :: k < i < j && Copied(ss[i], ss[i + 1], es[i], Top)
    decreases j
  {
    if k + 1 == j { assert Next(ss[k], ss[j], es[k]); }
    else {
      TopBitArrives(ss, es, k, j - 1);
      assert Next(ss[j - 1], ss[j], es[j - 1]);
      if OffDuty(ss[j - 1].pc) && ss[j - 1].word.todo { TopStep(ss[j - 1], ss[j], es[j - 1]); }
    }
  }

  /** Given at any other time it is lost: the call does what the same call without it does. */
  lemma TopBitIsLost(ss: seq<State>, es: seq<Event>, k: nat)
    requires Run(ss, es) && k < |es| && es[k].Post? && !OffDuty(ss[k].pc)
    ensures Next(ss[k], ss[k + 1], Post(Word(false, es[k].which.bits)))
  {
    RunBase(ss, es, k);
    assert Next(ss[k], ss[k + 1], es[k]);
  }

  /** In every run, every bit of this argument arrives. */
  ghost predicate AlwaysArrives(which: Word) {
    forall ss: seq<State>, es: seq<Event>, k: nat, j: nat, b: Bit ::
      Run(ss, es) && k < j < |ss| && es[k] == Post(which) && Has(which, b) ==> Arrived(ss, es, k, j, b)
  }

  /** Two steps from the start: the argument is posted while the thread is about to sleep. */
  lemma LosingRun(which: Word) returns (ss: seq<State>, es: seq<Event>)
    requires which.todo
    ensures Run(ss, es) && |es| == 2 && es[0] == Post(which) && !Arrived(ss, es, 0, 2, Top)
  {
    var s1 := START.(word := OrBits(TODO, which));
    var s2 := s1.(word := XorTodo(s1.word), pc := if s1.word != TODO then SelfWake else Blocked);
    ss, es := [START, s1, s2], [Post(which), Thread];
    assert Next(START, s1, Post(which)) && Next(s1, s2, Thread);
  }

  /** All bits of an argument are delivered in all runs if and only if it is without the top bit. */
  lemma ArrivesIff(which: Word)
    ensures AlwaysArrives(which) <==> !which.todo
  {
    if which.todo { var ss, es := LosingRun(which); }
    else {
      forall ss: seq<State>, es: seq<Event>, k: nat, j: nat, b: Bit
        | Run(ss, es) && k < j < |ss| && es[k] == Post(which) && Has(which, b) ensures Arrived(ss, es, k, j, b) {
        BitArrives(ss, es, k, j, b.n);
      }
    }
  }

  // ----- waking once -----

  ghost predicate PostsFrom(es: seq<Event>, args: iset<Word>) {
    forall i :: 0 <= i < |es| && es[i].Post? ==> es[i].which in args
  }

  /** The thread is on the run queue, or about to be put there, once or not at all. */
  ghost predicate Queued(s: State, once: bool) {
    if once then (s.waking == 1 && s.runq == 0) || (s.waking == 0 && s.runq == 1) else s.waking == 0 && s.runq == 0
  }

  ghost predicate Inv(s: State) {
    && Base(s) && (s.pc.SelfWake? || s.pc.First? ==> s.word != ZERO)
    && Queued(s, s.pc.Blocked? && s.word != ZERO)
  }

  lemma NextKeeps(s: State, s': State, e: Event)
    requires Inv(s) && Next(s, s', e) && e != Post(ZERO)
    ensures Inv(s')
  {
  }

  lemma {:induction false} RunInv(ss: seq<State>, es: seq<Event>, args: iset<Word>, i: nat)
    requires Run(ss, es) && PostsFrom(es, args) && ZERO !in args && i < |ss|
    ensures Inv(ss[i])
  {
    if i > 0 {
      RunInv(ss, es, args, i - 1);
      assert Next(ss[i - 1], ss[i], es[i - 1]);
      NextKeeps(ss[i - 1], ss[i], es[i - 1]);
    }
  }

  /** Unless isr is given 0, the thread is put on the run queue once per sleep, and only while it
      is off the processor. */
  lemma WokenOnce(ss: seq<State>, es: seq<Event>, args: iset<Word>, i: nat)
    requires Run(ss, es) && PostsFrom(es, args) && ZERO !in args && i < |ss|
    ensures OnceOnly(ss[i])
    ensures ss[i].pc == SelfWake ==> ss[i].runq == 0 && ss[i].waking == 0
  {
    RunInv(ss, es, args, i);
  }

  ghost predicate OnceOnly(s: State) {
    Queued(s, false) || (Queued(s, true) && s.pc == Blocked)
  }

  /** In every run in which isr is given arguments of this set only. */
  ghost predicate AlwaysOnce(args: iset<Word>) {
    forall ss: seq<State>, es: seq<Event>, i: nat ::
      Run(ss, es) && PostsFrom(es, args) && i < |ss| ==> OnceOnly(ss[i])
  }

  /** isr(0) finds the thread asleep each time and wakes it each time. */
  lemma TwiceWoken() returns (ss: seq<State>, es: seq<Event>)
    ensures Run(ss, es) && es == [Thread, Post(ZERO), Post(ZERO)] && ss[3].pc == Blocked && ss[3].waking == 2
  {
    assert OrBits(ZERO, ZERO) == ZERO && XorTodo(TODO) == ZERO;
    var s1 := State(ZERO, Blocked, 0, 0);
    ss, es := [START, s1, s1.(waking := 1), s1.(waking := 2)], [Thread, Post(ZERO), Post(ZERO)];
    assert Next(ss[0], ss[1], es[0]);
    assert Next(ss[1], ss[2], es[1]) && Next(ss[2], ss[3], es[2]);
  }

  /** The thread is woken once per sleep in all runs if and only if isr is never given 0. */
  lemma WokenOnceIff(args: iset<Word>)
    ensures AlwaysOnce(args) <==> ZERO !in args
  {
    if ZERO in args {
      var ss, es := TwiceWoken();
      assert !OnceOnly(ss[3]);
    } else {
      forall ss: seq<State>, es: seq<Event>, i: nat | Run(ss, es) && PostsFrom(es, args) && i < |ss|
        ensures OnceOnly(ss[i])
      {
        WokenOnce(ss, es, args, i);
      }
    }
  }
}
