/** What the markable queue is for: a queue of sleepers or a count of wakeups that came early,
    never both. */
module SignedQueue {
  import opened Common

  type Tid = nat

  datatype Signed = Signed(q: seq<Tid>, tokens: nat)

  const EMPTY := Signed([], 0)

  ghost predicate Ok(s: Signed) { s.q == [] || s.tokens == 0 }

  /** A thread goes to sleep; it stays awake (false) if a wakeup is waiting for it. */
  function Sleep(s: Signed, t: Tid): (Signed, bool) {
    if s.tokens > 0 then (s.(tokens := s.tokens - 1), false) else (s.(q := s.q + [t]), true)
  }

  /** Wake the first sleeper; without one, the wakeup is kept. */
  function Wake(s: Signed): (Signed, Option<Tid>) {
    if s.q == [] then (s.(tokens := s.tokens + 1), None) else (s.(q := s.q[1..]), Some(s.q[0]))
  }

  /** An operation with its outcome; Silent steps do not concern the queue. */
  datatype Event = Slept(t: Tid, ok: bool) | Woke(r: Option<Tid>) | Silent

  function After(s: Signed, e: Event): Signed {
    match e
    case Slept(t, _) => Sleep(s, t).0
    case Woke(_) => Wake(s).0
    case Silent => s
  }

  /** The outcome recorded in e is the one the queue gives. */
  predicate Fits(s: Signed, e: Event) {
    match e
    case Slept(t, ok) => Sleep(s, t).1 == ok
    case Woke(r) => Wake(s).1 == r
    case Silent => true
  }

  function Replay(es: seq<Event>): Signed {
    if es == [] then EMPTY else After(Replay(es[..|es| - 1]), es[|es| - 1])
  }

  predicate Legal(es: seq<Event>) {
    es == [] || (Legal(es[..|es| - 1]) && Fits(Replay(es[..|es| - 1]), es[|es| - 1]))
  }

  lemma Snoc(es: seq<Event>, e: Event)
    requires Legal(es) && Fits(Replay(es), e)
    ensures Legal(es + [e]) && Replay(es + [e]) == After(Replay(es), e)
  {
    assert (es + [e])[..|es|] == es;
  }

  /** The threads that were queued, and the threads that were taken out, in order. */
  function In(es: seq<Event>): seq<Tid> {
    if es == [] then [] else
      var e := es[|es| - 1];
      In(es[..|es| - 1]) + if e.Slept? && e.ok then [e.t] else []
  }

  function Out(es: seq<Event>): seq<Tid> {
    if es == [] then [] else
      var e := es[|es| - 1];
      Out(es[..|es| - 1]) + if e.Woke? && e.r.Some? then [e.r.value] else []
  }

  function Sleeps(es: seq<Event>): nat {
    if es == [] then 0 else Sleeps(es[..|es| - 1]) + if es[|es| - 1].Slept? then 1 else 0
  }

  function Wakes(es: seq<Event>): nat {
    if es == [] then 0 else Wakes(es[..|es| - 1]) + if es[|es| - 1].Woke? then 1 else 0
  }

  /** Threads leave in the order in which they came; those inside are the rest; and the queue
      is the balance of sleeps and wakes, on one side only. */
  lemma {:induction false} Balance(es: seq<Event>)
    requires Legal(es)
    ensures Ok(Replay(es)) && In(es) == Out(es) + Replay(es).q
    ensures Sleeps(es) - Wakes(es) == |Replay(es).q| - Replay(es).tokens
  {
    if es != [] { Balance(es[..|es| - 1]); }
  }
}
