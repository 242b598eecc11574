/** The wake-up handshake of platform/hw/xen/backend.c and frontend.c: one receiver thread, any
    number of senders in another domain, a `readers` word and an event channel between them, and
    packet buffers whose indices cycle through a free ring and an active ring.  The rings are
    taken as first-in first-out sequences of indices. */
module Handshake {
  import opened Common

  type Tid = nat
  type Packet = seq<nat>

  datatype Sender =
    | Idle                     // not sending
    | Fill(i: nat)             // has a free index and copies a packet into its buffer
    | Full(i: nat, p: Packet)  // has copied packet p
    | Check                    // has put the index on the active ring, will load readers
    | Notify                   // has seen readers <= 0, will send the event

  datatype Receiver =
    | Poll(fails: nat)         // will take from the active ring
    | Work(i: nat)             // has taken an index and hands its packet on
    | Give(i: nat)             // will put the index back on the free ring
    | Quiet                    // will store readers = -1
    | Last                     // will take from the active ring once more
    | Going                    // has left the processor, callback not run
    | SelfWake                 // callback has found readers changed, will wake the thread
    | Blocked                  // off the processor until the run queue names it

  /** The words of the handshake: `handlers` counts event handlers that have not exchanged
      readers, `waking` those that have and will wake the thread, `runq` the entries of the
      thread on the run queue. */
  datatype Bell = Bell(readers: int, pending: bool, handlers: nat, waking: nat, runq: nat)

  datatype Place = InFree | BySender(t: Tid) | InActive | ByReceiver

  /** The rings and buffers; `own` records where each index is, `sent` and `delivered` the packets
      in the order put on the active ring and handed on. */
  datatype Rings = Rings(free: seq<nat>, active: seq<nat>, slots: seq<Packet>, own: seq<Place>,
                         sent: seq<Packet>, delivered: seq<Packet>)

  datatype State = State(bell: Bell, rings: Rings, recv: Receiver, send: map<Tid, Sender>)

  const FAILS: nat := 256

  // ----- steps -----

  ghost predicate SendStep(b: Bell, r: Rings, t: Tid, p: Sender, b': Bell, r': Rings, p': Sender) {
    match p
    case Idle =>
      && b' == b
      && (if r.free == [] then r' == r && p' == Idle
          else
            && r.free[0] < |r.own| && p' == Fill(r.free[0])
            && r' == r.(free := r.free[1..], own := r.own[r.free[0] := BySender(t)]))
    case Fill(i) =>
      && b' == b && i < |r.slots| == |r'.slots| && r' == r.(slots := r.slots[i := r'.slots[i]])
      && (p' == p || p' == Full(i, r'.slots[i]))
    case Full(i, x) =>
      && b' == b && i < |r.own| && p' == Check
      && r' == r.(active := r.active + [i], own := r.own[i := InActive], sent := r.sent + [x])
    case Check => b' == b && r' == r && p' == if b.readers <= 0 then Notify else Idle
    case Notify => b' == b.(pending := true) && r' == r && p' == Idle
  }

  ghost predicate Takes(r: Rings, r': Rings, p': Receiver) {
    && r.active != [] && r.active[0] < |r.own| && p' == Work(r.active[0])
    && r' == r.(active := r.active[1..], own := r.own[r.active[0] := ByReceiver])
  }

  ghost predicate RecvStep(b: Bell, r: Rings, p: Receiver, b': Bell, r': Rings, p': Receiver) {
    match p
    case Poll(f) =>
      && b' == b
      && (if r.active != [] then Takes(r, r', p')
          else r' == r && p' == if f + 1 < FAILS then Poll(f + 1) else Quiet)
    case Work(i) => b' == b && i < |r.slots| && r' == r.(delivered := r.delivered + [r.slots[i]]) && p' == Give(i)
    case Give(i) =>
      && b' == b && i < |r.own| && r' == r.(free := r.free + [i], own := r.own[i := InFree]) && p' == Poll(0)
    case Quiet => b' == b.(readers := -1) && r' == r && p' == Last
    case Last => b' == b && if r.active != [] then Takes(r, r', p') else r' == r && p' == Going
    case Going =>
      && r' == r
      && (if b.readers == -1 then b' == b.(readers := 0) && p' == Blocked else b' == b && p' == SelfWake)
    case SelfWake => r' == r && b' == b.(runq := b.runq + 1) && p' == Blocked
    case Blocked => r' == r && b.runq > 0 && b' == b.(runq := b.runq - 1) && p' == Poll(0)
  }

  /** Delivery of the event, the handler's exchange, and the handler's wake. */
  ghost predicate BellStep(b: Bell, b': Bell) {
    || (b.pending && b' == b.(pending := false, handlers := b.handlers + 1))
    || (b.handlers > 0 && b' == b.(handlers := b.handlers - 1, readers := 1,
                                   waking := b.waking + if b.readers == 0 then 1 else 0))
    || (b.waking > 0 && b' == b.(waking := b.waking - 1, runq := b.runq + 1))
  }

  datatype Actor = TheReceiver | TheBell | ASender(t: Tid)

  ghost predicate Next(s: State, s': State, a: Actor) {
    match a
    case TheReceiver => s'.send == s.send && RecvStep(s.bell, s.rings, s.recv, s'.bell, s'.rings, s'.recv)
    case TheBell => s' == s.(bell := s'.bell) && BellStep(s.bell, s'.bell)
    case ASender(t) =>
      && t in s.send && t in s'.send && s'.recv == s.recv && s'.send == s.send[t := s'.send[t]]
      && SendStep(s.bell, s.rings, t, s.send[t], s'.bell, s'.rings, s'.send[t])
  }

  // ----- invariant: the bell -----

  /** readers is 0 exactly while the receiver is blocked with nobody about to wake it. */
  ghost predicate BellOk(b: Bell, p: Receiver) {
    && (b.readers == -1 || b.readers == 0 || b.readers == 1)
    && (if p.Blocked? then b.waking + b.runq == (if b.readers == 0 then 0 else 1) && b.readers >= 0
        else b.readers != 0 && b.waking == 0 && b.runq == 0)
    && (p.SelfWake? ==> b.readers == 1)
  }

  ghost predicate Ringing(send: map<Tid, Sender>) {
    exists t :: t in send && (send[t].Check? || send[t].Notify?)
  }

  /** A packet on the active ring is not left behind by a receiver going to sleep. */
  ghost predicate Heard(b: Bell, r: Rings, p: Receiver, send: map<Tid, Sender>) {
    (p.Going? || p.Blocked?) && b.readers <= 0 && r.active != [] ==> b.pending || b.handlers > 0 || Ringing(send)
  }

  // ----- invariant: the buffers -----

  ghost predicate RingsOk(r: Rings) {
    && |r.slots| == |r.own| && Distinct(r.free) && Distinct(r.active)
    && (forall k :: 0 <= k < |r.free| ==> r.free[k] < |r.own| && r.own[r.free[k]] == InFree)
    && (forall k :: 0 <= k < |r.active| ==> r.active[k] < |r.own| && r.own[r.active[k]] == InActive)
    && (forall i :: 0 <= i < |r.own| && r.own[i] == InFree ==> i in r.free)
    && (forall i :: 0 <= i < |r.own| && r.own[i] == InActive ==> i in r.active)
  }

  ghost predicate SenderHas(p: Sender, i: nat) { (p.Fill? || p.Full?) && p.i == i }
  ghost predicate ReceiverHas(p: Receiver, i: nat) { (p.Work? || p.Give?) && p.i == i }

  ghost predicate SenderOk(r: Rings, t: Tid, p: Sender) {
    && (p.Fill? || p.Full? ==> p.i < |r.own| && r.own[p.i] == BySender(t))
    && (forall i :: 0 <= i < |r.own| && r.own[i] == BySender(t) ==> SenderHas(p, i))
    && (p.Full? ==> p.i < |r.slots| && r.slots[p.i] == p.p)
  }

  ghost predicate ReceiverOk(r: Rings, p: Receiver) {
    && (p.Work? || p.Give? ==> p.i < |r.own| && r.own[p.i] == ByReceiver)
    && (forall i :: 0 <= i < |r.own| && r.own[i] == ByReceiver ==> ReceiverHas(p, i))
  }

  ghost function Packets(slots: seq<Packet>, q: seq<nat>): seq<Packet>
    requires forall k :: 0 <= k < |q| ==> q[k] < |slots|
  {
    seq(|q|, k requires 0 <= k < |q| => slots[q[k]])
  }

  /** What has been put on the active ring is what has been handed on, what the receiver is
      handing on, and what waits, in this order. */
  ghost predicate DataOk(r: Rings, p: Receiver) {
    && (forall k :: 0 <= k < |r.active| ==> r.active[k] < |r.slots|)
    && (p.Work? ==> p.i < |r.slots|)
    && r.sent == r.delivered + (if p.Work? then [r.slots[p.i]] else []) + Packets(r.slots, r.active)
  }

  ghost predicate BuffersOk(s: State) {
    && RingsOk(s.rings) && ReceiverOk(s.rings, s.recv) && DataOk(s.rings, s.recv)
    && (forall t :: t in s.send ==> SenderOk(s.rings, t, s.send[t]))
    && (forall i :: 0 <= i < |s.rings.own| && s.rings.own[i].BySender? ==> s.rings.own[i].t in s.send)
  }

  ghost predicate Inv(s: State) {
    && BellOk(s.bell, s.recv) && Heard(s.bell, s.rings, s.recv, s.send)
    && BuffersOk(s)
  }

  // ----- the bell is kept -----

  lemma BellKept(s: State, s': State, a: Actor)
    requires BellOk(s.bell, s.recv) && Next(s, s', a)
    ensures BellOk(s'.bell, s'.recv)
  {
  }

  lemma StillRinging(s: State, s': State, t: Tid)
    requires Ringing(s.send) && t in s.send && t in s'.send && s'.send == s.send[t := s'.send[t]]
    requires s.send[t].Check? || s.send[t].Notify? ==> s'.send[t].Check? || s'.send[t].Notify?
    ensures Ringing(s'.send)
  {
    var u :| u in s.send && (s.send[u].Check? || s.send[u].Notify?);
    assert s'.send[u].Check? || s'.send[u].Notify?;
  }

  lemma HeardKept(s: State, s': State, a: Actor)
    requires BellOk(s.bell, s.recv) && Heard(s.bell, s.rings, s.recv, s.send) && Next(s, s', a)
    ensures Heard(s'.bell, s'.rings, s'.recv, s'.send)
  {
    if a.ASender? {
      var t := a.t;
      if s'.send[t].Check? || s'.send[t].Notify? { assert Ringing(s'.send); }
      else if Ringing(s.send) && !s.send[t].Check? && !s.send[t].Notify? { StillRinging(s, s', t); }
    }
  }

  // ----- the buffers are kept -----

  lemma TakeFree(r: Rings, t: Tid, r': Rings)
    requires RingsOk(r) && r.free != [] && r' == r.(free := r.free[1..], own := r.own[r.free[0] := BySender(t)])
    ensures RingsOk(r')
  {
  }

  lemma TakeActive(r: Rings, r': Rings, p': Receiver)
    requires RingsOk(r) && Takes(r, r', p')
    ensures RingsOk(r')
  {
  }

  lemma PutActive(r: Rings, i: nat, x: Packet, r': Rings)
    requires RingsOk(r) && i < |r.own| && r.own[i].BySender?
    requires r' == r.(active := r.active + [i], own := r.own[i := InActive], sent := r.sent + [x])
    ensures RingsOk(r')
  {
    assert i in r'.active;
  }

  lemma PutFree(r: Rings, i: nat, r': Rings)
    requires RingsOk(r) && i < |r.own| && r.own[i] == ByReceiver
    requires r' == r.(free := r.free + [i], own := r.own[i := InFree])
    ensures RingsOk(r')
  {
    assert i in r'.free;
  }

  /** Moving index i from one place to another concerns only the threads named by the two. */
  lemma Bystander(r: Rings, i: nat, place: Place, r': Rings, u: Tid, q: Sender)
    requires SenderOk(r, u, q) && i < |r.own| && r'.slots == r.slots && r'.own == r.own[i := place]
    requires r.own[i] != BySender(u) && place != BySender(u)
    ensures SenderOk(r', u, q)
  {
  }

  lemma BystandingReceiver(r: Rings, i: nat, place: Place, r': Rings, q: Receiver)
    requires ReceiverOk(r, q) && i < |r.own| && r'.own == r.own[i := place]
    requires r.own[i] != ByReceiver && place != ByReceiver
    ensures ReceiverOk(r', q)
  {
  }

  lemma RingsKept(s: State, s': State, a: Actor)
    requires Inv(s) && Next(s, s', a)
    ensures RingsOk(s'.rings)
  {
    var r, r' := s.rings, s'.rings;
    if a.ASender? {
      var t, p := a.t, s.send[a.t];
      assert SenderOk(r, t, p);
      if p.Idle? && r.free != [] { TakeFree(r, t, r'); }
      if p.Full? { PutActive(r, p.i, p.p, r'); }
    } else if a.TheReceiver? {
      if Takes(r, r', s'.recv) { TakeActive(r, r', s'.recv); }
      else if s.recv.Give? { PutFree(r, s.recv.i, r'); }
    }
  }

  lemma SenderSelf(r: Rings, b: Bell, t: Tid, p: Sender, b': Bell, r': Rings, p': Sender)
    requires RingsOk(r) && SenderOk(r, t, p) && SendStep(b, r, t, p, b', r', p')
    ensures SenderOk(r', t, p')
  {
  }

  lemma SenderBeside(r: Rings, b: Bell, t: Tid, p: Sender, b': Bell, r': Rings, p': Sender, u: Tid, q: Sender)
    requires RingsOk(r) && SenderOk(r, t, p) && SendStep(b, r, t, p, b', r', p') && u != t && SenderOk(r, u, q)
    ensures SenderOk(r', u, q)
  {
    if p.Idle? && r.free != [] { Bystander(r, r.free[0], BySender(t), r', u, q); }
    else if p.Full? { Bystander(r, p.i, InActive, r', u, q); }
  }

  lemma SenderByReceiver(r: Rings, b: Bell, p: Receiver, b': Bell, r': Rings, p': Receiver, u: Tid, q: Sender)
    requires RingsOk(r) && ReceiverOk(r, p) && RecvStep(b, r, p, b', r', p') && SenderOk(r, u, q)
    ensures SenderOk(r', u, q)
  {
    if Takes(r, r', p') { Bystander(r, r.active[0], ByReceiver, r', u, q); }
    else if p.Give? { Bystander(r, p.i, InFree, r', u, q); }
  }

  lemma SendersKept(s: State, s': State, a: Actor)
    requires Inv(s) && Next(s, s', a)
    ensures forall t :: t in s'.send ==> SenderOk(s'.rings, t, s'.send[t])
  {
    forall u | u in s'.send ensures SenderOk(s'.rings, u, s'.send[u]) {
      assert u in s.send && SenderOk(s.rings, u, s.send[u]);
      match a
      case TheBell =>
      case TheReceiver => SenderByReceiver(s.rings, s.bell, s.recv, s'.bell, s'.rings, s'.recv, u, s.send[u]);
      case ASender(t) =>
        assert SenderOk(s.rings, t, s.send[t]);
        if u == t { SenderSelf(s.rings, s.bell, t, s.send[t], s'.bell, s'.rings, s'.send[t]); }
        else { SenderBeside(s.rings, s.bell, t, s.send[t], s'.bell, s'.rings, s'.send[t], u, s.send[u]); }
    }
  }

  lemma ReceiverSelf(r: Rings, b: Bell, p: Receiver, b': Bell, r': Rings, p': Receiver)
    requires RingsOk(r) && ReceiverOk(r, p) && RecvStep(b, r, p, b', r', p')
    ensures ReceiverOk(r', p')
  {
  }

  lemma ReceiverKept(s: State, s': State, a: Actor)
    requires Inv(s) && Next(s, s', a)
    ensures ReceiverOk(s'.rings, s'.recv)
  {
    if a.TheReceiver? { ReceiverSelf(s.rings, s.bell, s.recv, s'.bell, s'.rings, s'.recv); }
    else if a.ASender? {
      var p := s.send[a.t];
      assert SenderOk(s.rings, a.t, p);
      if p.Idle? && s.rings.free != [] {
        BystandingReceiver(s.rings, s.rings.free[0], BySender(a.t), s'.rings, s.recv);
      }
      else if p.Full? { BystandingReceiver(s.rings, p.i, InActive, s'.rings, s.recv); }
    }
  }

  /** Only the buffer of a sender's own index is written, so no packet that waits or is being
      handed on changes. */
  lemma WriteAside(r: Rings, t: Tid, i: nat, x: Packet, p: Receiver)
    requires RingsOk(r) && ReceiverOk(r, p) && DataOk(r, p) && i < |r.own| && r.own[i] == BySender(t)
    ensures DataOk(r.(slots := r.slots[i := x]), p)
  {
    assert Packets(r.slots[i := x], r.active) == Packets(r.slots, r.active);
  }

  lemma DataBySender(r: Rings, b: Bell, t: Tid, p: Sender, b': Bell, r': Rings, p': Sender, q: Receiver)
    requires RingsOk(r) && SenderOk(r, t, p) && ReceiverOk(r, q) && DataOk(r, q) && SendStep(b, r, t, p, b', r', p')
    ensures DataOk(r', q)
  {
    if p.Fill? { WriteAside(r, t, p.i, r'.slots[p.i], q); }
    else if p.Full? { assert Packets(r'.slots, r'.active) == Packets(r.slots, r.active) + [p.p]; }
  }

  lemma DataByReceiver(r: Rings, b: Bell, p: Receiver, b': Bell, r': Rings, p': Receiver)
    requires RingsOk(r) && DataOk(r, p) && RecvStep(b, r, p, b', r', p')
    ensures DataOk(r', p')
  {
    if Takes(r, r', p') {
      assert Packets(r.slots, r.active) == [r.slots[r.active[0]]] + Packets(r.slots, r.active[1..]);
    }
  }

  lemma DataKept(s: State, s': State, a: Actor)
    requires Inv(s) && Next(s, s', a)
    ensures DataOk(s'.rings, s'.recv)
  {
    if a.TheReceiver? { DataByReceiver(s.rings, s.bell, s.recv, s'.bell, s'.rings, s'.recv); }
    else if a.ASender? {
      assert SenderOk(s.rings, a.t, s.send[a.t]);
      DataBySender(s.rings, s.bell, a.t, s.send[a.t], s'.bell, s'.rings, s'.send[a.t], s.recv);
    }
  }

  lemma NextKeeps(s: State, s': State, a: Actor)
    requires Inv(s) && Next(s, s', a)
    ensures Inv(s') && |s'.rings.own| == |s.rings.own|
  {
    BellKept(s, s', a);
    HeardKept(s, s', a);
    RingsKept(s, s', a);
    SendersKept(s, s', a);
    ReceiverKept(s, s', a);
    DataKept(s, s', a);
    assert a.ASender? ==> SenderOk(s.rings, a.t, s.send[a.t]);
  }

  // ----- runs -----

  /** The receiver has just stored 1 in readers; senders and events may be anywhere. */
  ghost predicate Init(s: State) {
    s.bell.readers == 1 && s.bell.waking == 0 && s.bell.runq == 0 && s.recv == Poll(0) && BuffersOk(s)
  }

  /** Such a state is reached from the rings as first set up, the free ring full. */
  lemma FreshStart(s: State)
    requires s.bell.readers == 1 && s.bell.waking == 0 && s.bell.runq == 0 && s.recv == Poll(0)
    requires Distinct(s.rings.free) && s.rings.active == [] && s.rings.sent == [] && s.rings.delivered == []
    requires |s.rings.slots| == |s.rings.own|
    requires forall k :: 0 <= k < |s.rings.free| ==> s.rings.free[k] < |s.rings.own|
    requires forall i :: 0 <= i < |s.rings.own| ==> s.rings.own[i] == InFree && i in s.rings.free
    requires forall t :: t in s.send ==> s.send[t] == Idle
    ensures Init(s)
  {
    assert Packets(s.rings.slots, []) == [];
    forall t | t in s.send ensures SenderOk(s.rings, t, s.send[t]) { }
  }

  ghost predicate Steps(ss: seq<State>, acts: seq<Actor>) {
    && |ss| == |acts| + 1
    && (forall i: nat {:trigger acts[i]} :: i < |acts| ==> Next(ss[i], ss[i + 1], acts[i]))
  }

  ghost predicate Run(ss: seq<State>, acts: seq<Actor>) { Steps(ss, acts) && Init(ss[0]) }

  lemma {:induction false} RunInv(ss: seq<State>, acts: seq<Actor>, i: nat)
    requires Run(ss, acts) && i < |ss|
    ensures Inv(ss[i]) && |ss[i].rings.own| == |ss[0].rings.own|
  {
    if i > 0 {
      RunInv(ss, acts, i - 1);
      NextKeeps(ss[i - 1], ss[i], acts[i - 1]);
    }
  }

  // ----- main results -----

  /** The receiver is on the run queue at most once, and only while it is off the processor: both
      the handler and the callback wake it when it is blocked and not yet woken. */
  lemma NeverWokenWhileRunnable(ss: seq<State>, acts: seq<Actor>, i: nat)
    requires Run(ss, acts) && i < |ss|
    ensures var s := ss[i];
            && (s.bell.runq > 0 ==> s.bell.runq == 1 && s.bell.waking == 0 && s.recv == Blocked)
            && (s.bell.waking > 0 ==> s.bell.waking == 1 && s.bell.runq == 0 && s.recv == Blocked)
            && (s.recv == SelfWake ==> s.bell.runq == 0 && s.bell.waking == 0)
  {
    RunInv(ss, acts, i);
  }

  /** A receiver asleep with no event under way and no sender between its enqueue and its check
      has nothing to receive. */
  lemma AsleepMeansEmpty(ss: seq<State>, acts: seq<Actor>, i: nat)
    requires Run(ss, acts) && i < |ss| && ss[i].recv == Blocked && ss[i].bell.runq == 0 && ss[i].bell.waking == 0
    requires !ss[i].bell.pending && ss[i].bell.handlers == 0 && !Ringing(ss[i].send)
    ensures ss[i].rings.active == []
  {
    RunInv(ss, acts, i);
  }

  /** An event that is delivered to a sleeping receiver wakes it: whenever a handler runs its
      exchange, the receiver is awake, on its way back by itself, or woken by this handler. */
  lemma HandlerWakes(ss: seq<State>, acts: seq<Actor>, i: nat)
    requires Run(ss, acts) && i < |acts| && acts[i] == TheBell && ss[i + 1].bell.handlers < ss[i].bell.handlers
    ensures ss[i + 1].bell.readers == 1
    ensures ss[i].recv == Blocked ==> ss[i + 1].bell.waking + ss[i + 1].bell.runq == 1
    ensures ss[i].recv != Blocked ==> ss[i + 1].bell.waking == 0 && ss[i + 1].bell.runq == 0
  {
    RunInv(ss, acts, i);
  }

  /** The places a buffer index can be. */
  ghost predicate WithSender(s: State, i: nat) { exists t :: t in s.send && SenderHas(s.send[t], i) }

  ghost predicate AtOne(a: bool, b: bool, c: bool, d: bool) {
    (a || b || c || d) && !(a && b) && !(a && c) && !(a && d) && !(b && c) && !(b && d) && !(c && d)
  }

  /** Every index is in exactly one of the free ring, one sender's hands, the active ring, or the
      receiver's hands. */
  lemma OnePlace(ss: seq<State>, acts: seq<Actor>, k: nat, i: nat)
    requires Run(ss, acts) && k < |ss| && i < |ss[0].rings.own|
    ensures var s := ss[k];
            AtOne(i in s.rings.free, WithSender(s, i), i in s.rings.active, ReceiverHas(s.recv, i))
    ensures Distinct(ss[k].rings.free) && Distinct(ss[k].rings.active)
    ensures var send := ss[k].send;
            forall t, u :: t in send && u in send && SenderHas(send[t], i) && SenderHas(send[u], i) ==> t == u
  {
    RunInv(ss, acts, k);
    var s := ss[k];
    forall t | t in s.send && SenderHas(s.send[t], i) ensures s.rings.own[i] == BySender(t) {
      assert SenderOk(s.rings, t, s.send[t]);
    }
    if s.rings.own[i].BySender? {
      assert SenderOk(s.rings, s.rings.own[i].t, s.send[s.rings.own[i].t]);
      assert SenderHas(s.send[s.rings.own[i].t], i);
    }
  }

  lemma {:induction false} DistinctBounded(q: seq<nat>, n: nat)
    requires Distinct(q) && forall k :: 0 <= k < |q| ==> q[k] < n
    ensures |q| <= n
    decreases n
  {
    if q != [] {
      if n - 1 in q {
        var k :| 0 <= k < |q| && q[k] == n - 1;
        var rest := q[..k] + q[k + 1..];
        assert forall j :: 0 <= j < |rest| ==> rest[j] == if j < k then q[j] else q[j + 1];
        DistinctBounded(rest, n - 1);
      } else {
        DistinctBounded(q, n - 1);
      }
    }
  }

  /** Neither ring, nor both together, ever hold more than the number of buffers. */
  lemma WithinCapacity(ss: seq<State>, acts: seq<Actor>, k: nat)
    requires Run(ss, acts) && k < |ss|
    ensures |ss[k].rings.free| + |ss[k].rings.active| <= |ss[0].rings.own|
  {
    RunInv(ss, acts, k);
    var both := ss[k].rings.free + ss[k].rings.active;
    assert Distinct(both);
    DistinctBounded(both, |ss[0].rings.own|);
  }

  /** No buffer is written while it is read, or by two senders. */
  lemma NoSharedBuffer(ss: seq<State>, acts: seq<Actor>, k: nat, t: Tid, i: nat)
    requires Run(ss, acts) && k < |ss| && t in ss[k].send && ss[k].send[t] == Fill(i)
    ensures !ReceiverHas(ss[k].recv, i) && i !in ss[k].rings.active
    ensures forall u :: u in ss[k].send && u != t ==> !SenderHas(ss[k].send[u], i)
  {
    RunInv(ss, acts, k);
    assert SenderOk(ss[k].rings, t, ss[k].send[t]);
    forall u | u in ss[k].send && u != t ensures !SenderHas(ss[k].send[u], i) {
      assert SenderOk(ss[k].rings, u, ss[k].send[u]);
    }
  }

  /** Every packet sent is handed on once, unchanged and in the order sent; those not yet handed
      on are the ones on the active ring and in the receiver's hands. */
  lemma DeliveredInOrder(ss: seq<State>, acts: seq<Actor>, k: nat)
    requires Run(ss, acts) && k < |ss|
    ensures ss[k].rings.delivered <= ss[k].rings.sent
    ensures |ss[k].rings.sent| == |ss[k].rings.delivered| + |ss[k].rings.active| + if ss[k].recv.Work? then 1 else 0
  {
    RunInv(ss, acts, k);
  }

  // ----- sending -----

  ghost predicate Busy(s: State, t: Tid) { t in s.send && !s.send[t].Idle? }

  /** Sender t puts the packet it has copied on the active ring, behind those there. */
  ghost predicate Puts(s: State, s': State, t: Tid) {
    && t in s.send && s.send[t].Full? && s.send[t].i < |s'.rings.slots|
    && s'.rings.active == s.rings.active + [s.send[t].i] && s'.rings.slots[s.send[t].i] == s.send[t].p
    && s'.rings.sent == s.rings.sent + [s.send[t].p]
  }

  ghost predicate PutsNothing(s: State, s': State) {
    s'.rings.active == s.rings.active && s'.rings.sent == s.rings.sent
  }

  /** A sender has a packet that it has not put yet. */
  ghost predicate Carries(s: State, t: Tid) { t in s.send && (s.send[t].Fill? || s.send[t].Full?) }

  /** A packet is put by the step that ends carrying it, and carrying begins with the call. */
  ghost predicate SenderMoves(s: State, s': State, t: Tid) {
    && t in s.send && t in s'.send
    && (Busy(s, t) && Carries(s', t) ==> Carries(s, t))
    && (if s.send[t].Full? then Puts(s, s', t) && Busy(s', t) && !Carries(s', t) else PutsNothing(s, s'))
    && (Carries(s, t) ==> Busy(s', t) && (Carries(s', t) || s.send[t].Full?))
    && (s.send[t].Idle? && Busy(s', t) ==> Carries(s', t))
  }

  lemma SenderStep(s: State, s': State, t: Tid)
    requires Inv(s) && Next(s, s', ASender(t))
    ensures SenderMoves(s, s', t)
  {
    assert SenderOk(s.rings, t, s.send[t]);
  }

  lemma OtherStep(s: State, s': State, a: Actor, t: Tid)
    requires Next(s, s', a) && a != ASender(t) && t in s.send
    ensures t in s'.send && s'.send[t] == s.send[t]
  {
  }

  /** t has not put anything from step j up to k, but for step e. */
  ghost predicate NoPut(ss: seq<State>, acts: seq<Actor>, j: nat, k: nat, t: Tid, e: nat) {
    k <= |acts| < |ss| && forall m: nat {:trigger acts[m]} :: j <= m < k && acts[m] == ASender(t) && m != e ==>
      PutsNothing(ss[m], ss[m + 1])
  }

  ghost predicate PutAt(ss: seq<State>, acts: seq<Actor>, t: Tid, e: nat) {
    e < |acts| < |ss| && acts[e] == ASender(t) && Puts(ss[e], ss[e + 1], t)
  }

  /** The step to k, seen by t. */
  lemma StepTo(ss: seq<State>, acts: seq<Actor>, k: nat, t: Tid)
    requires Run(ss, acts) && 0 < k < |ss| && t in ss[k - 1].send
    ensures if acts[k - 1] == ASender(t) then SenderMoves(ss[k - 1], ss[k], t)
            else t in ss[k].send && ss[k].send[t] == ss[k - 1].send[t]
  {
    RunInv(ss, acts, k - 1);
    assert Next(ss[k - 1], ss[k], acts[k - 1]);
    if acts[k - 1] == ASender(t) { SenderStep(ss[k - 1], ss[k], t); }
    else { OtherStep(ss[k - 1], ss[k], acts[k - 1], t); }
  }

  ghost predicate BusyBetween(ss: seq<State>, j: nat, k: nat, t: Tid) {
    k <= |ss| && forall m :: j < m < k ==> Busy(ss[m], t)
  }

  /** A call that has begun at j and is under way at k; e is k until it has put its packet. */
  lemma {:induction false} SendSoFar(ss: seq<State>, acts: seq<Actor>, j: nat, k: nat, t: Tid) returns (e: nat)
    requires Run(ss, acts) && j < k < |ss| && acts[j] == ASender(t) && t in ss[j].send && ss[j].send[t].Idle?
    requires BusyBetween(ss, j, k + 1, t)
    ensures j < e <= k && NoPut(ss, acts, j, k, t, e)
    ensures if Carries(ss[k], t) then e == k else e < k && PutAt(ss, acts, t, e)
  {
    assert Busy(ss[k], t);
    if k == j + 1 {
      StepTo(ss, acts, k, t);
      e := k;
    } else {
      assert Busy(ss[k - 1], t);
      StepTo(ss, acts, k, t);
      e := SendSoFar(ss, acts, j, k - 1, t);
      if Carries(ss[k], t) { e := k; }
    }
  }

  /** A call that has begun at j by taking a free index and has returned at k has put exactly one
      packet on the active ring, the one copied into its buffer. */
  lemma SendsOne(ss: seq<State>, acts: seq<Actor>, j: nat, k: nat, t: Tid) returns (e: nat)
    requires Run(ss, acts) && j + 1 < k < |ss| && acts[j] == ASender(t) && t in ss[j].send && ss[j].send[t].Idle?
    requires BusyBetween(ss, j, k, t) && !Busy(ss[k], t)
    ensures j < e < k && PutAt(ss, acts, t, e) && NoPut(ss, acts, j, k, t, e)
  {
    e := SendSoFar(ss, acts, j, k - 1, t);
    assert Busy(ss[k - 1], t);
    StepTo(ss, acts, k, t);
  }

  lemma {:induction false} SentStays(ss: seq<State>, acts: seq<Actor>, i: nat, k: nat)
    requires Run(ss, acts) && i <= k < |ss|
    ensures ss[i].rings.sent <= ss[k].rings.sent
  {
    if i < k {
      SentStays(ss, acts, i, k - 1);
      assert Next(ss[k - 1], ss[k], acts[k - 1]);
    }
  }

  /** And that packet is handed on as the n-th, n being the number put before it, as soon as n + 1
      have been. */
  lemma PutIsDelivered(ss: seq<State>, acts: seq<Actor>, t: Tid, e: nat, k: nat)
    requires Run(ss, acts) && PutAt(ss, acts, t, e) && e < k < |ss|
    ensures var n, x := |ss[e].rings.sent|, ss[e].send[t].p;
            && |ss[k].rings.sent| > n && ss[k].rings.sent[n] == x
            && (|ss[k].rings.delivered| > n ==> ss[k].rings.delivered[n] == x)
  {
    SentStays(ss, acts, e + 1, k);
    DeliveredInOrder(ss, acts, k);
  }
}
