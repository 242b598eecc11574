/** The reader-writer lock of lib/libbmk_rumpuser/rumpuser_synch.c, composed of two mutexes, a
    count of readers and a type word.  A mutex is taken here as the plain lock that
    Mutex.PlainLock shows it to be. */
module RwLock {
  import opened Common

  type Tid = nat

  datatype Kind = Unknown | Writer | Reader

  /** Who holds the access mutex: nobody, a thread that is in alone, a reader that has taken it
      or is about to release it by itself, or the readers as a group, whichever of them leaves
      last. */
  datatype Holder = Free | Sole(t: Tid) | ByReader(t: Tid) | Group

  datatype Pc =
    | Out
    // rumpuser_rw_enter, writer
    | WWait      // acquire wait_mtx
    | WAccess    // acquire access_mtx
    | WType      // store type = WRITER
    | WDone      // release wait_mtx
    // rumpuser_rw_tryenter, writer
    | TWait      // try wait_mtx
    | TAccess    // try access_mtx
    | TFail      // release wait_mtx, answer EBUSY
    // rumpuser_rw_enter, reader
    | RWait      // acquire wait_mtx
    | RCount     // fetch_add readers
    | RAccess    // first reader: acquire access_mtx
    | RType      // store type = READER
    | RDone      // release wait_mtx
    // rumpuser_rw_tryenter, reader
    | SWait          // try wait_mtx
    | SLoad          // load readers
    | SAccess        // readers was 0: try access_mtx
    | SStore         // store readers = 1
    | SType          // store type = READER
    | SCas(v: nat)   // exchange readers v for v + 1
    | SAgain(v: nat) // the same, after readers was stored
    // inside
    | WHold
    | RHold
    // rumpuser_rw_exit, called by a writer (w) or a reader
    | XLoad(w: bool)   // load type
    | XSub             // fetch_sub readers
    | XType            // store type = UNKNOWN
    | XAccess          // release access_mtx
    // rumpuser_rw_downgrade
    | GType      // store type = READER
    | GCount     // fetch_add readers
    | GAccess    // release access_mtx
    // rumpuser_rw_tryupgrade
    | UCas       // exchange readers 1 for 0
    | UType      // store type = WRITER

  /** `pending` names the first reader while it waits for the access mutex; `extra` says that a
      reader has been counted twice. */
  datatype Mem =
    Mem(wait: Option<Tid>, access: Holder, readers: nat, kind: Kind, pending: Option<Tid>, extra: bool)

  datatype State = State(m: Mem, pc: map<Tid, Pc>)

  // ----- steps: thread t, at p, turns m into m' and moves to p' -----

  ghost predicate Calls(m: Mem, p: Pc, m': Mem, p': Pc) {
    && m' == m
    && match p
       case Out => p' == WWait || p' == RWait || p' == TWait || p' == SWait
       case WHold => p' == XLoad(true) || p' == GType
       case RHold => p' == XLoad(false) || p' == UCas
       case _ => false
  }

  /** A mutex that nobody is in may still be on its way to the thread that waited longest for it
      (Mutex.dfy), and then a try fails: tries may fail whenever they please. */
  ghost predicate WaitStep(m: Mem, t: Tid, p: Pc, m': Mem, p': Pc) {
    match p
    case WWait => m.wait == None && m' == m.(wait := Some(t)) && p' == WAccess
    case RWait => m.wait == None && m' == m.(wait := Some(t)) && p' == RCount
    case TWait => (m.wait == None && m' == m.(wait := Some(t)) && p' == TAccess) || (m' == m && p' == Out)
    case SWait => (m.wait == None && m' == m.(wait := Some(t)) && p' == SLoad) || (m' == m && p' == Out)
    case WDone => m' == m.(wait := None) && p' == WHold
    case RDone => m' == m.(wait := None) && p' == RHold
    case TFail => m' == m.(wait := None) && p' == Out
    case _ => false
  }

  ghost predicate AccessStep(m: Mem, t: Tid, p: Pc, m': Mem, p': Pc) {
    match p
    case WAccess => m.access == Free && m' == m.(access := Sole(t)) && p' == WType
    case RAccess => m.access == Free && m' == m.(access := ByReader(t), pending := None) && p' == RType
    case TAccess => (m.access == Free && m' == m.(access := Sole(t)) && p' == WType) || (m' == m && p' == TFail)
    case SAccess => (m.access == Free && m' == m.(access := ByReader(t)) && p' == SStore) || (m' == m && p' == TFail)
    case XAccess => m' == m.(access := Free) && p' == Out
    case GAccess => m' == m.(access := Free) && p' == RHold
    case _ => false
  }

  ghost predicate TypeStep(m: Mem, p: Pc, m': Mem, p': Pc) {
    match p
    case WType => m' == m.(kind := Writer) && p' == WDone
    case RType => m' == m.(kind := Reader, access := Group) && p' == RDone
    case SType => m' == m.(kind := Reader) && p' == SAgain(0)
    case UType => m' == m.(kind := Writer) && p' == WHold
    case GType => m' == m.(kind := Reader) && p' == GCount
    case XType => m' == m.(kind := Unknown) && p' == XAccess
    case XLoad(_) => m' == m && p' == if m.kind == Writer then XType else XSub
    case _ => false
  }

  /** The decisions are taken on the old value of readers, as in the source.  Where the access
      mutex passes between one thread and the group nothing happens to the mutex itself. */
  ghost predicate CountStep(m: Mem, t: Tid, p: Pc, m': Mem, p': Pc) {
    match p
    case RCount =>
      if m.readers == 0 then m' == m.(readers := 1, pending := Some(t)) && p' == RAccess
      else m' == m.(readers := m.readers + 1) && p' == RDone
    case XSub =>
      && m.readers > 0
      && (if m.readers == 1 then m' == m.(readers := 0, access := Sole(t)) && p' == XType
          else m' == m.(readers := m.readers - 1) && p' == Out)
    case GCount =>
      if m.readers != 0 then m' == m.(readers := m.readers + 1, access := ByReader(t)) && p' == GAccess
      else m' == m.(readers := 1, access := Group) && p' == RHold
    case UCas =>
      if m.readers == 1 then m' == m.(readers := 0, access := Sole(t)) && p' == UType
      else m' == m && p' == RHold
    case _ => false
  }

  /** The loop of a reader's tryenter: its body runs again, access mutex included, each time the
      exchange fails. */
  ghost predicate TryStep(m: Mem, p: Pc, m': Mem, p': Pc) {
    match p
    case SLoad => m' == m && p' == if m.readers == 0 then SAccess else SCas(m.readers)
    case SStore => m' == m.(readers := 1) && p' == SType
    case SCas(v) =>
      if m.readers == v then m' == m.(readers := v + 1) && p' == RDone
      else m' == m && p' == if m.readers == 0 then SAccess else SCas(m.readers)
    case SAgain(v) =>
      if m.readers == v then m' == m.(readers := v + 1, access := Group, extra := true) && p' == RDone
      else m' == m && p' == if m.readers == 0 then SAccess else SAgain(m.readers)
    case _ => false
  }

  ghost predicate Acts(m: Mem, t: Tid, p: Pc, m': Mem, p': Pc) {
    || Calls(m, p, m', p') || WaitStep(m, t, p, m', p') || AccessStep(m, t, p, m', p')
    || TypeStep(m, p, m', p') || CountStep(m, t, p, m', p') || TryStep(m, p, m', p')
  }

  ghost predicate Next(s: State, s': State, t: Tid) {
    t in s.pc && t in s'.pc && s'.pc == s.pc[t := s'.pc[t]] && Acts(s.m, t, s.pc[t], s'.m, s'.pc[t])
  }

  // ----- invariant -----

  /** In as a writer, and alone there, from the access mutex to its release. */
  predicate Alone(p: Pc) {
    p.WType? || p.WDone? || p.WHold? || p == XLoad(true) || p.XType? || p.XAccess? || p.GType? || p.GCount? || p.UType?
  }

  /** In as a reader. */
  predicate Inside(p: Pc) { p.RDone? || p.RHold? || p == XLoad(false) || p.XSub? || p.UCas? || p.GAccess? }

  /** A reader holding the access mutex on its own. */
  predicate Opens(p: Pc) { p.RType? || p.GAccess? || p.SStore? || p.SType? || p.SAgain? }

  predicate CountsAsReader(p: Pc) { Inside(p) || p.RAccess? || p.RType? || p.SType? || p.SAgain? }

  predicate HasWait(p: Pc) {
    || p.WAccess? || p.WType? || p.WDone? || p.TAccess? || p.TFail? || p.RCount? || p.RAccess? || p.RType? || p.RDone?
    || p.SLoad? || p.SAccess? || p.SStore? || p.SType? || p.SCas? || p.SAgain?
  }

  ghost function ReaderSet(pc: map<Tid, Pc>): set<Tid> { set t | t in pc && CountsAsReader(pc[t]) }

  ghost predicate PcOk(m: Mem, t: Tid, p: Pc) {
    && (HasWait(p) ==> m.wait == Some(t))
    && (Alone(p) <==> m.access == Sole(t))
    && (Opens(p) <==> m.access == ByReader(t))
    && (p.RAccess? <==> m.pending == Some(t))
    && (Inside(p) ==> m.kind == Reader && !m.access.Sole? && (m.access == Free ==> m.pending.Some?))
    && (p.GAccess? ==> m.pending.Some?)
    && (p.WDone? || p.WHold? || p == XLoad(true) ==> m.kind == Writer)
    && (p.SAgain? || p.GCount? ==> m.kind == Reader)
    && (p.SStore? ==> m.readers == 0)
    && (p.SCas? ==> p.v > 0)
  }

  /** What holds of the shared words when n threads count as readers. */
  ghost predicate MemOk(m: Mem, n: nat) {
    && m.readers == n + (if m.extra then 1 else 0)
    && (m.access.Group? ==> m.readers > 0 && m.pending == None)
    && (m.pending.Some? ==> m.wait == m.pending)
    && (m.extra ==> m.access.Group? && m.kind == Reader)
  }

  /** Every thread that the shared words name exists. */
  ghost predicate Named(m: Mem, threads: set<Tid>) {
    && (m.pending.Some? ==> m.pending.value in threads)
    && (m.access.Sole? || m.access.ByReader? ==> m.access.t in threads)
  }

  ghost predicate Inv(s: State) {
    && MemOk(s.m, |ReaderSet(s.pc)|) && Named(s.m, s.pc.Keys)
    && forall t :: t in s.pc ==> PcOk(s.m, t, s.pc[t])
  }

  // ----- what the count of readers tells the thread that tests it -----

  ghost predicate SharedIn(m: Mem) {
    m.kind == Reader && !m.access.Sole? && (m.access == Free ==> m.pending.Some?)
  }

  ghost predicate CountFacts(m: Mem, t: Tid, p: Pc) {
    && ((p.RCount? || p.SCas?) && m.readers > 0 ==> SharedIn(m))
    && (p.GCount? ==> (m.readers > 0 <==> m.pending.Some?))
    && (p.SAccess? && m.access == Free ==> m.readers == 0)
    && ((p.XSub? || p.UCas?) && m.readers == 1 ==> m.access == Group && !m.extra)
    && (CountsAsReader(p) ==> m.readers > 0)
  }

  lemma AReader(s: State) returns (u: Tid)
    requires Inv(s) && s.m.readers > 0 && !s.m.extra
    ensures u in s.pc && CountsAsReader(s.pc[u]) && PcOk(s.m, u, s.pc[u])
  {
    assert ReaderSet(s.pc) != {};
    u :| u in ReaderSet(s.pc);
  }

  lemma SomeReader(s: State, t: Tid)
    requires Inv(s) && t in s.pc && s.m.readers > 0
    ensures s.pc[t].RCount? || s.pc[t].SCas? ==> SharedIn(s.m)
    ensures s.pc[t].GCount? ==> s.m.pending.Some?
    ensures s.pc[t].SAccess? ==> s.m.access != Free
  {
    assert PcOk(s.m, t, s.pc[t]);
    if !s.m.extra { var u := AReader(s); }
  }

  lemma OnlyReader(pc: map<Tid, Pc>, t: Tid, u: Tid)
    requires |ReaderSet(pc)| == 1 && t in ReaderSet(pc) && u in pc && CountsAsReader(pc[u])
    ensures u == t
  {
    assert |ReaderSet(pc) - {t}| == 0;
    assert u in ReaderSet(pc);
  }

  lemma Counted(s: State, t: Tid)
    requires Inv(s) && t in s.pc && CountsAsReader(s.pc[t])
    ensures t in ReaderSet(s.pc) && |ReaderSet(s.pc)| > 0
  {
  }

  lemma LastReader(s: State, t: Tid)
    requires Inv(s) && t in s.pc && s.m.readers == 1 && Inside(s.pc[t]) && !s.pc[t].GAccess?
    ensures s.m.access == Group && !s.m.extra
  {
    assert PcOk(s.m, t, s.pc[t]);
    Counted(s, t);
    if s.m.pending.Some? {
      var r := s.m.pending.value;
      assert PcOk(s.m, r, s.pc[r]);
      OnlyReader(s.pc, t, r);
    }
    if s.m.access.ByReader? {
      var r := s.m.access.t;
      assert PcOk(s.m, r, s.pc[r]);
      OnlyReader(s.pc, t, r);
    }
  }

  lemma NoReaders(s: State)
    requires Inv(s) && s.m.pending.Some?
    ensures s.m.readers > 0
  {
    var r := s.m.pending.value;
    assert PcOk(s.m, r, s.pc[r]);
    Counted(s, r);
  }

  lemma Facts(s: State, t: Tid)
    requires Inv(s) && t in s.pc
    ensures CountFacts(s.m, t, s.pc[t])
  {
    var p := s.pc[t];
    if s.m.readers > 0 { SomeReader(s, t); }
    if s.m.pending.Some? { NoReaders(s); }
    if (p.XSub? || p.UCas?) && s.m.readers == 1 { LastReader(s, t); }
    if CountsAsReader(p) { Counted(s, t); }
  }

  // ----- every step keeps the invariant -----

  ghost predicate Ready(m: Mem, n: nat, t: Tid, p: Pc) { MemOk(m, n) && PcOk(m, t, p) && CountFacts(m, t, p) }

  function Tally(p: Pc): int { if CountsAsReader(p) then 1 else 0 }

  /** What a step of t must do: keep its own predicate, that of any other thread, and the
      shared words. */
  ghost predicate Kept(m: Mem, n: nat, t: Tid, p: Pc, m': Mem, p': Pc) {
    && PcOk(m', t, p') && n + Tally(p') - Tally(p) >= 0 && MemOk(m', n + Tally(p') - Tally(p))
    && (m'.pending == m.pending || m'.pending == Some(t) || m'.pending == None)
    && (m'.access == m.access || m'.access == Sole(t) || m'.access == ByReader(t) || m'.access in {Free, Group})
  }

  lemma SelfCalls(m: Mem, n: nat, t: Tid, p: Pc, m': Mem, p': Pc)
    requires Ready(m, n, t, p) && Calls(m, p, m', p')
    ensures Kept(m, n, t, p, m', p')
  {
  }

  lemma SelfWait(m: Mem, n: nat, t: Tid, p: Pc, m': Mem, p': Pc)
    requires Ready(m, n, t, p) && WaitStep(m, t, p, m', p')
    ensures Kept(m, n, t, p, m', p')
  {
  }

  lemma SelfAccess(m: Mem, n: nat, t: Tid, p: Pc, m': Mem, p': Pc)
    requires Ready(m, n, t, p) && AccessStep(m, t, p, m', p')
    ensures Kept(m, n, t, p, m', p')
  {
  }

  lemma SelfType(m: Mem, n: nat, t: Tid, p: Pc, m': Mem, p': Pc)
    requires Ready(m, n, t, p) && TypeStep(m, p, m', p')
    ensures Kept(m, n, t, p, m', p')
  {
  }

  lemma SelfCount(m: Mem, n: nat, t: Tid, p: Pc, m': Mem, p': Pc)
    requires Ready(m, n, t, p) && CountStep(m, t, p, m', p')
    ensures Kept(m, n, t, p, m', p')
  {
  }

  lemma SelfTry(m: Mem, n: nat, t: Tid, p: Pc, m': Mem, p': Pc)
    requires Ready(m, n, t, p) && TryStep(m, p, m', p')
    ensures Kept(m, n, t, p, m', p')
  {
  }

  /** Another thread u, which is not a reader when t is about to take the last one's place. */
  ghost predicate Beside(m: Mem, t: Tid, p: Pc, u: Tid, q: Pc) {
    u != t && PcOk(m, u, q) && ((p.XSub? || p.UCas?) && m.readers == 1 ==> !CountsAsReader(q))
  }

  lemma OtherWait(m: Mem, n: nat, t: Tid, p: Pc, m': Mem, p': Pc, u: Tid, q: Pc)
    requires Ready(m, n, t, p) && WaitStep(m, t, p, m', p') && Beside(m, t, p, u, q)
    ensures PcOk(m', u, q)
  {
  }

  lemma OtherAccess(m: Mem, n: nat, t: Tid, p: Pc, m': Mem, p': Pc, u: Tid, q: Pc)
    requires Ready(m, n, t, p) && AccessStep(m, t, p, m', p') && Beside(m, t, p, u, q)
    ensures PcOk(m', u, q)
  {
  }

  lemma OtherType(m: Mem, n: nat, t: Tid, p: Pc, m': Mem, p': Pc, u: Tid, q: Pc)
    requires Ready(m, n, t, p) && TypeStep(m, p, m', p') && Beside(m, t, p, u, q)
    ensures PcOk(m', u, q)
  {
  }

  lemma OtherCount(m: Mem, n: nat, t: Tid, p: Pc, m': Mem, p': Pc, u: Tid, q: Pc)
    requires Ready(m, n, t, p) && CountStep(m, t, p, m', p') && Beside(m, t, p, u, q)
    ensures PcOk(m', u, q)
  {
  }

  lemma OtherTry(m: Mem, n: nat, t: Tid, p: Pc, m': Mem, p': Pc, u: Tid, q: Pc)
    requires Ready(m, n, t, p) && TryStep(m, p, m', p') && Beside(m, t, p, u, q)
    ensures PcOk(m', u, q)
  {
  }

  lemma SelfKept(m: Mem, n: nat, t: Tid, p: Pc, m': Mem, p': Pc)
    requires Ready(m, n, t, p) && Acts(m, t, p, m', p')
    ensures Kept(m, n, t, p, m', p')
  {
    if Calls(m, p, m', p') { SelfCalls(m, n, t, p, m', p'); }
    else if WaitStep(m, t, p, m', p') { SelfWait(m, n, t, p, m', p'); }
    else if AccessStep(m, t, p, m', p') { SelfAccess(m, n, t, p, m', p'); }
    else if TypeStep(m, p, m', p') { SelfType(m, n, t, p, m', p'); }
    else if CountStep(m, t, p, m', p') { SelfCount(m, n, t, p, m', p'); }
    else { SelfTry(m, n, t, p, m', p'); }
  }

  lemma OtherKept(m: Mem, n: nat, t: Tid, p: Pc, m': Mem, p': Pc, u: Tid, q: Pc)
    requires Ready(m, n, t, p) && Acts(m, t, p, m', p') && Beside(m, t, p, u, q)
    ensures PcOk(m', u, q)
  {
    if Calls(m, p, m', p') { assert m' == m; }
    else if WaitStep(m, t, p, m', p') { OtherWait(m, n, t, p, m', p', u, q); }
    else if AccessStep(m, t, p, m', p') { OtherAccess(m, n, t, p, m', p', u, q); }
    else if TypeStep(m, p, m', p') { OtherType(m, n, t, p, m', p', u, q); }
    else if CountStep(m, t, p, m', p') { OtherCount(m, n, t, p, m', p', u, q); }
    else { OtherTry(m, n, t, p, m', p', u, q); }
  }

  lemma Recount(s: State, s': State, t: Tid)
    requires t in s.pc && t in s'.pc && s'.pc == s.pc[t := s'.pc[t]]
    ensures |ReaderSet(s'.pc)| == |ReaderSet(s.pc)| + Tally(s'.pc[t]) - Tally(s.pc[t])
  {
    var others := ReaderSet(s.pc) - {t};
    assert ReaderSet(s.pc) == if CountsAsReader(s.pc[t]) then others + {t} else others;
    assert ReaderSet(s'.pc) == if CountsAsReader(s'.pc[t]) then others + {t} else others;
  }

  lemma NextKeeps(s: State, s': State, t: Tid)
    requires Inv(s) && Next(s, s', t)
    ensures Inv(s')
  {
    var n, p, p' := |ReaderSet(s.pc)|, s.pc[t], s'.pc[t];
    assert Ready(s.m, n, t, p) by { Facts(s, t); }
    SelfKept(s.m, n, t, p, s'.m, p');
    Recount(s, s', t);
    assert s'.pc.Keys == s.pc.Keys;
    assert Named(s'.m, s'.pc.Keys);
    forall u | u in s'.pc && u != t ensures PcOk(s'.m, u, s'.pc[u]) {
      if (p.XSub? || p.UCas?) && s.m.readers == 1 && CountsAsReader(s.pc[u]) {
        Counted(s, t);
        OnlyReader(s.pc, t, u);
      }
      OtherKept(s.m, n, t, p, s'.m, p', u, s.pc[u]);
    }
  }

  // ----- runs -----

  ghost predicate Init(s: State) {
    s.m == Mem(None, Free, 0, Unknown, None, false) && forall t :: t in s.pc ==> s.pc[t] == Out
  }

  ghost predicate Run(ss: seq<State>, ts: seq<Tid>) {
    && |ss| == |ts| + 1 && Init(ss[0])
    && (forall i: nat {:trigger ts[i]} :: i < |ts| ==> Next(ss[i], ss[i + 1], ts[i]))
  }

  lemma {:induction false} RunInv(ss: seq<State>, ts: seq<Tid>, i: nat)
    requires Run(ss, ts) && i < |ss|
    ensures Inv(ss[i])
  {
    if i == 0 { assert ReaderSet(ss[0].pc) == {}; }
    else {
      RunInv(ss, ts, i - 1);
      NextKeeps(ss[i - 1], ss[i], ts[i - 1]);
    }
  }

  // ----- main results -----

  /** A thread that rumpuser_rw_enter, tryenter, tryupgrade or downgrade has admitted and that
      has not begun to leave. */
  predicate InAsWriter(p: Pc) { p.WDone? || p.WHold? || p == XLoad(true) || p.GType? || p.UType? }
  predicate InAsReader(p: Pc) { Inside(p) && !p.XSub? }

  /** Over any run, a writer is in alone: no reader and no other writer is in with it. */
  lemma WriterExcludes(ss: seq<State>, ts: seq<Tid>, i: nat, t: Tid, u: Tid)
    requires Run(ss, ts) && i < |ss| && t in ss[i].pc && u in ss[i].pc && t != u && InAsWriter(ss[i].pc[t])
    ensures !InAsWriter(ss[i].pc[u]) && !InAsReader(ss[i].pc[u])
  {
    RunInv(ss, ts, i);
    assert PcOk(ss[i].m, t, ss[i].pc[t]) && PcOk(ss[i].m, u, ss[i].pc[u]);
  }

  /** rumpuser_rw_exit takes the branch that fits its caller: it sees type WRITER exactly when
      called by a writer. */
  lemma ExitSeesItsKind(ss: seq<State>, ts: seq<Tid>, i: nat, t: Tid)
    requires Run(ss, ts) && i < |ss| && t in ss[i].pc && ss[i].pc[t].XLoad?
    ensures ss[i].m.kind == Writer <==> ss[i].pc[t].w
  {
    RunInv(ss, ts, i);
    assert PcOk(ss[i].m, t, ss[i].pc[t]);
  }

  /** The access mutex is only released while held on the releasing thread's behalf, though a
      group of readers need not release it by the thread that took it: the last one out finds
      it held for the group. */
  lemma ReleasedWhenHeld(ss: seq<State>, ts: seq<Tid>, i: nat, t: Tid)
    requires Run(ss, ts) && i < |ss| && t in ss[i].pc
    ensures ss[i].pc[t].XAccess? ==> ss[i].m.access == Sole(t)
    ensures ss[i].pc[t].GAccess? ==> ss[i].m.access == ByReader(t)
    ensures ss[i].pc[t].XSub? && ss[i].m.readers == 1 ==> ss[i].m.access == Group
  {
    RunInv(ss, ts, i);
    assert PcOk(ss[i].m, t, ss[i].pc[t]);
    if ss[i].pc[t].XSub? && ss[i].m.readers == 1 { LastReader(ss[i], t); }
  }

  /** Nobody is in, or on the way in or out with the access mutex taken. */
  ghost predicate Idle(s: State) {
    forall t :: t in s.pc ==> !Alone(s.pc[t]) && !Opens(s.pc[t]) && !CountsAsReader(s.pc[t])
  }

  /** A reader's tryenter that found no readers takes the access mutex. */
  ghost predicate TakesBranch(s: State, s': State, t: Tid) {
    t in s.pc && t in s'.pc && s.pc[t].SAccess? && s'.pc[t].SStore?
  }

  /** Some reader's tryenter has found no readers and taken the access mutex before step i. */
  ghost predicate Took(ss: seq<State>, ts: seq<Tid>, i: nat)
    requires i <= |ts| == |ss| - 1
  {
    exists j: nat {:trigger ts[j]} :: j < i && TakesBranch(ss[j], ss[j + 1], ts[j])
  }

  predicate InBranch(p: Pc) { p.SStore? || p.SType? || p.SAgain? }

  /** Some thread is in that branch, or a reader is counted twice. */
  ghost predicate Marked(s: State) { s.m.extra || exists t :: t in s.pc && InBranch(s.pc[t]) }

  /** The branch leads nowhere but to the second count, and the second count stays. */
  lemma SecondCount(s: State, s': State, t: Tid)
    requires Inv(s) && Next(s, s', t)
    ensures InBranch(s.pc[t]) ==> InBranch(s'.pc[t]) || s'.m.extra
    ensures InBranch(s'.pc[t]) ==> InBranch(s.pc[t]) || TakesBranch(s, s', t)
    ensures s.m.extra ==> s'.m.extra
    ensures s'.m.extra ==> s.m.extra || InBranch(s.pc[t])
  {
    assert PcOk(s.m, t, s.pc[t]);
    Facts(s, t);
  }

  lemma MarkedStep(s: State, s': State, t: Tid)
    requires Inv(s) && Next(s, s', t)
    ensures Marked(s') <==> Marked(s) || TakesBranch(s, s', t)
  {
    SecondCount(s, s', t);
    if Marked(s) && !s.m.extra {
      var u :| u in s.pc && InBranch(s.pc[u]);
      assert u != t ==> u in s'.pc && InBranch(s'.pc[u]);
      assert InBranch(s'.pc[t]) || s'.m.extra || u != t;
    }
    if Marked(s') && !s'.m.extra {
      var u :| u in s'.pc && InBranch(s'.pc[u]);
      assert u != t ==> InBranch(s.pc[u]);
    }
    if TakesBranch(s, s', t) { assert InBranch(s'.pc[t]); }
  }

  lemma {:induction false} MarkedIffTook(ss: seq<State>, ts: seq<Tid>, i: nat)
    requires Run(ss, ts) && i < |ss|
    ensures Marked(ss[i]) <==> Took(ss, ts, i)
  {
    if i > 0 {
      MarkedIffTook(ss, ts, i - 1);
      RunInv(ss, ts, i - 1);
      MarkedStep(ss[i - 1], ss[i], ts[i - 1]);
      if Took(ss, ts, i) && !Took(ss, ts, i - 1) {
        var j: nat :| j < i && TakesBranch(ss[j], ss[j + 1], ts[j]);
        assert j == i - 1;
      }
    }
  }

  /** t is the only thread that counts as a reader. */
  ghost predicate OnlyOne(s: State, t: Tid) { forall u :: u in s.pc && CountsAsReader(s.pc[u]) ==> u == t }

  lemma CountOfOne(s: State, t: Tid)
    requires Inv(s) && t in s.pc && CountsAsReader(s.pc[t])
    ensures |ReaderSet(s.pc)| >= 1 && (|ReaderSet(s.pc)| == 1 <==> OnlyOne(s, t))
  {
    Counted(s, t);
    if OnlyOne(s, t) { assert ReaderSet(s.pc) == {t}; }
    if |ReaderSet(s.pc)| == 1 {
      forall u | u in s.pc && CountsAsReader(s.pc[u]) ensures u == t { OnlyReader(s.pc, t, u); }
    }
  }

  lemma UpgradeStep(s: State, s': State, t: Tid)
    requires Inv(s) && Next(s, s', t) && s.pc[t].UCas?
    ensures s'.pc[t] == if OnlyOne(s, t) && !s.m.extra then UType else RHold
  {
    CountOfOne(s, t);
  }

  lemma MarkedOnlyOne(s: State, t: Tid)
    requires Inv(s) && t in s.pc && CountsAsReader(s.pc[t]) && !InBranch(s.pc[t]) && OnlyOne(s, t)
    ensures Marked(s) <==> s.m.extra
  {
    CountOfOne(s, t);
    forall u | u in s.pc ensures !InBranch(s.pc[u]) { assert PcOk(s.m, u, s.pc[u]); }
  }

  /** tryupgrade succeeds exactly for the only reader, unless the branch that counts a reader twice
      has been taken; otherwise its caller stays a reader. */
  lemma UpgradesIff(ss: seq<State>, ts: seq<Tid>, i: nat, t: Tid)
    requires Run(ss, ts) && i < |ts| && t == ts[i] && t in ss[i].pc && t in ss[i + 1].pc && ss[i].pc[t].UCas?
    ensures ss[i + 1].pc[t] == if OnlyOne(ss[i], t) && !Took(ss, ts, i) then UType else RHold
  {
    RunInv(ss, ts, i);
    MarkedIffTook(ss, ts, i);
    UpgradeStep(ss[i], ss[i + 1], t);
    if OnlyOne(ss[i], t) { MarkedOnlyOne(ss[i], t); }
  }

  lemma IdleWords(s: State)
    requires Inv(s) && Idle(s)
    ensures s.m.access == Free <==> !s.m.extra
    ensures s.m.readers == 0 <==> !s.m.extra
    ensures Marked(s) <==> s.m.extra
  {
    assert ReaderSet(s.pc) == {};
    var a := s.m.access;
    assert a.Sole? || a.ByReader? ==> PcOk(s.m, a.t, s.pc[a.t]);
  }

  /** When everyone has left, the lock is free, that is, its access mutex is free and no reader
      is counted, if and only if no reader's tryenter has ever found no readers and taken the
      access mutex: that branch counts its reader twice. */
  lemma FreeWhenIdle(ss: seq<State>, ts: seq<Tid>, i: nat)
    requires Run(ss, ts) && i < |ss| && Idle(ss[i])
    ensures ss[i].m.access == Free <==> !Took(ss, ts, i)
    ensures ss[i].m.readers == 0 <==> !Took(ss, ts, i)
  {
    RunInv(ss, ts, i);
    IdleWords(ss[i]);
    MarkedIffTook(ss, ts, i);
  }

  lemma MarkedShutsOut(s: State, t: Tid)
    requires Inv(s) && Marked(s) && t in s.pc
    ensures !InAsWriter(s.pc[t]) && s.m.access != Free
  {
    assert PcOk(s.m, t, s.pc[t]);
    if !s.m.extra {
      var u :| u in s.pc && InBranch(s.pc[u]);
      assert PcOk(s.m, u, s.pc[u]);
    }
  }

  /** After that branch the access mutex is never free and no writer ever in again, whatever the
      threads do. */
  lemma NoWriterAfter(ss: seq<State>, ts: seq<Tid>, i: nat, j: nat, t: Tid)
    requires Run(ss, ts) && i <= j < |ss| && Took(ss, ts, i) && t in ss[j].pc
    ensures !InAsWriter(ss[j].pc[t]) && ss[j].m.access != Free
  {
    assert Took(ss, ts, j);
    RunInv(ss, ts, j);
    MarkedIffTook(ss, ts, j);
    MarkedShutsOut(ss[j], t);
  }

  /** One thread alone: a reader's tryenter that finds the lock empty, then its exit. */
  function Demo(i: nat): (Mem, Pc) {
    var idle, busy := Mem(None, Free, 0, Unknown, None, false), Mem(Some(0), ByReader(0), 1, Reader, None, false);
    var twice := Mem(None, Group, 2, Reader, None, true);
    if i == 0 then (idle, Out)
    else if i == 1 then (idle, SWait)
    else if i == 2 then (idle.(wait := Some(0)), SLoad)
    else if i == 3 then (idle.(wait := Some(0)), SAccess)
    else if i == 4 then (idle.(wait := Some(0), access := ByReader(0)), SStore)
    else if i == 5 then (busy.(kind := Unknown), SType)
    else if i == 6 then (busy, SAgain(0))
    else if i == 7 then (busy, SAgain(1))
    else if i == 8 then (twice.(wait := Some(0)), RDone)
    else if i == 9 then (twice, RHold)
    else if i == 10 then (twice, XLoad(false))
    else if i == 11 then (twice, XSub)
    else (twice.(readers := 1), Out)
  }

  lemma DemoEnters(i: nat)
    requires i < 8
    ensures Acts(Demo(i).0, 0, Demo(i).1, Demo(i + 1).0, Demo(i + 1).1)
  {
  }

  lemma DemoLeaves(i: nat)
    requires 8 <= i < 12
    ensures Acts(Demo(i).0, 0, Demo(i).1, Demo(i + 1).0, Demo(i + 1).1)
  {
  }

  /** The shortest run into that branch: a successful reader's tryenter and an exit leave the
      access mutex taken with nobody in. */
  lemma TryenterExitStaysTaken() returns (ss: seq<State>, ts: seq<Tid>)
    ensures Run(ss, ts) && |ts| == 12 && ss[0].pc == map[0 := Out] && ss[3].pc == map[0 := SAccess]
    ensures ss[12].pc == map[0 := Out] && Idle(ss[12]) && ss[12].m.access == Group && ss[12].m.readers == 1
  {
    ss := seq(13, (i: nat) => State(Demo(i).0, map[0 := Demo(i).1]));
    ts := seq(12, _ => 0);
    forall i: nat | i < 12 ensures Next(ss[i], ss[i + 1], 0) {
      if i < 8 { DemoEnters(i); } else { DemoLeaves(i); }
      assert ss[i + 1].pc == ss[i].pc[0 := ss[i + 1].pc[0]];
    }
  }
}
