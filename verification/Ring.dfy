/** The ring of include/bmk-core/lfring.h run one call at a time: the words it updates in
    place, against a plain FIFO sequence. */
module Ring {
  import opened Common
  import R = RingSteps
  import RingMap
  import opened Bits

  /** Slots repeat with period n and not earlier. */
  ghost predicate Periodic(g: R.Geo) {
    && R.GeoOk(g) && g.n % 2 == 0
    && (forall T: nat, U: nat {:trigger R.Same(g, T, U)} ::
          (U == T + g.n ==> R.Same(g, T, U)) && (T < U < T + g.n ==> !R.Same(g, T, U)))
  }

  /** Ticket T stores a live index. */
  ghost predicate Live(g: R.Geo, w: seq<R.Entry>, T: nat)
    requires R.GeoOk(g) && |w| == g.n
  {
    w[g.slot(T)].cycle == g.cycle(T) && w[g.slot(T)].idx < g.n - 1
  }

  /** The slot of T awaits a store under T. */
  ghost predicate Vacant(g: R.Geo, w: seq<R.Entry>, T: nat)
    requires R.GeoOk(g) && |w| == g.n
  {
    w[g.slot(T)].cycle < g.cycle(T) && w[g.slot(T)].idx == g.n - 1
  }

  /** The n tickets from head on use every slot once: those below tail are stored, the others
      awaited. */
  ghost predicate Window(g: R.Geo, head: nat, tail: nat, w: seq<R.Entry>) {
    && Periodic(g) && |w| == g.n && head <= tail <= head + g.n
    && (forall T: nat :: head <= T < tail ==> Live(g, w, T))
    && (forall T: nat :: tail <= T < head + g.n ==> Vacant(g, w, T))
  }

  /** The indices stored under the tickets from head to tail. */
  ghost function Items(g: R.Geo, head: nat, tail: nat, w: seq<R.Entry>): (c: seq<nat>)
    requires R.GeoOk(g) && |w| == g.n && head <= tail
    ensures |c| == tail - head
    ensures forall k: nat :: k < |c| ==> c[k] == w[g.slot(head + k)].idx
    decreases tail - head
  {
    if head == tail then [] else Items(g, head, tail - 1, w) + [w[g.slot(tail - 1)].idx]
  }

  /** A store under ticket tail appends. */
  lemma Store(g: R.Geo, head: nat, tail: nat, w: seq<R.Entry>, e: nat, w': seq<R.Entry>)
    requires Window(g, head, tail, w) && tail < head + g.n && e < g.n - 1
    requires w' == w[g.slot(tail) := R.Entry(g.cycle(tail), true, e)]
    ensures Window(g, head, tail + 1, w') && Items(g, head, tail + 1, w') == Items(g, head, tail, w) + [e]
  {
    forall T: nat | head <= T < head + g.n && T != tail
      ensures w'[g.slot(T)] == w[g.slot(T)] && (Live(g, w, T) ==> Live(g, w', T)) &&
              (Vacant(g, w, T) ==> Vacant(g, w', T))
    {
      assert if T < tail then !R.Same(g, T, tail) else !R.Same(g, tail, T);
    }
    assert Items(g, head, tail, w') == Items(g, head, tail, w);
  }

  /** Emptying the slot of ticket head removes the first item. */
  lemma Take(g: R.Geo, head: nat, tail: nat, w: seq<R.Entry>, w': seq<R.Entry>)
    requires Window(g, head, tail, w) && head < tail
    requires w' == w[g.slot(head) := w[g.slot(head)].(idx := g.n - 1)]
    ensures Window(g, head + 1, tail, w')
    ensures Items(g, head, tail, w) == [w[g.slot(head)].idx] + Items(g, head + 1, tail, w')
  {
    assert Live(g, w, head);
    Passed(g, head, w');
    Others(g, head, w, w');
  }

  /** Stamping the awaited slot of ticket head, which nobody stored under, passes it over. */
  lemma Advance(g: R.Geo, head: nat, w: seq<R.Entry>, w': seq<R.Entry>)
    requires Window(g, head, head, w)
    requires w' == w[g.slot(head) := R.Entry(g.cycle(head), w[g.slot(head)].safe, g.n - 1)]
    ensures Window(g, head + 1, head + 1, w')
  {
    Passed(g, head, w');
    Others(g, head, w, w');
  }

  lemma Passed(g: R.Geo, head: nat, w': seq<R.Entry>)
    requires Periodic(g) && |w'| == g.n
    requires w'[g.slot(head)].cycle == g.cycle(head) && w'[g.slot(head)].idx == g.n - 1
    ensures Vacant(g, w', head + g.n)
  {
    assert R.Same(g, head, head + g.n);
  }

  lemma Others(g: R.Geo, head: nat, w: seq<R.Entry>, w': seq<R.Entry>)
    requires Periodic(g) && |w'| == |w| == g.n
    requires forall j: nat :: j < g.n && j != g.slot(head) ==> w'[j] == w[j]
    ensures forall T: nat :: head < T < head + g.n ==>
              w'[g.slot(T)] == w[g.slot(T)] && Live(g, w', T) == Live(g, w, T) && Vacant(g, w', T) == Vacant(g, w, T)
  {
    forall T: nat | head < T < head + g.n
      ensures w'[g.slot(T)] == w[g.slot(T)] && Live(g, w', T) == Live(g, w, T) && Vacant(g, w', T) == Vacant(g, w, T)
    {
      assert !R.Same(g, head, T);
    }
  }

  /** The words of tickets below i as lfring_init_full stores them. */
  ghost predicate Filled(g: R.Geo, fill: nat -> nat, w: seq<R.Entry>, i: nat)
    requires R.GeoOk(g) && |w| == g.n
  {
    forall T: nat {:trigger g.slot(T)} :: T < i ==> w[g.slot(T)] == R.StartWord(g, R.FullRing(fill), T)
  }

  lemma FillStep(g: R.Geo, fill: nat -> nat, w: seq<R.Entry>, i: nat, w': seq<R.Entry>)
    requires Periodic(g) && |w| == g.n && i < g.n && Filled(g, fill, w, i)
    requires w' == w[g.slot(i) := R.StartWord(g, R.FullRing(fill), i)]
    ensures Filled(g, fill, w', i + 1)
  {
    forall T: nat | T < i ensures w'[g.slot(T)] == w[g.slot(T)] { assert !R.Same(g, T, i); }
  }

  /** A full ring holds fill(0), fill(1), ... */
  lemma FullWindow(g: R.Geo, fill: nat -> nat, first: nat -> nat, w: seq<R.Entry>)
    requires Periodic(g) && R.GeoFresh(g, first) && |w| == g.n && Filled(g, fill, w, g.n)
    requires forall i: nat :: i < g.n / 2 ==> fill(i) < g.n / 2
    ensures Window(g, 0, g.n / 2, w)
    ensures Items(g, 0, g.n / 2, w) == seq(g.n / 2, i requires 0 <= i => fill(i))
  {
  }

  /** The array loops of lfring_init_full. */
  method FullWords(g: R.Geo, fill: nat -> nat) returns (a: array<R.Entry>)
    requires Periodic(g)
    ensures fresh(a) && a.Length == g.n && Filled(g, fill, a[..], g.n)
  {
    a := new R.Entry[g.n](_ => R.Entry(-1, true, g.n - 1));
    var i := 0;
    while i != g.n / 2
      invariant 0 <= i <= g.n / 2 && Filled(g, fill, a[..], i)
    {
      ghost var w := a[..];
      a[g.slot(i)] := R.Entry(0, false, fill(i));
      FillStep(g, fill, w, i, a[..]);
      i := i + 1;
    }
    while i != g.n
      invariant g.n / 2 <= i <= g.n && Filled(g, fill, a[..], i)
    {
      ghost var w := a[..];
      a[g.slot(i)] := R.Entry(-1, true, g.n - 1);
      FillStep(g, fill, w, i, a[..]);
      i := i + 1;
    }
  }

  class Ring {
    const g: R.Geo
    var head: nat
    var tail: nat
    var threshold: int
    var entries: array<R.Entry>

    function Threshold3(): int { g.n / 2 + g.n - 1 }

    /** At most n / 2 indices are live. */
    ghost predicate Valid()
      reads this, entries
    {
      Window(g, head, tail, entries[..]) && tail <= head + g.n / 2 && -1 <= threshold <= Threshold3()
    }

    /** A reader that finds the threshold negative may answer EMPTY at once. */
    predicate Exact()
      reads this
    {
      head < tail ==> threshold == Threshold3()
    }

    ghost function Contents(): seq<nat>
      requires Valid()
      reads this, entries
    {
      Items(g, head, tail, entries[..])
    }

    /** lfring_init_empty */
    constructor Empty(g: R.Geo)
      requires Periodic(g)
      ensures this.g == g && Valid() && Exact() && Contents() == [] && fresh(entries)
    {
      this.g := g;
      head, tail, threshold := 0, 0, -1;
      entries := new R.Entry[g.n](_ => R.Entry(-1, true, g.n - 1));
    }

    /** lfring_init_full: index fill(i) under ticket i, for the first half of the tickets. */
    constructor Full(g: R.Geo, fill: nat -> nat, ghost first: nat -> nat)
      requires Periodic(g) && R.GeoFresh(g, first) && (forall i: nat :: i < g.n / 2 ==> fill(i) < g.n / 2)
      ensures this.g == g && Valid() && Exact() && fresh(entries)
      ensures Contents() == seq(g.n / 2, i requires 0 <= i => fill(i))
    {
      var a := FullWords(g, fill);
      this.g := g;
      head, tail, threshold := 0, g.n / 2, g.n / 2 + g.n - 1;
      entries := a;
      new;
      FullWindow(g, fill, first, entries[..]);
    }

    /** lfring_enqueue: the value is stored under the first ticket drawn.  `fails` counts the
        spurious failures of the weak exchange.  A caller that says nonempty leaves the threshold
        as it is. */
    method Enqueue(eidx: nat, nonempty: bool, fails: nat)
      requires Valid() && eidx < g.n - 1 && |Contents()| < g.n / 2
      modifies this, entries
      ensures entries == old(entries) && Valid()
      ensures Contents() == old(Contents()) + [eidx]
      ensures tail == old(tail) + 1 && head == old(head)
      ensures threshold == if nonempty then old(threshold) else Threshold3()
    {
      var done, f := false, fails;
      while !done
        invariant entries == old(entries) && head == old(head) && Window(g, head, tail, entries[..])
        invariant !done ==> tail == old(tail) && entries[..] == old(entries[..]) && threshold == old(threshold)
        invariant done ==> tail == old(tail) + 1 && threshold == if nonempty then old(threshold) else Threshold3()
        invariant done ==> Items(g, head, tail, entries[..]) == old(Contents()) + [eidx]
        decreases !done
      {
        var t := tail;
        tail := tail + 1;
        var j := g.slot(t);
        var entry := entries[j];
        ghost var w := entries[..];
        assert Vacant(g, w, t);
        while f > 0 && entry.cycle < g.cycle(t) && entry.idx == g.n - 1 && (entry.safe || head <= t)
          invariant f >= 0 && entry == entries[j]
        {
          entry := entries[j];
          f := f - 1;
        }
        if entry.cycle < g.cycle(t) && entry.idx == g.n - 1 && (entry.safe || head <= t) {
          entries[j] := R.Entry(g.cycle(t), true, eidx);
          Store(g, head, t, w, eidx, entries[..]);
          if !nonempty && threshold != Threshold3() { threshold := Threshold3(); }
          done := true;
        }
      }
    }

    /** lfring_dequeue; None is LFRING_EMPTY.  It answers EMPTY exactly if nothing is there or the
        threshold says so, and the threshold says so only then if it is exact.  A caller that says
        nonempty must be right.  `fails` and `misses` count the spurious failures of the weak
        exchanges of the slot and in the catch-up. */
    method Dequeue(nonempty: bool, fails: nat, misses: nat) returns (r: Option<nat>)
      requires Valid() && (nonempty ==> Contents() != [])
      modifies this, entries
      ensures entries == old(entries) && Valid() && (old(Exact()) ==> Exact())
      ensures r.None? <==> old(Contents()) == [] || (!nonempty && old(threshold) < 0)
      ensures old(Exact()) && r.None? ==> old(Contents()) == []
      ensures r.None? ==> Contents() == old(Contents())
      ensures r.Some? ==> old(Contents()) == [r.value] + Contents()
    {
      if !nonempty && threshold < 0 { return None; }
      var h := head;
      head := head + 1;
      var j := g.slot(h);
      var entry := entries[j];
      ghost var w := entries[..];
      assert if h < tail then Live(g, w, h) else Vacant(g, w, h);
      var f := fails;
      while f > 0
        invariant f >= 0 && entry == entries[j]
      {
        if entry.cycle == g.cycle(h) { break; }
        entry := entries[j];
        f := f - 1;
      }
      if entry.cycle == g.cycle(h) {
        entries[j] := entry.(idx := g.n - 1);
        Take(g, h, tail, w, entries[..]);
        return Some(entry.idx);
      }
      GiveUp(h, misses);
      return None;
    }

    /** One call at a time, the slot is then empty and behind (no safe bit is ever cleared) and the
        tail has been reached (the ticket loop is not entered again). */
    method GiveUp(h: nat, misses: nat)
      requires Window(g, h, h, entries[..]) && tail == h && head == h + 1
      modifies this`tail, this`threshold, entries
      ensures Window(g, head, tail, entries[..]) && tail == head && threshold == old(threshold) - 1
    {
      var j := g.slot(h);
      var entry := entries[j];
      ghost var w := entries[..];
      assert Vacant(g, w, h) && entry.idx == g.n - 1 && entry.cycle < g.cycle(h) && tail <= h + 1;
      entries[j] := R.Entry(g.cycle(h), entry.safe, g.n - 1);
      Advance(g, h, w, entries[..]);
      Catchup(tail, h + 1, misses);
      threshold := threshold - 1;
    }

    /** __lfring_catchup: tail is brought up to head. */
    method Catchup(tail0: nat, head0: nat, fails: nat)
      requires tail0 == tail && tail0 <= head0 == head
      modifies this`tail
      ensures tail == head0
    {
      var t, h, f := tail0, head0, fails;
      while f > 0
        invariant tail == t == old(tail) && h == head0
      {
        h, t := head, tail;
        if t >= h { return; }
        f := f - 1;
      }
      tail := h;
    }
  }

  // ----- the rings of the source -----

  lemma NextPeriod(T: nat, k: nat)
    ensures Low(T + Pow2(k), k) == Low(T, k)
  {
    Parts(T, k);
    assert T + Pow2(k) == (Shr(T, k) + 1) * Pow2(k) + Low(T, k);
    PartsUnique(Shr(T, k) + 1, Low(T, k), k);
  }

  lemma WithinPeriod(T: nat, U: nat, k: nat)
    requires T < U && Low(T, k) == Low(U, k)
    ensures T + Pow2(k) <= U
  {
    SameLow(T, U, k);
    Parts(T, k);
    Parts(U, k);
    MulMono(Shr(T, k) + 1, Shr(U, k), Pow2(k));
    assert (Shr(T, k) + 1) * Pow2(k) == Shr(T, k) * Pow2(k) + Pow2(k);
  }

  lemma PeriodAt(order: nat, mn: nat, T: nat, U: nat)
    requires mn <= order
    ensures U == T + Pow2(order + 1) ==> R.Same(RingMap.RingGeo(order, mn), T, U)
    ensures T < U < T + Pow2(order + 1) ==> !R.Same(RingMap.RingGeo(order, mn), T, U)
  {
    NextPeriod(T, order + 1);
    RingMap.MapCongruent(T, U, order + 1, mn);
    if T < U && Low(T, order + 1) == Low(U, order + 1) { WithinPeriod(T, U, order + 1); }
  }

  /** A ring of the source is periodic for every order at least LFRING_MIN. */
  lemma RingPeriodic(order: nat, mn: nat)
    requires mn <= order
    ensures Periodic(RingMap.RingGeo(order, mn))
  {
    RingMap.GeoSlots(order, mn);
    var g := RingMap.RingGeo(order, mn);
    assert g.n == 2 * Pow2(order);
    forall T: nat, U: nat {:trigger R.Same(g, T, U)}
      ensures (U == T + g.n ==> R.Same(g, T, U)) && (T < U < T + g.n ==> !R.Same(g, T, U))
    {
      PeriodAt(order, mn, T, U);
    }
  }

  /** The index lfring_init_full puts under ticket i. */
  function FullFill(order: nat, mn: nat, i: nat): nat
    requires mn <= order
  {
    RingMap.RawMap(Pow2(order + 1) + i, order, mn)
  }

  lemma FullFillIs(order: nat, mn: nat, i: nat)
    requires mn <= order
    ensures FullFill(order, mn, i) == RingMap.RawMap(i, order, mn) < Pow2(order)
  {
    assert Pow2(order + 1) + i == i + Pow2(order) + Pow2(order);
    NextPeriod(i, order);
    NextPeriod(i + Pow2(order), order);
    RingMap.MapCongruent(Pow2(order + 1) + i, i, order, mn);
    RingMap.RawMapBound(i, order, mn);
  }

  /** A full ring holds each of the 2^order indices exactly once. */
  lemma FullHoldsEachOnce(order: nat, mn: nat, v: nat)
    requires mn <= order && v < Pow2(order)
    ensures FullFill(order, mn, v) < Pow2(order)
    ensures exists i: nat :: i < Pow2(order) && FullFill(order, mn, i) == v
    ensures forall i: nat, j: nat | i < Pow2(order) && j < Pow2(order) ::
              FullFill(order, mn, i) == v && FullFill(order, mn, j) == v ==> i == j
  {
    FullFillIs(order, mn, v);
    var f := RingMap.First(v, order, mn);
    RingMap.MapPermutes(order, mn, v);
    FullFillIs(order, mn, f);
    assert FullFill(order, mn, f) == v;
    forall i: nat | i < Pow2(order) && FullFill(order, mn, i) == v ensures i == f {
      FullFillIs(order, mn, i);
      RingMap.MapPermutes(order, mn, i);
    }
  }

  /** Each index below 2^order, once. */
  ghost predicate IsPermutation(s: seq<nat>, count: nat) {
    |s| == count && Distinct(s) && forall v: nat :: v in s <==> v < count
  }

  /** What lfring_init_full needs to know of the ring. */
  lemma FullReady(order: nat, mn: nat)
    requires mn <= order
    ensures var g := RingMap.RingGeo(order, mn);
            Periodic(g) && R.GeoFresh(g, RingMap.RingFirst(order, mn)) && g.n / 2 == Pow2(order)
    ensures forall i: nat :: FullFill(order, mn, i) < Pow2(order)
  {
    RingPeriodic(order, mn);
    RingMap.RingGeoFresh(order, mn);
    forall i: nat ensures FullFill(order, mn, i) < Pow2(order) { FullFillIs(order, mn, i); }
    assert RingMap.RingGeo(order, mn).n == 2 * Pow2(order);
  }

  lemma FullPermutes(order: nat, mn: nat, s: seq<nat>)
    requires mn <= order && |s| == Pow2(order) && forall i: nat :: i < |s| ==> s[i] == FullFill(order, mn, i)
    ensures IsPermutation(s, Pow2(order))
  {
    forall i: nat, j: nat | i < j < |s| ensures s[i] != s[j] {
      FullFillIs(order, mn, i);
      FullHoldsEachOnce(order, mn, s[i]);
    }
    forall v: nat ensures v in s <==> v < Pow2(order) {
      if v in s {
        var i: nat :| i < |s| && s[i] == v;
        FullFillIs(order, mn, i);
      }
      if v < Pow2(order) {
        FullHoldsEachOnce(order, mn, v);
        var i: nat :| i < Pow2(order) && FullFill(order, mn, i) == v;
        assert s[i] == v;
      }
    }
  }

  /** A ring of the source, initialised full, holds a permutation of its indices. */
  method NewFull(order: nat, mn: nat) returns (r: Ring)
    requires mn <= order
    ensures fresh(r) && fresh(r.entries) && r.Valid() && r.Exact()
    ensures r.g == RingMap.RingGeo(order, mn) && IsPermutation(r.Contents(), Pow2(order))
  {
    FullReady(order, mn);
    var g := RingMap.RingGeo(order, mn);
    r := new Ring.Full(g, i => FullFill(order, mn, i), RingMap.RingFirst(order, mn));
    FullPermutes(order, mn, r.Contents());
  }
}
