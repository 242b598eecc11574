/** The slot map of include/bmk-core/lfring.h, written
    with the source's own bit operations.  `mn` is LFRING_MIN. */
module RingMap {
  import opened Bits
  import R = RingSteps

  /** __lfring_raw_map for a ring of n = 2^order slots. */
  function RawMap(idx: nat, order: nat, mn: nat): nat
    requires mn <= order
  {
    var n := Pow2(order);
    Or(Shr(And(idx, n - 1), order - mn), And(idx * Pow2(mn), n - 1))
  }

  /** __lfring_map: rings of 2^order indices have 2^(order + 1) slots. */
  function Map(idx: nat, order: nat, mn: nat): nat
    requires mn <= order
  {
    RawMap(idx, order + 1, mn)
  }

  /** The low `order` bits of idx, split after the top mn of them: idx = q 2^order + a 2^(order-mn) + b. */
  ghost predicate Fields(idx: nat, order: nat, mn: nat, q: nat, a: nat, b: nat)
    requires mn <= order
  {
    && a < Pow2(mn) && b < Pow2(order - mn)
    && idx == q * Pow2(order) + (a * Pow2(order - mn) + b)
  }

  lemma FieldsBound(order: nat, mn: nat, a: nat, b: nat)
    requires mn <= order && a < Pow2(mn) && b < Pow2(order - mn)
    ensures Pow2(order) == Pow2(mn) * Pow2(order - mn)
    ensures a * Pow2(order - mn) + b < Pow2(order) && b * Pow2(mn) + a < Pow2(order)
  {
    Pow2Add(mn, order - mn);
    MulBound(a, b, Pow2(mn), Pow2(order - mn));
    MulBound(b, a, Pow2(order - mn), Pow2(mn));
  }

  lemma MulBound(a: nat, b: nat, A: nat, B: nat)
    requires a < A && b < B
    ensures a * B + b < A * B
  {
    assert a * B + B == (a + 1) * B;
    MulMono(a + 1, A, B);
  }

  lemma Shifted(q: nat, a: nat, b: nat, A: nat, B: nat, n: nat)
    requires n == A * B
    ensures (q * n + (a * B + b)) * A == (q * A + a) * n + b * A
  {
    assert a * B * A == a * n;
    assert (q * n + (a * B + b)) * A == q * n * A + a * B * A + b * A;
    assert (q * A + a) * n == q * A * n + a * n;
  }

  lemma TopField(order: nat, mn: nat, q: nat, a: nat, b: nat)
    requires mn <= order && a < Pow2(mn) && b < Pow2(order - mn)
    ensures Shr(And(q * Pow2(order) + (a * Pow2(order - mn) + b), Pow2(order) - 1), order - mn) == a
  {
    FieldsBound(order, mn, a, b);
    LowMask(q, a * Pow2(order - mn) + b, order);
    PartsUnique(a, b, order - mn);
  }

  lemma LowField(order: nat, mn: nat, q: nat, a: nat, b: nat)
    requires mn <= order && a < Pow2(mn) && b < Pow2(order - mn)
    ensures And((q * Pow2(order) + (a * Pow2(order - mn) + b)) * Pow2(mn), Pow2(order) - 1) == b * Pow2(mn)
  {
    var A, n := Pow2(mn), Pow2(order);
    FieldsBound(order, mn, a, b);
    Shifted(q, a, b, A, Pow2(order - mn), n);
    LowMask(q * A + a, b * A, order);
  }

  lemma OrFields(a: nat, b: nat, mn: nat)
    requires a < Pow2(mn)
    ensures Or(a, b * Pow2(mn)) == b * Pow2(mn) + a
  {
    DisjointOr(b, a, mn);
    OrSwapped(b * Pow2(mn), a);
  }

  lemma OrSwapped(x: nat, a: nat)
    requires Or(x, a) == x + a
    ensures Or(a, x) == x + a
  {
    OrCommutes(x, a);
  }

  /** RawMap with its two operands named. */
  lemma RawMapIs(idx: nat, order: nat, mn: nat, top: nat, low: nat)
    requires mn <= order
    requires Shr(And(idx, Pow2(order) - 1), order - mn) == top && And(idx * Pow2(mn), Pow2(order) - 1) == low
    ensures RawMap(idx, order, mn) == Or(top, low)
  {
  }

  /** The map rotates: the top mn bits of the ticket become the low bits of the slot. */
  lemma RawMapRotates(idx: nat, order: nat, mn: nat, q: nat, a: nat, b: nat)
    requires mn <= order && Fields(idx, order, mn, q, a, b)
    ensures RawMap(idx, order, mn) == b * Pow2(mn) + a
  {
    TopField(order, mn, q, a, b);
    LowField(order, mn, q, a, b);
    RawMapIs(idx, order, mn, a, b * Pow2(mn));
    OrFields(a, b, mn);
  }

  lemma RawMapBound(idx: nat, order: nat, mn: nat)
    requires mn <= order
    ensures RawMap(idx, order, mn) < Pow2(order)
  {
    Split(idx, order, mn);
    var a, b := FieldA(idx, order, mn), FieldB(idx, order, mn);
    RawMapRotates(idx, order, mn, Shr(idx, order), a, b);
    FieldsBound(order, mn, a, b);
  }

  lemma OrCommutes(x: nat, y: nat)
    ensures Or(x, y) == Or(y, x)
  {
    forall i: nat ensures Bit(Or(x, y), i) == Bit(Or(y, x), i) { OrBit(x, y, i); OrBit(y, x, i); }
    SameBits(Or(x, y), Or(y, x));
  }

  /** The fields of a ticket. */
  function FieldA(idx: nat, order: nat, mn: nat): nat
    requires mn <= order
  {
    Shr(Low(idx, order), order - mn)
  }

  function FieldB(idx: nat, order: nat, mn: nat): nat
    requires mn <= order
  {
    Low(Low(idx, order), order - mn)
  }

  lemma Split(idx: nat, order: nat, mn: nat)
    requires mn <= order
    ensures Fields(idx, order, mn, Shr(idx, order), FieldA(idx, order, mn), FieldB(idx, order, mn))
  {
    Parts(idx, order);
    Parts(Low(idx, order), order - mn);
    Pow2Add(mn, order - mn);
    var a := FieldA(idx, order, mn);
    if a >= Pow2(mn) { MulMono(Pow2(mn), a, Pow2(order - mn)); }
  }

  /** The ticket below n that maps to slot j. */
  function First(j: nat, order: nat, mn: nat): nat
    requires mn <= order
  {
    Low(j, mn) * Pow2(order - mn) + Shr(j, mn)
  }

  lemma FirstFields(j: nat, order: nat, mn: nat)
    requires mn <= order && j < Pow2(order)
    ensures j == Shr(j, mn) * Pow2(mn) + Low(j, mn)
    ensures Fields(First(j, order, mn), order, mn, 0, Low(j, mn), Shr(j, mn))
    ensures First(j, order, mn) < Pow2(order)
  {
    Parts(j, mn);
    Pow2Add(mn, order - mn);
    var b := Shr(j, mn);
    if b >= Pow2(order - mn) { MulMono(Pow2(order - mn), b, Pow2(mn)); }
    FieldsBound(order, mn, Low(j, mn), b);
  }

  /** Slot map and First are inverse to each other on the n tickets of a cycle: the map is a
      permutation of the slots. */
  lemma MapPermutes(order: nat, mn: nat, j: nat)
    requires mn <= order && j < Pow2(order)
    ensures First(j, order, mn) < Pow2(order) && RawMap(First(j, order, mn), order, mn) == j
    ensures RawMap(j, order, mn) < Pow2(order) && First(RawMap(j, order, mn), order, mn) == j
  {
    FirstFields(j, order, mn);
    RawMapRotates(First(j, order, mn), order, mn, 0, Low(j, mn), Shr(j, mn));
    Split(j, order, mn);
    SmallParts(j, order);
    RawMapBound(j, order, mn);
    var a, b := FieldA(j, order, mn), FieldB(j, order, mn);
    RawMapRotates(j, order, mn, 0, a, b);
    PartsUnique(b, a, mn);
  }

  /** Tickets share a slot exactly when they are congruent modulo n. */
  lemma MapCongruent(T: nat, U: nat, order: nat, mn: nat)
    requires mn <= order
    ensures RawMap(T, order, mn) == RawMap(U, order, mn) <==> Low(T, order) == Low(U, order)
  {
    Split(T, order, mn);
    Split(U, order, mn);
    var a, b := FieldA(T, order, mn), FieldB(T, order, mn);
    var c, d := FieldA(U, order, mn), FieldB(U, order, mn);
    RawMapRotates(T, order, mn, Shr(T, order), a, b);
    RawMapRotates(U, order, mn, Shr(U, order), c, d);
    PartsUnique(b, a, mn);
    PartsUnique(d, c, mn);
    Parts(Low(T, order), order - mn);
    Parts(Low(U, order), order - mn);
  }

  // ----- the geometry of a real ring -----

  function RingGeo(order: nat, mn: nat): R.Geo
    requires mn <= order
  {
    R.Geo(Pow2(order + 1), T => Map(T, order, mn), T => Shr(T, order + 1))
  }

  lemma GeoSlots(order: nat, mn: nat)
    requires mn <= order
    ensures R.GeoOk(RingGeo(order, mn))
  {
    var g := RingGeo(order, mn);
    assert g.n == 2 * Pow2(order);
    forall T: nat ensures g.slot(T) < g.n {
      RawMapBound(T, order + 1, mn);
    }
    forall T: nat, U: nat {:trigger R.Same(g, T, U)} | R.Same(g, T, U) ensures T < U <==> g.cycle(T) < g.cycle(U) {
      MapCongruent(T, U, order + 1, mn);
      SameLow(T, U, order + 1);
    }
  }

  ghost function RingFirst(order: nat, mn: nat): nat -> nat
    requires mn <= order
  {
    j => First(j, order + 1, mn)
  }

  lemma SlotOfFirst(order: nat, mn: nat, j: nat)
    requires mn <= order && j < RingGeo(order, mn).n
    ensures RingFirst(order, mn)(j) < RingGeo(order, mn).n
    ensures RingGeo(order, mn).slot(RingFirst(order, mn)(j)) == j
  {
    MapPermutes(order + 1, mn, j);
  }

  lemma FirstOfSlot(order: nat, mn: nat, T: nat)
    requires mn <= order && T < RingGeo(order, mn).n
    ensures RingFirst(order, mn)(RingGeo(order, mn).slot(T)) == T
  {
    MapPermutes(order + 1, mn, T);
  }

  lemma FirstCycle(order: nat, mn: nat, T: nat)
    requires mn <= order && T < RingGeo(order, mn).n
    ensures RingGeo(order, mn).cycle(T) == 0
  {
    SmallParts(T, order + 1);
  }

  /** Every ring of the source, for every order at least LFRING_MIN, is an instance of the
      geometry the step system is proved for. */
  lemma RingGeoFresh(order: nat, mn: nat)
    requires mn <= order
    ensures R.GeoFresh(RingGeo(order, mn), RingFirst(order, mn))
  {
    GeoSlots(order, mn);
    forall j: nat | j < RingGeo(order, mn).n
      ensures RingFirst(order, mn)(j) < RingGeo(order, mn).n && RingGeo(order, mn).slot(RingFirst(order, mn)(j)) == j
    {
      SlotOfFirst(order, mn, j);
    }
    forall T: nat | T < RingGeo(order, mn).n
      ensures RingGeo(order, mn).cycle(T) == 0 && RingFirst(order, mn)(RingGeo(order, mn).slot(T)) == T
    {
      FirstOfSlot(order, mn, T);
      FirstCycle(order, mn, T);
    }
  }
}
