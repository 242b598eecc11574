/** Bitwise operators on unbounded naturals, and the facts about masks that the ring, the
    allocation bitmap and the allocator's alignment arithmetic rely on. */
module Bits {

  function Pow2(k: nat): (p: nat)
    ensures p >= 1
  {
    if k == 0 then 1 else 2 * Pow2(k - 1)
  }

  predicate Bit(x: nat, i: nat) { if i == 0 then x % 2 == 1 else Bit(x / 2, i - 1) }

  function And(x: nat, y: nat): nat {
    if x == 0 || y == 0 then 0 else 2 * And(x / 2, y / 2) + (x % 2) * (y % 2)
  }

  function Or(x: nat, y: nat): nat
    decreases x + y
  {
    if x == 0 then y else if y == 0 then x
    else 2 * Or(x / 2, y / 2) + (if x % 2 == 1 || y % 2 == 1 then 1 else 0)
  }

  function Xor(x: nat, y: nat): nat
    decreases x + y
  {
    if x == 0 then y else if y == 0 then x
    else 2 * Xor(x / 2, y / 2) + (if x % 2 != y % 2 then 1 else 0)
  }

  lemma {:induction false} ZeroBit(i: nat)
    ensures !Bit(0, i)
  {
    if i > 0 { ZeroBit(i - 1); }
  }

  lemma {:induction false} AndBit(x: nat, y: nat, i: nat)
    ensures Bit(And(x, y), i) <==> Bit(x, i) && Bit(y, i)
  {
    if x == 0 || y == 0 { ZeroBit(i); }
    else {
      var r := And(x / 2, y / 2);
      assert And(x, y) / 2 == r;
      if i > 0 { AndBit(x / 2, y / 2, i - 1); }
    }
  }

  lemma {:induction false} OrBit(x: nat, y: nat, i: nat)
    ensures Bit(Or(x, y), i) <==> Bit(x, i) || Bit(y, i)
    decreases i
  {
    if x == 0 || y == 0 { ZeroBit(i); }
    else {
      assert Or(x, y) / 2 == Or(x / 2, y / 2);
      if i > 0 { OrBit(x / 2, y / 2, i - 1); }
    }
  }

  lemma {:induction false} XorBit(x: nat, y: nat, i: nat)
    ensures Bit(Xor(x, y), i) <==> Bit(x, i) != Bit(y, i)
    decreases i
  {
    if x == 0 || y == 0 { ZeroBit(i); }
    else {
      assert Xor(x, y) / 2 == Xor(x / 2, y / 2);
      if i > 0 { XorBit(x / 2, y / 2, i - 1); }
    }
  }

  /** A natural is determined by its bits. */
  lemma {:induction false} SameBits(x: nat, y: nat)
    requires forall i: nat :: Bit(x, i) == Bit(y, i)
    ensures x == y
    decreases x + y
  {
    if x + y > 0 {
      assert Bit(x, 0) == Bit(y, 0);
      forall i: nat ensures Bit(x / 2, i) == Bit(y / 2, i) { assert Bit(x, i + 1) == Bit(y, i + 1); }
      SameBits(x / 2, y / 2);
    }
  }

  lemma {:induction false} Pow2Add(a: nat, b: nat)
    ensures Pow2(a + b) == Pow2(a) * Pow2(b)
  {
    if a > 0 { Pow2Add(a - 1, b); }
  }

  lemma {:induction false} Pow2Mono(a: nat, b: nat)
    requires a <= b
    ensures Pow2(a) <= Pow2(b) && (a < b ==> 2 * Pow2(a) <= Pow2(b))
    decreases b
  {
    if a < b { Pow2Mono(a, b - 1); }
  }

  /** The bits of hi * 2^k + lo are those of lo below k and those of hi from k on. */
  lemma {:induction false} SplitBit(hi: nat, lo: nat, k: nat, i: nat)
    requires lo < Pow2(k)
    ensures Bit(hi * Pow2(k) + lo, i) == if i < k then Bit(lo, i) else Bit(hi, i - k)
    decreases k
  {
    if k > 0 {
      var x := hi * Pow2(k) + lo;
      assert x == 2 * (hi * Pow2(k - 1)) + lo;
      assert x / 2 == hi * Pow2(k - 1) + lo / 2 && x % 2 == lo % 2;
      if i > 0 { SplitBit(hi, lo / 2, k - 1, i - 1); }
    }
  }

  lemma {:induction false} OnesBit(k: nat, i: nat)
    ensures Bit(Pow2(k) - 1, i) <==> i < k
    decreases k
  {
    if k == 0 { ZeroBit(i); }
    else {
      assert (Pow2(k) - 1) / 2 == Pow2(k - 1) - 1;
      if i > 0 { OnesBit(k - 1, i - 1); }
    }
  }

  lemma {:induction false} HighBitsZero(x: nat, k: nat, i: nat)
    requires x < Pow2(k) <= Pow2(i)
    requires k <= i
    ensures !Bit(x, i)
    decreases k
  {
    if k == 0 { ZeroBit(i); }
    else {
      Pow2Mono(k - 1, i - 1);
      HighBitsZero(x / 2, k - 1, i - 1);
    }
  }

  /** Masking hi * 2^k + lo with 2^k - 1 leaves lo; filling the low k bits leaves hi. */
  lemma LowMask(hi: nat, lo: nat, k: nat)
    requires lo < Pow2(k)
    ensures And(hi * Pow2(k) + lo, Pow2(k) - 1) == lo
    ensures Or(hi * Pow2(k) + lo, Pow2(k) - 1) == hi * Pow2(k) + (Pow2(k) - 1)
  {
    var ones := Pow2(k) - 1;
    var x, y := hi * Pow2(k) + lo, hi * Pow2(k) + ones;
    forall i: nat ensures Bit(And(x, ones), i) == Bit(lo, i) {
      AndBit(x, ones, i); OnesBit(k, i); SplitBit(hi, lo, k, i);
      if i >= k { Pow2Mono(k, i); HighBitsZero(lo, k, i); }
    }
    SameBits(And(x, ones), lo);
    forall i: nat ensures Bit(Or(x, ones), i) == Bit(y, i) {
      OrBit(x, ones, i); OnesBit(k, i); SplitBit(hi, lo, k, i); SplitBit(hi, ones, k, i);
    }
    SameBits(Or(x, ones), y);
  }

  /** x >> k and the k bits it drops. */
  function Shr(x: nat, k: nat): nat { if k == 0 then x else Shr(x / 2, k - 1) }
  function Low(x: nat, k: nat): nat { if k == 0 then 0 else x % 2 + 2 * Low(x / 2, k - 1) }

  lemma {:induction false} Parts(x: nat, k: nat)
    ensures Low(x, k) < Pow2(k) && x == Shr(x, k) * Pow2(k) + Low(x, k)
  {
    if k > 0 {
      Parts(x / 2, k - 1);
      assert Shr(x, k) * Pow2(k) == 2 * (Shr(x / 2, k - 1) * Pow2(k - 1));
    }
  }

  lemma {:induction false} PartsUnique(hi: nat, lo: nat, k: nat)
    requires lo < Pow2(k)
    ensures Shr(hi * Pow2(k) + lo, k) == hi && Low(hi * Pow2(k) + lo, k) == lo
  {
    if k > 0 {
      var x := hi * Pow2(k) + lo;
      assert x == 2 * (hi * Pow2(k - 1)) + lo;
      assert x / 2 == hi * Pow2(k - 1) + lo / 2 && x % 2 == lo % 2;
      PartsUnique(hi, lo / 2, k - 1);
    }
  }

  lemma SmallParts(x: nat, k: nat)
    requires x < Pow2(k)
    ensures Shr(x, k) == 0 && Low(x, k) == x
  {
    PartsUnique(0, x, k);
  }

  lemma MaskLow(x: nat, k: nat)
    ensures And(x, Pow2(k) - 1) == Low(x, k)
    ensures Or(x, Pow2(k) - 1) == Shr(x, k) * Pow2(k) + (Pow2(k) - 1)
  {
    Parts(x, k);
    LowMask(Shr(x, k), Low(x, k), k);
  }

  /** Low k bits decide, and order, numbers with equal high parts; high parts order numbers
      with equal low bits. */
  lemma SameLow(x: nat, y: nat, k: nat)
    requires Low(x, k) == Low(y, k)
    ensures x < y <==> Shr(x, k) < Shr(y, k)
  {
    Parts(x, k);
    Parts(y, k);
    MulLess(Shr(x, k), Shr(y, k), Pow2(k));
  }

  lemma MulLess(x: nat, y: nat, z: nat)
    requires z > 0
    ensures x < y <==> x * z < y * z
  {
    if x < y { assert x * z < (x + 1) * z; MulMono(x + 1, y, z); }
    else { MulMono(y, x, z); }
  }

  lemma MulMono(x: nat, y: nat, z: nat)
    requires x <= y
    ensures x * z <= y * z
  {
  }

  /** Operands that share no bit position: | and ^ are both +. */
  lemma DisjointOr(hi: nat, lo: nat, k: nat)
    requires lo < Pow2(k)
    ensures Or(hi * Pow2(k), lo) == hi * Pow2(k) + lo == Xor(hi * Pow2(k), lo)
  {
    var x := hi * Pow2(k);
    forall i: nat ensures Bit(Or(x, lo), i) == Bit(x + lo, i) && Bit(Xor(x, lo), i) == Bit(x + lo, i) {
      OrBit(x, lo, i); XorBit(x, lo, i); SplitBit(hi, 0, k, i); SplitBit(hi, lo, k, i); ZeroBit(i);
      if i >= k { Pow2Mono(k, i); HighBitsZero(lo, k, i); }
    }
    SameBits(Or(x, lo), x + lo);
    SameBits(Xor(x, lo), x + lo);
  }

  /** Flipping bits of an all-ones tail subtracts them. */
  lemma XorOnes(hi: nat, y: nat, k: nat)
    requires y < Pow2(k)
    ensures Xor(hi * Pow2(k) + (Pow2(k) - 1), y) == hi * Pow2(k) + (Pow2(k) - 1 - y)
  {
    var p := Pow2(k);
    var x := hi * p + (p - 1);
    forall i: nat ensures Bit(Xor(x, y), i) == Bit(hi * p + (p - 1 - y), i) {
      XorBit(x, y, i); SplitBit(hi, p - 1, k, i); SplitBit(hi, p - 1 - y, k, i); OnesBit(k, i);
      if i >= k { Pow2Mono(k, i); HighBitsZero(y, k, i); } else { ComplementBit(y, k, i); }
    }
    SameBits(Xor(x, y), hi * p + (p - 1 - y));
  }

  lemma {:induction false} ComplementBit(y: nat, k: nat, i: nat)
    requires y < Pow2(k)
    ensures Bit(Pow2(k) - 1 - y, i) <==> i < k && !Bit(y, i)
    decreases k
  {
    if k == 0 { ZeroBit(i); }
    else {
      assert (Pow2(k) - 1 - y) / 2 == Pow2(k - 1) - 1 - y / 2;
      if i > 0 { ComplementBit(y / 2, k - 1, i - 1); }
    }
  }

  lemma {:induction false} OrBelow(x: nat, y: nat, k: nat)
    requires x < Pow2(k) && y < Pow2(k)
    ensures Or(x, y) < Pow2(k)
    decreases k
  {
    if k > 0 && x > 0 && y > 0 { OrBelow(x / 2, y / 2, k - 1); }
  }

  lemma {:induction false} AndBelow(x: nat, y: nat)
    ensures And(x, y) <= x
  {
    if x > 0 && y > 0 { AndBelow(x / 2, y / 2); }
  }

  /** x & ~(2^k - 1) in w bits clears the low k bits. */
  lemma MaskHigh(x: nat, k: nat, w: nat)
    requires x < Pow2(w) && k <= w
    ensures Pow2(k) <= Pow2(w) && And(x, Pow2(w) - Pow2(k)) == Shr(x, k) * Pow2(k)
  {
    Pow2Mono(k, w);
    Parts(x, k);
    var hi, mask := Shr(x, k), Pow2(w) - Pow2(k);
    forall i: nat ensures Bit(And(x, mask), i) == Bit(hi * Pow2(k), i) {
      AndBit(x, mask, i);
      ComplementBit(Pow2(k) - 1, w, i);
      OnesBit(k, i);
      SplitBit(hi, 0, k, i);
      SplitBit(hi, Low(x, k), k, i);
      ZeroBit(i);
      if i >= w { Pow2Mono(w, i); HighBitsZero(x, w, i); }
    }
    SameBits(And(x, mask), hi * Pow2(k));
  }

  lemma {:induction false} AndSelf(x: nat)
    ensures And(x, x) == x
  {
    if x > 0 { AndSelf(x / 2); }
  }

  /** The test x & (x - 1) for a power of two. */
  lemma {:induction false} PowerTest(x: nat) returns (k: nat)
    requires x > 0
    ensures And(x, x - 1) == 0 <==> x == Pow2(k)
    ensures Pow2(k) <= x < 2 * Pow2(k)
  {
    if x == 1 { k := 0; }
    else {
      var l := PowerTest(x / 2);
      k := l + 1;
      AndSelf(x / 2);
      if x % 2 == 0 { assert (x - 1) / 2 == x / 2 - 1; } else { assert (x - 1) / 2 == x / 2; }
    }
  }
}
