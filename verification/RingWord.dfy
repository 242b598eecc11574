/** A slot of include/bmk-core/lfring.h as the one word it is: cycle, safe bit and index in the bit
    fields of an integer, and the source's bit expressions on such words as the operations on
    fields that the step system uses.  A ring has n = 2^k slots; words are two's complement without
    bound, so that the word -1 is cycle -1, safe, and the empty pattern. */
module RingWord {
  import opened Bits
  import opened Common
  import R = RingSteps

  predicate Fits(k: nat, e: R.Entry) { e.idx < Pow2(k) }

  /** The low k + 1 bits: safe bit over index. */
  function Field(k: nat, e: R.Entry): nat { (if e.safe then Pow2(k) else 0) + e.idx }

  function Word(k: nat, e: R.Entry): int { e.cycle * Pow2(k + 1) + Field(k, e) }

  // ----- operations with a mask below 2^(k+1): they work on the low bits -----

  function High(k: nat, w: int): int { w / Pow2(k + 1) }
  function Rest(k: nat, w: int): nat { w % Pow2(k + 1) }

  function OrWord(k: nat, w: int, m: nat): int { High(k, w) * Pow2(k + 1) + Or(Rest(k, w), m) }
  function AndWord(k: nat, w: int, m: nat): int { And(Rest(k, w), m) }
  function XorWord(k: nat, w: int, m: nat): int { High(k, w) * Pow2(k + 1) + Xor(Rest(k, w), m) }

  /** w & ~m and ~w & m. */
  function AndNot(k: nat, w: int, m: nat): int
    requires m < Pow2(k + 1)
  {
    High(k, w) * Pow2(k + 1) + And(Rest(k, w), Pow2(k + 1) - 1 - m)
  }

  function NotAnd(k: nat, w: int, m: nat): nat { And(Pow2(k + 1) - 1 - Rest(k, w), m) }

  // ----- fields of a word -----

  lemma DivUnique(c: int, d: int, r: int)
    requires 0 <= r < d
    ensures (c * d + r) / d == c && (c * d + r) % d == r
  {
    var x := c * d + r;
    var q, s := x / d, x % d;
    assert x == q * d + s;
    if q < c { Apart(q, c, d); }
    if c < q { Apart(c, q, d); }
  }

  lemma Apart(a: int, b: int, d: int)
    requires a < b && d > 0
    ensures a * d + d <= b * d
  {
    assert (b - a) * d >= d by { MulMono(1, b - a, d); }
  }

  lemma FieldBound(k: nat, e: R.Entry)
    requires Fits(k, e)
    ensures Field(k, e) < Pow2(k + 1)
  {
  }

  lemma WordFields(k: nat, e: R.Entry)
    requires Fits(k, e)
    ensures High(k, Word(k, e)) == e.cycle && Rest(k, Word(k, e)) == Field(k, e) < Pow2(k + 1)
  {
    FieldBound(k, e);
    DivUnique(e.cycle, Pow2(k + 1), Field(k, e));
  }

  /** Words are equal exactly if their fields are. */
  lemma WordInjective(k: nat, e: R.Entry, f: R.Entry)
    requires Fits(k, e) && Fits(k, f)
    ensures Word(k, e) == Word(k, f) <==> e == f
  {
    WordFields(k, e);
    WordFields(k, f);
  }

  // ----- masks on the low bits -----

  lemma XorCommutes(x: nat, y: nat)
    ensures Xor(x, y) == Xor(y, x)
  {
    forall i: nat ensures Bit(Xor(x, y), i) == Bit(Xor(y, x), i) { XorBit(x, y, i); XorBit(y, x, i); }
    SameBits(Xor(x, y), Xor(y, x));
  }

  /** The bit above k low ones, in a field b * 2^k + lo. */
  lemma TopBit(b: nat, lo: nat, k: nat)
    requires b < 2 && lo < Pow2(k)
    ensures Or(b * Pow2(k) + lo, Pow2(k)) == Pow2(k) + lo && And(b * Pow2(k) + lo, Pow2(k)) == b * Pow2(k)
  {
    var x, n := b * Pow2(k) + lo, Pow2(k);
    forall i: nat ensures Bit(Or(x, n), i) == Bit(1 * n + lo, i) && Bit(And(x, n), i) == Bit(b * n, i) {
      OrBit(x, n, i);
      AndBit(x, n, i);
      SplitBit(b, lo, k, i);
      SplitBit(1, lo, k, i);
      SplitBit(1, 0, k, i);
      SplitBit(b, 0, k, i);
      ZeroBit(i);
      if i >= k + 1 { OneOrNone(b, i - k); OneOrNone(1, i - k); }
    }
    SameBits(Or(x, n), 1 * n + lo);
    SameBits(And(x, n), b * n);
  }

  lemma OneOrNone(b: nat, i: nat)
    requires b < 2 && i > 0
    ensures !Bit(b, i)
  {
    ZeroBit(i - 1);
  }

  // ----- the expressions of lfring_enqueue and lfring_dequeue -----

  /** entry | (2n - 1): the cycle, with the safe bit and the empty pattern. */
  lemma CycleOf(k: nat, e: R.Entry)
    requires Fits(k, e)
    ensures OrWord(k, Word(k, e), Pow2(k + 1) - 1) == Word(k, R.Entry(e.cycle, true, Pow2(k) - 1))
  {
    WordFields(k, e);
    MaskLow(Field(k, e), k + 1);
    SmallParts(Field(k, e), k + 1);
  }

  /** (ticket << 1) | (2n - 1). */
  lemma CycleOfTicket(k: nat, T: nat)
    ensures Or(2 * T, Pow2(k + 1) - 1) == Word(k, R.Entry(Shr(T, k), true, Pow2(k) - 1))
  {
    MaskLow(2 * T, k + 1);
    assert Shr(2 * T, k + 1) == Shr(T, k);
  }

  /** The comparison of such words is that of the cycles. */
  lemma CycleCompare(k: nat, c: int, d: int)
    ensures Word(k, R.Entry(c, true, Pow2(k) - 1)) < Word(k, R.Entry(d, true, Pow2(k) - 1)) <==> c < d
  {
    if c < d { Apart(c, d, Pow2(k + 1)); }
    if d < c { Apart(d, c, Pow2(k + 1)); }
  }

  /** entry == ecycle, entry == (ecycle ^ n) and (entry | n) != ecycle: is the slot empty, and is it
      safe. */
  lemma EmptyTests(k: nat, e: R.Entry)
    requires Fits(k, e)
    ensures var ecycle := Word(k, R.Entry(e.cycle, true, Pow2(k) - 1));
            && (Word(k, e) == ecycle <==> e.safe && e.idx == Pow2(k) - 1)
            && (Word(k, e) == XorWord(k, ecycle, Pow2(k)) <==> !e.safe && e.idx == Pow2(k) - 1)
            && (OrWord(k, Word(k, e), Pow2(k)) != ecycle <==> e.idx != Pow2(k) - 1)
  {
    var full := R.Entry(e.cycle, true, Pow2(k) - 1);
    WordInjective(k, e, full);
    UnsafeFull(k, e.cycle);
    WordInjective(k, e, full.(safe := false));
    MadeSafe(k, e);
    WordInjective(k, e.(safe := true), full);
  }

  lemma UnsafeFull(k: nat, c: int)
    ensures XorWord(k, Word(k, R.Entry(c, true, Pow2(k) - 1)), Pow2(k)) == Word(k, R.Entry(c, false, Pow2(k) - 1))
  {
    WordFields(k, R.Entry(c, true, Pow2(k) - 1));
    XorOnes(0, Pow2(k), k + 1);
  }

  lemma MadeSafe(k: nat, e: R.Entry)
    requires Fits(k, e)
    ensures OrWord(k, Word(k, e), Pow2(k)) == Word(k, e.(safe := true))
  {
    WordFields(k, e);
    TopBit(if e.safe then 1 else 0, e.idx, k);
  }

  /** Flipping low bits of a word that has them all set. */
  lemma FlipFull(k: nat, c: int, y: nat)
    requires y < Pow2(k + 1)
    ensures XorWord(k, Word(k, R.Entry(c, true, Pow2(k) - 1)), y) == c * Pow2(k + 1) + (Pow2(k + 1) - 1 - y)
  {
    WordFields(k, R.Entry(c, true, Pow2(k) - 1));
    XorOnes(0, y, k + 1);
  }

  lemma FlipIndex(k: nat, eidx: nat)
    requires eidx < Pow2(k)
    ensures Xor(eidx, Pow2(k) - 1) == Pow2(k) - 1 - eidx
  {
    XorCommutes(eidx, Pow2(k) - 1);
    XorOnes(0, eidx, k);
  }

  /** tcycle ^ eidx, after eidx ^= n - 1: the index under the ticket's cycle, safe. */
  lemma Stored(k: nat, c: int, eidx: nat)
    requires eidx < Pow2(k)
    ensures XorWord(k, Word(k, R.Entry(c, true, Pow2(k) - 1)), Xor(eidx, Pow2(k) - 1)) ==
            Word(k, R.Entry(c, true, eidx))
  {
    FlipIndex(k, eidx);
    FlipFull(k, c, Pow2(k) - 1 - eidx);
  }

  /** fetch_or of n - 1 empties the slot, and entry & (n - 1) is the index it held. */
  lemma Emptied(k: nat, e: R.Entry)
    requires Fits(k, e)
    ensures OrWord(k, Word(k, e), Pow2(k) - 1) == Word(k, e.(idx := Pow2(k) - 1)) &&
            AndWord(k, Word(k, e), Pow2(k) - 1) == e.idx
  {
    WordFields(k, e);
    LowMask(if e.safe then 1 else 0, e.idx, k);
  }

  /** entry & ~n clears the safe bit, and changes nothing exactly if it is clear. */
  lemma Unsafe(k: nat, e: R.Entry)
    requires Fits(k, e)
    ensures AndNot(k, Word(k, e), Pow2(k)) == Word(k, e.(safe := false))
    ensures Word(k, e) == AndNot(k, Word(k, e), Pow2(k)) <==> !e.safe
  {
    WordFields(k, e);
    LowMask(if e.safe then 1 else 0, e.idx, k);
    WordInjective(k, e, e.(safe := false));
  }

  /** hcycle ^ (~entry & n): an empty slot moves to the ticket's cycle and keeps its safe bit. */
  lemma Advanced(k: nat, e: R.Entry, c: int)
    requires Fits(k, e)
    ensures XorWord(k, Word(k, R.Entry(c, true, Pow2(k) - 1)), NotAnd(k, Word(k, e), Pow2(k)))
         == Word(k, R.Entry(c, e.safe, Pow2(k) - 1))
  {
    SafeBitOf(k, e);
    FlipFull(k, c, if e.safe then 0 else Pow2(k));
  }

  lemma SafeBitOf(k: nat, e: R.Entry)
    requires Fits(k, e)
    ensures NotAnd(k, Word(k, e), Pow2(k)) == if e.safe then 0 else Pow2(k)
  {
    WordFields(k, e);
    TopBit(if e.safe then 0 else 1, Pow2(k) - 1 - e.idx, k);
  }

  /** The words that the initializers store: -1, n + i, 2n - 1, and a bare index. */
  lemma InitialWords(k: nat, i: nat)
    requires i < Pow2(k)
    ensures Word(k, R.Entry(-1, true, Pow2(k) - 1)) == -1
    ensures Word(k, R.Entry(0, true, i)) == Pow2(k) + i && Word(k, R.Entry(0, false, i)) == i
    ensures Word(k, R.Entry(0, true, Pow2(k) - 1)) == 2 * Pow2(k) - 1
  {
  }

  // ----- the decisions of the step system, on words -----

  /** A ring whose cycles are the tickets' high bits, as RingMap.RingGeo has it. */
  ghost predicate Words(k: nat, g: R.Geo) { g.n == Pow2(k) && forall T: nat :: g.cycle(T) == Shr(T, k) }

  /** What a thread computes first: the cycle word of the slot it has read, and of its ticket. */
  lemma CycleWords(k: nat, g: R.Geo, T: nat, e: R.Entry)
    requires Words(k, g) && Fits(k, e)
    ensures var ec, tc := OrWord(k, Word(k, e), Pow2(k + 1) - 1), Or(2 * T, Pow2(k + 1) - 1);
            && ec == Word(k, R.Entry(e.cycle, true, Pow2(k) - 1)) && (ec < tc <==> e.cycle < g.cycle(T))
            && (ec == tc <==> e.cycle == g.cycle(T))
  {
    CycleOf(k, e);
    CycleOfTicket(k, T);
    CycleCompare(k, e.cycle, g.cycle(T));
    CycleCompare(k, g.cycle(T), e.cycle);
  }

  /** An enqueuer's tests on the word it has read decide as the step system does. */
  lemma EnqueuerDecides(k: nat, g: R.Geo, eidx: nat, ne: bool, T: nat, e: R.Entry)
    requires Words(k, g) && Fits(k, e)
    ensures var w := Word(k, e);
            var ec, tc := OrWord(k, w, Pow2(k + 1) - 1), Or(2 * T, Pow2(k + 1) - 1);
            R.EnqDecide(g, eidx, ne, T, e) ==
              if ec < tc && w == ec then R.EnqCas(eidx, ne, T, e)
              else if ec < tc && w == XorWord(k, ec, Pow2(k)) then R.EnqHead(eidx, ne, T, e)
              else R.EnqDraw(eidx, ne)
  {
    CycleWords(k, g, T, e);
    EmptyTests(k, e);
  }

  /** A dequeuer's tests, and the word it will try to put in place of the one it has read. */
  lemma DequeuerDecides(k: nat, g: R.Geo, ne: bool, H: nat, e: R.Entry)
    requires Words(k, g) && Fits(k, e)
    ensures var w, d := Word(k, e), R.DeqDecide(g, ne, H, e);
            var ec, hc := OrWord(k, w, Pow2(k + 1) - 1), Or(2 * H, Pow2(k + 1) - 1);
            if ec == hc then AndWord(k, w, Pow2(k) - 1) >= 0 && d == Some(R.DeqTake(ne, H, AndWord(k, w, Pow2(k) - 1)))
            else if OrWord(k, w, Pow2(k)) != ec then
              if w == AndNot(k, w, Pow2(k)) || ec > hc then d == None
              else d.Some? && d.value.DeqCas? && d.value.e == e && Word(k, d.value.enew) == AndNot(k, w, Pow2(k))
            else if ec < hc then
              && d.Some? && d.value.DeqCas? && d.value.e == e
              && Word(k, d.value.enew) == XorWord(k, hc, NotAnd(k, w, Pow2(k)))
            else d == None
  {
    CycleWords(k, g, H, e);
    EmptyTests(k, e);
    Emptied(k, e);
    Unsafe(k, e);
    CycleOfTicket(k, H);
    Advanced(k, e, g.cycle(H));
  }
}
