/** The arithmetic of binary buddies: naturally aligned power-of-two blocks of page numbers, and
    the maximal ones of a set of free pages.  The block of level k that holds page p is named by
    p >> k, so a block is a level and a number. */
module Buddy {
  import opened Bits

  // ----- blocks -----

  /** p >> (k + 1) is half of p >> k. */
  lemma {:induction false} ShrStep(p: nat, k: nat)
    ensures Shr(p, k + 1) == Shr(p, k) / 2
  {
    if k > 0 { ShrStep(p / 2, k - 1); }
  }

  /** Pages in one block are in one block of every higher level. */
  lemma {:induction false} ShrMono(p: nat, q: nat, k: nat, l: nat)
    requires Shr(p, k) == Shr(q, k) && k <= l
    ensures Shr(p, l) == Shr(q, l)
    decreases l
  {
    if k < l {
      ShrMono(p, q, k, l - 1);
      ShrStep(p, l - 1);
      ShrStep(q, l - 1);
    }
  }

  lemma {:induction false} ShrShr(x: nat, k: nat, l: nat)
    ensures Shr(Shr(x, k), l) == Shr(x, k + l)
  {
    if k > 0 { ShrShr(x / 2, k - 1, l); }
  }

  /** x is the first page of its block of level k. */
  predicate Head(x: nat, k: nat) { Low(x, k) == 0 }

  /** The pages of the block that x heads are the Pow2(k) pages from x on. */
  lemma BlockPages(x: nat, k: nat, p: nat)
    requires Head(x, k)
    ensures Shr(p, k) == Shr(x, k) <==> x <= p < x + Pow2(k)
  {
    Parts(x, k);
    Parts(p, k);
    if x <= p < x + Pow2(k) { PartsUnique(Shr(x, k), p - x, k); }
  }

  /** A head of a level is one of every lower level. */
  lemma {:induction false} HeadLower(x: nat, k: nat, l: nat)
    requires Head(x, l) && k <= l
    ensures Head(x, k)
    decreases l
  {
    if k > 0 { HeadLower(x / 2, k - 1, l - 1); }
  }

  /** One block has one head. */
  lemma HeadUnique(x: nat, y: nat, k: nat)
    requires Head(x, k) && Head(y, k) && Shr(x, k) == Shr(y, k)
    ensures x == y
  {
    Parts(x, k);
    Parts(y, k);
  }

  lemma {:induction false} LowStep(x: nat, k: nat)
    ensures Low(x, k + 1) == Low(x, k) + if Shr(x, k) % 2 == 1 then Pow2(k) else 0
  {
    if k > 0 { LowStep(x / 2, k - 1); }
  }

  /** The next block of the same level. */
  lemma NextHead(x: nat, k: nat)
    requires Head(x, k)
    ensures Head(x + Pow2(k), k) && Shr(x + Pow2(k), k) == Shr(x, k) + 1
  {
    Parts(x, k);
    assert x + Pow2(k) == (Shr(x, k) + 1) * Pow2(k);
    PartsUnique(Shr(x, k) + 1, 0, k);
  }

  lemma PreviousHead(x: nat, k: nat)
    requires Head(x, k) && Shr(x, k) > 0
    ensures x >= Pow2(k) && Head(x - Pow2(k), k) && Shr(x - Pow2(k), k) == Shr(x, k) - 1
  {
    Parts(x, k);
    assert x - Pow2(k) == (Shr(x, k) - 1) * Pow2(k);
    PartsUnique(Shr(x, k) - 1, 0, k);
  }

  // ----- maximal free blocks -----

  /** Every page of block b of level k is free. */
  ghost predicate Whole(free: set<nat>, b: nat, k: nat) { forall p: nat :: Shr(p, k) == b ==> p in free }

  /** Block b of level k is free, and the block of the next level that holds it is not. */
  ghost predicate IsChunk(free: set<nat>, b: nat, k: nat) { Whole(free, b, k) && !Whole(free, b / 2, k + 1) }

  /** x heads a maximal free block of level k. */
  ghost predicate Heads(free: set<nat>, x: nat, k: nat) { Head(x, k) && IsChunk(free, Shr(x, k), k) }

  lemma WholeBelow(free: set<nat>, p: nat, k: nat, l: nat)
    requires k <= l && Whole(free, Shr(p, l), l)
    ensures Whole(free, Shr(p, k), k)
  {
    forall q: nat | Shr(q, k) == Shr(p, k) ensures q in free { ShrMono(q, p, k, l); }
  }

  lemma ParentWhole(free: set<nat>, p: nat, k: nat, l: nat)
    requires k < l && Whole(free, Shr(p, l), l)
    ensures Whole(free, Shr(p, k) / 2, k + 1)
  {
    ShrStep(p, k);
    WholeBelow(free, p, k + 1, l);
  }

  /** Maximal free blocks that share a page are the same. */
  lemma ChunksDisjoint(free: set<nat>, p: nat, k: nat, l: nat)
    requires IsChunk(free, Shr(p, k), k) && IsChunk(free, Shr(p, l), l)
    ensures k == l
  {
    if k < l { ParentWhole(free, p, k, l); }
    else if l < k { ParentWhole(free, p, l, k); }
  }

  /** Every free page is in a maximal free block, if some level is too high to be free. */
  lemma {:induction false} ChunkOf(free: set<nat>, p: nat, k: nat, top: nat) returns (l: nat)
    requires k <= top && Whole(free, Shr(p, k), k) && !Whole(free, Shr(p, top), top)
    ensures k <= l < top && IsChunk(free, Shr(p, l), l)
    decreases top - k
  {
    ShrStep(p, k);
    if Whole(free, Shr(p, k) / 2, k + 1) { l := ChunkOf(free, p, k + 1, top); }
    else { l := k; }
  }

  lemma WholeMono(small: set<nat>, big: set<nat>, b: nat, k: nat)
    requires small <= big
    ensures Whole(small, b, k) ==> Whole(big, b, k)
  {
  }

  /** A free set between page 0 and page Pow2(n) has no free block of level n or more. */
  lemma LevelBound(free: set<nat>, p: nat, k: nat, n: nat)
    requires Whole(free, Shr(p, k), k) && forall q :: q in free ==> 0 < q < Pow2(n)
    ensures k < n
  {
    assert p in free;
    if k >= n {
      SmallParts(p, n);
      SmallParts(0, n);
      ShrMono(0, p, n, k);
    }
  }

  // ----- taking a block out of a maximal free block -----

  /** Pages p to p + Pow2(order) leave the maximal free block of level `bucket` that p heads:
      `left` stays free, `rest` is the part of that block that does. */
  ghost predicate Split(free: set<nat>, p: nat, order: nat, bucket: nat, left: set<nat>, rest: set<nat>) {
    && Heads(free, p, bucket) && order <= bucket
    && (forall y :: y in left <==> y in free && !(p <= y < p + Pow2(order)))
    && (forall y :: y in rest <==> p + Pow2(order) <= y < p + Pow2(bucket))
  }

  lemma SplitPage(free: set<nat>, p: nat, order: nat, bucket: nat, left: set<nat>, rest: set<nat>, y: nat)
    requires Split(free, p, order, bucket, left, rest)
    ensures y in rest <==> y in left && Shr(y, bucket) == Shr(p, bucket)
    ensures y in free && y !in left ==> Shr(y, bucket) == Shr(p, bucket)
    ensures y in left ==> y in free
    ensures p !in left
  {
    BlockPages(p, bucket, y);
    Pow2Mono(order, bucket);
  }

  lemma SplitSubsets(free: set<nat>, p: nat, order: nat, bucket: nat, left: set<nat>, rest: set<nat>)
    requires Split(free, p, order, bucket, left, rest)
    ensures rest <= left <= free && p !in left
  {
    forall y | y in rest ensures y in left { SplitPage(free, p, order, bucket, left, rest, y); }
    SplitPage(free, p, order, bucket, left, rest, p);
  }

  lemma SplitKeeps(free: set<nat>, p: nat, order: nat, bucket: nat, left: set<nat>, rest: set<nat>, x: nat, k: nat)
    requires Split(free, p, order, bucket, left, rest) && Heads(free, x, k) && (x != p || k != bucket)
    ensures Heads(left, x, k)
  {
    forall y: nat | Shr(y, k) == Shr(x, k) ensures y in left {
      SplitPage(free, p, order, bucket, left, rest, y);
      if Shr(y, bucket) == Shr(p, bucket) {
        ChunksDisjoint(free, y, k, bucket);
        HeadUnique(x, p, k);
      }
    }
    SplitSubsets(free, p, order, bucket, left, rest);
    WholeMono(left, free, Shr(x, k) / 2, k + 1);
  }

  lemma SplitInside(free: set<nat>, p: nat, order: nat, bucket: nat, left: set<nat>, rest: set<nat>, x: nat, k: nat)
    requires Split(free, p, order, bucket, left, rest) && Whole(left, Shr(x, k), k) && Shr(x, bucket) == Shr(p, bucket)
    ensures k < bucket
  {
    SplitSubsets(free, p, order, bucket, left, rest);
    if k >= bucket { ShrMono(p, x, bucket, k); }
  }

  lemma SplitAdds(free: set<nat>, p: nat, order: nat, bucket: nat, left: set<nat>, rest: set<nat>, x: nat, k: nat)
    requires Split(free, p, order, bucket, left, rest) && Heads(rest, x, k)
    ensures Heads(left, x, k)
  {
    SplitSubsets(free, p, order, bucket, left, rest);
    WholeMono(rest, left, Shr(x, k), k);
    SplitPage(free, p, order, bucket, left, rest, x);
    SplitInside(free, p, order, bucket, left, rest, x, k);
    var y: nat :| Shr(y, k + 1) == Shr(x, k) / 2 && y !in rest;
    ShrStep(x, k);
    ShrMono(y, x, k + 1, bucket);
    SplitPage(free, p, order, bucket, left, rest, y);
  }

  lemma SplitOnly(free: set<nat>, p: nat, order: nat, bucket: nat, left: set<nat>, rest: set<nat>, x: nat, k: nat)
    requires Split(free, p, order, bucket, left, rest) && Heads(left, x, k)
    ensures if Shr(x, bucket) == Shr(p, bucket) then Heads(rest, x, k) else Heads(free, x, k)
  {
    SplitSubsets(free, p, order, bucket, left, rest);
    if Shr(x, bucket) == Shr(p, bucket) {
      SplitInside(free, p, order, bucket, left, rest, x, k);
      forall y: nat | Shr(y, k) == Shr(x, k) ensures y in rest {
        ShrMono(y, x, k, bucket);
        SplitPage(free, p, order, bucket, left, rest, y);
      }
      WholeMono(rest, left, Shr(x, k) / 2, k + 1);
    } else {
      WholeMono(left, free, Shr(x, k), k);
      if Whole(free, Shr(x, k) / 2, k + 1) { SplitOutside(free, p, order, bucket, left, rest, x, k); }
    }
  }

  lemma SplitOutside(free: set<nat>, p: nat, order: nat, bucket: nat, left: set<nat>, rest: set<nat>, x: nat, k: nat)
    requires Split(free, p, order, bucket, left, rest) && Heads(left, x, k) && Shr(x, bucket) != Shr(p, bucket)
    ensures !Whole(free, Shr(x, k) / 2, k + 1)
  {
    var y: nat :| Shr(y, k + 1) == Shr(x, k) / 2 && y !in left;
    ShrStep(x, k);
    SplitPage(free, p, order, bucket, left, rest, y);
    if k + 1 <= bucket { ShrMono(x, y, k + 1, bucket); }
    else if Whole(free, Shr(x, k) / 2, k + 1) { ParentWhole(free, y, bucket, k + 1); }
  }

  /** The maximal free blocks afterwards are the others, and those of the rest of the block. */
  lemma SplitChunks(free: set<nat>, p: nat, order: nat, bucket: nat, left: set<nat>, rest: set<nat>, x: nat, k: nat)
    requires Split(free, p, order, bucket, left, rest)
    ensures Heads(left, x, k) <==> (Heads(free, x, k) && (x != p || k != bucket)) || Heads(rest, x, k)
  {
    if Heads(free, x, k) && (x != p || k != bucket) { SplitKeeps(free, p, order, bucket, left, rest, x, k); }
    if Heads(rest, x, k) { SplitAdds(free, p, order, bucket, left, rest, x, k); }
    if Heads(left, x, k) { SplitOnly(free, p, order, bucket, left, rest, x, k); }
  }

  // ----- giving a block back -----

  /** The block of level k0 that x0 heads is given back to `free`, which makes it `after`; so far
      it has grown to the block of level j that y heads. */
  ghost predicate Merging(free: set<nat>, after: set<nat>, x0: nat, k0: nat, y: nat, j: nat) {
    && Head(x0, k0) && Head(y, j) && k0 <= j && Shr(x0, j) == Shr(y, j) && Whole(after, Shr(y, j), j)
    && (forall q: nat :: Shr(q, k0) == Shr(x0, k0) ==> q !in free)
    && (forall q: nat :: q in after <==> q in free || Shr(q, k0) == Shr(x0, k0))
  }

  /** h heads the buddy of the block of level j that y heads. */
  ghost predicate Buddies(y: nat, h: nat, j: nat) {
    Head(y, j) && Head(h, j) && Shr(h, j) / 2 == Shr(y, j) / 2 && Shr(h, j) != Shr(y, j)
  }

  /** Nothing that reaches up to the buddies' parent was free before. */
  lemma ParentNotFree(free: set<nat>, after: set<nat>, x0: nat, k0: nat, y: nat, j: nat)
    requires Merging(free, after, x0, k0, y, j)
    ensures !Whole(free, Shr(y, j) / 2, j + 1)
  {
    ShrStep(x0, j);
    assert x0 !in free;
  }

  /** The block given back, and all it has grown by, is inside the grown block. */
  lemma GivenInside(free: set<nat>, after: set<nat>, x0: nat, k0: nat, y: nat, j: nat, q: nat)
    requires Merging(free, after, x0, k0, y, j) && q in after && Shr(q, j) != Shr(y, j)
    ensures q in free
  {
    if Shr(q, k0) == Shr(x0, k0) { ShrMono(q, x0, k0, j); }
  }

  /** If the buddy's head is free, it heads a maximal free block, of level at most j. */
  lemma BuddyHeads(free: set<nat>, after: set<nat>, x0: nat, k0: nat, y: nat, j: nat, h: nat) returns (l: nat)
    requires Merging(free, after, x0, k0, y, j) && Buddies(y, h, j) && h in free
    ensures l <= j && Heads(free, h, l)
  {
    ParentNotFree(free, after, x0, k0, y, j);
    ShrStep(h, j);
    l := ChunkOf(free, h, 0, j + 1);
    HeadLower(h, l, j);
  }

  /** A buddy that is free as a whole is a maximal free block: the test of its level is exact. */
  lemma BuddyWhole(free: set<nat>, after: set<nat>, x0: nat, k0: nat, y: nat, j: nat, h: nat)
    requires Merging(free, after, x0, k0, y, j) && Buddies(y, h, j)
    ensures Whole(after, Shr(y, j) / 2, j + 1) <==> Heads(free, h, j)
  {
    ParentNotFree(free, after, x0, k0, y, j);
    if Whole(after, Shr(y, j) / 2, j + 1) {
      forall q: nat | Shr(q, j) == Shr(h, j) ensures q in free {
        ShrStep(q, j);
        GivenInside(free, after, x0, k0, y, j, q);
      }
    }
    if Heads(free, h, j) { BuddiesWhole(free, after, x0, k0, y, j, h); }
  }

  lemma BuddiesWhole(free: set<nat>, after: set<nat>, x0: nat, k0: nat, y: nat, j: nat, h: nat)
    requires Merging(free, after, x0, k0, y, j) && Buddies(y, h, j) && Whole(free, Shr(h, j), j)
    ensures Whole(after, Shr(y, j) / 2, j + 1)
  {
    forall q: nat | Shr(q, j + 1) == Shr(y, j) / 2 ensures q in after {
      ShrStep(q, j);
      assert Shr(q, j) == Shr(y, j) || Shr(q, j) == Shr(h, j);
    }
  }

  /** Merging with the buddy: the block of the next level that the lower of the two heads. */
  lemma MergeStep(free: set<nat>, after: set<nat>, x0: nat, k0: nat, y: nat, j: nat, h: nat, z: nat)
    requires Merging(free, after, x0, k0, y, j) && Buddies(y, h, j) && Heads(free, h, j)
    requires (z == y || z == h) && Head(z, j + 1)
    ensures Merging(free, after, x0, k0, z, j + 1)
  {
    BuddyWhole(free, after, x0, k0, y, j, h);
    ShrStep(z, j);
    ShrStep(y, j);
    ShrStep(x0, j);
  }

  /** Growing to the next level takes in exactly one more maximal free block, the buddy. */
  lemma MergeTakes(free: set<nat>, y: nat, j: nat, h: nat, x: nat, k: nat)
    requires Buddies(y, h, j) && Heads(free, h, j) && Heads(free, x, k)
    ensures Shr(x, j + 1) == Shr(y, j + 1) <==> Shr(x, j) == Shr(y, j) || (x == h && k == j)
  {
    ShrStep(x, j);
    ShrStep(y, j);
    if Shr(x, j) == Shr(h, j) {
      ChunksDisjoint(free, x, k, j);
      HeadUnique(x, h, j);
    }
  }

  lemma MergeKeeps(free: set<nat>, after: set<nat>, x0: nat, k0: nat, y: nat, j: nat, x: nat, k: nat)
    requires Merging(free, after, x0, k0, y, j) && !Whole(after, Shr(y, j) / 2, j + 1)
    requires Heads(free, x, k) && Shr(x, j) != Shr(y, j)
    ensures Heads(after, x, k)
  {
    WholeMono(free, after, Shr(x, k), k);
    var z: nat :| Shr(z, k + 1) == Shr(x, k) / 2 && z !in free;
    ShrStep(x, k);
    if z in after {
      if Shr(z, j) != Shr(y, j) { GivenInside(free, after, x0, k0, y, j, z); }
      if k + 1 <= j { ShrMono(x, z, k + 1, j); }
      else if Whole(after, Shr(x, k) / 2, k + 1) { ParentWhole(after, z, j, k + 1); }
    }
  }

  lemma MergeOnly(free: set<nat>, after: set<nat>, x0: nat, k0: nat, y: nat, j: nat, x: nat, k: nat)
    requires Merging(free, after, x0, k0, y, j) && !Whole(after, Shr(y, j) / 2, j + 1) && Heads(after, x, k)
    ensures (x == y && k == j) || (Heads(free, x, k) && Shr(x, j) != Shr(y, j))
  {
    if Shr(x, j) == Shr(y, j) {
      ChunksDisjoint(after, x, k, j);
      HeadUnique(x, y, j);
    } else {
      forall q: nat | Shr(q, k) == Shr(x, k) ensures q in free {
        if Shr(q, j) == Shr(y, j) { ChunksDisjoint(after, q, k, j); }
        GivenInside(free, after, x0, k0, y, j, q);
      }
      WholeMono(free, after, Shr(x, k) / 2, k + 1);
    }
  }

  /** When the block grows no further, the maximal free blocks are it and those outside it. */
  lemma MergeChunks(free: set<nat>, after: set<nat>, x0: nat, k0: nat, y: nat, j: nat, x: nat, k: nat)
    requires Merging(free, after, x0, k0, y, j) && !Whole(after, Shr(y, j) / 2, j + 1)
    ensures Heads(after, x, k) <==> (x == y && k == j) || (Heads(free, x, k) && Shr(x, j) != Shr(y, j))
  {
    if Heads(free, x, k) && Shr(x, j) != Shr(y, j) { MergeKeeps(free, after, x0, k0, y, j, x, k); }
    if Heads(after, x, k) { MergeOnly(free, after, x0, k0, y, j, x, k); }
  }

  /** Before any merging, no maximal free block is inside the block given back. */
  lemma MergeStart(free: set<nat>, after: set<nat>, x0: nat, k0: nat, x: nat, k: nat)
    requires Merging(free, after, x0, k0, x0, k0) && Heads(free, x, k)
    ensures Shr(x, k0) != Shr(x0, k0)
  {
    assert x in free;
  }

  /** The two ways to find the buddy, by the bit of the address at the block's size. */
  lemma BuddyAbove(y: nat, j: nat)
    requires Head(y, j) && !Bit(y, j)
    ensures Buddies(y, y + Pow2(j), j) && Head(y, j + 1)
  {
    BitOfShr(y, j);
    NextHead(y, j);
    LowStep(y, j);
  }

  lemma BuddyBelow(y: nat, j: nat)
    requires Head(y, j) && Bit(y, j)
    ensures y >= Pow2(j) && Buddies(y, y - Pow2(j), j) && Head(y - Pow2(j), j + 1)
  {
    BitOfShr(y, j);
    PreviousHead(y, j);
    LowStep(y - Pow2(j), j);
  }

  lemma {:induction false} BitOfShr(y: nat, j: nat)
    ensures Bit(y, j) <==> Shr(y, j) % 2 == 1
  {
    if j > 0 { BitOfShr(y / 2, j - 1); }
  }

  // ----- cutting a range into maximal blocks from the left -----

  function Ctz(a: nat): nat
    requires a > 0
  {
    if a % 2 == 1 then 0 else 1 + Ctz(a / 2)
  }

  function FloorLog(n: nat): (r: nat)
    requires n > 0
    ensures Pow2(r) <= n < 2 * Pow2(r)
  {
    if n == 1 then 0 else 1 + FloorLog(n / 2)
  }

  /** Alignment: a heads its blocks up to level Ctz(a). */
  lemma {:induction false} HeadCtz(a: nat, k: nat)
    requires a > 0
    ensures Head(a, k) <==> k <= Ctz(a)
    decreases k
  {
    if k > 0 && a % 2 == 0 { HeadCtz(a / 2, k - 1); }
  }

  ghost predicate IsRange(span: set<nat>, lo: nat, hi: nat) { forall p: nat :: p in span <==> lo <= p < hi }

  /** How the cut has gone when it has reached a: so far only alignment has limited the blocks, or
      from here on only what remains does. */
  ghost predicate Cut(lo: nat, hi: nat, a: nat) {
    0 < lo <= a < hi && (a - lo < Pow2(Ctz(a)) || hi - a < Pow2(Ctz(a)))
  }

  function CutLevel(hi: nat, a: nat): (i: nat)
    requires 0 < a < hi
    ensures i <= Ctz(a) && a + Pow2(i) <= hi
  {
    var i, r := Ctz(a), FloorLog(hi - a);
    if i > r then r else (Pow2Mono(i, r); i)
  }

  lemma CutIsWhole(span: set<nat>, lo: nat, hi: nat, a: nat)
    requires IsRange(span, lo, hi) && Cut(lo, hi, a)
    ensures Head(a, CutLevel(hi, a)) && Whole(span, Shr(a, CutLevel(hi, a)), CutLevel(hi, a))
  {
    var i := CutLevel(hi, a);
    HeadCtz(a, i);
    forall p: nat | Shr(p, i) == Shr(a, i) ensures p in span { BlockPages(a, i, p); }
  }

  /** The block that is cut off is a maximal block of the range. */
  lemma CutIsChunk(span: set<nat>, lo: nat, hi: nat, a: nat)
    requires IsRange(span, lo, hi) && Cut(lo, hi, a)
    ensures Heads(span, a, CutLevel(hi, a))
  {
    var i := CutLevel(hi, a);
    CutIsWhole(span, lo, hi, a);
    HeadCtz(a, i + 1);
    LowStep(a, i);
    if i == Ctz(a) {
      PreviousHead(a, i);
      ShrStep(a - Pow2(i), i);
      assert a - Pow2(i) !in span;
    } else {
      BlockPages(a, i + 1, a + Pow2(i + 1) - 1);
      ShrStep(a, i);
      assert a + Pow2(i + 1) - 1 !in span;
    }
  }

  lemma CutGoesOn(lo: nat, hi: nat, a: nat)
    requires Cut(lo, hi, a)
    ensures var b := a + Pow2(CutLevel(hi, a)); b < hi ==> Cut(lo, hi, b)
  {
    var i := CutLevel(hi, a);
    var b := a + Pow2(i);
    HeadCtz(a, i);
    HeadCtz(a, i + 1);
    LowStep(a, i);
    NextHead(a, i);
    LowStep(b, i);
    if i == Ctz(a) {
      HeadCtz(b, i + 1);
      Pow2Mono(i + 1, Ctz(b));
    } else {
      HeadCtz(b, i);
      Pow2Mono(i, Ctz(b));
    }
  }

  /** It is the only maximal block of the range that starts in it. */
  lemma CutIsOnly(span: set<nat>, lo: nat, hi: nat, a: nat, x: nat, k: nat)
    requires IsRange(span, lo, hi) && Cut(lo, hi, a) && Heads(span, x, k) && a <= x < a + Pow2(CutLevel(hi, a))
    ensures x == a && k == CutLevel(hi, a)
  {
    var i := CutLevel(hi, a);
    CutIsChunk(span, lo, hi, a);
    BlockPages(a, i, x);
    ChunksDisjoint(span, x, k, i);
    HeadUnique(x, a, i);
  }
}
