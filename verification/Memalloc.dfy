/** The byte allocator of lib/libbmk_core/memalloc.c: power-of-two buckets cut from pages, larger
    blocks from the page allocator, and an 8-byte header before each allocation.  Addresses are
    byte addresses. */
module Memalloc {
  import opened Common
  import opened Bits
  import opened Buddy
  import P = Pgalloc

  const MINSHIFT: nat := 5
  const PAGE_SHIFT: nat := 12
  const LOCALBUCKETS: nat := 7
  const MINALIGN: nat := 16
  const HDR: nat := 8

  // ----- sizes -----

  const TWO64: nat := 0x1_0000_0000_0000_0000
  const TWO63: nat := 0x8000_0000_0000_0000

  /** The largest alignment that bmk_memalloc asserts. */
  const ALIGN_MAX: nat := 0x8000_0000

  /** What bmk_memalloc and bmk_memrealloc_user come to: NULL, a pointer, or a failed assertion. */
  datatype Outcome = Null | Got(value: nat) | Halts

  lemma Doubled(w: nat, p: nat) returns (v: nat)
    requires Pow2(w) == p
    ensures Pow2(v) == p * p
  {
    Pow2Add(w, w);
    v := w + w;
  }

  lemma WordWidth() returns (w: nat)
    ensures Pow2(w) == TWO64
  {
    assert Pow2(8) == 256;
    w := Doubled(8, 256);
    w := Doubled(w, 256 * 256);
    w := Doubled(w, 0x1_0000_0000);
  }

  /** x & ~(align - 1), for align a power of two, in 64 bits. */
  function AlignDown(x: nat, align: nat): nat
    requires align <= TWO64
  {
    And(x, TWO64 - align)
  }

  /** The round-up of memalloc.c: (x + align - 1) & ~(align - 1). */
  function AlignUp(x: nat, align: nat): nat
    requires 0 < align <= TWO64
  {
    AlignDown(x + align - 1, align)
  }

  lemma AlignUpIs(q: nat, r: nat, al: nat, align: nat)
    requires align == Pow2(al) && 0 < r <= align <= TWO64 && q * align + r + align - 1 < TWO64
    ensures AlignUp(q * align + r, align) == q * align + align
  {
    var x := q * align + r + align - 1;
    var w := WordWidth();
    if al > w { Pow2Mono(w, al); }
    MaskHigh(x, al, w);
    assert x == (q + 1) * align + (r - 1) by { NextMultiple(q, r, align); }
    PartsUnique(q + 1, r - 1, al);
    NextMultiple(q, r, align);
  }

  lemma NextMultiple(q: nat, r: nat, m: nat)
    ensures (q + 1) * m == q * m + m
    ensures q * m + r + m - 1 == (q + 1) * m + (r - 1)
  {
  }

  /** The bucket for a number of bytes: 64 - clz(bytes >> 5), less one for a power of two. */
  function Bucket(bytes: nat): nat {
    if bytes < Pow2(MINSHIFT) then 0
    else
      var b := FloorLog(bytes / 32) + 1;
      if And(bytes, bytes - 1) == 0 then b - 1 else b
  }

  function Size(bucket: nat): nat { Pow2(bucket + MINSHIFT) }

  lemma {:induction false} FloorLogUnique(n: nat, k: nat)
    requires n > 0 && Pow2(k) <= n < 2 * Pow2(k)
    ensures FloorLog(n) == k
  {
    Pow2Mono(if FloorLog(n) < k then FloorLog(n) else k, if FloorLog(n) < k then k else FloorLog(n));
  }

  lemma Times32(k: nat)
    ensures Pow2(k + 5) == 32 * Pow2(k)
  {
    assert Pow2(k + 5) == 2 * Pow2(k + 4) == 4 * Pow2(k + 3) == 8 * Pow2(k + 2) == 16 * Pow2(k + 1);
  }

  lemma Log32(bytes: nat, f: nat)
    requires bytes >= 32 && f == FloorLog(bytes / 32)
    ensures Pow2(f + 5) <= bytes < 2 * Pow2(f + 5)
  {
    Times32(f);
    assert Pow2(f) <= bytes / 32 < 2 * Pow2(f);
  }

  lemma PowerTestAt(x: nat, k: nat)
    requires Pow2(k) <= x < 2 * Pow2(k)
    ensures And(x, x - 1) == 0 <==> x == Pow2(k)
  {
    var l := PowerTest(x);
    FloorLogUnique(x, k);
    FloorLogUnique(x, l);
  }

  /** The bucket is the least that holds the bytes. */
  lemma BucketIsLeast(bytes: nat)
    ensures bytes <= Size(Bucket(bytes)) && (Bucket(bytes) > 0 ==> Size(Bucket(bytes) - 1) < bytes)
  {
    Times32(0);
    if bytes >= 32 {
      var f := FloorLog(bytes / 32);
      Log32(bytes, f);
      PowerTestAt(bytes, f + 5);
    }
  }

  // ----- layout of one allocation -----

  ghost predicate IsPower(x: nat) { exists k: nat :: x == Pow2(k) }

  /** Zero and the powers of two are accepted; the least alignment in effect is 16. */
  ghost predicate AlignAccepted(align: nat) { align == 0 || IsPower(align) }

  function EffectiveAlign(align: nat): nat { if align < MINALIGN then MINALIGN else align }

  /** The test align & (align - 1). */
  method TestAlign(align: nat) returns (ok: bool)
    ensures ok <==> AlignAccepted(align)
  {
    if align == 0 { return true; }
    ghost var k := PowerTest(align);
    if l: nat :| align == Pow2(l) { PowerTestAt(align, l); }
    ok := And(align, align - 1) == 0;
  }

  lemma UserAligns(align: nat)
    requires align == 8 || align == MINALIGN
    ensures AlignAccepted(align) && EffectiveAlign(align) == MINALIGN
  {
    assert 8 == Pow2(3) && 16 == Pow2(4);
  }

  lemma EffectiveIsPower(align: nat) returns (al: nat)
    requires AlignAccepted(align)
    ensures EffectiveAlign(align) == Pow2(al) && al >= 4 && EffectiveAlign(align) >= align
  {
    al := 4;
    assert Pow2(4) == 16;
    if align >= MINALIGN {
      al :| align == Pow2(al);
      if al < 4 { Pow2Mono(al + 1, 4); }
    }
  }

  /** A sum of two 64-bit words, as a 64-bit word. */
  function Wrap(x: nat): nat { if x < TWO64 then x else x - TWO64 }

  /** Bytes needed: nbytes + ((sizeof(hdr) + (align - 1)) & ~(align - 1)), in 64 bits. */
  function AllocBytes(nbytes: nat, align: nat): nat
    requires 0 < align <= TWO64
  {
    Wrap(nbytes + AlignUp(HDR, align))
  }

  /** Where the caller's bytes start in the block. */
  function Placed(block: nat, align: nat): nat
    requires 0 < align <= TWO64
  {
    AlignUp(block + HDR, align)
  }

  lemma HeaderRoom(nbytes: nat, al: nat, align: nat)
    requires align == Pow2(al) && 16 <= align && 2 * align <= TWO64
    ensures AllocBytes(nbytes, align) == Wrap(nbytes + align)
  {
    AlignUpIs(0, HDR, al, align);
  }

  lemma BucketBelowTwice(bytes: nat)
    ensures Size(Bucket(bytes)) <= 2 * bytes + 32
  {
    BucketIsLeast(bytes);
    Times32(0);
    if Bucket(bytes) > 0 { assert Size(Bucket(bytes)) == 2 * Size(Bucket(bytes) - 1); }
  }

  /** The bucket chosen has room for the bytes and what goes before them if and only if their sum
      fits 64 bits. */
  lemma RoomIff(nbytes: nat, al: nat, align: nat)
    requires align == Pow2(al) && 16 <= align <= ALIGN_MAX && nbytes < TWO64
    ensures nbytes + align <= Size(Bucket(AllocBytes(nbytes, align))) <==> nbytes + align < TWO64
  {
    HeaderRoom(nbytes, al, align);
    BucketIsLeast(Wrap(nbytes + align));
    BucketBelowTwice(Wrap(nbytes + align));
  }

  lemma BlockIsAligned(block: nat, al: nat, align: nat, b: nat)
    requires align == Pow2(al) && align <= Size(b) && Head(block, b + MINSHIFT)
    ensures Head(block, al)
  {
    if al > b + MINSHIFT { Pow2Mono(b + MINSHIFT, al); }
    HeadLower(block, al, b + MINSHIFT);
  }

  lemma PlacedIs(block: nat, al: nat, align: nat)
    requires align == Pow2(al) && 16 <= align && Head(block, al) && block + align + HDR <= TWO64
    ensures Placed(block, align) == block + align && Head(block + align, al)
  {
    Parts(block, al);
    AlignUpIs(Shr(block, al), HDR, al, align);
    NextHead(block, al);
  }

  /** In a naturally aligned block of the bucket chosen, the caller's bytes start `align` bytes in,
      are aligned, and with their 8-byte header lie inside the block. */
  lemma Layout(block: nat, nbytes: nat, al: nat, align: nat, b: nat)
    requires align == Pow2(al) && 16 <= align && 2 * align <= TWO64 && nbytes + align < TWO64
    requires b == Bucket(AllocBytes(nbytes, align)) && Head(block, b + MINSHIFT) && block + Size(b) + HDR <= TWO64
    ensures Placed(block, align) == block + align && Head(Placed(block, align), al)
    ensures block <= Placed(block, align) - HDR && Placed(block, align) + nbytes <= block + Size(b)
  {
    HeaderRoom(nbytes, al, align);
    BucketIsLeast(nbytes + align);
    BlockIsAligned(block, al, align, b);
    PlacedIs(block, al, align);
  }

  // ----- pages held and the blocks in them -----

  /** Page order of the page or pages that hold blocks of a bucket. */
  function Order(b: nat): nat { if b < LOCALBUCKETS then 0 else b - LOCALBUCKETS }

  /** `held` gives the bucket of each page taken from the page allocator, by its first page. */
  ghost predicate HeldOk(held: map<nat, nat>, pageLive: map<nat, nat>) {
    forall g :: g in held ==> g in pageLive && pageLive[g] == Order(held[g])
  }

  lemma HeldGrows(held: map<nat, nat>, before: map<nat, nat>, after: map<nat, nat>, r: Option<nat>, b: nat)
    requires HeldOk(held, before)
    requires if r.Some? then r.value !in before && after == before[r.value := Order(b)] else after == before
    ensures HeldOk(held, after) && (r.Some? ==> r.value !in held && HeldOk(held[r.value := b], after))
  {
  }

  /** a is the address of a block of bucket b: these are the naturally aligned blocks of the pages
      held for b. */
  ghost predicate BlockOf(held: map<nat, nat>, a: nat, b: nat) {
    Shr(a, PAGE_SHIFT) in held && held[Shr(a, PAGE_SHIFT)] == b && Head(a, b + MINSHIFT)
  }

  /** Every byte of a block is in the pages that hold it. */
  lemma BlockInPages(a: nat, b: nat, z: nat)
    requires Head(a, b + MINSHIFT) && a <= z < a + Size(b) && Head(Shr(a, PAGE_SHIFT), Order(b))
    ensures var g := Shr(a, PAGE_SHIFT); g <= Shr(z, PAGE_SHIFT) < g + Pow2(Order(b))
  {
    var g := Shr(a, PAGE_SHIFT);
    BlockPages(a, b + MINSHIFT, z);
    if b < LOCALBUCKETS { ShrMono(z, a, b + MINSHIFT, PAGE_SHIFT); }
    else {
      ShrShr(a, PAGE_SHIFT, b - LOCALBUCKETS);
      ShrShr(z, PAGE_SHIFT, b - LOCALBUCKETS);
      BlockPages(g, Order(b), Shr(z, PAGE_SHIFT));
    }
  }

  /** Blocks that share a byte are the same block. */
  lemma BlocksApart(held: map<nat, nat>, pageLive: map<nat, nat>, owner: map<nat, nat>,
                    a: nat, b: nat, a': nat, b': nat, z: nat)
    requires HeldOk(held, pageLive) && P.LiveOk(pageLive, owner) && BlockOf(held, a, b) && BlockOf(held, a', b')
    requires a <= z < a + Size(b) && a' <= z < a' + Size(b')
    ensures a == a' && b == b'
  {
    var g, g' := Shr(a, PAGE_SHIFT), Shr(a', PAGE_SHIFT);
    assert P.Owns(owner, g, pageLive[g]) && P.Owns(owner, g', pageLive[g']);
    BlockInPages(a, b, z);
    BlockInPages(a', b', z);
    assert owner[Shr(z, PAGE_SHIFT)] == g == g';
    BlockPages(a, b + MINSHIFT, z);
    BlockPages(a', b + MINSHIFT, z);
    HeadUnique(a, a', b + MINSHIFT);
  }

  /** A block ends below the top of the address space. */
  lemma BlockBound(held: map<nat, nat>, pageLive: map<nat, nat>, owner: map<nat, nat>, free: set<nat>, lo: nat, hi: nat,
                   a: nat, b: nat)
    requires HeldOk(held, pageLive) && P.LiveOk(pageLive, owner) && P.Parted(free, owner.Keys, lo, hi)
    requires hi < P.PAGES && BlockOf(held, a, b)
    ensures a + Size(b) + HDR <= TWO64
  {
    var g := Shr(a, PAGE_SHIFT);
    assert P.Owns(owner, g, pageLive[g]);
    var z := a + Size(b) - 1;
    BlockInPages(a, b, z);
    assert Shr(z, PAGE_SHIFT) in owner.Keys;
    Parts(z, PAGE_SHIFT);
    Page4096();
    BytesBelow(Shr(z, PAGE_SHIFT), Low(z, PAGE_SHIFT), hi);
  }

  lemma Page4096()
    ensures Pow2(PAGE_SHIFT) == 4096
  {
  }

  lemma BytesBelow(g: nat, r: nat, hi: nat)
    requires g < hi < P.PAGES && r < 4096
    ensures g * 4096 + r + 1 + HDR <= TWO64
  {
  }

  // ----- the free lists of the buckets -----

  ghost predicate BucketsOk(buckets: seq<seq<nat>>) {
    |buckets| == LOCALBUCKETS && forall b :: 0 <= b < LOCALBUCKETS ==> Distinct(buckets[b])
  }

  /** The lists hold the blocks that are not busy. */
  ghost predicate ListsFree(buckets: seq<seq<nat>>, held: map<nat, nat>, busy: set<nat>) {
    && BucketsOk(buckets)
    && (forall a: nat, b: nat :: P.Listed(buckets, a, b) <==> b < LOCALBUCKETS && BlockOf(held, a, b) && a !in busy)
  }

  /** Busy blocks are blocks, and the larger ones are held only while busy. */
  ghost predicate BusyOk(held: map<nat, nat>, busy: set<nat>) {
    && (forall a :: a in busy ==> Shr(a, PAGE_SHIFT) in held && Head(a, held[Shr(a, PAGE_SHIFT)] + MINSHIFT))
    && (forall a: nat, b: nat :: BlockOf(held, a, b) && b >= LOCALBUCKETS ==> a in busy)
  }

  ghost function BusyIn(held: map<nat, nat>, busy: set<nat>, b: nat): set<nat> {
    set a | a in busy && BlockOf(held, a, b)
  }

  /** nmalloc counts the busy blocks of each bucket. */
  ghost predicate Counted(nmalloc: seq<int>, held: map<nat, nat>, busy: set<nat>) {
    |nmalloc| == LOCALBUCKETS && forall b :: 0 <= b < LOCALBUCKETS ==> nmalloc[b] == |BusyIn(held, busy, b)|
  }

  lemma TakeFirst(buckets: seq<seq<nat>>, held: map<nat, nat>, busy: set<nat>, b: nat)
    requires ListsFree(buckets, held, busy) && b < LOCALBUCKETS && buckets[b] != []
    ensures var a := buckets[b][0];
            BlockOf(held, a, b) && a !in busy && ListsFree(buckets[b := buckets[b][1..]], held, busy + {a})
  {
    var a, buckets' := buckets[b][0], buckets[b := buckets[b][1..]];
    assert P.Listed(buckets, a, b);
    assert buckets[b] == [a] + buckets[b][1..];
    forall x: nat, c: nat ensures P.Listed(buckets', x, c) <==> P.Listed(buckets, x, c) && x != a {
      if P.Listed(buckets, a, c) { assert BlockOf(held, a, c); }
    }
  }

  lemma PutBack(buckets: seq<seq<nat>>, held: map<nat, nat>, busy: set<nat>, a: nat, b: nat)
    requires ListsFree(buckets, held, busy) && b < LOCALBUCKETS && BlockOf(held, a, b) && a in busy
    ensures ListsFree(buckets[b := [a] + buckets[b]], held, busy - {a})
  {
    var buckets' := buckets[b := [a] + buckets[b]];
    assert !P.Listed(buckets, a, b);
    forall x: nat, c: nat ensures P.Listed(buckets', x, c) <==> P.Listed(buckets, x, c) || (x == a && c == b) { }
  }

  lemma CountAdds(held: map<nat, nat>, busy: set<nat>, a: nat, b: nat, c: nat)
    requires BlockOf(held, a, b) && a !in busy
    ensures |BusyIn(held, busy + {a}, c)| == |BusyIn(held, busy, c)| + if c == b then 1 else 0
  {
    assert BusyIn(held, busy + {a}, c) == BusyIn(held, busy, c) + if c == b then {a} else {};
  }

  lemma CountDrops(held: map<nat, nat>, busy: set<nat>, a: nat, b: nat, c: nat)
    requires BlockOf(held, a, b) && a in busy
    ensures |BusyIn(held, busy - {a}, c)| == |BusyIn(held, busy, c)| - if c == b then 1 else 0
  {
    CountAdds(held, busy - {a}, a, b, c);
    assert busy - {a} + {a} == busy;
  }

  lemma CountedAdds(nmalloc: seq<int>, held: map<nat, nat>, busy: set<nat>, a: nat, b: nat)
    requires Counted(nmalloc, held, busy) && BlockOf(held, a, b) && a !in busy && b < LOCALBUCKETS
    ensures Counted(nmalloc[b := nmalloc[b] + 1], held, busy + {a})
  {
    forall c: nat | c < LOCALBUCKETS { CountAdds(held, busy, a, b, c); }
  }

  lemma CountedDrops(nmalloc: seq<int>, held: map<nat, nat>, busy: set<nat>, a: nat, b: nat)
    requires Counted(nmalloc, held, busy) && BlockOf(held, a, b) && a in busy && b < LOCALBUCKETS
    ensures Counted(nmalloc[b := nmalloc[b] - 1], held, busy - {a})
  {
    forall c: nat | c < LOCALBUCKETS { CountDrops(held, busy, a, b, c); }
  }

  /** A page newly held adds its blocks and no others, and none of them is busy. */
  lemma PageAdds(held: map<nat, nat>, held': map<nat, nat>, busy: set<nat>, g: nat, b: nat)
    requires BusyOk(held, busy) && g !in held && held' == held[g := b]
    ensures forall a: nat, c: nat ::
              BlockOf(held', a, c) <==>
              BlockOf(held, a, c) || (Shr(a, PAGE_SHIFT) == g && c == b && Head(a, b + MINSHIFT))
    ensures forall a :: a in busy ==> Shr(a, PAGE_SHIFT) != g
    ensures forall c :: BusyIn(held', busy, c) == BusyIn(held, busy, c)
  {
    forall a: nat, c: nat
      ensures BlockOf(held', a, c) <==>
              BlockOf(held, a, c) || (Shr(a, PAGE_SHIFT) == g && c == b && Head(a, b + MINSHIFT)) {
    }
    forall c ensures BusyIn(held', busy, c) == BusyIn(held, busy, c) {
      forall a | a in busy ensures BlockOf(held', a, c) <==> BlockOf(held, a, c) { }
    }
  }

  // ----- cutting a page into blocks -----

  /** The blocks of the page at `base`, after its first and up to cur, have been put on the list. */
  ghost predicate CutTo(buckets0: seq<seq<nat>>, buckets: seq<seq<nat>>, base: nat, b: nat, cur: nat) {
    && BucketsOk(buckets)
    && (forall a: nat, c: nat ::
          P.Listed(buckets, a, c) <==> P.Listed(buckets0, a, c) || (c == b && Head(a, b + MINSHIFT) && base < a <= cur))
  }

  lemma CutNext(buckets0: seq<seq<nat>>, buckets: seq<seq<nat>>, base: nat, b: nat, cur: nat)
    requires CutTo(buckets0, buckets, base, b, cur) && b < LOCALBUCKETS && base <= cur && Head(cur, b + MINSHIFT)
    requires !P.Listed(buckets0, cur + Size(b), b)
    ensures CutTo(buckets0, buckets[b := [cur + Size(b)] + buckets[b]], base, b, cur + Size(b)) &&
            Head(cur + Size(b), b + MINSHIFT)
  {
    var a', buckets' := cur + Size(b), buckets[b := [cur + Size(b)] + buckets[b]];
    NextHead(cur, b + MINSHIFT);
    assert !P.Listed(buckets, a', b);
    forall a: nat, c: nat
      ensures P.Listed(buckets', a, c) <==>
              P.Listed(buckets0, a, c) || (c == b && Head(a, b + MINSHIFT) && base < a <= a') {
      assert P.Listed(buckets', a, c) <==> P.Listed(buckets, a, c) || (a == a' && c == b);
      if Head(a, b + MINSHIFT) && cur <= a < a' {
        BlockPages(cur, b + MINSHIFT, a);
        HeadUnique(a, cur, b + MINSHIFT);
      }
    }
  }

  lemma CutAll(buckets0: seq<seq<nat>>, buckets: seq<seq<nat>>,
               held: map<nat, nat>, held': map<nat, nat>, busy: set<nat>,
               g: nat, b: nat, base: nat, cur: nat)
    requires ListsFree(buckets0, held, busy) && BusyOk(held, busy) && g !in held && held' == held[g := b] &&
             b < LOCALBUCKETS
    requires CutTo(buckets0, buckets, base, b, cur) && base == g * 4096 && cur + Size(b) == base + 4096 &&
             Head(cur, b + MINSHIFT)
    ensures BlockOf(held', base, b) && base !in busy && ListsFree(buckets, held', busy + {base})
  {
    PageAdds(held, held', busy, g, b);
    PageAddress(g);
    HeadLower(base, b + MINSHIFT, PAGE_SHIFT);
    forall a: nat, c: nat
      ensures P.Listed(buckets, a, c) <==> c < LOCALBUCKETS && BlockOf(held', a, c) && a !in busy + {base} {
      Page4096();
      BlockPages(base, PAGE_SHIFT, a);
      if Head(a, b + MINSHIFT) && cur <= a < cur + Size(b) {
        BlockPages(cur, b + MINSHIFT, a);
        HeadUnique(a, cur, b + MINSHIFT);
      }
    }
  }

  lemma PageBusy(held: map<nat, nat>, held': map<nat, nat>, busy: set<nat>, g: nat, b: nat, base: nat)
    requires BusyOk(held, busy) && g !in held && held' == held[g := b]
    requires BlockOf(held', base, b) && Shr(base, PAGE_SHIFT) == g && (b < LOCALBUCKETS || base == g * 4096)
    ensures BusyOk(held', busy + {base})
  {
    PageAdds(held, held', busy, g, b);
    forall a: nat, c: nat | BlockOf(held', a, c) && c >= LOCALBUCKETS ensures a in busy + {base} {
      if c == b && Shr(a, PAGE_SHIFT) == g {
        PageAddress(g);
        HeadLower(a, PAGE_SHIFT, b + MINSHIFT);
        HeadUnique(a, base, PAGE_SHIFT);
      }
    }
  }

  lemma PageAddress(g: nat)
    ensures Shr(g * 4096, PAGE_SHIFT) == g && Head(g * 4096, PAGE_SHIFT)
  {
    Page4096();
    PartsUnique(g, 0, PAGE_SHIFT);
  }

  lemma BlocksPerPage(b: nat)
    requires b < LOCALBUCKETS
    ensures Size(b) > 0 && 4096 / Size(b) == Pow2(LOCALBUCKETS - b) > 1 && Pow2(LOCALBUCKETS - b) * Size(b) == 4096
  {
    Page4096();
    Pow2Add(LOCALBUCKETS - b, b + MINSHIFT);
    Exact(Pow2(LOCALBUCKETS - b), Size(b));
    Pow2Mono(1, LOCALBUCKETS - b);
  }

  lemma Exact(n: nat, m: nat)
    requires m > 0
    ensures n * m / m == n
  {
    var q, r := n * m / m, n * m % m;
    assert n * m == q * m + r;
    NextMultiple(q, 0, m);
    MulLess(n, q, m);
    MulLess(n, q + 1, m);
  }

  // ----- outstanding allocations -----

  datatype Hdr = Hdr(alignpad: nat, magic: bool, index: nat, who: nat)

  /** What a caller has: the pointer, the bytes asked for, the bucket of the block and the owner. */
  datatype Alloc = Alloc(ptr: nat, nbytes: nat, bucket: nat, who: nat)

  /** The header before the pointer leads back to block a, and header and bytes lie inside it. */
  ghost predicate AllocOk(hdrs: map<nat, Hdr>, held: map<nat, nat>, a: nat, x: Alloc) {
    && BlockOf(held, a, x.bucket) && a + HDR <= x.ptr && x.ptr + x.nbytes <= a + Size(x.bucket)
    && x.ptr in hdrs && hdrs[x.ptr] == Hdr(x.ptr - a, true, x.bucket, x.who)
  }

  ghost predicate AllocsOk(live: map<nat, Alloc>, hdrs: map<nat, Hdr>, held: map<nat, nat>) {
    forall a :: a in live ==> AllocOk(hdrs, held, a, live[a])
  }

  /** No two allocations share a byte, headers included. */
  lemma AllocsApart(live: map<nat, Alloc>, hdrs: map<nat, Hdr>, held: map<nat, nat>, pageLive: map<nat, nat>,
                    owner: map<nat, nat>, a: nat, a': nat, z: nat)
    requires HeldOk(held, pageLive) && P.LiveOk(pageLive, owner) && AllocsOk(live, hdrs, held) && a in live &&
             a' in live
    requires live[a].ptr - HDR <= z < live[a].ptr + live[a].nbytes
    requires live[a'].ptr - HDR <= z < live[a'].ptr + live[a'].nbytes
    ensures a == a'
  {
    assert AllocOk(hdrs, held, a, live[a]) && AllocOk(hdrs, held, a', live[a']);
    BlocksApart(held, pageLive, owner, a, live[a].bucket, a', live[a'].bucket, z);
  }

  /** A header written for a new block does not touch those of the others. */
  lemma HeaderApart(held: map<nat, nat>, pageLive: map<nat, nat>, owner: map<nat, nat>, live: map<nat, Alloc>,
                    hdrs: map<nat, Hdr>, a: nat, x: Alloc)
    requires HeldOk(held, pageLive) && P.LiveOk(pageLive, owner) && AllocsOk(live, hdrs, held) && a !in live
    requires BlockOf(held, a, x.bucket) && a + HDR <= x.ptr && x.ptr + x.nbytes <= a + Size(x.bucket)
    ensures AllocsOk(live[a := x], hdrs[x.ptr := Hdr(x.ptr - a, true, x.bucket, x.who)], held)
  {
    var live', hdrs' := live[a := x], hdrs[x.ptr := Hdr(x.ptr - a, true, x.bucket, x.who)];
    forall c | c in live' ensures AllocOk(hdrs', held, c, live'[c]) {
      if c != a {
        assert AllocOk(hdrs, held, c, live[c]);
        if live[c].ptr == x.ptr { BlocksApart(held, pageLive, owner, a, x.bucket, c, live[c].bucket, x.ptr - HDR); }
      }
    }
  }

  lemma AllocsStay(live: map<nat, Alloc>, hdrs: map<nat, Hdr>, held: map<nat, nat>, held': map<nat, nat>)
    requires AllocsOk(live, hdrs, held) && forall a: nat, b: nat :: BlockOf(held, a, b) ==> BlockOf(held', a, b)
    ensures AllocsOk(live, hdrs, held')
  {
    forall a | a in live ensures AllocOk(hdrs, held', a, live[a]) { assert AllocOk(hdrs, held, a, live[a]); }
  }

  lemma PageNotListed(buckets: seq<seq<nat>>, held: map<nat, nat>, busy: set<nat>, g: nat, b: nat, a: nat)
    requires ListsFree(buckets, held, busy) && g !in held && g * 4096 <= a < g * 4096 + 4096
    ensures !P.Listed(buckets, a, b)
  {
    PageAddress(g);
    Page4096();
    BlockPages(g * 4096, PAGE_SHIFT, a);
  }

  lemma {:induction false} HeadShift(x: nat, k: nat, m: nat)
    requires Head(x, k)
    ensures Head(x * Pow2(m), k + m)
  {
    if m > 0 {
      HeadShift(x, k, m - 1);
      assert x * Pow2(m) == 2 * (x * Pow2(m - 1));
    }
  }

  /** The first address of pages that the page allocator gives out is a block of the bucket. */
  lemma PageIsBlock(held: map<nat, nat>, g: nat, b: nat)
    requires g in held && held[g] == b && b >= LOCALBUCKETS && Head(g, Order(b))
    ensures BlockOf(held, g * 4096, b)
  {
    PageAddress(g);
    Page4096();
    HeadShift(g, Order(b), PAGE_SHIFT);
  }

  /** Pages held for one large block: its first address is busy, the bucket lists do not change. */
  lemma BigAdds(buckets: seq<seq<nat>>, nmalloc: seq<int>, held: map<nat, nat>, held': map<nat, nat>, busy: set<nat>,
      g: nat, b: nat)
    requires ListsFree(buckets, held, busy) && BusyOk(held, busy) && Counted(nmalloc, held, busy)
    requires g !in held && held' == held[g := b] && b >= LOCALBUCKETS && Head(g, Order(b))
    ensures BlockOf(held', g * 4096, b) && g * 4096 !in busy
    ensures ListsFree(buckets, held', busy + {g * 4096}) && BusyOk(held', busy + {g * 4096})
    ensures Counted(nmalloc, held', busy + {g * 4096})
  {
    PageAdds(held, held', busy, g, b);
    PageIsBlock(held', g, b);
    PageAddress(g);
    PageBusy(held, held', busy, g, b, g * 4096);
    forall c: nat | c < LOCALBUCKETS ensures |BusyIn(held', busy + {g * 4096}, c)| == |BusyIn(held, busy, c)| {
      CountAdds(held', busy, g * 4096, b, c);
    }
  }

  /** Pages held for one large block hold no other. */
  lemma BigIsAlone(held: map<nat, nat>, a: nat, b: nat, x: nat, c: nat)
    requires BlockOf(held, a, b) && b >= LOCALBUCKETS
    ensures BlockOf(held - {Shr(a, PAGE_SHIFT)}, x, c) <==> BlockOf(held, x, c) && x != a
  {
    HeadLower(a, PAGE_SHIFT, b + MINSHIFT);
    if BlockOf(held, x, c) && Shr(x, PAGE_SHIFT) == Shr(a, PAGE_SHIFT) {
      HeadLower(x, PAGE_SHIFT, b + MINSHIFT);
      HeadUnique(x, a, PAGE_SHIFT);
    }
  }

  lemma AllocsDrop(live: map<nat, Alloc>, hdrs: map<nat, Hdr>, held: map<nat, nat>, a: nat, b: nat)
    requires AllocsOk(live, hdrs, held) && BlockOf(held, a, b) && b >= LOCALBUCKETS
    ensures AllocsOk(live - {a}, hdrs, held - {Shr(a, PAGE_SHIFT)})
  {
    var live', held' := live - {a}, held - {Shr(a, PAGE_SHIFT)};
    forall x | x in live' ensures AllocOk(hdrs, held', x, live'[x]) {
      assert AllocOk(hdrs, held, x, live[x]);
      BigIsAlone(held, a, b, x, live[x].bucket);
    }
  }

  /** Giving a large block's pages back undoes it. */
  lemma BigDrops(buckets: seq<seq<nat>>, nmalloc: seq<int>, held: map<nat, nat>, busy: set<nat>, a: nat, b: nat)
    requires ListsFree(buckets, held, busy) && BusyOk(held, busy) && Counted(nmalloc, held, busy)
    requires BlockOf(held, a, b) && b >= LOCALBUCKETS && a in busy
    ensures var held' := held - {Shr(a, PAGE_SHIFT)};
            ListsFree(buckets, held', busy - {a}) && BusyOk(held', busy - {a}) && Counted(nmalloc, held', busy - {a})
  {
    var held', busy' := held - {Shr(a, PAGE_SHIFT)}, busy - {a};
    forall x: nat, c: nat ensures BlockOf(held', x, c) <==> BlockOf(held, x, c) && x != a {
      BigIsAlone(held, a, b, x, c);
    }
    forall x | x in busy' ensures Shr(x, PAGE_SHIFT) in held' {
      assert BlockOf(held, x, held[Shr(x, PAGE_SHIFT)]);
      assert BlockOf(held', x, held[Shr(x, PAGE_SHIFT)]);
    }
    forall c: nat | c < LOCALBUCKETS ensures BusyIn(held', busy', c) == BusyIn(held, busy, c) { }
  }

  lemma TwoTo63()
    ensures Pow2(63) == TWO63
  {
    assert Pow2(7) == 128;
    Pow2Add(7, 7);
    Pow2Add(14, 7);
    Pow2Add(21, 21);
    Pow2Add(42, 21);
  }

  /** A bucket passes the page allocator's assertion on its order up to half the address space. */
  lemma BucketInRange(bytes: nat)
    ensures Order(Bucket(bytes)) < P.LEVELS <==> bytes <= TWO63
  {
    var b := Bucket(bytes);
    BucketIsLeast(bytes);
    TwoTo63();
    if b > 58 { Pow2Mono(63, b - 1 + MINSHIFT); } else { Pow2Mono(b + MINSHIFT, 63); }
  }

  /** The alignment in effect and the bucket of bmk_memalloc. */
  method Measure(nbytes: nat, align: nat) returns (eff: nat, bucket: nat, ghost al: nat)
    requires AlignAccepted(align) && EffectiveAlign(align) <= ALIGN_MAX && nbytes + EffectiveAlign(align) < TWO64
    ensures eff == EffectiveAlign(align) == Pow2(al)
    ensures bucket == Bucket(AllocBytes(nbytes, eff)) == Bucket(nbytes + EffectiveAlign(align))
    ensures Order(bucket) < P.LEVELS <==> nbytes + eff <= TWO63
  {
    eff := EffectiveAlign(align);
    al := EffectiveIsPower(align);
    HeaderRoom(nbytes, al, eff);
    BucketInRange(nbytes + eff);
    bucket := Bucket(AllocBytes(nbytes, eff));
  }

  /** A block found for an allocation takes it, header and all, without touching another's. */
  lemma PlaceFits(held: map<nat, nat>, pageLive: map<nat, nat>, owner: map<nat, nat>, free: set<nat>, lo: nat, hi: nat,
                  live: map<nat, Alloc>, hdrs: map<nat, Hdr>,
                  a: nat, b: nat, nbytes: nat, al: nat, align: nat, who: nat)
    requires HeldOk(held, pageLive) && P.LiveOk(pageLive, owner) && P.Parted(free, owner.Keys, lo, hi) && hi < P.PAGES
    requires AllocsOk(live, hdrs, held) && a !in live && BlockOf(held, a, b)
    requires align == Pow2(al) && 16 <= align && 2 * align <= TWO64 && nbytes + align < TWO64
    requires b == Bucket(AllocBytes(nbytes, align))
    ensures var ptr := Placed(a, align);
            && a + HDR <= ptr && Head(ptr, al)
            && AllocsOk(live[a := Alloc(ptr, nbytes, b, who)], hdrs[ptr := Hdr(ptr - a, true, b, who)], held)
  {
    BlockBound(held, pageLive, owner, free, lo, hi, a, b);
    Layout(a, nbytes, al, align, b);
    HeaderApart(held, pageLive, owner, live, hdrs, a, Alloc(Placed(a, align), nbytes, b, who));
  }

  const USER: nat := 2

  function Byte(mem: map<nat, int>, z: nat): int { if z in mem then mem[z] else 0 }

  function Bytes(mem: map<nat, int>, p: nat, n: nat): (s: seq<int>)
    ensures |s| == n && forall i :: 0 <= i < n ==> s[i] == Byte(mem, p + i)
  {
    seq(n, i requires 0 <= i < n => Byte(mem, p + i))
  }

  /** Two allocations are in blocks one after the other. */
  lemma BytesApart(live: map<nat, Alloc>, hdrs: map<nat, Hdr>, held: map<nat, nat>, pageLive: map<nat, nat>,
                   owner: map<nat, nat>, a: nat, c: nat)
    requires HeldOk(held, pageLive) && P.LiveOk(pageLive, owner) && AllocsOk(live, hdrs, held) && a in live &&
             c in live && a != c
    ensures a + Size(live[a].bucket) <= c || c + Size(live[c].bucket) <= a
  {
    assert AllocOk(hdrs, held, a, live[a]) && AllocOk(hdrs, held, c, live[c]);
    if c < a + Size(live[a].bucket) && a < c + Size(live[c].bucket) {
      BlocksApart(held, pageLive, owner, a, live[a].bucket, c, live[c].bucket, if a < c then c else a);
    }
  }

  /** The contents of the allocations are the same. */
  ghost predicate SameBytes(mem: map<nat, int>, mem': map<nat, int>, live: map<nat, Alloc>) {
    forall d :: d in live ==> Bytes(mem', live[d].ptr, live[d].nbytes) == Bytes(mem, live[d].ptr, live[d].nbytes)
  }

  lemma Prefix(mem': map<nat, int>, p: nat, mem: map<nat, int>, q: nat, count: nat, n: nat)
    requires Bytes(mem', p, count) == Bytes(mem, q, count) && n <= count
    ensures Bytes(mem', p, n) == Bytes(mem, q, n)
  {
    assert Bytes(mem', p, n) == Bytes(mem', p, count)[..n];
    assert Bytes(mem, q, n) == Bytes(mem, q, count)[..n];
  }

  lemma FitsCount(hdrs: map<nat, Hdr>, held: map<nat, nat>, a: nat, x: Alloc, cp: nat, count: nat)
    requires AllocOk(hdrs, held, a, x) && x.ptr == cp && cp + count == a + Size(x.bucket)
    ensures x.nbytes <= count
  {
  }

  class Malloc {
    const pages: P.Allocator
    var buckets: seq<seq<nat>>
    var nmalloc: seq<int>
    var hdrs: map<nat, Hdr>
    var mem: map<nat, int>
    ghost var held: map<nat, nat>
    ghost var live: map<nat, Alloc>

    /** The lists and counts, with the given blocks busy. */
    ghost predicate ListsWith(busy: set<nat>)
      reads this`buckets, this`held, this`nmalloc
    {
      ListsFree(buckets, held, busy) && BusyOk(held, busy) && Counted(nmalloc, held, busy)
    }

    /** The pages behind the blocks, and the allocations in them. */
    ghost predicate Backed()
      reads this`held, this`live, this`hdrs, pages, pages.bitmap
    {
      pages.Valid() && HeldOk(held, pages.live) && AllocsOk(live, hdrs, held)
    }

    /** What Backed() says of the pages, without the page allocator's own structures. */
    ghost predicate OnPages()
      reads this`held, pages
    {
      && HeldOk(held, pages.live) && P.LiveOk(pages.live, pages.owner)
      && P.Parted(pages.free, pages.owner.Keys, pages.minPage, pages.maxPage) && pages.maxPage < P.PAGES
    }

    ghost predicate Valid()
      reads this`buckets, this`nmalloc, this`held, this`live, this`hdrs, pages, pages.bitmap
    {
      Backed() && ListsWith(live.Keys)
    }

    constructor (pages: P.Allocator)
      requires pages.Valid()
      ensures Valid() && this.pages == pages && live == map[] && held == map[]
    {
      this.pages := pages;
      buckets := seq(LOCALBUCKETS, _ => []);
      nmalloc := seq(LOCALBUCKETS, _ => 0);
      hdrs, mem := map[], map[];
      held, live := map[], map[];
    }

    /** The loop of morecore: all blocks of the page but the first go on the list. */
    method CutPage(base: nat, b: nat) returns (ghost cur: nat)
      requires b < LOCALBUCKETS && BucketsOk(buckets) && Head(base, b + MINSHIFT)
      requires forall a: nat :: base < a < base + 4096 ==> !P.Listed(buckets, a, b)
      modifies this`buckets
      ensures CutTo(old(buckets), buckets, base, b, cur) && cur + Size(b) == base + 4096 && Head(cur, b + MINSHIFT)
    {
      BlocksPerPage(b);
      var p, nblks := base, 4096 / Size(b);
      nblks := nblks - 1;
      ghost var left := nblks * Size(b);
      NextMultiple(nblks, 0, Size(b));
      while nblks > 0
        invariant nblks >= 0 && left == nblks * Size(b) && base <= p && p + left + Size(b) == base + 4096
        invariant Head(p, b + MINSHIFT) && CutTo(old(buckets), buckets, base, b, p)
      {
        NextMultiple(nblks - 1, 0, Size(b));
        MulMono(1, nblks, Size(b));
        CutNext(old(buckets), buckets, base, b, p);
        p := p + Size(b);
        buckets := buckets[b := [p] + buckets[b]];
        nblks := nblks - 1;
        left := left - Size(b);
      }
      cur := p;
    }

    /** Nothing is there for bucket b: no block on its list, and no pages for a new one. */
    ghost predicate NoRoom(b: nat)
      reads this`buckets, pages`free
    {
      (b < |buckets| ==> buckets[b] == []) && P.NoneFree(pages.free, Order(b), 0)
    }

    /** bmk_pgalloc for the pages of a block of bucket b. */
    method GetPages(b: nat) returns (r: Option<nat>)
      requires pages.Valid() && HeldOk(held, pages.live) && Order(b) < P.LEVELS
      modifies pages, pages.bitmap
      ensures pages.Valid() && HeldOk(held, pages.live)
      ensures r.None? <==> P.NoneFree(old(pages.free), Order(b), 0)
      ensures r.Some? ==> r.value !in held && HeldOk(held[r.value := b], pages.live) && Head(r.value, Order(b))
    {
      ghost var before, block := pages.live, {};
      r, block := pages.PgallocAlign(Order(b), 0);
      HeldGrows(held, before, pages.live, r, b);
    }

    /** Block a of bucket b is off the lists and not counted yet. */
    ghost predicate Taken(a: nat, b: nat)
      reads this`buckets, this`held, this`nmalloc, this`live
    {
      && Counted(nmalloc, held, live.Keys)
      && ListsFree(buckets, held, live.Keys + {a}) && BusyOk(held, live.Keys + {a}) && a !in live && BlockOf(held, a, b)
    }

    /** morecore: a page for bucket b; its first block is returned and the others are listed. */
    method Morecore(b: nat) returns (r: Option<nat>)
      requires Valid() && b < LOCALBUCKETS
      modifies this`buckets, this`held, pages, pages.bitmap
      ensures r.None? <==> P.NoneFree(old(pages.free), 0, 0)
      ensures r.None? ==> Valid() && buckets == old(buckets) && held == old(held)
      ensures r.Some? ==> Backed() && Taken(r.value, b)
    {
      var got := GetPages(b);
      if got.None? { return None; }
      var g := got.value;
      var base := g * 4096;
      ghost var held' := held[g := b];
      PageAddress(g);
      HeadLower(base, b + MINSHIFT, PAGE_SHIFT);
      forall a: nat | base < a < base + 4096 ensures !P.Listed(buckets, a, b) {
        PageNotListed(buckets, held, live.Keys, g, b, a);
      }
      ghost var cur := CutPage(base, b);
      CutAll(old(buckets), buckets, held, held', live.Keys, g, b, base, cur);
      PageAdds(held, held', live.Keys, g, b);
      PageBusy(held, held', live.Keys, g, b, base);
      AllocsStay(live, hdrs, held, held');
      held := held';
      return Some(base);
    }

    /** LIST_FIRST and LIST_REMOVE. */
    method PopFirst(b: nat) returns (a: nat)
      requires ListsWith(live.Keys) && b < LOCALBUCKETS && buckets[b] != []
      modifies this`buckets
      ensures Taken(a, b)
    {
      TakeFirst(buckets, held, live.Keys, b);
      a := buckets[b][0];
      buckets := buckets[b := buckets[b][1..]];
    }

    method CountTaken(a: nat, b: nat)
      requires Taken(a, b) && b < LOCALBUCKETS
      modifies this`nmalloc
      ensures ListsWith(live.Keys + {a})
    {
      CountedAdds(nmalloc, held, live.Keys, a, b);
      nmalloc := nmalloc[b := nmalloc[b] + 1];
    }

    method PopCounted(b: nat) returns (r: Option<nat>)
      requires ListsWith(live.Keys) && b < LOCALBUCKETS && buckets[b] != []
      modifies this`buckets, this`nmalloc
      ensures r.Some? && ListsWith(live.Keys + {r.value}) && r.value !in live && BlockOf(held, r.value, b)
    {
      var a := PopFirst(b);
      CountTaken(a, b);
      r := Some(a);
    }

    method PopBacked(b: nat) returns (r: Option<nat>)
      requires Backed() && ListsWith(live.Keys) && b < LOCALBUCKETS && buckets[b] != []
      modifies this`buckets, this`nmalloc
      ensures Backed() && r.Some? && ListsWith(live.Keys + {r.value}) && r.value !in live && BlockOf(held, r.value, b)
    {
      r := PopCounted(b);
    }

    method MoreCounted(b: nat) returns (r: Option<nat>)
      requires Valid() && b < LOCALBUCKETS
      modifies this`buckets, this`nmalloc, this`held, pages, pages.bitmap
      ensures Backed()
      ensures r.None? <==> P.NoneFree(old(pages.free), 0, 0)
      ensures r.None? ==> ListsWith(live.Keys)
      ensures r.Some? ==> ListsWith(live.Keys + {r.value}) && r.value !in live && BlockOf(held, r.value, b)
    {
      r := Morecore(b);
      if r.Some? { CountTaken(r.value, b); }
    }

    /** bucketalloc: a block of bucket b, now busy. */
    method Bucketalloc(b: nat) returns (r: Option<nat>)
      requires Valid() && b < LOCALBUCKETS
      modifies this`buckets, this`nmalloc, this`held, pages, pages.bitmap
      ensures Backed()
      ensures r.None? <==> old(NoRoom(b))
      ensures r.None? ==> ListsWith(live.Keys)
      ensures r.Some? ==> ListsWith(live.Keys + {r.value}) && r.value !in live && BlockOf(held, r.value, b)
    {
      if buckets[b] == [] { r := MoreCounted(b); } else { r := PopBacked(b); }
    }

    /** A block of a bucket too large for a page, from the page allocator. */
    method Bigalloc(b: nat) returns (r: Option<nat>)
      requires Valid() && b >= LOCALBUCKETS && Order(b) < P.LEVELS
      modifies this`held, pages, pages.bitmap
      ensures Backed()
      ensures r.None? <==> old(NoRoom(b))
      ensures r.None? ==> ListsWith(live.Keys)
      ensures r.Some? ==> ListsWith(live.Keys + {r.value}) && r.value !in live && BlockOf(held, r.value, b)
    {
      var got := GetPages(b);
      if got.None? { return None; }
      ghost var held' := held[got.value := b];
      BigAdds(buckets, nmalloc, held, held', live.Keys, got.value, b);
      PageAdds(held, held', live.Keys, got.value, b);
      AllocsStay(live, hdrs, held, held');
      held := held';
      return Some(got.value * 4096);
    }

    method GetBlock(b: nat) returns (r: Option<nat>)
      requires Valid() && Order(b) < P.LEVELS
      modifies this`buckets, this`nmalloc, this`held, pages, pages.bitmap
      ensures Backed()
      ensures r.None? <==> old(NoRoom(b))
      ensures r.None? ==> ListsWith(live.Keys)
      ensures r.Some? ==> ListsWith(live.Keys + {r.value}) && r.value !in live && BlockOf(held, r.value, b)
    {
      if b >= LOCALBUCKETS { r := Bigalloc(b); } else { r := Bucketalloc(b); }
    }

    /** The end of bmk_memalloc: the header goes before the aligned pointer in block a. */
    method Place(a: nat, b: nat, nbytes: nat, ghost al: nat, align: nat, who: nat) returns (ptr: nat)
      requires OnPages() && AllocsOk(live, hdrs, held) && a !in live && BlockOf(held, a, b)
      requires align == Pow2(al) && 16 <= align && 2 * align <= TWO64 && nbytes + align < TWO64
      requires b == Bucket(AllocBytes(nbytes, align))
      modifies this`hdrs, this`live
      ensures AllocsOk(live, hdrs, held) && live == old(live)[a := Alloc(ptr, nbytes, b, who)] && Head(ptr, al)
    {
      PlaceFits(held, pages.live, pages.owner, pages.free, pages.minPage, pages.maxPage, live, hdrs, a, b, nbytes,
          al, align, who);
      ptr := Placed(a, align);
      var alignpad := ptr - a;
      hdrs := hdrs[ptr := Hdr(alignpad, true, b, who)];
      live := live[a := Alloc(ptr, nbytes, b, who)];
    }

    method Obtain(bucket: nat, nbytes: nat, ghost al: nat, eff: nat, who: nat) returns (r: Outcome, ghost block: nat)
      requires Valid() && Order(bucket) < P.LEVELS
      requires eff == Pow2(al) && 16 <= eff <= ALIGN_MAX && nbytes + eff < TWO64 &&
               bucket == Bucket(AllocBytes(nbytes, eff))
      modifies this`buckets, this`nmalloc, this`held, this`hdrs, this`live, pages, pages.bitmap
      ensures Valid() && !r.Halts? && (r.Null? <==> old(NoRoom(bucket)))
      ensures r.Null? ==> live == old(live) && hdrs == old(hdrs)
      ensures r.Got? ==> block !in old(live) && live == old(live)[block := Alloc(r.value, nbytes, bucket, who)]
      ensures r.Got? ==> Head(r.value, al)
    {
      block := 0;
      var hdr := GetBlock(bucket);
      if hdr.None? { return Null, 0; }
      block := hdr.value;
      var ptr := Place(hdr.value, bucket, nbytes, al, eff, who);
      assert live.Keys == old(live).Keys + {block};
      r := Got(ptr);
    }

    /** bmk_memalloc, when the sum it computes fits 64 bits (RoomIff says what happens otherwise).
        On success the pointer is aligned and a fresh block, disjoint from all others, holds it;
        Valid() says where in the block.  It halts exactly if one of its assertions fails: for an
        alignment above 2^31, or bytes beyond half the address space. */
    method Memalloc(nbytes: nat, align: nat, who: nat) returns (r: Outcome, ghost block: nat, ghost al: nat)
      requires Valid() && nbytes < TWO64 && align < TWO64
      requires AlignAccepted(align) && EffectiveAlign(align) <= ALIGN_MAX ==> nbytes + EffectiveAlign(align) < TWO64
      modifies this`buckets, this`nmalloc, this`held, this`hdrs, this`live, pages, pages.bitmap
      ensures Valid()
      ensures !AlignAccepted(align) ==> r == Null
      ensures r.Halts? <==>
                AlignAccepted(align) && (EffectiveAlign(align) > ALIGN_MAX || nbytes + EffectiveAlign(align) > TWO63)
      ensures AlignAccepted(align) && !r.Halts? ==>
                (r.Null? <==> old(NoRoom(Bucket(nbytes + EffectiveAlign(align)))))
      ensures !r.Got? ==> live == old(live) && hdrs == old(hdrs)
      ensures r.Got? ==>
                && block !in old(live)
                && live == old(live)[block := Alloc(r.value, nbytes, Bucket(nbytes + EffectiveAlign(align)), who)]
                && EffectiveAlign(align) == Pow2(al) && Head(r.value, al)
    {
      block, al := 0, 0;
      var ok := TestAlign(align);
      if !ok { return Null, 0, 0; }
      if EffectiveAlign(align) > ALIGN_MAX { return Halts, 0, 0; }
      var eff, bucket;
      eff, bucket, al := Measure(nbytes, align);
      if Order(bucket) >= P.LEVELS { return Halts, 0, al; }
      r, block := Obtain(bucket, nbytes, al, eff, who);
    }

    method FreeSmall(a: nat, b: nat)
      requires ListsWith(live.Keys) && a in live && BlockOf(held, a, b) && b < LOCALBUCKETS
      modifies this`buckets, this`nmalloc
      ensures ListsWith(live.Keys - {a})
    {
      PutBack(buckets, held, live.Keys, a, b);
      CountedDrops(nmalloc, held, live.Keys, a, b);
      buckets := buckets[b := [a] + buckets[b]];
      nmalloc := nmalloc[b := nmalloc[b] - 1];
    }

    method FreePages(g: nat, b: nat)
      requires pages.Valid() && HeldOk(held, pages.live) && g in held && held[g] == b && b >= LOCALBUCKETS
      modifies pages, pages.bitmap
      ensures pages.Valid() && HeldOk(held - {g}, pages.live)
    {
      ghost var block := pages.Pgfree(g, b + MINSHIFT - PAGE_SHIFT);
    }

    method FreeBig(a: nat, b: nat)
      requires Valid() && a in live && BlockOf(held, a, b) && b >= LOCALBUCKETS
      modifies this`held, pages, pages.bitmap
      ensures pages.Valid() && HeldOk(held, pages.live) && ListsWith(live.Keys - {a}) &&
              AllocsOk(live - {a}, hdrs, held)
    {
      BigDrops(buckets, nmalloc, held, live.Keys, a, b);
      AllocsDrop(live, hdrs, held, a, b);
      FreePages(Shr(a, PAGE_SHIFT), b);
      held := held - {Shr(a, PAGE_SHIFT)};
    }

    ghost predicate Holds(a: nat, cp: nat)
      reads this`live
    {
      a in live && live[a].ptr == cp
    }

    /** The header before an outstanding pointer leads to its block. */
    lemma Recovers(a: nat, cp: nat)
      requires AllocsOk(live, hdrs, held) && Holds(a, cp)
      ensures cp in hdrs && hdrs[cp].magic && hdrs[cp].index == live[a].bucket && hdrs[cp].who == live[a].who
      ensures cp - hdrs[cp].alignpad == a && BlockOf(held, a, hdrs[cp].index) && cp > 0
    {
      assert AllocOk(hdrs, held, a, live[a]);
    }

    /** bmk_memfree of NULL, of a pointer without a header, or of the allocation in block a. */
    method Memfree(cp: nat, who: nat, ghost a: nat)
      requires Valid() && (cp == 0 || !(cp in hdrs && hdrs[cp].magic) || (Holds(a, cp) && live[a].who == who))
      modifies this`buckets, this`nmalloc, this`held, this`live, pages, pages.bitmap
      ensures Valid()
      ensures live == if old(Holds(a, cp)) then old(live) - {a} else old(live)
    {
      if Holds(a, cp) { Recovers(a, cp); }
      if cp == 0 { return; }
      if cp !in hdrs || !hdrs[cp].magic { return; }
      var index, alignpad := hdrs[cp].index, hdrs[cp].alignpad;
      assert cp - alignpad == a;
      var origp: nat := cp - alignpad;
      if index >= LOCALBUCKETS { FreeBig(origp, index); } else { FreeSmall(origp, index); }
      assert live.Keys - {a} == (live - {a}).Keys;
      live := live - {a};
    }

    method Memcpy(dst: nat, src: nat, n: nat)
      requires dst + n <= src || src + n <= dst
      modifies this`mem
      ensures Bytes(mem, dst, n) == old(Bytes(mem, src, n))
      ensures forall z: nat :: !(dst <= z < dst + n) ==> Byte(mem, z) == old(Byte(mem, z))
    {
      var i := 0;
      while i < n
        invariant i <= n
        invariant Bytes(mem, dst, i) == old(Bytes(mem, src, i))
        invariant forall z: nat :: !(dst <= z < dst + i) ==> Byte(mem, z) == old(Byte(mem, z))
      {
        ghost var before := mem;
        mem := mem[dst + i := Byte(mem, src + i)];
        assert Bytes(mem, dst, i) == Bytes(before, dst, i);
        assert Bytes(mem, dst, i + 1) == Bytes(mem, dst, i) + [Byte(mem, dst + i)];
        assert old(Bytes(mem, src, i + 1)) == old(Bytes(mem, src, i)) + [old(Byte(mem, src + i))];
        i := i + 1;
      }
    }

    /** The block an allocation is in has room for nbytes: it is kept, for that many bytes. */
    ghost method Resize(a: nat, nbytes: nat)
      requires AllocsOk(live, hdrs, held) && a in live && live[a].ptr + nbytes <= a + Size(live[a].bucket)
      modifies this`live
      ensures AllocsOk(live, hdrs, held) && live == old(live)[a := old(live)[a].(nbytes := nbytes)] &&
              live.Keys == old(live.Keys)
    {
      assert AllocOk(hdrs, held, a, live[a]);
      live := live[a := live[a].(nbytes := nbytes)];
      forall c | c in live ensures AllocOk(hdrs, held, c, live[c]) {
        if c != a { assert AllocOk(hdrs, held, c, old(live)[c]); }
      }
    }

    /** The copy of bmk_memrealloc_user, from block a to the new block c: it fits, and none of the
        allocations there were changes. */
    method Move(ghost a: nat, ghost c: nat, count: nat, np: nat, cp: nat, ghost was: map<nat, Alloc>)
      requires OnPages() && AllocsOk(live, hdrs, held) && Holds(a, cp) && Holds(c, np)
      requires c !in was && a in was && live == was[c := live[c]]
      requires cp + count <= a + Size(live[a].bucket) && count <= live[c].nbytes
      modifies this`mem
      ensures Bytes(mem, np, count) == old(Bytes(mem, cp, count)) && SameBytes(old(mem), mem, was)
    {
      assert AllocOk(hdrs, held, a, live[a]) && AllocOk(hdrs, held, c, live[c]);
      BytesApart(live, hdrs, held, pages.live, pages.owner, a, c);
      Memcpy(np, cp, count);
      forall d | d in was ensures Bytes(mem, was[d].ptr, was[d].nbytes) == Bytes(old(mem), was[d].ptr, was[d].nbytes) {
        assert live[d] == was[d] && AllocOk(hdrs, held, d, live[d]);
        BytesApart(live, hdrs, held, pages.live, pages.owner, c, d);
      }
    }

    /** bmk_memalloc as bmk_memrealloc_user calls it, with an alignment below the least. */
    method MemallocUser(nbytes: nat, align: nat) returns (r: Outcome, ghost c: nat)
      requires Valid() && (align == 8 || align == MINALIGN) && nbytes + MINALIGN < TWO64
      modifies this`buckets, this`nmalloc, this`held, this`hdrs, this`live, pages, pages.bitmap
      ensures Valid()
      ensures r.Halts? <==> nbytes + MINALIGN > TWO63
      ensures r.Null? <==> !r.Halts? && old(NoRoom(Bucket(nbytes + MINALIGN)))
      ensures !r.Got? ==> live == old(live)
      ensures r.Got? ==>
                c !in old(live) && live == old(live)[c := Alloc(r.value, nbytes, Bucket(nbytes + MINALIGN), USER)]
    {
      ghost var al;
      UserAligns(align);
      assert Bucket(nbytes + EffectiveAlign(align)) == Bucket(nbytes + MINALIGN);
      r, c, al := Memalloc(nbytes, align, USER);
    }

    method CopyInto(ghost a: nat, ghost c: nat, count: nat, np: nat, cp: nat, ghost was: map<nat, Alloc>)
      requires Valid() && Holds(a, cp) && Holds(c, np) && c !in was && a in was && live == was[c := live[c]]
      requires cp + count <= a + Size(live[a].bucket) && count <= live[c].nbytes
      modifies this`mem
      ensures Valid() && Bytes(mem, np, count) == old(Bytes(mem, cp, count)) && SameBytes(old(mem), mem, was)
    {
      Move(a, c, count, np, cp, was);
    }

    /** A new block, and the copy into it. */
    method AllocCopy(cp: nat, nbytes: nat, count: nat, ghost a: nat) returns (r: Outcome, ghost c: nat)
      requires Valid() && Holds(a, cp) && nbytes + MINALIGN < TWO64
      requires cp + count <= a + Size(live[a].bucket) && count <= nbytes
      modifies this`buckets, this`nmalloc, this`held, this`hdrs, this`live, this`mem, pages, pages.bitmap
      ensures Valid() && SameBytes(old(mem), mem, old(live))
      ensures r.Halts? <==> nbytes + MINALIGN > TWO63
      ensures r.Null? <==> !r.Halts? && old(NoRoom(Bucket(nbytes + MINALIGN)))
      ensures !r.Got? ==> live == old(live)
      ensures r.Got? ==>
                c !in old(live) && live == old(live)[c := Alloc(r.value, nbytes, Bucket(nbytes + MINALIGN), USER)]
      ensures r.Got? ==> Bytes(mem, r.value, count) == Bytes(old(mem), cp, count)
    {
      r, c := MemallocUser(nbytes, 8);
      if r.Got? { CopyInto(a, c, count, r.value, cp, old(live)); }
    }

    /** The last case of bmk_memrealloc_user: a new block, the copy, and the old block freed.  The
        caller's bytes are in the new block and no other allocation has changed. */
    method Grow(cp: nat, nbytes: nat, count: nat, ghost a: nat) returns (r: Outcome, ghost c: nat)
      requires Valid() && Holds(a, cp) && live[a].who == USER && nbytes + MINALIGN < TWO64
      requires cp + count == a + Size(live[a].bucket) && count < nbytes
      modifies this`buckets, this`nmalloc, this`held, this`hdrs, this`live, this`mem, pages, pages.bitmap
      ensures Valid() && SameBytes(old(mem), mem, old(live))
      ensures r.Halts? <==> nbytes + MINALIGN > TWO63
      ensures r.Null? <==> !r.Halts? && old(NoRoom(Bucket(nbytes + MINALIGN)))
      ensures !r.Got? ==> live == old(live)
      ensures r.Got? ==>
                && c !in old(live)
                && live == old(live)[c := Alloc(r.value, nbytes, Bucket(nbytes + MINALIGN), USER)] - {a}
                && Bytes(mem, r.value, old(live)[a].nbytes) == Bytes(old(mem), cp, old(live)[a].nbytes)
    {
      FitsCount(hdrs, held, a, live[a], cp, count);
      r, c := AllocCopy(cp, nbytes, count, a);
      if !r.Got? { return; }
      Prefix(mem, r.value, old(mem), cp, count, old(live)[a].nbytes);
      Memfree(cp, USER, a);
    }

    /** What bmk_memrealloc_user leaves for a live pointer and nbytes > 0: block c holds nbytes, the
        first bytes are the caller's, and it is the old block exactly if that has room. */
    ghost predicate Reallocated(old0: map<nat, Alloc>, mem0: map<nat, int>, cp: nat, a: nat, nbytes: nat, np: nat,
        c: nat)
      requires a in old0
      reads this`live, this`mem
    {
      var kept := cp + nbytes <= a + Size(old0[a].bucket);
      && (if kept then c == a && np == cp && live == old0[a := old0[a].(nbytes := nbytes)]
          else c !in old0 && live == old0[c := Alloc(np, nbytes, Bucket(nbytes + MINALIGN), USER)] - {a})
      && (var n := if old0[a].nbytes < nbytes then old0[a].nbytes else nbytes;
          Bytes(mem, np, n) == Bytes(mem0, cp, n))
    }

    /** bmk_memrealloc_user, for blocks below 2^31 bytes: above, its shift of an int is undefined. */
    method Realloc(cp: nat, nbytes: nat, ghost a: nat) returns (r: Outcome, ghost c: nat)
      requires Valid() && nbytes + MINALIGN < TWO64
      requires cp == 0 || (Holds(a, cp) && live[a].who == USER && Size(live[a].bucket) < 0x8000_0000)
      modifies this`buckets, this`nmalloc, this`held, this`hdrs, this`live, this`mem, pages, pages.bitmap
      ensures Valid() && SameBytes(old(mem), mem, old(live))
      ensures r.Halts? <==>
                nbytes + MINALIGN > TWO63 && (cp == 0 || cp + nbytes > a + Size(old(live)[a].bucket))
      ensures r.Null? <==>
                || (cp != 0 && nbytes == 0)
                || (&& !r.Halts? && old(NoRoom(Bucket(nbytes + MINALIGN)))
                    && (cp == 0 || cp + nbytes > a + Size(old(live)[a].bucket)))
      ensures cp == 0 && r.Got? ==>
                c !in old(live) && live == old(live)[c := Alloc(r.value, nbytes, Bucket(nbytes + MINALIGN), USER)]
      ensures cp != 0 && nbytes == 0 ==> r == Null && live == old(live) - {a}
      ensures !r.Got? && (cp == 0 || nbytes > 0) ==> live == old(live)
      ensures cp != 0 && r.Got? ==> Reallocated(old(live), old(mem), cp, a, nbytes, r.value, c)
    {
      c := a;
      if cp == 0 {
        r, c := MemallocUser(nbytes, MINALIGN);
        return;
      }
      Recovers(a, cp);
      assert AllocOk(hdrs, held, a, live[a]);
      if nbytes == 0 {
        Memfree(cp, USER, a);
        return Null, a;
      }
      var room: nat := Size(hdrs[cp].index) - hdrs[cp].alignpad;
      if room >= nbytes {
        Resize(a, nbytes);
        return Got(cp), a;
      }
      r, c := Grow(cp, nbytes, room, a);
    }
  }
}
