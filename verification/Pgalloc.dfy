/** The page allocator of lib/libbmk_core/pgalloc.c: free lists of power-of-two chunks with their
    headers in the chunks themselves, an allocation bitmap used to find buddies, and a count of
    the memory in use.  Addresses are page numbers, the byte address shifted right by the page
    shift 12. */
module Pgalloc {
  import opened Common
  import opened Bits
  import opened Buddy
  import opened Bitmap

  /** 8 * sizeof(void *) - 12. */
  const LEVELS: nat := 52

  /** The number of pages in 64 bits of address space. */
  const PAGES: nat := 0x10_0000_0000_0000

  lemma PagesIs()
    ensures Pow2(LEVELS) == PAGES
  {
    assert Pow2(13) == 8192;
    Pow2Add(13, 13);
    Pow2Add(26, 26);
  }

  datatype Header = Header(level: nat, magic: bool)

  // ----- lists of chunks -----

  predicate Listed(lists: seq<seq<nat>>, x: nat, k: nat) { k < |lists| && x in lists[k] }

  ghost predicate ListsOk(lists: seq<seq<nat>>) {
    |lists| == LEVELS && forall k :: 0 <= k < LEVELS ==> Distinct(lists[k])
  }

  /** Every chunk listed has its header. */
  ghost predicate HeadersTrue(lists: seq<seq<nat>>, header: map<nat, Header>) {
    forall x: nat, k: nat :: Listed(lists, x, k) ==> x in header && header[x] == Header(k, true)
  }

  ghost predicate Untouched(header: map<nat, Header>, header': map<nat, Header>, x: nat) {
    (x in header <==> x in header') && (x in header ==> header'[x] == header[x])
  }

  /** Chunk x of level k has been added to the lists, with its header, and nothing else. */
  ghost predicate Links(lists: seq<seq<nat>>, header: map<nat, Header>,
                        lists': seq<seq<nat>>, header': map<nat, Header>,
                        x: nat, k: nat) {
    && ListsOk(lists')
    && (forall y: nat, l: nat :: Listed(lists', y, l) <==> Listed(lists, y, l) || (y == x && l == k))
    && x in header' && header'[x] == Header(k, true)
    && (forall y: nat :: y != x ==> Untouched(header, header', y))
  }

  function Remove(s: seq<nat>, x: nat): seq<nat> {
    if s == [] then [] else if s[0] == x then s[1..] else [s[0]] + Remove(s[1..], x)
  }

  lemma {:induction false} Removed(s: seq<nat>, x: nat)
    requires Distinct(s)
    ensures Distinct(Remove(s, x)) && forall y :: y in Remove(s, x) <==> y in s && y != x
  {
    if s != [] {
      assert Distinct(s[1..]);
      Removed(s[1..], x);
      var r := Remove(s[1..], x);
      assert s == [s[0]] + s[1..];
      forall i | 0 <= i < |r| ensures r[i] != s[0] { assert r[i] in s[1..]; }
    }
  }

  lemma Unlinked(lists: seq<seq<nat>>, x: nat, k: nat)
    requires ListsOk(lists) && k < LEVELS
    ensures var lists' := lists[k := Remove(lists[k], x)];
            && ListsOk(lists')
            && forall y: nat, l: nat :: Listed(lists', y, l) <==> Listed(lists, y, l) && !(y == x && l == k)
  {
    Removed(lists[k], x);
  }

  // ----- ranges of pages -----

  /** The block of n pages from a. */
  ghost predicate IsBlock(s: set<nat>, a: nat, n: nat) { IsRange(s, a, a + n) && |s| == n }

  lemma {:induction false} Block(a: nat, n: nat) returns (s: set<nat>)
    ensures IsBlock(s, a, n)
  {
    if n == 0 { s := {}; }
    else {
      var t := Block(a, n - 1);
      s := t + {a + n - 1};
    }
  }

  // ----- the parts of the allocator's state -----

  /** The lists hold exactly the maximal free blocks, each with its header. */
  ghost predicate ListsAre(lists: seq<seq<nat>>, header: map<nat, Header>, free: set<nat>) {
    && ListsOk(lists)
    && (forall x: nat, k: nat :: Listed(lists, x, k) <==> Heads(free, x, k))
    && HeadersTrue(lists, header)
  }

  /** A bit is set exactly for the pages in use. */
  ghost predicate MapIs(words: seq<nat>, lo: nat, hi: nat, free: set<nat>) {
    && lo <= hi && (hi - lo) / WORD < |words| && (forall i :: 0 <= i < |words| ==> Fits(words[i]))
    && (forall p :: lo <= p < hi ==> (p - lo) / WORD < |words| && (InMap(words, p - lo) <==> p !in free))
  }

  /** Outstanding allocation (x, k) is a block of pages that `owner` gives to x. */
  ghost predicate Owns(owner: map<nat, nat>, x: nat, k: nat) {
    Head(x, k) && forall p: nat :: x <= p < x + Pow2(k) ==> p in owner && owner[p] == x
  }

  ghost predicate Owned(live: map<nat, nat>, p: nat, x: nat) { x in live && x <= p < x + Pow2(live[x]) }

  /** The outstanding allocations are blocks that share no page and fill the pages in use: `owner`
      gives the head of the one that has a page. */
  ghost predicate LiveOk(live: map<nat, nat>, owner: map<nat, nat>) {
    && (forall x :: x in live ==> Owns(owner, x, live[x]))
    && (forall p :: p in owner ==> Owned(live, p, owner[p]))
  }

  ghost predicate Parted(free: set<nat>, used: set<nat>, lo: nat, hi: nat) {
    && (forall p: nat :: lo <= p < hi <==> p in free || p in used)
    && (forall p :: p in free ==> p !in used)
  }

  ghost function Take(owner: map<nat, nat>, x: nat, block: set<nat>): map<nat, nat> {
    owner + map p | p in block :: x
  }

  lemma Takes(owner: map<nat, nat>, x: nat, block: set<nat>)
    requires owner.Keys !! block
    ensures Take(owner, x, block).Keys == owner.Keys + block
    ensures |Take(owner, x, block).Keys| == |owner.Keys| + |block|
  {
    assert Take(owner, x, block).Keys == owner.Keys + block;
  }

  lemma NotLive(live: map<nat, nat>, owner: map<nat, nat>, x: nat)
    requires LiveOk(live, owner) && x !in owner
    ensures x !in live
  {
    assert x in live ==> Owns(owner, x, live[x]);
  }

  lemma LiveAdds(live: map<nat, nat>, owner: map<nat, nat>, x: nat, k: nat, block: set<nat>)
    requires LiveOk(live, owner) && Head(x, k) && IsBlock(block, x, Pow2(k)) && owner.Keys !! block
    ensures LiveOk(live[x := k], Take(owner, x, block))
  {
    var live', owner' := live[x := k], Take(owner, x, block);
    Takes(owner, x, block);
    assert x in block;
    NotLive(live, owner, x);
    TakerOwns(owner, x, k, block);
    forall y | y in live' ensures Owns(owner', y, live'[y]) {
      if y != x { StillOwns(owner, y, live[y], x, block); }
    }
    forall p | p in owner' ensures Owned(live', p, owner'[p]) {
      if p !in block { assert Owned(live, p, owner[p]) && owner[p] != x; }
    }
  }

  lemma TakerOwns(owner: map<nat, nat>, x: nat, k: nat, block: set<nat>)
    requires Head(x, k) && IsBlock(block, x, Pow2(k))
    ensures Owns(Take(owner, x, block), x, k)
  {
  }

  lemma StillOwns(owner: map<nat, nat>, y: nat, k: nat, x: nat, block: set<nat>)
    requires Owns(owner, y, k) && owner.Keys !! block
    ensures Owns(Take(owner, x, block), y, k)
  {
  }

  lemma LiveDrops(live: map<nat, nat>, owner: map<nat, nat>, x: nat, block: set<nat>)
    requires LiveOk(live, owner) && x in live && IsBlock(block, x, Pow2(live[x]))
    ensures LiveOk(live - {x}, owner - block) && block <= owner.Keys
    ensures (owner - block).Keys == owner.Keys - block
    ensures |(owner - block).Keys| == |owner.Keys| - Pow2(live[x])
  {
    var live', owner' := live - {x}, owner - block;
    assert Owns(owner, x, live[x]);
    assert (owner - block).Keys == owner.Keys - block;
    forall y | y in live' ensures Owns(owner', y, live'[y]) {
      assert Owns(owner, y, live[y]);
      forall p: nat | y <= p < y + Pow2(live[y]) ensures p in owner' { assert owner[p] == y; }
    }
    forall p | p in owner' ensures Owned(live', p, owner'[p]) {
      assert Owned(live, p, owner[p]);
    }
  }

  // ----- carving a range into chunks -----

  /** The maximal blocks of `span` that start before `cur` have been put on the lists. */
  ghost predicate Carved(lists0: seq<seq<nat>>, header0: map<nat, Header>,
                         lists: seq<seq<nat>>, header: map<nat, Header>,
                         span: set<nat>, lo: nat, cur: nat) {
    && ListsOk(lists)
    && (forall x: nat, k: nat :: Listed(lists, x, k) <==> Listed(lists0, x, k) || (Heads(span, x, k) && x < cur))
    && (forall x: nat, k: nat :: Heads(span, x, k) && x < cur ==> x in header && header[x] == Header(k, true))
    && (forall x: nat :: !(lo <= x < cur) ==> Untouched(header0, header, x))
  }

  ghost predicate NoneFrom(lists: seq<seq<nat>>, lo: nat, hi: nat) {
    forall x: nat, k: nat :: Listed(lists, x, k) ==> !(lo <= x < hi)
  }

  lemma CutFits(span: set<nat>, lo: nat, hi: nat, a: nat)
    requires IsRange(span, lo, hi) && Cut(lo, hi, a) && hi <= PAGES
    ensures CutLevel(hi, a) < LEVELS
  {
    CutIsChunk(span, lo, hi, a);
    PagesIs();
    LevelBound(span, a, CutLevel(hi, a), LEVELS);
  }

  lemma CarveStep(lists0: seq<seq<nat>>, header0: map<nat, Header>, lists: seq<seq<nat>>, header: map<nat, Header>,
                  lists': seq<seq<nat>>, header': map<nat, Header>, span: set<nat>, lo: nat, hi: nat, a: nat, i: nat)
    requires Carved(lists0, header0, lists, header, span, lo, a) && Links(lists, header, lists', header', a, i)
    requires IsRange(span, lo, hi) && Cut(lo, hi, a) && i == CutLevel(hi, a)
    ensures Carved(lists0, header0, lists', header', span, lo, a + Pow2(i))
  {
    CutIsChunk(span, lo, hi, a);
    forall x: nat, k: nat | Heads(span, x, k) && x < a + Pow2(i)
      ensures (x < a && Listed(lists, x, k)) || (x == a && k == i) {
      if x >= a { CutIsOnly(span, lo, hi, a, x, k); }
    }
    forall x: nat, k: nat ensures Listed(lists', x, k) <==>
        Listed(lists0, x, k) || (Heads(span, x, k) && x < a + Pow2(i)) {
      assert Listed(lists', x, k) <==> Listed(lists, x, k) || (x == a && k == i);
    }
    forall x: nat, k: nat | Heads(span, x, k) && x < a + Pow2(i) ensures x in header' && header'[x] == Header(k, true) {
      assert x != a ==> Untouched(header, header', x);
    }
    forall x: nat | !(lo <= x < a + Pow2(i)) ensures Untouched(header0, header', x) {
      assert Untouched(header0, header, x) && Untouched(header, header', x);
    }
  }

  /** The chunk that carverange cuts off at a is not on the lists yet, and fits. */
  lemma CarveOne(lists0: seq<seq<nat>>, header0: map<nat, Header>, lists: seq<seq<nat>>, header: map<nat, Header>,
                 span: set<nat>, lo: nat, hi: nat, a: nat, i: nat)
    requires Carved(lists0, header0, lists, header, span, lo, a) && NoneFrom(lists0, lo, hi)
    requires IsRange(span, lo, hi) && hi <= PAGES && Cut(lo, hi, a)
    requires var r := FloorLog(hi - a); i == if Ctz(a) > r then r else Ctz(a)
    ensures i == CutLevel(hi, a) < LEVELS && !Listed(lists, a, i)
    ensures a + Pow2(i) <= hi && (a + Pow2(i) < hi ==> Cut(lo, hi, a + Pow2(i)))
  {
    CutFits(span, lo, hi, a);
    CutGoesOn(lo, hi, a);
  }

  lemma CarveEnd(lists0: seq<seq<nat>>, header0: map<nat, Header>, lists: seq<seq<nat>>, header: map<nat, Header>,
                 span: set<nat>, lo: nat, hi: nat)
    requires Carved(lists0, header0, lists, header, span, lo, hi) && IsRange(span, lo, hi)
    ensures forall x: nat, k: nat :: Listed(lists, x, k) <==> Listed(lists0, x, k) || Heads(span, x, k)
    ensures forall x: nat, k: nat :: Heads(span, x, k) ==> x in header && header[x] == Header(k, true)
  {
    forall x: nat, k: nat | Heads(span, x, k) ensures x < hi { assert x in span; }
  }

  // ----- allocating: the lists and the bitmap -----

  /** No other maximal free block starts inside the one that p heads. */
  lemma OthersOutside(free: set<nat>, p: nat, bucket: nat, x: nat, k: nat)
    requires Heads(free, p, bucket) && Heads(free, x, k) && (x != p || k != bucket)
    ensures !(p <= x < p + Pow2(bucket))
  {
    BlockPages(p, bucket, x);
    if p <= x < p + Pow2(bucket) {
      ChunksDisjoint(free, x, k, bucket);
      HeadUnique(x, p, bucket);
    }
  }

  lemma UnlinkedLists(lists: seq<seq<nat>>, header: map<nat, Header>, free: set<nat>, p: nat, bucket: nat)
    requires ListsAre(lists, header, free) && Listed(lists, p, bucket)
    ensures var lists' := lists[bucket := Remove(lists[bucket], p)];
            && ListsOk(lists') && NoneFrom(lists', p, p + Pow2(bucket))
            && forall x: nat, k: nat :: Listed(lists', x, k) <==> Heads(free, x, k) && (x != p || k != bucket)
  {
    var lists' := lists[bucket := Remove(lists[bucket], p)];
    Unlinked(lists, p, bucket);
    forall x: nat, k: nat | Listed(lists', x, k) ensures !(p <= x < p + Pow2(bucket)) {
      assert Heads(free, x, k) && Heads(free, p, bucket);
      OthersOutside(free, p, bucket, x, k);
    }
  }

  lemma AllocatedLists(lists: seq<seq<nat>>, header: map<nat, Header>, free: set<nat>, p: nat, order: nat, bucket: nat,
                       left: set<nat>, rest: set<nat>, lists1: seq<seq<nat>>, header1: map<nat, Header>,
                       lists2: seq<seq<nat>>, header2: map<nat, Header>)
    requires ListsAre(lists, header, free) && Split(free, p, order, bucket, left, rest)
    requires NoneFrom(lists1, p, p + Pow2(bucket))
    requires forall x: nat, k: nat :: Listed(lists1, x, k) <==> Heads(free, x, k) && (x != p || k != bucket)
    requires forall x: nat :: x != p ==> Untouched(header, header1, x)
    requires Carved(lists1, header1, lists2, header2, rest, p + Pow2(order), p + Pow2(bucket))
    ensures ListsAre(lists2, header2, left)
  {
    CarveEnd(lists1, header1, lists2, header2, rest, p + Pow2(order), p + Pow2(bucket));
    forall x: nat, k: nat ensures Listed(lists2, x, k) <==> Heads(left, x, k) {
      SplitChunks(free, p, order, bucket, left, rest, x, k);
      assert Listed(lists1, x, k) <==> Heads(free, x, k) && (x != p || k != bucket);
    }
    forall x: nat, k: nat | Listed(lists2, x, k) ensures x in header2 && header2[x] == Header(k, true) {
      if !Heads(rest, x, k) {
        assert Listed(lists1, x, k) && Listed(lists, x, k);
        assert Untouched(header, header1, x) && Untouched(header1, header2, x);
      }
    }
  }

  lemma MapTakes(w: seq<nat>, v: seq<nat>, lo: nat, hi: nat, free: set<nat>, p: nat, n: nat, left: set<nat>)
    requires MapIs(w, lo, hi, free) && lo <= p && p + n <= hi && |v| == |w| && (forall i :: 0 <= i < |v| ==> Fits(v[i]))
    requires forall i :: 0 <= i < |w| ==> WordSet(w[i], v[i], i, p - lo, n)
    requires forall y :: y in left <==> y in free && !(p <= y < p + n)
    ensures MapIs(v, lo, hi, left)
  {
    forall q | lo <= q < hi ensures InMap(v, q - lo) <==> q !in left { SetByPage(w, v, p - lo, n, q - lo); }
  }

  lemma MapGives(w: seq<nat>, v: seq<nat>, lo: nat, hi: nat, free: set<nat>, p: nat, n: nat, after: set<nat>)
    requires MapIs(w, lo, hi, free) && lo <= p && p + n <= hi && |v| == |w| && (forall i :: 0 <= i < |v| ==> Fits(v[i]))
    requires forall i :: 0 <= i < |w| ==> WordClear(w[i], v[i], i, p - lo, n)
    requires forall y: nat :: y in after <==> y in free || p <= y < p + n
    ensures MapIs(v, lo, hi, after)
  {
    forall q | lo <= q < hi ensures InMap(v, q - lo) <==> q !in after { ClearByPage(w, v, p - lo, n, q - lo); }
  }

  lemma ChunkWithin(free: set<nat>, used: set<nat>, lo: nat, hi: nat, p: nat, k: nat)
    requires Parted(free, used, lo, hi) && Head(p, k) && Whole(free, Shr(p, k), k)
    ensures lo <= p && p + Pow2(k) <= hi && forall q: nat :: p <= q < p + Pow2(k) ==> q in free
  {
    forall q: nat | p <= q < p + Pow2(k) ensures q in free { BlockPages(p, k, q); }
    assert p + Pow2(k) - 1 in free && p in free;
  }

  /** The pages of the new allocation leave the free set for the set in use. */
  lemma PartsTake(free: set<nat>, owner: map<nat, nat>, live: map<nat, nat>, lo: nat, hi: nat, p: nat, order: nat,
                  block: set<nat>)
    requires Parted(free, owner.Keys, lo, hi) && LiveOk(live, owner) && Head(p, order)
    requires IsBlock(block, p, Pow2(order)) && block <= free
    ensures Parted(free - block, Take(owner, p, block).Keys, lo, hi)
    ensures LiveOk(live[p := order], Take(owner, p, block)) && p !in live
    ensures |Take(owner, p, block).Keys| == |owner.Keys| + Pow2(order)
  {
    Takes(owner, p, block);
    LiveAdds(live, owner, p, order, block);
    assert p in block;
    NotLive(live, owner, p);
  }

  lemma HeadOf(x: nat, k: nat) returns (c: nat)
    ensures Head(c, k) && Shr(c, k) == Shr(x, k)
  {
    Parts(x, k);
    c := Shr(x, k) * Pow2(k);
    PartsUnique(Shr(x, k), 0, k);
  }

  /** If some aligned block of the level asked for is free, then some maximal free block of that
      level or more has an aligned head. */
  lemma AlignedHead(free: set<nat>, x: nat, order: nat, al: nat) returns (c: nat, k: nat)
    requires Head(x, order) && Head(x, al) && Whole(free, Shr(x, order), order)
    requires forall q :: q in free ==> 0 < q < PAGES
    ensures order <= k < LEVELS && Heads(free, c, k) && Head(c, al)
  {
    PagesIs();
    if Whole(free, Shr(x, LEVELS), LEVELS) { LevelBound(free, x, LEVELS, LEVELS); }
    LevelBound(free, x, order, LEVELS);
    k := ChunkOf(free, x, order, LEVELS);
    if k <= al {
      c := x;
      HeadLower(x, k, al);
    } else {
      c := HeadOf(x, k);
      HeadLower(c, al, k);
    }
  }

  /** The pages that leave and the rest of the chunk they leave. */
  lemma PlanAlloc(free: set<nat>, used: set<nat>, lo: nat, hi: nat, p: nat, order: nat, bucket: nat)
    returns (block: set<nat>, rest: set<nat>)
    requires Parted(free, used, lo, hi) && Heads(free, p, bucket) && order <= bucket
    ensures lo <= p && p + Pow2(order) <= p + Pow2(bucket) <= hi && Head(p, order)
    ensures IsBlock(block, p, Pow2(order)) && block <= free && Split(free, p, order, bucket, free - block, rest)
  {
    ChunkWithin(free, used, lo, hi, p, bucket);
    Pow2Mono(order, bucket);
    HeadLower(p, order, bucket);
    block := Block(p, Pow2(order));
    rest := Block(p + Pow2(order), Pow2(bucket) - Pow2(order));
  }

  /** No block of the level, with its head aligned, is free. */
  ghost predicate NoneFree(free: set<nat>, order: nat, al: nat) {
    forall x: nat :: Head(x, order) && Head(x, al) ==> !Whole(free, Shr(x, order), order)
  }

  lemma NoneAligned(lists: seq<seq<nat>>, header: map<nat, Header>, free: set<nat>, order: nat, al: nat)
    requires ListsAre(lists, header, free) && forall q :: q in free ==> 0 < q < PAGES
    requires forall x: nat, k: nat :: order <= k && Listed(lists, x, k) ==> !Head(x, al)
    ensures NoneFree(free, order, al)
  {
    forall x: nat | Head(x, order) && Head(x, al) ensures !Whole(free, Shr(x, order), order) {
      if Whole(free, Shr(x, order), order) { var c, k := AlignedHead(free, x, order, al); }
    }
  }

  // ----- freeing: the lists while a block grows -----

  /** The lists hold the maximal blocks that were free, except those the block has taken in. */
  ghost predicate MergeLists(lists: seq<seq<nat>>, header: map<nat, Header>, free: set<nat>, y: nat, j: nat) {
    && ListsOk(lists)
    && (forall x: nat, k: nat :: Listed(lists, x, k) <==> Heads(free, x, k) && Shr(x, j) != Shr(y, j))
    && HeadersTrue(lists, header)
  }

  lemma LiveBlock(free: set<nat>, owner: map<nat, nat>, live: map<nat, nat>, lo: nat, hi: nat, x: nat, block: set<nat>)
    requires Parted(free, owner.Keys, lo, hi) && LiveOk(live, owner) && x in live && IsBlock(block, x, Pow2(live[x]))
    ensures lo <= x && x + Pow2(live[x]) <= hi && |owner.Keys| >= Pow2(live[x]) && block !! free
  {
    LiveDrops(live, owner, x, block);
    assert x + Pow2(live[x]) - 1 in block && x in block;
  }

  lemma MergingStart(free: set<nat>, owner: map<nat, nat>, live: map<nat, nat>, lo: nat, hi: nat, x: nat,
      block: set<nat>)
    requires Parted(free, owner.Keys, lo, hi) && LiveOk(live, owner) && x in live && IsBlock(block, x, Pow2(live[x]))
    ensures Merging(free, free + block, x, live[x], x, live[x]) && forall q :: q in free + block ==> lo <= q < hi
  {
    var k := live[x];
    assert Owns(owner, x, k);
    LiveBlock(free, owner, live, lo, hi, x, block);
    forall q: nat ensures (Shr(q, k) == Shr(x, k) ==> q !in free) && (q in block <==> Shr(q, k) == Shr(x, k)) {
      BlockPages(x, k, q);
    }
  }

  lemma MergeListsStart(lists: seq<seq<nat>>, header: map<nat, Header>, free: set<nat>, after: set<nat>, x0: nat,
      k0: nat)
    requires ListsAre(lists, header, free) && Merging(free, after, x0, k0, x0, k0)
    ensures MergeLists(lists, header, free, x0, k0)
  {
    forall x: nat, k: nat | Heads(free, x, k) ensures Shr(x, k0) != Shr(x0, k0) {
      MergeStart(free, after, x0, k0, x, k);
    }
  }

  lemma MergeListsStep(lists: seq<seq<nat>>, header: map<nat, Header>, header': map<nat, Header>, free: set<nat>,
                       y: nat, j: nat, h: nat, z: nat)
    requires MergeLists(lists, header, free, y, j) && Buddies(y, h, j) && Heads(free, h, j) && j < LEVELS
    requires (z == y || z == h) && forall x: nat :: x != y && x != h ==> Untouched(header, header', x)
    ensures MergeLists(lists[j := Remove(lists[j], h)], header', free, z, j + 1)
  {
    var lists' := lists[j := Remove(lists[j], h)];
    Unlinked(lists, h, j);
    ShrStep(z, j);
    ShrStep(y, j);
    forall x: nat, k: nat ensures Listed(lists', x, k) <==> Heads(free, x, k) && Shr(x, j + 1) != Shr(z, j + 1) {
      if Heads(free, x, k) { MergeTakes(free, y, j, h, x, k); }
    }
    forall x: nat, k: nat | Listed(lists', x, k) ensures x in header' && header'[x] == Header(k, true) {
      assert Listed(lists, x, k) && x != y;
      if x == h { ChunksDisjoint(free, h, k, j); }
      assert Untouched(header, header', x);
    }
  }

  lemma MergeListsEnd(lists: seq<seq<nat>>, header: map<nat, Header>, lists': seq<seq<nat>>, header': map<nat, Header>,
                      free: set<nat>, after: set<nat>, x0: nat, k0: nat, y: nat, j: nat)
    requires MergeLists(lists, header, free, y, j) && Merging(free, after, x0, k0, y, j)
    requires Links(lists, header, lists', header', y, j) && !Whole(after, Shr(y, j) / 2, j + 1)
    ensures ListsAre(lists', header', after)
  {
    forall x: nat, k: nat ensures Listed(lists', x, k) <==> Heads(after, x, k) {
      MergeChunks(free, after, x0, k0, y, j, x, k);
      assert Listed(lists', x, k) <==> Listed(lists, x, k) || (x == y && k == j);
    }
    forall x: nat, k: nat | Listed(lists', x, k) ensures x in header' && header'[x] == Header(k, true) {
      if x == y { assert !Listed(lists, x, k); } else { assert Listed(lists, x, k) && Untouched(header, header', x); }
    }
  }

  lemma InLevels(after: set<nat>, y: nat, j: nat)
    requires Whole(after, Shr(y, j), j) && forall q :: q in after ==> 0 < q < PAGES
    ensures j < LEVELS
  {
    PagesIs();
    LevelBound(after, y, j, LEVELS);
  }

  lemma PartsGive(free: set<nat>, owner: map<nat, nat>, live: map<nat, nat>, lo: nat, hi: nat, x: nat, block: set<nat>)
    requires Parted(free, owner.Keys, lo, hi) && LiveOk(live, owner) && x in live && IsBlock(block, x, Pow2(live[x]))
    ensures Parted(free + block, (owner - block).Keys, lo, hi) && LiveOk(live - {x}, owner - block)
    ensures |(owner - block).Keys| == |owner.Keys| - Pow2(live[x])
  {
    LiveDrops(live, owner, x, block);
  }

  /** order2size(order) >> 10. */
  function Kb(order: nat): (kb: nat)
    ensures kb == 4 * Pow2(order)
  {
    Pow2(order) * 4096 / 1024
  }

  // ----- loading the memory -----

  function RoundPage(b: nat): nat { (b + 4095) / 4096 }
  function TruncPage(b: nat): nat { b / 4096 }

  /** Pages taken by the bitmap: (range >> 15) + 1 bytes, rounded up. */
  function BitmapPages(lo: nat, hi: nat): nat { if lo <= hi then RoundPage((hi - lo) / 8 + 1) else 1 }

  /** The highest word that map_alloc and map_free touch, for whatever block of the managed pages,
      the extra word included, lies inside the bitmap. */
  lemma BitmapReaches(lo: nat, hi: nat)
    requires lo + BitmapPages(lo, hi) <= hi
    ensures BitmapPages(lo, hi) >= 1 && (hi - (lo + BitmapPages(lo, hi))) / WORD < BitmapPages(lo, hi) * 512
  {
  }

  lemma OnesMap(words: seq<nat>, lo: nat, hi: nat, free: set<nat>)
    requires free == {} && lo <= hi && (hi - lo) / WORD < |words|
    requires forall i :: 0 <= i < |words| ==> words[i] == Pow2(WORD) - 1
    ensures MapIs(words, lo, hi, free)
  {
    forall p | lo <= p < hi ensures InMap(words, p - lo) <==> p !in free { OnesBit(WORD, (p - lo) % WORD); }
  }

  // ----- what the lists are determined by -----

  lemma {:induction false} SameElements(s: seq<nat>, t: seq<nat>)
    requires Distinct(s) && Distinct(t) && forall x :: x in s <==> x in t
    ensures multiset(s) == multiset(t)
  {
    assert t != [] ==> t[0] in t;
    if s != [] {
      var x := s[0];
      assert s == [x] + s[1..];
      Removed(t, x);
      RemovedMultiset(t, x);
      forall y ensures y in s[1..] <==> y in Remove(t, x) {
        assert y in s <==> y == x || y in s[1..];
      }
      SameElements(s[1..], Remove(t, x));
    }
  }

  lemma {:induction false} RemovedMultiset(t: seq<nat>, x: nat)
    requires x in t
    ensures multiset(t) == multiset(Remove(t, x)) + multiset{x}
  {
    assert t == [t[0]] + t[1..];
    if t[0] != x { RemovedMultiset(t[1..], x); }
  }

  /** The free lists hold the same chunks whenever the same pages are free. */
  lemma ListsDetermined(lists: seq<seq<nat>>, header: map<nat, Header>,
                        lists': seq<seq<nat>>, header': map<nat, Header>,
                        free: set<nat>, k: nat)
    requires ListsAre(lists, header, free) && ListsAre(lists', header', free) && k < LEVELS
    ensures multiset(lists[k]) == multiset(lists'[k])
  {
    forall x: nat ensures x in lists[k] <==> x in lists'[k] {
      assert Listed(lists, x, k) <==> Listed(lists', x, k);
    }
    SameElements(lists[k], lists'[k]);
  }

  lemma OwnerIsLive(live: map<nat, nat>, owner: map<nat, nat>, p: nat)
    requires LiveOk(live, owner)
    ensures p in owner ==> owner[p] in live
  {
    assert p in owner ==> Owned(live, p, owner[p]);
  }

  /** With nothing outstanding, all pages are free and the lists are the chunks first carved. */
  lemma FreedAll(lists: seq<seq<nat>>, header: map<nat, Header>, free: set<nat>, owner: map<nat, nat>, lo: nat, hi: nat,
                 lists0: seq<seq<nat>>, header0: map<nat, Header>, all: set<nat>, k: nat)
    requires ListsAre(lists, header, free) && Parted(free, owner.Keys, lo, hi) && LiveOk(map[], owner)
    requires ListsAre(lists0, header0, all) && IsRange(all, lo, hi) && k < LEVELS
    ensures free == all && owner == map[] && multiset(lists[k]) == multiset(lists0[k])
  {
    var none: map<nat, nat> := map[];
    forall p ensures p in owner ==> owner[p] in none { OwnerIsLive(none, owner, p); }
    assert free == all;
    ListsDetermined(lists, header, lists0, header0, free, k);
  }

  class Allocator {
    const minPage: nat
    const maxPage: nat
    const bitmap: array<nat>
    var lists: seq<seq<nat>>
    var header: map<nat, Header>
    var usedkb: nat
    ghost var free: set<nat>
    ghost var owner: map<nat, nat>
    ghost var live: map<nat, nat>

    /** The pages managed are parted into free pages and outstanding allocations; the lists are
        the maximal free blocks; the bitmap is set for the pages in use; usedkb is their size. */
    ghost predicate Valid()
      reads this, bitmap
    {
      && 0 < minPage <= maxPage < PAGES
      && ListsAre(lists, header, free)
      && MapIs(bitmap[..], minPage, maxPage, free)
      && Parted(free, owner.Keys, minPage, maxPage)
      && LiveOk(live, owner)
      && usedkb == 4 * |owner.Keys|
    }

    /** bmk_pgalloc_loadmem of the bytes from min to max: the first pages hold the bitmap, the
        others are carved into chunks. */
    constructor (min: nat, max: nat)
      requires min < max < 0x1_0000_0000_0000_0000
      requires RoundPage(min) + BitmapPages(RoundPage(min), TruncPage(max)) <= TruncPage(max)
      ensures Valid() && fresh(bitmap) && live == map[] && usedkb == 0
      ensures minPage == RoundPage(min) + BitmapPages(RoundPage(min), TruncPage(max)) && maxPage == TruncPage(max)
      ensures IsRange(free, minPage, maxPage)
    {
      var lo, hi := RoundPage(min), TruncPage(max);
      var pages := BitmapPages(lo, hi);
      minPage, maxPage := lo + pages, hi;
      bitmap := new nat[pages * 512](_ => Pow2(WORD) - 1);
      lists := seq(LEVELS, _ => []);
      header := map[];
      usedkb := 0;
      owner, live := map[], map[];
      free := {};
      new;
      BitmapReaches(lo, hi);
      ghost var all := Block(minPage, maxPage - minPage);
      LoadAll(all);
      free := all;
    }

    /** All managed pages are cleared in the bitmap and go on the lists, which were empty. */
    method LoadAll(ghost all: set<nat>)
      requires 0 < minPage <= maxPage < PAGES && IsBlock(all, minPage, maxPage - minPage) && free == {}
      requires (maxPage - minPage) / WORD < bitmap.Length
      requires forall i :: 0 <= i < bitmap.Length ==> bitmap[i] == Pow2(WORD) - 1
      requires ListsOk(lists) && forall x: nat, k: nat :: !Listed(lists, x, k)
      modifies this`lists, this`header, bitmap
      ensures ListsAre(lists, header, all) && MapIs(bitmap[..], minPage, maxPage, all)
    {
      OnesMap(bitmap[..], minPage, maxPage, free);
      Unmark(minPage, maxPage - minPage, all);
      assert free + all == all;
      Carverange(minPage, maxPage - minPage, all);
      CarveEnd(old(lists), old(header), lists, header, all, minPage, maxPage);
    }

    /** freechunk_link of a chunk that is not on its list yet: the chunks listed, each once, are
        those listed before and this one, which comes first and has a true header; no other
        header changes. */
    method FreechunkLink(x: nat, k: nat)
      requires ListsOk(lists) && k < LEVELS && !Listed(lists, x, k)
      modifies this`lists, this`header
      ensures Links(old(lists), old(header), lists, header, x, k) && lists[k] == [x] + old(lists)[k]
    {
      header := header[x := Header(k, true)];
      lists := lists[k := [x] + lists[k]];
    }

    method LinkCut(a: nat, i: nat, ghost lists0: seq<seq<nat>>, ghost header0: map<nat, Header>,
                   ghost span: set<nat>, ghost lo: nat, ghost hi: nat)
      requires Carved(lists0, header0, lists, header, span, lo, a) && NoneFrom(lists0, lo, hi)
      requires IsRange(span, lo, hi) && hi <= PAGES && Cut(lo, hi, a)
      requires var r := FloorLog(hi - a); i == if Ctz(a) > r then r else Ctz(a)
      modifies this`lists, this`header
      ensures Carved(lists0, header0, lists, header, span, lo, a + Pow2(i))
      ensures a + Pow2(i) <= hi && (a + Pow2(i) < hi ==> Cut(lo, hi, a + Pow2(i)))
    {
      CarveOne(lists0, header0, lists, header, span, lo, hi, a, i);
      FreechunkLink(a, i);
      CarveStep(lists0, header0, old(lists), old(header), lists, header, span, lo, hi, a, i);
    }

    /** carverange: n pages from lo become the maximal blocks of that range. */
    method Carverange(lo: nat, n: nat, ghost span: set<nat>)
      requires ListsOk(lists) && 0 < lo && lo + n <= PAGES && IsRange(span, lo, lo + n) && NoneFrom(lists, lo, lo + n)
      modifies this`lists, this`header
      ensures Carved(old(lists), old(header), lists, header, span, lo, lo + n)
    {
      var addr: nat, range: nat := lo, n;
      while range > 0
        invariant lo <= addr && addr + range == lo + n
        invariant range > 0 ==> Cut(lo, lo + n, addr)
        invariant Carved(old(lists), old(header), lists, header, span, lo, addr)
      {
        var i, r := Ctz(addr), FloorLog(range);
        if i > r { i := r; }
        LinkCut(addr, i, old(lists), old(header), span, lo, lo + n);
        addr := addr + Pow2(i);
        range := range - Pow2(i);
      }
    }

    /** satisfies_p: the first chunk of level i that is aligned to Pow2(al) pages. */
    method Satisfies(i: nat, al: nat) returns (r: Option<nat>)
      requires i < |lists|
      ensures r.Some? ==> r.value in lists[i] && Head(r.value, al)
      ensures r.None? ==> forall x :: x in lists[i] ==> !Head(x, al)
    {
      var j := 0;
      while j < |lists[i]|
        invariant j <= |lists[i]|
        invariant forall l :: 0 <= l < j ==> !Head(lists[i][l], al)
      {
        MaskLow(lists[i][j], al);
        if And(lists[i][j], Pow2(al) - 1) == 0 { return Some(lists[i][j]); }
        j := j + 1;
      }
      return None;
    }

    method ClearMagic(x: nat)
      modifies this`header
      ensures x in header && !header[x].magic && forall y: nat :: y != x ==> Untouched(old(header), header, y)
    {
      header := header[x := Header(if x in header then header[x].level else 0, false)];
    }

    /** The search of bmk_pgalloc_align: the lowest level with an aligned chunk. */
    method Search(order: nat, al: nat) returns (bucket: nat, r: Option<nat>)
      requires |lists| == LEVELS && order < LEVELS
      ensures r.Some? ==> order <= bucket < LEVELS && Listed(lists, r.value, bucket) && Head(r.value, al)
      ensures forall x: nat, k: nat :: order <= k && (r.Some? ==> k < bucket) && Listed(lists, x, k) ==> !Head(x, al)
    {
      bucket, r := order, None;
      while bucket < LEVELS
        invariant order <= bucket <= LEVELS && r.None?
        invariant forall x: nat, k: nat :: order <= k < bucket && Listed(lists, x, k) ==> !Head(x, al)
      {
        r := Satisfies(bucket, al);
        if r.Some? { break; }
        bucket := bucket + 1;
      }
    }

    /** Unlinks the chunk of level `bucket` that p heads, and puts back on the lists what is left
        of it after its first Pow2(order) pages. */
    method Carve(p: nat, order: nat, bucket: nat, ghost left: set<nat>, ghost rest: set<nat>)
      requires 0 < p && p + Pow2(bucket) <= PAGES && Listed(lists, p, bucket)
      requires ListsAre(lists, header, free) && Split(free, p, order, bucket, left, rest)
      modifies this`lists, this`header
      ensures ListsAre(lists, header, left)
    {
      UnlinkedLists(lists, header, free, p, bucket);
      Pow2Mono(order, bucket);
      lists := lists[bucket := Remove(lists[bucket], p)];
      assert header[p].magic;
      ClearMagic(p);
      ghost var lists1, header1 := lists, header;
      Carverange(p + Pow2(order), Pow2(bucket) - Pow2(order), rest);
      AllocatedLists(old(lists), old(header), free, p, order, bucket, left, rest, lists1, header1, lists, header);
    }

    method Mark(p: nat, n: nat, ghost block: set<nat>)
      requires MapIs(bitmap[..], minPage, maxPage, free) && minPage <= p && p + n <= maxPage && IsBlock(block, p, n)
      modifies bitmap
      ensures MapIs(bitmap[..], minPage, maxPage, free - block)
    {
      ghost var words := bitmap[..];
      MapAlloc(bitmap, p - minPage, n);
      MapTakes(words, bitmap[..], minPage, maxPage, free, p, n, free - block);
    }

    method Unmark(p: nat, n: nat, ghost block: set<nat>)
      requires MapIs(bitmap[..], minPage, maxPage, free) && minPage <= p && p + n <= maxPage && IsBlock(block, p, n)
      modifies bitmap
      ensures MapIs(bitmap[..], minPage, maxPage, free + block)
    {
      ghost var words := bitmap[..];
      MapFree(bitmap, p - minPage, n);
      MapGives(words, bitmap[..], minPage, maxPage, free, p, n, free + block);
    }

    ghost method Record(p: nat, order: nat, block: set<nat>)
      requires Parted(free, owner.Keys, minPage, maxPage) && LiveOk(live, owner)
      requires Head(p, order) && IsBlock(block, p, Pow2(order)) && block <= free
      modifies this`free, this`owner, this`live
      ensures Parted(free, owner.Keys, minPage, maxPage) && LiveOk(live, owner)
      ensures free == old(free) - block && live == old(live)[p := order] && p !in old(live)
      ensures |owner.Keys| == old(|owner.Keys|) + Pow2(order)
    {
      PartsTake(free, owner, live, minPage, maxPage, p, order, block);
      free, owner, live := free - block, Take(owner, p, block), live[p := order];
    }

    /** The rest of bmk_pgalloc_align, once a chunk is found. */
    method Allocate(p: nat, order: nat, bucket: nat) returns (ghost block: set<nat>)
      requires Valid() && Listed(lists, p, bucket) && order <= bucket
      modifies this, bitmap
      ensures Valid()
      ensures live == old(live)[p := order] && p !in old(live) && usedkb == old(usedkb) + 4 * Pow2(order)
      ensures IsBlock(block, p, Pow2(order)) && block <= old(free) && free == old(free) - block
    {
      ghost var rest;
      block, rest := PlanAlloc(free, owner.Keys, minPage, maxPage, p, order, bucket);
      TakeOut(p, order, bucket, block, rest);
      usedkb := usedkb + Kb(order);
      Record(p, order, block);
    }

    /** A block leaves lists and bitmap. */
    method TakeOut(p: nat, order: nat, bucket: nat, ghost block: set<nat>, ghost rest: set<nat>)
      requires 0 < minPage <= p && p + Pow2(order) <= p + Pow2(bucket) <= maxPage < PAGES && Listed(lists, p, bucket)
      requires ListsAre(lists, header, free) && Split(free, p, order, bucket, free - block, rest)
      requires MapIs(bitmap[..], minPage, maxPage, free) && IsBlock(block, p, Pow2(order))
      modifies this`lists, this`header, bitmap
      ensures ListsAre(lists, header, free - block) && MapIs(bitmap[..], minPage, maxPage, free - block)
    {
      Carve(p, order, bucket, free - block, rest);
      Mark(p, Pow2(order), block);
    }

    /** bmk_pgalloc_align with alignment 1 << (12 + al).  It fails exactly if no aligned block of
        that size is free. */
    method PgallocAlign(order: nat, al: nat) returns (r: Option<nat>, ghost block: set<nat>)
      requires Valid() && order < LEVELS
      modifies this, bitmap
      ensures Valid()
      ensures r.None? ==> NoneFree(old(free), order, al)
      ensures r.None? ==> free == old(free) && live == old(live) && lists == old(lists) && usedkb == old(usedkb)
      ensures r.Some? ==> Head(r.value, order) && Head(r.value, al) && Whole(old(free), Shr(r.value, order), order)
      ensures r.Some? ==> live == old(live)[r.value := order] && r.value !in old(live)
      ensures r.Some? ==> usedkb == old(usedkb) + 4 * Pow2(order)
      ensures r.Some? ==> IsBlock(block, r.value, Pow2(order)) && block <= old(free) && free == old(free) - block
    {
      var bucket, found := Search(order, al);
      if found.None? {
        NoneAligned(lists, header, free, order, al);
        return None, {};
      }
      HeadLower(found.value, order, bucket);
      WholeBelow(free, found.value, order, bucket);
      block := Allocate(found.value, order, bucket);
      return found, block;
    }

    predicate AddrIsManaged(p: int) { minPage <= p < maxPage }

    predicate AllocatedInMap(p: nat)
      requires AddrIsManaged(p) && (p - minPage) / WORD < bitmap.Length
      reads bitmap
    {
      InMap(bitmap[..], p - minPage)
    }

    /** chunklevel: for a listed chunk its assertion on the magic number holds, and what it reads
        is the level of the one list the chunk is on. */
    method ChunkLevel(x: nat) returns (level: nat)
      requires HeadersTrue(lists, header) && exists k: nat :: Listed(lists, x, k)
      ensures forall k: nat :: Listed(lists, x, k) <==> k == level
    {
      assert header[x].magic;
      return header[x].level;
    }

    /** Whether the buddy at h can be merged: exactly if it was a maximal free block of level j.
        Its header is only read when it has one. */
    method Mergeable(h: nat, ghost after: set<nat>, ghost x0: nat, ghost k0: nat, ghost y: nat, j: nat)
      returns (ok: bool)
      requires MapIs(bitmap[..], minPage, maxPage, after) && (forall q :: q in after ==> minPage <= q < maxPage)
      requires Merging(free, after, x0, k0, y, j) && Buddies(y, h, j) && MergeLists(lists, header, free, y, j)
      ensures ok <==> Heads(free, h, j)
    {
      if !AddrIsManaged(h) { return false; }
      if AllocatedInMap(h) { return false; }
      GivenInside(free, after, x0, k0, y, j, h);
      ghost var l := BuddyHeads(free, after, x0, k0, y, j, h);
      assert Listed(lists, h, l);
      var level := ChunkLevel(h);
      ok := level == j;
      if Heads(free, h, j) { ChunksDisjoint(free, h, l, j); }
    }

    /** Takes the buddy at h off its list; neither it nor y heads a chunk any more. */
    method Absorb(y: nat, h: nat, j: nat)
      requires j < |lists|
      modifies this`lists, this`header
      ensures lists == old(lists)[j := Remove(old(lists)[j], h)]
      ensures forall x: nat :: x != y && x != h ==> Untouched(old(header), header, x)
    {
      ClearMagic(y);
      ghost var header1 := header;
      ClearMagic(h);
      forall x: nat | x != y && x != h ensures Untouched(old(header), header, x) {
        assert Untouched(old(header), header1, x) && Untouched(header1, header, x);
      }
      lists := lists[j := Remove(lists[j], h)];
    }

    /** The free set as bmk_pgfree sees it: the bitmap already has the block given back. */
    ghost predicate Freeing(after: set<nat>)
      reads this, bitmap
    {
      && MapIs(bitmap[..], minPage, maxPage, after) && 0 < minPage && maxPage < PAGES
      && (forall q :: q in after ==> minPage <= q < maxPage)
    }

    /** One round of the coalescing loop of bmk_pgfree. */
    method MergeOnce(y: nat, j: nat, ghost after: set<nat>, ghost x0: nat, ghost k0: nat) returns (ok: bool, z: nat)
      requires Freeing(after) && j < LEVELS && Merging(free, after, x0, k0, y, j) &&
               MergeLists(lists, header, free, y, j)
      modifies this`lists, this`header
      ensures if ok then Merging(free, after, x0, k0, z, j + 1) && MergeLists(lists, header, free, z, j + 1)
              else lists == old(lists) && header == old(header) && !Whole(after, Shr(y, j) / 2, j + 1)
    {
      var h: nat;
      if Bit(y, j) {
        BuddyBelow(y, j);
        h := y - Pow2(j);
        z := h;
      } else {
        BuddyAbove(y, j);
        h := y + Pow2(j);
        z := y;
      }
      BuddyWhole(free, after, x0, k0, y, j, h);
      ok := Mergeable(h, after, x0, k0, y, j);
      if ok {
        MergeStep(free, after, x0, k0, y, j, h, z);
        Absorb(y, h, j);
        MergeListsStep(old(lists), old(header), header, free, y, j, h, z);
      }
    }

    /** The coalescing loop of bmk_pgfree: from the block of level k0 at x0 to the maximal free
        block that holds it. */
    method Coalesce(x0: nat, k0: nat, ghost after: set<nat>) returns (y: nat, j: nat)
      requires Freeing(after) && ListsAre(lists, header, free) && Merging(free, after, x0, k0, x0, k0)
      modifies this`lists, this`header
      ensures Merging(free, after, x0, k0, y, j) && MergeLists(lists, header, free, y, j)
      ensures j < LEVELS && !Whole(after, Shr(y, j) / 2, j + 1)
    {
      MergeListsStart(lists, header, free, after, x0, k0);
      y, j := x0, k0;
      InLevels(after, y, j);
      while j < LEVELS
        invariant j < LEVELS && Freeing(after)
        invariant Merging(free, after, x0, k0, y, j) && MergeLists(lists, header, free, y, j)
        decreases LEVELS - j
      {
        var ok, z := MergeOnce(y, j, after, x0, k0);
        if !ok { break; }
        InLevels(after, z, j + 1);
        y, j := z, j + 1;
      }
    }

    method LinkGrown(x: nat, order: nat, ghost after: set<nat>)
      requires Freeing(after) && ListsAre(lists, header, free) && Merging(free, after, x, order, x, order)
      modifies this`lists, this`header
      ensures ListsAre(lists, header, after)
    {
      var y, j := Coalesce(x, order, after);
      ghost var lists1, header1 := lists, header;
      FreechunkLink(y, j);
      MergeListsEnd(lists1, header1, lists, header, free, after, x, order, y, j);
    }

    /** Puts the block, grown as far as it will, on the lists. */
    method GiveBack(x: nat, order: nat, ghost block: set<nat>)
      requires ListsAre(lists, header, free) && MapIs(bitmap[..], minPage, maxPage, free + block)
      requires 0 < minPage && maxPage < PAGES && Parted(free, owner.Keys, minPage, maxPage)
      requires LiveOk(live, owner) && x in live && live[x] == order && IsBlock(block, x, Pow2(order))
      modifies this`lists, this`header
      ensures ListsAre(lists, header, free + block)
    {
      MergingStart(free, owner, live, minPage, maxPage, x, block);
      LinkGrown(x, order, free + block);
    }

    ghost method Forget(x: nat, block: set<nat>)
      requires Parted(free, owner.Keys, minPage, maxPage) && LiveOk(live, owner) && x in live
      requires IsBlock(block, x, Pow2(live[x]))
      modifies this`free, this`owner, this`live
      ensures Parted(free, owner.Keys, minPage, maxPage) && LiveOk(live, owner)
      ensures free == old(free) + block && live == old(live) - {x}
      ensures |owner.Keys| == old(|owner.Keys|) - Pow2(old(live)[x])
    {
      PartsGive(free, owner, live, minPage, maxPage, x, block);
      free, owner, live := free + block, owner - block, live - {x};
    }

    /** bmk_pgfree of an outstanding allocation. */
    method Pgfree(x: nat, order: nat) returns (ghost block: set<nat>)
      requires Valid() && x in live && live[x] == order
      modifies this, bitmap
      ensures Valid()
      ensures live == old(live) - {x} && usedkb == old(usedkb) - 4 * Pow2(order)
      ensures IsBlock(block, x, Pow2(order)) && block !! old(free) && free == old(free) + block
    {
      block := Block(x, Pow2(order));
      LiveBlock(free, owner, live, minPage, maxPage, x, block);
      Unmark(x, Pow2(order), block);
      usedkb := usedkb - Kb(order);
      GiveBack(x, order, block);
      Forget(x, block);
    }

    /** Whatever a user writes to pages it has allocated, the allocator's state stays valid. */
    method UserWrites(p: nat, h: Header)
      requires Valid() && p in owner
      modifies this`header
      ensures Valid()
    {
      header := header[p := h];
      forall x: nat, k: nat | Listed(lists, x, k) ensures x != p { assert Heads(free, x, k) && x in free; }
    }
  }
}
