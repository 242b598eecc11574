/** The allocation bitmap of lib/libbmk_core/pgalloc.c: one bit per page in 64-bit words, updated
    a word at a time. */
module Bitmap {
  import opened Bits

  const WORD: nat := 64

  /** Bit of page p. */
  predicate InMap(w: seq<nat>, p: nat)
    requires p / WORD < |w|
  {
    Bit(w[p / WORD], p % WORD)
  }

  /** (1UL << n) - 1 and -(1UL << n), in 64 bits. */
  function Below(n: nat): nat { Pow2(n) - 1 }

  function From(n: nat): nat
    requires n < WORD
  {
    Pow2Mono(n, WORD);
    Pow2(WORD) - Pow2(n)
  }

  lemma FromBit(n: nat, i: nat)
    requires n < WORD && i < WORD
    ensures Bit(From(n), i) <==> n <= i
  {
    Pow2Mono(n, WORD);
    ComplementBit(Pow2(n) - 1, WORD, i);
    OnesBit(n, i);
  }

  /** The four word updates, bit by bit. */
  lemma SetMiddle(w: nat, start: nat, end: nat, i: nat)
    requires start < WORD && end < WORD && i < WORD
    ensures Bit(Or(w, And(Below(end), From(start))), i) <==> Bit(w, i) || start <= i < end
  {
    OrBit(w, And(Below(end), From(start)), i);
    AndBit(Below(end), From(start), i);
    OnesBit(end, i);
    FromBit(start, i);
  }

  lemma ClearMiddle(w: nat, start: nat, end: nat, i: nat)
    requires start < WORD && end < WORD && i < WORD
    ensures Bit(And(w, Or(From(end), Below(start))), i) <==> Bit(w, i) && !(start <= i < end)
  {
    AndBit(w, Or(From(end), Below(start)), i);
    OrBit(From(end), Below(start), i);
    FromBit(end, i);
    OnesBit(start, i);
  }

  lemma SetEnds(w: nat, n: nat, i: nat)
    requires n < WORD && i < WORD
    ensures Bit(Or(w, From(n)), i) <==> Bit(w, i) || n <= i
    ensures Bit(Or(w, Below(n)), i) <==> Bit(w, i) || i < n
  {
    OrBit(w, From(n), i);
    OrBit(w, Below(n), i);
    FromBit(n, i);
    OnesBit(n, i);
  }

  lemma ClearEnds(w: nat, n: nat, i: nat)
    requires n < WORD && i < WORD
    ensures Bit(And(w, Below(n)), i) <==> Bit(w, i) && i < n
    ensures Bit(And(w, From(n)), i) <==> Bit(w, i) && n <= i
  {
    AndBit(w, Below(n), i);
    AndBit(w, From(n), i);
    FromBit(n, i);
    OnesBit(n, i);
  }

  /** A word fits 64 bits. */
  predicate Fits(w: nat) { w < Pow2(WORD) }

  lemma StillFits(w: nat, v: nat)
    requires Fits(w) && Fits(v)
    ensures Fits(Or(w, v)) && Fits(And(w, v))
  {
    OrBelow(w, v, WORD);
    AndBelow(w, v);
  }

  lemma MasksFit(start: nat, end: nat)
    requires start < WORD && end < WORD
    ensures Fits(Below(start)) && Fits(Below(end)) && Fits(From(start)) && Fits(From(end))
    ensures Fits(And(Below(end), From(start))) && Fits(Or(From(end), Below(start)))
  {
    Pow2Mono(start, WORD);
    Pow2Mono(end, WORD);
    StillFits(Below(end), From(start));
    StillFits(From(end), Below(start));
  }

  /** Word i has the bits of pages first to first + n set, the others as in w. */
  ghost predicate WordSet(w: nat, v: nat, i: nat, first: nat, n: nat) {
    forall j: nat :: j < WORD ==> (Bit(v, j) <==> Bit(w, j) || first <= WORD * i + j < first + n)
  }

  ghost predicate WordClear(w: nat, v: nat, i: nat, first: nat, n: nat) {
    forall j: nat :: j < WORD ==> (Bit(v, j) <==> Bit(w, j) && !(first <= WORD * i + j < first + n))
  }

  lemma SetOneWord(w: nat, first: nat, n: nat)
    requires first / WORD == (first + n) / WORD
    ensures var start, end := first % WORD, (first + n) % WORD;
            WordSet(w, Or(w, And(Below(end), From(start))), first / WORD, first, n)
  {
    var i, start, end := first / WORD, first % WORD, (first + n) % WORD;
    forall j: nat | j < WORD
      ensures Bit(Or(w, And(Below(end), From(start))), j) <==> Bit(w, j) || first <= WORD * i + j < first + n
    {
      SetMiddle(w, start, end, j);
    }
  }

  lemma SetFirstWord(w: nat, first: nat, n: nat)
    requires first / WORD < (first + n) / WORD
    ensures WordSet(w, Or(w, From(first % WORD)), first / WORD, first, n)
  {
    var i := first / WORD;
    forall j: nat | j < WORD
      ensures Bit(Or(w, From(first % WORD)), j) <==> Bit(w, j) || first <= WORD * i + j < first + n
    {
      SetEnds(w, first % WORD, j);
    }
  }

  lemma SetFullWord(w: nat, i: nat, first: nat, n: nat)
    requires first / WORD < i < (first + n) / WORD
    ensures WordSet(w, Pow2(WORD) - 1, i, first, n)
  {
    forall j: nat | j < WORD ensures Bit(Pow2(WORD) - 1, j) <==> Bit(w, j) || first <= WORD * i + j < first + n {
      OnesBit(WORD, j);
    }
  }

  lemma SetLastWord(w: nat, first: nat, n: nat)
    requires first / WORD < (first + n) / WORD
    ensures WordSet(w, Or(w, Below((first + n) % WORD)), (first + n) / WORD, first, n)
  {
    var i := (first + n) / WORD;
    forall j: nat | j < WORD
      ensures Bit(Or(w, Below((first + n) % WORD)), j) <==> Bit(w, j) || first <= WORD * i + j < first + n
    {
      SetEnds(w, (first + n) % WORD, j);
    }
  }

  lemma SetNoWord(w: nat, i: nat, first: nat, n: nat)
    requires i < first / WORD || (first + n) / WORD < i
    ensures WordSet(w, w, i, first, n)
  {
  }

  /** Only the words from lo to hi - 1 change, and words stay words. */
  twostate predicate Only(a: array<nat>, lo: nat, hi: nat)
    reads a
  {
    && (forall i :: 0 <= i < a.Length ==> Fits(a[i]))
    && (forall i :: 0 <= i < a.Length && (i < lo || hi <= i) ==> a[i] == old(a[i]))
  }

  /** The middle loop of map_alloc. */
  method FillWords(a: array<nat>, lo: nat, hi: nat)
    requires lo <= hi <= a.Length && forall i :: 0 <= i < a.Length ==> Fits(a[i])
    modifies a
    ensures Only(a, lo, hi) && forall i :: lo <= i < hi ==> a[i] == Pow2(WORD) - 1
  {
    var cur := lo;
    while cur < hi
      invariant lo <= cur <= hi && Only(a, lo, cur)
      invariant forall i :: lo <= i < cur ==> a[i] == Pow2(WORD) - 1
    {
      a[cur] := Pow2(WORD) - 1;
      cur := cur + 1;
    }
  }

  method MapAlloc(a: array<nat>, first: nat, n: nat)
    requires (first + n) / WORD < a.Length && forall i :: 0 <= i < a.Length ==> Fits(a[i])
    modifies a
    ensures forall i :: 0 <= i < a.Length ==> Fits(a[i])
    ensures forall i :: 0 <= i < a.Length ==> WordSet(old(a[i]), a[i], i, first, n)
  {
    var cur, start, endIdx, end := first / WORD, first % WORD, (first + n) / WORD, (first + n) % WORD;
    MasksFit(start, end);
    if cur == endIdx {
      SetOneWord(a[cur], first, n);
      StillFits(a[cur], And(Below(end), From(start)));
      a[cur] := Or(a[cur], And(Below(end), From(start)));
    } else {
      SetFirstWord(a[cur], first, n);
      StillFits(a[cur], From(start));
      a[cur] := Or(a[cur], From(start));
      FillWords(a, cur + 1, endIdx);
      SetLastWord(a[endIdx], first, n);
      StillFits(a[endIdx], Below(end));
      a[endIdx] := Or(a[endIdx], Below(end));
    }
    forall i | 0 <= i < a.Length ensures WordSet(old(a[i]), a[i], i, first, n) {
      if first / WORD < i < endIdx { SetFullWord(old(a[i]), i, first, n); }
      else if i < first / WORD || endIdx < i { SetNoWord(a[i], i, first, n); }
    }
  }

  lemma ClearOneWord(w: nat, first: nat, n: nat)
    requires first / WORD == (first + n) / WORD
    ensures var start, end := first % WORD, (first + n) % WORD;
            WordClear(w, And(w, Or(From(end), Below(start))), first / WORD, first, n)
  {
    var i, start, end := first / WORD, first % WORD, (first + n) % WORD;
    forall j: nat | j < WORD
      ensures Bit(And(w, Or(From(end), Below(start))), j) <==> Bit(w, j) && !(first <= WORD * i + j < first + n)
    {
      ClearMiddle(w, start, end, j);
    }
  }

  lemma ClearFirstWord(w: nat, first: nat, n: nat)
    requires first / WORD < (first + n) / WORD
    ensures WordClear(w, And(w, Below(first % WORD)), first / WORD, first, n)
  {
    var i := first / WORD;
    forall j: nat | j < WORD
      ensures Bit(And(w, Below(first % WORD)), j) <==> Bit(w, j) && !(first <= WORD * i + j < first + n)
    {
      ClearEnds(w, first % WORD, j);
    }
  }

  lemma ClearFullWord(w: nat, i: nat, first: nat, n: nat)
    requires first / WORD < i < (first + n) / WORD
    ensures WordClear(w, 0, i, first, n)
  {
    forall j: nat | j < WORD ensures Bit(0, j) <==> Bit(w, j) && !(first <= WORD * i + j < first + n) { ZeroBit(j); }
  }

  lemma ClearLastWord(w: nat, first: nat, n: nat)
    requires first / WORD < (first + n) / WORD
    ensures WordClear(w, And(w, From((first + n) % WORD)), (first + n) / WORD, first, n)
  {
    var i := (first + n) / WORD;
    forall j: nat | j < WORD
      ensures Bit(And(w, From((first + n) % WORD)), j) <==> Bit(w, j) && !(first <= WORD * i + j < first + n)
    {
      ClearEnds(w, (first + n) % WORD, j);
    }
  }

  lemma ClearNoWord(w: nat, i: nat, first: nat, n: nat)
    requires i < first / WORD || (first + n) / WORD < i
    ensures WordClear(w, w, i, first, n)
  {
  }

  /** The middle loop of map_free. */
  method ZeroWords(a: array<nat>, lo: nat, hi: nat)
    requires lo <= hi <= a.Length && forall i :: 0 <= i < a.Length ==> Fits(a[i])
    modifies a
    ensures Only(a, lo, hi) && forall i :: lo <= i < hi ==> a[i] == 0
  {
    var cur := lo;
    while cur != hi
      invariant lo <= cur <= hi && Only(a, lo, cur)
      invariant forall i :: lo <= i < cur ==> a[i] == 0
    {
      a[cur] := 0;
      cur := cur + 1;
    }
  }

  method MapFree(a: array<nat>, first: nat, n: nat)
    requires (first + n) / WORD < a.Length && forall i :: 0 <= i < a.Length ==> Fits(a[i])
    modifies a
    ensures forall i :: 0 <= i < a.Length ==> Fits(a[i])
    ensures forall i :: 0 <= i < a.Length ==> WordClear(old(a[i]), a[i], i, first, n)
  {
    var cur, start, endIdx, end := first / WORD, first % WORD, (first + n) / WORD, (first + n) % WORD;
    MasksFit(start, end);
    if cur == endIdx {
      ClearOneWord(a[cur], first, n);
      StillFits(a[cur], Or(From(end), Below(start)));
      a[cur] := And(a[cur], Or(From(end), Below(start)));
    } else {
      ClearFirstWord(a[cur], first, n);
      StillFits(a[cur], Below(start));
      a[cur] := And(a[cur], Below(start));
      ZeroWords(a, cur + 1, endIdx);
      ClearLastWord(a[endIdx], first, n);
      StillFits(a[endIdx], From(end));
      a[endIdx] := And(a[endIdx], From(end));
    }
    forall i | 0 <= i < a.Length ensures WordClear(old(a[i]), a[i], i, first, n) {
      if first / WORD < i < endIdx { ClearFullWord(old(a[i]), i, first, n); }
      else if i < first / WORD || endIdx < i { ClearNoWord(a[i], i, first, n); }
    }
  }

  /** The word-wise updates are the page-wise ones: the pages named, and no others. */
  lemma SetByPage(w: seq<nat>, v: seq<nat>, first: nat, n: nat, p: nat)
    requires |v| == |w| && p / WORD < |w|
    requires forall i :: 0 <= i < |w| ==> WordSet(w[i], v[i], i, first, n)
    ensures InMap(v, p) <==> InMap(w, p) || first <= p < first + n
  {
    assert WordSet(w[p / WORD], v[p / WORD], p / WORD, first, n);
    assert WORD * (p / WORD) + p % WORD == p;
  }

  lemma ClearByPage(w: seq<nat>, v: seq<nat>, first: nat, n: nat, p: nat)
    requires |v| == |w| && p / WORD < |w|
    requires forall i :: 0 <= i < |w| ==> WordClear(w[i], v[i], i, first, n)
    ensures InMap(v, p) <==> InMap(w, p) && !(first <= p < first + n)
  {
    assert WordClear(w[p / WORD], v[p / WORD], p / WORD, first, n);
    assert WORD * (p / WORD) + p % WORD == p;
  }
}
