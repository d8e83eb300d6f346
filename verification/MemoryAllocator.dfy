/**
 `MemoryAllocator`: a first-fit, address-ordered free list kept inside the heap itself.

 The heap is an array of 32-bit words standing at byte address `base`.  Pointers and
 sizes are byte quantities as in the source, 0 is the null pointer, and the two words
 in front of a block are its `m_size` and `m_next`.  The ghost field `chunks` is the
 layout of HeapLayout.dfy; every method is proved to do to it what that file says.
 */
module MemoryAllocator {
  import opened Wrappers
  import opened HeapLayout

  const WORD_LIMIT: int := 0x1_0000_0000

  type Word = x: int | 0 <= x < WORD_LIMIT

  // sizeof(Node) in bytes
  const NODE_SIZE: Word := 8

  function RoundToWord(size: nat): (r: nat)
    ensures r % 4 == 0 && size <= r < size + 4
  {
    if size % 4 != 0 then size + 4 - size % 4 else size
  }

  // Payload words of a request of `size` bytes
  function WordsFor(size: nat): (n: nat)
    ensures 4 * n == RoundToWord(size)
  {
    RoundToWord(size) / 4
  }

  /**
   The test of Allocate, `m_size >= size + sizeof(Node)`, is computed modulo 2^32.  It says
   what it means, that the request and a header fit, exactly when the sum does not wrap or
   the chunk is shorter than what is left of the sum.
   */
  lemma GuardIsExact(len: nat, size: Word)
    requires 4 * len < WORD_LIMIT
    ensures (4 * len >= (size + NODE_SIZE) % WORD_LIMIT <==> WordsFor(size) + HEADER <= len)
            <==> size + NODE_SIZE < WORD_LIMIT || 4 * len < size + NODE_SIZE - WORD_LIMIT
  {
    assert 4 * WordsFor(size) == RoundToWord(size);
    if size + NODE_SIZE >= WORD_LIMIT {
      assert (size + NODE_SIZE) % WORD_LIMIT == size + NODE_SIZE - WORD_LIMIT;
    }
  }

  // ------------------------------------------------- the free list in memory

  // Chunk y is the free chunk after the free chunk x.
  ghost predicate NextLink(cs: seq<Chunk>, x: int, y: int) {
    && 0 <= x < y < |cs|
    && cs[x].free && cs[y].free
    && forall k | x < k < y :: !cs[k].free
  }

  ghost predicate FirstFree(cs: seq<Chunk>, y: int) {
    && 0 <= y < |cs|
    && cs[y].free
    && forall k | 0 <= k < y :: !cs[k].free
  }

  ghost predicate InBand(m: seq<Word>, base: nat, freelist: nat, cs: seq<Chunk>) {
    && WellFormed(cs, |m|)
    && (forall i | 0 <= i < |cs| :: cs[i].End() <= |m|)
    && (forall i | 0 <= i < |cs| :: m[cs[i].at] == 4 * cs[i].len)
    && (forall x, y {:trigger NextLink(cs, x, y)} | NextLink(cs, x, y) :: m[cs[x].at + 1] == base + 4 * cs[y].at)
    && m[cs[|cs| - 1].at + 1] == 0
    && (forall y {:trigger FirstFree(cs, y)} | FirstFree(cs, y) :: freelist == base + 4 * cs[y].at)
  }

  // m' agrees with m except on the header words of the chunks at the given offsets.
  ghost predicate SameBut(m: seq<Word>, m': seq<Word>, headers: set<nat>) {
    && |m'| == |m|
    && forall o {:trigger m'[o]} | 0 <= o < |m| :: m'[o] == m[o] || o in headers || (o > 0 && o - 1 in headers)
  }

  ghost predicate SamePayload(m: seq<Word>, m': seq<Word>, c: Chunk)
    requires c.End() <= |m| && |m'| == |m|
  {
    forall o | c.at + HEADER <= o < c.End() :: m'[o] == m[o]
  }

  // The first `len` payload words of the chunk at `at`
  function Payload(m: seq<Word>, at: nat, len: nat): seq<Word> {
    if at + HEADER + len <= |m| then m[at + HEADER..at + HEADER + len] else []
  }

  /** The contents of a block are the words behind its header of two words. */
  lemma PayloadIs(m: seq<Word>, m': seq<Word>, c: Chunk)
    requires c.at + 2 + c.len <= |m| == |m'|
    ensures |Payload(m, c.at, c.len)| == c.len && forall o | 0 <= o < c.len :: Payload(m, c.at, c.len)[o] == m[c.at + 2 + o]
    ensures SamePayload(m, m', c) <==> forall o | c.at + 2 <= o < c.at + 2 + c.len :: m'[o] == m[o]
  {
  }

  // p is the index of the free chunk in front of i, or -1
  ghost predicate Before(cs: seq<Chunk>, p: int, i: int) {
    if p < 0 then FirstFree(cs, i) else NextLink(cs, p, i)
  }

  lemma SplitLinks(cs: seq<Chunk>, i: nat, n: nat, x: int, y: int)
    requires i < |cs| && Fits(cs[i], n)
    requires NextLink(SplitAt(cs, i, n), x, y)
    ensures x != i && y != i
    ensures NextLink(cs, if x < i then x else x - 1, if y < i then y else y - 1)
  {
    var out := SplitAt(cs, i, n);
    var x0, y0 := if x < i then x else x - 1, if y < i then y else y - 1;
    assert out[i + 1].free && !out[i].free;
    forall k | x0 < k < y0
      ensures !cs[k].free
    {
      assert x < (if k < i then k else k + 1) < y;
      assert k != i ==> out[if k < i then k else k + 1] == cs[k];
    }
  }

  lemma InBandTiles(m: seq<Word>, base: nat, freelist: nat, cs: seq<Chunk>)
    requires InBand(m, base, freelist, cs)
    ensures WellFormed(cs, |m|) && Tiles(cs, |m|)
  {
  }

  // What Allocate writes: the header of the rest, the header of the block and one link
  ghost predicate AllocWrites(m: seq<Word>, m': seq<Word>, base: nat, cs: seq<Chunk>, i: nat, p: int, n: nat) {
    && Tiles(cs, |m|)
    && i < |cs| && Fits(cs[i], n) && p < i && Before(cs, p, i)
    && cs[i].End() <= |m|
    && SameBut(m, m', {cs[i].at, cs[i].at + HEADER + n} + if p < 0 then {} else {cs[p].at})
    && m'[cs[i].at] == 4 * n
    && m'[cs[i].at + HEADER + n] == 4 * (cs[i].len - n - HEADER)
    && m'[cs[i].at + HEADER + n + 1] == m[cs[i].at + 1]
    && (p >= 0 ==>
      && cs[p].End() <= |m|
      && m'[cs[p].at] == m[cs[p].at]
      && m'[cs[p].at + 1] == base + 4 * (cs[i].at + HEADER + n))
  }

  // The stores of Allocate in program order
  ghost function AllocMemory(m: seq<Word>, entry: int, previous: int, rest: int, size: Word, left: Word, next: Word): seq<Word>
    requires 0 <= entry && entry + 1 < |m|
    requires 0 <= rest && rest + 1 < |m|
    requires -1 <= previous && previous + 1 < |m|
  {
    var m1 := m[rest + 1 := m[entry + 1]][rest := left];
    var m2 := if previous < 0 then m1 else m1[previous + 1 := next];
    m2[entry + 1 := 0][entry := size]
  }

  // A chunk away from the split keeps its header, save for the link of p.
  lemma AllocFrame(m: seq<Word>, m': seq<Word>, base: nat, cs: seq<Chunk>, i: nat, p: int, n: nat, k: nat)
    requires AllocWrites(m, m', base, cs, i, p, n)
    requires k < |cs| && k != i
    ensures cs[k].End() <= |m|
    ensures m'[cs[k].at] == m[cs[k].at]
    ensures k != p ==> m'[cs[k].at + 1] == m[cs[k].at + 1]
    ensures SamePayload(m, m', cs[k])
  {
    Apart(cs, |m|, i, k);
    if 0 <= p && p != k {
      Apart(cs, |m|, p, k);
    }
  }

  lemma Apart(cs: seq<Chunk>, total: nat, i: nat, j: nat)
    requires Tiles(cs, total)
    requires i < |cs| && j < |cs| && i != j
    ensures cs[i].End() <= cs[j].at || cs[j].End() <= cs[i].at
    ensures cs[i].End() <= total && cs[j].End() <= total
  {
    TilesOrdered(cs, total);
  }

  lemma AllocHeaders(m: seq<Word>, m': seq<Word>, base: nat, freelist: nat, cs: seq<Chunk>, i: nat, p: int, n: nat, k: nat)
    requires InBand(m, base, freelist, cs)
    requires AllocWrites(m, m', base, cs, i, p, n)
    requires k < |SplitAt(cs, i, n)|
    ensures SplitAt(cs, i, n)[k].End() <= |m|
    ensures m'[SplitAt(cs, i, n)[k].at] == 4 * SplitAt(cs, i, n)[k].len
  {
    if k < i {
      AllocFrame(m, m', base, cs, i, p, n, k);
    } else if k > i + 1 {
      AllocFrame(m, m', base, cs, i, p, n, k - 1);
    }
  }

  // Where chunk k of the old layout begins in the new one, if it is free
  function Moved(cs: seq<Chunk>, i: nat, n: nat, k: nat): nat
    requires k < |cs|
  {
    if k == i then cs[i].at + HEADER + n else cs[k].at
  }

  lemma SplitMoved(cs: seq<Chunk>, i: nat, n: nat, x: nat)
    requires i < |cs| && Fits(cs[i], n)
    requires x < |SplitAt(cs, i, n)| && x != i
    ensures SplitAt(cs, i, n)[x].at == Moved(cs, i, n, if x < i then x else x - 1)
  {
  }

  lemma AllocLink(m: seq<Word>, m': seq<Word>, base: nat, freelist: nat, cs: seq<Chunk>, i: nat, p: int, n: nat, x: int, y: int)
    requires InBand(m, base, freelist, cs)
    requires AllocWrites(m, m', base, cs, i, p, n)
    requires NextLink(cs, x, y)
    ensures Moved(cs, i, n, x) + 1 < |m|
    ensures m'[Moved(cs, i, n, x) + 1] == base + 4 * Moved(cs, i, n, y)
  {
    assert m[cs[x].at + 1] == base + 4 * cs[y].at;
    if x == p {
      NextUnique(cs, p, i, y);
    } else if x != i {
      AllocFrame(m, m', base, cs, i, p, n, x);
      PreviousUnique(cs, p, i, x, y);
    }
  }

  lemma NextUnique(cs: seq<Chunk>, x: int, y: int, z: int)
    requires NextLink(cs, x, y) && NextLink(cs, x, z)
    ensures y == z
  {
  }

  lemma PreviousUnique(cs: seq<Chunk>, p: int, i: int, x: int, y: int)
    requires Before(cs, p, i) && NextLink(cs, x, y)
    ensures y == i ==> x == p
  {
  }

  lemma AllocLinks(m: seq<Word>, m': seq<Word>, base: nat, freelist: nat, cs: seq<Chunk>, i: nat, p: int, n: nat)
    requires InBand(m, base, freelist, cs)
    requires AllocWrites(m, m', base, cs, i, p, n)
    ensures var out := SplitAt(cs, i, n);
            forall x, y {:trigger NextLink(out, x, y)} | NextLink(out, x, y) :: out[x].at + 1 < |m| && m'[out[x].at + 1] == base + 4 * out[y].at
  {
    var out := SplitAt(cs, i, n);
    forall x, y | NextLink(out, x, y)
      ensures out[x].at + 1 < |m| && m'[out[x].at + 1] == base + 4 * out[y].at
    {
      SplitLinks(cs, i, n, x, y);
      SplitMoved(cs, i, n, x);
      SplitMoved(cs, i, n, y);
      AllocLink(m, m', base, freelist, cs, i, p, n, if x < i then x else x - 1, if y < i then y else y - 1);
    }
  }

  // The list still ends at the last chunk and starts at the first free one.
  lemma AllocEnds(m: seq<Word>, m': seq<Word>, base: nat, freelist: nat, cs: seq<Chunk>, i: nat, p: int, n: nat)
    requires InBand(m, base, freelist, cs)
    requires AllocWrites(m, m', base, cs, i, p, n)
    ensures var out := SplitAt(cs, i, n);
            out[|out| - 1].at + 1 < |m| && m'[out[|out| - 1].at + 1] == 0
    ensures var out := SplitAt(cs, i, n);
            var freelist' := if p < 0 then base + 4 * (cs[i].at + HEADER + n) else freelist;
            forall y {:trigger FirstFree(out, y)} | FirstFree(out, y) :: freelist' == base + 4 * out[y].at
  {
    var out := SplitAt(cs, i, n);
    var last := |cs| - 1;
    SplitMoved(cs, i, n, last + 1);
    assert cs[last].at + 1 < |m| && m[cs[last].at + 1] == 0;
    if i < last {
      AllocFrame(m, m', base, cs, i, p, n, last);
    }
    forall y | FirstFree(out, y)
      ensures (if p < 0 then base + 4 * (cs[i].at + HEADER + n) else freelist) == base + 4 * out[y].at
    {
      SplitFirst(cs, i, n, y);
      SplitMoved(cs, i, n, y);
    }
  }

  lemma AllocInBand(m: seq<Word>, m': seq<Word>, base: nat, freelist: nat, freelist': nat,
                    cs: seq<Chunk>, i: nat, p: int, n: nat)
    requires InBand(m, base, freelist, cs)
    requires AllocWrites(m, m', base, cs, i, p, n)
    requires freelist' == if p < 0 then base + 4 * (cs[i].at + HEADER + n) else freelist
    requires WellFormed(SplitAt(cs, i, n), |m|)
    ensures InBand(m', base, freelist', SplitAt(cs, i, n))
  {
    var out := SplitAt(cs, i, n);
    forall k | 0 <= k < |out|
      ensures out[k].End() <= |m| && m'[out[k].at] == 4 * out[k].len
    {
      AllocHeaders(m, m', base, freelist, cs, i, p, n, k);
    }
    AllocLinks(m, m', base, freelist, cs, i, p, n);
    AllocEnds(m, m', base, freelist, cs, i, p, n);
  }

  lemma SplitFirst(cs: seq<Chunk>, i: nat, n: nat, y: int)
    requires i < |cs| && Fits(cs[i], n)
    requires FirstFree(SplitAt(cs, i, n), y)
    ensures y != i
    ensures FirstFree(cs, if y < i then y else y - 1)
  {
    var out := SplitAt(cs, i, n);
    var y0 := if y < i then y else y - 1;
    assert out[i + 1].free && !out[i].free;
    forall k | 0 <= k < y0
      ensures !cs[k].free
    {
      assert k != i ==> out[if k < i then k else k + 1] == cs[k];
    }
  }

  // What the walk over the list reads at the free chunk i
  lemma AtFree(m: seq<Word>, base: nat, freelist: nat, cs: seq<Chunk>, i: nat)
    requires InBand(m, base, freelist, cs)
    requires i < |cs| && cs[i].free
    ensures cs[i].End() <= |m| && m[cs[i].at] == 4 * cs[i].len
    ensures if i == |cs| - 1 then m[cs[i].at + 1] == 0
            else Before(cs, i, NextFree(cs, i + 1)) && m[cs[i].at + 1] == base + 4 * cs[NextFree(cs, i + 1)].at
  {
    if i < |cs| - 1 {
      assert NextLink(cs, i, NextFree(cs, i + 1));
    }
  }

  lemma InBandOrdered(m: seq<Word>, base: nat, freelist: nat, cs: seq<Chunk>)
    requires InBand(m, base, freelist, cs)
    ensures forall i, j | 0 <= i < j < |cs| :: cs[i].End() <= cs[j].at
    ensures forall i | 0 <= i < |cs| :: cs[i].End() <= |m| && m[cs[i].at] == 4 * cs[i].len
  {
    TilesOrdered(cs, |m|);
  }

  // What the address comparisons see of two chunks
  lemma InBandApart(m: seq<Word>, base: nat, freelist: nat, cs: seq<Chunk>, i: nat, j: nat)
    requires InBand(m, base, freelist, cs)
    requires i < |cs| && j < |cs| && i != j
    ensures if i < j then cs[i].End() <= cs[j].at else cs[j].End() <= cs[i].at
    ensures cs[i].End() <= |m| && cs[j].End() <= |m|
    ensures m[cs[i].at] == 4 * cs[i].len && m[cs[j].at] == 4 * cs[j].len
  {
    TilesOrdered(cs, |m|);
  }

  lemma InBandAt(m: seq<Word>, base: nat, freelist: nat, cs: seq<Chunk>, i: nat)
    requires InBand(m, base, freelist, cs) && i < |cs|
    ensures cs[i].End() <= |m| && m[cs[i].at] == 4 * cs[i].len
  {
  }

  lemma InBandLink(m: seq<Word>, base: nat, freelist: nat, cs: seq<Chunk>, x: int, y: int)
    requires InBand(m, base, freelist, cs) && NextLink(cs, x, y)
    ensures cs[x].End() <= |m| && m[cs[x].at + 1] == base + 4 * cs[y].at
  {
  }

  lemma AtStart(m: seq<Word>, base: nat, freelist: nat, cs: seq<Chunk>)
    requires InBand(m, base, freelist, cs)
    ensures |cs| >= 1 && cs[|cs| - 1].free
    ensures Before(cs, -1, NextFree(cs, 0)) && freelist == base + 4 * cs[NextFree(cs, 0)].at
  {
    assert FirstFree(cs, NextFree(cs, 0));
  }

  // ------------------------------------------------------- releasing a block

  // The last free chunk in front of i, or -1
  ghost function PreviousFree(cs: seq<Chunk>, i: nat): (q: int)
    requires i <= |cs|
    ensures -1 <= q < i
    ensures q >= 0 ==> cs[q].free
    ensures forall k | q < k < i :: !cs[k].free
  {
    if i == 0 then -1 else if cs[i - 1].free then i - 1 else PreviousFree(cs, i - 1)
  }

  // Address of the first free chunk at or after i, or null
  ghost function LinkTo(base: nat, cs: seq<Chunk>, i: nat): nat
    requires |cs| >= 1 && cs[|cs| - 1].free && i <= |cs|
  {
    if i == |cs| then 0 else base + 4 * cs[NextFree(cs, i)].at
  }

  // What Deallocate writes when the run lo..hi becomes one chunk
  ghost predicate FreeWrites(m: seq<Word>, m': seq<Word>, base: nat, freelist: nat, freelist': nat, cs: seq<Chunk>, k: nat) {
    && WellFormed(cs, |m|)
    && k < |cs| && !cs[k].free
    && (var lo, hi := MergeLow(cs, k), MergeHigh(cs, k);
        var q := PreviousFree(cs, lo);
        && cs[lo].End() <= |m|
        && SameBut(m, m', {cs[lo].at} + if q < 0 then {} else {cs[q].at})
        && m'[cs[lo].at] == 4 * Merged(cs, lo, hi).len
        && m'[cs[lo].at + 1] == LinkTo(base, cs, hi)
        && (q >= 0 ==>
          && cs[q].End() <= |m|
          && m'[cs[q].at] == m[cs[q].at]
          && m'[cs[q].at + 1] == base + 4 * cs[lo].at)
        && freelist' == if q < 0 then base + 4 * cs[lo].at else freelist)
  }

  lemma FreeFrame(m: seq<Word>, m': seq<Word>, base: nat, freelist: nat, freelist': nat, cs: seq<Chunk>, k: nat, j: nat)
    requires FreeWrites(m, m', base, freelist, freelist', cs, k)
    requires j < |cs| && j != MergeLow(cs, k)
    ensures cs[j].End() <= |m|
    ensures m'[cs[j].at] == m[cs[j].at]
    ensures j != PreviousFree(cs, MergeLow(cs, k)) ==> m'[cs[j].at + 1] == m[cs[j].at + 1]
    ensures SamePayload(m, m', cs[j])
  {
    var lo := MergeLow(cs, k);
    var q := PreviousFree(cs, lo);
    Apart(cs, |m|, lo, j);
    if 0 <= q && q != j {
      Apart(cs, |m|, q, j);
    }
  }

  lemma FreeHeader(m: seq<Word>, m': seq<Word>, base: nat, freelist: nat, freelist': nat, cs: seq<Chunk>, k: nat, j: nat)
    requires InBand(m, base, freelist, cs)
    requires FreeWrites(m, m', base, freelist, freelist', cs, k)
    requires j < |Free(cs, k)|
    ensures Free(cs, k)[j].End() <= |m|
    ensures m'[Free(cs, k)[j].at] == 4 * Free(cs, k)[j].len
  {
    hide InBand, WellFormed, Tiles, MergeLow, MergeHigh, Free, NextFree, PreviousFree, NotBothFree;
    InBandOrdered(m, base, freelist, cs);
    InBandTiles(m, base, freelist, cs);
    FreeShape(cs, |m|, k);
    FreeKeepsWellFormed(cs, |m|, k);
    TilesOrdered(Free(cs, k), |m|);
    var lo, d := MergeLow(cs, k), MergeHigh(cs, k) - MergeLow(cs, k) - 1;
    if j < lo {
      FreeFrame(m, m', base, freelist, freelist', cs, k, j);
    } else if j > lo {
      FreeFrame(m, m', base, freelist, freelist', cs, k, j + d);
    } else {
      assert Free(cs, k)[lo] == Merged(cs, lo, lo + d + 1);
    }
  }

  // Links of the merged list, read back in the old layout
  lemma JoinedLinks(cs: seq<Chunk>, out: seq<Chunk>, lo: nat, hi: nat, x: int, y: int)
    requires Joined(cs, out, lo, hi) && cs[|cs| - 1].free
    requires NextLink(out, x, y)
    ensures y < lo ==> NextLink(cs, x, y)
    ensures y == lo ==> x == PreviousFree(cs, lo)
    ensures x == lo ==> hi < |cs| && y + (hi - lo - 1) == NextFree(cs, hi)
    ensures x > lo ==> NextLink(cs, x + (hi - lo - 1), y + (hi - lo - 1))
    ensures y <= lo || lo <= x
  {
    var d := hi - lo - 1;
    if y <= lo {
      assert forall j | x < j < y :: out[j] == cs[j];
    } else {
      assert out[lo].free;
      assert lo <= x;
      assert forall j | x + d < j < y + d :: out[j - d] == cs[j];
    }
  }

  lemma JoinedFirst(cs: seq<Chunk>, out: seq<Chunk>, lo: nat, hi: nat, y: int)
    requires Joined(cs, out, lo, hi)
    requires FirstFree(out, y)
    ensures PreviousFree(cs, lo) < 0 ==> y == lo
    ensures PreviousFree(cs, lo) >= 0 ==> y < lo && out[y] == cs[y] && FirstFree(cs, y)
  {
    assert out[lo].free && y <= lo;
    var q := PreviousFree(cs, lo);
    if q >= 0 {
      assert out[q] == cs[q];
      assert forall j | 0 <= j < y :: out[j] == cs[j];
    }
  }

  lemma FreeLink(m: seq<Word>, m': seq<Word>, base: nat, freelist: nat, freelist': nat, cs: seq<Chunk>, k: nat, x: int, y: int)
    requires InBand(m, base, freelist, cs)
    requires FreeWrites(m, m', base, freelist, freelist', cs, k)
    requires NextLink(Free(cs, k), x, y)
    ensures Free(cs, k)[x].at + 1 < |m|
    ensures m'[Free(cs, k)[x].at + 1] == base + 4 * Free(cs, k)[y].at
  {
    var out, lo, hi := Free(cs, k), MergeLow(cs, k), MergeHigh(cs, k);
    FreeHeader(m, m', base, freelist, freelist', cs, k, x);
    FreeShape(cs, |m|, k);
    JoinedLinks(cs, out, lo, hi, x, y);
    FreeOldLink(m, m', base, freelist, freelist', cs, k,
                if x <= lo then x else x + (hi - lo - 1), if y <= lo then y else y + (hi - lo - 1));
  }

  // A link that does not leave the merged run, in terms of the old layout
  lemma FreeOldLink(m: seq<Word>, m': seq<Word>, base: nat, freelist: nat, freelist': nat, cs: seq<Chunk>, k: nat, x: int, y: int)
    requires InBand(m, base, freelist, cs)
    requires FreeWrites(m, m', base, freelist, freelist', cs, k)
    requires var lo, hi := MergeLow(cs, k), MergeHigh(cs, k);
             || (x == lo && hi < |cs| && y == NextFree(cs, hi))
             || (0 <= x && x == PreviousFree(cs, lo) && y == lo)
             || (NextLink(cs, x, y) && (y < lo || x > lo))
    ensures m'[cs[x].at + 1] == base + 4 * cs[y].at
  {
    var lo := MergeLow(cs, k);
    if x != lo && y != lo {
      assert m[cs[x].at + 1] == base + 4 * cs[y].at;
      FreeFrame(m, m', base, freelist, freelist', cs, k, x);
    }
  }

  lemma FreeLastLink(m: seq<Word>, m': seq<Word>, base: nat, freelist: nat, freelist': nat, cs: seq<Chunk>, k: nat)
    requires InBand(m, base, freelist, cs)
    requires FreeWrites(m, m', base, freelist, freelist', cs, k)
    ensures var out := Free(cs, k);
            && |out| > 0 && out[|out| - 1].at + 1 < |m| && m'[out[|out| - 1].at + 1] == 0
  {
    var out, lo, hi := Free(cs, k), MergeLow(cs, k), MergeHigh(cs, k);
    FreeShape(cs, |m|, k);
    FreeHeader(m, m', base, freelist, freelist', cs, k, |out| - 1);
    if hi < |cs| {
      FreeFrame(m, m', base, freelist, freelist', cs, k, |cs| - 1);
      assert out[|out| - 1] == cs[|cs| - 1];
    } else {
      assert |out| - 1 == lo;
    }
  }

  lemma FreeFirst(m: seq<Word>, m': seq<Word>, base: nat, freelist: nat, freelist': nat, cs: seq<Chunk>, k: nat, y: int)
    requires InBand(m, base, freelist, cs)
    requires FreeWrites(m, m', base, freelist, freelist', cs, k)
    requires FirstFree(Free(cs, k), y)
    ensures freelist' == base + 4 * Free(cs, k)[y].at
  {
    FreeShape(cs, |m|, k);
    JoinedFirst(cs, Free(cs, k), MergeLow(cs, k), MergeHigh(cs, k), y);
  }

  lemma FreeInBand(m: seq<Word>, m': seq<Word>, base: nat, freelist: nat, freelist': nat, cs: seq<Chunk>, k: nat)
    requires InBand(m, base, freelist, cs)
    requires FreeWrites(m, m', base, freelist, freelist', cs, k)
    ensures InBand(m', base, freelist', Free(cs, k))
  {
    var out := Free(cs, k);
    FreeKeepsWellFormed(cs, |m|, k);
    forall j | 0 <= j < |out|
      ensures out[j].End() <= |m| && m'[out[j].at] == 4 * out[j].len
    {
      FreeHeader(m, m', base, freelist, freelist', cs, k, j);
    }
    forall x, y | NextLink(out, x, y)
      ensures out[x].at + 1 < |m| && m'[out[x].at + 1] == base + 4 * out[y].at
    {
      FreeLink(m, m', base, freelist, freelist', cs, k, x, y);
    }
    FreeLastLink(m, m', base, freelist, freelist', cs, k);
    forall y | FirstFree(out, y)
      ensures freelist' == base + 4 * out[y].at
    {
      FreeFirst(m, m', base, freelist, freelist', cs, k, y);
    }
  }

  // Every block that is live afterwards was live before or is the new one; none was written.
  lemma AllocPayloads(m: seq<Word>, m': seq<Word>, base: nat, cs: seq<Chunk>, i: nat, p: int, n: nat)
    requires AllocWrites(m, m', base, cs, i, p, n)
    ensures forall c | c in SplitAt(cs, i, n) && !c.free && c.End() <= |m| :: SamePayload(m, m', c)
  {
    var out := SplitAt(cs, i, n);
    forall c | c in out && !c.free && c.End() <= |m|
      ensures SamePayload(m, m', c)
    {
      var j :| 0 <= j < |out| && out[j] == c;
      if j == i {
        if 0 <= p {
          Apart(cs, |m|, p, i);
        }
      } else {
        AllocFrame(m, m', base, cs, i, p, n, if j < i then j else j - 1);
      }
    }
  }

  lemma AllocStores(m: seq<Word>, base: nat, freelist: nat, cs: seq<Chunk>, i: nat, p: int, n: nat, next: Word)
    requires InBand(m, base, freelist, cs) && base + 4 * |m| < WORD_LIMIT
    requires i < |cs| && Fits(cs[i], n) && FirstFit(cs, n, 0) == i
    requires -1 <= p < i && Before(cs, p, i)
    requires next == base + 4 * (cs[i].at + HEADER + n)
    ensures cs[i].End() <= |m| && (p >= 0 ==> cs[p].End() <= |m|)
    ensures var m' := AllocMemory(m, cs[i].at, if p < 0 then -1 else cs[p].at, cs[i].at + HEADER + n,
                                  4 * n, 4 * (cs[i].len - n - HEADER), next);
            var freelist' := if p < 0 then next else freelist;
            && InBand(m', base, freelist', SplitAt(cs, i, n))
            && (forall c | c in SplitAt(cs, i, n) && !c.free && c.End() <= |m| :: SamePayload(m, m', c))
  {
    TilesOrdered(cs, |m|);
    if p >= 0 {
      Apart(cs, |m|, p, i);
      TilesAddress(cs, |m|, p, i);
    }
    var m' := AllocMemory(m, cs[i].at, if p < 0 then -1 else cs[p].at, cs[i].at + HEADER + n,
                          4 * n, 4 * (cs[i].len - n - HEADER), next);
    assert AllocWrites(m, m', base, cs, i, p, n);
    AllocKeepsWellFormed(cs, |m|, n);
    AllocInBand(m, m', base, freelist, if p < 0 then next else freelist, cs, i, p, n);
    AllocPayloads(m, m', base, cs, i, p, n);
  }

  lemma FreePayloads(m: seq<Word>, m': seq<Word>, base: nat, freelist: nat, freelist': nat, cs: seq<Chunk>, k: nat)
    requires FreeWrites(m, m', base, freelist, freelist', cs, k)
    ensures forall c | c in Free(cs, k) && !c.free && c.End() <= |m| :: SamePayload(m, m', c)
  {
    var out, lo, d := Free(cs, k), MergeLow(cs, k), MergeHigh(cs, k) - MergeLow(cs, k) - 1;
    FreeShape(cs, |m|, k);
    forall c | c in out && !c.free && c.End() <= |m|
      ensures SamePayload(m, m', c)
    {
      var j :| 0 <= j < |out| && out[j] == c;
      FreeFrame(m, m', base, freelist, freelist', cs, k, if j < lo then j else j + d);
    }
  }

  // What the address comparisons of Deallocate find out about the chunk after k
  lemma FreeRight(m: seq<Word>, base: nat, freelist: nat, cs: seq<Chunk>, p: int, i: nat, k: nat)
    requires InBand(m, base, freelist, cs)
    requires Before(cs, p, i) && -1 <= p < k < i < |cs|
    ensures cs[k].End() <= cs[i].at && cs[i].End() <= |m|
    ensures MergeHigh(cs, k) == if cs[k].End() == cs[i].at then i + 1 else k + 1
    ensures LinkTo(base, cs, MergeHigh(cs, k)) == if cs[k].End() == cs[i].at then m[cs[i].at + 1] else base + 4 * cs[i].at
  {
    TilesAddress(cs, |m|, k, i);
    assert Touch(cs, k);
    if k + 1 < i {
      TilesAddress(cs, |m|, k + 1, i);
    } else if i + 1 < |cs| {
      assert NextLink(cs, i, NextFree(cs, i + 1));
    }
  }

  // ... and about the chunk in front of it
  lemma FreeLeft(m: seq<Word>, base: nat, freelist: nat, cs: seq<Chunk>, p: int, i: nat, k: nat)
    requires InBand(m, base, freelist, cs)
    requires Before(cs, p, i) && -1 <= p < k < i < |cs|
    ensures p >= 0 ==> cs[p].End() <= cs[k].at
    ensures if p >= 0 && cs[p].End() == cs[k].at then
              MergeLow(cs, k) == p == k - 1 && FreeLeftLink(m, base, freelist, cs, p)
            else
              MergeLow(cs, k) == k && PreviousFree(cs, k) == p
  {
    if p >= 0 {
      TilesAddress(cs, |m|, p, k);
      assert Touch(cs, k - 1);
      if p < k - 1 {
        TilesAddress(cs, |m|, p, k - 1);
      } else {
        FreeLinkInto(m, base, freelist, cs, p);
      }
    }
  }

  // The link that leads to the free chunk p, from its predecessor or from m_freelist
  ghost predicate FreeLeftLink(m: seq<Word>, base: nat, freelist: nat, cs: seq<Chunk>, p: nat)
    requires p < |cs|
  {
    var q := PreviousFree(cs, p);
    if q < 0 then freelist == base + 4 * cs[p].at
    else cs[q].End() <= cs[p].at && cs[p].End() <= |m| && m[cs[q].at + 1] == base + 4 * cs[p].at
  }

  lemma FreeLinkInto(m: seq<Word>, base: nat, freelist: nat, cs: seq<Chunk>, p: nat)
    requires InBand(m, base, freelist, cs)
    requires p < |cs| && cs[p].free
    ensures FreeLeftLink(m, base, freelist, cs, p)
  {
    var q := PreviousFree(cs, p);
    if q >= 0 {
      TilesAddress(cs, |m|, q, p);
      assert NextLink(cs, q, p);
    } else {
      assert FirstFree(cs, p);
    }
  }

  // The stores of Deallocate in program order; `here` and `there` are the addresses of the
  // released chunk and of the list entry behind it.
  ghost function FreeMemory(m: seq<Word>, previous: int, target: int, entry: int, left: bool, right: bool,
                            joined: Word, wider: Word, here: Word, there: Word): seq<Word>
    requires 0 <= entry && entry + 1 < |m|
    requires 0 <= target && target + 1 < |m|
    requires -1 <= previous && previous + 1 < |m|
    requires left ==> previous >= 0
  {
    if left then
      var m1 := m[previous := joined];
      if right then m1[previous := wider][previous + 1 := m[entry + 1]] else m1
    else
      var m1 := if right then m[target := joined][target + 1 := m[entry + 1]] else m[target + 1 := there];
      if previous < 0 then m1 else m1[previous + 1 := here]
  }

  lemma FreeStores(m: seq<Word>, base: nat, freelist: nat, cs: seq<Chunk>, p: int, i: nat, k: nat,
                   joined: Word, wider: Word, here: Word, there: Word)
    requires InBand(m, base, freelist, cs) && base + 4 * |m| < WORD_LIMIT
    requires Before(cs, p, i) && -1 <= p < k < i < |cs| && !cs[k].free
    requires cs[k].End() <= |m| && cs[i].End() <= |m| && (p >= 0 ==> cs[p].End() <= |m|)
    requires here == base + 4 * cs[k].at && there == base + 4 * cs[i].at
    requires var left, right := p >= 0 && cs[p].End() == cs[k].at, cs[k].End() == cs[i].at;
             && (left ==> joined == 4 * (cs[p].len + HEADER + cs[k].len))
             && (left && right ==> wider == 4 * (cs[p].len + HEADER + cs[k].len + HEADER + cs[i].len))
             && (!left && right ==> joined == 4 * (cs[k].len + HEADER + cs[i].len))
    ensures var left, right := p >= 0 && cs[p].End() == cs[k].at, cs[k].End() == cs[i].at;
            var m' := FreeMemory(m, if p < 0 then -1 else cs[p].at, cs[k].at, cs[i].at, left, right, joined, wider, here, there);
            var freelist' := if p < 0 then here else freelist;
            && InBand(m', base, freelist', Free(cs, k))
            && (forall c | c in Free(cs, k) && !c.free && c.End() <= |m| :: SamePayload(m, m', c))
  {
    var left, right := p >= 0 && cs[p].End() == cs[k].at, cs[k].End() == cs[i].at;
    var m' := FreeMemory(m, if p < 0 then -1 else cs[p].at, cs[k].at, cs[i].at, left, right, joined, wider, here, there);
    var freelist' := if p < 0 then here else freelist;
    if left {
      FreeStoresLeft(m, base, freelist, cs, p, i, k, joined, wider, here, there);
    } else {
      FreeStoresAlone(m, base, freelist, cs, p, i, k, joined, wider, here, there);
    }
    FreeInBand(m, m', base, freelist, freelist', cs, k);
    FreePayloads(m, m', base, freelist, freelist', cs, k);
  }

  lemma FreeStoresLeft(m: seq<Word>, base: nat, freelist: nat, cs: seq<Chunk>, p: int, i: nat, k: nat,
                       joined: Word, wider: Word, here: Word, there: Word)
    requires InBand(m, base, freelist, cs) && base + 4 * |m| < WORD_LIMIT
    requires Before(cs, p, i) && 0 <= p < k < i < |cs| && !cs[k].free
    requires cs[k].End() <= |m| && cs[i].End() <= |m| && cs[p].End() <= |m|
    requires here == base + 4 * cs[k].at && there == base + 4 * cs[i].at
    requires cs[p].End() == cs[k].at
    requires joined == 4 * (cs[p].len + HEADER + cs[k].len)
    requires cs[k].End() == cs[i].at ==> wider == joined + 4 * (HEADER + cs[i].len)
    ensures FreeWrites(m, FreeMemory(m, cs[p].at, cs[k].at, cs[i].at, true, cs[k].End() == cs[i].at, joined, wider, here, there),
                       base, freelist, freelist, cs, k)
  {
    hide InBand, WellFormed, Tiles, MergeLow, MergeHigh, NextFree, LinkTo;
    InBandTiles(m, base, freelist, cs);
    FreeRight(m, base, freelist, cs, p, i, k);
    FreeLeft(m, base, freelist, cs, p, i, k);
    AtFree(m, base, freelist, cs, i);
    InBandLink(m, base, freelist, cs, p, i);
    InBandAt(m, base, freelist, cs, k);
    InBandAt(m, base, freelist, cs, p);
    var q := PreviousFree(cs, p);
    if q >= 0 {
      AtFree(m, base, freelist, cs, q);
    }
  }

  lemma FreeStoresAlone(m: seq<Word>, base: nat, freelist: nat, cs: seq<Chunk>, p: int, i: nat, k: nat,
                        joined: Word, wider: Word, here: Word, there: Word)
    requires InBand(m, base, freelist, cs) && base + 4 * |m| < WORD_LIMIT
    requires Before(cs, p, i) && -1 <= p < k < i < |cs| && !cs[k].free
    requires cs[k].End() <= |m| && cs[i].End() <= |m| && (p >= 0 ==> cs[p].End() <= |m|)
    requires here == base + 4 * cs[k].at && there == base + 4 * cs[i].at
    requires p >= 0 ==> cs[p].End() != cs[k].at
    requires cs[k].End() == cs[i].at ==> joined == 4 * (cs[k].len + HEADER + cs[i].len)
    ensures FreeWrites(m, FreeMemory(m, if p < 0 then -1 else cs[p].at, cs[k].at, cs[i].at, false, cs[k].End() == cs[i].at,
                                     joined, wider, here, there),
                       base, freelist, if p < 0 then here else freelist, cs, k)
  {
    hide InBand, WellFormed, Tiles, MergeLow, MergeHigh, NextFree, LinkTo;
    InBandTiles(m, base, freelist, cs);
    FreeRight(m, base, freelist, cs, p, i, k);
    FreeLeft(m, base, freelist, cs, p, i, k);
    InBandAt(m, base, freelist, cs, k);
    InBandAt(m, base, freelist, cs, i);
    if p >= 0 {
      AtFree(m, base, freelist, cs, p);
    }
  }

  lemma FirstFits(m: seq<Word>, base: nat, freelist: nat, cs: seq<Chunk>)
    ensures InBand(m, base, freelist, cs) ==> |m| >= HEADER && m[0] + NODE_SIZE <= 4 * |m|
  {
    if InBand(m, base, freelist, cs) {
      assert m[cs[0].at] == 4 * cs[0].len && cs[0].End() <= |m|;
    }
  }

  /**
   A request of 2^32 - 8 bytes passes the test on any chunk.  The rest of the split is then
   the chunk itself, and what the stores leave behind is no heap at all.
   */
  lemma WrapBreaks(m: seq<Word>, base: Word)
    requires |m| >= HEADER && base + 4 * |m| < WORD_LIMIT
    ensures var size: Word := WORD_LIMIT - NODE_SIZE;
            && m[0] >= (size + NODE_SIZE) % WORD_LIMIT
            && (base + NODE_SIZE + RoundToWord(size)) % WORD_LIMIT == base
            && (m[0] - RoundToWord(size) - NODE_SIZE) % WORD_LIMIT == m[0]
            && forall freelist: nat, cs: seq<Chunk> :: !InBand(AllocMemory(m, 0, -1, 0, size, m[0], base), base, freelist, cs)
  {
    var size: Word := WORD_LIMIT - NODE_SIZE;
    var m' := AllocMemory(m, 0, -1, 0, size, m[0], base);
    forall freelist: nat, cs: seq<Chunk>
      ensures !InBand(m', base, freelist, cs)
    {
      FirstFits(m', base, freelist, cs);
    }
  }

  lemma Chosen(cs: seq<Chunk>, n: nat, i: nat)
    requires i < |cs| && Fits(cs[i], n)
    requires forall k | 0 <= k < i :: !Fits(cs[k], n)
    ensures FirstFit(cs, n, 0) == i
    ensures Alloc(cs, n) == Some(Allocation(SplitAt(cs, i, n), i))
    ensures i < |SplitAt(cs, i, n)| && SplitAt(cs, i, n)[i] == Chunk(cs[i].at, n, false)
  {
  }

  // The lowest free chunk with room for a request of `size` bytes and a header of eight
  ghost predicate FirstWithRoom(cs: seq<Chunk>, size: nat, i: nat) {
    && i < |cs| && cs[i].free && 4 * cs[i].len >= size + 8
    && forall k | 0 <= k < i && cs[k].free :: 4 * cs[k].len < size + 8
  }

  ghost predicate NoRoom(cs: seq<Chunk>, size: nat) {
    forall k | 0 <= k < |cs| && cs[k].free :: 4 * cs[k].len < size + 8
  }

  // First fit, in bytes
  lemma AllocInBytes(cs: seq<Chunk>, size: nat)
    ensures Alloc(cs, WordsFor(size)).None? <==> NoRoom(cs, size)
    ensures Alloc(cs, WordsFor(size)).Some? ==> FirstWithRoom(cs, size, Alloc(cs, WordsFor(size)).value.index)
    ensures size <= 4 * WordsFor(size) < size + 4
  {
    AllocTakesFirst(cs, WordsFor(size));
    hide Alloc;
  }

  lemma NoneFits(cs: seq<Chunk>, n: nat)
    requires forall k | 0 <= k < |cs| :: !Fits(cs[k], n)
    ensures Alloc(cs, n).None?
  {
  }

  // The index of chunk k after chunk i was split
  function Shifted(i: nat, k: nat): nat { if k < i then k else k + 1 }

  lemma AllocShifted(m: seq<Word>, base: nat, freelist: nat, cs: seq<Chunk>, n: nat, k: nat)
    requires InBand(m, base, freelist, cs) && Alloc(cs, n).Some?
    requires k < |cs| && !cs[k].free
    ensures var a := Alloc(cs, n).value;
            && a.index < |a.cs| && a.cs[a.index].len == n && !a.cs[a.index].free
            && Shifted(a.index, k) != a.index && Shifted(a.index, k) < |a.cs|
            && a.cs[Shifted(a.index, k)] == cs[k]
            && a.cs[a.index].End() <= |m| && cs[k].End() <= |m|
            && (cs[k].End() <= a.cs[a.index].at || a.cs[a.index].End() <= cs[k].at)
  {
    Apart(cs, |m|, FirstFit(cs, n, 0), k);
  }

  // Writing into a live block does not disturb the list.
  lemma WritePayload(m: seq<Word>, m': seq<Word>, base: nat, freelist: nat, cs: seq<Chunk>, j: nat)
    requires InBand(m, base, freelist, cs)
    requires j < |cs| && !cs[j].free && |m'| == |m|
    requires forall o | 0 <= o < |m| && !(cs[j].at + HEADER <= o < cs[j].End()) :: m'[o] == m[o]
    ensures InBand(m', base, freelist, cs)
    ensures forall c | c in cs && c != cs[j] && c.End() <= |m| :: SamePayload(m, m', c)
  {
    InBandOrdered(m, base, freelist, cs);
    forall i | 0 <= i < |cs| && i != j
      ensures m'[cs[i].at] == m[cs[i].at] && m'[cs[i].at + 1] == m[cs[i].at + 1]
      ensures SamePayload(m, m', cs[i])
    {
      Apart(cs, |m|, i, j);
    }
  }

  // Words from..from + len were copied to the disjoint range that starts at `to`.
  ghost predicate Copied(m: seq<Word>, m': seq<Word>, to: nat, from: nat, len: nat) {
    && to + len <= |m| && from + len <= |m|
    && m' == m[..to] + m[from..from + len] + m[to + len..]
  }

  lemma CopiedFrom(m: seq<Word>, m': seq<Word>, to: nat, from: nat, len: nat)
    requires to + len <= |m| && from + len <= |m| && |m'| == |m|
    requires forall o | 0 <= o < |m| && !(to <= o < to + len) :: m'[o] == m[o]
    requires forall o | to <= o < to + len :: m'[o] == m[from + (o - to)]
    ensures Copied(m, m', to, from, len)
  {
    var front, back := m[..to] + m[from..from + len], m[to + len..];
    forall o | 0 <= o < |m|
      ensures (front + back)[o] == m'[o]
    {
      if o < to {
        assert (front + back)[o] == front[o] == m[o];
      } else if o < to + len {
        assert (front + back)[o] == front[o] == m[from..from + len][o - to];
      } else {
        assert (front + back)[o] == back[o - (to + len)] == m[o];
      }
    }
    assert front + back == m';
  }

  lemma CopiedPayload(m: seq<Word>, m': seq<Word>, to: nat, from: nat, len: nat)
    requires Copied(m, m', to + HEADER, from + HEADER, len)
    ensures |m'| == |m| && Payload(m', to, len) == Payload(m, from, len)
    ensures forall o | 0 <= o < |m| && !(to + HEADER <= o < to + HEADER + len) :: m'[o] == m[o]
  {
  }

  // Releasing chunk j leaves the other live chunks as they are.
  lemma LiveSurvive(m: seq<Word>, base: nat, freelist: nat, cs: seq<Chunk>, j: nat)
    requires InBand(m, base, freelist, cs)
    requires j < |cs| && !cs[j].free
    ensures forall c | c in Free(cs, j) && !c.free :: c in cs && c != cs[j]
    ensures forall c | c in cs && !c.free && c != cs[j] :: c in Free(cs, j)
  {
    FreeShape(cs, |m|, j);
    MergedRun(cs, |m|, j);
    var out, lo, d := Free(cs, j), MergeLow(cs, j), MergeHigh(cs, j) - MergeLow(cs, j) - 1;
    forall c | c in out && !c.free
      ensures c in cs && c != cs[j]
    {
      var x :| 0 <= x < |out| && out[x] == c;
      var i := if x < lo then x else x + d;
      assert cs[i] == c;
      Apart(cs, |m|, i, j);
    }
    forall c | c in cs && !c.free && c != cs[j]
      ensures c in out
    {
      var i :| 0 <= i < |cs| && cs[i] == c;
      assert out[if i < lo then i else i - d] == c;
    }
  }

  lemma SamePayloadChain(m: seq<Word>, m1: seq<Word>, m2: seq<Word>, c: Chunk)
    requires |m1| == |m| && |m2| == |m| && c.End() <= |m|
    requires SamePayload(m, m1, c) && SamePayload(m1, m2, c)
    ensures SamePayload(m, m2, c)
  {
  }

  lemma SamePayloadPrefix(m: seq<Word>, m': seq<Word>, c: Chunk, len: nat)
    requires |m'| == |m| && c.End() <= |m| && len <= c.len
    requires SamePayload(m, m', c)
    ensures Payload(m', c.at, len) == Payload(m, c.at, len)
  {
  }

  // The three steps of Reallocate, from m over m1 and m2 to m3, block by block
  lemma ReallocatePayloads(m: seq<Word>, m1: seq<Word>, m2: seq<Word>, m3: seq<Word>, base: nat, freelist: nat,
                           cs: seq<Chunk>, to: Chunk, from: Chunk, j: nat)
    requires |m1| == |m| && |m2| == |m| && |m3| == |m|
    requires InBand(m2, base, freelist, cs) && j < |cs| && cs[j] == from && to in cs && to != from
    requires !to.free && !from.free && from.len <= to.len && to.End() <= |m| && from.End() <= |m|
    requires forall c | c in cs && !c.free && c.End() <= |m| :: SamePayload(m, m1, c)
    requires Payload(m2, to.at, from.len) == Payload(m1, from.at, from.len)
    requires forall c | c in cs && c != to && c.End() <= |m| :: SamePayload(m1, m2, c)
    requires forall c | c in Free(cs, j) && !c.free && c.End() <= |m| :: SamePayload(m2, m3, c)
    ensures Payload(m3, to.at, from.len) == Payload(m, from.at, from.len)
    ensures forall d | d in Free(cs, j) && !d.free && d.End() <= |m| && d != to :: SamePayload(m, m3, d)
  {
    hide InBand, SamePayload, Payload, Free;
    LiveSurvive(m2, base, freelist, cs, j);
    SamePayloadPrefix(m2, m3, to, from.len);
    SamePayloadPrefix(m, m1, from, from.len);
    forall c | c in Free(cs, j) && !c.free && c.End() <= |m| && c != to
      ensures SamePayload(m, m3, c)
    {
      SamePayloadChain(m, m1, m2, c);
      SamePayloadChain(m, m2, m3, c);
    }
  }

  lemma FreeWordsSkip(cs: seq<Chunk>, i: nat, j: nat)
    requires i <= j <= |cs|
    requires forall k | i <= k < j :: !cs[k].free
    ensures FreeWords(cs[..j]) == FreeWords(cs[..i])
  {
    if i < j {
      assert cs[..j][..j - 1] == cs[..j - 1];
      FreeWordsSkip(cs, i, j - 1);
    }
  }

  lemma FreeWordsStep(cs: seq<Chunk>, i: nat, j: nat)
    requires i < j <= |cs| && cs[i].free
    requires forall k | i < k < j :: !cs[k].free
    ensures FreeWords(cs[..j]) == FreeWords(cs[..i]) + cs[i].len
  {
    assert cs[..i + 1][..i] == cs[..i];
    FreeWordsSkip(cs, i + 1, j);
  }

  // Nothing written, nothing changed
  lemma Unwritten(m: seq<Word>)
    ensures forall c: Chunk | c.End() <= |m| :: SamePayload(m, m, c)
  {
  }

  lemma Aligned(base: nat, at: nat)
    requires base % 4 == 0
    ensures (base + 4 * at + NODE_SIZE) % 4 == 0
  {
  }

  // ------------------------------------------------------------ the allocator

  datatype Statistics = Statistics(largest: int, available: int)

  class Allocator {
    const base: Word          // m_heap.data()
    const heap: array<Word>   // m_heap
    var freelist: Word        // m_freelist
    ghost var chunks: seq<Chunk>

    ghost predicate Valid()
      reads this, heap
    {
      && 0 < base && base % 4 == 0
      && base + 4 * heap.Length < WORD_LIMIT
      && InBand(heap[..], base, freelist, chunks)
    }

    // `pointer` is what Allocate returned for the live chunk k.
    ghost predicate Live(pointer: Word, k: int)
      reads this
    {
      0 <= k < |chunks| && !chunks[k].free && pointer == base + 4 * (chunks[k].at + HEADER)
    }

    // No call writes inside the blocks that are live in `cs`.
    twostate predicate PayloadsKept(cs: seq<Chunk>)
      reads heap
    {
      forall c | c in cs && !c.free && c.End() <= heap.Length :: SamePayload(old(heap[..]), heap[..], c)
    }

    // The accessors of a Node: at is the word at which its header stands.

    ghost predicate Node(entry: int, at: nat) {
      entry == base + 4 * at && at + 1 < heap.Length
    }

    method Size(entry: Word, ghost at: nat) returns (size: Word)
      requires Node(entry, at)
      ensures size == heap[..][at]
    {
      size := heap[(entry - base) / 4];
    }

    method Next(entry: Word, ghost at: nat) returns (next: Word)
      requires Node(entry, at)
      ensures next == heap[..][at + 1]
    {
      next := heap[(entry - base) / 4 + 1];
    }

    method SetSize(entry: Word, ghost at: nat, size: Word)
      requires Node(entry, at)
      modifies heap
      ensures heap[..] == old(heap[..])[at := size]
    {
      heap[(entry - base) / 4] := size;
    }

    method SetNext(entry: Word, ghost at: nat, next: Word)
      requires Node(entry, at)
      modifies heap
      ensures heap[..] == old(heap[..])[at + 1 := next]
    {
      heap[(entry - base) / 4 + 1] := next;
    }

    constructor (base: Word, heap: array<Word>)
      requires 0 < base && base % 4 == 0 && base + 4 * heap.Length < WORD_LIMIT
      requires heap.Length >= HEADER
      modifies heap
      ensures Valid() && this.heap == heap && this.base == base
      ensures chunks == [Chunk(0, heap.Length - HEADER, true)]
    {
      this.base := base;
      this.heap := heap;
      freelist := base;
      chunks := [Chunk(0, heap.Length - HEADER, true)];
      new;
      heap[0] := 4 * heap.Length - NODE_SIZE;
      heap[1] := 0;
    }

    // The body of the test in Allocate: cut `entry` in two and unlink its front.
    method Split(previous: Word, entry: Word, size: Word, ghost p: int, ghost i: nat)
      requires Valid()
      requires i < |chunks| && Fits(chunks[i], WordsFor(size)) && FirstFit(chunks, WordsFor(size), 0) == i
      requires -1 <= p < i && Before(chunks, p, i)
      requires entry == base + 4 * chunks[i].at
      requires previous == if p < 0 then 0 else base + 4 * chunks[p].at
      modifies this`freelist, this`chunks, heap
      ensures Valid()
      ensures chunks == SplitAt(old(chunks), i, WordsFor(size))
      ensures PayloadsKept(chunks)
    {
      hide InBand, SamePayload, SplitAt, FirstFit, Before, WordsFor, RoundToWord;
      ghost var m, cs, n, at := heap[..], chunks, WordsFor(size), chunks[i].at;
      AtFree(m, base, freelist, cs, i);
      var next := entry + NODE_SIZE + RoundToWord(size);
      AllocStores(m, base, freelist, cs, i, p, n, next);
      ghost var m' := AllocMemory(m, at, if p < 0 then -1 else cs[p].at, at + HEADER + n, 4 * n, 4 * (cs[i].len - n - HEADER), next);
      var entryNext := Next(entry, at);
      SetNext(next, at + HEADER + n, entryNext);
      var entrySize := Size(entry, at);
      SetSize(next, at + HEADER + n, entrySize - RoundToWord(size) - NODE_SIZE);
      if previous != 0 {
        SetNext(previous, cs[p].at, next);
      } else {
        freelist := next;
      }
      SetNext(entry, at, 0);
      SetSize(entry, at, RoundToWord(size));
      assert heap[..] == m';
      chunks := SplitAt(cs, i, n);
    }

    method Allocate(size: Word) returns (r: Option<Word>)
      requires Valid()
      requires size + NODE_SIZE < WORD_LIMIT
      modifies this`freelist, this`chunks, heap
      ensures Valid()
      // VERIFY_NOT_REACHED, exactly when no free chunk has room for the block and a header of eight bytes
      ensures r.None? <==> NoRoom(old(chunks), size)
      ensures r.None? ==> chunks == old(chunks) && heap[..] == old(heap[..]) && freelist == old(freelist)
      ensures r.None? <==> Alloc(old(chunks), WordsFor(size)).None?
      // The first such chunk is split, and gives the least block of whole words.
      ensures r.Some? ==>
        var a := Alloc(old(chunks), WordsFor(size)).value;
        && FirstWithRoom(old(chunks), size, a.index)
        && chunks == a.cs
        && Live(r.value, a.index) && chunks[a.index].at == old(chunks)[a.index].at && r.value == base + 4 * chunks[a.index].at + 8
        && r.value % 4 == 0
        && chunks[a.index].len == WordsFor(size) && size <= 4 * chunks[a.index].len < size + 4
      ensures PayloadsKept(chunks)
    {
      hide InBand, SamePayload, WordsFor, RoundToWord, Alloc, FirstFit, SplitAt, FirstWithRoom, NoRoom;
      var n := WordsFor(size);
      var previous, entry := 0, freelist;
      ghost var cs := chunks;
      ghost var m := heap[..];
      AllocInBytes(cs, size);
      AtStart(m, base, freelist, cs);
      ghost var p, i := -1, NextFree(chunks, 0);
      while entry != 0
        invariant chunks == cs && heap[..] == m && freelist == old(freelist)
        invariant -1 <= p < i <= |cs|
        invariant if i < |cs| then entry == base + 4 * cs[i].at && Before(cs, p, i) else entry == 0
        invariant previous == if p < 0 then 0 else base + 4 * cs[p].at
        invariant forall k | 0 <= k < i :: !Fits(cs[k], n)
        decreases |cs| - i
      {
        AtFree(m, base, freelist, cs, i);
        if p >= 0 {
          AtFree(m, base, freelist, cs, p);
        }
        var entrySize := Size(entry, cs[i].at);
        if entrySize >= size + NODE_SIZE {
          Chosen(cs, n, i);
          Split(previous, entry, size, p, i);
          // VERIFY in the source
          assert (entry + NODE_SIZE) % 4 == 0 by { Aligned(base, cs[i].at); }
          return Some(entry + NODE_SIZE);
        }
        previous := entry;
        entry := Next(entry, cs[i].at);
        p, i := i, if i == |cs| - 1 then |cs| else NextFree(cs, i + 1);
      }
      NoneFits(cs, n);
      Unwritten(m);
      r := None;
    }

    // `target` becomes part of `previous`, and so does `entry` if it is next to it.
    method JoinPrevious(previous: Word, entry: Word, target: Word, ghost p: int, ghost i: nat, ghost k: nat)
      requires Valid()
      requires 0 <= p < k < i < |chunks| && Before(chunks, p, i) && !chunks[k].free
      requires entry == base + 4 * chunks[i].at && target == base + 4 * chunks[k].at
      requires previous == base + 4 * chunks[p].at && chunks[p].End() == chunks[k].at
      modifies this`chunks, heap
      ensures Valid()
      ensures chunks == Free(old(chunks), k)
      ensures PayloadsKept(chunks)
    {
      hide InBand, SamePayload, Free, Before;
      ghost var m, cs := heap[..], chunks;
      InBandApart(m, base, freelist, cs, i, k);
      InBandApart(m, base, freelist, cs, p, k);
      var targetSize := Size(target, cs[k].at);
      var previousSize := Size(previous, cs[p].at);
      var joined := previousSize + NODE_SIZE + targetSize;
      SetSize(previous, cs[p].at, joined);
      if previous + NODE_SIZE + joined == entry {
        var entrySize := Size(entry, cs[i].at);
        FreeStores(m, base, freelist, cs, p, i, k, joined, joined + NODE_SIZE + entrySize, target, entry);
        SetSize(previous, cs[p].at, joined + NODE_SIZE + entrySize);
        var entryNext := Next(entry, cs[i].at);
        SetNext(previous, cs[p].at, entryNext);
      } else {
        FreeStores(m, base, freelist, cs, p, i, k, joined, 0, target, entry);
      }
      chunks := Free(cs, k);
    }

    // The body of the test in Deallocate: put `target` between `previous` and `entry`.
    method Insert(previous: Word, entry: Word, target: Word, ghost p: int, ghost i: nat, ghost k: nat)
      requires Valid()
      requires -1 <= p < k < i < |chunks| && Before(chunks, p, i) && !chunks[k].free
      requires entry == base + 4 * chunks[i].at && target == base + 4 * chunks[k].at
      requires previous == if p < 0 then 0 else base + 4 * chunks[p].at
      modifies this`freelist, this`chunks, heap
      ensures Valid()
      ensures chunks == Free(old(chunks), k)
      ensures PayloadsKept(chunks)
    {
      hide InBand, SamePayload, Free, Before;
      ghost var m, cs, at := heap[..], chunks, chunks[k].at;
      InBandApart(m, base, freelist, cs, i, k);
      if previous != 0 {
        InBandApart(m, base, freelist, cs, p, k);
        var previousSize := Size(previous, cs[p].at);
        if previous + NODE_SIZE + previousSize == target {
          JoinPrevious(previous, entry, target, p, i, k);
          return;
        }
      }
      var targetSize := Size(target, at);
      // The chunk behind is swallowed if it starts where this one ends.
      if target + NODE_SIZE + targetSize == entry {
        var entrySize := Size(entry, cs[i].at);
        FreeStores(m, base, freelist, cs, p, i, k, targetSize + NODE_SIZE + entrySize, 0, target, entry);
        SetSize(target, at, targetSize + NODE_SIZE + entrySize);
        var entryNext := Next(entry, cs[i].at);
        SetNext(target, at, entryNext);
      } else {
        FreeStores(m, base, freelist, cs, p, i, k, 0, 0, target, entry);
        SetNext(target, at, entry);
      }
      if previous != 0 {
        SetNext(previous, cs[p].at, target);
      } else {
        freelist := target;
      }
      chunks := Free(cs, k);
    }

    /** `pointer` must be null or a live block; anything else corrupts the list. */
    method Deallocate(pointer: Word, ghost k: int)
      requires Valid()
      requires pointer == 0 || Live(pointer, k)
      modifies this`freelist, this`chunks, heap
      ensures Valid()
      ensures chunks == if pointer == 0 then old(chunks) else Free(old(chunks), k)
      ensures PayloadsKept(chunks)
    {
      hide InBand, SamePayload, Free, Before;
      Unwritten(heap[..]);
      if pointer == 0 {
        return;
      }
      ghost var cs := chunks;
      ghost var m := heap[..];
      var target := pointer - NODE_SIZE;
      assert target == base + 4 * cs[k].at;
      var previous, entry := 0, freelist;
      AtStart(m, base, freelist, cs);
      ghost var p, i := -1, NextFree(chunks, 0);
      while entry != 0
        invariant chunks == cs && heap[..] == m && freelist == old(freelist)
        invariant -1 <= p < i < |cs| && p < k && cs[i].free && (p >= 0 ==> cs[p].free)
        invariant entry == base + 4 * cs[i].at && Before(cs, p, i)
        invariant previous == if p < 0 then 0 else base + 4 * cs[p].at
        decreases |cs| - i
      {
        AtFree(m, base, freelist, cs, i);
        if p >= 0 {
          AtFree(m, base, freelist, cs, p);
        }
        InBandApart(m, base, freelist, cs, i, k);
        if entry > target {
          Insert(previous, entry, target, p, i, k);
          return;
        }
        previous := entry;
        entry := Next(entry, cs[i].at);
        p, i := i, NextFree(cs, i + 1);
      }
      // The source falls through to `m_freelist = target_entry` here.
      assert false;
    }

    // memcpy of `size` bytes between two blocks
    method CopyWords(destination: Word, source: Word, size: Word, ghost to: nat, ghost from: nat)
      requires 0 < base && base + 4 * heap.Length < WORD_LIMIT
      requires size % 4 == 0 && destination == base + 4 * to && source == base + 4 * from
      requires to + size / 4 <= from || from + size / 4 <= to
      requires to + size / 4 <= heap.Length && from + size / 4 <= heap.Length
      modifies heap
      ensures Copied(old(heap[..]), heap[..], to, from, size / 4)
    {
      hide Copied;
      var i := 0;
      while i < size / 4
        invariant 0 <= i <= size / 4
        invariant forall o | 0 <= o < heap.Length ::
          heap[o] == if to <= o < to + i then old(heap[from + (o - to)]) else old(heap[o])
      {
        heap[(destination - base) / 4 + i] := heap[(source - base) / 4 + i];
        i := i + 1;
      }
      CopiedFrom(old(heap[..]), heap[..], to, from, size / 4);
    }

    /** The block keeps its contents, and every other block keeps its own. */
    method Reallocate(pointer: Word, size: Word, ghost k: int) returns (r: Option<Word>)
      requires Valid()
      requires Live(pointer, k)
      requires size + NODE_SIZE < WORD_LIMIT
      modifies this`freelist, this`chunks, heap
      ensures Valid()
      ensures var c := old(chunks)[k];
        if size < 4 * c.len then
          r == Some(pointer) && chunks == old(chunks) && heap[..] == old(heap[..])
        else if Alloc(old(chunks), WordsFor(size)).None? then
          r.None? && chunks == old(chunks) && heap[..] == old(heap[..])
        else
          var a := Alloc(old(chunks), WordsFor(size)).value;
          var block := a.cs[a.index];
          && chunks == Free(a.cs, Shifted(a.index, k))
          && r == Some(base + 4 * (block.at + HEADER))
          && Payload(heap[..], block.at, c.len) == old(Payload(heap[..], chunks[k].at, chunks[k].len))
          && (forall d | d in chunks && !d.free && d.End() <= heap.Length && d != block :: SamePayload(old(heap[..]), heap[..], d))
    {
      hide InBand, SamePayload, Payload, Alloc, Free, WordsFor, RoundToWord, SplitAt, FirstFit, Copied, FirstWithRoom, NoRoom;
      ghost var m, cs := heap[..], chunks;
      InBandAt(m, base, freelist, cs, k);
      var entry := pointer - NODE_SIZE;
      var entrySize := Size(entry, cs[k].at);
      if size < entrySize {
        return Some(pointer);
      }
      r := Allocate(size);
      if r.None? {
        return;
      }
      ghost var a := Alloc(cs, WordsFor(size)).value;
      ghost var j := Shifted(a.index, k);
      ghost var m1, mid := heap[..], freelist;
      AllocShifted(m, base, old(freelist), cs, WordsFor(size), k);
      InBandAt(m1, base, freelist, chunks, j);
      entrySize := Size(entry, cs[k].at);
      CopyWords(r.value, pointer, entrySize, chunks[a.index].at + HEADER, cs[k].at + HEADER);
      ghost var m2 := heap[..];
      CopiedPayload(m1, m2, chunks[a.index].at, cs[k].at, cs[k].len);
      WritePayload(m1, m2, base, freelist, chunks, a.index);
      Deallocate(pointer, j);
      ReallocatePayloads(m, m1, m2, heap[..], base, mid, a.cs, a.cs[a.index], cs[k], j);
    }

    method Report() returns (stats: Statistics)
      requires Valid()
      ensures stats.available == 4 * FreeWords(chunks)
      ensures forall i | 0 <= i < |chunks| && chunks[i].free :: 4 * chunks[i].len <= stats.largest
      ensures exists i | 0 <= i < |chunks| && chunks[i].free :: 4 * chunks[i].len == stats.largest
    {
      hide InBand;
      var largest: int, available: int := 0, 0;
      var entry := freelist;
      AtStart(heap[..], base, freelist, chunks);
      ghost var i := NextFree(chunks, 0);
      FreeWordsSkip(chunks, 0, i);
      ghost var best := i;
      while entry != 0
        invariant 0 <= i <= |chunks|
        invariant if i < |chunks| then chunks[i].free && entry == base + 4 * chunks[i].at else entry == 0
        invariant available == 4 * FreeWords(chunks[..i])
        invariant forall k | 0 <= k < i && chunks[k].free :: 4 * chunks[k].len <= largest
        invariant 0 <= largest && 0 <= best < |chunks| && chunks[best].free
        invariant i > best || (largest == 0 && i == best)
        invariant i > best ==> 4 * chunks[best].len == largest
        decreases |chunks| - i
      {
        AtFree(heap[..], base, freelist, chunks, i);
        var size := Size(entry, chunks[i].at);
        available := available + size;
        if size > largest {
          largest := size;
          best := i;
        } else if i == best {
          assert size == largest;
        }
        entry := Next(entry, chunks[i].at);
        ghost var j := if i == |chunks| - 1 then |chunks| else NextFree(chunks, i + 1);
        FreeWordsStep(chunks, i, j);
        i := j;
      }
      assert chunks[..i] == chunks;
      stats := Statistics(largest, available);
    }
  }
}
