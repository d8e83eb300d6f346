/**
 The heap of `MemoryAllocator` seen as a sequence of chunks in address order.

 Offsets and lengths count 32-bit words.  A chunk is a two-word header at `at`
 followed by `len` payload words.  `Alloc` and `Free` say what one call does to the
 sequence; MemoryAllocator.dfy proves that the in-band free list implements them.
 */
module HeapLayout {
  import opened Wrappers

  datatype Chunk = Chunk(at: nat, len: nat, free: bool) {
    function End(): nat { at + HEADER + len }
  }

  // sizeof(Node) in words: m_size and m_next
  const HEADER: nat := 2

  ghost predicate Touch(cs: seq<Chunk>, i: nat)
    requires i + 1 < |cs|
  {
    cs[i + 1].at == cs[i].End()
  }

  ghost predicate NotBothFree(cs: seq<Chunk>, i: nat)
    requires i + 1 < |cs|
  {
    !(cs[i].free && cs[i + 1].free)
  }

  // Consecutive chunks touch and together cover words 0..total.
  ghost predicate Tiles(cs: seq<Chunk>, total: nat) {
    && |cs| >= 1
    && cs[0].at == 0
    && (forall i | 0 <= i < |cs| - 1 :: Touch(cs, i))
    && cs[|cs| - 1].End() == total
  }

  ghost predicate NoFreeNeighbours(cs: seq<Chunk>) {
    forall i | 0 <= i < |cs| - 1 :: NotBothFree(cs, i)
  }

  ghost predicate WellFormed(cs: seq<Chunk>, total: nat) {
    && Tiles(cs, total)
    && NoFreeNeighbours(cs)
    && cs[|cs| - 1].free
  }

  lemma TilesAddress(cs: seq<Chunk>, total: nat, i: nat, j: nat)
    requires Tiles(cs, total)
    requires i < j < |cs|
    ensures cs[i].End() <= cs[j].at
  {
    assert Touch(cs, j - 1);
    if i + 1 < j {
      TilesAddress(cs, total, i, j - 1);
    }
  }

  // The whole order at once, for callers that compare many chunks.
  lemma TilesOrdered(cs: seq<Chunk>, total: nat)
    requires Tiles(cs, total)
    ensures forall i, j | 0 <= i < j < |cs| :: cs[i].End() <= cs[j].at
    ensures forall i | 0 <= i < |cs| :: cs[i].End() <= total
  {
    forall i, j | 0 <= i < j < |cs|
      ensures cs[i].End() <= cs[j].at
    {
      TilesAddress(cs, total, i, j);
    }
  }

  /** The first free chunk at or after `i`. */
  function NextFree(cs: seq<Chunk>, i: nat): (j: nat)
    requires i < |cs| && cs[|cs| - 1].free
    ensures i <= j < |cs| && cs[j].free
    ensures forall k | i <= k < j :: !cs[k].free
    decreases |cs| - i
  {
    if cs[i].free then i else NextFree(cs, i + 1)
  }

  /** A free chunk is taken only when a header still fits behind the block. */
  predicate Fits(c: Chunk, n: nat) {
    c.free && n + HEADER <= c.len
  }

  /** First fit: the lowest chunk that can hold `n` words, or |cs|. */
  function FirstFit(cs: seq<Chunk>, n: nat, i: nat): (j: nat)
    requires i <= |cs|
    ensures i <= j <= |cs|
    ensures j < |cs| ==> Fits(cs[j], n)
    ensures forall k | i <= k < j :: !Fits(cs[k], n)
    decreases |cs| - i
  {
    if i == |cs| || Fits(cs[i], n) then i else FirstFit(cs, n, i + 1)
  }

  function SplitAt(cs: seq<Chunk>, i: nat, n: nat): seq<Chunk>
    requires i < |cs| && Fits(cs[i], n)
  {
    cs[..i]
    + [Chunk(cs[i].at, n, false), Chunk(cs[i].at + HEADER + n, cs[i].len - n - HEADER, true)]
    + cs[i + 1..]
  }

  datatype Allocation = Allocation(cs: seq<Chunk>, index: nat)

  function Alloc(cs: seq<Chunk>, n: nat): Option<Allocation> {
    var i := FirstFit(cs, n, 0);
    if i == |cs| then None else Some(Allocation(SplitAt(cs, i, n), i))
  }

  /**
   First fit, in words: a chunk is split if it has room for the block and a header of two
   words; the lowest free chunk of that size is taken, and it fails if there is none.
   */
  lemma AllocTakesFirst(cs: seq<Chunk>, n: nat)
    ensures Alloc(cs, n).None? <==> forall k | 0 <= k < |cs| && cs[k].free :: cs[k].len < n + 2
    ensures Alloc(cs, n).Some? ==>
      var a := Alloc(cs, n).value;
      && a.index < |cs| && cs[a.index].free && cs[a.index].len >= n + 2
      && (forall k | 0 <= k < a.index && cs[k].free :: cs[k].len < n + 2)
      && a.cs == cs[..a.index]
                 + [Chunk(cs[a.index].at, n, false), Chunk(cs[a.index].at + n + 2, cs[a.index].len - n - 2, true)]
                 + cs[a.index + 1..]
  {
    var i := FirstFit(cs, n, 0);
    if i < |cs| {
      assert Fits(cs[i], n);
    } else {
      forall k | 0 <= k < |cs| && cs[k].free
        ensures cs[k].len < n + 2
      {
        assert !Fits(cs[k], n);
      }
    }
    forall k | 0 <= k < i && cs[k].free
      ensures cs[k].len < n + 2
    {
      assert !Fits(cs[k], n);
    }
  }

  // The run of chunks that becomes one free chunk when chunk k is released
  function MergeLow(cs: seq<Chunk>, k: nat): nat
    requires k < |cs|
  {
    if k > 0 && cs[k - 1].free then k - 1 else k
  }

  function MergeHigh(cs: seq<Chunk>, k: nat): nat
    requires k < |cs|
  {
    if k + 1 < |cs| && cs[k + 1].free then k + 2 else k + 1
  }

  function Merged(cs: seq<Chunk>, lo: nat, hi: nat): Chunk
    requires lo < hi <= |cs|
  {
    var size := cs[hi - 1].End() - cs[lo].at - HEADER;
    Chunk(cs[lo].at, if size >= 0 then size else 0, true)
  }

  function Free(cs: seq<Chunk>, k: nat): seq<Chunk>
    requires k < |cs|
  {
    var lo, hi := MergeLow(cs, k), MergeHigh(cs, k);
    cs[..lo] + [Merged(cs, lo, hi)] + cs[hi..]
  }

  // ---------------------------------------------------------------- invariants

  lemma AllocKeepsWellFormed(cs: seq<Chunk>, total: nat, n: nat)
    requires WellFormed(cs, total)
    requires Alloc(cs, n).Some?
    ensures WellFormed(Alloc(cs, n).value.cs, total)
  {
    var i := FirstFit(cs, n, 0);
    var out := SplitAt(cs, i, n);
    forall k | 0 <= k < |out| - 1
      ensures Touch(out, k) && NotBothFree(out, k)
    {
      if k < i {
        assert Touch(cs, k) && NotBothFree(cs, k);
      } else if k > i {
        assert Touch(cs, k - 1) && NotBothFree(cs, k - 1);
      }
    }
  }

  // The chunks being merged are k and its free neighbours, no more.
  lemma MergedRun(cs: seq<Chunk>, total: nat, k: nat)
    requires WellFormed(cs, total)
    requires k < |cs| && !cs[k].free
    ensures var lo, hi := MergeLow(cs, k), MergeHigh(cs, k);
            && cs[lo].at + HEADER <= cs[hi - 1].End()
            && (lo > 0 ==> !cs[lo - 1].free)
            && (hi < |cs| ==> !cs[hi].free)
            && (forall j | lo <= j < hi && j != k :: cs[j].free)
  {
    var lo, hi := MergeLow(cs, k), MergeHigh(cs, k);
    if lo < hi - 1 {
      TilesAddress(cs, total, lo, hi - 1);
    }
    if lo > 0 {
      assert NotBothFree(cs, lo - 1);
    }
    if hi < |cs| {
      assert NotBothFree(cs, hi - 1);
    }
  }

  // `out` is `cs` with the chunks lo..hi joined into one free chunk.
  ghost predicate Joined(cs: seq<Chunk>, out: seq<Chunk>, lo: nat, hi: nat) {
    && lo < hi <= |cs|
    && |out| == |cs| - (hi - lo - 1)
    && (forall j | 0 <= j < lo :: out[j] == cs[j])
    && out[lo].at == cs[lo].at
    && out[lo].End() == cs[hi - 1].End()
    && out[lo].free
    && (forall j | lo < j < |out| :: out[j] == cs[j + (hi - lo - 1)])
  }

  // `Free` chunk by chunk
  lemma FreeShape(cs: seq<Chunk>, total: nat, k: nat)
    requires WellFormed(cs, total)
    requires k < |cs| && !cs[k].free
    ensures Joined(cs, Free(cs, k), MergeLow(cs, k), MergeHigh(cs, k))
  {
    MergedRun(cs, total, k);
  }

  lemma FreeKeepsWellFormed(cs: seq<Chunk>, total: nat, k: nat)
    requires WellFormed(cs, total)
    requires k < |cs| && !cs[k].free
    ensures WellFormed(Free(cs, k), total)
  {
    MergedRun(cs, total, k);
    FreeShape(cs, total, k);
    var lo, d := MergeLow(cs, k), MergeHigh(cs, k) - MergeLow(cs, k) - 1;
    var out := Free(cs, k);
    forall i | 0 <= i < |out| - 1
      ensures Touch(out, i) && NotBothFree(out, i)
    {
      if i < lo {
        assert Touch(cs, i) && NotBothFree(cs, i);
      } else {
        assert Touch(cs, i + d) && NotBothFree(cs, i + d);
      }
    }
  }

  /** A block released right after it was allocated leaves no trace. */
  lemma FreeUndoesAlloc(cs: seq<Chunk>, total: nat, n: nat)
    requires WellFormed(cs, total)
    requires Alloc(cs, n).Some?
    ensures var a := Alloc(cs, n).value;
            a.index < |a.cs| && !a.cs[a.index].free && Free(a.cs, a.index) == cs
  {
    var i := FirstFit(cs, n, 0);
    var out := SplitAt(cs, i, n);
    assert out[i + 1].free && out[i + 1].End() == cs[i].End();
    if i > 0 {
      assert NotBothFree(cs, i - 1);
    }
    assert MergeLow(out, i) == i && MergeHigh(out, i) == i + 2;
    assert Merged(out, i, i + 2) == cs[i];
    assert out[..i] == cs[..i] && out[i + 2..] == cs[i + 1..];
  }

  // -------------------------------------------------------------- conservation

  function FreeWords(cs: seq<Chunk>): nat {
    if cs == [] then 0
    else FreeWords(cs[..|cs| - 1]) + if cs[|cs| - 1].free then cs[|cs| - 1].len else 0
  }

  function LiveWords(cs: seq<Chunk>): nat {
    if cs == [] then 0
    else LiveWords(cs[..|cs| - 1]) + if cs[|cs| - 1].free then 0 else cs[|cs| - 1].len
  }

  /** Every word of the heap is free payload, live payload or header. */
  lemma {:induction false} Conservation(cs: seq<Chunk>, total: nat)
    requires Tiles(cs, total)
    ensures FreeWords(cs) + LiveWords(cs) + HEADER * |cs| == total
    decreases |cs|
  {
    var init := cs[..|cs| - 1];
    if init == [] {
      assert FreeWords(init) == 0 && LiveWords(init) == 0;
    } else {
      forall i | 0 <= i < |init| - 1
        ensures Touch(init, i)
      {
        assert Touch(cs, i);
      }
      assert Touch(cs, |cs| - 2);
      Conservation(init, init[|init| - 1].End());
    }
  }

  // ---------------------------------------------------------------- whole runs

  ghost function LiveAts(cs: seq<Chunk>): set<nat> {
    set i | 0 <= i < |cs| && !cs[i].free :: cs[i].at
  }

  lemma LiveMember(cs: seq<Chunk>, i: nat)
    requires i < |cs|
    ensures !cs[i].free ==> cs[i].at in LiveAts(cs)
  {
  }

  ghost function LiveIndex(cs: seq<Chunk>, at: nat): (k: nat)
    requires at in LiveAts(cs)
    ensures k < |cs| && !cs[k].free && cs[k].at == at
  {
    var k :| 0 <= k < |cs| && !cs[k].free && cs[k].at == at; k
  }

  lemma FreeAddsNone(cs: seq<Chunk>, total: nat, k: nat, a: nat)
    requires WellFormed(cs, total)
    requires k < |cs| && !cs[k].free
    requires a in LiveAts(Free(cs, k))
    ensures a in LiveAts(cs) && a != cs[k].at
  {
    FreeShape(cs, total, k);
    var lo, d := MergeLow(cs, k), MergeHigh(cs, k) - MergeLow(cs, k) - 1;
    var j := LiveIndex(Free(cs, k), a);
    var i := if j < lo then j else j + d;
    assert Free(cs, k)[j] == cs[i] && i != k;
    LiveMember(cs, i);
    AtsDiffer(cs, total, i, k);
  }

  lemma FreeKeepsOthers(cs: seq<Chunk>, total: nat, k: nat, a: nat)
    requires WellFormed(cs, total)
    requires k < |cs| && !cs[k].free
    requires a in LiveAts(cs) && a != cs[k].at
    ensures a in LiveAts(Free(cs, k)) && cs[LiveIndex(cs, a)] in Free(cs, k)
  {
    MergedRun(cs, total, k);
    FreeShape(cs, total, k);
    var lo, d := MergeLow(cs, k), MergeHigh(cs, k) - MergeLow(cs, k) - 1;
    var i := LiveIndex(cs, a);
    var j := if i < lo then i else i - d;
    assert Free(cs, k)[j] == cs[i];
    LiveMember(Free(cs, k), j);
  }

  lemma AtsDiffer(cs: seq<Chunk>, total: nat, i: nat, j: nat)
    requires Tiles(cs, total)
    requires i < |cs| && j < |cs| && i != j
    ensures cs[i].at != cs[j].at
  {
    TilesAddress(cs, total, if i < j then i else j, if i < j then j else i);
  }

  lemma FreeReleasesOne(cs: seq<Chunk>, total: nat, k: nat)
    requires WellFormed(cs, total)
    requires k < |cs| && !cs[k].free
    ensures LiveAts(Free(cs, k)) == LiveAts(cs) - {cs[k].at}
  {
    forall a | a in LiveAts(Free(cs, k))
      ensures a in LiveAts(cs) && a != cs[k].at
    {
      FreeAddsNone(cs, total, k, a);
    }
    forall a | a in LiveAts(cs) && a != cs[k].at
      ensures a in LiveAts(Free(cs, k))
    {
      FreeKeepsOthers(cs, total, k, a);
    }
  }

  lemma AllocAddsOne(cs: seq<Chunk>, total: nat, n: nat)
    requires WellFormed(cs, total)
    requires Alloc(cs, n).Some?
    ensures var a := Alloc(cs, n).value;
            a.index < |a.cs| && a.cs[a.index].at !in LiveAts(cs)
            && LiveAts(a.cs) == LiveAts(cs) + {a.cs[a.index].at}
  {
    var i := FirstFit(cs, n, 0);
    var out := SplitAt(cs, i, n);
    TilesOrdered(cs, total);
    forall a | a in LiveAts(cs)
      ensures a != cs[i].at
    {
      var j := LiveIndex(cs, a);
    }
    forall a | a in LiveAts(out)
      ensures a in LiveAts(cs) + {cs[i].at}
    {
      var j := LiveIndex(out, a);
      assert j < i ==> out[j] == cs[j];
      assert j >= i + 2 ==> out[j] == cs[j - 1];
    }
    forall a | a in LiveAts(cs)
      ensures a in LiveAts(out)
    {
      var j := LiveIndex(cs, a);
      assert out[if j < i then j else j + 1] == cs[j];
    }
    assert out[i].at in LiveAts(out);
  }

  /** Releases the blocks whose headers stand at `order`, first to last. */
  ghost function FreeAll(cs: seq<Chunk>, order: seq<nat>): seq<Chunk>
    decreases |order|
  {
    if order == [] || order[0] !in LiveAts(cs) then cs
    else FreeAll(Free(cs, LiveIndex(cs, order[0])), order[1..])
  }

  /** Whatever the order, releasing all live blocks restores the single initial chunk. */
  lemma {:induction false} FreeAllRestores(cs: seq<Chunk>, total: nat, order: seq<nat>)
    requires WellFormed(cs, total)
    requires forall i, j | 0 <= i < j < |order| :: order[i] != order[j]
    requires forall a :: a in order <==> a in LiveAts(cs)
    ensures total >= HEADER && FreeAll(cs, order) == [Chunk(0, total - HEADER, true)]
    decreases |order|
  {
    if order == [] {
      forall i | 0 <= i < |cs|
        ensures cs[i].free
      {
        LiveMember(cs, i);
      }
      assert |cs| > 1 ==> NotBothFree(cs, 0);
    } else {
      assert order[0] in order;
      var k := LiveIndex(cs, order[0]);
      FreeKeepsWellFormed(cs, total, k);
      FreeReleasesOne(cs, total, k);
      var rest := order[1..];
      forall a
        ensures a in rest <==> a in LiveAts(Free(cs, k))
      {
        if a in order && a != order[0] {
          var j :| 0 <= j < |order| && order[j] == a;
          assert rest[j - 1] == a;
        }
      }
      FreeAllRestores(Free(cs, k), total, rest);
    }
  }

  datatype Op = Allocate(n: nat) | Release(at: nat)

  /** One call; a call that cannot succeed ends the program, so it has no next layout. */
  ghost function Step(cs: seq<Chunk>, op: Op): Option<seq<Chunk>> {
    match op
    case Allocate(n) => if Alloc(cs, n).Some? then Some(Alloc(cs, n).value.cs) else None
    case Release(at) => if at in LiveAts(cs) then Some(Free(cs, LiveIndex(cs, at))) else None
  }

  ghost function Run(cs: seq<Chunk>, ops: seq<Op>): Option<seq<Chunk>>
    decreases |ops|
  {
    if ops == [] then Some(cs)
    else if Step(cs, ops[0]).None? then None
    else Run(Step(cs, ops[0]).value, ops[1..])
  }

  /** From boot on, every run keeps the layout well formed and conserves every word. */
  lemma {:induction false} RunKeepsWellFormed(cs: seq<Chunk>, total: nat, ops: seq<Op>)
    requires WellFormed(cs, total)
    requires Run(cs, ops).Some?
    ensures var out := Run(cs, ops).value;
            WellFormed(out, total) && FreeWords(out) + LiveWords(out) + HEADER * |out| == total
    decreases |ops|
  {
    if ops == [] {
      Conservation(cs, total);
    } else {
      match ops[0] {
        case Allocate(n) => AllocKeepsWellFormed(cs, total, n);
        case Release(at) => FreeKeepsWellFormed(cs, total, LiveIndex(cs, at));
      }
      RunKeepsWellFormed(Step(cs, ops[0]).value, total, ops[1..]);
    }
  }
}
