/**
 The memory of `PageAllocator` as free lists, one for each power of two, and the ranges
 that are in use.

 `Alloc` and the push of `Dealloc` are the recursion and the release of the source.  The
 main results are about whole runs: the ranges always cover the same bytes exactly once,
 and the division only ever gets finer.
 */
module PageLayout {
  import opened Wrappers

  const MAX_POWER: nat := 19
  const PAGE_POWER: nat := 8
  const PAGE_SIZE: nat := 256

  datatype Range = Range(power: nat, base: nat) {
    function End(): nat { base + Pow2(power) }
  }

  // m_blocks, head first, and the ranges handed out
  datatype Pages = Pages(free: seq<seq<nat>>, live: seq<Range>)

  datatype Taken = Taken(free: seq<seq<nat>>, base: nat)

  function Pow2(n: nat): (r: nat)
    ensures r > 0
  {
    if n == 0 then 1 else 2 * Pow2(n - 1)
  }

  // allocate_locked.  None is the ASSERT that a larger block exists.
  function Alloc(free: seq<seq<nat>>, p: nat): Option<Taken>
    requires p < |free|
    decreases |free| - p
  {
    if free[p] != [] then Some(Taken(free[p := free[p][1..]], free[p][0]))
    else if p == |free| - 1 then None
    else match Alloc(free, p + 1)
      case None => None
      case Some(t) =>
        if p < |t.free| then Some(Taken(t.free[p := [t.base + Pow2(p)] + t.free[p]], t.base)) else None
  }

  // The least level from p on that has a block
  function Least(free: seq<seq<nat>>, p: nat): (k: nat)
    requires p <= |free|
    ensures p <= k <= |free|
    ensures forall j | p <= j < k :: free[j] == []
    ensures k < |free| ==> free[k] != []
    decreases |free| - p
  {
    if p == |free| || free[p] != [] then p else Least(free, p + 1)
  }

  /**
   The head of the least non-empty level k is returned; one block is left at each level
   from p to k - 1; nothing else changes.  It fails only when no level has a block.
   */
  lemma {:induction false} AllocIs(free: seq<seq<nat>>, p: nat)
    requires p < |free|
    ensures var k := Least(free, p);
            && (Alloc(free, p).None? <==> k == |free|)
            && (k < |free| ==>
                var t := Alloc(free, p).value;
                && |t.free| == |free| && t.base == free[k][0] && t.free[k] == free[k][1..]
                && (forall j | p <= j < k :: t.free[j] == [t.base + Pow2(j)])
                && (forall j | 0 <= j < |free| && !(p <= j <= k) :: t.free[j] == free[j]))
    decreases |free| - p
  {
    if free[p] == [] && p < |free| - 1 {
      AllocIs(free, p + 1);
    }
  }

  // ----------------------------------------------------------------- coverage

  function Covers(power: nat, base: nat, a: nat): nat {
    if base <= a < base + Pow2(power) then 1 else 0
  }

  function CoverList(list: seq<nat>, power: nat, a: nat): nat {
    if list == [] then 0 else Covers(power, list[0], a) + CoverList(list[1..], power, a)
  }

  // Level `from` and the ones above it
  function CoverFree(free: seq<seq<nat>>, from: nat, a: nat): nat
    requires from <= |free|
    decreases |free| - from
  {
    if from == |free| then 0 else CoverList(free[from], from, a) + CoverFree(free, from + 1, a)
  }

  function CoverLive(live: seq<Range>, a: nat): nat {
    if live == [] then 0 else Covers(live[0].power, live[0].base, a) + CoverLive(live[1..], a)
  }

  /** How many ranges, free or in use, contain the byte at a */
  function Cover(s: Pages, a: nat): nat {
    CoverFree(s.free, 0, a) + CoverLive(s.live, a)
  }

  lemma {:induction false} CoverSet(free: seq<seq<nat>>, from: nat, p: nat, list: seq<nat>, a: nat)
    requires from <= p < |free|
    ensures CoverFree(free[p := list], from, a) + CoverList(free[p], p, a) == CoverFree(free, from, a) + CoverList(list, p, a)
    decreases |free| - from
  {
    if from < p {
      CoverSet(free, from + 1, p, list, a);
    } else {
      CoverAbove(free, from + 1, p, list, a);
    }
  }

  lemma {:induction false} CoverAbove(free: seq<seq<nat>>, from: nat, p: nat, list: seq<nat>, a: nat)
    requires p < from <= |free|
    ensures CoverFree(free[p := list], from, a) == CoverFree(free, from, a)
    decreases |free| - from
  {
    if from < |free| {
      CoverAbove(free, from + 1, p, list, a);
    }
  }

  // A block is its two halves.
  lemma Halves(p: nat, base: nat, a: nat)
    ensures Covers(p + 1, base, a) == Covers(p, base, a) + Covers(p, base + Pow2(p), a)
  {
  }

  lemma {:induction false} AllocCovers(free: seq<seq<nat>>, p: nat, a: nat)
    requires p < |free|
    ensures Alloc(free, p).Some? ==>
      var t := Alloc(free, p).value;
      && |t.free| == |free|
      && CoverFree(t.free, 0, a) + Covers(p, t.base, a) == CoverFree(free, 0, a)
    decreases |free| - p
  {
    if free[p] != [] {
      CoverSet(free, 0, p, free[p][1..], a);
    } else if p < |free| - 1 && Alloc(free, p + 1).Some? {
      var t := Alloc(free, p + 1).value;
      AllocIs(free, p + 1);
      AllocCovers(free, p + 1, a);
      CoverSet(t.free, 0, p, [t.base + Pow2(p)] + t.free[p], a);
      Halves(p, t.base, a);
    }
  }

  lemma {:induction false} LiveRemove(live: seq<Range>, i: nat, a: nat)
    requires i < |live|
    ensures CoverLive(live[..i] + live[i + 1..], a) + Covers(live[i].power, live[i].base, a) == CoverLive(live, a)
  {
    var out := live[..i] + live[i + 1..];
    if i == 0 {
      assert out == live[1..];
    } else {
      LiveRemove(live[1..], i - 1, a);
      assert out[1..] == live[1..][..i - 1] + live[1..][i..];
    }
  }

  // -------------------------------------------------------------------- runs

  datatype Op = Allocate(power: nat) | Release(index: nat)

  // deallocate_locked puts the range in front of its list; nothing is merged.
  function Push(free: seq<seq<nat>>, r: Range): seq<seq<nat>>
    requires r.power < |free|
  {
    free[r.power := [r.base] + free[r.power]]
  }

  // None: no such range to release, or no block to allocate
  function Step(s: Pages, op: Op): Option<Pages> {
    match op
    case Allocate(p) =>
      if p >= |s.free| then None
      else (match Alloc(s.free, p)
            case None => None
            case Some(t) => Some(Pages(t.free, [Range(p, t.base)] + s.live)))
    case Release(i) =>
      if i >= |s.live| || s.live[i].power >= |s.free| then None
      else Some(Pages(Push(s.free, s.live[i]), s.live[..i] + s.live[i + 1..]))
  }

  function Run(s: Pages, ops: seq<Op>): Option<Pages>
    decreases |ops|
  {
    if ops == [] then Some(s)
    else match Step(s, ops[0])
      case None => None
      case Some(t) => Run(t, ops[1..])
  }

  lemma PushCovers(free: seq<seq<nat>>, r: Range, a: nat)
    requires r.power < |free|
    ensures CoverFree(Push(free, r), 0, a) == CoverFree(free, 0, a) + Covers(r.power, r.base, a)
  {
    CoverSet(free, 0, r.power, [r.base] + free[r.power], a);
    assert ([r.base] + free[r.power])[1..] == free[r.power];
  }

  lemma StepCovers(s: Pages, op: Op, a: nat)
    ensures Step(s, op).Some? ==> Cover(Step(s, op).value, a) == Cover(s, a)
  {
    match op
    case Allocate(p) =>
      if p < |s.free| && Alloc(s.free, p).Some? {
        AllocCovers(s.free, p, a);
        assert ([Range(p, Alloc(s.free, p).value.base)] + s.live)[1..] == s.live;
      }
    case Release(i) =>
      if i < |s.live| && s.live[i].power < |s.free| {
        var r := s.live[i];
        LiveRemove(s.live, i, a);
        PushCovers(s.free, r, a);
      }
  }

  /** Each byte of lo..hi is in exactly one range, and no other byte is in any. */
  ghost predicate Partition(s: Pages, lo: nat, hi: nat) {
    forall a: nat :: Cover(s, a) == if lo <= a < hi then 1 else 0
  }

  /** Two ranges in use have no byte in common. */
  lemma LiveDisjoint(s: Pages, i: nat, j: nat)
    requires i < j < |s.live| && forall a: nat :: Cover(s, a) <= 1
    ensures var r, q := s.live[i], s.live[j];
            r.base + Pow2(r.power) <= q.base || q.base + Pow2(q.power) <= r.base
  {
    var r, q := s.live[i], s.live[j];
    if q.base < r.base + Pow2(r.power) && r.base < q.base + Pow2(q.power) {
      var a := if r.base < q.base then q.base else r.base;
      SharedByte(s, i, j, a);
    }
  }

  lemma SharedByte(s: Pages, i: nat, j: nat, a: nat)
    requires i < j < |s.live|
    requires Covers(s.live[i].power, s.live[i].base, a) == 1 == Covers(s.live[j].power, s.live[j].base, a)
    ensures Cover(s, a) >= 2
  {
    TwoCover(s.live, i, j, a);
  }

  lemma {:induction false} TwoCover(live: seq<Range>, i: nat, j: nat, a: nat)
    requires i < j < |live| && Covers(live[i].power, live[i].base, a) == 1 == Covers(live[j].power, live[j].base, a)
    ensures CoverLive(live, a) >= 2
  {
    if i == 0 {
      OneCovers(live[1..], j - 1, a);
    } else {
      TwoCover(live[1..], i - 1, j - 1, a);
    }
  }

  lemma {:induction false} OneCovers(live: seq<Range>, i: nat, a: nat)
    requires i < |live| && Covers(live[i].power, live[i].base, a) == 1
    ensures CoverLive(live, a) >= 1
  {
    if i > 0 {
      OneCovers(live[1..], i - 1, a);
    }
  }

  /** No run loses a byte or hands one out twice. */
  lemma {:induction false} RunKeepsPartition(s: Pages, ops: seq<Op>, lo: nat, hi: nat)
    requires Partition(s, lo, hi)
    ensures Run(s, ops).Some? ==> Partition(Run(s, ops).value, lo, hi)
    decreases |ops|
  {
    if ops != [] && Step(s, ops[0]).Some? {
      var t := Step(s, ops[0]).value;
      forall a: nat
        ensures Cover(t, a) == if lo <= a < hi then 1 else 0
      {
        StepCovers(s, ops[0], a);
      }
      RunKeepsPartition(t, ops[1..], lo, hi);
    }
  }

  ghost predicate Has(s: Pages, r: Range) {
    (r.power < |s.free| && r.base in s.free[r.power]) || r in s.live
  }

  ghost predicate Inside(r: Range, q: Range) {
    q.base <= r.base && r.End() <= q.End()
  }

  // t divides the memory at least as finely as s.
  ghost predicate Finer(s: Pages, t: Pages) {
    forall r | Has(t, r) :: exists q :: Has(s, q) && Inside(r, q)
  }

  lemma Pow2Grows(j: nat, k: nat)
    requires j < k
    ensures 2 * Pow2(j) <= Pow2(k)
  {
    if j < k - 1 {
      Pow2Grows(j, k - 1);
    }
  }

  lemma StepFiner(s: Pages, op: Op)
    ensures Step(s, op).Some? ==> Finer(s, Step(s, op).value)
  {
    if Step(s, op).Some? {
      var t := Step(s, op).value;
      forall r | Has(t, r)
        ensures exists q :: Has(s, q) && Inside(r, q)
      {
        if op.Allocate? {
          AllocIs(s.free, op.power);
          var k := Least(s.free, op.power);
          var whole := Range(k, s.free[k][0]);
          assert Has(s, whole);
          if !Has(s, r) {
            if r.power < k {
              Pow2Grows(r.power, k);
            }
            assert Inside(r, whole);
          }
        } else {
          assert Has(s, r) && Inside(r, r);
        }
      }
    }
  }

  lemma {:induction false} RunFiner(s: Pages, ops: seq<Op>)
    ensures Run(s, ops).Some? ==> Finer(s, Run(s, ops).value)
    decreases |ops|
  {
    if ops == [] {
      forall r | Has(s, r)
        ensures exists q :: Has(s, q) && Inside(r, q)
      {
        assert Inside(r, r);
      }
    } else if Step(s, ops[0]).Some? && Run(s, ops).Some? {
      var m := Step(s, ops[0]).value;
      var t := Run(s, ops).value;
      StepFiner(s, ops[0]);
      RunFiner(m, ops[1..]);
      forall r | Has(t, r)
        ensures exists q :: Has(s, q) && Inside(r, q)
      {
        var mid :| Has(m, mid) && Inside(r, mid);
        var q :| Has(s, q) && Inside(mid, q);
        assert Inside(r, q);
      }
    }
  }

  /** Every range of at least a page starts at a page. */
  ghost predicate Aligned(s: Pages) {
    forall r | Has(s, r) && r.power >= PAGE_POWER :: r.base % PAGE_SIZE == 0
  }

  lemma PageMultiple(j: nat)
    requires j >= PAGE_POWER
    ensures Pow2(j) == PAGE_SIZE * Pow2(j - PAGE_POWER) && Pow2(j) % PAGE_SIZE == 0
  {
    if j > PAGE_POWER {
      PageMultiple(j - 1);
      assert Pow2(j) == 2 * Pow2(j - 1) && Pow2(j - PAGE_POWER) == 2 * Pow2(j - 1 - PAGE_POWER);
    } else {
      assert Pow2(8) == 256;
    }
    MultipleMod(PAGE_SIZE, Pow2(j - PAGE_POWER));
  }

  lemma MultiplesAdd(x: nat, y: nat)
    requires y % PAGE_SIZE == 0
    ensures x % PAGE_SIZE == 0 ==> (x + y) % PAGE_SIZE == 0
  {
  }

  lemma StepAligned(s: Pages, op: Op)
    requires Aligned(s)
    ensures Step(s, op).Some? ==> Aligned(Step(s, op).value)
  {
    if Step(s, op).Some? {
      var t := Step(s, op).value;
      forall r | Has(t, r) && r.power >= PAGE_POWER
        ensures r.base % PAGE_SIZE == 0
      {
        if op.Allocate? && !Has(s, r) {
          AllocIs(s.free, op.power);
          var k := Least(s.free, op.power);
          var base := s.free[k][0];
          assert Has(s, Range(k, base)) && k >= r.power;
          assert r.base == base || r.base == base + Pow2(r.power);
          PageMultiple(r.power);
          MultiplesAdd(base, Pow2(r.power));
        }
      }
    }
  }

  lemma {:induction false} RunAligned(s: Pages, ops: seq<Op>)
    requires Aligned(s)
    ensures Run(s, ops).Some? ==> Aligned(Run(s, ops).value)
    decreases |ops|
  {
    if ops != [] && Step(s, ops[0]).Some? {
      StepAligned(s, ops[0]);
      RunAligned(Step(s, ops[0]).value, ops[1..]);
    }
  }

  // ---------------------------------------------------------------- discovery

  const USIZE: int := 0x1_0000_0000

  // (value - 1 + alignment) & -alignment: the mask clears what the alignment does not divide
  function RoundToAlignment(value: nat, alignment: nat): (r: nat)
    requires alignment > 0
  {
    var x := (value - 1 + alignment) % USIZE;
    x - x % alignment
  }

  /**
   The least multiple at or above the value, counted modulo 2^32: the next multiple is
   less than one alignment away, with wrap-around, and without it if it fits.
   */
  lemma RoundsUp(value: nat, alignment: nat)
    requires alignment > 0 && USIZE % alignment == 0 && value < USIZE
    ensures var r := RoundToAlignment(value, alignment);
            && r % alignment == 0 && r < USIZE
            && (value + alignment <= USIZE ==> value <= r < value + alignment)
            && (value + alignment > USIZE ==> r == 0)
  {
    var x := (value - 1 + alignment) % USIZE;
    DivideDown(x, alignment);
    DividesSize(alignment);
    if value + alignment > USIZE {
      assert x == value - 1 + alignment - USIZE;
      assert x < alignment;
    }
  }

  lemma DivideDown(x: nat, n: nat)
    requires n > 0
    ensures (x - x % n) % n == 0 && x - n < x - x % n <= x
    ensures x < n ==> x - x % n == 0
  {
    var q := x / n;
    assert x - x % n == n * q;
    MultipleMod(n, q);
  }

  lemma MultipleMod(n: nat, q: int)
    requires n > 0
    ensures (n * q) % n == 0
  {
    assert n * q == q * n + 0;
    QuotientIs(n * q, n, q, 0);
    assert n * q == n * ((n * q) / n) + (n * q) % n;
  }

  lemma DividesSize(n: nat)
    requires n > 0 && USIZE % n == 0
    ensures n <= USIZE
  {
  }

  // Binary digit `power` of the length
  predicate Digit(length: nat, power: nat) {
    length / Pow2(power) % 2 == 1
  }

  // What is left for the blocks below `power`
  function Above(length: nat, power: nat): int {
    length - length % Pow2(power)
  }

  /** From `level` on, each list holds one block exactly where the length has a binary digit. */
  ghost predicate Divided(free: seq<seq<nat>>, from: nat, length: nat, level: nat) {
    && |free| == MAX_POWER + 1 && level <= |free|
    && (forall p | level <= p < |free| ::
         if Digit(length, p) then |free[p]| == 1 && free[p][0] == from + Above(length, p + 1) else free[p] == [])
    && (forall p | 0 <= p < level :: free[p] == [])
  }

  // The next level down is divided too.
  lemma DividesFurther(free: seq<seq<nat>>, from: nat, length: nat, level: nat)
    requires level < |free| && Divided(free, from, length, level + 1)
    ensures Digit(length, level) && Above(length, level + 1) >= 0 ==> Divided(Push(free, Range(level, from + Above(length, level + 1))), from, length, level)
    ensures !Digit(length, level) ==> Divided(free, from, length, level)
  {
    hide Above, Digit;
  }

  lemma AboveStep(length: nat, power: nat)
    ensures Above(length, power) == Above(length, power + 1) + (if Digit(length, power) then Pow2(power) else 0)
    ensures 0 <= Above(length, power) <= length < Above(length, power) + Pow2(power)
    ensures Digit(length, power) <==> Above(length, power + 1) + Pow2(power) <= length
  {
    var n := Pow2(power);
    AboveIs(length, power);
    AboveIs(length, power + 1);
    assert Pow2(power + 1) == 2 * n;
    HalfQuotient(length, n);
    PairUp(length / n, n);
    hide Pow2;
    Remainder(length, n);
    assert Above(length, power) == length - length % n;
  }

  lemma PairUp(q: nat, n: nat)
    ensures q * n == q / 2 * (2 * n) + (if q % 2 == 1 then n else 0)
  {
    var h := q / 2;
    assert q == 2 * h + q % 2;
    assert (2 * h) * n == h * (2 * n);
    assert (2 * h + q % 2) * n == (2 * h) * n + (q % 2) * n;
  }

  lemma Remainder(x: nat, n: nat)
    requires n > 0
    ensures 0 <= x % n < n
  {
  }

  lemma AboveIs(length: nat, power: nat)
    ensures Above(length, power) == length / Pow2(power) * Pow2(power)
  {
    hide Pow2;
  }

  lemma HalfQuotient(x: nat, n: nat)
    requires n > 0
    ensures x / (2 * n) == (x / n) / 2
  {
    var q, r := x / n, x % n;
    var h := q / 2;
    assert x == q * n + r;
    assert q == 2 * h + q % 2;
    assert x == h * (2 * n) + ((q % 2) * n + r);
    assert 0 <= (q % 2) * n + r < 2 * n;
    QuotientIs(x, 2 * n, h, (q % 2) * n + r);
  }

  lemma QuotientIs(x: int, n: int, q: int, r: int)
    requires n > 0 && x == q * n + r && 0 <= r < n
    ensures x / n == q
  {
    var d := x / n - q;
    assert x == (x / n) * n + x % n;
    assert d * n == r - x % n;
    assert -1 < d < 1 by {
      assert d >= 1 ==> d * n >= n;
      assert d <= -1 ==> d * n <= -n;
    }
  }
}
