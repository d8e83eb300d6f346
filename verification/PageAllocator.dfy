/**
 `PageAllocator`: free lists threaded through the blocks themselves.

 `memory` is the RAM from address 0 on, a word at a time; the first word of a free block is
 its m_next.  The ghost fields hold the lists of PageLayout.dfy.  A block must be able to
 hold its m_next, so powers below 2 are excluded.
 */
module PageAllocator {
  import opened Wrappers
  import opened PageLayout

  type Word = x: int | 0 <= x < USIZE

  // The chain of m_next that starts at head visits exactly the blocks in list.
  ghost predicate Linked(m: seq<Word>, head: int, list: seq<nat>)
    decreases list
  {
    if list == [] then head == 0
    else
      && head == list[0] && 0 < list[0] && list[0] % 4 == 0 && list[0] / 4 < |m|
      && Linked(m, m[list[0] / 4], list[1..])
  }

  lemma {:induction false} LinkedFrame(m: seq<Word>, m': seq<Word>, head: int, list: seq<nat>)
    requires Linked(m, head, list) && |m'| == |m|
    requires forall b | b in list && b / 4 < |m| :: m'[b / 4] == m[b / 4]
    ensures Linked(m', head, list)
    decreases list
  {
    if list != [] {
      LinkedFrame(m, m', m[list[0] / 4], list[1..]);
    }
  }

  // A block of this power can stand at this address.
  predicate Fits(words: nat, power: nat, base: nat) {
    2 <= power <= MAX_POWER && 0 < base && base % 4 == 0 && base + Pow2(power) <= 4 * words
  }

  lemma {:induction false} InCovers(list: seq<nat>, power: nat, b: nat)
    requires b in list
    ensures CoverList(list, power, b) >= 1
    decreases list
  {
    if list[0] != b {
      InCovers(list[1..], power, b);
    }
  }

  lemma {:induction false} FreeCovers(free: seq<seq<nat>>, from: nat, p: nat, b: nat)
    requires from <= p < |free| && b in free[p]
    ensures CoverFree(free, from, b) >= 1
    decreases |free| - from
  {
    if from == p {
      InCovers(free[p], p, b);
    } else {
      FreeCovers(free, from + 1, p, b);
    }
  }

  lemma {:induction false} LiveCovers(live: seq<Range>, i: nat, a: nat)
    requires i < |live|
    ensures CoverLive(live, a) >= Covers(live[i].power, live[i].base, a)
  {
    if i > 0 {
      LiveCovers(live[1..], i - 1, a);
    }
  }

  /** A block has room for its m_next exactly from power 2 on. */
  lemma LinkFits(power: nat)
    ensures Pow2(power) >= 4 <==> power >= 2
  {
    if power >= 2 {
      Pow2OfWord(power);
    } else {
      assert power == 0 || power == 1;
    }
  }

  lemma Pow2OfWord(p: nat)
    requires p >= 2
    ensures Pow2(p) % 4 == 0 && Pow2(p) >= 4
  {
    if p > 2 {
      Pow2OfWord(p - 1);
    } else {
      assert Pow2(2) == 4;
    }
  }

  class PageAllocator {
    const memory: array<Word>
    const blocks: array<Word>   // m_blocks
    ghost var free: seq<seq<nat>>
    ghost var live: seq<Range>

    ghost function View(): Pages
      reads this
    {
      Pages(free, live)
    }

    ghost predicate Lists()
      reads this, memory, blocks
    {
      && memory != blocks && blocks.Length == MAX_POWER + 1 == |free|
      && 4 * memory.Length <= USIZE
      && (forall p | 0 <= p < |free| :: Linked(memory[..], blocks[p], free[p]))
      && (forall p, b {:trigger b in free[p]} | 0 <= p < |free| && b in free[p] :: Fits(memory.Length, p, b))
      && (forall a: nat :: CoverFree(free, 0, a) <= 1)
    }

    ghost predicate Valid()
      reads this, memory, blocks
    {
      && Lists()
      && (forall i | 0 <= i < |live| :: Fits(memory.Length, live[i].power, live[i].base))
      && (forall a: nat :: Cover(View(), a) <= 1)
    }

    method DeallocateLocked(power: nat, base: Word)
      requires Lists() && Fits(memory.Length, power, base)
      requires forall a: nat :: CoverFree(free, 0, a) + Covers(power, base, a) <= 1
      modifies memory, blocks, this`free
      ensures Lists() && free == Push(old(free), Range(power, base))
    {
      ghost var m, lists := memory[..], free;
      memory[base / 4] := blocks[power];
      blocks[power] := base;
      free := Push(free, Range(power, base));
      forall p | 0 <= p < |free|
        ensures Linked(memory[..], blocks[p], free[p])
      {
        forall b | b in lists[p]
          ensures b / 4 != base / 4 && b / 4 < |m|
        {
          FreeCovers(lists, 0, p, b);
        }
        LinkedFrame(m, memory[..], if p == power then memory[base / 4] else blocks[p], lists[p]);
        assert p == power ==> free[p][1..] == lists[p];
      }
      forall a: nat
        ensures CoverFree(free, 0, a) <= 1
      {
        PushCovers(lists, Range(power, base), a);
      }
    }

    // The head of a list is taken off.
    method Pop(power: nat) returns (base: Word)
      requires Lists() && power <= MAX_POWER && blocks[power] != 0
      modifies blocks, this`free
      ensures Lists() && old(free)[power] != [] && free == old(free)[power := old(free)[power][1..]]
      ensures base == old(free)[power][0] && Fits(memory.Length, power, base)
    {
      hide CoverFree, Pow2;
      ghost var lists := free;
      assert Linked(memory[..], blocks[power], free[power]);
      base := blocks[power];
      assert lists[power][0] in lists[power];
      blocks[power] := memory[base / 4];
      free := free[power := free[power][1..]];
      forall p, b | 0 <= p < |free| && b in free[p]
        ensures Fits(memory.Length, p, b)
      {
        assert b in lists[p];
      }
      forall a: nat
        ensures CoverFree(free, 0, a) <= 1
      {
        CoverSet(lists, 0, power, free[power], a);
        TailCovers(lists[power], power, a);
      }
    }

    // None is the ASSERT that a larger block exists.
    method AllocateLocked(power: nat) returns (r: Option<Word>)
      requires Lists() && 2 <= power <= MAX_POWER
      modifies memory, blocks, this`free
      ensures Lists()
      ensures r.None? <==> Alloc(old(free), power).None?
      ensures r.None? ==> free == old(free) && memory[..] == old(memory[..])
      ensures r.Some? ==>
        var t := Alloc(old(free), power).value;
        free == t.free && r.value == t.base && Fits(memory.Length, power, r.value)
      decreases MAX_POWER - power
    {
      hide CoverFree, Covers, Pow2, Linked;
      ghost var lists := free;
      EmptyIsNull(memory[..], blocks[power], free[power]);
      if blocks[power] != 0 {
        var base := Pop(power);
        return Some(base);
      }
      if power == MAX_POWER {   // ASSERT in the source
        return None;
      }
      r := AllocateLocked(power + 1);
      if r.None? {
        return;
      }
      SplitFits(memory.Length, power, r.value);
      AllocIs(lists, power + 1);
      forall a: nat
        ensures CoverFree(free, 0, a) + Covers(power, r.value + Pow2(power), a) <= 1
      {
        AllocCovers(lists, power + 1, a);
        Halves(power, r.value, a);
      }
      DeallocateLocked(power, r.value + Pow2(power));
    }

    method Allocate(power: nat) returns (r: Option<Range>)
      requires Valid() && 2 <= power <= MAX_POWER
      modifies memory, blocks, this`free, this`live
      ensures Valid()
      ensures Step(old(View()), Op.Allocate(power)) == if r.None? then None else Some(View())
      ensures r.None? ==> View() == old(View()) && forall k | power <= k <= MAX_POWER :: free[k] == []
      ensures r.Some? ==> r.value.power == power && live == [r.value] + old(live)
    {
      ghost var s := View();
      var base := AllocateLocked(power);
      AllocIs(s.free, power);
      if base.None? {
        return None;
      }
      r := Some(Range(power, base.value));
      live := [r.value] + live;
      forall a: nat
        ensures Cover(View(), a) <= 1
      {
        StepCovers(s, Op.Allocate(power), a);
      }
    }

    method Deallocate(range: Range, ghost i: nat)
      requires Valid() && i < |live| && live[i] == range
      modifies memory, blocks, this`free, this`live
      ensures Valid()
      ensures Step(old(View()), Op.Release(i)) == Some(View())
    {
      ghost var s := View();
      live := live[..i] + live[i + 1..];
      forall a: nat
        ensures CoverFree(free, 0, a) + Covers(range.power, range.base, a) <= 1
      {
        LiveCovers(s.live, i, a);
        assert Cover(s, a) <= 1;
      }
      DeallocateLocked(range.power, range.base);
      forall a: nat
        ensures Cover(View(), a) <= 1
      {
        StepCovers(s, Op.Release(i), a);
      }
    }

    /** Whoever owns a range may overwrite it: no list goes through it. */
    method Write(address: nat, value: Word, ghost i: nat)
      requires Valid() && i < |live|
      requires address % 4 == 0 && live[i].base <= address && address + 4 <= live[i].End()
      modifies memory
      ensures Valid()
      ensures memory[..] == old(memory[..])[address / 4 := value]
    {
      ghost var m := memory[..];
      memory[address / 4] := value;
      forall p | 0 <= p < |free|
        ensures Linked(memory[..], blocks[p], free[p])
      {
        forall b | b in free[p]
          ensures b / 4 != address / 4
        {
          FreeCovers(free, 0, p, b);
          LiveCovers(live, i, b);
          assert Cover(View(), b) <= 1;
        }
        LinkedFrame(m, memory[..], blocks[p], free[p]);
      }
    }

    // All of m_blocks is null, then the area is divided.
    constructor (memory: array<Word>, blocks: array<Word>, start: nat, end: nat)
      requires memory != blocks && blocks.Length == MAX_POWER + 1
      requires Area(memory.Length, start, end)
      modifies memory, blocks
      ensures Valid() && this.memory == memory && this.blocks == blocks && live == []
      ensures Discovered(View(), start, end)
    {
      this.memory, this.blocks := memory, blocks;
      live := [];
      free := seq(MAX_POWER + 1, _ => []);
      new;
      for p := 0 to blocks.Length
        invariant forall q | 0 <= q < p :: blocks[q] == 0
        invariant live == [] && |free| == MAX_POWER + 1 && forall q | 0 <= q < |free| :: free[q] == []
      {
        blocks[p] := 0;
      }
      NothingFree(free);
      DiscoverBlocks(start, end);
    }

    method DiscoverBlocks(start: nat, end: nat)
      requires Lists() && live == [] && Area(memory.Length, start, end)
      requires forall p | 0 <= p < |free| :: free[p] == []
      modifies memory, blocks, this`free
      ensures Valid() && live == [] && Discovered(View(), start, end)
    {
      hide CoverFree, Above, Digit, Linked, Pow2, Divided, RoundToAlignment, Area, Usable, Aligned;
      AreaFacts(memory.Length, start, end);
      var areaStart: nat := RoundToAlignment(start, PAGE_SIZE);
      ghost var from, length := areaStart, Usable(areaStart, end);
      NothingFree(free);
      NothingDivided(free, from, length);
      var power := MAX_POWER;
      while power >= PAGE_POWER
        invariant PAGE_POWER - 1 <= power <= MAX_POWER && Lists()
        invariant from <= areaStart == from + Above(length, power + 1)
        invariant Divided(free, from, length, power + 1)
        invariant forall a: nat :: CoverFree(free, 0, a) == if from <= a < areaStart then 1 else 0
      {
        AboveStep(length, power);
        DividesFurther(free, from, length, power);
        FitsExactly(memory.Length, start, end, power);
        var blockEnd := (areaStart + Pow2(power)) % USIZE;
        if blockEnd <= end {
          AboveAligned(length, power + 1);
          MultiplesAdd(from, Above(length, power + 1));
          assert areaStart % PAGE_SIZE == 0;   // VERIFY in the source
          ghost var lists := free;
          PageFits(memory.Length, power, areaStart);
          PushCoversAll(lists, power, from, areaStart);
          DeallocateLocked(power, areaStart);
          areaStart := blockEnd;
        }
        power := power - 1;
      }
      AboveStep(length, PAGE_POWER);
      OnlyFree(View());
      DividedAligned(View(), from, length);
    }
  }

  // A piece of the memory, far enough from the top for the address of a block's end not to wrap
  predicate Area(words: nat, start: nat, end: nat) {
    4 * words <= USIZE && 0 < start <= end <= 4 * words && end + Pow2(MAX_POWER) + PAGE_SIZE <= USIZE
  }

  // What the blocks can cover: there is one of each size, and none if not even a page is left
  function Usable(from: nat, end: nat): nat {
    if end < from then 0 else if end - from < Pow2(MAX_POWER + 1) then end - from else Pow2(MAX_POWER + 1) - 1
  }

  /**
   The usable part of the area is divided into contiguous, aligned blocks, one for each
   binary digit of its length; less than a page of it is left over.
   */
  ghost predicate Discovered(s: Pages, start: nat, end: nat) {
    var from := RoundToAlignment(start, PAGE_SIZE);
    from >= 0 && (
      var length := Usable(from, end);
      && Divided(s.free, from, length, PAGE_POWER) && Aligned(s)
      && Partition(s, from, from + Above(length, PAGE_POWER))
      && length - Above(length, PAGE_POWER) < PAGE_SIZE)
  }

  lemma AreaFacts(words: nat, start: nat, end: nat)
    requires Area(words, start, end)
    ensures var from := RoundToAlignment(start, PAGE_SIZE);
            && from % PAGE_SIZE == 0 && 0 < from && end <= 4 * words && Usable(from, end) < Pow2(MAX_POWER + 1)
    ensures Pow2(PAGE_POWER) == PAGE_SIZE
  {
    RoundsUp(start, PAGE_SIZE);
    assert Pow2(8) == 256;
  }

  // The comparison with the end of the area asks for a digit of the usable length.
  lemma FitsExactly(words: nat, start: nat, end: nat, power: nat)
    requires Area(words, start, end) && power <= MAX_POWER
    ensures var from := RoundToAlignment(start, PAGE_SIZE);
            var length := Usable(from, end);
            var blockEnd := from + Above(length, power + 1) + Pow2(power);
            && (blockEnd % USIZE <= end <==> Digit(length, power))
            && (blockEnd % USIZE <= end ==> blockEnd <= end && blockEnd % USIZE == blockEnd)
  {
    hide Above, Digit, Pow2;
    var from := RoundToAlignment(start, PAGE_SIZE);
    var length := Usable(from, end);
    RoundsUp(start, PAGE_SIZE);
    AboveStep(length, power);
    AboveStep(length, power + 1);
    AllOnes(power + 1);
    Pow2Most(power);
  }

  // The digits of 2^20 - 1 are all ones.
  lemma AllOnes(power: nat)
    requires power <= MAX_POWER + 1
    ensures Above(Pow2(MAX_POWER + 1) - 1, power) == Pow2(MAX_POWER + 1) - Pow2(power)
    decreases MAX_POWER + 1 - power
  {
    hide Above, Digit;
    var length := Pow2(MAX_POWER + 1) - 1;
    AboveStep(length, power);
    if power <= MAX_POWER {
      AllOnes(power + 1);
      assert Pow2(power + 1) == 2 * Pow2(power);
    } else {
      AboveNothing(length);
    }
  }

  lemma AboveNothing(length: nat)
    requires length < Pow2(MAX_POWER + 1)
    ensures Above(length, MAX_POWER + 1) == 0
  {
    hide Pow2;
    QuotientIs(length, Pow2(MAX_POWER + 1), 0, length);
    assert length == length / Pow2(MAX_POWER + 1) * Pow2(MAX_POWER + 1) + length % Pow2(MAX_POWER + 1);
  }

  lemma Pow2Most(power: nat)
    requires power <= MAX_POWER
    ensures Pow2(power + 1) == 2 * Pow2(power) && Pow2(power) <= Pow2(MAX_POWER) && 2 * Pow2(MAX_POWER) == Pow2(MAX_POWER + 1)
  {
    if power < MAX_POWER {
      Pow2Grows(power, MAX_POWER);
    }
  }

  lemma DividedAligned(s: Pages, from: nat, length: nat)
    requires Divided(s.free, from, length, PAGE_POWER) && s.live == [] && from % PAGE_SIZE == 0
    ensures Aligned(s)
  {
    hide Above, Digit;
    forall r | Has(s, r) && r.power >= PAGE_POWER
      ensures r.base % PAGE_SIZE == 0
    {
      AboveStep(length, r.power + 1);
      AboveAligned(length, r.power + 1);
      MultiplesAdd(from, Above(length, r.power + 1));
    }
  }

  lemma NothingFree(free: seq<seq<nat>>)
    requires forall p | 0 <= p < |free| :: free[p] == []
    ensures forall a :: CoverFree(free, 0, a) == 0
  {
    forall a: nat
      ensures CoverFree(free, 0, a) == 0
    {
      NothingAt(free, 0, a);
    }
  }

  lemma {:induction false} NothingAt(free: seq<seq<nat>>, from: nat, a: nat)
    requires forall p | 0 <= p < |free| :: free[p] == []
    requires from <= |free|
    ensures CoverFree(free, from, a) == 0
    decreases |free| - from
  {
    if from < |free| {
      NothingAt(free, from + 1, a);
    }
  }

  lemma NothingDivided(free: seq<seq<nat>>, from: nat, length: nat)
    requires |free| == MAX_POWER + 1 && forall p | 0 <= p < |free| :: free[p] == []
    requires length < Pow2(MAX_POWER + 1)
    ensures Above(length, MAX_POWER + 1) == 0 && Divided(free, from, length, MAX_POWER + 1)
  {
    hide Pow2;
    AboveNothing(length);
  }

  lemma PushCoversAll(free: seq<seq<nat>>, power: nat, from: nat, base: nat)
    requires power < |free| && from <= base
    requires forall a: nat :: CoverFree(free, 0, a) == if from <= a < base then 1 else 0
    ensures forall a: nat :: CoverFree(free, 0, a) + Covers(power, base, a) <= 1
    ensures forall a: nat :: CoverFree(Push(free, Range(power, base)), 0, a) == if from <= a < base + Pow2(power) then 1 else 0
  {
    hide CoverFree, Pow2, Push;
    forall a: nat
      ensures CoverFree(Push(free, Range(power, base)), 0, a) == if from <= a < base + Pow2(power) then 1 else 0
    {
      PushCovers(free, Range(power, base), a);
    }
  }

  lemma OnlyFree(s: Pages)
    requires s.live == []
    ensures forall a: nat :: Cover(s, a) == CoverFree(s.free, 0, a)
  {
  }

  lemma AboveAligned(length: nat, power: nat)
    requires power >= PAGE_POWER
    ensures Above(length, power) % PAGE_SIZE == 0
  {
    hide Pow2, Above;
    PageMultiple(power);
    AboveIs(length, power);
    PageTimes(length / Pow2(power), Pow2(power), Pow2(power - PAGE_POWER));
  }

  lemma PageTimes(q: int, m: int, n: int)
    requires m == PAGE_SIZE * n
    ensures (q * m) % PAGE_SIZE == 0
  {
    Regroup(q, PAGE_SIZE, n);
    MultipleMod(PAGE_SIZE, q * n);
  }

  lemma Regroup(x: int, y: int, z: int)
    ensures x * (y * z) == y * (x * z)
  {
  }

  lemma PageFits(words: nat, power: nat, base: nat)
    requires PAGE_POWER <= power <= MAX_POWER && 0 < base && base % PAGE_SIZE == 0 && base + Pow2(power) <= 4 * words
    ensures Fits(words, power, base)
  {
  }

  lemma EmptyIsNull(m: seq<Word>, head: int, list: seq<nat>)
    requires Linked(m, head, list)
    ensures head == 0 <==> list == []
  {
  }

  lemma SplitFits(words: nat, power: nat, base: nat)
    requires Fits(words, power + 1, base) && 2 <= power && 4 * words <= USIZE
    ensures Fits(words, power, base) && Fits(words, power, base + Pow2(power)) && base + Pow2(power) < USIZE
  {
    Pow2OfWord(power);
    assert Pow2(power + 1) == 2 * Pow2(power);
    FoursAdd(base, Pow2(power));
  }

  lemma FoursAdd(x: nat, y: nat)
    requires x % 4 == 0 && y % 4 == 0
    ensures (x + y) % 4 == 0
  {
  }

  lemma TailCovers(list: seq<nat>, power: nat, a: nat)
    requires list != []
    ensures CoverList(list[1..], power, a) <= CoverList(list, power, a)
  {
  }
}
