/**
 `CircularQueue`: a ring buffer whose index expressions are unsigned and may wrap below
 zero on the way.  It is a double-ended queue of at most `Size` elements.
 */
module CircularQueue {
  const USIZE: int := 0x1_0000_0000

  type usize = x: int | 0 <= x < USIZE

  function Wrap(x: int): usize {
    x % USIZE
  }

  // m_offset - m_size + index + Size, each operation modulo 2^32
  function Position(offset: usize, size: usize, index: usize, capacity: usize): usize
    requires capacity > 0
  {
    Wrap(Wrap(Wrap(offset - size) + index) + capacity) % capacity
  }

  // Where element `index` stands
  function Slot(offset: int, size: int, index: int, capacity: int): (r: int)
    requires 0 <= offset < capacity && 0 <= size <= capacity && 0 <= index < capacity
    ensures 0 <= r < capacity
  {
    var sum := offset - size + index;
    if sum < 0 then sum + capacity else if sum < capacity then sum else sum - capacity
  }

  lemma ModOnce(x: int, n: int)
    requires 0 < n && 0 <= x < 2 * n
    ensures x % n == if x < n then x else x - n
  {
    var q, r := x / n, x % n;
    assert x == n * q + r && 0 <= r < n;
    assert n * q == if x < n then 0 else n by {
      assert q < 2 by { assert q >= 2 ==> n * q >= n * 2; }
      assert q > -1;
    }
  }

  lemma WrapOnce(x: int)
    requires -USIZE <= x < 2 * USIZE
    ensures Wrap(x) == if x < 0 then x + USIZE else if x < USIZE then x else x - USIZE
  {
  }

  /**
   The wrap-around below zero always cancels.  What remains is an overflow at the top, which
   a buffer of at most 2^31 elements cannot reach.
   */
  lemma PositionIsExact(offset: usize, size: usize, index: usize, capacity: usize)
    requires offset < capacity && size <= capacity && index < capacity && index <= size
    ensures Position(offset, size, index, capacity) == Slot(offset, size, index, capacity)
            <==> offset - size + index + capacity < USIZE
    ensures 2 * capacity <= USIZE ==> offset - size + index + capacity < USIZE
  {
    var sum := offset - size + index + capacity;
    WrapOnce(offset - size);
    WrapOnce(Wrap(offset - size) + index);
    WrapOnce(Wrap(Wrap(offset - size) + index) + capacity);
    ModOnce(if sum < USIZE then sum else sum - USIZE, capacity);
  }

  // m_offset - m_size - 1 + Size
  function FrontPosition(offset: usize, size: usize, capacity: usize): usize
    requires capacity > 0
  {
    Wrap(Wrap(Wrap(offset - size) - 1) + capacity) % capacity
  }

  lemma FrontPositionIsExact(offset: usize, size: usize, capacity: usize)
    requires offset < capacity && size < capacity && 2 * capacity <= USIZE
    ensures FrontPosition(offset, size, capacity) == Slot(offset, size + 1, 0, capacity)
  {
    WrapOnce(offset - size);
    WrapOnce(Wrap(offset - size) - 1);
    WrapOnce(Wrap(Wrap(offset - size) - 1) + capacity);
    ModOnce(offset - size - 1 + capacity, capacity);
  }

  // m_offset - 1 + Size
  function BackPosition(offset: usize, capacity: usize): usize
    requires capacity > 0
  {
    Wrap(Wrap(offset - 1) + capacity) % capacity
  }

  lemma BackPositionIsExact(offset: usize, size: usize, capacity: usize)
    requires offset < capacity && 0 < size <= capacity && 2 * capacity <= USIZE
    ensures BackPosition(offset, capacity) == Slot(offset, size, size - 1, capacity)
  {
    WrapOnce(offset - 1);
    WrapOnce(Wrap(offset - 1) + capacity);
    ModOnce(offset - 1 + capacity, capacity);
  }

  // In front of the first element is room for one more.
  lemma SlotShift(offset: int, size: int, i: int, capacity: int)
    requires 0 <= offset < capacity && 0 <= size < capacity && 0 <= i < size
    ensures Slot(offset, size + 1, i + 1, capacity) == Slot(offset, size, i, capacity)
    ensures Slot(offset, size, i, capacity) != Slot(offset, size + 1, 0, capacity)
  {
  }

  class CircularQueue<T(0)> {
    const data: array<T>
    var offset: usize
    var size: usize

    ghost predicate Valid()
      reads this
    {
      0 < data.Length && 2 * data.Length <= USIZE && offset < data.Length && size <= data.Length
    }

    ghost function At(i: nat): T
      reads this, data
      requires Valid() && i < data.Length
    {
      data[Slot(offset, size, i, data.Length)]
    }

    ghost function Contents(): (s: seq<T>)
      reads this, data
      requires Valid()
      ensures |s| == size
    {
      seq(size, i requires 0 <= i < size reads this, data requires Valid() && size <= data.Length => At(i))
    }

    constructor (capacity: usize)
      requires 0 < capacity && 2 * capacity <= USIZE
      ensures Valid() && Contents() == [] && data.Length == capacity && fresh(data)
    {
      data := new T[capacity];
      offset, size := 0, 0;
    }

    method Enqueue(value: T)
      requires Valid() && size < data.Length   // ASSERT in the source
      modifies this, data
      ensures Valid() && Contents() == old(Contents()) + [value]
    {
      data[offset] := value;
      ModOnce(offset + 1, data.Length);
      offset := Wrap(offset + 1) % data.Length;
      size := size + 1;
    }

    method EnqueueFront(value: T)
      requires Valid() && size < data.Length   // ASSERT in the source
      modifies this, data
      ensures Valid() && Contents() == [value] + old(Contents())
    {
      FrontPositionIsExact(offset, size, data.Length);
      ghost var was := Contents();
      data[FrontPosition(offset, size, data.Length)] := value;
      size := size + 1;
      forall i | 0 <= i < |was|
        ensures Contents()[i + 1] == was[i]
      {
        SlotShift(offset, size - 1, i, data.Length);
      }
    }

    method Get(index: usize) returns (value: T)
      requires Valid() && index < size   // ASSERT in the source
      ensures value == Contents()[index]
    {
      PositionIsExact(offset, size, index, data.Length);
      value := data[Position(offset, size, index, data.Length)];
    }

    method Front() returns (value: T)
      requires Valid() && size > 0   // ASSERT in the source
      ensures value == Contents()[0]
    {
      PositionIsExact(offset, size, 0, data.Length);
      value := data[Position(offset, size, 0, data.Length)];
    }

    method Back() returns (value: T)
      requires Valid() && size > 0   // ASSERT in the source
      ensures value == Contents()[size - 1]
    {
      BackPositionIsExact(offset, size, data.Length);
      value := data[BackPosition(offset, data.Length)];
    }

    method Dequeue() returns (value: T)
      requires Valid() && size > 0
      modifies this`size
      ensures Valid() && old(Contents()) == [value] + Contents()
    {
      value := Front();
      size := size - 1;
    }

    method Clear()
      requires Valid()
      modifies this`size
      ensures Valid() && Contents() == []
    {
      var count := size;
      var i := 0;
      while i < count
        invariant 0 <= i <= count && size == count - i && offset == old(offset)
      {
        size := size - 1;
        i := i + 1;
      }
    }

    // operator=(CircularQueue&&)
    method Assign(other: CircularQueue<T>)
      requires Valid() && other.Valid() && other.data.Length == data.Length
      requires this != other && data != other.data
      modifies this, data, other`size
      ensures Valid() && other.Valid()
      ensures Contents() == old(other.Contents()) && other.Contents() == []
    {
      Clear();
      var count := other.size;
      var i := 0;
      while i < count
        invariant 0 <= i <= count && Valid() && other.Valid()
        invariant other.size == count - i && other.offset == old(other.offset)
        invariant Contents() + other.Contents() == old(other.Contents())
      {
        ghost var front := Contents();
        var value := other.Dequeue();
        Enqueue(value);
        Regroup(front, value, other.Contents());
        i := i + 1;
      }
      assert other.size == 0;   // ASSERT in the source
    }
  }

  lemma Regroup<T>(a: seq<T>, x: T, b: seq<T>)
    ensures (a + [x]) + b == a + ([x] + b)
  {
  }
}
