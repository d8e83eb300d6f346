/**
 `HashTable` and `HashMap`: a SortedSet ordered by hash first and by value second.

 The hash function and the order of the values are parameters.  Nothing is asked of the
 hash beyond giving equal values equal hashes, so every theorem covers all collisions.
 */
module HashTable {
  import opened Wrappers
  import opened SortedSeq
  import SortedSet

  type u32 = x: int | 0 <= x < 0x1_0000_0000

  // HashTable::Node
  datatype Slot<T> = Slot(hash: u32, value: T)

  predicate SlotLess<T>(below: (T, T) -> bool, a: Slot<T>, b: Slot<T>) {
    if a.hash < b.hash then true
    else if b.hash < a.hash then false
    else below(a.value, b.value)
  }

  function Order<T>(below: (T, T) -> bool): (Slot<T>, Slot<T>) -> bool {
    (a, b) => SlotLess(below, a, b)
  }

  ghost predicate Respects<T(!new)>(hash: T -> u32, below: (T, T) -> bool) {
    forall x, y :: Same(below, x, y) ==> hash(x) == hash(y)
  }

  /** Every element carries its own hash. */
  ghost predicate Hashed<T>(hash: T -> u32, s: seq<Slot<T>>) {
    forall x | x in s :: x.hash == hash(x.value)
  }

  lemma OrderIsStrictWeak<T(!new)>(below: (T, T) -> bool)
    requires StrictWeakOrder(below)
    ensures StrictWeakOrder(Order(below))
  {
  }

  // Two slots compare equal exactly when their values do.
  lemma SlotsSame<T(!new)>(hash: T -> u32, below: (T, T) -> bool, x: T, y: T)
    requires Respects(hash, below)
    ensures Same(Order(below), Slot(hash(x), x), Slot(hash(y), y)) <==> Same(below, x, y)
  {
  }

  class HashTable<T(!new)> {
    const hash: T -> u32
    const below: (T, T) -> bool
    const items: SortedSet.SortedSet<Slot<T>>

    ghost predicate Valid()
      reads this, items, items.root, items.repr
    {
      && StrictWeakOrder(below) && Respects(hash, below)
      && items.less == Order(below)
      && items.Valid()
      && Hashed(hash, items.Contents())
    }

    ghost predicate Has(value: T)
      reads this, items
    {
      exists x | x in items.Contents() :: Same(below, x.value, value)
    }

    constructor (hash: T -> u32, below: (T, T) -> bool)
      requires StrictWeakOrder(below) && Respects(hash, below)
      ensures Valid() && this.hash == hash && this.below == below
      ensures items.Contents() == [] && fresh(items) && items.repr == {}
    {
      OrderIsStrictWeak(below);
      this.hash, this.below := hash, below;
      items := new SortedSet.SortedSet(Order(below));
    }

    method Insert(value: T)
      requires Valid()
      modifies items, items.repr
      ensures Valid() && fresh(items.repr - old(items.repr))
      ensures forall x :: x in items.Contents() <==>
                x == Slot(hash(value), value) || (x in old(items.Contents()) && !Same(below, x.value, value))
      ensures |items.Contents()| == old(|items.Contents()| + if Has(value) then 0 else 1)
    {
      ghost var s := items.Contents();
      InsertSorted(items.less, s, Slot(hash(value), value));
      HasIff(value);
      forall x | x in s
        ensures Same(items.less, x, Slot(hash(value), value)) <==> Same(below, x.value, value)
      {
        SlotsSame(hash, below, x.value, value);
      }
      var _ := items.Insert(Slot(hash(value), value));
    }

    method Search(value: T) returns (found: Option<T>)
      requires Valid()
      ensures found.Some? <==> Has(value)
      ensures found.Some? ==> Slot(hash(value), found.value) in items.Contents() && Same(below, found.value, value)
    {
      HasIff(value);
      ghost var s, probe := items.Contents(), Slot(hash(value), value);
      var node := items.Search(Slot(hash(value), value));
      if node == null {
        return None;
      }
      SlotsSame(hash, below, s[Rank(items.less, s, probe)].value, value);
      return Some(node.value.value);
    }

    method Remove(value: T)
      requires Valid()
      modifies items, items.repr
      ensures Valid() && items.repr <= old(items.repr)
      ensures forall x :: x in items.Contents() <==> x in old(items.Contents()) && !Same(below, x.value, value)
      ensures |items.Contents()| == old(|items.Contents()| - if Has(value) then 1 else 0)
    {
      ghost var s := items.Contents();
      RemoveSorted(items.less, s, Slot(hash(value), value));
      HasIff(value);
      forall x | x in s
        ensures Same(items.less, x, Slot(hash(value), value)) <==> Same(below, x.value, value)
      {
        SlotsSame(hash, below, x.value, value);
      }
      items.Remove(Slot(hash(value), value));
    }

    /** The table is ordered by hash first, and by value among equal hashes. */
    lemma ByHash(i: nat, j: nat)
      requires Valid() && i < j < |items.Contents()|
      ensures var a, b := items.Contents()[i], items.Contents()[j];
              hash(a.value) <= hash(b.value) && (hash(a.value) == hash(b.value) ==> below(a.value, b.value))
    {
      assert items.Contents()[i] in items.Contents() && items.Contents()[j] in items.Contents();
    }

    lemma HasIff(value: T)
      requires Valid()
      ensures Has(value) <==> Contains(items.less, items.Contents(), Slot(hash(value), value))
    {
      ContainsIff(items.less, items.Contents(), Slot(hash(value), value));
      forall x | x in items.Contents()
        ensures Same(items.less, x, Slot(hash(value), value)) <==> Same(below, x.value, value)
      {
        SlotsSame(hash, below, x.value, value);
      }
    }
  }
}

module HashMap {
  import opened Wrappers
  import opened SortedSeq
  import opened HashTable

  // HashMap::Node: compared and hashed by its key alone
  datatype Entry<K, V> = Entry(key: K, value: Option<V>)

  /** Irreflexive, transitive, and any two different keys are ordered */
  ghost predicate StrictTotalOrder<K(!new)>(below: (K, K) -> bool) {
    && StrictWeakOrder(below)
    && (forall x, y :: x == y || below(x, y) || below(y, x))
  }

  predicate KeyLess<K, V>(below: (K, K) -> bool, a: Entry<K, V>, b: Entry<K, V>) {
    below(a.key, b.key)
  }

  function EntryLess<K, V>(below: (K, K) -> bool): (Entry<K, V>, Entry<K, V>) -> bool {
    (a: Entry<K, V>, b: Entry<K, V>) => KeyLess(below, a, b)
  }

  function EntryHash<K, V>(hash: K -> u32): Entry<K, V> -> u32 {
    (e: Entry<K, V>) => hash(e.key)
  }

  lemma EntriesOrdered<K(!new), V(!new)>(hash: K -> u32, below: (K, K) -> bool)
    requires StrictTotalOrder(below)
    ensures StrictWeakOrder<Entry<K, V>>(EntryLess(below))
    ensures Respects<Entry<K, V>>(EntryHash(hash), EntryLess(below))
    ensures forall x: Entry<K, V>, y: Entry<K, V> :: Same(EntryLess(below), x, y) <==> x.key == y.key
  {
    var less := EntryLess<K, V>(below);
    assert forall a, b :: less(a, b) == KeyLess(below, a, b);
    forall x: Entry<K, V>, y: Entry<K, V>
      ensures Same(less, x, y) <==> x.key == y.key
    {
      assert Same(less, x, y) <==> !KeyLess(below, x, y) && !KeyLess(below, y, x);
    }
  }

  /** The table holds exactly the pairs of the map m. */
  ghost predicate Represents<K(!new), V(!new)>(s: seq<Slot<Entry<K, V>>>, m: map<K, V>) {
    && (forall x | x in s :: x.value.value.Some? && x.value.key in m && m[x.value.key] == x.value.value.value)
    && (forall k | k in m :: exists x :: x in s && x.value.key == k)
  }

  lemma SetRepresents<K(!new), V(!new)>(s: seq<Slot<Entry<K, V>>>, m: map<K, V>, s': seq<Slot<Entry<K, V>>>, added: Slot<Entry<K, V>>)
    requires Represents(s, m) && added.value.value.Some?
    requires forall x :: x in s' <==> x == added || (x in s && x.value.key != added.value.key)
    ensures Represents(s', m[added.value.key := added.value.value.value])
  {
    var m' := m[added.value.key := added.value.value.value];
    forall k | k in m'
      ensures exists x :: x in s' && x.value.key == k
    {
      if k == added.value.key {
        assert added in s';
      } else {
        var x :| x in s && x.value.key == k;
        assert x in s';
      }
    }
  }

  lemma RemoveRepresents<K(!new), V(!new)>(s: seq<Slot<Entry<K, V>>>, m: map<K, V>, s': seq<Slot<Entry<K, V>>>, key: K)
    requires Represents(s, m)
    requires forall x :: x in s' <==> x in s && x.value.key != key
    ensures Represents(s', m - {key})
  {
    forall k | k in m - {key}
      ensures exists x :: x in s' && x.value.key == k
    {
      var x :| x in s && x.value.key == k;
      assert x in s';
    }
  }

  ghost function Keys<K, V>(s: seq<Slot<Entry<K, V>>>): set<K> {
    set x | x in s :: x.value.key
  }

  lemma KeysDiffer<K(!new), V(!new)>(hash: K -> u32, below: (K, K) -> bool, x: Slot<Entry<K, V>>, y: Slot<Entry<K, V>>)
    requires StrictTotalOrder(below) && SlotLess(EntryLess(below), x, y)
    requires x.hash == hash(x.value.key) && y.hash == hash(y.value.key)
    ensures x.value.key != y.value.key
  {
  }

  // No key is stored twice, so the size of the table is the size of the map.
  lemma {:induction false} KeysCount<K(!new), V(!new)>(hash: K -> u32, below: (K, K) -> bool, s: seq<Slot<Entry<K, V>>>)
    requires StrictTotalOrder(below) && Sorted(Order(EntryLess(below)), s)
    requires Hashed(EntryHash(hash), s)
    ensures |Keys(s)| == |s|
  {
    hide StrictTotalOrder, SlotLess;
    if s != [] {
      var n := |s| - 1;
      var rest, last := s[..n], s[n];
      KeysCount(hash, below, rest);
      assert forall x | x in rest :: SlotLess(EntryLess(below), x, last);
      assert last.value.key !in Keys(rest) by {
        forall x | x in rest
          ensures x.value.key != last.value.key
        {
          KeysDiffer(hash, below, x, last);
        }
      }
      assert s == rest + [last];
      assert Keys(s) == Keys(rest) + {last.value.key};
    }
  }

  class HashMap<K(!new), V(!new)> {
    ghost const hash: K -> u32
    ghost const below: (K, K) -> bool
    const table: HashTable<Entry<K, V>>
    ghost var pairs: map<K, V>

    ghost predicate Valid()
      reads this, table, table.items, table.items.root, table.items.repr
    {
      && StrictTotalOrder(below)
      && table.hash == EntryHash(hash) && table.below == EntryLess(below)
      && table.Valid()
      && Represents(table.items.Contents(), pairs)
    }

    constructor (hash: K -> u32, below: (K, K) -> bool)
      requires StrictTotalOrder(below)
      ensures Valid() && pairs == map[]
      ensures fresh(table) && fresh(table.items) && table.items.repr == {}
    {
      EntriesOrdered<K, V>(hash, below);
      this.hash, this.below, pairs := hash, below, map[];
      table := new HashTable(EntryHash(hash), EntryLess(below));
    }

    // The table has an entry for the key exactly when the map has.
    lemma HasKey(key: K)
      requires Valid()
      ensures forall v :: table.Has(Entry(key, v)) <==> key in pairs
    {
    }

    method Set(key: K, value: V)
      requires Valid()
      modifies this, table.items, table.items.repr
      ensures Valid() && pairs == old(pairs)[key := value]
      ensures fresh(table.items.repr - old(table.items.repr))
    {
      hide StrictWeakOrder, Represents, Respects, Hashed;
      EntriesOrdered<K, V>(hash, below);
      ghost var s := table.items.Contents();
      table.Insert(Entry(key, Some(value)));
      SetRepresents(s, pairs, table.items.Contents(), Slot(hash(key), Entry(key, Some(value))));
      pairs := pairs[key := value];
    }

    method Get(key: K) returns (value: Option<V>)
      requires Valid()
      ensures value == if key in pairs then Some(pairs[key]) else None
    {
      HasKey(key);
      var entry := table.Search(Entry(key, None));
      if entry.None? {
        return None;
      }
      // Optional::value() asserts that there is one.
      assert entry.value.value.Some?;
      return entry.value.value;
    }

    method Remove(key: K)
      requires Valid()
      modifies this, table.items, table.items.repr
      ensures Valid() && pairs == old(pairs) - {key}
      ensures table.items.repr <= old(table.items.repr)
    {
      hide StrictWeakOrder, Represents, Respects, Hashed;
      EntriesOrdered<K, V>(hash, below);
      ghost var s := table.items.Contents();
      table.Remove(Entry(key, None));
      RemoveRepresents(s, pairs, table.items.Contents(), key);
      pairs := pairs - {key};
    }

    method Size() returns (n: nat)
      requires Valid()
      ensures n == |pairs|
    {
      n := table.items.size;
      KeysCount(hash, below, table.items.Contents());
      assert Keys(table.items.Contents()) == pairs.Keys;
    }
  }
}
