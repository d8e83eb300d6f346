/**
 What `SortedSet` stores, without pointers.

 A set is the strictly increasing sequence of its elements under an arbitrary strict weak
 order, so elements that compare equal may still differ.  `Insert` and `Remove` on such
 sequences are the reference; `Put` and `Take` are the tree algorithms of SortedSet.hpp.
 */
module SortedSeq {

  ghost predicate StrictWeakOrder<T(!new)>(less: (T, T) -> bool) {
    && (forall x :: !less(x, x))
    && (forall x, y, z :: less(x, y) && less(y, z) ==> less(x, z))
    // being incomparable is transitive
    && (forall x, y, z :: less(x, z) ==> less(x, y) || less(y, z))
  }

  ghost predicate Sorted<T>(less: (T, T) -> bool, s: seq<T>) {
    forall i, j | 0 <= i < j < |s| :: less(s[i], s[j])
  }

  predicate Same<T>(less: (T, T) -> bool, x: T, y: T) {
    !less(x, y) && !less(y, x)
  }

  /** How many leading elements are below v */
  function Rank<T>(less: (T, T) -> bool, s: seq<T>, v: T): (i: nat)
    ensures i <= |s|
    ensures forall j | 0 <= j < i :: less(s[j], v)
    ensures i < |s| ==> !less(s[i], v)
  {
    if s == [] || !less(s[0], v) then 0 else 1 + Rank(less, s[1..], v)
  }

  predicate Contains<T>(less: (T, T) -> bool, s: seq<T>, v: T) {
    var i := Rank(less, s, v);
    i < |s| && !less(v, s[i])
  }

  // An element that compares equal is overwritten.
  function Insert<T>(less: (T, T) -> bool, s: seq<T>, v: T): seq<T> {
    var i := Rank(less, s, v);
    if Contains(less, s, v) then s[i := v] else s[..i] + [v] + s[i..]
  }

  function Remove<T>(less: (T, T) -> bool, s: seq<T>, v: T): seq<T> {
    var i := Rank(less, s, v);
    if Contains(less, s, v) then s[..i] + s[i + 1..] else s
  }

  lemma RankIs<T(!new)>(less: (T, T) -> bool, s: seq<T>, v: T, i: nat)
    requires StrictWeakOrder(less) && Sorted(less, s)
    requires i <= |s|
    requires i > 0 ==> less(s[i - 1], v)
    requires i < |s| ==> !less(s[i], v)
    ensures Rank(less, s, v) == i
  {
    forall j | 0 <= j < i
      ensures less(s[j], v)
    {
      if j < i - 1 {
        assert less(s[j], s[i - 1]);
      }
    }
  }

  /** Contains means what it says. */
  lemma ContainsIff<T(!new)>(less: (T, T) -> bool, s: seq<T>, v: T)
    requires StrictWeakOrder(less) && Sorted(less, s)
    ensures Contains(less, s, v) <==> exists x | x in s :: Same(less, x, v)
  {
    if x :| x in s && Same(less, x, v) {
      var j :| 0 <= j < |s| && s[j] == x;
      assert j > 0 ==> less(s[j - 1], s[j]);
      RankIs(less, s, v, j);
    }
    if Contains(less, s, v) {
      assert Same(less, s[Rank(less, s, v)], v);
    }
  }

  lemma InsertSorted<T(!new)>(less: (T, T) -> bool, s: seq<T>, v: T)
    requires StrictWeakOrder(less) && Sorted(less, s)
    ensures Sorted(less, Insert(less, s, v))
    ensures |Insert(less, s, v)| == |s| + if Contains(less, s, v) then 0 else 1
    ensures forall x :: x in Insert(less, s, v) <==> x == v || (x in s && !Same(less, x, v))
  {
    var i := Rank(less, s, v);
    var out := Insert(less, s, v);
    forall j | i < j < |s|
      ensures less(v, s[j])
    {
      assert less(s[i], s[j]);
    }
    var d := if Contains(less, s, v) then 0 else 1;
    assert out[i] == v;
    assert forall j | 0 <= j < i :: out[j] == s[j];
    assert forall j | i < j < |out| :: out[j] == s[j - d];
    forall x
      ensures x in out <==> x == v || (x in s && !Same(less, x, v))
    {
      if x in s && !Same(less, x, v) {
        var j :| 0 <= j < |s| && s[j] == x;
        assert out[if j < i then j else j + d] == x;
      }
    }
  }

  lemma RemoveSorted<T(!new)>(less: (T, T) -> bool, s: seq<T>, v: T)
    requires StrictWeakOrder(less) && Sorted(less, s)
    ensures Sorted(less, Remove(less, s, v))
    ensures |Remove(less, s, v)| == |s| - if Contains(less, s, v) then 1 else 0
    ensures forall x :: x in Remove(less, s, v) <==> x in s && !Same(less, x, v)
  {
    var i := Rank(less, s, v);
    var out := Remove(less, s, v);
    ContainsIff(less, s, v);
    if Contains(less, s, v) {
      assert forall j | 0 <= j < i :: out[j] == s[j];
      assert forall j | i <= j < |out| :: out[j] == s[j + 1];
      forall j | i < j < |s|
        ensures less(v, s[j])
      {
        assert less(s[i], s[j]);
      }
      forall x
        ensures x in out <==> x in s && !Same(less, x, v)
      {
        if x in s && !Same(less, x, v) {
          var j :| 0 <= j < |s| && s[j] == x;
          assert out[if j < i then j else j - 1] == x;
        }
      }
    }
  }

  lemma RemoveAbsent<T>(less: (T, T) -> bool, s: seq<T>, v: T)
    requires !Contains(less, s, v)
    ensures Remove(less, s, v) == s
  {
  }

  // A sorted sequence around a pivot, as a tree node sees it
  lemma RankAround<T(!new)>(less: (T, T) -> bool, a: seq<T>, x: T, b: seq<T>, v: T)
    requires StrictWeakOrder(less) && Sorted(less, a + [x] + b)
    ensures Sorted(less, a) && Sorted(less, b)
    ensures Rank(less, a + [x] + b, v) ==
            if less(v, x) then Rank(less, a, v)
            else if less(x, v) then |a| + 1 + Rank(less, b, v)
            else |a|
  {
    var s := a + [x] + b;
    assert s[..|a|] == a && s[|a| + 1..] == b && s[|a|] == x;
    var i := if less(v, x) then Rank(less, a, v) else if less(x, v) then |a| + 1 + Rank(less, b, v) else |a|;
    if less(v, x) {
      assert i < |a| ==> s[i] == a[i];
      assert i > 0 ==> s[i - 1] == a[i - 1];
    } else if less(x, v) {
      assert i > |a| + 1 ==> s[i - 1] == b[i - 1 - |a| - 1];
      assert i < |s| ==> s[i] == b[i - |a| - 1];
    } else if i > 0 {
      assert less(s[i - 1], s[i]);
    }
    RankIs(less, s, v, i);
  }

  lemma SortedAround<T>(less: (T, T) -> bool, a: seq<T>, x: T, b: seq<T>)
    requires Sorted(less, a + [x] + b)
    ensures Sorted(less, a) && Sorted(less, b)
    ensures forall y | y in a :: less(y, x)
    ensures forall y | y in b :: less(x, y)
  {
    var s := a + [x] + b;
    assert s[..|a|] == a && s[|a| + 1..] == b && s[|a|] == x;
    forall y | y in b
      ensures less(x, y)
    {
      var j :| 0 <= j < |b| && b[j] == y;
      assert s[|a| + 1 + j] == y;
    }
  }

  lemma CutLeft<T>(a: seq<T>, x: T, b: seq<T>, i: nat, v: T)
    requires i <= |a|
    ensures var s := a + [x] + b;
            && s[i] == (if i < |a| then a[i] else x)
            && s[..i] + [v] + s[i..] == (a[..i] + [v] + a[i..]) + [x] + b
            && (i < |a| ==> s[i := v] == a[i := v] + [x] + b)
            && (i < |a| ==> s[..i] + s[i + 1..] == (a[..i] + a[i + 1..]) + [x] + b)
  {
  }

  lemma CutRight<T>(a: seq<T>, x: T, b: seq<T>, i: nat, v: T)
    requires i <= |b|
    ensures var s, k := a + [x] + b, |a| + 1 + i;
            && (i < |b| ==> s[k] == b[i])
            && s[..k] + [v] + s[k..] == a + [x] + (b[..i] + [v] + b[i..])
            && (i < |b| ==> s[k := v] == a + [x] + b[i := v])
            && (i < |b| ==> s[..k] + s[k + 1..] == a + [x] + (b[..i] + b[i + 1..]))
  {
  }

  lemma CutMiddle<T>(a: seq<T>, x: T, b: seq<T>)
    ensures var s := a + [x] + b;
            s[|a|] == x && s[..|a|] + s[|a| + 1..] == a + b
  {
  }

  lemma InsertAround<T(!new)>(less: (T, T) -> bool, a: seq<T>, x: T, b: seq<T>, v: T)
    requires StrictWeakOrder(less) && Sorted(less, a + [x] + b)
    ensures Insert(less, a + [x] + b, v) ==
            if less(v, x) then Insert(less, a, v) + [x] + b
            else if less(x, v) then a + [x] + Insert(less, b, v)
            else a + [v] + b
  {
    hide StrictWeakOrder, Sorted, Rank;
    RankAround(less, a, x, b, v);
    if less(v, x) {
      CutLeft(a, x, b, Rank(less, a, v), v);
    } else if less(x, v) {
      CutRight(a, x, b, Rank(less, b, v), v);
    }
  }

  lemma RemoveAround<T(!new)>(less: (T, T) -> bool, a: seq<T>, x: T, b: seq<T>, v: T)
    requires StrictWeakOrder(less) && Sorted(less, a + [x] + b)
    ensures Remove(less, a + [x] + b, v) ==
            if less(v, x) then Remove(less, a, v) + [x] + b
            else if less(x, v) then a + [x] + Remove(less, b, v)
            else a + b
  {
    hide StrictWeakOrder, Sorted, Rank;
    RankAround(less, a, x, b, v);
    if less(v, x) {
      CutLeft(a, x, b, Rank(less, a, v), v);
    } else if less(x, v) {
      CutRight(a, x, b, Rank(less, b, v), v);
    } else {
      CutMiddle(a, x, b);
    }
  }
}

module SortedTree {
  import opened SortedSeq

  class Node<T> {
    var value: T
    var left: Node?<T>
    var right: Node?<T>
    var parent: Node?<T>

    constructor (value: T)
      ensures this.value == value && left == null && right == null && parent == null
    {
      this.value := value;
      left, right, parent := null, null, null;
    }
  }

  datatype Tree<T> = Nil | Bin(left: Tree<T>, node: Node<T>, value: T, right: Tree<T>)

  datatype Cell<T> = Cell(value: T, left: Node?<T>, right: Node?<T>, parent: Node?<T>)

  ghost function Top<T>(t: Tree<T>): Node?<T> {
    if t.Nil? then null else t.node
  }

  ghost function Nodes<T>(t: Tree<T>): set<Node<T>> {
    if t.Nil? then {} else Nodes(t.left) + {t.node} + Nodes(t.right)
  }

  ghost predicate Distinct<T>(t: Tree<T>) {
    t.Bin? ==>
      && Distinct(t.left) && Distinct(t.right)
      && t.node !in Nodes(t.left) && t.node !in Nodes(t.right)
      && Nodes(t.left) !! Nodes(t.right)
  }

  function Inorder<T>(t: Tree<T>): seq<T> {
    if t.Nil? then [] else Inorder(t.left) + [t.value] + Inorder(t.right)
  }

  /** What the fields of node n must hold for the heap to be this tree under `parent` */
  ghost function CellOf<T>(t: Tree<T>, parent: Node?<T>, n: Node<T>): Cell<T>
    requires n in Nodes(t)
  {
    if n == t.node then Cell(t.value, Top(t.left), Top(t.right), parent)
    else if n in Nodes(t.left) then CellOf(t.left, t.node, n)
    else CellOf(t.right, t.node, n)
  }

  // ------------------------------------------------------------------ search

  ghost function Find<T>(less: (T, T) -> bool, t: Tree<T>, v: T): Tree<T> {
    if t.Nil? then Nil
    else if less(v, t.value) then Find(less, t.left, v)
    else if less(t.value, v) then Find(less, t.right, v)
    else t
  }

  // The last node passed on the way
  ghost function FindParent<T>(less: (T, T) -> bool, t: Tree<T>, v: T, parent: Node?<T>): Node?<T> {
    if t.Nil? then parent
    else if less(v, t.value) then FindParent(less, t.left, v, t.node)
    else if less(t.value, v) then FindParent(less, t.right, v, t.node)
    else parent
  }

  lemma FindContains<T(!new)>(less: (T, T) -> bool, t: Tree<T>, v: T)
    requires StrictWeakOrder(less) && Sorted(less, Inorder(t))
    ensures Find(less, t, v).Bin? <==> Contains(less, Inorder(t), v)
    ensures Find(less, t, v).Bin? ==>
              && Find(less, t, v).node in Nodes(t)
              && Find(less, t, v).value == Inorder(t)[Rank(less, Inorder(t), v)]
  {
    if t.Bin? {
      RankAround(less, Inorder(t.left), t.value, Inorder(t.right), v);
      FindContains(less, t.left, v);
      FindContains(less, t.right, v);
    }
  }

  lemma {:induction false} FindCell<T>(less: (T, T) -> bool, t: Tree<T>, v: T, p: Node?<T>)
    requires Distinct(t) && Find(less, t, v).Bin?
    ensures var f := Find(less, t, v);
            && f.node in Nodes(t)
            && (var cell := CellOf(t, p, f.node);
                && cell.value == f.value && cell.left == Top(f.left) && cell.right == Top(f.right)
                && cell.parent == FindParent(less, t, v, p))
  {
    if less(v, t.value) {
      FindCell(less, t.left, v, t.node);
    } else if less(t.value, v) {
      FindCell(less, t.right, v, t.node);
    }
  }

  // The parent that a search reports does not depend on where it started, below the top.
  lemma {:induction false} FindParentIn<T>(less: (T, T) -> bool, t: Tree<T>, v: T, p: Node?<T>, q: Node?<T>)
    requires t.Bin?
    ensures Find(less, t, v) == t || (FindParent(less, t, v, p) == FindParent(less, t, v, q) && FindParent(less, t, v, p) in Nodes(t))
    ensures Find(less, t, v) == t ==> FindParent(less, t, v, p) == p
  {
    if less(v, t.value) {
      FindSmaller(less, t.left, v);
      if t.left.Bin? {
        FindParentIn(less, t.left, v, t.node, t.node);
      }
    } else if less(t.value, v) {
      FindSmaller(less, t.right, v);
      if t.right.Bin? {
        FindParentIn(less, t.right, v, t.node, t.node);
      }
    }
  }

  lemma FindSmaller<T>(less: (T, T) -> bool, t: Tree<T>, v: T)
    ensures Find(less, t, v) == t || Find(less, t, v) < t
  {
  }

  // ------------------------------------------------------------------ insert

  ghost function Put<T>(less: (T, T) -> bool, t: Tree<T>, v: T, n: Node<T>): Tree<T> {
    if t.Nil? then Bin(Nil, n, v, Nil)
    else if less(v, t.value) then t.(left := Put(less, t.left, v, n))
    else if less(t.value, v) then t.(right := Put(less, t.right, v, n))
    else t.(value := v)
  }

  lemma PutIsInsert<T(!new)>(less: (T, T) -> bool, t: Tree<T>, v: T, n: Node<T>)
    requires StrictWeakOrder(less) && Sorted(less, Inorder(t))
    ensures Inorder(Put(less, t, v, n)) == Insert(less, Inorder(t), v)
  {
    if t.Bin? {
      SortedAround(less, Inorder(t.left), t.value, Inorder(t.right));
      InsertAround(less, Inorder(t.left), t.value, Inorder(t.right), v);
      if less(v, t.value) {
        PutIsInsert(less, t.left, v, n);
      } else if less(t.value, v) {
        PutIsInsert(less, t.right, v, n);
      }
    }
  }

  lemma {:induction false} PutNodes<T>(less: (T, T) -> bool, t: Tree<T>, v: T, f: Node<T>)
    requires Distinct(t) && (Find(less, t, v).Nil? ==> f !in Nodes(t))
    ensures var out := Put(less, t, v, f);
            && Distinct(out)
            && Nodes(out) == Nodes(t) + (if Find(less, t, v).Nil? then {f} else {})
            && Top(out) == (if t.Bin? then Top(t) else f)
  {
    if t.Bin? && less(v, t.value) {
      PutNodes(less, t.left, v, f);
    } else if t.Bin? && less(t.value, v) {
      PutNodes(less, t.right, v, f);
    }
  }

  // Overwriting changes the value of one node.
  lemma {:induction false} PutOverwrites<T>(less: (T, T) -> bool, t: Tree<T>, v: T, f: Node<T>, parent: Node?<T>, n: Node<T>)
    requires Distinct(t)
    requires Find(less, t, v).Bin? && n in Nodes(t)
    ensures n in Nodes(Put(less, t, v, f))
    ensures CellOf(Put(less, t, v, f), parent, n) ==
            if n == Find(less, t, v).node then CellOf(t, parent, n).(value := v) else CellOf(t, parent, n)
  {
    PutNodes(less, t, v, f);
    FindIn(less, t, v);
    if less(v, t.value) {
      PutNodes(less, t.left, v, f);
      FindIn(less, t.left, v);
      if n in Nodes(t.left) {
        PutOverwrites(less, t.left, v, f, t.node, n);
      }
    } else if less(t.value, v) {
      PutNodes(less, t.right, v, f);
      FindIn(less, t.right, v);
      if n in Nodes(t.right) {
        PutOverwrites(less, t.right, v, f, t.node, n);
      }
    }
  }

  lemma FindIn<T>(less: (T, T) -> bool, t: Tree<T>, v: T)
    ensures Find(less, t, v).Bin? ==> Find(less, t, v).node in Nodes(t)
    ensures forall parent :: t.Bin? && Find(less, t, v).Nil? ==> FindParent(less, t, v, parent) in Nodes(t)
  {
  }

  // The side on which a new element belongs is free.
  lemma {:induction false} HangsWhere<T>(less: (T, T) -> bool, t: Tree<T>, v: T, parent: Node?<T>)
    requires Distinct(t) && Find(less, t, v).Nil? && t.Bin?
    ensures var p := FindParent(less, t, v, parent);
            && p != null && p in Nodes(t)
            && var cell := CellOf(t, parent, p);
               if less(v, cell.value) then cell.left == null else less(cell.value, v) && cell.right == null
  {
    var sub := if less(v, t.value) then t.left else t.right;
    if sub.Bin? {
      HangsWhere(less, sub, v, t.node);
    }
  }

  // Inserting a new element hangs one leaf below the last node of the search.
  lemma {:induction false} PutHangs<T>(less: (T, T) -> bool, t: Tree<T>, v: T, f: Node<T>, parent: Node?<T>, n: Node<T>)
    requires Distinct(t) && f !in Nodes(t)
    requires Find(less, t, v).Nil? && t.Bin? && (n in Nodes(t) || n == f)
    ensures n in Nodes(Put(less, t, v, f))
    ensures var p := FindParent(less, t, v, parent);
            && p != null && p in Nodes(t)
            && CellOf(Put(less, t, v, f), parent, n) ==
               if n == f then Cell(v, null, null, p)
               else
                 var cell := CellOf(t, parent, n);
                 if n != p then cell else if less(v, cell.value) then cell.(left := f) else cell.(right := f)
  {
    PutNodes(less, t, v, f);
    FindIn(less, t, v);
    var sub := if less(v, t.value) then t.left else t.right;
    PutNodes(less, sub, v, f);
    FindIn(less, sub, v);
    if sub.Bin? {
      PutHangs(less, sub, v, f, t.node, if n in Nodes(sub) then n else f);
    }
  }

  // ------------------------------------------------------------------ remove

  ghost function Min<T>(t: Tree<T>): (m: Tree<T>)
    requires t.Bin?
    ensures m.Bin? && m.left.Nil?
  {
    if t.left.Nil? then t else Min(t.left)
  }

  ghost function MinParent<T>(t: Tree<T>, parent: Node?<T>): Node?<T>
    requires t.Bin?
  {
    if t.left.Nil? then parent else MinParent(t.left, t.node)
  }

  ghost function DropMin<T>(t: Tree<T>): Tree<T>
    requires t.Bin?
  {
    if t.left.Nil? then t.right else t.(left := DropMin(t.left))
  }

  // Removing the element at the top of t
  ghost function TakeTop<T>(t: Tree<T>): Tree<T>
    requires t.Bin?
  {
    if t.left.Nil? then t.right
    else if t.right.Nil? then t.left
    else Bin(t.left, t.node, Min(t.right).value, DropMin(t.right))
  }

  ghost function Take<T>(less: (T, T) -> bool, t: Tree<T>, v: T): Tree<T> {
    if t.Nil? then Nil
    else if less(v, t.value) then t.(left := Take(less, t.left, v))
    else if less(t.value, v) then t.(right := Take(less, t.right, v))
    else TakeTop(t)
  }

  lemma InorderMin<T>(t: Tree<T>)
    requires t.Bin?
    ensures Inorder(t) == [Min(t).value] + Inorder(DropMin(t))
  {
  }

  lemma {:induction false} TakeIsRemove<T(!new)>(less: (T, T) -> bool, t: Tree<T>, v: T)
    requires StrictWeakOrder(less) && Sorted(less, Inorder(t))
    ensures Inorder(Take(less, t, v)) == Remove(less, Inorder(t), v)
  {
    if t.Bin? {
      SortedAround(less, Inorder(t.left), t.value, Inorder(t.right));
      RemoveAround(less, Inorder(t.left), t.value, Inorder(t.right), v);
      if less(v, t.value) {
        TakeIsRemove(less, t.left, v);
      } else if less(t.value, v) {
        TakeIsRemove(less, t.right, v);
      } else if t.right.Bin? {
        InorderMin(t.right);
      }
    }
  }

  // A cell after node x, with only child c and parent p, was cut out
  ghost function Unlinked<T>(cell: Cell<T>, n: Node<T>, x: Node<T>, c: Node?<T>, p: Node?<T>): Cell<T> {
    Cell(cell.value,
         if cell.left == x then c else cell.left,
         if cell.right == x then c else cell.right,
         if n == c then p else cell.parent)
  }

  lemma CellParent<T>(t: Tree<T>, p: Node?<T>, q: Node?<T>, n: Node<T>)
    requires n in Nodes(t)
    ensures CellOf(t, q, n) == if n == t.node then CellOf(t, p, n).(parent := q) else CellOf(t, p, n)
  {
  }

  lemma TopIn<T>(t: Tree<T>)
    ensures t.Bin? ==> Top(t) in Nodes(t)
  {
  }

  lemma {:induction false} ChildIn<T>(t: Tree<T>, p: Node?<T>, n: Node<T>)
    requires Distinct(t) && n in Nodes(t)
    ensures CellOf(t, p, n).left == null || CellOf(t, p, n).left in Nodes(t) - {t.node}
    ensures CellOf(t, p, n).right == null || CellOf(t, p, n).right in Nodes(t) - {t.node}
    ensures n != t.node ==> CellOf(t, p, n).parent != null && CellOf(t, p, n).parent in Nodes(t)
  {
    if n == t.node {
    } else if n in Nodes(t.left) {
      ChildIn(t.left, t.node, n);
    } else {
      ChildIn(t.right, t.node, n);
    }
  }

  lemma {:induction false} MinFacts<T>(t: Tree<T>, parent: Node?<T>)
    requires t.Bin? && Distinct(t)
    ensures var m := Min(t);
            && m.node in Nodes(t) && Distinct(DropMin(t)) && Nodes(DropMin(t)) == Nodes(t) - {m.node}
            && (m.right.Bin? ==> Top(m.right) in Nodes(t) && Top(m.right) != m.node)
            && CellOf(t, parent, m.node) == Cell(m.value, null, Top(m.right), MinParent(t, parent))
            && (t.left.Bin? ==> MinParent(t, parent) in Nodes(t) - {m.node} && m.node in Nodes(t.left))
  {
    if t.left.Bin? {
      MinFacts(t.left, t.node);
    }
  }

  lemma {:induction false} DropMinCells<T>(t: Tree<T>, parent: Node?<T>, n: Node<T>)
    requires t.Bin? && Distinct(t) && n in Nodes(DropMin(t))
    ensures n in Nodes(t)
    ensures CellOf(DropMin(t), parent, n) == Unlinked(CellOf(t, parent, n), n, Min(t).node, Top(Min(t).right), MinParent(t, parent))
  {
    MinFacts(t, parent);
    if t.left.Nil? {
      ChildIn(t.right, t.node, n);
      CellParent(t.right, t.node, parent, n);
    } else {
      MinFacts(t.left, t.node);
      if n in Nodes(DropMin(t.left)) {
        DropMinCells(t.left, t.node, n);
      } else if n in Nodes(t.right) {
        ChildIn(t.right, t.node, n);
      }
    }
  }

  // remove_impl is called on the node that holds the element or, when that node has two
  // children, on the least node of its right subtree.
  predicate HasTwo<T>(t: Tree<T>) {
    t.Bin? && t.left.Bin? && t.right.Bin?
  }

  ghost function Victim<T>(f: Tree<T>): (x: Tree<T>)
    requires f.Bin?
    ensures x.Bin? && (x.left.Nil? || x.right.Nil?)
  {
    if HasTwo(f) then Min(f.right) else f
  }

  ghost function VictimParent<T>(f: Tree<T>, parent: Node?<T>): Node?<T>
    requires f.Bin?
  {
    if HasTwo(f) then MinParent(f.right, f.node) else parent
  }

  ghost function OnlyChild<T>(x: Tree<T>): Node?<T>
    requires x.Bin?
  {
    if x.left.Nil? then Top(x.right) else Top(x.left)
  }

  // The cell of n after the element at the top of f, whose parent is fp, was removed
  ghost function Removed<T>(f: Tree<T>, fp: Node?<T>, cell: Cell<T>, n: Node<T>): Cell<T>
    requires f.Bin?
  {
    var u := Unlinked(cell, n, Victim(f).node, OnlyChild(Victim(f)), VictimParent(f, fp));
    if n == f.node && HasTwo(f) then u.(value := Victim(f).value) else u
  }

  lemma TakeTopFacts<T>(t: Tree<T>)
    requires t.Bin? && Distinct(t)
    ensures var x, c := Victim(t).node, OnlyChild(Victim(t));
            && x in Nodes(t) && (c == null || c in Nodes(t) - {x})
            && Distinct(TakeTop(t)) && Nodes(TakeTop(t)) == Nodes(t) - {x}
            && Top(TakeTop(t)) == if t.node == x then c else t.node
  {
    TopIn(t.left);
    TopIn(t.right);
    if HasTwo(t) {
      MinFacts(t.right, t.node);
    }
  }

  lemma TakeTopCells<T>(t: Tree<T>, parent: Node?<T>, n: Node<T>)
    requires t.Bin? && Distinct(t) && n in Nodes(TakeTop(t))
    ensures n in Nodes(t)
    ensures CellOf(TakeTop(t), parent, n) == Removed(t, parent, CellOf(t, parent, n), n)
  {
    TakeTopFacts(t);
    if HasTwo(t) {
      MinFacts(t.right, t.node);
      if n == t.node {
        TopIn(t.left);
        DropMinTop(t.right);
      } else if n in Nodes(t.left) {
        ChildIn(t.left, t.node, n);
      } else {
        DropMinCells(t.right, t.node, n);
      }
    } else {
      var only := if t.left.Nil? then t.right else t.left;
      ChildIn(only, t.node, n);
      CellParent(only, t.node, parent, n);
    }
  }

  lemma DropMinTop<T>(t: Tree<T>)
    requires t.Bin? && Distinct(t)
    ensures Top(DropMin(t)) == if Min(t).node == t.node then Top(Min(t).right) else t.node
  {
    if t.left.Bin? {
      MinFacts(t.left, null);
    }
  }

  lemma {:induction false} TakeFacts<T>(less: (T, T) -> bool, t: Tree<T>, v: T)
    requires Distinct(t) && Find(less, t, v).Bin?
    ensures var f := Find(less, t, v);
            var x, c, out := Victim(f).node, OnlyChild(Victim(f)), Take(less, t, v);
            && f.node in Nodes(t) && Distinct(f) && x in Nodes(t) && (c == null || c in Nodes(t) - {x})
            && Distinct(out) && Nodes(out) == Nodes(t) - {x}
            && Top(out) == if t.node == x then c else t.node
  {
    if less(v, t.value) {
      TakeFacts(less, t.left, v);
    } else if less(t.value, v) {
      TakeFacts(less, t.right, v);
    } else {
      TakeTopFacts(t);
    }
  }

  lemma {:induction false} TakeCells<T>(less: (T, T) -> bool, t: Tree<T>, v: T, parent: Node?<T>, n: Node<T>)
    requires Distinct(t) && Find(less, t, v).Bin? && n in Nodes(Take(less, t, v))
    ensures n in Nodes(t)
    ensures CellOf(Take(less, t, v), parent, n) ==
            Removed(Find(less, t, v), FindParent(less, t, v, parent), CellOf(t, parent, n), n)
  {
    TakeFacts(less, t, v);
    if !less(v, t.value) && !less(t.value, v) {
      TakeTopCells(t, parent, n);
    } else {
      var sub := if less(v, t.value) then t.left else t.right;
      var other := if less(v, t.value) then t.right else t.left;
      TakeFacts(less, sub, v);
      TopIn(other);
      if n in Nodes(Take(less, sub, v)) {
        TakeCells(less, sub, v, t.node, n);
      } else if n in Nodes(other) {
        ChildIn(other, t.node, n);
      }
    }
  }

  // A node is the child of no node but its parent.
  lemma {:induction false} ChildParent<T>(t: Tree<T>, p: Node?<T>, n: Node<T>)
    requires Distinct(t) && n in Nodes(t)
    ensures var cell := CellOf(t, p, n);
            && (cell.left != null ==> cell.left in Nodes(t) && CellOf(t, p, cell.left).parent == n)
            && (cell.right != null ==> cell.right in Nodes(t) && CellOf(t, p, cell.right).parent == n)
            && (cell.left != null ==> cell.left != cell.right)
  {
    TopIn(t.left);
    TopIn(t.right);
    if n == t.node {
    } else if n in Nodes(t.left) {
      ChildIn(t.left, t.node, n);
      ChildParent(t.left, t.node, n);
    } else {
      ChildIn(t.right, t.node, n);
      ChildParent(t.right, t.node, n);
    }
  }

  // The subtree found is part of the tree, cell by cell.
  lemma {:induction false} FindCells<T>(less: (T, T) -> bool, t: Tree<T>, v: T, p: Node?<T>, n: Node<T>)
    requires Distinct(t) && n in Nodes(Find(less, t, v))
    ensures n in Nodes(t)
    ensures CellOf(t, p, n) == CellOf(Find(less, t, v), FindParent(less, t, v, p), n)
  {
    if less(v, t.value) {
      FindCells(less, t.left, v, t.node, n);
    } else if less(t.value, v) {
      FindCells(less, t.right, v, t.node, n);
    }
  }

  // The parent of the subtree found lies outside of it.
  lemma {:induction false} FindOutside<T>(less: (T, T) -> bool, t: Tree<T>, v: T, p: Node?<T>)
    requires Distinct(t) && Find(less, t, v).Bin?
    ensures Nodes(Find(less, t, v)) <= Nodes(t) && Distinct(Find(less, t, v))
    ensures Find(less, t, v) != t ==> FindParent(less, t, v, p) in Nodes(t) - Nodes(Find(less, t, v))
    ensures Find(less, t, v) != t ==>
      var cell := CellOf(t, p, FindParent(less, t, v, p));
      cell.left == Find(less, t, v).node || cell.right == Find(less, t, v).node
  {
    var sub := if less(v, t.value) then t.left else t.right;
    if less(v, t.value) || less(t.value, v) {
      FindOutside(less, sub, v, t.node);
      FindSmaller(less, sub, v);
      FindParentIn(less, sub, v, t.node, t.node);
    }
  }

  lemma {:induction false} MinOutside<T>(t: Tree<T>, p: Node?<T>)
    requires t.Bin? && Distinct(t)
    ensures t.left.Bin? ==>
      && MinParent(t, p) in Nodes(t) - Nodes(Min(t))
      && CellOf(t, p, MinParent(t, p)).left == Min(t).node
    ensures Nodes(Min(t)) <= Nodes(t) && Distinct(Min(t))
  {
    if t.left.Bin? {
      MinOutside(t.left, t.node);
    }
  }

  /** What remove_impl finds at the node it cuts out */
  lemma VictimFacts<T>(less: (T, T) -> bool, t: Tree<T>, v: T, p: Node?<T>)
    requires Distinct(t) && Find(less, t, v).Bin?
    ensures var f := Find(less, t, v);
            var x, px := Victim(f), VictimParent(f, FindParent(less, t, v, p));
            && x.node in Nodes(t)
            && CellOf(t, p, x.node) == Cell(x.value, Top(x.left), Top(x.right), px)
            && (if f == t && !HasTwo(f) then px == p && x == t
                else
                  && px != null && px in Nodes(t) && px != x.node && px != Top(x.left) && px != Top(x.right)
                  && (CellOf(t, p, px).left == x.node || CellOf(t, p, px).right == x.node)
                  && px == VictimParent(f, FindParent(less, t, v, null)))
    ensures HasTwo(Find(less, t, v)) ==> Find(less, t, v).node != Victim(Find(less, t, v)).node
  {
    var f, fp := Find(less, t, v), FindParent(less, t, v, p);
    FindOutside(less, t, v, p);
    FindParentIn(less, t, v, p, null);
    FindCell(less, t, v, p);
    TopIn(Victim(f).left);
    TopIn(Victim(f).right);
    if HasTwo(f) {
      var m := Min(f.right);
      MinFacts(f.right, f.node);
      MinOutside(f.right, f.node);
      FindCells(less, t, v, p, m.node);
      FindCells(less, t, v, p, MinParent(f.right, f.node));
    }
  }

  // The least node of a right subtree is never the top.
  lemma VictimNotTop<T>(less: (T, T) -> bool, t: Tree<T>, v: T)
    requires Distinct(t) && Find(less, t, v).Bin? && !(Find(less, t, v) == t && !HasTwo(t))
    ensures Victim(Find(less, t, v)).node != t.node
  {
    var f := Find(less, t, v);
    FindOutside(less, t, v, null);
    if HasTwo(f) {
      MinFacts(f.right, f.node);
    }
    if f != t {
      FindProper(less, t, v);
    }
  }

  lemma {:induction false} FindProper<T>(less: (T, T) -> bool, t: Tree<T>, v: T)
    requires Distinct(t) && Find(less, t, v).Bin? && Find(less, t, v) != t
    ensures t.node !in Nodes(Find(less, t, v))
  {
    FindOutside(less, if less(v, t.value) then t.left else t.right, v, t.node);
  }

  // Take, written as the assignments of remove_impl.  When the top of t is cut out, its
  // child keeps it as parent.
  lemma TakeAssigns<T>(less: (T, T) -> bool, t: Tree<T>, v: T, p: Node?<T>, n: Node<T>)
    requires Distinct(t) && Find(less, t, v).Bin? && n in Nodes(Take(less, t, v))
    ensures n in Nodes(t)
    ensures var f := Find(less, t, v);
            var x, c, px := Victim(f).node, OnlyChild(Victim(f)), VictimParent(f, FindParent(less, t, v, null));
            var promoted := f == t && !HasTwo(f);
            var cell := CellOf(t, p, n);
            CellOf(Take(less, t, v), if promoted then x else p, n) ==
            Cell(if HasTwo(f) && n == f.node then Victim(f).value else cell.value,
                 if !promoted && n == px && cell.left == x then c else cell.left,
                 if !promoted && n == px && cell.left != x then c else cell.right,
                 if !promoted && n == c then px else cell.parent)
  {
    TakeCells(less, t, v, p, n);
    TakeFacts(less, t, v);
    VictimFacts(less, t, v, p);
    ChildParent(t, p, n);
    ChildParent(t, p, Victim(Find(less, t, v)).node);
    CellParent(Take(less, t, v), p, Victim(Find(less, t, v)).node, n);
  }

  // --------------------------------------------------------------- iteration

  /** The nodes in iteration order */
  ghost function Sequence<T>(t: Tree<T>): (s: seq<Node<T>>)
    ensures |s| == |Inorder(t)|
  {
    if t.Nil? then [] else Sequence(t.left) + [t.node] + Sequence(t.right)
  }

  // s is a subtree of t and its first node stands at index i of t.
  ghost predicate SubAt<T>(t: Tree<T>, s: Tree<T>, i: int) {
    && t.Bin? && s.Bin?
    && (|| (s == t && i == 0)
        || SubAt(t.left, s, i)
        || SubAt(t.right, s, i - |Sequence(t.left)| - 1))
  }

  lemma {:induction false} SubFacts<T>(t: Tree<T>, p: Node?<T>, s: Tree<T>, i: int)
    requires SubAt(t, s, i) && Distinct(t)
    ensures Distinct(s) && s.node in Nodes(t) && Nodes(s) <= Nodes(t)
    ensures var cell := CellOf(t, p, s.node);
            cell.left == Top(s.left) && cell.right == Top(s.right) && cell.value == s.value
  {
    if s == t && i == 0 {
    } else if SubAt(t.left, s, i) {
      SubFacts(t.left, t.node, s, i);
    } else {
      SubFacts(t.right, t.node, s, i - |Sequence(t.left)| - 1);
    }
  }

  lemma {:induction false} SubIndex<T>(t: Tree<T>, s: Tree<T>, i: int)
    requires SubAt(t, s, i)
    ensures 0 <= i && i + |Sequence(s)| <= |Sequence(t)|
    ensures var k := i + |Sequence(s.left)|;
            k < |Sequence(t)| && Sequence(t)[k] == s.node && Inorder(t)[k] == s.value
  {
    if s == t && i == 0 {
    } else if SubAt(t.left, s, i) {
      SubIndex(t.left, s, i);
    } else {
      SubIndex(t.right, s, i - |Sequence(t.left)| - 1);
    }
  }

  // Subtrees are cells of the whole tree below their top.
  lemma {:induction false} SubCells<T>(t: Tree<T>, p: Node?<T>, s: Tree<T>, i: int, n: Node<T>)
    requires SubAt(t, s, i) && Distinct(t) && n in Nodes(s) && n != s.node
    ensures n in Nodes(t) && CellOf(t, p, n) == CellOf(s, null, n)
  {
    SubFacts(t, p, s, i);
    if s == t && i == 0 {
      CellParent(t, p, null, n);
    } else if SubAt(t.left, s, i) {
      SubFacts(t.left, t.node, s, i);
      SubCells(t.left, t.node, s, i, n);
    } else {
      SubFacts(t.right, t.node, s, i - |Sequence(t.left)| - 1);
      SubCells(t.right, t.node, s, i - |Sequence(t.left)| - 1, n);
    }
  }

  lemma {:induction false} SubOfIndex<T>(t: Tree<T>, k: nat) returns (s: Tree<T>, i: int)
    requires k < |Sequence(t)|
    ensures s.Bin? && SubAt(t, s, i) && s.node == Sequence(t)[k] && i + |Sequence(s.left)| == k
  {
    var n := |Sequence(t.left)|;
    if k < n {
      s, i := SubOfIndex(t.left, k);
    } else if k == n {
      s, i := t, 0;
    } else {
      s, i := SubOfIndex(t.right, k - n - 1);
      i := i + n + 1;
    }
  }

  // One step up: the parent pointer leads to the subtree s hangs in, or out of t.
  lemma {:induction false} SubUp<T>(t: Tree<T>, p: Node?<T>, s: Tree<T>, i: int) returns (u: Tree<T>, j: int)
    requires SubAt(t, s, i) && Distinct(t)
    ensures u.Bin? && s.Bin? && s.node in Nodes(t)
    ensures var parent := CellOf(t, p, s.node).parent;
            || (s == t && i == 0 && parent == p)
            || (&& SubAt(t, u, j) && parent == u.node
                && ((u.left == s && j == i) || (u.right == s && j + |Sequence(u.left)| + 1 == i)))
  {
    SubFacts(t, p, s, i);
    u, j := t, 0;
    if s == t && i == 0 {
    } else if SubAt(t.left, s, i) {
      SubFacts(t.left, t.node, s, i);
      if !(s == t.left && i == 0) {
        u, j := SubUp(t.left, t.node, s, i);
      }
    } else {
      var n := |Sequence(t.left)| + 1;
      SubFacts(t.right, t.node, s, i - n);
      if !(s == t.right && i == n) {
        u, j := SubUp(t.right, t.node, s, i - n);
        j := j + n;
      }
    }
  }

  // The children of a subtree, and its least node, are subtrees too.
  lemma {:induction false} SubDown<T>(t: Tree<T>, s: Tree<T>, i: int)
    requires SubAt(t, s, i)
    ensures s.left.Bin? ==> SubAt(t, s.left, i)
    ensures s.right.Bin? ==> SubAt(t, s.right, i + |Sequence(s.left)| + 1)
  {
    if s == t && i == 0 {
      assert s.left.Bin? ==> SubAt(s.left, s.left, 0);
      assert s.right.Bin? ==> SubAt(s.right, s.right, 0);
    } else if SubAt(t.left, s, i) {
      SubDown(t.left, s, i);
    } else {
      SubDown(t.right, s, i - |Sequence(t.left)| - 1);
    }
  }

  lemma {:induction false} SubMin<T>(t: Tree<T>, s: Tree<T>, i: int)
    requires SubAt(t, s, i)
    ensures SubAt(t, Min(s), i)
    decreases s
  {
    if s.left.Bin? {
      SubDown(t, s, i);
      SubMin(t, s.left, i);
    }
  }
}
