/**
 `SortedSet`: an unbalanced binary search tree with parent pointers.

 The ghost field `tree` is the shape SortedTree.dfy reasons about; `Valid` says that the
 heap is that shape.  A node that is deleted leaves `tree`; the methods prove that no
 deleted node is reachable, except through the parent pointer of the root (see `Orphaned`).
 */
module SortedSet {
  import opened SortedSeq
  import opened SortedTree

  ghost predicate Holds<T>(n: Node<T>, cell: Cell<T>)
    reads n
  {
    n.value == cell.value && n.left == cell.left && n.right == cell.right && n.parent == cell.parent
  }

  ghost predicate Mirrors<T>(t: Tree<T>, parent: Node?<T>)
    reads Nodes(t)
  {
    forall n | n in Nodes(t) :: Holds(n, CellOf(t, parent, n))
  }

  lemma MirrorsChildren<T>(t: Tree<T>, parent: Node?<T>)
    requires t.Bin? && Distinct(t) && Mirrors(t, parent)
    ensures Mirrors(t.left, t.node) && Mirrors(t.right, t.node)
    ensures t.node.value == t.value && t.node.left == Top(t.left) && t.node.right == Top(t.right)
  {
    assert Holds(t.node, CellOf(t, parent, t.node));
    forall n | n in Nodes(t.left)
      ensures Holds(n, CellOf(t.left, t.node, n))
    {
      assert Holds(n, CellOf(t, parent, n));
    }
    forall n | n in Nodes(t.right)
      ensures Holds(n, CellOf(t.right, t.node, n))
    {
      assert Holds(n, CellOf(t, parent, n));
    }
  }

  // The part of the heap below the element found
  lemma {:induction false} MirrorsFound<T>(less: (T, T) -> bool, t: Tree<T>, v: T, p: Node?<T>)
    requires Distinct(t) && Mirrors(t, p) && Find(less, t, v).Bin?
    ensures Distinct(Find(less, t, v)) && Nodes(Find(less, t, v)) <= Nodes(t)
    ensures Mirrors(Find(less, t, v), FindParent(less, t, v, p))
  {
    MirrorsChildren(t, p);
    if less(v, t.value) {
      MirrorsFound(less, t.left, v, t.node);
    } else if less(t.value, v) {
      MirrorsFound(less, t.right, v, t.node);
    }
  }

  // The node x is cut out at the top of the tree.
  ghost predicate CutsTop<T>(t: Tree<T>, f: Tree<T>) {
    f == t && !HasTwo(f)
  }

  // What insert_impl finds in the heap
  lemma InsertPlan<T>(less: (T, T) -> bool, t: Tree<T>, v: T, rp: Node?<T>)
    requires Distinct(t) && Mirrors(t, rp)
    ensures Find(less, t, v).Bin? ==> t.Bin? && Find(less, t, v).node in Nodes(t)
    ensures Find(less, t, v).Nil? ==>
      var p := FindParent(less, t, v, null);
      if t.Nil? then p == null
      else
        && p != null && p in Nodes(t)
        && if less(v, p.value) then p.left == null else less(p.value, v) && p.right == null
  {
    FindIn(less, t, v);
    if t.Bin? && Find(less, t, v).Nil? {
      FindParentIn(less, t, v, null, rp);
      var p := FindParent(less, t, v, null);
      HangsWhere(less, t, v, rp);
      assert Holds(p, CellOf(t, rp, p));
    }
  }

  lemma SingletonMirrors<T>(less: (T, T) -> bool, t: Tree<T>, v: T, n: Node<T>)
    requires t.Nil? && Holds(n, Cell(v, null, null, null))
    ensures Mirrors(Put(less, t, v, n), null)
  {
  }

  // What remove finds in the heap once the element is found
  lemma RemovePlan<T>(less: (T, T) -> bool, t: Tree<T>, v: T, rp: Node?<T>)
    requires Distinct(t) && Mirrors(t, rp) && Find(less, t, v).Bin?
    ensures var f := Find(less, t, v);
            var x := Victim(f);
            var n, c, px := x.node, OnlyChild(x), VictimParent(f, FindParent(less, t, v, null));
            && f.node in Nodes(t) && f.node.left == Top(f.left) && f.node.right == Top(f.right)
            && Distinct(f.right) && Mirrors(f.right, f.node) && (HasTwo(f) ==> f.node != n)
            && n in Nodes(t) && n.value == x.value && (n.left == null || n.right == null)
            && n.left != n && n.right != n
            && c == (if n.left == null then n.right else n.left)
            && (c != null ==> c in Nodes(t) && c != n && c.parent == n)
            && t.node.parent == rp && c != t.node && (CutsTop(t, f) <==> n == t.node)
            && (CutsTop(t, f) ==> px == null)
            && (!CutsTop(t, f) ==>
              && px != null && px in Nodes(t) && px != n && px != c
              && (px.left == n || px.right == n) && n.left != px && n.right != px)
  {
    var f := Find(less, t, v);
    var x := Victim(f);
    FindCell(less, t, v, rp);
    FindOutside(less, t, v, rp);
    FindParentIn(less, t, v, null, rp);
    TakeFacts(less, t, v);
    VictimFacts(less, t, v, rp);
    MirrorsFound(less, t, v, rp);
    MirrorsChildren(f, FindParent(less, t, v, rp));
    ChildIn(t, rp, x.node);
    ChildParent(t, rp, x.node);
    TopIn(t);
    assert Holds(x.node, CellOf(t, rp, x.node)) && Holds(t.node, CellOf(t, rp, t.node));
    if OnlyChild(x) != null {
      assert Holds(OnlyChild(x), CellOf(t, rp, OnlyChild(x)));
    }
    if !CutsTop(t, f) {
      var px := VictimParent(f, FindParent(less, t, v, null));
      assert Holds(px, CellOf(t, rp, px));
      if HasTwo(f) {
        VictimNotTop(less, t, v);
      }
    }
  }

  lemma SizeOfTree<T>(t: Tree<T>)
    ensures |Inorder(t)| == 0 <==> t.Nil?
  {
  }

  // What is left of the tree
  lemma RemoveTop<T>(less: (T, T) -> bool, t: Tree<T>, v: T, rp: Node?<T>)
    requires Distinct(t) && Mirrors(t, rp) && Find(less, t, v).Bin?
    ensures var f, out := Find(less, t, v), Take(less, t, v);
            var x := Victim(f).node;
            && t.Bin? && Distinct(out) && Nodes(out) == Nodes(t) - {x} && x in Nodes(t)
            && Top(out) == (if CutsTop(t, f) then OnlyChild(Victim(f)) else t.node)
            && (CutsTop(t, f) <==> x == t.node) && t.node in Nodes(t)
            && (CutsTop(t, f) ==> (Top(out) != null <==> t.left.Bin? || t.right.Bin?))
            && (CutsTop(t, f) ==> var c := Top(out); c != null ==> c in Nodes(t) && c != x && c.parent == t.node)
            && t.node.parent == rp && OnlyChild(Victim(f)) != t.node
  {
    TakeFacts(less, t, v);
    RemovePlan(less, t, v, rp);
  }

  class SortedSet<T(!new)> {
    const less: (T, T) -> bool
    var root: Node?<T>
    var size: nat
    ghost var tree: Tree<T>
    ghost var repr: set<Node<T>>

    ghost function RootParent(): Node?<T>
      reads this, root
    {
      if root == null then null else root.parent
    }

    ghost predicate Valid()
      reads this, root, repr
    {
      && repr == Nodes(tree)
      && StrictWeakOrder(less)
      && Distinct(tree)
      && Sorted(less, Inorder(tree))
      && root == Top(tree)
      && size == |Inorder(tree)|
      && Mirrors(tree, RootParent())
      && RootParent() !in repr
    }

    ghost function Contents(): seq<T>
      reads this
    {
      Inorder(tree)
    }

    // The parent pointer of the root leads to a node that is not in the set.
    ghost predicate Orphaned()
      reads this, root
    {
      RootParent() != null
    }

    constructor (less: (T, T) -> bool)
      requires StrictWeakOrder(less)
      ensures Valid() && Contents() == [] && this.less == less && !Orphaned()
      ensures repr == {}
    {
      this.less := less;
      root, size, tree, repr := null, 0, Nil, {};
    }

    method SearchImpl(value: T, parent: Node?<T>, subtree: Node?<T>, ghost t: Tree<T>, ghost p: Node?<T>)
        returns (node: Node?<T>, last: Node?<T>)
      requires Distinct(t) && subtree == Top(t) && Mirrors(t, p)
      ensures node == Top(Find(less, t, value))
      ensures last == FindParent(less, t, value, parent)
      decreases t
    {
      if subtree == null {
        return null, parent;
      }
      MirrorsChildren(t, p);
      if less(value, subtree.value) {
        node, last := SearchImpl(value, subtree, subtree.left, t.left, t.node);
      } else if less(subtree.value, value) {
        node, last := SearchImpl(value, subtree, subtree.right, t.right, t.node);
      } else {
        return subtree, parent;
      }
    }

    method MinImpl(subtree: Node?<T>, parent: Node?<T>, ghost t: Tree<T>, ghost p: Node?<T>)
        returns (node: Node?<T>, last: Node?<T>)
      requires Distinct(t) && subtree == Top(t) && Mirrors(t, p)
      ensures t.Nil? ==> node == null && last == parent
      ensures t.Bin? ==> node == Min(t).node && last == MinParent(t, parent)
      decreases t
    {
      if subtree == null {
        return null, parent;
      }
      MirrorsChildren(t, p);
      if subtree.left == null {
        return subtree, parent;
      }
      node, last := MinImpl(subtree.left, subtree, t.left, t.node);
    }

    /** The stored element that compares equal to `value`, if any */
    method Search(value: T) returns (node: Node?<T>)
      requires Valid()
      ensures node != null <==> Contains(less, Contents(), value)
      ensures node != null ==> node in repr && node.value == Contents()[Rank(less, Contents(), value)]
    {
      ghost var last;
      node, last := SearchImpl(value, null, root, tree, RootParent());
      FindContains(less, tree, value);
      if node != null {
        FindCell(less, tree, value, RootParent());
        assert Holds(node, CellOf(tree, RootParent(), node));
      }
    }

    method Insert(value: T) returns (node: Node<T>)
      requires Valid()
      modifies this, repr
      ensures Valid() && Contents() == SortedSeq.Insert(less, old(Contents()), value)
      ensures fresh(repr - old(repr)) && old(repr) <= repr
      ensures node in repr && node.value == value
      ensures Orphaned() <==> old(Orphaned())
    {
      hide StrictWeakOrder, Sorted, Distinct, Inorder, SortedSeq.Insert, Contains, CellOf, FindParent, Put, Mirrors, Nodes, Find;
      ghost var t, rp := tree, RootParent();
      var found, parent := SearchImpl(value, null, root, t, rp);
      InsertSorted(less, Inorder(t), value);
      FindContains(less, t, value);
      InsertPlan(less, t, value, rp);
      if found != null {
        node := found;
        node.value := value;
        OverwrittenMirrors(value, node);
      } else if parent == null {
        root := new Node(value);
        node := root;
        size := size + 1;
        SingletonMirrors(less, t, value, node);
      } else {
        node := new Node(value);
        if less(value, parent.value) {
          assert parent.left == null;   // ASSERT in the source
          parent.left := node;
        } else {
          assert less(parent.value, value) && parent.right == null;   // ASSERTs in the source
          parent.right := node;
        }
        node.parent := parent;
        size := size + 1;
        HungMirrors(value, node);
      }
      PutNodes(less, t, value, node);
      PutIsInsert(less, t, value, node);
      assert t.Bin? ==> RootParent() == rp;
      tree := Put(less, t, value, node);
      repr := Nodes(tree);
    }

    twostate lemma OverwrittenMirrors(v: T, new f: Node<T>)
      requires old(Valid()) && Find(less, old(tree), v).Bin?
      requires
        var found := Find(less, old(tree), v).node;
        forall n | n in old(repr) ::
          && n.value == (if n == found then v else old(n.value))
          && n.left == old(n.left) && n.right == old(n.right) && n.parent == old(n.parent)
      ensures Mirrors(Put(less, old(tree), v, f), old(RootParent()))
    {
      var t, rp := old(tree), old(RootParent());
      PutNodes(less, t, v, f);
      forall n | n in Nodes(t)
        ensures Holds(n, CellOf(Put(less, t, v, f), rp, n))
      {
        PutOverwrites(less, t, v, f, rp, n);
        assert old(Holds(n, CellOf(t, rp, n)));
      }
    }

    // The assignments of insert_impl turn the old tree into the new one.
    twostate lemma HungMirrors(v: T, new f: Node<T>)
      requires old(Valid()) && Find(less, old(tree), v).Nil? && old(tree).Bin? && f !in old(repr)
      requires
        var p := FindParent(less, old(tree), v, null);
        && Holds(f, Cell(v, null, null, p))
        && forall n | n in old(repr) ::
          && n.value == old(n.value) && n.parent == old(n.parent)
          && n.left == (if n == p && less(v, old(n.value)) then f else old(n.left))
          && n.right == (if n == p && !less(v, old(n.value)) then f else old(n.right))
      ensures Mirrors(Put(less, old(tree), v, f), old(RootParent()))
    {
      var t, rp := old(tree), old(RootParent());
      PutNodes(less, t, v, f);
      FindParentIn(less, t, v, null, rp);
      forall n | n in Nodes(Put(less, t, v, f))
        ensures Holds(n, CellOf(Put(less, t, v, f), rp, n))
      {
        PutHangs(less, t, v, f, rp, n);
        assert n != f ==> old(Holds(n, CellOf(t, rp, n)));
      }
    }

    // Node::replace_child
    method ReplaceChild(node: Node<T>, before: Node<T>, after: Node?<T>)
      requires node.left == before || node.right == before   // else ASSERT_NOT_REACHED
      requires node != before && node != after && before != after
      modifies node, before, after
      ensures node.left == if old(node.left) == before then after else old(node.left)
      ensures node.right == if old(node.left) != before then after else old(node.right)
      ensures node.value == old(node.value) && node.parent == old(node.parent)
      ensures before.value == old(before.value) && before.left == old(before.left) && before.right == old(before.right)
      ensures after != null ==> after.parent == node
      ensures after != null ==> after.value == old(after.value) && after.left == old(after.left) && after.right == old(after.right)
    {
      if node.left == before {
        node.left.parent := null;
        node.left := after;
        if node.left != null {
          node.left.parent := node;
        }
      } else {
        node.right.parent := null;
        node.right := after;
        if node.right != null {
          node.right.parent := node;
        }
      }
    }

    /**
     Cuts out a node with at most one child.  Without a parent the child becomes the root,
     and its own parent pointer is left as it was.
     */
    method RemoveImpl(node: Node<T>, parent: Node?<T>)
      requires node.left == null || node.right == null   // ASSERT in the source
      requires size > 0
      requires parent != null ==> parent.left == node || parent.right == node
      requires parent != node && node.left != node && node.right != node
      requires parent != null ==> node.left != parent && node.right != parent
      modifies this`root, this`size, node, node.left, node.right, parent
      ensures size == old(size) - 1
      ensures var child := old(if node.left == null then node.right else node.left);
        && (child != null ==>
          && child.value == old(child.value) && child.left == old(child.left) && child.right == old(child.right)
          && child.parent == if parent == null then old(child.parent) else parent)
        && root == (if parent == null then child else old(root))
        && (parent != null ==>
          && parent.value == old(parent.value) && parent.parent == old(parent.parent)
          && parent.left == (if old(parent.left) == node then child else old(parent.left))
          && parent.right == if old(parent.left) != node then child else old(parent.right))
    {
      if node.left == null && node.right == null {
        if parent != null {
          ReplaceChild(parent, node, null);
        } else {
          root := null;
        }
      } else if node.left == null {
        if parent != null {
          ReplaceChild(parent, node, node.right);
        } else {
          root := node.right;
        }
        node.right := null;
      } else {
        if parent != null {
          ReplaceChild(parent, node, node.left);
        } else {
          root := node.left;
        }
        node.left := null;
      }
      node.parent := null;
      // `delete node` destroys the children it still points to: there are none.
      assert node.left == null && node.right == null;
      size := size - 1;
    }

    // The root holds `value` and has exactly one child, which takes its place.
    ghost predicate Promotes(value: T)
      reads this
    {
      && tree.Bin? && Find(less, tree, value) == tree
      && !HasTwo(tree) && (tree.left.Bin? || tree.right.Bin?)
    }

    method Remove(value: T)
      requires Valid()
      modifies this, repr
      ensures Valid() && Contents() == SortedSeq.Remove(less, old(Contents()), value)
      ensures repr <= old(repr)
      // Exactly when the pointer the new root keeps leads to the node just deleted
      ensures root != null ==> (Orphaned() <==> old(Orphaned() || Promotes(value)))
      ensures old(Promotes(value)) ==> RootParent() == old(root) && old(root) !in repr
    {
      hide StrictWeakOrder, Sorted, Distinct, Inorder, SortedSeq.Remove, Contains, Take, FindParent, CellOf, Mirrors, Nodes, Victim, OnlyChild, VictimParent;
      ghost var t, rp := tree, RootParent();
      var node, parent := SearchImpl(value, null, root, t, rp);
      TakeIsRemove(less, t, value);
      RemoveSorted(less, Inorder(t), value);
      FindContains(less, t, value);
      if node == null {
        RemoveAbsent(less, Inorder(t), value);
        return;
      }
      ghost var f, out := Find(less, t, value), Take(less, t, value);
      RemoveTop(less, t, value, rp);
      CutOut(value, node, parent);
      tree, repr := out, Nodes(out);
      RemovedMirrors(value);
      assert root != null ==> RootParent() == if CutsTop(t, f) then t.node else rp;
    }

    // The node found, or the one whose value it takes over, is cut out.
    method CutOut(value: T, node: Node<T>, parent: Node?<T>)
      requires Valid() && Find(less, tree, value).Bin?
      requires node == Find(less, tree, value).node && parent == FindParent(less, tree, value, null)
      modifies this`root, this`size, repr
      ensures size == old(size) - 1
      ensures
        var f := Find(less, tree, value);
        root == if CutsTop(tree, f) then OnlyChild(Victim(f)) else old(root)
      ensures
        var f := Find(less, tree, value);
        var x := Victim(f);
        var c, px := OnlyChild(x), VictimParent(f, FindParent(less, tree, value, null));
        forall n | n in repr && n != x.node ::
          && n.value == (if HasTwo(f) && n == f.node then x.value else old(n.value))
          && n.left == (if n == px && old(n.left) == x.node then c else old(n.left))
          && n.right == (if n == px && old(n.left) != x.node then c else old(n.right))
          && n.parent == (if n == c && !CutsTop(tree, f) then px else old(n.parent))
    {
      hide StrictWeakOrder, Sorted, Distinct, FindParent, CellOf, Mirrors;
      ghost var f := Find(less, tree, value);
      RemovePlan(less, tree, value, RootParent());
      SizeOfTree(tree);
      if node.left == null || node.right == null {
        RemoveImpl(node, parent);
      } else {
        var least, leastParent := MinImpl(node.right, node, f.right, f.node);
        assert least != null;   // ASSERT in the source
        node.value := least.value;
        RemoveImpl(least, leastParent);
      }
    }

    // The assignments of RemoveImpl turn the old tree into the new one.
    twostate lemma RemovedMirrors(v: T)
      requires old(Valid()) && Find(less, old(tree), v).Bin?
      requires
        var t := old(tree);
        var f := Find(less, t, v);
        var x := Victim(f);
        var c, px := OnlyChild(x), VictimParent(f, FindParent(less, t, v, null));
        forall n | n in Nodes(t) && n != x.node ::
          && n.value == (if HasTwo(f) && n == f.node then x.value else old(n.value))
          && n.left == (if n == px && old(n.left) == x.node then c else old(n.left))
          && n.right == (if n == px && old(n.left) != x.node then c else old(n.right))
          && n.parent == (if n == c && !CutsTop(t, f) then px else old(n.parent))
      ensures var t := old(tree);
              var out, promoted := Take(less, t, v), CutsTop(t, Find(less, t, v));
              Mirrors(out, if out.Nil? then null else if promoted then t.node else old(RootParent()))
    {
      var t, rp := old(tree), old(RootParent());
      var rp' := if CutsTop(t, Find(less, t, v)) then t.node else rp;
      TakeFacts(less, t, v);
      VictimFacts(less, t, v, rp);
      forall n | n in Nodes(Take(less, t, v))
        ensures Holds(n, CellOf(Take(less, t, v), rp', n))
      {
        TakeAssigns(less, t, v, rp, n);
        assert old(Holds(n, CellOf(t, rp, n)));
      }
    }
  }

  // What hangs below a node of a mirrored tree is mirrored too.
  lemma {:induction false} MirrorsSub<T>(t: Tree<T>, p: Node?<T>, s: Tree<T>, i: int) returns (q: Node?<T>)
    requires SubAt(t, s, i) && Distinct(t) && Mirrors(t, p)
    ensures Distinct(s) && Mirrors(s, q)
  {
    MirrorsChildren(t, p);
    if s == t && i == 0 {
      q := p;
    } else if SubAt(t.left, s, i) {
      q := MirrorsSub(t.left, t.node, s, i);
    } else {
      q := MirrorsSub(t.right, t.node, s, i - |Sequence(t.left)| - 1);
    }
  }

  class InorderIterator<T(!new)> {
    const container: SortedSet<T>
    var current: Node?<T>

    // The iterator stands at index k of Contents(), or at the end.
    ghost predicate At(k: nat)
      reads this, container
    {
      && k <= |Sequence(container.tree)|
      && current == if k < |Sequence(container.tree)| then Sequence(container.tree)[k] else null
    }

    // SortedSet::inorder
    constructor (container: SortedSet<T>)
      requires container.Valid()
      ensures this.container == container && At(0)
    {
      ghost var last;
      ghost var t := container.tree;
      this.container := container;
      var least: Node?<T>;
      least, last := container.MinImpl(container.root, null, t, container.RootParent());
      current := least;
      if t.Bin? {
        SubMin(t, t, 0);
        SubIndex(t, Min(t), 0);
      }
    }

    method Value(ghost k: nat) returns (value: T)
      requires container.Valid() && At(k) && current != null
      ensures k < |container.Contents()| && value == container.Contents()[k]
    {
      value := current.value;
      ghost var s, i := SubOfIndex(container.tree, k);
      SubFacts(container.tree, container.RootParent(), s, i);
      SubIndex(container.tree, s, i);
      assert Holds(s.node, CellOf(container.tree, container.RootParent(), s.node));
    }

    // operator++.  From the last element the climb passes the root, whose parent pointer must
    // then be null.
    method Advance(ghost k: nat)
      requires container.Valid() && (!container.Orphaned() || k + 1 < |container.Contents()|)
      requires At(k) && current != null   // ASSERT in the source
      modifies this
      ensures At(k + 1)
    {
      hide Mirrors, Distinct, CellOf, Sequence, SubAt, Sorted, StrictWeakOrder, Inorder;
      ghost var t, top := container.tree, container.RootParent();
      ghost var s, i := SubOfIndex(t, k);
      SubFacts(t, top, s, i);
      MirrorsAt(t, top, s.node);
      SubSize(s);
      if current.right != null {
        ghost var last;
        SubDown(t, s, i);
        ghost var q := MirrorsSub(t, top, s.right, k + 1);
        current, last := container.MinImpl(current.right, null, s.right, q);
        SubMin(t, s.right, k + 1);
        SubIndex(t, Min(s.right), k + 1);
        SubSize(Min(s.right));
        return;
      }
      ghost var u, j := SubUp(t, top, s, i);
      while current.parent != null && current.parent.left != current
        invariant current != null && s.Bin? && u.Bin? && SubAt(t, s, i) && s.node == current
        invariant i + |Sequence(s)| == k + 1
        invariant s.node in Nodes(t) && Holds(s.node, CellOf(t, top, s.node))
        invariant
          || (s == t && i == 0 && current.parent == top)
          || (&& SubAt(t, u, j) && current.parent == u.node
              && ((u.left == s && j == i) || (u.right == s && j + |Sequence(u.left)| + 1 == i)))
        decreases |Sequence(t)| - |Sequence(s)|
      {
        SubFacts(t, top, u, j);
        MirrorsAt(t, top, u.node);
        SubSize(u);
        SubIndex(t, u, j);
        current := current.parent;
        s, i := u, j;
        u, j := SubUp(t, top, s, i);
      }
      if current.parent == null {
        current := null;
        return;
      }
      SubFacts(t, top, u, j);
      MirrorsAt(t, top, u.node);
      SubIndex(t, u, j);
      SidesDiffer(u);
      current := current.parent;
    }
  }

  lemma MirrorsAt<T>(t: Tree<T>, p: Node?<T>, n: Node<T>)
    requires Mirrors(t, p) && n in Nodes(t)
    ensures Holds(n, CellOf(t, p, n))
  {
  }

  lemma SubSize<T>(s: Tree<T>)
    requires s.Bin?
    ensures |Sequence(s)| == |Sequence(s.left)| + 1 + |Sequence(s.right)|
    ensures s.right.Nil? ==> |Sequence(s.right)| == 0
    ensures s.left.Nil? ==> |Sequence(s.left)| == 0
  {
  }

  lemma SidesDiffer<T>(s: Tree<T>)
    requires s.Bin? && Distinct(s)
    ensures s.left.Bin? ==> Top(s.left) != Top(s.right)
  {
    TopIn(s.left);
    TopIn(s.right);
  }

  /** A loop over the set sees every element once, in increasing order. */
  method Elements<T(!new)>(container: SortedSet<T>) returns (elements: seq<T>)
    requires container.Valid() && !container.Orphaned()
    ensures elements == container.Contents()
  {
    elements := [];
    var it := new InorderIterator(container);
    while it.current != null
      invariant it.container == container && container.Valid() && !container.Orphaned()
      invariant fresh(it) && it.At(|elements|)
      invariant elements == container.Contents()[..|elements|]
      decreases |container.Contents()| - |elements|
    {
      var value := it.Value(|elements|);
      it.Advance(|elements|);
      elements := elements + [value];
    }
  }

  /**
   Removing the root of any set of two elements promotes the other one, which keeps a
   pointer to the deleted node.  `operator++` would follow it from the last element.
   */
  method PromotionOrphans<T(!new)>(container: SortedSet<T>)
    requires container.Valid() && |container.Contents()| == 2
    modifies container, container.repr
    ensures container.Valid() && |container.Contents()| == 1
    ensures container.Orphaned() && container.RootParent() == old(container.root) && old(container.root) !in container.repr
  {
    ghost var t, less := container.tree, container.less;
    assert Holds(t.node, CellOf(t, container.RootParent(), t.node));
    var value := container.root.value;
    assert !less(value, value) && value == t.value;
    SubSize(t);
    FindContains(less, t, value);
    RemoveSorted(less, container.Contents(), value);
    container.Remove(value);
  }
}
