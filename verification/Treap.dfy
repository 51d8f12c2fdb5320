/** The treap as linked nodes: destructive split and merge, node recycling, refined to TreapSpec trees. */
module TreapImpl {
  import opened IdleSpec
  import opened TreapSpec

  class TreapNode {
    var value: Opt
    var left: TreapNode?
    var right: TreapNode?
    var priority: int

    constructor ()
      ensures Clean()
    {
      value, left, right, priority := Zero, null, null, 0;
    }

    /** As sync.Pool must hand it out: no value and no children. */
    ghost predicate Clean()
      reads this
    {
      value == Zero && left == null && right == null
    }
  }

  /** The nodes reachable from u are exactly the tree t. */
  ghost predicate Shape(u: TreapNode?, t: Tree<TreapNode>)
    reads Refs(t)
    decreases t
  {
    match t
    case Leaf => u == null
    case Node(n, v, p, l, r) =>
      u == n && n.value == Some(v) && n.priority == p && Shape(n.left, l) && Shape(n.right, r)
  }

  /** Cuts the tree in place at key k. */
  method SplitNodes(u: TreapNode?, k: int, ghost t: Tree<TreapNode>) returns (left: TreapNode?, right: TreapNode?)
    requires Shape(u, t) && Separate(t)
    modifies Refs(t)
    ensures Shape(left, Split(t, k).0) && Shape(right, Split(t, k).1)
    decreases t
  {
    if u == null {
      return null, null;
    }
    assert allocated(Refs(t.left)) && allocated(Refs(t.right));
    if u.value.value.at > k {
      SplitRefs(t.left, k);
      var below, above := SplitNodes(u.left, k, t.left);
      u.left := above;
      return below, u;
    } else {
      SplitRefs(t.right, k);
      var below, above := SplitNodes(u.right, k, t.right);
      u.right := below;
      return u, above;
    }
  }

  /** Joins two trees in place, the smaller priority on top. */
  method MergeNodes(left: TreapNode?, right: TreapNode?, ghost a: Tree<TreapNode>, ghost b: Tree<TreapNode>) returns (u: TreapNode?)
    requires Shape(left, a) && Shape(right, b) && Separate(a) && Separate(b) && Refs(a) !! Refs(b)
    modifies Refs(a), Refs(b)
    ensures Shape(u, Merge(a, b))
    decreases Size(a) + Size(b)
  {
    if left == null {
      return right;
    }
    if right == null {
      return left;
    }
    assert allocated(Refs(a.left)) && allocated(Refs(b.right));
    if left.priority < right.priority {
      MergeRefs(a.right, b);
      var m := MergeNodes(left.right, right, a.right, b);
      left.right := m;
      return left;
    } else {
      MergeRefs(a, b.left);
      var m := MergeNodes(left, right.left, a, b.left);
      right.left := m;
      return right;
    }
  }

  /** A container is not one of the nodes. */
  lemma Apart(o: Treap, t: Tree<TreapNode>)
    ensures o !in (set n: TreapNode | n in Refs(t) :: n as object)
  {
  }

  class Treap {
    var root: TreapNode?
    var size: int
    var pool: set<TreapNode>
    ghost var tree: Tree<TreapNode>

    ghost predicate Valid()
      reads this, Refs(tree), pool
    {
      Shape(root, tree) && Separate(tree) && HeapOrdered(tree) && SortedByTime(InOrder(tree))
      && size == |InOrder(tree)|
      && pool !! Refs(tree) && forall n :: n in pool ==> n.Clean()
    }

    /** The idle elements in order of time, insertion order among equals. */
    ghost function Contents(): seq<Elem>
      reads this
    {
      InOrder(tree)
    }

    constructor ()
      ensures Valid() && Contents() == [] && pool == {} && tree == Leaf
    {
      root, size, pool := null, 0, {};
      tree := Leaf;
    }

    method Len() returns (n: int)
      requires Valid()
      ensures n == |Contents()|
    {
      n := size;
    }

    /** sync.Pool.Get: any pooled node, or a new one. */
    method GetNode() returns (n: TreapNode)
      requires Valid()
      modifies this`pool
      ensures Valid() && n.Clean() && n !in Refs(tree) && pool == old(pool) - {n}
      ensures n in old(pool) || fresh(n)
    {
      Apart(this, tree);
      assert allocated(Refs(tree));
      if * {
        if m :| m in pool {
          n := m;
          pool := pool - {n};
          return;
        }
      }
      n := new TreapNode();
    }

    /** The split at the new key and the two merges around the new node. */
    method Plant(node: TreapNode, work: Elem, ghost leaf: Tree<TreapNode>)
      requires Shape(root, tree) && Separate(tree)
      requires leaf == Node(node, work, node.priority, Leaf, Leaf) && Shape(node, leaf) && node !in Refs(tree)
      modifies this`root, Refs(tree), node
      ensures Shape(root, Merge(Split(tree, work.at).0, Merge(leaf, Split(tree, work.at).1)))
    {
      ghost var a, b := Split(tree, work.at).0, Split(tree, work.at).1;
      SplitRefs(tree, work.at);
      assert allocated(Refs(tree)) && allocated(Refs(a)) && allocated(Refs(b));
      var left, right := SplitNodes(root, work.at, tree);
      MergeRefs(leaf, b);
      var m := MergeNodes(node, right, leaf, b);
      MergeRefs(a, Merge(leaf, b));
      var u := MergeNodes(left, m, a, Merge(leaf, b));
      Apart(this, Merge(a, Merge(leaf, b)));
      root := u;
    }

    /** Inserts work after every element dated at or before it, whatever priority is drawn. */
    method Add(work: Elem, priority: int)
      requires Valid()
      modifies this, Refs(tree), pool
      ensures Valid() && Contents() == InsertStable(old(Contents()), work)
      ensures fresh(Refs(tree) + pool - old(Refs(tree) + pool))
    {
      Apart(this, tree);
      var node := GetNode();
      node.value := Some(work);
      node.priority := priority;
      Insert(node, work, Node(node, work, priority, Leaf, Leaf));
    }

    /** Grows the tree by a filled single node. */
    method Insert(node: TreapNode, work: Elem, ghost leaf: Tree<TreapNode>)
      requires Valid() && node !in Refs(tree) && node !in pool
      requires leaf == Node(node, work, node.priority, Leaf, Leaf) && Shape(node, leaf)
      modifies this`root, this`size, this`tree, Refs(tree), node
      ensures Valid() && Contents() == InsertStable(old(Contents()), work) && Refs(tree) == old(Refs(tree)) + {node}
    {
      AddFacts(tree, leaf, work);
      ghost var grown := Merge(Split(tree, work.at).0, Merge(leaf, Split(tree, work.at).1));
      Apart(this, grown);
      Plant(node, work, leaf);
      size := size + 1;
      tree := grown;
    }

    /** Pop when the root itself is the minimum. */
    method PopRoot() returns (val: Opt)
      requires Valid() && root != null && root.left == null
      modifies this, root
      ensures Valid() && val == Some(old(Contents())[0]) && old(tree).Node? && tree == RemoveMin(old(tree))
      ensures pool == old(pool) + {old(root)}
    {
      PopFacts(tree);
      Apart(this, tree);
      assert Shape(root.left, tree.left);
      assert RemoveMin(tree) == tree.right && Least(tree) == root;
      var preNode := root;
      root := preNode.right;
      val := preNode.value;
      preNode.value := Zero;
      preNode.right := null;
      tree := tree.right;
      pool := pool + {preNode};
      size := size - 1;
    }

    /** The walk down the left spine. */
    method Leftmost() returns (preNode: TreapNode, node: TreapNode, ghost sub: Tree<TreapNode>)
      requires Valid() && root != null && root.left != null
      ensures OnLeftSpine(tree, sub) && sub.Node? && sub.left.Node? && sub.left.left.Leaf?
      ensures preNode == sub.ref && node == sub.left.ref && Shape(root, tree)
    {
      preNode, node, sub := root, root.left, tree;
      assert Shape(node, sub.left);
      while node.left != null
        invariant OnLeftSpine(tree, sub) && sub.Node? && sub.left.Node?
        invariant preNode == sub.ref && node == sub.left.ref && Shape(preNode, sub) && Shape(root, tree)
        decreases sub
      {
        SpineDown(tree, sub);
        preNode := node;
        node := preNode.left;
        sub := sub.left;
        assert Shape(node, sub.left);
      }
      assert Shape(node, sub.left) && Shape(node.left, sub.left.left);
    }

    /** The parent takes over the leftmost node's right subtree, and the node is cleared. */
    method Unlink(preNode: TreapNode, node: TreapNode, ghost sub: Tree<TreapNode>) returns (val: Opt)
      requires Shape(root, tree) && Separate(tree) && OnLeftSpine(tree, sub)
      requires sub.Node? && sub.left.Node? && sub.left.left.Leaf? && preNode == sub.ref && node == sub.left.ref
      modifies preNode, node
      ensures tree.Node? && Shape(root, RemoveMin(tree)) && Least(tree) == node && node.Clean()
      ensures InOrder(tree) != [] && val == Some(InOrder(tree)[0])
    {
      ShapeHasAround(root, tree, sub);
      SpineRefs(tree, sub);
      MinValue(tree, sub);
      assert Shape(node, sub.left) && Shape(node.left, sub.left.left) && Shape(node.right, sub.left.right);
      preNode.left := node.right;
      val := node.value;
      node.right := null;
      node.value := Zero;
      AroundClosed(root, tree, sub);
    }

    /** Pop when the minimum lies below the root. */
    method PopLeftmost() returns (val: Opt)
      requires Valid() && root != null && root.left != null
      modifies this, Refs(tree)
      ensures Valid() && val == Some(old(Contents())[0]) && old(tree).Node? && tree == RemoveMin(old(tree))
      ensures pool == old(pool) + {Least(old(tree))}
    {
      PopFacts(tree);
      Apart(this, tree);
      var preNode, node;
      ghost var sub;
      preNode, node, sub := Leftmost();
      SpineRefs(tree, sub);
      val := Unlink(preNode, node, sub);
      Apart(this, RemoveMin(tree));
      tree := RemoveMin(tree);
      pool := pool + {node};
      size := size - 1;
    }

    /** Removes and returns the element with the smallest time, the earliest added among equals. */
    method Pop() returns (val: Opt)
      requires Valid()
      modifies this, Refs(tree)
      ensures Valid() && fresh(Refs(tree) + pool - old(Refs(tree) + pool))
      ensures old(Contents()) == [] ==> val == Zero && Contents() == []
      ensures old(Contents()) != [] ==> val == Some(old(Contents())[0]) && Contents() == old(Contents())[1..]
    {
      if root == null {
        return Zero;
      }
      PopFacts(tree);
      if root.left == null {
        val := PopRoot();
      } else {
        val := PopLeftmost();
      }
    }

    /** Removes the elements whose time plus expiry has passed; they form the left part of a split. */
    method RemoveExpired(now: int, expiry: int) returns (removed: int)
      requires Valid()
      modifies this, Refs(tree)
      ensures Valid() && Refs(tree) + pool == old(Refs(tree) + pool)
      ensures Contents() == KeepLive(old(Contents()), now, expiry)
      ensures removed == |old(Contents())| - |Contents()|
    {
      var oriCount := size;
      var removeTime := now - expiry;
      ghost var a, b := Split(tree, removeTime).0, Split(tree, removeTime).1;
      ExpireFacts(tree, now, expiry);
      var leftTree := CutAt(removeTime);
      Discard(leftTree, a, b);
      tree := b;
      return oriCount - size;
    }

    /** Recycling one of two separate trees leaves the other and the pooled nodes alone. */
    method Discard(u: TreapNode?, ghost a: Tree<TreapNode>, ghost b: Tree<TreapNode>)
      requires Shape(u, a) && Separate(a) && Refs(a) !! Refs(b) && Shape(root, b)
      requires pool !! Refs(a) && forall n :: n in pool ==> n.Clean()
      modifies this`size, this`pool, Refs(a)
      ensures size == old(size) - |InOrder(a)| && pool == old(pool) + Refs(a)
      ensures Shape(root, b) && forall n :: n in pool ==> n.Clean()
    {
      Apart(this, b);
      assert allocated(Refs(b));
      RemoveTree(u, a);
    }

    /** Detaches the part dated at or before k and leaves the rest as the root. */
    method CutAt(k: int) returns (leftTree: TreapNode?)
      requires Shape(root, tree) && Separate(tree)
      modifies this`root, Refs(tree)
      ensures Shape(leftTree, Split(tree, k).0) && Shape(root, Split(tree, k).1)
    {
      Apart(this, Split(tree, k).0);
      Apart(this, Split(tree, k).1);
      var rest;
      leftTree, rest := SplitNodes(root, k, tree);
      root := rest;
    }

    /** Clears every node of the tree, puts it in the pool and counts it out. */
    method RemoveTree(u: TreapNode?, ghost t: Tree<TreapNode>)
      requires Shape(u, t) && Separate(t)
      modifies this`size, this`pool, Refs(t)
      ensures size == old(size) - |InOrder(t)| && pool == old(pool) + Refs(t)
      ensures forall n :: n in Refs(t) ==> n.Clean()
      decreases t
    {
      if u == null {
        return;
      }
      Apart(this, t);
      assert allocated(Refs(t.left)) && allocated(Refs(t.right));
      u.value := Zero;
      RemoveTree(u.left, t.left);
      u.left := null;
      RemoveTree(u.right, t.right);
      u.right := null;
      pool := pool + {u};
      size := size - 1;
    }
  }

  /** sub is t or lies on t's left spine. */
  ghost predicate OnLeftSpine(t: Tree<TreapNode>, sub: Tree<TreapNode>) {
    t == sub || (t.Node? && OnLeftSpine(t.left, sub))
  }

  lemma {:induction false} SpineRefs(t: Tree<TreapNode>, sub: Tree<TreapNode>)
    requires OnLeftSpine(t, sub)
    ensures Refs(sub) <= Refs(t) && (Separate(t) ==> Separate(sub))
  {
    if t != sub {
      SpineRefs(t.left, sub);
    }
  }

  lemma {:induction false} SpineDown(t: Tree<TreapNode>, sub: Tree<TreapNode>)
    requires OnLeftSpine(t, sub) && sub.Node?
    ensures OnLeftSpine(t, sub.left)
  {
    if t != sub {
      SpineDown(t.left, sub);
    }
  }

  /** The nodes of t outside sub have their shape, and the left spine leads to sub's root. */
  ghost predicate ShapeAround(u: TreapNode?, t: Tree<TreapNode>, sub: Tree<TreapNode>)
    requires Separate(t) && OnLeftSpine(t, sub) && sub.Node?
    reads Refs(t) - Refs(sub)
    decreases t
  {
    if t == sub then u == sub.ref
    else
      SpineRefs(t.left, sub);
      u == t.ref && t.ref.value == Some(t.value) && t.ref.priority == t.priority
      && ShapeAround(t.ref.left, t.left, sub) && Shape(t.ref.right, t.right)
  }

  lemma {:induction false} ShapeHasAround(u: TreapNode?, t: Tree<TreapNode>, sub: Tree<TreapNode>)
    requires Separate(t) && OnLeftSpine(t, sub) && sub.Node? && Shape(u, t)
    ensures ShapeAround(u, t, sub) && Shape(sub.ref, sub)
    decreases t
  {
    if t != sub {
      ShapeHasAround(t.ref.left, t.left, sub);
    }
  }

  /** With the leftmost node unlinked from its parent, the whole tree is the tree without its minimum. */
  lemma {:induction false} AroundClosed(u: TreapNode?, t: Tree<TreapNode>, sub: Tree<TreapNode>)
    requires Separate(t) && OnLeftSpine(t, sub) && sub.Node? && sub.left.Node? && sub.left.left.Leaf?
    requires ShapeAround(u, t, sub) && Shape(sub.ref, sub.(left := sub.left.right))
    ensures Shape(u, RemoveMin(t)) && Least(t) == sub.left.ref
    decreases t
  {
    if t != sub {
      AroundClosed(t.ref.left, t.left, sub);
    }
  }

  lemma {:induction false} MinValue(t: Tree<TreapNode>, sub: Tree<TreapNode>)
    requires OnLeftSpine(t, sub) && sub.Node? && sub.left.Node? && sub.left.left.Leaf?
    ensures InOrder(t) != [] && InOrder(t)[0] == sub.left.value
  {
    if t == sub {
      assert InOrder(sub.left) == [sub.left.value] + InOrder(sub.left.right);
    } else {
      MinValue(t.left, sub);
    }
  }

  lemma ExpireFacts(t: Tree<TreapNode>, now: int, expiry: int)
    requires SortedByTime(InOrder(t)) && HeapOrdered(t) && Separate(t)
    ensures var (a, b) := Split(t, now - expiry);
      InOrder(b) == KeepLive(InOrder(t), now, expiry) && SortedByTime(InOrder(b)) && |InOrder(a)| + |InOrder(b)| == |InOrder(t)|
      && HeapOrdered(b) && Separate(a) && Separate(b) && Refs(a) !! Refs(b) && Refs(a) + Refs(b) == Refs(t)
  {
    SplitHeap(t, now - expiry);
    SplitRefs(t, now - expiry);
    SplitIsKeepLive(t, now, expiry);
    SplitInOrder(t, now - expiry);
    SortedTail(InOrder(Split(t, now - expiry).0), InOrder(Split(t, now - expiry).1));
  }

  lemma SortedTail(p: seq<Elem>, q: seq<Elem>)
    requires SortedByTime(p + q)
    ensures SortedByTime(q)
  {
    forall i, j | 0 <= i < j < |q|
      ensures q[i].at <= q[j].at
    {
      assert q[i] == (p + q)[|p| + i] && q[j] == (p + q)[|p| + j];
    }
  }

  lemma AddFacts(t: Tree<TreapNode>, n: Tree<TreapNode>, e: Elem)
    requires SortedByTime(InOrder(t)) && HeapOrdered(t) && InOrder(n) == [e] && HeapOrdered(n)
    requires Separate(t) && Separate(n) && Refs(t) !! Refs(n)
    ensures var m := Merge(Split(t, e.at).0, Merge(n, Split(t, e.at).1));
      InOrder(m) == InsertStable(InOrder(t), e) && SortedByTime(InOrder(m)) && HeapOrdered(m) && |InOrder(m)| == |InOrder(t)| + 1
      && Separate(m) && Refs(m) == Refs(t) + Refs(n)
  {
    SplitRefs(t, e.at);
    MergeRefs(n, Split(t, e.at).1);
    MergeRefs(Split(t, e.at).0, Merge(n, Split(t, e.at).1));
    AddIsStableInsert(t, n, e);
    SplitHeap(t, e.at);
    MergeHeap(n, Split(t, e.at).1);
    MergeHeap(Split(t, e.at).0, Merge(n, Split(t, e.at).1));
  }
}
