/** The WordFM finite map: AVL nodes rewritten in place, and the iterator with its fixed stack. */
module WordFM {
  import opened Wrappers
  import opened AvlTree
  import opened AvlMap
  import opened IteratorStack

  class AvlNode<K, V> {
    const key: K
    var val: V
    var left: AvlNode?<K, V>
    var right: AvlNode?<K, V>
    var balance: int
    ghost var tree: Tree<K, V>              // the subtree below, as a value
    ghost var repr: set<AvlNode<K, V>>      // its nodes

    constructor (key: K, val: V)
      ensures this.key == key && this.val == val
    {
      this.key, this.val, left, right, balance := key, val, null, null, 0;
      tree, repr := Leaf, {};
    }

    ghost predicate Valid()
      reads this, repr
      decreases repr
      ensures Valid() ==> this in repr && tree.Node?
    {
      && this in repr
      && tree.Node? && tree.key == key && tree.val == val && tree.bal == balance
      && (left != null ==> left in repr && left.repr <= repr && this !in left.repr && left.Valid())
      && (right != null ==> right in repr && right.repr <= repr && this !in right.repr && right.Valid())
      && (left != null && right != null ==> left.repr !! right.repr)
      && tree.left == TreeOf(left) && tree.right == TreeOf(right)
    }
  }

  ghost function TreeOf<K, V>(n: AvlNode?<K, V>): Tree<K, V>
    reads n
  {
    if n == null then Leaf else n.tree
  }

  ghost function ReprOf<K, V>(n: AvlNode?<K, V>): set<AvlNode<K, V>>
    reads n
  {
    if n == null then {} else n.repr
  }

  /** Brings the ghost fields of a node up to date with its real ones. */
  ghost method Refresh<K, V>(n: AvlNode<K, V>)
    requires n.left != null ==> n.left.Valid() && n !in n.left.repr
    requires n.right != null ==> n.right.Valid() && n !in n.right.repr
    requires ReprOf(n.left) !! ReprOf(n.right)
    modifies n`tree, n`repr
    ensures n.Valid()
    ensures n.tree == Node(TreeOf(n.left), n.key, n.val, TreeOf(n.right), n.balance)
    ensures n.repr == {n} + ReprOf(n.left) + ReprOf(n.right)
  {
    n.tree := Node(TreeOf(n.left), n.key, n.val, TreeOf(n.right), n.balance);
    n.repr := {n} + ReprOf(n.left) + ReprOf(n.right);
  }

  method SwingLeft<K, V>(a: AvlNode<K, V>) returns (b: AvlNode<K, V>)
    requires a.Valid() && a.right != null
    modifies a, a.right
    ensures b == old(a.right) && b.left == a && b.right == old(a.right.right)
    ensures b.Valid() && b.repr == old(a.repr) && b.tree == AvlTree.SwingLeft(old(a.tree))
  {
    b := a.right;
    a.right := b.left;
    b.left := a;
    a.tree, b.tree := a.tree.(right := b.tree.left), AvlTree.SwingLeft(a.tree);
    a.repr := {a} + ReprOf(a.left) + ReprOf(a.right);
    b.repr := old(a.repr);
  }

  method SwingRight<K, V>(a: AvlNode<K, V>) returns (b: AvlNode<K, V>)
    requires a.Valid() && a.left != null
    modifies a, a.left
    ensures b == old(a.left) && b.right == a && b.left == old(a.left.left)
    ensures b.Valid() && b.repr == old(a.repr) && b.tree == AvlTree.SwingRight(old(a.tree))
  {
    b := a.left;
    a.left := b.right;
    b.right := a;
    a.tree, b.tree := a.tree.(left := b.tree.right), AvlTree.SwingRight(a.tree);
    a.repr := {a} + ReprOf(a.left) + ReprOf(a.right);
    b.repr := old(a.repr);
  }

  /** Sets a balance byte. */
  method SetBalance<K, V>(n: AvlNode<K, V>, b: int)
    requires n.Valid()
    modifies n
    ensures n.Valid() && n.repr == old(n.repr) && n.left == old(n.left) && n.right == old(n.right)
    ensures n.tree == old(n.tree).(bal := b)
  {
    n.balance := b;
    n.tree := n.tree.(bal := b);
  }

  /** Balances after a single rotation that brought the old root below `root` on the right. */
  method LevelRight<K, V>(root: AvlNode<K, V>, m: int, r: int)
    requires root.Valid() && root.right != null
    modifies root, root.right
    ensures root.Valid() && root.repr == old(root.repr)
    ensures root.tree == old(root.tree).(right := old(root.tree).right.(bal := r), bal := m)
  {
    root.balance := m;
    SetBalance(root.right, r);
    root.tree := root.tree.(right := root.right.tree, bal := m);
  }

  method LevelLeft<K, V>(root: AvlNode<K, V>, m: int, l: int)
    requires root.Valid() && root.left != null
    modifies root, root.left
    ensures root.Valid() && root.repr == old(root.repr)
    ensures root.tree == old(root.tree).(left := old(root.tree).left.(bal := l), bal := m)
  {
    root.balance := m;
    SetBalance(root.left, l);
    root.tree := root.tree.(left := root.left.tree, bal := m);
  }

  /** Balance maintenance after a double rotation. */
  method Nasty<K, V>(root: AvlNode<K, V>)
    requires root.Valid() && root.left != null && root.right != null && -1 <= root.balance <= 1
    modifies root, root.left, root.right
    ensures root.Valid() && root.repr == old(root.repr)
    ensures root.tree == AvlTree.Nasty(old(root.tree))
  {
    var b := root.balance;
    SetBalance(root.left, if b == 1 then -1 else 0);
    SetBalance(root.right, if b == -1 then 1 else 0);
    root.balance := 0;
    root.tree := root.tree.(left := root.left.tree, right := root.right.tree, bal := 0);
  }

  method DoubleSwingRight<K, V>(root: AvlNode<K, V>) returns (r: AvlNode<K, V>)
    requires root.Valid() && root.tree.left.Node? && root.tree.left.bal > 0
    requires root.tree.left.right.Node? && -1 <= root.tree.left.right.bal <= 1
    modifies root.repr
    ensures r.Valid() && r.repr == old(root.repr)
    ensures r.tree == LiftLeft(old(root.tree))
  {
    var l := SwingLeft(root.left);
    root.left := l;
    root.tree := root.tree.(left := l.tree);
    r := SwingRight(root);
    Nasty(r);
  }

  method DoubleSwingLeft<K, V>(root: AvlNode<K, V>) returns (r: AvlNode<K, V>)
    requires root.Valid() && root.tree.right.Node? && root.tree.right.bal < 0
    requires root.tree.right.left.Node? && -1 <= root.tree.right.left.bal <= 1
    modifies root.repr
    ensures r.Valid() && r.repr == old(root.repr)
    ensures r.tree == LiftRight(old(root.tree))
  {
    var l := SwingRight(root.right);
    root.right := l;
    root.tree := root.tree.(right := l.tree);
    r := SwingLeft(root);
    Nasty(r);
  }

  // ----- insertion

  /** The repair of avl_insert_wrk when the left subtree has come to be two higher. */
  method InsertLiftLeft<K, V>(root: AvlNode<K, V>) returns (r: AvlNode<K, V>)
    requires root.Valid() && Balanced(root.tree.left) && root.tree.left.Node? && root.tree.left.bal != 0
    modifies root.repr
    ensures r.Valid() && r.repr == old(root.repr) && r.tree == LiftLeft(old(root.tree))
  {
    if root.left.balance < 0 {
      r := SwingRight(root);
      LevelRight(r, 0, 0);
    } else {
      r := DoubleSwingRight(root);
    }
  }

  method InsertLiftRight<K, V>(root: AvlNode<K, V>) returns (r: AvlNode<K, V>)
    requires root.Valid() && Balanced(root.tree.right) && root.tree.right.Node? && root.tree.right.bal != 0
    modifies root.repr
    ensures r.Valid() && r.repr == old(root.repr) && r.tree == LiftRight(old(root.tree))
  {
    if root.right.balance > 0 {
      r := SwingLeft(root);
      LevelLeft(r, 0, 0);
    } else {
      r := DoubleSwingLeft(root);
    }
  }

  /** avl_insert_wrk: puts node `a` into the tree, or copies its value over an equal key. A subtree
      that reports growth keeps its root node, so the caller need not relink it. */
  method InsertWrk<K, V>(root: AvlNode?<K, V>, a: AvlNode<K, V>, cmp: (K, K) -> int)
      returns (r: AvlNode<K, V>, grew: bool, oldV: Option<V>)
    requires root != null ==> root.Valid() && Balanced(root.tree)
    requires a !in ReprOf(root)
    modifies ReprOf(root), a
    ensures r.Valid() && r.repr <= old(ReprOf(root)) + {a}
    ensures oldV.Some? ==> a !in r.repr
    ensures Inserted(r.tree, grew, oldV) == Insert(old(TreeOf(root)), a.key, old(a.val), cmp)
    ensures grew && root != null ==> r == root
    decreases TreeOf(root)
  {
    a.left, a.right, a.balance := null, null, 0;
    Refresh(a);
    oldV, grew := None, false;
    if root == null {
      return a, true, None;
    }
    r := root;
    var c := cmp(root.key, a.key);
    if c > 0 {
      r, grew, oldV := InsertLeft(root, a, cmp);
    } else if c < 0 {
      r, grew, oldV := InsertRight(root, a, cmp);
    } else {
      oldV := Some(root.val);
      root.val := a.val;
      root.tree := root.tree.(val := a.val);
    }
  }

  method InsertLeft<K, V>(root: AvlNode<K, V>, a: AvlNode<K, V>, cmp: (K, K) -> int)
      returns (r: AvlNode<K, V>, grew: bool, oldV: Option<V>)
    requires root.Valid() && Balanced(root.tree) && cmp(root.key, a.key) > 0
    requires a !in root.repr
    requires a.left == null && a.right == null && a.balance == 0 && a.repr == {a} && a.Valid()
    modifies root.repr, a
    ensures r.Valid() && r.repr <= old(root.repr) + {a}
    ensures oldV.Some? ==> a !in r.repr
    ensures Inserted(r.tree, grew, oldV) == Insert(old(root.tree), a.key, old(a.val), cmp)
    ensures grew ==> r == root
    decreases TreeOf(root), 2
  {
    r := root;
    ghost var t, s := root.tree, Insert(root.tree.left, a.key, a.val, cmp);
    InsertThenLeft(t, a.key, a.val, cmp);
    hide *;
    grew, oldV := InsertBelowLeft(root, a, cmp);
    if grew {
      r, grew := LeftGrew(root, t, oldV);
    }
  }

  lemma {:induction false} InsertThenLeft<K, V>(t: Tree<K, V>, k: K, v: V, cmp: (K, K) -> int)
    requires t.Node? && Balanced(t) && cmp(t.key, k) > 0
    ensures Balanced(t.left) && (t.left.Leaf? ==> t.bal >= 0)
    ensures var s := Insert(t.left, k, v, cmp);
      && Grows(t.left, s) && Insert(t, k, v, cmp) == GrownLeft(t, s)
      && (!s.grew ==> GrownLeft(t, s) == Inserted(t.(left := s.tree), false, s.prior))
  {}

  lemma {:induction false} InsertIntoLeaf<K, V>(k: K, v: V, cmp: (K, K) -> int)
    ensures Insert(Leaf, k, v, cmp) == Inserted(Node(Leaf, k, v, Leaf, 0), true, None)
  {}

  /** The recursive half of an insertion on the left: only a subtree that did not grow is relinked. */
  method InsertBelowLeft<K, V>(root: AvlNode<K, V>, a: AvlNode<K, V>, cmp: (K, K) -> int)
      returns (grew: bool, oldV: Option<V>)
    requires root.Valid() && Balanced(root.tree)
    requires a !in root.repr
    requires a.left == null && a.right == null && a.balance == 0 && a.repr == {a} && a.Valid()
    modifies root`left, root`tree, root`repr, ReprOf(root.left), a
    ensures root.Valid() && root.repr <= old(root.repr) + {a}
    ensures oldV.Some? ==> a !in root.repr
    ensures Inserted(root.tree.left, grew, oldV) == Insert(old(root.tree).left, a.key, old(a.val), cmp)
    ensures root.tree == old(root.tree).(left := root.tree.left)
    decreases TreeOf(root), 1
  {
    hide Balanced, Height, Insert, Grows;
    grew, oldV := InsertUnderLeft(root, a, cmp);
    Refresh(root);
  }

  method InsertUnderLeft<K, V>(root: AvlNode<K, V>, a: AvlNode<K, V>, cmp: (K, K) -> int)
      returns (grew: bool, oldV: Option<V>)
    requires root.Valid() && Balanced(root.tree)
    requires a !in root.repr
    requires a.left == null && a.right == null && a.balance == 0 && a.repr == {a} && a.Valid()
    modifies root`left, ReprOf(root.left), a
    ensures root.left != null && root.left.Valid() && root.left.repr <= old(ReprOf(root.left)) + {a}
    ensures oldV.Some? ==> a !in root.left.repr
    ensures Inserted(root.left.tree, grew, oldV) == Insert(old(TreeOf(root.left)), a.key, old(a.val), cmp)
    ensures root !in root.left.repr && (root.right != null ==> root.right.Valid() && root !in root.right.repr)
    ensures ReprOf(root.right) == old(ReprOf(root.right)) && TreeOf(root.right) == old(TreeOf(root.right))
    ensures root.left.repr !! ReprOf(root.right)
    decreases TreeOf(root), 0
  {
    InsertIntoLeaf(a.key, a.val, cmp);
    hide Balanced, Height, Insert, Grows;
    if root.left != null {
      var l;
      l, grew, oldV := InsertWrk(root.left, a, cmp);
      if !grew { root.left := l; }
    } else {
      root.left := a;
      grew, oldV := true, None;
    }
  }

  method LeftGrew<K, V>(root: AvlNode<K, V>, ghost t: Tree<K, V>, ghost prior: Option<V>)
      returns (r: AvlNode<K, V>, grew: bool)
    requires root.Valid() && t.Node? && Balanced(t) && root.tree == t.(left := root.tree.left)
    requires Grows(t.left, Inserted(root.tree.left, true, prior)) && (t.left.Leaf? ==> t.bal >= 0)
    modifies root.repr
    ensures r.Valid() && r.repr == old(root.repr)
    ensures Inserted(r.tree, grew, prior) == GrownLeft(t, Inserted(old(root.tree).left, true, prior))
    ensures grew ==> r == root
  {
    r := root;
    var b := root.balance;
    SetBalance(root, b - 1);
    grew := b == 0;
    if b == -1 { r := InsertLiftLeft(root); }
  }

  method InsertRight<K, V>(root: AvlNode<K, V>, a: AvlNode<K, V>, cmp: (K, K) -> int)
      returns (r: AvlNode<K, V>, grew: bool, oldV: Option<V>)
    requires root.Valid() && Balanced(root.tree) && cmp(root.key, a.key) < 0
    requires a !in root.repr
    requires a.left == null && a.right == null && a.balance == 0 && a.repr == {a} && a.Valid()
    modifies root.repr, a
    ensures r.Valid() && r.repr <= old(root.repr) + {a}
    ensures oldV.Some? ==> a !in r.repr
    ensures Inserted(r.tree, grew, oldV) == Insert(old(root.tree), a.key, old(a.val), cmp)
    ensures grew ==> r == root
    decreases TreeOf(root), 2
  {
    r := root;
    ghost var t, s := root.tree, Insert(root.tree.right, a.key, a.val, cmp);
    InsertThenRight(t, a.key, a.val, cmp);
    hide *;
    grew, oldV := InsertBelowRight(root, a, cmp);
    if grew {
      r, grew := RightGrew(root, t, oldV);
    }
  }

  lemma {:induction false} InsertThenRight<K, V>(t: Tree<K, V>, k: K, v: V, cmp: (K, K) -> int)
    requires t.Node? && Balanced(t) && cmp(t.key, k) < 0
    ensures Balanced(t.right) && (t.right.Leaf? ==> t.bal <= 0)
    ensures var s := Insert(t.right, k, v, cmp);
      && Grows(t.right, s) && Insert(t, k, v, cmp) == GrownRight(t, s)
      && (!s.grew ==> GrownRight(t, s) == Inserted(t.(right := s.tree), false, s.prior))
  {}

  /** The recursive half of an insertion on the right: only a subtree that did not grow is relinked. */
  method InsertBelowRight<K, V>(root: AvlNode<K, V>, a: AvlNode<K, V>, cmp: (K, K) -> int)
      returns (grew: bool, oldV: Option<V>)
    requires root.Valid() && Balanced(root.tree)
    requires a !in root.repr
    requires a.left == null && a.right == null && a.balance == 0 && a.repr == {a} && a.Valid()
    modifies root`right, root`tree, root`repr, ReprOf(root.right), a
    ensures root.Valid() && root.repr <= old(root.repr) + {a}
    ensures oldV.Some? ==> a !in root.repr
    ensures Inserted(root.tree.right, grew, oldV) == Insert(old(root.tree).right, a.key, old(a.val), cmp)
    ensures root.tree == old(root.tree).(right := root.tree.right)
    decreases TreeOf(root), 1
  {
    hide Balanced, Height, Insert, Grows;
    grew, oldV := InsertUnderRight(root, a, cmp);
    Refresh(root);
  }

  method InsertUnderRight<K, V>(root: AvlNode<K, V>, a: AvlNode<K, V>, cmp: (K, K) -> int)
      returns (grew: bool, oldV: Option<V>)
    requires root.Valid() && Balanced(root.tree)
    requires a !in root.repr
    requires a.left == null && a.right == null && a.balance == 0 && a.repr == {a} && a.Valid()
    modifies root`right, ReprOf(root.right), a
    ensures root.right != null && root.right.Valid() && root.right.repr <= old(ReprOf(root.right)) + {a}
    ensures oldV.Some? ==> a !in root.right.repr
    ensures Inserted(root.right.tree, grew, oldV) == Insert(old(TreeOf(root.right)), a.key, old(a.val), cmp)
    ensures root !in root.right.repr && (root.left != null ==> root.left.Valid() && root !in root.left.repr)
    ensures ReprOf(root.left) == old(ReprOf(root.left)) && TreeOf(root.left) == old(TreeOf(root.left))
    ensures root.right.repr !! ReprOf(root.left)
    decreases TreeOf(root), 0
  {
    InsertIntoLeaf(a.key, a.val, cmp);
    hide Balanced, Height, Insert, Grows;
    if root.right != null {
      var l;
      l, grew, oldV := InsertWrk(root.right, a, cmp);
      if !grew { root.right := l; }
    } else {
      root.right := a;
      grew, oldV := true, None;
    }
  }

  method RightGrew<K, V>(root: AvlNode<K, V>, ghost t: Tree<K, V>, ghost prior: Option<V>)
      returns (r: AvlNode<K, V>, grew: bool)
    requires root.Valid() && t.Node? && Balanced(t) && root.tree == t.(right := root.tree.right)
    requires Grows(t.right, Inserted(root.tree.right, true, prior)) && (t.right.Leaf? ==> t.bal <= 0)
    modifies root.repr
    ensures r.Valid() && r.repr == old(root.repr)
    ensures Inserted(r.tree, grew, prior) == GrownRight(t, Inserted(old(root.tree).right, true, prior))
    ensures grew ==> r == root
  {
    r := root;
    var b := root.balance;
    SetBalance(root, b + 1);
    grew := b == 0;
    if b == 1 { r := InsertLiftRight(root); }
  }

  // ----- search

  /** The node that binary search for `k` ends at, if any. */
  ghost function NodeAt<K, V>(n: AvlNode?<K, V>, k: K, cmp: (K, K) -> int): (a: AvlNode?<K, V>)
    reads n, if n == null then {} else n.repr
    requires n != null ==> n.Valid()
    ensures a != null ==> n != null && a in n.repr && a.Valid() && cmp(a.key, k) == 0
    decreases TreeOf(n)
  {
    if n == null then null
    else if cmp(n.key, k) > 0 then NodeAt(n.left, k, cmp)
    else if cmp(n.key, k) < 0 then NodeAt(n.right, k, cmp)
    else n
  }

  method FindNode<K, V>(root: AvlNode?<K, V>, k: K, cmp: (K, K) -> int) returns (t: AvlNode?<K, V>)
    requires root != null ==> root.Valid()
    ensures t == NodeAt(root, k, cmp)
  {
    t := root;
    while t != null
      invariant t != null ==> t.Valid()
      invariant NodeAt(t, k, cmp) == NodeAt(root, k, cmp)
      decreases TreeOf(t)
    {
      var c := cmp(t.key, k);
      if c > 0 { t := t.left; }
      else if c < 0 { t := t.right; }
      else { return; }
    }
  }

  // ----- removal

  /** The repair of avl_remove_wrk when the left subtree has become lower. */
  method LeftShrank<K, V>(root: AvlNode<K, V>, ghost t: Tree<K, V>) returns (r: AvlNode<K, V>, shrunk: bool)
    requires root.Valid() && t.Node? && Balanced(t) && Shrinks(t.left, Removed(root.tree.left, true))
    requires t == root.tree.(left := t.left)
    modifies root.repr
    ensures r.Valid() && r.repr == old(root.repr)
    ensures Removed(r.tree, shrunk) == AfterLeft(t, Removed(old(root.tree).left, true))
    ensures t.bal < 0 ==> r == root
  {
    r := root;
    var b := root.balance;
    SetBalance(root, b + 1);
    if b == -1 { return root, true; }
    if b == 0 { return root, false; }
    if root.right.balance == 0 {
      r := SwingLeft(root);
      LevelLeft(r, -1, 1);
      shrunk := false;
    } else if root.right.balance == 1 {
      r := SwingLeft(root);
      LevelLeft(r, 0, 0);
      shrunk := true;
    } else {
      assert root.tree.right == t.right && Balanced(t.right.left);
      r := DoubleSwingLeft(root);
      shrunk := true;
    }
  }

  method RightShrank<K, V>(root: AvlNode<K, V>, ghost t: Tree<K, V>) returns (r: AvlNode<K, V>, shrunk: bool)
    requires root.Valid() && t.Node? && Balanced(t) && Shrinks(t.right, Removed(root.tree.right, true))
    requires t == root.tree.(right := t.right)
    modifies root.repr
    ensures r.Valid() && r.repr == old(root.repr)
    ensures Removed(r.tree, shrunk) == AfterRight(t, Removed(old(root.tree).right, true))
    ensures t.bal >= 0 ==> r == root
  {
    r := root;
    var b := root.balance;
    SetBalance(root, b - 1);
    if b == 1 { return root, true; }
    if b == 0 { return root, false; }
    if root.left.balance == 0 {
      r := SwingRight(root);
      LevelRight(r, 1, -1);
      shrunk := false;
    } else if root.left.balance == -1 {
      r := SwingRight(root);
      LevelRight(r, 0, 0);
      shrunk := true;
    } else {
      assert root.tree.left == t.left && Balanced(t.left.right);
      r := DoubleSwingRight(root);
      shrunk := true;
    }
  }

  /** Search for `k` runs down the right (left) edge of the tree and stops at its end. */
  ghost predicate RightEdge<K, V>(t: Tree<K, V>, k: K, cmp: (K, K) -> int) {
    t.Node? && if t.right.Leaf? then cmp(t.key, k) == 0 else cmp(t.key, k) < 0 && RightEdge(t.right, k, cmp)
  }

  ghost predicate LeftEdge<K, V>(t: Tree<K, V>, k: K, cmp: (K, K) -> int) {
    t.Node? && if t.left.Leaf? then cmp(t.key, k) == 0 else cmp(t.key, k) > 0 && LeftEdge(t.left, k, cmp)
  }

  /** What removal needs of the key order: at every node, search finds both neighbours of the node. */
  ghost predicate Searchable<K, V>(t: Tree<K, V>, cmp: (K, K) -> int) {
    t.Node? ==>
      && Searchable(t.left, cmp) && Searchable(t.right, cmp)
      && (t.left.Node? ==> cmp(t.key, Last(t.left).0) > 0 && RightEdge(t.left, Last(t.left).0, cmp))
      && (t.right.Node? ==> cmp(t.key, First(t.right).0) < 0 && LeftEdge(t.right, First(t.right).0, cmp))
  }

  lemma {:induction false} EdgesFound<K(!new), V>(t: Tree<K, V>, cmp: (K, K) -> int)
    requires t.Node? && Lawful(cmp) && Ordered(t, cmp)
    ensures RightEdge(t, Last(t).0, cmp) && LeftEdge(t, First(t).0, cmp)
  {
    OrderedParts(t, cmp);
    if t.right.Node? { LastListed(t.right); EdgesFound(t.right, cmp); }
    if t.left.Node? { FirstListed(t.left); EdgesFound(t.left, cmp); Mirror(First(t.left).0, t.key, cmp); }
  }

  lemma {:induction false} OrderedSearchable<K(!new), V>(t: Tree<K, V>, cmp: (K, K) -> int)
    requires Lawful(cmp) && Ordered(t, cmp)
    ensures Searchable(t, cmp)
  {
    if t.Node? {
      OrderedParts(t, cmp);
      OrderedSearchable(t.left, cmp);
      OrderedSearchable(t.right, cmp);
      if t.left.Node? { LastListed(t.left); EdgesFound(t.left, cmp); Mirror(Last(t.left).0, t.key, cmp); }
      if t.right.Node? { FirstListed(t.right); EdgesFound(t.right, cmp); }
    }
  }

  method Rightmost<K, V>(n: AvlNode<K, V>, ghost cmp: (K, K) -> int) returns (a: AvlNode<K, V>)
    requires n.Valid() && RightEdge(n.tree, Last(n.tree).0, cmp)
    ensures (a.key, a.val) == Last(n.tree) && NodeAt(n, a.key, cmp) == a
  {
    a := n;
    ghost var k := Last(n.tree).0;
    while a.right != null
      invariant a.Valid() && Last(a.tree) == Last(n.tree) && RightEdge(a.tree, k, cmp)
      invariant NodeAt(a, k, cmp) == NodeAt(n, k, cmp)
      decreases a.tree
    {
      a := a.right;
    }
  }

  method Leftmost<K, V>(n: AvlNode<K, V>, ghost cmp: (K, K) -> int) returns (a: AvlNode<K, V>)
    requires n.Valid() && LeftEdge(n.tree, First(n.tree).0, cmp)
    ensures (a.key, a.val) == First(n.tree) && NodeAt(n, a.key, cmp) == a
  {
    a := n;
    ghost var k := First(n.tree).0;
    while a.left != null
      invariant a.Valid() && First(a.tree) == First(n.tree) && LeftEdge(a.tree, k, cmp)
      invariant NodeAt(a, k, cmp) == NodeAt(n, k, cmp)
      decreases a.tree
    {
      a := a.left;
    }
  }

  /** avl_remove_wrk: unlinks node `a`, which is the one that search for its key finds. A root that
      loses from a side that is not the lower one stays the root. */
  method RemoveWrk<K, V>(root: AvlNode<K, V>, a: AvlNode<K, V>, cmp: (K, K) -> int)
      returns (r: AvlNode?<K, V>, shrunk: bool)
    requires root.Valid() && Balanced(root.tree) && Searchable(root.tree, cmp) && NodeAt(root, a.key, cmp) == a
    modifies root.repr
    ensures r != null ==> r.Valid()
    ensures ReprOf(r) <= old(root.repr) - {a} && a.val == old(a.val)
    ensures Removed(TreeOf(r), shrunk) == Remove(old(root.tree), a.key, cmp)
    ensures old(root.tree).bal < 0 && cmp(root.key, a.key) > 0 ==> r == root
    ensures old(root.tree).bal >= 0 && cmp(root.key, a.key) < 0 ==> r == root
    decreases TreeOf(root), if cmp(root.key, a.key) == 0 then 6 else 2
  {
    var c := cmp(root.key, a.key);
    if c > 0 {
      assert root.left != null;
      r, shrunk := RemoveLeft(root, a, cmp);
    } else if c < 0 {
      assert root.right != null;
      r, shrunk := RemoveRight(root, a, cmp);
    } else {
      assert root == a;
      r, shrunk := RemoveRoot(root, cmp);
    }
  }

  method RemoveLeft<K, V>(root: AvlNode<K, V>, a: AvlNode<K, V>, cmp: (K, K) -> int)
      returns (r: AvlNode<K, V>, shrunk: bool)
    requires root.Valid() && Balanced(root.tree) && root.left != null && Searchable(root.tree.left, cmp)
    requires root != a && NodeAt(root.left, a.key, cmp) == a
    modifies root.repr
    ensures r.Valid() && r.repr <= old(root.repr) && a !in r.repr && a.val == old(a.val)
    ensures Removed(r.tree, shrunk) == AfterLeft(old(root.tree), Remove(old(root.tree).left, a.key, cmp))
    ensures old(root.tree).bal < 0 ==> r == root
    decreases TreeOf(root), 1
  {
    ghost var t := root.tree;
    RemoveThenLeft(t, a.key, cmp);
    hide *;
    var ch := RemoveBelowLeft(root, a, cmp);
    r, shrunk := root, false;
    if ch { r, shrunk := LeftShrank(root, t); }
  }

  method RemoveRight<K, V>(root: AvlNode<K, V>, a: AvlNode<K, V>, cmp: (K, K) -> int)
      returns (r: AvlNode<K, V>, shrunk: bool)
    requires root.Valid() && Balanced(root.tree) && root.right != null && Searchable(root.tree.right, cmp)
    requires root != a && NodeAt(root.right, a.key, cmp) == a
    modifies root.repr
    ensures r.Valid() && r.repr <= old(root.repr) && a !in r.repr && a.val == old(a.val)
    ensures Removed(r.tree, shrunk) == AfterRight(old(root.tree), Remove(old(root.tree).right, a.key, cmp))
    ensures old(root.tree).bal >= 0 ==> r == root
    decreases TreeOf(root), 1
  {
    ghost var t := root.tree;
    RemoveThenRight(t, a.key, cmp);
    hide *;
    var ch := RemoveBelowRight(root, a, cmp);
    r, shrunk := root, false;
    if ch { r, shrunk := RightShrank(root, t); }
  }

  lemma {:induction false} RemoveThenLeft<K, V>(t: Tree<K, V>, k: K, cmp: (K, K) -> int)
    requires t.Node? && Balanced(t)
    ensures Balanced(t.left)
    ensures var s := Remove(t.left, k, cmp);
      Shrinks(t.left, s) && (!s.shrunk ==> AfterLeft(t, s) == Removed(t.(left := s.tree), false))
  {}

  method RemoveBelowLeft<K, V>(root: AvlNode<K, V>, a: AvlNode<K, V>, cmp: (K, K) -> int)
      returns (ch: bool)
    requires root.Valid() && root.left != null && root != a && Balanced(root.tree.left)
    requires Searchable(root.tree.left, cmp)
    requires NodeAt(root.left, a.key, cmp) == a
    modifies root`left, root`tree, root`repr, root.left.repr
    ensures root.Valid() && root.repr <= old(root.repr) && a !in root.repr && a.val == old(a.val)
    ensures Removed(root.tree.left, ch) == Remove(old(root.tree).left, a.key, cmp)
    ensures root.tree == old(root.tree).(left := root.tree.left)
    decreases TreeOf(root), 0
  {
    hide Balanced, Height, Searchable, Remove, NodeAt;
    var l;
    l, ch := RemoveWrk(root.left, a, cmp);
    root.left := l;
    Refresh(root);
  }

  lemma {:induction false} RemoveThenRight<K, V>(t: Tree<K, V>, k: K, cmp: (K, K) -> int)
    requires t.Node? && Balanced(t)
    ensures Balanced(t.right)
    ensures var s := Remove(t.right, k, cmp);
      Shrinks(t.right, s) && (!s.shrunk ==> AfterRight(t, s) == Removed(t.(right := s.tree), false))
  {}

  method RemoveBelowRight<K, V>(root: AvlNode<K, V>, a: AvlNode<K, V>, cmp: (K, K) -> int)
      returns (ch: bool)
    requires root.Valid() && root.right != null && root != a && Balanced(root.tree.right)
    requires Searchable(root.tree.right, cmp)
    requires NodeAt(root.right, a.key, cmp) == a
    modifies root`right, root`tree, root`repr, root.right.repr
    ensures root.Valid() && root.repr <= old(root.repr) && a !in root.repr && a.val == old(a.val)
    ensures Removed(root.tree.right, ch) == Remove(old(root.tree).right, a.key, cmp)
    ensures root.tree == old(root.tree).(right := root.tree.right)
    decreases TreeOf(root), 0
  {
    hide Balanced, Height, Searchable, Remove, NodeAt;
    var l;
    l, ch := RemoveWrk(root.right, a, cmp);
    root.right := l;
    Refresh(root);
  }

  /** avl_removeroot_wrk: the root's place is taken by its neighbour in key order, which is found,
      removed from the tree, and then given the root's fields. */
  method RemoveRoot<K, V>(root: AvlNode<K, V>, cmp: (K, K) -> int)
      returns (r: AvlNode?<K, V>, shrunk: bool)
    requires root.Valid() && Balanced(root.tree) && Searchable(root.tree, cmp)
    modifies root.repr
    ensures r != null ==> r.Valid()
    ensures ReprOf(r) <= old(root.repr) - {root} && root.val == old(root.val)
    ensures Removed(TreeOf(r), shrunk) == AvlTree.RemoveRoot(old(root.tree), cmp)
    decreases TreeOf(root), 5
  {
    if root.left == null { return root.right, true; }
    if root.right == null { return root.left, true; }
    r, shrunk := ReplaceRoot(root, cmp);
  }

  method ReplaceRoot<K, V>(root: AvlNode<K, V>, cmp: (K, K) -> int)
      returns (r: AvlNode<K, V>, shrunk: bool)
    requires root.Valid() && Balanced(root.tree) && Searchable(root.tree, cmp)
    requires root.left != null && root.right != null
    modifies root.repr
    ensures r.Valid()
    ensures r.repr <= old(root.repr) - {root} && root.val == old(root.val)
    ensures Removed(r.tree, shrunk) == AvlTree.RemoveRoot(old(root.tree), cmp)
    decreases TreeOf(root), 4
  {
    hide Balanced, Height, First, Last, Remove, AvlTree.RemoveRoot, Searchable, NodeAt;
    ghost var t := root.tree;
    var a, ch := TakeNeighbour(root, cmp);
    RootReplaced(t, a.key, a.val, cmp);
    TakePlace(root, a);
    r := a;
    shrunk := if a.balance == 0 then ch else false;
  }

  /** Takes the neighbour of the root out of its tree; the root stays where it is. */
  method TakeNeighbour<K, V>(root: AvlNode<K, V>, cmp: (K, K) -> int) returns (a: AvlNode<K, V>, ch: bool)
    requires root.Valid() && Balanced(root.tree) && Searchable(root.tree, cmp)
    requires root.left != null && root.right != null
    modifies root.repr
    ensures root.Valid() && root.repr <= old(root.repr) - {a} && a in old(root.repr) && root.val == old(root.val)
    ensures (a.key, a.val) == if old(root.tree).bal < 0 then Last(old(root.tree).left) else First(old(root.tree).right)
    ensures if old(root.tree).bal < 0 then cmp(root.key, a.key) > 0 else cmp(root.key, a.key) < 0
    ensures Removed(root.tree, ch) == Remove(old(root.tree), a.key, cmp)
    decreases TreeOf(root), 3
  {
    ghost var t := root.tree;
    a := Neighbour(root, cmp);
    hide Balanced, Height, First, Last, Remove, Searchable;
    var top;
    top, ch := RemoveWrk(root, a, cmp);
    assert top == root && root.tree.val == t.val by { RemoveKeepsRoot(t, a.key, cmp); }
  }

  lemma {:induction false} RemoveKeepsRoot<K, V>(t: Tree<K, V>, k: K, cmp: (K, K) -> int)
    requires t.Node? && Balanced(t)
    requires if t.bal < 0 then cmp(t.key, k) > 0 else cmp(t.key, k) < 0
    ensures Remove(t, k, cmp).tree.Node? && Remove(t, k, cmp).tree.val == t.val
  {
    HigherSideStays(t, Remove(if t.bal < 0 then t.left else t.right, k, cmp));
  }

  /** The root is removed by removing its neighbour, and giving it the root's place. */
  lemma {:induction false} RootReplaced<K, V>(t: Tree<K, V>, k: K, v: V, cmp: (K, K) -> int)
    requires t.Node? && Balanced(t) && t.left.Node? && t.right.Node?
    requires (k, v) == if t.bal < 0 then Last(t.left) else First(t.right)
    requires if t.bal < 0 then cmp(t.key, k) > 0 else cmp(t.key, k) < 0
    ensures var s := Remove(t, k, cmp);
      && s.tree.Node?
      && AvlTree.RemoveRoot(t, cmp) == Removed(s.tree.(key := k, val := v), s.tree.bal == 0 && s.shrunk)
  {
    hide First, Last;
    HigherSideStays(t, Remove(if t.bal < 0 then t.left else t.right, k, cmp));
  }

  method Neighbour<K, V>(root: AvlNode<K, V>, ghost cmp: (K, K) -> int) returns (a: AvlNode<K, V>)
    requires root.Valid() && root.left != null && root.right != null && Searchable(root.tree, cmp)
    ensures NodeAt(root, a.key, cmp) == a
    ensures a in (if root.balance < 0 then root.left.repr else root.right.repr)
    ensures (a.key, a.val) == if root.balance < 0 then Last(root.tree.left) else First(root.tree.right)
    ensures if root.balance < 0 then cmp(root.key, a.key) > 0 else cmp(root.key, a.key) < 0
  {
    if root.balance < 0 {
      a := Rightmost(root.left, cmp);
    } else {
      a := Leftmost(root.right, cmp);
    }
  }

  method TakePlace<K, V>(top: AvlNode<K, V>, a: AvlNode<K, V>)
    requires top.Valid() && a !in top.repr
    modifies a
    ensures a.val == old(a.val) && a.Valid() && a.repr <= top.repr - {top} + {a}
    ensures a.tree == top.tree.(key := a.key, val := a.val)
  {
    a.left, a.right, a.balance := top.left, top.right, top.balance;
    Refresh(a);
  }

  // ----- the finite map

  method InsertNew<K, V>(root: AvlNode?<K, V>, k: K, v: V, cmp: (K, K) -> int) returns (r: AvlNode<K, V>)
    requires root != null ==> root.Valid() && Balanced(root.tree)
    modifies ReprOf(root)
    ensures r.Valid() && fresh(r.repr - old(ReprOf(root)))
    ensures r.tree == Insert(old(TreeOf(root)), k, v, cmp).tree
  {
    var node := new AvlNode(k, v);
    var grew, oldV;
    r, grew, oldV := InsertWrk(root, node, cmp);
  }

  method RemoveKey<K(!new), V>(root: AvlNode?<K, V>, k: K, cmp: (K, K) -> int)
      returns (r: AvlNode?<K, V>, oldV: Option<V>)
    requires root != null ==> root.Valid() && Balanced(root.tree) && Searchable(root.tree, cmp)
    requires forall x: K :: cmp(x, k) == 0 ==> x == k
    modifies ReprOf(root)
    ensures r != null ==> r.Valid()
    ensures ReprOf(r) <= old(ReprOf(root))
    ensures oldV == Find(old(TreeOf(root)), k, cmp)
    ensures TreeOf(r) == if oldV == None then old(TreeOf(root)) else Remove(old(TreeOf(root)), k, cmp).tree
  {
    var node := FindNode(root, k, cmp);
    NodeAtIsFind(root, k, cmp);
    if node == null { return root, None; }
    oldV := Some(node.val);
    var shrunk;
    r, shrunk := RemoveWrk(root, node, cmp);
  }

  /** Deleting a key that search does not find changes nothing. */
  lemma {:induction false} RemoveMissing<K, V>(t: Tree<K, V>, k: K, cmp: (K, K) -> int)
    requires Balanced(t) && Find(t, k, cmp) == None
    ensures Remove(t, k, cmp) == Removed(t, false)
  {
    if t.Node? {
      if cmp(t.key, k) > 0 { RemoveMissing(t.left, k, cmp); } else { RemoveMissing(t.right, k, cmp); }
    }
  }

  class WordFM<K(!new), V> {
    var root: AvlNode?<K, V>
    const kCmp: (K, K) -> int
    const nodeStack: array<AvlNode?<K, V>>
    const numStack: array<int>
    var stackTop: int
    ghost var entries: seq<(Tree<K, V>, int)>     // the iterator stack, as a value

    ghost predicate Valid()
      reads this, root, ReprOf(root)
    {
      && (root != null ==> root.Valid())
      && nodeStack.Length == WFM_STKMAX == numStack.Length
      && Lawful(kCmp) && Avl(TreeOf(root), kCmp)
    }

    ghost function Model(): map<K, V>
      reads this, root
    {
      ToMap(Inorder(TreeOf(root)))
    }

    constructor (cmp: (K, K) -> int)
      requires Lawful(cmp)
      ensures Valid() && Model() == map[] && fresh(nodeStack) && fresh(numStack) && root == null
    {
      root, kCmp, stackTop, entries := null, cmp, 0, [];
      nodeStack := new AvlNode?<K, V>[WFM_STKMAX](_ => null);
      numStack := new int[WFM_STKMAX](_ => 0);
    }

    method AddToFM(k: K, v: V)
      requires Valid()
      modifies this, ReprOf(root)
      ensures Valid() && Model() == old(Model())[k := v]
      ensures fresh(ReprOf(root) - old(ReprOf(root)))
    {
      hide Lawful, Ordered, ToMap, Inorder;
      InsertRefines(TreeOf(root), k, v, kCmp);
      root := InsertNew(root, k, v, kCmp);
    }

    /** Deletes a key; the caller gets the value that was bound to it. */
    method DelFromFM(key: K) returns (oldV: Option<V>)
      requires Valid()
      modifies this, ReprOf(root)
      ensures Valid() && Model() == old(Model()) - {key}
      ensures oldV == Lookup(old(Model()), key)
      ensures ReprOf(root) <= old(ReprOf(root))
    {
      hide Ordered, ToMap, Inorder, Balanced, Searchable, Remove;
      FindIsLookup(TreeOf(root), key, kCmp);
      OrderedSearchable(TreeOf(root), kCmp);
      RemoveRefines(TreeOf(root), key, kCmp);
      if Find(TreeOf(root), key, kCmp) == None { RemoveMissing(TreeOf(root), key, kCmp); }
      root, oldV := RemoveKey(root, key, kCmp);
    }

    method LookupFM(key: K) returns (v: Option<V>)
      requires Valid()
      ensures v == Lookup(Model(), key)
    {
      FindIsLookup(TreeOf(root), key, kCmp);
      var node := FindNode(root, key, kCmp);
      NodeAtIsFind(root, key, kCmp);
      v := if node == null then None else Some(node.val);
    }

    // ----- iteration

    /** The arrays hold the stack that `entries` says, and it can never outgrow them. */
    ghost predicate Iterating()
      reads this, root, ReprOf(root), nodeStack, numStack
    {
      && Valid()
      && 0 <= stackTop == |entries| <= WFM_STKMAX && Proper(entries) && Fits(entries, WFM_STKMAX)
      && forall i :: 0 <= i < stackTop ==>
        && numStack[i] == entries[i].1
        && nodeStack[i] != null && nodeStack[i] in ReprOf(root) && nodeStack[i].repr <= ReprOf(root)
        && nodeStack[i].Valid() && nodeStack[i].tree == entries[i].0
    }

    /** The bindings that the iteration has still to yield. */
    ghost function ToCome(): seq<(K, V)>
      requires Iterating()
      reads this, root, ReprOf(root), nodeStack, numStack
    {
      Pending(entries)
    }

    method StackClear()
      requires Valid()
      modifies nodeStack, numStack, this`stackTop, this`entries
      ensures Iterating() && entries == []
    {
      for i := 0 to WFM_STKMAX {
        nodeStack[i] := null;
        numStack[i] := 0;
      }
      stackTop, entries := 0, [];
    }

    /** stackPush; its precondition is that the assertion in it does not fail. */
    method StackPush(n: AvlNode<K, V>, i: int)
      requires Iterating() && stackTop < WFM_STKMAX && 1 <= i <= 3
      requires n in ReprOf(root) && n.repr <= ReprOf(root) && n.Valid()
      requires LeftDepth(n.tree) + stackTop <= WFM_STKMAX
      modifies nodeStack, numStack, this`stackTop, this`entries
      ensures Iterating() && entries == old(entries) + [(n.tree, i)] && stackTop == old(stackTop) + 1
      ensures n.left == old(n.left)
      ensures n.left != null ==> n.left.Valid() && n.left.tree == old(n.left.tree) && n.left.repr == old(n.left.repr)
      ensures root == old(root) && ReprOf(root) == old(ReprOf(root)) && TreeOf(root) == old(TreeOf(root))
      ensures n.tree == old(n.tree)
    {
      hide Lawful, Avl, LeftDepth;
      nodeStack[stackTop] := n;
      numStack[stackTop] := i;
      stackTop := stackTop + 1;
      entries := entries + [(n.tree, i)];
    }

    method StackPop() returns (n: AvlNode<K, V>, i: int)
      requires Iterating() && stackTop > 0
      modifies nodeStack, numStack, this`stackTop, this`entries
      ensures Iterating() && old(entries) == entries + [(n.tree, i)]
      ensures n in ReprOf(root) && n.repr <= ReprOf(root) && n.Valid()
      ensures LeftDepth(n.tree) + stackTop <= WFM_STKMAX && 1 <= i <= 3
    {
      hide Lawful, Avl, LeftDepth;
      stackTop := stackTop - 1;
      n, i := nodeStack[stackTop], numStack[stackTop];
      nodeStack[stackTop] := null;
      numStack[stackTop] := 0;
      entries := entries[..stackTop];
    }

    /** Starts an iteration over the whole map. */
    method InitIterFM()
      requires Valid() && LeftDepth(TreeOf(root)) <= WFM_STKMAX
      modifies nodeStack, numStack, this`stackTop, this`entries
      ensures Iterating() && ToCome() == Inorder(TreeOf(root))
      ensures root == old(root) && TreeOf(root) == old(TreeOf(root))
    {
      StackClear();
      if root != null {
        PushPending(entries, (root.tree, 1));
        StackPush(root, 1);
      }
    }

    /** One pass through the iterator's loop: pops an entry and pushes what it leads to. */
    method IterStep() returns (b: Option<(K, V)>)
      requires Iterating() && stackTop > 0
      modifies nodeStack, numStack, this`stackTop, this`entries
      ensures Iterating()
      ensures var s := old(entries); var (t, i) := s[|s| - 1];
        if i == 2 then b == Some((t.key, t.val)) && entries == s[..|s| - 1] + [(t, 3)]
        else b == None && entries == Turn(s)
    {
      var n, i := StackPop();
      b := None;
      ghost var rest := entries;
      TurnOf(rest, n.tree, i);
      hide Turn, Iterating, LeftDepth;
      if i == 1 {
        Descend(n);
      } else if i == 2 {
        NodeParts(n);
        StackPush(n, 3);
        b := Some((n.key, n.val));
      } else {
        Finish(n);
      }
    }

    /** Back on the stack, and its left subtree on top of it. */
    method Descend(n: AvlNode<K, V>)
      requires Iterating() && n in ReprOf(root) && n.repr <= ReprOf(root) && n.Valid()
      requires LeftDepth(n.tree) + stackTop <= WFM_STKMAX
      modifies nodeStack, numStack, this`stackTop, this`entries
      ensures Iterating()
      ensures entries == old(entries) + [(n.tree, 2)] + (if n.tree.left.Node? then [(n.tree.left, 1)] else [])
    {
      NodeParts(n);
      hide Iterating, LeftDepth;
      var l := n.left;
      StackPush(n, 2);
      if l != null { StackPush(l, 1); }
    }

    /** The right subtree takes the place of its node. */
    method Finish(n: AvlNode<K, V>)
      requires Iterating() && n in ReprOf(root) && n.repr <= ReprOf(root) && n.Valid()
      requires LeftDepth(n.tree) + stackTop <= WFM_STKMAX
      modifies nodeStack, numStack, this`stackTop, this`entries
      ensures Iterating()
      ensures entries == old(entries) + (if n.tree.right.Node? then [(n.tree.right, 1)] else [])
    {
      NodeParts(n);
      hide Iterating, LeftDepth;
      if n.right != null { StackPush(n.right, 1); }
    }

    /** Delivers the next binding, or none exactly when there is none left. No push finds the stack full. */
    method NextIterFM() returns (b: Option<(K, V)>)
      requires Iterating()
      modifies nodeStack, numStack, this`stackTop, this`entries
      ensures Iterating()
      ensures if old(ToCome()) == [] then b == None && ToCome() == []
        else b == Some(old(ToCome())[0]) && ToCome() == old(ToCome())[1..]
      ensures root == old(root) && TreeOf(root) == old(TreeOf(root))
    {
      while stackTop > 0
        invariant Iterating() && Pending(entries) == old(Pending(entries))
        decreases Work(entries)
      {
        ghost var s := entries;
        b := IterStep();
        if b.Some? {
          YieldPending(s);
          return;
        }
        TurnKeepsPending(s, WFM_STKMAX);
      }
      b := None;
    }

    /** A whole iteration, as the printing and merging loops make it: every binding exactly once,
        in strictly ascending key order. */
    method Bindings() returns (s: seq<(K, V)>)
      requires Valid() && LeftDepth(TreeOf(root)) <= WFM_STKMAX
      modifies nodeStack, numStack, this`stackTop, this`entries
      ensures s == Inorder(TreeOf(root)) && Ascending(s, kCmp) && ToMap(s) == Model()
    {
      InitIterFM();
      s := Collect();
    }

    /** The loop around the iterator. */
    method Collect() returns (s: seq<(K, V)>)
      requires Iterating()
      modifies nodeStack, numStack, this`stackTop, this`entries
      ensures s == old(ToCome()) && root == old(root) && TreeOf(root) == old(TreeOf(root))
    {
      hide *;
      s := [];
      while true
        invariant Iterating() && s + ToCome() == old(ToCome()) && root == old(root) && TreeOf(root) == old(TreeOf(root))
        decreases |ToCome()|
      {
        ghost var p := ToCome();
        var b := NextIterFM();
        Delivered(s, p, old(ToCome()));
        if b == None { return; }
        s := s + [b.value];
      }
    }
  }

  lemma {:induction false} Delivered<T>(s: seq<T>, p: seq<T>, all: seq<T>)
    requires s + p == all
    ensures if p == [] then s == all else s + [p[0]] + p[1..] == all
  {}

  /** What a turn of the iterator's loop on the popped entry does. */
  lemma {:induction false} TurnOf<K, V>(rest: seq<(Tree<K, V>, int)>, t: Tree<K, V>, i: int)
    requires Proper(rest) && t.Node? && 1 <= i <= 3
    ensures var s := rest + [(t, i)]; Proper(s) && s[..|s| - 1] == rest && s[|s| - 1] == (t, i)
    ensures i == 1 ==> Turn(rest + [(t, i)]) == rest + [(t, 2)] + (if t.left.Node? then [(t.left, 1)] else [])
    ensures i == 3 ==> Turn(rest + [(t, i)]) == rest + (if t.right.Node? then [(t.right, 1)] else [])
  {
    assert (rest + [(t, i)])[..|rest|] == rest;
  }

  /** The subtrees of a node, and the iterator slots they need. */
  lemma {:induction false} NodeParts<K, V>(n: AvlNode<K, V>)
    requires n.Valid()
    ensures n.tree.Node? && n.tree.key == n.key && n.tree.val == n.val && n in n.repr && LeftDepth(n.tree) >= 1
    ensures n.tree.left == TreeOf(n.left) && n.tree.right == TreeOf(n.right)
    ensures n.left != null ==>
      n.left.Valid() && n.left in n.repr && n.left.repr <= n.repr && LeftDepth(n.left.tree) + 1 <= LeftDepth(n.tree)
    ensures n.right != null ==>
      n.right.Valid() && n.right in n.repr && n.right.repr <= n.repr && LeftDepth(n.right.tree) <= LeftDepth(n.tree)
    ensures n.left != null ==> n.left.tree.Node?
    ensures n.right != null ==> n.right.tree.Node?
  {}

  lemma {:induction false} NodeAtIsFind<K, V>(n: AvlNode?<K, V>, k: K, cmp: (K, K) -> int)
    requires n != null ==> n.Valid()
    ensures Find(TreeOf(n), k, cmp) == if NodeAt(n, k, cmp) == null then None else Some(NodeAt(n, k, cmp).val)
    decreases TreeOf(n)
  {
    if n != null {
      NodeAtIsFind(n.left, k, cmp);
      NodeAtIsFind(n.right, k, cmp);
    }
  }
}
