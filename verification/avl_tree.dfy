/** The shape and balance arithmetic of the WordFM AVL trees, on immutable trees.
    The heap nodes of module WordFM refine the functions below. */
module AvlTree {
  import opened Wrappers

  datatype Tree<+K, +V> =
    | Leaf
    | Node(left: Tree<K, V>, key: K, val: V, right: Tree<K, V>, bal: int)

  function Max(a: int, b: int): int { if a < b then b else a }

  function Height<K, V>(t: Tree<K, V>): nat {
    if t.Leaf? then 0 else 1 + Max(Height(t.left), Height(t.right))
  }

  function Size<K, V>(t: Tree<K, V>): nat {
    if t.Leaf? then 0 else Size(t.left) + 1 + Size(t.right)
  }

  /** Every stored balance is the height difference, right minus left, and at most one in size. */
  ghost predicate Balanced<K, V>(t: Tree<K, V>) {
    t.Node? ==>
      Balanced(t.left) && Balanced(t.right) && -1 <= t.bal <= 1 && t.bal == Height(t.right) - Height(t.left)
  }

  function Inorder<K, V>(t: Tree<K, V>): (s: seq<(K, V)>)
    ensures |s| == Size(t)
  {
    if t.Leaf? then [] else Inorder(t.left) + [(t.key, t.val)] + Inorder(t.right)
  }

  /** A key comparison that is a strict total order and says 0 for equal keys only. */
  ghost predicate Lawful<K(!new)>(cmp: (K, K) -> int) {
    && (forall x, y :: cmp(x, y) == 0 <==> x == y)
    && (forall x, y :: cmp(x, y) < 0 <==> cmp(y, x) > 0)
    && (forall x, y, z :: cmp(x, y) < 0 && cmp(y, z) < 0 ==> cmp(x, z) < 0)
  }

  ghost predicate Ascending<K, V>(s: seq<(K, V)>, cmp: (K, K) -> int) {
    forall i, j :: 0 <= i < j < |s| ==> cmp(s[i].0, s[j].0) < 0
  }

  /** Search trees: the in-order listing is strictly ascending. */
  ghost predicate Ordered<K, V>(t: Tree<K, V>, cmp: (K, K) -> int) {
    Ascending(Inorder(t), cmp)
  }

  // ----- rotations

  function SwingLeft<K, V>(t: Tree<K, V>): (r: Tree<K, V>)
    requires t.Node? && t.right.Node?
  {
    var b := t.right;
    b.(left := t.(right := b.left))
  }

  function SwingRight<K, V>(t: Tree<K, V>): (r: Tree<K, V>)
    requires t.Node? && t.left.Node?
  {
    var b := t.left;
    b.(right := t.(left := b.right))
  }

  /** The balances after a double rotation, from the balance of the node that came to the top. */
  function Nasty<K, V>(t: Tree<K, V>): (r: Tree<K, V>)
    requires t.Node? && t.left.Node? && t.right.Node?
  {
    t.(left := t.left.(bal := if t.bal == 1 then -1 else 0),
       right := t.right.(bal := if t.bal == -1 then 1 else 0),
       bal := 0)
  }

  lemma {:induction false} Regroup<T>(a: seq<T>, x: T, b: seq<T>, y: T, c: seq<T>)
    ensures a + [x] + (b + [y] + c) == (a + [x] + b) + [y] + c
  {}

  lemma {:induction false} SwingLeftKeepsListing<K, V>(t: Tree<K, V>)
    requires t.Node? && t.right.Node?
    ensures Inorder(SwingLeft(t)) == Inorder(t)
  {
    var b := t.right;
    Regroup(Inorder(t.left), (t.key, t.val), Inorder(b.left), (b.key, b.val), Inorder(b.right));
  }

  lemma {:induction false} SwingRightKeepsListing<K, V>(t: Tree<K, V>)
    requires t.Node? && t.left.Node?
    ensures Inorder(SwingRight(t)) == Inorder(t)
  {
    var b := t.left;
    Regroup(Inorder(b.left), (b.key, b.val), Inorder(b.right), (t.key, t.val), Inorder(t.right));
  }

  /** After the left subtree came to be two higher. */
  function LiftLeft<K, V>(t: Tree<K, V>): (r: Tree<K, V>)
    requires t.Node? && t.left.Node? && (t.left.bal > 0 ==> t.left.right.Node?)
  {
    if t.left.bal <= 0 then
      var r := SwingRight(t);
      if t.left.bal < 0 then r.(bal := 0, right := r.right.(bal := 0))
      else r.(bal := 1, right := r.right.(bal := -1))
    else
      Nasty(SwingRight(t.(left := SwingLeft(t.left))))
  }

  /** After the right subtree came to be two higher. */
  function LiftRight<K, V>(t: Tree<K, V>): (r: Tree<K, V>)
    requires t.Node? && t.right.Node? && (t.right.bal < 0 ==> t.right.left.Node?)
  {
    if t.right.bal >= 0 then
      var r := SwingLeft(t);
      if t.right.bal > 0 then r.(bal := 0, left := r.left.(bal := 0))
      else r.(bal := -1, left := r.left.(bal := 1))
    else
      Nasty(SwingLeft(t.(right := SwingRight(t.right))))
  }

  /** The exact effect of the repair: the listing stays, balance is restored, and the height
      drops by one unless the higher child was itself level. */
  lemma {:induction false} LiftLeftRestores<K, V>(t: Tree<K, V>)
    requires t.Node? && Balanced(t.left) && Balanced(t.right) && Height(t.left) == Height(t.right) + 2
    ensures var r := LiftLeft(t);
      Balanced(r) && r.Node? && Height(r) == Height(t) - (if t.left.bal == 0 then 0 else 1)
  {
    if t.left.bal > 0 { DoubleLeft(t); }
  }

  lemma {:induction false} DoubleLeft<K, V>(t: Tree<K, V>)
    requires t.Node? && Balanced(t.left) && Balanced(t.right) && Height(t.left) == Height(t.right) + 2
    requires t.left.bal > 0
    ensures Balanced(LiftLeft(t)) && Height(LiftLeft(t)) == Height(t) - 1
  {
    var a, b := t.left, t.left.right;
    var r := LiftLeft(t);
    assert r.left == Node(a.left, a.key, a.val, b.left, if b.bal == 1 then -1 else 0);
    assert r.right == Node(b.right, t.key, t.val, t.right, if b.bal == -1 then 1 else 0);
  }

  lemma {:induction false} LiftLeftKeepsListing<K, V>(t: Tree<K, V>)
    requires t.Node? && t.left.Node? && (t.left.bal > 0 ==> t.left.right.Node?)
    ensures Inorder(LiftLeft(t)) == Inorder(t)
  {
    if t.left.bal <= 0 {
      SwingRightKeepsListing(t);
    } else {
      SwingLeftKeepsListing(t.left);
      SwingRightKeepsListing(t.(left := SwingLeft(t.left)));
    }
  }

  lemma {:induction false} LiftRightRestores<K, V>(t: Tree<K, V>)
    requires t.Node? && Balanced(t.left) && Balanced(t.right) && Height(t.right) == Height(t.left) + 2
    ensures var r := LiftRight(t);
      Balanced(r) && r.Node? && Height(r) == Height(t) - (if t.right.bal == 0 then 0 else 1)
  {
    if t.right.bal < 0 { DoubleRight(t); }
  }

  lemma {:induction false} DoubleRight<K, V>(t: Tree<K, V>)
    requires t.Node? && Balanced(t.left) && Balanced(t.right) && Height(t.right) == Height(t.left) + 2
    requires t.right.bal < 0
    ensures Balanced(LiftRight(t)) && Height(LiftRight(t)) == Height(t) - 1
  {
    var a, b := t.right, t.right.left;
    var r := LiftRight(t);
    assert r.left == Node(t.left, t.key, t.val, b.left, if b.bal == 1 then -1 else 0);
    assert r.right == Node(b.right, a.key, a.val, a.right, if b.bal == -1 then 1 else 0);
  }

  lemma {:induction false} LiftRightKeepsListing<K, V>(t: Tree<K, V>)
    requires t.Node? && t.right.Node? && (t.right.bal < 0 ==> t.right.left.Node?)
    ensures Inorder(LiftRight(t)) == Inorder(t)
  {
    if t.right.bal >= 0 {
      SwingLeftKeepsListing(t);
    } else {
      SwingRightKeepsListing(t.right);
      SwingLeftKeepsListing(t.(right := SwingRight(t.right)));
    }
  }

  // ----- insertion

  datatype Inserted<+K, +V> = Inserted(tree: Tree<K, V>, grew: bool, prior: Option<V>)

  /** An inserted subtree, seen from the height of the subtree it replaces. */
  ghost predicate Grows<K, V>(t: Tree<K, V>, s: Inserted<K, V>) {
    && s.tree.Node? && Balanced(s.tree)
    && Height(s.tree) == Height(t) + (if s.grew then 1 else 0)
    && (s.grew && t.Node? ==> s.tree.bal != 0 && s.tree.key == t.key && s.tree.val == t.val)
  }

  /** What happens at a node once a key went into its left subtree. */
  function GrownLeft<K, V>(t: Tree<K, V>, s: Inserted<K, V>): (r: Inserted<K, V>)
    requires t.Node? && Balanced(t) && Grows(t.left, s)
    ensures Grows(t, r)
  {
    var t' := t.(left := s.tree);
    if !s.grew then Inserted(t', false, s.prior)
    else if t.bal == 1 then Inserted(t'.(bal := 0), false, s.prior)
    else if t.bal == 0 then Inserted(t'.(bal := -1), true, s.prior)
    else LiftLeftRestores(t'); Inserted(LiftLeft(t'), false, s.prior)
  }

  function GrownRight<K, V>(t: Tree<K, V>, s: Inserted<K, V>): (r: Inserted<K, V>)
    requires t.Node? && Balanced(t) && Grows(t.right, s)
    ensures Grows(t, r)
  {
    var t' := t.(right := s.tree);
    if !s.grew then Inserted(t', false, s.prior)
    else if t.bal == -1 then Inserted(t'.(bal := 0), false, s.prior)
    else if t.bal == 0 then Inserted(t'.(bal := 1), true, s.prior)
    else LiftRightRestores(t'); Inserted(LiftRight(t'), false, s.prior)
  }

  function Insert<K, V>(t: Tree<K, V>, k: K, v: V, cmp: (K, K) -> int): (r: Inserted<K, V>)
    requires Balanced(t)
    ensures Grows(t, r)
  {
    if t.Leaf? then Inserted(Node(Leaf, k, v, Leaf, 0), true, None)
    else if cmp(t.key, k) > 0 then GrownLeft(t, Insert(t.left, k, v, cmp))
    else if cmp(t.key, k) < 0 then GrownRight(t, Insert(t.right, k, v, cmp))
    else Inserted(t.(val := v), false, Some(t.val))
  }

  /** Insertion into a sorted association list: the reference for insertion into a tree. */
  function Put<K, V>(s: seq<(K, V)>, k: K, v: V, cmp: (K, K) -> int): (r: seq<(K, V)>) {
    if s == [] || cmp(s[0].0, k) > 0 then [(k, v)] + s
    else if cmp(s[0].0, k) < 0 then [s[0]] + Put(s[1..], k, v, cmp)
    else [(s[0].0, v)] + s[1..]
  }

  lemma {:induction false} PutBefore<K, V>(a: seq<(K, V)>, b: seq<(K, V)>, k: K, v: V, cmp: (K, K) -> int)
    requires b != [] && cmp(b[0].0, k) > 0
    ensures Put(a + b, k, v, cmp) == Put(a, k, v, cmp) + b
  {
    if a == [] {
      assert a + b == b;
    } else {
      assert (a + b)[1..] == a[1..] + b;
      PutBefore(a[1..], b, k, v, cmp);
    }
  }

  lemma {:induction false} PutAfter<K, V>(a: seq<(K, V)>, b: seq<(K, V)>, k: K, v: V, cmp: (K, K) -> int)
    requires forall i :: 0 <= i < |a| ==> cmp(a[i].0, k) < 0
    ensures Put(a + b, k, v, cmp) == a + Put(b, k, v, cmp)
  {
    if a == [] {
      assert a + b == b;
    } else {
      var x, r := a[0], a[1..];
      assert a + b == [x] + (r + b) && ([x] + (r + b))[1..] == r + b;
      PutAfter(r, b, k, v, cmp);
      assert Put(a + b, k, v, cmp) == [x] + Put(r + b, k, v, cmp);
      hide Put;
      assert [x] + (r + Put(b, k, v, cmp)) == a + Put(b, k, v, cmp);
    }
  }

  ghost predicate AllBelow<K, V>(s: seq<(K, V)>, k: K, cmp: (K, K) -> int) {
    forall i :: 0 <= i < |s| ==> cmp(s[i].0, k) < 0
  }

  ghost predicate AllAbove<K, V>(s: seq<(K, V)>, k: K, cmp: (K, K) -> int) {
    forall i :: 0 <= i < |s| ==> cmp(k, s[i].0) < 0
  }

  lemma {:induction false} Between<K(!new)>(x: K, y: K, z: K, cmp: (K, K) -> int)
    requires Lawful(cmp) && cmp(x, y) <= 0 && cmp(y, z) <= 0
    ensures cmp(x, y) < 0 || cmp(y, z) < 0 ==> cmp(x, z) < 0
  {}

  lemma {:induction false} Mirror<K(!new)>(x: K, y: K, cmp: (K, K) -> int)
    requires Lawful(cmp)
    ensures cmp(x, y) < 0 <==> cmp(y, x) > 0
    ensures cmp(x, y) == 0 <==> cmp(y, x) == 0
  {}

  lemma {:induction false} Widen<K(!new), V>(s: seq<(K, V)>, m: K, k: K, cmp: (K, K) -> int)
    requires Lawful(cmp)
    ensures AllBelow(s, m, cmp) && cmp(m, k) <= 0 ==> AllBelow(s, k, cmp)
    ensures AllAbove(s, m, cmp) && cmp(k, m) <= 0 ==> AllAbove(s, k, cmp)
  {
    forall i | 0 <= i < |s| && AllBelow(s, m, cmp) && cmp(m, k) <= 0 ensures cmp(s[i].0, k) < 0 {
      Between(s[i].0, m, k, cmp);
    }
    forall i | 0 <= i < |s| && AllAbove(s, m, cmp) && cmp(k, m) <= 0 ensures cmp(k, s[i].0) < 0 {
      Between(k, m, s[i].0, cmp);
    }
  }

  /** Where a key goes in a listing, seen from the root of a search tree. */
  lemma {:induction false} PutAtRoot<K, V>(a: seq<(K, V)>, x: (K, V), b: seq<(K, V)>, k: K, v: V, cmp: (K, K) -> int)
    requires cmp(x.0, k) <= 0 ==> AllBelow(a, k, cmp)
    ensures cmp(x.0, k) > 0 ==> Put(a + [x] + b, k, v, cmp) == Put(a, k, v, cmp) + [x] + b
    ensures cmp(x.0, k) < 0 ==> Put(a + [x] + b, k, v, cmp) == a + [x] + Put(b, k, v, cmp)
    ensures cmp(x.0, k) == 0 ==> Put(a + [x] + b, k, v, cmp) == a + [(x.0, v)] + b
  {
    assert a + [x] + b == a + ([x] + b);
    if cmp(x.0, k) > 0 {
      PutBefore(a, [x] + b, k, v, cmp);
    } else {
      PutAfter(a, [x] + b, k, v, cmp);
      assert ([x] + b)[1..] == b;
    }
  }

  lemma {:induction false} OrderedParts<K, V>(t: Tree<K, V>, cmp: (K, K) -> int)
    requires t.Node? && Ordered(t, cmp)
    ensures Ordered(t.left, cmp) && Ordered(t.right, cmp)
    ensures AllBelow(Inorder(t.left), t.key, cmp) && AllAbove(Inorder(t.right), t.key, cmp)
  {
    var a, b := Inorder(t.left), Inorder(t.right);
    var s := a + [(t.key, t.val)] + b;
    assert Inorder(t) == s && s[|a|] == (t.key, t.val);
    forall i, j | 0 <= i < j < |a| ensures cmp(a[i].0, a[j].0) < 0 {
      assert s[i] == a[i] && s[j] == a[j];
    }
    forall i, j | 0 <= i < j < |b| ensures cmp(b[i].0, b[j].0) < 0 {
      assert s[|a| + 1 + i] == b[i] && s[|a| + 1 + j] == b[j];
    }
    forall i | 0 <= i < |a| ensures cmp(a[i].0, t.key) < 0 { assert s[i] == a[i]; }
    forall i | 0 <= i < |b| ensures cmp(t.key, b[i].0) < 0 { assert s[|a| + 1 + i] == b[i]; }
  }

  lemma {:induction false} GrownLeftListing<K, V>(t: Tree<K, V>, s: Inserted<K, V>)
    requires t.Node? && Balanced(t) && Grows(t.left, s)
    ensures Inorder(GrownLeft(t, s).tree) == Inorder(s.tree) + [(t.key, t.val)] + Inorder(t.right)
  {
    if s.grew && t.bal == -1 { LiftLeftKeepsListing(t.(left := s.tree)); }
  }

  lemma {:induction false} GrownRightListing<K, V>(t: Tree<K, V>, s: Inserted<K, V>)
    requires t.Node? && Balanced(t) && Grows(t.right, s)
    ensures Inorder(GrownRight(t, s).tree) == Inorder(t.left) + [(t.key, t.val)] + Inorder(s.tree)
  {
    if s.grew && t.bal == 1 { LiftRightKeepsListing(t.(right := s.tree)); }
  }

  /** A tree insertion lists as an insertion into the sorted listing, whatever rotations happened. */
  lemma {:induction false} InsertListing<K(!new), V>(t: Tree<K, V>, k: K, v: V, cmp: (K, K) -> int)
    requires Balanced(t) && Lawful(cmp) && Ordered(t, cmp)
    ensures Inorder(Insert(t, k, v, cmp).tree) == Put(Inorder(t), k, v, cmp)
    ensures Insert(t, k, v, cmp).prior == Find(t, k, cmp)
  {
    if t.Node? {
      hide Insert, Put, Balanced, Grows, Ordered, Lawful, Height, Size;
      InsertStep(t, k, v, cmp);
      OrderedParts(t, cmp);
      Widen(Inorder(t.left), t.key, k, cmp);
      PutAtRoot(Inorder(t.left), (t.key, t.val), Inorder(t.right), k, v, cmp);
      if cmp(t.key, k) > 0 {
        InsertListing(t.left, k, v, cmp);
      } else if cmp(t.key, k) < 0 {
        InsertListing(t.right, k, v, cmp);
      }
    }
  }

  /** One level of an insertion, in terms of the listings. */
  lemma {:induction false} InsertStep<K, V>(t: Tree<K, V>, k: K, v: V, cmp: (K, K) -> int)
    requires t.Node? && Balanced(t)
    ensures Balanced(t.left) && Balanced(t.right)
    ensures var r, x := Insert(t, k, v, cmp), [(t.key, t.val)];
      if cmp(t.key, k) > 0 then
        var l := Insert(t.left, k, v, cmp);
        Inorder(r.tree) == Inorder(l.tree) + x + Inorder(t.right) && r.prior == l.prior
      else if cmp(t.key, k) < 0 then
        var h := Insert(t.right, k, v, cmp);
        Inorder(r.tree) == Inorder(t.left) + x + Inorder(h.tree) && r.prior == h.prior
      else Inorder(r.tree) == Inorder(t.left) + [(t.key, v)] + Inorder(t.right) && r.prior == Some(t.val)
  {
    hide LiftLeft, LiftRight;
    if cmp(t.key, k) > 0 {
      GrownLeftListing(t, Insert(t.left, k, v, cmp));
    } else if cmp(t.key, k) < 0 {
      GrownRightListing(t, Insert(t.right, k, v, cmp));
    }
  }

  // ----- search

  /** Binary search, as avl_find_node does it. */
  function Find<K, V>(t: Tree<K, V>, k: K, cmp: (K, K) -> int): Option<V> {
    if t.Leaf? then None
    else if cmp(t.key, k) > 0 then Find(t.left, k, cmp)
    else if cmp(t.key, k) < 0 then Find(t.right, k, cmp)
    else Some(t.val)
  }

  // ----- removal

  datatype Removed<+K, +V> = Removed(tree: Tree<K, V>, shrunk: bool)

  function First<K, V>(t: Tree<K, V>): (K, V)
    requires t.Node?
  {
    if t.left.Leaf? then (t.key, t.val) else First(t.left)
  }

  function Last<K, V>(t: Tree<K, V>): (K, V)
    requires t.Node?
  {
    if t.right.Leaf? then (t.key, t.val) else Last(t.right)
  }

  ghost predicate Shrinks<K, V>(t: Tree<K, V>, s: Removed<K, V>) {
    Balanced(s.tree) && Height(s.tree) == Height(t) - (if s.shrunk then 1 else 0)
  }

  /** What happens at a node once its left subtree has lost a key. */
  function AfterLeft<K, V>(t: Tree<K, V>, s: Removed<K, V>): (r: Removed<K, V>)
    requires t.Node? && Balanced(t) && Shrinks(t.left, s)
    ensures Shrinks(t, r)
  {
    var t' := t.(left := s.tree);
    if !s.shrunk then Removed(t', false)
    else if t.bal == -1 then Removed(t'.(bal := 0), true)
    else if t.bal == 0 then Removed(t'.(bal := 1), false)
    else LiftRightRestores(t'); Removed(LiftRight(t'), t.right.bal != 0)
  }

  function AfterRight<K, V>(t: Tree<K, V>, s: Removed<K, V>): (r: Removed<K, V>)
    requires t.Node? && Balanced(t) && Shrinks(t.right, s)
    ensures Shrinks(t, r)
  {
    var t' := t.(right := s.tree);
    if !s.shrunk then Removed(t', false)
    else if t.bal == 1 then Removed(t'.(bal := 0), true)
    else if t.bal == 0 then Removed(t'.(bal := -1), false)
    else LiftLeftRestores(t'); Removed(LiftLeft(t'), t.left.bal != 0)
  }

  function Remove<K, V>(t: Tree<K, V>, k: K, cmp: (K, K) -> int): (r: Removed<K, V>)
    requires Balanced(t)
    ensures Shrinks(t, r)
    decreases t, 1
  {
    if t.Leaf? then Removed(t, false)
    else if cmp(t.key, k) > 0 then AfterLeft(t, Remove(t.left, k, cmp))
    else if cmp(t.key, k) < 0 then AfterRight(t, Remove(t.right, k, cmp))
    else RemoveRoot(t, cmp)
  }

  /** The root's place is taken by the greatest binding of a higher left subtree, otherwise by the
      least binding of the right one, so the root is never rotated away. */
  function RemoveRoot<K, V>(t: Tree<K, V>, cmp: (K, K) -> int): (r: Removed<K, V>)
    requires t.Node? && Balanced(t)
    ensures Shrinks(t, r)
    decreases t, 0
  {
    if t.left.Leaf? then Removed(t.right, true)
    else if t.right.Leaf? then Removed(t.left, true)
    else
      var (k, v) := if t.bal < 0 then Last(t.left) else First(t.right);
      var s := if t.bal < 0 then AfterLeft(t, Remove(t.left, k, cmp)) else AfterRight(t, Remove(t.right, k, cmp));
      Removed(s.tree.(key := k, val := v), s.tree.bal == 0 && s.shrunk)
  }

  /** Deletion from a sorted association list: the reference for deletion from a tree. */
  function Del<K, V>(s: seq<(K, V)>, k: K, cmp: (K, K) -> int): (r: seq<(K, V)>) {
    if s == [] then []
    else if cmp(s[0].0, k) == 0 then s[1..]
    else [s[0]] + Del(s[1..], k, cmp)
  }

  ghost predicate Absent<K, V>(s: seq<(K, V)>, k: K, cmp: (K, K) -> int) {
    forall i :: 0 <= i < |s| ==> cmp(s[i].0, k) != 0
  }

  lemma {:induction false} DelAfter<K, V>(a: seq<(K, V)>, b: seq<(K, V)>, k: K, cmp: (K, K) -> int)
    requires Absent(a, k, cmp)
    ensures Del(a + b, k, cmp) == a + Del(b, k, cmp)
  {
    if a == [] {
      assert a + b == b;
    } else {
      assert (a + b)[1..] == a[1..] + b;
      DelAfter(a[1..], b, k, cmp);
    }
  }

  lemma {:induction false} DelBefore<K, V>(a: seq<(K, V)>, b: seq<(K, V)>, k: K, cmp: (K, K) -> int)
    requires Absent(b, k, cmp)
    ensures Del(a + b, k, cmp) == Del(a, k, cmp) + b
  {
    if a == [] {
      assert a + b == b;
      DelAfter(b, [], k, cmp);
      assert b + [] == b;
    } else {
      assert (a + b)[1..] == a[1..] + b;
      DelBefore(a[1..], b, k, cmp);
    }
  }

  lemma {:induction false} BoundsExclude<K(!new), V>(s: seq<(K, V)>, k: K, cmp: (K, K) -> int)
    requires Lawful(cmp)
    ensures AllBelow(s, k, cmp) || AllAbove(s, k, cmp) ==> Absent(s, k, cmp)
  {}

  lemma {:induction false} DelAtRoot<K, V>(a: seq<(K, V)>, x: (K, V), b: seq<(K, V)>, k: K, cmp: (K, K) -> int)
    requires cmp(x.0, k) > 0 ==> Absent(b, k, cmp)
    requires cmp(x.0, k) <= 0 ==> Absent(a, k, cmp)
    ensures cmp(x.0, k) > 0 ==> Del(a + [x] + b, k, cmp) == Del(a, k, cmp) + [x] + b
    ensures cmp(x.0, k) < 0 ==> Del(a + [x] + b, k, cmp) == a + [x] + Del(b, k, cmp)
    ensures cmp(x.0, k) == 0 ==> Del(a + [x] + b, k, cmp) == a + b
  {
    assert a + [x] + b == a + ([x] + b);
    if cmp(x.0, k) > 0 {
      assert Absent([x] + b, k, cmp);
      DelBefore(a, [x] + b, k, cmp);
    } else {
      DelAfter(a, [x] + b, k, cmp);
      assert ([x] + b)[1..] == b;
    }
  }

  lemma {:induction false} OrderedExcludes<K(!new), V>(t: Tree<K, V>, k: K, cmp: (K, K) -> int)
    requires t.Node? && Lawful(cmp) && Ordered(t, cmp)
    ensures cmp(t.key, k) >= 0 ==> Absent(Inorder(t.right), k, cmp)
    ensures cmp(t.key, k) <= 0 ==> Absent(Inorder(t.left), k, cmp)
  {
    OrderedParts(t, cmp);
    var a, b := Inorder(t.left), Inorder(t.right);
    Mirror(t.key, k, cmp);
    Widen(a, t.key, k, cmp);
    Widen(b, t.key, k, cmp);
    BoundsExclude(a, k, cmp);
    BoundsExclude(b, k, cmp);
  }

  lemma {:induction false} LastListed<K, V>(t: Tree<K, V>)
    requires t.Node?
    ensures Inorder(t) != [] && Inorder(t)[|Inorder(t)| - 1] == Last(t)
  {
    if t.right.Node? { LastListed(t.right); }
  }

  lemma {:induction false} FirstListed<K, V>(t: Tree<K, V>)
    requires t.Node?
    ensures Inorder(t) != [] && Inorder(t)[0] == First(t)
  {
    if t.left.Node? { FirstListed(t.left); }
  }

  lemma {:induction false} LastAbsent<K(!new), V>(s: seq<(K, V)>, cmp: (K, K) -> int)
    requires s != [] && Lawful(cmp) && Ascending(s, cmp)
    ensures Absent(s[..|s| - 1], s[|s| - 1].0, cmp)
    ensures cmp(s[0].0, s[0].0) == 0 == cmp(s[|s| - 1].0, s[|s| - 1].0)
  {
    forall i | 0 <= i < |s| - 1 ensures cmp(s[i].0, s[|s| - 1].0) != 0 {}
  }

  lemma {:induction false} DelEnds<K, V>(s: seq<(K, V)>, cmp: (K, K) -> int)
    requires s != [] && Absent(s[..|s| - 1], s[|s| - 1].0, cmp)
    requires cmp(s[0].0, s[0].0) == 0 == cmp(s[|s| - 1].0, s[|s| - 1].0)
    ensures s == Del(s, s[|s| - 1].0, cmp) + [s[|s| - 1]]
    ensures s == [s[0]] + Del(s, s[0].0, cmp)
  {
    var a, x := s[..|s| - 1], s[|s| - 1];
    assert s == a + [x];
    DelAfter(a, [x], x.0, cmp);
    assert Del([x], x.0, cmp) == [] && a + [] == a;
  }

  lemma {:induction false} LastSplits<K(!new), V>(t: Tree<K, V>, cmp: (K, K) -> int)
    requires t.Node? && Lawful(cmp) && Ordered(t, cmp)
    ensures Inorder(t) == Del(Inorder(t), Last(t).0, cmp) + [Last(t)]
  {
    LastListed(t);
    LastAbsent(Inorder(t), cmp);
    DelEnds(Inorder(t), cmp);
  }

  lemma {:induction false} FirstSplits<K(!new), V>(t: Tree<K, V>, cmp: (K, K) -> int)
    requires t.Node? && Lawful(cmp) && Ordered(t, cmp)
    ensures Inorder(t) == [First(t)] + Del(Inorder(t), First(t).0, cmp)
  {
    FirstListed(t);
    LastAbsent(Inorder(t), cmp);
    DelEnds(Inorder(t), cmp);
  }

  /** A tree removal lists as a deletion from the sorted listing, whatever rotations happened. */
  lemma {:induction false} RemoveListing<K(!new), V>(t: Tree<K, V>, k: K, cmp: (K, K) -> int)
    requires Balanced(t) && Lawful(cmp) && Ordered(t, cmp)
    ensures Inorder(Remove(t, k, cmp).tree) == Del(Inorder(t), k, cmp)
    decreases t, 1
  {
    if t.Node? {
      OrderedParts(t, cmp);
      OrderedExcludes(t, k, cmp);
      DelAtRoot(Inorder(t.left), (t.key, t.val), Inorder(t.right), k, cmp);
      if cmp(t.key, k) > 0 {
        RemoveListing(t.left, k, cmp);
        AfterLeftListing(t, Remove(t.left, k, cmp));
      } else if cmp(t.key, k) < 0 {
        RemoveListing(t.right, k, cmp);
        AfterRightListing(t, Remove(t.right, k, cmp));
      } else {
        RemoveRootListing(t, cmp);
      }
    }
  }

  lemma {:induction false} AfterLeftListing<K, V>(t: Tree<K, V>, s: Removed<K, V>)
    requires t.Node? && Balanced(t) && Shrinks(t.left, s)
    ensures Inorder(AfterLeft(t, s).tree) == Inorder(s.tree) + [(t.key, t.val)] + Inorder(t.right)
  {
    var t' := t.(left := s.tree);
    if s.shrunk && t.bal == 1 { LiftRightKeepsListing(t'); }
  }

  lemma {:induction false} AfterRightListing<K, V>(t: Tree<K, V>, s: Removed<K, V>)
    requires t.Node? && Balanced(t) && Shrinks(t.right, s)
    ensures Inorder(AfterRight(t, s).tree) == Inorder(t.left) + [(t.key, t.val)] + Inorder(s.tree)
  {
    var t' := t.(right := s.tree);
    if s.shrunk && t.bal == -1 { LiftLeftKeepsListing(t'); }
  }

  lemma {:induction false} RemoveRootListing<K(!new), V>(t: Tree<K, V>, cmp: (K, K) -> int)
    requires t.Node? && Balanced(t) && Lawful(cmp) && Ordered(t, cmp)
    ensures Inorder(RemoveRoot(t, cmp).tree) == Inorder(t.left) + Inorder(t.right)
    decreases t, 0
  {
    OrderedParts(t, cmp);
    var a, b := Inorder(t.left), Inorder(t.right);
    if t.left.Leaf? {
      assert a + b == b;
    } else if t.right.Leaf? {
      assert a + b == a;
    } else if t.bal < 0 {
      RemoveListing(t.left, Last(t.left).0, cmp);
      LiftLast(t, cmp);
    } else {
      RemoveListing(t.right, First(t.right).0, cmp);
      LiftFirst(t, cmp);
    }
  }

  /** Losing height on the side that is not the lower one rotates nothing. */
  lemma {:induction false} HigherSideStays<K, V>(t: Tree<K, V>, s: Removed<K, V>)
    requires t.Node? && Balanced(t)
    ensures t.bal < 0 && Shrinks(t.left, s) ==>
      var r := AfterLeft(t, s).tree; r == t.(left := s.tree, bal := r.bal)
    ensures t.bal >= 0 && Shrinks(t.right, s) ==>
      var r := AfterRight(t, s).tree; r == t.(right := s.tree, bal := r.bal)
  {}

  lemma {:induction false} LiftLast<K(!new), V>(t: Tree<K, V>, cmp: (K, K) -> int)
    requires t.Node? && t.left.Node? && t.right.Node? && Balanced(t) && t.bal < 0
    requires Lawful(cmp) && Ordered(t.left, cmp)
    requires Inorder(Remove(t.left, Last(t.left).0, cmp).tree) == Del(Inorder(t.left), Last(t.left).0, cmp)
    ensures Inorder(RemoveRoot(t, cmp).tree) == Inorder(t.left) + Inorder(t.right)
  {
    var a := Inorder(t.left);
    LastSplits(t.left, cmp);
    var s := Remove(t.left, Last(t.left).0, cmp);
    HigherSideStays(t, s);
    var r := RemoveRoot(t, cmp).tree;
    assert r == Node(s.tree, Last(t.left).0, Last(t.left).1, t.right, r.bal);
  }

  lemma {:induction false} LiftFirst<K(!new), V>(t: Tree<K, V>, cmp: (K, K) -> int)
    requires t.Node? && t.left.Node? && t.right.Node? && Balanced(t) && t.bal >= 0
    requires Lawful(cmp) && Ordered(t.right, cmp)
    requires Inorder(Remove(t.right, First(t.right).0, cmp).tree) == Del(Inorder(t.right), First(t.right).0, cmp)
    ensures Inorder(RemoveRoot(t, cmp).tree) == Inorder(t.left) + Inorder(t.right)
  {
    var a, b := Inorder(t.left), Inorder(t.right);
    FirstSplits(t.right, cmp);
    var s := Remove(t.right, First(t.right).0, cmp);
    HigherSideStays(t, s);
    var r := RemoveRoot(t, cmp).tree;
    assert r == Node(t.left, First(t.right).0, First(t.right).1, s.tree, r.bal);
    hide RemoveRoot, Remove, Balanced, Ordered, Lawful, First, Shrinks, Del;
    assert a + [First(t.right)] + Inorder(s.tree) == a + ([First(t.right)] + Inorder(s.tree));
  }
}
