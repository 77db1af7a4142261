/** What the AVL trees are for: finite maps, of a height that fits the iterator stack. */
module AvlMap {
  import opened Wrappers
  import opened AvlTree

  function ToMap<K, V>(s: seq<(K, V)>): map<K, V> {
    if s == [] then map[] else ToMap(s[1..])[s[0].0 := s[0].1]
  }

  function Lookup<K, V>(m: map<K, V>, k: K): Option<V> {
    if k in m then Some(m[k]) else None
  }

  // ----- sorted association lists as maps

  lemma {:induction false} PutUpdates<K(!new), V>(s: seq<(K, V)>, k: K, v: V, cmp: (K, K) -> int)
    requires Lawful(cmp)
    ensures ToMap(Put(s, k, v, cmp)) == ToMap(s)[k := v]
  {
    if s == [] || cmp(s[0].0, k) > 0 {
      assert ([(k, v)] + s)[1..] == s;
    } else if cmp(s[0].0, k) < 0 {
      PutUpdates(s[1..], k, v, cmp);
      assert s[0].0 != k;
      assert ([s[0]] + Put(s[1..], k, v, cmp))[1..] == Put(s[1..], k, v, cmp);
    } else {
      assert s[0].0 == k;
      assert ([(s[0].0, v)] + s[1..])[1..] == s[1..];
    }
  }

  lemma {:induction false} TailAscends<K, V>(s: seq<(K, V)>, cmp: (K, K) -> int)
    requires s != [] && Ascending(s, cmp)
    ensures Ascending(s[1..], cmp) && AllAbove(s[1..], s[0].0, cmp)
  {
  }

  lemma {:induction false} ConsAscends<K, V>(x: (K, V), s: seq<(K, V)>, cmp: (K, K) -> int)
    requires Ascending(s, cmp) && AllAbove(s, x.0, cmp)
    ensures Ascending([x] + s, cmp)
  {
  }

  lemma {:induction false} PutKeepsBound<K, V>(s: seq<(K, V)>, k: K, v: V, lo: K, cmp: (K, K) -> int)
    requires AllAbove(s, lo, cmp) && cmp(lo, k) < 0
    ensures AllAbove(Put(s, k, v, cmp), lo, cmp)
  {
    if s != [] && cmp(s[0].0, k) < 0 { PutKeepsBound(s[1..], k, v, lo, cmp); }
  }

  lemma {:induction false} PutAscends<K(!new), V>(s: seq<(K, V)>, k: K, v: V, cmp: (K, K) -> int)
    requires Lawful(cmp) && Ascending(s, cmp)
    ensures Ascending(Put(s, k, v, cmp), cmp)
  {
    if s != [] {
      TailAscends(s, cmp);
      Mirror(s[0].0, k, cmp);
      if cmp(s[0].0, k) < 0 {
        PutAscends(s[1..], k, v, cmp);
        PutKeepsBound(s[1..], k, v, s[0].0, cmp);
        ConsAscends(s[0], Put(s[1..], k, v, cmp), cmp);
      } else if cmp(s[0].0, k) > 0 {
        Widen(s[1..], s[0].0, k, cmp);
        ConsAscends((k, v), s, cmp);
      } else {
        ConsAscends((s[0].0, v), s[1..], cmp);
      }
    }
  }

  lemma {:induction false} AbsentFromMap<K(!new), V>(s: seq<(K, V)>, k: K, cmp: (K, K) -> int)
    requires Lawful(cmp) && Absent(s, k, cmp)
    ensures k !in ToMap(s)
  {
    if s != [] { AbsentFromMap(s[1..], k, cmp); }
  }

  lemma {:induction false} DelRemoves<K(!new), V>(s: seq<(K, V)>, k: K, cmp: (K, K) -> int)
    requires Lawful(cmp) && Ascending(s, cmp)
    ensures ToMap(Del(s, k, cmp)) == ToMap(s) - {k}
  {
    if s != [] {
      TailAscends(s, cmp);
      if cmp(s[0].0, k) == 0 {
        assert s[0].0 == k;
        BoundsExclude(s[1..], k, cmp);
        AbsentFromMap(s[1..], k, cmp);
      } else {
        DelRemoves(s[1..], k, cmp);
        assert s[0].0 != k;
        assert ([s[0]] + Del(s[1..], k, cmp))[1..] == Del(s[1..], k, cmp);
      }
    }
  }

  lemma {:induction false} DelKeepsBound<K, V>(s: seq<(K, V)>, k: K, lo: K, cmp: (K, K) -> int)
    requires AllAbove(s, lo, cmp)
    ensures AllAbove(Del(s, k, cmp), lo, cmp)
  {
    if s != [] { DelKeepsBound(s[1..], k, lo, cmp); }
  }

  lemma {:induction false} DelAscends<K, V>(s: seq<(K, V)>, k: K, cmp: (K, K) -> int)
    requires Ascending(s, cmp)
    ensures Ascending(Del(s, k, cmp), cmp)
  {
    if s != [] {
      TailAscends(s, cmp);
      if cmp(s[0].0, k) != 0 {
        DelAscends(s[1..], k, cmp);
        DelKeepsBound(s[1..], k, s[0].0, cmp);
        ConsAscends(s[0], Del(s[1..], k, cmp), cmp);
      }
    }
  }

  // ----- search

  lemma {:induction false} ToMapConcat<K, V>(a: seq<(K, V)>, b: seq<(K, V)>)
    ensures ToMap(a + b) == ToMap(b) + ToMap(a)
  {
    if a == [] {
      assert a + b == b;
    } else {
      assert (a + b)[1..] == a[1..] + b;
      ToMapConcat(a[1..], b);
    }
  }

  /** Binary search finds exactly the bindings of the map. */
  lemma {:induction false} FindIsLookup<K(!new), V>(t: Tree<K, V>, k: K, cmp: (K, K) -> int)
    requires Lawful(cmp) && Ordered(t, cmp)
    ensures Find(t, k, cmp) == Lookup(ToMap(Inorder(t)), k)
  {
    if t.Node? {
      var a, x, b := Inorder(t.left), [(t.key, t.val)], Inorder(t.right);
      OrderedParts(t, cmp);
      OrderedExcludes(t, k, cmp);
      ToMapConcat(a + x, b);
      ToMapConcat(a, x);
      assert ToMap(x) == map[t.key := t.val];
      if cmp(t.key, k) > 0 {
        FindIsLookup(t.left, k, cmp);
        AbsentFromMap(b, k, cmp);
      } else if cmp(t.key, k) < 0 {
        FindIsLookup(t.right, k, cmp);
        AbsentFromMap(a, k, cmp);
      } else {
        AbsentFromMap(a, k, cmp);
      }
    }
  }

  /** A listing in ascending order has as many bindings as the map. */
  lemma {:induction false} ToMapSize<K(!new), V>(s: seq<(K, V)>, cmp: (K, K) -> int)
    requires Lawful(cmp) && Ascending(s, cmp)
    ensures |ToMap(s)| == |s|
  {
    if s != [] {
      TailAscends(s, cmp);
      BoundsExclude(s[1..], s[0].0, cmp);
      AbsentFromMap(s[1..], s[0].0, cmp);
      ToMapSize(s[1..], cmp);
      assert ToMap(s).Keys == ToMap(s[1..]).Keys + {s[0].0};
    }
  }

  // ----- whole runs

  /** An AVL search tree: what every WordFM holds between calls. */
  ghost predicate Avl<K, V>(t: Tree<K, V>, cmp: (K, K) -> int) {
    Balanced(t) && Ordered(t, cmp)
  }

  /** Insertion keeps the invariant and updates the map; the displaced value is the old binding. */
  lemma {:induction false} InsertRefines<K(!new), V>(t: Tree<K, V>, k: K, v: V, cmp: (K, K) -> int)
    requires Lawful(cmp) && Avl(t, cmp)
    ensures var r := Insert(t, k, v, cmp);
      && Avl(r.tree, cmp)
      && ToMap(Inorder(r.tree)) == ToMap(Inorder(t))[k := v]
      && r.prior == Lookup(ToMap(Inorder(t)), k)
  {
    InsertListing(t, k, v, cmp);
    PutUpdates(Inorder(t), k, v, cmp);
    PutAscends(Inorder(t), k, v, cmp);
    FindIsLookup(t, k, cmp);
  }

  /** Removal keeps the invariant and takes exactly the one key out of the map. */
  lemma {:induction false} RemoveRefines<K(!new), V>(t: Tree<K, V>, k: K, cmp: (K, K) -> int)
    requires Lawful(cmp) && Avl(t, cmp)
    ensures var r := Remove(t, k, cmp).tree;
      Avl(r, cmp) && ToMap(Inorder(r)) == ToMap(Inorder(t)) - {k}
  {
    RemoveListing(t, k, cmp);
    DelRemoves(Inorder(t), k, cmp);
    DelAscends(Inorder(t), k, cmp);
  }

  datatype Op<K, V> = Add(key: K, val: V) | Delete(key: K)

  function RunTree<K, V>(ops: seq<Op<K, V>>, cmp: (K, K) -> int): (t: Tree<K, V>)
    ensures Balanced(t)
  {
    if ops == [] then Leaf
    else
      var t := RunTree(ops[..|ops| - 1], cmp);
      match ops[|ops| - 1]
      case Add(k, v) => Insert(t, k, v, cmp).tree
      case Delete(k) => Remove(t, k, cmp).tree
  }

  function RunMap<K, V>(ops: seq<Op<K, V>>): map<K, V> {
    if ops == [] then map[]
    else
      var m := RunMap(ops[..|ops| - 1]);
      match ops[|ops| - 1]
      case Add(k, v) => m[k := v]
      case Delete(k) => m - {k}
  }

  /** Every run of insertions and deletions keeps an AVL search tree that denotes the map of the
      same run. */
  lemma {:induction false} RunRefinesMap<K(!new), V>(ops: seq<Op<K, V>>, cmp: (K, K) -> int)
    requires Lawful(cmp)
    ensures Avl(RunTree(ops, cmp), cmp)
    ensures ToMap(Inorder(RunTree(ops, cmp))) == RunMap(ops)
  {
    if ops != [] {
      RunRefinesMap(ops[..|ops| - 1], cmp);
      var t := RunTree(ops[..|ops| - 1], cmp);
      match ops[|ops| - 1]
      case Add(k, v) => InsertRefines(t, k, v, cmp);
      case Delete(k) => RemoveRefines(t, k, cmp);
    }
  }

  // ----- the height bound

  function Fib(n: nat): nat { if n < 2 then n else Fib(n - 2) + Fib(n - 1) }

  lemma {:induction false} FibGrows(m: nat, n: nat)
    requires m <= n
    ensures Fib(m) <= Fib(n)
    decreases n - m
  {
    if m < n {
      FibGrows(m + 1, n);
      assert m >= 1 ==> Fib(m + 1) == Fib(m - 1) + Fib(m);
    }
  }

  lemma {:induction false} FibOfTwo()
    ensures Fib(2) == 1
  {}

  lemma {:induction false} FibStep(n: nat)
    ensures Fib(n + 2) == Fib(n) + Fib(n + 1)
  {}

  /** The classical AVL bound: a tree of height h has at least Fib(h + 2) - 1 nodes. */
  lemma {:induction false} SizeAtLeastFib<K, V>(t: Tree<K, V>)
    requires Balanced(t)
    ensures Size(t) + 1 >= Fib(Height(t) + 2)
  {
    hide Fib;
    if t.Leaf? {
      FibOfTwo();
    } else {
      SizeAtLeastFib(t.left);
      SizeAtLeastFib(t.right);
      var h := Height(t);
      FibGrows(h, Height(t.left) + 2);
      FibGrows(h, Height(t.right) + 2);
      FibStep(h);
    }
  }

  lemma {:induction false} FibOf35(n: nat)
    requires n == 35
    ensures Fib(n) == 9227465
  {
    assert Fib(8) == 21 && Fib(9) == 34;
    assert Fib(10) == 55; assert Fib(11) == 89; assert Fib(12) == 144; assert Fib(13) == 233;
    assert Fib(14) == 377; assert Fib(15) == 610; assert Fib(16) == 987; assert Fib(17) == 1597;
    assert Fib(18) == 2584; assert Fib(19) == 4181; assert Fib(20) == 6765; assert Fib(21) == 10946;
    assert Fib(22) == 17711; assert Fib(23) == 28657; assert Fib(24) == 46368; assert Fib(25) == 75025;
    assert Fib(26) == 121393; assert Fib(27) == 196418; assert Fib(28) == 317811; assert Fib(29) == 514229;
    assert Fib(30) == 832040; assert Fib(31) == 1346269; assert Fib(32) == 2178309; assert Fib(33) == 3524578;
    assert Fib(34) == 5702887;
  }

  lemma {:induction false} FibBeyond35(m: nat, n: nat)
    requires m == 35 <= n
    ensures Fib(n) >= 9227465
  {
    FibOf35(m);
    FibGrows(m, n);
  }

  const WFM_STKMAX: int := 32

  /** A tree of fewer than 9,227,464 entries is at most as high as the iterator stack is deep. */
  lemma {:induction false} FitsIteratorStack<K, V>(t: Tree<K, V>)
    requires Balanced(t) && Size(t) < 9227464
    ensures Height(t) <= WFM_STKMAX
  {
    hide Fib;
    if Height(t) > WFM_STKMAX {
      SizeAtLeastFib(t);
      FibBeyond35(WFM_STKMAX + 3, Height(t) + 2);
    }
  }

  /** A thinnest AVL tree of a given height, with keys from `lo` on. */
  function Thinnest(h: nat, lo: int): (t: Tree<int, int>)
    ensures Balanced(t) && Height(t) == h
  {
    if h == 0 then Leaf
    else if h == 1 then Node(Leaf, lo, 0, Leaf, 0)
    else
      var l := Thinnest(h - 1, lo);
      Node(l, lo + Size(l), 0, Thinnest(h - 2, lo + Size(l) + 1), -1)
  }

  function Difference(x: int, y: int): int { x - y }

  /** The keys are numbered in order. */
  ghost predicate Numbered(s: seq<(int, int)>, lo: int) {
    forall i :: 0 <= i < |s| ==> s[i].0 - i == lo
  }

  lemma {:induction false} NumberedConcat(a: seq<(int, int)>, x: (int, int), b: seq<(int, int)>, lo: int)
    requires Numbered(a, lo) && x.0 == lo + |a| && Numbered(b, lo + |a| + 1)
    ensures Numbered(a + [x] + b, lo)
  {
    var s := a + [x] + b;
    forall i | 0 <= i < |s| ensures s[i].0 - i == lo {
      assert s[i] == if i < |a| then a[i] else if i == |a| then x else b[i - |a| - 1];
    }
  }

  lemma {:induction false} ThinnestListing(h: nat, lo: int)
    ensures h == 0 ==> Inorder(Thinnest(h, lo)) == []
    ensures h == 1 ==> Inorder(Thinnest(h, lo)) == [(lo, 0)]
    ensures h >= 2 ==> var l := Inorder(Thinnest(h - 1, lo));
      Inorder(Thinnest(h, lo)) == l + [(lo + |l|, 0)] + Inorder(Thinnest(h - 2, lo + |l| + 1))
  {
    hide Balanced, Height;
  }

  lemma {:induction false} ThinnestSize(h: nat, lo: int)
    ensures Size(Thinnest(h, lo)) + 1 == Fib(h + 2)
  {
    hide Balanced, Height, Inorder;
    if h < 2 {
      FibOfTwo();
      FibStep(1);
    } else {
      hide Fib;
      ThinnestSize(h - 1, lo);
      ThinnestSize(h - 2, lo + Size(Thinnest(h - 1, lo)) + 1);
      FibStep(h);
    }
  }

  lemma {:induction false} ThinnestNumbered(h: nat, lo: int)
    ensures Numbered(Inorder(Thinnest(h, lo)), lo)
  {
    hide Thinnest, Inorder, Balanced, Height;
    ThinnestListing(h, lo);
    if h >= 2 {
      var l := Inorder(Thinnest(h - 1, lo));
      ThinnestNumbered(h - 1, lo);
      ThinnestNumbered(h - 2, lo + |l| + 1);
      NumberedConcat(l, (lo + |l|, 0), Inorder(Thinnest(h - 2, lo + |l| + 1)), lo);
    }
  }

  /** It is an AVL search tree, so the bound cannot be improved at any height. */
  lemma {:induction false} ThinnestIsAvl(h: nat, lo: int)
    ensures Lawful(Difference) && Avl(Thinnest(h, lo), Difference)
    ensures Height(Thinnest(h, lo)) == h && Size(Thinnest(h, lo)) + 1 == Fib(h + 2)
  {
    hide Fib, Size;
    ThinnestSize(h, lo);
    ThinnestNumbered(h, lo);
    hide Thinnest, Inorder;
    var s := Inorder(Thinnest(h, lo));
    forall i, j | 0 <= i < j < |s| ensures Difference(s[i].0, s[j].0) < 0 {
      assert s[i].0 - i == lo == s[j].0 - j;
    }
  }

  // ----- every AVL search tree comes from some run

  /** A tree without one leaf, which is taken from the higher side. */
  function Cut<K, V>(t: Tree<K, V>): (r: Tree<K, V>)
    requires t.Node? && Balanced(t)
    ensures Balanced(r) && Height(t) - 1 <= Height(r) <= Height(t) && Size(r) == Size(t) - 1
  {
    if t.left.Leaf? && t.right.Leaf? then Leaf
    else if t.bal <= 0 then
      var l := Cut(t.left);
      t.(left := l, bal := t.bal + if Height(l) < Height(t.left) then 1 else 0)
    else
      var r := Cut(t.right);
      t.(right := r, bal := t.bal - if Height(r) < Height(t.right) then 1 else 0)
  }

  /** The binding that was in the leaf. */
  function Taken<K, V>(t: Tree<K, V>): (K, V)
    requires t.Node? && Balanced(t)
  {
    if t.left.Leaf? && t.right.Leaf? then (t.key, t.val)
    else if t.bal <= 0 then Taken(t.left)
    else Taken(t.right)
  }

  lemma {:induction false} TakenListed<K, V>(t: Tree<K, V>)
    requires t.Node? && Balanced(t)
    ensures Taken(t) in Inorder(t)
  {
    if t.left.Leaf? && t.right.Leaf? {
      assert Inorder(t)[0] == (t.key, t.val);
    } else if t.bal <= 0 {
      TakenListed(t.left);
    } else {
      TakenListed(t.right);
    }
  }

  /** On which side of the root the leaf was. */
  lemma {:induction false} TakenSide<K(!new), V>(t: Tree<K, V>, cmp: (K, K) -> int)
    requires t.Node? && Lawful(cmp) && Avl(t, cmp)
    ensures t.left.Node? && t.bal <= 0 ==> Avl(t.left, cmp) && cmp(t.key, Taken(t.left).0) > 0
    ensures t.right.Node? && t.bal > 0 ==> Avl(t.right, cmp) && cmp(t.key, Taken(t.right).0) < 0
  {
    OrderedParts(t, cmp);
    if t.left.Node? && t.bal <= 0 {
      TakenListed(t.left);
      Mirror(Taken(t.left).0, t.key, cmp);
    } else if t.right.Node? && t.bal > 0 {
      TakenListed(t.right);
    }
  }

  lemma {:induction false} CutListing<K(!new), V>(t: Tree<K, V>, cmp: (K, K) -> int)
    requires t.Node? && Lawful(cmp) && Avl(t, cmp)
    ensures Inorder(Cut(t)) == Del(Inorder(t), Taken(t).0, cmp)
  {
    var k := Taken(t).0;
    OrderedExcludes(t, k, cmp);
    DelAtRoot(Inorder(t.left), (t.key, t.val), Inorder(t.right), k, cmp);
    TakenSide(t, cmp);
    if t.left.Leaf? && t.right.Leaf? {
      assert cmp(k, k) == 0;
    } else if t.bal <= 0 {
      CutListing(t.left, cmp);
    } else {
      CutListing(t.right, cmp);
    }
  }

  /** Inserting the leaf again rotates nothing and gives the tree back. */
  lemma {:induction false} CutInserted<K(!new), V>(t: Tree<K, V>, cmp: (K, K) -> int)
    requires t.Node? && Lawful(cmp) && Avl(t, cmp)
    ensures Avl(Cut(t), cmp) && Insert(Cut(t), Taken(t).0, Taken(t).1, cmp).tree == t
  {
    CutListing(t, cmp);
    DelAscends(Inorder(t), Taken(t).0, cmp);
    CutInsertedTree(t, cmp);
  }

  lemma {:induction false} CutInsertedTree<K(!new), V>(t: Tree<K, V>, cmp: (K, K) -> int)
    requires t.Node? && Lawful(cmp) && Avl(t, cmp)
    ensures Insert(Cut(t), Taken(t).0, Taken(t).1, cmp).tree == t
  {
    TakenSide(t, cmp);
    hide Lawful, Ordered, LiftLeft, LiftRight;
    var (k, v) := Taken(t);
    if t.left.Leaf? && t.right.Leaf? {
    } else if t.bal <= 0 {
      CutInsertedTree(t.left, cmp);
      assert Insert(Cut(t), k, v, cmp) == GrownLeft(Cut(t), Insert(Cut(t.left), k, v, cmp));
    } else {
      CutInsertedTree(t.right, cmp);
      assert Insert(Cut(t), k, v, cmp) == GrownRight(Cut(t), Insert(Cut(t.right), k, v, cmp));
    }
  }

  /** Every AVL search tree is the result of some run of insertions. */
  lemma {:induction false} EveryAvlIsReached<K(!new), V>(t: Tree<K, V>, cmp: (K, K) -> int) returns (ops: seq<Op<K, V>>)
    requires Lawful(cmp) && Avl(t, cmp)
    ensures RunTree(ops, cmp) == t
    decreases Size(t)
  {
    ops := [];
    if t.Node? {
      CutInserted(t, cmp);
      var before := EveryAvlIsReached(Cut(t), cmp);
      var (k, v) := Taken(t);
      ops := before + [Add(k, v)];
      assert ops[..|ops| - 1] == before;
    }
  }
}
