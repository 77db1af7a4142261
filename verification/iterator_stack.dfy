/** The worklist behind WordFM iteration, and exactly how many slots it needs. */
module IteratorStack {
  import opened AvlTree
  import opened AvlMap

  /** What a stack entry in state 1, 2 or 3 still has to deliver. */
  ghost function Todo<K, V>(e: (Tree<K, V>, int)): seq<(K, V)>
    requires e.0.Node?
  {
    if e.1 == 1 then Inorder(e.0)
    else if e.1 == 2 then [(e.0.key, e.0.val)] + Inorder(e.0.right)
    else Inorder(e.0.right)
  }

  ghost predicate Proper<K, V>(s: seq<(Tree<K, V>, int)>) {
    forall i :: 0 <= i < |s| ==> s[i].0.Node? && 1 <= s[i].1 <= 3
  }

  /** The bindings still to come, the top of the stack first. */
  ghost function Pending<K, V>(s: seq<(Tree<K, V>, int)>): seq<(K, V)>
    requires Proper(s)
  {
    if s == [] then [] else Todo(s[|s| - 1]) + Pending(s[..|s| - 1])
  }

  /** Pops left before the stack is empty. */
  ghost function Work<K, V>(s: seq<(Tree<K, V>, int)>): nat
    requires Proper(s)
  {
    if s == [] then 0
    else
      var (t, i) := s[|s| - 1];
      4 - i + 3 * ((if i == 1 then Size(t.left) else 0) + Size(t.right)) + Work(s[..|s| - 1])
  }

  /** How many entries iteration over a tree keeps on the stack at once: a node stays there while
      its left subtree is visited, but not while its right subtree is. */
  function LeftDepth<K, V>(t: Tree<K, V>): (d: nat)
    ensures d <= Height(t)
  {
    if t.Leaf? then 0 else Max(1 + LeftDepth(t.left), LeftDepth(t.right))
  }

  ghost predicate Fits<K, V>(s: seq<(Tree<K, V>, int)>, limit: int) {
    forall i :: 0 <= i < |s| ==> LeftDepth(s[i].0) + i <= limit
  }

  /** The pure effect of one turn of the iterator's loop on a popped entry that is not yielded. */
  ghost function Turn<K, V>(s: seq<(Tree<K, V>, int)>): (s': seq<(Tree<K, V>, int)>)
    requires Proper(s) && s != [] && s[|s| - 1].1 != 2
    ensures Proper(s')
  {
    var (t, i) := s[|s| - 1];
    var rest := s[..|s| - 1];
    if i == 1 then rest + [(t, 2)] + (if t.left.Node? then [(t.left, 1)] else [])
    else rest + (if t.right.Node? then [(t.right, 1)] else [])
  }

  lemma {:induction false} PushPending<K, V>(s: seq<(Tree<K, V>, int)>, e: (Tree<K, V>, int))
    requires Proper(s) && e.0.Node? && 1 <= e.1 <= 3
    ensures Proper(s + [e])
    ensures Pending(s + [e]) == Todo(e) + Pending(s)
    ensures Work(s + [e]) == 4 - e.1 + 3 * ((if e.1 == 1 then Size(e.0.left) else 0) + Size(e.0.right)) + Work(s)
  {
    assert (s + [e])[..|s|] == s;
  }

  lemma {:induction false} DescendKeepsPending<K, V>(rest: seq<(Tree<K, V>, int)>, t: Tree<K, V>)
    requires Proper(rest) && t.Node?
    ensures Pending(Turn(rest + [(t, 1)])) == Pending(rest + [(t, 1)])
    ensures Work(Turn(rest + [(t, 1)])) < Work(rest + [(t, 1)])
  {
    PushPending(rest, (t, 1));
    PushPending(rest, (t, 2));
    assert (rest + [(t, 1)])[..|rest|] == rest;
    Reassociate(Inorder(t.left), (t.key, t.val), Inorder(t.right), Pending(rest));
    if t.left.Node? {
      PushPending(rest + [(t, 2)], (t.left, 1));
    } else {
      assert rest + [(t, 2)] + [] == rest + [(t, 2)];
    }
  }

  lemma {:induction false} Reassociate<T>(a: seq<T>, x: T, b: seq<T>, c: seq<T>)
    ensures (a + [x] + b) + c == a + (([x] + b) + c)
    ensures a == [] ==> (a + [x] + b) + c == ([x] + b) + c
  {}

  lemma {:induction false} FinishKeepsPending<K, V>(rest: seq<(Tree<K, V>, int)>, t: Tree<K, V>)
    requires Proper(rest) && t.Node?
    ensures Pending(Turn(rest + [(t, 3)])) == Pending(rest + [(t, 3)])
    ensures Work(Turn(rest + [(t, 3)])) < Work(rest + [(t, 3)])
  {
    PushPending(rest, (t, 3));
    assert (rest + [(t, 3)])[..|rest|] == rest;
    if t.right.Node? {
      PushPending(rest, (t.right, 1));
    } else {
      assert [] + Pending(rest) == Pending(rest) && rest + [] == rest;
    }
  }

  lemma {:induction false} TurnFits<K, V>(s: seq<(Tree<K, V>, int)>, limit: int)
    requires Proper(s) && s != [] && s[|s| - 1].1 != 2 && Fits(s, limit)
    ensures Fits(Turn(s), limit)
  {
    var s' := Turn(s);
    forall i | 0 <= i < |s'| ensures LeftDepth(s'[i].0) + i <= limit {
      if i < |s| - 1 { assert s'[i] == s[i]; }
    }
  }

  /** A turn delivers nothing and loses nothing, makes progress, and keeps the stack in its slots. */
  lemma {:induction false} TurnKeepsPending<K, V>(s: seq<(Tree<K, V>, int)>, limit: int)
    requires Proper(s) && s != [] && s[|s| - 1].1 != 2 && Fits(s, limit)
    ensures Pending(Turn(s)) == Pending(s) && Work(Turn(s)) < Work(s) && Fits(Turn(s), limit)
  {
    var (t, i) := s[|s| - 1];
    var rest := s[..|s| - 1];
    assert s == rest + [(t, i)];
    TurnFits(s, limit);
    if i == 1 { DescendKeepsPending(rest, t); } else { FinishKeepsPending(rest, t); }
  }

  lemma {:induction false} YieldPending<K, V>(s: seq<(Tree<K, V>, int)>)
    requires Proper(s) && s != [] && s[|s| - 1].1 == 2
    ensures var t := s[|s| - 1].0; var s' := s[..|s| - 1] + [(t, 3)];
      Proper(s') && Pending(s) != [] && Pending(s)[0] == (t.key, t.val) && Pending(s') == Pending(s)[1..]
  {
    hide Pending, Work, Inorder;
    var t := s[|s| - 1].0;
    assert s == s[..|s| - 1] + [(t, 2)];
    PushPending(s[..|s| - 1], (t, 2));
    PushPending(s[..|s| - 1], (t, 3));
  }

  // ----- exactly when the stack is deep enough

  /** One pass of the loop on a stack of any size. */
  ghost function Step<K, V>(s: seq<(Tree<K, V>, int)>): (s': seq<(Tree<K, V>, int)>)
    requires Proper(s)
    ensures Proper(s')
  {
    if s == [] then s
    else if s[|s| - 1].1 == 2 then s[..|s| - 1] + [(s[|s| - 1].0, 3)]
    else Turn(s)
  }

  ghost function Steps<K, V>(s: seq<(Tree<K, V>, int)>, n: nat): (s': seq<(Tree<K, V>, int)>)
    requires Proper(s)
    ensures Proper(s')
    decreases n
  {
    if n == 0 then s else Steps(Step(s), n - 1)
  }

  lemma {:induction false} StepsAdd<K, V>(s: seq<(Tree<K, V>, int)>, m: nat, n: nat)
    requires Proper(s)
    ensures Steps(Steps(s, m), n) == Steps(s, m + n)
    decreases m
  {
    if m > 0 { StepsAdd(Step(s), m - 1, n); }
  }

  /** The stack right after a node's right subtree took its place. */
  ghost function RightOnly<K, V>(rest: seq<(Tree<K, V>, int)>, t: Tree<K, V>): seq<(Tree<K, V>, int)>
    requires t.Node?
  {
    if t.right.Node? then rest + [(t.right, 1)] else rest
  }

  lemma {:induction false} StepCases<K, V>(rest: seq<(Tree<K, V>, int)>, t: Tree<K, V>)
    requires Proper(rest) && t.Node?
    ensures Step(rest + [(t, 1)]) == rest + [(t, 2)] + (if t.left.Node? then [(t.left, 1)] else [])
    ensures Steps(rest + [(t, 2)], 2) == RightOnly(rest, t)
  {
    assert (rest + [(t, 1)])[..|rest|] == rest;
    var s2, s3 := rest + [(t, 2)], rest + [(t, 3)];
    assert s2[..|rest|] == rest && s3[..|rest|] == rest;
    assert Step(s2) == s3 && Step(s3) == RightOnly(rest, t);
    assert Steps(s2, 2) == Steps(s3, 1) == Steps(Step(s3), 0);
  }

  lemma {:induction false} PushedProper<K, V>(rest: seq<(Tree<K, V>, int)>, t: Tree<K, V>)
    requires Proper(rest) && t.Node?
    ensures Proper(rest + [(t, 1)]) && Proper(rest + [(t, 2)])
  {}

  /** Iteration over a subtree takes some number of passes and leaves the stack below it alone. */
  lemma {:induction false} Drains<K, V>(rest: seq<(Tree<K, V>, int)>, t: Tree<K, V>) returns (n: nat)
    requires Proper(rest) && t.Node?
    ensures Steps(rest + [(t, 1)], n) == rest
    decreases t, 1
  {
    var m := ReachRight(rest, t);
    n := m;
    if t.right.Node? {
      var k := Drains(rest, t.right);
      StepsAdd(rest + [(t, 1)], m, k);
      n := m + k;
    }
  }

  lemma {:induction false} ReachRight<K, V>(rest: seq<(Tree<K, V>, int)>, t: Tree<K, V>) returns (n: nat)
    requires Proper(rest) && t.Node?
    ensures Steps(rest + [(t, 1)], n) == RightOnly(rest, t)
    decreases t, 0
  {
    hide Step, Proper;
    var s := rest + [(t, 1)];
    assert Proper(s) && Proper(rest + [(t, 2)]) by { PushedProper(rest, t); }
    StepCases(rest, t);
    n := 1;
    assert Steps(s, 1) == Steps(Step(s), 0);
    hide Steps;
    if t.left.Node? {
      var k := Drains(rest + [(t, 2)], t.left);
      StepsAdd(s, 1, k);
      n := 1 + k;
    } else {
      assert rest + [(t, 2)] + [] == rest + [(t, 2)];
    }
    StepsAdd(s, n, 2);
    n := n + 2;
  }

  /** Iteration really does need LeftDepth slots: some pass leaves that many entries on the stack. */
  lemma {:induction false} ReachesLeftDepth<K, V>(rest: seq<(Tree<K, V>, int)>, t: Tree<K, V>) returns (n: nat)
    requires Proper(rest) && t.Node?
    ensures |Steps(rest + [(t, 1)], n)| >= |rest| + LeftDepth(t)
    decreases t
  {
    hide Step, Turn;
    var s := rest + [(t, 1)];
    StepCases(rest, t);
    if LeftDepth(t) == 1 {
      n := 0;
    } else if LeftDepth(t) == 1 + LeftDepth(t.left) {
      assert Steps(s, 1) == Steps(Step(s), 0);
      var k := ReachesLeftDepth(rest + [(t, 2)], t.left);
      StepsAdd(s, 1, k);
      n := 1 + k;
    } else {
      var m := ReachRight(rest, t);
      var k := ReachesLeftDepth(rest, t.right);
      StepsAdd(s, m, k);
      n := m + k;
    }
  }

  lemma {:induction false} StepsFit<K, V>(s: seq<(Tree<K, V>, int)>, n: nat, limit: int)
    requires Proper(s) && Fits(s, limit)
    ensures Fits(Steps(s, n), limit) && (|Steps(s, n)| <= limit || Steps(s, n) == [])
    decreases n
  {
    if n > 0 {
      if s != [] && s[|s| - 1].1 != 2 { TurnFits(s, limit); }
      StepsFit(Step(s), n - 1, limit);
    } else if s != [] {
      assert LeftDepth(s[|s| - 1].0) + |s| - 1 <= limit;
    }
  }

  /** The stack of 32 slots suffices for a whole iteration if and only if LeftDepth is at most 32. */
  lemma {:induction false} StackSufficesIff<K, V>(t: Tree<K, V>)
    requires t.Node?
    ensures (forall n: nat :: |Steps([(t, 1)], n)| <= WFM_STKMAX) <==> LeftDepth(t) <= WFM_STKMAX
  {
    if LeftDepth(t) <= WFM_STKMAX {
      forall n: nat ensures |Steps([(t, 1)], n)| <= WFM_STKMAX { StepsFit([(t, 1)], n, WFM_STKMAX); }
    } else {
      var n := ReachesLeftDepth([], t);
      assert [] + [(t, 1)] == [(t, 1)];
    }
  }

  /** Fewer than 9,227,464 entries are always safe ... */
  lemma {:induction false} SmallMapsIterate<K, V>(t: Tree<K, V>)
    requires Balanced(t) && Size(t) < 9227464
    ensures LeftDepth(t) <= WFM_STKMAX
  {
    FitsIteratorStack(t);
  }

  /** ... and there is a run of insertions after which a map of exactly that many entries overflows. */
  lemma {:induction false} SmallestOverflow(h: nat) returns (ops: seq<Op<int, int>>)
    requires h == WFM_STKMAX + 1
    ensures Lawful(Difference) && |RunMap(ops)| == 9227464
    ensures var t := RunTree(ops, Difference); t.Node? && exists n: nat :: |Steps([(t, 1)], n)| > WFM_STKMAX
  {
    hide Thinnest, LeftDepth, Fib, Balanced, Steps, Size, Height, Inorder, RunTree, RunMap, Ordered, Lawful, Difference;
    var t := Thinnest(h, 0);
    ThinnestIsAvl(h, 0);
    ThinnestIsLeftDeep(h, 0);
    ops := EveryAvlIsReached(t, Difference);
    RunRefinesMap(ops, Difference);
    FibOf35(h + 2);
    assert Ascending(Inorder(t), Difference) by { IsOrdered(t, Difference); }
    ToMapSize(Inorder(t), Difference);
    StackSufficesIff(t);
  }

  lemma {:induction false} IsOrdered<K, V>(t: Tree<K, V>, cmp: (K, K) -> int)
    requires Avl(t, cmp)
    ensures Ascending(Inorder(t), cmp)
  {}

  lemma {:induction false} ThinnestIsLeftDeep(h: nat, lo: int)
    ensures LeftDepth(Thinnest(h, lo)) == h && (h > 0 ==> Thinnest(h, lo).Node?)
  {
    if h >= 2 {
      ThinnestIsLeftDeep(h - 1, lo);
    }
  }
}
