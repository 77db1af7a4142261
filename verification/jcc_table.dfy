/** The table of call arcs: a chained hash table that grows, with two shortcuts in front of it. */
module JccTable {
  import opened CallState

  const N_JCC_INITIAL_ENTRIES := 4437

  class JccNode {
    const key: Jcc
    var nextHash: JccNode?
    var nextFrom: JccNode?

    constructor (key: Jcc)
      ensures this.key == key
    {
      this.key := key;
      nextHash := null;
      nextFrom := null;
    }
  }

  /** The hash of an arc, from the addresses of its two cost centres. */
  function HashIdx(addr: Bbcc -> nat, j: Jcc, size: nat): (r: nat)
    requires size > 0
    ensures r < size
  {
    ((addr(j.src) + 7 * addr(j.dst) + 13 * j.jmp) % 0x1_0000_0000) % size
  }

  /** The node at `i`, and no node at the end. */
  function At(s: seq<JccNode>, i: nat): JccNode? { if i < |s| then s[i] else null }

  /** The nodes of `s`, linked by their hash links from `head` on. */
  ghost predicate HashChain(head: JccNode?, s: seq<JccNode>)
    reads s`nextHash
  {
    && head == At(s, 0)
    && forall i {:trigger s[i]} :: 0 <= i < |s| ==> s[i].nextHash == At(s, i + 1)
  }

  ghost predicate FromChain(head: JccNode?, s: seq<JccNode>)
    reads s`nextFrom
  {
    && head == At(s, 0)
    && forall i {:trigger s[i]} :: 0 <= i < |s| ==> s[i].nextFrom == At(s, i + 1)
  }

  ghost predicate NoDuplicates(s: seq<JccNode>) {
    forall i, j :: 0 <= i < j < |s| ==> s[i] != s[j]
  }

  /** The buckets `chains` hold each of the nodes once, where its hash says. */
  ghost predicate Filed(chains: seq<seq<JccNode>>, nodes: set<JccNode>, addr: Bbcc -> nat) {
    && (forall b :: 0 <= b < |chains| ==> NoDuplicates(chains[b]))
    && (forall b, n :: 0 <= b < |chains| && n in chains[b] ==> n in nodes && HashIdx(addr, n.key, |chains|) == b)
    && (forall n :: n in nodes && |chains| > 0 ==> n in chains[HashIdx(addr, n.key, |chains|)])
  }

  ghost predicate Chained(table: seq<JccNode?>, chains: seq<seq<JccNode>>, nodes: set<JccNode>)
    reads nodes`nextHash
  {
    && |table| == |chains|
    && (forall b, n :: 0 <= b < |chains| && n in chains[b] ==> n in nodes)
    && forall b :: 0 <= b < |chains| ==> HashChain(table[b], chains[b])
  }

  lemma {:induction false} FileOne(chains: seq<seq<JccNode>>, nodes: set<JccNode>, addr: Bbcc -> nat, n: JccNode)
    requires Filed(chains, nodes, addr) && n !in nodes && |chains| > 0
    ensures var b := HashIdx(addr, n.key, |chains|); Filed(chains[b := [n] + chains[b]], nodes + {n}, addr)
  {
    var b := HashIdx(addr, n.key, |chains|);
    var r := chains[b := [n] + chains[b]];
    assert n !in chains[b];
    forall m | m in nodes + {n} ensures m in r[HashIdx(addr, m.key, |r|)] {
      if m == n { assert r[b][0] == n; } else {
        var c := HashIdx(addr, m.key, |chains|);
        assert m in chains[c];
        if c == b {
          var i :| 0 <= i < |chains[b]| && chains[b][i] == m;
          assert r[b][i + 1] == m;
        }
      }
    }
  }

  /** Puts a node in front of the bucket `b`. */
  method Link(n: JccNode, table: array<JccNode?>, b: nat, ghost chains: seq<seq<JccNode>>, ghost nodes: set<JccNode>)
    requires b < table.Length == |chains| && Chained(table[..], chains, nodes) && n !in nodes
    modifies n`nextHash, table
    ensures Chained(table[..], chains[b := [n] + chains[b]], nodes + {n})
    ensures forall m :: m in nodes ==> m.nextHash == old(m.nextHash)
  {
    ghost var head := table[b];
    n.nextHash := table[b];
    table[b] := n;
    ghost var r := chains[b := [n] + chains[b]];
    forall c | 0 <= c < |r| ensures HashChain(table[c], r[c]) {
      assert old(HashChain(table[..][c], chains[c]));
      forall i | 0 <= i < |chains[c]| ensures chains[c][i].nextHash == old(chains[c][i].nextHash) {
        assert chains[c][i] in chains[c];
      }
      if c == b { Prepended(n, head, chains[b]); }
    }
  }

  lemma {:induction false} Prepended(n: JccNode, head: JccNode?, s: seq<JccNode>)
    requires HashChain(head, s) && n.nextHash == head
    ensures HashChain(n, [n] + s)
  {
    var r := [n] + s;
    forall i | 0 <= i < |r| ensures r[i].nextHash == At(r, i + 1) {
      assert At(r, i + 1) == At(s, i);
      if i > 0 { assert r[i] == s[i - 1]; }
    }
  }

  lemma {:induction false} PrependedFrom(n: JccNode, head: JccNode?, s: seq<JccNode>)
    requires FromChain(head, s) && n.nextFrom == head
    ensures FromChain(n, [n] + s)
  {
    var r := [n] + s;
    forall i | 0 <= i < |r| ensures r[i].nextFrom == At(r, i + 1) {
      assert At(r, i + 1) == At(s, i);
      if i > 0 { assert r[i] == s[i - 1]; }
    }
  }

  /** The exit of a cost centre that an arc leaves by. */
  function ExitOf(j: Jcc): (Bbcc, nat) { (j.src, j.jmp) }

  /** Every arc is in the list of its exit, once, and in no other. */
  ghost predicate Partitioned(lists: map<(Bbcc, nat), seq<JccNode>>, nodes: set<JccNode>) {
    && (forall x :: x in lists ==> NoDuplicates(lists[x]))
    && (forall x, n :: x in lists && n in lists[x] ==> n in nodes && ExitOf(n.key) == x)
    && (forall n :: n in nodes ==> ExitOf(n.key) in lists && n in lists[ExitOf(n.key)])
  }

  ghost predicate Headed(heads: map<(Bbcc, nat), JccNode?>, lists: map<(Bbcc, nat), seq<JccNode>>, nodes: set<JccNode>)
    reads nodes`nextFrom
  {
    && heads.Keys == lists.Keys
    && (forall x, n :: x in lists && n in lists[x] ==> n in nodes)
    && forall x :: x in lists ==> FromChain(heads[x], lists[x])
  }

  /** Every arc is found under its key. */
  ghost predicate Keyed(all: map<Jcc, JccNode>) {
    forall j :: j in all ==> all[j].key == j
  }

  /** The arcs last used at either end of a cost centre belong to it. */
  ghost predicate Recent(lruFrom: map<Bbcc, JccNode>, lruTo: map<Bbcc, JccNode>, nodes: set<JccNode>) {
    && (forall b :: b in lruFrom ==> lruFrom[b] in nodes && lruFrom[b].key.src == b)
    && (forall b :: b in lruTo ==> lruTo[b] in nodes && lruTo[b].key.dst == b)
  }

  class JccHash {
    var table: array<JccNode?>
    var entries: nat
    var heads: map<(Bbcc, nat), JccNode?>
    var lruFrom: map<Bbcc, JccNode>
    var lruTo: map<Bbcc, JccNode>
    ghost var chains: seq<seq<JccNode>>
    ghost var lists: map<(Bbcc, nat), seq<JccNode>>
    ghost var all: map<Jcc, JccNode>
    const addr: Bbcc -> nat

    /** The arcs `all`, each under its key, are in the buckets of the table. */
    ghost predicate Stored()
      reads this`table, this`chains, this`all, table, all.Values`nextHash
    {
      && table.Length > 0
      && Keyed(all)
      && Chained(table[..], chains, all.Values) && Filed(chains, all.Values, addr)
    }

    ghost predicate Listed()
      reads this`heads, this`lists, this`all, all.Values`nextFrom
    {
      Headed(heads, lists, all.Values) && Partitioned(lists, all.Values)
    }

    ghost predicate Shortcuts()
      reads this`lruFrom, this`lruTo, this`all
    {
      Recent(lruFrom, lruTo, all.Values)
    }

    /** The table is never more than nine tenths full. */
    ghost predicate Valid()
      reads this, table, all.Values
    {
      Stored() && Listed() && Shortcuts() && entries == |all| && 10 * entries < 9 * table.Length
    }

    constructor (addr: Bbcc -> nat)
      ensures Valid() && all == map[] && fresh(table) && this.addr == addr
    {
      table := new JccNode?[N_JCC_INITIAL_ENTRIES](_ => null);
      entries, heads, lruFrom, lruTo := 0, map[], map[], map[];
      chains := seq(N_JCC_INITIAL_ENTRIES, _ => []);
      lists, all := map[], map[];
      this.addr := addr;
    }

    /** Doubles the table; every node moves to its new bucket. */
    method Resize()
      requires Stored()
      modifies this`table, this`chains, all.Values`nextHash
      ensures Stored() && fresh(table) && table.Length == 2 * old(table.Length) + 3
    {
      hide Chained, Filed;
      var newTable;
      ghost var empty;
      newTable, empty := NewTable(2 * table.Length + 3);
      ghost var into := MoveAll(table, newTable, empty, chains, all.Values);
      table := newTable;
      chains := into;
    }

    method NewTable(size: nat) returns (t: array<JccNode?>, ghost empty: seq<seq<JccNode>>)
      requires size > 0
      ensures fresh(t) && t.Length == size && Chained(t[..], empty, {}) && Filed(empty, {}, addr)
    {
      t := new JccNode?[size](_ => null);
      empty := seq(size, _ => []);
    }

    method MoveAll(smaller: array<JccNode?>, newTable: array<JccNode?>, ghost empty: seq<seq<JccNode>>,
                   ghost from: seq<seq<JccNode>>, ghost nodes: set<JccNode>)
        returns (ghost into: seq<seq<JccNode>>)
      requires smaller != newTable && smaller.Length > 0 && newTable.Length > 0
      requires Chained(smaller[..], from, nodes) && Filed(from, nodes, addr)
      requires Chained(newTable[..], empty, {}) && Filed(empty, {}, addr)
      modifies newTable, nodes`nextHash
      ensures Chained(newTable[..], into, nodes) && Filed(into, nodes, addr)
    {
      into := empty;
      ghost var heads := smaller[..];
      ghost var moved: set<JccNode> := {};
      assert Behind(moved, nodes, |from|, 0);
      for i := 0 to smaller.Length
        invariant Chained(newTable[..], into, moved) && Filed(into, moved, addr) && Behind(moved, nodes, |from|, i)
        invariant smaller[..] == heads && Untouched(heads, from, nodes, i)
      {
        hide Chained, Filed, Behind, Untouched;
        into, moved := MoveBucket(smaller[i], i, newTable, into, moved, heads, from, nodes);
      }
      assert moved == nodes;
    }

    /** The nodes in the first `i` of `size` buckets. */
    ghost predicate Behind(moved: set<JccNode>, nodes: set<JccNode>, size: nat, i: nat)
      requires size > 0
    {
      moved <= nodes && forall n :: n in nodes ==> (n in moved <==> HashIdx(addr, n.key, size) < i)
    }

    ghost predicate Linked(head: JccNode?, s: seq<JccNode>, nodes: set<JccNode>)
      reads nodes`nextHash
    {
      (forall n :: n in s ==> n in nodes) && HashChain(head, s)
    }

    /** The buckets from `i` on are still linked. */
    ghost predicate Untouched(heads: seq<JccNode?>, from: seq<seq<JccNode>>, nodes: set<JccNode>, i: nat)
      requires |heads| == |from|
      reads nodes`nextHash
    {
      forall k :: i <= k < |from| ==> Linked(heads[k], from[k], nodes)
    }

    method MoveBucket(head: JccNode?, i: nat, newTable: array<JccNode?>, ghost into: seq<seq<JccNode>>,
                      ghost moved: set<JccNode>, ghost heads: seq<JccNode?>,
                      ghost from: seq<seq<JccNode>>, ghost nodes: set<JccNode>)
        returns (ghost into': seq<seq<JccNode>>, ghost moved': set<JccNode>)
      requires i < |heads| == |from| && head == heads[i] && Untouched(heads, from, nodes, i) && Filed(from, nodes, addr)
      requires newTable.Length > 0 && Chained(newTable[..], into, moved) && Filed(into, moved, addr)
      requires Behind(moved, nodes, |from|, i)
      modifies newTable, nodes`nextHash
      ensures Chained(newTable[..], into', moved') && Filed(into', moved', addr)
      ensures Behind(moved', nodes, |from|, i + 1)
      ensures Untouched(heads, from, nodes, i + 1)
    {
      ghost var s := from[i];
      BucketIs(from, nodes, i);
      assert Linked(heads[i], from[i], nodes);
      into', moved' := MoveChain(head, newTable, into, moved, s);
      hide Chained, Filed;
      forall k | i < k < |from| ensures Linked(heads[k], from[k], nodes) {
        BucketIs(from, nodes, k);
        assert old(Linked(heads[k], from[k], nodes));
        forall m | 0 <= m < |from[k]| ensures from[k][m].nextHash == old(from[k][m].nextHash) {
          assert from[k][m] in from[k];
        }
      }
    }

    method MoveChain(head: JccNode?, newTable: array<JccNode?>, ghost into: seq<seq<JccNode>>,
                     ghost moved: set<JccNode>, ghost s: seq<JccNode>)
        returns (ghost into': seq<seq<JccNode>>, ghost moved': set<JccNode>)
      requires HashChain(head, s) && NoDuplicates(s) && forall n :: n in s ==> n !in moved
      requires newTable.Length > 0 && Chained(newTable[..], into, moved) && Filed(into, moved, addr)
      modifies newTable, (set n | n in s)`nextHash
      ensures Chained(newTable[..], into', moved') && Filed(into', moved', addr)
      ensures moved' == moved + set n | n in s
    {
      hide Chained, Filed;
      ghost var p := 0;
      into', moved' := into, moved;
      var curr := head;
      assert s[0..] == s;
      while curr != null
        invariant 0 <= p <= |s| && HashChain(curr, s[p..])
        invariant Chained(newTable[..], into', moved') && Filed(into', moved', addr)
        invariant moved' == moved + set n | n in s[..p]
        decreases |s| - p
      {
        assert curr == s[p] && curr !in s[..p];
        ghost var rest := s[p + 1..];
        var next := curr.nextHash;
        assert HashChain(next, rest) by { Tail(curr, s[p..]); }
        assert curr !in rest;
        into', moved' := MoveNode(curr, newTable, into', moved');
        p := p + 1;
        curr := next;
      }
      assert s[..p] == s;
    }

    method MoveNode(n: JccNode, newTable: array<JccNode?>, ghost into: seq<seq<JccNode>>, ghost moved: set<JccNode>)
        returns (ghost into': seq<seq<JccNode>>, ghost moved': set<JccNode>)
      requires newTable.Length > 0 && Chained(newTable[..], into, moved) && Filed(into, moved, addr) && n !in moved
      modifies newTable, n`nextHash
      ensures Chained(newTable[..], into', moved') && Filed(into', moved', addr) && moved' == moved + {n}
    {
      hide HashChain, Filed;
      var idx := HashIdx(addr, n.key, newTable.Length);
      Link(n, newTable, idx, into, moved);
      FileOne(into, moved, addr, n);
      into', moved' := into[idx := [n] + into[idx]], moved + {n};
    }

    lemma {:induction false} BucketIs(from: seq<seq<JccNode>>, nodes: set<JccNode>, i: nat)
      requires i < |from| && Filed(from, nodes, addr)
      ensures NoDuplicates(from[i]) && forall n :: n in from[i] <==> n in nodes && HashIdx(addr, n.key, |from|) == i
    {}

    static lemma {:induction false} Tail(n: JccNode, s: seq<JccNode>)
      requires HashChain(n, s)
      ensures s != [] && HashChain(n.nextHash, s[1..])
    {
      var r := s[1..];
      assert s[0] == n && At(r, 0) == At(s, 1);
      forall i | 0 <= i < |r| ensures r[i].nextHash == At(r, i + 1) {
        assert r[i] == s[i + 1] && At(r, i + 1) == At(s, i + 2);
      }
    }

    /** Looks an arc up in its bucket. */
    method Search(j: Jcc) returns (n: JccNode?)
      requires Stored()
      ensures n == if j in all then all[j] else null
      ensures n != null ==> n.key == j && n in all.Values
    {
      var b := HashIdx(addr, j, table.Length);
      ghost var s := chains[b];
      assert HashChain(table[..][b], s) && s[0..] == s;
      ghost var p := 0;
      n := table[b];
      while n != null
        invariant 0 <= p <= |s| && n == At(s, p) && HashChain(table[b], s)
        invariant forall i :: 0 <= i < p ==> s[i].key != j
        decreases |s| - p
      {
        if n.key == j {
          assert n in s;
          break;
        }
        n := n.nextHash;
        p := p + 1;
      }
      if j in all { assert all[j] in s; }
    }

    /** Puts a node in front of the list of its exit, which only dumps look at. */
    method AddToList(n: JccNode)
      requires Listed() && n !in all.Values
      modifies this`heads, this`lists, n`nextFrom
      ensures lists ==
        old(lists)[ExitOf(n.key) := [n] + if ExitOf(n.key) in old(lists) then old(lists)[ExitOf(n.key)] else []]
      ensures Headed(heads, lists, all.Values + {n}) && Partitioned(lists, all.Values + {n})
      ensures all == old(all) && table == old(table)
      ensures lruFrom == old(lruFrom) && lruTo == old(lruTo) && entries == old(entries)
    {
      var x := ExitOf(n.key);
      ghost var s := if x in lists then lists[x] else [];
      ghost var before: map<(Bbcc, nat), seq<JccNode>>, was: map<(Bbcc, nat), JccNode?> := lists, heads;
      n.nextFrom := if x in heads then heads[x] else null;
      heads := heads[x := n];
      lists := lists[x := [n] + s];
      forall y | y in lists ensures FromChain(heads[y], lists[y]) {
        if y in before {
          assert old(FromChain(heads[y], lists[y]));
          forall i | 0 <= i < |before[y]| ensures before[y][i].nextFrom == old(before[y][i].nextFrom) {
            assert before[y][i] in before[y];
          }
          assert FromChain(was[y], before[y]);
        }
        if y == x { PrependedFrom(n, if x in was then was[x] else null, s); }
      }
      PartitionOne(before, all.Values, n);
    }

    static lemma {:induction false} PartitionOne(lists: map<(Bbcc, nat), seq<JccNode>>, nodes: set<JccNode>, n: JccNode)
      requires Partitioned(lists, nodes) && n !in nodes
      ensures var x := ExitOf(n.key); Partitioned(lists[x := [n] + if x in lists then lists[x] else []], nodes + {n})
    {
      var x := ExitOf(n.key);
      var s := if x in lists then lists[x] else [];
      assert n !in s;
      forall m | m in s ensures m in [n] + s {
        var i :| 0 <= i < |s| && s[i] == m;
        assert ([n] + s)[i + 1] == m;
      }
    }

    /** Makes room for one more arc. */
    method CountOne()
      requires Valid()
      modifies this`entries, this`table, this`chains, all.Values`nextHash
      ensures Stored() && Listed() && Shortcuts()
      ensures entries == |all| + 1 && 10 * entries < 9 * table.Length
      ensures all == old(all) && lists == old(lists) && (table == old(table) || fresh(table))
    {
      hide Headed, Partitioned, Chained, Filed;
      entries := entries + 1;
      if 10 * entries / table.Length > 8 {
        Fuller(entries, table.Length);
        Resize();
      } else {
        NotFull(entries, table.Length);
      }
    }

    static lemma {:induction false} NotFull(e: nat, size: nat)
      requires size > 0 && 10 * e / size <= 8
      ensures 10 * e < 9 * size
    {
      var q := 10 * e / size;
      assert 10 * e == q * size + 10 * e % size;
      assert q * size <= 8 * size;
    }

    static lemma {:induction false} Fuller(e: nat, size: nat)
      requires e > 0 && size > 0 && 10 * (e - 1) < 9 * size
      ensures 10 * e < 9 * (2 * size + 3)
    {}

    /** A new arc, which goes in front of the list of its exit and in front of its bucket. */
    method NewJcc(j: Jcc) returns (n: JccNode)
      requires Valid() && j !in all
      modifies this`entries, this`table, this`chains, this`heads, this`lists, this`all, table, all.Values
      ensures Valid() && fresh(n) && n.key == j && all == old(all)[j := n] && n in all.Values
      ensures lists == old(lists)[ExitOf(j) := [n] + if ExitOf(j) in old(lists) then old(lists)[ExitOf(j)] else []]
      ensures table == old(table) || fresh(table)
    {
      hide *;
      CountOne();
      n := new JccNode(j);
      FileNew(n);
    }

    method FileNew(n: JccNode)
      requires Stored() && Listed() && Shortcuts() && n.key !in all
      requires entries == |all| + 1 && 10 * entries < 9 * table.Length
      modifies this`chains, this`heads, this`lists, this`all, table, n
      ensures Valid() && all == old(all)[n.key := n] && n in all.Values && table == old(table)
      ensures var x := ExitOf(n.key); lists == old(lists)[x := [n] + if x in old(lists) then old(lists)[x] else []]
    {
      hide *;
      NotThere(n);
      ShortcutsAre();
      AddToList(n);
      AddToTable(n);
      AddToMap(n);
    }

    /** A node allocated just now is not in the table. */
    lemma {:induction false} NotThere(n: JccNode)
      requires Stored() && n.key !in all
      ensures n !in all.Values && table.Length > 0 && Keyed(all)
    {
      hide Chained, Filed;
    }

    lemma {:induction false} ShortcutsAre()
      requires Shortcuts()
      ensures Recent(lruFrom, lruTo, all.Values)
    {}

    /** The last step; the table is whole again. */
    ghost method AddToMap(n: JccNode)
      requires table.Length > 0 && n.key !in all && n !in all.Values && Keyed(all)
      requires Chained(table[..], chains, all.Values + {n}) && Filed(chains, all.Values + {n}, addr)
      requires Headed(heads, lists, all.Values + {n}) && Partitioned(lists, all.Values + {n})
      requires Recent(lruFrom, lruTo, all.Values)
      requires entries == |all| + 1 && 10 * entries < 9 * table.Length
      modifies this`all
      ensures Valid() && all == old(all)[n.key := n] && n in all.Values && lists == old(lists) && table == old(table)
    {
      hide *;
      OneMore(all, n.key, n);
      OneLarger(all, n.key, n);
      ghost var before := all.Values;
      OneMoreKeyed(all, n);
      all := all[n.key := n];
      Whole(before);
    }

    static lemma {:induction false} OneMoreKeyed(m: map<Jcc, JccNode>, n: JccNode)
      requires Keyed(m)
      ensures Keyed(m[n.key := n])
    {}

    lemma {:induction false} Whole(before: set<JccNode>)
      requires table.Length > 0 && before <= all.Values && Keyed(all)
      requires Chained(table[..], chains, all.Values) && Filed(chains, all.Values, addr)
      requires Headed(heads, lists, all.Values) && Partitioned(lists, all.Values)
      requires entries == |all| && 10 * entries < 9 * table.Length
      requires Recent(lruFrom, lruTo, before)
      ensures Valid()
    {
      hide Chained, Filed, Headed, Partitioned;
    }

    method AddToTable(n: JccNode)
      requires Stored() && n !in all.Values
      modifies this`chains, table, n`nextHash
      ensures Chained(table[..], chains, all.Values + {n}) && Filed(chains, all.Values + {n}, addr)
      ensures all == old(all) && lists == old(lists) && table == old(table)
      ensures heads == old(heads) && lruFrom == old(lruFrom) && lruTo == old(lruTo) && entries == old(entries)
    {
      hide HashChain;
      FileOne(chains, all.Values, addr, n);
      var b := HashIdx(addr, n.key, table.Length);
      Link(n, table, b, chains, all.Values);
      chains := chains[b := [n] + chains[b]];
    }

    static lemma {:induction false} OneMore<K, V>(m: map<K, V>, j: K, n: V)
      requires j !in m
      ensures m[j := n].Values == m.Values + {n}
    {
      var r := m[j := n];
      assert r[j] == n;
      forall x | x in m.Values ensures x in r.Values {
        var k :| k in m && m[k] == x;
        assert r[k] == x;
      }
    }

    static lemma {:induction false} OneLarger<K, V>(m: map<K, V>, j: K, n: V)
      requires j !in m
      ensures |m[j := n]| == |m| + 1
    {
      assert m[j := n].Keys == m.Keys + {j};
    }

    lemma {:induction false} ByKey(m: JccNode)
      requires Stored() && m in all.Values
      ensures m.key in all && all[m.key] == m
    {
      hide Chained, Filed;
    }

    method Remember(n: JccNode)
      requires Valid() && n in all.Values
      modifies this`lruFrom, this`lruTo
      ensures Valid() && all == old(all) && lists == old(lists) && table == old(table)
    {
      hide Chained, Filed, Headed, Partitioned;
      lruFrom := lruFrom[n.key.src := n];
      lruTo := lruTo[n.key.dst := n];
    }

    /** The cost centre of a call arc: one for every arc, made when it is first asked for, and the same
        ever after. */
    method GetJcc(j: Jcc) returns (n: JccNode)
      requires Valid()
      modifies this, table, all.Values
      ensures Valid() && j in all && n == all[j] && n.key == j
      ensures j in old(all) ==> all == old(all) && lists == old(lists)
      ensures j !in old(all) ==> fresh(n) && all == old(all)[j := n]
      ensures j !in old(all) ==>
        lists == old(lists)[ExitOf(j) := [n] + if ExitOf(j) in old(lists) then old(lists)[ExitOf(j)] else []]
      ensures fresh(all.Values - old(all.Values))
      ensures table == old(table) || fresh(table)
    {
      hide *;
      ghost var before := all;
      var found := Shortcut(j);
      if found == null {
        found := Search(j);
        if found == null {
          found := NewJcc(j);
          OneMore(before, j, found);
        }
        Remember(found);
      }
      n := found;
    }

    /** The arcs last used at either end. */
    method Shortcut(j: Jcc) returns (n: JccNode?)
      requires Valid()
      ensures Stored()
      ensures n != null ==> j in all && n == all[j] && n.key == j
    {
      hide Stored, Listed;
      if j.dst in lruTo {
        n := lruTo[j.dst];
        ByKey(n);
        if n.key.src == j.src && n.key.jmp == j.jmp { return; }
      }
      if j.src in lruFrom {
        n := lruFrom[j.src];
        ByKey(n);
        if n.key.dst == j.dst && n.key.jmp == j.jmp { return; }
      }
      n := null;
    }
  }
}
