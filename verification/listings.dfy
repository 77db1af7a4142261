/** Finite maps as lists of their bindings. */
module Listings {
  import opened AvlTree
  import opened AvlMap

  /** Every binding of `m`, once, in some order. */
  ghost predicate Enumerates<K, V>(s: seq<(K, V)>, m: map<K, V>) {
    && (forall i, j :: 0 <= i < j < |s| ==> s[i].0 != s[j].0)
    && (forall i :: 0 <= i < |s| ==> s[i].0 in m && m[s[i].0] == s[i].1)
    && (forall k :: k in m ==> exists i :: 0 <= i < |s| && s[i].0 == k)
  }

  lemma {:induction false} ToMapHas<K, V>(s: seq<(K, V)>)
    requires forall i, j :: 0 <= i < j < |s| ==> s[i].0 != s[j].0
    ensures forall i :: 0 <= i < |s| ==> s[i].0 in ToMap(s) && ToMap(s)[s[i].0] == s[i].1
    ensures forall k :: k in ToMap(s) ==> exists i :: 0 <= i < |s| && s[i].0 == k
    decreases |s|
  {
    if s != [] {
      ToMapHas(s[1..]);
      forall i | 0 <= i < |s| ensures s[i].0 in ToMap(s) && ToMap(s)[s[i].0] == s[i].1 {
        if i > 0 { assert s[i] == s[1..][i - 1]; }
      }
      forall k | k in ToMap(s) ensures exists i :: 0 <= i < |s| && s[i].0 == k {
        if k == s[0].0 {
          assert s[0].0 == k;
        } else {
          var t := s[1..];
          assert k in ToMap(t);
          var j :| 0 <= j < |t| && t[j].0 == k;
          assert s[j + 1].0 == k;
        }
      }
    }
  }

  lemma {:induction false} FirstNotAgain<K, V>(s: seq<(K, V)>)
    requires s != [] && forall i, j :: 0 <= i < j < |s| ==> s[i].0 != s[j].0
    ensures s[0].0 !in ToMap(s[1..])
  {
    ToMapHas(s[1..]);
    if s[0].0 in ToMap(s[1..]) {
      var j :| 0 <= j < |s| - 1 && s[1..][j].0 == s[0].0;
      assert false;
    }
  }

  /** What the iterator of an ordered map yields is a listing of it. */
  lemma {:induction false} AscendingEnumerates<K(!new), V>(s: seq<(K, V)>, cmp: (K, K) -> int)
    requires Lawful(cmp) && Ascending(s, cmp)
    ensures Enumerates(s, ToMap(s))
  {
    ToMapHas(s);
  }

  lemma {:induction false} EnumeratesAll<K, V>(s: seq<(K, V)>, m: map<K, V>)
    requires Enumerates(s, m)
    ensures ToMap(s) == m
  {
    ToMapHas(s);
    forall k | k in m ensures k in ToMap(s) && ToMap(s)[k] == m[k] {
      var i :| 0 <= i < |s| && s[i].0 == k;
    }
    forall k | k in ToMap(s) ensures k in m {
      var i :| 0 <= i < |s| && s[i].0 == k;
    }
  }
}
