/** The two orders that the maps of a profile are kept in. */
module ProfileOrder {
  import opened Costs
  import opened AvlTree
  import opened AvlMap
  import opened Listings
  import opened Profile
  import opened ProfileRoundtrip

  /** The sign of `strcmp`, for strings without a NUL. */
  function StrCmp(a: string, b: string): int {
    if a == [] then (if b == [] then 0 else -1)
    else if b == [] then 1
    else if a[0] != b[0] then a[0] as int - b[0] as int
    else StrCmp(a[1..], b[1..])
  }

  function CmpFileFn(x: FileFn, y: FileFn): int {
    var r := StrCmp(x.fi, y.fi);
    if r == 0 then StrCmp(x.fn, y.fn) else r
  }

  function CmpUnboxedUWord(x: Counter, y: Counter): int {
    if x < y then -1 else if x > y then 1 else 0
  }

  lemma {:induction false} StrCmpZero(a: string, b: string)
    ensures StrCmp(a, b) == 0 <==> a == b
  {
    if a != [] && b != [] && a[0] == b[0] {
      StrCmpZero(a[1..], b[1..]);
      assert a == [a[0]] + a[1..] && b == [b[0]] + b[1..];
    }
  }

  lemma {:induction false} StrCmpOpposite(a: string, b: string)
    ensures StrCmp(a, b) == -StrCmp(b, a)
  {
    if a != [] && b != [] && a[0] == b[0] { StrCmpOpposite(a[1..], b[1..]); }
  }

  lemma {:induction false} StrCmpTransitive(a: string, b: string, c: string)
    requires StrCmp(a, b) < 0 && StrCmp(b, c) < 0
    ensures StrCmp(a, c) < 0
  {
    if a != [] && b != [] && c != [] && a[0] == b[0] == c[0] { StrCmpTransitive(a[1..], b[1..], c[1..]); }
  }

  /** Files and functions are ordered strictly, and only equal ones compare equal. */
  lemma {:induction false} CmpFileFnLawful()
    ensures Lawful(CmpFileFn)
  {
    hide StrCmp;
    forall x, y ensures CmpFileFn(x, y) == 0 <==> x == y {
      StrCmpZero(x.fi, y.fi);
      StrCmpZero(x.fn, y.fn);
    }
    forall x, y ensures CmpFileFn(x, y) < 0 <==> CmpFileFn(y, x) > 0 {
      StrCmpOpposite(x.fi, y.fi);
      StrCmpOpposite(x.fn, y.fn);
    }
    forall x, y, z | CmpFileFn(x, y) < 0 && CmpFileFn(y, z) < 0 ensures CmpFileFn(x, z) < 0 {
      StrCmpZero(x.fi, y.fi);
      StrCmpZero(y.fi, z.fi);
      if x.fi == y.fi && y.fi == z.fi {
        StrCmpTransitive(x.fn, y.fn, z.fn);
      } else if x.fi != y.fi && y.fi != z.fi {
        StrCmpTransitive(x.fi, y.fi, z.fi);
      }
      StrCmpZero(x.fi, z.fi);
    }
  }

  /** A profile kept in ordered maps is printed in the order of its files and functions, and of the
      lines in each; what the iterators yield is a listing in the sense of the round trip. */
  lemma {:induction false} IterationLists(ls: Listing, lines: Outer)
    requires Ascending(Pairs(ls), CmpFileFn) && OuterOf(ls) == lines
    requires forall i :: 0 <= i < |ls| ==> Ascending(ls[i].1, CmpUnboxedUWord)
    ensures Lists(ls, lines)
  {
    hide ToMap, Lawful, Ascending, Pairs, Enumerates;
    CmpFileFnLawful();
    CmpUnboxedUWordLawful();
    AscendingEnumerates(Pairs(ls), CmpFileFn);
    forall i | 0 <= i < |ls| ensures Enumerates(ls[i].1, ToMap(ls[i].1)) {
      AscendingEnumerates(ls[i].1, CmpUnboxedUWord);
    }
    PairsList(ls, lines);
  }

  lemma {:induction false} CmpUnboxedUWordLawful()
    ensures Lawful(CmpUnboxedUWord)
  {}

  lemma {:induction false} PairsList(ls: Listing, lines: Outer)
    requires Enumerates(Pairs(ls), lines) && forall i :: 0 <= i < |ls| ==> Enumerates(ls[i].1, ToMap(ls[i].1))
    ensures Lists(ls, lines)
  {
    hide ToMap, Pairs;
    var r := Pairs(ls);
    forall i, j | 0 <= i < j < |ls| ensures ls[i].0 != ls[j].0 { assert r[i].0 != r[j].0; }
    forall k | k in lines ensures exists i :: 0 <= i < |ls| && ls[i].0 == k {
      var i :| 0 <= i < |r| && r[i].0 == k;
      assert ls[i].0 == k;
    }
    forall i | 0 <= i < |ls| ensures ls[i].0 in lines && Enumerates(ls[i].1, lines[ls[i].0]) {
      assert r[i].0 in lines && lines[r[i].0] == r[i].1;
    }
  }
}
