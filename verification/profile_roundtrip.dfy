/** A profile that is printed is read back as it was, and exactly which profiles are not. */
module ProfileRoundtrip {
  import opened Wrappers
  import opened Costs
  import opened ProfileText
  import opened Profile
  import opened AvlTree
  import opened AvlMap
  import opened Listings

  // ----- reading keeps a profile whole

  /** The counts that a line has before `c` is added to it. */
  function Before(lines: Outer, k: FileFn, l: Counter): Option<Cost> {
    if k in lines && l in lines[k] then Some(lines[k][l]) else None
  }

  lemma {:induction false} AddLineChange(lines: Outer, k: FileFn, l: Counter, c: Cost, n: nat, e: nat)
    ensures Total(AddLine(lines, k, l, c, n), e) == Total(lines, e) +
      match Before(lines, k, l) { case None => At(c, e) case Some(b) => At(Added(n, b, c), e) - At(b, e) }
  {
    hide Total, InnerTotal, Added;
    var m: Inner := if k in lines then lines[k] else map[];
    TotalUpdate(lines, k, AddToInner(m, l, c, n), e);
    InnerTotalUpdate(m, l, if l in m then Added(n, m[l], c) else c, e);
    EmptyTotal(e);
  }

  lemma {:induction false} EmptyTotal(e: nat)
    ensures InnerTotal(map[], e) == 0 && Total(map[], e) == 0
  {}

  lemma {:induction false} AddLineTotal(lines: Outer, k: FileFn, l: Counter, c: Cost, n: nat, e: nat)
    requires |c| == n && e < n
    ensures Wrap(Total(AddLine(lines, k, l, c, n), e)) == Wrap(Total(lines, e) + At(c, e))
  {
    hide Total, Wrap, AddLine;
    AddLineChange(lines, k, l, c, n, e);
    match Before(lines, k, l)
    case None =>
    case Some(b) => WrapAdd(At(b, e) + At(c, e), Total(lines, e) - At(b, e));
  }

  lemma {:induction false} HandleCountsWhole(acc: Acc, line: string, n: nat)
    requires WholeLines(acc.lines, n) && Summed(acc.lines, acc.summary, n) && '\n' !in acc.fl && '\n' !in acc.fn
    requires HandleCounts(acc, line, n).Ok?
    ensures var a := HandleCounts(acc, line, n).value;
      a == acc.(lines := a.lines, summary := a.summary) && WholeLines(a.lines, n) && Summed(a.lines, a.summary, n)
  {
    hide Total, Numbers;
    var ns := CountsLine(line).value;
    var a := HandleCounts(acc, line, n).value;
    forall e | 0 <= e < n ensures a.summary[e] == Wrap(Total(a.lines, e)) {
      AddLineTotal(acc.lines, FileFn(acc.fl, acc.fn), ns[0], ns[1..], n, e);
      WrapAdd(Total(acc.lines, e), At(ns[1..], e));
    }
  }

  lemma {:induction false} BodyWhole(ls: seq<string>, acc: Acc, n: nat)
    requires WholeLines(acc.lines, n) && Summed(acc.lines, acc.summary, n) && '\n' !in acc.fl && '\n' !in acc.fn
    requires forall i :: 0 <= i < |ls| ==> '\n' !in ls[i]
    ensures Body(ls, acc, n).Ok? ==>
      && WholeLines(Body(ls, acc, n).value.0.lines, n)
      && Summed(Body(ls, acc, n).value.0.lines, Body(ls, acc, n).value.0.summary, n)
    decreases |ls|
  {
    hide HandleCounts, WholeLines, Summed;
    if ls != [] {
      var line := ls[0];
      if line != [] && IsDigit(line[0]) {
        if HandleCounts(acc, line, n).Ok? {
          HandleCountsWhole(acc, line, n);
          BodyWhole(ls[1..], HandleCounts(acc, line, n).value, n);
        }
      } else if StartsWith(line, "fn=") {
        BodyWhole(ls[1..], acc.(fn := line[3..]), n);
      } else if StartsWith(line, "fl=") {
        BodyWhole(ls[1..], acc.(fl := line[3..]), n);
      }
    }
  }

  lemma {:induction false} DescAll(ls: seq<string>)
    ensures forall i :: 0 <= i < DescCount(ls) ==> StartsWith(ls[i], "desc: ")
    decreases |ls|
  {
    if ls != [] && StartsWith(ls[0], "desc: ") {
      DescAll(ls[1..]);
      forall i | 0 <= i < DescCount(ls) ensures StartsWith(ls[i], "desc: ") {
        if i > 0 { assert ls[i] == ls[1..][i - 1]; }
      }
    }
  }

  /** Whatever is read without an error is whole: its summary is the sum of its lines. */
  lemma {:induction false} ParseWhole(ls: seq<string>)
    requires forall i :: 0 <= i < |ls| ==> '\n' !in ls[i]
    ensures Parse(ls).Ok? ==> Whole(Parse(ls).value)
  {
    if Parse(ls).Ok? {
      var d := DescCount(ls);
      var n := EventCount(ls[d + 1], 6);
      var acc := Acc("???", "???", map[], seq(n, _ => 0));
      hide Body, CheckSummary, EventCount, StartsWith;
      DescAll(ls);
      assert Summed(acc.lines, acc.summary, n) by { NothingSummed(n); }
      BodyWhole(ls[d + 2..], acc, n);
    }
  }

  // ----- a file that ends too early

  lemma {:induction false} BodyErrors(ls: seq<string>, acc: Acc, n: nat)
    ensures Body(ls, acc, n) != Err(NullLine)
    decreases |ls|
  {
    hide AddLine, Added;
    if ls != [] {
      var line := ls[0];
      if line != [] && IsDigit(line[0]) {
        if HandleCounts(acc, line, n).Ok? { BodyErrors(ls[1..], HandleCounts(acc, line, n).value, n); }
      } else if StartsWith(line, "fn=") {
        BodyErrors(ls[1..], acc.(fn := line[3..]), n);
      } else if StartsWith(line, "fl=") {
        BodyErrors(ls[1..], acc.(fl := line[3..]), n);
      }
    }
  }

  lemma {:induction false} ParseErrors(ls: seq<string>)
    ensures Parse(ls) == Err(NullLine) <==> 0 < DescCount(ls) == |ls|
  {
    var d := DescCount(ls);
    if d + 1 < |ls| {
      var n := EventCount(ls[d + 1], 6);
      var acc := Acc("???", "???", map[], seq(n, _ => 0));
      BodyErrors(ls[d + 2..], acc, n);
      BodyStops(ls[d + 2..], acc, n);
      hide Body, EventCount, StartsWith, DescCount;
    }
  }

  /** A null line is compared exactly if there is nothing in the file but description lines, and at
      least one of them. */
  lemma {:induction false} NullLineIff(ls: seq<string>)
    ensures Parse(ls) == Err(NullLine) <==> ls != [] && forall i :: 0 <= i < |ls| ==> StartsWith(ls[i], "desc: ")
  {
    ParseErrors(ls);
    DescAll(ls);
    hide Parse, StartsWith;
  }

  /** A file with one description line and nothing else. */
  lemma {:induction false} NullLineRead()
    ensures Parse(Lines(Text(["desc: "]))) == Err(NullLine)
  {
    hide Parse, Lines, Text;
    assert StartsWith("desc: ", "desc: ") && '\n' !in "desc: ";
    LinesOfText(["desc: "]);
    NullLineIff(["desc: "]);
  }

  lemma {:induction false} NothingSummed(n: nat)
    ensures Summed(map[], seq(n, _ => 0), n)
  {
    forall e | 0 <= e < n ensures Total(map[], e) == 0 {}
  }

  // ----- printing

  type Listing = seq<(FileFn, seq<(Counter, Cost)>)>

  /** An order in which the iterators may go through the maps. */
  ghost predicate Lists(ls: Listing, lines: Outer) {
    && (forall i, j :: 0 <= i < j < |ls| ==> ls[i].0 != ls[j].0)
    && (forall i :: 0 <= i < |ls| ==> ls[i].0 in lines && Enumerates(ls[i].1, lines[ls[i].0]))
    && (forall k :: k in lines ==> exists i :: 0 <= i < |ls| && ls[i].0 == k)
  }

  const SIGN: nat := 0x8000_0000_0000_0000

  /** A counter printed as a signed number. */
  function Signed(x: Counter): string {
    if x < SIGN then Decimal(x) else "-" + Decimal(M - x)
  }

  function CountsText(c: Cost): string {
    if c == [] then "" else Signed(c[0]) + " " + CountsText(c[1..])
  }

  function LineText(l: Counter, c: Cost): string { Signed(l) + "   " + CountsText(c) }

  function SummaryRest(c: Cost): string {
    if c == [] then "" else " " + Signed(c[0]) + SummaryRest(c[1..])
  }

  function InnerText(s: seq<(Counter, Cost)>): seq<string> {
    if s == [] then [] else [LineText(s[0].0, s[0].1)] + InnerText(s[1..])
  }

  function BodyText(ls: Listing): seq<string> {
    if ls == [] then [] else ["fl=" + ls[0].0.fi, "fn=" + ls[0].0.fn] + InnerText(ls[0].1) + BodyText(ls[1..])
  }

  function Show(p: CacheProf, ls: Listing): seq<string> {
    p.desc + [p.cmd, p.events] + BodyText(ls) + ["summary:" + SummaryRest(p.summary)]
  }

  // ----- numbers survive exactly below 2^63

  predicate AllSmall(c: Cost) { forall i :: 0 <= i < |c| ==> c[i] < SIGN }

  lemma {:induction false} MinusIsNoNumber(s: string)
    requires s != [] && s[0] == '-'
    ensures Numbers(s) == ([], s)
  {}

  lemma {:induction false} AllSmallFirst(c: Cost)
    requires c != []
    ensures AllSmall(c) <==> c[0] < SIGN && AllSmall(c[1..])
  {
    if c[0] < SIGN && AllSmall(c[1..]) {
      forall i | 0 < i < |c| ensures c[i] < SIGN { assert c[i] == c[1..][i - 1]; }
    }
  }

  lemma {:induction false} CountsRead(c: Cost)
    ensures if AllSmall(c) then Numbers(CountsText(c)) == (c, []) else Numbers(CountsText(c)).1 != []
    decreases |c|
  {
    if c != [] {
      var rest := CountsText(c[1..]);
      var text := Signed(c[0]) + " " + rest;
      CountsRead(c[1..]);
      AllSmallFirst(c);
      hide AllSmall;
      if c[0] < SIGN {
        assert text == Decimal(c[0]) + ([' '] + rest);
        NumbersOfDecimal(c[0], [' '] + rest);
        NumbersSkip(' ', rest);
        assert [c[0]] + c[1..] == c;
      } else {
        MinusIsNoNumber(text);
      }
    }
  }

  lemma {:induction false} SummaryReads(c: Cost)
    ensures if AllSmall(c) then Numbers(SummaryRest(c)) == (c, []) else Numbers(SummaryRest(c)).1 != []
    ensures c != [] ==> SummaryRest(c) != [] && SummaryRest(c)[0] == ' '
    decreases |c|
  {
    if c != [] {
      var rest := SummaryRest(c[1..]);
      var text := Signed(c[0]) + rest;
      SummaryReads(c[1..]);
      assert SummaryRest(c) == [' '] + text;
      NumbersSkip(' ', text);
      AllSmallFirst(c);
      hide AllSmall;
      if c[0] < SIGN {
        NumbersOfDecimal(c[0], rest);
        assert [c[0]] + c[1..] == c;
      } else {
        MinusIsNoNumber(text);
      }
    }
  }

  /** The line of a line number and its counts. */
  lemma {:induction false} LineReads(l: Counter, c: Cost)
    ensures var text := LineText(l, c);
      && text != [] && IsDigit(text[0]) == (l < SIGN)
      && (l >= SIGN ==> text[0] == '-')
      && (l < SIGN ==> CountsLine(text) == if AllSmall(c) then Some([l] + c) else None)
  {
    var text := LineText(l, c);
    if l < SIGN {
      hide Numbers, Decimal, CountsText, AllSmall;
      var rest := "   " + CountsText(c);
      assert text == Decimal(l) + rest && text[0] == Decimal(l)[0];
      NumbersOfDecimal(l, rest);
      ThreeSpaces(CountsText(c));
      CountsRead(c);
    }
  }

  lemma {:induction false} ThreeSpaces(s: string)
    ensures Numbers("   " + s) == Numbers(s)
  {
    hide Numbers;
    assert "   " + s == [' '] + ([' '] + ([' '] + s));
    NumbersSkip(' ', [' '] + ([' '] + s));
    NumbersSkip(' ', [' '] + s);
    NumbersSkip(' ', s);
  }

  // ----- the body is read back line by line

  function Feed(acc: Acc, s: seq<(Counter, Cost)>, n: nat): Acc
    decreases |s|
  {
    if s == [] then acc
    else
      Feed(acc.(lines := AddLine(acc.lines, FileFn(acc.fl, acc.fn), s[0].0, s[0].1, n),
        summary := Added(n, acc.summary, s[0].1)), s[1..], n)
  }

  function FeedAll(acc: Acc, ls: Listing, n: nat): Acc
    decreases |ls|
  {
    if ls == [] then acc else FeedAll(Feed(acc.(fl := ls[0].0.fi, fn := ls[0].0.fn), ls[0].1, n), ls[1..], n)
  }

  predicate InnerSmall(s: seq<(Counter, Cost)>) {
    s == [] || (s[0].0 < SIGN && AllSmall(s[0].1) && InnerSmall(s[1..]))
  }

  predicate OuterSmall(ls: Listing) {
    ls == [] || (InnerSmall(ls[0].1) && OuterSmall(ls[1..]))
  }

  ghost predicate Sized(s: seq<(Counter, Cost)>, n: nat) {
    forall i :: 0 <= i < |s| ==> |s[i].1| == n
  }

  lemma {:induction false} InnerReads(acc: Acc, s: seq<(Counter, Cost)>, rest: seq<string>, n: nat)
    requires n >= 1 && Sized(s, n)
    ensures if InnerSmall(s) then Body(InnerText(s) + rest, acc, n) == Body(rest, Feed(acc, s, n), n)
      else Body(InnerText(s) + rest, acc, n).Err?
    decreases |s|
  {
    hide LineText, AddLine, Added, CountsLine, AllSmall;
    if s == [] {
      assert InnerText(s) + rest == rest;
    } else {
      var l, c := s[0].0, s[0].1;
      var line := LineText(l, c);
      assert InnerText(s) + rest == [line] + (InnerText(s[1..]) + rest);
      LineReads(l, c);
      if l < SIGN && AllSmall(c) {
        assert ([l] + c)[1..] == c;
        var a := acc.(lines := AddLine(acc.lines, FileFn(acc.fl, acc.fn), l, c, n),
          summary := Added(n, acc.summary, c));
        assert HandleCounts(acc, line, n) == Ok(a);
        InnerReads(a, s[1..], rest, n);
      }
    }
  }

  lemma {:induction false} BodyReads(acc: Acc, ls: Listing, rest: seq<string>, n: nat)
    requires n >= 1 && forall i :: 0 <= i < |ls| ==> Sized(ls[i].1, n)
    ensures if OuterSmall(ls) then Body(BodyText(ls) + rest, acc, n) == Body(rest, FeedAll(acc, ls, n), n)
      else Body(BodyText(ls) + rest, acc, n).Err?
    decreases |ls|
  {
    hide InnerText, Feed, InnerSmall, Sized;
    if ls == [] {
      assert BodyText(ls) + rest == rest;
    } else {
      var k, s := ls[0].0, ls[0].1;
      var tail := InnerText(s) + (BodyText(ls[1..]) + rest);
      assert BodyText(ls) + rest == ["fl=" + k.fi] + (["fn=" + k.fn] + tail);
      HeaderReads(acc, k, tail, n);
      assert Sized(ls[0].1, n);
      InnerReads(acc.(fl := k.fi, fn := k.fn), s, BodyText(ls[1..]) + rest, n);
      BodyReads(Feed(acc.(fl := k.fi, fn := k.fn), s, n), ls[1..], rest, n);
    }
  }

  lemma {:induction false} HeaderReads(acc: Acc, k: FileFn, tail: seq<string>, n: nat)
    ensures Body(["fl=" + k.fi] + (["fn=" + k.fn] + tail), acc, n) == Body(tail, acc.(fl := k.fi, fn := k.fn), n)
  {
    var a, b := "fl=" + k.fi, "fn=" + k.fn;
    assert a[..3] == "fl=" && a[3..] == k.fi && a[1] == 'l';
    assert b[..3] == "fn=" && b[3..] == k.fn && b[0] == 'f';
    assert ([a] + ([b] + tail))[1..] == [b] + tail && ([b] + tail)[1..] == tail;
  }

  // ----- and rebuilds the maps

  lemma {:induction false} PutTwice<K, L, V>(o: map<K, map<L, V>>, k: K, m: map<L, V>, l: L, c: V, t: map<L, V>)
    requires l !in t
    ensures o[k := m[l := c]][k := m[l := c] + t] == o[k := m + t[l := c]]
  {
    assert m[l := c] + t == m + t[l := c];
  }

  lemma {:induction false} FeedLines(acc: Acc, s: seq<(Counter, Cost)>, n: nat)
    requires s != [] && forall i, j :: 0 <= i < j < |s| ==> s[i].0 != s[j].0
    requires var k := FileFn(acc.fl, acc.fn); k in acc.lines ==> forall i :: 0 <= i < |s| ==> s[i].0 !in acc.lines[k]
    ensures var k := FileFn(acc.fl, acc.fn); var m: Inner := if k in acc.lines then acc.lines[k] else map[];
      Feed(acc, s, n) == acc.(lines := acc.lines[k := m + ToMap(s)], summary := Feed(acc, s, n).summary)
    decreases |s|
  {
    hide Added;
    var k := FileFn(acc.fl, acc.fn);
    var m: Inner := if k in acc.lines then acc.lines[k] else map[];
    var l, c := s[0].0, s[0].1;
    var a := acc.(lines := AddLine(acc.lines, k, l, c, n), summary := Added(n, acc.summary, c));
    assert a.lines == acc.lines[k := m[l := c]];
    var t := ToMap(s[1..]);
    FirstNotAgain(s);
    PutTwice(acc.lines, k, m, l, c, t);
    if s[1..] == [] {
      assert m[l := c] + t == m[l := c];
    } else {
      hide ToMap, AddLine;
      forall i | 0 <= i < |s| - 1 ensures s[1..][i].0 !in m[l := c] {
        assert s[1..][i] == s[i + 1];
      }
      FeedLines(a, s[1..], n);
    }
  }

  /** The bindings of a listing, as maps. */
  function Pairs(ls: Listing): (r: seq<(FileFn, Inner)>)
    ensures |r| == |ls| && forall i :: 0 <= i < |ls| ==> r[i] == (ls[i].0, ToMap(ls[i].1))
  {
    if ls == [] then [] else [(ls[0].0, ToMap(ls[0].1))] + Pairs(ls[1..])
  }

  function OuterOf(ls: Listing): Outer { ToMap(Pairs(ls)) }

  lemma {:induction false} OuterOfUnfold(ls: Listing)
    requires ls != [] && forall i, j :: 0 <= i < j < |ls| ==> ls[i].0 != ls[j].0
    ensures OuterOf(ls) == OuterOf(ls[1..])[ls[0].0 := ToMap(ls[0].1)] && ls[0].0 !in OuterOf(ls[1..])
  {
    assert Pairs(ls)[1..] == Pairs(ls[1..]);
    FirstNotAgain(Pairs(ls));
  }

  lemma {:induction false} FeedAllLines(acc: Acc, ls: Listing, n: nat)
    requires forall i, j :: 0 <= i < j < |ls| ==> ls[i].0 != ls[j].0
    requires forall i :: 0 <= i < |ls| ==> ls[i].0 !in acc.lines && ls[i].1 != []
    requires forall i, x, y :: 0 <= i < |ls| && 0 <= x < y < |ls[i].1| ==> ls[i].1[x].0 != ls[i].1[y].0
    ensures FeedAll(acc, ls, n).lines == acc.lines + OuterOf(ls)
    decreases |ls|
  {
    if ls == [] {
      assert OuterOf(ls) == map[] && acc.lines + map[] == acc.lines;
    } else {
      var k, s := ls[0].0, ls[0].1;
      var first := acc.(fl := k.fi, fn := k.fn);
      hide Feed, ToMap, OuterOf;
      FeedLines(first, s, n);
      var a := Feed(first, s, n);
      assert FileFn(k.fi, k.fn) == k;
      NoneAdds(ToMap(s));
      assert a.lines == acc.lines[k := ToMap(s)];
      forall i | 0 <= i < |ls| - 1 ensures ls[1..][i].0 !in a.lines && ls[1..][i].1 != [] {
        assert ls[1..][i] == ls[i + 1];
      }
      FeedAllLines(a, ls[1..], n);
      OuterOfUnfold(ls);
      PutFirst(acc.lines, k, ToMap(s), OuterOf(ls[1..]));
    }
  }

  lemma {:induction false} NoneAdds<K, V>(m: map<K, V>)
    ensures map[] + m == m
  {}

  lemma {:induction false} PutFirst<K, V>(o: map<K, V>, k: K, v: V, t: map<K, V>)
    requires k !in t
    ensures o[k := v] + t == o + t[k := v]
  {}

  lemma {:induction false} ListsBack(ls: Listing, lines: Outer)
    requires Lists(ls, lines)
    ensures OuterOf(ls) == lines
  {
    hide ToMap, Enumerates;
    forall i | 0 <= i < |ls| ensures ToMap(ls[i].1) == lines[ls[i].0] { EnumeratesAll(ls[i].1, lines[ls[i].0]); }
    PairsEnumerate(ls, lines);
    EnumeratesAll(Pairs(ls), lines);
  }

  lemma {:induction false} PairsEnumerate(ls: Listing, lines: Outer)
    requires Lists(ls, lines) && forall i :: 0 <= i < |ls| ==> ToMap(ls[i].1) == lines[ls[i].0]
    ensures Enumerates(Pairs(ls), lines)
  {
    hide ToMap, Enumerates;
    var r := Pairs(ls);
    hide Pairs;
    assert forall i, j :: 0 <= i < j < |r| ==> r[i].0 != r[j].0;
    PairsEnumerateAll(r, ls, lines);
  }

  lemma {:induction false} PairsEnumerateAll(r: seq<(FileFn, Inner)>, ls: Listing, lines: Outer)
    requires |r| == |ls|
    requires (forall i :: 0 <= i < |ls| ==> r[i].0 == ls[i].0 && ls[i].0 in lines && r[i].1 == lines[ls[i].0])
    requires forall i, j :: 0 <= i < j < |ls| ==> ls[i].0 != ls[j].0
    requires forall k :: k in lines ==> exists i :: 0 <= i < |ls| && ls[i].0 == k
    ensures Enumerates(r, lines)
  {
    forall k | k in lines ensures exists i :: 0 <= i < |r| && r[i].0 == k {
      var i :| 0 <= i < |ls| && ls[i].0 == k;
      assert r[i].0 == k;
    }
  }

  // ----- which profiles can be printed

  ghost predicate SmallLines(lines: Outer) {
    forall k, l :: k in lines && l in lines[k] ==> l < SIGN && AllSmall(lines[k][l])
  }

  /** There is an event, and every number fits a signed one. */
  ghost predicate Printable(p: CacheProf) {
    p.nEvents >= 1 && SmallLines(p.lines) && AllSmall(p.summary)
  }

  lemma {:induction false} InnerSmallIff(s: seq<(Counter, Cost)>)
    ensures InnerSmall(s) <==> forall i :: 0 <= i < |s| ==> s[i].0 < SIGN && AllSmall(s[i].1)
    decreases |s|
  {
    hide AllSmall;
    if s != [] {
      InnerSmallIff(s[1..]);
      if InnerSmall(s) {
        forall i | 0 <= i < |s| ensures s[i].0 < SIGN && AllSmall(s[i].1) { if i > 0 { assert s[i] == s[1..][i - 1]; } }
      } else if s[0].0 < SIGN && AllSmall(s[0].1) {
        var i :| 0 <= i < |s| - 1 && !(s[1..][i].0 < SIGN && AllSmall(s[1..][i].1));
        assert s[i + 1] == s[1..][i];
      }
    }
  }

  lemma {:induction false} OuterSmallIff(ls: Listing)
    ensures OuterSmall(ls) <==> forall i :: 0 <= i < |ls| ==> InnerSmall(ls[i].1)
    decreases |ls|
  {
    hide InnerSmall;
    if ls != [] {
      OuterSmallIff(ls[1..]);
      if OuterSmall(ls) {
        forall i | 0 <= i < |ls| ensures InnerSmall(ls[i].1) { if i > 0 { assert ls[i] == ls[1..][i - 1]; } }
      } else if InnerSmall(ls[0].1) {
        var i :| 0 <= i < |ls| - 1 && !InnerSmall(ls[1..][i].1);
        assert ls[i + 1] == ls[1..][i];
      }
    }
  }

  lemma {:induction false} SmallIff(ls: Listing, lines: Outer)
    requires Lists(ls, lines)
    ensures OuterSmall(ls) <==> SmallLines(lines)
  {
    hide AllSmall, OuterSmall, InnerSmall;
    OuterSmallIff(ls);
    if OuterSmall(ls) {
      forall k, l | k in lines && l in lines[k] ensures l < SIGN && AllSmall(lines[k][l]) {
        var i :| 0 <= i < |ls| && ls[i].0 == k;
        InnerSmallIff(ls[i].1);
        var j :| 0 <= j < |ls[i].1| && ls[i].1[j].0 == l;
      }
    }
    if SmallLines(lines) {
      forall i | 0 <= i < |ls| ensures InnerSmall(ls[i].1) {
        InnerSmallIff(ls[i].1);
        forall j | 0 <= j < |ls[i].1| ensures ls[i].1[j].0 < SIGN && AllSmall(ls[i].1[j].1) {
          assert ls[i].1[j].0 in lines[ls[i].0];
        }
      }
    }
  }

  lemma {:induction false} ListedSizes(ls: Listing, lines: Outer, n: nat)
    requires Lists(ls, lines) && WholeLines(lines, n)
    ensures forall i :: 0 <= i < |ls| ==> ls[i].1 != [] && Sized(ls[i].1, n)
    ensures forall i, x, y :: 0 <= i < |ls| && 0 <= x < y < |ls[i].1| ==> ls[i].1[x].0 != ls[i].1[y].0
  {
    forall i | 0 <= i < |ls| ensures ls[i].1 != [] && Sized(ls[i].1, n) {
      var m := lines[ls[i].0];
      assert m != map[] && m.Keys != {};
      var l :| l in m;
      assert Enumerates(ls[i].1, m);
    }
  }

  // ----- the summary line

  lemma {:induction false} SummaryLine(acc: Acc, c: Cost, n: nat)
    requires n >= 1 && |c| == n
    ensures var line := "summary:" + SummaryRest(c);
      && Body([line], acc, n) == Ok((acc, line, [])) && line[8..] == SummaryRest(c)
      && CheckSummary(acc.summary, line, [], n) ==
        (if !AllSmall(c) then Some(Garbage) else if c != acc.summary then Some(SummaryMismatch) else None)
  {
    hide Numbers, AllSmall;
    var line := "summary:" + SummaryRest(c);
    SummaryReads(c);
    assert line[..9] == "summary: " && line[0] == 's' && line[1] == 'u';
    var none: seq<string> := [];
    assert [line][1..] == none;
  }

  lemma {:induction false} LineWithoutCounts(acc: Acc, l: Counter, rest: seq<string>)
    ensures Body([LineText(l, [])] + rest, acc, 0).Err?
  {
    hide LineText, CountsLine, AllSmall;
    LineReads(l, []);
    var none: Cost := [];
    assert [l] + none == [l];
  }

  /** Without an event nothing that is printed can be read. */
  lemma {:induction false} NoEventsFail(acc: Acc, ls: Listing)
    requires ls != [] ==> ls[0].1 != [] && |ls[0].1[0].1| == 0
    ensures Body(BodyText(ls) + ["summary:" + SummaryRest([])], acc, 0).Err?
  {
    var last := ["summary:" + SummaryRest([])];
    if ls == [] {
      assert BodyText(ls) + last == last;
      NoSpaceNoSummary(last, acc);
    } else {
      hide Body, LineText;
      var k, s := ls[0].0, ls[0].1;
      assert s[0].1 == [];
      var rest := InnerText(s[1..]) + (BodyText(ls[1..]) + last);
      FirstLines(ls, last);
      hide BodyText, InnerText;
      HeaderReads(acc, k, [LineText(s[0].0, [])] + rest, 0);
      LineWithoutCounts(acc.(fl := k.fi, fn := k.fn), s[0].0, rest);
    }
  }

  /** The first three lines of a listing. */
  lemma {:induction false} FirstLines(ls: Listing, last: seq<string>)
    requires ls != [] && ls[0].1 != []
    ensures var k, s := ls[0].0, ls[0].1;
      BodyText(ls) + last == ["fl=" + k.fi] + (["fn=" + k.fn] +
        ([LineText(s[0].0, s[0].1)] + (InnerText(s[1..]) + (BodyText(ls[1..]) + last))))
  {
    hide LineText;
    var k, s := ls[0].0, ls[0].1;
    var a, b := ["fl=" + k.fi], ["fn=" + k.fn];
    assert ["fl=" + k.fi, "fn=" + k.fn] == a + b;
    Regroup4(a, b, LineText(s[0].0, s[0].1), InnerText(s[1..]), BodyText(ls[1..]), last);
  }

  lemma {:induction false} Regroup4<T>(a: seq<T>, b: seq<T>, x: T, c: seq<T>, d: seq<T>, e: seq<T>)
    ensures (a + b) + ([x] + c) + d + e == a + (b + ([x] + (c + (d + e))))
  {}

  /** The line of an empty summary lacks the space that is looked for. */
  lemma {:induction false} NoSpaceNoSummary(ls: seq<string>, acc: Acc)
    requires ls == ["summary:" + SummaryRest([])]
    ensures Body(ls, acc, 0).Err?
  {
    assert ls[0] == "summary:" && ls[0][0] == 's' && ls[0][1] == 'u';
  }

  // ----- the round trip

  lemma {:induction false} HeadRead(p: CacheProf, body: seq<string>)
    requires Whole(p)
    ensures var ls := p.desc + [p.cmd, p.events] + body;
      && DescCount(ls) == |p.desc| < |ls| && ls[..|p.desc|] == p.desc
      && ls[|p.desc|] == p.cmd && |p.desc| + 1 < |ls| && ls[|p.desc| + 1] == p.events && ls[|p.desc| + 2..] == body
  {
    var rest := [p.cmd, p.events] + body;
    assert p.desc + [p.cmd, p.events] + body == p.desc + rest;
    assert p.cmd[0] == "cmd: "[0];
    DescRead(p.desc, rest);
  }

  lemma {:induction false} DescRead(desc: seq<string>, rest: seq<string>)
    requires (forall i :: 0 <= i < |desc| ==> StartsWith(desc[i], "desc: ")) && rest != [] && rest[0] != []
    requires rest[0][0] == 'c'
    ensures DescCount(desc + rest) == |desc|
    decreases |desc|
  {
    if desc == [] {
      assert desc + rest == rest;
    } else {
      assert (desc + rest)[1..] == desc[1..] + rest;
      DescRead(desc[1..], rest);
    }
  }

  /** What the lines of a profile are read as, and that its summary then fits. */
  lemma {:induction false} FedIsWhole(p: CacheProf, ls: Listing, acc: Acc)
    requires Whole(p) && Lists(ls, p.lines) && acc == Acc("???", "???", map[], seq(p.nEvents, _ => 0))
    ensures FeedAll(acc, ls, p.nEvents).lines == p.lines && FeedAll(acc, ls, p.nEvents).summary == p.summary
  {
    hide Feed, FeedAll, Total, OuterOf, EventCount, StartsWith;
    var n := p.nEvents;
    ListedSizes(ls, p.lines, n);
    FeedAllLines(acc, ls, n);
    ListsBack(ls, p.lines);
    NoneAdds(p.lines);
    NothingSummed(n);
    hide Lists;
    FeedAllSummed(acc, ls, n);
    hide WholeLines;
    assert FeedAll(acc, ls, n).summary == p.summary;
  }

  lemma {:induction false} FeedSummed(acc: Acc, s: seq<(Counter, Cost)>, n: nat)
    requires Sized(s, n) && Summed(acc.lines, acc.summary, n)
    ensures Summed(Feed(acc, s, n).lines, Feed(acc, s, n).summary, n)
    decreases |s|
  {
    if s != [] {
      hide Total, AddLine, Wrap;
      var k, l, c := FileFn(acc.fl, acc.fn), s[0].0, s[0].1;
      var a := acc.(lines := AddLine(acc.lines, k, l, c, n), summary := Added(n, acc.summary, c));
      assert |c| == n;
      forall e | 0 <= e < n ensures a.summary[e] == Wrap(Total(a.lines, e)) {
        AddLineTotal(acc.lines, k, l, c, n, e);
        WrapAdd(Total(acc.lines, e), At(c, e));
      }
      FeedSummed(a, s[1..], n);
    }
  }

  lemma {:induction false} FeedAllSummed(acc: Acc, ls: Listing, n: nat)
    requires (forall i :: 0 <= i < |ls| ==> Sized(ls[i].1, n)) && Summed(acc.lines, acc.summary, n)
    ensures Summed(FeedAll(acc, ls, n).lines, FeedAll(acc, ls, n).summary, n)
    decreases |ls|
  {
    hide Summed, Feed, Sized;
    if ls != [] {
      var a := acc.(fl := ls[0].0.fi, fn := ls[0].0.fn);
      FeedSummed(a, ls[0].1, n);
      FeedAllSummed(Feed(a, ls[0].1, n), ls[1..], n);
    }
  }

  /** A printed profile is read back as itself exactly if it has an event, and no line number, count
      or total of 2^63 or more. */
  lemma {:induction false} RoundTrip(p: CacheProf, ls: Listing)
    requires Whole(p) && Lists(ls, p.lines)
    ensures Parse(Show(p, ls)) == Ok(p) <==> Printable(p)
    ensures Parse(Show(p, ls)).Ok? ==> Parse(Show(p, ls)) == Ok(p)
  {
    var n := p.nEvents;
    var line := "summary:" + SummaryRest(p.summary);
    var body := BodyText(ls) + [line];
    var acc := Acc("???", "???", map[], seq(n, _ => 0));
    assert Show(p, ls) == p.desc + [p.cmd, p.events] + body;
    ParseShown(p, body, acc);
    SmallIff(ls, p.lines);
    FedIsWhole(p, ls, acc);
    BodyOutcome(p, ls, acc);
    hide Body, CheckSummary, Parse, Show, BodyText, SummaryRest, SmallLines, AllSmall, Lists, Whole, WholeLines,
      Summed, FeedAll, OuterSmall;
    if n >= 1 && OuterSmall(ls) { SummaryLine(FeedAll(acc, ls, n), p.summary, n); }
  }

  /** Reading a whole profile is reading its body and checking its summary. */
  lemma {:induction false} ParseShown(p: CacheProf, body: seq<string>, acc: Acc)
    requires Whole(p) && acc == Acc("???", "???", map[], seq(p.nEvents, _ => 0))
    ensures var r := Parse(p.desc + [p.cmd, p.events] + body); var b := Body(body, acc, p.nEvents);
      && (b.Ok? ==> StartsWith(b.value.1, "summary: ") && |b.value.1| >= 8)
      && r == if b.Err? then Err(b.error)
         else match CheckSummary(b.value.0.summary, b.value.1, b.value.2, p.nEvents)
           case Some(e) => Err(e)
           case None => Ok(p.(lines := b.value.0.lines, summary := b.value.0.summary))
  {
    hide Body, CheckSummary, WholeLines, Summed, EventCount, DescCount;
    HeadRead(p, body);
    BodyStops(body, acc, p.nEvents);
  }

  lemma {:induction false} BodyOutcome(p: CacheProf, ls: Listing, acc: Acc)
    requires Lists(ls, p.lines) && WholeLines(p.lines, p.nEvents) && |p.summary| == p.nEvents
    ensures var line := "summary:" + SummaryRest(p.summary); var body := Body(BodyText(ls) + [line], acc, p.nEvents);
      if p.nEvents >= 1 && OuterSmall(ls) then body == Ok((FeedAll(acc, ls, p.nEvents), line, [])) else body.Err?
  {
    hide Body, BodyText, SummaryRest, FeedAll, OuterSmall;
    var n := p.nEvents;
    ListedSizes(ls, p.lines, n);
    hide Lists, WholeLines;
    if n >= 1 {
      BodyReads(acc, ls, ["summary:" + SummaryRest(p.summary)], n);
      if OuterSmall(ls) { SummaryLine(FeedAll(acc, ls, n), p.summary, n); }
    } else {
      assert p.summary == [];
      if ls != [] { assert Sized(ls[0].1, 0); }
      NoEventsFail(acc, ls);
    }
  }

  // ----- the same for texts

  ghost predicate Clean(ls: seq<string>) {
    forall i :: 0 <= i < |ls| ==> '\n' !in ls[i]
  }

  lemma {:induction false} CountsClean(c: Cost)
    ensures '\n' !in CountsText(c) && '\n' !in SummaryRest(c)
    decreases |c|
  {
    if c != [] { CountsClean(c[1..]); }
  }

  lemma {:induction false} InnerClean(s: seq<(Counter, Cost)>)
    ensures Clean(InnerText(s))
    decreases |s|
  {
    if s != [] {
      InnerClean(s[1..]);
      CountsClean(s[0].1);
    }
  }

  lemma {:induction false} BodyClean(ls: Listing)
    requires forall i :: 0 <= i < |ls| ==> '\n' !in ls[i].0.fi && '\n' !in ls[i].0.fn
    ensures Clean(BodyText(ls))
    decreases |ls|
  {
    hide InnerText;
    if ls != [] {
      InnerClean(ls[0].1);
      BodyClean(ls[1..]);
    }
  }

  /** The text of a profile file is read back as the profile exactly if the profile is printable. */
  lemma {:induction false} TextRoundTrip(p: CacheProf, ls: Listing)
    requires Whole(p) && Lists(ls, p.lines)
    ensures Parse(Lines(Text(Show(p, ls)))) == Ok(p) <==> Printable(p)
  {
    hide Parse, Printable, BodyText, CountsText, SummaryRest, Text, Lines, EventCount, Enumerates;
    BodyClean(ls);
    CountsClean(p.summary);
    assert Clean(Show(p, ls)) by { hide Lists, WholeLines; }
    LinesOfText(Show(p, ls));
    RoundTrip(p, ls);
  }
}
