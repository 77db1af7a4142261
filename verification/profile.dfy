/** Profiles: what a profile file holds, how it is read, written and merged. */
module Profile {
  import opened Wrappers
  import opened Costs
  import opened ProfileText

  datatype FileFn = FileFn(fi: string, fn: string)

  type Inner = map<Counter, Cost>
  type Outer = map<FileFn, Inner>

  /** `lines` maps file and function to line numbers, and these to counts; `summary` counts all lines
      together. */
  datatype CacheProf = CacheProf(desc: seq<string>, cmd: string, events: string, nEvents: nat, lines: Outer,
    summary: Cost)

  datatype Error =
    | NoDesc | NullLine | NoCmd | EofBeforeEvents | NoEvents | EofBeforeSummary | UnexpectedLine
    | Garbage | TooFewCounts | WrongCounts | Extraneous | SummaryCounts | SummaryMismatch

  // ----- reading

  /** What has been read so far, and the current file and function. */
  datatype Acc = Acc(fl: string, fn: string, lines: Outer, summary: Cost)

  function AddToInner(m: Inner, l: Counter, c: Cost, n: nat): Inner {
    m[l := if l in m then Added(n, m[l], c) else c]
  }

  function AddLine(lines: Outer, k: FileFn, l: Counter, c: Cost, n: nat): Outer {
    lines[k := AddToInner(if k in lines then lines[k] else map[], l, c, n)]
  }

  function HandleCounts(acc: Acc, line: string, n: nat): Result<Acc, Error> {
    match CountsLine(line)
    case None => Err(Garbage)
    case Some(ns) =>
      if |ns| < 2 then Err(TooFewCounts)
      else if |ns| - 1 != n then Err(WrongCounts)
      else Ok(acc.(lines := AddLine(acc.lines, FileFn(acc.fl, acc.fn), ns[0], ns[1..], n),
                   summary := Added(n, acc.summary, ns[1..])))
  }

  /** The lines up to the summary; gives the summary line and what follows it. */
  function Body(ls: seq<string>, acc: Acc, n: nat): Result<(Acc, string, seq<string>), Error>
    decreases |ls|
  {
    if ls == [] then Err(EofBeforeSummary)
    else
      var line := ls[0];
      if line != [] && IsDigit(line[0]) then
        match HandleCounts(acc, line, n)
        case Err(e) => Err(e)
        case Ok(a) => Body(ls[1..], a, n)
      else if StartsWith(line, "fn=") then Body(ls[1..], acc.(fn := line[3..]), n)
      else if StartsWith(line, "fl=") then Body(ls[1..], acc.(fl := line[3..]), n)
      else if StartsWith(line, "summary: ") then Ok((acc, line, ls[1..]))
      else Err(UnexpectedLine)
  }

  function DescCount(ls: seq<string>): (d: nat)
    ensures d <= |ls| && (d < |ls| ==> !StartsWith(ls[d], "desc: "))
  {
    if ls == [] || !StartsWith(ls[0], "desc: ") then 0 else 1 + DescCount(ls[1..])
  }

  /** The number of events: of places from `p` on where a letter follows a space. */
  function EventCount(line: string, p: nat): nat
    decreases |line| - p
  {
    if p >= |line| then 0
    else (if line[p] == ' ' && p + 1 < |line| && IsAlpha(line[p + 1]) then 1 else 0) + EventCount(line, p + 1)
  }

  function CheckSummary(summary: Cost, line: string, rest: seq<string>, n: nat): Option<Error>
    requires |line| >= 8
  {
    if rest != [] then Some(Extraneous)
    else
      match CountsLine(line[8..])
      case None => Some(Garbage)
      case Some(ns) =>
        if ns == [] then Some(TooFewCounts)
        else if |ns| != n then Some(SummaryCounts)
        else if ns != summary then Some(SummaryMismatch)
        else None
  }

  lemma {:induction false} BodyStops(ls: seq<string>, acc: Acc, n: nat)
    ensures Body(ls, acc, n).Ok? ==> StartsWith(Body(ls, acc, n).value.1, "summary: ")
    decreases |ls|
  {
    hide HandleCounts;
    if ls != [] {
      var line := ls[0];
      if line != [] && IsDigit(line[0]) {
        if HandleCounts(acc, line, n).Ok? { BodyStops(ls[1..], HandleCounts(acc, line, n).value, n); }
      } else if StartsWith(line, "fn=") {
        BodyStops(ls[1..], acc.(fn := line[3..]), n);
      } else if StartsWith(line, "fl=") {
        BodyStops(ls[1..], acc.(fl := line[3..]), n);
      }
    }
  }

  function Parse(ls: seq<string>): Result<CacheProf, Error> {
    var d := DescCount(ls);
    if d == 0 then Err(NoDesc)
    else if d == |ls| then Err(NullLine)
    else if !StartsWith(ls[d], "cmd: ") then Err(NoCmd)
    else if d + 1 == |ls| then Err(EofBeforeEvents)
    else if !StartsWith(ls[d + 1], "events: ") then Err(NoEvents)
    else
      var n := EventCount(ls[d + 1], 6);
      var body := Body(ls[d + 2..], Acc("???", "???", map[], seq(n, _ => 0)), n);
      BodyStops(ls[d + 2..], Acc("???", "???", map[], seq(n, _ => 0)), n);
      if body.Err? then Err(body.error)
      else
        match CheckSummary(body.value.0.summary, body.value.1, body.value.2, n)
        case Some(e) => Err(e)
        case None => Ok(CacheProf(ls[..d], ls[d], ls[d + 1], n, body.value.0.lines, body.value.0.summary))
  }

  // ----- totals

  ghost function SumSet<K>(s: set<K>, f: K -> int): int {
    if s == {} then 0
    else
      var k :| k in s;
      f(k) + SumSet(s - {k}, f)
  }

  lemma {:induction false} SumSetTakes<K>(s: set<K>, f: K -> int, x: K)
    requires x in s
    ensures SumSet(s, f) == f(x) + SumSet(s - {x}, f)
    decreases s
  {
    var k :| k in s && SumSet(s, f) == f(k) + SumSet(s - {k}, f);
    if k != x {
      SumSetTakes(s - {k}, f, x);
      SumSetTakes(s - {x}, f, k);
      assert s - {k} - {x} == s - {x} - {k};
    }
  }

  lemma {:induction false} SumSetSame<K>(s: set<K>, f: K -> int, g: K -> int)
    requires forall k :: k in s ==> f(k) == g(k)
    ensures SumSet(s, f) == SumSet(s, g)
    decreases s
  {
    if s != {} {
      var k :| k in s && SumSet(s, f) == f(k) + SumSet(s - {k}, f);
      SumSetTakes(s, g, k);
      SumSetSame(s - {k}, f, g);
    }
  }

  ghost function CountAt(m: Inner, e: nat): Counter -> int {
    l => if l in m then At(m[l], e) else 0
  }

  ghost function InnerTotal(m: Inner, e: nat): int { SumSet(m.Keys, CountAt(m, e)) }

  ghost function TotalAt(lines: Outer, e: nat): FileFn -> int {
    k => if k in lines then InnerTotal(lines[k], e) else 0
  }

  /** The counts of event `e` in all lines of all functions. */
  ghost function Total(lines: Outer, e: nat): int { SumSet(lines.Keys, TotalAt(lines, e)) }

  lemma {:induction false} InnerTotalUpdate(m: Inner, l: Counter, c: Cost, e: nat)
    ensures InnerTotal(m[l := c], e) == InnerTotal(m, e) - (if l in m then At(m[l], e) else 0) + At(c, e)
  {
    var r := m[l := c];
    SumSetTakes(r.Keys, CountAt(r, e), l);
    assert r.Keys - {l} == m.Keys - {l};
    SumSetSame(m.Keys - {l}, CountAt(r, e), CountAt(m, e));
    if l in m { SumSetTakes(m.Keys, CountAt(m, e), l); } else { assert m.Keys - {l} == m.Keys; }
  }

  lemma {:induction false} TotalUpdate(lines: Outer, k: FileFn, m: Inner, e: nat)
    ensures Total(lines[k := m], e) ==
      Total(lines, e) - (if k in lines then InnerTotal(lines[k], e) else 0) + InnerTotal(m, e)
  {
    var r := lines[k := m];
    SumSetTakes(r.Keys, TotalAt(r, e), k);
    assert r.Keys - {k} == lines.Keys - {k};
    SumSetSame(lines.Keys - {k}, TotalAt(r, e), TotalAt(lines, e));
    if k in lines { SumSetTakes(lines.Keys, TotalAt(lines, e), k); } else { assert lines.Keys - {k} == lines.Keys; }
  }

  // ----- what every profile that was read or merged is like

  ghost predicate WholeLines(lines: Outer, n: nat) {
    forall k :: k in lines ==>
      && lines[k] != map[] && '\n' !in k.fi && '\n' !in k.fn
      && forall l :: l in lines[k] ==> |lines[k][l]| == n
  }

  /** The summary is what all lines add up to, modulo 2^64. */
  ghost predicate Summed(lines: Outer, summary: Cost, n: nat) {
    |summary| == n && forall e :: 0 <= e < n ==> summary[e] == Wrap(Total(lines, e))
  }

  ghost predicate Whole(p: CacheProf) {
    && p.desc != [] && (forall i :: 0 <= i < |p.desc| ==> StartsWith(p.desc[i], "desc: ") && '\n' !in p.desc[i])
    && StartsWith(p.cmd, "cmd: ") && '\n' !in p.cmd
    && StartsWith(p.events, "events: ") && '\n' !in p.events && p.nEvents == EventCount(p.events, 6)
    && WholeLines(p.lines, p.nEvents) && Summed(p.lines, p.summary, p.nEvents)
  }
}
