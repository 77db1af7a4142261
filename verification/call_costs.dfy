/** Where the inclusive costs of calls go: conservation over whole runs, with dumps anywhere. */
module CallCosts {
  import opened Wrappers
  import opened Costs
  import opened CallState
  import opened CallRuns

  /** What was booked for arc `j`, event `e`: collected since the last dump, or written by one. */
  function Booked(k: Books, j: Jcc, e: nat): int {
    At(Sum(k.sums, j), e) + At(Sum(k.written, j), e)
  }

  /** The counter readings from which the active activations of `j` are charged next. */
  function Readings(frames: seq<Frame>, j: Jcc, e: nat): int {
    if frames == [] then 0
    else
      var f := frames[|frames| - 1];
      Readings(frames[..|frames| - 1], j, e) + if f.jcc == Some(j) then At(f.enterCost, e) else 0
  }

  function Net(st: State, j: Jcc, e: nat): int { Booked(st.books, j, e) - Readings(st.frames, j, e) }

  /** The cost of event `e` in the finished activations of `j`: each from its call to its return. */
  function Earned(st: State, s: Script, j: Jcc, e: nat, skipDirect: bool): int
    requires Ready(st) && Legal(s, |st.cost|)
    decreases s
  {
    match s
    case Done => 0
    case Tick(now, rest) => Earned(st.(cost := now), rest, j, e, skipDirect)
    case Dumped(executed, rest) =>
      DumpRestores(st, executed);
      Earned(Dump(st, executed), rest, j, e, skipDirect)
    case Invoke(c, body, rest) =>
      EnterLeaves(st, c, skipDirect);
      var own := if ArcOf(st, c) == Some(j) then At(Inside(st, c, body, skipDirect).cost, e) - At(st.cost, e) else 0;
      own + Earned(Enter(st, c, skipDirect), body, j, e, skipDirect) +
        Earned(Called(st, c, body, skipDirect), rest, j, e, skipDirect)
  }

  /** The arc of a call, if it is not skipped. */
  function ArcOf(st: State, c: Invocation): Option<Jcc> {
    if c.skip then None else Some(Jcc(Source(st, c).0, Source(st, c).1, c.dst))
  }

  lemma {:induction false} EnterNet(st: State, c: Invocation, j: Jcc, e: nat, skipDirect: bool)
    requires Ready(st) && c.jmp <= |c.src.block.cjmps|
    ensures Net(Enter(st, c, skipDirect), j, e) == Net(st, j, e) - if ArcOf(st, c) == Some(j) then At(st.cost, e) else 0
  {
    hide Enter;
    EnterLeaves(st, c, skipDirect);
    var s, n := Enter(st, c, skipDirect), |st.frames|;
    assert s.frames[..n] == st.frames;
  }

  lemma {:induction false} PopNet(t: State, j: Jcc, e: nat, skipDirect: bool)
    requires Poppable(t) && e < |t.cost|
    ensures var f := t.frames[|t.frames| - 1];
      Wrap(Net(PopCall(t, skipDirect), j, e)) == Wrap(Net(t, j, e) + if f.jcc == Some(j) then At(t.cost, e) else 0)
  {
    hide PopCall;
    PopLeaves(t, skipDirect);
    var n := |t.frames| - 1;
    var f := t.frames[n];
    if f.jcc.Some? {
      SettleBooked(t.books, f, t.cost, j, e);
      var x := Booked(t.books, j, e) - At(Sum(t.books.sums, j), e);
      WrapAdd(At(Sum(t.books.sums, j), e) + t.cost[e] - At(f.enterCost, e), x - Readings(t.frames[..n], j, e));
    }
  }

  lemma {:induction false} SettleBooked(k: Books, f: Frame, now: Cost, j: Jcc, e: nat)
    requires f.jcc.Some? && e < |now|
    ensures Booked(Settle(k, f, now), j, e) ==
      if f.jcc == Some(j) then Wrap(At(Sum(k.sums, j), e) + now[e] - At(f.enterCost, e)) + At(Sum(k.written, j), e)
      else Booked(k, j, e)
    ensures Booked(Charge(k, f, now), j, e) == Booked(Settle(k, f, now), j, e)
  {}

  lemma {:induction false} ReadingsUpdate(frames: seq<Frame>, i: nat, f: Frame, j: Jcc, e: nat)
    requires i < |frames| && f.jcc == frames[i].jcc
    ensures Readings(frames[i := f], j, e) ==
      Readings(frames, j, e) + if f.jcc == Some(j) then At(f.enterCost, e) - At(frames[i].enterCost, e) else 0
    decreases |frames|
  {
    var n := |frames| - 1;
    if i == n {
      assert frames[i := f][..n] == frames[..n];
    } else {
      assert frames[i := f][..n] == frames[..n][i := f];
      ReadingsUpdate(frames[..n], i, f, j, e);
    }
  }

  lemma {:induction false} ChargeAllNet(st: State, k: nat, j: Jcc, e: nat)
    requires k <= |st.frames| && e < |st.cost|
    ensures Wrap(Net(ChargeAll(st, k), j, e)) == Wrap(Net(st, j, e))
    decreases k
  {
    hide *;
    if k == 0 {
      ChargeNone(st);
    } else {
      ChargeStepNet(st, k, j, e);
      ChargeAllNet(st, k - 1, j, e);
    }
  }

  lemma {:induction false} ChargeStepNet(st: State, k: nat, j: Jcc, e: nat)
    requires 0 < k <= |st.frames| && e < |st.cost|
    ensures Wrap(Net(ChargeAll(st, k), j, e)) == Wrap(Net(ChargeAll(st, k - 1), j, e))
  {
    hide *;
    ChargeAllStep(st, k);
    var s := ChargeAll(st, k - 1);
    if s.frames[k - 1].jcc.Some? { ChargeOneNet(s, k - 1, j, e); }
  }

  lemma {:induction false} ChargeOneNet(s: State, i: nat, j: Jcc, e: nat)
    requires i < |s.frames| && s.frames[i].jcc.Some? && e < |s.cost|
    ensures var f := s.frames[i];
      Wrap(Net(s.(frames := s.frames[i := f.(enterCost := s.cost)], books := Charge(s.books, f, s.cost)), j, e)) ==
        Wrap(Net(s, j, e))
  {
    hide Charge, Settle, Readings;
    var f := s.frames[i];
    SettleBooked(s.books, f, s.cost, j, e);
    ReadingsUpdate(s.frames, i, f.(enterCost := s.cost), j, e);
    WrapAdd(At(Sum(s.books.sums, j), e) + s.cost[e] - At(f.enterCost, e),
            At(Sum(s.books.written, j), e) - Readings(s.frames, j, e) - At(s.cost, e) + At(f.enterCost, e));
  }

  /** Writing moves costs from one book to the other. */
  lemma {:induction false} DumpNet(st: State, executed: set<Bbcc>, j: Jcc, e: nat)
    requires e < |st.cost|
    ensures Wrap(Net(Dump(st, executed), j, e)) == Wrap(Net(st, j, e))
  {
    hide ChargeAll, Chosen, Readings, Net;
    ChargeAllNet(st, |st.frames|, j, e);
    WriteNet(st, executed, j, e);
  }

  lemma {:induction false} WriteNet(st: State, executed: set<Bbcc>, j: Jcc, e: nat)
    requires e < |st.cost|
    ensures Wrap(Net(Dump(st, executed), j, e)) == Wrap(Net(ChargeAll(st, |st.frames|), j, e))
  {
    hide ChargeAll, Chosen, Readings;
    var s := ChargeAll(st, |st.frames|);
    var k := s.books;
    var before, after := Booked(k, j, e), Booked(Dump(st, executed).books, j, e);
    WriteBooked(st, executed, j, e);
    hide Dump, Sum, At, Wrap, Booked;
    WrapAdd(before, -Readings(s.frames, j, e));
    WrapAdd(after, -Readings(s.frames, j, e));
  }

  lemma {:induction false} WriteBooked(st: State, executed: set<Bbcc>, j: Jcc, e: nat)
    requires e < |st.cost|
    ensures Wrap(Booked(Dump(st, executed).books, j, e)) == Wrap(Booked(ChargeAll(st, |st.frames|).books, j, e))
  {
    hide ChargeAll, Chosen;
  }

  /** Whatever a run does, and however many dumps it makes: what it books for an arc is the cost of
      the activations that finish, from call to return, plus the progress of those still active, for
      every event modulo 2^64. */
  lemma {:induction false} CostsTelescope(st: State, s: Script, j: Jcc, e: nat, skipDirect: bool)
    requires Ready(st) && Legal(s, |st.cost|) && e < |st.cost|
    ensures Wrap(Net(Run(st, s, skipDirect), j, e)) == Wrap(Net(st, j, e) + Earned(st, s, j, e, skipDirect))
    decreases s
  {
    hide Net, Enter, PopCall, Dump, Called, Inside, Restored, ArcOf, Wrap;
    match s
    case Done =>
    case Tick(now, rest) =>
      TickNet(st, now, j, e);
      CostsTelescope(st.(cost := now), rest, j, e, skipDirect);
    case Dumped(executed, rest) =>
      DumpRestores(st, executed);
      var t := Dump(st, executed);
      StaysReady(st, t);
      DumpNet(st, executed, j, e);
      CostsTelescope(t, rest, j, e, skipDirect);
      SameWrap(Net(t, j, e), Net(st, j, e), Earned(t, rest, j, e, skipDirect));
    case Invoke(c, body, rest) =>
      EnterLeaves(st, c, skipDirect);
      InsideIsRun(st, c, body, skipDirect);
      var b, u := Enter(st, c, skipDirect), Called(st, c, body, skipDirect);
      StaysReady(st, u);
      CostsTelescope(b, body, j, e, skipDirect);
      CallNet(st, c, body, j, e, Earned(b, body, j, e, skipDirect), skipDirect);
      CostsTelescope(u, rest, j, e, skipDirect);
      var own := if ArcOf(st, c) == Some(j) then At(Inside(st, c, body, skipDirect).cost, e) - At(st.cost, e) else 0;
      SameWrap(Net(u, j, e), Net(st, j, e) + own + Earned(b, body, j, e, skipDirect),
        Earned(u, rest, j, e, skipDirect));
  }

  lemma {:induction false} TickNet(st: State, now: Cost, j: Jcc, e: nat)
    ensures Net(st.(cost := now), j, e) == Net(st, j, e)
  {}

  lemma {:induction false} CallNet(st: State, c: Invocation, body: Script, j: Jcc, e: nat, inner: int, skipDirect: bool)
    requires Ready(st) && c.jmp <= |c.src.block.cjmps| && Legal(body, |st.cost|) && e < |st.cost|
    requires Wrap(Net(Inside(st, c, body, skipDirect), j, e)) == Wrap(Net(Enter(st, c, skipDirect), j, e) + inner)
    ensures var own :=
        if ArcOf(st, c) == Some(j) then At(Inside(st, c, body, skipDirect).cost, e) - At(st.cost, e) else 0;
      Wrap(Net(Called(st, c, body, skipDirect), j, e)) == Wrap(Net(st, j, e) + own + inner)
  {
    hide Net, Enter, PopCall, Inside, Wrap;
    var b, t := Enter(st, c, skipDirect), Inside(st, c, body, skipDirect);
    EnterLeaves(st, c, skipDirect);
    EnterNet(st, c, j, e, skipDirect);
    ReturnRestores(st, c, skipDirect, t);
    assert SameFrame(b.frames[|st.frames|], t.frames[|st.frames|]);
    PopNet(t, j, e, skipDirect);
    SameWrap(Net(t, j, e), Net(b, j, e) + inner, if ArcOf(st, c) == Some(j) then At(t.cost, e) else 0);
  }

  /** A thread that starts with an empty call stack and empty books, and returns from all its calls,
      has booked exactly the cost of its activations. */
  lemma {:induction false} AllCostsBooked(st: State, s: Script, j: Jcc, e: nat, skipDirect: bool)
    requires Ready(st) && Legal(s, |st.cost|) && e < |st.cost|
    requires st.frames == [] && st.books == Books(map[], map[], map[])
    ensures Wrap(Booked(Run(st, s, skipDirect).books, j, e)) == Wrap(Earned(st, s, j, e, skipDirect))
  {
    hide Run, Earned;
    CostsTelescope(st, s, j, e, skipDirect);
  }

  // ----- dumps write everything

  /** The test by which a dump chooses cost centres does not miss a cost. */
  ghost predicate Recorded(k: Books) {
    forall j :: j in k.sums && !IsZero(k.sums[j]) ==> Rets(k, j.src) > 0
  }

  lemma {:induction false} SettleRecords(k: Books, f: Frame, now: Cost)
    requires Recorded(k) && f.jcc.Some?
    ensures Recorded(Settle(k, f, now))
  {
    hide Plus, Differ;
    var j0, r := f.jcc.value, Settle(k, f, now);
    forall j | j in r.sums && !IsZero(r.sums[j]) ensures Rets(r, j.src) > 0 {
      if j == j0 && !Differ(f.enterCost, now) {
        var e :| 0 <= e < |r.sums[j]| && r.sums[j][e] != 0;
        PlusNothing(Sum(k.sums, j), f.enterCost, now, e);
        assert At(Sum(k.sums, j), e) != 0;
      }
    }
  }

  lemma {:induction false} ChargeAllFinds(st: State, k: nat, j: Jcc)
    requires k <= |st.frames| && Recorded(st.books)
    ensures var s := ChargeAll(st, k);
      && s.books.rets == st.books.rets
      && (forall i :: 0 <= i < |st.frames| ==> s.frames[i].jcc == st.frames[i].jcc)
      && (j in s.books.sums && !IsZero(s.books.sums[j]) ==>
            Rets(st.books, j.src) > 0 || exists i :: 0 <= i < k && st.frames[i].jcc == Some(j))
    decreases k
  {
    hide Plus, IsZero;
    if k > 0 { ChargeAllFinds(st, k - 1, j); }
  }

  /** After a dump no arc holds a cost back. */
  lemma {:induction false} DumpWritesAll(st: State, executed: set<Bbcc>, j: Jcc)
    requires Recorded(st.books)
    ensures j in Dump(st, executed).books.sums ==> IsZero(Dump(st, executed).books.sums[j])
  {
    hide ChargeAll, Recorded;
    var s := ChargeAll(st, |st.frames|);
    ChargeAllFinds(st, |st.frames|, j);
    if j in s.books.sums && !IsZero(s.books.sums[j]) && Rets(st.books, j.src) == 0 {
      var i :| 0 <= i < |st.frames| && st.frames[i].jcc == Some(j);
      assert s.frames[i].jcc.value.src == j.src;
    }
  }

  lemma {:induction false} DumpRecords(st: State, executed: set<Bbcc>)
    requires Recorded(st.books)
    ensures Recorded(Dump(st, executed).books)
  {
    hide Dump, IsZero;
    forall j | j in Dump(st, executed).books.sums ensures IsZero(Dump(st, executed).books.sums[j]) {
      DumpWritesAll(st, executed, j);
    }
  }

  lemma {:induction false} CallRecords(st: State, c: Invocation, body: Script, skipDirect: bool)
    requires Ready(st) && c.jmp <= |c.src.block.cjmps| && Legal(body, |st.cost|)
    requires Recorded(Inside(st, c, body, skipDirect).books)
    ensures Recorded(Called(st, c, body, skipDirect).books)
  {
    hide Recorded, Inside, PopCall, Enter, Settle;
    var t := Inside(st, c, body, skipDirect);
    ReturnRestores(st, c, skipDirect, t);
    PopLeaves(t, skipDirect);
    var f := t.frames[|t.frames| - 1];
    if f.jcc.Some? { SettleRecords(t.books, f, t.cost); }
  }

  /** Every run keeps it so. */
  lemma {:induction false} RunRecords(st: State, s: Script, skipDirect: bool)
    requires Ready(st) && Legal(s, |st.cost|) && Recorded(st.books)
    ensures Recorded(Run(st, s, skipDirect).books)
    decreases s
  {
    hide Recorded, Enter, PopCall, Dump, Called, Inside, Restored;
    match s
    case Done =>
    case Tick(now, rest) => RunRecords(st.(cost := now), rest, skipDirect);
    case Dumped(executed, rest) =>
      DumpRestores(st, executed);
      StaysReady(st, Dump(st, executed));
      DumpRecords(st, executed);
      RunRecords(Dump(st, executed), rest, skipDirect);
    case Invoke(c, body, rest) =>
      EnterLeaves(st, c, skipDirect);
      InsideIsRun(st, c, body, skipDirect);
      RunRecords(Enter(st, c, skipDirect), body, skipDirect);
      CallRecords(st, c, body, skipDirect);
      StaysReady(st, Called(st, c, body, skipDirect));
      RunRecords(Called(st, c, body, skipDirect), rest, skipDirect);
  }
}
