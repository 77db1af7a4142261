/** Runs of balanced calls: what is back after every return, and where the costs have gone. */
module CallRuns {
  import opened Wrappers
  import opened Costs
  import opened CallState

  /** What a thread does between two points with the same call depth. `Tick` runs code, after which
      the counters are `now`; `Invoke` is a call that executes `body` and returns. */
  datatype Script =
    | Done
    | Tick(now: Cost, rest: Script)
    | Dumped(executed: set<Bbcc>, rest: Script)
    | Invoke(call: Invocation, body: Script, rest: Script)

  /** A call of `fn` by exit `jmp` of `src` to the cost centre `dst`, with stack pointer `sp`. */
  datatype Invocation = Invocation(fn: Fn, src: Bbcc, jmp: nat, dst: Bbcc, sp: nat, skip: bool)

  /** The calls leave by exits that there are, and the number of events does not change. */
  predicate Legal(s: Script, events: nat) {
    match s
    case Done => true
    case Tick(now, rest) => |now| == events && Legal(rest, events)
    case Dumped(_, rest) => Legal(rest, events)
    case Invoke(call, body, rest) => call.jmp <= |call.src.block.cjmps| && Legal(body, events) && Legal(rest, events)
  }

  predicate Ready(st: State) {
    st.saved == None && st.fns != [] && st.cxt.Some?
  }

  /** The same activation, perhaps charged in between. */
  predicate SameFrame(f: Frame, g: Frame) {
    g == f.(enterCost := g.enterCost)
  }

  /** Everything the call stack has to bring back. */
  ghost predicate Restored(a: State, b: State) {
    && |b.frames| == |a.frames| && (forall i :: 0 <= i < |a.frames| ==> SameFrame(a.frames[i], b.frames[i]))
    && b.saved == a.saved && b.fns == a.fns && b.cxt == a.cxt && b.nonskipped == a.nonskipped
    && (forall f: Fn :: Depth(b, f) == Depth(a, f))
    && |b.cost| == |a.cost|
  }

  /** A call from a skipped function to one that is not is made by the function last not skipped. */
  function Source(st: State, c: Invocation): (Bbcc, nat) {
    if !c.skip && st.nonskipped.Some? then (st.nonskipped.value, |st.nonskipped.value.block.cjmps|) else (c.src, c.jmp)
  }

  function Enter(st: State, c: Invocation, skipDirect: bool): (r: State)
    requires Ready(st) && c.jmp <= |c.src.block.cjmps|
  {
    var s := if c.skip then st else PushCxt(st, c.fn);
    var from := Source(st, c);
    PushCall(s, from.0, from.1, c.dst, c.sp, c.skip, skipDirect)
  }

  /** By how much a call to `dst` changes the number of activations of `g`. */
  function Weight(skip: bool, src: Bbcc, dst: Bbcc, g: Fn, skipDirect: bool): int {
    if !skip && Counts(src, dst, skipDirect) && g == dst.cxt.fn then 1 else 0
  }

  lemma {:induction false} PushCxtLeaves(st: State, fn: Fn)
    requires Ready(st)
    ensures var s := PushCxt(st, fn);
      && s == st.(saved := Some((st.cxt.value, |st.fns|)), cxt := s.cxt, fns := s.fns)
      && s.cxt.Some? && |st.fns| <= |s.fns| && s.fns[..|st.fns|] == st.fns
  {
    hide ContextOf;
  }

  /** What entering a function leaves behind: a frame that remembers the context, the height of the
      function stack and the skipped caller, and at most one activation more of the target. */
  lemma {:induction false} EnterLeaves(st: State, c: Invocation, skipDirect: bool)
    requires Ready(st) && c.jmp <= |c.src.block.cjmps|
    ensures var s, n, from := Enter(st, c, skipDirect), |st.frames|, Source(st, c);
      && Ready(s) && s.cost == st.cost && s.books == st.books && |s.frames| == n + 1
      && s.frames == st.frames + [s.frames[n]] && s.frames[n].nonskipped == st.nonskipped
      && |st.fns| <= |s.fns| && s.fns[..|st.fns|] == st.fns
      && if c.skip then s.frames[n].jcc == None && s == st.(frames := s.frames, nonskipped := s.nonskipped)
         else s.frames[n] == s.frames[n].(jcc := Some(Jcc(from.0, from.1, c.dst)), cxt := st.cxt,
                fnSp := |st.fns|, enterCost := st.cost)
  {
    hide ContextOf, PushCxt;
    if !c.skip { PushCxtLeaves(st, c.fn); }
  }

  lemma {:induction false} EnterDepths(st: State, c: Invocation, skipDirect: bool)
    requires Ready(st) && c.jmp <= |c.src.block.cjmps|
    ensures var s, from := Enter(st, c, skipDirect), Source(st, c);
      forall g: Fn :: Depth(s, g) == Depth(st, g) + Weight(c.skip, from.0, c.dst, g, skipDirect)
  {
    hide ContextOf, PushCxt;
    if !c.skip { PushCxtLeaves(st, c.fn); }
  }

  lemma {:induction false} PopLeaves(t: State, skipDirect: bool)
    requires Poppable(t)
    ensures var u, n := PopCall(t, skipDirect), |t.frames| - 1; var f := t.frames[n];
      && u.frames == t.frames[..n] && u.saved == None && u.nonskipped == f.nonskipped && u.cost == t.cost
      && if f.jcc == None then u.fns == t.fns && u.cxt == t.cxt && u.books == t.books && u.collect == t.collect
         else u.cxt == f.cxt && u.fns == t.fns[..f.fnSp] && u.books == Settle(t.books, f, t.cost)
  {
    hide Settle;
  }

  lemma {:induction false} PopDepths(t: State, skipDirect: bool)
    requires Poppable(t)
    ensures var u, f := PopCall(t, skipDirect), t.frames[|t.frames| - 1];
      forall g: Fn ::
        Depth(u, g) == Depth(t, g) -
          match f.jcc { case None => 0 case Some(j) => Weight(false, j.src, j.dst, g, skipDirect) }
  {
    hide Settle;
  }

  lemma {:induction false} RestoredTransitive(a: State, b: State, c: State)
    requires Restored(a, b) && Restored(b, c)
    ensures Restored(a, c)
  {
    forall i | 0 <= i < |a.frames| ensures SameFrame(a.frames[i], c.frames[i]) {
      assert SameFrame(a.frames[i], b.frames[i]) && SameFrame(b.frames[i], c.frames[i]);
    }
  }

  lemma {:induction false} ChargeAllRestores(st: State, k: nat)
    requires k <= |st.frames|
    ensures Restored(st, ChargeAll(st, k))
    decreases k
  {
    if k > 0 {
      ChargeAllRestores(st, k - 1);
      var s := ChargeAll(st, k - 1);
      assert SameFrame(st.frames[k - 1], s.frames[k - 1]);
    }
  }

  lemma {:induction false} DumpRestores(st: State, executed: set<Bbcc>)
    ensures Restored(st, Dump(st, executed))
  {
    hide Chosen, ChargeAll;
    ChargeAllRestores(st, |st.frames|);
  }

  /** The matching return finds what `Enter` left, and undoes it. */
  lemma {:induction false} ReturnRestores(st: State, c: Invocation, skipDirect: bool, t: State)
    requires Ready(st) && c.jmp <= |c.src.block.cjmps|
    requires Restored(Enter(st, c, skipDirect), t)
    ensures Poppable(t) && Restored(st, PopCall(t, skipDirect))
  {
    hide Enter, PopCall, Settle;
    var s := Enter(st, c, skipDirect);
    var n := |st.frames|;
    EnterLeaves(st, c, skipDirect);
    EnterDepths(st, c, skipDirect);
    assert SameFrame(s.frames[n], t.frames[n]);
    PopLeaves(t, skipDirect);
    PopDepths(t, skipDirect);
    var u := PopCall(t, skipDirect);
    forall i | 0 <= i < n ensures SameFrame(st.frames[i], u.frames[i]) {
      assert SameFrame(s.frames[i], t.frames[i]);
    }
    forall g: Fn ensures Depth(u, g) == Depth(st, g) {
      assert Depth(t, g) == Depth(s, g);
    }
  }

  /** The run of a script. Every return finds its frame, and brings back the context, the top of the
      function stack, the skipped caller and every activation count, with or without direct
      recursion counted. */
  function Run(st: State, s: Script, skipDirect: bool): (r: State)
    requires Ready(st) && Legal(s, |st.cost|)
    ensures Restored(st, r)
    decreases s, 0
  {
    match s
    case Done => st
    case Tick(now, rest) => Run(st.(cost := now), rest, skipDirect)
    case Dumped(executed, rest) =>
      DumpRestores(st, executed);
      var t := Dump(st, executed);
      var r := Run(t, rest, skipDirect);
      RestoredTransitive(st, t, r);
      r
    case Invoke(c, body, rest) =>
      var t := Called(st, c, body, skipDirect);
      var r := Run(t, rest, skipDirect);
      RestoredTransitive(st, t, r);
      r
  }

  /** The end of a function body, before the return. */
  function Inside(st: State, c: Invocation, body: Script, skipDirect: bool): (r: State)
    requires Ready(st) && c.jmp <= |c.src.block.cjmps| && Legal(body, |st.cost|)
    ensures Restored(Enter(st, c, skipDirect), r)
    decreases body, 1
  {
    EnterLeaves(st, c, skipDirect);
    Run(Enter(st, c, skipDirect), body, skipDirect)
  }

  function Called(st: State, c: Invocation, body: Script, skipDirect: bool): (r: State)
    requires Ready(st) && c.jmp <= |c.src.block.cjmps| && Legal(body, |st.cost|)
    ensures Restored(st, r)
    decreases body, 2
  {
    var t := Inside(st, c, body, skipDirect);
    ReturnRestores(st, c, skipDirect, t);
    PopCall(t, skipDirect)
  }

  // ----- the collection state

  /** A direct recursion that is not counted toggles collection at one of its two ends only, if it
      is to a function with no activation or with one. */
  predicate Unpaired(st: State, c: Invocation, skipDirect: bool) {
    && !c.skip && c.dst.cxt.fn.toggleCollect && !Counts(Source(st, c).0, c.dst, skipDirect)
    && 0 <= Depth(st, c.dst.cxt.fn) <= 1
  }

  /** The unpaired calls of a run. */
  function Flips(st: State, s: Script, skipDirect: bool): nat
    requires Ready(st) && Legal(s, |st.cost|)
    decreases s
  {
    match s
    case Done => 0
    case Tick(now, rest) => Flips(st.(cost := now), rest, skipDirect)
    case Dumped(executed, rest) =>
      DumpRestores(st, executed);
      Flips(Dump(st, executed), rest, skipDirect)
    case Invoke(c, body, rest) =>
      EnterLeaves(st, c, skipDirect);
      (if Unpaired(st, c, skipDirect) then 1 else 0)
      + Flips(Enter(st, c, skipDirect), body, skipDirect) + Flips(Called(st, c, body, skipDirect), rest, skipDirect)
  }

  lemma {:induction false} EnterToggles(st: State, c: Invocation, skipDirect: bool)
    requires Ready(st) && c.jmp <= |c.src.block.cjmps|
    ensures var s, f := Enter(st, c, skipDirect), c.dst.cxt.fn;
      s.collect == if !c.skip && f.toggleCollect && Depth(s, f) == 1 then !st.collect else st.collect
  {
    hide ContextOf, PushCxt;
    if !c.skip { PushCxtLeaves(st, c.fn); }
  }

  lemma {:induction false} PopToggles(t: State, skipDirect: bool)
    requires Poppable(t)
    ensures var u, f := PopCall(t, skipDirect), t.frames[|t.frames| - 1];
      u.collect == if f.jcc.Some? && f.jcc.value.dst.cxt.fn.toggleCollect && Depth(u, f.jcc.value.dst.cxt.fn) == 0
        then !t.collect else t.collect
  {
    hide Settle;
  }

  lemma {:induction false} CallToggles(st: State, c: Invocation, body: Script, skipDirect: bool)
    requires Ready(st) && c.jmp <= |c.src.block.cjmps| && Legal(body, |st.cost|)
    ensures var s, t, u := Enter(st, c, skipDirect), Inside(st, c, body, skipDirect), Called(st, c, body, skipDirect);
      (u.collect == st.collect) <==> (Unpaired(st, c, skipDirect) <==> s.collect != t.collect)
  {
    hide Enter, PopCall, Inside, Run;
    EnterToggles(st, c, skipDirect);
    EnterDepths(st, c, skipDirect);
    EnterLeaves(st, c, skipDirect);
    var s, t := Enter(st, c, skipDirect), Inside(st, c, body, skipDirect);
    var f := c.dst.cxt.fn;
    ReturnRestores(st, c, skipDirect, t);
    PopToggles(t, skipDirect);
    assert SameFrame(s.frames[|st.frames|], t.frames[|st.frames|]);
    var u := Called(st, c, body, skipDirect);
    assert Depth(u, f) == Depth(st, f);
  }

  lemma {:induction false} StaysReady(a: State, b: State)
    requires Ready(a) && Restored(a, b)
    ensures Ready(b) && |b.cost| == |a.cost|
  {}

  lemma {:induction false} InsideIsRun(st: State, c: Invocation, body: Script, skipDirect: bool)
    requires Ready(st) && c.jmp <= |c.src.block.cjmps| && Legal(body, |st.cost|)
    ensures var s := Enter(st, c, skipDirect);
      Ready(s) && |s.cost| == |st.cost| && Inside(st, c, body, skipDirect) == Run(s, body, skipDirect)
  {
    hide Enter, Run;
    EnterLeaves(st, c, skipDirect);
  }

  lemma {:induction false} FlipsOf(st: State, c: Invocation, body: Script, rest: Script, skipDirect: bool)
    requires Ready(st) && Legal(Invoke(c, body, rest), |st.cost|)
    ensures Ready(Enter(st, c, skipDirect)) && Legal(body, |Enter(st, c, skipDirect).cost|)
    ensures Ready(Called(st, c, body, skipDirect)) && Legal(rest, |Called(st, c, body, skipDirect).cost|)
    ensures Flips(st, Invoke(c, body, rest), skipDirect) == (if Unpaired(st, c, skipDirect) then 1 else 0)
      + Flips(Enter(st, c, skipDirect), body, skipDirect) + Flips(Called(st, c, body, skipDirect), rest, skipDirect)
  {
    hide Enter, Called, Unpaired;
    EnterLeaves(st, c, skipDirect);
  }

  /** What holds of the body and of the rest holds of the whole. */
  lemma {:induction false} CallParity(st: State, c: Invocation, body: Script, rest: Script, skipDirect: bool)
    requires Ready(st) && Legal(Invoke(c, body, rest), |st.cost|)
    requires var e := Enter(st, c, skipDirect); Ready(e) && Legal(body, |e.cost|)
    requires var u := Called(st, c, body, skipDirect); Ready(u) && Legal(rest, |u.cost|)
    requires var e := Enter(st, c, skipDirect);
      Run(e, body, skipDirect).collect == e.collect <==> Flips(e, body, skipDirect) % 2 == 0
    requires var u := Called(st, c, body, skipDirect);
      Run(u, rest, skipDirect).collect == u.collect <==> Flips(u, rest, skipDirect) % 2 == 0
    ensures Run(st, Invoke(c, body, rest), skipDirect).collect == st.collect <==>
      Flips(st, Invoke(c, body, rest), skipDirect) % 2 == 0
  {
    hide *;
    RunOf(st, c, body, rest, skipDirect);
    FlipsOf(st, c, body, rest, skipDirect);
    CallToggles(st, c, body, skipDirect);
    InsideIsRun(st, c, body, skipDirect);
    Parities(Flips(Enter(st, c, skipDirect), body, skipDirect),
      Flips(Called(st, c, body, skipDirect), rest, skipDirect));
  }

  lemma {:induction false} Parities(x: nat, y: nat)
    ensures (x + y) % 2 == 0 <==> (x % 2 == 0 <==> y % 2 == 0)
    ensures (1 + x + y) % 2 == 0 <==> (x % 2 != 0 <==> y % 2 == 0)
  {}

  lemma {:induction false} RunOf(st: State, c: Invocation, body: Script, rest: Script, skipDirect: bool)
    requires Ready(st) && Legal(Invoke(c, body, rest), |st.cost|)
    ensures c.jmp <= |c.src.block.cjmps| && Legal(body, |st.cost|)
    ensures Ready(Called(st, c, body, skipDirect)) && Legal(rest, |Called(st, c, body, skipDirect).cost|)
    ensures Run(st, Invoke(c, body, rest), skipDirect) == Run(Called(st, c, body, skipDirect), rest, skipDirect)
  {
    hide Called;
  }

  /** Collection is on after a run exactly if it was on before, but for the unpaired calls. */
  lemma {:induction false} CollectParity(st: State, s: Script, skipDirect: bool)
    requires Ready(st) && Legal(s, |st.cost|)
    ensures Run(st, s, skipDirect).collect == st.collect <==> Flips(st, s, skipDirect) % 2 == 0
    decreases s
  {
    hide Enter, PopCall, Dump, Unpaired, Called, Inside, Restored;
    match s
    case Done =>
    case Tick(now, rest) => CollectParity(st.(cost := now), rest, skipDirect);
    case Dumped(executed, rest) =>
      DumpRestores(st, executed);
      StaysReady(st, Dump(st, executed));
      assert Dump(st, executed).collect == st.collect by { DumpKeepsCollect(st, executed); }
      CollectParity(Dump(st, executed), rest, skipDirect);
    case Invoke(c, body, rest) =>
      FlipsOf(st, c, body, rest, skipDirect);
      CollectParity(Enter(st, c, skipDirect), body, skipDirect);
      CollectParity(Called(st, c, body, skipDirect), rest, skipDirect);
      hide Run, Flips, Legal;
      CallParity(st, c, body, rest, skipDirect);
  }

  lemma {:induction false} DumpKeepsCollect(st: State, executed: set<Bbcc>)
    ensures Dump(st, executed).collect == st.collect
  {
    hide ChargeAll, Chosen;
  }

  /** If direct recursion is counted like any other call, collection is always restored. */
  lemma {:induction false} CollectRestored(st: State, s: Script)
    requires Ready(st) && Legal(s, |st.cost|)
    ensures Run(st, s, false).collect == st.collect
  {
    hide Run, Flips;
    NoFlips(st, s);
    CollectParity(st, s, false);
  }

  lemma {:induction false} NoFlips(st: State, s: Script)
    requires Ready(st) && Legal(s, |st.cost|)
    ensures Flips(st, s, false) == 0
    decreases s
  {
    hide Enter, Called, Dump, Run;
    match s
    case Done =>
    case Tick(now, rest) => NoFlips(st.(cost := now), rest);
    case Dumped(executed, rest) =>
      DumpRestores(st, executed);
      NoFlips(Dump(st, executed), rest);
    case Invoke(c, body, rest) =>
      EnterLeaves(st, c, false);
      NoFlips(Enter(st, c, false), body);
      NoFlips(Called(st, c, body, false), rest);
  }

  /** A function, called from another one, that calls itself once: with direct recursion not counted,
      collection is left switched over. */
  lemma {:induction false} RecursionFlips(st: State, call: Invocation, again: Invocation)
    requires Ready(st) && call.jmp <= |call.src.block.cjmps| && again.jmp <= |again.src.block.cjmps|
    requires !call.skip && !again.skip && call.dst.cxt.fn.toggleCollect && Depth(st, call.dst.cxt.fn) == 0
    requires Source(st, call).0.cxt.fn != call.dst.cxt.fn == again.src.cxt.fn == again.dst.cxt.fn
    ensures Legal(Invoke(again, Done, Done), |st.cost|)
    ensures Legal(Invoke(call, Invoke(again, Done, Done), Done), |st.cost|)
    ensures Run(st, Invoke(call, Invoke(again, Done, Done), Done), true).collect != st.collect
  {
    hide Run, Called, PushCxt, Deeper;
    EnterLeaves(st, call, true);
    EnterDepths(st, call, true);
    var s := Enter(st, call, true);
    EnterRemembersNone(st, call, true);
    hide Enter;
    assert Unpaired(s, again, true) && !Unpaired(st, call, true);
    FlipsOf(s, again, Done, Done, true);
    FlipsOf(st, call, Invoke(again, Done, Done), Done, true);
    CollectParity(st, Invoke(call, Invoke(again, Done, Done), Done), true);
  }

  lemma {:induction false} EnterRemembersNone(st: State, c: Invocation, skipDirect: bool)
    requires Ready(st) && c.jmp <= |c.src.block.cjmps| && !c.skip
    ensures Enter(st, c, skipDirect).nonskipped == None
  {
    hide ContextOf, PushCxt;
    PushCxtLeaves(st, c.fn);
  }

  // ----- an example

  const OUTER := Fn(1, 0, 0, 1, false, false, false)
  const TOGGLING := Fn(2, 0, 0, 1, false, false, true)

  /** The cost centre of a block of `f`, without callers. */
  function BlockOf(f: Fn): Bbcc { Bbcc(Block(1000 * f.number, f, true, 0, 0, [], Exit(Call, 0)), Context(f, []), 0) }

  function CallFrom(f: Fn, sp: nat): Invocation { Invocation(TOGGLING, BlockOf(f), 0, BlockOf(TOGGLING), sp, false) }

  /** A thread that runs `OUTER`, its first function. */
  const RUNNING := State([], None, [OUTER], Some(Context(OUTER, [])), None, map[OUTER := 1], true, [],
    Books(map[], map[], map[]))

  /** Collection is on before the call and off after its return. */
  lemma {:induction false} CollectCanFlip()
    ensures Ready(RUNNING) && RUNNING.collect
    ensures Legal(Invoke(CallFrom(TOGGLING, 80), Done, Done), 0)
    ensures Legal(Invoke(CallFrom(OUTER, 90), Invoke(CallFrom(TOGGLING, 80), Done, Done), Done), 0)
    ensures !Run(RUNNING, Invoke(CallFrom(OUTER, 90), Invoke(CallFrom(TOGGLING, 80), Done, Done), Done), true).collect
  {
    RecursionFlips(RUNNING, CallFrom(OUTER, 90), CallFrom(TOGGLING, 80));
  }
}
