/** What the activation counts of a thread count: the calls on its shadow stack and its first function. So
    what the recursion level of a cost centre is, and when collection is switched over. */
module Activations {
  import opened Wrappers
  import opened CallState
  import opened CallUnwind
  import opened CallRuns
  import opened BlockSetup
  import opened CallReturn

  // ----- collection

  /** The functions that switch collection over and are active. */
  function Togglers(st: State): set<Fn> {
    set f | f in st.depths && st.depths[f] > 0 && f.toggleCollect
  }

  /** Collection is as it was at the start, switched over once for every such function. */
  ghost predicate Switched(st: State, start: bool) {
    st.collect == (start != (|Togglers(st)| % 2 == 1))
  }

  /** `r` differs from `st` in whether `f` is active, if at all, and collection is switched with it. */
  lemma {:induction false} SwitchedWith(st: State, r: State, f: Fn, start: bool)
    requires Switched(st, start)
    requires forall g: Fn :: g != f ==> (g in Togglers(r) <==> g in Togglers(st))
    requires r.collect == (st.collect != ((f in Togglers(r)) != (f in Togglers(st))))
    ensures Switched(r, start)
  {
    var a, b := Togglers(st), Togglers(r);
    hide Togglers;
    if (f in a) == (f in b) {
      assert a == b;
    } else if f in b {
      assert b == a + {f} && |b| == |a| + 1;
    } else {
      assert a == b + {f} && |a| == |b| + 1;
    }
  }

  /** A call switches collection over exactly if it is the first activation of a function that does so. */
  lemma {:induction false} PushSwitches(st: State, src: Bbcc, jmp: nat, dst: Bbcc, sp: nat, skip: bool, start: bool)
    requires Pushable(st, src, jmp, skip) && Switched(st, start) && Depth(st, dst.cxt.fn) >= 0
    ensures Switched(PushCall(st, src, jmp, dst, sp, skip, false), start)
  {
    hide Switched, ReturnAddress;
    SwitchedWith(st, PushCall(st, src, jmp, dst, sp, skip, false), dst.cxt.fn, start);
  }

  /** And the end of its last activation switches it back. */
  lemma {:induction false} PopSwitches(st: State, start: bool)
    requires Poppable(st) && Switched(st, start)
    requires var f := st.frames[|st.frames| - 1]; f.jcc.Some? ==> Depth(st, f.jcc.value.dst.cxt.fn) >= 1
    ensures Switched(PopCall(st, false), start)
  {
    hide Switched, Settle;
    var top := st.frames[|st.frames| - 1];
    if top.jcc.Some? {
      SwitchedWith(st, PopCall(st, false), top.jcc.value.dst.cxt.fn, start);
    } else {
      SameSwitched(st, PopCall(st, false), start);
    }
  }

  lemma {:induction false} SameSwitched(st: State, r: State, start: bool)
    requires Switched(st, start) && r.depths == st.depths && r.collect == st.collect
    ensures Switched(r, start)
  {
    assert Togglers(r) == Togglers(st);
  }

  // ----- what is counted

  /** The calls of `g` on the shadow stack. */
  function Calls(frames: seq<Frame>, g: Fn): nat {
    if frames == [] then 0
    else
      var f := frames[|frames| - 1];
      Calls(frames[..|frames| - 1], g) + if f.jcc.Some? && f.jcc.value.dst.cxt.fn == g then 1 else 0
  }

  function Active(st: State, g: Fn): nat {
    Calls(st.frames, g) + if st.fns != [] && st.fns[0] == g then 1 else 0
  }

  /** Frame `f` is that of the call which put function `i` on the function stack. */
  predicate Put(fns: seq<Fn>, f: Frame, i: nat)
    requires i < |fns|
  {
    f.jcc.Some? && f.fnSp == i && f.jcc.value.dst.cxt.fn == fns[i]
  }

  ghost predicate PutByCall(frames: seq<Frame>, fns: seq<Fn>, i: nat)
    requires i < |fns|
  {
    exists j :: 0 <= j < |frames| && Put(fns, frames[j], i)
  }

  ghost predicate CountsRight(st: State) {
    forall g: Fn :: Depth(st, g) == Active(st, g)
  }

  ghost predicate AllPut(st: State) {
    forall i :: 1 <= i < |st.fns| ==> PutByCall(st.frames, st.fns, i)
  }

  ghost predicate ContextsRight(st: State) {
    && (st.cxt.Some? ==> st.fns != [] && st.cxt.value.fn == st.fns[|st.fns| - 1])
    && (forall j :: 0 <= j < |st.frames| && st.frames[j].jcc.Some? ==>
          var f := st.frames[j]; f.cxt.Some? && 0 < f.fnSp <= |st.fns| && f.cxt.value.fn == st.fns[f.fnSp - 1])
  }

  /** The counts are those of the shadow stack and the first function; every other function on the function
      stack was put there by a call; and contexts, the current one and those in frames, are of the function
      that was on top. */
  ghost predicate Faithful(st: State) { CountsRight(st) && AllPut(st) && ContextsRight(st) }

  lemma {:induction false} PopCounts(st: State)
    requires Layered(st) && CountsRight(st) && st.frames != [] && Poppable(st)
    ensures CountsRight(PopCall(st, false))
  {
    PopLeaves(st, false);
    PopDepths(st, false);
    var u, n := PopCall(st, false), |st.frames| - 1;
    hide PopCall, Depth, Settle;
    forall g: Fn ensures Depth(u, g) == Active(u, g) { assert Depth(st, g) == Active(st, g); }
  }

  lemma {:induction false} PopPuts(st: State)
    requires Layered(st) && AllPut(st) && ContextsRight(st) && st.frames != [] && Poppable(st)
    ensures AllPut(PopCall(st, false)) && ContextsRight(PopCall(st, false))
  {
    PopLeaves(st, false);
    var u, n := PopCall(st, false), |st.frames| - 1;
    hide PopCall;
    forall i | 1 <= i < |u.fns| ensures PutByCall(u.frames, u.fns, i) {
      assert PutByCall(st.frames, st.fns, i);
      var j :| 0 <= j < |st.frames| && Put(st.fns, st.frames[j], i);
      assert Put(u.fns, u.frames[j], i);
    }
  }

  lemma {:induction false} PopFaithful(st: State)
    requires Layered(st) && Faithful(st) && st.frames != []
    ensures Poppable(st) && Faithful(PopCall(st, false))
  {
    PopLayered(st, false);
    PopCounts(st);
    PopPuts(st);
    hide CountsRight, AllPut, ContextsRight, PopCall, Layered;
  }

  lemma {:induction false} UnwindFaithful(st: State, sp: nat, minpops: int)
    requires Layered(st) && Faithful(st)
    ensures Faithful(Unwind(st, sp, minpops, false))
    decreases |st.frames|
  {
    UnwindUnfold(st, sp, minpops, false);
    hide Layered, Faithful, PopCall, Unwind;
    if Leaves(st, sp, minpops) {
      PopFaithful(st);
      UnwindFaithful(PopCall(st, false), sp, minpops - 1);
    }
  }

  /** An active function is counted at least once. */
  lemma {:induction false} TopIsActive(st: State)
    requires Faithful(st) && st.fns != []
    ensures Depth(st, st.fns[|st.fns| - 1]) >= 1
  {
    var n := |st.fns| - 1;
    assert Depth(st, st.fns[n]) == Active(st, st.fns[n]);
    if n > 0 {
      assert PutByCall(st.frames, st.fns, n);
      var j :| 0 <= j < |st.frames| && Put(st.fns, st.frames[j], n);
      CallsAtLeast(st.frames, st.fns[n], j);
    }
  }

  lemma {:induction false} CallsAtLeast(frames: seq<Frame>, g: Fn, j: nat)
    requires j < |frames| && frames[j].jcc.Some? && frames[j].jcc.value.dst.cxt.fn == g
    ensures Calls(frames, g) >= 1
    decreases |frames|
  {
    if j < |frames| - 1 { CallsAtLeast(frames[..|frames| - 1], g, j); }
  }

  // ----- the start of a block

  /** The last block ran in the current context. */
  ghost predicate CpuFaithful(cpu: Cpu) {
    Faithful(cpu.st) && (cpu.bbcc.Some? ==> cpu.st.cxt == Some(cpu.bbcc.value.cxt))
  }

  /** A return that is taken for one from an unknown call, by another function than the first known one,
      although there is a frame with an arc. */
  ghost predicate Strands(cpu: Cpu, a: Arrival)
    requires HasExit(cpu, a)
  {
    PlanOf(cpu, a).kind == Return && |cpu.st.fns| == 1 && StrandsBelow(cpu.st, a.bb.fn)
  }

  ghost predicate StrandsBelow(st: State, caller: Fn)
    requires st.fns != []
  {
    st.fns[0] != caller && exists j :: 0 <= j < |st.frames| && st.frames[j].jcc.Some?
  }

  lemma {:induction false} PlannedFaithful(cpu: Cpu, a: Arrival)
    requires Layered(cpu.st) && HasExit(cpu, a) && Faithful(cpu.st)
    ensures Faithful(Planned(cpu, a, false))
    ensures PlanOf(cpu, a).kind == Return ==> Planned(cpu, a, false) == cpu.st && PlanOf(cpu, a).src == cpu.bbcc
  {
    hide Layered, Faithful, PopCall, Emulated, PopCount;
    if PopsOnJump(cpu, a) && cpu.st.frames[|cpu.st.frames| - 1].jcc.Some? { PopFaithful(cpu.st); }
  }

  /** What such a return leaves of a state: its frames, and the caller as the only function. */
  ghost predicate Restarted(st: State, r: State, f: Fn, caller: Fn) {
    && r.frames == st.frames && r.fns == [caller] && r.cxt.Some? && r.cxt.value.fn == caller
    && forall g: Fn :: Depth(r, g) == Depth(st, g) + (if g == caller then 1 else 0) - (if g == f then 1 else 0)
  }

  lemma {:induction false} PastRestarts(st: State, cur: Bbcc, a: Arrival)
    requires st.saved == None && |st.fns| == 1 && a.bb.fn.group == 0
    ensures Restarted(st, ReturnPast(st, cur, a, false), cur.cxt.fn, a.bb.fn)
  {
    hide Underflow, ReturnPast, PopCall, Poppable, Depth;
    var u := ReturnPastParts(st, cur, a, false);
    UnderflowResult(st, cur, a.bb.fn, a.unseen, a.lastDump, false);
    hide ContextOf;
  }

  lemma {:induction false} RestartedCounts(st: State, r: State, f: Fn, caller: Fn)
    requires Restarted(st, r, f, caller) && CountsRight(st) && st.fns == [f]
    ensures CountsRight(r)
  {
    forall g: Fn ensures Depth(r, g) == Active(r, g) { assert Depth(st, g) == Active(st, g); }
  }

  lemma {:induction false} RestartedContexts(st: State, r: State, f: Fn, caller: Fn)
    requires Restarted(st, r, f, caller) && ContextsRight(st) && st.fns == [f]
    ensures AllPut(r) && (ContextsRight(r) <==> !StrandsBelow(st, caller))
  {
    hide Depth;
    if j :| 0 <= j < |st.frames| && st.frames[j].jcc.Some? {
      assert r.frames[j].cxt.value.fn == f && r.frames[j].fnSp == 1;
    }
  }

  /** After such a return the counts are right, but frames may hold contexts of the function that is gone. */
  lemma {:induction false} PastFaithful(st: State, cur: Bbcc, a: Arrival)
    requires st.saved == None && |st.fns| == 1 && a.bb.fn.group == 0
    requires Faithful(st) && st.cxt == Some(cur.cxt)
    ensures var r := ReturnPast(st, cur, a, false);
      && CountsRight(r) && r.fns == [a.bb.fn] && r.cxt.Some? && r.cxt.value.fn == a.bb.fn
      && (Faithful(r) <==> !StrandsBelow(st, a.bb.fn))
  {
    assert st.fns == [cur.cxt.fn];
    hide CountsRight, AllPut, ContextsRight, ReturnPast, StrandsBelow;
    PastRestarts(st, cur, a);
    RestartedCounts(st, ReturnPast(st, cur, a, false), cur.cxt.fn, a.bb.fn);
    RestartedContexts(st, ReturnPast(st, cur, a, false), cur.cxt.fn, a.bb.fn);
  }

  lemma {:induction false} LandFaithful(st: State, plan: Plan, a: Arrival)
    requires Inv(st) && Layered(st) && (plan.kind == Return ==> plan.src.Some? && st.cxt == Some(plan.src.value.cxt))
    requires plan.kind == Return && Underflows(st) ==> a.bb.fn.group == 0
    requires Faithful(st)
    ensures var r := Land(st, plan, a, false).st;
      if plan.kind == Return && Underflows(st) then
        && |st.fns| == 1 && CountsRight(r) && r.fns == [a.bb.fn] && r.cxt.Some? && r.cxt.value.fn == a.bb.fn
        && !Land(st, plan, a, false).calls && (Faithful(r) <==> !StrandsBelow(st, a.bb.fn))
      else Faithful(r)
  {
    if plan.kind == Return && Underflows(st) {
      OneFunction(st);
      hide Faithful, Inv, ReturnPast, Underflows;
      PastFaithful(st, plan.src.value, a);
    } else {
      hide Faithful, Inv, Unwind, Layered, ReturnPast;
      UnwindFaithful(st, plan.sp, if plan.kind == Return then plan.pops else 0);
    }
  }

  /** How many recursion levels a cost centre tells apart, and which one it is for. */
  function LevelFor(active: nat, recursions: nat): nat {
    if recursions <= 1 || active == 0 then 0
    else if active <= recursions then active - 1
    else recursions - 1
  }

  lemma {:induction false} CentreFor(s: State, l: Landing, a: Arrival, src: Option<Bbcc>, n: nat)
    requires s.fns != [] && s.cxt.Some? && (l.calls ==> src.Some?)
    requires n == (if l.calls && !a.bb.fn.skip then 1 else 0) && Depth(s, s.fns[|s.fns| - 1]) + n >= 1
    ensures var (c, r) := Centre(s, l, a, src, false); var top := s.fns[|s.fns| - 1];
      && r == s && c.cxt == s.cxt.value && c.block == a.bb && c.rec == LevelFor(Depth(s, top) + n, top.recursions)
  {}

  /** A block that is not called stays in its function, or is the first. */
  lemma {:induction false} StayFaithful(l: Landing, a: Arrival)
    requires Inv(l.st) && Faithful(l.st) && !l.calls && (l.st.cxt == None ==> a.bb.fn.group == 0)
    ensures Faithful(Placed(l, a))
  {
    hide Layered, Descending, ArcsInBounds, Base;
    if l.st.cxt == None {
      var r := Placed(l, a);
      forall g: Fn ensures Depth(r, g) == Active(r, g) { assert Depth(l.st, g) == Active(l.st, g); }
    }
  }

  /** The function that a call is counted for. */
  lemma {:induction false} EnteredTop(st: State, f: Fn)
    requires Ready(st) && Faithful(st)
    ensures var s := CallState.PushCxt(st, f); var n := |st.fns|;
      && s.fns != [] && s.cxt.Some? && s.cxt.value.fn == s.fns[|s.fns| - 1]
      && (s.fns == st.fns || (|s.fns| == n + 1 && s.fns[..n] == st.fns))
      && (forall g: Fn :: Depth(s, g) == Depth(st, g))
      && s.frames == st.frames && s.saved == Some((st.cxt.value, n))
  {}

  lemma {:induction false} CallCounts(st: State, s: State, src: Bbcc, jmp: nat, dst: Bbcc, sp: nat)
    requires CountsRight(st) && s.frames == st.frames && st.fns != []
    requires s.fns == st.fns || (|s.fns| == |st.fns| + 1 && s.fns[..|st.fns|] == st.fns)
    requires forall g: Fn :: Depth(s, g) == Depth(st, g)
    requires Pushable(s, src, jmp, false)
    ensures CountsRight(PushCall(s, src, jmp, dst, sp, false, false))
  {
    var r, n := PushCall(s, src, jmp, dst, sp, false, false), |st.frames|;
    hide ReturnAddress;
    assert r.frames == st.frames + [r.frames[n]] && r.frames[..n] == st.frames && r.fns[0] == st.fns[0];
    forall g: Fn ensures Depth(r, g) == Active(r, g) { assert Depth(st, g) == Active(st, g); }
  }

  lemma {:induction false} CallPuts(st: State, s: State, src: Bbcc, jmp: nat, dst: Bbcc, sp: nat)
    requires Ready(st) && AllPut(st) && ContextsRight(st)
    requires s.frames == st.frames && s.saved == Some((st.cxt.value, |st.fns|))
    requires s.fns == st.fns || (|s.fns| == |st.fns| + 1 && s.fns[..|st.fns|] == st.fns)
    requires s.fns != [] && s.cxt == Some(dst.cxt) && dst.cxt.fn == s.fns[|s.fns| - 1]
    requires Pushable(s, src, jmp, false)
    ensures AllPut(PushCall(s, src, jmp, dst, sp, false, false))
    ensures ContextsRight(PushCall(s, src, jmp, dst, sp, false, false))
  {
    var r, n := PushCall(s, src, jmp, dst, sp, false, false), |st.frames|;
    hide ReturnAddress;
    assert r.frames == st.frames + [r.frames[n]] && r.fns == s.fns && r.cxt == s.cxt;
    assert r.frames[n].cxt == st.cxt && r.frames[n].fnSp == |st.fns|;
    hide PushCall;
    forall i | 1 <= i < |r.fns| ensures PutByCall(r.frames, r.fns, i) {
      if i < |st.fns| {
        assert PutByCall(st.frames, st.fns, i);
        var j :| 0 <= j < |st.frames| && Put(st.fns, st.frames[j], i);
        assert Put(r.fns, r.frames[j], i);
      } else {
        assert Put(r.fns, r.frames[n], i);
      }
    }
  }

  lemma {:induction false} CallFaithful(st: State, s: State, src: Bbcc, jmp: nat, dst: Bbcc, sp: nat)
    requires Ready(st) && Faithful(st) && s.frames == st.frames && s.saved == Some((st.cxt.value, |st.fns|))
    requires s.fns == st.fns || (|s.fns| == |st.fns| + 1 && s.fns[..|st.fns|] == st.fns)
    requires s.fns != [] && s.cxt == Some(dst.cxt) && dst.cxt.fn == s.fns[|s.fns| - 1]
    requires forall g: Fn :: Depth(s, g) == Depth(st, g)
    requires Pushable(s, src, jmp, false)
    ensures Faithful(PushCall(s, src, jmp, dst, sp, false, false))
  {
    hide CountsRight, AllPut, ContextsRight, PushCall, Pushable, Depth;
    CallCounts(st, s, src, jmp, dst, sp);
    CallPuts(st, s, src, jmp, dst, sp);
  }

  lemma {:induction false} SkipFaithful(s: State, src: Bbcc, jmp: nat, dst: Bbcc, sp: nat)
    requires Faithful(s) && Pushable(s, src, jmp, true)
    ensures Faithful(PushCall(s, src, jmp, dst, sp, true, false))
    ensures forall g: Fn :: Active(PushCall(s, src, jmp, dst, sp, true, false), g) == Active(s, g)
  {
    var r, n := PushCall(s, src, jmp, dst, sp, true, false), |s.frames|;
    hide ReturnAddress;
    assert r.frames[..n] == s.frames;
    forall g: Fn ensures Depth(r, g) == Active(r, g) && Active(r, g) == Active(s, g) {
      assert Depth(s, g) == Active(s, g);
    }
    hide PushCall, Depth, Calls;
    forall i | 1 <= i < |r.fns| ensures PutByCall(r.frames, r.fns, i) {
      assert PutByCall(s.frames, s.fns, i);
      var j :| 0 <= j < |s.frames| && Put(s.fns, s.frames[j], i);
      assert Put(r.fns, r.frames[j], i);
    }
  }

  lemma {:induction false} ReadyAt(st: State)
    requires Inv(st) && st.cxt.Some?
    ensures Ready(st)
  {}

  /** The cost centre is for the number of activations of its function, this one included. */
  ghost predicate LevelRight(r: Cpu) {
    && r.bbcc.Some? && r.st.fns != []
    && var c, top := r.bbcc.value, r.st.fns[|r.st.fns| - 1];
       c.cxt.fn == top && c.rec == LevelFor(Active(r.st, top), top.recursions)
  }

  lemma {:induction false} CalledRight(l: Landing, a: Arrival, src: Option<Bbcc>, from: (Bbcc, nat), c: Bbcc, s: State)
    requires Inv(l.st) && l.st.cxt.Some? && l.calls && !a.bb.fn.skip && src.Some? && Faithful(l.st)
    requires Placed(l, a).fns != [] && Placed(l, a).cxt.Some? && (c, s) == Centre(Placed(l, a), l, a, src, false)
    requires Pushable(s, from.0, from.1, false)
    ensures var r := Cpu(PushCall(s, from.0, from.1, c, l.sp, false, false), Some(c)); CpuFaithful(r) && LevelRight(r)
  {
    ReadyAt(l.st);
    EnteredTop(l.st, a.bb.fn);
    var st1 := CallState.PushCxt(l.st, a.bb.fn);
    assert Placed(l, a) == st1;
    hide Inv, Faithful, Centre, CallState.PushCxt, Placed, PushCall, Pushable, Depth, Active;
    var top := st1.fns[|st1.fns| - 1];
    NotNegative(l.st, top);
    CentreFor(st1, l, a, src, 1);
    CallFaithful(l.st, st1, from.0, from.1, c, l.sp);
    PushedActive(st1, from.0, from.1, c, l.sp);
    FaithfulAt(PushCall(s, from.0, from.1, c, l.sp, false, false), top);
  }

  lemma {:induction false} FaithfulAt(st: State, g: Fn)
    requires Faithful(st)
    ensures Depth(st, g) == Active(st, g)
  {}

  lemma {:induction false} NotNegative(st: State, g: Fn)
    requires Faithful(st)
    ensures Depth(st, g) >= 0
  {
    assert Depth(st, g) == Active(st, g);
  }

  lemma {:induction false} PushedActive(s: State, src: Bbcc, jmp: nat, dst: Bbcc, sp: nat)
    requires Pushable(s, src, jmp, false)
    ensures var r := PushCall(s, src, jmp, dst, sp, false, false);
      r.fns == s.fns && r.cxt == s.cxt && Depth(r, dst.cxt.fn) == Depth(s, dst.cxt.fn) + 1
  {
    hide ReturnAddress;
  }

  lemma {:induction false} StayedRight(l: Landing, a: Arrival, src: Option<Bbcc>, c: Bbcc, s: State)
    requires Inv(l.st) && Faithful(l.st) && (l.st.cxt == None ==> a.bb.fn.group == 0) && (l.calls ==> src.Some?)
    requires !l.calls || (a.bb.fn.skip && l.st.cxt.Some?)
    requires Placed(l, a).fns != [] && Placed(l, a).cxt.Some? && (c, s) == Centre(Placed(l, a), l, a, src, false)
    ensures Faithful(s) && s.cxt == Some(c.cxt) && LevelRight(Cpu(s, Some(c)))
  {
    var st1 := Placed(l, a);
    if l.calls { assert st1 == l.st; } else { StayFaithful(l, a); }
    TopIsActive(st1);
    FaithfulAt(st1, st1.fns[|st1.fns| - 1]);
    hide Inv, Centre, Placed;
    CentreFor(st1, l, a, src, 0);
  }

  /** From a state whose counts are right, a block setup takes the cost centre for the right level, and
      leads to such a state if and only if it strands no frame. */
  lemma {:induction false} StepFaithful(cpu: Cpu, a: Arrival)
    requires CpuInv(cpu) && Admissible(cpu, a) && CpuFaithful(cpu) && HasExit(cpu, a)
    ensures CpuFaithful(Step(cpu, a, false)) <==> !Strands(cpu, a)
    ensures LevelRight(Step(cpu, a, false))
  {
    LandsFaithful(cpu, a);
    hide *;
    var plan, st0, l, st1, c, st2 := StepParts(cpu, a, false);
    if plan.kind == Return && Underflows(st0) {
      ReturnedRight(l, a, plan.src, c, st2);
    } else if l.calls && !a.bb.fn.skip {
      CallsInContext(cpu, a);
      CalledRight(l, a, plan.src, Caller(st2, plan, false), c, st2);
    } else if l.calls {
      CallsInContext(cpu, a);
      StayedRight(l, a, plan.src, c, st2);
      SkippedRight(st2, Caller(st2, plan, true), c, l.sp);
    } else {
      StayedRight(l, a, plan.src, c, st2);
      StayedFaithful(st2, c);
    }
  }

  lemma {:induction false} ReturnedRight(l: Landing, a: Arrival, src: Option<Bbcc>, c: Bbcc, s: State)
    requires Inv(l.st) && CountsRight(l.st) && !l.calls && l.st.fns == [a.bb.fn]
    requires l.st.cxt.Some? && l.st.cxt.value.fn == a.bb.fn
    requires Placed(l, a).fns != [] && Placed(l, a).cxt.Some? && (c, s) == Centre(Placed(l, a), l, a, src, false)
    ensures LevelRight(Cpu(s, Some(c))) && (CpuFaithful(Cpu(s, Some(c))) <==> Faithful(l.st))
  {
    assert Placed(l, a) == l.st;
    assert Depth(l.st, a.bb.fn) == Active(l.st, a.bb.fn) >= 1;
    hide Inv, CountsRight, Centre, Placed, Faithful;
    CentreFor(l.st, l, a, src, 0);
  }

  lemma {:induction false} StayedFaithful(s: State, c: Bbcc)
    requires Faithful(s) && s.cxt == Some(c.cxt)
    ensures CpuFaithful(Cpu(s, Some(c)))
  {}

  lemma {:induction false} SkippedRight(s: State, from: (Bbcc, nat), c: Bbcc, sp: nat)
    requires Faithful(s) && s.cxt == Some(c.cxt) && LevelRight(Cpu(s, Some(c))) && Pushable(s, from.0, from.1, true)
    ensures var r := Cpu(PushCall(s, from.0, from.1, c, sp, true, false), Some(c)); CpuFaithful(r) && LevelRight(r)
  {
    SkipFaithful(s, from.0, from.1, c, sp);
    hide Faithful, Active, ReturnAddress;
  }

  lemma {:induction false} LandsFaithful(cpu: Cpu, a: Arrival)
    requires CpuInv(cpu) && Admissible(cpu, a) && CpuFaithful(cpu) && HasExit(cpu, a)
    ensures Layered(cpu.st)
    ensures var plan, st0 := PlanOf(cpu, a), Planned(cpu, a, false);
      && Inv(st0) && (plan.kind == Return ==> plan.src.Some? && st0.cxt.Some?)
      && (plan.kind == Return && Underflows(st0) ==> a.bb.fn.group == 0)
      && var r := Land(st0, plan, a, false);
         if plan.kind == Return && Underflows(st0) then
           && CountsRight(r.st) && r.st.fns == [a.bb.fn] && r.st.cxt.Some? && r.st.cxt.value.fn == a.bb.fn
           && !r.calls && (Faithful(r.st) <==> !Strands(cpu, a))
         else Faithful(r.st) && !Strands(cpu, a)
  {
    var plan, st0 := Prepared(cpu, a, false);
    PlannedFaithful(cpu, a);
    OnlyOne(st0);
    hide Faithful, Inv, PlanOf, Planned, Layered, Land, BottomFits, StrandsBelow, Underflows, CountsRight;
    LandFaithful(st0, plan, a);
  }

  lemma {:induction false} OnlyOne(st: State)
    ensures |st.fns| == 1 ==> Underflows(st)
  {}

  lemma {:induction false} CallsInContext(cpu: Cpu, a: Arrival)
    requires CpuInv(cpu) && Admissible(cpu, a) && HasExit(cpu, a) && Layered(cpu.st)
    requires var plan, st0 := PlanOf(cpu, a), Planned(cpu, a, false);
      && Inv(st0) && (plan.kind == Return ==> plan.src.Some? && st0.cxt.Some?)
      && (plan.kind == Return && Underflows(st0) ==> a.bb.fn.group == 0)
      && Land(st0, plan, a, false).calls
    ensures Land(Planned(cpu, a, false), PlanOf(cpu, a), a, false).st.cxt.Some?
  {
    hide *;
    var plan, st0 := Prepared(cpu, a, false);
    PlannedInv(cpu, a, false);
    CallsAreCalls(st0, plan, a, false);
    LandInv(st0, plan, a, false);
  }

  // ----- whole runs

  ghost predicate NeverStrands(cpu: Cpu, arrivals: seq<Arrival>)
    requires CpuInv(cpu) && Runs(cpu, arrivals, false)
    decreases |arrivals|
  {
    arrivals != [] ==>
      && !Strands(cpu, arrivals[0])
      && NeverStrands(Step(cpu, arrivals[0], false), arrivals[1..])
  }

  ghost predicate AlwaysRight(cpu: Cpu, arrivals: seq<Arrival>)
    requires CpuInv(cpu) && Runs(cpu, arrivals, false)
    decreases |arrivals|
  {
    && CpuFaithful(cpu)
    && (arrivals != [] ==> var r := Step(cpu, arrivals[0], false); LevelRight(r) && AlwaysRight(r, arrivals[1..]))
  }

  /** Over every run in which direct recursions are counted like other calls: the counts are those of the
      shadow stack throughout, and every cost centre is for the number of activations of its function, if
      and only if no return strands a frame. */
  lemma {:induction false} RunFaithful(cpu: Cpu, arrivals: seq<Arrival>)
    requires CpuInv(cpu) && Runs(cpu, arrivals, false) && CpuFaithful(cpu)
    ensures AlwaysRight(cpu, arrivals) <==> NeverStrands(cpu, arrivals)
    decreases |arrivals|
  {
    hide CpuInv, CpuFaithful, Step, Strands, LevelRight;
    if arrivals != [] {
      StepFaithful(cpu, arrivals[0]);
      var r := Step(cpu, arrivals[0], false);
      if CpuFaithful(r) { RunFaithful(r, arrivals[1..]); } else { NotRight(r, arrivals[1..]); }
    }
  }

  lemma {:induction false} NotRight(cpu: Cpu, arrivals: seq<Arrival>)
    requires CpuInv(cpu) && Runs(cpu, arrivals, false) && !CpuFaithful(cpu)
    ensures !AlwaysRight(cpu, arrivals)
  {}

  lemma {:induction false} NewThreadFaithful(events: nat)
    ensures CpuInv(NewThread(events)) && CpuFaithful(NewThread(events))
  {
    NewThreadInv(events);
  }

  /** So does a recursive call of the first known function that returns to another one. */
  lemma {:induction false} RecursionStrands(cpu: Cpu, call: Arrival, ret: Arrival)
    requires CpuInv(cpu) && Admissible(cpu, call) && cpu.bbcc.Some? && ExitKind(cpu, call) == Call
    requires Above(cpu.st, call.sp) && StaysAlone(cpu.st, call.bb.fn) && !call.bb.fn.skip
    requires var c := Step(cpu, call, false); Admissible(c, ret) && ExitKind(c, ret) == Return
    requires ret.sp > call.sp || (ret.sp == call.sp && ret.bb.addr == ReturnPoint(cpu, call))
    requires ret.bb.fn != Step(cpu, call, false).st.fns[0]
    ensures HasExit(Step(cpu, call, false), ret) && Strands(Step(cpu, call, false), ret)
  {
    CallEnters(cpu, call, false);
    var c := Step(cpu, call, false);
    var n := |cpu.st.frames|;
    ReturnCounted(cpu.st, c, call.sp, ReturnPoint(cpu, call), ret);
    InvLayered(c.st);
    NotEmulated(c, ret, false);
    CallHasArc(cpu, call);
    hide Step, StaysAlone, ReturnPoint, PlanOf, Layered, Inv;
    assert c.st.frames[n].jcc.Some?;
  }

  lemma {:induction false} CallHasArc(cpu: Cpu, a: Arrival)
    requires CpuInv(cpu) && Admissible(cpu, a) && cpu.bbcc.Some? && ExitKind(cpu, a) == Call
    requires Above(cpu.st, a.sp) && !a.bb.fn.skip
    ensures var r := Step(cpu, a, false).st; |r.frames| == |cpu.st.frames| + 1 && r.frames[|cpu.st.frames|].jcc.Some?
  {
    CallSteps(cpu, a, false);
    hide *;
    var plan, st0, l, st1, c, st2 := StepParts(cpu, a, false);
    CentreKeeps(st1, l, a, plan.src, false);
    KeptFrames(l, a);
    var from := Caller(st2, plan, false);
    ArcPushed(st2, from.0, from.1, c, l.sp);
  }

  lemma {:induction false} KeptFrames(l: Landing, a: Arrival)
    requires Inv(l.st) && (l.st.cxt == None ==> a.bb.fn.group == 0)
    ensures Placed(l, a).frames == l.st.frames
  {}

  lemma {:induction false} ArcPushed(s: State, src: Bbcc, jmp: nat, dst: Bbcc, sp: nat)
    requires Pushable(s, src, jmp, false)
    ensures var r := PushCall(s, src, jmp, dst, sp, false, false);
      |r.frames| == |s.frames| + 1 && r.frames[|s.frames|].jcc.Some?
  {}
}
