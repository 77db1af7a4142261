/** What happens to the shadow stack at the start of every basic block, and what always holds there. */
module BlockSetup {
  import opened Wrappers
  import opened Costs
  import opened CallState
  import opened CallUnwind
  import opened CallRuns

  const MAX_ADDR: nat := 0xFFFF_FFFF_FFFF_FFFF

  /** A thread between two blocks: its state, and the cost centre of the block it ran last. */
  datatype Cpu = Cpu(st: State, bbcc: Option<Bbcc>)

  /** What the thread is about to run: block `bb`, reached with stack pointer `sp` by exit `passed`
      of the last block. If its caller turns out to be unknown, the call is ascribed to `unseen`, and
      dated back to the counters of the last dump. */
  datatype Arrival = Arrival(bb: Block, sp: nat, passed: nat, unseen: Bbcc, lastDump: Cost)

  // ----- returns and jumps that are really calls

  /** How many frames a return to `addr` leaves that does not change the stack pointer: up to the
      first frame from `i` down with that return address. */
  function Matching(frames: seq<Frame>, i: nat, sp: nat, addr: nat, count: nat): (r: nat)
    requires i < |frames|
  {
    if frames[i].retAddr == addr then count
    else if i > 0 && frames[i - 1].sp == sp then Matching(frames, i - 1, sp, addr, count + 1)
    else 0
  }

  /** How many frames a return leaves at least; none if it does not belong to the top frame. */
  function PopCount(frames: seq<Frame>, sp: nat, addr: nat): nat {
    if frames == [] then 1
    else
      var top := frames[|frames| - 1];
      if sp < top.sp then 0
      else if sp == top.sp then Matching(frames, |frames| - 1, sp, addr, 1)
      else 1
  }

  /** What has become of the jump: its kind, the source of the call if it is one, and whether the
      call is emulated. */
  datatype Plan = Plan(kind: JmpKind, pops: nat, emulated: bool, src: Option<Bbcc>, passed: nat, sp: nat)

  /** The block is reached by an exit that there is. */
  predicate HasExit(cpu: Cpu, a: Arrival) { cpu.bbcc.Some? ==> a.passed <= |cpu.bbcc.value.block.cjmps| }

  function ExitKind(cpu: Cpu, a: Arrival): JmpKind
    requires HasExit(cpu, a)
  {
    if cpu.bbcc.Some? then cpu.bbcc.value.block.ExitAt(a.passed).kind else NoJump
  }

  /** A jump counts as a call if it goes to the start of a function or to other code, or is a return
      from nothing. */
  predicate Emulated(cpu: Cpu, a: Arrival)
    requires HasExit(cpu, a)
  {
    && cpu.bbcc.Some?
    && var last, kind := cpu.bbcc.value.block, ExitKind(cpu, a);
       || (kind == Return && cpu.st.frames != [] && PopCount(cpu.st.frames, a.sp, a.bb.addr) == 0)
       || (kind != Return && kind != Call && (a.bb.isEntry || last.sect != a.bb.sect || last.obj != a.bb.obj))
  }

  /** With the option for it, an emulated call first leaves the current function. */
  predicate PopsOnJump(cpu: Cpu, a: Arrival)
    requires HasExit(cpu, a)
  {
    Emulated(cpu, a) && cpu.bbcc.value.block.fn.popOnJump && cpu.st.frames != []
  }

  function PlanOf(cpu: Cpu, a: Arrival): Plan
    requires HasExit(cpu, a)
  {
    var kind, pops := ExitKind(cpu, a), PopCount(cpu.st.frames, a.sp, a.bb.addr);
    if !Emulated(cpu, a) then Plan(kind, pops, false, cpu.bbcc, a.passed, a.sp)
    else if PopsOnJump(cpu, a) && cpu.st.frames[|cpu.st.frames| - 1].jcc.Some? then
      var top := cpu.st.frames[|cpu.st.frames| - 1];
      Plan(Call, pops, true, Some(top.jcc.value.src), top.jcc.value.jmp, top.sp)
    else Plan(Call, pops, true, cpu.bbcc, a.passed, a.sp)
  }

  /** The state after the pop that an emulated call may start with. */
  function Planned(cpu: Cpu, a: Arrival, skipDirect: bool): State
    requires Layered(cpu.st) && HasExit(cpu, a)
  {
    if PopsOnJump(cpu, a) && cpu.st.frames[|cpu.st.frames| - 1].jcc.Some? then
      PopLayered(cpu.st, skipDirect);
      PopCall(cpu.st, skipDirect)
    else cpu.st
  }

  // ----- an unknown caller

  predicate Underflows(st: State) { st.frames == [] || |st.fns| == 1 }

  /** The thread back in `caller`, which was not known to be active. */
  function Reentered(st: State, cur: Bbcc, caller: Fn): (r: State)
    requires st.saved == None && caller.group == 0
    ensures r.saved == None && r.fns == [caller] && r.cxt == Some(ContextOf([caller])) && r.nonskipped == None
    ensures r.frames == st.frames
  {
    var s := PushCxt(st.(fns := [], cxt := None), caller);
    Deeper(s, cur.cxt.fn, -1).(nonskipped := None)
  }

  /** With the top frame charged from the last dump on. */
  function Redated(u: State, lastDump: Cost): State
    requires u.frames != []
  {
    var n := |u.frames| - 1;
    u.(frames := u.frames[n := u.frames[n].(enterCost := lastDump)])
  }

  /** A return out of the first known function: pretends that `caller` had called it. */
  function Underflow(st: State, cur: Bbcc, caller: Fn, unseen: Bbcc, lastDump: Cost, skipDirect: bool): (r: State)
    requires st.saved == None && |st.fns| == 1 && caller.group == 0
  {
    var t := Reentered(st, cur, caller);
    Redated(PushCall(PushCxt(t, cur.cxt.fn), unseen, 0, cur, MAX_ADDR, false, skipDirect), lastDump)
  }

  // ----- the invariant

  /** The height of the function stack when the lowest call that is not skipped was made. */
  function Base(frames: seq<Frame>, top: nat): nat {
    if frames == [] then top
    else if frames[0].jcc.Some? then frames[0].fnSp
    else Base(frames[1..], top)
  }

  ghost predicate ArcsInBounds(frames: seq<Frame>) {
    forall i :: 0 <= i < |frames| && frames[i].jcc.Some? ==>
      frames[i].jcc.value.jmp <= |frames[i].jcc.value.src.block.cjmps|
  }

  /** What holds at every block boundary. */
  ghost predicate Inv(st: State) {
    && Layered(st) && Descending(st.frames) && ArcsInBounds(st.frames)
    && st.saved == None
    && (if st.cxt == None then st.fns == [] && st.frames == [] else st.fns != [])
    && Base(st.frames, |st.fns|) <= 1
  }

  ghost predicate CpuInv(cpu: Cpu) {
    Inv(cpu.st) && (cpu.bbcc.Some? ==> cpu.st.cxt.Some?)
  }

  // ----- the rest of the step

  /** A return of which the call was not seen. */
  function ReturnPast(st: State, cur: Bbcc, a: Arrival, skipDirect: bool): (r: State)
    requires st.saved == None && |st.fns| == 1 && a.bb.fn.group == 0
  {
    UnderflowPoppable(st, cur, a.bb.fn, a.unseen, a.lastDump, skipDirect);
    PopCall(Underflow(st, cur, a.bb.fn, a.unseen, a.lastDump, skipDirect), skipDirect)
  }

  lemma {:induction false} ReturnPastParts(st: State, cur: Bbcc, a: Arrival, skipDirect: bool) returns (u: State)
    requires st.saved == None && |st.fns| == 1 && a.bb.fn.group == 0
    ensures u == Underflow(st, cur, a.bb.fn, a.unseen, a.lastDump, skipDirect) && Poppable(u)
    ensures ReturnPast(st, cur, a, skipDirect) == PopCall(u, skipDirect)
  {
    hide PopCall, Underflow, Poppable;
    UnderflowPoppable(st, cur, a.bb.fn, a.unseen, a.lastDump, skipDirect);
    u := Underflow(st, cur, a.bb.fn, a.unseen, a.lastDump, skipDirect);
  }

  /** Where a plan leaves the call stack: frames of functions that have ended are gone. A jump that
      turns out to have left a function is no call after all. */
  datatype Landing = Landing(st: State, calls: bool, sp: nat)

  function Land(st: State, plan: Plan, a: Arrival, skipDirect: bool): (r: Landing)
    requires Inv(st) && (plan.kind == Return ==> plan.src.Some? && st.cxt.Some?)
    requires plan.kind == Return && Underflows(st) ==> a.bb.fn.group == 0
  {
    if plan.kind == Return then
      if Underflows(st) then
        OneFunction(st);
        Landing(ReturnPast(st, plan.src.value, a, skipDirect), false, plan.sp)
      else Landing(Unwind(st, plan.sp, plan.pops, skipDirect), false, plan.sp)
    else
      var u := Unwind(st, plan.sp, 0, skipDirect);
      var calls := plan.kind == Call && |u.frames| == |st.frames|;
      Landing(u, calls, if calls && plan.emulated && u.frames != [] then u.frames[|u.frames| - 1].sp else plan.sp)
  }

  /** The context of the new block. */
  function Placed(l: Landing, a: Arrival): State
    requires Inv(l.st) && (l.st.cxt == None ==> a.bb.fn.group == 0)
  {
    if (l.calls && !a.bb.fn.skip) || l.st.cxt == None then PushCxt(l.st, a.bb.fn) else l.st
  }

  /** The recursion level of the new block's function, counting the call that is about to be pushed. */
  function Level(st: State, l: Landing, a: Arrival, src: Option<Bbcc>, skipDirect: bool): int
    requires st.fns != [] && st.cxt.Some? && (l.calls ==> src.Some?)
  {
    var top := st.fns[|st.fns| - 1];
    Depth(st, top) +
      if l.calls && !a.bb.fn.skip && (!skipDirect || src.value.cxt.fn != st.cxt.value.fn) then 1 else 0
  }

  /** The cost centre of the new block. Levels beyond what the function wants told apart share the
      last one, and so does a level below zero: the counter is unsigned. */
  function Centre(st: State, l: Landing, a: Arrival, src: Option<Bbcc>, skipDirect: bool): (r: (Bbcc, State))
    requires st.fns != [] && st.cxt.Some? && (l.calls ==> src.Some?)
    ensures var top := st.fns[|st.fns| - 1]; r.0.rec == 0 || r.0.rec < top.recursions
  {
    var top := st.fns[|st.fns| - 1];
    if top.recursions <= 1 then (Bbcc(a.bb, st.cxt.value, 0), st)
    else
      var level := Level(st, l, a, src, skipDirect);
      if level == 0 then (Bbcc(a.bb, st.cxt.value, 0), st.(depths := st.depths[top := 1]))
      else if level < 0 || level > top.recursions then (Bbcc(a.bb, st.cxt.value, top.recursions - 1), st)
      else (Bbcc(a.bb, st.cxt.value, level - 1), st)
  }

  /** Who makes the call that is pushed. */
  function Caller(st: State, plan: Plan, skip: bool): (Bbcc, nat)
    requires plan.src.Some?
  {
    if !skip && st.nonskipped.Some? then (st.nonskipped.value, |st.nonskipped.value.block.cjmps|)
    else (plan.src.value, plan.passed)
  }

  /** A function that is put at the bottom of the function stack is not in a group: it is the first one,
      or is returned to from an unknown call. */
  predicate BottomFits(cpu: Cpu, a: Arrival)
    requires HasExit(cpu, a)
  {
    cpu.st.cxt == None || (PlanOf(cpu, a).kind == Return && Underflows(cpu.st)) ==> a.bb.fn.group == 0
  }

  /** What a step needs. */
  predicate Admissible(cpu: Cpu, a: Arrival) { HasExit(cpu, a) && BottomFits(cpu, a) }

  /** The assertion where the pop on a jump meets a skipped call: its caller is remembered. */
  predicate Asserted(cpu: Cpu, a: Arrival)
    requires HasExit(cpu, a)
  {
    PopsOnJump(cpu, a) && cpu.st.frames[|cpu.st.frames| - 1].jcc == None ==> cpu.st.nonskipped.Some?
  }

  lemma {:induction false} OneFunction(st: State)
    requires Inv(st) && st.cxt.Some? && Underflows(st)
    ensures |st.fns| == 1 && st.saved == None
  {}

  lemma {:induction false} UnderflowPoppable(st: State, cur: Bbcc, caller: Fn, unseen: Bbcc, lastDump: Cost,
                                             skipDirect: bool)
    requires st.saved == None && |st.fns| == 1 && caller.group == 0
    ensures Poppable(Underflow(st, cur, caller, unseen, lastDump, skipDirect))
  {
    hide ContextOf;
  }

  // ----- each part keeps the invariant

  lemma {:induction false} BaseInit(frames: seq<Frame>, top: nat)
    requires frames != []
    ensures var n := |frames| - 1;
      Base(frames, top) == Base(frames[..n], if frames[n].jcc.Some? then frames[n].fnSp else top)
    decreases |frames|
  {
    var n := |frames| - 1;
    if n > 0 && frames[0].jcc == None {
      assert frames[1..][..n - 1] == frames[..n][1..];
      BaseInit(frames[1..], top);
    }
  }

  lemma {:induction false} PopInv(st: State, skipDirect: bool)
    requires Inv(st) && st.frames != []
    ensures Poppable(st) && Inv(PopCall(st, skipDirect)) && PopCall(st, skipDirect).cxt.Some?
  {
    hide Base;
    BaseInit(st.frames, |st.fns|);
    PopLayered(st, skipDirect);
    PopRest(st, skipDirect);
    hide PopCall, Layered;
  }

  lemma {:induction false} PopRest(st: State, skipDirect: bool)
    requires Poppable(st)
    ensures var u, n := PopCall(st, skipDirect), |st.frames| - 1; var f := st.frames[n];
      && u.frames == st.frames[..n] && u.saved == None
      && if f.jcc == None then u.cxt == st.cxt && u.fns == st.fns else u.cxt == f.cxt && u.fns == st.fns[..f.fnSp]
  {
    hide Settle;
  }

  lemma {:induction false} UnwindInv(st: State, sp: nat, minpops: int, skipDirect: bool)
    requires Inv(st)
    ensures var u := Unwind(st, sp, minpops, skipDirect);
      && Inv(u) && (st.cxt.Some? ==> u.cxt.Some?)
      && (|u.frames| == |st.frames| ==> u == st && !Leaves(st, sp, minpops))
    decreases |st.frames|
  {
    hide Inv, PopCall, Leaves;
    assert Layered(st) by { InvLayered(st); }
    if Leaves(st, sp, minpops) {
      LeavesSome(st, sp, minpops);
      PopLayered(st, skipDirect);
      PopInv(st, skipDirect);
      UnwindInv(PopCall(st, skipDirect), sp, minpops - 1, skipDirect);
    }
  }

  lemma {:induction false} InvLayered(st: State)
    requires Inv(st)
    ensures Layered(st) && Descending(st.frames)
  {}

  lemma {:induction false} LeavesSome(st: State, sp: nat, minpops: int)
    requires Leaves(st, sp, minpops)
    ensures st.frames != []
  {}

  /** An unknown caller leaves the frames as they were, with the caller the only function, one
      activation more of it, and one fewer of the function that was left. */
  lemma {:induction false} UnderflowResult(st: State, cur: Bbcc, caller: Fn, unseen: Bbcc, lastDump: Cost,
                                           skipDirect: bool)
    requires st.saved == None && |st.fns| == 1 && caller.group == 0
    ensures var u := Underflow(st, cur, caller, unseen, lastDump, skipDirect);
      && Poppable(u)
      && var r := PopCall(u, skipDirect);
      && r.frames == st.frames && r.saved == None && r.nonskipped == None
      && r.fns == [caller] && r.cxt == Some(ContextOf([caller]))
      && forall g: Fn ::
        Depth(r, g) == Depth(st, g) + (if g == caller then 1 else 0) - (if g == cur.cxt.fn then 1 else 0)
  {
    hide ContextOf, Settle, PushCall, PopCall, Depth;
    var t := Reentered(st, cur, caller);
    var c := Invocation(cur.cxt.fn, unseen, 0, cur, MAX_ADDR, false);
    var e, u := Enter(t, c, skipDirect), Underflow(st, cur, caller, unseen, lastDump, skipDirect);
    EnterLeaves(t, c, skipDirect);
    assert u == e.(frames := u.frames);
    RedatedRestores(e, u, lastDump);
    hide Underflow, Enter, Restored;
    ReturnRestores(t, c, skipDirect, u);
    PopLeaves(u, skipDirect);
    RestoredParts(t, PopCall(u, skipDirect));
    UnderflowDepths(st, cur, caller);
  }

  lemma {:induction false} RedatedRestores(e: State, u: State, lastDump: Cost)
    requires e.frames != []
    requires u == e.(frames := e.frames[|e.frames| - 1 := e.frames[|e.frames| - 1].(enterCost := lastDump)])
    ensures Restored(e, u) && u.frames[..|e.frames| - 1] == e.frames[..|e.frames| - 1]
  {}

  lemma {:induction false} RestoredParts(a: State, b: State)
    requires Restored(a, b)
    ensures b.saved == a.saved && b.fns == a.fns && b.cxt == a.cxt && b.nonskipped == a.nonskipped
    ensures forall f: Fn :: Depth(b, f) == Depth(a, f)
  {}

  lemma {:induction false} UnderflowDepths(st: State, cur: Bbcc, caller: Fn)
    requires st.saved == None && caller.group == 0
    ensures var t := Reentered(st, cur, caller);
      forall g: Fn :: Depth(t, g) == Depth(st, g) + (if g == caller then 1 else 0) - (if g == cur.cxt.fn then 1 else 0)
  {
    hide ContextOf;
  }

  lemma {:induction false} LandInv(st: State, plan: Plan, a: Arrival, skipDirect: bool)
    requires Inv(st) && (plan.kind == Return ==> plan.src.Some? && st.cxt.Some?)
    requires plan.kind == Return && Underflows(st) ==> a.bb.fn.group == 0
    ensures var l := Land(st, plan, a, skipDirect);
      && Inv(l.st) && (st.cxt.Some? ==> l.st.cxt.Some?)
      && (l.calls ==> l.st == st && (st.frames != [] ==> l.sp <= st.frames[|st.frames| - 1].sp))
  {
    hide Inv, Underflow, Unwind, PopCall, Underflows;
    if plan.kind == Return {
      if Underflows(st) {
        OneFunction(st);
        hide Poppable;
        UnderflowResult(st, plan.src.value, a.bb.fn, a.unseen, a.lastDump, skipDirect);
        var u := Underflow(st, plan.src.value, a.bb.fn, a.unseen, a.lastDump, skipDirect);
        RestartInv(st, PopCall(u, skipDirect));
      } else {
        UnwindInv(st, plan.sp, plan.pops, skipDirect);
      }
    } else {
      UnwindInv(st, plan.sp, 0, skipDirect);
    }
  }

  lemma {:induction false} RestartInv(st: State, r: State)
    requires Inv(st) && |st.fns| == 1 && r.frames == st.frames && r.saved == None && |r.fns| == 1 && r.cxt.Some?
    ensures Inv(r)
  {}

  lemma {:induction false} PlannedInv(cpu: Cpu, a: Arrival, skipDirect: bool)
    requires CpuInv(cpu) && HasExit(cpu, a)
    ensures var p, s := PlanOf(cpu, a), Planned(cpu, a, skipDirect);
      && Inv(s) && (cpu.st.cxt.Some? <==> s.cxt.Some?)
      && (p.src.Some? ==> s.cxt.Some? && p.passed <= |p.src.value.block.cjmps|)
      && (p.kind == Return ==> s == cpu.st && p.src.Some? && (Underflows(s) || p.pops > 0))
      && (p.kind == Call ==> p.src.Some?)
  {
    hide PopCall, Base, Descending, PopCount;
    if PopsOnJump(cpu, a) && cpu.st.frames[|cpu.st.frames| - 1].jcc.Some? {
      PopInv(cpu.st, skipDirect);
      hide Layered;
      assert ArcsInBounds(cpu.st.frames);
    }
  }

  /** Where a call can be pushed: the context it leaves is saved if it is not skipped. */
  ghost predicate Entering(l: Landing, s: State, skip: bool) {
    && s.frames == l.st.frames && s.nonskipped == l.st.nonskipped && s.cxt.Some? && s.fns != []
    && |l.st.fns| <= |s.fns|
    && (if l.calls && !skip then l.st.cxt.Some? && s.saved == Some((l.st.cxt.value, |l.st.fns|))
        else s.saved == None && |s.fns| == if l.st.cxt == None then 1 else |l.st.fns|)
  }

  lemma {:induction false} PlacedEnters(l: Landing, a: Arrival)
    requires Inv(l.st) && (l.st.cxt == None ==> a.bb.fn.group == 0) && (l.calls ==> l.st.cxt.Some?)
    ensures Entering(l, Placed(l, a), a.bb.fn.skip)
  {
    hide Layered, Descending, ArcsInBounds, Base, ContextOf;
  }

  lemma {:induction false} CentreEnters(s: State, l: Landing, a: Arrival, src: Option<Bbcc>, skip: bool,
                                        skipDirect: bool)
    requires Entering(l, s, skip) && (l.calls ==> src.Some?)
    ensures Entering(l, Centre(s, l, a, src, skipDirect).1, skip)
  {
    hide Level;
  }

  lemma {:induction false} StayInv(l: Landing, s: State, skip: bool)
    requires Inv(l.st) && Entering(l, s, skip) && !l.calls
    ensures Inv(s)
  {}

  lemma {:induction false} PushInv(l: Landing, s: State, src: Bbcc, jmp: nat, dst: Bbcc, skip: bool, skipDirect: bool)
    requires Inv(l.st) && Entering(l, s, skip) && l.calls && l.st.cxt.Some? && Pushable(s, src, jmp, skip)
    requires l.st.frames != [] ==> l.sp <= l.st.frames[|l.st.frames| - 1].sp
    ensures Inv(PushCall(s, src, jmp, dst, l.sp, skip, skipDirect))
    ensures PushCall(s, src, jmp, dst, l.sp, skip, skipDirect).cxt.Some?
  {
    hide Base, Layered, Descending, ArcsInBounds;
    var r, n := PushCall(s, src, jmp, dst, l.sp, skip, skipDirect), |s.frames|;
    var f := r.frames[n];
    assert r.frames == l.st.frames + [f];
    PushedFrame(l.st, r, f);
    BaseInit(r.frames, |r.fns|);
    assert r.frames[..n] == l.st.frames;
  }

  lemma {:induction false} PushedFrame(b: State, r: State, f: Frame)
    requires Inv(b) && r.frames == b.frames + [f] && |b.fns| <= |r.fns|
    requires f.jcc.Some? ==> f.cxt.Some? && 0 < f.fnSp == |b.fns| && f.jcc.value.jmp <= |f.jcc.value.src.block.cjmps|
    requires b.frames != [] ==> f.sp <= b.frames[|b.frames| - 1].sp
    ensures Layered(r) && Descending(r.frames) && ArcsInBounds(r.frames)
  {
    hide Base;
  }

  /** Whether a call from `plan` can be pushed after landing. */
  predicate CanCall(plan: Plan, l: Landing) {
    && plan.src.Some? && plan.passed <= |plan.src.value.block.cjmps| && l.st.cxt.Some?
    && (l.st.frames != [] ==> l.sp <= l.st.frames[|l.st.frames| - 1].sp)
  }

  function Landed(cpu: Cpu, a: Arrival, skipDirect: bool): (r: Landing)
    requires CpuInv(cpu) && Admissible(cpu, a)
    ensures Inv(r.st) && (r.calls ==> CanCall(PlanOf(cpu, a), r)) && (r.st.cxt == None ==> a.bb.fn.group == 0)
  {
    hide Inv, Land, Planned, PlanOf, Underflows, PopsOnJump, Layered, Descending;
    InvLayered(cpu.st);
    PlannedInv(cpu, a, skipDirect);
    var plan, st0 := PlanOf(cpu, a), Planned(cpu, a, skipDirect);
    GroupsFit(cpu, a, st0, plan);
    LandInv(st0, plan, a, skipDirect);
    CallsAreCalls(st0, plan, a, skipDirect);
    Land(st0, plan, a, skipDirect)
  }

  /** The step up to the push of a call: the cost centre, and the state to push on. */
  function Approach(cpu: Cpu, a: Arrival, skipDirect: bool): (r: (Landing, Bbcc, State))
    requires CpuInv(cpu) && Admissible(cpu, a)
    ensures r.0 == Landed(cpu, a, skipDirect) && Entering(r.0, r.2, a.bb.fn.skip) && r.1.block == a.bb
  {
    hide CpuInv, Inv, Landed, PlanOf, Placed, Entering, ContextOf, Level;
    var l := Landed(cpu, a, skipDirect);
    PlacedEnters(l, a);
    var st1 := Placed(l, a);
    EnteringHas(l, st1, a.bb.fn.skip);
    var src := PlanOf(cpu, a).src;
    CentreEnters(st1, l, a, src, a.bb.fn.skip, skipDirect);
    var c := Centre(st1, l, a, src, skipDirect);
    (l, c.0, c.1)
  }

  lemma {:induction false} GroupsFit(cpu: Cpu, a: Arrival, st0: State, plan: Plan)
    requires CpuInv(cpu) && Admissible(cpu, a) && Inv(st0) && (cpu.st.cxt.Some? <==> st0.cxt.Some?)
    requires plan == PlanOf(cpu, a) && (plan.kind == Return ==> st0 == cpu.st)
    ensures (plan.kind == Return && Underflows(st0)) || st0.cxt == None ==> a.bb.fn.group == 0
  {}

  /** The plan of any block that is reached by an exit, and when the functions that it pushes fit. */
  lemma {:induction false} Prepared(cpu: Cpu, a: Arrival, skipDirect: bool) returns (plan: Plan, st0: State)
    requires CpuInv(cpu) && HasExit(cpu, a)
    ensures Layered(cpu.st) && HasExit(cpu, a)
    ensures plan == PlanOf(cpu, a) && st0 == Planned(cpu, a, skipDirect) && Inv(st0)
    ensures plan.kind == Return ==>
      plan.src.Some? && st0.cxt.Some? && st0 == cpu.st && (Underflows(st0) || plan.pops > 0)
    ensures if cpu.st.cxt == None then st0 == cpu.st else st0.cxt.Some?
    ensures Admissible(cpu, a) <==> BottomFits(cpu, a)
    ensures BottomFits(cpu, a) <==>
      && (plan.kind == Return && Underflows(st0) ==> a.bb.fn.group == 0)
      && (st0.cxt == None ==> a.bb.fn.group == 0)
  {
    InvLayered(cpu.st);
    PlannedInv(cpu, a, skipDirect);
    NothingPopped(cpu, a, skipDirect);
    hide Inv, PlanOf, Underflows, Planned, Layered, Descending;
    plan, st0 := PlanOf(cpu, a), Planned(cpu, a, skipDirect);
  }

  lemma {:induction false} NothingPopped(cpu: Cpu, a: Arrival, skipDirect: bool)
    requires CpuInv(cpu) && HasExit(cpu, a) && Layered(cpu.st)
    ensures cpu.st.cxt == None ==> Planned(cpu, a, skipDirect) == cpu.st
  {
    hide Layered, Emulated;
  }

  /** Nothing is unwound before the first function. */
  lemma {:induction false} LandsBefore(st: State, plan: Plan, a: Arrival, skipDirect: bool)
    requires Inv(st) && (plan.kind == Return ==> plan.src.Some? && st.cxt.Some?)
    requires plan.kind == Return && Underflows(st) ==> a.bb.fn.group == 0
    ensures st.cxt == None ==> Land(st, plan, a, skipDirect).st == st
    ensures st.cxt.Some? ==> Land(st, plan, a, skipDirect).st.cxt.Some?
    ensures Inv(Land(st, plan, a, skipDirect).st)
  {
    LandInv(st, plan, a, skipDirect);
    hide Layered, Descending, ArcsInBounds, Base, Underflow, PopCall, Underflows;
  }

  lemma {:induction false} CallsAreCalls(st: State, plan: Plan, a: Arrival, skipDirect: bool)
    requires Inv(st) && (plan.kind == Return ==> plan.src.Some? && st.cxt.Some?)
    requires plan.kind == Return && Underflows(st) ==> a.bb.fn.group == 0
    ensures Land(st, plan, a, skipDirect).calls ==> plan.kind == Call
  {
    hide Inv, Underflow, Unwind, PopCall, Underflows;
  }

  lemma {:induction false} InBetween(cpu: Cpu, a: Arrival)
    requires Admissible(cpu, a)
    ensures HasExit(cpu, a)
    ensures forall s: State, c: Option<Bbcc> :: Inv(s) && s.cxt.Some? ==> CpuInv(Cpu(s, c))
  {}

  lemma {:induction false} CallerPushable(l: Landing, s: State, plan: Plan, skip: bool)
    requires CanCall(plan, l) && Entering(l, s, skip) && l.calls
    ensures Pushable(s, Caller(s, plan, skip).0, Caller(s, plan, skip).1, skip)
    ensures l.st.cxt.Some? && (l.st.frames != [] ==> l.sp <= l.st.frames[|l.st.frames| - 1].sp)
  {}

  /** The whole step, beyond the assertion where a jump is taken for a call. None of the assertions
      after it fails, and the stack pointers of the shadow stack never increase toward the top. */
  function Step(cpu: Cpu, a: Arrival, skipDirect: bool): (r: Cpu)
    requires CpuInv(cpu) && Admissible(cpu, a)
    ensures CpuInv(r) && r.bbcc.Some? && r.bbcc.value.block == a.bb
  {
    hide *;
    var p := Approach(cpu, a, skipDirect);
    var skip := a.bb.fn.skip;
    EnteringHas(p.0, p.2, skip);
    InBetween(cpu, a);
    if p.0.calls then
      var from := Caller(p.2, PlanOf(cpu, a), skip);
      CallerPushable(p.0, p.2, PlanOf(cpu, a), skip);
      PushInv(p.0, p.2, from.0, from.1, p.1, skip, skipDirect);
      Cpu(PushCall(p.2, from.0, from.1, p.1, p.0.sp, skip, skipDirect), Some(p.1))
    else
      StayInv(p.0, p.2, skip);
      Cpu(p.2, Some(p.1))
  }

  /** The parts of a step, one after the other. */
  lemma {:induction false} StepParts(cpu: Cpu, a: Arrival, skipDirect: bool)
      returns (plan: Plan, st0: State, l: Landing, st1: State, c: Bbcc, st2: State)
    requires CpuInv(cpu) && Admissible(cpu, a)
    ensures Layered(cpu.st) && HasExit(cpu, a)
    ensures plan == PlanOf(cpu, a) && st0 == Planned(cpu, a, skipDirect)
    ensures Inv(st0) && (plan.kind == Return ==> plan.src.Some? && st0.cxt.Some?)
    ensures plan.kind == Return ==> if Underflows(st0) then a.bb.fn.group == 0 else plan.pops > 0
    ensures l == Land(st0, plan, a, skipDirect)
    ensures Inv(l.st) && (l.st.cxt == None ==> a.bb.fn.group == 0) && (l.calls ==> plan.src.Some?)
    ensures st1 == Placed(l, a) && st1.fns != [] && st1.cxt.Some?
    ensures (c, st2) == Centre(st1, l, a, plan.src, skipDirect)
    ensures Step(cpu, a, skipDirect).bbcc == Some(c)
    ensures l.calls ==>
      Pushable(st2, Caller(st2, plan, a.bb.fn.skip).0, Caller(st2, plan, a.bb.fn.skip).1, a.bb.fn.skip)
    ensures Step(cpu, a, skipDirect).st == if l.calls then
        PushCall(st2, Caller(st2, plan, a.bb.fn.skip).0, Caller(st2, plan, a.bb.fn.skip).1, c, l.sp, a.bb.fn.skip,
          skipDirect)
      else st2
  {
    hide Inv, Land, Planned, PlanOf, Placed, Centre, PushCall, Entering, Underflows, PopsOnJump, Layered, Descending,
      ContextOf;
    InvLayered(cpu.st);
    PlannedInv(cpu, a, skipDirect);
    plan, st0 := PlanOf(cpu, a), Planned(cpu, a, skipDirect);
    GroupsFit(cpu, a, st0, plan);
    l := Landed(cpu, a, skipDirect);
    PlacedEnters(l, a);
    st1 := Placed(l, a);
    EnteringHas(l, st1, a.bb.fn.skip);
    EnteringHas(l, Approach(cpu, a, skipDirect).2, a.bb.fn.skip);
    c, st2 := Approach(cpu, a, skipDirect).1, Approach(cpu, a, skipDirect).2;
  }

  lemma {:induction false} EnteringHas(l: Landing, s: State, skip: bool)
    requires Entering(l, s, skip)
    ensures s.cxt.Some? && s.fns != [] && (l.calls && !skip ==> s.saved.Some?)
  {}

  /** A call, and a return from the top frame, are what they seem. */
  lemma {:induction false} NotEmulated(cpu: Cpu, a: Arrival, skipDirect: bool)
    requires Layered(cpu.st) && cpu.bbcc.Some? && a.passed <= |cpu.bbcc.value.block.cjmps|
    requires ExitKind(cpu, a) == Call || (ExitKind(cpu, a) == Return && PopCount(cpu.st.frames, a.sp, a.bb.addr) > 0)
    ensures PlanOf(cpu, a) ==
      Plan(ExitKind(cpu, a), PopCount(cpu.st.frames, a.sp, a.bb.addr), false, cpu.bbcc, a.passed, a.sp)
    ensures Planned(cpu, a, skipDirect) == cpu.st && !PopsOnJump(cpu, a)
  {
    hide PopCount, Layered;
  }

  // ----- whole runs

  ghost predicate Runs(cpu: Cpu, arrivals: seq<Arrival>, skipDirect: bool)
    requires CpuInv(cpu)
    decreases |arrivals|
  {
    arrivals == []
    || (Admissible(cpu, arrivals[0]) && Runs(Step(cpu, arrivals[0], skipDirect), arrivals[1..], skipDirect))
  }

  ghost function RunBlocks(cpu: Cpu, arrivals: seq<Arrival>, skipDirect: bool): (r: Cpu)
    requires CpuInv(cpu) && Runs(cpu, arrivals, skipDirect)
    ensures CpuInv(r)
    decreases |arrivals|
  {
    if arrivals == [] then cpu else RunBlocks(Step(cpu, arrivals[0], skipDirect), arrivals[1..], skipDirect)
  }

  function NewThread(events: nat): Cpu {
    Cpu(State([], None, [], None, None, map[], true, seq(events, _ => 0), Books(map[], map[], map[])), None)
  }

  lemma {:induction false} NewThreadInv(events: nat)
    ensures CpuInv(NewThread(events))
  {}

  /** A thread can start exactly with a function that is in no group. */
  lemma {:induction false} StartsUngrouped(events: nat, a: Arrival)
    ensures HasExit(NewThread(events), a) && Asserted(NewThread(events), a)
    ensures Admissible(NewThread(events), a) <==> a.bb.fn.group == 0
    ensures a.bb.fn.group > 0 ==> !GroupFits(NewThread(events).st, a.bb.fn)
  {}

  const GROUPED := Fn(1, 1, 0, 1, false, false, false)

  /** A group of the function that should be below is looked at, and there is no such function. */
  lemma {:induction false} GroupCanFail(unseen: Bbcc)
    ensures var cpu, bb := NewThread(0), Block(1000, GROUPED, true, 0, 0, [], Exit(NoJump, 1010));
      var a := Arrival(bb, 100, 0, unseen, []);
      CpuInv(cpu) && HasExit(cpu, a) && !BottomFits(cpu, a) && cpu.st.fns == [] && a.bb.fn.group > 0
  {
    NewThreadInv(0);
  }

  /** Over every run of a thread without signals, at every block boundary, the stack pointers do not
      increase toward the top, and only the first function can be left without a known caller. */
  lemma {:induction false} StackPointersDescend(cpu: Cpu, arrivals: seq<Arrival>, skipDirect: bool)
    requires CpuInv(cpu) && Runs(cpu, arrivals, skipDirect)
    ensures var st := RunBlocks(cpu, arrivals, skipDirect).st;
      && (forall i, j :: 0 <= i < j < |st.frames| ==> st.frames[i].sp >= st.frames[j].sp)
      && (st.frames == [] ==> |st.fns| <= 1)
  {
    hide RunBlocks, Runs, Layered;
    assert Inv(RunBlocks(cpu, arrivals, skipDirect).st);
  }
}
