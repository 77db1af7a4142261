/** A call and its return, each seen only as a jump between two basic blocks. */
module CallReturn {
  import opened Wrappers
  import opened CallState
  import opened CallUnwind
  import opened CallRuns
  import opened BlockSetup

  /** The real stack is at or above every frame, as it is after any step that left some. */
  predicate Above(st: State, sp: nat) {
    st.frames == [] || st.frames[|st.frames| - 1].sp >= sp
  }

  /** What a call puts on the stack: a frame that leads back to where the call was made. */
  ghost predicate PutsFrame(st: State, r: State, sp: nat, ret: nat) {
    && Ready(st) && Ready(r) && |r.frames| == |st.frames| + 1 && r.frames == st.frames + [r.frames[|st.frames|]]
    && var f := r.frames[|st.frames|];
       && f.sp == sp && f.retAddr == ret && f.nonskipped == st.nonskipped
       && if f.jcc == None then r.fns == st.fns && r.cxt == st.cxt
          else f.cxt == st.cxt && f.fnSp == |st.fns| <= |r.fns| && r.fns[..|st.fns|] == st.fns
  }

  /** Where the call by exit `a.passed` of the last block, or by the function last not skipped, is to
      return to. */
  function ReturnPoint(cpu: Cpu, a: Arrival): nat
    requires cpu.bbcc.Some? && HasExit(cpu, a)
  {
    if !a.bb.fn.skip && cpu.st.nonskipped.Some? then
      ReturnAddress(cpu.st.nonskipped.value, |cpu.st.nonskipped.value.block.cjmps|)
    else ReturnAddress(cpu.bbcc.value, a.passed)
  }

  /** Entering `f` leaves the function stack with one function. */
  predicate StaysAlone(st: State, f: Fn) {
    |st.fns| == 1 && (f.skip || st.fns[0] == f || (f.group > 0 && st.fns[0].group == f.group))
  }

  /** The state in which the block of a call looks for its cost centre. */
  function Reached(st: State, f: Fn): (r: State)
    requires Ready(st)
    ensures r.cxt.Some? && r.fns != []
  {
    if f.skip then st else CallState.PushCxt(st, f)
  }

  /** An active function that wants its recursions told apart, but was counted zero times, counts as
      active once from then on. */
  predicate Recounts(st: State, n: int)
    requires st.fns != []
  {
    var top := st.fns[|st.fns| - 1];
    top.recursions > 1 && Depth(st, top) + n == 0
  }

  /** What the block of a call adds to the activations of its function before it looks at them. */
  function OneMore(cpu: Cpu, call: Arrival, skipDirect: bool): (n: int)
    requires Ready(cpu.st) && cpu.bbcc.Some?
    ensures 0 <= n <= 1
  {
    var s := Reached(cpu.st, call.bb.fn);
    if !call.bb.fn.skip && (!skipDirect || cpu.bbcc.value.cxt.fn != s.cxt.value.fn) then 1 else 0
  }

  /** The activations that the return of a frame takes off again. */
  function FrameWeight(f: Frame, g: Fn, skipDirect: bool): int {
    match f.jcc
    case None => 0
    case Some(j) => Weight(false, j.src, j.dst, g, skipDirect)
  }

  ghost predicate SameDepths(s: State, r: State) {
    forall g: Fn :: Depth(r, g) == Depth(s, g)
  }

  /** `r` has the numbers of activations of `s`, with the function on top counted anew if need be. */
  ghost predicate Recounted(s: State, r: State, n: int)
    requires s.fns != []
  {
    forall g: Fn :: Depth(r, g) == if Recounts(s, n) && g == s.fns[|s.fns| - 1] then 1 else Depth(s, g)
  }

  /** And here with those of frame `f` on top. */
  ghost predicate DepthsWith(s: State, r: State, f: Frame, skipDirect: bool) {
    forall g: Fn :: Depth(r, g) == Depth(s, g) + FrameWeight(f, g, skipDirect)
  }

  lemma {:induction false} CentreKeeps(s: State, l: Landing, a: Arrival, src: Option<Bbcc>, skipDirect: bool)
    requires s.fns != [] && s.cxt.Some? && (l.calls ==> src.Some?)
    ensures var r := Centre(s, l, a, src, skipDirect).1; r == s.(depths := r.depths)
  {
    hide Level;
  }

  lemma {:induction false} CentreDepths(s: State, l: Landing, a: Arrival, src: Option<Bbcc>, skipDirect: bool)
    requires s.fns != [] && s.cxt.Some? && (l.calls ==> src.Some?)
    ensures var n := if l.calls && !a.bb.fn.skip && (!skipDirect || src.value.cxt.fn != s.cxt.value.fn) then 1 else 0;
      Recounted(s, Centre(s, l, a, src, skipDirect).1, n)
  {}

  lemma {:induction false} PushDepths(s: State, src: Bbcc, jmp: nat, dst: Bbcc, sp: nat, skip: bool, skipDirect: bool)
    requires Pushable(s, src, jmp, skip)
    ensures var r, n := PushCall(s, src, jmp, dst, sp, skip, skipDirect), |s.frames|;
      |r.frames| == n + 1 && DepthsWith(s, r, r.frames[n], skipDirect)
  {
    hide ReturnAddress;
  }

  lemma {:induction false} StaysUnwound(st: State, sp: nat, skipDirect: bool)
    requires Layered(st) && Above(st, sp)
    ensures Unwind(st, sp, 0, skipDirect) == st
  {}

  /** The step into a function. */
  lemma {:induction false} CallEnters(cpu: Cpu, a: Arrival, skipDirect: bool)
    requires CpuInv(cpu) && Admissible(cpu, a) && cpu.bbcc.Some? && ExitKind(cpu, a) == Call && Above(cpu.st, a.sp)
    ensures var r := Step(cpu, a, skipDirect).st;
      PutsFrame(cpu.st, r, a.sp, ReturnPoint(cpu, a)) && (|r.fns| == 1 <==> StaysAlone(cpu.st, a.bb.fn))
  {
    CallSteps(cpu, a, skipDirect);
    hide PlanOf, Planned, Land, Layered, Inv, Step, Centre, CallState.PushCxt, PushCall, ReturnAddress, StaysAlone;
    var plan, st0, l, st1, c, st2 := StepParts(cpu, a, skipDirect);
    CentreKeeps(st1, l, a, plan.src, skipDirect);
    var skip := a.bb.fn.skip;
    if !skip {
      PushCxtLeaves(cpu.st, a.bb.fn);
    }
    AloneAfter(cpu.st, a.bb.fn);
    var from := Caller(st2, plan, skip);
    PushPuts(cpu.st, st2, from.0, from.1, c, a.sp, skip, skipDirect);
  }

  /** What the step into a function does to the numbers of activations. */
  lemma {:induction false} CallDepths(cpu: Cpu, a: Arrival, skipDirect: bool) returns (s: State)
    requires CpuInv(cpu) && Admissible(cpu, a) && cpu.bbcc.Some? && ExitKind(cpu, a) == Call && Above(cpu.st, a.sp)
    ensures HasExit(cpu, a) && Ready(cpu.st) && cpu.st.fns != []
    ensures Recounted(Reached(cpu.st, a.bb.fn), s, OneMore(cpu, a, skipDirect))
    ensures var r := Step(cpu, a, skipDirect).st;
      r.frames != [] && DepthsWith(s, r, r.frames[|r.frames| - 1], skipDirect)
  {
    CallSteps(cpu, a, skipDirect);
    hide *;
    var plan, st0, l, st1, c, st2 := StepParts(cpu, a, skipDirect);
    ReachedBy(cpu, l, plan, a, skipDirect);
    CentreDepths(st1, l, a, plan.src, skipDirect);
    var from := Caller(st2, plan, a.bb.fn.skip);
    PushDepths(st2, from.0, from.1, c, l.sp, a.bb.fn.skip, skipDirect);
    s := st2;
  }

  lemma {:induction false} CallSteps(cpu: Cpu, a: Arrival, skipDirect: bool)
    requires CpuInv(cpu) && Admissible(cpu, a) && cpu.bbcc.Some? && ExitKind(cpu, a) == Call && Above(cpu.st, a.sp)
    ensures Layered(cpu.st) && HasExit(cpu, a) && Ready(cpu.st) && cpu.st.fns != []
    ensures PlanOf(cpu, a).src == cpu.bbcc && Planned(cpu, a, skipDirect) == cpu.st
    ensures Inv(cpu.st) && PlanOf(cpu, a).kind != Return
    ensures Land(cpu.st, PlanOf(cpu, a), a, skipDirect) == Landing(cpu.st, true, a.sp)
  {
    InvLayered(cpu.st);
    InvUsable(cpu.st);
    NotEmulated(cpu, a, skipDirect);
    StaysUnwound(cpu.st, a.sp, skipDirect);
    LandsCalling(cpu.st, PlanOf(cpu, a), a, skipDirect);
    hide PlanOf, Planned, PopsOnJump, PopCount, Land, Layered, Descending, Inv;
  }

  lemma {:induction false} ReachedBy(cpu: Cpu, l: Landing, plan: Plan, a: Arrival, skipDirect: bool)
    requires Ready(cpu.st) && Inv(cpu.st) && l == Landing(cpu.st, true, a.sp) && plan.src == cpu.bbcc && cpu.bbcc.Some?
    ensures l.st.cxt.Some? && l.calls && Placed(l, a) == Reached(cpu.st, a.bb.fn)
    ensures var s := Reached(cpu.st, a.bb.fn);
      OneMore(cpu, a, skipDirect) ==
        if l.calls && !a.bb.fn.skip && (!skipDirect || plan.src.value.cxt.fn != s.cxt.value.fn) then 1 else 0
  {
    hide Inv, CallState.PushCxt;
  }

  lemma {:induction false} ReachedDepths(st: State, f: Fn)
    requires Ready(st)
    ensures SameDepths(st, Reached(st, f))
  {
    PushCxtLeaves(st, f);
  }

  lemma {:induction false} AloneAfter(st: State, f: Fn)
    requires Ready(st)
    ensures |(if f.skip then st else CallState.PushCxt(st, f)).fns| == 1 <==> StaysAlone(st, f)
  {
    hide ContextOf;
  }

  lemma {:induction false} InvUsable(st: State)
    requires Inv(st)
    ensures st.saved == None && (st.cxt.Some? ==> Ready(st))
  {}

  lemma {:induction false} LandsCalling(st: State, plan: Plan, a: Arrival, skipDirect: bool)
    requires Inv(st) && plan.kind == Call && !plan.emulated && Layered(st) && Unwind(st, plan.sp, 0, skipDirect) == st
    ensures Land(st, plan, a, skipDirect) == Landing(st, true, plan.sp)
  {
    hide Inv, Unwind, Layered;
  }

  lemma {:induction false} PushPuts(st: State, s: State, src: Bbcc, jmp: nat, dst: Bbcc, sp: nat, skip: bool,
                                    skipDirect: bool)
    requires Ready(st) && s.cxt.Some? && s.frames == st.frames && s.nonskipped == st.nonskipped
    requires Pushable(s, src, jmp, skip)
    requires if skip then s.saved == None && s.fns == st.fns && s.cxt == st.cxt
             else s.saved == Some((st.cxt.value, |st.fns|)) && |st.fns| <= |s.fns| && s.fns[..|st.fns|] == st.fns
    ensures var r := PushCall(s, src, jmp, dst, sp, skip, skipDirect);
      PutsFrame(st, r, sp, ReturnAddress(src, jmp)) && r.fns == s.fns
  {
    hide ReturnAddress;
  }

  /** A call, of a skipped function or not, and the next return that leaves its stack frame, or that
      leaves the stack pointer alone but goes to the return address: all frames, the context, the
      function stack and the skipped caller are as before if and only if the call did not leave the
      first known function alone on the function stack. If it did, the return is taken for one from
      an unknown call, and the frame of the call stays. */
  lemma {:induction false} ReturnUndoesCall(cpu: Cpu, call: Arrival, ret: Arrival, skipDirect: bool)
    requires CpuInv(cpu) && Admissible(cpu, call) && cpu.bbcc.Some? && ExitKind(cpu, call) == Call
    requires Above(cpu.st, call.sp) && Above(cpu.st, ret.sp)
    requires var c := Step(cpu, call, skipDirect); Admissible(c, ret) && ExitKind(c, ret) == Return
    requires ret.sp > call.sp || (ret.sp == call.sp && ret.bb.addr == ReturnPoint(cpu, call))
    ensures var c := Step(cpu, call, skipDirect).st; var r := Step(Step(cpu, call, skipDirect), ret, skipDirect).st;
      && (r.frames == cpu.st.frames && r.cxt == cpu.st.cxt && r.fns == cpu.st.fns && r.nonskipped == cpu.st.nonskipped
          <==> !StaysAlone(cpu.st, call.bb.fn))
      && (StaysAlone(cpu.st, call.bb.fn) ==> r.frames == c.frames && |r.frames| == |cpu.st.frames| + 1)
  {
    CallEnters(cpu, call, skipDirect);
    var c := Step(cpu, call, skipDirect);
    hide Step, StaysAlone, ReturnPoint;
    if |c.st.fns| == 1 {
      ReturnForgets(c, ret, skipDirect);
    } else {
      ReturnLeaves(cpu.st, c, call.sp, ReturnPoint(cpu, call), ret, skipDirect);
    }
  }

  lemma {:induction false} ReturnDepths(st: State, c: Cpu, sp: nat, addr: nat, ret: Arrival, skipDirect: bool)
    requires CpuInv(c) && c.bbcc.Some? && PutsFrame(st, c.st, sp, addr) && Above(st, ret.sp)
    requires Admissible(c, ret) && ExitKind(c, ret) == Return && |c.st.fns| != 1
    requires ret.sp > sp || (ret.sp == sp && ret.bb.addr == addr)
    ensures Poppable(c.st) && PopCall(c.st, skipDirect).fns == st.fns != []
    ensures Recounted(PopCall(c.st, skipDirect), Step(c, ret, skipDirect).st, 0)
  {
    ReturnSteps(st, c, sp, addr, ret, skipDirect);
    hide *;
    var plan, st0, l, st1, c1, st2 := StepParts(c, ret, skipDirect);
    StaysPlaced(l, ret);
    CentreDepths(st1, l, ret, plan.src, skipDirect);
  }

  lemma {:induction false} StaysPlaced(l: Landing, a: Arrival)
    requires Inv(l.st) && !l.calls && l.st.cxt.Some?
    ensures Placed(l, a) == l.st
  {}

  lemma {:induction false} ReturnSteps(st: State, c: Cpu, sp: nat, addr: nat, ret: Arrival, skipDirect: bool)
    requires CpuInv(c) && c.bbcc.Some? && PutsFrame(st, c.st, sp, addr) && Above(st, ret.sp)
    requires Admissible(c, ret) && ExitKind(c, ret) == Return && |c.st.fns| != 1
    requires ret.sp > sp || (ret.sp == sp && ret.bb.addr == addr)
    ensures HasExit(c, ret) && Layered(c.st) && Planned(c, ret, skipDirect) == c.st && Inv(c.st) && c.st.cxt.Some?
    ensures PlanOf(c, ret).kind == Return && PlanOf(c, ret).src.Some? && !Underflows(c.st)
    ensures Poppable(c.st) && st.fns != []
    ensures var u := PopCall(c.st, skipDirect);
      && Land(c.st, PlanOf(c, ret), ret, skipDirect) == Landing(u, false, ret.sp)
      && u.frames == st.frames && u.cxt == st.cxt && u.cxt.Some? && u.fns == st.fns && u.nonskipped == st.nonskipped
  {
    InvLayered(c.st);
    ReturnCounted(st, c, sp, addr, ret);
    NotEmulated(c, ret, skipDirect);
    PopsOne(st, c.st, sp, addr, ret.sp, skipDirect);
    hide PlanOf, Planned, PopsOnJump, PopCount, Layered, Descending, Inv, Unwind, PopCall, Poppable, Underflow;
  }

  /** The numbers of activations are as before if and only if neither the block of the call nor the one
      after the return counts its function anew. */
  lemma {:induction false} ReturnRestoresDepths(cpu: Cpu, call: Arrival, ret: Arrival, skipDirect: bool)
    requires CpuInv(cpu) && Admissible(cpu, call) && cpu.bbcc.Some? && ExitKind(cpu, call) == Call
    requires Above(cpu.st, call.sp) && Above(cpu.st, ret.sp) && !StaysAlone(cpu.st, call.bb.fn)
    requires var c := Step(cpu, call, skipDirect); Admissible(c, ret) && ExitKind(c, ret) == Return
    requires ret.sp > call.sp || (ret.sp == call.sp && ret.bb.addr == ReturnPoint(cpu, call))
    ensures Ready(cpu.st)
    ensures SameDepths(cpu.st, Step(Step(cpu, call, skipDirect), ret, skipDirect).st) <==>
      !Recounts(Reached(cpu.st, call.bb.fn), OneMore(cpu, call, skipDirect)) && !Recounts(cpu.st, 0)
  {
    hide *;
    CallEnters(cpu, call, skipDirect);
    var s := CallDepths(cpu, call, skipDirect);
    ReachedDepths(cpu.st, call.bb.fn);
    var c := Step(cpu, call, skipDirect);
    ReturnDepths(cpu.st, c, call.sp, ReturnPoint(cpu, call), ret, skipDirect);
    PopDepthsOf(s, c.st, skipDirect);
    DepthsAgree(cpu.st, Reached(cpu.st, call.bb.fn), OneMore(cpu, call, skipDirect), s, PopCall(c.st, skipDirect),
      Step(c, ret, skipDirect).st);
  }

  lemma {:induction false} PopDepthsOf(s: State, t: State, skipDirect: bool)
    requires Poppable(t) && DepthsWith(s, t, t.frames[|t.frames| - 1], skipDirect)
    ensures SameDepths(s, PopCall(t, skipDirect))
  {
    PopDepths(t, skipDirect);
    hide PopCall;
  }

  /** Two blocks on the way may count their function anew, that of the call first. */
  lemma {:induction false} DepthsAgree(st: State, s: State, n: int, t: State, u: State, r: State)
    requires st.fns != [] && s.fns != [] && u.fns == st.fns && 0 <= n <= 1
    requires SameDepths(st, s) && Recounted(s, t, n) && SameDepths(t, u) && Recounted(u, r, 0)
    ensures SameDepths(st, r) <==> !Recounts(s, n) && !Recounts(st, 0)
  {
    hide Depth;
    var f, h := s.fns[|s.fns| - 1], st.fns[|st.fns| - 1];
    if Recounts(s, n) { assert Depth(r, f) != Depth(st, f); }
    if !Recounts(s, n) && Recounts(st, 0) { assert Depth(r, h) != Depth(st, h); }
  }

  lemma {:induction false} ReturnCounted(st: State, c: Cpu, sp: nat, addr: nat, ret: Arrival)
    requires c.bbcc.Some? && PutsFrame(st, c.st, sp, addr)
    requires ret.sp > sp || (ret.sp == sp && ret.bb.addr == addr)
    ensures PopCount(c.st.frames, ret.sp, ret.bb.addr) == 1
  {}

  lemma {:induction false} ReturnLeaves(st: State, c: Cpu, sp: nat, addr: nat, ret: Arrival, skipDirect: bool)
    requires CpuInv(c) && c.bbcc.Some? && PutsFrame(st, c.st, sp, addr) && Above(st, ret.sp)
    requires Admissible(c, ret) && ExitKind(c, ret) == Return && |c.st.fns| != 1
    requires ret.sp > sp || (ret.sp == sp && ret.bb.addr == addr)
    ensures var r := Step(c, ret, skipDirect).st;
      r.frames == st.frames && r.cxt == st.cxt && r.fns == st.fns && r.nonskipped == st.nonskipped
  {
    ReturnSteps(st, c, sp, addr, ret, skipDirect);
    hide *;
    var plan, st0, l, st1, c1, st2 := StepParts(c, ret, skipDirect);
    StaysPlaced(l, ret);
    CentreKeeps(st1, l, ret, plan.src, skipDirect);
  }

  /** A return from the only function on the function stack leaves all frames. */
  lemma {:induction false} ReturnForgets(c: Cpu, ret: Arrival, skipDirect: bool)
    requires CpuInv(c) && c.bbcc.Some? && |c.st.fns| == 1 && c.st.frames != []
    requires Admissible(c, ret) && ExitKind(c, ret) == Return && PopCount(c.st.frames, ret.sp, ret.bb.addr) > 0
    ensures Step(c, ret, skipDirect).st.frames == c.st.frames
  {
    InvLayered(c.st);
    NotEmulated(c, ret, skipDirect);
    hide PlanOf, Planned, PopsOnJump, PopCount, Layered, Descending, Inv, Step, Centre, Unwind, CallState.PushCxt,
      PushCall, Underflow, Poppable, PopCall;
    var plan, st0, l, st1, c1, st2 := StepParts(c, ret, skipDirect);
    OneFunction(c.st);
    UnderflowResult(c.st, plan.src.value, ret.bb.fn, ret.unseen, ret.lastDump, skipDirect);
    assert !l.calls && l.st.frames == c.st.frames && l.st.cxt.Some?;
    CentreKeeps(st1, l, ret, plan.src, skipDirect);
  }

  lemma {:induction false} PopsOne(st: State, c: State, sp: nat, addr: nat, ret: nat, skipDirect: bool)
    requires Layered(c) && PutsFrame(st, c, sp, addr) && Above(st, ret) && sp <= ret
    ensures Poppable(c)
    ensures var r := Unwind(c, ret, 1, skipDirect);
      && r == PopCall(c, skipDirect)
      && r.frames == st.frames && r.cxt == st.cxt && r.fns == st.fns && r.nonskipped == st.nonskipped
  {
    hide Layered, PopCall, Unwind, Settle;
    UnwindUnfold(c, ret, 1, skipDirect);
    PopLeaves(c, skipDirect);
    var r := PopCall(c, skipDirect);
    assert r.frames == st.frames;
    UnwindUnfold(r, ret, 0, skipDirect);
  }
}
