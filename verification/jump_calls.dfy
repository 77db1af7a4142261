/** Which jumps between basic blocks are taken for calls, and what arcs they make. */
module JumpCalls {
  import opened Wrappers
  import opened Costs
  import opened CallState
  import opened CallUnwind
  import opened CallRuns
  import opened BlockSetup
  import opened CallReturn

  /** Going to `addr` with the stack pointer at `sp` leaves the top frame: the real stack is past it, or
      is at it, and so is a frame that returns there, with none but frames at it in between. */
  ghost predicate Returns(frames: seq<Frame>, sp: nat, addr: nat) {
    frames != [] && (frames[|frames| - 1].sp < sp || exists k :: ReturnsTo(frames, sp, addr, k))
  }

  ghost predicate ReturnsTo(frames: seq<Frame>, sp: nat, addr: nat, k: int) {
    0 <= k < |frames| && frames[k].retAddr == addr && forall j :: k <= j < |frames| ==> frames[j].sp == sp
  }

  /** No frame above `k` up to `i` returns there. */
  ghost predicate TopmostTo(frames: seq<Frame>, sp: nat, addr: nat, k: int, i: int)
    requires i < |frames|
  {
    k <= i && ReturnsTo(frames, sp, addr, k) && forall j :: k < j <= i ==> frames[j].retAddr != addr
  }

  ghost predicate Lands(frames: seq<Frame>, sp: nat, addr: nat, k: int) {
    frames != [] && TopmostTo(frames, sp, addr, k, |frames| - 1)
  }

  /** A block is reached by a call, or by a jump to the start of a function or to other code, or by a
      return that leaves no frame. */
  ghost predicate TakenForCall(cpu: Cpu, a: Arrival)
    requires cpu.bbcc.Some? && HasExit(cpu, a)
  {
    var last, kind := cpu.bbcc.value.block, cpu.bbcc.value.block.ExitAt(a.passed).kind;
    if kind == Return then cpu.st.frames != [] && !Returns(cpu.st.frames, a.sp, a.bb.addr)
    else kind == Call || a.bb.isEntry || last.sect != a.bb.sect || last.obj != a.bb.obj
  }

  lemma {:induction false} MatchingIff(frames: seq<Frame>, i: nat, sp: nat, addr: nat, count: nat)
    requires i < |frames| && count > 0 && forall j :: i <= j < |frames| ==> frames[j].sp == sp
    ensures Matching(frames, i, sp, addr, count) == 0 <==> !exists k :: k <= i && ReturnsTo(frames, sp, addr, k)
    ensures forall k :: TopmostTo(frames, sp, addr, k, i) ==>
      Matching(frames, i, sp, addr, count) == count + (i - k)
    decreases i
  {
    if frames[i].retAddr == addr {
      assert ReturnsTo(frames, sp, addr, i);
    } else if i > 0 && frames[i - 1].sp == sp {
      MatchingIff(frames, i - 1, sp, addr, count + 1);
      forall k | TopmostTo(frames, sp, addr, k, i) ensures TopmostTo(frames, sp, addr, k, i - 1) {}
    }
  }

  /** How many frames a return leaves at least, and when none. */
  lemma {:induction false} PopCountIff(frames: seq<Frame>, sp: nat, addr: nat)
    requires frames != []
    ensures PopCount(frames, sp, addr) > 0 <==> Returns(frames, sp, addr)
    ensures frames[|frames| - 1].sp < sp ==> PopCount(frames, sp, addr) == 1
    ensures forall k :: Lands(frames, sp, addr, k) ==>
      PopCount(frames, sp, addr) == |frames| - k
  {
    var n := |frames| - 1;
    if frames[n].sp == sp { MatchingIff(frames, n, sp, addr, 1); }
    forall k | ReturnsTo(frames, sp, addr, k) ensures frames[n].sp == sp && k <= n {}
    hide TopmostTo;
  }

  /** A function that jumps leave is left first: the jump counts as one by its caller. */
  ghost predicate LeftFirst(cpu: Cpu, a: Arrival)
    requires cpu.bbcc.Some? && HasExit(cpu, a)
  {
    var frames := cpu.st.frames;
    && TakenForCall(cpu, a) && cpu.bbcc.value.block.ExitAt(a.passed).kind != Call
    && cpu.bbcc.value.block.fn.popOnJump && frames != [] && frames[|frames| - 1].jcc.Some?
  }

  /** Where a jump comes from: the state, the cost centre and its exit, and the stack pointer. */
  datatype Origin = Origin(st: State, src: Bbcc, passed: nat, sp: nat)

  ghost function OriginOf(cpu: Cpu, a: Arrival, skipDirect: bool): Origin
    requires cpu.bbcc.Some? && HasExit(cpu, a) && Layered(cpu.st)
  {
    if LeftFirst(cpu, a) then
      var top := cpu.st.frames[|cpu.st.frames| - 1];
      PopLayered(cpu.st, skipDirect);
      Origin(PopCall(cpu.st, skipDirect), top.jcc.value.src, top.jcc.value.jmp, top.sp)
    else Origin(cpu.st, cpu.bbcc.value, a.passed, a.sp)
  }

  lemma {:induction false} PlannedFor(cpu: Cpu, a: Arrival, skipDirect: bool)
    requires Layered(cpu.st) && cpu.bbcc.Some? && HasExit(cpu, a)
    ensures var p, o, kind := PlanOf(cpu, a), OriginOf(cpu, a, skipDirect), cpu.bbcc.value.block.ExitAt(a.passed).kind;
      && Planned(cpu, a, skipDirect) == o.st
      && p.src == Some(o.src) && p.passed == o.passed && p.sp == o.sp
      && p.emulated == (TakenForCall(cpu, a) && kind != Call)
      && p.kind == (if TakenForCall(cpu, a) then Call else kind) && (kind == Call ==> TakenForCall(cpu, a))
      && (kind == Return ==> p.pops == PopCount(cpu.st.frames, a.sp, a.bb.addr))
  {
    if cpu.st.frames != [] { PopCountIff(cpu.st.frames, a.sp, a.bb.addr); }
    hide PopCount, Returns, Layered, PopCall;
  }

  /** Where a plan that is no return lands. */
  lemma {:induction false} LandsUnwound(st: State, plan: Plan, a: Arrival, skipDirect: bool)
    requires Inv(st) && plan.kind != Return && Layered(st) && Descending(st.frames)
    ensures var l, n := Land(st, plan, a, skipDirect), |st.frames|;
      && l.st.frames == st.frames[..n - Below(st.frames, plan.sp)]
      && l.calls == (plan.kind == Call && Above(st, plan.sp))
      && (Above(st, plan.sp) ==> l.st == st)
      && l.sp == if l.calls && plan.emulated && n > 0 then st.frames[n - 1].sp else plan.sp
  {
    hide *;
    Unwound(st, plan.sp, skipDirect);
    LandsOn(st, plan, a, skipDirect);
  }

  lemma {:induction false} Unwound(st: State, sp: nat, skipDirect: bool)
    requires Layered(st) && Descending(st.frames)
    ensures var u, n := Unwind(st, sp, 0, skipDirect), |st.frames|;
      && u.frames == st.frames[..n - Below(st.frames, sp)]
      && (|u.frames| == n <==> Above(st, sp)) && (Above(st, sp) ==> u == st)
  {
    UnwindExact(st, sp, 0, skipDirect);
    BelowNone(st.frames, sp);
    AboveStays(st, sp, skipDirect);
    hide Layered, Unwind, Below, Equal, Descending, Above;
    assert Max(0, Min(Equal(st.frames, sp), 0 - Below(st.frames, sp))) == 0;
  }

  lemma {:induction false} LandsOn(st: State, plan: Plan, a: Arrival, skipDirect: bool)
    requires Inv(st) && plan.kind != Return && Layered(st)
    ensures var l, u, n := Land(st, plan, a, skipDirect), Unwind(st, plan.sp, 0, skipDirect), |st.frames|;
      && l.st == u && l.calls == (plan.kind == Call && |u.frames| == n)
      && l.sp == if l.calls && plan.emulated && n > 0 then u.frames[n - 1].sp else plan.sp
  {
    hide Inv, Layered, Unwind;
  }

  lemma {:induction false} AboveStays(st: State, sp: nat, skipDirect: bool)
    requires Layered(st)
    ensures Above(st, sp) ==> Unwind(st, sp, 0, skipDirect) == st
  {
    if Above(st, sp) { StaysUnwound(st, sp, skipDirect); }
  }

  lemma {:induction false} BelowNone(frames: seq<Frame>, sp: nat)
    requires Descending(frames)
    ensures Below(frames, sp) == 0 <==> (frames == [] || frames[|frames| - 1].sp >= sp)
    ensures forall st: State :: st.frames == frames ==> (Above(st, sp) <==> Below(frames, sp) == 0)
  {
    if frames != [] && frames[|frames| - 1].sp >= sp { NoneBelow(frames, sp); }
  }

  /** Entering `f` changes the function stack and the context unless the function on top is the same, or
      one of its group. */
  predicate EntersFunction(st: State, r: State, f: Fn)
    requires st.fns != []
  {
    var top := st.fns[|st.fns| - 1];
    if top == f || (f.group > 0 && top.group == f.group) then r.fns == st.fns && r.cxt == st.cxt
    else r.fns == st.fns + [f] && r.cxt == Some(ContextOf(st.fns + [f]))
  }

  /** Who makes a call into a function that is not skipped: the block that was left, by the exit that it
      was left by, or the one that last called into skipped functions. */
  function SourceOf(o: Origin): (Bbcc, nat) {
    match o.st.nonskipped
    case Some(b) => (b, |b.block.cjmps|)
    case None => (o.src, o.passed)
  }

  /** A call instruction is followed by the address to return to; there is none after other jumps. */
  function NextOf(b: Bbcc, passed: nat): nat {
    var x := if passed < |b.block.cjmps| then b.block.cjmps[passed] else b.block.final;
    if x.kind == Call then x.next else 0
  }

  /** `f` is the frame of the call from `o` that leads to `r`. */
  predicate CallFrame(o: Origin, fn: Fn, sp: nat, r: Cpu, f: Frame)
    requires r.bbcc.Some? && o.st.fns != []
  {
    && f.sp == sp && f.nonskipped == o.st.nonskipped
    && if fn.skip then
         && f.jcc == None && f.retAddr == NextOf(o.src, o.passed) && r.st.fns == o.st.fns && r.st.cxt == o.st.cxt
         && r.st.nonskipped == Some(if o.st.nonskipped.Some? then o.st.nonskipped.value else o.src)
       else
         && f.jcc == Some(Jcc(SourceOf(o).0, SourceOf(o).1, r.bbcc.value)) && r.st.nonskipped == None
         && f.retAddr == NextOf(SourceOf(o).0, SourceOf(o).1)
         && f.cxt == o.st.cxt && f.fnSp == |o.st.fns| && f.enterCost == o.st.cost && EntersFunction(o.st, r.st, fn)
  }

  /** The stack pointer that a call is remembered with: a jump that is taken for a call leaves it where it
      was at the last call. */
  function CallSp(cpu: Cpu, a: Arrival, o: Origin): nat
    requires cpu.bbcc.Some? && HasExit(cpu, a)
  {
    if cpu.bbcc.value.block.ExitAt(a.passed).kind == Call || o.st.frames == [] then o.sp
    else o.st.frames[|o.st.frames| - 1].sp
  }

  lemma {:induction false} CallMakes(o: Origin, a: Arrival, l: Landing, plan: Plan, s: State, c: Bbcc, skipDirect: bool)
    requires Inv(o.st) && o.st.cxt.Some? && o.st.fns != []
    requires l.st == o.st && l.calls && plan.src == Some(o.src) && plan.passed == o.passed
    requires s == Placed(l, a).(depths := s.depths)
    requires Pushable(s, Caller(s, plan, a.bb.fn.skip).0, Caller(s, plan, a.bb.fn.skip).1, a.bb.fn.skip)
    ensures var from, n := Caller(s, plan, a.bb.fn.skip), |o.st.frames|;
      var r := PushCall(s, from.0, from.1, c, l.sp, a.bb.fn.skip, skipDirect);
      && |r.frames| == n + 1 && r.frames[..n] == o.st.frames
      && CallFrame(o, a.bb.fn, l.sp, Cpu(r, Some(c)), r.frames[n])
  {
    hide Layered, Descending, ArcsInBounds, Base, ContextOf;
  }

  /** When a block is entered other than by a return that leaves a frame: there is one frame more if and
      only if the block is reached as if it were called and no frame was left below the stack; its arc
      leads from the caller to the new cost centre. In all other cases just the frames below the stack are
      gone, and if there were none the function goes on. */
  lemma {:induction false} JumpFrames(cpu: Cpu, a: Arrival, skipDirect: bool)
    requires CpuInv(cpu) && Admissible(cpu, a) && cpu.bbcc.Some?
    requires HasExit(cpu, a) && (TakenForCall(cpu, a) || cpu.bbcc.value.block.ExitAt(a.passed).kind != Return)
    ensures Layered(cpu.st) && OriginOf(cpu, a, skipDirect).st.fns != []
    ensures var r, o := Step(cpu, a, skipDirect), OriginOf(cpu, a, skipDirect); var n := |o.st.frames|;
      if TakenForCall(cpu, a) && Above(o.st, o.sp) then
        && |r.st.frames| == n + 1 && r.st.frames[..n] == o.st.frames
        && CallFrame(o, a.bb.fn, CallSp(cpu, a, o), r, r.st.frames[n])
      else
        && r.st.frames == o.st.frames[..n - Below(o.st.frames, o.sp)]
        && (Above(o.st, o.sp) ==> r.st.fns == o.st.fns && r.st.cxt == o.st.cxt && r.st.nonskipped == o.st.nonskipped)
  {
    hide *;
    var plan, l, s, c := JumpSteps(cpu, a, skipDirect);
    if l.calls {
      CallMakes(OriginOf(cpu, a, skipDirect), a, l, plan, s, c, skipDirect);
    } else {
      GoesOn(l, a);
    }
  }

  /** The parts of such a step. */
  lemma {:induction false} JumpSteps(cpu: Cpu, a: Arrival, skipDirect: bool)
      returns (plan: Plan, l: Landing, s: State, c: Bbcc)
    requires CpuInv(cpu) && Admissible(cpu, a) && cpu.bbcc.Some?
    requires HasExit(cpu, a) && (TakenForCall(cpu, a) || cpu.bbcc.value.block.ExitAt(a.passed).kind != Return)
    ensures Layered(cpu.st)
    ensures var o := OriginOf(cpu, a, skipDirect);
      && Inv(o.st) && o.st.cxt.Some? && o.st.fns != [] && plan.src == Some(o.src) && plan.passed == o.passed
      && l.calls == (TakenForCall(cpu, a) && Above(o.st, o.sp)) && (l.calls ==> l.sp == CallSp(cpu, a, o))
      && l.st.frames == o.st.frames[..|o.st.frames| - Below(o.st.frames, o.sp)] && (Above(o.st, o.sp) ==> l.st == o.st)
    ensures Inv(l.st) && l.st.cxt.Some? && s == Placed(l, a).(depths := s.depths)
    ensures var from := Caller(s, plan, a.bb.fn.skip);
      && Step(cpu, a, skipDirect).bbcc == Some(c)
      && (l.calls ==> Pushable(s, from.0, from.1, a.bb.fn.skip))
      && Step(cpu, a, skipDirect).st ==
           if l.calls then PushCall(s, from.0, from.1, c, l.sp, a.bb.fn.skip, skipDirect) else s
  {
    hide *;
    HasContext(cpu);
    InvLayered(cpu.st);
    PlannedFor(cpu, a, skipDirect);
    PlannedInv(cpu, a, skipDirect);
    var st0, st1;
    plan, st0, l, st1, c, s := StepParts(cpu, a, skipDirect);
    HasFunction(st0);
    InvLayered(st0);
    LandInv(st0, plan, a, skipDirect);
    LandsUnwound(st0, plan, a, skipDirect);
    CentreKeeps(st1, l, a, plan.src, skipDirect);
    if l.calls { CallSpIs(cpu, a, OriginOf(cpu, a, skipDirect)); }
  }

  lemma {:induction false} CallSpIs(cpu: Cpu, a: Arrival, o: Origin)
    requires cpu.bbcc.Some? && HasExit(cpu, a) && TakenForCall(cpu, a)
    ensures var emulated, n := cpu.bbcc.value.block.ExitAt(a.passed).kind != Call, |o.st.frames|;
      CallSp(cpu, a, o) == if emulated && n > 0 then o.st.frames[n - 1].sp else o.sp
  {}

  lemma {:induction false} HasContext(cpu: Cpu)
    requires CpuInv(cpu) && cpu.bbcc.Some?
    ensures Inv(cpu.st) && cpu.st.cxt.Some?
  {}

  lemma {:induction false} HasFunction(st: State)
    requires Inv(st)
    ensures st.cxt.Some? ==> st.fns != []
  {}

  lemma {:induction false} GoesOn(l: Landing, a: Arrival)
    requires Inv(l.st) && !l.calls && l.st.cxt.Some?
    ensures Placed(l, a) == l.st
  {}

  /** A jump that leaves its function first comes from a state without the top frame, and with the stack
      where that frame was. */
  lemma {:induction false} LeavesFirst(cpu: Cpu, a: Arrival, skipDirect: bool)
    requires CpuInv(cpu) && cpu.bbcc.Some? && HasExit(cpu, a) && LeftFirst(cpu, a)
    ensures Layered(cpu.st)
    ensures var o, n := OriginOf(cpu, a, skipDirect), |cpu.st.frames| - 1; var top := cpu.st.frames[n];
      && o.st.frames == cpu.st.frames[..n] && Above(o.st, o.sp) && o.st.nonskipped == top.nonskipped
      && o.st.fns == cpu.st.fns[..top.fnSp] && o.st.cxt == top.cxt
      && (o.src, o.passed, o.sp) == (top.jcc.value.src, top.jcc.value.jmp, top.sp)
  {
    PopLayered(cpu.st, skipDirect);
    PopLeaves(cpu.st, skipDirect);
    hide PopCall, Base, ArcsInBounds, TakenForCall;
  }

  // ----- returns

  /** A return leaves the lowest `k` frames: those not below the stack, or, if the top one is not below it,
      those under the topmost one at the stack that returns there. */
  ghost predicate LeavesLowest(frames: seq<Frame>, sp: nat, addr: nat, k: nat) {
    && k <= |frames| && frames != []
    && if frames[|frames| - 1].sp < sp then k == |frames| - Below(frames, sp) else Lands(frames, sp, addr, k)
  }

  /** A return that leaves a frame, with more than one function known: frames below the stack are gone, or
      those down to the topmost one at the stack that returns there. */
  lemma {:induction false} ReturnFrames(cpu: Cpu, a: Arrival, k: nat, skipDirect: bool)
    requires CpuInv(cpu) && Admissible(cpu, a) && cpu.bbcc.Some? && HasExit(cpu, a) && |cpu.st.fns| != 1
    requires cpu.bbcc.value.block.ExitAt(a.passed).kind == Return && LeavesLowest(cpu.st.frames, a.sp, a.bb.addr, k)
    ensures Step(cpu, a, skipDirect).st.frames == cpu.st.frames[..k]
  {
    hide *;
    LowestParts(cpu.st.frames, a.sp, a.bb.addr, k);
    PopsDownTo(cpu.st.frames, a.sp, a.bb.addr, k);
    IsReturn(cpu, a, k);
    var plan, l, s := ReturnParts(cpu, a, skipDirect);
    UnwindExact(cpu.st, a.sp, plan.pops, skipDirect);
  }

  lemma LowestParts(frames: seq<Frame>, sp: nat, addr: nat, k: nat)
    requires LeavesLowest(frames, sp, addr, k)
    ensures k <= |frames| && frames != []
    ensures if frames[|frames| - 1].sp < sp then k == |frames| - Below(frames, sp) else Lands(frames, sp, addr, k)
  {}

  lemma {:induction false} ReturnParts(cpu: Cpu, a: Arrival, skipDirect: bool)
      returns (plan: Plan, l: Landing, s: State)
    requires CpuInv(cpu) && Admissible(cpu, a) && cpu.bbcc.Some? && HasExit(cpu, a) && |cpu.st.fns| != 1
    requires cpu.bbcc.value.block.ExitAt(a.passed).kind == Return && cpu.st.frames != [] && !TakenForCall(cpu, a)
    ensures Layered(cpu.st) && Descending(cpu.st.frames) && plan.pops == PopCount(cpu.st.frames, a.sp, a.bb.addr)
    ensures Step(cpu, a, skipDirect).st.frames == Unwind(cpu.st, a.sp, plan.pops, skipDirect).frames
  {
    hide *;
    HasContext(cpu);
    InvLayered(cpu.st);
    PlannedFor(cpu, a, skipDirect);
    NotLeftFirst(cpu, a, skipDirect);
    var st0, st1, c;
    plan, st0, l, st1, c, s := StepParts(cpu, a, skipDirect);
    LandsReturning(cpu.st, plan, a, skipDirect);
    LandInv(st0, plan, a, skipDirect);
    CentreKeeps(st1, l, a, plan.src, skipDirect);
    GoesOn(l, a);
  }

  lemma {:induction false} IsReturn(cpu: Cpu, a: Arrival, k: nat)
    requires cpu.bbcc.Some? && HasExit(cpu, a) && cpu.st.frames != []
    requires cpu.bbcc.value.block.ExitAt(a.passed).kind == Return
    requires var frames := cpu.st.frames;
      frames[|frames| - 1].sp < a.sp || Lands(frames, a.sp, a.bb.addr, k)
    ensures !TakenForCall(cpu, a)
  {}

  lemma {:induction false} NotLeftFirst(cpu: Cpu, a: Arrival, skipDirect: bool)
    requires cpu.bbcc.Some? && HasExit(cpu, a) && Layered(cpu.st) && !TakenForCall(cpu, a)
    ensures OriginOf(cpu, a, skipDirect) == Origin(cpu.st, cpu.bbcc.value, a.passed, a.sp)
  {}

  lemma {:induction false} PopsDownTo(frames: seq<Frame>, sp: nat, addr: nat, k: nat)
    requires frames != []
    requires if frames[|frames| - 1].sp < sp then k == |frames| - Below(frames, sp)
      else Lands(frames, sp, addr, k)
    ensures PopCount(frames, sp, addr) > 0
    ensures k <= |frames|
    ensures Descending(frames) ==>
      |frames| - k == Below(frames, sp) + Max(0, Min(Equal(frames, sp), PopCount(frames, sp, addr) - Below(frames, sp)))
  {
    PopCountIff(frames, sp, addr);
    if frames[|frames| - 1].sp == sp {
      if Descending(frames) { BelowNone(frames, sp); }
      AtLeastEqual(frames, sp, k);
    }
  }

  lemma {:induction false} AtLeastEqual(frames: seq<Frame>, sp: nat, k: nat)
    requires k <= |frames| && forall j :: k <= j < |frames| ==> frames[j].sp == sp
    ensures Equal(frames, sp) >= |frames| - k
    decreases |frames|
  {
    if k < |frames| { AtLeastEqual(frames[..|frames| - 1], sp, k); }
  }

  lemma {:induction false} LandsReturning(st: State, plan: Plan, a: Arrival, skipDirect: bool)
    requires Inv(st) && Layered(st) && plan.kind == Return && plan.src.Some? && st.cxt.Some?
    requires st.frames != [] && |st.fns| != 1
    ensures !Underflows(st)
    ensures Land(st, plan, a, skipDirect) == Landing(Unwind(st, plan.sp, plan.pops, skipDirect), false, plan.sp)
  {
    hide Inv, Layered, Unwind;
  }

  /** A return from a call that was not seen books, on the arc from the unseen caller, what was spent since
      the last dump, for every event modulo 2^64; no other arc is touched. */
  lemma {:induction false} UnseenCallBooked(st: State, cur: Bbcc, a: Arrival, skipDirect: bool, j: Jcc, e: nat)
    requires st.saved == None && |st.fns| == 1 && a.bb.fn.group == 0 && e < |st.cost|
    ensures var r, arc := ReturnPast(st, cur, a, skipDirect), Jcc(a.unseen, 0, cur);
      At(Sum(r.books.sums, j), e) ==
        if j == arc then Wrap(At(Sum(st.books.sums, j), e) + st.cost[e] - At(a.lastDump, e))
        else At(Sum(st.books.sums, j), e)
  {
    hide *;
    var u := ReturnPastParts(st, cur, a, skipDirect);
    UnseenFrame(st, cur, a, skipDirect);
    PopLeaves(u, skipDirect);
    SettledSum(u.books, u.frames[|u.frames| - 1], u.cost, j, e);
  }

  lemma {:induction false} SettledSum(k: Books, f: Frame, now: Cost, j: Jcc, e: nat)
    requires f.jcc.Some? && e < |now|
    ensures At(Sum(Settle(k, f, now).sums, j), e) ==
      if Some(j) == f.jcc then Wrap(At(Sum(k.sums, j), e) + now[e] - At(f.enterCost, e)) else At(Sum(k.sums, j), e)
  {}

  /** The frame of an unseen call, which is gone again at once. */
  lemma {:induction false} UnseenFrame(st: State, cur: Bbcc, a: Arrival, skipDirect: bool)
    requires st.saved == None && |st.fns| == 1 && a.bb.fn.group == 0
    ensures var u := Underflow(st, cur, a.bb.fn, a.unseen, a.lastDump, skipDirect);
      && u.frames != [] && u.books == st.books && u.cost == st.cost
      && var f := u.frames[|u.frames| - 1]; f.jcc == Some(Jcc(a.unseen, 0, cur)) && f.enterCost == a.lastDump
  {
    ReenteredKeeps(st, cur, a.bb.fn);
    var t := Reentered(st, cur, a.bb.fn);
    PushCxtLeaves(t, cur.cxt.fn);
    hide Reentered, PushCxt, PushCall;
    var s := PushCxt(t, cur.cxt.fn);
    TopPushed(s, a.unseen, cur, skipDirect);
  }

  lemma {:induction false} ReenteredKeeps(st: State, cur: Bbcc, caller: Fn)
    requires st.saved == None && caller.group == 0
    ensures var r := Reentered(st, cur, caller);
      r.books == st.books && r.cost == st.cost && Ready(r) && r.nonskipped == None
  {
    hide ContextOf;
  }

  lemma {:induction false} TopPushed(s: State, src: Bbcc, dst: Bbcc, skipDirect: bool)
    requires Pushable(s, src, 0, false)
    ensures var r := PushCall(s, src, 0, dst, MAX_ADDR, false, skipDirect);
      && r.books == s.books && r.cost == s.cost && r.frames != []
      && r.frames[|r.frames| - 1].jcc == Some(Jcc(src, 0, dst))
  {
    hide ReturnAddress;
  }

  /** The context of a function stack: its top, and as many callers as that wants, the nearest first. */
  lemma {:induction false} ContextListed(fns: seq<Fn>)
    requires fns != []
    ensures var c, n := ContextOf(fns), |fns| - 1;
      && c.fn == fns[n] && |c.callers| <= n && |c.callers| <= c.fn.callers
      && (|c.callers| == n || |c.callers| == c.fn.callers)
      && forall i :: 0 <= i < |c.callers| ==> c.callers[i] == fns[n - 1 - i]
  {}
}
