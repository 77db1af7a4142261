/** Bringing the shadow stack in line with the stack pointer. */
module CallUnwind {
  import opened CallState

  /** Stack pointers never increase toward the top. */
  ghost predicate Descending(frames: seq<Frame>) {
    forall i, j :: 0 <= i < j < |frames| ==> frames[i].sp >= frames[j].sp
  }

  /** Every frame can be popped once those above it are gone. */
  ghost predicate Layered(st: State) {
    && (forall i :: 0 <= i < |st.frames| && st.frames[i].jcc.Some? ==>
      st.frames[i].cxt.Some? && 0 < st.frames[i].fnSp <= |st.fns|)
    && (forall i, j :: 0 <= i < j < |st.frames| && st.frames[i].jcc.Some? && st.frames[j].jcc.Some? ==>
          st.frames[i].fnSp <= st.frames[j].fnSp)
  }

  predicate Leaves(st: State, sp: nat, minpops: int) {
    st.frames != [] && var f := st.frames[|st.frames| - 1]; f.sp < sp || (f.sp == sp && minpops > 0)
  }

  lemma {:induction false} PopLayered(st: State, skipDirect: bool)
    requires Layered(st) && st.frames != []
    ensures Poppable(st) && Layered(PopCall(st, skipDirect))
    ensures PopCall(st, skipDirect).frames == st.frames[..|st.frames| - 1]
  {
    hide Settle;
  }

  function Unwind(st: State, sp: nat, minpops: int, skipDirect: bool): (r: State)
    requires Layered(st)
    ensures Layered(r) && |r.frames| <= |st.frames| && r.frames == st.frames[..|r.frames|]
    decreases |st.frames|
  {
    if Leaves(st, sp, minpops) then
      PopLayered(st, skipDirect);
      Unwind(PopCall(st, skipDirect), sp, minpops - 1, skipDirect)
    else st
  }

  lemma {:induction false} UnwindUnfold(st: State, sp: nat, minpops: int, skipDirect: bool)
    requires Layered(st)
    ensures if Leaves(st, sp, minpops) then
        st.frames != [] && Poppable(st) && Layered(PopCall(st, skipDirect))
        && PopCall(st, skipDirect).frames == st.frames[..|st.frames| - 1]
          && Unwind(st, sp, minpops, skipDirect) == Unwind(PopCall(st, skipDirect), sp, minpops - 1, skipDirect)
      else Unwind(st, sp, minpops, skipDirect) == st
  {
    hide PopCall, Layered;
    if Leaves(st, sp, minpops) { PopLayered(st, skipDirect); }
  }

  function Below(frames: seq<Frame>, sp: nat): (n: nat)
    ensures n <= |frames|
  {
    if frames == [] then 0
    else Below(frames[..|frames| - 1], sp) + if frames[|frames| - 1].sp < sp then 1 else 0
  }

  function Equal(frames: seq<Frame>, sp: nat): (n: nat) {
    if frames == [] then 0
    else Equal(frames[..|frames| - 1], sp) + if frames[|frames| - 1].sp == sp then 1 else 0
  }

  function Min(x: int, y: int): int { if x < y then x else y }

  function Max(x: int, y: int): int { if x < y then y else x }

  lemma {:induction false} NoneBelow(frames: seq<Frame>, sp: nat)
    requires forall i :: 0 <= i < |frames| ==> frames[i].sp >= sp
    ensures Below(frames, sp) == 0
    decreases |frames|
  {
    if frames != [] { NoneBelow(frames[..|frames| - 1], sp); }
  }

  lemma {:induction false} NoneEqual(frames: seq<Frame>, sp: nat)
    requires forall i :: 0 <= i < |frames| ==> frames[i].sp > sp
    ensures Equal(frames, sp) == 0
    decreases |frames|
  {
    if frames != [] { NoneEqual(frames[..|frames| - 1], sp); }
  }

  /** Unwinding takes the frames below `sp`, and as many frames at `sp` as are still asked for. */
  lemma {:induction false} UnwindExact(st: State, sp: nat, minpops: int, skipDirect: bool)
    requires Layered(st) && Descending(st.frames)
    ensures |st.frames| - |Unwind(st, sp, minpops, skipDirect).frames|
      == Below(st.frames, sp) + Max(0, Min(Equal(st.frames, sp), minpops - Below(st.frames, sp)))
    decreases |st.frames|
  {
    hide Layered, PopCall, Unwind;
    UnwindUnfold(st, sp, minpops, skipDirect);
    if Leaves(st, sp, minpops) {
      var t := PopCall(st, skipDirect);
      if st.frames[|st.frames| - 1].sp == sp {
        NoneBelow(st.frames, sp);
      }
      UnwindExact(t, sp, minpops - 1, skipDirect);
    } else if st.frames != [] {
      NoneBelow(st.frames, sp);
      if st.frames[|st.frames| - 1].sp > sp { NoneEqual(st.frames, sp); }
    }
  }

  /** What stays is not below `sp`. */
  lemma {:induction false} UnwindStops(st: State, sp: nat, minpops: int, skipDirect: bool)
    requires Layered(st) && Descending(st.frames)
    ensures var r := Unwind(st, sp, minpops, skipDirect);
      Descending(r.frames) && forall i :: 0 <= i < |r.frames| ==> r.frames[i].sp >= sp
    decreases |st.frames|
  {
    hide Layered, PopCall;
    if Leaves(st, sp, minpops) {
      PopLayered(st, skipDirect);
      UnwindStops(PopCall(st, skipDirect), sp, minpops - 1, skipDirect);
    }
  }
}
