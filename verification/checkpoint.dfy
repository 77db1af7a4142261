/** The checkpoint protocol: a training run in a virtual machine, and a server outside it that can
    take the machine back to a snapshot without losing what was learned since. */
module Checkpoint {
  import opened Wrappers
  import opened CheckpointWire

  /** Where the client is: at work, waiting for the answer to a checkpoint request, about to fetch or
      to send its files, or about to ask for the snapshot back. */
  datatype Place = Working | AwaitAnswer | BeforeGet | BeforeSet | BeforeRestore

  /** All that a snapshot holds and a revert brings back. */
  datatype Machine = Machine(files: Dir, checkpointed: bool, place: Place)

  /** What the server is doing; `before` is the directory the transfer started with, `todo` the files
      that have still to come. */
  datatype Busy = Idle | Getting(before: Dir, todo: set<Name>) | Setting(before: Dir, todo: set<Name>)

  /** `asked` is a checkpoint request that the server has not looked at yet; `lastSet` remembers what
      the last completed transfer to the server sent. */
  datatype System = System(
    vm: Machine, server: Dir, ckptReq: bool, ckpted: bool, snapshot: Option<Machine>,
    asked: bool, busy: Busy, lastSet: Option<Dir>)

  datatype Event =
    | UserAsks
    | Work(files: Dir)
    | CallCheckpoint
    | ServeCkp
    | AnswerNo
    | AnswerYes
    | Timeout
    | BeginGet
    | GetFile(name: Name)
    | EndGet
    | CallRestore
    | BeginSet
    | SetFile(name: Name)
    | EndSet
    | Res

  function Initial(client: Dir, server: Dir): System {
    System(Machine(client, false, Working), server, false, false, None, false, Idle, None)
  }

  /** Whether an event can happen. The server serves one connection at a time, and the client runs one
      thing at a time. */
  predicate Enabled(s: System, e: Event) {
    match e
    case UserAsks => true
    case Work(_) => s.vm.place == Working && s.busy == Idle
    case CallCheckpoint => s.vm.place == Working && s.busy == Idle
    case ServeCkp => s.asked && s.busy == Idle
    case AnswerNo => s.vm.place == AwaitAnswer && s.busy == Idle
    case AnswerYes => s.vm.place == AwaitAnswer && s.busy == Idle
    case Timeout => s.vm.place == AwaitAnswer && s.busy == Idle
    case BeginGet => s.vm.place == BeforeGet && s.busy == Idle
    case GetFile(name) => s.busy.Getting? && name in s.busy.todo && name in s.server
    case EndGet => s.busy.Getting? && s.busy.todo == {}
    case CallRestore => s.vm.place == Working && s.busy == Idle
    case BeginSet => s.vm.place == BeforeSet && s.busy == Idle
    case SetFile(name) => s.busy.Setting? && name in s.busy.todo && name in s.vm.files
    case EndSet => s.busy.Setting? && s.busy.todo == {}
    case Res => s.vm.place == BeforeRestore && s.busy == Idle
  }

  /** A checkpoint request is answered no unless the user asked for a checkpoint; then a snapshot of
      the machine as it is now replaces the one before. */
  function Step(s: System, e: Event): System
    requires Enabled(s, e)
  {
    match e
    case UserAsks => s.(ckptReq := true)
    case Work(files) => s.(vm := s.vm.(files := files))
    case CallCheckpoint => if s.vm.checkpointed then s else s.(vm := s.vm.(place := AwaitAnswer), asked := true)
    case ServeCkp =>
      if s.ckptReq then s.(snapshot := Some(s.vm), ckptReq := false, ckpted := true, asked := false)
      else s.(asked := false)
    case AnswerNo => s.(vm := s.vm.(place := Working))
    case AnswerYes => s.(vm := s.vm.(checkpointed := true, place := BeforeGet))
    case Timeout => s.(vm := s.vm.(checkpointed := true, place := BeforeGet))
    case BeginGet => s.(busy := Getting(s.vm.files, s.server.Keys))
    case GetFile(name) =>
      s.(vm := s.vm.(files := s.vm.files[name := s.server[name]]), busy := Getting(s.busy.before, s.busy.todo - {name}))
    case EndGet => s.(busy := Idle, vm := s.vm.(place := Working))
    case CallRestore => if s.vm.checkpointed then s.(vm := s.vm.(place := BeforeSet)) else s
    case BeginSet => s.(busy := Setting(s.server, s.vm.files.Keys))
    case SetFile(name) =>
      s.(server := s.server[name := s.vm.files[name]], busy := Setting(s.busy.before, s.busy.todo - {name}))
    case EndSet => s.(busy := Idle, vm := s.vm.(place := BeforeRestore), lastSet := Some(s.vm.files))
    case Res => if s.ckpted && s.snapshot.Some? then s.(vm := s.snapshot.value) else s.(vm := s.vm.(place := Working))
  }

  // ----- what always holds

  /** The files of `sent` are in `d`, with those contents. */
  ghost predicate Holds(d: Dir, sent: Dir) {
    forall n :: n in sent ==> n in d && d[n] == sent[n]
  }

  /** A transfer that has still `todo` to go has overridden `before` with the other files of `from`. */
  ghost predicate Overridden(now: Dir, before: Dir, from: Dir, todo: set<Name>) {
    todo <= from.Keys && now == before + (from - todo)
  }

  ghost predicate Invariant(s: System) {
    && (match s.busy
        case Idle => true
        case Getting(before, todo) => s.vm.place == BeforeGet && Overridden(s.vm.files, before, s.server, todo)
        case Setting(before, todo) => s.vm.place == BeforeSet && Overridden(s.server, before, s.vm.files, todo))
    && (s.lastSet.Some? && !s.busy.Setting? ==> Holds(s.server, s.lastSet.value))
    && (s.ckpted <==> s.snapshot.Some?)
  }

  lemma {:induction false} OneMoreFile(now: Dir, before: Dir, from: Dir, todo: set<Name>, name: Name)
    requires Overridden(now, before, from, todo) && name in todo
    ensures Overridden(now[name := from[name]], before, from, todo - {name})
  {
    assert now[name := from[name]] == before + (from - (todo - {name}));
  }

  lemma {:induction false} AllFiles(now: Dir, before: Dir, from: Dir)
    requires Overridden(now, before, from, {})
    ensures now == before + from && Holds(now, from)
  {
    assert from - {} == from;
  }

  lemma {:induction false} NoFiles(before: Dir, from: Dir)
    ensures Overridden(before, before, from, from.Keys)
  {
    assert from - from.Keys == map[];
    assert before + map[] == before;
  }

  lemma {:induction false} StepKeeps(s: System, e: Event)
    requires Invariant(s) && Enabled(s, e)
    ensures Invariant(Step(s, e))
  {
    hide Overridden, Holds;
    match e
    case BeginGet => NoFiles(s.vm.files, s.server);
    case GetFile(name) => OneMoreFile(s.vm.files, s.busy.before, s.server, s.busy.todo, name);
    case BeginSet => NoFiles(s.server, s.vm.files);
    case SetFile(name) => OneMoreFile(s.server, s.busy.before, s.vm.files, s.busy.todo, name);
    case EndSet => AllFiles(s.server, s.busy.before, s.vm.files);
    case _ =>
  }

  ghost predicate Runs(s: System, es: seq<Event>)
    decreases |es|
  {
    es == [] || (Enabled(s, es[0]) && Runs(Step(s, es[0]), es[1..]))
  }

  ghost function Run(s: System, es: seq<Event>): System
    requires Runs(s, es)
    decreases |es|
  {
    if es == [] then s else Run(Step(s, es[0]), es[1..])
  }

  lemma {:induction false} RunKeeps(s: System, es: seq<Event>)
    requires Invariant(s) && Runs(s, es)
    ensures Invariant(Run(s, es))
    decreases |es|
  {
    hide Invariant, Step;
    if es != [] {
      StepKeeps(s, es[0]);
      RunKeeps(Step(s, es[0]), es[1..]);
    }
  }

  /** In every run, a transfer that ends has overridden the receiver's directory with exactly the
      sender's files. */
  lemma {:induction false} TransfersComplete(client: Dir, server: Dir, es: seq<Event>)
    requires Runs(Initial(client, server), es)
    ensures var s := Run(Initial(client, server), es);
      && (Enabled(s, EndGet) ==> s.vm.files == s.busy.before + s.server)
      && (Enabled(s, EndSet) ==> s.server == s.busy.before + s.vm.files)
  {
    var s := Run(Initial(client, server), es);
    RunKeeps(Initial(client, server), es);
    hide Run, Overridden;
    if Enabled(s, EndGet) { AllFiles(s.vm.files, s.busy.before, s.server); }
    if Enabled(s, EndSet) { AllFiles(s.server, s.busy.before, s.vm.files); }
  }

  lemma {:induction false} StepLeavesServer(s: System, e: Event)
    requires Enabled(s, e) && !s.busy.Setting? && e != BeginSet
    ensures var t := Step(s, e); t.lastSet == s.lastSet && t.server == s.server && !t.busy.Setting?
  {}

  /** Whatever happens in between: as long as no new transfer to the server is made, the files of the
      last completed one stay on the server. */
  lemma {:induction false} LastSetStays(s: System, es: seq<Event>)
    requires Invariant(s) && Runs(s, es) && !s.busy.Setting? && BeginSet !in es
    ensures Run(s, es).lastSet == s.lastSet && !Run(s, es).busy.Setting? && Invariant(Run(s, es))
    ensures Run(s, es).server == s.server
    decreases |es|
  {
    hide Invariant, Step;
    if es != [] {
      StepKeeps(s, es[0]);
      StepLeavesServer(s, es[0]);
      LastSetStays(Step(s, es[0]), es[1..]);
    }
  }

  /** After a completed transfer to the server, a revert of the machine, and a completed fetch by the
      resumed client, every file that was sent is back with the contents it had. The revert itself
      restores the machine as it was at the snapshot. */
  lemma {:induction false} RestoreBringsBack(client: Dir, server: Dir, es: seq<Event>, mid: seq<Event>)
    requires Runs(Initial(client, server), es) && Enabled(Run(Initial(client, server), es), Res)
    requires var s := Run(Initial(client, server), es);
      && s.ckpted && s.lastSet.Some?
      && Runs(Step(s, Res), mid) && BeginSet !in mid && Enabled(Run(Step(s, Res), mid), EndGet)
    ensures var s := Run(Initial(client, server), es); var r := Run(Step(s, Res), mid);
      && s.snapshot.Some? && Step(s, Res).vm == s.snapshot.value
      && Holds(Step(r, EndGet).vm.files, s.lastSet.value)
  {
    RunKeeps(Initial(client, server), es);
    var s := Run(Initial(client, server), es);
    StepKeeps(s, Res);
    LastSetStays(Step(s, Res), mid);
    var r := Run(Step(s, Res), mid);
    hide Run, Runs;
    AllFiles(r.vm.files, r.busy.before, r.server);
  }

  // ----- when a snapshot is taken, and of what

  /** The user has asked for a checkpoint since the server last looked at a request. */
  ghost predicate AskedBefore(es: seq<Event>, i: nat)
    requires i <= |es|
  {
    exists j :: 0 <= j < i && es[j] == UserAsks && forall k :: j < k < i ==> es[k] != ServeCkp
  }

  /** At event `i` the server looks at a request, and the user has asked. */
  ghost predicate Takes(es: seq<Event>, i: nat) {
    i < |es| && es[i] == ServeCkp && AskedBefore(es, i)
  }

  /** The last event that takes a snapshot. */
  ghost predicate LastTake(es: seq<Event>, i: nat) {
    Takes(es, i) && forall k: nat :: i < k ==> !Takes(es, k)
  }

  lemma {:induction false} RunMore(s: System, es: seq<Event>, e: Event)
    requires Runs(s, es + [e])
    ensures Runs(s, es) && Enabled(Run(s, es), e) && Run(s, es + [e]) == Step(Run(s, es), e)
    decreases |es|
  {
    hide Step, Enabled;
    if es == [] {
      assert [e][1..] == [] && [] + [e] == [e];
    } else {
      assert (es + [e])[1..] == es[1..] + [e];
      RunMore(Step(s, es[0]), es[1..], e);
    }
  }

  lemma {:induction false} AskedMore(es: seq<Event>, e: Event)
    ensures AskedBefore(es + [e], |es| + 1) <==> e == UserAsks || (e != ServeCkp && AskedBefore(es, |es|))
  {
    var r, n := es + [e], |es|;
    if e == UserAsks { assert r[n] == UserAsks; }
    if e != ServeCkp && AskedBefore(es, n) {
      var j :| 0 <= j < n && es[j] == UserAsks && forall k :: j < k < n ==> es[k] != ServeCkp;
      assert r[j] == UserAsks;
    }
    if e != UserAsks && AskedBefore(r, n + 1) {
      var j :| 0 <= j < n + 1 && r[j] == UserAsks && forall k :: j < k < n + 1 ==> r[k] != ServeCkp;
      assert r[n] == e && es[j] == UserAsks;
      forall k | j < k < n ensures es[k] != ServeCkp { assert r[k] == es[k]; }
    }
  }

  lemma {:induction false} TakesBefore(es: seq<Event>, e: Event, i: nat)
    requires i < |es|
    ensures Takes(es + [e], i) <==> Takes(es, i)
    ensures AskedBefore(es + [e], i) <==> AskedBefore(es, i)
  {
    forall j | 0 <= j < i ensures es[j] == (es + [e])[j] {}
  }

  /** What the system remembers of a run. */
  ghost predicate Remembers(s: System, client: Dir, server: Dir, es: seq<Event>)
    requires Runs(Initial(client, server), es)
  {
    && (s.ckptReq <==> AskedBefore(es, |es|))
    && (s.snapshot.Some? <==> exists i: nat :: Takes(es, i))
    && forall i: nat :: LastTake(es, i) ==>
         Runs(Initial(client, server), es[..i]) && s.snapshot == Some(Run(Initial(client, server), es[..i]).vm)
  }

  lemma {:induction false} RunsPrefix(s: System, es: seq<Event>, i: nat)
    requires Runs(s, es) && i <= |es|
    ensures Runs(s, es[..i])
    decreases |es| - i
  {
    if i < |es| {
      RunsPrefix(s, es, i + 1);
      assert es[..i + 1] == es[..i] + [es[i]];
      RunMore(s, es[..i], es[i]);
    } else {
      assert es[..i] == es;
    }
  }

  /** In every run there is a snapshot exactly if the server has looked at a request after the user asked
      for a checkpoint, and it holds the machine as it was when that last happened. */
  lemma {:induction false} SnapshotTaken(client: Dir, server: Dir, es: seq<Event>)
    requires Runs(Initial(client, server), es)
    ensures Remembers(Run(Initial(client, server), es), client, server, es)
    decreases |es|
  {
    if es == [] {
      assert forall i: nat :: !Takes(es, i);
    } else {
      var n := |es| - 1;
      var before, e := es[..n], es[n];
      assert es == before + [e];
      RunMore(Initial(client, server), before, e);
      SnapshotTaken(client, server, before);
      SnapshotStep(Run(Initial(client, server), before), client, server, before, e);
    }
  }

  lemma {:induction false} SnapshotStep(s: System, client: Dir, server: Dir, es: seq<Event>, e: Event)
    requires Runs(Initial(client, server), es + [e]) && Runs(Initial(client, server), es)
    requires s == Run(Initial(client, server), es) && Enabled(s, e) && Remembers(s, client, server, es)
    ensures Remembers(Step(s, e), client, server, es + [e])
  {
    var r, n := es + [e], |es|;
    AskedMore(es, e);
    AsksOrServes(s, e);
    forall i: nat ensures Takes(r, i) <==> if i == n then e == ServeCkp && s.ckptReq else Takes(es, i) {
      if i < n { TakesBefore(es, e, i); }
      if i == n { AskedSame(es, e); }
      if i > n && Takes(es, i) { TakesWithin(es, i); }
    }
    hide Step, Enabled, Runs, Run, Takes, AskedBefore;
    if e == ServeCkp && s.ckptReq {
      OneMoreTake(s, client, server, es, e);
    } else {
      SameTakes(s, client, server, es, e);
    }
  }

  lemma {:induction false} OneMoreTake(s: System, client: Dir, server: Dir, es: seq<Event>, e: Event)
    requires Runs(Initial(client, server), es + [e]) && Runs(Initial(client, server), es)
    requires s == Run(Initial(client, server), es) && Enabled(s, e) && e == ServeCkp && s.ckptReq
    requires Step(s, e).ckptReq <==> AskedBefore(es + [e], |es| + 1)
    requires forall i: nat :: Takes(es + [e], i) <==> i == |es| || Takes(es, i)
    ensures Remembers(Step(s, e), client, server, es + [e])
  {
    var r, n := es + [e], |es|;
    hide Runs, Run, AskedBefore, Takes;
    assert r[..n] == es && Takes(r, n);
    forall i: nat | LastTake(r, i) ensures i == n {
      if Takes(es, i) { TakesWithin(es, i); }
    }
  }

  lemma {:induction false} SameTakes(s: System, client: Dir, server: Dir, es: seq<Event>, e: Event)
    requires Runs(Initial(client, server), es + [e]) && Runs(Initial(client, server), es)
    requires s == Run(Initial(client, server), es) && Enabled(s, e) && !(e == ServeCkp && s.ckptReq)
    requires Remembers(s, client, server, es) && (Step(s, e).ckptReq <==> AskedBefore(es + [e], |es| + 1))
    requires forall i: nat :: Takes(es + [e], i) <==> Takes(es, i)
    ensures Remembers(Step(s, e), client, server, es + [e])
  {
    var r, init := es + [e], Initial(client, server);
    NoSnapshot(s, e);
    hide Runs, Run, AskedBefore, Takes, Step, Enabled;
    forall i: nat | LastTake(r, i)
      ensures Runs(init, r[..i]) && Step(s, e).snapshot == Some(Run(init, r[..i]).vm)
    {
      assert LastTake(es, i);
      TakesWithin(es, i);
      assert r[..i] == es[..i];
    }
  }

  lemma {:induction false} AsksOrServes(s: System, e: Event)
    requires Enabled(s, e)
    ensures Step(s, e).ckptReq <==> e == UserAsks || (e != ServeCkp && s.ckptReq)
  {}

  lemma {:induction false} NoSnapshot(s: System, e: Event)
    requires Enabled(s, e) && !(e == ServeCkp && s.ckptReq)
    ensures Step(s, e).snapshot == s.snapshot
  {}

  lemma {:induction false} TakesWithin(es: seq<Event>, i: nat)
    requires Takes(es, i)
    ensures i < |es|
  {}

  lemma {:induction false} AskedSame(es: seq<Event>, e: Event)
    ensures AskedBefore(es + [e], |es|) <==> AskedBefore(es, |es|)
  {
    forall j | 0 <= j < |es| ensures es[j] == (es + [e])[j] {}
  }

  // ----- where the client can be

  /** A client that has been checkpointed does not ask again, and one that has not does not fetch, send or
      ask to be taken back. */
  predicate PlaceRight(m: Machine) {
    match m.place
    case Working => true
    case AwaitAnswer => !m.checkpointed
    case BeforeGet => m.checkpointed
    case BeforeSet => m.checkpointed
    case BeforeRestore => m.checkpointed
  }

  predicate PlacesRight(s: System) {
    PlaceRight(s.vm) && (s.snapshot.Some? ==> PlaceRight(s.snapshot.value))
  }

  lemma {:induction false} StepPlaces(s: System, e: Event)
    requires PlacesRight(s) && Enabled(s, e) && Invariant(s)
    ensures PlacesRight(Step(s, e))
  {}

  /** In every run. */
  lemma {:induction false} RunPlaces(s: System, es: seq<Event>)
    requires PlacesRight(s) && Invariant(s) && Runs(s, es)
    ensures PlacesRight(Run(s, es))
    decreases |es|
  {
    hide Invariant, Step, PlacesRight;
    if es != [] {
      StepKeeps(s, es[0]);
      StepPlaces(s, es[0]);
      RunPlaces(Step(s, es[0]), es[1..]);
    }
  }

  // ----- what an answer leads to

  /** As long as it is not taken back to a snapshot, a client counts as checkpointed exactly if it did
      before, or has been told so, or has waited for the answer in vain. */
  lemma {:induction false} CheckpointedSince(s: System, es: seq<Event>)
    requires Runs(s, es) && Res !in es
    ensures Run(s, es).vm.checkpointed <==> s.vm.checkpointed || AnswerYes in es || Timeout in es
    decreases |es|
  {
    if es != [] {
      CheckpointedStep(s, es[0]);
      hide Step, Enabled;
      CheckpointedSince(Step(s, es[0]), es[1..]);
      assert es == [es[0]] + es[1..];
    }
  }

  lemma CheckpointedStep(s: System, e: Event)
    requires Enabled(s, e) && e != Res
    ensures Step(s, e).vm.checkpointed <==> s.vm.checkpointed || e == AnswerYes || e == Timeout
  {}

  /** What can happen around a client that is fetching: the user asks, the server looks at a request, or
      the files come. */
  predicate AroundFetch(e: Event) {
    e == UserAsks || e == ServeCkp || e == BeginGet || e.GetFile?
  }

  ghost predicate Fetching(s: System) { s.vm.place == BeforeGet && !s.busy.Setting? }

  /** A client that may have been taken back to a snapshot, as it was told yes or waited in vain, does
      nothing else until it has fetched the files that the server has for it. */
  lemma {:induction false} AnsweredFetches(s: System, es: seq<Event>)
    requires Runs(s, es) && |es| > 0 && (es[0] == AnswerYes || es[0] == Timeout) && EndGet !in es
    ensures Fetching(Run(s, es)) && forall i :: 1 <= i < |es| ==> AroundFetch(es[i])
  {
    assert Fetching(Step(s, es[0]));
    FetchGoesOn(Step(s, es[0]), es[1..]);
    forall i | 1 <= i < |es| ensures AroundFetch(es[i]) { assert es[i] == es[1..][i - 1]; }
  }

  lemma {:induction false} FetchGoesOn(s: System, es: seq<Event>)
    requires Runs(s, es) && Fetching(s) && EndGet !in es
    ensures Fetching(Run(s, es)) && forall i :: 0 <= i < |es| ==> AroundFetch(es[i])
    decreases |es|
  {
    if es != [] {
      FetchStep(s, es[0]);
      hide Step, Enabled, Fetching;
      FetchGoesOn(Step(s, es[0]), es[1..]);
      forall i | 0 <= i < |es| ensures AroundFetch(es[i]) {
        if i > 0 { assert es[i] == es[1..][i - 1]; }
      }
    }
  }

  lemma FetchStep(s: System, e: Event)
    requires Fetching(s) && Enabled(s, e) && e != EndGet
    ensures AroundFetch(e) && Fetching(Step(s, e))
  {}
}
