// A clone that passes the argument checks can get to its end whatever the other
// calls are at: nothing on the way waits for them.

module CloneFinish {
  import opened Wrappers
  import opened CloneModel
  import opened CloneInv
  import opened CloneSteps
  import opened CloneTheorems
  import opened CloneReach
  import opened CloneWitness
  import CloneLadder

  // Run r' goes on from r with moves of call w.
  ghost predicate Continues(r: Run, r': Run, w: nat)
  {
    && |r.ss| <= |r'.ss| && r'.ss[..|r.ss|] == r.ss && |r.ms| <= |r'.ms| && r'.ms[..|r.ms|] == r.ms
    && forall k :: |r.ms| <= k < |r'.ms| ==> r'.ms[k].w == w
  }

  lemma {:induction false} ContinuesOn(r: Run, r1: Run, r2: Run, w: nat)
    requires Continues(r, r1, w) && Continues(r1, r2, w)
    ensures Continues(r, r2, w)
  {
    assert r2.ss[..|r.ss|] == r1.ss[..|r.ss|];
    assert r2.ms[..|r.ms|] == r1.ms[..|r.ms|];
    forall k | |r.ms| <= k < |r2.ms| ensures r2.ms[k].w == w {
      if k < |r1.ms| { assert r2.ms[k] == r2.ms[..|r1.ms|][k] == r1.ms[k]; }
    }
  }

  lemma {:induction false} ContinuesBy(r: Run, m: Move) returns (r': Run)
    requires Valid(r) && Enabled(Now(r), m)
    ensures Valid(r') && r'.ms == r.ms + [m] && r'.ss == r.ss + [Now(r')] && Now(r') == Apply(Now(r), m)
    ensures Continues(r, r', m.w)
  {
    r' := Extend(r, m);
  }

  // Call w is cloning task `cur` with flags f and is at a stage.
  predicate Cloning(s: State, w: nat, cur: nat, f: Flags, stage: Stage)
  {
    && w < |s.calls| && s.calls[w].Clone? && s.calls[w].stage == stage
    && s.calls[w].b.cur == cur && s.calls[w].b.flags == f && cur in s.tasks
  }

  // Only call w is different.
  predicate OnlyCalls(s: State, s': State, w: nat)
  {
    w < |s.calls| == |s'.calls| && s'.tasks == s.tasks && s'.calls == s.calls[w := s'.calls[w]]
  }

  lemma {:induction false} OnlyCallsOn(s: State, s1: State, s2: State, w: nat)
    requires OnlyCalls(s, s1, w) && OnlyCalls(s1, s2, w)
    ensures OnlyCalls(s, s2, w)
  {
  }

  lemma {:induction false} GoodStep(s: State, w: nat, cur: nat, f: Flags, stage: Stage) returns (m: Move)
    requires Cloning(s, w, cur, f, stage)
    ensures Enabled(s, m) && m.Step? && m.ok && m.w == w
  {
    var id := FreeName(s);
    var a := AboveAll(s.kvLive);
    m := Step(w, true, id, BothOk(a, a + 1));
  }

  // One stage more.
  lemma {:induction false} NextStage(r: Run, w: nat, cur: nat, f: Flags, stage: Stage) returns (r': Run, next: Stage)
    requires Valid(r) && Cloning(Now(r), w, cur, f, stage) && stage != AtPublish
    ensures Valid(r') && Continues(r, r', w) && OnlyCalls(Now(r), Now(r'), w)
    ensures Cloning(Now(r'), w, cur, f, next) && StageNo(next) > StageNo(stage)
  {
    var s := Now(r);
    var m := GoodStep(s, w, cur, f, stage);
    r' := ContinuesBy(r, m);
    StepFrame(s, w, m.id, m.kv);
    SameMaker(s.calls[w].b, stage, s.tasks[cur], m.id, m.kv);
    StageNoGrows(s.calls[w].b, stage, s.tasks[cur], m.id, m.kv);
    next := Advance(s.calls[w].b, stage, s.tasks[cur], m.id, m.kv).next;
  }

  lemma {:induction false} ReachPublish(r: Run, w: nat, cur: nat, f: Flags, stage: Stage) returns (r': Run)
    requires Valid(r) && Cloning(Now(r), w, cur, f, stage)
    ensures Valid(r') && Continues(r, r', w) && OnlyCalls(Now(r), Now(r'), w)
    ensures Cloning(Now(r'), w, cur, f, AtPublish)
    decreases 50 - StageNo(stage)
  {
    r' := r;
    if stage != AtPublish {
      var r1, next := NextStage(r, w, cur, f, stage);
      r' := ReachPublish(r1, w, cur, f, next);
      ContinuesOn(r, r1, r', w);
      OnlyCallsOn(Now(r), Now(r1), Now(r'), w);
    }
  }

  // The new task is the only difference among the tasks, and call w is idle.
  predicate Cloned(s: State, s': State, w: nat, nr: nat)
  {
    && w < |s.calls| && s'.calls == s.calls[w := Idle]
    && nr !in s.tasks && nr in s'.tasks && s'.tasks == s.tasks[nr := s'.tasks[nr]]
  }

  // From any state of any run, a clone that can start can be carried through by
  // its own steps: a new task appears, sharing what the flags ask for.
  lemma {:induction false} CloneCanFinish(r: Run, w: nat, cur: nat, f: Flags, e: Caller) returns (r': Run, nr: nat)
    requires Valid(r) && w < |Now(r).calls| && AtRest(Now(r).calls[w]) && cur in Now(r).tasks && !Rejected(f, e)
    requires forall u :: 0 <= u < |Now(r).calls| ==> !Busy(Now(r).calls[u], cur)
    ensures Valid(r') && Continues(r, r', w) && Cloned(Now(r), Now(r'), w, nr)
    ensures SharedByFlags(f, Now(r).tasks[cur], Now(r').tasks[nr])
  {
    var m := CloneStarts(Now(r), w, cur, f, e);
    var r1 := ContinuesBy(r, m);
    var r2 := ReachPublish(r1, w, cur, f, AtSignals);
    r', nr := Shows(r2, w, cur, f);
    ContinuesOn(r, r1, r2, w);
    ContinuesOn(r, r2, r', w);
    OnlyCallsOn(Now(r), Now(r1), Now(r2), w);
    ClonedInAll(Now(r), Now(r2), Now(r'), w, nr);
  }

  lemma {:induction false} CloneStarts(s: State, w: nat, cur: nat, f: Flags, e: Caller) returns (m: Move)
    requires w < |s.calls| && AtRest(s.calls[w]) && cur in s.tasks && !Rejected(f, e)
    requires forall u :: 0 <= u < |s.calls| ==> !Busy(s.calls[u], cur)
    ensures Enabled(s, m) && m.w == w && OnlyCalls(s, Apply(s, m), w) && Cloning(Apply(s, m), w, cur, f, AtSignals)
  {
    m := StartClone(w, cur, f, e);
  }

  lemma {:induction false} ClonedInAll(s: State, s1: State, s2: State, w: nat, nr: nat)
    requires OnlyCalls(s, s1, w) && Cloned(s1, s2, w, nr)
    ensures Cloned(s, s2, w, nr)
  {
  }

  lemma {:induction false} Shows(r: Run, w: nat, cur: nat, f: Flags) returns (r': Run, nr: nat)
    requires Valid(r) && Cloning(Now(r), w, cur, f, AtPublish)
    ensures Valid(r') && Continues(r, r', w) && Cloned(Now(r), Now(r'), w, nr)
    ensures SharedByFlags(f, Now(r).tasks[cur], Now(r').tasks[nr])
  {
    var m := GoodStep(Now(r), w, cur, f, AtPublish);
    r' := ContinuesBy(r, m);
    nr := Now(r).calls[w].b.nr;
    PublishFrame(Now(r), m);
    assert r'.ss[|r.ms|] == Now(r) && r'.ms[|r.ms|] == m;
    CloneSharesByFlags(r'.ss, r'.ms, |r.ms|);
  }

  // ---------------------------------------------------------------- what a clone has taken by then

  function Only(c: bool, r: Resource): seq<Resource>
  {
    if c then [r] else []
  }

  function RefTo(kind: Kind, id: Option<nat>): seq<Resource>
  {
    if id.Some? then [Ref(Obj(kind, id.value))] else []
  }

  // What a new task with flags f takes, in order. First the node on the
  // delayed-signal list, unless it is a thread, and what every task has.
  function StructLog(f: Flags): seq<Resource>
  {
    Only(!f.thread, Node) + [TaskStruct, Stack] + [Creds, ProcCount] + [DelayAcct]
  }

  function HookLog(f: Flags): seq<Resource>
  {
    StructLog(f) + [Mempolicy, Lockdep] + [Perf] + [Audit]
  }

  // Then its undo list, if shared, and one reference for each object it points at.
  function FileLog(f: Flags, p: Task): seq<Resource>
  {
    HookLog(f) + [Security] + Only(f.sysvsem, SemUndo) + RefTo(FilesKind, p.files)
  }

  function RefLog(f: Flags, p: Task): seq<Resource>
  {
    FileLog(f, p) + RefTo(FsKind, Some(p.fs)) + RefTo(SighandKind, Some(p.sighand))
    + Only(!f.thread, Ref(Obj(SignalKind, p.signal)))
  }

  function MmLog(f: Flags, p: Task, io: bool): seq<Resource>
  {
    RefLog(f, p) + RefTo(MmKind, p.mm) + [Namespaces] + Only(io, IoContext)
  }

  // Last its pid, the pidfd, if asked for, and its places among the cgroups and
  // the scheduler.
  function FullLog(f: Flags, p: Task, io: bool, nr: nat): seq<Resource>
  {
    MmLog(f, p, io) + [Thread] + [Pid(nr)] + (if f.pidfd then [Fd, PidFile] else []) + [Cgroup, SchedCore]
  }

  // One label up.
  lemma {:induction false} Rung(l: Label, b: Build, before: seq<Resource>, part: seq<Resource>)
    requires l != ForkOut && Owed(Below(l), b) == before
    requires |Releases(l, b)| <= 2 && CloneLadder.Flip(Releases(l, b)) == part
    ensures Owed(l, b) == before + part
  {
    CloneLadder.RungIs(l, b, part);
  }

  lemma {:induction false} FirstRung(b: Build)
    ensures Owed(ForkOut, b) == Only(!b.flags.thread, Node)
  {
    assert Owed(ForkOut, b) == [] + Reverse(Releases(ForkOut, b));
    CloneLadder.ReverseIsFlip(Releases(ForkOut, b));
  }

  lemma {:induction false} StructRungs(b: Build)
    ensures Owed(CleanupThreadgroupLock, b) == StructLog(b.flags)
  {
    var log := Only(!b.flags.thread, Node);
    FirstRung(b);
    Rung(BadFree, b, log, [TaskStruct, Stack]);
    Rung(CleanupCount, b, log + [TaskStruct, Stack], [Creds, ProcCount]);
    Rung(CleanupThreadgroupLock, b, log + [TaskStruct, Stack] + [Creds, ProcCount], [DelayAcct]);
  }

  lemma {:induction false} HookRungs(b: Build, log: seq<Resource>)
    requires Owed(CleanupThreadgroupLock, b) == log
    ensures Owed(CleanupAudit, b) == log + [Mempolicy, Lockdep] + [Perf] + [Audit]
  {
    Rung(CleanupPolicy, b, log, [Mempolicy, Lockdep]);
    Rung(CleanupPerf, b, log + [Mempolicy, Lockdep], [Perf]);
    Rung(CleanupAudit, b, log + [Mempolicy, Lockdep] + [Perf], [Audit]);
  }

  lemma {:induction false} FileRungs(b: Build, log: seq<Resource>)
    requires Owed(CleanupAudit, b) == log
    ensures Owed(CleanupFiles, b) == log + [Security] + Only(b.undo, SemUndo) + RefTo(FilesKind, b.p.files)
  {
    Rung(CleanupSecurity, b, log, [Security]);
    Rung(CleanupSemundo, b, log + [Security], Only(b.undo, SemUndo));
    Rung(CleanupFiles, b, log + [Security] + Only(b.undo, SemUndo), RefTo(FilesKind, b.p.files));
  }

  lemma {:induction false} RefRungs(b: Build, log: seq<Resource>)
    requires Owed(CleanupFiles, b) == log
    ensures Owed(CleanupSignal, b) == log + RefTo(FsKind, Some(b.p.fs)) + RefTo(SighandKind, Some(b.p.sighand))
      + Only(!b.flags.thread, Ref(Obj(SignalKind, b.p.signal)))
  {
    var fs, sighand := RefTo(FsKind, Some(b.p.fs)), RefTo(SighandKind, Some(b.p.sighand));
    Rung(CleanupFs, b, log, fs);
    Rung(CleanupSighand, b, log + fs, sighand);
    Rung(CleanupSignal, b, log + fs + sighand, Only(!b.flags.thread, Ref(Obj(SignalKind, b.p.signal))));
  }

  lemma {:induction false} MmRungs(b: Build, log: seq<Resource>)
    requires Owed(CleanupSignal, b) == log
    ensures Owed(CleanupIo, b) == log + RefTo(MmKind, b.p.mm) + [Namespaces] + Only(b.io, IoContext)
  {
    Rung(CleanupMm, b, log, RefTo(MmKind, b.p.mm));
    Rung(CleanupNamespaces, b, log + RefTo(MmKind, b.p.mm), [Namespaces]);
    Rung(CleanupIo, b, log + RefTo(MmKind, b.p.mm) + [Namespaces], Only(b.io, IoContext));
  }

  lemma {:induction false} LastRungs(b: Build, log: seq<Resource>)
    requires Owed(CleanupIo, b) == log
    ensures Owed(CancelCgroup, b)
      == log + [Thread] + [Pid(b.nr)] + (if b.flags.pidfd then [Fd, PidFile] else []) + [Cgroup, SchedCore]
  {
    var pidfd := if b.flags.pidfd then [Fd, PidFile] else [];
    Rung(CleanupThread, b, log, [Thread]);
    Rung(FreePid, b, log + [Thread], [Pid(b.nr)]);
    Rung(PutPidfd, b, log + [Thread] + [Pid(b.nr)], pidfd);
    Rung(CancelCgroup, b, log + [Thread] + [Pid(b.nr)] + pidfd, [Cgroup, SchedCore]);
  }

  // The undo list is taken with CLONE_SYSVSEM.
  predicate UndoAsAsked(c: Call)
  {
    c.Clone? && StageNo(c.stage) > StageNo(AtSemundo) ==> c.b.undo == c.b.flags.sysvsem
  }

  lemma {:induction false} StageUndo(b: Build, stage: Stage, me: Task, id: nat, kv: KvResult, got: seq<Resource>)
    requires stage != AtPublish && UndoAsAsked(Clone(b, stage, got))
    ensures var r := Advance(b, stage, me, id, kv); UndoAsAsked(Clone(r.b, r.next, got + r.more))
  {
    AfterNo(stage, b.flags.pidfd);
    if StageNo(stage) == StageNo(AtSemundo) { SameNo(stage, AtSemundo); }
  }

  lemma {:induction false} MoveUndo(s: State, m: Move, w: nat)
    requires Enabled(s, m) && w < |s.calls| && UndoAsAsked(s.calls[w])
    ensures w < |Apply(s, m).calls| && UndoAsAsked(Apply(s, m).calls[w])
  {
    MoveFrame(s, m);
    if m.w == w && m.Step? {
      var c := s.calls[w];
      if m.ok && c.stage != AtPublish {
        StepFrame(s, w, m.id, m.kv);
        StageUndo(c.b, c.stage, s.tasks[c.b.cur], m.id, m.kv, c.got);
      }
    }
  }

  lemma {:induction false} RunUndo(ss: seq<State>, ms: seq<Move>, k: nat, w: nat)
    requires IsRun(ss, ms) && k < |ss| && w < |ss[k].calls|
    ensures UndoAsAsked(ss[k].calls[w])
  {
    if k > 0 {
      assert ss[k] == Apply(ss[k - 1], ms[k - 1]);
      MoveFrame(ss[k - 1], ms[k - 1]);
      RunUndo(ss, ms, k - 1, w);
      MoveUndo(ss[k - 1], ms[k - 1], w);
    }
  }

  // When its new task is about to become visible a clone has taken exactly these
  // things, in this order.
  lemma {:induction false} CloneTakesAll(ss: seq<State>, ms: seq<Move>, k: nat, w: nat)
    requires IsRun(ss, ms) && k < |ss| && w < |ss[k].calls| && ss[k].calls[w].Clone?
    requires ss[k].calls[w].stage == AtPublish
    ensures var b := ss[k].calls[w].b; ss[k].calls[w].got == FullLog(b.flags, b.p, b.io, b.nr)
  {
    RunCallOk(ss, ms, k, w);
    RunUndo(ss, ms, k, w);
    LogAtPublish(ss[k].calls[w]);
  }

  lemma {:induction false} LogAtPublish(c: Call)
    requires c.Clone? && c.stage == AtPublish && LogOk(c) && UndoAsAsked(c)
    ensures c.got == FullLog(c.b.flags, c.b.p, c.b.io, c.b.nr)
  {
    AllRungs(c.b);
  }

  lemma {:induction false} AllRungs(b: Build)
    requires b.undo == b.flags.sysvsem
    ensures Owed(CancelCgroup, b) == FullLog(b.flags, b.p, b.io, b.nr)
  {
    StructRungs(b);
    HookRungs(b, StructLog(b.flags));
    FileRungs(b, HookLog(b.flags));
    RefRungs(b, FileLog(b.flags, b.p));
    MmRungs(b, RefLog(b.flags, b.p));
    LastRungs(b, MmLog(b.flags, b.p, b.io));
  }
}
