// Every step keeps what holds of the calls, the pids and the thread groups.

module CloneSteps {
  import opened CloneModel
  import opened CloneInv
  import CloneLadder
  import CloneCounts

  ghost predicate Inv(s: State)
  {
    CountInv(s) && CallInv(s) && PidInv(s) && GroupInv(s)
  }

  // The parts of a task that no unshare changes.
  predicate SameButFs(t: Task, t': Task)
  {
    t' == t.(fs := t'.fs, files := t'.files)
  }

  // What a move does to the tasks: it may add one with a new pid, or change fs
  // and files of the one task the call works for.
  ghost predicate TasksStep(s: State, m: Move, s': State)
  {
    && (forall t :: t in s.tasks ==> t in s'.tasks && SameButFs(s.tasks[t], s'.tasks[t]))
    && (forall t :: t in s.tasks && s'.tasks[t] != s.tasks[t] ==>
          m.w < |s.calls| && s.calls[m.w].Unshare? && s.calls[m.w].cur == t)
    && (forall t :: t in s'.tasks && t !in s.tasks ==> m.w < |s.calls| && OwnsNr(s.calls[m.w], t))
  }

  // The tasks after a move.
  function TasksAfter(s: State, m: Move): map<nat, Task>
    requires Enabled(s, m)
  {
    var c := s.calls[m.w];
    if m.Step? && m.ok && c.stage == AtPublish then s.tasks[c.b.nr := c.b.p]
    else if m.UStep? then s.tasks[c.cur := UnshareTask(s.tasks[c.cur], c)]
    else s.tasks
  }

  lemma {:induction false} MoveFrame(s: State, m: Move)
    requires Enabled(s, m)
    ensures Apply(s, m).tasks == TasksAfter(s, m)
    ensures |Apply(s, m).calls| == |s.calls|
    ensures Apply(s, m).calls == s.calls[m.w := Apply(s, m).calls[m.w]]
  {
    match m
    case StartClone(_, _, _, _) =>
    case StartUnshare(_, _, _) =>
    case Step(w, ok, id, kv) =>
      if !ok { FailFrame(s, w); } else if s.calls[w].stage != AtPublish { StepFrame(s, w, id, kv); }
    case Fall(w) => FallFrame(s, w);
    case UStep(w, ok, id) => UnshareFrame(s, w, ok, id);
  }

  lemma {:induction false} FailFrame(s: State, w: nat)
    requires w < |s.calls| && s.calls[w].Clone?
    ensures var s' := StepFails(s, w);
      s'.tasks == s.tasks && |s'.calls| == |s.calls| && s'.calls == s.calls[w := s'.calls[w]]
  {
  }

  lemma {:induction false} UnshareFrame(s: State, w: nat, ok: bool, id: nat)
    requires Enabled(s, UStep(w, ok, id))
    ensures var s' := UnshareStepOf(s, w, ok, id); var c := s.calls[w];
      && s'.tasks == s.tasks[c.cur := UnshareTask(s.tasks[c.cur], c)]
      && |s'.calls| == |s.calls| && s'.calls == s.calls[w := s'.calls[w]]
  {
  }

  lemma {:induction false} FallFrame(s: State, w: nat)
    requires Enabled(s, Fall(w))
    ensures var s' := FallThrough(s, w);
      s'.tasks == s.tasks && |s'.calls| == |s.calls| && s'.calls == s.calls[w := s'.calls[w]]
  {
  }

  lemma {:induction false} StepFrame(s: State, w: nat, id: nat, kv: KvResult)
    requires Enabled(s, Step(w, true, id, kv)) && s.calls[w].stage != AtPublish
    ensures var s' := StepOk(s, w, id, kv); var c := s.calls[w];
      var r := Advance(c.b, c.stage, s.tasks[c.b.cur], id, kv);
      && s'.tasks == s.tasks && s'.calls == s.calls[w := Clone(r.b, r.next, c.got + r.more)]
      && s'.pids == if c.stage == AtPid then s.pids + {id} else s.pids
  {
  }

  lemma {:induction false} MoveTasks(s: State, m: Move)
    requires Enabled(s, m) && CallOk(s, s.calls[m.w])
    ensures TasksStep(s, m, Apply(s, m))
  {
    var c := s.calls[m.w];
    MoveFrame(s, m);
    if Publishes(s, m) {
      PublishIsNew(s, c);
      TaskAdded(s, m, Apply(s, m), c.b.nr, c.b.p);
    } else if m.UStep? {
      UnshareSwaps(s.tasks[c.cur], c);
      TaskChanged(s, m, Apply(s, m), c.cur, UnshareTask(s.tasks[c.cur], c));
    }
  }

  lemma {:induction false} UnshareSwaps(me: Task, c: Call)
    requires c.Unshare?
    ensures SameButFs(me, UnshareTask(me, c))
  {
  }

  lemma {:induction false} TaskAdded(s: State, m: Move, s': State, nr: nat, p: Task)
    requires nr !in s.tasks && s'.tasks == s.tasks[nr := p] && m.w < |s.calls| && OwnsNr(s.calls[m.w], nr)
    ensures TasksStep(s, m, s')
  {
  }

  lemma {:induction false} TaskChanged(s: State, m: Move, s': State, cur: nat, me: Task)
    requires cur in s.tasks && s'.tasks == s.tasks[cur := me] && SameButFs(s.tasks[cur], me)
    requires m.w < |s.calls| && s.calls[m.w].Unshare? && s.calls[m.w].cur == cur
    ensures TasksStep(s, m, s')
  {
  }

  lemma {:induction false} PublishIsNew(s: State, c: Call)
    requires c.Clone? && c.stage == AtPublish && CallOk(s, c)
    ensures c.b.nr !in s.tasks && OwnsNr(c, c.b.nr)
  {
  }

  // Pids come at the pid stage and go at its label.
  lemma {:induction false} MovePids(s: State, m: Move, n: nat)
    requires Enabled(s, m)
    ensures n in s.pids && n !in Apply(s, m).pids ==>
      s.calls[m.w].Unwind? && s.calls[m.w].label_ == FreePid && s.calls[m.w].b.nr == n
    ensures n !in s.pids && n in Apply(s, m).pids ==>
      s.calls[m.w].Clone? && s.calls[m.w].stage == AtPid && Apply(s, m).calls[m.w].Clone?
          && Apply(s, m).calls[m.w].b.nr == n
  {
  }

  // ---------------------------------------------------------------- the other calls

  lemma {:induction false} OthersStayOk(s: State, m: Move, u: nat)
    requires CallInv(s) && Enabled(s, m) && u < |s.calls| && u != m.w
    ensures CallOk(Apply(s, m), s.calls[u])
  {
    var c := s.calls[u];
    assert CallOk(s, c) && CallOk(s, s.calls[m.w]);
    MoveTasks(s, m);
    if c.Clone? || c.Unwind? {
      assert Busy(c, c.b.cur) && !Busy(s.calls[m.w], c.b.cur);
      if Level(c) >= Rank(FreePid) {
        assert OwnsNr(c, c.b.nr) && !OwnsNr(s.calls[m.w], c.b.nr);
        NrKept(s, m, c.b.nr);
      }
      KeepsBuild(s, Apply(s, m), c);
    }
  }

  // A pid that another call holds stays allocated and unused.
  lemma {:induction false} NrKept(s: State, m: Move, n: nat)
    requires Enabled(s, m) && n in s.pids && n !in s.tasks && !OwnsNr(s.calls[m.w], n) && TasksStep(s, m, Apply(s, m))
    ensures n in Apply(s, m).pids && n !in Apply(s, m).tasks
  {
    MovePids(s, m, n);
  }

  // A half-built task is in order as long as its maker and its pid are left alone.
  lemma {:induction false} KeepsBuild(s: State, s': State, c: Call)
    requires (c.Clone? || c.Unwind?) && CallOk(s, c)
    requires c.b.cur in s'.tasks && s'.tasks[c.b.cur] == s.tasks[c.b.cur]
    requires Level(c) >= Rank(FreePid) ==> c.b.nr in s'.pids && c.b.nr !in s'.tasks
    ensures CallOk(s', c)
  {
  }

  // ---------------------------------------------------------------- the call that moves

  lemma {:induction false} StageBuild(s: State, s': State, b: Build, stage: Stage, me: Task, id: nat, kv: KvResult)
    requires stage != AtPublish && BuildOk(s, b, Rank(OnError(stage))) && me == s.tasks[b.cur]
    requires s'.tasks == s.tasks && s'.pids == if stage == AtPid then s.pids + {id} else s.pids
    requires stage == AtPid ==> id !in s.tasks
    ensures var r := Advance(b, stage, me, id, kv); BuildOk(s', r.b, Rank(OnError(r.next)))
  {
    StageFields(s, b, stage, me, id, kv);
    SameMaker(b, stage, me, id, kv);
  }

  lemma {:induction false} StageFields(s: State, b: Build, stage: Stage, me: Task, id: nat, kv: KvResult)
    requires stage != AtPublish && BuildOk(s, b, Rank(OnError(stage))) && me == s.tasks[b.cur]
    ensures var r := Advance(b, stage, me, id, kv);
      && r.b.cur == b.cur && r.b.flags == b.flags
      && (b.flags.thread ==> r.b.p.signal == me.signal)
      && (b.flags.sighand ==> r.b.p.sighand == me.sighand)
      && (b.flags.vm ==> r.b.p.mm == me.mm)
  {
  }

  // What CallOk says of a clone beside its build.
  predicate StageOk(me: Task, b: Build, stage: Stage)
  {
    && (Rank(OnError(stage)) <= Rank(CleanupSemundo) ==> b.p.files == me.files)
    && ((stage == AtFd || stage == AtPidfile || stage == AtPutUser) ==> b.flags.pidfd)
    && (stage != AtCgroup && stage != AtPublish ==> b.p.kvLocks == me.kvLocks)
  }

  lemma {:induction false} StageKeepsOk(me: Task, b: Build, stage: Stage, id: nat, kv: KvResult)
    requires stage != AtPublish && StageOk(me, b, stage)
    ensures var r := Advance(b, stage, me, id, kv); StageOk(me, r.b, r.next)
  {
    StageFiles(me, b, stage, id, kv);
    StagePidfd(me, b, stage, id, kv);
    StageLocks(me, b, stage, id, kv);
  }

  lemma {:induction false} StageFiles(me: Task, b: Build, stage: Stage, id: nat, kv: KvResult)
    requires stage != AtPublish && (Rank(OnError(stage)) <= Rank(CleanupSemundo) ==> b.p.files == me.files)
    ensures var r := Advance(b, stage, me, id, kv);
      Rank(OnError(r.next)) <= Rank(CleanupSemundo) ==> r.b.p.files == me.files
  {
    LowLevels(stage);
    LowLevels(After(stage, b.flags.pidfd));
    AfterNo(stage, b.flags.pidfd);
  }

  lemma {:induction false} StagePidfd(me: Task, b: Build, stage: Stage, id: nat, kv: KvResult)
    requires stage != AtPublish && ((stage == AtFd || stage == AtPidfile || stage == AtPutUser) ==> b.flags.pidfd)
    ensures var r := Advance(b, stage, me, id, kv);
      (r.next == AtFd || r.next == AtPidfile || r.next == AtPutUser) ==> r.b.flags.pidfd
  {
  }

  lemma {:induction false} StageLocks(me: Task, b: Build, stage: Stage, id: nat, kv: KvResult)
    requires stage != AtPublish && (stage != AtCgroup && stage != AtPublish ==> b.p.kvLocks == me.kvLocks)
    ensures var r := Advance(b, stage, me, id, kv);
      r.next != AtCgroup && r.next != AtPublish ==> r.b.p.kvLocks == me.kvLocks
  {
  }

  lemma {:induction false} LastStages(me: Task, b: Build, stage: Stage, id: nat, kv: KvResult)
    requires stage != AtPublish
    ensures var r := Advance(b, stage, me, id, kv); r.next == AtPublish ==> stage == AtCgroup && r.b == b
    ensures var r := Advance(b, stage, me, id, kv); r.next == AtCgroup ==> stage == AtKv
  {
  }

  lemma {:induction false} StageStaysOk(s: State, w: nat, id: nat, kv: KvResult)
    requires Enabled(s, Step(w, true, id, kv)) && s.calls[w].stage != AtPublish && CallOk(s, s.calls[w])
    requires s.calls[w].stage == AtPid ==> id !in s.tasks
    ensures w < |StepOk(s, w, id, kv).calls| && CallOk(StepOk(s, w, id, kv), StepOk(s, w, id, kv).calls[w])
  {
    StepFrame(s, w, id, kv);
    StageCallOk(s, StepOk(s, w, id, kv), s.calls[w], id, kv);
  }

  lemma {:induction false} StageCallOk(s: State, s': State, c: Call, id: nat, kv: KvResult)
    requires c.Clone? && c.stage != AtPublish && CallOk(s, c)
    requires s'.tasks == s.tasks && s'.pids == if c.stage == AtPid then s.pids + {id} else s.pids
    requires c.stage == AtPid ==> id !in s.tasks
    ensures var r := Advance(c.b, c.stage, s.tasks[c.b.cur], id, kv); CallOk(s', Clone(r.b, r.next, c.got + r.more))
  {
    var me := s.tasks[c.b.cur];
    var r := Advance(c.b, c.stage, me, id, kv);
    OkOfClone(s, c);
    StageBuild(s, s', c.b, c.stage, me, id, kv);
    StageKeepsOk(me, c.b, c.stage, id, kv);
    LastStages(me, c.b, c.stage, id, kv);
    if c.stage == AtKv || c.stage == AtCgroup { StageReady(s, s', c.b, c.stage, id, kv); }
    CloneOk(s', Clone(r.b, r.next, c.got + r.more));
  }

  lemma {:induction false} OkOfClone(s: State, c: Call)
    requires c.Clone? && CallOk(s, c)
    ensures BuildOk(s, c.b, Level(c)) && StageOk(s.tasks[c.b.cur], c.b, c.stage)
    ensures (c.stage == AtCgroup || c.stage == AtPublish) ==> Ready(s, c.b)
  {
  }

  lemma {:induction false} CloneOk(s: State, c: Call)
    requires c.Clone? && BuildOk(s, c.b, Level(c)) && StageOk(s.tasks[c.b.cur], c.b, c.stage)
    requires (c.stage == AtCgroup || c.stage == AtPublish) ==> Ready(s, c.b)
    ensures CallOk(s, c)
  {
  }

  lemma {:induction false} StageReady(s: State, s': State, b: Build, stage: Stage, id: nat, kv: KvResult)
    requires (stage == AtKv || stage == AtCgroup) && b.cur in s.tasks && s'.tasks == s.tasks
    requires stage == AtCgroup ==> Ready(s, b)
    requires stage == AtKv ==> b.p.kvLocks == s.tasks[b.cur].kvLocks
    ensures Ready(s', Advance(b, stage, s.tasks[b.cur], id, kv).b)
  {
  }

  lemma {:induction false} MoverStaysOk(s: State, m: Move)
    requires m.w < |s.calls| && CallOk(s, s.calls[m.w]) && Enabled(s, m) && (forall t :: t in s.tasks ==> t in s.pids)
    ensures m.w < |Apply(s, m).calls| && CallOk(Apply(s, m), Apply(s, m).calls[m.w])
  {
    match m
    case StartClone(w, cur, f, e) => StartStaysOk(s, w, cur, f, e);
    case Step(w, ok, id, kv) =>
      if !ok { FailStaysOk(s, w); } else if s.calls[w].stage != AtPublish { StageStaysOk(s, w, id, kv); }
    case Fall(w) => FallStaysOk(s, w);
    case StartUnshare(_, _, _) =>
    case UStep(w, ok, id) => UnshareStaysOk(s, w, ok, id);
  }

  lemma {:induction false} StartStaysOk(s: State, w: nat, cur: nat, f: Flags, e: Caller)
    requires Enabled(s, StartClone(w, cur, f, e))
    ensures var s' := Apply(s, StartClone(w, cur, f, e)); CallOk(s', s'.calls[w])
  {
  }

  lemma {:induction false} FailStaysOk(s: State, w: nat)
    requires w < |s.calls| && s.calls[w].Clone? && CallOk(s, s.calls[w])
    ensures CallOk(StepFails(s, w), StepFails(s, w).calls[w])
  {
    OkOfClone(s, s.calls[w]);
    UnwindOk(s, StepFails(s, w), s.calls[w].b, OnError(s.calls[w].stage));
    FailAtPidfile(s.calls[w].stage);
  }

  lemma {:induction false} FailAtPidfile(stage: Stage)
    ensures OnError(stage) == DropFd <==> stage == AtPidfile
  {
  }

  lemma {:induction false} UnwindOk(s: State, s': State, b: Build, l: Label)
    requires s'.tasks == s.tasks && s'.pids == s.pids && BuildOk(s, b, Rank(l))
    ensures BuildOk(s', b, Rank(l))
  {
  }

  lemma {:induction false} FallStaysOk(s: State, w: nat)
    requires Enabled(s, Fall(w)) && CallOk(s, s.calls[w])
    ensures CallOk(FallThrough(s, w), FallThrough(s, w).calls[w])
  {
  }

  lemma {:induction false} UnshareStaysOk(s: State, w: nat, ok: bool, id: nat)
    requires Enabled(s, UStep(w, ok, id)) && CallOk(s, s.calls[w])
    ensures CallOk(UnshareStepOf(s, w, ok, id), UnshareStepOf(s, w, ok, id).calls[w])
  {
  }

  // ---------------------------------------------------------------- all calls together

  lemma {:induction false} BusyStep(s: State, m: Move, t: nat)
    requires Enabled(s, m)
    ensures m.w < |Apply(s, m).calls| && (Busy(Apply(s, m).calls[m.w], t) ==> Busy(s.calls[m.w], t) || Begins(m, t))
  {
    if m.Step? && m.ok && s.calls[m.w].stage != AtPublish {
      StepFrame(s, m.w, m.id, m.kv);
      SameMaker(s.calls[m.w].b, s.calls[m.w].stage, s.tasks[s.calls[m.w].b.cur], m.id, m.kv);
    }
  }

  predicate Begins(m: Move, t: nat)
  {
    (m.StartClone? || m.StartUnshare?) && m.cur == t
  }

  lemma {:induction false} SameMaker(b: Build, stage: Stage, me: Task, id: nat, kv: KvResult)
    requires stage != AtPublish
    ensures Advance(b, stage, me, id, kv).b.cur == b.cur && Advance(b, stage, me, id, kv).b.flags == b.flags
    ensures stage != AtPid ==>
      var r := Advance(b, stage, me, id, kv);
      Rank(OnError(r.next)) >= Rank(FreePid) ==> Rank(OnError(stage)) >= Rank(FreePid) && r.b.nr == b.nr
    ensures stage == AtPid ==> Advance(b, stage, me, id, kv).b.nr == id
  {
    SameNames(b, stage, me, id, kv);
    if stage != AtPid { OnlyAtPid(stage, b.flags.pidfd); }
  }

  lemma {:induction false} SameNames(b: Build, stage: Stage, me: Task, id: nat, kv: KvResult)
    ensures var b' := BuildAfter(b, stage, me, id, kv);
      b'.cur == b.cur && b'.flags == b.flags && b'.nr == if stage == AtPid then id else b.nr
  {
  }

  lemma {:induction false} OnlyAtPid(stage: Stage, pidfd: bool)
    requires stage != AtPublish && stage != AtPid
    ensures Rank(OnError(After(stage, pidfd))) >= Rank(FreePid) ==> Rank(OnError(stage)) >= Rank(FreePid)
  {
    HighLevels(stage);
    HighLevels(After(stage, pidfd));
    AfterNo(stage, pidfd);
    if StageNo(stage) == StageNo(AtPid) { SameNo(stage, AtPid); }
  }

  predicate TakesPid(s: State, m: Move, n: nat)
  {
    m.Step? && m.ok && m.w < |s.calls| && s.calls[m.w].Clone? && s.calls[m.w].stage == AtPid && m.id == n
  }

  lemma {:induction false} NrStep(s: State, m: Move, n: nat)
    requires Enabled(s, m)
    ensures m.w < |Apply(s, m).calls|
    ensures (OwnsNr(Apply(s, m).calls[m.w], n) ==> OwnsNr(s.calls[m.w], n) || TakesPid(s, m, n))
    ensures OwnsNr(s.calls[m.w], n) && !OwnsNr(Apply(s, m).calls[m.w], n) ==>
      n in Apply(s, m).tasks || n !in Apply(s, m).pids
    ensures TakesPid(s, m, n) ==> OwnsNr(Apply(s, m).calls[m.w], n)
  {
    match m
    case StartClone(_, _, _, _) =>
    case StartUnshare(_, _, _) =>
    case Step(w, ok, id, kv) => if ok && s.calls[w].stage != AtPublish { StageNr(s, w, id, kv, n); }
    case Fall(w) => FallNr(s, w, n);
    case UStep(w, ok, id) => UnshareNr(s, s.calls[w], ok, id);
  }

  lemma {:induction false} FallNr(s: State, w: nat, n: nat)
    requires Enabled(s, Fall(w))
    ensures var s' := FallThrough(s, w);
      && w < |s'.calls| && (OwnsNr(s'.calls[w], n) ==> OwnsNr(s.calls[w], n))
      && (OwnsNr(s.calls[w], n) && !OwnsNr(s'.calls[w], n) ==> n !in s'.pids)
  {
  }

  lemma {:induction false} UnshareNr(s: State, c: Call, ok: bool, id: nat)
    requires c.Unshare? && c.cur in s.tasks
    ensures UnshareNext(s, c, ok, id).Unshare? || UnshareNext(s, c, ok, id).Idle?
  {
  }

  lemma {:induction false} StageNr(s: State, w: nat, id: nat, kv: KvResult, n: nat)
    requires Enabled(s, Step(w, true, id, kv)) && s.calls[w].stage != AtPublish
    ensures var s' := StepOk(s, w, id, kv);
      && w < |s'.calls| && (OwnsNr(s.calls[w], n) ==> OwnsNr(s'.calls[w], n))
      && (OwnsNr(s'.calls[w], n) ==> OwnsNr(s.calls[w], n) || (s.calls[w].stage == AtPid && id == n))
      && (s.calls[w].stage == AtPid && id == n ==> OwnsNr(s'.calls[w], n))
  {
    var c := s.calls[w];
    StepFrame(s, w, id, kv);
    SameMaker(c.b, c.stage, s.tasks[c.b.cur], id, kv);
    PidLevels(c.b, c.stage, s.tasks[c.b.cur], id, kv);
  }

  lemma {:induction false} PidLevels(b: Build, stage: Stage, me: Task, id: nat, kv: KvResult)
    requires stage != AtPublish
    ensures Rank(OnError(stage)) >= Rank(FreePid) || stage == AtPid ==>
      Rank(OnError(Advance(b, stage, me, id, kv).next)) >= Rank(FreePid)
    ensures Rank(OnError(stage)) >= Rank(FreePid) ==> Advance(b, stage, me, id, kv).b.nr == b.nr
  {
    Levels(stage);
    Levels(After(stage, b.flags.pidfd));
    AfterNo(stage, b.flags.pidfd);
  }

  lemma {:induction false} AllStayOk(s: State, m: Move, u: nat)
    requires CallInv(s) && PidInv(s) && Enabled(s, m) && u < |s.calls|
    ensures u < |Apply(s, m).calls| && LogOk(Apply(s, m).calls[u]) && CallOk(Apply(s, m), Apply(s, m).calls[u])
  {
    MoveFrame(s, m);
    assert LogOk(s.calls[m.w]) && CallOk(s, s.calls[m.w]) && LogOk(s.calls[u]);
    if u == m.w { CloneLadder.MoveKeepsLog(s, m); MoverStaysOk(s, m); } else { OthersStayOk(s, m, u); }
  }

  lemma {:induction false} OneCallPerTask(s: State, m: Move, w: nat, u: nat, t: nat)
    requires CallInv(s) && Enabled(s, m) && w < |s.calls| && u < |s.calls| && w != u
    ensures w < |Apply(s, m).calls| && u < |Apply(s, m).calls|
    ensures !(Busy(Apply(s, m).calls[w], t) && Busy(Apply(s, m).calls[u], t))
  {
    MoveFrame(s, m);
    BusyStep(s, m, t);
    if Begins(m, t) { NobodyBusy(s, m, t, w); NobodyBusy(s, m, t, u); }
  }

  lemma {:induction false} NobodyBusy(s: State, m: Move, t: nat, u: nat)
    requires Enabled(s, m) && Begins(m, t) && u < |s.calls|
    ensures !Busy(s.calls[u], t)
  {
  }

  lemma {:induction false} OneCallPerPid(s: State, m: Move, w: nat, u: nat, n: nat)
    requires CallInv(s) && Enabled(s, m) && w < |s.calls| && u < |s.calls| && w != u
    ensures w < |Apply(s, m).calls| && u < |Apply(s, m).calls|
    ensures !(OwnsNr(Apply(s, m).calls[w], n) && OwnsNr(Apply(s, m).calls[u], n))
  {
    MoveFrame(s, m);
    NrStep(s, m, n);
    if TakesPid(s, m, n) { NobodyOwns(s, m, n, w); NobodyOwns(s, m, n, u); }
  }

  lemma {:induction false} NobodyOwns(s: State, m: Move, n: nat, u: nat)
    requires CallInv(s) && Enabled(s, m) && TakesPid(s, m, n) && u < |s.calls|
    ensures !OwnsNr(s.calls[u], n)
  {
    assert CallOk(s, s.calls[u]);
  }

  lemma {:induction false} MoveKeepsCalls(s: State, m: Move)
    requires CallInv(s) && PidInv(s) && Enabled(s, m)
    ensures CallInv(Apply(s, m))
  {
    CallsStayOk(s, m);
    CallsStayApart(s, m);
    PidsStayApart(s, m);
  }

  lemma {:induction false} CallsStayOk(s: State, m: Move)
    requires CallInv(s) && PidInv(s) && Enabled(s, m)
    ensures var s' := Apply(s, m); forall u :: 0 <= u < |s'.calls| ==> LogOk(s'.calls[u]) && CallOk(s', s'.calls[u])
  {
    var s' := Apply(s, m);
    assert |s'.calls| == |s.calls| by { MoveFrame(s, m); }
    forall u | 0 <= u < |s'.calls| ensures LogOk(s'.calls[u]) && CallOk(s', s'.calls[u]) { AllStayOk(s, m, u); }
  }

  lemma {:induction false} CallsStayApart(s: State, m: Move)
    requires CallInv(s) && Enabled(s, m)
    ensures var s' := Apply(s, m);
      forall w, u, t ::
        0 <= w < |s'.calls| && 0 <= u < |s'.calls| && Busy(s'.calls[w], t) && Busy(s'.calls[u], t) ==> w == u
  {
    var s' := Apply(s, m);
    assert |s'.calls| == |s.calls| by { MoveFrame(s, m); }
    forall w, u, t | 0 <= w < |s'.calls| && 0 <= u < |s'.calls| && w != u
      ensures !(Busy(s'.calls[w], t) && Busy(s'.calls[u], t))
    {
      OneCallPerTask(s, m, w, u, t);
    }
  }

  lemma {:induction false} PidsStayApart(s: State, m: Move)
    requires CallInv(s) && Enabled(s, m)
    ensures var s' := Apply(s, m);
      forall w, u, n ::
        0 <= w < |s'.calls| && 0 <= u < |s'.calls| && OwnsNr(s'.calls[w], n) && OwnsNr(s'.calls[u], n) ==> w == u
  {
    var s' := Apply(s, m);
    assert |s'.calls| == |s.calls| by { MoveFrame(s, m); }
    forall w, u, n | 0 <= w < |s'.calls| && 0 <= u < |s'.calls| && w != u
      ensures !(OwnsNr(s'.calls[w], n) && OwnsNr(s'.calls[u], n))
    {
      OneCallPerPid(s, m, w, u, n);
    }
  }

  // ---------------------------------------------------------------- pids and groups

  ghost predicate TasksHavePids(s: State)
  {
    forall t {:trigger s.tasks[t]} {:trigger t in s.pids} :: t in s.tasks ==> t in s.pids && s.tasks[t].tgid in s.tasks
  }

  predicate Publishes(s: State, m: Move)
  {
    m.Step? && m.ok && m.w < |s.calls| && s.calls[m.w].Clone? && s.calls[m.w].stage == AtPublish
  }

  lemma {:induction false} PublishHasPids(s: State, s': State, nr: nat, p: Task)
    requires TasksHavePids(s) && s'.tasks == s.tasks[nr := p] && s'.pids == s.pids
    requires nr in s.pids && (p.tgid == nr || p.tgid in s.tasks)
    ensures TasksHavePids(s')
  {
  }

  lemma {:induction false} OthersHavePids(s: State, s': State)
    requires TasksHavePids(s) && s'.tasks.Keys == s.tasks.Keys
    requires forall t :: t in s.tasks ==> SameButFs(s.tasks[t], s'.tasks[t]) && t in s'.pids
    ensures TasksHavePids(s')
  {
    forall t | t in s'.tasks ensures t in s'.pids && s'.tasks[t].tgid in s'.tasks {
      assert SameButFs(s.tasks[t], s'.tasks[t]);
    }
  }

  lemma {:induction false} PublishFrame(s: State, m: Move)
    requires Enabled(s, m) && Publishes(s, m)
    ensures var s' := Apply(s, m); var b := s.calls[m.w].b;
      s'.tasks == s.tasks[b.nr := b.p] && s'.pids == s.pids && s'.calls == s.calls[m.w := Idle]
  {
  }

  // A visible task's pid is not the one a failing clone gives back.
  lemma {:induction false} TaskKeepsPid(s: State, m: Move, t: nat)
    requires m.w < |s.calls| && CallOk(s, s.calls[m.w]) && Enabled(s, m) && t in s.tasks && t in s.pids
    ensures t in Apply(s, m).pids
  {
    MovePids(s, m, t);
    if m.Fall? { PidUnused(s, s.calls[m.w]); }
  }

  lemma {:induction false} PidUnused(s: State, c: Call)
    requires c.Unwind? && CallOk(s, c)
    ensures c.label_ == FreePid ==> c.b.nr !in s.tasks
  {
  }

  lemma {:induction false} KeysKept(s: State, m: Move)
    requires Enabled(s, m) && !Publishes(s, m)
    ensures Apply(s, m).tasks.Keys == s.tasks.Keys
    ensures forall t :: t in s.tasks ==> SameButFs(s.tasks[t], Apply(s, m).tasks[t])
  {
    MoveFrame(s, m);
  }

  lemma {:induction false} MoveKeepsTaskPids(s: State, m: Move)
    requires m.w < |s.calls| && CallOk(s, s.calls[m.w]) && TasksHavePids(s) && Enabled(s, m)
    ensures TasksHavePids(Apply(s, m))
  {
    if Publishes(s, m) {
      PublishReady(s, s.calls[m.w]);
      PublishKeepsTaskPids(s, m, s.calls[m.w].b);
    } else {
      OthersKeepTaskPids(s, m);
    }
  }

  lemma {:induction false} PublishReady(s: State, c: Call)
    requires c.Clone? && c.stage == AtPublish && CallOk(s, c)
    ensures BuildOk(s, c.b, Rank(CancelCgroup)) && Ready(s, c.b)
  {
    OkOfClone(s, c);
  }

  lemma {:induction false} PublishKeepsTaskPids(s: State, m: Move, b: Build)
    requires TasksHavePids(s) && Enabled(s, m) && Publishes(s, m) && s.calls[m.w].b == b
    requires BuildOk(s, b, Rank(CancelCgroup)) && Ready(s, b)
    ensures TasksHavePids(Apply(s, m))
  {
    PublishFrame(s, m);
    ReadyPids(s, b);
    PublishHasPids(s, Apply(s, m), b.nr, b.p);
  }

  lemma {:induction false} ReadyPids(s: State, b: Build)
    requires BuildOk(s, b, Rank(CancelCgroup)) && Ready(s, b) && s.tasks[b.cur].tgid in s.tasks
    ensures b.nr in s.pids && (b.p.tgid == b.nr || b.p.tgid in s.tasks)
  {
  }

  lemma {:induction false} OthersKeepTaskPids(s: State, m: Move)
    requires TasksHavePids(s) && Enabled(s, m) && !Publishes(s, m) && CallOk(s, s.calls[m.w])
    ensures TasksHavePids(Apply(s, m))
  {
    KeysKept(s, m);
    forall t | t in s.tasks ensures t in Apply(s, m).pids { TaskKeepsPid(s, m, t); }
    OthersHavePids(s, Apply(s, m));
  }

  ghost predicate PidOwned(s: State, n: nat)
  {
    n in s.tasks || exists w :: 0 <= w < |s.calls| && OwnsNr(s.calls[w], n)
  }

  lemma {:induction false} PidHasOwner(s: State, m: Move, n: nat)
    requires Enabled(s, m) && n in Apply(s, m).pids && (n in s.pids ==> PidOwned(s, n))
    ensures PidOwned(Apply(s, m), n)
  {
    var s' := Apply(s, m);
    NrStep(s, m, n);
    MovePids(s, m, n);
    MoveFrame(s, m);
    if n !in s.pids {
      assert OwnsNr(s'.calls[m.w], n);
    } else if n !in s'.tasks {
      StillOwned(s, s', m.w, n);
    }
  }

  lemma {:induction false} StillOwned(s: State, s': State, w: nat, n: nat)
    requires w < |s.calls| == |s'.calls| && s'.calls == s.calls[w := s'.calls[w]]
    requires PidOwned(s, n) && n !in s.tasks
    requires OwnsNr(s.calls[w], n) ==> OwnsNr(s'.calls[w], n)
    ensures PidOwned(s', n)
  {
    var u :| 0 <= u < |s.calls| && OwnsNr(s.calls[u], n);
    assert OwnsNr(s'.calls[u], n);
  }

  lemma {:induction false} MoveKeepsPids(s: State, m: Move)
    requires CallInv(s) && PidInv(s) && Enabled(s, m)
    ensures PidInv(Apply(s, m))
  {
    var s' := Apply(s, m);
    assert CallOk(s, s.calls[m.w]);
    MoveKeepsTaskPids(s, m);
    forall n | n in s'.pids ensures PidOwned(s', n) {
      assert n in s.pids ==> PidOwned(s, n);
      PidHasOwner(s, m, n);
    }
  }

  // A signal_struct made for a new group is no visible task's.
  lemma {:induction false} SignalIsNew(s: State, w: nat, u: nat)
    requires CountInv(s) && w < |s.calls| && s.calls[w].Clone? && s.calls[w].stage == AtPublish
    requires !s.calls[w].b.flags.thread && u in s.tasks
    ensures s.tasks[u].signal != s.calls[w].b.p.signal
  {
    var o := Obj(SignalKind, s.calls[w].b.p.signal);
    assert PrivateTo(s.calls[w], o);
    assert Holders(s, o) == {CallHolder(w)};
    assert Points(s.tasks[u], o) ==> TaskHolder(u) in Holders(s, o);
  }

  // The new task against the others: a thread is in its maker's group and shares
  // what the group shares; otherwise its group and its signal_struct are new.
  lemma {:induction false} NewTaskGroup(s: State, b: Build, u: nat)
    requires BuildOk(s, b, Rank(CancelCgroup)) && Ready(s, b) && u in s.tasks && SameGroup(s.tasks[b.cur], s.tasks[u])
    requires s.tasks[u].tgid in s.tasks && (!b.flags.thread ==> s.tasks[u].signal != b.p.signal)
    ensures SameGroup(b.p, s.tasks[u]) && SameGroup(s.tasks[u], b.p)
  {
  }

  lemma {:induction false} PublishOneGroup(s: State, w: nat, u: nat)
    requires CountInv(s) && w < |s.calls| && s.calls[w].Clone? && s.calls[w].stage == AtPublish && u in s.tasks
    requires CallOk(s, s.calls[w]) && s.tasks[u].tgid in s.tasks && SameGroup(s.tasks[s.calls[w].b.cur], s.tasks[u])
    ensures SameGroup(s.calls[w].b.p, s.tasks[u]) && SameGroup(s.tasks[u], s.calls[w].b.p)
  {
    var c := s.calls[w];
    OkOfClone(s, c);
    if !c.b.flags.thread { SignalIsNew(s, w, u); }
    NewTaskGroup(s, c.b, u);
  }

  lemma {:induction false} PublishKeepsGroups(s: State, w: nat)
    requires Inv(s) && w < |s.calls| && s.calls[w].Clone? && s.calls[w].stage == AtPublish
    ensures forall u :: u in s.tasks ==> SameGroup(s.calls[w].b.p, s.tasks[u]) && SameGroup(s.tasks[u], s.calls[w].b.p)
  {
    forall u | u in s.tasks ensures SameGroup(s.calls[w].b.p, s.tasks[u]) && SameGroup(s.tasks[u], s.calls[w].b.p) {
      assert CallOk(s, s.calls[w]) && SameGroup(s.tasks[s.calls[w].b.cur], s.tasks[u]);
      PublishOneGroup(s, w, u);
    }
  }

  lemma {:induction false} MoveKeepsGroups(s: State, m: Move)
    requires Inv(s) && Enabled(s, m)
    ensures GroupInv(Apply(s, m))
  {
    if Publishes(s, m) {
      PublishFrame(s, m);
      PublishKeepsGroups(s, m.w);
      AddToGroups(s, Apply(s, m), s.calls[m.w].b.nr, s.calls[m.w].b.p);
    } else {
      KeysKept(s, m);
      SameGroups(s, Apply(s, m));
    }
  }

  lemma {:induction false} AddToGroups(s: State, s': State, nr: nat, p: Task)
    requires GroupInv(s) && s'.tasks == s.tasks[nr := p]
    requires forall u :: u in s.tasks ==> SameGroup(p, s.tasks[u]) && SameGroup(s.tasks[u], p)
    ensures GroupInv(s')
  {
  }

  lemma {:induction false} SameGroups(s: State, s': State)
    requires GroupInv(s) && s'.tasks.Keys == s.tasks.Keys
    requires forall t :: t in s.tasks ==> SameButFs(s.tasks[t], s'.tasks[t])
    ensures GroupInv(s')
  {
    forall t, u | t in s'.tasks && u in s'.tasks ensures SameGroup(s'.tasks[t], s'.tasks[u]) {
      assert SameGroup(s.tasks[t], s.tasks[u]);
      assert SameButFs(s.tasks[t], s'.tasks[t]) && SameButFs(s.tasks[u], s'.tasks[u]);
    }
  }

  lemma {:induction false} MoveKeepsInv(s: State, m: Move)
    requires Inv(s) && Enabled(s, m)
    ensures Inv(Apply(s, m))
  {
    CloneCounts.MoveKeepsCounts(s, m);
    MoveKeepsCalls(s, m);
    MoveKeepsPids(s, m);
    MoveKeepsGroups(s, m);
  }
}
