// Runs of the clone machine in which the kv arrays go wrong: two groups that
// share their locks, two that share a store, and an array that nothing can
// reach any more.

module CloneWitness {
  import opened Wrappers
  import opened CloneModel
  import opened CloneInv
  import opened CloneSteps
  import opened CloneKv
  import opened CloneTheorems
  import opened CloneReach

  datatype Run = Run(ss: seq<State>, ms: seq<Move>)

  ghost predicate Valid(r: Run)
  {
    IsRun(r.ss, r.ms)
  }

  ghost function Now(r: Run): State
    requires Valid(r)
  {
    r.ss[|r.ms|]
  }

  lemma {:induction false} MoreSteps(ss: seq<State>, ms: seq<Move>, m: Move, s': State)
    requires Steps(ss, ms) && Enabled(ss[|ms|], m) && s' == Apply(ss[|ms|], m)
    ensures Steps(ss + [s'], ms + [m])
  {
    var ss', ms' := ss + [s'], ms + [m];
    forall k {:trigger ms'[k]} | 0 <= k < |ms'| ensures Enabled(ss'[k], ms'[k]) && ss'[k + 1] == Apply(ss'[k], ms'[k]) {
      if k < |ms| { assert ms'[k] == ms[k] && ss'[k] == ss[k] && ss'[k + 1] == ss[k + 1]; }
    }
  }

  // One move more.
  lemma {:induction false} Extend(r: Run, m: Move) returns (r': Run)
    requires Valid(r) && Enabled(Now(r), m)
    ensures Valid(r') && r'.ms == r.ms + [m] && r'.ss == r.ss + [Now(r')] && Now(r') == Apply(Now(r), m)
  {
    var s' := Apply(Now(r), m);
    MoreSteps(r.ss, r.ms, m, s');
    r' := Run(r.ss + [s'], r.ms + [m]);
  }

  // Plain fork: nothing shared.
  function Plain(): Flags
  {
    Flags(false, false, false, false, false, false, false, false, false, false, false, false, false)
  }

  // Call w is forking task `cur` and is at a stage.
  predicate Forking(s: State, w: nat, cur: nat, stage: Stage)
  {
    && w < |s.calls| && s.calls[w].Clone? && s.calls[w].stage == stage
    && s.calls[w].b.cur == cur && s.calls[w].b.flags == Plain()
  }

  predicate BeforeKv(stage: Stage)
  {
    stage != AtKv && stage != AtCgroup && stage != AtPublish
  }

  // Call w's new task has the arrays that outcome kv leaves.
  predicate HasTable(s: State, w: nat, kv: KvResult)
  {
    w < |s.calls| && s.calls[w].Clone? && s.calls[w].b.cur in s.tasks
        && TableBy(kv, s.calls[w].b.p, s.tasks[s.calls[w].b.cur])
  }

  // From s to s' only call w and the arrays of its kv step have changed.
  predicate OnlyForks(s: State, s': State, w: nat, made: set<nat>)
  {
    && w < |s.calls| == |s'.calls| && s'.calls == s.calls[w := s'.calls[w]]
    && s'.tasks == s.tasks && s'.kvLive == s.kvLive + made
  }

  // A stage that goes well.
  lemma {:induction false} OneStage(r: Run, w: nat, cur: nat, stage: Stage, kv: KvResult) returns (r': Run, next: Stage)
    requires Valid(r) && Forking(Now(r), w, cur, stage) && cur in Now(r).tasks && stage != AtPublish
    requires stage == AtKv ==> Enabled(Now(r), Step(w, true, 0, kv))
    requires stage == AtCgroup ==> HasTable(Now(r), w, kv)
    ensures Valid(r') && r'.ss[0] == r.ss[0]
    ensures OnlyForks(Now(r), Now(r'), w, if stage == AtKv then KvArrays(false, kv) else {})
    ensures Forking(Now(r'), w, cur, next) && StageNo(next) > StageNo(stage)
    ensures stage == AtKv ==> next == AtCgroup && Pending(Now(r').calls[w]) == KvArrays(false, kv)
    ensures stage == AtCgroup ==> next == AtPublish
    ensures stage == AtKv || stage == AtCgroup ==> HasTable(Now(r'), w, kv)
    ensures BeforeKv(stage) ==> next != AtCgroup && next != AtPublish
  {
    var s := Now(r);
    var c := s.calls[w];
    var id := 0;
    if stage != AtKv { id := FreeName(s); }
    r' := Extend(r, Step(w, true, id, kv));
    StepFrame(s, w, id, kv);
    StageForks(s, w, id, kv);
    StageKv(c.b, stage, s.tasks[cur], id, kv);
    SameMaker(c.b, stage, s.tasks[cur], id, kv);
    StageNoGrows(c.b, stage, s.tasks[cur], id, kv);
    if stage == AtKv {
      RunCallOk(r.ss, r.ms, |r.ms|, w);
      KvStageMakes(c.b, s.tasks[cur], id, kv);
    }
    next := Advance(c.b, stage, s.tasks[cur], id, kv).next;
  }

  lemma {:induction false} StageForks(s: State, w: nat, id: nat, kv: KvResult)
    requires Enabled(s, Step(w, true, id, kv)) && s.calls[w].stage != AtPublish && !s.calls[w].b.flags.thread
    ensures OnlyForks(s, StepOk(s, w, id, kv), w, if s.calls[w].stage == AtKv then KvArrays(false, kv) else {})
  {
    StepFrame(s, w, id, kv);
    KvOfStage(s, w, id, kv);
    StageKv(s.calls[w].b, s.calls[w].stage, s.tasks[s.calls[w].b.cur], id, kv);
  }

  lemma {:induction false} ThenForks(s: State, s1: State, s2: State, w: nat, one: set<nat>, two: set<nat>)
    requires OnlyForks(s, s1, w, one) && OnlyForks(s1, s2, w, two)
    ensures OnlyForks(s, s2, w, one + two)
  {
  }

  // A fork can get to its kv arrays.
  lemma {:induction false} ReachKv(r: Run, w: nat, cur: nat, stage: Stage) returns (r': Run)
    requires Valid(r) && Forking(Now(r), w, cur, stage) && cur in Now(r).tasks && (stage == AtKv || BeforeKv(stage))
    ensures Valid(r') && r'.ss[0] == r.ss[0] && OnlyForks(Now(r), Now(r'), w, {}) && Forking(Now(r'), w, cur, AtKv)
    decreases 50 - StageNo(stage)
  {
    r' := r;
    if stage != AtKv {
      var next;
      var r1;
      r1, next := OneStage(r, w, cur, stage, StoreFails);
      r' := ReachKv(r1, w, cur, next);
      ThenForks(Now(r), Now(r1), Now(r'), w, {}, {});
    }
  }

  // Every call is idle.
  ghost predicate AllIdle(s: State)
  {
    forall u :: 0 <= u < |s.calls| ==> s.calls[u].Idle?
  }

  // A fork from where all calls are idle, up to its kv arrays.
  lemma {:induction false} Fork(r: Run, w: nat, cur: nat) returns (r': Run)
    requires Valid(r) && AllIdle(Now(r)) && w < |Now(r).calls| && cur in Now(r).tasks
    ensures Valid(r') && r'.ss[0] == r.ss[0] && OnlyForks(Now(r), Now(r'), w, {}) && Forking(Now(r'), w, cur, AtKv)
  {
    var m := ForkStarts(Now(r), w, cur);
    r' := Extend(r, m);
    r' := ReachKv(r', w, cur, AtSignals);
  }

  lemma {:induction false} ForkStarts(s: State, w: nat, cur: nat) returns (m: Move)
    requires AllIdle(s) && w < |s.calls| && cur in s.tasks
    ensures Enabled(s, m) && OnlyForks(s, Apply(s, m), w, {}) && Forking(Apply(s, m), w, cur, AtSignals)
  {
    m := StartClone(w, cur, Plain(), Caller(false, false, false));
    assert forall u :: 0 <= u < |s.calls| ==> !Busy(s.calls[u], cur);
  }

  lemma {:induction false} Begin(s: State) returns (r: Run)
    requires s == Boot(|s.calls|)
    ensures Valid(r) && r.ss[0] == s && Now(r) == s && AllIdle(s)
  {
    BootStarts(s);
    BootIdle(s);
    r := Single(s);
  }

  lemma {:induction false} BootIdle(s: State)
    requires s == Boot(|s.calls|)
    ensures AllIdle(s)
  {
  }

  lemma {:induction false} Single(s: State) returns (r: Run)
    requires Start(s)
    ensures Valid(r) && r.ss[0] == s && Now(r) == s
  {
    r := Run([s], []);
  }

  // From boot to the kv arrays of the first fork.
  lemma {:induction false} FirstFork(s: State) returns (r: Run)
    requires s == Boot(|s.calls|) && |s.calls| > 0
    ensures Valid(r) && r.ss[0] == s && OnlyForks(s, Now(r), 0, {}) && Forking(Now(r), 0, 1, AtKv) && 1 in s.tasks
    ensures AllIdle(s)
  {
    r := Begin(s);
    r := Fork(r, 0, 1);
  }

  // From s to s' the new task nr has become visible and call w is done.
  predicate Shown(s: State, s': State, w: nat, nr: nat)
  {
    && w < |s.calls| && s'.calls == s.calls[w := Idle] && s'.kvLive == s.kvLive
    && nr !in s.tasks && nr in s'.tasks && s'.tasks == s.tasks[nr := s'.tasks[nr]] && s'.tasks[nr].tgid == nr
  }

  // The new task becomes visible with its own tgid and the arrays it has.
  lemma {:induction false} ShowTask(r: Run, w: nat, cur: nat, kv: KvResult) returns (r': Run, nr: nat)
    requires Valid(r) && Forking(Now(r), w, cur, AtPublish) && HasTable(Now(r), w, kv)
    ensures Valid(r') && r'.ss[0] == r.ss[0] && cur in Now(r).tasks && Shown(Now(r), Now(r'), w, nr)
    ensures NewTable(kv, Now(r').tasks[nr], Now(r).tasks[cur])
  {
    RunReady(r.ss, r.ms, |r.ms|, w);
    RunCallOk(r.ss, r.ms, |r.ms|, w);
    var m := AnyPublish(Now(r), w, cur);
    nr := Now(r).calls[w].b.nr;
    PublishShows(Now(r), m, cur);
    r' := Extend(r, m);
  }

  lemma {:induction false} PublishShows(s: State, m: Move, cur: nat)
    requires Enabled(s, m) && Publishes(s, m) && Forking(s, m.w, cur, AtPublish) && CallOk(s, s.calls[m.w])
    ensures Shown(s, Apply(s, m), m.w, s.calls[m.w].b.nr) && Apply(s, m).tasks[s.calls[m.w].b.nr] == s.calls[m.w].b.p
  {
    PublishIsNew(s, s.calls[m.w]);
    PublishReady(s, s.calls[m.w]);
    PublishFrame(s, m);
    PublishLive(s, m);
  }

  // A fork from where all calls are idle, to the end, with a given outcome of its kv step.
  lemma {:induction false} WholeFork(r: Run, w: nat, cur: nat, kv: KvResult) returns (r': Run, nr: nat)
    requires Valid(r) && AllIdle(Now(r)) && w < |Now(r).calls| && cur in Now(r).tasks
    requires !kv.StoreFails? ==> kv.store !in Now(r).kvLive
    requires kv.BothOk? ==> kv.locks !in Now(r).kvLive && kv.locks != kv.store
    ensures Valid(r') && r'.ss[0] == r.ss[0] && Forked(Now(r), Now(r'), nr, KvArrays(false, kv))
    ensures NewTable(kv, Now(r').tasks[nr], Now(r).tasks[cur])
  {
    var r1 := Fork(r, w, cur);
    var r2 := PastKv(r1, w, cur, kv);
    r', nr := ShowTask(r2, w, cur, kv);
    ThenForks(Now(r), Now(r1), Now(r2), w, {}, KvArrays(false, kv));
    ForkedInAll(Now(r), Now(r2), Now(r'), w, nr, KvArrays(false, kv));
  }

  // The kv step and the stage after it.
  lemma {:induction false} PastKv(r: Run, w: nat, cur: nat, kv: KvResult) returns (r': Run)
    requires Valid(r) && Forking(Now(r), w, cur, AtKv) && cur in Now(r).tasks
    requires !kv.StoreFails? ==> kv.store !in Now(r).kvLive
    requires kv.BothOk? ==> kv.locks !in Now(r).kvLive && kv.locks != kv.store
    ensures Valid(r') && r'.ss[0] == r.ss[0] && OnlyForks(Now(r), Now(r'), w, KvArrays(false, kv))
    ensures Forking(Now(r'), w, cur, AtPublish) && HasTable(Now(r'), w, kv)
  {
    var r1 := KvDone(r, w, cur, kv);
    r' := CgroupDone(r1, w, cur, kv);
    NoMoreMade(Now(r), Now(r1), Now(r'), w, KvArrays(false, kv));
  }

  lemma {:induction false} NoMoreMade(s: State, s1: State, s2: State, w: nat, made: set<nat>)
    requires OnlyForks(s, s1, w, made) && OnlyForks(s1, s2, w, {})
    ensures OnlyForks(s, s2, w, made)
  {
  }

  lemma {:induction false} KvDone(r: Run, w: nat, cur: nat, kv: KvResult) returns (r': Run)
    requires Valid(r) && Forking(Now(r), w, cur, AtKv) && cur in Now(r).tasks
    requires !kv.StoreFails? ==> kv.store !in Now(r).kvLive
    requires kv.BothOk? ==> kv.locks !in Now(r).kvLive && kv.locks != kv.store
    ensures Valid(r') && r'.ss[0] == r.ss[0] && OnlyForks(Now(r), Now(r'), w, KvArrays(false, kv))
    ensures Forking(Now(r'), w, cur, AtCgroup) && HasTable(Now(r'), w, kv)
  {
    KvEnabled(Now(r), w, cur, kv);
    var next;
    r', next := OneStage(r, w, cur, AtKv, kv);
  }

  lemma {:induction false} CgroupDone(r: Run, w: nat, cur: nat, kv: KvResult) returns (r': Run)
    requires Valid(r) && Forking(Now(r), w, cur, AtCgroup) && cur in Now(r).tasks && HasTable(Now(r), w, kv)
    ensures Valid(r') && r'.ss[0] == r.ss[0] && OnlyForks(Now(r), Now(r'), w, {})
    ensures Forking(Now(r'), w, cur, AtPublish) && HasTable(Now(r'), w, kv)
  {
    var next;
    r', next := OneStage(r, w, cur, AtCgroup, kv);
  }

  // All calls are idle again, and nr and the arrays `made` are new.
  ghost predicate Forked(s: State, s': State, nr: nat, made: set<nat>)
  {
    && AllIdle(s') && |s'.calls| == |s.calls| && s'.kvLive == s.kvLive + made
    && nr !in s.tasks && nr in s'.tasks && s'.tasks == s.tasks[nr := s'.tasks[nr]] && s'.tasks[nr].tgid == nr
  }

  lemma {:induction false} ForkedInAll(s: State, s1: State, s': State, w: nat, nr: nat, made: set<nat>)
    requires AllIdle(s) && OnlyForks(s, s1, w, {} + made) && Shown(s1, s', w, nr)
    ensures Forked(s, s', nr, made)
  {
  }

  lemma {:induction false} KvEnabled(s: State, w: nat, cur: nat, kv: KvResult)
    requires Forking(s, w, cur, AtKv) && cur in s.tasks && (!kv.StoreFails? ==> kv.store !in s.kvLive)
    requires kv.BothOk? ==> kv.locks !in s.kvLive && kv.locks != kv.store
    ensures Enabled(s, Step(w, true, 0, kv))
  {
  }

  lemma {:induction false} AnyPublish(s: State, w: nat, cur: nat) returns (m: Move)
    requires Forking(s, w, cur, AtPublish) && cur in s.tasks
    ensures m.w == w && Enabled(s, m) && Publishes(s, m)
  {
    m := Step(w, true, 0, StoreFails);
  }

  // If the allocation of the store fails, two groups share one array of locks.
  lemma {:induction false} LocksCanBeShared(calls: nat) returns (ss: seq<State>, ms: seq<Move>, t: nat, u: nat)
    requires calls > 0
    ensures IsRun(ss, ms) && ss[0] == Boot(calls) && t in ss[|ms|].tasks && u in ss[|ms|].tasks
    ensures var a, b := ss[|ms|].tasks[t], ss[|ms|].tasks[u];
      a.tgid != b.tgid && a.kvLocks.Some? && a.kvLocks == b.kvLocks
  {
    var r := Begin(Boot(calls));
    r, t := WholeFork(r, 0, 1, StoreFails);
    return r.ss, r.ms, t, 1;
  }

  // If the allocation of the locks fails, the new group keeps a pointer to the
  // freed store. When the name is allocated again, two groups have one store.
  lemma {:induction false} StoresCanBeShared(calls: nat) returns (ss: seq<State>, ms: seq<Move>, t: nat, u: nat)
    requires calls > 0
    ensures IsRun(ss, ms) && ss[0] == Boot(calls) && t in ss[|ms|].tasks && u in ss[|ms|].tasks
    ensures var a, b := ss[|ms|].tasks[t], ss[|ms|].tasks[u];
      && a.tgid != b.tgid && a.kvStore.Some? && a.kvStore == b.kvStore && a.kvStore.value in ss[|ms|].kvLive
      && !a.kvOk && b.kvOk
  {
    var r := Begin(Boot(calls));
    var x;
    r, t, u, x := TwoForks(r, 0, 1);
    return r.ss, r.ms, t, u;
  }

  // Group t points at x, which was freed; group u has it as its store.
  predicate OneStore(s: State, t: nat, u: nat, x: nat)
  {
    && t in s.tasks && u in s.tasks && s.tasks[t].tgid != s.tasks[u].tgid && x in s.kvLive
    && s.tasks[t].kvStore == s.tasks[u].kvStore == Some(x) && !s.tasks[t].kvOk && s.tasks[u].kvOk
  }

  lemma {:induction false} TwoForks(r: Run, w: nat, cur: nat) returns (r': Run, t: nat, u: nat, x: nat)
    requires Valid(r) && AllIdle(Now(r)) && w < |Now(r).calls| && cur in Now(r).tasks
    ensures Valid(r') && r'.ss[0] == r.ss[0] && OneStore(Now(r'), t, u, x)
  {
    x := AboveAll(Now(r).kvLive);
    var r1;
    r1, t := WholeFork(r, w, cur, LocksFail(x));
    r', u := WholeFork(r1, w, cur, BothOk(x, x + 1));
    StoreIsBoths(Now(r1), Now(r'), t, u, x, Now(r).tasks[cur], Now(r1).tasks[cur]);
  }

  lemma {:induction false} StoreIsBoths(s: State, s': State, t: nat, u: nat, x: nat, maker: Task, maker': Task)
    requires t in s.tasks && s.tasks[t].tgid == t && NewTable(LocksFail(x), s.tasks[t], maker)
    requires Forked(s, s', u, KvArrays(false, BothOk(x, x + 1))) && NewTable(BothOk(x, x + 1), s'.tasks[u], maker')
    ensures OneStore(s', t, u, x)
  {
  }

  // If a fork fails after making its arrays, nothing can reach them any more.
  lemma {:induction false} ArraysCanBeLost(calls: nat) returns (ss: seq<State>, ms: seq<Move>, a: nat)
    requires calls > 0
    ensures IsRun(ss, ms) && ss[0] == Boot(calls) && Unreachable(ss[|ms|], a)
  {
    var r := FirstFork(Boot(calls));
    r, a := LoseArrays(r, 0, 1);
    return r.ss, r.ms, a;
  }

  // A name that no pointer has and that is not allocated.
  lemma {:induction false} NewArray(s: State) returns (a: nat)
    ensures a !in s.kvLive && a + 1 !in s.kvLive && !Named(s, a)
  {
    var stores := set t | t in s.tasks && s.tasks[t].kvStore.Some? :: s.tasks[t].kvStore.value;
    var locks := set t | t in s.tasks && s.tasks[t].kvLocks.Some? :: s.tasks[t].kvLocks.value;
    var calls := (set c | c in s.calls && c.Clone? && c.b.p.kvStore.Some? :: c.b.p.kvStore.value)
      + (set c | c in s.calls && c.Clone? && c.b.p.kvLocks.Some? :: c.b.p.kvLocks.value);
    a := AboveAll(s.kvLive + stores + locks + calls);
    forall t | t in s.tasks ensures !Names(s.tasks[t], a) {
      assert Names(s.tasks[t], a) ==> a in stores || a in locks;
    }
    forall w | 0 <= w < |s.calls| ensures !CallNames(s.calls[w], a) {
      assert s.calls[w] in s.calls;
      assert CallNames(s.calls[w], a) ==> a in calls;
    }
  }

  lemma {:induction false} LoseArrays(r: Run, w: nat, cur: nat) returns (r': Run, a: nat)
    requires Valid(r) && Forking(Now(r), w, cur, AtKv) && cur in Now(r).tasks
    ensures Valid(r') && r'.ss[0] == r.ss[0] && Unreachable(Now(r'), a)
  {
    a := NewArray(Now(r));
    assert Enabled(Now(r), Step(w, true, 0, BothOk(a, a + 1)));
    var r1, s1 := OneStage(r, w, cur, AtKv, BothOk(a, a + 1));
    NewIsOnly(Now(r), Now(r1), w, a);
    var m := AnyFailure(Now(r1), w, cur);
    r' := Extend(r1, m);
    FailureReach(Now(r1), m, a);
  }

  // Right after the kv step only the new task leads to its arrays.
  lemma {:induction false} NewIsOnly(s: State, s': State, w: nat, a: nat)
    requires !Named(s, a) && OnlyForks(s, s', w, KvArrays(false, BothOk(a, a + 1)))
    requires s'.calls[w].Clone? && s'.calls[w].stage == AtCgroup && HasTable(s', w, BothOk(a, a + 1))
    ensures a in s'.kvLive && OnlyNames(s', w, a)
  {
  }

  lemma {:induction false} AnyFailure(s: State, w: nat, cur: nat) returns (m: Move)
    requires Forking(s, w, cur, AtCgroup) && cur in s.tasks
    ensures m.w == w && Enabled(s, m) && m.Step? && !m.ok
  {
    m := Step(w, false, 0, StoreFails);
  }
}
