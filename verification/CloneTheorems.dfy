// What clone and unshare keep over whole runs, in any interleaving of any
// number of calls with any failures.

module CloneTheorems {
  import opened Wrappers
  import opened CloneModel
  import opened CloneInv
  import opened CloneSteps
  import opened CloneKv
  import opened CloneDelayed
  import opened CloneShares
  import CloneLadder

  ghost predicate AllInv(s: State)
  {
    Inv(s) && KvInv(s) && DelayInv(s) && ShareInv(s)
  }

  // No call is going on.
  ghost predicate Quiet(s: State)
  {
    forall w :: 0 <= w < |s.calls| ==> AtRest(s.calls[w])
  }

  // ---------------------------------------------------------------- runs

  ghost function Members(s: State, tgid: nat): set<nat>
  {
    set t | t in s.tasks && s.tasks[t].tgid == tgid
  }

  ghost function Sharers(s: State, o: Obj): set<nat>
  {
    set t | t in s.tasks && Points(s.tasks[t], o)
  }

  // A state to start from: no call going on, nothing delayed, exact counts,
  // pids, groups and arrays.
  ghost predicate Start(s: State)
  {
    && (forall w :: 0 <= w < |s.calls| ==> s.calls[w].Idle?)
    && (forall o :: o in s.counts <==> Sharers(s, o) != {})
    && (forall o :: o in s.counts ==> s.counts[o] == |Sharers(s, o)|)
    && (forall x :: SignalOk(s, x))
    && s.pids == s.tasks.Keys && (forall t {:trigger s.tasks[t]} :: t in s.tasks ==> s.tasks[t].tgid in s.tasks)
    && GroupInv(s) && KvInv(s)
    && (forall x :: x in s.delayed ==> s.delayed[x] == [])
  }

  ghost predicate Steps(ss: seq<State>, ms: seq<Move>)
  {
    && |ss| == |ms| + 1
    && forall k {:trigger ms[k]} :: 0 <= k < |ms| ==> Enabled(ss[k], ms[k]) && ss[k + 1] == Apply(ss[k], ms[k])
  }

  ghost predicate IsRun(ss: seq<State>, ms: seq<Move>)
  {
    Steps(ss, ms) && Start(ss[0])
  }

  // A single process, as after boot.
  function Boot(calls: nat): State
  {
    var init := Task(0, Some(0), 0, 0, Some(0), Some(0), Some(1), true, 1);
    var counts := map[Obj(FsKind, 0) := 1, Obj(FilesKind, 0) := 1, Obj(SighandKind, 0) := 1, Obj(SignalKind, 0) := 1,
                      Obj(MmKind, 0) := 1];
    State(map[1 := init], seq(calls, _ => Idle), counts, map[0 := 1], map[0 := 1], map[], {1}, {0, 1}, {})
  }

  lemma {:induction false} BootIsStart(calls: nat)
    ensures Start(Boot(calls))
  {
    BootStarts(Boot(calls));
  }

  lemma {:induction false} BootStarts(s: State)
    requires s == Boot(|s.calls|)
    ensures Start(s)
  {
    forall o ensures (o in s.counts <==> Sharers(s, o) != {}) && (o in s.counts ==> s.counts[o] == |Sharers(s, o)|) {
      BootCount(s, o);
    }
    forall x ensures SignalOk(s, x) { BootSignal(s, x); }
    OneTask(s, s.tasks[1]);
    OneTaskKv(s, s.tasks[1]);
  }

  lemma {:induction false} OneTask(s: State, t: Task)
    requires s.tasks == map[1 := t] && t.tgid == 1
    ensures GroupInv(s)
  {
  }

  lemma {:induction false} BootCount(s: State, o: Obj)
    requires s == Boot(|s.calls|)
    ensures o in s.counts <==> Sharers(s, o) != {}
    ensures o in s.counts ==> s.counts[o] == |Sharers(s, o)|
  {
    if Points(s.tasks[1], o) { assert 1 in Sharers(s, o); assert Sharers(s, o) == {1}; }
    else { assert Sharers(s, o) == {}; }
  }

  lemma {:induction false} BootSignal(s: State, x: nat)
    requires s == Boot(|s.calls|)
    ensures SignalOk(s, x)
  {
  }

  lemma {:induction false} OneTaskKv(s: State, t: Task)
    requires s.tasks == map[1 := t] && TableOk(t) && s.kvLive == Arrays(t) && s.leaked == {}
    requires forall w :: 0 <= w < |s.calls| ==> s.calls[w].Idle?
    ensures KvInv(s)
  {
    forall a | a in s.kvLive ensures Accounted(s, a) { assert a in Arrays(s.tasks[1]); }
  }

  // The holders, when no call holds anything, are the tasks that point there.
  lemma {:induction false} OnlyTasksHold(s: State, o: Obj)
    requires forall w :: 0 <= w < |s.calls| ==> AtRest(s.calls[w])
    ensures |Holders(s, o)| == |Sharers(s, o)| && (Holders(s, o) == {} <==> Sharers(s, o) == {})
    ensures !Doomed(s, o)
  {
    assert Holders(s, o) == set t | t in Sharers(s, o) :: TaskHolder(t);
    SameSize(Sharers(s, o));
  }

  lemma {:induction false} SameSize(a: set<nat>)
    ensures |set t | t in a :: TaskHolder(t)| == |a|
    ensures (set t | t in a :: TaskHolder(t)) == {} <==> a == {}
    decreases |a|
  {
    if a != {} {
      var x :| x in a;
      SameSize(a - {x});
      var b := set t | t in a :: TaskHolder(t);
      assert b - {TaskHolder(x)} == set t | t in a - {x} :: TaskHolder(t);
      assert TaskHolder(x) in b;
      SizeRemove(b, TaskHolder(x));
    }
  }

  lemma {:induction false} StartInv(s: State)
    requires Start(s)
    ensures AllInv(s)
  {
    StartCounts(s);
    StartCalls(s);
    StartPids(s);
    forall x ensures ListOk(s, x) { StartLists(s, x); }
    IdleShares(s);
  }

  lemma {:induction false} StartLists(s: State, x: nat)
    requires forall w :: 0 <= w < |s.calls| ==> s.calls[w].Idle?
    requires x in s.delayed ==> s.delayed[x] == []
    ensures ListOk(s, x)
  {
    assert NodesOf(s, x) == [];
  }

  lemma {:induction false} StartCounts(s: State)
    requires forall w :: 0 <= w < |s.calls| ==> s.calls[w].Idle?
    requires forall o :: o in s.counts <==> Sharers(s, o) != {}
    requires forall o :: o in s.counts ==> s.counts[o] == |Sharers(s, o)|
    requires forall x :: SignalOk(s, x)
    ensures CountInv(s)
  {
    forall o ensures CountOk(s, o) { OnlyTasksHold(s, o); }
  }

  lemma {:induction false} StartCalls(s: State)
    requires forall w :: 0 <= w < |s.calls| ==> s.calls[w].Idle?
    ensures CallInv(s)
  {
  }

  lemma {:induction false} StartPids(s: State)
    requires s.pids == s.tasks.Keys && forall t :: t in s.tasks ==> s.tasks[t].tgid in s.tasks
    ensures PidInv(s)
  {
  }

  lemma {:induction false} IdleShares(s: State)
    requires forall w :: 0 <= w < |s.calls| ==> s.calls[w].Idle?
    ensures ShareInv(s)
  {
  }

  lemma {:induction false} RunInv(ss: seq<State>, ms: seq<Move>, k: nat)
    requires IsRun(ss, ms) && k < |ss|
    ensures AllInv(ss[k])
  {
    if k == 0 {
      StartInv(ss[0]);
    } else {
      RunInv(ss, ms, k - 1);
      StepInv(ss[k - 1], ms[k - 1]);
    }
  }

  lemma {:induction false} RunCount(ss: seq<State>, ms: seq<Move>, k: nat, o: Obj)
    requires IsRun(ss, ms) && k < |ss|
    ensures CountOk(ss[k], o)
  {
    RunInv(ss, ms, k);
  }

  lemma {:induction false} SharersHold(s: State, o: Obj)
    ensures Holders(s, o) == {} ==> Sharers(s, o) == {}
    ensures forall t :: t in Sharers(s, o) ==> TaskHolder(t) in Holders(s, o)
  {
    forall t | t in Sharers(s, o) ensures TaskHolder(t) in Holders(s, o) { }
  }

  lemma {:induction false} StepInv(s: State, m: Move)
    requires AllInv(s) && Enabled(s, m)
    ensures AllInv(Apply(s, m))
  {
    MoveKeepsInv(s, m);
    MoveKeepsKv(s, m);
    MoveKeepsShares(s, m);
    MoveKeepsLists(s, m);
  }

  lemma {:induction false} MoveKeepsLists(s: State, m: Move)
    requires CountInv(s) && CallInv(s) && DelayInv(s) && Enabled(s, m)
    ensures DelayInv(Apply(s, m))
  {
    forall x ensures ListOk(Apply(s, m), x) { assert ListOk(s, x); MoveKeepsList(s, m, x); }
  }

  // ---------------------------------------------------------------- reference counts

  // Between calls, an object is allocated exactly when some task points at it,
  // and its count is the number of tasks that do.
  lemma {:induction false} CountsAreSharers(ss: seq<State>, ms: seq<Move>, k: nat, o: Obj)
    requires IsRun(ss, ms) && k < |ss| && Quiet(ss[k])
    ensures o in ss[k].counts <==> Sharers(ss[k], o) != {}
    ensures o in ss[k].counts ==> ss[k].counts[o] == |Sharers(ss[k], o)|
  {
    RunCount(ss, ms, k, o);
    OnlyTasksHold(ss[k], o);
  }

  // During calls: no step frees an object that a task or a call still has.
  lemma {:induction false} NeverFreedInUse(ss: seq<State>, ms: seq<Move>, k: nat, o: Obj)
    requires IsRun(ss, ms) && k < |ms| && o in ss[k].counts && o !in ss[k + 1].counts
    ensures Holders(ss[k + 1], o) == {} && Sharers(ss[k + 1], o) == {}
  {
    RunCount(ss, ms, k + 1, o);
    SharersHold(ss[k + 1], o);
  }

  // unshare keeps the old fs_struct for freeing exactly when the count it just
  // lowered reached zero, and exactly when nobody has that fs_struct any more.
  lemma {:induction false} UnshareFreesAtZero(ss: seq<State>, ms: seq<Move>, k: nat)
    requires IsRun(ss, ms) && k < |ms| && ms[k].UStep?
    requires ms[k].w < |ss[k].calls| && ss[k].calls[ms[k].w].Unshare?
    requires ss[k].calls[ms[k].w].at == USwapFs && ss[k].calls[ms[k].w].newFs.Some?
    requires ss[k].calls[ms[k].w].cur in ss[k].tasks
    ensures var c := ss[k].calls[ms[k].w]; var c' := ss[k + 1].calls[ms[k].w];
      var o := Obj(FsKind, ss[k].tasks[c.cur].fs);
      && o in ss[k].counts && o in ss[k + 1].counts && ss[k + 1].counts[o] + 1 == ss[k].counts[o]
      && (c'.newFs == Some(o.id) <==> ss[k + 1].counts[o] == 0)
      && (c'.newFs == Some(o.id) <==> Holders(ss[k + 1], o) == {})
      && (c'.newFs == None || c'.newFs == Some(o.id))
  {
    var s, s' := ss[k], ss[k + 1];
    var c := s.calls[ms[k].w];
    var o := Obj(FsKind, s.tasks[c.cur].fs);
    RunCount(ss, ms, k, o);
    RunCount(ss, ms, k + 1, o);
    SharersHold(s, o);
    assert c.cur in Sharers(s, o);
    NotEmpty(Holders(s, o), TaskHolder(c.cur));
    RunNewFs(ss, ms, k);
    SwapEffect(s, ms[k]);
  }

  lemma {:induction false} SwapEffect(s: State, m: Move)
    requires Enabled(s, m) && m.UStep? && s.calls[m.w].at == USwapFs && s.calls[m.w].newFs.Some?
    ensures var s' := Apply(s, m); var me := s.tasks[s.calls[m.w].cur]; var o := Obj(FsKind, me.fs);
      && s'.counts == s.counts[o := FsLeft(s, me)] && m.w < |s'.calls| && s'.calls[m.w].Unshare?
      && s'.calls[m.w].newFs == if FsLeft(s, me) == 0 then Some(me.fs) else None
  {
  }

  lemma {:induction false} RunPrivate(ss: seq<State>, ms: seq<Move>, k: nat, w: nat, o: Obj)
    requires IsRun(ss, ms) && k < |ss| && w < |ss[k].calls|
    ensures PrivateTo(ss[k].calls[w], o) ==> Holders(ss[k], o) == {CallHolder(w)}
  {
    RunInv(ss, ms, k);
  }

  // The copy is not the fs_struct the task has.
  lemma {:induction false} RunNewFs(ss: seq<State>, ms: seq<Move>, k: nat)
    requires IsRun(ss, ms) && k < |ms| && ms[k].UStep?
    requires ms[k].w < |ss[k].calls| && ss[k].calls[ms[k].w].Unshare? && ss[k].calls[ms[k].w].cur in ss[k].tasks
    requires ss[k].calls[ms[k].w].at == USwapFs && ss[k].calls[ms[k].w].newFs.Some?
    ensures !ss[k].calls[ms[k].w].swapped
    ensures ss[k].calls[ms[k].w].newFs != Some(ss[k].tasks[ss[k].calls[ms[k].w].cur].fs)
  {
    var s := ss[k];
    var c := s.calls[ms[k].w];
    RunCallOk(ss, ms, k, ms[k].w);
    RunPrivate(ss, ms, k, ms[k].w, Obj(FsKind, c.newFs.value));
    assert TaskHolder(c.cur) in Holders(s, Obj(FsKind, s.tasks[c.cur].fs));
  }

  lemma {:induction false} RunCallOk(ss: seq<State>, ms: seq<Move>, k: nat, w: nat)
    requires IsRun(ss, ms) && k < |ss| && w < |ss[k].calls|
    ensures CallOk(ss[k], ss[k].calls[w]) && LogOk(ss[k].calls[w])
  {
    RunInv(ss, ms, k);
  }

  // The free itself: what a committed unshare frees has count zero and no holder;
  // what a failed one frees is its own copy.
  lemma {:induction false} UnshareFreesUnused(ss: seq<State>, ms: seq<Move>, k: nat)
    requires IsRun(ss, ms) && k < |ms| && ms[k].UStep?
    requires ms[k].w < |ss[k].calls| && ss[k].calls[ms[k].w].Unshare?
    requires ss[k].calls[ms[k].w].at == UFreeFs && ss[k].calls[ms[k].w].newFs.Some?
    ensures var c := ss[k].calls[ms[k].w]; var o := Obj(FsKind, c.newFs.value);
      && o in ss[k].counts && o !in ss[k + 1].counts && Sharers(ss[k], o) == {}
      && ss[k].counts[o] == if c.swapped then 0 else 1
  {
    var s := ss[k];
    var c := s.calls[ms[k].w];
    var o := Obj(FsKind, c.newFs.value);
    RunCount(ss, ms, k, o);
    RunPrivate(ss, ms, k, ms[k].w, o);
    SharersHold(s, o);
    assert c.swapped ==> Dooms(c, o);
    assert ss[k + 1] == Apply(s, ms[k]);
  }

  // ---------------------------------------------------------------- thread groups

  // Tasks of one thread group share signal, sighand, mm, kv_store and kv_locks;
  // tasks of different groups have different signal_structs.
  lemma {:induction false} GroupsShare(ss: seq<State>, ms: seq<Move>, k: nat, t: nat, u: nat)
    requires IsRun(ss, ms) && k < |ss| && t in ss[k].tasks && u in ss[k].tasks
    ensures var a, b := ss[k].tasks[t], ss[k].tasks[u];
      && (a.tgid == b.tgid <==> a.signal == b.signal)
      && (a.tgid == b.tgid ==>
            a.sighand == b.sighand && a.mm == b.mm && a.kvStore == b.kvStore && a.kvLocks == b.kvLocks)
  {
    RunInv(ss, ms, k);
    assert SameGroup(ss[k].tasks[t], ss[k].tasks[u]);
  }

  // nr_threads, live and sigcnt of a group are the number of its members.
  lemma {:induction false} GroupCounts(ss: seq<State>, ms: seq<Move>, k: nat, t: nat)
    requires IsRun(ss, ms) && k < |ss| && t in ss[k].tasks
    ensures var s := ss[k]; var x := s.tasks[t].signal; var n := |Members(s, s.tasks[t].tgid)|;
      && Obj(SignalKind, x) in s.counts && x in s.live && x in s.sigcnt
      && s.counts[Obj(SignalKind, x)] == s.live[x] == s.sigcnt[x] == n
  {
    var s := ss[k];
    var x := s.tasks[t].signal;
    var o := Obj(SignalKind, x);
    RunCount(ss, ms, k, o);
    RunSignals(ss, ms, k);
    assert SignalOk(s, x);
    RunMembers(ss, ms, k, t);
    SameSize(Members(s, s.tasks[t].tgid));
    assert t in Members(s, s.tasks[t].tgid);
  }

  lemma {:induction false} RunMembers(ss: seq<State>, ms: seq<Move>, k: nat, t: nat)
    requires IsRun(ss, ms) && k < |ss| && t in ss[k].tasks
    ensures Holders(ss[k], Obj(SignalKind, ss[k].tasks[t].signal))
      == set u | u in Members(ss[k], ss[k].tasks[t].tgid) :: TaskHolder(u)
  {
    RunInv(ss, ms, k);
    MembersAreHolders(ss[k], t);
  }

  // A group that is visible is held by its members and by nobody else.
  lemma {:induction false} MembersAreHolders(s: State, t: nat)
    requires CountInv(s) && GroupInv(s) && t in s.tasks
    ensures Holders(s, Obj(SignalKind, s.tasks[t].signal)) == set u | u in Members(s, s.tasks[t].tgid) :: TaskHolder(u)
  {
    var o := Obj(SignalKind, s.tasks[t].signal);
    var m := set u | u in Members(s, s.tasks[t].tgid) :: TaskHolder(u);
    forall h | h in Holders(s, o) ensures h in m {
      NoCallHoldsGroup(s, t, h);
      assert SameGroup(s.tasks[t], s.tasks[h.t]);
      assert h.t in Members(s, s.tasks[t].tgid);
    }
    forall h | h in m ensures h in Holders(s, o) {
      assert SameGroup(s.tasks[t], s.tasks[h.t]);
    }
  }

  lemma {:induction false} NoCallHoldsGroup(s: State, t: nat, h: Holder)
    requires CountInv(s) && t in s.tasks && h in Holders(s, Obj(SignalKind, s.tasks[t].signal))
    ensures h.TaskHolder? && h.t in s.tasks && s.tasks[h.t].signal == s.tasks[t].signal
  {
    var o := Obj(SignalKind, s.tasks[t].signal);
    forall w | 0 <= w < |s.calls| && Holds(s.calls[w], o) ensures Holders(s, o) == {CallHolder(w)} {
      assert PrivateTo(s.calls[w], o);
    }
    assert TaskHolder(t) in Holders(s, o);
  }

  // ---------------------------------------------------------------- kv arrays of groups

  lemma {:induction false} RunKv(ss: seq<State>, ms: seq<Move>, k: nat)
    requires IsRun(ss, ms) && k < |ss|
    ensures KvInv(ss[k])
  {
    RunInv(ss, ms, k);
  }

  // Two groups whose arrays were allocated share neither store nor locks.
  lemma {:induction false} KvTablesApart(ss: seq<State>, ms: seq<Move>, k: nat, t: nat, u: nat)
    requires IsRun(ss, ms) && k < |ss| && t in ss[k].tasks && u in ss[k].tasks
    requires ss[k].tasks[t].tgid != ss[k].tasks[u].tgid && ss[k].tasks[t].kvOk && ss[k].tasks[u].kvOk
    ensures var a, b := ss[k].tasks[t], ss[k].tasks[u];
      && a.kvStore.Some? && a.kvLocks.Some? && b.kvStore.Some? && b.kvLocks.Some?
      && a.kvStore != b.kvStore && a.kvLocks != b.kvLocks && a.kvStore != b.kvLocks && a.kvLocks != b.kvStore
  {
    RunKv(ss, ms, k);
    var a, b := ss[k].tasks[t], ss[k].tasks[u];
    assert TableOk(a) && TableOk(b) && Arrays(a) !! Arrays(b);
    assert a.kvStore.value in Arrays(a) && a.kvLocks.value in Arrays(a) && b.kvStore.value in Arrays(b)
        && b.kvLocks.value in Arrays(b);
  }

  // Call w's kv step on the way to where it is at k: it ran init_task_kv_store
  // at i and has been between there and the publication since.
  ghost predicate KvStepAt(ss: seq<State>, ms: seq<Move>, i: nat, k: nat, w: nat)
    requires i < k < |ss| && |ss| == |ms| + 1
  {
    && ms[i].Step? && ms[i].ok && ms[i].w == w && InStages(ss[i], w, AtKv, AtKv)
    && forall q :: i < q <= k ==> InStages(ss[q], w, AtCgroup, AtPublish)
  }

  predicate InStages(s: State, w: nat, one: Stage, other: Stage)
  {
    w < |s.calls| && s.calls[w].Clone? && (s.calls[w].stage == one || s.calls[w].stage == other)
  }

  // The pointers a new group's task ends up with, by the outcomes of the two allocations.
  predicate TableBy(kv: KvResult, p: Task, maker: Task)
  {
    match kv
    case BothOk(store, locks) => p.kvStore == Some(store) && p.kvLocks == Some(locks) && store != locks
    case StoreFails => p.kvStore == None && p.kvLocks == maker.kvLocks
    case LocksFail(store) => p.kvStore == Some(store) && p.kvLocks == None
  }

  lemma {:induction false} FindKvStep(ss: seq<State>, ms: seq<Move>, k: nat, w: nat) returns (i: nat)
    requires IsRun(ss, ms) && k < |ss| && InStages(ss[k], w, AtCgroup, AtPublish)
    ensures i < k && KvStepAt(ss, ms, i, k, w) && KvStepMade(ss[i], ms[i], ss[k].calls[w].b)
  {
    NotAtStart(ss, ms, w);
    var made := StepBefore(ss, ms, k, w);
    if made { return k - 1; }
    i := FindKvStep(ss, ms, k - 1, w);
    KvStepStays(ss, ms, i, k, w);
  }

  lemma {:induction false} NotAtStart(ss: seq<State>, ms: seq<Move>, w: nat)
    requires IsRun(ss, ms)
    ensures !InStages(ss[0], w, AtCgroup, AtPublish)
  {
    assert w < |ss[0].calls| ==> ss[0].calls[w].Idle?;
  }

  lemma {:induction false} KvStepStays(ss: seq<State>, ms: seq<Move>, i: nat, k: nat, w: nat)
    requires i < k - 1 && k < |ss| && |ss| == |ms| + 1
    requires KvStepAt(ss, ms, i, k - 1, w) && InStages(ss[k], w, AtCgroup, AtPublish)
    ensures KvStepAt(ss, ms, i, k, w)
  {
  }

  // One step back, a call past its kv arrays was at its kv step or past them already.
  lemma {:induction false} StepBefore(ss: seq<State>, ms: seq<Move>, k: nat, w: nat) returns (made: bool)
    requires IsRun(ss, ms) && 0 < k < |ss| && InStages(ss[k], w, AtCgroup, AtPublish)
    ensures made ==> KvStepAt(ss, ms, k - 1, k, w) && KvStepMade(ss[k - 1], ms[k - 1], ss[k].calls[w].b)
    ensures !made ==> InStages(ss[k - 1], w, AtCgroup, AtPublish) && ss[k - 1].calls[w].b == ss[k].calls[w].b
  {
    RunCallOk(ss, ms, k - 1, ms[k - 1].w);
    made := StepBack(ss[k - 1], ms[k - 1], w);
  }

  lemma {:induction false} StepBack(s: State, m: Move, w: nat) returns (made: bool)
    requires Enabled(s, m) && CallOk(s, s.calls[m.w]) && InStages(Apply(s, m), w, AtCgroup, AtPublish)
    ensures made ==>
      m.Step? && m.ok && m.w == w && InStages(s, w, AtKv, AtKv) && KvStepMade(s, m, Apply(s, m).calls[w].b)
    ensures !made ==> InStages(s, w, AtCgroup, AtPublish) && s.calls[w].b == Apply(s, m).calls[w].b
  {
    if m.w == w {
      BeforeCgroup(s, m);
      made := s.calls[w].stage == AtKv;
    } else {
      MoveFrame(s, m);
      made := false;
    }
  }

  // The build b is what the kv step m made of call m.w's.
  predicate KvStepMade(s: State, m: Move, b: Build)
  {
    && m.Step? && m.w < |s.calls| && s.calls[m.w].Clone? && s.calls[m.w].b.cur == b.cur && b.cur in s.tasks
    && (!b.flags.thread ==> TableBy(m.kv, b.p, s.tasks[b.cur]))
  }

  // What a call was doing one step before it was past its kv arrays.
  lemma {:induction false} BeforeCgroup(s: State, m: Move)
    requires Enabled(s, m) && CallOk(s, s.calls[m.w]) && InStages(Apply(s, m), m.w, AtCgroup, AtPublish)
    ensures m.Step? && m.ok && InStages(s, m.w, AtKv, AtCgroup)
    ensures s.calls[m.w].stage == AtCgroup ==> Apply(s, m).calls[m.w].b == s.calls[m.w].b
    ensures s.calls[m.w].stage == AtKv ==> KvStepMade(s, m, Apply(s, m).calls[m.w].b)
  {
    OnlyAStep(s, m);
    var c := s.calls[m.w];
    StepFrame(s, m.w, m.id, m.kv);
    StageKv(c.b, c.stage, s.tasks[c.b.cur], m.id, m.kv);
    if c.stage == AtKv { KvStageMakes(c.b, s.tasks[c.b.cur], m.id, m.kv); }
  }

  lemma {:induction false} OnlyAStep(s: State, m: Move)
    requires Enabled(s, m) && InStages(Apply(s, m), m.w, AtCgroup, AtPublish)
    ensures m.Step? && m.ok && s.calls[m.w].stage != AtPublish
  {
  }

  lemma {:induction false} KvStageMakes(b: Build, me: Task, id: nat, kv: KvResult)
    requires (kv.BothOk? ==> kv.store != kv.locks) && b.p.kvLocks == me.kvLocks
    ensures var b' := Advance(b, AtKv, me, id, kv).b;
      b'.cur == b.cur && b'.flags == b.flags && (!b.flags.thread ==> TableBy(kv, b'.p, me))
  {
  }

  // A task keeps its tgid and its kv pointers.
  lemma {:induction false} TaskStays(ss: seq<State>, ms: seq<Move>, i: nat, j: nat, t: nat)
    requires IsRun(ss, ms) && i <= j < |ss| && t in ss[i].tasks
    ensures t in ss[j].tasks && SameButFs(ss[i].tasks[t], ss[j].tasks[t])
    decreases j
  {
    if i < j {
      TaskStays(ss, ms, i, j - 1, t);
      TaskStep(ss, ms, j - 1, t);
    }
  }

  lemma {:induction false} TaskStep(ss: seq<State>, ms: seq<Move>, k: nat, t: nat)
    requires IsRun(ss, ms) && k < |ms| && t in ss[k].tasks
    ensures t in ss[k + 1].tasks && SameButFs(ss[k].tasks[t], ss[k + 1].tasks[t])
  {
    RunCallOk(ss, ms, k, ms[k].w);
    MoveTasks(ss[k], ms[k]);
  }

  // A new group's arrays are as its kv step left them: both, none of its own
  // with its maker's locks, or the pointer to a store that was freed again. It
  // has both exactly when both allocations succeeded, and if the first failed
  // two groups share their locks.
  lemma {:induction false} NewGroupTable(ss: seq<State>, ms: seq<Move>, k: nat) returns (i: nat)
    requires IsRun(ss, ms) && k < |ms| && Publishes(ss[k], ms[k]) && !ss[k].calls[ms[k].w].b.flags.thread
    ensures i < k && KvStepAt(ss, ms, i, k, ms[k].w)
    ensures var b := ss[k].calls[ms[k].w].b;
      && b.nr in ss[k + 1].tasks && b.cur in ss[k + 1].tasks
      && NewTable(ms[i].kv, ss[k + 1].tasks[b.nr], ss[k + 1].tasks[b.cur])
  {
    var b := ss[k].calls[ms[k].w].b;
    i := FindKvStep(ss, ms, k, ms[k].w);
    RunReady(ss, ms, k, ms[k].w);
    RunPublish(ss, ms, k);
    TaskStays(ss, ms, i, k, b.cur);
    TaskStep(ss, ms, k, b.cur);
    TableIsNew(ms[i].kv, b.p, ss[i].tasks[b.cur], ss[k].tasks[b.cur], ss[k + 1].tasks[b.cur]);
  }

  lemma {:induction false} TableIsNew(kv: KvResult, p: Task, before: Task, maker: Task, after: Task)
    requires TableBy(kv, p, before) && SameButFs(before, maker) && SameButFs(maker, after) && TableOfNewGroup(p, maker)
    ensures NewTable(kv, p, after)
  {
  }

  predicate NewTable(kv: KvResult, child: Task, maker: Task)
  {
    child.tgid != maker.tgid && TableBy(kv, child, maker) && (child.kvOk <==> kv.BothOk?)
  }

  lemma {:induction false} RunReady(ss: seq<State>, ms: seq<Move>, k: nat, w: nat)
    requires IsRun(ss, ms) && k < |ss| && w < |ss[k].calls| && ss[k].calls[w].Clone?
    requires ss[k].calls[w].stage == AtPublish
    requires !ss[k].calls[w].b.flags.thread
    ensures var b := ss[k].calls[w].b; b.cur in ss[k].tasks && TableOfNewGroup(b.p, ss[k].tasks[b.cur])
  {
    RunCallOk(ss, ms, k, w);
    OkOfClone(ss[k], ss[k].calls[w]);
    RunPending(ss, ms, k, w);
    RunTgid(ss, ms, k, ss[k].calls[w].b.cur);
    ReadyTable(ss[k], ss[k].calls[w].b);
  }

  predicate TableOfNewGroup(child: Task, maker: Task)
  {
    && child.tgid != maker.tgid
    && (child.kvOk <==> child.kvStore.Some? && child.kvLocks.Some?)
    && (!child.kvOk && child.kvLocks.Some? ==> child.kvStore.None? && child.kvLocks == maker.kvLocks)
  }

  lemma {:induction false} ReadyTable(s: State, b: Build)
    requires BuildOk(s, b, Rank(CancelCgroup)) && Ready(s, b) && !b.flags.thread && TableOk(b.p)
    requires s.tasks[b.cur].tgid in s.tasks
    ensures TableOfNewGroup(b.p, s.tasks[b.cur])
  {
  }

  lemma {:induction false} RunPublish(ss: seq<State>, ms: seq<Move>, k: nat)
    requires IsRun(ss, ms) && k < |ms| && Publishes(ss[k], ms[k])
    ensures var b := ss[k].calls[ms[k].w].b; b.nr in ss[k + 1].tasks && ss[k + 1].tasks[b.nr] == b.p
  {
    PublishFrame(ss[k], ms[k]);
  }

  lemma {:induction false} RunPending(ss: seq<State>, ms: seq<Move>, k: nat, w: nat)
    requires IsRun(ss, ms) && k < |ss| && w < |ss[k].calls|
    ensures PendingOk(ss[k].calls[w])
  {
    RunKv(ss, ms, k);
  }

  lemma {:induction false} RunTgid(ss: seq<State>, ms: seq<Move>, k: nat, t: nat)
    requires IsRun(ss, ms) && k < |ss| && t in ss[k].tasks
    ensures ss[k].tasks[t].tgid in ss[k].tasks
  {
    RunInv(ss, ms, k);
  }

  // Allocated, but in no table that a task or a call got from allocations that
  // both succeeded. A pointer left over from a failed one may still name it.
  ghost predicate InNoTable(s: State, a: nat)
  {
    && a in s.kvLive
    && (forall t :: t in s.tasks ==> a !in Arrays(s.tasks[t]))
    && (forall w :: 0 <= w < |s.calls| ==> a !in Pending(s.calls[w]))
  }

  lemma {:induction false} RunInNoTable(ss: seq<State>, ms: seq<Move>, k: nat, a: nat)
    requires IsRun(ss, ms) && k < |ss|
    ensures InNoTable(ss[k], a) <==> a in ss[k].leaked
  {
    RunKv(ss, ms, k);
    assert a in ss[k].kvLive ==> Accounted(ss[k], a);
  }

  // An array drops out of the tables exactly when a clone that made it for a new
  // group fails afterwards, and stays out.
  lemma {:induction false} LostExactly(ss: seq<State>, ms: seq<Move>, k: nat, a: nat)
    requires IsRun(ss, ms) && k < |ms|
    ensures InNoTable(ss[k + 1], a) <==>
      || InNoTable(ss[k], a)
      || (ms[k].Step? && !ms[k].ok && ms[k].w < |ss[k].calls| && a in Pending(ss[k].calls[ms[k].w]))
  {
    RunInNoTable(ss, ms, k, a);
    RunInNoTable(ss, ms, k + 1, a);
    var s, m := ss[k], ms[k];
    if Publishes(s, m) { PublishLeaks(s, m); }
    else if m.Step? && m.ok { KvOfStage(s, m.w, m.id, m.kv); }
    else if m.Step? { KvOfFailure(s, m.w); }
    else { KvOfOthers(s, m); }
  }

  lemma {:induction false} PublishLeaks(s: State, m: Move)
    requires Enabled(s, m) && Publishes(s, m)
    ensures Apply(s, m).leaked == s.leaked
  {
  }

  // Between calls, every allocated array is lost or the table of a group.
  lemma {:induction false} ArraysAccounted(ss: seq<State>, ms: seq<Move>, k: nat, a: nat)
    requires IsRun(ss, ms) && k < |ss| && Quiet(ss[k]) && a in ss[k].kvLive
    ensures a !in ss[k].leaked <==> exists t :: t in ss[k].tasks && a in Arrays(ss[k].tasks[t])
  {
    RunKv(ss, ms, k);
    assert Accounted(ss[k], a);
    forall w | 0 <= w < |ss[k].calls| ensures Pending(ss[k].calls[w]) == {} { assert AtRest(ss[k].calls[w]); }
  }

  // ---------------------------------------------------------------- a failing copy_process

  // When copy_process returns an error, it has released exactly what it had
  // acquired, each once, in reverse order.
  lemma {:induction false} FailedCloneReleasesInReverse(ss: seq<State>, ms: seq<Move>, k: nat, w: nat)
    requires IsRun(ss, ms) && k < |ss| && w < |ss[k].calls| && ss[k].calls[w].Failed?
    ensures ss[k].calls[w].gone == Reverse(ss[k].calls[w].got)
  {
    RunCallOk(ss, ms, k, w);
    ReverseTwice(ss[k].calls[w].gone);
  }

  lemma {:induction false} ReverseTwice<T>(a: seq<T>)
    ensures Reverse(Reverse(a)) == a
  {
    if a != [] {
      ReverseTwice(a[1..]);
      CloneLadder.ReverseAppend(Reverse(a[1..]), [a[0]]);
      assert Reverse([a[0]]) == [a[0]] by { CloneLadder.ReverseShort(a[0], a[0]); }
      assert a == [a[0]] + a[1..];
    }
  }

  // In the middle of it: whatever the failure point, the labels still to run
  // release exactly what is still held.
  lemma {:induction false} LabelsMatchStages(ss: seq<State>, ms: seq<Move>, k: nat, w: nat)
    requires IsRun(ss, ms) && k < |ss| && w < |ss[k].calls| && ss[k].calls[w].Clone?
    ensures var c := ss[k].calls[w]; c.got == Owed(OnError(c.stage), c.b)
  {
    RunCallOk(ss, ms, k, w);
  }

  // Calls that hold the same things.
  predicate Alike(c: Call, c': Call)
  {
    c == c' || (AtRest(c) && AtRest(c'))
  }

  lemma {:induction false} AlikeHolds(s: State, s': State, o: Obj)
    requires s'.tasks == s.tasks && |s'.calls| == |s.calls|
    requires forall w :: 0 <= w < |s.calls| ==> Alike(s.calls[w], s'.calls[w])
    ensures Holders(s', o) == Holders(s, o) && (Doomed(s', o) <==> Doomed(s, o))
  {
    assert forall w :: 0 <= w < |s.calls| ==>
        Holds(s.calls[w], o) == Holds(s'.calls[w], o) && Dooms(s.calls[w], o) == Dooms(s'.calls[w], o);
  }

  // Counts, signal_structs and pids are determined by the tasks and the calls
  // going on: a clone that failed, whatever else ran meanwhile, has left no trace in them.
  lemma {:induction false} FailedCloneRestores(ss: seq<State>, ms: seq<Move>, i: nat, j: nat)
    requires IsRun(ss, ms) && i < |ss| && j < |ss| && ss[j].tasks == ss[i].tasks && |ss[j].calls| == |ss[i].calls|
    requires forall w :: 0 <= w < |ss[i].calls| ==> Alike(ss[i].calls[w], ss[j].calls[w])
    ensures ss[j].counts == ss[i].counts && ss[j].live == ss[i].live && ss[j].sigcnt == ss[i].sigcnt
    ensures ss[j].pids == ss[i].pids
  {
    var s, s' := ss[i], ss[j];
    forall o ensures (o in s'.counts <==> o in s.counts) && Count(s', o) == Count(s, o) {
      AlikeHolds(s, s', o);
      RunCount(ss, ms, i, o);
      RunCount(ss, ms, j, o);
    }
    SameMap(s.counts, s'.counts);
    RunSignals(ss, ms, i);
    RunSignals(ss, ms, j);
    SameSignals(s, s');
    RunPids(ss, ms, i);
    RunPids(ss, ms, j);
    SamePids(s, s');
  }

  lemma {:induction false} SameMap(m: Counts, m': Counts)
    requires forall o :: (o in m' <==> o in m) && CountIn(m', o) == CountIn(m, o)
    ensures m' == m
  {
    assert forall o :: o in m ==> m'[o] == CountIn(m', o) == CountIn(m, o) == m[o];
  }

  lemma {:induction false} RunSignals(ss: seq<State>, ms: seq<Move>, k: nat)
    requires IsRun(ss, ms) && k < |ss|
    ensures forall x :: SignalOk(ss[k], x)
  {
    RunInv(ss, ms, k);
  }

  lemma {:induction false} SameSignals(s: State, s': State)
    requires s'.counts == s.counts && (forall x :: SignalOk(s, x)) && (forall x :: SignalOk(s', x))
    ensures s'.live == s.live && s'.sigcnt == s.sigcnt
  {
    forall x ensures (x in s'.live <==> x in s.live) && (x in s.live ==> s'.live[x] == s.live[x])
      ensures (x in s'.sigcnt <==> x in s.sigcnt) && (x in s.sigcnt ==> s'.sigcnt[x] == s.sigcnt[x])
    {
      assert SignalOk(s, x) && SignalOk(s', x);
    }
  }

  lemma {:induction false} RunPids(ss: seq<State>, ms: seq<Move>, k: nat)
    requires IsRun(ss, ms) && k < |ss|
    ensures TasksHavePids(ss[k]) && (forall n :: n in ss[k].pids ==> PidOwned(ss[k], n))
    ensures forall w :: 0 <= w < |ss[k].calls| ==> CallOk(ss[k], ss[k].calls[w])
  {
    RunInv(ss, ms, k);
    forall n | n in ss[k].pids ensures PidOwned(ss[k], n) { }
  }

  lemma {:induction false} SamePids(s: State, s': State)
    requires s'.tasks == s.tasks && |s'.calls| == |s.calls|
    requires forall w :: 0 <= w < |s.calls| ==> Alike(s.calls[w], s'.calls[w])
    requires TasksHavePids(s) && (forall n :: n in s.pids ==> PidOwned(s, n))
    requires (forall w :: 0 <= w < |s.calls| ==> CallOk(s, s.calls[w]))
    requires TasksHavePids(s') && (forall n :: n in s'.pids ==> PidOwned(s', n))
    requires (forall w :: 0 <= w < |s'.calls| ==> CallOk(s', s'.calls[w]))
    ensures s'.pids == s.pids
  {
    forall n | n in s.pids ensures n in s'.pids { PidComesBack(s, s', n); }
    forall n | n in s'.pids ensures n in s.pids { PidComesBack(s', s, n); }
  }

  lemma {:induction false} PidComesBack(s: State, s': State, n: nat)
    requires PidOwned(s, n) && s'.tasks == s.tasks && |s'.calls| == |s.calls|
    requires forall w :: 0 <= w < |s.calls| ==> Alike(s.calls[w], s'.calls[w]) || Alike(s'.calls[w], s.calls[w])
    requires TasksHavePids(s') && (forall w :: 0 <= w < |s'.calls| ==> CallOk(s', s'.calls[w]))
    ensures n in s'.pids
  {
    if n !in s.tasks {
      var w :| 0 <= w < |s.calls| && OwnsNr(s.calls[w], n);
      assert s'.calls[w] == s.calls[w] && CallOk(s', s'.calls[w]);
    }
  }

  // ---------------------------------------------------------------- the delayed-signal lists

  // Whatever other calls do, the nodes of calls that do not move stay on every
  // list, in their order.
  lemma {:induction false} IdleNodesStay(ss: seq<State>, ms: seq<Move>, i: nat, j: nat, a: set<nat>, x: nat)
    requires IsRun(ss, ms) && i <= j < |ss| && forall k :: i <= k < j ==> ms[k].w !in a
    ensures Keep(NodesOf(ss[j], x), a) == Keep(NodesOf(ss[i], x), a)
    decreases j
  {
    if i < j {
      IdleNodesStay(ss, ms, i, j - 1, a, x);
      RunInv(ss, ms, j - 1);
      assert ListOk(ss[j - 1], x);
      MoveKeepsOthers(ss[j - 1], ms[j - 1], x, a);
    }
  }

  lemma {:induction false} RunList(ss: seq<State>, ms: seq<Move>, k: nat, x: nat)
    requires IsRun(ss, ms) && k < |ss|
    ensures ListOk(ss[k], x)
  {
    RunInv(ss, ms, k);
  }

  // Calls that have returned, with or without success, have left every
  // delayed-signal list as they found it, in order, however their steps were
  // interleaved and whoever else is on it: a is the set of calls that did not move.
  lemma {:induction false} DelayedListRestored(ss: seq<State>, ms: seq<Move>, i: nat, j: nat, a: set<nat>, x: nat)
    requires IsRun(ss, ms) && i <= j < |ss| && forall k :: i <= k < j ==> ms[k].w !in a
    requires forall w :: 0 <= w < |ss[i].calls| && w !in a ==> AtRest(ss[i].calls[w])
    requires forall w :: 0 <= w < |ss[j].calls| && w !in a ==> AtRest(ss[j].calls[w])
    ensures NodesOf(ss[j], x) == NodesOf(ss[i], x)
  {
    IdleNodesStay(ss, ms, i, j, a, x);
    OnlyTheirs(ss, ms, i, a, x);
    OnlyTheirs(ss, ms, j, a, x);
  }

  // When all other calls are at rest, only calls in a have nodes.
  lemma {:induction false} OnlyTheirs(ss: seq<State>, ms: seq<Move>, k: nat, a: set<nat>, x: nat)
    requires IsRun(ss, ms) && k < |ss| && forall w :: 0 <= w < |ss[k].calls| && w !in a ==> AtRest(ss[k].calls[w])
    ensures Keep(NodesOf(ss[k], x), a) == NodesOf(ss[k], x)
  {
    RunList(ss, ms, k, x);
    RestingHaveNone(ss[k], a, x);
  }

  lemma {:induction false} RestingHaveNone(s: State, a: set<nat>, x: nat)
    requires ListOk(s, x) && forall w :: 0 <= w < |s.calls| && w !in a ==> AtRest(s.calls[w])
    ensures Keep(NodesOf(s, x), a) == NodesOf(s, x)
  {
    forall w | w in NodesOf(s, x) ensures w in a { assert Listed(s, w, x); }
    KeepAll(NodesOf(s, x), a);
  }

  // ---------------------------------------------------------------- what clone and unshare are for

  lemma {:induction false} RunShares(ss: seq<State>, ms: seq<Move>, k: nat, w: nat)
    requires IsRun(ss, ms) && k < |ss| && w < |ss[k].calls|
    ensures CallShares(ss[k], ss[k].calls[w])
  {
    RunInv(ss, ms, k);
  }

  // When a new task becomes visible it shares with its maker exactly what the
  // flags asked for, and has objects of its own for the rest.
  lemma {:induction false} CloneSharesByFlags(ss: seq<State>, ms: seq<Move>, k: nat)
    requires IsRun(ss, ms) && k < |ms| && Publishes(ss[k], ms[k])
    ensures var b := ss[k].calls[ms[k].w].b;
      && b.nr !in ss[k].tasks && b.nr in ss[k + 1].tasks && b.cur in ss[k].tasks
      && SharedByFlags(b.flags, ss[k].tasks[b.cur], ss[k + 1].tasks[b.nr])
  {
    RunPublish(ss, ms, k);
    RunReadyShares(ss, ms, k, ms[k].w);
  }

  lemma {:induction false} RunReadyShares(ss: seq<State>, ms: seq<Move>, k: nat, w: nat)
    requires IsRun(ss, ms) && k < |ss| && w < |ss[k].calls| && ss[k].calls[w].Clone?
    requires ss[k].calls[w].stage == AtPublish
    ensures var b := ss[k].calls[w].b;
      b.cur in ss[k].tasks && b.nr !in ss[k].tasks && SharedByFlags(b.flags, ss[k].tasks[b.cur], b.p)
  {
    RunCallOk(ss, ms, k, w);
    OkOfClone(ss[k], ss[k].calls[w]);
    RunShares(ss, ms, k, w);
    RunTgid(ss, ms, k, ss[k].calls[w].b.cur);
    ReadyShares(ss[k], ss[k].calls[w]);
  }

  predicate SharedByFlags(f: Flags, maker: Task, child: Task)
  {
    && (child.fs == maker.fs <==> f.fs) && SameIff(f.files, maker.files, child.files)
    && (child.sighand == maker.sighand <==> f.sighand) && (child.signal == maker.signal <==> f.thread)
    && SameIff(f.vm, maker.mm, child.mm) && (child.tgid == maker.tgid <==> f.thread)
  }

  lemma {:induction false} ReadyShares(s: State, c: Call)
    requires c.Clone? && c.stage == AtPublish && BuildOk(s, c.b, Level(c)) && Ready(s, c.b) && CallShares(s, c)
    requires s.tasks[c.b.cur].tgid in s.tasks
    ensures SharedByFlags(c.b.flags, s.tasks[c.b.cur], c.b.p)
  {
  }

  // After the swap the caller is the only task with its new fs_struct, or with
  // its new files_struct, and nobody else's pointers changed.
  lemma {:induction false} UnshareIsAlone(ss: seq<State>, ms: seq<Move>, k: nat)
    requires IsRun(ss, ms) && k < |ms| && ms[k].UStep?
    requires ms[k].w < |ss[k].calls| && ss[k].calls[ms[k].w].Unshare? && ss[k].calls[ms[k].w].cur in ss[k].tasks
    ensures var c := ss[k].calls[ms[k].w];
      && (c.at == USwapFs && c.newFs.Some? ==> Sharers(ss[k + 1], Obj(FsKind, c.newFs.value)) == {c.cur})
      && (c.at == USwapFiles && c.newFiles.Some? ==> Sharers(ss[k + 1], Obj(FilesKind, c.newFiles.value)) == {c.cur})
      && (forall t :: t in ss[k].tasks && t != c.cur ==> t in ss[k + 1].tasks && ss[k + 1].tasks[t] == ss[k].tasks[t])
  {
    var s, s' := ss[k], ss[k + 1];
    var c := s.calls[ms[k].w];
    RunCallOk(ss, ms, k, ms[k].w);
    MoveFrame(s, ms[k]);
    if c.at == USwapFs && c.newFs.Some? {
      OnlyCaller(ss, ms, k, Obj(FsKind, c.newFs.value));
    } else if c.at == USwapFiles && c.newFiles.Some? {
      OnlyCaller(ss, ms, k, Obj(FilesKind, c.newFiles.value));
    }
  }

  lemma {:induction false} OnlyCaller(ss: seq<State>, ms: seq<Move>, k: nat, o: Obj)
    requires IsRun(ss, ms) && k < |ms| && ms[k].UStep?
    requires ms[k].w < |ss[k].calls| && ss[k].calls[ms[k].w].Unshare? && ss[k].calls[ms[k].w].cur in ss[k].tasks
    requires PrivateTo(ss[k].calls[ms[k].w], o)
    requires Points(UnshareTask(ss[k].tasks[ss[k].calls[ms[k].w].cur], ss[k].calls[ms[k].w]), o)
    ensures Sharers(ss[k + 1], o) == {ss[k].calls[ms[k].w].cur}
  {
    var s, s' := ss[k], ss[k + 1];
    RunPrivate(ss, ms, k, ms[k].w, o);
    SharersHold(s, o);
    MoveFrame(s, ms[k]);
    assert Sharers(s, o) == {};
    assert forall t :: t in Sharers(s', o) ==> t == s.calls[ms[k].w].cur || t in Sharers(s, o);
    assert s.calls[ms[k].w].cur in Sharers(s', o);
  }

  // unshare also separates what the asked-for parts depend on: the result is
  // closed under the implications, and is the least such set of flags.
  lemma {:induction false} WidenIsLeast(f: Flags, g: Flags)
    ensures Closed(Widen(f)) && Within(f, Widen(f))
    ensures Closed(g) && Within(f, g) ==> Within(Widen(f), g)
  {
  }

  predicate Closed(f: Flags)
  {
    (f.newuser ==> f.thread && f.fs) && (f.vm ==> f.sighand) && (f.sighand ==> f.thread) && (f.newns ==> f.fs)
  }

  predicate Within(f: Flags, g: Flags)
  {
    && (f.vm ==> g.vm) && (f.fs ==> g.fs) && (f.files ==> g.files) && (f.sighand ==> g.sighand)
    && (f.thread ==> g.thread)
    && (f.parent ==> g.parent) && (f.pidfd ==> g.pidfd) && (f.detached ==> g.detached) && (f.sysvsem ==> g.sysvsem)
    && (f.io ==> g.io) && (f.newns ==> g.newns) && (f.newuser ==> g.newuser) && (f.newpid ==> g.newpid)
  }

  // ---------------------------------------------------------------- every call ends

  function UnshareNo(at: UnshareStep): nat
  {
    match at
    case UFs => 7
    case UFd => 6
    case UNamespaces => 5
    case USwapFs => 4
    case USwapFiles => 3
    case UPutFiles => 2
    case UFreeFs => 1
  }

  // Steps a call has left at most.
  function StepsLeft(c: Call): nat
  {
    match c
    case Clone(_, stage, _) => 50 - StageNo(stage)
    case Unwind(_, l, _, _) => Rank(l) + 1
    case Unshare(_, _, at, _, _, _) => UnshareNo(at)
    case _ => 0
  }

  lemma {:induction false} StageNoGrows(b: Build, stage: Stage, me: Task, id: nat, kv: KvResult)
    requires stage != AtPublish
    ensures StageNo(Advance(b, stage, me, id, kv).next) > StageNo(stage)
  {
    AfterNo(stage, b.flags.pidfd);
  }

  // Every step of a call brings it nearer to its end.
  lemma {:induction false} CallsEnd(s: State, m: Move)
    requires Enabled(s, m) && (m.Step? || m.Fall? || m.UStep?)
    ensures m.w < |Apply(s, m).calls| && StepsLeft(Apply(s, m).calls[m.w]) < StepsLeft(s.calls[m.w])
  {
    var c := s.calls[m.w];
    match m
    case Step(w, ok, id, kv) =>
      if !ok { FailEnds(c); } else if c.stage != AtPublish { StageEnds(s, w, id, kv); }
    case Fall(w) => FallEnds(s, w);
    case UStep(w, ok, id) => UnshareEnds(s, c, ok, id);
  }

  lemma {:induction false} StageEnds(s: State, w: nat, id: nat, kv: KvResult)
    requires Enabled(s, Step(w, true, id, kv)) && s.calls[w].stage != AtPublish
    ensures w < |StepOk(s, w, id, kv).calls| && StepsLeft(StepOk(s, w, id, kv).calls[w]) < StepsLeft(s.calls[w])
  {
    var c := s.calls[w];
    StepFrame(s, w, id, kv);
    StageNoGrows(c.b, c.stage, s.tasks[c.b.cur], id, kv);
  }

  lemma {:induction false} FailEnds(c: Call)
    requires c.Clone?
    ensures StepsLeft(Unwind(c.b, OnError(c.stage), c.got, [])) < StepsLeft(c)
  {
  }

  lemma {:induction false} FallEnds(s: State, w: nat)
    requires Enabled(s, Fall(w))
    ensures w < |FallThrough(s, w).calls| && StepsLeft(FallThrough(s, w).calls[w]) < StepsLeft(s.calls[w])
  {
  }

  lemma {:induction false} UnshareEnds(s: State, c: Call, ok: bool, id: nat)
    requires c.Unshare? && c.cur in s.tasks
    ensures StepsLeft(UnshareNext(s, c, ok, id)) < StepsLeft(c)
  {
  }

  // And in every state of every run a call that has begun has a step to take,
  // whatever other calls have done: for a stage, with any name that is free.
  lemma {:induction false} CallsCanStep(ss: seq<State>, ms: seq<Move>, k: nat, w: nat)
    requires IsRun(ss, ms) && k < |ss| && w < |ss[k].calls| && !AtRest(ss[k].calls[w])
    ensures exists m: Move :: m.w == w && Enabled(ss[k], m)
  {
    var s := ss[k];
    var c := s.calls[w];
    RunCallOk(ss, ms, k, w);
    match c
    case Unwind(_, _, _, _) => assert Enabled(s, Fall(w));
    case Unshare(_, _, _, _, _, _) =>
      var id := FreeName(s);
      assert Enabled(s, UStep(w, true, id));
    case Clone(_, _, _) =>
      var id := FreeName(s);
      assert Enabled(s, Step(w, true, id, StoreFails));
  }

  // A name that nothing uses.
  lemma {:induction false} FreeName(s: State) returns (id: nat)
    ensures id !in s.pids && forall kind :: Obj(kind, id) !in s.counts
  {
    var used := s.pids + set o | o in s.counts :: o.id;
    id := AboveAll(used);
    forall kind ensures Obj(kind, id) !in s.counts {
      assert Obj(kind, id) in s.counts ==> Obj(kind, id).id in used;
    }
  }

  lemma {:induction false} AboveAll(a: set<nat>) returns (t: nat)
    ensures forall i :: i in a ==> i < t
    decreases |a|
  {
    t := 0;
    if a != {} {
      var x :| x in a;
      var r := AboveAll(a - {x});
      t := if r <= x then x + 1 else r;
      assert forall i :: i in a ==> i == x || i in a - {x};
    }
  }
}
