// Which kv arrays can still be reached, by the pointers themselves: those of the
// tasks and those of tasks about to become visible, valid or left over.

module CloneReach {
  import opened Wrappers
  import opened CloneModel
  import opened CloneInv
  import opened CloneSteps
  import opened CloneKv
  import opened CloneTheorems

  predicate Names(p: Task, a: nat)
  {
    p.kvStore == Some(a) || p.kvLocks == Some(a)
  }

  // The call's new task has its kv pointers and they lead to a.
  predicate CallNames(c: Call, a: nat)
  {
    c.Clone? && (c.stage == AtCgroup || c.stage == AtPublish) && Names(c.b.p, a)
  }

  ghost predicate TaskNames(s: State, a: nat)
  {
    exists t :: t in s.tasks && Names(s.tasks[t], a)
  }

  ghost predicate Named(s: State, a: nat)
  {
    TaskNames(s, a) || exists w :: 0 <= w < |s.calls| && CallNames(s.calls[w], a)
  }

  // Allocated, and no pointer anywhere leads to it.
  ghost predicate Unreachable(s: State, a: nat)
  {
    a in s.kvLive && !Named(s, a)
  }

  // Only call w's new task leads to a.
  ghost predicate OnlyNames(s: State, w: nat, a: nat)
  {
    && w < |s.calls| && CallNames(s.calls[w], a) && !TaskNames(s, a)
    && forall u :: 0 <= u < |s.calls| && u != w ==> !CallNames(s.calls[u], a)
  }

  // The step is the failure of a clone whose new task was the last to lead to a.
  ghost predicate DropsLast(s: State, m: Move, a: nat)
  {
    m.Step? && !m.ok && a in s.kvLive && OnlyNames(s, m.w, a)
  }

  // ---------------------------------------------------------------- one move

  // Call w changes from naming a or not to naming it or not.
  lemma {:induction false} NamedAfter(s: State, s': State, w: nat, a: nat)
    requires w < |s.calls| == |s'.calls| && s'.calls == s.calls[w := s'.calls[w]]
    requires TaskNames(s', a) <==> TaskNames(s, a)
    ensures CallNames(s'.calls[w], a) ==> Named(s', a)
    ensures CallNames(s'.calls[w], a) == CallNames(s.calls[w], a) ==> (Named(s', a) <==> Named(s, a))
    ensures !CallNames(s'.calls[w], a) && CallNames(s.calls[w], a) ==>
      Named(s, a) && (Named(s', a) <==> !OnlyNames(s, w, a))
    ensures TaskNames(s, a) ==> Named(s, a) && Named(s', a)
  {
    if u :| 0 <= u < |s.calls| && u != w && CallNames(s.calls[u], a) { assert CallNames(s'.calls[u], a); }
    if u :| 0 <= u < |s'.calls| && u != w && CallNames(s'.calls[u], a) { assert CallNames(s.calls[u], a); }
  }

  lemma {:induction false} SameTaskNames(s: State, s': State, a: nat)
    requires s'.tasks.Keys == s.tasks.Keys && forall t :: t in s.tasks ==> SameButFs(s.tasks[t], s'.tasks[t])
    ensures TaskNames(s', a) <==> TaskNames(s, a)
  {
    if t :| t in s.tasks && Names(s.tasks[t], a) {
      assert SameButFs(s.tasks[t], s'.tasks[t]) && Names(s'.tasks[t], a);
    }
    if t :| t in s'.tasks && Names(s'.tasks[t], a) {
      assert SameButFs(s.tasks[t], s'.tasks[t]) && Names(s.tasks[t], a);
    }
  }

  // The kv step: what the new task's pointers lead to afterwards is new, or its
  // maker leads there too.
  lemma {:induction false} KvStepNames(b: Build, me: Task, id: nat, kv: KvResult, live: set<nat>, a: nat)
    requires b.p.kvLocks == me.kvLocks && (!kv.StoreFails? ==> kv.store !in live) && (kv.BothOk? ==> kv.locks !in live)
    ensures Names(BuildAfter(b, AtKv, me, id, kv).p, a) && a in live ==> Names(me, a)
    ensures a in KvArrays(b.flags.thread, kv) ==> Names(BuildAfter(b, AtKv, me, id, kv).p, a)
  {
  }

  lemma {:induction false} KvStepReach(s: State, m: Move, a: nat)
    requires Enabled(s, m) && m.Step? && m.ok && s.calls[m.w].stage == AtKv && CallOk(s, s.calls[m.w])
    ensures Unreachable(Apply(s, m), a) <==> Unreachable(s, a)
  {
    var s' := Apply(s, m);
    var c := s.calls[m.w];
    StepFrame(s, m.w, m.id, m.kv);
    KvOfStage(s, m.w, m.id, m.kv);
    StageKv(c.b, AtKv, s.tasks[c.b.cur], m.id, m.kv);
    OkOfClone(s, c);
    KvStepNames(c.b, s.tasks[c.b.cur], m.id, m.kv, s.kvLive, a);
    NamedAfter(s, s', m.w, a);
    assert Names(s.tasks[c.b.cur], a) ==> TaskNames(s, a);
  }

  lemma {:induction false} StageReach(s: State, m: Move, a: nat)
    requires Enabled(s, m) && m.Step? && m.ok && s.calls[m.w].stage != AtPublish && s.calls[m.w].stage != AtKv
    ensures Unreachable(Apply(s, m), a) <==> Unreachable(s, a)
  {
    var c := s.calls[m.w];
    StepFrame(s, m.w, m.id, m.kv);
    KvOfStage(s, m.w, m.id, m.kv);
    StageKv(c.b, c.stage, s.tasks[c.b.cur], m.id, m.kv);
    NamedAfter(s, Apply(s, m), m.w, a);
  }

  // The pointers go from the call to the task.
  lemma {:induction false} PublishReach(s: State, m: Move, a: nat)
    requires Enabled(s, m) && Publishes(s, m) && CallOk(s, s.calls[m.w])
    ensures Unreachable(Apply(s, m), a) <==> Unreachable(s, a)
  {
    PublishIsNew(s, s.calls[m.w]);
    PublishFrame(s, m);
    PublishLive(s, m);
    ShownNames(s, Apply(s, m), m.w, a);
  }

  lemma {:induction false} PublishLive(s: State, m: Move)
    requires Enabled(s, m) && Publishes(s, m)
    ensures Apply(s, m).kvLive == s.kvLive
  {
  }

  lemma {:induction false} ShownNames(s: State, s': State, w: nat, a: nat)
    requires w < |s.calls| && s.calls[w].Clone? && s.calls[w].stage == AtPublish && s.calls[w].b.nr !in s.tasks
    requires s'.tasks == s.tasks[s.calls[w].b.nr := s.calls[w].b.p] && s'.calls == s.calls[w := Idle]
    ensures Named(s', a) <==> Named(s, a)
  {
    var b := s.calls[w].b;
    if t :| t in s.tasks && Names(s.tasks[t], a) { assert Names(s'.tasks[t], a); }
    if t :| t in s'.tasks && Names(s'.tasks[t], a) {
      assert if t == b.nr then CallNames(s.calls[w], a) else Names(s.tasks[t], a);
    }
    if u :| 0 <= u < |s.calls| && CallNames(s.calls[u], a) {
      assert if u == w then Names(s'.tasks[b.nr], a) else CallNames(s'.calls[u], a);
    }
    if u :| 0 <= u < |s'.calls| && CallNames(s'.calls[u], a) { assert CallNames(s.calls[u], a); }
  }

  lemma {:induction false} FailureReach(s: State, m: Move, a: nat)
    requires Enabled(s, m) && m.Step? && !m.ok
    ensures Unreachable(Apply(s, m), a) <==> Unreachable(s, a) || DropsLast(s, m, a)
  {
    FailFrame(s, m.w);
    KvOfFailure(s, m.w);
    NamedAfter(s, Apply(s, m), m.w, a);
  }

  lemma {:induction false} OtherReach(s: State, m: Move, a: nat)
    requires Enabled(s, m) && !m.Step?
    ensures Unreachable(Apply(s, m), a) <==> Unreachable(s, a)
  {
    MoveFrame(s, m);
    KeysKept(s, m);
    SameTaskNames(s, Apply(s, m), a);
    KvOfOthers(s, m);
    OtherCallNames(s, m, a);
    NamedAfter(s, Apply(s, m), m.w, a);
  }

  lemma {:induction false} OtherCallNames(s: State, m: Move, a: nat)
    requires Enabled(s, m) && !m.Step?
    ensures m.w < |Apply(s, m).calls| && !CallNames(s.calls[m.w], a) && !CallNames(Apply(s, m).calls[m.w], a)
  {
    if m.UStep? { UnshareNr(s, s.calls[m.w], m.ok, m.id); }
  }

  lemma {:induction false} MoveReach(s: State, m: Move, a: nat)
    requires Enabled(s, m) && CallOk(s, s.calls[m.w])
    ensures Unreachable(Apply(s, m), a) <==> Unreachable(s, a) || DropsLast(s, m, a)
  {
    if !m.Step? { OtherReach(s, m, a); }
    else if !m.ok { FailureReach(s, m, a); }
    else if s.calls[m.w].stage == AtPublish { PublishReach(s, m, a); }
    else if s.calls[m.w].stage == AtKv { KvStepReach(s, m, a); }
    else { StageReach(s, m, a); }
  }

  // ---------------------------------------------------------------- over runs

  // A step makes an array unreachable exactly when it is the failure of a clone
  // whose new task was the last to lead to it, and no step makes it reachable again.
  lemma {:induction false} UnreachableExactly(ss: seq<State>, ms: seq<Move>, k: nat, a: nat)
    requires IsRun(ss, ms) && k < |ms|
    ensures Unreachable(ss[k + 1], a) <==> Unreachable(ss[k], a) || DropsLast(ss[k], ms[k], a)
  {
    RunCallOk(ss, ms, k, ms[k].w);
    MoveReach(ss[k], ms[k], a);
  }

  // What cannot be reached is in no table.
  lemma {:induction false} UnreachableIsLost(ss: seq<State>, ms: seq<Move>, k: nat, a: nat)
    requires IsRun(ss, ms) && k < |ss| && Unreachable(ss[k], a)
    ensures InNoTable(ss[k], a)
  {
    forall t | t in ss[k].tasks ensures a !in Arrays(ss[k].tasks[t]) { assert !Names(ss[k].tasks[t], a); }
    forall w | 0 <= w < |ss[k].calls| ensures a !in Pending(ss[k].calls[w]) { assert !CallNames(ss[k].calls[w], a); }
  }
}
