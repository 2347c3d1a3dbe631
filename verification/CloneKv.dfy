// The kv arrays of thread groups, over every step of the clone machine.

module CloneKv {
  import opened Wrappers
  import opened CloneModel
  import opened CloneInv
  import CloneSteps

  // ---------------------------------------------------------------- kv arrays

  function Arrays(t: Task): set<nat>
  {
    if t.kvOk && t.kvStore.Some? && t.kvLocks.Some? then {t.kvStore.value, t.kvLocks.value} else {}
  }

  predicate TableOk(t: Task)
  {
    t.kvOk ==> t.kvStore.Some? && t.kvLocks.Some? && t.kvStore != t.kvLocks
  }

  // Arrays made for a task that is not visible yet.
  function Pending(c: Call): set<nat>
  {
    if c.Clone? && (c.stage == AtCgroup || c.stage == AtPublish) then OwnArrays(c.b) else {}
  }

  ghost predicate Accounted(s: State, a: nat)
  {
    || a in s.leaked
    || (exists t :: t in s.tasks && a in Arrays(s.tasks[t]))
    || (exists w :: 0 <= w < |s.calls| && a in Pending(s.calls[w]))
  }

  ghost predicate KvInv(s: State)
  {
    && s.leaked <= s.kvLive
    && (forall t :: t in s.tasks ==> TableOk(s.tasks[t]) && Arrays(s.tasks[t]) <= s.kvLive - s.leaked)
    && (forall w :: 0 <= w < |s.calls| ==> PendingOk(s.calls[w]) && Pending(s.calls[w]) <= s.kvLive - s.leaked)
    && (forall t, u :: t in s.tasks && u in s.tasks && s.tasks[t].tgid != s.tasks[u].tgid ==>
          Arrays(s.tasks[t]) !! Arrays(s.tasks[u]))
    && (forall w, t :: 0 <= w < |s.calls| && t in s.tasks ==> Pending(s.calls[w]) !! Arrays(s.tasks[t]))
    && (forall w, u :: 0 <= w < |s.calls| && 0 <= u < |s.calls| && w != u ==>
          Pending(s.calls[w]) !! Pending(s.calls[u]))
    && (forall a :: a in s.kvLive ==> Accounted(s, a))
  }

  predicate PendingOk(c: Call)
  {
    c.Clone? && (c.stage == AtCgroup || c.stage == AtPublish) && !c.b.flags.thread ==> TableOk(c.b.p)
  }

  // What a move does to the arrays of the call that makes it: nothing, makes
  // them, hands them to the new task, or loses them.
  ghost predicate KvKeeps(s: State, s': State, w: nat)
    requires w < |s.calls| == |s'.calls|
  {
    s'.kvLive == s.kvLive && s'.leaked == s.leaked && Pending(s'.calls[w]) == Pending(s.calls[w])
  }

  ghost predicate KvMakes(s: State, s': State, w: nat)
    requires w < |s.calls| == |s'.calls|
  {
    && s'.kvLive == s.kvLive + Pending(s'.calls[w]) && s'.leaked == s.leaked
    && Pending(s.calls[w]) == {} && Pending(s'.calls[w]) !! s.kvLive
  }

  ghost predicate KvLoses(s: State, s': State, w: nat)
    requires w < |s.calls| == |s'.calls|
  {
    s'.kvLive == s.kvLive && s'.leaked == s.leaked + Pending(s.calls[w]) && Pending(s'.calls[w]) == {}
  }

  lemma {:induction false} KvOfStage(s: State, w: nat, id: nat, kv: KvResult)
    requires Enabled(s, Step(w, true, id, kv)) && s.calls[w].stage != AtPublish
    ensures w < |StepOk(s, w, id, kv).calls| == |s.calls|
    ensures s.calls[w].stage == AtKv ==> KvMakes(s, StepOk(s, w, id, kv), w)
    ensures s.calls[w].stage != AtKv ==> KvKeeps(s, StepOk(s, w, id, kv), w)
  {
    var c := s.calls[w];
    StageKv(c.b, c.stage, s.tasks[c.b.cur], id, kv);
  }

  lemma {:induction false} KvOfFailure(s: State, w: nat)
    requires w < |s.calls| && s.calls[w].Clone?
    ensures var s' := StepFails(s, w); w < |s'.calls| == |s.calls| && KvLoses(s, s', w)
  {
  }

  // No other move touches the arrays.
  lemma {:induction false} KvOfOthers(s: State, m: Move)
    requires Enabled(s, m) && !m.Step?
    ensures var s' := Apply(s, m); m.w < |s'.calls| == |s.calls| && KvKeeps(s, s', m.w)
  {
  }

  lemma {:induction false} StageKv(b: Build, stage: Stage, me: Task, id: nat, kv: KvResult)
    requires stage != AtPublish
    ensures var r := Advance(b, stage, me, id, kv);
      && (stage == AtKv ==> r.next == AtCgroup && OwnArrays(r.b) == KvArrays(b.flags.thread, kv))
      && (stage == AtCgroup ==> r.next == AtPublish && r.b == b)
      && (stage != AtKv && stage != AtCgroup ==> r.next != AtCgroup && r.next != AtPublish)
  {
  }

  // ---------------------------------------------------------------- one move

  // Tasks keep their groups and arrays.
  ghost predicate SameTables(s: State, s': State)
  {
    && s'.tasks.Keys == s.tasks.Keys
    && forall t :: t in s.tasks ==>
         && s'.tasks[t].tgid == s.tasks[t].tgid && Arrays(s'.tasks[t]) == Arrays(s.tasks[t])
         && (TableOk(s.tasks[t]) ==> TableOk(s'.tasks[t]))
  }

  lemma {:induction false} SameTablesStep(s: State, m: Move)
    requires Enabled(s, m) && !CloneSteps.Publishes(s, m)
    ensures SameTables(s, Apply(s, m))
  {
    CloneSteps.KeysKept(s, m);
    forall t | t in s.tasks
      ensures Apply(s, m).tasks[t].tgid == s.tasks[t].tgid && Arrays(Apply(s, m).tasks[t]) == Arrays(s.tasks[t])
      ensures TableOk(s.tasks[t]) ==> TableOk(Apply(s, m).tasks[t])
    {
      assert CloneSteps.SameButFs(s.tasks[t], Apply(s, m).tasks[t]);
    }
  }

  // A move that shows no task: its call keeps, makes or loses arrays.
  lemma {:induction false} KvInvStep(s: State, s': State, w: nat)
    requires KvInv(s) && w < |s.calls| == |s'.calls| && s'.calls == s.calls[w := s'.calls[w]] && SameTables(s, s')
    requires KvKeeps(s, s', w) || KvMakes(s, s', w) || KvLoses(s, s', w)
    requires PendingOk(s'.calls[w])
    ensures KvInv(s')
  {
    forall a | a in s'.kvLive ensures Accounted(s', a) { StaysAccounted(s, s', w, a); }
    KvDisjoint(s, s', w);
  }

  lemma {:induction false} KvDisjoint(s: State, s': State, w: nat)
    requires KvInv(s) && w < |s.calls| == |s'.calls| && s'.calls == s.calls[w := s'.calls[w]] && SameTables(s, s')
    requires KvKeeps(s, s', w) || KvMakes(s, s', w) || KvLoses(s, s', w)
    ensures forall t :: t in s'.tasks ==> TableOk(s'.tasks[t]) && Arrays(s'.tasks[t]) <= s'.kvLive - s'.leaked
    ensures forall u :: 0 <= u < |s'.calls| ==> Pending(s'.calls[u]) <= s'.kvLive - s'.leaked
    ensures forall t, u :: t in s'.tasks && u in s'.tasks && s'.tasks[t].tgid != s'.tasks[u].tgid ==>
      Arrays(s'.tasks[t]) !! Arrays(s'.tasks[u])
    ensures forall u, t :: 0 <= u < |s'.calls| && t in s'.tasks ==> Pending(s'.calls[u]) !! Arrays(s'.tasks[t])
    ensures forall v, u :: 0 <= v < |s'.calls| && 0 <= u < |s'.calls| && v != u ==>
      Pending(s'.calls[v]) !! Pending(s'.calls[u])
  {
    forall t | t in s'.tasks ensures TableOk(s'.tasks[t]) && Arrays(s'.tasks[t]) <= s'.kvLive - s'.leaked {
      assert Pending(s.calls[w]) !! Arrays(s.tasks[t]);
    }
    forall u | 0 <= u < |s'.calls| ensures Pending(s'.calls[u]) <= s'.kvLive - s'.leaked {
      assert u != w ==> Pending(s.calls[w]) !! Pending(s.calls[u]);
    }
    forall u, t | 0 <= u < |s'.calls| && t in s'.tasks ensures Pending(s'.calls[u]) !! Arrays(s'.tasks[t]) {
      assert Pending(s.calls[u]) !! Arrays(s.tasks[t]);
      assert Arrays(s.tasks[t]) <= s.kvLive;
    }
    forall v, u | 0 <= v < |s'.calls| && 0 <= u < |s'.calls| && v != u
      ensures Pending(s'.calls[v]) !! Pending(s'.calls[u])
    {
      assert Pending(s.calls[v]) !! Pending(s.calls[u]);
      assert Pending(s.calls[v]) <= s.kvLive && Pending(s.calls[u]) <= s.kvLive;
    }
  }

  lemma {:induction false} StaysAccounted(s: State, s': State, w: nat, a: nat)
    requires w < |s.calls| == |s'.calls| && s'.calls == s.calls[w := s'.calls[w]] && SameTables(s, s')
    requires KvKeeps(s, s', w) || KvMakes(s, s', w) || KvLoses(s, s', w)
    requires a in s'.kvLive && (a in s.kvLive ==> Accounted(s, a))
    ensures Accounted(s', a)
  {
    if a !in s.kvLive {
      assert a in Pending(s'.calls[w]);
    } else if t :| t in s.tasks && a in Arrays(s.tasks[t]) {
      assert a in Arrays(s'.tasks[t]);
    } else if u :| 0 <= u < |s.calls| && a in Pending(s.calls[u]) {
      assert u != w ==> a in Pending(s'.calls[u]);
      assert u == w ==> a in s'.leaked || a in Pending(s'.calls[w]);
    }
  }

  // The new task's arrays are its maker's, or the ones made for it.
  lemma {:induction false} ShownArrays(s: State, b: Build)
    requires b.cur in s.tasks && Ready(s, b) && TableOk(s.tasks[b.cur]) && (!b.flags.thread ==> TableOk(b.p))
    ensures TableOk(b.p)
    ensures Arrays(b.p) == if b.flags.thread then Arrays(s.tasks[b.cur]) else OwnArrays(b)
  {
  }

  lemma {:induction false} KvPublish(s: State, s': State, w: nat)
    requires KvInv(s) && w < |s.calls| && s.calls[w].Clone? && s.calls[w].stage == AtPublish
    requires BuildOk(s, s.calls[w].b, Rank(CancelCgroup)) && Ready(s, s.calls[w].b)
    requires s'.tasks == s.tasks[s.calls[w].b.nr := s.calls[w].b.p] && s'.calls == s.calls[w := Idle]
    requires s'.kvLive == s.kvLive && s'.leaked == s.leaked
    ensures KvInv(s')
  {
    var b := s.calls[w].b;
    assert PendingOk(s.calls[w]) && TableOk(s.tasks[b.cur]);
    ShownArrays(s, b);
    ShownApart(s, w);
    forall a | a in s'.kvLive ensures Accounted(s', a) { assert Accounted(s, a); ShownAccounted(s, s', w, a); }
    KvShownDisjoint(s, s', w, b.nr, b.p);
  }

  // The new task's arrays are apart from those of other groups and of other calls.
  lemma {:induction false} ShownApart(s: State, w: nat)
    requires KvInv(s) && w < |s.calls| && s.calls[w].Clone? && s.calls[w].stage == AtPublish
    requires s.calls[w].b.cur in s.tasks && Ready(s, s.calls[w].b)
    ensures var p := s.calls[w].b.p;
      && TableOk(p) && Arrays(p) <= s.kvLive - s.leaked
      && (forall u :: u in s.tasks && s.tasks[u].tgid != p.tgid ==> Arrays(p) !! Arrays(s.tasks[u]))
      && (forall u :: 0 <= u < |s.calls| && u != w ==> Pending(s.calls[u]) !! Arrays(p))
  {
    var b := s.calls[w].b;
    assert PendingOk(s.calls[w]) && TableOk(s.tasks[b.cur]);
    ShownArrays(s, b);
    assert Pending(s.calls[w]) == OwnArrays(b);
    forall u | u in s.tasks && s.tasks[u].tgid != b.p.tgid ensures Arrays(b.p) !! Arrays(s.tasks[u]) {
      assert Pending(s.calls[w]) !! Arrays(s.tasks[u]);
    }
    forall u | 0 <= u < |s.calls| && u != w ensures Pending(s.calls[u]) !! Arrays(b.p) {
      assert Pending(s.calls[u]) !! Arrays(s.tasks[b.cur]);
      assert Pending(s.calls[w]) !! Pending(s.calls[u]);
    }
  }

  lemma {:induction false} KvShownDisjoint(s: State, s': State, w: nat, nr: nat, p: Task)
    requires KvInv(s) && w < |s.calls| && nr !in s.tasks
    requires s'.tasks == s.tasks[nr := p] && s'.calls == s.calls[w := Idle] && s'.kvLive == s.kvLive
    requires s'.leaked == s.leaked
    requires TableOk(p) && Arrays(p) <= s.kvLive - s.leaked
    requires forall u :: u in s.tasks && s.tasks[u].tgid != p.tgid ==> Arrays(p) !! Arrays(s.tasks[u])
    requires forall u :: 0 <= u < |s.calls| && u != w ==> Pending(s.calls[u]) !! Arrays(p)
    requires forall a :: a in s'.kvLive ==> Accounted(s', a)
    ensures KvInv(s')
  {
    forall u, t | 0 <= u < |s'.calls| && t in s'.tasks ensures Pending(s'.calls[u]) !! Arrays(s'.tasks[t]) {
      assert u == w || s'.calls[u] == s.calls[u];
    }
    forall u | 0 <= u < |s'.calls| ensures PendingOk(s'.calls[u]) && Pending(s'.calls[u]) <= s'.kvLive - s'.leaked {
      assert u == w || PendingOk(s.calls[u]);
    }
  }

  lemma {:induction false} ShownAccounted(s: State, s': State, w: nat, a: nat)
    requires w < |s.calls| && s.calls[w].Clone? && s.calls[w].stage == AtPublish && s.calls[w].b.nr !in s.tasks
    requires s'.tasks == s.tasks[s.calls[w].b.nr := s.calls[w].b.p] && s'.calls == s.calls[w := Idle]
    requires s'.leaked == s.leaked
    requires Accounted(s, a) && OwnArrays(s.calls[w].b) <= Arrays(s.calls[w].b.p)
    ensures Accounted(s', a)
  {
    if t :| t in s.tasks && a in Arrays(s.tasks[t]) {
      assert a in Arrays(s'.tasks[t]);
    } else if u :| 0 <= u < |s.calls| && a in Pending(s.calls[u]) {
      if u == w { assert a in Arrays(s'.tasks[s.calls[w].b.nr]); } else { assert a in Pending(s'.calls[u]); }
    }
  }

  lemma {:induction false} PendingStaysOk(s: State, w: nat, id: nat, kv: KvResult)
    requires Enabled(s, Step(w, true, id, kv)) && s.calls[w].stage != AtPublish && PendingOk(s.calls[w])
    ensures var s' := StepOk(s, w, id, kv); w < |s'.calls| && PendingOk(s'.calls[w])
  {
    var c := s.calls[w];
    StageKv(c.b, c.stage, s.tasks[c.b.cur], id, kv);
    if c.stage == AtKv { NewTableOk(c.b, s.tasks[c.b.cur], id, kv); }
  }

  lemma {:induction false} NewTableOk(b: Build, me: Task, id: nat, kv: KvResult)
    requires kv.BothOk? ==> kv.store != kv.locks
    ensures !b.flags.thread ==> TableOk(Advance(b, AtKv, me, id, kv).b.p)
  {
  }

  lemma {:induction false} KvOfMove(s: State, m: Move)
    requires Enabled(s, m) && !CloneSteps.Publishes(s, m) && PendingOk(s.calls[m.w])
    ensures m.w < |Apply(s, m).calls| == |s.calls| && PendingOk(Apply(s, m).calls[m.w])
    ensures KvKeeps(s, Apply(s, m), m.w) || KvMakes(s, Apply(s, m), m.w) || KvLoses(s, Apply(s, m), m.w)
  {
    if m.Step? && m.ok {
      KvOfStage(s, m.w, m.id, m.kv);
      PendingStaysOk(s, m.w, m.id, m.kv);
    } else if m.Step? {
      KvOfFailure(s, m.w);
    } else {
      KvOfOthers(s, m);
    }
  }

  lemma {:induction false} MoveKeepsKv(s: State, m: Move)
    requires KvInv(s) && CallInv(s) && Enabled(s, m)
    ensures KvInv(Apply(s, m))
  {
    assert PendingOk(s.calls[m.w]) && CallOk(s, s.calls[m.w]);
    if CloneSteps.Publishes(s, m) {
      KvPublishes(s, m);
    } else {
      KvMoves(s, m);
    }
  }

  lemma {:induction false} KvMoves(s: State, m: Move)
    requires KvInv(s) && Enabled(s, m) && !CloneSteps.Publishes(s, m) && PendingOk(s.calls[m.w])
    ensures KvInv(Apply(s, m))
  {
    CloneSteps.MoveFrame(s, m);
    SameTablesStep(s, m);
    KvOfMove(s, m);
    KvInvStep(s, Apply(s, m), m.w);
  }

  lemma {:induction false} KvPublishes(s: State, m: Move)
    requires KvInv(s) && Enabled(s, m) && CloneSteps.Publishes(s, m) && CallOk(s, s.calls[m.w])
    ensures KvInv(Apply(s, m))
  {
    CloneSteps.PublishReady(s, s.calls[m.w]);
    CloneSteps.PublishFrame(s, m);
    KvPublish(s, Apply(s, m), m.w);
  }
}
