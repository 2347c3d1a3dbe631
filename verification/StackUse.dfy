// What the cache of kernel stacks is for: a stack that is there is used before a
// new one is made, a slot that is free is filled before a stack is freed, a CPU
// that went down keeps none, and every context gets to its end.

module StackUse {
  import opened Wrappers
  import opened StackCache

  // ---------------------------------------------------------------- probes

  // Context w is looking for a stack for task t, or for a place to leave it.
  predicate Looking(s: State, w: nat, t: Task)
  {
    w < |s.work| && (s.work[w].AllocProbe? || s.work[w].AllocVmalloc?) && s.work[w].tsk == t
  }

  predicate Leaving(s: State, w: nat, t: Task)
  {
    w < |s.work| && (s.work[w].FreeProbe? || s.work[w].FreeVfree?) && s.work[w].tsk == t
  }

  // At move j context w probes slot i of the CPU it is on, which holds e.
  predicate Probes(ss: seq<State>, ms: seq<Move>, j: nat, w: nat, i: nat, e: Option<Stack>)
  {
    && j < |ms| && j < |ss| && ms[j].OnCpu? && ms[j].w == w && w < |ss[j].work|
    && (ss[j].work[w].AllocProbe? || ss[j].work[w].FreeProbe?) && ss[j].work[w].i == i
    && ms[j].cpu < |ss[j].cache| && i < |ss[j].cache[ms[j].cpu]| && ss[j].cache[ms[j].cpu][i] == e
  }

  // Since it began to look, context w has found slot i empty.
  ghost predicate FoundEmpty(ss: seq<State>, ms: seq<Move>, k: nat, w: nat, t: Task, i: nat)
  {
    exists j :: 0 <= j < k < |ss| && Probes(ss, ms, j, w, i, None) && forall q :: j <= q <= k ==> Looking(ss[q], w, t)
  }

  // Since it began to look for a place, context w has found slot i taken.
  ghost predicate FoundTaken(ss: seq<State>, ms: seq<Move>, k: nat, w: nat, t: Task, i: nat)
  {
    exists j, x ::
      0 <= j < k < |ss| && Probes(ss, ms, j, w, i, Some(x)) && forall q :: j <= q <= k ==> Leaving(ss[q], w, t)
  }

  // How many slots the context has probed in vain.
  function Probed(k: Work): nat
  {
    match k
    case AllocProbe(_, _, i) => i
    case AllocVmalloc(_, _) => NR_CACHED_STACKS
    case FreeProbe(_, _, i) => i
    case FreeVfree(_, _) => NR_CACHED_STACKS
    case _ => 0
  }

  // The step before: a probe of the next slot that did not help.
  predicate OneProbe(s: State, m: Move, k': Work, empty: bool)
  {
    && m.OnCpu? && m.w < |s.work| && Probed(k') > 0 && m.cpu < |s.cache|
    && (if empty then s.work[m.w].AllocProbe? else s.work[m.w].FreeProbe?)
    && s.work[m.w].i == Probed(k') - 1 && s.work[m.w].i < |s.cache[m.cpu]|
    && s.cache[m.cpu][s.work[m.w].i].None? == empty
  }

  lemma {:induction false} LookStep(s: State, m: Move, t: Task)
    requires Enabled(s, m) && Looking(Apply(s, m), m.w, t) && Probed(Apply(s, m).work[m.w]) > 0
    ensures Looking(s, m.w, t) && OneProbe(s, m, Apply(s, m).work[m.w], true)
  {
  }

  lemma {:induction false} LeaveStep(s: State, m: Move, t: Task)
    requires Enabled(s, m) && Leaving(Apply(s, m), m.w, t) && Probed(Apply(s, m).work[m.w]) > 0
    ensures Leaving(s, m.w, t) && OneProbe(s, m, Apply(s, m).work[m.w], false)
  {
  }

  lemma {:induction false} EmptyLater(ss: seq<State>, ms: seq<Move>, k: nat, w: nat, t: Task, i: nat)
    requires k + 1 < |ss| && FoundEmpty(ss, ms, k, w, t, i) && Looking(ss[k + 1], w, t)
    ensures FoundEmpty(ss, ms, k + 1, w, t, i)
  {
    var j :| 0 <= j < k < |ss| && Probes(ss, ms, j, w, i, None) && forall q :: j <= q <= k ==> Looking(ss[q], w, t);
    assert forall q :: j <= q <= k + 1 ==> Looking(ss[q], w, t);
  }

  lemma {:induction false} TakenLater(ss: seq<State>, ms: seq<Move>, k: nat, w: nat, t: Task, i: nat)
    requires k + 1 < |ss| && FoundTaken(ss, ms, k, w, t, i) && Leaving(ss[k + 1], w, t)
    ensures FoundTaken(ss, ms, k + 1, w, t, i)
  {
    var j, x :| 0 <= j < k < |ss| && Probes(ss, ms, j, w, i, Some(x))
      && forall q :: j <= q <= k ==> Leaving(ss[q], w, t);
    assert forall q :: j <= q <= k + 1 ==> Leaving(ss[q], w, t);
  }

  lemma {:induction false} JustEmpty(ss: seq<State>, ms: seq<Move>, j: nat, w: nat, t: Task, i: nat)
    requires j + 1 < |ss| && Probes(ss, ms, j, w, i, None) && Looking(ss[j], w, t) && Looking(ss[j + 1], w, t)
    ensures FoundEmpty(ss, ms, j + 1, w, t, i)
  {
    assert forall q :: j <= q <= j + 1 ==> Looking(ss[q], w, t);
  }

  lemma {:induction false} JustTaken(ss: seq<State>, ms: seq<Move>, j: nat, w: nat, t: Task, i: nat, x: Stack)
    requires j + 1 < |ss| && Probes(ss, ms, j, w, i, Some(x)) && Leaving(ss[j], w, t) && Leaving(ss[j + 1], w, t)
    ensures FoundTaken(ss, ms, j + 1, w, t, i)
  {
    assert forall q :: j <= q <= j + 1 ==> Leaving(ss[q], w, t);
  }

  // One move back, the context was already looking, and had probed as much or
  // one slot less.
  lemma {:induction false} LookBack(ss: seq<State>, ms: seq<Move>, j: nat, w: nat, t: Task)
    requires IsRun(ss, ms) && j < |ms| && Looking(ss[j + 1], w, t) && Probed(ss[j + 1].work[w]) > 0
    ensures Looking(ss[j], w, t)
    ensures var p := Probed(ss[j].work[w]);
      p == Probed(ss[j + 1].work[w]) || (p + 1 == Probed(ss[j + 1].work[w]) && Probes(ss, ms, j, w, p, None))
  {
    var s, m := ss[j], ms[j];
    assert ss[j + 1] == Apply(s, m);
    OthersWork(s, m);
    if m.w == w { LookStep(s, m, t); }
  }

  lemma {:induction false} LeaveBack(ss: seq<State>, ms: seq<Move>, j: nat, w: nat, t: Task) returns (x: Stack)
    requires IsRun(ss, ms) && j < |ms| && Leaving(ss[j + 1], w, t) && Probed(ss[j + 1].work[w]) > 0
    ensures Leaving(ss[j], w, t)
    ensures var p := Probed(ss[j].work[w]);
      p == Probed(ss[j + 1].work[w]) || (p + 1 == Probed(ss[j + 1].work[w]) && Probes(ss, ms, j, w, p, Some(x)))
  {
    var s, m := ss[j], ms[j];
    assert ss[j + 1] == Apply(s, m);
    OthersWork(s, m);
    x := 0;
    if m.w == w {
      LeaveStep(s, m, t);
      x := s.cache[m.cpu][s.work[w].i].value;
    }
  }

  lemma {:induction false} LookedAtAll(ss: seq<State>, ms: seq<Move>, k: nat, w: nat, t: Task, i: nat)
    requires IsRun(ss, ms) && k < |ss| && Looking(ss[k], w, t) && i < Probed(ss[k].work[w])
    ensures FoundEmpty(ss, ms, k, w, t, i)
  {
    if k > 0 {
      LookBack(ss, ms, k - 1, w, t);
      if i < Probed(ss[k - 1].work[w]) {
        LookedAtAll(ss, ms, k - 1, w, t, i);
        EmptyLater(ss, ms, k - 1, w, t, i);
      } else {
        JustEmpty(ss, ms, k - 1, w, t, i);
      }
    }
  }

  lemma {:induction false} TriedAll(ss: seq<State>, ms: seq<Move>, k: nat, w: nat, t: Task, i: nat)
    requires IsRun(ss, ms) && k < |ss| && Leaving(ss[k], w, t) && i < Probed(ss[k].work[w])
    ensures FoundTaken(ss, ms, k, w, t, i)
  {
    if k > 0 {
      var x := LeaveBack(ss, ms, k - 1, w, t);
      if i < Probed(ss[k - 1].work[w]) {
        TriedAll(ss, ms, k - 1, w, t, i);
        TakenLater(ss, ms, k - 1, w, t, i);
      } else {
        JustTaken(ss, ms, k - 1, w, t, i, x);
      }
    }
  }

  // A new stack is made only after every slot was probed in this allocation and
  // was empty, and a stack is freed only after every slot was tried and was taken.
  lemma {:induction false} CacheComesFirst(ss: seq<State>, ms: seq<Move>, k: nat, w: nat, i: nat)
    requires IsRun(ss, ms) && k < |ss| && w < |ss[k].work| && i < NR_CACHED_STACKS
    ensures ss[k].work[w].AllocVmalloc? ==> FoundEmpty(ss, ms, k, w, ss[k].work[w].tsk, i)
    ensures ss[k].work[w].FreeVfree? ==> FoundTaken(ss, ms, k, w, ss[k].work[w].tsk, i)
  {
    if ss[k].work[w].AllocVmalloc? { LookedAtAll(ss, ms, k, w, ss[k].work[w].tsk, i); }
    if ss[k].work[w].FreeVfree? { TriedAll(ss, ms, k, w, ss[k].work[w].tsk, i); }
  }

  // A stack that a probe finds is the one the new task ends up with: from the
  // probe to a successful end of dup_task_struct, whatever other contexts do.
  lemma {:induction false} CachedStackIsUsed(ss: seq<State>, ms: seq<Move>, j: nat, k: nat, w: nat, x: Stack, i: nat)
    requires IsRun(ss, ms) && j + 1 <= k < |ms| && Probes(ss, ms, j, w, i, Some(x)) && ss[j].work[w].AllocProbe?
    requires forall q :: j < q <= k ==> StillBusy(ss[q], w, ss[j].work[w].tsk)
    requires ms[k] == Local(w, true) && ss[k].work[w].Scs?
    ensures var t := ss[j].work[w].tsk;
      && t in ss[k + 1].tasks && ss[k + 1].tasks[t] == Rec(Some(x), Some(x), true) && ss[k + 1].work[w].Idle?
      && ss[j + 1].cache[ms[j].cpu][i].None?
  {
    var t, o := ss[j].work[w].tsk, ss[j].work[w].orig;
    assert ss[j + 1] == Apply(ss[j], ms[j]);
    assert ss[j + 1].work[w] == AllocGot(t, o, x);
    CarriedSoFar(ss, ms, j + 1, k, w, t, o, x);
    RunInv(ss, ms, k);
    assert ss[k + 1] == Apply(ss[k], ms[k]);
    assert WorkInv(ss[k], w) && PlaceInv(ss[k], x);
  }

  // A free slot that a probe finds gets the stack, which is then not freed.
  lemma {:induction false} FreeSlotIsUsed(ss: seq<State>, ms: seq<Move>, j: nat, w: nat, i: nat)
    requires IsRun(ss, ms) && Probes(ss, ms, j, w, i, None) && ss[j].work[w].FreeProbe?
    ensures var t := ss[j].work[w].tsk;
      && t in ss[j].tasks && ss[j].tasks[t].vm.Some? && ss[j + 1].work[w].FreeDone?
      && ms[j].cpu < |ss[j + 1].cache| && i < |ss[j + 1].cache[ms[j].cpu]|
      && ss[j + 1].cache[ms[j].cpu][i] == ss[j].tasks[t].vm
      && ss[j].tasks[t].vm.value in ss[j + 1].place && ss[j + 1].place[ss[j].tasks[t].vm.value] != Freed
  {
    RunInv(ss, ms, j);
    assert ss[j + 1] == Apply(ss[j], ms[j]);
    assert WorkInv(ss[j], w);
    assert TaskInv(ss[j], ss[j].work[w].tsk);
  }

  // ---------------------------------------------------------------- teardown

  // A teardown has emptied the slots below the one it is at.
  predicate EmptiedSoFar(s: State, w: nat)
  {
    w < |s.work| && (s.work[w].Teardown? || s.work[w].TeardownClear?) && s.work[w].cpu < |s.cache| ==>
      forall q :: 0 <= q < s.work[w].i && q < |s.cache[s.work[w].cpu]| ==> s.cache[s.work[w].cpu][q].None?
  }

  lemma {:induction false} OwnEmptied(s: State, m: Move)
    requires Enabled(s, m) && EmptiedSoFar(s, m.w)
    ensures EmptiedSoFar(Apply(s, m), m.w)
  {
  }

  // Nobody else touches the slots of a CPU that is going down.
  lemma {:induction false} OthersEmptied(s: State, m: Move, w: nat)
    requires Inv(s) && Enabled(s, m) && w < |s.work| && m.w != w && EmptiedSoFar(s, w)
    ensures EmptiedSoFar(Apply(s, m), w)
  {
    var k := s.work[w];
    OthersWork(s, m);
    if k.Teardown? || k.TeardownClear? {
      assert WorkInv(s, w) && Apart(s.work[w], s.work[m.w]);
      assert TearsDown(k, k.cpu);
      SlotsKept(s, m, k.cpu);
    }
  }

  lemma {:induction false} SlotsKept(s: State, m: Move, c: Cpu)
    requires Enabled(s, m) && c < |s.cache| && c !in s.online && !TearsDown(s.work[m.w], c)
    ensures |Apply(s, m).cache| == |s.cache| && Apply(s, m).cache[c] == s.cache[c]
  {
  }

  lemma {:induction false} RunEmptied(ss: seq<State>, ms: seq<Move>, k: nat, w: nat)
    requires IsRun(ss, ms) && k < |ss|
    ensures EmptiedSoFar(ss[k], w)
  {
    if k > 0 {
      var s, m := ss[k - 1], ms[k - 1];
      assert ss[k] == Apply(s, m);
      RunEmptied(ss, ms, k - 1, w);
      OthersWork(s, m);
      if m.w == w {
        OwnEmptied(s, m);
      } else if w < |s.work| {
        RunInv(ss, ms, k - 1);
        OthersEmptied(s, m, w);
      }
    }
  }

  // When a teardown is done, its CPU has no stack left in any slot.
  lemma {:induction false} TeardownEmpties(ss: seq<State>, ms: seq<Move>, k: nat, w: nat, i: nat)
    requires IsRun(ss, ms) && k < |ms| && ms[k].Local? && ms[k].w == w && w < |ss[k].work| && i < NR_CACHED_STACKS
    requires ss[k].work[w].Teardown? && ss[k + 1].work[w].Idle?
    ensures var c := ss[k].work[w].cpu;
      c < |ss[k + 1].cache| && i < |ss[k + 1].cache[c]| && ss[k + 1].cache[c][i].None? && c !in ss[k + 1].online
  {
    RunEmptied(ss, ms, k, w);
    RunInv(ss, ms, k);
    assert ss[k + 1] == Apply(ss[k], ms[k]);
    assert WorkInv(ss[k], w);
  }

  // ---------------------------------------------------------------- every context ends

  // Steps a context has left at most.
  function StepsLeft(k: Work): nat
  {
    match k
    case Idle => 0
    case FreeDone(_, _) => 1
    case FreeVfree(_, _) => 2
    case FreeProbe(_, _, i) => if i < 2 then 4 - i else 2
    case Scs(_, _) => 5
    case Restore(_, _, _, _, _) => 6
    case StructCopy(_, _, _, _) => 7
    case Charge(_, _, _) => 8
    case AllocGot(_, _, _) => 9
    case AllocVmalloc(_, _) => 10
    case AllocProbe(_, _, i) => if i < 2 then 12 - i else 10
    case Teardown(_, i) => if i < 2 then 5 - 2 * i else 1
    case TeardownClear(_, i) => if i < 2 then 4 - 2 * i else 0
  }

  // Every step of a context brings it nearer to its end, and the steps of the
  // others leave it where it is.
  lemma {:induction false} ContextsEnd(ss: seq<State>, ms: seq<Move>, k: nat, w: nat)
    requires IsRun(ss, ms) && k < |ms| && w < |ss[k].work|
    ensures w < |ss[k + 1].work|
    ensures ms[k].w != w ==> ss[k + 1].work[w] == ss[k].work[w]
    ensures ms[k].w == w && !ss[k].work[w].Idle? ==> StepsLeft(ss[k + 1].work[w]) < StepsLeft(ss[k].work[w])
  {
    assert ss[k + 1] == Apply(ss[k], ms[k]);
    OthersWork(ss[k], ms[k]);
    if ms[k].w == w && !ss[k].work[w].Idle? { StepEnds(ss[k], ms[k]); }
  }

  lemma {:induction false} StepEnds(s: State, m: Move)
    requires Enabled(s, m) && !s.work[m.w].Idle?
    ensures m.w < |Apply(s, m).work| && StepsLeft(Apply(s, m).work[m.w]) < StepsLeft(s.work[m.w])
  {
    if m.OnCpu? { ProbeEnds(s, m); }
  }

  lemma {:induction false} ProbeEnds(s: State, m: Move)
    requires Enabled(s, m) && m.OnCpu?
    ensures m.w < |Apply(s, m).work| && StepsLeft(Apply(s, m).work[m.w]) < StepsLeft(s.work[m.w])
  {
  }

  // ---------------------------------------------------------------- and can do so well

  // Context w is building task t from o and nothing has failed.
  predicate Building(s: State, w: nat, t: Task, o: Task)
  {
    && w < |s.work| && DupOf(s.work[w], o) && WorksOn(s.work[w], t)
    && !s.work[w].FreeProbe? && !s.work[w].FreeVfree? && !s.work[w].FreeDone?
    && (s.work[w].Restore? ==> !s.work[w].err)
  }

  // The second run goes on from the first with moves of context w.
  ghost predicate GoesOn(ss: seq<State>, ms: seq<Move>, ss': seq<State>, ms': seq<Move>, w: nat)
  {
    && |ss| <= |ss'| && ss'[..|ss|] == ss && |ms| < |ms'| && ms'[..|ms|] == ms
    && forall k :: |ms| <= k < |ms'| ==> ms'[k].w == w
  }

  lemma {:induction false} GoesOnThen(ss: seq<State>, ms: seq<Move>, ss1: seq<State>, ms1: seq<Move>, ss2: seq<State>,
                                      ms2: seq<Move>, w: nat)
    requires GoesOn(ss, ms, ss1, ms1, w) && GoesOn(ss1, ms1, ss2, ms2, w)
    ensures GoesOn(ss, ms, ss2, ms2, w)
  {
    assert ss2[..|ss|] == ss2[..|ss1|][..|ss|] && ms2[..|ms|] == ms2[..|ms1|][..|ms|];
    forall k | |ms| <= k < |ms2| ensures ms2[k].w == w { if k < |ms1| { assert ms2[k] == ms2[..|ms1|][k]; } }
  }

  lemma {:induction false} OneMove(ss: seq<State>, ms: seq<Move>, m: Move) returns (ss': seq<State>, ms': seq<Move>)
    requires IsRun(ss, ms) && Enabled(ss[|ms|], m)
    ensures IsRun(ss', ms') && |ms'| == |ms| + 1 && ss'[|ms'|] == Apply(ss[|ms|], m) && GoesOn(ss, ms, ss', ms', m.w)
  {
    ss', ms' := ss + [Apply(ss[|ms|], m)], ms + [m];
    forall k {:trigger ms'[k]} | 0 <= k < |ms'| ensures Enabled(ss'[k], ms'[k]) && ss'[k + 1] == Apply(ss'[k], ms'[k]) {
      if k < |ms| { assert ms'[k] == ms[k] && ss'[k] == ss[k] && ss'[k + 1] == ss[k + 1]; }
    }
  }

  // The next step, with every call succeeding.
  lemma {:induction false} GoodStep(s: State, w: nat, t: Task, o: Task, m: Move)
    requires Building(s, w, t, o) && Enabled(s, m) && m.w == w && (m.OnCpu? || (m.Local? && m.ok))
    ensures Building(Apply(s, m), w, t, o) || (s.work[w].Scs? && w < |Apply(s, m).work| && Apply(s, m).work[w].Idle?)
    ensures Apply(s, m).online == s.online
  {
  }

  // One good step of the building, by way of whatever CPU the context is on.
  lemma {:induction false} BuildOn(ss: seq<State>, ms: seq<Move>, w: nat, t: Task, o: Task, cpu: Cpu)
    returns (ss': seq<State>, ms': seq<Move>)
    requires IsRun(ss, ms) && Building(ss[|ms|], w, t, o) && cpu in ss[|ms|].online
    ensures IsRun(ss', ms') && GoesOn(ss, ms, ss', ms', w)
    ensures var s, s' := ss[|ms|], ss'[|ms'|];
      && w < |s'.work| && StepsLeft(s'.work[w]) < StepsLeft(s.work[w])
      && (if s.work[w].Scs? then Settled(s', t) && s'.work[w].Idle?
          else Building(s', w, t, o) && cpu in s'.online)
  {
    var s := ss[|ms|];
    ContextsCanStep(ss, ms, |ms|, w, cpu, true);
    var m := if s.work[w].AllocProbe? then OnCpu(w, cpu) else Local(w, true);
    GoodStep(s, w, t, o, m);
    StepEnds(s, m);
    if s.work[w].Scs? { LastSettles(ss, ms, w, t, m); }
    ss', ms' := OneMove(ss, ms, m);
  }

  lemma {:induction false} LastSettles(ss: seq<State>, ms: seq<Move>, w: nat, t: Task, m: Move)
    requires IsRun(ss, ms) && w < |ss[|ms|].work| && ss[|ms|].work[w].Scs? && WorksOn(ss[|ms|].work[w], t)
    requires m == Local(w, true) && Enabled(ss[|ms|], m)
    ensures Settled(Apply(ss[|ms|], m), t)
  {
    var s := ss[|ms|];
    RunInv(ss, ms, |ms|);
    assert WorkInv(s, w);
    forall u | 0 <= u < |s.work| && u != w ensures !WorksOn(s.work[u], t) { assert Apart(s.work[w], s.work[u]); }
  }

  lemma {:induction false} CarryOn(ss: seq<State>, ms: seq<Move>, w: nat, t: Task, o: Task, cpu: Cpu)
    returns (ss': seq<State>, ms': seq<Move>)
    requires IsRun(ss, ms) && Building(ss[|ms|], w, t, o) && cpu in ss[|ms|].online
    ensures IsRun(ss', ms') && GoesOn(ss, ms, ss', ms', w)
    ensures Settled(ss'[|ms'|], t) && w < |ss'[|ms'|].work| && ss'[|ms'|].work[w].Idle?
    decreases StepsLeft(ss[|ms|].work[w])
  {
    ss', ms' := BuildOn(ss, ms, w, t, o, cpu);
    if !ss[|ms|].work[w].Scs? {
      var ss1, ms1 := ss', ms';
      ss', ms' := CarryOn(ss1, ms1, w, t, o, cpu);
      GoesOnThen(ss, ms, ss1, ms1, ss', ms', w);
    }
  }

  // From any state of any run, a dup_task_struct that can begin can be carried
  // through by its own steps: the new task is settled, with a stack of its own.
  lemma {:induction false} DupCanSucceed(ss: seq<State>, ms: seq<Move>, w: nat, t: Task, o: Task, cpu: Cpu)
    returns (ss': seq<State>, ms': seq<Move>)
    requires IsRun(ss, ms) && Enabled(ss[|ms|], BeginDup(w, t, o)) && cpu in ss[|ms|].online
    ensures IsRun(ss', ms') && GoesOn(ss, ms, ss', ms', w)
    ensures Settled(ss'[|ms'|], t) && w < |ss'[|ms'|].work| && ss'[|ms'|].work[w].Idle?
  {
    var ss1, ms1 := OneMove(ss, ms, BeginDup(w, t, o));
    ss', ms' := CarryOn(ss1, ms1, w, t, o, cpu);
    GoesOnThen(ss, ms, ss1, ms1, ss', ms', w);
  }
}
