// Kernel stacks and their per-CPU cache: dup_task_struct, free_thread_stack and
// CPU teardown in any interleaving. Every stack is owned by exactly one of a
// task, a cache slot, a context that is moving it, or the free pool.

module StackCache {
  import opened Wrappers

  const NR_CACHED_STACKS: nat := 2

  type Stack = nat
  type Task = nat
  type Cpu = nat

  // The two stack pointers of a task_struct. `owns` is a history variable: the
  // pointers are this task's own, not a copy of its parent's and not stale.
  datatype Rec = Rec(stack: Option<Stack>, vm: Option<Stack>, owns: bool)

  // What one kernel context is doing. `tsk` is the task it works on, `orig` the
  // task being duplicated.
  datatype Work =
    | Idle
    | AllocProbe(tsk: Task, orig: Task, i: nat)          // about to xchg slot i
    | AllocVmalloc(tsk: Task, orig: Task)                // the cache was empty
    | AllocGot(tsk: Task, orig: Task, s: Stack)          // has a stack in hand
    | Charge(tsk: Task, orig: Task, s: Stack)            // memcg_charge_kernel_stack
    | StructCopy(tsk: Task, orig: Task, stack: Stack, vm: Option<Stack>)
    | Restore(tsk: Task, orig: Task, stack: Stack, vm: Option<Stack>, err: bool)
    | Scs(tsk: Task, orig: Task)                         // scs_prepare
    | FreeProbe(tsk: Task, parent: Option<Task>, i: nat)   // about to cmpxchg slot i
    | FreeVfree(tsk: Task, parent: Option<Task>)           // the cache was full
    | FreeDone(tsk: Task, parent: Option<Task>)
    | Teardown(cpu: Cpu, i: nat)                         // free_vm_stack_cache
    | TeardownClear(cpu: Cpu, i: nat)                    // vfree done, slot not yet cleared

  // Where a stack is (history variable `place`).
  datatype Place = Slot(cpu: Cpu, i: nat) | OfTask(t: Task) | InHand(w: nat) | Freed

  datatype State = State(
    cache: seq<seq<Option<Stack>>>, online: set<Cpu>, tasks: map<Task, Rec>, work: seq<Work>,
    next: Stack, place: map<Stack, Place>)

  datatype Move =
    | BeginDup(w: nat, t: Task, o: Task)
    | OnCpu(w: nat, cpu: Cpu)        // one this_cpu_xchg or this_cpu_cmpxchg
    | Local(w: nat, ok: bool)        // any other step; ok is the result of the call in it
    | BeginRelease(w: nat, t: Task)
    | BeginTeardown(w: nat, cpu: Cpu)
    | CpuUp(w: nat, cpu: Cpu)

  predicate WorksOn(k: Work, t: Task)
  {
    && !k.Idle? && !k.Teardown? && !k.TeardownClear? && k.tsk == t
  }

  predicate DupOf(k: Work, o: Task)
  {
    || ((k.AllocProbe? || k.AllocVmalloc? || k.AllocGot? || k.Charge? || k.StructCopy? || k.Restore? || k.Scs?)
          && k.orig == o)
    || ((k.FreeProbe? || k.FreeVfree? || k.FreeDone?) && k.parent == Some(o))
  }

  ghost predicate Busy(s: State, t: Task)
  {
    exists w :: 0 <= w < |s.work| && (WorksOn(s.work[w], t) || DupOf(s.work[w], t))
  }

  predicate TearsDown(k: Work, c: Cpu)
  {
    (k.Teardown? || k.TeardownClear?) && k.cpu == c
  }

  predicate Shape(s: State)
  {
    && (forall c :: c in s.online ==> c < |s.cache|)
    && (forall c :: 0 <= c < |s.cache| ==> |s.cache[c]| == NR_CACHED_STACKS)
  }

  ghost predicate Enabled(s: State, m: Move)
  {
    Shape(s) && m.w < |s.work|
    && var k := s.work[m.w];
    match m
    // the duplicating task runs, so it is not itself being built or torn down
    case BeginDup(_, t, o) =>
      && k.Idle? && t !in s.tasks && o in s.tasks && s.tasks[o].owns
      && forall x :: 0 <= x < |s.work| ==> !WorksOn(s.work[x], o)
    case OnCpu(_, c) =>
      && c in s.online
      && ((k.AllocProbe? && k.i < NR_CACHED_STACKS)
          || (k.FreeProbe? && k.i < NR_CACHED_STACKS && k.tsk in s.tasks && s.tasks[k.tsk].vm.Some?))
    case Local(_, _) =>
      && (k.AllocVmalloc? || k.AllocGot? || k.Charge? || k.StructCopy? || k.Restore? || k.Scs?
          || k.FreeVfree? || k.FreeDone? || k.Teardown? || k.TeardownClear?)
      && (k.Charge? ==> k.tsk in s.tasks)
      && (k.StructCopy? ==> k.orig in s.tasks)
      && (k.FreeVfree? ==> k.tsk in s.tasks && s.tasks[k.tsk].vm.Some?)
      && (k.Teardown? || k.TeardownClear? ==> k.cpu < |s.cache| && k.i <= NR_CACHED_STACKS)
      && (k.TeardownClear? ==> k.i < NR_CACHED_STACKS)
    // put_task_stack dropped the last reference of a dead task
    case BeginRelease(_, t) => k.Idle? && t in s.tasks && s.tasks[t].owns && !Busy(s, t)
    case BeginTeardown(_, c) =>
      k.Idle? && c in s.online && forall x :: 0 <= x < |s.work| ==> !TearsDown(s.work[x], c)
    case CpuUp(_, c) =>
      k.Idle? && c < |s.cache| && c !in s.online && forall x :: 0 <= x < |s.work| ==> !TearsDown(s.work[x], c)
  }

  function Put(s: State, w: nat, k: Work): State
    requires w < |s.work|
  {
    s.(work := s.work[w := k])
  }

  function SetSlot(s: State, c: Cpu, i: nat, x: Option<Stack>): State
    requires Shape(s) && c < |s.cache| && i < NR_CACHED_STACKS
  {
    s.(cache := s.cache[c := s.cache[c][i := x]])
  }

  // this_cpu_xchg(cached_stacks[i], NULL)
  function TakeSlot(s: State, w: nat, c: Cpu): State
    requires Shape(s) && w < |s.work| && s.work[w].AllocProbe? && s.work[w].i < NR_CACHED_STACKS && c < |s.cache|
  {
    var k := s.work[w];
    match s.cache[c][k.i]
    case None => Put(s, w, if k.i + 1 < NR_CACHED_STACKS then AllocProbe(k.tsk, k.orig, k.i + 1)
        else AllocVmalloc(k.tsk, k.orig))
    case Some(x) =>
      var s1 := SetSlot(s, c, k.i, None);
      Put(s1, w, AllocGot(k.tsk, k.orig, x)).(place := s.place[x := InHand(w)])
  }

  // this_cpu_cmpxchg(cached_stacks[i], NULL, tsk->stack_vm_area)
  function GiveSlot(s: State, w: nat, c: Cpu): State
    requires Shape(s) && w < |s.work| && s.work[w].FreeProbe? && s.work[w].i < NR_CACHED_STACKS && c < |s.cache|
    requires s.work[w].tsk in s.tasks && s.tasks[s.work[w].tsk].vm.Some?
  {
    var k := s.work[w];
    match s.cache[c][k.i]
    case Some(_) => Put(s, w, if k.i + 1 < NR_CACHED_STACKS then FreeProbe(k.tsk, k.parent, k.i + 1)
        else FreeVfree(k.tsk, k.parent))
    case None =>
      var r := s.tasks[k.tsk];
      var s1 := SetSlot(s, c, k.i, r.vm);
      Put(s1, w, FreeDone(k.tsk, k.parent))
        .(tasks := s.tasks[k.tsk := r.(owns := false)], place := s.place[r.vm.value := Slot(c, k.i)])
  }

  function DoLocal(s: State, w: nat, ok: bool): State
    requires Enabled(s, Local(w, ok))
  {
    var k := s.work[w];
    match k
    case AllocVmalloc(t, o) =>
      if ok then Put(s, w, AllocGot(t, o, s.next)).(next := s.next + 1, place := s.place[s.next := InHand(w)])
      else Put(s, w, Idle).(tasks := s.tasks - {t})                       // free_tsk
    case AllocGot(t, o, x) =>
      Put(s, w, Charge(t, o, x)).(tasks := s.tasks[t := Rec(Some(x), Some(x), true)], place := s.place[x := OfTask(t)])
    case Charge(t, o, x) =>
      if ok then Put(s, w, StructCopy(t, o, x, s.tasks[t].vm))
      else Put(s, w, FreeProbe(t, Some(o), 0))                            // free_stack
    case StructCopy(t, o, stack, vm) =>
      // arch_dup_task_struct overwrites both pointers with the parent's
      Put(s, w, Restore(t, o, stack, vm, !ok))
        .(tasks := s.tasks[t := s.tasks[o].(owns := false)], place := s.place[stack := InHand(w)])
    case Restore(t, o, stack, vm, err) =>
      Put(s, w, if err then FreeProbe(t, Some(o), 0) else Scs(t, o))
        .(tasks := s.tasks[t := Rec(Some(stack), vm, true)], place := s.place[stack := OfTask(t)])
    case Scs(t, o) =>
      Put(s, w, if ok then Idle else FreeProbe(t, Some(o), 0))
    case FreeVfree(t, o) =>
      var r := s.tasks[t];
      Put(s, w, FreeDone(t, o)).(tasks := s.tasks[t := r.(owns := false)], place := s.place[r.vm.value := Freed])
    case FreeDone(t, o) =>
      Put(s, w, Idle).(tasks := s.tasks - {t})                            // free_task_struct, free_task
    case Teardown(c, i) =>
      if i == NR_CACHED_STACKS then Put(s, w, Idle)
      else
        (match s.cache[c][i]
         case None => Put(s, w, Teardown(c, i + 1))
         case Some(x) => Put(s, w, TeardownClear(c, i)).(place := s.place[x := Freed]))
    case TeardownClear(c, i) =>
      Put(SetSlot(s, c, i, None), w, Teardown(c, i + 1))
  }

  function Apply(s: State, m: Move): State
    requires Enabled(s, m)
  {
    match m
    case BeginDup(w, t, o) =>
      Put(s, w, AllocProbe(t, o, 0)).(tasks := s.tasks[t := Rec(None, None, false)])
    case OnCpu(w, c) => if s.work[w].AllocProbe? then TakeSlot(s, w, c) else GiveSlot(s, w, c)
    case Local(w, ok) => DoLocal(s, w, ok)
    case BeginRelease(w, t) => Put(s, w, FreeProbe(t, None, 0))
    case BeginTeardown(w, c) => Put(s, w, Teardown(c, 0)).(online := s.online - {c})
    case CpuUp(_, c) => s.(online := s.online + {c})
  }

  // ---------------------------------------------------------------- invariant

  ghost predicate PlaceInv(s: State, x: Stack)
    requires x in s.place
  {
    match s.place[x]
    case Slot(c, i) => c < |s.cache| && i < |s.cache[c]| && s.cache[c][i] == Some(x)
    case OfTask(t) => t in s.tasks && s.tasks[t] == Rec(Some(x), Some(x), true)
    case InHand(w) => w < |s.work| && Hand(s.work[w]) == Some(x)
    case Freed => true
  }

  // The stack a context holds outside any task and slot.
  function Hand(k: Work): Option<Stack>
  {
    match k
    case AllocGot(_, _, x) => Some(x)
    case Restore(_, _, x, _, _) => Some(x)
    case _ => None
  }

  ghost predicate SlotInv(s: State, c: Cpu, i: nat)
    requires c < |s.cache| && i < |s.cache[c]|
  {
    s.cache[c][i].Some? ==>
      var x := s.cache[c][i].value;
      && x in s.place
      && (s.place[x] == Slot(c, i) || (s.place[x] == Freed && Stale(s, c, i)))
  }

  // The slot of a dead CPU between the vfree and the clearing of the pointer.
  ghost predicate Stale(s: State, c: Cpu, i: nat)
  {
    exists w :: 0 <= w < |s.work| && s.work[w] == TeardownClear(c, i)
  }

  ghost predicate WorkInv(s: State, w: nat)
    requires Shape(s) && w < |s.work|
  {
    var k := s.work[w];
    && (k.AllocProbe? || k.AllocVmalloc? || k.AllocGot? || k.Restore? || k.FreeDone? ==>
          k.tsk in s.tasks && !s.tasks[k.tsk].owns)
    && (k.Charge? || k.StructCopy? || k.Scs? || k.FreeProbe? || k.FreeVfree? ==>
          k.tsk in s.tasks && s.tasks[k.tsk].owns)
    && (Hand(k).Some? ==> Hand(k).value in s.place && s.place[Hand(k).value] == InHand(w))
    && (k.Charge? ==> s.tasks[k.tsk].stack == Some(k.s))
    && (k.StructCopy? ==> s.tasks[k.tsk] == Rec(Some(k.stack), k.vm, true))
    && (k.StructCopy? || k.Restore? ==> k.vm == Some(k.stack))
    && (k.AllocProbe? || k.FreeProbe? ==> k.i < NR_CACHED_STACKS)
    && (k.Teardown? || k.TeardownClear? ==> k.cpu < |s.cache| && k.cpu !in s.online && k.i <= NR_CACHED_STACKS)
    && (k.TeardownClear? ==>
          && k.i < NR_CACHED_STACKS && s.cache[k.cpu][k.i].Some?
          && s.cache[k.cpu][k.i].value in s.place && s.place[s.cache[k.cpu][k.i].value] == Freed)
    // a dup's parent is a running task with its own stack
    && (forall o :: DupOf(k, o) ==> o in s.tasks && s.tasks[o].owns && !WorksOn(k, o))
  }

  ghost predicate TaskInv(s: State, t: Task)
    requires t in s.tasks
  {
    s.tasks[t].owns ==>
      && s.tasks[t].vm.Some? && s.tasks[t].stack == s.tasks[t].vm
      && s.tasks[t].vm.value in s.place && s.place[s.tasks[t].vm.value] == OfTask(t)
  }

  ghost predicate Inv(s: State)
  {
    && Shape(s)
    && (forall x :: x in s.place <==> x < s.next)
    && (forall x :: x in s.place ==> PlaceInv(s, x))
    && (forall c, i :: 0 <= c < |s.cache| && 0 <= i < |s.cache[c]| ==> SlotInv(s, c, i))
    && (forall w :: 0 <= w < |s.work| ==> WorkInv(s, w))
    && (forall t :: t in s.tasks ==> TaskInv(s, t))
    && AllApart(s.work)
  }

  ghost predicate AllApart(work: seq<Work>)
  {
    forall w, u :: 0 <= w < |work| && 0 <= u < |work| && w != u ==> Apart(work[w], work[u])
  }

  // Two contexts do not work on one task, do not duplicate a task the other
  // one works on, and do not tear down one CPU.
  ghost predicate Apart(k: Work, l: Work)
  {
    && (forall t :: WorksOn(k, t) ==> !WorksOn(l, t) && !DupOf(l, t))
    && (forall c :: TearsDown(k, c) ==> !TearsDown(l, c))
  }

  // ---------------------------------------------------------------- preservation

  // What a step of context w may touch: its own entry, task t, and the places
  // of stacks it moves.
  lemma {:induction false} BeginDupKeepsInv(s: State, w: nat, t: Task, o: Task)
    requires Inv(s) && Enabled(s, BeginDup(w, t, o))
    ensures Inv(Apply(s, BeginDup(w, t, o)))
  {
    var s' := Apply(s, BeginDup(w, t, o));
    forall x | x in s'.place ensures PlaceInv(s', x) { assert PlaceInv(s, x); }
    forall c, i | 0 <= c < |s'.cache| && 0 <= i < |s'.cache[c]| ensures SlotInv(s', c, i) { SlotKept(s, s', w, c, i); }
    forall u | 0 <= u < |s'.work| ensures WorkInv(s', u) { assert WorkInv(s, u); }
    forall x | x in s'.tasks ensures TaskInv(s', x) { if x != t { assert TaskInv(s, x); } }
    forall a, b | 0 <= a < |s'.work| && 0 <= b < |s'.work| && a != b ensures Apart(s'.work[a], s'.work[b]) {
      assert Apart(s.work[a], s.work[b]) && WorkInv(s, a) && WorkInv(s, b);
    }
  }

  lemma {:induction false} SlotKept(s: State, s': State, w: nat, c: Cpu, i: nat)
    requires Shape(s) && Shape(s') && c < |s.cache| == |s'.cache| && i < NR_CACHED_STACKS && SlotInv(s, c, i)
    requires s'.cache[c][i] == s.cache[c][i]
    requires s.cache[c][i].Some? && s.cache[c][i].value in s.place ==>
      s.cache[c][i].value in s'.place && s'.place[s.cache[c][i].value] == s.place[s.cache[c][i].value]
    requires w < |s.work| == |s'.work| && s.work[w] != TeardownClear(c, i)
    requires forall u :: 0 <= u < |s.work| && u != w ==> s'.work[u] == s.work[u]
    ensures SlotInv(s', c, i)
  {
    if s.cache[c][i].Some? && s.place[s.cache[c][i].value] != Slot(c, i) {
      var u :| 0 <= u < |s.work| && s.work[u] == TeardownClear(c, i);
      assert s'.work[u] == TeardownClear(c, i);
    }
  }

  ghost predicate Narrows(k': Work, k: Work)
  {
    && (forall t :: WorksOn(k', t) ==> WorksOn(k, t))
    && (forall o :: DupOf(k', o) ==> DupOf(k, o))
    && (forall c :: TearsDown(k', c) ==> TearsDown(k, c))
  }

  lemma {:induction false} StaysApart(s: State, w: nat, k': Work)
    requires Inv(s) && w < |s.work| && Narrows(k', s.work[w])
    ensures AllApart(s.work[w := k'])
  {
    var work' := s.work[w := k'];
    forall a, b | 0 <= a < |work'| && 0 <= b < |work'| && a != b ensures Apart(work'[a], work'[b]) {
      assert Apart(s.work[a], s.work[b]);
    }
  }

  // Only the context's own position changes.
  lemma {:induction false} PositionOnly(s: State, w: nat, k': Work)
    requires Inv(s) && w < |s.work| && Narrows(k', s.work[w])
    requires Hand(k') == Hand(s.work[w]) && !s.work[w].TeardownClear?
    requires WorkInv(Put(s, w, k'), w)
    ensures Inv(Put(s, w, k'))
  {
    var s' := Put(s, w, k');
    StaysApart(s, w, k');
    forall x | x in s'.place ensures PlaceInv(s', x) { assert PlaceInv(s, x); }
    forall c, i | 0 <= c < |s'.cache| && 0 <= i < |s'.cache[c]| ensures SlotInv(s', c, i) { SlotKept(s, s', w, c, i); }
    forall u | 0 <= u < |s'.work| ensures WorkInv(s', u) { assert WorkInv(s, u); }
    forall x | x in s'.tasks ensures TaskInv(s', x) { assert TaskInv(s, x); }
  }

  // Context w moves stack x: from the place it has to place p', with at most
  // task t and the context's own entry changing beside it.
  ghost predicate MovesStack(s: State, s': State, w: nat, t: Task, x: Stack, p': Place)
  {
    && Shape(s) && Shape(s') && w < |s.work| == |s'.work| && s'.online == s.online && |s'.cache| == |s.cache|
    && (forall u :: 0 <= u < |s.work| && u != w ==> s'.work[u] == s.work[u])
    && WorksOn(s.work[w], t) && t in s'.tasks && s'.tasks == s.tasks[t := s'.tasks[t]]
    && s'.place == s.place[x := p']
    && (if x in s.place then s'.next == s.next else x == s.next && s'.next == s.next + 1)
  }

  // The other contexts, tasks and stacks do not notice.
  lemma {:induction false} OthersKeep(s: State, s': State, w: nat, t: Task, x: Stack, p': Place)
    requires Inv(s) && MovesStack(s, s', w, t, x, p')
    requires x in s.place ==> s.place[x].Slot? || s.place[x] == OfTask(t) || s.place[x] == InHand(w)
    requires t in s.tasks && s.tasks[t].owns ==> x in s.place && s.place[x] == OfTask(t)
    requires Hand(s.work[w]).Some? ==> Hand(s.work[w]) == Some(x)
    requires forall c, i :: 0 <= c < |s.cache| && 0 <= i < NR_CACHED_STACKS && s'.cache[c][i] != s.cache[c][i] ==>
               s.cache[c][i] == Some(x) || s.cache[c][i].None?
    ensures forall y :: y in s.place && y != x ==> PlaceInv(s', y)
    ensures forall u :: 0 <= u < |s.work| && u != w ==> WorkInv(s', u)
    ensures forall r :: r in s.tasks && r != t ==> TaskInv(s', r)
  {
    forall y | y in s.place && y != x ensures PlaceInv(s', y) {
      assert PlaceInv(s, y) && (x in s.place ==> PlaceInv(s, x));
    }
    forall u | 0 <= u < |s.work| && u != w ensures WorkInv(s', u) {
      assert WorkInv(s, u) && Apart(s.work[w], s.work[u]);
    }
    forall r | r in s.tasks && r != t ensures TaskInv(s', r) {
      assert TaskInv(s, r);
    }
  }

  // A slot is left alone, gets the stack x that belongs here, or loses it.
  predicate SlotStep(was: Option<Stack>, now: Option<Stack>, x: Stack, here: bool)
  {
    || (now == was && was != Some(x))
    || (now == Some(x) && was.None? && here)
    || (now.None? && was == Some(x))
  }

  // A stack moved by context w: everything is in order if the new place, the
  // slots, the task and the context are.
  lemma {:induction false} MoveStackKeepsInv(s: State, s': State, w: nat, t: Task, x: Stack, p': Place)
    requires Inv(s) && MovesStack(s, s', w, t, x, p')
    requires x in s.place ==> s.place[x].Slot? || s.place[x] == OfTask(t) || s.place[x] == InHand(w)
    requires t in s.tasks && s.tasks[t].owns ==> x in s.place && s.place[x] == OfTask(t)
    requires Hand(s.work[w]).Some? ==> Hand(s.work[w]) == Some(x)
    requires forall c, i :: 0 <= c < |s.cache| && 0 <= i < NR_CACHED_STACKS ==>
               SlotStep(s.cache[c][i], s'.cache[c][i], x, p' == Slot(c, i))
    requires PlaceInv(s', x) && WorkInv(s', w) && TaskInv(s', t) && Narrows(s'.work[w], s.work[w])
    ensures Inv(s')
  {
    OthersKeep(s, s', w, t, x, p');
    assert s'.work == s.work[w := s'.work[w]];
    StaysApart(s, w, s'.work[w]);
    forall c, i | 0 <= c < |s'.cache| && 0 <= i < |s'.cache[c]| ensures SlotInv(s', c, i) {
      assert SlotInv(s, c, i);
      if s'.cache[c][i] == s.cache[c][i] { SlotKept(s, s', w, c, i); }
    }
  }

  lemma {:induction false} TakeSlotKeepsInv(s: State, w: nat, c: Cpu)
    requires Inv(s) && Enabled(s, OnCpu(w, c)) && s.work[w].AllocProbe?
    ensures Inv(Apply(s, OnCpu(w, c)))
  {
    var s' := Apply(s, OnCpu(w, c));
    var k := s.work[w];
    assert WorkInv(s, w);
    match s.cache[c][k.i]
    case None => PositionOnly(s, w, s'.work[w]);
    case Some(x) =>
      assert SlotInv(s, c, k.i);
      SlotUnique(s, c, k.i);
      MoveStackKeepsInv(s, s', w, k.tsk, x, InHand(w));
  }

  // A cached stack of an online CPU is in no other slot.
  lemma {:induction false} SlotUnique(s: State, c: Cpu, i: nat)
    requires Inv(s) && c in s.online && i < NR_CACHED_STACKS && s.cache[c][i].Some?
    ensures s.cache[c][i].value in s.place && s.place[s.cache[c][i].value] == Slot(c, i)
    ensures forall d, j :: 0 <= d < |s.cache| && 0 <= j < NR_CACHED_STACKS && s.cache[d][j] == s.cache[c][i] ==>
      d == c && j == i
  {
    assert SlotInv(s, c, i);
    forall u | 0 <= u < |s.work| ensures s.work[u] != TeardownClear(c, i) { assert WorkInv(s, u); }
    forall d, j | 0 <= d < |s.cache| && 0 <= j < NR_CACHED_STACKS && s.cache[d][j] == s.cache[c][i]
      ensures d == c && j == i
    {
      assert SlotInv(s, d, j);
    }
  }

  // A stack that a task or a context holds is in no slot.
  lemma {:induction false} NotCached(s: State, x: Stack)
    requires Inv(s) && (x !in s.place || s.place[x].OfTask? || s.place[x].InHand?)
    ensures forall c, i :: 0 <= c < |s.cache| && 0 <= i < NR_CACHED_STACKS ==> s.cache[c][i] != Some(x)
  {
    forall c, i | 0 <= c < |s.cache| && 0 <= i < NR_CACHED_STACKS ensures s.cache[c][i] != Some(x) {
      assert SlotInv(s, c, i);
    }
  }

  lemma {:induction false} GiveSlotKeepsInv(s: State, w: nat, c: Cpu)
    requires Inv(s) && Enabled(s, OnCpu(w, c)) && s.work[w].FreeProbe?
    ensures Inv(Apply(s, OnCpu(w, c)))
  {
    var s' := Apply(s, OnCpu(w, c));
    var k := s.work[w];
    assert WorkInv(s, w) && TaskInv(s, k.tsk);
    match s.cache[c][k.i]
    case Some(_) => PositionOnly(s, w, s'.work[w]);
    case None =>
      var x := s.tasks[k.tsk].vm.value;
      NotCached(s, x);
      MoveStackKeepsInv(s, s', w, k.tsk, x, Slot(c, k.i));
  }

  lemma {:induction false} AllocKeepsInv(s: State, w: nat, ok: bool)
    requires Inv(s) && Enabled(s, Local(w, ok)) && (s.work[w].AllocGot? || (s.work[w].AllocVmalloc? && ok))
    ensures Inv(Apply(s, Local(w, ok)))
  {
    var s' := Apply(s, Local(w, ok));
    var k := s.work[w];
    assert WorkInv(s, w);
    if k.AllocGot? {
      NotCached(s, k.s);
      MoveStackKeepsInv(s, s', w, k.tsk, k.s, OfTask(k.tsk));
    } else {
      NotCached(s, s.next);
      assert TaskInv(s, k.tsk);
      MoveStackKeepsInv(s, s', w, k.tsk, s.next, InHand(w));
    }
  }

  lemma {:induction false} CopyKeepsInv(s: State, w: nat, ok: bool)
    requires Inv(s) && Enabled(s, Local(w, ok)) && (s.work[w].StructCopy? || s.work[w].Restore?)
    ensures Inv(Apply(s, Local(w, ok)))
  {
    var s' := Apply(s, Local(w, ok));
    var k := s.work[w];
    assert WorkInv(s, w);
    if k.StructCopy? {
      assert TaskInv(s, k.tsk);
      assert DupOf(k, k.orig);
      NotCached(s, k.stack);
      MoveStackKeepsInv(s, s', w, k.tsk, k.stack, InHand(w));
    } else {
      NotCached(s, k.stack);
      assert DupOf(k, k.orig);
      MoveStackKeepsInv(s, s', w, k.tsk, k.stack, OfTask(k.tsk));
    }
  }

  lemma {:induction false} VfreeKeepsInv(s: State, w: nat, ok: bool)
    requires Inv(s) && Enabled(s, Local(w, ok)) && s.work[w].FreeVfree?
    ensures Inv(Apply(s, Local(w, ok)))
  {
    var s' := Apply(s, Local(w, ok));
    var k := s.work[w];
    assert WorkInv(s, w) && TaskInv(s, k.tsk);
    NotCached(s, s.tasks[k.tsk].vm.value);
    MoveStackKeepsInv(s, s', w, k.tsk, s.tasks[k.tsk].vm.value, Freed);
  }

  lemma {:induction false} DropTaskKeepsInv(s: State, w: nat, ok: bool)
    requires Inv(s) && Enabled(s, Local(w, ok)) && (s.work[w].FreeDone? || (s.work[w].AllocVmalloc? && !ok))
    ensures Inv(Apply(s, Local(w, ok)))
  {
    var s' := Apply(s, Local(w, ok));
    var k := s.work[w];
    assert WorkInv(s, w);
    StaysApart(s, w, Idle);
    forall x | x in s'.place ensures PlaceInv(s', x) { assert PlaceInv(s, x); }
    forall c, i | 0 <= c < |s'.cache| && 0 <= i < |s'.cache[c]| ensures SlotInv(s', c, i) { SlotKept(s, s', w, c, i); }
    forall u | 0 <= u < |s'.work| ensures WorkInv(s', u) {
      assert WorkInv(s, u) && (u != w ==> Apart(s.work[w], s.work[u]));
    }
    forall x | x in s'.tasks ensures TaskInv(s', x) { assert TaskInv(s, x); }
  }

  lemma {:induction false} OtherLocalKeepsInv(s: State, w: nat, ok: bool)
    requires Inv(s) && Enabled(s, Local(w, ok)) && (s.work[w].Charge? || s.work[w].Scs?)
    ensures Inv(Apply(s, Local(w, ok)))
  {
    assert WorkInv(s, w);
    var k := s.work[w];
    assert DupOf(k, k.orig) && TaskInv(s, k.tsk);
    PositionOnly(s, w, Apply(s, Local(w, ok)).work[w]);
  }

  lemma {:induction false} TeardownKeepsInv(s: State, w: nat, ok: bool)
    requires Inv(s) && Enabled(s, Local(w, ok)) && s.work[w].Teardown?
    ensures Inv(Apply(s, Local(w, ok)))
  {
    var s' := Apply(s, Local(w, ok));
    var k := s.work[w];
    assert WorkInv(s, w);
    if k.i == NR_CACHED_STACKS || s.cache[k.cpu][k.i].None? {
      PositionOnly(s, w, s'.work[w]);
    } else {
      TeardownFindsLiveStack(s, w);
      VfreeSlotKeepsInv(s, s', w, k.cpu, k.i, s.cache[k.cpu][k.i].value);
    }
  }

  lemma {:induction false} VfreeSlotKeepsInv(s: State, s': State, w: nat, c: Cpu, i: nat, x: Stack)
    requires Inv(s) && w < |s.work| && s.work[w] == Teardown(c, i) && c < |s.cache| && i < NR_CACHED_STACKS
    requires s.cache[c][i] == Some(x) && x in s.place && s.place[x] == Slot(c, i)
    requires s' == Put(s, w, TeardownClear(c, i)).(place := s.place[x := Freed])
    ensures Inv(s')
  {
    assert WorkInv(s, w);
    StaysApart(s, w, s'.work[w]);
    forall y | y in s'.place ensures PlaceInv(s', y) { assert PlaceInv(s, y); }
    forall d, j | 0 <= d < |s'.cache| && 0 <= j < |s'.cache[d]| ensures SlotInv(s', d, j) {
      assert SlotInv(s, d, j);
      if s.cache[d][j] != Some(x) { SlotKept(s, s', w, d, j); } else { assert s'.work[w] == TeardownClear(d, j); }
    }
    forall u | 0 <= u < |s'.work| ensures WorkInv(s', u) { assert WorkInv(s, u); }
    forall t | t in s'.tasks ensures TaskInv(s', t) { assert TaskInv(s, t); }
  }

  lemma {:induction false} ClearKeepsInv(s: State, w: nat, ok: bool)
    requires Inv(s) && Enabled(s, Local(w, ok)) && s.work[w].TeardownClear?
    ensures Inv(Apply(s, Local(w, ok)))
  {
    var s' := Apply(s, Local(w, ok));
    var k := s.work[w];
    assert WorkInv(s, w);
    StaysApart(s, w, s'.work[w]);
    forall y | y in s'.place ensures PlaceInv(s', y) { assert PlaceInv(s, y); }
    forall c, i | 0 <= c < |s'.cache| && 0 <= i < |s'.cache[c]| ensures SlotInv(s', c, i) {
      if c != k.cpu || i != k.i { SlotKept(s, s', w, c, i); }
    }
    forall u | 0 <= u < |s'.work| ensures WorkInv(s', u) {
      assert WorkInv(s, u) && (u != w ==> Apart(s.work[w], s.work[u])) && TearsDown(s.work[w], k.cpu);
    }
    forall t | t in s'.tasks ensures TaskInv(s', t) { assert TaskInv(s, t); }
  }

  lemma {:induction false} BeginReleaseKeepsInv(s: State, w: nat, t: Task)
    requires Inv(s) && Enabled(s, BeginRelease(w, t))
    ensures Inv(Apply(s, BeginRelease(w, t)))
  {
    var s' := Apply(s, BeginRelease(w, t));
    assert TaskInv(s, t);
    forall y | y in s'.place ensures PlaceInv(s', y) { assert PlaceInv(s, y); }
    forall c, i | 0 <= c < |s'.cache| && 0 <= i < |s'.cache[c]| ensures SlotInv(s', c, i) { SlotKept(s, s', w, c, i); }
    forall u | 0 <= u < |s'.work| ensures WorkInv(s', u) { assert WorkInv(s, u); }
    forall x | x in s'.tasks ensures TaskInv(s', x) { assert TaskInv(s, x); }
    forall a, b | 0 <= a < |s'.work| && 0 <= b < |s'.work| && a != b ensures Apart(s'.work[a], s'.work[b]) {
      assert Apart(s.work[a], s.work[b]);
    }
  }

  lemma {:induction false} CpuMoveKeepsInv(s: State, m: Move)
    requires Inv(s) && (m.BeginTeardown? || m.CpuUp?) && Enabled(s, m)
    ensures Inv(Apply(s, m))
  {
    var s' := Apply(s, m);
    forall y | y in s'.place ensures PlaceInv(s', y) { assert PlaceInv(s, y); }
    forall c, i | 0 <= c < |s'.cache| && 0 <= i < |s'.cache[c]| ensures SlotInv(s', c, i) {
      SlotKept(s, s', m.w, c, i);
    }
    forall u | 0 <= u < |s'.work| ensures WorkInv(s', u) { assert WorkInv(s, u); }
    forall x | x in s'.tasks ensures TaskInv(s', x) { assert TaskInv(s, x); }
    forall a, b | 0 <= a < |s'.work| && 0 <= b < |s'.work| && a != b ensures Apart(s'.work[a], s'.work[b]) {
      assert Apart(s.work[a], s.work[b]);
    }
  }

  lemma {:induction false} MoveKeepsInv(s: State, m: Move)
    requires Inv(s) && Enabled(s, m)
    ensures Inv(Apply(s, m))
  {
    match m
    case BeginDup(w, t, o) => BeginDupKeepsInv(s, w, t, o);
    case OnCpu(w, c) => if s.work[w].AllocProbe? { TakeSlotKeepsInv(s, w, c); } else { GiveSlotKeepsInv(s, w, c); }
    case BeginRelease(w, t) => BeginReleaseKeepsInv(s, w, t);
    case BeginTeardown(_, _) => CpuMoveKeepsInv(s, m);
    case CpuUp(_, _) => CpuMoveKeepsInv(s, m);
    case Local(w, ok) =>
      match s.work[w]
      case AllocVmalloc(_, _) => if ok { AllocKeepsInv(s, w, ok); } else { DropTaskKeepsInv(s, w, ok); }
      case AllocGot(_, _, _) => AllocKeepsInv(s, w, ok);
      case Charge(_, _, _) => OtherLocalKeepsInv(s, w, ok);
      case StructCopy(_, _, _, _) => CopyKeepsInv(s, w, ok);
      case Restore(_, _, _, _, _) => CopyKeepsInv(s, w, ok);
      case Scs(_, _) => OtherLocalKeepsInv(s, w, ok);
      case FreeVfree(_, _) => VfreeKeepsInv(s, w, ok);
      case FreeDone(_, _) => DropTaskKeepsInv(s, w, ok);
      case Teardown(_, _) => TeardownKeepsInv(s, w, ok);
      case TeardownClear(_, _) => ClearKeepsInv(s, w, ok);
  }

  // ---------------------------------------------------------------- runs

  // The boot state: empty caches, settled tasks with stacks of their own.
  ghost predicate Start(s: State)
  {
    && Shape(s)
    && (forall c, i :: 0 <= c < |s.cache| && 0 <= i < |s.cache[c]| ==> s.cache[c][i].None?)
    && (forall w :: 0 <= w < |s.work| ==> s.work[w].Idle?)
    && (forall t :: t in s.tasks ==>
          && s.tasks[t].owns && s.tasks[t].vm.Some? && s.tasks[t].stack == s.tasks[t].vm
          && s.tasks[t].vm.value in s.place && s.place[s.tasks[t].vm.value] == OfTask(t))
    && (forall x :: x in s.place <==> x < s.next)
    && (forall x :: x in s.place ==>
          s.place[x].OfTask? && s.place[x].t in s.tasks && s.tasks[s.place[x].t].vm == Some(x))
  }

  ghost predicate IsRun(ss: seq<State>, ms: seq<Move>)
  {
    && |ss| == |ms| + 1 && Start(ss[0])
    && forall k {:trigger ms[k]} :: 0 <= k < |ms| ==> Enabled(ss[k], ms[k]) && ss[k + 1] == Apply(ss[k], ms[k])
  }

  lemma {:induction false} RunInv(ss: seq<State>, ms: seq<Move>, k: nat)
    requires IsRun(ss, ms) && k < |ss|
    ensures Inv(ss[k])
  {
    if k > 0 {
      RunInv(ss, ms, k - 1);
      MoveKeepsInv(ss[k - 1], ms[k - 1]);
    }
  }

  // No context works on the task: it is neither half built nor half freed.
  ghost predicate Settled(s: State, t: Task)
  {
    t in s.tasks && forall w :: 0 <= w < |s.work| ==> !WorksOn(s.work[w], t)
  }

  lemma {:induction false} OthersWork(s: State, m: Move)
    requires Enabled(s, m)
    ensures |Apply(s, m).work| == |s.work|
    ensures forall u :: 0 <= u < |s.work| && u != m.w ==> Apply(s, m).work[u] == s.work[u]
  {
  }

  // A task whose pointers are not its own stack is always in some context's care.
  ghost predicate Attended(s: State)
  {
    forall t :: Settled(s, t) ==> s.tasks[t].owns
  }

  lemma {:induction false} MoveKeepsAttended(s: State, m: Move)
    requires Inv(s) && Enabled(s, m) && Attended(s)
    ensures Attended(Apply(s, m))
  {
    var s' := Apply(s, m);
    assert WorkInv(s, m.w);
    OthersWork(s, m);
    forall t | Settled(s', t) ensures s'.tasks[t].owns {
      if t in s.tasks && !Settled(s, t) {
        var u :| 0 <= u < |s.work| && WorksOn(s.work[u], t);
        assert !WorksOn(s'.work[u], t);
      }
      SettledOwns(s, m, t);
    }
  }

  // A task leaves its context's care only with its own stack.
  lemma {:induction false} SettledOwns(s: State, m: Move, t: Task)
    requires Enabled(s, m) && WorkInv(s, m.w) && |Apply(s, m).work| == |s.work|
    requires t in Apply(s, m).tasks && !WorksOn(Apply(s, m).work[m.w], t)
    requires t in s.tasks ==> s.tasks[t].owns || WorksOn(s.work[m.w], t)
    ensures Apply(s, m).tasks[t].owns
  {
  }

  lemma {:induction false} RunAttended(ss: seq<State>, ms: seq<Move>, k: nat)
    requires IsRun(ss, ms) && k < |ss|
    ensures Attended(ss[k])
  {
    if k > 0 {
      RunAttended(ss, ms, k - 1);
      RunInv(ss, ms, k - 1);
      MoveKeepsAttended(ss[k - 1], ms[k - 1]);
    }
  }

  // In every state of every run, a settled task has a stack, which no other
  // settled task, no slot and no context has, and which has not been freed.
  lemma {:induction false} SettledTaskOwnsItsStack(ss: seq<State>, ms: seq<Move>, k: nat, t: Task)
    requires IsRun(ss, ms) && k < |ss| && Settled(ss[k], t)
    ensures var s := ss[k]; var r := s.tasks[t];
      && r.stack.Some? && r.vm == r.stack && r.stack.value in s.place
      && s.place[r.stack.value] != Freed
      && (forall u :: Settled(s, u) && u != t ==> s.tasks[u].stack != r.stack)
      && (forall c, i :: 0 <= c < |s.cache| && 0 <= i < |s.cache[c]| ==> s.cache[c][i] != r.stack)
      && (forall w :: 0 <= w < |s.work| ==> Hand(s.work[w]) != r.stack)
  {
    var s := ss[k];
    RunInv(ss, ms, k);
    RunAttended(ss, ms, k);
    assert TaskInv(s, t);
    NotCached(s, s.tasks[t].stack.value);
    forall u | Settled(s, u) && u != t ensures s.tasks[u].stack != s.tasks[t].stack { assert TaskInv(s, u); }
    forall w | 0 <= w < |s.work| ensures Hand(s.work[w]) != s.tasks[t].stack { assert WorkInv(s, w); }
  }

  // A stack cached on an online CPU is in that slot only and has not been
  // freed; one in a context's hand is in no slot and in no other hand.
  lemma {:induction false} CachedStackIsAlone(ss: seq<State>, ms: seq<Move>, k: nat, c: Cpu, i: nat)
    requires IsRun(ss, ms) && k < |ss| && c in ss[k].online && i < NR_CACHED_STACKS
    requires c < |ss[k].cache| && i < |ss[k].cache[c]| && ss[k].cache[c][i].Some?
    ensures var s := ss[k];
      && s.cache[c][i].value in s.place && s.place[s.cache[c][i].value] != Freed
      && (forall d, j :: 0 <= d < |s.cache| && 0 <= j < |s.cache[d]| && s.cache[d][j] == s.cache[c][i] ==>
            d == c && j == i)
      && (forall w :: 0 <= w < |s.work| ==> Hand(s.work[w]) != s.cache[c][i])
  {
    RunInv(ss, ms, k);
    SlotUnique(ss[k], c, i);
    forall w | 0 <= w < |ss[k].work| ensures Hand(ss[k].work[w]) != ss[k].cache[c][i] { assert WorkInv(ss[k], w); }
  }

  // Nothing leaks: every stack ever allocated has been freed, is some task's,
  // is cached, or is in the hand of a context.
  lemma {:induction false} NoStackLeaks(ss: seq<State>, ms: seq<Move>, k: nat, x: Stack)
    requires IsRun(ss, ms) && k < |ss| && x < ss[k].next
    ensures x in ss[k].place
    ensures
      var s := ss[k];
      || s.place[x] == Freed
      || (exists t :: t in s.tasks && s.tasks[t].stack == Some(x))
      || (exists c, i :: 0 <= c < |s.cache| && 0 <= i < |s.cache[c]| && s.cache[c][i] == Some(x))
      || (exists w :: 0 <= w < |s.work| && Hand(s.work[w]) == Some(x))
  {
    RunInv(ss, ms, k);
    assert PlaceInv(ss[k], x);
    match ss[k].place[x]
    case Slot(c, i) => assert ss[k].cache[c][i] == Some(x);
    case OfTask(t) => assert ss[k].tasks[t].stack == Some(x);
    case InHand(w) => assert Hand(ss[k].work[w]) == Some(x);
    case Freed =>
  }

  // The vfree of a stack: by free_thread_stack when both slots were taken, or by
  // the teardown of a CPU.
  ghost predicate Frees(s: State, m: Move, x: Stack)
  {
    && Enabled(s, m) && m.Local?
    && (|| (s.work[m.w].FreeVfree? && s.tasks[s.work[m.w].tsk].vm == Some(x))
        || (s.work[m.w].Teardown? && s.work[m.w].i < NR_CACHED_STACKS
              && s.cache[s.work[m.w].cpu][s.work[m.w].i] == Some(x)))
  }

  lemma {:induction false} StepAndFreed(s: State, m: Move, x: Stack)
    requires Inv(s) && Enabled(s, m)
    ensures Frees(s, m, x) ==> x in s.place && s.place[x] != Freed
    ensures (x in s.place && s.place[x] == Freed) || Frees(s, m, x) <==>
      x in Apply(s, m).place && Apply(s, m).place[x] == Freed
  {
    assert WorkInv(s, m.w);
    if m.OnCpu? && s.work[m.w].AllocProbe? && s.cache[m.cpu][s.work[m.w].i].Some? {
      SlotUnique(s, m.cpu, s.work[m.w].i);
    } else if m.OnCpu? && s.work[m.w].FreeProbe? {
      assert TaskInv(s, s.work[m.w].tsk);
    } else if m.Local? && s.work[m.w].FreeVfree? {
      assert TaskInv(s, s.work[m.w].tsk);
    } else if m.Local? && s.work[m.w].StructCopy? {
      assert TaskInv(s, s.work[m.w].tsk);
    } else if m.Local? && s.work[m.w].Teardown? && s.work[m.w].i < NR_CACHED_STACKS {
      TeardownFindsLiveStack(s, m.w);
    }
  }

  lemma {:induction false} TeardownFindsLiveStack(s: State, w: nat)
    requires Inv(s) && w < |s.work| && s.work[w].Teardown? && s.work[w].i < NR_CACHED_STACKS
    requires s.work[w].cpu < |s.cache|
    ensures var e := s.cache[s.work[w].cpu][s.work[w].i];
      e.Some? ==> e.value in s.place && s.place[e.value] == Slot(s.work[w].cpu, s.work[w].i)
  {
    var k := s.work[w];
    assert SlotInv(s, k.cpu, k.i);
    forall u | 0 <= u < |s.work| ensures s.work[u] != TeardownClear(k.cpu, k.i) {
      assert u != w ==> Apart(s.work[w], s.work[u]);
      assert TearsDown(s.work[w], k.cpu);
    }
  }

  // A stack is freed at most once, in any interleaving.
  lemma {:induction false} FreedAtMostOnce(ss: seq<State>, ms: seq<Move>, j: nat, k: nat, x: Stack)
    requires IsRun(ss, ms) && j < k < |ms| && Frees(ss[j], ms[j], x)
    ensures !Frees(ss[k], ms[k], x)
  {
    StaysFreed(ss, ms, j, k, x);
    RunInv(ss, ms, k);
    StepAndFreed(ss[k], ms[k], x);
  }

  lemma {:induction false} StaysFreed(ss: seq<State>, ms: seq<Move>, j: nat, k: nat, x: Stack)
    requires IsRun(ss, ms) && j < k < |ss| && Frees(ss[j], ms[j], x)
    ensures x in ss[k].place && ss[k].place[x] == Freed
    decreases k
  {
    RunInv(ss, ms, k - 1);
    if j < k - 1 { StaysFreed(ss, ms, j, k - 1, x); }
    StepAndFreed(ss[k - 1], ms[k - 1], x);
  }

  // ---------------------------------------------------------------- a failing dup_task_struct

  // Context w is busy with task t and stack x is t's own.
  ghost predicate Carries(s: State, w: nat, t: Task, x: Stack)
  {
    && w < |s.work| && WorksOn(s.work[w], t) && x in s.place
    && (s.place[x] == OfTask(t) || s.place[x] == InHand(w))
  }

  // Context w works on task t and has not yet handed its stack back.
  ghost predicate StillBusy(s: State, w: nat, t: Task)
  {
    w < |s.work| && WorksOn(s.work[w], t) && !s.work[w].FreeDone?
  }

  lemma {:induction false} CarriesOn(s: State, m: Move, w: nat, t: Task, x: Stack)
    requires Inv(s) && Enabled(s, m) && Carries(s, w, t, x) && StillBusy(Apply(s, m), w, t)
    ensures Carries(Apply(s, m), w, t, x)
  {
    assert WorkInv(s, w) && WorkInv(s, m.w) && PlaceInv(s, x);
    assert m.w != w ==> Apart(s.work[m.w], s.work[w]);
    if m.OnCpu? && s.work[m.w].AllocProbe? && s.cache[m.cpu][s.work[m.w].i].Some? {
      SlotUnique(s, m.cpu, s.work[m.w].i);
    } else if m.OnCpu? && s.work[m.w].FreeProbe? {
      assert TaskInv(s, s.work[m.w].tsk);
    } else if m.Local? && (s.work[m.w].FreeVfree? || s.work[m.w].StructCopy?) {
      assert TaskInv(s, s.work[m.w].tsk);
    } else if m.Local? && s.work[m.w].Teardown? && s.work[m.w].i < NR_CACHED_STACKS {
      TeardownFindsLiveStack(s, m.w);
    }
  }

  lemma {:induction false} GotCarries(s: State, w: nat, t: Task, o: Task, x: Stack)
    requires Inv(s) && w < |s.work| && s.work[w] == AllocGot(t, o, x)
    ensures Carries(s, w, t, x)
  {
    assert WorkInv(s, w);
  }

  // As long as it works on t, it duplicates the same task.
  lemma {:induction false} DupGoesOn(s: State, m: Move, w: nat, t: Task, o: Task)
    requires Enabled(s, m) && w < |s.work| && WorksOn(s.work[w], t) && DupOf(s.work[w], o)
    requires StillBusy(Apply(s, m), w, t)
    ensures DupOf(Apply(s, m).work[w], o)
  {
  }

  lemma {:induction false} DupSoFar(ss: seq<State>, ms: seq<Move>, j: nat, k: nat, w: nat, t: Task, o: Task)
    requires IsRun(ss, ms) && j <= k < |ss| && w < |ss[j].work| && DupOf(ss[j].work[w], o)
    requires forall i :: j <= i <= k ==> StillBusy(ss[i], w, t)
    ensures w < |ss[k].work| && DupOf(ss[k].work[w], o)
    decreases k
  {
    if j < k {
      DupSoFar(ss, ms, j, k - 1, w, t, o);
      var m := ms[k - 1];
      assert ss[k] == Apply(ss[k - 1], m) && StillBusy(ss[k], w, t) && StillBusy(ss[k - 1], w, t);
      DupGoesOn(ss[k - 1], m, w, t, o);
    }
  }

  // From the step that gave context w a stack x for task t, for as long as it
  // works on t and has not handed the stack back, x stays t's.
  lemma {:induction false} CarriedSoFar(ss: seq<State>, ms: seq<Move>, j: nat, k: nat, w: nat, t: Task, o: Task,
                                        x: Stack)
    requires IsRun(ss, ms) && j <= k < |ss|
    requires w < |ss[j].work| && ss[j].work[w] == AllocGot(t, o, x)
    requires forall i :: j <= i <= k ==> StillBusy(ss[i], w, t)
    ensures Carries(ss[k], w, t, x)
    decreases k
  {
    if k == j {
      RunInv(ss, ms, j);
      GotCarries(ss[j], w, t, o, x);
    } else {
      CarriedSoFar(ss, ms, j, k - 1, w, t, o, x);
      RunInv(ss, ms, k - 1);
      var m := ms[k - 1];
      assert ss[k] == Apply(ss[k - 1], m) && StillBusy(ss[k], w, t);
      CarriesOn(ss[k - 1], m, w, t, x);
    }
  }

  // A dup_task_struct that fails after it got stack x, at whatever point, gives
  // back x and not its parent's stack, although the struct copy overwrote both
  // of the new task's pointers on the way.
  lemma {:induction false} FailedDupGivesBackItsOwnStack(
    ss: seq<State>, ms: seq<Move>, j: nat, k: nat, w: nat, t: Task, o: Task, x: Stack)
    requires IsRun(ss, ms) && j <= k < |ss|
    requires w < |ss[j].work| && ss[j].work[w] == AllocGot(t, o, x)
    requires forall i :: j <= i <= k ==> StillBusy(ss[i], w, t)
    requires w < |ss[k].work| && (ss[k].work[w].FreeProbe? || ss[k].work[w].FreeVfree?)
    ensures t in ss[k].tasks && ss[k].tasks[t].vm == Some(x)
    ensures ss[k].work[w].parent == Some(o) && o in ss[k].tasks && ss[k].tasks[o].vm.Some?
    ensures ss[k].tasks[o].vm != Some(x)
  {
    var s := ss[k];
    CarriedSoFar(ss, ms, j, k, w, t, o, x);
    DupSoFar(ss, ms, j, k, w, t, o);
    RunInv(ss, ms, k);
    assert WorkInv(s, w) && PlaceInv(s, x);
    assert DupOf(s.work[w], o);
    assert TaskInv(s, o) && TaskInv(s, t);
  }

  // While the pointers are clobbered, the new task's record names the parent's
  // stack: without the restore the free path would take that one.
  lemma {:induction false} CopyNamesTheParentsStack(ss: seq<State>, ms: seq<Move>, k: nat, w: nat)
    requires IsRun(ss, ms) && k < |ms| && ms[k].Local? && ms[k].w == w && w < |ss[k].work| && ss[k].work[w].StructCopy?
    ensures var q := ss[k].work[w];
      && q.tsk in ss[k + 1].tasks && q.orig in ss[k + 1].tasks
      && ss[k + 1].tasks[q.tsk].vm == ss[k + 1].tasks[q.orig].vm
      && ss[k + 1].work[w].Restore? && ss[k + 1].work[w].vm != ss[k + 1].tasks[q.tsk].vm
  {
    RunInv(ss, ms, k);
    var q := ss[k].work[w];
    assert WorkInv(ss[k], w) && DupOf(q, q.orig);
    assert TaskInv(ss[k], q.tsk) && TaskInv(ss[k], q.orig);
  }

  // ---------------------------------------------------------------- nothing gets stuck

  // In every state of every run, a context in the middle of something can take
  // its next step: what the step reads is there. (On which CPU it runs does not
  // matter, as long as there is one.)
  lemma {:induction false} ContextsCanStep(ss: seq<State>, ms: seq<Move>, k: nat, w: nat, cpu: Cpu, ok: bool)
    requires IsRun(ss, ms) && k < |ss| && w < |ss[k].work| && !ss[k].work[w].Idle? && cpu in ss[k].online
    ensures Enabled(ss[k], if ss[k].work[w].AllocProbe? || ss[k].work[w].FreeProbe? then OnCpu(w, cpu)
      else Local(w, ok))
  {
    RunInv(ss, ms, k);
    var s := ss[k];
    var q := s.work[w];
    assert WorkInv(s, w);
    if q.FreeProbe? || q.FreeVfree? { assert TaskInv(s, q.tsk); }
    if q.StructCopy? { assert DupOf(q, q.orig); }
  }
}
