// What holds in every state of the clone machine.

module CloneInv {
  import opened Wrappers
  import opened CloneModel

  // ---------------------------------------------------------------- who holds a reference

  datatype Holder = TaskHolder(t: nat) | CallHolder(w: nat)

  function Level(c: Call): nat
    requires c.Clone? || c.Unwind?
  {
    if c.Clone? then Rank(OnError(c.stage)) else Rank(c.label_)
  }

  // The stages in program order.
  function StageNo(stage: Stage): nat
  {
    match stage
    case AtSignals => 0
    case AtDup => 1
    case AtCreds => 2
    case AtLimits => 3
    case AtMempolicy => 4
    case AtSched => 5
    case AtPerf => 6
    case AtAudit => 7
    case AtSecurity => 8
    case AtSemundo => 9
    case AtFiles => 10
    case AtFs => 11
    case AtSighand => 12
    case AtSignal => 13
    case AtMm => 14
    case AtNamespaces => 15
    case AtIo => 16
    case AtThread => 17
    case AtPid => 18
    case AtFd => 19
    case AtPidfile => 20
    case AtPutUser => 21
    case AtKv => 22
    case AtCgroup => 23
    case AtPublish => 24
  }

  // Where a stage stands among the labels that drop references.
  lemma {:induction false} Levels(stage: Stage)
    ensures Rank(OnError(stage)) >= Rank(CleanupFiles) <==> StageNo(stage) > StageNo(AtFiles)
    ensures Rank(OnError(stage)) >= Rank(CleanupFs) <==> StageNo(stage) > StageNo(AtFs)
    ensures Rank(OnError(stage)) >= Rank(CleanupSighand) <==> StageNo(stage) > StageNo(AtSighand)
    ensures Rank(OnError(stage)) >= Rank(CleanupSignal) <==> StageNo(stage) > StageNo(AtSignal)
    ensures Rank(OnError(stage)) >= Rank(CleanupMm) <==> StageNo(stage) > StageNo(AtMm)
    ensures Rank(OnError(stage)) >= Rank(FreePid) <==> StageNo(stage) > StageNo(AtPid)
  {
    LowLevels(stage);
    HighLevels(stage);
  }

  lemma {:induction false} LowLevels(stage: Stage)
    ensures Rank(OnError(stage)) >= Rank(CleanupFiles) <==> StageNo(stage) > StageNo(AtFiles)
    ensures Rank(OnError(stage)) >= Rank(CleanupFs) <==> StageNo(stage) > StageNo(AtFs)
    ensures Rank(OnError(stage)) >= Rank(CleanupSighand) <==> StageNo(stage) > StageNo(AtSighand)
  {
  }

  lemma {:induction false} HighLevels(stage: Stage)
    ensures Rank(OnError(stage)) >= Rank(CleanupSignal) <==> StageNo(stage) > StageNo(AtSignal)
    ensures Rank(OnError(stage)) >= Rank(CleanupMm) <==> StageNo(stage) > StageNo(AtMm)
    ensures Rank(OnError(stage)) >= Rank(FreePid) <==> StageNo(stage) > StageNo(AtPid)
  {
  }

  lemma {:induction false} AfterNo(stage: Stage, pidfd: bool)
    requires stage != AtPublish
    ensures StageNo(After(stage, pidfd)) > StageNo(stage)
    ensures stage != AtPid ==> StageNo(After(stage, pidfd)) == StageNo(stage) + 1
  {
  }

  lemma {:induction false} SameNo(a: Stage, b: Stage)
    requires StageNo(a) == StageNo(b)
    ensures a == b
  {
  }

  // A half-built task counts from the stage that took the reference to the
  // label that drops it; a thread takes no reference to its signal_struct
  // before it is visible.
  predicate HoldsAt(b: Build, level: nat, o: Obj)
  {
    match o.kind
    case FsKind => level >= Rank(CleanupFs) && b.p.fs == o.id
    case FilesKind => level >= Rank(CleanupFiles) && b.p.files == Some(o.id)
    case SighandKind => level >= Rank(CleanupSighand) && b.p.sighand == o.id
    case SignalKind => level >= Rank(CleanupSignal) && !b.flags.thread && b.p.signal == o.id
    case MmKind => level >= Rank(CleanupMm) && b.p.mm == Some(o.id)
  }

  predicate Holds(c: Call, o: Obj)
  {
    match c
    case Clone(b, _, _) => HoldsAt(b, Level(c), o)
    case Unwind(b, _, _, _) => HoldsAt(b, Level(c), o)
    case Unshare(_, _, _, newFs, newFiles, swapped) =>
      || (o.kind == FsKind && newFs == Some(o.id) && !swapped)
      || (o.kind == FilesKind && newFiles == Some(o.id))
    case _ => false
  }

  // The fs_struct that unshare took the last reference from and is about to free.
  predicate Dooms(c: Call, o: Obj)
  {
    c.Unshare? && c.swapped && o.kind == FsKind && c.newFs == Some(o.id)
  }

  // Made by this call and not yet seen by anybody else.
  predicate PrivateTo(c: Call, o: Obj)
  {
    && Holds(c, o)
    && (|| o.kind == SignalKind
        || (o.kind == FsKind && c.Unshare?)
        || (o.kind == FilesKind && c.Unshare? && BeforeSwap(c.at)))
  }

  // new_fd is still the copy and not yet the table it replaced.
  predicate BeforeSwap(at: UnshareStep)
  {
    at == UNamespaces || at == USwapFs || at == USwapFiles
  }

  ghost function Holders(s: State, o: Obj): set<Holder>
  {
    (set t | t in s.tasks && Points(s.tasks[t], o) :: TaskHolder(t))
    + (set w | 0 <= w < |s.calls| && Holds(s.calls[w], o) :: CallHolder(w))
  }

  ghost predicate Doomed(s: State, o: Obj)
  {
    exists w :: 0 <= w < |s.calls| && Dooms(s.calls[w], o)
  }

  // ---------------------------------------------------------------- the invariant

  // The count of a live object is the number of its holders.
  ghost predicate CountOk(s: State, o: Obj)
  {
    && (o in s.counts <==> Holders(s, o) != {} || Doomed(s, o))
    && (o in s.counts ==> s.counts[o] == |Holders(s, o)|)
    && (Doomed(s, o) ==> Holders(s, o) == {})
  }

  ghost predicate SignalOk(s: State, x: nat)
  {
    && (x in s.live <==> Obj(SignalKind, x) in s.counts)
    && (x in s.sigcnt <==> Obj(SignalKind, x) in s.counts)
    && (Obj(SignalKind, x) in s.counts ==> s.live[x] == s.sigcnt[x] == s.counts[Obj(SignalKind, x)])
  }

  ghost predicate CountInv(s: State)
  {
    && (forall o :: CountOk(s, o))
    && (forall x :: SignalOk(s, x))
    && (forall w, o :: 0 <= w < |s.calls| && PrivateTo(s.calls[w], o) ==> Holders(s, o) == {CallHolder(w)})
    && (forall w, u, o :: 0 <= w < |s.calls| && 0 <= u < |s.calls| && Dooms(s.calls[w], o) && Dooms(s.calls[u], o) ==>
          w == u)
  }

  // What running the labels from l down releases, in the order it was acquired.
  function Owed(l: Label, b: Build): seq<Resource>
    decreases Rank(l), b
  {
    (if l == ForkOut then [] else Owed(Below(l), b)) + Reverse(Releases(l, b))
  }

  // The log of a clone is what its labels would release from here, and, on the
  // way down, what they released already.
  predicate LogOk(c: Call)
  {
    match c
    case Clone(b, stage, got) => got == Owed(OnError(stage), b)
    case Unwind(b, l, got, gone) => got == Owed(l, b) + Reverse(gone)
    case Failed(got, gone) => got == Reverse(gone)
    case _ => true
  }

  // The half-built task against the task that is cloning itself.
  predicate BuildOk(s: State, b: Build, level: nat)
  {
    && b.cur in s.tasks
    && (b.flags.thread ==> b.flags.sighand && b.flags.vm && !b.flags.pidfd)
    && var me := s.tasks[b.cur];
    && (b.flags.thread ==> b.p.signal == me.signal)
    && (b.flags.sighand ==> b.p.sighand == me.sighand)
    && (b.flags.vm ==> b.p.mm == me.mm)
    && (level >= Rank(FreePid) ==> b.nr in s.pids && b.nr !in s.tasks)
  }

  predicate CallOk(s: State, c: Call)
  {
    match c
    case Clone(b, stage, _) =>
      && BuildOk(s, b, Level(c))
      && (Level(c) <= Rank(CleanupSemundo) ==> b.p.files == s.tasks[b.cur].files)
      && ((stage == AtFd || stage == AtPidfile || stage == AtPutUser) ==> b.flags.pidfd)
      && (stage != AtCgroup && stage != AtPublish ==> b.p.kvLocks == s.tasks[b.cur].kvLocks)
      && ((stage == AtCgroup || stage == AtPublish) ==> Ready(s, b))
    case Unwind(b, l, _, _) => BuildOk(s, b, Level(c)) && (l == DropFd ==> b.flags.pidfd)
    case Unshare(cur, _, at, newFs, newFiles, swapped) =>
      && cur in s.tasks
      && (at == UFs ==> newFs.None?) && (at == UFs || at == UFd ==> newFiles.None?)
      && (at == UFs || at == UFd || at == UNamespaces || at == USwapFs ==> !swapped)
      && (at == UFreeFs ==> newFiles.None?)
    case _ => true
  }

  // Past the kv arrays: pid, tgid and arrays are set.
  predicate Ready(s: State, b: Build)
    requires b.cur in s.tasks
  {
    var me := s.tasks[b.cur];
    if b.flags.thread then
      b.p.tgid == me.tgid && b.p.kvStore == me.kvStore && b.p.kvLocks == me.kvLocks && b.p.kvOk == me.kvOk
    else
      b.p.tgid == b.nr && (b.p.kvOk || b.p.kvLocks.None? || (b.p.kvStore.None? && b.p.kvLocks == me.kvLocks))
  }

  predicate OwnsNr(c: Call, nr: nat)
  {
    (c.Clone? || c.Unwind?) && Level(c) >= Rank(FreePid) && c.b.nr == nr
  }

  ghost predicate CallInv(s: State)
  {
    && (forall w :: 0 <= w < |s.calls| ==> LogOk(s.calls[w]) && CallOk(s, s.calls[w]))
    && (forall w, u, t :: 0 <= w < |s.calls| && 0 <= u < |s.calls| && Busy(s.calls[w], t) && Busy(s.calls[u], t) ==>
          w == u)
    && (forall w, u, n :: 0 <= w < |s.calls| && 0 <= u < |s.calls| && OwnsNr(s.calls[w], n) && OwnsNr(s.calls[u], n) ==>
          w == u)
  }

  // Pids in use are those of tasks and of half-built tasks.
  ghost predicate PidInv(s: State)
  {
    && (forall t {:trigger s.tasks[t]} {:trigger t in s.pids} :: t in s.tasks ==>
          t in s.pids && s.tasks[t].tgid in s.tasks)
    && (forall n :: n in s.pids ==> n in s.tasks || exists w :: 0 <= w < |s.calls| && OwnsNr(s.calls[w], n))
  }

  // One thread group, one signal_struct, and everything else a group shares.
  ghost predicate GroupInv(s: State)
  {
    forall t, u {:trigger SameGroup(s.tasks[t], s.tasks[u])} :: t in s.tasks && u in s.tasks ==>
        SameGroup(s.tasks[t], s.tasks[u])
  }

  predicate SameGroup(t: Task, u: Task)
  {
    && (t.tgid == u.tgid <==> t.signal == u.signal)
    && (t.tgid == u.tgid ==>
          && t.sighand == u.sighand && t.mm == u.mm
          && t.kvStore == u.kvStore && t.kvLocks == u.kvLocks && t.kvOk == u.kvOk)
  }

  // ---------------------------------------------------------------- sizes

  lemma {:induction false} SizeAdd(a: set<Holder>, h: Holder)
    ensures |a + {h}| == |a| + if h in a then 0 else 1
  {
    if h in a { assert a + {h} == a; }
  }

  lemma {:induction false} SizeRemove(a: set<Holder>, h: Holder)
    ensures |a - {h}| == |a| - if h in a then 1 else 0
  {
    if h in a { assert a == (a - {h}) + {h}; } else { assert a - {h} == a; }
  }

  lemma {:induction false} NotEmpty(a: set<Holder>, h: Holder)
    requires h in a
    ensures |a| >= 1 && a != {}
    ensures |a| == 1 <==> a == {h}
  {
    SizeRemove(a, h);
    if |a| == 1 { assert a - {h} == {}; assert a == {h}; }
  }

  predicate OnlyCall(s: State, s': State, w: nat)
  {
    w < |s.calls| == |s'.calls| && s'.tasks == s.tasks && s'.calls == s.calls[w := s'.calls[w]]
  }

  // Only call w changes: the holders differ at most in it.
  lemma {:induction false} HoldersOfCall(s: State, s': State, w: nat, o: Obj)
    requires OnlyCall(s, s', w)
    ensures Holders(s', o) == (Holders(s, o) - {CallHolder(w)}) + (if Holds(s'.calls[w], o) then {CallHolder(w)}
      else {})
    ensures CallHolder(w) in Holders(s, o) <==> Holds(s.calls[w], o)
  {
  }
}
