// clone and unshare as steps of any number of concurrent calls: the stages of
// copy_process with their error labels, the copy_* helpers with their reference
// counts, and ksys_unshare. Allocators and hooks outside the file succeed or
// fail at every stage where the code checks them.

module CloneModel {
  import opened Wrappers

  // ---------------------------------------------------------------- tasks and shared objects

  // Reference-counted objects: fs->users, files->count, sighand->count,
  // signal->nr_threads (with live and sigcnt beside it) and mm_users.
  datatype Kind = FsKind | FilesKind | SighandKind | SignalKind | MmKind
  datatype Obj = Obj(kind: Kind, id: nat)

  // `kvOk` is a history variable: both arrays of this task's group were allocated.
  datatype Task = Task(
    fs: nat, files: Option<nat>, sighand: nat, signal: nat, mm: Option<nat>,
    kvStore: Option<nat>, kvLocks: Option<nat>, kvOk: bool, tgid: nat)

  predicate Points(t: Task, o: Obj)
  {
    match o.kind
    case FsKind => t.fs == o.id
    case FilesKind => t.files == Some(o.id)
    case SighandKind => t.sighand == o.id
    case SignalKind => t.signal == o.id
    case MmKind => t.mm == Some(o.id)
  }

  datatype Flags = Flags(
    vm: bool, fs: bool, files: bool, sighand: bool, thread: bool, parent: bool, pidfd: bool, detached: bool,
    sysvsem: bool, io: bool, newns: bool, newuser: bool, newpid: bool)

  // What the argument checks read of the caller beside the flags.
  datatype Caller = Caller(unkillable: bool, otherPidNs: bool, otherTimeNs: bool)

  // The argument checks of copy_process: -EINVAL before anything is touched.
  predicate Rejected(f: Flags, e: Caller)
  {
    || (f.newns && f.fs)
    || (f.newuser && f.fs)
    || (f.thread && !f.sighand)
    || (f.sighand && !f.vm)
    || (f.parent && e.unkillable)
    || (f.thread && (f.newuser || f.newpid || e.otherPidNs))
    || ((f.thread || f.vm) && e.otherTimeNs)
    || (f.pidfd && (f.detached || f.thread))
  }

  // ---------------------------------------------------------------- the ladder

  // The places in copy_process where something is acquired or can fail.
  datatype Stage =
    | AtSignals | AtDup | AtCreds | AtLimits | AtMempolicy | AtSched | AtPerf | AtAudit | AtSecurity | AtSemundo
    | AtFiles | AtFs | AtSighand | AtSignal | AtMm | AtNamespaces | AtIo | AtThread | AtPid
    | AtFd | AtPidfile | AtPutUser | AtKv | AtCgroup | AtPublish

  // The error labels, lowest first. DropFd is the put_unused_fd before the jump
  // to bad_fork_free_pid.
  datatype Label =
    | ForkOut | BadFree | CleanupCount | CleanupThreadgroupLock | CleanupPolicy | CleanupPerf | CleanupAudit
    | CleanupSecurity | CleanupSemundo | CleanupFiles | CleanupFs | CleanupSighand | CleanupSignal | CleanupMm
    | CleanupNamespaces | CleanupIo | CleanupThread | FreePid | DropFd | PutPidfd | CancelCgroup

  datatype Resource =
    | Node | TaskStruct | Stack | Creds | ProcCount | DelayAcct | Mempolicy | Lockdep | Perf | Audit | Security
    | SemUndo | Ref(o: Obj) | Namespaces | IoContext | Thread | Pid(nr: nat) | Fd | PidFile | Cgroup | SchedCore

  // Where each stage jumps when it fails.
  function OnError(stage: Stage): Label
  {
    match stage
    case AtSignals => ForkOut
    case AtDup => ForkOut
    case AtCreds => BadFree
    case AtLimits => CleanupCount
    case AtMempolicy => CleanupThreadgroupLock
    case AtSched => CleanupPolicy
    case AtPerf => CleanupPolicy
    case AtAudit => CleanupPerf
    case AtSecurity => CleanupAudit
    case AtSemundo => CleanupSecurity
    case AtFiles => CleanupSemundo
    case AtFs => CleanupFiles
    case AtSighand => CleanupFs
    case AtSignal => CleanupSighand
    case AtMm => CleanupSignal
    case AtNamespaces => CleanupMm
    case AtIo => CleanupNamespaces
    case AtThread => CleanupIo
    case AtPid => CleanupThread
    case AtFd => FreePid
    case AtPidfile => DropFd
    case AtPutUser => PutPidfd
    case AtKv => PutPidfd          // the result of init_task_kv_store is ignored
    case AtCgroup => PutPidfd
    case AtPublish => CancelCgroup
  }

  function Rank(l: Label): nat
  {
    match l
    case ForkOut => 0
    case BadFree => 1
    case CleanupCount => 2
    case CleanupThreadgroupLock => 3
    case CleanupPolicy => 4
    case CleanupPerf => 5
    case CleanupAudit => 6
    case CleanupSecurity => 7
    case CleanupSemundo => 8
    case CleanupFiles => 9
    case CleanupFs => 10
    case CleanupSighand => 11
    case CleanupSignal => 12
    case CleanupMm => 13
    case CleanupNamespaces => 14
    case CleanupIo => 15
    case CleanupThread => 16
    case FreePid => 17
    case DropFd => 18
    case PutPidfd => 19
    case CancelCgroup => 20
  }

  // The label a label falls through to.
  function Below(l: Label): Label
    requires l != ForkOut
    ensures Rank(Below(l)) < Rank(l)
  {
    match l
    case BadFree => ForkOut
    case CleanupCount => BadFree
    case CleanupThreadgroupLock => CleanupCount
    case CleanupPolicy => CleanupThreadgroupLock
    case CleanupPerf => CleanupPolicy
    case CleanupAudit => CleanupPerf
    case CleanupSecurity => CleanupAudit
    case CleanupSemundo => CleanupSecurity
    case CleanupFiles => CleanupSemundo
    case CleanupFs => CleanupFiles
    case CleanupSighand => CleanupFs
    case CleanupSignal => CleanupSighand
    case CleanupMm => CleanupSignal
    case CleanupNamespaces => CleanupMm
    case CleanupIo => CleanupNamespaces
    case CleanupThread => CleanupIo
    case FreePid => CleanupThread
    case DropFd => FreePid
    case PutPidfd => FreePid
    case CancelCgroup => PutPidfd
  }

  // The task being built: p, with its io_context and undo-list pointers and the pid.
  datatype Build = Build(cur: nat, flags: Flags, p: Task, io: bool, undo: bool, nr: nat)

  // What the code between a label and the next releases, in program order,
  // under the tests written there.
  function Releases(l: Label, b: Build): seq<Resource>
  {
    match l
    case ForkOut => if b.flags.thread then [] else [Node]
    case BadFree => [Stack, TaskStruct]
    case CleanupCount => [ProcCount, Creds]
    case CleanupThreadgroupLock => [DelayAcct]
    case CleanupPolicy => [Lockdep, Mempolicy]
    case CleanupPerf => [Perf]
    case CleanupAudit => [Audit]
    case CleanupSecurity => [Security]
    case CleanupSemundo => if b.undo then [SemUndo] else []
    case CleanupFiles => if b.p.files.Some? then [Ref(Obj(FilesKind, b.p.files.value))] else []
    case CleanupFs => [Ref(Obj(FsKind, b.p.fs))]
    case CleanupSighand => [Ref(Obj(SighandKind, b.p.sighand))]
    case CleanupSignal => if b.flags.thread then [] else [Ref(Obj(SignalKind, b.p.signal))]
    case CleanupMm => if b.p.mm.Some? then [Ref(Obj(MmKind, b.p.mm.value))] else []
    case CleanupNamespaces => [Namespaces]
    case CleanupIo => if b.io then [IoContext] else []
    case CleanupThread => [Thread]
    case FreePid => [Pid(b.nr)]
    case DropFd => [Fd]
    case PutPidfd => if b.flags.pidfd then [PidFile, Fd] else []
    case CancelCgroup => [SchedCore, Cgroup]
  }

  function Reverse<T>(s: seq<T>): seq<T>
  {
    if s == [] then [] else Reverse(s[1..]) + [s[0]]
  }

  // ---------------------------------------------------------------- calls and the world

  datatype UnshareStep = UFs | UFd | UNamespaces | USwapFs | USwapFiles | UPutFiles | UFreeFs

  // One kernel context. `got` and `gone` are the log of a clone: what it
  // acquired and what it released, in order. Failed keeps the log of a clone
  // that returned an error.
  datatype Call =
    | Idle
    | Failed(got: seq<Resource>, gone: seq<Resource>)
    | Clone(b: Build, stage: Stage, got: seq<Resource>)
    | Unwind(b: Build, label_: Label, got: seq<Resource>, gone: seq<Resource>)
    | Unshare(cur: nat, flags: Flags, at: UnshareStep, newFs: Option<nat>, newFiles: Option<nat>, swapped: bool)

  predicate AtRest(c: Call)
  {
    c.Idle? || c.Failed?
  }

  // `counts` has the live objects; `kvLive` the allocated kv arrays; `leaked` is
  // a history variable. Tasks are named by their pids.
  datatype State = State(
    tasks: map<nat, Task>, calls: seq<Call>, counts: map<Obj, nat>, live: map<nat, nat>, sigcnt: map<nat, nat>,
    delayed: map<nat, seq<nat>>, pids: set<nat>, kvLive: set<nat>, leaked: set<nat>)

  // The two allocations of init_task_kv_store.
  datatype KvResult = BothOk(store: nat, locks: nat) | StoreFails | LocksFail(store: nat)

  datatype Move =
    | StartClone(w: nat, cur: nat, flags: Flags, caller: Caller)
    | Step(w: nat, ok: bool, id: nat, kv: KvResult)   // next stage of a clone: its outcome and a fresh name
    | Fall(w: nat)                                     // next label of a failing clone
    | StartUnshare(w: nat, cur: nat, flags: Flags)
    | UStep(w: nat, ok: bool, id: nat)

  function NodesOf(s: State, sig: nat): seq<nat>
  {
    if sig in s.delayed then s.delayed[sig] else []
  }

  function Without(q: seq<nat>, w: nat): seq<nat>
  {
    if q == [] then [] else (if q[0] == w then [] else [q[0]]) + Without(q[1..], w)
  }

  predicate Busy(c: Call, t: nat)
  {
    || ((c.Clone? || c.Unwind?) && c.b.cur == t)
    || (c.Unshare? && c.cur == t)
  }

  // Sharing an object, or having none, never fails; copy_fs fails while an exec
  // is going on.
  predicate CanFail(stage: Stage, f: Flags, me: Task)
  {
    match stage
    case AtSemundo => f.sysvsem
    case AtFiles => me.files.Some? && !f.files
    case AtSighand => !f.sighand
    case AtSignal => !f.thread
    case AtMm => me.mm.Some? && !f.vm
    case AtKv => false
    case _ => true
  }

  predicate Enabled(s: State, m: Move)
  {
    m.w < |s.calls|
    && var c := s.calls[m.w];
    match m
    case StartClone(_, cur, f, e) =>
      AtRest(c) && cur in s.tasks && !Rejected(f, e) && forall u :: 0 <= u < |s.calls| ==> !Busy(s.calls[u], cur)
    case Step(_, ok, id, kv) =>
      && c.Clone? && c.b.cur in s.tasks
      && (ok || CanFail(c.stage, c.b.flags, s.tasks[c.b.cur]))
      && (c.stage == AtPid ==> id !in s.pids)
      && (c.stage == AtFiles ==> Obj(FilesKind, id) !in s.counts)
      && (c.stage == AtFs ==> Obj(FsKind, id) !in s.counts)
      && (c.stage == AtSighand ==> Obj(SighandKind, id) !in s.counts)
      && (c.stage == AtSignal ==> Obj(SignalKind, id) !in s.counts)
      && (c.stage == AtMm ==> Obj(MmKind, id) !in s.counts)
      && (c.stage == AtKv ==>
            && (!kv.StoreFails? ==> kv.store !in s.kvLive)
            && (kv.BothOk? ==> kv.locks !in s.kvLive && kv.locks != kv.store))
    case Fall(_) => c.Unwind? && c.b.cur in s.tasks
    case StartUnshare(_, cur, f) =>
      AtRest(c) && cur in s.tasks && forall u :: 0 <= u < |s.calls| ==> !Busy(s.calls[u], cur)
    case UStep(_, _, id) =>
      && c.Unshare? && c.cur in s.tasks
      && (c.at == UFs ==> Obj(FsKind, id) !in s.counts)
      && (c.at == UFd ==> Obj(FilesKind, id) !in s.counts)
  }

  function SetCall(s: State, w: nat, c: Call): State
    requires w < |s.calls|
  {
    s.(calls := s.calls[w := c])
  }

  type Counts = map<Obj, nat>

  function Count(s: State, o: Obj): nat
  {
    CountIn(s.counts, o)
  }

  function CountIn(m: Counts, o: Obj): nat
  {
    if o in m then m[o] else 0
  }

  function Get(m: Counts, o: Obj): Counts
  {
    m[o := CountIn(m, o) + 1]
  }

  // Drop one reference; the last one frees the object.
  function Put(m: Counts, o: Obj): Counts
  {
    if CountIn(m, o) > 1 then m[o := CountIn(m, o) - 1] else m - {o}
  }

  // ---------------------------------------------------------------- copy_process, one stage

  // A stage that went well: the build after it, the next stage, what it acquired.
  datatype Outcome = Outcome(b: Build, next: Stage, more: seq<Resource>)

  function Advance(b: Build, stage: Stage, me: Task, id: nat, kv: KvResult): Outcome
    requires stage != AtPublish
  {
    Outcome(BuildAfter(b, stage, me, id, kv), After(stage, b.flags.pidfd), Acquires(b, stage, me, id))
  }

  // The pidfd stages are passed only with CLONE_PIDFD.
  function After(stage: Stage, pidfd: bool): Stage
    requires stage != AtPublish
  {
    match stage
    case AtSignals => AtDup
    case AtDup => AtCreds
    case AtCreds => AtLimits
    case AtLimits => AtMempolicy
    case AtMempolicy => AtSched
    case AtSched => AtPerf
    case AtPerf => AtAudit
    case AtAudit => AtSecurity
    case AtSecurity => AtSemundo
    case AtSemundo => AtFiles
    case AtFiles => AtFs
    case AtFs => AtSighand
    case AtSighand => AtSignal
    case AtSignal => AtMm
    case AtMm => AtNamespaces
    case AtNamespaces => AtIo
    case AtIo => AtThread
    case AtThread => AtPid
    case AtPid => if pidfd then AtFd else AtKv
    case AtFd => AtPidfile
    case AtPidfile => AtPutUser
    case AtPutUser => AtKv
    case AtKv => AtCgroup
    case AtCgroup => AtPublish
  }

  // The maker's object, or a new one named id.
  function Choose(share: bool, mine: nat, id: nat): nat
  {
    if share then mine else id
  }

  function BuildAfter(b: Build, stage: Stage, me: Task, id: nat, kv: KvResult): Build
  {
    var p := b.p;
    var f := b.flags;
    match stage
    case AtDup => b.(p := me)
    case AtLimits => b.(io := false)
    case AtSemundo => b.(undo := f.sysvsem)
    case AtFiles => if me.files.None? then b else b.(p := p.(files := Some(Choose(f.files, me.files.value, id))))
    case AtFs => b.(p := p.(fs := Choose(f.fs, me.fs, id)))
    case AtSighand => b.(p := p.(sighand := Choose(f.sighand, me.sighand, id)))
    case AtSignal => if f.thread then b else b.(p := p.(signal := id))
    case AtMm => b.(p := p.(mm := if me.mm.None? then None else Some(Choose(f.vm, me.mm.value, id))))
    // id tells whether copy_io had an io_context to link or to make
    case AtIo => b.(io := id != 0)
    case AtPid => b.(nr := id)
    case AtKv => b.(p := InitKv(p, me, f.thread, kv).(tgid := if f.thread then me.tgid else b.nr))
    case _ => b
  }

  function Acquires(b: Build, stage: Stage, me: Task, id: nat): seq<Resource>
  {
    var f := b.flags;
    match stage
    case AtDup => [TaskStruct, Stack]
    case AtCreds => [Creds, ProcCount]
    case AtLimits => [DelayAcct]
    case AtMempolicy => [Mempolicy, Lockdep]
    case AtPerf => [Perf]
    case AtAudit => [Audit]
    case AtSecurity => [Security]
    case AtSemundo => if f.sysvsem then [SemUndo] else []
    case AtFiles => if me.files.None? then [] else [Ref(Obj(FilesKind, Choose(f.files, me.files.value, id)))]
    case AtFs => [Ref(Obj(FsKind, Choose(f.fs, me.fs, id)))]
    case AtSighand => [Ref(Obj(SighandKind, Choose(f.sighand, me.sighand, id)))]
    case AtSignal => if f.thread then [] else [Ref(Obj(SignalKind, id))]
    case AtMm => if me.mm.None? then [] else [Ref(Obj(MmKind, Choose(f.vm, me.mm.value, id)))]
    case AtNamespaces => [Namespaces]
    case AtIo => if id != 0 then [IoContext] else []
    case AtThread => [Thread]
    case AtPid => [Pid(id)]
    case AtFd => [Fd]
    case AtPidfile => [PidFile]
    case AtCgroup => [Cgroup, SchedCore]
    case _ => []
  }

  // copy_files, copy_fs, copy_sighand and copy_mm: share the caller's object or make a new one.
  function ShareOrCopy(m: Counts, kind: Kind, share: bool, mine: nat, id: nat): Counts
  {
    if share then Get(m, Obj(kind, mine)) else m[Obj(kind, id) := 1]
  }

  function StageCounts(m: Counts, f: Flags, stage: Stage, me: Task, id: nat): Counts
  {
    match stage
    case AtFiles => if me.files.None? then m else ShareOrCopy(m, FilesKind, f.files, me.files.value, id)
    case AtFs => ShareOrCopy(m, FsKind, f.fs, me.fs, id)
    case AtSighand => ShareOrCopy(m, SighandKind, f.sighand, me.sighand, id)
    case AtSignal => if f.thread then m else m[Obj(SignalKind, id) := 1]
    case AtMm => if me.mm.None? then m else ShareOrCopy(m, MmKind, f.vm, me.mm.value, id)
    case _ => m
  }

  // What a stage does outside the task being built. A new signal_struct has
  // nr_threads, live and sigcnt 1 and nothing delayed.
  function Effect(s: State, f: Flags, stage: Stage, me: Task, id: nat, kv: KvResult): State
  {
    var newSignal := stage == AtSignal && !f.thread;
    s.(counts := StageCounts(s.counts, f, stage, me, id),
       live := if newSignal then s.live[id := 1] else s.live,
       sigcnt := if newSignal then s.sigcnt[id := 1] else s.sigcnt,
       delayed := if newSignal then s.delayed[id := []] else s.delayed,
       pids := if stage == AtPid then s.pids + {id} else s.pids,
       kvLive := if stage == AtKv then s.kvLive + KvArrays(f.thread, kv) else s.kvLive)
  }

  function StepOk(s: State, w: nat, id: nat, kv: KvResult): State
    requires Enabled(s, Step(w, true, id, kv))
  {
    var c := s.calls[w];
    if c.stage == AtPublish then Publish(s, w)
    else
      var me := s.tasks[c.b.cur];
      var r := Advance(c.b, c.stage, me, id, kv);
      SetCall(Effect(s, c.b.flags, c.stage, me, id, kv), w, Clone(r.b, r.next, c.got + r.more))
  }

  // The kv part of copy_process: a thread shares the caller's arrays; otherwise
  // init_task_kv_store runs and its result is ignored.
  function InitKv(p: Task, me: Task, thread: bool, kv: KvResult): Task
  {
    if thread then p.(kvStore := me.kvStore, kvLocks := me.kvLocks, kvOk := me.kvOk)
    else
      match kv
      case BothOk(store, locks) => p.(kvStore := Some(store), kvLocks := Some(locks), kvOk := true)
      // kv_locks is still the caller's
      case StoreFails => p.(kvStore := None, kvOk := false)
      // kv_store is freed
      case LocksFail(store) => p.(kvStore := Some(store), kvLocks := None, kvOk := false)
  }

  // The arrays that stay allocated.
  function KvArrays(thread: bool, kv: KvResult): set<nat>
  {
    if !thread && kv.BothOk? then {kv.store, kv.locks} else {}
  }

  function OwnArrays(b: Build): set<nat>
  {
    if !b.flags.thread && b.p.kvOk && b.p.kvStore.Some? && b.p.kvLocks.Some?
    then {b.p.kvStore.value, b.p.kvLocks.value} else {}
  }

  function AddOne(m: map<nat, nat>, x: nat): map<nat, nat>
  {
    m[x := (if x in m then m[x] else 0) + 1]
  }

  // The new task becomes visible under tasklist_lock; a thread joins its group.
  function Publish(s: State, w: nat): State
    requires w < |s.calls| && s.calls[w].Clone? && s.calls[w].b.cur in s.tasks
  {
    var b := s.calls[w].b;
    var sig := s.tasks[b.cur].signal;
    s.(tasks := s.tasks[b.nr := b.p],
       counts := if b.flags.thread then Get(s.counts, Obj(SignalKind, sig)) else s.counts,
       live := if b.flags.thread then AddOne(s.live, sig) else s.live,
       sigcnt := if b.flags.thread then AddOne(s.sigcnt, sig) else s.sigcnt,
       delayed := s.delayed[sig := Without(NodesOf(s, sig), w)],
       calls := s.calls[w := Idle])
  }

  // The stage failed: jump to its label. Arrays already made are not released by any label.
  function StepFails(s: State, w: nat): State
    requires w < |s.calls| && s.calls[w].Clone?
  {
    var c := s.calls[w];
    var s1 := if c.stage == AtCgroup || c.stage == AtPublish then s.(leaked := s.leaked + OwnArrays(c.b)) else s;
    SetCall(s1, w, Unwind(c.b, OnError(c.stage), c.got, []))
  }

  // ---------------------------------------------------------------- the labels

  function LabelCounts(m: Counts, l: Label, b: Build): Counts
  {
    match l
    case CleanupFiles => if b.p.files.Some? then Put(m, Obj(FilesKind, b.p.files.value)) else m
    case CleanupFs => Put(m, Obj(FsKind, b.p.fs))
    case CleanupSighand => Put(m, Obj(SighandKind, b.p.sighand))
    case CleanupSignal => if b.flags.thread then m else m - {Obj(SignalKind, b.p.signal)}   // free_signal_struct
    case CleanupMm => if b.p.mm.Some? then Put(m, Obj(MmKind, b.p.mm.value)) else m
    case _ => m
  }

  function ReleaseEffect(s: State, w: nat, l: Label, b: Build): State
    requires b.cur in s.tasks
  {
    var freeSignal := l == CleanupSignal && !b.flags.thread;
    var sig := s.tasks[b.cur].signal;
    s.(counts := LabelCounts(s.counts, l, b),
       live := if freeSignal then s.live - {b.p.signal} else s.live,
       sigcnt := if freeSignal then s.sigcnt - {b.p.signal} else s.sigcnt,
       // hlist_del_init: nothing if the node was not added
       delayed := if l == ForkOut then s.delayed[sig := Without(NodesOf(s, sig), w)] else s.delayed,
       pids := if l == FreePid then s.pids - {b.nr} else s.pids)
  }

  function FallThrough(s: State, w: nat): State
    requires Enabled(s, Fall(w))
  {
    var c := s.calls[w];
    var gone := c.gone + Releases(c.label_, c.b);
    SetCall(ReleaseEffect(s, w, c.label_, c.b), w,
            if c.label_ == ForkOut then Failed(c.got, gone) else Unwind(c.b, Below(c.label_), c.got, gone))
  }

  // ---------------------------------------------------------------- ksys_unshare

  // The flags ksys_unshare adds, in its order: new user namespace, vm, signal
  // handlers, mount namespace.
  function Widen(f: Flags): Flags
  {
    var (thread1, fs1) := (f.thread || f.newuser, f.fs || f.newuser);
    var sighand2 := f.sighand || f.vm;
    var thread3 := thread1 || sighand2;
    var fs4 := fs1 || f.newns;
    f.(thread := thread3, sighand := sighand2, fs := fs4)
  }

  // users after current lets go of its fs_struct
  function FsLeft(s: State, me: Task): nat
  {
    var n := Count(s, Obj(FsKind, me.fs));
    if n > 0 then n - 1 else 0
  }

  // The call after its next step.
  function UnshareNext(s: State, c: Call, ok: bool, id: nat): Call
    requires c.Unshare? && c.cur in s.tasks
  {
    var me := s.tasks[c.cur];
    match c.at
    case UFs =>
      if !c.flags.fs || Count(s, Obj(FsKind, me.fs)) == 1 then c.(at := UFd)
      else if ok then c.(at := UFd, newFs := Some(id))
      else Idle
    case UFd =>
      if !c.flags.files || me.files.None? || Count(s, Obj(FilesKind, me.files.value)) <= 1 then c.(at := UNamespaces)
      else if ok then c.(at := UNamespaces, newFiles := Some(id))
      else c.(at := UFreeFs)
    // unshare_userns, unshare_nsproxy_namespaces, set_cred_ucounts
    case UNamespaces => c.(at := if ok then USwapFs else UPutFiles)
    // the old fs_struct is kept for freeing when its count reached zero
    case USwapFs =>
      if c.newFs.None? then c.(at := USwapFiles)
      else c.(at := USwapFiles, newFs := if FsLeft(s, me) == 0 then Some(me.fs) else None, swapped := true)
    case USwapFiles =>
      if c.newFiles.None? then c.(at := UPutFiles) else c.(at := UPutFiles, newFiles := me.files)
    case UPutFiles => c.(at := UFreeFs, newFiles := None)
    case UFreeFs => Idle
  }

  function UnshareCounts(s: State, c: Call, ok: bool, id: nat): Counts
    requires c.Unshare? && c.cur in s.tasks
  {
    var me := s.tasks[c.cur];
    match c.at
    case UFs =>
      if !c.flags.fs || Count(s, Obj(FsKind, me.fs)) == 1 || !ok then s.counts else s.counts[Obj(FsKind, id) := 1]
    case UFd =>
      if !c.flags.files || me.files.None? || Count(s, Obj(FilesKind, me.files.value)) <= 1 || !ok then s.counts
      else s.counts[Obj(FilesKind, id) := 1]
    case UNamespaces => s.counts
    case USwapFs => if c.newFs.None? then s.counts else s.counts[Obj(FsKind, me.fs) := FsLeft(s, me)]
    case USwapFiles => s.counts
    case UPutFiles => if c.newFiles.Some? then Put(s.counts, Obj(FilesKind, c.newFiles.value)) else s.counts
    case UFreeFs => if c.newFs.Some? then s.counts - {Obj(FsKind, c.newFs.value)} else s.counts
  }

  // current->fs = new_fs and current->files = new_fd
  function UnshareTask(me: Task, c: Call): Task
    requires c.Unshare?
  {
    if c.at == USwapFs && c.newFs.Some? then me.(fs := c.newFs.value)
    else if c.at == USwapFiles && c.newFiles.Some? then me.(files := c.newFiles)
    else me
  }

  function UnshareStepOf(s: State, w: nat, ok: bool, id: nat): State
    requires Enabled(s, UStep(w, ok, id))
  {
    var c := s.calls[w];
    s.(tasks := s.tasks[c.cur := UnshareTask(s.tasks[c.cur], c)],
       counts := UnshareCounts(s, c, ok, id),
       calls := s.calls[w := UnshareNext(s, c, ok, id)])
  }

  // ---------------------------------------------------------------- runs

  function Apply(s: State, m: Move): State
    requires Enabled(s, m)
  {
    match m
    case StartClone(w, cur, f, _) =>
      var s1 := if f.thread then s
                else s.(delayed := s.delayed[s.tasks[cur].signal := [w] + NodesOf(s, s.tasks[cur].signal)]);
      SetCall(s1, w, Clone(Build(cur, f, s.tasks[cur], false, false, 0), AtSignals, if f.thread then [] else [Node]))
    case Step(w, ok, id, kv) => if ok then StepOk(s, w, id, kv) else StepFails(s, w)
    case Fall(w) => FallThrough(s, w)
    case StartUnshare(w, cur, f) => SetCall(s, w, Unshare(cur, Widen(f), UFs, None, None, false))
    case UStep(w, ok, id) => UnshareStepOf(s, w, ok, id)
  }
}
