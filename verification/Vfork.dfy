// The vfork handshake: kernel_clone parks the parent on a completion in its own
// stack frame; the child finds it through vfork_done and completes it when it
// gives up the mm, by exec or by exit. A fatal signal may wake the parent first.

module Vfork {
  datatype Who = Parent | Child

  datatype ParentPc =
    | Preparing              // copy_process has returned, vfork_done not yet set
    | Prepared               // vfork_done set, child referenced, not yet woken
    | Waiting                // in wait_for_completion_killable
    | Killed                 // woken by a fatal signal, wants the child's task_lock
    | Clearing               // holds the child's task_lock
    | Putting(killed: bool)  // about to drop its reference on the child
    | Returned(killed: bool) // kernel_clone's frame is gone

  datatype ChildPc =
    | NotStarted
    | Running
    | Releasing              // in mm_release, about to test vfork_done
    | Entering               // in complete_vfork_done, wants its own task_lock
    | Locked                 // holds task_lock, about to read vfork_done
    | Taken                  // read it and set it to NULL, about to complete()
    | Completing             // in complete(), holds the completion's wait lock
    | Completed              // out of complete(), about to drop task_lock
    | Released               // out of mm_release
    | Dead                   // has dropped its own reference on its task_struct

  datatype State = State(
    p: ParentPc, c: ChildPc,
    vforkDone: bool,         // child->vfork_done points at the parent's completion
    done: nat,               // the completion's counter
    taskLock: set<Who>,      // holders of the child's task_lock
    waitLock: bool,          // the completion's wait lock is held
    signal: bool,            // a fatal signal is pending for the parent
    usage: nat,              // references on the child's task_struct
    completions: nat,        // complete() calls made by the child
    gaveUpMm: bool)          // the child has reached mm_release

  function Start(): State
  {
    State(Preparing, NotStarted, false, 0, {}, false, false, 1, 0, false)
  }

  datatype Move =
    | SetVforkDone | WakeChild | WaitOver | WaitKilled | LockToClear | ClearAndUnlock | PutChild
    | FatalSignal
    | EnterMmRelease | TestVforkDone | LockSelf | TakeVforkDone | BeginComplete | EndComplete | UnlockSelf
    | RunOn | Die

  predicate Enabled(s: State, m: Move)
  {
    match m
    case SetVforkDone => s.p.Preparing?
    case WakeChild => s.p.Prepared?
    case WaitOver => s.p.Waiting? && !s.waitLock && s.done > 0
    case WaitKilled => s.p.Waiting? && !s.waitLock && s.done == 0 && s.signal
    case LockToClear => s.p.Killed? && s.taskLock == {}
    case ClearAndUnlock => s.p.Clearing?
    case PutChild => s.p.Putting?
    case FatalSignal => true
    case EnterMmRelease => s.c.Running?
    case TestVforkDone => s.c.Releasing?
    case LockSelf => s.c.Entering? && s.taskLock == {}
    case TakeVforkDone => s.c.Locked?
    case BeginComplete => s.c.Taken? && !s.waitLock
    case EndComplete => s.c.Completing?
    case UnlockSelf => s.c.Completed?
    case RunOn => s.c.Released?
    case Die => s.c.Released?
  }

  function Apply(s: State, m: Move): State
    requires Enabled(s, m)
  {
    match m
    // kernel_clone
    case SetVforkDone => s.(p := Prepared, vforkDone := true, done := 0, usage := s.usage + 1)
    case WakeChild => s.(p := Waiting, c := Running)
    // wait_for_vfork_done
    case WaitOver => s.(p := Putting(false), done := s.done - 1)
    case WaitKilled => s.(p := Killed)
    case LockToClear => s.(p := Clearing, taskLock := s.taskLock + {Parent})
    case ClearAndUnlock => s.(p := Putting(true), vforkDone := false, taskLock := s.taskLock - {Parent})
    case PutChild => s.(p := Returned(s.p.killed), usage := if s.usage > 0 then s.usage - 1 else 0)
    case FatalSignal => s.(signal := true)
    // mm_release and complete_vfork_done
    case EnterMmRelease => s.(c := Releasing, gaveUpMm := true)
    case TestVforkDone => s.(c := if s.vforkDone then Entering else Released)
    case LockSelf => s.(c := Locked, taskLock := s.taskLock + {Child})
    case TakeVforkDone =>
      if s.vforkDone then s.(c := Taken, vforkDone := false) else s.(c := Completed)
    case BeginComplete => s.(c := Completing, waitLock := true, done := s.done + 1, completions := s.completions + 1)
    case EndComplete => s.(c := Completed, waitLock := false)
    case UnlockSelf => s.(c := Released, taskLock := s.taskLock - {Child})
    // after exec the child runs on and comes back to mm_release when it exits
    case RunOn => s.(c := Running)
    case Die => s.(c := Dead, usage := if s.usage > 0 then s.usage - 1 else 0)
  }

  ghost predicate Next(s: State, s': State)
  {
    exists m :: Enabled(s, m) && s' == Apply(s, m)
  }

  ghost predicate IsRun(tr: seq<State>)
  {
    |tr| > 0 && tr[0] == Start() && forall k :: 0 < k < |tr| ==> Next(tr[k - 1], tr[k])
  }

  // ---------------------------------------------------------------- invariant

  // The child is somewhere between reading a non-NULL vfork_done and leaving
  // complete(): it is using the parent's stack frame.
  predicate UsesFrame(s: State)
  {
    s.c.Taken? || s.c.Completing?
  }

  predicate ChildHoldsLock(s: State)
  {
    s.c.Locked? || s.c.Taken? || s.c.Completing? || s.c.Completed?
  }

  predicate Inv(s: State)
  {
    && (s.p.Preparing? || s.p.Prepared? <==> s.c.NotStarted?)
    && (s.p.Preparing? ==> !s.vforkDone && s.usage == 1 && s.completions == 0)
    && (s.p.Prepared? ==> s.vforkDone)
    && s.taskLock == (if ChildHoldsLock(s) then {Child} else {}) + (if s.p.Clearing? then {Parent} else {})
    && !(ChildHoldsLock(s) && s.p.Clearing?)
    && s.waitLock == s.c.Completing?
    // one completion: announced, in the child's hands, made, or withdrawn
    && s.completions <= 1
    && (s.vforkDone ==> s.completions == 0 && !UsesFrame(s) && !s.p.Putting? && !s.p.Returned?)
    && (s.c.Taken? ==> s.completions == 0)
    && (s.c.Completing? ==> s.completions == 1)
    && (s.completions == 0 ==> s.done == 0)
    && (UsesFrame(s) ==> s.p.Waiting? || s.p.Killed?)
    && (s.p.Waiting? ==> s.vforkDone || s.c.Taken? || s.done == 1)
    && s.done <= 1
    && (s.completions == 1 ==> s.gaveUpMm)
    && (UsesFrame(s) || ChildHoldsLock(s) || s.c.Entering? || s.c.Releasing? || s.c.Released? || s.c.Dead? ==>
          s.gaveUpMm)
    && ((s.p.Putting? || s.p.Returned?) && !s.p.killed ==> s.completions == 1 && s.gaveUpMm)
    && (s.c.Completed? || s.c.Released? || s.c.Dead? ==> !s.vforkDone)
    // references: the child's own and the parent's
    && (!s.p.Preparing? ==>
         s.usage == (if s.c.Dead? then 0 else 1) + (if s.p.Returned? then 0 else 1))
  }

  lemma {:induction false} StepKeepsInv(s: State, m: Move)
    requires Inv(s) && Enabled(s, m)
    ensures Inv(Apply(s, m))
  {
    match m
    case SetVforkDone | WakeChild | FatalSignal => StartKeepsInv(s, m);
    case WaitOver | WaitKilled | LockToClear | ClearAndUnlock | PutChild => WaiterKeepsInv(s, m);
    case LockSelf | TakeVforkDone | UnlockSelf => LockedKeepsInv(s, m);
    case BeginComplete | EndComplete => CompleteKeepsInv(s, m);
    case EnterMmRelease | TestVforkDone | RunOn | Die => ChildKeepsInv(s, m);
  }

  lemma {:induction false} StartKeepsInv(s: State, m: Move)
    requires Inv(s) && Enabled(s, m) && (m.SetVforkDone? || m.WakeChild? || m.FatalSignal?)
    ensures Inv(Apply(s, m))
  {
  }

  lemma {:induction false} WaiterKeepsInv(s: State, m: Move)
    requires Inv(s) && Enabled(s, m)
    requires m.WaitOver? || m.WaitKilled? || m.LockToClear? || m.ClearAndUnlock? || m.PutChild?
    ensures Inv(Apply(s, m))
  {
  }

  lemma {:induction false} LockedKeepsInv(s: State, m: Move)
    requires Inv(s) && Enabled(s, m) && (m.LockSelf? || m.TakeVforkDone? || m.UnlockSelf?)
    ensures Inv(Apply(s, m))
  {
  }

  lemma {:induction false} CompleteKeepsInv(s: State, m: Move)
    requires Inv(s) && Enabled(s, m) && (m.BeginComplete? || m.EndComplete?)
    ensures Inv(Apply(s, m))
  {
  }

  lemma {:induction false} ChildKeepsInv(s: State, m: Move)
    requires Inv(s) && Enabled(s, m) && (m.EnterMmRelease? || m.TestVforkDone? || m.RunOn? || m.Die?)
    ensures Inv(Apply(s, m))
  {
  }

  lemma {:induction false} RunInv(tr: seq<State>, k: nat)
    requires IsRun(tr) && k < |tr|
    ensures Inv(tr[k])
  {
    if k > 0 {
      RunInv(tr, k - 1);
      assert Next(tr[k - 1], tr[k]);
      var m :| Enabled(tr[k - 1], m) && tr[k] == Apply(tr[k - 1], m);
      StepKeepsInv(tr[k - 1], m);
    }
  }

  // ---------------------------------------------------------------- theorems

  // The parent's frame exists whenever the child is between its read of
  // vfork_done and the end of complete(), even when the parent was killed: it
  // has not got past the task_lock the child holds.
  lemma {:induction false} FrameOutlivesUse(tr: seq<State>, k: nat)
    requires IsRun(tr) && k < |tr| && UsesFrame(tr[k])
    ensures tr[k].p.Waiting? || tr[k].p.Killed?
    ensures Child in tr[k].taskLock && !Enabled(tr[k], LockToClear)
  {
    RunInv(tr, k);
  }

  lemma {:induction false} CompletesAtMostOnce(tr: seq<State>, k: nat)
    requires IsRun(tr) && k < |tr|
    ensures tr[k].completions <= 1
    ensures tr[k].completions == 1 || tr[k].p.Returned? ==> !Enabled(tr[k], BeginComplete)
  {
    RunInv(tr, k);
  }

  // A parent that returns without having been killed returns after the child
  // has given the mm back.
  lemma {:induction false} UnkilledReturnsAfterRelease(tr: seq<State>, k: nat)
    requires IsRun(tr) && k < |tr| && tr[k].p == Returned(false)
    ensures tr[k].gaveUpMm && tr[k].completions == 1
  {
    RunInv(tr, k);
  }

  // The parent still holds a reference whenever it may touch the child's
  // task_struct, so the lock it takes is not in freed memory.
  lemma {:induction false} ChildStructIsLive(tr: seq<State>, k: nat)
    requires IsRun(tr) && k < |tr| && !tr[k].p.Returned?
    ensures tr[k].usage > 0
    ensures |tr[k].taskLock| <= 1
  {
    RunInv(tr, k);
  }

  // Once the child is out of mm_release the parent is never left behind.
  lemma {:induction false} NoLostWakeup(tr: seq<State>, k: nat)
    requires IsRun(tr) && k < |tr| && (tr[k].c.Released? || tr[k].c.Dead?)
    ensures tr[k].p.Waiting? ==> Enabled(tr[k], WaitOver)
    ensures tr[k].p.Killed? ==> Enabled(tr[k], LockToClear)
  {
    RunInv(tr, k);
  }

  lemma {:induction false} Then(tr: seq<State>, m: Move) returns (tr': seq<State>)
    requires IsRun(tr) && Enabled(tr[|tr| - 1], m)
    ensures IsRun(tr') && tr' == tr + [Apply(tr[|tr| - 1], m)]
  {
    tr' := tr + [Apply(tr[|tr| - 1], m)];
    forall k | 0 < k < |tr'| ensures Next(tr'[k - 1], tr'[k]) {
      if k < |tr| { assert Next(tr[k - 1], tr[k]); }
    }
  }

  // The window is real: a killed parent can be held up inside it.
  lemma {:induction false} KilledInTheWindow() returns (tr: seq<State>)
    ensures IsRun(tr) && tr[|tr| - 1].p.Killed? && UsesFrame(tr[|tr| - 1])
  {
    tr := [Start()];
    tr := Then(tr, SetVforkDone);
    tr := Then(tr, WakeChild);
    tr := Then(tr, EnterMmRelease);
    tr := Then(tr, TestVforkDone);
    tr := Then(tr, LockSelf);
    tr := Then(tr, TakeVforkDone);
    tr := Then(tr, FatalSignal);
    tr := Then(tr, WaitKilled);
  }

  // The usual case: the child gives the mm back, and the parent returns unkilled.
  lemma {:induction false} ReleasedAndReturned() returns (tr: seq<State>)
    ensures IsRun(tr) && tr[|tr| - 1].p == Returned(false) && tr[|tr| - 1].c.Released?
  {
    tr := [Start()];
    tr := Then(tr, SetVforkDone);
    tr := Then(tr, WakeChild);
    tr := Then(tr, EnterMmRelease);
    tr := Then(tr, TestVforkDone);
    tr := Then(tr, LockSelf);
    tr := Then(tr, TakeVforkDone);
    tr := Then(tr, BeginComplete);
    tr := Then(tr, EndComplete);
    tr := Then(tr, UnlockSelf);
    tr := ParentCanReturn(tr);
  }

  // From tr to tr' only the parent has moved.
  predicate ParentMoves(tr: seq<State>, tr': seq<State>)
  {
    && 0 < |tr| <= |tr'| && tr'[..|tr|] == tr
    && forall k :: |tr| <= k < |tr'| ==> tr'[k].c == tr[|tr| - 1].c
  }

  // A waiting parent that is killed, or whose completion has been made, can come
  // back by its own steps whatever the child is at, as long as the child is not
  // just then holding its task_lock: as killed exactly if there was no completion.
  lemma {:induction false} ParentCanReturn(tr: seq<State>) returns (tr': seq<State>)
    requires IsRun(tr) && tr[|tr| - 1].p.Waiting? && (tr[|tr| - 1].signal || tr[|tr| - 1].done > 0)
    requires !ChildHoldsLock(tr[|tr| - 1])
    ensures IsRun(tr') && ParentMoves(tr, tr') && tr'[|tr'| - 1].p == Returned(tr[|tr| - 1].done == 0)
  {
    RunInv(tr, |tr| - 1);
    tr' := tr;
    if tr[|tr| - 1].done > 0 {
      tr' := Then(tr', WaitOver);
    } else {
      tr' := Then(tr', WaitKilled);
      tr' := Then(tr', LockToClear);
      tr' := Then(tr', ClearAndUnlock);
    }
    tr' := Then(tr', PutChild);
  }

  // A parent that is neither killed nor released stays where it is.
  lemma {:induction false} ParentWaits(tr: seq<State>, k: nat, m: Move)
    requires IsRun(tr) && k < |tr| && tr[k].p.Waiting? && !tr[k].signal && tr[k].completions == 0
    requires Enabled(tr[k], m)
    ensures Apply(tr[k], m).p.Waiting?
  {
    RunInv(tr, k);
  }

  // The handshake never gets stuck: until the parent has returned and the child
  // is gone, one of them has a step to make, and the child can always give up
  // its task_lock.
  lemma {:induction false} NeverStuck(tr: seq<State>, k: nat)
    requires IsRun(tr) && k < |tr|
    ensures (tr[k].p.Returned? && tr[k].c.Dead?) || exists m: Move :: m != FatalSignal && Enabled(tr[k], m)
    ensures ChildHoldsLock(tr[k]) ==>
      exists m: Move :: Enabled(tr[k], m) && Apply(tr[k], m).c != tr[k].c && Apply(tr[k], m).p == tr[k].p
  {
    var s := tr[k];
    RunInv(tr, k);
    match s.c
    case NotStarted => assert Enabled(s, if s.p.Preparing? then SetVforkDone else WakeChild);
    case Running => assert Enabled(s, EnterMmRelease);
    case Releasing => assert Enabled(s, TestVforkDone);
    case Entering => assert Enabled(s, if s.p.Clearing? then ClearAndUnlock else LockSelf);
    case Locked => assert Enabled(s, TakeVforkDone);
    case Taken => assert Enabled(s, BeginComplete);
    case Completing => assert Enabled(s, EndComplete);
    case Completed => assert Enabled(s, UnlockSelf);
    case Released => assert Enabled(s, Die);
    case Dead =>
      assert !s.p.Returned? ==>
        Enabled(s, match s.p case Waiting => WaitOver case Killed => LockToClear case Clearing => ClearAndUnlock
                   case _ => PutChild);
  }
}
