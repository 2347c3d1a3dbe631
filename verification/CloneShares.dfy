// What a clone shares and what it copies: the flags, stage by stage, until the
// new task is visible.

module CloneShares {
  import opened Wrappers
  import opened CloneModel
  import opened CloneInv
  import CloneSteps

  // Shared exactly when the flag says so; an object the maker does not have is
  // not there in the child either.
  predicate SameIff(flag: bool, mine: Option<nat>, its: Option<nat>)
  {
    (mine.None? <==> its.None?) && (mine.Some? ==> (flag <==> its == mine))
  }

  predicate SharesOk(me: Task, b: Build, level: nat)
  {
    && (level >= Rank(CleanupFiles) ==> SameIff(b.flags.files, me.files, b.p.files))
    && (level >= Rank(CleanupFs) ==> (b.flags.fs <==> b.p.fs == me.fs))
    && (level >= Rank(CleanupSighand) ==> (b.flags.sighand <==> b.p.sighand == me.sighand))
    && (level >= Rank(CleanupSignal) ==> (b.flags.thread <==> b.p.signal == me.signal))
    && (level >= Rank(CleanupMm) ==> SameIff(b.flags.vm, me.mm, b.p.mm))
  }

  predicate CallShares(s: State, c: Call)
  {
    (c.Clone? || c.Unwind?) && c.b.cur in s.tasks ==> SharesOk(s.tasks[c.b.cur], c.b, Level(c))
  }

  ghost predicate ShareInv(s: State)
  {
    forall w :: 0 <= w < |s.calls| ==> CallShares(s, s.calls[w])
  }

  // A new object is none of the maker's.
  predicate NewName(me: Task, stage: Stage, id: nat)
  {
    && (stage == AtFiles ==> me.files != Some(id))
    && (stage == AtFs ==> me.fs != id)
    && (stage == AtSighand ==> me.sighand != id)
    && (stage == AtSignal ==> me.signal != id)
    && (stage == AtMm ==> me.mm != Some(id))
  }

  lemma {:induction false} FreshIsNew(s: State, w: nat, id: nat, kv: KvResult)
    requires CountInv(s) && Enabled(s, Step(w, true, id, kv))
    ensures NewName(s.tasks[s.calls[w].b.cur], s.calls[w].stage, id)
  {
    var cur := s.calls[w].b.cur;
    forall o | Points(s.tasks[cur], o) ensures o in s.counts { PointedIsCounted(s, cur, o); }
    var me := s.tasks[cur];
    assert Points(me, Obj(FsKind, me.fs)) && Points(me, Obj(SighandKind, me.sighand))
        && Points(me, Obj(SignalKind, me.signal));
    assert me.files.Some? ==> Points(me, Obj(FilesKind, me.files.value));
    assert me.mm.Some? ==> Points(me, Obj(MmKind, me.mm.value));
  }

  lemma {:induction false} PointedIsCounted(s: State, t: nat, o: Obj)
    requires CountInv(s) && t in s.tasks && Points(s.tasks[t], o)
    ensures o in s.counts
  {
    assert TaskHolder(t) in Holders(s, o);
    assert CountOk(s, o);
  }

  // The stage's outcome shares what the flags ask for so far.
  predicate SharesAfter(me: Task, b: Build, stage: Stage, id: nat, kv: KvResult)
    requires stage != AtPublish
  {
    var r := Advance(b, stage, me, id, kv);
    SharesOk(me, r.b, Rank(OnError(r.next)))
  }

  lemma {:induction false} StageShares(me: Task, b: Build, stage: Stage, id: nat, kv: KvResult)
    requires stage != AtPublish && SharesOk(me, b, Rank(OnError(stage))) && NewName(me, stage, id)
    requires stage == AtFiles ==> b.p.files == me.files
    requires b.flags.thread ==> b.p.signal == me.signal
    ensures SharesAfter(me, b, stage, id, kv)
  {
    if Rank(OnError(stage)) < Rank(CleanupSemundo) {
      EarlyStage(me, b, stage, id, kv);
    } else if Rank(OnError(stage)) >= Rank(CleanupMm) {
      LateStage(me, b, stage, id, kv);
      StillShares(me, b, stage, id, kv);
    } else {
      SharingStage(me, b, stage, id, kv);
    }
  }

  lemma {:induction false} StillShares(me: Task, b: Build, stage: Stage, id: nat, kv: KvResult)
    requires stage != AtPublish && SharesOk(me, b, Rank(OnError(stage))) && Rank(OnError(stage)) >= Rank(CleanupMm)
    requires var b' := Advance(b, stage, me, id, kv).b;
      && b'.flags == b.flags && b'.p.files == b.p.files && b'.p.fs == b.p.fs && b'.p.sighand == b.p.sighand
      && b'.p.signal == b.p.signal && b'.p.mm == b.p.mm
    ensures SharesAfter(me, b, stage, id, kv)
  {
    var b' := Advance(b, stage, me, id, kv).b;
    assert SameIff(b.flags.files, me.files, b'.p.files) && SameIff(b.flags.vm, me.mm, b'.p.mm);
  }

  // The five stages that share or make an object.
  lemma {:induction false} SharingStage(me: Task, b: Build, stage: Stage, id: nat, kv: KvResult)
    requires Rank(CleanupSemundo) <= Rank(OnError(stage)) < Rank(CleanupMm)
    requires SharesOk(me, b, Rank(OnError(stage))) && NewName(me, stage, id)
    requires stage == AtFiles ==> b.p.files == me.files
    requires b.flags.thread ==> b.p.signal == me.signal
    ensures SharesAfter(me, b, stage, id, kv)
  {
    OneOfFive(stage);
    match stage
    case AtFiles => FilesShared(me, b, id, kv);
    case AtFs => FsShared(me, b, id, kv);
    case AtSighand => SighandShared(me, b, id, kv);
    case AtSignal => SignalShared(me, b, id, kv);
    case AtMm => MmShared(me, b, id, kv);
    case _ =>
  }

  lemma {:induction false} OneOfFive(stage: Stage)
    requires Rank(CleanupSemundo) <= Rank(OnError(stage)) < Rank(CleanupMm)
    ensures stage == AtFiles || stage == AtFs || stage == AtSighand || stage == AtSignal || stage == AtMm
  {
  }

  lemma {:induction false} FilesShared(me: Task, b: Build, id: nat, kv: KvResult)
    requires me.files != Some(id) && b.p.files == me.files
    ensures SharesAfter(me, b, AtFiles, id, kv)
  {
  }

  lemma {:induction false} MmShared(me: Task, b: Build, id: nat, kv: KvResult)
    requires SharesOk(me, b, Rank(CleanupSignal)) && me.mm != Some(id)
    ensures SharesAfter(me, b, AtMm, id, kv)
  {
  }

  lemma {:induction false} FsShared(me: Task, b: Build, id: nat, kv: KvResult)
    requires SharesOk(me, b, Rank(CleanupFiles)) && me.fs != id
    ensures SharesAfter(me, b, AtFs, id, kv)
  {
  }

  lemma {:induction false} SighandShared(me: Task, b: Build, id: nat, kv: KvResult)
    requires SharesOk(me, b, Rank(CleanupFs)) && me.sighand != id
    ensures SharesAfter(me, b, AtSighand, id, kv)
  {
  }

  lemma {:induction false} SignalShared(me: Task, b: Build, id: nat, kv: KvResult)
    requires SharesOk(me, b, Rank(CleanupSighand)) && me.signal != id && (b.flags.thread ==> b.p.signal == me.signal)
    ensures SharesAfter(me, b, AtSignal, id, kv)
  {
  }

  lemma {:induction false} EarlyStage(me: Task, b: Build, stage: Stage, id: nat, kv: KvResult)
    requires Rank(OnError(stage)) < Rank(CleanupSemundo)
    ensures Rank(OnError(Advance(b, stage, me, id, kv).next)) < Rank(CleanupFiles)
  {
  }

  lemma {:induction false} LateStage(me: Task, b: Build, stage: Stage, id: nat, kv: KvResult)
    requires stage != AtPublish && Rank(OnError(stage)) >= Rank(CleanupMm)
    ensures var b' := Advance(b, stage, me, id, kv).b;
      && b'.flags == b.flags && b'.p.files == b.p.files && b'.p.fs == b.p.fs && b'.p.sighand == b.p.sighand
      && b'.p.signal == b.p.signal && b'.p.mm == b.p.mm
  {
  }

  // ---------------------------------------------------------------- every move

  lemma {:induction false} MoverShares(s: State, m: Move)
    requires CountInv(s) && Enabled(s, m) && CallOk(s, s.calls[m.w]) && CallShares(s, s.calls[m.w])
    ensures m.w < |Apply(s, m).calls| && CallShares(Apply(s, m), Apply(s, m).calls[m.w])
  {
    if m.Step? && m.ok && s.calls[m.w].stage != AtPublish {
      var c := s.calls[m.w];
      CloneSteps.StepFrame(s, m.w, m.id, m.kv);
      CloneSteps.SameMaker(c.b, c.stage, s.tasks[c.b.cur], m.id, m.kv);
      CloneSteps.OkOfClone(s, c);
      FreshIsNew(s, m.w, m.id, m.kv);
      StageShares(s.tasks[c.b.cur], c.b, c.stage, m.id, m.kv);
    } else {
      CloneSteps.MoveFrame(s, m);
      OtherMoverShares(s, m);
    }
  }

  lemma {:induction false} OtherMoverShares(s: State, m: Move)
    requires Enabled(s, m) && CallShares(s, s.calls[m.w]) && !(m.Step? && m.ok && s.calls[m.w].stage != AtPublish)
    ensures m.w < |Apply(s, m).calls| && CallShares(Apply(s, m), Apply(s, m).calls[m.w])
  {
    match m
    case StartClone(w, cur, f, e) => StartShares(s, w, cur, f, e);
    case StartUnshare(_, _, _) =>
    case Step(w, ok, _, _) => if !ok { FailShares(s, w); }
    case Fall(w) => FallShares(s, w);
    case UStep(w, ok, id) => UnshareIsNoClone(s, s.calls[w], ok, id);
  }

  lemma {:induction false} StartShares(s: State, w: nat, cur: nat, f: Flags, e: Caller)
    requires Enabled(s, StartClone(w, cur, f, e))
    ensures var s' := Apply(s, StartClone(w, cur, f, e)); w < |s'.calls| && CallShares(s', s'.calls[w])
  {
  }

  lemma {:induction false} FailShares(s: State, w: nat)
    requires w < |s.calls| && s.calls[w].Clone? && CallShares(s, s.calls[w])
    ensures CallShares(StepFails(s, w), StepFails(s, w).calls[w])
  {
  }

  lemma {:induction false} FallShares(s: State, w: nat)
    requires Enabled(s, Fall(w)) && CallShares(s, s.calls[w])
    ensures CallShares(FallThrough(s, w), FallThrough(s, w).calls[w])
  {
  }

  lemma {:induction false} UnshareIsNoClone(s: State, c: Call, ok: bool, id: nat)
    requires c.Unshare? && c.cur in s.tasks
    ensures !UnshareNext(s, c, ok, id).Clone? && !UnshareNext(s, c, ok, id).Unwind?
  {
  }

  lemma {:induction false} OthersShare(s: State, m: Move, u: nat)
    requires CallInv(s) && Enabled(s, m) && u < |s.calls| && u != m.w && CallShares(s, s.calls[u])
    ensures CallShares(Apply(s, m), s.calls[u])
  {
    var c := s.calls[u];
    assert CallOk(s, c) && CallOk(s, s.calls[m.w]);
    CloneSteps.MoveTasks(s, m);
    if c.Clone? || c.Unwind? { assert Busy(c, c.b.cur) && !Busy(s.calls[m.w], c.b.cur); }
  }

  lemma {:induction false} MoveKeepsShares(s: State, m: Move)
    requires CountInv(s) && CallInv(s) && ShareInv(s) && Enabled(s, m)
    ensures ShareInv(Apply(s, m))
  {
    CloneSteps.MoveFrame(s, m);
    forall u | 0 <= u < |Apply(s, m).calls| ensures CallShares(Apply(s, m), Apply(s, m).calls[u]) {
      assert CallShares(s, s.calls[u]) && CallOk(s, s.calls[m.w]);
      if u == m.w { MoverShares(s, m); } else { OthersShare(s, m, u); }
    }
  }
}
