// What a whole unshare does: the caller ends up alone with what it asked for,
// and keeps what it did not ask for, whatever the other calls do meanwhile.

module CloneUnshare {
  import opened Wrappers
  import opened CloneModel
  import opened CloneInv
  import opened CloneSteps
  import CloneCounts
  import opened CloneTheorems
  import opened CloneWitness
  import opened CloneFinish

  predicate FsOrFiles(o: Obj)
  {
    o.kind == FsKind || o.kind == FilesKind
  }

  // ---------------------------------------------------------------- who can come to have an object

  // The task the call works for points at o.
  predicate Reaches(s: State, c: Call, o: Obj)
  {
    || (c.Clone? && c.b.cur in s.tasks && Points(s.tasks[c.b.cur], o))
    || (c.Unshare? && c.cur in s.tasks && Points(s.tasks[c.cur], o))
  }

  // A stage can take a reference only to an object the maker has or to a new one.
  lemma {:induction false} StageHolds(s: State, w: nat, id: nat, kv: KvResult, o: Obj)
    requires Enabled(s, Step(w, true, id, kv)) && s.calls[w].stage != AtPublish && CallOk(s, s.calls[w])
    requires o in s.counts && FsOrFiles(o) && Holds(StepOk(s, w, id, kv).calls[w], o)
    ensures Holds(s.calls[w], o) || Reaches(s, s.calls[w], o)
  {
    var c := s.calls[w];
    StepFrame(s, w, id, kv);
    OkOfClone(s, c);
    if o.kind == FsKind { StageFs(c.b, c.stage, s.tasks[c.b.cur], id, kv); }
    else { StageHasFiles(c.b, c.stage, s.tasks[c.b.cur], id, kv); }
  }

  lemma {:induction false} StageKeepsFs(b: Build, stage: Stage, me: Task, id: nat, kv: KvResult)
    requires stage != AtDup
    ensures var b' := BuildAfter(b, stage, me, id, kv);
      (stage != AtFs ==> b'.p.fs == b.p.fs) && (stage != AtFiles ==> b'.p.files == b.p.files)
  {
  }

  lemma {:induction false} StageFs(b: Build, stage: Stage, me: Task, id: nat, kv: KvResult)
    requires stage != AtPublish
    ensures var r := Advance(b, stage, me, id, kv);
      Rank(OnError(r.next)) >= Rank(CleanupFs) ==>
        if stage == AtFs then r.b.p.fs == me.fs || r.b.p.fs == id
        else Rank(OnError(stage)) >= Rank(CleanupFs) && r.b.p.fs == b.p.fs
  {
    LowLevels(stage);
    LowLevels(After(stage, b.flags.pidfd));
    AfterNo(stage, b.flags.pidfd);
    if StageNo(stage) == StageNo(AtFs) { SameNo(stage, AtFs); }
    if stage != AtDup { StageKeepsFs(b, stage, me, id, kv); }
  }

  lemma {:induction false} StageHasFiles(b: Build, stage: Stage, me: Task, id: nat, kv: KvResult)
    requires stage != AtPublish && (stage == AtFiles ==> b.p.files == me.files)
    ensures var r := Advance(b, stage, me, id, kv);
      Rank(OnError(r.next)) >= Rank(CleanupFiles) ==>
        if stage == AtFiles then r.b.p.files == me.files || r.b.p.files == Some(id)
        else Rank(OnError(stage)) >= Rank(CleanupFiles) && r.b.p.files == b.p.files
  {
    LowLevels(stage);
    LowLevels(After(stage, b.flags.pidfd));
    AfterNo(stage, b.flags.pidfd);
    if StageNo(stage) == StageNo(AtFiles) { SameNo(stage, AtFiles); }
    if stage != AtDup { StageKeepsFs(b, stage, me, id, kv); }
  }

  lemma {:induction false} FallHolds(s: State, w: nat, o: Obj)
    requires Enabled(s, Fall(w)) && Holds(FallThrough(s, w).calls[w], o)
    ensures Holds(s.calls[w], o)
  {
    var c := s.calls[w];
    if c.label_ != ForkOut { assert Rank(Below(c.label_)) < Rank(c.label_); }
  }

  lemma {:induction false} UnshareHolds(s: State, c: Call, ok: bool, id: nat, o: Obj)
    requires c.Unshare? && c.cur in s.tasks && FsOrFiles(o) && o in s.counts
    requires c.at == UFs ==> Obj(FsKind, id) !in s.counts
    requires c.at == UFd ==> Obj(FilesKind, id) !in s.counts
    requires Holds(UnshareNext(s, c, ok, id), o)
    ensures Holds(c, o) || Reaches(s, c, o)
  {
  }

  // The moving call can come to hold only what its task has.
  lemma {:induction false} NewHold(s: State, m: Move, o: Obj)
    requires Enabled(s, m) && CallOk(s, s.calls[m.w]) && o in s.counts && FsOrFiles(o)
    requires m.w < |Apply(s, m).calls| && Holds(Apply(s, m).calls[m.w], o)
    ensures Holds(s.calls[m.w], o) || Reaches(s, s.calls[m.w], o)
  {
    match m
    case StartClone(_, _, _, _) =>
    case StartUnshare(_, _, _) =>
    case Step(w, ok, id, kv) =>
      if !ok { FailFrame(s, w); } else if s.calls[w].stage != AtPublish { StageHolds(s, w, id, kv, o); }
    case Fall(w) => FallHolds(s, w, o);
    case UStep(w, ok, id) => UnshareHolds(s, s.calls[w], ok, id, o);
  }

  // A task can come to point only at what the moving call holds.
  lemma {:induction false} NewPoint(s: State, m: Move, t: nat, o: Obj)
    requires Enabled(s, m) && CallOk(s, s.calls[m.w]) && FsOrFiles(o)
    requires t in Apply(s, m).tasks && Points(Apply(s, m).tasks[t], o)
    ensures (t in s.tasks && Points(s.tasks[t], o)) || Holds(s.calls[m.w], o)
  {
    MoveFrame(s, m);
    if Publishes(s, m) { CloneCounts.ReadyHolds(s.calls[m.w], o); }
  }

  // ---------------------------------------------------------------- alone stays alone

  ghost predicate Alone(s: State, t: nat, o: Obj)
  {
    t in s.tasks && Points(s.tasks[t], o) && Holders(s, o) == {TaskHolder(t)}
  }

  // Only call w and some tasks changed, and t is the only one left with o.
  lemma {:induction false} AloneAfter(s: State, s': State, w: nat, t: nat, o: Obj)
    requires w < |s.calls| == |s'.calls| && s'.calls == s.calls[w := s'.calls[w]] && !Holds(s'.calls[w], o)
    requires forall u :: 0 <= u < |s.calls| && u != w ==> !Holds(s.calls[u], o)
    requires t in s'.tasks && Points(s'.tasks[t], o)
    requires forall u :: u in s'.tasks && Points(s'.tasks[u], o) ==> u == t
    ensures Alone(s', t, o)
  {
    assert forall h :: h in Holders(s', o) ==> h == TaskHolder(t);
    assert TaskHolder(t) in Holders(s', o);
  }

  lemma {:induction false} AloneMeans(s: State, t: nat, o: Obj)
    requires Alone(s, t, o)
    ensures forall u :: 0 <= u < |s.calls| ==> !Holds(s.calls[u], o)
    ensures forall u :: u in s.tasks && Points(s.tasks[u], o) ==> u == t
  {
    forall u | 0 <= u < |s.calls| ensures !Holds(s.calls[u], o) {
      assert Holds(s.calls[u], o) <==> CallHolder(u) in Holders(s, o);
    }
    forall u | u in s.tasks && Points(s.tasks[u], o) ensures u == t { assert TaskHolder(u) in Holders(s, o); }
  }

  // A move that leaves t its object, by a call that works for another task or
  // does not take a reference, leaves t alone with it.
  lemma {:induction false} StaysAlone(s: State, m: Move, t: nat, o: Obj)
    requires Enabled(s, m) && CallOk(s, s.calls[m.w]) && CountOk(s, o) && FsOrFiles(o) && Alone(s, t, o)
    requires t in Apply(s, m).tasks && Points(Apply(s, m).tasks[t], o)
    requires m.w < |Apply(s, m).calls|
    requires !Busy(s.calls[m.w], t) || !Holds(Apply(s, m).calls[m.w], o)
    ensures Alone(Apply(s, m), t, o)
  {
    var s' := Apply(s, m);
    AloneMeans(s, t, o);
    MoveFrame(s, m);
    assert TaskHolder(t) in Holders(s, o);
    if Holds(s'.calls[m.w], o) { NewHold(s, m, o); }
    forall u | u in s'.tasks && Points(s'.tasks[u], o) ensures u == t { NewPoint(s, m, u, o); }
    AloneAfter(s, s', m.w, t, o);
  }

  // ---------------------------------------------------------------- what a call in progress has separated

  // The call has dealt with the fs_struct, and with the files_struct: it found
  // the caller alone, or the copy is in place.
  predicate FsDone(c: Call)
    requires c.Unshare?
  {
    ((c.at == UFd || c.at == UNamespaces || c.at == USwapFs) && c.newFs.None?) || c.at == USwapFiles
  }

  predicate FilesDone(c: Call)
    requires c.Unshare?
  {
    BeforeSwap(c.at) && c.newFiles.None?
  }

  ghost predicate FsAlone(s: State, t: nat)
  {
    t in s.tasks && Alone(s, t, Obj(FsKind, s.tasks[t].fs))
  }

  ghost predicate FilesAlone(s: State, t: nat)
  {
    t in s.tasks && (s.tasks[t].files.Some? ==> Alone(s, t, Obj(FilesKind, s.tasks[t].files.value)))
  }

  ghost predicate Separated(s: State, c: Call)
  {
    c.Unshare? ==>
      && (c.flags.fs && FsDone(c) ==> FsAlone(s, c.cur))
      && (c.flags.files && FilesDone(c) ==> FilesAlone(s, c.cur))
  }

  lemma {:induction false} SameTask(s: State, m: Move, t: nat)
    requires Enabled(s, m) && CallOk(s, s.calls[m.w]) && t in s.tasks && !(m.UStep? && s.calls[m.w].cur == t)
    ensures t in Apply(s, m).tasks && Apply(s, m).tasks[t] == s.tasks[t]
  {
    MoveFrame(s, m);
    if Publishes(s, m) { PublishIsNew(s, s.calls[m.w]); }
  }

  // Another call's move.
  lemma {:induction false} OthersKeep(s: State, m: Move, t: nat)
    requires CountInv(s) && Enabled(s, m) && CallOk(s, s.calls[m.w]) && !Busy(s.calls[m.w], t)
    ensures FsAlone(s, t) ==> FsAlone(Apply(s, m), t)
    ensures FilesAlone(s, t) ==> FilesAlone(Apply(s, m), t)
  {
    MoveFrame(s, m);
    if t in s.tasks {
      SameTask(s, m, t);
      if FsAlone(s, t) { StaysAlone(s, m, t, Obj(FsKind, s.tasks[t].fs)); }
      if FilesAlone(s, t) && s.tasks[t].files.Some? {
        StaysAlone(s, m, t, Obj(FilesKind, s.tasks[t].files.value));
      }
    }
  }

  // Of an object with one reference the task that points at it is the only holder.
  lemma {:induction false} OneReference(s: State, t: nat, o: Obj)
    requires CountOk(s, o) && t in s.tasks && Points(s.tasks[t], o) && Count(s, o) <= 1
    ensures Alone(s, t, o)
  {
    assert TaskHolder(t) in Holders(s, o);
    NotEmpty(Holders(s, o), TaskHolder(t));
  }

  // The step that copies the fs_struct if it is shared.
  lemma {:induction false} FsStep(s: State, m: Move)
    requires CountInv(s) && Enabled(s, m) && m.UStep? && CallOk(s, s.calls[m.w]) && s.calls[m.w].at == UFs
    requires s.calls[m.w].flags.fs && UnshareNext(s, s.calls[m.w], m.ok, m.id).Unshare?
    requires UnshareNext(s, s.calls[m.w], m.ok, m.id).newFs.None?
    ensures FsAlone(Apply(s, m), s.calls[m.w].cur)
  {
    var c := s.calls[m.w];
    var o := Obj(FsKind, s.tasks[c.cur].fs);
    UnshareFrame(s, m.w, m.ok, m.id);
    assert CountOk(s, o);
    OneReference(s, c.cur, o);
    StaysAlone(s, m, c.cur, o);
  }

  // The steps between the check and the swap keep a caller that is alone.
  lemma {:induction false} KeepsFs(s: State, m: Move)
    requires CountInv(s) && Enabled(s, m) && m.UStep? && CallOk(s, s.calls[m.w]) && s.calls[m.w].newFs.None?
    requires FsDone(s.calls[m.w]) && FsAlone(s, s.calls[m.w].cur)
    ensures FsAlone(Apply(s, m), s.calls[m.w].cur)
  {
    var c := s.calls[m.w];
    UnshareFrame(s, m.w, m.ok, m.id);
    NoNewFs(s, c, m.ok, m.id, s.tasks[c.cur].fs);
    StaysAlone(s, m, c.cur, Obj(FsKind, s.tasks[c.cur].fs));
  }

  lemma {:induction false} NoNewFs(s: State, c: Call, ok: bool, id: nat, x: nat)
    requires c.Unshare? && c.cur in s.tasks && c.newFs.None? && c.at != UFs
    ensures !Holds(UnshareNext(s, c, ok, id), Obj(FsKind, x))
    ensures UnshareTask(s.tasks[c.cur], c).fs == s.tasks[c.cur].fs
  {
  }

  lemma {:induction false} KeepsFiles(s: State, m: Move)
    requires CountInv(s) && Enabled(s, m) && m.UStep? && CallOk(s, s.calls[m.w]) && s.calls[m.w].newFiles.None?
    requires BeforeSwap(s.calls[m.w].at) && FilesAlone(s, s.calls[m.w].cur)
    ensures FilesAlone(Apply(s, m), s.calls[m.w].cur)
  {
    var c := s.calls[m.w];
    UnshareFrame(s, m.w, m.ok, m.id);
    NoNewFiles(s, c, m.ok, m.id);
    if s.tasks[c.cur].files.Some? { StaysAlone(s, m, c.cur, Obj(FilesKind, s.tasks[c.cur].files.value)); }
  }

  lemma {:induction false} NoNewFiles(s: State, c: Call, ok: bool, id: nat)
    requires c.Unshare? && c.cur in s.tasks && c.newFiles.None? && c.at != UFd
    ensures var c' := UnshareNext(s, c, ok, id); c'.Unshare? ==> c'.newFiles.None?
    ensures UnshareTask(s.tasks[c.cur], c).files == s.tasks[c.cur].files
  {
  }

  // The step that copies the files_struct if it is shared.
  lemma {:induction false} FdStep(s: State, m: Move)
    requires CountInv(s) && Enabled(s, m) && m.UStep? && CallOk(s, s.calls[m.w]) && s.calls[m.w].at == UFd
    requires s.calls[m.w].flags.files && UnshareNext(s, s.calls[m.w], m.ok, m.id).newFiles.None?
    requires UnshareNext(s, s.calls[m.w], m.ok, m.id).at == UNamespaces
    ensures FilesAlone(Apply(s, m), s.calls[m.w].cur)
  {
    var c := s.calls[m.w];
    UnshareFrame(s, m.w, m.ok, m.id);
    if s.tasks[c.cur].files.Some? {
      var o := Obj(FilesKind, s.tasks[c.cur].files.value);
      assert CountOk(s, o);
      OneReference(s, c.cur, o);
      StaysAlone(s, m, c.cur, o);
    }
  }

  // The copy has replaced the fs_struct, or the files_struct.
  lemma {:induction false} FsSwap(s: State, m: Move)
    requires CountInv(s) && Enabled(s, m) && m.UStep? && CallOk(s, s.calls[m.w]) && s.calls[m.w].at == USwapFs
    requires s.calls[m.w].newFs.Some?
    ensures FsAlone(Apply(s, m), s.calls[m.w].cur)
  {
    var c := s.calls[m.w];
    var o := Obj(FsKind, c.newFs.value);
    assert PrivateTo(c, o);
    UnshareFrame(s, m.w, m.ok, m.id);
    NowOwn(s, Apply(s, m), m.w, c.cur, o);
  }

  lemma {:induction false} FilesSwap(s: State, m: Move)
    requires CountInv(s) && Enabled(s, m) && m.UStep? && CallOk(s, s.calls[m.w]) && s.calls[m.w].at == USwapFiles
    requires s.calls[m.w].newFiles.Some?
    ensures FilesAlone(Apply(s, m), s.calls[m.w].cur)
  {
    var c := s.calls[m.w];
    var o := Obj(FilesKind, c.newFiles.value);
    assert PrivateTo(c, o);
    UnshareFrame(s, m.w, m.ok, m.id);
    assert Points(s.tasks[c.cur], o) ==> TaskHolder(c.cur) in Holders(s, o);
    NowOwn(s, Apply(s, m), m.w, c.cur, o);
  }

  // From the call alone to the task alone.
  lemma {:induction false} NowOwn(s: State, s': State, w: nat, t: nat, o: Obj)
    requires w < |s.calls| == |s'.calls| && s'.calls == s.calls[w := s'.calls[w]] && Holders(s, o) == {CallHolder(w)}
    requires t in s'.tasks && s'.tasks == s.tasks[t := s'.tasks[t]]
    requires Points(s'.tasks[t], o) && !Holds(s'.calls[w], o)
    ensures Alone(s', t, o)
  {
    forall u | 0 <= u < |s.calls| && u != w ensures !Holds(s.calls[u], o) {
      assert Holds(s.calls[u], o) <==> CallHolder(u) in Holders(s, o);
    }
    forall u | u in s'.tasks && Points(s'.tasks[u], o) ensures u == t {
      assert u != t ==> TaskHolder(u) in Holders(s, o);
    }
    AloneAfter(s, s', w, t, o);
  }

  // The swap of the files leaves the fs_struct alone.
  lemma {:induction false} FilesSwapKeepsFs(s: State, m: Move)
    requires CountInv(s) && Enabled(s, m) && m.UStep? && CallOk(s, s.calls[m.w]) && s.calls[m.w].at == USwapFiles
    requires FsAlone(s, s.calls[m.w].cur)
    ensures FsAlone(Apply(s, m), s.calls[m.w].cur)
  {
    var c := s.calls[m.w];
    var o := Obj(FsKind, s.tasks[c.cur].fs);
    UnshareFrame(s, m.w, m.ok, m.id);
    AloneMeans(s, c.cur, o);
    StaysAlone(s, m, c.cur, o);
  }

  // A step of the call itself.
  lemma {:induction false} OwnFs(s: State, m: Move)
    requires CountInv(s) && Enabled(s, m) && m.UStep? && CallOk(s, s.calls[m.w]) && Separated(s, s.calls[m.w])
    requires UnshareNext(s, s.calls[m.w], m.ok, m.id).Unshare? && s.calls[m.w].flags.fs
    requires FsDone(UnshareNext(s, s.calls[m.w], m.ok, m.id))
    ensures FsAlone(Apply(s, m), s.calls[m.w].cur)
  {
    if s.calls[m.w].at == UFs { FsStep(s, m); }
    else if s.calls[m.w].newFs.None? { KeepsFs(s, m); }
    else { FsSwap(s, m); }
  }

  lemma {:induction false} OwnFiles(s: State, m: Move)
    requires CountInv(s) && Enabled(s, m) && m.UStep? && CallOk(s, s.calls[m.w]) && Separated(s, s.calls[m.w])
    requires UnshareNext(s, s.calls[m.w], m.ok, m.id).Unshare? && s.calls[m.w].flags.files
    requires FilesDone(UnshareNext(s, s.calls[m.w], m.ok, m.id))
    ensures FilesAlone(Apply(s, m), s.calls[m.w].cur)
  {
    if s.calls[m.w].at == UFd { FdStep(s, m); } else { KeepsFiles(s, m); }
  }

  lemma {:induction false} SameRequest(s: State, c: Call, ok: bool, id: nat)
    requires c.Unshare? && c.cur in s.tasks
    ensures var c' := UnshareNext(s, c, ok, id); c'.Unshare? ==> c'.cur == c.cur && c'.flags == c.flags
  {
  }

  // Every move keeps what the calls in progress have separated.
  lemma {:induction false} MoveKeepsSeparated(s: State, m: Move, u: nat)
    requires CountInv(s) && CallInv(s) && Enabled(s, m) && u < |s.calls| && Separated(s, s.calls[u])
    ensures u < |Apply(s, m).calls| && Separated(Apply(s, m), Apply(s, m).calls[u])
  {
    var s' := Apply(s, m);
    MoveFrame(s, m);
    assert CallOk(s, s.calls[m.w]);
    if u != m.w {
      if s.calls[u].Unshare? {
        var t := s.calls[u].cur;
        assert Busy(s.calls[u], t) && !Busy(s.calls[m.w], t);
        OthersKeep(s, m, t);
      }
    } else if m.UStep? {
      OwnSeparated(s, m);
    } else {
      StartsOnly(s, m);
    }
  }

  lemma {:induction false} StartsOnly(s: State, m: Move)
    requires Enabled(s, m) && !m.UStep? && m.w < |Apply(s, m).calls|
    ensures Apply(s, m).calls[m.w].Unshare? ==> m.StartUnshare? && Apply(s, m).calls[m.w].at == UFs
  {
    if m.Step? && m.ok && s.calls[m.w].stage != AtPublish { StepFrame(s, m.w, m.id, m.kv); }
  }

  lemma {:induction false} OwnSeparated(s: State, m: Move)
    requires CountInv(s) && Enabled(s, m) && m.UStep? && CallOk(s, s.calls[m.w]) && Separated(s, s.calls[m.w])
    ensures m.w < |Apply(s, m).calls| && Separated(Apply(s, m), Apply(s, m).calls[m.w])
  {
    var c := s.calls[m.w];
    var c' := UnshareNext(s, c, m.ok, m.id);
    assert Apply(s, m).calls == s.calls[m.w := c'];
    SameRequest(s, c, m.ok, m.id);
    if c'.Unshare? {
      if c.flags.fs && FsDone(c') { OwnFs(s, m); }
      if c.flags.files && FilesDone(c') { OwnFiles(s, m); }
    }
  }

  // ---------------------------------------------------------------- over runs

  lemma {:induction false} RunSeparated(ss: seq<State>, ms: seq<Move>, k: nat, u: nat)
    requires IsRun(ss, ms) && k < |ss| && u < |ss[k].calls|
    ensures Separated(ss[k], ss[k].calls[u])
  {
    if k > 0 {
      assert ss[k] == Apply(ss[k - 1], ms[k - 1]);
      MoveFrame(ss[k - 1], ms[k - 1]);
      RunSeparated(ss, ms, k - 1, u);
      RunInv(ss, ms, k - 1);
      MoveKeepsSeparated(ss[k - 1], ms[k - 1], u);
    }
  }

  // Move i starts an unshare by call w that is still going on at j.
  ghost predicate Going(ss: seq<State>, ms: seq<Move>, i: nat, j: nat, w: nat)
  {
    && i < j < |ss| && i < |ms| && ms[i].StartUnshare? && ms[i].w == w
    && forall q :: i < q <= j ==> w < |ss[q].calls| && ss[q].calls[w].Unshare?
  }

  predicate BeforeFsSwap(at: UnshareStep)
  {
    at == UFs || at == UFd || at == UNamespaces || at == USwapFs
  }

  // How the task of an unshare in progress differs from what it was at the start.
  predicate Since(was: Task, me: Task, c: Call)
    requires c.Unshare?
  {
    && (BeforeFsSwap(c.at) ==> me == was && (!c.flags.fs ==> c.newFs.None?))
    && (c.at == USwapFiles ==> me == was.(fs := me.fs) && (!c.flags.fs ==> me.fs == was.fs))
    && (BeforeFsSwap(c.at) || c.at == USwapFiles ==> (!c.flags.files || was.files.None? ==> c.newFiles.None?))
  }

  lemma {:induction false} SinceStep(s: State, c: Call, ok: bool, id: nat, was: Task)
    requires c.Unshare? && c.cur in s.tasks && Since(was, s.tasks[c.cur], c)
    ensures var c' := UnshareNext(s, c, ok, id);
      c'.Unshare? ==> Since(was, UnshareTask(s.tasks[c.cur], c), c') && c'.cur == c.cur && c'.flags == c.flags
  {
  }

  // Call w works for the unshare that m started, and this is what it has done to
  // its task so far.
  predicate Doing(was: State, m: Move, s: State, w: nat)
  {
    && m.StartUnshare? && w < |s.calls| && s.calls[w].Unshare?
    && s.calls[w].cur == m.cur && s.calls[w].flags == Widen(m.flags) && m.cur in was.tasks && m.cur in s.tasks
    && Since(was.tasks[m.cur], s.tasks[m.cur], s.calls[w])
  }

  lemma {:induction false} DoingNow(s: State, m: Move)
    requires Enabled(s, m) && m.StartUnshare?
    ensures Doing(s, m, Apply(s, m), m.w) && Apply(s, m).tasks == s.tasks
  {
  }

  lemma {:induction false} RunCalls(ss: seq<State>, ms: seq<Move>, k: nat)
    requires IsRun(ss, ms) && k < |ss|
    ensures CallInv(ss[k])
  {
    RunInv(ss, ms, k);
  }

  lemma {:induction false} DoingNext(ss: seq<State>, ms: seq<Move>, was: State, m0: Move, k: nat, w: nat)
    requires IsRun(ss, ms) && k < |ms| && Doing(was, m0, ss[k], w)
    requires w < |ss[k + 1].calls| && ss[k + 1].calls[w].Unshare?
    ensures Doing(was, m0, ss[k + 1], w)
  {
    RunCalls(ss, ms, k);
    assert ss[k + 1] == Apply(ss[k], ms[k]);
    DoingMove(was, m0, ss[k], ms[k], w);
  }

  lemma {:induction false} DoingStart(ss: seq<State>, ms: seq<Move>, i: nat, j: nat, w: nat)
    requires IsRun(ss, ms) && Going(ss, ms, i, j, w)
    ensures Doing(ss[i], ms[i], ss[j], w)
    decreases j
  {
    if j == i + 1 {
      DoingNow(ss[i], ms[i]);
    } else {
      DoingStart(ss, ms, i, j - 1, w);
      DoingNext(ss, ms, ss[i], ms[i], j - 1, w);
    }
  }

  lemma {:induction false} DoingMove(was: State, m0: Move, s: State, m: Move, w: nat)
    requires CallInv(s) && Enabled(s, m) && Doing(was, m0, s, w)
    requires w < |Apply(s, m).calls| && Apply(s, m).calls[w].Unshare?
    ensures Doing(was, m0, Apply(s, m), w)
  {
    var c := s.calls[w];
    assert CallOk(s, s.calls[m.w]);
    MoveFrame(s, m);
    if m.w == w {
      OwnUnshare(s, m);
      SinceStep(s, c, m.ok, m.id, was.tasks[m0.cur]);
    } else {
      assert Busy(c, c.cur) && !Busy(s.calls[m.w], c.cur);
      SameTask(s, m, c.cur);
    }
  }

  // A call in an unshare moves by its steps only.
  lemma {:induction false} OwnUnshare(s: State, m: Move)
    requires Enabled(s, m) && s.calls[m.w].Unshare?
    ensures m.UStep? && m.w < |Apply(s, m).calls| && s.calls[m.w].cur in s.tasks
    ensures Apply(s, m).calls[m.w] == UnshareNext(s, s.calls[m.w], m.ok, m.id)
  {
  }

  lemma {:induction false} AloneSharers(s: State, t: nat, o: Obj)
    requires Alone(s, t, o)
    ensures Sharers(s, o) == {t}
  {
    AloneMeans(s, t, o);
    assert t in Sharers(s, o);
  }

  // The last swap of call w.
  lemma {:induction false} LastSwap(ss: seq<State>, ms: seq<Move>, k: nat, w: nat)
    requires IsRun(ss, ms) && k < |ms| && ms[k].UStep? && ms[k].w == w
    requires w < |ss[k].calls| && ss[k].calls[w].Unshare? && ss[k].calls[w].at == USwapFiles
    ensures var c := ss[k].calls[w];
      && (c.flags.fs ==> FsAlone(ss[k + 1], c.cur)) && (c.flags.files ==> FilesAlone(ss[k + 1], c.cur))
  {
    var s, m, c := ss[k], ms[k], ss[k].calls[w];
    RunInv(ss, ms, k);
    RunCallOk(ss, ms, k, w);
    RunSeparated(ss, ms, k, w);
    assert ss[k + 1] == Apply(s, m);
    if c.flags.fs { FilesSwapKeepsFs(s, m); }
    if c.flags.files { if c.newFiles.None? { KeepsFiles(s, m); } else { FilesSwap(s, m); } }
  }

  // A whole unshare, from its start to the moment both pointers are in place,
  // with any other calls in between: for what it asked for, or what that implies,
  // the caller is the only task left with its object; what it did not ask for it
  // still has; and nothing else of it has changed.
  lemma {:induction false} UnshareSeparates(ss: seq<State>, ms: seq<Move>, i: nat, k: nat, w: nat)
    requires IsRun(ss, ms) && k < |ms| && Going(ss, ms, i, k, w)
    requires ms[k].UStep? && ms[k].w == w && ss[k].calls[w].at == USwapFiles
    ensures ms[i].cur in ss[i].tasks && ms[i].cur in ss[k + 1].tasks
    ensures var cur, f := ms[i].cur, Widen(ms[i].flags); var was, me := ss[i].tasks[cur], ss[k + 1].tasks[cur];
      && (if f.fs then Sharers(ss[k + 1], Obj(FsKind, me.fs)) == {cur} else me.fs == was.fs)
      && (me.files.Some? <==> was.files.Some?)
      && (if f.files then me.files.Some? ==> Sharers(ss[k + 1], Obj(FilesKind, me.files.value)) == {cur}
          else me.files == was.files)
      && me == was.(fs := me.fs, files := me.files)
  {
    var cur := ms[i].cur;
    DoingStart(ss, ms, i, k, w);
    LastSwap(ss, ms, k, w);
    MoveFrame(ss[k], ms[k]);
    var f, s' := Widen(ms[i].flags), ss[k + 1];
    if f.fs { AloneSharers(s', cur, Obj(FsKind, s'.tasks[cur].fs)); }
    if f.files && s'.tasks[cur].files.Some? { AloneSharers(s', cur, Obj(FilesKind, s'.tasks[cur].files.value)); }
  }

  // As long as it has not got past its first swap, an unshare has changed nothing
  // of its caller; so one that fails leaves the caller as it was.
  lemma {:induction false} FailedUnshareKeeps(ss: seq<State>, ms: seq<Move>, i: nat, j: nat, w: nat)
    requires IsRun(ss, ms) && Going(ss, ms, i, j, w) && forall q :: i < q <= j ==> ss[q].calls[w].at != USwapFiles
    ensures ms[i].cur in ss[i].tasks && ms[i].cur in ss[j].tasks
    ensures ss[j].calls[w].cur == ms[i].cur && ss[j].tasks[ms[i].cur] == ss[i].tasks[ms[i].cur]
    decreases j
  {
    if j == i + 1 {
      DoingNow(ss[i], ms[i]);
    } else {
      FailedUnshareKeeps(ss, ms, i, j - 1, w);
      NoSwapNext(ss, ms, j - 1, w);
    }
  }

  lemma {:induction false} NoSwapNext(ss: seq<State>, ms: seq<Move>, k: nat, w: nat)
    requires IsRun(ss, ms) && k < |ms| && w < |ss[k].calls| && ss[k].calls[w].Unshare?
    requires ss[k].calls[w].cur in ss[k].tasks
    requires w < |ss[k + 1].calls| && ss[k + 1].calls[w].Unshare?
    requires ss[k].calls[w].at != USwapFiles && ss[k + 1].calls[w].at != USwapFiles
    ensures ss[k + 1].calls[w].cur == ss[k].calls[w].cur && ss[k].calls[w].cur in ss[k + 1].tasks
    ensures ss[k + 1].tasks[ss[k].calls[w].cur] == ss[k].tasks[ss[k].calls[w].cur]
  {
    RunCalls(ss, ms, k);
    assert ss[k + 1] == Apply(ss[k], ms[k]);
    NoSwapMove(ss[k], ms[k], w);
  }

  lemma {:induction false} NoSwapMove(s: State, m: Move, w: nat)
    requires CallInv(s) && Enabled(s, m) && w < |s.calls| && s.calls[w].Unshare? && s.calls[w].cur in s.tasks
    requires w < |Apply(s, m).calls| && Apply(s, m).calls[w].Unshare?
    requires s.calls[w].at != USwapFiles && Apply(s, m).calls[w].at != USwapFiles
    ensures Apply(s, m).calls[w].cur == s.calls[w].cur && s.calls[w].cur in Apply(s, m).tasks
    ensures Apply(s, m).tasks[s.calls[w].cur] == s.tasks[s.calls[w].cur]
  {
    var c := s.calls[w];
    assert CallOk(s, s.calls[m.w]);
    MoveFrame(s, m);
    if m.w != w {
      assert Busy(c, c.cur) && !Busy(s.calls[m.w], c.cur);
      SameTask(s, m, c.cur);
    }
  }

  // The check copies exactly what is shared: with the flag, and unless the copy
  // fails, the call makes a new fs_struct if somebody else has the caller's, and a
  // new files_struct likewise.
  lemma {:induction false} CopiesWhenShared(ss: seq<State>, ms: seq<Move>, k: nat, w: nat)
    requires IsRun(ss, ms) && k < |ms| && ms[k].UStep? && ms[k].w == w && ms[k].ok
    requires w < |ss[k].calls| && ss[k].calls[w].Unshare? && ss[k].calls[w].cur in ss[k].tasks
    ensures w < |ss[k + 1].calls|
    ensures var c, c', me := ss[k].calls[w], ss[k + 1].calls[w], ss[k].tasks[ss[k].calls[w].cur];
      && (c.at == UFs ==>
            && c'.Unshare? && c'.at == UFd
            && (c'.newFs.Some? <==> c.flags.fs && Holders(ss[k], Obj(FsKind, me.fs)) != {TaskHolder(c.cur)}))
      && (c.at == UFd ==>
            && c'.Unshare? && c'.at == UNamespaces
            && (c'.newFiles.Some? <==> c.flags.files && OthersHaveFiles(ss[k], c.cur)))
  {
    var s, c := ss[k], ss[k].calls[w];
    var me := s.tasks[c.cur];
    RunCallOk(ss, ms, k, w);
    UnshareFrame(s, w, true, ms[k].id);
    assert ss[k + 1] == Apply(s, ms[k]);
    RunCount(ss, ms, k, Obj(FsKind, me.fs));
    CountOfOne(s, c.cur, Obj(FsKind, me.fs));
    if me.files.Some? {
      RunCount(ss, ms, k, Obj(FilesKind, me.files.value));
      CountOfOne(s, c.cur, Obj(FilesKind, me.files.value));
    }
  }

  ghost predicate OthersHaveFiles(s: State, t: nat)
  {
    && t in s.tasks && s.tasks[t].files.Some?
    && Holders(s, Obj(FilesKind, s.tasks[t].files.value)) != {TaskHolder(t)}
  }

  lemma {:induction false} CountOfOne(s: State, t: nat, o: Obj)
    requires CountOk(s, o) && t in s.tasks && Points(s.tasks[t], o)
    ensures Count(s, o) >= 1 && (Count(s, o) == 1 <==> Holders(s, o) == {TaskHolder(t)})
  {
    assert TaskHolder(t) in Holders(s, o);
    NotEmpty(Holders(s, o), TaskHolder(t));
  }

  // ---------------------------------------------------------------- and it can be done

  predicate Unsharing(s: State, w: nat, cur: nat, at: UnshareStep)
  {
    w < |s.calls| && s.calls[w].Unshare? && s.calls[w].at == at && s.calls[w].cur == cur && cur in s.tasks
  }

  // Only the task `cur` is different.
  predicate OnlyOne(s: State, s': State, cur: nat)
  {
    s'.tasks.Keys == s.tasks.Keys && forall t :: t in s.tasks && t != cur ==> s'.tasks[t] == s.tasks[t]
  }

  lemma {:induction false} OnlyOneOn(s: State, s1: State, s2: State, cur: nat)
    requires OnlyOne(s, s1, cur) && OnlyOne(s1, s2, cur)
    ensures OnlyOne(s, s2, cur)
  {
  }

  // The step after this one when everything goes well.
  function NextAt(at: UnshareStep): UnshareStep
  {
    match at
    case UFs => UFd
    case UFd => UNamespaces
    case UNamespaces => USwapFs
    case USwapFs => USwapFiles
    case _ => UPutFiles
  }

  lemma {:induction false} GoodUStep(s: State, w: nat, cur: nat, at: UnshareStep) returns (m: Move)
    requires Unsharing(s, w, cur, at) && (BeforeFsSwap(at) || at == USwapFiles)
    ensures m.UStep? && m.w == w && Enabled(s, m) && Unsharing(Apply(s, m), w, cur, NextAt(at))
    ensures OnlyOne(s, Apply(s, m), cur)
  {
    var id := FreeName(s);
    m := UStep(w, true, id);
    UnshareFrame(s, w, true, id);
  }

  // One step more of an unshare that goes well.
  lemma {:induction false} NextUnshare(r: Run, i: nat, w: nat, cur: nat, at: UnshareStep) returns (r': Run)
    requires Valid(r) && Going(r.ss, r.ms, i, |r.ms|, w) && Unsharing(Now(r), w, cur, at)
    requires BeforeFsSwap(at) || at == USwapFiles
    ensures Valid(r') && Continues(r, r', w) && |r'.ms| == |r.ms| + 1 && r'.ms[|r.ms|].UStep?
    ensures Going(r'.ss, r'.ms, i, |r'.ms|, w) && Unsharing(Now(r'), w, cur, NextAt(at))
    ensures OnlyOne(Now(r), Now(r'), cur)
  {
    var m := GoodUStep(Now(r), w, cur, at);
    r' := ContinuesBy(r, m);
    StillGoing(r, r', i, w);
  }

  lemma {:induction false} StillGoing(r: Run, r': Run, i: nat, w: nat)
    requires |r.ss| == |r.ms| + 1 && Going(r.ss, r.ms, i, |r.ms|, w)
    requires |r'.ss| == |r.ss| + 1 && r'.ss[..|r.ss|] == r.ss && |r'.ms| == |r.ms| + 1 && r'.ms[..|r.ms|] == r.ms
    requires w < |r'.ss[|r.ss|].calls| && r'.ss[|r.ss|].calls[w].Unshare?
    ensures Going(r'.ss, r'.ms, i, |r'.ms|, w)
  {
    assert r'.ms[i] == r'.ms[..|r.ms|][i];
    forall q | i < q <= |r'.ms| ensures w < |r'.ss[q].calls| && r'.ss[q].calls[w].Unshare? {
      if q < |r.ss| { assert r'.ss[q] == r'.ss[..|r.ss|][q] == r.ss[q]; }
    }
  }

  lemma {:induction false} ReachSwap(r: Run, i: nat, w: nat, cur: nat, at: UnshareStep) returns (r': Run)
    requires Valid(r) && Going(r.ss, r.ms, i, |r.ms|, w) && Unsharing(Now(r), w, cur, at)
    requires BeforeFsSwap(at) || at == USwapFiles
    ensures Valid(r') && Continues(r, r', w) && OnlyOne(Now(r), Now(r'), cur)
    ensures Going(r'.ss, r'.ms, i, |r'.ms|, w) && Unsharing(Now(r'), w, cur, USwapFiles)
    decreases UnshareNo(at)
  {
    r' := r;
    if at != USwapFiles {
      var r1 := NextUnshare(r, i, w, cur, at);
      r' := ReachSwap(r1, i, w, cur, NextAt(at));
      ContinuesOn(r, r1, r', w);
      OnlyOneOn(Now(r), Now(r1), Now(r'), cur);
    }
  }

  // Task t is the only one with its fs_struct, or its files_struct, as asked.
  ghost predicate Separate(s: State, t: nat, f: Flags)
  {
    && t in s.tasks
    && (f.fs ==> Sharers(s, Obj(FsKind, s.tasks[t].fs)) == {t})
    && (f.files && s.tasks[t].files.Some? ==> Sharers(s, Obj(FilesKind, s.tasks[t].files.value)) == {t})
  }

  // From any state of any run, an unshare that can start can be carried to both
  // swaps by its own steps.
  lemma {:induction false} UnshareCanFinish(r: Run, w: nat, cur: nat, f: Flags) returns (r': Run)
    requires Valid(r) && w < |Now(r).calls| && AtRest(Now(r).calls[w]) && cur in Now(r).tasks
    requires forall u :: 0 <= u < |Now(r).calls| ==> !Busy(Now(r).calls[u], cur)
    ensures Valid(r') && Continues(r, r', w) && OnlyOne(Now(r), Now(r'), cur) && Separate(Now(r'), cur, Widen(f))
  {
    var m := StartUnshare(w, cur, f);
    var r1 := ContinuesBy(r, m);
    assert r1.ms[|r.ms|] == m;
    var r2 := ReachSwap(r1, |r.ms|, w, cur, UFs);
    assert r2.ms[|r.ms|] == r2.ms[..|r1.ms|][|r.ms|] == m;
    r' := LastUnshare(r2, |r.ms|, w, cur);
    ContinuesOn(r, r1, r2, w);
    ContinuesOn(r, r2, r', w);
    OnlyOneOn(Now(r1), Now(r2), Now(r'), cur);
  }

  lemma {:induction false} LastUnshare(r: Run, i: nat, w: nat, cur: nat) returns (r': Run)
    requires Valid(r) && Going(r.ss, r.ms, i, |r.ms|, w) && Unsharing(Now(r), w, cur, USwapFiles)
    requires r.ms[i].cur == cur
    ensures Valid(r') && Continues(r, r', w) && OnlyOne(Now(r), Now(r'), cur)
    ensures Separate(Now(r'), cur, Widen(r.ms[i].flags))
  {
    var m := GoodUStep(Now(r), w, cur, USwapFiles);
    r' := ContinuesBy(r, m);
    StillGoing(r, r', i, w);
    UnshareSeparates(r'.ss, r'.ms, i, |r.ms|, w);
  }

  // Two tasks have one fs_struct and one files_struct, or neither.
  predicate Together(s: State, t: nat, u: nat)
  {
    && t in s.tasks && u in s.tasks && s.tasks[t].files.Some?
    && s.tasks[u].fs == s.tasks[t].fs && s.tasks[u].files == s.tasks[t].files
  }

  predicate Apart(s: State, t: nat, u: nat)
  {
    t in s.tasks && u in s.tasks && s.tasks[u].fs != s.tasks[t].fs && s.tasks[u].files != s.tasks[t].files
  }

  lemma {:induction false} SeparateIsApart(s: State, t: nat, u: nat, f: Flags)
    requires Separate(s, t, f) && f.fs && f.files && u in s.tasks && u != t && s.tasks[u].files.Some?
    ensures Apart(s, t, u)
  {
    assert u in Sharers(s, Obj(FsKind, s.tasks[t].fs)) <==> Points(s.tasks[u], Obj(FsKind, s.tasks[t].fs));
    if s.tasks[t].files.Some? {
      var o := Obj(FilesKind, s.tasks[t].files.value);
      assert u in Sharers(s, o) <==> Points(s.tasks[u], o);
    }
  }

  // A clone with CLONE_FS and CLONE_FILES, and then the parent's unshare.
  lemma {:induction false} ShareThenSeparate(r: Run, w: nat, cur: nat) returns (r1: Run, r2: Run, t: nat)
    requires Valid(r) && AllIdle(Now(r)) && w < |Now(r).calls| && cur in Now(r).tasks && Now(r).tasks[cur].files.Some?
    ensures Valid(r1) && Valid(r2) && Continues(r, r1, w) && Continues(r1, r2, w)
    ensures t != cur && Together(Now(r1), cur, t) && Apart(Now(r2), cur, t)
  {
    var f := Plain().(fs := true, files := true);
    r1, t := CloneCanFinish(r, w, cur, f, Caller(false, false, false));
    r2 := UnshareCanFinish(r1, w, cur, f);
    SeparateIsApart(Now(r2), cur, t, Widen(f));
  }

  // From boot: a child that shares its parent's fs_struct and files_struct, and
  // then no longer does because the parent called unshare.
  lemma {:induction false} UnshareCanSeparate(calls: nat) returns (ss: seq<State>, ms: seq<Move>, j: nat, t: nat)
    requires calls > 0
    ensures IsRun(ss, ms) && ss[0] == Boot(calls) && j < |ss| && t != 1
    ensures Together(ss[j], 1, t) && Apart(ss[|ms|], 1, t)
  {
    var r := Begin(Boot(calls));
    var r1, r2;
    BootFiles(Now(r));
    r1, r2, t := ShareThenSeparate(r, 0, 1);
    j := |r1.ms|;
    assert r2.ss[0] == r2.ss[..|r1.ss|][0] == r1.ss[..|r.ss|][0];
    assert r2.ss[j] == r2.ss[..|r1.ss|][j];
    return r2.ss, r2.ms, j, t;
  }

  lemma {:induction false} BootFiles(s: State)
    requires s == Boot(|s.calls|)
    ensures 1 in s.tasks && s.tasks[1].files.Some?
  {
  }
}
