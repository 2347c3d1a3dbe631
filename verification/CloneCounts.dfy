// Every step keeps each count equal to the number of holders.

module CloneCounts {
  import opened Wrappers
  import opened CloneModel
  import opened CloneInv

  predicate SomeTaskPoints(s: State, o: Obj, t: nat)
  {
    t in s.tasks && Points(s.tasks[t], o)
  }

  // How a step of call w that changes no task may treat object o: not at all;
  // take a reference to a new object or to one some task has; or drop one,
  // freeing the object with the last.
  ghost predicate Delta(s: State, s': State, w: nat, o: Obj)
    requires w < |s.calls| == |s'.calls|
  {
    var c := s.calls[w];
    var c' := s'.calls[w];
    if Holds(c, o) == Holds(c', o) then
      (o in s'.counts <==> o in s.counts) && Count(s', o) == Count(s, o) && (PrivateTo(c', o) ==> PrivateTo(c, o))
    else if Holds(c', o) then
      && o in s'.counts && Count(s', o) == Count(s, o) + 1
      && (o !in s.counts || ((exists t :: SomeTaskPoints(s, o, t)) && !PrivateTo(c', o)))
    else
      Count(s', o) == Count(s, o) - 1 && (o in s'.counts <==> Count(s, o) > 1)
  }

  lemma {:induction false} DeltaKeepsCount(s: State, s': State, w: nat, o: Obj)
    requires CountInv(s) && OnlyCall(s, s', w) && Delta(s, s', w, o)
    requires Dooms(s'.calls[w], o) == Dooms(s.calls[w], o)
    ensures CountOk(s', o)
  {
    HoldersOfCall(s, s', w, o);
    assert CountOk(s, o);
    assert Doomed(s', o) <==> Doomed(s, o) by { DoomedSame(s, s', w, o); }
    SizeRemove(Holders(s, o), CallHolder(w));
    SizeAdd(Holders(s, o) - {CallHolder(w)}, CallHolder(w));
    if Holds(s.calls[w], o) { NotEmpty(Holders(s, o), CallHolder(w)); }
    if Holds(s'.calls[w], o) && !Holds(s.calls[w], o) && o in s.counts {
      var t :| SomeTaskPoints(s, o, t);
      assert TaskHolder(t) in Holders(s, o);
    }
    if Holders(s', o) != {} && !Holds(s'.calls[w], o) { var h :| h in Holders(s', o); NotEmpty(Holders(s', o), h); }
  }

  lemma {:induction false} DoomedSame(s: State, s': State, w: nat, o: Obj)
    requires OnlyCall(s, s', w) && Dooms(s'.calls[w], o) == Dooms(s.calls[w], o)
    ensures Doomed(s', o) <==> Doomed(s, o)
  {
    if Doomed(s, o) {
      var u :| 0 <= u < |s.calls| && Dooms(s.calls[u], o);
      assert Dooms(s'.calls[u], o);
    }
    if Doomed(s', o) {
      var u :| 0 <= u < |s'.calls| && Dooms(s'.calls[u], o);
      assert Dooms(s.calls[u], o);
    }
  }

  lemma {:induction false} DeltaKeepsPrivate(s: State, s': State, w: nat, u: nat, o: Obj)
    requires CountInv(s) && OnlyCall(s, s', w) && Delta(s, s', w, o)
    requires u < |s'.calls| && PrivateTo(s'.calls[u], o)
    ensures Holders(s', o) == {CallHolder(u)}
  {
    assert CountOk(s, o);
    assert u == w ==> (PrivateTo(s.calls[w], o) ==> Holders(s, o) == {CallHolder(w)});
    assert u != w ==> Holders(s, o) == {CallHolder(u)};
    if u == w { OwnDelta(s, s', w, o); } else { OthersDelta(s, s', w, u, o); }
  }

  lemma {:induction false} OwnDelta(s: State, s': State, w: nat, o: Obj)
    requires CountOk(s, o) && OnlyCall(s, s', w) && Delta(s, s', w, o) && PrivateTo(s'.calls[w], o)
    requires PrivateTo(s.calls[w], o) ==> Holders(s, o) == {CallHolder(w)}
    ensures Holders(s', o) == {CallHolder(w)}
  {
    HoldersOfCall(s, s', w, o);
    if !PrivateTo(s.calls[w], o) { assert Holders(s, o) == {}; }
  }

  lemma {:induction false} OthersDelta(s: State, s': State, w: nat, u: nat, o: Obj)
    requires CountOk(s, o) && OnlyCall(s, s', w) && Delta(s, s', w, o) && u != w && Holders(s, o) == {CallHolder(u)}
    ensures Holders(s', o) == {CallHolder(u)}
  {
    HoldersOfCall(s, s', w, o);
    assert o in s.counts;
    assert forall t :: SomeTaskPoints(s, o, t) ==> TaskHolder(t) in Holders(s, o);
  }

  // A step that treats every object so keeps the whole count invariant.
  lemma {:induction false} DeltaKeepsCountInv(s: State, s': State, w: nat)
    requires CountInv(s) && OnlyCall(s, s', w)
    requires forall o :: Delta(s, s', w, o) && Dooms(s'.calls[w], o) == Dooms(s.calls[w], o)
    requires forall x :: SignalOk(s', x)
    ensures CountInv(s')
  {
    forall o ensures CountOk(s', o) { DeltaKeepsCount(s, s', w, o); }
    forall u, o | 0 <= u < |s'.calls| && PrivateTo(s'.calls[u], o) ensures Holders(s', o) == {CallHolder(u)} {
      DeltaKeepsPrivate(s, s', w, u, o);
    }
    forall u, v, o | 0 <= u < |s'.calls| && 0 <= v < |s'.calls| && Dooms(s'.calls[u], o) && Dooms(s'.calls[v], o)
      ensures u == v
    {
      assert Dooms(s.calls[u], o) && Dooms(s.calls[v], o);
    }
  }

  // ---------------------------------------------------------------- stages of a clone

  predicate TakesReference(stage: Stage)
  {
    stage == AtFiles || stage == AtFs || stage == AtSighand || stage == AtSignal || stage == AtMm
  }

  // No reference is taken or dropped between two builds.
  predicate SameReferences(b: Build, level: nat, b': Build, level': nat)
  {
    && b'.flags == b.flags
    && (level < Rank(CleanupFiles) <==> level' < Rank(CleanupFiles))
    && (level >= Rank(CleanupFiles) ==>
          && (level < Rank(CleanupFs) <==> level' < Rank(CleanupFs))
          && (level < Rank(CleanupSighand) <==> level' < Rank(CleanupSighand))
          && (level < Rank(CleanupSignal) <==> level' < Rank(CleanupSignal))
          && (level < Rank(CleanupMm) <==> level' < Rank(CleanupMm))
          && b'.p.files == b.p.files && b'.p.fs == b.p.fs && b'.p.sighand == b.p.sighand && b'.p.signal == b.p.signal
              && b'.p.mm == b.p.mm)
  }

  lemma {:induction false} QuietAdvance(b: Build, stage: Stage, me: Task, id: nat, kv: KvResult)
    requires !TakesReference(stage) && stage != AtPublish
    ensures var r := Advance(b, stage, me, id, kv);
      SameReferences(b, Rank(OnError(stage)), r.b, Rank(OnError(r.next)))
  {
    var r := Advance(b, stage, me, id, kv);
    if Rank(OnError(stage)) < Rank(CleanupFiles) {
      EarlyAdvance(b, stage, me, id, kv);
    } else {
      LateAdvance(b, stage, me, id, kv);
      AllHeld(b, Rank(OnError(stage)), r.b, Rank(OnError(r.next)));
    }
  }

  lemma {:induction false} AllHeld(b: Build, level: nat, b': Build, level': nat)
    requires b'.flags == b.flags && level >= Rank(CleanupMm) && level' >= Rank(CleanupMm)
    requires b'.p.files == b.p.files && b'.p.fs == b.p.fs && b'.p.sighand == b.p.sighand && b'.p.signal == b.p.signal
    requires b'.p.mm == b.p.mm
    ensures SameReferences(b, level, b', level')
  {
  }

  lemma {:induction false} EarlyAdvance(b: Build, stage: Stage, me: Task, id: nat, kv: KvResult)
    requires !TakesReference(stage) && stage != AtPublish && Rank(OnError(stage)) < Rank(CleanupFiles)
    ensures var r := Advance(b, stage, me, id, kv); r.b.flags == b.flags && Rank(OnError(r.next)) < Rank(CleanupFiles)
  {
    LowLevels(stage);
    LowLevels(After(stage, b.flags.pidfd));
    AfterNo(stage, b.flags.pidfd);
    if StageNo(stage) == StageNo(AtFiles) { SameNo(stage, AtFiles); }
  }

  lemma {:induction false} LateAdvance(b: Build, stage: Stage, me: Task, id: nat, kv: KvResult)
    requires !TakesReference(stage) && stage != AtPublish && Rank(OnError(stage)) >= Rank(CleanupFiles)
    ensures Rank(OnError(stage)) >= Rank(CleanupMm)
    ensures var r := Advance(b, stage, me, id, kv);
      && r.b.flags == b.flags && Rank(OnError(r.next)) >= Rank(CleanupMm)
      && r.b.p.files == b.p.files && r.b.p.fs == b.p.fs && r.b.p.sighand == b.p.sighand && r.b.p.signal == b.p.signal
          && r.b.p.mm == b.p.mm
  {
    Levels(stage);
    HighLevels(After(stage, b.flags.pidfd));
    AfterNo(stage, b.flags.pidfd);
    NotBetween(stage);
  }

  lemma {:induction false} NotBetween(stage: Stage)
    requires !TakesReference(stage) && StageNo(stage) > StageNo(AtFiles)
    ensures StageNo(stage) > StageNo(AtMm)
  {
  }

  lemma {:induction false} QuietEffect(s: State, b: Build, stage: Stage, me: Task, id: nat, kv: KvResult)
    requires !TakesReference(stage)
    ensures var s' := Effect(s, b.flags, stage, me, id, kv);
      && s'.tasks == s.tasks && s'.calls == s.calls && s'.counts == s.counts && s'.live == s.live
          && s'.sigcnt == s.sigcnt
  {
  }

  lemma {:induction false} SameHolds(c: Call, c': Call, o: Obj)
    requires c.Clone? && c'.Clone? && SameReferences(c.b, Level(c), c'.b, Level(c'))
    ensures Holds(c', o) == Holds(c, o) && PrivateTo(c', o) == PrivateTo(c, o)
  {
  }

  lemma {:induction false} NothingTaken(s: State, s': State, w: nat)
    requires CountInv(s) && OnlyCall(s, s', w) && s'.counts == s.counts && s'.live == s.live && s'.sigcnt == s.sigcnt
    requires SameRefs(s.calls[w], s'.calls[w])
    ensures CountInv(s')
  {
    forall x ensures SignalOk(s', x) { assert SignalOk(s, x); }
    forall o ensures Delta(s, s', w, o) { }
    DeltaKeepsCountInv(s, s', w);
  }

  // The stages that touch no counted object.
  lemma {:induction false} QuietStage(s: State, w: nat, id: nat, kv: KvResult)
    requires CountInv(s) && Enabled(s, Step(w, true, id, kv))
    requires !TakesReference(s.calls[w].stage) && s.calls[w].stage != AtPublish
    ensures CountInv(StepOk(s, w, id, kv))
  {
    var c := s.calls[w];
    var s' := StepOk(s, w, id, kv);
    QuietAdvance(c.b, c.stage, s.tasks[c.b.cur], id, kv);
    QuietEffect(s, c.b, c.stage, s.tasks[c.b.cur], id, kv);
    forall o ensures Holds(s'.calls[w], o) == Holds(c, o) && PrivateTo(s'.calls[w], o) == PrivateTo(c, o) {
      SameHolds(c, s'.calls[w], o);
    }
    NothingTaken(s, s', w);
  }

  // The call holds o as well now, and nothing else changed.
  ghost predicate TakesRef(c: Call, c': Call, o: Obj)
  {
    && !Holds(c, o) && Holds(c', o)
    && (forall x :: x != o ==> Holds(c', x) == Holds(c, x) && (PrivateTo(c', x) ==> PrivateTo(c, x)))
    && (forall x :: Dooms(c', x) == Dooms(c, x))
  }

  // The call no longer holds o, and nothing else changed.
  ghost predicate DropsRef(c: Call, c': Call, o: Obj)
  {
    && Holds(c, o) && !Holds(c', o)
    && (forall x :: x != o ==> Holds(c', x) == Holds(c, x) && (PrivateTo(c', x) ==> PrivateTo(c, x)))
    && (forall x :: Dooms(c', x) == Dooms(c, x))
  }

  // The call holds what it held.
  ghost predicate SameRefs(c: Call, c': Call)
  {
    && (forall x :: Holds(c', x) == Holds(c, x) && (PrivateTo(c', x) ==> PrivateTo(c, x)))
    && (forall x :: Dooms(c', x) == Dooms(c, x))
  }

  // Call w takes a reference to o, new or some task's.
  lemma {:induction false} TakesOne(s: State, s': State, w: nat, o: Obj)
    requires CountInv(s) && OnlyCall(s, s', w)
    requires s'.counts == s.counts[o := Count(s, o) + 1]
    requires TakesRef(s.calls[w], s'.calls[w], o)
    requires o !in s.counts || ((exists t :: SomeTaskPoints(s, o, t)) && !PrivateTo(s'.calls[w], o))
    requires forall x :: SignalOk(s', x)
    ensures CountInv(s')
  {
    forall x ensures Delta(s, s', w, x) { }
    DeltaKeepsCountInv(s, s', w);
  }

  // Call w drops its reference to o.
  lemma {:induction false} DropsOne(s: State, s': State, w: nat, o: Obj)
    requires CountInv(s) && OnlyCall(s, s', w)
    requires s'.counts == Put(s.counts, o)
    requires DropsRef(s.calls[w], s'.calls[w], o)
    requires forall x :: SignalOk(s', x)
    ensures CountInv(s')
  {
    HeldIsCounted(s, w, o);
    forall x ensures Delta(s, s', w, x) { }
    DeltaKeepsCountInv(s, s', w);
  }

  lemma {:induction false} HeldIsCounted(s: State, w: nat, o: Obj)
    requires CountInv(s) && w < |s.calls| && Holds(s.calls[w], o)
    ensures o in s.counts && Count(s, o) >= 1
  {
    assert CallHolder(w) in Holders(s, o);
    NotEmpty(Holders(s, o), CallHolder(w));
    assert CountOk(s, o);
  }

  lemma {:induction false} SharedSignalsSame(s: State, s': State)
    requires CountInv(s) && s'.live == s.live && s'.sigcnt == s.sigcnt
    requires forall x :: Obj(SignalKind, x) in s'.counts <==> Obj(SignalKind, x) in s.counts
    requires forall x :: Obj(SignalKind, x) in s.counts ==>
      s'.counts[Obj(SignalKind, x)] == s.counts[Obj(SignalKind, x)]
    ensures forall x :: SignalOk(s', x)
  {
    forall x ensures SignalOk(s', x) { assert SignalOk(s, x); }
  }

  // The stage's effect on what the call holds.
  lemma {:induction false} FilesRef(c: Call, c': Call)
    requires c.Clone? && c.stage == AtFiles && c'.Clone? && c'.stage == AtFs
    requires c'.b.flags == c.b.flags
    ensures c'.b.p.files.Some? ==> TakesRef(c, c', Obj(FilesKind, c'.b.p.files.value))
    ensures c'.b.p.files.None? ==> SameRefs(c, c')
  {
  }

  lemma {:induction false} FsRef(c: Call, c': Call)
    requires c.Clone? && c.stage == AtFs && c'.Clone? && c'.stage == AtSighand
    requires c'.b.p == c.b.p.(fs := c'.b.p.fs)
    ensures TakesRef(c, c', Obj(FsKind, c'.b.p.fs))
  {
  }

  lemma {:induction false} SighandRef(c: Call, c': Call)
    requires c.Clone? && c.stage == AtSighand && c'.Clone? && c'.stage == AtSignal
    requires c'.b.p == c.b.p.(sighand := c'.b.p.sighand)
    ensures TakesRef(c, c', Obj(SighandKind, c'.b.p.sighand))
  {
  }

  lemma {:induction false} SignalRef(c: Call, c': Call)
    requires c.Clone? && c.stage == AtSignal && c'.Clone? && c'.stage == AtMm
    requires c'.b.p == c.b.p.(signal := c'.b.p.signal) && c'.b.flags == c.b.flags
    ensures !c.b.flags.thread ==> TakesRef(c, c', Obj(SignalKind, c'.b.p.signal))
    ensures c.b.flags.thread ==> SameRefs(c, c')
  {
  }

  lemma {:induction false} MmRef(c: Call, c': Call)
    requires c.Clone? && c.stage == AtMm && c'.Clone? && c'.stage == AtNamespaces
    requires c'.b.p == c.b.p.(mm := c'.b.p.mm) && c'.b.flags == c.b.flags
    ensures c'.b.p.mm.Some? ==> TakesRef(c, c', Obj(MmKind, c'.b.p.mm.value))
    ensures c'.b.p.mm.None? ==> SameRefs(c, c')
  {
  }

  lemma {:induction false} FilesStage(s: State, w: nat, id: nat, kv: KvResult)
    requires CountInv(s) && Enabled(s, Step(w, true, id, kv)) && s.calls[w].stage == AtFiles
    requires s.calls[w].b.p.files == s.tasks[s.calls[w].b.cur].files
    ensures CountInv(StepOk(s, w, id, kv))
  {
    var s' := StepOk(s, w, id, kv);
    var b := s.calls[w].b;
    FilesRef(s.calls[w], s'.calls[w]);
    if s.tasks[b.cur].files.None? {
      NothingTaken(s, s', w);
    } else {
      var o := Obj(FilesKind, s'.calls[w].b.p.files.value);
      TakesShared(s, s', w, o);
    }
  }

  // A stage that shares the caller's object o, or makes it.
  lemma {:induction false} TakesShared(s: State, s': State, w: nat, o: Obj)
    requires CountInv(s) && OnlyCall(s, s', w) && s.calls[w].Clone? && s'.calls[w].Clone? && o.kind != SignalKind
    requires s'.counts == s.counts[o := Count(s, o) + 1] && s'.live == s.live && s'.sigcnt == s.sigcnt
    requires TakesRef(s.calls[w], s'.calls[w], o)
    requires o !in s.counts || SomeTaskPoints(s, o, s.calls[w].b.cur)
    ensures CountInv(s')
  {
    SharedSignalsSame(s, s');
    TakesOne(s, s', w, o);
  }

  lemma {:induction false} FsStage(s: State, w: nat, id: nat, kv: KvResult)
    requires CountInv(s) && Enabled(s, Step(w, true, id, kv)) && s.calls[w].stage == AtFs
    ensures CountInv(StepOk(s, w, id, kv))
  {
    var s' := StepOk(s, w, id, kv);
    FsRef(s.calls[w], s'.calls[w]);
    TakesShared(s, s', w, Obj(FsKind, s'.calls[w].b.p.fs));
  }

  lemma {:induction false} SighandStage(s: State, w: nat, id: nat, kv: KvResult)
    requires CountInv(s) && Enabled(s, Step(w, true, id, kv)) && s.calls[w].stage == AtSighand
    ensures CountInv(StepOk(s, w, id, kv))
  {
    var s' := StepOk(s, w, id, kv);
    SighandRef(s.calls[w], s'.calls[w]);
    TakesShared(s, s', w, Obj(SighandKind, s'.calls[w].b.p.sighand));
  }

  lemma {:induction false} SignalStage(s: State, w: nat, id: nat, kv: KvResult)
    requires CountInv(s) && Enabled(s, Step(w, true, id, kv)) && s.calls[w].stage == AtSignal
    ensures CountInv(StepOk(s, w, id, kv))
  {
    var s' := StepOk(s, w, id, kv);
    SignalRef(s.calls[w], s'.calls[w]);
    if s.calls[w].b.flags.thread {
      NothingTaken(s, s', w);
    } else {
      forall x ensures SignalOk(s', x) { assert SignalOk(s, x); }
      TakesOne(s, s', w, Obj(SignalKind, id));
    }
  }

  lemma {:induction false} MmStage(s: State, w: nat, id: nat, kv: KvResult)
    requires CountInv(s) && Enabled(s, Step(w, true, id, kv)) && s.calls[w].stage == AtMm
    ensures CountInv(StepOk(s, w, id, kv))
  {
    var s' := StepOk(s, w, id, kv);
    MmRef(s.calls[w], s'.calls[w]);
    if s.tasks[s.calls[w].b.cur].mm.None? {
      NothingTaken(s, s', w);
    } else {
      TakesShared(s, s', w, Obj(MmKind, s'.calls[w].b.p.mm.value));
    }
  }

  lemma {:induction false} FailingStage(s: State, w: nat)
    requires CountInv(s) && w < |s.calls| && s.calls[w].Clone?
    ensures CountInv(StepFails(s, w))
  {
    NothingTaken(s, StepFails(s, w), w);
  }

  // ---------------------------------------------------------------- labels

  function RefOf(l: Label, b: Build): Option<Obj>
  {
    match l
    case CleanupFiles => if b.p.files.Some? then Some(Obj(FilesKind, b.p.files.value)) else None
    case CleanupFs => Some(Obj(FsKind, b.p.fs))
    case CleanupSighand => Some(Obj(SighandKind, b.p.sighand))
    case CleanupSignal => if b.flags.thread then None else Some(Obj(SignalKind, b.p.signal))
    case CleanupMm => if b.p.mm.Some? then Some(Obj(MmKind, b.p.mm.value)) else None
    case _ => None
  }

  lemma {:induction false} LabelRef(c: Call, c': Call)
    requires c.Unwind?
    requires if c.label_ == ForkOut then c'.Failed? else c'.Unwind? && c'.b == c.b && c'.label_ == Below(c.label_)
    ensures match RefOf(c.label_, c.b) case Some(o) => DropsRef(c, c', o) case None => SameRefs(c, c')
  {
    forall x ensures Holds(c', x) == (Holds(c, x) && RefOf(c.label_, c.b) != Some(x)) { LabelHolds(c, c', x); }
    var r := RefOf(c.label_, c.b);
    if r.Some? { LabelHolds(c, c', r.value); }
  }

  lemma {:induction false} LabelHolds(c: Call, c': Call, x: Obj)
    requires c.Unwind?
    requires if c.label_ == ForkOut then c'.Failed? else c'.Unwind? && c'.b == c.b && c'.label_ == Below(c.label_)
    ensures Holds(c', x) == (Holds(c, x) && RefOf(c.label_, c.b) != Some(x))
    ensures RefOf(c.label_, c.b) == Some(x) ==> Holds(c, x)
  {
  }

  lemma {:induction false} LabelEntries(m: Counts, l: Label, b: Build)
    requires l != CleanupSignal || b.flags.thread
    ensures var r := RefOf(l, b); LabelCounts(m, l, b) == if r.Some? then Put(m, r.value) else m
  {
  }

  lemma {:induction false} LabelKeepsCounts(s: State, w: nat)
    requires CountInv(s) && Enabled(s, Fall(w))
    ensures CountInv(FallThrough(s, w))
  {
    var s' := FallThrough(s, w);
    var c := s.calls[w];
    LabelRef(c, s'.calls[w]);
    if c.label_ == CleanupSignal && !c.b.flags.thread {
      SignalLabel(s, w);
    } else {
      LabelEntries(s.counts, c.label_, c.b);
      DropsIfAny(s, s', w, RefOf(c.label_, c.b));
    }
  }

  lemma {:induction false} DropsIfAny(s: State, s': State, w: nat, r: Option<Obj>)
    requires CountInv(s) && OnlyCall(s, s', w) && s'.live == s.live && s'.sigcnt == s.sigcnt
    requires s'.counts == if r.Some? then Put(s.counts, r.value) else s.counts
    requires r.Some? ==> r.value.kind != SignalKind && DropsRef(s.calls[w], s'.calls[w], r.value)
    requires r.None? ==> SameRefs(s.calls[w], s'.calls[w])
    ensures CountInv(s')
  {
    if r.None? {
      NothingTaken(s, s', w);
    } else {
      SharedSignalsSame(s, s');
      DropsOne(s, s', w, r.value);
    }
  }

  // free_signal_struct frees at once: the new signal_struct is nobody else's.
  lemma {:induction false} SignalLabel(s: State, w: nat)
    requires CountInv(s) && Enabled(s, Fall(w)) && s.calls[w].label_ == CleanupSignal && !s.calls[w].b.flags.thread
    ensures CountInv(FallThrough(s, w))
  {
    var s' := FallThrough(s, w);
    var o := Obj(SignalKind, s.calls[w].b.p.signal);
    LabelRef(s.calls[w], s'.calls[w]);
    assert PrivateTo(s.calls[w], o);
    assert CountOk(s, o);
    forall x ensures SignalOk(s', x) { assert SignalOk(s, x); }
    DropsOne(s, s', w, o);
  }

  // ---------------------------------------------------------------- the new task becomes visible

  lemma {:induction false} HoldersOfPublish(s: State, s': State, w: nat, nr: nat, p: Task, o: Obj)
    requires w < |s.calls| && nr !in s.tasks && s'.tasks == s.tasks[nr := p] && s'.calls == s.calls[w := Idle]
    ensures Holders(s', o) == (Holders(s, o) - {CallHolder(w)}) + (if Points(p, o) then {TaskHolder(nr)} else {})
    ensures CallHolder(w) in Holders(s, o) <==> Holds(s.calls[w], o)
    ensures TaskHolder(nr) !in Holders(s, o)
  {
  }

  // A half-built task that is ready to be shown points at exactly what its call holds,
  // and, for a thread, at the caller's signal_struct.
  lemma {:induction false} ReadyHolds(c: Call, o: Obj)
    requires c.Clone? && c.stage == AtPublish
    ensures Holds(c, o) <==> Points(c.b.p, o) && !(o.kind == SignalKind && c.b.flags.thread)
  {
  }

  // The reference of the call becomes the task's.
  lemma {:induction false} HandedOver(a: set<Holder>, a': set<Holder>, k: Holder, t: Holder, held: bool, points: bool)
    requires k != t && t !in a && (k in a <==> held) && (held ==> points)
    requires a' == (a - {k}) + (if points then {t} else {})
    ensures |a'| == |a| + if points && !held then 1 else 0
    ensures a' == {} <==> a == {} && !points
  {
    SizeRemove(a, k);
    SizeAdd(a - {k}, t);
    if points { assert t in a'; } else { assert a' == a; }
  }

  lemma {:induction false} PublishCount(s: State, s': State, w: nat, o: Obj)
    requires CountOk(s, o) && w < |s.calls| && s.calls[w].Clone? && s.calls[w].stage == AtPublish
    requires BuildOk(s, s.calls[w].b, Level(s.calls[w]))
    requires s'.tasks == s.tasks[s.calls[w].b.nr := s.calls[w].b.p] && s'.calls == s.calls[w := Idle]
    requires Counted(s, s', w, o)
    ensures CountOk(s', o)
  {
    PublishHolders(s, s', w, o);
    DoomedAfterPublish(s, s', w, o);
  }

  // The thread is one more holder of its group's signal_struct; of everything
  // else the task takes the call's place.
  lemma {:induction false} PublishHolders(s: State, s': State, w: nat, o: Obj)
    requires w < |s.calls| && s.calls[w].Clone? && s.calls[w].stage == AtPublish
    requires BuildOk(s, s.calls[w].b, Level(s.calls[w]))
    requires s'.tasks == s.tasks[s.calls[w].b.nr := s.calls[w].b.p] && s'.calls == s.calls[w := Idle]
    ensures Holders(s', o) == {} <==> Holders(s, o) == {}
    ensures var b := s.calls[w].b;
      |Holders(s', o)| == |Holders(s, o)|
      + if b.flags.thread && o == Obj(SignalKind, s.tasks[b.cur].signal) then 1 else 0
    ensures s.calls[w].b.flags.thread && o == Obj(SignalKind, s.tasks[s.calls[w].b.cur].signal) ==> Holders(s, o) != {}
  {
    var b := s.calls[w].b;
    ReadyGains(s, s.calls[w], o);
    HoldersOfPublish(s, s', w, b.nr, b.p, o);
    HandedOver(Holders(s, o), Holders(s', o), CallHolder(w), TaskHolder(b.nr), Holds(s.calls[w], o), Points(b.p, o));
    assert Points(s.tasks[b.cur], o) ==> TaskHolder(b.cur) in Holders(s, o);
  }

  // What the new task will point at without its call holding it.
  lemma {:induction false} ReadyGains(s: State, c: Call, o: Obj)
    requires c.Clone? && c.stage == AtPublish && BuildOk(s, c.b, Level(c))
    ensures Holds(c, o) ==> Points(c.b.p, o)
    ensures Points(c.b.p, o) ==> Holds(c, o) || Points(s.tasks[c.b.cur], o)
    ensures Points(c.b.p, o) && !Holds(c, o) <==> c.b.flags.thread && o == Obj(SignalKind, s.tasks[c.b.cur].signal)
    ensures c.b.flags.thread && o == Obj(SignalKind, s.tasks[c.b.cur].signal) ==> Points(s.tasks[c.b.cur], o)
    ensures c.b.nr !in s.tasks
  {
    ReadyHolds(c, o);
    ReadyPoints(s, c, o);
  }

  // A new thread adds one to nr_threads of its group; no other count changes.
  predicate Counted(s: State, s': State, w: nat, o: Obj)
    requires w < |s.calls| && s.calls[w].Clone? && s.calls[w].b.cur in s.tasks
  {
    var b := s.calls[w].b;
    if b.flags.thread && o == Obj(SignalKind, s.tasks[b.cur].signal)
    then o in s'.counts && s'.counts[o] == Count(s, o) + 1
    else (o in s'.counts <==> o in s.counts) && Count(s', o) == Count(s, o)
  }

  lemma {:induction false} PublishEntry(s: State, w: nat, o: Obj)
    requires w < |s.calls| && s.calls[w].Clone? && s.calls[w].b.cur in s.tasks
    ensures Counted(s, Publish(s, w), w, o)
  {
  }

  lemma {:induction false} DoomedAfterPublish(s: State, s': State, w: nat, o: Obj)
    requires w < |s.calls| && s'.calls == s.calls[w := Idle] && s.calls[w].Clone?
    ensures Doomed(s', o) <==> Doomed(s, o)
  {
    if Doomed(s', o) {
      var u :| 0 <= u < |s'.calls| && Dooms(s'.calls[u], o);
      assert Dooms(s.calls[u], o);
    }
    if Doomed(s, o) {
      var u :| 0 <= u < |s.calls| && Dooms(s.calls[u], o);
      assert Dooms(s'.calls[u], o);
    }
  }

  lemma {:induction false} PublishSignal(s: State, w: nat, x: nat)
    requires CountInv(s) && w < |s.calls| && s.calls[w].Clone? && s.calls[w].b.cur in s.tasks
    ensures SignalOk(Publish(s, w), x)
  {
    var cur := s.calls[w].b.cur;
    var o := Obj(SignalKind, s.tasks[cur].signal);
    assert SignalOk(s, x) && CountOk(s, o);
    assert TaskHolder(cur) in Holders(s, o);
  }

  lemma {:induction false} PublishPrivate(s: State, w: nat, u: nat, o: Obj)
    requires CountInv(s) && w < |s.calls| && s.calls[w].Clone? && s.calls[w].stage == AtPublish
    requires BuildOk(s, s.calls[w].b, Level(s.calls[w]))
    requires u < |s.calls| && u != w && PrivateTo(s.calls[u], o)
    ensures Holders(Publish(s, w), o) == {CallHolder(u)}
  {
    assert Holders(s, o) == {CallHolder(u)};
    PrivateStays(s, Publish(s, w), w, u, o);
  }

  lemma {:induction false} PrivateStays(s: State, s': State, w: nat, u: nat, o: Obj)
    requires w < |s.calls| && s.calls[w].Clone? && s.calls[w].stage == AtPublish
    requires BuildOk(s, s.calls[w].b, Level(s.calls[w]))
    requires s'.tasks == s.tasks[s.calls[w].b.nr := s.calls[w].b.p] && s'.calls == s.calls[w := Idle]
    requires u != w && Holders(s, o) == {CallHolder(u)}
    ensures Holders(s', o) == {CallHolder(u)}
  {
    var b := s.calls[w].b;
    ReadyPoints(s, s.calls[w], o);
    assert Points(s.tasks[b.cur], o) ==> TaskHolder(b.cur) in Holders(s, o);
    HoldersOfPublish(s, s', w, b.nr, b.p, o);
  }

  // What a task about to be shown points at, it holds already, or its maker has it.
  lemma {:induction false} ReadyPoints(s: State, c: Call, o: Obj)
    requires c.Clone? && c.stage == AtPublish && BuildOk(s, c.b, Level(c))
    ensures Points(c.b.p, o) ==> Holds(c, o) || Points(s.tasks[c.b.cur], o)
    ensures c.b.nr !in s.tasks
  {
    ReadyHolds(c, o);
  }

  lemma {:induction false} PublishCounts(s: State, w: nat)
    requires CountInv(s) && w < |s.calls| && s.calls[w].Clone? && s.calls[w].stage == AtPublish
    requires BuildOk(s, s.calls[w].b, Level(s.calls[w]))
    ensures CountInv(Publish(s, w))
  {
    var s' := Publish(s, w);
    assert s'.calls == s.calls[w := Idle];
    forall o ensures CountOk(s', o) { assert CountOk(s, o); PublishEntry(s, w, o); PublishCount(s, s', w, o); }
    forall x ensures SignalOk(s', x) { PublishSignal(s, w, x); }
    forall u, o | 0 <= u < |s'.calls| && PrivateTo(s'.calls[u], o) ensures Holders(s', o) == {CallHolder(u)} {
      PublishPrivate(s, w, u, o);
    }
    OneDoom(s, s', w);
  }

  lemma {:induction false} OneDoom(s: State, s': State, w: nat)
    requires CountInv(s) && w < |s.calls| == |s'.calls| && s'.calls == s.calls[w := s'.calls[w]]
    requires forall o :: Dooms(s'.calls[w], o) ==> Dooms(s.calls[w], o) || !Doomed(s, o)
    ensures forall u, v, o ::
      0 <= u < |s'.calls| && 0 <= v < |s'.calls| && Dooms(s'.calls[u], o) && Dooms(s'.calls[v], o) ==> u == v
  {
    forall u, v, o | 0 <= u < |s'.calls| && 0 <= v < |s'.calls| && Dooms(s'.calls[u], o) && Dooms(s'.calls[v], o)
      ensures u == v
    {
      assert u != w ==> Dooms(s.calls[u], o);
      assert v != w ==> Dooms(s.calls[v], o);
    }
  }

  // ---------------------------------------------------------------- unshare

  // Call w and the task cur change.
  lemma {:induction false} HoldersOfSwap(s: State, s': State, w: nat, cur: nat, o: Obj)
    requires w < |s.calls| == |s'.calls| && s'.calls == s.calls[w := s'.calls[w]]
    requires cur in s.tasks && cur in s'.tasks && s'.tasks == s.tasks[cur := s'.tasks[cur]]
    ensures Holders(s', o) == (Holders(s, o) - {CallHolder(w), TaskHolder(cur)})
                              + (if Holds(s'.calls[w], o) then {CallHolder(w)} else {})
                              + (if Points(s'.tasks[cur], o) then {TaskHolder(cur)} else {})
    ensures CallHolder(w) in Holders(s, o) <==> Holds(s.calls[w], o)
    ensures TaskHolder(cur) in Holders(s, o) <==> Points(s.tasks[cur], o)
  {
  }

  lemma {:induction false} HoldersSame(s: State, s': State, w: nat, cur: nat, o: Obj)
    requires w < |s.calls| == |s'.calls| && s'.calls == s.calls[w := s'.calls[w]]
    requires cur in s.tasks && cur in s'.tasks && s'.tasks == s.tasks[cur := s'.tasks[cur]]
    requires Holds(s'.calls[w], o) == Holds(s.calls[w], o) && Points(s'.tasks[cur], o) == Points(s.tasks[cur], o)
    ensures Holders(s', o) == Holders(s, o)
  {
    HoldersOfSwap(s, s', w, cur, o);
  }

  // Nothing is different for this object.
  lemma {:induction false} UntouchedCount(s: State, s': State, w: nat, cur: nat, o: Obj)
    requires w < |s.calls| == |s'.calls| && s'.calls == s.calls[w := s'.calls[w]]
    requires cur in s.tasks && cur in s'.tasks && s'.tasks == s.tasks[cur := s'.tasks[cur]]
    requires Holds(s'.calls[w], o) == Holds(s.calls[w], o) && Points(s'.tasks[cur], o) == Points(s.tasks[cur], o)
    requires Dooms(s'.calls[w], o) == Dooms(s.calls[w], o)
    requires CountOk(s, o) && (o in s'.counts <==> o in s.counts) && Count(s', o) == Count(s, o)
    ensures CountOk(s', o)
  {
    HoldersSame(s, s', w, cur, o);
    DoomedElsewhere(s, s', w, o);
  }

  // What the steps of unshare that move references mean for one object.
  predicate SwapsFs(s: State, s': State, w: nat)
  {
    && w < |s.calls| && s.calls[w].Unshare? && s.calls[w].cur in s.tasks
    && s.calls[w].at == USwapFs && s.calls[w].newFs.Some? && !s.calls[w].swapped
    && s' == UnshareStepOf(s, w, true, 0)
  }

  lemma {:induction false} SwapFsCount(s: State, s': State, w: nat, o: Obj)
    requires CountInv(s) && SwapsFs(s, s', w)
    ensures CountOk(s', o)
  {
    var c := s.calls[w];
    if o == Obj(FsKind, c.newFs.value) {
      SwapFsNew(s, s', w, o);
    } else if o == Obj(FsKind, s.tasks[c.cur].fs) {
      SwapFsOld(s, s', w, o);
    } else {
      SwapFsOther(s, s', w, o);
    }
  }

  lemma {:induction false} SwapFsOther(s: State, s': State, w: nat, o: Obj)
    requires CountInv(s) && SwapsFs(s, s', w)
    requires o != Obj(FsKind, s.calls[w].newFs.value) && o != Obj(FsKind, s.tasks[s.calls[w].cur].fs)
    ensures CountOk(s', o)
  {
    assert CountOk(s, o);
    UntouchedCount(s, s', w, s.calls[w].cur, o);
  }

  lemma {:induction false} SwapFsNew(s: State, s': State, w: nat, o: Obj)
    requires CountInv(s) && SwapsFs(s, s', w) && o == Obj(FsKind, s.calls[w].newFs.value)
    ensures CountOk(s', o)
  {
    assert CountOk(s, o);
    assert PrivateTo(s.calls[w], o);
    NewFsHeld(s, s', w, o);
    DoomedElsewhere(s, s', w, o);
  }

  // The new fs_struct goes from the call to the caller.
  lemma {:induction false} NewFsHeld(s: State, s': State, w: nat, o: Obj)
    requires SwapsFs(s, s', w) && o == Obj(FsKind, s.calls[w].newFs.value) && Holders(s, o) == {CallHolder(w)}
    ensures Holders(s', o) == {TaskHolder(s.calls[w].cur)} && (o in s'.counts <==> o in s.counts)
    ensures o in s.counts ==> s'.counts[o] == s.counts[o]
    ensures w < |s'.calls| == |s.calls| && s'.calls == s.calls[w := s'.calls[w]]
    ensures !Dooms(s.calls[w], o) && !Dooms(s'.calls[w], o)
  {
    var cur := s.calls[w].cur;
    HoldersOfSwap(s, s', w, cur, o);
    assert Points(s.tasks[cur], o) ==> TaskHolder(cur) in Holders(s, o);
    assert s.tasks[cur].fs != o.id;
  }

  // After the swap this call dooms the old fs_struct exactly when its count is zero.
  lemma {:induction false} SwapDoomsThis(s: State, s': State, w: nat, o: Obj)
    requires SwapsFs(s, s', w) && o == Obj(FsKind, s.tasks[s.calls[w].cur].fs) && o.id != s.calls[w].newFs.value
    ensures s'.calls == s.calls[w := s'.calls[w]]
    ensures Dooms(s'.calls[w], o) <==> Count(s, o) <= 1
  {
  }

  lemma {:induction false} SwapFsOld(s: State, s': State, w: nat, o: Obj)
    requires CountInv(s) && SwapsFs(s, s', w)
    requires o != Obj(FsKind, s.calls[w].newFs.value) && o == Obj(FsKind, s.tasks[s.calls[w].cur].fs)
    ensures CountOk(s', o)
  {
    var cur := s.calls[w].cur;
    assert CountOk(s, o);
    OldFsHeld(s, s', w, o);
    SizeRemove(Holders(s, o), TaskHolder(cur));
    NotEmpty(Holders(s, o), TaskHolder(cur));
    SwapDoomsThis(s, s', w, o);
    SwapDooms(s, s', w, o, TaskHolder(cur));
  }

  // The old one loses the caller.
  lemma {:induction false} OldFsHeld(s: State, s': State, w: nat, o: Obj)
    requires SwapsFs(s, s', w) && o == Obj(FsKind, s.tasks[s.calls[w].cur].fs) && o.id != s.calls[w].newFs.value
    ensures Holders(s', o) == Holders(s, o) - {TaskHolder(s.calls[w].cur)}
    ensures TaskHolder(s.calls[w].cur) in Holders(s, o)
    ensures o in s'.counts && s'.counts[o] == if Count(s, o) > 0 then Count(s, o) - 1 else 0
  {
    HoldersOfSwap(s, s', w, s.calls[w].cur, o);
  }

  lemma {:induction false} DoomedElsewhere(s: State, s': State, w: nat, o: Obj)
    requires w < |s.calls| == |s'.calls| && s'.calls == s.calls[w := s'.calls[w]]
    requires Dooms(s'.calls[w], o) == Dooms(s.calls[w], o)
    ensures Doomed(s', o) <==> Doomed(s, o)
  {
    if Doomed(s, o) { var u :| 0 <= u < |s.calls| && Dooms(s.calls[u], o); assert Dooms(s'.calls[u], o); }
    if Doomed(s', o) { var u :| 0 <= u < |s'.calls| && Dooms(s'.calls[u], o); assert Dooms(s.calls[u], o); }
  }

  // The old fs_struct is kept for freeing exactly when nobody has it any more.
  lemma {:induction false} SwapDooms(s: State, s': State, w: nat, o: Obj, t: Holder)
    requires w < |s.calls| == |s'.calls| && s'.calls == s.calls[w := s'.calls[w]]
    requires CountOk(s, o) && t in Holders(s, o) && Holders(s', o) == Holders(s, o) - {t}
    requires Dooms(s'.calls[w], o) <==> Count(s, o) <= 1
    ensures Doomed(s', o) <==> Holders(s', o) == {}
  {
    SizeRemove(Holders(s, o), t);
    DoomedByThis(s, s', w, o);
  }

  lemma {:induction false} DoomedByThis(s: State, s': State, w: nat, o: Obj)
    requires w < |s.calls| == |s'.calls| && s'.calls == s.calls[w := s'.calls[w]] && !Doomed(s, o)
    ensures Doomed(s', o) <==> Dooms(s'.calls[w], o)
  {
    assert forall u :: 0 <= u < |s.calls| ==> !Dooms(s.calls[u], o);
  }

  // What was private to a call is still: the swaps give cur only what this call made.
  lemma {:induction false} PrivateOverSwap(s: State, s': State, w: nat, u: nat, o: Obj)
    requires CountInv(s) && (SwapsFs(s, s', w) || SwapsFiles(s, s', w)) && u < |s'.calls| && PrivateTo(s'.calls[u], o)
    ensures Holders(s', o) == {CallHolder(u)}
  {
    assert PrivateTo(s.calls[u], o);
    assert Holders(s, o) == {CallHolder(u)};
    HoldersOfSwap(s, s', w, s.calls[w].cur, o);
  }

  lemma {:induction false} SwapFsCounts(s: State, s': State, w: nat)
    requires CountInv(s) && SwapsFs(s, s', w)
    ensures CountInv(s')
  {
    var c := s.calls[w];
    forall o ensures CountOk(s', o) { SwapFsCount(s, s', w, o); }
    SharedSignalsSame(s, s');
    forall u, o | 0 <= u < |s'.calls| && PrivateTo(s'.calls[u], o) ensures Holders(s', o) == {CallHolder(u)} {
      PrivateOverSwap(s, s', w, u, o);
    }
    assert CountOk(s, Obj(FsKind, s.tasks[c.cur].fs))
        && TaskHolder(c.cur) in Holders(s, Obj(FsKind, s.tasks[c.cur].fs));
    OneDoom(s, s', w);
  }

  predicate SwapsFiles(s: State, s': State, w: nat)
  {
    && w < |s.calls| && s.calls[w].Unshare? && s.calls[w].cur in s.tasks
    && s.calls[w].at == USwapFiles && s.calls[w].newFiles.Some?
    && s' == UnshareStepOf(s, w, true, 0)
  }

  // current->files and new_fd trade places: no count changes.
  lemma {:induction false} SwapFilesCounts(s: State, s': State, w: nat)
    requires CountInv(s) && SwapsFiles(s, s', w)
    ensures CountInv(s')
  {
    var c := s.calls[w];
    forall o ensures CountOk(s', o) { SwapFilesCount(s, s', w, o); }
    SharedSignalsSame(s, s');
    forall u, o | 0 <= u < |s'.calls| && PrivateTo(s'.calls[u], o) ensures Holders(s', o) == {CallHolder(u)} {
      PrivateOverSwap(s, s', w, u, o);
    }
    OneDoom(s, s', w);
  }

  lemma {:induction false} SwapFilesCount(s: State, s': State, w: nat, o: Obj)
    requires CountInv(s) && SwapsFiles(s, s', w)
    ensures CountOk(s', o)
  {
    var c := s.calls[w];
    var before, after := s.tasks[c.cur].files, c.newFiles;
    assert CountOk(s, o);
    if o.kind == FilesKind && (before == Some(o.id)) != (after == Some(o.id)) {
      TradedCount(s, s', w, o);
    } else {
      UntouchedCount(s, s', w, c.cur, o);
    }
  }

  lemma {:induction false} TradedCount(s: State, s': State, w: nat, o: Obj)
    requires CountInv(s) && SwapsFiles(s, s', w) && o.kind == FilesKind
    requires (s.tasks[s.calls[w].cur].files == Some(o.id)) != (s.calls[w].newFiles == Some(o.id))
    ensures CountOk(s', o)
  {
    assert CountOk(s, o);
    TradedHolders(s, s', w, s.calls[w].cur, o);
    DoomedElsewhere(s, s', w, o);
  }

  lemma {:induction false} TradedHolders(s: State, s': State, w: nat, cur: nat, o: Obj)
    requires w < |s.calls| == |s'.calls| && s'.calls == s.calls[w := s'.calls[w]]
    requires cur in s.tasks && cur in s'.tasks && s'.tasks == s.tasks[cur := s'.tasks[cur]]
    requires Holds(s'.calls[w], o) == Points(s.tasks[cur], o) != Holds(s.calls[w], o) == Points(s'.tasks[cur], o)
    ensures |Holders(s', o)| == |Holders(s, o)| && Holders(s, o) != {} && Holders(s', o) != {}
  {
    HoldersOfSwap(s, s', w, cur, o);
    TradePlaces(Holders(s, o), Holders(s', o), CallHolder(w), TaskHolder(cur));
  }

  lemma {:induction false} TradePlaces(a: set<Holder>, a': set<Holder>, k: Holder, t: Holder)
    requires k != t && (k in a) != (t in a) && (k in a' <==> t in a) && (t in a' <==> k in a)
    requires a' - {k, t} == a - {k, t}
    ensures |a'| == |a| && a != {} && a' != {}
  {
    var rest := a - {k, t};
    SizeAdd(rest, k);
    SizeAdd(rest, t);
    if k in a {
      assert a == rest + {k} && a' == rest + {t};
    } else {
      assert a == rest + {t} && a' == rest + {k};
    }
  }

  // free_fs_struct: an fs_struct this call took the last reference from, or the
  // copy it made and could not use.
  lemma {:induction false} FreeFsCounts(s: State, s': State, w: nat)
    requires CountInv(s) && w < |s.calls| && s.calls[w].Unshare? && s.calls[w].newFs.Some? && s.calls[w].newFiles.None?
    requires s' == s.(counts := s.counts - {Obj(FsKind, s.calls[w].newFs.value)}, calls := s.calls[w := Idle])
    ensures CountInv(s')
  {
    var c := s.calls[w];
    var o := Obj(FsKind, c.newFs.value);
    if !c.swapped {
      assert PrivateTo(c, o);
      assert CountOk(s, o);
      SharedSignalsSame(s, s');
      DropsOne(s, s', w, o);
    } else {
      FreeDoomedCounts(s, s', w, o);
    }
  }

  lemma {:induction false} HoldersKept(s: State, s': State, w: nat, o: Obj)
    requires OnlyCall(s, s', w) && Holds(s'.calls[w], o) == Holds(s.calls[w], o)
    ensures Holders(s', o) == Holders(s, o)
  {
    HoldersOfCall(s, s', w, o);
  }

  lemma {:induction false} FreeDoomedCount(s: State, s': State, w: nat, o: Obj, x: Obj)
    requires CountOk(s, x) && w < |s.calls| && s' == s.(counts := s.counts - {o}, calls := s.calls[w := Idle])
    requires Dooms(s.calls[w], o) && s.calls[w].newFiles.None?
    requires forall u :: 0 <= u < |s.calls| && u != w ==> !Dooms(s.calls[u], o)
    ensures CountOk(s', x)
  {
    HoldersKept(s, s', w, x);
    if x != o {
      DoomedElsewhere(s, s', w, x);
    } else {
      assert Dooms(s.calls[w], x);
      assert forall u :: 0 <= u < |s'.calls| ==> !Dooms(s'.calls[u], o);
    }
  }

  lemma {:induction false} FreeDoomedCounts(s: State, s': State, w: nat, o: Obj)
    requires CountInv(s) && w < |s.calls| && s' == s.(counts := s.counts - {o}, calls := s.calls[w := Idle])
    requires Dooms(s.calls[w], o) && s.calls[w].newFiles.None?
    ensures CountInv(s')
  {
    SharedSignalsSame(s, s');
    assert forall u :: 0 <= u < |s.calls| && u != w ==> !(Dooms(s.calls[u], o));
    forall x ensures CountOk(s', x) { assert CountOk(s, x); FreeDoomedCount(s, s', w, o, x); }
    forall u, x | 0 <= u < |s'.calls| && PrivateTo(s'.calls[u], x) ensures Holders(s', x) == {CallHolder(u)} {
      HoldersOfCall(s, s', w, x);
      assert PrivateTo(s.calls[u], x);
    }
    OneDoom(s, s', w);
  }

  lemma {:induction false} NewCallRefs(c: Call, c': Call)
    requires AtRest(c)
    requires (c'.Clone? && c'.stage == AtSignals) || (c'.Unshare? && c'.newFs.None? && c'.newFiles.None?)
    ensures SameRefs(c, c')
  {
  }

  lemma {:induction false} FdRefs(c: Call, c': Call, id: nat)
    requires c.Unshare? && c'.Unshare? && c'.newFs == c.newFs && c'.swapped == c.swapped && c.newFiles.None?
    ensures c'.newFiles == Some(id) ==> TakesRef(c, c', Obj(FilesKind, id))
    ensures c'.newFiles.None? ==> SameRefs(c, c')
  {
  }

  // unshare_fs and unshare_fd: a copy if the object is shared.
  lemma {:induction false} UnshareFsCounts(s: State, w: nat, ok: bool, id: nat)
    requires CountInv(s) && Enabled(s, UStep(w, ok, id)) && CallOk(s, s.calls[w]) && s.calls[w].at == UFs
    ensures CountInv(UnshareStepOf(s, w, ok, id))
  {
    var s' := UnshareStepOf(s, w, ok, id);
    if s'.calls[w].Unshare? && s'.calls[w].newFs.Some? {
      SharedSignalsSame(s, s');
      TakesOne(s, s', w, Obj(FsKind, id));
    } else {
      NothingTaken(s, s', w);
    }
  }

  lemma {:induction false} UnshareFdCounts(s: State, w: nat, ok: bool, id: nat)
    requires CountInv(s) && Enabled(s, UStep(w, ok, id)) && CallOk(s, s.calls[w]) && s.calls[w].at == UFd
    ensures CountInv(UnshareStepOf(s, w, ok, id))
  {
    var s' := UnshareStepOf(s, w, ok, id);
    FdRefs(s.calls[w], s'.calls[w], id);
    if s'.calls[w].newFiles.None? {
      NothingTaken(s, s', w);
    } else {
      SharedSignalsSame(s, s');
      TakesOne(s, s', w, Obj(FilesKind, id));
    }
  }

  lemma {:induction false} UnsharePutCounts(s: State, w: nat, ok: bool, id: nat)
    requires CountInv(s) && Enabled(s, UStep(w, ok, id)) && s.calls[w].at == UPutFiles
    ensures CountInv(UnshareStepOf(s, w, ok, id))
  {
    var s' := UnshareStepOf(s, w, ok, id);
    var c := s.calls[w];
    if c.newFiles.None? { NothingTaken(s, s', w); } else {
      SharedSignalsSame(s, s');
      DropsOne(s, s', w, Obj(FilesKind, c.newFiles.value));
    }
  }

  lemma {:induction false} UnshareKeepsCounts(s: State, w: nat, ok: bool, id: nat)
    requires CountInv(s) && Enabled(s, UStep(w, ok, id)) && CallOk(s, s.calls[w])
    ensures CountInv(UnshareStepOf(s, w, ok, id))
  {
    var s' := UnshareStepOf(s, w, ok, id);
    var c := s.calls[w];
    match c.at
    case UFs => UnshareFsCounts(s, w, ok, id);
    case UFd => UnshareFdCounts(s, w, ok, id);
    case UNamespaces => NothingSwapped(s, s', w);
    case USwapFs => if c.newFs.None? { NothingSwapped(s, s', w); } else { SwapFsCounts(s, s', w); }
    case USwapFiles => if c.newFiles.None? { NothingSwapped(s, s', w); } else { SwapFilesCounts(s, s', w); }
    case UPutFiles => UnsharePutCounts(s, w, ok, id);
    case UFreeFs => if c.newFs.None? { NothingTaken(s, s', w); } else { FreeFsCounts(s, s', w); }
  }

  lemma {:induction false} NothingSwapped(s: State, s': State, w: nat)
    requires CountInv(s) && w < |s.calls| == |s'.calls| && s.calls[w].Unshare? && s'.calls[w].Unshare?
    requires s' == SetCall(s, w, s.calls[w].(at := s'.calls[w].at))
    requires (BeforeSwap(s'.calls[w].at) ==> BeforeSwap(s.calls[w].at))
    ensures CountInv(s')
  {
    NothingTaken(s, s', w);
  }

  // A call starts holding nothing.
  lemma {:induction false} StartCounts(s: State, m: Move)
    requires CountInv(s) && (m.StartClone? || m.StartUnshare?) && Enabled(s, m)
    ensures CountInv(Apply(s, m))
  {
    NewCallRefs(s.calls[m.w], Apply(s, m).calls[m.w]);
    NothingTaken(s, Apply(s, m), m.w);
  }

  // ---------------------------------------------------------------- every move

  // What the count proofs need of the calls.
  lemma {:induction false} StageKeepsCounts(s: State, w: nat, id: nat, kv: KvResult)
    requires CountInv(s) && CallInv(s) && Enabled(s, Step(w, true, id, kv))
    ensures CountInv(StepOk(s, w, id, kv))
  {
    assert CallOk(s, s.calls[w]);
    match s.calls[w].stage
    case AtFiles => FilesStage(s, w, id, kv);
    case AtFs => FsStage(s, w, id, kv);
    case AtSighand => SighandStage(s, w, id, kv);
    case AtSignal => SignalStage(s, w, id, kv);
    case AtMm => MmStage(s, w, id, kv);
    case AtPublish => PublishCounts(s, w);
    case _ => QuietStage(s, w, id, kv);
  }

  lemma {:induction false} MoveKeepsCounts(s: State, m: Move)
    requires CountInv(s) && CallInv(s) && Enabled(s, m)
    ensures CountInv(Apply(s, m))
  {
    match m
    case StartClone(_, _, _, _) => StartCounts(s, m);
    case StartUnshare(_, _, _) => StartCounts(s, m);
    case Step(w, ok, id, kv) => if ok { StageKeepsCounts(s, w, id, kv); } else { FailingStage(s, w); }
    case Fall(w) => LabelKeepsCounts(s, w);
    case UStep(w, ok, id) =>
      assert CallOk(s, s.calls[w]);
      UnshareKeepsCounts(s, w, ok, id);
  }
}
