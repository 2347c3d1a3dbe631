// The error labels of copy_process match its stages: at every stage, what has
// been acquired is what the labels from its own error label down release, in
// reverse.

module CloneLadder {
  import opened CloneModel
  import opened CloneInv

  lemma {:induction false} ReverseAppend<T>(a: seq<T>, b: seq<T>)
    ensures Reverse(a + b) == Reverse(b) + Reverse(a)
    decreases |a|
  {
    if a == [] {
      assert a + b == b;
    } else {
      ReverseAppend(a[1..], b);
      assert (a + b)[1..] == a[1..] + b;
    }
  }

  lemma {:induction false} ReverseShort<T>(x: T, y: T)
    ensures Reverse<T>([]) == [] && Reverse([x]) == [x] && Reverse([x, y]) == [y, x]
  {
    assert [x][1..] == [] && [x, y][1..] == [y];
    assert Reverse([y]) == Reverse<T>([]) + [y] by { assert [y][1..] == []; }
    assert Reverse([x, y]) == Reverse([y]) + [x];
  }

  predicate SameReleases(l: Label, b: Build, b': Build)
  {
    Releases(l, b) == Releases(l, b')
  }

  // Owed reads only what the labels up to l look at.
  lemma {:induction false} OwedFrame(l: Label, b: Build, b': Build)
    requires forall k :: Rank(k) <= Rank(l) ==> SameReleases(k, b, b')
    ensures Owed(l, b) == Owed(l, b')
    decreases Rank(l)
  {
    assert SameReleases(l, b, b');
    if l != ForkOut { OwedFrame(Below(l), b, b'); }
  }

  lemma {:induction false} OwedStep(l: Label, b: Build)
    requires l != ForkOut
    ensures Owed(l, b) == Owed(Below(l), b) + Reverse(Releases(l, b))
  {
  }

  // Changing the build at this stage does not touch what is already owed.
  lemma {:induction false} AdvanceFrame(b: Build, stage: Stage, me: Task, id: nat, kv: KvResult)
    requires stage != AtPublish
    ensures Owed(OnError(stage), Advance(b, stage, me, id, kv).b) == Owed(OnError(stage), b)
  {
    var b' := Advance(b, stage, me, id, kv).b;
    forall k | Rank(k) <= Rank(OnError(stage)) ensures SameReleases(k, b, b') {
      if Rank(OnError(stage)) < Rank(CleanupFiles) { EarlyReleases(b, stage, me, id, kv, k); }
      else { LateReleases(b, stage, me, id, kv, k); }
    }
    OwedFrame(OnError(stage), b, b');
  }

  lemma {:induction false} EarlyReleases(b: Build, stage: Stage, me: Task, id: nat, kv: KvResult, k: Label)
    requires stage != AtPublish && Rank(k) <= Rank(OnError(stage)) < Rank(CleanupFiles)
    ensures SameReleases(k, b, Advance(b, stage, me, id, kv).b)
  {
    EarlyFields(b, stage, me, id, kv);
  }

  lemma {:induction false} EarlyFields(b: Build, stage: Stage, me: Task, id: nat, kv: KvResult)
    requires stage != AtPublish
    ensures var b' := Advance(b, stage, me, id, kv).b; b'.flags == b.flags && (stage != AtSemundo ==> b'.undo == b.undo)
  {
  }

  lemma {:induction false} LateReleases(b: Build, stage: Stage, me: Task, id: nat, kv: KvResult, k: Label)
    requires stage != AtPublish && Rank(k) <= Rank(OnError(stage)) && Rank(OnError(stage)) >= Rank(CleanupFiles)
    ensures SameReleases(k, b, Advance(b, stage, me, id, kv).b)
  {
    var b' := Advance(b, stage, me, id, kv).b;
    LateFields(b, stage, me, id, kv);
    assert Rank(k) <= Rank(CleanupMm) || Rank(OnError(stage)) >= Rank(CleanupMm);
  }

  lemma {:induction false} LateFields(b: Build, stage: Stage, me: Task, id: nat, kv: KvResult)
    requires stage != AtPublish && Rank(OnError(stage)) >= Rank(CleanupFiles)
    ensures var b' := Advance(b, stage, me, id, kv).b;
      && b'.flags == b.flags && b'.undo == b.undo && b'.p.files == b.p.files
      && (stage != AtFs ==> b'.p.fs == b.p.fs)
      && (stage != AtSighand ==> b'.p.sighand == b.p.sighand)
      && (stage != AtSignal ==> b'.p.signal == b.p.signal)
      && (stage != AtMm ==> b'.p.mm == b.p.mm)
      && (stage != AtIo ==> b'.io == b.io)
      && (stage != AtPid ==> b'.nr == b.nr)
  {
  }

  // One more stage, one more rung: what is owed grows by what was acquired.
  lemma {:induction false} Ladder(b: Build, stage: Stage, me: Task, id: nat, kv: KvResult)
    requires stage != AtPublish
    requires stage == AtFiles ==> b.p.files == me.files
    requires stage == AtFd || stage == AtPidfile || stage == AtPutUser ==> b.flags.pidfd
    ensures var r := Advance(b, stage, me, id, kv);
      Owed(OnError(r.next), r.b) == Owed(OnError(stage), b) + r.more
  {
    var r := Advance(b, stage, me, id, kv);
    AdvanceFrame(b, stage, me, id, kv);
    RungShape(b, stage, me, id, kv);
    if OneUp(stage, r) { RungMatches(b, stage, me, id, kv); }
    LadderStep(b, stage, r, id);
  }

  predicate OneUp(stage: Stage, r: Outcome)
  {
    OnError(r.next) != OnError(stage) && OnError(r.next) != ForkOut && Below(OnError(r.next)) == OnError(stage)
  }

  predicate Shape(b: Build, stage: Stage, r: Outcome, id: nat)
  {
    || (OnError(r.next) == OnError(stage) && r.more == [])
    || (stage == AtPidfile && r.next == AtPutUser && r.more == [PidFile] && r.b == b)
    || (stage == AtPid && !b.flags.pidfd && r.next == AtKv && r.more == [Pid(id)] && r.b == b.(nr := id))
    || OneUp(stage, r)
  }

  lemma {:induction false} LadderStep(b: Build, stage: Stage, r: Outcome, id: nat)
    requires Owed(OnError(stage), r.b) == Owed(OnError(stage), b) && Shape(b, stage, r, id)
    requires stage == AtPidfile ==> b.flags.pidfd
    requires OneUp(stage, r) ==> Reverse(Releases(OnError(r.next), r.b)) == r.more
    ensures Owed(OnError(r.next), r.b) == Owed(OnError(stage), b) + r.more
  {
    if OneUp(stage, r) {
      OwedStep(OnError(r.next), r.b);
    } else {
      SpecialRung(b, stage, r, id);
    }
  }

  lemma {:induction false} SpecialRung(b: Build, stage: Stage, r: Outcome, id: nat)
    requires Owed(OnError(stage), r.b) == Owed(OnError(stage), b) && Shape(b, stage, r, id) && !OneUp(stage, r)
    requires stage == AtPidfile ==> b.flags.pidfd
    ensures Owed(OnError(r.next), r.b) == Owed(OnError(stage), b) + r.more
  {
    if OnError(r.next) != OnError(stage) {
      if stage == AtPidfile { FromPidfile(b, r); } else { FromPid(b, r, id); }
    }
  }

  lemma {:induction false} FromPidfile(b: Build, r: Outcome)
    requires r.next == AtPutUser && r.more == [PidFile] && r.b == b && b.flags.pidfd
    ensures Owed(OnError(r.next), r.b) == Owed(OnError(AtPidfile), b) + r.more
  {
    PidfileRung(OnError(r.next), OnError(AtPidfile), r.b);
  }

  lemma {:induction false} FromPid(b: Build, r: Outcome, id: nat)
    requires r.next == AtKv && r.more == [Pid(id)] && r.b == b.(nr := id) && !b.flags.pidfd
    requires Owed(OnError(AtPid), r.b) == Owed(OnError(AtPid), b)
    ensures Owed(OnError(r.next), r.b) == Owed(OnError(AtPid), b) + r.more
  {
    PidRung(OnError(r.next), OnError(AtPid), r.b);
  }

  // A stage leads to the same label with nothing taken, or to the next label up;
  // the two exceptions are around the pidfd.
  lemma {:induction false} RungShape(b: Build, stage: Stage, me: Task, id: nat, kv: KvResult)
    requires stage != AtPublish
    ensures Shape(b, stage, Advance(b, stage, me, id, kv), id)
  {
    LabelAfter(stage, b.flags.pidfd);
    if OnError(After(stage, b.flags.pidfd)) == OnError(stage) { SameLabel(b, stage, me, id); }
  }

  lemma {:induction false} LabelAfter(stage: Stage, pidfd: bool)
    requires stage != AtPublish
    ensures var l, l' := OnError(stage), OnError(After(stage, pidfd));
      l' == l || (l' != ForkOut && Below(l') == l) || stage == AtPidfile || (stage == AtPid && !pidfd)
  {
  }

  lemma {:induction false} SameLabel(b: Build, stage: Stage, me: Task, id: nat)
    requires stage != AtPublish && OnError(After(stage, b.flags.pidfd)) == OnError(stage)
    ensures Acquires(b, stage, me, id) == []
  {
  }

  function Flip<T>(s: seq<T>): seq<T>
  {
    if |s| == 2 then [s[1], s[0]] else s
  }

  lemma {:induction false} ReverseIsFlip<T>(s: seq<T>)
    requires |s| <= 2
    ensures Reverse(s) == Flip(s)
  {
    if |s| == 1 { ReverseShort(s[0], s[0]); assert s == [s[0]]; }
    else if |s| == 2 { ReverseShort(s[0], s[1]); assert s == [s[0], s[1]]; }
  }

  lemma {:induction false} RungMatches(b: Build, stage: Stage, me: Task, id: nat, kv: KvResult)
    requires stage != AtPublish
    requires stage == AtFiles ==> b.p.files == me.files
    requires stage == AtFd || stage == AtPidfile || stage == AtPutUser ==> b.flags.pidfd
    requires OneUp(stage, Advance(b, stage, me, id, kv))
    ensures var r := Advance(b, stage, me, id, kv); Reverse(Releases(OnError(r.next), r.b)) == r.more
  {
    var r := Advance(b, stage, me, id, kv);
    if Rank(OnError(stage)) < Rank(CleanupFiles) {
      EarlyRung(b, stage, me, id, kv);
    } else {
      LateRung(b, stage, me, id, kv);
    }
    ReverseIsFlip(Releases(OnError(r.next), r.b));
  }

  lemma {:induction false} EarlyRung(b: Build, stage: Stage, me: Task, id: nat, kv: KvResult)
    requires stage != AtPublish && Rank(OnError(stage)) < Rank(CleanupFiles)
    requires stage == AtFiles ==> b.p.files == me.files
    requires OneUp(stage, Advance(b, stage, me, id, kv))
    ensures var r := Advance(b, stage, me, id, kv); var rel := Releases(OnError(r.next), r.b);
      |rel| <= 2 && Flip(rel) == r.more
  {
  }

  lemma {:induction false} LateRung(b: Build, stage: Stage, me: Task, id: nat, kv: KvResult)
    requires stage != AtPublish && Rank(OnError(stage)) >= Rank(CleanupFiles)
    requires stage == AtFd || stage == AtPidfile || stage == AtPutUser ==> b.flags.pidfd
    requires OneUp(stage, Advance(b, stage, me, id, kv))
    ensures var r := Advance(b, stage, me, id, kv); var rel := Releases(OnError(r.next), r.b);
      |rel| <= 2 && Flip(rel) == r.more
  {
  }

  // Without CLONE_PIDFD the pid stage goes straight to the kv arrays.
  lemma {:induction false} PidRung(l': Label, l: Label, b: Build)
    requires l' == PutPidfd && l == CleanupThread && !b.flags.pidfd
    ensures Owed(l', b) == Owed(l, b) + [Pid(b.nr)]
  {
    RungIs(l', b, []);
    RungIs(Below(l'), b, [Pid(b.nr)]);
  }

  // One label's part, spelt out.
  lemma {:induction false} RungIs(l: Label, b: Build, part: seq<Resource>)
    requires l != ForkOut && |Releases(l, b)| <= 2 && Flip(Releases(l, b)) == part
    ensures Owed(l, b) == Owed(Below(l), b) + part
  {
    OwedStep(l, b);
    ReverseIsFlip(Releases(l, b));
  }

  // The pidfd file comes on top of the bare descriptor.
  lemma {:induction false} PidfileRung(l': Label, l: Label, b: Build)
    requires l' == PutPidfd && l == DropFd && b.flags.pidfd
    ensures Owed(l', b) == Owed(l, b) + [PidFile]
  {
    RungIs(l', b, [Fd, PidFile]);
    RungIs(l, b, [Fd]);
    OneByOne(Owed(Below(l), b), Fd, PidFile);
  }

  lemma {:induction false} OneByOne(a: seq<Resource>, x: Resource, y: Resource)
    ensures a + [x, y] == (a + [x]) + [y]
  {
  }

  // One label down: what it releases was on top.
  lemma {:induction false} LabelDown(l: Label, b: Build, gone: seq<Resource>)
    requires l != ForkOut
    ensures Owed(l, b) + Reverse(gone) == Owed(Below(l), b) + Reverse(gone + Releases(l, b))
  {
    OwedStep(l, b);
    ReverseAppend(gone, Releases(l, b));
    Regroup(Owed(Below(l), b), Reverse(Releases(l, b)), Reverse(gone));
  }

  lemma {:induction false} Regroup(a: seq<Resource>, b: seq<Resource>, c: seq<Resource>)
    ensures (a + b) + c == a + (b + c)
  {
  }

  lemma {:induction false} LastLabel(b: Build, gone: seq<Resource>)
    ensures Owed(ForkOut, b) + Reverse(gone) == Reverse(gone + Releases(ForkOut, b))
  {
    ReverseAppend(gone, Releases(ForkOut, b));
    assert Owed(ForkOut, b) == [] + Reverse(Releases(ForkOut, b));
  }

  // ---------------------------------------------------------------- the log over one move

  lemma {:induction false} StartLog(b: Build)
    ensures LogOk(Clone(b, AtSignals, if b.flags.thread then [] else [Node]))
  {
    assert Owed(ForkOut, b) == [] + Reverse(Releases(ForkOut, b));
    ReverseShort(Node, Node);
  }

  lemma {:induction false} StageLog(c: Call, me: Task, id: nat, kv: KvResult)
    requires c.Clone? && c.stage != AtPublish && LogOk(c)
    requires c.stage == AtFiles ==> c.b.p.files == me.files
    requires c.stage == AtFd || c.stage == AtPidfile || c.stage == AtPutUser ==> c.b.flags.pidfd
    ensures var r := Advance(c.b, c.stage, me, id, kv); LogOk(Clone(r.b, r.next, c.got + r.more))
  {
    Ladder(c.b, c.stage, me, id, kv);
  }

  lemma {:induction false} FallLog(c: Call)
    requires c.Unwind? && LogOk(c)
    ensures var gone := c.gone + Releases(c.label_, c.b);
      LogOk(if c.label_ == ForkOut then Failed(c.got, gone) else Unwind(c.b, Below(c.label_), c.got, gone))
  {
    if c.label_ == ForkOut { LastLabel(c.b, c.gone); } else { LabelDown(c.label_, c.b, c.gone); }
  }

  lemma {:induction false} MoveKeepsLog(s: State, m: Move)
    requires Enabled(s, m) && LogOk(s.calls[m.w]) && CallOk(s, s.calls[m.w])
    ensures m.w < |Apply(s, m).calls| && LogOk(Apply(s, m).calls[m.w])
  {
    match m
    case StartClone(_, _, _, _) => StartLog(Apply(s, m).calls[m.w].b);
    case Step(w, ok, id, kv) => StepLog(s, w, ok, id, kv);
    case Fall(w) => FallLog(s.calls[w]);
    case StartUnshare(_, _, _) =>
    case UStep(w, ok, id) => UnshareHasNoLog(s, w, ok, id);
  }

  lemma {:induction false} UnshareHasNoLog(s: State, w: nat, ok: bool, id: nat)
    requires Enabled(s, UStep(w, ok, id))
    ensures var s' := UnshareStepOf(s, w, ok, id);
      |s'.calls| == |s.calls| && (s'.calls[w].Unshare? || s'.calls[w].Idle?)
  {
  }

  lemma {:induction false} StepLog(s: State, w: nat, ok: bool, id: nat, kv: KvResult)
    requires Enabled(s, Step(w, ok, id, kv)) && LogOk(s.calls[w]) && CallOk(s, s.calls[w])
    ensures var s' := Apply(s, Step(w, ok, id, kv)); w < |s'.calls| && LogOk(s'.calls[w])
  {
    var c := s.calls[w];
    if !ok {
      assert Reverse<Resource>([]) == [];
    } else if c.stage != AtPublish {
      var me := s.tasks[c.b.cur];
      StageLog(c, me, id, kv);
    }
  }
}
