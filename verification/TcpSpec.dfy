// What a sequence of collectives means, rank by rank, and the proof that
// carrying out the global schedule one event at a time computes it.

module TcpSpec {
  import opened Wire
  import opened Collectives
  import opened TcpNet

  // ---------------------------------------------------------------- meaning

  // ((send_0 + send_1) + send_2) + ... + send_{k-1}, word by word, in that order.
  function FoldRanks(add: Adder, ls: seq<Local>, k: nat): seq<Word>
    requires 1 <= k <= |ls|
  {
    if k == 1 then ls[0].send else AddWords(add, FoldRanks(add, ls, k - 1), ls[k - 1].send)
  }

  function Meaning(add: Adder, ls: seq<Local>, c: Collective): (r: seq<Local>)
    requires |ls| > 0 && ValidCollective(|ls|, c)
    ensures |r| == |ls|
  {
    var n := |ls|;
    match c
    case Barrier =>
      seq(n, r requires 0 <= r < n => ls[r].(entered := ls[r].entered + 1, left := ls[r].left + 1))
    case Broadcast(root, _) =>
      seq(n, r requires 0 <= r < n => ls[r].(send := ls[root].send))
    case AllReduce(_) =>
      var sum := FoldRanks(add, ls, n);
      seq(n, r requires 0 <= r < n => ls[r].(recv := sum, results := ls[r].results + [sum]))
    case Report(times) =>
      seq(n, r requires 0 <= r < n =>
        ls[r].(time := times[r], reports := ls[r].reports + (if r == 0 then times[1..] else [])))
    case Fill(data) =>
      seq(n, r requires 0 <= r < n => ls[r].(send := data[r]))
  }

  function WholeMeaning(add: Adder, ls: seq<Local>, cs: seq<Collective>): (r: seq<Local>)
    requires |ls| > 0 && forall k :: 0 <= k < |cs| ==> ValidCollective(|ls|, cs[k])
    ensures |r| == |ls|
    decreases |cs|
  {
    if cs == [] then ls else WholeMeaning(add, Meaning(add, ls, cs[0]), cs[1..])
  }

  // All ranks call the same collectives with the same counts, on buffers of
  // that many words.
  predicate Consistent(n: nat, count: nat, cs: seq<Collective>)
    decreases |cs|
  {
    cs == [] || (
      && ValidCollective(n, cs[0])
      && (cs[0].Broadcast? || cs[0].AllReduce? ==> cs[0].count == count)
      && Consistent(n, CountAfter(n, count, cs[0]), cs[1..]))
  }

  function CountAfter(n: nat, count: nat, c: Collective): nat
    requires ValidCollective(n, c)
  {
    if c.Fill? && n > 0 then |c.data[0]| else count
  }

  lemma {:induction false} ConsistentIsValid(n: nat, count: nat, cs: seq<Collective>)
    requires Consistent(n, count, cs)
    ensures ValidSequence(n, cs)
    decreases |cs|
  {
    if cs != [] {
      ConsistentIsValid(n, CountAfter(n, count, cs[0]), cs[1..]);
    }
  }

  ghost predicate Ready(count: nat, ls: seq<Local>)
  {
    |ls| > 0 && forall r :: 0 <= r < |ls| ==> |ls[r].send| == count
  }

  // ---------------------------------------------------------------- one event at a time

  ghost function RunEvents(add: Adder, ls: seq<Local>, evs: seq<Event>): (r: seq<Local>)
    requires ValidEvents(|ls|, evs)
    ensures |r| == |ls|
    decreases |evs|
  {
    if evs == [] then ls else RunEvents(add, Exec(add, ls, evs[0]), evs[1..])
  }

  // Every message is as long as its receiver expects.
  ghost predicate SizesFrom(add: Adder, ls: seq<Local>, evs: seq<Event>)
    requires ValidEvents(|ls|, evs)
    decreases |evs|
  {
    evs == [] || (
      && (evs[0].Msg? ==> |Bytes(ls[evs[0].src], evs[0].source)| == evs[0].size)
      && SizesFrom(add, Exec(add, ls, evs[0]), evs[1..]))
  }

  lemma {:induction false} RunConcat(add: Adder, ls: seq<Local>, a: seq<Event>, b: seq<Event>)
    requires ValidEvents(|ls|, a) && ValidEvents(|ls|, b)
    ensures ValidEvents(|ls|, a + b)
    ensures RunEvents(add, ls, a + b) == RunEvents(add, RunEvents(add, ls, a), b)
    ensures SizesFrom(add, ls, a + b) == (SizesFrom(add, ls, a) && SizesFrom(add, RunEvents(add, ls, a), b))
    decreases |a|
  {
    if a == [] {
      assert a + b == b;
    } else {
      assert (a + b)[1..] == a[1..] + b;
      RunConcat(add, Exec(add, ls, a[0]), a[1..], b);
    }
  }

  // The step-indexed form used by the network invariant.
  lemma {:induction false} AtIsRun(S: Setup, k: nat)
    requires ValidSetup(S) && k <= |S.evs|
    ensures ValidEvents(S.n, S.evs[..k])
    ensures At(S, k) == RunEvents(S.add, S.init, S.evs[..k])
  {
    if k > 0 {
      AtIsRun(S, k - 1);
      assert S.evs[..k] == S.evs[..k - 1] + [S.evs[k - 1]];
      RunConcat(S.add, S.init, S.evs[..k - 1], [S.evs[k - 1]]);
      var one := [S.evs[k - 1]];
      assert one[1..] == [];
      assert RunEvents(S.add, At(S, k - 1), one) == Exec(S.add, At(S, k - 1), S.evs[k - 1]);
    }
  }

  lemma {:induction false} SizesAgreeFromStart(S: Setup)
    requires ValidSetup(S) && SizesFrom(S.add, S.init, S.evs)
    ensures SizesAgree(S)
  {
    forall k | 0 <= k < |S.evs| && S.evs[k].Msg?
      ensures |Payload(S, k)| == S.evs[k].size
    {
      AtIsRun(S, k);
      assert S.evs == S.evs[..k] + S.evs[k..];
      RunConcat(S.add, S.init, S.evs[..k], S.evs[k..]);
    }
  }

  // ---------------------------------------------------------------- the building blocks

  ghost function AfterSteps(ls: seq<Local>, i: nat, acts: seq<Act>): (r: seq<Local>)
    requires |acts| == |ls|
    ensures |r| == |ls|
  {
    seq(|ls|, r requires 0 <= r < |ls| => if i <= r then Perform(ls[r], acts[r]) else ls[r])
  }

  lemma {:induction false} RunSteps(add: Adder, ls: seq<Local>, i: nat, acts: seq<Act>)
    requires |acts| == |ls| && i <= |ls|
    ensures ValidEvents(|ls|, Steps(i, acts))
    ensures RunEvents(add, ls, Steps(i, acts)) == AfterSteps(ls, i, acts)
    ensures SizesFrom(add, ls, Steps(i, acts))
    decreases |acts| - i
  {
    StepsValid(i, acts);
    if i < |acts| {
      var ls' := Exec(add, ls, Step(i, acts[i]));
      RunSteps(add, ls', i + 1, acts);
      assert Steps(i, acts)[1..] == Steps(i + 1, acts);
      assert AfterSteps(ls', i + 1, acts) == AfterSteps(ls, i, acts);
    } else {
      assert AfterSteps(ls, i, acts) == ls;
    }
  }

  // Rank 0's memory after hearing from ranks i .. |ls| - 1 in that order.
  ghost function Gathered(add: Adder, l: Local, ls: seq<Local>, i: nat, source: Source, effect: Effect): Local
    decreases |ls| - i
  {
    if i >= |ls| then l
    else Gathered(add, Deliver(add, l, effect, Bytes(ls[i], source)), ls, i + 1, source, effect)
  }

  lemma {:induction false} RunGather(add: Adder, ls: seq<Local>, i: nat, source: Source, effect: Effect, size: nat)
    requires 1 <= i <= |ls|
    requires forall r :: i <= r < |ls| ==> |Bytes(ls[r], source)| == size
    ensures ValidEvents(|ls|, Gather(i, |ls|, source, effect, size))
    ensures RunEvents(add, ls, Gather(i, |ls|, source, effect, size))
         == ls[0 := Gathered(add, ls[0], ls, i, source, effect)]
    ensures SizesFrom(add, ls, Gather(i, |ls|, source, effect, size))
    decreases |ls| - i
  {
    var n := |ls|;
    GatherValid(i, n, source, effect, size);
    if i < n {
      var ls' := Exec(add, ls, Msg(i, 0, source, effect, size));
      RunGather(add, ls', i + 1, source, effect, size);
      assert Gather(i, n, source, effect, size)[1..] == Gather(i + 1, n, source, effect, size);
      GatheredCongruent(add, ls'[0], ls, ls', i + 1, source, effect);
      assert ls'[0 := Gathered(add, ls'[0], ls', i + 1, source, effect)]
          == ls[0 := Gathered(add, ls'[0], ls', i + 1, source, effect)];
    }
  }

  lemma {:induction false} GatheredCongruent(add: Adder, l: Local, a: seq<Local>, b: seq<Local>, i: nat,
                                             source: Source, effect: Effect)
    requires |a| == |b| && forall r :: i <= r < |a| ==> a[r] == b[r]
    ensures Gathered(add, l, a, i, source, effect) == Gathered(add, l, b, i, source, effect)
    decreases |a| - i
  {
    if i < |a| {
      GatheredCongruent(add, Deliver(add, l, effect, Bytes(a[i], source)), a, b, i + 1, source, effect);
    }
  }

  ghost function Scattered(add: Adder, ls: seq<Local>, i: nat, root: nat, source: Source,
                           effect: Effect): (r: seq<Local>)
    requires root < |ls|
    ensures |r| == |ls|
  {
    seq(|ls|, r requires 0 <= r < |ls| =>
      if i <= r && r != root then Deliver(add, ls[r], effect, Bytes(ls[root], source)) else ls[r])
  }

  lemma {:induction false} ScatteredStep(add: Adder, ls: seq<Local>, i: nat, root: nat, source: Source, effect: Effect)
    requires i < |ls| && root < |ls| && i != root
    ensures Scattered(add, ls, i, root, source, effect)
         == Scattered(add, ls[i := Deliver(add, ls[i], effect, Bytes(ls[root], source))], i + 1, root, source, effect)
  {
  }

  // The rest of a scatter, from rank i on, does what Scattered says.
  ghost predicate ScatterRuns(add: Adder, ls: seq<Local>, evs: seq<Event>, i: nat, root: nat, source: Source,
                              effect: Effect)
    requires root < |ls|
  {
    && ValidEvents(|ls|, evs)
    && SizesFrom(add, ls, evs)
    && RunEvents(add, ls, evs) == Scattered(add, ls, i, root, source, effect)
  }

  lemma {:induction false} ScatterOne(add: Adder, ls: seq<Local>, i: nat, root: nat, source: Source, effect: Effect,
                                      size: nat, rest: seq<Event>)
    requires i < |ls| && root < |ls| && i != root && |Bytes(ls[root], source)| == size
    requires ScatterRuns(add, ls[i := Deliver(add, ls[i], effect, Bytes(ls[root], source))], rest, i + 1, root, source,
      effect)
    ensures ScatterRuns(add, ls, [Msg(root, i, source, effect, size)] + rest, i, root, source, effect)
  {
    RunCons(add, ls, Msg(root, i, source, effect, size), rest);
    ScatteredStep(add, ls, i, root, source, effect);
  }

  lemma {:induction false} RunScatter(add: Adder, ls: seq<Local>, i: nat, root: nat, source: Source, effect: Effect,
                                      size: nat)
    requires i <= |ls| && root < |ls| && |Bytes(ls[root], source)| == size
    ensures ScatterRuns(add, ls, Scatter(i, |ls|, root, source, effect, size), i, root, source, effect)
    decreases |ls| - i
  {
    if i == |ls| {
      assert Scattered(add, ls, i, root, source, effect) == ls;
    } else {
      var rest := Scatter(i + 1, |ls|, root, source, effect, size);
      if i == root {
        RunScatter(add, ls, i + 1, root, source, effect, size);
        assert Scatter(i, |ls|, root, source, effect, size) == rest;
        assert Scattered(add, ls, i, root, source, effect) == Scattered(add, ls, i + 1, root, source, effect);
      } else {
        RunScatter(add, ls[i := Deliver(add, ls[i], effect, Bytes(ls[root], source))], i + 1, root, source, effect,
            size);
        ScatterOne(add, ls, i, root, source, effect, size, rest);
      }
    }
  }

  lemma {:induction false} RunCons(add: Adder, ls: seq<Local>, e: Event, evs: seq<Event>)
    requires ValidEvent(|ls|, e) && ValidEvents(|ls|, evs)
    ensures ValidEvents(|ls|, [e] + evs)
    ensures RunEvents(add, ls, [e] + evs) == RunEvents(add, Exec(add, ls, e), evs)
    ensures SizesFrom(add, ls, [e] + evs)
        == ((e.Msg? ==> |Bytes(ls[e.src], e.source)| == e.size) && SizesFrom(add, Exec(add, ls, e), evs))
  {
    assert ([e] + evs)[1..] == evs;
  }

  // ---------------------------------------------------------------- all-reduce

  lemma {:induction false} FoldLength(add: Adder, ls: seq<Local>, k: nat)
    requires 1 <= k <= |ls|
    ensures |FoldRanks(add, ls, k)| == |ls[0].send|
  {
    if k > 1 { FoldLength(add, ls, k - 1); }
  }

  // ((w_0 + w_1) + w_2) + ... for single words.
  function Total(add: Adder, ws: seq<Word>): Word
    requires |ws| > 0
  {
    if |ws| == 1 then ws[0] else add(Total(add, ws[..|ws| - 1]), ws[|ws| - 1])
  }

  // Word j of the first k send buffers.
  function Column(ls: seq<Local>, k: nat, j: nat): (ws: seq<Word>)
    requires k <= |ls| && forall i :: 0 <= i < k ==> j < |ls[i].send|
    ensures |ws| == k && forall i :: 0 <= i < k ==> ws[i] == ls[i].send[j]
  {
    seq(k, i requires 0 <= i < k => ls[i].send[j])
  }

  // The fold of buffers is the fold of each of their words.
  lemma {:induction false} FoldAt(add: Adder, ls: seq<Local>, k: nat, count: nat, j: nat)
    requires 1 <= k <= |ls| && j < count && forall i :: 0 <= i < |ls| ==> |ls[i].send| == count
    ensures |FoldRanks(add, ls, k)| == count && FoldRanks(add, ls, k)[j] == Total(add, Column(ls, k, j))
  {
    FoldLength(add, ls, k);
    if k > 1 {
      FoldAt(add, ls, k - 1, count, j);
      assert Column(ls, k, j)[..k - 1] == Column(ls, k - 1, j);
    }
  }

  // Rank 0 folds the contributions in rank order.
  lemma {:induction false} GatheredIsFold(add: Adder, l: Local, ls: seq<Local>, orig: seq<Local>, i: nat)
    requires 1 <= i <= |ls| == |orig|
    requires l.recv == FoldRanks(add, orig, i)
    requires forall r :: i <= r < |ls| ==> ls[r].recv == orig[r].send
    ensures Gathered(add, l, ls, i, RecvBuf, AddIntoRecv) == l.(recv := FoldRanks(add, orig, |orig|))
    decreases |ls| - i
  {
    if i < |ls| {
      DecodeEncode(ls[i].recv);
      var l' := Deliver(add, l, AddIntoRecv, Bytes(ls[i], RecvBuf));
      assert l'.recv == FoldRanks(add, orig, i + 1);
      GatheredIsFold(add, l', ls, orig, i + 1);
    }
  }

  lemma {:induction false} RunFour(add: Adder, ls: seq<Local>, a: seq<Event>, b: seq<Event>, c: seq<Event>,
                                   d: seq<Event>)
    requires ValidEvents(|ls|, a) && ValidEvents(|ls|, b) && ValidEvents(|ls|, c) && ValidEvents(|ls|, d)
    ensures ValidEvents(|ls|, a + b + c + d)
    ensures var l1 := RunEvents(add, ls, a);
            var l2 := RunEvents(add, l1, b);
            var l3 := RunEvents(add, l2, c);
            && RunEvents(add, ls, a + b + c + d) == RunEvents(add, l3, d)
            && (SizesFrom(add, ls, a) && SizesFrom(add, l1, b) && SizesFrom(add, l2, c) && SizesFrom(add, l3, d)
                ==> SizesFrom(add, ls, a + b + c + d))
  {
    RunConcat(add, ls, a, b);
    RunConcat(add, ls, a + b, c);
    RunConcat(add, ls, a + b + c, d);
  }

  // One phase of a collective: from ls to ls'.
  ghost predicate Phase(add: Adder, ls: seq<Local>, evs: seq<Event>, ls': seq<Local>)
  {
    |ls'| == |ls| && ValidEvents(|ls|, evs) && SizesFrom(add, ls, evs) && RunEvents(add, ls, evs) == ls'
  }

  lemma {:induction false} FourPhases(add: Adder, ls: seq<Local>, a: seq<Event>, l1: seq<Local>, b: seq<Event>,
                                      l2: seq<Local>,
                                      c: seq<Event>, l3: seq<Local>, d: seq<Event>, l4: seq<Local>)
    requires Phase(add, ls, a, l1) && Phase(add, l1, b, l2) && Phase(add, l2, c, l3) && Phase(add, l3, d, l4)
    ensures Phase(add, ls, a + b + c + d, l4)
  {
    RunFour(add, ls, a, b, c, d);
  }

  lemma {:induction false} AllReduceMeaning(add: Adder, ls: seq<Local>, count: nat)
    requires Ready(count, ls)
    ensures var evs := Schedule(|ls|, AllReduce(count));
            && ValidEvents(|ls|, evs) && SizesFrom(add, ls, evs)
            && RunEvents(add, ls, evs) == Meaning(add, ls, AllReduce(count))
  {
    var n := |ls|;
    var (ca, ra) := (Same(n, CopyToRecv), Same(n, Return));
    var sum := FoldRanks(add, ls, n);
    FoldLength(add, ls, n);
    var l1 := AfterSteps(ls, 0, ca);
    AllReduceUp(add, ls, count);
    var l2 := l1[0 := l1[0].(recv := sum)];
    var l3 := Scattered(add, l2, 0, 0, RecvBuf, IntoRecv);
    AllReduceDown(add, ls, l2, count, sum);
    RunSteps(add, l3, 0, ra);
    var l4 := AfterSteps(l3, 0, ra);
    FourPhases(add, ls, Steps(0, ca), l1, Gather(1, n, RecvBuf, AddIntoRecv, 4 * count), l2,
               Scatter(0, n, 0, RecvBuf, IntoRecv, 4 * count), l3, Steps(0, ra), l4);
    assert l4 == Meaning(add, ls, AllReduce(count));
  }

  // The copy and the gather: rank 0 has the fold, the others their own copies.
  lemma {:induction false} AllReduceUp(add: Adder, ls: seq<Local>, count: nat)
    requires Ready(count, ls)
    ensures var n := |ls|; var ca := Same(n, CopyToRecv); var l1 := AfterSteps(ls, 0, ca);
      && Phase(add, ls, Steps(0, ca), l1)
      && (forall r :: 0 <= r < n ==> l1[r] == ls[r].(recv := ls[r].send))
      && Phase(add, l1, Gather(1, n, RecvBuf, AddIntoRecv, 4 * count), l1[0 := l1[0].(recv := FoldRanks(add, ls, n))])
  {
    var n := |ls|;
    var ca := Same(n, CopyToRecv);
    RunSteps(add, ls, 0, ca);
    var l1 := AfterSteps(ls, 0, ca);
    RunGather(add, l1, 1, RecvBuf, AddIntoRecv, 4 * count);
    GatheredIsFold(add, l1[0], l1, ls, 1);
  }

  // The broadcast from rank 0: everybody has rank 0's result.
  lemma {:induction false} AllReduceDown(add: Adder, ls: seq<Local>, l2: seq<Local>, count: nat, sum: seq<Word>)
    requires |ls| > 0 && |l2| == |ls| && |sum| == count && l2[0].recv == sum
    requires forall r :: 0 <= r < |ls| ==> l2[r] == ls[r].(recv := l2[r].recv)
    ensures var l3 := Scattered(add, l2, 0, 0, RecvBuf, IntoRecv);
      && Phase(add, l2, Scatter(0, |ls|, 0, RecvBuf, IntoRecv, 4 * count), l3)
      && forall r :: 0 <= r < |ls| ==> l3[r] == ls[r].(recv := sum)
  {
    RunScatter(add, l2, 0, 0, RecvBuf, IntoRecv, 4 * count);
    DecodeEncode(sum);
  }

  lemma {:induction false} GatheredSignals(add: Adder, l: Local, ls: seq<Local>, i: nat)
    ensures Gathered(add, l, ls, i, Signal, DropSignal) == l
    decreases |ls| - i
  {
    if i < |ls| { GatheredSignals(add, l, ls, i + 1); }
  }

  // The signals change nobody's memory.
  lemma {:induction false} SignalsOnly(add: Adder, ls: seq<Local>)
    requires |ls| > 0
    ensures var up := Gather(1, |ls|, Signal, DropSignal, 4);
            ValidEvents(|ls|, up) && SizesFrom(add, ls, up) && RunEvents(add, ls, up) == ls
    ensures var down := Scatter(0, |ls|, 0, Signal, DropSignal, 4);
            ValidEvents(|ls|, down) && SizesFrom(add, ls, down) && RunEvents(add, ls, down) == ls
  {
    RunGather(add, ls, 1, Signal, DropSignal, 4);
    GatheredSignals(add, ls[0], ls, 1);
    assert ls[0 := ls[0]] == ls;
    RunScatter(add, ls, 0, 0, Signal, DropSignal, 4);
    assert Scattered(add, ls, 0, 0, Signal, DropSignal) == ls;
  }

  lemma {:induction false} BarrierMeaning(add: Adder, ls: seq<Local>)
    requires |ls| > 0
    ensures var evs := Schedule(|ls|, Barrier);
            && ValidEvents(|ls|, evs) && SizesFrom(add, ls, evs)
            && RunEvents(add, ls, evs) == Meaning(add, ls, Barrier)
  {
    var n := |ls|;
    var (ea, la) := (Same(n, EnterBarrier), Same(n, LeaveBarrier));
    RunSteps(add, ls, 0, ea);
    var l1 := AfterSteps(ls, 0, ea);
    SignalsOnly(add, l1);
    RunSteps(add, l1, 0, la);
    var l4 := AfterSteps(l1, 0, la);
    FourPhases(add, ls, Steps(0, ea), l1, Gather(1, n, Signal, DropSignal, 4), l1, Scatter(0, n, 0, Signal, DropSignal,
        4), l1, Steps(0, la), l4);
    assert l4 == Meaning(add, ls, Barrier);
  }

  lemma {:induction false} GatheredReports(add: Adder, l: Local, ls: seq<Local>, times: seq<seq<Byte>>, i: nat)
    requires i <= |ls| == |times| && forall r :: i <= r < |ls| ==> ls[r].time == times[r]
    ensures Gathered(add, l, ls, i, Elapsed, KeepReport) == l.(reports := l.reports + times[i..])
    decreases |ls| - i
  {
    if i < |ls| {
      var l' := Deliver(add, l, KeepReport, Bytes(ls[i], Elapsed));
      GatheredReports(add, l', ls, times, i + 1);
      assert l.reports + [times[i]] + times[i + 1..] == l.reports + times[i..];
    }
  }

  lemma {:induction false} ReportMeaning(add: Adder, ls: seq<Local>, times: seq<seq<Byte>>)
    requires |ls| > 0 && ValidCollective(|ls|, Report(times))
    ensures var evs := Schedule(|ls|, Report(times));
            && ValidEvents(|ls|, evs) && SizesFrom(add, ls, evs)
            && RunEvents(add, ls, evs) == Meaning(add, ls, Report(times))
  {
    var n := |ls|;
    var acts := seq(n, i requires 0 <= i < n => SetTime(times[i]));
    RunSteps(add, ls, 0, acts);
    var l1 := AfterSteps(ls, 0, acts);
    RunGather(add, l1, 1, Elapsed, KeepReport, 8);
    GatheredReports(add, l1[0], l1, times, 1);
    RunConcat(add, ls, Steps(0, acts), Gather(1, n, Elapsed, KeepReport, 8));
    assert forall r :: 0 <= r < n ==> ls[r].reports + [] == ls[r].reports;
    assert l1[0 := l1[0].(reports := l1[0].reports + times[1..])] == Meaning(add, ls, Report(times));
  }

  lemma {:induction false} BroadcastMeaning(add: Adder, ls: seq<Local>, root: nat, count: nat)
    requires Ready(count, ls) && root < |ls|
    ensures var evs := Schedule(|ls|, Broadcast(root, count));
            && ValidEvents(|ls|, evs) && SizesFrom(add, ls, evs)
            && RunEvents(add, ls, evs) == Meaning(add, ls, Broadcast(root, count))
  {
    RunScatter(add, ls, 0, root, SendBuf, IntoSend, 4 * count);
    DecodeEncode(ls[root].send);
    assert Scattered(add, ls, 0, root, SendBuf, IntoSend) == Meaning(add, ls, Broadcast(root, count));
  }

  lemma {:induction false} FillMeaning(add: Adder, ls: seq<Local>, data: seq<seq<Word>>)
    requires |ls| > 0 && ValidCollective(|ls|, Fill(data))
    ensures var evs := Schedule(|ls|, Fill(data));
            && ValidEvents(|ls|, evs) && SizesFrom(add, ls, evs)
            && RunEvents(add, ls, evs) == Meaning(add, ls, Fill(data))
  {
    var n := |ls|;
    var acts := seq(n, i requires 0 <= i < n => Load(data[i]));
    RunSteps(add, ls, 0, acts);
    assert AfterSteps(ls, 0, acts) == Meaning(add, ls, Fill(data));
  }

  lemma {:induction false} CollectiveMeaning(add: Adder, ls: seq<Local>, count: nat, c: Collective)
    requires Ready(count, ls) && ValidCollective(|ls|, c)
    requires c.Broadcast? || c.AllReduce? ==> c.count == count
    ensures var evs := Schedule(|ls|, c);
            && ValidEvents(|ls|, evs) && SizesFrom(add, ls, evs)
            && RunEvents(add, ls, evs) == Meaning(add, ls, c)
    ensures Ready(CountAfter(|ls|, count, c), Meaning(add, ls, c))
  {
    match c
    case Barrier => BarrierMeaning(add, ls);
    case Broadcast(root, _) => BroadcastMeaning(add, ls, root, count);
    case AllReduce(_) => AllReduceMeaning(add, ls, count);
    case Report(times) => ReportMeaning(add, ls, times);
    case Fill(data) => FillMeaning(add, ls, data);
  }

  lemma {:induction false} ScheduleMeaning(add: Adder, ls: seq<Local>, count: nat, cs: seq<Collective>)
    requires Ready(count, ls) && Consistent(|ls|, count, cs)
    ensures ValidSequence(|ls|, cs) && ValidEvents(|ls|, WholeSchedule(|ls|, cs))
    ensures SizesFrom(add, ls, WholeSchedule(|ls|, cs))
    ensures RunEvents(add, ls, WholeSchedule(|ls|, cs)) == WholeMeaning(add, ls, cs)
    decreases |cs|
  {
    ConsistentIsValid(|ls|, count, cs);
    WholeScheduleValid(|ls|, cs);
    if cs != [] {
      CollectiveMeaning(add, ls, count, cs[0]);
      ScheduleMeaning(add, Meaning(add, ls, cs[0]), CountAfter(|ls|, count, cs[0]), cs[1..]);
      RunConcat(add, ls, Schedule(|ls|, cs[0]), WholeSchedule(|ls|, cs[1..]));
    }
  }
}
