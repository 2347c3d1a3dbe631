// What holds in every run of the collectives: no deadlock, no infinite run,
// the right result at every rank, and barriers that hold everybody back.

module TcpTheorems {
  import opened Wire
  import opened Collectives
  import opened TcpNet
  import opened TcpSpec

  // ---------------------------------------------------------------- runs

  function Start(n: nat, init: seq<Local>, cs: seq<Collective>): Net
    requires |init| == n && forall k :: 0 <= k < |cs| ==> ValidCollective(n, cs[k])
  {
    Net(seq(n, r requires 0 <= r < n => RankState(WholeProgram(r, n, cs), 0, [], init[r])),
        map i, j | 0 <= i < n && 0 <= j < n :: (i, j) := [])
  }

  ghost predicate IsRun(add: Adder, cap: nat, tr: seq<Net>)
  {
    |tr| > 0 && forall k :: 0 < k < |tr| ==> Next(add, cap, tr[k - 1], tr[k])
  }

  // Ranks with `count`-word buffers, starting together on the same calls.
  ghost predicate StartsAs(add: Adder, cap: nat, init: seq<Local>, count: nat, cs: seq<Collective>, tr: seq<Net>)
  {
    && IsRun(add, cap, tr) && cap >= 1
    && Ready(count, init) && Consistent(|init|, count, cs)
    && ValidSequence(|init|, cs)
    && tr[0] == Start(|init|, init, cs)
  }

  ghost function SetupOf(add: Adder, cap: nat, init: seq<Local>, cs: seq<Collective>): Setup
    requires ValidSequence(|init|, cs)
  {
    Setup(|init|, cap, add, init, WholeSchedule(|init|, cs))
  }

  lemma {:induction false} StartInv(add: Adder, cap: nat, init: seq<Local>, count: nat, cs: seq<Collective>)
    requires Ready(count, init) && Consistent(|init|, count, cs) && cap >= 1
    ensures ValidSequence(|init|, cs)
    ensures Inv(SetupOf(add, cap, init, cs), Start(|init|, init, cs))
  {
    ScheduleMeaning(add, init, count, cs);
    var S := SetupOf(add, cap, init, cs);
    SizesAgreeFromStart(S);
    StartInvAt(S, Start(|init|, init, cs), cs);
  }

  lemma {:induction false} StartInvAt(S: Setup, s: Net, cs: seq<Collective>)
    requires ValidSetup(S) && SizesAgree(S) && ValidSequence(S.n, cs) && S.evs == WholeSchedule(S.n, cs)
    requires s == Start(S.n, S.init, cs)
    ensures Inv(S, s)
  {
    var g := seq(S.n, r requires 0 <= r < S.n => NextPos(S.evs, r, 0));
    forall r | 0 <= r < S.n ensures RankInv(S, s.ranks[r], r, g[r]) {
      StartRank(S, s.ranks[r], r, cs);
    }
    forall i, j | 0 <= i < S.n && 0 <= j < S.n && i != j
      ensures (i, j) in s.chan && ChanInv(S, s.ranks[i], g[i], s.ranks[j], g[j], i, j, s.chan[(i, j)])
    {
      StartChan(S, s.ranks[i], s.ranks[j], i, j);
    }
    assert InvAt(S, s, g);
  }

  lemma {:induction false} StartChan(S: Setup, qi: RankState, qj: RankState, i: nat, j: nat)
    requires ValidSetup(S) && i < S.n && j < S.n && RankInv(S, qi, i, NextPos(S.evs, i, 0))
    requires qi.off == 0 && qj.got == []
    ensures ChanInv(S, qi, NextPos(S.evs, i, 0), qj, NextPos(S.evs, j, 0), i, j, [])
  {
    SkipForeign(S, i, 0, NextPos(S.evs, i, 0));
    SkipForeign(S, j, 0, NextPos(S.evs, j, 0));
    assert Stream(S, i, j, 0) == [];
  }

  lemma {:induction false} StartRank(S: Setup, q: RankState, r: nat, cs: seq<Collective>)
    requires ValidSetup(S) && r < S.n && ValidSequence(S.n, cs) && S.evs == WholeSchedule(S.n, cs)
    requires q == RankState(WholeProgram(r, S.n, cs), 0, [], S.init[r])
    ensures RankInv(S, q, r, NextPos(S.evs, r, 0))
  {
    WholeProgramIsProjection(r, S.n, cs);
    SkipForeign(S, r, 0, NextPos(S.evs, r, 0));
    assert S.evs[0..] == S.evs;
  }

  lemma {:induction false} RunKeepsInv(S: Setup, tr: seq<Net>, k: nat)
    requires IsRun(S.add, S.cap, tr) && Inv(S, tr[0]) && k < |tr|
    ensures Inv(S, tr[k])
  {
    if k > 0 {
      RunKeepsInv(S, tr, k - 1);
      StepKeepsInv(S, tr[k - 1], tr[k]);
    }
  }

  lemma {:induction false} ReachableInv(add: Adder, cap: nat, init: seq<Local>, count: nat, cs: seq<Collective>,
                                        tr: seq<Net>, k: nat)
    requires StartsAs(add, cap, init, count, cs, tr) && k < |tr|
    ensures Inv(SetupOf(add, cap, init, cs), tr[k])
  {
    StartInv(add, cap, init, count, cs);
    RunKeepsInv(SetupOf(add, cap, init, cs), tr, k);
  }

  // ---------------------------------------------------------------- no deadlock

  ghost predicate AllDone(s: Net)
  {
    forall r :: 0 <= r < |s.ranks| ==> s.ranks[r].rest == []
  }

  lemma {:induction false} Furthest(g: seq<nat>) returns (r: nat)
    requires |g| > 0
    ensures r < |g| && forall x :: 0 <= x < |g| ==> g[r] <= g[x]
  {
    if |g| == 1 {
      r := 0;
    } else {
      var r' := Furthest(g[1..]);
      r := if g[0] <= g[r' + 1] then 0 else r' + 1;
      forall x | 0 <= x < |g| ensures g[r] <= g[x] {
        if x > 0 { assert g[x] == g[1..][x - 1]; }
      }
    }
  }

  // The sender of the earliest unfinished message is still in it: it can send,
  // or return, or the channel is full and the receiver can read.
  lemma {:induction false} SenderSide(S: Setup, s: Net, g: seq<nat>, p: nat, i: nat, j: nat)
    requires InvAt(S, s, g) && p < |S.evs| && IsMsg(S.evs[p], i, j) && i < S.n && j < S.n && i != j
    requires g[i] == p && p <= g[j]
    ensures exists m :: Enabled(S.cap, s, m)
  {
    var (qi, qj, c) := (s.ranks[i], s.ranks[j], s.chan[(i, j)]);
    assert RankInv(S, qi, i, p) && RankInv(S, qj, j, g[j]);
    ProjectHead(i, S.evs, p);
    CurrentCall(S, s, g, i);
    if qi.off == |Payload(S, p)| {
      assert Enabled(S.cap, s, Advance(i));
    } else if |c| < S.cap {
      assert Enabled(S.cap, s, SendSome(i, 1));
    } else {
      FullMeansReaderIsHere(S, qi, qj, g[j], i, j, p, c);
      ProjectHead(j, S.evs, p);
      CurrentCall(S, s, g, j);
      assert Enabled(S.cap, s, RecvSome(j, 1));
    }
  }

  lemma {:induction false} FullMeansReaderIsHere(S: Setup, qi: RankState, qj: RankState, gj: nat, i: nat, j: nat,
                                                 p: nat, c: seq<Byte>)
    requires ValidSetup(S) && i < S.n && RankInv(S, qi, i, p) && p <= gj <= |S.evs|
    requires p < |S.evs| && IsMsg(S.evs[p], i, j) && qi.off < |Payload(S, p)| && |c| > 0
    requires ChanInv(S, qi, p, qj, gj, i, j, c)
    ensures gj == p && |qj.got| < |Payload(S, p)|
  {
    if gj > p { StreamPrefix(S, i, j, p + 1, gj); }
  }

  // The sender has finished with it: what the receiver misses is on the channel.
  lemma {:induction false} ReceiverSide(S: Setup, s: Net, g: seq<nat>, p: nat, i: nat, j: nat)
    requires InvAt(S, s, g) && p < |S.evs| && IsMsg(S.evs[p], i, j) && i < S.n && j < S.n && i != j
    requires g[i] > p && g[j] == p
    ensures exists m :: Enabled(S.cap, s, m)
  {
    var (qi, qj, c) := (s.ranks[i], s.ranks[j], s.chan[(i, j)]);
    assert RankInv(S, qi, i, g[i]) && RankInv(S, qj, j, p);
    assert ChanInv(S, qi, g[i], qj, p, i, j, c);
    StreamPrefix(S, i, j, p + 1, g[i]);
    ProjectHead(j, S.evs, p);
    CurrentCall(S, s, g, j);
    if |qj.got| == |Payload(S, p)| {
      assert Enabled(S.cap, s, Advance(j));
    } else {
      assert Enabled(S.cap, s, RecvSome(j, 1));
    }
  }

  lemma {:induction false} SomethingCanMove(S: Setup, s: Net)
    requires Inv(S, s) && !AllDone(s)
    ensures exists m :: Enabled(S.cap, s, m)
  {
    var g :| InvAt(S, s, g);
    var busy :| 0 <= busy < |s.ranks| && s.ranks[busy].rest != [];
    CurrentCall(S, s, g, busy);
    var r := Furthest(g);
    EarliestCanMove(S, s, g, r);
  }

  lemma {:induction false} EarliestCanMove(S: Setup, s: Net, g: seq<nat>, r: nat)
    requires InvAt(S, s, g) && r < S.n && g[r] < |S.evs| && forall x :: 0 <= x < S.n ==> g[r] <= g[x]
    ensures exists m :: Enabled(S.cap, s, m)
  {
    var p := g[r];
    assert RankInv(S, s.ranks[r], r, p);
    assert ValidEvent(S.n, S.evs[p]);
    match S.evs[p]
    case Step(_, _) =>
      ProjectHead(r, S.evs, p);
      assert Enabled(S.cap, s, Advance(r));
    case Msg(i, j, _, _, _) =>
      if g[i] == p { SenderSide(S, s, g, p, i, j); } else { ReceiverSide(S, s, g, p, i, j); }
  }

  // No reachable state is stuck, whatever the schedule, the sizes of the
  // partial transfers and the capacity of the channels.
  lemma {:induction false} NoDeadlock(add: Adder, cap: nat, init: seq<Local>, count: nat, cs: seq<Collective>,
                                      tr: seq<Net>, k: nat)
    requires StartsAs(add, cap, init, count, cs, tr) && k < |tr|
    ensures AllDone(tr[k]) || exists s' :: Next(add, cap, tr[k], s')
  {
    ReachableInv(add, cap, init, count, cs, tr, k);
    if !AllDone(tr[k]) {
      SomethingCanMove(SetupOf(add, cap, init, cs), tr[k]);
      var m :| Enabled(cap, tr[k], m);
      assert Next(add, cap, tr[k], Apply(add, cap, tr[k], m));
    }
  }

  // ---------------------------------------------------------------- progress

  function OpSize(op: Op): nat
  {
    if op.Do? then 0 else op.size
  }

  function OpsWork(ops: seq<Op>): nat
  {
    if ops == [] then 0 else 1 + OpSize(ops[0]) + OpsWork(ops[1..])
  }

  function Moved(q: RankState): nat
    requires q.rest != []
  {
    match q.rest[0]
    case Send(_, _, size) => if q.off <= size then q.off else size
    case Recv(_, _, size) => if |q.got| <= size then |q.got| else size
    case Do(_) => 0
  }

  function RankWork(q: RankState): nat
  {
    if q.rest == [] then 0 else OpsWork(q.rest) - Moved(q)
  }

  function TotalWork(qs: seq<RankState>): nat
  {
    if qs == [] then 0 else RankWork(qs[0]) + TotalWork(qs[1..])
  }

  lemma {:induction false} WorkUpdate(qs: seq<RankState>, r: nat, q: RankState)
    requires r < |qs|
    ensures TotalWork(qs[r := q]) == TotalWork(qs) - RankWork(qs[r]) + RankWork(q)
  {
    if r == 0 {
      assert qs[r := q][1..] == qs[1..];
    } else {
      assert qs[r := q][1..] == qs[1..][r - 1 := q];
      WorkUpdate(qs[1..], r - 1, q);
    }
  }

  lemma {:induction false} StepMakesProgress(add: Adder, cap: nat, s: Net, m: Move)
    requires Enabled(cap, s, m)
    ensures TotalWork(Apply(add, cap, s, m).ranks) < TotalWork(s.ranks)
  {
    WorkUpdate(s.ranks, m.r, Apply(add, cap, s, m).ranks[m.r]);
  }

  // A run has at most as many steps as there are bytes and calls to get through.
  lemma {:induction false} RunsAreFinite(add: Adder, cap: nat, tr: seq<Net>, k: nat)
    requires IsRun(add, cap, tr) && k < |tr|
    ensures TotalWork(tr[k].ranks) + k <= TotalWork(tr[0].ranks)
  {
    if k > 0 {
      RunsAreFinite(add, cap, tr, k - 1);
      assert Next(add, cap, tr[k - 1], tr[k]);
      var m :| Enabled(cap, tr[k - 1], m) && tr[k] == Apply(add, cap, tr[k - 1], m);
      StepMakesProgress(add, cap, tr[k - 1], m);
    }
  }

  // ---------------------------------------------------------------- results

  lemma {:induction false} WholeRunMeaning(S: Setup, count: nat, cs: seq<Collective>)
    requires ValidSequence(|S.init|, cs) && Ready(count, S.init) && Consistent(|S.init|, count, cs)
    requires S == SetupOf(S.add, S.cap, S.init, cs) && S.cap >= 1
    ensures ValidSetup(S) && At(S, |S.evs|) == WholeMeaning(S.add, S.init, cs)
  {
    ScheduleMeaning(S.add, S.init, count, cs);
    AtIsRun(S, |S.evs|);
    assert S.evs[..|S.evs|] == S.evs;
  }

  // A rank that has returned from everything holds what the collectives mean.
  lemma {:induction false} FinishedRank(add: Adder, cap: nat, init: seq<Local>, count: nat, cs: seq<Collective>,
                                        tr: seq<Net>, k: nat, r: nat)
    requires StartsAs(add, cap, init, count, cs, tr) && k < |tr| && r < |init|
    ensures |tr[k].ranks| == |init|
    ensures tr[k].ranks[r].rest == [] ==> tr[k].ranks[r].loc == WholeMeaning(add, init, cs)[r]
  {
    ReachableInv(add, cap, init, count, cs, tr, k);
    var S := SetupOf(add, cap, init, cs);
    var g :| InvAt(S, tr[k], g);
    WholeRunMeaning(S, count, cs);
    assert RankInv(S, tr[k].ranks[r], r, g[r]);
    if tr[k].ranks[r].rest == [] && g[r] < |S.evs| {
      ProjectHead(r, S.evs, g[r]);
    }
  }

  // One all-reduce: word j of the receive buffer of every rank that returns is
  // the left fold, in rank order, of word j of all send buffers; nothing else of
  // its buffers has changed.
  lemma {:induction false} AllReduceIsFold(add: Adder, cap: nat, init: seq<Local>, count: nat, tr: seq<Net>, k: nat,
                                           r: nat)
    requires StartsAs(add, cap, init, count, [AllReduce(count)], tr) && k < |tr| && r < |init|
    ensures |tr[k].ranks| == |init|
    ensures tr[k].ranks[r].rest == [] ==>
      var l := tr[k].ranks[r].loc;
      && |l.recv| == count && l == init[r].(recv := l.recv, results := init[r].results + [l.recv])
      && forall j :: 0 <= j < count ==> l.recv[j] == Total(add, Column(init, |init|, j))
    ensures tr[k].ranks[r].rest == [] ==> tr[k].ranks[r].loc.recv == FoldRanks(add, init, |init|)
    ensures AllDone(tr[k]) || exists s' :: Next(add, cap, tr[k], s')
  {
    FinishedRank(add, cap, init, count, [AllReduce(count)], tr, k, r);
    var cs := [AllReduce(count)];
    assert cs[1..] == [];
    assert WholeMeaning(add, init, cs) == Meaning(add, init, AllReduce(count));
    NoDeadlock(add, cap, init, count, cs, tr, k);
    FoldLength(add, init, |init|);
    forall j | 0 <= j < count ensures FoldRanks(add, init, |init|)[j] == Total(add, Column(init, |init|, j)) {
      FoldAt(add, init, |init|, count, j);
    }
  }

  // One broadcast: every rank that returns has the root's buffer, and nothing
  // else has changed.
  lemma {:induction false} BroadcastIsCopy(add: Adder, cap: nat, init: seq<Local>, count: nat, root: nat, tr: seq<Net>,
                                           k: nat, r: nat)
    requires StartsAs(add, cap, init, count, [Broadcast(root, count)], tr) && k < |tr| && r < |init|
    ensures |tr[k].ranks| == |init| && root < |init|
    ensures tr[k].ranks[r].rest == [] ==> tr[k].ranks[r].loc == init[r].(send := init[root].send)
  {
    var cs := [Broadcast(root, count)];
    FinishedRank(add, cap, init, count, cs, tr, k, r);
    assert ValidCollective(|init|, cs[0]) && cs[1..] == [];
    assert WholeMeaning(add, init, cs) == Meaning(add, init, cs[0]);
  }

  // One barrier: every rank that returns has entered and left it once, and
  // nothing else has changed.
  lemma {:induction false} BarrierIsCounted(add: Adder, cap: nat, init: seq<Local>, count: nat, tr: seq<Net>, k: nat,
                                            r: nat)
    requires StartsAs(add, cap, init, count, [Barrier], tr) && k < |tr| && r < |init|
    ensures |tr[k].ranks| == |init|
    ensures tr[k].ranks[r].rest == [] ==>
      tr[k].ranks[r].loc == init[r].(entered := init[r].entered + 1, left := init[r].left + 1)
  {
    var cs := [Barrier];
    FinishedRank(add, cap, init, count, cs, tr, k, r);
    assert ValidCollective(|init|, cs[0]) && cs[1..] == [];
    assert WholeMeaning(add, init, cs) == Meaning(add, init, cs[0]);
  }

  // The data a rank prepares between two collectives is what it sends next.
  lemma {:induction false} FillIsData(add: Adder, cap: nat, init: seq<Local>, count: nat, data: seq<seq<Word>>,
                                      tr: seq<Net>, k: nat, r: nat)
    requires StartsAs(add, cap, init, count, [Fill(data)], tr) && k < |tr| && r < |init|
    ensures |tr[k].ranks| == |init| == |data|
    ensures tr[k].ranks[r].rest == [] ==> tr[k].ranks[r].loc == init[r].(send := data[r])
  {
    var cs := [Fill(data)];
    FinishedRank(add, cap, init, count, cs, tr, k, r);
    assert ValidCollective(|init|, cs[0]) && cs[1..] == [];
    assert WholeMeaning(add, init, cs) == Meaning(add, init, cs[0]);
  }

  // One report: rank 0 has the times of the other ranks, in rank order.
  lemma {:induction false} ReportIsTimes(add: Adder, cap: nat, init: seq<Local>, count: nat, times: seq<seq<Byte>>,
                                         tr: seq<Net>, k: nat, r: nat)
    requires StartsAs(add, cap, init, count, [Report(times)], tr) && k < |tr| && r < |init|
    ensures |tr[k].ranks| == |init| == |times|
    ensures tr[k].ranks[r].rest == [] ==>
      var l := tr[k].ranks[r].loc;
      && l == init[r].(time := times[r], reports := l.reports)
      && |l.reports| == |init[r].reports| + (if r == 0 then |init| - 1 else 0)
      && (forall i :: 0 <= i < |init[r].reports| ==> l.reports[i] == init[r].reports[i])
      && (r == 0 ==> forall i :: 1 <= i < |init| ==> l.reports[|init[0].reports| + i - 1] == times[i])
  {
    var cs := [Report(times)];
    FinishedRank(add, cap, init, count, cs, tr, k, r);
    assert ValidCollective(|init|, cs[0]) && cs[1..] == [];
    assert WholeMeaning(add, init, cs) == Meaning(add, init, cs[0]);
  }

  predicate Longer(x: Local, y: Local)
  {
    x.results <= y.results && x.entered <= y.entered && x.left <= y.left
  }

  lemma {:induction false} ChainGrows(ls: seq<Local>, a: nat, b: nat)
    requires a <= b < |ls| && forall k :: a <= k < b ==> Longer(ls[k], ls[k + 1])
    ensures Longer(ls[a], ls[b])
    decreases b
  {
    if a < b {
      ChainGrows(ls, a, b - 1);
      assert Longer(ls[b - 1], ls[b - 1 + 1]);
    }
  }

  lemma {:induction false} HistoryGrows(S: Setup, r: nat, a: nat, b: nat)
    requires ValidSetup(S) && r < S.n && a <= b <= |S.evs|
    ensures Longer(At(S, a)[r], At(S, b)[r])
  {
    var ls := seq(|S.evs| + 1, k requires 0 <= k <= |S.evs| => At(S, k)[r]);
    forall k | a <= k < b ensures Longer(ls[k], ls[k + 1]) { EventGrows(S, r, k); }
    ChainGrows(ls, a, b);
  }

  lemma {:induction false} EventGrows(S: Setup, r: nat, p: nat)
    requires ValidSetup(S) && r < S.n && p < |S.evs|
    ensures At(S, p)[r].results <= At(S, p + 1)[r].results
    ensures At(S, p)[r].entered <= At(S, p + 1)[r].entered
    ensures At(S, p)[r].left <= At(S, p + 1)[r].left
  {
    assert At(S, p + 1) == Exec(S.add, At(S, p), S.evs[p]);
    assert ValidEvent(S.n, S.evs[p]);
  }

  // In the middle of a run, with ranks in different collectives, every
  // all-reduce a rank has returned from gave it the right sum.
  lemma {:induction false} ResultsSoFar(add: Adder, cap: nat, init: seq<Local>, count: nat, cs: seq<Collective>,
                                        tr: seq<Net>, k: nat, r: nat)
    requires StartsAs(add, cap, init, count, cs, tr) && k < |tr| && r < |init|
    ensures |tr[k].ranks| == |init|
    ensures tr[k].ranks[r].loc.results <= WholeMeaning(add, init, cs)[r].results
  {
    ReachableInv(add, cap, init, count, cs, tr, k);
    var S := SetupOf(add, cap, init, cs);
    var g :| InvAt(S, tr[k], g);
    WholeRunMeaning(S, count, cs);
    assert RankInv(S, tr[k].ranks[r], r, g[r]);
    HistoryGrows(S, r, g[r], |S.evs|);
  }

  // ---------------------------------------------------------------- barriers

  // In any state of any run, a receive that is complete holds exactly the bytes
  // its matching send was given: message number p of the common order, sent by
  // the rank it names, even when the ranks are at different collectives.
  lemma {:induction false} ReceiveGetsItsMessage(add: Adder, cap: nat, init: seq<Local>, count: nat,
                                                 cs: seq<Collective>, tr: seq<Net>, k: nat, r: nat)
    requires StartsAs(add, cap, init, count, cs, tr) && k < |tr| && r < |init|
    requires Enabled(cap, tr[k], Advance(r)) && tr[k].ranks[r].rest[0].Recv?
    ensures exists g :: Matches(SetupOf(add, cap, init, cs), tr[k], g, r)
  {
    ReachableInv(add, cap, init, count, cs, tr, k);
    var S := SetupOf(add, cap, init, cs);
    var g :| InvAt(S, tr[k], g);
    CallIsComplete(S, tr[k], g, r);
    CurrentCall(S, tr[k], g, r);
    assert Matches(S, tr[k], g, r);
  }

  // Rank r stands at the receiving end of event g[r], and has all its bytes:
  // the ones the sender's buffer had at that event.
  ghost predicate Matches(S: Setup, s: Net, g: seq<nat>, r: nat)
  {
    && InvAt(S, s, g) && r < S.n && g[r] < |S.evs| && S.evs[g[r]].Msg?
    && S.evs[g[r]].dst == r && s.ranks[r].rest != [] && s.ranks[r].rest[0].Recv?
        && s.ranks[r].rest[0].from == S.evs[g[r]].src
    && s.ranks[r].got == Payload(S, g[r])
  }

  lemma {:induction false} SentNoFurther(S: Setup, q: RankState, p: nat, i: nat, j: nat, h: nat)
    requires ValidSetup(S) && i < S.n && RankInv(S, q, i, p) && p < h <= |S.evs|
    ensures |SentBy(S, q, p, i, j)| <= |Stream(S, i, j, h)|
  {
    StreamPrefix(S, i, j, p + 1, h);
  }

  // Nobody finishes reading a message before its sender has reached it.
  lemma {:induction false} ReadAfterSent(S: Setup, s: Net, g: seq<nat>, p: nat, i: nat, j: nat)
    requires InvAt(S, s, g) && p < |S.evs| && IsMsg(S.evs[p], i, j) && S.evs[p].size > 0
    requires i < S.n && j < S.n && i != j && g[j] > p
    ensures g[i] >= p
  {
    var (qi, qj) := (s.ranks[i], s.ranks[j]);
    assert RankInv(S, qi, i, g[i]) && RankInv(S, qj, j, g[j]);
    ReadAtMostSent(S, s, g, i, j);
    ReadIncludes(S, qj, g[j], i, j, p);
    if g[i] < p {
      SentNoFurther(S, qi, g[i], i, j, p);
    }
  }

  lemma {:induction false} ReadAtMostSent(S: Setup, s: Net, g: seq<nat>, i: nat, j: nat)
    requires InvAt(S, s, g) && i < S.n && j < S.n && i != j
    ensures RankInv(S, s.ranks[i], i, g[i]) && g[j] <= |S.evs|
    ensures |ReadBy(S, s.ranks[j], g[j], i, j)| <= |SentBy(S, s.ranks[i], g[i], i, j)|
  {
    assert RankInv(S, s.ranks[i], i, g[i]) && RankInv(S, s.ranks[j], j, g[j]);
    assert ChanInv(S, s.ranks[i], g[i], s.ranks[j], g[j], i, j, s.chan[(i, j)]);
  }

  // Past message p, its bytes are among those read.
  lemma {:induction false} ReadIncludes(S: Setup, q: RankState, g: nat, i: nat, j: nat, p: nat)
    requires ValidSetup(S) && SizesAgree(S) && p < g <= |S.evs| && IsMsg(S.evs[p], i, j) && S.evs[p].size > 0
    ensures |Stream(S, i, j, p)| < |ReadBy(S, q, g, i, j)|
  {
    StreamPrefix(S, i, j, p + 1, g);
    assert Stream(S, i, j, p + 1) == Stream(S, i, j, p) + Payload(S, p);
  }

  // Before event p of rank r, rank q's b-th barrier entry is known to r
  // directly, by one message, or by two.
  ghost predicate Heard(S: Setup, p: nat, r: nat, q: nat, b: nat)
    requires ValidSetup(S) && p <= |S.evs| && r < S.n && q < S.n
  {
    || (q == r && At(S, p)[r].entered >= b)
    || (exists m :: 0 <= m < p && Signals(S, m, q, r, b))
    || (exists x, m, m' :: 0 <= m < m' < p && Relays(S, m, m', q, x, r, b))
  }

  ghost predicate Signals(S: Setup, m: nat, q: nat, r: nat, b: nat)
    requires ValidSetup(S) && m < |S.evs| && q < S.n
  {
    IsMsg(S.evs[m], q, r) && S.evs[m].size > 0 && At(S, m)[q].entered >= b
  }

  ghost predicate Relays(S: Setup, m: nat, m': nat, q: nat, x: nat, r: nat, b: nat)
    requires ValidSetup(S) && m < |S.evs| && m' < |S.evs| && q < S.n
  {
    Signals(S, m, q, x, b) && IsMsg(S.evs[m'], x, r) && S.evs[m'].size > 0
  }

  lemma {:induction false} HeardIsTrue(S: Setup, s: Net, g: seq<nat>, p: nat, r: nat, q: nat, b: nat)
    requires InvAt(S, s, g) && r < S.n && q < S.n && p <= g[r]
    requires Heard(S, p, r, q, b)
    ensures s.ranks[q].loc.entered >= b
  {
    assert RankInv(S, s.ranks[q], q, g[q]) && RankInv(S, s.ranks[r], r, g[r]);
    if q == r && At(S, p)[r].entered >= b {
      HistoryGrows(S, q, p, g[q]);
    } else if exists m :: 0 <= m < p && Signals(S, m, q, r, b) {
      var m :| 0 <= m < p && Signals(S, m, q, r, b);
      assert ValidEvent(S.n, S.evs[m]);
      ReadAfterSent(S, s, g, m, q, r);
      HistoryGrows(S, q, m, g[q]);
    } else {
      var x, m, m' :| 0 <= m < m' < p && Relays(S, m, m', q, x, r, b);
      assert ValidEvent(S.n, S.evs[m]) && ValidEvent(S.n, S.evs[m']);
      ReadAfterSent(S, s, g, m', x, r);
      ReadAfterSent(S, s, g, m, q, x);
      HistoryGrows(S, q, m, g[q]);
    }
  }

  // Every departure from a barrier comes after having heard from everybody.
  ghost predicate LeavesAfterAll(S: Setup, p: nat)
    requires ValidSetup(S) && p < |S.evs|
  {
    S.evs[p].Step? && S.evs[p].act == LeaveBarrier && S.evs[p].rank < S.n ==>
      HeardFromAll(S, p, S.evs[p].rank, At(S, p)[S.evs[p].rank].left + 1)
  }

  ghost predicate HeardFromAll(S: Setup, p: nat, r: nat, b: nat)
    requires ValidSetup(S) && p <= |S.evs| && r < S.n
  {
    forall q :: 0 <= q < S.n ==> Heard(S, p, r, q, b)
  }

  lemma {:induction false} LastLeave(S: Setup, r: nat, k: nat) returns (p: nat)
    requires ValidSetup(S) && r < S.n && k <= |S.evs| && At(S, k)[r].left > S.init[r].left
    ensures p < k && S.evs[p] == Step(r, LeaveBarrier) && At(S, p)[r].left + 1 == At(S, k)[r].left
  {
    assert k > 0;
    assert At(S, k) == Exec(S.add, At(S, k - 1), S.evs[k - 1]);
    assert ValidEvent(S.n, S.evs[k - 1]);
    if S.evs[k - 1] == Step(r, LeaveBarrier) {
      p := k - 1;
    } else {
      p := LastLeave(S, r, k - 1);
    }
  }

  lemma {:induction false} AtOffset(S: Setup, o: nat, m: nat)
    requires ValidSetup(S) && o + m <= |S.evs|
    ensures ValidEvents(S.n, S.evs[o..o + m])
    ensures At(S, o + m) == RunEvents(S.add, At(S, o), S.evs[o..o + m])
  {
    AtIsRun(S, o);
    AtIsRun(S, o + m);
    TakeSplit(S.evs, o, o + m);
    RunConcat(S.add, S.init, S.evs[..o], S.evs[o..o + m]);
  }

  lemma {:induction false} TakeSplit<T>(a: seq<T>, i: nat, j: nat)
    requires i <= j <= |a|
    ensures a[..j] == a[..i] + a[i..j]
  {
  }

  lemma {:induction false} StepsAt(i: nat, acts: seq<Act>, k: nat)
    requires i <= |acts|
    ensures |Steps(i, acts)| == |acts| - i
    ensures k < |acts| - i ==> Steps(i, acts)[k] == Step(i + k, acts[i + k])
    decreases |acts| - i
  {
    if i < |acts| { StepsAt(i + 1, acts, if k > 0 then k - 1 else 0); }
  }

  lemma {:induction false} GatherAt(i: nat, n: nat, source: Source, effect: Effect, size: nat, k: nat)
    requires i <= n
    ensures |Gather(i, n, source, effect, size)| == n - i
    ensures k < n - i ==> Gather(i, n, source, effect, size)[k] == Msg(i + k, 0, source, effect, size)
    decreases n - i
  {
    if i < n { GatherAt(i + 1, n, source, effect, size, if k > 0 then k - 1 else 0); }
  }

  lemma {:induction false} ScatterAt(i: nat, n: nat, source: Source, effect: Effect, size: nat, k: nat)
    requires 1 <= i <= n
    ensures |Scatter(i, n, 0, source, effect, size)| == n - i
    ensures k < n - i ==> Scatter(i, n, 0, source, effect, size)[k] == Msg(0, i + k, source, effect, size)
    decreases n - i
  {
    if i < n { ScatterAt(i + 1, n, source, effect, size, if k > 0 then k - 1 else 0); }
  }

  // The m-th event of a barrier.
  function InBarrier(n: nat, m: nat): Event
    requires m < 4 * n - 2
  {
    if m < n then Step(m, EnterBarrier)
    else if m < 2 * n - 1 then Msg(m - n + 1, 0, Signal, DropSignal, 4)
    else if m < 3 * n - 2 then Msg(0, m - 2 * n + 2, Signal, DropSignal, 4)
    else Step(m - 3 * n + 2, LeaveBarrier)
  }

  lemma {:induction false} BarrierLayout(n: nat, m: nat)
    requires n > 0 && m < 4 * n - 2
    ensures |Schedule(n, Barrier)| == 4 * n - 2
    ensures Schedule(n, Barrier)[m] == InBarrier(n, m)
  {
    var i, j, k := if n <= m then m - n else 0, if 2 * n - 1 <= m then m - (2 * n - 1) else 0, if 3 * n - 2 <= m
        then m - (3 * n - 2) else 0;
    StepsAt(0, Same(n, EnterBarrier), m);
    GatherAt(1, n, Signal, DropSignal, 4, i);
    ScatterAt(1, n, Signal, DropSignal, 4, j);
    assert Scatter(0, n, 0, Signal, DropSignal, 4) == Scatter(1, n, 0, Signal, DropSignal, 4);
    StepsAt(0, Same(n, LeaveBarrier), k);
    BarrierFour(n, m, Steps(0, Same(n, EnterBarrier)), Gather(1, n, Signal, DropSignal, 4),
                Scatter(0, n, 0, Signal, DropSignal, 4), Steps(0, Same(n, LeaveBarrier)));
  }

  lemma {:induction false} BarrierFour(n: nat, m: nat, a: seq<Event>, b: seq<Event>, c: seq<Event>, d: seq<Event>)
    requires n > 0 && m < 4 * n - 2 && |a| == n && |b| == n - 1 && |c| == n - 1 && |d| == n
    requires m < n ==> a[m] == Step(m, EnterBarrier)
    requires n <= m < 2 * n - 1 ==> b[m - n] == Msg(m - n + 1, 0, Signal, DropSignal, 4)
    requires 2 * n - 1 <= m < 3 * n - 2 ==> c[m - (2 * n - 1)] == Msg(0, m - 2 * n + 2, Signal, DropSignal, 4)
    requires 3 * n - 2 <= m ==> d[m - (3 * n - 2)] == Step(m - 3 * n + 2, LeaveBarrier)
    ensures |a + b + c + d| == 4 * n - 2 && (a + b + c + d)[m] == InBarrier(n, m)
  {
    FourParts(a, b, c, d, m);
  }

  lemma {:induction false} FourParts(a: seq<Event>, b: seq<Event>, c: seq<Event>, d: seq<Event>, m: nat)
    requires m < |a| + |b| + |c| + |d|
    ensures |a + b + c + d| == |a| + |b| + |c| + |d|
    ensures (a + b + c + d)[m] ==
            if m < |a| then a[m]
            else if m < |a| + |b| then b[m - |a|]
            else if m < |a| + |b| + |c| then c[m - |a| - |b|]
            else d[m - |a| - |b| - |c|]
  {
  }

  ghost predicate Balanced(ls: seq<Local>)
  {
    forall r, q :: 0 <= r < |ls| && 0 <= q < |ls| ==> ls[r].left == ls[q].entered
  }

  ghost predicate BarrierSits(S: Setup, o: nat)
  {
    && ValidSetup(S) && S.n > 0 && o + (4 * S.n - 2) <= |S.evs|
    && S.evs[o..o + (4 * S.n - 2)] == Schedule(S.n, Barrier)
    && Balanced(At(S, o))
  }

  lemma {:induction false} InSlice(evs: seq<Event>, o: nat, part: seq<Event>, k: nat)
    requires o + |part| <= |evs| && evs[o..o + |part|] == part && o <= k < o + |part|
    ensures evs[k] == part[k - o]
  {
    assert evs[k] == evs[o..o + |part|][k - o];
  }

  lemma {:induction false} SitsAt(S: Setup, o: nat, k: nat)
    requires BarrierSits(S, o) && o <= k < o + (4 * S.n - 2)
    ensures S.evs[k] == InBarrier(S.n, k - o)
  {
    BarrierSlice(S.evs, S.n, o, k);
  }

  lemma {:induction false} BarrierSlice(evs: seq<Event>, n: nat, o: nat, k: nat)
    requires n > 0 && o + (4 * n - 2) <= |evs| && evs[o..o + (4 * n - 2)] == Schedule(n, Barrier)
    requires o <= k < o + (4 * n - 2)
    ensures evs[k] == InBarrier(n, k - o)
  {
    BarrierLayout(n, k - o);
    InSlice(evs, o, Schedule(n, Barrier), k);
  }

  lemma {:induction false} InBarrierLeave(n: nat, m: nat)
    requires m < 4 * n - 2
    ensures IsLeave(InBarrier(n, m)) <==> m >= 3 * n - 2
    ensures m >= 3 * n - 2 ==> InBarrier(n, m) == Step(m - (3 * n - 2), LeaveBarrier)
  {
  }

  lemma {:induction false} EnterCounts(S: Setup, p: nat, q: nat)
    requires ValidSetup(S) && p < |S.evs| && q < S.n && S.evs[p] == Step(q, EnterBarrier)
    ensures At(S, p + 1)[q].entered == At(S, p)[q].entered + 1
  {
    AfterEvent(S, p, q);
  }

  lemma {:induction false} EnteredEarly(S: Setup, o: nat, q: nat, m: nat)
    requires BarrierSits(S, o) && q < S.n && o + S.n <= m <= |S.evs|
    ensures At(S, m)[q].entered >= At(S, o)[q].entered + 1
  {
    var p := o + q;
    SitsAt(S, o, p);
    EnterCounts(S, p, q);
    HistoryGrows(S, q, o, p);
    HistoryGrows(S, q, p + 1, m);
  }

  lemma {:induction false} EventKeepsLeft(S: Setup, p: nat, r: nat)
    requires ValidSetup(S) && r < S.n && p < |S.evs| && S.evs[p] != Step(r, LeaveBarrier)
    ensures At(S, p + 1)[r].left == At(S, p)[r].left
  {
    assert At(S, p + 1) == Exec(S.add, At(S, p), S.evs[p]);
    assert ValidEvent(S.n, S.evs[p]);
  }

  lemma {:induction false} NoLeaveNoChange(S: Setup, r: nat, a: nat, b: nat)
    requires ValidSetup(S) && r < S.n && a <= b <= |S.evs|
    requires forall k :: a <= k < b ==> S.evs[k] != Step(r, LeaveBarrier)
    ensures At(S, b)[r].left == At(S, a)[r].left
    decreases b - a
  {
    if a < b {
      var p := b - 1;
      NoLeaveNoChange(S, r, a, p);
      assert S.evs[p] != Step(r, LeaveBarrier);
      EventKeepsLeft(S, p, r);
    }
  }

  lemma {:induction false} BarrierHears(S: Setup, o: nat, r: nat, q: nat)
    requires BarrierSits(S, o) && r < S.n && q < S.n
    ensures Heard(S, o + (3 * S.n - 2) + r, r, q, At(S, o)[q].entered + 1)
  {
    var n := S.n;
    var p := o + (3 * n - 2) + r;
    var b := At(S, o)[q].entered + 1;
    if q == r {
      EnteredEarly(S, o, q, p);
    } else {
      var up := o + (n + q - 1);
      var down := o + (2 * n - 2 + r);
      if q > 0 {
        SitsAt(S, o, up);
        EnteredEarly(S, o, q, up);
        assert Signals(S, up, q, 0, b);
      }
      if r > 0 {
        SitsAt(S, o, down);
        if q > 0 {
          assert Relays(S, up, down, q, 0, r, b);
        } else {
          EnteredEarly(S, o, q, down);
          assert Signals(S, down, q, r, b);
        }
      }
    }
  }

  lemma {:induction false} NotYet(S: Setup, o: nat, r: nat, m: nat)
    requires BarrierSits(S, o) && r < S.n && o <= m < o + (3 * S.n - 2) + r
    ensures S.evs[m] != Step(r, LeaveBarrier)
  {
    SitsAt(S, o, m);
    InBarrierLeave(S.n, m - o);
  }

  lemma {:induction false} FirstLeave(S: Setup, o: nat, r: nat, k: nat)
    requires BarrierSits(S, o) && r < S.n && k == o + (3 * S.n - 2) + r
    ensures At(S, k)[r].left == At(S, o)[r].left
  {
    forall m | o <= m < k ensures S.evs[m] != Step(r, LeaveBarrier) { NotYet(S, o, r, m); }
    NoLeaveNoChange(S, r, o, k);
  }

  lemma {:induction false} LeaveHears(S: Setup, o: nat, r: nat, k: nat)
    requires BarrierSits(S, o) && r < S.n && k == o + (3 * S.n - 2) + r
    ensures HeardFromAll(S, k, r, At(S, o)[r].left + 1)
  {
    var b := At(S, o)[r].left + 1;
    forall q | 0 <= q < S.n ensures Heard(S, k, r, q, b) {
      assert At(S, o)[r].left == At(S, o)[q].entered;
      BarrierHears(S, o, r, q);
    }
  }

  lemma {:induction false} WhoLeaves(S: Setup, o: nat, k: nat) returns (r: nat)
    requires BarrierSits(S, o) && o <= k < o + (4 * S.n - 2) && IsLeave(S.evs[k])
    ensures r < S.n && k == o + (3 * S.n - 2) + r && S.evs[k] == Step(r, LeaveBarrier)
  {
    SitsAt(S, o, k);
    InBarrierLeave(S.n, k - o);
    r := k - o - (3 * S.n - 2);
  }

  lemma {:induction false} BarrierLeaves(S: Setup, o: nat, k: nat)
    requires BarrierSits(S, o) && o <= k < o + (4 * S.n - 2)
    ensures LeavesAfterAll(S, k)
  {
    if IsLeave(S.evs[k]) {
      var r := WhoLeaves(S, o, k);
      LeaveInBarrier(S, o, r, k);
    }
  }

  lemma {:induction false} LeaveInBarrier(S: Setup, o: nat, r: nat, k: nat)
    requires BarrierSits(S, o) && r < S.n && k == o + (3 * S.n - 2) + r
    ensures HeardFromAll(S, k, r, At(S, k)[r].left + 1)
  {
    FirstLeave(S, o, r, k);
    LeaveHears(S, o, r, k);
  }

  predicate IsLeave(e: Event)
  {
    e.Step? && e.act == LeaveBarrier
  }

  ghost predicate NeverLeaves(evs: seq<Event>)
  {
    forall k :: 0 <= k < |evs| ==> !IsLeave(evs[k])
  }

  lemma {:induction false} OtherNeverLeaves(n: nat, c: Collective)
    requires n > 0 && ValidCollective(n, c) && !c.Barrier?
    ensures NeverLeaves(Schedule(n, c))
  {
    match c
    case Broadcast(root, count) => ScatterIsMessages(0, n, root, SendBuf, IntoSend, 4 * count);
    case AllReduce(count) =>
      StepsNeverLeave(0, Same(n, CopyToRecv));
      GatherIsMessages(1, n, RecvBuf, AddIntoRecv, 4 * count);
      ScatterIsMessages(0, n, 0, RecvBuf, IntoRecv, 4 * count);
      StepsNeverLeave(0, Same(n, Return));
    case Report(times) =>
      StepsNeverLeave(0, seq(n, i requires 0 <= i < n => SetTime(times[i])));
      GatherIsMessages(1, n, Elapsed, KeepReport, 8);
    case Fill(data) =>
      StepsNeverLeave(0, seq(n, i requires 0 <= i < n => Load(data[i])));
  }

  lemma {:induction false} StepsNeverLeave(i: nat, acts: seq<Act>)
    requires LeaveBarrier !in acts
    ensures NeverLeaves(Steps(i, acts))
    decreases |acts| - i
  {
    if i < |acts| { StepsNeverLeave(i + 1, acts); }
  }

  lemma {:induction false} GatherIsMessages(i: nat, n: nat, source: Source, effect: Effect, size: nat)
    ensures NeverLeaves(Gather(i, n, source, effect, size))
    decreases n - i
  {
    if i < n { GatherIsMessages(i + 1, n, source, effect, size); }
  }

  lemma {:induction false} ScatterIsMessages(i: nat, n: nat, root: nat, source: Source, effect: Effect, size: nat)
    ensures NeverLeaves(Scatter(i, n, root, source, effect, size))
    decreases n - i
  {
    if i < n { ScatterIsMessages(i + 1, n, root, source, effect, size); }
  }

  lemma {:induction false} MeaningBalanced(add: Adder, ls: seq<Local>, c: Collective)
    requires |ls| > 0 && ValidCollective(|ls|, c) && Balanced(ls)
    ensures Balanced(Meaning(add, ls, c))
  {
  }

  lemma {:induction false} SplitAt(evs: seq<Event>, o: nat, a: seq<Event>, b: seq<Event>)
    requires o <= |evs| && evs[o..] == a + b
    ensures o + |a| <= |evs| && evs[o..o + |a|] == a && evs[o + |a|..] == b
  {
    assert evs[o..o + |a|] == evs[o..][..|a|];
    assert evs[o + |a|..] == evs[o..][|a|..];
  }

  // One collective of the sequence, and where the next one starts.
  ghost predicate AtCollective(S: Setup, count: nat, cs: seq<Collective>, o: nat)
  {
    && ValidSetup(S) && S.n > 0 && o <= |S.evs|
    && Ready(count, At(S, o)) && Consistent(S.n, count, cs) && Balanced(At(S, o))
    && ValidSequence(S.n, cs) && S.evs[o..] == WholeSchedule(S.n, cs)
  }

  lemma {:induction false} AfterCollective(S: Setup, count: nat, c: Collective, o: nat, o': nat)
    requires ValidSetup(S) && S.n > 0 && o <= o' <= |S.evs| && ValidCollective(S.n, c)
    requires Ready(count, At(S, o)) && Balanced(At(S, o))
    requires c.Broadcast? || c.AllReduce? ==> c.count == count
    requires S.evs[o..o'] == Schedule(S.n, c)
    ensures Ready(CountAfter(S.n, count, c), At(S, o')) && Balanced(At(S, o'))
  {
    AfterIsMeaning(S, count, c, o, o');
    MeaningBalanced(S.add, At(S, o), c);
  }

  lemma {:induction false} AfterIsMeaning(S: Setup, count: nat, c: Collective, o: nat, o': nat)
    requires ValidSetup(S) && S.n > 0 && o <= o' <= |S.evs| && ValidCollective(S.n, c)
    requires Ready(count, At(S, o))
    requires c.Broadcast? || c.AllReduce? ==> c.count == count
    requires S.evs[o..o'] == Schedule(S.n, c)
    ensures At(S, o') == Meaning(S.add, At(S, o), c) && Ready(CountAfter(S.n, count, c), At(S, o'))
  {
    AtSpan(S, o, o', Schedule(S.n, c));
    MeaningOf(S.add, S.n, At(S, o), count, c);
  }

  lemma {:induction false} AtSpan(S: Setup, o: nat, o': nat, evs: seq<Event>)
    requires ValidSetup(S) && o <= o' <= |S.evs| && S.evs[o..o'] == evs
    ensures ValidEvents(S.n, evs) && At(S, o') == RunEvents(S.add, At(S, o), evs)
  {
    var m := o' - o;
    AtOffset(S, o, m);
    assert S.evs[o..o + m] == evs;
  }

  lemma {:induction false} MeaningOf(add: Adder, n: nat, ls: seq<Local>, count: nat, c: Collective)
    requires |ls| == n && Ready(count, ls) && ValidCollective(n, c)
    requires (c.Broadcast? || c.AllReduce? ==> c.count == count)
    ensures ValidEvents(n, Schedule(n, c)) && RunEvents(add, ls, Schedule(n, c)) == Meaning(add, ls, c)
    ensures Ready(CountAfter(n, count, c), Meaning(add, ls, c))
  {
    CollectiveMeaning(add, ls, count, c);
  }

  lemma {:induction false} NextSlice(evs: seq<Event>, n: nat, cs: seq<Collective>, o: nat, o': nat)
    requires ValidSequence(n, cs) && cs != [] && o <= |evs| && evs[o..] == WholeSchedule(n, cs)
    requires o' == o + |Schedule(n, cs[0])|
    ensures o' <= |evs| && evs[o..o'] == Schedule(n, cs[0]) && evs[o'..] == WholeSchedule(n, cs[1..])
  {
    WholeHead(n, cs);
    SliceOff(evs, o, o', WholeSchedule(n, cs), Schedule(n, cs[0]), WholeSchedule(n, cs[1..]));
  }

  lemma {:induction false} WholeHead(n: nat, cs: seq<Collective>)
    requires ValidSequence(n, cs) && cs != []
    ensures ValidSequence(n, cs[1..]) && WholeSchedule(n, cs) == Schedule(n, cs[0]) + WholeSchedule(n, cs[1..])
  {
  }

  lemma {:induction false} SliceOff(evs: seq<Event>, o: nat, o': nat, all: seq<Event>, a: seq<Event>, b: seq<Event>)
    requires o <= |evs| && evs[o..] == all && all == a + b && o' == o + |a|
    ensures o' <= |evs| && evs[o..o'] == a && evs[o'..] == b
  {
    SplitAt(evs, o, a, b);
  }

  lemma {:induction false} NextSegment(S: Setup, count: nat, cs: seq<Collective>, o: nat, o': nat)
    requires AtCollective(S, count, cs, o) && cs != [] && o' == o + |Schedule(S.n, cs[0])|
    ensures o' <= |S.evs| && S.evs[o..o'] == Schedule(S.n, cs[0])
    ensures AtCollective(S, CountAfter(S.n, count, cs[0]), cs[1..], o')
  {
    NextSlice(S.evs, S.n, cs, o, o');
    AfterCollective(S, count, cs[0], o, o');
  }

  lemma {:induction false} SegmentLeaves(S: Setup, c: Collective, o: nat, o': nat, k: nat)
    requires ValidSetup(S) && S.n > 0 && o <= k < o' <= |S.evs| && ValidCollective(S.n, c)
    requires S.evs[o..o'] == Schedule(S.n, c) && Balanced(At(S, o))
    ensures LeavesAfterAll(S, k)
  {
    if c.Barrier? {
      BarrierLayout(S.n, 0);
      BarrierLeaves(S, o, k);
    } else {
      OtherNeverLeaves(S.n, c);
      assert S.evs[k] == S.evs[o..o'][k - o];
    }
  }

  lemma {:induction false} EveryLeave(S: Setup, count: nat, cs: seq<Collective>, o: nat, k: nat)
    requires AtCollective(S, count, cs, o) && o <= k < |S.evs|
    ensures LeavesAfterAll(S, k)
    decreases |cs|
  {
    assert |S.evs[o..]| > 0;
    var o' := o + |Schedule(S.n, cs[0])|;
    NextSegment(S, count, cs, o, o');
    if k < o' {
      SegmentLeaves(S, cs[0], o, o', k);
    } else {
      EveryLeave(S, CountAfter(S.n, count, cs[0]), cs[1..], o', k);
    }
  }

  lemma {:induction false} LastLeaveHeard(S: Setup, count: nat, cs: seq<Collective>, r: nat, k: nat) returns (p: nat)
    requires AtCollective(S, count, cs, 0) && r < S.n && k <= |S.evs| && At(S, k)[r].left > S.init[r].left
    ensures p < k && HeardFromAll(S, p, r, At(S, k)[r].left)
  {
    p := LastLeave(S, r, k);
    EveryLeave(S, count, cs, 0, p);
  }

  lemma {:induction false} LeftImpliesEntered(S: Setup, s: Net, g: seq<nat>, count: nat, cs: seq<Collective>, r: nat,
                                              q: nat)
    requires InvAt(S, s, g) && AtCollective(S, count, cs, 0)
    requires r < S.n && q < S.n && g[r] <= |S.evs| && At(S, g[r])[r].left > S.init[r].left
    ensures s.ranks[q].loc.entered >= At(S, g[r])[r].left
  {
    var p := LastLeaveHeard(S, count, cs, r, g[r]);
    HeardIsTrue(S, s, g, p, r, q, At(S, g[r])[r].left);
  }

  // No rank has left a barrier that some rank has not entered.
  lemma {:induction false} BarrierSafety(add: Adder, cap: nat, init: seq<Local>, count: nat, cs: seq<Collective>,
                                         tr: seq<Net>, k: nat, r: nat, q: nat)
    requires StartsAs(add, cap, init, count, cs, tr) && k < |tr| && r < |init| && q < |init|
    requires Balanced(init)
    ensures |tr[k].ranks| == |init|
    ensures tr[k].ranks[r].loc.left <= tr[k].ranks[q].loc.entered
  {
    ReachableInv(add, cap, init, count, cs, tr, k);
    var S := SetupOf(add, cap, init, cs);
    var g :| InvAt(S, tr[k], g);
    assert RankInv(S, tr[k].ranks[r], r, g[r]) && RankInv(S, tr[k].ranks[q], q, g[q]);
    assert At(S, 0) == init && S.evs[0..] == S.evs;
    if At(S, g[r])[r].left > init[r].left {
      LeftImpliesEntered(S, tr[k], g, count, cs, r, q);
    } else {
      HistoryGrows(S, q, 0, g[q]);
      assert init[r].left == init[q].entered;
    }
  }
}
