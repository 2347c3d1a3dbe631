// The collective operations of the TCP test program: what one rank's code does
// (Program), one global order of all the messages (Schedule), and the lemma
// that every rank's code is exactly its own part of that global order.

module Wire {
  type Byte = b: int | 0 <= b < 256

  // One `float` as it lies in memory. Nothing is assumed about its value.
  datatype Word = Word(b0: Byte, b1: Byte, b2: Byte, b3: Byte)

  function Encode(ws: seq<Word>): (bs: seq<Byte>)
    ensures |bs| == 4 * |ws|
  {
    if ws == [] then [] else [ws[0].b0, ws[0].b1, ws[0].b2, ws[0].b3] + Encode(ws[1..])
  }

  function Decode(bs: seq<Byte>): seq<Word>
  {
    if |bs| < 4 then [] else [Word(bs[0], bs[1], bs[2], bs[3])] + Decode(bs[4..])
  }

  lemma {:induction false} DecodeEncode(ws: seq<Word>)
    ensures Decode(Encode(ws)) == ws
  {
    if ws != [] {
      var head := [ws[0].b0, ws[0].b1, ws[0].b2, ws[0].b3];
      assert Encode(ws) == head + Encode(ws[1..]);
      assert Encode(ws)[4..] == Encode(ws[1..]);
      DecodeEncode(ws[1..]);
    }
  }

  // Word i lies at bytes 4i to 4i + 3.
  lemma {:induction false} EncodeAt(ws: seq<Word>, i: nat)
    requires i < |ws|
    ensures Encode(ws)[4 * i..4 * i + 4] == [ws[i].b0, ws[i].b1, ws[i].b2, ws[i].b3]
  {
    var head := [ws[0].b0, ws[0].b1, ws[0].b2, ws[0].b3];
    assert Encode(ws) == head + Encode(ws[1..]);
    if i > 0 {
      EncodeAt(ws[1..], i - 1);
      assert Encode(ws)[4 * i..4 * i + 4] == Encode(ws[1..])[4 * (i - 1)..4 * (i - 1) + 4];
    }
  }
}

module Collectives {
  import opened Wire

  // Floating-point addition: any function at all (no associativity, no
  // commutativity).
  type Adder = (Word, Word) -> Word

  // The memory of one rank that the collectives touch. `entered`, `left` and
  // `results` are history: barriers entered, barriers left, and the receive
  // buffer each finished all-reduce returned with.
  datatype Local = Local(
    send: seq<Word>, recv: seq<Word>, time: seq<Byte>, reports: seq<seq<Byte>>,
    entered: nat, left: nat, results: seq<seq<Word>>)

  datatype Source = Signal | SendBuf | RecvBuf | Elapsed

  datatype Effect = DropSignal | IntoSend | IntoRecv | AddIntoRecv | KeepReport

  datatype Act =
    | EnterBarrier
    | LeaveBarrier
    | Load(data: seq<Word>)
    | SetTime(t: seq<Byte>)
    | CopyToRecv
    | Return

  // One call in a rank's code: tcp_send, tcp_recv, or purely local work.
  datatype Op =
    | Send(to: nat, source: Source, size: nat)
    | Recv(from: nat, effect: Effect, size: nat)
    | Do(act: Act)

  // The bytes tcp_send is pointed at.
  function Bytes(l: Local, source: Source): seq<Byte>
  {
    match source
    case Signal => [1, 0, 0, 0]
    case SendBuf => Encode(l.send)
    case RecvBuf => Encode(l.recv)
    case Elapsed => l.time
  }

  // recvbuf[j] += temp_buf[j] for every j
  function AddWords(add: Adder, a: seq<Word>, b: seq<Word>): (s: seq<Word>)
    ensures |s| == |a|
  {
    seq(|a|, i requires 0 <= i < |a| => if i < |b| then add(a[i], b[i]) else a[i])
  }

  // What the caller does with a completely received message.
  function Deliver(add: Adder, l: Local, effect: Effect, bytes: seq<Byte>): Local
  {
    match effect
    case DropSignal => l
    case IntoSend => l.(send := Decode(bytes))
    case IntoRecv => l.(recv := Decode(bytes))
    case AddIntoRecv => l.(recv := AddWords(add, l.recv, Decode(bytes)))
    case KeepReport => l.(reports := l.reports + [bytes])
  }

  function Perform(l: Local, act: Act): Local
  {
    match act
    case EnterBarrier => l.(entered := l.entered + 1)
    case LeaveBarrier => l.(left := l.left + 1)
    case Load(data) => l.(send := data)
    case SetTime(t) => l.(time := t)
    case CopyToRecv => l.(recv := l.send)
    case Return => l.(results := l.results + [l.recv])
  }

  // The accumulation loop of tcp_allreduce, in place on rank 0's buffer.
  method AccumulateInto(add: Adder, recvbuf: array<Word>, temp: array<Word>)
    requires recvbuf.Length == temp.Length && recvbuf != temp
    modifies recvbuf
    ensures forall k :: 0 <= k < recvbuf.Length ==> recvbuf[k] == add(old(recvbuf[k]), temp[k])
    ensures recvbuf[..] == AddWords(add, old(recvbuf[..]), temp[..])
  {
    var j := 0;
    while j < recvbuf.Length
      invariant 0 <= j <= recvbuf.Length
      invariant forall k :: 0 <= k < j ==> recvbuf[k] == add(old(recvbuf[k]), temp[k])
      invariant forall k :: j <= k < recvbuf.Length ==> recvbuf[k] == old(recvbuf[k])
    {
      recvbuf[j] := add(recvbuf[j], temp[j]);
      j := j + 1;
    }
  }

  // ---------------------------------------------------------------- programs

  datatype Collective =
    | Barrier
    | Broadcast(root: nat, count: nat)
    | AllReduce(count: nat)
    | Report(times: seq<seq<Byte>>)      // elapsed times gathered at rank 0
    | Fill(data: seq<seq<Word>>)         // each rank initialises its send buffer

  function RecvLoop(i: nat, n: nat, effect: Effect, size: nat): seq<Op>
    decreases n - i
  {
    if i >= n then [] else [Recv(i, effect, size)] + RecvLoop(i + 1, n, effect, size)
  }

  function SendLoop(i: nat, n: nat, skip: nat, source: Source, size: nat): seq<Op>
    decreases n - i
  {
    if i >= n then []
    else (if i != skip then [Send(i, source, size)] else []) + SendLoop(i + 1, n, skip, source, size)
  }

  function BroadcastOps(r: nat, n: nat, root: nat, source: Source, effect: Effect, size: nat): seq<Op>
  {
    if r == root then SendLoop(0, n, root, source, size) else [Recv(root, effect, size)]
  }

  function GatherOps(r: nat, n: nat, source: Source, effect: Effect, size: nat): seq<Op>
  {
    if r == 0 then RecvLoop(1, n, effect, size) else [Send(0, source, size)]
  }

  predicate ValidCollective(n: nat, c: Collective)
  {
    match c
    case Barrier => true
    case Broadcast(root, _) => root < n
    case AllReduce(_) => true
    case Report(times) => |times| == n && forall i :: 0 <= i < n ==> |times[i]| == 8
    case Fill(data) => |data| == n && forall i, j :: 0 <= i < n && 0 <= j < n ==> |data[i]| == |data[j]|
  }

  // The code rank r runs for one collective.
  function Program(r: nat, n: nat, c: Collective): seq<Op>
    requires r < n && ValidCollective(n, c)
  {
    match c
    case Barrier =>
      [Do(EnterBarrier)]
      + GatherOps(r, n, Signal, DropSignal, 4)
      + (if r == 0 then SendLoop(1, n, 0, Signal, 4) else [Recv(0, DropSignal, 4)])
      + [Do(LeaveBarrier)]
    case Broadcast(root, count) =>
      BroadcastOps(r, n, root, SendBuf, IntoSend, 4 * count)
    case AllReduce(count) =>
      [Do(CopyToRecv)]
      + GatherOps(r, n, RecvBuf, AddIntoRecv, 4 * count)
      + BroadcastOps(r, n, 0, RecvBuf, IntoRecv, 4 * count)
      + [Do(Return)]
    case Report(times) =>
      [Do(SetTime(times[r]))] + GatherOps(r, n, Elapsed, KeepReport, 8)
    case Fill(data) =>
      [Do(Load(data[r]))]
  }

  ghost predicate ValidSequence(n: nat, cs: seq<Collective>)
  {
    forall k :: 0 <= k < |cs| ==> ValidCollective(n, cs[k])
  }

  function WholeProgram(r: nat, n: nat, cs: seq<Collective>): seq<Op>
    requires r < n && forall k :: 0 <= k < |cs| ==> ValidCollective(n, cs[k])
  {
    if cs == [] then [] else Program(r, n, cs[0]) + WholeProgram(r, n, cs[1..])
  }

  // ---------------------------------------------------------------- schedule

  // A message with both its ends, or local work of one rank.
  datatype Event =
    | Step(rank: nat, act: Act)
    | Msg(src: nat, dst: nat, source: Source, effect: Effect, size: nat)

  predicate Involves(e: Event, r: nat)
  {
    match e
    case Step(rank, _) => rank == r
    case Msg(src, dst, _, _, _) => src == r || dst == r
  }

  predicate ValidEvent(n: nat, e: Event)
  {
    match e
    case Step(rank, _) => rank < n
    case Msg(src, dst, _, _, _) => src < n && dst < n && src != dst
  }

  ghost predicate ValidEvents(n: nat, evs: seq<Event>)
  {
    forall k :: 0 <= k < |evs| ==> ValidEvent(n, evs[k])
  }

  function OwnOp(r: nat, e: Event): seq<Op>
  {
    match e
    case Step(rank, act) => if rank == r then [Do(act)] else []
    case Msg(src, dst, source, effect, size) =>
      if src == r then [Send(dst, source, size)]
      else if dst == r then [Recv(src, effect, size)]
      else []
  }

  // What rank r sees of a global order of events.
  function Project(r: nat, evs: seq<Event>): seq<Op>
  {
    if evs == [] then [] else OwnOp(r, evs[0]) + Project(r, evs[1..])
  }

  function Steps(i: nat, acts: seq<Act>): seq<Event>
    decreases |acts| - i
  {
    if i >= |acts| then [] else [Step(i, acts[i])] + Steps(i + 1, acts)
  }

  function Gather(i: nat, n: nat, source: Source, effect: Effect, size: nat): seq<Event>
    decreases n - i
  {
    if i >= n then [] else [Msg(i, 0, source, effect, size)] + Gather(i + 1, n, source, effect, size)
  }

  function Scatter(i: nat, n: nat, root: nat, source: Source, effect: Effect, size: nat): seq<Event>
    decreases n - i
  {
    if i >= n then []
    else (if i != root then [Msg(root, i, source, effect, size)] else [])
         + Scatter(i + 1, n, root, source, effect, size)
  }

  function Same(n: nat, act: Act): (acts: seq<Act>)
    ensures |acts| == n && forall i :: 0 <= i < n ==> acts[i] == act
  {
    seq(n, i => act)
  }

  function Schedule(n: nat, c: Collective): seq<Event>
    requires ValidCollective(n, c)
  {
    match c
    case Barrier =>
      Steps(0, Same(n, EnterBarrier))
      + Gather(1, n, Signal, DropSignal, 4)
      + Scatter(0, n, 0, Signal, DropSignal, 4)
      + Steps(0, Same(n, LeaveBarrier))
    case Broadcast(root, count) =>
      Scatter(0, n, root, SendBuf, IntoSend, 4 * count)
    case AllReduce(count) =>
      Steps(0, Same(n, CopyToRecv))
      + Gather(1, n, RecvBuf, AddIntoRecv, 4 * count)
      + Scatter(0, n, 0, RecvBuf, IntoRecv, 4 * count)
      + Steps(0, Same(n, Return))
    case Report(times) =>
      Steps(0, seq(n, i requires 0 <= i < n => SetTime(times[i])))
      + Gather(1, n, Elapsed, KeepReport, 8)
    case Fill(data) =>
      Steps(0, seq(n, i requires 0 <= i < n => Load(data[i])))
  }

  function WholeSchedule(n: nat, cs: seq<Collective>): seq<Event>
    requires forall k :: 0 <= k < |cs| ==> ValidCollective(n, cs[k])
  {
    if cs == [] then [] else Schedule(n, cs[0]) + WholeSchedule(n, cs[1..])
  }

  // ---------------------------------------------------------------- lemmas

  lemma {:induction false} ProjectConcat(r: nat, a: seq<Event>, b: seq<Event>)
    ensures Project(r, a + b) == Project(r, a) + Project(r, b)
  {
    if a == [] {
      assert a + b == b;
    } else {
      assert (a + b)[1..] == a[1..] + b;
      ProjectConcat(r, a[1..], b);
    }
  }

  lemma {:induction false} ProjectSteps(r: nat, i: nat, acts: seq<Act>)
    requires r < |acts|
    ensures Project(r, Steps(i, acts)) == if i <= r then [Do(acts[r])] else []
    decreases |acts| - i
  {
    if i < |acts| {
      ProjectSteps(r, i + 1, acts);
      assert Steps(i, acts)[1..] == Steps(i + 1, acts);
    }
  }

  lemma {:induction false} ProjectGather(r: nat, i: nat, n: nat, source: Source, effect: Effect, size: nat)
    requires r < n && 1 <= i
    ensures Project(r, Gather(i, n, source, effect, size))
         == if r == 0 then RecvLoop(i, n, effect, size)
            else if i <= r then [Send(0, source, size)] else []
    decreases n - i
  {
    if i < n {
      ProjectGather(r, i + 1, n, source, effect, size);
      assert Gather(i, n, source, effect, size)[1..] == Gather(i + 1, n, source, effect, size);
    }
  }

  lemma {:induction false} ProjectScatter(r: nat, i: nat, n: nat, root: nat, source: Source, effect: Effect, size: nat)
    requires r < n && root < n
    ensures Project(r, Scatter(i, n, root, source, effect, size))
         == if r == root then SendLoop(i, n, root, source, size)
            else if i <= r then [Recv(root, effect, size)] else []
    decreases n - i
  {
    if i < n {
      ProjectScatter(r, i + 1, n, root, source, effect, size);
      if i != root {
        assert Scatter(i, n, root, source, effect, size)[1..] == Scatter(i + 1, n, root, source, effect, size);
      } else {
        assert Scatter(i, n, root, source, effect, size) == Scatter(i + 1, n, root, source, effect, size);
      }
    }
  }

  // The source's code for one collective is its part of the global order.
  lemma {:induction false} ProgramIsProjection(r: nat, n: nat, c: Collective)
    requires r < n && ValidCollective(n, c)
    ensures Program(r, n, c) == Project(r, Schedule(n, c))
  {
    match c
    case Barrier =>
      var (a, b, s, d) := (Steps(0, Same(n, EnterBarrier)), Gather(1, n, Signal, DropSignal, 4),
                           Scatter(0, n, 0, Signal, DropSignal, 4), Steps(0, Same(n, LeaveBarrier)));
      ProjectConcat(r, a + b + s, d);
      ProjectConcat(r, a + b, s);
      ProjectConcat(r, a, b);
      ProjectSteps(r, 0, Same(n, EnterBarrier));
      ProjectGather(r, 1, n, Signal, DropSignal, 4);
      ProjectScatter(r, 0, n, 0, Signal, DropSignal, 4);
      ProjectSteps(r, 0, Same(n, LeaveBarrier));
      assert SendLoop(0, n, 0, Signal, 4) == SendLoop(1, n, 0, Signal, 4);
    case Broadcast(root, count) =>
      ProjectScatter(r, 0, n, root, SendBuf, IntoSend, 4 * count);
    case AllReduce(count) =>
      var (a, b, s, d) := (Steps(0, Same(n, CopyToRecv)), Gather(1, n, RecvBuf, AddIntoRecv, 4 * count),
                           Scatter(0, n, 0, RecvBuf, IntoRecv, 4 * count), Steps(0, Same(n, Return)));
      ProjectConcat(r, a + b + s, d);
      ProjectConcat(r, a + b, s);
      ProjectConcat(r, a, b);
      ProjectSteps(r, 0, Same(n, CopyToRecv));
      ProjectGather(r, 1, n, RecvBuf, AddIntoRecv, 4 * count);
      ProjectScatter(r, 0, n, 0, RecvBuf, IntoRecv, 4 * count);
      ProjectSteps(r, 0, Same(n, Return));
    case Report(times) =>
      var acts := seq(n, i requires 0 <= i < n => SetTime(times[i]));
      ProjectConcat(r, Steps(0, acts), Gather(1, n, Elapsed, KeepReport, 8));
      ProjectSteps(r, 0, acts);
      ProjectGather(r, 1, n, Elapsed, KeepReport, 8);
    case Fill(data) =>
      ProjectSteps(r, 0, seq(n, i requires 0 <= i < n => Load(data[i])));
  }

  lemma {:induction false} WholeProgramIsProjection(r: nat, n: nat, cs: seq<Collective>)
    requires r < n && ValidSequence(n, cs)
    ensures WholeProgram(r, n, cs) == Project(r, WholeSchedule(n, cs))
  {
    if cs != [] {
      ProgramIsProjection(r, n, cs[0]);
      WholeProgramIsProjection(r, n, cs[1..]);
      ProjectConcat(r, Schedule(n, cs[0]), WholeSchedule(n, cs[1..]));
    }
  }

  lemma {:induction false} GatherValid(i: nat, n: nat, source: Source, effect: Effect, size: nat)
    requires 1 <= i
    ensures ValidEvents(n, Gather(i, n, source, effect, size))
    decreases n - i
  {
    if i < n { GatherValid(i + 1, n, source, effect, size); }
  }

  lemma {:induction false} ScatterValid(i: nat, n: nat, root: nat, source: Source, effect: Effect, size: nat)
    requires root < n
    ensures ValidEvents(n, Scatter(i, n, root, source, effect, size))
    decreases n - i
  {
    if i < n { ScatterValid(i + 1, n, root, source, effect, size); }
  }

  lemma {:induction false} StepsValid(i: nat, acts: seq<Act>)
    ensures ValidEvents(|acts|, Steps(i, acts))
    decreases |acts| - i
  {
    if i < |acts| { StepsValid(i + 1, acts); }
  }

  lemma {:induction false} ScheduleValid(n: nat, c: Collective)
    requires ValidCollective(n, c) && n > 0
    ensures ValidEvents(n, Schedule(n, c))
  {
    match c
    case Barrier =>
      StepsValid(0, Same(n, EnterBarrier));
      GatherValid(1, n, Signal, DropSignal, 4);
      ScatterValid(0, n, 0, Signal, DropSignal, 4);
      StepsValid(0, Same(n, LeaveBarrier));
    case Broadcast(root, count) =>
      ScatterValid(0, n, root, SendBuf, IntoSend, 4 * count);
    case AllReduce(count) =>
      StepsValid(0, Same(n, CopyToRecv));
      GatherValid(1, n, RecvBuf, AddIntoRecv, 4 * count);
      ScatterValid(0, n, 0, RecvBuf, IntoRecv, 4 * count);
      StepsValid(0, Same(n, Return));
    case Report(times) =>
      StepsValid(0, seq(n, i requires 0 <= i < n => SetTime(times[i])));
      GatherValid(1, n, Elapsed, KeepReport, 8);
    case Fill(data) =>
      StepsValid(0, seq(n, i requires 0 <= i < n => Load(data[i])));
  }

  lemma {:induction false} WholeScheduleValid(n: nat, cs: seq<Collective>)
    requires ValidSequence(n, cs) && n > 0
    ensures ValidEvents(n, WholeSchedule(n, cs))
  {
    if cs != [] {
      ScheduleValid(n, cs[0]);
      WholeScheduleValid(n, cs[1..]);
    }
  }
}
