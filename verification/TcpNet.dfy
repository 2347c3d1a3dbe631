// Ranks running their collective code over bounded FIFO byte channels, with
// short sends, short receives and every interleaving.

module TcpNet {
  import opened Wire
  import opened Collectives

  // ---------------------------------------------------------------- machine

  // One rank: the calls still to make (the first one is in progress), bytes of
  // it already sent (total_sent), bytes already received, and its memory.
  datatype RankState = RankState(rest: seq<Op>, off: nat, got: seq<Byte>, loc: Local)

  // chan[(i, j)] holds the bytes rank i has sent to rank j that j has not read.
  datatype Net = Net(ranks: seq<RankState>, chan: map<(nat, nat), seq<Byte>>)

  datatype Move =
    | SendSome(r: nat, k: nat)   // send() accepts k bytes
    | RecvSome(r: nat, k: nat)   // recv() returns k bytes
    | Advance(r: nat)            // the call in progress returns, or local work

  predicate Enabled(cap: nat, s: Net, m: Move)
  {
    m.r < |s.ranks| && s.ranks[m.r].rest != []
    && var q := s.ranks[m.r];
    match (m, q.rest[0])
    case (SendSome(r, k), Send(to, source, size)) =>
      && (r, to) in s.chan && 1 <= k && q.off + k <= size
      && q.off + k <= |Bytes(q.loc, source)|
      && |s.chan[(r, to)]| + k <= cap
    case (RecvSome(r, k), Recv(from, _, size)) =>
      (from, r) in s.chan && 1 <= k <= |s.chan[(from, r)]| && |q.got| + k <= size
    case (Advance(_), Send(_, _, size)) => q.off == size
    case (Advance(_), Recv(_, _, size)) => |q.got| == size
    case (Advance(_), Do(_)) => true
    case _ => false
  }

  function Apply(add: Adder, cap: nat, s: Net, m: Move): Net
    requires Enabled(cap, s, m)
  {
    var q := s.ranks[m.r];
    var op := q.rest[0];
    match m
    case SendSome(r, k) =>
      var part := Bytes(q.loc, op.source)[q.off..q.off + k];
      Net(s.ranks[r := q.(off := q.off + k)], s.chan[(r, op.to) := s.chan[(r, op.to)] + part])
    case RecvSome(r, k) =>
      var c := s.chan[(op.from, r)];
      Net(s.ranks[r := q.(got := q.got + c[..k])], s.chan[(op.from, r) := c[k..]])
    case Advance(r) =>
      var loc' :=
        match op
        case Send(_, _, _) => q.loc
        case Recv(_, effect, _) => Deliver(add, q.loc, effect, q.got)
        case Do(act) => Perform(q.loc, act);
      s.(ranks := s.ranks[r := RankState(q.rest[1..], 0, [], loc')])
  }

  ghost predicate Next(add: Adder, cap: nat, s: Net, s': Net)
  {
    exists m :: Enabled(cap, s, m) && s' == Apply(add, cap, s, m)
  }

  // ---------------------------------------------------------------- the sequential order

  datatype Setup = Setup(n: nat, cap: nat, add: Adder, init: seq<Local>, evs: seq<Event>)

  ghost predicate ValidSetup(S: Setup)
  {
    S.n == |S.init| && S.cap >= 1 && ValidEvents(S.n, S.evs)
  }

  // One event carried out on its own, by every rank involved in it at once.
  ghost function Exec(add: Adder, ls: seq<Local>, e: Event): (r: seq<Local>)
    requires ValidEvent(|ls|, e)
    ensures |r| == |ls|
  {
    match e
    case Step(rank, act) => ls[rank := Perform(ls[rank], act)]
    case Msg(src, dst, source, effect, _) =>
      ls[dst := Deliver(add, ls[dst], effect, Bytes(ls[src], source))]
  }

  // Every rank's memory after the first k events, one at a time.
  ghost function At(S: Setup, k: nat): (ls: seq<Local>)
    requires ValidSetup(S) && k <= |S.evs|
    ensures |ls| == S.n
  {
    if k == 0 then S.init else Exec(S.add, At(S, k - 1), S.evs[k - 1])
  }

  ghost function Payload(S: Setup, k: nat): seq<Byte>
    requires ValidSetup(S) && k < |S.evs| && S.evs[k].Msg?
  {
    Bytes(At(S, k)[S.evs[k].src], S.evs[k].source)
  }

  ghost predicate SizesAgree(S: Setup)
    requires ValidSetup(S)
  {
    forall k :: 0 <= k < |S.evs| && S.evs[k].Msg? ==> |Payload(S, k)| == S.evs[k].size
  }

  predicate IsMsg(e: Event, i: nat, j: nat)
  {
    e.Msg? && e.src == i && e.dst == j
  }

  // All bytes that the first g events put on the channel from i to j.
  ghost function Stream(S: Setup, i: nat, j: nat, g: nat): seq<Byte>
    requires ValidSetup(S) && g <= |S.evs|
  {
    if g == 0 then []
    else Stream(S, i, j, g - 1) + (if IsMsg(S.evs[g - 1], i, j) then Payload(S, g - 1) else [])
  }

  // ---------------------------------------------------------------- invariant

  ghost predicate RankInv(S: Setup, q: RankState, r: nat, p: nat)
    requires ValidSetup(S) && r < S.n
  {
    && p <= |S.evs|
    && (p < |S.evs| ==> Involves(S.evs[p], r))
    && q.rest == Project(r, S.evs[p..])
    && q.loc == At(S, p)[r]
    && (p == |S.evs| || S.evs[p].Step? ==> q.off == 0 && q.got == [])
    && (p < |S.evs| && S.evs[p].Msg? && S.evs[p].src == r ==> q.got == [] && q.off <= |Payload(S, p)|)
    && (p < |S.evs| && S.evs[p].Msg? && S.evs[p].dst == r ==> q.off == 0 && q.got <= Payload(S, p))
  }

  ghost function SentBy(S: Setup, q: RankState, p: nat, i: nat, j: nat): seq<Byte>
    requires ValidSetup(S) && i < S.n && RankInv(S, q, i, p)
  {
    Stream(S, i, j, p) + (if p < |S.evs| && IsMsg(S.evs[p], i, j) then Payload(S, p)[..q.off] else [])
  }

  ghost function ReadBy(S: Setup, q: RankState, p: nat, i: nat, j: nat): seq<Byte>
    requires ValidSetup(S) && p <= |S.evs|
  {
    Stream(S, i, j, p) + (if p < |S.evs| && IsMsg(S.evs[p], i, j) then q.got else [])
  }

  // What i has sent to j is what j has read from i and then what is in transit.
  ghost predicate ChanInv(S: Setup, qi: RankState, gi: nat, qj: RankState, gj: nat, i: nat, j: nat, c: seq<Byte>)
    requires ValidSetup(S) && i < S.n && RankInv(S, qi, i, gi) && gj <= |S.evs|
  {
    SentBy(S, qi, gi, i, j) == ReadBy(S, qj, gj, i, j) + c
  }

  // g[r] is where rank r stands in the global order.
  ghost predicate InvAt(S: Setup, s: Net, g: seq<nat>)
  {
    && ValidSetup(S) && SizesAgree(S)
    && |s.ranks| == S.n && |g| == S.n
    && (forall r :: 0 <= r < S.n ==> RankInv(S, s.ranks[r], r, g[r]))
    && (forall i, j :: 0 <= i < S.n && 0 <= j < S.n && i != j ==>
         && (i, j) in s.chan
         && ChanInv(S, s.ranks[i], g[i], s.ranks[j], g[j], i, j, s.chan[(i, j)]))
  }

  ghost predicate Inv(S: Setup, s: Net)
  {
    exists g :: InvAt(S, s, g)
  }

  // ---------------------------------------------------------------- stream lemmas

  lemma {:induction false} StreamPrefix(S: Setup, i: nat, j: nat, g: nat, h: nat)
    requires ValidSetup(S) && g <= h <= |S.evs|
    ensures Stream(S, i, j, g) <= Stream(S, i, j, h)
    decreases h - g
  {
    if g < h {
      StreamPrefix(S, i, j, g, h - 1);
    }
  }

  // Events that do not involve r leave its channels and its memory alone.
  lemma {:induction false} SkipForeign(S: Setup, r: nat, g: nat, h: nat)
    requires ValidSetup(S) && r < S.n && g <= h <= |S.evs|
    requires forall k :: g <= k < h ==> !Involves(S.evs[k], r)
    ensures forall x :: Stream(S, r, x, g) == Stream(S, r, x, h)
    ensures forall x :: Stream(S, x, r, g) == Stream(S, x, r, h)
    ensures At(S, g)[r] == At(S, h)[r]
    ensures Project(r, S.evs[g..]) == Project(r, S.evs[h..])
    decreases h - g
  {
    if g < h {
      SkipForeign(S, r, g, h - 1);
      assert !Involves(S.evs[h - 1], r);
      assert S.evs[h - 1..][1..] == S.evs[h..];
      forall x ensures Stream(S, r, x, g) == Stream(S, r, x, h) && Stream(S, x, r, g) == Stream(S, x, r, h) {
        assert Stream(S, r, x, h) == Stream(S, r, x, h - 1) + [];
        assert Stream(S, x, r, h) == Stream(S, x, r, h - 1) + [];
      }
    }
  }

  ghost function NextPos(evs: seq<Event>, r: nat, g: nat): (p: nat)
    requires g <= |evs|
    ensures g <= p <= |evs|
    ensures p < |evs| ==> Involves(evs[p], r)
    ensures forall k :: g <= k < p ==> !Involves(evs[k], r)
    decreases |evs| - g
  {
    if g == |evs| || Involves(evs[g], r) then g else NextPos(evs, r, g + 1)
  }

  lemma {:induction false} ProjectHead(r: nat, evs: seq<Event>, p: nat)
    requires p < |evs| && Involves(evs[p], r)
    ensures |OwnOp(r, evs[p])| == 1
    ensures Project(r, evs[p..]) == OwnOp(r, evs[p]) + Project(r, evs[p + 1..])
  {
    assert evs[p..][1..] == evs[p + 1..];
  }

  // ---------------------------------------------------------------- one channel at a time

  lemma {:induction false} Associative(a: seq<Byte>, b: seq<Byte>, c: seq<Byte>)
    ensures a + b + c == a + (b + c)
  {
  }

  lemma {:induction false} ChanSend(S: Setup, qi: RankState, gi: nat, qj: RankState, gj: nat, i: nat, j: nat,
                                    c: seq<Byte>, k: nat)
    requires ValidSetup(S) && i < S.n && RankInv(S, qi, i, gi) && gj <= |S.evs|
    requires gi < |S.evs| && IsMsg(S.evs[gi], i, j) && qi.off + k <= |Payload(S, gi)|
    requires ChanInv(S, qi, gi, qj, gj, i, j, c)
    ensures RankInv(S, qi.(off := qi.off + k), i, gi)
    ensures ChanInv(S, qi.(off := qi.off + k), gi, qj, gj, i, j, c + Payload(S, gi)[qi.off..qi.off + k])
  {
    var pay := Payload(S, gi);
    var part := pay[qi.off..qi.off + k];
    var qi' := qi.(off := qi.off + k);
    assert RankInv(S, qi', i, gi) by { assert ValidEvent(S.n, S.evs[gi]); }
    assert pay[..qi.off + k] == pay[..qi.off] + part;
    Associative(Stream(S, i, j, gi), pay[..qi.off], part);
    Associative(ReadBy(S, qj, gj, i, j), c, part);
  }

  lemma {:induction false} ChanRecv(S: Setup, qi: RankState, gi: nat, qj: RankState, gj: nat, i: nat, j: nat,
                                    c: seq<Byte>, k: nat)
    requires ValidSetup(S) && i < S.n && RankInv(S, qi, i, gi)
    requires gj < |S.evs| && IsMsg(S.evs[gj], i, j) && k <= |c|
    requires ChanInv(S, qi, gi, qj, gj, i, j, c)
    ensures ChanInv(S, qi, gi, qj.(got := qj.got + c[..k]), gj, i, j, c[k..])
  {
    assert c == c[..k] + c[k..];
    Associative(Stream(S, i, j, gj), qj.got, c[..k]);
    Associative(ReadBy(S, qj, gj, i, j), c[..k], c[k..]);
  }

  lemma {:induction false} SliceOfStream(all: seq<Byte>, before: seq<Byte>, pay: seq<Byte>, got: seq<Byte>,
                                         c: seq<Byte>, k: nat)
    requires before + pay <= all && before + got + c <= all
    requires k <= |c| && |got| + k <= |pay|
    ensures got + c[..k] <= pay
  {
    var part := got + c[..k];
    assert before + part <= before + got + c;
    assert part == all[|before|..|before| + |part|];
    assert pay == all[|before|..|before| + |pay|];
  }

  lemma {:induction false} SentIsPrefix(S: Setup, q: RankState, p: nat, i: nat, j: nat)
    requires ValidSetup(S) && i < S.n && RankInv(S, q, i, p)
    ensures SentBy(S, q, p, i, j) <= Stream(S, i, j, |S.evs|)
  {
    if p < |S.evs| && IsMsg(S.evs[p], i, j) {
      StreamPrefix(S, i, j, p + 1, |S.evs|);
      assert SentBy(S, q, p, i, j) <= Stream(S, i, j, p + 1);
    } else {
      StreamPrefix(S, i, j, p, |S.evs|);
    }
  }

  // The next bytes on a channel belong to the message the reader is waiting for.
  lemma {:induction false} NextBytes(S: Setup, qi: RankState, gi: nat, qj: RankState, gj: nat, i: nat, j: nat,
                                     c: seq<Byte>, k: nat)
    requires ValidSetup(S) && i < S.n && RankInv(S, qi, i, gi)
    requires gj < |S.evs| && IsMsg(S.evs[gj], i, j)
    requires k <= |c| && |qj.got| + k <= |Payload(S, gj)|
    requires ChanInv(S, qi, gi, qj, gj, i, j, c)
    ensures qj.got + c[..k] <= Payload(S, gj)
  {
    SentIsPrefix(S, qi, gi, i, j);
    StreamPrefix(S, i, j, gj + 1, |S.evs|);
    SliceOfStream(Stream(S, i, j, |S.evs|), Stream(S, i, j, gj), Payload(S, gj), qj.got, c, k);
  }

  // A rank that moves on has sent and read exactly the messages it passed.
  lemma {:induction false} PassedStreams(S: Setup, q: RankState, p: nat, r: nat, x: nat, p': nat)
    requires ValidSetup(S) && r < S.n && RankInv(S, q, r, p) && p < p' <= |S.evs|
    requires S.evs[p].Msg? && S.evs[p].src == r ==> q.off == |Payload(S, p)|
    requires S.evs[p].Msg? && S.evs[p].dst == r ==> q.got == Payload(S, p)
    requires forall k :: p + 1 <= k < p' ==> !Involves(S.evs[k], r)
    ensures SentBy(S, q, p, r, x) == Stream(S, r, x, p')
    ensures ReadBy(S, q, p, x, r) == Stream(S, x, r, p')
  {
    SkipForeign(S, r, p + 1, p');
    assert Stream(S, r, x, p') == Stream(S, r, x, p + 1);
    assert Stream(S, x, r, p') == Stream(S, x, r, p + 1);
    if IsMsg(S.evs[p], r, x) {
      assert Payload(S, p)[..q.off] == Payload(S, p);
    }
  }

  // ---------------------------------------------------------------- preservation

  lemma {:induction false} CurrentCall(S: Setup, s: Net, g: seq<nat>, r: nat)
    requires InvAt(S, s, g) && r < S.n && s.ranks[r].rest != []
    ensures g[r] < |S.evs| && ValidEvent(S.n, S.evs[g[r]])
    ensures s.ranks[r].rest == OwnOp(r, S.evs[g[r]]) + Project(r, S.evs[g[r] + 1..])
    ensures |OwnOp(r, S.evs[g[r]])| == 1 && s.ranks[r].rest[0] == OwnOp(r, S.evs[g[r]])[0]
    ensures S.evs[g[r]].Msg? && S.evs[g[r]].src == r ==>
              Bytes(s.ranks[r].loc, S.evs[g[r]].source) == Payload(S, g[r])
  {
    assert RankInv(S, s.ranks[r], r, g[r]);
    ProjectHead(r, S.evs, g[r]);
  }

  lemma {:induction false} SendKeepsInv(S: Setup, s: Net, g: seq<nat>, r: nat, k: nat)
    requires InvAt(S, s, g) && Enabled(S.cap, s, SendSome(r, k))
    ensures InvAt(S, Apply(S.add, S.cap, s, SendSome(r, k)), g)
  {
    CurrentCall(S, s, g, r);
    var p := g[r];
    var d := S.evs[p].dst;
    SendOnChannel(S, s, g, r, k, d);
    SendEffect(S, s, r, k, d, Payload(S, p));
    MoveOneChannel(S, s, g, r, SentMore(s.ranks[r], k), r, d, MoreInTransit(s.chan[(r, d)], Payload(S, p),
        s.ranks[r].off, k));
  }

  function SentMore(q: RankState, k: nat): RankState
  {
    q.(off := q.off + k)
  }

  function MoreInTransit(c: seq<Byte>, pay: seq<Byte>, off: nat, k: nat): seq<Byte>
    requires off + k <= |pay|
  {
    c + pay[off..off + k]
  }

  lemma {:induction false} SendOnChannel(S: Setup, s: Net, g: seq<nat>, r: nat, k: nat, d: nat)
    requires InvAt(S, s, g) && r < S.n && d < S.n && r != d && g[r] < |S.evs| && IsMsg(S.evs[g[r]], r, d)
    requires s.ranks[r].off + k <= |Payload(S, g[r])|
    ensures RankInv(S, SentMore(s.ranks[r], k), r, g[r])
    ensures (r, d) in s.chan && g[d] <= |S.evs|
    ensures ChanInv(S, SentMore(s.ranks[r], k), g[r], s.ranks[d], g[d], r, d,
                    MoreInTransit(s.chan[(r, d)], Payload(S, g[r]), s.ranks[r].off, k))
  {
    assert RankInv(S, s.ranks[r], r, g[r]) && RankInv(S, s.ranks[d], d, g[d]);
    ChanSend(S, s.ranks[r], g[r], s.ranks[d], g[d], r, d, s.chan[(r, d)], k);
  }

  lemma {:induction false} SendEffect(S: Setup, s: Net, r: nat, k: nat, d: nat, pay: seq<Byte>)
    requires Enabled(S.cap, s, SendSome(r, k)) && s.ranks[r].rest[0].Send? && s.ranks[r].rest[0].to == d
    requires Bytes(s.ranks[r].loc, s.ranks[r].rest[0].source) == pay && s.ranks[r].off + k <= |pay|
    ensures Apply(S.add, S.cap, s, SendSome(r, k))
            == Net(s.ranks[r := SentMore(s.ranks[r], k)], s.chan[(r, d) := MoreInTransit(s.chan[(r, d)], pay,
                s.ranks[r].off, k)])
  {
  }

  lemma {:induction false} RecvKeepsInv(S: Setup, s: Net, g: seq<nat>, r: nat, k: nat)
    requires InvAt(S, s, g) && Enabled(S.cap, s, RecvSome(r, k))
    ensures InvAt(S, Apply(S.add, S.cap, s, RecvSome(r, k)), g)
  {
    CurrentCall(S, s, g, r);
    var (q, p) := (s.ranks[r], g[r]);
    var f := S.evs[p].src;
    NextBytes(S, s.ranks[f], g[f], q, p, f, r, s.chan[(f, r)], k);
    ChanRecv(S, s.ranks[f], g[f], q, p, f, r, s.chan[(f, r)], k);
    MoveOneChannel(S, s, g, r, q.(got := q.got + s.chan[(f, r)][..k]), f, r, s.chan[(f, r)][k..]);
  }

  lemma {:induction false} OtherChannel(S: Setup, qx: RankState, qx': RankState, gx: nat, qy: RankState, qy': RankState,
                                        gy: nat,
                     x: nat, y: nat, c: seq<Byte>)
    requires ValidSetup(S) && x < S.n && RankInv(S, qx, x, gx) && RankInv(S, qx', x, gx) && gy <= |S.evs|
    requires ChanInv(S, qx, gx, qy, gy, x, y, c)
    requires qx'.off == qx.off || (gx < |S.evs| && !IsMsg(S.evs[gx], x, y))
    requires qy'.got == qy.got || (gy < |S.evs| && !IsMsg(S.evs[gy], x, y))
    ensures ChanInv(S, qx', gx, qy', gy, x, y, c)
  {
  }

  // Progress inside the message (i, j) touches no other channel.
  lemma {:induction false} MoveOneChannel(S: Setup, s: Net, g: seq<nat>, r: nat, q': RankState, i: nat, j: nat,
                                          c': seq<Byte>)
    requires InvAt(S, s, g) && r < S.n && g[r] < |S.evs|
    requires IsMsg(S.evs[g[r]], i, j) && i < S.n && j < S.n && i != j && (r == i || r == j)
    requires RankInv(S, q', r, g[r])
    requires r == i ==> ChanInv(S, q', g[i], s.ranks[j], g[j], i, j, c')
    requires r == j ==> ChanInv(S, s.ranks[i], g[i], q', g[j], i, j, c')
    ensures InvAt(S, Net(s.ranks[r := q'], s.chan[(i, j) := c']), g)
  {
    var ranks' := s.ranks[r := q'];
    var chan' := s.chan[(i, j) := c'];
    assert forall x :: 0 <= x < S.n ==> RankInv(S, ranks'[x], x, g[x]);
    forall x, y | 0 <= x < S.n && 0 <= y < S.n && x != y
      ensures (x, y) in chan'
      ensures ChanInv(S, ranks'[x], g[x], ranks'[y], g[y], x, y, chan'[(x, y)])
    {
      if (x, y) != (i, j) { OneOtherChannel(S, s, g, r, q', i, j, x, y); }
    }
  }

  lemma {:induction false} OneOtherChannel(S: Setup, s: Net, g: seq<nat>, r: nat, q': RankState, i: nat, j: nat, x: nat,
                                           y: nat)
    requires InvAt(S, s, g) && r < S.n && g[r] < |S.evs| && IsMsg(S.evs[g[r]], i, j) && (r == i || r == j)
    requires RankInv(S, q', r, g[r]) && x < S.n && y < S.n && x != y && (x, y) != (i, j)
    ensures (x, y) in s.chan && RankInv(S, s.ranks[r := q'][x], x, g[x]) && g[y] <= |S.evs|
    ensures ChanInv(S, s.ranks[r := q'][x], g[x], s.ranks[r := q'][y], g[y], x, y, s.chan[(x, y)])
  {
    assert ChanInv(S, s.ranks[x], g[x], s.ranks[y], g[y], x, y, s.chan[(x, y)]);
    assert RankInv(S, s.ranks[x], x, g[x]) && RankInv(S, s.ranks[y], y, g[y]);
    OtherChannel(S, s.ranks[x], s.ranks[r := q'][x], g[x], s.ranks[y], s.ranks[r := q'][y], g[y], x, y, s.chan[(x, y)]);
  }

  // What one event does to the memory of a rank involved in it.
  lemma {:induction false} AfterEvent(S: Setup, p: nat, r: nat)
    requires ValidSetup(S) && p < |S.evs| && r < S.n && Involves(S.evs[p], r)
    ensures At(S, p + 1)[r] ==
            match S.evs[p]
            case Step(_, act) => Perform(At(S, p)[r], act)
            case Msg(src, _, _, effect, _) =>
              if src == r then At(S, p)[r] else Deliver(S.add, At(S, p)[r], effect, Payload(S, p))
  {
    assert ValidEvent(S.n, S.evs[p]);
    assert At(S, p + 1) == Exec(S.add, At(S, p), S.evs[p]);
  }

  lemma {:induction false} AtNextCall(S: Setup, q: RankState, r: nat, p: nat)
    requires ValidSetup(S) && r < S.n && p < |S.evs| && q.off == 0 && q.got == []
    requires q.rest == Project(r, S.evs[p + 1..]) && q.loc == At(S, p + 1)[r]
    ensures RankInv(S, q, r, NextPos(S.evs, r, p + 1))
  {
    SkipForeign(S, r, p + 1, NextPos(S.evs, r, p + 1));
  }

  // A call returns only when its whole message has gone through.
  lemma {:induction false} CallIsComplete(S: Setup, s: Net, g: seq<nat>, r: nat)
    requires InvAt(S, s, g) && Enabled(S.cap, s, Advance(r))
    ensures g[r] < |S.evs|
    ensures S.evs[g[r]].Msg? && S.evs[g[r]].src == r ==> s.ranks[r].off == |Payload(S, g[r])|
    ensures S.evs[g[r]].Msg? && S.evs[g[r]].dst == r ==> s.ranks[r].got == Payload(S, g[r])
  {
    CurrentCall(S, s, g, r);
    assert RankInv(S, s.ranks[r], r, g[r]);
  }

  // The rank's own state after the call in progress returns.
  lemma {:induction false} AdvanceRank(S: Setup, s: Net, g: seq<nat>, r: nat)
    requires InvAt(S, s, g) && Enabled(S.cap, s, Advance(r))
    ensures g[r] < |S.evs|
    ensures RankInv(S, Apply(S.add, S.cap, s, Advance(r)).ranks[r], r, NextPos(S.evs, r, g[r] + 1))
  {
    CallIsComplete(S, s, g, r);
    CurrentCall(S, s, g, r);
    var q' := Apply(S.add, S.cap, s, Advance(r)).ranks[r];
    assert s.ranks[r].loc == At(S, g[r])[r] by { assert RankInv(S, s.ranks[r], r, g[r]); }
    AfterEvent(S, g[r], r);
    assert q'.loc == At(S, g[r] + 1)[r];
    AtNextCall(S, q', r, g[r]);
  }

  lemma {:induction false} AdvanceKeepsInv(S: Setup, s: Net, g: seq<nat>, r: nat)
    requires InvAt(S, s, g) && Enabled(S.cap, s, Advance(r))
    ensures g[r] < |S.evs|
    ensures InvAt(S, Apply(S.add, S.cap, s, Advance(r)), g[r := NextPos(S.evs, r, g[r] + 1)])
  {
    CallIsComplete(S, s, g, r);
    AdvanceRank(S, s, g, r);
    MoveOneRank(S, s, g, r, Apply(S.add, S.cap, s, Advance(r)).ranks[r], NextPos(S.evs, r, g[r] + 1));
  }

  lemma {:induction false} ChanAdvance(S: Setup, s: Net, g: seq<nat>, r: nat, q': RankState, p': nat, i: nat, j: nat)
    requires InvAt(S, s, g) && r < S.n && g[r] < p' <= |S.evs|
    requires RankInv(S, q', r, p') && q'.off == 0 && q'.got == []
    requires S.evs[g[r]].Msg? && S.evs[g[r]].src == r ==> s.ranks[r].off == |Payload(S, g[r])|
    requires S.evs[g[r]].Msg? && S.evs[g[r]].dst == r ==> s.ranks[r].got == Payload(S, g[r])
    requires forall k :: g[r] + 1 <= k < p' ==> !Involves(S.evs[k], r)
    requires i < S.n && j < S.n && i != j
    ensures i == r ==> ChanInv(S, q', p', s.ranks[j], g[j], i, j, s.chan[(i, j)])
    ensures j == r ==> ChanInv(S, s.ranks[i], g[i], q', p', i, j, s.chan[(i, j)])
  {
    assert ChanInv(S, s.ranks[i], g[i], s.ranks[j], g[j], i, j, s.chan[(i, j)]);
    if i == r {
      PassedStreams(S, s.ranks[r], g[r], r, j, p');
      assert SentBy(S, q', p', i, j) == Stream(S, i, j, p');
    }
    if j == r {
      PassedStreams(S, s.ranks[r], g[r], r, i, p');
      assert ReadBy(S, q', p', i, j) == Stream(S, i, j, p');
    }
  }

  lemma {:induction false} MoveOneRank(S: Setup, s: Net, g: seq<nat>, r: nat, q': RankState, p': nat)
    requires InvAt(S, s, g) && r < S.n && g[r] < p' <= |S.evs|
    requires RankInv(S, q', r, p') && q'.off == 0 && q'.got == []
    requires S.evs[g[r]].Msg? && S.evs[g[r]].src == r ==> s.ranks[r].off == |Payload(S, g[r])|
    requires S.evs[g[r]].Msg? && S.evs[g[r]].dst == r ==> s.ranks[r].got == Payload(S, g[r])
    requires forall k :: g[r] + 1 <= k < p' ==> !Involves(S.evs[k], r)
    ensures InvAt(S, s.(ranks := s.ranks[r := q']), g[r := p'])
  {
    var ranks' := s.ranks[r := q'];
    var g' := g[r := p'];
    forall i, j | 0 <= i < S.n && 0 <= j < S.n && i != j
      ensures RankInv(S, ranks'[i], i, g'[i])
      ensures ChanInv(S, ranks'[i], g'[i], ranks'[j], g'[j], i, j, s.chan[(i, j)])
    {
      ChanAdvance(S, s, g, r, q', p', i, j);
    }
  }

  lemma {:induction false} StepKeepsInv(S: Setup, s: Net, s': Net)
    requires Inv(S, s) && Next(S.add, S.cap, s, s')
    ensures Inv(S, s')
  {
    var g :| InvAt(S, s, g);
    var m :| Enabled(S.cap, s, m) && s' == Apply(S.add, S.cap, s, m);
    match m
    case SendSome(r, k) => SendKeepsInv(S, s, g, r, k);
    case RecvSome(r, k) => RecvKeepsInv(S, s, g, r, k);
    case Advance(r) => AdvanceKeepsInv(S, s, g, r);
  }
}
