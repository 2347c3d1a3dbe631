// Setting up the full mesh of connections: every rank first accepts one
// connection from each higher rank, in whatever order they arrive, and then
// connects to the lower ranks in turn.

module TcpMesh {
  import opened Wrappers

  // One end of connection `conn`.
  datatype Socket = Socket(conn: nat, server: bool)

  // Progress of one rank. `waiting` is an accepted connection whose rank
  // number has not arrived; `linking` one it has made and not yet announced.
  datatype Rank = Rank(
    accepted: nat, waiting: Option<nat>, connected: nat, linking: Option<nat>, sockets: map<nat, Socket>)

  // `wire[c]` is the rank number sent on connection c; `ends[c]` who accepted
  // and who connected.
  datatype Mesh = Mesh(ranks: seq<Rank>, next: nat, wire: map<nat, nat>, ends: map<nat, (nat, nat)>)

  datatype Move = Connect(r: nat) | Announce(r: nat) | Identify(r: nat)

  function ToAccept(m: Mesh, r: nat): nat
  {
    if r < |m.ranks| then |m.ranks| - 1 - r else 0
  }

  predicate Listening(m: Mesh, i: nat)
  {
    i < |m.ranks| && m.ranks[i].accepted < ToAccept(m, i) && m.ranks[i].waiting.None?
  }

  predicate Enabled(m: Mesh, a: Move)
  {
    a.r < |m.ranks|
    && var q := m.ranks[a.r];
    match a
    case Connect(r) =>
      && q.accepted == ToAccept(m, r) && q.waiting.None? && q.linking.None?
      && q.connected < r && Listening(m, q.connected)
    case Announce(r) => q.linking.Some? && q.connected < r
    case Identify(_) => q.waiting.Some? && q.waiting.value in m.wire
  }

  function Apply(m: Mesh, a: Move): Mesh
    requires Enabled(m, a)
  {
    var q := m.ranks[a.r];
    match a
    case Connect(r) =>
      var i := q.connected;
      var c := m.next;
      Mesh(m.ranks[r := q.(linking := Some(c))][i := m.ranks[i].(waiting := Some(c))],
           c + 1, m.wire, m.ends[c := (i, r)])
    case Announce(r) =>
      var c := q.linking.value;
      var q' := q.(linking := None, connected := q.connected + 1, sockets := q.sockets[q.connected := Socket(c,
          false)]);
      m.(ranks := m.ranks[r := q'], wire := m.wire[c := r])
    case Identify(i) =>
      var c := q.waiting.value;
      var q' := q.(waiting := None, accepted := q.accepted + 1, sockets := q.sockets[m.wire[c] := Socket(c, true)]);
      m.(ranks := m.ranks[i := q'])
  }

  function Start(n: nat): Mesh
  {
    Mesh(seq(n, r => Rank(0, None, 0, None, map[])), 0, map[], map[])
  }

  ghost predicate Next(m: Mesh, m': Mesh)
  {
    exists a :: Enabled(m, a) && m' == Apply(m, a)
  }

  ghost predicate IsRun(n: nat, tr: seq<Mesh>)
  {
    |tr| > 0 && tr[0] == Start(n) && forall k :: 0 < k < |tr| ==> Next(tr[k - 1], tr[k])
  }

  predicate Done(m: Mesh, r: nat)
    requires r < |m.ranks|
  {
    var q := m.ranks[r];
    q.accepted == ToAccept(m, r) && q.waiting.None? && q.linking.None? && q.connected == r
  }

  ghost predicate AllDone(m: Mesh)
  {
    forall r :: 0 <= r < |m.ranks| ==> Done(m, r)
  }

  // ---------------------------------------------------------------- invariant

  // The ranks above i that rank i has a socket for.
  ghost function Higher(q: Rank, i: nat): set<nat>
  {
    set j | j in q.sockets && j > i
  }

  // Connection c stands between i (accepting) and j (connecting), at the
  // moment in between Connect and Identify.
  ghost predicate Pending(m: Mesh, i: nat, j: nat, c: nat)
    requires i < |m.ranks| && j < |m.ranks|
  {
    && i < j && c in m.ends && m.ends[c] == (i, j)
    && j !in m.ranks[i].sockets
    && (if c in m.wire then m.wire[c] == j && m.ranks[j].connected > i
        else m.ranks[j].linking == Some(c) && m.ranks[j].connected == i)
  }

  ghost predicate RankInv(m: Mesh, i: nat)
    requires i < |m.ranks|
  {
    var q := m.ranks[i];
    && q.accepted == |Higher(q, i)| <= ToAccept(m, i)
    && q.connected <= i
    && (forall j :: j in q.sockets ==> j < |m.ranks| && j != i)
    && (q.waiting.Some? ==>
         && q.accepted < ToAccept(m, i)
         && q.waiting.value in m.ends && m.ends[q.waiting.value].0 == i
         && m.ends[q.waiting.value].1 < |m.ranks|
         && Pending(m, i, m.ends[q.waiting.value].1, q.waiting.value))
    && (q.linking.Some? ==>
         && q.connected < i && q.linking.value !in m.wire
         && q.linking.value in m.ends && m.ends[q.linking.value] == (q.connected, i)
         && m.ranks[q.connected].waiting == q.linking)
  }

  // i < j: whatever sockets the two ranks have for each other are the two ends
  // of one connection.
  ghost predicate PairInv(m: Mesh, i: nat, j: nat)
    requires i < j < |m.ranks|
  {
    var (a, b) := (m.ranks[i], m.ranks[j]);
    && (i in b.sockets <==> b.connected > i)
    && (i in b.sockets ==>
         && b.sockets[i].conn in m.ends && m.ends[b.sockets[i].conn] == (i, j)
         && !b.sockets[i].server && b.sockets[i].conn in m.wire
         && (j in a.sockets || a.waiting == Some(b.sockets[i].conn)))
    && (j in a.sockets ==> b.connected > i && a.sockets[j] == Socket(b.sockets[i].conn, true))
  }

  ghost predicate Inv(m: Mesh)
  {
    && (forall i :: 0 <= i < |m.ranks| ==> RankInv(m, i))
    && (forall i, j :: 0 <= i < j < |m.ranks| ==> PairInv(m, i, j))
    && (forall c :: c in m.ends ==> c < m.next)
    && (forall c :: c in m.wire ==> c in m.ends && m.ends[c].1 == m.wire[c])
  }

  lemma {:induction false} StartInv(n: nat)
    ensures Inv(Start(n))
  {
    var m := Start(n);
    forall i | 0 <= i < n ensures RankInv(m, i) {
      assert Higher(m.ranks[i], i) == {};
    }
  }

  lemma {:induction false} ConnectKeepsRank(m: Mesh, r: nat, x: nat)
    requires Inv(m) && Enabled(m, Connect(r)) && x < |m.ranks|
    ensures RankInv(Apply(m, Connect(r)), x)
  {
    var m' := Apply(m, Connect(r));
    var i := m.ranks[r].connected;
    assert PairInv(m, i, r) && RankInv(m, i) && RankInv(m, r) && RankInv(m, x);
    assert Higher(m'.ranks[x], x) == Higher(m.ranks[x], x);
  }

  lemma {:induction false} ConnectKeepsInv(m: Mesh, r: nat)
    requires Inv(m) && Enabled(m, Connect(r))
    ensures Inv(Apply(m, Connect(r)))
  {
    var m' := Apply(m, Connect(r));
    forall x | 0 <= x < |m'.ranks| ensures RankInv(m', x) {
      ConnectKeepsRank(m, r, x);
    }
    forall x, y | 0 <= x < y < |m'.ranks| ensures PairInv(m', x, y) {
      assert PairInv(m, x, y);
    }
  }

  lemma {:induction false} AnnounceKeepsInv(m: Mesh, r: nat)
    requires Inv(m) && Enabled(m, Announce(r))
    ensures Inv(Apply(m, Announce(r)))
  {
    var m' := Apply(m, Announce(r));
    assert RankInv(m, r) && PairInv(m, m.ranks[r].connected, r);
    forall x | 0 <= x < |m'.ranks| ensures RankInv(m', x) { AnnounceKeepsRank(m, r, x); }
    forall x, y | 0 <= x < y < |m'.ranks| ensures PairInv(m', x, y) { AnnounceKeepsPair(m, r, x, y); }
  }

  lemma {:induction false} AnnounceKeepsRank(m: Mesh, r: nat, x: nat)
    requires Inv(m) && Enabled(m, Announce(r)) && x < |m.ranks|
    ensures RankInv(Apply(m, Announce(r)), x)
  {
    var i := m.ranks[r].connected;
    assert RankInv(m, r) && RankInv(m, i) && PairInv(m, i, r) && RankInv(m, x);
    assert Higher(Apply(m, Announce(r)).ranks[x], x) == Higher(m.ranks[x], x);
  }

  lemma {:induction false} AnnounceKeepsPair(m: Mesh, r: nat, x: nat, y: nat)
    requires Inv(m) && Enabled(m, Announce(r)) && x < y < |m.ranks|
    ensures PairInv(Apply(m, Announce(r)), x, y)
  {
    var i := m.ranks[r].connected;
    assert RankInv(m, r) && RankInv(m, i) && PairInv(m, i, r) && PairInv(m, x, y);
  }

  ghost function Range(a: nat, b: nat): (s: set<nat>)
    ensures forall x :: x in s <==> a <= x < b
    ensures a <= b ==> |s| == b - a
  {
    if a >= b then {} else Range(a, b - 1) + {b - 1}
  }

  lemma {:induction false} Subsets<T>(a: set<T>, b: set<T>)
    requires a <= b
    ensures |a| <= |b|
    ensures |a| == |b| ==> a == b
  {
    assert b == a + (b - a);
  }

  lemma {:induction false} HigherBound(m: Mesh, i: nat)
    requires i < |m.ranks| && RankInv(m, i)
    ensures |Higher(m.ranks[i], i)| <= ToAccept(m, i)
    ensures (exists j :: i < j < |m.ranks| && j !in m.ranks[i].sockets) ==> |Higher(m.ranks[i], i)| < ToAccept(m, i)
    ensures (forall j :: i < j < |m.ranks| ==> j in m.ranks[i].sockets) ==> |Higher(m.ranks[i], i)| == ToAccept(m, i)
  {
    var all := Range(i + 1, |m.ranks|);
    Subsets(Higher(m.ranks[i], i), all);
    if exists j :: i < j < |m.ranks| && j !in m.ranks[i].sockets {
      var j :| i < j < |m.ranks| && j !in m.ranks[i].sockets;
      assert j in all && j !in Higher(m.ranks[i], i);
    }
    if forall j :: i < j < |m.ranks| ==> j in m.ranks[i].sockets {
      assert Higher(m.ranks[i], i) == all;
    }
  }

  lemma {:induction false} IdentifyKeepsInv(m: Mesh, i: nat)
    requires Inv(m) && Enabled(m, Identify(i))
    ensures Inv(Apply(m, Identify(i)))
  {
    var m' := Apply(m, Identify(i));
    assert RankInv(m, i);
    forall x | 0 <= x < |m'.ranks| ensures RankInv(m', x) { IdentifyKeepsRank(m, i, x); }
    forall x, y | 0 <= x < y < |m'.ranks| ensures PairInv(m', x, y) { IdentifyKeepsPair(m, i, x, y); }
  }

  lemma {:induction false} IdentifyKeepsRank(m: Mesh, i: nat, x: nat)
    requires Inv(m) && Enabled(m, Identify(i)) && x < |m.ranks|
    ensures RankInv(Apply(m, Identify(i)), x)
  {
    var m' := Apply(m, Identify(i));
    var c := m.ranks[i].waiting.value;
    var j := m.wire[c];
    assert RankInv(m, i) && RankInv(m, x);
    assert Pending(m, i, j, c);
    assert PairInv(m, i, j);
    if x == i {
      assert Higher(m'.ranks[x], x) == Higher(m.ranks[x], x) + {j};
    } else {
      assert Higher(m'.ranks[x], x) == Higher(m.ranks[x], x);
    }
  }

  lemma {:induction false} IdentifyKeepsPair(m: Mesh, i: nat, x: nat, y: nat)
    requires Inv(m) && Enabled(m, Identify(i)) && x < y < |m.ranks|
    ensures PairInv(Apply(m, Identify(i)), x, y)
  {
    var c := m.ranks[i].waiting.value;
    assert RankInv(m, i) && Pending(m, i, m.wire[c], c) && PairInv(m, i, m.wire[c]) && PairInv(m, x, y);
  }

  lemma {:induction false} StepKeepsInv(m: Mesh, m': Mesh)
    requires Inv(m) && Next(m, m')
    ensures Inv(m') && |m'.ranks| == |m.ranks|
  {
    var a :| Enabled(m, a) && m' == Apply(m, a);
    match a
    case Connect(r) => ConnectKeepsInv(m, r);
    case Announce(r) => AnnounceKeepsInv(m, r);
    case Identify(r) => IdentifyKeepsInv(m, r);
  }

  lemma {:induction false} RunInv(n: nat, tr: seq<Mesh>, k: nat)
    requires IsRun(n, tr) && k < |tr|
    ensures Inv(tr[k]) && |tr[k].ranks| == n
  {
    if k == 0 {
      StartInv(n);
    } else {
      RunInv(n, tr, k - 1);
      StepKeepsInv(tr[k - 1], tr[k]);
    }
  }

  // ---------------------------------------------------------------- theorems

  lemma {:induction false} HighestBusy(m: Mesh) returns (h: nat)
    requires !AllDone(m)
    ensures h < |m.ranks| && !Done(m, h) && forall j :: h < j < |m.ranks| ==> Done(m, j)
  {
    var r :| 0 <= r < |m.ranks| && !Done(m, r);
    h := r;
    var k := r + 1;
    while k < |m.ranks|
      invariant r < k <= |m.ranks| && h < k && !Done(m, h)
      invariant forall j :: h < j < k ==> Done(m, j)
    {
      if !Done(m, k) { h := k; }
      k := k + 1;
    }
  }

  // An accepting rank that waits for a rank number gets it.
  lemma {:induction false} WaitingMoves(m: Mesh, i: nat)
    requires Inv(m) && i < |m.ranks| && m.ranks[i].waiting.Some?
    ensures exists a :: Enabled(m, a)
  {
    assert RankInv(m, i);
    var c := m.ranks[i].waiting.value;
    if c in m.wire {
      assert Enabled(m, Identify(i));
    } else {
      assert Enabled(m, Announce(m.ends[c].1));
    }
  }

  lemma {:induction false} HighestMoves(m: Mesh, h: nat)
    requires Inv(m) && h < |m.ranks| && !Done(m, h)
    requires forall j :: h < j < |m.ranks| ==> Done(m, j)
    ensures exists a :: Enabled(m, a)
  {
    var q := m.ranks[h];
    assert RankInv(m, h);
    if q.waiting.Some? {
      WaitingMoves(m, h);
    } else if q.linking.Some? {
      assert Enabled(m, Announce(h));
    } else {
      forall j | h < j < |m.ranks| ensures j in q.sockets {
        assert PairInv(m, h, j) && Done(m, j);
      }
      HigherBound(m, h);
      assert q.connected < h;
      var i := q.connected;
      assert RankInv(m, i) && PairInv(m, i, h);
      if m.ranks[i].waiting.Some? {
        WaitingMoves(m, i);
      } else {
        HigherBound(m, i);
        assert Enabled(m, Connect(h));
      }
    }
  }

  // Some rank can always take a step until every rank has all its sockets.
  lemma {:induction false} SetupNeverStalls(n: nat, tr: seq<Mesh>, k: nat)
    requires IsRun(n, tr) && k < |tr|
    ensures AllDone(tr[k]) || exists m' :: Next(tr[k], m')
  {
    RunInv(n, tr, k);
    if !AllDone(tr[k]) {
      var h := HighestBusy(tr[k]);
      HighestMoves(tr[k], h);
      var a :| Enabled(tr[k], a);
      assert Next(tr[k], Apply(tr[k], a));
    }
  }

  function Work(m: Mesh, i: nat): int
  {
    if i >= |m.ranks| then 0
    else
      var q := m.ranks[i];
      2 * (i - q.connected) - (if q.linking.Some? then 1 else 0) + (|m.ranks| - 1 - i - q.accepted)
  }

  function TotalWork(m: Mesh, k: nat): int
  {
    if k == 0 then 0 else TotalWork(m, k - 1) + Work(m, k - 1)
  }

  lemma {:induction false} WorkChange(m: Mesh, m': Mesh, r: nat, k: nat)
    requires r < |m.ranks| == |m'.ranks| && k <= |m.ranks|
    requires forall x :: 0 <= x < |m.ranks| && x != r ==> Work(m', x) == Work(m, x)
    ensures TotalWork(m', k) == TotalWork(m, k) + (if r < k then Work(m', r) - Work(m, r) else 0)
  {
    if k > 0 { WorkChange(m, m', r, k - 1); }
  }

  lemma {:induction false} TotalWorkNonNegative(m: Mesh, k: nat)
    requires Inv(m) && k <= |m.ranks|
    ensures TotalWork(m, k) >= 0
  {
    if k > 0 {
      TotalWorkNonNegative(m, k - 1);
      assert RankInv(m, k - 1);
    }
  }

  // Each step brings the mesh strictly closer to complete.
  lemma {:induction false} StepMakesProgress(m: Mesh, a: Move)
    requires Inv(m) && Enabled(m, a)
    ensures var m' := Apply(m, a);
            0 <= TotalWork(m', |m'.ranks|) < TotalWork(m, |m.ranks|)
  {
    var m' := Apply(m, a);
    StepKeepsInv(m, m');
    WorkChange(m, m', a.r, |m.ranks|);
    TotalWorkNonNegative(m', |m'.ranks|);
  }

  // At the end the sockets of every two ranks for each other are the two ends
  // of one connection, made between exactly those two.
  lemma {:induction false} CompleteMesh(n: nat, tr: seq<Mesh>, k: nat, i: nat, j: nat)
    requires IsRun(n, tr) && k < |tr| && AllDone(tr[k]) && i < j < n
    ensures var m := tr[k];
            |m.ranks| == n && j in m.ranks[i].sockets && i in m.ranks[j].sockets
            && var c := m.ranks[i].sockets[j].conn;
               && m.ranks[i].sockets[j] == Socket(c, true)
               && m.ranks[j].sockets[i] == Socket(c, false)
               && c in m.ends && m.ends[c] == (i, j)
  {
    RunInv(n, tr, k);
    assert PairInv(tr[k], i, j) && Done(tr[k], i) && Done(tr[k], j);
  }
}
