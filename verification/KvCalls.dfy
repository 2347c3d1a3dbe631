// Single calls of write_kv and read_kv in runs of the store: what decides a
// write's result, what it leaves in the table, and that calls end.

module KvCalls {
  import opened Wrappers
  import opened KvStore

  // A run with its moves.
  ghost predicate Run(n: nat, tr: seq<State>, ms: seq<Move>)
  {
    && |tr| == |ms| + 1 && tr[0] == Begin(n)
    && forall k {:trigger ms[k]} :: 0 <= k < |ms| ==> Enabled(tr[k], ms[k]) && tr[k + 1] == Apply(tr[k], ms[k])
  }

  lemma {:induction false} RunIsRun(n: nat, tr: seq<State>, ms: seq<Move>)
    requires Run(n, tr, ms)
    ensures IsRun(n, tr)
  {
    forall k | 0 < k < |tr| ensures Next(tr[k - 1], tr[k]) {
      assert Enabled(tr[k - 1], ms[k - 1]) && tr[k - 1 + 1] == Apply(tr[k - 1], ms[k - 1]);
    }
  }

  // And every run has moves.
  lemma {:induction false} RunHasMoves(n: nat, tr: seq<State>, k: nat) returns (ms: seq<Move>)
    requires IsRun(n, tr) && 0 < k <= |tr|
    ensures Run(n, tr[..k], ms)
  {
    ms := [];
    if k > 1 {
      ms := RunHasMoves(n, tr, k - 1);
      assert Next(tr[k - 1 - 1], tr[k - 1]);
      var m :| Enabled(tr[k - 2], m) && tr[k - 1] == Apply(tr[k - 2], m);
      ms := ms + [m];
      forall i {:trigger ms[i]} | 0 <= i < |ms|
        ensures Enabled(tr[..k][i], ms[i]) && tr[..k][i + 1] == Apply(tr[..k][i], ms[i])
      {
        if i < k - 2 { assert tr[..k - 1][i] == tr[i] && tr[..k - 1][i + 1] == tr[i + 1]; }
      }
    }
  }

  lemma {:induction false} RunState(n: nat, tr: seq<State>, ms: seq<Move>, k: nat)
    requires Run(n, tr, ms) && k < |tr|
    ensures StateInv(tr[k])
  {
    RunIsRun(n, tr, ms);
    RunInv(n, tr, k);
  }

  // ---------------------------------------------------------------- one call, one operation

  // No two calls have the same number.
  ghost predicate OneInv(s: State)
  {
    forall p, q :: 0 <= p < q < |s.hist| && s.hist[p].Inv? && s.hist[q].Inv? ==> s.hist[p].id != s.hist[q].id
  }

  lemma {:induction false} MoveKeepsOneInv(s: State, m: Move)
    requires OneInv(s) && HistInv(s) && Enabled(s, m)
    ensures OneInv(Apply(s, m))
  {
    HistGrows(s, m);
  }

  // What a move adds to the history.
  lemma {:induction false} HistGrows(s: State, m: Move)
    requires Enabled(s, m)
    ensures var h := Apply(s, m).hist;
      || h == s.hist
      || (m.Call? && h == s.hist + [Inv(s.nextId, m.op)])
      || (m.Step? && s.threads[m.t].Leave? && h == s.hist + [Ret(s.threads[m.t].id, s.threads[m.t].ret)])
  {
  }

  lemma {:induction false} RunOneInv(n: nat, tr: seq<State>, ms: seq<Move>, k: nat)
    requires Run(n, tr, ms) && k < |tr|
    ensures OneInv(tr[k])
  {
    if k > 0 {
      RunOneInv(n, tr, ms, k - 1);
      RunState(n, tr, ms, k - 1);
      assert tr[k - 1 + 1] == Apply(tr[k - 1], ms[k - 1]);
      MoveKeepsOneInv(tr[k - 1], ms[k - 1]);
    }
  }

  // The entry of a call that has returned is for its own operation and result.
  lemma {:induction false} EntryOf(s: State, id: nat, op: Op, ret: int)
    requires StateInv(s) && OneInv(s) && Inv(id, op) in s.hist && Ret(id, ret) in s.hist
    ensures Entry(id, op, ret) in s.lin
    ensures forall e :: e in s.lin && e.id == id ==> e == Entry(id, op, ret)
  {
    var p :| 0 <= p < |s.hist| && s.hist[p] == Ret(id, ret);
    var e :| e in s.lin && e.id == id && e.ret == ret;
    SameCall(s, id, op, e.op);
    forall f | f in s.lin && f.id == id ensures f == e {
      var x :| 0 <= x < |s.lin| && s.lin[x] == e;
      var y :| 0 <= y < |s.lin| && s.lin[y] == f;
    }
  }

  lemma {:induction false} SameCall(s: State, id: nat, op: Op, op': Op)
    requires OneInv(s) && Inv(id, op) in s.hist && Inv(id, op') in s.hist
    ensures op == op'
  {
    var p :| 0 <= p < |s.hist| && s.hist[p] == Inv(id, op);
    var q :| 0 <= q < |s.hist| && s.hist[q] == Inv(id, op');
  }

  lemma {:induction false} LinKept(n: nat, tr: seq<State>, ms: seq<Move>, j: nat, k: nat, e: Entry)
    requires Run(n, tr, ms) && j <= k < |tr| && e in tr[j].lin
    ensures e in tr[k].lin
    decreases k
  {
    if j < k {
      LinKept(n, tr, ms, j, k - 1, e);
      assert tr[k - 1 + 1] == Apply(tr[k - 1], ms[k - 1]);
      LinGrows(tr[k - 1], ms[k - 1]);
      var x :| 0 <= x < |tr[k - 1].lin| && tr[k - 1].lin[x] == e;
      assert tr[k].lin[x] == e;
    }
  }

  // The step at which a call took effect.
  lemma {:induction false} LinFrom(n: nat, tr: seq<State>, ms: seq<Move>, k: nat, e: Entry) returns (j: nat)
    requires Run(n, tr, ms) && k < |tr| && e in tr[k].lin
    ensures j < k && e !in tr[j].lin && e in tr[j + 1].lin
  {
    assert k > 0;
    if e !in tr[k - 1].lin { return k - 1; }
    j := LinFrom(n, tr, ms, k - 1, e);
  }

  // ---------------------------------------------------------------- the allocation decides

  // Step m is call id's own allocation, with this outcome.
  predicate AllocStep(s: State, m: Move, id: nat, ok: bool)
  {
    m.Step? && m.kmalloc == ok && m.t < |s.threads| && s.threads[m.t].Alloc? && s.threads[m.t].id == id
  }

  // Step m links call id's new node.
  predicate LinkStep(s: State, m: Move, id: nat, key: int, node: nat)
  {
    && m.Step? && m.t < |s.threads| && s.threads[m.t].Link?
    && s.threads[m.t].id == id && s.threads[m.t].op.key == key && s.threads[m.t].node == node
  }

  lemma {:induction false} FailingAlloc(s: State, m: Move, id: nat)
    requires Enabled(s, m) && AllocStep(s, m, id, false)
    ensures Entry(id, s.threads[m.t].op, -1) in Apply(s, m).lin
  {
  }

  // A write takes effect with -1 at a failing allocation only.
  lemma {:induction false} OnlyAllocFails(s: State, m: Move, e: Entry)
    requires Enabled(s, m) && e.op.Write? && e.ret == -1 && e !in s.lin && e in Apply(s, m).lin
    ensures AllocStep(s, m, e.id, false)
  {
    LinLast(s, m);
  }

  lemma {:induction false} LinLast(s: State, m: Move)
    requires Enabled(s, m)
    ensures var l := Apply(s, m).lin;
      l == s.lin || (|l| == |s.lin| + 1 && l == s.lin + [l[|s.lin|]] && m.Step? && !s.threads[m.t].Idle?
      && l[|s.lin|].id == s.threads[m.t].id && l[|s.lin|].op == s.threads[m.t].op
      && (l[|s.lin|].op.Write? && l[|s.lin|].ret == -1 ==> s.threads[m.t].Alloc? && !m.kmalloc))
  {
  }

  // A write returns 0 or -1, and -1 exactly when its own allocation failed.
  lemma {:induction false} WriteFailsExactly(n: nat, tr: seq<State>, ms: seq<Move>, k: nat, id: nat, op: Op, ret: int)
    requires Run(n, tr, ms) && k < |tr| && op.Write? && Inv(id, op) in tr[k].hist && Ret(id, ret) in tr[k].hist
    ensures ret == 0 || ret == -1
    ensures ret == -1 <==> exists j :: 0 <= j < k && AllocStep(tr[j], ms[j], id, false)
  {
    RunState(n, tr, ms, k);
    RunOneInv(n, tr, ms, k);
    EntryOf(tr[k], id, op, ret);
    WriteResult(tr[k].lin, Entry(id, op, ret));
    if ret == -1 {
      var j := LinFrom(n, tr, ms, k, Entry(id, op, ret));
      assert tr[j + 1] == Apply(tr[j], ms[j]);
      OnlyAllocFails(tr[j], ms[j], Entry(id, op, ret));
    }
    forall j | 0 <= j < k && AllocStep(tr[j], ms[j], id, false) ensures ret == -1 {
      assert tr[j + 1] == Apply(tr[j], ms[j]);
      FailingAlloc(tr[j], ms[j], id);
      LinKept(n, tr, ms, j + 1, k, Entry(id, tr[j].threads[ms[j].t].op, -1));
    }
  }

  // In a legal sequential history writes return 0 or -1.
  lemma {:induction false} WriteResult(lin: seq<Entry>, e: Entry)
    requires Replay(lin).Some? && e in lin && e.op.Write?
    ensures e.ret == 0 || e.ret == -1
  {
    var last := lin[|lin| - 1];
    if e != last {
      assert e in lin[..|lin| - 1];
      WriteResult(lin[..|lin| - 1], e);
    }
  }

  // ---------------------------------------------------------------- what a write leaves

  lemma {:induction false} ChainedStays(s: State, m: Move, key: int, x: nat)
    requires StateInv(s) && Enabled(s, m) && Chained(s, key, x)
    ensures Chained(Apply(s, m), key, x)
  {
    NodesStay(s, m, x);
    ChainsStay(s, m, Bucket(key), x);
  }

  lemma {:induction false} NodesStay(s: State, m: Move, x: nat)
    requires Enabled(s, m) && x in s.nodes && x < s.nextNode
    ensures x in Apply(s, m).nodes && Apply(s, m).nodes[x].key == s.nodes[x].key
  {
  }

  lemma {:induction false} ChainsStay(s: State, m: Move, b: int, x: nat)
    requires Enabled(s, m) && 0 <= b < BUCKETS && x in s.chains[b]
    ensures Shape(Apply(s, m)) && x in Apply(s, m).chains[b]
  {
    if m.Step? && s.threads[m.t].Link? {
      LinkFrame(s, m.t, m.kmalloc);
      var i :| 0 <= i < |s.chains[b]| && s.chains[b][i] == x;
      var c := Apply(s, m).chains[b];
      assert c[if Bucket(s.threads[m.t].op.key) == b then i + 1 else i] == x;
    }
  }

  lemma {:induction false} RunChained(n: nat, tr: seq<State>, ms: seq<Move>, j: nat, k: nat, key: int, x: nat)
    requires Run(n, tr, ms) && j <= k < |tr| && Chained(tr[j], key, x)
    ensures Chained(tr[k], key, x)
    decreases k
  {
    if j < k {
      RunChained(n, tr, ms, j, k - 1, key, x);
      RunState(n, tr, ms, k - 1);
      assert tr[k - 1 + 1] == Apply(tr[k - 1], ms[k - 1]);
      ChainedStays(tr[k - 1], ms[k - 1], key, x);
    }
  }

  // From its link step on, a new key is in the table, in the node that was made
  // for it, with the written value to begin with; and the write returns 0.
  lemma {:induction false} LinkedKeyStays(n: nat, tr: seq<State>, ms: seq<Move>, j: nat, k: nat, id: nat, key: int,
                                          node: nat)
    requires Run(n, tr, ms) && j < k < |tr| && LinkStep(tr[j], ms[j], id, key, node)
    ensures Chained(tr[k], key, node)
    ensures tr[j].threads[ms[j].t].op.Write? && node in tr[j + 1].nodes
    ensures tr[j + 1].nodes[node].value == tr[j].threads[ms[j].t].op.value
    ensures forall ret :: Ret(id, ret) in tr[k].hist ==> ret == 0
  {
    var s, m := tr[j], ms[j];
    RunState(n, tr, ms, j);
    assert ThreadInv(s, m.t);
    assert tr[j + 1] == Apply(s, m);
    LinkFrame(s, m.t, m.kmalloc);
    assert tr[j + 1].chains[Bucket(key)][0] == node;
    RunChained(n, tr, ms, j + 1, k, key, node);
    LinKept(n, tr, ms, j + 1, k, Entry(id, s.threads[m.t].op, 0));
    RunState(n, tr, ms, k);
    forall ret | Ret(id, ret) in tr[k].hist ensures ret == 0 { OneResult(tr[k], Entry(id, s.threads[m.t].op, 0), ret); }
  }

  lemma {:induction false} OneResult(s: State, e: Entry, ret: int)
    requires StateInv(s) && e in s.lin && Ret(e.id, ret) in s.hist
    ensures ret == e.ret
  {
    var p :| 0 <= p < |s.hist| && s.hist[p] == Ret(e.id, ret);
    var f :| f in s.lin && f.id == e.id && f.ret == ret;
    var x :| 0 <= x < |s.lin| && s.lin[x] == e;
    var y :| 0 <= y < |s.lin| && s.lin[y] == f;
  }

  // A write whose allocation succeeded and that has returned, returned 0 and has
  // its key in the table.
  lemma {:induction false} AllocatedKeyIsStored(n: nat, tr: seq<State>, ms: seq<Move>, j: nat, k: nat, id: nat,
                                                ret: int)
    requires Run(n, tr, ms) && j < k < |tr| && AllocStep(tr[j], ms[j], id, true) && Ret(id, ret) in tr[k].hist
    ensures ret == 0 && exists x :: Chained(tr[k], tr[j].threads[ms[j].t].op.key, x)
  {
    var t, op := ms[j].t, tr[j].threads[ms[j].t].op;
    assert tr[j + 1] == Apply(tr[j], ms[j]);
    var node := tr[j].nextNode;
    RunState(n, tr, ms, k);
    var i := LinkOrWait(n, tr, ms, j, k, t, id, op, node);
    ReturnedIsPast(tr[k], t, id, ret);
    assert i < k;
    LinkedKeyStays(n, tr, ms, i, k, id, op.key, node);
  }

  // A call that has returned is not at its link.
  lemma {:induction false} ReturnedIsPast(s: State, t: nat, id: nat, ret: int)
    requires StateInv(s) && Ret(id, ret) in s.hist
    ensures t < |s.threads| && s.threads[t].Link? ==> s.threads[t].id != id
  {
    assert t < |s.threads| ==> ThreadInv(s, t);
    var p :| 0 <= p < |s.hist| && s.hist[p] == Ret(id, ret);
    var e :| e in s.lin && e.id == id && e.ret == ret;
  }

  // With its node made, a thread waits at the link until it takes that step.
  lemma {:induction false} LinkOrWait(n: nat, tr: seq<State>, ms: seq<Move>, j: nat, k: nat, t: nat, id: nat, op: Op,
                                      node: nat) returns (i: nat)
    requires Run(n, tr, ms) && j < k < |tr| && t < |tr[j + 1].threads| && tr[j + 1].threads[t] == Link(id, op, node)
    ensures j < i <= k
    ensures i < k ==> LinkStep(tr[i], ms[i], id, op.key, node)
    ensures i == k ==> t < |tr[k].threads| && tr[k].threads[t] == Link(id, op, node)
    decreases k
  {
    if k == j + 1 { return k; }
    i := LinkOrWait(n, tr, ms, j, k - 1, t, id, op, node);
    if i == k - 1 {
      assert tr[k - 1 + 1] == Apply(tr[k - 1], ms[k - 1]);
      LinGrows(tr[k - 1], ms[k - 1]);
      if ms[k - 1].t != t { i := k; } else { StepAtLink(tr[k - 1], ms[k - 1]); }
    }
  }

  lemma {:induction false} StepAtLink(s: State, m: Move)
    requires Enabled(s, m) && s.threads[m.t].Link?
    ensures m.Step?
  {
  }

  // A write that finds its key puts its value there and returns 0.
  lemma {:induction false} HitStores(n: nat, tr: seq<State>, ms: seq<Move>, j: nat, k: nat)
    requires Run(n, tr, ms) && j < k < |tr| && ms[j].Step? && ms[j].t < |tr[j].threads| && tr[j].threads[ms[j].t].Hit?
    requires tr[j].threads[ms[j].t].op.Write?
    ensures var pc := tr[j].threads[ms[j].t];
      && Chained(tr[k], pc.op.key, pc.node)
      && pc.node in tr[j + 1].nodes && tr[j + 1].nodes[pc.node].value == pc.op.value
      && forall ret :: Ret(pc.id, ret) in tr[k].hist ==> ret == 0
  {
    var s, m := tr[j], ms[j];
    var pc := s.threads[m.t];
    RunState(n, tr, ms, j);
    assert ThreadInv(s, m.t);
    assert tr[j + 1] == Apply(s, m);
    RunChained(n, tr, ms, j, k, pc.op.key, pc.node);
    assert Entry(pc.id, pc.op, 0) in tr[j + 1].lin;
    LinKept(n, tr, ms, j + 1, k, Entry(pc.id, pc.op, 0));
    RunState(n, tr, ms, k);
    forall ret | Ret(pc.id, ret) in tr[k].hist ensures ret == 0 { OneResult(tr[k], Entry(pc.id, pc.op, 0), ret); }
  }

  // ---------------------------------------------------------------- a write and a read

  lemma {:induction false} Then(n: nat, tr: seq<State>, ms: seq<Move>, m: Move)
    returns (tr': seq<State>, ms': seq<Move>)
    requires Run(n, tr, ms) && Enabled(tr[|ms|], m)
    ensures Run(n, tr', ms') && tr'[|ms'|] == Apply(tr[|ms|], m)
  {
    tr', ms' := tr + [Apply(tr[|ms|], m)], ms + [m];
    forall k {:trigger ms'[k]} | 0 <= k < |ms'| ensures Enabled(tr'[k], ms'[k]) && tr'[k + 1] == Apply(tr'[k], ms'[k]) {
      if k < |ms| { assert ms'[k] == ms[k] && tr'[k] == tr[k] && tr'[k + 1] == tr[k + 1]; }
    }
  }

  // The only thread has written a new key: what the state is then.
  ghost predicate Wrote(s: State, key: int, v: int)
  {
    && Shape(s) && InTable(key) && |s.threads| > 0 && s.threads[0].Idle? && s.locks[Bucket(key)].None?
    && s.chains[Bucket(key)] == [0] && 0 in s.nodes && s.nodes[0] == Node(key, v)
    && s.nextId == 1 && s.hist == [Inv(0, Write(key, v)), Ret(0, 0)]
  }

  lemma {:induction false} FirstWrite(n: nat, key: int, v: int) returns (tr: seq<State>, ms: seq<Move>)
    requires n > 0 && InTable(key)
    ensures Run(n, tr, ms) && Wrote(tr[|ms|], key, v)
  {
    tr, ms := [Begin(n)], [];
    tr, ms := Then(n, tr, ms, Call(0, Write(key, v)));
    tr, ms := Then(n, tr, ms, Step(0, true));      // lock
    tr, ms := Then(n, tr, ms, Step(0, true));      // end of the empty chain
    tr, ms := Then(n, tr, ms, Step(0, true));      // kmalloc
    tr, ms := Then(n, tr, ms, Step(0, true));      // link
    tr, ms := Then(n, tr, ms, Step(0, true));      // unlock
    tr, ms := Then(n, tr, ms, Step(0, true));      // return
  }

  // From an empty table, for every key in it and every value: the write returns
  // 0 and a read after it returns the value.
  lemma {:induction false} WriteThenRead(n: nat, key: int, v: int) returns (tr: seq<State>, ms: seq<Move>)
    requires n > 0 && InTable(key)
    ensures Run(n, tr, ms)
    ensures tr[|ms|].hist == [Inv(0, Write(key, v)), Ret(0, 0), Inv(1, Read(key)), Ret(1, v)]
  {
    tr, ms := FirstWrite(n, key, v);
    tr, ms := Then(n, tr, ms, Call(0, Read(key)));
    tr, ms := Then(n, tr, ms, Step(0, true));      // lock
    tr, ms := Then(n, tr, ms, Step(0, true));      // found
    tr, ms := Then(n, tr, ms, Step(0, true));      // unlock
    tr, ms := Then(n, tr, ms, Step(0, true));      // load
    tr, ms := Then(n, tr, ms, Step(0, true));      // return
  }

  // ---------------------------------------------------------------- calls end

  // Steps a thread with its lock, or past it, has left at most.
  function Left(s: State, t: nat): nat
    requires Shape(s) && t < |s.threads|
  {
    match s.threads[t]
    case Idle => 0
    case Start(_, _) => 0
    case Scan(_, op, i) =>
      var b := Bucket(op.key);
      5 + (if 0 <= b < BUCKETS && i <= |s.chains[b]| then |s.chains[b]| - i else 0)
    case Hit(_, _, _) => 3
    case Alloc(_, _) => 4
    case Link(_, _, _) => 3
    case Unlock(_, _, _) => 2
    case Load(_, _, _) => 2
    case Leave(_, _, _) => 1
  }

  // Each of its own steps lowers that, and no step of another thread changes it:
  // once it has the lock, a call is over after as many steps of its own.
  lemma {:induction false} CallsEnd(n: nat, tr: seq<State>, ms: seq<Move>, k: nat, t: nat)
    requires Run(n, tr, ms) && k < |ms| && t < |tr[k].threads| && !tr[k].threads[t].Idle? && !tr[k].threads[t].Start?
    ensures Shape(tr[k]) && Shape(tr[k + 1]) && t < |tr[k + 1].threads|
    ensures if ms[k].t == t then Left(tr[k + 1], t) < Left(tr[k], t) else Left(tr[k + 1], t) == Left(tr[k], t)
  {
    RunState(n, tr, ms, k);
    RunState(n, tr, ms, k + 1);
    assert tr[k + 1] == Apply(tr[k], ms[k]) && ThreadInv(tr[k], t) && ThreadInv(tr[k], ms[k].t);
    LinGrows(tr[k], ms[k]);
    if ms[k].t == t { OwnStep(tr[k], ms[k]); } else { OthersStep(tr[k], ms[k], t); }
  }

  lemma {:induction false} OwnStep(s: State, m: Move)
    requires Enabled(s, m) && Shape(Apply(s, m)) && !s.threads[m.t].Idle? && !s.threads[m.t].Start? && ThreadInv(s, m.t)
    ensures m.t < |Apply(s, m).threads| && Left(Apply(s, m), m.t) < Left(s, m.t)
  {
  }

  lemma {:induction false} OthersStep(s: State, m: Move, t: nat)
    requires Enabled(s, m) && Shape(Apply(s, m)) && m.t != t && t < |s.threads| && ThreadInv(s, t) && ThreadInv(s, m.t)
    requires t < |Apply(s, m).threads| && Apply(s, m).threads[t] == s.threads[t]
    ensures Left(Apply(s, m), t) == Left(s, t)
  {
    if m.Step? && s.threads[m.t].Link? { LinkFrame(s, m.t, m.kmalloc); }
  }
}
