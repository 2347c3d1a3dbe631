// The kernel key-value store: 1024 hash chains under one spinlock each, used by
// any number of threads. Every history of write_kv and read_kv calls is
// linearizable to a plain map.

module KvStore {
  import opened Wrappers

  const BUCKETS: nat := 1024

  // C's remainder: truncates toward zero.
  function CRem(a: int, b: int): int
    requires b > 0
  {
    if a >= 0 then a % b else -((-a) % b)
  }

  function Bucket(key: int): int
  {
    CRem(key, BUCKETS)
  }

  // kv_store[bucket] is inside the array.
  predicate InTable(key: int)
  {
    0 <= Bucket(key) < BUCKETS
  }

  // The index is in range exactly for non-negative keys and for the negative
  // multiples of 1024.
  lemma {:induction false} InTableExactly(key: int)
    ensures InTable(key) <==> key >= 0 || key % 1024 == 0
  {
    if key < 0 {
      assert (-key) % 1024 == 0 <==> key % 1024 == 0;
    }
  }

  lemma {:induction false} NegativeKeyOutOfTable()
    ensures !InTable(-1) && Bucket(-1) == -1
  {
    assert 1 % 1024 == 1;
  }

  // ---------------------------------------------------------------- specification

  datatype Op = Write(key: int, value: int) | Read(key: int)

  // What the calls did to a plain map and returned. A write to a new key that
  // could not allocate returns -1 and changes nothing; a read that misses returns -1.
  function Effect(m: map<int, int>, op: Op, ret: int): Option<map<int, int>>
  {
    match op
    case Write(k, v) => if ret == 0 then Some(m[k := v]) else if ret == -1 && k !in m then Some(m) else None
    case Read(k) => if ret == (if k in m then m[k] else -1) then Some(m) else None
  }

  datatype Event = Inv(id: nat, op: Op) | Ret(id: nat, ret: int)

  datatype Entry = Entry(id: nat, op: Op, ret: int)

  // The map after a sequential history, or None when it is not a legal one.
  function Replay(lin: seq<Entry>): Option<map<int, int>>
  {
    if lin == [] then Some(map[])
    else
      var last := lin[|lin| - 1];
      match Replay(lin[..|lin| - 1])
      case None => None
      case Some(m) => Effect(m, last.op, last.ret)
  }

  ghost predicate InOrder(hist: seq<Event>, lin: seq<Entry>, a: nat, b: nat)
  {
    (exists p, q :: 0 <= p < q < |hist| && hist[p].Ret? && hist[p].id == a && hist[q].Inv? && hist[q].id == b) ==>
      forall x, y :: 0 <= x < |lin| && 0 <= y < |lin| && lin[x].id == a && lin[y].id == b ==> x < y
  }

  ghost predicate Linearizes(hist: seq<Event>, lin: seq<Entry>)
  {
    && Replay(lin).Some?
    && (forall x, y :: 0 <= x < y < |lin| ==> lin[x].id != lin[y].id)
    && (forall e :: e in lin ==> Inv(e.id, e.op) in hist)
    && (forall p :: 0 <= p < |hist| && hist[p].Ret? ==>
          exists e :: e in lin && e.id == hist[p].id && e.ret == hist[p].ret)
    && (forall a, b :: InOrder(hist, lin, a, b))
  }

  ghost predicate Linearizable(hist: seq<Event>)
  {
    exists lin :: Linearizes(hist, lin)
  }

  // ---------------------------------------------------------------- machine

  datatype Node = Node(key: int, value: int)

  datatype Pc =
    | Idle
    | Start(id: nat, op: Op)              // called, wants the bucket's lock
    | Scan(id: nat, op: Op, i: nat)       // lock held, at element i of the chain
    | Hit(id: nat, op: Op, node: nat)     // lock held, key found in node
    | Alloc(id: nat, op: Op)              // lock held, write did not find its key
    | Link(id: nat, op: Op, node: nat)    // lock held, new node initialised
    | Unlock(id: nat, op: Op, ret: int)   // lock held, result known
    | Load(id: nat, op: Op, node: nat)    // read: lock dropped, value not yet loaded
    | Leave(id: nat, op: Op, ret: int)    // about to return to the caller

  datatype State = State(
    chains: seq<seq<nat>>, nodes: map<nat, Node>, locks: seq<Option<nat>>, threads: seq<Pc>,
    nextNode: nat, nextId: nat,
    hist: seq<Event>, lin: seq<Entry>)    // history variables

  function Begin(n: nat): State
  {
    State(seq(BUCKETS, i => []), map[], seq(BUCKETS, i => None), seq(n, t => Idle), 0, 0, [], [])
  }

  datatype Move = Call(t: nat, op: Op) | Step(t: nat, kmalloc: bool)

  predicate Shape(s: State)
  {
    |s.chains| == BUCKETS && |s.locks| == BUCKETS
  }

  predicate Enabled(s: State, m: Move)
  {
    Shape(s) && m.t < |s.threads|
    && match m
       case Call(t, op) => s.threads[t].Idle? && InTable(op.key)
       case Step(t, _) =>
         var pc := s.threads[t];
         && !pc.Idle? && InTable(pc.op.key)
         && (pc.Start? ==> s.locks[Bucket(pc.op.key)].None?)
         && (pc.Scan? && pc.i < |s.chains[Bucket(pc.op.key)]| ==> s.chains[Bucket(pc.op.key)][pc.i] in s.nodes)
         && (pc.Hit? || pc.Load? ==> pc.node in s.nodes)
         && (pc.Load? ==> pc.op.Read?) && (pc.Alloc? || pc.Link? ==> pc.op.Write?)
  }

  function Apply(s: State, m: Move): State
    requires Enabled(s, m)
  {
    match m
    case Call(t, op) =>
      s.(threads := s.threads[t := Start(s.nextId, op)], nextId := s.nextId + 1, hist := s.hist + [Inv(s.nextId, op)])
    case Step(t, kmalloc) =>
      var pc := s.threads[t];
      var b := Bucket(pc.op.key);
      match pc
      case Start(id, op) =>
        s.(threads := s.threads[t := Scan(id, op, 0)], locks := s.locks[b := Some(t)])
      case Scan(id, op, i) =>
        if i < |s.chains[b]| then
          var node := s.chains[b][i];
          s.(threads := s.threads[t := if s.nodes[node].key == op.key then Hit(id, op, node) else Scan(id, op, i + 1)])
        else if op.Write? then
          s.(threads := s.threads[t := Alloc(id, op)])
        else
          s.(threads := s.threads[t := Unlock(id, op, -1)], lin := s.lin + [Entry(id, op, -1)])
      case Hit(id, op, node) =>
        if op.Write? then
          s.(threads := s.threads[t := Unlock(id, op, 0)], lin := s.lin + [Entry(id, op, 0)],
             nodes := s.nodes[node := Node(s.nodes[node].key, op.value)])
        else
          s.(threads := s.threads[t := Load(id, op, node)], locks := s.locks[b := None])
      case Alloc(id, op) =>
        if kmalloc then
          s.(threads := s.threads[t := Link(id, op, s.nextNode)], nextNode := s.nextNode + 1,
             nodes := s.nodes[s.nextNode := Node(op.key, op.value)])
        else
          s.(threads := s.threads[t := Unlock(id, op, -1)], lin := s.lin + [Entry(id, op, -1)])
      case Link(id, op, node) =>
        s.(threads := s.threads[t := Unlock(id, op, 0)], lin := s.lin + [Entry(id, op, 0)],
           chains := s.chains[b := [node] + s.chains[b]])
      case Unlock(id, op, ret) =>
        s.(threads := s.threads[t := Leave(id, op, ret)], locks := s.locks[b := None])
      case Load(id, op, node) =>
        var ret := s.nodes[node].value;
        s.(threads := s.threads[t := Leave(id, op, ret)], lin := s.lin + [Entry(id, op, ret)])
      case Leave(id, op, ret) =>
        s.(threads := s.threads[t := Idle], hist := s.hist + [Ret(id, ret)])
  }

  ghost predicate Next(s: State, s': State)
  {
    exists m :: Enabled(s, m) && s' == Apply(s, m)
  }

  ghost predicate IsRun(n: nat, tr: seq<State>)
  {
    |tr| > 0 && tr[0] == Begin(n) && forall k :: 0 < k < |tr| ==> Next(tr[k - 1], tr[k])
  }

  // ---------------------------------------------------------------- invariant

  // Keys are unique and every node hangs in its own bucket.
  ghost predicate TableInv(s: State)
  {
    && Shape(s)
    && (forall b, i :: 0 <= b < BUCKETS && 0 <= i < |s.chains[b]| ==> InBucket(s, b, s.chains[b][i]))
    && (forall b, i, j :: 0 <= b < BUCKETS && 0 <= i < j < |s.chains[b]| ==>
         s.nodes[s.chains[b][i]].key != s.nodes[s.chains[b][j]].key)
    && (forall x :: x in s.nodes ==> x < s.nextNode)
  }

  predicate InBucket(s: State, b: int, x: nat)
  {
    x in s.nodes && InTable(s.nodes[x].key) && Bucket(s.nodes[x].key) == b
  }

  ghost predicate Chained(s: State, key: int, x: nat)
  {
    Shape(s) && InTable(key) && x in s.chains[Bucket(key)] && x in s.nodes && s.nodes[x].key == key
  }

  // The table holds exactly the map m.
  ghost predicate Represents(s: State, m: map<int, int>)
  {
    && (forall k :: k in m ==> exists x :: Chained(s, k, x))
    && (forall k, x :: Chained(s, k, x) ==> k in m && m[k] == s.nodes[x].value)
  }

  predicate Holding(pc: Pc)
  {
    pc.Scan? || pc.Hit? || pc.Alloc? || pc.Link? || pc.Unlock?
  }

  // The call has not taken effect yet.
  predicate Pending(pc: Pc)
  {
    pc.Start? || pc.Scan? || pc.Hit? || pc.Alloc? || pc.Link? || pc.Load?
  }

  ghost predicate Absent(s: State, key: int)
  {
    forall x :: !Chained(s, key, x)
  }

  ghost predicate ThreadInv(s: State, t: nat)
    requires Shape(s) && t < |s.threads|
  {
    var pc := s.threads[t];
    !pc.Idle? ==>
      && InTable(pc.op.key) && pc.id < s.nextId && Inv(pc.id, pc.op) in s.hist
      && (Holding(pc) ==> s.locks[Bucket(pc.op.key)] == Some(t))
      && (Pending(pc) ==> forall e :: e in s.lin ==> e.id != pc.id)
      && (!Pending(pc) ==> Entry(pc.id, pc.op, pc.ret) in s.lin)
      && (pc.Scan? ==>
           && pc.i <= |s.chains[Bucket(pc.op.key)]|
           && forall x :: 0 <= x < pc.i ==>
                s.chains[Bucket(pc.op.key)][x] in s.nodes && s.nodes[s.chains[Bucket(pc.op.key)][x]].key != pc.op.key)
      && (pc.Hit? || pc.Load? ==> Chained(s, pc.op.key, pc.node))
      && (pc.Load? ==> pc.op.Read?)
      && (pc.Alloc? || pc.Link? ==> pc.op.Write? && Absent(s, pc.op.key))
      && (pc.Link? ==> pc.node in s.nodes && s.nodes[pc.node] == Node(pc.op.key, pc.op.value))
  }

  ghost predicate HistInv(s: State)
  {
    && Linearizes(s.hist, s.lin)
    && (forall e :: e in s.lin ==> e.id < s.nextId)
    && (forall p :: 0 <= p < |s.hist| ==> s.hist[p].id < s.nextId)
    && (forall t, u :: 0 <= t < u < |s.threads| && !s.threads[t].Idle? && !s.threads[u].Idle? ==>
         s.threads[t].id != s.threads[u].id)
  }

  ghost predicate StateInv(s: State)
  {
    && TableInv(s) && HistInv(s)
    && (forall t :: 0 <= t < |s.threads| ==> ThreadInv(s, t))
    && Represents(s, Replay(s.lin).value)
  }

  // ---------------------------------------------------------------- histories

  lemma {:induction false} ReplayAppend(lin: seq<Entry>, e: Entry)
    requires Replay(lin).Some?
    ensures Replay(lin + [e]) == Effect(Replay(lin).value, e.op, e.ret)
  {
    assert (lin + [e])[..|lin|] == lin;
  }

  lemma {:induction false} LinearizeOne(hist: seq<Event>, lin: seq<Entry>, e: Entry)
    requires Linearizes(hist, lin) && Inv(e.id, e.op) in hist
    requires forall f :: f in lin ==> f.id != e.id
    requires Effect(Replay(lin).value, e.op, e.ret).Some?
    ensures Linearizes(hist, lin + [e])
  {
    ReplayAppend(lin, e);
    forall p | 0 <= p < |hist| && hist[p].Ret?
      ensures exists f :: f in lin + [e] && f.id == hist[p].id && f.ret == hist[p].ret
    {
      var f :| f in lin && f.id == hist[p].id && f.ret == hist[p].ret;
      assert f in lin + [e];
    }
    forall a, b ensures InOrder(hist, lin + [e], a, b) {
      assert InOrder(hist, lin, a, b);
      if exists p, q :: 0 <= p < q < |hist| && hist[p].Ret? && hist[p].id == a && hist[q].Inv? && hist[q].id == b {
        var p, q :| 0 <= p < q < |hist| && hist[p].Ret? && hist[p].id == a && hist[q].Inv? && hist[q].id == b;
        var f :| f in lin && f.id == a && f.ret == hist[p].ret;
        assert a != e.id;
      }
    }
  }

  lemma {:induction false} InvokeOne(hist: seq<Event>, lin: seq<Entry>, id: nat, op: Op)
    requires Linearizes(hist, lin)
    requires forall e :: e in lin ==> e.id != id
    ensures Linearizes(hist + [Inv(id, op)], lin)
  {
    var hist' := hist + [Inv(id, op)];
    forall e | e in lin ensures Inv(e.id, e.op) in hist' {
      assert Inv(e.id, e.op) in hist;
    }
    forall p | 0 <= p < |hist'| && hist'[p].Ret?
      ensures exists f :: f in lin && f.id == hist'[p].id && f.ret == hist'[p].ret
    {
      assert hist'[p] == hist[p];
    }
    forall a, b ensures InOrder(hist', lin, a, b) {
      assert InOrder(hist, lin, a, b);
      if b != id && exists p, q ::
          0 <= p < q < |hist'| && hist'[p].Ret? && hist'[p].id == a && hist'[q].Inv? && hist'[q].id == b {
        var p, q :| 0 <= p < q < |hist'| && hist'[p].Ret? && hist'[p].id == a && hist'[q].Inv? && hist'[q].id == b;
        assert hist[p] == hist'[p] && hist[q] == hist'[q];
      }
    }
  }

  lemma {:induction false} ReturnOne(hist: seq<Event>, lin: seq<Entry>, e: Entry)
    requires Linearizes(hist, lin) && e in lin
    ensures Linearizes(hist + [Ret(e.id, e.ret)], lin)
  {
    var hist' := hist + [Ret(e.id, e.ret)];
    forall f | f in lin ensures Inv(f.id, f.op) in hist' {
      assert Inv(f.id, f.op) in hist;
    }
    forall a, b ensures InOrder(hist', lin, a, b) {
      assert InOrder(hist, lin, a, b);
      if exists p, q :: 0 <= p < q < |hist'| && hist'[p].Ret? && hist'[p].id == a && hist'[q].Inv? && hist'[q].id == b {
        var p, q :| 0 <= p < q < |hist'| && hist'[p].Ret? && hist'[p].id == a && hist'[q].Inv? && hist'[q].id == b;
        assert hist[p] == hist'[p] && hist[q] == hist'[q];
      }
    }
  }

  // ---------------------------------------------------------------- what other threads see

  // Thread t moves; nothing thread u relies on changes.
  lemma {:induction false} Undisturbed(s: State, s': State, t: nat, u: nat)
    requires Shape(s) && Shape(s') && |s'.threads| == |s.threads| && t < |s.threads| && u < |s.threads| && t != u
    requires ThreadInv(s, u) && s'.threads[u] == s.threads[u] && s'.chains == s.chains
    requires s'.nextId >= s.nextId && s.hist <= s'.hist && s.lin <= s'.lin
    requires forall x :: x in s.nodes ==> x in s'.nodes && s'.nodes[x].key == s.nodes[x].key
    requires forall b, i :: 0 <= b < BUCKETS && 0 <= i < |s.chains[b]| ==> s.chains[b][i] in s.nodes
    requires s.threads[u].Link? && s.threads[u].node in s.nodes ==>
      s'.nodes[s.threads[u].node] == s.nodes[s.threads[u].node]
    requires forall b :: 0 <= b < BUCKETS && s.locks[b] == Some(u) ==> s'.locks[b] == Some(u)
    requires !s.threads[u].Idle? && Pending(s.threads[u]) ==> forall e :: e in s'.lin ==>
      e in s.lin || e.id != s.threads[u].id
    ensures ThreadInv(s', u)
  {
    var pc := s.threads[u];
    if !pc.Idle? {
      assert Inv(pc.id, pc.op) in s'.hist by {
        var p :| 0 <= p < |s.hist| && s.hist[p] == Inv(pc.id, pc.op);
        assert s'.hist[p] == s.hist[p];
      }
      if !Pending(pc) {
        var p :| 0 <= p < |s.lin| && s.lin[p] == Entry(pc.id, pc.op, pc.ret);
        assert s'.lin[p] == s.lin[p];
      }
      if pc.Alloc? || pc.Link? {
        forall x ensures !Chained(s', pc.op.key, x) {
          assert !Chained(s, pc.op.key, x);
        }
      }
    }
  }

  lemma {:induction false} SameTable(s: State, s': State, m: map<int, int>)
    requires TableInv(s) && Represents(s, m) && Shape(s')
    requires s'.chains == s.chains && s'.nodes == s.nodes && s'.nextNode >= s.nextNode
    ensures TableInv(s') && Represents(s', m)
  {
    forall k, x ensures Chained(s', k, x) == Chained(s, k, x) {
    }
    forall k | k in m ensures exists x :: Chained(s', k, x) {
      var x :| Chained(s, k, x);
      assert Chained(s', k, x);
    }
    forall b, i | 0 <= b < BUCKETS && 0 <= i < |s'.chains[b]| ensures InBucket(s', b, s'.chains[b][i]) {
      assert InBucket(s, b, s.chains[b][i]);
    }
  }

  lemma {:induction false} OneWithKey(s: State, k: int, x: nat, y: nat)
    requires TableInv(s) && Chained(s, k, x) && Chained(s, k, y)
    ensures x == y
  {
    var b := Bucket(k);
    var i :| 0 <= i < |s.chains[b]| && s.chains[b][i] == x;
    var j :| 0 <= j < |s.chains[b]| && s.chains[b][j] == y;
    if i < j {
      assert s.nodes[s.chains[b][i]].key != s.nodes[s.chains[b][j]].key;
    } else if j < i {
      assert s.nodes[s.chains[b][j]].key != s.nodes[s.chains[b][i]].key;
    }
  }

  // ---------------------------------------------------------------- steps

  // A step that changes nothing but thread t's position and its own lock.
  lemma {:induction false} Quiet(s: State, s': State, t: nat)
    requires StateInv(s) && t < |s.threads| && !s.threads[t].Idle?
    requires s' == s.(threads := s'.threads, locks := s'.locks) && Shape(s')
    requires |s'.threads| == |s.threads| && forall u :: 0 <= u < |s.threads| && u != t ==> s'.threads[u] == s.threads[u]
    requires !s'.threads[t].Idle? && s'.threads[t].id == s.threads[t].id
    requires forall b, u :: 0 <= b < BUCKETS && u != t && s.locks[b] == Some(u) ==> s'.locks[b] == Some(u)
    requires ThreadInv(s', t)
    ensures StateInv(s')
  {
    SameTable(s, s', Replay(s.lin).value);
    forall u | 0 <= u < |s'.threads| ensures ThreadInv(s', u) {
      if u != t {
        assert ThreadInv(s, u);
        Undisturbed(s, s', t, u);
      }
    }
  }

  // Thread t's call takes effect: what that does to the history.
  lemma {:induction false} HistAfterEffect(s: State, s': State, t: nat, e: Entry)
    requires HistInv(s) && Shape(s) && t < |s.threads| && ThreadInv(s, t) && Pending(s.threads[t])
    requires e.id == s.threads[t].id && e.op == s.threads[t].op && Effect(Replay(s.lin).value, e.op, e.ret).Some?
    requires s'.hist == s.hist && s'.lin == s.lin + [e] && s'.nextId == s.nextId
    requires |s'.threads| == |s.threads| && forall u :: 0 <= u < |s.threads| && u != t ==> s'.threads[u] == s.threads[u]
    requires !s'.threads[t].Idle? && s'.threads[t].id == e.id
    ensures HistInv(s') && Replay(s'.lin) == Effect(Replay(s.lin).value, e.op, e.ret)
  {
    LinearizeOne(s.hist, s.lin, e);
    ReplayAppend(s.lin, e);
  }

  // And to the other threads.
  lemma {:induction false} EffectUndisturbed(s: State, s': State, t: nat, u: nat, e: Entry)
    requires StateInv(s) && t < |s.threads| && u < |s.threads| && t != u && !s.threads[t].Idle?
    requires e.id == s.threads[t].id
    requires s'.chains == s.chains && s'.locks == s.locks && s'.nextId == s.nextId && s'.hist == s.hist
    requires s'.lin == s.lin + [e]
    requires forall x :: x in s.nodes ==> x in s'.nodes && s'.nodes[x].key == s.nodes[x].key
    requires s.threads[u].Link? && s.threads[u].node in s.nodes ==>
      s'.nodes[s.threads[u].node] == s.nodes[s.threads[u].node]
    requires |s'.threads| == |s.threads| && s'.threads[u] == s.threads[u]
    ensures ThreadInv(s', u)
  {
    assert ThreadInv(s, u);
    ChainNodes(s);
    Undisturbed(s, s', t, u);
  }

  lemma {:induction false} ChainNodes(s: State)
    requires TableInv(s)
    ensures forall b, i :: 0 <= b < BUCKETS && 0 <= i < |s.chains[b]| ==> s.chains[b][i] in s.nodes
  {
    forall b, i | 0 <= b < BUCKETS && 0 <= i < |s.chains[b]| ensures s.chains[b][i] in s.nodes {
      assert InBucket(s, b, s.chains[b][i]);
    }
  }

  // A step at which thread t's call takes effect without touching the table.
  lemma {:induction false} TakesEffect(s: State, s': State, t: nat, e: Entry)
    requires StateInv(s) && t < |s.threads| && Pending(s.threads[t])
    requires e.id == s.threads[t].id && e.op == s.threads[t].op
    requires Effect(Replay(s.lin).value, e.op, e.ret) == Some(Replay(s.lin).value)
    requires s' == s.(threads := s'.threads, lin := s.lin + [e])
    requires |s'.threads| == |s.threads| && forall u :: 0 <= u < |s.threads| && u != t ==> s'.threads[u] == s.threads[u]
    requires !s'.threads[t].Idle? && s'.threads[t].id == e.id && ThreadInv(s', t)
    ensures StateInv(s')
  {
    assert ThreadInv(s, t);
    HistAfterEffect(s, s', t, e);
    SameTable(s, s', Replay(s.lin).value);
    forall u | 0 <= u < |s'.threads| ensures ThreadInv(s', u) {
      if u != t { EffectUndisturbed(s, s', t, u, e); }
    }
  }

  lemma {:induction false} CallKeepsInv(s: State, t: nat, op: Op)
    requires StateInv(s) && Enabled(s, Call(t, op))
    ensures StateInv(Apply(s, Call(t, op)))
  {
    var s' := Apply(s, Call(t, op));
    InvokeOne(s.hist, s.lin, s.nextId, op);
    SameTable(s, s', Replay(s.lin).value);
    forall u | 0 <= u < |s'.threads| ensures ThreadInv(s', u) {
      if u != t {
        assert ThreadInv(s, u);
        Undisturbed(s, s', t, u);
      }
    }
    forall u | 0 <= u < |s.threads| && !s.threads[u].Idle? ensures s.threads[u].id < s.nextId {
      assert ThreadInv(s, u);
    }
  }

  lemma {:induction false} LeaveKeepsInv(s: State, t: nat, kmalloc: bool)
    requires StateInv(s) && Enabled(s, Step(t, kmalloc)) && s.threads[t].Leave?
    ensures StateInv(Apply(s, Step(t, kmalloc)))
  {
    var s' := Apply(s, Step(t, kmalloc));
    var pc := s.threads[t];
    assert ThreadInv(s, t);
    ReturnOne(s.hist, s.lin, Entry(pc.id, pc.op, pc.ret));
    SameTable(s, s', Replay(s.lin).value);
    forall u | 0 <= u < |s'.threads| ensures ThreadInv(s', u) {
      if u != t {
        assert ThreadInv(s, u);
        Undisturbed(s, s', t, u);
      }
    }
  }

  lemma {:induction false} LockKeepsInv(s: State, t: nat, kmalloc: bool)
    requires StateInv(s) && Enabled(s, Step(t, kmalloc)) && s.threads[t].Start?
    ensures StateInv(Apply(s, Step(t, kmalloc)))
  {
    assert ThreadInv(s, t);
    Quiet(s, Apply(s, Step(t, kmalloc)), t);
  }

  lemma {:induction false} UnlockKeepsInv(s: State, t: nat, kmalloc: bool)
    requires StateInv(s) && Enabled(s, Step(t, kmalloc)) && s.threads[t].Unlock?
    ensures StateInv(Apply(s, Step(t, kmalloc)))
  {
    assert ThreadInv(s, t);
    Quiet(s, Apply(s, Step(t, kmalloc)), t);
  }

  // At the end of the chain, with the lock held, the key is nowhere.
  lemma {:induction false} ScannedAll(s: State, t: nat)
    requires StateInv(s) && t < |s.threads| && s.threads[t].Scan?
    requires InTable(s.threads[t].op.key) && s.threads[t].i == |s.chains[Bucket(s.threads[t].op.key)]|
    ensures Absent(s, s.threads[t].op.key)
    ensures s.threads[t].op.key !in Replay(s.lin).value
  {
    assert ThreadInv(s, t);
    var pc := s.threads[t];
    var chain := s.chains[Bucket(pc.op.key)];
    assert forall j :: 0 <= j < |chain| ==> chain[j] in s.nodes && s.nodes[chain[j]].key != pc.op.key;
    assert forall x :: x in chain ==> s.nodes[x].key != pc.op.key;
  }

  lemma {:induction false} ScanKeepsInv(s: State, t: nat, kmalloc: bool)
    requires StateInv(s) && Enabled(s, Step(t, kmalloc)) && s.threads[t].Scan?
    ensures StateInv(Apply(s, Step(t, kmalloc)))
  {
    var s' := Apply(s, Step(t, kmalloc));
    var pc := s.threads[t];
    assert ThreadInv(s, t);
    var b := Bucket(pc.op.key);
    if pc.i < |s.chains[b]| {
      assert InBucket(s, b, s.chains[b][pc.i]);
      assert s'.threads[t].Hit? ==> Chained(s', pc.op.key, s'.threads[t].node);
      Quiet(s, s', t);
    } else {
      ScannedAll(s, t);
      if pc.op.Write? {
        assert Absent(s', pc.op.key) by {
          forall x ensures !Chained(s', pc.op.key, x) { assert !Chained(s, pc.op.key, x); }
        }
        Quiet(s, s', t);
      } else {
        TakesEffect(s, s', t, Entry(pc.id, pc.op, -1));
      }
    }
  }

  // The value load after the unlock is where a hit takes effect: the node is
  // still in the table, because nodes are never removed or re-keyed.
  lemma {:induction false} LoadKeepsInv(s: State, t: nat, kmalloc: bool)
    requires StateInv(s) && Enabled(s, Step(t, kmalloc)) && s.threads[t].Load?
    ensures StateInv(Apply(s, Step(t, kmalloc)))
  {
    var s' := Apply(s, Step(t, kmalloc));
    var pc := s.threads[t];
    assert ThreadInv(s, t);
    TakesEffect(s, s', t, Entry(pc.id, pc.op, s.nodes[pc.node].value));
  }

  lemma {:induction false} StoreInTable(s: State, s': State, key: int, x: nat, v: int, m: map<int, int>)
    requires TableInv(s) && Represents(s, m) && Chained(s, key, x)
    requires s'.chains == s.chains && s'.locks == s.locks && s'.nodes == s.nodes[x := Node(key, v)]
    requires s'.nextNode == s.nextNode
    ensures TableInv(s') && Represents(s', m[key := v])
  {
    forall b, i | 0 <= b < BUCKETS && 0 <= i < |s'.chains[b]| ensures InBucket(s', b, s'.chains[b][i]) {
      assert InBucket(s, b, s.chains[b][i]);
    }
    forall k, y ensures Chained(s', k, y) == Chained(s, k, y) {
    }
    var m' := m[key := v];
    forall k | k in m' ensures exists y :: Chained(s', k, y) {
      if k == key {
        assert Chained(s', k, x);
      } else {
        var y :| Chained(s, k, y);
        assert Chained(s', k, y);
      }
    }
    forall k, y | Chained(s', k, y) ensures k in m[key := v] && m[key := v][k] == s'.nodes[y].value {
      assert Chained(s, k, y);
      if k == key { OneWithKey(s, k, x, y); }
    }
  }

  lemma {:induction false} HitKeepsInv(s: State, t: nat, kmalloc: bool)
    requires StateInv(s) && Enabled(s, Step(t, kmalloc)) && s.threads[t].Hit?
    ensures StateInv(Apply(s, Step(t, kmalloc)))
  {
    if s.threads[t].op.Write? {
      OverwriteKeepsInv(s, t, kmalloc);
    } else {
      assert ThreadInv(s, t);
      assert Chained(Apply(s, Step(t, kmalloc)), s.threads[t].op.key, s.threads[t].node);
      Quiet(s, Apply(s, Step(t, kmalloc)), t);
    }
  }

  lemma {:induction false} OverwriteKeepsInv(s: State, t: nat, kmalloc: bool)
    requires StateInv(s) && Enabled(s, Step(t, kmalloc)) && s.threads[t].Hit? && s.threads[t].op.Write?
    ensures StateInv(Apply(s, Step(t, kmalloc)))
  {
    var s' := Apply(s, Step(t, kmalloc));
    var pc := s.threads[t];
    var e := Entry(pc.id, pc.op, 0);
    assert ThreadInv(s, t);
    HistAfterEffect(s, s', t, e);
    StoreInTable(s, s', pc.op.key, pc.node, pc.op.value, Replay(s.lin).value);
    forall u | 0 <= u < |s'.threads| ensures ThreadInv(s', u) {
      if u != t {
        if s.threads[u].Link? { NotMyNode(s, t, u); }
        EffectUndisturbed(s, s', t, u, e);
      }
    }
  }

  // A node not yet linked is not the one a chain search found.
  lemma {:induction false} NotMyNode(s: State, t: nat, u: nat)
    requires StateInv(s) && t < |s.threads| && u < |s.threads| && t != u
    requires s.threads[t].Hit? && s.threads[u].Link?
    ensures s.threads[t].node != s.threads[u].node
  {
    assert ThreadInv(s, t) && ThreadInv(s, u);
    assert !Chained(s, s.threads[u].op.key, s.threads[t].node);
  }

  lemma {:induction false} AllocKeepsInv(s: State, t: nat, kmalloc: bool)
    requires StateInv(s) && Enabled(s, Step(t, kmalloc)) && s.threads[t].Alloc?
    ensures StateInv(Apply(s, Step(t, kmalloc)))
  {
    var s' := Apply(s, Step(t, kmalloc));
    var pc := s.threads[t];
    assert ThreadInv(s, t);
    if kmalloc {
      GrowNodes(s, s', Node(pc.op.key, pc.op.value), Replay(s.lin).value);
      forall u | 0 <= u < |s'.threads| ensures ThreadInv(s', u) {
        if u != t {
          assert ThreadInv(s, u);
          Undisturbed(s, s', t, u);
        } else {
          forall x ensures !Chained(s', pc.op.key, x) { assert !Chained(s, pc.op.key, x); }
        }
      }
    } else {
      assert pc.op.key !in Replay(s.lin).value;
      TakesEffect(s, s', t, Entry(pc.id, pc.op, -1));
    }
  }

  lemma {:induction false} GrowNodes(s: State, s': State, n: Node, m: map<int, int>)
    requires TableInv(s) && Represents(s, m) && Shape(s') && s'.chains == s.chains
    requires s'.nodes == s.nodes[s.nextNode := n] && s'.nextNode == s.nextNode + 1
    ensures TableInv(s') && Represents(s', m)
    ensures forall k, x :: Chained(s', k, x) == Chained(s, k, x)
  {
    forall k, x ensures Chained(s', k, x) == Chained(s, k, x) {
      if Shape(s) && InTable(k) && x in s.chains[Bucket(k)] {
        var i :| 0 <= i < |s.chains[Bucket(k)]| && s.chains[Bucket(k)][i] == x;
        assert InBucket(s, Bucket(k), s.chains[Bucket(k)][i]);
      }
    }
    forall b, i | 0 <= b < BUCKETS && 0 <= i < |s'.chains[b]| ensures InBucket(s', b, s'.chains[b][i]) {
      assert InBucket(s, b, s.chains[b][i]);
    }
    forall k | k in m ensures exists x :: Chained(s', k, x) {
      var x :| Chained(s, k, x);
      assert Chained(s', k, x);
    }
  }

  lemma {:induction false} LinkInTable(s: State, s': State, key: int, x: nat, v: int, m: map<int, int>)
    requires TableInv(s) && Represents(s, m) && InTable(key) && Absent(s, key)
    requires x in s.nodes && s.nodes[x] == Node(key, v)
    requires s'.chains == s.chains[Bucket(key) := [x] + s.chains[Bucket(key)]] && s'.locks == s.locks
    requires s'.nodes == s.nodes && s'.nextNode == s.nextNode
    ensures TableInv(s') && Represents(s', m[key := v])
    ensures forall k, y :: Chained(s', k, y) == (Chained(s, k, y) || (k == key && y == x))
  {
    var b0 := Bucket(key);
    forall k, y ensures Chained(s', k, y) == (Chained(s, k, y) || (k == key && y == x)) {
      if InTable(k) && Bucket(k) == b0 {
        assert y in s'.chains[b0] <==> y == x || y in s.chains[b0];
      }
    }
    forall b, i | 0 <= b < BUCKETS && 0 <= i < |s'.chains[b]| ensures InBucket(s', b, s'.chains[b][i]) {
      if b == b0 && i > 0 {
        assert InBucket(s, b, s.chains[b][i - 1]);
      } else if b != b0 {
        assert InBucket(s, b, s.chains[b][i]);
      }
    }
    forall b, i, j | 0 <= b < BUCKETS && 0 <= i < j < |s'.chains[b]|
      ensures s'.nodes[s'.chains[b][i]].key != s'.nodes[s'.chains[b][j]].key
    {
      if b == b0 {
        var y := s.chains[b][j - 1];
        assert InBucket(s, b, y);
        if i == 0 {
          assert !Chained(s, key, y);
        } else {
          assert s.nodes[s.chains[b][i - 1]].key != s.nodes[s.chains[b][j - 1]].key;
        }
      }
    }
    var m' := m[key := v];
    forall k | k in m' ensures exists y :: Chained(s', k, y) {
      if k == key {
        assert Chained(s', k, x);
      } else {
        var y :| Chained(s, k, y);
        assert Chained(s', k, y);
      }
    }
  }

  // Linking under the lock disturbs no other thread.
  lemma {:induction false} UndisturbedByLink(s: State, s': State, t: nat, u: nat)
    requires StateInv(s) && t < |s.threads| && u < |s.threads| && t != u && s.threads[t].Link?
    requires var pc := s.threads[t];
             && InTable(pc.op.key)
             && s' == s.(threads := s'.threads, lin := s'.lin,
                         chains := s.chains[Bucket(pc.op.key) := [pc.node] + s.chains[Bucket(pc.op.key)]])
             && s'.lin == s.lin + [Entry(pc.id, pc.op, 0)]
             && (forall k, y :: Chained(s', k, y) == (Chained(s, k, y) || (k == pc.op.key && y == pc.node)))
    requires |s'.threads| == |s.threads| && s'.threads[u] == s.threads[u]
    ensures ThreadInv(s', u)
  {
    assert ThreadInv(s, t) && ThreadInv(s, u);
    var (pc, qc) := (s.threads[t], s.threads[u]);
    if !qc.Idle? {
      assert qc.id != pc.id;
      if Holding(qc) {
        assert Bucket(qc.op.key) != Bucket(pc.op.key);
      }
    }
  }

  lemma {:induction false} LinkKeepsInv(s: State, t: nat, kmalloc: bool)
    requires StateInv(s) && Enabled(s, Step(t, kmalloc)) && s.threads[t].Link?
    ensures StateInv(Apply(s, Step(t, kmalloc)))
  {
    var s' := Apply(s, Step(t, kmalloc));
    var pc := s.threads[t];
    assert ThreadInv(s, t);
    LinkFrame(s, t, kmalloc);
    HistAfterEffect(s, s', t, Entry(pc.id, pc.op, 0));
    LinkInTable(s, s', pc.op.key, pc.node, pc.op.value, Replay(s.lin).value);
    forall u | 0 <= u < |s'.threads| ensures ThreadInv(s', u) {
      if u == t { LinkedThread(s, s', t); } else { UndisturbedByLink(s, s', t, u); }
    }
  }

  lemma {:induction false} LinkFrame(s: State, t: nat, kmalloc: bool)
    requires Enabled(s, Step(t, kmalloc)) && s.threads[t].Link?
    ensures var s' := Apply(s, Step(t, kmalloc)); var pc := s.threads[t];
      && s' == s.(threads := s.threads[t := Unlock(pc.id, pc.op, 0)], lin := s.lin + [Entry(pc.id, pc.op, 0)],
                  chains := s.chains[Bucket(pc.op.key) := [pc.node] + s.chains[Bucket(pc.op.key)]])
  {
  }

  lemma {:induction false} LinkedThread(s: State, s': State, t: nat)
    requires Shape(s) && Shape(s') && t < |s.threads| == |s'.threads| && ThreadInv(s, t) && s.threads[t].Link?
    requires s'.threads[t] == Unlock(s.threads[t].id, s.threads[t].op, 0)
    requires s'.lin == s.lin + [Entry(s.threads[t].id, s.threads[t].op, 0)]
    requires s'.locks == s.locks && s'.hist == s.hist && s'.nextId == s.nextId
    ensures ThreadInv(s', t)
  {
  }

  lemma {:induction false} MoveKeepsInv(s: State, m: Move)
    requires StateInv(s) && Enabled(s, m)
    ensures StateInv(Apply(s, m))
  {
    match m
    case Call(t, op) => CallKeepsInv(s, t, op);
    case Step(t, kmalloc) =>
      match s.threads[t]
      case Start(_, _) => LockKeepsInv(s, t, kmalloc);
      case Scan(_, _, _) => ScanKeepsInv(s, t, kmalloc);
      case Hit(_, _, _) => HitKeepsInv(s, t, kmalloc);
      case Alloc(_, _) => AllocKeepsInv(s, t, kmalloc);
      case Link(_, _, _) => LinkKeepsInv(s, t, kmalloc);
      case Unlock(_, _, _) => UnlockKeepsInv(s, t, kmalloc);
      case Load(_, _, _) => LoadKeepsInv(s, t, kmalloc);
      case Leave(_, _, _) => LeaveKeepsInv(s, t, kmalloc);
  }

  lemma {:induction false} BeginInv(n: nat)
    ensures StateInv(Begin(n))
  {
  }

  lemma {:induction false} RunInv(n: nat, tr: seq<State>, k: nat)
    requires IsRun(n, tr) && k < |tr|
    ensures StateInv(tr[k])
  {
    if k == 0 {
      BeginInv(n);
    } else {
      RunInv(n, tr, k - 1);
      assert Next(tr[k - 1], tr[k]);
      var m :| Enabled(tr[k - 1], m) && tr[k] == Apply(tr[k - 1], m);
      MoveKeepsInv(tr[k - 1], m);
    }
  }

  // ---------------------------------------------------------------- theorems

  // For any number of threads and every interleaving, what the callers see is
  // explained by a plain map.
  lemma {:induction false} KvLinearizable(n: nat, tr: seq<State>, k: nat)
    requires IsRun(n, tr) && k < |tr|
    ensures Linearizable(tr[k].hist)
  {
    RunInv(n, tr, k);
  }

  // The chains always hold the map that the linearized calls built: one node
  // per key, in bucket key % 1024.
  lemma {:induction false} TableIsTheMap(n: nat, tr: seq<State>, k: nat, key: int, x: nat)
    requires IsRun(n, tr) && k < |tr| && Chained(tr[k], key, x)
    ensures Replay(tr[k].lin).Some?
    ensures key in Replay(tr[k].lin).value && Replay(tr[k].lin).value[key] == tr[k].nodes[x].value
    ensures forall y :: Chained(tr[k], key, y) ==> y == x
  {
    RunInv(n, tr, k);
    forall y | Chained(tr[k], key, y) ensures y == x { OneWithKey(tr[k], key, x, y); }
  }

  // Call `id` is bound to return 0: its node is made, or it has taken effect.
  predicate Committed(s: State, t: nat, id: nat, op: Op)
  {
    || (t < |s.threads| && s.threads[t].Link? && s.threads[t].id == id && s.threads[t].op == op)
    || Entry(id, op, 0) in s.lin
  }

  lemma {:induction false} CommittedStays(s: State, m: Move, t: nat, id: nat, op: Op)
    requires Enabled(s, m) && Committed(s, t, id, op)
    ensures Committed(Apply(s, m), t, id, op)
  {
    LinGrows(s, m);
    if t < |s.threads| && s.threads[t].Link? && m.t == t { LinkFrame(s, t, m.kmalloc); }
  }

  lemma {:induction false} LinGrows(s: State, m: Move)
    requires Enabled(s, m)
    ensures s.lin <= Apply(s, m).lin
    ensures forall u :: 0 <= u < |s.threads| && u != m.t ==>
      u < |Apply(s, m).threads| && Apply(s, m).threads[u] == s.threads[u]
  {
  }

  // A step of a write that changes a chain or a node.
  lemma {:induction false} ChangeCommits(s: State, m: Move)
    requires Enabled(s, m) && m.Step? && s.threads[m.t].op.Write?
    requires Apply(s, m).chains != s.chains || Apply(s, m).nodes != s.nodes
    ensures Committed(Apply(s, m), m.t, s.threads[m.t].id, s.threads[m.t].op)
  {
  }

  lemma {:induction false} RunCommitted(n: nat, tr: seq<State>, j: nat, k: nat, t: nat, id: nat, op: Op)
    requires IsRun(n, tr) && j <= k < |tr| && Committed(tr[j], t, id, op)
    ensures Committed(tr[k], t, id, op)
    decreases k
  {
    if j < k {
      RunCommitted(n, tr, j, k - 1, t, id, op);
      assert Next(tr[k - 1], tr[k]);
      var m :| Enabled(tr[k - 1], m) && tr[k] == Apply(tr[k - 1], m);
      CommittedStays(tr[k - 1], m, t, id, op);
    }
  }

  // Such a call does not return -1.
  lemma {:induction false} CommittedReturnsZero(s: State, t: nat, id: nat, op: Op)
    requires StateInv(s) && Committed(s, t, id, op)
    ensures Ret(id, -1) !in s.hist
  {
    if Entry(id, op, 0) in s.lin {
      forall p | 0 <= p < |s.hist| && s.hist[p].Ret? && s.hist[p].id == id ensures s.hist[p].ret == 0 {
        var e :| e in s.lin && e.id == id && e.ret == s.hist[p].ret;
        assert e == Entry(id, op, 0);
      }
    } else {
      assert ThreadInv(s, t);
      assert forall p :: 0 <= p < |s.hist| && s.hist[p].Ret? ==> s.hist[p].id != id;
    }
  }

  // No step of a write that returns -1, now or later, changes a chain or a node:
  // it is step j, made by thread t, and the call is back by k.
  lemma {:induction false} FailedWriteChangesNothing(n: nat, tr: seq<State>, j: nat, k: nat, t: nat)
    requires IsRun(n, tr) && j < k < |tr| && t < |tr[j].threads| && t < |tr[j + 1].threads|
    requires tr[j + 1].threads[t] != tr[j].threads[t] && !tr[j].threads[t].Idle? && tr[j].threads[t].op.Write?
    requires Ret(tr[j].threads[t].id, -1) in tr[k].hist
    ensures tr[j + 1].chains == tr[j].chains && tr[j + 1].nodes == tr[j].nodes
  {
    var s := tr[j];
    assert Next(tr[j], tr[j + 1]);
    var m :| Enabled(s, m) && tr[j + 1] == Apply(s, m);
    LinGrows(s, m);
    if Apply(s, m).chains != s.chains || Apply(s, m).nodes != s.nodes {
      ChangeCommits(s, m);
      RunCommitted(n, tr, j + 1, k, t, s.threads[t].id, s.threads[t].op);
      RunInv(n, tr, k);
      CommittedReturnsZero(tr[k], t, s.threads[t].id, s.threads[t].op);
    }
  }

  // Two threads are never inside the same bucket's critical section.
  lemma {:induction false} MutualExclusion(n: nat, tr: seq<State>, k: nat, t: nat, u: nat)
    requires IsRun(n, tr) && k < |tr| && t < |tr[k].threads| && u < |tr[k].threads|
    requires Holding(tr[k].threads[t]) && Holding(tr[k].threads[u])
    requires Bucket(tr[k].threads[t].op.key) == Bucket(tr[k].threads[u].op.key)
    ensures t == u
  {
    RunInv(n, tr, k);
    assert ThreadInv(tr[k], t) && ThreadInv(tr[k], u);
  }

  // Only a bucket's lock can hold a thread up: everything else it needs is there.
  lemma {:induction false} OnlyLocksBlock(n: nat, tr: seq<State>, k: nat, t: nat, kmalloc: bool)
    requires IsRun(n, tr) && k < |tr| && t < |tr[k].threads| && !tr[k].threads[t].Idle?
    ensures InTable(tr[k].threads[t].op.key) && |tr[k].locks| == BUCKETS
    ensures Enabled(tr[k], Step(t, kmalloc)) <==>
            !(tr[k].threads[t].Start? && tr[k].locks[Bucket(tr[k].threads[t].op.key)].Some?)
  {
    RunInv(n, tr, k);
    var s := tr[k];
    assert ThreadInv(s, t);
    var pc := s.threads[t];
    if pc.Scan? && pc.i < |s.chains[Bucket(pc.op.key)]| {
      assert InBucket(s, Bucket(pc.op.key), s.chains[Bucket(pc.op.key)][pc.i]);
    }
  }

  // A taken lock belongs to a thread inside that bucket's critical section.
  predicate LockOk(s: State, b: nat)
  {
    b < |s.locks| && s.locks[b].Some? ==>
      && s.locks[b].value < |s.threads|
      && Holding(s.threads[s.locks[b].value]) && Bucket(s.threads[s.locks[b].value].op.key) == b
  }

  lemma {:induction false} MoveKeepsLock(s: State, m: Move, b: nat)
    requires Enabled(s, m) && ThreadInv(s, m.t) && LockOk(s, b)
    ensures LockOk(Apply(s, m), b)
  {
  }

  lemma {:induction false} RunLock(n: nat, tr: seq<State>, k: nat, b: nat)
    requires IsRun(n, tr) && k < |tr| && b < BUCKETS
    ensures |tr[k].locks| == BUCKETS && LockOk(tr[k], b)
  {
    RunInv(n, tr, k);
    if k > 0 {
      RunLock(n, tr, k - 1, b);
      RunInv(n, tr, k - 1);
      assert Next(tr[k - 1], tr[k]);
      var m :| Enabled(tr[k - 1], m) && tr[k] == Apply(tr[k - 1], m);
      assert ThreadInv(tr[k - 1], m.t);
      MoveKeepsLock(tr[k - 1], m, b);
    }
  }

  // And whoever holds that lock can always go on: no deadlock.
  lemma {:induction false} LockHolderMoves(n: nat, tr: seq<State>, k: nat, b: nat, kmalloc: bool)
    requires IsRun(n, tr) && k < |tr| && b < BUCKETS && |tr[k].locks| == BUCKETS && tr[k].locks[b].Some?
    ensures tr[k].locks[b].value < |tr[k].threads| && Enabled(tr[k], Step(tr[k].locks[b].value, kmalloc))
  {
    RunLock(n, tr, k, b);
    OnlyLocksBlock(n, tr, k, tr[k].locks[b].value, kmalloc);
  }
}
