// The list of delayed signals (signal->multiprocess): a clone puts its node on
// its own group's list and takes that node off again, on every path.

module CloneDelayed {
  import opened CloneModel
  import opened CloneInv
  import CloneSteps

  // Call w has its node on the list of group x.
  predicate Listed(s: State, w: nat, x: nat)
    requires w < |s.calls|
  {
    var c := s.calls[w];
    (c.Clone? || c.Unwind?) && !c.b.flags.thread && c.b.cur in s.tasks && s.tasks[c.b.cur].signal == x
  }

  ghost predicate Distinct(q: seq<nat>)
  {
    forall i, j :: 0 <= i < j < |q| ==> q[i] != q[j]
  }

  ghost predicate ListOk(s: State, x: nat)
  {
    && Distinct(NodesOf(s, x))
    && forall w :: w in NodesOf(s, x) <==> 0 <= w < |s.calls| && Listed(s, w, x)
  }

  ghost predicate DelayInv(s: State)
  {
    forall x :: ListOk(s, x)
  }

  // ---------------------------------------------------------------- lists

  lemma {:induction false} WithoutIn(q: seq<nat>, w: nat, x: nat)
    ensures x in Without(q, w) <==> x in q && x != w
  {
    if q != [] {
      WithoutIn(q[1..], w, x);
      assert x in q <==> x == q[0] || x in q[1..];
    }
  }

  lemma {:induction false} WithoutDistinct(q: seq<nat>, w: nat)
    requires Distinct(q)
    ensures Distinct(Without(q, w))
  {
    if q != [] {
      assert Distinct(q[1..]);
      WithoutDistinct(q[1..], w);
      WithoutIn(q[1..], w, q[0]);
      assert q[0] !in q[1..];
    }
  }

  // The nodes of the calls in a, in the order of the list.
  function Keep(q: seq<nat>, a: set<nat>): seq<nat>
  {
    if q == [] then [] else (if q[0] in a then [q[0]] else []) + Keep(q[1..], a)
  }

  lemma {:induction false} KeepWithout(q: seq<nat>, w: nat, a: set<nat>)
    requires w !in a
    ensures Keep(Without(q, w), a) == Keep(q, a)
  {
    if q != [] {
      KeepWithout(q[1..], w, a);
      var rest := Without(q[1..], w);
      if q[0] != w { assert Without(q, w)[1..] == rest; } else { assert Without(q, w) == rest; }
    }
  }

  lemma {:induction false} KeepAll(q: seq<nat>, a: set<nat>)
    requires forall w :: w in q ==> w in a
    ensures Keep(q, a) == q
  {
    if q != [] { KeepAll(q[1..], a); assert q == [q[0]] + q[1..]; }
  }

  // ---------------------------------------------------------------- one move

  // How a move of call w may change the list of group x.
  datatype ListStep = Same | Added | Removed | Fresh

  function ListStepOf(s: State, m: Move, x: nat): ListStep
    requires Enabled(s, m)
  {
    var c := s.calls[m.w];
    if m.StartClone? && !m.flags.thread && x == s.tasks[m.cur].signal then Added
    else if m.Fall? && c.label_ == ForkOut && x == s.tasks[c.b.cur].signal then Removed
    else if m.Step? && m.ok && c.stage == AtPublish && x == s.tasks[c.b.cur].signal then Removed
    else if m.Step? && m.ok && c.stage == AtSignal && !c.b.flags.thread && x == m.id then Fresh
    else Same
  }

  ghost predicate ListAfter(s: State, m: Move, x: nat)
    requires Enabled(s, m)
  {
    NodesOf(Apply(s, m), x) ==
    match ListStepOf(s, m, x)
    case Same => NodesOf(s, x)
    case Added => [m.w] + NodesOf(s, x)
    case Removed => Without(NodesOf(s, x), m.w)
    case Fresh => []
  }

  lemma {:induction false} MoveList(s: State, m: Move, x: nat)
    requires Enabled(s, m)
    ensures ListAfter(s, m, x)
  {
    match m
    case StartClone(_, _, _, _) =>
    case StartUnshare(_, _, _) =>
    case Step(_, _, _, _) => if CloneSteps.Publishes(s, m) { PublishList(s, m, x); } else { StepList(s, m, x); }
    case Fall(_) => FallList(s, m, x);
    case UStep(_, _, _) =>
  }

  lemma {:induction false} PublishList(s: State, m: Move, x: nat)
    requires Enabled(s, m) && CloneSteps.Publishes(s, m)
    ensures ListAfter(s, m, x)
  {
  }

  lemma {:induction false} StepList(s: State, m: Move, x: nat)
    requires Enabled(s, m) && m.Step? && !CloneSteps.Publishes(s, m)
    ensures ListAfter(s, m, x)
  {
  }

  lemma {:induction false} FallList(s: State, m: Move, x: nat)
    requires Enabled(s, m) && m.Fall?
    ensures ListAfter(s, m, x)
  {
  }

  lemma {:induction false} MoveListed(s: State, m: Move, u: nat, x: nat)
    requires Enabled(s, m) && u < |s.calls| && u != m.w && CallOk(s, s.calls[m.w]) && CallOk(s, s.calls[u])
    ensures u < |Apply(s, m).calls| && (Listed(Apply(s, m), u, x) <==> Listed(s, u, x))
  {
    CloneSteps.MoveFrame(s, m);
    CloneSteps.MoveTasks(s, m);
    SameListed(s, Apply(s, m), u, x);
  }

  // A call stays on its list as long as its maker keeps its group.
  lemma {:induction false} SameListed(s: State, s': State, u: nat, x: nat)
    requires u < |s.calls| && u < |s'.calls| && s'.calls[u] == s.calls[u] && CallOk(s, s.calls[u])
    requires forall t :: t in s.tasks ==> t in s'.tasks && CloneSteps.SameButFs(s.tasks[t], s'.tasks[t])
    ensures Listed(s', u, x) <==> Listed(s, u, x)
  {
    var c := s.calls[u];
    if c.Clone? || c.Unwind? { assert CloneSteps.SameButFs(s.tasks[c.b.cur], s'.tasks[c.b.cur]); }
  }

  // The mover is listed afterwards as it was, except by the moves that add and
  // remove its node.
  ghost predicate ListedAfter(s: State, m: Move, x: nat)
    requires Enabled(s, m)
  {
    && m.w < |Apply(s, m).calls|
    && (Listed(Apply(s, m), m.w, x) <==>
          match ListStepOf(s, m, x)
          case Added => true
          case Removed => false
          case _ => Listed(s, m.w, x))
  }

  lemma {:induction false} MoverListed(s: State, m: Move, x: nat)
    requires Enabled(s, m) && CallOk(s, s.calls[m.w])
    ensures ListedAfter(s, m, x)
  {
    match m
    case StartClone(_, _, _, _) => CloneSteps.MoveFrame(s, m);
    case StartUnshare(_, _, _) =>
    case Step(w, ok, id, kv) => StepListed(s, m, x);
    case Fall(_) => FallListed(s, m, x);
    case UStep(w, ok, id) => CloneSteps.UnshareNr(s, s.calls[w], ok, id);
  }

  lemma {:induction false} StepListed(s: State, m: Move, x: nat)
    requires Enabled(s, m) && m.Step? && CallOk(s, s.calls[m.w])
    ensures ListedAfter(s, m, x)
  {
    if CloneSteps.Publishes(s, m) { PublishListed(s, m, x); }
    else if m.ok { StageListed(s, m, x); }
    else { FailListed(s, m, x); }
  }

  lemma {:induction false} PublishListed(s: State, m: Move, x: nat)
    requires Enabled(s, m) && CloneSteps.Publishes(s, m)
    ensures ListedAfter(s, m, x)
  {
    CloneSteps.PublishFrame(s, m);
    assert !Listed(Apply(s, m), m.w, x);
    assert ListStepOf(s, m, x).Same? || ListStepOf(s, m, x).Removed?;
  }

  lemma {:induction false} FailListed(s: State, m: Move, x: nat)
    requires Enabled(s, m) && m.Step? && !m.ok
    ensures ListedAfter(s, m, x)
  {
    CloneSteps.FailFrame(s, m.w);
  }

  lemma {:induction false} StageListed(s: State, m: Move, x: nat)
    requires Enabled(s, m) && m.Step? && m.ok && s.calls[m.w].stage != AtPublish
    ensures ListedAfter(s, m, x)
  {
    CloneSteps.StepFrame(s, m.w, m.id, m.kv);
    CloneSteps.SameNames(s.calls[m.w].b, s.calls[m.w].stage, s.tasks[s.calls[m.w].b.cur], m.id, m.kv);
  }

  lemma {:induction false} FallListed(s: State, m: Move, x: nat)
    requires Enabled(s, m) && m.Fall? && CallOk(s, s.calls[m.w])
    ensures ListedAfter(s, m, x)
  {
    CloneSteps.FallFrame(s, m.w);
  }

  // A signal_struct that is not allocated is nobody's, so its list is empty.
  lemma {:induction false} FreshListEmpty(s: State, x: nat)
    requires CountInv(s) && CallInv(s) && ListOk(s, x) && Obj(SignalKind, x) !in s.counts
    ensures NodesOf(s, x) == []
  {
    var o := Obj(SignalKind, x);
    var q := NodesOf(s, x);
    assert |q| == 0 || q[0] in q;
    forall w | 0 <= w < |s.calls| && Listed(s, w, x) ensures Holders(s, o) != {} {
      assert TaskHolder(s.calls[w].b.cur) in Holders(s, o);
    }
    assert CountOk(s, o);
  }

  lemma {:induction false} AddDistinct(q: seq<nat>, w: nat)
    requires Distinct(q) && w !in q
    ensures Distinct([w] + q)
  {
  }

  lemma {:induction false} MoveKeepsList(s: State, m: Move, x: nat)
    requires CountInv(s) && CallInv(s) && ListOk(s, x) && Enabled(s, m)
    ensures ListOk(Apply(s, m), x)
  {
    MoveList(s, m, x);
    assert CallOk(s, s.calls[m.w]);
    MoverListed(s, m, x);
    CloneSteps.MoveFrame(s, m);
    if ListStepOf(s, m, x).Added? { assert !Listed(s, m.w, x); AddDistinct(NodesOf(s, x), m.w); }
    if ListStepOf(s, m, x).Fresh? { FreshListEmpty(s, x); }
    if ListStepOf(s, m, x).Removed? { WithoutDistinct(NodesOf(s, x), m.w); }
    forall w ensures w in NodesOf(Apply(s, m), x) <==> 0 <= w < |Apply(s, m).calls| && Listed(Apply(s, m), w, x) {
      if ListStepOf(s, m, x).Removed? && w >= 0 { WithoutIn(NodesOf(s, x), m.w, w); }
      if 0 <= w < |s.calls| && w != m.w { assert CallOk(s, s.calls[w]); MoveListed(s, m, w, x); }
    }
  }

  // A move leaves the nodes of all other calls on the lists, in their order.
  lemma {:induction false} MoveKeepsOthers(s: State, m: Move, x: nat, a: set<nat>)
    requires CountInv(s) && CallInv(s) && ListOk(s, x) && Enabled(s, m) && m.w !in a
    ensures Keep(NodesOf(Apply(s, m), x), a) == Keep(NodesOf(s, x), a)
  {
    MoveList(s, m, x);
    KeepWithout(NodesOf(s, x), m.w, a);
    assert ([m.w] + NodesOf(s, x))[1..] == NodesOf(s, x);
    if ListStepOf(s, m, x).Fresh? { FreshListEmpty(s, x); }
  }
}
