// What walk_process_tree is to do: the plain recursive preorder traversal of the
// process tree, and what it shows its visitor, told without the recursion.

module ProcessWalk {
  type Task = nat

  // The pointers the walk follows: group_leader, the thread list of a group,
  // the children list of a thread, real_parent.
  datatype Procs = Procs(
    leader: map<Task, Task>, threads: map<Task, seq<Task>>, children: map<Task, seq<Task>>,
    realParent: map<Task, Task>)

  ghost predicate Distinct(s: seq<Task>)
  {
    forall i, j :: 0 <= i < j < |s| ==> s[i] != s[j]
  }

  // Each child is a group leader on its real_parent's children list, and the
  // tree is finite: `height` falls from a group to the groups of its children.
  ghost predicate WellFormed(h: Procs, height: Task -> nat)
  {
    && (forall t :: t in h.leader ==>
         && t in h.children && h.leader[t] in h.leader && h.leader[t] in h.threads
         && t in h.threads[h.leader[t]])
    && (forall l :: l in h.threads ==> IsGroup(h, l))
    && (forall t :: t in h.children ==> t in h.leader && IsFamily(h, height, t))
  }

  ghost predicate IsGroup(h: Procs, l: Task)
    requires l in h.threads
  {
    && l in h.leader && h.leader[l] == l && Distinct(h.threads[l])
    && forall i :: 0 <= i < |h.threads[l]| ==> h.threads[l][i] in h.leader && h.leader[h.threads[l][i]] == l
  }

  ghost predicate IsFamily(h: Procs, height: Task -> nat, t: Task)
    requires t in h.children && t in h.leader
  {
    && Distinct(h.children[t])
    && forall i :: 0 <= i < |h.children[t]| ==> IsChild(h, height, t, h.children[t][i])
  }

  ghost predicate IsChild(h: Procs, height: Task -> nat, t: Task, c: Task)
    requires t in h.leader
  {
    && c in h.leader && h.leader[c] == c && c in h.realParent && h.realParent[c] == t
    && height(c) < height(h.leader[t])
  }

  // ---------------------------------------------------------------- reference

  // What has been done so far: the tasks shown to the visitor, its data, and
  // whether it asked to stop.
  datatype Progress<D> = Progress(trace: seq<Task>, data: D, stopped: bool)

  type Visitor<!D> = (Task, D) -> (int, D)

  function Visit<D>(visit: Visitor<D>, t: Task, p: Progress<D>): Progress<D>
  {
    var (res, data) := visit(t, p.data);
    Progress(p.trace + [t], data, res < 0)
  }

  // Threads of the group in order; for each, its children in order; below a
  // child only on a positive answer; nothing more after a negative one.
  ghost function WalkGroup<D>(h: Procs, height: Task -> nat, visit: Visitor<D>, l: Task, p: Progress<D>): Progress<D>
    requires WellFormed(h, height) && l in h.threads
    decreases height(l), 2, 0
  {
    WalkThreads(h, height, visit, l, h.threads[l], p)
  }

  ghost function WalkThreads<D>(h: Procs, height: Task -> nat, visit: Visitor<D>, l: Task, ts: seq<Task>,
                                p: Progress<D>): Progress<D>
    requires WellFormed(h, height)
    requires forall t :: t in ts ==> t in h.leader && h.leader[t] == l
    decreases height(l), 1, |ts|
  {
    if ts == [] || p.stopped then p
    else WalkThreads(h, height, visit, l, ts[1..], WalkChildren(h, height, visit, ts[0], h.children[ts[0]], p))
  }

  ghost function WalkChildren<D>(h: Procs, height: Task -> nat, visit: Visitor<D>, t: Task, cs: seq<Task>,
                                 p: Progress<D>): Progress<D>
    requires WellFormed(h, height) && t in h.leader
    requires forall c :: c in cs ==> IsChild(h, height, t, c)
    decreases height(h.leader[t]), 0, |cs|
  {
    if cs == [] || p.stopped then p
    else
      assert IsChild(h, height, t, cs[0]);
      var p' := Visit(visit, cs[0], p);
      var below := if visit(cs[0], p.data).0 > 0 then WalkGroup(h, height, visit, cs[0], p') else p';
      WalkChildren(h, height, visit, t, cs[1..], below)
  }

  // The way back up from l leads to top.
  ghost predicate Below(h: Procs, height: Task -> nat, top: Task, l: Task)
    requires WellFormed(h, height)
    decreases height(top) - height(l)
  {
    && height(l) <= height(top) && l in h.threads
    && (l == top || (
      && l in h.realParent && h.realParent[l] in h.leader && l in h.children[h.realParent[l]]
      && height(l) < height(h.leader[h.realParent[l]])
      && Below(h, height, top, h.leader[h.realParent[l]])))
  }

  // ---------------------------------------------------------------- what the visitor saw

  // The visitor's data after it has been shown these tasks, one after the other.
  function DataAfter<D>(visit: Visitor<D>, data: D, trace: seq<Task>): D
  {
    if trace == [] then data
    else visit(trace[|trace| - 1], DataAfter(visit, data, trace[..|trace| - 1])).1
  }

  // Its answer to the k-th of them.
  function Answer<D>(visit: Visitor<D>, data: D, trace: seq<Task>, k: nat): int
    requires k < |trace|
  {
    visit(trace[k], DataAfter(visit, data, trace[..k])).0
  }

  // To which of them it gave a positive answer.
  function Opened<D>(visit: Visitor<D>, data: D, trace: seq<Task>): (op: seq<bool>)
    ensures |op| == |trace| && forall k :: 0 <= k < |op| ==> op[k] == (Answer(visit, data, trace, k) > 0)
  {
    seq(|trace|, k requires 0 <= k < |trace| => Answer(visit, data, trace, k) > 0)
  }

  // The data went through the visitor in the order of the trace, and a negative
  // answer was the last one.
  ghost predicate Told<D>(visit: Visitor<D>, data: D, p: Progress<D>)
  {
    && p.data == DataAfter(visit, data, p.trace) && (p.stopped ==> |p.trace| > 0)
    && forall k :: 0 <= k < |p.trace| ==> (Answer(visit, data, p.trace, k) < 0 <==> p.stopped && k == |p.trace| - 1)
  }

  lemma {:induction false} OpenedPrefix<D>(visit: Visitor<D>, data: D, a: seq<Task>, b: seq<Task>)
    ensures Opened(visit, data, a + b)[..|a|] == Opened(visit, data, a)
  {
    forall k | 0 <= k < |a| ensures Answer(visit, data, a + b, k) == Answer(visit, data, a, k) {
      assert (a + b)[..k] == a[..k];
    }
  }

  lemma {:induction false} VisitTells<D>(visit: Visitor<D>, data: D, t: Task, p: Progress<D>)
    requires Told(visit, data, p) && !p.stopped
    ensures Told(visit, data, Visit(visit, t, p))
    ensures Visit(visit, t, p).trace == p.trace + [t]
    ensures Opened(visit, data, p.trace + [t]) == Opened(visit, data, p.trace) + [visit(t, p.data).0 > 0]
    ensures Visit(visit, t, p).stopped <==> visit(t, p.data).0 < 0
  {
    var trace := p.trace + [t];
    assert trace[..|p.trace|] == p.trace;
    forall k | 0 <= k < |p.trace| ensures Answer(visit, data, trace, k) == Answer(visit, data, p.trace, k) {
      assert trace[..k] == p.trace[..k];
    }
  }

  // ---------------------------------------------------------------- places in the tree

  // c is child j of thread i of group g.
  predicate ChildAt(h: Procs, g: Task, i: nat, j: nat, c: Task)
  {
    && g in h.threads && i < |h.threads[g]| && h.threads[g][i] in h.children
    && j < |h.children[h.threads[g][i]]| && h.children[h.threads[g][i]][j] == c
  }

  ghost predicate ChildOf(h: Procs, g: Task, c: Task)
  {
    exists i, j :: ChildAt(h, g, i, j, c)
  }

  // x comes before y among the children of one group: under an earlier thread,
  // or earlier under the same thread.
  ghost predicate Before(h: Procs, x: Task, y: Task)
  {
    exists g, i, j, i', j' :: Earlier(h, g, i, j, i', j', x, y)
  }

  predicate Earlier(h: Procs, g: Task, i: nat, j: nat, i': nat, j': nat, x: Task, y: Task)
  {
    ChildAt(h, g, i, j, x) && ChildAt(h, g, i', j', y) && (i < i' || (i == i' && j < j'))
  }

  // a comes before b in preorder: b is below a, or their ways up part at two
  // children of one group of which a's comes first.
  ghost predicate Precedes(h: Procs, height: Task -> nat, a: Task, b: Task)
    requires WellFormed(h, height)
  {
    || (a != b && Below(h, height, a, b))
    || exists x, y :: PartAt(h, height, x, y, a, b)
  }

  ghost predicate PartAt(h: Procs, height: Task -> nat, x: Task, y: Task, a: Task, b: Task)
    requires WellFormed(h, height)
  {
    Before(h, x, y) && Below(h, height, x, a) && Below(h, height, y, b)
  }

  // The first child of a group from thread i on.
  ghost predicate FirstFrom(h: Procs, g: Task, i: nat, c: Task)
  {
    exists q :: i <= q && ChildAt(h, g, q, 0, c) && forall r, j, d :: i <= r < q ==> !ChildAt(h, g, r, j, d)
  }

  ghost predicate HasFirst(h: Procs, g: Task, i: nat)
  {
    exists c :: FirstFrom(h, g, i, c)
  }

  // ---------------------------------------------------------------- a stretch of the walk

  // Every task of the stretch is one of the roots or a child of a group that was
  // opened before it.
  ghost predicate Rooted(h: Procs, ts: seq<Task>, op: seq<bool>, roots: set<Task>)
    requires |ts| == |op|
  {
    forall k :: 0 <= k < |ts| ==> RootedAt(h, ts, op, roots, k)
  }

  ghost predicate RootedAt(h: Procs, ts: seq<Task>, op: seq<bool>, roots: set<Task>, k: nat)
    requires k < |ts| == |op|
  {
    ts[k] in roots || exists q :: 0 <= q < k && op[q] && ChildOf(h, ts[q], ts[k])
  }

  // Every child of an opened group is there.
  ghost predicate Closed(h: Procs, ts: seq<Task>, op: seq<bool>)
    requires |ts| == |op|
  {
    forall k, c {:trigger ChildOf(h, ts[k], c)} :: 0 <= k < |ts| && op[k] && ChildOf(h, ts[k], c) ==> c in ts
  }

  ghost predicate Under(h: Procs, height: Task -> nat, ts: seq<Task>, roots: set<Task>)
    requires WellFormed(h, height)
  {
    forall k {:trigger HasRoot(h, height, roots, ts[k])} :: 0 <= k < |ts| ==> HasRoot(h, height, roots, ts[k])
  }

  ghost predicate HasRoot(h: Procs, height: Task -> nat, roots: set<Task>, t: Task)
    requires WellFormed(h, height)
  {
    exists r :: r in roots && Below(h, height, r, t)
  }

  ghost predicate Preorder(h: Procs, height: Task -> nat, ts: seq<Task>)
    requires WellFormed(h, height)
  {
    forall a, b {:trigger Precedes(h, height, ts[a], ts[b])} :: 0 <= a < b < |ts| ==>
        Precedes(h, height, ts[a], ts[b])
  }

  // An opened group that has children is followed at once by the first of them.
  ghost predicate Descends(h: Procs, ts: seq<Task>, op: seq<bool>)
    requires |ts| == |op|
  {
    forall k :: 0 <= k < |ts| ==> DescendsAt(h, ts, op, k)
  }

  ghost predicate DescendsAt(h: Procs, ts: seq<Task>, op: seq<bool>, k: nat)
    requires k < |ts| == |op|
  {
    op[k] && HasFirst(h, ts[k], 0) ==> k + 1 < |ts| && FirstFrom(h, ts[k], 0, ts[k + 1])
  }

  ghost predicate Stretch(h: Procs, height: Task -> nat, ts: seq<Task>, op: seq<bool>, roots: set<Task>, all: bool)
    requires WellFormed(h, height) && |ts| == |op|
  {
    && Rooted(h, ts, op, roots) && Under(h, height, ts, roots) && Preorder(h, height, ts) && Descends(h, ts, op)
    && (all ==> Closed(h, ts, op) && forall r :: r in roots ==> r in ts)
  }

  // Two stretches, the roots of the first before those of the second.
  lemma {:induction false} ThenRooted(h: Procs, ts: seq<Task>, op: seq<bool>, ts': seq<Task>, op': seq<bool>,
                                      roots: set<Task>, roots': set<Task>)
    requires |ts| == |op| && |ts'| == |op'| && Rooted(h, ts, op, roots) && Rooted(h, ts', op', roots')
    ensures Rooted(h, ts + ts', op + op', roots + roots')
  {
    var (us, uo) := (ts + ts', op + op');
    forall k | 0 <= k < |us| ensures RootedAt(h, us, uo, roots + roots', k) {
      if k < |ts| {
        assert RootedAt(h, ts, op, roots, k);
        if ts[k] !in roots {
          var q :| 0 <= q < k && op[q] && ChildOf(h, ts[q], ts[k]);
          assert uo[q] && us[q] == ts[q];
        }
      } else {
        assert RootedAt(h, ts', op', roots', k - |ts|);
        if ts'[k - |ts|] !in roots' {
          var q :| 0 <= q < k - |ts| && op'[q] && ChildOf(h, ts'[q], ts'[k - |ts|]);
          assert uo[q + |ts|] && us[q + |ts|] == ts'[q];
        }
      }
    }
  }

  lemma {:induction false} ThenClosed(h: Procs, ts: seq<Task>, op: seq<bool>, ts': seq<Task>, op': seq<bool>)
    requires |ts| == |op| && |ts'| == |op'| && Closed(h, ts, op) && Closed(h, ts', op')
    ensures Closed(h, ts + ts', op + op')
  {
    var (us, uo) := (ts + ts', op + op');
    forall k, c | 0 <= k < |us| && uo[k] && ChildOf(h, us[k], c) ensures c in us {
      if k < |ts| { assert op[k] && us[k] == ts[k]; } else { assert op'[k - |ts|] && us[k] == ts'[k - |ts|]; }
    }
  }

  lemma {:induction false} MoreRoots(h: Procs, height: Task -> nat, roots: set<Task>, roots': set<Task>, t: Task)
    requires WellFormed(h, height) && roots <= roots'
    ensures HasRoot(h, height, roots, t) ==> HasRoot(h, height, roots', t)
  {
    if HasRoot(h, height, roots, t) {
      var r :| r in roots && Below(h, height, r, t);
      assert r in roots';
    }
  }

  lemma {:induction false} ThenUnder(h: Procs, height: Task -> nat, ts: seq<Task>, ts': seq<Task>, roots: set<Task>,
                                     roots': set<Task>)
    requires WellFormed(h, height) && Under(h, height, ts, roots) && Under(h, height, ts', roots')
    ensures Under(h, height, ts + ts', roots + roots')
  {
    var us := ts + ts';
    forall k | 0 <= k < |us| ensures HasRoot(h, height, roots + roots', us[k]) {
      if k < |ts| {
        assert HasRoot(h, height, roots, ts[k]);
      } else {
        assert HasRoot(h, height, roots', ts'[k - |ts|]);
      }
      MoreRoots(h, height, roots, roots + roots', us[k]);
      MoreRoots(h, height, roots', roots + roots', us[k]);
    }
  }

  ghost predicate AllBefore(h: Procs, roots: set<Task>, roots': set<Task>)
  {
    forall x, y {:trigger Before(h, x, y)} :: x in roots && y in roots' ==> Before(h, x, y)
  }

  lemma {:induction false} RootsPrecede(h: Procs, height: Task -> nat, roots: set<Task>, roots': set<Task>, a: Task,
                                        b: Task)
    requires WellFormed(h, height) && AllBefore(h, roots, roots')
    requires HasRoot(h, height, roots, a) && HasRoot(h, height, roots', b)
    ensures Precedes(h, height, a, b)
  {
    var x :| x in roots && Below(h, height, x, a);
    var y :| y in roots' && Below(h, height, y, b);
    assert PartAt(h, height, x, y, a, b);
  }

  lemma {:induction false} ThenPreorder(h: Procs, height: Task -> nat, ts: seq<Task>, ts': seq<Task>,
                                        roots: set<Task>, roots': set<Task>)
    requires WellFormed(h, height) && Preorder(h, height, ts) && Preorder(h, height, ts')
    requires Under(h, height, ts, roots) && Under(h, height, ts', roots') && AllBefore(h, roots, roots')
    ensures Preorder(h, height, ts + ts')
  {
    var us := ts + ts';
    forall a, b | 0 <= a < b < |us| ensures Precedes(h, height, us[a], us[b]) {
      if b < |ts| {
        assert Precedes(h, height, ts[a], ts[b]);
      } else if a >= |ts| {
        assert Precedes(h, height, ts'[a - |ts|], ts'[b - |ts|]);
      } else {
        assert HasRoot(h, height, roots, ts[a]) && HasRoot(h, height, roots', ts'[b - |ts|]);
        RootsPrecede(h, height, roots, roots', us[a], us[b]);
      }
    }
  }

  lemma {:induction false} ThenDescends(h: Procs, ts: seq<Task>, op: seq<bool>, ts': seq<Task>, op': seq<bool>)
    requires |ts| == |op| && |ts'| == |op'| && Descends(h, ts, op) && Descends(h, ts', op')
    ensures Descends(h, ts + ts', op + op')
  {
    var (us, uo) := (ts + ts', op + op');
    forall k | 0 <= k < |us| ensures DescendsAt(h, us, uo, k) {
      if k < |ts| { assert DescendsAt(h, ts, op, k); } else { assert DescendsAt(h, ts', op', k - |ts|); }
    }
  }

  lemma {:induction false} ThenStretch(h: Procs, height: Task -> nat, ts: seq<Task>, op: seq<bool>, ts': seq<Task>,
                                       op': seq<bool>, roots: set<Task>, roots': set<Task>, all: bool)
    requires WellFormed(h, height) && |ts| == |op| && |ts'| == |op'| && AllBefore(h, roots, roots')
    requires Stretch(h, height, ts, op, roots, all) && Stretch(h, height, ts', op', roots', all)
    ensures Stretch(h, height, ts + ts', op + op', roots + roots', all)
  {
    ThenRooted(h, ts, op, ts', op', roots, roots');
    ThenUnder(h, height, ts, ts', roots, roots');
    ThenPreorder(h, height, ts, ts', roots, roots');
    ThenDescends(h, ts, op, ts', op');
    if all { ThenClosed(h, ts, op, ts', op'); }
  }

  // ---------------------------------------------------------------- the recursion makes such stretches

  // From p to p' the walk has gone on below these roots.
  ghost predicate Walked<D>(h: Procs, height: Task -> nat, visit: Visitor<D>, data: D, p: Progress<D>, p': Progress<D>,
                            roots: set<Task>)
    requires WellFormed(h, height)
  {
    && Told(visit, data, p') && |p.trace| <= |p'.trace| && p'.trace[..|p.trace|] == p.trace
    && Stretch(h, height, p'.trace[|p.trace|..], Opened(visit, data, p'.trace)[|p.trace|..], roots, !p'.stopped)
  }

  lemma {:induction false} WalkedNothing<D>(h: Procs, height: Task -> nat, visit: Visitor<D>, data: D, p: Progress<D>,
                                            roots: set<Task>)
    requires WellFormed(h, height) && Told(visit, data, p) && (p.stopped || roots == {})
    ensures Walked(h, height, visit, data, p, p, roots)
  {
    assert p.trace[|p.trace|..] == [];
  }

  lemma {:induction false} WalkedStop<D>(h: Procs, height: Task -> nat, visit: Visitor<D>, data: D, p: Progress<D>,
                                         p': Progress<D>, roots: set<Task>, roots': set<Task>)
    requires WellFormed(h, height) && Walked(h, height, visit, data, p, p', roots) && p'.stopped && roots <= roots'
    ensures Walked(h, height, visit, data, p, p', roots')
  {
    var ts := p'.trace[|p.trace|..];
    var op := Opened(visit, data, p'.trace)[|p.trace|..];
    forall k | 0 <= k < |ts| ensures HasRoot(h, height, roots', ts[k]) {
      assert HasRoot(h, height, roots, ts[k]);
      MoreRoots(h, height, roots, roots', ts[k]);
    }
    forall k | 0 <= k < |ts| ensures RootedAt(h, ts, op, roots', k) { assert RootedAt(h, ts, op, roots, k); }
  }

  lemma {:induction false} Weaken(h: Procs, height: Task -> nat, ts: seq<Task>, op: seq<bool>, roots: set<Task>,
                                  all: bool)
    requires WellFormed(h, height) && |ts| == |op| && Stretch(h, height, ts, op, roots, true)
    ensures Stretch(h, height, ts, op, roots, all)
  {
  }

  lemma {:induction false} IsWalked<D>(h: Procs, height: Task -> nat, visit: Visitor<D>, data: D, p: Progress<D>,
                                       p': Progress<D>, ts: seq<Task>, op: seq<bool>, roots: set<Task>)
    requires WellFormed(h, height) && Told(visit, data, p') && |ts| == |op|
    requires |p.trace| <= |p'.trace| && p'.trace[..|p.trace|] == p.trace && p'.trace[|p.trace|..] == ts
    requires Opened(visit, data, p'.trace)[|p.trace|..] == op && Stretch(h, height, ts, op, roots, !p'.stopped)
    ensures Walked(h, height, visit, data, p, p', roots)
  {
  }

  lemma {:induction false} WalkedOn<D>(h: Procs, height: Task -> nat, visit: Visitor<D>, data: D, p: Progress<D>,
                                       p1: Progress<D>, p2: Progress<D>, roots: set<Task>, roots': set<Task>)
    requires WellFormed(h, height) && Walked(h, height, visit, data, p, p1, roots) && !p1.stopped
    requires Walked(h, height, visit, data, p1, p2, roots') && AllBefore(h, roots, roots')
    ensures Walked(h, height, visit, data, p, p2, roots + roots')
  {
    var (n, n1) := (|p.trace|, |p1.trace|);
    var (op1, op2) := (Opened(visit, data, p1.trace), Opened(visit, data, p2.trace));
    Cut(visit, data, p1.trace, p2.trace, n);
    assert p2.trace[..n] == p1.trace[..n];
    Weaken(h, height, p1.trace[n..], op1[n..], roots, !p2.stopped);
    ThenStretch(h, height, p1.trace[n..], op1[n..], p2.trace[n1..], op2[n1..], roots, roots', !p2.stopped);
    IsWalked(h, height, visit, data, p, p2, p1.trace[n..] + p2.trace[n1..], op1[n..] + op2[n1..], roots + roots');
  }

  // A later trace, cut where an earlier one ended.
  lemma {:induction false} Cut<D>(visit: Visitor<D>, data: D, a: seq<Task>, b: seq<Task>, n: nat)
    requires n <= |a| <= |b| && b[..|a|] == a
    ensures b[n..] == a[n..] + b[|a|..]
    ensures Opened(visit, data, b)[n..] == Opened(visit, data, a)[n..] + Opened(visit, data, b)[|a|..]
  {
    assert b == a + b[|a|..];
    OpenedPrefix(visit, data, a, b[|a|..]);
    CutSeq(a, b, n);
    CutSeq(Opened(visit, data, a), Opened(visit, data, b), n);
  }

  lemma {:induction false} CutSeq<T>(a: seq<T>, b: seq<T>, n: nat)
    requires n <= |a| <= |b| && b[..|a|] == a
    ensures b[n..] == a[n..] + b[|a|..]
  {
    assert b == a + b[|a|..];
  }

  // The children of thread t from the j-th on, and of group l from thread i on.
  ghost function RootsOf(h: Procs, t: Task, j: nat): set<Task>
    requires t in h.children && j <= |h.children[t]|
  {
    set c | c in h.children[t][j..]
  }

  ghost function RootsFrom(h: Procs, l: Task, i: nat): set<Task>
    requires l in h.threads
  {
    set q, j | i <= q < |h.threads[l]| && h.threads[l][q] in h.children && 0 <= j < |h.children[h.threads[l][q]]|
      :: h.children[h.threads[l][q]][j]
  }

  lemma {:induction false} RootsAt(h: Procs, l: Task, i: nat, c: Task)
    requires l in h.threads
    ensures c in RootsFrom(h, l, i) <==> exists q, j :: i <= q && ChildAt(h, l, q, j, c)
  {
    if c in RootsFrom(h, l, i) {
      var q, j :| i <= q < |h.threads[l]| && h.threads[l][q] in h.children && 0 <= j < |h.children[h.threads[l][q]]|
        && h.children[h.threads[l][q]][j] == c;
      assert ChildAt(h, l, q, j, c);
    }
  }

  lemma {:induction false} NoMoreRoots(h: Procs, l: Task)
    requires l in h.threads
    ensures RootsFrom(h, l, |h.threads[l]|) == {} && h.threads[l][|h.threads[l]|..] == []
  {
  }

  lemma {:induction false} RootsSplit(h: Procs, l: Task, i: nat)
    requires l in h.threads && i < |h.threads[l]| && h.threads[l][i] in h.children
    ensures RootsFrom(h, l, i) == RootsOf(h, h.threads[l][i], 0) + RootsFrom(h, l, i + 1)
    ensures AllBefore(h, RootsOf(h, h.threads[l][i], 0), RootsFrom(h, l, i + 1))
  {
    var cs := h.children[h.threads[l][i]];
    assert cs[0..] == cs;
    forall x, y | x in RootsOf(h, h.threads[l][i], 0) && y in RootsFrom(h, l, i + 1) ensures Before(h, x, y) {
      var j :| 0 <= j < |cs| && cs[j] == x;
      RootsAt(h, l, i + 1, y);
      var i', j' :| i + 1 <= i' && ChildAt(h, l, i', j', y);
      assert Earlier(h, l, i, j, i', j', x, y);
    }
  }

  lemma {:induction false} RootsNext(h: Procs, l: Task, i: nat, j: nat)
    requires l in h.threads && i < |h.threads[l]| && h.threads[l][i] in h.children
    requires j < |h.children[h.threads[l][i]]|
    ensures var t := h.threads[l][i]; var c := h.children[t][j];
      RootsOf(h, t, j) == {c} + RootsOf(h, t, j + 1) && AllBefore(h, {c}, RootsOf(h, t, j + 1))
  {
    var cs := h.children[h.threads[l][i]];
    assert cs[j..] == [cs[j]] + cs[j + 1..];
    forall y | y in cs[j + 1..] ensures Before(h, cs[j], y) {
      var q :| j + 1 <= q < |cs| && cs[q] == y;
      assert Earlier(h, l, i, j, i, q, cs[j], y);
    }
  }

  // What is below a child of c is below c.
  lemma {:induction false} BelowUp(h: Procs, height: Task -> nat, c: Task, r: Task, b: Task)
    requires WellFormed(h, height) && Below(h, height, r, b) && c in h.threads && ChildOf(h, c, r)
    ensures Below(h, height, c, b) && b != c
    decreases height(r) - height(b)
  {
    ChildFacts(h, height, c, r);
    if b != r { BelowUp(h, height, c, r, h.leader[h.realParent[b]]); }
  }

  lemma {:induction false} ChildFacts(h: Procs, height: Task -> nat, g: Task, c: Task)
    requires WellFormed(h, height) && ChildOf(h, g, c)
    ensures g in h.threads && c in h.threads && c in h.realParent && h.realParent[c] in h.leader
    ensures h.leader[h.realParent[c]] == g && c in h.children[h.realParent[c]] && height(c) < height(g)
  {
    var i: nat, j: nat :| ChildAt(h, g, i, j, c);
    assert IsGroup(h, g);
    assert IsFamily(h, height, h.threads[g][i]);
    assert IsChild(h, height, h.threads[g][i], h.children[h.threads[g][i]][j]);
  }

  // A group that was opened, and its stretch.
  lemma {:induction false} OpenBlock(h: Procs, height: Task -> nat, ts: seq<Task>, op: seq<bool>, c: Task, all: bool)
    requires WellFormed(h, height) && |ts| == |op| && c in h.threads
    requires Stretch(h, height, ts, op, RootsFrom(h, c, 0), all)
    requires HasFirst(h, c, 0) ==> |ts| > 0 && FirstFrom(h, c, 0, ts[0])
    ensures Stretch(h, height, [c] + ts, [true] + op, {c}, all)
  {
    OpenRooted(h, ts, op, c);
    OpenUnder(h, height, ts, c);
    OpenPreorder(h, height, ts, c);
    OpenDescends(h, ts, op, c);
    if all { OpenClosed(h, ts, op, c); }
  }

  lemma {:induction false} OpenRooted(h: Procs, ts: seq<Task>, op: seq<bool>, c: Task)
    requires |ts| == |op| && c in h.threads && Rooted(h, ts, op, RootsFrom(h, c, 0))
    ensures Rooted(h, [c] + ts, [true] + op, {c})
  {
    var (us, uo) := ([c] + ts, [true] + op);
    forall k | 0 < k < |us| ensures RootedAt(h, us, uo, {c}, k) {
      assert us[k] == ts[k - 1] && RootedAt(h, ts, op, RootsFrom(h, c, 0), k - 1);
      if ts[k - 1] in RootsFrom(h, c, 0) {
        RootsAt(h, c, 0, ts[k - 1]);
        assert uo[0] && ChildOf(h, us[0], us[k]);
      } else {
        var q :| 0 <= q < k - 1 && op[q] && ChildOf(h, ts[q], ts[k - 1]);
        assert uo[q + 1] && us[q + 1] == ts[q];
      }
    }
    assert RootedAt(h, us, uo, {c}, 0);
  }

  // Everything in the stretch is below c.
  lemma {:induction false} AllBelow(h: Procs, height: Task -> nat, ts: seq<Task>, c: Task, k: nat)
    requires WellFormed(h, height) && c in h.threads && Under(h, height, ts, RootsFrom(h, c, 0)) && k < |ts|
    ensures Below(h, height, c, ts[k]) && ts[k] != c
  {
    var b := ts[k];
    assert HasRoot(h, height, RootsFrom(h, c, 0), ts[k]);
    var r :| r in RootsFrom(h, c, 0) && Below(h, height, r, b);
    RootsAt(h, c, 0, r);
    BelowUp(h, height, c, r, b);
  }

  lemma {:induction false} OpenUnder(h: Procs, height: Task -> nat, ts: seq<Task>, c: Task)
    requires WellFormed(h, height) && c in h.threads && Under(h, height, ts, RootsFrom(h, c, 0))
    ensures Under(h, height, [c] + ts, {c})
  {
    var us := [c] + ts;
    forall k | 0 <= k < |us| ensures HasRoot(h, height, {c}, us[k]) {
      if k > 0 { AllBelow(h, height, ts, c, k - 1); }
      assert c in {c} && Below(h, height, c, us[k]);
    }
  }

  lemma {:induction false} BelowPrecedes(h: Procs, height: Task -> nat, a: Task, b: Task)
    requires WellFormed(h, height) && a != b && Below(h, height, a, b)
    ensures Precedes(h, height, a, b)
  {
  }

  lemma {:induction false} OpenPreorder(h: Procs, height: Task -> nat, ts: seq<Task>, c: Task)
    requires WellFormed(h, height) && c in h.threads && Under(h, height, ts, RootsFrom(h, c, 0))
    requires Preorder(h, height, ts)
    ensures Preorder(h, height, [c] + ts)
  {
    var us := [c] + ts;
    forall a, b | 0 <= a < b < |us| ensures Precedes(h, height, us[a], us[b]) {
      assert us[b] == ts[b - 1];
      if a == 0 {
        AllBelow(h, height, ts, c, b - 1);
        BelowPrecedes(h, height, c, ts[b - 1]);
      } else {
        assert us[a] == ts[a - 1] && Precedes(h, height, ts[a - 1], ts[b - 1]);
      }
    }
  }

  lemma {:induction false} OpenDescends(h: Procs, ts: seq<Task>, op: seq<bool>, c: Task)
    requires |ts| == |op| && Descends(h, ts, op) && (HasFirst(h, c, 0) ==> |ts| > 0 && FirstFrom(h, c, 0, ts[0]))
    ensures Descends(h, [c] + ts, [true] + op)
  {
    var (us, uo) := ([c] + ts, [true] + op);
    forall k | 0 < k < |us| ensures DescendsAt(h, us, uo, k) { assert DescendsAt(h, ts, op, k - 1); }
    assert DescendsAt(h, us, uo, 0);
  }

  lemma {:induction false} OpenClosed(h: Procs, ts: seq<Task>, op: seq<bool>, c: Task)
    requires |ts| == |op| && c in h.threads && Closed(h, ts, op) && forall r :: r in RootsFrom(h, c, 0) ==> r in ts
    ensures Closed(h, [c] + ts, [true] + op)
  {
    var (us, uo) := ([c] + ts, [true] + op);
    forall k, d | 0 <= k < |us| && uo[k] && ChildOf(h, us[k], d) ensures d in us {
      if k == 0 { RootsAt(h, c, 0, d); } else { assert op[k - 1] && us[k] == ts[k - 1]; }
    }
  }

  // One child and, if the answer is positive, everything below it.
  lemma {:induction false} BlockWalked<D>(h: Procs, height: Task -> nat, visit: Visitor<D>, data: D, c: Task,
                                          p: Progress<D>, p': Progress<D>)
    requires WellFormed(h, height) && Told(visit, data, p) && !p.stopped && c in h.threads
    requires var p1 := Visit(visit, c, p);
      if visit(c, p.data).0 <= 0 then p' == p1
      else Walked(h, height, visit, data, p1, p', RootsFrom(h, c, 0)) && Starts(h, c, 0, p1, p')
    ensures Walked(h, height, visit, data, p, p', {c})
    ensures |p'.trace| > |p.trace| && p'.trace[|p.trace|] == c
  {
    var p1 := Visit(visit, c, p);
    VisitTells(visit, data, c, p);
    var ts := p'.trace[|p1.trace|..];
    var op := Opened(visit, data, p'.trace)[|p1.trace|..];
    var open := visit(c, p.data).0 > 0;
    Cut(visit, data, p1.trace, p'.trace, |p.trace|);
    assert p1.trace[|p.trace|..] == [c];
    assert Opened(visit, data, p1.trace)[|p.trace|..] == [open];
    if open {
      OpenBlock(h, height, ts, op, c, !p'.stopped);
    } else {
      assert ts == [] && op == [];
      ShutBlock(h, height, c, !p'.stopped);
    }
    assert p'.trace[..|p.trace|] == p1.trace[..|p.trace|];
    IsWalked(h, height, visit, data, p, p', [c] + ts, [open] + op, {c});
    assert p'.trace[|p.trace|] == p'.trace[|p.trace|..][0];
  }

  lemma {:induction false} ShutBlock(h: Procs, height: Task -> nat, c: Task, all: bool)
    requires WellFormed(h, height) && c in h.threads
    ensures Stretch(h, height, [c] + [], [false] + [], {c}, all)
  {
    assert c in {c} && Below(h, height, c, c);
  }

  // The walk of group l from thread i on starts with the first child there is.
  ghost predicate Starts<D>(h: Procs, l: Task, i: nat, p: Progress<D>, p': Progress<D>)
  {
    HasFirst(h, l, i) ==> |p'.trace| > |p.trace| && FirstFrom(h, l, i, p'.trace[|p.trace|])
  }

  lemma {:induction false} ChildrenWalked<D>(h: Procs, height: Task -> nat, visit: Visitor<D>, data: D, l: Task, i: nat,
                                             j: nat, p: Progress<D>) returns (p': Progress<D>)
    requires WellFormed(h, height) && l in h.threads && i < |h.threads[l]| && j <= |h.children[h.threads[l][i]]|
    requires Told(visit, data, p)
    ensures p' == WalkChildren(h, height, visit, h.threads[l][i], h.children[h.threads[l][i]][j..], p)
    ensures Walked(h, height, visit, data, p, p', RootsOf(h, h.threads[l][i], j))
    ensures j < |h.children[h.threads[l][i]]| && !p.stopped ==>
      |p'.trace| > |p.trace| && p'.trace[|p.trace|] == h.children[h.threads[l][i]][j]
    decreases height(l), 0, |h.children[h.threads[l][i]]| - j, 1
  {
    var t := h.threads[l][i];
    var cs := h.children[t];
    assert IsGroup(h, l);
    if j == |cs| || p.stopped {
      p' := p;
      assert j == |cs| ==> cs[j..] == [];
      WalkedNothing(h, height, visit, data, p, RootsOf(h, t, j));
    } else {
      assert IsFamily(h, height, t) && IsChild(h, height, t, cs[j]);
      var p1 := ChildBlock(h, height, visit, data, l, t, cs[j], p);
      p' := ChildrenWalked(h, height, visit, data, l, i, j + 1, p1);
      OneChildOn(h, height, visit, t, j, p, p1);
      ChildStep(h, height, visit, data, l, i, j, p, p1, p');
    }
  }

  lemma {:induction false} OneChildOn<D>(h: Procs, height: Task -> nat, visit: Visitor<D>, t: Task, j: nat,
                                         p: Progress<D>, p1: Progress<D>)
    requires WellFormed(h, height) && t in h.children && j < |h.children[t]| && !p.stopped
    requires h.children[t][j] in h.threads
    requires var c := h.children[t][j];
      p1 == if visit(c, p.data).0 > 0 then WalkGroup(h, height, visit, c, Visit(visit, c, p)) else Visit(visit, c, p)
    ensures WalkChildren(h, height, visit, t, h.children[t][j..], p)
      == WalkChildren(h, height, visit, t, h.children[t][j + 1..], p1)
  {
    assert h.children[t][j..][0] == h.children[t][j] && h.children[t][j..][1..] == h.children[t][j + 1..];
  }

  lemma {:induction false} OneThreadOn<D>(h: Procs, height: Task -> nat, visit: Visitor<D>, l: Task, i: nat,
                                          p: Progress<D>)
    requires WellFormed(h, height) && l in h.threads && i < |h.threads[l]| && !p.stopped
    ensures var t := h.threads[l][i]; var p1 := WalkChildren(h, height, visit, t, h.children[t][0..], p);
      WalkThreads(h, height, visit, l, h.threads[l][i..], p)
      == WalkThreads(h, height, visit, l, h.threads[l][i + 1..], p1)
  {
    var ts := h.threads[l];
    assert ts[i..][0] == ts[i] && ts[i..][1..] == ts[i + 1..] && h.children[ts[i]][0..] == h.children[ts[i]];
  }

  lemma {:induction false} ChildBlock<D>(h: Procs, height: Task -> nat, visit: Visitor<D>, data: D, l: Task, t: Task,
                                         c: Task, p: Progress<D>) returns (p': Progress<D>)
    requires WellFormed(h, height) && Told(visit, data, p) && !p.stopped
    requires t in h.leader && h.leader[t] == l && IsChild(h, height, t, c)
    ensures var p1 := Visit(visit, c, p);
      c in h.threads && p' == if visit(c, p.data).0 > 0 then WalkGroup(h, height, visit, c, p1) else p1
    ensures Walked(h, height, visit, data, p, p', {c})
    ensures |p'.trace| > |p.trace| && p'.trace[|p.trace|] == c
    decreases height(l), 0, 0, 0
  {
    var p1 := Visit(visit, c, p);
    VisitTells(visit, data, c, p);
    p' := p1;
    if visit(c, p.data).0 > 0 {
      GroupWalked(h, height, visit, data, c, p1);
      p' := WalkGroup(h, height, visit, c, p1);
    }
    BlockWalked(h, height, visit, data, c, p, p');
  }

  // A child's block and the rest of the list.
  lemma {:induction false} ChildStep<D>(h: Procs, height: Task -> nat, visit: Visitor<D>, data: D, l: Task, i: nat,
                                        j: nat, p: Progress<D>, p1: Progress<D>, p2: Progress<D>)
    requires WellFormed(h, height) && l in h.threads && i < |h.threads[l]| && h.threads[l][i] in h.children
    requires j < |h.children[h.threads[l][i]]| && (p1.stopped ==> p2 == p1)
    requires |p1.trace| > |p.trace| && p1.trace[|p.trace|] == h.children[h.threads[l][i]][j]
    requires Walked(h, height, visit, data, p, p1, {h.children[h.threads[l][i]][j]})
    requires Walked(h, height, visit, data, p1, p2, RootsOf(h, h.threads[l][i], j + 1))
    ensures Walked(h, height, visit, data, p, p2, RootsOf(h, h.threads[l][i], j))
    ensures |p2.trace| > |p.trace| && p2.trace[|p.trace|] == h.children[h.threads[l][i]][j]
  {
    var t := h.threads[l][i];
    RootsNext(h, l, i, j);
    ThenWalked(h, height, visit, data, p, p1, p2, {h.children[t][j]}, RootsOf(h, t, j + 1));
  }

  // One stretch, and then the next unless the visitor stopped.
  lemma {:induction false} ThenWalked<D>(h: Procs, height: Task -> nat, visit: Visitor<D>, data: D, p: Progress<D>,
                                         p1: Progress<D>, p2: Progress<D>, roots: set<Task>, roots': set<Task>)
    requires WellFormed(h, height) && Walked(h, height, visit, data, p, p1, roots) && (p1.stopped ==> p2 == p1)
    requires Walked(h, height, visit, data, p1, p2, roots') && AllBefore(h, roots, roots')
    ensures Walked(h, height, visit, data, p, p2, roots + roots')
    ensures |p1.trace| > |p.trace| ==> |p2.trace| > |p.trace| && p2.trace[|p.trace|] == p1.trace[|p.trace|]
  {
    if p1.stopped {
      WalkedStop(h, height, visit, data, p, p1, roots, roots + roots');
    } else {
      WalkedOn(h, height, visit, data, p, p1, p2, roots, roots');
      assert |p1.trace| > |p.trace| ==> p2.trace[|p.trace|] == p2.trace[..|p1.trace|][|p.trace|];
    }
  }

  lemma {:induction false} NoMoreThreads<D>(h: Procs, height: Task -> nat, visit: Visitor<D>, data: D, l: Task, i: nat,
                                            p: Progress<D>)
    requires WellFormed(h, height) && l in h.threads && i <= |h.threads[l]| && Told(visit, data, p)
    requires forall t :: t in h.threads[l][i..] ==> t in h.leader && h.leader[t] == l
    requires i == |h.threads[l]| || p.stopped
    ensures p == WalkThreads(h, height, visit, l, h.threads[l][i..], p)
    ensures Walked(h, height, visit, data, p, p, RootsFrom(h, l, i)) && (!p.stopped ==> Starts(h, l, i, p, p))
  {
    NoMoreRoots(h, l);
    WalkedNothing(h, height, visit, data, p, RootsFrom(h, l, i));
  }

  lemma {:induction false} ThreadsWalked<D>(h: Procs, height: Task -> nat, visit: Visitor<D>, data: D, l: Task, i: nat,
                                            p: Progress<D>) returns (p': Progress<D>)
    requires WellFormed(h, height) && l in h.threads && i <= |h.threads[l]| && Told(visit, data, p)
    ensures forall t :: t in h.threads[l][i..] ==> t in h.leader && h.leader[t] == l
    ensures p' == WalkThreads(h, height, visit, l, h.threads[l][i..], p)
    ensures Walked(h, height, visit, data, p, p', RootsFrom(h, l, i)) && (!p.stopped ==> Starts(h, l, i, p, p'))
    decreases height(l), 1, |h.threads[l]| - i
  {
    var ts := h.threads[l];
    assert IsGroup(h, l);
    if i == |ts| || p.stopped {
      p' := p;
      NoMoreThreads(h, height, visit, data, l, i, p);
    } else {
      var p1 := ChildrenWalked(h, height, visit, data, l, i, 0, p);
      p' := ThreadsWalked(h, height, visit, data, l, i + 1, p1);
      OneThreadOn(h, height, visit, l, i, p);
      ThreadStep(h, height, visit, data, l, i, p, p1, p');
    }
  }

  // A thread's children and the rest of the group.
  lemma {:induction false} ThreadStep<D>(h: Procs, height: Task -> nat, visit: Visitor<D>, data: D, l: Task, i: nat,
                                         p: Progress<D>, p1: Progress<D>, p2: Progress<D>)
    requires WellFormed(h, height) && l in h.threads && i < |h.threads[l]| && h.threads[l][i] in h.children
    requires Walked(h, height, visit, data, p, p1, RootsOf(h, h.threads[l][i], 0)) && (p1.stopped ==> p2 == p1)
    requires Walked(h, height, visit, data, p1, p2, RootsFrom(h, l, i + 1))
    requires if h.children[h.threads[l][i]] != [] then
        |p1.trace| > |p.trace| && p1.trace[|p.trace|] == h.children[h.threads[l][i]][0]
      else p1 == p && Starts(h, l, i + 1, p1, p2)
    ensures Walked(h, height, visit, data, p, p2, RootsFrom(h, l, i)) && Starts(h, l, i, p, p2)
  {
    RootsSplit(h, l, i);
    ThenWalked(h, height, visit, data, p, p1, p2, RootsOf(h, h.threads[l][i], 0), RootsFrom(h, l, i + 1));
    FirstOf(h, l, i, p, p1, p2);
  }

  lemma {:induction false} FirstOf<D>(h: Procs, l: Task, i: nat, p: Progress<D>, p1: Progress<D>, p2: Progress<D>)
    requires l in h.threads && i < |h.threads[l]| && h.threads[l][i] in h.children
    requires if h.children[h.threads[l][i]] != [] then
        |p2.trace| > |p.trace| && p2.trace[|p.trace|] == h.children[h.threads[l][i]][0]
      else p1 == p && Starts(h, l, i + 1, p1, p2)
    ensures Starts(h, l, i, p, p2)
  {
    var cs := h.children[h.threads[l][i]];
    if cs != [] {
      assert ChildAt(h, l, i, 0, cs[0]);
      assert FirstFrom(h, l, i, cs[0]);
    } else if HasFirst(h, l, i) {
      var c :| FirstFrom(h, l, i, c);
      Later(h, l, i, c);
      Sooner(h, l, i, p2.trace[|p.trace|]);
    }
  }

  // A thread without children does not matter.
  lemma {:induction false} Later(h: Procs, l: Task, i: nat, c: Task)
    requires l in h.threads && i < |h.threads[l]| && h.threads[l][i] in h.children && h.children[h.threads[l][i]] == []
    requires FirstFrom(h, l, i, c)
    ensures FirstFrom(h, l, i + 1, c)
  {
    var q :| i <= q && ChildAt(h, l, q, 0, c) && forall r, j, d :: i <= r < q ==> !ChildAt(h, l, r, j, d);
    assert i + 1 <= q;
  }

  lemma {:induction false} Sooner(h: Procs, l: Task, i: nat, c: Task)
    requires l in h.threads && i < |h.threads[l]| && h.threads[l][i] in h.children && h.children[h.threads[l][i]] == []
    requires FirstFrom(h, l, i + 1, c)
    ensures FirstFrom(h, l, i, c)
  {
    var q :| i + 1 <= q && ChildAt(h, l, q, 0, c) && forall r, j, d :: i + 1 <= r < q ==> !ChildAt(h, l, r, j, d);
    assert forall r, j, d :: i <= r < q ==> !ChildAt(h, l, r, j, d);
  }

  lemma {:induction false} GroupWalked<D>(h: Procs, height: Task -> nat, visit: Visitor<D>, data: D, l: Task,
                                          p: Progress<D>)
    requires WellFormed(h, height) && l in h.threads && Told(visit, data, p) && !p.stopped
    ensures Walked(h, height, visit, data, p, WalkGroup(h, height, visit, l, p), RootsFrom(h, l, 0))
    ensures Starts(h, l, 0, p, WalkGroup(h, height, visit, l, p))
    decreases height(l), 2, 0
  {
    assert h.threads[l][0..] == h.threads[l];
    var p' := ThreadsWalked(h, height, visit, data, l, 0, p);
  }

  // ---------------------------------------------------------------- the order is an order

  lemma {:induction false} BelowHeight(h: Procs, height: Task -> nat, x: Task, a: Task)
    requires WellFormed(h, height) && Below(h, height, x, a)
    ensures a != x ==> height(a) < height(x)
  {
  }

  lemma {:induction false} BelowThrough(h: Procs, height: Task -> nat, x: Task, a: Task, b: Task)
    requires WellFormed(h, height) && Below(h, height, x, a) && Below(h, height, a, b)
    ensures Below(h, height, x, b)
    decreases height(a) - height(b)
  {
    if b != a { BelowThrough(h, height, x, a, h.leader[h.realParent[b]]); }
  }

  // Two tasks on one way up: one is below the other.
  lemma {:induction false} OneWayUp(h: Procs, height: Task -> nat, x: Task, y: Task, a: Task)
    requires WellFormed(h, height) && Below(h, height, x, a) && Below(h, height, y, a)
    ensures Below(h, height, x, y) || Below(h, height, y, x)
    decreases height(x) - height(a)
  {
    if a != x && a != y { OneWayUp(h, height, x, y, h.leader[h.realParent[a]]); }
  }

  // Children of one group.
  ghost predicate Siblings(h: Procs, x: Task, y: Task)
  {
    exists g :: ChildOf(h, g, x) && ChildOf(h, g, y)
  }

  // What x is below, its siblings are below too.
  lemma {:induction false} SiblingsBelow(h: Procs, height: Task -> nat, x: Task, y: Task, top: Task)
    requires WellFormed(h, height) && Siblings(h, x, y) && Below(h, height, top, x) && x != top
    ensures Below(h, height, top, y)
  {
    var g :| ChildOf(h, g, x) && ChildOf(h, g, y);
    ChildFacts(h, height, g, x);
    ChildFacts(h, height, g, y);
  }

  // Nothing is below two siblings.
  lemma {:induction false} NotBoth(h: Procs, height: Task -> nat, x: Task, y: Task, a: Task)
    requires WellFormed(h, height) && Siblings(h, x, y) && Below(h, height, x, a) && Below(h, height, y, a)
    ensures x == y
  {
    var g :| ChildOf(h, g, x) && ChildOf(h, g, y);
    OneWayUp(h, height, x, y, a);
    SiblingsApart(h, height, g, x, y);
    SiblingsApart(h, height, g, y, x);
  }

  lemma {:induction false} SiblingsApart(h: Procs, height: Task -> nat, g: Task, x: Task, y: Task)
    requires WellFormed(h, height) && ChildOf(h, g, x) && ChildOf(h, g, y)
    ensures Below(h, height, x, y) ==> x == y
  {
    ChildFacts(h, height, g, x);
    ChildFacts(h, height, g, y);
    assert !Below(h, height, x, g);
  }

  lemma {:induction false} BeforeIsSiblings(h: Procs, x: Task, y: Task)
    requires Before(h, x, y)
    ensures Siblings(h, x, y) && Siblings(h, y, x)
  {
    var g, i, j, i', j' :| Earlier(h, g, i, j, i', j', x, y);
    assert ChildOf(h, g, x) && ChildOf(h, g, y);
  }

  // A child has one place.
  lemma {:induction false} OnePlace(h: Procs, height: Task -> nat, g: Task, i: nat, j: nat, g': Task, i': nat, j': nat,
                                    c: Task)
    requires WellFormed(h, height) && ChildAt(h, g, i, j, c) && ChildAt(h, g', i', j', c)
    ensures g == g' && i == i' && j == j'
  {
    PlaceFacts(h, height, g, i, j, c);
    PlaceFacts(h, height, g', i', j', c);
    assert IsGroup(h, g) && IsFamily(h, height, h.threads[g][i]);
  }

  lemma {:induction false} PlaceFacts(h: Procs, height: Task -> nat, g: Task, i: nat, j: nat, c: Task)
    requires WellFormed(h, height) && ChildAt(h, g, i, j, c)
    ensures c in h.realParent && h.realParent[c] == h.threads[g][i] && h.threads[g][i] in h.leader
    ensures h.leader[h.threads[g][i]] == g
  {
    assert IsGroup(h, g);
    assert IsFamily(h, height, h.threads[g][i]);
    assert IsChild(h, height, h.threads[g][i], h.children[h.threads[g][i]][j]);
  }

  lemma {:induction false} BeforeOneWay(h: Procs, height: Task -> nat, x: Task, y: Task)
    requires WellFormed(h, height) && Before(h, x, y)
    ensures !Before(h, y, x) && x != y
  {
    var g, i, j, i', j' :| Earlier(h, g, i, j, i', j', x, y);
    forall f, p, q, p', q' ensures !Earlier(h, f, p, q, p', q', y, x) && x != y {
      EarlierOneWay(h, height, g, i, j, i', j', f, p, q, p', q', x, y);
    }
  }

  lemma {:induction false} EarlierOneWay(h: Procs, height: Task -> nat, g: Task, i: nat, j: nat, i': nat, j': nat,
                                         f: Task, p: nat, q: nat, p': nat, q': nat, x: Task, y: Task)
    requires WellFormed(h, height) && Earlier(h, g, i, j, i', j', x, y)
    ensures !Earlier(h, f, p, q, p', q', y, x) && x != y
  {
    if Earlier(h, f, p, q, p', q', y, x) {
      OnePlace(h, height, g, i, j, f, p', q', x);
      OnePlace(h, height, g, i', j', f, p, q, y);
    }
    if x == y { OnePlace(h, height, g, i, j, g, i', j', x); }
  }

  // The preorder goes one way only, so it fixes the order of any set of tasks.
  lemma {:induction false} PrecedesOneWay(h: Procs, height: Task -> nat, a: Task, b: Task)
    requires WellFormed(h, height) && Precedes(h, height, a, b)
    ensures a != b && !Precedes(h, height, b, a)
  {
    if a != b && Below(h, height, a, b) {
      BelowIsNotAfter(h, height, a, b);
    } else {
      var x, y :| PartAt(h, height, x, y, a, b);
      PartedOneWay(h, height, x, y, a, b);
    }
  }

  lemma {:induction false} BelowIsNotAfter(h: Procs, height: Task -> nat, a: Task, b: Task)
    requires WellFormed(h, height) && a != b && Below(h, height, a, b)
    ensures !Precedes(h, height, b, a)
  {
    BelowHeight(h, height, a, b);
    if Below(h, height, b, a) { BelowHeight(h, height, b, a); }
    forall x, y ensures !PartAt(h, height, x, y, b, a) { BelowDoNotPart(h, height, x, y, a, b); }
  }

  lemma {:induction false} BelowDoNotPart(h: Procs, height: Task -> nat, x: Task, y: Task, a: Task, b: Task)
    requires WellFormed(h, height) && Below(h, height, a, b)
    ensures !PartAt(h, height, x, y, b, a)
  {
    if PartAt(h, height, x, y, b, a) {
      BeforeIsSiblings(h, x, y);
      BeforeOneWay(h, height, x, y);
      BelowThrough(h, height, y, a, b);
      NotBoth(h, height, x, y, b);
    }
  }

  lemma {:induction false} PartedOneWay(h: Procs, height: Task -> nat, x: Task, y: Task, a: Task, b: Task)
    requires WellFormed(h, height) && PartAt(h, height, x, y, a, b)
    ensures a != b && !Precedes(h, height, b, a)
  {
    BeforeIsSiblings(h, x, y);
    BeforeOneWay(h, height, x, y);
    PartedNotBelow(h, height, x, y, a, b);
    forall x', y' ensures !PartAt(h, height, x', y', b, a) { PartedOnce(h, height, x, y, x', y', a, b); }
  }

  lemma {:induction false} PartedOnce(h: Procs, height: Task -> nat, x: Task, y: Task, x': Task, y': Task, a: Task,
                                      b: Task)
    requires WellFormed(h, height) && PartAt(h, height, x, y, a, b)
    ensures !PartAt(h, height, x', y', b, a)
  {
    if PartAt(h, height, x', y', b, a) {
      BeforeIsSiblings(h, x, y);
      BeforeOneWay(h, height, x, y);
      BeforeIsSiblings(h, x', y');
      BeforeOneWay(h, height, x', y');
      PartedTwice(h, height, x, y, x', y', a, b);
    }
  }

  lemma {:induction false} PartedNotBelow(h: Procs, height: Task -> nat, x: Task, y: Task, a: Task, b: Task)
    requires WellFormed(h, height) && Siblings(h, x, y) && x != y && Below(h, height, x, a) && Below(h, height, y, b)
    ensures !Below(h, height, b, a)
  {
    if Below(h, height, b, a) {
      BelowThrough(h, height, y, b, a);
      NotBoth(h, height, x, y, a);
    }
  }

  // The ways up of a and b part at one place only.
  lemma {:induction false} PartedTwice(h: Procs, height: Task -> nat, x: Task, y: Task, x': Task, y': Task, a: Task,
                                       b: Task)
    requires WellFormed(h, height)
    requires Siblings(h, x, y) && Siblings(h, y, x) && Siblings(h, y', x') && Siblings(h, x', y')
    requires Below(h, height, x, a) && Below(h, height, y, b) && Below(h, height, x', b) && Below(h, height, y', a)
    ensures x == y || x' == y' || (x == y' && y == x')
  {
    OneWayUp(h, height, x, y', a);
    if x == y' {
      PartedHere(h, height, y, x, x', b);
    } else if Below(h, height, x, y') {
      PartedLower(h, height, x, y, x', y', b);
    } else {
      PartedLower(h, height, y', x', y, x, b);
    }
  }

  lemma {:induction false} PartedHere(h: Procs, height: Task -> nat, x: Task, y: Task, z: Task, b: Task)
    requires WellFormed(h, height) && Siblings(h, x, y) && Siblings(h, z, y)
    requires Below(h, height, x, b) && Below(h, height, z, b)
    ensures x == z
  {
    SameFamily(h, height, x, y, z);
    NotBoth(h, height, x, z, b);
  }

  lemma {:induction false} PartedLower(h: Procs, height: Task -> nat, x: Task, y: Task, x': Task, y': Task, b: Task)
    requires WellFormed(h, height) && Siblings(h, x, y) && Siblings(h, y', x')
    requires Below(h, height, x, y') && x != y' && Below(h, height, x', b) && Below(h, height, y, b)
    ensures x == y
  {
    SiblingsBelow(h, height, y', x', x);
    BelowThrough(h, height, x, x', b);
    NotBoth(h, height, x, y, b);
  }

  lemma {:induction false} SameFamily(h: Procs, height: Task -> nat, x: Task, y: Task, z: Task)
    requires WellFormed(h, height) && Siblings(h, x, y) && Siblings(h, z, y)
    ensures Siblings(h, x, z)
  {
    var g :| ChildOf(h, g, x) && ChildOf(h, g, y);
    var g' :| ChildOf(h, g', z) && ChildOf(h, g', y);
    ChildFacts(h, height, g, y);
    ChildFacts(h, height, g', y);
  }

  lemma {:induction false} PreorderDistinct(h: Procs, height: Task -> nat, ts: seq<Task>)
    requires WellFormed(h, height) && Preorder(h, height, ts)
    ensures Distinct(ts)
  {
    forall a, b | 0 <= a < b < |ts| ensures ts[a] != ts[b] {
      assert Precedes(h, height, ts[a], ts[b]);
      PrecedesOneWay(h, height, ts[a], ts[b]);
    }
  }

  // ---------------------------------------------------------------- the whole walk

  // The walk has come to c: it is a child of the first group or of a group whose
  // leader was shown and got a positive answer.
  ghost predicate Exposed<D>(h: Procs, visit: Visitor<D>, data: D, top: Task, trace: seq<Task>, c: Task)
  {
    ChildOf(h, top, c)
    || exists k :: 0 <= k < |trace| && Answer(visit, data, trace, k) > 0 && ChildOf(h, trace[k], c)
  }

  // What a walk from group `top` that began with `data` has done: the data went
  // from task to task; a negative answer ended it and nothing else did; without
  // one, exactly the exposed tasks were shown, and with one, only such; each once,
  // in preorder; a positive answer is followed at once by the first child below
  // it, and below any other nothing is shown.
  ghost predicate IsWalk<D>(h: Procs, height: Task -> nat, visit: Visitor<D>, data: D, top: Task, trace: seq<Task>,
                            out: D, stopped: bool)
    requires WellFormed(h, height)
  {
    && out == DataAfter(visit, data, trace) && (stopped ==> |trace| > 0)
    && (forall k :: 0 <= k < |trace| ==> (Answer(visit, data, trace, k) < 0 <==> stopped && k == |trace| - 1))
    && (forall c :: c in trace ==> Exposed(h, visit, data, top, trace, c))
    && (!stopped ==> forall c :: Exposed(h, visit, data, top, trace, c) ==> c in trace)
    && Distinct(trace) && Preorder(h, height, trace) && Descends(h, trace, Opened(visit, data, trace))
    && (forall k, c {:trigger ChildOf(h, trace[k], c)} ::
          0 <= k < |trace| && c in trace && ChildOf(h, trace[k], c) ==> Answer(visit, data, trace, k) > 0)
    && (HasFirst(h, top, 0) ==> |trace| > 0 && FirstFrom(h, top, 0, trace[0]))
  }

  lemma {:induction false} RecursionIsWalk<D>(h: Procs, height: Task -> nat, visit: Visitor<D>, data: D, top: Task)
    requires WellFormed(h, height) && top in h.threads
    ensures var p := WalkGroup(h, height, visit, top, Progress([], data, false));
      IsWalk(h, height, visit, data, top, p.trace, p.data, p.stopped)
  {
    var p0 := Progress([], data, false);
    var p := WalkGroup(h, height, visit, top, p0);
    GroupWalked(h, height, visit, data, top, p0);
    var op := Opened(visit, data, p.trace);
    assert p.trace[0..] == p.trace && op[0..] == op;
    PreorderDistinct(h, height, p.trace);
    forall k | 0 <= k < |p.trace| ensures p.trace[k] != top { AllBelow(h, height, p.trace, top, k); }
    forall c | c in p.trace ensures Exposed(h, visit, data, top, p.trace, c) {
      var k :| 0 <= k < |p.trace| && p.trace[k] == c;
      assert RootedAt(h, p.trace, op, RootsFrom(h, top, 0), k);
      RootsAt(h, top, 0, c);
    }
    if !p.stopped {
      forall c | Exposed(h, visit, data, top, p.trace, c) ensures c in p.trace { RootsAt(h, top, 0, c); }
    }
    forall k, c | 0 <= k < |p.trace| && c in p.trace && ChildOf(h, p.trace[k], c)
      ensures Answer(visit, data, p.trace, k) > 0
    {
      OnlyBelowPositive(h, height, visit, data, top, p.trace, k, c);
    }
  }

  // What is exposed below a task is so by that task's own answer.
  lemma {:induction false} OnlyBelowPositive<D>(h: Procs, height: Task -> nat, visit: Visitor<D>, data: D, top: Task,
                                                trace: seq<Task>, k: nat, c: Task)
    requires WellFormed(h, height) && k < |trace| && trace[k] != top && Distinct(trace)
    requires ChildOf(h, trace[k], c) && Exposed(h, visit, data, top, trace, c)
    ensures Answer(visit, data, trace, k) > 0
  {
    ChildFacts(h, height, trace[k], c);
    if ChildOf(h, top, c) {
      ChildFacts(h, height, top, c);
    } else {
      var q :| 0 <= q < |trace| && Answer(visit, data, trace, q) > 0 && ChildOf(h, trace[q], c);
      ChildFacts(h, height, trace[q], c);
      assert q == k;
    }
  }
}
