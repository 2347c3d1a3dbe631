// walk_process_tree: a walk driven by three pointers and two jumps, proved to
// call its visitor exactly as a plain recursive preorder traversal would.

module ProcessTree {
  import opened Wrappers
  import opened ProcessWalk

  // ---------------------------------------------------------------- cursors

  function IndexOf(s: seq<Task>, x: Task): (i: nat)
    requires x in s
    ensures i < |s| && s[i] == x
  {
    if s[0] == x then 0 else 1 + IndexOf(s[1..], x)
  }

  function First(s: seq<Task>): Option<Task>
  {
    if s == [] then None else Some(s[0])
  }

  // The list element after x (list_next_entry, next_thread).
  function After(s: seq<Task>, x: Task): Option<Task>
    requires x in s
  {
    var i := IndexOf(s, x);
    if i + 1 < |s| then Some(s[i + 1]) else None
  }

  // Cursor c stands at index i of the list, or past its end.
  predicate AtIndex(s: seq<Task>, c: Option<Task>, i: nat)
  {
    i <= |s| && c == if i < |s| then Some(s[i]) else None
  }

  lemma {:induction false} AfterAtIndex(s: seq<Task>, x: Task, i: nat)
    requires Distinct(s) && i < |s| && s[i] == x
    ensures IndexOf(s, x) == i && AtIndex(s, After(s, x), i + 1)
  {
  }

  // The source's three pointers; a None child has run off the end of its list.
  datatype Cursor = Cursor(leader: Task, parent: Task, child: Option<Task>)

  // down: the first child of the first thread of a group
  function Down(h: Procs, l: Task): Cursor
    requires l in h.threads && h.threads[l] != [] && h.threads[l][0] in h.children
  {
    OnThread(h, l, h.threads[l][0])
  }

  function OnThread(h: Procs, l: Task, t: Task): Cursor
    requires t in h.children
  {
    Cursor(l, t, First(h.children[t]))
  }

  function NextSibling(h: Procs, cur: Cursor): Cursor
    requires cur.child.Some? && cur.parent in h.children && cur.child.value in h.children[cur.parent]
  {
    cur.(child := After(h.children[cur.parent], cur.child.value))
  }

  // up: the place in the group above is recovered from the finished leader alone.
  function PastChild(h: Procs, c: Task): Cursor
    requires c in h.realParent && h.realParent[c] in h.leader && h.realParent[c] in h.children
    requires c in h.children[h.realParent[c]]
  {
    var parent := h.realParent[c];
    Cursor(h.leader[parent], parent, After(h.children[parent], c))
  }

  // Where the walk goes when a children list is exhausted: the next thread of
  // the group, or back up, or out.
  function Onward(h: Procs, top: Task, cur: Cursor): Option<Cursor>
    requires CanGoOn(h, top, cur)
  {
    var next := After(h.threads[cur.leader], cur.parent);
    if next.Some? then Some(OnThread(h, cur.leader, next.value))
    else if cur.leader != top then Some(PastChild(h, cur.leader))
    else None
  }

  // The pointers Onward follows are there.
  predicate CanGoOn(h: Procs, top: Task, cur: Cursor)
  {
    && cur.leader in h.threads && cur.parent in h.threads[cur.leader]
    && (var next := After(h.threads[cur.leader], cur.parent);
        if next.Some? then next.value in h.children
        else cur.leader != top ==>
          && cur.leader in h.realParent && h.realParent[cur.leader] in h.leader
          && h.realParent[cur.leader] in h.children && cur.leader in h.children[h.realParent[cur.leader]])
  }

  // The cursor is at child j of thread i of its group.
  ghost predicate On(h: Procs, cur: Cursor, i: nat, j: nat)
  {
    && cur.leader in h.threads && i < |h.threads[cur.leader]| && h.threads[cur.leader][i] == cur.parent
    && cur.parent in h.children && AtIndex(h.children[cur.parent], cur.child, j)
  }

  // ---------------------------------------------------------------- what is left

  // Group l continued from child j of thread i.
  ghost function Rest<D>(h: Procs, height: Task -> nat, visit: Visitor<D>, l: Task, i: nat, j: nat,
                         p: Progress<D>): Progress<D>
    requires WellFormed(h, height) && l in h.threads && i < |h.threads[l]| && j <= |h.children[h.threads[l][i]]|
  {
    var t := h.threads[l][i];
    WalkThreads(h, height, visit, l, h.threads[l][i + 1..],
                WalkChildren(h, height, visit, t, h.children[t][j..], p))
  }

  // Everything after group l: the rest of the group above it, and so on to top.
  ghost function Finish<D>(h: Procs, height: Task -> nat, visit: Visitor<D>, top: Task, l: Task,
                           p: Progress<D>): Progress<D>
    requires WellFormed(h, height) && Below(h, height, top, l)
    decreases height(top) - height(l)
  {
    if l == top || p.stopped then p
    else
      var t := h.realParent[l];
      var g := h.leader[t];
      Finish(h, height, visit, top, g,
             Rest(h, height, visit, g, IndexOf(h.threads[g], t), IndexOf(h.children[t], l) + 1, p))
  }

  lemma {:induction false} StoppedStays<D>(h: Procs, height: Task -> nat, visit: Visitor<D>, top: Task, l: Task, i: nat,
                                           j: nat, p: Progress<D>)
    requires WellFormed(h, height) && Below(h, height, top, l) && i < |h.threads[l]|
    requires j <= |h.children[h.threads[l][i]]|
    requires p.stopped
    ensures Finish(h, height, visit, top, l, Rest(h, height, visit, l, i, j, p)) == p
  {
  }

  // ---------------------------------------------------------------- termination

  ghost function GroupSize(h: Procs, height: Task -> nat, l: Task): nat
    requires WellFormed(h, height) && l in h.threads
    decreases height(l), 2, 0
  {
    1 + ThreadsSize(h, height, l, h.threads[l])
  }

  ghost function ThreadsSize(h: Procs, height: Task -> nat, l: Task, ts: seq<Task>): nat
    requires WellFormed(h, height)
    requires forall t :: t in ts ==> t in h.leader && h.leader[t] == l
    decreases height(l), 1, |ts|
  {
    if ts == [] then 0
    else 1 + ChildrenSize(h, height, ts[0], h.children[ts[0]]) + ThreadsSize(h, height, l, ts[1..])
  }

  ghost function ChildrenSize(h: Procs, height: Task -> nat, t: Task, cs: seq<Task>): nat
    requires WellFormed(h, height) && t in h.leader
    requires forall c :: c in cs ==> IsChild(h, height, t, c)
    decreases height(h.leader[t]), 0, |cs|
  {
    if cs == [] then 0
    else
      assert IsChild(h, height, t, cs[0]);
      1 + GroupSize(h, height, cs[0]) + ChildrenSize(h, height, t, cs[1..])
  }

  ghost function RestSize(h: Procs, height: Task -> nat, l: Task, i: nat, j: nat): nat
    requires WellFormed(h, height) && l in h.threads && i < |h.threads[l]| && j <= |h.children[h.threads[l][i]]|
  {
    var t := h.threads[l][i];
    1 + ThreadsSize(h, height, l, h.threads[l][i + 1..]) + ChildrenSize(h, height, t, h.children[t][j..])
  }

  ghost function UpSize(h: Procs, height: Task -> nat, top: Task, l: Task): nat
    requires WellFormed(h, height) && Below(h, height, top, l)
    decreases height(top) - height(l)
  {
    if l == top then 0
    else
      var t := h.realParent[l];
      var g := h.leader[t];
      RestSize(h, height, g, IndexOf(h.threads[g], t), IndexOf(h.children[t], l) + 1)
      + UpSize(h, height, top, g)
  }

  // ---------------------------------------------------------------- steps of the walk

  lemma {:induction false} NextThread<D>(h: Procs, height: Task -> nat, visit: Visitor<D>, l: Task, i: nat,
                                         p: Progress<D>)
    requires WellFormed(h, height) && l in h.threads && i + 1 < |h.threads[l]| && !p.stopped
    ensures var j := |h.children[h.threads[l][i]]|;
            && Rest(h, height, visit, l, i, j, p) == Rest(h, height, visit, l, i + 1, 0, p)
            && RestSize(h, height, l, i + 1, 0) < RestSize(h, height, l, i, j)
  {
    var ts := h.threads[l];
    assert ts[i + 1..][0] == ts[i + 1] && ts[i + 1..][1..] == ts[i + 2..];
    assert h.children[ts[i + 1]][0..] == h.children[ts[i + 1]];
    NextThreadSize(h, height, l, i);
  }

  lemma {:induction false} NextThreadSize(h: Procs, height: Task -> nat, l: Task, i: nat)
    requires WellFormed(h, height) && l in h.threads && i + 1 < |h.threads[l]|
    ensures RestSize(h, height, l, i + 1, 0) < RestSize(h, height, l, i, |h.children[h.threads[l][i]]|)
  {
    var ts := h.threads[l];
    assert ts[i + 1..][0] == ts[i + 1] && ts[i + 1..][1..] == ts[i + 2..];
    assert h.children[ts[i + 1]][0..] == h.children[ts[i + 1]];
  }

  lemma {:induction false} NothingLeft<D>(h: Procs, height: Task -> nat, visit: Visitor<D>, l: Task, i: nat, j: nat,
                                          p: Progress<D>)
    requires WellFormed(h, height) && l in h.threads && i + 1 == |h.threads[l]| && j == |h.children[h.threads[l][i]]|
    ensures Rest(h, height, visit, l, i, j, p) == p
  {
    assert h.threads[l][i + 1..] == [] && h.children[h.threads[l][i]][j..] == [];
  }

  lemma {:induction false} NextChild<D>(h: Procs, height: Task -> nat, visit: Visitor<D>, l: Task, i: nat, j: nat,
                                        p: Progress<D>)
    requires WellFormed(h, height) && l in h.threads && i < |h.threads[l]|
    requires j < |h.children[h.threads[l][i]]| && !p.stopped
    ensures var c := h.children[h.threads[l][i]][j];
            var p' := Visit(visit, c, p);
            var below := if visit(c, p.data).0 > 0 then WalkGroup(h, height, visit, c, p') else p';
            && IsChild(h, height, h.threads[l][i], c)
            && Rest(h, height, visit, l, i, j, p) == Rest(h, height, visit, l, i, j + 1, below)
            && RestSize(h, height, l, i, j) == RestSize(h, height, l, i, j + 1) + 1 + GroupSize(h, height, c)
  {
    var t := h.threads[l][i];
    var cs := h.children[t];
    assert cs[j..][0] == cs[j] && cs[j..][1..] == cs[j + 1..];
  }

  lemma {:induction false} EnterGroup<D>(h: Procs, height: Task -> nat, visit: Visitor<D>, l: Task, p: Progress<D>)
    requires WellFormed(h, height) && l in h.threads && !p.stopped
    ensures |h.threads[l]| > 0
    ensures WalkGroup(h, height, visit, l, p) == Rest(h, height, visit, l, 0, 0, p)
    ensures GroupSize(h, height, l) == 1 + RestSize(h, height, l, 0, 0)
  {
    assert l in h.threads[l] by { assert h.leader[l] == l; }
    var t := h.threads[l][0];
    assert h.children[t][0..] == h.children[t];
  }

  // A child knows its place: real_parent and group_leader lead back to it.
  lemma {:induction false} WayBack(h: Procs, height: Task -> nat, top: Task, l: Task, i: nat, j: nat)
    requires WellFormed(h, height) && Below(h, height, top, l) && i < |h.threads[l]|
    requires j < |h.children[h.threads[l][i]]|
    ensures var (t, c) := (h.threads[l][i], h.children[h.threads[l][i]][j]);
            && c in h.realParent && h.realParent[c] == t && t in h.leader && h.leader[t] == l
            && IndexOf(h.threads[l], t) == i && IndexOf(h.children[t], c) == j
            && c != top && Below(h, height, top, c)
  {
    var t := h.threads[l][i];
    var c := h.children[t][j];
    assert IsGroup(h, l) && IsFamily(h, height, t) && IsChild(h, height, t, c);
    AfterAtIndex(h.threads[l], t, i);
    AfterAtIndex(h.children[t], c, j);
  }

  // Child j of thread i of group l: going down to it and coming back up later
  // is the detour the recursion makes.
  lemma {:induction false} Descend<D>(h: Procs, height: Task -> nat, visit: Visitor<D>, top: Task, l: Task, i: nat,
                                      j: nat, c: Task, p: Progress<D>)
    requires WellFormed(h, height) && Below(h, height, top, l) && i < |h.threads[l]|
    requires j < |h.children[h.threads[l][i]]| && c == h.children[h.threads[l][i]][j] && !p.stopped
    ensures Below(h, height, top, c)
    ensures Finish(h, height, visit, top, c, p)
      == Finish(h, height, visit, top, l, Rest(h, height, visit, l, i, j + 1, p))
    ensures UpSize(h, height, top, c) == RestSize(h, height, l, i, j + 1) + UpSize(h, height, top, l)
  {
    DescendFinish(h, height, visit, top, l, i, j, c, p);
    DescendSize(h, height, top, l, i, j, c);
  }

  lemma {:induction false} DescendFinish<D>(h: Procs, height: Task -> nat, visit: Visitor<D>, top: Task, l: Task,
                                            i: nat, j: nat, c: Task, p: Progress<D>)
    requires WellFormed(h, height) && Below(h, height, top, l) && i < |h.threads[l]|
    requires j < |h.children[h.threads[l][i]]| && c == h.children[h.threads[l][i]][j] && !p.stopped
    ensures Below(h, height, top, c)
    ensures Finish(h, height, visit, top, c, p)
      == Finish(h, height, visit, top, l, Rest(h, height, visit, l, i, j + 1, p))
  {
    WayBack(h, height, top, l, i, j);
  }

  lemma {:induction false} DescendSize(h: Procs, height: Task -> nat, top: Task, l: Task, i: nat, j: nat, c: Task)
    requires WellFormed(h, height) && Below(h, height, top, l) && i < |h.threads[l]|
    requires j < |h.children[h.threads[l][i]]| && c == h.children[h.threads[l][i]][j]
    ensures Below(h, height, top, c)
    ensures UpSize(h, height, top, c) == RestSize(h, height, l, i, j + 1) + UpSize(h, height, top, l)
  {
    WayBack(h, height, top, l, i, j);
  }

  lemma {:induction false} WalkThenFinish<D>(h: Procs, height: Task -> nat, visit: Visitor<D>, top: Task, l: Task,
                                             i: nat, j: nat, c: Task, p: Progress<D>)
    requires WellFormed(h, height) && Below(h, height, top, l) && i < |h.threads[l]|
    requires j < |h.children[h.threads[l][i]]| && c == h.children[h.threads[l][i]][j] && !p.stopped
    ensures Below(h, height, top, c) && |h.threads[c]| > 0
    ensures Finish(h, height, visit, top, c, Rest(h, height, visit, c, 0, 0, p))
         == Finish(h, height, visit, top, l, Rest(h, height, visit, l, i, j + 1, WalkGroup(h, height, visit, c, p)))
  {
    var q := WalkGroup(h, height, visit, c, p);
    Descend(h, height, visit, top, l, i, j, c, p);
    EnterGroup(h, height, visit, c, p);
    if q.stopped {
      StoppedStays(h, height, visit, top, l, i, j + 1, q);
    } else {
      Descend(h, height, visit, top, l, i, j, c, q);
    }
  }

  // With p done, the walk stands at child j of thread i of group l, and what
  // it still has to do leads to `whole`.
  ghost predicate Standing<D>(h: Procs, height: Task -> nat, visit: Visitor<D>, top: Task, cur: Cursor, i: nat, j: nat,
                              p: Progress<D>, whole: Progress<D>)
    requires WellFormed(h, height)
  {
    && On(h, cur, i, j) && Below(h, height, top, cur.leader)
    && Finish(h, height, visit, top, cur.leader, Rest(h, height, visit, cur.leader, i, j, p)) == whole
  }

  ghost function Remaining(h: Procs, height: Task -> nat, top: Task, cur: Cursor, i: nat, j: nat): nat
    requires WellFormed(h, height)
  {
    if On(h, cur, i, j) && Below(h, height, top, cur.leader)
    then RestSize(h, height, cur.leader, i, j) + UpSize(h, height, top, cur.leader) else 0
  }

  // The visitor prunes at the current child.
  lemma {:induction false} AtPruned<D>(h: Procs, height: Task -> nat, visit: Visitor<D>, top: Task, cur: Cursor, i: nat,
                                       j: nat, p: Progress<D>, p': Progress<D>, whole: Progress<D>)
    requires WellFormed(h, height) && Standing(h, height, visit, top, cur, i, j, p, whole)
    requires cur.child.Some? && !p.stopped
    requires visit(cur.child.value, p.data).0 == 0 && p' == Visit(visit, cur.child.value, p)
    ensures cur.child.value in h.children[cur.parent]
    ensures Standing(h, height, visit, top, NextSibling(h, cur), i, j + 1, p', whole)
    ensures Remaining(h, height, top, NextSibling(h, cur), i, j + 1) < Remaining(h, height, top, cur, i, j)
  {
    assert On(h, NextSibling(h, cur), i, j + 1) by {
      assert IsFamily(h, height, cur.parent);
      AfterAtIndex(h.children[cur.parent], cur.child.value, j);
    }
    NextChild(h, height, visit, cur.leader, i, j, p);
  }

  // The visitor wants to see below the current child.
  lemma {:induction false} AtDescent<D>(h: Procs, height: Task -> nat, visit: Visitor<D>, top: Task, cur: Cursor,
                                        i: nat, j: nat, p: Progress<D>, p': Progress<D>, whole: Progress<D>)
    requires WellFormed(h, height) && Standing(h, height, visit, top, cur, i, j, p, whole)
    requires cur.child.Some? && !p.stopped
    requires visit(cur.child.value, p.data).0 > 0 && p' == Visit(visit, cur.child.value, p)
    ensures CanDescend(h, height, visit, top, cur, i, j, p', whole)
  {
    var (l, c) := (cur.leader, cur.child.value);
    NextChild(h, height, visit, l, i, j, p);
    GoingDown(h, height, visit, top, cur, i, j, p');
    WalkThenFinish(h, height, visit, top, l, i, j, c, p');
  }

  ghost predicate CanDescend<D>(h: Procs, height: Task -> nat, visit: Visitor<D>, top: Task, cur: Cursor, i: nat,
                                j: nat, p': Progress<D>, whole: Progress<D>)
    requires WellFormed(h, height) && cur.child.Some?
  {
    var c := cur.child.value;
    && c in h.threads && h.threads[c] != [] && h.threads[c][0] in h.children
    && Standing(h, height, visit, top, Down(h, c), 0, 0, p', whole)
    && Remaining(h, height, top, Down(h, c), 0, 0) < Remaining(h, height, top, cur, i, j)
  }

  lemma {:induction false} GoingDown<D>(h: Procs, height: Task -> nat, visit: Visitor<D>, top: Task, cur: Cursor,
                                        i: nat, j: nat, p: Progress<D>)
    requires WellFormed(h, height) && On(h, cur, i, j) && Below(h, height, top, cur.leader) && cur.child.Some?
    requires !p.stopped
    ensures var c := cur.child.value;
            && c in h.threads && h.threads[c] != [] && h.threads[c][0] in h.children
            && On(h, Down(h, c), 0, 0) && Below(h, height, top, c)
            && Remaining(h, height, top, Down(h, c), 0, 0) < Remaining(h, height, top, cur, i, j)
  {
    var (l, c) := (cur.leader, cur.child.value);
    NextChild(h, height, visit, l, i, j, p);
    EnterGroup(h, height, visit, c, p);
    Descend(h, height, visit, top, l, i, j, c, p);
    DownIsOn(h, height, c);
  }

  lemma {:induction false} DownIsOn(h: Procs, height: Task -> nat, c: Task)
    requires WellFormed(h, height) && c in h.threads && |h.threads[c]| > 0
    ensures h.threads[c][0] in h.children && On(h, Down(h, c), 0, 0)
  {
    assert IsGroup(h, c);
  }

  // The visitor asks to stop.
  lemma {:induction false} AtStop<D>(h: Procs, height: Task -> nat, visit: Visitor<D>, top: Task, cur: Cursor, i: nat,
                                     j: nat, p: Progress<D>, p': Progress<D>, whole: Progress<D>)
    requires WellFormed(h, height) && Standing(h, height, visit, top, cur, i, j, p, whole)
    requires cur.child.Some? && !p.stopped
    requires visit(cur.child.value, p.data).0 < 0 && p' == Visit(visit, cur.child.value, p)
    ensures p' == whole
  {
    NextChild(h, height, visit, cur.leader, i, j, p);
    StoppedStays(h, height, visit, top, cur.leader, i, j + 1, p');
  }

  // The children list is exhausted and the group has another thread.
  lemma {:induction false} AtThreadEnd<D>(h: Procs, height: Task -> nat, visit: Visitor<D>, top: Task, cur: Cursor,
                                          i: nat, j: nat, p: Progress<D>, whole: Progress<D>)
    requires WellFormed(h, height) && Standing(h, height, visit, top, cur, i, j, p, whole)
    requires cur.child.None? && !p.stopped && i + 1 < |h.threads[cur.leader]|
    ensures var t := h.threads[cur.leader][i + 1];
            && t in h.children
            && Standing(h, height, visit, top, OnThread(h, cur.leader, t), i + 1, 0, p, whole)
            && Remaining(h, height, top, OnThread(h, cur.leader, t), i + 1, 0) < Remaining(h, height, top, cur, i, j)
  {
    assert On(h, OnThread(h, cur.leader, h.threads[cur.leader][i + 1]), i + 1, 0) by { assert IsGroup(h, cur.leader); }
    NextThread(h, height, visit, cur.leader, i, p);
  }

  // The whole group is exhausted: the jump up puts the cursor where the
  // recursion would continue.
  lemma {:induction false} AtGroupEnd<D>(h: Procs, height: Task -> nat, visit: Visitor<D>, top: Task, cur: Cursor,
                                         i: nat, j: nat, p: Progress<D>, whole: Progress<D>)
    returns (i': nat, j': nat)
    requires WellFormed(h, height) && Standing(h, height, visit, top, cur, i, j, p, whole)
    requires cur.child.None? && !p.stopped && i + 1 == |h.threads[cur.leader]| && cur.leader != top
    ensures var l := cur.leader;
            && l in h.realParent && h.realParent[l] in h.leader && h.realParent[l] in h.children
            && l in h.children[h.realParent[l]]
            && Standing(h, height, visit, top, PastChild(h, l), i', j', p, whole)
            && Remaining(h, height, top, PastChild(h, l), i', j') < Remaining(h, height, top, cur, i, j)
  {
    var l := cur.leader;
    i', j' := PastChildOn(h, height, top, l);
    NothingLeft(h, height, visit, l, i, j, p);
    Descend(h, height, visit, top, h.leader[h.realParent[l]], i', j' - 1, l, p);
  }

  // The place right after a child, found through its real_parent.
  lemma {:induction false} PastChildOn(h: Procs, height: Task -> nat, top: Task, l: Task) returns (i: nat, j: nat)
    requires WellFormed(h, height) && Below(h, height, top, l) && l != top
    ensures l in h.realParent && h.realParent[l] in h.leader && h.realParent[l] in h.children
    ensures var t := h.realParent[l];
      && Below(h, height, top, h.leader[t]) && i < |h.threads[h.leader[t]]| && h.threads[h.leader[t]][i] == t
      && 0 < j <= |h.children[t]| && h.children[t][j - 1] == l
    ensures On(h, PastChild(h, l), i, j) && PastChild(h, l).leader == h.leader[h.realParent[l]]
  {
    var t := h.realParent[l];
    assert IsFamily(h, height, t);
    i, j := IndexOf(h.threads[h.leader[t]], t), IndexOf(h.children[t], l) + 1;
    AfterAtIndex(h.children[t], l, j - 1);
  }

  lemma {:induction false} AtEnd<D>(h: Procs, height: Task -> nat, visit: Visitor<D>, top: Task, cur: Cursor, i: nat,
                                    j: nat, p: Progress<D>, whole: Progress<D>)
    returns (i': nat, j': nat)
    requires WellFormed(h, height) && Standing(h, height, visit, top, cur, i, j, p, whole)
    requires cur.child.None? && !p.stopped
    ensures CanGoOn(h, top, cur)
    ensures match Onward(h, top, cur)
            case None => p == whole
            case Some(cur') =>
              && Standing(h, height, visit, top, cur', i', j', p, whole)
              && Remaining(h, height, top, cur', i', j') < Remaining(h, height, top, cur, i, j)
  {
    var ts := h.threads[cur.leader];
    i', j' := i + 1, 0;
    if i + 1 < |ts| {
      AtThreadEnd(h, height, visit, top, cur, i, j, p, whole);
      OnwardThread(h, height, top, cur, i, j);
    } else if cur.leader != top {
      i', j' := AtGroupEnd(h, height, visit, top, cur, i, j, p, whole);
      OnwardUp(h, height, top, cur, i, j);
    } else {
      AtTop(h, height, visit, top, cur, i, j, p, whole);
      OnwardUp(h, height, top, cur, i, j);
    }
  }

  // The first group is exhausted: the walk is over.
  lemma {:induction false} AtTop<D>(h: Procs, height: Task -> nat, visit: Visitor<D>, top: Task, cur: Cursor, i: nat,
                                    j: nat, p: Progress<D>, whole: Progress<D>)
    requires WellFormed(h, height) && Standing(h, height, visit, top, cur, i, j, p, whole)
    requires cur.child.None? && !p.stopped && i + 1 == |h.threads[cur.leader]| && cur.leader == top
    ensures p == whole
  {
    NothingLeft(h, height, visit, top, i, j, p);
  }

  // Where the gotos lead from the end of a children list.
  lemma {:induction false} OnwardThread(h: Procs, height: Task -> nat, top: Task, cur: Cursor, i: nat, j: nat)
    requires WellFormed(h, height) && On(h, cur, i, j) && i + 1 < |h.threads[cur.leader]|
    requires h.threads[cur.leader][i + 1] in h.children
    ensures CanGoOn(h, top, cur) && Onward(h, top, cur) == Some(OnThread(h, cur.leader, h.threads[cur.leader][i + 1]))
  {
    assert IsGroup(h, cur.leader);
    AfterAtIndex(h.threads[cur.leader], h.threads[cur.leader][i], i);
  }

  lemma {:induction false} OnwardUp(h: Procs, height: Task -> nat, top: Task, cur: Cursor, i: nat, j: nat)
    requires WellFormed(h, height) && On(h, cur, i, j) && i + 1 == |h.threads[cur.leader]|
    requires cur.leader != top ==>
      var l := cur.leader;
      && l in h.realParent && h.realParent[l] in h.leader && h.realParent[l] in h.children
      && l in h.children[h.realParent[l]]
    ensures CanGoOn(h, top, cur)
    ensures Onward(h, top, cur) == if cur.leader == top then None else Some(PastChild(h, cur.leader))
  {
    assert IsGroup(h, cur.leader);
    AfterAtIndex(h.threads[cur.leader], h.threads[cur.leader][i], i);
  }

  lemma {:induction false} AtStart<D>(h: Procs, height: Task -> nat, visit: Visitor<D>, top: Task, p: Progress<D>)
    requires WellFormed(h, height) && top in h.threads && !p.stopped
    ensures h.threads[top] != [] && h.threads[top][0] in h.children
    ensures Standing(h, height, visit, top, Down(h, top), 0, 0, p, WalkGroup(h, height, visit, top, p))
  {
    EnterGroup(h, height, visit, top, p);
    DownIsOn(h, height, top);
  }

  // The walk itself.
  method WalkProcessTree<D>(h: Procs, start: Task, visit: Visitor<D>, data: D, ghost height: Task -> nat)
    returns (trace: seq<Task>, out: D, stopped: bool)
    requires WellFormed(h, height) && start in h.leader
    ensures Progress(trace, out, stopped)
         == WalkGroup(h, height, visit, h.leader[start], Progress([], data, false))
    ensures IsWalk(h, height, visit, data, h.leader[start], trace, out, stopped)
  {
    var top := h.leader[start];
    trace, out, stopped := [], data, false;
    ghost var whole := WalkGroup(h, height, visit, top, Progress([], data, false));
    AtStart(h, height, visit, top, Progress([], data, false));
    var cur := Down(h, top);
    ghost var i: nat, j: nat := 0, 0;
    while true
      invariant Standing(h, height, visit, top, cur, i, j, Progress(trace, out, false), whole)
      invariant !stopped
      decreases Remaining(h, height, top, cur, i, j)
    {
      match cur.child
      case Some(c) =>
        ghost var p := Progress(trace, out, false);
        ghost var p' := Visit(visit, c, p);
        var (res, data') := visit(c, out);
        trace, out := trace + [c], data';
        if res < 0 {
          AtStop(h, height, visit, top, cur, i, j, p, p', whole);
          stopped := true;
          RecursionIsWalk(h, height, visit, data, top);
          return;
        } else if res > 0 {
          AtDescent(h, height, visit, top, cur, i, j, p, p', whole);
          cur := Down(h, c);
          i, j := 0, 0;
        } else {
          AtPruned(h, height, visit, top, cur, i, j, p, p', whole);
          cur := NextSibling(h, cur);
          j := j + 1;
        }
      case None =>
        ghost var (i', j') := (0, 0);
        i', j' := AtEnd(h, height, visit, top, cur, i, j, Progress(trace, out, false), whole);
        match Onward(h, top, cur)
        case Some(cur') =>
          cur := cur';
          i, j := i', j';
        case None =>
          RecursionIsWalk(h, height, visit, data, top);
          return;
    }
  }
}
