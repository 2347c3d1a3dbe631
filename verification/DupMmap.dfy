// dup_mm and dup_mmap: copying a parent's list of memory areas, in place, into
// a new mm, with a failure possible at every step.

module DupMmap {
  datatype Flags = Flags(dontCopy: bool, account: bool, wipeOnFork: bool, locked: bool, lockOnFault: bool, other: nat)

  // What one vm_area_struct describes.
  datatype Area = Area(pages: nat, flags: Flags)

  class Vma {
    const id: nat          // which rb_node this is
    var area: Area
    var next: Vma?
    var prev: Vma?

    constructor (id: nat, area: Area)
      ensures this.id == id && this.area == area && next == null && prev == null
    {
      this.id, this.area, next, prev := id, area, null, null;
    }
  }

  datatype Tree = Leaf | Node(left: Tree, id: nat, right: Tree)

  function InOrder(t: Tree): seq<nat>
  {
    match t
    case Leaf => []
    case Node(l, x, r) => InOrder(l) + [x] + InOrder(r)
  }

  // __vma_link_rb without the rebalancing: hang x to the right of node p.
  function AttachRight(t: Tree, p: nat, x: nat): Tree
  {
    match t
    case Leaf => Leaf
    case Node(l, y, r) =>
      if y == p then (if r.Leaf? then Node(l, y, Node(Leaf, x, Leaf)) else t)
      else Node(AttachRight(l, p, x), y, AttachRight(r, p, x))
  }

  lemma {:induction false} AttachNowhere(t: Tree, p: nat, x: nat)
    requires p !in InOrder(t)
    ensures AttachRight(t, p, x) == t
  {
    match t
    case Leaf =>
    case Node(l, y, r) =>
      AttachNowhere(l, p, x);
      AttachNowhere(r, p, x);
  }

  // Attaching to the right of the last node appends to the in-order sequence.
  lemma {:induction false} AttachAtEnd(t: Tree, s: seq<nat>, p: nat, x: nat)
    requires InOrder(t) == s + [p] && p !in s
    ensures InOrder(AttachRight(t, p, x)) == s + [p, x]
  {
    match t
    case Node(l, y, r) =>
      var (a, b) := (InOrder(l), InOrder(r));
      assert (a + [y] + b)[|s|] == p;
      if y == p {
        assert |a| == |s| by { assert (a + [y] + b)[|a|] == y; }
        assert b == [];
        assert r.Leaf? by { EmptyIsLeaf(r); }
        assert a == s by { assert (a + [y] + b)[..|a|] == a; }
      } else {
        assert (a + [y] + b)[|a|] == y;
        assert b != [];
        var s' := b[..|b| - 1];
        assert b == s' + [p] by { assert (a + [y] + b)[|s|] == b[|b| - 1]; }
        assert s == a + [y] + s' by { assert (a + [y] + b)[..|s|] == a + [y] + s'; }
        AttachNowhere(l, p, x);
        AttachAtEnd(r, s', p, x);
        assert a + [y] + (s' + [p, x]) == s + [p, x];
      }
  }

  lemma {:induction false} EmptyIsLeaf(t: Tree)
    requires InOrder(t) == []
    ensures t.Leaf?
  {
  }

  class Mm {
    var mmap: Vma?
    var rb: Tree
    var mapCount: int
    var totalVm: int

    constructor (mmap: Vma?, rb: Tree, mapCount: int, totalVm: int)
      ensures this.mmap == mmap && this.rb == rb && this.mapCount == mapCount && this.totalVm == totalVm
    {
      this.mmap, this.rb, this.mapCount, this.totalVm := mmap, rb, mapCount, totalVm;
    }
  }

  // The system-wide commit charge (vm_committed_as).
  class Commit {
    var pages: int
  }

  // ---------------------------------------------------------------- specification

  // The list is exactly vs, linked in both directions, and describes areas.
  ghost predicate Linked(head: Vma?, vs: seq<Vma>, areas: seq<Area>)
    reads vs
  {
    && head == (if vs == [] then null else vs[0])
    && (forall i {:trigger vs[i].next} :: 0 <= i < |vs| ==> vs[i].next == (if i + 1 < |vs| then vs[i + 1] else null))
    && (forall i {:trigger vs[i].prev} :: 0 <= i < |vs| ==> vs[i].prev == (if i > 0 then vs[i - 1] else null))
    && |areas| == |vs| && (forall i {:trigger vs[i].area} :: 0 <= i < |vs| ==> vs[i].area == areas[i])
  }

  ghost function Ids(vs: seq<Vma>): (r: seq<nat>)
    ensures |r| == |vs| && forall i :: 0 <= i < |vs| ==> r[i] == vs[i].id
  {
    seq(|vs|, i requires 0 <= i < |vs| => vs[i].id)
  }

  // The child's copy of an area is not locked in memory.
  function ChildArea(a: Area): Area
  {
    a.(flags := a.flags.(locked := false, lockOnFault := false))
  }

  // The parent's areas that are copied, in order.
  function ChildAreas(s: seq<Area>): seq<Area>
  {
    if s == [] then []
    else
      var last := s[|s| - 1];
      ChildAreas(s[..|s| - 1]) + (if last.flags.dontCopy then [] else [ChildArea(last)])
  }

  function SkippedPages(s: seq<Area>): nat
  {
    if s == [] then 0
    else SkippedPages(s[..|s| - 1]) + (if s[|s| - 1].flags.dontCopy then s[|s| - 1].pages else 0)
  }

  function ChargedPages(s: seq<Area>): nat
  {
    if s == [] then 0
    else ChargedPages(s[..|s| - 1]) + (if s[|s| - 1].flags.account then s[|s| - 1].pages else 0)
  }

  lemma {:induction false} OneMore(s: seq<Area>, k: nat)
    requires k < |s|
    ensures ChildAreas(s[..k + 1]) == if s[k].flags.dontCopy then ChildAreas(s[..k])
      else ChildAreas(s[..k]) + [ChildArea(s[k])]
    ensures SkippedPages(s[..k + 1]) == SkippedPages(s[..k]) + (if s[k].flags.dontCopy then s[k].pages else 0)
  {
    assert s[..k + 1][..k] == s[..k];
  }

  lemma {:induction false} ChargeOne(s: seq<Area>, a: Area)
    ensures ChargedPages(s + [a]) == ChargedPages(s) + (if a.flags.account then a.pages else 0)
  {
    assert (s + [a])[..|s|] == s;
  }

  // The positions of the areas to copy.
  function Copies(s: seq<Area>): seq<nat>
  {
    if s == [] then [] else Copies(s[..|s| - 1]) + (if s[|s| - 1].flags.dontCopy then [] else [|s| - 1])
  }

  // What a copy has of the original: everything but the two lock flags.
  predicate Inherits(parent: Area, child: Area)
  {
    && child.pages == parent.pages && child.flags.account == parent.flags.account
    && child.flags.wipeOnFork == parent.flags.wipeOnFork && child.flags.other == parent.flags.other
    && !child.flags.dontCopy && !child.flags.locked && !child.flags.lockOnFault
  }

  // Area i of the child's list is the copy of the parent's area from[i].
  predicate CopyOf(areas: seq<Area>, from: seq<nat>, children: seq<Area>, i: nat)
    requires i < |from| == |children|
  {
    from[i] < |areas| && !areas[from[i]].flags.dontCopy && Inherits(areas[from[i]], children[i])
  }

  // The child's areas are those of the parent without the ones not to be copied,
  // in order: each is a copy, the positions `from` increase, and they miss only
  // the areas marked so.
  ghost predicate Filtered(areas: seq<Area>, from: seq<nat>, children: seq<Area>)
  {
    && |children| == |from| && (forall i :: 0 <= i < |from| ==> CopyOf(areas, from, children, i))
    && (forall i, j :: 0 <= i < j < |from| ==> from[i] < from[j])
    && (forall k :: 0 <= k < |areas| ==> (k in from <==> !areas[k].flags.dontCopy))
  }

  lemma {:induction false} ChildListIsFiltered(areas: seq<Area>)
    ensures Filtered(areas, Copies(areas), ChildAreas(areas))
    decreases |areas|
  {
    if areas != [] {
      var init := areas[..|areas| - 1];
      ChildListIsFiltered(init);
      var from, last := Copies(areas), areas[|areas| - 1];
      assert from == if last.flags.dontCopy then Copies(init) else Copies(init) + [|areas| - 1];
      assert ChildAreas(areas) == if last.flags.dontCopy then ChildAreas(init)
          else ChildAreas(init) + [ChildArea(last)];
      forall i | 0 <= i < |from|
        ensures CopyOf(areas, from, ChildAreas(areas), i) && (i < |Copies(init)| ==> from[i] < |init|)
      {
        if i < |Copies(init)| {
          assert CopyOf(init, Copies(init), ChildAreas(init), i);
          assert from[i] == Copies(init)[i] && init[from[i]] == areas[from[i]];
        }
      }
      forall k | 0 <= k < |areas| ensures k in from <==> !areas[k].flags.dontCopy {
        LastCopied(areas, k);
      }
    }
  }

  lemma {:induction false} LastCopied(areas: seq<Area>, k: nat)
    requires k < |areas|
    ensures var init := areas[..|areas| - 1];
      k in Copies(areas) <==> k in Copies(init) || (k == |areas| - 1 && !areas[k].flags.dontCopy)
  {
  }

  // ---------------------------------------------------------------- the copy

  // What goes wrong while copying one area, if anything.
  datatype Fate =
    | Fine
    | FatalSignal            // fatal_signal_pending
    | NoCommit               // security_vm_enough_memory_mm refuses
    | NoVma                  // vm_area_dup fails
    | NoPolicy               // vma_dup_policy fails
    | NoUserfaultfd          // dup_userfaultfd fails
    | NoAnonVma              // anon_vma_fork fails
    | NoPageTables           // copy_page_range fails, after the area is linked

  // The area is copied, or left out, and the loop goes on.
  predicate GoesWell(area: Area, fate: Fate)
  {
    || area.flags.dontCopy || fate.Fine? || (fate.NoCommit? && !area.flags.account)
    || ((fate.NoAnonVma? || fate.NoPageTables?) && area.flags.wipeOnFork)
  }

  // Which calls can stop the copy at this area: all of them at a plain area,
  // none at one that is left out, the charge only where one is due, and the
  // page tables and the anon_vma only where the child is to see the contents.
  lemma {:induction false} WhatStopsIt(area: Area, fate: Fate)
    ensures area.flags.dontCopy ==> GoesWell(area, fate)
    ensures !area.flags.dontCopy ==>
      (!GoesWell(area, fate) <==>
        match fate
        case Fine => false
        case NoCommit => area.flags.account
        case NoAnonVma => !area.flags.wipeOnFork
        case NoPageTables => !area.flags.wipeOnFork
        case _ => true)
    ensures FailsLate(area, fate) <==> !area.flags.dontCopy && !area.flags.wipeOnFork && fate.NoPageTables?
  {
  }

  // The loop stops after the area has been linked.
  predicate FailsLate(area: Area, fate: Fate)
  {
    !GoesWell(area, fate) && fate.NoPageTables?
  }

  ghost predicate AllGoWell(areas: seq<Area>, fate: nat -> Fate, k: nat)
  {
    k <= |areas| && forall q :: 0 <= q < k ==> GoesWell(areas[q], fate(q))
  }

  // With k areas dealt with the loop is over: at the end, before an area that
  // fails, or after one that fails late.
  ghost predicate StopsAt(areas: seq<Area>, fate: nat -> Fate, k: nat)
  {
    || (k == |areas| && AllGoWell(areas, fate, k))
    || (k < |areas| && AllGoWell(areas, fate, k) && !GoesWell(areas[k], fate(k)) && !FailsLate(areas[k], fate(k)))
    || (0 < k <= |areas| && AllGoWell(areas, fate, k - 1) && FailsLate(areas[k - 1], fate(k - 1)))
  }

  lemma {:induction false} OneMoreWell(areas: seq<Area>, fate: nat -> Fate, k: nat)
    requires k < |areas| && AllGoWell(areas, fate, k) && GoesWell(areas[k], fate(k))
    ensures AllGoWell(areas, fate, k + 1)
  {
  }

  // An area that does not go well ends the copy.
  lemma {:induction false} FirstFailure(areas: seq<Area>, fate: nat -> Fate, k: nat, k': nat)
    requires k < |areas| && AllGoWell(areas, fate, k) && !GoesWell(areas[k], fate(k))
    requires k' == k + (if FailsLate(areas[k], fate(k)) then 1 else 0)
    ensures StopsAt(areas, fate, k') && !AllGoWell(areas, fate, |areas|)
  {
  }

  const EINTR := -4
  const ENOMEM := -12

  // What the loop returns when this stops it.
  function ErrorOf(fate: Fate): (r: int)
    ensures r != 0 && (r == EINTR <==> fate.FatalSignal?)
  {
    if fate.FatalSignal? then EINTR else ENOMEM
  }

  // The loop ended with this error at area f, the first that does not go well.
  ghost predicate FailedAt(areas: seq<Area>, fate: nat -> Fate, f: nat, retval: int)
  {
    && f < |areas| && AllGoWell(areas, fate, f) && !GoesWell(areas[f], fate(f))
    && retval == if fate(f).FatalSignal? then EINTR else ENOMEM
  }

  // Everything the mm says about its areas agrees with the list vs.
  ghost predicate Holds(mm: Mm, vs: seq<Vma>, areas: seq<Area>)
    reads mm, vs
  {
    && Linked(mm.mmap, vs, areas)
    && InOrder(mm.rb) == Ids(vs)
    && mm.mapCount == |vs|
    && (forall i :: 0 <= i < |vs| ==> vs[i].id == i)
  }

  lemma {:induction false} AttachLast(t: Tree, vs: seq<Vma>, tmp: Vma)
    requires InOrder(t) == Ids(vs) && vs != [] && forall i :: 0 <= i < |vs| ==> vs[i].id == i
    ensures InOrder(AttachRight(t, vs[|vs| - 1].id, tmp.id)) == Ids(vs + [tmp])
  {
    var s := Ids(vs)[..|vs| - 1];
    assert Ids(vs) == s + [vs[|vs| - 1].id];
    AttachAtEnd(t, s, vs[|vs| - 1].id, tmp.id);
    assert Ids(vs + [tmp]) == s + [vs[|vs| - 1].id, tmp.id];
  }

  // *pprev = tmp; pprev = &tmp->vm_next; tmp->vm_prev = prev
  method LinkList(mm: Mm, ghost vs: seq<Vma>, ghost areas: seq<Area>, tmp: Vma, pprev: Vma?, prev: Vma?)
    requires Linked(mm.mmap, vs, areas) && tmp !in vs && tmp.next == null
    requires forall i :: 0 <= i < |vs| ==> vs[i].id == i
    requires prev == pprev == (if vs == [] then null else vs[|vs| - 1])
    modifies mm`mmap, tmp, pprev
    ensures Linked(mm.mmap, vs + [tmp], areas + [old(tmp.area)])
  {
    if pprev == null { mm.mmap := tmp; } else { pprev.next := tmp; }
    tmp.prev := prev;
  }

  // Hang tmp at the end of the list and of the tree.
  method Link(mm: Mm, ghost vs: seq<Vma>, ghost areas: seq<Area>, tmp: Vma, pprev: Vma?, prev: Vma?, rbParent: Vma?,
              balance: Tree -> Tree)
    requires Holds(mm, vs, areas) && tmp !in vs && tmp.next == null && tmp.id == |vs|
    requires forall t :: InOrder(balance(t)) == InOrder(t)
    requires prev == pprev == rbParent == (if vs == [] then null else vs[|vs| - 1])
    modifies mm, tmp, pprev
    ensures Holds(mm, vs + [tmp], areas + [old(tmp.area)])
    ensures mm.totalVm == old(mm.totalVm)
  {
    LinkList(mm, vs, areas, tmp, pprev, prev);
    // __vma_link_rb(mm, tmp, rb_link, rb_parent)
    if rbParent == null {
      mm.rb := balance(Node(Leaf, tmp.id, Leaf));
    } else {
      AttachLast(mm.rb, vs, tmp);
      mm.rb := balance(AttachRight(mm.rb, rbParent.id, tmp.id));
    }
    mm.mapCount := mm.mapCount + 1;
  }

  // One turn of the loop. `ok` is false when it must stop with retval; tmp is
  // the area that was linked, if one was.
  method CopyArea(mm: Mm, ghost vs: seq<Vma>, ghost areas: seq<Area>, area: Area, commit: Commit, fate: Fate,
                  pprev: Vma?, prev: Vma?, rbParent: Vma?, balance: Tree -> Tree)
    returns (ok: bool, retval: int, tmp: Vma?)
    requires Holds(mm, vs, areas)
    requires forall t :: InOrder(balance(t)) == InOrder(t)
    requires prev == pprev == rbParent == (if vs == [] then null else vs[|vs| - 1])
    modifies mm, commit, pprev
    ensures mm.totalVm == old(mm.totalVm) - (if area.flags.dontCopy then area.pages else 0)
    ensures ok ==> (tmp == null <==> area.flags.dontCopy)
    ensures !ok ==> retval == ErrorOf(fate) && !area.flags.dontCopy
    ensures tmp == null ==> Holds(mm, vs, areas) && commit.pages == old(commit.pages)
    ensures tmp != null ==>
              && fresh(tmp) && Holds(mm, vs + [tmp], areas + [ChildArea(area)])
              && commit.pages == old(commit.pages) + (if area.flags.account then area.pages else 0)
    ensures ok <==> GoesWell(area, fate)
    ensures !ok ==> (tmp != null <==> FailsLate(area, fate))
    ensures tmp != null ==> Inherits(area, tmp.area)
  {
    if area.flags.dontCopy {
      mm.totalVm := mm.totalVm - area.pages;
      return true, 0, null;
    }
    var charge := 0;
    if fate.FatalSignal? {
      return false, EINTR, null;
    }
    if area.flags.account {
      if fate.NoCommit? { return false, ENOMEM, null; }
      commit.pages := commit.pages + area.pages;
      charge := area.pages;
    }
    if fate.NoVma? || fate.NoPolicy? || fate.NoUserfaultfd? || (fate.NoAnonVma? && !area.flags.wipeOnFork) {
      // fail_nomem_anon_vma_fork, fail_nomem_policy, fail_nomem
      commit.pages := commit.pages - charge;
      return false, ENOMEM, null;
    }
    var dup := new Vma(mm.mapCount, ChildArea(area));
    Link(mm, vs, areas, dup, pprev, prev, rbParent, balance);
    assert (vs + [dup])[|vs|] == dup;
    tmp := dup;
    retval := if !area.flags.wipeOnFork && fate.NoPageTables? then ENOMEM else 0;
    ok := retval == 0;
  }

  // The areas the list describes.
  ghost function AreasOf(vs: seq<Vma>): (r: seq<Area>)
    reads vs
    ensures |r| == |vs| && forall i :: 0 <= i < |vs| ==> r[i] == vs[i].area
  {
    seq(|vs|, i requires 0 <= i < |vs| reads vs => vs[i].area)
  }

  lemma {:induction false} ChildHolds(mm: Mm, vs: seq<Vma>, areas: seq<Area>)
    requires Holds(mm, vs, ChildAreas(areas))
    ensures Filtered(areas, Copies(areas), AreasOf(vs))
  {
    ChildListIsFiltered(areas);
    assert AreasOf(vs) == ChildAreas(areas);
  }

  // The child holds the copy of the first k areas; the totals fit.
  ghost predicate Copied(mm: Mm, total: int, areas: seq<Area>, k: nat, vs: seq<Vma>, charged: int)
    reads mm, vs
  {
    && k <= |areas| && Holds(mm, vs, ChildAreas(areas[..k]))
    && mm.totalVm == total - SkippedPages(areas[..k])
    && charged == ChargedPages(ChildAreas(areas[..k]))
  }

  // Area k was linked and charged, or left out.
  lemma {:induction false} LinkedOne(mm: Mm, total: int, areas: seq<Area>, k: nat, vs: seq<Vma>, charged: int)
    requires k < |areas| && !areas[k].flags.dontCopy
    requires Holds(mm, vs, ChildAreas(areas[..k]) + [ChildArea(areas[k])])
    requires mm.totalVm == total - SkippedPages(areas[..k])
    requires charged == ChargedPages(ChildAreas(areas[..k])) + (if areas[k].flags.account then areas[k].pages else 0)
    ensures Copied(mm, total, areas, k + 1, vs, charged)
  {
    OneMore(areas, k);
    ChargeOne(ChildAreas(areas[..k]), ChildArea(areas[k]));
  }

  lemma {:induction false} LeftOutOne(mm: Mm, total: int, areas: seq<Area>, k: nat, vs: seq<Vma>, charged: int)
    requires k < |areas| && areas[k].flags.dontCopy && Holds(mm, vs, ChildAreas(areas[..k]))
    requires mm.totalVm == total - SkippedPages(areas[..k]) - areas[k].pages
    requires charged == ChargedPages(ChildAreas(areas[..k]))
    ensures Copied(mm, total, areas, k + 1, vs, charged)
  {
    OneMore(areas, k);
  }

  // Areas k on: one turn of the loop and its bookkeeping.
  method CopyNext(mm: Mm, ghost total: int, ghost areas: seq<Area>, ghost k: nat, ghost vs: seq<Vma>, area: Area,
                  commit: Commit, ghost base: int, fate: Fate, pprev: Vma?, prev: Vma?, rbParent: Vma?,
                  balance: Tree -> Tree)
    returns (ok: bool, retval: int, last: Vma?, ghost k': nat, ghost vs': seq<Vma>)
    requires Copied(mm, total, areas, k, vs, commit.pages - base) && k < |areas| && area == areas[k]
    requires forall t :: InOrder(balance(t)) == InOrder(t)
    requires prev == pprev == rbParent == (if vs == [] then null else vs[|vs| - 1])
    modifies mm, commit, pprev
    ensures Copied(mm, total, areas, k', vs', commit.pages - base)
    ensures ok <==> GoesWell(area, fate)
    ensures if ok then k' == k + 1
            else retval == ErrorOf(fate) && k' == k + (if FailsLate(area, fate) then 1 else 0)
    ensures last == (if vs' == [] then null else vs'[|vs'| - 1])
    ensures forall v :: v in vs' ==> v in vs || fresh(v)
    ensures last != prev ==> last != null && fresh(last)
  {
    var tmp: Vma?;
    ok, retval, tmp := CopyArea(mm, vs, ChildAreas(areas[..k]), area, commit, fate, pprev, prev, rbParent, balance);
    if tmp != null {
      vs', k', last := vs + [tmp], k + 1, tmp;
      LinkedOne(mm, total, areas, k, vs', commit.pages - base);
    } else if ok {
      vs', k', last := vs, k + 1, prev;
      LeftOutOne(mm, total, areas, k, vs, commit.pages - base);
    } else {
      vs', k', last := vs, k, prev;
    }
  }

  lemma {:induction false} NothingCopied(mm: Mm, areas: seq<Area>)
    requires mm.mmap == null && mm.rb == Leaf && mm.mapCount == 0
    ensures Copied(mm, mm.totalVm, areas, 0, [], 0)
  {
  }

  // The loop over the parent's list.
  method CopyAll(mm: Mm, oldmm: Mm, ghost olds: seq<Vma>, ghost areas: seq<Area>, commit: Commit, fate: nat -> Fate,
                 balance: Tree -> Tree)
    returns (retval: int, ghost news: seq<Vma>, ghost k: nat)
    requires mm != oldmm && Linked(oldmm.mmap, olds, areas)
    requires mm.mmap == null && mm.rb == Leaf && mm.mapCount == 0
    requires forall t :: InOrder(balance(t)) == InOrder(t)
    modifies mm, commit
    ensures forall v :: v in news ==> fresh(v)
    ensures Copied(mm, old(mm.totalVm), areas, k, news, commit.pages - old(commit.pages))
    ensures StopsAt(areas, fate, k) && (retval == 0 <==> AllGoWell(areas, fate, |areas|))
    ensures retval == 0 ==> k == |areas|
    ensures retval != 0 ==> exists f :: FailedAt(areas, fate, f, retval)
  {
    news, k := [], 0;
    ghost var (total, base) := (mm.totalVm, commit.pages);
    var prev: Vma?, pprev: Vma?, rbParent: Vma? := null, null, null;
    NothingCopied(mm, areas);
    var mpnt := oldmm.mmap;
    var i := 0;                      // which area this is, for fate
    while mpnt != null
      invariant i == k <= |olds| && mpnt == (if k < |olds| then olds[k] else null)
      invariant forall v :: v in news ==> fresh(v)
      invariant pprev != null ==> fresh(pprev)
      invariant prev == pprev == rbParent == (if news == [] then null else news[|news| - 1])
      invariant Copied(mm, total, areas, k, news, commit.pages - base)
      invariant AllGoWell(areas, fate, i)
      decreases |olds| - k
    {
      assert mpnt.area == areas[k] && mpnt.next == (if k + 1 < |olds| then olds[k + 1] else null);
      var ok, last;
      ok, retval, last, k, news := CopyNext(mm, total, areas, k, news, mpnt.area, commit, base, fate(i), pprev, prev,
                                            rbParent, balance);
      if !ok {
        FirstFailure(areas, fate, i, k);
        assert FailedAt(areas, fate, i, retval);
        return;
      }
      OneMoreWell(areas, fate, i);
      pprev, prev, rbParent := last, last, last;
      mpnt := mpnt.next;
      i := i + 1;
    }
    retval := 0;
  }

  // dup_mmap. The parent's list is olds, describing `areas`; fate(i) is what
  // happens at its i-th area; the other arguments are the results of the calls
  // around the loop.
  method DupMmap(mm: Mm, oldmm: Mm, ghost olds: seq<Vma>, ghost areas: seq<Area>, commit: Commit, fate: nat -> Fate,
                 lockKilled: bool, ksm: int, khugepaged: int, arch: int, balance: Tree -> Tree)
    returns (retval: int, ghost news: seq<Vma>, ghost k: nat)
    requires mm != oldmm && Linked(oldmm.mmap, olds, areas)
    requires mm.mmap == null && mm.rb == Leaf && mm.mapCount == 0
    requires forall t :: InOrder(balance(t)) == InOrder(t)
    modifies mm, commit
    ensures forall v :: v in news ==> fresh(v)
    // the list, the tree and the counter agree, on success and on failure, and
    // hold the first k of the parent's areas, without the ones not to copy
    ensures k <= |areas| && Holds(mm, news, ChildAreas(areas[..k]))
    ensures Filtered(areas[..k], Copies(areas[..k]), AreasOf(news))
    // it gets as far as the first area that fails
    ensures if lockKilled || ksm != 0 || khugepaged != 0 then k == 0 else StopsAt(areas, fate, k)
    ensures retval == 0 <==>
              !lockKilled && ksm == 0 && khugepaged == 0 && arch == 0 && AllGoWell(areas, fate, |areas|)
    ensures if lockKilled then retval == EINTR
            else if ksm != 0 then retval == ksm
            else if khugepaged != 0 then retval == khugepaged
            else if AllGoWell(areas, fate, |areas|) then retval == arch
            else exists f :: FailedAt(areas, fate, f, retval)
    ensures retval == 0 ==> k == |areas| && mm.totalVm == oldmm.totalVm - SkippedPages(areas)
    // whatever is charged belongs to an area that is linked
    ensures commit.pages == old(commit.pages) + ChargedPages(ChildAreas(areas[..k]))
  {
    news, k := [], 0;
    ChildHolds(mm, news, areas[..k]);
    if lockKilled {
      return EINTR, news, k;
    }
    mm.totalVm := oldmm.totalVm;
    if ksm != 0 { return ksm, news, k; }
    if khugepaged != 0 { return khugepaged, news, k; }
    retval, news, k := CopyAll(mm, oldmm, olds, areas, commit, fate, balance);
    ChildHolds(mm, news, areas[..k]);
    if retval == 0 {
      assert areas[..k] == areas;
      retval := arch;
    }
  }

  // dup_mm: the struct copy takes the parent's list, tree and counters with it;
  // mm_init clears them before dup_mmap fills them again. A failed copy is torn
  // down by mmput, which uncharges every area it finds in the list.
  method DupMm(oldmm: Mm, ghost olds: seq<Vma>, ghost areas: seq<Area>, commit: Commit, fate: nat -> Fate,
               allocate: bool, pgd: bool, lockKilled: bool, ksm: int, khugepaged: int, arch: int, binfmt: bool,
               balance: Tree -> Tree)
    returns (r: Mm?, ghost news: seq<Vma>)
    requires Linked(oldmm.mmap, olds, areas)
    requires forall t :: InOrder(balance(t)) == InOrder(t)
    modifies commit
    ensures r != null <==>
              && allocate && pgd && !lockKilled && ksm == 0 && khugepaged == 0 && arch == 0 && binfmt
              && AllGoWell(areas, fate, |areas|)
    ensures r == null ==> commit.pages == old(commit.pages)
    ensures r != null ==>
              && fresh(r) && (forall v :: v in news ==> fresh(v)) && Holds(r, news, ChildAreas(areas))
              && Filtered(areas, Copies(areas), AreasOf(news))
              && r.totalVm == oldmm.totalVm - SkippedPages(areas)
              && commit.pages == old(commit.pages) + ChargedPages(ChildAreas(areas))
  {
    news := [];
    if !allocate { return null, []; }
    var mm := new Mm(oldmm.mmap, oldmm.rb, oldmm.mapCount, oldmm.totalVm);
    mm.mmap, mm.rb, mm.mapCount := null, Leaf, 0;
    if !pgd { return null, []; }
    var err;
    ghost var k;
    err, news, k := DupMmap(mm, oldmm, olds, areas, commit, fate, lockKilled, ksm, khugepaged, arch, balance);
    if err != 0 || !binfmt {
      Mmput(mm, news, ChildAreas(areas[..k]), commit);
      return null, [];
    }
    assert areas[..k] == areas;
    return mm, news;
  }

  method Mmput(mm: Mm, ghost vs: seq<Vma>, ghost areas: seq<Area>, commit: Commit)
    requires Holds(mm, vs, areas)
    modifies commit
    ensures commit.pages == old(commit.pages) - ChargedPages(areas)
  {
    var v := mm.mmap;
    ghost var i := 0;
    var accounted := 0;
    while v != null
      invariant 0 <= i <= |vs| && v == (if i < |vs| then vs[i] else null)
      invariant accounted == ChargedPages(areas[..i])
      modifies {}
      decreases |vs| - i
    {
      assert areas[..i + 1] == areas[..i] + [areas[i]];
      ChargeOne(areas[..i], areas[i]);
      if v.area.flags.account { accounted := accounted + v.area.pages; }
      v := v.next;
      i := i + 1;
    }
    assert areas[..i] == areas;
    commit.pages := commit.pages - accounted;
  }

  function AllPages(s: seq<Area>): nat
  {
    if s == [] then 0 else AllPages(s[..|s| - 1]) + s[|s| - 1].pages
  }

  // The parent's pages are the child's and the skipped ones: if the parent's
  // total_vm counted its areas, so does the child's.
  lemma {:induction false} TotalsAgree(areas: seq<Area>)
    ensures AllPages(areas) == AllPages(ChildAreas(areas)) + SkippedPages(areas)
  {
    if areas != [] {
      var init, last := areas[..|areas| - 1], areas[|areas| - 1];
      TotalsAgree(init);
      PagesAppend(ChildAreas(init), ChildArea(last));
      assert ChildAreas(areas) == if last.flags.dontCopy then ChildAreas(init)
          else ChildAreas(init) + [ChildArea(last)];
    }
  }

  lemma {:induction false} PagesAppend(s: seq<Area>, a: Area)
    ensures AllPages(s + [a]) == AllPages(s) + a.pages
  {
    assert (s + [a])[..|s|] == s;
  }
}
