// The task_struct window next to the vDSO: map_vdso lays it out below the vvar
// pages, vtask_fault fills it, and user space finds its way back to the
// task_struct by pointer arithmetic.

module Vdso {
  import opened Wrappers

  const PAGE_SIZE: nat := 4096
  const TASK_STRUCT_PAGE_NUMBER: nat := 5
  const VVAR_PAGES: nat := 4                              // -sym_vvar_start in pages
  const JUDGE: nat := 114514
  const EINTR: int := 4
  const EINVAL: int := 22
  const VTASK_LEN: nat := TASK_STRUCT_PAGE_NUMBER * PAGE_SIZE + PAGE_SIZE
  const VVAR_LEN: nat := VVAR_PAGES * PAGE_SIZE

  // ---------------------------------------------------------------- layout

  datatype Kind = Text | Vvar | Vtask | Other
  datatype Vma = Vma(len: nat, kind: Kind)

  predicate Overlap(a: nat, la: nat, b: nat, lb: nat)
  {
    a < b + lb && b < a + la
  }

  // The areas are disjoint.
  ghost predicate Disjoint(vmas: map<nat, Vma>)
  {
    && (forall a :: a in vmas ==> vmas[a].len > 0)
    && (forall a, b :: a in vmas && b in vmas && a != b ==> !Overlap(a, vmas[a].len, b, vmas[b].len))
  }

  // No area reaches into the range.
  ghost predicate FreeRange(vmas: map<nat, Vma>, start: nat, len: nat)
  {
    forall a :: a in vmas ==> !Overlap(a, vmas[a].len, start, len)
  }

  lemma {:induction false} FreeParts(vmas: map<nat, Vma>, start: nat, one: nat, two: nat)
    requires Disjoint(vmas) && one > 0 && two > 0
    ensures FreeRange(vmas, start, one + two) <==> FreeRange(vmas, start, one) && FreeRange(vmas, start + one, two)
  {
    forall a | a in vmas
      ensures Overlap(a, vmas[a].len, start, one + two) <==>
        Overlap(a, vmas[a].len, start, one) || Overlap(a, vmas[a].len, start + one, two)
    {
    }
  }

  // An area apart from the range makes no difference to it.
  lemma {:induction false} FreeBeside(vmas: map<nat, Vma>, k: nat, v: Vma, start: nat, len: nat)
    requires k !in vmas && !Overlap(k, v.len, start, len)
    ensures FreeRange(vmas[k := v], start, len) <==> FreeRange(vmas, start, len)
  {
    forall a | a in vmas ensures vmas[k := v][a] == vmas[a] { }
  }

  // The three areas of one mapping, in address order without a gap: task pages
  // and the info page, then vvar at addr, then the text.
  function Layout(addr: nat, size: nat): map<nat, Vma>
    requires addr >= VTASK_LEN
  {
    map[addr - VTASK_LEN := Vma(VTASK_LEN, Vtask), addr := Vma(VVAR_LEN, Vvar), addr + VVAR_LEN := Vma(size, Text)]
  }

  lemma {:induction false} LayoutAdds(m: map<nat, Vma>, addr: nat, size: nat)
    requires addr >= VTASK_LEN && addr - VTASK_LEN !in m && addr !in m && addr + VVAR_LEN !in m
    ensures m[addr + VVAR_LEN := Vma(size, Text)][addr := Vma(VVAR_LEN, Vvar)][addr - VTASK_LEN := Vma(VTASK_LEN,
      Vtask)] == m + Layout(addr, size)
    ensures m.Keys !! Layout(addr, size).Keys
  {
  }

  lemma {:induction false} AddThenRemove(m: map<nat, Vma>, k: nat, v: Vma)
    requires k !in m
    ensures m[k := v] - {k} == m
  {
  }

  lemma {:induction false} RemoveBoth(m: map<nat, Vma>, k: nat, v: Vma, other: nat)
    requires k !in m && k != other
    ensures m[k := v] - {other} - {k} == m - {other}
  {
  }

  // Everything a mapping at `found` will use is free: the window, vvar and the text.
  ghost predicate RoomFor(vmas: map<nat, Vma>, found: nat, size: nat)
  {
    FreeRange(vmas, found, VTASK_LEN + (VVAR_LEN + size))
  }

  // The three installs together need exactly that room.
  lemma {:induction false} RoomInParts(vmas: map<nat, Vma>, found: nat, size: nat)
    requires Disjoint(vmas) && size > 0
    ensures var addr := found + VTASK_LEN;
      RoomFor(vmas, found, size) <==>
        && FreeRange(vmas, addr + VVAR_LEN, size) && FreeRange(vmas, addr, VVAR_LEN)
        && FreeRange(vmas, found, VTASK_LEN)
  {
    FreeParts(vmas, found, VTASK_LEN, VVAR_LEN + size);
    FreeParts(vmas, found + VTASK_LEN, VVAR_LEN, size);
  }

  // get_unmapped_area is asked for vvar and text only, so the room it finds ends
  // VTASK_LEN bytes early: the mapping fits exactly when the range behind is free too.
  lemma {:induction false} RequestFallsShort(vmas: map<nat, Vma>, found: nat, size: nat)
    requires Disjoint(vmas) && size > 0 && FreeRange(vmas, found, VVAR_LEN + size)
    ensures RoomFor(vmas, found, size) <==> FreeRange(vmas, found + (VVAR_LEN + size), VTASK_LEN)
  {
    FreeParts(vmas, found, VVAR_LEN + size, VTASK_LEN);
  }

  // One area right behind the range that was found is enough.
  lemma {:induction false} NeighbourInTheWay(found: nat, size: nat)
    requires size > 0
    ensures var vmas := map[found + (VVAR_LEN + size) := Vma(PAGE_SIZE, Other)];
      Disjoint(vmas) && FreeRange(vmas, found, VVAR_LEN + size) && !RoomFor(vmas, found, size)
  {
    var at := found + (VVAR_LEN + size);
    var vmas := map[at := Vma(PAGE_SIZE, Other)];
    assert at in vmas && Overlap(at, vmas[at].len, found, VTASK_LEN + (VVAR_LEN + size));
  }

  class Mm {
    var vmas: map<nat, Vma>       // by start address
    var vdso: Option<nat>
    var vtask: Option<nat>
    var locked: bool

    ghost predicate Valid()
      reads this
    {
      Disjoint(vmas)
    }

    // _install_special_mapping: refused where something is mapped already, or for want of memory.
    method Install(start: nat, len: nat, kind: Kind, memory: bool) returns (err: int)
      requires Valid() && locked && len > 0
      modifies this`vmas
      ensures Valid() && err <= 0
      ensures vmas == if err == 0 then old(vmas)[start := Vma(len, kind)] else old(vmas)
      ensures err == 0 <==> memory && FreeRange(old(vmas), start, len)
      ensures err == 0 ==> start !in old(vmas)
    {
      var busy := AnyOverlap(vmas, start, len);
      if busy || !memory { return -12; }
      vmas := vmas[start := Vma(len, kind)];
      return 0;
    }

    // do_munmap of exactly one area.
    method Unmap(start: nat, len: nat)
      requires Valid() && locked && start in vmas && vmas[start].len == len
      modifies this`vmas
      ensures Valid() && vmas == old(vmas) - {start}
    {
      vmas := vmas - {start};
    }

    // The second install; a failure takes back the first.
    method InstallVvar(addr: nat, size: nat, vvar: bool) returns (ret: int)
      requires Valid() && locked && size > 0 && addr + VVAR_LEN in vmas && vmas[addr + VVAR_LEN].len == size
      modifies this`vmas
      ensures Valid() && ret <= 0
      ensures ret == 0 <==> vvar && FreeRange(old(vmas), addr, VVAR_LEN)
      ensures ret < 0 ==> vmas == old(vmas) - {addr + VVAR_LEN}
      ensures ret == 0 ==> addr !in old(vmas) && vmas == old(vmas)[addr := Vma(VVAR_LEN, Vvar)]
    {
      ret := Install(addr, VVAR_LEN, Vvar, vvar);
      if ret < 0 { Unmap(addr + VVAR_LEN, size); }
    }

    // The third install; a failure takes back the first two.
    method InstallWindow(addr: nat, size: nat, vtask_: bool) returns (ret: int)
      requires Valid() && locked && addr >= VTASK_LEN && size > 0
      requires addr in vmas && vmas[addr].len == VVAR_LEN
      requires addr + VVAR_LEN in vmas && vmas[addr + VVAR_LEN].len == size
      modifies this`vmas
      ensures Valid() && ret <= 0
      ensures ret == 0 <==> vtask_ && FreeRange(old(vmas), addr - VTASK_LEN, VTASK_LEN)
      ensures ret < 0 ==> vmas == old(vmas) - {addr + VVAR_LEN} - {addr}
      ensures ret == 0 ==>
        addr - VTASK_LEN !in old(vmas) && vmas == old(vmas)[addr - VTASK_LEN := Vma(VTASK_LEN, Vtask)]
    {
      ret := Install(addr - VTASK_LEN, VTASK_LEN, Vtask, vtask_);
      if ret < 0 {
        Unmap(addr + VVAR_LEN, size);
        Unmap(addr, VVAR_LEN);
      }
    }

    // The second and third install; a failure takes back the first one too.
    method InstallBelow(addr: nat, size: nat, vvar: bool, vtask_: bool) returns (ret: int)
      requires Valid() && locked && addr >= VTASK_LEN && size > 0
      requires addr + VVAR_LEN in vmas && vmas[addr + VVAR_LEN].len == size
      modifies this`vmas
      ensures Valid() && ret <= 0
      ensures ret == 0 <==>
        && vvar && vtask_
        && FreeRange(old(vmas), addr, VVAR_LEN) && FreeRange(old(vmas), addr - VTASK_LEN, VTASK_LEN)
      ensures ret < 0 ==> vmas == old(vmas) - {addr + VVAR_LEN}
      ensures ret == 0 ==> addr !in old(vmas) && addr - VTASK_LEN !in old(vmas)
      ensures ret == 0 ==> vmas == old(vmas)[addr := Vma(VVAR_LEN, Vvar)][addr - VTASK_LEN := Vma(VTASK_LEN, Vtask)]
    {
      ret := InstallVvar(addr, size, vvar);
      if ret < 0 { return; }
      FreeBeside(old(vmas), addr, Vma(VVAR_LEN, Vvar), addr - VTASK_LEN, VTASK_LEN);
      ret := InstallWindow(addr, size, vtask_);
      if ret < 0 { RemoveBoth(old(vmas), addr, Vma(VVAR_LEN, Vvar), addr + VVAR_LEN); }
    }

    // map_vdso. `found` is the page-aligned address get_unmapped_area returned;
    // the booleans are the outcomes of the three installs' allocations.
    method MapVdso(found: nat, size: nat, killed: bool, text: bool, vvar: bool, vtask_: bool) returns (ret: int)
      requires Valid() && !locked && size > 0 && found % PAGE_SIZE == 0
      modifies this
      ensures Valid() && !locked && ret <= 0
      ensures killed ==> ret == -EINTR
      ensures ret == 0 <==> !killed && text && vvar && vtask_ && RoomFor(old(vmas), found, size)
      ensures ret < 0 ==> vmas == old(vmas) && vdso == old(vdso) && vtask == old(vtask)
      ensures ret == 0 ==> vmas == old(vmas) + Layout(found + VTASK_LEN, size)
      ensures ret == 0 ==> old(vmas).Keys !! Layout(found + VTASK_LEN, size).Keys
      ensures ret == 0 ==> vtask == Some(found) && vdso == Some(found + VTASK_LEN + VVAR_LEN)
    {
      if killed { return -EINTR; }
      locked := true;
      var addr := found + VTASK_LEN;
      var textStart := addr + VVAR_LEN;
      RoomInParts(vmas, found, size);
      ret := Install(textStart, size, Text, text);
      if ret < 0 { locked := false; return; }
      AddThenRemove(old(vmas), textStart, Vma(size, Text));
      FreeBeside(old(vmas), textStart, Vma(size, Text), addr, VVAR_LEN);
      FreeBeside(old(vmas), textStart, Vma(size, Text), found, VTASK_LEN);
      ret := InstallBelow(addr, size, vvar, vtask_);
      if ret == 0 {
        vdso, vtask := Some(textStart), Some(addr - VTASK_LEN);
        LayoutAdds(old(vmas), addr, size);
      }
      locked := false;
    }
  }

  method AnyOverlap(vmas: map<nat, Vma>, start: nat, len: nat) returns (b: bool)
    ensures b <==> exists a :: a in vmas && Overlap(a, vmas[a].len, start, len)
  {
    var rest := vmas.Keys;
    while rest != {}
      invariant rest <= vmas.Keys
      invariant forall a :: a in vmas && a !in rest ==> !Overlap(a, vmas[a].len, start, len)
      decreases rest
    {
      var a :| a in rest;
      if Overlap(a, vmas[a].len, start, len) { return true; }
      rest := rest - {a};
    }
    return false;
  }

  // ---------------------------------------------------------------- filling the window

  // The page the kernel makes for user space: my_task_info.
  datatype Info = Info(offset: nat, pageNumber: nat, structSize: nat, judge: nat)

  datatype Pte = Frame(pfn: nat) | InfoPage(info: Info)

  // Where an access in the window ends up.
  datatype Target = Phys(a: nat) | InInfo(info: Info, at: nat)

  function Resolve(pte: Pte, inPage: nat): Target
  {
    match pte
    case Frame(pfn) => Phys(pfn * PAGE_SIZE + inPage)
    case InfoPage(info) => InInfo(info, inPage)
  }

  // What vtask_fault maps at page i for a task at physical address phys.
  function PteFor(i: nat, phys: nat, structSize: nat): Pte
  {
    if i < TASK_STRUCT_PAGE_NUMBER then Frame(phys / PAGE_SIZE + i)
    else InfoPage(Info(phys % PAGE_SIZE, 6, structSize, JUDGE))
  }

  class Window {
    const start: nat           // context.vtask, page aligned
    var ptes: map<nat, Pte>    // by page of the window

    constructor (start: nat)
      ensures this.start == start && ptes == map[]
    {
      this.start, ptes := start, map[];
    }

    // Only this task has faulted pages in.
    ghost predicate OneTask(phys: nat, structSize: nat)
      reads this
    {
      forall i :: i in ptes ==> i <= TASK_STRUCT_PAGE_NUMBER && ptes[i] == PteFor(i, phys, structSize)
    }

    // vtask_fault for the current task.
    method Fault(pgoff: nat, phys: nat, structSize: nat, memory: bool) returns (ok: bool)
      modifies this`ptes
      ensures ok <==> pgoff <= TASK_STRUCT_PAGE_NUMBER && (pgoff == TASK_STRUCT_PAGE_NUMBER ==> memory)
      ensures ptes == if ok then old(ptes)[pgoff := PteFor(pgoff, phys, structSize)] else old(ptes)
    {
      if pgoff > TASK_STRUCT_PAGE_NUMBER { return false; }
      if pgoff < TASK_STRUCT_PAGE_NUMBER {
        ptes := ptes[pgoff := Frame(phys / PAGE_SIZE + pgoff)];
        return true;
      }
      if !memory { return false; }
      ptes := ptes[pgoff := InfoPage(Info(phys % PAGE_SIZE, 6, structSize, JUDGE))];
      return true;
    }

    // An access: the page table answers, or the fault handler does first.
    method Touch(addr: nat, phys: nat, structSize: nat, memory: bool) returns (r: Option<Target>)
      requires start <= addr && OneTask(phys, structSize)
      modifies this`ptes
      ensures OneTask(phys, structSize)
      ensures r.Some? ==> (addr - start) / PAGE_SIZE <= TASK_STRUCT_PAGE_NUMBER
      ensures r.Some? ==> r.value == Reached(start, phys, structSize, addr)
      ensures memory && addr < start + VTASK_LEN ==> r.Some?
    {
      var i := (addr - start) / PAGE_SIZE;
      if i !in ptes {
        var ok := Fault(i, phys, structSize, memory);
        if !ok { return None; }
      }
      r := Some(Resolve(ptes[i], (addr - start) % PAGE_SIZE));
    }

    // __vdso_get_task_struct_info. hasInfo tells whether the caller passed a
    // structure, vdata is the address of the vvar data (0 for none), and pidAt is
    // where the pid was read from.
    method GetTaskStructInfo(hasInfo: bool, vdata: nat, pidOffset: nat, phys: nat, structSize: nat, memory: bool)
      returns (ret: int, ptr: nat, pidAt: Option<Target>)
      requires start % PAGE_SIZE == 0 && OneTask(phys, structSize)
      requires vdata != 0 ==> start + VTASK_LEN <= vdata < start + VTASK_LEN + PAGE_SIZE
      modifies this`ptes
      ensures OneTask(phys, structSize)
      ensures !hasInfo ==> ret == -1
      ensures hasInfo && vdata == 0 ==> ret == -EINVAL
      ensures hasInfo && vdata != 0 && memory && phys % PAGE_SIZE + pidOffset < VTASK_LEN ==> ret == 0
      ensures ret == 0 ==> hasInfo && ptr == start + phys % PAGE_SIZE
      ensures ret == 0 && phys % PAGE_SIZE + pidOffset < TASK_STRUCT_PAGE_NUMBER * PAGE_SIZE ==>
        pidAt == Some(Phys(phys + pidOffset))
    {
      ret, ptr, pidAt := -1, 0, None;                      // also stands for a fault that kills the caller
      if !hasInfo { return; }
      if vdata == 0 { ret := -EINVAL; return; }
      PageOf(start, vdata);
      var vinfo := vdata / PAGE_SIZE * PAGE_SIZE - PAGE_SIZE;
      InfoPageBelow(start + VTASK_LEN, 1, start, start + VTASK_LEN, phys, structSize);
      var t := Touch(vinfo, phys, structSize, memory);
      if t.None? || t.value.info.judge != JUDGE { return; }
      ptr := vinfo - TASK_STRUCT_PAGE_NUMBER * PAGE_SIZE + t.value.info.offset;
      pidAt := Touch(ptr + pidOffset, phys, structSize, memory);
      if pidAt.None? { return; }
      PointerReaches(start, phys, structSize, pidOffset);
      ret := 0;
    }
  }

  // ---------------------------------------------------------------- addresses

  // What an address of the window leads to when one task has filled it.
  function Reached(start: nat, phys: nat, structSize: nat, addr: nat): Target
    requires start <= addr
  {
    Resolve(PteFor((addr - start) / PAGE_SIZE, phys, structSize), (addr - start) % PAGE_SIZE)
  }

  // The vvar data lie in the first vvar page, so rounding down finds its start.
  lemma {:induction false} PageOf(start: nat, vdata: nat)
    requires start % PAGE_SIZE == 0 && start + VTASK_LEN <= vdata < start + VTASK_LEN + PAGE_SIZE
    ensures vdata / PAGE_SIZE * PAGE_SIZE == start + VTASK_LEN
  {
    var q := start / PAGE_SIZE;
    assert start == q * PAGE_SIZE && start + VTASK_LEN == (q + 6) * PAGE_SIZE;
    assert vdata / PAGE_SIZE == q + 6;
  }

  // In an installed layout the page directly below the vvar area is the last of
  // the window, the info page.
  lemma {:induction false} InfoPageBelow(addr: nat, size: nat, window: nat, vvar: nat, phys: nat, structSize: nat)
    requires addr >= VTASK_LEN && window in Layout(addr, size) && Layout(addr, size)[window].kind == Vtask
    requires vvar in Layout(addr, size) && Layout(addr, size)[vvar].kind == Vvar
    ensures window + VTASK_LEN == vvar
    ensures Reached(window, phys, structSize, vvar - PAGE_SIZE)
      == InInfo(Info(phys % PAGE_SIZE, 6, structSize, JUDGE), 0)
  {
    assert VTASK_LEN - PAGE_SIZE == TASK_STRUCT_PAGE_NUMBER * PAGE_SIZE;
  }

  // The pointer user space computes, plus b, leads to physical byte b of the
  // task exactly when the byte lies in the five mapped pages.
  lemma {:induction false} PointerReaches(start: nat, phys: nat, structSize: nat, b: nat)
    ensures Reached(start, phys, structSize, start + phys % PAGE_SIZE + b) == Phys(phys + b)
            <==> phys % PAGE_SIZE + b < TASK_STRUCT_PAGE_NUMBER * PAGE_SIZE
  {
    var x := phys % PAGE_SIZE + b;
    assert x / PAGE_SIZE < TASK_STRUCT_PAGE_NUMBER <==> x < TASK_STRUCT_PAGE_NUMBER * PAGE_SIZE;
    if x / PAGE_SIZE < TASK_STRUCT_PAGE_NUMBER {
      calc {
        (phys / PAGE_SIZE + x / PAGE_SIZE) * PAGE_SIZE + x % PAGE_SIZE;
        phys / PAGE_SIZE * PAGE_SIZE + (x / PAGE_SIZE * PAGE_SIZE + x % PAGE_SIZE);
        phys / PAGE_SIZE * PAGE_SIZE + x;
        phys + b;
      }
    }
  }

  // A page that another task of the same mm faulted in first does not lead to
  // this one's bytes.
  lemma {:induction false} OtherTasksPage(start: nat, mine: nat, other: nat, structSize: nat, b: nat)
    requires mine % PAGE_SIZE + b < TASK_STRUCT_PAGE_NUMBER * PAGE_SIZE
    ensures var x := mine % PAGE_SIZE + b;
      Resolve(PteFor(x / PAGE_SIZE, other, structSize), x % PAGE_SIZE) == Phys(mine + b) <==>
          other / PAGE_SIZE == mine / PAGE_SIZE
  {
    PointerReaches(start, mine, structSize, b);
    var x := mine % PAGE_SIZE + b;
    var i := x / PAGE_SIZE;
    assert (other / PAGE_SIZE + i) * PAGE_SIZE == (mine / PAGE_SIZE + i) * PAGE_SIZE <==>
        other / PAGE_SIZE == mine / PAGE_SIZE;
  }

  // ---------------------------------------------------------------- mapping, fault and pointer together

  // A mapping made by map_vdso, the window at context.vtask, and user space in
  // the text at context.vdso: the vvar data are at a fixed distance from the
  // text, `offset` bytes into the first vvar page. Whatever a successful
  // mapping installed, user space gets a pointer into the window, and through
  // it reads byte pidOffset of the task.
  method MapThenFind(mm: Mm, found: nat, size: nat, killed: bool, text: bool, vvar: bool, vtask_: bool,
                     offset: nat, pidOffset: nat, phys: nat, structSize: nat, memory: bool)
    returns (mapped: int, ret: int, ptr: nat, pidAt: Option<Target>)
    requires mm.Valid() && !mm.locked && size > 0 && found % PAGE_SIZE == 0 && offset < PAGE_SIZE
    modifies mm
    ensures mapped <= 0 && (mapped == 0 <==> !killed && text && vvar && vtask_ && RoomFor(old(mm.vmas), found, size))
    ensures mapped < 0 ==> mm.vmas == old(mm.vmas) && mm.vdso == old(mm.vdso) && mm.vtask == old(mm.vtask)
    ensures mapped < 0 ==> ret == mapped
    ensures mapped == 0 && ret == 0 ==> ptr == found + phys % PAGE_SIZE
    ensures mapped == 0 ==> mm.vmas == old(mm.vmas) + Layout(found + VTASK_LEN, size) && mm.vtask == Some(found)
    ensures mapped == 0 ==> mm.vtask.Some? && mm.vdso.Some? && mm.vdso.value >= VVAR_LEN
    // the text, vvar and window are where context says, and the vvar data in vvar
    ensures mapped == 0 ==>
      && IsArea(mm.vmas, mm.vdso.value, Text) && IsArea(mm.vmas, mm.vtask.value, Vtask)
      && IsArea(mm.vmas, mm.vdso.value - VVAR_LEN, Vvar) && offset < mm.vmas[mm.vdso.value - VVAR_LEN].len
    ensures mapped == 0 && memory && phys % PAGE_SIZE + pidOffset < TASK_STRUCT_PAGE_NUMBER * PAGE_SIZE ==>
      && ret == 0 && ptr == mm.vtask.value + phys % PAGE_SIZE && pidAt == Some(Phys(phys + pidOffset))
      && ptr + pidOffset < mm.vtask.value + mm.vmas[mm.vtask.value].len
  {
    ret, ptr, pidAt := 0, 0, None;
    mapped := mm.MapVdso(found, size, killed, text, vvar, vtask_);
    if mapped < 0 { ret := mapped; return; }
    assert Layout(found + VTASK_LEN, size).Keys == {found, found + VTASK_LEN, found + VTASK_LEN + VVAR_LEN};
    var window := new Window(mm.vtask.value);
    var vdata := mm.vdso.value - VVAR_LEN + offset;
    ret, ptr, pidAt := window.GetTaskStructInfo(true, vdata, pidOffset, phys, structSize, memory);
  }

  predicate IsArea(vmas: map<nat, Vma>, at: nat, kind: Kind)
  {
    at in vmas && vmas[at].kind == kind
  }

  // ---------------------------------------------------------------- vdso_addr

  const PMD_SIZE: nat := 2097152
  const DEFAULT_MAP_WINDOW: nat := 140737488351232   // 2^47 - PAGE_SIZE

  function RoundUp(x: nat, unit: nat): nat
    requires unit > 0
  {
    (x + unit - 1) / unit * unit
  }

  // The randomized start address, before the hardware's own alignment; the
  // third argument is the random number.
  function VdsoAddr(stack: nat, len: nat, random: nat): nat
  {
    var start := RoundUp(stack, PAGE_SIZE);
    var top := RoundUp(start + len, PMD_SIZE);
    var end := (if top >= DEFAULT_MAP_WINDOW then DEFAULT_MAP_WINDOW else top) - len;
    if end > start then start + random % ((end - start) / PAGE_SIZE + 1) * PAGE_SIZE else start
  }

  lemma {:induction false} RoundPage(x: nat)
    ensures RoundUp(x, PAGE_SIZE) % PAGE_SIZE == 0 && x <= RoundUp(x, PAGE_SIZE) < x + PAGE_SIZE
  {
  }

  lemma {:induction false} RoundPmd(x: nat)
    ensures x <= RoundUp(x, PMD_SIZE)
  {
  }

  lemma {:induction false} StaysAligned(start: nat, k: nat)
    requires start % PAGE_SIZE == 0
    ensures (start + k * PAGE_SIZE) % PAGE_SIZE == 0
  {
    var q := start / PAGE_SIZE;
    assert start + k * PAGE_SIZE == (q + k) * PAGE_SIZE;
  }

  lemma {:induction false} Scaled(x: nat, n: nat)
    requires x <= n / PAGE_SIZE
    ensures x * PAGE_SIZE <= n
  {
  }

  // It is page aligned, not below the stack, within a page of it, and, while
  // the window leaves room, the image ends in the same 2 MB block as the lowest
  // possible placement would.
  lemma {:induction false} VdsoAddrInBlock(stack: nat, len: nat, random: nat)
    ensures var a := VdsoAddr(stack, len, random); var start := RoundUp(stack, PAGE_SIZE);
      && a % PAGE_SIZE == 0 && stack <= start <= a && start < stack + PAGE_SIZE
      && (start + len <= DEFAULT_MAP_WINDOW ==>
            a + len <= RoundUp(start + len, PMD_SIZE) && a + len <= DEFAULT_MAP_WINDOW)
  {
    var start := RoundUp(stack, PAGE_SIZE);
    var top := RoundUp(start + len, PMD_SIZE);
    RoundPage(stack);
    RoundPmd(start + len);
    var end := (if top >= DEFAULT_MAP_WINDOW then DEFAULT_MAP_WINDOW else top) - len;
    if end > start {
      var k := random % ((end - start) / PAGE_SIZE + 1);
      Scaled(k, end - start);
      StaysAligned(start, k);
    }
  }

  // Every page in that range can come up: the random number decides which.
  lemma {:induction false} VdsoAddrIsRandom(stack: nat, len: nat, a: nat) returns (random: nat)
    requires a % PAGE_SIZE == 0 && a >= RoundUp(stack, PAGE_SIZE)
    requires a + len <= RoundUp(RoundUp(stack, PAGE_SIZE) + len, PMD_SIZE) && a + len <= DEFAULT_MAP_WINDOW
    ensures VdsoAddr(stack, len, random) == a
  {
    var start := RoundUp(stack, PAGE_SIZE);
    var top := RoundUp(start + len, PMD_SIZE);
    var end := (if top >= DEFAULT_MAP_WINDOW then DEFAULT_MAP_WINDOW else top) - len;
    RoundPage(stack);
    random := (a - start) / PAGE_SIZE;
    if end > start {
      InRange(start, a, end, random);
    }
  }

  lemma {:induction false} InRange(start: nat, a: nat, end: nat, k: nat)
    requires start % PAGE_SIZE == 0 && a % PAGE_SIZE == 0 && start <= a <= end && k == (a - start) / PAGE_SIZE
    ensures k % ((end - start) / PAGE_SIZE + 1) == k && start + k * PAGE_SIZE == a
  {
    assert k <= (end - start) / PAGE_SIZE;
  }
}
