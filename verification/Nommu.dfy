// ramfs without an MMU: a file grown from nothing gets physically contiguous
// pages, and a shared mapping of it is found by looking at those pages.

module Nommu {
  import opened Wrappers

  const PAGE_SIZE: nat := 4096
  const MAX_ORDER: nat := 11
  const EFBIG: int := 27
  const ENOMEM: int := 12
  const ENOSYS: int := 38

  // ---------------------------------------------------------------- sizes

  function Pow2(k: nat): nat
    ensures Pow2(k) > 0
  {
    if k == 0 then 1 else 2 * Pow2(k - 1)
  }

  // Pages that hold n bytes.
  function PagesFor(n: nat): nat
  {
    (n + PAGE_SIZE - 1) / PAGE_SIZE
  }

  // get_order: the least order whose block holds the size; 52 for zero, where
  // the computation wraps around.
  function GetOrder(size: nat): (k: nat)
    ensures size > 0 ==> PagesFor(size) <= Pow2(k) && (k > 0 ==> Pow2(k - 1) < PagesFor(size))
  {
    if size == 0 then 52 else OrderFrom(PagesFor(size), 0)
  }

  function OrderFrom(pages: nat, k: nat): (r: nat)
    requires k > 0 ==> Pow2(k - 1) < pages
    ensures pages <= Pow2(r) && (r > 0 ==> Pow2(r - 1) < pages)
    decreases pages - k
  {
    Pow2Grows(k);
    if pages <= Pow2(k) then k else OrderFrom(pages, k + 1)
  }

  lemma {:induction false} Pow2Grows(k: nat)
    ensures Pow2(k) > k
  {
    if k > 0 { Pow2Grows(k - 1); }
  }

  function Address(page: nat): nat
  {
    page * PAGE_SIZE
  }

  // ---------------------------------------------------------------- the inode and its pages

  // Pages base, base + 1, ... at indices 0, 1, ... below n.
  function Run(base: nat, n: nat): (r: map<nat, nat>)
    ensures forall i: nat :: i in r <==> i < n
    ensures forall i :: i in r ==> r[i] == base + i
  {
    if n == 0 then map[] else Run(base, n - 1)[n - 1 := base + n - 1]
  }

  // One reference to each of n pages from `from` on.
  function OneRef(refs: map<nat, nat>, from: nat, n: nat): (r: map<nat, nat>)
    ensures forall p :: p in r <==> p in refs || from <= p < from + n
    ensures forall p :: p in r ==> r[p] == if from <= p < from + n then 1 else refs[p]
  {
    if n == 0 then refs else OneRef(refs, from, n - 1)[from + n - 1 := 1]
  }

  predicate Free(refs: map<nat, nat>, base: nat, n: nat)
  {
    forall p :: base <= p < base + n ==> p !in refs
  }

  class Inode {
    var size: nat
    var cache: map<nat, nat>   // page cache: index to page frame
    var refs: map<nat, nat>    // reference counts of the allocated pages of the machine

    // __free_page: the only reference goes.
    method FreePage(p: nat)
      requires p in refs && refs[p] == 1
      modifies this`refs
      ensures refs == old(refs) - {p}
    {
      refs := refs - {p};
    }

    method PutPage(p: nat)
      requires p in refs && refs[p] > 0
      modifies this`refs
      ensures refs == if old(refs)[p] == 1 then old(refs) - {p} else old(refs)[p := old(refs)[p] - 1]
    {
      refs := if refs[p] == 1 then refs - {p} else refs[p := refs[p] - 1];
    }

    // add_to_page_cache_lru: the cache takes a reference of its own.
    method AddToPageCache(p: nat, index: nat)
      requires p in refs && index !in cache
      modifies this`refs, this`cache
      ensures refs == old(refs)[p := old(refs)[p] + 1] && cache == old(cache)[index := p]
    {
      refs, cache := refs[p := refs[p] + 1], cache[index := p];
    }

    // ramfs_nommu_expand_for_mapping. newsizeOk is the verdict of
    // inode_newsize_ok, block what alloc_pages returned, and failsAt the index
    // at which the page cache refuses a page, with its error.
    method Expand(newsize: nat, newsizeOk: int, block: Option<nat>, failsAt: Option<(nat, int)>) returns (ret: int)
      requires cache == map[] && newsizeOk <= 0
      requires block.Some? && GetOrder(newsize) < MAX_ORDER ==> Free(refs, block.value, Pow2(GetOrder(newsize)))
      requires failsAt.Some? ==> failsAt.value.1 < 0
      modifies this
      ensures GetOrder(newsize) >= MAX_ORDER ==> ret == -EFBIG && Is(old(size), old(cache), old(refs))
      ensures GetOrder(newsize) < MAX_ORDER && newsizeOk < 0 ==>
        ret == newsizeOk && Is(old(size), old(cache), old(refs))
      ensures GetOrder(newsize) < MAX_ORDER && newsizeOk == 0 && block.None? ==>
        ret == -ENOMEM && Is(newsize, old(cache), old(refs))
      ensures GetOrder(newsize) < MAX_ORDER && newsizeOk == 0 && block.Some? ==>
        var n := Attached(newsize, failsAt);
        ret == (if n < PagesFor(newsize) then failsAt.value.1 else 0)
            && Is(newsize, Run(block.value, n), OneRef(old(refs), block.value, n))
    {
      var order := GetOrder(newsize);
      if order >= MAX_ORDER { return -EFBIG; }
      if newsizeOk < 0 { return newsizeOk; }
      size := newsize;
      if block.None? { return -ENOMEM; }
      var base := block.value;
      var xpages, npages := Pow2(order), PagesFor(newsize);
      refs := OneRef(refs, base, xpages);             // alloc_pages and split_page
      FreeFrom(old(refs), base, npages, npages, xpages);  // pages that are not required
      ret := Attach(old(refs), base, npages, failsAt);
    }

    predicate Is(size': nat, cache': map<nat, nat>, refs': map<nat, nat>)
      reads this
    {
      size == size' && cache == cache' && refs == refs'
    }

    // find_get_pages_contig: the pages present from pgoff on without a gap, at
    // most n of them, a reference taken to each.
    method FindGetPagesContig(pgoff: nat, n: nat, pages: array<nat>) returns (nr: nat)
      requires pages.Length == n
      modifies this`refs, pages
      ensures nr <= n && pages[..nr] == Contig(cache, pgoff, n) && refs == Taken(old(refs), pages[..nr])
    {
      nr := 0;
      assert pages[..0] == [];
      while nr < n && pgoff + nr in cache
        invariant nr <= n && Contig(cache, pgoff, n) == pages[..nr] + Contig(cache, pgoff + nr, n - nr)
        invariant refs == Taken(old(refs), pages[..nr])
      {
        ghost var before := pages[..nr];
        pages[nr] := cache[pgoff + nr];
        refs := Take(refs, pages[nr]);
        nr := nr + 1;
        assert pages[..nr] == before + [pages[nr - 1]];
        assert pages[..nr][..nr - 1] == before;
      }
    }

    // Every cached page is allocated.
    ghost predicate CacheHeld()
      reads this
    {
      forall i :: i in cache ==> cache[i] in refs && refs[cache[i]] > 0
    }

    // ramfs_nommu_get_unmapped_area. arrayOk tells whether kcalloc succeeded.
    method GetUnmappedArea(len: nat, pgoff: nat, arrayOk: bool) returns (r: Result<nat>)
      requires len > 0 && CacheHeld()
      modifies this`refs
      ensures refs == old(refs)
      ensures r.Ok? <==> arrayOk && Mappable(size, cache, pgoff, PagesFor(len))
      ensures r.Ok? ==> r.value == Address(cache[pgoff])
      ensures r.Err? ==> r.errno == -ENOSYS
    {
      var lpages, maxpages := PagesFor(len), PagesFor(size);
      if pgoff >= maxpages { return Err(-ENOSYS); }
      if maxpages - pgoff < lpages { return Err(-ENOSYS); }
      if !arrayOk { return Err(-ENOSYS); }
      var pages := new nat[lpages];
      var nr := FindGetPagesContig(pgoff, lpages, pages);
      ContigPages(cache, pgoff, lpages);
      r := Err(-ENOSYS);
      assert forall k :: 0 <= k < nr ==> IsPageAt(cache, pgoff, pages[..nr], k) && pages[k] == pages[..nr][k];
      if nr == lpages {
        var adjacent := Adjacent(pages);
        assert pages[..nr] == pages[..];
        if adjacent { r := Ok(Address(pages[0])); }
      }
      PutAll(old(refs), pages, nr);
    }

    // The loop that drops the references again.
    method PutAll(ghost was: map<nat, nat>, pages: array<nat>, nr: nat)
      requires nr <= pages.Length && refs == Taken(was, pages[..nr])
      requires (forall k :: 0 <= k < nr ==> pages[k] in was && was[pages[k]] > 0)
      modifies this`refs
      ensures refs == was
    {
      for loop := 0 to nr
        invariant refs == Taken(was, pages[loop..nr])
      {
        TakenFirst(was, pages[loop..nr]);
        assert pages[loop..nr][1..] == pages[loop + 1..nr];
        TakenHeld(was, pages[loop + 1..nr], pages[loop]);
        PutPage(pages[loop]);
      }
      assert pages[nr..nr] == [];
    }

    // Free the pages from `lo` to `hi` of the block; those below `keep` stay.
    method FreeFrom(ghost was: map<nat, nat>, base: nat, ghost keep: nat, lo: nat, hi: nat)
      requires keep <= lo <= hi && Free(was, base, hi) && TwoRuns(was, refs, base, keep, lo, hi)
      modifies this`refs
      ensures refs == OneRef(was, base, keep)
    {
      for loop := lo to hi
        invariant TwoRuns(was, refs, base, keep, loop, hi)
      {
        FreePage(base + loop);
      }
      assert refs == OneRef(was, base, keep);
    }

    // The page cache's reference takes the place of the allocation's.
    method AttachOne(p: nat, index: nat)
      requires p in refs && refs[p] == 1 && index !in cache
      modifies this`refs, this`cache
      ensures refs == old(refs) && cache == old(cache)[index := p]
    {
      AddToPageCache(p, index);
      PutPage(p);
    }

    // The loop that puts the pages into the page cache, and its error exit.
    method Attach(ghost was: map<nat, nat>, base: nat, npages: nat, failsAt: Option<(nat, int)>) returns (ret: int)
      requires cache == map[] && Free(was, base, npages) && refs == OneRef(was, base, npages)
      requires failsAt.Some? ==> failsAt.value.1 < 0
      modifies this`refs, this`cache
      ensures var n := if failsAt.Some? && failsAt.value.0 < npages then failsAt.value.0 else npages;
        ret == (if n < npages then failsAt.value.1 else 0) && cache == Run(base, n) && refs == OneRef(was, base, n)
    {
      for loop := 0 to npages
        invariant cache == Run(base, loop) && refs == OneRef(was, base, npages)
        invariant failsAt.Some? ==> loop <= failsAt.value.0 || npages <= failsAt.value.0
      {
        if failsAt.Some? && failsAt.value.0 == loop {
          FreeFrom(was, base, loop, loop, npages);
          return failsAt.value.1;
        }
        AttachOne(base + loop, loop);
      }
      ret := 0;
    }
  }

  predicate InRuns(p: nat, base: nat, keep: nat, lo: nat, hi: nat)
  {
    base <= p < base + keep || base + lo <= p < base + hi
  }

  // One reference to each page below `keep` and from `lo` to `hi` of the block,
  // and every other page as it was.
  ghost predicate TwoRuns(was: map<nat, nat>, now: map<nat, nat>, base: nat, keep: nat, lo: nat, hi: nat)
  {
    && (forall p :: p in now <==> p in was || InRuns(p, base, keep, lo, hi))
    && (forall p :: p in now ==> now[p] == if InRuns(p, base, keep, lo, hi) then 1 else was[p])
  }

  // How many pages get into the page cache.
  function Attached(newsize: nat, failsAt: Option<(nat, int)>): nat
  {
    if failsAt.Some? && failsAt.value.0 < PagesFor(newsize) then failsAt.value.0 else PagesFor(newsize)
  }

  // ---------------------------------------------------------------- references

  function Take(refs: map<nat, nat>, p: nat): map<nat, nat>
  {
    refs[p := (if p in refs then refs[p] else 0) + 1]
  }

  // A reference to each page of the list, in order.
  function Taken(refs: map<nat, nat>, pages: seq<nat>): map<nat, nat>
  {
    if pages == [] then refs else Take(Taken(refs, pages[..|pages| - 1]), pages[|pages| - 1])
  }

  lemma {:induction false} TakenHeld(refs: map<nat, nat>, pages: seq<nat>, p: nat)
    requires p in refs && refs[p] > 0
    ensures p in Taken(refs, pages) && Taken(refs, pages)[p] > 0
  {
    if pages != [] { TakenHeld(refs, pages[..|pages| - 1], p); }
  }

  // The order does not matter: the first of the list may as well come last.
  lemma {:induction false} TakenFirst(refs: map<nat, nat>, pages: seq<nat>)
    requires pages != []
    ensures Taken(refs, pages) == Take(Taken(refs, pages[1..]), pages[0])
    decreases |pages|
  {
    if |pages| > 1 {
      var init := pages[..|pages| - 1];
      TakenFirst(refs, init);
      assert init[1..] == pages[1..][..|pages| - 2];
      assert pages[1..][|pages| - 2] == pages[|pages| - 1];
    } else {
      assert pages[1..] == [] && pages[..0] == [];
    }
  }

  // ---------------------------------------------------------------- what can be mapped

  // The pages from pgoff on up to the first that is missing, at most n.
  function Contig(cache: map<nat, nat>, pgoff: nat, n: nat): seq<nat>
    decreases n
  {
    if n == 0 || pgoff !in cache then [] else [cache[pgoff]] + Contig(cache, pgoff + 1, n - 1)
  }

  predicate Consecutive(pages: seq<nat>)
  {
    forall k :: 0 <= k < |pages| ==> pages[k] == pages[0] + k
  }

  // The range lies in the file, its pages exist and follow one another in memory.
  ghost predicate Mappable(size: nat, cache: map<nat, nat>, pgoff: nat, n: nat)
  {
    pgoff + n <= PagesFor(size) && InMemory(cache, pgoff, n)
  }

  predicate InMemory(cache: map<nat, nat>, pgoff: nat, n: nat)
  {
    pgoff in cache && forall k :: pgoff <= k < pgoff + n ==> k in cache && cache[k] == cache[pgoff] + (k - pgoff)
  }

  // What the gang lookup returns, page by page.
  lemma {:induction false} ContigAt(cache: map<nat, nat>, pgoff: nat, n: nat, k: nat)
    requires k < n
    ensures |Contig(cache, pgoff, n)| <= n
    ensures k < |Contig(cache, pgoff, n)| ==> pgoff + k in cache && Contig(cache, pgoff, n)[k] == cache[pgoff + k]
    ensures k == |Contig(cache, pgoff, n)| ==> pgoff + k !in cache
    decreases n
  {
    if pgoff in cache && k > 0 { ContigAt(cache, pgoff + 1, n - 1, k - 1); }
    else if pgoff in cache && n > 1 { ContigAt(cache, pgoff + 1, n - 1, 0); }
  }

  predicate IsPageAt(cache: map<nat, nat>, pgoff: nat, s: seq<nat>, k: nat)
    requires k < |s|
  {
    pgoff + k in cache && s[k] == cache[pgoff + k]
  }

  lemma {:induction false} ContigPages(cache: map<nat, nat>, pgoff: nat, n: nat)
    requires n > 0
    ensures var s := Contig(cache, pgoff, n);
      && |s| <= n && (forall k :: 0 <= k < |s| ==> IsPageAt(cache, pgoff, s, k))
      && (|s| == n && Consecutive(s) <==> InMemory(cache, pgoff, n))
  {
    var s := Contig(cache, pgoff, n);
    ContigAt(cache, pgoff, n, 0);
    forall k | 0 <= k < |s| ensures IsPageAt(cache, pgoff, s, k) { ContigAt(cache, pgoff, n, k); }
    if |s| < n { ContigAt(cache, pgoff, n, |s|); }
    if |s| == n && Consecutive(s) {
      forall k | pgoff <= k < pgoff + n ensures k in cache && cache[k] == cache[pgoff] + (k - pgoff) {
        assert IsPageAt(cache, pgoff, s, k - pgoff) && s[k - pgoff] == s[0] + (k - pgoff);
      }
    }
    if InMemory(cache, pgoff, n) {
      assert |s| < n ==> pgoff + |s| in cache;
      forall k | 0 <= k < |s| ensures s[k] == s[0] + k { assert IsPageAt(cache, pgoff, s, k); }
    }
  }

  // The loop over *ptr and page.
  method Adjacent(pages: array<nat>) returns (b: bool)
    requires pages.Length > 0
    ensures b <==> Consecutive(pages[..])
  {
    var page, i := pages[0] + 1, 1;
    while i < pages.Length
      invariant 1 <= i <= pages.Length && page == pages[0] + i
      invariant forall k :: 0 <= k < i ==> pages[k] == pages[0] + k
    {
      if pages[i] != page { return false; }
      i, page := i + 1, page + 1;
    }
    b := true;
  }

  // ---------------------------------------------------------------- the two together

  // Of a file that got n pages of one block, exactly the ranges below n can be
  // mapped, and each is at the block's address plus its offset.
  lemma {:induction false} LookupAgreesWithExpand(size: nat, base: nat, n: nat, pgoff: nat, k: nat)
    requires n <= PagesFor(size) && k > 0
    ensures Mappable(size, Run(base, n), pgoff, k) <==> pgoff + k <= n
    ensures pgoff + k <= n ==> Address(Run(base, n)[pgoff]) == Address(base) + pgoff * PAGE_SIZE
  {
    var c := Run(base, n);
    if Mappable(size, c, pgoff, k) { assert pgoff + k - 1 in c; }
  }

  // Every page of the block is attached, with one reference, at its own index,
  // or free; none is both, and pages outside the block are as they were.
  lemma {:induction false} PagesConserved(was: map<nat, nat>, base: nat, order: nat, n: nat, p: nat)
    requires n <= Pow2(order) && Free(was, base, Pow2(order))
    ensures var now, cache := OneRef(was, base, n), Run(base, n);
      && (base <= p < base + Pow2(order) ==>
            ((p in now && now[p] == 1 && p - base in cache && cache[p - base] == p) <==> p < base + n))
      && (base <= p < base + Pow2(order) ==> (p !in now && p !in cache.Values <==> p >= base + n))
      && (!(base <= p < base + Pow2(order)) ==>
            (p in now <==> p in was) && (p in now ==> now[p] == was[p]) && p !in cache.Values)
  {
    var now, cache := OneRef(was, base, n), Run(base, n);
    if base <= p < base + n { assert cache[p - base] == p; }
    forall i | i in cache ensures base <= cache[i] < base + n { }
  }

  // A grown file, then a lookup: the address is the base plus the offset, and
  // no reference is left behind.
  method ExpandThenLookup(inode: Inode, newsize: nat, base: nat, len: nat, pgoff: nat,
                          arrayOk: bool) returns (ret: int, r: Result<nat>)
    requires inode.cache == map[] && newsize > 0 && GetOrder(newsize) < MAX_ORDER && len > 0
    requires Free(inode.refs, base, Pow2(GetOrder(newsize)))
    modifies inode
    ensures ret == 0 && inode.refs == OneRef(old(inode.refs), base, PagesFor(newsize))
    ensures r.Ok? <==> arrayOk && pgoff + PagesFor(len) <= PagesFor(newsize)
    ensures r.Ok? ==> r.value == Address(base) + pgoff * PAGE_SIZE
  {
    ret := inode.Expand(newsize, 0, Some(base), None);
    r := inode.GetUnmappedArea(len, pgoff, arrayOk);
    LookupAgreesWithExpand(newsize, base, PagesFor(newsize), pgoff, PagesFor(len));
  }
}
