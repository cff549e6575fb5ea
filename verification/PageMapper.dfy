// The mapper as the kernel runs it: table memory and the pool pointer updated in place,
// entry by entry. Each method is proved against the functions of module Mapper.

module PageMapping {
  import opened Options
  import opened PageTables
  import opened PageEdits
  import opened Mapper
  import opened AddressSpaces
  import opened PageViews
  import opened KernelViews

  const PAGE: nat := 4096

  /** The kernel image: 8 MB from 1 MB on. */
  const IMAGE_START: nat := 0x100
  const IMAGE_END: nat := 0x900

  /** Pages lo .. hi map to themselves from root; every other page maps as it did in m0. */
  ghost predicate IdentityOn(m: Memory, m0: Memory, root: nat, lo: nat, hi: nat) {
    forall p: nat :: p < VIRTUAL_PAGES ==>
      Translate(m, root, VpnOf(p)) == if lo <= p < hi then Some(p) else Translate(m0, root, VpnOf(p))
  }

  /** From st to st' tables came from the pool, and every PD and PT of root is still reached. */
  ghost predicate StaysBuilt(st: State, st': State, root: nat) {
    && (PoolTables(st) ==> PoolTables(st')) && st'.base == st.base
    && (forall u :: Pd(st.mem, root, u).Some? ==> Pd(st'.mem, root, u).Some?)
    && (forall u :: Pt(st.mem, root, u).Some? ==> Pt(st'.mem, root, u).Some?)
  }

  lemma ConfinedStaysBuilt(st: State, lv: Levels, st': State, lv': Levels, root: nat, w: Vpn)
    requires Valid(st, lv) && IsRoot(st.mem, lv, root) && Confined(st, lv, st', lv', root, w)
    ensures StaysBuilt(st, st', root)
  {
    hide Pd, Pt, IsTree;
    if PoolTables(st) {
      ConfinedPool(st, lv, st', lv', root, w);
    }
    forall u
      ensures Pd(st.mem, root, u).Some? ==> Pd(st'.mem, root, u).Some?
      ensures Pt(st.mem, root, u).Some? ==> Pt(st'.mem, root, u).Some?
    {
      WalkStays(st.mem, st'.mem, lv, root, u);
    }
  }

  lemma BuiltStart(st: State, root: nat)
    ensures StaysBuilt(st, st, root)
  {
  }

  lemma BuiltOn(st0: State, st1: State, st2: State, root: nat)
    ensures StaysBuilt(st0, st1, root) && StaysBuilt(st1, st2, root) ==> StaysBuilt(st0, st2, root)
  {
    hide Pd, Pt, PoolTables;
  }

  lemma IdentityStep4K(st: State, lv: Levels, root: nat, m0: Memory, lo: nat, p: nat) returns (lv': Levels)
    requires Rooted(st, lv, root) && lo <= p < VIRTUAL_PAGES && IdentityOn(st.mem, m0, root, lo, p)
    ensures var (st', ok) := MapPage(st, root, VpnOf(p), p, KERNEL_RW);
      StaysBuilt(st, st', root) && Rooted(st', lv', root) && IdentityOn(st'.mem, m0, root, lo, if ok then p + 1 else p)
  {
    lv' := MapPageRefines(st, lv, root, VpnOf(p), p, KERNEL_RW);
    var (st', ok) := MapPage(st, root, VpnOf(p), p, KERNEL_RW);
    ConfinedStaysBuilt(st, lv, st', lv', root, VpnOf(p));
    RootsKept(st, lv, st', lv', root, VpnOf(p));
    MapPageUpdatesOnePage(st, lv, root, VpnOf(p), p, KERNEL_RW);
    forall q: nat | q < VIRTUAL_PAGES
      ensures Translate(st'.mem, root, VpnOf(q)) ==
        if ok && q == p then Some(p) else Translate(st.mem, root, VpnOf(q))
    {
      PageRoundTrip(p);
      PageRoundTrip(q);
    }
  }

  lemma Identity2MAt(st: State, lv: Levels, root: nat, p: nat, q: nat)
    requires Rooted(st, lv, root) && p + 512 <= VIRTUAL_PAGES && p % 512 == 0 && q < VIRTUAL_PAGES
    ensures var (st', ok) := MapPage2M(st, root, VpnOf(p), p, KERNEL_RW);
      Translate(st'.mem, root, VpnOf(q)) ==
        if ok && p <= q < p + 512 then Some(q) else Translate(st.mem, root, VpnOf(q))
  {
    LargePageRange(p, q);
    MapPage2MInTree(st, lv, root, VpnOf(p), p, KERNEL_RW, VpnOf(q));
  }

  lemma IdentityStep2M(st: State, lv: Levels, root: nat, m0: Memory, lo: nat, p: nat) returns (lv': Levels)
    requires Rooted(st, lv, root) && lo <= p && p + 512 <= VIRTUAL_PAGES && p % 512 == 0
    requires IdentityOn(st.mem, m0, root, lo, p)
    ensures var (st', ok) := MapPage2M(st, root, VpnOf(p), p, KERNEL_RW);
      StaysBuilt(st, st', root) && Rooted(st', lv', root) && IdentityOn(st'.mem, m0, root, lo, if ok then p + 512 else p)
  {
    lv' := MapPage2MRefines(st, lv, root, VpnOf(p), p, KERNEL_RW);
    var (st', ok) := MapPage2M(st, root, VpnOf(p), p, KERNEL_RW);
    ConfinedStaysBuilt(st, lv, st', lv', root, VpnOf(p));
    RootsKept(st, lv, st', lv', root, VpnOf(p));
    forall q: nat | q < VIRTUAL_PAGES
      ensures Translate(st'.mem, root, VpnOf(q)) ==
        if ok && p <= q < p + 512 then Some(q) else Translate(st.mem, root, VpnOf(q))
    {
      Identity2MAt(st, lv, root, p, q);
    }
  }

  lemma Identity1GAt(st: State, lv: Levels, root: nat, p: nat, q: nat)
    requires Rooted(st, lv, root) && p + 262144 <= VIRTUAL_PAGES && p % 262144 == 0 && q < VIRTUAL_PAGES
    ensures var (st', ok) := MapPage1G(st, root, VpnOf(p), p, KERNEL_RW);
      Translate(st'.mem, root, VpnOf(q)) ==
        if ok && p <= q < p + 262144 then Some(q) else Translate(st.mem, root, VpnOf(q))
  {
    LargePageRange(p, q);
    MapPage1GInTree(st, lv, root, VpnOf(p), p, KERNEL_RW, VpnOf(q));
  }

  lemma IdentityStep1G(st: State, lv: Levels, root: nat, m0: Memory, lo: nat, p: nat) returns (lv': Levels)
    requires Rooted(st, lv, root) && lo <= p && p + 262144 <= VIRTUAL_PAGES && p % 262144 == 0
    requires IdentityOn(st.mem, m0, root, lo, p)
    ensures var (st', ok) := MapPage1G(st, root, VpnOf(p), p, KERNEL_RW);
      StaysBuilt(st, st', root) && Rooted(st', lv', root) && IdentityOn(st'.mem, m0, root, lo, if ok then p + 262144 else p)
  {
    lv' := MapPage1GRefines(st, lv, root, VpnOf(p), p, KERNEL_RW);
    var (st', ok) := MapPage1G(st, root, VpnOf(p), p, KERNEL_RW);
    ConfinedStaysBuilt(st, lv, st', lv', root, VpnOf(p));
    RootsKept(st, lv, st', lv', root, VpnOf(p));
    forall q: nat | q < VIRTUAL_PAGES
      ensures Translate(st'.mem, root, VpnOf(q)) ==
        if ok && p <= q < p + 262144 then Some(q) else Translate(st.mem, root, VpnOf(q))
    {
      Identity1GAt(st, lv, root, p, q);
    }
  }

  lemma IdentityStart(m: Memory, root: nat, p: nat)
    ensures IdentityOn(m, m, root, p, p)
  {
    hide Translate;
  }

  /** A page of the first gigabyte that is mapped with a 4 KB page has a PD and a PT. */
  lemma LowPd(st: State, lv: Levels, root: nat, p: nat)
    requires Valid(st, lv) && IsRoot(st.mem, lv, root) && p < 0x4_0000
    ensures var (st', ok) := MapPage(st, root, VpnOf(p), p, KERNEL_RW);
      ok ==> Pd(st'.mem, root, Vpn(0, 0, 0, 0)).Some? && Pt(st'.mem, root, VpnOf(p)).Some?
  {
    hide MapPage, ViaPml4e, VpnOf, IsTree, LinksKept;
    var lv' := MapPageRefines(st, lv, root, VpnOf(p), p, KERNEL_RW);
    LowDigits(p);
  }

  lemma LowDigits(p: nat)
    requires p < 0x4_0000
    ensures VpnOf(p).i4 == 0 && VpnOf(p).i3 == 0
  {
    assert p / 512 / 512 == 0;
  }

  lemma LowPdStays(st0: State, st1: State, st2: State, st3: State, root: nat)
    requires StaysBuilt(st0, st1, root) && StaysBuilt(st1, st2, root) && StaysBuilt(st2, st3, root) && PoolTables(st0)
    requires Pd(st1.mem, root, Vpn(0, 0, 0, 0)).Some?
    ensures PoolTables(st3) && Pd(st3.mem, root, Vpn(0, 0, 0, 0)).Some?
  {
    hide Pd;
  }

  lemma EmptyRooted(st: State, r: nat)
    requires st == State(map[r := EmptyTable()], 1, r)
    ensures Rooted(st, map[r := 4], r) && PoolTables(st)
  {
    assert forall i: Index :: st.mem[r][i] == ABSENT;
    assert forall u :: Pdpt(st.mem, r, u).None?;
  }

  /** A kernel root alone, with a table for its first gigabyte, satisfies the invariant. */
  lemma BootedInv(st: State, lv: Levels, root: nat)
    requires Rooted(st, lv, root) && Pd(st.mem, root, Vpn(0, 0, 0, 0)).Some?
    ensures Inv(Sys(st, root, map[], {}), lv)
  {
  }

  /** How many frames the first page of an identity-mapped range takes. */
  function FirstSize(page: nat, end: nat): (n: nat) {
    if page % 262144 == 0 && end >= (page + 262144) * PAGE then 262144
    else if page % 512 == 0 && end >= (page + 512) * PAGE then 512
    else 1
  }

  /** What the identity mapping of pages lo to hi leaves: kernel memory there, views outside, and
      open links. */
  ghost predicate Laid(m: Memory, m0: Memory, root: nat, lo: nat, hi: nat) {
    && Tidy(m, root, lo, hi) && OutsideKept(m, m0, root, lo, hi) && (AllOpen(m0, root) ==> AllOpen(m, root))
  }

  lemma LaidStart(m: Memory, root: nat, p: nat)
    ensures Laid(m, m, root, p, p)
  {
    hide *;
    TidyStart(m, root, p);
    LaidFrom(m, m, root, p, p);
  }

  lemma LaidFrom(m: Memory, m0: Memory, root: nat, lo: nat, hi: nat)
    requires Tidy(m, root, lo, hi) && OutsideKept(m, m0, root, lo, hi) && (AllOpen(m0, root) ==> AllOpen(m, root))
    ensures Laid(m, m0, root, lo, hi)
  {
    hide Tidy, OutsideKept, AllOpen;
  }

  lemma LaidStep(m: Memory, m': Memory, m0: Memory, root: nat, lo: nat, p: nat, n: nat, ok: bool)
    requires Laid(m, m0, root, lo, p) && Stepped(m, m', root, p, n, ok) && IsBlock(p, n) && lo <= p
    requires AllOpen(m, root) ==> AllOpen(m', root)
    ensures Laid(m', m0, root, lo, if ok then p + n else p)
  {
    hide Tidy, OutsideKept, AllOpen, Stepped, IsBlock;
    TidyStep(m, m', root, lo, p, n, ok);
    OutsideStep(m, m', m0, root, lo, p, n, ok);
  }

  lemma Laid4K(st: State, lv: Levels, root: nat, m0: Memory, lo: nat, p: nat)
    requires Rooted(st, lv, root) && lo <= p < VIRTUAL_PAGES && Laid(st.mem, m0, root, lo, p)
    ensures var (st', ok) := MapPage(st, root, VpnOf(p), p, KERNEL_RW);
      && Laid(st'.mem, m0, root, lo, if ok then p + 1 else p)
      && (lo < p ==> forall size :: PageSize(st.mem, root, lo, size) ==> PageSize(st'.mem, root, lo, size))
      && (p == lo && ok ==> PageSize(st'.mem, root, lo, 1))
  {
    hide MapPage, Rooted, Laid, Tidy, Stepped, PageSize, VpnOf;
    Step4K(st, lv, root, p);
    var (st', ok) := MapPage(st, root, VpnOf(p), p, KERNEL_RW);
    LaidStep(st.mem, st'.mem, m0, root, lo, p, 1, ok);
    LaidTidy(st.mem, m0, root, lo, p);
    if p == lo && ok {
      SizeStep(st.mem, st'.mem, root, lo, p, 1, ok, 1);
    }
    forall size | lo < p && PageSize(st.mem, root, lo, size) ensures PageSize(st'.mem, root, lo, size) {
      SizeStep(st.mem, st'.mem, root, lo, p, 1, ok, size);
    }
  }

  lemma LaidTidy(m: Memory, m0: Memory, root: nat, lo: nat, hi: nat)
    requires Laid(m, m0, root, lo, hi)
    ensures Tidy(m, root, lo, hi)
  {
    hide Tidy;
  }

  lemma Laid2M(st: State, lv: Levels, root: nat, m0: Memory, lo: nat, p: nat)
    requires Rooted(st, lv, root) && lo <= p && p + 512 <= VIRTUAL_PAGES && p % 512 == 0 && Laid(st.mem, m0, root, lo, p)
    ensures var (st', ok) := MapPage2M(st, root, VpnOf(p), p, KERNEL_RW);
      && Laid(st'.mem, m0, root, lo, if ok then p + 512 else p)
      && (lo < p ==> forall size :: PageSize(st.mem, root, lo, size) ==> PageSize(st'.mem, root, lo, size))
      && (p == lo && ok ==> PageSize(st'.mem, root, lo, 512))
  {
    hide MapPage2M, Rooted, Laid, Tidy, Stepped, PageSize, VpnOf;
    Step2M(st, lv, root, p);
    var (st', ok) := MapPage2M(st, root, VpnOf(p), p, KERNEL_RW);
    LaidStep(st.mem, st'.mem, m0, root, lo, p, 512, ok);
    LaidTidy(st.mem, m0, root, lo, p);
    if p == lo && ok {
      SizeStep(st.mem, st'.mem, root, lo, p, 512, ok, 512);
    }
    forall size | lo < p && PageSize(st.mem, root, lo, size) ensures PageSize(st'.mem, root, lo, size) {
      SizeStep(st.mem, st'.mem, root, lo, p, 512, ok, size);
    }
  }

  lemma Laid1G(st: State, lv: Levels, root: nat, m0: Memory, lo: nat, p: nat)
    requires Rooted(st, lv, root) && lo <= p && p + 262144 <= VIRTUAL_PAGES && p % 262144 == 0
    requires Laid(st.mem, m0, root, lo, p)
    ensures var (st', ok) := MapPage1G(st, root, VpnOf(p), p, KERNEL_RW);
      && Laid(st'.mem, m0, root, lo, if ok then p + 262144 else p)
      && (lo < p ==> forall size :: PageSize(st.mem, root, lo, size) ==> PageSize(st'.mem, root, lo, size))
      && (p == lo && ok ==> PageSize(st'.mem, root, lo, 262144))
  {
    hide MapPage1G, Rooted, Laid, Tidy, Stepped, PageSize, VpnOf;
    Step1G(st, lv, root, p);
    var (st', ok) := MapPage1G(st, root, VpnOf(p), p, KERNEL_RW);
    LaidStep(st.mem, st'.mem, m0, root, lo, p, 262144, ok);
    LaidTidy(st.mem, m0, root, lo, p);
    if p == lo && ok {
      SizeStep(st.mem, st'.mem, root, lo, p, 262144, ok, 262144);
    }
    forall size | lo < p && PageSize(st.mem, root, lo, size) ensures PageSize(st'.mem, root, lo, size) {
      SizeStep(st.mem, st'.mem, root, lo, p, 262144, ok, size);
    }
  }

  // ----- what booting leaves -----

  const IMAGE_TABLES_END: nat := 0xA00

  /** Pages lo to hi have page tables. */
  ghost predicate Paged(m: Memory, root: nat, lo: nat, hi: nat) {
    forall p: nat :: lo <= p < hi ==> Pt(m, root, VpnOf(p)).Some?
  }

  /** The page tables of m that m0 has not are those of the first five 2 MB. */
  ghost predicate PtsLow(m: Memory, m0: Memory, root: nat) {
    forall q: nat :: q < VIRTUAL_PAGES && Pt(m, root, VpnOf(q)).Some? ==>
      Pt(m0, root, VpnOf(q)).Some? || q < IMAGE_TABLES_END
  }

  lemma PagedStart(m: Memory, root: nat)
    ensures Paged(m, root, IMAGE_START, IMAGE_START) && PtsLow(m, m, root)
  {
    hide Pt;
  }

  lemma RootedIs(st: State, lv: Levels, root: nat)
    requires Rooted(st, lv, root)
    ensures Valid(st, lv) && IsRoot(st.mem, lv, root)
  {
  }

  lemma ImageStep(st: State, lv: Levels, root: nat, m0: Memory, p: nat)
    requires Rooted(st, lv, root) && IMAGE_START <= p < IMAGE_END
    requires Paged(st.mem, root, IMAGE_START, p) && PtsLow(st.mem, m0, root)
    ensures var (st', ok) := MapPage(st, root, VpnOf(p), p, KERNEL_RW);
      PtsLow(st'.mem, m0, root) && (ok ==> Paged(st'.mem, root, IMAGE_START, p + 1))
  {
    hide MapPage, ViaPml4e, Pd, Pt, VpnOf, IsTree;
    var (st', ok) := MapPage(st, root, VpnOf(p), p, KERNEL_RW);
    var lv' := MapPageRefines(st, lv, root, VpnOf(p), p, KERNEL_RW);
    ConfinedStaysBuilt(st, lv, st', lv', root, VpnOf(p));
    MapPageAlong(st, lv, root, VpnOf(p), p, KERNEL_RW);
    forall q: nat | q < VIRTUAL_PAGES && Pt(st'.mem, root, VpnOf(q)).Some?
      ensures Pt(m0, root, VpnOf(q)).Some? || q < IMAGE_TABLES_END
    {
      BlockDigits(q, p);
    }
  }

  /** Pages that become user memory when the first frame of the region is mapped again: the rest of
      the large page it is on. */
  predicate BecomesUser(first: nat, end: nat, p: nat) {
    IMAGE_TABLES_END <= first < p < first + FirstSize(first, end)
  }

  lemma ImageStays(st1: State, st2: State, lv2: Levels, st3: State, root: nat, m0: Memory, first: nat, hi: nat, p: nat)
    requires Tidy(st1.mem, root, IMAGE_START, IMAGE_END) && Paged(st1.mem, root, IMAGE_START, IMAGE_END)
    requires StaysBuilt(st1, st2, root) && Laid(st2.mem, st1.mem, root, first, hi) && Rooted(st2, lv2, root)
    requires first < VIRTUAL_PAGES && MapPage(st2, root, VpnOf(first), first, KERNEL_RW) == (st3, true)
    requires IMAGE_START <= p < IMAGE_END
    ensures IsKernel(View(st3.mem, root, VpnOf(p)), p)
  {
    hide MapPage, View, Pd, Pt, VpnOf, OnLargePage, OnGigPage, Rooted, AllOpen;
    PtIsSmall(st1.mem, root, VpnOf(p));
    PtIsSmall(st2.mem, root, VpnOf(p));
    assert IsKernel(View(st1.mem, root, VpnOf(p)), p);
    assert IsKernel(View(st2.mem, root, VpnOf(p)), p);
    Step4K(st2, lv2, root, first);
    assert SteppedAt(st2.mem, st3.mem, root, first, 1, true, p);
  }

  lemma RegionIs(st1: State, st2: State, lv2: Levels, st3: State, root: nat, first: nat, end: nat, hi: nat, p: nat)
    requires Paged(st1.mem, root, IMAGE_START, IMAGE_END) && PtsLow(st1.mem, map[], root)
    requires StaysBuilt(st1, st2, root) && Laid(st2.mem, st1.mem, root, first, hi) && Rooted(st2, lv2, root)
    requires first < VIRTUAL_PAGES && MapPage(st2, root, VpnOf(first), first, KERNEL_RW) == (st3, true)
    requires first * PAGE < end && Pt(st1.mem, root, VpnOf(first)).None? ==>
               PageSize(st2.mem, root, first, FirstSize(first, end))
    requires first <= p < hi <= VIRTUAL_PAGES && first * PAGE < end
    ensures View(st3.mem, root, VpnOf(p)) == Some(Mapping(p, true, BecomesUser(first, end, p), false))
  {
    hide MapPage, View, Pd, Pt, VpnOf, OnLargePage, OnGigPage, Rooted, AllOpen, OutsideKept, PageSize;
    assert IsKernel(View(st2.mem, root, VpnOf(p)), p);
    if p == first {
      Step4K(st2, lv2, root, first);
      assert SteppedAt(st2.mem, st3.mem, root, first, 1, true, p);
    } else if first < IMAGE_TABLES_END {
      LowHasPt(st1.mem, root, first);
      SmallSize(st2.mem, root, first);
      RemapRaises(st2, lv2, root, first, p, 1);
    } else {
      HighHasNoPt(st1.mem, root, first);
      var n := FirstSize(first, end);
      RemapRaises(st2, lv2, root, first, p, n);
      InBlock(first, end, p);
    }
  }

  /** All views of a kernel that has booted. */
  lemma BootViews(st0: State, st1: State, st2: State, lv2: Levels, st3: State, root: nat, first: nat, end: nat, hi: nat)
    requires st0.mem == map[root := EmptyTable()] && Laid(st1.mem, st0.mem, root, IMAGE_START, IMAGE_END)
    requires Paged(st1.mem, root, IMAGE_START, IMAGE_END) && PtsLow(st1.mem, st0.mem, root)
    requires StaysBuilt(st1, st2, root) && Laid(st2.mem, st1.mem, root, first, hi) && Rooted(st2, lv2, root)
    requires first < VIRTUAL_PAGES && MapPage(st2, root, VpnOf(first), first, KERNEL_RW) == (st3, true)
    requires first * PAGE < end && Pt(st1.mem, root, VpnOf(first)).None? ==>
               PageSize(st2.mem, root, first, FirstSize(first, end))
    requires hi <= VIRTUAL_PAGES && (first < hi ==> first * PAGE < end)
    ensures AllOpen(st3.mem, root)
    ensures forall p: nat :: IMAGE_START <= p < IMAGE_END ==>
      View(st3.mem, root, VpnOf(p)) == Some(Mapping(p, true, false, false))
    ensures forall p: nat :: first <= p < hi ==>
      View(st3.mem, root, VpnOf(p)) == Some(Mapping(p, true, BecomesUser(first, end, p), false))
  {
    hide Translate, Pd, Pt, MapPage, VpnOf, View, Paged, Tidy, BecomesUser, PageSize, FirstSize, Rooted, OutsideKept, StaysBuilt;
    EmptyIsOpen(root);
    LaidOpens(st1.mem, st0.mem, root, IMAGE_START, IMAGE_END);
    LaidOpens(st2.mem, st1.mem, root, first, hi);
    Step4K(st2, lv2, root, first);
    NoPtsBefore(st1.mem, root);
    forall p: nat | IMAGE_START <= p < IMAGE_END
      ensures View(st3.mem, root, VpnOf(p)) == Some(Mapping(p, true, false, false))
    {
      LaidTidy(st1.mem, st0.mem, root, IMAGE_START, IMAGE_END);
      ImageStays(st1, st2, lv2, st3, root, st0.mem, first, hi, p);
    }
    forall p: nat | first <= p < hi
      ensures View(st3.mem, root, VpnOf(p)) == Some(Mapping(p, true, BecomesUser(first, end, p), false))
    {
      RegionIs(st1, st2, lv2, st3, root, first, end, hi, p);
    }
  }

  lemma EmptyIsOpen(root: nat)
    ensures AllOpen(map[root := EmptyTable()], root)
  {
  }

  lemma NoPtsBefore(m: Memory, root: nat)
    requires PtsLow(m, map[root := EmptyTable()], root)
    ensures PtsLow(m, map[], root)
  {
    hide VpnOf;
    assert forall u :: Pt(map[root := EmptyTable()], root, u).None?;
  }

  lemma LaidOpens(m: Memory, m0: Memory, root: nat, lo: nat, hi: nat)
    requires Laid(m, m0, root, lo, hi) && AllOpen(m0, root)
    ensures AllOpen(m, root)
  {
    hide AllOpen, Tidy, OutsideKept;
  }

  lemma InBlock(first: nat, end: nat, p: nat)
    requires first < p
    ensures var n := FirstSize(first, end); n > 1 && p / n == first / n <==> p < first + n
  {
  }

  lemma SmallSize(m: Memory, root: nat, p: nat)
    requires Pt(m, root, VpnOf(p)).Some?
    ensures PageSize(m, root, p, 1)
  {
    PtIsSmall(m, root, VpnOf(p));
  }

  /** Below 10 MB every page shares a page table with the image. */
  lemma LowHasPt(m: Memory, root: nat, p: nat)
    requires Paged(m, root, IMAGE_START, IMAGE_END) && p < IMAGE_TABLES_END
    ensures Pt(m, root, VpnOf(p)).Some?
  {
    hide Pt, VpnOf;
    var q := if p < IMAGE_START then IMAGE_START else if p >= IMAGE_END then IMAGE_END - 1 else p;
    assert p / 512 == q / 512;
    SamePt(m, root, p, q);
  }

  lemma HighHasNoPt(m: Memory, root: nat, p: nat)
    requires PtsLow(m, map[], root) && IMAGE_TABLES_END <= p < VIRTUAL_PAGES
    ensures Pt(m, root, VpnOf(p)).None?
  {
    hide VpnOf;
    assert Pt(map[], root, VpnOf(p)).None?;
  }

  class PageMapper {
    var mem: Memory
    var next: nat
    const base: nat

    ghost function St(): State
      reads this
    {
      State(mem, next, base)
    }

    constructor (base: nat)
      ensures St() == State(map[], 0, base)
      ensures forall lv :: Valid(St(), lv) <==> lv == map[]
    {
      this.base := base;
      mem := map[];
      next := 0;
    }

    method AllocTablePage() returns (r: Option<nat>)
      modifies this`next
      ensures r == if old(next) < 512 then Some(base + old(next)) else None
      ensures next == if r.Some? then old(next) + 1 else old(next)
    {
      if next >= PT_POOL_PAGES {
        return None;
      }
      r := Some(base + next);
      next := next + 1;
    }

    method GetOrAllocChild(parent: nat, i: Index) returns (r: Option<nat>)
      modifies this
      ensures (St(), r) == EnsurePdpt(old(St()), parent, i)
    {
      var e := Get(mem, parent, i);
      if e.present {
        mem := Patch(mem, parent, i, e.(user := true));
        return Some(e.frame);
      }
      r := AllocTablePage();
      if r.Some? {
        mem := Patch(mem, parent, i, LinkTo(r.value))[r.value := EmptyTable()];
      }
    }

    method GetOrAllocPd(pdpt: nat, i: Index) returns (r: Option<nat>)
      modifies this
      ensures (St(), r) == EnsurePd(old(St()), pdpt, i)
    {
      var e := Get(mem, pdpt, i);
      if !e.present {
        r := GetOrAllocChild(pdpt, i);
        return;
      }
      if !e.ps {
        mem := Patch(mem, pdpt, i, e.(user := true));
        return Some(e.frame);
      }
      r := AllocTablePage();
      if r.Some? {
        var pd: Table := EmptyTable();
        var baseFrame := AlignDown(e.frame, 262144);
        for j := 0 to 512
          invariant forall k :: 0 <= k < j ==> pd[k] == Split1G(e)[k]
        {
          pd := pd[j := Entry(e.present, e.writable, true, true, false, baseFrame + j * 512)];
        }
        assert pd == Split1G(e);
        mem := Patch(mem, pdpt, i, LinkTo(r.value))[r.value := pd];
      }
    }

    method GetOrAllocPt(pd: nat, i: Index) returns (r: Option<nat>)
      modifies this
      ensures (St(), r) == EnsurePt(old(St()), pd, i)
    {
      var e := Get(mem, pd, i);
      if !e.present {
        r := GetOrAllocChild(pd, i);
        return;
      }
      if !e.ps {
        mem := Patch(mem, pd, i, e.(user := true));
        return Some(e.frame);
      }
      r := AllocTablePage();
      if r.Some? {
        var pt: Table := EmptyTable();
        var baseFrame := AlignDown(e.frame, 512);
        for j := 0 to 512
          invariant forall k :: 0 <= k < j ==> pt[k] == Split2M(e)[k]
        {
          pt := pt[j := Entry(e.present, e.writable, true, false, false, baseFrame + j)];
        }
        assert pt == Split2M(e);
        mem := Patch(mem, pd, i, LinkTo(r.value))[r.value := pt];
      }
    }

    method PropagateUser(user: bool, table: nat, i: Index)
      modifies this`mem
      ensures St() == MarkUserIf(old(St()), user, table, i)
    {
      if user {
        mem := Patch(mem, table, i, Get(mem, table, i).(user := true));
      }
    }

    method MapPageIntoSpace(root: nat, w: Vpn, frame: nat, fl: Flags) returns (ok: bool)
      modifies this
      ensures (St(), ok) == MapPage(old(St()), root, w, frame, fl)
    {
      var pdpt := GetOrAllocChild(root, w.i4);
      if pdpt.None? {
        return false;
      }
      PropagateUser(fl.user, root, w.i4);
      var pd := GetOrAllocPd(pdpt.value, w.i3);
      if pd.None? {
        return false;
      }
      PropagateUser(fl.user, pdpt.value, w.i3);
      var pt := GetOrAllocPt(pd.value, w.i2);
      if pt.None? {
        return false;
      }
      PropagateUser(fl.user, pd.value, w.i2);
      mem := Patch(mem, pt.value, w.i1, LeafEntry(frame, fl, false));
      ok := true;
    }

    method MapPage2MIntoSpace(root: nat, w: Vpn, frame: nat, fl: Flags) returns (ok: bool)
      modifies this
      ensures (St(), ok) == MapPage2M(old(St()), root, w, frame, fl)
    {
      if w.i1 != 0 || frame % 512 != 0 {
        return false;
      }
      var pdpt := GetOrAllocChild(root, w.i4);
      if pdpt.None? {
        return false;
      }
      var pd := GetOrAllocPd(pdpt.value, w.i3);
      if pd.None? {
        return false;
      }
      var e := Get(mem, pd.value, w.i2);
      if e.present && !e.ps {
        return false;
      }
      mem := Patch(mem, pd.value, w.i2, LeafEntry(frame, fl, true));
      ok := true;
    }

    method MapPage1GIntoSpace(root: nat, w: Vpn, frame: nat, fl: Flags) returns (ok: bool)
      modifies this
      ensures (St(), ok) == MapPage1G(old(St()), root, w, frame, fl)
    {
      if w.i2 != 0 || w.i1 != 0 || frame % 262144 != 0 {
        return false;
      }
      var pdpt := GetOrAllocChild(root, w.i4);
      if pdpt.None? {
        return false;
      }
      var e := Get(mem, pdpt.value, w.i3);
      if e.present && !e.ps {
        return false;
      }
      mem := Patch(mem, pdpt.value, w.i3, LeafEntry(frame, fl, true));
      ok := true;
    }

    method UnmapPageInSpace(root: nat, w: Vpn)
      modifies this`mem
      ensures St() == UnmapPage(old(St()), root, w)
    {
      var e := Get(mem, root, w.i4);
      if !e.present {
        return;
      }
      var pdpt := e.frame;
      e := Get(mem, pdpt, w.i3);
      if !e.present {
        return;
      }
      var pd := e.frame;
      e := Get(mem, pd, w.i2);
      if !e.present {
        return;
      }
      mem := Patch(mem, e.frame, w.i1, ABSENT);
    }

    method TranslateInSpace(root: nat, w: Vpn) returns (r: Option<nat>)
      ensures r == Translate(mem, root, w)
    {
      var e := Get(mem, root, w.i4);
      if !e.present {
        return None;
      }
      e := Get(mem, e.frame, w.i3);
      if !e.present {
        return None;
      }
      if e.ps {
        return Some(AlignDown(e.frame, 262144) + w.i2 * 512 + w.i1);
      }
      e := Get(mem, e.frame, w.i2);
      if !e.present {
        return None;
      }
      if e.ps {
        return Some(AlignDown(e.frame, 512) + w.i1);
      }
      e := Get(mem, e.frame, w.i1);
      if !e.present {
        return None;
      }
      return Some(e.frame);
    }

    /** A fresh root that copies the kernel's, with private tables towards the user ranges. */
    method CreateProcessRoot(kernel: nat) returns (r: Option<nat>)
      modifies this
      ensures (St(), r) == CreateProcess(old(St()), kernel)
    {
      hide Get, Patch;
      r := AllocTablePage();
      if r.None? {
        return;
      }
      var root := r.value;
      var e4 := Get(mem, kernel, 0);
      var pdptTable := TableOf(mem, e4.frame);
      var e3 := Get(mem, e4.frame, 0);
      var pdTable := TableOf(mem, e3.frame);
      mem := mem[root := TableOf(mem, kernel)];
      if e4.present {
        var pdpt := AllocTablePage();
        if pdpt.None? {
          return None;
        }
        mem := mem[pdpt.value := pdptTable];
        mem := Patch(mem, root, 0, e4.(frame := pdpt.value));
        if e3.present && !e3.ps {
          var pd := AllocTablePage();
          if pd.None? {
            return None;
          }
          mem := mem[pd.value := pdTable[5 := ABSENT]];
          mem := Patch(mem, pdpt.value, 0, e3.(frame := pd.value));
        }
      }
      mem := Patch(mem, root, 255, ABSENT);
    }

    /** Identity-map the bytes paStart .. paStart + len with the largest pages that fit. On
        success exactly the pages of that range changed and each maps to itself; on failure
        the same holds of an initial part of the range. */
    method IdentityMapRange(root: nat, paStart: nat, len: nat, ghost lv: Levels)
      returns (ok: bool, ghost lv': Levels, ghost done: nat)
      requires Rooted(St(), lv, root)
      requires paStart + len <= VIRTUAL_PAGES * PAGE
      modifies this
      ensures Rooted(St(), lv', root) && StaysBuilt(old(St()), St(), root)
      ensures IdentityOn(mem, old(mem), root, paStart / PAGE, done)
      ensures ok ==> done == if len == 0 && paStart % PAGE == 0 then paStart / PAGE
                             else (paStart + len + PAGE - 1) / PAGE
      ensures done <= (paStart + len + PAGE - 1) / PAGE
      ensures Laid(mem, old(mem), root, paStart / PAGE, done)
      ensures var page := paStart / PAGE;
        ok && page * PAGE < paStart + len && Pt(old(mem), root, VpnOf(page)).None? ==>
          PageSize(mem, root, page, FirstSize(page, paStart + len))
    {
      hide MapPage, MapPage2M, MapPage1G, VpnOf, Rooted, IdentityOn, Pd, Pt, PoolTables, Laid, PageSize, StaysBuilt;
      var page := paStart / PAGE;
      var end := paStart + len;
      lv' := lv;
      ghost var lo, size := page, FirstSize(page, end);
      IdentityStart(mem, root, lo);
      LaidStart(mem, root, lo);
      BuiltStart(St(), root);
      while page * PAGE < end
        invariant lo <= page && page * PAGE < end + PAGE
        invariant Laid(mem, old(mem), root, lo, page)
        invariant page > lo && Pt(old(mem), root, VpnOf(lo)).None? ==> PageSize(mem, root, lo, size)
        invariant page == lo ==> mem == old(mem)
        invariant Rooted(St(), lv', root) && StaysBuilt(old(St()), St(), root)
        invariant IdentityOn(mem, old(mem), root, lo, page)
        decreases end - page * PAGE
      {
        if page % 262144 == 0 && end >= (page + 262144) * PAGE {
          Laid1G(St(), lv', root, old(mem), lo, page);
          BuiltOn(old(St()), St(), MapPage1G(St(), root, VpnOf(page), page, KERNEL_RW).0, root);
          lv' := IdentityStep1G(St(), lv', root, old(mem), lo, page);
          ok := MapPage1GIntoSpace(root, VpnOf(page), page, KERNEL_RW);
          if !ok {
            return false, lv', page;
          }
          page := page + 262144;
        } else if page % 512 == 0 && end >= (page + 512) * PAGE {
          Laid2M(St(), lv', root, old(mem), lo, page);
          BuiltOn(old(St()), St(), MapPage2M(St(), root, VpnOf(page), page, KERNEL_RW).0, root);
          ghost var st0, lv0 := St(), lv';
          lv' := IdentityStep2M(St(), lv', root, old(mem), lo, page);
          ok := MapPage2MIntoSpace(root, VpnOf(page), page, KERNEL_RW);
          if !ok {
            var inner := page;
            while inner < page + 512
              invariant page <= inner <= page + 512
              invariant Laid(mem, old(mem), root, lo, inner)
              invariant inner == page ==> (St(), false) == MapPage2M(st0, root, VpnOf(page), page, KERNEL_RW)
              invariant page > lo && Pt(old(mem), root, VpnOf(lo)).None? ==> PageSize(mem, root, lo, size)
              invariant inner > page == lo ==> Pt(old(mem), root, VpnOf(lo)).Some?
              invariant Rooted(St(), lv', root) && StaysBuilt(old(St()), St(), root)
              invariant IdentityOn(mem, old(mem), root, lo, inner)
            {
              Laid4K(St(), lv', root, old(mem), lo, inner);
              BuiltOn(old(St()), St(), MapPage(St(), root, VpnOf(inner), inner, KERNEL_RW).0, root);
              lv' := IdentityStep4K(St(), lv', root, old(mem), lo, inner);
              ok := MapPageIntoSpace(root, VpnOf(inner), inner, KERNEL_RW);
              if !ok {
                return false, lv', inner;
              }
              if inner == page == lo {
                AlignedDigit(page);
                FallbackHasPt(st0, lv0, root, VpnOf(page), page);
              }
              inner := inner + 1;
            }
          }
          page := page + 512;
        } else {
          Laid4K(St(), lv', root, old(mem), lo, page);
          BuiltOn(old(St()), St(), MapPage(St(), root, VpnOf(page), page, KERNEL_RW).0, root);
          lv' := IdentityStep4K(St(), lv', root, old(mem), lo, page);
          ok := MapPageIntoSpace(root, VpnOf(page), page, KERNEL_RW);
          if !ok {
            return false, lv', page;
          }
          page := page + 1;
        }
      }
      return true, lv', page;
    }

    /** Map the kernel image to itself with 4 KB pages. */
    method MapImage(root: nat, ghost lv: Levels) returns (ok: bool, ghost lv': Levels)
      requires Rooted(St(), lv, root)
      modifies this
      ensures Rooted(St(), lv', root) && StaysBuilt(old(St()), St(), root)
      ensures ok ==> IdentityOn(mem, old(mem), root, IMAGE_START, IMAGE_END)
      ensures ok ==> Pd(mem, root, Vpn(0, 0, 0, 0)).Some?
      ensures ok ==> Laid(mem, old(mem), root, IMAGE_START, IMAGE_END) && Paged(mem, root, IMAGE_START, IMAGE_END)
      ensures PtsLow(mem, old(mem), root)
    {
      hide Translate, Pd, Pt, MapPage, VpnOf, Laid, Rooted, StaysBuilt, IdentityOn, Paged, PtsLow;
      lv' := lv;
      var page := IMAGE_START;
      IdentityStart(mem, root, page);
      LaidStart(mem, root, page);
      BuiltStart(St(), root);
      PagedStart(mem, root);
      while page < IMAGE_END
        invariant IMAGE_START <= page <= IMAGE_END
        invariant Rooted(St(), lv', root) && StaysBuilt(old(St()), St(), root)
        invariant IdentityOn(mem, old(mem), root, IMAGE_START, page)
        invariant page > IMAGE_START ==> Pd(mem, root, Vpn(0, 0, 0, 0)).Some?
        invariant Laid(mem, old(mem), root, IMAGE_START, page)
        invariant Paged(mem, root, IMAGE_START, page) && PtsLow(mem, old(mem), root)
      {
        RootedIs(St(), lv', root);
        Laid4K(St(), lv', root, old(mem), IMAGE_START, page);
        ImageStep(St(), lv', root, old(mem), page);
        BuiltOn(old(St()), St(), MapPage(St(), root, VpnOf(page), page, KERNEL_RW).0, root);
        LowPd(St(), lv', root, page);
        lv' := IdentityStep4K(St(), lv', root, old(mem), IMAGE_START, page);
        ok := MapPageIntoSpace(root, VpnOf(page), page, KERNEL_RW);
        if !ok {
          return;
        }
        page := page + 1;
      }
      ok := true;
    }

    /** Build the kernel's address space: a zeroed root, the image, the frame region with the
        largest pages that fit, and its first frame again. No root is reported when the pool
        cannot hold the image; a region that cannot be mapped halts the kernel. */
    method InitPaging(start: nat, len: nat) returns (root: Option<nat>, halted: bool, ghost lv: Levels)
      requires St() == State(map[], 0, base) && start + len <= VIRTUAL_PAGES * PAGE && start / PAGE < VIRTUAL_PAGES
      modifies this
      ensures root.Some? && !halted ==>
        && Inv(Sys(St(), root.value, map[], {}), lv) && PoolTables(St())
        && forall p: nat :: 0x100 <= p < 0x900 || start / PAGE <= p < (start + len + PAGE - 1) / PAGE ==>
             p < VIRTUAL_PAGES ==> Translate(mem, root.value, VpnOf(p)) == Some(p)
      ensures root.Some? && !halted ==>
        && AllOpen(mem, root.value)
        && (forall p: nat :: 0x100 <= p < 0x900 ==>
              View(mem, root.value, VpnOf(p)) == Some(Mapping(p, true, false, false)))
        && (forall p: nat :: start / PAGE <= p < (start + len + PAGE - 1) / PAGE ==>
              View(mem, root.value, VpnOf(p)) == Some(Mapping(p, true, BecomesUser(start / PAGE, start + len, p), false)))
    {
      hide Translate, Pd, Pt, MapPage, VpnOf, View, AllOpen, Laid, Paged, PtsLow, Tidy, BecomesUser, PageSize, FirstSize,
        IdentityOn, StaysBuilt, Rooted, Inv;
      halted, lv := false, map[];
      root := AllocTablePage();
      if root.None? {
        return;
      }
      var r := root.value;
      mem := mem[r := EmptyTable()];
      lv := map[r := 4];
      EmptyRooted(St(), r);
      ghost var st0 := St();
      var ok;
      ok, lv := MapImage(r, lv);
      if !ok {
        return None, false, lv;
      }
      ghost var st1 := St();
      ghost var done;
      ok, lv, done := IdentityMapRange(r, start, len, lv);
      if !ok {
        return root, true, lv;
      }
      ghost var st2, lv2 := St(), lv;
      ghost var page := start / PAGE;
      IdentityStart(mem, r, page);
      lv := IdentityStep4K(St(), lv, r, mem, page, page);
      ok := MapPageIntoSpace(r, VpnOf(start / PAGE), start / PAGE, KERNEL_RW);
      if !ok {
        return root, true, lv;
      }
      LowPdStays(st0, st1, st2, St(), r);
      BootedInv(St(), lv, r);
      BootViews(st0, st1, st2, lv2, St(), r, page, start + len, done);
      forall p: nat | IMAGE_START <= p < IMAGE_END || page <= p < done ensures Translate(mem, r, VpnOf(p)) == Some(p) {
        ViewIs(mem, r, VpnOf(p));
      }
    }
  }
}
