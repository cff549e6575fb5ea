// Mapping and unmapping pages in an address space, as functions on table memory.
// Tables come from a bump-allocated pool; large pages are split on demand.

module Mapper {
  import opened Options
  import opened PageTables
  import opened PageEdits

  const PT_POOL_PAGES: nat := 512

  /** Table memory and the page-table pool: frames base .. base + 512, of which the
      first `next` have been handed out. */
  datatype State = State(mem: Memory, next: nat, base: nat)

  /** The entry flags the kernel builds: present, writable, user, no-execute. */
  datatype Flags = Flags(present: bool, writable: bool, user: bool, nx: bool)

  ghost predicate Valid(st: State, lv: Levels) {
    && WellFormed(st.mem, lv)
    && forall t :: t in st.mem ==> !(st.base + st.next <= t < st.base + PT_POOL_PAGES)
  }

  predicate HasSpace(st: State) {
    st.next < PT_POOL_PAGES
  }

  function LinkTo(n: nat): Entry {
    Entry(true, true, true, false, false, n)
  }

  /** Take a table from the pool, fill it, and link it below entry i of p. */
  function Attach(st: State, p: nat, i: Index, table: Table): (r: (State, Option<nat>)) {
    if HasSpace(st) then
      var n := st.base + st.next;
      (State(Patch(st.mem, p, i, LinkTo(n))[n := table], st.next + 1, st.base), Some(n))
    else (st, None)
  }

  function MarkUser(st: State, p: nat, i: Index): State {
    st.(mem := Patch(st.mem, p, i, Get(st.mem, p, i).(user := true)))
  }

  /** The PDPT below PML4 entry i. */
  function EnsurePdpt(st: State, p: nat, i: Index): (r: (State, Option<nat>)) {
    var e := Get(st.mem, p, i);
    if e.present then (MarkUser(st, p, i), Some(e.frame))
    else Attach(st, p, i, EmptyTable())
  }

  /** 512 leaves of 2 MB with the addresses of one 1 GB leaf. */
  function Split1G(e: Entry): Table {
    seq(512, (i: nat) =>
      Entry(e.present, e.writable, true, true, false, AlignDown(e.frame, 262144) + i * 512))
  }

  /** 512 leaves of 4 KB with the addresses of one 2 MB leaf. */
  function Split2M(e: Entry): Table {
    seq(512, (i: nat) =>
      Entry(e.present, e.writable, true, false, false, AlignDown(e.frame, 512) + i))
  }

  /** The PD below PDPT entry i; a 1 GB leaf there is split. */
  function EnsurePd(st: State, p: nat, i: Index): (r: (State, Option<nat>)) {
    var e := Get(st.mem, p, i);
    if !e.present then Attach(st, p, i, EmptyTable())
    else if !e.ps then (MarkUser(st, p, i), Some(e.frame))
    else Attach(st, p, i, Split1G(e))
  }

  /** The PT below PD entry i; a 2 MB leaf there is split. */
  function EnsurePt(st: State, p: nat, i: Index): (r: (State, Option<nat>)) {
    var e := Get(st.mem, p, i);
    if !e.present then Attach(st, p, i, EmptyTable())
    else if !e.ps then (MarkUser(st, p, i), Some(e.frame))
    else Attach(st, p, i, Split2M(e))
  }

  function LeafEntry(frame: nat, fl: Flags, ps: bool): Entry {
    Entry(fl.present, fl.writable, fl.user, ps, fl.nx, frame)
  }

  function MarkUserIf(st: State, user: bool, p: nat, i: Index): State {
    if user then MarkUser(st, p, i) else st
  }

  /** Walk down to the PDPT of page w, building it if need be. */
  function ReachPdpt(st: State, root: nat, w: Vpn, user: bool): (r: (State, Option<nat>)) {
    var (s, c) := EnsurePdpt(st, root, w.i4);
    if c.None? then (s, None) else (MarkUserIf(s, user, root, w.i4), c)
  }

  /** Walk down to the PD of page w, splitting a 1 GB page in the way. */
  function ReachPd(st: State, root: nat, w: Vpn, user: bool): (r: (State, Option<nat>)) {
    var (s, p) := ReachPdpt(st, root, w, user);
    if p.None? then (s, None) else
    var (s', c) := EnsurePd(s, p.value, w.i3);
    if c.None? then (s', None) else (MarkUserIf(s', user, p.value, w.i3), c)
  }

  /** Walk down to the PT of page w, splitting large pages in the way. */
  function ReachPt(st: State, root: nat, w: Vpn, user: bool): (r: (State, Option<nat>)) {
    var (s, p) := ReachPd(st, root, w, user);
    if p.None? then (s, None) else
    var (s', c) := EnsurePt(s, p.value, w.i2);
    if c.None? then (s', None) else (MarkUserIf(s', user, p.value, w.i2), c)
  }

  /** Map page w to `frame` in the address space rooted at root; false when the pool runs out. */
  function MapPage(st: State, root: nat, w: Vpn, frame: nat, fl: Flags): (r: (State, bool)) {
    var (s, pt) := ReachPt(st, root, w, fl.user);
    if pt.None? then (s, false)
    else (s.(mem := Patch(s.mem, pt.value, w.i1, LeafEntry(frame, fl, false))), true)
  }

  /** Map the 2 MB page that holds page w (w.i1 == 0) to the 512 frames from `frame` on. */
  function MapPage2M(st: State, root: nat, w: Vpn, frame: nat, fl: Flags): (r: (State, bool)) {
    if w.i1 != 0 || frame % 512 != 0 then (st, false) else
    var (s, pd) := ReachPd(st, root, w, false);
    if pd.None? || IsLink(2, Get(s.mem, pd.value, w.i2)) then (s, false)
    else (s.(mem := Patch(s.mem, pd.value, w.i2, LeafEntry(frame, fl, true))), true)
  }

  /** Map the 1 GB page that holds page w (w.i2 == w.i1 == 0) to the 262144 frames from `frame` on. */
  function MapPage1G(st: State, root: nat, w: Vpn, frame: nat, fl: Flags): (r: (State, bool)) {
    if w.i2 != 0 || w.i1 != 0 || frame % 262144 != 0 then (st, false) else
    var (s, pdpt) := ReachPdpt(st, root, w, false);
    if pdpt.None? || IsLink(3, Get(s.mem, pdpt.value, w.i3)) then (s, false)
    else (s.(mem := Patch(s.mem, pdpt.value, w.i3, LeafEntry(frame, fl, true))), true)
  }

  /** Clear the PT entry of page w. The source follows present entries without looking at
      the page-size bit, so below a large leaf it takes the leaf's frame for a table. */
  function UnmapPage(st: State, root: nat, w: Vpn): (r: State) {
    var e4 := Get(st.mem, root, w.i4);
    if !e4.present then st else
    var e3 := Get(st.mem, e4.frame, w.i3);
    if !e3.present then st else
    var e2 := Get(st.mem, e3.frame, w.i2);
    if !e2.present then st else
    st.(mem := Patch(st.mem, e2.frame, w.i1, ABSENT))
  }

  // ----- what growing the tree keeps -----

  /** Every link to a table still links to that table. */
  ghost predicate LinksKept(m: Memory, m': Memory, lv: Levels)
    requires lv.Keys == m.Keys
  {
    forall t, i: Index :: t in m && IsLink(lv[t], m[t][i]) ==>
      t in m' && m'[t][i].present && m'[t][i].ps == m[t][i].ps && m'[t][i].frame == m[t][i].frame
  }

  /** From st to st' only tables on the walk of w from root were written: trees stayed
      trees, and every walk passes only through its old tables and new ones. */
  ghost predicate Confined(st: State, lv: Levels, st': State, lv': Levels, root: nat, w: Vpn) {
    && Valid(st', lv') && lv.Keys == st.mem.Keys
    && st'.base == st.base && st.next <= st'.next
    && (forall t :: t in lv ==> t in lv' && lv'[t] == lv[t])
    && (forall t :: t in lv' && t !in lv ==> st.base + st.next <= t < st.base + st'.next)
    && (st'.next == st.next || st'.next <= PT_POOL_PAGES)
    && (forall t :: t in st.mem ==> t in st'.mem && (st'.mem[t] == st.mem[t] || Touches(st.mem, root, w, t)))
    && (forall r, u, t :: IsRoot(st.mem, lv, r) && Touches(st'.mem, r, u, t) ==>
          Touches(st.mem, r, u, t) || t !in st.mem)
    && (forall r :: IsRoot(st.mem, lv, r) && IsTree(st.mem, r) ==> IsTree(st'.mem, r))
    && LinksKept(st.mem, st'.mem, lv)
  }

  /** Confined, and no translation changed and no large page appeared in any address space. */
  ghost predicate Grows(st: State, lv: Levels, st': State, lv': Levels, root: nat, w: Vpn) {
    Confined(st, lv, st', lv', root, w) && SameTranslations(st.mem, st'.mem, lv) && NoNewLarge(st.mem, st'.mem, lv)
  }

  lemma GrowsTransitive(s0: State, l0: Levels, s1: State, l1: Levels, s2: State, l2: Levels, root: nat, w: Vpn)
    requires IsRoot(s0.mem, l0, root) && Valid(s0, l0)
    requires Grows(s0, l0, s1, l1, root, w) && Grows(s1, l1, s2, l2, root, w)
    ensures Grows(s0, l0, s2, l2, root, w)
  {
  }

  lemma MarkUserGrows(st: State, lv: Levels, p: nat, i: Index, root: nat, w: Vpn)
    requires Valid(st, lv) && p in st.mem && Touches(st.mem, root, w, p)
    ensures Grows(st, lv, MarkUser(st, p, i), lv, root, w)
    ensures SameWalks(st.mem, MarkUser(st, p, i).mem, lv)
  {
    PatchUserSame(st.mem, lv, p, i);
  }

  lemma LinksSame(m: Memory, lv: Levels)
    requires lv.Keys == m.Keys
    ensures LinksKept(m, m, lv)
  {
  }

  lemma GraftLinks(m: Memory, lv: Levels, p: nat, i: Index, e: Entry, n: nat, table: Table)
    requires lv.Keys == m.Keys && p in m && n !in m && !IsLink(lv[p], m[p][i])
    ensures LinksKept(m, Graft(m, p, i, e, n, table), lv)
  {
  }

  lemma AttachGrows(st: State, lv: Levels, p: nat, i: Index, table: Table, root: nat, w: Vpn) returns (lv': Levels)
    requires Valid(st, lv) && p in st.mem && Touches(st.mem, root, w, p)
    requires !IsLink(lv[p], st.mem[p][i]) && Covers(st.mem, lv[p], st.mem[p][i], table)
    ensures Grows(st, lv, Attach(st, p, i, table).0, lv', root, w)
    ensures var (st', c) := Attach(st, p, i, table);
            c.Some? ==> p in st'.mem && st'.mem[p][i] == LinkTo(c.value)
  {
    hide ViaPml4e, IsTree, Covers, LinksKept, Touches, NoNewLarge, SameTranslations;
    NothingNew(st.mem, lv);
    lv' := lv;
    LinksSame(st.mem, lv);
    if HasSpace(st) {
      var n := st.base + st.next;
      var m' := Graft(st.mem, p, i, LinkTo(n), n, table);
      lv' := lv[n := lv[p] - 1];
      GraftSame(st.mem, lv, p, i, LinkTo(n), n, table);
      GraftLinks(st.mem, lv, p, i, LinkTo(n), n, table);
      GraftWalks(st.mem, lv, p, i, LinkTo(n), n, table);
      forall r | IsRoot(st.mem, lv, r) && IsTree(st.mem, r) ensures IsTree(m', r) {
        GraftTree(st.mem, lv, p, i, LinkTo(n), n, table, r);
      }
    }
  }

  lemma NothingNew(m: Memory, lv: Levels)
    ensures NoNewLarge(m, m, lv) && SameTranslations(m, m, lv)
  {
    hide ViaPml4e;
  }

  lemma GraftWalks(m: Memory, lv: Levels, p: nat, i: Index, e: Entry, n: nat, table: Table)
    requires WellFormed(m, lv) && p in m && n !in m && e.present && !e.ps && e.frame == n
    requires !IsLink(lv[p], m[p][i]) && Covers(m, lv[p], m[p][i], table)
    ensures NoNewLarge(m, Graft(m, p, i, e, n, table), lv)
    ensures forall r, u, t :: IsRoot(m, lv, r) && Touches(Graft(m, p, i, e, n, table), r, u, t) ==>
      Touches(m, r, u, t) || t !in m
  {
    hide ViaPml4e, Covers, Graft, AlignDown;
    var m' := Graft(m, p, i, e, n, table);
    forall r, u | IsRoot(m, lv, r)
      ensures OnLargePage(m', r, u) ==> OnLargePage(m, r, u)
      ensures OnGigPage(m', r, u) ==> OnGigPage(m, r, u)
    {
      GraftWalk(m, lv, p, i, e, n, table, r, u);
    }
    forall r, u, t | IsRoot(m, lv, r) && Touches(m', r, u, t) ensures Touches(m, r, u, t) || t !in m {
      GraftWalk(m, lv, p, i, e, n, table, r, u);
    }
  }

  lemma SplitCovers(m: Memory, e: Entry)
    requires e.present && e.ps
    ensures Covers(m, 3, e, Split1G(e)) && Covers(m, 2, e, Split2M(e))
  {
    hide AlignDown;
    forall i: Index ensures AlignDown(Split1G(e)[i].frame, 512) == AlignDown(e.frame, 262144) + i * 512 {
      SplitAligned(e.frame, i);
    }
  }

  lemma SplitAligned(frame: nat, i: Index)
    ensures AlignDown(AlignDown(frame, 262144) + i * 512, 512) == AlignDown(frame, 262144) + i * 512
  {
    var x := frame / 262144 * 512 + i;
    assert AlignDown(frame, 262144) + i * 512 == x * 512;
    assert x * 512 / 512 == x;
  }

  lemma EnsurePdptGrows(st: State, lv: Levels, root: nat, w: Vpn) returns (lv': Levels)
    requires Valid(st, lv) && IsRoot(st.mem, lv, root)
    ensures var (st', c) := EnsurePdpt(st, root, w.i4);
      && Grows(st, lv, st', lv', root, w)
      && (c.Some? ==> Pdpt(st'.mem, root, w) == c && Get(st'.mem, root, w.i4).user)
      && (c.None? ==> st' == st)
  {
    lv' := lv;
    if Get(st.mem, root, w.i4).present {
      MarkUserGrows(st, lv, root, w.i4, root, w);
    } else {
      lv' := AttachGrows(st, lv, root, w.i4, EmptyTable(), root, w);
    }
  }

  lemma EnsurePdGrows(st: State, lv: Levels, root: nat, w: Vpn, p: nat) returns (lv': Levels)
    requires Valid(st, lv) && IsRoot(st.mem, lv, root)
    requires Pdpt(st.mem, root, w) == Some(p)
    ensures var (st', c) := EnsurePd(st, p, w.i3);
      && Grows(st, lv, st', lv', root, w)
      && Pdpt(st'.mem, root, w) == Some(p) && Get(st'.mem, root, w.i4) == Get(st.mem, root, w.i4)
      && (c.Some? ==> Pd(st'.mem, root, w) == c && Get(st'.mem, p, w.i3).user)
      && (c.None? ==> st' == st)
  {
    WalkLevels(st.mem, lv, root, w);
    lv' := lv;
    var e := Get(st.mem, p, w.i3);
    if !e.present {
      lv' := AttachGrows(st, lv, p, w.i3, EmptyTable(), root, w);
    } else if !e.ps {
      MarkUserGrows(st, lv, p, w.i3, root, w);
    } else {
      SplitCovers(st.mem, e);
      lv' := AttachGrows(st, lv, p, w.i3, Split1G(e), root, w);
    }
  }

  lemma EnsurePtGrows(st: State, lv: Levels, root: nat, w: Vpn, q: nat, p: nat) returns (lv': Levels)
    requires Valid(st, lv) && IsRoot(st.mem, lv, root)
    requires Pdpt(st.mem, root, w) == Some(q) && Pd(st.mem, root, w) == Some(p)
    ensures var (st', c) := EnsurePt(st, p, w.i2);
      && Grows(st, lv, st', lv', root, w)
      && Pdpt(st'.mem, root, w) == Some(q) && Pd(st'.mem, root, w) == Some(p)
      && Get(st'.mem, root, w.i4) == Get(st.mem, root, w.i4) && Get(st'.mem, q, w.i3) == Get(st.mem, q, w.i3)
      && (c.Some? ==> Pt(st'.mem, root, w) == c && Get(st'.mem, p, w.i2).user)
      && (c.None? ==> st' == st)
  {
    WalkLevels(st.mem, lv, root, w);
    lv' := lv;
    var e := Get(st.mem, p, w.i2);
    if !e.present {
      lv' := AttachGrows(st, lv, p, w.i2, EmptyTable(), root, w);
    } else if !e.ps {
      MarkUserGrows(st, lv, p, w.i2, root, w);
    } else {
      SplitCovers(st.mem, e);
      lv' := AttachGrows(st, lv, p, w.i2, Split2M(e), root, w);
    }
  }

  lemma MarkUserIfGrows(st: State, lv: Levels, user: bool, p: nat, i: Index, root: nat, w: Vpn)
    requires Valid(st, lv) && p in st.mem && Touches(st.mem, root, w, p)
    ensures Grows(st, lv, MarkUserIf(st, user, p, i), lv, root, w)
    ensures SameWalks(st.mem, MarkUserIf(st, user, p, i).mem, lv)
  {
    MarkUserGrows(st, lv, p, i, root, w);
  }

  lemma ReachPdptGrows(st: State, lv: Levels, root: nat, w: Vpn, user: bool) returns (lv': Levels)
    requires Valid(st, lv) && IsRoot(st.mem, lv, root)
    ensures var (st', c) := ReachPdpt(st, root, w, user);
      && Grows(st, lv, st', lv', root, w)
      && (c.Some? ==> Pdpt(st'.mem, root, w) == c && Get(st'.mem, root, w.i4).user)
  {
    lv' := EnsurePdptGrows(st, lv, root, w);
    var (s, c) := EnsurePdpt(st, root, w.i4);
    if c.Some? {
      var s' := MarkUserIf(s, user, root, w.i4);
      MarkUserIfGrows(s, lv', user, root, w.i4, root, w);
      GrowsTransitive(st, lv, s, lv', s', lv', root, w);
    }
  }

  lemma ReachPdGrows(st: State, lv: Levels, root: nat, w: Vpn, user: bool) returns (lv': Levels)
    requires Valid(st, lv) && IsRoot(st.mem, lv, root)
    ensures var (st', c) := ReachPd(st, root, w, user);
      && Grows(st, lv, st', lv', root, w)
      && (c.Some? ==>
            && Pd(st'.mem, root, w) == c && Get(st'.mem, root, w.i4).user
            && Get(st'.mem, Pdpt(st'.mem, root, w).value, w.i3).user)
  {
    hide ReachPdpt, EnsurePd, NoNewLarge, SameTranslations, ViaPml4e, IsTree, WellFormed;
    lv' := ReachPdptGrows(st, lv, root, w, user);
    var (s, p) := ReachPdpt(st, root, w, user);
    if p.Some? {
      var l1 := lv';
      var (s', c) := EnsurePd(s, p.value, w.i3);
      lv' := EnsurePdGrows(s, l1, root, w, p.value);
      GrowsTransitive(st, lv, s, l1, s', lv', root, w);
      if c.Some? {
        var s'' := MarkUserIf(s', user, p.value, w.i3);
        WalkLevels(s'.mem, lv', root, w);
        MarkUserIfGrows(s', lv', user, p.value, w.i3, root, w);
        GrowsTransitive(st, lv, s', lv', s'', lv', root, w);
      }
    }
  }

  lemma ReachPtGrows(st: State, lv: Levels, root: nat, w: Vpn, user: bool) returns (lv': Levels)
    requires Valid(st, lv) && IsRoot(st.mem, lv, root)
    ensures var (st', c) := ReachPt(st, root, w, user);
      && Grows(st, lv, st', lv', root, w)
      && (c.Some? ==>
            && Pt(st'.mem, root, w) == c && Get(st'.mem, root, w.i4).user
            && Get(st'.mem, Pdpt(st'.mem, root, w).value, w.i3).user
            && Get(st'.mem, Pd(st'.mem, root, w).value, w.i2).user)
  {
    hide ReachPd, EnsurePt, NoNewLarge, SameTranslations, ViaPml4e, IsTree, WellFormed;
    lv' := ReachPdGrows(st, lv, root, w, user);
    var (s, p) := ReachPd(st, root, w, user);
    if p.Some? {
      var l1 := lv';
      var q := Pdpt(s.mem, root, w).value;
      var (s', c) := EnsurePt(s, p.value, w.i2);
      lv' := EnsurePtGrows(s, l1, root, w, q, p.value);
      GrowsTransitive(st, lv, s, l1, s', lv', root, w);
      if c.Some? {
        var s'' := MarkUserIf(s', user, p.value, w.i2);
        WalkLevels(s'.mem, lv', root, w);
        MarkUserIfGrows(s', lv', user, p.value, w.i2, root, w);
        GrowsTransitive(st, lv, s', lv', s'', lv', root, w);
      }
    }
  }

  // ----- mapping one page -----

  /** In the memory m', page u of root r is mapped by the same PT entry as page w of root. */
  predicate SameSlot(m: Memory, r: nat, u: Vpn, root: nat, w: Vpn) {
    Pt(m, r, u).Some? && Pt(m, r, u) == Pt(m, root, w) && u.i1 == w.i1
  }

  lemma PatchConfined(s: State, lv: Levels, p: nat, i: Index, e: Entry, root: nat, w: Vpn)
    requires Valid(s, lv) && p in s.mem && Touches(s.mem, root, w, p)
    requires var m' := Patch(s.mem, p, i, e); WellFormed(m', lv) && SameTables(s.mem, m', lv)
    requires !IsLink(lv[p], s.mem[p][i])
    ensures Confined(s, lv, s.(mem := Patch(s.mem, p, i, e)), lv, root, w)
  {
  }

  lemma ConfinedTransitive(s0: State, l0: Levels, s1: State, l1: Levels, s2: State, l2: Levels, root: nat, w: Vpn)
    requires IsRoot(s0.mem, l0, root) && Valid(s0, l0)
    requires Confined(s0, l0, s1, l1, root, w) && Confined(s1, l1, s2, l2, root, w)
    ensures Confined(s0, l0, s2, l2, root, w)
  {
  }

  lemma RootsKept(st: State, lv: Levels, st': State, lv': Levels, root: nat, w: Vpn)
    requires Confined(st, lv, st', lv', root, w)
    ensures forall r :: IsRoot(st.mem, lv, r) ==> IsRoot(st'.mem, lv', r)
  {
  }

  /** MapPage refines a map update, seen from every root that shares table memory: on
      success exactly the pages mapped through the written slot change; a call that
      returns false changes no translation anywhere. */
  lemma MapPageRefines(st: State, lv: Levels, root: nat, w: Vpn, frame: nat, fl: Flags) returns (lv': Levels)
    requires Valid(st, lv) && IsRoot(st.mem, lv, root)
    ensures var (st', ok) := MapPage(st, root, w, frame, fl);
      && Confined(st, lv, st', lv', root, w)
      && NoNewLarge(st.mem, st'.mem, lv)
      && (!ok ==> SameTranslations(st.mem, st'.mem, lv))
      && (ok ==> forall r, u :: IsRoot(st.mem, lv, r) ==>
            Translate(st'.mem, r, u) ==
              if SameSlot(st'.mem, r, u, root, w) then (if fl.present then Some(frame) else None)
              else Translate(st.mem, r, u))
      && (ok ==> Pt(st'.mem, root, w).Some?)
  {
    lv' := ReachPtGrows(st, lv, root, w, fl.user);
    var (s, c) := ReachPt(st, root, w, fl.user);
    if c.Some? {
      RootsKept(st, lv, s, lv', root, w);
      WalkLevels(s.mem, lv', root, w);
      var e := LeafEntry(frame, fl, false);
      PatchPte(s.mem, lv', c.value, w.i1, e);
      PatchConfined(s, lv', c.value, w.i1, e, root, w);
      ConfinedTransitive(st, lv, s, lv', s.(mem := Patch(s.mem, c.value, w.i1, e)), lv', root, w);
    }
  }

  /** How many tables have to be made before page w can be mapped. */
  function Missing(m: Memory, root: nat, w: Vpn): nat {
    if Pdpt(m, root, w).None? then 3
    else if Pd(m, root, w).None? then 2
    else if Pt(m, root, w).None? then 1
    else 0
  }

  /** MapPage fails exactly when the pool cannot supply the missing tables. */
  lemma MapPageFailsIff(st: State, lv: Levels, root: nat, w: Vpn, frame: nat, fl: Flags)
    requires Valid(st, lv) && IsRoot(st.mem, lv, root)
    ensures var n := Missing(st.mem, root, w);
      !MapPage(st, root, w, frame, fl).1 <==> n > 0 && st.next + n > PT_POOL_PAGES
  {
    hide ViaPml4e, IsTree, ReachPd;
    WalkLevels(st.mem, lv, root, w);
    PdTaken(st, lv, root, w, fl.user);
    var (s, p) := ReachPd(st, root, w, fl.user);
    if p.Some? {
      assert EnsurePt(s, p.value, w.i2).1.None? <==> !IsLink(2, Get(s.mem, p.value, w.i2)) && !HasSpace(s);
    }
  }

  /** Making the PDPT takes one table if there is none, and leaves an old one's entries as links or
      as none. */
  lemma PdptTaken(st: State, lv: Levels, root: nat, w: Vpn, user: bool)
    requires Valid(st, lv) && IsRoot(st.mem, lv, root)
    ensures var (s, c) := ReachPdpt(st, root, w, user); var isNew := Pdpt(st.mem, root, w).None?;
      && (c.None? <==> isNew && st.next >= PT_POOL_PAGES) && s.base == st.base
      && (c.Some? ==>
            && s.next == st.next + (if isNew then 1 else 0) && c.value in s.mem
            && (forall t :: t in s.mem ==> !(s.base + s.next <= t < s.base + PT_POOL_PAGES))
            && (if isNew then Get(s.mem, c.value, w.i3) == ABSENT
                else c == Pdpt(st.mem, root, w) && s.mem[c.value] == st.mem[c.value]
                     && forall t :: t in st.mem && t != root ==> t in s.mem && s.mem[t] == st.mem[t]))
  {
    WalkLevels(st.mem, lv, root, w);
  }

  lemma PdTaken(st: State, lv: Levels, root: nat, w: Vpn, user: bool)
    requires Valid(st, lv) && IsRoot(st.mem, lv, root)
    ensures var (s, c) := ReachPd(st, root, w, user);
      var need := if Pdpt(st.mem, root, w).None? then 2 else if Pd(st.mem, root, w).None? then 1 else 0;
      && (c.None? <==> need > 0 && st.next + need > PT_POOL_PAGES)
      && (c.Some? ==>
            && s.next == st.next + need
            && (IsLink(2, Get(s.mem, c.value, w.i2)) <==> Pt(st.mem, root, w).Some?))
  {
    hide ReachPdpt, ViaPml4e, IsTree;
    PdptTaken(st, lv, root, w, user);
    WalkLevels(st.mem, lv, root, w);
    var (s, p) := ReachPdpt(st, root, w, user);
    if p.Some? {
      assert Pdpt(st.mem, root, w).Some? ==> Get(s.mem, p.value, w.i3) == Get(st.mem, p.value, w.i3);
    }
  }

  /** In an address space that is a tree, MapPage changes exactly the page it was asked to. */
  lemma MapPageUpdatesOnePage(st: State, lv: Levels, root: nat, w: Vpn, frame: nat, fl: Flags)
    requires Valid(st, lv) && IsRoot(st.mem, lv, root) && IsTree(st.mem, root)
    ensures var (st', ok) := MapPage(st, root, w, frame, fl);
      forall u :: Translate(st'.mem, root, u) ==
        if ok && u == w then (if fl.present then Some(frame) else None) else Translate(st.mem, root, u)
  {
    hide MapPage, ViaPml4e, WellFormed;
    var lv' := MapPageRefines(st, lv, root, w, frame, fl);
    var (st', ok) := MapPage(st, root, w, frame, fl);
    if ok {
      forall u ensures Translate(st'.mem, root, u) ==
        if u == w then (if fl.present then Some(frame) else None) else Translate(st.mem, root, u)
      {
        assert SameSlot(st'.mem, root, u, root, w) <==> u == w;
      }
    }
  }

  /** After a successful user mapping the user bit is set at every level of the walk. */
  lemma MapPageUserWalk(st: State, lv: Levels, root: nat, w: Vpn, frame: nat, fl: Flags)
    requires Valid(st, lv) && IsRoot(st.mem, lv, root) && fl.user
    ensures var (st', ok) := MapPage(st, root, w, frame, fl);
      ok ==>
        && Pt(st'.mem, root, w).Some?
        && Get(st'.mem, root, w.i4).user
        && Get(st'.mem, Pdpt(st'.mem, root, w).value, w.i3).user
        && Get(st'.mem, Pd(st'.mem, root, w).value, w.i2).user
        && Get(st'.mem, Pt(st'.mem, root, w).value, w.i1) == LeafEntry(frame, fl, false)
  {
    hide ReachPt, NoNewLarge, SameTranslations, ViaPml4e, IsTree, WellFormed;
    var lv' := ReachPtGrows(st, lv, root, w, fl.user);
    var (s, c) := ReachPt(st, root, w, fl.user);
    if c.Some? {
      RootsKept(st, lv, s, lv', root, w);
      WalkLevels(s.mem, lv', root, w);
      PatchPteWalk(s.mem, lv', c.value, w.i1, LeafEntry(frame, fl, false), root, w);
    }
  }

  // ----- mapping one large page -----

  predicate SameSlot2M(m: Memory, r: nat, u: Vpn, root: nat, w: Vpn) {
    Pd(m, r, u).Some? && Pd(m, r, u) == Pd(m, root, w) && u.i2 == w.i2
  }

  predicate SameSlot1G(m: Memory, r: nat, u: Vpn, root: nat, w: Vpn) {
    Pdpt(m, r, u).Some? && Pdpt(m, r, u) == Pdpt(m, root, w) && u.i3 == w.i3
  }

  lemma Write2MWalk(s: State, lv: Levels, root: nat, w: Vpn, p: nat, frame: nat, fl: Flags, r: nat, u: Vpn)
    requires Valid(s, lv) && IsRoot(s.mem, lv, root) && IsRoot(s.mem, lv, r) && frame % 512 == 0
    requires Pd(s.mem, root, w) == Some(p) && !IsLink(2, Get(s.mem, p, w.i2))
    ensures var m' := Patch(s.mem, p, w.i2, LeafEntry(frame, fl, true));
      && Pd(m', root, w) == Some(p)
      && Translate(m', r, u) ==
           if SameSlot2M(m', r, u, root, w) then (if fl.present then Some(frame + u.i1) else None)
           else Translate(s.mem, r, u)
  {
    WalkLevels(s.mem, lv, root, w);
    var e := LeafEntry(frame, fl, true);
    PatchPdeWalk(s.mem, lv, p, w.i2, e, root, w);
    PatchPdeWalk(s.mem, lv, p, w.i2, e, r, u);
    assert AlignDown(frame, 512) == frame;
  }

  lemma Write2MConfined(s: State, lv: Levels, root: nat, w: Vpn, p: nat, e: Entry)
    requires Valid(s, lv) && IsRoot(s.mem, lv, root) && e.ps
    requires Pd(s.mem, root, w) == Some(p) && !IsLink(2, Get(s.mem, p, w.i2))
    ensures Confined(s, lv, s.(mem := Patch(s.mem, p, w.i2, e)), lv, root, w)
  {
    WalkLevels(s.mem, lv, root, w);
    PatchPde(s.mem, lv, p, w.i2, e);
    PatchConfined(s, lv, p, w.i2, e, root, w);
  }

  lemma MapPage2MRefines(st: State, lv: Levels, root: nat, w: Vpn, frame: nat, fl: Flags) returns (lv': Levels)
    requires Valid(st, lv) && IsRoot(st.mem, lv, root)
    ensures var (st', ok) := MapPage2M(st, root, w, frame, fl);
      && Confined(st, lv, st', lv', root, w)
      && (!ok ==> SameTranslations(st.mem, st'.mem, lv))
      && (ok ==> Pd(st'.mem, root, w).Some? && w.i1 == 0 && frame % 512 == 0)
      && (ok ==> forall r, u :: IsRoot(st.mem, lv, r) ==>
            Translate(st'.mem, r, u) ==
              if SameSlot2M(st'.mem, r, u, root, w) then (if fl.present then Some(frame + u.i1) else None)
              else Translate(st.mem, r, u))
  {
    lv' := lv;
    if w.i1 == 0 && frame % 512 == 0 {
      lv' := ReachPdGrows(st, lv, root, w, false);
      var (s, c) := ReachPd(st, root, w, false);
      if c.Some? && !IsLink(2, Get(s.mem, c.value, w.i2)) {
        RootsKept(st, lv, s, lv', root, w);
        var e := LeafEntry(frame, fl, true);
        var s' := s.(mem := Patch(s.mem, c.value, w.i2, e));
        Write2MConfined(s, lv', root, w, c.value, e);
        ConfinedTransitive(st, lv, s, lv', s', lv', root, w);
        forall r, u | IsRoot(st.mem, lv, r)
          ensures Translate(s'.mem, r, u) ==
            if SameSlot2M(s'.mem, r, u, root, w) then (if fl.present then Some(frame + u.i1) else None)
            else Translate(st.mem, r, u)
        {
          Write2MWalk(s, lv', root, w, c.value, frame, fl, r, u);
        }
        Write2MWalk(s, lv', root, w, c.value, frame, fl, root, w);
      }
    }
  }

  lemma Write1GWalk(s: State, lv: Levels, root: nat, w: Vpn, p: nat, frame: nat, fl: Flags, r: nat, u: Vpn)
    requires Valid(s, lv) && IsRoot(s.mem, lv, root) && IsRoot(s.mem, lv, r) && frame % 262144 == 0
    requires Pdpt(s.mem, root, w) == Some(p) && !IsLink(3, Get(s.mem, p, w.i3))
    ensures var m' := Patch(s.mem, p, w.i3, LeafEntry(frame, fl, true));
      && Pdpt(m', root, w) == Some(p)
      && Translate(m', r, u) ==
           if SameSlot1G(m', r, u, root, w) then (if fl.present then Some(frame + u.i2 * 512 + u.i1) else None)
           else Translate(s.mem, r, u)
  {
    WalkLevels(s.mem, lv, root, w);
    var e := LeafEntry(frame, fl, true);
    PatchPdpteWalk(s.mem, lv, p, w.i3, e, root, w);
    PatchPdpteWalk(s.mem, lv, p, w.i3, e, r, u);
    assert AlignDown(frame, 262144) == frame;
  }

  lemma Write1GConfined(s: State, lv: Levels, root: nat, w: Vpn, p: nat, e: Entry)
    requires Valid(s, lv) && IsRoot(s.mem, lv, root) && e.ps
    requires Pdpt(s.mem, root, w) == Some(p) && !IsLink(3, Get(s.mem, p, w.i3))
    ensures Confined(s, lv, s.(mem := Patch(s.mem, p, w.i3, e)), lv, root, w)
  {
    WalkLevels(s.mem, lv, root, w);
    PatchPdpte(s.mem, lv, p, w.i3, e);
    PatchConfined(s, lv, p, w.i3, e, root, w);
  }

  lemma MapPage1GRefines(st: State, lv: Levels, root: nat, w: Vpn, frame: nat, fl: Flags) returns (lv': Levels)
    requires Valid(st, lv) && IsRoot(st.mem, lv, root)
    ensures var (st', ok) := MapPage1G(st, root, w, frame, fl);
      && Confined(st, lv, st', lv', root, w)
      && (!ok ==> SameTranslations(st.mem, st'.mem, lv))
      && (ok ==> Pdpt(st'.mem, root, w).Some? && w.i2 == w.i1 == 0 && frame % 262144 == 0)
      && (ok ==> forall r, u :: IsRoot(st.mem, lv, r) ==>
            Translate(st'.mem, r, u) ==
              if SameSlot1G(st'.mem, r, u, root, w)
              then (if fl.present then Some(frame + u.i2 * 512 + u.i1) else None)
              else Translate(st.mem, r, u))
  {
    lv' := lv;
    if w.i2 == 0 && w.i1 == 0 && frame % 262144 == 0 {
      lv' := ReachPdptGrows(st, lv, root, w, false);
      var (s, c) := ReachPdpt(st, root, w, false);
      if c.Some? && !IsLink(3, Get(s.mem, c.value, w.i3)) {
        RootsKept(st, lv, s, lv', root, w);
        var e := LeafEntry(frame, fl, true);
        var s' := s.(mem := Patch(s.mem, c.value, w.i3, e));
        Write1GConfined(s, lv', root, w, c.value, e);
        ConfinedTransitive(st, lv, s, lv', s', lv', root, w);
        forall r, u | IsRoot(st.mem, lv, r)
          ensures Translate(s'.mem, r, u) ==
            if SameSlot1G(s'.mem, r, u, root, w) then (if fl.present then Some(frame + u.i2 * 512 + u.i1) else None)
            else Translate(st.mem, r, u)
        {
          Write1GWalk(s, lv', root, w, c.value, frame, fl, r, u);
        }
        Write1GWalk(s, lv', root, w, c.value, frame, fl, root, w);
      }
    }
  }

  lemma MapPage2MInTree(st: State, lv: Levels, root: nat, w: Vpn, frame: nat, fl: Flags, u: Vpn)
    requires Valid(st, lv) && IsRoot(st.mem, lv, root) && IsTree(st.mem, root)
    ensures var (st', ok) := MapPage2M(st, root, w, frame, fl);
      Translate(st'.mem, root, u) ==
        if ok && u.i4 == w.i4 && u.i3 == w.i3 && u.i2 == w.i2
        then (if fl.present then Some(frame + u.i1) else None) else Translate(st.mem, root, u)
  {
    hide MapPage2M, ViaPml4e, WellFormed;
    var lv' := MapPage2MRefines(st, lv, root, w, frame, fl);
    var (st', ok) := MapPage2M(st, root, w, frame, fl);
    if ok {
      assert IsTree(st'.mem, root);
      assert SameSlot2M(st'.mem, root, u, root, w) <==> u.i4 == w.i4 && u.i3 == w.i3 && u.i2 == w.i2;
    }
  }

  lemma MapPage1GInTree(st: State, lv: Levels, root: nat, w: Vpn, frame: nat, fl: Flags, u: Vpn)
    requires Valid(st, lv) && IsRoot(st.mem, lv, root) && IsTree(st.mem, root)
    ensures var (st', ok) := MapPage1G(st, root, w, frame, fl);
      Translate(st'.mem, root, u) ==
        if ok && u.i4 == w.i4 && u.i3 == w.i3
        then (if fl.present then Some(frame + u.i2 * 512 + u.i1) else None) else Translate(st.mem, root, u)
  {
    hide MapPage1G, ViaPml4e, WellFormed;
    var lv' := MapPage1GRefines(st, lv, root, w, frame, fl);
    var (st', ok) := MapPage1G(st, root, w, frame, fl);
    if ok {
      assert IsTree(st'.mem, root);
      assert SameSlot1G(st'.mem, root, u, root, w) <==> u.i4 == w.i4 && u.i3 == w.i3;
    }
  }

  // ----- unmapping -----

  lemma UnmapPageRefines(st: State, lv: Levels, root: nat, w: Vpn)
    requires Valid(st, lv) && IsRoot(st.mem, lv, root) && !OnLargePage(st.mem, root, w)
    ensures var st' := UnmapPage(st, root, w);
      && Confined(st, lv, st', lv, root, w)
      && SameTables(st.mem, st'.mem, lv) && NoNewLarge(st.mem, st'.mem, lv)
      && forall r, u :: IsRoot(st.mem, lv, r) ==>
           Translate(st'.mem, r, u) ==
             if SameSlot(st.mem, r, u, root, w) then None else Translate(st.mem, r, u)
  {
    WalkLevels(st.mem, lv, root, w);
    match Pt(st.mem, root, w) {
      case None =>
        assert UnmapPage(st, root, w) == st;
      case Some(pt) =>
        PatchPte(st.mem, lv, pt, w.i1, ABSENT);
        PatchConfined(st, lv, pt, w.i1, ABSENT, root, w);
    }
  }

  /** The entry of the 1 GB or 2 MB leaf over page w. */
  function LargeLeaf(m: Memory, r: nat, w: Vpn): Entry
    requires OnLargePage(m, r, w)
  {
    if OnGigPage(m, r, w) then Get(m, Pdpt(m, r, w).value, w.i3) else Get(m, Pd(m, r, w).value, w.i2)
  }

  /** `phys` is all of memory: the page tables of m, and every other frame with its words read as
      entries. */
  ghost predicate Extends(m: Memory, phys: Memory) {
    forall t :: t in m ==> t in phys && phys[t] == m[t]
  }

  /** The frame in which UnmapPage clears a word. Below a large leaf the leaf's frame is taken for a
      table, whatever it holds. */
  function UnmapTarget(phys: Memory, root: nat, w: Vpn): (r: Option<nat>)
    requires OnLargePage(phys, root, w)
  {
    var e := LargeLeaf(phys, root, w);
    if !OnGigPage(phys, root, w) then Some(e.frame)
    else
      var word := Get(phys, e.frame, w.i2);
      if word.present then Some(word.frame) else None
  }

  lemma ExtendedWalk(m: Memory, lv: Levels, phys: Memory, r: nat, u: Vpn)
    requires WellFormed(m, lv) && IsRoot(m, lv, r) && Extends(m, phys)
    ensures Translate(phys, r, u) == Translate(m, r, u)
    ensures Pdpt(phys, r, u) == Pdpt(m, r, u) && Pd(phys, r, u) == Pd(m, r, u) && Pt(phys, r, u) == Pt(m, r, u)
    ensures OnGigPage(phys, r, u) <==> OnGigPage(m, r, u)
    ensures OnLargePage(phys, r, u) <==> OnLargePage(m, r, u)
  {
    WalkLevels(m, lv, r, u);
    WalkFrame(m, phys, r, u);
  }

  /** UnmapPage leaves page w unmapped exactly when w is not on a large page, as long as the frame
      it writes below a large page is no page table. */
  lemma UnmapClearsIff(st: State, lv: Levels, root: nat, w: Vpn, phys: Memory)
    requires Valid(st, lv) && IsRoot(st.mem, lv, root) && Extends(st.mem, phys)
    requires OnLargePage(phys, root, w) && UnmapTarget(phys, root, w).Some? ==>
               UnmapTarget(phys, root, w).value !in st.mem
    ensures Translate(UnmapPage(st.(mem := phys), root, w).mem, root, w).None? <==> !OnLargePage(st.mem, root, w)
  {
    hide ViaPml4e;
    ExtendedWalk(st.mem, lv, phys, root, w);
    var phys' := UnmapPage(st.(mem := phys), root, w).mem;
    if OnLargePage(st.mem, root, w) {
      LargeIsMapped(st.mem, root, w);
      UnmapUnderLeaf(phys, st.next, st.base, root, w);
      ExtendedWalk(st.mem, lv, phys', root, w);
    } else {
      UnmapPageRefines(st, lv, root, w);
      WalkLevels(st.mem, lv, root, w);
      var m' := UnmapPage(st, root, w).mem;
      assert Extends(m', phys');
      ExtendedWalk(m', lv, phys', root, w);
      UnmappedSmall(st, lv, root, w);
    }
  }

  lemma LargeIsMapped(m: Memory, r: nat, u: Vpn)
    requires OnLargePage(m, r, u)
    ensures Translate(m, r, u).Some?
  {
  }

  lemma UnmappedSmall(st: State, lv: Levels, root: nat, w: Vpn)
    requires Valid(st, lv) && IsRoot(st.mem, lv, root) && !OnLargePage(st.mem, root, w)
    ensures Translate(UnmapPage(st, root, w).mem, root, w).None?
  {
    UnmapPageRefines(st, lv, root, w);
    if Pt(st.mem, root, w).None? {
      WalkLevels(st.mem, lv, root, w);
    }
  }

  /** Below a large page UnmapPage clears one word of a frame that need not be a table: of the first
      frame of a 2 MB page, or of the frame that a word of a 1 GB page happens to point at. */
  lemma UnmapUnderLeaf(phys: Memory, next: nat, base: nat, root: nat, w: Vpn)
    requires OnLargePage(phys, root, w)
    ensures var f := UnmapTarget(phys, root, w);
      UnmapPage(State(phys, next, base), root, w).mem ==
        if f.Some? && f.value in phys then phys[f.value := phys[f.value][w.i1 := ABSENT]] else phys
  {
  }

  lemma UnmapPageInTree(st: State, lv: Levels, root: nat, w: Vpn, u: Vpn)
    requires Valid(st, lv) && IsRoot(st.mem, lv, root) && IsTree(st.mem, root)
    requires !OnLargePage(st.mem, root, w)
    ensures Translate(UnmapPage(st, root, w).mem, root, u) == if u == w then None else Translate(st.mem, root, u)
  {
    UnmapPageRefines(st, lv, root, w);
    if u == w && Pt(st.mem, root, w).None? {
      WalkLevels(st.mem, lv, root, w);
    }
  }

  /** Unmapping after a successful map removes that page and nothing else. */
  lemma UnmapAfterMap(st: State, lv: Levels, root: nat, w: Vpn, frame: nat, fl: Flags, u: Vpn)
    requires Valid(st, lv) && IsRoot(st.mem, lv, root) && IsTree(st.mem, root)
    requires MapPage(st, root, w, frame, fl).1
    ensures Translate(UnmapPage(MapPage(st, root, w, frame, fl).0, root, w).mem, root, u)
         == if u == w then None else Translate(st.mem, root, u)
  {
    var lv' := MapPageRefines(st, lv, root, w, frame, fl);
    MapPageUpdatesOnePage(st, lv, root, w, frame, fl);
    var st' := MapPage(st, root, w, frame, fl).0;
    RootsKept(st, lv, st', lv', root, w);
    UnmapPageInTree(st', lv', root, w, u);
  }

  // ----- the page-table pool -----

  /** All page tables lie in the used part of the pool. */
  ghost predicate PoolTables(st: State) {
    st.next <= PT_POOL_PAGES && forall t :: t in st.mem ==> st.base <= t < st.base + st.next
  }

  /** Whatever the mapper does, new tables come from the pool in order. */
  lemma ConfinedPool(st: State, lv: Levels, st': State, lv': Levels, r: nat, w: Vpn)
    requires Valid(st, lv) && Confined(st, lv, st', lv', r, w) && PoolTables(st)
    ensures PoolTables(st') && st'.base == st.base && st'.next >= st.next
    ensures forall t :: t in st'.mem ==> t in st.mem || st.base + st.next <= t
  {
    assert st'.mem.Keys == lv'.Keys && st.mem.Keys == lv.Keys;
  }

  // ----- tables that two address spaces share -----

  /** Tables on a walk stay on it. */
  lemma WalkStays(m: Memory, m': Memory, lv: Levels, r: nat, u: Vpn)
    requires WellFormed(m, lv) && IsRoot(m, lv, r) && LinksKept(m, m', lv)
    ensures Pdpt(m, r, u).Some? ==> Pdpt(m', r, u) == Pdpt(m, r, u)
    ensures Pd(m, r, u).Some? ==> Pd(m', r, u) == Pd(m, r, u)
    ensures Pt(m, r, u).Some? ==> Pt(m', r, u) == Pt(m, r, u)
  {
    WalkLevels(m, lv, r, u);
  }

  /** Two roots that reach page w through the same PD or PT both get what one of them maps there. */
  lemma MapShared(st: State, lv: Levels, r: nat, k: nat, w: Vpn, frame: nat, fl: Flags)
    requires Valid(st, lv) && IsRoot(st.mem, lv, r) && IsRoot(st.mem, lv, k)
    requires (Pd(st.mem, r, w).Some? && Pd(st.mem, k, w) == Pd(st.mem, r, w))
             || (Pt(st.mem, r, w).Some? && Pt(st.mem, k, w) == Pt(st.mem, r, w))
    requires MapPage(st, r, w, frame, fl).1 && fl.present
    ensures Translate(MapPage(st, r, w, frame, fl).0.mem, k, w) == Some(frame)
  {
    hide MapPage, ViaPml4e, IsTree;
    var lv' := MapPageRefines(st, lv, r, w, frame, fl);
    var st' := MapPage(st, r, w, frame, fl).0;
    WalkStays(st.mem, st'.mem, lv, r, w);
    WalkStays(st.mem, st'.mem, lv, k, w);
    assert SameSlot(st'.mem, k, w, r, w);
  }
}
