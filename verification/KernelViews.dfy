// The kernel's identity mappings as views: which pages are kernel memory and which become user
// memory when a large page is split.

module KernelViews {
  import opened Options
  import opened PageTables
  import opened PageEdits
  import opened Mapper
  import opened PageViews

  const KERNEL_RW: Flags := Flags(true, true, false, false)

  lemma AlignedDigits(u: Vpn)
    ensures PageOf(u) % 262144 == 0 ==> u.i2 == 0 && u.i1 == 0
    ensures PageOf(u) % 512 == 0 ==> u.i1 == 0
  {
    DivideBack((u.i4 * 512 + u.i3) * 512 + u.i2, u.i1);
    if PageOf(u) % 262144 == 0 {
      var k := PageOf(u) / 262144;
      assert PageOf(u) == k * 262144;
    }
  }

  lemma DigitsUnique(a: nat, i: Index, b: nat, j: Index)
    requires a * 512 + i == b * 512 + j
    ensures a == b && i == j
  {
  }

  lemma GigRange(u: Vpn, v: Vpn)
    requires u.i2 == 0 && u.i1 == 0
    ensures u.i4 == v.i4 && u.i3 == v.i3 <==> PageOf(u) <= PageOf(v) < PageOf(u) + 262144
  {
    if PageOf(u) <= PageOf(v) < PageOf(u) + 262144 {
      DigitsUnique(u.i4, u.i3, v.i4, v.i3);
    }
  }

  lemma MegRange(u: Vpn, v: Vpn)
    requires u.i1 == 0
    ensures u.i4 == v.i4 && u.i3 == v.i3 && u.i2 == v.i2 <==> PageOf(u) <= PageOf(v) < PageOf(u) + 512
  {
    if PageOf(u) <= PageOf(v) < PageOf(u) + 512 {
      DigitsUnique(u.i4 * 512 + u.i3, u.i2, v.i4 * 512 + v.i3, v.i2);
      DigitsUnique(u.i4, u.i3, v.i4, v.i3);
    }
  }

  /** The pages of the 2 MB page and of the 1 GB page at p are those with p's upper indices. */
  lemma LargePageRange(p: nat, q: nat)
    requires p < VIRTUAL_PAGES && q < VIRTUAL_PAGES
    ensures var u, v := VpnOf(p), VpnOf(q);
      && (p % 262144 == 0 ==>
            && (u.i4 == v.i4 && u.i3 == v.i3 <==> p <= q < p + 262144)
            && (p <= q < p + 262144 ==> p + v.i2 * 512 + v.i1 == q))
      && (p % 512 == 0 ==>
            && (u.i4 == v.i4 && u.i3 == v.i3 && u.i2 == v.i2 <==> p <= q < p + 512)
            && (p <= q < p + 512 ==> p + v.i1 == q))
  {
    var u, v := VpnOf(p), VpnOf(q);
    PageRoundTrip(p);
    PageRoundTrip(q);
    AlignedDigits(u);
    if p % 262144 == 0 { GigRange(u, v); }
    if p % 512 == 0 { MegRange(u, v); }
  }

  ghost predicate Rooted(st: State, lv: Levels, root: nat) {
    Valid(st, lv) && IsRoot(st.mem, lv, root) && IsTree(st.mem, root)
  }

  /** From m to m' tables were added only along the walk of w. */
  ghost predicate OnlyAlong(m: Memory, m': Memory, root: nat, w: Vpn) {
    forall u ::
      && (Pd(m', root, u).Some? ==> Pd(m, root, u).Some? || (u.i4 == w.i4 && u.i3 == w.i3))
      && (Pt(m', root, u).Some? ==> Pt(m, root, u).Some? || (u.i4 == w.i4 && u.i3 == w.i3 && u.i2 == w.i2))
  }

  lemma MarkAlong(st: State, lv: Levels, user: bool, p: nat, i: Index, root: nat, w: Vpn)
    requires WellFormed(st.mem, lv) && IsRoot(st.mem, lv, root) && p in st.mem
    ensures OnlyAlong(st.mem, MarkUserIf(st, user, p, i).mem, root, w)
  {
    hide ViaPml4e, Pd, Pt;
    PatchUserSame(st.mem, lv, p, i);
  }

  /** A new table hung below the entry of w's walk. */
  lemma AttachAlong(st: State, lv: Levels, p: nat, i: Index, table: Table, root: nat, w: Vpn)
    requires Rooted(st, lv, root) && p in st.mem && !IsLink(lv[p], st.mem[p][i]) && Covers(st.mem, lv[p], st.mem[p][i], table)
    requires (p == root && i == w.i4) || (Pdpt(st.mem, root, w) == Some(p) && i == w.i3)
             || (Pd(st.mem, root, w) == Some(p) && i == w.i2)
    ensures OnlyAlong(st.mem, Attach(st, p, i, table).0.mem, root, w)
  {
    hide ViaPml4e, Covers, Graft;
    if HasSpace(st) {
      var n := st.base + st.next;
      var m' := Attach(st, p, i, table).0.mem;
      assert m' == Graft(st.mem, p, i, LinkTo(n), n, table) by {
        GraftIs(st.mem, p, i, LinkTo(n), n, table);
      }
      forall u
        ensures Pd(m', root, u).Some? ==> Pd(st.mem, root, u).Some? || (u.i4 == w.i4 && u.i3 == w.i3)
        ensures Pt(m', root, u).Some? ==> Pt(st.mem, root, u).Some? || (u.i4 == w.i4 && u.i3 == w.i3 && u.i2 == w.i2)
      {
        GraftWalk(st.mem, lv, p, i, LinkTo(n), n, table, root, u);
        WalkLevels(st.mem, lv, root, u);
        WalkLevels(st.mem, lv, root, w);
      }
    }
  }

  lemma GraftIs(m: Memory, p: nat, i: Index, e: Entry, n: nat, table: Table)
    ensures Graft(m, p, i, e, n, table) == Patch(m, p, i, e)[n := table]
  {
  }

  lemma EnsureAlong(st: State, lv: Levels, root: nat, w: Vpn)
    requires Rooted(st, lv, root)
    ensures OnlyAlong(st.mem, EnsurePdpt(st, root, w.i4).0.mem, root, w)
    ensures Pdpt(st.mem, root, w).Some? ==>
      OnlyAlong(st.mem, EnsurePd(st, Pdpt(st.mem, root, w).value, w.i3).0.mem, root, w)
    ensures Pd(st.mem, root, w).Some? ==>
      OnlyAlong(st.mem, EnsurePt(st, Pd(st.mem, root, w).value, w.i2).0.mem, root, w)
  {
    hide OnlyAlong, IsTree, ViaPml4e, Attach;
    WalkLevels(st.mem, lv, root, w);
    EnsureOneAlong(st, lv, root, w.i4, root, w);
    if Pdpt(st.mem, root, w).Some? {
      EnsureOneAlong(st, lv, Pdpt(st.mem, root, w).value, w.i3, root, w);
    }
    if Pd(st.mem, root, w).Some? {
      EnsureOneAlong(st, lv, Pd(st.mem, root, w).value, w.i2, root, w);
    }
  }

  lemma EnsureOneAlong(st: State, lv: Levels, p: nat, i: Index, root: nat, w: Vpn)
    requires Rooted(st, lv, root) && p in st.mem && 2 <= lv[p]
    requires (p == root && i == w.i4) || (Pdpt(st.mem, root, w) == Some(p) && i == w.i3)
             || (Pd(st.mem, root, w) == Some(p) && i == w.i2)
    ensures OnlyAlong(st.mem, MarkUser(st, p, i).mem, root, w)
    ensures !st.mem[p][i].present ==> OnlyAlong(st.mem, Attach(st, p, i, EmptyTable()).0.mem, root, w)
    ensures st.mem[p][i].present && st.mem[p][i].ps && lv[p] == 3 ==>
      OnlyAlong(st.mem, Attach(st, p, i, Split1G(st.mem[p][i])).0.mem, root, w)
    ensures st.mem[p][i].present && st.mem[p][i].ps && lv[p] == 2 ==>
      OnlyAlong(st.mem, Attach(st, p, i, Split2M(st.mem[p][i])).0.mem, root, w)
  {
    hide OnlyAlong, IsTree, Attach, Split1G, Split2M;
    MarkAlong(st, lv, true, p, i, root, w);
    var e := st.mem[p][i];
    if !e.present {
      AttachAlong(st, lv, p, i, EmptyTable(), root, w);
    } else if e.ps {
      SplitCovers(st.mem, e);
      if lv[p] == 3 {
        AttachAlong(st, lv, p, i, Split1G(e), root, w);
      } else if lv[p] == 2 {
        AttachAlong(st, lv, p, i, Split2M(e), root, w);
      }
    }
  }

  lemma AlongTransitive(m0: Memory, m1: Memory, m2: Memory, root: nat, w: Vpn)
    requires OnlyAlong(m0, m1, root, w) && OnlyAlong(m1, m2, root, w)
    ensures OnlyAlong(m0, m2, root, w)
  {
    hide Pd, Pt;
  }

  lemma ReachPdptAlong(st: State, lv: Levels, root: nat, w: Vpn, user: bool)
    requires Rooted(st, lv, root)
    ensures OnlyAlong(st.mem, ReachPdpt(st, root, w, user).0.mem, root, w)
  {
    hide OnlyAlong, EnsurePdpt, EnsurePd, EnsurePt, NoNewLarge, SameTranslations, ViaPml4e, LinksKept, MarkUserIf;
    EnsureAlong(st, lv, root, w);
    var (s, c) := EnsurePdpt(st, root, w.i4);
    if c.Some? {
      var l1 := EnsurePdptGrows(st, lv, root, w);
      RootsKept(st, lv, s, l1, root, w);
      MarkAlong(s, l1, user, root, w.i4, root, w);
      AlongTransitive(st.mem, s.mem, MarkUserIf(s, user, root, w.i4).mem, root, w);
    }
  }

  lemma ReachPdAlong(st: State, lv: Levels, root: nat, w: Vpn, user: bool)
    requires Rooted(st, lv, root)
    ensures OnlyAlong(st.mem, ReachPd(st, root, w, user).0.mem, root, w)
  {
    hide OnlyAlong, ReachPdpt, EnsurePdpt, EnsurePd, EnsurePt, NoNewLarge, SameTranslations, ViaPml4e, LinksKept, MarkUserIf;
    ReachPdptAlong(st, lv, root, w, user);
    var (s, p) := ReachPdpt(st, root, w, user);
    if p.Some? {
      var l1 := ReachPdptGrows(st, lv, root, w, user);
      RootsKept(st, lv, s, l1, root, w);
      EnsureAlong(s, l1, root, w);
      var (s', c) := EnsurePd(s, p.value, w.i3);
      AlongTransitive(st.mem, s.mem, s'.mem, root, w);
      if c.Some? {
        var l2 := EnsurePdGrows(s, l1, root, w, p.value);
        RootsKept(s, l1, s', l2, root, w);
        WalkLevels(s'.mem, l2, root, w);
        MarkAlong(s', l2, user, p.value, w.i3, root, w);
        AlongTransitive(st.mem, s'.mem, MarkUserIf(s', user, p.value, w.i3).mem, root, w);
      }
    }
  }

  lemma ReachPtAlong(st: State, lv: Levels, root: nat, w: Vpn, user: bool)
    requires Rooted(st, lv, root)
    ensures OnlyAlong(st.mem, ReachPt(st, root, w, user).0.mem, root, w)
  {
    hide OnlyAlong, ReachPd, EnsurePdpt, EnsurePd, EnsurePt, NoNewLarge, SameTranslations, ViaPml4e, LinksKept, MarkUserIf;
    ReachPdAlong(st, lv, root, w, user);
    var (s, p) := ReachPd(st, root, w, user);
    if p.Some? {
      var l1 := ReachPdGrows(st, lv, root, w, user);
      RootsKept(st, lv, s, l1, root, w);
      EnsureAlong(s, l1, root, w);
      var (s', c) := EnsurePt(s, p.value, w.i2);
      AlongTransitive(st.mem, s.mem, s'.mem, root, w);
      if c.Some? {
        var l2 := EnsurePtGrows(s, l1, root, w, Pdpt(s.mem, root, w).value, p.value);
        RootsKept(s, l1, s', l2, root, w);
        WalkLevels(s'.mem, l2, root, w);
        MarkAlong(s', l2, user, p.value, w.i2, root, w);
        AlongTransitive(st.mem, s'.mem, MarkUserIf(s', user, p.value, w.i2).mem, root, w);
      }
    }
  }

  lemma MapPageAlong(st: State, lv: Levels, root: nat, w: Vpn, frame: nat, fl: Flags)
    requires Rooted(st, lv, root)
    ensures OnlyAlong(st.mem, MapPage(st, root, w, frame, fl).0.mem, root, w)
  {
    hide OnlyAlong, ReachPt, NoNewLarge, SameTranslations, ViaPml4e, LinksKept;
    ReachPtAlong(st, lv, root, w, fl.user);
    var (s, c) := ReachPt(st, root, w, fl.user);
    if c.Some? {
      var l1 := ReachPtGrows(st, lv, root, w, fl.user);
      RootsKept(st, lv, s, l1, root, w);
      WalkLevels(s.mem, l1, root, w);
      LeafAlong(s.mem, l1, c.value, w.i1, LeafEntry(frame, fl, false), root, w);
      AlongTransitive(st.mem, s.mem, Patch(s.mem, c.value, w.i1, LeafEntry(frame, fl, false)), root, w);
    }
  }

  lemma LeafAlong(m: Memory, lv: Levels, p: nat, i: Index, e: Entry, root: nat, w: Vpn)
    requires WellFormed(m, lv) && IsRoot(m, lv, root) && p in m && lv[p] == 1
    ensures OnlyAlong(m, Patch(m, p, i, e), root, w)
  {
    hide ViaPml4e, Patch;
    forall u
      ensures Pd(Patch(m, p, i, e), root, u) == Pd(m, root, u) && Pt(Patch(m, p, i, e), root, u) == Pt(m, root, u)
    {
      PatchPteWalk(m, lv, p, i, e, root, u);
    }
  }

  // ----- which pages share a large page -----

  lemma SameLeafSameBlock(m: Memory, lv: Levels, root: nat, u: Vpn, v: Vpn)
    requires WellFormed(m, lv) && IsRoot(m, lv, root) && IsTree(m, root) && OnLargePage(m, root, v)
    ensures LeafAt(m, root, u) == LeafAt(m, root, v) <==>
            u.i4 == v.i4 && u.i3 == v.i3 && (OnGigPage(m, root, v) || u.i2 == v.i2)
    ensures LeafAt(m, root, u) == LeafAt(m, root, v) ==>
      OnLargePage(m, root, u) && (OnGigPage(m, root, u) <==> OnGigPage(m, root, v))
  {
    WalkLevels(m, lv, root, u);
    WalkLevels(m, lv, root, v);
  }

  lemma LargeByLevel(m: Memory, lv: Levels, r: nat, u: Vpn)
    requires WellFormed(m, lv) && IsRoot(m, lv, r)
    ensures LeafAt(m, r, u).Some? ==> LeafAt(m, r, u).value.0 in m
    ensures OnLargePage(m, r, u) <==> LeafAt(m, r, u).Some? && lv[LeafAt(m, r, u).value.0] >= 2
    ensures OnGigPage(m, r, u) <==> LeafAt(m, r, u).Some? && lv[LeafAt(m, r, u).value.0] == 3
  {
    WalkLevels(m, lv, r, u);
  }

  /** Page q lies on a large page that page p lies in too. */
  predicate SharesLarge(m: Memory, root: nat, q: nat, p: nat) {
    || (OnGigPage(m, root, VpnOf(q)) && q / 262144 == p / 262144)
    || (OnLargePage(m, root, VpnOf(q)) && q / 512 == p / 512)
  }

  lemma BlockDigits(p: nat, q: nat)
    requires p < VIRTUAL_PAGES && q < VIRTUAL_PAGES
    ensures var u, v := VpnOf(p), VpnOf(q);
      && (u.i4 == v.i4 && u.i3 == v.i3 <==> p / 262144 == q / 262144)
      && (u.i4 == v.i4 && u.i3 == v.i3 && u.i2 == v.i2 <==> p / 512 == q / 512)
      && (u == v <==> p == q)
  {
    PageRoundTrip(p);
    PageRoundTrip(q);
    GigDigits(p);
    GigDigits(q);
    DigitsOf(p);
    DigitsOf(q);
  }

  lemma GigDigits(p: nat)
    ensures p / 512 / 512 == p / 262144
  {
  }

  /** Page numbers and indices, block by block. */
  lemma DigitsOf(p: nat)
    requires p < VIRTUAL_PAGES
    ensures var u := VpnOf(p);
      p / 512 / 512 == u.i4 * 512 + u.i3 && p / 512 == (u.i4 * 512 + u.i3) * 512 + u.i2
  {
    assert p / 512 / 512 / 512 < 512;
  }

  // ----- one identity step -----

  /** Every link that the walks from root pass is open. */
  ghost predicate AllOpen(m: Memory, root: nat) {
    forall u :: OpenWalk(m, root, u)
  }

  predicate IsKernel(v: Option<Mapping>, p: nat) {
    v == Some(Mapping(p, true, false, false))
  }

  /** What mapping the n pages from p on to themselves does to the view of page q. */
  ghost predicate SteppedAt(m: Memory, m': Memory, root: nat, p: nat, n: nat, ok: bool, q: nat) {
    var u := VpnOf(q);
    if ok && p <= q < p + n then
      && IsKernel(View(m', root, u), q)
      && (OnLargePage(m', root, u) <==> n > 1) && (OnGigPage(m', root, u) <==> n == 262144)
    else
      && (OnLargePage(m', root, u) ==> OnLargePage(m, root, u)) && (OnGigPage(m', root, u) ==> OnGigPage(m, root, u))
      && (View(m', root, u) == View(m, root, u)
          || (OnLargePage(m, root, u) && View(m', root, u) == Raised(View(m, root, u))))
      && (SharesLarge(m, root, q, p) ||
           (&& View(m', root, u) == View(m, root, u)
            && (OnLargePage(m', root, u) <==> OnLargePage(m, root, u)) && (OnGigPage(m', root, u) <==> OnGigPage(m, root, u))))
  }

  ghost predicate Stepped(m: Memory, m': Memory, root: nat, p: nat, n: nat, ok: bool) {
    forall q: nat :: q < VIRTUAL_PAGES ==> SteppedAt(m, m', root, p, n, ok, q)
  }

  /** Page q, which is not in the written slot, when the leaf at `at` was split. */
  lemma ElsewhereStepped(st: State, lv: Levels, root: nat, p: nat, n: nat, ok: bool, q: nat, st': State, lv': Levels,
                         at: Option<Place>)
    requires Rooted(st, lv, root) && p < VIRTUAL_PAGES && q < VIRTUAL_PAGES && !(ok && p <= q < p + n)
    requires Valid(st', lv') && IsRoot(st'.mem, lv', root) && forall t :: t in lv ==> t in lv' && lv'[t] == lv[t]
    requires at.Some? ==> at == LeafAt(st.mem, root, VpnOf(p)) && OnLargePage(st.mem, root, VpnOf(p))
    requires View(st'.mem, root, VpnOf(q)) == SplitView(st.mem, at, root, VpnOf(q))
    requires PlaceKept(st.mem, st'.mem, at, root, VpnOf(q))
    requires OnLargePage(st'.mem, root, VpnOf(q)) ==> OnLargePage(st.mem, root, VpnOf(q))
    requires OnGigPage(st'.mem, root, VpnOf(q)) ==> OnGigPage(st.mem, root, VpnOf(q))
    ensures SteppedAt(st.mem, st'.mem, root, p, n, ok, q)
  {
    hide VpnOf, View, LeafAt, OnLargePage, OnGigPage, IsTree, WellFormed;
    var u := VpnOf(q);
    if at.Some? && LeafAt(st.mem, root, u) == at {
      SameLeafSameBlock(st.mem, lv, root, u, VpnOf(p));
      BlockDigits(p, q);
    } else {
      LargeByLevel(st.mem, lv, root, u);
      LargeByLevel(st'.mem, lv', root, u);
      TablesHaveLevels(st.mem, lv);
    }
  }

  lemma TablesHaveLevels(m: Memory, lv: Levels)
    requires WellFormed(m, lv)
    ensures lv.Keys == m.Keys
  {
  }

  lemma Step4K(st: State, lv: Levels, root: nat, p: nat)
    requires Rooted(st, lv, root) && p < VIRTUAL_PAGES
    ensures var (st', ok) := MapPage(st, root, VpnOf(p), p, KERNEL_RW);
      Stepped(st.mem, st'.mem, root, p, 1, ok) && (AllOpen(st.mem, root) ==> AllOpen(st'.mem, root))
  {
    hide OpenWalk, SteppedAt, VpnOf, MapPage, View, LeafAt, ViaPml4e;
    var w := VpnOf(p);
    var (st', ok) := MapPage(st, root, w, p, KERNEL_RW);
    forall u ensures OpenWalk(st.mem, root, u) ==> OpenWalk(st'.mem, root, u) {
      MapPageViews(st, lv, root, w, p, KERNEL_RW, root, u);
    }
    var lv' := MapPageRefines(st, lv, root, w, p, KERNEL_RW);
    RootsKept(st, lv, st', lv', root, w);
    forall q: nat | q < VIRTUAL_PAGES ensures SteppedAt(st.mem, st'.mem, root, p, 1, ok, q) {
      MapPageViews(st, lv, root, w, p, KERNEL_RW, root, VpnOf(q));
      BlockDigits(p, q);
      if ok && q == p {
        Stepped4KHere(st.mem, st'.mem, root, p);
      } else {
        assert ok ==> !SameSlot(st'.mem, root, VpnOf(q), root, w);
        BrokenIsLeaf(st, root, w);
        ElsewhereStepped(st, lv, root, p, 1, ok, q, st', lv', Broken(st, root, w));
      }
    }
  }

  lemma Stepped4KHere(m: Memory, m': Memory, root: nat, p: nat)
    requires IsKernel(View(m', root, VpnOf(p)), p) && Pt(m', root, VpnOf(p)).Some?
    ensures SteppedAt(m, m', root, p, 1, true, p)
  {
    hide View, VpnOf;
  }

  lemma BrokenIsLeaf(st: State, root: nat, w: Vpn)
    ensures Broken(st, root, w).Some? ==> Broken(st, root, w) == LeafAt(st.mem, root, w) && OnLargePage(st.mem, root, w)
    ensures GigBroken(st, root, w).Some? ==> GigBroken(st, root, w) == LeafAt(st.mem, root, w) && OnLargePage(st.mem, root, w)
  {
    hide LeafAt;
  }

  lemma WriteLargeNoNew(m: Memory, lv: Levels, p: nat, i: Index, e: Entry, r: nat, u: Vpn)
    requires WellFormed(m, lv) && IsRoot(m, lv, r) && p in m && (lv[p] == 2 || lv[p] == 3) && e.ps && !IsLink(lv[p], m[p][i])
    ensures var m' := Patch(m, p, i, e);
      && (lv[p] == 2 && !(Pd(m, r, u) == Some(p) && u.i2 == i) ==> (OnLargePage(m', r, u) <==> OnLargePage(m, r, u)))
      && (lv[p] == 2 ==> (OnGigPage(m', r, u) <==> OnGigPage(m, r, u)))
      && (lv[p] == 3 && !(Pdpt(m, r, u) == Some(p) && u.i3 == i) ==>
            (OnLargePage(m', r, u) <==> OnLargePage(m, r, u)) && (OnGigPage(m', r, u) <==> OnGigPage(m, r, u)))
  {
    WalkLevels(m, lv, r, u);
  }

  lemma Map2MNoNew(st: State, lv: Levels, root: nat, w: Vpn, frame: nat, fl: Flags, u: Vpn)
    requires Valid(st, lv) && IsRoot(st.mem, lv, root)
    ensures var (st', ok) := MapPage2M(st, root, w, frame, fl);
      && (!(ok && SameSlot2M(st'.mem, root, u, root, w)) && OnLargePage(st'.mem, root, u) ==> OnLargePage(st.mem, root, u))
      && (!(ok && SameSlot2M(st'.mem, root, u, root, w)) && OnGigPage(st'.mem, root, u) ==> OnGigPage(st.mem, root, u))
  {
    hide ReachPd, SameTranslations, ViaPml4e, IsTree, LinksKept, LeafEntry, OnLargePage, OnGigPage;
    if w.i1 == 0 && frame % 512 == 0 {
      var l1 := ReachPdGrows(st, lv, root, w, false);
      var (s, c) := ReachPd(st, root, w, false);
      RootsKept(st, lv, s, l1, root, w);
      if c.Some? && !IsLink(2, Get(s.mem, c.value, w.i2)) {
        WalkLevels(s.mem, l1, root, w);
        LargeLeafIsLarge(frame, fl);
        WriteLargeNoNew(s.mem, l1, c.value, w.i2, LeafEntry(frame, fl, true), root, u);
        PatchPdeWalk(s.mem, l1, c.value, w.i2, LeafEntry(frame, fl, true), root, u);
        PatchPdeWalk(s.mem, l1, c.value, w.i2, LeafEntry(frame, fl, true), root, w);
      }
    }
  }

  lemma Map1GNoNew(st: State, lv: Levels, root: nat, w: Vpn, frame: nat, fl: Flags, u: Vpn)
    requires Valid(st, lv) && IsRoot(st.mem, lv, root)
    ensures var (st', ok) := MapPage1G(st, root, w, frame, fl);
      && (!(ok && SameSlot1G(st'.mem, root, u, root, w)) && OnLargePage(st'.mem, root, u) ==> OnLargePage(st.mem, root, u))
      && (!(ok && SameSlot1G(st'.mem, root, u, root, w)) && OnGigPage(st'.mem, root, u) ==> OnGigPage(st.mem, root, u))
  {
    hide ReachPdpt, SameTranslations, ViaPml4e, IsTree, LinksKept, LeafEntry, OnLargePage, OnGigPage;
    if w.i2 == 0 && w.i1 == 0 && frame % 262144 == 0 {
      var l1 := ReachPdptGrows(st, lv, root, w, false);
      var (s, c) := ReachPdpt(st, root, w, false);
      RootsKept(st, lv, s, l1, root, w);
      if c.Some? && !IsLink(3, Get(s.mem, c.value, w.i3)) {
        WalkLevels(s.mem, l1, root, w);
        LargeLeafIsLarge(frame, fl);
        WriteLargeNoNew(s.mem, l1, c.value, w.i3, LeafEntry(frame, fl, true), root, u);
        PatchPdpteWalk(s.mem, l1, c.value, w.i3, LeafEntry(frame, fl, true), root, u);
        PatchPdpteWalk(s.mem, l1, c.value, w.i3, LeafEntry(frame, fl, true), root, w);
      }
    }
  }

  /** All pages of a written PD slot are on that 2 MB page. */
  lemma Slot2MIsLarge(st: State, lv: Levels, root: nat, w: Vpn, frame: nat, u: Vpn)
    requires Valid(st, lv) && IsRoot(st.mem, lv, root)
    ensures var (st', ok) := MapPage2M(st, root, w, frame, KERNEL_RW);
      ok && SameSlot2M(st'.mem, root, u, root, w) ==> OnLargePage(st'.mem, root, u) && !OnGigPage(st'.mem, root, u)
  {
    hide ReachPd, NoNewLarge, SameTranslations, ViaPml4e, IsTree, LinksKept;
    if w.i1 == 0 && frame % 512 == 0 {
      var l1 := ReachPdGrows(st, lv, root, w, false);
      var (s, c) := ReachPd(st, root, w, false);
      RootsKept(st, lv, s, l1, root, w);
      if c.Some? {
        WalkLevels(s.mem, l1, root, w);
        if !IsLink(2, Get(s.mem, c.value, w.i2)) {
          PatchPdeWalk(s.mem, l1, c.value, w.i2, LeafEntry(frame, KERNEL_RW, true), root, w);
        }
      }
    }
  }

  lemma Slot1GIsLarge(st: State, lv: Levels, root: nat, w: Vpn, frame: nat, u: Vpn)
    requires Valid(st, lv) && IsRoot(st.mem, lv, root)
    ensures var (st', ok) := MapPage1G(st, root, w, frame, KERNEL_RW);
      ok && SameSlot1G(st'.mem, root, u, root, w) ==> OnGigPage(st'.mem, root, u)
  {
    hide ReachPdpt, NoNewLarge, SameTranslations, ViaPml4e, IsTree, LinksKept;
    if w.i2 == 0 && w.i1 == 0 && frame % 262144 == 0 {
      var l1 := ReachPdptGrows(st, lv, root, w, false);
      var (s, c) := ReachPdpt(st, root, w, false);
      RootsKept(st, lv, s, l1, root, w);
      if c.Some? {
        WalkLevels(s.mem, l1, root, w);
        if !IsLink(3, Get(s.mem, c.value, w.i3)) {
          PatchPdpteWalk(s.mem, l1, c.value, w.i3, LeafEntry(frame, KERNEL_RW, true), root, w);
        }
      }
    }
  }

  lemma Step2M(st: State, lv: Levels, root: nat, p: nat)
    requires Rooted(st, lv, root) && p + 512 <= VIRTUAL_PAGES && p % 512 == 0
    ensures var (st', ok) := MapPage2M(st, root, VpnOf(p), p, KERNEL_RW);
      Stepped(st.mem, st'.mem, root, p, 512, ok) && (AllOpen(st.mem, root) ==> AllOpen(st'.mem, root))
  {
    hide OpenWalk, SteppedAt, VpnOf, MapPage2M, View, LeafAt, ViaPml4e, OnLargePage, OnGigPage;
    var w := VpnOf(p);
    var (st', ok) := MapPage2M(st, root, w, p, KERNEL_RW);
    forall u ensures OpenWalk(st.mem, root, u) ==> OpenWalk(st'.mem, root, u) {
      MapPage2MViews(st, lv, root, w, p, KERNEL_RW, root, u);
    }
    var lv' := MapPage2MRefines(st, lv, root, w, p, KERNEL_RW);
    RootsKept(st, lv, st', lv', root, w);
    forall q: nat | q < VIRTUAL_PAGES ensures SteppedAt(st.mem, st'.mem, root, p, 512, ok, q) {
      var u := VpnOf(q);
      MapPage2MViews(st, lv, root, w, p, KERNEL_RW, root, u);
      LargePageRange(p, q);
      Map2MNoNew(st, lv, root, w, p, KERNEL_RW, u);
      Slot2MIsLarge(st, lv, root, w, p, u);
      BrokenIsLeaf(st, root, w);
      var at := if w.i1 == 0 && p % 512 == 0 then GigBroken(st, root, w) else None;
      if ok && p <= q < p + 512 {
        assert SameSlot2M(st'.mem, root, u, root, w);
        SteppedHere(st.mem, st'.mem, root, p, 512, q);
      } else {
        assert ok ==> !SameSlot2M(st'.mem, root, u, root, w);
        AlignedDigit(p);
        ElsewhereStepped(st, lv, root, p, 512, ok, q, st', lv', at);
      }
    }
  }

  lemma AlignedDigit(p: nat)
    requires p < VIRTUAL_PAGES
    ensures p % 512 == 0 ==> VpnOf(p).i1 == 0
  {
    PageRoundTrip(p);
    AlignedDigits(VpnOf(p));
  }

  lemma SteppedHere(m: Memory, m': Memory, root: nat, p: nat, n: nat, q: nat)
    requires p <= q < p + n && (n == 512 || n == 262144) && IsKernel(View(m', root, VpnOf(q)), q)
    requires OnLargePage(m', root, VpnOf(q)) && (OnGigPage(m', root, VpnOf(q)) <==> n == 262144)
    ensures SteppedAt(m, m', root, p, n, true, q)
  {
    hide View, VpnOf, OnLargePage, OnGigPage;
  }

  lemma Step1G(st: State, lv: Levels, root: nat, p: nat)
    requires Rooted(st, lv, root) && p + 262144 <= VIRTUAL_PAGES && p % 262144 == 0
    ensures var (st', ok) := MapPage1G(st, root, VpnOf(p), p, KERNEL_RW);
      Stepped(st.mem, st'.mem, root, p, 262144, ok) && (AllOpen(st.mem, root) ==> AllOpen(st'.mem, root))
  {
    hide OpenWalk, SteppedAt, VpnOf, MapPage1G, View, LeafAt, ViaPml4e, OnLargePage, OnGigPage;
    var w := VpnOf(p);
    var (st', ok) := MapPage1G(st, root, w, p, KERNEL_RW);
    forall u ensures OpenWalk(st.mem, root, u) ==> OpenWalk(st'.mem, root, u) {
      MapPage1GViews(st, lv, root, w, p, KERNEL_RW, root, u);
    }
    var lv' := MapPage1GRefines(st, lv, root, w, p, KERNEL_RW);
    RootsKept(st, lv, st', lv', root, w);
    forall q: nat | q < VIRTUAL_PAGES ensures SteppedAt(st.mem, st'.mem, root, p, 262144, ok, q) {
      var u := VpnOf(q);
      MapPage1GViews(st, lv, root, w, p, KERNEL_RW, root, u);
      LargePageRange(p, q);
      Map1GNoNew(st, lv, root, w, p, KERNEL_RW, u);
      Slot1GIsLarge(st, lv, root, w, p, u);
      if ok && p <= q < p + 262144 {
        assert SameSlot1G(st'.mem, root, u, root, w);
        GigIsLarge(st'.mem, root, u);
        SteppedHere(st.mem, st'.mem, root, p, 262144, q);
      } else {
        assert ok ==> !SameSlot1G(st'.mem, root, u, root, w);
        ElsewhereStepped(st, lv, root, p, 262144, ok, q, st', lv', None);
      }
    }
  }

  lemma GigIsLarge(m: Memory, r: nat, u: Vpn)
    ensures OnGigPage(m, r, u) ==> OnLargePage(m, r, u)
  {
  }

  // ----- many identity steps -----

  /** The large page that page q is on, if any, ends at or before `page`. */
  ghost predicate Ends(m: Memory, root: nat, q: nat, page: nat) {
    && (OnLargePage(m, root, VpnOf(q)) ==> (q / 512 + 1) * 512 <= page)
    && (OnGigPage(m, root, VpnOf(q)) ==> (q / 262144 + 1) * 262144 <= page)
  }

  /** Pages lo to hi are kernel memory that maps to itself, on pages that end by hi. */
  ghost predicate Tidy(m: Memory, root: nat, lo: nat, hi: nat) {
    forall q: nat :: lo <= q < hi ==> IsKernel(View(m, root, VpnOf(q)), q) && Ends(m, root, q, hi)
  }

  /** Other pages look as in m0, except that the pages of a large page may have been raised. */
  ghost predicate OutsideKept(m: Memory, m0: Memory, root: nat, lo: nat, hi: nat) {
    forall q: nat :: q < VIRTUAL_PAGES && !(lo <= q < hi) ==>
      var u := VpnOf(q);
      && (OnLargePage(m, root, u) ==> OnLargePage(m0, root, u))
      && (View(m, root, u) == View(m0, root, u)
          || (OnLargePage(m0, root, u) && View(m, root, u) == Raised(View(m0, root, u))))
  }

  /** Page lo is on a page of n frames. */
  ghost predicate PageSize(m: Memory, root: nat, lo: nat, n: nat) {
    && (OnLargePage(m, root, VpnOf(lo)) <==> n > 1) && (OnGigPage(m, root, VpnOf(lo)) <==> n == 262144)
  }

  /** Blocks that start where a page of their size may. */
  predicate IsBlock(p: nat, n: nat) {
    (n == 1 || n == 512 || n == 262144) && p % n == 0 && p + n <= VIRTUAL_PAGES
  }

  lemma EndsApart(m: Memory, root: nat, q: nat, p: nat)
    requires q < p && Ends(m, root, q, p)
    ensures !SharesLarge(m, root, q, p)
  {
    hide OnLargePage, OnGigPage, VpnOf;
  }

  lemma BlockEnds(m: Memory, root: nat, p: nat, n: nat, q: nat)
    requires IsBlock(p, n) && p <= q < p + n
    requires (OnLargePage(m, root, VpnOf(q)) <==> n > 1) && (OnGigPage(m, root, VpnOf(q)) <==> n == 262144)
    ensures Ends(m, root, q, p + n)
  {
    hide OnLargePage, OnGigPage, VpnOf;
    if n == 512 {
      EndsBy(q, 512, p / 512 + 1);
    } else if n == 262144 {
      EndsBy(q, 262144, p / 262144 + 1);
      EndsBy(q, 512, (p / 262144 + 1) * 512);
    }
  }

  lemma EndsBy(q: nat, w: nat, c: nat)
    requires w > 0 && q < c * w
    ensures (q / w + 1) * w <= c * w
  {
    var d := q / w;
    assert d * w <= q by {
      assert q == w * d + q % w;
    }
    if c <= d {
      Grow(c, d, w);
    }
    Grow(d + 1, c, w);
  }

  lemma Grow(a: nat, b: nat, w: nat)
    ensures a <= b ==> a * w <= b * w
  {
    assert a <= b ==> b * w == a * w + (b - a) * w;
  }

  lemma TidyStep(m: Memory, m': Memory, root: nat, lo: nat, p: nat, n: nat, ok: bool)
    requires Tidy(m, root, lo, p) && Stepped(m, m', root, p, n, ok) && IsBlock(p, n)
    ensures Tidy(m', root, lo, if ok then p + n else p)
  {
    hide View, OnLargePage, OnGigPage, VpnOf, IsBlock;
    var hi := if ok then p + n else p;
    assert p + n <= VIRTUAL_PAGES by {
      BlockFits(p, n);
    }
    forall q: nat | lo <= q < hi ensures IsKernel(View(m', root, VpnOf(q)), q) && Ends(m', root, q, hi) {
      assert SteppedAt(m, m', root, p, n, ok, q);
      if q < p {
        EndsApart(m, root, q, p);
      } else {
        BlockEnds(m', root, p, n, q);
      }
    }
  }

  lemma BlockFits(p: nat, n: nat)
    requires IsBlock(p, n)
    ensures p + n <= VIRTUAL_PAGES
  {
  }

  lemma OutsideStep(m: Memory, m': Memory, m0: Memory, root: nat, lo: nat, p: nat, n: nat, ok: bool)
    requires OutsideKept(m, m0, root, lo, p) && Stepped(m, m', root, p, n, ok) && lo <= p
    ensures OutsideKept(m', m0, root, lo, if ok then p + n else p)
  {
    hide View, OnLargePage, OnGigPage, VpnOf;
    var hi := if ok then p + n else p;
    forall q: nat | q < VIRTUAL_PAGES && !(lo <= q < hi)
      ensures var u := VpnOf(q);
        && (OnLargePage(m', root, u) ==> OnLargePage(m0, root, u))
        && (View(m', root, u) == View(m0, root, u)
            || (OnLargePage(m0, root, u) && View(m', root, u) == Raised(View(m0, root, u))))
    {
      assert SteppedAt(m, m', root, p, n, ok, q);
    }
  }

  lemma SizeStep(m: Memory, m': Memory, root: nat, lo: nat, p: nat, n: nat, ok: bool, size: nat)
    requires Stepped(m, m', root, p, n, ok) && p < VIRTUAL_PAGES && n > 0
    requires if p == lo then ok && size == n else lo < p && Tidy(m, root, lo, p) && PageSize(m, root, lo, size)
    ensures PageSize(m', root, lo, size)
  {
    hide View, OnLargePage, OnGigPage, VpnOf;
    assert SteppedAt(m, m', root, p, n, ok, lo);
    if lo < p {
      EndsApart(m, root, lo, p);
    }
  }

  lemma TidyStart(m: Memory, root: nat, p: nat)
    ensures Tidy(m, root, p, p) && OutsideKept(m, m, root, p, p)
  {
    hide View, OnLargePage;
  }

  /** A 2 MB step that fails where a 4 KB step then succeeds found a page table in its place. */
  lemma FallbackHasPt(st: State, lv: Levels, root: nat, w: Vpn, frame: nat)
    requires Rooted(st, lv, root) && w.i1 == 0 && frame % 512 == 0
    requires var (s, ok) := MapPage2M(st, root, w, frame, KERNEL_RW);
      !ok && MapPage(s, root, w, frame, KERNEL_RW).1
    ensures Pt(st.mem, root, w).Some?
  {
    hide ReachPd, MapPage, SameTranslations, NoNewLarge, ViaPml4e, IsTree, LinksKept, Missing;
    PdTaken(st, lv, root, w, false);
    var (s, c) := ReachPd(st, root, w, false);
    if c.None? {
      PdFails(st, lv, root, w);
      var l1 := ReachPdGrows(st, lv, root, w, false);
      RootsKept(st, lv, s, l1, root, w);
      MapPageFailsIff(s, l1, root, w, frame, KERNEL_RW);
      MissingPd(s.mem, root, w);
      assert false;
    }
  }

  lemma MissingPd(m: Memory, root: nat, w: Vpn)
    requires Pd(m, root, w).None?
    ensures Missing(m, root, w) >= 2
  {
  }

  lemma PdFails(st: State, lv: Levels, root: nat, w: Vpn)
    requires Valid(st, lv) && IsRoot(st.mem, lv, root) && ReachPd(st, root, w, false).1.None?
    ensures var s := ReachPd(st, root, w, false).0; Pd(s.mem, root, w).None? && s.next >= PT_POOL_PAGES
  {
    hide ReachPdpt, NoNewLarge, SameTranslations, ViaPml4e, IsTree, LinksKept, Split1G;
    var l1 := ReachPdptGrows(st, lv, root, w, false);
    PdptTaken(st, lv, root, w, false);
    PdptFails(st, root, w);
    var (s, p) := ReachPdpt(st, root, w, false);
    if p.Some? {
      var l2 := EnsurePdGrows(s, l1, root, w, p.value);
    }
  }

  lemma PdptFails(st: State, root: nat, w: Vpn)
    ensures ReachPdpt(st, root, w, false).1.None? ==>
      ReachPdpt(st, root, w, false).0 == st && Pdpt(st.mem, root, w).None? && st.next >= PT_POOL_PAGES
  {
  }

  /** Mapping page p again with a 4 KB page raises the other pages of the large page it is on. */
  lemma RemapRaises(st: State, lv: Levels, root: nat, p: nat, q: nat, size: nat)
    requires Rooted(st, lv, root) && p < VIRTUAL_PAGES && q < VIRTUAL_PAGES && q != p
    requires MapPage(st, root, VpnOf(p), p, KERNEL_RW).1
    requires PageSize(st.mem, root, p, size) && (size == 1 || size == 512 || size == 262144)
    ensures View(MapPage(st, root, VpnOf(p), p, KERNEL_RW).0.mem, root, VpnOf(q)) ==
            if size > 1 && q / size == p / size then Raised(View(st.mem, root, VpnOf(q))) else View(st.mem, root, VpnOf(q))
  {
    hide VpnOf, MapPage, View, LeafAt, ViaPml4e, OnLargePage, OnGigPage, Missing;
    var w := VpnOf(p);
    var lv' := MapPageRefines(st, lv, root, w, p, KERNEL_RW);
    MapPageViews(st, lv, root, w, p, KERNEL_RW, root, VpnOf(q));
    MapPageFailsIff(st, lv, root, w, p, KERNEL_RW);
    BlockDigits(p, q);
    assert !SameSlot(MapPage(st, root, w, p, KERNEL_RW).0.mem, root, VpnOf(q), root, w);
    if size > 1 {
      LargeLacksPt(st.mem, root, w);
      GigHasLeaf(st.mem, root, w);
      SameLeafSameBlock(st.mem, lv, root, VpnOf(q), w);
    }
  }

  lemma LargeLacksPt(m: Memory, root: nat, w: Vpn)
    requires OnLargePage(m, root, w)
    ensures Missing(m, root, w) >= 1 && Pt(m, root, w).None?
  {
  }

  lemma PtIsSmall(m: Memory, root: nat, w: Vpn)
    requires Pt(m, root, w).Some?
    ensures !OnLargePage(m, root, w) && !OnGigPage(m, root, w)
  {
  }

  /** Pages of the same 2 MB share their PT. */
  lemma SamePt(m: Memory, root: nat, p: nat, q: nat)
    requires p < VIRTUAL_PAGES && q < VIRTUAL_PAGES && p / 512 == q / 512
    ensures Pt(m, root, VpnOf(p)) == Pt(m, root, VpnOf(q))
  {
    hide VpnOf;
    BlockDigits(p, q);
  }
}
