// The entry that maps a user page, over whole runs: what a process finds in its own ranges changes
// only by its own mapping calls. This is what makes the checks on a saved stack pointer a matter
// between the kernel and the process itself.

module StackWalks {
  import opened Numbers
  import opened Options
  import opened PageTables
  import opened PageEdits
  import opened Mapper
  import opened AddressSpaces
  import opened FrameOwners
  import opened UserStacks
  import B = BuddyTree

  /** The walk finds an entry exactly where there is a translation. */
  lemma WalkFinds(m: Memory, r: nat, u: Vpn)
    ensures WalkPte(m, r, u).Some? <==> Translate(m, r, u).Some?
    ensures Pt(m, r, u).Some? ==>
      var e := Get(m, Pt(m, r, u).value, u.i1);
      WalkPte(m, r, u) == if e.present then Some(e) else None
  {
  }

  // ----- mapping another page of the same process -----

  /** PTs are as they were. */
  ghost predicate PtsKept(m: Memory, m': Memory, lv: Levels)
    requires lv.Keys == m.Keys
  {
    forall t :: t in m && lv[t] == 1 ==> t in m' && m'[t] == m[t]
  }

  lemma MarkKeepsPts(st: State, lv: Levels, user: bool, p: nat, i: Index)
    requires WellFormed(st.mem, lv) && p in st.mem && lv[p] != 1
    ensures PtsKept(st.mem, MarkUserIf(st, user, p, i).mem, lv)
  {
  }

  lemma EnsureKeepsPts(st: State, lv: Levels, p: nat, i: Index)
    requires Valid(st, lv) && p in st.mem && lv[p] != 1
    ensures PtsKept(st.mem, EnsurePdpt(st, p, i).0.mem, lv)
    ensures PtsKept(st.mem, EnsurePd(st, p, i).0.mem, lv)
    ensures PtsKept(st.mem, EnsurePt(st, p, i).0.mem, lv)
  {
  }

  lemma PtsKeptTransitive(m0: Memory, l0: Levels, m1: Memory, l1: Levels, m2: Memory)
    requires l0.Keys == m0.Keys && l1.Keys == m1.Keys && forall t :: t in l0 ==> t in l1 && l1[t] == l0[t]
    requires PtsKept(m0, m1, l0) && PtsKept(m1, m2, l1)
    ensures PtsKept(m0, m2, l0)
  {
  }

  lemma ReachPdptKeepsPts(st: State, lv: Levels, root: nat, w: Vpn, user: bool)
    requires Valid(st, lv) && IsRoot(st.mem, lv, root)
    ensures PtsKept(st.mem, ReachPdpt(st, root, w, user).0.mem, lv)
  {
    hide EnsurePdpt, MarkUserIf, NoNewLarge, SameTranslations, ViaPml4e, IsTree;
    EnsureKeepsPts(st, lv, root, w.i4);
    var (s, c) := EnsurePdpt(st, root, w.i4);
    if c.Some? {
      var l1 := EnsurePdptGrows(st, lv, root, w);
      MarkKeepsPts(s, l1, user, root, w.i4);
      PtsKeptTransitive(st.mem, lv, s.mem, l1, MarkUserIf(s, user, root, w.i4).mem);
    }
  }

  lemma ReachPdKeepsPts(st: State, lv: Levels, root: nat, w: Vpn, user: bool)
    requires Valid(st, lv) && IsRoot(st.mem, lv, root)
    ensures PtsKept(st.mem, ReachPd(st, root, w, user).0.mem, lv)
  {
    hide ReachPdpt, EnsurePd, MarkUserIf, NoNewLarge, SameTranslations, ViaPml4e, IsTree, LinksKept;
    ReachPdptKeepsPts(st, lv, root, w, user);
    var (s, p) := ReachPdpt(st, root, w, user);
    if p.Some? {
      var l1 := ReachPdptGrows(st, lv, root, w, user);
      WalkLevels(s.mem, l1, root, w);
      EnsureKeepsPts(s, l1, p.value, w.i3);
      var (s', c) := EnsurePd(s, p.value, w.i3);
      PtsKeptTransitive(st.mem, lv, s.mem, l1, s'.mem);
      if c.Some? {
        var l2 := EnsurePdGrows(s, l1, root, w, p.value);
        WalkLevels(s'.mem, l2, root, w);
        MarkKeepsPts(s', l2, user, p.value, w.i3);
        PtsKeptTransitive(st.mem, lv, s'.mem, l2, MarkUserIf(s', user, p.value, w.i3).mem);
      }
    }
  }

  lemma ReachPtKeepsPts(st: State, lv: Levels, root: nat, w: Vpn, user: bool)
    requires Valid(st, lv) && IsRoot(st.mem, lv, root)
    ensures PtsKept(st.mem, ReachPt(st, root, w, user).0.mem, lv)
  {
    hide ReachPd, EnsurePt, MarkUserIf, NoNewLarge, SameTranslations, ViaPml4e, IsTree, LinksKept;
    ReachPdKeepsPts(st, lv, root, w, user);
    var (s, p) := ReachPd(st, root, w, user);
    if p.Some? {
      var l1 := ReachPdGrows(st, lv, root, w, user);
      WalkLevels(s.mem, l1, root, w);
      EnsureKeepsPts(s, l1, p.value, w.i2);
      var (s', c) := EnsurePt(s, p.value, w.i2);
      PtsKeptTransitive(st.mem, lv, s.mem, l1, s'.mem);
      if c.Some? {
        var l2 := EnsurePtGrows(s, l1, root, w, Pdpt(s.mem, root, w).value, p.value);
        WalkLevels(s'.mem, l2, root, w);
        MarkKeepsPts(s', l2, user, p.value, w.i2);
        PtsKeptTransitive(st.mem, lv, s'.mem, l2, MarkUserIf(s', user, p.value, w.i2).mem);
      }
    }
  }

  /** Mapping page w of a tree leaves the entry of every other page that has a PT. */
  lemma MapKeepsPte(st: State, lv: Levels, root: nat, w: Vpn, frame: nat, fl: Flags, u: Vpn)
    requires Valid(st, lv) && IsRoot(st.mem, lv, root) && IsTree(st.mem, root)
    requires u != w && Pt(st.mem, root, u).Some?
    ensures var m' := MapPage(st, root, w, frame, fl).0.mem;
      Pt(m', root, u) == Pt(st.mem, root, u) && WalkPte(m', root, u) == WalkPte(st.mem, root, u)
  {
    hide ReachPt, ViaPml4e, NoNewLarge, SameTranslations, WalkPte;
    var (st', ok) := MapPage(st, root, w, frame, fl);
    var lv' := MapPageRefines(st, lv, root, w, frame, fl);
    WalkStays(st.mem, st'.mem, lv, root, u);
    WalkLevels(st.mem, lv, root, u);
    ReachPtKeepsPts(st, lv, root, w, fl.user);
    assert IsTree(st'.mem, root);
    if ok {
      var s, pt := ReachPt(st, root, w, fl.user).0, Pt(st.mem, root, u).value;
      PtOfMapped(st, lv, root, w, frame, fl);
      assert s.mem[pt] == st.mem[pt];
      assert Get(st'.mem, pt, u.i1) == Get(st.mem, pt, u.i1);
    }
    WalkFinds(st.mem, root, u);
    WalkFinds(st'.mem, root, u);
  }

  lemma PtOfMapped(st: State, lv: Levels, root: nat, w: Vpn, frame: nat, fl: Flags)
    requires Valid(st, lv) && IsRoot(st.mem, lv, root) && MapPage(st, root, w, frame, fl).1
    ensures Pt(MapPage(st, root, w, frame, fl).0.mem, root, w) == ReachPt(st, root, w, fl.user).1
  {
    hide ReachPt, ViaPml4e, NoNewLarge, SameTranslations, IsTree, LinksKept;
    var lv' := ReachPtGrows(st, lv, root, w, fl.user);
    var (s, c) := ReachPt(st, root, w, fl.user);
    RootsKept(st, lv, s, lv', root, w);
    WalkLevels(s.mem, lv', root, w);
    PatchPteWalk(s.mem, lv', c.value, w.i1, LeafEntry(frame, fl, false), root, w);
  }

  // ----- what everybody else does -----

  /** The act is not a mapping call of process r. */
  predicate NotBy(a: Act, r: nat) {
    match a
    case MapFrame(s, _, _, _, _) => s != r
    case MapStack(s, _, _) => s != r
    case Unmap(s, _) => s != r
    case _ => true
  }

  lemma MapApartKeepsPte(sys: Sys, lv: Levels, s: nat, w: Vpn, f: nat, fl: Flags, r: nat, u: Vpn)
    requires Shaped(sys, lv) && Isolated(sys) && IsUser(sys, r, u) && Live(sys, s) && s != r
    ensures WalkPte(MapPage(sys.st, s, w, f, fl).0.mem, r, u) == WalkPte(sys.st.mem, r, u)
  {
    hide MapPage, IsTree, WalkPte, LowGigIsLeaf;
    assert Live(sys, r);
    var lv' := MapPageRefines(sys.st, lv, s, w, f, fl);
    assert Apart(sys.st.mem, r, u, s, w);
    ApartUnaffected(sys.st, lv, MapPage(sys.st, s, w, f, fl).0, lv', s, w, r, u);
  }

  lemma UnmapApartKeepsPte(sys: Sys, lv: Levels, s: nat, w: Vpn, r: nat, u: Vpn)
    requires Shaped(sys, lv) && Isolated(sys) && SmallPages(sys) && IsUser(sys, r, u) && IsUser(sys, s, w) && s != r
    ensures WalkPte(UnmapPage(sys.st, s, w).mem, r, u) == WalkPte(sys.st.mem, r, u)
  {
    hide UnmapPage, IsTree, WalkPte, LowGigIsLeaf;
    assert Live(sys, r) && Live(sys, s);
    UnmapPageRefines(sys.st, lv, s, w);
    assert Apart(sys.st.mem, r, u, s, w);
    ApartUnaffected(sys.st, lv, UnmapPage(sys.st, s, w), lv, s, w, r, u);
  }

  lemma CreateKeepsPte(sys: Sys, lv: Levels, r: nat, u: Vpn)
    requires Shaped(sys, lv) && Live(sys, r)
    ensures WalkPte(CreateProcess(sys.st, sys.kernel).0.mem, r, u) == WalkPte(sys.st.mem, r, u)
  {
    hide CreateProcess, IsTree, WalkPte, LowGigIsLeaf;
    assert Live(sys, sys.kernel);
    var (st', c) := CreateProcess(sys.st, sys.kernel);
    if c.Some? {
      CreateProcessCopies(sys.st, lv, sys.kernel, st', c.value);
    } else {
      var lv' := CreateFailureHarmless(sys.st, lv, sys.kernel);
    }
    OldWalksKept(sys.st.mem, lv, st'.mem, r, u);
  }

  lemma InvParts(sys: Sys, lv: Levels)
    requires Inv(sys, lv)
    ensures Shaped(sys, lv) && Isolated(sys) && SmallPages(sys) && Live(sys, sys.kernel) && sys.kernel !in sys.procs
  {
  }

  /** No act of anybody else, the kernel included, changes the entry of a user page of r. */
  lemma DoKeepsPte(x: Machine, lv: Levels, a: Act, r: nat, u: Vpn)
    requires MachineInv(x, lv) && May(x, a) && IsUser(x.sys, r, u) && NotBy(a, r)
    ensures IsUser(Do(x, a).sys, r, u) && WalkPte(Do(x, a).sys.st.mem, r, u) == WalkPte(x.sys.st.mem, r, u)
  {
    hide Inv, Shaped, Isolated, SmallPages, Owned, B.Enabled, B.Apply, MapPage, UnmapPage, CreateProcess, WalkPte;
    InvParts(x.sys, lv);
    match a {
      case NewProcess =>
        CreateKeepsPte(x.sys, lv, r, u);
        NewRootIsNew(x.sys, lv, r);
      case MapFrame(s, w, m, j, fl) => MapApartKeepsPte(x.sys, lv, s, w, x.region + B.AllocIndex(m, j, 0), fl, r, u);
      case MapStack(s, w, fl) =>
        DrawKeepsInv(x.sys, lv);
        InvParts(Draw(x.sys), lv);
        MapApartKeepsPte(Draw(x.sys), lv, s, w, x.sys.st.base + x.sys.st.next, fl, r, u);
      case Unmap(s, w) => UnmapApartKeepsPte(x.sys, lv, s, w, r, u);
      case MapForKernel(w, f, fl) => MapApartKeepsPte(x.sys, lv, x.sys.kernel, w, f, fl, r, u);
      case Take(k, m, j) =>
      case GiveBack(b) =>
    }
  }

  lemma NewRootIsNew(sys: Sys, lv: Levels, r: nat)
    requires Shaped(sys, lv) && r in sys.procs
    ensures CreateProcess(sys.st, sys.kernel).1 != Some(r)
  {
    hide CreateProcess, IsTree, LowGigIsLeaf;
    assert Live(sys, r) && Live(sys, sys.kernel);
    var (st', c) := CreateProcess(sys.st, sys.kernel);
    if c.Some? {
      CreateProcessCopies(sys.st, lv, sys.kernel, st', c.value);
    }
  }

  /** Over every run of acts of others, the entry of a user page stays as it is. */
  lemma {:induction false} RunKeepsPte(x: Machine, lv: Levels, acts: seq<Act>, r: nat, u: Vpn)
    requires MachineInv(x, lv) && AllMay(x, acts) && IsUser(x.sys, r, u)
    requires forall n :: 0 <= n < |acts| ==> NotBy(acts[n], r)
    ensures WalkPte(RunActs(x, acts).sys.st.mem, r, u) == WalkPte(x.sys.st.mem, r, u)
    decreases |acts|
  {
    hide MachineInv, May, Do, IsUser, WalkPte;
    if acts != [] {
      DoKeepsPte(x, lv, acts[0], r, u);
      var l1 := DoKeeps(x, lv, acts[0]);
      RunKeepsPte(Do(x, acts[0]), l1, acts[1..], r, u);
    }
  }

  // ----- a new stack -----

  /** User memory that can be written. */
  predicate UserWritable(e: Option<Entry>) {
    e.Some? && e.value.user && e.value.writable
  }

  /** Building further stack pages keeps the entry of a page that has one. */
  lemma {:induction false} StackRunKeepsPte(x: Machine, lv: Levels, r: nat, page: nat, n: nat, fl: Flags, u: Vpn)
    requires MachineInv(x, lv) && r in x.sys.procs && n <= page + 1
    requires 255 * 0x800_0000 + n <= page + 1 && page < 256 * 0x800_0000
    requires PageOf(u) > page && Pt(x.sys.st.mem, r, u).Some?
    ensures WalkPte(StackRun(x, r, page, n, fl).0.sys.st.mem, r, u) == WalkPte(x.sys.st.mem, r, u)
    decreases n
  {
    hide MachineInv, VpnOf, PageOf, MapPage, WalkPte;
    if n > 0 {
      StackPage(page);
      PageRoundTrip(page);
      var lv' := MapStackKeeps(x, lv, r, VpnOf(page), fl);
      var (x', ok) := MapPoolPage(x, r, VpnOf(page), fl);
      PoolPageKeepsPte(x, lv, r, VpnOf(page), fl, u);
      if ok && n > 1 {
        StackRunKeepsPte(x', lv', r, page - 1, n - 1, fl, u);
      }
    }
  }

  lemma PoolPageKeepsPte(x: Machine, lv: Levels, r: nat, w: Vpn, fl: Flags, u: Vpn)
    requires MachineInv(x, lv) && r in x.sys.procs && u != w && Pt(x.sys.st.mem, r, u).Some?
    ensures var x' := MapPoolPage(x, r, w, fl).0;
      && Pt(x'.sys.st.mem, r, u) == Pt(x.sys.st.mem, r, u)
      && WalkPte(x'.sys.st.mem, r, u) == WalkPte(x.sys.st.mem, r, u)
  {
    hide Inv, MapPage, WalkPte, Owned;
    if HasSpace(x.sys.st) {
      DrawKeepsInv(x.sys, lv);
      ProcIsTree(Draw(x.sys), lv, r);
      MapKeepsPte(Draw(x.sys).st, lv, r, w, x.sys.st.base + x.sys.st.next, fl, u);
    }
  }

  lemma ProcIsTree(sys: Sys, lv: Levels, r: nat)
    requires Inv(sys, lv) && r in sys.procs
    ensures Valid(sys.st, lv) && IsRoot(sys.st.mem, lv, r) && IsTree(sys.st.mem, r)
  {
    assert Live(sys, r);
  }

  lemma PoolPageWalks(x: Machine, lv: Levels, r: nat, w: Vpn, fl: Flags)
    requires MachineInv(x, lv) && r in x.sys.procs && fl.present && fl.user && fl.writable && MapPoolPage(x, r, w, fl).1
    ensures var m := MapPoolPage(x, r, w, fl).0.sys.st.mem;
      Pt(m, r, w).Some? && UserWritable(WalkPte(m, r, w))
  {
    hide Inv, MapPage, WalkPte, Owned;
    DrawKeepsInv(x.sys, lv);
    ProcIsTree(Draw(x.sys), lv, r);
    MapPageUserWalk(Draw(x.sys).st, lv, r, w, x.sys.st.base + x.sys.st.next, fl);
    WalkFinds(MapPoolPage(x, r, w, fl).0.sys.st.mem, r, w);
  }

  /** Once a stack is set up, every page of it is writable user memory. */
  lemma {:induction false} StackRunWalks(x: Machine, lv: Levels, r: nat, page: nat, n: nat, fl: Flags, p: nat)
    requires MachineInv(x, lv) && r in x.sys.procs && n <= page + 1 && fl.present && fl.user && fl.writable
    requires 255 * 0x800_0000 + n <= page + 1 && page < 256 * 0x800_0000
    requires StackRun(x, r, page, n, fl).1 && page - n < p <= page
    ensures UserWritable(WalkPte(StackRun(x, r, page, n, fl).0.sys.st.mem, r, VpnOf(p)))
    decreases n
  {
    hide MachineInv, VpnOf, PageOf, MapPage, WalkPte;
    StackPage(page);
    PageRoundTrip(page);
    var lv' := MapStackKeeps(x, lv, r, VpnOf(page), fl);
    var x' := MapPoolPage(x, r, VpnOf(page), fl).0;
    PoolPageWalks(x, lv, r, VpnOf(page), fl);
    if p < page {
      StackRunWalks(x', lv', r, page - 1, n - 1, fl, p);
    } else if n > 1 {
      StackRunKeepsPte(x', lv', r, page - 1, n - 1, fl, VpnOf(page));
    }
  }

  /** The word below the stack pointer a process is created with is writable user memory once the
      stack is set up, and stays so whatever others do before the process runs: the entry check
      made on it succeeds. Pids are those whose stack window is private. */
  lemma NewStackReady(x: Machine, lv: Levels, r: nat, pid: nat, fl: Flags, acts: seq<Act>)
    requires MachineInv(x, lv) && r in x.sys.procs && fl.present && fl.user && fl.writable && 1 <= pid <= 14913081
    requires var (x', ok) := StackRun(x, r, StackTop(pid), STACK_PAGES, fl);
      ok && AllMay(x', acts) && forall n :: 0 <= n < |acts| ==> NotBy(acts[n], r)
    ensures var x' := StackRun(x, r, StackTop(pid), STACK_PAGES, fl).0;
      UserWritable(WalkPte(RunActs(x', acts).sys.st.mem, r, VpnOf(Sub(StackTop(pid) * 4096, 8) / 4096)))
  {
    hide MachineInv, VpnOf, WalkPte, NotBy, StackRun, RunActs, AllMay, UserWritable, StackTop;
    var top := StackTop(pid);
    WindowIsPrivate(pid);
    var x' := StackRun(x, r, top, STACK_PAGES, fl).0;
    var lv' := StackRunKeeps(x, lv, r, top, STACK_PAGES, fl);
    StackRunWalks(x, lv, r, top, STACK_PAGES, fl, top - 1);
    StackPage(top - 1);
    StackRunProcs(x, r, top, STACK_PAGES, fl);
    RunKeepsPte(x', lv', acts, r, VpnOf(top - 1));
  }

  lemma WindowIsPrivate(pid: nat)
    requires 1 <= pid <= 14913081
    ensures 255 * 0x800_0000 + STACK_PAGES <= StackTop(pid) + 1 && StackTop(pid) < 256 * 0x800_0000
    ensures Sub(StackTop(pid) * 4096, 8) / 4096 == StackTop(pid) - 1
  {
  }

  lemma {:induction false} StackRunProcs(x: Machine, r: nat, page: nat, n: nat, fl: Flags)
    requires n <= page + 1
    ensures StackRun(x, r, page, n, fl).0.sys.procs == x.sys.procs
    decreases n
  {
    hide VpnOf, MapPage;
    if n > 0 {
      var (x', ok) := MapPoolPage(x, r, VpnOf(page), fl);
      if ok && n > 1 {
        StackRunProcs(x', r, page - 1, n - 1, fl);
      }
    }
  }
}
