// Who owns which frame, over whole runs: user pages get their frames from the buddy allocator
// (loading, mmap) or straight from the page-table pool (stacks), and no frame ever backs two
// user pages, a user page and a page table, or a user page while it could still be handed out.

module FrameOwners {
  import opened Numbers
  import opened Options
  import opened PageTables
  import opened Mapper
  import opened AddressSpaces
  import opened MemMap
  import opened UserStacks
  import B = BuddyTree
  import P = PageMapping

  /** The address spaces, the buddy allocator's books over the frames from `region` on, and the
      pages of the region that were handed out for user pages. */
  datatype Machine = Machine(sys: Sys, books: B.Books, region: nat, users: set<nat>)

  datatype Act =
    | NewProcess
    | MapFrame(root: nat, page: Vpn, m: nat, j: nat, fl: Flags)
    | MapStack(root: nat, page: Vpn, fl: Flags)
    | Unmap(root: nat, page: Vpn)
    | MapForKernel(page: Vpn, frame: nat, fl: Flags)
    | Take(k: nat, m: nat, j: nat)
    | GiveBack(b: B.Block)

  /** Callers map and unmap inside a process's own ranges; the allocator splits the lowest free
      order; and the kernel gives back only blocks it took for itself. */
  predicate May(x: Machine, a: Act) {
    match a
    case MapFrame(r, u, m, j, fl) => IsUser(x.sys, r, u) && B.Enabled(x.books, B.Alloc(0, m, j))
    case MapStack(r, u, fl) => IsUser(x.sys, r, u)
    case Unmap(r, u) => IsUser(x.sys, r, u)
    case Take(k, m, j) => B.Enabled(x.books, B.Alloc(k, m, j))
    case GiveBack(b) => b in x.books.live && (b.order == 0 ==> b.index !in x.users)
    case _ => true
  }

  /** Draw one page from the page-table pool. */
  function Draw(sys: Sys): Sys {
    sys.(st := sys.st.(next := sys.st.next + 1))
  }

  /** Map user page u of root r to the frame the allocator gives when it splits block (m, j). */
  function MapBuddyPage(x: Machine, r: nat, u: Vpn, m: nat, j: nat, fl: Flags): (res: (Machine, bool))
    requires B.Enabled(x.books, B.Alloc(0, m, j))
  {
    var p := B.AllocIndex(m, j, 0);
    (x.(sys := Step(x.sys, MapUser(r, u, x.region + p, fl)), books := B.Apply(x.books, B.Alloc(0, m, j)),
        users := x.users + {p}),
     MapPage(x.sys.st, r, u, x.region + p, fl).1)
  }

  /** Map user page u of root r to a page drawn from the page-table pool. */
  function MapPoolPage(x: Machine, r: nat, u: Vpn, fl: Flags): (res: (Machine, bool)) {
    if !HasSpace(x.sys.st) then (x, false)
    else
      var drawn, f := Draw(x.sys), x.sys.st.base + x.sys.st.next;
      (x.(sys := Step(drawn, MapUser(r, u, f, fl))), MapPage(drawn.st, r, u, f, fl).1)
  }

  function Do(x: Machine, a: Act): (r: Machine)
    requires May(x, a)
  {
    match a
    case NewProcess => x.(sys := Step(x.sys, Create))
    case MapFrame(r, u, m, j, fl) => MapBuddyPage(x, r, u, m, j, fl).0
    case MapStack(r, u, fl) => MapPoolPage(x, r, u, fl).0
    case Unmap(r, u) => x.(sys := Step(x.sys, UnmapUser(r, u)))
    case MapForKernel(u, f, fl) => x.(sys := Step(x.sys, MapKernel(u, f, fl)))
    case Take(k, m, j) => x.(books := B.Apply(x.books, B.Alloc(k, m, j)))
    case GiveBack(b) => x.(books := B.Apply(x.books, B.Free(b)))
  }

  /** Frame f serves a user page: it was handed out by the allocator and is still held, or it was
      drawn from the pool and is no table. */
  predicate ServesUser(x: Machine, f: nat) {
    || (x.region <= f && f - x.region in x.users)
    || (x.sys.st.base <= f < x.sys.st.base + x.sys.st.next && f !in x.sys.st.mem)
  }

  ghost predicate Owned(x: Machine) {
    && PoolTables(x.sys.st) && x.sys.st.base + PT_POOL_PAGES <= x.region
    && B.Balanced(x.books)
    && (forall p :: p in x.users ==> B.Block(0, p) in x.books.live)
    && (forall f :: f in x.sys.handed ==> ServesUser(x, f))
  }

  ghost predicate MachineInv(x: Machine, lv: Levels) {
    Inv(x.sys, lv) && Owned(x)
  }

  // ----- the allocator's part -----

  lemma FreshPage(books: B.Books, m: nat, j: nat)
    requires B.Balanced(books) && B.Enabled(books, B.Alloc(0, m, j))
    ensures var p := B.AllocIndex(m, j, 0);
      && B.Block(0, p) !in books.live
      && B.Balanced(B.Apply(books, B.Alloc(0, m, j)))
      && B.Apply(books, B.Alloc(0, m, j)).live == books.live + {B.Block(0, p)}
  {
    B.AllocBalanced(books, 0, m, j);
  }

  // ----- the pool's part -----

  /** From sys to sys' the pool moved on, tables came from its unused part, and the frames in
      user use are those of sys and possibly `more`. */
  ghost predicate PoolStep(sys: Sys, sys': Sys, more: set<nat>) {
    && PoolTables(sys'.st) && sys'.st.base == sys.st.base && sys'.st.next >= sys.st.next
    && (forall t :: t in sys'.st.mem ==> t in sys.st.mem || sys.st.base + sys.st.next <= t)
    && sys'.handed == sys.handed + more
  }

  lemma PoolStepOwned(x: Machine, x': Machine, more: set<nat>)
    requires Owned(x) && PoolStep(x.sys, x'.sys, more) && x'.region == x.region && x.users <= x'.users
    requires B.Balanced(x'.books) && forall p :: p in x'.users ==> B.Block(0, p) in x'.books.live
    requires forall f :: f in more ==> ServesUser(x', f)
    ensures Owned(x')
  {
    hide B.Balanced;
    forall f | f in x'.sys.handed ensures ServesUser(x', f) {
      if f in x.sys.handed {
        assert ServesUser(x, f);
      }
    }
  }

  lemma MapPool(sys: Sys, lv: Levels, r: nat, w: Vpn, f: nat, fl: Flags)
    requires Shaped(sys, lv) && PoolTables(sys.st) && Live(sys, r)
    ensures PoolStep(sys, sys.(st := MapPage(sys.st, r, w, f, fl).0, handed := sys.handed + {f}), {f})
    ensures PoolStep(sys, sys.(st := MapPage(sys.st, r, w, f, fl).0), {})
  {
    hide MapPage, IsTree;
    var lv' := MapPageRefines(sys.st, lv, r, w, f, fl);
    ConfinedPool(sys.st, lv, MapPage(sys.st, r, w, f, fl).0, lv', r, w);
  }

  lemma UnmapPool(sys: Sys, lv: Levels, r: nat, w: Vpn)
    requires Shaped(sys, lv) && SmallPages(sys) && PoolTables(sys.st) && IsUser(sys, r, w)
    ensures PoolStep(sys, Step(sys, UnmapUser(r, w)), {})
  {
    hide UnmapPage, IsTree;
    assert Live(sys, r);
    UnmapPageRefines(sys.st, lv, r, w);
    ConfinedPool(sys.st, lv, UnmapPage(sys.st, r, w), lv, r, w);
  }

  lemma CreatePool(sys: Sys, lv: Levels)
    requires Shaped(sys, lv) && PoolTables(sys.st)
    ensures PoolStep(sys, Step(sys, Create), {})
  {
    hide CreateProcess, IsTree, LowGigIsLeaf;
    assert Live(sys, sys.kernel);
    var (st', c) := CreateProcess(sys.st, sys.kernel);
    if c.Some? {
      CreateProcessCopies(sys.st, lv, sys.kernel, st', c.value);
      NewTables(sys.st.mem, st'.mem, sys.kernel, c.value);
    } else {
      CreateFailureMemory(sys.st, lv, sys.kernel);
    }
  }

  lemma NewTables(m: Memory, m': Memory, k: nat, r: nat)
    requires PrivateCopy(m, m', k, r, r + 1, r + 2)
    ensures forall t :: t in m' ==> t in m || r <= t
  {
  }

  lemma DrawKeepsInv(sys: Sys, lv: Levels)
    requires Inv(sys, lv)
    ensures Inv(Draw(sys), lv)
  {
    LitterKeepsInv(sys, lv, Draw(sys), lv);
  }

  // ----- every act keeps everything -----

  lemma MapFrameKeeps(x: Machine, lv: Levels, r: nat, u: Vpn, m: nat, j: nat, fl: Flags) returns (lv': Levels)
    requires MachineInv(x, lv) && May(x, MapFrame(r, u, m, j, fl))
    ensures var x' := Do(x, MapFrame(r, u, m, j, fl));
      && MachineInv(x', lv') && x'.sys.procs == x.sys.procs && x'.sys.kernel == x.sys.kernel
      && x.region + B.AllocIndex(m, j, 0) !in x.sys.handed
      && x'.sys.handed == x.sys.handed + {x.region + B.AllocIndex(m, j, 0)}
  {
    hide Inv, Shaped, B.Balanced, B.Enabled, B.Apply, MapPage;
    InvShaped(x.sys, lv);
    var x' := Do(x, MapFrame(r, u, m, j, fl));
    var p := B.AllocIndex(m, j, 0);
    var f := x.region + p;
    FreshPage(x.books, m, j);
    NotHanded(x, p);
    lv' := StepKeepsInv(x.sys, lv, MapUser(r, u, f, fl));
    MapPool(x.sys, lv, r, u, f, fl);
    PoolStepOwned(x, x', {f});
  }

  lemma InvShaped(sys: Sys, lv: Levels)
    requires Inv(sys, lv)
    ensures Shaped(sys, lv) && SmallPages(sys) && Live(sys, sys.kernel)
  {
  }

  /** A page the allocator does not hold out serves no user page. */
  lemma NotHanded(x: Machine, p: nat)
    requires Owned(x) && B.Block(0, p) !in x.books.live
    ensures x.region + p !in x.sys.handed
  {
    hide B.Balanced;
    var f: nat := x.region + p;
    assert f in x.sys.handed ==> ServesUser(x, f);
  }

  lemma MapStackKeeps(x: Machine, lv: Levels, r: nat, u: Vpn, fl: Flags) returns (lv': Levels)
    requires MachineInv(x, lv) && May(x, MapStack(r, u, fl))
    ensures MachineInv(Do(x, MapStack(r, u, fl)), lv')
  {
    hide Inv, Shaped, B.Balanced, MapPage;
    lv' := lv;
    if HasSpace(x.sys.st) {
      var f: nat, drawn := x.sys.st.base + x.sys.st.next, Draw(x.sys);
      DrawKeepsInv(x.sys, lv);
      InvShaped(drawn, lv);
      assert f in x.sys.handed ==> ServesUser(x, f);
      lv' := StepKeepsInv(drawn, lv, MapUser(r, u, f, fl));
      MapPool(drawn, lv, r, u, f, fl);
      var x' := Do(x, MapStack(r, u, fl));
      assert f !in x'.sys.st.mem;
      PoolStepOwned(x, x', {f});
    }
  }

  lemma DoKeeps(x: Machine, lv: Levels, a: Act) returns (lv': Levels)
    requires MachineInv(x, lv) && May(x, a)
    ensures MachineInv(Do(x, a), lv')
  {
    hide Inv, Shaped, B.Balanced, B.Enabled, B.Apply, MapPage, UnmapPage, CreateProcess;
    InvShaped(x.sys, lv);
    var x' := Do(x, a);
    match a {
      case NewProcess =>
        lv' := StepKeepsInv(x.sys, lv, Create);
        CreatePool(x.sys, lv);
        PoolStepOwned(x, x', {});
      case MapFrame(r, u, m, j, fl) => lv' := MapFrameKeeps(x, lv, r, u, m, j, fl);
      case MapStack(r, u, fl) => lv' := MapStackKeeps(x, lv, r, u, fl);
      case Unmap(r, u) =>
        lv' := StepKeepsInv(x.sys, lv, UnmapUser(r, u));
        UnmapPool(x.sys, lv, r, u);
        PoolStepOwned(x, x', {});
      case MapForKernel(u, f, fl) =>
        lv' := StepKeepsInv(x.sys, lv, MapKernel(u, f, fl));
        MapPool(x.sys, lv, x.sys.kernel, u, f, fl);
        PoolStepOwned(x, x', {});
      case Take(k, m, j) =>
        lv' := lv;
        TakeKeeps(x, k, m, j);
      case GiveBack(b) =>
        lv' := lv;
        GiveBackKeeps(x, b);
    }
  }

  lemma TakeKeeps(x: Machine, k: nat, m: nat, j: nat)
    requires Owned(x) && May(x, Take(k, m, j))
    ensures Owned(Do(x, Take(k, m, j)))
  {
    hide B.Balanced;
    B.AllocBalanced(x.books, k, m, j);
    PoolStepOwned(x, Do(x, Take(k, m, j)), {});
  }

  lemma GiveBackKeeps(x: Machine, b: B.Block)
    requires Owned(x) && May(x, GiveBack(b))
    ensures Owned(Do(x, GiveBack(b)))
  {
    hide B.Balanced;
    B.FreeBalanced(x.books, b);
    PoolStepOwned(x, Do(x, GiveBack(b)), {});
  }

  // ----- whole runs -----

  ghost predicate AllMay(x: Machine, acts: seq<Act>)
    decreases |acts|
  {
    acts == [] || (May(x, acts[0]) && AllMay(Do(x, acts[0]), acts[1..]))
  }

  ghost function RunActs(x: Machine, acts: seq<Act>): (r: Machine)
    requires AllMay(x, acts)
    decreases |acts|
  {
    if acts == [] then x else RunActs(Do(x, acts[0]), acts[1..])
  }

  /** In every state of every run of process creation, loading, stack set-up, mmap, munmap,
      kernel mappings and kernel allocations, all invariants hold. */
  lemma {:induction false} RunKeepsOwners(x: Machine, lv: Levels, acts: seq<Act>) returns (lv': Levels)
    requires MachineInv(x, lv) && AllMay(x, acts)
    ensures MachineInv(RunActs(x, acts), lv')
    decreases |acts|
  {
    hide MachineInv, May, Do;
    lv' := lv;
    if acts != [] {
      var l1 := DoKeeps(x, lv, acts[0]);
      lv' := RunKeepsOwners(Do(x, acts[0]), l1, acts[1..]);
    }
  }

  /** What they mean for a mapped user page: its frame is no page table and will not become one,
      the allocator does not have it to give, and no other user page has it. */
  lemma UserFrameIsItsOwn(x: Machine, lv: Levels, r: nat, u: Vpn, s: nat, v: Vpn)
    requires MachineInv(x, lv) && IsUser(x.sys, r, u) && Translate(x.sys.st.mem, r, u).Some?
    requires IsUser(x.sys, s, v) && (r != s || u != v)
    ensures var f := Translate(x.sys.st.mem, r, u).value;
      && f !in x.sys.st.mem && !(x.sys.st.base + x.sys.st.next <= f < x.sys.st.base + PT_POOL_PAGES)
      && (x.region <= f ==> !B.Covered(x.books.s.free, f - x.region))
      && Translate(x.sys.st.mem, s, v) != Some(f)
  {
    hide Shaped, Isolated, SmallPages;
    var f := Translate(x.sys.st.mem, r, u).value;
    assert f in x.sys.handed && ServesUser(x, f);
    if x.region <= f {
      HeldIsNotFree(x.books, f - x.region);
    }
  }

  lemma HeldIsNotFree(books: B.Books, p: nat)
    requires B.Balanced(books) && B.Block(0, p) in books.live
    ensures !B.Covered(books.s.free, p)
  {
    assert B.Covers(B.Block(0, p), p);
    assert B.Covered(books.live, p);
  }

  // ----- the pool and the region -----

  /** With the BootInfo reservations the region lies above a pool in the low 16 MB, so the two
      share no frame. */
  lemma PoolBelowRegion(d: Descriptor, base: nat, fbBase: nat, fbSize: nat, mapAt: nat, mapSize: nat, nvme: nat, rsdp: nat)
    requires Usable(d, ReservedFromBootInfo(fbBase, fbSize, mapAt, mapSize, nvme, rsdp))
    requires (base + PT_POOL_PAGES) * 4096 <= 0x100_0000
    ensures base + PT_POOL_PAGES <= d.start / 4096
  {
    FramesAboveKernel(d, fbBase, fbSize, mapAt, mapSize, nvme, rsdp);
  }

  const FIXED_REGION: nat := 0x200
  const FIXED_PAGES: nat := 2048

  predicate InPool(base: nat, f: nat) {
    base <= f < base + PT_POOL_PAGES
  }

  predicate InFixedRegion(f: nat) {
    FIXED_REGION <= f < FIXED_REGION + FIXED_PAGES
  }

  /** The fixed region used without BootInfo shares frames with every pool that lies in the
      identity-mapped kernel image. */
  lemma FixedRegionHitsPool(base: nat)
    requires P.IMAGE_START <= base && base + PT_POOL_PAGES <= P.IMAGE_END
    ensures exists f :: InPool(base, f) && InFixedRegion(f)
  {
    var f := base + PT_POOL_PAGES - 1;
    assert InPool(base, f) && InFixedRegion(f);
  }

  /** After paging and the allocator are initialised, nothing is handed out and all is sound. */
  lemma StartIsSound(sys: Sys, lv: Levels, top: nat, region: nat)
    requires Inv(sys, lv) && PoolTables(sys.st) && sys.handed == {} && sys.st.base + PT_POOL_PAGES <= region
    ensures MachineInv(Machine(sys, B.Initial(top), region, {}), lv)
  {
    hide Inv;
    B.InitialBalanced(top);
  }

  // ----- stacks -----

  /** Map n pages downwards from `page`; false when the pool runs dry. */
  function StackRun(x: Machine, r: nat, page: nat, n: nat, fl: Flags): (res: (Machine, bool))
    requires n <= page + 1
    decreases n
  {
    if n == 0 then (x, true)
    else
      var (x', ok) := MapPoolPage(x, r, VpnOf(page), fl);
      if ok && n > 1 then StackRun(x', r, page - 1, n - 1, fl) else (x', ok)
  }

  lemma StackPage(p: nat)
    requires p < VIRTUAL_PAGES
    ensures StackRange(VpnOf(p)) <==> 255 * 0x800_0000 <= p < 256 * 0x800_0000
  {
    var x := p / 512;
    var y := x / 512;
    assert 512 * x <= p < 512 * x + 512;
    assert 512 * y <= x < 512 * y + 512;
    assert VpnOf(p).i4 == y / 512 % 512;
  }

  /** The stack window of a process lies in PML4 entry 255, which each process has to itself, if
      and only if its pid is at most 14913081. */
  lemma StackIsPrivateIff(pid: nat)
    requires 1 <= pid <= 0xFFFF_FFFF
    ensures (forall p: nat :: StackTop(pid) - STACK_PAGES < p <= StackTop(pid) ==> StackRange(VpnOf(p)))
            <==> pid <= 14913081
  {
    hide StackRange, VpnOf;
    var top := StackTop(pid);
    if pid <= 14913081 {
      forall p: nat | top - STACK_PAGES < p <= top ensures StackRange(VpnOf(p)) {
        StackPage(p);
      }
    } else {
      var p := Sub(top, 7);
      StackPage(p);
      assert top - STACK_PAGES < p <= top && !StackRange(VpnOf(p));
    }
  }

  /** Setting up a stack in the private range keeps every invariant, also when it runs dry. */
  lemma {:induction false} StackRunKeeps(x: Machine, lv: Levels, r: nat, page: nat, n: nat, fl: Flags) returns (lv': Levels)
    requires MachineInv(x, lv) && r in x.sys.procs && n <= page + 1
    requires 255 * 0x800_0000 + n <= page + 1 && page < 256 * 0x800_0000
    ensures MachineInv(StackRun(x, r, page, n, fl).0, lv')
    decreases n
  {
    hide MachineInv, VpnOf, MapPage;
    lv' := lv;
    if n > 0 {
      StackPage(page);
      lv' := MapStackKeeps(x, lv, r, VpnOf(page), fl);
      var (x', ok) := MapPoolPage(x, r, VpnOf(page), fl);
      if ok && n > 1 {
        lv' := StackRunKeeps(x', lv', r, page - 1, n - 1, fl);
      }
    }
  }

  /** The page of the initial stack pointer, or none when the pool runs dry half way. */
  method SetupUserStack(x: Machine, r: nat, pid: nat, fl: Flags) returns (x': Machine, top: Option<nat>)
    requires STACK_PAGES <= StackTop(pid)
    ensures (x', top.Some?) == StackRun(x, r, StackTop(pid), STACK_PAGES, fl)
    ensures top.Some? ==> top.value == StackTop(pid)
  {
    hide MapPage, VpnOf, Step, StackTop;
    x' := x;
    var page := StackTop(pid);
    for i := 0 to STACK_PAGES
      invariant page == StackTop(pid) - i
      invariant StackRun(x', r, page, STACK_PAGES - i, fl) == StackRun(x, r, StackTop(pid), STACK_PAGES, fl)
    {
      var (mapped, ok) := MapPoolPage(x', r, VpnOf(page), fl);
      x' := mapped;
      if !ok {
        return x', None;
      }
      page := page - 1;
    }
    top := Some(StackTop(pid));
  }
}
