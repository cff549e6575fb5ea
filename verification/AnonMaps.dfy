// Anonymous memory: SYS_MMAP bumps a per-slot pointer through the process's anonymous range and
// maps a fresh frame at each page; SYS_MUNMAP unmaps page by page. Page numbers stand for
// addresses divided by 4096.

module AnonMaps {
  import opened Options
  import opened PageTables
  import opened Mapper
  import opened PageViews
  import opened AddressSpaces
  import opened FrameOwners
  import B = BuddyTree

  const ANON_BASE: nat := 0x4_0000
  const ANON_LIMIT: nat := 0x7_0000
  const MAX_CALL_PAGES: nat := 1024

  // ----- mapping a run of pages -----

  /** A free block (order, index) the allocator splits to serve one page. */
  type Pick = (nat, nat)

  predicate CanPick(x: Machine, pick: Pick) {
    B.Enabled(x.books, B.Alloc(0, pick.0, pick.1))
  }

  /** The frame a pick yields. */
  function Picked(x: Machine, pick: Pick): nat
    requires CanPick(x, pick)
  {
    x.region + B.AllocIndex(pick.0, pick.1, 0)
  }

  /** Map n pages from `page` on to frames the allocator gives; false when it has none or the
      page tables cannot grow. What was mapped before a failure stays mapped. `picks` are the
      allocator's choices. */
  function MapRun(x: Machine, r: nat, page: nat, n: nat, picks: seq<Pick>, fl: Flags): (res: (Machine, bool))
    decreases n
  {
    if n == 0 then (x, true)
    else if picks == [] || !CanPick(x, picks[0]) then (x, false)
    else
      var (x', ok) := MapBuddyPage(x, r, VpnOf(page), picks[0].0, picks[0].1, fl);
      if ok then MapRun(x', r, page + 1, n - 1, picks[1..], fl) else (x', false)
  }

  /** The frames a run of picks yields. */
  function PickedAll(x: Machine, r: nat, page: nat, n: nat, picks: seq<Pick>, fl: Flags): (res: seq<nat>)
    decreases n
  {
    if n == 0 || picks == [] || !CanPick(x, picks[0]) then []
    else
      var (x', ok) := MapBuddyPage(x, r, VpnOf(page), picks[0].0, picks[0].1, fl);
      [Picked(x, picks[0])] + if ok then PickedAll(x', r, page + 1, n - 1, picks[1..], fl) else []
  }

  function UnmapRun(x: Machine, r: nat, page: nat, n: nat): (res: Machine)
    decreases n
  {
    if n == 0 then x else UnmapRun(x.(sys := Step(x.sys, UnmapUser(r, VpnOf(page)))), r, page + 1, n - 1)
  }

  /** The anonymous range is the second gigabyte. */
  lemma AnonPage(p: nat)
    requires p < VIRTUAL_PAGES
    ensures AnonRange(VpnOf(p)) <==> ANON_BASE <= p < 2 * ANON_BASE
  {
    var q := p / 512 / 512;
    assert VpnOf(p).i4 == q / 512 % 512 && VpnOf(p).i3 == q % 512;
    SecondGig(p, q);
  }

  lemma SecondGig(p: nat, q: nat)
    requires p < VIRTUAL_PAGES && q == p / 512 / 512
    ensures q / 512 % 512 == 0 && q % 512 == 1 <==> 0x4_0000 <= p < 0x8_0000
  {
    var x := p / 512;
    assert 512 * x <= p < 512 * x + 512;
    assert 512 * q <= x < 512 * q + 512;
  }

  // ----- what a call maps -----

  /** Mapping a run of pages of the anonymous range keeps every invariant of the machine, also
      when it fails half way. */
  lemma {:induction false} MapRunKeepsInv(x: Machine, lv: Levels, r: nat, page: nat, n: nat, picks: seq<Pick>, fl: Flags)
    returns (lv': Levels)
    requires MachineInv(x, lv) && r in x.sys.procs && x.sys.procs[r]
    requires ANON_BASE <= page && page + n <= ANON_LIMIT
    ensures MachineInv(MapRun(x, r, page, n, picks, fl).0, lv')
    decreases n
  {
    hide MachineInv, MapPage, VpnOf, B.Enabled, B.Apply;
    lv' := lv;
    if n > 0 && picks != [] && CanPick(x, picks[0]) {
      AnonPage(page);
      lv' := MapFrameKeeps(x, lv, r, VpnOf(page), picks[0].0, picks[0].1, fl);
      var (x', ok) := MapBuddyPage(x, r, VpnOf(page), picks[0].0, picks[0].1, fl);
      if ok {
        lv' := MapRunKeepsInv(x', lv', r, page + 1, n - 1, picks[1..], fl);
      }
    }
  }

  /** How page v of root s looks after pages from `page` on of root r were mapped to `frames`. */
  function Mapped(m: Memory, r: nat, page: nat, frames: seq<nat>, fl: Flags, s: nat, v: Vpn): Option<Mapping> {
    if s == r && page <= PageOf(v) < page + |frames|
    then Some(Mapping(frames[PageOf(v) - page], fl.writable, fl.user, fl.nx))
    else View(m, s, v)
  }

  /** Distinct frames, none of them handed out. */
  ghost predicate FreshList(handed: set<nat>, frames: seq<nat>) {
    && (forall i :: 0 <= i < |frames| ==> frames[i] !in handed)
    && (forall i, j :: 0 <= i < j < |frames| ==> frames[i] != frames[j])
  }

  lemma FreshCons(handed: set<nat>, f: nat, rest: seq<nat>)
    requires f !in handed && FreshList(handed + {f}, rest)
    ensures FreshList(handed, [f] + rest)
  {
    var frames := [f] + rest;
    assert forall i :: 1 <= i < |frames| ==> frames[i] == rest[i - 1];
  }

  lemma MappedNone(m: Memory, r: nat, page: nat, fl: Flags, s: nat, v: Vpn)
    ensures Mapped(m, r, page, [], fl, s, v) == View(m, s, v)
  {
    hide View;
  }

  lemma MappedCons(m: Memory, m1: Memory, r: nat, page: nat, f: nat, rest: seq<nat>, fl: Flags, s: nat, v: Vpn)
    requires View(m1, s, v) ==
      if s == r && PageOf(v) == page then Some(Mapping(f, fl.writable, fl.user, fl.nx)) else View(m, s, v)
    ensures Mapped(m1, r, page + 1, rest, fl, s, v) == Mapped(m, r, page, [f] + rest, fl, s, v)
  {
    hide PageOf, View;
  }

  /** The frames a call draws are distinct, and none was in user use before. */
  lemma {:induction false} PickedAreFresh(x: Machine, lv: Levels, r: nat, page: nat, n: nat, picks: seq<Pick>, fl: Flags)
    requires MachineInv(x, lv) && r in x.sys.procs && x.sys.procs[r]
    requires ANON_BASE <= page && page + n <= ANON_LIMIT
    ensures FreshList(x.sys.handed, PickedAll(x, r, page, n, picks, fl))
    decreases n
  {
    hide MachineInv, MapPage, VpnOf, B.Enabled, B.Apply, B.AllocIndex, Step;
    if n > 0 && picks != [] && CanPick(x, picks[0]) {
      AnonPage(page);
      var lv1 := MapFrameKeeps(x, lv, r, VpnOf(page), picks[0].0, picks[0].1, fl);
      var (x1, ok) := MapBuddyPage(x, r, VpnOf(page), picks[0].0, picks[0].1, fl);
      if ok {
        PickedAreFresh(x1, lv1, r, page + 1, n - 1, picks[1..], fl);
        var rest := PickedAll(x1, r, page + 1, n - 1, picks[1..], fl);
        FreshCons(x.sys.handed, Picked(x, picks[0]), rest);
        assert PickedAll(x, r, page, n, picks, fl) == [Picked(x, picks[0])] + rest;
      } else {
        assert PickedAll(x, r, page, n, picks, fl) == [Picked(x, picks[0])];
      }
    }
  }

  /** A successful call maps exactly its pages, in order, to the frames it drew and with the flags
      given; every other page of every address space looks as before. */
  lemma {:induction false} MapRunMaps(x: Machine, lv: Levels, r: nat, page: nat, n: nat, picks: seq<Pick>, fl: Flags, s: nat, v: Vpn)
    requires MachineInv(x, lv) && r in x.sys.procs && x.sys.procs[r] && Live(x.sys, s)
    requires ANON_BASE <= page && page + n <= ANON_LIMIT && fl.present
    requires MapRun(x, r, page, n, picks, fl).1
    ensures var frames := PickedAll(x, r, page, n, picks, fl);
      && |frames| == n
      && View(MapRun(x, r, page, n, picks, fl).0.sys.st.mem, s, v) == Mapped(x.sys.st.mem, r, page, frames, fl, s, v)
    decreases n
  {
    hide MachineInv, MapPage, VpnOf, PageOf, B.Enabled, B.Apply, B.AllocIndex, Step, View, Mapped;
    if n > 0 {
      AnonPage(page);
      var lv1 := MapFrameKeeps(x, lv, r, VpnOf(page), picks[0].0, picks[0].1, fl);
      var x1 := MapBuddyPage(x, r, VpnOf(page), picks[0].0, picks[0].1, fl).0;
      MapRunMaps(x1, lv1, r, page + 1, n - 1, picks[1..], fl, s, v);
      OneMapped(x, lv, r, page, Picked(x, picks[0]), fl, s, v);
      MappedCons(x.sys.st.mem, x1.sys.st.mem, r, page, Picked(x, picks[0]),
                 PickedAll(x1, r, page + 1, n - 1, picks[1..], fl), fl, s, v);
    } else {
      MappedNone(x.sys.st.mem, r, page, fl, s, v);
    }
  }

  lemma OneMapped(x: Machine, lv: Levels, r: nat, page: nat, f: nat, fl: Flags, s: nat, v: Vpn)
    requires MachineInv(x, lv) && IsUser(x.sys, r, VpnOf(page)) && Live(x.sys, s) && page < VIRTUAL_PAGES && fl.present
    requires MapPage(x.sys.st, r, VpnOf(page), f, fl).1
    ensures View(Step(x.sys, MapUser(r, VpnOf(page), f, fl)).st.mem, s, v) ==
            if s == r && PageOf(v) == page then Some(Mapping(f, fl.writable, fl.user, fl.nx)) else View(x.sys.st.mem, s, v)
  {
    hide MapPage, View, VpnOf, PageOf, Isolated, Shaped, SmallPages, Backed, OwnedOnce, Owned;
    MapUserView(x.sys, lv, r, VpnOf(page), f, fl, s, v);
    VpnRoundTrip(v);
    PageRoundTrip(page);
  }

  // ----- when a call runs dry -----

  predicate OutOfFrames(x: Machine) {
    x.books.s.free == {}
  }

  /** The page-table pool cannot supply the tables that page u of root r still needs. */
  predicate OutOfTables(x: Machine, r: nat, u: Vpn) {
    var n := Missing(x.sys.st.mem, r, u);
    n > 0 && x.sys.st.next + n > PT_POOL_PAGES
  }

  /** As long as the allocator has a free block, its next choice is one it can make. */
  predicate Serves(x: Machine, r: nat, page: nat, n: nat, picks: seq<Pick>, fl: Flags)
    decreases n
  {
    n == 0 || OutOfFrames(x)
    || (&& picks != [] && CanPick(x, picks[0])
        && var (x', ok) := MapBuddyPage(x, r, VpnOf(page), picks[0].0, picks[0].1, fl);
        ok ==> Serves(x', r, page + 1, n - 1, picks[1..], fl))
  }

  /** With a free block there is a choice to make: one of the lowest order. */
  lemma SomePick(x: Machine) returns (pick: Pick)
    requires !OutOfFrames(x)
    ensures CanPick(x, pick)
  {
    var b :| b in x.books.s.free;
    var least := b;
    var rest := x.books.s.free;
    while rest != {}
      invariant rest <= x.books.s.free && least in x.books.s.free
      invariant forall c :: c in x.books.s.free && c !in rest ==> least.order <= c.order
      decreases |rest|
    {
      var c :| c in rest;
      if c.order < least.order {
        least := c;
      }
      rest := rest - {c};
    }
    pick := (least.order, least.index);
  }

  lemma PickNeedsFrames(x: Machine, pick: Pick)
    requires CanPick(x, pick)
    ensures !OutOfFrames(x)
  {
    assert B.Block(pick.0, pick.1) in x.books.s.free;
  }

  /** After the first i pages were mapped, the frames or the tables for the next run out. */
  ghost predicate DryAt(x: Machine, r: nat, page: nat, picks: seq<Pick>, fl: Flags, i: nat) {
    var (x', ok) := MapRun(x, r, page, i, picks, fl);
    ok && (OutOfFrames(x') || OutOfTables(x', r, VpnOf(page + i)))
  }

  lemma OnePageFailsIff(x: Machine, lv: Levels, r: nat, u: Vpn, pick: Pick, fl: Flags)
    requires MachineInv(x, lv) && r in x.sys.procs && CanPick(x, pick)
    ensures MapBuddyPage(x, r, u, pick.0, pick.1, fl).1 <==> !OutOfTables(x, r, u)
  {
    hide MapPage, Missing, B.Enabled, B.Apply, B.Balanced, IsTree;
    assert Live(x.sys, r);
    MapPageFailsIff(x.sys.st, lv, r, u, Picked(x, pick), fl);
  }

  /** A call runs dry if and only if at one of its pages the frame allocator is empty or the
      page-table pool too short. */
  lemma {:induction false} RunsDryIff(x: Machine, lv: Levels, r: nat, page: nat, n: nat, picks: seq<Pick>, fl: Flags)
    requires MachineInv(x, lv) && r in x.sys.procs && x.sys.procs[r] && Serves(x, r, page, n, picks, fl)
    requires ANON_BASE <= page && page + n <= ANON_LIMIT
    ensures !MapRun(x, r, page, n, picks, fl).1 <==> exists i: nat :: i < n && DryAt(x, r, page, picks, fl, i)
    decreases n
  {
    hide MachineInv, MapBuddyPage, VpnOf, B.Enabled, OutOfFrames, OutOfTables;
    if n > 0 {
      assert DryAt(x, r, page, picks, fl, 0) <==> OutOfFrames(x) || OutOfTables(x, r, VpnOf(page));
      if OutOfFrames(x) {
        if picks != [] && CanPick(x, picks[0]) {
          PickNeedsFrames(x, picks[0]);
        }
        assert DryAt(x, r, page, picks, fl, 0);
      } else {
        var (x', ok) := MapBuddyPage(x, r, VpnOf(page), picks[0].0, picks[0].1, fl);
        OnePageFailsIff(x, lv, r, VpnOf(page), picks[0], fl);
        if !ok {
          assert DryAt(x, r, page, picks, fl, 0);
        } else {
          DryLater(x, lv, r, page, n, picks, fl, x');
        }
      }
    }
  }

  lemma DryLater(x: Machine, lv: Levels, r: nat, page: nat, n: nat, picks: seq<Pick>, fl: Flags, x': Machine)
    requires MachineInv(x, lv) && r in x.sys.procs && x.sys.procs[r] && Serves(x, r, page, n, picks, fl)
    requires ANON_BASE <= page && page + n <= ANON_LIMIT && n > 0
    requires !DryAt(x, r, page, picks, fl, 0) && picks != [] && CanPick(x, picks[0])
    requires MapBuddyPage(x, r, VpnOf(page), picks[0].0, picks[0].1, fl) == (x', true)
    ensures !MapRun(x, r, page, n, picks, fl).1 <==> exists i: nat :: i < n && DryAt(x, r, page, picks, fl, i)
    decreases n, 0
  {
    hide MachineInv, MapBuddyPage, VpnOf, CanPick, OutOfFrames, OutOfTables, B.AllocIndex;
    AnonPage(page);
    var lv' := OneMoreKeeps(x, lv, r, page, picks[0], fl, x');
    assert !OutOfFrames(x);
    var next, rest := page + 1, picks[1..];
    RunsDryIff(x', lv', r, next, n - 1, rest, fl);
    forall i: nat | 0 < i < n ensures DryAt(x, r, page, picks, fl, i) <==> DryAt(x', r, next, rest, fl, i - 1) {
      assert MapRun(x, r, page, i, picks, fl) == MapRun(x', r, next, i - 1, rest, fl);
    }
    if i: nat :| i < n - 1 && DryAt(x', r, next, rest, fl, i) {
      assert DryAt(x, r, page, picks, fl, i + 1);
    }
  }

  lemma OneMoreKeeps(x: Machine, lv: Levels, r: nat, page: nat, pick: Pick, fl: Flags, x': Machine) returns (lv': Levels)
    requires MachineInv(x, lv) && r in x.sys.procs && x.sys.procs[r] && ANON_BASE <= page < ANON_LIMIT && CanPick(x, pick)
    requires MapBuddyPage(x, r, VpnOf(page), pick.0, pick.1, fl).0 == x'
    ensures MachineInv(x', lv') && x'.sys.procs == x.sys.procs
  {
    hide MachineInv, MapBuddyPage, VpnOf;
    AnonPage(page);
    lv' := MapFrameKeeps(x, lv, r, VpnOf(page), pick.0, pick.1, fl);
  }

  // ----- whose range it is -----

  /** Page u of root r is unmapped and its walk shares no table with that of page v of root k. */
  ghost predicate PrivateAt(m: Memory, r: nat, u: Vpn, k: nat, v: Vpn) {
    Translate(m, r, u).None? && Apart(m, r, u, k, v)
  }

  /** The anonymous range of a new process is empty and shares no table with the kernel if and
      only if the kernel had nothing at PDPT entry 1 when the process was created. */
  lemma AnonIsPrivateIff(st: State, lv: Levels, k: nat, st': State, r: nat)
    requires Valid(st, lv) && IsRoot(st.mem, lv, k) && CreateProcess(st, k) == (st', Some(r))
    ensures (forall u, v :: AnonRange(u) ==> PrivateAt(st'.mem, r, u, k, v))
            <==> GigIsFree(st.mem, k, 1)
  {
    hide CreateProcess, ViaPml4e;
    CreateProcessCopies(st, lv, k, st', r);
    if GigIsFree(st.mem, k, 1) {
      forall u, v | AnonRange(u) ensures PrivateAt(st'.mem, r, u, k, v) {
        FreeGigIsPrivate(st.mem, lv, st'.mem, k, r, u, v);
      }
    } else {
      var u := Vpn(0, 1, 0, 0);
      TakenGigIsNot(st.mem, lv, st'.mem, k, r, u);
      assert AnonRange(u) && !PrivateAt(st'.mem, r, u, k, u);
    }
  }

  lemma FreeGigIsPrivate(m: Memory, lv: Levels, m': Memory, k: nat, r: nat, u: Vpn, v: Vpn)
    requires WellFormed(m, lv) && IsRoot(m, lv, k) && PrivateCopy(m, m', k, r, r + 1, r + 2)
    requires AnonRange(u) && GigIsFree(m, k, 1)
    ensures Translate(m', r, u).None? && Apart(m', r, u, k, v)
  {
    CopyWalk(m, lv, m', k, r, r + 1, r + 2, u);
    OldWalksKept(m, lv, m', k, v);
    WalkLevels(m, lv, k, v);
  }

  lemma TakenGigIsNot(m: Memory, lv: Levels, m': Memory, k: nat, r: nat, u: Vpn)
    requires WellFormed(m, lv) && IsRoot(m, lv, k) && PrivateCopy(m, m', k, r, r + 1, r + 2)
    requires u == Vpn(0, 1, 0, 0) && !GigIsFree(m, k, 1)
    ensures Translate(m', r, u).Some? || !Apart(m', r, u, k, u)
  {
    CopyWalk(m, lv, m', k, r, r + 1, r + 2, u);
    OldWalksKept(m, lv, m', k, u);
    if Pd(m, k, u).Some? {
      var t := Pd(m, k, u).value;
      assert Touches(m', r, u, t) && Touches(m', k, u, t);
    }
  }

  // ----- unmapping -----

  /** All n pages from `page` on lie in the anonymous range. */
  ghost predicate StaysAnon(page: nat, n: nat) {
    forall p: nat :: page <= p < page + n ==> AnonRange(VpnOf(p))
  }

  /** SYS_MUNMAP checks only where the range starts. It stays in the process's own range
      exactly when the last page does too. */
  lemma StaysAnonIff(page: nat, n: nat)
    requires ANON_BASE <= page < ANON_LIMIT
    ensures StaysAnon(page, n) <==> page + n <= 2 * ANON_BASE
  {
    hide VpnOf, AnonRange;
    if page + n <= 2 * ANON_BASE {
      forall p: nat | page <= p < page + n ensures AnonRange(VpnOf(p)) {
        AnonPage(p);
      }
    } else {
      AnonPage(2 * ANON_BASE);
      assert page <= 2 * ANON_BASE < page + n;
    }
  }

  /** A call that stays in range unmaps exactly its pages and keeps every invariant. */
  lemma {:induction false} UnmapRunClears(x: Machine, lv: Levels, r: nat, page: nat, n: nat, s: nat, v: Vpn)
    returns (lv': Levels)
    requires MachineInv(x, lv) && r in x.sys.procs && x.sys.procs[r] && Live(x.sys, s)
    requires ANON_BASE <= page && page + n <= 2 * ANON_BASE
    ensures MachineInv(UnmapRun(x, r, page, n), lv')
    ensures View(UnmapRun(x, r, page, n).sys.st.mem, s, v) ==
            if s == r && page <= PageOf(v) < page + n then None else View(x.sys.st.mem, s, v)
    decreases n
  {
    hide MachineInv, UnmapPage, VpnOf, PageOf, View;
    lv' := lv;
    if n > 0 {
      AnonPage(page);
      var act := Unmap(r, VpnOf(page));
      lv' := DoKeeps(x, lv, act);
      lv' := UnmapRunClears(Do(x, act), lv', r, page + 1, n - 1, s, v);
      OneUnmapped(x, lv, r, page, s, v);
    }
  }

  lemma OneUnmapped(x: Machine, lv: Levels, r: nat, page: nat, s: nat, v: Vpn)
    requires MachineInv(x, lv) && IsUser(x.sys, r, VpnOf(page)) && Live(x.sys, s) && page < VIRTUAL_PAGES
    ensures View(UnmapPage(x.sys.st, r, VpnOf(page)).mem, s, v) ==
            if s == r && PageOf(v) == page then None else View(x.sys.st.mem, s, v)
  {
    hide UnmapPage, View, VpnOf, PageOf, Isolated, Shaped, SmallPages, Backed, OwnedOnce, Owned;
    UnmapUserView(x.sys, lv, r, VpnOf(page), s, v);
    VpnRoundTrip(v);
    PageRoundTrip(page);
  }

  /** Past its own range a process shares page tables with the kernel, and unmapping there
      takes the page away from the kernel too. */
  lemma UnmapShared(st: State, lv: Levels, r: nat, k: nat, w: Vpn)
    requires Valid(st, lv) && IsRoot(st.mem, lv, r) && IsRoot(st.mem, lv, k)
    requires Pt(st.mem, r, w).Some? && Pt(st.mem, k, w) == Pt(st.mem, r, w)
    ensures Translate(UnmapPage(st, r, w).mem, k, w).None?
  {
    WalkLevels(st.mem, lv, r, w);
    WalkLevels(st.mem, lv, k, w);
  }

  // ----- the calls -----

  function Elements(s: seq<nat>): set<nat> {
    set f | f in s
  }

  datatype Reply = Address(page: nat) | Done | Invalid | NoMemory

  class AnonMapper {
    /** The machine, the frames whose bytes were zeroed for a caller, and for each process slot
        the next free anonymous page. */
    var x: Machine
    var zeroed: set<nat>
    const next: array<nat>

    ghost predicate Valid()
      reads next
    {
      next.Length == 64 && forall i :: 0 <= i < 64 ==> ANON_BASE <= next[i] <= ANON_LIMIT
    }

    constructor (x: Machine)
      ensures Valid() && fresh(next) && this.x == x && zeroed == {} && forall i :: 0 <= i < 64 ==> next[i] == ANON_BASE
    {
      this.x := x;
      zeroed := {};
      next := new nat[64](_ => ANON_BASE);
    }

    /** Map `pages` anonymous pages for the process in `slot` with root r, each zeroed before it
        is mapped; `picks` are the frame allocator's choices. */
    method SysMmap(slot: nat, r: nat, pages: nat, picks: seq<Pick>, fl: Flags) returns (reply: Reply)
      requires Valid() && slot < 64
      modifies this`x, this`zeroed, next
      ensures Valid()
      ensures forall i :: 0 <= i < 64 && i != slot ==> next[i] == old(next[i])
      ensures
        var start := old(next[slot]);
        if pages == 0 || pages > 1024 then
          reply == Invalid && x == old(x) && zeroed == old(zeroed) && next[slot] == start
        else if start + pages > 0x7_0000 then
          reply == NoMemory && x == old(x) && zeroed == old(zeroed) && next[slot] == start
        else
          var (x', ok) := MapRun(old(x), r, start, pages, picks, fl);
          && x == x' && zeroed == old(zeroed) + Elements(PickedAll(old(x), r, start, pages, picks, fl))
          && reply == (if ok then Address(start) else NoMemory)
          && next[slot] == (if ok then start + pages else start)
    {
      hide MapPage, VpnOf, Step, B.Enabled, B.Apply;
      if pages == 0 || pages > MAX_CALL_PAGES {
        return Invalid;
      }
      var start := next[slot];
      var end := start + pages;
      if end > ANON_LIMIT {
        return NoMemory;
      }
      var va, left := start, picks;
      ghost var all := PickedAll(x, r, start, pages, picks, fl);
      while va < end
        invariant start <= va <= end && Valid() && next[..] == old(next[..])
        invariant MapRun(x, r, va, end - va, left, fl) == MapRun(old(x), r, start, pages, picks, fl)
        invariant zeroed + Elements(PickedAll(x, r, va, end - va, left, fl)) == old(zeroed) + Elements(all)
      {
        if left == [] || !CanPick(x, left[0]) {
          return NoMemory;
        }
        zeroed := zeroed + {Picked(x, left[0])};
        var (x', ok) := MapBuddyPage(x, r, VpnOf(va), left[0].0, left[0].1, fl);
        x := x';
        if !ok {
          return NoMemory;
        }
        left := left[1..];
        va := va + 1;
      }
      next[slot] := end;
      reply := Address(start);
    }

    method SysMunmap(r: nat, page: nat, pages: nat) returns (reply: Reply)
      modifies this`x
      ensures if pages == 0 || page < 0x4_0000 || page >= 0x7_0000 then reply == Invalid && x == old(x)
              else reply == Done && x == UnmapRun(old(x), r, page, pages)
    {
      hide Step, VpnOf;
      if pages == 0 || page < ANON_BASE || page >= ANON_LIMIT {
        return Invalid;
      }
      var v := page;
      for i := 0 to pages
        invariant v == page + i && UnmapRun(x, r, v, pages - i) == UnmapRun(old(x), r, page, pages)
      {
        x := x.(sys := Step(x.sys, UnmapUser(r, VpnOf(v))));
        v := v + 1;
      }
      reply := Done;
    }

    method ResetAnonForSlot(slot: nat)
      requires Valid()
      modifies next
      ensures Valid() && next[..] == if slot < 64 then old(next[..])[slot := ANON_BASE] else old(next[..])
    {
      if slot < 64 {
        next[slot] := ANON_BASE;
      }
    }
  }
}
