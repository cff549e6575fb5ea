// Per-process address spaces: a new root copies the kernel's, with private copies of the
// tables that lead to the user ranges. Isolation and frame ownership over whole runs.

module AddressSpaces {
  import opened Options
  import opened PageTables
  import opened PageEdits
  import opened Mapper
  import opened PageViews

  function TableOf(m: Memory, t: nat): Table {
    if t in m then m[t] else EmptyTable()
  }

  /** Take a pool page and fill it with a copy. */
  function CopyTable(st: State, table: Table): (r: State) {
    State(st.mem[st.base + st.next := table], st.next + 1, st.base)
  }

  function ClearStack(st: State, r: nat): (s: State) {
    st.(mem := Patch(st.mem, r, 255, ABSENT))
  }

  /** A fresh root for a process: the kernel's PML4 with its own PDPT for entry 0, its own
      PD for the first gigabyte with entry 5 cleared, and PML4 entry 255 cleared. None when
      the pool runs out part way. */
  function CreateProcess(st: State, k: nat): (r: (State, Option<nat>)) {
    if !HasSpace(st) then (st, None) else
    var root := st.base + st.next;
    var s1 := CopyTable(st, TableOf(st.mem, k));
    var e4 := Get(st.mem, k, 0);
    if !e4.present then (ClearStack(s1, root), Some(root)) else
    if !HasSpace(s1) then (s1, None) else
    var pdpt := s1.base + s1.next;
    var s2 := CopyTable(s1, TableOf(st.mem, e4.frame));
    var s3 := s2.(mem := Patch(s2.mem, root, 0, e4.(frame := pdpt)));
    var e3 := Get(st.mem, e4.frame, 0);
    if !e3.present || e3.ps then (ClearStack(s3, root), Some(root)) else
    if !HasSpace(s3) then (s3, None) else
    var pd := s3.base + s3.next;
    var s4 := CopyTable(s3, TableOf(st.mem, e3.frame)[5 := ABSENT]);
    var s5 := s4.(mem := Patch(s4.mem, pdpt, 0, e3.(frame := pd)));
    (ClearStack(s5, root), Some(root))
  }

  /** The kernel maps its first gigabyte with one 1 GB leaf. */
  predicate LowGigIsLeaf(m: Memory, k: nat) {
    OnGigPage(m, k, Vpn(0, 0, 0, 0))
  }

  /** Entry i of the PDPT for the first 512 GB is absent. */
  predicate GigIsFree(m: Memory, k: nat, i: Index) {
    var e4 := Get(m, k, 0);
    !e4.present || !Get(m, e4.frame, i).present
  }

  predicate LoadRange(u: Vpn) {
    u.i4 == 0 && u.i3 == 0 && u.i2 == 5
  }

  predicate StackRange(u: Vpn) {
    u.i4 == 255
  }

  predicate AnonRange(u: Vpn) {
    u.i4 == 0 && u.i3 == 1
  }

  /** The tables of a new address space: root r, and below it the private PDPT q and PD d
      when the kernel has a table there to copy. */
  ghost predicate PrivateCopy(m: Memory, m': Memory, k: nat, r: nat, q: nat, d: nat) {
    var e4 := Get(m, k, 0);
    var e3 := Get(m, e4.frame, 0);
    var low := e4.present;
    var gig := low && e3.present && !e3.ps;
    && r !in m && (low ==> q !in m && q != r) && (gig ==> d !in m && d != r && d != q)
    && (forall t :: t in m ==> t in m' && m'[t] == m[t])
    && (forall t :: t in m' <==> t in m || t == r || (low && t == q) || (gig && t == d))
    && (forall i: Index ::
          Get(m', r, i) == if i == 255 then ABSENT else if i == 0 && low then e4.(frame := q) else Get(m, k, i))
    && (low ==> (forall i: Index ::
          Get(m', q, i) == if i == 0 && gig then e3.(frame := d) else Get(m, e4.frame, i)))
    && (gig ==> (forall i: Index :: Get(m', d, i) == if i == 5 then ABSENT else Get(m, e3.frame, i)))
  }

  /** The memory CreateProcess leaves, written out. */
  lemma CreateProcessMemory(st: State, lv: Levels, k: nat, st': State, r: nat)
    requires Valid(st, lv) && IsRoot(st.mem, lv, k)
    requires CreateProcess(st, k) == (st', Some(r))
    ensures r == st.base + st.next && r !in st.mem && st.next < st'.next <= PT_POOL_PAGES && st'.base == st.base
    ensures var m := st.mem; var e4 := m[k][0];
      && (!e4.present ==> st'.mem == m[r := m[k][255 := ABSENT]] && st'.next == st.next + 1)
      && (e4.present ==> e4.frame in m && r + 1 !in m)
      && (e4.present ==>
            var e3 := m[e4.frame][0];
            var top := m[k][0 := e4.(frame := r + 1)][255 := ABSENT];
            && (!IsLink(3, e3) ==> st'.mem == m[r := top][r + 1 := m[e4.frame]] && st'.next == st.next + 2)
            && (IsLink(3, e3) ==> e3.frame in m && r + 2 !in m && st'.next == st.next + 3)
            && (IsLink(3, e3) ==>
                  st'.mem == m[r := top][r + 1 := m[e4.frame][0 := e3.(frame := r + 2)]]
                              [r + 2 := m[e3.frame][5 := ABSENT]]))
  {
    var e4 := st.mem[k][0];
    if e4.present {
      assert IsLink(4, e4);
      assert IsLink(3, st.mem[e4.frame][0]) ==> st.mem[e4.frame][0].frame in st.mem;
    }
  }

  lemma CreateProcessCopies(st: State, lv: Levels, k: nat, st': State, r: nat)
    requires Valid(st, lv) && IsRoot(st.mem, lv, k)
    requires CreateProcess(st, k) == (st', Some(r))
    ensures PrivateCopy(st.mem, st'.mem, k, r, r + 1, r + 2)
    ensures r == st.base + st.next && st'.base == st.base && st.next < st'.next <= PT_POOL_PAGES
    ensures forall t :: t in st'.mem ==> t in st.mem || t < st'.base + st'.next
  {
    hide CreateProcess;
    CreateProcessMemory(st, lv, k, st', r);
  }

  lemma CopyWalk(m: Memory, lv: Levels, m': Memory, k: nat, r: nat, q: nat, d: nat, u: Vpn)
    requires WellFormed(m, lv) && IsRoot(m, lv, k) && PrivateCopy(m, m', k, r, q, d)
    ensures Translate(m', r, u) ==
           if StackRange(u) || (LoadRange(u) && !LowGigIsLeaf(m, k)) then None else Translate(m, k, u)
    ensures Pdpt(m', r, u) == if u.i4 == 255 then None
                              else if u.i4 == 0 && Get(m, k, 0).present then Some(q) else Pdpt(m, k, u)
    ensures Pd(m', r, u) == if u.i4 == 255 then None
                            else if u.i4 == 0 && u.i3 == 0 && Pd(m, k, u).Some? then Some(d) else Pd(m, k, u)
    ensures Pt(m', r, u) == if u.i4 == 255 || LoadRange(u) then None else Pt(m, k, u)
  {
    WalkLevels(m, lv, k, u);
    if u.i4 != 255 {
      assert Get(m', r, u.i4) == if u.i4 == 0 && Get(m, k, 0).present then Get(m, k, 0).(frame := q) else Get(m, k, u.i4);
    }
  }

  /** A new root agrees with the kernel everywhere except the load and stack ranges, which are empty. */
  lemma CreateProcessAgrees(st: State, lv: Levels, k: nat, st': State, r: nat, u: Vpn)
    requires Valid(st, lv) && IsRoot(st.mem, lv, k)
    requires CreateProcess(st, k) == (st', Some(r))
    ensures Translate(st'.mem, r, u) ==
            if StackRange(u) || (LoadRange(u) && !LowGigIsLeaf(st.mem, k)) then None
            else Translate(st.mem, k, u)
  {
    CreateProcessCopies(st, lv, k, st', r);
    CopyWalk(st.mem, lv, st'.mem, k, r, r + 1, r + 2, u);
  }

  /** The same with permissions: a new root looks like the kernel's, except that PML4 entry 255 is
      empty and so is PD entry 5 of the first gigabyte, unless that gigabyte is one page. Links
      are as open as the kernel's. */
  lemma CreateProcessViews(st: State, lv: Levels, k: nat, st': State, r: nat, u: Vpn)
    requires Valid(st, lv) && IsRoot(st.mem, lv, k)
    requires CreateProcess(st, k) == (st', Some(r))
    ensures View(st'.mem, r, u) ==
            if u.i4 == 255 || (u.i4 == 0 && u.i3 == 0 && u.i2 == 5 && !OnGigPage(st.mem, k, u)) then None
            else View(st.mem, k, u)
    ensures OpenWalk(st.mem, k, u) ==> OpenWalk(st'.mem, r, u)
  {
    hide CreateProcess, AlignDown;
    CreateProcessCopies(st, lv, k, st', r);
    WalkLevels(st.mem, lv, k, u);
    CopiedEntries(st.mem, st'.mem, k, r, u);
  }

  lemma CopiedEntries(m: Memory, m': Memory, k: nat, r: nat, u: Vpn)
    requires PrivateCopy(m, m', k, r, r + 1, r + 2)
    ensures Get(m', r, u.i4) == if u.i4 == 255 then ABSENT
                                else if u.i4 == 0 && Get(m, k, 0).present then Get(m, k, 0).(frame := r + 1)
                                else Get(m, k, u.i4)
  {
  }

  ghost function CopyLevels(m: Memory, m': Memory, lv: Levels, r: nat, q: nat): Levels {
    map t | t in m' :: if t in lv then lv[t] else if t == r then 4 else if t == q then 3 else 2
  }

  lemma CopyWellFormed(m: Memory, lv: Levels, m': Memory, k: nat, r: nat, q: nat, d: nat)
    requires WellFormed(m, lv) && IsRoot(m, lv, k) && PrivateCopy(m, m', k, r, q, d)
    ensures WellFormed(m', CopyLevels(m, m', lv, r, q))
  {
    var lv' := CopyLevels(m, m', lv, r, q);
    forall t, i: Index | t in m' && IsLink(lv'[t], m'[t][i])
      ensures m'[t][i].frame in m' && lv'[m'[t][i].frame] == lv'[t] - 1
    {
      assert m'[t][i] == Get(m', t, i);
      if t in m {
        assert IsLink(lv[t], m[t][i]);
      } else {
        var e4 := Get(m, k, 0);
        assert e4.present ==> IsLink(4, m[k][0]);
        if t == r {
          assert IsLink(4, m[k][i]);
        } else if t == q {
          var e := m[e4.frame][i];
          assert IsLink(3, e);
        } else {
          var e3 := m[e4.frame][0];
          assert IsLink(3, e3);
          assert IsLink(2, m[e3.frame][i]);
        }
      }
    }
  }

  lemma CopyIsTree(m: Memory, lv: Levels, m': Memory, k: nat, r: nat, q: nat, d: nat)
    requires WellFormed(m, lv) && IsRoot(m, lv, k) && PrivateCopy(m, m', k, r, q, d) && IsTree(m, k)
    ensures IsTree(m', r)
  {
    forall u, v
      ensures Pdpt(m', r, u).Some? && Pdpt(m', r, u) == Pdpt(m', r, v) ==> u.i4 == v.i4
      ensures Pd(m', r, u).Some? && Pd(m', r, u) == Pd(m', r, v) ==> u.i4 == v.i4 && u.i3 == v.i3
      ensures Pt(m', r, u).Some? && Pt(m', r, u) == Pt(m', r, v) ==>
          u.i4 == v.i4 && u.i3 == v.i3 && u.i2 == v.i2
    {
      CopyWalk(m, lv, m', k, r, q, d, u);
      CopyWalk(m, lv, m', k, r, q, d, v);
      WalkLevels(m, lv, k, u);
      WalkLevels(m, lv, k, v);
    }
  }

  /** Walks from old roots do not see new tables. */
  lemma OldWalksKept(m: Memory, lv: Levels, m': Memory, s: nat, v: Vpn)
    requires WellFormed(m, lv) && IsRoot(m, lv, s)
    requires forall t :: t in m ==> t in m' && m'[t] == m[t]
    ensures Translate(m', s, v) == Translate(m, s, v) && WalkPte(m', s, v) == WalkPte(m, s, v)
    ensures Pdpt(m', s, v) == Pdpt(m, s, v) && Pd(m', s, v) == Pd(m, s, v) && Pt(m', s, v) == Pt(m, s, v)
  {
    WalkLevels(m, lv, s, v);
    WalkFrame(m, m', s, v);
  }

  // ----- the system: one kernel root, any number of process roots -----

  /** `procs` gives each process root a flag: its anonymous range was free when it was made.
      `handed` is the set of frames put to user use so far; module FrameOwners says where they
      come from. */
  datatype Sys = Sys(st: State, kernel: nat, procs: map<nat, bool>, handed: set<nat>)

  predicate UserPage(u: Vpn, anon: bool) {
    StackRange(u) || LoadRange(u) || (anon && AnonRange(u))
  }

  ghost predicate Live(sys: Sys, r: nat) {
    r == sys.kernel || r in sys.procs
  }

  /** The walks of (r, u) and (s, v) share no table. */
  ghost predicate Apart(m: Memory, r: nat, u: Vpn, s: nat, v: Vpn) {
    forall t :: !(Touches(m, r, u, t) && Touches(m, s, v, t))
  }

  ghost predicate Shaped(sys: Sys, lv: Levels) {
    && Valid(sys.st, lv)
    && sys.kernel !in sys.procs
    && (forall r :: Live(sys, r) ==> IsRoot(sys.st.mem, lv, r) && IsTree(sys.st.mem, r))
    && !LowGigIsLeaf(sys.st.mem, sys.kernel)
  }

  predicate IsUser(sys: Sys, r: nat, u: Vpn) {
    r in sys.procs && UserPage(u, sys.procs[r])
  }

  /** The tables that lead to a process's user pages belong to that process alone. */
  ghost predicate Isolated(sys: Sys) {
    forall r, u, s, v :: IsUser(sys, r, u) && Live(sys, s) && s != r ==> Apart(sys.st.mem, r, u, s, v)
  }

  /** User pages are 4 KB pages. */
  ghost predicate SmallPages(sys: Sys) {
    forall r, u :: IsUser(sys, r, u) ==> !OnLargePage(sys.st.mem, r, u)
  }

  /** User pages map only frames that were handed out. */
  ghost predicate Backed(sys: Sys) {
    forall r, u :: IsUser(sys, r, u) && Translate(sys.st.mem, r, u).Some? ==>
      Translate(sys.st.mem, r, u).value in sys.handed
  }

  /** No frame is mapped at two user addresses, in one process or in two. */
  ghost predicate OwnedOnce(sys: Sys) {
    forall r, u, s, v :: IsUser(sys, r, u) && IsUser(sys, s, v) && (r != s || u != v) ==>
      Translate(sys.st.mem, r, u).None? || Translate(sys.st.mem, r, u) != Translate(sys.st.mem, s, v)
  }

  ghost predicate Inv(sys: Sys, lv: Levels) {
    Shaped(sys, lv) && Isolated(sys) && SmallPages(sys) && Backed(sys) && OwnedOnce(sys)
  }

  datatype Op =
    | Create
    | MapUser(root: nat, page: Vpn, frame: nat, fl: Flags)
    | UnmapUser(root: nat, page: Vpn)
    | MapKernel(page: Vpn, frame: nat, fl: Flags)

  /** User mappings that stay in the process's own ranges and use a frame not in user use. That
      the frames are such is proved in module FrameOwners. */
  predicate Allowed(sys: Sys, op: Op) {
    match op
    case MapUser(r, u, f, fl) => IsUser(sys, r, u) && f !in sys.handed
    case UnmapUser(r, u) => IsUser(sys, r, u)
    case _ => true
  }

  function Step(sys: Sys, op: Op): (r: Sys) {
    match op
    case Create =>
      var (st', c) := CreateProcess(sys.st, sys.kernel);
      if c.None? then sys.(st := st')
      else sys.(st := st', procs := sys.procs[c.value := GigIsFree(sys.st.mem, sys.kernel, 1)])
    case MapUser(r, u, f, fl) => sys.(st := MapPage(sys.st, r, u, f, fl).0, handed := sys.handed + {f})
    case UnmapUser(r, u) => sys.(st := UnmapPage(sys.st, r, u))
    case MapKernel(u, f, fl) => sys.(st := MapPage(sys.st, sys.kernel, u, f, fl).0)
  }

  /** The memory a failed CreateProcess leaves, written out. */
  lemma CreateFailureMemory(st: State, lv: Levels, k: nat)
    requires Valid(st, lv) && IsRoot(st.mem, lv, k)
    requires CreateProcess(st, k).1.None?
    ensures var st' := CreateProcess(st, k).0; var m := st.mem; var root := st.base + st.next; var e4 := m[k][0];
      || st' == st
      || (HasSpace(st) && st' == State(m[root := m[k]], st.next + 1, st.base))
      || (&& IsLink(4, e4) && e4.frame in m && root !in m && root + 1 !in m && st.next + 2 <= PT_POOL_PAGES
          && st' == State(m[root := m[k][0 := e4.(frame := root + 1)]][root + 1 := m[e4.frame]], st.next + 2, st.base))
  {
    var e4 := st.mem[k][0];
    if e4.present {
      assert IsLink(4, e4);
    }
  }

  lemma TopCopyWellFormed(m: Memory, lv: Levels, k: nat, root: nat)
    requires WellFormed(m, lv) && IsRoot(m, lv, k) && root !in m
    ensures WellFormed(m[root := m[k]], lv[root := 4])
  {
    assert forall i: Index :: IsLink(4, m[k][i]) ==> m[k][i].frame in m;
  }

  lemma TwoCopiesWellFormed(m: Memory, lv: Levels, k: nat, root: nat, q: nat)
    requires WellFormed(m, lv) && IsRoot(m, lv, k) && root !in m && q !in m && root != q
    requires IsLink(4, m[k][0]) && m[k][0].frame in m
    ensures WellFormed(m[root := m[k][0 := m[k][0].(frame := q)]][q := m[m[k][0].frame]], lv[root := 4][q := 3])
  {
    var e4 := m[k][0];
    var m', lv' := m[root := m[k][0 := e4.(frame := q)]][q := m[e4.frame]], lv[root := 4][q := 3];
    forall t, i: Index | t in m' && IsLink(lv'[t], m'[t][i])
      ensures m'[t][i].frame in m' && lv'[m'[t][i].frame] == lv'[t] - 1
    {
      if t in m {
        assert IsLink(lv[t], m[t][i]);
      } else if t == q {
        assert IsLink(3, m[e4.frame][i]);
      } else if i != 0 {
        assert IsLink(4, m[k][i]);
      }
    }
  }

  /** When the pool runs out part way, the tables left behind are unreachable copies. */
  lemma CreateFailureHarmless(st: State, lv: Levels, k: nat) returns (lv': Levels)
    requires Valid(st, lv) && IsRoot(st.mem, lv, k)
    requires CreateProcess(st, k).1.None?
    ensures var st' := CreateProcess(st, k).0;
      && Valid(st', lv')
      && (forall t :: t in lv ==> t in lv' && lv'[t] == lv[t])
      && (forall t :: t in st.mem ==> t in st'.mem && st'.mem[t] == st.mem[t])
  {
    CreateFailureMemory(st, lv, k);
    var st' := CreateProcess(st, k).0;
    var root := st.base + st.next;
    lv' := lv;
    if st'.next == st.next + 1 {
      TopCopyWellFormed(st.mem, lv, k, root);
      lv' := lv[root := 4];
    } else if st'.next == st.next + 2 {
      TwoCopiesWellFormed(st.mem, lv, k, root, root + 1);
      lv' := lv[root := 4][root + 1 := 3];
    }
  }

  // ----- every step keeps the invariant -----

  /** A walk that shares no table with the written walk sees nothing of the write. */
  lemma ApartUnaffected(st: State, lv: Levels, st': State, lv': Levels, r: nat, w: Vpn, s: nat, v: Vpn)
    requires Valid(st, lv) && Confined(st, lv, st', lv', r, w)
    requires IsRoot(st.mem, lv, s) && Apart(st.mem, r, w, s, v)
    ensures Translate(st'.mem, s, v) == Translate(st.mem, s, v) && WalkPte(st'.mem, s, v) == WalkPte(st.mem, s, v)
    ensures Pdpt(st'.mem, s, v) == Pdpt(st.mem, s, v) && Pd(st'.mem, s, v) == Pd(st.mem, s, v) && Pt(st'.mem, s, v) == Pt(st.mem, s, v)
    ensures OnLargePage(st'.mem, s, v) <==> OnLargePage(st.mem, s, v)
  {
    WalkLevels(st.mem, lv, s, v);
    WalkFrame(st.mem, st'.mem, s, v);
  }

  lemma UnaffectedTouchesOld(st: State, lv: Levels, st': State, lv': Levels, r: nat, w: Vpn, s: nat, v: Vpn, t: nat)
    requires Valid(st, lv) && Confined(st, lv, st', lv', r, w)
    requires IsRoot(st.mem, lv, s) && Apart(st.mem, r, w, s, v)
    requires Touches(st'.mem, s, v, t)
    ensures t in st.mem
  {
    ApartUnaffected(st, lv, st', lv', r, w, s, v);
    WalkLevels(st.mem, lv, s, v);
  }

  lemma WriteKeepsApart(sys: Sys, lv: Levels, st': State, lv': Levels, r: nat, w: Vpn, a: nat, u: Vpn, s: nat, v: Vpn)
    requires Shaped(sys, lv) && Isolated(sys) && Confined(sys.st, lv, st', lv', r, w)
    requires IsUser(sys, r, w) || r == sys.kernel
    requires IsUser(sys, a, u) && Live(sys, s) && s != a
    ensures Apart(st'.mem, a, u, s, v)
  {
    var m, m' := sys.st.mem, st'.mem;
    assert Apart(m, a, u, s, v);
    assert Live(sys, a);
    if a != r {
      assert Live(sys, r);
      assert Apart(m, a, u, r, w);
    } else {
      assert Apart(m, r, w, s, v);
    }
    forall t | Touches(m', a, u, t) && Touches(m', s, v, t) ensures false {
      if a != r {
        UnaffectedTouchesOld(sys.st, lv, st', lv', r, w, a, u, t);
      } else {
        UnaffectedTouchesOld(sys.st, lv, st', lv', r, w, s, v, t);
      }
    }
  }

  /** Writing along a walk of r keeps the user tables of every process private. */
  lemma WriteKeepsIsolated(sys: Sys, lv: Levels, st': State, lv': Levels, r: nat, w: Vpn)
    requires Shaped(sys, lv) && Isolated(sys) && Confined(sys.st, lv, st', lv', r, w)
    requires IsUser(sys, r, w) || r == sys.kernel
    ensures Isolated(sys.(st := st'))
  {
    var sys' := sys.(st := st');
    forall a, u, s, v | IsUser(sys', a, u) && Live(sys', s) && s != a ensures Apart(st'.mem, a, u, s, v) {
      assert IsUser(sys, a, u) && Live(sys, s);
      WriteKeepsApart(sys, lv, st', lv', r, w, a, u, s, v);
    }
  }

  lemma WriteKeepsShaped(sys: Sys, lv: Levels, st': State, lv': Levels, r: nat, w: Vpn)
    requires Shaped(sys, lv) && Confined(sys.st, lv, st', lv', r, w) && NoNewLarge(sys.st.mem, st'.mem, lv)
    ensures Shaped(sys.(st := st'), lv')
  {
    var sys' := sys.(st := st');
    RootsKept(sys.st, lv, st', lv', r, w);
    forall a | Live(sys', a) ensures IsRoot(st'.mem, lv', a) && IsTree(st'.mem, a) {
      assert Live(sys, a);
    }
    assert Live(sys, sys.kernel);
  }

  lemma WriteKeepsSmallPages(sys: Sys, lv: Levels, st': State)
    requires Shaped(sys, lv) && SmallPages(sys) && NoNewLarge(sys.st.mem, st'.mem, lv)
    ensures SmallPages(sys.(st := st'))
  {
    var sys' := sys.(st := st');
    forall a, u | IsUser(sys', a, u) ensures !OnLargePage(st'.mem, a, u) {
      assert IsUser(sys, a, u) && Live(sys, a);
    }
  }

  /** Mapping a user page of r: r's page, and nothing else that any process calls its own. */
  lemma MapUserTranslation(sys: Sys, lv: Levels, r: nat, w: Vpn, f: nat, fl: Flags, s: nat, v: Vpn)
    requires Shaped(sys, lv) && Isolated(sys) && IsUser(sys, r, w) && Live(sys, s)
    ensures var (st', ok) := MapPage(sys.st, r, w, f, fl);
      Translate(st'.mem, s, v) ==
        if s == r && v == w && ok then (if fl.present then Some(f) else None) else Translate(sys.st.mem, s, v)
  {
    assert Live(sys, r);
    if s == r {
      MapPageUpdatesOnePage(sys.st, lv, r, w, f, fl);
    } else {
      var lv' := MapPageRefines(sys.st, lv, r, w, f, fl);
      assert Apart(sys.st.mem, r, w, s, v);
      ApartUnaffected(sys.st, lv, MapPage(sys.st, r, w, f, fl).0, lv', r, w, s, v);
    }
  }

  /** The same with permissions: that page of that process gets the frame and the flags given, and
      nothing else looks different to anyone. */
  lemma MapUserView(sys: Sys, lv: Levels, r: nat, w: Vpn, f: nat, fl: Flags, s: nat, v: Vpn)
    requires Shaped(sys, lv) && Isolated(sys) && SmallPages(sys) && IsUser(sys, r, w) && Live(sys, s)
    ensures var (st', ok) := MapPage(sys.st, r, w, f, fl);
      View(st'.mem, s, v) ==
        if s == r && v == w && ok then (if fl.present then Some(Mapping(f, fl.writable, fl.user, fl.nx)) else None)
        else View(sys.st.mem, s, v)
  {
    hide MapPage, View, LeafAt, ViaPml4e, OnLargePage, OnGigPage;
    assert Live(sys, r);
    var lv' := MapPageRefines(sys.st, lv, r, w, f, fl);
    var st' := MapPage(sys.st, r, w, f, fl).0;
    MapPageViews(sys.st, lv, r, w, f, fl, s, v);
    assert Broken(sys.st, r, w).None?;
    if s != r {
      assert Apart(sys.st.mem, r, w, s, v);
      NewSlotApart(sys.st, lv, st', lv', r, w, s, v);
    } else {
      assert IsTree(st'.mem, r);
    }
  }

  lemma NewSlotApart(st: State, lv: Levels, st': State, lv': Levels, r: nat, w: Vpn, s: nat, v: Vpn)
    requires Valid(st, lv) && Confined(st, lv, st', lv', r, w)
    requires IsRoot(st.mem, lv, s) && IsRoot(st.mem, lv, r) && Apart(st.mem, r, w, s, v)
    ensures !SameSlot(st'.mem, s, v, r, w)
  {
    hide ViaPml4e, IsTree, OnLargePage;
    ApartUnaffected(st, lv, st', lv', r, w, s, v);
    WalkLevels(st.mem, lv, s, v);
    forall t | Pt(st.mem, s, v) == Some(t) ensures !Touches(st'.mem, r, w, t) {
      assert Touches(st.mem, s, v, t) && t in st.mem;
    }
  }

  lemma UnmapUserView(sys: Sys, lv: Levels, r: nat, w: Vpn, s: nat, v: Vpn)
    requires Shaped(sys, lv) && Isolated(sys) && SmallPages(sys) && IsUser(sys, r, w) && Live(sys, s)
    ensures View(UnmapPage(sys.st, r, w).mem, s, v) == if s == r && v == w then None else View(sys.st.mem, s, v)
  {
    hide UnmapPage, View, ViaPml4e, OnLargePage;
    assert Live(sys, r);
    UnmapPageViews(sys.st, lv, r, w, s, v);
    if s != r {
      assert Apart(sys.st.mem, r, w, s, v);
      assert SameSlot(sys.st.mem, s, v, r, w) ==> Touches(sys.st.mem, s, v, Pt(sys.st.mem, s, v).value);
    } else {
      assert IsTree(sys.st.mem, r);
      if v == w && Pt(sys.st.mem, r, w).None? {
        NoPtNoView(sys.st.mem, r, w);
      }
    }
  }

  lemma NoPtNoView(m: Memory, r: nat, w: Vpn)
    requires !OnLargePage(m, r, w) && Pt(m, r, w).None?
    ensures View(m, r, w).None?
  {
  }

  /** A change to one user page that at most installs a fresh frame keeps ownership. */
  lemma UpdateKeepsOwned(sys: Sys, sys': Sys, r: nat, w: Vpn)
    requires Backed(sys) && OwnedOnce(sys)
    requires sys'.procs == sys.procs && sys.handed <= sys'.handed
    requires forall s, v :: IsUser(sys, s, v) && !(s == r && v == w) ==>
               Translate(sys'.st.mem, s, v) == Translate(sys.st.mem, s, v)
    requires IsUser(sys, r, w) ==>
             var to := Translate(sys'.st.mem, r, w);
             to.None? || to == Translate(sys.st.mem, r, w) || (to.value in sys'.handed && to.value !in sys.handed)
    ensures Backed(sys') && OwnedOnce(sys')
  {
    assert forall s, v :: IsUser(sys', s, v) <==> IsUser(sys, s, v);
  }

  lemma MapUserKeepsInv(sys: Sys, lv: Levels, r: nat, w: Vpn, f: nat, fl: Flags) returns (lv': Levels)
    requires Inv(sys, lv) && Allowed(sys, MapUser(r, w, f, fl))
    ensures Inv(Step(sys, MapUser(r, w, f, fl)), lv')
  {
    assert Live(sys, r);
    lv' := MapPageRefines(sys.st, lv, r, w, f, fl);
    var st' := MapPage(sys.st, r, w, f, fl).0;
    var sys' := Step(sys, MapUser(r, w, f, fl));
    forall s, v | IsUser(sys, s, v) && !(s == r && v == w)
      ensures Translate(st'.mem, s, v) == Translate(sys.st.mem, s, v)
    {
      assert Live(sys, s);
      MapUserTranslation(sys, lv, r, w, f, fl, s, v);
    }
    MapUserTranslation(sys, lv, r, w, f, fl, r, w);
    UpdateKeepsOwned(sys, sys', r, w);
    WriteKeepsAll(sys, lv, st', lv', r, w, sys');
  }

  lemma WriteKeepsAll(sys: Sys, lv: Levels, st': State, lv': Levels, r: nat, w: Vpn, sys': Sys)
    requires Shaped(sys, lv) && Isolated(sys) && SmallPages(sys)
    requires IsUser(sys, r, w) || r == sys.kernel
    requires Confined(sys.st, lv, st', lv', r, w) && NoNewLarge(sys.st.mem, st'.mem, lv)
    requires sys'.st == st' && sys'.kernel == sys.kernel && sys'.procs == sys.procs
    ensures Shaped(sys', lv') && Isolated(sys') && SmallPages(sys')
  {
    var mid := sys.(st := st');
    WriteKeepsShaped(sys, lv, st', lv', r, w);
    WriteKeepsIsolated(sys, lv, st', lv', r, w);
    WriteKeepsSmallPages(sys, lv, st');
    assert forall s :: Live(sys', s) <==> Live(mid, s);
    assert forall s, v :: IsUser(sys', s, v) <==> IsUser(mid, s, v);
  }

  lemma UnmapUserTranslation(sys: Sys, lv: Levels, r: nat, w: Vpn, s: nat, v: Vpn)
    requires Shaped(sys, lv) && Isolated(sys) && SmallPages(sys) && IsUser(sys, r, w) && Live(sys, s)
    ensures Translate(UnmapPage(sys.st, r, w).mem, s, v) ==
            if s == r && v == w then None else Translate(sys.st.mem, s, v)
  {
    assert Live(sys, r);
    if s == r {
      UnmapPageInTree(sys.st, lv, r, w, v);
    } else {
      UnmapPageRefines(sys.st, lv, r, w);
      assert Apart(sys.st.mem, r, w, s, v);
      ApartUnaffected(sys.st, lv, UnmapPage(sys.st, r, w), lv, r, w, s, v);
    }
  }

  lemma UnmapUserKeepsInv(sys: Sys, lv: Levels, r: nat, w: Vpn)
    requires Inv(sys, lv) && Allowed(sys, UnmapUser(r, w))
    ensures Inv(Step(sys, UnmapUser(r, w)), lv)
  {
    assert Live(sys, r);
    UnmapPageRefines(sys.st, lv, r, w);
    var sys' := Step(sys, UnmapUser(r, w));
    forall s, v | IsUser(sys, s, v)
      ensures Translate(sys'.st.mem, s, v) == if s == r && v == w then None else Translate(sys.st.mem, s, v)
    {
      assert Live(sys, s);
      UnmapUserTranslation(sys, lv, r, w, s, v);
    }
    UpdateKeepsOwned(sys, sys', r, w);
    WriteKeepsAll(sys, lv, sys'.st, lv, r, w, sys');
  }

  lemma MapKernelKeepsInv(sys: Sys, lv: Levels, w: Vpn, f: nat, fl: Flags) returns (lv': Levels)
    requires Inv(sys, lv)
    ensures Inv(Step(sys, MapKernel(w, f, fl)), lv')
  {
    var k := sys.kernel;
    assert Live(sys, k);
    lv' := MapPageRefines(sys.st, lv, k, w, f, fl);
    var sys' := Step(sys, MapKernel(w, f, fl));
    forall s, v | IsUser(sys, s, v) ensures Translate(sys'.st.mem, s, v) == Translate(sys.st.mem, s, v) {
      assert Live(sys, s);
      assert Apart(sys.st.mem, s, v, k, w);
      ApartUnaffected(sys.st, lv, sys'.st, lv', k, w, s, v);
    }
    UpdateKeepsOwned(sys, sys', k, w);
    WriteKeepsAll(sys, lv, sys'.st, lv', k, w, sys');
  }

  /** The user walks of a new root pass through new tables only, and end nowhere. */
  lemma NewUserWalk(m: Memory, lv: Levels, m': Memory, k: nat, r: nat, q: nat, d: nat, u: Vpn)
    requires WellFormed(m, lv) && IsRoot(m, lv, k) && PrivateCopy(m, m', k, r, q, d)
    requires !LowGigIsLeaf(m, k) && UserPage(u, GigIsFree(m, k, 1))
    ensures Translate(m', r, u).None? && !OnLargePage(m', r, u)
    ensures forall t :: Touches(m', r, u, t) ==> t !in m
  {
    CopyWalk(m, lv, m', k, r, q, d, u);
    assert Get(m', r, 255) == ABSENT;
  }

  /** A walk of the new root passes through new tables and the kernel's for the same page. */
  lemma NewWalkTouches(m: Memory, lv: Levels, m': Memory, k: nat, r: nat, q: nat, d: nat, v: Vpn, t: nat)
    requires WellFormed(m, lv) && IsRoot(m, lv, k) && PrivateCopy(m, m', k, r, q, d)
    requires Touches(m', r, v, t) && t in m
    ensures Touches(m, k, v, t)
  {
    CopyWalk(m, lv, m', k, r, q, d, v);
  }

  lemma OldTouchesKept(m: Memory, lv: Levels, m': Memory, s: nat, v: Vpn, t: nat)
    requires WellFormed(m, lv) && IsRoot(m, lv, s)
    requires forall x :: x in m ==> x in m' && m'[x] == m[x]
    requires Touches(m', s, v, t)
    ensures Touches(m, s, v, t) && t in m
  {
    OldWalksKept(m, lv, m', s, v);
    WalkLevels(m, lv, s, v);
  }

  /** sys' is sys with a new process root n whose tables are a private copy. */
  ghost predicate Born(sys: Sys, sys': Sys, n: nat) {
    && PrivateCopy(sys.st.mem, sys'.st.mem, sys.kernel, n, n + 1, n + 2)
    && sys'.kernel == sys.kernel && sys'.handed == sys.handed
    && sys'.procs == sys.procs[n := GigIsFree(sys.st.mem, sys.kernel, 1)]
  }

  lemma NewbornApart(sys: Sys, lv: Levels, sys': Sys, n: nat, u: Vpn, s: nat, v: Vpn)
    requires Shaped(sys, lv) && Born(sys, sys', n) && IsUser(sys', n, u) && Live(sys, s)
    ensures Apart(sys'.st.mem, n, u, s, v)
  {
    var m, m', k := sys.st.mem, sys'.st.mem, sys.kernel;
    assert Live(sys, k);
    NewUserWalk(m, lv, m', k, n, n + 1, n + 2, u);
    OldWalksKept(m, lv, m', s, v);
    WalkLevels(m, lv, s, v);
  }

  lemma ApartFromNewborn(sys: Sys, lv: Levels, sys': Sys, n: nat, a: nat, u: Vpn, v: Vpn)
    requires Shaped(sys, lv) && Isolated(sys) && Born(sys, sys', n) && IsUser(sys, a, u)
    ensures Apart(sys'.st.mem, a, u, n, v)
  {
    var m, m', k := sys.st.mem, sys'.st.mem, sys.kernel;
    assert Live(sys, k) && Live(sys, a);
    assert Apart(m, a, u, k, v);
    forall t | Touches(m', a, u, t) ensures !Touches(m', n, v, t) {
      OldTouchesKept(m, lv, m', a, u, t);
      if Touches(m', n, v, t) {
        NewWalkTouches(m, lv, m', k, n, n + 1, n + 2, v, t);
      }
    }
  }

  lemma OldStayApart(sys: Sys, lv: Levels, sys': Sys, n: nat, a: nat, u: Vpn, s: nat, v: Vpn)
    requires Shaped(sys, lv) && Isolated(sys) && Born(sys, sys', n) && IsUser(sys, a, u) && Live(sys, s) && s != a
    ensures Apart(sys'.st.mem, a, u, s, v)
  {
    assert Live(sys, a);
    assert Apart(sys.st.mem, a, u, s, v);
    OldWalksKept(sys.st.mem, lv, sys'.st.mem, a, u);
    OldWalksKept(sys.st.mem, lv, sys'.st.mem, s, v);
    assert forall t :: Touches(sys'.st.mem, a, u, t) ==> Touches(sys.st.mem, a, u, t);
    assert forall t :: Touches(sys'.st.mem, s, v, t) ==> Touches(sys.st.mem, s, v, t);
  }

  lemma OldTreeKept(m: Memory, lv: Levels, m': Memory, s: nat)
    requires WellFormed(m, lv) && IsRoot(m, lv, s) && IsTree(m, s)
    requires forall t :: t in m ==> t in m' && m'[t] == m[t]
    ensures IsTree(m', s)
  {
    hide Pdpt, Pd, Pt, WellFormed;
    forall v ensures Pdpt(m', s, v) == Pdpt(m, s, v) && Pd(m', s, v) == Pd(m, s, v) && Pt(m', s, v) == Pt(m, s, v) {
      OldWalksKept(m, lv, m', s, v);
    }
  }

  lemma BornKeepsShaped(sys: Sys, lv: Levels, sys': Sys, n: nat) returns (lv': Levels)
    requires Shaped(sys, lv) && Born(sys, sys', n)
    requires sys'.st.base == sys.st.base && sys.st.next < sys'.st.next && n == sys.st.base + sys.st.next
    requires forall t :: t in sys'.st.mem ==> t in sys.st.mem || t < sys'.st.base + sys'.st.next
    ensures Shaped(sys', lv')
  {
    hide IsTree, LowGigIsLeaf, PrivateCopy;
    BornOldKept(sys, sys', n);
    var m, m', k := sys.st.mem, sys'.st.mem, sys.kernel;
    assert Live(sys, k);
    lv' := CopyLevels(m, m', lv, n, n + 1);
    CopyWellFormed(m, lv, m', k, n, n + 1, n + 2);
    CopyIsTree(m, lv, m', k, n, n + 1, n + 2);
    forall s | Live(sys', s) ensures IsRoot(m', lv', s) && IsTree(m', s) {
      assert s == n || Live(sys, s);
      if s != n {
        OldTreeKept(m, lv, m', s);
      }
    }
    OldGigKept(m, lv, m', k);
  }

  lemma BornOldKept(sys: Sys, sys': Sys, n: nat)
    requires Born(sys, sys', n)
    ensures forall t :: t in sys.st.mem ==> t in sys'.st.mem && sys'.st.mem[t] == sys.st.mem[t]
    ensures n in sys'.st.mem && n !in sys.st.mem
  {
  }

  lemma OldGigKept(m: Memory, lv: Levels, m': Memory, k: nat)
    requires WellFormed(m, lv) && IsRoot(m, lv, k)
    requires forall t :: t in m ==> t in m' && m'[t] == m[t]
    ensures LowGigIsLeaf(m', k) == LowGigIsLeaf(m, k)
  {
    WalkLevels(m, lv, k, Vpn(0, 0, 0, 0));
  }

  lemma BornKeepsOwned(sys: Sys, lv: Levels, sys': Sys, n: nat)
    requires Shaped(sys, lv) && SmallPages(sys) && Backed(sys) && OwnedOnce(sys) && Born(sys, sys', n)
    ensures SmallPages(sys') && Backed(sys') && OwnedOnce(sys')
  {
    var m, m', k := sys.st.mem, sys'.st.mem, sys.kernel;
    assert Live(sys, k);
    forall a, u | IsUser(sys', a, u)
      ensures a == n ==> Translate(m', a, u).None? && !OnLargePage(m', a, u)
      ensures a != n ==> IsUser(sys, a, u) && Translate(m', a, u) == Translate(m, a, u)
      ensures a != n ==> OnLargePage(m', a, u) == OnLargePage(m, a, u)
    {
      if a == n {
        NewUserWalk(m, lv, m', k, n, n + 1, n + 2, u);
      } else {
        assert Live(sys, a);
        OldWalksKept(m, lv, m', a, u);
        WalkLevels(m, lv, a, u);
      }
    }
  }

  lemma CreateKeepsInv(sys: Sys, lv: Levels) returns (lv': Levels)
    requires Inv(sys, lv)
    ensures Inv(Step(sys, Create), lv')
  {
    assert Live(sys, sys.kernel);
    var sys' := Step(sys, Create);
    var (st', c) := CreateProcess(sys.st, sys.kernel);
    match c {
      case Some(n) =>
        CreateProcessCopies(sys.st, lv, sys.kernel, st', n);
        lv' := BornKeepsInv(sys, lv, sys', n);
      case None =>
        lv' := CreateFailureHarmless(sys.st, lv, sys.kernel);
        LitterKeepsInv(sys, lv, sys', lv');
    }
  }

  lemma BornKeepsInv(sys: Sys, lv: Levels, sys': Sys, n: nat) returns (lv': Levels)
    requires Inv(sys, lv) && Born(sys, sys', n)
    requires sys'.st.base == sys.st.base && sys.st.next < sys'.st.next && n == sys.st.base + sys.st.next
    requires forall t :: t in sys'.st.mem ==> t in sys.st.mem || t < sys'.st.base + sys'.st.next
    ensures Inv(sys', lv')
  {
    lv' := BornKeepsShaped(sys, lv, sys', n);
    BornKeepsOwned(sys, lv, sys', n);
    forall a, u, s, v | IsUser(sys', a, u) && Live(sys', s) && s != a ensures Apart(sys'.st.mem, a, u, s, v) {
      if a == n {
        NewbornApart(sys, lv, sys', n, u, s, v);
      } else if s == n {
        ApartFromNewborn(sys, lv, sys', n, a, u, v);
      } else {
        OldStayApart(sys, lv, sys', n, a, u, s, v);
      }
    }
  }

  /** sys' has the same address spaces as sys, and more tables that nothing links to. */
  ghost predicate Littered(sys: Sys, lv: Levels, sys': Sys, lv': Levels) {
    && Valid(sys'.st, lv') && sys' == sys.(st := sys'.st)
    && (forall t :: t in lv ==> t in lv' && lv'[t] == lv[t])
    && (forall t :: t in sys.st.mem ==> t in sys'.st.mem && sys'.st.mem[t] == sys.st.mem[t])
  }

  lemma LitterWalk(sys: Sys, lv: Levels, sys': Sys, lv': Levels, s: nat, v: Vpn)
    requires Shaped(sys, lv) && Littered(sys, lv, sys', lv') && Live(sys, s)
    ensures var m, m' := sys.st.mem, sys'.st.mem;
      && Translate(m', s, v) == Translate(m, s, v)
      && Pdpt(m', s, v) == Pdpt(m, s, v) && Pd(m', s, v) == Pd(m, s, v) && Pt(m', s, v) == Pt(m, s, v)
      && OnLargePage(m', s, v) == OnLargePage(m, s, v) && OnGigPage(m', s, v) == OnGigPage(m, s, v)
  {
    OldWalksKept(sys.st.mem, lv, sys'.st.mem, s, v);
    WalkLevels(sys.st.mem, lv, s, v);
  }

  lemma LitterKeepsShaped(sys: Sys, lv: Levels, sys': Sys, lv': Levels)
    requires Shaped(sys, lv) && Littered(sys, lv, sys', lv')
    ensures Shaped(sys', lv')
  {
    forall s | Live(sys', s) ensures IsRoot(sys'.st.mem, lv', s) && IsTree(sys'.st.mem, s) {
      assert Live(sys, s);
      forall v
        ensures Pdpt(sys'.st.mem, s, v) == Pdpt(sys.st.mem, s, v)
        ensures Pd(sys'.st.mem, s, v) == Pd(sys.st.mem, s, v) && Pt(sys'.st.mem, s, v) == Pt(sys.st.mem, s, v)
      {
        LitterWalk(sys, lv, sys', lv', s, v);
      }
    }
    assert Live(sys, sys.kernel);
    LitterWalk(sys, lv, sys', lv', sys.kernel, Vpn(0, 0, 0, 0));
  }

  lemma LitterKeepsInv(sys: Sys, lv: Levels, sys': Sys, lv': Levels)
    requires Inv(sys, lv) && Littered(sys, lv, sys', lv')
    ensures Inv(sys', lv')
  {
    LitterKeepsShaped(sys, lv, sys', lv');
    forall a, u | IsUser(sys', a, u)
      ensures IsUser(sys, a, u) && Live(sys, a)
      ensures Translate(sys'.st.mem, a, u) == Translate(sys.st.mem, a, u)
      ensures OnLargePage(sys'.st.mem, a, u) == OnLargePage(sys.st.mem, a, u)
    {
      assert IsUser(sys, a, u) && Live(sys, a);
      LitterWalk(sys, lv, sys', lv', a, u);
    }
    forall a, u, s, v | IsUser(sys', a, u) && Live(sys', s) && s != a ensures Apart(sys'.st.mem, a, u, s, v) {
      assert IsUser(sys, a, u) && Live(sys, a) && Live(sys, s);
      assert Apart(sys.st.mem, a, u, s, v);
      LitterWalk(sys, lv, sys', lv', a, u);
      LitterWalk(sys, lv, sys', lv', s, v);
      assert forall t :: Touches(sys'.st.mem, a, u, t) ==> Touches(sys.st.mem, a, u, t);
      assert forall t :: Touches(sys'.st.mem, s, v, t) ==> Touches(sys.st.mem, s, v, t);
    }
  }

  // ----- whole runs -----

  function Run(sys: Sys, ops: seq<Op>): (r: Sys)
    decreases |ops|
  {
    if ops == [] then sys else Run(Step(sys, ops[0]), ops[1..])
  }

  predicate AllAllowed(sys: Sys, ops: seq<Op>)
    decreases |ops|
  {
    ops == [] || (Allowed(sys, ops[0]) && AllAllowed(Step(sys, ops[0]), ops[1..]))
  }

  lemma StepKeepsInv(sys: Sys, lv: Levels, op: Op) returns (lv': Levels)
    requires Inv(sys, lv) && Allowed(sys, op)
    ensures Inv(Step(sys, op), lv')
  {
    match op {
      case Create => lv' := CreateKeepsInv(sys, lv);
      case MapUser(r, u, f, fl) => lv' := MapUserKeepsInv(sys, lv, r, u, f, fl);
      case UnmapUser(r, u) => UnmapUserKeepsInv(sys, lv, r, u); lv' := lv;
      case MapKernel(u, f, fl) => lv' := MapKernelKeepsInv(sys, lv, u, f, fl);
    }
  }

  /** In every state any run reaches: trees, private user tables, and no frame owned twice. */
  lemma {:induction false} RunKeepsInv(sys: Sys, lv: Levels, ops: seq<Op>) returns (lv': Levels)
    requires Inv(sys, lv) && AllAllowed(sys, ops)
    ensures Inv(Run(sys, ops), lv')
    decreases |ops|
  {
    lv' := lv;
    if ops != [] {
      var l1 := StepKeepsInv(sys, lv, ops[0]);
      lv' := RunKeepsInv(Step(sys, ops[0]), l1, ops[1..]);
    }
  }

  /** The operation acts on an address space other than s: it is a process creation, or maps
      or unmaps user pages of another process. */
  predicate Elsewhere(op: Op, s: nat) {
    match op
    case Create => true
    case MapUser(r, _, _, _) => r != s
    case UnmapUser(r, _) => r != s
    case MapKernel(_, _, _) => false
  }

  lemma StepElsewhere(sys: Sys, lv: Levels, op: Op, s: nat, v: Vpn)
    requires Inv(sys, lv) && Allowed(sys, op) && Live(sys, s) && Elsewhere(op, s)
    ensures Translate(Step(sys, op).st.mem, s, v) == Translate(sys.st.mem, s, v)
    ensures Live(Step(sys, op), s)
  {
    match op {
      case Create =>
        assert Live(sys, sys.kernel);
        var (st', c) := CreateProcess(sys.st, sys.kernel);
        if c.Some? {
          CreateProcessCopies(sys.st, lv, sys.kernel, st', c.value);
        } else {
          var lv' := CreateFailureHarmless(sys.st, lv, sys.kernel);
        }
        OldWalksKept(sys.st.mem, lv, st'.mem, s, v);
      case MapUser(r, u, f, fl) => MapUserTranslation(sys, lv, r, u, f, fl, s, v);
      case UnmapUser(r, u) => UnmapUserTranslation(sys, lv, r, u, s, v);
    }
  }

  /** Isolation: whatever other processes create, map and unmap, the translations of an
      address space (a process's or the kernel's) stay as they were. */
  lemma {:induction false} RunElsewhere(sys: Sys, lv: Levels, ops: seq<Op>, s: nat, v: Vpn)
    requires Inv(sys, lv) && AllAllowed(sys, ops) && Live(sys, s)
    requires forall i :: 0 <= i < |ops| ==> Elsewhere(ops[i], s)
    ensures Translate(Run(sys, ops).st.mem, s, v) == Translate(sys.st.mem, s, v)
    decreases |ops|
  {
    if ops != [] {
      StepElsewhere(sys, lv, ops[0], s, v);
      var l1 := StepKeepsInv(sys, lv, ops[0]);
      RunElsewhere(Step(sys, ops[0]), l1, ops[1..], s, v);
    }
  }
}
