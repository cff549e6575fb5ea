// What a page looks like to whoever uses it: the frame it leads to and the permissions of the entry
// that maps it. Every mapping operation as its effect on these views, in every address space.

module PageViews {
  import opened Options
  import opened PageTables
  import opened PageEdits
  import opened Mapper

  /** A mapped page: its frame and the writable, user and no-execute bits of its leaf. */
  datatype Mapping = Mapping(frame: nat, writable: bool, user: bool, nx: bool)

  /** A table and the index of an entry in it. */
  type Place = (nat, Index)

  function View(m: Memory, r: nat, u: Vpn): (v: Option<Mapping>) {
    var e4 := Get(m, r, u.i4);
    if !e4.present then None else
    var e3 := Get(m, e4.frame, u.i3);
    if !e3.present then None else
    if e3.ps then Some(Mapping(AlignDown(e3.frame, 262144) + u.i2 * 512 + u.i1, e3.writable, e3.user, e3.nx)) else
    var e2 := Get(m, e3.frame, u.i2);
    if !e2.present then None else
    if e2.ps then Some(Mapping(AlignDown(e2.frame, 512) + u.i1, e2.writable, e2.user, e2.nx)) else
    var e1 := Get(m, e2.frame, u.i1);
    if e1.present then Some(Mapping(e1.frame, e1.writable, e1.user, e1.nx)) else None
  }

  /** Where the leaf of page u is. */
  function LeafAt(m: Memory, r: nat, u: Vpn): (p: Option<Place>) {
    var e4 := Get(m, r, u.i4);
    if !e4.present then None else
    var e3 := Get(m, e4.frame, u.i3);
    if !e3.present then None else if e3.ps then Some((e4.frame, u.i3)) else
    var e2 := Get(m, e3.frame, u.i2);
    if !e2.present then None else if e2.ps then Some((e3.frame, u.i2)) else
    if Get(m, e2.frame, u.i1).present then Some((e2.frame, u.i1)) else None
  }

  /** Views agree with the walk: same pages, same frames, and the bits of the entry found. */
  lemma ViewIs(m: Memory, r: nat, u: Vpn)
    ensures View(m, r, u).Some? <==> Translate(m, r, u).Some?
    ensures View(m, r, u).Some? <==> WalkPte(m, r, u).Some?
    ensures View(m, r, u).Some? <==> LeafAt(m, r, u).Some?
    ensures View(m, r, u).Some? ==>
      var v, e := View(m, r, u).value, WalkPte(m, r, u).value;
      && Translate(m, r, u) == Some(v.frame) && v.writable == e.writable && v.user == e.user && v.nx == e.nx
  {
  }

  /** What a split does to the pages of the large page: they lose no-execute and gain user access. */
  function Raised(v: Option<Mapping>): Option<Mapping> {
    if v.None? then None else Some(v.value.(user := true, nx := false))
  }

  /** From m to m' the pages of the leaf at `at` were raised and all others look as before. */
  ghost predicate Reviewed(m: Memory, m': Memory, lv: Levels, at: Option<Place>) {
    forall r, u :: IsRoot(m, lv, r) ==>
      View(m', r, u) == if at.Some? && LeafAt(m, r, u) == at then Raised(View(m, r, u)) else View(m, r, u)
  }

  /** From m to m' the pages of the leaf at `at` got leaves in new tables and all others kept theirs. */
  ghost predicate Moved(m: Memory, m': Memory, lv: Levels, at: Option<Place>) {
    forall r, u :: IsRoot(m, lv, r) ==>
      if at.Some? && LeafAt(m, r, u) == at then LeafAt(m', r, u).Some? && LeafAt(m', r, u).value.0 !in m
      else LeafAt(m', r, u) == LeafAt(m, r, u)
  }

  /** A link that takes no permission away. */
  predicate Open(e: Entry) {
    e.writable && e.user && !e.nx
  }

  /** All links on the walk of u are open, so that the leaf alone decides what may be done. */
  predicate OpenWalk(m: Memory, r: nat, u: Vpn) {
    var e4 := Get(m, r, u.i4);
    e4.present ==>
      && Open(e4)
      && var e3 := Get(m, e4.frame, u.i3);
      e3.present && !e3.ps ==>
        && Open(e3)
        && var e2 := Get(m, e3.frame, u.i2);
        e2.present && !e2.ps ==> Open(e2)
  }

  ghost predicate OpenKept(m: Memory, m': Memory, lv: Levels) {
    forall r, u :: IsRoot(m, lv, r) && OpenWalk(m, r, u) ==> OpenWalk(m', r, u)
  }

  ghost predicate Splits(m: Memory, m': Memory, lv: Levels, at: Option<Place>) {
    Reviewed(m, m', lv, at) && Moved(m, m', lv, at) && OpenKept(m, m', lv)
  }

  lemma LeafInTables(m: Memory, lv: Levels, r: nat, u: Vpn)
    requires WellFormed(m, lv) && IsRoot(m, lv, r)
    ensures LeafAt(m, r, u).Some? ==> LeafAt(m, r, u).value.0 in m
  {
  }

  /** What may be done with a page: every level of the walk must allow it. */
  function Effective(m: Memory, r: nat, u: Vpn): Option<Mapping>
    requires View(m, r, u).Some?
  {
    var v, e4 := View(m, r, u).value, Get(m, r, u.i4);
    var e3 := Get(m, e4.frame, u.i3);
    var e2 := Get(m, e3.frame, u.i2);
    var second := if e3.ps then Entry(true, true, true, false, false, 0) else e3;
    var third := if e3.ps || e2.ps then Entry(true, true, true, false, false, 0) else e2;
    Some(Mapping(v.frame,
                 v.writable && e4.writable && second.writable && third.writable,
                 v.user && e4.user && second.user && third.user,
                 v.nx || e4.nx || second.nx || third.nx))
  }

  /** With open links the view says what may be done. */
  lemma OpenMeansLeaf(m: Memory, r: nat, u: Vpn)
    requires View(m, r, u).Some? && OpenWalk(m, r, u)
    ensures Effective(m, r, u) == View(m, r, u)
  {
    hide AlignDown;
  }

  // ----- the edits -----

  /** The table holds the pieces of what the entry mapped. */
  ghost predicate PiecesOf(l: nat, was: Entry, table: Table) {
    || (!was.present && forall j: Index :: !table[j].present)
    || (was.present && was.ps && l == 3 && forall j: Index ::
          && table[j].present && table[j].ps && table[j].writable == was.writable && table[j].user && !table[j].nx
          && AlignDown(table[j].frame, 512) == AlignDown(was.frame, 262144) + j * 512)
    || (was.present && was.ps && l == 2 && forall j: Index ::
          && table[j].present && table[j].writable == was.writable && table[j].user && !table[j].nx
          && table[j].frame == AlignDown(was.frame, 512) + j)
  }

  lemma GraftView(m: Memory, lv: Levels, p: nat, i: Index, e: Entry, n: nat, table: Table, r: nat, u: Vpn)
    requires WellFormed(m, lv) && p in m && n !in m && e.present && !e.ps && e.frame == n && Open(e) && 2 <= lv[p]
    requires !IsLink(lv[p], m[p][i]) && PiecesOf(lv[p], m[p][i], table) && IsRoot(m, lv, r)
    ensures var m' := Graft(m, p, i, e, n, table); var here := LeafAt(m, r, u) == Some((p, i));
      && View(m', r, u) == (if here then Raised(View(m, r, u)) else View(m, r, u))
      && (if here then LeafAt(m', r, u).Some? && LeafAt(m', r, u).value.0 == n else LeafAt(m', r, u) == LeafAt(m, r, u))
      && (OpenWalk(m, r, u) ==> OpenWalk(m', r, u))
  {
    hide AlignDown;
    WalkLevels(m, lv, r, u);
  }

  lemma MarkView(m: Memory, lv: Levels, p: nat, i: Index, r: nat, u: Vpn)
    requires WellFormed(m, lv) && p in m && IsLink(lv[p], m[p][i]) && IsRoot(m, lv, r)
    ensures var m' := Patch(m, p, i, m[p][i].(user := true));
      && View(m', r, u) == View(m, r, u) && LeafAt(m', r, u) == LeafAt(m, r, u)
      && (OpenWalk(m, r, u) ==> OpenWalk(m', r, u))
  {
    hide AlignDown;
    WalkLevels(m, lv, r, u);
  }

  lemma MarkSplits(st: State, lv: Levels, user: bool, p: nat, i: Index)
    requires WellFormed(st.mem, lv) && p in st.mem && IsLink(lv[p], st.mem[p][i])
    ensures Splits(st.mem, MarkUserIf(st, user, p, i).mem, lv, None)
  {
    hide View, LeafAt, OpenWalk;
    forall r, u | IsRoot(st.mem, lv, r)
      ensures View(MarkUserIf(st, user, p, i).mem, r, u) == View(st.mem, r, u)
      ensures LeafAt(MarkUserIf(st, user, p, i).mem, r, u) == LeafAt(st.mem, r, u)
      ensures OpenWalk(st.mem, r, u) ==> OpenWalk(MarkUserIf(st, user, p, i).mem, r, u)
    {
      MarkView(st.mem, lv, p, i, r, u);
    }
  }

  lemma AttachSplits(st: State, lv: Levels, p: nat, i: Index, table: Table)
    requires Valid(st, lv) && p in st.mem && 2 <= lv[p] && !IsLink(lv[p], st.mem[p][i])
    requires PiecesOf(lv[p], st.mem[p][i], table)
    ensures Splits(st.mem, Attach(st, p, i, table).0.mem, lv, if HasSpace(st) then Some((p, i)) else None)
  {
    hide View, LeafAt, PiecesOf, OpenWalk;
    if HasSpace(st) {
      var n := st.base + st.next;
      forall r, u | IsRoot(st.mem, lv, r)
        ensures var m', here := Attach(st, p, i, table).0.mem, LeafAt(st.mem, r, u) == Some((p, i));
          && View(m', r, u) == (if here then Raised(View(st.mem, r, u)) else View(st.mem, r, u))
          && (if here then LeafAt(m', r, u).Some? && LeafAt(m', r, u).value.0 !in st.mem
              else LeafAt(m', r, u) == LeafAt(st.mem, r, u))
          && (OpenWalk(st.mem, r, u) ==> OpenWalk(m', r, u))
      {
        GraftView(st.mem, lv, p, i, LinkTo(n), n, table, r, u);
      }
    }
  }

  /** No page has its leaf where an entry is absent. */
  lemma AbsentIsNoLeaf(m: Memory, lv: Levels, p: nat, i: Index, r: nat, u: Vpn)
    requires WellFormed(m, lv) && IsRoot(m, lv, r) && p in m && !m[p][i].present
    ensures LeafAt(m, r, u) != Some((p, i))
  {
  }

  lemma AbsentSplitsNothing(m: Memory, m': Memory, lv: Levels, p: nat, i: Index)
    requires WellFormed(m, lv) && p in m && !m[p][i].present && Splits(m, m', lv, Some((p, i)))
    ensures Splits(m, m', lv, None)
  {
    hide View, LeafAt, OpenWalk;
    forall r, u | IsRoot(m, lv, r)
      ensures View(m', r, u) == View(m, r, u) && LeafAt(m', r, u) == LeafAt(m, r, u)
    {
      AbsentIsNoLeaf(m, lv, p, i, r, u);
    }
  }

  /** A step that raises nothing, then one that may. */
  lemma SplitsAfterNone(m0: Memory, l0: Levels, m1: Memory, l1: Levels, m2: Memory, at: Option<Place>)
    requires Splits(m0, m1, l0, None) && Splits(m1, m2, l1, at)
    requires forall t :: t in m0 ==> t in m1
    requires forall r :: IsRoot(m0, l0, r) ==> IsRoot(m1, l1, r)
    ensures Splits(m0, m2, l0, at)
  {
    hide View, LeafAt, OpenWalk;
  }

  /** A split, then one of a piece of it or of nothing. */
  lemma SplitsTwice(m0: Memory, l0: Levels, m1: Memory, l1: Levels, m2: Memory, at: Option<Place>, then2: Option<Place>)
    requires WellFormed(m0, l0)
    requires Splits(m0, m1, l0, at) && Splits(m1, m2, l1, then2)
    requires then2.Some? ==> at.Some? && then2.value.0 !in m0
    requires forall t :: t in m0 ==> t in m1
    requires forall r :: IsRoot(m0, l0, r) ==> IsRoot(m1, l1, r)
    ensures Splits(m0, m2, l0, at)
  {
    hide View, LeafAt, OpenWalk;
    forall r, u | IsRoot(m0, l0, r)
      ensures var here := at.Some? && LeafAt(m0, r, u) == at;
        && View(m2, r, u) == (if here then Raised(View(m0, r, u)) else View(m0, r, u))
        && (if here then LeafAt(m2, r, u).Some? && LeafAt(m2, r, u).value.0 !in m0
            else LeafAt(m2, r, u) == LeafAt(m0, r, u))
    {
      LeafInTables(m0, l0, r, u);
      assert IsRoot(m1, l1, r);
    }
  }

  // ----- growing the tree -----

  lemma SplitPieces(e: Entry)
    requires e.present && e.ps
    ensures PiecesOf(3, e, Split1G(e)) && PiecesOf(2, e, Split2M(e))
  {
    hide AlignDown;
    forall j: Index ensures AlignDown(Split1G(e)[j].frame, 512) == AlignDown(e.frame, 262144) + j * 512 {
      SplitAligned(e.frame, j);
    }
  }

  lemma EnsurePdptSplits(st: State, lv: Levels, root: nat, i: Index)
    requires Valid(st, lv) && IsRoot(st.mem, lv, root)
    ensures Splits(st.mem, EnsurePdpt(st, root, i).0.mem, lv, None)
  {
    hide Splits;
    if Get(st.mem, root, i).present {
      MarkSplits(st, lv, true, root, i);
    } else {
      AttachSplits(st, lv, root, i, EmptyTable());
      if HasSpace(st) {
        AbsentSplitsNothing(st.mem, EnsurePdpt(st, root, i).0.mem, lv, root, i);
      }
    }
  }

  /** The leaf that EnsurePd or EnsurePt splits at entry i of table p. */
  function SplitAt(st: State, p: nat, i: Index): Option<Place> {
    var e := Get(st.mem, p, i);
    if e.present && e.ps && HasSpace(st) then Some((p, i)) else None
  }

  lemma EnsurePdSplits(st: State, lv: Levels, p: nat, i: Index)
    requires Valid(st, lv) && p in st.mem && lv[p] == 3
    ensures Splits(st.mem, EnsurePd(st, p, i).0.mem, lv, SplitAt(st, p, i))
  {
    hide Splits, Split1G, Split2M;
    var e := Get(st.mem, p, i);
    if !e.present {
      AttachSplits(st, lv, p, i, EmptyTable());
      if HasSpace(st) {
        AbsentSplitsNothing(st.mem, EnsurePd(st, p, i).0.mem, lv, p, i);
      }
    } else if !e.ps {
      MarkSplits(st, lv, true, p, i);
    } else {
      SplitPieces(e);
      AttachSplits(st, lv, p, i, Split1G(e));
    }
  }

  lemma EnsurePtSplits(st: State, lv: Levels, p: nat, i: Index)
    requires Valid(st, lv) && p in st.mem && lv[p] == 2
    ensures Splits(st.mem, EnsurePt(st, p, i).0.mem, lv, SplitAt(st, p, i))
  {
    hide Splits, Split1G, Split2M;
    var e := Get(st.mem, p, i);
    if !e.present {
      AttachSplits(st, lv, p, i, EmptyTable());
      if HasSpace(st) {
        AbsentSplitsNothing(st.mem, EnsurePt(st, p, i).0.mem, lv, p, i);
      }
    } else if !e.ps {
      MarkSplits(st, lv, true, p, i);
    } else {
      SplitPieces(e);
      AttachSplits(st, lv, p, i, Split2M(e));
    }
  }

  /** The leaf of the large page over w, when there is a table left to split it with. */
  function Broken(st: State, root: nat, w: Vpn): Option<Place> {
    if OnLargePage(st.mem, root, w) && HasSpace(st) then LeafAt(st.mem, root, w) else None
  }

  /** The same for a 1 GB page. */
  function GigBroken(st: State, root: nat, w: Vpn): Option<Place> {
    if OnGigPage(st.mem, root, w) && HasSpace(st) then LeafAt(st.mem, root, w) else None
  }

  lemma ReachPdptSplits(st: State, lv: Levels, root: nat, w: Vpn, user: bool)
    requires Valid(st, lv) && IsRoot(st.mem, lv, root)
    ensures Splits(st.mem, ReachPdpt(st, root, w, user).0.mem, lv, None)
  {
    hide Splits, EnsurePdpt, NoNewLarge, SameTranslations, ViaPml4e, IsTree, LinksKept, MarkUserIf;
    EnsurePdptSplits(st, lv, root, w.i4);
    var (s, c) := EnsurePdpt(st, root, w.i4);
    if c.Some? {
      var l1 := EnsurePdptGrows(st, lv, root, w);
      RootsKept(st, lv, s, l1, root, w);
      MarkSplits(s, l1, user, root, w.i4);
      SplitsAfterNone(st.mem, lv, s.mem, l1, MarkUserIf(s, user, root, w.i4).mem, None);
    }
  }

  /** What the walk down to the PDPT leaves as it was. */
  lemma ReachPdptKeeps(st: State, lv: Levels, root: nat, w: Vpn, user: bool, s: State, p: nat)
    requires Valid(st, lv) && IsRoot(st.mem, lv, root)
    requires ReachPdpt(st, root, w, user) == (s, Some(p))
    ensures SplitAt(s, p, w.i3) == GigBroken(st, root, w)
  {
    hide ReachPdpt, ViaPml4e, IsTree;
    PdptTaken(st, lv, root, w, user);
    WalkLevels(st.mem, lv, root, w);
    assert (s, Some(p)).1 == Some(p);
    if Pdpt(st.mem, root, w).Some? {
      assert Get(s.mem, p, w.i3) == Get(st.mem, p, w.i3);
    }
  }

  lemma ReachPdSplits(st: State, lv: Levels, root: nat, w: Vpn, user: bool)
    requires Valid(st, lv) && IsRoot(st.mem, lv, root)
    ensures Splits(st.mem, ReachPd(st, root, w, user).0.mem, lv, GigBroken(st, root, w))
  {
    hide Splits, ReachPdpt, EnsurePd, NoNewLarge, SameTranslations, ViaPml4e, IsTree, LinksKept, MarkUserIf;
    ReachPdptSplits(st, lv, root, w, user);
    var (s, p) := ReachPdpt(st, root, w, user);
    if p.Some? {
      ReachPdptKeeps(st, lv, root, w, user, s, p.value);
      var l1 := ReachPdptGrows(st, lv, root, w, user);
      RootsKept(st, lv, s, l1, root, w);
      WalkLevels(s.mem, l1, root, w);
      EnsurePdSplits(s, l1, p.value, w.i3);
      var (s', c) := EnsurePd(s, p.value, w.i3);
      SplitsAfterNone(st.mem, lv, s.mem, l1, s'.mem, GigBroken(st, root, w));
      if c.Some? {
        var l2 := EnsurePdGrows(s, l1, root, w, p.value);
        RootsKept(s, l1, s', l2, root, w);
        WalkLevels(s'.mem, l2, root, w);
        MarkSplits(s', l2, user, p.value, w.i3);
        SplitsTwice(st.mem, lv, s'.mem, l2, MarkUserIf(s', user, p.value, w.i3).mem, GigBroken(st, root, w), None);
      }
    } else {
      PdptTaken(st, lv, root, w, user);
    }
  }

  lemma ReachPdKeeps(st: State, lv: Levels, root: nat, w: Vpn, user: bool, s: State, p: nat)
    requires Valid(st, lv) && IsRoot(st.mem, lv, root)
    requires ReachPd(st, root, w, user) == (s, Some(p))
    ensures !OnGigPage(st.mem, root, w) ==> SplitAt(s, p, w.i2) == Broken(st, root, w)
    ensures OnGigPage(st.mem, root, w) ==> p !in st.mem && HasSpace(st)
  {
    hide ReachPdpt, ViaPml4e, IsTree, AlignDown;
    PdptTaken(st, lv, root, w, user);
    WalkLevels(st.mem, lv, root, w);
    var (s0, q) := ReachPdpt(st, root, w, user);
    if Pdpt(st.mem, root, w).Some? {
      assert Get(s0.mem, q.value, w.i3) == Get(st.mem, q.value, w.i3);
      if Pd(st.mem, root, w).Some? {
        assert Get(s.mem, p, w.i2) == Get(st.mem, p, w.i2) && s.next == st.next;
      }
    }
  }

  lemma ReachPtSplits(st: State, lv: Levels, root: nat, w: Vpn, user: bool)
    requires Valid(st, lv) && IsRoot(st.mem, lv, root)
    ensures Splits(st.mem, ReachPt(st, root, w, user).0.mem, lv, Broken(st, root, w))
  {
    hide Splits, ReachPd, EnsurePt, NoNewLarge, SameTranslations, ViaPml4e, IsTree, LinksKept, MarkUserIf, LeafAt;
    ReachPdSplits(st, lv, root, w, user);
    var (s, p) := ReachPd(st, root, w, user);
    if p.Some? {
      ReachPdKeeps(st, lv, root, w, user, s, p.value);
      var l1 := ReachPdGrows(st, lv, root, w, user);
      RootsKept(st, lv, s, l1, root, w);
      WalkLevels(s.mem, l1, root, w);
      EnsurePtSplits(s, l1, p.value, w.i2);
      var (s', c) := EnsurePt(s, p.value, w.i2);
      if OnGigPage(st.mem, root, w) {
        GigHasLeaf(st.mem, root, w);
        SplitsTwice(st.mem, lv, s.mem, l1, s'.mem, GigBroken(st, root, w), SplitAt(s, p.value, w.i2));
      } else {
        SplitsAfterNone(st.mem, lv, s.mem, l1, s'.mem, Broken(st, root, w));
      }
      if c.Some? {
        var l2 := EnsurePtGrows(s, l1, root, w, Pdpt(s.mem, root, w).value, p.value);
        RootsKept(s, l1, s', l2, root, w);
        WalkLevels(s'.mem, l2, root, w);
        MarkSplits(s', l2, user, p.value, w.i2);
        SplitsTwice(st.mem, lv, s'.mem, l2, MarkUserIf(s', user, p.value, w.i2).mem, Broken(st, root, w), None);
      }
    } else {
      PdTaken(st, lv, root, w, user);
    }
  }

  lemma GigHasLeaf(m: Memory, r: nat, u: Vpn)
    requires OnLargePage(m, r, u)
    ensures LeafAt(m, r, u).Some?
  {
  }

  // ----- writing a leaf -----

  /** What flags and frame ask for. */
  function Asked(frame: nat, fl: Flags): Option<Mapping> {
    if fl.present then Some(Mapping(frame, fl.writable, fl.user, fl.nx)) else None
  }

  lemma PatchPteView(m: Memory, lv: Levels, p: nat, i: Index, frame: nat, fl: Flags, r: nat, u: Vpn)
    requires WellFormed(m, lv) && p in m && lv[p] == 1 && IsRoot(m, lv, r)
    ensures var m' := Patch(m, p, i, LeafEntry(frame, fl, false));
      && View(m', r, u) == (if Pt(m, r, u) == Some(p) && u.i1 == i then Asked(frame, fl) else View(m, r, u))
      && (!(Pt(m, r, u) == Some(p) && u.i1 == i) ==> LeafAt(m', r, u) == LeafAt(m, r, u))
      && (OpenWalk(m, r, u) ==> OpenWalk(m', r, u))
  {
    hide AlignDown;
    WalkLevels(m, lv, r, u);
  }

  lemma PatchPdeView(m: Memory, lv: Levels, p: nat, i: Index, frame: nat, fl: Flags, r: nat, u: Vpn)
    requires WellFormed(m, lv) && p in m && lv[p] == 2 && IsRoot(m, lv, r) && !IsLink(2, m[p][i]) && frame % 512 == 0
    ensures var m' := Patch(m, p, i, LeafEntry(frame, fl, true));
      && View(m', r, u) == (if Pd(m, r, u) == Some(p) && u.i2 == i then Asked(frame + u.i1, fl) else View(m, r, u))
      && (!(Pd(m, r, u) == Some(p) && u.i2 == i) ==> LeafAt(m', r, u) == LeafAt(m, r, u))
      && (OpenWalk(m, r, u) ==> OpenWalk(m', r, u))
  {
    WalkLevels(m, lv, r, u);
    assert AlignDown(frame, 512) == frame;
  }

  lemma PatchPdpteView(m: Memory, lv: Levels, p: nat, i: Index, frame: nat, fl: Flags, r: nat, u: Vpn)
    requires WellFormed(m, lv) && p in m && lv[p] == 3 && IsRoot(m, lv, r) && !IsLink(3, m[p][i]) && frame % 262144 == 0
    ensures var m' := Patch(m, p, i, LeafEntry(frame, fl, true));
      && View(m', r, u) ==
           (if Pdpt(m, r, u) == Some(p) && u.i3 == i then Asked(frame + u.i2 * 512 + u.i1, fl) else View(m, r, u))
      && (!(Pdpt(m, r, u) == Some(p) && u.i3 == i) ==> LeafAt(m', r, u) == LeafAt(m, r, u))
      && (OpenWalk(m, r, u) ==> OpenWalk(m', r, u))
  {
    WalkLevels(m, lv, r, u);
    assert AlignDown(frame, 262144) == frame;
  }

  /** What pages look like once the leaf at `at` has been split. */
  function SplitView(m: Memory, at: Option<Place>, r: nat, u: Vpn): Option<Mapping> {
    if at.Some? && LeafAt(m, r, u) == at then Raised(View(m, r, u)) else View(m, r, u)
  }

  /** Page u keeps its leaf unless that is the one split. */
  predicate PlaceKept(m: Memory, m': Memory, at: Option<Place>, r: nat, u: Vpn) {
    !(at.Some? && LeafAt(m, r, u) == at) ==> LeafAt(m', r, u) == LeafAt(m, r, u)
  }

  /** Mapping a page, as every address space sees it: the pages of the written slot get the frame and
      the flags given; the other pages of a large page in the way lose no-execute and gain user
      access; all else looks as before. A call that fails changes no view, except that a 1 GB page
      in the way has been split if a table was left. */
  lemma MapPageViews(st: State, lv: Levels, root: nat, w: Vpn, frame: nat, fl: Flags, r: nat, u: Vpn)
    requires Valid(st, lv) && IsRoot(st.mem, lv, root) && IsRoot(st.mem, lv, r)
    ensures var (st', ok) := MapPage(st, root, w, frame, fl);
      View(st'.mem, r, u) ==
        if ok && SameSlot(st'.mem, r, u, root, w)
        then (if fl.present then Some(Mapping(frame, fl.writable, fl.user, fl.nx)) else None)
        else SplitView(st.mem, Broken(st, root, w), r, u)
    ensures var (st', ok) := MapPage(st, root, w, frame, fl);
      && (!(ok && SameSlot(st'.mem, r, u, root, w)) ==> PlaceKept(st.mem, st'.mem, Broken(st, root, w), r, u))
      && (OpenWalk(st.mem, r, u) ==> OpenWalk(st'.mem, r, u))
  {
    hide ReachPt, View, LeafAt, OpenWalk, Broken, NoNewLarge, SameTranslations, ViaPml4e, IsTree, LinksKept, LeafEntry;
    ReachPtSplits(st, lv, root, w, fl.user);
    var l1 := ReachPtGrows(st, lv, root, w, fl.user);
    var (s, c) := ReachPt(st, root, w, fl.user);
    RootsKept(st, lv, s, l1, root, w);
    if c.Some? {
      WalkLevels(s.mem, l1, root, w);
      PatchPteView(s.mem, l1, c.value, w.i1, frame, fl, r, u);
      PatchPteWalk(s.mem, l1, c.value, w.i1, LeafEntry(frame, fl, false), r, u);
      PatchPteWalk(s.mem, l1, c.value, w.i1, LeafEntry(frame, fl, false), root, w);
    }
  }

  /** The same for a 2 MB page: 512 frames with the flags given. */
  lemma MapPage2MViews(st: State, lv: Levels, root: nat, w: Vpn, frame: nat, fl: Flags, r: nat, u: Vpn)
    requires Valid(st, lv) && IsRoot(st.mem, lv, root) && IsRoot(st.mem, lv, r)
    ensures var (st', ok) := MapPage2M(st, root, w, frame, fl);
      View(st'.mem, r, u) ==
        if ok && SameSlot2M(st'.mem, r, u, root, w)
        then (if fl.present then Some(Mapping(frame + u.i1, fl.writable, fl.user, fl.nx)) else None)
        else SplitView(st.mem, if w.i1 == 0 && frame % 512 == 0 then GigBroken(st, root, w) else None, r, u)
    ensures var (st', ok) := MapPage2M(st, root, w, frame, fl);
      && (!(ok && SameSlot2M(st'.mem, r, u, root, w)) ==> PlaceKept(st.mem, st'.mem, GigBroken(st, root, w), r, u))
      && (OpenWalk(st.mem, r, u) ==> OpenWalk(st'.mem, r, u))
  {
    hide ReachPd, View, LeafAt, OpenWalk, GigBroken, NoNewLarge, SameTranslations, ViaPml4e, IsTree, LinksKept, LeafEntry;
    if w.i1 == 0 && frame % 512 == 0 {
      ReachPdSplits(st, lv, root, w, false);
      var l1 := ReachPdGrows(st, lv, root, w, false);
      var (s, c) := ReachPd(st, root, w, false);
      RootsKept(st, lv, s, l1, root, w);
      if c.Some? && !IsLink(2, Get(s.mem, c.value, w.i2)) {
        WalkLevels(s.mem, l1, root, w);
        LargeLeafIsLarge(frame, fl);
        PatchPdeView(s.mem, l1, c.value, w.i2, frame, fl, r, u);
        PatchPdeWalk(s.mem, l1, c.value, w.i2, LeafEntry(frame, fl, true), r, u);
        PatchPdeWalk(s.mem, l1, c.value, w.i2, LeafEntry(frame, fl, true), root, w);
      }
    }
  }

  lemma LargeLeafIsLarge(frame: nat, fl: Flags)
    ensures LeafEntry(frame, fl, true).ps
  {
  }

  /** The same for a 1 GB page: 262144 frames with the flags given, and nothing is split. */
  lemma MapPage1GViews(st: State, lv: Levels, root: nat, w: Vpn, frame: nat, fl: Flags, r: nat, u: Vpn)
    requires Valid(st, lv) && IsRoot(st.mem, lv, root) && IsRoot(st.mem, lv, r)
    ensures var (st', ok) := MapPage1G(st, root, w, frame, fl);
      View(st'.mem, r, u) ==
        if ok && SameSlot1G(st'.mem, r, u, root, w)
        then (if fl.present then Some(Mapping(frame + u.i2 * 512 + u.i1, fl.writable, fl.user, fl.nx)) else None)
        else View(st.mem, r, u)
    ensures var (st', ok) := MapPage1G(st, root, w, frame, fl);
      && (!(ok && SameSlot1G(st'.mem, r, u, root, w)) ==> PlaceKept(st.mem, st'.mem, None, r, u))
      && (OpenWalk(st.mem, r, u) ==> OpenWalk(st'.mem, r, u))
  {
    hide ReachPdpt, View, LeafAt, OpenWalk, NoNewLarge, SameTranslations, ViaPml4e, IsTree, LinksKept, LeafEntry;
    if w.i2 == 0 && w.i1 == 0 && frame % 262144 == 0 {
      ReachPdptSplits(st, lv, root, w, false);
      var l1 := ReachPdptGrows(st, lv, root, w, false);
      var (s, c) := ReachPdpt(st, root, w, false);
      RootsKept(st, lv, s, l1, root, w);
      if c.Some? && !IsLink(3, Get(s.mem, c.value, w.i3)) {
        WalkLevels(s.mem, l1, root, w);
        LargeLeafIsLarge(frame, fl);
        PatchPdpteView(s.mem, l1, c.value, w.i3, frame, fl, r, u);
        PatchPdpteWalk(s.mem, l1, c.value, w.i3, LeafEntry(frame, fl, true), r, u);
        PatchPdpteWalk(s.mem, l1, c.value, w.i3, LeafEntry(frame, fl, true), root, w);
      }
    }
  }

  /** Unmapping removes the views of its slot and changes no other. */
  lemma UnmapPageViews(st: State, lv: Levels, root: nat, w: Vpn, r: nat, u: Vpn)
    requires Valid(st, lv) && IsRoot(st.mem, lv, root) && IsRoot(st.mem, lv, r) && !OnLargePage(st.mem, root, w)
    ensures View(UnmapPage(st, root, w).mem, r, u) ==
            if SameSlot(st.mem, r, u, root, w) then None else View(st.mem, r, u)
    ensures OpenWalk(st.mem, r, u) ==> OpenWalk(UnmapPage(st, root, w).mem, r, u)
  {
    hide AlignDown;
    WalkLevels(st.mem, lv, root, w);
    WalkLevels(st.mem, lv, r, u);
  }

  /** The entry found after a successful map, bit by bit. */
  lemma MappedEntry(st: State, lv: Levels, root: nat, w: Vpn, frame: nat, fl: Flags)
    requires Valid(st, lv) && IsRoot(st.mem, lv, root) && fl.present
    ensures var (st', ok) := MapPage(st, root, w, frame, fl);
      ok ==>
        var e := WalkPte(st'.mem, root, w);
        e.Some? && e.value.frame == frame && e.value.writable == fl.writable && e.value.user == fl.user
        && e.value.nx == fl.nx && !e.value.ps
    ensures var (st', ok) := MapPage2M(st, root, w, frame, fl);
      ok ==>
        var e := WalkPte(st'.mem, root, w);
        e.Some? && e.value.frame == frame && e.value.writable == fl.writable && e.value.user == fl.user
        && e.value.nx == fl.nx && e.value.ps
    ensures var (st', ok) := MapPage1G(st, root, w, frame, fl);
      ok ==>
        var e := WalkPte(st'.mem, root, w);
        e.Some? && e.value.frame == frame && e.value.writable == fl.writable && e.value.user == fl.user
        && e.value.nx == fl.nx && e.value.ps
  {
    Mapped4KEntry(st, lv, root, w, frame, fl);
    Mapped2MEntry(st, lv, root, w, frame, fl);
    Mapped1GEntry(st, lv, root, w, frame, fl);
  }

  lemma Mapped4KEntry(st: State, lv: Levels, root: nat, w: Vpn, frame: nat, fl: Flags)
    requires Valid(st, lv) && IsRoot(st.mem, lv, root) && fl.present
    ensures var (st', ok) := MapPage(st, root, w, frame, fl);
      ok ==> WalkPte(st'.mem, root, w) == Some(LeafEntry(frame, fl, false))
  {
    hide ReachPt, NoNewLarge, SameTranslations, ViaPml4e, IsTree, LinksKept;
    var l1 := ReachPtGrows(st, lv, root, w, fl.user);
    var (s, c) := ReachPt(st, root, w, fl.user);
    if c.Some? {
      RootsKept(st, lv, s, l1, root, w);
      WalkLevels(s.mem, l1, root, w);
    }
  }

  lemma Mapped2MEntry(st: State, lv: Levels, root: nat, w: Vpn, frame: nat, fl: Flags)
    requires Valid(st, lv) && IsRoot(st.mem, lv, root) && fl.present
    ensures var (st', ok) := MapPage2M(st, root, w, frame, fl);
      ok ==> WalkPte(st'.mem, root, w) == Some(LeafEntry(frame, fl, true))
  {
    hide ReachPd, NoNewLarge, SameTranslations, ViaPml4e, IsTree, LinksKept;
    if w.i1 == 0 && frame % 512 == 0 {
      var l1 := ReachPdGrows(st, lv, root, w, false);
      var (s, c) := ReachPd(st, root, w, false);
      if c.Some? {
        RootsKept(st, lv, s, l1, root, w);
        WalkLevels(s.mem, l1, root, w);
      }
    }
  }

  lemma Mapped1GEntry(st: State, lv: Levels, root: nat, w: Vpn, frame: nat, fl: Flags)
    requires Valid(st, lv) && IsRoot(st.mem, lv, root) && fl.present
    ensures var (st', ok) := MapPage1G(st, root, w, frame, fl);
      ok ==> WalkPte(st'.mem, root, w) == Some(LeafEntry(frame, fl, true))
  {
    hide ReachPdpt, NoNewLarge, SameTranslations, ViaPml4e, IsTree, LinksKept;
    if w.i2 == 0 && w.i1 == 0 && frame % 262144 == 0 {
      var l1 := ReachPdptGrows(st, lv, root, w, false);
      var (s, c) := ReachPdpt(st, root, w, false);
      if c.Some? {
        RootsKept(st, lv, s, l1, root, w);
        WalkLevels(s.mem, l1, root, w);
      }
    }
  }
}
