// Four-level x86-64 page tables: entries, table memory, and the walk that turns
// a virtual page number into a physical frame number.

module PageTables {
  import opened Options

  type Index = i: int | 0 <= i < 512

  /** One entry, with the bits the kernel looks at. `frame` is the address field
      (bits 12 to 51) counted in 4 KB frames. */
  datatype Entry = Entry(present: bool, writable: bool, user: bool, ps: bool, nx: bool, frame: nat)

  const ABSENT: Entry := Entry(false, false, false, false, false, 0)

  type Table = t: seq<Entry> | |t| == 512 witness seq(512, _ => ABSENT)

  function EmptyTable(): Table {
    seq(512, _ => ABSENT)
  }

  /** Table memory: the 4 KB frames in use as page tables. */
  type Memory = map<nat, Table>

  /** A virtual page number as its four table indices. */
  datatype Vpn = Vpn(i4: Index, i3: Index, i2: Index, i1: Index)

  /** The table indices of page number p: its last four base-512 digits (address bits 12 to
      47; bits above 47 are ignored). */
  function VpnOf(p: nat): Vpn {
    Vpn(p / 512 / 512 / 512 % 512, p / 512 / 512 % 512, p / 512 % 512, p % 512)
  }

  /** The page number with these indices. */
  function PageOf(u: Vpn): nat {
    ((u.i4 * 512 + u.i3) * 512 + u.i2) * 512 + u.i1
  }

  const VIRTUAL_PAGES: nat := 0x10_0000_0000

  lemma DivideBack(a: nat, i: Index)
    ensures (a * 512 + i) / 512 == a && (a * 512 + i) % 512 == i
  {
  }

  /** Index extraction is a bijection on the 2^36 pages of a 48-bit address space. */
  lemma PageRoundTrip(p: nat)
    requires p < VIRTUAL_PAGES
    ensures PageOf(VpnOf(p)) == p
  {
    assert p / 512 / 512 / 512 < 512;
  }

  lemma VpnRoundTrip(u: Vpn)
    ensures VpnOf(PageOf(u)) == u && PageOf(u) < VIRTUAL_PAGES
  {
    var a := u.i4 * 512 + u.i3;
    var b := a * 512 + u.i2;
    DivideBack(u.i4, u.i3);
    DivideBack(a, u.i2);
    DivideBack(b, u.i1);
  }

  /** Levels: 4 is the PML4, 3 the PDPT, 2 the PD, 1 the PT. */
  type Levels = map<nat, nat>

  function Get(m: Memory, t: nat, i: Index): Entry {
    if t in m then m[t][i] else ABSENT
  }

  /** The frame field of a large leaf with the bits inside the page masked off. */
  function AlignDown(frame: nat, unit: nat): nat
    requires unit > 0
  {
    frame / unit * unit
  }

  // ----- the walk, from the leaf end up -----

  /** What a PT entry maps its page to. */
  function ViaPte(e: Entry): Option<nat> {
    if e.present then Some(e.frame) else None
  }

  /** What a PD entry maps page u to. */
  function ViaPde(m: Memory, e: Entry, u: Vpn): Option<nat> {
    if !e.present then None
    else if e.ps then Some(AlignDown(e.frame, 512) + u.i1)
    else ViaPte(Get(m, e.frame, u.i1))
  }

  /** What a PDPT entry maps page u to. */
  function ViaPdpte(m: Memory, e: Entry, u: Vpn): Option<nat> {
    if !e.present then None
    else if e.ps then Some(AlignDown(e.frame, 262144) + u.i2 * 512 + u.i1)
    else ViaPde(m, Get(m, e.frame, u.i2), u)
  }

  /** What a PML4 entry maps page u to. */
  function ViaPml4e(m: Memory, e: Entry, u: Vpn): Option<nat> {
    if !e.present then None else ViaPdpte(m, Get(m, e.frame, u.i3), u)
  }

  /** The frame that page u maps to in the address space rooted at r. */
  function Translate(m: Memory, r: nat, u: Vpn): Option<nat> {
    ViaPml4e(m, Get(m, r, u.i4), u)
  }

  // ----- the tables a walk passes through -----

  function Pdpt(m: Memory, r: nat, u: Vpn): Option<nat> {
    var e := Get(m, r, u.i4);
    if e.present then Some(e.frame) else None
  }

  function Pd(m: Memory, r: nat, u: Vpn): Option<nat> {
    match Pdpt(m, r, u)
    case None => None
    case Some(t) =>
      var e := Get(m, t, u.i3);
      if e.present && !e.ps then Some(e.frame) else None
  }

  function Pt(m: Memory, r: nat, u: Vpn): Option<nat> {
    match Pd(m, r, u)
    case None => None
    case Some(t) =>
      var e := Get(m, t, u.i2);
      if e.present && !e.ps then Some(e.frame) else None
  }

  /** The entry that maps page u in the address space rooted at r. */
  function WalkPte(m: Memory, r: nat, u: Vpn): Option<Entry> {
    var e4 := Get(m, r, u.i4);
    if !e4.present then None else
    var e3 := Get(m, e4.frame, u.i3);
    if !e3.present then None else if e3.ps then Some(e3) else
    var e2 := Get(m, e3.frame, u.i2);
    if !e2.present then None else if e2.ps then Some(e2) else
    var e1 := Get(m, e2.frame, u.i1);
    if e1.present then Some(e1) else None
  }

  /** Table t is read by the walk of page u from root r. */
  predicate Touches(m: Memory, r: nat, u: Vpn, t: nat) {
    t == r || Pdpt(m, r, u) == Some(t) || Pd(m, r, u) == Some(t) || Pt(m, r, u) == Some(t)
  }

  /** The walk of page u from root r ends in a 1 GB leaf. */
  predicate OnGigPage(m: Memory, r: nat, u: Vpn) {
    Pdpt(m, r, u).Some? && var e := Get(m, Pdpt(m, r, u).value, u.i3); e.present && e.ps
  }

  /** The walk of page u from root r ends in a 1 GB or 2 MB leaf. */
  predicate OnLargePage(m: Memory, r: nat, u: Vpn) {
    || OnGigPage(m, r, u)
    || (Pd(m, r, u).Some? && var e := Get(m, Pd(m, r, u).value, u.i2); e.present && e.ps)
  }

  // ----- well-formedness -----

  /** An entry of a level-l table that the walk follows to another table. */
  predicate IsLink(l: nat, e: Entry) {
    e.present && (l == 4 || ((l == 3 || l == 2) && !e.ps))
  }

  /** Every table is used at one level and every link leads one level down. */
  ghost predicate WellFormed(m: Memory, lv: Levels) {
    && lv.Keys == m.Keys
    && (forall t :: t in m ==> 1 <= lv[t] <= 4)
    && (forall t, i: Index :: t in m && IsLink(lv[t], m[t][i]) ==>
          m[t][i].frame in m && lv[m[t][i].frame] == lv[t] - 1)
  }

  ghost predicate IsRoot(m: Memory, lv: Levels, r: nat) {
    r in m && r in lv && lv[r] == 4
  }

  lemma WalkLevels(m: Memory, lv: Levels, r: nat, u: Vpn)
    requires WellFormed(m, lv) && IsRoot(m, lv, r)
    ensures Pdpt(m, r, u).Some? ==> var t := Pdpt(m, r, u).value; t in m && lv[t] == 3
    ensures Pd(m, r, u).Some? ==> var t := Pd(m, r, u).value; t in m && lv[t] == 2
    ensures Pt(m, r, u).Some? ==> var t := Pt(m, r, u).value; t in m && lv[t] == 1
  {
  }

  /** Within one root no table is reached along two different index prefixes. */
  ghost predicate IsTree(m: Memory, r: nat) {
    && (forall u, v :: Pdpt(m, r, u).Some? && Pdpt(m, r, u) == Pdpt(m, r, v) ==> u.i4 == v.i4)
    && (forall u, v :: Pd(m, r, u).Some? && Pd(m, r, u) == Pd(m, r, v) ==> u.i4 == v.i4 && u.i3 == v.i3)
    && (forall u, v :: Pt(m, r, u).Some? && Pt(m, r, u) == Pt(m, r, v) ==>
          u.i4 == v.i4 && u.i3 == v.i3 && u.i2 == v.i2)
  }

  /** Two memories agree on every table the walk of u from r reads. */
  ghost predicate AgreeOnWalk(m: Memory, m': Memory, r: nat, u: Vpn) {
    forall t :: Touches(m, r, u, t) ==> (t in m <==> t in m') && (t in m ==> m[t] == m'[t])
  }

  lemma WalkFrame(m: Memory, m': Memory, r: nat, u: Vpn)
    requires AgreeOnWalk(m, m', r, u)
    ensures Translate(m', r, u) == Translate(m, r, u) && WalkPte(m', r, u) == WalkPte(m, r, u)
    ensures Pdpt(m', r, u) == Pdpt(m, r, u)
    ensures Pd(m', r, u) == Pd(m, r, u)
    ensures Pt(m', r, u) == Pt(m, r, u)
  {
    assert Touches(m, r, u, r);
    if Pdpt(m, r, u).Some? { assert Touches(m, r, u, Pdpt(m, r, u).value); }
    if Pd(m, r, u).Some? { assert Touches(m, r, u, Pd(m, r, u).value); }
    if Pt(m, r, u).Some? { assert Touches(m, r, u, Pt(m, r, u).value); }
  }
}
