// The elementary edits the mapper makes to table memory, and what each one does
// to every walk from every root.

module PageEdits {
  import opened Options
  import opened PageTables

  /** Overwrite entry i of table p. */
  function Patch(m: Memory, p: nat, i: Index, e: Entry): (m': Memory) {
    if p in m then m[p := m[p][i := e]] else m
  }

  /** Hang a new table n below entry i of table p. */
  function Graft(m: Memory, p: nat, i: Index, e: Entry, n: nat, table: Table): (m': Memory)
  {
    Patch(m, p, i, e)[n := table]
  }

  /** Same walks: translations and tables passed through, from every root. */
  ghost predicate SameWalks(m: Memory, m': Memory, lv: Levels) {
    forall r, u :: IsRoot(m, lv, r) ==>
      && Translate(m', r, u) == Translate(m, r, u)
      && Pdpt(m', r, u) == Pdpt(m, r, u)
      && Pd(m', r, u) == Pd(m, r, u)
      && Pt(m', r, u) == Pt(m, r, u)
  }

  /** Same tables: every walk from every root passes through the same tables. */
  ghost predicate SameTables(m: Memory, m': Memory, lv: Levels) {
    forall r, u :: IsRoot(m, lv, r) ==>
      Pdpt(m', r, u) == Pdpt(m, r, u) && Pd(m', r, u) == Pd(m, r, u) && Pt(m', r, u) == Pt(m, r, u)
  }

  ghost predicate NoNewLarge(m: Memory, m': Memory, lv: Levels) {
    forall r, u :: IsRoot(m, lv, r) ==>
      && (OnLargePage(m', r, u) ==> OnLargePage(m, r, u))
      && (OnGigPage(m', r, u) ==> OnGigPage(m, r, u))
  }

  ghost predicate SameTranslations(m: Memory, m': Memory, lv: Levels) {
    forall r, u :: IsRoot(m, lv, r) ==> Translate(m', r, u) == Translate(m, r, u)
  }

  lemma PatchUserWalk(m: Memory, lv: Levels, p: nat, i: Index, r: nat, u: Vpn)
    requires p in m
    ensures var m' := Patch(m, p, i, m[p][i].(user := true));
      && Translate(m', r, u) == Translate(m, r, u)
      && Pdpt(m', r, u) == Pdpt(m, r, u) && Pd(m', r, u) == Pd(m, r, u) && Pt(m', r, u) == Pt(m, r, u)
      && OnLargePage(m', r, u) == OnLargePage(m, r, u) && OnGigPage(m', r, u) == OnGigPage(m, r, u)
  {
    hide Get, Patch;
    PatchUserEntries(m, p, i);
  }

  lemma PatchUserEntries(m: Memory, p: nat, i: Index)
    requires p in m
    ensures var m' := Patch(m, p, i, m[p][i].(user := true));
      forall t, j: Index :: Get(m', t, j) == Get(m, t, j).(user := Get(m', t, j).user)
  {
  }

  /** Setting the user bit of an entry is invisible to the walk. */
  lemma PatchUserSame(m: Memory, lv: Levels, p: nat, i: Index)
    requires WellFormed(m, lv) && p in m
    ensures var m' := Patch(m, p, i, m[p][i].(user := true));
            WellFormed(m', lv) && SameWalks(m, m', lv) && NoNewLarge(m, m', lv)
  {
    var m' := Patch(m, p, i, m[p][i].(user := true));
    forall r, u | IsRoot(m, lv, r)
      ensures Translate(m', r, u) == Translate(m, r, u)
      ensures Pdpt(m', r, u) == Pdpt(m, r, u) && Pd(m', r, u) == Pd(m, r, u) && Pt(m', r, u) == Pt(m, r, u)
      ensures OnLargePage(m', r, u) == OnLargePage(m, r, u) && OnGigPage(m', r, u) == OnGigPage(m, r, u)
    {
      PatchUserWalk(m, lv, p, i, r, u);
    }
    forall t, j: Index | t in m' && IsLink(lv[t], m'[t][j])
      ensures m'[t][j].frame in m' && lv[m'[t][j].frame] == lv[t] - 1
    {
      assert IsLink(lv[t], m[t][j]) && m[t][j].frame == m'[t][j].frame;
    }
  }

  /** The entry that Graft replaces maps nothing that the new table does not map. */
  ghost predicate Covers(m: Memory, l: nat, was: Entry, table: Table)
    requires 1 <= l
  {
    && (forall j: Index :: !IsLink(l - 1, table[j]))
    && match l
       case 4 => !was.present && forall j: Index :: !table[j].present
       case 3 => forall u: Vpn :: ViaPde(m, table[u.i2], u) == ViaPdpte(m, was, u)
       case 2 => forall u: Vpn :: ViaPte(table[u.i1]) == ViaPde(m, was, u)
       case _ => false
  }

  lemma GraftWalk(m: Memory, lv: Levels, p: nat, i: Index, e: Entry, n: nat, table: Table, r: nat, u: Vpn)
    requires WellFormed(m, lv) && p in m && n !in m
    requires e.present && !e.ps && e.frame == n
    requires !IsLink(lv[p], m[p][i]) && Covers(m, lv[p], m[p][i], table)
    requires IsRoot(m, lv, r)
    ensures var m' := Graft(m, p, i, e, n, table);
      && Translate(m', r, u) == Translate(m, r, u)
      && Pdpt(m', r, u) == (if r == p && u.i4 == i then Some(n) else Pdpt(m, r, u))
      && Pd(m', r, u) == (if Pdpt(m, r, u) == Some(p) && u.i3 == i then Some(n) else Pd(m, r, u))
      && Pt(m', r, u) == (if Pd(m, r, u) == Some(p) && u.i2 == i then Some(n) else Pt(m, r, u))
      && (OnLargePage(m', r, u) ==> OnLargePage(m, r, u))
      && (OnGigPage(m', r, u) ==> OnGigPage(m, r, u))
  {
    WalkLevels(m, lv, r, u);
  }

  lemma GraftSame(m: Memory, lv: Levels, p: nat, i: Index, e: Entry, n: nat, table: Table)
    requires WellFormed(m, lv) && p in m && n !in m
    requires e.present && !e.ps && e.frame == n
    requires !IsLink(lv[p], m[p][i]) && Covers(m, lv[p], m[p][i], table)
    ensures var m' := Graft(m, p, i, e, n, table);
      && WellFormed(m', lv[n := lv[p] - 1])
      && SameTranslations(m, m', lv)
  {
    var m' := Graft(m, p, i, e, n, table);
    forall r, u | IsRoot(m, lv, r) ensures Translate(m', r, u) == Translate(m, r, u) {
      GraftWalk(m, lv, p, i, e, n, table, r, u);
    }
  }

  lemma GraftTree(m: Memory, lv: Levels, p: nat, i: Index, e: Entry, n: nat, table: Table, r: nat)
    requires WellFormed(m, lv) && p in m && n !in m
    requires e.present && !e.ps && e.frame == n
    requires !IsLink(lv[p], m[p][i]) && Covers(m, lv[p], m[p][i], table)
    requires IsRoot(m, lv, r) && IsTree(m, r)
    ensures IsTree(Graft(m, p, i, e, n, table), r)
  {
    var m' := Graft(m, p, i, e, n, table);
    forall u, v
      ensures Pdpt(m', r, u).Some? && Pdpt(m', r, u) == Pdpt(m', r, v) ==> u.i4 == v.i4
      ensures Pd(m', r, u).Some? && Pd(m', r, u) == Pd(m', r, v) ==> u.i4 == v.i4 && u.i3 == v.i3
      ensures Pt(m', r, u).Some? && Pt(m', r, u) == Pt(m', r, v) ==>
          u.i4 == v.i4 && u.i3 == v.i3 && u.i2 == v.i2
    {
      GraftWalk(m, lv, p, i, e, n, table, r, u);
      GraftWalk(m, lv, p, i, e, n, table, r, v);
      WalkLevels(m, lv, r, u);
      WalkLevels(m, lv, r, v);
    }
  }

  lemma PatchLeafWellFormed(m: Memory, lv: Levels, p: nat, i: Index, e: Entry)
    requires WellFormed(m, lv) && p in m && !IsLink(lv[p], e)
    ensures WellFormed(Patch(m, p, i, e), lv)
  {
  }

  lemma PatchPteWalk(m: Memory, lv: Levels, p: nat, i: Index, e: Entry, r: nat, u: Vpn)
    requires WellFormed(m, lv) && p in m && lv[p] == 1
    requires IsRoot(m, lv, r)
    ensures var m' := Patch(m, p, i, e);
      && Pdpt(m', r, u) == Pdpt(m, r, u) && Pd(m', r, u) == Pd(m, r, u) && Pt(m', r, u) == Pt(m, r, u)
      && Translate(m', r, u) ==
           (if Pt(m, r, u) == Some(p) && u.i1 == i then ViaPte(e) else Translate(m, r, u))
      && OnLargePage(m', r, u) == OnLargePage(m, r, u) && OnGigPage(m', r, u) == OnGigPage(m, r, u)
  {
    WalkLevels(m, lv, r, u);
  }

  /** Writing a PT entry changes exactly the walks that end in that slot. */
  lemma PatchPte(m: Memory, lv: Levels, p: nat, i: Index, e: Entry)
    requires WellFormed(m, lv) && p in m && lv[p] == 1
    ensures var m' := Patch(m, p, i, e);
      && WellFormed(m', lv)
      && SameTables(m, m', lv) && NoNewLarge(m, m', lv)
      && forall r, u :: IsRoot(m, lv, r) ==>
           Translate(m', r, u) ==
             if Pt(m, r, u) == Some(p) && u.i1 == i then ViaPte(e) else Translate(m, r, u)
  {
    PatchLeafWellFormed(m, lv, p, i, e);
    var m' := Patch(m, p, i, e);
    forall r, u | IsRoot(m, lv, r)
      ensures Pdpt(m', r, u) == Pdpt(m, r, u) && Pd(m', r, u) == Pd(m, r, u) && Pt(m', r, u) == Pt(m, r, u)
      ensures Translate(m', r, u) ==
           if Pt(m, r, u) == Some(p) && u.i1 == i then ViaPte(e) else Translate(m, r, u)
      ensures OnLargePage(m', r, u) == OnLargePage(m, r, u) && OnGigPage(m', r, u) == OnGigPage(m, r, u)
    {
      PatchPteWalk(m, lv, p, i, e, r, u);
    }
  }

  lemma PatchPdeWalk(m: Memory, lv: Levels, p: nat, i: Index, e: Entry, r: nat, u: Vpn)
    requires WellFormed(m, lv) && p in m && lv[p] == 2
    requires e.ps && !IsLink(2, m[p][i])
    requires IsRoot(m, lv, r)
    ensures var m' := Patch(m, p, i, e);
      && Pdpt(m', r, u) == Pdpt(m, r, u) && Pd(m', r, u) == Pd(m, r, u) && Pt(m', r, u) == Pt(m, r, u)
      && Translate(m', r, u) ==
           if Pd(m, r, u) == Some(p) && u.i2 == i then ViaPde(m, e, u) else Translate(m, r, u)
  {
    WalkLevels(m, lv, r, u);
  }

  /** Writing a 2 MB leaf over a PD entry that leads to no table. */
  lemma PatchPde(m: Memory, lv: Levels, p: nat, i: Index, e: Entry)
    requires WellFormed(m, lv) && p in m && lv[p] == 2
    requires e.ps && !IsLink(2, m[p][i])
    ensures var m' := Patch(m, p, i, e);
      && WellFormed(m', lv)
      && SameTables(m, m', lv)
      && forall r, u :: IsRoot(m, lv, r) ==>
           Translate(m', r, u) ==
             if Pd(m, r, u) == Some(p) && u.i2 == i then ViaPde(m, e, u) else Translate(m, r, u)
  {
    PatchLeafWellFormed(m, lv, p, i, e);
    var m' := Patch(m, p, i, e);
    forall r, u | IsRoot(m, lv, r)
      ensures Pdpt(m', r, u) == Pdpt(m, r, u) && Pd(m', r, u) == Pd(m, r, u) && Pt(m', r, u) == Pt(m, r, u)
      ensures Translate(m', r, u) ==
           if Pd(m, r, u) == Some(p) && u.i2 == i then ViaPde(m, e, u) else Translate(m, r, u)
    {
      PatchPdeWalk(m, lv, p, i, e, r, u);
    }
  }

  lemma PatchPdpteWalk(m: Memory, lv: Levels, p: nat, i: Index, e: Entry, r: nat, u: Vpn)
    requires WellFormed(m, lv) && p in m && lv[p] == 3
    requires e.ps && !IsLink(3, m[p][i])
    requires IsRoot(m, lv, r)
    ensures var m' := Patch(m, p, i, e);
      && Pdpt(m', r, u) == Pdpt(m, r, u) && Pd(m', r, u) == Pd(m, r, u) && Pt(m', r, u) == Pt(m, r, u)
      && Translate(m', r, u) ==
           if Pdpt(m, r, u) == Some(p) && u.i3 == i then ViaPdpte(m, e, u) else Translate(m, r, u)
  {
    WalkLevels(m, lv, r, u);
  }

  /** Writing a 1 GB leaf over a PDPT entry that leads to no table. */
  lemma PatchPdpte(m: Memory, lv: Levels, p: nat, i: Index, e: Entry)
    requires WellFormed(m, lv) && p in m && lv[p] == 3
    requires e.ps && !IsLink(3, m[p][i])
    ensures var m' := Patch(m, p, i, e);
      && WellFormed(m', lv)
      && SameTables(m, m', lv)
      && forall r, u :: IsRoot(m, lv, r) ==>
           Translate(m', r, u) ==
             if Pdpt(m, r, u) == Some(p) && u.i3 == i then ViaPdpte(m, e, u) else Translate(m, r, u)
  {
    PatchLeafWellFormed(m, lv, p, i, e);
    var m' := Patch(m, p, i, e);
    forall r, u | IsRoot(m, lv, r)
      ensures Pdpt(m', r, u) == Pdpt(m, r, u) && Pd(m', r, u) == Pd(m, r, u) && Pt(m', r, u) == Pt(m, r, u)
      ensures Translate(m', r, u) ==
           if Pdpt(m, r, u) == Some(p) && u.i3 == i then ViaPdpte(m, e, u) else Translate(m, r, u)
    {
      PatchPdpteWalk(m, lv, p, i, e, r, u);
    }
  }
}
