// Where the loader writes: it takes a segment's addresses as they come, without comparing them
// with the range that each process has to itself.

module LoadBounds {
  import opened Numbers
  import opened Options
  import opened ElfImage
  import PT = PageTables
  import M = Mapper
  import AS = AddressSpaces

  const LOAD_BASE: nat := 0xA0_0000
  const LOAD_LIMIT: nat := 0xC0_0000

  /** The private load range is PD entry 5: pages 0xA00 to 0xBFF. */
  lemma LoadRangePage(p: nat)
    requires p < PT.VIRTUAL_PAGES
    ensures AS.LoadRange(PT.VpnOf(p)) <==> 0xA00 <= p < 0xC00
  {
    var x := p / 512;
    var y := x / 512;
    assert 512 * x <= p < 512 * x + 512;
    assert 512 * y <= x < 512 * y + 512;
    assert PT.VpnOf(p) == PT.Vpn(y / 512 % 512, y % 512, x % 512, p % 512);
  }

  /** Page p is loaded for segment s. */
  predicate IsLoaded(s: Segment, p: nat) {
    s.vaddr / PAGE <= p && p * PAGE < EndOf(s)
  }

  /** The pages loaded for a segment are all in the private range if and only if the segment lies
      in [0xA00000, 0xC00000). */
  lemma StaysPrivateIff(s: Segment)
    requires s.memsz > 0 && EndOf(s) <= PT.VIRTUAL_PAGES * PAGE
    ensures (forall p: nat :: IsLoaded(s, p) ==> AS.LoadRange(PT.VpnOf(p)))
            <==> LOAD_BASE <= s.vaddr && EndOf(s) <= LOAD_LIMIT
  {
    hide AS.LoadRange, PT.VpnOf;
    if LOAD_BASE <= s.vaddr && EndOf(s) <= LOAD_LIMIT {
      forall p: nat | IsLoaded(s, p) ensures AS.LoadRange(PT.VpnOf(p)) {
        LoadRangePage(p);
      }
    } else {
      var p := if s.vaddr < LOAD_BASE then s.vaddr / PAGE else (EndOf(s) - 1) / PAGE;
      LoadRangePage(p);
      assert IsLoaded(s, p) && !AS.LoadRange(PT.VpnOf(p));
    }
  }

  /** On a page that is already mapped, whosever it is, the loader copies file bytes over the
      frame behind it. */
  lemma LoadOverwrites(st: Space, file: seq<Byte>, s: Segment, p: nat, off: nat, st': Space, i: nat)
    requires p in st.pages && st.pages[p] < |st.mem| && LoadPage(st, file, s, p, off) == Loaded(st')
    requires i < CopyLen(file, s, p, off)
    ensures st'.pages == st.pages && st'.mem[st.pages[p]][Dest(s, p) + i] == file[off + i]
  {
  }

  /** Outside its private ranges a new process shares the kernel's page tables: a page loaded
      there appears in the kernel's address space as well. */
  lemma LoadOutsideHitsKernel(st: M.State, lv: PT.Levels, k: nat, st': M.State, r: nat, w: PT.Vpn, frame: nat, fl: M.Flags)
    requires M.Valid(st, lv) && PT.IsRoot(st.mem, lv, k)
    requires AS.CreateProcess(st, k) == (st', Some(r)) && PT.Pt(st.mem, k, w).Some?
    requires !AS.StackRange(w) && !AS.LoadRange(w) && fl.present && M.MapPage(st', r, w, frame, fl).1
    ensures PT.Translate(M.MapPage(st', r, w, frame, fl).0.mem, k, w) == Some(frame)
  {
    hide AS.CreateProcess, M.MapPage, PT.ViaPml4e, PT.IsTree;
    var m, m' := st.mem, st'.mem;
    AS.CreateProcessCopies(st, lv, k, st', r);
    AS.CopyWalk(m, lv, m', k, r, r + 1, r + 2, w);
    AS.CopyWellFormed(m, lv, m', k, r, r + 1, r + 2);
    var lv' := AS.CopyLevels(m, m', lv, r, r + 1);
    AS.OldWalksKept(m, lv, m', k, w);
    M.MapShared(st', lv', r, k, w, frame, fl);
  }
}
