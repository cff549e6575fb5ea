// A loaded image is the file: for segments in ascending, non-overlapping order, every byte of
// every segment is its file byte, or zero past the file part, also where segments share a page.

module ElfCorrect {
  import opened Numbers
  import opened Options
  import opened ElfImage

  function ByteAt(st: Space, a: nat): Byte
    requires a / PAGE in st.pages
  {
    FrameOf(st.mem, st.pages[a / PAGE])[a % PAGE]
  }

  /** What address a of the segment should hold. */
  function Want(file: seq<Byte>, s: Segment, a: nat): Byte
    requires s.vaddr <= a
  {
    var k := a - s.vaddr;
    if k < s.filesz && s.offset + k < |file| then file[s.offset + k] else 0
  }

  predicate Right(st: Space, file: seq<Byte>, s: Segment, a: nat)
    requires s.vaddr <= a
  {
    a / PAGE in st.pages && ByteAt(st, a) == Want(file, s, a)
  }

  // ----- invariants of a load -----

  /** The supply holds distinct frames of memory that no page uses. */
  ghost predicate Supplied(st: Space) {
    && (forall i :: 0 <= i < |st.supply| ==> st.supply[i] < |st.mem|)
    && (forall i, j :: 0 <= i < j < |st.supply| ==> st.supply[i] != st.supply[j])
    && (forall i, p :: 0 <= i < |st.supply| && p in st.pages ==> st.supply[i] != st.pages[p])
  }

  /** Pages that were not mapped before the load have frames of their own. */
  ghost predicate OwnFrames(st: Space, before: map<nat, nat>) {
    forall p, q :: p in st.pages && q in st.pages && p != q && p !in before ==>
      st.pages[p] != st.pages[q]
  }

  /** New pages hold zeros from address `top` on. */
  ghost predicate ZeroFrom(st: Space, before: map<nat, nat>, top: nat) {
    forall a :: a / PAGE in st.pages && a / PAGE !in before && a >= top ==> ByteAt(st, a) == 0
  }

  ghost predicate Sound(st: Space, before: map<nat, nat>, top: nat) {
    && Supplied(st) && OwnFrames(st, before) && ZeroFrom(st, before, top)
    && (forall p :: p in st.pages && p !in before ==> st.pages[p] < |st.mem|)
  }

  // ----- file positions -----

  /** How many bytes of the segment the file holds. */
  function Avail(file: seq<Byte>, s: Segment): nat {
    Min(s.filesz, Sub(|file|, s.offset))
  }

  /** The file position with which page p is loaded. */
  function OffAt(file: seq<Byte>, s: Segment, p: nat): nat {
    s.offset + Min(Sub(p * PAGE, s.vaddr), Avail(file, s))
  }

  lemma CopyLenIs(file: seq<Byte>, s: Segment, p: nat)
    requires p >= s.vaddr / PAGE
    ensures Dest(s, p) < PAGE
    ensures var done := OffAt(file, s, p) - s.offset;
      CopyLen(file, s, p, OffAt(file, s, p)) == Min(PAGE - Dest(s, p), Avail(file, s) - done)
    ensures OffAt(file, s, p) + CopyLen(file, s, p, OffAt(file, s, p)) == OffAt(file, s, p + 1)
  {
  }

  lemma FirstOff(file: seq<Byte>, s: Segment)
    ensures OffAt(file, s, s.vaddr / PAGE) == s.offset
  {
  }

  // ----- one page -----

  /** The byte at position i of a filled frame. */
  lemma FilledAt(f: Frame, clean: bool, at: nat, piece: seq<Byte>, i: nat)
    requires at + |piece| <= PAGE && i < PAGE
    ensures Filled(f, clean, at, piece)[i] ==
      if i < at then f[i] else if i < at + |piece| then piece[i - at] else if clean then 0 else f[i]
  {
  }

  /** Byte i of page p from the segment's start on, as the copied piece and zeros give it. */
  lemma PieceWants(file: seq<Byte>, s: Segment, p: nat, i: nat)
    requires p >= s.vaddr / PAGE && Dest(s, p) <= i < PAGE
    ensures var off := OffAt(file, s, p);
      var n, at := CopyLen(file, s, p, off), Dest(s, p);
      && s.vaddr <= p * PAGE + i
      && Want(file, s, p * PAGE + i) == if i < at + n then Piece(file, off, n)[i - at] else 0
  {
    CopyLenIs(file, s, p);
  }

  /** Page p of the segment has been loaded, turning st into st'. */
  ghost predicate PageStep(st: Space, before: map<nat, nat>, file: seq<Byte>, s: Segment, p: nat, top: nat, st': Space) {
    && Sound(st, before, top) && top <= Max(s.vaddr, p * PAGE)
    && p !in before && s.vaddr / PAGE <= p && p * PAGE < EndOf(s) && s.filesz <= s.memsz
    && LoadPage(st, file, s, p, OffAt(file, s, p)) == Loaded(st')
  }

  /** The frame page p gets, and how it is filled. */
  lemma PageStepIs(st: Space, before: map<nat, nat>, file: seq<Byte>, s: Segment, p: nat, top: nat, st': Space)
    requires PageStep(st, before, file, s, p, top, st')
    ensures p in st'.pages && st'.pages == st.pages[p := st'.pages[p]] && st'.pages[p] < |st.mem| == |st'.mem|
    ensures p in st.pages ==> st'.pages == st.pages && st'.supply == st.supply
    ensures p !in st.pages ==> st.supply != [] && st'.pages[p] == st.supply[0] && st'.supply == st.supply[1..]
    ensures var off := OffAt(file, s, p);
      var n, at, f := CopyLen(file, s, p, off), Dest(s, p), st'.pages[p];
      at + n <= PAGE && st'.mem == st.mem[f := Filled(st.mem[f], p !in st.pages, at, Piece(file, off, n))]
  {
    hide Filled, Probed, ProbeOk, Piece;
    CopyLenIs(file, s, p);
  }

  lemma OtherPage(st: Space, before: map<nat, nat>, file: seq<Byte>, s: Segment, p: nat, top: nat, st': Space, q: nat)
    requires PageStep(st, before, file, s, p, top, st') && q in st'.pages && q != p
    ensures q in st.pages && FrameOf(st'.mem, st'.pages[q]) == FrameOf(st.mem, st.pages[q])
  {
    hide Filled, LoadPage, CopyLen, OffAt, ZeroFrom;
    PageStepIs(st, before, file, s, p, top, st');
  }

  lemma SamePage(st: Space, before: map<nat, nat>, file: seq<Byte>, s: Segment, p: nat, top: nat, st': Space, a: nat)
    requires PageStep(st, before, file, s, p, top, st') && a / PAGE == p
    ensures p in st'.pages
    ensures a >= s.vaddr ==> ByteAt(st', a) == Want(file, s, a)
    ensures a < s.vaddr && p in st.pages ==> ByteAt(st', a) == ByteAt(st, a)
  {
    hide Filled, LoadPage, CopyLen, OffAt, Want, Piece, Supplied, OwnFrames;
    PageStepIs(st, before, file, s, p, top, st');
    var i, off := a % PAGE, OffAt(file, s, p);
    var n, at, f := CopyLen(file, s, p, off), Dest(s, p), st'.pages[p];
    assert a == p * PAGE + i;
    FilledAt(st.mem[f], p !in st.pages, at, Piece(file, off, n), i);
    if a >= s.vaddr {
      PieceWants(file, s, p, i);
      if p in st.pages && i >= at + n {
        assert ByteAt(st, a) == 0;
      }
    }
  }

  lemma PageKeepsSound(st: Space, before: map<nat, nat>, file: seq<Byte>, s: Segment, p: nat, top: nat, st': Space)
    requires PageStep(st, before, file, s, p, top, st')
    ensures Sound(st', before, Min(EndOf(s), (p + 1) * PAGE))
  {
    hide Filled, LoadPage, CopyLen, OffAt, Want;
    PageStepIs(st, before, file, s, p, top, st');
    var top' := Min(EndOf(s), (p + 1) * PAGE);
    forall a | a / PAGE in st'.pages && a / PAGE !in before && a >= top' ensures ByteAt(st', a) == 0 {
      if a / PAGE == p {
        SamePage(st, before, file, s, p, top, st', a);
        PastEnd(file, s, a);
      } else {
        OtherPage(st, before, file, s, p, top, st', a / PAGE);
        assert ByteAt(st, a) == 0;
      }
    }
  }

  lemma PastEnd(file: seq<Byte>, s: Segment, a: nat)
    requires s.filesz <= s.memsz && a >= EndOf(s)
    ensures Want(file, s, a) == 0
  {
  }

  // ----- whole segments -----

  /** Addresses below `top` on pages mapped in st read the same in st'. */
  ghost predicate KeptBelow(st: Space, st': Space, top: nat) {
    forall a :: a < top && a / PAGE in st.pages ==> a / PAGE in st'.pages && ByteAt(st', a) == ByteAt(st, a)
  }

  ghost predicate RightBetween(st: Space, file: seq<Byte>, s: Segment, from: nat, to: nat)
    requires s.vaddr <= from
  {
    forall a :: from <= a < to ==> Right(st, file, s, a)
  }

  /** Pages mapped before the load keep their frames and contents. */
  ghost predicate KeptPages(st: Space, st': Space, before: map<nat, nat>) {
    forall q :: q in before && q in st.pages ==>
      q in st'.pages && st'.pages[q] == st.pages[q] && FrameOf(st'.mem, st'.pages[q]) == FrameOf(st.mem, st.pages[q])
  }

  lemma PageKeepsPages(st: Space, before: map<nat, nat>, file: seq<Byte>, s: Segment, p: nat, top: nat, st': Space)
    requires PageStep(st, before, file, s, p, top, st')
    ensures KeptPages(st, st', before)
  {
    hide LoadPage, CopyLen, OffAt, Sound, FrameOf;
    forall q | q in before && q in st.pages
      ensures q in st'.pages && st'.pages[q] == st.pages[q] && FrameOf(st'.mem, st'.pages[q]) == FrameOf(st.mem, st.pages[q])
    {
      PageStepIs(st, before, file, s, p, top, st');
      OtherPage(st, before, file, s, p, top, st', q);
    }
  }

  lemma PageLoads(st: Space, before: map<nat, nat>, file: seq<Byte>, s: Segment, p: nat, top: nat, st': Space)
    requires PageStep(st, before, file, s, p, top, st')
    ensures KeptBelow(st, st', Max(s.vaddr, p * PAGE))
    ensures RightBetween(st', file, s, Max(s.vaddr, p * PAGE), (p + 1) * PAGE)
  {
    hide LoadPage, CopyLen, OffAt, Want, Sound;
    forall a | a < Max(s.vaddr, p * PAGE) && a / PAGE in st.pages
      ensures a / PAGE in st'.pages && ByteAt(st', a) == ByteAt(st, a)
    {
      PageStepIs(st, before, file, s, p, top, st');
      if a / PAGE == p {
        SamePage(st, before, file, s, p, top, st', a);
      } else {
        OtherPage(st, before, file, s, p, top, st', a / PAGE);
      }
    }
    forall a | Max(s.vaddr, p * PAGE) <= a < (p + 1) * PAGE ensures Right(st', file, s, a) {
      SamePage(st, before, file, s, p, top, st', a);
    }
  }

  /** None of the segment's pages was mapped before the load. */
  ghost predicate Unmapped(before: map<nat, nat>, s: Segment) {
    forall p :: s.vaddr / PAGE <= p && p * PAGE < EndOf(s) ==> p !in before
  }

  lemma KeepsRight(st: Space, st': Space, file: seq<Byte>, s: Segment, from: nat, to: nat, top: nat)
    requires s.vaddr <= from && to <= top && RightBetween(st, file, s, from, to) && KeptBelow(st, st', top)
    ensures RightBetween(st', file, s, from, to)
  {
    forall a | from <= a < to ensures Right(st', file, s, a) {
      assert Right(st, file, s, a);
    }
  }

  lemma {:induction false} SegmentLoads(st: Space, before: map<nat, nat>, file: seq<Byte>, s: Segment, p: nat, top: nat, st': Space)
    requires Sound(st, before, top) && top <= Max(s.vaddr, p * PAGE) && s.filesz <= s.memsz && Unmapped(before, s)
    requires s.vaddr / PAGE <= p && LoadFrom(st, file, s, p, OffAt(file, s, p)) == Loaded(st')
    ensures Sound(st', before, Max(top, EndOf(s))) && KeptPages(st, st', before)
    ensures KeptBelow(st, st', Max(s.vaddr, p * PAGE))
    ensures RightBetween(st', file, s, Max(s.vaddr, p * PAGE), EndOf(s))
    decreases Sub(EndOf(s), p * PAGE)
  {
    hide LoadPage, CopyLen, OffAt, Want, ZeroFrom, ByteAt, Supplied, OwnFrames;
    if p * PAGE < EndOf(s) {
      var st1 := LoadPage(st, file, s, p, OffAt(file, s, p)).st;
      assert PageStep(st, before, file, s, p, top, st1);
      PageLoads(st, before, file, s, p, top, st1);
      PageKeepsPages(st, before, file, s, p, top, st1);
      PageKeepsSound(st, before, file, s, p, top, st1);
      CopyLenIs(file, s, p);
      var top1 := Min(EndOf(s), (p + 1) * PAGE);
      SegmentLoads(st1, before, file, s, p + 1, top1, st');
      KeepsRight(st1, st', file, s, Max(s.vaddr, p * PAGE), (p + 1) * PAGE, Max(s.vaddr, (p + 1) * PAGE));
      KeptTwice(st, st1, st', Max(s.vaddr, p * PAGE), Max(s.vaddr, (p + 1) * PAGE));
    } else {
      SoundAbove(st, before, top, Max(top, EndOf(s)));
    }
  }

  lemma SoundAbove(st: Space, before: map<nat, nat>, top: nat, top': nat)
    requires Sound(st, before, top) && top <= top'
    ensures Sound(st, before, top')
  {
  }

  lemma KeptTwice(st: Space, st1: Space, st2: Space, low: nat, high: nat)
    requires KeptBelow(st, st1, low) && KeptBelow(st1, st2, high) && low <= high
    ensures KeptBelow(st, st2, low)
  {
  }

  // ----- whole files -----

  /** The order the System V ABI asks of PT_LOAD segments, without overlap. */
  ghost predicate Ascending(segs: seq<Segment>) {
    && (forall i :: 0 <= i < |segs| ==> segs[i].filesz <= segs[i].memsz)
    && (forall i, j :: 0 <= i < j < |segs| ==> EndOf(segs[i]) <= segs[j].vaddr)
  }

  lemma {:induction false} SegmentsLoad(st: Space, before: map<nat, nat>, file: seq<Byte>, segs: seq<Segment>, top: nat, st': Space)
    requires Sound(st, before, top) && Ascending(segs) && (segs != [] ==> top <= segs[0].vaddr)
    requires forall i :: 0 <= i < |segs| ==> Unmapped(before, segs[i]) && segs[i].memsz > 0
    requires LoadSegments(st, file, segs) == Loaded(st')
    ensures KeptBelow(st, st', top) && KeptPages(st, st', before)
    ensures forall i :: 0 <= i < |segs| ==> RightBetween(st', file, segs[i], segs[i].vaddr, EndOf(segs[i]))
    decreases |segs|
  {
    hide LoadFrom, RightBetween, Unmapped, Supplied, OwnFrames, ZeroFrom, Right, ByteAt;
    if segs != [] {
      var s := segs[0];
      var p := s.vaddr / PAGE;
      FirstOff(file, s);
      var st1 := LoadFrom(st, file, s, p, s.offset).st;
      SegmentLoads(st, before, file, s, p, top, st1);
      assert forall i :: 1 <= i < |segs| ==> segs[i] == segs[1..][i - 1];
      SegmentsLoad(st1, before, file, segs[1..], EndOf(s), st');
      KeepsRight(st1, st', file, s, s.vaddr, EndOf(s), EndOf(s));
      KeptTwice(st, st1, st', top, EndOf(s));
      forall i | 0 <= i < |segs| ensures RightBetween(st', file, segs[i], segs[i].vaddr, EndOf(segs[i])) {
        if i > 0 {
          assert segs[i] == segs[1..][i - 1];
        }
      }
    }
  }

  /** After a successful load of a file whose segments ascend without overlap in an unmapped
      range, every byte of every segment is its file byte, or zero past the file part, and every
      page that was mapped before is as it was. */
  lemma ImageIsFile(st: Space, file: seq<Byte>, st': Space)
    requires HeaderOk(file) && Supplied(st) && Ascending(Segments(file))
    requires forall i :: 0 <= i < |Segments(file)| ==> Unmapped(st.pages, Segments(file)[i])
    requires LoadElf(st, file) == Loaded(st')
    ensures forall i :: 0 <= i < |Segments(file)| ==>
      RightBetween(st', file, Segments(file)[i], Segments(file)[i].vaddr, EndOf(Segments(file)[i]))
    ensures EntryInside(Segments(file), Entry(file)) && KeptPages(st, st', st.pages)
  {
    hide Segments, LoadSegments, HeaderOk, Unmapped, RightBetween;
    SegmentsLoad(st, st.pages, file, Segments(file), 0, st');
  }

  // ----- the check of the first text bytes -----

  /** Bytes i of the probe that lie past the frame agree with the file by chance. */
  ghost predicate NextFrameAgrees(mem: seq<Frame>, file: seq<Byte>, s: Segment, f: nat, at: nat)
    requires |file| >= s.offset + 16 && at < PAGE
  {
    forall i :: 0 <= i < 16 && at + i >= PAGE ==> ProbeByte(mem, file, s, f, at, i)
  }

  /** After the first page of an executable segment is copied, the comparison of 16 bytes passes
      exactly when those of them beyond the end of the frame, which the copy never wrote, happen
      to be in the next physical frame. With 16 bytes left in the page it always passes. */
  lemma ProbePassesIff(mem: seq<Frame>, file: seq<Byte>, s: Segment, f: nat, clean: bool, mem': seq<Frame>)
    requires f < |mem| && Probed(file, s, s.vaddr / PAGE)
    requires var p := s.vaddr / PAGE;
      var n := CopyLen(file, s, p, s.offset);
      mem' == mem[f := Filled(mem[f], clean, Dest(s, p), Piece(file, s.offset, n))]
    ensures var at := s.vaddr % PAGE;
      && at == Dest(s, s.vaddr / PAGE)
      && (ProbeOk(mem', file, s, f, at) <==> NextFrameAgrees(mem', file, s, f, at))
      && (at + 16 <= PAGE ==> ProbeOk(mem', file, s, f, at))
  {
    hide Filled, Piece;
    var p, at := s.vaddr / PAGE, s.vaddr % PAGE;
    FirstOff(file, s);
    CopyLenIs(file, s, p);
    var n := CopyLen(file, s, p, s.offset);
    forall i | 0 <= i < 16 && at + i < PAGE ensures ProbeByte(mem', file, s, f, at, i) {
      FilledAt(mem[f], clean, at, Piece(file, s.offset, n), at + i);
      PieceAt(file, s.offset, n, i);
    }
  }

  lemma PieceAt(file: seq<Byte>, off: nat, n: nat, i: nat)
    requires i < n && off + n <= |file|
    ensures Piece(file, off, n)[i] == file[off + i]
  {
  }

  // ----- what the frame held before -----

  /** The frame of page p holds the segment's bytes and otherwise zeros. */
  ghost predicate OnlyFile(f: Frame, file: seq<Byte>, s: Segment, p: nat) {
    forall i :: 0 <= i < PAGE ==> f[i] == if Dest(s, p) <= i then Want(file, s, p * PAGE + i) else 0
  }

  /** The frame of a new page after the copy. */
  function NewFrame(was: Frame, file: seq<Byte>, s: Segment, p: nat): Frame {
    var off := OffAt(file, s, p);
    Filled(was, true, Dest(s, p), Piece(file, off, CopyLen(file, s, p, off)))
  }

  lemma NewFrameAt(was: Frame, file: seq<Byte>, s: Segment, p: nat, i: nat)
    requires s.vaddr / PAGE <= p && i < PAGE
    ensures NewFrame(was, file, s, p)[i] == if i < Dest(s, p) then was[i] else Want(file, s, p * PAGE + i)
  {
    hide Filled, Piece;
    CopyLenIs(file, s, p);
    var off := OffAt(file, s, p);
    FilledAt(was, true, Dest(s, p), Piece(file, off, CopyLen(file, s, p, off)), i);
    if Dest(s, p) <= i {
      PieceWants(file, s, p, i);
    }
  }

  /** A new page gets the segment's bytes and zeros only, if and only if the frame it was given held
      zeros before the segment's start: those bytes are not written. */
  lemma NewPageCleanIff(st: Space, file: seq<Byte>, s: Segment, p: nat, st': Space)
    requires s.vaddr / PAGE <= p && p !in st.pages && st.supply != [] && st.supply[0] < |st.mem|
    requires LoadPage(st, file, s, p, OffAt(file, s, p)) == Loaded(st')
    ensures st'.pages == st.pages[p := st.supply[0]] && |st'.mem| == |st.mem|
    ensures OnlyFile(st'.mem[st.supply[0]], file, s, p) <==>
            forall i :: 0 <= i < Dest(s, p) ==> st.mem[st.supply[0]][i] == 0
  {
    hide Filled, Piece, OffAt, CopyLen, Probed, ProbeOk, Want;
    var was := st.mem[st.supply[0]];
    assert st'.mem[st.supply[0]] == NewFrame(was, file, s, p);
    CopyLenIs(file, s, p);
    forall i | 0 <= i < PAGE
      ensures NewFrame(was, file, s, p)[i] == if i < Dest(s, p) then was[i] else Want(file, s, p * PAGE + i)
    {
      NewFrameAt(was, file, s, p, i);
    }
  }

  /** So it does whatever the frame held, if and only if the segment starts at or before the page. */
  lemma AlwaysCleanIff(file: seq<Byte>, s: Segment, p: nat)
    requires s.vaddr / PAGE <= p
    ensures (forall was: Frame :: OnlyFile(NewFrame(was, file, s, p), file, s, p)) <==> s.vaddr <= p * PAGE
  {
    hide NewFrame, Want;
    if s.vaddr <= p * PAGE {
      forall was: Frame ensures OnlyFile(NewFrame(was, file, s, p), file, s, p) {
        forall i | 0 <= i < PAGE ensures NewFrame(was, file, s, p)[i] == Want(file, s, p * PAGE + i) {
          NewFrameAt(was, file, s, p, i);
        }
      }
    } else {
      var was: Frame := seq(4096, _ => 1);
      NewFrameAt(was, file, s, p, 0);
      assert !OnlyFile(NewFrame(was, file, s, p), file, s, p);
    }
  }

  // ----- when a load succeeds -----

  /** The supply is in order and every mapped frame exists. */
  ghost predicate Roomy(st: Space) {
    Supplied(st) && forall p :: p in st.pages ==> st.pages[p] < |st.mem|
  }

  /** How many pages are loaded for a segment from page p on. */
  function PagesFrom(s: Segment, p: nat): nat
    decreases Sub(EndOf(s), p * PAGE)
  {
    if p * PAGE >= EndOf(s) then 0 else 1 + PagesFrom(s, p + 1)
  }

  function PagesNeeded(segs: seq<Segment>): nat {
    if segs == [] then 0 else PagesFrom(segs[0], segs[0].vaddr / PAGE) + PagesNeeded(segs[1..])
  }

  /** Nothing stands in the way of a segment: its pages can be mapped, and the text check stays in
      the page. */
  ghost predicate Unhindered(refused: set<nat>, s: Segment) {
    && (s.executable ==> s.vaddr % PAGE + 16 <= PAGE)
    && forall p :: s.vaddr / PAGE <= p && p * PAGE < EndOf(s) ==> p !in refused
  }

  lemma ServedPage(st: Space, file: seq<Byte>, s: Segment, p: nat)
    requires Roomy(st) && Unhindered(st.refused, s) && s.vaddr / PAGE <= p && p * PAGE < EndOf(s) && st.supply != []
    ensures var o := LoadPage(st, file, s, p, OffAt(file, s, p));
      o.Loaded? && Roomy(o.st) && o.st.refused == st.refused && |o.st.supply| + 1 >= |st.supply|
  {
    hide Filled, Piece, ProbeOk, CopyLen, OffAt;
    var off := OffAt(file, s, p);
    var f, clean := if p in st.pages then st.pages[p] else st.supply[0], p !in st.pages;
    var n := CopyLen(file, s, p, off);
    var mem' := st.mem[f := Filled(st.mem[f], clean, Dest(s, p), Piece(file, off, n))];
    if Probed(file, s, p) {
      FirstOff(file, s);
      ProbePassesIff(st.mem, file, s, f, clean, mem');
    }
  }

  lemma {:induction false} ServedSegment(st: Space, file: seq<Byte>, s: Segment, p: nat)
    requires Roomy(st) && Unhindered(st.refused, s) && s.vaddr / PAGE <= p && PagesFrom(s, p) <= |st.supply|
    ensures var o := LoadFrom(st, file, s, p, OffAt(file, s, p));
      o.Loaded? && Roomy(o.st) && o.st.refused == st.refused && |o.st.supply| + PagesFrom(s, p) >= |st.supply|
    decreases Sub(EndOf(s), p * PAGE)
  {
    hide LoadPage, CopyLen, OffAt, Roomy, Unhindered;
    if p * PAGE < EndOf(s) {
      ServedPage(st, file, s, p);
      CopyLenIs(file, s, p);
      ServedSegment(LoadPage(st, file, s, p, OffAt(file, s, p)).st, file, s, p + 1);
    }
  }

  lemma {:induction false} ServedSegments(st: Space, file: seq<Byte>, segs: seq<Segment>)
    requires Roomy(st) && (forall i :: 0 <= i < |segs| ==> Unhindered(st.refused, segs[i])) && PagesNeeded(segs) <= |st.supply|
    ensures LoadSegments(st, file, segs).Loaded?
    decreases |segs|
  {
    hide LoadFrom, OffAt, Roomy, Unhindered, PagesFrom;
    if segs != [] {
      var s := segs[0];
      FirstOff(file, s);
      ServedSegment(st, file, s, s.vaddr / PAGE);
      assert forall i :: 0 <= i < |segs[1..]| ==> segs[1..][i] == segs[i + 1];
      ServedSegments(LoadFrom(st, file, s, s.vaddr / PAGE, s.offset).st, file, segs[1..]);
    }
  }

  /** With frames enough and nothing in the way, a file is loaded if its entry lies in a segment and
      halts the kernel otherwise. */
  lemma LoadsWhenServed(st: Space, file: seq<Byte>)
    requires HeaderOk(file) && Roomy(st) && PagesNeeded(Segments(file)) <= |st.supply|
    requires forall i :: 0 <= i < |Segments(file)| ==> Unhindered(st.refused, Segments(file)[i])
    ensures var inside := exists j :: 0 <= j < |Segments(file)|
                                      && Segments(file)[j].vaddr <= Entry(file) < EndOf(Segments(file)[j]);
      && (LoadElf(st, file).Loaded? <==> inside) && (LoadElf(st, file).Halted? <==> !inside)
  {
    hide Segments, HeaderOk, Roomy, Unhindered, LoadSegments, PagesNeeded;
    ServedSegments(st, file, Segments(file));
  }
}
