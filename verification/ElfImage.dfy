// The ELF loader: header checks, the PT_LOAD segments of the file, and the page-by-page copy into
// frames that segments may share. Physical memory is a sequence of frames; the frame allocator is
// a supply of frames it would hand out, and `refused` are the pages the page tables cannot map.

module ElfImage {
  import opened Numbers
  import opened Options

  const PAGE: nat := 4096
  const PT_LOAD: nat := 1

  type Byte = b: nat | b < 256
  type Frame = f: seq<Byte> | |f| == 4096 witness seq(4096, _ => 0)

  datatype Segment = Segment(offset: nat, vaddr: nat, filesz: nat, memsz: nat, executable: bool)

  datatype Space = Space(mem: seq<Frame>, pages: map<nat, nat>, supply: seq<nat>, refused: set<nat>)

  datatype Outcome = Loaded(st: Space) | Failed(st: Space) | Halted

  // ----- headers -----

  /** The little-endian number in n bytes at `at`. */
  function Le(file: seq<Byte>, at: nat, n: nat): (r: nat)
    requires at + n <= |file|
    decreases n
  {
    if n == 0 then 0 else file[at] + 256 * Le(file, at + 1, n - 1)
  }

  predicate HeaderOk(file: seq<Byte>) {
    && |file| >= 64
    && file[0..4] == [0x7f, 0x45, 0x4c, 0x46] && file[4] == 2
    && (Le(file, 0x10, 2) == 2 || Le(file, 0x10, 2) == 3)
    && Le(file, 0x12, 2) == 0x3e
  }

  function Entry(file: seq<Byte>): nat
    requires HeaderOk(file)
  {
    Le(file, 0x18, 8)
  }

  function HeaderCount(file: seq<Byte>): nat
    requires HeaderOk(file)
  {
    Le(file, 0x38, 2)
  }

  /** The program header at `at`, if it is whole, loadable and not empty. */
  function SegmentAt(file: seq<Byte>, at: nat): (r: Option<Segment>) {
    if |file| < at + 56 || Le(file, at, 4) != PT_LOAD || Le(file, at + 40, 8) == 0 then None
    else Some(Segment(Le(file, at + 8, 8), Le(file, at + 16, 8), Le(file, at + 32, 8), Le(file, at + 40, 8),
                      Le(file, at + 4, 4) % 2 == 1))
  }

  function Product(a: nat, b: nat): nat {
    a * b
  }

  function HeaderPlace(file: seq<Byte>, i: nat): nat
    requires HeaderOk(file)
  {
    Le(file, 0x20, 8) + Product(i, Le(file, 0x36, 2))
  }

  /** The segments of headers i to n, in file order. */
  function SegmentsFrom(file: seq<Byte>, i: nat, n: nat): (r: seq<Segment>)
    requires HeaderOk(file) && i <= n
    ensures forall j :: 0 <= j < |r| ==> r[j].memsz > 0
    decreases n - i
  {
    if i == n then [] else
    var rest := SegmentsFrom(file, i + 1, n);
    match SegmentAt(file, HeaderPlace(file, i))
    case None => rest
    case Some(s) => [s] + rest
  }

  function Segments(file: seq<Byte>): (r: seq<Segment>)
    requires HeaderOk(file)
    ensures forall j :: 0 <= j < |r| ==> r[j].memsz > 0
  {
    SegmentsFrom(file, 0, HeaderCount(file))
  }

  // ----- one page -----

  /** How many file bytes from position off still belong to the segment and exist. */
  function FileLeft(file: seq<Byte>, s: Segment, off: nat): (r: nat)
    ensures r > 0 ==> off + r <= |file|
  {
    if off < s.offset + s.filesz then Min(s.offset + s.filesz - off, Sub(|file|, off)) else 0
  }

  /** Where in page p the segment's bytes begin. */
  function Dest(s: Segment, p: nat): nat {
    Sub(s.vaddr, p * PAGE)
  }

  function CopyLen(file: seq<Byte>, s: Segment, p: nat, off: nat): (r: nat)
    ensures r > 0 ==> off + r <= |file| && Dest(s, p) + r <= PAGE
  {
    Min(Sub(PAGE, Dest(s, p)), FileLeft(file, s, off))
  }

  function Piece(file: seq<Byte>, off: nat, n: nat): (r: seq<Byte>)
    requires n > 0 ==> off + n <= |file|
    ensures |r| == n
  {
    if n == 0 then [] else file[off..off + n]
  }

  /** A frame after a piece is copied to position `at`; a clean (fresh) frame is zeroed behind it. */
  function Filled(f: Frame, clean: bool, at: nat, piece: seq<Byte>): (r: Frame)
    requires piece != [] ==> at + |piece| <= PAGE
  {
    if at + |piece| > PAGE then f
    else f[..at] + piece + (if clean then seq(PAGE - at - |piece|, _ => 0) else f[at + |piece|..])
  }

  function FrameOf(mem: seq<Frame>, n: nat): Frame {
    if n < |mem| then mem[n] else seq(4096, _ => 0)
  }

  function SetFrame(mem: seq<Frame>, n: nat, f: Frame): (r: seq<Frame>)
    ensures |r| == |mem|
  {
    if n < |mem| then mem[n := f] else mem
  }

  /** The byte of physical memory `at` bytes after the start of frame n. */
  function PhysByte(mem: seq<Frame>, n: nat, at: nat): Byte {
    FrameOf(mem, n + at / PAGE)[at % PAGE]
  }

  /** The first page of an executable segment is compared with the file, 16 bytes of it. */
  predicate Probed(file: seq<Byte>, s: Segment, p: nat) {
    s.executable && p == s.vaddr / PAGE && s.filesz >= 16 && |file| >= s.offset + 16
  }

  predicate ProbeByte(mem: seq<Frame>, file: seq<Byte>, s: Segment, n: nat, at: nat, i: nat)
    requires |file| > s.offset + i
  {
    PhysByte(mem, n, at + i) == file[s.offset + i]
  }

  predicate ProbeOk(mem: seq<Frame>, file: seq<Byte>, s: Segment, n: nat, at: nat)
    requires |file| >= s.offset + 16
  {
    forall i :: 0 <= i < 16 ==> ProbeByte(mem, file, s, n, at, i)
  }

  /** Load page p of a segment from file position off. */
  function LoadPage(st: Space, file: seq<Byte>, s: Segment, p: nat, off: nat): (r: Outcome) {
    var n, at := CopyLen(file, s, p, off), Dest(s, p);
    var piece := Piece(file, off, n);
    if p in st.pages then
      var frame := st.pages[p];
      var st' := st.(mem := SetFrame(st.mem, frame, Filled(FrameOf(st.mem, frame), false, at, piece)));
      if Probed(file, s, p) && !ProbeOk(st'.mem, file, s, frame, at) then Halted else Loaded(st')
    else if st.supply == [] then Failed(st)
    else
      var frame := st.supply[0];
      var st1 := st.(supply := st.supply[1..],
                     mem := SetFrame(st.mem, frame, Filled(FrameOf(st.mem, frame), true, at, piece)));
      if p in st.refused then Failed(st1)
      else
        var st2 := st1.(pages := st.pages[p := frame]);
        if Probed(file, s, p) && !ProbeOk(st2.mem, file, s, frame, at) then Halted else Loaded(st2)
  }

  // ----- segments and files -----

  function EndOf(s: Segment): nat {
    s.vaddr + s.memsz
  }

  function LoadFrom(st: Space, file: seq<Byte>, s: Segment, p: nat, off: nat): (r: Outcome)
    decreases Sub(EndOf(s), p * PAGE)
  {
    if p * PAGE >= EndOf(s) then Loaded(st)
    else match LoadPage(st, file, s, p, off)
      case Loaded(st') => LoadFrom(st', file, s, p + 1, off + CopyLen(file, s, p, off))
      case other => other
  }

  function LoadSegments(st: Space, file: seq<Byte>, segs: seq<Segment>): (r: Outcome)
    decreases |segs|
  {
    if segs == [] then Loaded(st)
    else match LoadFrom(st, file, segs[0], segs[0].vaddr / PAGE, segs[0].offset)
      case Loaded(st') => LoadSegments(st', file, segs[1..])
      case other => other
  }

  predicate EntryInside(segs: seq<Segment>, entry: nat) {
    exists j :: 0 <= j < |segs| && segs[j].vaddr <= entry < EndOf(segs[j])
  }

  /** The whole loader; a file whose entry lies in no segment halts the kernel. */
  function LoadElf(st: Space, file: seq<Byte>): (r: Outcome) {
    if !HeaderOk(file) then Failed(st)
    else match LoadSegments(st, file, Segments(file))
      case Loaded(st') => if EntryInside(Segments(file), Entry(file)) then Loaded(st') else Halted
      case other => other
  }
}
