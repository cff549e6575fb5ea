// The ELF64 headers as a linker writes them, and what the loader makes of a file that holds them.

module ElfHeaders {
  import opened Numbers
  import opened Options
  import opened ElfImage
  import opened ElfCorrect

  // ----- little-endian numbers -----

  /** One more than the largest number of that many bytes. */
  function Limit(width: nat): (r: nat)
    ensures r > 0
  {
    if width == 0 then 1 else 256 * Limit(width - 1)
  }

  function Bytes(n: nat, width: nat): (r: seq<Byte>)
    ensures |r| == width
    decreases width
  {
    if width == 0 then [] else [n % 256] + Bytes(n / 256, width - 1)
  }

  /** The file holds these bytes at `at`. */
  predicate Holds(file: seq<Byte>, at: nat, bytes: seq<Byte>) {
    at + |bytes| <= |file| && file[at..at + |bytes|] == bytes
  }

  lemma {:induction false} LeInverts(file: seq<Byte>, at: nat, n: nat, width: nat)
    requires n < Limit(width) && Holds(file, at, Bytes(n, width))
    ensures Le(file, at, width) == n
    decreases width
  {
    if width > 0 {
      var all := Bytes(n, width);
      assert file[at..at + width] == all && file[at] == all[0];
      assert file[at + 1..at + width] == all[1..] == Bytes(n / 256, width - 1);
      LeInverts(file, at + 1, n / 256, width - 1);
    }
  }

  lemma HoldsPart(file: seq<Byte>, at: nat, before: seq<Byte>, part: seq<Byte>, behind: seq<Byte>)
    requires Holds(file, at, before + part + behind)
    ensures Holds(file, at + |before|, part)
  {
    var all := before + part + behind;
    var from := at + |before|;
    assert forall i :: 0 <= i < |part| ==> file[from..from + |part|][i] == file[at..at + |all|][|before| + i] == part[i];
  }

  /** A number field inside a header. */
  lemma FieldIs(file: seq<Byte>, at: nat, before: seq<Byte>, n: nat, width: nat, behind: seq<Byte>)
    requires Holds(file, at, before + Bytes(n, width) + behind) && n < Limit(width)
    ensures at + |before| + width <= |file| && Le(file, at + |before|, width) == n
  {
    HoldsPart(file, at, before, Bytes(n, width), behind);
    LeInverts(file, at + |before|, n, width);
  }

  lemma Limits()
    ensures Limit(2) == 0x1_0000 && Limit(4) == 0x1_0000_0000 && Limit(8) == 0x1_0000_0000_0000_0000
  {
    assert Limit(3) == 0x100_0000 && Limit(5) == 0x100_0000_0000;
    assert Limit(6) == 0x1_0000_0000_0000 && Limit(7) == 0x100_0000_0000_0000;
  }

  // ----- program headers -----

  datatype ProgramHeader = ProgramHeader(
    kind: nat, flags: nat, offset: nat, vaddr: nat, paddr: nat, filesz: nat, memsz: nat, align: nat)

  predicate PhFits(h: ProgramHeader) {
    && h.kind < 0x1_0000_0000 && h.flags < 0x1_0000_0000
    && h.offset < 0x1_0000_0000_0000_0000 && h.vaddr < 0x1_0000_0000_0000_0000 && h.paddr < 0x1_0000_0000_0000_0000
    && h.filesz < 0x1_0000_0000_0000_0000 && h.memsz < 0x1_0000_0000_0000_0000 && h.align < 0x1_0000_0000_0000_0000
  }

  /** The 56 bytes of a program header. */
  function PhBytes(h: ProgramHeader): (r: seq<Byte>)
    ensures |r| == 56
  {
    Bytes(h.kind, 4) + Bytes(h.flags, 4) + Bytes(h.offset, 8) + Bytes(h.vaddr, 8) + Bytes(h.paddr, 8)
    + Bytes(h.filesz, 8) + Bytes(h.memsz, 8) + Bytes(h.align, 8)
  }

  /** The segment a header asks for: of type 1 and not empty in memory. */
  function Wanted(h: ProgramHeader): Option<Segment> {
    if h.kind == 1 && h.memsz > 0
    then Some(Segment(h.offset, h.vaddr, h.filesz, h.memsz, h.flags % 2 == 1))
    else None
  }

  lemma PhFields(file: seq<Byte>, at: nat, h: ProgramHeader)
    requires Holds(file, at, PhBytes(h)) && PhFits(h)
    ensures at + 56 <= |file| && Le(file, at, 4) == h.kind && Le(file, at + 4, 4) == h.flags
    ensures Le(file, at + 8, 8) == h.offset && Le(file, at + 16, 8) == h.vaddr
    ensures Le(file, at + 32, 8) == h.filesz && Le(file, at + 40, 8) == h.memsz
  {
    hide Bytes, Holds, Le, Limit;
    Limits();
    var k, f, o, v := Bytes(h.kind, 4), Bytes(h.flags, 4), Bytes(h.offset, 8), Bytes(h.vaddr, 8);
    var p, s, m, a := Bytes(h.paddr, 8), Bytes(h.filesz, 8), Bytes(h.memsz, 8), Bytes(h.align, 8);
    assert PhBytes(h) == [] + k + (f + o + v + p + s + m + a);
    FieldIs(file, at, [], h.kind, 4, f + o + v + p + s + m + a);
    assert PhBytes(h) == k + f + (o + v + p + s + m + a);
    FieldIs(file, at, k, h.flags, 4, o + v + p + s + m + a);
    assert PhBytes(h) == (k + f) + o + (v + p + s + m + a);
    FieldIs(file, at, k + f, h.offset, 8, v + p + s + m + a);
    assert PhBytes(h) == (k + f + o) + v + (p + s + m + a);
    FieldIs(file, at, k + f + o, h.vaddr, 8, p + s + m + a);
    assert PhBytes(h) == (k + f + o + v + p) + s + (m + a);
    FieldIs(file, at, k + f + o + v + p, h.filesz, 8, m + a);
    assert PhBytes(h) == (k + f + o + v + p + s) + m + a;
    FieldIs(file, at, k + f + o + v + p + s, h.memsz, 8, a);
    HoldsFits(file, at, PhBytes(h));
  }

  lemma HoldsFits(file: seq<Byte>, at: nat, bytes: seq<Byte>)
    requires Holds(file, at, bytes)
    ensures at + |bytes| <= |file|
  {
  }

  /** A file that holds a program header yields exactly the segment the header asks for. */
  lemma SegmentIsHeader(file: seq<Byte>, at: nat, h: ProgramHeader)
    requires Holds(file, at, PhBytes(h)) && PhFits(h)
    ensures SegmentAt(file, at) ==
      if h.kind == 1 && h.memsz > 0 then Some(Segment(h.offset, h.vaddr, h.filesz, h.memsz, h.flags % 2 == 1)) else None
  {
    hide Holds, Le, PhBytes;
    PhFields(file, at, h);
  }

  // ----- the file header -----

  datatype FileHeader = FileHeader(
    ident: seq<Byte>, kind: nat, machine: nat, version: nat, entry: nat, phoff: nat, shoff: nat, flags: nat,
    ehsize: nat, phentsize: nat, phnum: nat, shentsize: nat, shnum: nat, shstrndx: nat)

  predicate EhFits(h: FileHeader) {
    && |h.ident| == 16 && h.kind < 0x1_0000 && h.machine < 0x1_0000
    && h.entry < 0x1_0000_0000_0000_0000 && h.phoff < 0x1_0000_0000_0000_0000
    && h.phentsize < 0x1_0000 && h.phnum < 0x1_0000
  }

  function EhTop(h: FileHeader): (r: seq<Byte>)
    ensures |r| == |h.ident| + 8
  {
    h.ident + Bytes(h.kind, 2) + Bytes(h.machine, 2) + Bytes(h.version, 4)
  }

  function EhPlaces(h: FileHeader): (r: seq<Byte>)
    ensures |r| == 16
  {
    Bytes(h.entry, 8) + Bytes(h.phoff, 8)
  }

  function EhMiddle(h: FileHeader): (r: seq<Byte>)
    ensures |r| == 14
  {
    Bytes(h.shoff, 8) + Bytes(h.flags, 4) + Bytes(h.ehsize, 2)
  }

  function EhCounts(h: FileHeader): (r: seq<Byte>)
    ensures |r| == 4
  {
    Bytes(h.phentsize, 2) + Bytes(h.phnum, 2)
  }

  function EhEnd(h: FileHeader): (r: seq<Byte>)
    ensures |r| == 6
  {
    Bytes(h.shentsize, 2) + Bytes(h.shnum, 2) + Bytes(h.shstrndx, 2)
  }

  /** The 64 bytes of a file header. */
  function EhBytes(h: FileHeader): (r: seq<Byte>)
    ensures |h.ident| == 16 ==> |r| == 64
  {
    EhTop(h) + EhPlaces(h) + EhMiddle(h) + EhCounts(h) + EhEnd(h)
  }

  lemma EhFields(file: seq<Byte>, h: FileHeader)
    requires EhFits(h) && Holds(file, 0, EhBytes(h))
    ensures 64 <= |file| && file[..16] == h.ident && Le(file, 0x10, 2) == h.kind && Le(file, 0x12, 2) == h.machine
    ensures Le(file, 0x18, 8) == h.entry && Le(file, 0x20, 8) == h.phoff
    ensures Le(file, 0x36, 2) == h.phentsize && Le(file, 0x38, 2) == h.phnum
  {
    hide Bytes, Holds, Le, Limit, EhTop, EhMiddle, EhEnd;
    var t, p, m, c, e := EhTop(h), EhPlaces(h), EhMiddle(h), EhCounts(h), EhEnd(h);
    HoldsFits(file, 0, EhBytes(h));
    assert EhBytes(h) == [] + t + (p + m + c + e);
    HoldsPart(file, 0, [], t, p + m + c + e);
    TopFields(file, h);
    assert EhBytes(h) == t + p + (m + c + e);
    HoldsPart(file, 0, t, p, m + c + e);
    PairFields(file, 24, h.entry, h.phoff, 8);
    assert EhBytes(h) == (t + p + m) + c + e;
    HoldsPart(file, 0, t + p + m, c, e);
    PairFields(file, 54, h.phentsize, h.phnum, 2);
  }

  lemma TopFields(file: seq<Byte>, h: FileHeader)
    requires EhFits(h) && Holds(file, 0, EhTop(h))
    ensures 24 <= |file| && file[..16] == h.ident && Le(file, 0x10, 2) == h.kind && Le(file, 0x12, 2) == h.machine
  {
    hide Bytes, Holds, Le, Limit;
    Limits();
    var i, k, c, v := h.ident, Bytes(h.kind, 2), Bytes(h.machine, 2), Bytes(h.version, 4);
    HoldsFits(file, 0, EhTop(h));
    assert EhTop(h) == [] + i + (k + c + v);
    IdentIs(file, i, k + c + v);
    assert EhTop(h) == i + k + (c + v);
    FieldIs(file, 0, i, h.kind, 2, c + v);
    FieldIs(file, 0, i + k, h.machine, 2, v);
  }

  lemma PairFields(file: seq<Byte>, at: nat, a: nat, b: nat, width: nat)
    requires Holds(file, at, Bytes(a, width) + Bytes(b, width))
    requires (width == 2 && a < 0x1_0000 && b < 0x1_0000)
             || (width == 8 && a < 0x1_0000_0000_0000_0000 && b < 0x1_0000_0000_0000_0000)
    ensures at + 2 * width <= |file| && Le(file, at, width) == a && Le(file, at + width, width) == b
  {
    hide Bytes, Holds, Le, Limit;
    Limits();
    var x, y := Bytes(a, width), Bytes(b, width);
    assert x + y == [] + x + y && x + y == x + y + [];
    HoldsFits(file, at, x + y);
    FieldIs(file, at, [], a, width, y);
    FieldIs(file, at, x, b, width, []);
  }

  lemma IdentIs(file: seq<Byte>, ident: seq<Byte>, behind: seq<Byte>)
    requires |ident| == 16 && Holds(file, 0, [] + ident + behind)
    ensures 16 <= |file| && file[..16] == ident
  {
    HoldsPart(file, 0, [], ident, behind);
  }

  /** A file with this header is accepted if and only if it is a 64-bit x86 program, and then its
      entry, header count and header places are those of the header. */
  lemma HeaderIsFile(file: seq<Byte>, h: FileHeader)
    requires EhFits(h) && Holds(file, 0, EhBytes(h))
    ensures HeaderOk(file) <==>
      && h.ident[0] == 0x7f && h.ident[1] == 0x45 && h.ident[2] == 0x4c && h.ident[3] == 0x46 && h.ident[4] == 2
      && (h.kind == 2 || h.kind == 3) && h.machine == 0x3e
    ensures HeaderOk(file) ==>
      && Entry(file) == h.entry && HeaderCount(file) == h.phnum
      && forall i: nat :: HeaderPlace(file, i) == h.phoff + i * h.phentsize
  {
    hide Le, Holds, EhBytes;
    EhFields(file, h);
    assert forall i :: 0 <= i < 16 ==> file[i] == file[..16][i] == h.ident[i];
    assert file[0..4] == [0x7f, 0x45, 0x4c, 0x46] <==>
      file[0] == 0x7f && file[1] == 0x45 && file[2] == 0x4c && file[3] == 0x46;
  }

  // ----- whole files -----

  /** The segments asked for by headers i and on. */
  function WantedFrom(phs: seq<ProgramHeader>, i: nat): (r: seq<Segment>)
    requires i <= |phs|
    decreases |phs| - i
  {
    if i == |phs| then [] else
    (if Wanted(phs[i]).Some? then [Wanted(phs[i]).value] else []) + WantedFrom(phs, i + 1)
  }

  function PlaceOf(h: FileHeader, i: nat): nat {
    h.phoff + i * h.phentsize
  }

  /** The file holds this header, and these program headers where the header says. */
  ghost predicate IsProgram(file: seq<Byte>, h: FileHeader, phs: seq<ProgramHeader>) {
    && EhFits(h) && Holds(file, 0, EhBytes(h)) && HeaderOk(file) && |phs| == h.phnum
    && forall i: nat :: i < |phs| ==> HoldsHeader(file, PlaceOf(h, i), phs[i])
  }

  predicate HoldsHeader(file: seq<Byte>, at: nat, h: ProgramHeader) {
    PhFits(h) && Holds(file, at, PhBytes(h))
  }

  lemma HeaderFound(file: seq<Byte>, h: FileHeader, phs: seq<ProgramHeader>, i: nat)
    requires IsProgram(file, h, phs) && i < |phs|
    ensures HeaderOk(file) && SegmentAt(file, HeaderPlace(file, i)) == Wanted(phs[i])
  {
    hide Holds, PhBytes, EhBytes, HeaderOk, HeaderPlace, SegmentAt, PhFits;
    HeaderIsFile(file, h);
    assert HeaderPlace(file, i) == PlaceOf(h, i);
    assert HoldsHeader(file, PlaceOf(h, i), phs[i]);
    SegmentIsHeader(file, PlaceOf(h, i), phs[i]);
  }

  lemma {:induction false} SegmentsAreWanted(file: seq<Byte>, h: FileHeader, phs: seq<ProgramHeader>, i: nat)
    requires IsProgram(file, h, phs) && i <= |phs|
    ensures HeaderOk(file) && SegmentsFrom(file, i, |phs|) == WantedFrom(phs, i)
    decreases |phs| - i
  {
    hide IsProgram, HeaderOk, HeaderPlace, SegmentAt, Wanted;
    ProgramOk(file, h, phs);
    if i < |phs| {
      HeaderFound(file, h, phs, i);
      SegmentsAreWanted(file, h, phs, i + 1);
    }
  }

  lemma ProgramOk(file: seq<Byte>, h: FileHeader, phs: seq<ProgramHeader>)
    requires IsProgram(file, h, phs)
    ensures HeaderOk(file)
  {
  }

  lemma {:induction false} WantedIsThere(phs: seq<ProgramHeader>, i: nat, from: nat) returns (j: nat)
    requires from <= i < |phs| && Wanted(phs[i]).Some?
    ensures j < |WantedFrom(phs, from)| && WantedFrom(phs, from)[j] == Wanted(phs[i]).value
    decreases i - from
  {
    if i == from {
      j := 0;
    } else {
      j := WantedIsThere(phs, i, from + 1);
      j := j + if Wanted(phs[from]).Some? then 1 else 0;
    }
  }

  lemma {:induction false} WantedComesFrom(phs: seq<ProgramHeader>, from: nat, j: nat) returns (i: nat)
    requires from <= |phs| && j < |WantedFrom(phs, from)|
    ensures from <= i < |phs| && Wanted(phs[i]) == Some(WantedFrom(phs, from)[j])
    decreases |phs| - from
  {
    var here := Wanted(phs[from]).Some?;
    if here && j == 0 {
      i := from;
    } else {
      i := WantedComesFrom(phs, from + 1, if here then j - 1 else j);
    }
  }

  /** The byte that header h puts at address a. */
  function FileByte(file: seq<Byte>, h: ProgramHeader, a: nat): Byte
    requires h.vaddr <= a
  {
    if a - h.vaddr < h.filesz && h.offset + a - h.vaddr < |file| then file[h.offset + a - h.vaddr] else 0
  }

  /** A program that is loaded: for every header of type 1, every byte from its address on is the
      file byte from its offset on, or zero past the file part, and the entry lies in one of them. */
  lemma ProgramIsLoaded(st: Space, file: seq<Byte>, h: FileHeader, phs: seq<ProgramHeader>, st': Space)
    requires IsProgram(file, h, phs) && Supplied(st) && Ascending(WantedFrom(phs, 0))
    requires forall j :: 0 <= j < |WantedFrom(phs, 0)| ==> Unmapped(st.pages, WantedFrom(phs, 0)[j])
    requires LoadElf(st, file) == Loaded(st')
    ensures forall i, a :: 0 <= i < |phs| && phs[i].kind == 1 && phs[i].vaddr <= a < phs[i].vaddr + phs[i].memsz ==>
      a / 4096 in st'.pages && FrameOf(st'.mem, st'.pages[a / 4096])[a % 4096] == FileByte(file, phs[i], a)
    ensures exists i :: 0 <= i < |phs| && phs[i].kind == 1 && phs[i].vaddr <= h.entry < phs[i].vaddr + phs[i].memsz
  {
    hide LoadElf, Supplied, Unmapped, HeaderOk, IsProgram, Ascending, WantedFrom, FrameOf, Entry, Right, RightBetween;
    SegmentsAreWanted(file, h, phs, 0);
    ProgramIs(file, h, phs);
    ImageIsFile(st, file, st');
    var segs := Segments(file);
    forall i, a | 0 <= i < |phs| && phs[i].kind == 1 && phs[i].vaddr <= a < phs[i].vaddr + phs[i].memsz
      ensures a / 4096 in st'.pages && FrameOf(st'.mem, st'.pages[a / 4096])[a % 4096] == FileByte(file, phs[i], a)
    {
      var j := WantedIsThere(phs, i, 0);
      RightIsFile(st', file, phs[i], a);
    }
    var j :| 0 <= j < |segs| && segs[j].vaddr <= Entry(file) < EndOf(segs[j]);
    var i := WantedComesFrom(phs, 0, j);
    assert phs[i].kind == 1;
  }

  lemma ProgramIs(file: seq<Byte>, h: FileHeader, phs: seq<ProgramHeader>)
    requires IsProgram(file, h, phs)
    ensures HeaderOk(file) && Entry(file) == h.entry && HeaderCount(file) == |phs|
  {
    hide Holds, HoldsHeader, EhBytes, HeaderOk, Entry, HeaderCount;
    HeaderIsFile(file, h);
  }

  lemma RightIsFile(st: Space, file: seq<Byte>, h: ProgramHeader, a: nat)
    requires Wanted(h).Some? && h.vaddr <= a < h.vaddr + h.memsz
    requires RightBetween(st, file, Wanted(h).value, h.vaddr, h.vaddr + h.memsz)
    ensures a / 4096 in st.pages && FrameOf(st.mem, st.pages[a / 4096])[a % 4096] == FileByte(file, h, a)
  {
    hide FrameOf;
    assert Right(st, file, Wanted(h).value, a);
  }
}
