// The loader as the kernel runs it: a loop over program headers, and for each segment a loop over
// its pages that updates the address and the file position. Proved against ElfImage.

module ElfLoader {
  import opened Numbers
  import opened Options
  import opened ElfImage

  datatype Status = Ok | Error | Halt

  class Loader {
    const mem: array<Frame>
    var pages: map<nat, nat>
    var supply: seq<nat>
    const refused: set<nat>

    constructor (frames: seq<Frame>, pages: map<nat, nat>, supply: seq<nat>, refused: set<nat>)
      ensures St() == Space(frames, pages, supply, refused) && fresh(mem)
    {
      mem := new Frame[|frames|](i requires 0 <= i < |frames| => frames[i]);
      this.pages, this.supply, this.refused := pages, supply, refused;
    }

    ghost function St(): Space
      reads this, mem
    {
      Space(mem[..], pages, supply, refused)
    }

    /** The answer and the new state agree with the specification. */
    ghost predicate Agrees(o: Outcome, r: Status)
      reads this, mem
    {
      match o
      case Loaded(st) => r == Ok && St() == st
      case Failed(st) => r == Error && St() == st
      case Halted => r == Halt
    }

    method CopyPage(frame: nat, clean: bool, at: nat, piece: seq<Byte>)
      requires piece != [] ==> at + |piece| <= PAGE
      modifies mem
      ensures mem[..] == SetFrame(old(mem[..]), frame, Filled(FrameOf(old(mem[..]), frame), clean, at, piece))
    {
      if frame < mem.Length {
        ghost var was := mem[..];
        mem[frame] := Filled(mem[frame], clean, at, piece);
        assert mem[..] == was[frame := mem[frame]];
      }
    }

    method ProbeText(file: seq<Byte>, s: Segment, frame: nat, at: nat) returns (ok: bool)
      requires |file| >= s.offset + 16
      ensures ok == ProbeOk(mem[..], file, s, frame, at)
    {
      ok := true;
      for i := 0 to 16
        invariant ok <==> forall j :: 0 <= j < i ==> ProbeByte(mem[..], file, s, frame, at, j)
      {
        if PhysByte(mem[..], frame, at + i) != file[s.offset + i] {
          ok := false;
        }
        assert ProbeByte(mem[..], file, s, frame, at, i) <==> PhysByte(mem[..], frame, at + i) == file[s.offset + i];
      }
    }

    method LoadOnePage(file: seq<Byte>, s: Segment, p: nat, off: nat) returns (r: Status)
      modifies this, mem
      ensures Agrees(LoadPage(old(St()), file, s, p, off), r)
    {
      hide Filled, SetFrame, FrameOf, CopyLen, Dest, Piece, ProbeOk;
      var n, at := CopyLen(file, s, p, off), Dest(s, p);
      var piece := Piece(file, off, n);
      var existing := p in pages;
      var frame: nat;
      if existing {
        frame := pages[p];
      } else {
        if supply == [] {
          return Error;
        }
        frame := supply[0];
        supply := supply[1..];
      }
      CopyPage(frame, !existing, at, piece);
      if !existing {
        if p in refused {
          return Error;
        }
        pages := pages[p := frame];
      }
      if Probed(file, s, p) {
        var ok := ProbeText(file, s, frame, at);
        if !ok {
          return Halt;
        }
      }
      r := Ok;
    }

    method LoadSegment(file: seq<Byte>, s: Segment) returns (r: Status)
      modifies this, mem
      ensures Agrees(LoadFrom(old(St()), file, s, s.vaddr / PAGE, s.offset), r)
    {
      hide LoadPage, CopyLen;
      ghost var o := LoadFrom(St(), file, s, s.vaddr / PAGE, s.offset);
      var p, off := s.vaddr / PAGE, s.offset;
      while p * PAGE < EndOf(s)
        invariant p >= 0 && off >= 0 && LoadFrom(St(), file, s, p, off) == o
        decreases EndOf(s) - p * PAGE
      {
        r := LoadOnePage(file, s, p, off);
        if r != Ok {
          return;
        }
        p, off := p + 1, off + CopyLen(file, s, p, off);
      }
      r := Ok;
    }

    method Load(file: seq<Byte>) returns (r: Status)
      modifies this, mem
      ensures Agrees(LoadElf(old(St()), file), r)
    {
      hide LoadFrom, LoadSegments, SegmentsFrom, SegmentAt, HeaderPlace, HeaderOk, EntryInside, Le;
      if !HeaderOk(file) {
        return Error;
      }
      var entry, n := Entry(file), HeaderCount(file);
      var inside := false;
      ghost var o := LoadSegments(St(), file, SegmentsFrom(file, 0, n));
      NoSegments(file, entry, n);
      for i := 0 to n
        invariant LoadSegments(St(), file, SegmentsFrom(file, i, n)) == o
        invariant EntryInside(SegmentsFrom(file, 0, n), entry)
                  <==> inside || EntryInside(SegmentsFrom(file, i, n), entry)
      {
        ghost var st := St();
        NextHeader(st, file, i, n, entry);
        var h := SegmentAt(file, HeaderPlace(file, i));
        if h.Some? {
          if h.value.vaddr <= entry < EndOf(h.value) {
            inside := true;
          }
          r := LoadSegment(file, h.value);
          if r != Ok {
            return;
          }
        }
      }
      NoMoreSegments(St(), file, n);
      r := if inside then Ok else Halt;
    }
  }

  /** Header i either is skipped or is the first of the remaining segments. */
  lemma NextHeader(st: Space, file: seq<Byte>, i: nat, n: nat, entry: nat)
    requires HeaderOk(file) && i < n
    ensures var here, rest := SegmentsFrom(file, i, n), SegmentsFrom(file, i + 1, n);
      match SegmentAt(file, HeaderPlace(file, i))
      case None => here == rest
      case Some(s) =>
        && LoadSegments(st, file, here) ==
             (match LoadFrom(st, file, s, s.vaddr / PAGE, s.offset)
              case Loaded(st') => LoadSegments(st', file, rest)
              case other => other)
        && (EntryInside(here, entry) <==> s.vaddr <= entry < EndOf(s) || EntryInside(rest, entry))
  {
    hide LoadFrom, SegmentAt, HeaderPlace, HeaderOk;
    var rest := SegmentsFrom(file, i + 1, n);
    var h := SegmentAt(file, HeaderPlace(file, i));
    if h.Some? {
      var here := [h.value] + rest;
      assert here[0] == h.value && here[1..] == rest;
      assert forall j :: 0 <= j < |rest| ==> here[j + 1] == rest[j];
    }
  }

  lemma NoMoreSegments(st: Space, file: seq<Byte>, n: nat)
    requires HeaderOk(file)
    ensures LoadSegments(st, file, SegmentsFrom(file, n, n)) == Loaded(st)
  {
  }

  lemma NoSegments(file: seq<Byte>, entry: nat, n: nat)
    requires HeaderOk(file)
    ensures !EntryInside(SegmentsFrom(file, n, n), entry)
  {
  }
}
