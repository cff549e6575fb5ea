// The file system as the kernel runs it: block by block through a bounce buffer, with the record
// table and the block counter updated in place. Proved against the functions of SimpleFs.

module FsVolume {
  import opened Options
  import opened SimpleFs

  /** A block that is not wholly on a device of whole blocks is not on it at all. */
  lemma BlockBeyond(b: nat, length: nat)
    requires length % BLOCK_SIZE == 0 && (b + 1) * BLOCK_SIZE > length
    ensures b * BLOCK_SIZE >= length
  {
    assert length == length / BLOCK_SIZE * BLOCK_SIZE;
  }

  lemma OverlayBlock(disk: seq<bv8>, base: nat, at: nat, piece: seq<bv8>, buf: seq<bv8>)
    requires at + |piece| <= BLOCK_SIZE && base + BLOCK_SIZE <= |disk|
    requires |buf| == BLOCK_SIZE
    requires forall i :: 0 <= i < BLOCK_SIZE ==> buf[i] == if at <= i < at + |piece| then piece[i - at] else disk[base + i]
    ensures Overlay(disk, base, buf) == Overlay(disk, base + at, piece)
  {
    var a, b := Overlay(disk, base, buf), Overlay(disk, base + at, piece);
    forall i | 0 <= i < |disk| ensures a[i] == b[i] {
      OverlayAt(disk, base, buf, i);
      OverlayAt(disk, base + at, piece, i);
    }
  }

  lemma OverlayNothing(disk: seq<bv8>, pos: nat, data: seq<bv8>)
    ensures Overlay(disk, pos, data[..0]) == disk
  {
  }

  lemma OverlayMore(disk: seq<bv8>, pos: nat, data: seq<bv8>, n: nat, copy: nat)
    requires n + copy <= |data| && pos + n + copy <= |disk|
    ensures Overlay(Overlay(disk, pos, data[..n]), pos + n, data[n..n + copy]) == Overlay(disk, pos, data[..n + copy])
  {
    var mid := Overlay(disk, pos, data[..n]);
    var a, b := Overlay(mid, pos + n, data[n..n + copy]), Overlay(disk, pos, data[..n + copy]);
    forall i | 0 <= i < |disk| ensures a[i] == b[i] {
      OverlayAt(disk, pos, data[..n], i);
      OverlayAt(mid, pos + n, data[n..n + copy], i);
      OverlayAt(disk, pos, data[..n + copy], i);
    }
  }

  method CopyInto(buf: array<bv8>, at: nat, piece: seq<bv8>)
    requires at + |piece| <= buf.Length
    modifies buf
    ensures forall k :: 0 <= k < buf.Length ==>
      buf[k] == if at <= k < at + |piece| then piece[k - at] else old(buf[k])
  {
    for j := 0 to |piece|
      invariant forall k :: 0 <= k < buf.Length ==>
        buf[k] == if at <= k < at + j then piece[k - at] else old(buf[k])
    {
      buf[at + j] := piece[j];
    }
  }

  lemma SliceOfSlice(d: seq<bv8>, a: nat, b: nat, i: nat, j: nat)
    requires a <= b <= |d| && i <= j <= b - a
    ensures d[a..b][i..j] == d[a + i..a + j]
  {
    var part, whole := d[a..b][i..j], d[a + i..a + j];
    assert forall k :: 0 <= k < |part| ==> part[k] == d[a..b][i + k] == whole[k];
  }

  class Volume {
    var mounted: bool
    const disk: array<bv8>
    const recs: array<Record>
    var nextFree: nat

    ghost predicate Valid()
    {
      recs.Length == 64 && disk.Length % BLOCK_SIZE == 0
    }

    ghost function St(): Fs
      requires Valid()
      reads this, disk, recs
    {
      Fs(mounted, disk[..], recs[..], nextFree)
    }

    /** The device refuses a block that is not wholly on it. */
    method ReadBlock(block: nat) returns (r: Option<seq<bv8>>)
      requires Valid()
      ensures r.Some? <==> (block + 1) * BLOCK_SIZE <= disk.Length
      ensures r.Some? ==> |r.value| == BLOCK_SIZE && r.value == disk[block * BLOCK_SIZE..(block + 1) * BLOCK_SIZE]
    {
      if (block + 1) * BLOCK_SIZE <= disk.Length {
        r := Some(disk[block * BLOCK_SIZE..(block + 1) * BLOCK_SIZE]);
      } else {
        r := None;
      }
    }

    method WriteBlock(block: nat, buf: seq<bv8>) returns (ok: bool)
      requires Valid() && |buf| == BLOCK_SIZE
      modifies disk
      ensures ok <==> (block + 1) * BLOCK_SIZE <= disk.Length
      ensures disk[..] == if ok then Overlay(old(disk[..]), block * BLOCK_SIZE, buf) else old(disk[..])
    {
      ok := (block + 1) * BLOCK_SIZE <= disk.Length;
      if !ok {
        return;
      }
      var base := block * BLOCK_SIZE;
      for i := 0 to BLOCK_SIZE
        invariant forall j :: 0 <= j < disk.Length ==> disk[j] == if base <= j < base + i then buf[j - base] else old(disk[j])
      {
        disk[base + i] := buf[i];
      }
      forall j | 0 <= j < disk.Length ensures disk[j] == Overlay(old(disk[..]), base, buf)[j] {
        OverlayAt(old(disk[..]), base, buf, j);
      }
    }

    method AllocFileRecord(name: seq<bv8>) returns (r: Option<nat>)
      requires Valid()
      modifies this`nextFree, recs
      ensures (St(), r) == AllocRecord(old(St()), name)
    {
      if !mounted || |name| > NAME_MAX {
        return None;
      }
      ghost var fs := St();
      for i := 0 to 64
        invariant St() == fs && FirstFreeRecord(fs.recs, 0) == FirstFreeRecord(fs.recs, i)
      {
        if recs[i].start == 0 {
          recs[i] := Record(Padded(name), 0, nextFree);
          nextFree := nextFree + 1;
          assert recs[..] == fs.recs[i := Record(Padded(name), 0, fs.nextFree)];
          return Some(i);
        }
      }
      r := None;
    }

    method FreeFileRecord(f: nat) returns (ok: bool)
      requires Valid()
      modifies recs
      ensures (St(), ok) == FreeRecord(old(St()), f)
    {
      if !mounted || f >= 64 {
        return false;
      }
      ghost var fs := St();
      recs[f] := recs[f].(start := 0, size := 0);
      assert recs[..] == fs.recs[f := fs.recs[f].(start := 0, size := 0)];
      ok := true;
    }

    method ReadFileData(f: nat, offset: nat, buf: array<bv8>) returns (read: nat)
      requires Valid() && buf != disk
      modifies buf
      ensures read == |Read(old(St()), f, offset, buf.Length)| <= buf.Length
      ensures buf[..] == Read(old(St()), f, offset, buf.Length) + old(buf[read..])
    {
      hide Fit;
      if !mounted || f >= 64 || recs[f].start == 0 {
        return 0;
      }
      var size, start := recs[f].size, recs[f].start;
      if offset >= size {
        return 0;
      }
      var toRead := if size - offset < buf.Length then size - offset else buf.Length;
      if toRead == 0 {
        return 0;
      }
      read := CopyOut(start, offset, toRead, buf);
      ghost var was, pos := old(buf[..]), start * BLOCK_SIZE + offset;
      assert buf[..] == (if read == 0 then [] else disk[..][pos..pos + read]) + was[read..];
    }

    /** Part of a block, or none when the block is not on the device. */
    method ReadPiece(block: nat, from: nat, n: nat) returns (r: Option<seq<bv8>>)
      requires Valid() && from + n <= BLOCK_SIZE
      ensures r.Some? <==> (block + 1) * BLOCK_SIZE <= disk.Length
      ensures r.Some? ==>
        var at := block * BLOCK_SIZE + from;
        |r.value| == n && at + n <= disk.Length && r.value == disk[..][at..at + n]
    {
      var whole := ReadBlock(block);
      if whole.None? {
        return None;
      }
      r := Some(whole.value[from..from + n]);
      SliceOfSlice(disk[..], block * BLOCK_SIZE, (block + 1) * BLOCK_SIZE, from, from + n);
    }

    method CopyOut(start: nat, offset: nat, toRead: nat, buf: array<bv8>) returns (read: nat)
      requires Valid() && buf != disk && toRead <= buf.Length
      modifies buf
      ensures read == Fit(disk.Length, start * BLOCK_SIZE + offset, toRead) <= buf.Length
      ensures read > 0 ==> start * BLOCK_SIZE + offset + read <= disk.Length
      ensures forall j :: 0 <= j < buf.Length ==>
        buf[j] == if j < read then disk[start * BLOCK_SIZE + offset + j] else old(buf[j])
    {
      read := 0;
      var blockOff: nat, inBlockOff: nat := offset / BLOCK_SIZE, offset % BLOCK_SIZE;
      ghost var pos := start * BLOCK_SIZE + offset;
      while read < toRead
        invariant read <= toRead && inBlockOff < BLOCK_SIZE
        invariant read < toRead ==> (start + blockOff) * BLOCK_SIZE + inBlockOff == pos + read
        invariant read > 0 ==> pos + read <= disk.Length
        invariant forall j :: 0 <= j < buf.Length ==> buf[j] == if j < read then disk[pos + j] else old(buf[j])
        decreases toRead - read
      {
        var copy := if BLOCK_SIZE - inBlockOff < toRead - read then BLOCK_SIZE - inBlockOff else toRead - read;
        var piece := ReadPiece(start + blockOff, inBlockOff, copy);
        if piece.None? {
          BlockBeyond(start + blockOff, disk.Length);
          break;
        }
        assert piece.value == disk[..][pos + read..pos + read + copy];
        CopyInto(buf, read, piece.value);
        read := read + copy;
        inBlockOff := 0;
        blockOff := blockOff + 1;
      }
    }

    method WriteFileData(f: nat, offset: nat, data: seq<bv8>) returns (written: nat)
      requires Valid()
      modifies this`nextFree, disk, recs
      ensures (St(), written) == Write(old(St()), f, offset, data)
    {
      hide Overlay, BlocksFor, Sat32, Fit;
      if !mounted || f >= 64 || recs[f].start == 0 || data == [] {
        return 0;
      }
      ghost var fs := St();
      var size, start := recs[f].size, recs[f].start;
      var end := Sat32(offset + |data|);
      var need, have := BlocksFor(end), BlocksFor(size);
      if need > have {
        recs[f] := recs[f].(size := Sat32(size + (need - have) * BLOCK_SIZE % (U32_MAX + 1)));
        nextFree := nextFree + (need - have);
      }
      assert recs[..] == fs.recs[f := recs[f]];
      written := CopyIn(start, offset, data);
      if written > 0 && end > recs[f].size {
        recs[f] := recs[f].(size := end);
      }
      assert recs[..] == fs.recs[f := recs[f]];
    }

    /** Read a block, put a piece of data into it, write it back. */
    method PatchBlock(block: nat, at: nat, piece: seq<bv8>) returns (ok: bool)
      requires Valid() && at + |piece| <= BLOCK_SIZE
      modifies disk
      ensures ok <==> (block + 1) * BLOCK_SIZE <= disk.Length
      ensures disk[..] == if ok then Overlay(old(disk[..]), block * BLOCK_SIZE + at, piece) else old(disk[..])
    {
      hide Overlay;
      var buf: seq<bv8> := seq(BLOCK_SIZE, _ => 0);
      var was := ReadBlock(block);
      if was.Some? {
        buf := was.value;
      }
      buf := buf[..at] + piece + buf[at + |piece|..];
      if was.Some? {
        OverlayBlock(disk[..], block * BLOCK_SIZE, at, piece, buf);
      }
      ok := WriteBlock(block, buf);
    }

    method CopyIn(start: nat, offset: nat, data: seq<bv8>) returns (written: nat)
      requires Valid()
      modifies disk
      ensures written == Fit(disk.Length, start * BLOCK_SIZE + offset, |data|)
      ensures disk[..] == Overlay(old(disk[..]), start * BLOCK_SIZE + offset, data[..written])
    {
      hide Overlay;
      written := 0;
      var blockOff: nat, inBlockOff: nat := offset / BLOCK_SIZE, offset % BLOCK_SIZE;
      ghost var pos, was := start * BLOCK_SIZE + offset, disk[..];
      OverlayNothing(was, pos, data);
      while written < |data|
        invariant written <= |data| && inBlockOff < BLOCK_SIZE
        invariant written < |data| ==> (start + blockOff) * BLOCK_SIZE + inBlockOff == pos + written
        invariant written > 0 ==> pos + written <= disk.Length
        invariant disk[..] == Overlay(was, pos, data[..written])
        decreases |data| - written
      {
        var copy := if BLOCK_SIZE - inBlockOff < |data| - written then BLOCK_SIZE - inBlockOff else |data| - written;
        var ok := PatchBlock(start + blockOff, inBlockOff, data[written..written + copy]);
        if !ok {
          BlockBeyond(start + blockOff, disk.Length);
          break;
        }
        OverlayMore(was, pos, data, written, copy);
        written := written + copy;
        inBlockOff := 0;
        blockOff := blockOff + 1;
      }
    }
  }
}
