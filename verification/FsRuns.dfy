// What the file system promises: a read returns what was last written, a write keeps every other
// byte, and files stay apart exactly while no file grows over another's first block.

module FsRuns {
  import opened Numbers
  import opened Options
  import opened SimpleFs

  // ----- block arithmetic -----

  lemma BlocksMonotone(a: nat, b: nat)
    requires a <= b
    ensures BlocksFor(a) <= BlocksFor(b)
  {
  }

  lemma BlocksAtMost(a: nat, n: nat)
    requires a <= n * BLOCK_SIZE
    ensures BlocksFor(a) <= n
  {
  }

  function SizeAfter(size: nat, end: nat): nat {
    Max(end, Grown(size, end))
  }

  /** Growing never shrinks a file and adds no blocks beyond those needed. */
  lemma GrownBounds(size: nat, end: nat)
    requires size <= U32_MAX && end <= U32_MAX
    ensures size <= Grown(size, end) <= U32_MAX
    ensures BlocksFor(Grown(size, end)) <= Max(BlocksFor(size), BlocksFor(end))
    ensures BlocksFor(SizeAfter(size, end)) <= Max(BlocksFor(size), BlocksFor(end))
  {
    var need, have := BlocksFor(end), BlocksFor(size);
    if need > have {
      assert (need - have) * BLOCK_SIZE % (U32_MAX + 1) <= (need - have) * BLOCK_SIZE;
      BlocksAtMost(Grown(size, end), need);
    }
  }

  /** The recorded size is not the end of the data: it is always rounded up to whole blocks,
      except when the first write to a file ends in the last block below 4 GiB. */
  lemma SizeIsRounded(size: nat, end: nat)
    requires size % BLOCK_SIZE == 0 && size <= U32_MAX && end <= U32_MAX
    ensures SizeAfter(size, end) == Max(size, Sat32(BlocksFor(end) * BLOCK_SIZE))
            <==> !(size == 0 && U32_MAX - BLOCK_SIZE + 1 < end < U32_MAX)
  {
    var need, have := BlocksFor(end), BlocksFor(size);
    assert size == have * BLOCK_SIZE;
    if need > have {
      if have == 0 && need == 0x10_0000 {
        assert need * BLOCK_SIZE % (U32_MAX + 1) == 0;
      } else {
        assert (need - have) * BLOCK_SIZE < U32_MAX + 1;
        assert (need - have) * BLOCK_SIZE % (U32_MAX + 1) == (need - have) * BLOCK_SIZE;
      }
    }
  }

  // ----- files kept apart -----

  /** Blocks a file holds: at least the one its record was created with. */
  function Extent(r: Record): nat {
    Max(1, BlocksFor(r.size))
  }

  predicate Before(a: Record, b: Record) {
    a.start + Extent(a) <= b.start
  }

  /** Every file lies between the table and the free blocks, and no two files overlap. */
  ghost predicate Apart(fs: Fs) {
    && fs.nextFree >= DATA_START_BLOCK
    && (forall f :: Live(fs, f) ==>
          && DATA_START_BLOCK <= fs.recs[f].start && fs.recs[f].start + Extent(fs.recs[f]) <= fs.nextFree
          && fs.recs[f].size <= U32_MAX)
    && (forall f, g :: Live(fs, f) && Live(fs, g) && f != g ==>
          Before(fs.recs[f], fs.recs[g]) || Before(fs.recs[g], fs.recs[f]))
  }

  /** No other file starts inside the first n blocks of f. */
  ghost predicate RoomFor(fs: Fs, f: nat, n: nat) {
    Live(fs, f) ==>
      forall g :: Live(fs, g) && g != f ==> !(fs.recs[f].start <= fs.recs[g].start < fs.recs[f].start + n)
  }

  lemma AllocKeepsApart(fs: Fs, name: seq<bv8>)
    requires Apart(fs)
    ensures Apart(AllocRecord(fs, name).0)
  {
    var (fs', r) := AllocRecord(fs, name);
    if r.Some? {
      assert forall f :: Live(fs', f) <==> Live(fs, f) || f == r.value;
      assert forall f :: Live(fs, f) ==> Before(fs.recs[f], fs'.recs[r.value]);
    }
  }

  lemma FreeKeepsApart(fs: Fs, f: nat)
    requires Apart(fs)
    ensures Apart(FreeRecord(fs, f).0)
  {
    var fs' := FreeRecord(fs, f).0;
    assert forall g :: Live(fs', g) ==> Live(fs, g) && fs'.recs[g] == fs.recs[g];
  }

  /** What a write to a live file does. */
  ghost predicate Wrote(fs: Fs, f: nat, offset: nat, data: seq<bv8>, fs': Fs, n: nat) {
    && fs.mounted && Live(fs, f) && data != [] && offset <= U32_MAX && |data| <= U32_MAX
    && Write(fs, f, offset, data) == (fs', n)
  }

  function End(offset: nat, data: seq<bv8>): nat {
    Sat32(offset + |data|)
  }

  lemma WroteRecord(fs: Fs, f: nat, offset: nat, data: seq<bv8>, fs': Fs, n: nat)
    requires Wrote(fs, f, offset, data, fs', n) && Apart(fs)
    ensures var size, end, r := fs.recs[f].size, End(offset, data), fs'.recs[f];
      && fs'.recs == fs.recs[f := r] && r == fs.recs[f].(size := r.size)
      && r.size == (if n > 0 then SizeAfter(size, end) else Grown(size, end))
      && size <= r.size <= U32_MAX && (n > 0 ==> end <= r.size)
      && BlocksFor(r.size) <= Max(BlocksFor(size), BlocksFor(end))
      && fs'.mounted && |fs'.disk| == |fs.disk| && n == Fit(|fs.disk|, fs.recs[f].start * BLOCK_SIZE + offset, |data|)
      && fs'.nextFree == fs.nextFree + Max(BlocksFor(end), BlocksFor(size)) - BlocksFor(size)
  {
    GrownBounds(fs.recs[f].size, End(offset, data));
  }

  lemma WriteKeepsApart(fs: Fs, f: nat, offset: nat, data: seq<bv8>, fs': Fs, n: nat)
    requires Wrote(fs, f, offset, data, fs', n) && Apart(fs) && RoomFor(fs, f, BlocksFor(End(offset, data)))
    ensures Apart(fs')
  {
    hide Write, BlocksFor, Grown, Sat32, Apart, RoomFor;
    NeededRoomIsEnough(fs, f, offset, data);
    WriteKeepsApartIff(fs, f, offset, data, fs', n);
  }

  /** The blocks a file will hold after a write: those it needs, unless not a byte fits on the
      device, when the record grows all the same, by a number of blocks that may wrap to 0. */
  function BlocksAfter(fs: Fs, f: nat, offset: nat, data: seq<bv8>): nat
    requires f < 64
  {
    var size, end := fs.recs[f].size, End(offset, data);
    if Fit(|fs.disk|, fs.recs[f].start * BLOCK_SIZE + offset, |data|) > 0 then BlocksFor(SizeAfter(size, end))
    else BlocksFor(Grown(size, end))
  }

  /** A write keeps the files apart exactly when the blocks the file will hold contain no other
      file's start. The code does not look: it grows the file whether or not they are free. */
  lemma WriteKeepsApartIff(fs: Fs, f: nat, offset: nat, data: seq<bv8>, fs': Fs, n: nat)
    requires Wrote(fs, f, offset, data, fs', n) && Apart(fs)
    ensures Apart(fs') <==> RoomFor(fs, f, BlocksAfter(fs, f, offset, data))
  {
    hide Write, BlocksFor, Grown, Sat32;
    WroteRecord(fs, f, offset, data, fs', n);
    BlocksMonotone(fs.recs[f].size, fs'.recs[f].size);
    var blocks := BlocksAfter(fs, f, offset, data);
    assert blocks == BlocksFor(fs'.recs[f].size);
    if RoomFor(fs, f, blocks) {
      GrowthKeepsApart(fs, f, fs');
    } else {
      var g :| Live(fs, g) && g != f && fs.recs[f].start <= fs.recs[g].start < fs.recs[f].start + blocks;
      assert Live(fs', f) && Live(fs', g) && fs'.recs[g] == fs.recs[g];
      assert !Before(fs'.recs[f], fs'.recs[g]) && !Before(fs'.recs[g], fs'.recs[f]);
    }
  }

  lemma GrowthKeepsApart(fs: Fs, f: nat, fs': Fs)
    requires Apart(fs) && Live(fs, f) && fs'.recs == fs.recs[f := fs.recs[f].(size := fs'.recs[f].size)]
    requires fs.recs[f].size <= fs'.recs[f].size <= U32_MAX && fs'.nextFree >= fs.nextFree
    requires BlocksFor(fs'.recs[f].size) - BlocksFor(fs.recs[f].size) <= fs'.nextFree - fs.nextFree
    requires RoomFor(fs, f, BlocksFor(fs'.recs[f].size))
    ensures Apart(fs')
  {
    hide BlocksFor;
    assert forall g :: Live(fs', g) <==> Live(fs, g);
    forall g | Live(fs, g) && g != f ensures Before(fs'.recs[f], fs.recs[g]) || Before(fs.recs[g], fs'.recs[f]) {
      assert Before(fs.recs[f], fs.recs[g]) || Before(fs.recs[g], fs.recs[f]);
    }
  }

  /** Room for the blocks a write reaches is room enough. */
  lemma NeededRoomIsEnough(fs: Fs, f: nat, offset: nat, data: seq<bv8>)
    requires Apart(fs) && Live(fs, f) && offset <= U32_MAX && |data| <= U32_MAX
    requires RoomFor(fs, f, BlocksFor(End(offset, data)))
    ensures RoomFor(fs, f, BlocksAfter(fs, f, offset, data))
  {
    var size, end := fs.recs[f].size, End(offset, data);
    GrownBounds(size, end);
    hide BlocksFor, Grown, Fit;
    forall g | Live(fs, g) && g != f
      ensures !(fs.recs[f].start <= fs.recs[g].start < fs.recs[f].start + BlocksAfter(fs, f, offset, data))
    {
      assert Before(fs.recs[f], fs.recs[g]) || Before(fs.recs[g], fs.recs[f]);
    }
  }

  /** The file created last always has room. */
  lemma LastFileHasRoom(fs: Fs, f: nat, n: nat)
    requires Apart(fs) && Live(fs, f) && forall g :: Live(fs, g) ==> fs.recs[g].start <= fs.recs[f].start
    ensures RoomFor(fs, f, n)
  {
    forall g | Live(fs, g) && g != f ensures fs.recs[g].start < fs.recs[f].start {
      assert Before(fs.recs[f], fs.recs[g]) || Before(fs.recs[g], fs.recs[f]);
    }
  }

  // ----- what each operation answers -----

  /** A file is created if and only if the volume is mounted, the name has at most 32 bytes and a
      record is free. It gets the first free record, with its name padded with zeros, and the next
      free block; nothing else changes. */
  lemma CreateSays(fs: Fs, name: seq<bv8>)
    ensures var (fs', f) := AllocRecord(fs, name);
      && (f.Some? <==> fs.mounted && |name| <= 32 && exists j :: 0 <= j < 64 && fs.recs[j].start == 0)
      && (f.None? ==> fs' == fs)
      && (f.Some? ==>
            && f.value < 64 && fs.recs[f.value].start == 0 && (forall j :: 0 <= j < f.value ==> fs.recs[j].start != 0)
            && var r := fs'.recs[f.value];
            && |r.name| == 32 && r.name[..|name|] == name && (forall i :: |name| <= i < 32 ==> r.name[i] == 0)
            && r.size == 0 && r.start == fs.nextFree && fs'.nextFree == fs.nextFree + 1
            && fs' == fs.(recs := fs.recs[f.value := r], nextFree := fs'.nextFree))
  {
    FirstFreeIsFirst(fs.recs, 0);
  }

  /** A record is freed if and only if the volume is mounted and there is such a record; its name
      stays. */
  lemma DeleteSays(fs: Fs, f: nat)
    ensures var (fs', ok) := FreeRecord(fs, f);
      && (ok <==> fs.mounted && f < 64) && (!ok ==> fs' == fs)
      && (ok ==> !Live(fs', f) && fs'.recs[f].size == 0 && fs'.recs[f].name == fs.recs[f].name
                 && fs' == fs.(recs := fs.recs[f := fs'.recs[f]]))
  {
  }

  /** A write to no file, or of no bytes, does nothing. Otherwise the number of bytes written is how
      many of them lie on the device, and exactly those bytes of the device change. */
  lemma WriteSays(fs: Fs, f: nat, offset: nat, data: seq<bv8>)
    ensures var (fs', n) := Write(fs, f, offset, data);
      if !fs.mounted || !Live(fs, f) || data == [] then fs' == fs && n == 0
      else
        var at := fs.recs[f].start * 4096 + offset;
        && n <= |data| && (n > 0 ==> at + n <= |fs.disk|) && (n < |data| ==> at + n >= |fs.disk|)
        && |fs'.disk| == |fs.disk|
        && forall p :: 0 <= p < |fs.disk| ==> fs'.disk[p] == if at <= p < at + n then data[p - at] else fs.disk[p]
  {
    hide Grown, NextFreeAfter, Sat32, Overlay;
    if fs.mounted && Live(fs, f) && data != [] {
      var at := fs.recs[f].start * BLOCK_SIZE + offset;
      var n := Fit(|fs.disk|, at, |data|);
      forall p | 0 <= p < |fs.disk|
        ensures Overlay(fs.disk, at, data[..n])[p] == if at <= p < at + n then data[p - at] else fs.disk[p]
      {
        OverlayAt(fs.disk, at, data[..n], p);
      }
    }
  }

  /** Byte i of a read exists if and only if the file does, the buffer is that long, and the byte lies
      below the recorded size and on the device; it is then the byte of the device there. */
  lemma ReadSays(fs: Fs, f: nat, offset: nat, len: nat, i: nat)
    ensures i < |Read(fs, f, offset, len)| <==>
      && fs.mounted && Live(fs, f) && i < len && offset + i < fs.recs[f].size
      && fs.recs[f].start * 4096 + offset + i < |fs.disk|
    ensures i < |Read(fs, f, offset, len)| ==>
      Read(fs, f, offset, len)[i] == fs.disk[fs.recs[f].start * 4096 + offset + i]
  {
    if fs.mounted && Live(fs, f) && offset < fs.recs[f].size {
      var want := if fs.recs[f].size - offset < len then fs.recs[f].size - offset else len;
      var at := fs.recs[f].start * BLOCK_SIZE + offset;
      var n := Fit(|fs.disk|, at, want);
      assert i < n ==> at + i < |fs.disk|;
    }
  }

  // ----- bytes -----

  /** Where byte p of file f is on the device. */
  function Place(fs: Fs, f: nat, p: nat): nat
    requires f < 64
  {
    fs.recs[f].start * BLOCK_SIZE + p
  }

  lemma ReadByte(fs: Fs, f: nat, offset: nat, len: nat, i: nat)
    requires i < |Read(fs, f, offset, len)|
    ensures Live(fs, f) && offset + i < fs.recs[f].size && Place(fs, f, offset + i) < |fs.disk|
    ensures Read(fs, f, offset, len)[i] == fs.disk[Place(fs, f, offset + i)]
  {
  }

  lemma ReadLength(fs: Fs, f: nat, offset: nat, len: nat)
    requires fs.mounted && Live(fs, f) && offset <= fs.recs[f].size
    ensures |Read(fs, f, offset, len)| == Fit(|fs.disk|, Place(fs, f, offset), Min(fs.recs[f].size - offset, len))
  {
  }

  lemma WroteByte(fs: Fs, f: nat, offset: nat, data: seq<bv8>, fs': Fs, n: nat, j: nat)
    requires Wrote(fs, f, offset, data, fs', n) && j < |fs.disk|
    ensures |fs'.disk| == |fs.disk|
    ensures var pos := Place(fs, f, offset);
      fs'.disk[j] == if pos <= j < pos + n then data[j - pos] else fs.disk[j]
  {
    hide BlocksFor, Grown, Sat32, Overlay;
    OverlayAt(fs.disk, Place(fs, f, offset), data[..n], j);
  }

  /** Reading back what was just written returns it, as far as the device and a 32-bit size reach. */
  lemma WriteThenRead(fs: Fs, f: nat, offset: nat, data: seq<bv8>, fs': Fs, n: nat)
    requires Wrote(fs, f, offset, data, fs', n) && Apart(fs)
    ensures Read(fs', f, offset, |data|) == data[..Min(n, U32_MAX - offset)]
  {
    hide Write, Read, BlocksFor, Grown;
    WroteRecord(fs, f, offset, data, fs', n);
    if n > 0 {
      ReadLength(fs', f, offset, |data|);
      var r := Read(fs', f, offset, |data|);
      forall i | 0 <= i < |r| ensures r[i] == data[i] {
        ReadByte(fs', f, offset, |data|, i);
        WroteByte(fs, f, offset, data, fs', n, Place(fs, f, offset + i));
      }
    } else {
      NothingFits(fs, f, offset, data, fs');
    }
  }

  lemma NothingFits(fs: Fs, f: nat, offset: nat, data: seq<bv8>, fs': Fs)
    requires Wrote(fs, f, offset, data, fs', 0)
    ensures Read(fs', f, offset, |data|) == []
  {
    hide BlocksFor, Grown, Sat32;
  }

  /** A write keeps every byte of its own file outside the written range. */
  lemma WriteKeepsRest(fs: Fs, f: nat, offset: nat, data: seq<bv8>, fs': Fs, n: nat, p: nat)
    requires Wrote(fs, f, offset, data, fs', n) && Apart(fs)
    requires p < fs.recs[f].size && Place(fs, f, p) < |fs.disk| && !(offset <= p < offset + n)
    ensures Place(fs', f, p) == Place(fs, f, p) < |fs'.disk| && p < fs'.recs[f].size
    ensures fs'.disk[Place(fs', f, p)] == fs.disk[Place(fs, f, p)]
  {
    hide Write, BlocksFor, Grown;
    WroteRecord(fs, f, offset, data, fs', n);
    WroteByte(fs, f, offset, data, fs', n, Place(fs, f, p));
  }

  /** A write that keeps the files apart changes no byte of any other file. */
  lemma WriteKeepsOthers(fs: Fs, f: nat, offset: nat, data: seq<bv8>, fs': Fs, n: nat, g: nat, p: nat)
    requires Wrote(fs, f, offset, data, fs', n) && Apart(fs) && RoomFor(fs, f, BlocksFor(offset + |data|))
    requires Live(fs, g) && g != f && p < fs.recs[g].size && Place(fs, g, p) < |fs.disk|
    ensures fs'.recs[g] == fs.recs[g] && Place(fs, g, p) < |fs'.disk|
    ensures fs'.disk[Place(fs, g, p)] == fs.disk[Place(fs, g, p)]
  {
    hide Write, Grown;
    WroteRecord(fs, f, offset, data, fs', n);
    WroteByte(fs, f, offset, data, fs', n, Place(fs, g, p));
    assert Before(fs.recs[f], fs.recs[g]) || Before(fs.recs[g], fs.recs[f]);
    var end := offset + |data|;
    if fs.recs[g].start < fs.recs[f].start {
      Below(fs.recs[g], fs.recs[f].start, p);
    } else {
      assert fs.recs[f].start + BlocksFor(end) <= fs.recs[g].start;
    }
  }

  lemma Below(r: Record, start: nat, p: nat)
    requires r.start + Extent(r) <= start && p < r.size
    ensures r.start * BLOCK_SIZE + p < start * BLOCK_SIZE
  {
  }

  // ----- whole runs: the last write wins -----

  datatype Op = Create(name: seq<bv8>) | Put(f: nat, offset: nat, data: seq<bv8>) | Delete(f: nat)

  /** For each live file, the last byte written at each position. */
  type Log = map<nat, map<nat, bv8>>

  function Apply(fs: Fs, op: Op): Fs {
    match op
    case Create(name) => AllocRecord(fs, name).0
    case Put(f, offset, data) => Write(fs, f, offset, data).0
    case Delete(f) => FreeRecord(fs, f).0
  }

  /** Positions from U32_MAX on lie beyond every size. */
  predicate Recorded(p: nat) {
    p < U32_MAX
  }

  function Written(offset: nat, data: seq<bv8>, n: nat): map<nat, bv8>
    requires n <= |data|
  {
    map p: nat | offset <= p < offset + n && Recorded(p) :: data[p - offset]
  }

  function Note(fs: Fs, log: Log, op: Op): Log {
    match op
    case Create(name) =>
      var r := AllocRecord(fs, name).1;
      if r.Some? then log[r.value := map[]] else log
    case Put(f, offset, data) =>
      var n := Write(fs, f, offset, data).1;
      if f in log && n <= |data| then log[f := log[f] + Written(offset, data, n)] else log
    case Delete(f) => if FreeRecord(fs, f).1 then log - {f} else log
  }

  /** Offsets and lengths fit in 32 bits and a write has room to grow. */
  ghost predicate Allowed(fs: Fs, op: Op) {
    op.Put? ==>
      && op.offset <= U32_MAX && |op.data| <= U32_MAX
      && RoomFor(fs, op.f, BlocksFor(op.offset + |op.data|))
  }

  predicate Agrees(fs: Fs, f: nat, p: nat, b: bv8) {
    f < 64 && p < fs.recs[f].size && Place(fs, f, p) < |fs.disk| && fs.disk[Place(fs, f, p)] == b
  }

  ghost predicate LogInv(fs: Fs, log: Log) {
    && fs.mounted && Apart(fs)
    && (forall f :: f in log <==> Live(fs, f))
    && (forall f, p :: f in log && p in log[f] ==> Agrees(fs, f, p, log[f][p]))
  }

  lemma PutKeepsByte(fs: Fs, log: Log, f: nat, offset: nat, data: seq<bv8>, fs': Fs, n: nat, g: nat, p: nat)
    requires LogInv(fs, log) && Wrote(fs, f, offset, data, fs', n) && RoomFor(fs, f, BlocksFor(offset + |data|))
    requires g in log && p in log[g] && !(g == f && offset <= p < offset + n)
    ensures Agrees(fs', g, p, log[g][p])
  {
    hide Write, BlocksFor, Grown, Sat32, Apart, RoomFor;
    assert Agrees(fs, g, p, log[g][p]);
    if g == f {
      WriteKeepsRest(fs, f, offset, data, fs', n, p);
    } else {
      WriteKeepsOthers(fs, f, offset, data, fs', n, g, p);
    }
  }

  lemma PutGivesByte(fs: Fs, f: nat, offset: nat, data: seq<bv8>, fs': Fs, n: nat, p: nat)
    requires Apart(fs) && Wrote(fs, f, offset, data, fs', n) && n <= |data| && offset <= p < Min(offset + n, U32_MAX)
    ensures Agrees(fs', f, p, data[p - offset])
  {
    hide Write, BlocksFor, Grown, Apart;
    WroteRecord(fs, f, offset, data, fs', n);
    WroteByte(fs, f, offset, data, fs', n, Place(fs, f, p));
  }

  lemma PutKeepsLog(fs: Fs, log: Log, f: nat, offset: nat, data: seq<bv8>, fs': Fs, n: nat)
    requires LogInv(fs, log) && Allowed(fs, Put(f, offset, data)) && Write(fs, f, offset, data) == (fs', n)
    ensures LogInv(fs', Note(fs, log, Put(f, offset, data)))
  {
    hide Write, BlocksFor, Grown, Sat32, Apart, RoomFor;
    if !Live(fs, f) || data == [] {
      PutIdle(fs, f, offset, data);
      assert Written(offset, data, 0) == map[];
      if f in log {
        assert log[f] + map[] == log[f];
        assert log[f := log[f]] == log;
      }
    } else {
      assert Wrote(fs, f, offset, data, fs', n);
      RoomIsEnough(fs, f, offset, data);
      WriteKeepsApart(fs, f, offset, data, fs', n);
      WroteRecord(fs, f, offset, data, fs', n);
      var log' := Note(fs, log, Put(f, offset, data));
      forall g, p | g in log' && p in log'[g] ensures Agrees(fs', g, p, log'[g][p]) {
        if g == f && offset <= p < Min(offset + n, U32_MAX) {
          PutGivesByte(fs, f, offset, data, fs', n, p);
        } else {
          assert Agrees(fs, g, p, log[g][p]);
          SizeLimit(fs, g);
          PutKeepsByte(fs, log, f, offset, data, fs', n, g, p);
        }
      }
    }
  }

  lemma SizeLimit(fs: Fs, g: nat)
    requires Apart(fs) && Live(fs, g)
    ensures fs.recs[g].size <= U32_MAX
  {
  }

  lemma PutIdle(fs: Fs, f: nat, offset: nat, data: seq<bv8>)
    requires !Live(fs, f) || data == []
    ensures Write(fs, f, offset, data) == (fs, 0)
  {
  }

  lemma RoomIsEnough(fs: Fs, f: nat, offset: nat, data: seq<bv8>)
    requires RoomFor(fs, f, BlocksFor(offset + |data|))
    ensures RoomFor(fs, f, BlocksFor(End(offset, data)))
  {
    BlocksMonotone(End(offset, data), offset + |data|);
  }

  lemma ApplyKeepsLog(fs: Fs, log: Log, op: Op)
    requires LogInv(fs, log) && Allowed(fs, op)
    ensures LogInv(Apply(fs, op), Note(fs, log, op))
  {
    hide Write, BlocksFor, Apart;
    match op {
      case Create(name) => AllocKeepsApart(fs, name);
      case Put(f, offset, data) =>
        var (fs', n) := Write(fs, f, offset, data);
        PutKeepsLog(fs, log, f, offset, data, fs', n);
      case Delete(f) => FreeKeepsApart(fs, f);
    }
  }

  ghost predicate AllowedRun(fs: Fs, ops: seq<Op>)
    decreases |ops|
  {
    ops != [] ==> Allowed(fs, ops[0]) && AllowedRun(Apply(fs, ops[0]), ops[1..])
  }

  function Run(fs: Fs, log: Log, ops: seq<Op>): (r: (Fs, Log))
    decreases |ops|
  {
    if ops == [] then (fs, log) else Run(Apply(fs, ops[0]), Note(fs, log, ops[0]), ops[1..])
  }

  ghost predicate WrittenThrough(bytes: map<nat, bv8>, offset: nat, len: nat) {
    forall p :: offset <= p < offset + len ==> p in bytes
  }

  /** After any run of creations, writes with room and deletions, every byte read back from a
      live file at a written position is the one written there last, and a range that was
      written throughout is read in full. */
  lemma {:induction false} LastWriteWins(fs: Fs, log: Log, ops: seq<Op>)
    requires LogInv(fs, log) && AllowedRun(fs, ops)
    ensures var (fs', log') := Run(fs, log, ops);
      && LogInv(fs', log')
      && forall f, offset: nat, len: nat :: f in log' && WrittenThrough(log'[f], offset, len) ==>
           Read(fs', f, offset, len) == seq(len, i requires 0 <= i < len => log'[f][offset + i])
    decreases |ops|
  {
    hide Write, Read, Apart, Allowed, Apply, Note;
    if ops == [] {
      forall f, offset: nat, len: nat | f in log && WrittenThrough(log[f], offset, len)
        ensures Read(fs, f, offset, len) == seq(len, i requires 0 <= i < len => log[f][offset + i])
      {
        ReadWritten(fs, log, f, offset, len);
      }
    } else {
      ApplyKeepsLog(fs, log, ops[0]);
      LastWriteWins(Apply(fs, ops[0]), Note(fs, log, ops[0]), ops[1..]);
    }
  }

  lemma ReadWritten(fs: Fs, log: Log, f: nat, offset: nat, len: nat)
    requires LogInv(fs, log) && f in log && WrittenThrough(log[f], offset, len)
    ensures Read(fs, f, offset, len) == seq(len, i requires 0 <= i < len => log[f][offset + i])
  {
    hide Apart, Read;
    var r := Read(fs, f, offset, len);
    if len > 0 {
      assert Agrees(fs, f, offset + len - 1, log[f][offset + len - 1]);
      ReadLength(fs, f, offset, len);
      forall i | 0 <= i < len ensures r[i] == log[f][offset + i] {
        assert Agrees(fs, f, offset + i, log[f][offset + i]);
        ReadByte(fs, f, offset, len, i);
      }
    } else {
      ReadNothing(fs, f, offset);
    }
  }

  lemma ReadNothing(fs: Fs, f: nat, offset: nat)
    ensures Read(fs, f, offset, 0) == []
  {
  }

  /** Formatting writes the header block only: the record table is whatever block 1 held. */
  function Formatted(disk: seq<bv8>, recs: Records): Fs {
    Fs(true, disk, recs, DATA_START_BLOCK)
  }

  /** A volume just formatted is an empty file system if and only if block 1 happened to hold no
      live record. */
  lemma FormattedInvIff(disk: seq<bv8>, recs: Records)
    ensures LogInv(Formatted(disk, recs), map[]) <==> forall f :: 0 <= f < 64 ==> recs[f].start == 0
  {
    var fs := Formatted(disk, recs);
    assert forall f :: 0 <= f < 64 ==> (Live(fs, f) <==> recs[f].start != 0);
  }
}
