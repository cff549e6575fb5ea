// The flat file system: a record table and file data in consecutive blocks of a byte-addressed
// device. Files only grow at their end; blocks are handed out by a counter and never returned.

module SimpleFs {
  import opened Options

  const BLOCK_SIZE: nat := 4096
  const DATA_START_BLOCK: nat := 2
  const NAME_MAX: nat := 32
  const U32_MAX: nat := 0xFFFF_FFFF

  /** A record is free when start is 0. */
  datatype Record = Record(name: seq<bv8>, size: nat, start: nat)

  type Records = r: seq<Record> | |r| == 64 witness seq(64, _ => Record([], 0, 0))

  datatype Fs = Fs(mounted: bool, disk: seq<bv8>, recs: Records, nextFree: nat)

  predicate Live(fs: Fs, f: int) {
    0 <= f < 64 && fs.recs[f].start != 0
  }

  function Sat32(n: nat): (r: nat) {
    if n > U32_MAX then U32_MAX else n
  }

  function BlocksFor(n: nat): (r: nat)
    ensures n <= r * BLOCK_SIZE < n + BLOCK_SIZE
  {
    (n + BLOCK_SIZE - 1) / BLOCK_SIZE
  }

  // ----- records -----

  function FirstFreeRecord(recs: Records, i: nat): (r: Option<nat>)
    requires i <= 64
    ensures r.None? <==> forall j :: i <= j < 64 ==> recs[j].start != 0
    ensures r.Some? ==> i <= r.value < 64 && recs[r.value].start == 0
    decreases 64 - i
  {
    if i == 64 then None else if recs[i].start == 0 then Some(i) else FirstFreeRecord(recs, i + 1)
  }

  lemma {:induction false} FirstFreeIsFirst(recs: Records, i: nat)
    requires i <= 64
    ensures var r := FirstFreeRecord(recs, i); r.Some? ==> forall j :: i <= j < r.value ==> recs[j].start != 0
    decreases 64 - i
  {
    if i < 64 && recs[i].start != 0 {
      FirstFreeIsFirst(recs, i + 1);
    }
  }

  function Padded(name: seq<bv8>): (r: seq<bv8>)
    requires |name| <= NAME_MAX
    ensures |r| == NAME_MAX
  {
    name + seq(NAME_MAX - |name|, _ => 0)
  }

  function AllocRecord(fs: Fs, name: seq<bv8>): (r: (Fs, Option<nat>)) {
    if !fs.mounted || |name| > NAME_MAX then (fs, None)
    else match FirstFreeRecord(fs.recs, 0)
      case None => (fs, None)
      case Some(i) =>
        (fs.(recs := fs.recs[i := Record(Padded(name), 0, fs.nextFree)], nextFree := fs.nextFree + 1), Some(i))
  }

  function FreeRecord(fs: Fs, f: nat): (r: (Fs, bool)) {
    if !fs.mounted || f >= 64 then (fs, false)
    else (fs.(recs := fs.recs[f := fs.recs[f].(start := 0, size := 0)]), true)
  }

  /** Size and first block of a live file. */
  function Info(fs: Fs, f: nat): (r: Option<(nat, nat)>) {
    if !fs.mounted || f >= 64 || fs.recs[f].start == 0 then None else Some((fs.recs[f].size, fs.recs[f].start))
  }

  // ----- data -----

  /** How many of `len` bytes from position pos lie on a device of `limit` bytes. */
  function Fit(limit: nat, pos: nat, len: nat): (r: nat)
    ensures r <= len
    ensures (r > 0 ==> pos + r <= limit) && (r < len ==> pos + r >= limit)
  {
    if pos >= limit then 0 else if pos + len > limit then limit - pos else len
  }

  function Overlay(disk: seq<bv8>, pos: nat, data: seq<bv8>): (r: seq<bv8>)
    requires pos + |data| <= |disk| || data == []
    ensures |r| == |disk|
  {
    if data == [] then disk else disk[..pos] + data + disk[pos + |data|..]
  }

  lemma OverlayAt(disk: seq<bv8>, pos: nat, data: seq<bv8>, i: nat)
    requires (pos + |data| <= |disk| || data == []) && i < |disk|
    ensures Overlay(disk, pos, data)[i] == if pos <= i < pos + |data| then data[i - pos] else disk[i]
  {
  }

  /** The size after whole blocks are added for a write that reaches up to `end`. */
  function Grown(size: nat, end: nat): (r: nat) {
    if BlocksFor(end) > BlocksFor(size)
    then Sat32(size + (BlocksFor(end) - BlocksFor(size)) * BLOCK_SIZE % (U32_MAX + 1))
    else size
  }

  function NextFreeAfter(fs: Fs, size: nat, end: nat): (r: nat) {
    var need, have := BlocksFor(end), BlocksFor(size);
    if need > have then fs.nextFree + need - have else fs.nextFree
  }

  function Write(fs: Fs, f: nat, offset: nat, data: seq<bv8>): (r: (Fs, nat)) {
    match Info(fs, f)
    case None => (fs, 0)
    case Some((size, start)) =>
      if data == [] then (fs, 0) else
      var end := Sat32(offset + |data|);
      var pos := start * BLOCK_SIZE + offset;
      var n := Fit(|fs.disk|, pos, |data|);
      var size' := if n > 0 && end > Grown(size, end) then end else Grown(size, end);
      (fs.(disk := Overlay(fs.disk, pos, data[..n]), nextFree := NextFreeAfter(fs, size, end),
           recs := fs.recs[f := fs.recs[f].(size := size')]), n)
  }

  /** The bytes read; `len` is the length of the caller's buffer. */
  function Read(fs: Fs, f: nat, offset: nat, len: nat): (r: seq<bv8>) {
    match Info(fs, f)
    case None => []
    case Some((size, start)) =>
      if offset >= size then [] else
      var want := if size - offset < len then size - offset else len;
      var pos := start * BLOCK_SIZE + offset;
      var n := Fit(|fs.disk|, pos, want);
      if n == 0 then [] else fs.disk[pos..pos + n]
  }
}
