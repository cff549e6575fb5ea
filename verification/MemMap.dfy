// Seeding the frame allocator from the UEFI memory map: the largest conventional range that
// touches nothing reserved, and what that means for every frame handed out later.

module MemMap {
  import opened Options
  import opened BuddyTree

  const U64_MAX: nat := 0xFFFF_FFFF_FFFF_FFFF
  const PAGE_SIZE: nat := 4096
  const MIN_BASE: nat := 0x20_0000
  const CONVENTIONAL: nat := 7
  const DESCRIPTOR_SIZE: nat := 40

  datatype Descriptor = Descriptor(ty: nat, start: nat, pages: nat)
  datatype Reserved = Reserved(start: nat, len: nat)

  function Sat64(n: nat): nat {
    if n > U64_MAX then U64_MAX else n
  }

  predicate Overlaps(start: nat, len: nat, rStart: nat, rLen: nat) {
    start < Sat64(rStart + rLen) && rStart < Sat64(start + len)
  }

  /** Address a is one of `len` bytes from start that a 64-bit address can name. */
  predicate In(a: nat, start: nat, len: nat) {
    start <= a < Sat64(start + len)
  }

  /** Two non-empty ranges overlap exactly when they share an address. */
  lemma OverlapsIff(start: nat, len: nat, rStart: nat, rLen: nat)
    requires start < U64_MAX && rStart < U64_MAX && len > 0 && rLen > 0
    ensures Overlaps(start, len, rStart, rLen) <==> exists a :: In(a, start, len) && In(a, rStart, rLen)
  {
    var a := if start < rStart then rStart else start;
    if Overlaps(start, len, rStart, rLen) {
      assert In(a, start, len) && In(a, rStart, rLen);
    }
  }

  function RoundUp(n: nat): nat {
    (n + PAGE_SIZE - 1) / PAGE_SIZE * PAGE_SIZE
  }

  /** The kernel image and low memory, the boot record, the framebuffer, the map itself, and
      one page each for the NVMe registers and the ACPI root pointer. */
  function ReservedFromBootInfo(fbBase: nat, fbSize: nat, mapAt: nat, mapSize: nat, nvme: nat, rsdp: nat): seq<Reserved> {
    [Reserved(0, 0x100_0000), Reserved(0x8000, PAGE_SIZE),
     Reserved(fbBase, RoundUp(fbSize)), Reserved(mapAt, RoundUp(mapSize)),
     Reserved(nvme, if nvme != 0 then PAGE_SIZE else 0), Reserved(rsdp, if rsdp != 0 then PAGE_SIZE else 0),
     Reserved(0, 0), Reserved(0, 0)]
  }

  function Length(d: Descriptor): nat {
    Sat64(d.pages * PAGE_SIZE)
  }

  predicate Clear(d: Descriptor, reserved: seq<Reserved>) {
    forall j :: 0 <= j < |reserved| && reserved[j].len != 0 ==>
      !Overlaps(d.start, Length(d), reserved[j].start, reserved[j].len)
  }

  /** A range the allocator may manage. */
  predicate Usable(d: Descriptor, reserved: seq<Reserved>) {
    d.ty == CONVENTIONAL && d.start >= MIN_BASE && d.pages > 0 && Clear(d, reserved)
  }

  method IsClear(d: Descriptor, reserved: seq<Reserved>) returns (ok: bool)
    ensures ok == Clear(d, reserved)
  {
    for j := 0 to |reserved|
      invariant forall i :: 0 <= i < j && reserved[i].len != 0 ==>
        !Overlaps(d.start, Length(d), reserved[i].start, reserved[i].len)
    {
      if reserved[j].len != 0 && Overlaps(d.start, Length(d), reserved[j].start, reserved[j].len) {
        return false;
      }
    }
    ok := true;
  }

  /** d is the first of the largest usable ranges. */
  ghost predicate IsBest(descs: seq<Descriptor>, reserved: seq<Reserved>, d: Descriptor) {
    exists i ::
      && 0 <= i < |descs| && descs[i] == d && Usable(d, reserved)
      && (forall j :: 0 <= j < |descs| && Usable(descs[j], reserved) ==> descs[j].pages <= d.pages)
      && (forall j :: 0 <= j < i && Usable(descs[j], reserved) ==> descs[j].pages < d.pages)
  }

  /** The largest usable range, the first one on ties; none exactly when no range is usable. */
  method ChooseConventionalRegion(descs: seq<Descriptor>, descSize: nat, reserved: seq<Reserved>)
    returns (r: Option<(nat, nat)>)
    ensures r.None? <==> descSize < DESCRIPTOR_SIZE || forall j :: 0 <= j < |descs| ==> !Usable(descs[j], reserved)
    ensures r.Some? ==> exists d :: IsBest(descs, reserved, d) && r.value == (d.start, d.pages)
  {
    if descSize < DESCRIPTOR_SIZE {
      return None;
    }
    var bestStart, bestPages := 0, 0;
    ghost var best := 0;
    for i := 0 to |descs|
      invariant bestPages == 0 ==> forall j :: 0 <= j < i ==> !Usable(descs[j], reserved)
      invariant bestPages > 0 ==>
        && 0 <= best < i && Usable(descs[best], reserved)
        && descs[best].start == bestStart && descs[best].pages == bestPages
      invariant bestPages > 0 ==> forall j :: 0 <= j < i && Usable(descs[j], reserved) ==> descs[j].pages <= bestPages
      invariant bestPages > 0 ==> forall j :: 0 <= j < best && Usable(descs[j], reserved) ==> descs[j].pages < bestPages
    {
      var d := descs[i];
      if d.ty == CONVENTIONAL && d.start >= MIN_BASE && d.pages != 0 {
        var clear := IsClear(d, reserved);
        if clear && d.pages > bestPages {
          bestStart, bestPages, best := d.start, d.pages, i;
        }
      }
    }
    if bestPages == 0 {
      return None;
    }
    assert IsBest(descs, reserved, descs[best]);
    r := Some((bestStart, bestPages));
  }

  // ----- every frame handed out -----

  function Capped(pages: nat): nat {
    if pages < MAX_REGION_PAGES then pages else MAX_REGION_PAGES
  }

  /** The address of page i of the managed region. */
  function FrameAddress(start: nat, i: nat): nat {
    start + i * PAGE_SIZE
  }

  predicate InFrame(start: nat, i: nat, a: nat) {
    FrameAddress(start, i) <= a < FrameAddress(start, i) + PAGE_SIZE
  }

  lemma FrameInRange(d: Descriptor, i: nat, a: nat)
    requires i < d.pages && InFrame(d.start, i, a) && a < U64_MAX
    ensures In(a, d.start, Length(d))
  {
    assert (i + 1) * PAGE_SIZE <= d.pages * PAGE_SIZE;
  }

  /** A frame of a usable range shares no byte with any reserved range. */
  lemma FrameIsClear(d: Descriptor, reserved: seq<Reserved>, i: nat, a: nat, j: nat)
    requires Usable(d, reserved) && i < d.pages && InFrame(d.start, i, a) && a < U64_MAX && j < |reserved|
    ensures !In(a, reserved[j].start, reserved[j].len)
  {
    FrameInRange(d, i, a);
    if reserved[j].len > 0 {
      assert !Overlaps(d.start, Length(d), reserved[j].start, reserved[j].len);
    }
  }

  lemma RegionPages(top: nat, p: nat)
    requires InRegion(top, p)
    ensures p < Pow2(top)
  {
    FirstZero(top);
    CoversRange(top, 0, p);
  }

  /** In every state of every run of the allocator seeded with the chosen range, a page of a
      block that is handed out lies in one conventional range and shares no byte with any
      reserved range. */
  lemma HandedOutIsConventional(descs: seq<Descriptor>, reserved: seq<Reserved>, d: Descriptor,
                                x: Books, b: Block, p: nat, a: nat)
    requires IsBest(descs, reserved, d) && Pow2(x.s.top) <= Capped(d.pages)
    requires Balanced(x) && b in x.live && Covers(b, p) && InFrame(d.start, p, a) && a < U64_MAX
    ensures d in descs && d.ty == 7 && d.start >= 0x20_0000 && In(a, d.start, Length(d))
    ensures forall j :: 0 <= j < |reserved| ==> !In(a, reserved[j].start, reserved[j].len)
  {
    assert Covered(x.live, p);
    RegionPages(x.s.top, p);
    FrameInRange(d, p, a);
    forall j | 0 <= j < |reserved| ensures !In(a, reserved[j].start, reserved[j].len) {
      FrameIsClear(d, reserved, p, a, j);
    }
  }

  /** Under BootInfo initialisation no frame lies in the low 16 MiB, although ranges are only
      required to start above 2 MiB. */
  lemma FramesAboveKernel(d: Descriptor, fbBase: nat, fbSize: nat, mapAt: nat, mapSize: nat, nvme: nat, rsdp: nat)
    requires Usable(d, ReservedFromBootInfo(fbBase, fbSize, mapAt, mapSize, nvme, rsdp))
    ensures d.start >= 0x100_0000
  {
    var reserved := ReservedFromBootInfo(fbBase, fbSize, mapAt, mapSize, nvme, rsdp);
    assert reserved[0] == Reserved(0, 0x100_0000);
    assert !Overlaps(d.start, Length(d), reserved[0].start, reserved[0].len);
  }

  lemma RoundUpIs(n: nat)
    ensures n <= RoundUp(n) < n + 4096 && RoundUp(n) % 4096 == 0
  {
  }

  /** What that keeps off: a byte of a frame in a range that is usable with the BootInfo reservations
      is not in the low 16 MB, the framebuffer, the memory map, the NVMe registers or the ACPI root
      pointer's page. */
  lemma FrameOffDevices(d: Descriptor, fbBase: nat, fbSize: nat, mapAt: nat, mapSize: nat, nvme: nat, rsdp: nat, i: nat, a: nat)
    requires Usable(d, ReservedFromBootInfo(fbBase, fbSize, mapAt, mapSize, nvme, rsdp))
    requires i < d.pages && InFrame(d.start, i, a) && a < U64_MAX
    ensures a >= 0x100_0000
    ensures !(fbBase <= a < fbBase + fbSize) && !(mapAt <= a < mapAt + mapSize)
    ensures nvme != 0 ==> !(nvme <= a < nvme + 4096)
    ensures rsdp != 0 ==> !(rsdp <= a < rsdp + 4096)
  {
    hide Usable, RoundUp;
    var reserved := ReservedFromBootInfo(fbBase, fbSize, mapAt, mapSize, nvme, rsdp);
    RoundUpIs(fbSize);
    RoundUpIs(mapSize);
    forall j: nat | j < |reserved| ensures !In(a, reserved[j].start, reserved[j].len) {
      FrameIsClear(d, reserved, i, a, j);
    }
    assert !In(a, reserved[0].start, reserved[0].len);
    assert !In(a, reserved[2].start, reserved[2].len);
    assert !In(a, reserved[3].start, reserved[3].len);
    assert !In(a, reserved[4].start, reserved[4].len);
    assert !In(a, reserved[5].start, reserved[5].len);
  }

  /** The order alloc_contiguous asks for: the exponent of the next power of two. */
  function OrderFor(n: nat): (r: nat) {
    if n <= 1 then 0 else 1 + OrderFor((n + 1) / 2)
  }

  /** It is the smallest order whose block holds n pages. */
  lemma {:induction false} OrderIsLeast(n: nat)
    ensures n <= Pow2(OrderFor(n))
    ensures OrderFor(n) > 0 ==> Pow2(OrderFor(n) - 1) < n
  {
    if n > 1 {
      OrderIsLeast((n + 1) / 2);
      if OrderFor((n + 1) / 2) == 0 {
        assert n == 2;
      }
    }
  }
}
