// The 64-bit encodings behind the page-table entries: masks, flag bits and index
// extraction, with the entry arithmetic of the mapper done on machine words.

module PteBits {
  import opened PageTables
  import opened Mapper

  const PRESENT: bv64 := 0x1
  const WRITABLE: bv64 := 0x2
  const USER: bv64 := 0x4
  const PS: bv64 := 0x80
  const NO_EXEC: bv64 := 0x8000_0000_0000_0000
  const VALID_FLAGS: bv64 := 0x8000_0000_0000_0007

  const FRAME_MASK: bv64 := 0x000F_FFFF_FFFF_F000
  /** As written in the source: bits 21 to 59, although its comment says 21 to 51. */
  const PDE_2MB_FRAME_MASK: bv64 := 0x0FFF_FFFF_FFE0_0000
  /** Bits 52 to 59. */
  const HIGH_BITS: bv64 := 0x0FF0_0000_0000_0000
  const PDPTE_1GB_FRAME_MASK: bv64 := 0x000F_FFFF_C000_0000

  function Pml4Index(va: bv64): bv64 { (va >> 39) & 0x1FF }
  function PdptIndex(va: bv64): bv64 { (va >> 30) & 0x1FF }
  function PdIndex(va: bv64): bv64 { (va >> 21) & 0x1FF }
  function PtIndex(va: bv64): bv64 { (va >> 12) & 0x1FF }

  /** The four indices and the page offset are exactly the low 48 address bits. */
  lemma IndicesRebuildAddress(va: bv64)
    ensures (Pml4Index(va) << 39) | (PdptIndex(va) << 30) | (PdIndex(va) << 21) | (PtIndex(va) << 12) | (va & 0xFFF)
         == va & 0xFFFF_FFFF_FFFF
  {
  }

  /** A table link, as get_or_alloc_child, get_or_alloc_pd and get_or_alloc_pt write it. */
  function LinkBits(pa: bv64): bv64 { (pa & FRAME_MASK) | (PRESENT | WRITABLE | USER) }

  /** A 4 KB leaf, as map_page_into_space writes it. */
  function LeafBits(pa: bv64, flags: bv64): bv64 { (pa & FRAME_MASK) | (flags & !FRAME_MASK) }

  /** The entry a word stands for. */
  function Decode(e: bv64): (r: Entry) {
    Entry(e & PRESENT != 0, e & WRITABLE != 0, e & USER != 0, e & PS != 0, e & NO_EXEC != 0, FrameNumber(e))
  }

  function FrameNumber(e: bv64): nat {
    ((e & FRAME_MASK) >> 12) as nat
  }

  function FlagsOf(flags: bv64): Flags {
    Flags(flags & PRESENT != 0, flags & WRITABLE != 0, flags & USER != 0, flags & NO_EXEC != 0)
  }

  lemma LinkFields(pa: bv64)
    ensures LinkBits(pa) & FRAME_MASK == pa & FRAME_MASK
    ensures LinkBits(pa) & PRESENT != 0 && LinkBits(pa) & WRITABLE != 0 && LinkBits(pa) & USER != 0
    ensures LinkBits(pa) & PS == 0 && LinkBits(pa) & NO_EXEC == 0
  {
  }

  lemma LeafFields(pa: bv64, flags: bv64)
    requires flags & VALID_FLAGS == flags
    ensures LeafBits(pa, flags) & FRAME_MASK == pa & FRAME_MASK
    ensures LeafBits(pa, flags) & PRESENT == flags & PRESENT && LeafBits(pa, flags) & WRITABLE == flags & WRITABLE
    ensures LeafBits(pa, flags) & USER == flags & USER && LeafBits(pa, flags) & NO_EXEC == flags & NO_EXEC
    ensures LeafBits(pa, flags) & PS == 0
  {
  }

  lemma UserFields(e: bv64)
    ensures (e | USER) & FRAME_MASK == e & FRAME_MASK && (e | USER) & USER != 0
    ensures (e | USER) & PRESENT == e & PRESENT && (e | USER) & WRITABLE == e & WRITABLE
    ensures (e | USER) & PS == e & PS && (e | USER) & NO_EXEC == e & NO_EXEC
  {
  }

  lemma SameFrame(x: bv64, y: bv64)
    requires x & FRAME_MASK == y & FRAME_MASK
    ensures FrameNumber(x) == FrameNumber(y)
  {
  }

  /** The words the mapper writes decode to the entries of the model: a table link, */
  lemma DecodeLink(pa: bv64)
    ensures Decode(LinkBits(pa)) == LinkTo(FrameNumber(pa))
  {
    LinkFields(pa);
    SameFrame(LinkBits(pa), pa);
  }

  /** a 4 KB leaf, */
  lemma DecodeLeaf(pa: bv64, flags: bv64)
    requires flags & VALID_FLAGS == flags
    ensures Decode(LeafBits(pa, flags)) == LeafEntry(FrameNumber(pa), FlagsOf(flags), false)
  {
    LeafFields(pa, flags);
    SameFrame(LeafBits(pa, flags), pa);
  }

  /** and an entry whose user bit was set. */
  lemma DecodeUser(e: bv64)
    ensures Decode(e | USER) == Decode(e).(user := true)
  {
    UserFields(e);
    SameFrame(e | USER, e);
  }

  /** PD entry i of a split 1 GB leaf e. */
  function SplitPde(e: bv64, i: bv64): bv64 {
    (((e & PDPTE_1GB_FRAME_MASK) + i * 0x20_0000) & PDE_2MB_FRAME_MASK) | ((e & 0xFFF) | PS | USER)
  }

  /** PT entry i of a split 2 MB leaf e. */
  function SplitPte(e: bv64, i: bv64): bv64 {
    (((e & PDE_2MB_FRAME_MASK) + i * 0x1000) & FRAME_MASK) | ((e & 0xFFF & !PS) | USER)
  }

  function AddressVia1G(e: bv64, va: bv64): bv64 { (e & PDPTE_1GB_FRAME_MASK) + (va & 0x3FFF_FFFF) }
  function AddressVia2M(e: bv64, va: bv64): bv64 { (e & PDE_2MB_FRAME_MASK) + (va & 0x1F_FFFF) }
  function AddressVia4K(e: bv64, va: bv64): bv64 { (e & FRAME_MASK) + (va & 0xFFF) }

  lemma MulIsShift(i: bv64)
    requires i < 512
    ensures i * 0x20_0000 == i << 21 && i * 0x1000 == i << 12
  {
  }

  lemma AddIsOr(a: bv64, b: bv64)
    requires a & b == 0
    ensures a + b == a | b
  {
  }

  lemma SplitPdeBits(e: bv64, i: bv64)
    requires i < 512
    ensures SplitPde(e, i) == (e & PDPTE_1GB_FRAME_MASK) | (i << 21) | ((e & 0xFFF) | PS | USER)
  {
    MulIsShift(i);
    AddIsOr(e & PDPTE_1GB_FRAME_MASK, i << 21);
    MaskedBase1G(e, i);
  }

  lemma MaskedBase1G(e: bv64, i: bv64)
    requires i < 512
    ensures ((e & PDPTE_1GB_FRAME_MASK) | (i << 21)) & PDE_2MB_FRAME_MASK == (e & PDPTE_1GB_FRAME_MASK) | (i << 21)
  {
  }

  lemma Rejoin1G(e: bv64, va: bv64, x: bv64)
    requires x == (e & PDPTE_1GB_FRAME_MASK) | (PdIndex(va) << 21) | ((e & 0xFFF) | PS | USER)
    ensures (x & PDE_2MB_FRAME_MASK) & (va & 0x1F_FFFF) == 0
    ensures (e & PDPTE_1GB_FRAME_MASK) & (va & 0x3FFF_FFFF) == 0
    ensures (x & PDE_2MB_FRAME_MASK) | (va & 0x1F_FFFF) == (e & PDPTE_1GB_FRAME_MASK) | (va & 0x3FFF_FFFF)
    ensures x & PRESENT == e & PRESENT && x & PS == PS
  {
  }

  /** Splitting a 1 GB leaf keeps the physical address of every virtual address under it,
      and yields present 2 MB leaves. */
  lemma Split1GKeepsAddress(e: bv64, va: bv64)
    ensures AddressVia2M(SplitPde(e, PdIndex(va)), va) == AddressVia1G(e, va)
    ensures SplitPde(e, PdIndex(va)) & PRESENT == e & PRESENT
    ensures SplitPde(e, PdIndex(va)) & PS == PS
  {
    var x := SplitPde(e, PdIndex(va));
    SplitPdeBits(e, PdIndex(va));
    Rejoin1G(e, va, x);
    AddIsOr(x & PDE_2MB_FRAME_MASK, va & 0x1F_FFFF);
    AddIsOr(e & PDPTE_1GB_FRAME_MASK, va & 0x3FFF_FFFF);
  }

  lemma SplitPteBits(e: bv64, i: bv64)
    requires i < 512
    ensures SplitPte(e, i) == (((e & PDE_2MB_FRAME_MASK) | (i << 12)) & FRAME_MASK) | ((e & 0xFFF & !PS) | USER)
  {
    MulIsShift(i);
    AddIsOr(e & PDE_2MB_FRAME_MASK, i << 12);
  }

  lemma Rejoin2M(e: bv64, va: bv64, x: bv64)
    requires x == (((e & PDE_2MB_FRAME_MASK) | (PtIndex(va) << 12)) & FRAME_MASK) | ((e & 0xFFF & !PS) | USER)
    ensures (x & FRAME_MASK) & (va & 0xFFF) == 0
    ensures (e & PDE_2MB_FRAME_MASK) & (va & 0x1F_FFFF) == 0
    ensures e & HIGH_BITS == 0 ==>
              (x & FRAME_MASK) | (va & 0xFFF) == (e & PDE_2MB_FRAME_MASK) | (va & 0x1F_FFFF)
    ensures x & PRESENT == e & PRESENT
  {
  }

  lemma HighBits4K(x: bv64, va: bv64)
    ensures AddressVia4K(x, va) & HIGH_BITS == 0
  {
    AddIsOr(x & FRAME_MASK, va & 0xFFF);
  }

  lemma HighBits2M(e: bv64, va: bv64)
    ensures AddressVia2M(e, va) & HIGH_BITS == e & HIGH_BITS
  {
    AddIsOr(e & PDE_2MB_FRAME_MASK, va & 0x1F_FFFF);
  }

  lemma Split2MKeepsAddress(e: bv64, va: bv64)
    requires e & HIGH_BITS == 0
    ensures AddressVia4K(SplitPte(e, PtIndex(va)), va) == AddressVia2M(e, va)
  {
    var x := SplitPte(e, PtIndex(va));
    SplitPteBits(e, PtIndex(va));
    Rejoin2M(e, va, x);
    AddIsOr(x & FRAME_MASK, va & 0xFFF);
    AddIsOr(e & PDE_2MB_FRAME_MASK, va & 0x1F_FFFF);
  }

  /** Splitting a 2 MB leaf keeps the physical address of a virtual address under it exactly
      when bits 52 to 59 of the leaf are clear. */
  lemma Split2MKeepsAddressIff(e: bv64, va: bv64)
    ensures AddressVia4K(SplitPte(e, PtIndex(va)), va) == AddressVia2M(e, va) <==> e & HIGH_BITS == 0
  {
    if e & HIGH_BITS == 0 {
      Split2MKeepsAddress(e, va);
    } else {
      HighBits4K(SplitPte(e, PtIndex(va)), va);
      HighBits2M(e, va);
    }
  }

  /** Splitting drops no-execute and adds user: large leaves come out executable. */
  lemma SplitPermissions(e: bv64, i: bv64)
    requires i < 512 && e & HIGH_BITS == 0
    ensures SplitPde(e, i) & NO_EXEC == 0 && SplitPte(e, i) & NO_EXEC == 0
    ensures SplitPde(e, i) & USER == USER && SplitPte(e, i) & USER == USER
    ensures SplitPde(e, i) & WRITABLE == e & WRITABLE && SplitPte(e, i) & WRITABLE == e & WRITABLE
  {
  }
}
