// The heap as the kernel runs it: pool words, list heads and headers updated in place.
// Proved against the functions of HeapModel.

module KernelHeap {
  import opened Numbers
  import opened Options
  import opened FreeLists
  import opened HeapModel
  import opened HeapRuns

  // ----- facts the running code relies on -----

  lemma HeadRange(h: Heap, s: Shape, k: nat)
    requires Inv(h, s) && k <= PAGES
    ensures NIL <= h.heads[k] < POOL_WORDS
  {
    assert Threaded(s.ls[k], h.heads[k], h.link);
  }

  lemma HeadsInPool(h: Heap, held: Held, k: nat)
    requires Safe(h, held) && k <= PAGES
    ensures Shaped(h) && NIL <= h.heads[k] < POOL_WORDS
  {
    hide Inv;
    var s :| Inv(h, s) && Matches(held, s);
    InvSized(h, s);
    HeadRange(h, s, k);
  }

  /** A page taken off the pool lies in it, and cutting it leaves a proper list. */
  lemma CutHead(h: Heap, held: Held, k: nat)
    requires Safe(h, held) && k < PAGES && Shaped(h) && h.heads[k] == NIL && h.heads[PAGES] != NIL
    ensures var (h1, page) := Pop(h, PAGES);
      && page.Some? && page.value + PAGE_WORDS <= POOL_WORDS
      && NIL <= Partition(h1, k, page.value, page.value + PAGE_WORDS).heads[k] < POOL_WORDS
  {
    hide Inv, Partition, Pop;
    var s :| Inv(h, s) && Matches(held, s);
    InvSized(h, s);
    ListHead(h, s, k);
    ListHead(h, s, PAGES);
    CarveKeeps(h, s, k, Pop(h, PAGES).0);
    var page := s.ls[PAGES][0];
    HeadRange(Partition(Pop(h, PAGES).0, k, page, page + PAGE_WORDS), Carved(s, k), k);
  }

  /** The header of a region just allocated lies in the pool, whether or not the request fits. */
  lemma UserInPool(h: Heap, held: Held, size: nat, a: nat)
    requires Safe(h, held) && Shaped(h) && IsAlign(a) && AllocRaw(h, KindOf(Total(size, a))).1.Some?
    ensures 2 <= Up(AllocRaw(h, KindOf(Total(size, a))).1.value + 2, a) <= POOL_WORDS
  {
    hide Inv, AllocRaw, KindOf, Total, Fits, Up;
    var s :| Inv(h, s) && Matches(held, s);
    if Fits(size, a) {
      var b, s' := AllocKeeps(h, s, size, a);
      LiveInPool(Alloc(h, size, a).0, s', b);
    } else {
      WholePage(h, s, size, a);
    }
  }

  lemma WholePage(h: Heap, s: Shape, size: nat, a: nat)
    requires Inv(h, s) && IsAlign(a) && !Fits(size, a) && AllocRaw(h, KindOf(Total(size, a))).1.Some?
    ensures 2 <= Up(AllocRaw(h, KindOf(Total(size, a))).1.value + 2, a) <= POOL_WORDS
  {
    hide Up, IsBlock, Linked, LiveOk, Partition;
    assert KindOf(Total(size, a)) == PAGES;
    ListHead(h, s, PAGES);
    PopIs(h, s, PAGES);
    PageHead(s);
    UpAtPage(s.ls[PAGES][0], a);
  }

  lemma AllocStep(h: Heap, held: Held, size: nat, a: nat, h1: Heap, b: Option<nat>)
    requires Safe(h, held) && Shaped(h) && IsAlign(a) && AllocRaw(h, KindOf(Total(size, a))) == (h1, b)
    ensures b.None? ==> Alloc(h, size, a) == (h1, None) && (Fits(size, a) ==> Safe(h1, held))
    ensures b.Some? ==>
      var u := Up(b.value + 2, a);
      && 2 <= u <= POOL_WORDS
      && Alloc(h, size, a) == (h1.(link := h1.link[u - 2 := b.value][u - 1 := Total(size, a)]), Some(u))
      && (Fits(size, a) ==> Safe(Alloc(h, size, a).0, held[u := Region(u, size, a)]))
  {
    hide Safe, AllocRaw, KindOf, Total, Fits, Up;
    if b.Some? {
      UserInPool(h, held, size, a);
    }
    if Fits(size, a) {
      ApplyKeeps(h, held, Get(size, a));
    }
  }

  lemma LiveInPool(h: Heap, s: Shape, b: nat)
    requires Inv(h, s) && b in s.live
    ensures var r := s.live[b];
      2 <= r.user <= POOL_WORDS && h.link[r.user - 2] == b && b < POOL_WORDS && h.link[r.user - 1] >= 0
  {
    hide BlockWords, Linked, KindOf, RegionEnd, IsBlock, Up;
    assert RegionOk(h.link, s.kind[b / 512], b, s.live[b]);
  }

  /** The header of a held region is in place. */
  lemma HeaderHeld(h: Heap, held: Held, u: nat)
    requires Safe(h, held) && u in held
    ensures Shaped(h) && 2 <= u <= POOL_WORDS && 0 <= h.link[u - 2] < POOL_WORDS && h.link[u - 1] >= 0
  {
    hide Inv;
    var s :| Inv(h, s) && Matches(held, s);
    InvSized(h, s);
    var b :| b in s.live && s.live[b].user == u;
    LiveInPool(h, s, b);
  }

  lemma FreeHeld(h: Heap, held: Held, u: nat)
    requires Safe(h, held) && u in held
    ensures Shaped(h) && 2 <= u <= POOL_WORDS && 0 <= h.link[u - 2] < POOL_WORDS && h.link[u - 1] >= 0
    ensures Free(h, u) == Push(h, KindOf(h.link[u - 1]), h.link[u - 2]) && Safe(Free(h, u), held - {u})
  {
    hide Safe, KindOf;
    HeaderHeld(h, held, u);
    ApplyKeeps(h, held, Drop(u));
  }

  /** The power-of-two alignments of a layout, in bytes, up to a page. */
  predicate IsLayoutAlign(bytes: nat) {
    bytes == 1 || bytes == 2 || bytes == 4 || (bytes % 8 == 0 && IsAlign(bytes / 8))
  }

  /** Alignment in words, at least one. */
  function AlignWords(bytes: nat): (r: nat)
    requires IsLayoutAlign(bytes)
    ensures IsAlign(r) && 8 * r == Max(bytes, 8)
  {
    if bytes < 8 then 1 else bytes / 8
  }

  lemma AlignPositive(a: nat)
    requires IsAlign(a)
    ensures a > 0
  {
  }

  class KernelAllocator {
    const link: array<int>
    const heads: array<int>
    var inited: bool
    /** What the clients hold. */
    ghost var held: Held

    ghost predicate Valid()
      reads this, link, heads
    {
      && link.Length == POOL_WORDS && heads.Length == 9 && link != heads
      && if inited then Safe(St(), held)
         else held == map[] && forall k :: 0 <= k < 9 ==> heads[k] == NIL
    }

    ghost function St(): Heap
      reads link, heads
    {
      Heap(link[..], heads[..])
    }

    constructor ()
      ensures Valid() && !inited && fresh(link) && fresh(heads)
    {
      link := new int[POOL_WORDS](_ => 0);
      heads := new int[9](_ => NIL);
      inited, held := false, map[];
    }

    ghost predicate Sizes() {
      link.Length == POOL_WORDS && heads.Length == 9 && link != heads
    }

    method PushFree(k: nat, b: nat)
      requires Sizes() && k <= PAGES && b < POOL_WORDS
      modifies link, heads
      ensures St() == Push(old(St()), k, b)
    {
      link[b] := heads[k];
      heads[k] := b;
    }

    method PopFree(k: nat) returns (b: Option<nat>)
      requires Sizes() && k <= PAGES && NIL <= heads[k] < POOL_WORDS
      modifies heads
      ensures (St(), b) == Pop(old(St()), k)
    {
      var head := heads[k];
      if head == NIL {
        return None;
      }
      heads[k] := link[head];
      b := Some(head);
    }

    method Init()
      requires Valid()
      modifies this, link, heads
      ensures Valid() && inited
      ensures old(inited) ==> St() == old(St()) && held == old(held)
      ensures !old(inited) ==> St() == InitPages(old(St()), 0) && held == map[]
    {
      if inited {
        return;
      }
      ghost var h := St();
      for i := 256 downto 0
        invariant !inited && held == map[] && St() == InitPages(h, i)
      {
        PushFree(PAGES, i * 512);
      }
      InitialSafe(h);
      inited := true;
    }

    method PartitionPage(k: nat, page: nat)
      requires Sizes() && k < PAGES && page + PAGE_WORDS <= POOL_WORDS
      modifies link, heads
      ensures St() == Partition(old(St()), k, page, page + PAGE_WORDS)
    {
      ghost var h := St();
      var addr, end := page, page + PAGE_WORDS;
      while addr + BlockWords(k) <= end
        invariant Partition(St(), k, addr, end) == Partition(h, k, page, end)
        decreases end - addr
      {
        PushFree(k, addr);
        addr := addr + BlockWords(k);
      }
    }

    /** The first size class that holds `total` bytes, or a whole page. */
    static method SizeToClass(total: nat) returns (k: nat)
      ensures k == KindOf(total)
    {
      for i := 0 to 8
        invariant i > 0 ==> total > 8 * BlockWords(i - 1)
      {
        if total <= 8 * BlockWords(i) {
          return i;
        }
      }
      k := PAGES;
    }

    method AllocBlock(k: nat) returns (b: Option<nat>)
      requires Valid() && inited && k <= PAGES
      modifies link, heads
      ensures (St(), b) == AllocRaw(old(St()), k)
    {
      ghost var h := St();
      HeadsInPool(h, held, k);
      HeadsInPool(h, held, PAGES);
      if k == PAGES || heads[k] != NIL {
        b := PopFree(k);
        return;
      }
      var page := PopFree(PAGES);
      if page.None? {
        return None;
      }
      CutHead(h, held, k);
      PartitionPage(k, page.value);
      b := PopFree(k);
    }

    /** Allocate `size` bytes aligned to `bytes`, a power of two up to a page. The user region is
        sound whenever the request fits. */
    method AllocWithHeader(size: nat, bytes: nat) returns (u: Option<nat>)
      requires Valid() && IsLayoutAlign(bytes)
      modifies this, link, heads
      ensures inited && (Fits(size, AlignWords(bytes)) ==> Valid())
      ensures var h := if old(inited) then old(St()) else InitPages(old(St()), 0);
        Shaped(h) && (St(), u) == Alloc(h, size, AlignWords(bytes))
      ensures held == if u.Some? then old(held)[u.value := Region(u.value, size, AlignWords(bytes))] else old(held)
    {
      hide Safe, AllocRaw, Alloc, KindOf, Fits, Up, InitPages, IsAlign;
      var align := AlignWords(bytes);
      Init();
      ghost var h := St();
      var total := Total(size, align);
      var k := SizeToClass(total);
      var b := AllocBlock(k);
      AlignPositive(align);
      AllocStep(h, held, size, align, St(), b);
      if b.None? {
        return None;
      }
      u := Some(Up(b.value + 2, align));
      link[u.value - 2] := b.value;
      link[u.value - 1] := total;
      held := held[u.value := Region(u.value, size, align)];
    }

    /** Free a pointer that was handed out and not freed since; a null pointer is ignored. */
    method FreeWithHeader(ptr: Option<nat>)
      requires Valid() && (ptr.Some? ==> ptr.value in held)
      modifies this, link, heads
      ensures Valid()
      ensures ptr.None? ==> St() == old(St()) && held == old(held)
      ensures ptr.Some? ==> Shaped(old(St())) && St() == Free(old(St()), ptr.value) && held == old(held) - {ptr.value}
    {
      hide Safe, Free, Push, KindOf;
      if ptr.None? {
        return;
      }
      var u := ptr.value;
      FreeHeld(St(), held, u);
      var base, total := link[u - 2], link[u - 1];
      var k := SizeToClass(total);
      PushFree(k, base);
      held := held - {u};
    }
  }
}
