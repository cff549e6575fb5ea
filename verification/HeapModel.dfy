// The kernel heap: 256 pages, carved on demand into objects of one size class each, with every
// free list threaded through the first word of its objects and a two-word header in front of
// every user region. Addresses are word positions in the page-aligned pool.

module HeapModel {
  import opened Options
  import opened FreeLists

  const PAGE_WORDS: nat := 512
  const POOL_WORDS: nat := 131072
  const PAGE_SIZE: nat := 4096
  /** List 8 is the page pool; lists 0 to 7 are the object caches of 8 to 1024 bytes. */
  const PAGES: nat := 8
  const HEADER_SIZE: nat := 16

  datatype Heap = Heap(link: seq<int>, heads: seq<int>)

  predicate Shaped(h: Heap) {
    |h.link| == POOL_WORDS && |h.heads| == 9
  }

  /** Words in a block of list k. */
  function BlockWords(k: nat): (r: nat)
    requires k <= PAGES
    ensures 1 <= r <= PAGE_WORDS
  {
    if k == 0 then 1 else if k == 1 then 2 else if k == 2 then 4 else if k == 3 then 8 else if k == 4 then 16
    else if k == 5 then 32 else if k == 6 then 64 else if k == 7 then 128 else 512
  }

  predicate Aligned(b: nat, k: nat)
    requires k <= PAGES
  {
    b % BlockWords(k) == 0
  }

  /** The list that serves a request of `total` bytes: the first class that holds it, else a page. */
  function KindOf(total: nat): (r: nat)
    ensures r <= PAGES
    ensures r < PAGES ==> total <= 8 * BlockWords(r)
    ensures 0 < r < PAGES ==> total > 8 * BlockWords(r - 1)
    ensures r == PAGES <==> total > 1024
  {
    if total <= 8 then 0 else if total <= 16 then 1 else if total <= 32 then 2 else if total <= 64 then 3
    else if total <= 128 then 4 else if total <= 256 then 5 else if total <= 512 then 6 else if total <= 1024 then 7
    else PAGES
  }

  // ----- the operations -----

  function Push(h: Heap, k: nat, b: nat): (r: Heap)
    requires Shaped(h) && k <= PAGES && b < POOL_WORDS
    ensures Shaped(r)
  {
    h.(link := h.link[b := h.heads[k]], heads := h.heads[k := b])
  }

  /** Take the head of list k, following its link. */
  function Pop(h: Heap, k: nat): (r: (Heap, Option<nat>))
    requires Shaped(h) && k <= PAGES
    ensures Shaped(r.0) && (r.1.Some? ==> r.1.value < POOL_WORDS)
  {
    var head := h.heads[k];
    if 0 <= head < POOL_WORDS then (h.(heads := h.heads[k := h.link[head]]), Some(head)) else (h, None)
  }

  /** Link the objects of a page from addr on in front of list k. */
  function Partition(h: Heap, k: nat, addr: nat, end: nat): (r: Heap)
    requires Shaped(h) && k < PAGES && end <= POOL_WORDS
    ensures Shaped(r)
    decreases end - addr
  {
    if addr + BlockWords(k) <= end then Partition(Push(h, k, addr), k, addr + BlockWords(k), end) else h
  }

  function AllocRaw(h: Heap, k: nat): (r: (Heap, Option<nat>))
    requires Shaped(h) && k <= PAGES
    ensures Shaped(r.0) && (r.1.Some? ==> r.1.value < POOL_WORDS)
  {
    if k == PAGES || h.heads[k] != NIL then Pop(h, k)
    else
      var (h1, page) := Pop(h, PAGES);
      if page.None? || page.value + PAGE_WORDS > POOL_WORDS then (h1, None)
      else Pop(Partition(h1, k, page.value, page.value + PAGE_WORDS), k)
  }

  /** Alignments of a layout, in words, that a page-aligned pool can honour inside a page. */
  predicate IsAlign(a: nat) {
    a == 1 || a == 2 || a == 4 || a == 8 || a == 16 || a == 32 || a == 64 || a == 128 || a == 256 || a == 512
  }

  function Up(x: nat, a: nat): (r: nat)
    requires a > 0
  {
    (x + a - 1) / a * a
  }

  function Total(size: nat, a: nat): nat {
    size + 8 * a + HEADER_SIZE
  }

  /** Allocate `size` bytes aligned to `a` words: the block, then its header, then the user region. */
  function Alloc(h: Heap, size: nat, a: nat): (r: (Heap, Option<nat>))
    requires Shaped(h) && a > 0
    ensures Shaped(r.0)
  {
    var (h1, b) := AllocRaw(h, KindOf(Total(size, a)));
    if b.None? then (h1, None)
    else
      var u := Up(b.value + 2, a);
      if 2 <= u <= POOL_WORDS
      then (h1.(link := h1.link[u - 2 := b.value][u - 1 := Total(size, a)]), Some(u))
      else (h1, Some(u))
  }

  /** Free by the header in front of the user region. */
  function Free(h: Heap, u: nat): (r: Heap)
    requires Shaped(h)
    ensures Shaped(r)
  {
    if 2 <= u <= POOL_WORDS && 0 <= h.link[u - 2] < POOL_WORDS && h.link[u - 1] >= 0
    then Push(h, KindOf(h.link[u - 1]), h.link[u - 2])
    else h
  }

  /** Initialisation links the pages from the last down to page n. */
  function InitPages(h: Heap, n: nat): (r: Heap)
    requires Shaped(h) && n <= 256
    ensures Shaped(r)
    decreases 256 - n
  {
    if n == 256 then h else Push(InitPages(h, n + 1), PAGES, 512 * n)
  }
}
