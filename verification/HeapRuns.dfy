// Heap safety over whole runs: every block of every page is free on the list of its class or
// live, never both; live user regions are aligned, inside their blocks and pairwise disjoint;
// and no write to a live region touches a link or a header.

module HeapRuns {
  import opened Numbers
  import opened Options
  import opened FreeLists
  import opened HeapModel

  /** A live allocation: its user region and the request it answers. */
  datatype Region = Region(user: nat, size: nat, align: nat)

  /** What each page is cut into, the free lists, and the live allocation of each used block. */
  datatype Shape = Shape(kind: seq<nat>, ls: Lists, live: map<nat, Region>)

  predicate Sized(s: Shape) {
    |s.kind| == 256 && |s.ls| == 9 && forall p :: 0 <= p < 256 ==> s.kind[p] <= PAGES
  }

  /** b starts a block of list k. */
  predicate IsBlock(kind: seq<nat>, k: nat, b: nat) {
    b < POOL_WORDS && k <= PAGES && |kind| == 256 && kind[b / 512] == k && Aligned(b, k)
  }

  /** The words of the user region. */
  function RegionEnd(r: Region): nat {
    r.user + (r.size + 7) / 8
  }

  predicate RegionOk(link: seq<int>, k: nat, b: nat, r: Region) {
    && |link| == POOL_WORDS && k <= PAGES
    && IsAlign(r.align) && k == KindOf(Total(r.size, r.align)) && r.user == Up(b + 2, r.align)
    && b + 2 <= r.user && RegionEnd(r) <= b + BlockWords(k) && b + BlockWords(k) <= POOL_WORDS
    && r.user <= b + BlockWords(k)
    && link[r.user - 2] == b && link[r.user - 1] == Total(r.size, r.align)
  }

  ghost predicate Blocks(s: Shape) {
    && Sized(s)
    && (forall k, b :: 0 <= k < 9 && b in s.ls[k] ==> IsBlock(s.kind, k, b))
    && (forall b :: b in s.live ==> b < POOL_WORDS && IsBlock(s.kind, s.kind[b / 512], b))
    && (forall b: nat :: b < POOL_WORDS && Aligned(b, s.kind[b / 512]) ==>
          (b in s.live <==> b !in s.ls[s.kind[b / 512]]))
  }

  /** Every live block but x holds an intact header and region. */
  ghost predicate LiveOk(link: seq<int>, s: Shape, x: int)
    requires Blocks(s)
  {
    forall b :: b in s.live && b != x ==> RegionOk(link, s.kind[b / 512], b, s.live[b])
  }

  ghost predicate Inv(h: Heap, s: Shape) {
    Shaped(h) && Blocks(s) && Linked(s.ls, h.heads, h.link) && LiveOk(h.link, s, -1)
  }

  // ----- blocks are disjoint -----

  lemma MulAtLeast(w: int, d: int)
    requires w > 0
    ensures d >= 1 ==> w * d >= w
    ensures d <= 0 ==> w * d <= 0
    ensures d <= -1 ==> w * d <= 0 - w
  {
  }

  lemma MultiplesApart(w: nat, a: nat, b: nat)
    requires w > 0 && a % w == 0 && b % w == 0 && a < b
    ensures a + w <= b
  {
    MulAtLeast(w, b / w - a / w);
    Distribute(w, b / w, a / w);
  }

  lemma Distribute(w: int, x: int, y: int)
    ensures w * (x - y) == w * x - w * y
  {
  }

  lemma MultipleOfMultiple(x: nat, m: nat, w: nat)
    requires w > 0 && m > 0 && m % w == 0 && x % m == 0
    ensures x % w == 0
  {
    var i, j := x / m, m / w;
    assert x == m * i && m == w * j;
    assert x == w * (j * i) + 0;
    Remainder(x, w, j * i, 0);
  }

  lemma Remainder(x: nat, w: nat, q: nat, r: nat)
    requires r < w && x == w * q + r
    ensures x / w == q && x % w == r
  {
    MulAtLeast(w, x / w - q);
    Distribute(w, x / w, q);
  }

  lemma AlignedApart(k: nat, a: nat, b: nat)
    requires k <= PAGES && Aligned(a, k) && Aligned(b, k) && a < b
    ensures a + BlockWords(k) <= b
  {
    hide BlockWords;
    MultiplesApart(BlockWords(k), a, b);
  }

  lemma PageIsAligned(k: nat, p: nat)
    requires k <= PAGES && p % 512 == 0
    ensures Aligned(p, k)
  {
    assert 512 % BlockWords(k) == 0;
    hide BlockWords;
    MultipleOfMultiple(p, 512, BlockWords(k));
  }

  lemma BlockInPage(k: nat, b: nat)
    requires k <= PAGES && Aligned(b, k)
    ensures b + BlockWords(k) <= (b / 512 + 1) * 512
  {
    hide BlockWords;
    PageIsAligned(k, (b / 512 + 1) * 512);
    AlignedApart(k, b, (b / 512 + 1) * 512);
  }

  /** Two different blocks share no word. */
  lemma BlocksApart(kind: seq<nat>, j: nat, a: nat, k: nat, b: nat)
    requires IsBlock(kind, j, a) && IsBlock(kind, k, b) && a < b
    ensures a + BlockWords(j) <= b
  {
    hide BlockWords, Aligned;
    BlockInPage(j, a);
    if a / 512 == b / 512 {
      AlignedApart(j, a, b);
    }
  }

  lemma UpFacts(x: nat, a: nat)
    requires a > 0
    ensures x <= Up(x, a) < x + a && Up(x, a) % a == 0
  {
    var q := (x + a - 1) / a;
    assert (x + a - 1) % a == x + a - 1 - a * q;
    Remainder(a * q, a, q, 0);
    assert q * a == a * q;
  }

  // ----- when a request fits -----

  /** What a request needs of a page: the header or the alignment, whichever is more, and the size. */
  predicate Fits(size: nat, a: nat) {
    Max(HEADER_SIZE, 8 * a) + size <= PAGE_SIZE
  }

  lemma UpIs(x: nat, a: nat, y: nat)
    requires a > 0 && y % a == 0 && x <= y < x + a
    ensures Up(x, a) == y
  {
    UpFacts(x, a);
    if y < Up(x, a) {
      MultiplesApart(a, y, Up(x, a));
    } else if Up(x, a) < y {
      MultiplesApart(a, Up(x, a), y);
    }
  }

  lemma UpAtPage(b: nat, a: nat)
    requires b % 512 == 0 && IsAlign(a)
    ensures Up(b + 2, a) == b + Max(2, a)
  {
    assert 512 % a == 0;
    hide Up;
    MultipleOfMultiple(b, 512, a);
    if a <= 2 {
      UpIs(b + 2, a, b + 2);
    } else {
      Remainder(b + a, a, b / a + 1, 0);
      UpIs(b + 2, a, b + a);
    }
  }

  /** The user region lies inside its block exactly when the request fits in a page. */
  lemma RegionFitsIff(k: nat, b: nat, size: nat, a: nat)
    requires IsAlign(a) && k == KindOf(Total(size, a)) && Aligned(b, k)
    ensures var r := Region(Up(b + 2, a), size, a);
      && b + 2 <= r.user
      && (RegionEnd(r) <= b + BlockWords(k) && r.user <= b + BlockWords(k) <==> Fits(size, a))
  {
    UpFacts(b + 2, a);
    if k == PAGES {
      UpAtPage(b, a);
    }
  }

  // ----- writes inside one block -----

  /** Word w belongs to block b, which is on no list. */
  ghost predicate Inside(s: Shape, b: nat, w: nat)
    requires Blocks(s)
  {
    && b < POOL_WORDS && IsBlock(s.kind, s.kind[b / 512], b) && b !in s.ls[s.kind[b / 512]]
    && b <= w < b + BlockWords(s.kind[b / 512])
  }

  lemma OtherWord(kind: seq<nat>, j: nat, a: nat, k: nat, b: nat, w: nat)
    requires IsBlock(kind, j, a) && IsBlock(kind, k, b) && a != b && b <= w < b + BlockWords(k)
    ensures !(a <= w < a + BlockWords(j))
  {
    hide BlockWords, IsBlock;
    if a < b {
      BlocksApart(kind, j, a, k, b);
    } else {
      BlocksApart(kind, k, b, j, a);
    }
  }

  lemma InsideInPool(s: Shape, b: nat, w: nat)
    requires Blocks(s) && Inside(s, b, w)
    ensures w < POOL_WORDS
  {
    hide BlockWords;
    BlockInPage(s.kind[b / 512], b);
  }

  /** Writing inside a block that is on no list leaves the free lists as they are. */
  lemma PokeLinked(s: Shape, heads: seq<int>, link: seq<int>, b: nat, w: nat, v: int)
    requires Blocks(s) && Linked(s.ls, heads, link) && |link| == POOL_WORDS && Inside(s, b, w) && w < POOL_WORDS
    ensures Linked(s.ls, heads, link[w := v])
  {
    hide BlockWords, Aligned, Threaded, Distinct;
    forall k | 0 <= k < 9 ensures Threaded(s.ls[k], heads[k], link[w := v]) {
      if w in s.ls[k] {
        assert IsBlock(s.kind, k, w);
        OtherWord(s.kind, k, w, s.kind[b / 512], b, w);
      }
      ThreadedFrame(s.ls[k], heads[k], link, w, v);
    }
  }

  lemma PokeRegion(s: Shape, link: seq<int>, b: nat, w: nat, v: int, c: nat)
    requires Blocks(s) && |link| == POOL_WORDS && Inside(s, b, w) && w < POOL_WORDS
    requires c in s.live && c != b && RegionOk(link, s.kind[c / 512], c, s.live[c])
    ensures RegionOk(link[w := v], s.kind[c / 512], c, s.live[c])
  {
    hide BlockWords, Aligned, Total, Up, RegionEnd, KindOf;
    OtherWord(s.kind, s.kind[c / 512], c, s.kind[b / 512], b, w);
  }

  lemma PokeOthers(s: Shape, link: seq<int>, b: nat, w: nat, v: int)
    requires Blocks(s) && |link| == POOL_WORDS && Inside(s, b, w) && w < POOL_WORDS && LiveOk(link, s, b)
    ensures LiveOk(link[w := v], s, b)
  {
    hide RegionOk, Inside, IsBlock;
    forall c | c in s.live && c != b ensures RegionOk(link[w := v], s.kind[c / 512], c, s.live[c]) {
      PokeRegion(s, link, b, w, v, c);
    }
  }

  // ----- taking and returning a block -----

  /** The head of list k becomes the block of region r. */
  function Taken(s: Shape, k: nat, r: Region): Shape
    requires Sized(s) && k <= PAGES && s.ls[k] != []
  {
    s.(ls := s.ls[k := Without(s.ls[k], 0)], live := s.live[s.ls[k][0] := r])
  }

  function Returned(s: Shape, k: nat, b: nat): Shape
    requires Sized(s) && k <= PAGES
  {
    s.(ls := s.ls[k := [b] + s.ls[k]], live := s.live - {b})
  }

  lemma TakenBlocks(s: Shape, k: nat, r: Region)
    requires Blocks(s) && Distinct(s.ls) && k <= PAGES && s.ls[k] != []
    ensures var s', b := Taken(s, k, r), s.ls[k][0];
      Blocks(s') && b < POOL_WORDS && IsBlock(s.kind, k, b) && b !in s'.ls[k] && b !in s.live
  {
    hide BlockWords, Aligned;
    var s', b := Taken(s, k, r), s.ls[k][0];
    assert b in s.ls[k];
    WithoutMembers(s.ls[k], 0);
    forall c: nat | c < POOL_WORDS && Aligned(c, s.kind[c / 512]) ensures c in s'.live <==> c !in s'.ls[s.kind[c / 512]] {
    }
  }

  lemma ReturnedBlocks(s: Shape, b: nat)
    requires Blocks(s) && b in s.live
    ensures Blocks(Returned(s, s.kind[b / 512], b))
    ensures forall m :: 0 <= m < 9 ==> b !in s.ls[m]
  {
    hide BlockWords, Aligned;
    var s' := Returned(s, s.kind[b / 512], b);
    forall c: nat | c < POOL_WORDS && Aligned(c, s.kind[c / 512]) ensures c in s'.live <==> c !in s'.ls[s.kind[c / 512]] {
    }
  }

  lemma LiveBlock(s: Shape, b: nat)
    requires Blocks(s) && b in s.live
    ensures IsBlock(s.kind, s.kind[b / 512], b) && Inside(s, b, b)
  {
  }

  /** Freeing a live region returns its block to the list it came from. */
  lemma FreeKeeps(h: Heap, s: Shape, b: nat)
    requires Inv(h, s) && b in s.live
    ensures var k := s.kind[b / 512];
      && Free(h, s.live[b].user) == Push(h, k, b)
      && Inv(Free(h, s.live[b].user), Returned(s, k, b))
  {
    hide BlockWords, Aligned, Up, RegionEnd, Linked;
    var k, r := s.kind[b / 512], s.live[b];
    assert RegionOk(h.link, k, b, r);
    assert Free(h, r.user) == Push(h, k, b);
    var s' := Returned(s, k, b);
    ReturnedBlocks(s, b);
    PushLinked(s.ls, h.heads, h.link, k, b);
    LiveBlock(s, b);
    PokeOthers(s, h.link, b, b, h.heads[k]);
    SameLive(h.link[b := h.heads[k]], s, s', b);
  }

  /** Dropping b from the live map leaves the rest. */
  lemma SameLive(link: seq<int>, s: Shape, s': Shape, b: nat)
    requires Blocks(s) && Blocks(s') && LiveOk(link, s, b)
    requires s'.kind == s.kind && s'.live == s.live - {b}
    ensures LiveOk(link, s', -1)
  {
    hide RegionOk, IsBlock;
  }

  // ----- cutting a page into objects -----

  /** The objects of w words from page up to addr, last first. */
  function Objects(page: nat, addr: nat, w: nat): (r: seq<nat>)
    requires w > 0
    decreases addr
  {
    if addr < page + w then [] else [addr - w] + Objects(page, addr - w, w)
  }

  lemma {:induction false} ObjectsAre(page: nat, addr: nat, w: nat)
    requires w > 0 && page % w == 0 && addr % w == 0
    ensures NoRepeats(Objects(page, addr, w))
    ensures forall x :: x in Objects(page, addr, w) <==> page <= x < addr && x % w == 0
    decreases addr
  {
    var l := Objects(page, addr, w);
    if addr < page + w {
      forall x: nat | page <= x < addr && x % w == 0 ensures false {
        MultiplesApart(w, x, addr);
      }
    } else {
      Remainder(addr - w, w, addr / w - 1, 0);
      var rest := Objects(page, addr - w, w);
      ObjectsAre(page, addr - w, w);
      forall x: nat ensures x in l <==> page <= x < addr && x % w == 0 {
        if addr - w < x < addr && x % w == 0 {
          MultiplesApart(w, x, addr);
        }
      }
      forall i, j | 0 <= i < j < |l| ensures l[i] != l[j] {
        assert l[j] == rest[j - 1] && l[j] in rest;
        assert i > 0 ==> l[i] == rest[i - 1];
      }
    }
  }

  /** While a page taken off the pool is being cut for class k: its objects below addr are on
      list k, which holds nothing else, and all else is as before. */
  ghost predicate Cutting(h: Heap, s: Shape, k: nat, page: nat, addr: nat) {
    && Shaped(h) && Blocks(s) && k < PAGES && s.ls[k] == []
    && page in s.live && page % 512 == 0 && s.kind[page / 512] == PAGES
    && page <= addr <= page + 512 && Aligned(addr, k)
    && Linked(s.ls[k := Objects(page, addr, BlockWords(k))], h.heads, h.link)
    && LiveOk(h.link, s, page)
  }

  lemma PageWords(s: Shape, page: nat, w: nat)
    requires Blocks(s) && page in s.live && page % 512 == 0 && s.kind[page / 512] == PAGES && page <= w < page + 512
    ensures Inside(s, page, w) && w < POOL_WORDS && Sized(s)
    ensures forall m :: 0 <= m < 9 ==> w !in s.ls[m]
  {
    InsideInPool(s, page, w);
    assert w / 512 == page / 512;
  }

  lemma CutOne(h: Heap, s: Shape, k: nat, page: nat, addr: nat)
    requires Cutting(h, s, k, page, addr) && addr < page + 512
    ensures addr < POOL_WORDS && Cutting(Push(h, k, addr), s, k, page, addr + BlockWords(k))
  {
    hide Linked, LiveOk, Blocks, BlockWords, Inside;
    var w := BlockWords(k);
    PageWords(s, page, addr);
    PageIsAligned(k, page);
    PageIsAligned(k, page + 512);
    AlignedApart(k, addr, page + 512);
    Remainder(addr + w, w, addr / w + 1, 0);
    ObjectsAre(page, addr, w);
    var objects := Objects(page, addr, w);
    CutLinked(s.ls, objects, k, addr, h.heads, h.link);
    MoreObjects(page, addr, w);
    PokeOthers(s, h.link, page, addr, h.heads[k]);
  }

  lemma MoreObjects(page: nat, addr: nat, w: nat)
    requires w > 0 && page <= addr
    ensures Objects(page, addr + w, w) == [addr] + Objects(page, addr, w)
  {
  }

  lemma CutLinked(ls: Lists, objects: seq<nat>, k: nat, addr: nat, heads: seq<int>, link: seq<int>)
    requires |ls| == 9 && k < 8 && Linked(ls[k := objects], heads, link) && addr < |link|
    requires addr !in objects && forall m :: 0 <= m < 9 ==> addr !in ls[m]
    ensures Linked(ls[k := [addr] + objects], heads[k := addr], link[addr := heads[k]])
  {
    hide Linked;
    PushLinked(ls[k := objects], heads, link, k, addr);
    assert ls[k := objects][k := [addr] + objects] == ls[k := [addr] + objects];
  }

  lemma {:induction false} CutAll(h: Heap, s: Shape, k: nat, page: nat, addr: nat)
    requires Cutting(h, s, k, page, addr) && page + 512 <= POOL_WORDS
    ensures Cutting(Partition(h, k, addr, page + 512), s, k, page, page + 512)
    decreases page + 512 - addr
  {
    hide Linked, LiveOk, Blocks, BlockWords;
    PageIsAligned(k, page + 512);
    if addr < page + 512 {
      AlignedApart(k, addr, page + 512);
      CutOne(h, s, k, page, addr);
      CutAll(Push(h, k, addr), s, k, page, addr + BlockWords(k));
    }
  }

  /** The shape after a page of the pool is cut for class k. */
  function Carved(s: Shape, k: nat): Shape
    requires Sized(s) && k < PAGES && s.ls[PAGES] != [] && s.ls[PAGES][0] < POOL_WORDS
  {
    var page := s.ls[PAGES][0];
    s.(kind := s.kind[page / 512 := k],
       ls := s.ls[PAGES := Without(s.ls[PAGES], 0)][k := Objects(page, page + 512, BlockWords(k))])
  }

  lemma PageHead(s: Shape)
    requires Blocks(s) && s.ls[PAGES] != []
    ensures var page := s.ls[PAGES][0];
      page < POOL_WORDS && page % 512 == 0 && page + 512 <= POOL_WORDS && s.kind[page / 512] == PAGES
  {
    assert s.ls[PAGES][0] in s.ls[PAGES];
    assert IsBlock(s.kind, PAGES, s.ls[PAGES][0]);
  }

  lemma CarvedBlock(s: Shape, k: nat, c: nat)
    requires Blocks(s) && Distinct(s.ls) && k < PAGES && s.ls[k] == [] && s.ls[PAGES] != []
    requires s.ls[PAGES][0] < POOL_WORDS
    ensures var s', page := Carved(s, k), s.ls[PAGES][0];
      && (c < POOL_WORDS && Aligned(c, s'.kind[c / 512]) ==> (c in s'.live <==> c !in s'.ls[s'.kind[c / 512]]))
      && (c in s'.live ==> c < POOL_WORDS && c / 512 != page / 512 && IsBlock(s'.kind, s'.kind[c / 512], c))
      && (forall j :: 0 <= j < 9 && c in s'.ls[j] ==> IsBlock(s'.kind, j, c))
  {
    hide BlockWords;
    PageHead(s);
    var s', page, w := Carved(s, k), s.ls[PAGES][0], BlockWords(k);
    PageIsAligned(k, page);
    PageIsAligned(k, page + 512);
    ObjectsAre(page, page + 512, w);
    WithoutMembers(s.ls[PAGES], 0);
    assert page in s.ls[PAGES];
    PageAligned(c);
  }

  lemma PageAligned(c: nat)
    ensures Aligned(c, PAGES) <==> c % 512 == 0
  {
  }

  lemma CarvedBlocks(s: Shape, k: nat)
    requires Blocks(s) && Distinct(s.ls) && k < PAGES && s.ls[k] == [] && s.ls[PAGES] != []
    requires s.ls[PAGES][0] < POOL_WORDS
    ensures Blocks(Carved(s, k))
  {
    hide BlockWords, Aligned, Distinct, IsBlock;
    var s' := Carved(s, k);
    forall c: nat
      ensures c < POOL_WORDS && Aligned(c, s'.kind[c / 512]) ==> (c in s'.live <==> c !in s'.ls[s'.kind[c / 512]])
      ensures c in s'.live ==> c < POOL_WORDS && IsBlock(s'.kind, s'.kind[c / 512], c)
    {
      CarvedBlock(s, k, c);
    }
    forall j, b | 0 <= j < 9 && b in s'.ls[j] ensures IsBlock(s'.kind, j, b) {
      CarvedBlock(s, k, b);
    }
  }

  /** Cutting a page of the pool keeps the heap intact. */
  lemma CarveKeeps(h: Heap, s: Shape, k: nat, h1: Heap)
    requires Inv(h, s) && k < PAGES && s.ls[k] == [] && s.ls[PAGES] != []
    requires h1 == Pop(h, PAGES).0
    ensures var page := s.ls[PAGES][0];
      && Pop(h, PAGES) == (h1, Some(page)) && page + 512 <= POOL_WORDS
      && Inv(Partition(h1, k, page, page + 512), Carved(s, k))
  {
    hide BlockWords, Aligned, LiveOk, Threaded, RegionOk, IsBlock;
    var page := s.ls[PAGES][0];
    PageHead(s);
    var r := Region(0, 0, 0);
    PopIs(h, s, PAGES);
    TakenBlocks(s, PAGES, r);
    PopLinked(s.ls, h.heads, h.link, PAGES);
    var sP := Taken(s, PAGES, r);
    assert sP.ls[k := []] == sP.ls;
    LiveExcept(h.link, s, sP, page);
    PageIsAligned(k, page);
    assert Cutting(h1, sP, k, page, page);
    CutAll(h1, sP, k, page, page);
    CarvedBlocks(s, k);
    CarvedLive(Partition(h1, k, page, page + 512).link, s, sP, k);
  }

  lemma PopIs(h: Heap, s: Shape, k: nat)
    requires Inv(h, s) && k <= PAGES && s.ls[k] != []
    ensures Pop(h, k) == (h.(heads := h.heads[k := h.link[s.ls[k][0]]]), Some(s.ls[k][0]))
  {
    assert Threaded(s.ls[k], h.heads[k], h.link);
  }

  lemma LiveExcept(link: seq<int>, s: Shape, s': Shape, b: nat)
    requires Blocks(s) && Blocks(s') && LiveOk(link, s, -1) && s'.kind == s.kind
    requires forall c :: c in s'.live && c != b ==> c in s.live && s'.live[c] == s.live[c]
    ensures LiveOk(link, s', b)
  {
    hide RegionOk, IsBlock;
  }

  lemma CarvedLive(link: seq<int>, s: Shape, sP: Shape, k: nat)
    requires Blocks(s) && Distinct(s.ls) && k < PAGES && s.ls[k] == [] && s.ls[PAGES] != []
    requires s.ls[PAGES][0] < POOL_WORDS && Blocks(sP) && Blocks(Carved(s, k))
    requires sP == Taken(s, PAGES, Region(0, 0, 0)) && LiveOk(link, sP, s.ls[PAGES][0])
    ensures LiveOk(link, Carved(s, k), -1)
  {
    hide RegionOk, IsBlock, BlockWords, Distinct;
    var s' := Carved(s, k);
    forall c | c in s'.live ensures RegionOk(link, s'.kind[c / 512], c, s'.live[c]) {
      CarvedBlock(s, k, c);
    }
  }

  // ----- allocation -----

  /** No block is left for list k: neither on the list nor on the page pool. */
  predicate Exhausted(s: Shape, k: nat)
    requires Sized(s) && k <= PAGES
  {
    s.ls[k] == [] && s.ls[PAGES] == []
  }

  /** The shape in which list k has a block, cutting a page if it must. */
  function Stocked(s: Shape, k: nat): Shape
    requires Sized(s) && k <= PAGES && (s.ls[PAGES] != [] ==> s.ls[PAGES][0] < POOL_WORDS)
  {
    if s.ls[k] == [] && s.ls[PAGES] != [] && k < PAGES then Carved(s, k) else s
  }

  lemma StockKeeps(h: Heap, s: Shape, k: nat) returns (h1: Heap)
    requires Inv(h, s) && k <= PAGES && !Exhausted(s, k)
    ensures s.ls[PAGES] != [] ==> s.ls[PAGES][0] < POOL_WORDS
    ensures Inv(h1, Stocked(s, k)) && Stocked(s, k).ls[k] != [] && AllocRaw(h, k) == Pop(h1, k)
  {
    hide BlockWords, Aligned, LiveOk, RegionOk, IsBlock, Pop, Partition;
    if s.ls[PAGES] != [] {
      PageHead(s);
    }
    ListHead(h, s, k);
    if s.ls[k] == [] {
      CarveKeeps(h, s, k, Pop(h, PAGES).0);
      var page := s.ls[PAGES][0];
      h1 := Partition(Pop(h, PAGES).0, k, page, page + 512);
      MoreObjects(page, page + 512 - BlockWords(k), BlockWords(k));
    } else {
      h1 := h;
    }
  }

  lemma ListHead(h: Heap, s: Shape, k: nat)
    requires Inv(h, s) && k <= PAGES
    ensures h.heads[k] == NIL <==> s.ls[k] == []
  {
    assert Threaded(s.ls[k], h.heads[k], h.link);
  }

  /** Allocation fails exactly when nothing is left for its class, and then changes nothing. */
  lemma AllocFailsIff(h: Heap, s: Shape, size: nat, a: nat)
    requires Inv(h, s) && a > 0
    ensures var k := KindOf(Total(size, a));
      && (Alloc(h, size, a).1.None? <==> Exhausted(s, k))
      && (Alloc(h, size, a).1.None? ==> Alloc(h, size, a).0 == h)
  {
    hide BlockWords, Aligned, LiveOk, RegionOk, IsBlock, Partition, Linked, Up;
    var k := KindOf(Total(size, a));
    ListHead(h, s, k);
    ListHead(h, s, PAGES);
    if !Exhausted(s, k) {
      var h1 := StockKeeps(h, s, k);
      PopIs(h1, Stocked(s, k), k);
    }
  }

  /** Everything but block b is intact. */
  ghost predicate IntactBut(h: Heap, s: Shape, b: nat) {
    Shaped(h) && Blocks(s) && Linked(s.ls, h.heads, h.link) && b in s.live && LiveOk(h.link, s, b)
  }

  lemma PokeKeeps(h: Heap, s: Shape, b: nat, w: nat, v: int)
    requires IntactBut(h, s, b) && b <= w < b + BlockWords(s.kind[b / 512])
    ensures w < POOL_WORDS && IntactBut(h.(link := h.link[w := v]), s, b)
  {
    hide BlockWords, Linked, LiveOk, Aligned;
    LiveBlock(s, b);
    InsideInPool(s, b, w);
    PokeLinked(s, h.heads, h.link, b, w, v);
    PokeOthers(s, h.link, b, w, v);
  }

  /** The region of a live block that answers a fitting request. */
  ghost predicate Answers(s: Shape, b: nat)
    requires Blocks(s)
  {
    && b in s.live && IsAlign(s.live[b].align) && Fits(s.live[b].size, s.live[b].align)
    && s.live[b].user == Up(b + 2, s.live[b].align)
    && s.kind[b / 512] == KindOf(Total(s.live[b].size, s.live[b].align))
  }

  lemma AnswerFits(s: Shape, b: nat)
    requires Blocks(s) && Answers(s, b)
    ensures var k, r := s.kind[b / 512], s.live[b];
      && b + 2 <= r.user <= b + BlockWords(k) && RegionEnd(r) <= b + BlockWords(k) && b + BlockWords(k) <= POOL_WORDS
  {
    hide BlockWords, Up, RegionEnd, KindOf, Total, Fits, Aligned;
    var k, r := s.kind[b / 512], s.live[b];
    LiveBlock(s, b);
    RegionFitsIff(k, b, r.size, r.align);
    InsideInPool(s, b, b + BlockWords(k) - 1);
  }

  /** Writing the two header words of a block just taken completes its region. */
  lemma HeaderKeeps(h: Heap, s: Shape, b: nat, r: Region, u: nat)
    requires IntactBut(h, s, b) && Answers(s, b) && s.live[b] == r && u == r.user
    ensures 2 <= u <= POOL_WORDS
    ensures Inv(h.(link := h.link[u - 2 := b][u - 1 := Total(r.size, r.align)]), s)
  {
    hide BlockWords, Linked, LiveOk, Up, RegionEnd, KindOf, Total, Aligned, IsBlock;
    AnswerFits(s, b);
    PokeKeeps(h, s, b, u - 2, b);
    var h1 := h.(link := h.link[u - 2 := b]);
    PokeKeeps(h1, s, b, u - 1, Total(r.size, r.align));
    var link' := h1.link[u - 1 := Total(r.size, r.align)];
    assert RegionOk(link', s.kind[b / 512], b, r);
    LiveAll(link', s, b);
  }

  lemma LiveAll(link: seq<int>, s: Shape, b: nat)
    requires Blocks(s) && b in s.live && LiveOk(link, s, b) && RegionOk(link, s.kind[b / 512], b, s.live[b])
    ensures LiveOk(link, s, -1)
  {
    hide RegionOk, IsBlock;
  }

  lemma TakenIntact(h: Heap, s: Shape, k: nat, r: Region)
    requires Inv(h, s) && k <= PAGES && s.ls[k] != []
    ensures IntactBut(Pop(h, k).0, Taken(s, k, r), s.ls[k][0])
  {
    hide BlockWords, LiveOk, RegionOk, IsBlock, Threaded;
    PopIs(h, s, k);
    TakenBlocks(s, k, r);
    PopLinked(s.ls, h.heads, h.link, k);
    LiveExcept(h.link, s, Taken(s, k, r), s.ls[k][0]);
  }

  /** A fitting request is answered with a region in a block that was not live, and the heap
      stays intact. */
  lemma AllocKeeps(h: Heap, s: Shape, size: nat, a: nat) returns (b: nat, s': Shape)
    requires Inv(h, s) && IsAlign(a) && Fits(size, a) && Alloc(h, size, a).1.Some?
    ensures Inv(Alloc(h, size, a).0, s') && b !in s.live
    ensures s'.live == s.live[b := Region(Alloc(h, size, a).1.value, size, a)]
  {
    hide Inv, Pop, AllocRaw, KindOf, Total, Stocked, Exhausted, Fits, Up;
    var k := KindOf(Total(size, a));
    AllocFailsIff(h, s, size, a);
    InvSized(h, s);
    var h1 := StockKeeps(h, s, k);
    InvSized(h1, Stocked(s, k));
    b := Stocked(s, k).ls[k][0];
    StockedLive(s, k);
    s' := AllocFrom(h1, Stocked(s, k), k, size, a);
    PopIs(h1, Stocked(s, k), k);
  }

  lemma InvSized(h: Heap, s: Shape)
    requires Inv(h, s)
    ensures Sized(s) && Shaped(h)
  {
  }

  lemma StockedLive(s: Shape, k: nat)
    requires Sized(s) && k <= PAGES && (s.ls[PAGES] != [] ==> s.ls[PAGES][0] < POOL_WORDS)
    ensures Stocked(s, k).live == s.live
  {
  }

  lemma AllocFrom(h: Heap, s: Shape, k: nat, size: nat, a: nat) returns (s': Shape)
    requires Inv(h, s) && IsAlign(a) && Fits(size, a) && k == KindOf(Total(size, a)) && s.ls[k] != []
    ensures var b := s.ls[k][0];
      var u := Up(b + 2, a);
      && 2 <= u <= POOL_WORDS && b !in s.live && s' == Taken(s, k, Region(u, size, a))
      && Inv(Pop(h, k).0.(link := Pop(h, k).0.link[u - 2 := b][u - 1 := Total(size, a)]), s')
  {
    hide BlockWords, LiveOk, RegionOk, Linked, Up, KindOf, Total, IsBlock, Fits, Pop;
    var b := s.ls[k][0];
    var r := Region(Up(b + 2, a), size, a);
    TakenIntact(h, s, k, r);
    TakenAnswers(h, s, k, r);
    s' := Taken(s, k, r);
    HeaderKeeps(Pop(h, k).0, s', b, r, r.user);
  }

  lemma TakenAnswers(h: Heap, s: Shape, k: nat, r: Region)
    requires Inv(h, s) && k <= PAGES && s.ls[k] != [] && IsAlign(r.align) && Fits(r.size, r.align)
    requires k == KindOf(Total(r.size, r.align)) && r.user == Up(s.ls[k][0] + 2, r.align)
    ensures Blocks(Taken(s, k, r)) && Answers(Taken(s, k, r), s.ls[k][0]) && s.ls[k][0] !in s.live
  {
    hide BlockWords, Up, KindOf, Total, Fits, LiveOk, Threaded;
    TakenBlocks(s, k, r);
  }

  // ----- what clients see, over whole runs -----

  /** Two live regions, headers included, share no word, and users are told apart. */
  lemma RegionsApart(h: Heap, s: Shape, b: nat, c: nat)
    requires Inv(h, s) && b in s.live && c in s.live && b < c
    ensures RegionEnd(s.live[b]) <= s.live[c].user - 2 && s.live[b].user < s.live[c].user
  {
    hide BlockWords, Linked, Up, KindOf, Total, Aligned, RegionEnd;
    LiveBlock(s, b);
    LiveBlock(s, c);
    BlocksApart(s.kind, s.kind[b / 512], b, s.kind[c / 512], c);
    assert RegionOk(h.link, s.kind[b / 512], b, s.live[b]);
    assert RegionOk(h.link, s.kind[c / 512], c, s.live[c]);
  }

  /** A store into a live region changes no link and no header. */
  lemma StoreKeeps(h: Heap, s: Shape, b: nat, w: nat, v: int)
    requires Inv(h, s) && b in s.live && s.live[b].user <= w < RegionEnd(s.live[b])
    ensures w < POOL_WORDS && Inv(h.(link := h.link[w := v]), s)
  {
    hide BlockWords, Linked, Up, KindOf, Total, Aligned, IsBlock, RegionEnd;
    var k := s.kind[b / 512];
    assert RegionOk(h.link, k, b, s.live[b]);
    PokeKeeps(h, s, b, w, v);
    LiveAll(h.link[w := v], s, b);
  }

  datatype Op = Get(size: nat, align: nat) | Drop(user: nat) | Store(at: nat, value: int)

  /** What the clients hold: each user pointer with its request. */
  type Held = map<nat, Region>

  function Apply(h: Heap, held: Held, op: Op): (r: (Heap, Held))
    requires Shaped(h) && (op.Get? ==> op.align > 0)
    ensures Shaped(r.0)
  {
    match op
    case Get(size, a) =>
      var (h', u) := Alloc(h, size, a);
      (h', if u.Some? then held[u.value := Region(u.value, size, a)] else held)
    case Drop(u) => (Free(h, u), held - {u})
    case Store(w, v) => (if w < POOL_WORDS then h.(link := h.link[w := v]) else h, held)
  }

  /** Requests fit in a page; only held pointers are freed; stores stay inside held regions. */
  ghost predicate Allowed(held: Held, op: Op) {
    match op
    case Get(size, a) => IsAlign(a) && Fits(size, a)
    case Drop(u) => u in held
    case Store(w, v) => exists u :: u in held && u <= w < RegionEnd(held[u])
  }

  /** The held pointers are exactly the live regions. */
  ghost predicate Matches(held: Held, s: Shape) {
    && (forall b :: b in s.live ==> s.live[b].user in held && held[s.live[b].user] == s.live[b])
    && (forall u :: u in held ==> exists b :: b in s.live && s.live[b].user == u)
  }

  /** The heap is sound for what the clients hold. */
  ghost predicate Safe(h: Heap, held: Held) {
    exists s :: Inv(h, s) && Matches(held, s)
  }

  lemma GetKeeps(h: Heap, held: Held, s: Shape, size: nat, a: nat)
    requires Inv(h, s) && Matches(held, s) && IsAlign(a) && Fits(size, a)
    ensures var (h', held') := Apply(h, held, Get(size, a)); Safe(h', held')
  {
    hide Inv, Alloc, Fits;
    InvSized(h, s);
    AllocFailsIff(h, s, size, a);
    var (h', u) := Alloc(h, size, a);
    if u.Some? {
      var b, s' := AllocKeeps(h, s, size, a);
      var held' := held[u.value := Region(u.value, size, a)];
      forall c | c in s'.live && c != b ensures s'.live[c].user != u.value {
        UsersDiffer(h', s', b, c);
      }
      forall p | p in held' ensures exists c :: c in s'.live && s'.live[c].user == p {
        if p == u.value {
          assert b in s'.live;
        } else {
          var c :| c in s.live && s.live[c].user == p;
          assert c in s'.live;
        }
      }
      assert Matches(held', s');
    }
  }

  lemma UsersDiffer(h: Heap, s: Shape, b: nat, c: nat)
    requires Inv(h, s) && b in s.live && c in s.live && b != c
    ensures s.live[b].user != s.live[c].user
  {
    hide Inv;
    if b < c {
      RegionsApart(h, s, b, c);
    } else {
      RegionsApart(h, s, c, b);
    }
  }

  lemma DropKeeps(h: Heap, held: Held, s: Shape, u: nat)
    requires Inv(h, s) && Matches(held, s) && u in held
    ensures Safe(Free(h, u), held - {u})
  {
    hide Free, IsBlock, Linked, LiveOk;
    var b :| b in s.live && s.live[b].user == u;
    FreeKeeps(h, s, b);
    var s' := Returned(s, s.kind[b / 512], b);
    var held' := held - {u};
    forall c | c in s'.live ensures s'.live[c].user in held' {
      UsersDiffer(h, s, b, c);
    }
    forall p | p in held' ensures exists c :: c in s'.live && s'.live[c].user == p {
      var c :| c in s.live && s.live[c].user == p;
      assert c in s'.live;
    }
    assert Matches(held', s');
  }

  lemma ApplyKeeps(h: Heap, held: Held, op: Op)
    requires Safe(h, held) && Allowed(held, op)
    ensures Shaped(h)
    ensures var (h', held') := Apply(h, held, op); Safe(h', held')
  {
    hide Inv, Free, Alloc, Fits, RegionEnd;
    var s :| Inv(h, s) && Matches(held, s);
    InvSized(h, s);
    match op {
      case Get(size, a) => GetKeeps(h, held, s, size, a);
      case Drop(u) => DropKeeps(h, held, s, u);
      case Store(w, v) =>
        var u :| u in held && u <= w < RegionEnd(held[u]);
        var b :| b in s.live && s.live[b].user == u;
        StoreKeeps(h, s, b, w, v);
    }
  }

  ghost predicate AllowedRun(h: Heap, held: Held, ops: seq<Op>)
    requires Shaped(h)
    decreases |ops|
  {
    ops != [] ==>
      && Allowed(held, ops[0])
      && var (h', held') := Apply(h, held, ops[0]); AllowedRun(h', held', ops[1..])
  }

  ghost function Run(h: Heap, held: Held, ops: seq<Op>): (r: (Heap, Held))
    requires Shaped(h) && AllowedRun(h, held, ops)
    decreases |ops|
  {
    if ops == [] then (h, held) else var (h', held') := Apply(h, held, ops[0]); Run(h', held', ops[1..])
  }

  /** What soundness means for the clients: regions are aligned and inside the pool. */
  lemma HeldAligned(h: Heap, held: Held, u: nat)
    requires Safe(h, held) && u in held
    ensures u == held[u].user && held[u].align > 0 && u % held[u].align == 0 && RegionEnd(held[u]) <= POOL_WORDS
  {
    hide Inv, RegionEnd;
    var s :| Inv(h, s) && Matches(held, s);
    var b :| b in s.live && s.live[b].user == u;
    UserAligned(h, s, b);
  }

  /** Two held regions are disjoint, with room for the header of the second between them. */
  lemma HeldApart(h: Heap, held: Held, u: nat, v: nat)
    requires Safe(h, held) && u in held && v in held && u < v
    ensures RegionEnd(held[u]) <= v - 2
  {
    hide Inv, RegionEnd;
    var s :| Inv(h, s) && Matches(held, s);
    var b :| b in s.live && s.live[b].user == u;
    var c :| c in s.live && s.live[c].user == v;
    if c < b {
      RegionsApart(h, s, c, b);
    }
    RegionsApart(h, s, b, c);
  }

  lemma UserAligned(h: Heap, s: Shape, b: nat)
    requires Inv(h, s) && b in s.live
    ensures s.live[b].align > 0 && s.live[b].user % s.live[b].align == 0 && RegionEnd(s.live[b]) <= POOL_WORDS
  {
    hide BlockWords, Linked, KindOf, Total, RegionEnd, IsBlock;
    assert RegionOk(h.link, s.kind[b / 512], b, s.live[b]);
    UpFacts(b + 2, s.live[b].align);
  }

  /** Over every run of fitting requests, frees of held pointers and stores into held regions:
      live regions stay aligned, disjoint and inside the pool, headers and links stay intact. */
  lemma {:induction false} HeapStaysSafe(h: Heap, held: Held, ops: seq<Op>)
    requires Safe(h, held) && Shaped(h) && AllowedRun(h, held, ops)
    ensures var (h', held') := Run(h, held, ops); Safe(h', held')
    decreases |ops|
  {
    hide Safe, Apply, Fits;
    if ops != [] {
      ApplyKeeps(h, held, ops[0]);
      var (h', held') := Apply(h, held, ops[0]);
      HeapStaysSafe(h', held', ops[1..]);
    }
  }

  // ----- the initial pool -----

  /** The pages from n on, in order. */
  function PagesFrom(n: nat): (r: seq<nat>)
    requires n <= 256
    decreases 256 - n
  {
    if n == 256 then [] else [512 * n] + PagesFrom(n + 1)
  }

  lemma {:induction false} PagesFromAre(n: nat)
    requires n <= 256
    ensures NoRepeats(PagesFrom(n))
    ensures forall x :: x in PagesFrom(n) <==> 512 * n <= x < POOL_WORDS && x % 512 == 0
    decreases 256 - n
  {
    if n < 256 {
      PagesFromAre(n + 1);
      var l, rest := PagesFrom(n), PagesFrom(n + 1);
      forall x: nat ensures x in l <==> 512 * n <= x < POOL_WORDS && x % 512 == 0 {
      }
      forall i, j | 0 <= i < j < |l| ensures l[i] != l[j] {
        assert l[j] == rest[j - 1] && l[j] in rest;
        assert i > 0 ==> l[i] == rest[i - 1];
      }
    }
  }

  function NoLists(): (r: Lists)
    ensures |r| == 9 && forall k :: 0 <= k < 9 ==> r[k] == []
  {
    seq(9, _ => [])
  }

  function InitialShape(): Shape {
    Shape(seq(256, _ => PAGES), NoLists()[PAGES := PagesFrom(0)], map[])
  }

  lemma {:induction false} InitLinked(h: Heap, n: nat)
    requires Shaped(h) && n <= 256 && forall k :: 0 <= k < 9 ==> h.heads[k] == NIL
    ensures var h' := InitPages(h, n); Linked(NoLists()[PAGES := PagesFrom(n)], h'.heads, h'.link)
    decreases 256 - n
  {
    var none := NoLists();
    if n == 256 {
      assert none[PAGES := []] == none;
    } else {
      InitLinked(h, n + 1);
      PagesFromAre(n + 1);
      var h1, ls := InitPages(h, n + 1), none[PAGES := PagesFrom(n + 1)];
      PushLinked(ls, h1.heads, h1.link, PAGES, 512 * n);
      assert ls[PAGES := [512 * n] + PagesFrom(n + 1)] == none[PAGES := PagesFrom(n)];
    }
  }

  lemma InitialBlocks()
    ensures Blocks(InitialShape())
  {
    hide Aligned, BlockWords;
    var s := InitialShape();
    PagesFromAre(0);
    forall b: nat ensures Aligned(b, PAGES) <==> b % 512 == 0 {
      PageAligned(b);
    }
  }

  /** The pool just initialised is sound and nothing is held. */
  lemma InitialSafe(h: Heap)
    requires Shaped(h) && forall k :: 0 <= k < 9 ==> h.heads[k] == NIL
    ensures Safe(InitPages(h, 0), map[])
  {
    hide Linked, Blocks, InitPages, PagesFrom, NoLists;
    InitLinked(h, 0);
    InitialBlocks();
    assert Inv(InitPages(h, 0), InitialShape()) && Matches(map[], InitialShape());
  }
}
