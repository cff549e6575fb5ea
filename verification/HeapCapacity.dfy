// How much the heap can give: the classes are powers of two, each request gets the smallest that
// holds it, and the initial pool serves exactly as many requests of a class as it has blocks.

module HeapCapacity {
  import opened Numbers
  import opened Options
  import opened FreeLists
  import opened HeapModel
  import opened HeapRuns
  import B = BuddyTree

  /** Classes 0 to 7 are 8 to 1024 bytes, each twice the one before; list 8 holds whole pages. */
  lemma ClassBytes(k: nat)
    requires k <= 8
    ensures k < 8 ==> 8 * BlockWords(k) == B.Pow2(k + 3)
    ensures 8 * BlockWords(8) == 4096
  {
    Powers();
  }

  lemma Powers()
    ensures B.Pow2(2) == 4 && B.Pow2(3) == 8 && B.Pow2(4) == 16 && B.Pow2(5) == 32 && B.Pow2(6) == 64
    ensures B.Pow2(7) == 128 && B.Pow2(8) == 256 && B.Pow2(9) == 512 && B.Pow2(10) == 1024
  {
    assert B.Pow2(1) == 2;
  }

  /** A request of `size` bytes aligned to `a` words needs its size, its alignment and 16 bytes, and
      is served by the smallest class that holds them, or by a page. */
  lemma ClassIsLeast(size: nat, a: nat)
    ensures var k, total := KindOf(Total(size, a)), size + 8 * a + 16;
      && (k == 8 <==> total > 1024)
      && (k < 8 ==> total <= B.Pow2(k + 3))
      && (0 < k < 8 ==> B.Pow2(k + 2) < total)
  {
    hide BlockWords;
    var k := KindOf(Total(size, a));
    ClassBytes(k);
    if 0 < k < 8 {
      ClassBytes(k - 1);
    }
  }

  // ----- what is left -----

  /** Blocks of list k in a page. */
  function PerPage(k: nat): nat
    requires k <= PAGES
  {
    512 / BlockWords(k)
  }

  /** Blocks that list k can still give. */
  function Left(s: Shape, k: nat): nat
    requires Sized(s) && k <= PAGES
  {
    |s.ls[k]| + if k < PAGES then PerPage(k) * |s.ls[PAGES]| else 0
  }

  lemma {:induction false} ObjectCount(page: nat, n: nat, w: nat)
    requires w > 0
    ensures |Objects(page, page + n * w, w)| == n
    decreases n
  {
    if n > 0 {
      assert page + n * w - w == page + (n - 1) * w;
      assert n * w >= w;
      ObjectCount(page, n - 1, w);
    } else {
      assert n * w == 0;
    }
  }

  lemma PageCount(page: nat, k: nat)
    requires k < PAGES
    ensures |Objects(page, page + 512, BlockWords(k))| == PerPage(k)
  {
    var w := BlockWords(k);
    assert 512 / w * w == 512;
    ObjectCount(page, 512 / w, w);
  }

  lemma StockedLeft(s: Shape, k: nat)
    requires Sized(s) && k <= PAGES && (s.ls[PAGES] != [] ==> s.ls[PAGES][0] < POOL_WORDS)
    ensures Sized(Stocked(s, k)) && Left(Stocked(s, k), k) == Left(s, k)
  {
    hide BlockWords, PerPage, Objects;
    if s.ls[k] == [] && s.ls[PAGES] != [] && k < PAGES {
      PageCount(s.ls[PAGES][0], k);
      Less(PerPage(k), |s.ls[PAGES]|);
    }
  }

  lemma Less(a: nat, b: nat)
    requires b > 0
    ensures a + a * (b - 1) == a * b
  {
  }

  /** A request that fits takes one block of its class. */
  lemma AllocUsesOne(h: Heap, s: Shape, size: nat, a: nat) returns (s': Shape)
    requires Inv(h, s) && IsAlign(a) && Fits(size, a) && Alloc(h, size, a).1.Some?
    ensures var k := KindOf(Total(size, a));
      Sized(s) && Sized(s') && Inv(Alloc(h, size, a).0, s') && Left(s', k) + 1 == Left(s, k)
  {
    hide Inv, Pop, AllocRaw, KindOf, Total, Stocked, Exhausted, Fits, Up, PerPage;
    var k := KindOf(Total(size, a));
    AllocFailsIff(h, s, size, a);
    InvSized(h, s);
    var h1 := StockKeeps(h, s, k);
    InvSized(h1, Stocked(s, k));
    StockedLeft(s, k);
    s' := AllocFrom(h1, Stocked(s, k), k, size, a);
    PopIs(h1, Stocked(s, k), k);
  }

  lemma NothingLeft(h: Heap, s: Shape, k: nat)
    requires Inv(h, s) && k <= PAGES
    ensures Sized(s) && (Exhausted(s, k) <==> Left(s, k) == 0)
  {
    hide Linked, LiveOk, Aligned;
    InvSized(h, s);
    assert PerPage(k) >= 1;
    if s.ls[PAGES] != [] && k < PAGES {
      AtLeast(PerPage(k), |s.ls[PAGES]|);
    }
  }

  lemma AtLeast(a: nat, b: nat)
    requires a >= 1 && b >= 1
    ensures a * b >= 1
  {
  }

  // ----- serving requests -----

  datatype Request = Request(size: nat, align: nat)

  /** Requests of class k that fit. */
  ghost predicate OfClass(k: nat, reqs: seq<Request>) {
    forall i :: 0 <= i < |reqs| ==>
      IsAlign(reqs[i].align) && Fits(reqs[i].size, reqs[i].align) && KindOf(Total(reqs[i].size, reqs[i].align)) == k
  }

  /** All of them are served, one after the other. */
  predicate AllServed(h: Heap, reqs: seq<Request>)
    requires Shaped(h) && forall i :: 0 <= i < |reqs| ==> reqs[i].align > 0
    decreases |reqs|
  {
    reqs == [] ||
    var (h', u) := Alloc(h, reqs[0].size, reqs[0].align);
    u.Some? && AllServed(h', reqs[1..])
  }

  lemma {:induction false} ServedIff(h: Heap, s: Shape, k: nat, reqs: seq<Request>)
    requires Inv(h, s) && k <= PAGES && OfClass(k, reqs)
    ensures Shaped(h) && Sized(s) && (forall i :: 0 <= i < |reqs| ==> reqs[i].align > 0)
    ensures AllServed(h, reqs) <==> |reqs| <= Left(s, k)
    decreases |reqs|
  {
    hide Inv, Alloc, KindOf, Total, Fits, Left, Exhausted;
    InvSized(h, s);
    if reqs != [] {
      var q, rest := reqs[0], reqs[1..];
      AllocFailsIff(h, s, q.size, q.align);
      NothingLeft(h, s, k);
      assert OfClass(k, rest);
      if Alloc(h, q.size, q.align).1.Some? {
        var s' := AllocUsesOne(h, s, q.size, q.align);
        ServedIff(Alloc(h, q.size, q.align).0, s', k, rest);
      }
    }
  }

  lemma {:induction false} PagesCount(n: nat)
    requires n <= 256
    ensures |PagesFrom(n)| == 256 - n
    decreases 256 - n
  {
    if n < 256 {
      PagesCount(n + 1);
    }
  }

  lemma InitialLeft(k: nat)
    requires k <= PAGES
    ensures Sized(InitialShape()) && Left(InitialShape(), k) == 256 * PerPage(k)
  {
    PagesCount(0);
    assert k < PAGES ==> InitialShape().ls[k] == [];
  }

  /** From the initial pool: fitting requests of one class are all served if and only if they are no
      more than the blocks of that class in 256 pages of 4096 bytes. */
  lemma InitialServes(h: Heap, k: nat, reqs: seq<Request>)
    requires Shaped(h) && (forall j :: 0 <= j < 9 ==> h.heads[j] == NIL) && k <= 8 && OfClass(k, reqs)
    ensures forall i :: 0 <= i < |reqs| ==> reqs[i].align > 0
    ensures AllServed(InitPages(h, 0), reqs) <==> |reqs| <= 256 * (4096 / (if k < 8 then B.Pow2(k + 3) else 4096))
  {
    hide Linked, Blocks, InitPages, PagesFrom, NoLists, AllServed, BlockWords, OfClass, Left;
    InitLinked(h, 0);
    InitialBlocks();
    assert Inv(InitPages(h, 0), InitialShape());
    ServedIff(InitPages(h, 0), InitialShape(), k, reqs);
    InitialLeft(k);
    ClassBytes(k);
    PerPageIs(k);
  }

  lemma PerPageIs(k: nat)
    requires k <= PAGES
    ensures PerPage(k) == 4096 / (8 * BlockWords(k))
  {
  }
}
