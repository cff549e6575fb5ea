// The buddy allocator as the kernel runs it: free lists threaded through the free blocks,
// an allocation bitmap, splitting on allocation and merging on free. Addresses are page
// numbers relative to the region start; NIL stands for the null address.

module Buddy {
  import opened BuddyTree
  import opened FreeLists

  /** Every listed page is the first page of an aligned block of its list's order. */
  ghost predicate Aligned(ls: Lists) {
    forall k, p :: 0 <= k < |ls| && p in ls[k] ==> First(k, Up(p, k)) == p
  }

  ghost function FreeOf(ls: Lists): set<Block> {
    set k, p | 0 <= k < |ls| && p in ls[k] :: Block(k, Up(p, k))
  }

  ghost function UsedOf(bits: seq<bool>): set<nat> {
    set i | 0 <= i < |bits| && bits[i]
  }

  lemma UpFirst(k: nat, j: nat)
    ensures Up(First(k, j), k) == j
  {
    FirstCovered(k, j);
  }

  lemma FreeOfMember(ls: Lists, k: nat, j: nat)
    requires Aligned(ls) && k < |ls|
    ensures Block(k, j) in FreeOf(ls) <==> First(k, j) in ls[k]
  {
    UpFirst(k, j);
  }

  lemma FreeOfPush(ls: Lists, k: nat, p: nat)
    requires k < |ls| && Aligned(ls) && First(k, Up(p, k)) == p
    ensures FreeOf(ls[k := [p] + ls[k]]) == FreeOf(ls) + {Block(k, Up(p, k))}
    ensures Aligned(ls[k := [p] + ls[k]])
  {
    var l := [p] + ls[k];
    var ls' := ls[k := l];
    assert forall x :: x in l <==> x == p || x in ls[k];
    forall b ensures b in FreeOf(ls') <==> b in FreeOf(ls) + {Block(k, Up(p, k))} {
      if b in FreeOf(ls) {
        var m, x :| 0 <= m < |ls| && x in ls[m] && b == Block(m, Up(x, m));
        assert x in ls'[m];
      }
      if b == Block(k, Up(p, k)) {
        assert p in ls'[k];
      }
    }
  }

  lemma FreeOfWithout(ls: Lists, k: nat, n: nat)
    requires k < |ls| && n < |ls[k]| && Aligned(ls) && Distinct(ls)
    ensures FreeOf(ls[k := Without(ls[k], n)]) == FreeOf(ls) - {Block(k, Up(ls[k][n], k))}
    ensures Aligned(ls[k := Without(ls[k], n)])
  {
    var p := ls[k][n];
    var ls' := ls[k := Without(ls[k], n)];
    WithoutMembers(ls[k], n);
    assert p in ls[k];
    forall b ensures b in FreeOf(ls') <==> b in FreeOf(ls) - {Block(k, Up(p, k))} {
      if b in FreeOf(ls) && b != Block(k, Up(p, k)) {
        var m, x :| 0 <= m < |ls| && x in ls[m] && b == Block(m, Up(x, m));
        assert x in ls'[m];
      }
      if b in FreeOf(ls') {
        var m, x :| 0 <= m < |ls| && x in ls'[m] && b == Block(m, Up(x, m));
        assert x in ls[m];
        assert m == k ==> x != p && First(k, Up(x, k)) == x;
      }
    }
  }

  /** The pages of a block, as the range the marking loops walk. */
  lemma PagesRange(k: nat, j: nat)
    ensures forall i :: i in Pages(Block(k, j)) <==> First(k, j) <= i < First(k, j) + Pow2(k)
  {
    forall i ensures i in Pages(Block(k, j)) <==> First(k, j) <= i < First(k, j) + Pow2(k) {
      if 0 <= i {
        CoversRange(k, j, i);
        PagesCovered(Block(k, j), i);
      }
    }
  }

  lemma HandPage(free: set<Block>, used: set<nat>, top: nat, b: Block, p: nat)
    requires b !in free && Partition(State(free + {b}, used, top)) && Covers(b, p)
    ensures p !in used && p < Pow2(top)
    ensures forall c :: c in free ==> !Covers(c, p)
  {
    var all := free + {b};
    assert b in all && Covered(all, p);
    assert forall c :: c in free ==> c in all;
    FirstZero(top);
    CoversRange(top, 0, p);
  }

  lemma SplitHand(free: set<Block>, used: set<nat>, top: nat, k: nat, j: nat)
    requires Block(k + 1, j) !in free && k < top && Partition(State(free + {Block(k + 1, j)}, used, top))
    ensures var f := free + {Block(k, 2 * j + 1)};
      Block(k, 2 * j) !in f && Partition(State(f + {Block(k, 2 * j)}, used, top))
  {
    HalvesDistinct(free, used, top, k, j);
    HalvesPartition(free, used, top, k, j);
    assert free + {Block(k, 2 * j), Block(k, 2 * j + 1)} == free + {Block(k, 2 * j + 1)} + {Block(k, 2 * j)};
  }

  lemma UsedAfterAlloc(bits: seq<bool>, bits': seq<bool>, k: nat, j: nat)
    requires |bits'| == |bits| && First(k, j) + Pow2(k) <= |bits|
    requires forall i :: 0 <= i < |bits| ==> bits'[i] == (bits[i] || First(k, j) <= i < First(k, j) + Pow2(k))
    ensures UsedOf(bits') == UsedOf(bits) + Pages(Block(k, j))
  {
    PagesRange(k, j);
  }

  lemma UsedAfterFree(bits: seq<bool>, bits': seq<bool>, k: nat, j: nat)
    requires |bits'| == |bits|
    requires forall i :: 0 <= i < |bits| ==> bits'[i] == (bits[i] && !(First(k, j) <= i < First(k, j) + Pow2(k)))
    ensures UsedOf(bits') == UsedOf(bits) - Pages(Block(k, j))
  {
    PagesRange(k, j);
  }

  /** All pages of block (k, j) are used exactly when the freeing loop finds them all set. */
  lemma AllUsed(bits: seq<bool>, k: nat, j: nat)
    ensures Pages(Block(k, j)) <= UsedOf(bits) <==>
      First(k, j) + Pow2(k) <= |bits| && forall i :: First(k, j) <= i < First(k, j) + Pow2(k) ==> bits[i]
  {
    PagesRange(k, j);
    var p, q := First(k, j), First(k, j) + Pow2(k);
    if Pages(Block(k, j)) <= UsedOf(bits) {
      assert q - 1 in Pages(Block(k, j));
      forall i | p <= i < q ensures i < |bits| && bits[i] {
        assert i in Pages(Block(k, j));
      }
    }
  }

  lemma HandPages(free: set<Block>, used: set<nat>, top: nat, b: Block)
    requires b !in free && Partition(State(free + {b}, used, top))
    ensures First(b.order, b.index) + Pow2(b.order) <= Pow2(top)
    ensures forall i :: First(b.order, b.index) <= i < First(b.order, b.index) + Pow2(b.order) ==> i !in used
  {
    PagesRange(b.order, b.index);
    var q := First(b.order, b.index) + Pow2(b.order);
    CoversRange(b.order, b.index, q - 1);
    HandPage(free, used, top, b, q - 1);
    forall i | First(b.order, b.index) <= i < q ensures i !in used {
      CoversRange(b.order, b.index, i);
      HandPage(free, used, top, b, i);
    }
  }

  lemma TakenInHand(s: State, b: Block)
    requires Partition(s) && b in s.free
    ensures b.order <= s.top && Partition(State(s.free - {b} + {b}, s.used, s.top))
  {
    assert s.free - {b} + {b} == s.free;
  }

  lemma {:induction false} AllocFromParts(free: set<Block>, k: nat, m: nat, j: nat)
    requires k <= m
    ensures SplitDown(free, m, j, k).1 == AllocIndex(m, j, k)
    decreases m
  {
    if k < m {
      AllocFromParts(free + {Block(m - 1, 2 * j + 1)}, k, m - 1, 2 * j);
    }
  }

  lemma LowestOrder(ls: Lists, order: nat, k: nat)
    requires forall i :: order <= i < k && i < |ls| ==> ls[i] == []
    ensures NoneBetween(FreeOf(ls), order, k)
    ensures k >= |ls| ==> forall b :: b in FreeOf(ls) ==> b.order < order
  {
  }

  lemma {:induction false} FirstMul(k: nat, j: nat)
    ensures First(k, j) == j * Pow2(k)
    ensures First(k, j) / Pow2(k) == j
  {
    if k > 0 {
      FirstMul(k - 1, 2 * j);
      assert j * Pow2(k) == 2 * j * Pow2(k - 1);
    }
    DivideExact(j, Pow2(k));
  }

  lemma DivideExact(j: nat, d: nat)
    requires d > 0
    ensures j * d / d == j
  {
    var x := j * d;
    var q, r := x / d, x % d;
    assert x == q * d + r && 0 <= r < d;
    var e := j - q;
    assert e * d == r;
    assert e >= 1 ==> e * d >= d;
    assert e <= -1 ==> e * d <= -1 * d;
  }

  lemma SplitStep(free: set<Block>, k: nat, j: nat, order: nat)
    requires order <= k
    ensures SplitDown(free, k + 1, j, order) == SplitDown(free + {Block(k, 2 * j + 1)}, k, 2 * j, order)
    ensures AllocIndex(k + 1, j, order) == AllocIndex(k, 2 * j, order)
    ensures First(k + 1, j) == First(k, 2 * j) && First(k, 2 * j + 1) == First(k, 2 * j) + Pow2(k)
  {
    CoversRange(k, 2 * j, 0);
  }

  /** Page of the buddy of the block at page p: flip the last bit of the block index. */
  function BuddyPage(p: nat, k: nat): (q: int) {
    var index := p / Pow2(k);
    (if index % 2 == 0 then index + 1 else index - 1) * Pow2(k)
  }

  lemma BuddyPageIsBuddy(k: nat, j: nat)
    ensures BuddyPage(First(k, j), k) == First(k, BuddyIndex(j))
    ensures (if First(k, j) < First(k, BuddyIndex(j)) then First(k, j) else First(k, BuddyIndex(j))) == First(k + 1, j / 2)
  {
    FirstMul(k, j);
    FirstMul(k, BuddyIndex(j));
    CoversRange(k, j, 0);
    CoversRange(k, BuddyIndex(j), 0);
  }

  lemma {:induction false} Pow2Monotone(a: nat, b: nat)
    requires a <= b
    ensures Pow2(a) <= Pow2(b)
  {
    if a < b {
      Pow2Monotone(a, b - 1);
    }
  }

  /** FreeAsWritten, one call deep. */
  lemma FreeAsWrittenStep(s: State, k: nat, j: nat)
    ensures var used, buddy, r := s.used - Pages(Block(k, j)), Block(k, BuddyIndex(j)), FreeAsWritten(s, k, j);
      && (!(Pages(Block(k, j)) <= s.used) ==> r == Halted)
      && (Pages(Block(k, j)) <= s.used && buddy in s.free ==>
            r == FreeAsWritten(State(s.free - {buddy}, used, s.top), k + 1, j / 2))
      && (Pages(Block(k, j)) <= s.used && buddy !in s.free ==> r == Done(State(s.free + {Block(k, j)}, used, s.top)))
  {
  }

  lemma CoalesceStep(free: set<Block>, k: nat, j: nat)
    ensures var buddy := Block(k, BuddyIndex(j));
      Coalesce(free, k, j) == if buddy in free then Coalesce(free - {buddy}, k + 1, j / 2) else free + {Block(k, j)}
  {
  }

  lemma Pow2At17()
    ensures Pow2(17) == 131072
  {
    assert Pow2(3) == 8;
    assert Pow2(5) == 32;
    assert Pow2(7) == 128;
    assert Pow2(9) == 512;
    assert Pow2(11) == 2048;
    assert Pow2(13) == 8192;
    assert Pow2(15) == 32768;
  }

  lemma EmptyLists(ls: Lists, heads: seq<int>, link: seq<int>)
    requires |heads| == |ls| && forall k :: 0 <= k < |ls| ==> ls[k] == [] && heads[k] == NIL
    ensures Linked(ls, heads, link) && Aligned(ls) && FreeOf(ls) == {}
  {
  }

  /** The largest order whose block fits in n pages. */
  method LargestOrder(n: nat) returns (order: nat)
    requires 0 < n <= MAX_REGION_PAGES
    ensures order < 17 && Pow2(order) <= n < Pow2(order + 1)
  {
    Pow2At17();
    order := 0;
    while Pow2(order + 1) <= n && order < MAX_ORDER
      invariant order < 17 && Pow2(order) <= n && (order == 16 ==> Pow2(order + 1) > n)
    {
      order := order + 1;
    }
  }

  class Allocator {
    const pages: nat
    const heads: array<int>
    const link: array<int>
    const bitmap: array<bool>
    var top: nat
    ghost var lists: Lists

    ghost function St(): State
      reads this, bitmap
    {
      State(FreeOf(lists), UsedOf(bitmap[..]), top)
    }

    /** The data structure: threaded, aligned lists of blocks whose first page is clear. */
    ghost predicate Wired()
      reads this, heads, link, bitmap
    {
      && 0 < pages <= MAX_REGION_PAGES
      && heads.Length == MAX_ORDER + 1 == |lists| && link.Length == pages == bitmap.Length && heads != link
      && Linked(lists, heads[..], link[..])
      && Aligned(lists)
      && top < MAX_ORDER && Pow2(top) <= pages < Pow2(top + 1) && (forall k :: top < k <= MAX_ORDER ==> lists[k] == [])
      && (forall k, p :: 0 <= k <= MAX_ORDER && p in lists[k] ==> p < pages && !bitmap[p])
    }

    ghost predicate Valid()
      reads this, heads, link, bitmap
    {
      Wired() && Partition(St())
    }

    method PopFree(k: nat) returns (p: int)
      requires Wired() && k <= MAX_ORDER
      modifies heads, this`lists
      ensures Wired()
      ensures p == Cell(old(lists[k]), 0)
      ensures lists == if p == NIL then old(lists) else old(lists)[k := Without(old(lists[k]), 0)]
    {
      p := heads[k];
      if p == NIL {
        return;
      }
      PopLinked(lists, heads[..], link[..], k);
      WithoutMembers(lists[k], 0);
      FreeOfWithout(lists, k, 0);
      ghost var h := heads[..];
      heads[k] := link[p];
      assert heads[..] == h[k := link[p]];
      lists := lists[k := Without(lists[k], 0)];
    }

    method PushFree(p: nat, k: nat)
      requires Wired() && k <= top && p < pages && First(k, Up(p, k)) == p && !bitmap[p]
      requires forall m :: 0 <= m <= MAX_ORDER ==> p !in lists[m]
      modifies heads, link, this`lists
      ensures Wired()
      ensures lists == old(lists)[k := [p] + old(lists[k])]
    {
      PushLinked(lists, heads[..], link[..], k, p);
      FreeOfPush(lists, k, p);
      ghost var h, l := heads[..], link[..];
      link[p] := heads[k];
      assert link[..] == l[p := h[k]];
      heads[k] := p;
      assert heads[..] == h[k := p];
      lists := lists[k := [p] + lists[k]];
    }

    method Unlink(prev: int, cur: nat, k: nat, ghost n: nat)
      requires Wired() && k <= MAX_ORDER && n < |lists[k]| && cur == lists[k][n]
      requires prev == if n == 0 then NIL else lists[k][n - 1]
      modifies heads, link, this`lists
      ensures Wired()
      ensures lists == old(lists)[k := Without(old(lists[k]), n)]
    {
      WithoutMembers(lists[k], n);
      FreeOfWithout(lists, k, n);
      ghost var h, l := heads[..], link[..];
      if prev == NIL {
        PopLinked(lists, h, l, k);
        heads[k] := link[cur];
        assert heads[..] == h[k := l[cur]];
      } else {
        UnlinkLinked(lists, h, l, k, n);
        link[prev] := link[cur];
        assert link[..] == l[prev := l[cur]];
      }
      lists := lists[k := Without(lists[k], n)];
    }

    method FindInList(p: nat, k: nat) returns (found: bool, prev: int, ghost n: nat)
      requires k < heads.Length == |lists| && Threaded(lists[k], heads[k], link[..])
      ensures found <==> p in lists[k]
      ensures found ==> n < |lists[k]| && lists[k][n] == p && prev == if n == 0 then NIL else lists[k][n - 1]
    {
      prev := NIL;
      var cur := heads[k];
      n := 0;
      while cur != NIL
        invariant n <= |lists[k]| && cur == Cell(lists[k], n)
        invariant prev == if n == 0 then NIL else lists[k][n - 1]
        invariant p !in lists[k][..n]
        decreases |lists[k]| - n
      {
        if cur == p {
          return true, prev, n;
        }
        prev := cur;
        cur := link[cur];
        n := n + 1;
      }
      found := false;
    }

    method RemoveFromFreeList(p: nat, k: nat) returns (found: bool, ghost n: nat)
      requires Wired() && k <= MAX_ORDER
      modifies heads, link, this`lists
      ensures Wired()
      ensures found <==> p in old(lists[k])
      ensures found ==> n < |old(lists[k])| && old(lists[k])[n] == p
      ensures lists == if found then old(lists)[k := Without(old(lists[k]), n)] else old(lists)
    {
      var prev;
      found, prev, n := FindInList(p, k);
      if found {
        Unlink(prev, p, k, n);
      }
    }

    /** Set the bits of 2^k pages from p on; halts on a page outside the region or already set. */
    method MarkAllocRange(p: nat, k: nat) returns (halted: bool)
      requires bitmap.Length == pages
      modifies bitmap
      ensures !halted <==> p + Pow2(k) <= pages && forall i :: p <= i < p + Pow2(k) ==> !old(bitmap[..])[i]
      ensures !halted ==> forall i :: 0 <= i < pages ==> bitmap[i] == (old(bitmap[i]) || p <= i < p + Pow2(k))
    {
      for n := 0 to Pow2(k)
        invariant p + n <= pages || n == 0
        invariant forall i :: 0 <= i < pages ==> bitmap[i] == (old(bitmap[i]) || p <= i < p + n)
        invariant forall i :: p <= i < p + n ==> !old(bitmap[..])[i]
      {
        if p + n >= pages || bitmap[p + n] {
          assert p + n < pages ==> old(bitmap[..])[p + n];
          return true;
        }
        bitmap[p + n] := true;
      }
      halted := false;
    }

    /** Clear the bits of 2^k pages from p on; halts on a page outside the region or already clear. */
    method MarkFreeRange(p: nat, k: nat) returns (halted: bool)
      requires bitmap.Length == pages
      modifies bitmap
      ensures !halted <==> p + Pow2(k) <= pages && forall i :: p <= i < p + Pow2(k) ==> old(bitmap[..])[i]
      ensures !halted ==> forall i :: 0 <= i < pages ==> bitmap[i] == (old(bitmap[i]) && !(p <= i < p + Pow2(k)))
    {
      for n := 0 to Pow2(k)
        invariant p + n <= pages || n == 0
        invariant forall i :: 0 <= i < pages ==> bitmap[i] == (old(bitmap[i]) && !(p <= i < p + n))
        invariant forall i :: p <= i < p + n ==> old(bitmap[..])[i]
      {
        if p + n >= pages || !bitmap[p + n] {
          assert p + n < pages ==> !old(bitmap[..])[p + n];
          return true;
        }
        bitmap[p + n] := false;
      }
      halted := false;
    }

    /** The first block on the lowest non-empty list from `order` up. */
    method TakeBlock(order: nat) returns (page: int, k: nat)
      requires Wired() && order <= MAX_ORDER
      modifies heads, this`lists
      ensures Wired() && order <= k
      ensures forall i :: order <= i < k && i <= MAX_ORDER ==> old(lists[i]) == []
      ensures if page == NIL then k == MAX_ORDER + 1 && lists == old(lists)
              else k <= top && old(lists[k]) != [] && page == old(lists[k])[0]
                   && lists == old(lists)[k := Without(old(lists[k]), 0)]
    {
      hide Linked, Aligned;
      k := order;
      page := PopFree(k);
      while page == NIL
        invariant order <= k <= MAX_ORDER && Wired()
        invariant forall i :: order <= i < k ==> old(lists[i]) == []
        invariant page == Cell(old(lists[k]), 0)
        invariant lists == if page == NIL then old(lists) else old(lists)[k := Without(old(lists[k]), 0)]
        decreases MAX_ORDER - k, page == NIL
      {
        assert |old(lists[k])| == 0;
        k := k + 1;
        if k > MAX_ORDER {
          return NIL, k;
        }
        page := PopFree(k);
      }
    }

    /** Block b is in nobody's list, and with it the books balance. */
    ghost predicate InHand(b: Block)
      reads this, bitmap
    {
      b !in FreeOf(lists) && b.order <= top
      && Partition(State(FreeOf(lists) + {b}, UsedOf(bitmap[..]), top))
    }

    lemma InHandPage(b: Block, p: nat)
      requires Wired() && InHand(b) && Covers(b, p)
      ensures p < pages && !bitmap[p]
      ensures forall m :: 0 <= m <= MAX_ORDER ==> p !in lists[m]
    {
      HandPage(FreeOf(lists), UsedOf(bitmap[..]), top, b, p);
      forall m | 0 <= m <= MAX_ORDER ensures p !in lists[m] {
        if p in lists[m] {
          assert Block(m, Up(p, m)) in FreeOf(lists);
        }
      }
    }

    method PushHalf(p: nat, k: nat, ghost j: nat)
      requires Wired() && InHand(Block(k + 1, j)) && p == First(k, 2 * j + 1)
      modifies heads, link, this`lists
      ensures Wired() && InHand(Block(k, 2 * j))
      ensures FreeOf(lists) == old(FreeOf(lists)) + {Block(k, 2 * j + 1)}
    {
      FirstCovered(k, 2 * j + 1);
      Halves(k, j, p);
      InHandPage(Block(k + 1, j), p);
      UpFirst(k, 2 * j + 1);
      FreeOfPush(lists, k, p);
      SplitHand(FreeOf(lists), UsedOf(bitmap[..]), top, k, j);
      PushFree(p, k);
    }

    method SplitTo(page: nat, k0: nat, order: nat, ghost j0: nat)
      requires Wired() && order <= k0 && page == First(k0, j0) && InHand(Block(k0, j0))
      modifies heads, link, this`lists
      ensures Wired() && InHand(Block(order, AllocIndex(k0, j0, order)))
      ensures FreeOf(lists) == SplitDown(old(FreeOf(lists)), k0, j0, order).0
      ensures page == First(order, AllocIndex(k0, j0, order))
    {
      hide Partition, FreeOf, UsedOf, Aligned, Linked;
      var k := k0;
      ghost var j := j0;
      ghost var goal, index := SplitDown(FreeOf(lists), k0, j0, order), AllocIndex(k0, j0, order);
      while k > order
        invariant order <= k <= k0 && Wired() && page == First(k, j) && InHand(Block(k, j))
        invariant SplitDown(FreeOf(lists), k, j, order) == goal && AllocIndex(k, j, order) == index
      {
        SplitStep(FreeOf(lists), k - 1, j, order);
        PushHalf(page + Pow2(k - 1), k - 1, j);
        k := k - 1;
        j := 2 * j;
      }
    }

    /** Mark the block in hand used: no page of it was, so the marking does not halt. */
    method Commit(page: nat, order: nat, ghost j: nat) returns (halted: bool)
      requires Wired() && InHand(Block(order, j)) && page == First(order, j)
      modifies bitmap
      ensures !halted && Valid()
      ensures UsedOf(bitmap[..]) == old(UsedOf(bitmap[..])) + Pages(Block(order, j))
    {
      ghost var b, used := Block(order, j), UsedOf(bitmap[..]);
      ghost var bits := bitmap[..];
      HandPages(FreeOf(lists), used, top, b);
      forall k, p | 0 <= k <= MAX_ORDER && p in lists[k] ensures !(page <= p < page + Pow2(order)) {
        CoversRange(order, j, p);
        if Covers(b, p) {
          InHandPage(b, p);
        }
      }
      assert forall i :: page <= i < page + Pow2(order) ==> i < |bits| && (bits[i] ==> i in used);
      halted := MarkAllocRange(page, order);
      UsedAfterAlloc(bits, bitmap[..], order, j);
      PagesRange(order, j);
      MarkPartition(FreeOf(lists), used, top, b);
    }

    /** Allocate 2^order pages: the first page, or NIL when no order from `order` up has a
        free block. It never reaches a halt. */
    method AllocOrder(order: nat) returns (page: int, halted: bool, ghost m: nat, ghost j: nat)
      requires Valid()
      modifies heads, link, bitmap, this`lists
      ensures Valid() && !halted
      ensures page == NIL <==> forall b :: b in old(St()).free ==> b.order < order
      ensures page == NIL ==> St() == old(St())
      ensures page != NIL ==>
        && order <= m && Block(m, j) in old(St()).free && NoneBetween(old(St()).free, order, m)
        && page == First(order, AllocIndex(m, j, order))
        && St() == AllocFrom(old(St()), order, m, j)
      ensures page != NIL ==> m < |old(lists)| && old(lists)[m] != [] && page == old(lists)[m][0] == First(m, j)
    {
      halted, m, j := false, 0, 0;
      if order > MAX_ORDER {
        return NIL, false, 0, 0;
      }
      ghost var s := St();
      var k;
      page, k := TakeBlock(order);
      LowestOrder(old(lists), order, k);
      if page == NIL {
        return;
      }
      m, j := k, Up(page, k);
      FreeOfWithout(old(lists), k, 0);
      assert page in old(lists[k]) && page == First(k, j);
      AllocTakesFirst(m, j, order);
      assert Block(m, j) in s.free;
      AllocFromParts(FreeOf(lists), order, m, j);
      hide Partition, FreeOf, UsedOf, Aligned, Linked;
      TakenInHand(s, Block(m, j));
      SplitTo(page, k, order, j);
      halted := Commit(page, order, AllocIndex(m, j, order));
    }

    /** A block whose pages were just cleared is in range, of a listed order, and on no list. */
    lemma PushAllowed(bits: seq<bool>, p: nat, k: nat)
      requires Wired() && |bits| == pages && p + Pow2(k) <= pages && bits[p]
      requires forall m, q :: 0 <= m <= MAX_ORDER && q in lists[m] ==> !bits[q]
      ensures k <= top && p < pages && forall m :: 0 <= m <= MAX_ORDER ==> p !in lists[m]
    {
      if k > top {
        Pow2Monotone(top + 1, k);
      }
    }

    /** Mark the pages of a block free. */
    method ClearBlock(p: nat, k: nat, ghost j: nat) returns (halted: bool)
      requires Wired() && p == First(k, j)
      modifies bitmap
      ensures halted <==> !(Pages(Block(k, j)) <= old(St()).used)
      ensures !halted ==> Wired() && St() == old(St()).(used := old(St()).used - Pages(Block(k, j)))
      ensures !halted ==> k <= top && p < pages && !bitmap[p] && forall m :: 0 <= m <= MAX_ORDER ==> p !in lists[m]
    {
      ghost var bits := bitmap[..];
      AllUsed(bits, k, j);
      halted := MarkFreeRange(p, k);
      if !halted {
        UsedAfterFree(bits, bitmap[..], k, j);
        PushAllowed(bits, p, k);
      }
    }

    /** Take the buddy of block (k, j) off its list, if it is there. */
    method TakeBuddy(p: nat, k: nat, ghost j: nat) returns (found: bool, buddy: nat)
      requires Wired() && p == First(k, j) && k <= MAX_ORDER
      modifies heads, link, this`lists
      ensures Wired() && buddy == First(k, BuddyIndex(j))
      ensures found <==> Block(k, BuddyIndex(j)) in old(St()).free
      ensures St() == if found then old(St()).(free := old(St()).free - {Block(k, BuddyIndex(j))}) else old(St())
      ensures found ==> k <= top
      ensures forall m, q :: 0 <= m <= MAX_ORDER && q in lists[m] ==> q in old(lists[m])
    {
      BuddyPageIsBuddy(k, j);
      buddy := BuddyPage(p, k);
      FreeOfMember(lists, k, BuddyIndex(j));
      UpFirst(k, BuddyIndex(j));
      ghost var n;
      found, n := RemoveFromFreeList(buddy, k);
      if found {
        FreeOfWithout(old(lists), k, n);
        WithoutMembers(old(lists[k]), n);
      }
    }

    /** Put block (k, j) on its list. */
    method Release(p: nat, k: nat, ghost j: nat)
      requires Wired() && k <= top && p < pages && p == First(k, j) && !bitmap[p]
      requires forall m :: 0 <= m <= MAX_ORDER ==> p !in lists[m]
      modifies heads, link, this`lists
      ensures Wired() && St() == old(St()).(free := old(St()).free + {Block(k, j)})
    {
      UpFirst(k, j);
      FreeOfPush(lists, k, p);
      PushFree(p, k);
    }

    lemma TopInRange()
      requires Wired()
      ensures top < MAX_ORDER
    {
    }

    /** Free 2^k pages at p, as the source does it: mark the range free, and when the buddy is
        free take it off its list and free the merged block, marking the merged range again. */
    method FreeOrder(p: nat, k: nat, ghost j: nat) returns (halted: bool)
      requires Wired() && p == First(k, j)
      modifies heads, link, bitmap, this`lists
      ensures k <= MAX_ORDER ==> halted == FreeAsWritten(old(St()), k, j).Halted?
      ensures k <= MAX_ORDER && !halted ==> Wired() && St() == FreeAsWritten(old(St()), k, j).state
      ensures k > MAX_ORDER ==> !halted && Wired() && St() == old(St())
      decreases |St().free|
    {
      hide *;
      if k > MAX_ORDER {
        return false;
      }
      ghost var s := St();
      FreeAsWrittenStep(s, k, j);
      TopInRange();
      halted := ClearBlock(p, k, j);
      if halted {
        return;
      }
      var found, buddy := TakeBuddy(p, k, j);
      if found {
        BuddyPageIsBuddy(k, j);
        halted := FreeOrder(if p < buddy then p else buddy, k + 1, j / 2);
      } else {
        Release(p, k, j);
      }
    }

    lemma InHandRelease(k: nat, j: nat)
      requires Wired() && InHand(Block(k, j))
      ensures var p := First(k, j);
        k <= top < MAX_ORDER && p < pages && !bitmap[p] && forall m :: 0 <= m <= MAX_ORDER ==> p !in lists[m]
    {
      FirstCovered(k, j);
      InHandPage(Block(k, j), First(k, j));
    }

    lemma InHandCleared(s: State, k: nat, j: nat)
      requires Wired() && Partition(s) && Pages(Block(k, j)) <= s.used && k <= s.top
      requires St() == s.(used := s.used - Pages(Block(k, j)))
      ensures InHand(Block(k, j))
    {
      var b := Block(k, j);
      var p := First(k, j);
      FirstCovered(k, j);
      PagesCovered(b, p);
      assert !Covered(s.free, p);
      assert s.used - Pages(b) + Pages(b) == s.used;
      MarkPartition(s.free, s.used - Pages(b), s.top, b);
    }

    lemma InHandParts(b: Block)
      requires InHand(b)
      ensures b !in St().free && b.order <= top == St().top && Partition(St().(free := St().free + {b}))
    {
    }

    lemma InHandMerged(s: State, k: nat, j: nat)
      requires Block(k, BuddyIndex(j)) in s.free && Block(k, j) !in s.free && k <= s.top
      requires Partition(s.(free := s.free + {Block(k, j)}))
      requires St() == s.(free := s.free - {Block(k, BuddyIndex(j))})
      ensures InHand(Block(k + 1, j / 2))
    {
      BuddiesJoin(s.free, s.used, s.top, k, j);
    }

    /** Merge the block in hand with its buddy while that is free, then put it on its list. */
    method MergeUp(p: nat, k: nat, ghost j: nat)
      requires Wired() && InHand(Block(k, j)) && p == First(k, j)
      modifies heads, link, this`lists
      ensures Wired() && St() == old(St()).(free := Coalesce(old(St()).free, k, j))
      decreases |St().free|
    {
      hide *;
      ghost var s := St();
      InHandRelease(k, j);
      InHandParts(Block(k, j));
      CoalesceStep(s.free, k, j);
      BuddyPageIsBuddy(k, j);
      var found, buddy := TakeBuddy(p, k, j);
      if found {
        InHandMerged(s, k, j);
        MergeUp(if p < buddy then p else buddy, k + 1, j / 2);
      } else {
        Release(p, k, j);
      }
    }

    /** Free 2^k pages at p, marking the range once on entry. */
    method FreeOrderOnce(p: nat, k: nat, ghost j: nat) returns (halted: bool)
      requires Valid() && p == First(k, j)
      modifies heads, link, bitmap, this`lists
      ensures halted <==> !(Pages(Block(k, j)) <= old(St()).used)
      ensures !halted ==> Valid() && St() == FreeOnce(old(St()), k, j)
    {
      hide *;
      ghost var s := St();
      ValidParts();
      halted := ClearBlock(p, k, j);
      if !halted {
        InHandCleared(s, k, j);
        MergeUp(p, k, j);
        FreeOnceValid(s, k, j);
      }
    }

    lemma ValidParts()
      requires Valid()
      ensures Wired() && Partition(St()) && St().top == top
    {
    }

    lemma FreeOnceValid(s: State, k: nat, j: nat)
      requires Wired() && Partition(s) && Pages(Block(k, j)) <= s.used && k <= s.top
      requires St() == State(Coalesce(s.free, k, j), s.used - Pages(Block(k, j)), s.top)
      ensures Valid() && St() == FreeOnce(s, k, j)
    {
      FreeKeepsPartition(s, k, j);
    }

    /** A region of n pages: one free block of the largest order that fits, everything else
        outside the allocator's reach. */
    constructor (n: nat)
      requires 0 < n <= MAX_REGION_PAGES
      ensures pages == n && Valid() && NoFreeBuddies(St())
      ensures St() == Initial(top).s && Pow2(top) <= n < Pow2(top + 1)
      ensures fresh(heads) && fresh(link) && fresh(bitmap)
    {
      var order := LargestOrder(n);
      pages := n;
      heads := new int[MAX_ORDER + 1](_ => NIL);
      link := new int[n](_ => NIL);
      bitmap := new bool[n](_ => false);
      lists := seq(MAX_ORDER + 1, _ => []);
      top := order;
      new;
      FirstZero(top);
      EmptyLists(lists, heads[..], link[..]);
      Release(0, top, 0);
      InitialBalanced(top);
      assert St() == Initial(top).s;
    }
  }
}
