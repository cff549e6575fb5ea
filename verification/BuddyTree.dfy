// The buddy allocator as a theory of blocks: a block of order k and index j is the j-th
// aligned run of 2^k pages. Splitting, coalescing, and what they keep.

module BuddyTree {
  const MAX_ORDER: nat := 18
  const MAX_REGION_PAGES: nat := 65536

  datatype Block = Block(order: nat, index: nat)

  /** The index of the order-k block that holds page i: i halved k times. */
  function Up(i: nat, k: nat): nat {
    if k == 0 then i else Up(i, k - 1) / 2
  }

  predicate Covers(b: Block, page: nat) {
    Up(page, b.order) == b.index
  }

  function BuddyIndex(j: nat): nat {
    if j % 2 == 0 then j + 1 else j - 1
  }

  function BuddyOf(b: Block): Block {
    Block(b.order, BuddyIndex(b.index))
  }

  /** The allocator's books: free blocks and allocated pages, over one block of order top. */
  datatype State = State(free: set<Block>, used: set<nat>, top: nat)

  predicate InRegion(top: nat, page: nat) {
    Up(page, top) == 0
  }

  ghost predicate Disjoint(blocks: set<Block>) {
    forall b, c, i :: b in blocks && c in blocks && Covers(b, i) && Covers(c, i) ==> b == c
  }

  ghost predicate Covered(blocks: set<Block>, page: nat) {
    exists b :: b in blocks && Covers(b, page)
  }

  /** The free blocks are disjoint runs inside the region that hold exactly the pages that
      are not marked used. */
  ghost predicate Partition(s: State) {
    && Disjoint(s.free)
    && (forall b :: b in s.free ==> b.order <= s.top)
    && (forall i :: i in s.used ==> InRegion(s.top, i))
    && (forall i :: Covered(s.free, i) <==> InRegion(s.top, i) && i !in s.used)
  }

  ghost predicate NoFreeBuddies(s: State) {
    forall b :: b in s.free ==> BuddyOf(b) !in s.free
  }

  // ----- block arithmetic -----

  lemma UpAdd(i: nat, k: nat, l: nat)
    ensures Up(Up(i, k), l) == Up(i, k + l)
  {
  }

  /** A block is its two halves. */
  lemma Halves(k: nat, j: nat, i: nat)
    ensures Covers(Block(k + 1, j), i) <==> Covers(Block(k, 2 * j), i) || Covers(Block(k, 2 * j + 1), i)
  {
  }

  /** The first page of block (k, j). */
  function First(k: nat, j: nat): nat {
    if k == 0 then j else First(k - 1, 2 * j)
  }

  lemma FirstCovered(k: nat, j: nat)
    ensures Covers(Block(k, j), First(k, j))
  {
    if k > 0 {
      FirstCovered(k - 1, 2 * j);
    }
  }

  lemma FirstZero(k: nat)
    ensures First(k, 0) == 0
  {
  }

  /** Two blocks that share a page are nested. */
  lemma Nested(b: Block, c: Block, i: nat)
    requires Covers(b, i) && Covers(c, i) && b.order <= c.order
    ensures Up(b.index, c.order - b.order) == c.index
    ensures forall p :: Covers(b, p) ==> Covers(c, p)
  {
    UpAdd(i, b.order, c.order - b.order);
    forall p | Covers(b, p) ensures Covers(c, p) {
      UpAdd(p, b.order, c.order - b.order);
    }
  }

  function Pow2(k: nat): (r: nat)
    ensures r >= 1
  {
    if k == 0 then 1 else 2 * Pow2(k - 1)
  }

  /** A block is a contiguous run of 2^k pages. */
  lemma {:induction false} CoversRange(k: nat, j: nat, i: nat)
    ensures Covers(Block(k, j), i) <==> First(k, j) <= i < First(k, j) + Pow2(k)
    ensures First(k, j + 1) == First(k, j) + Pow2(k)
  {
    if k > 0 {
      CoversRange(k - 1, 2 * j, i);
      CoversRange(k - 1, 2 * j + 1, i);
      Halves(k - 1, j, i);
    }
  }

  function Pages(b: Block): (r: set<nat>)
    decreases b.order
  {
    if b.order == 0 then {b.index}
    else Pages(Block(b.order - 1, 2 * b.index)) + Pages(Block(b.order - 1, 2 * b.index + 1))
  }

  lemma {:induction false} PagesCovered(b: Block, i: nat)
    ensures i in Pages(b) <==> Covers(b, i)
    decreases b.order
  {
    if b.order > 0 {
      PagesCovered(Block(b.order - 1, 2 * b.index), i);
      PagesCovered(Block(b.order - 1, 2 * b.index + 1), i);
      Halves(b.order - 1, b.index, i);
    }
  }

  // ----- splitting and joining -----

  /** Exchanging a free block for its halves, or halves for the block, keeps the partition. */
  lemma HalvesPartition(free: set<Block>, used: set<nat>, top: nat, k: nat, j: nat)
    requires k < top
    requires Block(k + 1, j) !in free && Block(k, 2 * j) !in free && Block(k, 2 * j + 1) !in free
    ensures Partition(State(free + {Block(k + 1, j)}, used, top))
       <==> Partition(State(free + {Block(k, 2 * j), Block(k, 2 * j + 1)}, used, top))
  {
    var whole, left, right := Block(k + 1, j), Block(k, 2 * j), Block(k, 2 * j + 1);
    var f, g := free + {whole}, free + {left, right};
    forall i ensures Covers(whole, i) <==> Covers(left, i) || Covers(right, i) {
      Halves(k, j, i);
    }
    forall i ensures Covered(f, i) <==> Covered(g, i) {
      if Covered(f, i) {
        var b :| b in f && Covers(b, i);
        if b == whole {
          assert left in g && right in g;
        } else {
          assert b in g;
        }
      }
      if Covered(g, i) {
        var b :| b in g && Covers(b, i);
        if b == left || b == right {
          assert whole in f;
        } else {
          assert b in f;
        }
      }
    }
    if Disjoint(f) {
      forall b, c, i | b in g && c in g && Covers(b, i) && Covers(c, i) ensures b == c {
        var b' := if b in free then b else whole;
        var c' := if c in free then c else whole;
        assert b' in f && c' in f;
      }
    }
    if Disjoint(g) {
      forall b, c, i | b in f && c in f && Covers(b, i) && Covers(c, i) ensures b == c {
        var half := if Covers(left, i) then left else right;
        var b' := if b in free then b else half;
        var c' := if c in free then c else half;
        assert b' in g && c' in g;
      }
    }
  }

  /** Marking the pages of a free block used, or freeing a used block, keeps the partition. */
  lemma MarkPartition(free: set<Block>, used: set<nat>, top: nat, b: Block)
    requires b !in free && b.order <= top
    requires Pages(b) !! used
    ensures Partition(State(free + {b}, used, top)) ==> Partition(State(free, used + Pages(b), top))
    ensures Partition(State(free, used + Pages(b), top)) ==> Partition(State(free + {b}, used, top))
  {
    var f := free + {b};
    forall i ensures i in Pages(b) <==> Covers(b, i) {
      PagesCovered(b, i);
    }
    FirstCovered(b.order, b.index);
    forall i ensures Covered(f, i) <==> Covered(free, i) || Covers(b, i) {
      if Covered(free, i) {
        var c :| c in free && Covers(c, i);
        assert c in f;
      }
      assert b in f;
    }
    if Partition(State(f, used, top)) {
      forall i ensures Covered(free, i) <==> InRegion(top, i) && i !in used + Pages(b) {
        assert forall c :: c in free && Covers(c, i) ==> c in f && !Covers(b, i);
      }
    }
    if Partition(State(free, used + Pages(b), top)) {
      forall x, y, i | x in f && y in f && Covers(x, i) && Covers(y, i) ensures x == y {
        if Covers(b, i) {
          assert !Covered(free, i);
        }
      }
    }
  }

  // ----- allocation -----

  /** Split block (m, j) down to order k, keeping the left half each time and freeing the
      right one. Returns the free blocks and the index left in hand. */
  function SplitDown(free: set<Block>, m: nat, j: nat, k: nat): (r: (set<Block>, nat))
    requires k <= m
    decreases m
  {
    if m == k then (free, j) else SplitDown(free + {Block(m - 1, 2 * j + 1)}, m - 1, 2 * j, k)
  }

  /** No free block of an order from lo up to, but not including, hi. */
  predicate NoneBetween(free: set<Block>, lo: nat, hi: nat) {
    forall b :: b in free ==> !(lo <= b.order < hi)
  }

  /** Allocate 2^k pages from free block (m, j), the first non-empty order found from k up. */
  function AllocFrom(s: State, k: nat, m: nat, j: nat): (r: State)
    requires k <= m
  {
    var (f, i) := SplitDown(s.free - {Block(m, j)}, m, j, k);
    State(f, s.used + Pages(Block(k, i)), s.top)
  }

  function AllocIndex(m: nat, j: nat, k: nat): (i: nat)
    requires k <= m
  {
    if m == k then j else AllocIndex(m - 1, 2 * j, k)
  }

  /** The block handed out starts where the block it was split from starts. */
  lemma {:induction false} AllocTakesFirst(m: nat, j: nat, k: nat)
    requires k <= m
    ensures First(k, AllocIndex(m, j, k)) == First(m, j)
    decreases m
  {
    if k < m {
      AllocTakesFirst(m - 1, 2 * j, k);
    }
  }

  lemma {:induction false} SplitDownPartition(free: set<Block>, used: set<nat>, top: nat, m: nat, j: nat, k: nat)
    requires k <= m <= top && Block(m, j) !in free
    requires Partition(State(free + {Block(m, j)}, used, top))
    ensures var (f, i) := SplitDown(free, m, j, k);
      && i == AllocIndex(m, j, k)
      && Block(k, i) !in f && Partition(State(f + {Block(k, i)}, used, top))
      && free <= f
      && (forall p :: Covers(Block(k, i), p) ==> Covers(Block(m, j), p))
      && (forall b, p :: b in f - free && Covers(Block(k, i), p) ==> Covers(BuddyOf(b), p))
    decreases m
  {
    if m > k {
      var left, right := Block(m - 1, 2 * j), Block(m - 1, 2 * j + 1);
      HalvesDistinct(free, used, top, m - 1, j);
      HalvesPartition(free, used, top, m - 1, j);
      assert free + {left, right} == free + {right} + {left};
      SplitDownPartition(free + {right}, used, top, m - 1, 2 * j, k);
      forall p ensures Covers(left, p) ==> Covers(Block(m, j), p) {
        Halves(m - 1, j, p);
      }
    }
  }

  lemma HalvesDistinct(free: set<Block>, used: set<nat>, top: nat, k: nat, j: nat)
    requires Block(k + 1, j) !in free && Partition(State(free + {Block(k + 1, j)}, used, top))
    ensures Block(k, 2 * j) !in free && Block(k, 2 * j + 1) !in free
  {
    var f := free + {Block(k + 1, j)};
    FirstCovered(k, 2 * j);
    FirstCovered(k, 2 * j + 1);
    Halves(k, j, First(k, 2 * j));
    Halves(k, j, First(k, 2 * j + 1));
    assert forall b :: b in free ==> b in f && b != Block(k + 1, j);
    assert Block(k + 1, j) in f;
  }

  /** Allocation hands out free pages only (so neither allocation halt can fire) and keeps
      the partition. */
  lemma AllocKeepsPartition(s: State, k: nat, m: nat, j: nat)
    requires Partition(s) && k <= m && Block(m, j) in s.free
    ensures var b := Block(k, AllocIndex(m, j, k)); var s' := AllocFrom(s, k, m, j);
      && Pages(b) !! s.used
      && (forall i :: i in Pages(b) ==> InRegion(s.top, i))
      && s'.used == s.used + Pages(b) && s'.top == s.top
      && Partition(s')
  {
    var free := s.free - {Block(m, j)};
    assert free + {Block(m, j)} == s.free;
    SplitDownPartition(free, s.used, s.top, m, j, k);
    var (f, i) := SplitDown(free, m, j, k);
    var b := Block(k, i);
    forall p | p in Pages(b) ensures p !in s.used && InRegion(s.top, p) {
      PagesCovered(b, p);
      assert b in f + {b};
      assert Covered(f + {b}, p);
    }
    MarkPartition(f, s.used, s.top, b);
  }

  /** Allocation creates no pair of free buddies: the buddy of every half it frees holds the
      allocated block. */
  lemma AllocKeepsNoFreeBuddies(s: State, k: nat, m: nat, j: nat)
    requires Partition(s) && k <= m && Block(m, j) in s.free && NoFreeBuddies(s)
    ensures NoFreeBuddies(AllocFrom(s, k, m, j))
  {
    AllocKeepsPartition(s, k, m, j);
    var free := s.free - {Block(m, j)};
    assert free + {Block(m, j)} == s.free;
    SplitDownPartition(free, s.used, s.top, m, j, k);
    var s' := AllocFrom(s, k, m, j);
    var b := Block(k, AllocIndex(m, j, k));
    var p := First(b.order, b.index);
    FirstCovered(b.order, b.index);
    PagesCovered(b, p);
    assert !Covered(s'.free, p);
    BuddiesOfNew(free, s'.free, p);
  }

  lemma BuddiesOfNew(free: set<Block>, f: set<Block>, p: nat)
    requires forall b :: b in free ==> BuddyOf(b) !in free
    requires forall b :: b in f - free ==> Covers(BuddyOf(b), p)
    requires !Covered(f, p)
    ensures forall b :: b in f ==> BuddyOf(b) !in f
  {
    forall b | b in f ensures BuddyOf(b) !in f {
      assert BuddyOf(BuddyOf(b)) == b;
    }
  }

  // ----- freeing -----

  /** Put block (k, j) back, merging with its buddy for as long as that is free. */
  function Coalesce(free: set<Block>, k: nat, j: nat): (r: set<Block>)
    decreases |free|
  {
    var buddy := Block(k, BuddyIndex(j));
    if buddy in free then Coalesce(free - {buddy}, k + 1, j / 2) else free + {Block(k, j)}
  }

  /** Free a block, marking its pages once on entry. */
  function FreeOnce(s: State, k: nat, j: nat): (r: State) {
    State(Coalesce(s.free, k, j), s.used - Pages(Block(k, j)), s.top)
  }

  datatype Outcome = Done(state: State) | Halted

  /** Free a block as the source does: the range is marked again on every merge, and a page
      that is already clear is taken for a double free. */
  function FreeAsWritten(s: State, k: nat, j: nat): (r: Outcome)
    decreases |s.free|
  {
    if !(Pages(Block(k, j)) <= s.used) then Halted
    else
      var used := s.used - Pages(Block(k, j));
      var buddy := Block(k, BuddyIndex(j));
      if buddy in s.free then FreeAsWritten(State(s.free - {buddy}, used, s.top), k + 1, j / 2)
      else Done(State(s.free + {Block(k, j)}, used, s.top))
  }

  /** Two free buddies are the halves of a block of the next order, inside the region. */
  lemma BuddiesJoin(free: set<Block>, used: set<nat>, top: nat, k: nat, j: nat)
    requires k <= top && Block(k, j) !in free && BuddyOf(Block(k, j)) in free
    requires Partition(State(free + {Block(k, j)}, used, top))
    ensures k < top
    ensures var rest := free - {BuddyOf(Block(k, j))};
      && Block(k + 1, j / 2) !in rest
      && Partition(State(rest + {Block(k + 1, j / 2)}, used, top))
  {
    var b, buddy, h := Block(k, j), BuddyOf(Block(k, j)), j / 2;
    var rest := free - {buddy};
    var all := free + {b};
    assert b in all && buddy in all;
    FirstCovered(k, b.index);
    FirstCovered(k, buddy.index);
    assert Covered(all, First(k, b.index)) && Covered(all, First(k, buddy.index));
    var left, right := Block(k, 2 * h), Block(k, 2 * h + 1);
    assert (b == left && buddy == right) || (b == right && buddy == left);
    Halves(k, h, First(k, j));
    assert Covers(Block(k + 1, h), First(k, j));
    assert rest <= all;
    assert rest + {left, right} == all;
    HalvesPartition(rest, used, top, k, h);
  }

  lemma {:induction false} CoalescePartition(free: set<Block>, used: set<nat>, top: nat, k: nat, j: nat, r: set<Block>)
    requires k <= top && Block(k, j) !in free && r == Coalesce(free, k, j)
    requires Partition(State(free + {Block(k, j)}, used, top))
    ensures Partition(State(r, used, top))
    decreases |free|
  {
    var buddy := BuddyOf(Block(k, j));
    if buddy in free {
      BuddiesJoin(free, used, top, k, j);
      CoalescePartition(free - {buddy}, used, top, k + 1, j / 2, r);
    } else {
      assert r == free + {Block(k, j)};
    }
  }

  lemma {:induction false} CoalesceNoFreeBuddies(free: set<Block>, k: nat, j: nat)
    requires forall b :: b in free ==> BuddyOf(b) !in free
    ensures forall b :: b in Coalesce(free, k, j) ==> BuddyOf(b) !in Coalesce(free, k, j)
    decreases |free|
  {
    var buddy := BuddyOf(Block(k, j));
    if buddy in free {
      CoalesceNoFreeBuddies(free - {buddy}, k + 1, j / 2);
    } else {
      forall b | b in free + {Block(k, j)} ensures BuddyOf(b) !in free + {Block(k, j)} {
        assert BuddyOf(BuddyOf(b)) == b;
      }
    }
  }

  /** Freeing a used block keeps the partition and full coalescing. */
  lemma FreeKeepsPartition(s: State, k: nat, j: nat)
    requires Partition(s) && k <= s.top && Pages(Block(k, j)) <= s.used
    ensures Partition(FreeOnce(s, k, j))
    ensures NoFreeBuddies(s) ==> NoFreeBuddies(FreeOnce(s, k, j))
  {
    var b := Block(k, j);
    var used := s.used - Pages(b);
    var p := First(k, j);
    FirstCovered(k, j);
    PagesCovered(b, p);
    assert p in s.used && !Covered(s.free, p);
    assert b !in s.free;
    assert used + Pages(b) == s.used;
    MarkPartition(s.free, used, s.top, b);
    CoalescePartition(s.free, used, s.top, k, j, Coalesce(s.free, k, j));
    if NoFreeBuddies(s) {
      CoalesceNoFreeBuddies(s.free, k, j);
    }
  }

  /** As written, freeing a used block halts exactly when it would have to merge. */
  lemma FreeAsWrittenHaltsIff(s: State, k: nat, j: nat)
    ensures FreeAsWritten(s, k, j).Halted? <==>
              !(Pages(Block(k, j)) <= s.used) || BuddyOf(Block(k, j)) in s.free
    ensures FreeAsWritten(s, k, j).Done? ==> FreeAsWritten(s, k, j).state == FreeOnce(s, k, j)
  {
    var b := Block(k, j);
    if Pages(b) <= s.used && BuddyOf(b) in s.free {
      var p := First(k, j);
      FirstCovered(k, j);
      PagesCovered(b, p);
      Halves(k, j / 2, p);
      PagesCovered(Block(k + 1, j / 2), p);
    }
  }

  /** So a block that was split off a larger one can never be freed again: as written, the
      free right after the allocation halts. */
  lemma FreeAfterSplitHalts(s: State, k: nat, m: nat, j: nat)
    requires Partition(s) && k < m && Block(m, j) in s.free
    ensures FreeAsWritten(AllocFrom(s, k, m, j), k, AllocIndex(m, j, k)).Halted?
  {
    var s' := AllocFrom(s, k, m, j);
    SplitLeavesBuddy(s.free - {Block(m, j)}, m, j, k);
    FreeAsWrittenHaltsIff(s', k, AllocIndex(m, j, k));
  }

  lemma {:induction false} SplitLeavesBuddy(free: set<Block>, m: nat, j: nat, k: nat)
    requires k < m
    ensures BuddyOf(Block(k, AllocIndex(m, j, k))) in SplitDown(free, m, j, k).0
    ensures AllocIndex(m, j, k) == SplitDown(free, m, j, k).1
    decreases m
  {
    if k + 1 < m {
      SplitLeavesBuddy(free + {Block(m - 1, 2 * j + 1)}, m - 1, 2 * j, k);
    }
  }

  // ----- full coalescing -----

  ghost predicate AllFree(s: State, b: Block) {
    forall i :: Covers(b, i) ==> InRegion(s.top, i) && i !in s.used
  }

  /** With no two free buddies, every aligned run of free pages lies in one free block. */
  lemma {:induction false} FreeRunInOneBlock(s: State, k: nat, j: nat) returns (c: Block)
    requires Partition(s) && NoFreeBuddies(s) && AllFree(s, Block(k, j))
    ensures c in s.free && k <= c.order && forall i :: Covers(Block(k, j), i) ==> Covers(c, i)
    decreases k
  {
    var b := Block(k, j);
    var p := First(k, j);
    FirstCovered(k, j);
    if k == 0 {
      assert Covered(s.free, p);
      c :| c in s.free && Covers(c, p);
    } else {
      var left, right := Block(k - 1, 2 * j), Block(k - 1, 2 * j + 1);
      forall i ensures Covers(b, i) <==> Covers(left, i) || Covers(right, i) {
        Halves(k - 1, j, i);
      }
      assert BuddyOf(left) == right;
      c := FreeRunInOneBlock(s, k - 1, 2 * j);
      var d := FreeRunInOneBlock(s, k - 1, 2 * j + 1);
      FirstCovered(k - 1, 2 * j);
      FirstCovered(k - 1, 2 * j + 1);
      Nested(left, c, First(k - 1, 2 * j));
      Nested(right, d, First(k - 1, 2 * j + 1));
      if c.order >= k {
        Nested(b, c, First(k - 1, 2 * j));
      } else if d.order >= k {
        Nested(b, d, First(k - 1, 2 * j + 1));
        c := d;
      } else {
        assert false;
      }
    }
  }

  /** Allocation of 2^k pages fails exactly when no aligned run of 2^k free pages exists. */
  lemma AllocFailsIffNoRun(s: State, k: nat)
    requires Partition(s) && NoFreeBuddies(s)
    ensures (forall b :: b in s.free ==> b.order < k) <==> (forall j :: !AllFree(s, Block(k, j)))
  {
    if j :| AllFree(s, Block(k, j)) {
      var c := FreeRunInOneBlock(s, k, j);
      assert c in s.free;
    }
    if b :| b in s.free && b.order >= k {
      var p := First(b.order, b.index);
      FirstCovered(b.order, b.index);
      var j := Up(p, k);
      forall i | Covers(Block(k, j), i) ensures InRegion(s.top, i) && i !in s.used {
        Nested(Block(k, j), b, p);
        assert Covered(s.free, i);
      }
      assert AllFree(s, Block(k, j));
    }
  }

  /** Once everything is freed, the books are back to the one initial block. */
  lemma AllFreedRestores(s: State)
    requires Partition(s) && NoFreeBuddies(s) && s.used == {}
    ensures s.free == {Block(s.top, 0)}
  {
    var c := FreeRunInOneBlock(s, s.top, 0);
    assert c.order == s.top;
    FirstCovered(s.top, 0);
    assert Covers(c, First(s.top, 0));
    assert c == Block(s.top, 0);
    forall b | b in s.free ensures b == c {
      FirstCovered(b.order, b.index);
      assert Covered(s.free, First(b.order, b.index));
    }
  }

  // ----- whole runs -----

  /** The books and the blocks callers hold. */
  datatype Books = Books(s: State, live: set<Block>)

  /** One call: an allocation of order k served by free block (m, j), or the free of a held block. */
  datatype Op = Alloc(k: nat, m: nat, j: nat) | Free(b: Block)

  /** alloc_order takes the lowest order from k up that has a free block; a caller frees
      blocks it holds, as whole blocks. */
  predicate Enabled(x: Books, op: Op) {
    match op
    case Alloc(k, m, j) => k <= m && Block(m, j) in x.s.free && NoneBetween(x.s.free, k, m)
    case Free(b) => b in x.live
  }

  function Apply(x: Books, op: Op): (r: Books)
    requires Enabled(x, op)
  {
    match op
    case Alloc(k, m, j) => Books(AllocFrom(x.s, k, m, j), x.live + {Block(k, AllocIndex(m, j, k))})
    case Free(b) => Books(FreeOnce(x.s, b.order, b.index), x.live - {b})
  }

  /** Every page of the region is in exactly one free or held block. */
  ghost predicate Balanced(x: Books) {
    && Partition(x.s) && NoFreeBuddies(x.s)
    && Disjoint(x.live)
    && (forall b :: b in x.live ==> b.order <= x.s.top)
    && (forall i :: Covered(x.live, i) <==> i in x.s.used)
  }

  function Initial(top: nat): Books {
    Books(State({Block(top, 0)}, {}, top), {})
  }

  lemma InitialBalanced(top: nat)
    ensures Balanced(Initial(top))
  {
    var b := Block(top, 0);
    forall i ensures Covered({b}, i) <==> InRegion(top, i) {
      if InRegion(top, i) {
        assert b in {b} && Covers(b, i);
      }
    }
  }

  lemma AllocBalanced(x: Books, k: nat, m: nat, j: nat)
    requires Balanced(x) && Enabled(x, Alloc(k, m, j))
    ensures Balanced(Apply(x, Alloc(k, m, j)))
    ensures Block(k, AllocIndex(m, j, k)) !in x.live
  {
    var y := Apply(x, Alloc(k, m, j));
    var b := Block(k, AllocIndex(m, j, k));
    AllocKeepsPartition(x.s, k, m, j);
    AllocKeepsNoFreeBuddies(x.s, k, m, j);
    HoldBlock(x.live, x.s.used, b);
  }

  lemma HoldBlock(live: set<Block>, used: set<nat>, b: Block)
    requires Disjoint(live) && (forall i :: Covered(live, i) <==> i in used) && Pages(b) !! used
    ensures b !in live
    ensures Disjoint(live + {b}) && forall i :: Covered(live + {b}, i) <==> i in used + Pages(b)
  {
    forall i ensures i in Pages(b) <==> Covers(b, i) {
      PagesCovered(b, i);
    }
    FirstCovered(b.order, b.index);
    forall i ensures Covered(live + {b}, i) <==> i in used + Pages(b) {
      if Covered(live, i) {
        var c :| c in live && Covers(c, i);
        assert c in live + {b};
      }
      assert b in live + {b};
    }
    forall c, d, i | c in live + {b} && d in live + {b} && Covers(c, i) && Covers(d, i) ensures c == d {
      assert i !in used ==> c == b && d == b;
    }
  }

  lemma DropBlock(live: set<Block>, used: set<nat>, b: Block)
    requires Disjoint(live) && (forall i :: Covered(live, i) <==> i in used) && b in live
    ensures Pages(b) <= used
    ensures Disjoint(live - {b}) && forall i :: Covered(live - {b}, i) <==> i in used - Pages(b)
  {
    forall i ensures i in Pages(b) <==> Covers(b, i) {
      PagesCovered(b, i);
    }
    forall i ensures Covered(live - {b}, i) <==> i in used - Pages(b) {
      if i in used - Pages(b) {
        var c :| c in live && Covers(c, i);
        assert c in live - {b};
      }
      if Covered(live - {b}, i) {
        var c :| c in live - {b} && Covers(c, i);
        assert c in live;
      }
    }
    forall i | i in Pages(b) ensures i in used {
      assert Covered(live, i);
    }
  }

  lemma FreeBalanced(x: Books, b: Block)
    requires Balanced(x) && b in x.live
    ensures Balanced(Apply(x, Free(b)))
  {
    DropBlock(x.live, x.s.used, b);
    FreeKeepsPartition(x.s, b.order, b.index);
  }

  ghost predicate IsRun(xs: seq<Books>, ops: seq<Op>) {
    && |xs| == |ops| + 1
    && forall n :: 0 <= n < |ops| ==> Enabled(xs[n], ops[n]) && xs[n + 1] == Apply(xs[n], ops[n])
  }

  /** In every state of every run: held blocks never overlap each other or a free block, and
      together they hold every page exactly once. */
  lemma {:induction false} RunBalanced(xs: seq<Books>, ops: seq<Op>, n: nat)
    requires IsRun(xs, ops) && n < |xs| && Balanced(xs[0])
    ensures Balanced(xs[n])
  {
    if n > 0 {
      RunBalanced(xs, ops, n - 1);
      match ops[n - 1] {
        case Alloc(k, m, j) => AllocBalanced(xs[n - 1], k, m, j);
        case Free(b) => FreeBalanced(xs[n - 1], b);
      }
    }
  }

  /** A page of the region is either in one free block or in one held block, never both. */
  lemma BalancedPage(x: Books, page: nat)
    requires Balanced(x) && InRegion(x.s.top, page)
    ensures Covered(x.s.free, page) <==> !Covered(x.live, page)
  {
  }
}
