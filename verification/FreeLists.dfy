// Free lists threaded through the blocks they hold: one list head per order, and in the
// first word of each free block the page of the next one.

module FreeLists {

  const NIL: int := -1

  /** The free lists as sequences of block pages, head first. */
  type Lists = seq<seq<nat>>

  /** The word that points at entry n of list l. */
  function Cell(l: seq<nat>, n: nat): int {
    if n < |l| then l[n] else NIL
  }

  /** List l starts at `head` and is threaded through the first words of its blocks. */
  ghost predicate Threaded(l: seq<nat>, head: int, link: seq<int>) {
    && head == Cell(l, 0)
    && (forall n :: 0 <= n < |l| ==> l[n] < |link|)
    && (forall n {:trigger link[l[n]]} :: 0 <= n < |l| ==> link[l[n]] == Cell(l, n + 1))
  }

  ghost predicate NoRepeats(l: seq<nat>) {
    forall a, b :: 0 <= a < b < |l| ==> l[a] != l[b]
  }

  /** No block is on two lists or twice on one. */
  ghost predicate Distinct(ls: Lists) {
    && (forall k :: 0 <= k < |ls| ==> NoRepeats(ls[k]))
    && (forall k, m, p :: 0 <= k < m < |ls| && p in ls[k] ==> p !in ls[m])
  }

  ghost predicate Linked(ls: Lists, heads: seq<int>, link: seq<int>) {
    && |heads| == |ls|
    && Distinct(ls)
    && forall k :: 0 <= k < |ls| ==> Threaded(ls[k], heads[k], link)
  }

  function Without(l: seq<nat>, n: nat): seq<nat>
    requires n < |l|
  {
    l[..n] + l[n + 1..]
  }

  lemma WithoutMembers(l: seq<nat>, n: nat)
    requires n < |l| && NoRepeats(l)
    ensures NoRepeats(Without(l, n))
    ensures forall p :: p in Without(l, n) <==> p in l && p != l[n]
  {
    var w := Without(l, n);
    assert forall i :: 0 <= i < |w| ==> w[i] == if i < n then l[i] else l[i + 1];
    forall p | p in l && p != l[n] ensures p in w {
      var i :| 0 <= i < |l| && l[i] == p;
      assert w[if i < n then i else i - 1] == p;
    }
  }

  /** Writing the first word of a block that is not on the list leaves the list as it is. */
  lemma ThreadedFrame(l: seq<nat>, head: int, link: seq<int>, p: nat, v: int)
    requires Threaded(l, head, link) && p !in l && p < |link|
    ensures Threaded(l, head, link[p := v])
  {
  }

  lemma PushThreaded(l: seq<nat>, head: int, link: seq<int>, p: nat)
    requires Threaded(l, head, link) && p !in l && p < |link|
    ensures Threaded([p] + l, p, link[p := head])
  {
    var l' := [p] + l;
    forall n | 0 <= n < |l'| ensures l'[n] < |link| && link[p := head][l'[n]] == Cell(l', n + 1) {
      if n > 0 {
        assert l'[n] == l[n - 1] && l[n - 1] in l;
      }
    }
  }

  lemma WithoutAt(l: seq<nat>, n: nat, i: nat)
    requires n < |l| && i < |l| - 1
    ensures Without(l, n)[i] == if i < n then l[i] else l[i + 1]
    ensures Cell(Without(l, n), i) == if i < n then l[i] else l[i + 1]
  {
  }

  lemma UnlinkAt(l: seq<nat>, head: int, link: seq<int>, n: nat, i: nat)
    requires Threaded(l, head, link) && NoRepeats(l) && 0 < n < |l| && i < |l| - 1
    ensures var w := Without(l, n);
      w[i] < |link| && link[l[n - 1] := link[l[n]]][w[i]] == Cell(w, i + 1)
  {
    WithoutAt(l, n, i);
    if i + 1 < |l| - 1 {
      WithoutAt(l, n, i + 1);
    }
    if i == n - 1 {
      assert link[l[n]] == Cell(l, n + 1);
    } else {
      var was := if i < n then i else i + 1;
      assert l[was] != l[n - 1] && link[l[was]] == Cell(l, was + 1);
    }
  }

  lemma UnlinkThreaded(l: seq<nat>, head: int, link: seq<int>, n: nat)
    requires Threaded(l, head, link) && NoRepeats(l) && 0 < n < |l|
    ensures Threaded(Without(l, n), head, link[l[n - 1] := link[l[n]]])
  {
    var w := Without(l, n);
    forall i | 0 <= i < |w|
      ensures w[i] < |link| && link[l[n - 1] := link[l[n]]][w[i]] == Cell(w, i + 1)
    {
      UnlinkAt(l, head, link, n, i);
    }
    WithoutAt(l, n, 0);
  }

  lemma PopThreaded(l: seq<nat>, head: int, link: seq<int>)
    requires Threaded(l, head, link) && l != []
    ensures Threaded(Without(l, 0), link[l[0]], link)
  {
    assert Without(l, 0) == l[1..];
  }

  lemma DistinctUpdate(ls: Lists, k: nat, l: seq<nat>)
    requires Distinct(ls) && k < |ls| && NoRepeats(l)
    requires forall m, p :: 0 <= m < |ls| && m != k && p in l ==> p !in ls[m]
    ensures Distinct(ls[k := l])
  {
    var ls' := ls[k := l];
    forall a, b, p | 0 <= a < b < |ls'| && p in ls'[a] ensures p !in ls'[b] {
      if b == k {
        assert p in ls[a];
      }
    }
  }

  lemma PushLinked(ls: Lists, heads: seq<int>, link: seq<int>, k: nat, p: nat)
    requires Linked(ls, heads, link) && k < |ls| && p < |link|
    requires forall m :: 0 <= m < |ls| ==> p !in ls[m]
    ensures Linked(ls[k := [p] + ls[k]], heads[k := p], link[p := heads[k]])
  {
    PushThreaded(ls[k], heads[k], link, p);
    forall m | 0 <= m < |ls| && m != k ensures Threaded(ls[m], heads[m], link[p := heads[k]]) {
      ThreadedFrame(ls[m], heads[m], link, p, heads[k]);
    }
    var l := [p] + ls[k];
    assert forall x :: x in l ==> x == p || x in ls[k];
    DistinctUpdate(ls, k, l);
  }

  lemma PopLinked(ls: Lists, heads: seq<int>, link: seq<int>, k: nat)
    requires Linked(ls, heads, link) && k < |ls| && ls[k] != []
    ensures Linked(ls[k := Without(ls[k], 0)], heads[k := link[ls[k][0]]], link)
  {
    PopThreaded(ls[k], heads[k], link);
    WithoutMembers(ls[k], 0);
    DistinctUpdate(ls, k, Without(ls[k], 0));
  }

  lemma UnlinkLinked(ls: Lists, heads: seq<int>, link: seq<int>, k: nat, n: nat)
    requires Linked(ls, heads, link) && k < |ls| && 0 < n < |ls[k]|
    ensures Linked(ls[k := Without(ls[k], n)], heads, link[ls[k][n - 1] := link[ls[k][n]]])
  {
    var q, v, ls' := ls[k][n - 1], link[ls[k][n]], ls[k := Without(ls[k], n)];
    UnlinkThreaded(ls[k], heads[k], link, n);
    WithoutMembers(ls[k], n);
    DistinctUpdate(ls, k, Without(ls[k], n));
    forall m | 0 <= m < |ls| ensures Threaded(ls'[m], heads[m], link[q := v]) {
      if m != k {
        assert q in ls[k] && q !in ls[m];
        ThreadedFrame(ls[m], heads[m], link, q, v);
      }
    }
  }
}
