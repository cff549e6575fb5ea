// The runqueue seen as the set of process slots on it.

module QueueSet {
  import opened Options
  import opened Eevdf
  import opened EevdfRuns

  ghost predicate Holds(q: Queue, s: int, i: nat) {
    Queued(q, s) && q.tasks[s].idx == i
  }

  /** Process slot i is on the runqueue. */
  ghost predicate OnQueue(q: Queue, i: nat) {
    exists s :: Holds(q, s, i)
  }

  /** The count and the clock are right, and no process slot is queued twice. */
  ghost predicate Proper(q: Queue) {
    && Floor(q)
    && (forall s :: Queued(q, s) ==> q.tasks[s].idx < 64)
    && (forall s, t :: Queued(q, s) && Queued(q, t) && q.tasks[s].idx == q.tasks[t].idx ==> s == t)
  }

  ghost function QueuedUpTo(t: Slots, n: nat): set<nat>
    requires n <= 64
  {
    if n == 0 then {} else QueuedUpTo(t, n - 1) + {t[n - 1].idx}
  }

  lemma {:induction false} QueuedUpToCard(t: Slots, n: nat)
    requires n <= 64
    requires forall a, b :: 0 <= a < b < 64 ==> t[a].idx != t[b].idx
    ensures |QueuedUpTo(t, n)| == n
    ensures forall i :: i in QueuedUpTo(t, n) <==> exists s :: 0 <= s < n && t[s].idx == i
  {
    if n > 0 {
      QueuedUpToCard(t, n - 1);
    }
  }

  ghost function Below(n: nat): set<nat> {
    if n == 0 then {} else Below(n - 1) + {n - 1}
  }

  lemma {:induction false} BelowCard(n: nat)
    ensures |Below(n)| == n && forall i :: i in Below(n) <==> 0 <= i < n
  {
    if n > 0 {
      BelowCard(n - 1);
    }
  }

  lemma FullSubset(have: set<nat>, all: set<nat>)
    requires have <= all && |have| == |all|
    ensures have == all
  {
    assert |all - have| == |all| - |have|;
  }

  /** Sixty-four distinct slot numbers below 64 are all of them. */
  lemma AllSlotsQueued(t: Slots, i: nat) returns (s: nat)
    requires forall a :: 0 <= a < 64 ==> t[a].idx < 64
    requires forall a, b :: 0 <= a < b < 64 ==> t[a].idx != t[b].idx
    requires i < 64
    ensures s < 64 && t[s].idx == i
  {
    hide QueuedUpTo, Below;
    QueuedUpToCard(t, 64);
    BelowCard(64);
    FullSubset(QueuedUpTo(t, 64), Below(64));
    assert i in QueuedUpTo(t, 64);
    s :| 0 <= s < 64 && t[s].idx == i;
  }

  /** Pigeonhole: a process slot that is not queued leaves room on the queue. */
  lemma RoomToEnqueue(q: Queue, i: nat)
    requires Proper(q) && i < 64 && !OnQueue(q, i)
    ensures FirstEmpty(q.tasks, 0).Some?
  {
    if FirstEmpty(q.tasks, 0).None? {
      assert forall s :: 0 <= s < 64 ==> Queued(q, s);
      var s := AllSlotsQueued(q.tasks, i);
      assert Holds(q, s, i);
      assert false;
    }
  }

  lemma EnqueueAdds(q: Queue, i: nat, nice: int)
    requires Proper(q) && i < 64 && !OnQueue(q, i)
    ensures Enqueue(q, i, nice).Some?
    ensures var r := Enqueue(q, i, nice).value;
      Proper(r) && forall j: nat :: OnQueue(r, j) <==> OnQueue(q, j) || j == i
  {
    RoomToEnqueue(q, i);
    var c := FirstEmpty(q.tasks, 0).value;
    var r := Enqueue(q, i, nice).value;
    NumUpdate(q.tasks, c, FreshTask(q, i, nice), 64);
    assert Holds(r, c, i);
    forall s, j: nat ensures Holds(r, s, j) <==> if s == c then j == i else Holds(q, s, j) {
    }
    forall j: nat ensures OnQueue(r, j) <==> OnQueue(q, j) || j == i {
      if OnQueue(q, j) {
        var s :| Holds(q, s, j);
        assert Holds(r, s, j);
      }
    }
    forall s, t | Queued(r, s) && Queued(r, t) && r.tasks[s].idx == r.tasks[t].idx ensures s == t {
      assert s != c ==> Holds(q, s, q.tasks[s].idx);
      assert t != c ==> Holds(q, t, q.tasks[t].idx);
    }
    forall s | Queued(r, s) ensures r.minV <= r.tasks[s].vruntime && r.tasks[s].idx < 64 {
      assert s != c ==> Queued(q, s);
    }
  }

  /** Clearing slot c of a queue that holds i there takes exactly i off. */
  lemma UnoccupyTakes(q: Queue, c: nat, i: nat, r: Queue)
    requires Proper(q) && Holds(q, c, i)
    requires r.tasks == q.tasks[c := q.tasks[c].(occupied := false)] && r.count == q.count - 1
    requires forall s :: Queued(q, s) ==> r.minV <= q.tasks[s].vruntime
    ensures Proper(r) && forall j: nat :: OnQueue(r, j) <==> OnQueue(q, j) && j != i
  {
    NumUpdate(q.tasks, c, r.tasks[c], 64);
    forall s, j: nat ensures Holds(r, s, j) <==> Holds(q, s, j) && s != c {
    }
    forall j: nat ensures OnQueue(r, j) <==> OnQueue(q, j) && j != i {
      if OnQueue(q, j) && j != i {
        var s :| Holds(q, s, j);
        assert Holds(r, s, j);
      }
    }
    forall s | Queued(r, s) ensures Queued(q, s) && s != c {
    }
  }

  lemma DequeueTakes(q: Queue)
    requires Proper(q)
    ensures var (r, next) := Dequeue(q);
      && Proper(r)
      && (next.Some? ==> next.value < 64 && OnQueue(q, next.value))
      && (forall j: nat :: OnQueue(r, j) <==> OnQueue(q, j) && Some(j) != next)
      && (next.None? ==> forall j: nat :: !OnQueue(q, j))
  {
    RecomputeClock(q);
    NumZero(q.tasks, 64);
    var r := Dequeue(q).0;
    if q.count > 0 {
      DequeueTakesBest(q);
      var c := r.cur.value;
      assert Holds(q, c, q.tasks[c].idx);
      UnoccupyTakes(q, c, q.tasks[c].idx, r);
    } else {
      assert forall s, j: nat :: !Holds(q, s, j) && !Holds(r, s, j);
    }
  }

  lemma RemoveTakes(q: Queue, i: nat)
    requires Proper(q)
    ensures Proper(Remove(q, i))
    ensures forall j: nat :: OnQueue(Remove(q, i), j) <==> OnQueue(q, j) && j != i
  {
    var r := Remove(q, i);
    match FindTask(q.tasks, i, 0) {
      case Some(c) =>
        assert Holds(q, c, i);
        NumPositive(q.tasks, c, 64);
        UnoccupyTakes(q, c, i, r);
      case None =>
        forall s, j: nat ensures Holds(r, s, j) <==> Holds(q, s, j) {
        }
        forall j: nat ensures OnQueue(r, j) <==> OnQueue(q, j) && j != i {
          if OnQueue(q, j) {
            var s :| Holds(q, s, j);
            assert Holds(r, s, j);
          }
        }
        forall s | Queued(r, s) ensures Queued(q, s) {
        }
    }
  }
}
