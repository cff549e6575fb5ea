// What the runqueue keeps over whole runs: the clock, the spread of virtual runtimes, and
// the bound on how often a waiting task can be passed over.

module EevdfRuns {
  import opened Numbers
  import opened Options
  import opened Eevdf

  /** How far a queued task can be ahead of the clock: two slices and one tick. */
  const SPREAD: nat := 2 * MAX_SLICE + MAX_DELTA - 1

  ghost predicate Queued(q: Queue, j: int) {
    0 <= j < 64 && q.tasks[j].occupied
  }

  /** A queued task is not behind the clock and not too far ahead of it, and its deadline is at
      most one slice away. */
  ghost predicate TaskInv(t: Task, minV: nat) {
    minV <= t.vruntime <= minV + SPREAD && t.deadline <= t.vruntime + MAX_SLICE
  }

  /** The slot of the running task, whoever occupies it by now: until a tick has reported expiry
      it is within a slice of the clock or before its deadline. */
  ghost predicate CurrentInv(q: Queue, expired: bool) {
    q.cur.Some? ==>
      && q.cur.value < 64
      && var t := q.tasks[q.cur.value];
      && t.deadline <= q.minV + 2 * MAX_SLICE && t.vruntime <= q.minV + SPREAD
      && (!expired ==> t.vruntime <= q.minV + MAX_SLICE || t.vruntime < t.deadline)
  }

  ghost predicate Inv(q: Queue, expired: bool) {
    && q.count >= NumOccupied(q.tasks, 64)
    && (forall j :: Queued(q, j) ==> TaskInv(q.tasks[j], q.minV))
    && CurrentInv(q, expired)
  }

  /** No queued task is behind the clock. */
  ghost predicate Ahead(q: Queue) {
    forall j :: Queued(q, j) ==> q.minV <= q.tasks[j].vruntime
  }

  /** The part of the invariant that does not depend on how long tasks run, with an exact count. */
  ghost predicate Floor(q: Queue) {
    q.count == NumOccupied(q.tasks, 64) && Ahead(q)
  }

  lemma {:induction false} NumUpdate(t: Slots, i: nat, x: Task, n: nat)
    requires i < 64 && n <= 64
    ensures NumOccupied(t[i := x], n) ==
            NumOccupied(t, n) + if i >= n || t[i].occupied == x.occupied then 0 else if x.occupied then 1 else -1
  {
    if n > 0 {
      NumUpdate(t, i, x, n - 1);
    }
  }

  lemma {:induction false} NumZero(t: Slots, n: nat)
    requires n <= 64
    ensures NumOccupied(t, n) == 0 <==> forall j :: 0 <= j < n ==> !t[j].occupied
  {
    if n > 0 {
      NumZero(t, n - 1);
    }
  }

  /** After recomputing, the clock shows the least queued vruntime; it never goes back. */
  lemma RecomputeClock(q: Queue)
    requires Ahead(q)
    ensures Recompute(q).minV >= q.minV && Ahead(Recompute(q))
    ensures forall j :: Queued(q, j) ==> Recompute(q).minV <= q.tasks[j].vruntime
    ensures var least := LeastSlot(q.tasks, 64);
      least.Some? ==> Recompute(q).minV == q.tasks[least.value].vruntime
  {
    var least := LeastSlot(q.tasks, 64);
    if least.Some? {
      assert Queued(q, least.value);
      forall j | Queued(q, j) ensures q.tasks[least.value].vruntime <= q.tasks[j].vruntime {
      }
    } else {
      forall j | Queued(q, j) ensures false {
      }
    }
  }

  lemma RecomputeKeepsInv(q: Queue, expired: bool)
    requires Inv(q, expired)
    ensures Inv(Recompute(q), expired) && Recompute(q).minV >= q.minV
  {
    RecomputeClock(q);
    var r := Recompute(q);
    forall j | Queued(r, j) ensures TaskInv(r.tasks[j], r.minV) {
      assert Queued(q, j);
    }
  }

  /** When a task is queued, the clock after recomputing makes one eligible: the fallback of
      Choose is never taken. */
  lemma SomeTaskEligible(q: Queue)
    requires Ahead(q) && NumOccupied(q.tasks, 64) > 0
    ensures BestSlot(q.tasks, Recompute(q).minV, 64).Some?
  {
    NumZero(q.tasks, 64);
    RecomputeClock(q);
    var least := LeastSlot(q.tasks, 64);
    assert least.Some?;
    assert Eligible(q.tasks[least.value], Recompute(q).minV);
  }

  /** A dispatch with a task queued takes an eligible task of earliest deadline. */
  lemma DequeueTakesBest(q: Queue)
    requires Ahead(q) && q.count >= NumOccupied(q.tasks, 64) > 0
    ensures var q1 := Recompute(q); var c := BestSlot(q1.tasks, q1.minV, 64);
      && c.Some? && Queued(q, c.value) && Eligible(q.tasks[c.value], q1.minV)
      && Dequeue(q) == (Queue(q.tasks[c.value := q.tasks[c.value].(occupied := false)], q.count - 1, q1.minV, c),
                        Some(q.tasks[c.value].idx))
  {
    SomeTaskEligible(q);
  }

  /** A dispatch with nothing queued takes nothing, whatever the count says. */
  lemma DequeueTakesNone(q: Queue)
    requires NumOccupied(q.tasks, 64) == 0
    ensures Dequeue(q) == (q, None)
  {
    NumZero(q.tasks, 64);
  }

  // ----- every operation keeps the invariant -----

  datatype Event =
    | Arrive(idx: nat, nice: int)
    | Dispatch
    | TimerTick
    | Preempt
    | Leave(idx: nat)
    | Renice(idx: nat, nice: int)

  /** The queue and its driver: whether a tick has reported expiry since the last dispatch. */
  datatype Driver = Driver(q: Queue, expired: bool)

  /** The one thing the driver sees to: once a tick reports expiry, the running task is requeued,
      leaves or is replaced before the next tick. Arrivals, preemptions, idle ticks and all else
      may come at any time. */
  predicate Driven(d: Driver, e: Event) {
    e.TimerTick? ==> !d.expired || d.q.cur.None?
  }

  function Step(d: Driver, e: Event): (r: Driver) {
    match e
    case Arrive(idx, nice) =>
      var r := Enqueue(d.q, idx, nice);
      if r.Some? then d.(q := r.value) else d
    case Dispatch =>
      var (q, next) := Dequeue(d.q);
      Driver(q, d.expired && next.None?)
    case TimerTick => var (q, expired) := Tick(d.q); Driver(q, expired)
    case Preempt => Driver(Requeue(d.q), false)
    case Leave(idx) => d.(q := Remove(d.q, idx))
    case Renice(idx, nice) => d.(q := SetNice(d.q, idx, nice))
  }

  lemma ReplaceKeepsTasks(q: Queue, expired: bool, i: nat, t: Task, r: Queue)
    requires Inv(q, expired) && i < 64 && r.tasks == q.tasks[i := t] && r.minV == q.minV
    requires t.occupied ==> TaskInv(t, q.minV)
    ensures forall j :: Queued(r, j) ==> TaskInv(r.tasks[j], r.minV)
    ensures NumOccupied(r.tasks, 64) == NumOccupied(q.tasks, 64) +
              if q.tasks[i].occupied == t.occupied then 0 else if t.occupied then 1 else -1
  {
    NumUpdate(q.tasks, i, t, 64);
    forall j | Queued(r, j) ensures TaskInv(r.tasks[j], r.minV) {
      if j != i {
        assert Queued(q, j);
      }
    }
  }

  lemma DequeueKeepsInv(q: Queue, expired: bool)
    requires Inv(q, expired)
    ensures var (r, next) := Dequeue(q);
      Inv(r, expired && next.None?) && r.minV >= q.minV && (next.Some? <==> NumOccupied(q.tasks, 64) > 0)
  {
    RecomputeKeepsInv(q, expired);
    if NumOccupied(q.tasks, 64) > 0 {
      DequeueTakesBest(q);
      var q1 := Recompute(q);
      var c := BestSlot(q1.tasks, q1.minV, 64).value;
      assert Queued(q1, c);
      ReplaceKeepsTasks(q1, expired, c, q1.tasks[c].(occupied := false), Dequeue(q).0);
      WeightBounds(q1.tasks[c].weight);
    } else {
      DequeueTakesNone(q);
    }
  }

  lemma ArriveKeepsInv(q: Queue, expired: bool, idx: nat, nice: int)
    requires Inv(q, expired) && Enqueue(q, idx, nice).Some?
    ensures Inv(Enqueue(q, idx, nice).value, expired)
  {
    var i := FirstEmpty(q.tasks, 0).value;
    WeightBounds(WeightForNice(nice));
    ReplaceKeepsTasks(q, expired, i, FreshTask(q, idx, nice), Enqueue(q, idx, nice).value);
  }

  lemma TickKeepsInv(q: Queue)
    requires Inv(q, false)
    ensures Inv(Tick(q).0, Tick(q).1)
  {
    if q.cur.Some? {
      var c := q.cur.value;
      WeightBounds(q.tasks[c].weight);
      if q.tasks[c].occupied {
        assert Queued(q, c);
      }
      ReplaceKeepsTasks(q, false, c, Tick(q).0.tasks[c], Tick(q).0);
    }
  }

  lemma RequeueKeepsInv(q: Queue, expired: bool)
    requires Inv(q, expired)
    ensures Inv(Requeue(q), false) && Requeue(q).minV >= q.minV
  {
    if q.cur.Some? {
      var c := q.cur.value;
      var t := q.tasks[c];
      var v := Max(t.vruntime, q.minV);
      var t' := t.(vruntime := v, deadline := v + VirtualSlice(t.weight), occupied := true);
      var q' := Queue(q.tasks[c := t'], q.count + 1, q.minV, None);
      WeightBounds(t.weight);
      ReplaceKeepsTasks(q, expired, c, t', q');
      RecomputeKeepsInv(q', false);
    }
  }

  lemma LeaveKeepsInv(q: Queue, expired: bool, idx: nat)
    requires Inv(q, expired)
    ensures Inv(Remove(q, idx), expired)
  {
    match FindTask(q.tasks, idx, 0) {
      case Some(i) =>
        ReplaceKeepsTasks(q, expired, i, q.tasks[i].(occupied := false), Remove(q, idx));
      case None =>
        assert Remove(q, idx).tasks == q.tasks;
        forall j | Queued(Remove(q, idx), j) ensures TaskInv(q.tasks[j], q.minV) {
          assert Queued(q, j);
        }
    }
  }

  lemma ReniceKeepsInv(q: Queue, expired: bool, idx: nat, nice: int)
    requires Inv(q, expired)
    ensures Inv(SetNice(q, idx, nice), expired)
  {
    var f := FindTask(q.tasks, idx, 0);
    if f.Some? {
      assert Queued(q, f.value);
      ReplaceKeepsTasks(q, expired, f.value, q.tasks[f.value].(weight := WeightForNice(nice)), SetNice(q, idx, nice));
    }
  }

  /** Every step keeps the invariant, and the clock never goes back. */
  lemma StepKeepsInv(d: Driver, e: Event)
    requires Inv(d.q, d.expired) && Driven(d, e)
    ensures var r := Step(d, e); Inv(r.q, r.expired) && r.q.minV >= d.q.minV
  {
    match e {
      case Arrive(idx, nice) =>
        if Enqueue(d.q, idx, nice).Some? {
          ArriveKeepsInv(d.q, d.expired, idx, nice);
        }
      case Dispatch => DequeueKeepsInv(d.q, d.expired);
      case TimerTick => TickKeepsInv(d.q);
      case Preempt => RequeueKeepsInv(d.q, d.expired);
      case Leave(idx) => LeaveKeepsInv(d.q, d.expired, idx);
      case Renice(idx, nice) => ReniceKeepsInv(d.q, d.expired, idx, nice);
    }
  }

  function Run(d: Driver, es: seq<Event>): (r: Driver)
    decreases |es|
  {
    if es == [] then d else Run(Step(d, es[0]), es[1..])
  }

  predicate AllDriven(d: Driver, es: seq<Event>)
    decreases |es|
  {
    es == [] || (Driven(d, es[0]) && AllDriven(Step(d, es[0]), es[1..]))
  }

  /** In every state of every run, each queued vruntime lies between the clock and the clock
      plus a constant of the weight table, and the clock only moves forward. */
  lemma {:induction false} RunKeepsInv(d: Driver, es: seq<Event>)
    requires Inv(d.q, d.expired) && AllDriven(d, es)
    ensures var r := Run(d, es); Inv(r.q, r.expired) && r.q.minV >= d.q.minV
    decreases |es|
  {
    if es != [] {
      StepKeepsInv(d, es[0]);
      RunKeepsInv(Step(d, es[0]), es[1..]);
    }
  }

  lemma EmptyQueueInv()
    ensures Inv(EmptyQueue(), false) && Floor(EmptyQueue())
  {
    NumZero(EmptyQueue().tasks, 64);
  }

  // ----- the slot of the running task -----

  /** The preemption finds the running task's slot as the dispatch left it. */
  predicate OwnSlot(q: Queue) {
    q.cur.Some? && q.cur.value < 64 ==> !q.tasks[q.cur.value].occupied
  }

  /** The count stays exact under every event, except that a preemption keeps it exact if and
      only if no arrival has taken the running task's slot. */
  lemma CountExactIff(d: Driver, e: Event)
    requires d.q.count == NumOccupied(d.q.tasks, 64)
    ensures var q := Step(d, e).q; q.count == NumOccupied(q.tasks, 64) <==> (e.Preempt? ==> OwnSlot(d.q))
  {
    var q := d.q;
    match e {
      case Arrive(idx, nice) =>
        var i := FirstEmpty(q.tasks, 0);
        if i.Some? {
          NumUpdate(q.tasks, i.value, FreshTask(q, idx, nice), 64);
        }
      case Dispatch =>
        var c := Choose(Recompute(q));
        if c.Some? {
          NumUpdate(q.tasks, c.value, q.tasks[c.value].(occupied := false), 64);
        }
      case TimerTick =>
        if q.cur.Some? && q.cur.value < 64 {
          NumUpdate(q.tasks, q.cur.value, Tick(q).0.tasks[q.cur.value], 64);
        }
      case Preempt =>
        if q.cur.Some? && q.cur.value < 64 {
          RequeueCountsIff(q);
        }
      case Leave(idx) =>
        var i := FindTask(q.tasks, idx, 0);
        if i.Some? {
          NumUpdate(q.tasks, i.value, q.tasks[i.value].(occupied := false), 64);
          NumPositive(q.tasks, i.value, 64);
        }
      case Renice(idx, nice) =>
        var i := FindTask(q.tasks, idx, 0);
        if i.Some? {
          NumUpdate(q.tasks, i.value, q.tasks[i.value].(weight := WeightForNice(nice)), 64);
        }
    }
  }

  /** Requeueing counts the running task right exactly when its slot is still free. */
  lemma RequeueCountsIff(q: Queue)
    requires q.cur.Some? && q.cur.value < 64 && q.count == NumOccupied(q.tasks, 64)
    ensures Requeue(q).count == NumOccupied(Requeue(q).tasks, 64) <==> !q.tasks[q.cur.value].occupied
  {
    var c := q.cur.value;
    var t := q.tasks[c];
    var v := Max(t.vruntime, q.minV);
    NumUpdate(q.tasks, c, t.(vruntime := v, deadline := v + VirtualSlice(t.weight), occupied := true), 64);
  }

  /** When the first free slot is the running task's, an arrival overwrites it: requeueing then
      puts the arrival back a second time, and the running task's entry is gone. */
  lemma ArrivalTakesRunningSlot(q: Queue, idx: nat, nice: int)
    requires q.count == NumOccupied(q.tasks, 64) && q.cur.Some? && FirstEmpty(q.tasks, 0) == q.cur
    ensures var a := Enqueue(q, idx, nice);
      && a.Some?
      && Requeue(a.value).count == NumOccupied(Requeue(a.value).tasks, 64) + 1
      && Requeue(a.value).tasks[q.cur.value].idx == idx
  {
    var c := q.cur.value;
    var a := Enqueue(q, idx, nice).value;
    var t := a.tasks[c];
    var v := Max(t.vruntime, a.minV);
    NumUpdate(q.tasks, c, t, 64);
    NumUpdate(a.tasks, c, t.(vruntime := v, deadline := v + VirtualSlice(t.weight), occupied := true), 64);
  }

  /** The kernel gets there at once: the first process runs in slot 0 and leaves it free. */
  lemma FirstArrivalRunsInFirstSlot(idx: nat, nice: int)
    ensures var q := Run(Driver(EmptyQueue(), false), [Arrive(idx, nice), Dispatch]).q;
      Floor(q) && q.cur == Some(0) && FirstEmpty(q.tasks, 0) == q.cur
  {
    var q0 := EmptyQueue();
    var d0 := Driver(q0, false);
    var d1 := Step(d0, Arrive(idx, nice));
    EmptyQueueInv();
    ArriveKeepsInv(q0, false, idx, nice);
    CountExactIff(d0, Arrive(idx, nice));
    CountExactIff(d1, Dispatch);
    DequeueTakesBest(d1.q);
    DequeueKeepsInv(d1.q, false);
    var es := [Arrive(idx, nice), Dispatch];
    assert es[1..] == [Dispatch] && es[1..][1..] == [];
    assert Run(d0, es) == Run(d1, [Dispatch]) == Run(Step(d1, Dispatch), []);
  }

  // ----- bounded bypass -----

  /** How many turns of at least one tick each it takes to run off a lead of `gap`. */
  function Rounds(gap: int): (r: nat) {
    if gap <= 0 then 0 else (gap + MIN_DELTA - 1) / MIN_DELTA
  }

  /** A bound on the turns that slot i can still take before slot w is served. */
  ghost function Credit(t: Slots, w: nat, i: nat): nat
    requires w < 64 && i < 64
  {
    if i != w && t[i].occupied then Rounds(t[w].vruntime + MAX_SLICE + 1 - t[i].vruntime) else 0
  }

  ghost function TotalCredit(t: Slots, w: nat, n: nat): nat
    requires w < 64 && n <= 64
  {
    if n == 0 then 0 else TotalCredit(t, w, n - 1) + Credit(t, w, n - 1)
  }

  lemma {:induction false} TotalUpdate(t: Slots, w: nat, c: nat, x: Task, n: nat)
    requires w < 64 && c < 64 && c != w && n <= 64
    ensures TotalCredit(t[c := x], w, n) ==
            TotalCredit(t, w, n) + if c < n then Credit(t[c := x], w, c) - Credit(t, w, c) else 0
  {
    if n > 0 {
      TotalUpdate(t, w, c, x, n - 1);
    }
  }

  /** What the bound needs: the clock is behind, and the count does not fall short. */
  ghost predicate Counted(q: Queue) {
    Ahead(q) && q.count >= NumOccupied(q.tasks, 64)
  }

  /** One turn on the processor: dispatch, some ticks, and back to the queue or away. */
  datatype Turn = Turn(ticks: nat, stays: bool)

  function TickMany(q: Queue, n: nat): (r: Queue)
    decreases n
  {
    if n == 0 then q else TickMany(Tick(q).0, n - 1)
  }

  function TakeTurn(q: Queue, turn: Turn): (r: Queue) {
    var ran := TickMany(Dequeue(q).0, turn.ticks);
    if turn.stays then Requeue(ran) else ran.(cur := None)
  }

  lemma {:induction false} TickManyRuns(q: Queue, n: nat)
    requires q.cur.Some? && q.cur.value < 64
    ensures var c := q.cur.value; var r := TickMany(q, n);
      && r.tasks == q.tasks[c := q.tasks[c].(vruntime := r.tasks[c].vruntime)]
      && r.tasks[c].vruntime >= q.tasks[c].vruntime + n * MIN_DELTA
      && r.count == q.count && r.minV == q.minV && r.cur == q.cur
    decreases n
  {
    if n > 0 {
      WeightBounds(q.tasks[q.cur.value].weight);
      TickManyRuns(Tick(q).0, n - 1);
    }
  }

  /** After a turn of another task: the waiting task is as it was, and the total credit is lower. */
  lemma TurnUsesCredit(q: Queue, turn: Turn, w: nat)
    requires Counted(q) && Queued(q, w) && turn.ticks >= 1 && Dequeue(q).0.cur != Some(w)
    ensures var r := TakeTurn(q, turn);
      && Counted(r) && Queued(r, w) && r.tasks[w] == q.tasks[w]
      && TotalCredit(r.tasks, w, 64) < TotalCredit(q.tasks, w, 64)
  {
    hide VirtualSlice, LeastSlot, NumOccupied, TotalCredit;
    NumPositive(q.tasks, w, 64);
    DequeueTakesBest(q);
    RecomputeClock(q);
    var d := Dequeue(q).0;
    var c := d.cur.value;
    var ran := TickMany(d, turn.ticks);
    TickManyRuns(d, turn.ticks);
    var r := TakeTurn(q, turn);
    WeightBounds(q.tasks[c].weight);
    if turn.stays {
      StayingTurn(q, ran, c, w);
    } else {
      var x := ran.tasks[c];
      assert r.tasks == q.tasks[c := x];
      NumUpdate(q.tasks, c, x, 64);
      TotalUpdate(q.tasks, w, c, x, 64);
      forall j | Queued(r, j) ensures r.minV <= r.tasks[j].vruntime {
        assert Queued(q, j);
      }
    }
  }

  /** Putting back a task that ran at least one tick past v. */
  lemma StayingTurn(q: Queue, ran: Queue, c: nat, w: nat)
    requires Counted(q) && Queued(q, w) && Queued(q, c) && c != w
    requires q.minV <= ran.minV <= q.tasks[w].vruntime && ran.cur == Some(c) && ran.count == q.count - 1
    requires forall j :: Queued(q, j) ==> ran.minV <= q.tasks[j].vruntime
    requires ran.tasks == q.tasks[c := ran.tasks[c]] && ran.tasks[c].weight == q.tasks[c].weight
    requires ran.tasks[c].vruntime >= q.tasks[c].vruntime + MIN_DELTA
    requires q.tasks[c].vruntime <= q.tasks[w].vruntime + MAX_SLICE
    ensures var r := Requeue(ran);
      && Counted(r) && Queued(r, w) && r.tasks[w] == q.tasks[w]
      && TotalCredit(r.tasks, w, 64) < TotalCredit(q.tasks, w, 64)
  {
    hide VirtualSlice, LeastSlot, NumOccupied, TotalCredit;
    var t := ran.tasks[c];
    var v := Max(t.vruntime, ran.minV);
    var x := t.(vruntime := v, deadline := v + VirtualSlice(t.weight), occupied := true);
    var mid := Queue(ran.tasks[c := x], ran.count + 1, ran.minV, None);
    assert mid.tasks == q.tasks[c := x];
    NumUpdate(q.tasks, c, x, 64);
    TotalUpdate(q.tasks, w, c, x, 64);
    forall j | Queued(mid, j) ensures mid.minV <= mid.tasks[j].vruntime {
      assert j != c ==> Queued(q, j);
    }
    RecomputeClock(mid);
    var r := Requeue(ran);
    forall j | Queued(r, j) ensures r.minV <= r.tasks[j].vruntime {
      assert Queued(mid, j);
    }
  }

  /** Each turn of the run passes slot w over. */
  predicate PassesOver(q: Queue, w: nat, turns: seq<Turn>)
    decreases |turns|
  {
    turns == [] ||
    (turns[0].ticks >= 1 && Dequeue(q).0.cur != Some(w) && PassesOver(TakeTurn(q, turns[0]), w, turns[1..]))
  }

  /** Bounded bypass: with no arrivals, a waiting task is passed over no more often than the
      total credit of the others, whatever the weights and deadlines. */
  lemma {:induction false} BoundedBypass(q: Queue, w: nat, turns: seq<Turn>)
    requires Counted(q) && Queued(q, w) && PassesOver(q, w, turns)
    ensures |turns| <= TotalCredit(q.tasks, w, 64)
    decreases |turns|
  {
    if turns != [] {
      TurnUsesCredit(q, turns[0], w);
      BoundedBypass(TakeTurn(q, turns[0]), w, turns[1..]);
    }
  }

  lemma OneMore(k: int, each: nat)
    ensures (k + 1) * each == k * each + each
  {
  }

  lemma {:induction false} CreditBound(t: Slots, w: nat, n: nat, each: nat)
    requires w < 64 && n <= 64 && t[w].occupied
    requires forall i :: 0 <= i < 64 && t[i].occupied ==> Credit(t, w, i) <= each
    ensures w < n ==> NumOccupied(t, n) >= 1
    ensures TotalCredit(t, w, n) <= (NumOccupied(t, n) - if w < n then 1 else 0) * each
  {
    if n > 0 {
      CreditBound(t, w, n - 1, each);
      OneMore(NumOccupied(t, n - 1) - if w < n - 1 then 1 else 0, each);
    }
  }

  lemma RoundsMonotone(a: int, b: int)
    requires a <= b
    ensures Rounds(a) <= Rounds(b)
  {
  }

  /** The bound in numbers: other tasks, times the rounds to run off the spread and one slice. */
  lemma BypassInNumbers(q: Queue, expired: bool, w: nat, turns: seq<Turn>)
    requires Inv(q, expired) && Queued(q, w) && PassesOver(q, w, turns)
    ensures |turns| <= (NumOccupied(q.tasks, 64) - 1) * Rounds(SPREAD + MAX_SLICE + 1)
  {
    BoundedBypass(q, w, turns);
    var each := Rounds(SPREAD + MAX_SLICE + 1);
    forall i | 0 <= i < 64 && q.tasks[i].occupied ensures Credit(q.tasks, w, i) <= each {
      assert Queued(q, i);
      RoundsMonotone(q.tasks[w].vruntime + MAX_SLICE + 1 - q.tasks[i].vruntime, SPREAD + MAX_SLICE + 1);
    }
    CreditBound(q.tasks, w, 64, each);
  }

  lemma {:induction false} NumPositive(t: Slots, w: nat, n: nat)
    requires w < n <= 64 && t[w].occupied
    ensures NumOccupied(t, n) >= 1
  {
    if w < n - 1 {
      NumPositive(t, w, n - 1);
    }
  }
}
