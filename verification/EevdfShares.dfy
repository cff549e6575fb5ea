// What each runqueue operation does, field by field, and the law of shares: over any run, the
// processor time a task gets for the virtual time it is charged is in proportion to its weight.

module EevdfShares {
  import opened Numbers
  import opened Options
  import opened Eevdf
  import R = EevdfRuns

  // ----- the operations -----

  /** An arrival takes the first free slot and starts at the clock; all else stays. */
  lemma ArrivalSays(q: Queue, idx: nat, nice: int)
    ensures Enqueue(q, idx, nice).None? <==> forall j :: 0 <= j < 64 ==> q.tasks[j].occupied
    ensures Enqueue(q, idx, nice).Some? ==>
      var q' := Enqueue(q, idx, nice).value;
      exists i ::
        && 0 <= i < 64 && !q.tasks[i].occupied && (forall j :: 0 <= j < i ==> q.tasks[j].occupied)
        && var t := q'.tasks[i];
        && t.occupied && t.idx == idx && t.weight == WeightForNice(nice)
        && t.vruntime == q.minV && t.deadline == q.minV + VirtualSlice(WeightForNice(nice))
        && (forall j :: 0 <= j < 64 && j != i ==> q'.tasks[j] == q.tasks[j])
        && q'.count == q.count + 1 && q'.minV == q.minV && q'.cur == q.cur
  {
  }

  /** The charge of a tick: what the running slot's vruntime gained. */
  function Charged(q: Queue, q': Queue): int {
    if q.cur.Some? && q.cur.value < 64 then q'.tasks[q.cur.value].vruntime - q.tasks[q.cur.value].vruntime else 0
  }

  /** A tick charges the running slot in inverse proportion to its weight, reports expiry when the
      deadline is reached, and changes nothing else. */
  lemma TickSays(q: Queue)
    ensures var (q', expired) := Tick(q);
      if q.cur.None? || q.cur.value >= 64 then q' == q && !expired
      else
        var c := q.cur.value; var w, g := q.tasks[c].weight, Charged(q, q');
        && g >= 0 && g * w <= 1_024_000 < (g + 1) * w
        && q'.tasks[c] == q.tasks[c].(vruntime := q'.tasks[c].vruntime)
        && (expired <==> q'.tasks[c].vruntime >= q.tasks[c].deadline)
        && (forall j :: 0 <= j < 64 && j != c ==> q'.tasks[j] == q.tasks[j])
        && q'.count == q.count && q'.minV == q.minV && q'.cur == q.cur
  {
    if q.cur.Some? && q.cur.value < 64 {
      TickIsInverse(q.tasks[q.cur.value].weight);
    }
  }

  /** A requeue puts the running slot back, not behind the clock and with a new deadline. */
  lemma RequeueSays(q: Queue)
    ensures var q' := Requeue(q);
      if q.cur.None? || q.cur.value >= 64 then q' == q
      else
        var c := q.cur.value; var t, t' := q.tasks[c], q'.tasks[c];
        && t'.occupied && t'.idx == t.idx && t'.weight == t.weight
        && (t'.vruntime == if t.vruntime < q.minV then q.minV else t.vruntime)
        && t'.deadline == t'.vruntime + VirtualSlice(t.weight)
        && (forall j :: 0 <= j < 64 && j != c ==> q'.tasks[j] == q.tasks[j])
        && q'.count == q.count + 1 && q'.cur == None && q'.minV >= q.minV
  {
  }

  /** Leaving clears the first slot of the process, or the mark of the running one. */
  lemma LeaveSays(q: Queue, idx: nat)
    ensures var q' := Remove(q, idx);
      if exists i :: 0 <= i < 64 && q.tasks[i].occupied && q.tasks[i].idx == idx then
        && q'.minV == q.minV && q'.cur == q.cur && q'.count == Sub(q.count, 1)
        && exists i ::
             && 0 <= i < 64 && q.tasks[i].occupied && q.tasks[i].idx == idx
             && (forall j :: 0 <= j < i ==> !(q.tasks[j].occupied && q.tasks[j].idx == idx))
             && q'.tasks[i] == q.tasks[i].(occupied := false)
             && forall j :: 0 <= j < 64 && j != i ==> q'.tasks[j] == q.tasks[j]
      else
        && q'.tasks == q.tasks && q'.count == q.count && q'.minV == q.minV
        && q'.cur == if q.cur.Some? && q.cur.value < 64 && q.tasks[q.cur.value].idx == idx then None else q.cur
  {
  }

  /** Renicing changes the weight of the first queued slot of the process and nothing else. */
  lemma ReniceSays(q: Queue, idx: nat, nice: int)
    ensures var q' := SetNice(q, idx, nice);
      && q'.count == q.count && q'.minV == q.minV && q'.cur == q.cur
      && if exists i :: 0 <= i < 64 && q.tasks[i].occupied && q.tasks[i].idx == idx then
           exists i ::
             && 0 <= i < 64 && q.tasks[i].occupied && q.tasks[i].idx == idx
             && (forall j :: 0 <= j < i ==> !(q.tasks[j].occupied && q.tasks[j].idx == idx))
             && q'.tasks[i] == q.tasks[i].(weight := WeightForNice(nice))
             && forall j :: 0 <= j < 64 && j != i ==> q'.tasks[j] == q.tasks[j]
         else q'.tasks == q.tasks
  {
  }

  // ----- shares over runs -----

  /** The event is a tick of process idx. */
  predicate Ticks(d: R.Driver, e: R.Event, idx: nat) {
    e.TimerTick? && d.q.cur.Some? && d.q.cur.value < 64 && d.q.tasks[d.q.cur.value].idx == idx
  }

  /** How many ticks of the run fall to process idx. */
  ghost function Ran(d: R.Driver, es: seq<R.Event>, idx: nat): (r: nat)
    decreases |es|
  {
    if es == [] then 0
    else (if Ticks(d, es[0], idx) then 1 else 0) + Ran(R.Step(d, es[0]), es[1..], idx)
  }

  /** The virtual time process idx is charged for them. */
  ghost function Paid(d: R.Driver, es: seq<R.Event>, idx: nat): int
    decreases |es|
  {
    if es == [] then 0
    else (if Ticks(d, es[0], idx) then Charged(d.q, R.Step(d, es[0]).q) else 0) + Paid(R.Step(d, es[0]), es[1..], idx)
  }

  /** Whenever process idx is ticked it has weight w. */
  ghost predicate Weighs(d: R.Driver, es: seq<R.Event>, idx: nat, w: nat)
    decreases |es|
  {
    es != [] ==>
      && (Ticks(d, es[0], idx) ==> d.q.tasks[d.q.cur.value].weight == w)
      && Weighs(R.Step(d, es[0]), es[1..], idx, w)
  }

  /** Over any run, what a process is charged times its weight is its time times 1024, less than one
      weight per tick apart. */
  lemma {:induction false} ShareLaw(d: R.Driver, es: seq<R.Event>, idx: nat, w: Weight)
    requires Weighs(d, es, idx, w)
    ensures var n, g := Ran(d, es, idx), Paid(d, es, idx);
      g >= 0 && g * w <= n * 1_024_000 <= g * w + n * w
    decreases |es|
  {
    hide R.Step;
    if es != [] {
      var d' := R.Step(d, es[0]);
      ShareLaw(d', es[1..], idx, w);
      var n, g := Ran(d', es[1..], idx), Paid(d', es[1..], idx);
      if Ticks(d, es[0], idx) {
        var c := Charged(d.q, d'.q);
        TickIsStep(d, es[0]);
        TickSays(d.q);
        AddShare(n, g, c, w);
      }
    }
  }

  lemma TickIsStep(d: R.Driver, e: R.Event)
    requires e.TimerTick?
    ensures R.Step(d, e).q == Tick(d.q).0
  {
  }

  lemma AddShare(n: nat, g: int, c: int, w: nat)
    requires g * w <= n * 1_024_000 <= g * w + n * w && c * w <= 1_024_000 < (c + 1) * w
    ensures (g + c) * w <= (n + 1) * 1_024_000 <= (g + c) * w + (n + 1) * w
  {
    assert (g + c) * w == g * w + c * w && (n + 1) * w == n * w + w;
  }

  /** Two processes that are charged alike over a run get the processor in proportion to their
      weights, up to the rounding of single ticks. */
  lemma EqualChargeEqualShare(d: R.Driver, es: seq<R.Event>, i: nat, v: Weight, j: nat, w: Weight)
    requires Weighs(d, es, i, v) && Weighs(d, es, j, w) && Paid(d, es, i) == Paid(d, es, j)
    ensures var m, n := Ran(d, es, i), Ran(d, es, j);
      && m * w * 1_024_000 <= n * v * 1_024_000 + m * v * w
      && n * v * 1_024_000 <= m * w * 1_024_000 + n * w * v
  {
    hide Ran, Paid, Weighs;
    ShareLaw(d, es, i, v);
    ShareLaw(d, es, j, w);
    Cross(Ran(d, es, i), Ran(d, es, j), Paid(d, es, i), v, w);
    Cross(Ran(d, es, j), Ran(d, es, i), Paid(d, es, j), w, v);
  }

  lemma Cross(m: nat, n: nat, g: int, v: nat, w: nat)
    requires g >= 0 && m * 1_024_000 <= g * v + m * v && g * w <= n * 1_024_000
    ensures m * w * 1_024_000 <= n * v * 1_024_000 + m * v * w
  {
    Times(m * 1_024_000, g * v + m * v, w);
    Times(g * w, n * 1_024_000, v);
    assert m * 1_024_000 * w == m * w * 1_024_000;
    assert (g * v + m * v) * w == g * w * v + m * v * w;
    assert n * 1_024_000 * v == n * v * 1_024_000;
  }

  lemma Times(a: int, b: int, c: nat)
    requires a <= b
    ensures a * c <= b * c
  {
  }
}
