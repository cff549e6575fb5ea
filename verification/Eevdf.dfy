// The EEVDF runqueue: a fixed array of task slots with virtual runtimes and deadlines.
// Functions for every operation, the invariant they keep, and the bounds over whole runs.

module Eevdf {
  import opened Numbers
  import opened Options

  const BASE_SLICE_US: nat := 4000
  const MIN_SLICE_US: nat := 500
  const NICE0_WEIGHT: nat := 1024
  const TICK_US: nat := 1000

  const WEIGHT_TABLE: seq<nat> := [
    88761, 71755, 56483, 46273, 36291,
    29154, 23254, 18705, 14949, 11916,
    9548, 7620, 6100, 4904, 3906,
    3121, 2501, 1991, 1586, 1277,
    1024, 820, 655, 526, 423,
    335, 272, 215, 172, 137,
    110, 87, 70, 56, 45,
    36, 29, 23, 18, 15
  ]

  const MIN_WEIGHT: nat := 15
  const MAX_WEIGHT: nat := 88761

  type Weight = w: nat | MIN_WEIGHT <= w <= MAX_WEIGHT witness 15

  function WeightForNice(nice: int): Weight {
    var clamped := if nice < -20 then -20 else if nice > 19 then 19 else nice;
    WEIGHT_TABLE[clamped + 20]
  }

  function SliceFor(w: nat): nat {
    Max(BASE_SLICE_US * w / NICE0_WEIGHT, MIN_SLICE_US)
  }

  /** One slice in virtual time: the distance to the deadline, and the lag tolerance. */
  function VirtualSlice(w: Weight): nat {
    SliceFor(w) * NICE0_WEIGHT / w
  }

  /** Virtual time of one tick. */
  function TickDelta(w: Weight): nat {
    TICK_US * NICE0_WEIGHT / w
  }

  const MAX_SLICE: nat := 34133
  const MAX_DELTA: nat := 68266
  const MIN_DELTA: nat := 11

  lemma DivBounds(a: nat, w: nat, lo: nat, hi: nat)
    requires w > 0 && lo * w <= a < (hi + 1) * w
    ensures lo <= a / w <= hi
  {
    var q, r := a / w, a % w;
    assert a == q * w + r;
    assert q < lo ==> (q + 1) * w <= lo * w;
    assert q > hi ==> q * w >= (hi + 1) * w;
  }

  /** The arithmetic of the weight table: slices and ticks stay between constants, whatever the nice level. */
  lemma WeightBounds(w: Weight)
    ensures 1 <= VirtualSlice(w) <= MAX_SLICE
    ensures MIN_DELTA <= TickDelta(w) <= MAX_DELTA
  {
    SliceBounds(w);
    DivBounds(SliceFor(w) * NICE0_WEIGHT, w, 1, MAX_SLICE);
    DivBounds(TICK_US * NICE0_WEIGHT, w, MIN_DELTA, MAX_DELTA);
  }

  lemma Quotient(a: nat, w: nat)
    requires w > 0
    ensures a / w * w <= a < (a / w + 1) * w
  {
    var q, r := a / w, a % w;
    assert a == q * w + r;
  }

  /** A tick of 1000 microseconds adds the whole part of 1000 * 1024 / weight: virtual time runs
      inversely to weight. */
  lemma TickIsInverse(w: Weight)
    ensures TickDelta(w) * w <= 1_024_000 < (TickDelta(w) + 1) * w
  {
    Quotient(TICK_US * NICE0_WEIGHT, w);
  }

  /** A slice is 4000 microseconds at weight 1024, in proportion to the weight and at least 500; in
      virtual time it runs inversely to the weight again. */
  lemma SliceIsProportional(w: Weight) returns (slice: nat)
    ensures slice * 1024 <= Max(4000 * w, 512_000) < (slice + 1) * 1024
    ensures VirtualSlice(w) * w <= slice * 1024 < (VirtualSlice(w) + 1) * w
  {
    slice := SliceFor(w);
    Quotient(SliceFor(w) * NICE0_WEIGHT, w);
  }

  /** Weights: 1024 at nice 0, each nice level a fifth to three tenths below the one before, and
      levels outside -20 to 19 count as the nearest of them. */
  lemma WeightsFall(nice: int)
    ensures WeightForNice(0) == 1024 && WeightForNice(-20) == 88761 && WeightForNice(19) == 15
    ensures -20 <= nice < 19 ==>
      12 * WeightForNice(nice + 1) <= 10 * WeightForNice(nice) <= 13 * WeightForNice(nice + 1)
    ensures nice < -20 ==> WeightForNice(nice) == WeightForNice(-20)
    ensures nice > 19 ==> WeightForNice(nice) == WeightForNice(19)
  {
  }

  lemma SliceBounds(w: Weight)
    ensures w <= SliceFor(w) * NICE0_WEIGHT < (MAX_SLICE + 1) * w
  {
    var x := BASE_SLICE_US * w / NICE0_WEIGHT;
    assert x * NICE0_WEIGHT <= BASE_SLICE_US * w;
  }

  // ----- the runqueue -----

  datatype Task = Task(idx: nat, vruntime: nat, deadline: nat, weight: Weight, occupied: bool)

  type Slots = t: seq<Task> | |t| == 64 witness seq(64, _ => Task(0, 0, 0, 1024, false))

  /** `cur` is the slot of the running task, whose entry is kept while it runs but not occupied. */
  datatype Queue = Queue(tasks: Slots, count: nat, minV: nat, cur: Option<nat>)

  const EMPTY_TASK: Task := Task(0, 0, 0, 1024, false)

  function EmptyQueue(): Queue {
    Queue(seq(64, _ => EMPTY_TASK), 0, 0, None)
  }

  /** The first unoccupied slot from i on. */
  function FirstEmpty(t: Slots, i: nat): (r: Option<nat>)
    requires i <= 64
    ensures r.None? <==> forall j :: i <= j < 64 ==> t[j].occupied
    ensures r.Some? ==> i <= r.value < 64 && !t[r.value].occupied && forall j :: i <= j < r.value ==> t[j].occupied
    decreases 64 - i
  {
    if i == 64 then None else if !t[i].occupied then Some(i) else FirstEmpty(t, i + 1)
  }

  /** The first occupied slot of process idx from i on. */
  function FindTask(t: Slots, idx: nat, i: nat): (r: Option<nat>)
    requires i <= 64
    ensures r.None? <==> forall j :: i <= j < 64 ==> !(t[j].occupied && t[j].idx == idx)
    ensures r.Some? ==> i <= r.value < 64 && t[r.value].occupied && t[r.value].idx == idx
    ensures r.Some? ==> forall j :: i <= j < r.value ==> !(t[j].occupied && t[j].idx == idx)
    decreases 64 - i
  {
    if i == 64 then None else if t[i].occupied && t[i].idx == idx then Some(i) else FindTask(t, idx, i + 1)
  }

  /** How many of the first n slots are occupied. */
  function NumOccupied(t: Slots, n: nat): (r: nat)
    requires n <= 64
    ensures r <= n
  {
    if n == 0 then 0 else NumOccupied(t, n - 1) + if t[n - 1].occupied then 1 else 0
  }

  /** The first of the lowest-vruntime occupied slots among the first n. */
  function LeastSlot(t: Slots, n: nat): (r: Option<nat>)
    requires n <= 64
    ensures r.Some? ==> r.value < n && t[r.value].occupied
    ensures r.None? <==> forall j :: 0 <= j < n ==> !t[j].occupied
    ensures r.Some? ==> forall j :: 0 <= j < n && t[j].occupied ==> t[r.value].vruntime <= t[j].vruntime
    ensures r.Some? ==> forall j :: 0 <= j < r.value && t[j].occupied ==> t[r.value].vruntime < t[j].vruntime
  {
    if n == 0 then None else
    var b := LeastSlot(t, n - 1);
    if t[n - 1].occupied && (b.None? || t[n - 1].vruntime < t[b.value].vruntime) then Some(n - 1) else b
  }

  predicate Eligible(t: Task, minV: nat) {
    t.vruntime <= minV + VirtualSlice(t.weight)
  }

  /** The first of the earliest-deadline eligible slots among the first n. */
  function BestSlot(t: Slots, minV: nat, n: nat): (r: Option<nat>)
    requires n <= 64
    ensures r.Some? ==> r.value < n && t[r.value].occupied && Eligible(t[r.value], minV)
    ensures r.None? <==> forall j :: 0 <= j < n ==> !(t[j].occupied && Eligible(t[j], minV))
    ensures r.Some? ==> forall j :: 0 <= j < n && t[j].occupied && Eligible(t[j], minV) ==>
              t[r.value].deadline <= t[j].deadline
    ensures r.Some? ==> forall j :: 0 <= j < r.value && t[j].occupied && Eligible(t[j], minV) ==>
              t[r.value].deadline < t[j].deadline
  {
    if n == 0 then None else
    var b := BestSlot(t, minV, n - 1);
    if t[n - 1].occupied && Eligible(t[n - 1], minV) && (b.None? || t[n - 1].deadline < t[b.value].deadline)
    then Some(n - 1) else b
  }

  /** The clock moves up to the least queued vruntime, and never back. */
  function Recompute(q: Queue): (r: Queue) {
    match LeastSlot(q.tasks, 64)
    case None => q
    case Some(i) => q.(minV := Max(q.minV, q.tasks[i].vruntime))
  }

  function FreshTask(q: Queue, idx: nat, nice: int): Task {
    var w := WeightForNice(nice);
    Task(idx, q.minV, q.minV + VirtualSlice(w), w, true)
  }

  /** None is the halt on a full runqueue. */
  function Enqueue(q: Queue, idx: nat, nice: int): (r: Option<Queue>) {
    match FirstEmpty(q.tasks, 0)
    case None => None
    case Some(i) => Some(q.(tasks := q.tasks[i := FreshTask(q, idx, nice)], count := q.count + 1))
  }

  function Choose(q: Queue): (r: Option<nat>) {
    var best := BestSlot(q.tasks, q.minV, 64);
    if best.Some? then best else LeastSlot(q.tasks, 64)
  }

  /** Pick the next task; the second component is its process index. */
  function Dequeue(q: Queue): (r: (Queue, Option<nat>)) {
    var q1 := Recompute(q);
    if q1.count == 0 then (q1, None) else
    match Choose(q1)
    case None => (q1, None)
    case Some(c) =>
      (Queue(q1.tasks[c := q1.tasks[c].(occupied := false)], q1.count - 1, q1.minV, Some(c)), Some(q1.tasks[c].idx))
  }

  function Remove(q: Queue, idx: nat): (r: Queue) {
    match FindTask(q.tasks, idx, 0)
    case Some(i) =>
      q.(tasks := q.tasks[i := q.tasks[i].(occupied := false)], count := if q.count == 0 then 0 else q.count - 1)
    case None =>
      if q.cur.Some? && q.cur.value < 64 && q.tasks[q.cur.value].idx == idx then q.(cur := None) else q
  }

  /** One timer tick of the running task; true when it has reached its deadline. */
  function Tick(q: Queue): (r: (Queue, bool)) {
    if q.cur.None? || q.cur.value >= 64 then (q, false) else
    var c := q.cur.value;
    var t := q.tasks[c].(vruntime := q.tasks[c].vruntime + TickDelta(q.tasks[c].weight));
    (q.(tasks := q.tasks[c := t]), t.vruntime >= t.deadline)
  }

  function Requeue(q: Queue): (r: Queue) {
    if q.cur.None? || q.cur.value >= 64 then q else
    var c := q.cur.value;
    var t := q.tasks[c];
    var v := Max(t.vruntime, q.minV);
    Recompute(Queue(q.tasks[c := t.(vruntime := v, deadline := v + VirtualSlice(t.weight), occupied := true)],
                    q.count + 1, q.minV, None))
  }

  function SetNice(q: Queue, idx: nat, nice: int): (r: Queue) {
    match FindTask(q.tasks, idx, 0)
    case None => q
    case Some(i) => q.(tasks := q.tasks[i := q.tasks[i].(weight := WeightForNice(nice))])
  }
}
