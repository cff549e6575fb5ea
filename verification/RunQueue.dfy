// The runqueue as the kernel runs it: the task array, counters and clock updated in place by
// scanning loops. Each method is proved against the functions of module Eevdf.

module EevdfRunQueue {
  import opened Numbers
  import opened Options
  import opened Eevdf

  class RunQueue {
    const tasks: array<Task>
    var count: nat
    var minV: nat
    var cur: Option<nat>

    ghost predicate Valid()
      reads this
    {
      tasks.Length == 64 && (cur.Some? ==> cur.value < 64)
    }

    ghost function St(): Queue
      requires Valid()
      reads this, tasks
    {
      Queue(tasks[..], count, minV, cur)
    }

    constructor ()
      ensures Valid() && fresh(tasks) && St() == EmptyQueue()
    {
      tasks := new Task[64](_ => EMPTY_TASK);
      count, minV, cur := 0, 0, None;
    }

    method RecomputeMinVruntime()
      requires Valid()
      modifies this`minV
      ensures Valid() && St() == Recompute(old(St()))
    {
      var least: Option<nat> := None;
      var min := 0;
      for i := 0 to 64
        invariant least == LeastSlot(tasks[..], i)
        invariant least.Some? ==> min == tasks[least.value].vruntime
      {
        if tasks[i].occupied && (least.None? || tasks[i].vruntime < min) {
          min := tasks[i].vruntime;
          least := Some(i);
        }
      }
      if least.Some? && min > minV {
        minV := min;
      }
    }

    /** False is the halt on a full runqueue. */
    method EnqueueTask(idx: nat, nice: int) returns (ok: bool)
      requires Valid()
      modifies this`count, tasks
      ensures Valid()
      ensures ok <==> Enqueue(old(St()), idx, nice).Some?
      ensures St() == if ok then Enqueue(old(St()), idx, nice).value else old(St())
    {
      ghost var q := St();
      var weight := WeightForNice(nice);
      var task := Task(idx, minV, minV + VirtualSlice(weight), weight, true);
      for i := 0 to 64
        invariant St() == q
        invariant FirstEmpty(q.tasks, 0) == FirstEmpty(q.tasks, i)
      {
        if !tasks[i].occupied {
          tasks[i] := task;
          count := count + 1;
          assert tasks[..] == q.tasks[i := task];
          return true;
        }
      }
      ok := false;
    }

    method PickSlot() returns (chosen: Option<nat>)
      requires Valid()
      ensures chosen == Choose(St())
    {
      hide VirtualSlice;
      var best, fallback: Option<nat> := None, None;
      var bestDeadline, fallbackVrt := 0, 0;
      for i := 0 to 64
        invariant best == BestSlot(tasks[..], minV, i) && fallback == LeastSlot(tasks[..], i)
        invariant best.Some? ==> bestDeadline == tasks[best.value].deadline
        invariant fallback.Some? ==> fallbackVrt == tasks[fallback.value].vruntime
      {
        var t := tasks[i];
        if t.occupied {
          var lag := VirtualSlice(t.weight);
          if t.vruntime <= minV + lag && (best.None? || t.deadline < bestDeadline) {
            bestDeadline := t.deadline;
            best := Some(i);
          }
          if fallback.None? || t.vruntime < fallbackVrt {
            fallbackVrt := t.vruntime;
            fallback := Some(i);
          }
        }
      }
      chosen := if best.Some? then best else fallback;
    }

    method DequeueTask() returns (idx: Option<nat>)
      requires Valid()
      modifies this, tasks
      ensures Valid() && (St(), idx) == Dequeue(old(St()))
    {
      RecomputeMinVruntime();
      if count == 0 {
        return None;
      }
      ghost var q := St();
      var chosen := PickSlot();
      if chosen.None? {
        return None;
      }
      var c := chosen.value;
      idx := Some(tasks[c].idx);
      cur := Some(c);
      tasks[c] := tasks[c].(occupied := false);
      count := count - 1;
      assert tasks[..] == q.tasks[c := q.tasks[c].(occupied := false)];
    }

    method RemoveTask(idx: nat)
      requires Valid()
      modifies this, tasks
      ensures Valid() && St() == Remove(old(St()), idx)
    {
      ghost var q := St();
      for i := 0 to 64
        invariant Valid() && St() == q
        invariant FindTask(q.tasks, idx, 0) == FindTask(q.tasks, idx, i)
      {
        if tasks[i].occupied && tasks[i].idx == idx {
          tasks[i] := tasks[i].(occupied := false);
          count := if count == 0 then 0 else count - 1;
          assert tasks[..] == q.tasks[i := q.tasks[i].(occupied := false)];
          return;
        }
      }
      if cur.Some? && tasks[cur.value].idx == idx {
        cur := None;
      }
    }

    method TickCurrent() returns (expired: bool)
      requires Valid()
      modifies tasks
      ensures Valid() && (St(), expired) == Tick(old(St()))
    {
      if cur.None? {
        return false;
      }
      ghost var q := St();
      var c := cur.value;
      var delta := TICK_US * NICE0_WEIGHT / tasks[c].weight;
      tasks[c] := tasks[c].(vruntime := tasks[c].vruntime + delta);
      assert tasks[..] == q.tasks[c := Tick(q).0.tasks[c]];
      expired := tasks[c].vruntime >= tasks[c].deadline;
    }

    method RequeueCurrent()
      requires Valid()
      modifies this, tasks
      ensures Valid() && St() == Requeue(old(St()))
    {
      hide Recompute, VirtualSlice;
      if cur.None? {
        return;
      }
      ghost var q := St();
      var c := cur.value;
      var t := tasks[c];
      var vrt := if t.vruntime < minV then minV else t.vruntime;
      var t' := t.(vruntime := vrt, deadline := vrt + VirtualSlice(t.weight), occupied := true);
      tasks[c] := t';
      count := count + 1;
      cur := None;
      assert tasks[..] == q.tasks[c := t'];
      RecomputeMinVruntime();
    }

    method SetNiceOf(idx: nat, nice: int)
      requires Valid()
      modifies tasks
      ensures Valid() && St() == SetNice(old(St()), idx, nice)
    {
      ghost var q := St();
      for i := 0 to 64
        invariant Valid() && St() == q
        invariant FindTask(q.tasks, idx, 0) == FindTask(q.tasks, idx, i)
      {
        if tasks[i].occupied && tasks[i].idx == idx {
          tasks[i] := tasks[i].(weight := WeightForNice(nice));
          assert tasks[..] == q.tasks[i := q.tasks[i].(weight := WeightForNice(nice))];
          return;
        }
      }
    }
  }
}
