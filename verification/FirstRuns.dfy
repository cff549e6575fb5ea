// Runs from boot in which the first process spawns a child, waits, and the child exits: the two
// ways in which they go wrong.

module FirstRuns {
  import opened Options
  import opened UserStacks
  import opened Processes
  import opened ProcessRuns
  import opened SavedFrames
  import Q = Eevdf

  /** Only slots 0 and 1 are in use. */
  ghost predicate TwoSlots(t: Table) {
    forall i :: 2 <= i < 64 ==> t[i].None?
  }

  // ----- the three calls -----

  lemma FirstSpawns(k: Kernel, me: Process, pages: Pages)
    requires SchedInv(k) && k.current == Some(0) && k.table[0] == Some(me) && Has(me.caps, CAP_SPAWN)
    requires forall i :: 1 <= i < 64 ==> k.table[i].None?
    ensures var o := Step(k, Spawn(0, true, Loads(pages)));
      && o.Next? && SchedInv(o.k) && o.k.current == Some(0) && o.k.nextPid == k.nextPid + 1
      && o.k.table == k.table[1 := Some(Newborn(k.nextPid, ChildCaps(me.caps, 0), me.flow, pages))]
  {
    hide Has, ChildCaps, Newborn, EnqueueProc;
    CreateOk(k, ChildCaps(me.caps, 0), me.flow, Loads(pages));
    assert !k.stackUsed[1];
    assert FirstFree(k.table, 0) == Some(1);
  }

  /** The parent waits and the child, newly created, gets the processor. */
  lemma FirstWaits(k: Kernel, me: Process, child: Process, w: nat, rsp: nat, statusAt: nat)
    requires SchedInv(k) && k.current == Some(0) && k.table[0] == Some(me) && TwoSlots(k.table)
    requires k.table[1] == Some(child) && child.state == Runnable && Resumable(child)
    ensures var o := Step(k, Wait(w, false, rsp, statusAt));
      && o.Next? && SchedInv(o.k) && o.k.current == Some(1)
      && o.k.table == k.table[0 := Some(Sleeper(me, w, rsp))][1 := Some(child.(state := Running))]
  {
    hide SchedInv, IdleInv, Schedule, Resumable, Q.Remove, Q.Dequeue, UserRange, Busy;
    CurrentRuns(k, 0, me);
    assert forall j :: !Is(k.table, j, Dead);
    assert FirstDead(k.table, w, 0).None?;
    BlockOk(k, 0, me, w, rsp, statusAt);
    var k1 := AfterBlock(k, 0, me, w, rsp);
    ScheduleOk(k1);
    assert Is(k1.table, 1, Runnable) && forall i :: Is(k1.table, i, Runnable) ==> i == 1;
    OneRuns(k1.table, Step(k, Wait(w, false, rsp, statusAt)).k, 1);
  }

  /** A dispatch from a table in which only slot j is runnable and none runs picks slot j. */
  lemma OneRuns(t: Table, k': Kernel, j: nat)
    requires SchedInv(k') && Busy(k') && Dispatched(t, k'.table) && Is(t, j, Runnable)
    requires forall i :: !Is(t, i, Running) && (Is(t, i, Runnable) ==> i == j)
    ensures k'.current == Some(j) && Resumable(t[j].value)
    ensures k'.table == t[j := Some(t[j].value.(state := Running))]
  {
    hide Resumable;
    assert forall i :: 0 <= i < 64 && i != j ==> k'.table[i] == t[i];
    forall i | Is(k'.table, i, Running) ensures i == j {
      assert !Is(t, i, Running);
    }
    assert Is(k'.table, j, Runnable) || Is(k'.table, j, Running);
  }

  /** The child exits past a parent that its exit does not concern. */
  lemma ChildLeavesAsleep(k: Kernel, parent: Process, child: Process, status: Option<int>)
    requires SchedInv(k) && k.current == Some(1) && TwoSlots(k.table)
    requires k.table[0] == Some(parent) && k.table[1] == Some(child)
    requires parent.state == Blocked && parent.waitingFor.Some? && !WakeMatches(parent.waitingFor.value, child.pid)
    ensures var o := Step(k, Exit(status));
      && o.Next? && SchedInv(o.k) && o.k.table[0] == Some(parent) && Is(o.k.table, 1, Dead)
  {
    hide SchedInv, IdleInv, Schedule, AfterExit, Resumable, Q.Dequeue, Busy;
    ExitOk(k, 1, child, status);
    var k1 := AfterExit(k, 1, child, status).value;
    ScheduleOk(k1);
    assert forall i :: !Is(k1.table, i, Runnable);
  }

  /** The child exits and its parent, which waits for it, is next: the kernel halts if and only if
      the parent's saved stack pointer is refused. */
  lemma ChildWakesParent(k: Kernel, parent: Process, child: Process, status: Option<int>)
    requires SchedInv(k) && k.current == Some(1) && TwoSlots(k.table)
    requires k.table[0] == Some(parent) && k.table[1] == Some(child)
    requires parent.state == Blocked && parent.waitingFor.Some? && WakeMatches(parent.waitingFor.value, child.pid)
    ensures var o := Step(k, Exit(status));
      && (o.Halt? <==> !Resumable(parent))
      && (o.Next? ==> o.k.current == Some(0))
  {
    hide SchedInv, IdleInv, Schedule, AfterExit, Resumable, Q.Dequeue, Busy;
    ExitOk(k, 1, child, status);
    var k1 := AfterExit(k, 1, child, status).value;
    ScheduleOk(k1);
    var woken := parent.(state := Runnable, waitingFor := None);
    assert k1.table[0] == Some(woken) && (Resumable(woken) <==> Resumable(parent)) by {
      SameFrame(woken, parent);
    }
    assert forall i :: !Is(k1.table, i, Running) && (Is(k1.table, i, Runnable) ==> i == 0);
    var o := Step(k, Exit(status));
    if o.Next? {
      assert Is(k1.table, 0, Runnable);
      OneRuns(k1.table, o.k, 0);
    }
  }

  lemma SameFrame(p: Process, q: Process)
    requires p.pages == q.pages && p.rsp == q.rsp
    ensures Resumable(p) <==> Resumable(q)
  {
  }

  // ----- the runs -----

  function FirstWorld(caps: bv64, flow: Label, pages: Pages): World
    requires Boot(caps, flow, pages).Some?
  {
    World(Boot(caps, flow, pages).value, map[], [])
  }

  function SpawnWaitExit(more: Pages, w: nat, rsp: nat, statusAt: nat, status: Option<int>): seq<Call> {
    [Spawn(0, true, Loads(more)), Wait(w, false, rsp, statusAt), Exit(status)]
  }

  /** The kernel when the first process sleeps and its child runs. */
  ghost predicate Asleep(k: Kernel, parent: Process, child: Process, w: nat, rsp: nat) {
    && SchedInv(k) && k.current == Some(1) && TwoSlots(k.table)
    && k.table[0] == Some(Sleeper(parent, w, rsp)) && k.table[1] == Some(child) && child.pid == 2
  }

  /** The first two calls go through, whatever the wait asks for. */
  lemma FirstTwo(caps: bv64, flow: Label, pages: Pages, more: Pages, w: nat, rsp: nat, statusAt: nat)
    returns (w2: World, child: Process)
    requires Has(caps, CAP_SPAWN)
    ensures Boot(caps, flow, pages).Some?
    ensures Asleep(w2.k, Newborn(1, caps, flow, pages).(state := Running), child, w, rsp)
    ensures WorldInv(w2)
    ensures forall rest :: RunCalls(FirstWorld(caps, flow, pages),
                                    [Spawn(0, true, Loads(more)), Wait(w, false, rsp, statusAt)] + rest) == RunCalls(w2, rest)
  {
    hide SchedInv, WorldInv, Step, Has, Boot, Newborn, ChildCaps, RunCalls;
    BootOk(caps, flow, pages);
    var w0 := FirstWorld(caps, flow, pages);
    WorldIsScheduled(w0);
    NewbornIs(1, caps, flow, pages);
    var me := Newborn(1, caps, flow, pages).(state := Running);
    var a, b := Spawn(0, true, Loads(more)), Wait(w, false, rsp, statusAt);
    FirstSpawns(w0.k, me, more);
    RecordKeepsWorld(w0, a);
    var w1 := Record(w0, a);
    var born := Newborn(2, ChildCaps(me.caps, 0), me.flow, more);
    NewbornIs(2, ChildCaps(me.caps, 0), me.flow, more);
    FirstWaits(w1.k, me, born, w, rsp, statusAt);
    RecordKeepsWorld(w1, b);
    w2 := Record(w1, b);
    child := born.(state := Running);
    forall rest ensures RunCalls(w0, [a, b] + rest) == RunCalls(w2, rest) {
      RunTwo(w0, a, b, rest);
    }
  }

  lemma RunTwo(w: World, a: Call, b: Call, rest: seq<Call>)
    requires Step(w.k, a).Next? && Step(Record(w, a).k, b).Next?
    ensures RunCalls(w, [a, b] + rest) == RunCalls(Record(Record(w, a), b), rest)
  {
    hide Step, Record;
    var all := [a, b] + rest;
    assert all[1..] == [b] + rest && all[1..][1..] == rest;
    assert RunCalls(w, all) == RunCalls(Record(w, a), all[1..]);
  }

  lemma RunOne(w: World, a: Call)
    ensures RunCalls(w, [a]) == if Step(w.k, a).Halt? then None else Some(Record(w, a))
  {
    hide Step, Record;
    assert [a][1..] == [];
  }

  /** The stack pointer is not above the stack area and a multiple of 16, and the word below it is
      writable user memory. */
  predicate MayResume(pages: Pages, rsp: nat) {
    var page := if rsp < 8 then 0 else (rsp - 8) / 4096;
    rsp <= 0x7FFF_FFFF_F000 && rsp % 16 == 0 && page in pages && pages[page].user && pages[page].writable
  }

  /** From boot: the first process spawns a child and blocks until it exits. The exit halts the
      kernel if and only if the stack pointer the parent had when it called is refused. */
  lemma WaitHaltsIff(caps: bv64, flow: Label, pages: Pages, more: Pages, w: nat, rsp: nat, statusAt: nat, status: Option<int>)
    requires Has(caps, CAP_SPAWN) && WakeMatches(w, 2)
    ensures Boot(caps, flow, pages).Some?
    ensures var end := RunCalls(FirstWorld(caps, flow, pages), SpawnWaitExit(more, w, rsp, statusAt, status));
      && (end.None? <==> !MayResume(WithStack(pages, 1), rsp))
      && (end.Some? ==> end.value.k.current == Some(0))
  {
    hide SchedInv, WorldInv, Step, Has, Boot, RunCalls, Enterable, WithStack;
    EnterableIff(WithStack(pages, 1), rsp);
    var w2, child := FirstTwo(caps, flow, pages, more, w, rsp, statusAt);
    assert SpawnWaitExit(more, w, rsp, statusAt, status)
        == [Spawn(0, true, Loads(more)), Wait(w, false, rsp, statusAt)] + [Exit(status)];
    ChildWakesParent(w2.k, w2.k.table[0].value, child, status);
    RunOne(w2, Exit(status));
  }

  /** For instance, a stack pointer that is a multiple of 8 but not of 16. */
  lemma OddWordHalts(caps: bv64, flow: Label, pages: Pages, more: Pages, word: nat, status: Option<int>)
    requires Has(caps, CAP_SPAWN)
    ensures Boot(caps, flow, pages).Some?
    ensures RunCalls(FirstWorld(caps, flow, pages), SpawnWaitExit(more, 2, 16 * word + 8, 0, status)).None?
  {
    hide Has, Boot, RunCalls, WithStack;
    WaitHaltsIff(caps, flow, pages, more, 2, 16 * word + 8, 0, status);
    assert (16 * word + 8) % 16 == 8;
  }

  /** From boot: the first process spawns a child and waits on 0. When the child has exited the
      first process is blocked beside a zombie that its wait would reap. */
  lemma StuckRun(caps: bv64, flow: Label, pages: Pages, more: Pages, rsp: nat, statusAt: nat, status: Option<int>)
    requires Has(caps, CAP_SPAWN)
    ensures Boot(caps, flow, pages).Some?
    ensures var end := RunCalls(FirstWorld(caps, flow, pages), SpawnWaitExit(more, 0, rsp, statusAt, status));
      && end.Some? && WorldInv(end.value) && StuckOnZero(end.value.k, 0, 1)
      && Is(end.value.k.table, 1, Dead) && ReapMatches(0, end.value.k.table[1].value.pid)
  {
    hide SchedInv, WorldInv, Step, Has, Boot, RunCalls;
    var w2, child := FirstTwo(caps, flow, pages, more, 0, rsp, statusAt);
    assert SpawnWaitExit(more, 0, rsp, statusAt, status)
        == [Spawn(0, true, Loads(more)), Wait(0, false, rsp, statusAt)] + [Exit(status)];
    ChildLeavesAsleep(w2.k, w2.k.table[0].value, child, status);
    RunOne(w2, Exit(status));
    RecordKeepsWorld(w2, Exit(status));
  }

  lemma {:induction false} RunThenRun(w: World, a: seq<Call>, b: seq<Call>)
    ensures RunCalls(w, a + b) == if RunCalls(w, a).None? then None else RunCalls(RunCalls(w, a).value, b)
    decreases |a|
  {
    hide Step, Record;
    if a == [] {
      assert a + b == b;
    } else {
      assert (a + b)[0] == a[0] && (a + b)[1..] == a[1..] + b;
      if Step(w.k, a[0]).Next? {
        RunThenRun(Record(w, a[0]), a[1..], b);
      }
    }
  }

  /** However the run goes on, the first process never runs again. */
  lemma StuckAfterBoot(caps: bv64, flow: Label, pages: Pages, more: Pages, rsp: nat, statusAt: nat, status: Option<int>,
                       calls: seq<Call>)
    requires Has(caps, CAP_SPAWN)
    ensures Boot(caps, flow, pages).Some?
    ensures var end := RunCalls(FirstWorld(caps, flow, pages), SpawnWaitExit(more, 0, rsp, statusAt, status) + calls);
      end.Some? ==> StuckOnZero(end.value.k, 0, 1)
  {
    hide WorldInv, Has, Boot, RunCalls, SpawnWaitExit, StuckOnZero;
    StuckRun(caps, flow, pages, more, rsp, statusAt, status);
    var first := SpawnWaitExit(more, 0, rsp, statusAt, status);
    var w := FirstWorld(caps, flow, pages);
    RunThenRun(w, first, calls);
    ZeroStuckForever(RunCalls(w, first).value, calls, 0, 1);
  }

  /** A booted kernel has good stack pointers only, so its well-behaved runs never halt. */
  lemma BootNeverHalts(caps: bv64, flow: Label, pages: Pages, calls: seq<Call>)
    ensures Boot(caps, flow, pages).Some?
    ensures WellBehaved(FirstWorld(caps, flow, pages), calls) ==> RunCalls(FirstWorld(caps, flow, pages), calls).Some?
  {
    hide SchedInv, WorldInv, Boot, RunCalls, WellBehaved, Newborn;
    BootOk(caps, flow, pages);
    NewbornIs(1, caps, flow, pages);
    var w := FirstWorld(caps, flow, pages);
    assert FramesOk(w.k);
    if WellBehaved(w, calls) {
      WellBehavedNeverHalts(w, calls);
    }
  }
}
