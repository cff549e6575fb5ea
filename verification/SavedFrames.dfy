// Saved stack pointers over whole runs. A process is entered with the stack pointer saved for it,
// and a pointer that fails the checks halts the kernel. Creation saves a good one; a blocking
// waitpid saves whatever the caller had.

module SavedFrames {
  import opened Options
  import opened UserStacks
  import opened Processes
  import opened ProcessRuns
  import Q = Eevdf

  /** Slot i waits for the processor or for an exit, with a stack pointer that will be refused. */
  predicate BadFrame(t: Table, i: int) {
    (Is(t, i, Runnable) || Is(t, i, Blocked)) && !Resumable(t[i].value)
  }

  ghost predicate FramesOk(k: Kernel) {
    forall i :: !BadFrame(k.table, i)
  }

  /** A wait that blocks with a stack pointer that will be refused. */
  predicate BadBlock(k: Kernel, call: Call, me: Process) {
    Blocks(k, call) && !Enterable(me.pages, call.rsp)
  }

  // ----- one call -----

  lemma BlockedSleeps(k: Kernel, call: Call, c: nat, me: Process, k': Kernel)
    requires SchedInv(k) && CallBy(k, call, c, me, k') && call.Wait?
    ensures k'.table[c] == if Blocks(k, call) then Some(Sleeper(me, call.pid, call.rsp)) else Some(me)
  {
    hide SchedInv, Schedule, UserRange;
    CurrentRuns(k, c, me);
    if Blocks(k, call) {
      BlockOk(k, c, me, call.pid, call.rsp, call.statusAt);
    }
  }

  /** After any call, a waiting process has a bad stack pointer if and only if it had one before
      or this call is its own blocking wait with one. */
  lemma SlotFrameIff(k: Kernel, call: Call, c: nat, me: Process, k': Kernel, i: nat)
    requires SchedInv(k) && CallBy(k, call, c, me, k') && i < 64
    ensures BadFrame(k'.table, i) <==> if i == c then BadBlock(k, call, me) else BadFrame(k.table, i)
  {
    hide SchedInv, Step, Has, Enterable, ReapMatches, WakeMatches, Newborn, FirstDead;
    CurrentRuns(k, c, me);
    StepEvolves(k, call, c, me, k');
    assert Evolves(k.nextPid, call, me, i == c, k.table[i], k'.table[i]);
    if call.Wait? {
      BlockedSleeps(k, call, c, me, k');
    } else if call.Spawn? && call.load.Loads? {
      NewbornIs(k.nextPid, ChildCaps(me.caps, call.mask), me.flow, call.load.pages);
    }
  }

  /** From good stack pointers, a call leaves good ones if and only if it is not such a wait. */
  lemma FramesOkIff(k: Kernel, call: Call, c: nat, me: Process, k': Kernel)
    requires SchedInv(k) && CallBy(k, call, c, me, k') && FramesOk(k)
    ensures FramesOk(k') <==> !BadBlock(k, call, me)
  {
    hide SchedInv, Step, BadFrame, BadBlock;
    forall i ensures BadFrame(k'.table, i) <==> i == c && BadBlock(k, call, me) {
      if 0 <= i < 64 {
        SlotFrameIff(k, call, c, me, k', i);
      } else {
        OutsideTable(k'.table, i);
      }
    }
    assert BadFrame(k'.table, c) <==> BadBlock(k, call, me);
  }

  lemma OutsideTable(t: Table, i: int)
    requires !(0 <= i < 64)
    ensures !BadFrame(t, i)
  {
  }

  lemma WokenAreGood(t: Table, t': Table, pid: nat, i: int)
    requires Woken(t, t', pid, 0) && Is(t', i, Runnable) && !BadFrame(t, i)
    ensures Resumable(t'[i].value)
  {
    hide Enterable;
  }

  /** With good stack pointers no dispatch halts: only the loader can. */
  lemma GoodFramesHaltIff(k: Kernel, call: Call)
    requires SchedInv(k) && FramesOk(k)
    ensures Step(k, call).Halt? <==> LoaderHalts(k, call)
  {
    hide SchedInv, IdleInv, Step, AfterExit, FirstDead, Resumable, Q.Dequeue, Woken;
    StepOk(k, call);
    var cur := Current(k);
    if cur.Some? {
      var c, me := k.current.value, cur.value;
      if call.Exit? {
        ExitOk(k, c, me, call.status);
        var k1 := AfterExit(k, c, me, call.status).value;
        ScheduleOk(k1);
        if Upcoming(k1).Some? {
          var i := Upcoming(k1).value;
          assert !BadFrame(k.table, i);
          WokenAreGood(k.table[c := Some(me.(state := Dead, exitStatus := call.status))], k1.table, me.pid, i);
        }
      } else if Blocks(k, call) {
        BlockOk(k, c, me, call.pid, call.rsp, call.statusAt);
        var k1 := AfterBlock(k, c, me, call.pid, call.rsp);
        ScheduleOk(k1);
        if Upcoming(k1).Some? {
          assert !BadFrame(k.table, Upcoming(k1).value);
        }
      }
    }
  }

  // ----- whole runs -----

  /** No call of the run makes the loader halt or blocks with a stack pointer that is refused. */
  ghost predicate WellBehaved(w: World, calls: seq<Call>)
    decreases |calls|
  {
    calls != [] ==>
      && !LoaderHalts(w.k, calls[0])
      && (Current(w.k).Some? ==> !BadBlock(w.k, calls[0], Current(w.k).value))
      && (Step(w.k, calls[0]).Next? ==> WellBehaved(Record(w, calls[0]), calls[1..]))
  }

  /** What callers have to see to: a run whose blocking waits are made with good stack pointers,
      and whose programs load, never halts. */
  lemma {:induction false} WellBehavedNeverHalts(w: World, calls: seq<Call>)
    requires WorldInv(w) && FramesOk(w.k) && WellBehaved(w, calls)
    ensures RunCalls(w, calls).Some? && FramesOk(RunCalls(w, calls).value.k)
    decreases |calls|
  {
    hide WorldInv, SchedInv, Step, FramesOk, CallBy, LoaderHalts, BadBlock;
    if calls != [] {
      WorldIsScheduled(w);
      GoodFramesHaltIff(w.k, calls[0]);
      RecordKeepsWorld(w, calls[0]);
      if w.k.current.Some? {
        CurrentCalls(w.k, calls[0]);
        var c := w.k.current.value;
        FramesOkIff(w.k, calls[0], c, w.k.table[c].value, Step(w.k, calls[0]).k);
      } else {
        IdleRecords(w, calls[0]);
      }
      WellBehavedNeverHalts(Record(w, calls[0]), calls[1..]);
    }
  }

  /** Process `pid` in slot i waits with a stack pointer that will be refused. */
  predicate Doomed(k: Kernel, i: nat, pid: nat) {
    BadFrame(k.table, i) && k.table[i].value.pid == pid
  }

  lemma StepKeepsDoomed(k: Kernel, call: Call, c: nat, me: Process, k': Kernel, i: nat, pid: nat)
    requires SchedInv(k) && CallBy(k, call, c, me, k') && Doomed(k, i, pid)
    ensures Doomed(k', i, pid)
  {
    hide SchedInv, Step, Has, Resumable, ReapMatches, WakeMatches, Newborn, FirstDead;
    CurrentRuns(k, c, me);
    SlotFrameIff(k, call, c, me, k', i);
    StepEvolves(k, call, c, me, k');
    assert Evolves(k.nextPid, call, me, i == c, k.table[i], k'.table[i]);
  }

  /** A process that blocked with a bad stack pointer never runs again: every run either halts or
      leaves it waiting. */
  lemma {:induction false} DoomedForever(w: World, calls: seq<Call>, i: nat, pid: nat)
    requires WorldInv(w) && Doomed(w.k, i, pid)
    ensures RunCalls(w, calls).Some? ==> Doomed(RunCalls(w, calls).value.k, i, pid)
    decreases |calls|
  {
    hide WorldInv, SchedInv, Step, CallBy, Doomed;
    if calls != [] && Step(w.k, calls[0]).Next? {
      WorldIsScheduled(w);
      RecordKeepsWorld(w, calls[0]);
      if w.k.current.Some? {
        CurrentCalls(w.k, calls[0]);
        var c := w.k.current.value;
        StepKeepsDoomed(w.k, calls[0], c, w.k.table[c].value, Step(w.k, calls[0]).k, i, pid);
      } else {
        IdleRecords(w, calls[0]);
      }
      DoomedForever(Record(w, calls[0]), calls[1..], i, pid);
    }
  }
}
