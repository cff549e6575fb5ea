// What every system call keeps, over whole runs: the process table and the runqueue agree,
// no wake-up is lost, and every exit status is reaped once.

module ProcessRuns {
  import opened Options
  import opened UserStacks
  import opened Processes
  import opened QueueSet
  import R = EevdfRuns

  predicate Same(a: Option<Process>, b: Option<Process>) {
    && (a.Some? <==> b.Some?)
    && (a.Some? ==> a.value.pid == b.value.pid && a.value.state == b.value.state
                    && a.value.waitingFor == b.value.waitingFor && a.value.exitStatus == b.value.exitStatus
                    && a.value.rsp == b.value.rsp)
  }

  predicate SamePages(a: Option<Process>, b: Option<Process>) {
    a.Some? && b.Some? ==> a.value.pages == b.value.pages
  }

  /** Pids are fresh and distinct, and kernel stacks belong to occupied slots. */
  ghost predicate TableOk(k: Kernel) {
    && k.nextPid >= 1
    && (forall i :: 0 <= i < 64 && k.table[i].Some? ==> 1 <= k.table[i].value.pid < k.nextPid)
    && (forall i, j :: 0 <= i < j < 64 && k.table[i].Some? && k.table[j].Some? ==>
          k.table[i].value.pid != k.table[j].value.pid)
    && (forall i :: 0 <= i < 64 ==> (k.stackUsed[i] <==> k.table[i].Some?))
    && (forall i :: Is(k.table, i, Blocked) ==> k.table[i].value.waitingFor.Some?)
  }

  /** Between processes: nobody runs, and the queue holds exactly the runnable slots. */
  ghost predicate IdleInv(k: Kernel) {
    && TableOk(k) && Proper(k.rq)
    && (forall i :: !Is(k.table, i, Running))
    && (forall i: nat :: OnQueue(k.rq, i) <==> Is(k.table, i, Runnable))
  }

  /** At most one process runs and it is current; every runnable process is queued exactly
      once; blocked and dead processes never are. */
  ghost predicate SchedInv(k: Kernel) {
    && TableOk(k) && Proper(k.rq)
    && (k.current.Some? ==> Is(k.table, k.current.value, Running))
    && (forall i :: Is(k.table, i, Running) ==> k.current == Some(i))
    && (forall i: nat :: Is(k.table, i, Runnable) ==> OnQueue(k.rq, i))
    && (forall i: nat :: OnQueue(k.rq, i) ==> Is(k.table, i, Runnable) || Is(k.table, i, Running))
  }

  /** Steps that touch neither pids nor scheduling keep the invariant. */
  lemma SameKeepsInv(k: Kernel, k': Kernel)
    requires SchedInv(k)
    requires forall i :: 0 <= i < 64 ==> Same(k.table[i], k'.table[i])
    requires k'.nextPid == k.nextPid && k'.current == k.current && k'.stackUsed == k.stackUsed && k'.rq == k.rq
    ensures SchedInv(k')
  {
    assert forall i, s :: Is(k'.table, i, s) <==> Is(k.table, i, s);
  }

  /** The current process stops: it dies or blocks, and leaves the queue if it was on it. */
  lemma StopCurrent(k: Kernel, c: nat, p: Process, k1: Kernel)
    requires SchedInv(k) && k.current == Some(c) && c < 64
    requires p.pid == k.table[c].value.pid && (p.state == Dead || (p.state == Blocked && p.waitingFor.Some?))
    requires k1.table == k.table[c := Some(p)] && k1.rq == Q.Remove(k.rq, c)
    requires k1.nextPid == k.nextPid && k1.stackUsed == k.stackUsed
    ensures IdleInv(k1)
  {
    RemoveTakes(k.rq, c);
    forall i, s ensures Is(k1.table, i, s) <==> if i == c then s == p.state else Is(k.table, i, s) {
    }
    forall i: nat ensures OnQueue(k1.rq, i) <==> Is(k1.table, i, Runnable) {
    }
  }

  /** At most runnable processes whose saved stack pointer passes the checks became running. */
  ghost predicate Dispatched(t: Table, t': Table) {
    forall i :: 0 <= i < 64 ==>
      t'[i] == t[i] || (Is(t, i, Runnable) && Resumable(t[i].value) && t'[i] == Some(t[i].value.(state := Running)))
  }

  /** The slot a dispatch picks. */
  function Upcoming(k: Kernel): Option<nat> {
    Q.Dequeue(k.rq).1
  }

  /** The dispatch picks a process whose saved stack pointer fails the checks. */
  predicate DispatchHalts(k: Kernel) {
    var next := Upcoming(k);
    next.Some? && next.value < 64 && k.table[next.value].Some? && !Resumable(k.table[next.value].value)
  }

  /** The processor idles only when nothing is runnable. */
  ghost predicate Busy(k: Kernel) {
    k.current.None? ==> forall i :: !Is(k.table, i, Runnable)
  }

  /** Dispatch from an idle kernel halts only on the saved stack pointer of the process it picks. */
  lemma ScheduleOk(k: Kernel)
    requires IdleInv(k)
    ensures Schedule(k).None? <==> DispatchHalts(k)
    ensures Upcoming(k).Some? ==> Is(k.table, Upcoming(k).value, Runnable)
    ensures Schedule(k).Some? ==>
      var k' := Schedule(k).value;
      && SchedInv(k') && Busy(k') && k'.boxes == k.boxes && k'.nextPid == k.nextPid && Dispatched(k.table, k'.table)
  {
    hide Q.Dequeue, Resumable;
    DequeueTakes(k.rq);
    var (rq, next) := Q.Dequeue(k.rq);
    if next.Some? {
      assert Is(k.table, next.value, Runnable);
    }
    if next.Some? && !DispatchHalts(k) {
      var i := next.value;
      var k' := Schedule(k).value;
      forall j, s ensures Is(k'.table, j, s) <==> if j == i then s == Running else Is(k.table, j, s) {
      }
    }
  }

  predicate Concerned(t: Table, pid: nat, i: int) {
    Is(t, i, Blocked) && t[i].value.waitingFor.Some? && WakeMatches(t[i].value.waitingFor.value, pid)
  }

  /** What the wake-up does to the table: everyone concerned from slot i on becomes runnable. */
  ghost predicate Woken(t: Table, t': Table, pid: nat, i: nat) {
    forall j :: 0 <= j < 64 ==>
      t'[j] == if i <= j && Concerned(t, pid, j) then Some(t[j].value.(state := Runnable, waitingFor := None)) else t[j]
  }

  lemma WakeOne(k: Kernel, i: nat, p: Process)
    requires IdleInv(k) && i < 64 && Is(k.table, i, Blocked)
    requires p.pid == k.table[i].value.pid && p.state == Runnable
    ensures EnqueueProc(PutProc(k, i, p), i).Some?
    ensures var k' := EnqueueProc(PutProc(k, i, p), i).value;
      IdleInv(k') && k' == PutProc(k, i, p).(rq := k'.rq)
  {
    EnqueueAdds(k.rq, i, p.nice);
    var k' := EnqueueProc(PutProc(k, i, p), i).value;
    forall j, s ensures Is(k'.table, j, s) <==> if j == i then s == Runnable else Is(k.table, j, s) {
    }
  }

  lemma WokenCompose(t: Table, t1: Table, t2: Table, pid: nat, i: nat)
    requires i < 64 && Woken(t1, t2, pid, i + 1)
    requires t1 == if Concerned(t, pid, i) then t[i := Some(t[i].value.(state := Runnable, waitingFor := None))] else t
    ensures Woken(t, t2, pid, i)
  {
    forall j | 0 <= j < 64
      ensures t2[j] == if i <= j && Concerned(t, pid, j) then Some(t[j].value.(state := Runnable, waitingFor := None)) else t[j]
    {
      if j != i {
        assert t1[j] == t[j] && (Concerned(t1, pid, j) <==> Concerned(t, pid, j));
      }
    }
  }

  lemma {:induction false} WakeOk(k: Kernel, pid: nat, i: nat)
    requires IdleInv(k) && i <= 64
    ensures WakeFrom(k, pid, i).Some?
    ensures var k' := WakeFrom(k, pid, i).value;
      IdleInv(k') && Woken(k.table, k'.table, pid, i) && k'.boxes == k.boxes && k'.nextPid == k.nextPid
    decreases 64 - i
  {
    if i < 64 {
      if Concerned(k.table, pid, i) {
        var p := k.table[i].value.(state := Runnable, waitingFor := None);
        WakeOne(k, i, p);
        var k1 := EnqueueProc(PutProc(k, i, p), i).value;
        WakeOk(k1, pid, i + 1);
        WokenCompose(k.table, k1.table, WakeFrom(k1, pid, i + 1).value.table, pid, i);
      } else {
        WakeOk(k, pid, i + 1);
        WokenCompose(k.table, k.table, WakeFrom(k, pid, i + 1).value.table, pid, i);
      }
    }
  }

  // ----- every system call keeps the scheduling invariant -----

  lemma NewbornKeepsInv(k: Kernel, i: nat, p: Process, k': Kernel)
    requires SchedInv(k) && i < 64 && k.table[i].None?
    requires p.pid == k.nextPid && p.state == Runnable
    requires k'.table == k.table[i := Some(p)] && k'.nextPid == k.nextPid + 1 && k'.current == k.current
    requires k'.stackUsed == k.stackUsed[i := true]
    requires Proper(k'.rq) && forall j: nat :: OnQueue(k'.rq, j) <==> OnQueue(k.rq, j) || j == i
    ensures SchedInv(k')
  {
    forall j, s ensures Is(k'.table, j, s) <==> if j == i then s == Runnable else Is(k.table, j, s) {
    }
  }

  lemma FailedCreateOk(k: Kernel, i: nat)
    requires SchedInv(k) && i < 64 && k.table[i].None?
    ensures ReleaseSlot(k.(nextPid := k.nextPid + 1), i) == k.(nextPid := k.nextPid + 1)
    ensures SchedInv(k.(nextPid := k.nextPid + 1))
  {
    assert k.table[i := None] == k.table && k.stackUsed[i := false] == k.stackUsed;
  }

  lemma FreeSlotIsIdle(k: Kernel, i: nat)
    requires SchedInv(k) && i < 64 && k.table[i].None?
    ensures Proper(k.rq) && !OnQueue(k.rq, i) && !k.stackUsed[i]
  {
  }

  /** Creation halts only where the loader does. */
  lemma CreateOk(k: Kernel, caps: bv64, flow: Label, load: Load)
    requires SchedInv(k)
    ensures match Create(k, caps, flow, load)
      case Failed(k') => SchedInv(k') && k' == k.(nextPid := k'.nextPid) && k'.nextPid >= k.nextPid
      case Created(k', i) =>
        && SchedInv(k') && i < 64 && k.table[i].None? && load.Loads?
        && k' == k.(nextPid := k.nextPid + 1, stackUsed := k.stackUsed[i := true], rq := k'.rq,
                    table := k.table[i := Some(Newborn(k.nextPid, caps, flow, load.pages))])
      case CreateHalts => load.LoadHalts? && FirstFree(k.table, 0).Some?
  {
    hide Newborn, Resumable, SchedInv, Q.Enqueue, Proper, OnQueue;
    NewbornIs(k.nextPid, caps, flow, if load.Loads? then load.pages else map[]);
    var slot := FirstFree(k.table, 0);
    if slot.Some? {
      var i := slot.value;
      FreeSlotIsIdle(k, i);
      FailedCreateOk(k, i);
      EnqueueAdds(k.rq, i, 0);
      if load.Loads? {
        NewbornKeepsInv(k, i, Newborn(k.nextPid, caps, flow, load.pages), Create(k, caps, flow, load).k);
      }
    }
  }

  lemma NewbornIs(pid: nat, caps: bv64, flow: Label, pages: Pages)
    ensures var p := Newborn(pid, caps, flow, pages);
      p.pid == pid && p.state == Runnable && p.caps == caps && p.flow == flow && p.nice == 0 && Resumable(p)
  {
    NewStackEnterable(pages, pid);
  }

  lemma CurrentRuns(k: Kernel, c: nat, me: Process)
    requires SchedInv(k) && k.current == Some(c) && c < 64 && k.table[c] == Some(me)
    ensures me.state == Running
  {
    assert Is(k.table, c, Running);
  }

  /** Exit halts only on the saved stack pointer of the process it hands over to. */
  lemma ExitOk(k: Kernel, c: nat, me: Process, status: Option<int>)
    requires SchedInv(k) && k.current == Some(c) && c < 64 && k.table[c] == Some(me)
    ensures AfterExit(k, c, me, status).Some? && IdleInv(AfterExit(k, c, me, status).value)
    ensures Woken(k.table[c := Some(me.(state := Dead, exitStatus := status))],
                  AfterExit(k, c, me, status).value.table, me.pid, 0)
    ensures DoExit(k, c, me, status).Halt? <==> DispatchHalts(AfterExit(k, c, me, status).value)
    ensures DoExit(k, c, me, status).Next? ==>
      var k' := DoExit(k, c, me, status).k;
      && SchedInv(k') && Busy(k') && k'.nextPid == k.nextPid && k'.boxes == k.boxes[c := []]
      && Dispatched(AfterExit(k, c, me, status).value.table, k'.table)
  {
    hide SchedInv, IdleInv, WakeFrom, Schedule, Woken, Dispatched, Busy, DispatchHalts, Q.Remove;
    CurrentRuns(k, c, me);
    var p := me.(state := Dead, exitStatus := status);
    var k1 := PutProc(k.(boxes := k.boxes[c := []]), c, p);
    var k2 := k1.(rq := Q.Remove(k1.rq, c));
    StopCurrent(k, c, p, k2);
    WakeOk(k2, me.pid, 0);
    ScheduleOk(AfterExit(k, c, me, status).value);
  }

  /** So does a blocking wait. */
  lemma BlockOk(k: Kernel, c: nat, me: Process, w: nat, rsp: nat, statusAt: nat)
    requires SchedInv(k) && k.current == Some(c) && c < 64 && k.table[c] == Some(me)
    requires FirstDead(k.table, w, 0).None?
    ensures IdleInv(AfterBlock(k, c, me, w, rsp))
    ensures DoWait(k, c, me, w, false, rsp, statusAt).Halt? <==> DispatchHalts(AfterBlock(k, c, me, w, rsp))
    ensures DoWait(k, c, me, w, false, rsp, statusAt).Next? ==>
      var k' := DoWait(k, c, me, w, false, rsp, statusAt).k;
      && SchedInv(k') && Busy(k') && k'.nextPid == k.nextPid && k'.boxes == k.boxes
      && Dispatched(k.table[c := Some(Sleeper(me, w, rsp))], k'.table)
  {
    hide SchedInv, IdleInv, Schedule, Dispatched, Busy, DispatchHalts, Q.Remove, UserRange;
    var k1 := AfterBlock(k, c, me, w, rsp);
    StopCurrent(k, c, Sleeper(me, w, rsp), k1);
    ScheduleOk(k1);
  }

  lemma ReapOk(k: Kernel, i: nat)
    requires SchedInv(k) && i < 64 && Is(k.table, i, Dead)
    ensures SchedInv(ReleaseSlot(k, i))
  {
    var k' := ReleaseSlot(k, i);
    forall j, s ensures Is(k'.table, j, s) <==> j != i && Is(k.table, j, s) {
    }
  }

  /** Calls that change only mailboxes, capabilities and labels. */
  predicate Quiet(call: Call) {
    !call.Spawn? && !call.Exit? && !call.Wait?
  }

  ghost predicate QuietChange(k: Kernel, k': Kernel) {
    && k' == k.(table := k'.table, boxes := k'.boxes)
    && forall i :: 0 <= i < 64 ==> Same(k.table[i], k'.table[i]) && (k.current == Some(i) || SamePages(k.table[i], k'.table[i]))
  }

  lemma PutQuiet(k: Kernel, i: nat, p: Process)
    requires i < 64 && Same(k.table[i], Some(p)) && (k.current == Some(i) || SamePages(k.table[i], Some(p)))
    ensures QuietChange(k, PutProc(k, i, p))
  {
  }

  lemma GrantQuiet(k: Kernel, me: Process, target: nat, bits: bv64)
    ensures DoGrant(k, me, target, bits).Next? && QuietChange(k, DoGrant(k, me, target, bits).k)
  {
    hide Has, AddBits, DropBits, CommonBits;
    if Has(me.caps, CAP_GRANT) {
      var i := IndexOf(k.table, target, 0);
      if i.Some? {
        var p := k.table[i.value].value;
        PutQuiet(k, i.value, p.(caps := AddBits(p.caps, CommonBits(me.caps, bits))));
      }
    }
  }

  lemma RevokeQuiet(k: Kernel, me: Process, target: nat, bits: bv64)
    ensures DoRevoke(k, me, target, bits).Next? && QuietChange(k, DoRevoke(k, me, target, bits).k)
  {
    hide Has, AddBits, DropBits, CommonBits;
    if Has(me.caps, CAP_GRANT) {
      var i := IndexOf(k.table, target, 0);
      if i.Some? {
        var p := k.table[i.value].value;
        PutQuiet(k, i.value, p.(caps := DropBits(p.caps, bits)));
      }
    }
  }

  lemma EndorseQuiet(k: Kernel, me: Process, target: nat, bits: bv64)
    ensures DoEndorse(k, me, target, bits).Next? && QuietChange(k, DoEndorse(k, me, target, bits).k)
  {
    hide Has, AddBits, DropBits, CommonBits;
    if Has(me.caps, CAP_ENDORSE) {
      var i := IndexOf(k.table, target, 0);
      if i.Some? {
        var p := k.table[i.value].value;
        PutQuiet(k, i.value, p.(flow := p.flow.(integrity := AddBits(p.flow.integrity, bits))));
      }
    }
  }

  lemma SendQuiet(k: Kernel, c: nat, me: Process, target: nat, body: nat)
    requires c < 64
    ensures DoSend(k, me, target, body).Next? && QuietChange(k, DoSend(k, me, target, body).k)
    ensures DoReceive(k, c, me).Next? && QuietChange(k, DoReceive(k, c, me).k)
  {
    hide Has, CanFlow;
  }

  lemma LabelQuiet(k: Kernel, c: nat, me: Process, a: bv64, b: bv64)
    requires c < 64 && k.table[c] == Some(me)
    ensures DoTaint(k, c, me, a, b).Next? && QuietChange(k, DoTaint(k, c, me, a, b).k)
    ensures DoDeclassify(k, c, me, a).Next? && QuietChange(k, DoDeclassify(k, c, me, a).k)
  {
    hide Has, AddBits, DropBits, CommonBits;
  }

  lemma QuietSame(k: Kernel, call: Call)
    requires Quiet(call)
    ensures Step(k, call).Next? && QuietChange(k, Step(k, call).k)
  {
    hide DoSend, DoReceive, DoGrant, DoRevoke, DoTaint, DoDeclassify, DoEndorse, QuietChange;
    QuietRefl(k);
    var cur := Current(k);
    if cur.Some? {
      var c, me := k.current.value, cur.value;
      match call {
        case Send(target, body) => SendQuiet(k, c, me, target, body);
        case Receive => SendQuiet(k, c, me, 0, 0);
        case Grant(target, bits) => GrantQuiet(k, me, target, bits);
        case Revoke(target, bits) => RevokeQuiet(k, me, target, bits);
        case Endorse(target, bits) => EndorseQuiet(k, me, target, bits);
        case Taint(add, remove) => LabelQuiet(k, c, me, add, remove);
        case Declassify(bits) => LabelQuiet(k, c, me, bits, 0);
        case Remap(pages) => PutQuiet(k, c, me.(pages := pages));
      }
    }
  }

  lemma QuietRefl(k: Kernel)
    ensures QuietChange(k, k)
  {
  }

  /** The kernel as the call leaves it to the scheduler, when it gives up the processor. */
  function HandsOver(k: Kernel, call: Call): (r: Option<Kernel>) {
    match Current(k)
    case None => None
    case Some(me) =>
      if call.Exit? then AfterExit(k, k.current.value, me, call.status)
      else if Blocks(k, call) then Some(AfterBlock(k, k.current.value, me, call.pid, call.rsp))
      else None
  }

  /** A wait that finds nothing to reap and may block. */
  predicate Blocks(k: Kernel, call: Call) {
    call.Wait? && !call.nohang && FirstDead(k.table, call.pid, 0).None?
  }

  /** A permitted spawn with a slot to spare whose program makes the loader halt. */
  predicate LoaderHalts(k: Kernel, call: Call) {
    && Current(k).Some? && call.Spawn? && call.load.LoadHalts? && call.known
    && Has(Current(k).value.caps, CAP_SPAWN) && FirstFree(k.table, 0).Some?
  }

  /** All that can halt the kernel: the loader, and a dispatch that picks a process whose saved
      stack pointer fails the checks. */
  predicate Halts(k: Kernel, call: Call) {
    LoaderHalts(k, call) || (HandsOver(k, call).Some? && DispatchHalts(HandsOver(k, call).value))
  }

  /** Every system call in every state of a run: when it halts, and that otherwise the table and
      the queue agree. */
  lemma StepOk(k: Kernel, call: Call)
    requires SchedInv(k)
    ensures Step(k, call).Halt? <==> Halts(k, call)
    ensures Step(k, call).Next? ==> SchedInv(Step(k, call).k)
  {
    var cur := Current(k);
    if Quiet(call) {
      hide Step;
      QuietSame(k, call);
      SameKeepsInv(k, Step(k, call).k);
    } else if cur.Some? {
      LoudOk(k, call, k.current.value, cur.value);
    }
  }

  lemma LoudOk(k: Kernel, call: Call, c: nat, me: Process)
    requires SchedInv(k) && !Quiet(call) && c < 64 && k.current == Some(c) && k.table[c] == Some(me)
    ensures Step(k, call).Halt? <==> Halts(k, call)
    ensures Step(k, call).Next? ==> SchedInv(Step(k, call).k)
  {
    hide SchedInv, IdleInv, Schedule, AfterExit, Has, DispatchHalts, UserRange, FirstFree, FirstDead;
    match call {
      case Spawn(mask, known, load) =>
        SpawnOk(k, c, me, mask, known, load);
      case Exit(status) => ExitOk(k, c, me, status);
      case Wait(w, nohang, rsp, statusAt) =>
        var dead := FirstDead(k.table, w, 0);
        if dead.Some? {
          DeadFound(k.table, w);
          ReapOk(k, dead.value);
        } else if !nohang {
          BlockOk(k, c, me, w, rsp, statusAt);
        }
    }
  }

  lemma DeadFound(t: Table, w: nat)
    requires FirstDead(t, w, 0).Some?
    ensures FirstDead(t, w, 0).value < 64 && Is(t, FirstDead(t, w, 0).value, Dead)
  {
  }

  lemma SpawnOk(k: Kernel, c: nat, me: Process, mask: bv64, known: bool, load: Load)
    requires SchedInv(k) && c < 64 && k.current == Some(c) && k.table[c] == Some(me)
    ensures var o := DoSpawn(k, me, mask, known, load);
      && (o.Halt? <==> LoaderHalts(k, Spawn(mask, known, load)))
      && (o.Next? ==> SchedInv(o.k))
  {
    hide SchedInv, Has, ChildCaps, EnqueueProc, Newborn;
    CreateOk(k, ChildCaps(me.caps, mask), me.flow, load);
  }

  // ----- waiting and waking -----

  /** Reaping and waking read the waitpid argument alike, except 0. */
  lemma MatchesDifferOnZero(w: nat, pid: nat)
    requires 1 <= pid
    ensures (ReapMatches(w, pid) <==> WakeMatches(w, pid)) <==> w != 0
  {
  }

  // ----- how one call changes one slot -----

  /** The ways a call of process `me` can change a slot from a to b; `mine` is its own slot. */
  predicate Evolves(nextPid: nat, call: Call, me: Process, mine: bool, a: Option<Process>, b: Option<Process>) {
    || a == b
    || (Quiet(call) && Same(a, b) && (mine || SamePages(a, b)))
    || (call.Spawn? && a.None? && Has(me.caps, CAP_SPAWN) && call.load.Loads?
        && b == Some(Newborn(nextPid, ChildCaps(me.caps, call.mask), me.flow, call.load.pages)))
    || (call.Exit? && mine && b == Some(me.(state := Dead, exitStatus := call.status)))
    || (call.Exit? && !mine && WokenBy(me.pid, a, b))
    || ((call.Exit? || call.Wait?) && !mine && a.Some? && a.value.state == Runnable && Resumable(a.value)
        && b == Some(a.value.(state := Running)))
    || (call.Wait? && mine && !call.nohang && b == Some(Sleeper(me, call.pid, call.rsp)))
    || (call.Wait? && a.Some? && a.value.state == Dead && ReapMatches(call.pid, a.value.pid) && b.None?)
  }

  predicate WokenBy(pid: nat, a: Option<Process>, b: Option<Process>) {
    && a.Some? && a.value.state == Blocked && a.value.waitingFor.Some? && WakeMatches(a.value.waitingFor.value, pid)
    && b.Some? && (b.value.state == Runnable || (b.value.state == Running && Resumable(a.value)))
    && b.value == a.value.(state := b.value.state, waitingFor := None)
  }

  /** A call of the running process, and what it does to every slot. */
  ghost predicate CallBy(k: Kernel, call: Call, c: nat, me: Process, k': Kernel) {
    && c < 64 && k.current == Some(c) && k.table[c] == Some(me)
    && Step(k, call).Next? && k' == Step(k, call).k
  }

  ghost predicate Evolution(k: Kernel, call: Call, c: nat, me: Process, k': Kernel) {
    forall i :: 0 <= i < 64 ==> Evolves(k.nextPid, call, me, i == c, k.table[i], k'.table[i])
  }

  lemma ExitEvolves(k: Kernel, call: Call, c: nat, me: Process, k': Kernel)
    requires SchedInv(k) && call.Exit? && CallBy(k, call, c, me, k')
    ensures Evolution(k, call, c, me, k')
    ensures Is(k'.table, c, Dead)
    ensures forall i :: Is(k'.table, i, Blocked) ==> !Concerned(k'.table, me.pid, i)
    ensures k'.boxes == k.boxes[c := []] && k'.nextPid == k.nextPid
  {
    ExitOk(k, c, me, call.status);
    var t0 := k.table[c := Some(me.(state := Dead, exitStatus := call.status))];
    ExitSlots(k.table, t0, AfterExit(k, c, me, call.status).value.table, k'.table, c, me, call.status);
    forall i | 0 <= i < 64 ensures Evolves(k.nextPid, call, me, i == c, k.table[i], k'.table[i]) {
    }
  }

  lemma ExitSlots(t: Table, t0: Table, t1: Table, t2: Table, c: nat, me: Process, status: Option<int>)
    requires c < 64 && t0 == t[c := Some(me.(state := Dead, exitStatus := status))]
    requires Woken(t0, t1, me.pid, 0) && Dispatched(t1, t2)
    ensures t2[c] == t0[c]
    ensures forall i :: 0 <= i < 64 && i != c ==>
      || t2[i] == t[i] || WokenBy(me.pid, t[i], t2[i])
      || (Is(t, i, Runnable) && Resumable(t[i].value) && t2[i] == Some(t[i].value.(state := Running)))
    ensures forall i :: Is(t2, i, Blocked) ==> !Concerned(t2, me.pid, i)
  {
    forall i | Is(t2, i, Blocked) ensures !Concerned(t2, me.pid, i) {
      assert t2[i] == t1[i];
      assert t1[i] == t0[i] && !Concerned(t0, me.pid, i);
    }
    forall i | 0 <= i < 64 && i != c
      ensures || t2[i] == t[i] || WokenBy(me.pid, t[i], t2[i])
              || (Is(t, i, Runnable) && Resumable(t[i].value) && t2[i] == Some(t[i].value.(state := Running)))
    {
      assert t1[i] == if Concerned(t0, me.pid, i) then Some(t0[i].value.(state := Runnable, waitingFor := None)) else t0[i];
    }
  }

  lemma WaitEvolves(k: Kernel, call: Call, c: nat, me: Process, k': Kernel)
    requires SchedInv(k) && call.Wait? && CallBy(k, call, c, me, k')
    ensures Evolution(k, call, c, me, k')
    ensures Is(k'.table, c, Blocked) ==> forall j :: Is(k.table, j, Dead) ==> !ReapMatches(call.pid, k.table[j].value.pid)
    ensures Is(k'.table, c, Blocked) || k'.table[c] == Some(me)
    ensures k'.boxes == k.boxes && k'.nextPid == k.nextPid
  {
    hide SchedInv, IdleInv, Schedule, DispatchHalts, Resumable, UserRange;
    CurrentRuns(k, c, me);
    var dead := FirstDead(k.table, call.pid, 0);
    if dead.None? && !call.nohang {
      BlockOk(k, c, me, call.pid, call.rsp, call.statusAt);
    }
  }

  lemma SpawnEvolves(k: Kernel, call: Call, c: nat, me: Process, k': Kernel)
    requires SchedInv(k) && call.Spawn? && CallBy(k, call, c, me, k')
    ensures Evolution(k, call, c, me, k')
    ensures k'.boxes == k.boxes && k'.nextPid >= k.nextPid
    ensures k'.table == k.table || k'.nextPid == k.nextPid + 1
  {
    CreateOk(k, ChildCaps(me.caps, call.mask), me.flow, call.load);
  }

  /** Every call changes every slot in one of the ways above. */
  lemma StepEvolves(k: Kernel, call: Call, c: nat, me: Process, k': Kernel)
    requires SchedInv(k) && CallBy(k, call, c, me, k')
    ensures Evolution(k, call, c, me, k') && k'.nextPid >= k.nextPid
    ensures forall i :: 0 <= i < 64 && k.table[i] != k'.table[i] && k.table[i].None? ==> k'.nextPid == k.nextPid + 1
  {
    if Quiet(call) {
      QuietSame(k, call);
    } else {
      match call {
        case Spawn(mask, known, load) => SpawnEvolves(k, call, c, me, k');
        case Exit(status) => ExitEvolves(k, call, c, me, k');
        case Wait(w, nohang, rsp, statusAt) => WaitEvolves(k, call, c, me, k');
      }
    }
  }

  // ----- no lost wake-up -----

  /** No process is blocked on a process that is already dead, or on any while one is dead;
      waiting on 0 is excepted. */
  ghost predicate NoMissedWake(k: Kernel) {
    forall i, j :: Is(k.table, i, Blocked) && Is(k.table, j, Dead) ==>
      k.table[i].value.waitingFor == Some(0) || !Concerned(k.table, k.table[j].value.pid, i)
  }

  lemma NewbornLives(pid: nat, call: Call, me: Process)
    ensures call.Spawn? && call.load.Loads? ==>
      Newborn(pid, ChildCaps(me.caps, call.mask), me.flow, call.load.pages).state == Runnable
  {
    hide ChildCaps;
  }

  lemma StepMissesNothing(k: Kernel, call: Call, c: nat, me: Process, k': Kernel)
    requires SchedInv(k) && NoMissedWake(k) && CallBy(k, call, c, me, k')
    ensures NoMissedWake(k')
  {
    hide SchedInv, Step, Has, ChildCaps, Newborn, Resumable;
    CurrentRuns(k, c, me);
    NewbornLives(k.nextPid, call, me);
    StepEvolves(k, call, c, me, k');
    if call.Exit? {
      ExitEvolves(k, call, c, me, k');
    } else if call.Wait? {
      WaitEvolves(k, call, c, me, k');
    }
    forall i, j | Is(k'.table, i, Blocked) && Is(k'.table, j, Dead)
      ensures k'.table[i].value.waitingFor == Some(0) || !Concerned(k'.table, k'.table[j].value.pid, i)
    {
      assert Evolves(k.nextPid, call, me, i == c, k.table[i], k'.table[i]);
      assert Evolves(k.nextPid, call, me, j == c, k.table[j], k'.table[j]);
      if call.Exit? && j == c {
        assert k'.table[c].value.pid == me.pid;
      } else if call.Wait? && i == c {
        assert Is(k.table, j, Dead) && !ReapMatches(call.pid, k.table[j].value.pid);
      } else {
        assert Is(k.table, i, Blocked) && Is(k.table, j, Dead);
      }
    }
  }

  /** Slot i is process `pid`, blocked in waitpid(0). */
  ghost predicate StuckOnZero(k: Kernel, i: nat, pid: nat) {
    Is(k.table, i, Blocked) && k.table[i].value.waitingFor == Some(0) && k.table[i].value.pid == pid
  }

  /** A process blocked in waitpid(0) is never woken: no exit reaches it and no call frees it. */
  lemma ZeroStaysStuck(k: Kernel, call: Call, c: nat, me: Process, k': Kernel, i: nat, pid: nat)
    requires SchedInv(k) && CallBy(k, call, c, me, k') && StuckOnZero(k, i, pid)
    ensures StuckOnZero(k', i, pid)
  {
    StepEvolves(k, call, c, me, k');
    assert Evolves(k.nextPid, call, me, i == c, k.table[i], k'.table[i]);
    assert Is(k.table, c, Running) && i != c;
    assert me.pid >= 1;
  }

  /** An exit that a blocked process waits for wakes it if and only if it does not wait on 0. */
  lemma ExitWakesIff(k: Kernel, call: Call, c: nat, me: Process, k': Kernel, i: nat, w: nat)
    requires SchedInv(k) && call.Exit? && CallBy(k, call, c, me, k')
    requires Is(k.table, i, Blocked) && k.table[i].value.waitingFor == Some(w) && ReapMatches(w, me.pid)
    ensures !Is(k'.table, i, Blocked) <==> w != 0
  {
    ExitEvolves(k, call, c, me, k');
    assert Is(k.table, c, Running) && i != c && me.pid >= 1;
    assert Evolves(k.nextPid, call, me, false, k.table[i], k'.table[i]);
    assert Is(k'.table, i, Blocked) ==> !Concerned(k'.table, me.pid, i);
  }

  // ----- exit statuses -----

  /** The kernel with its past: the status each process exited with, and what was reaped. */
  datatype World = World(k: Kernel, exits: map<nat, Option<int>>, reaps: seq<(nat, Option<int>)>)

  /** A zombie holds the status it exited with and was not reaped; a live process has not exited. */
  ghost predicate SlotStatus(exits: map<nat, Option<int>>, reaps: seq<(nat, Option<int>)>, q: Process) {
    if q.state == Dead
    then q.pid in exits && exits[q.pid] == q.exitStatus && forall n :: 0 <= n < |reaps| ==> reaps[n].0 != q.pid
    else q.pid !in exits
  }

  /** Everything reaped exited with the status it was reaped with, and nothing is reaped twice. */
  ghost predicate ReapsOnce(exits: map<nat, Option<int>>, reaps: seq<(nat, Option<int>)>) {
    && (forall n :: 0 <= n < |reaps| ==> reaps[n].0 in exits && exits[reaps[n].0] == reaps[n].1)
    && (forall m, n :: 0 <= m < n < |reaps| ==> reaps[m].0 != reaps[n].0)
  }

  ghost predicate StatusInv(w: World) {
    && (forall p :: p in w.exits ==> p < w.k.nextPid)
    && (forall i :: 0 <= i < 64 && w.k.table[i].Some? ==> SlotStatus(w.exits, w.reaps, w.k.table[i].value))
    && ReapsOnce(w.exits, w.reaps)
  }

  function Record(w: World, call: Call): (r: World)
    requires Step(w.k, call).Next?
  {
    var me := Current(w.k);
    var Next(k', reply) := Step(w.k, call);
    World(k',
          if me.Some? && call.Exit? then w.exits[me.value.pid := call.status] else w.exits,
          if reply.Reaped? then w.reaps + [(reply.pid, reply.status)] else w.reaps)
  }

  lemma QuietReply(k: Kernel, call: Call)
    requires Quiet(call)
    ensures Step(k, call).Next? && !Step(k, call).reply.Reaped?
  {
    hide Has, AddBits, DropBits, CommonBits, CanFlow, IndexOf;
  }

  lemma ReplyIsReap(k: Kernel, call: Call, c: nat, me: Process, k': Kernel)
    requires SchedInv(k) && CallBy(k, call, c, me, k')
    ensures var reply := Step(k, call).reply;
      reply.Reaped? ==>
        call.Wait? && exists i :: Is(k.table, i, Dead) && k' == ReleaseSlot(k, i)
                                  && reply == Reaped(k.table[i].value.pid, k.table[i].value.exitStatus)
  {
    hide SchedInv, Has, UserRange, Schedule;
    if Quiet(call) {
      QuietSame(k, call);
      QuietReply(k, call);
    } else {
      match call {
        case Spawn(mask, known, load) => CreateOk(k, ChildCaps(me.caps, call.mask), me.flow, call.load);
        case Exit(status) =>
        case Wait(w, nohang, rsp, statusAt) =>
          var dead := FirstDead(k.table, w, 0);
          if dead.Some? {
            assert Is(k.table, dead.value, Dead) && k' == ReleaseSlot(k, dead.value);
          }
      }
    }
  }

  lemma OrdinaryKeepsStatus(w: World, call: Call, c: nat, me: Process, k': Kernel)
    requires TableOk(w.k) && StatusInv(w) && !call.Exit?
    requires c < 64 && w.k.table[c] == Some(me) && me.state == Running
    requires Evolution(w.k, call, c, me, k') && k'.nextPid >= w.k.nextPid
    ensures StatusInv(w.(k := k'))
  {
    forall i | 0 <= i < 64 && k'.table[i].Some? ensures SlotStatus(w.exits, w.reaps, k'.table[i].value) {
      assert Evolves(w.k.nextPid, call, me, i == c, w.k.table[i], k'.table[i]);
      assert SlotStatus(w.exits, w.reaps, me);
    }
  }

  lemma ExitKeepsStatus(w: World, call: Call, c: nat, me: Process, k': Kernel)
    requires TableOk(w.k) && StatusInv(w) && call.Exit?
    requires c < 64 && w.k.table[c] == Some(me) && me.state == Running
    requires Evolution(w.k, call, c, me, k') && k'.nextPid >= w.k.nextPid && Is(k'.table, c, Dead)
    ensures StatusInv(World(k', w.exits[me.pid := call.status], w.reaps))
  {
    var exits := w.exits[me.pid := call.status];
    assert SlotStatus(w.exits, w.reaps, me);
    forall i | 0 <= i < 64 && k'.table[i].Some? ensures SlotStatus(exits, w.reaps, k'.table[i].value) {
      assert Evolves(w.k.nextPid, call, me, i == c, w.k.table[i], k'.table[i]);
      if i != c {
        assert w.k.table[i].value.pid != me.pid;
      }
    }
  }

  lemma ReapKeepsStatus(w: World, i: nat)
    requires TableOk(w.k) && StatusInv(w) && Is(w.k.table, i, Dead)
    ensures var q := w.k.table[i].value;
      StatusInv(World(ReleaseSlot(w.k, i), w.exits, w.reaps + [(q.pid, q.exitStatus)]))
  {
    var q := w.k.table[i].value;
    var reaps := w.reaps + [(q.pid, q.exitStatus)];
    assert SlotStatus(w.exits, w.reaps, q);
    forall j | 0 <= j < 64 && j != i && w.k.table[j].Some? ensures SlotStatus(w.exits, reaps, w.k.table[j].value) {
      assert w.k.table[j].value.pid != q.pid;
      assert SlotStatus(w.exits, w.reaps, w.k.table[j].value);
    }
  }

  /** Each exit status is reaped at most once, with the value given at exit. */
  lemma RecordKeepsStatus(w: World, call: Call, c: nat, me: Process, k': Kernel)
    requires SchedInv(w.k) && StatusInv(w) && CallBy(w.k, call, c, me, k')
    ensures StatusInv(Record(w, call))
  {
    StepEvolves(w.k, call, c, me, k');
    ReplyIsReap(w.k, call, c, me, k');
    var reply := Step(w.k, call).reply;
    if call.Exit? {
      ExitEvolves(w.k, call, c, me, k');
      ExitKeepsStatus(w, call, c, me, k');
    } else if reply.Reaped? {
      var i :| Is(w.k.table, i, Dead) && k' == ReleaseSlot(w.k, i)
               && reply == Reaped(w.k.table[i].value.pid, w.k.table[i].value.exitStatus);
      ReapKeepsStatus(w, i);
    } else {
      OrdinaryKeepsStatus(w, call, c, me, k');
    }
  }

  // ----- whole runs from boot -----

  ghost predicate WorldInv(w: World) {
    SchedInv(w.k) && NoMissedWake(w.k) && StatusInv(w)
  }

  lemma CurrentCalls(k: Kernel, call: Call)
    requires SchedInv(k) && k.current.Some? && Step(k, call).Next?
    ensures k.current.value < 64 && k.table[k.current.value].Some?
    ensures CallBy(k, call, k.current.value, k.table[k.current.value].value, Step(k, call).k)
  {
    hide Step;
  }

  lemma RecordKeepsWorld(w: World, call: Call)
    requires WorldInv(w) && Step(w.k, call).Next?
    ensures WorldInv(Record(w, call))
  {
    hide SchedInv, NoMissedWake, StatusInv, Step, CallBy;
    StepOk(w.k, call);
    if w.k.current.Some? {
      CurrentCalls(w.k, call);
      var c := w.k.current.value;
      var me, k' := w.k.table[c].value, Step(w.k, call).k;
      StepMissesNothing(w.k, call, c, me, k');
      RecordKeepsStatus(w, call, c, me, k');
    } else {
      IdleRecords(w, call);
    }
  }

  lemma IdleRecords(w: World, call: Call)
    requires w.k.current.None?
    ensures Step(w.k, call).Next? && Record(w, call) == w
  {
  }

  /** The state after a run of calls; None is a halt. */
  function RunCalls(w: World, calls: seq<Call>): (r: Option<World>)
    decreases |calls|
  {
    if calls == [] then Some(w)
    else if Step(w.k, calls[0]).Halt? then None
    else RunCalls(Record(w, calls[0]), calls[1..])
  }

  /** Every state a run passes through satisfies the invariants. */
  lemma {:induction false} RunKeepsWorld(w: World, calls: seq<Call>)
    requires WorldInv(w)
    ensures RunCalls(w, calls).Some? ==> WorldInv(RunCalls(w, calls).value)
    decreases |calls|
  {
    hide WorldInv, Step, Record;
    if calls != [] && Step(w.k, calls[0]).Next? {
      RecordKeepsWorld(w, calls[0]);
      RunKeepsWorld(Record(w, calls[0]), calls[1..]);
    }
  }

  /** Call n of the run is reached and halts the kernel. */
  ghost predicate HaltsAt(w: World, calls: seq<Call>, n: int) {
    && 0 <= n < |calls|
    && RunCalls(w, calls[..n]).Some? && Halts(RunCalls(w, calls[..n]).value.k, calls[n])
  }

  /** A run halts if and only if one of its calls makes the loader halt or hands over to a process
      whose saved stack pointer fails the checks. */
  lemma {:induction false} RunHaltsIff(w: World, calls: seq<Call>)
    requires WorldInv(w)
    ensures RunCalls(w, calls).None? <==> exists n :: HaltsAt(w, calls, n)
    decreases |calls|
  {
    hide WorldInv, SchedInv, Step, Record, Halts;
    if calls == [] {
      assert forall n :: !HaltsAt(w, calls, n);
    } else {
      WorldIsScheduled(w);
      StepOk(w.k, calls[0]);
      assert calls[..0] == [];
      if Step(w.k, calls[0]).Halt? {
        assert HaltsAt(w, calls, 0);
      } else {
        var w1, rest := Record(w, calls[0]), calls[1..];
        RecordKeepsWorld(w, calls[0]);
        RunHaltsIff(w1, rest);
        assert !HaltsAt(w, calls, 0);
        forall n | 1 <= n <= |rest| ensures HaltsAt(w, calls, n) <==> HaltsAt(w1, rest, n - 1) {
          ShiftRun(w, calls, n);
        }
        if n :| HaltsAt(w1, rest, n) {
          assert HaltsAt(w, calls, n + 1);
        }
      }
    }
  }

  lemma ShiftRun(w: World, calls: seq<Call>, n: nat)
    requires 1 <= n < |calls| && Step(w.k, calls[0]).Next?
    ensures RunCalls(w, calls[..n]) == RunCalls(Record(w, calls[0]), calls[1..][..n - 1])
    ensures calls[n] == calls[1..][n - 1]
  {
    hide Step, Record;
    assert calls[..n][0] == calls[0] && calls[..n][1..] == calls[1..][..n - 1];
  }

  lemma WorldIsScheduled(w: World)
    requires WorldInv(w)
    ensures SchedInv(w.k)
  {
  }

  /** A process blocked in waitpid(0) is blocked in every later state of the run. */
  lemma {:induction false} ZeroStuckForever(w: World, calls: seq<Call>, i: nat, pid: nat)
    requires WorldInv(w) && StuckOnZero(w.k, i, pid)
    ensures RunCalls(w, calls).Some? ==> StuckOnZero(RunCalls(w, calls).value.k, i, pid)
    decreases |calls|
  {
    hide Step, SchedInv, NoMissedWake, StatusInv, CallBy, StuckOnZero;
    if calls != [] && Step(w.k, calls[0]).Next? {
      RecordKeepsWorld(w, calls[0]);
      if w.k.current.Some? {
        CurrentCalls(w.k, calls[0]);
        var c := w.k.current.value;
        ZeroStaysStuck(w.k, calls[0], c, w.k.table[c].value, Step(w.k, calls[0]).k, i, pid);
      } else {
        IdleRecords(w, calls[0]);
      }
      ZeroStuckForever(Record(w, calls[0]), calls[1..], i, pid);
    }
  }

  // ----- a status that is lost -----

  /** A wait with something to reap frees its slot in any case, and tells the caller the status if
      and only if the address for it is 0 or valid. */
  lemma ReapTellsIff(k: Kernel, call: Call, c: nat, me: Process, k': Kernel)
    requires CallBy(k, call, c, me, k') && call.Wait? && FirstDead(k.table, call.pid, 0).Some?
    ensures var i := FirstDead(k.table, call.pid, 0).value;
      && k' == ReleaseSlot(k, i)
      && (Step(k, call).reply == Reaped(k.table[i].value.pid, k.table[i].value.exitStatus)
          <==> call.statusAt == 0
               || (call.statusAt + 4 <= 0x8000_0000_0000 && call.statusAt / 4096 in me.pages
                   && (call.statusAt + 3) / 4096 in me.pages))
  {
    hide UserRange, FirstDead;
    WordRange(me.pages, call.statusAt);
  }

  /** Process `pid` has existed and is no longer in the table. */
  ghost predicate Gone(k: Kernel, pid: nat) {
    pid < k.nextPid && forall i :: 0 <= i < 64 && k.table[i].Some? ==> k.table[i].value.pid != pid
  }

  lemma ReapedIsGone(k: Kernel, i: nat)
    requires SchedInv(k) && i < 64 && k.table[i].Some?
    ensures Gone(ReleaseSlot(k, i), k.table[i].value.pid)
  {
  }

  lemma StepKeepsGone(k: Kernel, call: Call, c: nat, me: Process, k': Kernel, pid: nat)
    requires SchedInv(k) && CallBy(k, call, c, me, k') && Gone(k, pid)
    ensures Gone(k', pid) && (Step(k, call).reply.Reaped? ==> Step(k, call).reply.pid != pid)
  {
    hide SchedInv, Step, Has, ReapMatches, WakeMatches;
    StepEvolves(k, call, c, me, k');
    ReplyIsReap(k, call, c, me, k');
    forall i | 0 <= i < 64 && k'.table[i].Some? ensures k'.table[i].value.pid != pid {
      assert Evolves(k.nextPid, call, me, i == c, k.table[i], k'.table[i]);
    }
  }

  /** Once a process is gone no later wait reports it: a status not told when it was reaped is lost. */
  lemma {:induction false} GoneIsNeverTold(w: World, calls: seq<Call>, pid: nat)
    requires WorldInv(w) && Gone(w.k, pid)
    ensures RunCalls(w, calls).Some? ==>
      var w' := RunCalls(w, calls).value;
      && Gone(w'.k, pid) && w.reaps <= w'.reaps
      && forall n :: |w.reaps| <= n < |w'.reaps| ==> w'.reaps[n].0 != pid
    decreases |calls|
  {
    hide Step, SchedInv, NoMissedWake, StatusInv, CallBy, Gone;
    if calls != [] && Step(w.k, calls[0]).Next? {
      RecordKeepsWorld(w, calls[0]);
      if w.k.current.Some? {
        CurrentCalls(w.k, calls[0]);
        var c := w.k.current.value;
        StepKeepsGone(w.k, calls[0], c, w.k.table[c].value, Step(w.k, calls[0]).k, pid);
      } else {
        IdleRecords(w, calls[0]);
      }
      GoneIsNeverTold(Record(w, calls[0]), calls[1..], pid);
    }
  }

  lemma EmptyKernelInv()
    ensures SchedInv(EmptyKernel())
  {
    var q := EmptyKernel().rq;
    R.EmptyQueueInv();
    assert forall s, i: nat :: !Holds(q, s, i);
  }

  /** Boot succeeds, and the first process runs while still on the runqueue. */
  lemma BootOk(caps: bv64, flow: Label, pages: Pages)
    ensures Boot(caps, flow, pages).Some?
    ensures var k := Boot(caps, flow, pages).value;
      && WorldInv(World(k, map[], [])) && k.current == Some(0) && OnQueue(k.rq, 0) && k.nextPid == 2
      && k.boxes == EmptyKernel().boxes
      && k.table[0] == Some(Newborn(1, caps, flow, pages).(state := Running))
      && forall i :: 1 <= i < 64 ==> k.table[i].None?
  {
    hide SchedInv, WorldInv, FirstFree, OnQueue, EnqueueProc, RunProcess, Newborn, Resumable;
    EmptyKernelInv();
    CreateOk(EmptyKernel(), caps, flow, Loads(pages));
    FirstSlotFree();
    NewbornIs(1, caps, flow, pages);
    BootRuns(Create(EmptyKernel(), caps, flow, Loads(pages)).k, 0);
  }

  lemma FirstSlotFree()
    ensures FirstFree(EmptyKernel().table, 0) == Some(0) && !EmptyKernel().stackUsed[0]
  {
  }

  /** Entering the only process of a kernel, which stays queued. */
  lemma BootRuns(k: Kernel, c: nat)
    requires SchedInv(k) && k.current.None? && Is(k.table, c, Runnable) && Resumable(k.table[c].value)
    requires forall i :: 0 <= i < 64 && i != c ==> k.table[i].None?
    ensures RunProcess(k, c).Some?
    ensures var k' := RunProcess(k, c).value;
      && WorldInv(World(k', map[], [])) && k'.current == Some(c) && OnQueue(k'.rq, c) && k'.boxes == k.boxes
      && k'.nextPid == k.nextPid && k'.table == k.table[c := Some(k.table[c].value.(state := Running))]
  {
    hide Resumable;
    var k' := RunProcess(k, c).value;
    forall i, s ensures Is(k'.table, i, s) <==> i == c && s == Running {
    }
  }
}
