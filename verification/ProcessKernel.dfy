// The process table as the kernel runs it: slots, stack flags, runqueue and mailboxes updated in
// place by scanning loops. Each method is proved against the functions of module Processes.
// A result of false, or None where a reply is expected, is a kernel halt.

module ProcessKernel {
  import opened Options
  import opened Numbers
  import opened UserStacks
  import opened Processes
  import opened EevdfRunQueue
  import opened MailRings
  import opened ProcessRuns
  import opened SavedFrames
  import Q = Eevdf

  /** The method's answer and new state are what the specification says; None is a halt. */
  ghost predicate Agrees(o: Outcome, k: Kernel, r: Option<Reply>) {
    match o
    case Halt => r == None
    case Next(k', reply) => r == Some(reply) && k == k'
  }

  lemma HaltsOnly(k: Kernel, call: Call)
    ensures SchedInv(k) ==> (Step(k, call).Halt? <==> Halts(k, call)) && (Step(k, call).Next? ==> SchedInv(Step(k, call).k))
    ensures SchedInv(k) && FramesOk(k) ==> (Step(k, call).Halt? <==> LoaderHalts(k, call))
  {
    hide *;
    if SchedInv(k) {
      StepOk(k, call);
      if FramesOk(k) {
        GoodFramesHaltIff(k, call);
      }
    }
  }

  /** Every page of the buffer is mapped, checked page by page. */
  method ValidateUserRange(pages: Pages, ptr: nat, len: nat) returns (ok: bool)
    ensures ok == UserRange(pages, ptr, len)
  {
    if len == 0 {
      return true;
    }
    if ptr + len > USER_VA_MAX || len > MAX_USER_COPY {
      return false;
    }
    var page, last := ptr / 4096, (ptr + len - 1) / 4096;
    while page <= last
      invariant ptr / 4096 <= page <= last + 1
      invariant forall p :: ptr / 4096 <= p < page ==> p in pages
    {
      if page !in pages {
        return false;
      }
      page := page + 1;
    }
    ok := true;
  }

  /** The checks made on a saved stack pointer, one by one. */
  method CheckStack(pages: Pages, rsp: nat) returns (ok: bool)
    ensures ok == Enterable(pages, rsp)
  {
    if rsp > USER_STACK_TOP {
      return false;
    }
    if rsp % 16 != 0 {
      return false;
    }
    var page := Sub(rsp, 8) / 4096;
    if page !in pages {
      return false;
    }
    if !pages[page].user {
      return false;
    }
    ok := pages[page].writable;
  }

  class KernelState {
    const slots: array<Option<Process>>
    const stacks: array<bool>
    const queue: RunQueue
    const mail: IpcQueues
    var nextPid: nat
    var current: Option<nat>

    ghost function Footprint(): set<object> {
      {this, slots, stacks, queue, queue.tasks, mail.buf, mail.head, mail.tail, mail.len}
    }

    ghost predicate Valid()
      reads Footprint()
    {
      slots.Length == 64 && stacks.Length == 64 && queue.Valid() && mail.Valid()
    }

    ghost function St(): Kernel
      requires Valid()
      reads Footprint()
    {
      Kernel(slots[..], nextPid, current, stacks[..], queue.St(), mail.Boxes())
    }

    constructor ()
      ensures Valid() && fresh(Footprint()) && St() == EmptyKernel()
    {
      slots := new Option<Process>[64](_ => None);
      stacks := new bool[64](_ => false);
      queue := new RunQueue();
      mail := new IpcQueues();
      nextPid, current := 1, None;
      new;
      assert slots[..] == EmptyKernel().table && stacks[..] == EmptyKernel().stackUsed;
    }

    // ----- scans -----

    method FindFree() returns (r: Option<nat>)
      requires Valid()
      ensures r == FirstFree(St().table, 0)
    {
      for i := 0 to 64
        invariant FirstFree(St().table, 0) == FirstFree(St().table, i)
      {
        if slots[i].None? {
          return Some(i);
        }
      }
      r := None;
    }

    method IndexOfPid(pid: nat) returns (r: Option<nat>)
      requires Valid()
      ensures r == IndexOf(St().table, pid, 0)
    {
      for i := 0 to 64
        invariant IndexOf(St().table, pid, 0) == IndexOf(St().table, pid, i)
      {
        if slots[i].Some? && slots[i].value.pid == pid {
          return Some(i);
        }
      }
      r := None;
    }

    method ReapDead(w: nat) returns (r: Option<(nat, Option<int>)>)
      requires Valid()
      modifies slots, stacks
      ensures Valid()
      ensures match FirstDead(old(St()).table, w, 0)
        case None => r == None && St() == old(St())
        case Some(i) =>
          var p := old(St()).table[i].value;
          r == Some((p.pid, p.exitStatus)) && St() == ReleaseSlot(old(St()), i)
    {
      ghost var k := St();
      var any := w == 0 || w == ANY_PID;
      for i := 0 to 64
        invariant St() == k && FirstDead(k.table, w, 0) == FirstDead(k.table, w, i)
      {
        if slots[i].Some? && slots[i].value.state == Dead && (any || slots[i].value.pid == w) {
          r := Some((slots[i].value.pid, slots[i].value.exitStatus));
          Release(i);
          return;
        }
      }
      r := None;
    }

    method Release(i: nat)
      requires Valid() && i < 64
      modifies slots, stacks
      ensures Valid() && St() == ReleaseSlot(old(St()), i)
    {
      ghost var k := St();
      stacks[i] := false;
      slots[i] := None;
      assert stacks[..] == k.stackUsed[i := false] && slots[..] == k.table[i := None];
    }

    method Put(i: nat, p: Process)
      requires Valid() && i < 64
      modifies slots
      ensures Valid() && St() == PutProc(old(St()), i, p)
    {
      ghost var k := St();
      slots[i] := Some(p);
      assert slots[..] == k.table[i := Some(p)];
    }

    // ----- scheduling -----

    method EnqueueRunqueue(i: nat) returns (ok: bool)
      requires Valid() && i < 64
      modifies queue, queue.tasks
      ensures Valid()
      ensures ok <==> EnqueueProc(old(St()), i).Some?
      ensures ok ==> St() == EnqueueProc(old(St()), i).value
    {
      var nice := if slots[i].Some? then slots[i].value.nice else 0;
      ok := queue.EnqueueTask(i, nice);
    }

    method WakeWaitersFor(pid: nat) returns (ok: bool)
      requires Valid()
      modifies slots, queue, queue.tasks
      ensures Valid()
      ensures ok <==> WakeFrom(old(St()), pid, 0).Some?
      ensures ok ==> St() == WakeFrom(old(St()), pid, 0).value
    {
      ghost var k := St();
      for i := 0 to 64
        invariant Valid() && WakeFrom(k, pid, 0) == WakeFrom(St(), pid, i)
      {
        if slots[i].Some? && slots[i].value.state == Blocked && slots[i].value.waitingFor.Some? {
          var w := slots[i].value.waitingFor.value;
          if w == pid || w == ANY_PID {
            Put(i, slots[i].value.(state := Runnable, waitingFor := None));
            ok := EnqueueRunqueue(i);
            if !ok {
              return;
            }
          }
        }
      }
      ok := true;
    }

    method RunFirst(i: nat) returns (ok: bool)
      requires Valid()
      modifies slots, `current
      ensures Valid()
      ensures ok <==> RunProcess(old(St()), i).Some?
      ensures ok ==> St() == RunProcess(old(St()), i).value
    {
      if i >= 64 || slots[i].None? {
        return false;
      }
      var p := slots[i].value;
      current := Some(i);
      Put(i, p.(state := Running));
      ok := CheckStack(p.pages, p.rsp);
    }

    method ScheduleNext() returns (ok: bool)
      requires Valid()
      modifies slots, `current, queue, queue.tasks
      ensures Valid()
      ensures ok <==> Schedule(old(St())).Some?
      ensures ok ==> St() == Schedule(old(St())).value
    {
      current := None;
      var next := queue.DequeueTask();
      if next.None? {
        return true;
      }
      ok := RunFirst(next.value);
    }

    // ----- process creation and system calls -----

    /** None is a halt, Some(None) a failed creation. */
    method CreateUserProcess(caps: bv64, flow: Label, load: Load) returns (r: Option<Option<nat>>)
      requires Valid()
      modifies `nextPid, slots, stacks, queue, queue.tasks
      ensures Valid()
      ensures match Create(old(St()), caps, flow, load)
        case Failed(k') => r == Some(None) && St() == k'
        case Created(k', i) => r == Some(Some(i)) && St() == k'
        case CreateHalts => r == None
    {
      hide FirstFree, EnqueueProc;
      var slot := FindFree();
      if slot.None? {
        return Some(None);
      }
      var i, pid := slot.value, nextPid;
      nextPid := nextPid + 1;
      if load.LoadHalts? {
        return None;
      }
      if load.LoadFails? {
        Release(i);
        return Some(None);
      }
      if stacks[i] {
        return Some(None);
      }
      ghost var k := St();
      stacks[i] := true;
      assert stacks[..] == k.stackUsed[i := true];
      Put(i, Newborn(pid, caps, flow, load.pages));
      var ok := EnqueueRunqueue(i);
      r := if ok then Some(Some(i)) else None;
    }

    method SysSpawn(me: Process, mask: bv64, known: bool, load: Load) returns (r: Option<Reply>)
      requires Valid()
      modifies `nextPid, slots, stacks, queue, queue.tasks
      ensures Valid() && Agrees(DoSpawn(old(St()), me, mask, known, load), St(), r)
    {
      hide Has, CommonBits, FirstFree, EnqueueProc;
      if !Has(me.caps, CAP_SPAWN) {
        return Some(Fail(PERM));
      }
      if !known {
        return Some(Fail(NOENT));
      }
      var pid := nextPid;
      var created := CreateUserProcess(ChildCaps(me.caps, mask), me.flow, load);
      match created {
        case None => r := None;
        case Some(None) => r := Some(Fail(NOENT));
        case Some(Some(i)) => r := Some(Value(pid));
      }
    }

    method ExitCurrentAndSchedule(c: nat, me: Process, status: Option<int>) returns (r: Option<Reply>)
      requires Valid() && c < 64
      modifies Footprint()
      ensures Valid() && Agrees(DoExit(old(St()), c, me, status), St(), r)
    {
      hide Q.Remove, WakeFrom, Schedule;
      mail.Clear(c);
      Put(c, me.(state := Dead, exitStatus := status));
      queue.RemoveTask(c);
      var ok := WakeWaitersFor(me.pid);
      if !ok {
        return None;
      }
      ok := ScheduleNext();
      r := if ok then Some(NoReturn) else None;
    }

    method SysWaitpid(c: nat, me: Process, w: nat, nohang: bool, rsp: nat, statusAt: nat) returns (r: Option<Reply>)
      requires Valid() && c < 64
      modifies Footprint()
      ensures Valid() && Agrees(DoWait(old(St()), c, me, w, nohang, rsp, statusAt), St(), r)
    {
      hide Q.Remove, FirstDead, Schedule, UserRange;
      var reaped := ReapDead(w);
      if reaped.Some? {
        if statusAt != 0 {
          var ok := ValidateUserRange(me.pages, statusAt, 4);
          if !ok {
            return Some(Fail(INVAL));
          }
        }
        return Some(Reaped(reaped.value.0, reaped.value.1));
      }
      if nohang {
        return Some(Fail(AGAIN));
      }
      Put(c, Sleeper(me, w, rsp));
      queue.RemoveTask(c);
      var ok := ScheduleNext();
      r := if ok then Some(NoReturn) else None;
    }

    method SysIpcSend(me: Process, target: nat, body: nat) returns (r: Option<Reply>)
      requires Valid()
      modifies mail.buf, mail.tail, mail.len
      ensures Valid() && Agrees(DoSend(old(St()), me, target, body), St(), r)
    {
      hide Has, CanFlow, IndexOf;
      if !Has(me.caps, CAP_IPC_SEND) {
        return Some(Fail(PERM));
      }
      var i := IndexOfPid(target);
      if i.None? {
        return Some(Fail(NOENT));
      }
      if !CanFlow(me.flow, slots[i.value].value.flow) {
        return Some(Fail(PERM));
      }
      assert mail.RingOk(i.value);
      var ok := mail.Enqueue(i.value, Message(me.pid, body));
      r := Some(if ok then Value(0) else Fail(NOMEM));
    }

    method SysIpcRecv(c: nat, me: Process) returns (r: Option<Reply>)
      requires Valid() && c < 64
      modifies mail.head, mail.len
      ensures Valid() && Agrees(DoReceive(old(St()), c, me), St(), r)
    {
      hide Has;
      if !Has(me.caps, CAP_IPC_RECV) {
        return Some(Fail(PERM));
      }
      var m := mail.Dequeue(c);
      r := Some(if m.Some? then Got(m.value) else Fail(AGAIN));
    }

    method SysCapGrant(me: Process, target: nat, bits: bv64) returns (r: Option<Reply>)
      requires Valid()
      modifies slots
      ensures Valid() && Agrees(DoGrant(old(St()), me, target, bits), St(), r)
    {
      hide Has, AddBits, CommonBits, IndexOf;
      if !Has(me.caps, CAP_GRANT) {
        return Some(Fail(PERM));
      }
      var safe := CommonBits(me.caps, bits);
      var i := IndexOfPid(target);
      if i.None? {
        return Some(Fail(NOENT));
      }
      var p := slots[i.value].value;
      Put(i.value, p.(caps := AddBits(p.caps, safe)));
      r := Some(Bits(safe));
    }

    method SysCapRevoke(me: Process, target: nat, bits: bv64) returns (r: Option<Reply>)
      requires Valid()
      modifies slots
      ensures Valid() && Agrees(DoRevoke(old(St()), me, target, bits), St(), r)
    {
      hide Has, DropBits, IndexOf;
      if !Has(me.caps, CAP_GRANT) {
        return Some(Fail(PERM));
      }
      var i := IndexOfPid(target);
      if i.None? {
        return Some(Fail(NOENT));
      }
      var p := slots[i.value].value;
      Put(i.value, p.(caps := DropBits(p.caps, bits)));
      r := Some(Value(0));
    }

    method SysIflowTaint(c: nat, me: Process, add: bv64, remove: bv64) returns (r: Option<Reply>)
      requires Valid() && c < 64
      modifies slots
      ensures Valid() && Agrees(DoTaint(old(St()), c, me, add, remove), St(), r)
    {
      hide AddBits, DropBits;
      Put(c, me.(flow := Label(AddBits(me.flow.secrecy, add), DropBits(me.flow.integrity, remove))));
      r := Some(Value(0));
    }

    method SysIflowDeclassify(c: nat, me: Process, bits: bv64) returns (r: Option<Reply>)
      requires Valid() && c < 64
      modifies slots
      ensures Valid() && Agrees(DoDeclassify(old(St()), c, me, bits), St(), r)
    {
      hide Has, DropBits;
      if !Has(me.caps, CAP_DECLASSIFY) {
        return Some(Fail(PERM));
      }
      Put(c, me.(flow := me.flow.(secrecy := DropBits(me.flow.secrecy, bits))));
      r := Some(Value(0));
    }

    method SysIflowEndorse(me: Process, target: nat, bits: bv64) returns (r: Option<Reply>)
      requires Valid()
      modifies slots
      ensures Valid() && Agrees(DoEndorse(old(St()), me, target, bits), St(), r)
    {
      hide Has, AddBits, IndexOf;
      if !Has(me.caps, CAP_ENDORSE) {
        return Some(Fail(PERM));
      }
      var i := IndexOfPid(target);
      if i.None? {
        return Some(Fail(NOENT));
      }
      var p := slots[i.value].value;
      Put(i.value, p.(flow := p.flow.(integrity := AddBits(p.flow.integrity, bits))));
      r := Some(Value(0));
    }

    /** One system call of the running process, as the dispatcher runs it. In a scheduled kernel it
        halts only as Halts says, and not on a dispatch when all saved stack pointers are good. */
    method Dispatch(call: Call) returns (r: Option<Reply>)
      requires Valid()
      modifies Footprint()
      ensures Valid() && Agrees(Step(old(St()), call), St(), r)
      ensures SchedInv(old(St())) ==> (r.None? <==> Halts(old(St()), call)) && (r.Some? ==> SchedInv(St()))
      ensures SchedInv(old(St())) && FramesOk(old(St())) ==> (r.None? <==> LoaderHalts(old(St()), call))
    {
      hide SchedInv, FramesOk, Halts, LoaderHalts, DoSpawn, DoExit, DoWait, DoSend, DoReceive, DoGrant, DoRevoke, DoTaint,
        DoDeclassify, DoEndorse;
      HaltsOnly(St(), call);
      if current.None? || current.value >= 64 || slots[current.value].None? {
        return Some(NoReturn);
      }
      var c, me := current.value, slots[current.value].value;
      match call {
        case Spawn(mask, known, load) => r := SysSpawn(me, mask, known, load);
        case Exit(status) => r := ExitCurrentAndSchedule(c, me, status);
        case Wait(w, nohang, rsp, statusAt) => r := SysWaitpid(c, me, w, nohang, rsp, statusAt);
        case Remap(pages) =>
          Put(c, me.(pages := pages));
          r := Some(Value(0));
        case Send(target, body) => r := SysIpcSend(me, target, body);
        case Receive => r := SysIpcRecv(c, me);
        case Grant(target, bits) => r := SysCapGrant(me, target, bits);
        case Revoke(target, bits) => r := SysCapRevoke(me, target, bits);
        case Taint(add, remove) => r := SysIflowTaint(c, me, add, remove);
        case Declassify(bits) => r := SysIflowDeclassify(c, me, bits);
        case Endorse(target, bits) => r := SysIflowEndorse(me, target, bits);
      }
    }
  }
}
