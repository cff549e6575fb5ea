// The process table, mailboxes, capabilities and flow labels, with every system call that
// changes them as one step of the kernel. The runqueue is the EEVDF queue.

module Processes {
  import opened Options
  import opened UserStacks
  import Q = Eevdf

  const IPC_QUEUE_DEPTH: nat := 32
  /** The waitpid argument that stands for any process (u32::MAX). */
  const ANY_PID: nat := 0xFFFF_FFFF

  const CAP_SPAWN: bv64 := 0x1
  const CAP_IPC_SEND: bv64 := 0x10
  const CAP_IPC_RECV: bv64 := 0x20
  const CAP_GRANT: bv64 := 0x800
  const CAP_DECLASSIFY: bv64 := 0x2_0000
  const CAP_ENDORSE: bv64 := 0x4_0000
  const CAP_ALL: bv64 := 0xFFFF_FFFF_FFFF_FFFF

  datatype RunState = Runnable | Running | Blocked | Dead

  /** Secrecy tags a process holds and integrity tags it provides. */
  datatype Label = Label(secrecy: bv64, integrity: bv64)

  /** `rsp` is the stack pointer saved for the next entry and `pages` what the page tables map. */
  datatype Process = Process(
    pid: nat, state: RunState, waitingFor: Option<nat>, exitStatus: Option<int>, caps: bv64, flow: Label, nice: int,
    rsp: nat, pages: Pages)

  /** `sender` is stamped by the kernel; `body` is whatever the sending process wrote. */
  datatype Message = Message(sender: nat, body: nat)

  type Table = t: seq<Option<Process>> | |t| == 64 witness seq(64, _ => None)
  type Flags64 = f: seq<bool> | |f| == 64 witness seq(64, _ => false)
  type Boxes = b: seq<seq<Message>> | |b| == 64 witness seq(64, _ => [])

  datatype Kernel = Kernel(
    table: Table, nextPid: nat, current: Option<nat>, stackUsed: Flags64, rq: Q.Queue, boxes: Boxes)

  predicate Is(t: Table, i: int, s: RunState) {
    0 <= i < 64 && t[i].Some? && t[i].value.state == s
  }

  // ----- scans of the table -----

  function FirstFree(t: Table, i: nat): (r: Option<nat>)
    requires i <= 64
    ensures r.None? <==> forall j :: i <= j < 64 ==> t[j].Some?
    ensures r.Some? ==> i <= r.value < 64 && t[r.value].None? && forall j :: i <= j < r.value ==> t[j].Some?
    decreases 64 - i
  {
    if i == 64 then None else if t[i].None? then Some(i) else FirstFree(t, i + 1)
  }

  function IndexOf(t: Table, pid: nat, i: nat): (r: Option<nat>)
    requires i <= 64
    ensures r.None? <==> forall j :: i <= j < 64 && t[j].Some? ==> t[j].value.pid != pid
    ensures r.Some? ==> i <= r.value < 64 && t[r.value].Some? && t[r.value].value.pid == pid
    ensures r.Some? ==> forall j :: i <= j < r.value && t[j].Some? ==> t[j].value.pid != pid
    decreases 64 - i
  {
    if i == 64 then None else if t[i].Some? && t[i].value.pid == pid then Some(i) else IndexOf(t, pid, i + 1)
  }

  /** The waitpid argument w asks for process `pid`, as reaping reads it: 0 and u32::MAX mean any. */
  predicate ReapMatches(w: nat, pid: nat) {
    w == 0 || w == ANY_PID || w == pid
  }

  /** The same, as the wake-up on exit reads it: only u32::MAX means any. */
  predicate WakeMatches(w: nat, pid: nat) {
    w == pid || w == ANY_PID
  }

  function FirstDead(t: Table, w: nat, i: nat): (r: Option<nat>)
    requires i <= 64
    ensures r.None? <==> forall j :: i <= j < 64 && Is(t, j, Dead) ==> !ReapMatches(w, t[j].value.pid)
    ensures r.Some? ==> i <= r.value < 64 && Is(t, r.value, Dead) && ReapMatches(w, t[r.value].value.pid)
    ensures r.Some? ==> forall j :: i <= j < r.value && Is(t, j, Dead) ==> !ReapMatches(w, t[j].value.pid)
    decreases 64 - i
  {
    if i == 64 then None
    else if Is(t, i, Dead) && ReapMatches(w, t[i].value.pid) then Some(i)
    else FirstDead(t, w, i + 1)
  }

  // ----- capabilities and labels -----

  predicate Has(caps: bv64, mask: bv64) {
    caps & mask == mask
  }

  function AddBits(a: bv64, b: bv64): bv64 {
    a | b
  }

  function DropBits(a: bv64, b: bv64): bv64 {
    a & !b
  }

  function CommonBits(a: bv64, b: bv64): bv64 {
    a & b
  }

  function ChildCaps(caps: bv64, requested: bv64): bv64 {
    CommonBits(caps, if requested == 0 then CAP_ALL else requested)
  }

  /** All bits of a are in b. */
  predicate Within(a: bv64, b: bv64) {
    DropBits(a, b) == 0
  }

  predicate CanFlow(src: Label, dst: Label) {
    Within(src.secrecy, dst.secrecy) && Within(dst.integrity, src.integrity)
  }

  // ----- effects -----

  function PutProc(k: Kernel, i: nat, p: Process): Kernel
    requires i < 64
  {
    k.(table := k.table[i := Some(p)])
  }

  function ReleaseSlot(k: Kernel, i: nat): Kernel
    requires i < 64
  {
    k.(stackUsed := k.stackUsed[i := false], table := k.table[i := None])
  }

  /** None is a kernel halt. */
  function EnqueueProc(k: Kernel, i: nat): (r: Option<Kernel>)
    requires i < 64
  {
    var nice := if k.table[i].Some? then k.table[i].value.nice else 0;
    match Q.Enqueue(k.rq, i, nice)
    case None => None
    case Some(rq) => Some(k.(rq := rq))
  }

  /** Wake everyone from slot i on whom the exit of `pid` concerns. */
  function WakeFrom(k: Kernel, pid: nat, i: nat): (r: Option<Kernel>)
    requires i <= 64
    decreases 64 - i
  {
    if i == 64 then Some(k)
    else if Is(k.table, i, Blocked) && k.table[i].value.waitingFor.Some?
            && WakeMatches(k.table[i].value.waitingFor.value, pid) then
      match EnqueueProc(PutProc(k, i, k.table[i].value.(state := Runnable, waitingFor := None)), i)
      case None => None
      case Some(k') => WakeFrom(k', pid, i + 1)
    else WakeFrom(k, pid, i + 1)
  }

  predicate Resumable(p: Process) {
    Enterable(p.pages, p.rsp)
  }

  /** Make slot i the running process; None, a halt, when its saved stack pointer is refused. */
  function RunProcess(k: Kernel, i: nat): (r: Option<Kernel>) {
    if i < 64 && k.table[i].Some? && Resumable(k.table[i].value)
    then Some(PutProc(k, i, k.table[i].value.(state := Running)).(current := Some(i)))
    else None
  }

  /** Nobody is current: run the next queued process, or idle for good. */
  function Schedule(k: Kernel): (r: Option<Kernel>) {
    var (rq, next) := Q.Dequeue(k.rq);
    var k' := k.(rq := rq, current := None);
    if next.None? then Some(k') else RunProcess(k', next.value)
  }

  datatype CreateResult = Failed(k: Kernel) | Created(k: Kernel, slot: nat) | CreateHalts

  /** How building and filling an address space ends; `pages` are those mapped before the stack. */
  datatype Load = Loads(pages: Pages) | LoadFails | LoadHalts

  function Newborn(pid: nat, caps: bv64, flow: Label, pages: Pages): Process {
    Process(pid, Runnable, None, None, caps, flow, 0, StackTop(pid) * 4096, WithStack(pages, pid))
  }

  function Create(k: Kernel, caps: bv64, flow: Label, load: Load): (r: CreateResult) {
    match FirstFree(k.table, 0)
    case None => Failed(k)
    case Some(i) =>
      var k1 := k.(nextPid := k.nextPid + 1);
      if load.LoadHalts? then CreateHalts
      else if load.LoadFails? then Failed(ReleaseSlot(k1, i))
      else if k1.stackUsed[i] then Failed(k1)
      else
        var p := Newborn(k.nextPid, caps, flow, load.pages);
        match EnqueueProc(PutProc(k1.(stackUsed := k1.stackUsed[i := true]), i, p), i)
        case None => CreateHalts
        case Some(k2) => Created(k2, i)
  }

  // ----- system calls of the running process -----

  /** A wait comes with the caller's stack pointer and the address for the status, or 0. A remap
      is any call that changes what the caller itself has mapped. */
  datatype Call =
    | Spawn(mask: bv64, known: bool, load: Load)
    | Exit(status: Option<int>)
    | Wait(pid: nat, nohang: bool, rsp: nat, statusAt: nat)
    | Remap(pages: Pages)
    | Send(target: nat, body: nat)
    | Receive
    | Grant(target: nat, bits: bv64)
    | Revoke(target: nat, bits: bv64)
    | Taint(add: bv64, remove: bv64)
    | Declassify(bits: bv64)
    | Endorse(target: nat, bits: bv64)

  datatype Error = PERM | NOENT | NOMEM | AGAIN | INVAL

  datatype Reply =
    | Value(n: nat)
    | Bits(bits: bv64)
    | Reaped(pid: nat, status: Option<int>)
    | Got(m: Message)
    | Fail(e: Error)
    | NoReturn

  datatype Outcome = Next(k: Kernel, reply: Reply) | Halt

  function DoSpawn(k: Kernel, me: Process, mask: bv64, known: bool, load: Load): (r: Outcome) {
    if !Has(me.caps, CAP_SPAWN) then Next(k, Fail(PERM))
    else if !known then Next(k, Fail(NOENT))
    else match Create(k, ChildCaps(me.caps, mask), me.flow, load)
      case Failed(k') => Next(k', Fail(NOENT))
      case Created(k', i) => Next(k', Value(k.nextPid))
      case CreateHalts => Halt
  }

  /** The kernel once process c has died and its waiters are awake; None is a halt. */
  function AfterExit(k: Kernel, c: nat, me: Process, status: Option<int>): (r: Option<Kernel>)
    requires c < 64
  {
    var k1 := PutProc(k.(boxes := k.boxes[c := []]), c, me.(state := Dead, exitStatus := status));
    WakeFrom(k1.(rq := Q.Remove(k1.rq, c)), me.pid, 0)
  }

  function DoExit(k: Kernel, c: nat, me: Process, status: Option<int>): (r: Outcome)
    requires c < 64
  {
    match AfterExit(k, c, me, status)
    case None => Halt
    case Some(k1) =>
      match Schedule(k1)
      case None => Halt
      case Some(k2) => Next(k2, NoReturn)
  }

  function Sleeper(me: Process, w: nat, rsp: nat): Process {
    me.(state := Blocked, waitingFor := Some(w), rsp := rsp)
  }

  /** The kernel once process c sleeps until w exits. */
  function AfterBlock(k: Kernel, c: nat, me: Process, w: nat, rsp: nat): (r: Kernel)
    requires c < 64
  {
    PutProc(k, c, Sleeper(me, w, rsp)).(rq := Q.Remove(k.rq, c))
  }

  /** The status goes to address `statusAt` unless that is 0; a bad address is noticed after the
      process was reaped. */
  function DoWait(k: Kernel, c: nat, me: Process, w: nat, nohang: bool, rsp: nat, statusAt: nat): (r: Outcome)
    requires c < 64
  {
    match FirstDead(k.table, w, 0)
    case Some(i) =>
      Next(ReleaseSlot(k, i),
           if statusAt == 0 || UserRange(me.pages, statusAt, 4) then Reaped(k.table[i].value.pid, k.table[i].value.exitStatus)
           else Fail(INVAL))
    case None =>
      if nohang then Next(k, Fail(AGAIN)) else
      match Schedule(AfterBlock(k, c, me, w, rsp))
      case None => Halt
      case Some(k1) => Next(k1, NoReturn)
  }

  function DoSend(k: Kernel, me: Process, target: nat, body: nat): (r: Outcome) {
    if !Has(me.caps, CAP_IPC_SEND) then Next(k, Fail(PERM)) else
    match IndexOf(k.table, target, 0)
    case None => Next(k, Fail(NOENT))
    case Some(i) =>
      if !CanFlow(me.flow, k.table[i].value.flow) then Next(k, Fail(PERM))
      else if |k.boxes[i]| == IPC_QUEUE_DEPTH then Next(k, Fail(NOMEM))
      else Next(k.(boxes := k.boxes[i := k.boxes[i] + [Message(me.pid, body)]]), Value(0))
  }

  function DoReceive(k: Kernel, c: nat, me: Process): (r: Outcome)
    requires c < 64
  {
    if !Has(me.caps, CAP_IPC_RECV) then Next(k, Fail(PERM))
    else if k.boxes[c] == [] then Next(k, Fail(AGAIN))
    else Next(k.(boxes := k.boxes[c := k.boxes[c][1..]]), Got(k.boxes[c][0]))
  }

  function DoGrant(k: Kernel, me: Process, target: nat, bits: bv64): (r: Outcome) {
    if !Has(me.caps, CAP_GRANT) then Next(k, Fail(PERM)) else
    match IndexOf(k.table, target, 0)
    case None => Next(k, Fail(NOENT))
    case Some(i) =>
      var p := k.table[i].value;
      var safe := CommonBits(me.caps, bits);
      Next(PutProc(k, i, p.(caps := AddBits(p.caps, safe))), Bits(safe))
  }

  function DoRevoke(k: Kernel, me: Process, target: nat, bits: bv64): (r: Outcome) {
    if !Has(me.caps, CAP_GRANT) then Next(k, Fail(PERM)) else
    match IndexOf(k.table, target, 0)
    case None => Next(k, Fail(NOENT))
    case Some(i) =>
      var p := k.table[i].value;
      Next(PutProc(k, i, p.(caps := DropBits(p.caps, bits))), Value(0))
  }

  function DoTaint(k: Kernel, c: nat, me: Process, add: bv64, remove: bv64): (r: Outcome)
    requires c < 64
  {
    var flow := Label(AddBits(me.flow.secrecy, add), DropBits(me.flow.integrity, remove));
    Next(PutProc(k, c, me.(flow := flow)), Value(0))
  }

  function DoDeclassify(k: Kernel, c: nat, me: Process, bits: bv64): (r: Outcome)
    requires c < 64
  {
    if !Has(me.caps, CAP_DECLASSIFY) then Next(k, Fail(PERM))
    else Next(PutProc(k, c, me.(flow := me.flow.(secrecy := DropBits(me.flow.secrecy, bits)))), Value(0))
  }

  function DoEndorse(k: Kernel, me: Process, target: nat, bits: bv64): (r: Outcome) {
    if !Has(me.caps, CAP_ENDORSE) then Next(k, Fail(PERM)) else
    match IndexOf(k.table, target, 0)
    case None => Next(k, Fail(NOENT))
    case Some(i) =>
      var p := k.table[i].value;
      Next(PutProc(k, i, p.(flow := p.flow.(integrity := AddBits(p.flow.integrity, bits)))), Value(0))
  }

  /** The running process, if there is one. */
  function Current(k: Kernel): (r: Option<Process>) {
    if k.current.Some? && k.current.value < 64 then k.table[k.current.value] else None
  }

  /** One system call. With no process running the kernel idles and nothing changes. */
  function Step(k: Kernel, call: Call): (r: Outcome) {
    match Current(k)
    case None => Next(k, NoReturn)
    case Some(me) =>
      var c := k.current.value;
      match call
      case Spawn(mask, known, load) => DoSpawn(k, me, mask, known, load)
      case Exit(status) => DoExit(k, c, me, status)
      case Wait(w, nohang, rsp, statusAt) => DoWait(k, c, me, w, nohang, rsp, statusAt)
      case Remap(pages) => Next(PutProc(k, c, me.(pages := pages)), Value(0))
      case Send(target, body) => DoSend(k, me, target, body)
      case Receive => DoReceive(k, c, me)
      case Grant(target, bits) => DoGrant(k, me, target, bits)
      case Revoke(target, bits) => DoRevoke(k, me, target, bits)
      case Taint(add, remove) => DoTaint(k, c, me, add, remove)
      case Declassify(bits) => DoDeclassify(k, c, me, bits)
      case Endorse(target, bits) => DoEndorse(k, me, target, bits)
  }

  function EmptyKernel(): Kernel {
    Kernel(seq(64, _ => None), 1, None, seq(64, _ => false), Q.EmptyQueue(), seq(64, _ => []))
  }

  /** Boot: the first process is created and entered directly; it stays on the runqueue. */
  function Boot(caps: bv64, flow: Label, pages: Pages): (r: Option<Kernel>) {
    match Create(EmptyKernel(), caps, flow, Loads(pages))
    case Created(k, i) => RunProcess(k, i)
    case _ => None
  }
}
