// Messages over whole runs: what a process receives is what was accepted for it, in order,
// and whatever reaches it respects its flow label.

module Mailboxes {
  import opened Options
  import opened UserStacks
  import opened Processes
  import opened ProcessRuns

  /** A process together with the label it had when it sent or spawned. */
  type Source = (nat, Label)

  type Marks = m: seq<seq<set<Source>>> | |m| == 64 witness seq(64, _ => [])

  /** The kernel with its past: the messages accepted for each pid, those each pid received,
      the sources whose data reached each pid, and the sources behind each queued message. */
  datatype History = History(
    k: Kernel, accepted: map<nat, seq<Message>>, received: map<nat, seq<Message>>,
    known: map<nat, set<Source>>, marks: Marks)

  function Of(m: map<nat, seq<Message>>, pid: nat): seq<Message> {
    if pid in m then m[pid] else []
  }

  function Known(m: map<nat, set<Source>>, pid: nat): set<Source> {
    if pid in m then m[pid] else {}
  }

  /** Everything that flows out of a process when it sends or spawns. */
  function Outflow(h: History, me: Process): set<Source> {
    Known(h.known, me.pid) + {(me.pid, me.flow)}
  }

  // ----- what a call does to the mailboxes -----

  predicate Sends(call: Call, reply: Reply) {
    call.Send? && reply.Value?
  }

  /** Slot that a send addresses. */
  function Addressee(k: Kernel, call: Call): (r: nat)
    ensures r < 64
  {
    if call.Send? && IndexOf(k.table, call.target, 0).Some? then IndexOf(k.table, call.target, 0).value else 0
  }

  lemma SendMail(k: Kernel, call: Call, c: nat, me: Process, k': Kernel)
    requires CallBy(k, call, c, me, k') && call.Send?
    ensures var reply, i := Step(k, call).reply, Addressee(k, call);
      if reply.Value? then
        && k.table[i].Some? && k.table[i].value.pid == call.target && CanFlow(me.flow, k.table[i].value.flow)
        && k' == k.(boxes := k.boxes[i := k.boxes[i] + [Message(me.pid, call.body)]])
      else k' == k && reply.Fail?
  {
    hide Has, CanFlow;
  }

  lemma ReceiveMail(k: Kernel, call: Call, c: nat, me: Process, k': Kernel)
    requires CallBy(k, call, c, me, k') && call.Receive?
    ensures var reply := Step(k, call).reply;
      if reply.Got? then k.boxes[c] != [] && reply.m == k.boxes[c][0] && k' == k.(boxes := k.boxes[c := k.boxes[c][1..]])
      else k' == k && reply.Fail?
  {
    hide Has;
  }

  lemma LabelMail(k: Kernel, call: Call, c: nat, me: Process, k': Kernel)
    requires CallBy(k, call, c, me, k') && Quiet(call) && !call.Send? && !call.Receive?
    ensures k'.boxes == k.boxes && !Step(k, call).reply.Got?
  {
    hide Has, AddBits, DropBits, CommonBits;
  }

  lemma LoudMail(k: Kernel, call: Call, c: nat, me: Process, k': Kernel)
    requires SchedInv(k) && CallBy(k, call, c, me, k') && !Quiet(call)
    ensures k'.boxes == if call.Exit? then k.boxes[c := []] else k.boxes
    ensures !Step(k, call).reply.Got?
    ensures call.Spawn? && Step(k, call).reply.Value? ==> Step(k, call).reply.n == k.nextPid
  {
    match call {
      case Spawn(mask, known, load) => SpawnEvolves(k, call, c, me, k');
      case Exit(status) => ExitEvolves(k, call, c, me, k');
      case Wait(w, nohang, rsp, statusAt) => WaitEvolves(k, call, c, me, k');
    }
  }

  /** Record one call. */
  function Note(h: History, call: Call, c: nat, me: Process): (r: History)
    requires c < 64 && Step(h.k, call).Next?
  {
    var Next(k', reply) := Step(h.k, call);
    var i := Addressee(h.k, call);
    if Sends(call, reply) then
      h.(k := k', accepted := h.accepted[call.target := Of(h.accepted, call.target) + [Message(me.pid, call.body)]],
         marks := h.marks[i := h.marks[i] + [Outflow(h, me)]])
    else if reply.Got? && |h.marks[c]| > 0 then
      h.(k := k', received := h.received[me.pid := Of(h.received, me.pid) + [reply.m]],
         known := h.known[me.pid := Known(h.known, me.pid) + h.marks[c][0]], marks := h.marks[c := h.marks[c][1..]])
    else if call.Exit? then h.(k := k', marks := h.marks[c := []])
    else if call.Spawn? && reply.Value? then h.(k := k', known := h.known[reply.n := Outflow(h, me)])
    else h.(k := k')
  }

  predicate Live(p: Option<Process>) {
    p.Some? && p.value.state != Dead
  }

  // ----- mailbox order -----

  /** What was accepted for a live process is what it received followed by what is queued for
      it; a slot without a live process has no mail. */
  predicate SlotMail(accepted: map<nat, seq<Message>>, received: map<nat, seq<Message>>,
                     p: Option<Process>, box: seq<Message>, mark: seq<set<Source>>) {
    && |mark| == |box|
    && if Live(p) then Of(accepted, p.value.pid) == Of(received, p.value.pid) + box else box == []
  }

  ghost predicate Logs(accepted: map<nat, seq<Message>>, received: map<nat, seq<Message>>, nextPid: nat) {
    && (forall p :: p in accepted || p in received ==> p < nextPid)
    && (forall p :: Of(received, p) <= Of(accepted, p))
  }

  ghost predicate MailInv(h: History) {
    && (forall i :: 0 <= i < 64 ==> SlotMail(h.accepted, h.received, h.k.table[i], h.k.boxes[i], h.marks[i]))
    && Logs(h.accepted, h.received, h.k.nextPid)
  }

  /** A send may not name a dead process that has not been reaped yet. */
  ghost predicate NoDeadSend(k: Kernel, call: Call) {
    call.Send? ==> forall i :: Is(k.table, i, Dead) ==> k.table[i].value.pid != call.target
  }

  lemma PidIssued(k: Kernel, i: nat)
    requires TableOk(k) && i < 64 && k.table[i].Some?
    ensures k.table[i].value.pid < k.nextPid
  {
  }

  lemma SentKeepsMail(h: History, i: nat, pid: nat, m: Message, mark: set<Source>)
    requires TableOk(h.k) && MailInv(h) && i < 64 && Live(h.k.table[i]) && h.k.table[i].value.pid == pid
    ensures MailInv(h.(k := h.k.(boxes := h.k.boxes[i := h.k.boxes[i] + [m]]),
                       accepted := h.accepted[pid := Of(h.accepted, pid) + [m]],
                       marks := h.marks[i := h.marks[i] + [mark]]))
  {
    hide TableOk, SlotMail, Logs;
    OnePid(h.k, i);
    PidIssued(h.k, i);
    var accepted := h.accepted[pid := Of(h.accepted, pid) + [m]];
    LogsAccept(h.accepted, h.received, h.k.nextPid, pid, m);
    forall j | 0 <= j < 64
      ensures SlotMail(accepted, h.received, h.k.table[j], h.k.boxes[i := h.k.boxes[i] + [m]][j],
                       h.marks[i := h.marks[i] + [mark]][j])
    {
      SlotAccepts(h.accepted, h.received, h.k.table[j], h.k.boxes[j], h.marks[j], pid, m, mark, j == i);
    }
  }

  lemma SlotAccepts(accepted: map<nat, seq<Message>>, received: map<nat, seq<Message>>, p: Option<Process>,
                    box: seq<Message>, marks: seq<set<Source>>, pid: nat, m: Message, mark: set<Source>, mine: bool)
    requires SlotMail(accepted, received, p, box, marks)
    requires mine ==> Live(p) && p.value.pid == pid
    requires !mine && Live(p) ==> p.value.pid != pid
    ensures SlotMail(accepted[pid := Of(accepted, pid) + [m]], received, p,
                     if mine then box + [m] else box, if mine then marks + [mark] else marks)
  {
  }

  lemma LogsAccept(accepted: map<nat, seq<Message>>, received: map<nat, seq<Message>>, nextPid: nat, pid: nat, m: Message)
    requires Logs(accepted, received, nextPid) && pid < nextPid
    ensures Logs(accepted[pid := Of(accepted, pid) + [m]], received, nextPid)
  {
    var accepted' := accepted[pid := Of(accepted, pid) + [m]];
    forall p ensures Of(received, p) <= Of(accepted', p) {
      assert Of(received, p) <= Of(accepted, p);
    }
  }

  lemma GotKeepsMail(h: History, i: nat, pid: nat, known: map<nat, set<Source>>)
    requires TableOk(h.k) && MailInv(h) && i < 64 && Live(h.k.table[i]) && h.k.table[i].value.pid == pid
    requires h.k.boxes[i] != []
    ensures h.marks[i] != []
    ensures MailInv(h.(k := h.k.(boxes := h.k.boxes[i := h.k.boxes[i][1..]]), known := known,
                       received := h.received[pid := Of(h.received, pid) + [h.k.boxes[i][0]]],
                       marks := h.marks[i := h.marks[i][1..]]))
  {
    var received := h.received[pid := Of(h.received, pid) + [h.k.boxes[i][0]]];
    assert SlotMail(h.accepted, h.received, h.k.table[i], h.k.boxes[i], h.marks[i]);
    forall j | 0 <= j < 64
      ensures SlotMail(h.accepted, received, h.k.table[j], h.k.boxes[i := h.k.boxes[i][1..]][j],
                       h.marks[i := h.marks[i][1..]][j])
    {
      assert SlotMail(h.accepted, h.received, h.k.table[j], h.k.boxes[j], h.marks[j]);
    }
    forall p ensures Of(received, p) <= Of(h.accepted, p) {
      assert Of(h.received, p) <= Of(h.accepted, p);
    }
  }

  /** Steps that leave every live process its mail: slots may die with their mail cleared, be
      reaped, or be given to a fresh pid. */
  lemma OtherKeepsMail(h: History, h': History)
    requires MailInv(h) && h'.accepted == h.accepted && h'.received == h.received && h'.k.nextPid >= h.k.nextPid
    requires forall i :: 0 <= i < 64 ==>
      || (h'.k.boxes[i] == [] && h'.marks[i] == [] && !Live(h'.k.table[i]))
      || (h'.k.boxes[i] == h.k.boxes[i] && h'.marks[i] == h.marks[i]
          && (!Live(h'.k.table[i]) ==> !Live(h.k.table[i]))
          && (Live(h'.k.table[i]) ==>
               if Live(h.k.table[i]) then h'.k.table[i].value.pid == h.k.table[i].value.pid
               else h'.k.table[i].value.pid >= h.k.nextPid))
    ensures MailInv(h')
  {
    forall i | 0 <= i < 64
      ensures SlotMail(h'.accepted, h'.received, h'.k.table[i], h'.k.boxes[i], h'.marks[i])
    {
      assert SlotMail(h.accepted, h.received, h.k.table[i], h.k.boxes[i], h.marks[i]);
    }
  }

  /** A send that is accepted keeps the mailboxes right exactly when its addressee is not a
      process that has died and is still in the table. */
  lemma SendKeepsMailIff(h: History, call: Call, c: nat, me: Process, k': Kernel)
    requires TableOk(h.k) && CallBy(h.k, call, c, me, k') && MailInv(h) && Sends(call, Step(h.k, call).reply)
    ensures MailInv(Note(h, call, c, me)) <==> NoDeadSend(h.k, call)
  {
    hide Step, TableOk, MailInv, CanFlow, Logs, SlotMail;
    SendMail(h.k, call, c, me, k');
    var i := Addressee(h.k, call);
    OnePid(h.k, i);
    if Is(h.k.table, i, Dead) {
      DeadMailBreaks(Note(h, call, c, me), i);
    } else {
      SentKeepsMail(h, i, call.target, Message(me.pid, call.body), Outflow(h, me));
    }
  }

  lemma OnePid(k: Kernel, i: nat)
    requires TableOk(k) && i < 64 && k.table[i].Some?
    ensures forall j :: 0 <= j < 64 && k.table[j].Some? && k.table[j].value.pid == k.table[i].value.pid ==> j == i
  {
  }

  lemma DeadMailBreaks(h: History, i: nat)
    requires i < 64 && !Live(h.k.table[i]) && h.k.boxes[i] != []
    ensures !MailInv(h)
  {
    assert MailInv(h) ==> SlotMail(h.accepted, h.received, h.k.table[i], h.k.boxes[i], h.marks[i]);
  }

  lemma LoudKeepsMail(h: History, call: Call, c: nat, me: Process, k': Kernel)
    requires SchedInv(h.k) && CallBy(h.k, call, c, me, k') && MailInv(h) && !Quiet(call)
    ensures MailInv(Note(h, call, c, me))
  {
    hide Step, MailInv, SchedInv, Has, ChildCaps, ReapMatches, WakeMatches, Is;
    LoudMail(h.k, call, c, me, k');
    StepEvolves(h.k, call, c, me, k');
    var h' := Note(h, call, c, me);
    if call.Exit? {
      ExitEvolves(h.k, call, c, me, k');
      IsDead(k'.table, c);
    } else if call.Wait? {
      WaitEvolves(h.k, call, c, me, k');
      CurrentLives(h.k, c, me, k', call);
    }
    forall i | 0 <= i < 64 && !(i == c && call.Exit?)
      ensures h'.k.boxes[i] == h.k.boxes[i] && h'.marks[i] == h.marks[i]
      ensures !Live(h'.k.table[i]) ==> !Live(h.k.table[i])
      ensures Live(h'.k.table[i]) ==> if Live(h.k.table[i]) then h'.k.table[i].value.pid == h.k.table[i].value.pid
                                      else h'.k.table[i].value.pid >= h.k.nextPid
    {
      assert Evolves(h.k.nextPid, call, me, i == c, h.k.table[i], k'.table[i]);
    }
    OtherKeepsMail(h, h');
  }

  lemma IsDead(t: Table, c: nat)
    requires Is(t, c, Dead)
    ensures !Live(t[c])
  {
  }

  lemma CurrentLives(k: Kernel, c: nat, me: Process, k': Kernel, call: Call)
    requires SchedInv(k) && CallBy(k, call, c, me, k')
    ensures Live(k.table[c])
  {
  }

  lemma LabelKeepsMail(h: History, call: Call, c: nat, me: Process, k': Kernel)
    requires CallBy(h.k, call, c, me, k') && MailInv(h) && Quiet(call) && !call.Send? && !call.Receive?
    ensures MailInv(Note(h, call, c, me))
  {
    hide Step, MailInv, Is;
    QuietSame(h.k, call);
    LabelMail(h.k, call, c, me, k');
    OtherKeepsMail(h, Note(h, call, c, me));
  }

  lemma ReceiveKeepsMail(h: History, call: Call, c: nat, me: Process, k': Kernel)
    requires SchedInv(h.k) && CallBy(h.k, call, c, me, k') && MailInv(h) && call.Receive?
    ensures MailInv(Note(h, call, c, me))
  {
    hide Step, MailInv, TableOk;
    CurrentLives(h.k, c, me, k', call);
    ReceiveMail(h.k, call, c, me, k');
    if Step(h.k, call).reply.Got? {
      GotKeepsMail(h, c, me.pid, h.known[me.pid := Known(h.known, me.pid) + (if h.marks[c] != [] then h.marks[c][0] else {})]);
    }
  }

  lemma NoteKeepsMail(h: History, call: Call, c: nat, me: Process, k': Kernel)
    requires SchedInv(h.k) && CallBy(h.k, call, c, me, k') && MailInv(h) && NoDeadSend(h.k, call)
    ensures MailInv(Note(h, call, c, me))
  {
    hide Step, MailInv, NoDeadSend, TableOk;
    if call.Send? {
      SendMail(h.k, call, c, me, k');
      if Step(h.k, call).reply.Value? {
        SendKeepsMailIff(h, call, c, me, k');
      }
    } else if call.Receive? {
      ReceiveKeepsMail(h, call, c, me, k');
    } else if Quiet(call) {
      LabelKeepsMail(h, call, c, me, k');
    } else {
      LoudKeepsMail(h, call, c, me, k');
    }
  }

  // ----- whole runs -----

  function NoteNext(h: History, call: Call): (r: History)
    requires Step(h.k, call).Next?
  {
    var me := Current(h.k);
    if me.Some? then Note(h, call, h.k.current.value, me.value) else h
  }

  function RunNotes(h: History, calls: seq<Call>): (r: Option<History>)
    decreases |calls|
  {
    if calls == [] then Some(h)
    else if Step(h.k, calls[0]).Halt? then None
    else RunNotes(NoteNext(h, calls[0]), calls[1..])
  }

  /** No send of the run names a dead process. */
  ghost predicate CleanRun(h: History, calls: seq<Call>)
    decreases |calls|
  {
    calls != [] ==>
      && NoDeadSend(h.k, calls[0])
      && (Step(h.k, calls[0]).Next? ==> CleanRun(NoteNext(h, calls[0]), calls[1..]))
  }

  lemma NoteNextKeeps(h: History, call: Call)
    requires SchedInv(h.k) && MailInv(h) && NoDeadSend(h.k, call) && Step(h.k, call).Next?
    ensures SchedInv(NoteNext(h, call).k) && MailInv(NoteNext(h, call))
  {
    hide MailInv, NoDeadSend, Note, Step;
    StepOk(h.k, call);
    var me := Current(h.k);
    if me.Some? {
      CurrentCalls(h.k, call);
      var c := h.k.current.value;
      NoteKeepsMail(h, call, c, me.value, Step(h.k, call).k);
      NoteKernel(h, call, c, me.value);
    }
  }

  lemma NoteKernel(h: History, call: Call, c: nat, me: Process)
    requires c < 64 && Step(h.k, call).Next?
    ensures Note(h, call, c, me).k == Step(h.k, call).k
  {
    hide Step;
  }

  /** Over every run without sends to dead processes: at every point, what each process has
      received is a prefix of what was accepted for it. */
  lemma {:induction false} MailOrder(h: History, calls: seq<Call>)
    requires SchedInv(h.k) && MailInv(h) && CleanRun(h, calls)
    ensures RunNotes(h, calls).Some? ==>
      var h' := RunNotes(h, calls).value;
      SchedInv(h'.k) && MailInv(h') && forall p :: Of(h'.received, p) <= Of(h'.accepted, p)
    decreases |calls|
  {
    hide SchedInv, Step, NoteNext, NoDeadSend;
    if calls != [] && Step(h.k, calls[0]).Next? {
      NoteNextKeeps(h, calls[0]);
      MailOrder(NoteNext(h, calls[0]), calls[1..]);
    }
  }

  /** A message sent to a dead process outlives it: once the slot is reaped and given to a new
      process, that process finds the message first in its mailbox. */
  lemma DeadMailReachesNext(k: Kernel, c: nat, me: Process, i: nat, dead: Process, body: nat, rsp: nat, at: nat, pages: Pages,
                            k1: Kernel, r1: Reply, k2: Kernel, r2: Reply, k3: Kernel, r3: Reply)
    requires SchedInv(k) && c < 64 && k.current == Some(c) && k.table[c] == Some(me)
    requires i < 64 && k.table[i] == Some(dead) && dead.state == Dead && dead.pid != ANY_PID && k.boxes[i] == []
    requires forall j :: 0 <= j < i ==> k.table[j].Some?
    requires Has(me.caps, CAP_IPC_SEND) && Has(me.caps, CAP_SPAWN) && CanFlow(me.flow, dead.flow)
    requires Step(k, Send(dead.pid, body)) == Next(k1, r1)
    requires Step(k1, Wait(dead.pid, true, rsp, at)) == Next(k2, r2)
    requires Step(k2, Spawn(0, true, Loads(pages))) == Next(k3, r3)
    ensures k3.table[i].Some? && r3 == Value(k3.table[i].value.pid) && k3.table[i].value.pid != dead.pid
    ensures k3.boxes[i] == [Message(me.pid, body)]
  {
    hide *;
    SendToDead(k, c, me, i, dead, body);
    ReapDead(k1, c, me, i, dead, rsp, at);
    SpawnOver(k1, c, me, i, dead, pages, k2, k3, r3);
  }

  /** Reaping slot i and spawning gives its mailbox to the newcomer. */
  lemma SpawnOver(k: Kernel, c: nat, me: Process, i: nat, dead: Process, pages: Pages, k2: Kernel, k3: Kernel, reply: Reply)
    requires SchedInv(k) && c < 64 && k.current == Some(c) && k.table[c] == Some(me)
    requires i < 64 && k.table[i] == Some(dead) && dead.state == Dead
    requires Has(me.caps, CAP_SPAWN) && forall j :: 0 <= j < i ==> k.table[j].Some?
    requires k2 == ReleaseSlot(k, i) && Step(k2, Spawn(0, true, Loads(pages))) == Next(k3, reply)
    ensures k3.table[i].Some? && reply == Value(k3.table[i].value.pid)
    ensures k3.table[i].value.pid != dead.pid && k3.table[i].value.flow == me.flow && k3.boxes[i] == k.boxes[i]
  {
    hide Has, ChildCaps, Create, Step, SchedInv, FirstFree;
    ReapOk(k, i);
    PidBelowNext(k, i);
    RunningIsNotDead(k, c, i);
    FirstFreeAt(k2.table, i, 0);
    CreateOk(k2, ChildCaps(me.caps, 0), me.flow, Loads(pages));
    CreatedAt(k2, ChildCaps(me.caps, 0), me.flow, pages);
    SpawnIs(k2, c, me, pages);
  }

  lemma PidBelowNext(k: Kernel, i: nat)
    requires SchedInv(k) && i < 64 && k.table[i].Some?
    ensures k.table[i].value.pid < k.nextPid
  {
  }

  lemma RunningIsNotDead(k: Kernel, c: nat, i: nat)
    requires SchedInv(k) && k.current == Some(c) && Is(k.table, i, Dead)
    ensures i != c
  {
  }

  lemma CreatedAt(k: Kernel, caps: bv64, flow: Label, pages: Pages)
    requires SchedInv(k) && FirstFree(k.table, 0).Some?
    ensures var r := Create(k, caps, flow, Loads(pages)); r.Created? && FirstFree(k.table, 0) == Some(r.slot)
  {
    CreateOk(k, caps, flow, Loads(pages));
    assert !k.stackUsed[FirstFree(k.table, 0).value];
  }

  lemma SendToDead(k: Kernel, c: nat, me: Process, i: nat, dead: Process, body: nat)
    requires SchedInv(k) && c < 64 && k.current == Some(c) && k.table[c] == Some(me)
    requires i < 64 && k.table[i] == Some(dead) && k.boxes[i] == []
    requires Has(me.caps, CAP_IPC_SEND) && CanFlow(me.flow, dead.flow)
    ensures var k' := k.(boxes := k.boxes[i := [Message(me.pid, body)]]);
      Step(k, Send(dead.pid, body)) == Next(k', Value(0)) && SchedInv(k')
  {
    hide Has, CanFlow;
    StepOk(k, Send(dead.pid, body));
    assert IndexOf(k.table, dead.pid, 0) == Some(i);
    assert [] + [Message(me.pid, body)] == [Message(me.pid, body)];
  }

  lemma ReapDead(k: Kernel, c: nat, me: Process, i: nat, dead: Process, rsp: nat, at: nat)
    requires SchedInv(k) && c < 64 && k.current == Some(c) && k.table[c] == Some(me)
    requires i < 64 && k.table[i] == Some(dead) && dead.state == Dead && dead.pid != ANY_PID
    ensures Step(k, Wait(dead.pid, true, rsp, at)) .Next? && Step(k, Wait(dead.pid, true, rsp, at)).k == ReleaseSlot(k, i)
  {
    assert Is(k.table, i, Dead);
    assert FirstDead(k.table, dead.pid, 0) == Some(i);
  }

  lemma SpawnIs(k: Kernel, c: nat, me: Process, pages: Pages)
    requires SchedInv(k) && c < 64 && k.current == Some(c) && k.table[c] == Some(me) && Has(me.caps, CAP_SPAWN)
    ensures Step(k, Spawn(0, true, Loads(pages))) ==
      match Create(k, ChildCaps(me.caps, 0), me.flow, Loads(pages))
      case Failed(k') => Next(k', Fail(NOENT))
      case Created(k', i) => Next(k', Value(k.nextPid))
      case CreateHalts => Halt
  {
  }

  lemma {:induction false} FirstFreeAt(t: Table, i: nat, from: nat)
    requires from <= i < 64 && t[i].None? && forall j :: from <= j < i ==> t[j].Some?
    ensures FirstFree(t, from) == Some(i)
    decreases i - from
  {
    if from < i {
      FirstFreeAt(t, i, from + 1);
    }
  }

  /** A kernel just booted has no past. */
  lemma BootMail(caps: bv64, flow: Label, pages: Pages)
    ensures Boot(caps, flow, pages).Some?
    ensures var k := Boot(caps, flow, pages).value;
      SchedInv(k) && MailInv(History(k, map[], map[], map[], seq(64, _ => [])))
  {
    hide Boot, SchedInv, MailInv;
    BootOk(caps, flow, pages);
    NoPastMail(Boot(caps, flow, pages).value);
  }

  lemma NoPastMail(k: Kernel)
    requires forall i :: 0 <= i < 64 ==> k.boxes[i] == []
    ensures MailInv(History(k, map[], map[], map[], seq(64, _ => [])))
  {
  }
}
