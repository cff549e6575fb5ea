// Flow labels over whole runs: data that reaches a process, through any chain of messages and
// spawns, could flow to its label when it left its source and still can.

module FlowLabels {
  import opened Options
  import opened UserStacks
  import opened Processes
  import opened ProcessRuns
  import opened Mailboxes

  /** Every source may flow to the label. */
  ghost predicate Carries(sources: set<Source>, flow: Label) {
    forall x :: x in sources ==> CanFlow(x.1, flow)
  }

  /** Whatever reached a live process, or waits in its mailbox, may flow to its label. */
  ghost predicate SlotFlow(known: map<nat, set<Source>>, p: Option<Process>, mark: seq<set<Source>>) {
    Live(p) ==>
      && Carries(Known(known, p.value.pid), p.value.flow)
      && forall n :: 0 <= n < |mark| ==> Carries(mark[n], p.value.flow)
  }

  ghost predicate FlowInv(h: History) {
    forall i :: 0 <= i < 64 ==> SlotFlow(h.known, h.k.table[i], h.marks[i])
  }

  lemma WithinTransitive(a: bv64, b: bv64, c: bv64)
    requires Within(a, b) && Within(b, c)
    ensures Within(a, c)
  {
    assert a & !c == (a & !b & !c) | (a & b & !c);
    assert a & b & !c == a & (b & !c);
    assert a & !b & !c == (a & !b) & !c;
  }

  lemma FlowTransitive(a: Label, b: Label, c: Label)
    requires CanFlow(a, b) && CanFlow(b, c)
    ensures CanFlow(a, c)
  {
    hide Within;
    WithinTransitive(a.secrecy, b.secrecy, c.secrecy);
    WithinTransitive(c.integrity, b.integrity, a.integrity);
  }

  lemma TaintFlows(a: Label, add: bv64, remove: bv64)
    ensures CanFlow(a, Label(AddBits(a.secrecy, add), DropBits(a.integrity, remove)))
  {
    assert a.secrecy & !(a.secrecy | add) == 0;
    assert (a.integrity & !remove) & !a.integrity == 0;
  }

  lemma CarriesOn(sources: set<Source>, a: Label, b: Label)
    requires Carries(sources, a) && CanFlow(a, b)
    ensures Carries(sources, b)
  {
    hide CanFlow;
    forall x | x in sources ensures CanFlow(x.1, b) {
      FlowTransitive(x.1, a, b);
    }
  }

  lemma SelfFlows(a: Label)
    ensures CanFlow(a, a)
  {
    assert a.secrecy & !a.secrecy == 0;
    assert a.integrity & !a.integrity == 0;
  }

  lemma OutflowCarries(h: History, me: Process, b: Label)
    requires Carries(Known(h.known, me.pid), me.flow) && CanFlow(me.flow, b)
    ensures Carries(Outflow(h, me), b)
  {
    hide CanFlow;
    CarriesOn(Known(h.known, me.pid), me.flow, b);
  }

  // ----- one call -----

  /** Calls that lower secrecy or raise integrity by decree. */
  predicate Relabels(call: Call) {
    call.Declassify? || call.Endorse?
  }

  /** How a call of `me` can change the label in a slot. */
  predicate FlowEvolves(call: Call, me: Process, mine: bool, a: Option<Process>, b: Process) {
    match a
    case None => call.Spawn? && b.flow == me.flow
    case Some(p) =>
      && b.pid == p.pid
      && (|| b.flow == p.flow
          || (mine && call.Taint?
              && b.flow == Label(AddBits(p.flow.secrecy, call.add), DropBits(p.flow.integrity, call.remove))))
  }

  lemma StepFlow(k: Kernel, call: Call, c: nat, me: Process, k': Kernel, i: nat)
    requires SchedInv(k) && CallBy(k, call, c, me, k') && !Relabels(call) && i < 64 && k'.table[i].Some?
    ensures FlowEvolves(call, me, i == c, k.table[i], k'.table[i].value)
  {
    if Quiet(call) {
      QuietFlow(k, call, c, me, k', i);
    } else {
      hide Has, AddBits, DropBits, CommonBits, SchedInv, Step;
      StepEvolves(k, call, c, me, k');
      assert Evolves(k.nextPid, call, me, i == c, k.table[i], k'.table[i]);
    }
  }

  lemma QuietFlow(k: Kernel, call: Call, c: nat, me: Process, k': Kernel, i: nat)
    requires Quiet(call) && CallBy(k, call, c, me, k') && !Relabels(call) && i < 64 && k'.table[i].Some?
    ensures FlowEvolves(call, me, i == c, k.table[i], k'.table[i].value)
  {
    hide Has, AddBits, DropBits, CommonBits, CanFlow, Within;
    QuietSame(k, call);
  }

  /** A slot's label only moves up, so what could flow to it still can. */
  lemma LabelRises(call: Call, me: Process, mine: bool, a: Process, b: Process)
    requires FlowEvolves(call, me, mine, Some(a), b)
    ensures CanFlow(a.flow, b.flow)
  {
    hide CanFlow, AddBits, DropBits;
    SelfFlows(a.flow);
    if call.Taint? {
      TaintFlows(a.flow, call.add, call.remove);
    }
  }

  lemma SlotFlowRises(known: map<nat, set<Source>>, a: Process, b: Process, mark: seq<set<Source>>)
    requires SlotFlow(known, Some(a), mark) && a.state != Dead && a.pid == b.pid && CanFlow(a.flow, b.flow)
    ensures SlotFlow(known, Some(b), mark)
  {
    hide CanFlow, Carries;
    CarriesOn(Known(known, b.pid), a.flow, b.flow);
    forall n | 0 <= n < |mark| ensures Carries(mark[n], b.flow) {
      CarriesOn(mark[n], a.flow, b.flow);
    }
  }

  lemma StaysLive(k: Kernel, call: Call, c: nat, me: Process, k': Kernel, i: nat)
    requires SchedInv(k) && CallBy(k, call, c, me, k') && i < 64 && Live(k'.table[i])
    ensures k.table[i].Some? ==> Live(k.table[i]) && k.table[i].value.pid == k'.table[i].value.pid < k.nextPid
    ensures k.table[i].None? ==> call.Spawn? && k.nextPid == k'.table[i].value.pid
    ensures k.table[i].None? ==> Step(k, call).reply == Value(k.nextPid)
  {
    if k.table[i].Some? {
      PidBelowNext(k, i);
    }
    hide Has, SchedInv, Step, DoSpawn;
    StepEvolves(k, call, c, me, k');
    assert Evolves(k.nextPid, call, me, i == c, k.table[i], k'.table[i]);
    if call.Spawn? {
      SpawnReply(k, call, c, me, k', i);
    }
  }

  lemma SpawnReply(k: Kernel, call: Call, c: nat, me: Process, k': Kernel, i: nat)
    requires SchedInv(k) && CallBy(k, call, c, me, k') && i < 64 && call.Spawn?
    ensures k'.table[i] != k.table[i] ==> Step(k, call).reply == Value(k.nextPid)
  {
    CreateOk(k, ChildCaps(me.caps, call.mask), me.flow, call.load);
  }

  /** Calls other than send and receive, slot by slot. */
  lemma OtherSlotFlow(h: History, call: Call, c: nat, me: Process, k': Kernel, i: nat)
    requires SchedInv(h.k) && CallBy(h.k, call, c, me, k') && MailInv(h) && FlowInv(h) && !Relabels(call)
    requires !call.Send? && !call.Receive? && i < 64 && Live(k'.table[i])
    ensures h.k.table[i].Some? ==> SlotFlow(h.known, k'.table[i], h.marks[i])
    ensures h.k.table[i].None? ==> h.marks[i] == [] && Carries(Outflow(h, me), k'.table[i].value.flow)
  {
    hide Step, Carries, CanFlow, Has, AddBits, DropBits, Logs, NoDeadSend, TableOk;
    StaysLive(h.k, call, c, me, k', i);
    StepFlow(h.k, call, c, me, k', i);
    assert SlotMail(h.accepted, h.received, h.k.table[i], h.k.boxes[i], h.marks[i]);
    assert SlotFlow(h.known, h.k.table[i], h.marks[i]);
    if h.k.table[i].Some? {
      LabelRises(call, me, i == c, h.k.table[i].value, k'.table[i].value);
      SlotFlowRises(h.known, h.k.table[i].value, k'.table[i].value, h.marks[i]);
    } else {
      CurrentLives(h.k, c, me, k', call);
      assert SlotFlow(h.known, h.k.table[c], h.marks[c]);
      SelfFlows(me.flow);
      OutflowCarries(h, me, me.flow);
    }
  }

  lemma OtherKeepsFlow(h: History, call: Call, c: nat, me: Process, k': Kernel)
    requires SchedInv(h.k) && CallBy(h.k, call, c, me, k') && MailInv(h) && FlowInv(h) && !Relabels(call)
    requires !call.Send? && !call.Receive?
    ensures FlowInv(Note(h, call, c, me))
  {
    hide Step, Carries, CanFlow, MailInv, SchedInv, FlowInv, Outflow;
    NothingGot(h, call, c, me, k');
    var h' := Note(h, call, c, me);
    forall i | 0 <= i < 64 ensures SlotFlow(h'.known, h'.k.table[i], h'.marks[i]) {
      if Live(k'.table[i]) {
        OtherSlotFlow(h, call, c, me, k', i);
        StaysLive(h.k, call, c, me, k', i);
        if call.Spawn? {
          SpawnReply(h.k, call, c, me, k', i);
        }
      }
    }
    FlowFrom(h');
  }

  lemma FlowFrom(h: History)
    requires forall i :: 0 <= i < 64 ==> SlotFlow(h.known, h.k.table[i], h.marks[i])
    ensures FlowInv(h)
  {
  }

  lemma NothingGot(h: History, call: Call, c: nat, me: Process, k': Kernel)
    requires SchedInv(h.k) && CallBy(h.k, call, c, me, k') && !call.Send? && !call.Receive?
    ensures !Step(h.k, call).reply.Got?
    ensures call.Spawn? && Step(h.k, call).reply.Value? ==> Step(h.k, call).reply.n == h.k.nextPid
  {
    if Quiet(call) {
      LabelMail(h.k, call, c, me, k');
    } else {
      LoudMail(h.k, call, c, me, k');
    }
  }

  lemma SendKeepsFlow(h: History, call: Call, c: nat, me: Process, k': Kernel)
    requires SchedInv(h.k) && CallBy(h.k, call, c, me, k') && FlowInv(h) && call.Send?
    ensures FlowInv(Note(h, call, c, me))
  {
    hide Step, Carries, CanFlow, SchedInv, Outflow;
    SendMail(h.k, call, c, me, k');
    CurrentLives(h.k, c, me, k', call);
    if Step(h.k, call).reply.Value? {
      var i := Addressee(h.k, call);
      assert SlotFlow(h.known, h.k.table[c], h.marks[c]);
      OutflowCarries(h, me, h.k.table[i].value.flow);
      var h' := Note(h, call, c, me);
      forall j | 0 <= j < 64 ensures SlotFlow(h'.known, h'.k.table[j], h'.marks[j]) {
        assert SlotFlow(h.known, h.k.table[j], h.marks[j]);
      }
    }
  }

  lemma ReceiveKeepsFlow(h: History, call: Call, c: nat, me: Process, k': Kernel)
    requires SchedInv(h.k) && CallBy(h.k, call, c, me, k') && MailInv(h) && FlowInv(h) && call.Receive?
    ensures FlowInv(Note(h, call, c, me))
  {
    hide Step, CanFlow, SchedInv, TableOk, Logs;
    ReceiveMail(h.k, call, c, me, k');
    CurrentLives(h.k, c, me, k', call);
    MyPid(h.k, c, me);
    assert SlotFlow(h.known, h.k.table[c], h.marks[c]);
    var h' := Note(h, call, c, me);
    forall j | 0 <= j < 64 ensures SlotFlow(h'.known, h'.k.table[j], h'.marks[j]) {
      assert SlotFlow(h.known, h.k.table[j], h.marks[j]);
    }
  }

  lemma MyPid(k: Kernel, c: nat, me: Process)
    requires SchedInv(k) && c < 64 && k.table[c] == Some(me)
    ensures forall j :: 0 <= j < 64 && j != c && k.table[j].Some? ==> k.table[j].value.pid != me.pid
  {
  }

  // ----- whole runs -----

  lemma NoteNextKeepsFlow(h: History, call: Call)
    requires SchedInv(h.k) && MailInv(h) && FlowInv(h) && !Relabels(call) && Step(h.k, call).Next?
    ensures FlowInv(NoteNext(h, call))
  {
    hide MailInv, FlowInv, Note, Step;
    if Current(h.k).Some? {
      CurrentCalls(h.k, call);
      var c, me, k' := h.k.current.value, Current(h.k).value, Step(h.k, call).k;
      if call.Send? {
        SendKeepsFlow(h, call, c, me, k');
      } else if call.Receive? {
        ReceiveKeepsFlow(h, call, c, me, k');
      } else {
        OtherKeepsFlow(h, call, c, me, k');
      }
    }
  }

  /** Over every run without declassify and endorse and without sends to dead processes: every
      source whose data reached a live process, by any chain of messages and spawns, had all
      its secrecy tags contained in that process's secrecy and held every integrity tag the
      process still provides. */
  lemma {:induction false} LabelsSound(h: History, calls: seq<Call>)
    requires SchedInv(h.k) && MailInv(h) && FlowInv(h) && CleanRun(h, calls)
    requires forall n :: 0 <= n < |calls| ==> !Relabels(calls[n])
    ensures RunNotes(h, calls).Some? ==>
      var h' := RunNotes(h, calls).value;
      FlowInv(h') && forall i, x :: 0 <= i < 64 && Live(h'.k.table[i]) && x in Known(h'.known, h'.k.table[i].value.pid) ==>
        && Within(x.1.secrecy, h'.k.table[i].value.flow.secrecy)
        && Within(h'.k.table[i].value.flow.integrity, x.1.integrity)
    decreases |calls|
  {
    hide SchedInv, Step, NoteNext, NoDeadSend, MailInv, FlowInv, CanFlow;
    if calls != [] {
      if Step(h.k, calls[0]).Next? {
        NoteNextKeeps(h, calls[0]);
        NoteNextKeepsFlow(h, calls[0]);
        LabelsSound(NoteNext(h, calls[0]), calls[1..]);
      }
    } else {
      forall i, x | 0 <= i < 64 && Live(h.k.table[i]) && x in Known(h.known, h.k.table[i].value.pid)
        ensures Within(x.1.secrecy, h.k.table[i].value.flow.secrecy)
        ensures Within(h.k.table[i].value.flow.integrity, x.1.integrity)
      {
        SlotSound(h, i, x);
      }
    }
  }

  lemma SlotSound(h: History, i: nat, x: Source)
    requires FlowInv(h) && i < 64 && Live(h.k.table[i]) && x in Known(h.known, h.k.table[i].value.pid)
    ensures Within(x.1.secrecy, h.k.table[i].value.flow.secrecy)
    ensures Within(h.k.table[i].value.flow.integrity, x.1.integrity)
  {
    hide Within;
    assert SlotFlow(h.known, h.k.table[i], h.marks[i]);
  }

  /** A history without a past satisfies the invariant. */
  lemma NoPastSound(k: Kernel)
    ensures FlowInv(History(k, map[], map[], map[], seq(64, _ => [])))
  {
    hide CanFlow;
  }

  /** The same for the runs of a booted kernel, whose past is empty. */
  lemma BootLabelsSound(caps: bv64, flow: Label, pages: Pages, calls: seq<Call>)
    requires forall n :: 0 <= n < |calls| ==> !Relabels(calls[n])
    ensures Boot(caps, flow, pages).Some?
    ensures var h := History(Boot(caps, flow, pages).value, map[], map[], map[], seq(64, _ => []));
      CleanRun(h, calls) && RunNotes(h, calls).Some? ==>
        var h' := RunNotes(h, calls).value;
        forall i, x :: 0 <= i < 64 && Live(h'.k.table[i]) && x in Known(h'.known, h'.k.table[i].value.pid) ==>
          && Within(x.1.secrecy, h'.k.table[i].value.flow.secrecy)
          && Within(h'.k.table[i].value.flow.integrity, x.1.integrity)
  {
    hide Boot, SchedInv, MailInv, FlowInv, Within, CleanRun, RunNotes;
    BootMail(caps, flow, pages);
    var k := Boot(caps, flow, pages).value;
    NoPastSound(k);
    var h := History(k, map[], map[], map[], seq(64, _ => []));
    if CleanRun(h, calls) {
      LabelsSound(h, calls);
    }
  }

  // ----- why dead addressees are excepted -----

  lemma WaitIs(k: Kernel, c: nat, me: Process, w: nat, rsp: nat, at: nat)
    requires c < 64 && k.current == Some(c) && k.table[c] == Some(me)
    ensures Step(k, Wait(w, false, rsp, at)) == DoWait(k, c, me, w, false, rsp, at)
  {
    hide DoWait;
  }

  lemma BlockingKeepsDead(k: Kernel, c: nat, me: Process, w: nat, rsp: nat, at: nat, i: nat, dead: Process, k': Kernel, reply: Reply)
    requires SchedInv(k) && c < 64 && k.current == Some(c) && k.table[c] == Some(me)
    requires i < 64 && k.table[i] == Some(dead) && dead.state == Dead && FirstDead(k.table, w, 0).None?
    requires forall j :: 0 <= j < i ==> k.table[j].Some?
    requires Step(k, Wait(w, false, rsp, at)) == Next(k', reply)
    ensures SchedInv(k') && k'.table[i] == Some(dead) && k'.boxes == k.boxes
    ensures forall j :: 0 <= j < i ==> k'.table[j].Some?
  {
    hide Step, DoWait, SchedInv, FirstDead;
    WaitIs(k, c, me, w, rsp, at);
    BlockOk(k, c, me, w, rsp, at);
    RunningIsNotDead(k, c, i);
    assert Dispatched(k.table[c := Some(Sleeper(me, w, rsp))], k'.table);
  }

  /** A sender writes to a dead process whose label it may flow to and then waits. The process that
      runs next reaps the dead one and spawns: the newcomer has the message first in its mailbox
      and the label of its parent, to which the sender may not flow. */
  lemma DeadMailCrossesLabels(k: Kernel, c: nat, sender: Process, i: nat, dead: Process, body: nat, w: nat, rsp: nat, at: nat, pages: Pages,
                              k1: Kernel, r1: Reply, k2: Kernel, r2: Reply, b: nat, parent: Process,
                              k3: Kernel, r3: Reply, k4: Kernel, r4: Reply)
    requires SchedInv(k) && c < 64 && k.current == Some(c) && k.table[c] == Some(sender)
    requires i < 64 && k.table[i] == Some(dead) && dead.state == Dead && dead.pid != ANY_PID && k.boxes[i] == []
    requires forall j :: 0 <= j < i ==> k.table[j].Some?
    requires Has(sender.caps, CAP_IPC_SEND) && CanFlow(sender.flow, dead.flow)
    requires Step(k, Send(dead.pid, body)) == Next(k1, r1)
    requires FirstDead(k1.table, w, 0).None? && Step(k1, Wait(w, false, rsp, at)) == Next(k2, r2)
    requires b < 64 && k2.current == Some(b) && k2.table[b] == Some(parent) && Has(parent.caps, CAP_SPAWN)
    requires !CanFlow(sender.flow, parent.flow)
    requires Step(k2, Wait(dead.pid, true, rsp, at)) == Next(k3, r3)
    requires Step(k3, Spawn(0, true, Loads(pages))) == Next(k4, r4)
    ensures k4.table[i].Some? && k4.table[i].value.pid != dead.pid && k4.boxes[i] == [Message(sender.pid, body)]
    ensures !CanFlow(sender.flow, k4.table[i].value.flow)
  {
    hide *;
    SendToDead(k, c, sender, i, dead, body);
    BlockingKeepsDead(k1, c, sender, w, rsp, at, i, dead, k2, r2);
    ReapDead(k2, b, parent, i, dead, rsp, at);
    SpawnOver(k2, b, parent, i, dead, pages, k3, k4, r4);
  }
}
