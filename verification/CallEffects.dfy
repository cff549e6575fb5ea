// What every system call answers and changes, bit by bit where it changes bits. `b` stands for any
// set of bits throughout.

module CallEffects {
  import opened Options
  import opened UserStacks
  import opened Processes
  import opened ProcessRuns

  // ----- sets of bits -----

  predicate HasAll(x: bv64, b: bv64) {
    x & b == b
  }

  predicate HasNone(x: bv64, b: bv64) {
    x & b == 0
  }

  /** z holds what both x and y hold. */
  ghost predicate IsMeet(z: bv64, x: bv64, y: bv64) {
    forall b :: HasAll(z, b) <==> HasAll(x, b) && HasAll(y, b)
  }

  /** z holds what x or y holds. */
  ghost predicate IsJoin(z: bv64, x: bv64, y: bv64) {
    forall b :: HasNone(z, b) <==> HasNone(x, b) && HasNone(y, b)
  }

  /** z holds what x holds and y does not. */
  ghost predicate IsRest(z: bv64, x: bv64, y: bv64) {
    forall b :: HasAll(z, b) <==> HasAll(x, b) && HasNone(y, b)
  }

  lemma MeetHas(x: bv64, y: bv64, b: bv64)
    requires HasAll(CommonBits(x, y), b)
    ensures HasAll(x, b) && HasAll(y, b)
  {
  }

  lemma HasMeet(x: bv64, y: bv64, b: bv64)
    requires HasAll(x, b) && HasAll(y, b)
    ensures HasAll(CommonBits(x, y), b)
  {
  }

  lemma MeetIs(x: bv64, y: bv64)
    ensures IsMeet(CommonBits(x, y), x, y)
  {
    hide CommonBits, HasAll;
    forall b ensures HasAll(CommonBits(x, y), b) <==> HasAll(x, b) && HasAll(y, b) {
      if HasAll(CommonBits(x, y), b) {
        MeetHas(x, y, b);
      }
      if HasAll(x, b) && HasAll(y, b) {
        HasMeet(x, y, b);
      }
    }
  }

  lemma JoinLacks(x: bv64, y: bv64, b: bv64)
    requires HasNone(AddBits(x, y), b)
    ensures HasNone(x, b) && HasNone(y, b)
  {
  }

  lemma LacksJoin(x: bv64, y: bv64, b: bv64)
    requires HasNone(x, b) && HasNone(y, b)
    ensures HasNone(AddBits(x, y), b)
  {
  }

  lemma JoinIs(x: bv64, y: bv64)
    ensures IsJoin(AddBits(x, y), x, y)
  {
    hide AddBits, HasNone;
    forall b ensures HasNone(AddBits(x, y), b) <==> HasNone(x, b) && HasNone(y, b) {
      if HasNone(AddBits(x, y), b) {
        JoinLacks(x, y, b);
      }
      if HasNone(x, b) && HasNone(y, b) {
        LacksJoin(x, y, b);
      }
    }
  }

  lemma RestHas(x: bv64, y: bv64, b: bv64)
    requires HasAll(DropBits(x, y), b)
    ensures HasAll(x, b) && HasNone(y, b)
  {
  }

  lemma HasRest(x: bv64, y: bv64, b: bv64)
    requires HasAll(x, b) && HasNone(y, b)
    ensures HasAll(DropBits(x, y), b)
  {
  }

  lemma RestIs(x: bv64, y: bv64)
    ensures IsRest(DropBits(x, y), x, y)
  {
    hide DropBits, HasAll, HasNone;
    forall b ensures HasAll(DropBits(x, y), b) <==> HasAll(x, b) && HasNone(y, b) {
      if HasAll(DropBits(x, y), b) {
        RestHas(x, y, b);
      }
      if HasAll(x, b) && HasNone(y, b) {
        HasRest(x, y, b);
      }
    }
  }

  lemma WithinHas(x: bv64, y: bv64, b: bv64)
    requires Within(x, y) && HasAll(x, b)
    ensures HasAll(y, b)
  {
  }

  lemma HasWithin(x: bv64, y: bv64)
    requires HasAll(y, x)
    ensures Within(x, y)
  {
  }

  lemma HasSelf(x: bv64)
    ensures HasAll(x, x)
  {
  }

  /** One set lies within another exactly when every set of bits in the first is in the second. */
  lemma WithinIff(x: bv64, y: bv64)
    ensures Within(x, y) <==> forall b :: HasAll(x, b) ==> HasAll(y, b)
  {
    hide Within, HasAll;
    if Within(x, y) {
      forall b | HasAll(x, b) ensures HasAll(y, b) {
        WithinHas(x, y, b);
      }
    }
    if forall b :: HasAll(x, b) ==> HasAll(y, b) {
      HasSelf(x);
      assert HasAll(y, x);
      HasWithin(x, y);
    }
  }

  /** Data may flow when the receiver has all secrecy of the sender and the sender all integrity of
      the receiver. */
  lemma CanFlowIff(src: Label, dst: Label)
    ensures CanFlow(src, dst) <==>
      && (forall b :: HasAll(src.secrecy, b) ==> HasAll(dst.secrecy, b))
      && (forall b :: HasAll(dst.integrity, b) ==> HasAll(src.integrity, b))
  {
    hide Within, HasAll;
    WithinIff(src.secrecy, dst.secrecy);
    WithinIff(dst.integrity, src.integrity);
  }

  // ----- spawning -----

  /** The capabilities of a child: those of the parent, cut down to the mask unless that is 0. */
  ghost predicate IsChildOf(child: bv64, parent: bv64, mask: bv64) {
    forall b :: HasAll(child, b) <==> HasAll(parent, b) && (mask == 0 || HasAll(mask, b))
  }

  lemma ChildCapsSay(parent: bv64, mask: bv64)
    ensures IsChildOf(ChildCaps(parent, mask), parent, mask)
  {
    hide CommonBits, HasAll;
    MeetIs(parent, if mask == 0 then CAP_ALL else mask);
    forall b ensures HasAll(CAP_ALL, b) {
      AllHas(b);
    }
  }

  lemma AllHas(b: bv64)
    ensures HasAll(CAP_ALL, b)
  {
  }

  /** A child has no more than its parent, and no more than a mask other than 0. */
  lemma ChildWithin(child: bv64, parent: bv64, mask: bv64)
    requires IsChildOf(child, parent, mask)
    ensures Within(child, parent) && (mask != 0 ==> Within(child, mask))
  {
    hide Within, HasAll;
    WithinIff(child, parent);
    WithinIff(child, mask);
  }

  /** A child holds nothing that its parent or a mask other than 0 lacks. */
  lemma ChildLacks(child: bv64, parent: bv64, mask: bv64, b: bv64)
    requires IsChildOf(child, parent, mask) && ((mask != 0 && HasNone(mask, b)) || HasNone(parent, b))
    ensures HasNone(child, b)
  {
    hide HasAll, HasNone;
    var x := Common(child, b);
    if mask != 0 && HasNone(mask, b) {
      NothingCommon(child, mask, b);
    } else {
      NothingCommon(child, parent, b);
    }
  }

  function Common(x: bv64, b: bv64): bv64 {
    x & b
  }

  lemma NothingCommon(x: bv64, y: bv64, b: bv64)
    requires HasNone(y, b)
    ensures HasAll(x, Common(x, b)) && (HasAll(y, Common(x, b)) ==> HasNone(x, b))
  {
  }

  /** A spawn by a process that holds bit 0x1: the newcomer takes the first free slot, has the next
      pid, its parent's label, and the parent's capabilities cut down to the mask. */
  lemma SpawnSays(k: Kernel, call: Call, c: nat, me: Process, k': Kernel)
    requires SchedInv(k) && CallBy(k, call, c, me, k') && call.Spawn?
    ensures var reply := Step(k, call).reply;
      if me.caps & 0x1 != 0x1 then reply == Fail(PERM) && k' == k
      else if !call.known || (forall j :: 0 <= j < 64 ==> k.table[j].Some?) then reply == Fail(NOENT) && k' == k
      else if call.load.LoadFails? then reply == Fail(NOENT) && k' == k.(nextPid := k.nextPid + 1)
      else
        && reply == Value(k.nextPid) && k'.nextPid == k.nextPid + 1
        && exists i ::
             && 0 <= i < 64 && k.table[i].None? && (forall j :: 0 <= j < i ==> k.table[j].Some?)
             && k'.table[i].Some? && k'.table == k.table[i := k'.table[i]]
             && var p := k'.table[i].value;
             && p.pid == k.nextPid && p.state == Runnable && p.flow == me.flow && IsChildOf(p.caps, me.caps, call.mask)
  {
    hide SchedInv, ChildCaps, CommonBits, Newborn, EnqueueProc, IsChildOf;
    HasSpawn(me.caps);
    CreateOk(k, ChildCaps(me.caps, call.mask), me.flow, call.load);
    var slot := FirstFree(k.table, 0);
    if slot.Some? && call.load.Loads? {
      FreeSlotIsIdle(k, slot.value);
      ChildCapsSay(me.caps, call.mask);
      NewbornIs(k.nextPid, ChildCaps(me.caps, call.mask), me.flow, call.load.pages);
    }
    if slot.Some? && call.load.LoadFails? {
      FailedCreateOk(k, slot.value);
    }
  }

  lemma HasSpawn(caps: bv64)
    ensures Has(caps, CAP_SPAWN) <==> caps & 0x1 == 0x1
  {
  }

  // ----- capabilities -----

  /** k' is k with process p in slot i. */
  predicate OnlySlot(k: Kernel, k': Kernel, i: nat, p: Process)
    requires i < 64
  {
    k' == k.(table := k.table[i := Some(p)])
  }

  /** Slot i holds the process that the call names. */
  predicate Names(k: Kernel, target: nat, i: nat) {
    i < 64 && k.table[i].Some? && k.table[i].value.pid == target && forall j :: 0 <= j < i && k.table[j].Some? ==> k.table[j].value.pid != target
  }

  ghost predicate NoOne(k: Kernel, target: nat) {
    forall j :: 0 <= j < 64 && k.table[j].Some? ==> k.table[j].value.pid != target
  }

  lemma Found(k: Kernel, target: nat, i: nat)
    ensures Names(k, target, i) ==> IndexOf(k.table, target, 0) == Some(i)
    ensures NoOne(k, target) <==> IndexOf(k.table, target, 0).None?
  {
  }

  /** A grant by a process that holds bit 0x800 adds those of the bits that the granter holds to
      the process named; without the capability or the process nothing happens. */
  lemma GrantSays(k: Kernel, call: Call, c: nat, me: Process, k': Kernel, i: nat)
    requires CallBy(k, call, c, me, k') && call.Grant?
    ensures var reply := Step(k, call).reply;
      && (me.caps & 0x800 != 0x800 ==> reply == Fail(PERM) && k' == k)
      && (me.caps & 0x800 == 0x800 && NoOne(k, call.target) ==> reply == Fail(NOENT) && k' == k)
      && (me.caps & 0x800 == 0x800 && Names(k, call.target, i) ==>
            && reply.Bits? && k'.table[i].Some?
            && var p, p' := k.table[i].value, k'.table[i].value;
            && OnlySlot(k, k', i, p.(caps := p'.caps))
            && IsMeet(reply.bits, me.caps, call.bits) && IsJoin(p'.caps, p.caps, reply.bits))
  {
    hide Names, NoOne, CommonBits, AddBits, IndexOf, IsMeet, IsJoin;
    Found(k, call.target, i);
    HasGrant(me.caps);
    if me.caps & 0x800 == 0x800 && Names(k, call.target, i) {
      NamesSlot(k, call.target, i);
      var p := k.table[i].value;
      MeetIs(me.caps, call.bits);
      JoinIs(p.caps, CommonBits(me.caps, call.bits));
    }
  }

  lemma NamesSlot(k: Kernel, target: nat, i: nat)
    requires Names(k, target, i)
    ensures i < 64 && k.table[i].Some? && k.table[i].value.pid == target
  {
  }

  lemma HasGrant(caps: bv64)
    ensures Has(caps, CAP_GRANT) <==> caps & 0x800 == 0x800
  {
  }

  /** A revocation clears exactly the bits given. */
  lemma RevokeSays(k: Kernel, call: Call, c: nat, me: Process, k': Kernel, i: nat)
    requires CallBy(k, call, c, me, k') && call.Revoke?
    ensures var reply := Step(k, call).reply;
      && (me.caps & 0x800 != 0x800 ==> reply == Fail(PERM) && k' == k)
      && (me.caps & 0x800 == 0x800 && NoOne(k, call.target) ==> reply == Fail(NOENT) && k' == k)
      && (me.caps & 0x800 == 0x800 && Names(k, call.target, i) ==>
            && reply == Value(0) && k'.table[i].Some?
            && var p, p' := k.table[i].value, k'.table[i].value;
            && OnlySlot(k, k', i, p.(caps := p'.caps))
            && IsRest(p'.caps, p.caps, call.bits))
  {
    hide Names, NoOne, DropBits, IndexOf, IsRest;
    Found(k, call.target, i);
    HasGrant(me.caps);
    if me.caps & 0x800 == 0x800 && Names(k, call.target, i) {
      NamesSlot(k, call.target, i);
      var p := k.table[i].value;
      RestIs(p.caps, call.bits);
    }
  }

  // ----- labels -----

  /** Tainting adds secrecy and drops integrity of the caller, and is always permitted. */
  lemma TaintSays(k: Kernel, call: Call, c: nat, me: Process, k': Kernel)
    requires CallBy(k, call, c, me, k') && call.Taint?
    ensures Step(k, call).reply == Value(0) && k'.table[c].Some?
    ensures var f := k'.table[c].value.flow;
      && OnlySlot(k, k', c, me.(flow := f))
      && IsJoin(f.secrecy, me.flow.secrecy, call.add) && IsRest(f.integrity, me.flow.integrity, call.remove)
  {
    hide AddBits, DropBits, IsJoin, IsRest;
    JoinIs(me.flow.secrecy, call.add);
    RestIs(me.flow.integrity, call.remove);
  }

  /** Declassifying drops exactly the bits given from the caller's secrecy, with bit 0x2_0000. */
  lemma DeclassifySays(k: Kernel, call: Call, c: nat, me: Process, k': Kernel)
    requires CallBy(k, call, c, me, k') && call.Declassify?
    ensures me.caps & 0x2_0000 != 0x2_0000 ==> Step(k, call).reply == Fail(PERM) && k' == k
    ensures me.caps & 0x2_0000 == 0x2_0000 ==>
      && Step(k, call).reply == Value(0) && k'.table[c].Some?
      && var f := k'.table[c].value.flow;
      && OnlySlot(k, k', c, me.(flow := f)) && f.integrity == me.flow.integrity
      && IsRest(f.secrecy, me.flow.secrecy, call.bits)
  {
    hide DropBits, IsRest;
    RestIs(me.flow.secrecy, call.bits);
  }

  /** Endorsing adds exactly the bits given to the integrity of the process named, with bit 0x4_0000. */
  lemma EndorseSays(k: Kernel, call: Call, c: nat, me: Process, k': Kernel, i: nat)
    requires CallBy(k, call, c, me, k') && call.Endorse?
    ensures var reply := Step(k, call).reply;
      && (me.caps & 0x4_0000 != 0x4_0000 ==> reply == Fail(PERM) && k' == k)
      && (me.caps & 0x4_0000 == 0x4_0000 && NoOne(k, call.target) ==> reply == Fail(NOENT) && k' == k)
      && (me.caps & 0x4_0000 == 0x4_0000 && Names(k, call.target, i) ==>
            && reply == Value(0) && k'.table[i].Some?
            && var p, f := k.table[i].value, k'.table[i].value.flow;
            && OnlySlot(k, k', i, p.(flow := f)) && f.secrecy == p.flow.secrecy
            && IsJoin(f.integrity, p.flow.integrity, call.bits))
  {
    hide Names, NoOne, AddBits, IndexOf, IsJoin;
    Found(k, call.target, i);
    HasEndorse(me.caps);
    if me.caps & 0x4_0000 == 0x4_0000 && Names(k, call.target, i) {
      NamesSlot(k, call.target, i);
      JoinIs(k.table[i].value.flow.integrity, call.bits);
    }
  }

  lemma HasEndorse(caps: bv64)
    ensures Has(caps, CAP_ENDORSE) <==> caps & 0x4_0000 == 0x4_0000
  {
  }

  // ----- messages -----

  /** A send needs bit 0x10, a process of that pid, permitted flow and fewer than 32 queued
      messages; it then appends one message that names the sender. */
  lemma SendSays(k: Kernel, call: Call, c: nat, me: Process, k': Kernel, i: nat)
    requires CallBy(k, call, c, me, k') && call.Send?
    ensures var reply := Step(k, call).reply;
      && (me.caps & 0x10 != 0x10 ==> reply == Fail(PERM) && k' == k)
      && (me.caps & 0x10 == 0x10 && NoOne(k, call.target) ==> reply == Fail(NOENT) && k' == k)
      && (me.caps & 0x10 == 0x10 && Names(k, call.target, i) ==>
            if !CanFlow(me.flow, k.table[i].value.flow) then reply == Fail(PERM) && k' == k
            else if |k.boxes[i]| == 32 then reply == Fail(NOMEM) && k' == k
            else reply == Value(0) && k' == k.(boxes := k.boxes[i := k.boxes[i] + [Message(me.pid, call.body)]]))
  {
    hide Names, NoOne, IndexOf, CanFlow;
    Found(k, call.target, i);
    HasSend(me.caps);
    if Names(k, call.target, i) {
      NamesSlot(k, call.target, i);
    }
  }

  lemma HasSend(caps: bv64)
    ensures Has(caps, CAP_IPC_SEND) <==> caps & 0x10 == 0x10
  {
  }

  /** A receive needs bit 0x20 and takes the oldest message of the caller. */
  lemma ReceiveSays(k: Kernel, call: Call, c: nat, me: Process, k': Kernel)
    requires CallBy(k, call, c, me, k') && call.Receive?
    ensures var reply := Step(k, call).reply;
      if me.caps & 0x20 != 0x20 then reply == Fail(PERM) && k' == k
      else if k.boxes[c] == [] then reply == Fail(AGAIN) && k' == k
      else reply == Got(k.boxes[c][0]) && k' == k.(boxes := k.boxes[c := k.boxes[c][1..]])
  {
  }

  // ----- waiting and exiting -----

  /** Zombie j answers a wait for w: 0 and 0xFFFF_FFFF ask for any. */
  predicate Answers(k: Kernel, w: nat, j: int) {
    Is(k.table, j, Dead) && (w == 0 || w == 0xFFFF_FFFF || w == k.table[j].value.pid)
  }

  /** A wait frees the first zombie that answers it; without one it is refused or blocks. */
  lemma WaitSays(k: Kernel, call: Call, c: nat, me: Process, k': Kernel)
    requires SchedInv(k) && CallBy(k, call, c, me, k') && call.Wait?
    ensures if exists j :: Answers(k, call.pid, j) then
        exists j ::
          && Answers(k, call.pid, j) && (forall i :: 0 <= i < j ==> !Answers(k, call.pid, i))
          && k' == k.(table := k.table[j := None], stackUsed := k.stackUsed[j := false])
      else if call.nohang then k' == k && Step(k, call).reply == Fail(AGAIN)
      else k'.table[c] == Some(me.(state := Blocked, waitingFor := Some(call.pid), rsp := call.rsp))
  {
    hide SchedInv, Schedule, UserRange;
    CurrentRuns(k, c, me);
    var dead := FirstDead(k.table, call.pid, 0);
    if dead.Some? {
      assert Answers(k, call.pid, dead.value);
    } else {
      assert forall j :: !Answers(k, call.pid, j);
      if !call.nohang {
        BlockOk(k, c, me, call.pid, call.rsp, call.statusAt);
      }
    }
  }

  /** An exit wakes exactly the blocked processes that wait for its pid or for 0xFFFF_FFFF. */
  lemma ExitSays(k: Kernel, call: Call, c: nat, me: Process, k': Kernel, i: nat)
    requires SchedInv(k) && CallBy(k, call, c, me, k') && call.Exit? && Is(k.table, i, Blocked)
    ensures !Is(k'.table, i, Blocked) <==>
      k.table[i].value.waitingFor == Some(me.pid) || k.table[i].value.waitingFor == Some(0xFFFF_FFFF)
    ensures k'.table[c] == Some(me.(state := Dead, exitStatus := call.status)) && k'.boxes == k.boxes[c := []]
  {
    hide SchedInv, Step, Has, Resumable;
    CurrentRuns(k, c, me);
    ExitEvolves(k, call, c, me, k');
    assert Evolves(k.nextPid, call, me, false, k.table[i], k'.table[i]);
    assert Evolves(k.nextPid, call, me, true, k.table[c], k'.table[c]);
    assert Is(k'.table, i, Blocked) ==> !Concerned(k'.table, me.pid, i);
    BlockedWaits(k, i);
  }

  lemma BlockedWaits(k: Kernel, i: nat)
    requires SchedInv(k) && Is(k.table, i, Blocked)
    ensures k.table[i].value.waitingFor.Some?
  {
  }

  // ----- a bit that was left out -----

  /** Process `pid` has existed and, if it is in the table, holds no bit of b. */
  ghost predicate Without(k: Kernel, pid: nat, b: bv64) {
    pid < k.nextPid && forall i :: 0 <= i < 64 && k.table[i].Some? && k.table[i].value.pid == pid ==> HasNone(k.table[i].value.caps, b)
  }

  /** The call grants none of b to process `pid`. */
  predicate GrantsNone(call: Call, pid: nat, b: bv64) {
    call.Grant? && call.target == pid ==> HasNone(call.bits, b)
  }

  lemma StepKeepsWithout(k: Kernel, call: Call, c: nat, me: Process, k': Kernel, pid: nat, b: bv64)
    requires SchedInv(k) && CallBy(k, call, c, me, k') && Without(k, pid, b) && GrantsNone(call, pid, b)
    ensures Without(k', pid, b)
  {
    hide SchedInv, Step, AddBits, DropBits, CommonBits, Has;
    StepEvolves(k, call, c, me, k');
    forall i | 0 <= i < 64 && k'.table[i].Some? && k'.table[i].value.pid == pid ensures HasNone(k'.table[i].value.caps, b) {
      assert Evolves(k.nextPid, call, me, i == c, k.table[i], k'.table[i]);
      SlotKeepsWithout(k, call, c, me, k', i, b);
    }
  }

  lemma SlotKeepsWithout(k: Kernel, call: Call, c: nat, me: Process, k': Kernel, i: nat, b: bv64)
    requires SchedInv(k) && CallBy(k, call, c, me, k') && i < 64 && k.table[i].Some? && k'.table[i].Some?
    requires HasNone(k.table[i].value.caps, b) && GrantsNone(call, k.table[i].value.pid, b)
    ensures HasNone(k'.table[i].value.caps, b)
  {
    hide SchedInv, AddBits, DropBits, CommonBits, Has;
    if call.Grant? {
      GrantKeepsWithout(k, me, call.target, call.bits, i, b);
    } else if call.Revoke? {
      RevokeKeepsWithout(k, me, call.target, call.bits, i, b);
    } else {
      OtherKeepsCaps(k, call, c, me, k', i);
    }
  }

  lemma OtherKeepsCaps(k: Kernel, call: Call, c: nat, me: Process, k': Kernel, i: nat)
    requires SchedInv(k) && CallBy(k, call, c, me, k') && i < 64 && k.table[i].Some? && k'.table[i].Some?
    requires !call.Grant? && !call.Revoke?
    ensures k'.table[i].value.caps == k.table[i].value.caps
  {
    hide SchedInv, Step, Has;
    if Quiet(call) {
      QuietKeepsCaps(k, call, c, me, k', i);
    } else {
      StepEvolves(k, call, c, me, k');
      assert Evolves(k.nextPid, call, me, i == c, k.table[i], k'.table[i]);
    }
  }

  lemma QuietKeepsCaps(k: Kernel, call: Call, c: nat, me: Process, k': Kernel, i: nat)
    requires CallBy(k, call, c, me, k') && i < 64 && k.table[i].Some? && k'.table[i].Some?
    requires Quiet(call) && !call.Grant? && !call.Revoke?
    ensures k'.table[i].value.caps == k.table[i].value.caps
  {
    hide Has, AddBits, DropBits, CommonBits, CanFlow;
  }

  lemma GrantKeepsWithout(k: Kernel, me: Process, target: nat, bits: bv64, i: nat, b: bv64)
    requires i < 64 && k.table[i].Some? && HasNone(k.table[i].value.caps, b)
    requires k.table[i].value.pid == target ==> HasNone(bits, b)
    ensures var o := DoGrant(k, me, target, bits); o.Next? && o.k.table[i].Some? && HasNone(o.k.table[i].value.caps, b)
  {
    hide AddBits, CommonBits, Has, HasNone;
    if k.table[i].value.pid == target {
      GrantLacks(k.table[i].value.caps, me.caps, bits, b);
    }
  }

  lemma GrantLacks(x: bv64, mine: bv64, bits: bv64, b: bv64)
    requires HasNone(x, b) && HasNone(bits, b)
    ensures HasNone(AddBits(x, CommonBits(mine, bits)), b)
  {
    assert mine & bits & b == mine & (bits & b);
    LacksJoin(x, CommonBits(mine, bits), b);
  }

  lemma RevokeKeepsWithout(k: Kernel, me: Process, target: nat, bits: bv64, i: nat, b: bv64)
    requires i < 64 && k.table[i].Some? && HasNone(k.table[i].value.caps, b)
    ensures var o := DoRevoke(k, me, target, bits); o.Next? && o.k.table[i].Some? && HasNone(o.k.table[i].value.caps, b)
  {
    hide DropBits, Has, HasNone;
    DropKeepsLack(k.table[i].value.caps, bits, b);
  }

  lemma DropKeepsLack(x: bv64, y: bv64, b: bv64)
    requires HasNone(x, b)
    ensures HasNone(DropBits(x, y), b)
  {
    assert x & !y & b == x & b & !y;
  }

  ghost predicate NoneGranted(calls: seq<Call>, pid: nat, b: bv64) {
    forall n :: 0 <= n < |calls| ==> GrantsNone(calls[n], pid, b)
  }

  /** Over every run in which nobody grants it, a process does not come to hold a bit it lacks: a bit
      left out of the mask stays away from the child. */
  lemma {:induction false} LackedUntilGranted(w: World, calls: seq<Call>, pid: nat, b: bv64)
    requires WorldInv(w) && Without(w.k, pid, b) && NoneGranted(calls, pid, b)
    ensures RunCalls(w, calls).Some? ==> Without(RunCalls(w, calls).value.k, pid, b)
    decreases |calls|
  {
    hide Step, WorldInv, CallBy, Without, GrantsNone;
    if calls != [] && Step(w.k, calls[0]).Next? {
      WorldIsScheduled(w);
      RecordKeepsWorld(w, calls[0]);
      if w.k.current.Some? {
        CurrentCalls(w.k, calls[0]);
        var c := w.k.current.value;
        StepKeepsWithout(w.k, calls[0], c, w.k.table[c].value, Step(w.k, calls[0]).k, pid, b);
      } else {
        IdleRecords(w, calls[0]);
      }
      LackedUntilGranted(Record(w, calls[0]), calls[1..], pid, b);
    }
  }

  /** A child spawned with a mask that lacks b does not hold b, and does not come to hold it unless
      it is granted. */
  lemma MaskedChild(w: World, call: Call, calls: seq<Call>, b: bv64)
    requires WorldInv(w) && call.Spawn? && Step(w.k, call).Next? && Step(w.k, call).reply.Value?
    requires call.mask != 0 && HasNone(call.mask, b) && NoneGranted(calls, w.k.nextPid, b)
    ensures var end := RunCalls(Record(w, call), calls); end.Some? ==> Without(end.value.k, w.k.nextPid, b)
  {
    hide WorldInv, Step, CallBy, Without, NoneGranted, RunCalls;
    WorldIsScheduled(w);
    RecordKeepsWorld(w, call);
    if w.k.current.Some? {
      CurrentCalls(w.k, call);
      var c := w.k.current.value;
      BornWithout(w.k, call, c, w.k.table[c].value, Step(w.k, call).k, b);
      LackedUntilGranted(Record(w, call), calls, w.k.nextPid, b);
    } else {
      IdleReply(w.k, call);
    }
  }

  lemma IdleReply(k: Kernel, call: Call)
    requires k.current.None?
    ensures Step(k, call) == Next(k, NoReturn)
  {
  }

  lemma BornWithout(k: Kernel, call: Call, c: nat, me: Process, k': Kernel, b: bv64)
    requires SchedInv(k) && CallBy(k, call, c, me, k') && call.Spawn? && Step(k, call).reply.Value?
    requires call.mask != 0 && HasNone(call.mask, b)
    ensures Without(k', k.nextPid, b)
  {
    hide Step, IsChildOf;
    SpawnSays(k, call, c, me, k');
    var i :| 0 <= i < 64 && k.table[i].None? && k'.table[i].Some? && k'.table == k.table[i := k'.table[i]]
             && k'.table[i].value.pid == k.nextPid && IsChildOf(k'.table[i].value.caps, me.caps, call.mask);
    ChildLacks(k'.table[i].value.caps, me.caps, call.mask, b);
  }
}
