// Capabilities over whole runs: authority is only ever handed on, never made.

module Capabilities {
  import opened Options
  import opened Processes
  import opened ProcessRuns

  /** How a call of `me` can change the capabilities of a slot. */
  predicate CapsEvolve(call: Call, me: Process, a: Option<Process>, b: Process) {
    match a
    case None => call.Spawn? && b.caps == ChildCaps(me.caps, call.mask)
    case Some(p) =>
      && b.pid == p.pid
      && (|| b.caps == p.caps
          || (call.Grant? && Has(me.caps, CAP_GRANT) && b.caps == AddBits(p.caps, CommonBits(me.caps, call.bits)))
          || (call.Revoke? && Has(me.caps, CAP_GRANT) && b.caps == DropBits(p.caps, call.bits)))
  }

  lemma QuietCaps(k: Kernel, call: Call, c: nat, me: Process, k': Kernel, i: nat)
    requires Quiet(call) && CallBy(k, call, c, me, k') && i < 64 && k'.table[i].Some?
    ensures CapsEvolve(call, me, k.table[i], k'.table[i].value)
  {
    hide Has, AddBits, DropBits, CommonBits, CanFlow, Within;
    QuietSame(k, call);
  }

  lemma StepCaps(k: Kernel, call: Call, c: nat, me: Process, k': Kernel, i: nat)
    requires SchedInv(k) && CallBy(k, call, c, me, k') && i < 64 && k'.table[i].Some?
    ensures CapsEvolve(call, me, k.table[i], k'.table[i].value)
  {
    if Quiet(call) {
      QuietCaps(k, call, c, me, k', i);
    } else {
      hide Has, AddBits, DropBits, CommonBits, SchedInv, Step;
      StepEvolves(k, call, c, me, k');
      assert Evolves(k.nextPid, call, me, i == c, k.table[i], k'.table[i]);
    }
  }

  /** No process in the table holds any bit of m. */
  ghost predicate Unheld(k: Kernel, m: bv64) {
    forall i :: 0 <= i < 64 && k.table[i].Some? ==> CommonBits(k.table[i].value.caps, m) == 0
  }

  lemma UnheldMeet(x: bv64, y: bv64, m: bv64)
    requires CommonBits(x, m) == 0
    ensures CommonBits(CommonBits(x, y), m) == 0
  {
    assert x & y & m == x & m & y;
  }

  lemma UnheldJoin(x: bv64, y: bv64, m: bv64)
    requires CommonBits(x, m) == 0 && CommonBits(y, m) == 0
    ensures CommonBits(AddBits(x, y), m) == 0
  {
    assert (x | y) & m == (x & m) | (y & m);
  }

  lemma UnheldDrop(x: bv64, y: bv64, m: bv64)
    requires CommonBits(x, m) == 0
    ensures CommonBits(DropBits(x, y), m) == 0
  {
    assert DropBits(x, y) & m == x & m & !y;
  }

  lemma UnheldBits(mine: bv64, theirs: bv64, bits: bv64, m: bv64)
    requires CommonBits(mine, m) == 0
    ensures CommonBits(CommonBits(mine, bits), m) == 0
    ensures CommonBits(theirs, m) == 0 ==> CommonBits(AddBits(theirs, CommonBits(mine, bits)), m) == 0
    ensures CommonBits(theirs, m) == 0 ==> CommonBits(DropBits(theirs, bits), m) == 0
  {
    hide *;
    UnheldMeet(mine, bits, m);
    if CommonBits(theirs, m) == 0 {
      UnheldJoin(theirs, CommonBits(mine, bits), m);
      UnheldDrop(theirs, bits, m);
    }
  }

  lemma StepKeepsUnheld(k: Kernel, call: Call, c: nat, me: Process, k': Kernel, m: bv64)
    requires SchedInv(k) && CallBy(k, call, c, me, k') && Unheld(k, m)
    ensures Unheld(k', m)
  {
    hide *;
    forall i | 0 <= i < 64 && k'.table[i].Some? ensures CommonBits(k'.table[i].value.caps, m) == 0 {
      SlotStaysUnheld(k, call, c, me, k', i, m);
    }
    UnheldFrom(k', m);
  }

  lemma UnheldFrom(k: Kernel, m: bv64)
    requires forall i :: 0 <= i < 64 && k.table[i].Some? ==> CommonBits(k.table[i].value.caps, m) == 0
    ensures Unheld(k, m)
  {
  }

  lemma SlotStaysUnheld(k: Kernel, call: Call, c: nat, me: Process, k': Kernel, i: nat, m: bv64)
    requires SchedInv(k) && CallBy(k, call, c, me, k') && Unheld(k, m) && i < 64 && k'.table[i].Some?
    ensures CommonBits(k'.table[i].value.caps, m) == 0
  {
    hide Has, AddBits, DropBits, CommonBits, SchedInv, Step;
    StepCaps(k, call, c, me, k', i);
    var mine := me.caps;
    var theirs := if k.table[i].Some? then k.table[i].value.caps else 0;
    match call {
      case Spawn(mask, known, load) => UnheldBits(mine, theirs, if mask == 0 then CAP_ALL else mask, m);
      case Grant(target, bits) => UnheldBits(mine, theirs, bits, m);
      case Revoke(target, bits) => UnheldBits(mine, theirs, bits, m);
      case _ =>
    }
  }

  /** Over every run: a capability bit that no process holds never reappears. */
  lemma {:induction false} UnheldForever(w: World, calls: seq<Call>, m: bv64)
    requires WorldInv(w) && Unheld(w.k, m)
    ensures RunCalls(w, calls).Some? ==> Unheld(RunCalls(w, calls).value.k, m)
    decreases |calls|
  {
    hide Step, WorldInv, CallBy;
    if calls != [] && Step(w.k, calls[0]).Next? {
      WorldIsScheduled(w);
      RecordKeepsWorld(w, calls[0]);
      if w.k.current.Some? {
        CurrentCalls(w.k, calls[0]);
        var c := w.k.current.value;
        StepKeepsUnheld(w.k, calls[0], c, w.k.table[c].value, Step(w.k, calls[0]).k, m);
      } else {
        IdleRecords(w, calls[0]);
      }
      UnheldForever(Record(w, calls[0]), calls[1..], m);
    }
  }

  /** Process `pid` is in the table with exactly these capabilities, or is gone. */
  ghost predicate HasExactly(k: Kernel, pid: nat, caps: bv64) {
    && pid < k.nextPid
    && forall i :: 0 <= i < 64 && k.table[i].Some? && k.table[i].value.pid == pid ==> k.table[i].value.caps == caps
  }

  lemma NoGrantNoChange(mine: bv64)
    requires CommonBits(mine, CAP_GRANT) == 0
    ensures !Has(mine, CAP_GRANT)
  {
  }

  lemma StepKeepsCaps(k: Kernel, call: Call, c: nat, me: Process, k': Kernel, pid: nat, caps: bv64)
    requires SchedInv(k) && CallBy(k, call, c, me, k') && Unheld(k, CAP_GRANT) && HasExactly(k, pid, caps)
    ensures HasExactly(k', pid, caps)
  {
    hide Has, AddBits, DropBits, CommonBits, SchedInv, Step;
    NoGrantNoChange(me.caps);
    StepEvolves(k, call, c, me, k');
    forall i | 0 <= i < 64 && k'.table[i].Some? && k'.table[i].value.pid == pid ensures k'.table[i].value.caps == caps {
      StepCaps(k, call, c, me, k', i);
      assert Evolves(k.nextPid, call, me, i == c, k.table[i], k'.table[i]);
    }
  }

  /** Over every run: once no process holds the grant capability, no existing process's set
      changes again. */
  lemma {:induction false} FrozenWithoutGrant(w: World, calls: seq<Call>, pid: nat, caps: bv64)
    requires WorldInv(w) && Unheld(w.k, CAP_GRANT) && HasExactly(w.k, pid, caps)
    ensures RunCalls(w, calls).Some? ==> HasExactly(RunCalls(w, calls).value.k, pid, caps)
    decreases |calls|
  {
    hide Step, WorldInv, CallBy;
    if calls != [] && Step(w.k, calls[0]).Next? {
      WorldIsScheduled(w);
      RecordKeepsWorld(w, calls[0]);
      if w.k.current.Some? {
        CurrentCalls(w.k, calls[0]);
        var c := w.k.current.value;
        StepKeepsUnheld(w.k, calls[0], c, w.k.table[c].value, Step(w.k, calls[0]).k, CAP_GRANT);
        StepKeepsCaps(w.k, calls[0], c, w.k.table[c].value, Step(w.k, calls[0]).k, pid, caps);
      } else {
        IdleRecords(w, calls[0]);
      }
      FrozenWithoutGrant(Record(w, calls[0]), calls[1..], pid, caps);
    }
  }
}
