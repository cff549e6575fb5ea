// The per-slot mailboxes as the kernel keeps them: one ring of 32 messages for each of the 64
// process slots, read at `head`, written at `tail`, both wrapping around.

module MailRings {
  import opened Options
  import opened Processes

  /** The ring position n places after position h. */
  function At(h: nat, n: nat): (r: nat)
    requires h < IPC_QUEUE_DEPTH && n <= IPC_QUEUE_DEPTH
    ensures r < IPC_QUEUE_DEPTH && r == (h + n) % IPC_QUEUE_DEPTH
  {
    if h + n < IPC_QUEUE_DEPTH then h + n else h + n - IPC_QUEUE_DEPTH
  }

  class IpcQueues {
    const buf: array2<Message>
    const head: array<nat>
    const tail: array<nat>
    const len: array<nat>

    ghost predicate Shape()
    {
      && buf.Length0 == 64 && buf.Length1 == IPC_QUEUE_DEPTH
      && head.Length == 64 && tail.Length == 64 && len.Length == 64
      && head != tail && head != len && tail != len
    }

    ghost predicate RingOk(i: int)
      requires Shape()
      reads head, tail, len
    {
      0 <= i < 64 ==>
        head[i] < IPC_QUEUE_DEPTH && len[i] <= IPC_QUEUE_DEPTH && tail[i] == At(head[i], len[i])
    }

    ghost predicate Valid()
      reads head, tail, len
    {
      Shape() && forall i :: 0 <= i < 64 ==> RingOk(i)
    }

    /** The messages waiting in slot i, oldest first. */
    ghost function Box(i: int): (r: seq<Message>)
      requires Shape() && 0 <= i < 64 && RingOk(i)
      reads buf, head, tail, len
      ensures |r| == len[i]
    {
      var h, l := head[i], len[i];
      seq(l, n requires 0 <= n < l reads buf => buf[i, At(h, n)])
    }

    /** All mailboxes. */
    ghost function Boxes(): (r: Boxes)
      requires Valid()
      reads buf, head, tail, len
    {
      seq(64, i requires 0 <= i < 64 && Valid() reads buf, head, tail, len => Box(i))
    }

    constructor ()
      ensures Valid() && fresh(buf) && fresh(head) && fresh(tail) && fresh(len)
      ensures Boxes() == seq(64, _ => [])
    {
      buf := new Message[64, IPC_QUEUE_DEPTH]((_, _) => Message(0, 0));
      head := new nat[64](_ => 0);
      tail := new nat[64](_ => 0);
      len := new nat[64](_ => 0);
    }

    /** False if the queue is full or there is no such slot. */
    method Enqueue(idx: nat, msg: Message) returns (ok: bool)
      requires Valid()
      modifies buf, tail, len
      ensures Valid()
      ensures ok <==> idx < 64 && |old(Boxes())[idx]| < IPC_QUEUE_DEPTH
      ensures Boxes() == if ok then old(Boxes())[idx := old(Boxes())[idx] + [msg]] else old(Boxes())
    {
      if idx >= 64 {
        return false;
      }
      assert RingOk(idx);
      if len[idx] == IPC_QUEUE_DEPTH {
        return false;
      }
      ghost var was := Boxes();
      buf[idx, tail[idx]] := msg;
      tail[idx] := (tail[idx] + 1) % IPC_QUEUE_DEPTH;
      len[idx] := len[idx] + 1;
      forall i | 0 <= i < 64 ensures RingOk(i) && Box(i) == if i == idx then was[i] + [msg] else was[i] {
        assert old(RingOk(i)) && was[i] == old(Box(i));
      }
      ok := true;
    }

    method Dequeue(idx: nat) returns (msg: Option<Message>)
      requires Valid()
      modifies head, len
      ensures Valid()
      ensures msg.Some? <==> idx < 64 && old(Boxes())[idx] != []
      ensures msg.Some? ==> msg.value == old(Boxes())[idx][0]
      ensures Boxes() == if msg.Some? then old(Boxes())[idx := old(Boxes())[idx][1..]] else old(Boxes())
    {
      if idx >= 64 {
        return None;
      }
      assert RingOk(idx);
      if len[idx] == 0 {
        return None;
      }
      ghost var was := Boxes();
      msg := Some(buf[idx, head[idx]]);
      head[idx] := (head[idx] + 1) % IPC_QUEUE_DEPTH;
      len[idx] := len[idx] - 1;
      forall i | 0 <= i < 64 ensures RingOk(i) && Box(i) == if i == idx then was[i][1..] else was[i] {
        assert old(RingOk(i)) && was[i] == old(Box(i));
      }
    }

    method Clear(idx: nat)
      requires Valid()
      modifies head, tail, len
      ensures Valid()
      ensures Boxes() == if idx < 64 then old(Boxes())[idx := []] else old(Boxes())
    {
      if idx >= 64 {
        return;
      }
      ghost var was := Boxes();
      head[idx] := 0;
      tail[idx] := 0;
      len[idx] := 0;
      forall i | 0 <= i < 64 ensures RingOk(i) && Box(i) == if i == idx then [] else was[i] {
        assert old(RingOk(i)) && was[i] == old(Box(i));
      }
    }
  }
}
