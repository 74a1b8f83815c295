/**
 The write side shared by TCP and WebSocket sessions: a queue of messages whose front is being
 written. The model does not assume that at most one write is outstanding; it records every
 write that was started and lets each of them put bytes on the wire.
 */
module WriteQueue {
  import opened Bytes
  import opened Protocol
  import opened Frames
  import Deframing

  /** A write that was started and has not called back, with the bytes it has put on the wire. */
  datatype Write = Write(message: Bytes, done: nat)

  /** `sent` and `completed` are histories; `partial` counts the wire bytes of a failed write. */
  datatype Queue = Queue(queue: seq<Bytes>, active: seq<Write>, started: nat, failed: bool, partial: nat,
                         wire: Bytes, sent: seq<Bytes>, completed: seq<Bytes>)

  const IDLE := Queue([], [], 0, false, 0, [], [], [])

  function Start(q: Queue): Queue
    requires q.queue != []
  {
    q.(active := q.active + [Write(q.queue[0], 0)], started := q.started + 1)
  }

  function OnSend(q: Queue, m: Bytes): Queue {
    var r := q.(queue := q.queue + [m], sent := q.sent + [m]);
    if |r.queue| > 1 then r else Start(r)
  }

  /** The success branch of the write callback. */
  function OnWritten(q: Queue): Queue
    requires q.queue != []
  {
    var r := q.(queue := q.queue[1..], completed := q.completed + [q.queue[0]]);
    if r.queue == [] then r else Start(r)
  }

  /** What can happen: a send, bytes of a write reaching the wire, a callback. */
  datatype Event = Send(message: Bytes) | Transfer(write: nat, count: nat) | Written(write: nat) | Failed(write: nat)

  predicate Enabled(q: Queue, ev: Event) {
    match ev
    case Send(_) => true
    case Transfer(i, k) => i < |q.active| && q.active[i].done + k <= |q.active[i].message|
    case Written(i) => i < |q.active| && q.active[i].done == |q.active[i].message| && q.queue != []
    case Failed(i) => i < |q.active|
  }

  function Step(q: Queue, ev: Event): Queue
    requires Enabled(q, ev)
  {
    match ev
    case Send(m) => OnSend(q, m)
    case Transfer(i, k) =>
      var w := q.active[i];
      q.(wire := q.wire + w.message[w.done..w.done + k], active := q.active[i := Write(w.message, w.done + k)])
    case Written(i) => OnWritten(q.(active := Drop(q.active, i)))
    case Failed(i) => q.(active := Drop(q.active, i), failed := true, partial := q.active[i].done)
  }

  /** The bytes of the front message that are on the wire. */
  function Front(q: Queue): nat {
    if q.active != [] then q.active[0].done else if q.failed then q.partial else 0
  }

  ghost predicate Inv(q: Queue) {
    && |q.active| <= 1
    && (!q.failed ==> (q.active != [] <==> q.queue != []))
    && (q.failed ==> q.active == [] && q.queue != [])
    && (q.active != [] ==> q.queue != [] && q.active[0].message == q.queue[0])
    && q.sent == q.completed + q.queue
    && (q.queue == [] ==> Front(q) == 0)
    && (q.queue != [] ==> Front(q) <= |q.queue[0]|)
    && q.wire == Concat(q.completed) + (if q.queue == [] then [] else q.queue[0][..Front(q)])
  }

  lemma SendKeeps(q: Queue, m: Bytes)
    requires Inv(q)
    ensures Inv(OnSend(q, m))
  {
    assert (q.completed + q.queue) + [m] == q.completed + (q.queue + [m]);
    if q.queue == [] {
      assert m[..0] == [];
    }
  }

  lemma TransferKeeps(q: Queue, i: nat, k: nat)
    requires Inv(q) && Enabled(q, Transfer(i, k))
    ensures Inv(Step(q, Transfer(i, k)))
  {
    var w := q.active[0];
    assert w.message[..w.done] + w.message[w.done..w.done + k] == w.message[..w.done + k];
  }

  lemma WrittenKeeps(q: Queue, i: nat)
    requires Inv(q) && Enabled(q, Written(i))
    ensures Inv(Step(q, Written(i)))
  {
    var m, rest := q.queue[0], q.queue[1..];
    assert m[..|m|] == m;
    ConcatAppend(q.completed, [m]);
    assert Concat([m]) == m;
    assert q.completed + q.queue == (q.completed + [m]) + rest;
    if rest != [] {
      assert rest[0][..0] == [];
    }
  }

  /** Every event keeps the invariant: at most one write is outstanding, before an error one is
      outstanding iff the queue is non-empty, and the wire holds the completed messages in the
      order they were sent followed by a prefix of the front one. */
  lemma StepKeeps(q: Queue, ev: Event)
    requires Inv(q) && Enabled(q, ev)
    ensures Inv(Step(q, ev))
  {
    match ev
    case Send(m) => SendKeeps(q, m);
    case Transfer(i, k) => TransferKeeps(q, i, k);
    case Written(i) => WrittenKeeps(q, i);
    case Failed(i) =>
  }

  /** The callback of a finished write always finds its message at the front of the queue. */
  lemma CallbackFindsFront(q: Queue, i: nat)
    requires Inv(q) && i < |q.active| && q.active[i].done == |q.active[i].message|
    ensures Enabled(q, Written(i)) && q.queue[0] == q.active[i].message
  {
  }

  /** The states a run passes through. */
  ghost predicate Run(qs: seq<Queue>, evs: seq<Event>) {
    && |qs| == |evs| + 1
    && forall i :: 0 <= i < |evs| ==> Enabled(qs[i], evs[i]) && qs[i + 1] == Step(qs[i], evs[i])
  }

  /** The invariant holds throughout every run. */
  lemma {:induction false} RunKeeps(qs: seq<Queue>, evs: seq<Event>, i: nat)
    requires Run(qs, evs) && Inv(qs[0]) && i < |qs|
    ensures Inv(qs[i])
  {
    if i > 0 {
      RunKeeps(qs, evs, i - 1);
      StepKeeps(qs[i - 1], evs[i - 1]);
    }
  }

  /** After the first write error no write is ever started again: the failed message stays at
      the front, so the queue never looks idle. */
  lemma {:induction false} NoWriteAfterError(qs: seq<Queue>, evs: seq<Event>, i: nat, j: nat)
    requires Run(qs, evs) && Inv(qs[0]) && i <= j < |qs|
    requires qs[i].failed
    ensures qs[j].failed && qs[j].started == qs[i].started && qs[j].wire == qs[i].wire
    ensures qs[j].queue != [] && qs[i].queue != [] && qs[j].queue[0] == qs[i].queue[0]
    decreases j
  {
    RunKeeps(qs, evs, i);
    if i < j {
      NoWriteAfterError(qs, evs, i, j - 1);
      RunKeeps(qs, evs, j - 1);
    }
  }

  /** What is on the wire is always a prefix of everything sent. */
  lemma WireIsPrefix(q: Queue)
    requires Inv(q)
    ensures q.wire <= Concat(q.sent)
  {
    ConcatAppend(q.completed, q.queue);
    if q.queue != [] {
      assert Concat(q.queue) == q.queue[0] + Concat(q.queue[1..]);
      assert q.queue[0][..Front(q)] <= Concat(q.queue);
    }
  }

  lemma WireDelivers(q: Queue, bodies: seq<Bytes>, part: Bytes)
    requires Inv(q) && Deframing.Sendable(bodies) && Concat(q.sent) == Deframing.Stream(bodies)
    requires part <= q.wire
    ensures Deframing.Bodies(part) <= bodies
  {
    WireIsPrefix(q);
    var all := Concat(q.sent);
    assert part + all[|part|..] == all;
    Deframing.PrefixDelivers(bodies, part, all[|part|..]);
  }

  /** End to end: of the frames a session was given to send, the other end's reader delivers the first
      ones, in order, whatever the interleaving of sends, transfers, callbacks and errors, and
      wherever the bytes are cut. */
  lemma DeliveredIsPrefix(qs: seq<Queue>, evs: seq<Event>, i: nat, pss: seq<seq<Bytes>>, part: Bytes)
    requires Run(qs, evs) && qs[0] == IDLE && i < |qs|
    requires Deframing.Buildable(pss) && qs[i].sent == Deframing.Outputs(pss)
    requires part <= qs[i].wire
    ensures Deframing.Bodies(part) <= Deframing.FramesOf(pss)
  {
    RunKeeps(qs, evs, i);
    Deframing.OutputsAreStream(pss);
    WireDelivers(qs[i], Deframing.FramesOf(pss), part);
  }

  /** Once the queue has run empty, all of them have been delivered. */
  lemma DeliveredInFull(qs: seq<Queue>, evs: seq<Event>, i: nat, pss: seq<seq<Bytes>>)
    requires Run(qs, evs) && qs[0] == IDLE && i < |qs|
    requires Deframing.Buildable(pss) && qs[i].sent == Deframing.Outputs(pss)
    requires qs[i].queue == []
    ensures Deframing.Bodies(qs[i].wire) == Deframing.FramesOf(pss)
  {
    RunKeeps(qs, evs, i);
    var q := qs[i];
    Deframing.OutputsAreStream(pss);
    assert q.completed + q.queue == q.completed;
    assert q.wire == Concat(q.sent);
    Deframing.StreamReadsBack(Deframing.FramesOf(pss));
  }

  class Writer {
    var queue: seq<Bytes>
    var active: seq<Write>
    ghost var started: nat
    ghost var failed: bool
    ghost var partial: nat
    ghost var wire: Bytes
    ghost var sent: seq<Bytes>
    ghost var completed: seq<Bytes>

    ghost function View(): Queue
      reads this
    {
      Queue(queue, active, started, failed, partial, wire, sent, completed)
    }

    constructor ()
      ensures View() == IDLE
    {
      queue, active, started, failed, partial, wire, sent, completed := [], [], 0, false, 0, [], [], [];
    }

    method StartWrite()
      requires queue != []
      modifies this
      ensures View() == Start(old(View()))
    {
      active, started := active + [Write(queue[0], 0)], started + 1;
    }

    method Send(message: Bytes)
      modifies this
      ensures View() == OnSend(old(View()), message)
    {
      queue, sent := queue + [message], sent + [message];
      if |queue| > 1 {
        return;
      }
      StartWrite();
    }

    /** The callback of write `i`. On an error the session is removed and the queue left as is. */
    method OnWrite(i: nat, error: bool)
      requires Enabled(View(), if error then Failed(i) else Written(i))
      modifies this
      ensures View() == Step(old(View()), if error then Failed(i) else Written(i))
    {
      if error {
        failed, partial, active := true, active[i].done, Drop(active, i);
        return;
      }
      active := Drop(active, i);
      completed, queue := completed + [queue[0]], queue[1..];
      if queue != [] {
        StartWrite();
      }
    }
  }
}
