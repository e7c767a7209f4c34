/**
 The sending queue of one WebSocket client: which messages it has been offered, where each of them is,
 and what has been written to the socket. The operations are the critical sections of the queue mutex
 and the steps of the sending thread between them.
 */
module SendingQueue {
  import opened Basics
  import opened ByteOrder
  import opened WebSocketFrames

  /** What is to be sent. */
  datatype Content = Content(fin: bool, opcode: Byte, payload: seq<Byte>)

  /** A heap-allocated `MessageContent`; `id` tells allocations apart. */
  datatype Msg = Msg(id: nat, fin: bool, opcode: Byte, payload: seq<Byte>)
  {
    predicate Valid() {
      |payload| < Power256(8)
    }

    /** The frame that `sendMessage` writes for this message. */
    function Bytes(): seq<Byte>
      requires Valid()
    {
      Power256Of8();
      EncodeUnmasked(Frame(fin, 0, opcode, payload))
    }
  }

  datatype Outbox = Outbox(
    queue: seq<Msg>,           // sendingQueue
    flight: Option<Msg>,       // popped by the sending thread and not yet freed
    wire: seq<Byte>,           // all bytes written to the socket
    // history
    offered: seq<Msg>,         // every message that was passed to addSendingQueue
    accepted: seq<Msg>,        // those that were queued, in order
    freed: seq<Msg>,           // those that were freed, in order
    sent: seq<Msg>,            // those whose frames were completely written
    partial: seq<Byte>,        // what was written of the frame of the message in flight, or of the failed one
    failed: Option<Msg>,       // the message whose sending failed
    drained: seq<Msg>          // those freed unsent by freeSendingQueue
  )

  const EMPTY: Outbox := Outbox([], None, [], [], [], [], [], [], None, [])

  function InFlight(b: Outbox): seq<Msg> {
    if b.flight.Some? then [b.flight.value] else []
  }

  /** The messages that the sending thread has taken from the queue. */
  function Popped(b: Outbox): seq<Msg> {
    b.sent + (if b.failed.Some? then [b.failed.value] else InFlight(b))
  }

  predicate AllValid(s: seq<Msg>) {
    forall i :: 0 <= i < |s| ==> s[i].Valid()
  }

  predicate Distinct(s: seq<Msg>) {
    forall i, j :: 0 <= i < j < |s| ==> s[i].id != s[j].id
  }

  function FramesOf(s: seq<Msg>): seq<Byte>
    requires AllValid(s)
  {
    if s == [] then [] else FramesOf(s[..|s| - 1]) + s[|s| - 1].Bytes()
  }

  /** Order: what was accepted was sent, or is being sent, or was freed unsent, or waits, in that order. */
  predicate InOrder(b: Outbox) {
    && b.accepted == Popped(b) + b.drained + b.queue
    && (b.failed.Some? ==> b.flight.None?)
  }

  /** The wire holds the frames of the messages sent and the beginning of one more. */
  predicate WireIs(b: Outbox) {
    && AllValid(b.accepted) && AllValid(b.sent)
    && (b.flight.Some? ==> b.flight.value.Valid() && b.partial <= b.flight.value.Bytes())
    && (b.failed.Some? ==> b.failed.value.Valid() && b.partial <= b.failed.value.Bytes())
    && (b.flight.None? && b.failed.None? ==> b.partial == [])
    && b.wire == FramesOf(b.sent) + b.partial
  }

  /** Conservation: every message offered is in exactly one place, and no message is freed twice. */
  predicate Conserved(b: Outbox) {
    && Distinct(b.offered)
    && multiset(b.offered) == multiset(b.queue) + multiset(InFlight(b)) + multiset(b.freed)
  }

  predicate Consistent(b: Outbox) {
    InOrder(b) && WireIs(b) && Conserved(b)
  }

  // ---- The operations ----

  /** `addSendingQueue`, under the queue mutex. */
  function Offer(b: Outbox, m: Msg, closing: bool): Outbox {
    if !closing then b.(offered := b.offered + [m], accepted := b.accepted + [m], queue := b.queue + [m])
    else b.(offered := b.offered + [m], freed := b.freed + [m])
  }

  /** The sending thread takes the front of the queue. */
  function Pop(b: Outbox): Outbox
    requires b.queue != []
  {
    b.(flight := Some(b.queue[0]), queue := b.queue[1..])
  }

  /** A write to the socket takes `n` more bytes of the frame. */
  function Transmit(b: Outbox, n: nat): Outbox
    requires b.flight.Some? && b.flight.value.Valid() && |b.partial| + n <= |b.flight.value.Bytes()|
  {
    var more := b.flight.value.Bytes()[|b.partial|..|b.partial| + n];
    b.(wire := b.wire + more, partial := b.partial + more)
  }

  /** `sendMessage` returned true: the message is freed. */
  function Finish(b: Outbox): Outbox
    requires b.flight.Some?
  {
    b.(flight := None, sent := b.sent + [b.flight.value], partial := [], freed := b.freed + [b.flight.value])
  }

  /** The message came too late, or `sendMessage` returned false: it is freed and nothing more is sent. */
  function Fail(b: Outbox): Outbox
    requires b.flight.Some?
  {
    b.(flight := None, failed := b.flight, freed := b.freed + [b.flight.value])
  }

  /** `freeSendingQueue`. */
  function Drain(b: Outbox): Outbox {
    b.(queue := [], drained := b.drained + b.queue, freed := b.freed + b.queue)
  }

  // ---- What every operation keeps ----

  lemma OfferKeeps(b: Outbox, m: Msg, closing: bool)
    requires Consistent(b) && m.Valid()
    requires forall i :: 0 <= i < |b.offered| ==> b.offered[i].id != m.id
    ensures Consistent(Offer(b, m, closing))
  {
    OfferConserves(b, m, closing);
    if !closing {
      Regroup(Popped(b) + b.drained, b.queue, [m]);
    }
  }

  /** All messages offered were allocated before the `n`-th. */
  predicate IdsBelow(b: Outbox, n: nat) {
    match b
    case Outbox(_, _, _, offered, _, _, _, _, _, _) => forall i :: 0 <= i < |offered| ==> offered[i].id < n
  }

  lemma OfferedIds(b: Outbox, n: nat, m: Msg, closing: bool)
    requires IdsBelow(b, n) && m.id == n
    ensures IdsBelow(Offer(b, m, closing), n + 1) && forall i :: 0 <= i < |b.offered| ==> b.offered[i].id != m.id
  {
  }

  lemma OfferConserves(b: Outbox, m: Msg, closing: bool)
    requires Conserved(b) && forall i :: 0 <= i < |b.offered| ==> b.offered[i].id != m.id
    ensures Conserved(Offer(b, m, closing))
  {
    var r := Offer(b, m, closing);
    assert multiset(r.offered) == multiset(b.offered) + multiset{m};
    if closing {
      assert multiset(r.freed) == multiset(b.freed) + multiset{m};
    } else {
      assert multiset(r.queue) == multiset(b.queue) + multiset{m};
    }
  }

  lemma PopKeeps(b: Outbox)
    requires Consistent(b) && b.queue != [] && b.flight.None? && b.failed.None? && b.drained == []
    ensures Consistent(Pop(b))
  {
    var r := Pop(b);
    assert b.queue == [b.queue[0]] + b.queue[1..];
    assert r.accepted == Popped(r) + r.drained + r.queue;
    assert b.accepted[|b.sent|] == b.queue[0];
  }

  lemma TransmitKeeps(b: Outbox, n: nat)
    requires Consistent(b) && b.flight.Some? && |b.partial| + n <= |b.flight.value.Bytes()|
    ensures Consistent(Transmit(b, n))
  {
    var bytes := b.flight.value.Bytes();
    PrefixGrows(b.partial, bytes, n);
    Regroup(FramesOf(b.sent), b.partial, bytes[|b.partial|..|b.partial| + n]);
  }

  lemma PrefixGrows(p: seq<Byte>, s: seq<Byte>, n: nat)
    requires p <= s && |p| + n <= |s|
    ensures p + s[|p|..|p| + n] <= s
  {
    assert p == s[..|p|];
  }

  lemma FramesOfMore(s: seq<Msg>, m: Msg)
    requires AllValid(s) && m.Valid()
    ensures AllValid(s + [m]) && FramesOf(s + [m]) == FramesOf(s) + m.Bytes()
  {
    assert (s + [m])[..|s|] == s;
  }

  lemma FinishKeeps(b: Outbox)
    requires Consistent(b) && b.flight.Some? && b.partial == b.flight.value.Bytes()
    ensures Consistent(Finish(b))
  {
    var r := Finish(b);
    FramesOfMore(b.sent, b.flight.value);
    assert multiset(r.freed) == multiset(b.freed) + multiset{b.flight.value};
  }

  lemma FailKeeps(b: Outbox)
    requires Consistent(b) && b.flight.Some?
    ensures Consistent(Fail(b))
  {
    var r := Fail(b);
    assert multiset(r.freed) == multiset(b.freed) + multiset{b.flight.value};
  }

  lemma DrainKeeps(b: Outbox)
    requires Consistent(b)
    ensures Consistent(Drain(b)) && Drain(b).queue == []
  {
    var r := Drain(b);
    assert multiset(r.freed) == multiset(b.freed) + multiset(b.queue);
    assert r.accepted == Popped(r) + r.drained + r.queue;
  }

  // ---- What the invariant says ----

  /** The wire: complete frames of a prefix of the accepted messages, then at most one partial frame of the next. */
  lemma WireIsPrefix(b: Outbox) returns (n: nat)
    requires Consistent(b)
    ensures AllValid(b.accepted) && b.sent <= b.accepted && AllValid(b.sent)
    ensures n <= |b.wire| && b.wire[..n] == FramesOf(b.sent)
    ensures n == |b.wire| || (|b.sent| < |b.accepted| && b.wire[n..] <= b.accepted[|b.sent|].Bytes())
  {
    n := |FramesOf(b.sent)|;
    assert b.wire[..n] == FramesOf(b.sent) && b.wire[n..] == b.partial;
    if b.partial != [] {
      assert Popped(b)[|b.sent|] == b.accepted[|b.sent|];
    }
  }

  function Count(s: seq<Msg>, m: Msg): nat {
    multiset(s)[m]
  }

  /** A message that was offered is queued, in flight or freed: exactly one of these, exactly once. */
  lemma ExactlyOnePlace(b: Outbox, m: Msg)
    requires Consistent(b) && m in b.offered
    ensures Count(b.queue, m) + Count(InFlight(b), m) + Count(b.freed, m) == 1
  {
    OccursOnce(b.offered, m);
  }

  lemma {:induction false} OccursOnce(s: seq<Msg>, m: Msg)
    requires Distinct(s)
    ensures multiset(s)[m] == if m in s then 1 else 0
  {
    if s != [] {
      OccursOnce(s[1..], m);
      assert s == [s[0]] + s[1..];
      assert multiset(s) == multiset{s[0]} + multiset(s[1..]);
    }
  }

  /** Nothing is freed that was not offered. */
  lemma OnlyOfferedIsFreed(b: Outbox, m: Msg)
    requires Consistent(b) && m in b.freed
    ensures m in b.offered && Count(b.freed, m) == 1 && m !in b.queue && b.flight != Some(m)
  {
    assert multiset(b.freed)[m] > 0;
    assert multiset(b.offered)[m] > 0;
    ExactlyOnePlace(b, m);
    assert m in b.queue ==> Count(b.queue, m) > 0;
    assert b.flight == Some(m) ==> Count(InFlight(b), m) == 1;
  }

  // ---- The same operations on a queue that is updated in place ----

  class Queue {
    var sendingQueue: seq<Msg>
    ghost var box: Outbox  // the queue with its history

    ghost predicate Matches()
      reads this
    {
      Consistent(box) && box.queue == sendingQueue
    }

    constructor ()
      ensures Matches() && box == EMPTY
    {
      sendingQueue, box := [], EMPTY;
    }

    method AddSendingQueue(m: Msg, closing: bool)
      requires Matches() && m.Valid()
      requires forall i :: 0 <= i < |box.offered| ==> box.offered[i].id != m.id
      modifies this
      ensures Matches() && box == Offer(old(box), m, closing)
      ensures box.offered == old(box).offered + [m]
      ensures !closing ==> sendingQueue == old(sendingQueue) + [m] && box.freed == old(box).freed
      ensures closing ==> sendingQueue == old(sendingQueue) && box.freed == old(box).freed + [m]
    {
      OfferKeeps(box, m, closing);
      if !closing {
        sendingQueue := sendingQueue + [m];
      }
      box := Offer(box, m, closing);
    }

    method TakeFront() returns (m: Msg)
      requires Matches() && sendingQueue != []
      requires box.flight.None? && box.failed.None? && box.drained == []
      modifies this
      ensures Matches() && box == Pop(old(box)) && box.flight == Some(m)
    {
      PopKeeps(box);
      m := sendingQueue[0];
      sendingQueue := sendingQueue[1..];
      box := Pop(box);
    }

    /** Frees the front of the queue until nothing is left. */
    method FreeSendingQueue()
      requires Matches()
      modifies this
      ensures Matches() && box == Drain(old(box)) && sendingQueue == []
    {
      DrainKeeps(box);
      ghost var freed: seq<Msg> := [];
      while sendingQueue != []
        invariant freed + sendingQueue == old(sendingQueue)
        invariant box == old(box)
        decreases |sendingQueue|
      {
        freed := freed + [sendingQueue[0]];
        sendingQueue := sendingQueue[1..];
      }
      box := box.(queue := [], drained := box.drained + freed, freed := box.freed + freed);
    }

    /** The message that was taken has gone out, up to `count` bytes of its frame, and is freed. */
    method FreeTaken(ok: bool, ghost count: nat)
      requires Matches() && box.flight.Some? && box.partial == []
      requires count <= |box.flight.value.Bytes()| && (ok ==> count == |box.flight.value.Bytes()|)
      modifies `box
      ensures Matches()
      ensures box == if ok then Finish(Transmit(old(box), count)) else Fail(Transmit(old(box), count))
    {
      TransmitKeeps(box, count);
      box := Transmit(box, count);
      if ok {
        FinishKeeps(box);
        box := Finish(box);
      } else {
        FailKeeps(box);
        box := Fail(box);
      }
    }
  }
}
