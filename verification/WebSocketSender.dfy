/**
 `sendingThread` as it runs: takes messages from the queue, one after the other, and writes their frames to the
 socket.
 */
module WebSocketSender {
  import opened Basics
  import opened ByteOrder
  import opened SocketSend
  import opened SendingQueue

  /** What other threads do while the mutex is free, and whether the message taken next is too old to be sent. */
  datatype Turn = Turn(added: seq<Content>, close: bool, tooLate: bool)

  predicate Sendable(turns: seq<Turn>) {
    forall i :: 0 <= i < |turns| ==> AllSmall(turns[i].added)
  }

  predicate AllSmall(added: seq<Content>) {
    forall j :: 0 <= j < |added| ==> |added[j].payload| < Power256(8)
  }

  class WebSocketClient {
    const queue: Queue
    const socket: Connection
    var closing: bool
    var nextMessage: nat  // tells messages apart

    /** The queue is as its history says, whatever the sending thread is doing. */
    ghost predicate Numbered()
      reads this, queue
    {
      queue.Matches() && IdsBelow(queue.box, nextMessage)
    }

    /** The socket has been written what the history says, and no message is taken but not freed. */
    ghost predicate Valid()
      reads this, queue, socket
    {
      Numbered() && queue.box.wire == socket.wire && queue.box.flight.None?
    }

    /** The thread is in its loop: nothing has failed and nothing has been dropped. */
    ghost predicate Running()
      reads this, queue, socket
    {
      match queue.box.failed
      case None => Valid() && queue.box.drained == []
      case Some(_) => false
    }

    constructor (socket: Connection)
      requires socket.wire == []
      ensures Running() && this.socket == socket && fresh(queue) && !closing && queue.box == EMPTY
    {
      var q := new Queue();
      this.socket, queue, closing, nextMessage := socket, q, false, 0;
    }

    method AddContent(content: Content)
      requires Numbered() && |content.payload| < Power256(8)
      modifies queue, `nextMessage
      ensures Numbered() && nextMessage == old(nextMessage) + 1
      ensures var m := Msg(old(nextMessage), content.fin, content.opcode, content.payload);
              queue.box == Offer(old(queue.box), m, closing)
      ensures !closing ==> Contents(queue.box.accepted) == old(Contents(queue.box.accepted)) + [content]
    {
      var m := Msg(nextMessage, content.fin, content.opcode, content.payload);
      AcceptedContent(queue.box, m);
      OfferedIds(queue.box, nextMessage, m, closing);
      queue.AddSendingQueue(m, closing);
      nextMessage := nextMessage + 1;
    }

    method Others(turn: Turn)
      requires Running() && !closing && AllSmall(turn.added)
      modifies queue, `nextMessage, `closing
      ensures Running() && closing == turn.close
      ensures Contents(queue.box.accepted) == old(Contents(queue.box.accepted)) + turn.added
      ensures old(queue.box).accepted <= queue.box.accepted && queue.box.wire == old(queue.box).wire
      ensures queue.box.sent == old(queue.box).sent && |queue.sendingQueue| == |old(queue.sendingQueue)| + |turn.added|
    {
      for i := 0 to |turn.added|
        invariant Running() && !closing
        invariant Contents(queue.box.accepted) == old(Contents(queue.box.accepted)) + turn.added[..i]
        invariant old(queue.box).accepted <= queue.box.accepted && queue.box.wire == old(queue.box).wire
        invariant queue.box.sent == old(queue.box).sent && |queue.sendingQueue| == |old(queue.sendingQueue)| + i
      {
        AddContent(turn.added[i]);
        OneMoreOf(turn.added, i);
        Regroup(old(Contents(queue.box.accepted)), turn.added[..i], [turn.added[i]]);
      }
      assert turn.added[..|turn.added|] == turn.added;
      if turn.close {
        closing := true;
      }
    }

    /** Takes the front of the queue and sends it, unless it is too late; false when that failed. */
    method SendFront(tooLate: bool) returns (ok: bool)
      requires Running() && queue.sendingQueue != []
      modifies queue, socket
      ensures Valid() && queue.box.drained == [] && (ok <==> queue.box.failed.None?)
      ensures queue.box.accepted == old(queue.box).accepted && old(queue.box).wire <= queue.box.wire
      ensures queue.sendingQueue == old(queue.sendingQueue)[1..]
      ensures ok <==> !tooLate && old(socket.Takes(|queue.sendingQueue[0].payload|))
      ensures tooLate ==> queue.box.wire == old(queue.box).wire
      ensures ok ==> queue.box.sent == old(queue.box).sent + [old(queue.box).queue[0]]
      ensures !ok ==> queue.box.failed == Some(old(queue.box).queue[0]) && queue.box.sent == old(queue.box).sent
    {
      var m := queue.TakeFront();
      ghost var taken := queue.box;
      ghost var count;
      ok, count := SendTaken(m, tooLate);
      SentKeeps(taken, ok, count);
    }

    /** Sends the message that was taken, and frees it. */
    method SendTaken(m: Msg, tooLate: bool) returns (ok: bool, ghost count: nat)
      requires queue.Matches() && queue.box.flight == Some(m) && queue.box.partial == []
               && queue.box.wire == socket.wire
      modifies queue, socket
      ensures queue.Matches() && queue.box.wire == socket.wire
      ensures m.Valid() && count <= |m.Bytes()| && queue.box == Sent(old(queue.box), ok, count)
      ensures tooLate ==> !ok && count == 0
      ensures !tooLate ==> (ok <==> old(socket.Takes(|m.payload|)))
    {
      TakenIsValid(queue.box, m);
      ok, count := false, 0;
      if !tooLate {
        ok, count := WriteFrame(m);
      }
      WrittenIs(queue.box, socket.wire, count);
      queue.FreeTaken(ok, count);
    }

    method WriteFrame(m: Msg) returns (ok: bool, ghost count: nat)
      requires m.Valid()
      modifies socket
      ensures count <= |m.Bytes()| && (ok ==> count == |m.Bytes()|)
      ensures socket.wire == old(socket.wire) + m.Bytes()[..count]
      ensures ok <==> old(socket.Takes(|m.payload|))
    {
      ok, count := socket.SendMessage(m.fin, m.opcode, m.payload);
    }

    /** A turn of the loop that finds the connection closing, sends the front of the queue, or finds nothing to send. */
    method OneTurn(turn: Turn) returns (failed: bool)
      requires Running() && !closing && AllSmall(turn.added)
      modifies this, queue, socket
      ensures Valid() && closing == turn.close && (failed <==> queue.box.failed.Some?)
      ensures Contents(queue.box.accepted) == old(Contents(queue.box.accepted)) + turn.added
      ensures old(queue.box).wire <= queue.box.wire && old(queue.box).accepted <= queue.box.accepted
      ensures !closing ==>
                && queue.box.drained == []
                && |queue.sendingQueue| == Left(|old(queue.sendingQueue)| + |turn.added|)
      ensures closing ==> queue.sendingQueue == [] && !failed
    {
      failed := false;
      Others(turn);
      if closing {
        queue.FreeSendingQueue();
      } else if queue.sendingQueue != [] {
        var ok := SendFront(turn.tooLate);
        failed := !ok;
      }
    }

    /**
     Runs until the connection is closing, a message could not be sent, or `turns` is over; `taken` is how many turns
     that were. All that others added in them was accepted, in order, and unless it was closing every turn that found
     a message took one.
     */
    method SendingThread(turns: seq<Turn>) returns (failed: bool, ghost taken: nat)
      requires Running() && !closing && Sendable(turns)
      modifies this, queue, socket
      ensures Valid() && (failed <==> queue.box.failed.Some?)
      ensures taken <= |turns| && (!closing && !failed ==> taken == |turns|)
      ensures closing <==> taken > 0 && turns[taken - 1].close
      ensures Took(old(queue.box), queue.box, turns[..taken])
      ensures closing ==> queue.sendingQueue == []
      ensures !closing ==> Waits(old(queue.box), |queue.sendingQueue|, turns[..taken])
      ensures !closing && !failed ==> queue.box.sent + queue.sendingQueue == queue.box.accepted
    {
      failed, taken := false, 0;
      for i := 0 to |turns|
        invariant Running() && !closing && !failed && taken == i
        invariant Took(old(queue.box), queue.box, turns[..i])
        invariant Waits(old(queue.box), |queue.sendingQueue|, turns[..i])
      {
        assert AllSmall(turns[i].added);
        ghost var before := queue.box;
        failed := OneTurn(turns[i]);
        taken := i + 1;
        TookFurther(old(queue.box), before, queue.box, turns, i);
        if closing {
          return;
        }
        WaitsFurther(old(queue.box), |before.queue|, turns, i);
        if failed {
          return;
        }
      }
      WholeIsTaken(turns);
    }
  }

  /** What messages say. */
  function Contents(messages: seq<Msg>): seq<Content> {
    seq(|messages|, i requires 0 <= i < |messages| =>
      Content(messages[i].fin, messages[i].opcode, messages[i].payload))
  }

  lemma AcceptedContent(b: Outbox, m: Msg)
    ensures Contents(Offer(b, m, false).accepted) == Contents(b.accepted) + [Content(m.fin, m.opcode, m.payload)]
  {
  }

  lemma OneMoreOf(added: seq<Content>, i: nat)
    requires i < |added|
    ensures added[..i + 1] == added[..i] + [added[i]]
  {
  }

  /** All that others add, in order. */
  function AllAdded(turns: seq<Turn>): seq<Content> {
    if turns == [] then [] else AllAdded(turns[..|turns| - 1]) + turns[|turns| - 1].added
  }

  /** In some turns all that others added was accepted, in order, and nothing was taken back from the socket. */
  predicate Took(b: Outbox, r: Outbox, turns: seq<Turn>) {
    match b
    case Outbox(_, _, wire, _, accepted, _, _, _, _, _) =>
      && wire <= r.wire && accepted <= r.accepted
      && Contents(r.accepted) == Contents(accepted) + AllAdded(turns)
  }

  lemma TookFurther(b: Outbox, m: Outbox, r: Outbox, turns: seq<Turn>, i: nat)
    requires i < |turns| && Took(b, m, turns[..i]) && m.wire <= r.wire && m.accepted <= r.accepted
    requires Contents(r.accepted) == Contents(m.accepted) + turns[i].added
    ensures Took(b, r, turns[..i + 1])
  {
    OneMoreTurn(turns, i, 0);
    Regroup(Contents(b.accepted), AllAdded(turns[..i]), turns[i].added);
  }

  /** A turn takes a message if there is one. */
  function Left(n: nat): nat {
    if n == 0 then 0 else n - 1
  }

  /** How many messages wait after some turns, of which each takes one if it finds one. */
  function Waiting(queued: nat, turns: seq<Turn>): nat {
    if turns == [] then queued
    else Left(Waiting(queued, turns[..|turns| - 1]) + |turns[|turns| - 1].added|)
  }

  lemma OneMoreTurn(turns: seq<Turn>, i: nat, queued: nat)
    requires i < |turns|
    ensures AllAdded(turns[..i + 1]) == AllAdded(turns[..i]) + turns[i].added
    ensures Waiting(queued, turns[..i + 1]) == Left(Waiting(queued, turns[..i]) + |turns[i].added|)
  {
    assert turns[..i + 1][..i] == turns[..i];
  }

  /** None of the turns closed the connection, and `n` messages wait after them. */
  predicate Waits(b: Outbox, n: nat, turns: seq<Turn>) {
    match b
    case Outbox(queue, _, _, _, _, _, _, _, _, _) =>
      n == Waiting(|queue|, turns) && NoneCloses(turns)
  }

  predicate NoneCloses(turns: seq<Turn>) {
    forall j :: 0 <= j < |turns| ==> !turns[j].close
  }

  lemma NorDoesNext(turns: seq<Turn>, i: nat)
    requires i < |turns| && NoneCloses(turns[..i]) && !turns[i].close
    ensures NoneCloses(turns[..i + 1])
  {
    var more := turns[..i + 1];
    forall j | 0 <= j < |more| ensures !more[j].close {
      assert j < i ==> turns[..i][j] == more[j];
    }
  }

  lemma WaitsFurther(b: Outbox, n: nat, turns: seq<Turn>, i: nat)
    requires i < |turns| && Waits(b, n, turns[..i]) && !turns[i].close
    ensures Waits(b, Left(n + |turns[i].added|), turns[..i + 1])
  {
    OneMoreTurn(turns, i, |b.queue|);
    NorDoesNext(turns, i);
  }

  lemma WholeIsTaken(turns: seq<Turn>)
    ensures turns[..|turns|] == turns
  {
  }

  /** With enough turns after the last one that adds something, nothing waits: all that was accepted has been sent. */
  lemma {:induction false} NothingWaits(queued: nat, turns: seq<Turn>, n: nat)
    requires n <= |turns| && forall i :: n <= i < |turns| ==> turns[i].added == []
    ensures Waiting(queued, turns) == if Waiting(queued, turns[..n]) <= |turns| - n then 0
                                      else Waiting(queued, turns[..n]) - (|turns| - n)
    decreases |turns|
  {
    if n == |turns| {
      assert turns[..n] == turns;
    } else {
      var before := turns[..|turns| - 1];
      assert before[..n] == turns[..n];
      NothingWaits(queued, before, n);
    }
  }

  /** A message that was taken, sent up to `count` bytes, and freed. */
  function Sent(b: Outbox, ok: bool, count: nat): Outbox
    requires b.flight.Some? && b.flight.value.Valid() && |b.partial| + count <= |b.flight.value.Bytes()|
  {
    if ok then Finish(Transmit(b, count)) else Fail(Transmit(b, count))
  }

  lemma SentKeeps(b: Outbox, ok: bool, count: nat)
    requires b.flight.Some? && b.flight.value.Valid() && |b.partial| + count <= |b.flight.value.Bytes()|
             && b.failed.None?
    ensures var r := Sent(b, ok, count);
            && r.accepted == b.accepted && r.queue == b.queue && r.drained == b.drained && b.wire <= r.wire
            && r.flight.None? && (ok <==> r.failed.None?)
            && (ok ==> r.sent == b.sent + [b.flight.value])
            && (!ok ==> r.failed == b.flight && r.sent == b.sent)
  {
  }

  lemma TakenIsValid(b: Outbox, m: Msg)
    requires Consistent(b) && b.flight == Some(m)
    ensures m.Valid()
  {
  }

  /** What was written is what the history says of a message of which nothing had been written. */
  lemma WrittenIs(b: Outbox, wire: seq<Byte>, count: nat)
    requires b.flight.Some? && b.flight.value.Valid() && b.partial == [] && count <= |b.flight.value.Bytes()|
    requires wire == b.wire + b.flight.value.Bytes()[..count] || (wire == b.wire && count == 0)
    ensures Transmit(b, count).wire == wire
  {
  }
}
