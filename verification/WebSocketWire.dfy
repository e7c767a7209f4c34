/** What a client reads of the bytes that the server has written to its socket. */
module WebSocketWire {
  import opened Basics
  import opened ByteOrder
  import opened WebSocketFrames
  import opened SendingQueue
  import opened WebSocketSystem
  import opened WebSocketDelivery

  /** All complete frames from the server, and the bytes after them. */
  function ServerFrames(s: seq<Byte>): (seq<Frame>, seq<Byte>)
    decreases |s|
  {
    match ParseServerFrame(s)
    case Whole(f, size) =>
      var (frames, rest) := ServerFrames(s[size..]);
      ([f] + frames, rest)
    case _ => ([], s)
  }

  /** The frames that messages are meant to be read as; an opcode has four bits. */
  function FramesFor(messages: seq<Msg>): seq<Frame> {
    seq(|messages|, i requires 0 <= i < |messages| =>
      Frame(messages[i].fin, 0, messages[i].opcode & 0xf, messages[i].payload))
  }

  lemma FirstAndLast<T>(s: seq<T>)
    requires |s| >= 2
    ensures s[..|s| - 1][1..] == s[1..][..|s| - 2] && s[..|s| - 1][0] == s[0] && s[1..][|s| - 2] == s[|s| - 1]
  {
  }

  lemma FramesOfLast(messages: seq<Msg>, m: Msg)
    requires AllValid(messages) && messages != [] && messages[|messages| - 1] == m
    ensures FramesOf(messages) == FramesOf(messages[..|messages| - 1]) + m.Bytes()
  {
  }

  lemma {:induction false} FramesOfFirst(messages: seq<Msg>)
    requires AllValid(messages) && messages != []
    ensures FramesOf(messages) == messages[0].Bytes() + FramesOf(messages[1..])
  {
    var n := |messages| - 1;
    if n == 0 {
      assert messages[..n] == [] && messages[1..] == [];
    } else {
      var first, last := messages[0], messages[n];
      FirstAndLast(messages);
      FramesOfFirst(messages[..n]);
      var middle := messages[1..][..n - 1];
      FramesOfLast(messages[1..], last);
      FramesOfLast(messages, last);
      Regroup(first.Bytes(), FramesOf(middle), last.Bytes());
    }
  }

  lemma MessageIsRead(m: Msg, rest: seq<Byte>)
    requires m.Valid()
    ensures ParseServerFrame(m.Bytes() + rest) == Whole(Frame(m.fin, 0, m.opcode & 0xf, m.payload), |m.Bytes()|)
    ensures forall n: nat :: n < |m.Bytes()| ==> ParseServerFrame(m.Bytes()[..n]).Partial?
  {
    Power256Of8();
    MessageFrameIsRead(m.fin, m.opcode, m.payload, rest);
  }

  lemma FirstIsRead(m: Msg, rest: seq<Byte>)
    requires m.Valid()
    ensures ServerFrames(m.Bytes() + rest) == (FramesFor([m]) + ServerFrames(rest).0, ServerFrames(rest).1)
  {
    MessageIsRead(m, rest);
    assert (m.Bytes() + rest)[|m.Bytes()|..] == rest;
    assert FramesFor([m]) == [Frame(m.fin, 0, m.opcode & 0xf, m.payload)];
  }

  lemma FirstFrame(messages: seq<Msg>)
    requires messages != []
    ensures FramesFor(messages) == FramesFor([messages[0]]) + FramesFor(messages[1..])
  {
  }

  /** The frames of messages, one after the other, are read as those messages. */
  lemma {:induction false} MessagesAreRead(messages: seq<Msg>, rest: seq<Byte>)
    requires AllValid(messages)
    ensures ServerFrames(FramesOf(messages) + rest)
            == (FramesFor(messages) + ServerFrames(rest).0, ServerFrames(rest).1)
  {
    if messages == [] {
      assert FramesOf(messages) + rest == rest;
      assert FramesFor(messages) + ServerFrames(rest).0 == ServerFrames(rest).0;
    } else {
      var m, tail := messages[0], messages[1..];
      FramesOfFirst(messages);
      Regroup(m.Bytes(), FramesOf(tail), rest);
      FirstIsRead(m, FramesOf(tail) + rest);
      MessagesAreRead(tail, rest);
      FirstFrame(messages);
      Regroup(FramesFor([m]), FramesFor(tail), ServerFrames(rest).0);
    }
  }

  lemma PartIsRead(m: Msg, part: seq<Byte>)
    requires m.Valid() && part <= m.Bytes()
    ensures ServerFrames(part)
            == if part == m.Bytes() then (FramesFor([m]), []) else ([], part)
  {
    MessageIsRead(m, []);
    assert m.Bytes() + [] == m.Bytes();
    if part == m.Bytes() {
      assert part[|part|..] == [];
      assert FramesFor([m]) == [Frame(m.fin, 0, m.opcode & 0xf, m.payload)] + [];
    } else {
      assert part == m.Bytes()[..|part|];
    }
  }

  /** The sent messages come first among those accepted, and the partial frame is of the next one. */
  lemma NextOnWire(b: Outbox)
    requires InOrder(b) && WireIs(b)
    ensures b.sent <= b.accepted
    ensures b.partial != [] ==>
              && |b.sent| < |b.accepted| && b.accepted[|b.sent|].Valid()
              && b.partial <= b.accepted[|b.sent|].Bytes()
  {
    if b.partial != [] {
      assert b.accepted[|b.sent|] == Popped(b)[|b.sent|];
    }
  }

  lemma OneMoreFrame(messages: seq<Msg>, k: nat)
    requires k < |messages|
    ensures FramesFor(messages[..k + 1]) == FramesFor(messages[..k]) + FramesFor([messages[k]])
  {
  }

  /** Of a box in order: what its wire is read as. */
  lemma BoxIsRead(b: Outbox) returns (k: nat)
    requires Consistent(b)
    ensures |b.sent| <= k <= |b.accepted| && k <= |b.sent| + 1 && b.sent <= b.accepted
    ensures ServerFrames(b.wire).0 == FramesFor(b.accepted[..k])
    ensures var rest := ServerFrames(b.wire).1;
            rest == [] || (k < |b.accepted| && b.accepted[k].Valid() && rest < b.accepted[k].Bytes())
  {
    NextOnWire(b);
    k := WireParts(b.sent, b.accepted, b.partial, b.wire);
  }

  lemma WireParts(sent: seq<Msg>, accepted: seq<Msg>, partial: seq<Byte>, wire: seq<Byte>) returns (k: nat)
    requires sent <= accepted && AllValid(sent) && wire == FramesOf(sent) + partial
    requires partial != [] ==>
               |sent| < |accepted| && accepted[|sent|].Valid() && partial <= accepted[|sent|].Bytes()
    ensures |sent| <= k <= |accepted| && k <= |sent| + 1
    ensures ServerFrames(wire).0 == FramesFor(accepted[..k])
    ensures var rest := ServerFrames(wire).1;
            rest == [] || (k < |accepted| && accepted[k].Valid() && rest < accepted[k].Bytes())
  {
    MessagesAreRead(sent, partial);
    k := |sent|;
    assert sent == accepted[..k];
    if partial != [] {
      PartIsRead(accepted[k], partial);
      if partial == accepted[k].Bytes() {
        OneMoreFrame(accepted, k);
        k := k + 1;
      }
    }
  }

  /**
   In every reachable state a client that reads what was written to its socket finds, with their flags, opcodes and
   payloads, the first of the messages that were queued for it, in order: all that were sent, at most one more, and
   then at most part of the next one.
   */
  lemma WireIsReadAsMessages(states: seq<State>, i: nat, c: ClientId) returns (k: nat)
    requires Run(states) && i < |states| && c in states[i].clients
    ensures var b := states[i].clients[c].box;
            && |b.sent| <= k <= |b.accepted| && k <= |b.sent| + 1 && b.sent <= b.accepted
            && ServerFrames(b.wire).0 == FramesFor(b.accepted[..k])
            && var rest := ServerFrames(b.wire).1;
               rest == [] || (k < |b.accepted| && b.accepted[k].Valid() && rest < b.accepted[k].Bytes())
  {
    BoxesAlways(states, i);
    assert BoxOk(states[i].clients[c].box, states[i].nextMsg);
    k := BoxIsRead(states[i].clients[c].box);
  }
}
