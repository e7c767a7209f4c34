/** The receiving thread as it runs: buffers filled by partial reads, contents unmasked in place. */
module WebSocketReceiver {
  import opened ByteOrder
  import opened WebSocketFrames
  import opened WebSocketDecoder
  import opened WebSocketRefinement
  import opened WebSocketMessages

  /** The outcome of one `recv`: how many bytes it may return, and whether `closing` is seen set after it. */
  datatype Received = Received(count: int, closing: bool)

  /** The bytes that the peer sends, and how they will be handed out. */
  datatype Feed = Feed(incoming: seq<Byte>, schedule: seq<Received>)

  /** A connected socket, with what is still to come. */
  class Socket {
    var feed: Feed

    constructor (incoming: seq<Byte>, schedule: seq<Received>)
      ensures feed == Feed(incoming, schedule)
    {
      feed := Feed(incoming, schedule);
    }

    /** One call of `recv`; once the schedule is used up the connection is found to be closing. */
    method Recv(max: nat) returns (data: seq<Byte>, closing: bool)
      modifies this
      ensures |data| <= max && Gave(old(feed), data, feed, closing)
      ensures closing || |feed.schedule| < |old(feed).schedule|
    {
      if feed.schedule == [] {
        return [], true;
      }
      var next := feed.schedule[0];
      closing := next.closing;
      var n := if next.count <= 0 then 0 else next.count;
      n := if n > max then max else n;
      n := if n > |feed.incoming| then |feed.incoming| else n;
      data := feed.incoming[..n];
      feed := Feed(feed.incoming[n..], feed.schedule[1..]);
    }
  }

  /** Calls of recv have used up part of the schedule, and found the connection closing at most in the last of them. */
  predicate UsedUp(before: seq<Received>, after: seq<Received>, closing: bool) {
    if |after| > |before| || after != before[|before| - |after|..] then false
    else
      var used := |before| - |after|;
      if closing then after == [] || (used > 0 && before[used - 1].closing)
      else forall j :: 0 <= j < used ==> !before[j].closing
  }

  lemma UsedUpFurther(a: seq<Received>, b: seq<Received>, c: seq<Received>, closing: bool)
    requires UsedUp(a, b, false) && UsedUp(b, c, closing)
    ensures UsedUp(a, c, closing)
  {
    var m, n := |a| - |b|, |b| - |c|;
    assert a[m..][n..] == a[m + n..];
    forall j | m <= j < m + n ensures a[j] == b[j - m] {
    }
  }

  /** Calls of recv have handed out `data`. */
  ghost predicate Gave(before: Feed, data: seq<Byte>, after: Feed, closing: bool) {
    match before
    case Feed(incoming, schedule) => incoming == data + after.incoming && UsedUp(schedule, after.schedule, closing)
  }

  lemma GaveNothing(feed: Feed)
    ensures Gave(feed, [], feed, false)
  {
    assert [] + feed.incoming == feed.incoming;
  }

  lemma GaveFurther(a: Feed, x: seq<Byte>, b: Feed, y: seq<Byte>, c: Feed, closing: bool)
    requires Gave(a, x, b, false) && Gave(b, y, c, closing)
    ensures Gave(a, x + y, c, closing)
  {
    UsedUpFurther(a.schedule, b.schedule, c.schedule, closing);
    assert x + (y + c.incoming) == x + y + c.incoming;
  }

  /** What `data` makes of a buffer in which it is stored from position `at` on. */
  function StoredAt(buffer: seq<Byte>, at: nat, data: seq<Byte>): (r: seq<Byte>)
    requires at + |data| <= |buffer|
    ensures |r| == |buffer|
  {
    buffer[..at] + data + buffer[at + |data|..]
  }

  lemma StoredFurther(buffer: seq<Byte>, x: seq<Byte>, y: seq<Byte>)
    requires |x| + |y| <= |buffer|
    ensures StoredAt(StoredAt(buffer, 0, x), |x|, y) == StoredAt(buffer, 0, x + y)
  {
  }

  /** The scalar variables of `receivingThread`. */
  datatype Locals = Locals(step: Phase, readLength: nat, fin: bool, rsv: Byte, opcode: Byte,
                           msgMask: bool, msgLength: nat, msgContentIt: nat, msgKeys: seq<Byte>)

  class Receiver {
    const bufferRecv: array<Byte>
    var msgContent: array?<Byte>
    var v: Locals
    var joining: Assembly  // fragments, callbacks made, and whether `closeRecv` ended the thread
    var closing: bool

    /** The buffers are apart, and the message buffer fits the message that it is allocated for. */
    ghost predicate Shaped()
      reads this
    {
      match v
      case Locals(step, _, _, _, _, _, msgLength, msgContentIt, msgKeys) =>
        && bufferRecv.Length == BUFSIZE && |msgKeys| == 4 && msgContent != bufferRecv
        && (if msgContent == null then msgContentIt == 0 else msgContentIt <= msgContent.Length)
        && (!joining.closed && step == CONTENT ==>
              if msgContent == null then msgLength == 0 else msgContent.Length == msgLength)
        && (!joining.closed && step == MASK ==> msgContent != null && msgContent.Length == msgLength)
    }

    ghost function View(): Decoder
      requires Shaped()
      reads this, bufferRecv, msgContent
    {
      Decoder(v.step, v.readLength, v.fin, v.rsv, v.opcode, v.msgMask, v.msgLength, v.msgKeys,
              if msgContent == null then [] else msgContent[..v.msgContentIt], bufferRecv[..], joining)
    }

    /** The declarations at the top of `receivingThread`; what the buffer holds at first is arbitrary. */
    constructor ()
      ensures Shaped() && View() == Start(bufferRecv[..]) && View().Valid() && !closing
      ensures fresh(bufferRecv) && msgContent == null
    {
      bufferRecv := new Byte[BUFSIZE];
      msgContent := null;
      v := Locals(FIRSTBYTE, 1, false, 0, 0, false, 0, 0, [0, 0, 0, 0]);
      joining := IDLE;
      closing := false;
    }

    /** The inner loop: reads until `length` bytes stand in the buffer or the connection is closing. */
    method ReadBlock(socket: Socket, length: nat) returns (it: nat, ghost taken: seq<Byte>)
      requires length <= bufferRecv.Length && !closing
      modifies bufferRecv, socket, `closing
      ensures it == |taken| <= length && (!closing ==> it == length)
      ensures Gave(old(socket.feed), taken, socket.feed, closing)
      ensures bufferRecv[..] == StoredAt(old(bufferRecv[..]), 0, taken)
      ensures closing || |socket.feed.schedule| < |old(socket.feed).schedule|
    {
      it, taken := 0, [];
      var again := true;
      GaveNothing(socket.feed);
      while again
        invariant it == |taken| <= length && (again ==> !closing)
        invariant !again ==> closing || (it == length && |socket.feed.schedule| < |old(socket.feed).schedule|)
        invariant Gave(old(socket.feed), taken, socket.feed, closing)
        invariant bufferRecv[..] == StoredAt(old(bufferRecv[..]), 0, taken)
        decreases again, |socket.feed.schedule|
      {
        it, taken := ReadOnce(socket, length, it, taken, old(socket.feed), old(bufferRecv[..]));
        again := it != length && !closing;
      }
    }

    /** One call of recv, into the buffer from position `it` on. */
    method ReadOnce(socket: Socket, length: nat, it: nat, ghost taken: seq<Byte>, ghost feed: Feed,
                    ghost held: seq<Byte>)
        returns (it': nat, ghost taken': seq<Byte>)
      requires it == |taken| <= length <= bufferRecv.Length == |held| && !closing
      requires Gave(feed, taken, socket.feed, false) && bufferRecv[..] == StoredAt(held, 0, taken)
      modifies bufferRecv, socket, `closing
      ensures it' == |taken'| <= length
      ensures Gave(feed, taken', socket.feed, closing) && bufferRecv[..] == StoredAt(held, 0, taken')
      ensures closing || |socket.feed.schedule| < |old(socket.feed).schedule|
    {
      var data;
      data, closing := socket.Recv(length - it);
      GaveFurther(feed, taken, old(socket.feed), data, socket.feed, closing);
      StoreAt(it, data);
      StoredFurther(held, taken, data);
      it', taken' := it + |data|, taken + data;
    }

    /** What the system call does to the buffer. */
    method StoreAt(at: nat, data: seq<Byte>)
      requires at + |data| <= bufferRecv.Length
      modifies bufferRecv
      ensures bufferRecv[..] == StoredAt(old(bufferRecv[..]), at, data)
    {
      for i := 0 to |data|
        invariant forall j :: 0 <= j < bufferRecv.Length ==>
                    bufferRecv[j] == if at <= j < at + i then data[j - at] else old(bufferRecv[j])
      {
        bufferRecv[at + i] := data[i];
      }
    }

    method DecodeFirstByte()
      requires Shaped() && !joining.closed && v.step == FIRSTBYTE
      modifies `v
      ensures Shaped() && View() == TakeFirstByte(old(View()))
    {
      var b := bufferRecv[0];
      v := v.(fin := FinBit(b), rsv := RsvBits(b), opcode := OpcodeBits(b));
      v := v.(step := LENGTH, readLength := 1);
    }

    method DecodeLength()
      requires Shaped() && !joining.closed && v.step == LENGTH && v.msgContentIt == 0
      modifies `v, `msgContent, `joining
      ensures Shaped() && View() == TakeLength(old(View()))
      ensures msgContent == old(msgContent) || msgContent == null || fresh(msgContent)
    {
      if v.msgLength == 0 {
        var finished := DecodeLengthByte(bufferRecv[0]);
        if finished {
          return;
        }
      } else {
        var length := ReadLengthBytes();
        v := v.(msgLength := length);
      }
      msgContent := new Byte[v.msgLength];
      // no frame gets here unmasked
      v := v.(msgContentIt := 0, step := MASK, readLength := 4);
    }

    /** The second byte of a frame; false when it gives the length of a content that is to be allocated. */
    method DecodeLengthByte(b: Byte) returns (finished: bool)
      requires Shaped() && !joining.closed && v.step == LENGTH && v.msgContentIt == 0 && v.msgLength == 0
      requires b == bufferRecv[0]
      modifies `v, `msgContent, `joining
      ensures Shaped() && (msgContent == old(msgContent) || msgContent == null)
      ensures finished ==> View() == TakeLength(old(View()))
      ensures !finished ==>
                && v == old(v).(msgMask := true, msgLength := LengthBits(b) as nat) && joining == old(joining)
                && v.msgLength != 0 && v.msgLength != 126 && v.msgLength != 127 && MaskBit(b)
    {
      if !MaskBit(b) {
        v := v.(msgMask := false);
        joining := joining.Close();
        return true;
      }
      var length := LengthBits(b) as nat;
      var masked := v.(msgMask := true, msgLength := length);
      finished := length == 0 || length == 126 || length == 127;
      if length == 0 {
        msgContent := null;
        masked := masked.(msgContentIt := 0, step := CONTENT, readLength := 0);
      } else if length == 126 {
        masked := masked.(readLength := 2);
      } else if length == 127 {
        masked := masked.(readLength := 8);
      }
      v := masked;
    }

    /** The two casts of the receive buffer to wider integers. */
    method ReadLengthBytes() returns (length: nat)
      requires Shaped()
      ensures length == LengthRead(v.msgLength, bufferRecv[..])
    {
      length := v.msgLength;
      if length == 126 {
        length := HostToNet(Load(bufferRecv[..2]), 2);
        assert bufferRecv[..][..2] == bufferRecv[..2];
      }
      if length == 127 {
        NtohllReads(bufferRecv[..8]);
        length := Ntohll(Load(bufferRecv[..8]));
        assert bufferRecv[..][..8] == bufferRecv[..8];
      }
    }

    method DecodeMask()
      requires Shaped() && !joining.closed && v.step == MASK
      modifies `v
      ensures Shaped() && View() == TakeMask(old(View()))
    {
      v := v.(msgKeys := bufferRecv[..4], readLength := v.msgLength, step := CONTENT);
      assert v.msgKeys == bufferRecv[..][..4];
    }

    /** Unmasks a block into the message, byte by byte. */
    method Unmask(length: nat)
      requires Shaped() && msgContent != null && length <= BUFSIZE && v.msgContentIt + length <= msgContent.Length
      modifies msgContent, `v
      ensures v == old(v).(msgContentIt := old(v).msgContentIt + length)
      ensures msgContent[..v.msgContentIt]
              == old(msgContent[..v.msgContentIt]) + UnmaskBlock(bufferRecv[..length], old(v).msgContentIt, v.msgKeys)
    {
      ghost var unmasked := UnmaskBlock(bufferRecv[..length], v.msgContentIt, v.msgKeys);
      for i := 0 to length
        invariant v == old(v).(msgContentIt := old(v).msgContentIt + i)
        invariant msgContent[..v.msgContentIt] == old(msgContent[..v.msgContentIt]) + unmasked[..i]
      {
        UnmaskByte(i);
        assert unmasked[..i + 1] == unmasked[..i] + [unmasked[i]];
      }
      assert unmasked[..length] == unmasked;
    }

    /** One byte. */
    method UnmaskByte(i: nat)
      requires Shaped() && msgContent != null && i < BUFSIZE && v.msgContentIt < msgContent.Length
      modifies msgContent, `v
      ensures v == old(v).(msgContentIt := old(v).msgContentIt + 1)
      ensures msgContent[..v.msgContentIt]
              == old(msgContent[..v.msgContentIt]) + [bufferRecv[i] ^ v.msgKeys[old(v).msgContentIt % 4]]
    {
      msgContent[v.msgContentIt] := bufferRecv[i] ^ v.msgKeys[v.msgContentIt % 4];
      v := v.(msgContentIt := v.msgContentIt + 1);
    }

    /** The check of control frames and the switch on the opcode that a complete message goes through. */
    method Dispatch(payload: seq<Byte>, reply: Reply)
      modifies `joining
      ensures joining == Deliver(old(joining), Frame(v.fin, v.rsv, v.opcode, payload), reply)
    {
      var opcode, fin := v.opcode, v.fin;
      if (opcode == 0x8 || opcode == 0x9 || opcode == 0xa) && (!fin || |payload| > 125) {
        joining := joining.Close();
        return;
      }
      if opcode == 0x1 || opcode == 0x2 {
        if joining.fragmented {
          joining := joining.Close();
          return;
        }
        if !fin {
          joining := joining.(fragmented := true, fragmentedOpcode := opcode, fragmentedPayload := []);
          if |payload| > 0 {
            joining := joining.(fragmentedPayload := payload);
          }
        } else if opcode == 0x1 {
          joining := joining.Emit(TextMessage(payload));
        } else {
          joining := joining.Emit(BinaryMessage(payload));
        }
      } else if opcode == 0x0 {
        if !joining.fragmented {
          joining := joining.Close();
          return;
        }
        if |payload| > 0 {
          joining := joining.(fragmentedPayload := joining.fragmentedPayload + payload);
        } else {
          assert joining.fragmentedPayload + payload == joining.fragmentedPayload;
        }
        if fin {
          if joining.fragmentedOpcode == 0x1 {
            joining := joining.Emit(TextMessage(joining.fragmentedPayload));
          } else if joining.fragmentedOpcode == 0x2 {
            joining := joining.Emit(BinaryMessage(joining.fragmentedPayload));
          }
          joining := joining.(fragmented := false, fragmentedOpcode := 0, fragmentedPayload := []);
        }
      } else if opcode == 0x8 {
        joining := joining.Emit(CloseFrame(payload));
        if reply(joining.events) {
          joining := joining.Emit(CloseSent(payload)).Close();
        }
      } else if opcode == 0x9 {
        joining := joining.Emit(PingFrame(payload));
        if reply(joining.events) {
          joining := joining.Emit(PongSent(payload));
        }
      } else if opcode == 0xa {
        joining := joining.Emit(PongFrame(payload));
      }
    }

    method DecodeContent(length: nat, reply: Reply)
      requires Shaped() && !joining.closed && v.step == CONTENT
      requires length <= BUFSIZE && v.msgContentIt + length <= v.msgLength
      modifies `v, `msgContent, `joining, msgContent
      ensures Shaped() && View() == TakeContent(old(View()), old(bufferRecv[..length]), reply)
      ensures msgContent == old(msgContent) || msgContent == null
    {
      assert bufferRecv[..][..length] == bufferRecv[..length];
      if msgContent != null {
        Unmask(length);
      } else {
        assert UnmaskBlock(bufferRecv[..length], 0, v.msgKeys) == [];
      }
      if v.msgContentIt == v.msgLength {
        Dispatch(if msgContent == null then [] else msgContent[..v.msgContentIt], reply);
        if !joining.closed {
          v := v.(fin := false, rsv := 0, opcode := 0, msgLength := 0, msgContentIt := 0, msgMask := false);
          v := v.(msgKeys := [0, 0, 0, 0]);
          msgContent := null;
          v := v.(readLength := 1, step := FIRSTBYTE);
        }
      }
    }

    /** The switch on the decoding step. */
    method Decode(length: nat, reply: Reply)
      requires Shaped() && !joining.closed && length <= BUFSIZE
      requires v.step == LENGTH ==> v.msgContentIt == 0
      requires v.step == CONTENT ==> v.msgContentIt + length <= v.msgLength
      modifies `v, `msgContent, `joining, msgContent
      ensures Shaped()
      ensures msgContent == old(msgContent) || msgContent == null || fresh(msgContent)
      ensures View() ==
              match old(v.step)
              case FIRSTBYTE => TakeFirstByte(old(View()))
              case LENGTH => TakeLength(old(View()))
              case MASK => TakeMask(old(View()))
              case CONTENT => TakeContent(old(View()), old(bufferRecv[..length]), reply)
    {
      match v.step {
        case FIRSTBYTE => DecodeFirstByte();
        case LENGTH => DecodeLength();
        case MASK => DecodeMask();
        case CONTENT => DecodeContent(length, reply);
      }
    }

    /** One turn of the outer loop; it takes `taken` from the socket. */
    method Turn(socket: Socket, reply: Reply) returns (ghost taken: seq<Byte>)
      requires Shaped() && View().Valid() && !closing && !joining.closed
      modifies `v, `msgContent, `joining, `closing, bufferRecv, msgContent, socket
      ensures Shaped()
      ensures msgContent == old(msgContent) || msgContent == null || fresh(msgContent)
      ensures closing || |socket.feed.schedule| < |old(socket.feed).schedule|
      ensures Gave(old(socket.feed), taken, socket.feed, closing) && |taken| <= old(View()).Wanted()
      ensures !closing ==> |taken| == old(View()).Wanted() && View() == Take(old(View()), taken, reply)
      ensures closing ==> joining == old(joining)
    {
      var length := v.readLength;
      if length > BUFSIZE {
        length := BUFSIZE;
      }
      ghost var before := View();
      taken := ReadInto(socket, length);
      if !closing {
        ghost var read := View();
        Decode(length, reply);
        DecodedIsTaken(before, taken, read, View(), reply);
      }
    }

    /** What a turn does before it decodes: the count of the bytes still to read, and the read itself. */
    method ReadInto(socket: Socket, length: nat) returns (ghost taken: seq<Byte>)
      requires Shaped() && View().Valid() && !closing && !joining.closed && length == View().Wanted()
      modifies `v, `closing, bufferRecv, socket
      ensures Shaped() && v == old(v).(readLength := v.readLength)
      ensures closing || |socket.feed.schedule| < |old(socket.feed).schedule|
      ensures Gave(old(socket.feed), taken, socket.feed, closing) && |taken| <= length
      ensures !closing ==>
                |taken| == length && bufferRecv[..length] == taken && View() == Read(old(View()), taken)
    {
      if v.readLength > BUFSIZE {
        v := v.(readLength := v.readLength - BUFSIZE);
      }
      var it;
      it, taken := ReadBlock(socket, length);
      assert bufferRecv[..it] == bufferRecv[..][..it] == taken;
    }

    /** A turn does not change where the run leads to. */
    method TurnLeads(socket: Socket, reply: Reply, ghost whole: (Decoder, seq<Byte>)) returns (ghost taken: seq<Byte>)
      requires Shaped() && !closing && !joining.closed && Leads(View(), socket.feed.incoming, reply, whole)
      modifies `v, `msgContent, `joining, `closing, bufferRecv, msgContent, socket
      ensures Shaped()
      ensures msgContent == old(msgContent) || msgContent == null || fresh(msgContent)
      ensures closing || |socket.feed.schedule| < |old(socket.feed).schedule|
      ensures Gave(old(socket.feed), taken, socket.feed, closing) && |taken| <= BUFSIZE
      ensures !closing ==> Leads(View(), socket.feed.incoming, reply, whole)
      ensures closing ==> joining == old(joining)
    {
      ghost var before := View();
      taken := Turn(socket, reply);
      if !closing {
        TakeLeads(before, old(socket.feed).incoming, taken, socket.feed.incoming, reply, whole);
      }
    }

    /** A turn, with the state that it starts in when it ends the thread, and otherwise that it ends in. */
    method TurnOrEnd(socket: Socket, reply: Reply, ghost feed: Feed, ghost decoded: seq<Byte>,
                     ghost whole: (Decoder, seq<Byte>))
        returns (ghost last: Decoder, ghost decoded': seq<Byte>, ghost taken: seq<Byte>)
      requires Shaped() && !closing && !joining.closed && Leads(View(), socket.feed.incoming, reply, whole)
      requires Gave(feed, decoded, socket.feed, false)
      modifies `v, `msgContent, `joining, `closing, bufferRecv, msgContent, socket
      ensures Shaped()
      ensures msgContent == old(msgContent) || msgContent == null || fresh(msgContent)
      ensures closing || |socket.feed.schedule| < |old(socket.feed).schedule|
      ensures Gave(feed, decoded' + taken, socket.feed, closing) && |taken| <= BUFSIZE
      ensures last.assembly == joining && Leads(last, taken + socket.feed.incoming, reply, whole)
      ensures !closing ==> last == View() && taken == []
    {
      last, decoded' := View(), decoded;
      taken := TurnLeads(socket, reply, whole);
      GaveFurther(feed, decoded, old(socket.feed), taken, socket.feed, closing);
      if !closing {
        last, decoded', taken := View(), decoded + taken, [];
        NothingTaken(decoded', socket.feed.incoming);
      }
    }

    /**
     The thread function, from its first turn to its return. It ends in a state `last` that the decoder
     passes through on the bytes that the peer sent: `decoded` of them have been dealt with, and of the
     rest `taken`, at most a block, had been read when the connection was found closing. When what is
     left is too short for another turn, all callbacks that the stream calls for have been made.
     */
    method ReceivingThread(socket: Socket, reply: Reply)
        returns (ghost last: Decoder, ghost decoded: seq<Byte>, ghost taken: seq<Byte>)
      requires Shaped() && View() == Start(bufferRecv[..]) && msgContent == null && !closing
      modifies `v, `msgContent, `joining, `closing, bufferRecv, socket
      ensures closing || joining.closed
      ensures Gave(old(socket.feed), decoded + taken, socket.feed, closing) && |taken| <= BUFSIZE
      ensures var whole, rest := Run(old(View()), old(socket.feed).incoming, reply), taken + socket.feed.incoming;
              && last.assembly == joining && Leads(last, rest, reply, whole)
              && joining.events <= whole.0.assembly.events
              && (joining.closed || |rest| < last.Wanted() ==> joining == whole.0.assembly)
    {
      ghost var whole := Run(View(), socket.feed.incoming, reply);
      last, decoded, taken := ReceivingLoop(socket, reply, whole);
      Arrived(last, taken + socket.feed.incoming, reply, whole);
    }

    /** The loop of the thread function. */
    method ReceivingLoop(socket: Socket, reply: Reply, ghost whole: (Decoder, seq<Byte>))
        returns (ghost last: Decoder, ghost decoded: seq<Byte>, ghost taken: seq<Byte>)
      requires Shaped() && !closing && Leads(View(), socket.feed.incoming, reply, whole) && msgContent == null
      modifies `v, `msgContent, `joining, `closing, bufferRecv, socket
      ensures (closing || joining.closed) && last.assembly == joining
      ensures Gave(old(socket.feed), decoded + taken, socket.feed, closing) && |taken| <= BUFSIZE
      ensures Leads(last, taken + socket.feed.incoming, reply, whole)
    {
      ghost var feed := socket.feed;
      last, decoded, taken := View(), [], [];
      GaveNothing(feed);
      NothingTaken([], feed.incoming);
      while !closing && !joining.closed
        invariant Shaped() && last.assembly == joining
        invariant !closing ==> last == View() && taken == []
        invariant msgContent == null || fresh(msgContent)
        invariant Gave(feed, decoded + taken, socket.feed, closing) && |taken| <= BUFSIZE
        invariant Leads(last, taken + socket.feed.incoming, reply, whole)
        decreases !closing, |socket.feed.schedule|
      {
        NothingTaken(decoded, socket.feed.incoming);
        last, decoded, taken := TurnOrEnd(socket, reply, feed, decoded + taken, whole);
      }
    }
  }

  lemma DecodedIsTaken(d: Decoder, block: seq<Byte>, read: Decoder, r: Decoder, reply: Reply)
    requires d.Valid() && !d.assembly.closed && |block| == d.Wanted() && read == Read(d, block)
    requires r == match d.step
                  case FIRSTBYTE => TakeFirstByte(read)
                  case LENGTH => TakeLength(read)
                  case MASK => TakeMask(read)
                  case CONTENT => TakeContent(read, block, reply)
    ensures r == Take(d, block, reply)
  {
  }

  lemma NothingTaken(decoded: seq<Byte>, incoming: seq<Byte>)
    ensures decoded + [] == decoded && [] + incoming == incoming
  {
  }

  /** From `d` on, the bytes `rest` lead to where the whole run ends. */
  ghost predicate Leads(d: Decoder, rest: seq<Byte>, reply: Reply, whole: (Decoder, seq<Byte>)) {
    match d
    case Decoder(_, _, _, _, _, _, _, _, _, _, _) => d.Valid() && Run(d, rest, reply) == whole
  }

  lemma TakeLeads(d: Decoder, stream: seq<Byte>, taken: seq<Byte>, rest: seq<Byte>, reply: Reply,
                  whole: (Decoder, seq<Byte>))
    requires Leads(d, stream, reply, whole) && !d.assembly.closed && |taken| == d.Wanted() && stream == taken + rest
    ensures Leads(Take(d, taken, reply), rest, reply, whole)
  {
    assert stream[..d.Wanted()] == taken && stream[d.Wanted()..] == rest;
    RunTurn(d, stream, reply);
  }

  lemma Arrived(last: Decoder, rest: seq<Byte>, reply: Reply, whole: (Decoder, seq<Byte>))
    requires Leads(last, rest, reply, whole)
    ensures last.assembly.events <= whole.0.assembly.events
    ensures last.assembly.closed || |rest| < last.Wanted() ==> last.assembly == whole.0.assembly
  {
    RunOnlyAppends(last, rest, reply);
  }
}
