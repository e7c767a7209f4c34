/**
 The incremental decoder against a parser of whole frames, sections 5.1 to 5.5 of RFC 6455.
 */
module WebSocketRefinement {
  import opened Sequences
  import opened ByteOrder
  import opened WebSocketFrames
  import opened WebSocketDecoder

  /** The reference: frames are cut from the stream one by one and delivered until one closes the connection. */
  function Receive(a: Assembly, s: seq<Byte>, reply: Reply): Assembly
    decreases |s|
  {
    if a.closed then a
    else
      match ParseFrame(s)
      case Incomplete => a
      case Unmasked => a.Close()
      case Complete(f, _, size) => Receive(Deliver(a, f, reply), s[size..], reply)
  }

  /**
   The two headers that the decoder misreads: a payload length of zero in the second byte, after which
   the masking key is not read, and a 16-bit length of 127, which is taken for the mark of a 64-bit one.
   */
  predicate Misread(s: seq<Byte>) {
    && |s| >= 2 && MaskBit(s[1])
    && (LengthBits(s[1]) == 0
        || (LengthBits(s[1]) == 126 && |s| >= 4 && FromBigEndian(s[2..4]) == 127))
  }

  /** No frame that the stream delivers has a header that the decoder misreads. */
  predicate Clean(a: Assembly, s: seq<Byte>, reply: Reply)
    decreases |s|
  {
    a.closed ||
    (!Misread(s) &&
     match ParseFrame(s)
     case Complete(f, _, size) => Clean(Deliver(a, f, reply), s[size..], reply)
     case _ => true)
  }

  ghost predicate AtStart(d: Decoder) {
    match d
    case Decoder(step, _, _, _, _, _, _, _, _, _, assembly) => d.Valid() && step == FIRSTBYTE && !assembly.closed
  }

  lemma RunTurn(d: Decoder, s: seq<Byte>, reply: Reply)
    requires d.Valid() && !d.assembly.closed && |s| >= d.Wanted()
    ensures Run(d, s, reply) == Run(Take(d, s[..d.Wanted()], reply), s[d.Wanted()..], reply)
  {
  }

  // ---- Content ----

  lemma UnmaskedSplits(a: seq<Byte>, b: seq<Byte>, at: nat, key: seq<Byte>)
    requires |key| == 4
    ensures UnmaskBlock(a + b, at, key) == UnmaskBlock(a, at, key) + UnmaskBlock(b, at + |a|, key)
  {
  }

  lemma UnmaskedIsMask(payload: seq<Byte>, key: seq<Byte>)
    requires |key| == 4
    ensures UnmaskBlock(payload, 0, key) == Mask(payload, key)
  {
  }

  /** The payload once all that is missing of it has arrived. */
  function Filled(d: Decoder, missing: seq<Byte>): seq<Byte>
    requires |d.msgKeys| == 4
  {
    d.content + UnmaskBlock(missing, |d.content|, d.msgKeys)
  }

  lemma FilledInBlocks(d: Decoder, next: Decoder, s: seq<Byte>, k: nat)
    requires |d.msgKeys| == 4 && next.msgKeys == d.msgKeys && k <= |s|
    requires next.content == d.content + UnmaskBlock(s[..k], |d.content|, d.msgKeys)
    ensures Filled(next, s[k..]) == Filled(d, s)
  {
    assert s == s[..k] + s[k..];
    UnmaskedSplits(s[..k], s[k..], |d.content|, d.msgKeys);
  }

  /** A block that does not complete the message only extends it. */
  lemma MiddleBlock(d: Decoder, s: seq<Byte>, reply: Reply) returns (next: Decoder)
    requires d.Valid() && !d.assembly.closed && d.step == CONTENT
    requires d.readLength > BUFSIZE && |s| >= BUFSIZE
    ensures next.Valid() && next.step == CONTENT && next.readLength == d.readLength - BUFSIZE
    ensures next.assembly == d.assembly && next.msgKeys == d.msgKeys
    ensures (next.fin, next.rsv, next.opcode) == (d.fin, d.rsv, d.opcode)
    ensures next.content == d.content + UnmaskBlock(s[..BUFSIZE], |d.content|, d.msgKeys)
    ensures Run(d, s, reply) == Run(next, s[BUFSIZE..], reply)
  {
    RunTurn(d, s, reply);
    next := Take(d, s[..BUFSIZE], reply);
  }

  /** Content is received in blocks and delivered once, when it is complete. */
  lemma {:induction false} RunContent(d: Decoder, s: seq<Byte>, reply: Reply) returns (next: Decoder)
    requires d.Valid() && !d.assembly.closed && d.step == CONTENT && |s| >= d.readLength
    ensures next.Valid()
    ensures next.assembly == Deliver(d.assembly, Frame(d.fin, d.rsv, d.opcode, Filled(d, s[..d.readLength])), reply)
    ensures next.assembly.closed || AtStart(next)
    ensures Run(d, s, reply) == Run(next, s[d.readLength..], reply)
    decreases d.readLength
  {
    if d.readLength > BUFSIZE {
      var middle := MiddleBlock(d, s, reply);
      next := RunContent(middle, s[BUFSIZE..], reply);
      FilledAfterMiddle(d, middle, s);
    } else {
      RunTurn(d, s, reply);
      next := LastBlock(d, s[..d.readLength], reply);
    }
  }

  lemma FilledAfterMiddle(d: Decoder, middle: Decoder, s: seq<Byte>)
    requires |d.msgKeys| == 4 && middle.msgKeys == d.msgKeys && BUFSIZE < d.readLength <= |s|
    requires middle.readLength == d.readLength - BUFSIZE
    requires middle.content == d.content + UnmaskBlock(s[..BUFSIZE], |d.content|, d.msgKeys)
    ensures Filled(middle, s[BUFSIZE..][..middle.readLength]) == Filled(d, s[..d.readLength])
    ensures s[BUFSIZE..][middle.readLength..] == s[d.readLength..]
  {
    SliceOfRest(s, BUFSIZE, middle.readLength);
    PrefixOfPrefix(s, BUFSIZE, d.readLength);
    FilledInBlocks(d, middle, s[..d.readLength], BUFSIZE);
  }

  lemma PrefixOfPrefix(s: seq<Byte>, k: nat, n: nat)
    requires k <= n <= |s|
    ensures s[..n][..k] == s[..k] && s[..n][k..] == s[k..n]
  {
  }

  /** The block that completes a message delivers it. */
  lemma LastBlock(d: Decoder, block: seq<Byte>, reply: Reply) returns (next: Decoder)
    requires d.Valid() && !d.assembly.closed && d.step == CONTENT && |block| == d.readLength <= BUFSIZE
    ensures next == Take(d, block, reply) && next.Valid()
    ensures next.assembly == Deliver(d.assembly, Frame(d.fin, d.rsv, d.opcode, Filled(d, block)), reply)
    ensures next.assembly.closed || AtStart(next)
  {
    next := Take(d, block, reply);
  }

  lemma {:induction false} StarvedContent(d: Decoder, s: seq<Byte>, reply: Reply)
    requires d.Valid() && !d.assembly.closed && d.step == CONTENT && |s| < d.readLength
    ensures Run(d, s, reply).0.assembly == d.assembly && Run(d, s, reply).0.step == CONTENT
    decreases d.readLength
  {
    if d.readLength > BUFSIZE && |s| >= BUFSIZE {
      var middle := MiddleBlock(d, s, reply);
      StarvedContent(middle, s[BUFSIZE..], reply);
    }
  }

  // ---- Header ----

  /** The header fields that the first byte of the frame sets. */
  ghost predicate Heads(d: Decoder, first: Byte, a: Assembly) {
    match d
    case Decoder(_, _, fin, rsv, opcode, _, _, _, content, _, assembly) =>
      && d.Valid() && !assembly.closed && assembly == a && content == []
      && fin == FinBit(first) && rsv == RsvBits(first) && opcode == OpcodeBits(first)
  }

  lemma AfterFirstByte(d: Decoder, s: seq<Byte>, reply: Reply) returns (next: Decoder)
    requires AtStart(d) && |s| >= 1
    ensures Heads(next, s[0], d.assembly) && next.step == LENGTH && next.msgLength == 0
    ensures Run(d, s, reply) == Run(next, s[1..], reply)
  {
    RunTurn(d, s, reply);
    next := Take(d, s[..1], reply);
  }

  /** After the second byte of a masked frame: more length bytes, the key, or already the content. */
  lemma AfterSecondByte(d: Decoder, s: seq<Byte>, first: Byte, reply: Reply) returns (next: Decoder)
    requires Heads(d, first, d.assembly) && d.step == LENGTH && d.msgLength == 0
    requires |s| >= 1 && MaskBit(s[0])
    ensures Heads(next, first, d.assembly) && next.msgLength == LengthBits(s[0]) as nat
    ensures next.step == if LengthBits(s[0]) == 0 then CONTENT else if FormOf(s[0]).In7Bits? then MASK else LENGTH
    ensures Run(d, s, reply) == Run(next, s[1..], reply)
  {
    RunTurn(d, s, reply);
    next := Take(d, s[..1], reply);
    LengthCases(s[0]);
  }

  lemma LengthCases(b: Byte)
    ensures LengthBits(b) as nat == 0 <==> LengthBits(b) == 0
    ensures LengthBits(b) as nat == 126 <==> LengthBits(b) == 126
    ensures LengthBits(b) as nat == 127 <==> LengthBits(b) == 127
    ensures LengthBits(b) as nat < 128
  {
  }

  lemma NotMasked(d: Decoder, s: seq<Byte>, reply: Reply)
    requires AtStart(d) && |s| >= 2 && !MaskBit(s[1])
    ensures Run(d, s, reply).0.assembly == d.assembly.Close()
  {
    var next := AfterFirstByte(d, s, reply);
    RunTurn(next, s[1..], reply);
  }

  /** What the code makes of two length bytes, read in front of whatever the buffer held before. */
  lemma ShortLengthRead(buffer: seq<Byte>)
    requires |buffer| == BUFSIZE
    ensures var n := FromBigEndian(buffer[..2]);
            if n == 127 then LengthRead(126, buffer) >= 127 * Power256(6) else LengthRead(126, buffer) == n
  {
    NtohsReads(buffer[..2]);
    if FromBigEndian(buffer[..2]) == 127 {
      NtohllReads(buffer[..8]);
      assert buffer[..8] == buffer[..2] + buffer[2..8];
      HighBytes(buffer[..2], buffer[2..8]);
    }
  }

  lemma LongLengthRead(buffer: seq<Byte>)
    requires |buffer| == BUFSIZE
    ensures LengthRead(127, buffer) == FromBigEndian(buffer[..8])
  {
    NtohllReads(buffer[..8]);
  }

  /** The extended length bytes. */
  lemma AfterLengthBytes(d: Decoder, s: seq<Byte>, first: Byte, reply: Reply) returns (next: Decoder)
    requires Heads(d, first, d.assembly) && d.step == LENGTH && d.msgLength != 0 && |s| >= d.readLength
    ensures Heads(next, first, d.assembly) && next.step == MASK
    ensures d.msgLength == 126 && FromBigEndian(s[..2]) != 127 ==> next.msgLength == FromBigEndian(s[..2])
    ensures d.msgLength == 127 ==> next.msgLength == FromBigEndian(s[..8])
    ensures d.msgLength == 126 && FromBigEndian(s[..2]) == 127 ==> next.msgLength >= 127 * Power256(6)
    ensures Run(d, s, reply) == Run(next, s[d.readLength..], reply)
  {
    RunTurn(d, s, reply);
    var block := s[..d.readLength];
    next := Take(d, block, reply);
    var buffer := Read(d, block).bufferRecv;
    assert buffer[..d.readLength] == block;
    if d.msgLength == 126 {
      ShortLengthRead(buffer);
    } else {
      LongLengthRead(buffer);
    }
  }

  lemma {:induction false} HighBytes(a: seq<Byte>, b: seq<Byte>)
    ensures FromBigEndian(a + b) >= FromBigEndian(a) * Power256(|b|)
  {
    if b == [] {
      assert a + b == a;
    } else {
      var k := |b| - 1;
      HighBytes(a, b[..k]);
      assert (a + b)[..|a + b| - 1] == a + b[..k];
      Scale(FromBigEndian(a), Power256(k), FromBigEndian(a + b[..k]));
    }
  }

  lemma Scale(x: nat, p: nat, y: nat)
    requires y >= x * p
    ensures y * 256 >= x * (256 * p)
  {
    assert x * (256 * p) == 256 * (x * p);
  }

  lemma AfterKey(d: Decoder, s: seq<Byte>, first: Byte, reply: Reply) returns (next: Decoder)
    requires Heads(d, first, d.assembly) && d.step == MASK && |s| >= 4
    ensures Heads(next, first, d.assembly) && next.step == CONTENT
    ensures next.msgLength == d.msgLength && next.msgKeys == s[..4]
    ensures Run(d, s, reply) == Run(next, s[4..], reply)
  {
    RunTurn(d, s, reply);
    next := Take(d, s[..4], reply);
    assert Read(d, s[..4]).bufferRecv[..4] == s[..4];
  }

  /** The first two bytes of a masked frame. */
  lemma TwoBytesRead(d: Decoder, s: seq<Byte>, reply: Reply) returns (next: Decoder)
    requires AtStart(d) && |s| >= 2 && MaskBit(s[1])
    ensures Heads(next, s[0], d.assembly) && next.msgLength == LengthBits(s[1]) as nat
    ensures next.step == if LengthBits(s[1]) == 0 then CONTENT else if FormOf(s[1]).In7Bits? then MASK else LENGTH
    ensures Run(d, s, reply) == Run(next, s[2..], reply)
  {
    var d1 := AfterFirstByte(d, s, reply);
    next := AfterSecondByte(d1, s[1..], s[0], reply);
    SliceOfRest(s, 1, 1);
  }

  /** All length bytes of a masked frame, unless they are misread. */
  lemma LengthIsRead(d: Decoder, s: seq<Byte>, reply: Reply) returns (next: Decoder)
    requires AtStart(d) && |s| >= 2 && MaskBit(s[1]) && !Misread(s) && |s| >= 2 + FormSize(FormOf(s[1]))
    ensures Heads(next, s[0], d.assembly) && next.step == MASK && next.msgLength == AnnouncedLength(s)
    ensures Run(d, s, reply) == Run(next, s[2 + FormSize(FormOf(s[1]))..], reply)
  {
    LengthCases(s[1]);
    var size := FormSize(FormOf(s[1]));
    next := TwoBytesRead(d, s, reply);
    if size > 0 {
      SliceOfRest(s, 2, size);
      next := AfterLengthBytes(next, s[2..], s[0], reply);
    }
  }

  /** From the first byte of a masked frame to its content, unless its header is misread. */
  lemma HeaderIsRead(d: Decoder, s: seq<Byte>, reply: Reply) returns (next: Decoder)
    requires AtStart(d) && |s| >= 2 && MaskBit(s[1]) && !Misread(s)
    requires |s| >= 6 + FormSize(FormOf(s[1]))
    ensures Heads(next, s[0], d.assembly) && next.step == CONTENT && next.msgLength == AnnouncedLength(s)
    ensures var start := 2 + FormSize(FormOf(s[1]));
            next.msgKeys == s[start..start + 4] && Run(d, s, reply) == Run(next, s[start + 4..], reply)
  {
    var start := 2 + FormSize(FormOf(s[1]));
    var d1 := LengthIsRead(d, s, reply);
    next := KeyIsRead(d1, s, start, s[0], d.assembly, reply);
  }

  lemma KeyIsRead(d: Decoder, s: seq<Byte>, start: nat, first: Byte, a: Assembly, reply: Reply) returns (next: Decoder)
    requires Heads(d, first, a) && d.step == MASK && start + 4 <= |s|
    ensures Heads(next, first, a) && next.step == CONTENT && next.msgLength == d.msgLength
    ensures next.msgKeys == s[start..start + 4] && Run(d, s[start..], reply) == Run(next, s[start + 4..], reply)
  {
    next := AfterKey(d, s[start..], first, reply);
    SliceOfRest(s, start, 4);
  }

  /** A frame is delivered, whole and once, and the decoder is ready for the next one. */
  lemma FrameIsDelivered(d: Decoder, s: seq<Byte>, reply: Reply) returns (next: Decoder)
    requires AtStart(d) && !Misread(s) && ParseFrame(s).Complete?
    ensures next.Valid() && next.assembly == Deliver(d.assembly, ParseFrame(s).frame, reply)
    ensures next.assembly.closed || AtStart(next)
    ensures Run(d, s, reply) == Run(next, s[ParseFrame(s).size..], reply)
  {
    var start, length := CompleteFrame(s);
    var d1 := HeaderIsReadTo(d, s, start, length, reply);
    next := PayloadAfter(d1, s, start, ParseFrame(s).size, ParseFrame(s).frame, d.assembly, reply);
  }

  lemma HeaderIsReadTo(d: Decoder, s: seq<Byte>, start: nat, length: nat, reply: Reply) returns (next: Decoder)
    requires AtStart(d) && |s| >= 2 && MaskBit(s[1]) && !Misread(s)
    requires start == 6 + FormSize(FormOf(s[1])) <= |s| && length == AnnouncedLength(s)
    ensures Heads(next, s[0], d.assembly) && next.step == CONTENT && next.msgLength == length
    ensures next.msgKeys == s[start - 4..start] && Run(d, s, reply) == Run(next, s[start..], reply)
  {
    next := HeaderIsRead(d, s, reply);
  }

  lemma PayloadAfter(d: Decoder, s: seq<Byte>, start: nat, end: nat, f: Frame, a: Assembly, reply: Reply)
      returns (next: Decoder)
    requires 4 <= start <= end <= |s| && Heads(d, s[0], a) && d.step == CONTENT && d.msgLength == end - start
    requires d.msgKeys == s[start - 4..start]
    requires f == Frame(FinBit(s[0]), RsvBits(s[0]), OpcodeBits(s[0]), Mask(s[start..end], s[start - 4..start]))
    ensures next.Valid() && next.assembly == Deliver(a, f, reply)
    ensures next.assembly.closed || AtStart(next)
    ensures Run(d, s[start..], reply) == Run(next, s[end..], reply)
  {
    SliceOfRest(s, start, end - start);
    next := PayloadIsDelivered(d, s[start..], reply);
  }

  /** What a complete frame is made of. */
  lemma CompleteFrame(s: seq<Byte>) returns (start: nat, length: nat)
    requires ParseFrame(s).Complete?
    ensures |s| >= 2 && MaskBit(s[1]) && start == 6 + FormSize(FormOf(s[1])) <= |s| && length == AnnouncedLength(s)
    ensures var end := ParseFrame(s).size;
            && end == start + length <= |s|
            && ParseFrame(s).frame
               == Frame(FinBit(s[0]), RsvBits(s[0]), OpcodeBits(s[0]), Mask(s[start..end], s[start - 4..start]))
  {
    start, length := 6 + FormSize(FormOf(s[1])), AnnouncedLength(s);
  }

  lemma PayloadIsDelivered(d: Decoder, s: seq<Byte>, reply: Reply) returns (next: Decoder)
    requires d.Valid() && !d.assembly.closed && d.step == CONTENT && d.content == [] && |s| >= d.msgLength
    ensures next.Valid()
    ensures next.assembly
            == Deliver(d.assembly, Frame(d.fin, d.rsv, d.opcode, Mask(s[..d.msgLength], d.msgKeys)), reply)
    ensures next.assembly.closed || AtStart(next)
    ensures Run(d, s, reply) == Run(next, s[d.msgLength..], reply)
  {
    next := RunContent(d, s, reply);
    UnmaskedIsMask(s[..d.msgLength], d.msgKeys);
    assert [] + Mask(s[..d.msgLength], d.msgKeys) == Mask(s[..d.msgLength], d.msgKeys);
  }

  /** Nothing is delivered before a frame is complete. */
  lemma NothingFromPartOfFrame(d: Decoder, s: seq<Byte>, reply: Reply)
    requires AtStart(d) && !Misread(s) && ParseFrame(s).Incomplete?
    ensures var r := Run(d, s, reply).0;
            r.assembly == d.assembly && (s != [] ==> r.step != FIRSTBYTE)
  {
    if |s| == 1 {
      var d1 := AfterFirstByte(d, s, reply);
    } else if |s| >= 2 {
      NothingFromHeader(d, s, reply);
    }
  }

  lemma NothingFromHeader(d: Decoder, s: seq<Byte>, reply: Reply)
    requires AtStart(d) && !Misread(s) && |s| >= 2 && ParseFrame(s).Incomplete?
    ensures var r := Run(d, s, reply).0;
            r.assembly == d.assembly && r.step != FIRSTBYTE
  {
    var start := 2 + FormSize(FormOf(s[1]));
    if |s| >= start + 4 {
      var d2 := HeaderIsRead(d, s, reply);
      StarvedContent(d2, s[start + 4..], reply);
    } else if |s| >= start {
      var d3 := LengthIsRead(d, s, reply);
    } else {
      LengthCases(s[1]);
      var d4 := TwoBytesRead(d, s, reply);
    }
  }

  /** On every clean stream, cut in whatever way, the decoder makes the callbacks of the reference. */
  lemma {:induction false} DecoderRefinesReference(d: Decoder, s: seq<Byte>, reply: Reply)
    requires AtStart(d) && Clean(d.assembly, s, reply)
    ensures Run(d, s, reply).0.assembly == Receive(d.assembly, s, reply)
    decreases |s|
  {
    match ParseFrame(s)
    case Incomplete => NothingFromPartOfFrame(d, s, reply);
    case Unmasked => NotMasked(d, s, reply);
    case Complete(f, _, size) =>
      var next := FrameIsDelivered(d, s, reply);
      if !next.assembly.closed {
        DecoderRefinesReference(next, s[size..], reply);
      }
  }
}
