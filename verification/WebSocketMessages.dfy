/**
 Whole streams: which frames the decoder reads as section 5.2 of RFC 6455 has them, and what becomes of
 messages sent in fragments with control frames between them (section 5.4).
 */
module WebSocketMessages {
  import opened Basics
  import opened Sequences
  import opened ByteOrder
  import opened WebSocketFrames
  import opened WebSocketDecoder
  import opened WebSocketRefinement

  // ---- Exactly which frames are read ----

  ghost predicate MidFrame(r: Decoder, d: Decoder) {
    r.assembly == d.assembly && r.step != FIRSTBYTE
  }

  /** The decoder is inside the frame until its last byte, and then delivers it and awaits the next one. */
  ghost predicate ReadExactly(d: Decoder, s: seq<Byte>, reply: Reply)
    requires AtStart(d) && ParseFrame(s).Complete?
  {
    && (forall k :: 0 < k < |s| ==> MidFrame(Run(d, s[..k], reply).0, d))
    && var (r, rest) := Run(d, s, reply);
       && rest == [] && r.assembly == Deliver(d.assembly, ParseFrame(s).frame, reply)
       && (r.assembly.closed || r.step == FIRSTBYTE)
  }

  lemma PartIsIncomplete(s: seq<Byte>, k: nat)
    requires ParseFrame(s).Complete? && ParseFrame(s).size == |s| && k < |s|
    ensures ParseFrame(s[..k]).Incomplete?
    ensures Misread(s[..k]) ==> Misread(s)
  {
    if k >= 4 {
      assert s[..k][2..4] == s[2..4];
    }
    if k >= 10 {
      assert s[..k][2..10] == s[2..10];
    }
  }

  /** After the two bytes of an empty frame the frame has been delivered, without its key. */
  lemma EmptyFrameLeavesKey(d: Decoder, s: seq<Byte>, reply: Reply) returns (next: Decoder)
    requires AtStart(d) && |s| >= 2 && MaskBit(s[1]) && LengthBits(s[1]) == 0
    ensures next.Valid() && (next.assembly.closed || AtStart(next))
    ensures next.assembly
            == Deliver(d.assembly, Frame(FinBit(s[0]), RsvBits(s[0]), OpcodeBits(s[0]), []), reply)
    ensures Run(d, s, reply) == Run(next, s[2..], reply)
  {
    var d1 := TwoBytesRead(d, s, reply);
    LengthCases(s[1]);
    next := PayloadIsDelivered(d1, s[2..], reply);
    assert Mask(s[2..][..0], d1.msgKeys) == [];
    assert s[2..][0..] == s[2..];
  }

  /** After a 16-bit length of 127 everything that can arrive is swallowed. */
  lemma Length127Swallows(d: Decoder, s: seq<Byte>, reply: Reply)
    requires AtStart(d) && |s| >= 4 && MaskBit(s[1]) && LengthBits(s[1]) == 126
    requires FromBigEndian(s[2..4]) == 127 && |s| < 8 + 127 * Power256(6)
    ensures MidFrame(Run(d, s, reply).0, d)
  {
    var d1 := TwoBytesRead(d, s, reply);
    LengthCases(s[1]);
    SliceOfRest(s, 2, 2);
    var d2 := AfterLengthBytes(d1, s[2..], s[0], reply);
    LongMessageSwallows(d2, s[4..], s[0], reply);
  }

  /** A message that is longer than all that arrives. */
  lemma LongMessageSwallows(d: Decoder, s: seq<Byte>, first: Byte, reply: Reply)
    requires Heads(d, first, d.assembly) && d.step == MASK && |s| < 4 + d.msgLength
    ensures MidFrame(Run(d, s, reply).0, d)
  {
    if |s| >= 4 {
      var next := AfterKey(d, s, first, reply);
      StarvedContent(next, s[4..], reply);
    }
  }

  /** Every frame is read exactly, unless its header is one of the two that are misread. */
  lemma ReadExactlyUnlessMisread(d: Decoder, s: seq<Byte>, reply: Reply)
    requires AtStart(d) && ParseFrame(s).Complete? && ParseFrame(s).size == |s|
    ensures ReadExactly(d, s, reply) <==> !Misread(s)
  {
    if !Misread(s) {
      forall k | 0 < k < |s| ensures MidFrame(Run(d, s[..k], reply).0, d) {
        PartIsIncomplete(s, k);
        NothingFromPartOfFrame(d, s[..k], reply);
      }
      var next := FrameIsDelivered(d, s, reply);
    } else if LengthBits(s[1]) == 0 {
      var next := EmptyFrameLeavesKey(d, s[..2], reply);
      assert s[..2][2..] == [];
      assert !MidFrame(Run(d, s[..2], reply).0, d);
    } else {
      SizeOf127(s);
      Length127Swallows(d, s, reply);
    }
  }

  /** What `sendMessage` writes of a length, with the mask bit that a client adds. */
  function LengthBytes(length: nat): seq<Byte>
    requires length < Power256(8)
  {
    Power256Of8();
    [0x80 | LengthCode(length, ShortestForm(length))] + ExtendedLength(length, ShortestForm(length))
  }

  /** The LENGTH steps read back the length that was written, exactly when it is not 127. */
  lemma HeaderLengthRoundTrip(d: Decoder, first: Byte, length: nat, rest: seq<Byte>, reply: Reply)
      returns (next: Decoder)
    requires Heads(d, first, d.assembly) && d.step == LENGTH && d.msgLength == 0 && length < Power256(8)
    ensures Heads(next, first, d.assembly) && (next.step == MASK || (next.step == CONTENT && length == 0))
    ensures Run(d, LengthBytes(length) + rest, reply) == Run(next, rest, reply)
    ensures next.msgLength == length <==> length != 127
  {
    Power256Of8();
    var form := ShortestForm(length);
    var s := LengthBytes(length) + rest;
    LengthBytesParts(length, rest);
    MaskedCode(LengthCode(length, form));
    EncodedForm(length, form, s[0]);
    LengthCases(s[0]);
    next := AfterSecondByte(d, s, first, reply);
    if length >= 126 {
      next := AfterLengthBytes(next, s[1..], first, reply);
      ExtendedIsRead(length, s[1..], next.msgLength);
      SliceOfRest(s, 1, FormSize(form));
    }
  }

  lemma LengthBytesParts(length: nat, rest: seq<Byte>)
    requires length < Power256(8)
    ensures var form := ShortestForm(length);
            var s := LengthBytes(length) + rest;
            && Fits(length, form) && s[0] == 0x80 | LengthCode(length, form) && |s| >= 1 + FormSize(form)
            && s[1..][..FormSize(form)] == ExtendedLength(length, form)
            && s[1 + FormSize(form)..] == rest
  {
    Power256Of8();
  }

  lemma ExtendedIsRead(length: nat, s: seq<Byte>, read: nat)
    requires 126 <= length < Power256(8) && |s| >= FormSize(ShortestForm(length))
    requires s[..FormSize(ShortestForm(length))] == ExtendedLength(length, ShortestForm(length))
    requires ShortestForm(length).In16Bits? && FromBigEndian(s[..2]) != 127 ==> read == FromBigEndian(s[..2])
    requires ShortestForm(length).In16Bits? && FromBigEndian(s[..2]) == 127 ==> read >= 127 * Power256(6)
    requires ShortestForm(length).In64Bits? ==> read == FromBigEndian(s[..8])
    ensures read == length <==> length != 127
  {
    Power256Of8();
    if length < 0x1_0000 {
      FromToBigEndian(length, 2);
    } else {
      FromToBigEndian(length, 8);
    }
  }

  lemma SizeOf127(s: seq<Byte>)
    requires ParseFrame(s).Complete? && ParseFrame(s).size == |s|
    requires LengthBits(s[1]) == 126 && FromBigEndian(s[2..4]) == 127
    ensures |s| == 135 && 135 < 8 + 127 * Power256(6)
  {
    assert Power256(6) == 256 * Power256(5);
  }

  /** The bytes at the start of an encoded frame. */
  lemma EncodedHead(f: Frame, form: LengthForm, key: seq<Byte>, rest: seq<Byte>)
    requires f.Valid() && Fits(|f.payload|, form) && |key| == 4
    ensures var s := EncodeMasked(f, form, key) + rest;
            && |s| >= 6 && FinBit(s[0]) == f.fin && RsvBits(s[0]) == f.rsv && OpcodeBits(s[0]) == f.opcode
            && MaskBit(s[1]) && FormOf(s[1]) == form
            && (form.In7Bits? ==> LengthBits(s[1]) as nat == |f.payload| && s[2..] == key + Mask(f.payload, key) + rest)
            && (form.In16Bits? ==> LengthBits(s[1]) == 126 && FromBigEndian(s[2..4]) == |f.payload|)
  {
    EncodedPieces(f, form, key, rest);
    FirstByteFields(f.fin, f.rsv, f.opcode);
    MaskedCode(LengthCode(|f.payload|, form));
    EncodedForm(|f.payload|, form, (EncodeMasked(f, form, key) + rest)[1]);
    if form.In16Bits? {
      Power256Of8();
      FromToBigEndian(|f.payload|, 2);
    }
  }

  /**
   What an empty frame does to the rest of the stream: the reference goes on after the frame, but the
   decoder goes on inside it, with the masking key, and unless the key looks like the start of a masked
   frame it closes the connection.
   */
  lemma EmptyFrameDerails(d: Decoder, f: Frame, key: seq<Byte>, rest: seq<Byte>, reply: Reply)
    requires AtStart(d) && f.Valid() && f.payload == [] && |key| == 4 && !MaskBit(key[1])
    requires !Deliver(d.assembly, f, reply).closed
    ensures var s := EncodeMasked(f, In7Bits, key) + rest;
            && Receive(d.assembly, s, reply) == Receive(Deliver(d.assembly, f, reply), rest, reply)
            && Run(d, s, reply).0.assembly == Deliver(d.assembly, f, reply).Close()
  {
    var s := EncodeMasked(f, In7Bits, key) + rest;
    ParseEncoded(f, In7Bits, key, rest);
    assert s[|EncodeMasked(f, In7Bits, key)|..] == rest;
    EncodedHead(f, In7Bits, key, rest);
    LengthCases(s[1]);
    var next := EmptyFrameLeavesKey(d, s, reply);
    NotMasked(next, s[2..], reply);
  }

  // ---- Cutting the stream ----

  /** Reading part of a stream, and the rest later, is reading all of it. */
  lemma {:induction false} RunAppend(d: Decoder, a: seq<Byte>, b: seq<Byte>, reply: Reply)
    requires d.Valid()
    ensures Run(d, a + b, reply) == Run(Run(d, a, reply).0, Run(d, a, reply).1 + b, reply)
    decreases |a|, if d.assembly.closed then 0 else if d.Wanted() == 0 then 2 else 1
  {
    var n := d.Wanted();
    if !d.assembly.closed && |a| >= n {
      assert (a + b)[..n] == a[..n] && (a + b)[n..] == a[n..] + b;
      RunAppend(Take(d, a[..n], reply), a[n..], b, reply);
    }
  }

  lemma DeliverOnlyAppends(a: Assembly, f: Frame, reply: Reply)
    ensures a.events <= Deliver(a, f, reply).events
  {
  }

  /** Callbacks are never taken back: what a longer stream yields begins with what a shorter one did. */
  lemma {:induction false} RunOnlyAppends(d: Decoder, s: seq<Byte>, reply: Reply)
    requires d.Valid()
    ensures d.assembly.events <= Run(d, s, reply).0.assembly.events
    decreases |s|, if d.assembly.closed then 0 else if d.Wanted() == 0 then 2 else 1
  {
    var n := d.Wanted();
    if !d.assembly.closed && |s| >= n {
      TakeOnlyAppends(d, s[..n], reply);
      RunOnlyAppends(Take(d, s[..n], reply), s[n..], reply);
    }
  }

  lemma TakeOnlyAppends(d: Decoder, block: seq<Byte>, reply: Reply)
    requires d.Valid() && !d.assembly.closed && |block| == d.Wanted()
    ensures d.assembly.events <= Take(d, block, reply).assembly.events
  {
    if d.step == CONTENT {
      var content := d.content + UnmaskBlock(block, |d.content|, d.msgKeys);
      DeliverOnlyAppends(d.assembly, Frame(d.fin, d.rsv, d.opcode, content), reply);
    }
  }

  /** Of two runs on the same stream, the one that got further made the callbacks of the other first. */
  lemma CallbacksAgree(d: Decoder, s: seq<Byte>, m: nat, n: nat, reply: Reply)
    requires d.Valid() && m <= n <= |s|
    ensures Run(d, s[..m], reply).0.assembly.events <= Run(d, s[..n], reply).0.assembly.events
  {
    assert s[..n] == s[..m] + s[m..n];
    RunAppend(d, s[..m], s[m..n], reply);
    RunOnlyAppends(Run(d, s[..m], reply).0, Run(d, s[..m], reply).1 + s[m..n], reply);
  }

  // ---- Streams of frames ----

  /** A frame with the choices that a client makes in sending it. */
  datatype Sent = Sent(frame: Frame, form: LengthForm, key: seq<Byte>)
  {
    predicate Valid() {
      frame.Valid() && Fits(|frame.payload|, form) && |key| == 4
    }

    function Bytes(): seq<Byte>
      requires Valid()
    {
      EncodeMasked(frame, form, key)
    }

    /** Not one of the two headers that the decoder misreads. */
    predicate Readable() {
      && !(form == In7Bits && |frame.payload| == 0)
      && !(form == In16Bits && |frame.payload| == 127)
    }
  }

  function Stream(sent: seq<Sent>): seq<Byte>
    requires forall i :: 0 <= i < |sent| ==> sent[i].Valid()
  {
    if sent == [] then [] else sent[0].Bytes() + Stream(sent[1..])
  }

  function DeliverAll(a: Assembly, frames: seq<Frame>, reply: Reply): Assembly
    decreases |frames|
  {
    if a.closed || frames == [] then a else DeliverAll(Deliver(a, frames[0], reply), frames[1..], reply)
  }

  function Frames(sent: seq<Sent>): (r: seq<Frame>)
    ensures |r| == |sent|
  {
    if sent == [] then [] else [sent[0].frame] + Frames(sent[1..])
  }

  lemma SentIsMisread(x: Sent, rest: seq<Byte>)
    requires x.Valid()
    ensures Misread(EncodeMasked(x.frame, x.form, x.key) + rest) <==> !x.Readable()
  {
    var s := EncodeMasked(x.frame, x.form, x.key) + rest;
    EncodedHead(x.frame, x.form, x.key, rest);
    LengthCases(s[1]);
    if x.form == In16Bits {
      EncodedLongEnough(x, rest);
    }
  }

  lemma EncodedLongEnough(x: Sent, rest: seq<Byte>)
    requires x.Valid() && x.form == In16Bits
    ensures |EncodeMasked(x.frame, x.form, x.key) + rest| >= 8
  {
  }

  /** The reference parser finds the frames that were sent. */
  lemma {:induction false} StreamIsReceived(a: Assembly, sent: seq<Sent>, reply: Reply)
    requires forall i :: 0 <= i < |sent| ==> sent[i].Valid()
    ensures Receive(a, Stream(sent), reply) == DeliverAll(a, Frames(sent), reply)
    ensures (forall i :: 0 <= i < |sent| ==> sent[i].Readable()) ==> Clean(a, Stream(sent), reply)
    decreases |sent|
  {
    if sent != [] && !a.closed {
      var x, rest := sent[0], Stream(sent[1..]);
      ParseEncoded(x.frame, x.form, x.key, rest);
      SentIsMisread(x, rest);
      assert Stream(sent)[|x.Bytes()|..] == rest;
      StreamIsReceived(Deliver(a, x.frame, reply), sent[1..], reply);
    }
  }

  /** What a client sends in frames that are not misread is what the callbacks are made for. */
  lemma FramesAreDelivered(d: Decoder, sent: seq<Sent>, reply: Reply)
    requires AtStart(d) && forall i :: 0 <= i < |sent| ==> sent[i].Valid() && sent[i].Readable()
    ensures Run(d, Stream(sent), reply).0.assembly == DeliverAll(d.assembly, Frames(sent), reply)
  {
    StreamIsReceived(d.assembly, sent, reply);
    DecoderRefinesReference(d, Stream(sent), reply);
  }

  lemma {:induction false} DeliverAllAppend(a: Assembly, x: seq<Frame>, y: seq<Frame>, reply: Reply)
    ensures DeliverAll(a, x + y, reply) == DeliverAll(DeliverAll(a, x, reply), y, reply)
    decreases |x|
  {
    if a.closed {
    } else if x == [] {
      assert x + y == y;
    } else {
      assert (x + y)[0] == x[0] && (x + y)[1..] == x[1..] + y;
      DeliverAllAppend(Deliver(a, x[0], reply), x[1..], y, reply);
    }
  }

  /** A frame that sections 5.4 and 5.5 of RFC 6455 forbid at this point of the connection. */
  predicate Offends(a: Assembly, f: Frame) {
    || (IsControl(f.opcode) && (!f.fin || |f.payload| > 125))
    || ((f.opcode == TEXT || f.opcode == BINARY) && a.fragmented)
    || (f.opcode == CONTINUATION && !a.fragmented)
  }

  /** A frame closes the connection exactly when it offends, or is a close frame that the callback agrees to. */
  lemma ClosesExactlyWhen(a: Assembly, f: Frame, reply: Reply)
    requires !a.closed
    ensures Deliver(a, f, reply).closed
            <==> Offends(a, f) || (f.opcode == CLOSE && reply(a.events + [CloseFrame(f.payload)]))
    ensures Offends(a, f) ==> Deliver(a, f, reply) == a.Close()
  {
  }

  /** Frames that are not misread, and any bytes after them. */
  lemma {:induction false} FramesThenMore(d: Decoder, sent: seq<Sent>, tail: seq<Byte>, reply: Reply)
      returns (next: Decoder)
    requires AtStart(d) && forall i :: 0 <= i < |sent| ==> sent[i].Valid() && sent[i].Readable()
    ensures next.Valid() && next.assembly == DeliverAll(d.assembly, Frames(sent), reply)
    ensures Run(d, Stream(sent) + tail, reply).0.assembly == Run(next, tail, reply).0.assembly
    ensures next.assembly.closed || AtStart(next)
    decreases |sent|
  {
    if sent == [] {
      assert Stream(sent) + tail == tail;
      next := d;
    } else {
      var x, rest := sent[0], Stream(sent[1..]) + tail;
      assert Stream(sent) + tail == x.Bytes() + rest;
      ParseEncoded(x.frame, x.form, x.key, rest);
      SentIsMisread(x, rest);
      next := FrameIsDelivered(d, x.Bytes() + rest, reply);
      assert (x.Bytes() + rest)[|x.Bytes()|..] == rest;
      if !next.assembly.closed {
        next := FramesThenMore(next, sent[1..], tail, reply);
      }
    }
  }

  /** A frame that is read to its end, or, when it is empty, up to its key. */
  lemma OneFrameThenMore(d: Decoder, x: Sent, tail: seq<Byte>, reply: Reply)
    requires AtStart(d) && x.Valid() && (x.form == In16Bits ==> |x.frame.payload| != 127)
    requires Deliver(d.assembly, x.frame, reply).closed
    ensures Run(d, x.Bytes() + tail, reply).0.assembly == Deliver(d.assembly, x.frame, reply)
  {
    if x.Readable() {
      ParseEncoded(x.frame, x.form, x.key, tail);
      SentIsMisread(x, tail);
      var next := FrameIsDelivered(d, x.Bytes() + tail, reply);
    } else {
      EncodedHead(x.frame, x.form, x.key, tail);
      LengthCases((x.Bytes() + tail)[1]);
      var next := EmptyFrameLeavesKey(d, x.Bytes() + tail, reply);
    }
  }

  /** A forbidden frame ends the run: whatever bytes follow it, no callback is made for it nor for anything after it. */
  lemma OffenceEndsTheRun(d: Decoder, before: seq<Sent>, x: Sent, tail: seq<Byte>, reply: Reply)
    requires AtStart(d) && forall i :: 0 <= i < |before| ==> before[i].Valid() && before[i].Readable()
    requires x.Valid() && (x.form == In16Bits ==> |x.frame.payload| != 127)
    requires var a := DeliverAll(d.assembly, Frames(before), reply); !a.closed && Offends(a, x.frame)
    ensures Run(d, Stream(before) + x.Bytes() + tail, reply).0.assembly
            == DeliverAll(d.assembly, Frames(before), reply).Close()
  {
    var next := FramesThenMore(d, before, x.Bytes() + tail, reply);
    Regroup(Stream(before), x.Bytes(), tail);
    ClosesExactlyWhen(next.assembly, x.frame, reply);
    OneFrameThenMore(next, x, tail, reply);
  }

  /** So does a frame without a mask, as section 5.1 of RFC 6455 asks. */
  lemma UnmaskedEndsTheRun(d: Decoder, before: seq<Sent>, tail: seq<Byte>, reply: Reply)
    requires AtStart(d) && forall i :: 0 <= i < |before| ==> before[i].Valid() && before[i].Readable()
    requires !DeliverAll(d.assembly, Frames(before), reply).closed && |tail| >= 2 && !MaskBit(tail[1])
    ensures Run(d, Stream(before) + tail, reply).0.assembly == DeliverAll(d.assembly, Frames(before), reply).Close()
  {
    var next := FramesThenMore(d, before, tail, reply);
    NotMasked(next, tail, reply);
  }

  // ---- Close frames ----

  /** A close frame, however it is masked and whatever form its length has. */
  predicate IsCloseFrame(x: Sent) {
    x.Valid() && x.frame.opcode == CLOSE && x.frame.fin && |x.frame.payload| <= 125
  }

  /** What a close frame comes to: the callback, and only if it agrees the answer, and the end. */
  lemma CloseIsDelivered(a: Assembly, f: Frame, reply: Reply)
    requires !a.closed && f.opcode == CLOSE && f.fin && |f.payload| <= 125
    ensures var told := a.events + [CloseFrame(f.payload)];
            Deliver(a, f, reply)
            == if reply(told) then a.(events := told + [CloseSent(f.payload)], closed := true)
               else a.(events := told)
  {
  }

  /**
   A close frame that the callback agrees to, after any readable frames: the callback is made for its payload, the
   answer with the same payload is put in the sending queue, and whatever bytes follow nothing more happens.
   */
  lemma CloseFrameIsAnswered(d: Decoder, before: seq<Sent>, x: Sent, tail: seq<Byte>, reply: Reply)
    requires AtStart(d) && forall i :: 0 <= i < |before| ==> before[i].Valid() && before[i].Readable()
    requires IsCloseFrame(x) && !DeliverAll(d.assembly, Frames(before), reply).closed
    requires reply(DeliverAll(d.assembly, Frames(before), reply).events + [CloseFrame(x.frame.payload)])
    ensures var a, p := DeliverAll(d.assembly, Frames(before), reply), x.frame.payload;
            Run(d, Stream(before) + x.Bytes() + tail, reply).0.assembly
            == a.(events := a.events + [CloseFrame(p), CloseSent(p)], closed := true)
  {
    var a, p := DeliverAll(d.assembly, Frames(before), reply), x.frame.payload;
    var next := FramesThenMore(d, before, x.Bytes() + tail, reply);
    Regroup(Stream(before), x.Bytes(), tail);
    CloseIsDelivered(a, x.frame, reply);
    Regroup(a.events, [CloseFrame(p)], [CloseSent(p)]);
    OneFrameThenMore(next, x, tail, reply);
  }

  /**
   One that the callback refuses: the callback is made and nothing is answered, a message of which only some fragments
   have come is kept, and what follows is read as if the frame had not been there. When it is empty, that begins with
   its masking key.
   */
  lemma CloseFrameIsRefused(d: Decoder, before: seq<Sent>, x: Sent, tail: seq<Byte>, reply: Reply)
      returns (next: Decoder)
    requires AtStart(d) && forall i :: 0 <= i < |before| ==> before[i].Valid() && before[i].Readable()
    requires IsCloseFrame(x) && !DeliverAll(d.assembly, Frames(before), reply).closed
    requires !reply(DeliverAll(d.assembly, Frames(before), reply).events + [CloseFrame(x.frame.payload)])
    ensures var a := DeliverAll(d.assembly, Frames(before), reply);
            AtStart(next) && next.assembly == a.(events := a.events + [CloseFrame(x.frame.payload)])
    ensures Run(d, Stream(before) + x.Bytes() + tail, reply).0.assembly
            == Run(next, if x.Readable() then tail else x.key + tail, reply).0.assembly
  {
    var a := DeliverAll(d.assembly, Frames(before), reply);
    var at := FramesThenMore(d, before, x.Bytes() + tail, reply);
    Regroup(Stream(before), x.Bytes(), tail);
    CloseIsDelivered(a, x.frame, reply);
    next := FrameThenMore(at, x, tail, reply);
  }

  /** A short frame is read, and what follows it, or its key when it is empty, is left. */
  lemma FrameThenMore(d: Decoder, x: Sent, tail: seq<Byte>, reply: Reply) returns (next: Decoder)
    requires AtStart(d) && x.Valid() && |x.frame.payload| <= 125 && !Deliver(d.assembly, x.frame, reply).closed
    ensures AtStart(next) && next.assembly == Deliver(d.assembly, x.frame, reply)
    ensures Run(d, x.Bytes() + tail, reply) == Run(next, if x.Readable() then tail else x.key + tail, reply)
  {
    if x.Readable() {
      ParseEncoded(x.frame, x.form, x.key, tail);
      SentIsMisread(x, tail);
      next := FrameIsDelivered(d, x.Bytes() + tail, reply);
      assert (x.Bytes() + tail)[|x.Bytes()|..] == tail;
    } else {
      EncodedHead(x.frame, x.form, x.key, tail);
      LengthCases((x.Bytes() + tail)[1]);
      next := EmptyFrameLeavesKey(d, x.Bytes() + tail, reply);
      EmptyRest(x, tail);
    }
  }

  lemma EmptyRest(x: Sent, tail: seq<Byte>)
    requires x.Valid() && x.form == In7Bits && x.frame.payload == []
    ensures (x.Bytes() + tail)[2..] == x.key + tail
  {
  }

  // ---- What is ignored ----

  /** A frame of an opcode that has no meaning, section 5.2 of RFC 6455, is as if it had not been sent. */
  lemma UnknownIsSkipped(a: Assembly, x: seq<Frame>, f: Frame, y: seq<Frame>, reply: Reply)
    requires f.opcode !in {CONTINUATION, TEXT, BINARY, CLOSE, PING, PONG}
    ensures DeliverAll(a, x + [f] + y, reply) == DeliverAll(a, x + y, reply)
  {
    DeliverAllAppend(a, x + [f], y, reply);
    DeliverAllAppend(a, x, [f], reply);
    DeliverAllAppend(a, x, y, reply);
    var b := DeliverAll(a, x, reply);
    assert DeliverAll(b, [f], reply) == b by {
      assert [f][1..] == [];
    }
  }

  /** So are the reserved bits of a frame. */
  lemma ReservedBitsAreIgnored(a: Assembly, x: seq<Frame>, f: Frame, rsv: Byte, y: seq<Frame>, reply: Reply)
    ensures DeliverAll(a, x + [f] + y, reply) == DeliverAll(a, x + [f.(rsv := rsv)] + y, reply)
  {
    var b := DeliverAll(a, x, reply);
    DeliverAllAppend(a, x + [f], y, reply);
    DeliverAllAppend(a, x, [f], reply);
    DeliverAllAppend(a, x + [f.(rsv := rsv)], y, reply);
    DeliverAllAppend(a, x, [f.(rsv := rsv)], reply);
    assert [f][1..] == [] && [f.(rsv := rsv)][1..] == [];
    assert Deliver(b, f, reply) == Deliver(b, f.(rsv := rsv), reply);
  }

  // ---- Messages in fragments ----

  /** A control frame; a close frame among them is one that the callback refuses. */
  datatype Control = Ping(payload: seq<Byte>) | Pong(payload: seq<Byte>) | Close(payload: seq<Byte>)

  /** A later fragment of a message, and the control frames sent just before it. */
  datatype Fragment = Fragment(controls: seq<Control>, payload: seq<Byte>)

  datatype Unit =
    | Alone(control: Control)
    | Message(text: bool, first: seq<Byte>, more: seq<Fragment>)

  function ControlFrame(c: Control): Frame {
    Frame(true, 0, match c case Ping(_) => PING case Pong(_) => PONG case Close(_) => CLOSE, c.payload)
  }

  function ControlFrames(controls: seq<Control>): seq<Frame> {
    if controls == [] then [] else [ControlFrame(controls[0])] + ControlFrames(controls[1..])
  }

  function FragmentFrames(more: seq<Fragment>): seq<Frame> {
    if more == [] then []
    else
      ControlFrames(more[0].controls) + [Frame(|more| == 1, 0, CONTINUATION, more[0].payload)]
      + FragmentFrames(more[1..])
  }

  function UnitFrames(u: Unit): seq<Frame> {
    match u
    case Alone(c) => [ControlFrame(c)]
    case Message(text, first, more) =>
      [Frame(more == [], 0, if text then TEXT else BINARY, first)] + FragmentFrames(more)
  }

  function AllFrames(units: seq<Unit>): seq<Frame> {
    if units == [] then [] else UnitFrames(units[0]) + AllFrames(units[1..])
  }

  predicate ShortControl(c: Control) {
    |c.payload| <= 125
  }

  predicate ShortControls(u: Unit) {
    match u
    case Alone(c) => ShortControl(c)
    case Message(_, _, more) => forall i :: 0 <= i < |more| ==> ShortFragment(more[i])
  }

  predicate ShortFragment(f: Fragment) {
    forall j :: 0 <= j < |f.controls| ==> ShortControl(f.controls[j])
  }

  /** The connection stays open after a control frame, unless it is a close frame that the callback agrees to. */
  predicate ControlStays(events: seq<Event>, c: Control, reply: Reply) {
    c.Close? ==> !reply(events + [CloseFrame(c.payload)])
  }

  predicate ControlsStay(events: seq<Event>, controls: seq<Control>, reply: Reply)
    decreases |controls|
  {
    controls == []
    || (ControlStays(events, controls[0], reply)
        && ControlsStay(AfterControl(events, controls[0], reply), controls[1..], reply))
  }

  predicate FragmentsStay(events: seq<Event>, more: seq<Fragment>, reply: Reply)
    decreases |more|
  {
    more == []
    || (ControlsStay(events, more[0].controls, reply)
        && FragmentsStay(AfterControls(events, more[0].controls, reply), more[1..], reply))
  }

  predicate UnitStays(events: seq<Event>, u: Unit, reply: Reply) {
    match u
    case Alone(c) => ControlStays(events, c, reply)
    case Message(_, _, more) => FragmentsStay(events, more, reply)
  }

  /** The callback agrees to none of the close frames. */
  predicate UnitsStay(events: seq<Event>, units: seq<Unit>, reply: Reply)
    decreases |units|
  {
    units == []
    || (UnitStays(events, units[0], reply) && UnitsStay(AfterUnit(events, units[0], reply), units[1..], reply))
  }

  /** The callbacks for a control frame, with the pong that the ping callback may ask for. */
  function AfterControl(events: seq<Event>, c: Control, reply: Reply): seq<Event> {
    match c
    case Pong(p) => events + [PongFrame(p)]
    case Close(p) => events + [CloseFrame(p)]
    case Ping(p) =>
      var told := events + [PingFrame(p)];
      if reply(told) then told + [PongSent(p)] else told
  }

  function AfterControls(events: seq<Event>, controls: seq<Control>, reply: Reply): seq<Event>
    decreases |controls|
  {
    if controls == [] then events
    else AfterControls(AfterControl(events, controls[0], reply), controls[1..], reply)
  }

  function AfterFragments(events: seq<Event>, more: seq<Fragment>, reply: Reply): seq<Event>
    decreases |more|
  {
    if more == [] then events
    else AfterFragments(AfterControls(events, more[0].controls, reply), more[1..], reply)
  }

  function Payload(first: seq<Byte>, more: seq<Fragment>): seq<Byte>
    decreases |more|
  {
    if more == [] then first else Payload(first + more[0].payload, more[1..])
  }

  /** The one callback for a whole message. */
  function WholeMessage(u: Unit): Event
    requires u.Message?
  {
    if u.text then TextMessage(Payload(u.first, u.more)) else BinaryMessage(Payload(u.first, u.more))
  }

  function AfterUnit(events: seq<Event>, u: Unit, reply: Reply): seq<Event> {
    match u
    case Alone(c) => AfterControl(events, c, reply)
    case Message(_, _, more) => AfterFragments(events, more, reply) + [WholeMessage(u)]
  }

  function AfterUnits(events: seq<Event>, units: seq<Unit>, reply: Reply): seq<Event>
    decreases |units|
  {
    if units == [] then events else AfterUnits(AfterUnit(events, units[0], reply), units[1..], reply)
  }

  lemma {:induction false} ControlsAreDelivered(a: Assembly, controls: seq<Control>, reply: Reply)
    requires !a.closed && forall j :: 0 <= j < |controls| ==> ShortControl(controls[j])
    requires ControlsStay(a.events, controls, reply)
    ensures DeliverAll(a, ControlFrames(controls), reply) == a.(events := AfterControls(a.events, controls, reply))
    decreases |controls|
  {
    if controls != [] {
      assert ShortControl(controls[0]);
      var next := Deliver(a, ControlFrame(controls[0]), reply);
      assert next == a.(events := AfterControl(a.events, controls[0], reply));
      ControlsAreDelivered(next, controls[1..], reply);
    }
  }

  /** The rest of a fragmented message: its control frames as they come, then the message at once. */
  lemma {:induction false} FragmentsAreJoined(a: Assembly, more: seq<Fragment>, reply: Reply)
    requires !a.closed && more != [] && a.fragmented && (a.fragmentedOpcode == TEXT || a.fragmentedOpcode == BINARY)
    requires (forall i :: 0 <= i < |more| ==> ShortFragment(more[i])) && FragmentsStay(a.events, more, reply)
    ensures DeliverAll(a, FragmentFrames(more), reply)
            == IDLE.(events := AfterFragments(a.events, more, reply)
                               + [MessageEvent(a.fragmentedOpcode, Payload(a.fragmentedPayload, more))])
    decreases |more|
  {
    assert ShortFragment(more[0]);
    var f := Frame(|more| == 1, 0, CONTINUATION, more[0].payload);
    var rest := FragmentFrames(more[1..]);
    ControlsAreDelivered(a, more[0].controls, reply);
    var b := a.(events := AfterControls(a.events, more[0].controls, reply));
    assert FragmentFrames(more) == ControlFrames(more[0].controls) + ([f] + rest);
    DeliverAllAppend(a, ControlFrames(more[0].controls), [f] + rest, reply);
    assert ([f] + rest)[1..] == rest;
    if |more| > 1 {
      FragmentsAreJoined(Deliver(b, f, reply), more[1..], reply);
    }
  }

  lemma UnitIsDelivered(a: Assembly, u: Unit, reply: Reply)
    requires a == IDLE.(events := a.events) && ShortControls(u) && UnitStays(a.events, u, reply)
    ensures DeliverAll(a, UnitFrames(u), reply) == a.(events := AfterUnit(a.events, u, reply))
  {
    match u
    case Alone(c) =>
      assert DeliverAll(a, [ControlFrame(c)], reply) == Deliver(a, ControlFrame(c), reply);
    case Message(text, first, more) =>
      var f := Frame(more == [], 0, if text then TEXT else BINARY, first);
      assert ([f] + FragmentFrames(more))[1..] == FragmentFrames(more);
      var b := Deliver(a, f, reply);
      assert DeliverAll(a, UnitFrames(u), reply) == DeliverAll(b, FragmentFrames(more), reply);
      if more != [] {
        FragmentsAreJoined(b, more, reply);
      }
  }

  /** Every message is delivered once, whole, where its last fragment stands among the control frames. */
  lemma {:induction false} UnitsAreDelivered(a: Assembly, units: seq<Unit>, reply: Reply)
    requires a == IDLE.(events := a.events) && forall i :: 0 <= i < |units| ==> ShortControls(units[i])
    requires UnitsStay(a.events, units, reply)
    ensures DeliverAll(a, AllFrames(units), reply) == a.(events := AfterUnits(a.events, units, reply))
    decreases |units|
  {
    if units != [] {
      assert ShortControls(units[0]);
      UnitIsDelivered(a, units[0], reply);
      DeliverAllAppend(a, UnitFrames(units[0]), AllFrames(units[1..]), reply);
      UnitsAreDelivered(a.(events := AfterUnit(a.events, units[0], reply)), units[1..], reply);
    }
  }

  /** The message callbacks among all callbacks. */
  function Messages(events: seq<Event>): seq<Event> {
    if events == [] then []
    else (if events[0].TextMessage? || events[0].BinaryMessage? then [events[0]] else []) + Messages(events[1..])
  }

  function WholeMessages(units: seq<Unit>): seq<Event> {
    if units == [] then []
    else (if units[0].Message? then [WholeMessage(units[0])] else []) + WholeMessages(units[1..])
  }

  lemma {:induction false} MessagesAppend(x: seq<Event>, y: seq<Event>)
    ensures Messages(x + y) == Messages(x) + Messages(y)
  {
    if x == [] {
      assert x + y == y;
    } else {
      MessagesAppend(x[1..], y);
      MessagesOfMore(x[0], x[1..] + y);
      MessagesOfMore(x[0], x[1..]);
      HeadAndTail(x, y);
      Regroup(Messages([x[0]]), Messages(x[1..]), Messages(y));
    }
  }

  lemma HeadAndTail(x: seq<Event>, y: seq<Event>)
    requires x != []
    ensures [x[0]] + (x[1..] + y) == x + y && [x[0]] + x[1..] == x
  {
  }

  lemma MessagesOfMore(e: Event, rest: seq<Event>)
    ensures Messages([e] + rest) == Messages([e]) + Messages(rest)
  {
    assert ([e] + rest)[1..] == rest;
  }

  lemma {:induction false} ControlsAreNoMessages(events: seq<Event>, controls: seq<Control>, reply: Reply)
    ensures Messages(AfterControls(events, controls, reply)) == Messages(events)
    decreases |controls|
  {
    if controls != [] {
      OneControlIsNoMessage(events, controls[0], reply);
      ControlsAreNoMessages(AfterControl(events, controls[0], reply), controls[1..], reply);
    }
  }

  lemma OneControlIsNoMessage(events: seq<Event>, c: Control, reply: Reply)
    ensures Messages(AfterControl(events, c, reply)) == Messages(events)
  {
    match c
    case Pong(p) => MessagesAppend(events, [PongFrame(p)]);
    case Close(p) => MessagesAppend(events, [CloseFrame(p)]);
    case Ping(p) =>
      MessagesAppend(events, [PingFrame(p)]);
      MessagesAppend(events + [PingFrame(p)], [PongSent(p)]);
  }

  lemma {:induction false} FragmentsAreNoMessages(events: seq<Event>, more: seq<Fragment>, reply: Reply)
    ensures Messages(AfterFragments(events, more, reply)) == Messages(events)
    decreases |more|
  {
    if more != [] {
      ControlsAreNoMessages(events, more[0].controls, reply);
      FragmentsAreNoMessages(AfterControls(events, more[0].controls, reply), more[1..], reply);
    }
  }

  /** The message callbacks are exactly the messages sent, in the order in which they were sent. */
  lemma {:induction false} MessagesInOrder(events: seq<Event>, units: seq<Unit>, reply: Reply)
    ensures Messages(AfterUnits(events, units, reply)) == Messages(events) + WholeMessages(units)
    decreases |units|
  {
    if units != [] {
      var u := units[0];
      var next := AfterUnit(events, u, reply);
      match u {
        case Alone(c) => OneControlIsNoMessage(events, c, reply);
        case Message(_, _, more) =>
          FragmentsAreNoMessages(events, more, reply);
          MessagesAppend(AfterFragments(events, more, reply), [WholeMessage(u)]);
      }
      MessagesInOrder(next, units[1..], reply);
    }
  }

  /**
   From the bytes on the wire to the callbacks: a client's messages, fragmented and interleaved with
   control frames in any way, each frame masked with any key and written in any readable form.
   */
  lemma StreamToMessages(d: Decoder, units: seq<Unit>, sent: seq<Sent>, reply: Reply)
    requires AtStart(d) && d.assembly == IDLE
    requires (forall i :: 0 <= i < |units| ==> ShortControls(units[i])) && UnitsStay([], units, reply)
    requires forall i :: 0 <= i < |sent| ==> sent[i].Valid() && sent[i].Readable()
    requires Frames(sent) == AllFrames(units)
    ensures var a := Run(d, Stream(sent), reply).0.assembly;
            && !a.closed && a.events == AfterUnits([], units, reply)
            && Messages(a.events) == WholeMessages(units)
  {
    FramesAreDelivered(d, sent, reply);
    UnitsToMessages(units, reply);
  }

  lemma UnitsToMessages(units: seq<Unit>, reply: Reply)
    requires (forall i :: 0 <= i < |units| ==> ShortControls(units[i])) && UnitsStay([], units, reply)
    ensures var a := DeliverAll(IDLE, AllFrames(units), reply);
            && !a.closed && a.events == AfterUnits([], units, reply)
            && Messages(a.events) == WholeMessages(units)
  {
    UnitsAreDelivered(IDLE, units, reply);
    MessagesInOrder([], units, reply);
  }
}
