/** The framing of section 5.2 of RFC 6455, as seen by a server. */
module WebSocketFrames {
  import opened ByteOrder

  datatype Frame = Frame(fin: bool, rsv: Byte, opcode: Byte, payload: seq<Byte>)
  {
    predicate Valid() {
      rsv < 8 && opcode < 16 && |payload| < Power256(8)
    }
  }

  /** Where the payload length stands: in the second byte, in two more bytes, or in eight. */
  datatype LengthForm = In7Bits | In16Bits | In64Bits

  const CONTINUATION: Byte := 0x0
  const TEXT: Byte := 0x1
  const BINARY: Byte := 0x2
  const CLOSE: Byte := 0x8
  const PING: Byte := 0x9
  const PONG: Byte := 0xa

  predicate Fits(length: nat, form: LengthForm) {
    match form
    case In7Bits => length < 126
    case In16Bits => length < 0x1_0000
    case In64Bits => length < Power256(8)
  }

  /** The form that section 5.2 of RFC 6455 requires of a sender. */
  function ShortestForm(length: nat): LengthForm {
    if length < 126 then In7Bits else if length < 0x1_0000 then In16Bits else In64Bits
  }

  lemma SevenBits(b: Byte)
    ensures b < 128 <==> b as nat < 128
  {
  }

  lemma SevenLowBits(length: nat)
    requires length < 126
    ensures LowByte(length) < 128 && LowByte(length) as nat == length
  {
    SevenBits(LowByte(length));
  }

  function LengthCode(length: nat, form: LengthForm): (code: Byte)
    requires Fits(length, form)
    ensures code < 128 && (form.In7Bits? ==> code as nat == length)
  {
    match form
    case In7Bits =>
      SevenLowBits(length);
      LowByte(length)
    case In16Bits => 126
    case In64Bits => 127
  }

  function ExtendedLength(length: nat, form: LengthForm): seq<Byte> {
    match form
    case In7Bits => []
    case In16Bits => BigEndian(length, 2)
    case In64Bits => BigEndian(length, 8)
  }

  function FirstByte(fin: bool, rsv: Byte, opcode: Byte): Byte {
    (if fin then 0x80 else 0) | ((rsv & 7) << 4) | (opcode & 0xf)
  }

  /** Masking and unmasking, section 5.3 of RFC 6455: the transformation is its own inverse. */
  function Mask(payload: seq<Byte>, key: seq<Byte>): (r: seq<Byte>)
    requires |key| == 4
    ensures |r| == |payload|
  {
    seq(|payload|, i requires 0 <= i < |payload| => payload[i] ^ key[i % 4])
  }

  /** A frame as a client sends it. */
  function EncodeMasked(f: Frame, form: LengthForm, key: seq<Byte>): seq<Byte>
    requires Fits(|f.payload|, form) && |key| == 4
  {
    [FirstByte(f.fin, f.rsv, f.opcode), 0x80 | LengthCode(|f.payload|, form)]
    + ExtendedLength(|f.payload|, form) + key + Mask(f.payload, key)
  }

  /** A frame as a server sends it: in the shortest form, unmasked. */
  function EncodeUnmasked(f: Frame): seq<Byte>
    requires Fits(|f.payload|, ShortestForm(|f.payload|))
  {
    [FirstByte(f.fin, f.rsv, f.opcode), LengthCode(|f.payload|, ShortestForm(|f.payload|))]
    + ExtendedLength(|f.payload|, ShortestForm(|f.payload|)) + f.payload
  }

  datatype Parsed =
    | Incomplete                                       // more bytes are needed
    | Unmasked                                         // a frame that a client must not send
    | Complete(frame: Frame, form: LengthForm, size: nat)  // the frame in the first `size` bytes

  function FinBit(b: Byte): bool {
    (b & 0x80) >> 7 == 1
  }

  function RsvBits(b: Byte): Byte {
    (b & 0x70) >> 4
  }

  function OpcodeBits(b: Byte): Byte {
    b & 0xf
  }

  function MaskBit(b: Byte): bool {
    (b & 0x80) >> 7 == 1
  }

  function LengthBits(b: Byte): Byte {
    b & 0x7f
  }

  function FormOf(code: Byte): LengthForm {
    if LengthBits(code) == 126 then In16Bits else if LengthBits(code) == 127 then In64Bits else In7Bits
  }

  function FormSize(form: LengthForm): nat {
    match form
    case In7Bits => 0
    case In16Bits => 2
    case In64Bits => 8
  }

  /** The payload length announced by a header of which all length bytes are there. */
  function AnnouncedLength(s: seq<Byte>): nat
    requires |s| >= 2 && |s| >= 2 + FormSize(FormOf(s[1]))
  {
    match FormOf(s[1])
    case In7Bits => LengthBits(s[1]) as nat
    case In16Bits => FromBigEndian(s[2..4])
    case In64Bits => FromBigEndian(s[2..10])
  }

  /** The first frame of a byte stream from a client. */
  function ParseFrame(s: seq<Byte>): (r: Parsed)
    ensures r.Complete? ==> 6 <= r.size <= |s|
  {
    if |s| < 2 then Incomplete
    else if !MaskBit(s[1]) then Unmasked
    else
      var form := FormOf(s[1]);
      var start := 2 + FormSize(form);
      if |s| < start then Incomplete
      else
        var length := AnnouncedLength(s);
        if |s| < start + 4 + length then Incomplete
        else
          var payload := Mask(s[start + 4..start + 4 + length], s[start..start + 4]);
          var frame := Frame(FinBit(s[0]), RsvBits(s[0]), OpcodeBits(s[0]), payload);
          Complete(frame, form, start + 4 + length)
  }

  lemma MaskTwice(payload: seq<Byte>, key: seq<Byte>)
    requires |key| == 4
    ensures Mask(Mask(payload, key), key) == payload
  {
    forall i | 0 <= i < |payload| ensures (payload[i] ^ key[i % 4]) ^ key[i % 4] == payload[i] {
      XorTwice(payload[i], key[i % 4]);
    }
  }

  lemma XorTwice(b: Byte, k: Byte)
    ensures (b ^ k) ^ k == b
  {
  }

  lemma FirstByteFields(fin: bool, rsv: Byte, opcode: Byte)
    requires rsv < 8 && opcode < 16
    ensures var b := FirstByte(fin, rsv, opcode);
            FinBit(b) == fin && RsvBits(b) == rsv && OpcodeBits(b) == opcode
  {
  }

  lemma MaskedCode(code: Byte)
    requires code < 128
    ensures MaskBit(0x80 | code) && LengthBits(0x80 | code) == code
  {
  }

  lemma ShortCode(code: Byte)
    requires code as nat < 126
    ensures code != 126 && code != 127
  {
  }

  lemma EncodedForm(length: nat, form: LengthForm, code: Byte)
    requires Fits(length, form) && LengthBits(code) == LengthCode(length, form)
    ensures FormOf(code) == form && (form.In7Bits? ==> LengthBits(code) as nat == length)
  {
    if form.In7Bits? {
      ShortCode(LengthBits(code));
    }
  }

  lemma EncodedLength(length: nat, form: LengthForm, s: seq<Byte>)
    requires Fits(length, form) && |s| >= 2 + FormSize(form)
    requires FormOf(s[1]) == form && (form.In7Bits? ==> LengthBits(s[1]) as nat == length)
    requires s[2..2 + FormSize(form)] == ExtendedLength(length, form)
    ensures AnnouncedLength(s) == length
  {
    match form
    case In7Bits =>
    case In16Bits =>
      Power256Of8();
      FromToBigEndian(length, 2);
    case In64Bits => FromToBigEndian(length, 8);
  }

  /** Where the pieces of an encoded frame stand in the stream. */
  lemma EncodedPieces(f: Frame, form: LengthForm, key: seq<Byte>, rest: seq<Byte>)
    requires Fits(|f.payload|, form) && |key| == 4
    ensures var e := EncodeMasked(f, form, key);
            var s := e + rest;
            var start := 2 + FormSize(form);
            && |e| == start + 4 + |f.payload|
            && s[0] == FirstByte(f.fin, f.rsv, f.opcode)
            && s[1] == 0x80 | LengthCode(|f.payload|, form)
            && s[2..start] == ExtendedLength(|f.payload|, form)
            && s[start..start + 4] == key
            && s[start + 4..start + 4 + |f.payload|] == Mask(f.payload, key)
  {
  }

  /** A masked frame is parsed back, in whatever form its length was written. */
  lemma ParseEncoded(f: Frame, form: LengthForm, key: seq<Byte>, rest: seq<Byte>)
    requires f.Valid() && Fits(|f.payload|, form) && |key| == 4
    ensures ParseFrame(EncodeMasked(f, form, key) + rest) == Complete(f, form, |EncodeMasked(f, form, key)|)
  {
    EncodedPieces(f, form, key, rest);
    FirstByteFields(f.fin, f.rsv, f.opcode);
    MaskedCode(LengthCode(|f.payload|, form));
    ParsePieces(f, form, key, EncodeMasked(f, form, key) + rest);
  }

  lemma ParsePieces(f: Frame, form: LengthForm, key: seq<Byte>, s: seq<Byte>)
    requires Fits(|f.payload|, form) && |key| == 4
    requires |s| >= 6 + FormSize(form) + |f.payload|
    requires FinBit(s[0]) == f.fin && RsvBits(s[0]) == f.rsv && OpcodeBits(s[0]) == f.opcode
    requires MaskBit(s[1]) && LengthBits(s[1]) == LengthCode(|f.payload|, form)
    requires s[2..2 + FormSize(form)] == ExtendedLength(|f.payload|, form)
    requires s[2 + FormSize(form)..6 + FormSize(form)] == key
    requires s[6 + FormSize(form)..6 + FormSize(form) + |f.payload|] == Mask(f.payload, key)
    ensures ParseFrame(s) == Complete(f, form, 6 + FormSize(form) + |f.payload|)
  {
    EncodedForm(|f.payload|, form, s[1]);
    EncodedLength(|f.payload|, form, s);
    MaskTwice(f.payload, key);
  }

  // ---- The other end ----

  /** What a client makes of the first frame of the bytes that it has received from the server. */
  datatype FromServer =
    | Partial                          // more bytes are needed
    | Refused                          // a frame that a server must not send, section 5.1 of RFC 6455
    | Whole(frame: Frame, size: nat)   // the frame in the first `size` bytes

  function ParseServerFrame(s: seq<Byte>): (r: FromServer)
    ensures r.Whole? ==> 2 <= r.size <= |s|
  {
    if |s| < 2 then Partial
    else if MaskBit(s[1]) then Refused
    else
      var start := 2 + FormSize(FormOf(s[1]));
      if |s| < start || |s| < start + AnnouncedLength(s) then Partial
      else
        var end := start + AnnouncedLength(s);
        Whole(Frame(FinBit(s[0]), RsvBits(s[0]), OpcodeBits(s[0]), s[start..end]), end)
  }

  lemma ClearCode(code: Byte)
    requires code < 128
    ensures !MaskBit(code) && LengthBits(code) == code
  {
  }

  /** Where the pieces of a frame of the server stand in the stream. */
  lemma UnmaskedPieces(f: Frame, rest: seq<Byte>)
    requires f.Valid() && Fits(|f.payload|, ShortestForm(|f.payload|))
    ensures var e := EncodeUnmasked(f);
            var s := e + rest;
            var form := ShortestForm(|f.payload|);
            var start := 2 + FormSize(form);
            && |e| == start + |f.payload| && s[..|e|] == e
            && s[0] == FirstByte(f.fin, f.rsv, f.opcode) && s[1] == LengthCode(|f.payload|, form)
            && s[2..start] == ExtendedLength(|f.payload|, form) && s[start..start + |f.payload|] == f.payload
  {
  }

  lemma ShortestFits(length: nat)
    requires length < Power256(8)
    ensures Fits(length, ShortestForm(length))
  {
  }

  /** What the server writes of a frame a client reads as that frame, whatever follows; its length takes least room. */
  lemma ServerFrameIsRead(f: Frame, rest: seq<Byte>)
    requires f.Valid()
    ensures Fits(|f.payload|, ShortestForm(|f.payload|))
    ensures ParseServerFrame(EncodeUnmasked(f) + rest) == Whole(f, |EncodeUnmasked(f)|)
    ensures var n := |f.payload|;
            |EncodeUnmasked(f)| == n + if n <= 125 then 2 else if n <= 65535 then 4 else 10
  {
    ShortestFits(|f.payload|);
    var s, form := EncodeUnmasked(f) + rest, ShortestForm(|f.payload|);
    UnmaskedPieces(f, rest);
    FirstByteFields(f.fin, f.rsv, f.opcode);
    ClearCode(LengthCode(|f.payload|, form));
    EncodedForm(|f.payload|, form, s[1]);
    EncodedLength(|f.payload|, form, s);
  }

  lemma SliceOfPart(s: seq<Byte>, n: nat, start: nat, end: nat)
    requires start <= end <= n <= |s|
    ensures s[..n][start..end] == s[start..end]
  {
  }

  /** Of part of such a frame a client reads nothing yet. */
  lemma PartOfServerFrame(f: Frame, n: nat)
    requires f.Valid() && Fits(|f.payload|, ShortestForm(|f.payload|)) && n < |EncodeUnmasked(f)|
    ensures ParseServerFrame(EncodeUnmasked(f)[..n]).Partial?
  {
    var e, form := EncodeUnmasked(f), ShortestForm(|f.payload|);
    var start := 2 + FormSize(form);
    UnmaskedPieces(f, []);
    assert e + [] == e;
    ClearCode(LengthCode(|f.payload|, form));
    if n >= 2 {
      EncodedForm(|f.payload|, form, e[1]);
      if n >= start {
        SliceOfPart(e, n, 2, start);
        EncodedLength(|f.payload|, form, e[..n]);
      }
    }
  }

  /** Of an opcode only the four lowest bits are written. */
  lemma LowOpcodeBits(fin: bool, opcode: Byte)
    ensures FirstByte(fin, 0, opcode) == FirstByte(fin, 0, opcode & 0xf) && opcode & 0xf < 16
  {
  }

  /** A message, whatever its opcode, is read with its `fin` flag, the low bits of its opcode and its payload. */
  lemma MessageFrameIsRead(fin: bool, opcode: Byte, payload: seq<Byte>, rest: seq<Byte>)
    requires |payload| < Power256(8)
    ensures Fits(|payload|, ShortestForm(|payload|))
    ensures var e := EncodeUnmasked(Frame(fin, 0, opcode, payload));
            ParseServerFrame(e + rest) == Whole(Frame(fin, 0, opcode & 0xf, payload), |e|)
            && forall n: nat :: n < |e| ==> ParseServerFrame(e[..n]).Partial?
  {
    ShortestFits(|payload|);
    LowOpcodeBits(fin, opcode);
    var f := Frame(fin, 0, opcode & 0xf, payload);
    var e := EncodeUnmasked(Frame(fin, 0, opcode, payload));
    assert EncodeUnmasked(f) == e;
    ServerFrameIsRead(f, rest);
    forall n: nat | n < |e| ensures ParseServerFrame(e[..n]).Partial? {
      PartOfServerFrame(f, n);
    }
  }

  /** The examples of section 5.7 of RFC 6455. */
  lemma SpecifiedExamples(key: seq<Byte>)
    requires key == [0x37, 0xfa, 0x21, 0x3d]
    ensures EncodeUnmasked(Frame(true, 0, TEXT, [0x48, 0x65, 0x6c, 0x6c, 0x6f]))
            == [0x81, 0x05, 0x48, 0x65, 0x6c, 0x6c, 0x6f]
    ensures EncodeUnmasked(Frame(false, 0, TEXT, [0x48, 0x65, 0x6c])) == [0x01, 0x03, 0x48, 0x65, 0x6c]
    ensures EncodeUnmasked(Frame(true, 0, CONTINUATION, [0x6c, 0x6f])) == [0x80, 0x02, 0x6c, 0x6f]
    ensures EncodeMasked(Frame(true, 0, TEXT, [0x48, 0x65, 0x6c, 0x6c, 0x6f]), In7Bits, key)
            == [0x81, 0x85] + key + [0x7f, 0x9f, 0x4d, 0x51, 0x58]
  {
    ExampleBytes();
  }

  /** Those with 256 bytes and with 64 KiB of payload. */
  lemma LongExamples(payload: seq<Byte>)
    ensures |payload| == 256 ==>
              EncodeUnmasked(Frame(true, 0, BINARY, payload)) == [0x82, 0x7e, 0x01, 0x00] + payload
    ensures |payload| == 65536 ==>
              Fits(|payload|, In64Bits)
              && EncodeUnmasked(Frame(true, 0, BINARY, payload)) == [0x82, 0x7f, 0, 0, 0, 0, 0, 1, 0, 0] + payload
  {
    ExampleBytes();
    Power256Of8();
    if |payload| == 256 {
      assert LengthCode(256, In16Bits) == 126;
    }
    if |payload| == 65536 {
      assert LengthCode(65536, In64Bits) == 127;
    }
  }

  lemma ExampleBytes()
    ensures LengthCode(5, In7Bits) == 5 && LengthCode(3, In7Bits) == 3 && LengthCode(2, In7Bits) == 2
    ensures BigEndian(256, 2) == [1, 0] && BigEndian(65536, 8) == [0, 0, 0, 0, 0, 1, 0, 0]
  {
    SameByte(LengthCode(5, In7Bits), 5);
    SameByte(LengthCode(3, In7Bits), 3);
    SameByte(LengthCode(2, In7Bits), 2);
    SameByte(LowByte(0), 0);
    SameByte(LowByte(1), 1);
    SameByte(LowByte(256), 0);
    SameByte(LowByte(65536), 0);
    BigEndianSteps();
  }

  lemma BigEndianSteps()
    ensures BigEndian(256, 2) == [LowByte(1), LowByte(256)]
    ensures BigEndian(65536, 8)
            == [LowByte(0), LowByte(0), LowByte(0), LowByte(0), LowByte(0), LowByte(1), LowByte(256), LowByte(65536)]
  {
    assert BigEndian(1, 1) == [LowByte(1)];
    assert BigEndian(0, 1) == [LowByte(0)];
    assert BigEndian(0, 2) == [LowByte(0), LowByte(0)];
    assert BigEndian(0, 3) == [LowByte(0), LowByte(0), LowByte(0)];
    assert BigEndian(0, 4) == [LowByte(0), LowByte(0), LowByte(0), LowByte(0)];
    assert BigEndian(0, 5) == [LowByte(0), LowByte(0), LowByte(0), LowByte(0), LowByte(0)];
    assert BigEndian(1, 6) == BigEndian(0, 5) + [LowByte(1)];
    assert BigEndian(256, 7) == BigEndian(1, 6) + [LowByte(256)];
    assert BigEndian(65536, 8) == BigEndian(256, 7) + [LowByte(65536)];
  }
}
