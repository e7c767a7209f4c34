/**
 The receiving side of a WebSocket client as a state machine on values: what one turn of
 `receivingThread` makes of the bytes it has read, and which callbacks it makes.
 */
module WebSocketDecoder {
  import opened ByteOrder
  import opened WebSocketFrames

  const BUFSIZE: nat := 32768

  /** A callback into the WebSocket, or an automatic answer put in the sending queue. */
  datatype Event =
    | TextMessage(payload: seq<Byte>)
    | BinaryMessage(payload: seq<Byte>)
    | CloseFrame(payload: seq<Byte>)
    | PingFrame(payload: seq<Byte>)
    | PongFrame(payload: seq<Byte>)
    | PongSent(payload: seq<Byte>)
    | CloseSent(payload: seq<Byte>)

  /** What the close and ping callbacks answer may depend on all that has happened so far. */
  type Reply = seq<Event> -> bool

  /** The reassembly of fragmented messages, the callbacks made, and whether `closeRecv` was reached. */
  datatype Assembly = Assembly(fragmented: bool, fragmentedOpcode: Byte, fragmentedPayload: seq<Byte>,
                               events: seq<Event>, closed: bool)
  {
    function Emit(e: Event): Assembly {
      this.(events := events + [e])
    }

    function Close(): Assembly {
      this.(closed := true)
    }
  }

  const IDLE: Assembly := Assembly(false, 0, [], [], false)

  predicate IsControl(opcode: Byte) {
    opcode == CLOSE || opcode == PING || opcode == PONG
  }

  function MessageEvent(opcode: Byte, payload: seq<Byte>): Event {
    if opcode == TEXT then TextMessage(payload) else BinaryMessage(payload)
  }

  function Deliver(a: Assembly, f: Frame, reply: Reply): Assembly {
    if IsControl(f.opcode) && (!f.fin || |f.payload| > 125) then a.Close()
    else if f.opcode == TEXT || f.opcode == BINARY then
      if a.fragmented then a.Close()
      else if !f.fin then a.(fragmented := true, fragmentedOpcode := f.opcode, fragmentedPayload := f.payload)
      else a.Emit(MessageEvent(f.opcode, f.payload))
    else if f.opcode == CONTINUATION then
      if !a.fragmented then a.Close()
      else
        var payload := a.fragmentedPayload + f.payload;
        if !f.fin then a.(fragmentedPayload := payload)
        else
          var done := if a.fragmentedOpcode == TEXT || a.fragmentedOpcode == BINARY
                      then a.Emit(MessageEvent(a.fragmentedOpcode, payload)) else a;
          done.(fragmented := false, fragmentedOpcode := 0, fragmentedPayload := [])
    else if f.opcode == CLOSE then
      var told := a.Emit(CloseFrame(f.payload));
      if reply(told.events) then told.Emit(CloseSent(f.payload)).Close() else told
    else if f.opcode == PING then
      var told := a.Emit(PingFrame(f.payload));
      if reply(told.events) then told.Emit(PongSent(f.payload)) else told
    else if f.opcode == PONG then a.Emit(PongFrame(f.payload))
    else a
  }

  datatype Phase = FIRSTBYTE | LENGTH | MASK | CONTENT

  /** The variables of `receivingThread`; `content` is the part of the message filled so far. */
  datatype Decoder = Decoder(step: Phase, readLength: nat, fin: bool, rsv: Byte, opcode: Byte,
                             msgMask: bool, msgLength: nat, msgKeys: seq<Byte>, content: seq<Byte>,
                             bufferRecv: seq<Byte>, assembly: Assembly)
  {
    predicate Sized() {
      |bufferRecv| == BUFSIZE && |msgKeys| == 4
    }

    predicate Valid() {
      && Sized()
      && (!assembly.closed ==>
            match step
            case FIRSTBYTE => readLength == 1 && msgLength == 0 && content == [] && !msgMask
            case LENGTH =>
              && content == []
              && ((msgLength == 0 && readLength == 1)
                  || (msgLength == 126 && readLength == 2 && msgMask)
                  || (msgLength == 127 && readLength == 8 && msgMask))
            case MASK => readLength == 4 && content == [] && msgMask
            case CONTENT => readLength + |content| == msgLength && msgMask && (readLength == 0 ==> msgLength == 0))
    }

    /** How many bytes the next turn of the loop reads. */
    function Wanted(): nat {
      if readLength > BUFSIZE then BUFSIZE else readLength
    }
  }

  function Start(bufferRecv: seq<Byte>): Decoder {
    Decoder(FIRSTBYTE, 1, false, 0, 0, false, 0, [0, 0, 0, 0], [], bufferRecv, IDLE)
  }

  /** The length bytes as the code reads them, straight from the start of the receive buffer. */
  function LengthRead(msgLength: nat, bufferRecv: seq<Byte>): nat
    requires |bufferRecv| == BUFSIZE
  {
    var short := if msgLength == 126 then HostToNet(Load(bufferRecv[..2]), 2) else msgLength;
    if short == 127 then
      NtohllReads(bufferRecv[..8]);
      Ntohll(Load(bufferRecv[..8]))
    else short
  }

  function TakeFirstByte(d: Decoder): Decoder
    requires d.Sized()
  {
    var b := d.bufferRecv[0];
    d.(fin := FinBit(b), rsv := RsvBits(b), opcode := OpcodeBits(b), step := LENGTH, readLength := 1)
  }

  function TakeLength(d: Decoder): Decoder
    requires d.Sized()
  {
    if d.msgLength == 0 then
      var b := d.bufferRecv[0];
      if !MaskBit(b) then d.(msgMask := false, assembly := d.assembly.Close())
      else
        var n := LengthBits(b) as nat;
        var masked := d.(msgMask := true, msgLength := n);
        if n == 0 then masked.(content := [], step := CONTENT, readLength := 0)
        else if n == 126 then masked.(readLength := 2)
        else if n == 127 then masked.(readLength := 8)
        else masked.(content := [], step := MASK, readLength := 4)
    else
      d.(msgLength := LengthRead(d.msgLength, d.bufferRecv), content := [], step := MASK, readLength := 4)
  }

  function TakeMask(d: Decoder): Decoder
    requires d.Sized()
  {
    d.(msgKeys := d.bufferRecv[..4], readLength := d.msgLength, step := CONTENT)
  }

  /** The next block of a message, unmasked where it stands in the message. */
  function UnmaskBlock(block: seq<Byte>, at: nat, key: seq<Byte>): (r: seq<Byte>)
    requires |key| == 4
    ensures |r| == |block|
  {
    seq(|block|, i requires 0 <= i < |block| => block[i] ^ key[(at + i) % 4])
  }

  function TakeContent(d: Decoder, block: seq<Byte>, reply: Reply): Decoder
    requires d.Sized()
  {
    var content := d.content + UnmaskBlock(block, |d.content|, d.msgKeys);
    if |content| != d.msgLength then d.(content := content)
    else
      var a := Deliver(d.assembly, Frame(d.fin, d.rsv, d.opcode, content), reply);
      if a.closed then d.(content := content, assembly := a)
      else Start(d.bufferRecv).(assembly := a)
  }

  /** The state in which the bytes just read stand at the start of the buffer. */
  function Read(d: Decoder, block: seq<Byte>): Decoder
    requires |block| <= |d.bufferRecv|
  {
    d.(bufferRecv := block + d.bufferRecv[|block|..],
       readLength := if d.readLength > BUFSIZE then d.readLength - BUFSIZE else d.readLength)
  }

  lemma TakeLengthIsValid(d: Decoder, block: seq<Byte>)
    requires d.Valid() && !d.assembly.closed && d.step == LENGTH && |block| == d.Wanted()
    ensures TakeLength(Read(d, block)).Valid()
  {
  }

  lemma TakeContentIsValid(d: Decoder, block: seq<Byte>, reply: Reply)
    requires d.Valid() && !d.assembly.closed && d.step == CONTENT && |block| == d.Wanted()
    ensures var r := TakeContent(Read(d, block), block, reply);
            r.Valid() && (d.Wanted() == 0 && !r.assembly.closed ==> r.Wanted() == 1)
  {
  }

  /** One turn of the loop, on as many bytes as it wants. */
  function Take(d: Decoder, block: seq<Byte>, reply: Reply): (r: Decoder)
    requires d.Valid() && !d.assembly.closed && |block| == d.Wanted()
    ensures r.Valid()
    ensures d.Wanted() == 0 && !r.assembly.closed ==> r.Wanted() == 1
  {
    var read := Read(d, block);
    match d.step
    case FIRSTBYTE => TakeFirstByte(read)
    case LENGTH =>
      TakeLengthIsValid(d, block);
      TakeLength(read)
    case MASK => TakeMask(read)
    case CONTENT =>
      TakeContentIsValid(d, block, reply);
      TakeContent(read, block, reply)
  }

  /** All turns of the loop that the bytes of `s` allow, and the bytes that are left for the next one. */
  function Run(d: Decoder, s: seq<Byte>, reply: Reply): (r: (Decoder, seq<Byte>))
    requires d.Valid()
    ensures r.0.Valid() && |r.1| <= |s|
    decreases |s|, if d.assembly.closed then 0 else if d.Wanted() == 0 then 2 else 1
  {
    if d.assembly.closed || |s| < d.Wanted() then (d, s)
    else Run(Take(d, s[..d.Wanted()], reply), s[d.Wanted()..], reply)
  }
}
