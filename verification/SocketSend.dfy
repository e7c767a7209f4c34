/** Writing to a socket that takes what it wants: `httpSend`, and `sendMessage` on top of it. */
module SocketSend {
  import opened ByteOrder
  import opened WebSocketFrames

  datatype Errno = TryAgain | Interrupted | OtherError

  /** The outcome of one write: a count, or a negative result with its errno; and of the wait that may follow. */
  datatype Attempt = Attempt(result: int, errno: Errno, writable: bool)

  /** What becomes of a buffer: how much of it goes out, whether that is reported as all, and the attempts left. */
  datatype Outcome = Outcome(count: nat, ok: bool, rest: seq<Attempt>)

  /** How many of `n` bytes an attempt takes. */
  function Takes(a: Attempt, n: nat): (k: nat)
    ensures k <= n
  {
    if a.result <= 0 then 0 else if a.result > n then n else a.result
  }

  /**
   Sending `n` bytes: attempts are made until all bytes are taken or one fails for good. A full buffer is
   waited for and tried once more; an interrupted write is a failure, although the code says `continue`.
   */
  function SendAll(s: seq<Attempt>, n: nat, useSSL: bool): (r: Outcome)
    ensures r.count <= n && (r.ok ==> r.count == n) && (!r.ok ==> r.count < n || n == 0)
    decreases |s|, 0
  {
    if s == [] then Outcome(0, false, [])
    else if s[0].result >= 0 then GoOn(s[1..], Takes(s[0], n), n, useSSL)
    else if s[0].errno != TryAgain || (!useSSL && !s[0].writable) || |s| == 1 then
      Outcome(0, n == 0 && s[0].errno == Interrupted, s[1..])
    else if s[1].result < 0 then Outcome(0, false, s[2..])
    else GoOn(s[2..], Takes(s[1], n), n, useSSL)
  }

  function GoOn(s: seq<Attempt>, k: nat, n: nat, useSSL: bool): (r: Outcome)
    requires k <= n
    ensures r.count <= n && (r.ok ==> r.count == n) && (!r.ok ==> r.count < n || n == 0)
    decreases |s|, 1
  {
    if k == n then Outcome(n, true, s)
    else
      var r := SendAll(s, n - k, useSSL);
      Outcome(k + r.count, r.ok, r.rest)
  }

  /** The write fails for good: with an error, or when the socket does not become writable, or fails again. */
  predicate EndsSending(s: seq<Attempt>, useSSL: bool)
    requires s != []
  {
    s[0].result < 0 && (s[0].errno != TryAgain || (!useSSL && !s[0].writable) || |s| == 1 || s[1].result < 0)
  }

  /** How many bytes a socket offers to take before a write fails for good. */
  function Flow(s: seq<Attempt>, useSSL: bool): nat {
    if s == [] || EndsSending(s, useSSL) then 0
    else if s[0].result >= 0 then s[0].result + Flow(s[1..], useSSL)
    else s[1].result + Flow(s[2..], useSSL)
  }

  /** Everything is sent exactly when the socket offers to take as much before a write fails for good. */
  lemma {:induction false} SendsAllExactlyWhen(s: seq<Attempt>, n: nat, useSSL: bool)
    ensures n > 0 ==> (SendAll(s, n, useSSL).ok <==> Flow(s, useSSL) >= n)
    ensures n == 0 ==> (SendAll(s, n, useSSL).ok <==> s != [] && (!EndsSending(s, useSSL) || s[0].errno == Interrupted))
    decreases |s|
  {
    if s != [] && !EndsSending(s, useSSL) {
      var taken := if s[0].result >= 0 then 1 else 2;
      var k := Takes(s[taken - 1], n);
      if k < n {
        SendsAllExactlyWhen(s[taken..], n - k, useSSL);
      }
    }
  }

  /** An interrupted write is the last one, although all would be sent if the loop went on. */
  lemma InterruptedGivesUp(rest: seq<Attempt>, n: nat, useSSL: bool, writable: bool)
    requires n > 0
    ensures var s := [Attempt(-1, Interrupted, writable)] + rest;
            && SendAll(s, n, useSSL) == Outcome(0, false, rest)
            && (SendAll(rest, n, useSSL).ok <==> Flow(rest, useSSL) >= n)
  {
    var s := [Attempt(-1, Interrupted, writable)] + rest;
    assert s[1..] == rest;
    SendsAllExactlyWhen(rest, n, useSSL);
  }

  /**
   What one write decides while bytes are left: what it takes is gone, nothing at all is taken and it goes on, a full
   buffer that becomes writable again (TLS does not wait) is as if there had been the second write only, and all else
   ends it.
   */
  lemma EachAttempt(a: Attempt, rest: seq<Attempt>, n: nat, useSSL: bool)
    requires n > 0
    ensures var r := SendAll([a] + rest, n, useSSL);
            if a.result >= n then r == Outcome(n, true, rest)
            else if a.result >= 0 then
              var more := SendAll(rest, n - a.result, useSSL);
              r == Outcome(a.result + more.count, more.ok, more.rest)
            else if a.errno == TryAgain && (useSSL || a.writable) && rest != [] then
              if rest[0].result >= 0 then r == SendAll(rest, n, useSSL) else r == Outcome(0, false, rest[1..])
            else r == Outcome(0, false, rest)
  {
    var s := [a] + rest;
    assert s[1..] == rest;
    if rest != [] {
      assert s[2..] == rest[1..] && s[1] == rest[0];
    }
  }

  class Connection {
    var socketId: int
    var useSSL: bool
    var wire: seq<Byte>          // what the peer will be handed
    var schedule: seq<Attempt>   // how the socket behaves; once used up, every write fails

    constructor (socketId: int, useSSL: bool, schedule: seq<Attempt>)
      ensures this.socketId == socketId && this.useSSL == useSSL && wire == [] && this.schedule == schedule
    {
      this.socketId, this.useSSL, wire, this.schedule := socketId, useSSL, [], schedule;
    }

    /** `BIO_write` or `send`: takes a prefix of what it is given. */
    method Write(data: seq<Byte>) returns (a: Attempt)
      modifies `wire, `schedule
      ensures a.result <= |data|
      ensures wire == old(wire) + (if a.result > 0 then data[..a.result] else [])
      ensures old(schedule) == [] ==> schedule == [] && a.result < 0 && a.errno == OtherError
      ensures old(schedule) != [] ==>
                && schedule == old(schedule)[1..]
                && a.errno == old(schedule)[0].errno && a.writable == old(schedule)[0].writable
                && a.result == (if old(schedule)[0].result > |data| then |data| else old(schedule)[0].result)
    {
      if schedule == [] {
        return Attempt(-1, OtherError, false);
      }
      a := schedule[0];
      schedule := schedule[1..];
      if a.result > |data| {
        a := a.(result := |data|);
      }
      if a.result > 0 {
        wire := wire + data[..a.result];
      }
    }

    /** A second write after `EAGAIN`, once the socket is found writable again; negative when it fails. */
    method Retry(data: seq<Byte>, first: Attempt) returns (sent: int)
      modifies `wire, `schedule
      ensures sent <= |data|
      ensures wire == old(wire) + (if sent > 0 then data[..sent] else [])
      ensures !useSSL && !first.writable ==> sent < 0 && schedule == old(schedule)
      ensures useSSL || first.writable ==>
                if old(schedule) == [] then schedule == [] && sent < 0
                else schedule == old(schedule)[1..]
                     && sent == if old(schedule)[0].result > |data| then |data| else old(schedule)[0].result
    {
      if !useSSL && !first.writable {
        return -1;
      }
      var second := Write(data);
      sent := second.result;
    }

    /** Sends `buf`; `count` is how much of it went out, whatever the result. */
    method HttpSend(buf: seq<Byte>) returns (ok: bool, ghost count: nat)
      modifies `wire, `schedule
      ensures count <= |buf| && wire == old(wire) + buf[..count]
      ensures ok ==> count == |buf|
      ensures !ok ==> count < |buf| || buf == []
      ensures socketId == 0 ==> !ok && count == 0 && schedule == old(schedule)
      ensures socketId != 0 ==> Outcome(count, ok, schedule) == SendAll(old(schedule), |buf|, useSSL)
      ensures buf != [] ==> (ok <==> socketId != 0 && Flow(old(schedule), useSSL) >= |buf|)
    {
      SendsAllExactlyWhen(schedule, |buf|, useSSL);
      if socketId == 0 {
        count := 0;
        return false, 0;
      }
      var totalSent := 0;
      var again := true;
      var ended := false;
      while again
        invariant 0 <= totalSent <= |buf| && wire == old(wire) + buf[..totalSent]
        invariant SentSoFar(old(schedule), |buf|, useSSL, totalSent, schedule, again, ended)
        decreases again, |schedule|
      {
        var sent;
        sent, ended := SendSome(buf[totalSent..]);
        PrefixGrows(old(wire), buf, totalSent, if sent > 0 then sent else 0);
        if sent > 0 {
          totalSent := totalSent + sent;
        }
        again := sent >= 0 && totalSent != |buf|;
        if ended {
          return false, totalSent;
        }
      }
      return totalSent == |buf|, totalSent;
    }

    /** One turn of the loop: what was sent, and whether the function returns at once. */
    method SendSome(rest: seq<Byte>) returns (sent: int, ended: bool)
      modifies `wire, `schedule
      ensures sent <= |rest| && wire == old(wire) + (if sent > 0 then rest[..sent] else [])
      ensures ended ==> sent < 0
      ensures SomeSent(old(schedule), |rest|, useSSL, sent, ended, schedule)
    {
      var attempt := Write(rest);
      sent, ended := attempt.result, false;
      if sent <= 0 {
        if sent < 0 {
          if attempt.errno == TryAgain {
            sent := Retry(rest, attempt);
            ended := sent < 0;
          } else if attempt.errno != Interrupted {
            ended := true;
          }
        }
      }
    }

    /** The socket is open and will take a header and a payload of this length. */
    predicate Takes(length: nat)
      reads this
    {
      socketId != 0 && var first := SendAll(schedule, HeaderSize(length), useSSL);
                       first.ok && SendAll(first.rest, length, useSSL).ok
    }

    /** Writes a header into a ten-byte buffer and sends it, then the payload. */
    method SendMessage(fin: bool, opcode: Byte, payload: seq<Byte>) returns (ok: bool, ghost count: nat)
      requires |payload| < Power256(8)
      modifies `wire, `schedule
      ensures var bytes := EncodeUnmasked(Frame(fin, 0, opcode, payload));
              && count <= |bytes| && wire == old(wire) + bytes[..count]
              && (ok ==> count == |bytes|)
              && (!ok ==> count < |bytes| || payload == [])
      ensures ok <==> old(Takes(|payload|))
    {
      var header := HeaderOf(fin, opcode, |payload|);
      assert EncodeUnmasked(Frame(fin, 0, opcode, payload)) == header + payload;
      ghost var n;
      ok, n := HttpSend(header);
      count := n;
      TwoPieces(old(wire), header, payload, n);
      if ok {
        ok, n := HttpSend(payload);
        count := |header| + n;
        TwoPieces(old(wire), header, payload, count);
      }
    }

    static method HeaderOf(fin: bool, opcode: Byte, length: nat) returns (header: seq<Byte>)
      requires length < Power256(8)
      ensures Fits(length, ShortestForm(length))
      ensures header == [FirstByte(fin, 0, opcode), LengthCode(length, ShortestForm(length))]
                        + ExtendedLength(length, ShortestForm(length))
    {
      Power256Of8();
      var headerBuffer := new Byte[10];
      var headerLen := 2;
      NoReservedBits(fin, opcode);
      headerBuffer[0] := (if fin then 0x80 else 0x00) | (opcode & 0x0f);
      if length < 126 {
        headerBuffer[1] := LowByte(length);
      } else if length <= 0xFFFF {
        headerBuffer[1] := 126;
        StoreLoaded(BigEndian(length, 2));
        Store(headerBuffer, 2, Memory(HostToNet(length, 2), 2));
        headerLen := headerLen + 2;
      } else {
        headerBuffer[1] := 127;
        HtonllIsBigEndian(length);
        Store(headerBuffer, 2, Memory(Htonll(length), 8));
        headerLen := headerLen + 8;
      }
      header := headerBuffer[..headerLen];
      assert header == [headerBuffer[0], headerBuffer[1]] + headerBuffer[2..headerLen];
    }

    static method Store(buffer: array<Byte>, at: nat, bytes: seq<Byte>)
      requires at + |bytes| <= buffer.Length
      modifies buffer
      ensures buffer[..at] == old(buffer[..at]) && buffer[at..at + |bytes|] == bytes
    {
      for i := 0 to |bytes|
        invariant buffer[..at] == old(buffer[..at])
        invariant forall j :: 0 <= j < i ==> buffer[at + j] == bytes[j]
      {
        buffer[at + i] := bytes[i];
      }
    }
  }

  /** `headerLen`. */
  function HeaderSize(length: nat): nat {
    if length < 126 then 2 else if length <= 0xFFFF then 4 else 10
  }

  /** A turn of the loop is the beginning of sending everything. */
  predicate SomeSent(before: seq<Attempt>, n: nat, useSSL: bool, sent: int, ended: bool, after: seq<Attempt>) {
    if sent >= 0 then sent <= n && |after| < |before| && SendAll(before, n, useSSL) == GoOn(after, sent, n, useSSL)
    else |after| <= |before| && SendAll(before, n, useSSL) == Outcome(0, n == 0 && !ended, after)
  }

  /** After some turns, what is left to do is what is left of sending everything. */
  predicate SentSoFar(before: seq<Attempt>, n: nat, useSSL: bool, total: nat, after: seq<Attempt>, again: bool,
                      ended: bool) {
    if total > n then false
    else if again then
      !ended && (total < n || total == 0)
      && var r := SendAll(after, n - total, useSSL);
         SendAll(before, n, useSSL) == Outcome(total + r.count, r.ok, r.rest)
    else SendAll(before, n, useSSL) == Outcome(total, total == n && !ended, after)
  }

  lemma PrefixGrows(wire: seq<Byte>, buf: seq<Byte>, k: nat, more: nat)
    requires k + more <= |buf|
    ensures wire + buf[..k] + buf[k..][..more] == wire + buf[..k + more]
    ensures wire + buf[..k] + [] == wire + buf[..k]
  {
    assert buf[..k] + buf[k..][..more] == buf[..k + more];
  }

  lemma NoReservedBits(fin: bool, opcode: Byte)
    ensures FirstByte(fin, 0, opcode) == (if fin then 0x80 else 0x00) | (opcode & 0x0f)
  {
  }

  lemma TwoPieces(wire: seq<Byte>, header: seq<Byte>, payload: seq<Byte>, count: nat)
    requires count <= |header| + |payload|
    ensures wire + (header + payload)[..count] ==
            if count <= |header| then wire + header[..count]
            else wire + header[..|header|] + payload[..count - |header|]
    ensures wire + header[..|header|] + payload[..0] == wire + header[..|header|]
  {
  }
}
