/**
 The read-ahead buffers of a server thread: lines and blocks are taken from what `recv` brought, and
 nothing that was read ahead for one request is lost for the next one.
 */
module ReceiveBuffer {
  import opened Basics
  import opened Sequences

  const HTTP_RECV_BUFFER_SIZE: nat := 8192

  /** The sockets as the thread sees them: what is still to come on each, and how `recv` will cut it. */
  class Sockets {
    var toCome: map<int, string>
    var cuts: seq<nat>  // the most that each further recv returns; zero for a failure; no limit once used up

    constructor (toCome: map<int, string>, cuts: seq<nat>)
      ensures this.toCome == toCome && this.cuts == cuts
    {
      this.toCome, this.cuts := toCome, cuts;
    }

    ghost function Coming(client: int): string
      reads this
    {
      if client in toCome then toCome[client] else ""
    }

    /** No recv fails before the end of its stream. */
    ghost predicate Reliable()
      reads this
    {
      forall i :: 0 <= i < |cuts| ==> cuts[i] > 0
    }

    /** Returns the next bytes of a stream, none when it has ended or recv fails. */
    method Recv(client: int, size: nat) returns (data: string)
      requires size > 0
      modifies this
      ensures data + Coming(client) == old(Coming(client)) && |data| <= size
      ensures forall c :: c != client ==> Coming(c) == old(Coming(c))
      ensures old(Reliable()) ==> Reliable() && (data == "" ==> Coming(client) == "")
    {
      var limit := if cuts == [] then size else if cuts[0] < size then cuts[0] else size;
      cuts := if cuts == [] then [] else cuts[1..];
      if client !in toCome {
        return "";
      }
      var stream := toCome[client];
      var n := if limit < |stream| then limit else |stream|;
      data := stream[..n];
      toCome := toCome[client := stream[n..]];
    }
  }

  // ---- What a call returns, as a function of the stream alone ----

  datatype Request = Line(nsize: nat) | Bytes(length: nat)

  /** How much of a stream a call takes: a line with its end, as far as it fits, or a number of bytes. */
  function Taken(stream: string, r: Request): (n: nat)
    ensures n <= |stream|
  {
    match r
    case Bytes(length) => Min(length, |stream|)
    case Line(nsize) =>
      if nsize == 0 then 0
      else
        var pos := IndexOf(stream, "\n");
        Min(nsize - 1, if pos >= 0 then pos + 1 else |stream|)
  }

  function Results(stream: string, requests: seq<Request>): seq<string>
    decreases |requests|
  {
    if requests == [] then []
    else
      var n := Taken(stream, requests[0]);
      [stream[..n]] + Results(stream[n..], requests[1..])
  }

  function Rest(stream: string, requests: seq<Request>): string
    decreases |requests|
  {
    if requests == [] then stream
    else Rest(stream[Taken(stream, requests[0])..], requests[1..])
  }

  /** No byte is lost, repeated or moved by any sequence of calls. */
  lemma {:induction false} ResultsAreTheStream(stream: string, requests: seq<Request>)
    ensures Concat(Results(stream, requests)) + Rest(stream, requests) == stream
    decreases |requests|
  {
    if requests != [] {
      var n := Taken(stream, requests[0]);
      ResultsAreTheStream(stream[n..], requests[1..]);
      assert Results(stream, requests)[1..] == Results(stream[n..], requests[1..]);
      assert stream == stream[..n] + stream[n..];
    }
  }

  /** A line has no line end but as its last byte, and it is cut short only by the size or the end of the stream. */
  lemma LineIsALine(stream: string, nsize: nat)
    requires nsize > 0
    ensures var line := stream[..Taken(stream, Line(nsize))];
            && |line| <= nsize - 1
            && (forall i :: 0 <= i < |line| - 1 ==> line[i] != '\n')
            && (line == "" || line[|line| - 1] != '\n' ==> |line| == nsize - 1 || line == stream)
  {
    var line := stream[..Taken(stream, Line(nsize))];
    forall i | 0 <= i < |line| - 1 ensures line[i] != '\n' {
      assert !OccursAt(stream, "\n", i);
      assert stream[i..i + 1] == [stream[i]];
    }
    var pos := IndexOf(stream, "\n");
    if pos >= 0 {
      assert OccursAt(stream, "\n", pos);
      assert stream[pos..pos + 1][0] == '\n';
    }
  }

  /** A block is as long as was asked for, or the stream is at its end; without room for a line nothing is taken. */
  lemma BlockIsWhole(stream: string, length: nat)
    ensures var n := Taken(stream, Bytes(length)); n == length || (n == |stream| && n < length)
    ensures Taken(stream, Line(0)) == 0
  {
  }

  // ---- The calls ----

  class Reader {
    var httpRecvBuffers: map<int, string>
    const sockets: Sockets

    constructor (sockets: Sockets)
      ensures this.sockets == sockets && httpRecvBuffers == map[]
    {
      this.sockets, httpRecvBuffers := sockets, map[];
    }

    ghost function Buffered(client: int): string
      reads this
    {
      if client in httpRecvBuffers then httpRecvBuffers[client] else ""
    }

    /** All that the client has sent and that no call has returned yet. */
    ghost function Pending(client: int): string
      reads this, sockets
    {
      Buffered(client) + sockets.Coming(client)
    }

    /** The streams of other clients are left alone, and a reliable socket stays so. */
    twostate predicate OthersKept(client: int)
      reads this, sockets
    {
      && (forall c :: c != client ==> Buffered(c) == old(Buffered(c)) && sockets.Coming(c) == old(sockets.Coming(c)))
      && (old(sockets.Reliable()) ==> sockets.Reliable())
    }

    /** Takes `count` bytes from the front of the buffer. */
    method TakeFront(client: int, count: nat) returns (front: string)
      requires client in httpRecvBuffers && count <= |httpRecvBuffers[client]|
      modifies `httpRecvBuffers
      ensures client in httpRecvBuffers && |front| == count && front + Buffered(client) == old(Buffered(client))
      ensures front + Pending(client) == old(Pending(client)) && OthersKept(client)
    {
      front := httpRecvBuffers[client][..count];
      httpRecvBuffers := httpRecvBuffers[client := httpRecvBuffers[client][count..]];
      Regroup(front, Buffered(client), sockets.Coming(client));
    }

    method OpenBuffer(client: int)
      modifies `httpRecvBuffers
      ensures client in httpRecvBuffers && Pending(client) == old(Pending(client)) && OthersKept(client)
      ensures Buffered(client) == old(Buffered(client))
    {
      if client !in httpRecvBuffers {
        httpRecvBuffers := httpRecvBuffers[client := ""];
      }
    }

    /** Drops a buffer that is empty. */
    method EraseBuffer(client: int)
      requires Buffered(client) == ""
      modifies `httpRecvBuffers
      ensures Pending(client) == old(Pending(client)) && OthersKept(client)
    {
      httpRecvBuffers := httpRecvBuffers - {client};
    }

    /** Reads ahead into the buffer; false when recv fails. */
    method Fill(client: int) returns (ok: bool)
      requires client in httpRecvBuffers
      modifies `httpRecvBuffers, sockets
      ensures client in httpRecvBuffers && Pending(client) == old(Pending(client)) && OthersKept(client)
      ensures ok ==> |sockets.Coming(client)| < |old(sockets.Coming(client))|
      ensures !ok ==> Buffered(client) == old(Buffered(client))
                      && (old(sockets.Reliable()) ==> sockets.Coming(client) == "")
    {
      var inbuf := httpRecvBuffers[client];
      var tmp := sockets.Recv(client, HTTP_RECV_BUFFER_SIZE);
      Regroup(inbuf, tmp, sockets.Coming(client));
      ok := tmp != "";
      if ok {
        httpRecvBuffers := httpRecvBuffers[client := inbuf + tmp];
      }
    }

    method RecvLine(client: int, nsize: nat) returns (bufLine: string)
      modifies `httpRecvBuffers, sockets
      ensures bufLine + Pending(client) == old(Pending(client)) && OthersKept(client)
      ensures nsize > 0 ==> |bufLine| < nsize
      ensures old(sockets.Reliable()) ==> |bufLine| == Taken(old(Pending(client)), Line(nsize))
    {
      if nsize == 0 {
        return "";
      }
      OpenBuffer(client);
      while true
        invariant client in httpRecvBuffers && Pending(client) == old(Pending(client)) && OthersKept(client)
        decreases |sockets.Coming(client)|
      {
        var taken;
        taken, bufLine := TakeLine(client, nsize);
        if taken {
          return;
        }
        var ok := Fill(client);
        if !ok {
          NothingAhead(Buffered(client), sockets.Coming(client));
          bufLine := TakeRemains(client, nsize);
          return;
        }
      }
    }

    /** Takes a line from the buffer, or as much as fits, if that much is there. */
    method TakeLine(client: int, nsize: nat) returns (taken: bool, bufLine: string)
      requires client in httpRecvBuffers && nsize > 0
      modifies `httpRecvBuffers
      ensures client in httpRecvBuffers && bufLine + Pending(client) == old(Pending(client)) && OthersKept(client)
      ensures taken ==> |bufLine| < nsize && |bufLine| == Taken(old(Pending(client)), Line(nsize))
      ensures !taken ==> bufLine == "" && httpRecvBuffers == old(httpRecvBuffers) && IndexOf(Buffered(client), "\n") < 0
    {
      var inbuf := httpRecvBuffers[client];
      var pos := IndexOf(inbuf, "\n");
      if pos >= 0 {
        WholeLine(inbuf, sockets.Coming(client), nsize);
        bufLine := TakeFront(client, Min(pos + 1, nsize - 1));
        return true, bufLine;
      }
      if |inbuf| >= nsize - 1 {
        LongLine(inbuf, sockets.Coming(client), nsize);
        bufLine := TakeFront(client, nsize - 1);
        return true, bufLine;
      }
      return false, "";
    }

    /** Nothing more comes: takes what is left in the buffer. */
    method TakeRemains(client: int, nsize: nat) returns (bufLine: string)
      requires client in httpRecvBuffers && nsize > 0 && IndexOf(Buffered(client), "\n") < 0
      modifies `httpRecvBuffers
      ensures bufLine + Pending(client) == old(Pending(client)) && OthersKept(client) && |bufLine| < nsize
      ensures |bufLine| == Taken(old(Buffered(client)), Line(nsize))
    {
      var inbuf := httpRecvBuffers[client];
      LastLine(inbuf, nsize);
      if inbuf != "" {
        bufLine := TakeFront(client, Min(|inbuf|, nsize - 1));
        return;
      }
      EraseBuffer(client);
      return "";
    }

    /** Reads from the socket past the buffer, which is empty. */
    method ReadOn(client: int, size: nat, buffer: string, ghost before: string) returns (more: string)
      requires size > 0 && Buffered(client) == "" && buffer + Pending(client) == before
      modifies sockets
      ensures |more| <= size && buffer + more + Pending(client) == before && OthersKept(client)
      ensures old(sockets.Reliable()) && more == "" ==> Pending(client) == ""
    {
      ghost var coming := sockets.Coming(client);
      more := sockets.Recv(client, size);
      MoreRead(buffer, more, coming, sockets.Coming(client), Buffered(client));
    }

    method RecvBytes(client: int, requestedLength: nat) returns (buffer: string)
      modifies `httpRecvBuffers, sockets
      ensures buffer + Pending(client) == old(Pending(client)) && OthersKept(client)
      ensures |buffer| <= requestedLength
      ensures old(sockets.Reliable()) ==> |buffer| == Taken(old(Pending(client)), Bytes(requestedLength))
    {
      if requestedLength == 0 {
        return "";
      }
      OpenBuffer(client);
      buffer := "";
      if httpRecvBuffers[client] != "" {
        buffer := TakeFront(client, Min(|httpRecvBuffers[client]|, requestedLength));
      }
      while |buffer| < requestedLength
        invariant |buffer| <= requestedLength && (|buffer| < requestedLength ==> Buffered(client) == "")
        invariant buffer + Pending(client) == old(Pending(client)) && OthersKept(client)
        decreases requestedLength - |buffer|
      {
        var data := ReadOn(client, requestedLength - |buffer|, buffer, old(Pending(client)));
        if data == "" {
          NothingMore(buffer, requestedLength);
          if buffer == "" {
            EraseBuffer(client);
          }
          return;
        }
        buffer := buffer + data;
      }
    }

    /** Any sequence of calls for one client returns what its stream alone determines. */
    method Serve(client: int, requests: seq<Request>) returns (results: seq<string>)
      modifies `httpRecvBuffers, sockets
      ensures |results| == |requests| && Concat(results) + Pending(client) == old(Pending(client))
      ensures old(sockets.Reliable()) ==>
                && results == Results(old(Pending(client)), requests)
                && Pending(client) == Rest(old(Pending(client)), requests)
    {
      results := [];
      for i := 0 to |requests|
        invariant |results| == i && Concat(results) + Pending(client) == old(Pending(client))
        invariant old(sockets.Reliable()) ==>
                    && sockets.Reliable()
                    && results + Results(Pending(client), requests[i..]) == Results(old(Pending(client)), requests)
                    && Rest(Pending(client), requests[i..]) == Rest(old(Pending(client)), requests)
      {
        var r;
        ghost var before := Pending(client);
        match requests[i] {
          case Line(nsize) => r := RecvLine(client, nsize);
          case Bytes(length) => r := RecvBytes(client, length);
        }
        OneResult(results, r, Pending(client), before, requests[i..]);
        results := results + [r];
      }
    }
  }

  lemma MoreRead(buffer: string, more: string, coming: string, after: string, buffered: string)
    requires buffered == "" && more + after == coming
    ensures buffer + more + (buffered + after) == buffer + (buffered + coming)
    ensures after == "" ==> buffered + after == ""
  {
  }

  lemma NothingAhead(buffered: string, coming: string)
    ensures coming == "" ==> buffered + coming == buffered
  {
  }

  lemma NothingMore(buffer: string, length: nat)
    requires |buffer| <= length
    ensures buffer + "" == buffer && Taken(buffer, Bytes(length)) == |buffer|
  {
  }

  lemma WholeLine(inbuf: string, coming: string, nsize: nat)
    requires nsize > 0 && IndexOf(inbuf, "\n") >= 0
    ensures Taken(inbuf + coming, Line(nsize)) == Min(IndexOf(inbuf, "\n") + 1, nsize - 1)
  {
    FoundStaysFound(inbuf, coming, "\n");
  }

  lemma LongLine(inbuf: string, coming: string, nsize: nat)
    requires nsize > 0 && IndexOf(inbuf, "\n") < 0 && |inbuf| >= nsize - 1
    ensures Taken(inbuf + coming, Line(nsize)) == nsize - 1
  {
    FoundLater(inbuf, coming, "\n");
  }

  lemma LastLine(inbuf: string, nsize: nat)
    requires nsize > 0 && IndexOf(inbuf, "\n") < 0
    ensures Taken(inbuf, Line(nsize)) == Min(|inbuf|, nsize - 1) && inbuf + "" == inbuf
  {
  }

  lemma OneResult(results: seq<string>, r: string, after: string, before: string, requests: seq<Request>)
    requires requests != [] && r + after == before
    ensures Concat(results + [r]) + after == Concat(results) + before
    ensures |r| == Taken(before, requests[0]) ==>
              && (results + [r]) + Results(after, requests[1..]) == results + Results(before, requests)
              && Rest(after, requests[1..]) == Rest(before, requests)
  {
    ConcatOne(results, r, after);
    if |r| == Taken(before, requests[0]) {
      FirstResult(r, after, requests);
      MoveFirst(results, r, Results(after, requests[1..]));
    }
  }

  lemma ConcatOne(results: seq<string>, r: string, after: string)
    ensures Concat(results + [r]) + after == Concat(results) + (r + after)
  {
    ConcatAppend(results, [r]);
    assert Concat([r]) == r;
    Regroup(Concat(results), r, after);
  }

  lemma FirstResult(r: string, after: string, requests: seq<Request>)
    requires requests != [] && |r| == Taken(r + after, requests[0])
    ensures Results(r + after, requests) == [r] + Results(after, requests[1..])
    ensures Rest(r + after, requests) == Rest(after, requests[1..])
  {
    assert (r + after)[..|r|] == r && (r + after)[|r|..] == after;
  }
}
