/** The list of clients of a `WebSocket` as it is kept: pushed, searched, erased, swapped and walked through. */
module WebSocketList {
  import opened Basics
  import opened ByteOrder
  import opened SendingQueue
  import opened WebSocketSender
  import System = WebSocketSystem
  import Owners = WebSocketOwners
  import Invariant = WebSocketInvariant

  type ClientId = System.ClientId

  class WebSocket {
    var webSocketClientList: seq<ClientId>
    var requests: map<ClientId, nat>  // getHttpRequest()
    const clients: map<ClientId, WebSocketClient>

    ghost predicate Listed()
      reads this
    {
      Invariant.NoDuplicates(webSocketClientList) && forall c :: c in webSocketClientList ==> c in requests
    }

    constructor (clients: map<ClientId, WebSocketClient>)
      ensures Listed() && webSocketClientList == [] && this.clients == clients
    {
      webSocketClientList, requests, this.clients := [], map[], clients;
    }

    /** `newConnectionRequest`, where `onOpening` has accepted the request. */
    method PushClient(c: ClientId, request: nat)
      requires Listed() && c !in webSocketClientList
      modifies this
      ensures Listed() && webSocketClientList == old(webSocketClientList) + [c]
      ensures requests == old(requests)[c := request]
    {
      webSocketClientList := webSocketClientList + [c];
      requests := requests[c := request];
    }

    /** `std::find`: the first position of a client, or the end. */
    method Find(c: ClientId) returns (it: nat)
      ensures it <= |webSocketClientList| && (it < |webSocketClientList| ==> webSocketClientList[it] == c)
      ensures c !in webSocketClientList[..it]
    {
      it := 0;
      while it < |webSocketClientList| && webSocketClientList[it] != c
        invariant it <= |webSocketClientList| && c !in webSocketClientList[..it]
      {
        it := it + 1;
      }
    }

    /** `removeClient` of a client. */
    method RemoveClient(c: ClientId)
      requires Listed()
      modifies `webSocketClientList
      ensures Listed() && webSocketClientList == System.Minus(old(webSocketClientList), c)
      ensures c !in webSocketClientList
      ensures forall x :: x != c ==> (x in webSocketClientList <==> x in old(webSocketClientList))
    {
      var it := Find(c);
      Owners.MinusKeeps(webSocketClientList, c);
      MinusAt(webSocketClientList, c, it);
      if it != |webSocketClientList| {
        webSocketClientList := webSocketClientList[..it] + webSocketClientList[it + 1..];
      }
    }

    /** `removeClient` of the client of a request: detaches the first one that has it. */
    method DetachByRequest(request: nat) returns (clientToClose: Option<ClientId>)
      requires Listed()
      modifies `webSocketClientList
      ensures Listed()
      ensures clientToClose.None? ==>
                && webSocketClientList == old(webSocketClientList)
                && forall c :: c in webSocketClientList ==> requests[c] != request
      ensures clientToClose.Some? ==>
                && IsFirstOf(old(webSocketClientList), requests, clientToClose.value, request)
                && webSocketClientList == System.Minus(old(webSocketClientList), clientToClose.value)
    {
      for i := 0 to |webSocketClientList|
        invariant webSocketClientList == old(webSocketClientList)
        invariant forall j :: 0 <= j < i ==> requests[webSocketClientList[j]] != request
      {
        var c := webSocketClientList[i];
        if requests[c] == request {
          Owners.MinusKeeps(webSocketClientList, c);
          MinusAt(webSocketClientList, c, i);
          webSocketClientList := webSocketClientList[..i] + webSocketClientList[i + 1..];
          return Some(c);
        }
      }
      return None;
    }

    /** The part of `removeAllClients` under the mutex. */
    method DetachAll() returns (clientsToClose: seq<ClientId>)
      requires Listed()
      modifies `webSocketClientList
      ensures Listed() && webSocketClientList == [] && clientsToClose == old(webSocketClientList)
    {
      clientsToClose, webSocketClientList := webSocketClientList, [];
    }

    ghost function Queues(): set<Queue>
    {
      set c | c in clients :: clients[c].queue
    }

    /** No two clients share what a broadcast changes. */
    ghost predicate Separate() {
      forall c, d :: c in clients && d in clients && c != d ==>
        clients[c] != clients[d] && clients[c].queue != clients[d].queue
    }

    /** Nothing is known about what the sending threads are doing: they may be writing, or have failed. */
    ghost predicate AllNumbered()
      reads this, clients.Values, Queues()
    {
      forall c :: c in webSocketClientList ==> c in clients && clients[c].Numbered()
    }

    /** What a broadcast may change, client by client. */
    ghost function States(): map<ClientId, ClientState>
      reads clients.Values, Queues()
    {
      map c | c in clients :: ClientState(clients[c].queue.box, clients[c].nextMessage, clients[c].closing)
    }

    /** The turn of one client in a broadcast. */
    method SendTo(c: ClientId, content: Content)
      requires Separate() && AllNumbered() && c in webSocketClientList && |content.payload| < Power256(8)
      modifies clients[c], clients[c].queue
      ensures AllNumbered() && c in old(States()) && States() == old(States())[c := old(States())[c].Offered(content)]
    {
      OfferTo(c, content);
      assert States() == old(States())[c := old(States())[c].Offered(content)];
    }

    method OfferTo(c: ClientId, content: Content)
      requires Separate() && AllNumbered() && c in webSocketClientList && |content.payload| < Power256(8)
      modifies clients[c], clients[c].queue
      ensures AllNumbered()
      ensures ClientState(clients[c].queue.box, clients[c].nextMessage, clients[c].closing)
              == old(ClientState(clients[c].queue.box, clients[c].nextMessage, clients[c].closing)).Offered(content)
    {
      clients[c].AddContent(content);
      forall d | d in webSocketClientList && d != c ensures clients[d].Numbered() {
        assert old(clients[d].Numbered());
      }
    }

    /** `sendBroadcast...`: every client in the list is offered the message once, and no other one. */
    method SendBroadcast(content: Content)
      requires Listed() && Separate() && AllNumbered() && |content.payload| < Power256(8)
      modifies clients.Values, Queues()
      ensures AllNumbered() && States().Keys == old(States()).Keys
      ensures forall c :: c in States() ==>
                States()[c] == if c in webSocketClientList then old(States())[c].Offered(content) else old(States())[c]
      ensures forall c :: c in webSocketClientList ==>
                IsOffered(old(States())[c], States()[c], content)
    {
      ghost var before := States();
      SendToAll(content);
      OfferedOnce(before, webSocketClientList, content);
      forall c | c in webSocketClientList ensures IsOffered(before[c], States()[c], content) {
        OfferedIsQueued(before[c], content);
      }
    }

    /** The loop over the list. */
    method SendToAll(content: Content)
      requires Separate() && AllNumbered() && |content.payload| < Power256(8)
      modifies clients.Values, Queues()
      ensures AllNumbered() && States() == OfferedTo(old(States()), webSocketClientList, content)
    {
      NoneOffered(States(), webSocketClientList, content);
      for i := 0 to |webSocketClientList|
        invariant AllNumbered() && SomeOffered(old(States()), webSocketClientList, i, content, States())
      {
        ghost var before := States();
        SendTo(webSocketClientList[i], content);
        OneMoreOffered(old(States()), webSocketClientList, i, content, before);
      }
      AllOffered(old(States()), webSocketClientList, content, States());
    }
  }

  /** The client has the request, and those before it in the list have not. */
  predicate IsFirstOf(list: seq<ClientId>, requests: map<ClientId, nat>, c: ClientId, request: nat) {
    exists i :: 0 <= i < |list| && list[i] == c && HasRequest(requests, c, request)
                && forall j :: 0 <= j < i ==> !HasRequest(requests, list[j], request)
  }

  predicate HasRequest(requests: map<ClientId, nat>, c: ClientId, request: nat) {
    c in requests && requests[c] == request
  }

  datatype ClientState = ClientState(box: Outbox, nextMessage: nat, closing: bool)
  {
    function Offered(content: Content): ClientState {
      var m := Msg(nextMessage, content.fin, content.opcode, content.payload);
      ClientState(Offer(box, m, closing), nextMessage + 1, closing)
    }
  }

  /** A new message with the content stands last in the queue of an open client; for a closing one it was freed. */
  predicate IsOffered(before: ClientState, now: ClientState, content: Content) {
    && now.closing == before.closing && now.box.flight == before.box.flight && now.box.wire == before.box.wire
    && |now.box.offered| == |before.box.offered| + 1
    && var m := now.box.offered[|before.box.offered|];
       && m.fin == content.fin && m.opcode == content.opcode && m.payload == content.payload
       && now.box.queue == (if now.closing then before.box.queue else before.box.queue + [m])
       && now.box.freed == (if now.closing then before.box.freed + [m] else before.box.freed)
  }

  lemma OfferedIsQueued(before: ClientState, content: Content)
    ensures IsOffered(before, before.Offered(content), content)
  {
  }

  /** The states after the clients were offered a message one after the other. */
  function OfferedTo(states: map<ClientId, ClientState>, list: seq<ClientId>, content: Content)
    : map<ClientId, ClientState>
  {
    if list == [] then states
    else
      var before := OfferedTo(states, list[..|list| - 1], content);
      var c := list[|list| - 1];
      if c in before then before[c := before[c].Offered(content)] else before
  }

  /** The first `i` clients of the list have had their turn. */
  predicate SomeOffered(states: map<ClientId, ClientState>, list: seq<ClientId>, i: nat, content: Content,
                        now: map<ClientId, ClientState>) {
    if i > |list| then false else now == OfferedTo(states, list[..i], content)
  }

  lemma NoneOffered(states: map<ClientId, ClientState>, list: seq<ClientId>, content: Content)
    ensures SomeOffered(states, list, 0, content, states)
  {
  }

  lemma OneMoreOffered(states: map<ClientId, ClientState>, list: seq<ClientId>, i: nat, content: Content,
                       now: map<ClientId, ClientState>)
    requires i < |list| && SomeOffered(states, list, i, content, now) && list[i] in now
    ensures SomeOffered(states, list, i + 1, content, now[list[i] := now[list[i]].Offered(content)])
  {
    assert list[..i + 1][..i] == list[..i];
  }

  lemma AllOffered(states: map<ClientId, ClientState>, list: seq<ClientId>, content: Content,
                   now: map<ClientId, ClientState>)
    requires SomeOffered(states, list, |list|, content, now)
    ensures now == OfferedTo(states, list, content)
  {
    assert list[..|list|] == list;
  }

  /** In a list without duplicates each client is offered the message once. */
  lemma {:induction false} OfferedOnce(states: map<ClientId, ClientState>, list: seq<ClientId>, content: Content)
    requires Invariant.NoDuplicates(list)
    ensures OfferedTo(states, list, content).Keys == states.Keys
    ensures forall c :: c in states ==>
              OfferedTo(states, list, content)[c] == if c in list then states[c].Offered(content) else states[c]
  {
    if list != [] {
      var last := |list| - 1;
      OfferedOnce(states, list[..last], content);
      assert list == list[..last] + [list[last]];
    }
  }

  lemma {:induction false} MinusAt(list: seq<ClientId>, c: ClientId, it: nat)
    requires it <= |list| && (it < |list| ==> list[it] == c) && c !in list[..it]
    ensures System.Minus(list, c) == if it < |list| then list[..it] + list[it + 1..] else list
  {
    if list != [] && it > 0 {
      assert list[0] == list[..it][0];
      assert list[1..][..it - 1] == list[..it][1..];
      MinusAt(list[1..], c, it - 1);
      if it < |list| {
        assert [list[0]] + (list[1..][..it - 1] + list[1..][it..]) == list[..it] + list[it + 1..];
      } else {
        assert [list[0]] + list[1..] == list;
      }
    }
  }
}
