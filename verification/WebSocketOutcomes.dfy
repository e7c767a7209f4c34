/**
 What becomes of messages and of worker threads: a message is only dropped when its client is closing or has failed,
 a broadcast reaches every client of the list, and no worker leaves without its client being closed.
 */
module WebSocketOutcomes {
  import opened Basics
  import opened SendingQueue
  import opened WebSocketSystem
  import opened WebSocketInvariant
  import opened WebSocketSteps
  import opened WebSocketOwners
  import opened WebSocketSafety
  import opened WebSocketDelivery
  import opened WebSocketCallbacks

  // ---- What is accepted, and how workers leave ----

  /** All that was offered has been accepted as long as the client is not closing, and nothing after that. */
  predicate BoxFate(x: Client) {
    match x
    case Client(_, _, _, closing, _, box, _, _, _, _, _, _) =>
      && box.accepted <= box.offered
      && (!closing ==> box.accepted == box.offered && box.drained == [])
  }

  /** A worker has left only when its client is closing or has been closed, and a failed client is closed by it. */
  predicate WorkerFate(x: Client, send: Option<Main>, recv: Option<Main>) {
    match x
    case Client(_, _, _, closing, winner, box, _, _, _, _, _, _) =>
      && (recv == Some(Exited) ==> closing || winner.Some?)
      && (send == Some(Exited) ==> if box.failed.Some? then winner.Some? else closing && box.queue == [])
      && (send.Some? && send.value.Closing? ==> box.failed.Some?)
      && (box.failed.Some? ==> winner.Some? || (send.Some? && send.value.Closing?))
  }

  function MainOf(s: State, t: Thread): Option<Main> {
    if t in s.threads then Some(s.threads[t].main) else None
  }

  predicate Fate(s: State, c: ClientId) {
    match s
    case State(_, _, clients, _, _) =>
      c in clients ==> BoxFate(clients[c]) && WorkerFate(clients[c], MainOf(s, Send(c)), MainOf(s, Recv(c)))
  }

  /** Nothing that a client's fate depends on is taken back. */
  predicate KeepsFate(x: Client, y: Client) {
    match x
    case Client(_, _, _, closing, winner, box, _, _, _, _, _, _) =>
      y.box == box && (closing ==> y.closing) && (winner.Some? ==> y.winner.Some?)
  }

  lemma FateKept(x: Client, y: Client, send: Option<Main>, recv: Option<Main>)
    requires KeepsFate(x, y) && BoxFate(x) && WorkerFate(x, send, recv)
    ensures BoxFate(y) && WorkerFate(y, send, recv)
  {
  }

  lemma SameClientFate(s: State, r: State, c: ClientId)
    requires Fate(s, c) && c in s.clients && c in r.clients && KeepsFate(s.clients[c], r.clients[c])
    requires MainOf(r, Send(c)) == MainOf(s, Send(c)) && MainOf(r, Recv(c)) == MainOf(s, Recv(c))
    ensures Fate(r, c)
  {
    FateKept(s.clients[c], r.clients[c], MainOf(s, Send(c)), MainOf(s, Recv(c)));
  }

  // ---- addSendingQueue ----

  lemma OfferFate(x: Client, m: Msg, holder: Option<Thread>, send: Option<Main>, recv: Option<Main>)
    requires BoxFate(x) && WorkerFate(x, send, recv)
    ensures var y := x.(box := Offer(x.box, m, x.closing), queueHolder := holder);
            BoxFate(y) && WorkerFate(y, send, recv)
  {
  }

  lemma AddFate(s: State, t: Thread, c: ClientId)
    requires t in s.threads && s.threads[t].add.Some? && AddEnabled(s, t) && Fate(s, c)
    ensures Fate(AddAfter(s, t), c)
  {
    var r := AddAfter(s, t);
    SameMains(s, r, t, r.threads[t], c);
    if c in s.clients {
      match s.threads[t].add.value
      case AddLock(_, _) => SameClientFate(s, r, c);
      case AddHeld(d, content) =>
        if c == d {
          OfferFate(s.clients[c], Msg(s.nextMsg, content.fin, content.opcode, content.payload), None,
                    MainOf(s, Send(c)), MainOf(s, Recv(c)));
        } else {
          SameClientFate(s, r, c);
        }
      case AddNotify(_) => SameClientFate(s, r, c);
    }
  }

  lemma SameMains(s: State, r: State, t: Thread, l: Local, c: ClientId)
    requires t in s.threads && r.threads == s.threads[t := l] && l.main == s.threads[t].main
    ensures MainOf(r, Send(c)) == MainOf(s, Send(c)) && MainOf(r, Recv(c)) == MainOf(s, Recv(c))
  {
  }

  lemma CastFate(s: State, t: Thread, c: ClientId)
    requires t in s.threads && s.threads[t].cast.Some? && s.threads[t].add.None? && CastEnabled(s, t) && Fate(s, c)
    ensures Fate(CastAfter(s, t), c)
  {
    var r := CastAfter(s, t);
    SameMains(s, r, t, r.threads[t], c);
    if c in s.clients {
      SameClientFate(s, r, c);
    }
  }

  // ---- The workers ----

  lemma SendFate(s: State, t: Thread, ch: Choice, c: ClientId)
    requires t in s.threads && SendEnabled(s, t, ch) && Fate(s, c)
    requires s.threads[t].main == SendDrain ==> s.clients[t.c].closing
    ensures Fate(SendAfter(s, t, ch), c)
  {
    if c == t.c {
      OwnSendFate(s, t, ch);
    } else if c in s.clients {
      SameClientFate(s, SendAfter(s, t, ch), c);
    }
  }

  lemma OwnSendFate(s: State, t: Thread, ch: Choice)
    requires t in s.threads && SendEnabled(s, t, ch) && Fate(s, t.c)
    requires s.threads[t].main == SendDrain ==> s.clients[t.c].closing
    ensures Fate(SendAfter(s, t, ch), t.c)
  {
    var r, x := SendAfter(s, t, ch), s.clients[t.c];
    assert BoxFate(x) && WorkerFate(x, MainOf(s, Send(t.c)), MainOf(s, Recv(t.c)));
  }

  lemma RecvFate(s: State, t: Thread, ch: Choice, c: ClientId)
    requires t in s.threads && RecvEnabled(s, t, ch) && Fate(s, c)
    ensures Fate(RecvAfter(s, t, ch), c)
  {
    var r := RecvAfter(s, t, ch);
    if c in s.clients {
      if t == Recv(c) && ch == Leave {
        assert BoxFate(s.clients[c]) && WorkerFate(s.clients[c], MainOf(s, Send(c)), MainOf(s, Recv(c)));
      } else if t == Recv(c) && ch == CloseOwn {
        assert BoxFate(s.clients[c]) && WorkerFate(s.clients[c], MainOf(s, Send(c)), MainOf(s, Recv(c)));
      } else {
        SameClientFate(s, r, c);
      }
    }
  }

  // ---- Application threads and close calls ----

  lemma NewFate(s: State, c: ClientId)
    requires c in s.clients && s.clients[c] == NEW_CLIENT
    requires MainOf(s, Send(c)) == None && MainOf(s, Recv(c)) == Some(Ready)
    ensures Fate(s, c)
  {
  }

  lemma OwnerFate(s: State, t: Thread, ch: Choice, c: ClientId)
    requires Inv(s) && t in s.threads && OwnerEnabled(s, t, ch) && Fate(s, c)
    ensures Fate(OwnerAfter(s, t, ch), c)
  {
    var r := OwnerAfter(s, t, ch);
    if s.threads[t].main.OpenAsk? && ch.Accept? {
      NoWorkersYet(s, ch.c);
      if c == ch.c {
        NewFate(r, c);
      } else if c in s.clients {
        SameClientFate(s, r, c);
      }
    } else if s.threads[t].main.OpenStartSend? {
      InvOfThread(s, t);
      NoSenderYet(s, t, s.threads[t]);
      StartedFate(s, t, ch, c);
    } else if c in s.clients {
      OwnerKeepsFate(s, t, ch, c);
      SameClientFate(s, r, c);
    }
  }

  lemma OwnerKeepsFate(s: State, t: Thread, ch: Choice, c: ClientId)
    requires t in s.threads && OwnerEnabled(s, t, ch) && c in s.clients
    requires !s.threads[t].main.OpenStartSend? && !(s.threads[t].main.OpenAsk? && ch.Accept?)
    ensures var r := OwnerAfter(s, t, ch);
            && c in r.clients && KeepsFate(s.clients[c], r.clients[c])
            && MainOf(r, Send(c)) == MainOf(s, Send(c)) && MainOf(r, Recv(c)) == MainOf(s, Recv(c))
  {
  }

  lemma StartedFate(s: State, t: Thread, ch: Choice, c: ClientId)
    requires t in s.threads && OwnerEnabled(s, t, ch) && s.threads[t].main.OpenStartSend?
    requires Send(s.threads[t].main.c) !in s.threads && Fate(s, c)
    ensures Fate(OwnerAfter(s, t, ch), c)
  {
  }

  lemma CloseFate(s: State, t: Thread, ch: Choice, c: ClientId)
    requires Inv(s) && t in s.threads && CloseEnabled(s, t, ch) && Fate(s, c)
    ensures Fate(CloseAfter(s, t, ch), c)
  {
    if c in s.clients {
      InvOfThread(s, t);
      CloserIs(s, t, s.threads[t]);
      if s.threads[t].main.c == c {
        OwnCloseFate(s, t, ch);
      } else {
        OtherCloseFate(s, t, ch, c);
        SameClientFate(s, CloseAfter(s, t, ch), c);
      }
    }
  }

  /** What the invariant says of a close call, as far as it matters here. */
  lemma CloserIs(s: State, t: Thread, l: Local)
    requires Shape(t, l) && ClosingOf(s, t, l) && l.main.Closing?
    ensures l.main.c in s.clients
    ensures (t.Send? || t.Recv? ==> t.c == l.main.c && l.main.kind != ByOwner)
            && (l.main.kind != ByOwner ==> t.Send? || t.Recv?)
    ensures Order(l.main.phase) > Order(SetClosing) ==>
              s.clients[l.main.c].closing && s.clients[l.main.c].winner == Some(t)
  {
  }

  lemma OtherCloseFate(s: State, t: Thread, ch: Choice, c: ClientId)
    requires t in s.threads && CloseEnabled(s, t, ch) && c in s.clients && c != s.threads[t].main.c
    requires t.Send? || t.Recv? ==> t.c == s.threads[t].main.c
    ensures var r := CloseAfter(s, t, ch);
            && c in r.clients && r.clients[c] == s.clients[c]
            && MainOf(r, Send(c)) == MainOf(s, Send(c)) && MainOf(r, Recv(c)) == MainOf(s, Recv(c))
  {
    OnlyOneClient(s, t, ch);
  }

  lemma OnlyOneClient(s: State, t: Thread, ch: Choice)
    requires t in s.threads && CloseEnabled(s, t, ch)
    ensures var c, r := s.threads[t].main.c, CloseAfter(s, t, ch);
            && c in r.clients && r.clients == s.clients[c := r.clients[c]]
            && forall u :: u != t && !u.Inner? ==> MainOf(r, u) == MainOf(s, u)
  {
  }

  lemma OwnCloseFate(s: State, t: Thread, ch: Choice)
    requires t in s.threads && CloseEnabled(s, t, ch) && Fate(s, s.threads[t].main.c)
    requires t.Send? || t.Recv? ==> t.c == s.threads[t].main.c && s.threads[t].main.kind != ByOwner
    requires s.threads[t].main.kind != ByOwner ==> t.Send? || t.Recv?
    requires Order(s.threads[t].main.phase) > Order(SetClosing) ==>
               s.clients[s.threads[t].main.c].closing && s.clients[s.threads[t].main.c].winner == Some(t)
    ensures Fate(CloseAfter(s, t, ch), s.threads[t].main.c)
  {
    var c, r := s.threads[t].main.c, CloseAfter(s, t, ch);
    ClosedClient(s, t, ch);
    CloserGoes(s, t, ch);
    CloserFate(s.clients[c], r.clients[c], MainOf(s, Send(c)), MainOf(s, Recv(c)),
               MainOf(r, Send(c)), MainOf(r, Recv(c)));
  }

  /** What a phase leaves of a client. */
  lemma ClosedClient(s: State, t: Thread, ch: Choice)
    requires t in s.threads && CloseEnabled(s, t, ch)
    ensures var c, r := s.threads[t].main.c, CloseAfter(s, t, ch);
            && c in r.clients
            && if s.threads[t].main.phase == DrainQueue
               then r.clients[c] == s.clients[c].(box := Drain(s.clients[c].box), queueHolder := None)
               else KeepsFate(s.clients[c], r.clients[c])
  {
    if s.threads[t].main.phase == DrainQueue {
      DrainedClient(s, t, ch);
    } else {
      CalmClose(s, t, ch);
      CloseStays(s, t, ch);
    }
  }

  /** Where a close call leaves its thread; no worker but the one that runs it moves. */
  lemma CloserGoes(s: State, t: Thread, ch: Choice)
    requires t in s.threads && CloseEnabled(s, t, ch)
    requires t.Send? || t.Recv? ==> t.c == s.threads[t].main.c && s.threads[t].main.kind != ByOwner
    requires Order(s.threads[t].main.phase) > Order(SetClosing) ==> s.clients[s.threads[t].main.c].winner.Some?
    ensures var c, r := s.threads[t].main.c, CloseAfter(s, t, ch);
            && c in r.clients
            && ClosesOn(r.clients[c], MainOf(s, Send(c)), MainOf(r, Send(c)))
            && ClosesOn(r.clients[c], MainOf(s, Recv(c)), MainOf(r, Recv(c)))
  {
    OnlyOneClient(s, t, ch);
    CloserMain(s, t, ch);
  }

  lemma CloserMain(s: State, t: Thread, ch: Choice)
    requires t in s.threads && CloseEnabled(s, t, ch)
    requires Order(s.threads[t].main.phase) > Order(SetClosing) ==> s.clients[s.threads[t].main.c].winner.Some?
    ensures var m, r := s.threads[t].main, CloseAfter(s, t, ch);
            && t in r.threads && m.c in r.clients
            && (r.threads[t].main.Closing?
                || (r.threads[t].main == Return(m.kind, m.todo) && r.clients[m.c].winner.Some?))
  {
  }

  /** A worker does not move, or goes on closing, or leaves a client that has a winner. */
  predicate ClosesOn(y: Client, before: Option<Main>, after: Option<Main>) {
    match y
    case Client(_, _, _, _, winner, _, _, _, _, _, _, _) =>
      || after == before
      || (before.Some? && before.value.Closing? && after.Some?
          && (after.value.Closing? || (after.value == Exited && winner.Some?)))
  }

  lemma CloserFate(x: Client, y: Client, send: Option<Main>, recv: Option<Main>,
                   send': Option<Main>, recv': Option<Main>)
    requires BoxFate(x) && WorkerFate(x, send, recv)
    requires KeepsFate(x, y) || (x.closing && x.winner.Some? && y == x.(box := Drain(x.box), queueHolder := None))
    requires ClosesOn(y, send, send') && ClosesOn(y, recv, recv')
    ensures BoxFate(y) && WorkerFate(y, send', recv')
  {
  }

  lemma StepFate(s: State, t: Thread, ch: Choice, c: ClientId)
    requires Inv(s) && Enabled(s, t, ch) && Fate(s, c)
    ensures Fate(After(s, t, ch), c)
  {
    if s.threads[t].add.Some? {
      AddFate(s, t, c);
    } else if s.threads[t].cast.Some? {
      CastFate(s, t, c);
    } else if SendEnabled(s, t, ch) {
      SenderIn(s, t);
      SenderFacts(s, t);
      SendFate(s, t, ch, c);
    } else if RecvEnabled(s, t, ch) {
      RecvFate(s, t, ch, c);
    } else if OwnerEnabled(s, t, ch) {
      OwnerFate(s, t, ch, c);
    } else {
      CloseFate(s, t, ch, c);
    }
  }

  lemma NextFate(s: State, s': State, c: ClientId)
    requires Inv(s) && Next(s, s') && Fate(s, c)
    ensures Fate(s', c)
  {
    var t, ch :| Enabled(s, t, ch) && s' == After(s, t, ch);
    StepFate(s, t, ch, c);
  }

  lemma InitFate(s: State, c: ClientId)
    requires Init(s)
    ensures Fate(s, c)
  {
  }

  lemma {:induction false} FateAlways(states: seq<State>, i: nat, c: ClientId)
    requires Run(states) && i < |states|
    ensures Fate(states[i], c)
  {
    if i == 0 {
      InitFate(states[0], c);
    } else {
      FateAlways(states, i - 1, c);
      StepOfRun(states, i);
      NextFate(states[i - 1], states[i], c);
    }
  }

  /** A message is freed unsent only when its client is closing, or when it is the one whose sending failed. */
  lemma FreedUnsentOnlyWhen(states: seq<State>, i: nat, c: ClientId, m: Msg)
    requires Run(states) && i < |states| && c in states[i].clients && m in states[i].clients[c].box.freed
    ensures var x := states[i].clients[c]; m in x.box.sent || x.closing || x.box.failed == Some(m)
  {
    var x := states[i].clients[c];
    FateAlways(states, i, c);
    BoxesAlways(states, i);
    assert BoxOk(x.box, states[i].nextMsg) && BoxFate(x);
    if !x.closing {
      OpenFrees(x.box, m);
    }
  }

  lemma OpenFrees(b: Outbox, m: Msg)
    requires Consistent(b) && b.accepted == b.offered && b.drained == [] && m in b.freed
    ensures m in b.sent || b.failed == Some(m)
  {
    var ended := if b.failed.Some? then [b.failed.value] else [];
    assert b.accepted == b.sent + ended + InFlight(b) + b.queue;
    Cancelled(b.sent + ended, InFlight(b), b.queue, b.freed, m);
    assert m in b.sent || m in ended;
  }

  lemma Cancelled(done: seq<Msg>, flight: seq<Msg>, queue: seq<Msg>, freed: seq<Msg>, m: Msg)
    requires multiset(done + flight + queue) == multiset(queue) + multiset(flight) + multiset(freed) && m in freed
    ensures m in done
  {
    var d, f, q, r := multiset(done), multiset(flight), multiset(queue), multiset(freed);
    assert multiset(done + flight + queue) == d + f + q;
    assert (d + f + q)[m] == d[m] + f[m] + q[m] && (q + f + r)[m] == q[m] + f[m] + r[m];
    assert r[m] > 0;
  }

  /** All that is offered to a client is accepted as long as the client is not closing, and then nothing more. */
  lemma AcceptedWhileOpen(states: seq<State>, i: nat, j: nat, c: ClientId)
    requires Run(states) && i <= j < |states| && c in states[i].clients
    ensures c in states[j].clients && states[j].clients[c].box.accepted <= states[j].clients[c].box.offered
    ensures !states[j].clients[c].closing ==> states[j].clients[c].box.accepted == states[j].clients[c].box.offered
    ensures states[i].clients[c].closing ==>
              states[j].clients[c].closing && states[j].clients[c].box.accepted == states[i].clients[c].box.accepted
  {
    HistoryOnlyGrows(states, i, j, c);
    FateAlways(states, j, c);
    assert BoxFate(states[j].clients[c]);
    if states[i].clients[c].closing {
      AcceptedNoMore(states, i, j, c);
    }
  }

  /** A client that is closing, with what it has accepted. */
  predicate Shut(s: State, c: ClientId, accepted: seq<Msg>) {
    match s
    case State(_, _, clients, _, _) => c in clients && clients[c].closing && clients[c].box.accepted == accepted
  }

  lemma AddShut(s: State, t: Thread, c: ClientId, accepted: seq<Msg>)
    requires t in s.threads && s.threads[t].add.Some? && AddEnabled(s, t) && Shut(s, c, accepted)
    ensures Shut(AddAfter(s, t), c, accepted)
  {
  }

  lemma SendShut(s: State, t: Thread, ch: Choice, c: ClientId, accepted: seq<Msg>)
    requires t in s.threads && SendEnabled(s, t, ch) && Shut(s, c, accepted)
    ensures Shut(SendAfter(s, t, ch), c, accepted)
  {
  }

  lemma OwnerShut(s: State, t: Thread, ch: Choice, c: ClientId, accepted: seq<Msg>)
    requires t in s.threads && OwnerEnabled(s, t, ch) && Shut(s, c, accepted)
    ensures Shut(OwnerAfter(s, t, ch), c, accepted)
  {
  }

  lemma CloseShut(s: State, t: Thread, ch: Choice, c: ClientId, accepted: seq<Msg>)
    requires t in s.threads && CloseEnabled(s, t, ch) && Shut(s, c, accepted)
    ensures Shut(CloseAfter(s, t, ch), c, accepted)
  {
    OnlyOneClient(s, t, ch);
    ClosedClient(s, t, ch);
  }

  lemma NextShut(s: State, s': State, c: ClientId, accepted: seq<Msg>)
    requires Next(s, s') && Shut(s, c, accepted)
    ensures Shut(s', c, accepted)
  {
    var t, ch :| Enabled(s, t, ch) && s' == After(s, t, ch);
    StepShut(s, t, ch, c, accepted);
  }

  lemma StepShut(s: State, t: Thread, ch: Choice, c: ClientId, accepted: seq<Msg>)
    requires Enabled(s, t, ch) && Shut(s, c, accepted)
    ensures Shut(After(s, t, ch), c, accepted)
  {
    if s.threads[t].add.Some? {
      AddShut(s, t, c, accepted);
    } else if s.threads[t].cast.Some? {
    } else if SendEnabled(s, t, ch) {
      SendShut(s, t, ch, c, accepted);
    } else if RecvEnabled(s, t, ch) {
    } else if OwnerEnabled(s, t, ch) {
      OwnerShut(s, t, ch, c, accepted);
    } else {
      CloseShut(s, t, ch, c, accepted);
    }
  }

  lemma {:induction false} AcceptedNoMore(states: seq<State>, i: nat, j: nat, c: ClientId)
    requires Run(states) && i <= j < |states| && c in states[i].clients && states[i].clients[c].closing
    ensures Shut(states[j], c, states[i].clients[c].box.accepted)
    decreases j - i
  {
    if i < j {
      AcceptedNoMore(states, i, j - 1, c);
      StepOfRun(states, j);
      NextShut(states[j - 1], states[j], c, states[i].clients[c].box.accepted);
    }
  }

  /**
   No worker leaves its client behind: when one of them has exited, the client is closing or a thread has won
   `closeOnce` for it; the sending thread leaves an empty queue or, after a failure, has seen to it that it is closed.
   */
  lemma WorkersLeaveNothing(states: seq<State>, i: nat, c: ClientId)
    requires Run(states) && i < |states| && c in states[i].clients
    ensures var s, x := states[i], states[i].clients[c];
            && (HasExited(s, Recv(c)) ==> x.closing || x.winner.Some?)
            && (HasExited(s, Send(c)) ==> if x.box.failed.Some? then x.winner.Some? else x.closing && x.box.queue == [])
            && (x.box.failed.Some? ==>
                  x.winner.Some? || (Send(c) in s.threads && s.threads[Send(c)].main.Closing?))
  {
    FateAlways(states, i, c);
    assert WorkerFate(states[i].clients[c], MainOf(states[i], Send(c)), MainOf(states[i], Recv(c)));
  }

  // ---- Sending to one client and to all ----

  predicate Says(m: Msg, content: Content) {
    m.fin == content.fin && m.opcode == content.opcode && m.payload == content.payload
  }

  /** A message of this content was offered, as the `n`-th of all or later. */
  ghost predicate OfferedSince(b: Outbox, content: Content, n: nat) {
    exists k :: 0 <= k < |b.offered| && Says(b.offered[k], content) && b.offered[k].id >= n
  }

  /** The thread has a message of this content to offer to client `c`. */
  predicate Serves(l: Local, c: ClientId, content: Content) {
    match l
    case Local(_, cast, add) =>
      || (cast.Some? && cast.value.CastHeld? && cast.value.content == content && c in cast.value.todo)
      || (add.Some? && !add.value.AddNotify? && add.value.c == c && add.value.content == content)
  }

  /** It has been offered, or still has to be. */
  ghost predicate Underway(s: State, t: Thread, c: ClientId, content: Content, n: nat) {
    match s
    case State(_, _, clients, threads, nextMsg) =>
      && n <= nextMsg && c in clients
      && (OfferedSince(clients[c].box, content, n) || (t in threads && Serves(threads[t], c, content)))
  }

  lemma StillOffered(b: Outbox, r: Outbox, content: Content, n: nat)
    requires OfferedSince(b, content, n) && b.offered <= r.offered
    ensures OfferedSince(r, content, n)
  {
    var k :| 0 <= k < |b.offered| && Says(b.offered[k], content) && b.offered[k].id >= n;
    assert r.offered[k] == b.offered[k];
  }

  lemma NowOffered(b: Outbox, m: Msg, closing: bool, content: Content, n: nat)
    requires Says(m, content) && m.id >= n
    ensures OfferedSince(Offer(b, m, closing), content, n)
  {
    assert Offer(b, m, closing).offered[|b.offered|] == m;
  }

  lemma CounterGrows(s: State, t: Thread, ch: Choice)
    requires Enabled(s, t, ch)
    ensures s.nextMsg <= After(s, t, ch).nextMsg
  {
    if s.threads[t].add.None? && s.threads[t].cast.None? && !SendEnabled(s, t, ch) && !RecvEnabled(s, t, ch)
       && !OwnerEnabled(s, t, ch) {
      CloseCounts(s, t, ch);
    } else if s.threads[t].add.None? && s.threads[t].cast.None? && SendEnabled(s, t, ch) {
      SendCounts(s, t, ch);
    }
  }

  lemma CloseCounts(s: State, t: Thread, ch: Choice)
    requires t in s.threads && CloseEnabled(s, t, ch)
    ensures CloseAfter(s, t, ch).nextMsg == s.nextMsg
  {
  }

  lemma SendCounts(s: State, t: Thread, ch: Choice)
    requires t in s.threads && SendEnabled(s, t, ch)
    ensures SendAfter(s, t, ch).nextMsg == s.nextMsg
  {
  }

  /** A thread that serves a client offers it the message, or still has to. */
  lemma OwnServes(s: State, t: Thread, ch: Choice, c: ClientId, content: Content, n: nat)
    requires Inv(s) && Enabled(s, t, ch) && c in s.clients && n <= s.nextMsg && Serves(s.threads[t], c, content)
    ensures var r := After(s, t, ch);
            && c in r.clients
            && (OfferedSince(r.clients[c].box, content, n) || (t in r.threads && Serves(r.threads[t], c, content)))
  {
    if s.threads[t].add.Some? {
      AdderServes(s, t, c, content, n);
    }
  }

  lemma AdderServes(s: State, t: Thread, c: ClientId, content: Content, n: nat)
    requires t in s.threads && s.threads[t].add.Some? && AddEnabled(s, t)
    requires c in s.clients && n <= s.nextMsg && Serves(s.threads[t], c, content)
    ensures var r := AddAfter(s, t);
            && c in r.clients
            && (OfferedSince(r.clients[c].box, content, n) || (t in r.threads && Serves(r.threads[t], c, content)))
  {
    match s.threads[t].add.value
    case AddHeld(d, content') =>
      if d == c && content' == content {
        var x := s.clients[c];
        NowOffered(x.box, Msg(s.nextMsg, content.fin, content.opcode, content.payload), x.closing, content, n);
      }
    case _ =>
  }

  lemma ServerStays(s: State, u: Thread, ch: Choice, t: Thread, c: ClientId, content: Content)
    requires Inv(s) && Enabled(s, u, ch) && t in s.threads && t != u && Serves(s.threads[t], c, content)
    ensures t in After(s, u, ch).threads && After(s, u, ch).threads[t] == s.threads[t]
  {
    EachTurn(s, u, ch);
    InvOfThread(s, t);
    ServerIsOut(t, s.threads[t]);
  }

  lemma ServerIsOut(t: Thread, l: Local)
    requires Shape(t, l) && (l.add.Some? || l.cast.Some?)
    ensures t.Inner? ==> l.main != Ready
  {
  }

  lemma StepUnderway(s: State, u: Thread, ch: Choice, t: Thread, c: ClientId, content: Content, n: nat)
    requires Inv(s) && BoxesOk(s) && Enabled(s, u, ch) && Underway(s, t, c, content, n)
    ensures Underway(After(s, u, ch), t, c, content, n)
  {
    var r := After(s, u, ch);
    CounterGrows(s, u, ch);
    StepDelivers(s, u, ch);
    assert c in r.clients && Grows(s.clients[c], r.clients[c]);
    if OfferedSince(s.clients[c].box, content, n) {
      StillOffered(s.clients[c].box, r.clients[c].box, content, n);
    } else if u == t {
      OwnServes(s, t, ch, c, content, n);
    } else {
      ServerStays(s, u, ch, t, c, content);
    }
  }

  lemma NextUnderway(s: State, s': State, t: Thread, c: ClientId, content: Content, n: nat)
    requires Inv(s) && BoxesOk(s) && Next(s, s') && Underway(s, t, c, content, n)
    ensures Underway(s', t, c, content, n)
  {
    var u, ch :| Enabled(s, u, ch) && s' == After(s, u, ch);
    StepUnderway(s, u, ch, t, c, content, n);
  }

  lemma {:induction false} UnderwayUntilOffered(states: seq<State>, i: nat, j: nat, t: Thread, c: ClientId,
                                               content: Content, n: nat)
    requires Run(states) && i <= j < |states| && Underway(states[i], t, c, content, n)
    ensures Underway(states[j], t, c, content, n)
    decreases j - i
  {
    if i < j {
      UnderwayUntilOffered(states, i, j - 1, t, c, content, n);
      StepOfRun(states, j);
      BoxesAlways(states, j - 1);
      NextUnderway(states[j - 1], states[j], t, c, content, n);
    }
  }

  predicate Idle(s: State, t: Thread) {
    t in s.threads && s.threads[t].add.None? && s.threads[t].cast.None?
  }

  /** A call of addSendingQueue that has returned has offered its client what it was called with. */
  lemma SendReachesClient(states: seq<State>, i: nat, j: nat, t: Thread, c: ClientId, content: Content)
    requires Run(states) && i <= j < |states| && t in states[i].threads
    requires states[i].threads[t].add == Some(AddLock(c, content)) && Idle(states[j], t)
    ensures c in states[j].clients && OfferedSince(states[j].clients[c].box, content, states[i].nextMsg)
  {
    InvAlways(states, i);
    TargetIsAlive(states[i], t);
    UnderwayUntilOffered(states, i, j, t, c, content, states[i].nextMsg);
  }

  // ---- Broadcasts ----

  predicate AtCast(s: State, t: Thread, cast: Cast) {
    match s
    case State(_, _, _, threads, _) => t in threads && threads[t].cast == Some(cast) && threads[t].add.None?
  }

  lemma OwnCastLock(s: State, t: Thread, ch: Choice, content: Content)
    requires Enabled(s, t, ch) && AtCast(s, t, CastLock(content))
    ensures var r := After(s, t, ch); AtCast(r, t, CastHeld(content, r.list))
  {
  }

  lemma NextCastLock(s: State, s': State, t: Thread, content: Content)
    requires Inv(s) && Next(s, s') && AtCast(s, t, CastLock(content))
    ensures AtCast(s', t, CastLock(content)) || AtCast(s', t, CastHeld(content, s'.list))
  {
    var u, ch :| Enabled(s, u, ch) && s' == After(s, u, ch);
    if u == t {
      OwnCastLock(s, t, ch, content);
    } else {
      EachTurn(s, u, ch);
      InvOfThread(s, t);
      ServerIsOut(t, s.threads[t]);
    }
  }

  lemma {:induction false} CastTakesTheMutex(states: seq<State>, i: nat, j: nat, t: Thread, content: Content)
      returns (k: nat)
    requires Run(states) && i <= j < |states| && AtCast(states[i], t, CastLock(content))
    ensures i <= k <= j
    ensures (k == j && AtCast(states[j], t, CastLock(content)))
            || AtCast(states[k], t, CastHeld(content, states[k].list))
    decreases j - i
  {
    if i == j {
      k := j;
    } else {
      k := CastTakesTheMutex(states, i, j - 1, t, content);
      if AtCast(states[k], t, CastLock(content)) {
        StepOfRun(states, j);
        NextCastLock(states[j - 1], states[j], t, content);
        k := j;
      }
    }
  }

  /**
   A broadcast that has returned has offered its message to every client that was in the list at some moment at which
   it held the mutex of the list.
   */
  lemma BroadcastReachesAll(states: seq<State>, i: nat, j: nat, t: Thread, content: Content) returns (k: nat)
    requires Run(states) && i <= j < |states| && AtCast(states[i], t, CastLock(content)) && Idle(states[j], t)
    ensures i <= k <= j && states[k].listHolder == Some(t)
    ensures forall c :: c in states[k].list ==>
              c in states[j].clients && OfferedSince(states[j].clients[c].box, content, states[k].nextMsg)
  {
    k := CastTakesTheMutex(states, i, j, t, content);
    InvAlways(states, k);
    CasterHolds(states[k], t);
    forall c | c in states[k].list
      ensures c in states[j].clients && OfferedSince(states[j].clients[c].box, content, states[k].nextMsg)
    {
      assert ListOk(states[k]);
      UnderwayUntilOffered(states, k, j, t, c, content, states[k].nextMsg);
    }
  }

  lemma CasterHolds(s: State, t: Thread)
    requires Inv(s) && t in s.threads && s.threads[t].cast.Some? && s.threads[t].cast.value.CastHeld?
    ensures s.listHolder == Some(t)
  {
    InvOfThread(s, t);
    assert MutexesOf(s, t, s.threads[t]);
  }
}
