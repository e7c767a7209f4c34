/** Messages and the wire over all runs: what is sent, in which order, and that every message is freed once. */
module WebSocketDelivery {
  import opened Basics
  import opened SendingQueue
  import opened WebSocketSystem
  import opened WebSocketInvariant
  import opened WebSocketSteps
  import opened WebSocketSafety

  /** An outbox in order, whose messages were allocated before the `n`-th. */
  ghost predicate BoxOk(b: Outbox, n: nat) {
    Consistent(b) && IdsBelow(b, n)
  }

  ghost predicate BoxesOk(s: State) {
    match s
    case State(_, _, clients, _, nextMsg) => forall c :: c in clients ==> BoxOk(clients[c].box, nextMsg)
  }

  /** The histories only grow, nothing is written after a failure, and a deleted client is left alone. */
  predicate Grows(x: Client, y: Client) {
    match x
    case Client(_, _, _, _, _, _, _, _, _, _, _, _) =>
      && x.box.offered <= y.box.offered && x.box.accepted <= y.box.accepted
      && x.box.wire <= y.box.wire && x.box.freed <= y.box.freed
      && (x.box.failed.Some? ==> y.box.failed == x.box.failed && y.box.wire == x.box.wire)
      && (!x.alive ==> !y.alive && y.box == x.box)
  }

  ghost predicate AllGrow(s: State, r: State) {
    match s
    case State(_, _, clients, _, _) => forall c :: c in clients ==> c in r.clients && Grows(clients[c], r.clients[c])
  }

  /** What a step does to all messages and sockets. */
  ghost predicate Delivers(s: State, r: State) {
    match s
    case State(_, _, _, _, _) => BoxesOk(r) && AllGrow(s, r)
  }

  lemma SameBoxes(s: State, r: State)
    requires BoxesOk(s) && r.clients == s.clients && r.nextMsg == s.nextMsg
    ensures Delivers(s, r)
  {
  }

  /** A step that changes one client. */
  lemma OneClient(s: State, r: State, c: ClientId, y: Client)
    requires BoxesOk(s) && r.clients == s.clients[c := y] && s.nextMsg <= r.nextMsg
    requires BoxOk(y.box, r.nextMsg) && (c in s.clients ==> Grows(s.clients[c], y))
    ensures Delivers(s, r)
  {
    forall d | d in r.clients ensures BoxOk(r.clients[d].box, r.nextMsg) {
      if d != c {
        assert BoxOk(s.clients[d].box, s.nextMsg);
      }
    }
  }

  lemma SameBox(s: State, r: State, c: ClientId, y: Client)
    requires BoxesOk(s) && c in s.clients && r.clients == s.clients[c := y] && s.nextMsg == r.nextMsg
    requires y.box == s.clients[c].box && (!s.clients[c].alive ==> !y.alive)
    ensures Delivers(s, r)
  {
    assert BoxOk(s.clients[c].box, s.nextMsg);
    OneClient(s, r, c, y);
  }

  // ---- addSendingQueue ----

  lemma OfferBox(x: Client, n: nat, m: Msg, holder: Option<Thread>)
    requires BoxOk(x.box, n) && m.id == n && m.Valid() && x.alive
    ensures var y := x.(box := Offer(x.box, m, x.closing), queueHolder := holder); BoxOk(y.box, n + 1) && Grows(x, y)
  {
    OfferedIds(x.box, n, m, x.closing);
    OfferKeeps(x.box, m, x.closing);
    OfferGrows(x, m, holder);
  }

  lemma OfferGrows(x: Client, m: Msg, holder: Option<Thread>)
    requires x.alive
    ensures Grows(x, x.(box := Offer(x.box, m, x.closing), queueHolder := holder))
  {
  }

  lemma AddDelivers(s: State, t: Thread)
    requires Inv(s) && BoxesOk(s) && t in s.threads && s.threads[t].add.Some? && AddEnabled(s, t)
    ensures Delivers(s, AddAfter(s, t))
  {
    var r := AddAfter(s, t);
    TargetIsAlive(s, t);
    AddFacts(s, t);
    match s.threads[t].add.value
    case AddLock(c, _) => SameBox(s, r, c, r.clients[c]);
    case AddHeld(c, content) =>
      assert BoxOk(s.clients[c].box, s.nextMsg);
      OfferBox(s.clients[c], s.nextMsg, Msg(s.nextMsg, content.fin, content.opcode, content.payload), None);
      OneClient(s, r, c, r.clients[c]);
    case AddNotify(c) => SameBox(s, r, c, r.clients[c]);
  }

  // ---- sendingThread ----

  lemma PopBox(x: Client, n: nat, holder: Option<Thread>)
    requires BoxOk(x.box, n) && x.alive && x.box.queue != []
    requires x.box.flight.None? && x.box.failed.None? && x.box.drained == []
    ensures var y := x.(box := Pop(x.box), queueHolder := holder); BoxOk(y.box, n) && Grows(x, y)
  {
    PopKeeps(x.box);
  }

  lemma DrainBox(x: Client, n: nat, holder: Option<Thread>)
    requires BoxOk(x.box, n) && x.alive
    ensures var y := x.(box := Drain(x.box), queueHolder := holder); BoxOk(y.box, n) && Grows(x, y)
  {
    DrainKeeps(x.box);
  }

  lemma TransmitBox(x: Client, n: nat, k: nat)
    requires BoxOk(x.box, n) && x.alive && x.box.flight.Some? && |x.box.partial| + k <= |x.box.flight.value.Bytes()|
    ensures var y := x.(box := Transmit(x.box, k)); BoxOk(y.box, n) && Grows(x, y)
  {
    SendingQueue.TransmitKeeps(x.box, k);
  }

  lemma FinishBox(x: Client, n: nat)
    requires BoxOk(x.box, n) && x.alive && x.box.flight.Some? && x.box.partial == x.box.flight.value.Bytes()
    ensures var y := x.(box := Finish(x.box)); BoxOk(y.box, n) && Grows(x, y)
  {
    FinishKeeps(x.box);
  }

  lemma FailBox(x: Client, n: nat)
    requires BoxOk(x.box, n) && x.alive && x.box.flight.Some?
    ensures var y := x.(box := Fail(x.box)); BoxOk(y.box, n) && Grows(x, y)
  {
    FailKeeps(x.box);
  }

  lemma SenderAlive(s: State, t: Thread)
    requires Sends(s, t)
    ensures s.clients[t.c].alive
  {
    assert WorkersOf(s, t, s.threads[t]);
  }

  lemma TransmitDelivers(s: State, t: Thread, ch: Choice)
    requires BoxesOk(s) && t in s.threads && SendEnabled(s, t, ch) && s.threads[t].main == SendTransmit
             && s.clients[t.c].alive
    ensures Delivers(s, SendAfter(s, t, ch))
  {
    var r, x := SendAfter(s, t, ch), s.clients[t.c];
    assert BoxOk(x.box, s.nextMsg);
    if ch.Write? {
      TransmitBox(x, s.nextMsg, ch.n);
    } else if ch == Go {
      FinishBox(x, s.nextMsg);
    } else {
      FailBox(x, s.nextMsg);
    }
    OneClient(s, r, t.c, r.clients[t.c]);
  }

  lemma QueueSideDelivers(s: State, t: Thread, ch: Choice)
    requires BoxesOk(s) && t in s.threads && SendEnabled(s, t, ch) && s.threads[t].main != SendTransmit
             && s.clients[t.c].alive
    requires SenderArrives(t, s.threads[t].main, s.clients[t.c])
    ensures Delivers(s, SendAfter(s, t, ch))
  {
    var r, x := SendAfter(s, t, ch), s.clients[t.c];
    assert BoxOk(x.box, s.nextMsg);
    match s.threads[t].main
    case SendDrain =>
      DrainBox(x, s.nextMsg, None);
      OneClient(s, r, t.c, r.clients[t.c]);
    case SendBranch =>
      if x.closing {
        SameBoxes(s, r);
      } else {
        PopBox(x, s.nextMsg, None);
        OneClient(s, r, t.c, r.clients[t.c]);
      }
    case SendCheck => SameBoxes(s, r);
    case SendSleep => SameBox(s, r, t.c, r.clients[t.c]);
    case SendLock => SameBox(s, r, t.c, r.clients[t.c]);
    case SendWaiting => SameBoxes(s, r);
  }

  lemma SendDelivers(s: State, t: Thread, ch: Choice)
    requires Inv(s) && BoxesOk(s) && t in s.threads && SendEnabled(s, t, ch)
    ensures Delivers(s, SendAfter(s, t, ch))
  {
    SenderIn(s, t);
    SenderAlive(s, t);
    SenderFacts(s, t);
    if s.threads[t].main == SendTransmit {
      TransmitDelivers(s, t, ch);
    } else {
      QueueSideDelivers(s, t, ch);
    }
  }

  // ---- The other threads ----

  lemma RecvDelivers(s: State, t: Thread, ch: Choice)
    requires BoxesOk(s) && t in s.threads && RecvEnabled(s, t, ch)
    ensures Delivers(s, RecvAfter(s, t, ch))
  {
    var r := RecvAfter(s, t, ch);
    if ch == Fault {
      SameBox(s, r, t.c, r.clients[t.c]);
    } else {
      SameBoxes(s, r);
    }
  }

  lemma CastDelivers(s: State, t: Thread)
    requires BoxesOk(s) && t in s.threads && s.threads[t].cast.Some? && s.threads[t].add.None? && CastEnabled(s, t)
    ensures Delivers(s, CastAfter(s, t))
  {
    SameBoxes(s, CastAfter(s, t));
  }

  lemma NewBox(n: nat)
    ensures BoxOk(NEW_CLIENT.box, n)
  {
  }

  lemma OpeningDelivers(s: State, t: Thread, ch: Choice)
    requires BoxesOk(s) && t in s.threads && OwnerEnabled(s, t, ch)
    requires s.threads[t].main.OpenPush? || (s.threads[t].main.OpenAsk? && ch.Accept?)
    ensures Delivers(s, OwnerAfter(s, t, ch))
  {
    var r := OwnerAfter(s, t, ch);
    match s.threads[t].main
    case OpenAsk =>
      NewBox(s.nextMsg);
      OneClient(s, r, ch.c, NEW_CLIENT);
    case OpenPush(c) => SameBox(s, r, c, r.clients[c]);
  }

  lemma CalmOwner(s: State, t: Thread, ch: Choice)
    requires t in s.threads && OwnerEnabled(s, t, ch)
    requires !s.threads[t].main.OpenPush? && (s.threads[t].main.OpenAsk? ==> !ch.Accept?)
    ensures OwnerAfter(s, t, ch).clients == s.clients && OwnerAfter(s, t, ch).nextMsg == s.nextMsg
  {
  }

  lemma OwnerDelivers(s: State, t: Thread, ch: Choice)
    requires BoxesOk(s) && t in s.threads && OwnerEnabled(s, t, ch)
    ensures Delivers(s, OwnerAfter(s, t, ch))
  {
    if s.threads[t].main.OpenPush? || (s.threads[t].main.OpenAsk? && ch.Accept?) {
      OpeningDelivers(s, t, ch);
    } else {
      CalmOwner(s, t, ch);
      SameBoxes(s, OwnerAfter(s, t, ch));
    }
  }

  /** The destructor runs on a client that is not deleted yet. */
  lemma DrainerAlive(s: State, t: Thread)
    requires Inv(s) && t in s.threads && s.threads[t].main.Closing? && s.threads[t].main.phase == DrainQueue
    requires s.threads[t].main.c in s.clients
    ensures s.clients[s.threads[t].main.c].alive
  {
    InvOfThread(s, t);
    WinnerOf(s, t, s.threads[t]);
  }

  lemma CloseDelivers(s: State, t: Thread, ch: Choice)
    requires Inv(s) && BoxesOk(s) && t in s.threads && CloseEnabled(s, t, ch)
    ensures Delivers(s, CloseAfter(s, t, ch))
  {
    if s.threads[t].main.phase == DrainQueue {
      DrainerAlive(s, t);
    }
    ClosingDelivers(s, t, ch, s.threads[t].main.c, s.threads[t].main.phase);
  }

  lemma ClosingDelivers(s: State, t: Thread, ch: Choice, c: ClientId, phase: ClosePhase)
    requires BoxesOk(s) && t in s.threads && CloseEnabled(s, t, ch)
    requires s.threads[t].main.c == c && s.threads[t].main.phase == phase
             && (phase == DrainQueue ==> s.clients[c].alive)
    ensures Delivers(s, CloseAfter(s, t, ch))
  {
    var r := CloseAfter(s, t, ch);
    if phase == DrainQueue {
      assert BoxOk(s.clients[c].box, s.nextMsg);
      DrainBox(s.clients[c], s.nextMsg, None);
      DrainedClient(s, t, ch);
      OneClient(s, r, c, r.clients[c]);
    } else {
      CalmClose(s, t, ch);
      SameBox(s, r, c, r.clients[c]);
    }
  }

  lemma DrainedClient(s: State, t: Thread, ch: Choice)
    requires t in s.threads && CloseEnabled(s, t, ch) && s.threads[t].main.phase == DrainQueue
    ensures var c := s.threads[t].main.c;
            CloseAfter(s, t, ch).clients
            == s.clients[c := s.clients[c].(box := Drain(s.clients[c].box), queueHolder := None)]
    ensures CloseAfter(s, t, ch).nextMsg == s.nextMsg
  {
  }

  lemma CalmClose(s: State, t: Thread, ch: Choice)
    requires t in s.threads && CloseEnabled(s, t, ch) && s.threads[t].main.phase != DrainQueue
    ensures var r, c := CloseAfter(s, t, ch), s.threads[t].main.c;
            && c in r.clients && r.clients == s.clients[c := r.clients[c]] && r.nextMsg == s.nextMsg
            && r.clients[c].box == s.clients[c].box && (!s.clients[c].alive ==> !r.clients[c].alive)
  {
  }

  // ---- Over runs ----

  lemma StepDelivers(s: State, t: Thread, ch: Choice)
    requires Inv(s) && BoxesOk(s) && Enabled(s, t, ch)
    ensures Delivers(s, After(s, t, ch))
  {
    var l := s.threads[t];
    if l.add.Some? {
      AddDelivers(s, t);
    } else if l.cast.Some? {
      CastDelivers(s, t);
    } else if SendEnabled(s, t, ch) {
      SendDelivers(s, t, ch);
    } else if RecvEnabled(s, t, ch) {
      RecvDelivers(s, t, ch);
    } else if OwnerEnabled(s, t, ch) {
      OwnerDelivers(s, t, ch);
    } else {
      CloseDelivers(s, t, ch);
    }
  }

  lemma NextDelivers(s: State, s': State)
    requires Inv(s) && BoxesOk(s) && Next(s, s')
    ensures Delivers(s, s')
  {
    var t, ch :| Enabled(s, t, ch) && s' == After(s, t, ch);
    StepDelivers(s, t, ch);
  }

  lemma {:induction false} BoxesAlways(states: seq<State>, i: nat)
    requires Run(states) && i < |states|
    ensures BoxesOk(states[i])
    ensures i > 0 ==> AllGrow(states[i - 1], states[i])
  {
    if i > 0 {
      BoxesAlways(states, i - 1);
      InvAlways(states, i - 1);
      assert Next(states[i - 1], states[i]);
      NextDelivers(states[i - 1], states[i]);
    }
  }

  lemma GrowsFurther(x: Client, y: Client, z: Client)
    requires Grows(x, y) && Grows(y, z)
    ensures Grows(x, z)
  {
  }

  lemma LastStepGrows(states: seq<State>, j: nat, c: ClientId)
    requires Run(states) && 0 < j < |states| && c in states[j - 1].clients
    ensures c in states[j].clients && Grows(states[j - 1].clients[c], states[j].clients[c])
  {
    BoxesAlways(states, j);
  }

  /** What was written, accepted and freed stays so; after a failed send, and after deletion, nothing is written. */
  lemma {:induction false} HistoryOnlyGrows(states: seq<State>, i: nat, j: nat, c: ClientId)
    requires Run(states) && i <= j < |states| && c in states[i].clients
    ensures c in states[j].clients && Grows(states[i].clients[c], states[j].clients[c])
    decreases j - i
  {
    if i < j {
      HistoryOnlyGrows(states, i, j - 1, c);
      LastStepGrows(states, j, c);
      GrowsFurther(states[i].clients[c], states[j - 1].clients[c], states[j].clients[c]);
    }
  }

  /**
   The wire holds the complete frames of a prefix of the accepted messages and at most one partial frame of the
   next.
   */
  lemma WireIsFramesOfPrefix(states: seq<State>, i: nat, c: ClientId) returns (n: nat)
    requires Run(states) && i < |states| && c in states[i].clients
    ensures var b := states[i].clients[c].box;
            && AllValid(b.accepted) && b.sent <= b.accepted && AllValid(b.sent)
            && n <= |b.wire| && b.wire[..n] == FramesOf(b.sent)
            && (n == |b.wire| || (|b.sent| < |b.accepted| && b.wire[n..] <= b.accepted[|b.sent|].Bytes()))
  {
    BoxesAlways(states, i);
    assert BoxOk(states[i].clients[c].box, states[i].nextMsg);
    n := WireIsPrefix(states[i].clients[c].box);
  }

  lemma SenderGone(s: State, c: ClientId, x: Client)
    requires LifeOf(s, c, x) && !x.alive
    ensures x.box.queue == [] && HasExited(s, Send(c))
  {
  }

  lemma ExitedSenderHasNothing(s: State, w: Thread, l: Local)
    requires WorkersOf(s, w, l) && w.Send? && l.main == Exited
    ensures w.c in s.clients && s.clients[w.c].box.flight.None?
  {
  }

  /** Every message passed to addSendingQueue is in one place; once the client is deleted it has been freed, once. */
  lemma EveryMessageIsFreedOnce(states: seq<State>, i: nat, c: ClientId, m: Msg)
    requires Run(states) && i < |states| && c in states[i].clients && m in states[i].clients[c].box.offered
    ensures var b := states[i].clients[c].box;
            && Count(b.queue, m) + Count(InFlight(b), m) + Count(b.freed, m) == 1
            && (!states[i].clients[c].alive ==> Count(b.freed, m) == 1)
  {
    var s := states[i];
    BoxesAlways(states, i);
    assert BoxOk(s.clients[c].box, s.nextMsg);
    ExactlyOnePlace(s.clients[c].box, m);
    if !s.clients[c].alive {
      InvAlways(states, i);
      InvOfClient(s, c);
      SenderGone(s, c, s.clients[c]);
      InvOfThread(s, Send(c));
      ExitedSenderHasNothing(s, Send(c), s.threads[Send(c)]);
    }
  }
}
