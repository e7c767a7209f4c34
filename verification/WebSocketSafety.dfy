/** What holds in every state of every run of the WebSocket system. */
module WebSocketSafety {
  import opened Basics
  import opened WebSocketSystem
  import opened WebSocketInvariant
  import opened WebSocketSteps
  import opened WebSocketOwners
  import opened WebSocketTeardown

  // ---- The invariant over runs ----

  lemma StepKeeps(s: State, t: Thread, ch: Choice)
    requires Inv(s) && Enabled(s, t, ch)
    ensures Inv(After(s, t, ch))
  {
    var l := s.threads[t];
    if l.add.Some? {
      AddKeeps(s, t);
    } else if l.cast.Some? {
      CastKeeps(s, t);
    } else if SendEnabled(s, t, ch) {
      SendKeeps(s, t, ch);
    } else if RecvEnabled(s, t, ch) {
      RecvKeeps(s, t, ch);
    } else if OwnerEnabled(s, t, ch) {
      OwnerStepKeeps(s, t, ch);
    } else {
      CloseKeeps(s, t, ch);
    }
  }

  lemma NextKeeps(s: State, s': State)
    requires Inv(s) && Next(s, s')
    ensures Inv(s')
  {
    var t, ch :| Enabled(s, t, ch) && s' == After(s, t, ch);
    StepKeeps(s, t, ch);
  }

  lemma {:induction false} InvAlways(states: seq<State>, i: nat)
    requires Run(states) && i < |states|
    ensures Inv(states[i])
  {
    if i == 0 {
      InitHolds(states[0]);
    } else {
      InvAlways(states, i - 1);
      assert Next(states[i - 1], states[i]);
      NextKeeps(states[i - 1], states[i]);
    }
  }

  lemma StepOfRun(states: seq<State>, j: nat)
    requires Run(states) && 0 < j < |states|
    ensures Inv(states[j - 1]) && Next(states[j - 1], states[j])
  {
    InvAlways(states, j - 1);
    assert Next(states[j - 1], states[j]);
  }

  // ---- Clients in the list ----

  lemma PublishedOrErasing(s: State, c: ClientId, x: Client)
    requires LifeOf(s, c, x) && x.published && !x.erased
    ensures x.alive && Recv(c) in s.threads && Send(c) in s.threads
  {
  }

  /** Every client in the list is fully constructed, with both workers started, and not deleted. */
  lemma ListedAreAlive(states: seq<State>, i: nat, c: ClientId)
    requires Run(states) && i < |states| && c in states[i].list
    ensures var s := states[i];
            && c in s.clients && s.clients[c].alive && s.clients[c].published
            && Recv(c) in s.threads && Send(c) in s.threads
  {
    InvAlways(states, i);
    InvOfClient(states[i], c);
    PublishedOrErasing(states[i], c, states[i].clients[c]);
  }

  lemma TouchedIsAlive(s: State, t: Thread, l: Local, c: ClientId)
    requires ThreadOk(s, t, l) && ListOk(s) && Touches(t, l) == Some(c) && l.add.None?
    requires c in s.clients ==> LifeOf(s, c, s.clients[c])
    ensures c in s.clients && s.clients[c].alive
  {
    if l.main.Closing? {
      assert ClosingOf(s, t, l);
    } else if l.main.OpenStartSend? || l.main.OpenPush? {
      assert OpeningOf(s, t, l);
    } else {
      assert WorkersOf(s, t, l);
    }
  }

  /** No thread is about to use a client that has been deleted: neither a worker, nor a broadcast, nor a teardown. */
  lemma NoUseAfterDelete(states: seq<State>, i: nat, t: Thread, c: ClientId)
    requires Run(states) && i < |states| && t in states[i].threads
    requires Touches(t, states[i].threads[t]) == Some(c)
    ensures c in states[i].clients && states[i].clients[c].alive
  {
    var s := states[i];
    InvAlways(states, i);
    InvOfThread(s, t);
    if s.threads[t].add.Some? {
      TargetIsAlive(s, t);
    } else {
      if c in s.clients {
        InvOfClient(s, c);
      }
      TouchedIsAlive(s, t, s.threads[t], c);
    }
  }

  // ---- Teardown ----

  lemma TearingDownIsWinner(s: State, t: Thread, c: ClientId)
    requires Inv(s) && t in s.threads && TearsDown(s.threads[t], c)
    ensures c in s.clients && s.clients[c].winner == Some(t) && s.clients[c].alive
  {
    InvOfThread(s, t);
    WinnerOf(s, t, s.threads[t]);
  }

  lemma WinnerOf(s: State, t: Thread, l: Local)
    requires ClosingOf(s, t, l) && l.main.Closing? && TearsDown(l, l.main.c)
    ensures l.main.c in s.clients && s.clients[l.main.c].winner == Some(t) && s.clients[l.main.c].alive
  {
  }

  /** A client is torn down at most once, and by one thread at a time. */
  lemma TeardownHappensOnce(states: seq<State>, i: nat, c: ClientId, t: Thread, u: Thread)
    requires Run(states) && i < |states| && c in states[i].clients
    ensures states[i].clients[c].teardowns == if states[i].clients[c].alive then 0 else 1
    ensures var s := states[i];
            t in s.threads && TearsDown(s.threads[t], c) && u in s.threads && TearsDown(s.threads[u], c) ==>
              t == u && s.clients[c].alive
  {
    var s := states[i];
    InvAlways(states, i);
    InvOfClient(s, c);
    if t in s.threads && TearsDown(s.threads[t], c) && u in s.threads && TearsDown(s.threads[u], c) {
      TearingDownIsWinner(s, t, c);
      TearingDownIsWinner(s, u, c);
    }
  }

  predicate Freeing(x: Client) {
    x.socketFreed || x.requestFreed || !x.alive
  }

  /** The workers that a teardown has to wait for are gone when it frees anything. */
  lemma FreedAfterJoins(s: State, c: ClientId, w: Thread)
    requires Inv(s) && c in s.clients && Freeing(s.clients[c]) && (w == Send(c) || w == Recv(c))
    ensures w in s.threads && s.clients[c].winner.Some?
    ensures HasExited(s, w) || (s.clients[c].alive && s.clients[c].winner == Some(w))
  {
    InvOfClient(s, c);
    FreedHasWinner(s, c, s.clients[c]);
    if s.clients[c].alive {
      var u := s.clients[c].winner.value;
      InvOfThread(s, u);
      FreedPhase(s, u, s.threads[u], c);
      DoomedInReachable(s, u);
      StartedWorkers(s, c, s.clients[c]);
    }
  }

  lemma FreedHasWinner(s: State, c: ClientId, x: Client)
    requires LifeOf(s, c, x) && Freeing(x)
    ensures x.winner.Some?
    ensures x.alive ==> x.winner.value in s.threads && TearsDown(s.threads[x.winner.value], c)
    ensures !x.alive ==> HasExited(s, Send(c)) && HasExited(s, Recv(c))
  {
  }

  lemma FreedPhase(s: State, u: Thread, l: Local, c: ClientId)
    requires ClosingOf(s, u, l) && TearsDown(l, c) && Freeing(s.clients[c]) && s.clients[c].alive
    ensures Order(l.main.phase) > Order(JoinRecv)
  {
  }

  lemma StartedWorkers(s: State, c: ClientId, x: Client)
    requires LifeOf(s, c, x) && x.published
    ensures Send(c) in s.threads && Recv(c) in s.threads
  {
  }

  /** The socket and the request are freed only after every worker but the one that frees them has exited. */
  lemma FreedOnlyAfterWorkersExit(states: seq<State>, i: nat, c: ClientId, w: Thread)
    requires Run(states) && i < |states| && c in states[i].clients && Freeing(states[i].clients[c])
    requires w == Send(c) || w == Recv(c)
    ensures HasExited(states[i], w) || (states[i].clients[c].alive && states[i].clients[c].winner == Some(w))
  {
    InvAlways(states, i);
    FreedAfterJoins(states[i], c, w);
  }

  /** A worker in its loop reads or writes a socket that is still there. */
  lemma WorkersHaveTheirSocket(states: seq<State>, i: nat, w: Thread)
    requires Run(states) && i < |states| && w in states[i].threads && (w.Send? || w.Recv?)
    requires Looping(states[i].threads[w].main) || states[i].threads[w].main == Ready
    ensures var s := states[i]; w.c in s.clients && !Freeing(s.clients[w.c])
  {
    var s := states[i];
    InvAlways(states, i);
    WorkerIn(s, w);
    if Freeing(s.clients[w.c]) {
      FreedAfterJoins(s, w.c, w);
      TearingDownWorker(s, w);
    }
  }

  /** The winner of a client that is still alive is inside its teardown. */
  lemma TearingDownWorker(s: State, w: Thread)
    requires Inv(s) && w in s.threads && (w.Send? || w.Recv?) && w.c in s.clients
    requires s.clients[w.c].alive && s.clients[w.c].winner == Some(w)
    ensures s.threads[w].main.Closing?
  {
    InvOfClient(s, w.c);
    WinnerTearsDown(s, w.c, s.clients[w.c]);
  }

  lemma WinnerTearsDown(s: State, c: ClientId, x: Client)
    requires LifeOf(s, c, x) && x.alive && x.winner.Some?
    ensures x.winner.value in s.threads && TearsDown(s.threads[x.winner.value], c)
  {
  }

  /** A thread that is joined has been started. */
  lemma JoinedIsStarted(states: seq<State>, i: nat, t: Thread)
    requires Run(states) && i < |states| && t in states[i].threads && states[i].threads[t].main.Closing?
    requires states[i].threads[t].main.phase == JoinSend || states[i].threads[t].main.phase == JoinRecv
    ensures Send(states[i].threads[t].main.c) in states[i].threads
            && Recv(states[i].threads[t].main.c) in states[i].threads
  {
    var s := states[i];
    InvAlways(states, i);
    InvOfThread(s, t);
    var c := s.threads[t].main.c;
    JoiningHasErased(s, t, s.threads[t]);
    InvOfClient(s, c);
    TeardownIsPublished(s, c);
  }

  lemma JoiningHasErased(s: State, t: Thread, l: Local)
    requires ClosingOf(s, t, l) && l.main.Closing? && (l.main.phase == JoinSend || l.main.phase == JoinRecv)
    ensures l.main.c in s.clients && s.clients[l.main.c].erased
  {
  }
}
