/**
 Notifications of the sending thread: one for a message always comes, one for a close call may come too early,
 and then no other one follows.
 */
module WebSocketWakeups {
  import opened Basics
  import opened WebSocketSystem
  import opened WebSocketInvariant
  import opened WebSocketSteps
  import opened WebSocketSafety
  import opened WebSocketWaits
  import opened WebSocketCallbacks
  import opened WebSocketClosings

  // ---- Messages ----

  /** A thread is about to notify the sending thread of client `c`. */
  predicate Notifies(l: Local, c: ClientId) {
    l.add == Some(AddNotify(c))
  }

  ghost predicate SomeoneNotifies(s: State, c: ClientId) {
    exists u :: u in s.threads && Notifies(s.threads[u], c)
  }

  /** A sending thread does not sleep while its queue has a message, unless somebody is about to notify it. */
  ghost predicate Noticed(s: State, c: ClientId) {
    c in s.clients && Asleep(s, Send(c)) && s.clients[c].box.queue != [] ==> SomeoneNotifies(s, c)
  }

  ghost predicate AllNoticed(s: State) {
    forall c :: Noticed(s, c)
  }

  predicate Announces(l: Local, c: ClientId) {
    l.main.Closing? && l.main.c == c && l.main.phase == Announce
  }

  /** What the step of thread `t` may do to the queue of client `c` and to the notification of its sending thread. */
  predicate Effect(s: State, r: State, t: Thread, c: ClientId)
    requires t in s.threads && t in r.threads
  {
    match s
    case State(_, _, clients, _, _) =>
      if c !in clients then c in r.clients ==> r.clients[c].box.queue == []
      else
        && c in r.clients
        && (clients[c].woken && !r.clients[c].woken ==> t == Send(c))
        && (!clients[c].woken && r.clients[c].woken ==> Notifies(s.threads[t], c) || Announces(s.threads[t], c))
        && (Notifies(s.threads[t], c) ==> r.clients[c].woken)
        && (clients[c].box.queue == [] && r.clients[c].box.queue != [] ==> Notifies(r.threads[t], c))
  }

  predicate SameWait(x: Client, y: Client) {
    y.woken == x.woken && (x.box.queue == [] ==> y.box.queue == [])
  }

  lemma SameClientEffect(s: State, r: State, t: Thread, c: ClientId)
    requires t in s.threads && t in r.threads && s.threads[t].add.None?
    requires c in r.clients <==> c in s.clients
    requires c in s.clients ==> SameWait(s.clients[c], r.clients[c])
    ensures Effect(s, r, t, c)
  {
  }

  lemma AddEffect(s: State, t: Thread, c: ClientId)
    requires t in s.threads && s.threads[t].add.Some? && AddEnabled(s, t)
    ensures t in AddAfter(s, t).threads && Effect(s, AddAfter(s, t), t, c)
  {
  }

  lemma SendEffect(s: State, t: Thread, ch: Choice, c: ClientId)
    requires t in s.threads && SendEnabled(s, t, ch) && s.threads[t].add.None?
    ensures t in SendAfter(s, t, ch).threads && Effect(s, SendAfter(s, t, ch), t, c)
  {
    var r := SendAfter(s, t, ch);
    if c != t.c {
      SameClientEffect(s, r, t, c);
    }
  }

  lemma RecvEffect(s: State, t: Thread, ch: Choice, c: ClientId)
    requires t in s.threads && RecvEnabled(s, t, ch) && s.threads[t].add.None?
    ensures t in RecvAfter(s, t, ch).threads && Effect(s, RecvAfter(s, t, ch), t, c)
  {
    SameClientEffect(s, RecvAfter(s, t, ch), t, c);
  }

  lemma OwnerEffect(s: State, t: Thread, ch: Choice, c: ClientId)
    requires t in s.threads && OwnerEnabled(s, t, ch) && s.threads[t].add.None?
    ensures t in OwnerAfter(s, t, ch).threads && Effect(s, OwnerAfter(s, t, ch), t, c)
  {
  }

  lemma CloseEffect(s: State, t: Thread, ch: Choice, c: ClientId)
    requires t in s.threads && CloseEnabled(s, t, ch) && s.threads[t].add.None?
    ensures t in CloseAfter(s, t, ch).threads && Effect(s, CloseAfter(s, t, ch), t, c)
  {
    if s.threads[t].main.phase != Announce {
      CalmCloser(s, t, ch, c);
      SameClientEffect(s, CloseAfter(s, t, ch), t, c);
    }
  }

  lemma CalmCloser(s: State, t: Thread, ch: Choice, c: ClientId)
    requires t in s.threads && CloseEnabled(s, t, ch) && s.threads[t].main.phase != Announce
    ensures var r := CloseAfter(s, t, ch);
            && (c in r.clients <==> c in s.clients)
            && (c in s.clients ==> SameWait(s.clients[c], r.clients[c]))
  {
    var c0, r := s.threads[t].main.c, CloseAfter(s, t, ch);
    if s.threads[t].main.phase == OnClosing {
      CallbackIsCalm(s, t, ch);
    } else {
      CalmPhase(s, t, ch);
      OneWaits(s, r, c, c0, r.clients[c0]);
    }
  }

  lemma CallbackIsCalm(s: State, t: Thread, ch: Choice)
    requires t in s.threads && CloseEnabled(s, t, ch) && s.threads[t].main.phase == OnClosing
    ensures CloseAfter(s, t, ch).clients == s.clients
  {
  }

  lemma CalmPhase(s: State, t: Thread, ch: Choice)
    requires t in s.threads && CloseEnabled(s, t, ch)
    requires s.threads[t].main.phase != Announce && s.threads[t].main.phase != OnClosing
    ensures var c0, r := s.threads[t].main.c, CloseAfter(s, t, ch);
            c0 in r.clients && r.clients == s.clients[c0 := r.clients[c0]] && SameWait(s.clients[c0], r.clients[c0])
  {
  }

  lemma OneWaits(s: State, r: State, c: ClientId, c0: ClientId, x: Client)
    requires c0 in s.clients && r.clients == s.clients[c0 := x] && SameWait(s.clients[c0], x)
    ensures (c in r.clients <==> c in s.clients) && (c in s.clients ==> SameWait(s.clients[c], r.clients[c]))
  {
  }

  lemma EachEffect(s: State, t: Thread, ch: Choice, c: ClientId)
    requires Enabled(s, t, ch)
    ensures t in After(s, t, ch).threads && Effect(s, After(s, t, ch), t, c)
  {
    var l := s.threads[t];
    if l.add.Some? {
      AddEffect(s, t, c);
    } else if l.cast.Some? {
      SameClientEffect(s, CastAfter(s, t), t, c);
    } else if SendEnabled(s, t, ch) {
      SendEffect(s, t, ch, c);
    } else if RecvEnabled(s, t, ch) {
      RecvEffect(s, t, ch, c);
    } else if OwnerEnabled(s, t, ch) {
      OwnerEffect(s, t, ch, c);
    } else {
      CloseEffect(s, t, ch, c);
    }
  }

  /** A thread that is about to notify stays so until it has; it is in no call that another thread waits for. */
  lemma NotifierStays(s: State, t: Thread, ch: Choice, u: Thread, c: ClientId)
    requires Inv(s) && Enabled(s, t, ch) && u in s.threads && u != t && Notifies(s.threads[u], c)
    ensures u in After(s, t, ch).threads && After(s, t, ch).threads[u] == s.threads[u]
  {
    EachTurn(s, t, ch);
    InvOfThread(s, u);
    NotifierIsOut(u, s.threads[u]);
  }

  lemma NotifierIsOut(u: Thread, l: Local)
    requires Shape(u, l) && l.add.Some?
    ensures u.Inner? ==> l.main != Ready
  {
  }

  /** The sending thread of `c` sleeps after a step of another thread only if it did before. */
  lemma SleeperSlept(s: State, t: Thread, ch: Choice, c: ClientId)
    requires Inv(s) && Enabled(s, t, ch) && Asleep(After(s, t, ch), Send(c)) && t != Send(c)
    ensures Send(c) in s.threads && s.threads[Send(c)].main == SendWaiting && c in s.clients
  {
    EachTurn(s, t, ch);
    if Send(c) in s.threads {
      InvOfThread(s, Send(c));
      assert WorkersOf(s, Send(c), s.threads[Send(c)]);
    } else {
      StartedAtLock(s, t, ch, c);
    }
  }

  lemma StartedAtLock(s: State, t: Thread, ch: Choice, c: ClientId)
    requires Enabled(s, t, ch) && Send(c) !in s.threads && Send(c) in After(s, t, ch).threads
    ensures After(s, t, ch).threads[Send(c)].main == SendLock
  {
    if s.threads[t].add.Some? || s.threads[t].cast.Some? {
      CallbackStartsNobody(s, t, ch, c);
    } else if SendEnabled(s, t, ch) {
      SenderStartsNobody(s, t, ch, c);
    } else if RecvEnabled(s, t, ch) {
    } else if OwnerEnabled(s, t, ch) {
      OwnerStarts(s, t, ch, c);
    } else {
      CloserStartsNobody(s, t, ch, c);
    }
  }

  lemma CallbackStartsNobody(s: State, t: Thread, ch: Choice, c: ClientId)
    requires Enabled(s, t, ch) && (s.threads[t].add.Some? || s.threads[t].cast.Some?) && Send(c) !in s.threads
    ensures Send(c) !in After(s, t, ch).threads
  {
  }

  lemma SenderStartsNobody(s: State, t: Thread, ch: Choice, c: ClientId)
    requires t in s.threads && SendEnabled(s, t, ch) && Send(c) !in s.threads
    ensures Send(c) !in SendAfter(s, t, ch).threads
  {
  }

  lemma CloserStartsNobody(s: State, t: Thread, ch: Choice, c: ClientId)
    requires t in s.threads && CloseEnabled(s, t, ch) && Send(c) !in s.threads
    ensures Send(c) !in CloseAfter(s, t, ch).threads
  {
  }

  lemma OwnerStarts(s: State, t: Thread, ch: Choice, c: ClientId)
    requires t in s.threads && OwnerEnabled(s, t, ch) && Send(c) !in s.threads
    ensures Send(c) in OwnerAfter(s, t, ch).threads ==> OwnerAfter(s, t, ch).threads[Send(c)].main == SendLock
  {
  }

  /** A sending thread goes to sleep with an empty queue. */
  lemma FallsAsleep(s: State, c: ClientId, ch: Choice)
    requires Inv(s) && Enabled(s, Send(c), ch)
    ensures var r := After(s, Send(c), ch); Asleep(r, Send(c)) ==> r.clients[c].box.queue == []
  {
    var t := Send(c);
    InvOfThread(s, t);
    if s.threads[t].add.Some? || s.threads[t].cast.Some? {
      CallbackTurn(s, t, ch);
      CallbackMain(s, t, s.threads[t]);
    } else if SendEnabled(s, t, ch) {
      SenderAlone(s, t, s.threads[t]);
      FallsAsleepEmpty(s, c, ch);
    } else {
      CloserStaysAwake(s, t, ch);
    }
  }

  lemma CloserStaysAwake(s: State, t: Thread, ch: Choice)
    requires t in s.threads && CloseEnabled(s, t, ch)
    ensures t in CloseAfter(s, t, ch).threads && CloseAfter(s, t, ch).threads[t].main != SendWaiting
  {
  }

  lemma FallsAsleepEmpty(s: State, c: ClientId, ch: Choice)
    requires Send(c) in s.threads && SendEnabled(s, Send(c), ch)
    requires s.threads[Send(c)].main == SendSleep ==> s.clients[c].box.queue == []
    ensures var r := SendAfter(s, Send(c), ch); Asleep(r, Send(c)) ==> r.clients[c].box.queue == []
  {
  }

  lemma SenderAlone(s: State, t: Thread, l: Local)
    requires ThreadOk(s, t, l) && t.Send?
    ensures l.main == SendSleep ==> t.c in s.clients && s.clients[t.c].box.queue == []
  {
  }

  lemma StepNoticed(s: State, t: Thread, ch: Choice, c: ClientId)
    requires Inv(s) && Noticed(s, c) && Enabled(s, t, ch)
    ensures Noticed(After(s, t, ch), c)
  {
    var r := After(s, t, ch);
    if c in r.clients && Asleep(r, Send(c)) && r.clients[c].box.queue != [] {
      if t == Send(c) {
        FallsAsleep(s, c, ch);
      } else {
        SleeperSlept(s, t, ch, c);
        EachEffect(s, t, ch, c);
        if s.clients[c].box.queue == [] {
          assert Notifies(r.threads[t], c);
        } else {
          var u :| u in s.threads && Notifies(s.threads[u], c);
          NotifierStays(s, t, ch, u, c);
          assert Notifies(r.threads[u], c);
        }
      }
    }
  }

  lemma NextNoticed(s: State, s': State)
    requires Inv(s) && AllNoticed(s) && Next(s, s')
    ensures AllNoticed(s')
  {
    var t, ch :| Enabled(s, t, ch) && s' == After(s, t, ch);
    forall c ensures Noticed(s', c) {
      StepNoticed(s, t, ch, c);
    }
  }

  /**
   No message is forgotten: in every reachable state a sending thread that sleeps while its queue has a message is
   about to be notified, by a thread that can take that step.
   */
  lemma {:induction false} MessageIsNoticed(states: seq<State>, i: nat, c: ClientId)
    requires Run(states) && i < |states|
    ensures var s := states[i];
            c in s.clients && Asleep(s, Send(c)) && s.clients[c].box.queue != [] ==>
              exists u :: u in s.threads && Notifies(s.threads[u], c) && Moves(s, u)
  {
    InvAlways(states, i);
    NoticedAlways(states, i);
    var s := states[i];
    assert Noticed(s, c);
    if c in s.clients && Asleep(s, Send(c)) && s.clients[c].box.queue != [] {
      var u :| u in s.threads && Notifies(s.threads[u], c);
      TargetIsAlive(s, u);
      assert Enabled(s, u, Go);
      assert Moves(s, u);
    }
  }

  lemma {:induction false} NoticedAlways(states: seq<State>, i: nat)
    requires Run(states) && i < |states|
    ensures AllNoticed(states[i])
  {
    if i > 0 {
      NoticedAlways(states, i - 1);
      InvAlways(states, i - 1);
      assert Next(states[i - 1], states[i]);
      NextNoticed(states[i - 1], states[i]);
    }
  }

  // ---- Closing ----

  /**
   Thread `u` joins the sending thread of `c`, which sleeps and was not notified; the receiving thread is gone, or
   is `u`.
   */
  predicate Missed(s: State, c: ClientId, u: Thread) {
    match s
    case State(_, _, _, threads, _) =>
      && Asleep(s, Send(c)) && u in threads && NeedOf(u, threads[u]) == TheExit(Send(c))
      && (HasExited(s, Recv(c)) || u == Recv(c))
  }

  lemma MissedPosition(u: Thread, l: Local, c: ClientId)
    requires NeedOf(u, l) == TheExit(Send(c)) && Shape(u, l)
    ensures l.main.Closing? && l.main.c == c && (l.main.phase == JoinSend || l.main.phase == JoinRecv)
    ensures l.add.None? && l.cast.None? && TearsDown(l, c) && u != Send(c)
  {
  }

  /** Nobody is left to notify the sending thread. */
  lemma NobodyNotifies(s: State, c: ClientId, u: Thread, t: Thread)
    requires Inv(s) && Missed(s, c, u) && t in s.threads
    ensures !Notifies(s.threads[t], c) && !Announces(s.threads[t], c)
  {
    InvOfThread(s, u);
    InvOfThread(s, t);
    MissedPosition(u, s.threads[u], c);
    TearingDownIsWinner(s, u, c);
    JoiningHasErased(s, u, s.threads[u]);
    InvOfClient(s, c);
    if t == u {
    } else {
      NoOtherCloser(s, c, u, t, s.threads[t]);
    }
  }

  lemma NoOtherCloser(s: State, c: ClientId, u: Thread, t: Thread, l: Local)
    requires ThreadOk(s, t, l) && t != u && c in s.clients && s.clients[c].winner == Some(u)
    requires LifeOf(s, c, s.clients[c]) && s.clients[c].erased
    requires t == Recv(c) ==> HasExited(s, t) && l == s.threads[t]
    ensures !Notifies(l, c) && !Announces(l, c)
  {
    assert Shape(t, l) && CallsOf(s, t, l) && ClosingOf(s, t, l);
  }

  /** The sending thread of `c` ends its wait by itself. */
  ghost predicate WakesByItself(s: State, s': State, c: ClientId) {
    Enabled(s, Send(c), Spurious) && s' == After(s, Send(c), Spurious)
  }

  lemma SleeperWaits(s: State, c: ClientId, ch: Choice)
    requires Inv(s) && Asleep(s, Send(c)) && Enabled(s, Send(c), ch)
    ensures ch == Spurious
  {
    InvOfThread(s, Send(c));
    StillShape(s, Send(c), s.threads[Send(c)]);
  }

  lemma JoinerWaits(s: State, c: ClientId, u: Thread, ch: Choice)
    requires Inv(s) && Missed(s, c, u)
    ensures !Enabled(s, u, ch)
  {
    InvOfThread(s, u);
    MissedPosition(u, s.threads[u], c);
    WaitingBlocks(s, u, ch);
  }

  /** Whoever steps is neither the sleeper nor one that waits for it, nor inside of a call of one. */
  lemma MissedStays(s: State, t: Thread, ch: Choice, c: ClientId, u: Thread)
    requires Inv(s) && Missed(s, c, u) && Enabled(s, t, ch) && t != Send(c)
    ensures Missed(After(s, t, ch), c, u)
  {
    var r := After(s, t, ch);
    EachTurn(s, t, ch);
    EachEffect(s, t, ch, c);
    NobodyNotifies(s, c, u, t);
    JoinerWaits(s, c, u, ch);
    JoinerIsOut(s, c, u);
    if HasExited(s, Recv(c)) {
      ExitedWaits(s, Recv(c), ch);
    }
  }

  lemma ExitedWaits(s: State, w: Thread, ch: Choice)
    requires Inv(s) && HasExited(s, w)
    ensures !Enabled(s, w, ch)
  {
    InvOfThread(s, w);
    StillShape(s, w, s.threads[w]);
  }

  lemma JoinerIsOut(s: State, c: ClientId, u: Thread)
    requires Inv(s) && Missed(s, c, u)
    ensures u.Inner? ==> Busy(s, u.outer)
  {
    InvOfThread(s, u);
    MissedPosition(u, s.threads[u], c);
  }

  lemma NextMissed(s: State, s': State, c: ClientId, u: Thread)
    requires Inv(s) && Missed(s, c, u) && Next(s, s') && !WakesByItself(s, s', c)
    ensures Missed(s', c, u)
  {
    var t, ch :| Enabled(s, t, ch) && s' == After(s, t, ch);
    if t == Send(c) {
      SleeperWaits(s, c, ch);
    } else {
      MissedStays(s, t, ch, c, u);
    }
  }

  /** Unless the wait ends by itself, who joins such a sending thread joins it forever. */
  lemma {:induction false} MissedForever(states: seq<State>, i: nat, j: nat, c: ClientId, u: Thread)
    requires Run(states) && i <= j < |states| && Missed(states[i], c, u)
    requires forall k, l {:trigger WakesByItself(states[k], states[l], c)} ::
               i <= k && l == k + 1 <= j ==> !WakesByItself(states[k], states[l], c)
    ensures Missed(states[j], c, u) && Stuck(states[j], u)
    decreases j - i
  {
    if i < j {
      MissedForever(states, i, j - 1, c, u);
      InvAlways(states, j - 1);
      assert Next(states[j - 1], states[j]) && !WakesByItself(states[j - 1], states[j], c);
      NextMissed(states[j - 1], states[j], c, u);
    }
    MissedIsStuck(states, j, c, u);
  }

  lemma MissedIsStuck(states: seq<State>, i: nat, c: ClientId, u: Thread)
    requires Run(states) && i < |states| && Missed(states[i], c, u)
    ensures Stuck(states[i], u)
  {
    var s := states[i];
    InvAlways(states, i);
    JoinerWaitsFor(s, c, u);
    SleeperEnds(s, c, u);
    assert Chain(s, [u, Send(c)]);
    LeadsTo(s, [u, Send(c)], 1);
    ReasonIsStuck(states, i, u, Send(c));
  }

  lemma JoinerWaitsFor(s: State, c: ClientId, u: Thread)
    requires Inv(s) && Missed(s, c, u)
    ensures WaitsFor(s, u) == Some(Send(c))
  {
    InvOfThread(s, u);
    MissedPosition(u, s.threads[u], c);
    NotBusy(s, u);
  }

  lemma SleeperEnds(s: State, c: ClientId, u: Thread)
    requires Inv(s) && Missed(s, c, u)
    ensures DeadEnd(s, Send(c))
  {
    SenderIn(s, Send(c));
  }

  // ---- When a notification is missed ----

  /** The sending thread is about to sleep, or sleeps without having been notified. */
  predicate Drowsy(s: State, c: ClientId) {
    match s
    case State(_, _, _, threads, _) =>
      Asleep(s, Send(c)) || (Send(c) in threads && threads[Send(c)].main == SendSleep)
  }

  predicate IsClosing(s: State, c: ClientId) {
    c in s.clients && s.clients[c].closing
  }

  lemma OwnDrowsy(s: State, c: ClientId, ch: Choice)
    requires Send(c) in s.threads && SendEnabled(s, Send(c), ch) && IsClosing(s, c)
    requires Drowsy(SendAfter(s, Send(c), ch), c)
    ensures Drowsy(s, c)
  {
  }

  lemma SenderDrowsy(s: State, c: ClientId, ch: Choice)
    requires Inv(s) && Enabled(s, Send(c), ch) && IsClosing(s, c) && Drowsy(After(s, Send(c), ch), c)
    ensures Drowsy(s, c)
  {
    var t := Send(c);
    InvOfThread(s, t);
    if s.threads[t].add.Some? || s.threads[t].cast.Some? {
      CallbackTurn(s, t, ch);
      CallbackMain(s, t, s.threads[t]);
    } else if SendEnabled(s, t, ch) {
      OwnDrowsy(s, c, ch);
    } else {
      CloserStaysAwake(s, t, ch);
      CloserIsNotDrowsy(s, t, ch);
    }
  }

  lemma CloserIsNotDrowsy(s: State, t: Thread, ch: Choice)
    requires t in s.threads && CloseEnabled(s, t, ch)
    ensures t in CloseAfter(s, t, ch).threads && CloseAfter(s, t, ch).threads[t].main != SendSleep
  {
  }

  lemma StepDrowsy(s: State, t: Thread, ch: Choice, c: ClientId)
    requires Inv(s) && Enabled(s, t, ch) && IsClosing(s, c) && Drowsy(After(s, t, ch), c)
    ensures Drowsy(s, c)
  {
    if t == Send(c) {
      SenderDrowsy(s, c, ch);
    } else {
      EachTurn(s, t, ch);
      EachEffect(s, t, ch, c);
      if Send(c) !in s.threads {
        StartedAtLock(s, t, ch, c);
      }
    }
  }

  lemma StepClosing(s: State, t: Thread, ch: Choice, c: ClientId)
    requires Enabled(s, t, ch) && IsClosing(s, c)
    ensures IsClosing(After(s, t, ch), c)
  {
    EachStays(s, t, ch);
  }

  lemma NextDrowsy(s: State, s': State, c: ClientId)
    requires Inv(s) && Next(s, s') && IsClosing(s, c)
    ensures IsClosing(s', c) && (Drowsy(s', c) ==> Drowsy(s, c))
  {
    var t, ch :| Enabled(s, t, ch) && s' == After(s, t, ch);
    StepClosing(s, t, ch, c);
    if Drowsy(s', c) {
      StepDrowsy(s, t, ch, c);
    }
  }

  lemma {:induction false} DrowsySince(states: seq<State>, i: nat, j: nat, c: ClientId)
    requires Run(states) && i <= j < |states| && IsClosing(states[i], c) && Drowsy(states[j], c)
    ensures Drowsy(states[i], c)
    decreases j - i
  {
    if i < j {
      StepOfRun(states, i + 1);
      NextDrowsy(states[i], states[i + 1], c);
      DrowsySince(states, i + 1, j, c);
    }
  }

  /** The step that announces the closing is the one of the thread that closes. */
  lemma AnnouncingStep(s: State, u: Thread, ch: Choice, t: Thread, c: ClientId, kind: Kind)
    requires Inv(s) && Enabled(s, u, ch)
    requires AtPhase(s, t, c, kind, Announce) && !AtPhase(After(s, u, ch), t, c, kind, Announce)
    ensures u == t && IsClosing(After(s, u, ch), c) && After(s, u, ch).clients[c].woken
  {
    EachTurn(s, u, ch);
    InvOfThread(s, t);
    AnnouncerIsCalm(t, s.threads[t]);
    if u == t {
      AnnouncesAndWakes(s, t, ch);
    }
  }

  lemma AnnouncerIsCalm(t: Thread, l: Local)
    requires Shape(t, l) && l.main.Closing? && l.main.phase == Announce
    ensures l.add.None? && l.cast.None? && (t.Inner? ==> l.main != Ready)
  {
  }

  lemma AnnouncesAndWakes(s: State, t: Thread, ch: Choice)
    requires Enabled(s, t, ch) && s.threads[t].main.Closing? && s.threads[t].main.phase == Announce
    requires s.threads[t].add.None? && s.threads[t].cast.None?
    ensures var c, r := s.threads[t].main.c, After(s, t, ch); IsClosing(r, c) && r.clients[c].woken
  {
  }

  lemma AnnouncedDrowsy(s: State, s': State, t: Thread, c: ClientId, kind: Kind)
    requires Inv(s) && Next(s, s') && AtPhase(s, t, c, kind, Announce) && AtPhase(s', t, c, kind, JoinSend)
    requires Drowsy(s', c)
    ensures IsClosing(s', c) && t != Send(c) && Send(c) in s.threads && s.threads[Send(c)].main == SendSleep
  {
    var u, ch :| Enabled(s, u, ch) && s' == After(s, u, ch);
    AnnouncingStep(s, u, ch, t, c, kind);
    EachTurn(s, u, ch);
    if Send(c) !in s.threads {
      StartedAtLock(s, u, ch, c);
    }
  }

  lemma NextAnnounced(s: State, s': State, t: Thread, c: ClientId, kind: Kind)
    requires Inv(s) && Next(s, s') && AtPhase(s, t, c, kind, Announce) && AtPhase(s', t, c, kind, JoinSend)
    ensures IsClosing(s', c)
  {
    var u, ch :| Enabled(s, u, ch) && s' == After(s, u, ch);
    AnnouncingStep(s, u, ch, t, c, kind);
  }

  lemma ClosingAnnounced(states: seq<State>, j: nat, t: Thread, c: ClientId, kind: Kind)
    requires Run(states) && j + 1 < |states|
    requires AtPhase(states[j], t, c, kind, Announce) && AtPhase(states[j + 1], t, c, kind, JoinSend)
    ensures IsClosing(states[j + 1], c)
  {
    StepOfRun(states, j + 1);
    NextAnnounced(states[j], states[j + 1], t, c, kind);
  }

  lemma SleptThrough(states: seq<State>, j: nat, k: nat, t: Thread, c: ClientId, kind: Kind)
    requires Run(states) && j < k < |states| && Asleep(states[k], Send(c))
    requires AtPhase(states[j], t, c, kind, Announce) && AtPhase(states[j + 1], t, c, kind, JoinSend)
    ensures Send(c) in states[j].threads && states[j].threads[Send(c)].main == SendSleep
  {
    ClosingAnnounced(states, j, t, c, kind);
    DrowsySince(states, j + 1, k, c);
    StepOfRun(states, j + 1);
    AnnouncedDrowsy(states[j], states[j + 1], t, c, kind);
  }

  /**
   A notification is missed at one place only: if the sending thread sleeps while its close call joins it, then at the
   step that announced the closing it had found its queue empty and `closing` not set, and not yet begun to wait.
   */
  lemma MissedOnlyBetween(states: seq<State>, k: nat, c: ClientId, t: Thread, kind: Kind) returns (j: nat)
    requires Run(states) && k < |states| && AtPhase(states[k], t, c, kind, JoinSend) && Asleep(states[k], Send(c))
    ensures j < k && AtPhase(states[j], t, c, kind, Announce) && AtPhase(states[j + 1], t, c, kind, JoinSend)
    ensures Send(c) in states[j].threads && states[j].threads[Send(c)].main == SendSleep
  {
    j := NoPhaseIsSkipped(states, k, t, c, kind, JoinSend);
    assert AtPhase(states[j + 1], t, c, kind, JoinSend);
    SleptThrough(states, j, k, t, c, kind);
  }
}
