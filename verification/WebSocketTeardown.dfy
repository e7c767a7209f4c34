/** The steps of closeWS, closeSend and closeRecv keep the invariant. */
module WebSocketTeardown {
  import opened Basics
  import opened ByteOrder
  import opened SendingQueue
  import opened WebSocketSystem
  import opened WebSocketInvariant
  import opened WebSocketSteps
  import opened WebSocketOwners

  /** A close call on its way through `phase`, with its client. */
  ghost predicate Closes(s: State, t: Thread, c: ClientId, kind: Kind, phase: ClosePhase, todo: seq<ClientId>) {
    match s
    case State(_, _, _, _, _) =>
      && t in s.threads && !Busy(s, t) && s.threads[t] == At(Closing(c, kind, phase, todo))
      && c in s.clients && ThreadOk(s, t, s.threads[t]) && ClientOk(s, c, s.clients[c])
  }

  lemma CloserIn(s: State, t: Thread)
    requires Inv(s) && t in s.threads && !Busy(s, t)
    requires s.threads[t].main.Closing? && s.threads[t].cast.None? && s.threads[t].add.None?
    ensures var m := s.threads[t].main; Closes(s, t, m.c, m.kind, m.phase, m.todo)
  {
    InvOfThread(s, t);
    ClosesAClient(s, t);
    InvOfClient(s, s.threads[t].main.c);
  }

  /** Who a close call is, and what it has done so far. */
  ghost predicate Knows(s: State, t: Thread, c: ClientId, kind: Kind, phase: ClosePhase, todo: seq<ClientId>) {
    match s
    case State(_, _, _, _, _) =>
      && t in s.threads && !Busy(s, t) && s.threads[t] == At(Closing(c, kind, phase, todo))
      && Closer(s, t, c, kind, todo)
      && TeardownAt(t, kind, phase, s.clients[c], HasExited(s, Send(c)), HasExited(s, Recv(c)))
      && LifeOf(s, c, s.clients[c])
  }

  lemma CloserFacts(s: State, t: Thread, c: ClientId, kind: Kind, phase: ClosePhase, todo: seq<ClientId>)
    requires Closes(s, t, c, kind, phase, todo)
    ensures Knows(s, t, c, kind, phase, todo)
  {
    assert Shape(t, s.threads[t]) && ClosingOf(s, t, s.threads[t]);
    assert NestOf(s, t, s.threads[t]) && WorkersOf(s, t, s.threads[t]);
  }

  lemma CloserMutexFacts(s: State, t: Thread, c: ClientId, kind: Kind, phase: ClosePhase, todo: seq<ClientId>)
    requires Closes(s, t, c, kind, phase, todo)
    ensures phase == HoldOnce <==> s.clients[c].onceHolder == Some(t)
    ensures phase == DrainQueue <==> s.clients[c].queueHolder == Some(t)
    ensures phase == Erase <==> s.listHolder == Some(t)
  {
    assert MutexesOf(s, t, s.threads[t]) && HoldersOf(s, c, s.clients[c]);
  }

  predicate Closer(s: State, t: Thread, c: ClientId, kind: Kind, todo: seq<ClientId>) {
    match t
    case Owner(_) => kind == ByOwner && c in s.clients && forall x :: x in todo ==> x in s.clients
    case Send(d) => kind == BySend && d == c && todo == [] && c in s.clients && s.clients[c].box.flight.None?
    case Recv(d) => kind == ByRecv && d == c && todo == [] && c in s.clients
    case Inner(outer) =>
      && kind == ByOwner && c in s.clients && (forall x :: x in todo ==> x in s.clients)
      && outer in s.threads && MayCall(outer, s.threads[outer])
  }

  /** What a close call leaves alone in its client. */
  predicate CloserMoves(t: Thread, x: Client, y: Client) {
    match x
    case Client(_, _, _, _, _, _, _, _, _, _, _, _) =>
      && y.published == x.published && (x.closing ==> y.closing)
      && HolderMoves(t, x.queueHolder, y.queueHolder) && HolderMoves(t, x.onceHolder, y.onceHolder)
      && (y.winner == x.winner || (x.winner.None? && y.winner == Some(t)))
      && (y.box == x.box || (x.queueHolder == Some(t) && x.winner == Some(t) && y.box == Drain(x.box)))
  }

  /** What a close call may change before it deletes its client. */
  predicate StillAlive(t: Thread, x: Client, y: Client) {
    match x
    case Client(_, _, _, _, _, _, _, _, _, _, _, _) =>
      && CloserMoves(t, x, y) && y.alive == x.alive && y.teardowns == x.teardowns && y.erased == x.erased
      && (x.winner != Some(t) ==> y.socketFreed == x.socketFreed && y.requestFreed == x.requestFreed)
  }

  /** The next position of a close call is right for what it has done. */
  predicate CloserArrives(t: Thread, kind: Kind, phase: ClosePhase, y: Client, sendGone: bool, recvGone: bool) {
    match y
    case Client(_, _, _, _, _, _, _, _, _, _, _, _) =>
      && TeardownAt(t, kind, phase, y, sendGone, recvGone) && phase != Erase
      && (phase == HoldOnce <==> y.onceHolder == Some(t))
      && (phase == DrainQueue <==> y.queueHolder == Some(t))
  }

  lemma CloserClientMoves(s: State, t: Thread, c: ClientId, kind: Kind, phase: ClosePhase, todo: seq<ClientId>,
                          y: Client)
    requires Knows(s, t, c, kind, phase, todo) && StillAlive(t, s.clients[c], y)
    requires y.box == s.clients[c].box || phase == DrainQueue
    ensures ClientMoves(s, t, c, s.clients[c], y)
  {
  }

  lemma CloserPlaced(s: State, t: Thread, c: ClientId, kind: Kind, todo: seq<ClientId>, phase: ClosePhase, y: Client)
    requires Closer(s, t, c, kind, todo) && CloserMoves(t, s.clients[c], y)
    requires TeardownAt(t, kind, phase, y, HasExited(s, Send(c)), HasExited(s, Recv(c)))
    requires !HasExited(s, t)
    ensures Placed(Moved(s, t, At(Closing(c, kind, phase, todo)), c, y), t, At(Closing(c, kind, phase, todo)))
  {
    var l' := At(Closing(c, kind, phase, todo));
    CloserWorks(s, t, c, kind, todo, l', y);
    CloserShape(s, t, c, kind, todo, phase);
    CloserCloses(s, t, c, kind, todo, phase, y);
  }

  lemma CloserWorks(s: State, t: Thread, c: ClientId, kind: Kind, todo: seq<ClientId>, l': Local, y: Client)
    requires Closer(s, t, c, kind, todo) && CloserMoves(t, s.clients[c], y)
    requires l'.main.Closing? || l'.main == Exited || l'.main.CloseEach?
    ensures WorkersOf(Moved(s, t, l', c, y), t, l')
  {
  }

  lemma CloserShape(s: State, t: Thread, c: ClientId, kind: Kind, todo: seq<ClientId>, phase: ClosePhase)
    requires Closer(s, t, c, kind, todo)
    ensures Shape(t, At(Closing(c, kind, phase, todo)))
  {
  }

  lemma CloserCloses(s: State, t: Thread, c: ClientId, kind: Kind, todo: seq<ClientId>, phase: ClosePhase, y: Client)
    requires Closer(s, t, c, kind, todo)
    requires TeardownAt(t, kind, phase, y, HasExited(s, Send(c)), HasExited(s, Recv(c)))
    requires !HasExited(s, t)
    ensures ClosingOf(Moved(s, t, At(Closing(c, kind, phase, todo)), c, y), t, At(Closing(c, kind, phase, todo)))
  {
    var r := Moved(s, t, At(Closing(c, kind, phase, todo)), c, y);
    assert HasExited(r, Send(c)) == HasExited(s, Send(c));
    assert HasExited(r, Recv(c)) == HasExited(s, Recv(c));
  }

  lemma CloserMutexes(s: State, t: Thread, c: ClientId, kind: Kind, phase: ClosePhase, todo: seq<ClientId>,
                      next: ClosePhase, y: Client)
    requires s.threads.Keys >= {t} && s.threads[t] == At(Closing(c, kind, phase, todo)) && phase != Erase
             && next != Erase
    requires next == HoldOnce <==> y.onceHolder == Some(t)
    requires next == DrainQueue <==> y.queueHolder == Some(t)
    ensures KeepsMutexes(t, s.threads[t], At(Closing(c, kind, next, todo)), c, y)
    ensures KeepsDuties(s.threads[t], At(Closing(c, kind, next, todo)), c)
  {
  }

  lemma CloserLife(s: State, t: Thread, c: ClientId, l': Local, y: Client)
    requires t in s.threads && c in s.clients && LifeOf(s, c, s.clients[c]) && StillAlive(t, s.clients[c], y)
    requires s.threads[t].main.Closing? && !HasExited(s, t)
    requires y.winner == Some(t) ==> y.alive && TearsDown(l', c)
    requires y.box != s.clients[c].box ==> Send(c) in s.threads
    ensures LifeOf(Moved(s, t, l', c, y), c, y)
  {
  }

  lemma NotErased(s: State, c: ClientId)
    requires ListOk(s) && c in s.clients
    ensures c in s.list ==> !s.clients[c].erased
  {
  }

  lemma TeardownIsPublished(s: State, c: ClientId)
    requires c in s.clients && LifeOf(s, c, s.clients[c]) && s.clients[c].erased
    ensures Send(c) in s.threads
  {
  }

  /** What `ClientStep` asks for. */
  lemma CloserPieces(s: State, t: Thread, c: ClientId, kind: Kind, phase: ClosePhase, todo: seq<ClientId>,
                     next: ClosePhase, y: Client)
    requires Knows(s, t, c, kind, phase, todo) && phase != Erase
    requires StillAlive(t, s.clients[c], y) && (y.box == s.clients[c].box || phase == DrainQueue)
    requires CloserArrives(t, kind, next, y, HasExited(s, Send(c)), HasExited(s, Recv(c)))
    requires y.winner == Some(t) ==> Order(next) >= Order(SetClosing)
    ensures var l' := At(Closing(c, kind, next, todo));
            Placed(Moved(s, t, l', c, y), t, l') && LifeOf(Moved(s, t, l', c, y), c, y)
  {
    CloserPlaced(s, t, c, kind, todo, next, y);
    CloserLives(s, t, c, kind, phase, todo, next, y);
  }

  lemma CloserLives(s: State, t: Thread, c: ClientId, kind: Kind, phase: ClosePhase, todo: seq<ClientId>,
                    next: ClosePhase, y: Client)
    requires Knows(s, t, c, kind, phase, todo)
    requires StillAlive(t, s.clients[c], y) && (y.box == s.clients[c].box || phase == DrainQueue)
    requires CloserArrives(t, kind, next, y, HasExited(s, Send(c)), HasExited(s, Recv(c)))
    requires y.winner == Some(t) ==> Order(next) >= Order(SetClosing)
    ensures LifeOf(Moved(s, t, At(Closing(c, kind, next, todo)), c, y), c, y)
  {
    if phase == DrainQueue {
      TeardownIsPublished(s, c);
    }
    CloserLife(s, t, c, At(Closing(c, kind, next, todo)), y);
  }

  /** A step of a close call that goes on with the next phase, away from the list. */
  /** All that `ClientStep` asks of a step. */
  ghost predicate Changes(s: State, t: Thread, l': Local, c: ClientId, y: Client) {
    match s
    case State(_, _, _, _, _) =>
      && t in s.threads && !Busy(s, t) && c in s.clients && ClientMoves(s, t, c, s.clients[c], y)
      && KeepsMutexes(t, s.threads[t], l', c, y) && KeepsDuties(s.threads[t], l', c)
      && y.published == s.clients[c].published && (c in s.list ==> !y.erased)
      && Placed(Moved(s, t, l', c, y), t, l') && LifeOf(Moved(s, t, l', c, y), c, y)
  }

  lemma ChangesStep(s: State, t: Thread, l': Local, c: ClientId, y: Client)
    requires Inv(s) && Changes(s, t, l', c, y)
    ensures Inv(Moved(s, t, l', c, y))
  {
    ClientStep(s, t, l', c, y);
  }

  lemma CloserChanges(s: State, t: Thread, c: ClientId, kind: Kind, phase: ClosePhase, todo: seq<ClientId>,
                      next: ClosePhase, y: Client)
    requires Knows(s, t, c, kind, phase, todo) && phase != Erase
    requires c in s.list ==> !s.clients[c].erased
    requires StillAlive(t, s.clients[c], y) && (y.box == s.clients[c].box || phase == DrainQueue)
    requires CloserArrives(t, kind, next, y, HasExited(s, Send(c)), HasExited(s, Recv(c)))
    requires y.winner == Some(t) ==> Order(next) >= Order(SetClosing)
    ensures Changes(s, t, At(Closing(c, kind, next, todo)), c, y)
  {
    CloserPieces(s, t, c, kind, phase, todo, next, y);
    CloserClientMoves(s, t, c, kind, phase, todo, y);
    CloserMutexes(s, t, c, kind, phase, todo, next, y);
  }

  lemma CloserStep(s: State, t: Thread, c: ClientId, kind: Kind, phase: ClosePhase, todo: seq<ClientId>,
                   next: ClosePhase, y: Client)
    requires Inv(s) && Knows(s, t, c, kind, phase, todo) && phase != Erase
    requires StillAlive(t, s.clients[c], y) && (y.box == s.clients[c].box || phase == DrainQueue)
    requires CloserArrives(t, kind, next, y, HasExited(s, Send(c)), HasExited(s, Recv(c)))
    requires y.winner == Some(t) ==> Order(next) >= Order(SetClosing)
    ensures Inv(Moved(s, t, At(Closing(c, kind, next, todo)), c, y))
  {
    NotErased(s, c);
    CloserChanges(s, t, c, kind, phase, todo, next, y);
    ChangesStep(s, t, At(Closing(c, kind, next, todo)), c, y);
  }

  /** The phases that a close call simply goes through, one after the other. */
  function NextPhase(phase: ClosePhase): ClosePhase {
    match phase
    case LockOnce => HoldOnce case HoldOnce => SetClosing case SetClosing => LockList case OnClosing => Announce
    case Announce => JoinSend case JoinSend => JoinRecv case JoinRecv => FreeSocket case FreeSocket => FreeRequest
    case FreeRequest => LockQueue case LockQueue => DrainQueue case DrainQueue => DeleteThis
    case _ => phase
  }

  /** What a phase does to the client. */
  function Worked(phase: ClosePhase, t: Thread, x: Client): Client {
    match phase
    case LockOnce => x.(onceHolder := Some(t))
    case HoldOnce => x.(onceHolder := None, winner := Some(t))
    case SetClosing => x.(closing := true)
    case Announce => x.(closing := true, woken := true)
    case FreeSocket => x.(socketFreed := true)
    case FreeRequest => x.(requestFreed := true)
    case LockQueue => x.(queueHolder := Some(t))
    case DrainQueue => x.(box := Drain(x.box), queueHolder := None)
    case _ => x
  }

  predicate GoesThrough(phase: ClosePhase) {
    phase != LockList && phase != Erase && phase != DeleteThis
  }

  /** When a phase can be left for the next one. */
  predicate MayGo(phase: ClosePhase, t: Thread, kind: Kind, x: Client, sendGone: bool, recvGone: bool) {
    match phase
    case LockOnce => x.alive && x.onceHolder.None? && x.winner != Some(t)
    case HoldOnce => x.alive && x.winner.None? && !x.erased && !x.socketFreed && !x.requestFreed
    case JoinSend => kind == BySend || sendGone
    case JoinRecv => kind == ByRecv || recvGone
    case LockQueue => x.queueHolder.None?
    case _ => true
  }

  lemma WorkedMoves(t: Thread, kind: Kind, phase: ClosePhase, x: Client, sendGone: bool, recvGone: bool)
    requires GoesThrough(phase) && TeardownAt(t, kind, phase, x, sendGone, recvGone)
    requires MayGo(phase, t, kind, x, sendGone, recvGone)
    requires phase == HoldOnce <==> x.onceHolder == Some(t)
    requires phase == DrainQueue <==> x.queueHolder == Some(t)
    ensures StillAlive(t, x, Worked(phase, t, x))
    ensures Worked(phase, t, x).box == x.box || phase == DrainQueue
  {
  }

  lemma WorkedArrives(t: Thread, kind: Kind, phase: ClosePhase, x: Client, sendGone: bool, recvGone: bool)
    requires GoesThrough(phase) && TeardownAt(t, kind, phase, x, sendGone, recvGone)
    requires MayGo(phase, t, kind, x, sendGone, recvGone)
    requires phase == HoldOnce <==> x.onceHolder == Some(t)
    requires phase == DrainQueue <==> x.queueHolder == Some(t)
    ensures CloserArrives(t, kind, NextPhase(phase), Worked(phase, t, x), sendGone, recvGone)
    ensures Worked(phase, t, x).winner == Some(t) ==> Order(NextPhase(phase)) >= Order(SetClosing)
  {
  }

  lemma CloserMayGo(s: State, t: Thread, c: ClientId, kind: Kind, phase: ClosePhase, todo: seq<ClientId>)
    requires Closes(s, t, c, kind, phase, todo) && CloseEnabled(s, t, Go)
    requires phase == HoldOnce ==> s.clients[c].winner.None?
    ensures MayGo(phase, t, kind, s.clients[c], HasExited(s, Send(c)), HasExited(s, Recv(c)))
  {
    assert LifeOf(s, c, s.clients[c]);
  }

  lemma GoingOnIsMoved(s: State, t: Thread, c: ClientId, kind: Kind, phase: ClosePhase, todo: seq<ClientId>)
    requires t in s.threads && s.threads[t] == At(Closing(c, kind, phase, todo)) && CloseEnabled(s, t, Go)
    requires GoesThrough(phase) && (phase == HoldOnce ==> s.clients[c].winner.None?)
    ensures CloseAfter(s, t, Go)
            == Moved(s, t, At(Closing(c, kind, NextPhase(phase), todo)), c, Worked(phase, t, s.clients[c]))
  {
    NoClientChange(s, t, At(Closing(c, kind, NextPhase(phase), todo)), c);
  }

  lemma GoingOnKeeps(s: State, t: Thread, c: ClientId, kind: Kind, phase: ClosePhase, todo: seq<ClientId>)
    requires Inv(s) && Closes(s, t, c, kind, phase, todo) && CloseEnabled(s, t, Go)
    requires GoesThrough(phase) && (phase == HoldOnce ==> s.clients[c].winner.None?)
    ensures Inv(CloseAfter(s, t, Go))
  {
    CloserFacts(s, t, c, kind, phase, todo);
    CloserMutexFacts(s, t, c, kind, phase, todo);
    CloserMayGo(s, t, c, kind, phase, todo);
    WorkedMoves(t, kind, phase, s.clients[c], HasExited(s, Send(c)), HasExited(s, Recv(c)));
    WorkedArrives(t, kind, phase, s.clients[c], HasExited(s, Send(c)), HasExited(s, Recv(c)));
    CloserStep(s, t, c, kind, phase, todo, NextPhase(phase), Worked(phase, t, s.clients[c]));
    GoingOnIsMoved(s, t, c, kind, phase, todo);
  }

  // ---- The callback ----

  lemma CallbackPlaced(s: State, t: Thread, c: ClientId, kind: Kind, todo: seq<ClientId>, l': Local)
    requires Knows(s, t, c, kind, OnClosing, todo) && l'.main == s.threads[t].main
    requires (l'.add.None? && l'.cast.Some? && l'.cast.value.CastLock? && |l'.cast.value.content.payload| < Power256(8))
             || (l'.cast.None? && l'.add.Some? && l'.add.value.AddLock? && l'.add.value.c == c
                 && |l'.add.value.content.payload| < Power256(8))
    ensures Placed(With(s, t, l'), t, l')
  {
    assert ClosingOf(s, t, s.threads[t]);
    CallbackCloses(s, With(s, t, l'), t, s.threads[t], l');
    CallbackShape(s, t, c, kind, todo, l');
  }

  lemma CallbackShape(s: State, t: Thread, c: ClientId, kind: Kind, todo: seq<ClientId>, l': Local)
    requires Closer(s, t, c, kind, todo) && l'.main == Closing(c, kind, OnClosing, todo)
    requires (l'.add.None? && l'.cast.Some? && l'.cast.value.CastLock? && |l'.cast.value.content.payload| < Power256(8))
             || (l'.cast.None? && l'.add.Some? && l'.add.value.AddLock? && l'.add.value.c == c
                 && |l'.add.value.content.payload| < Power256(8))
    ensures Shape(t, l') && WorkersOf(With(s, t, l'), t, l')
  {
  }

  lemma CallbackMutexes(s: State, t: Thread, c: ClientId, kind: Kind, todo: seq<ClientId>, l': Local)
    requires t in s.threads && s.threads[t] == At(Closing(c, kind, OnClosing, todo)) && l'.main == s.threads[t].main
    requires (l'.add.None? && l'.cast.Some? && l'.cast.value.CastLock?)
             || (l'.cast.None? && l'.add.Some? && l'.add.value.AddLock?)
    ensures KeepsTeardown(s.threads[t], l') && KeepsClientMutexes(t, s.threads[t], l')
    ensures HoldsList(l') <==> HoldsList(s.threads[t])
  {
  }

  lemma CallbackStartKeeps(s: State, t: Thread, c: ClientId, kind: Kind, todo: seq<ClientId>, ch: Choice)
    requires Inv(s) && Closes(s, t, c, kind, OnClosing, todo) && CloseEnabled(s, t, ch)
    requires ch.StartCast? || ch.StartAdd?
    ensures Inv(CloseAfter(s, t, ch))
  {
    var l' := if ch.StartCast? then s.threads[t].(cast := Some(CastLock(ch.content)))
              else s.threads[t].(add := Some(AddLock(c, ch.content)));
    CloserFacts(s, t, c, kind, OnClosing, todo);
    CallbackPlaced(s, t, c, kind, todo, l');
    CallbackMutexes(s, t, c, kind, todo, l');
    LocalStep(s, t, l');
  }

  // ---- Returning ----

  lemma ReturnPlaced(s: State, t: Thread, c: ClientId, kind: Kind, todo: seq<ClientId>, y: Client)
    requires Closer(s, t, c, kind, todo) && CloserMoves(t, s.clients[c], y)
    ensures Placed(Moved(s, t, At(Return(kind, todo)), c, y), t, At(Return(kind, todo)))
  {
    CloserWorks(s, t, c, kind, todo, At(Return(kind, todo)), y);
  }

  lemma ReturnMutexes(s: State, t: Thread, c: ClientId, kind: Kind, phase: ClosePhase, todo: seq<ClientId>, y: Client)
    requires t in s.threads && s.threads[t] == At(Closing(c, kind, phase, todo)) && phase != Erase
    requires y.onceHolder != Some(t) && y.queueHolder != Some(t)
    ensures KeepsMutexes(t, s.threads[t], At(Return(kind, todo)), c, y)
    ensures KeepsDuties(s.threads[t], At(Return(kind, todo)), c)
  {
  }

  /** The call came second: somebody else tears the client down. */
  lemma LoseKeeps(s: State, t: Thread, c: ClientId, kind: Kind, todo: seq<ClientId>)
    requires Inv(s) && Closes(s, t, c, kind, HoldOnce, todo) && CloseEnabled(s, t, Go) && s.clients[c].winner.Some?
    ensures Inv(CloseAfter(s, t, Go))
  {
    CloserFacts(s, t, c, kind, HoldOnce, todo);
    CloserMutexFacts(s, t, c, kind, HoldOnce, todo);
    NotYetWinner(s, t, c, kind, HoldOnce, todo);
    LoseStep(s, t, c, kind, todo);
    LostIsMoved(s, t, c, kind, todo);
  }

  lemma LostIsMoved(s: State, t: Thread, c: ClientId, kind: Kind, todo: seq<ClientId>)
    requires t in s.threads && s.threads[t] == At(Closing(c, kind, HoldOnce, todo)) && CloseEnabled(s, t, Go)
    requires s.clients[c].winner.Some?
    ensures CloseAfter(s, t, Go) == Moved(s, t, At(Return(kind, todo)), c, s.clients[c].(onceHolder := None))
  {
  }

  lemma LoseStep(s: State, t: Thread, c: ClientId, kind: Kind, todo: seq<ClientId>)
    requires Inv(s) && Knows(s, t, c, kind, HoldOnce, todo)
    requires s.clients[c].onceHolder == Some(t) && s.clients[c].queueHolder != Some(t) && s.clients[c].winner != Some(t)
    ensures Inv(Moved(s, t, At(Return(kind, todo)), c, s.clients[c].(onceHolder := None)))
  {
    var y := s.clients[c].(onceHolder := None);
    LoseMoves(t, s.clients[c]);
    CloserClientMoves(s, t, c, kind, HoldOnce, todo, y);
    ReturnPlaced(s, t, c, kind, todo, y);
    ReturnMutexes(s, t, c, kind, HoldOnce, todo, y);
    CloserLife(s, t, c, At(Return(kind, todo)), y);
    NotErased(s, c);
    ClientStep(s, t, At(Return(kind, todo)), c, y);
  }

  lemma LoseMoves(t: Thread, x: Client)
    requires x.onceHolder == Some(t) && x.winner != Some(t)
    ensures StillAlive(t, x, x.(onceHolder := None))
  {
  }

  lemma NotYetWinner(s: State, t: Thread, c: ClientId, kind: Kind, phase: ClosePhase, todo: seq<ClientId>)
    requires Closes(s, t, c, kind, phase, todo) && s.clients[c].alive && Order(phase) < Order(SetClosing)
    ensures s.clients[c].winner != Some(t)
  {
    assert LifeOf(s, c, s.clients[c]);
  }

  lemma DeleteClient(s: State, t: Thread, c: ClientId, kind: Kind, todo: seq<ClientId>, y: Client)
    requires Knows(s, t, c, kind, DeleteThis, todo)
    requires y == s.clients[c].(alive := false, teardowns := s.clients[c].teardowns + 1)
    ensures ClientMoves(s, t, c, s.clients[c], y) && CloserMoves(t, s.clients[c], y)
    ensures LifeOf(Moved(s, t, At(Return(kind, todo)), c, y), c, y)
  {
    TeardownIsPublished(s, c);
  }

  lemma DeleteKeeps(s: State, t: Thread, c: ClientId, kind: Kind, todo: seq<ClientId>)
    requires Inv(s) && Closes(s, t, c, kind, DeleteThis, todo)
    ensures Inv(CloseAfter(s, t, Go))
  {
    CloserFacts(s, t, c, kind, DeleteThis, todo);
    CloserMutexFacts(s, t, c, kind, DeleteThis, todo);
    DeleteStep(s, t, c, kind, todo);
    DeletedIsMoved(s, t, c, kind, todo);
  }

  lemma DeletedIsMoved(s: State, t: Thread, c: ClientId, kind: Kind, todo: seq<ClientId>)
    requires t in s.threads && s.threads[t] == At(Closing(c, kind, DeleteThis, todo)) && CloseEnabled(s, t, Go)
    ensures CloseAfter(s, t, Go)
            == Moved(s, t, At(Return(kind, todo)), c,
                     s.clients[c].(alive := false, teardowns := s.clients[c].teardowns + 1))
  {
  }

  lemma DeleteStep(s: State, t: Thread, c: ClientId, kind: Kind, todo: seq<ClientId>)
    requires Inv(s) && Knows(s, t, c, kind, DeleteThis, todo)
    requires s.clients[c].onceHolder != Some(t) && s.clients[c].queueHolder != Some(t)
    ensures Inv(Moved(s, t, At(Return(kind, todo)), c,
                      s.clients[c].(alive := false, teardowns := s.clients[c].teardowns + 1)))
  {
    var y := s.clients[c].(alive := false, teardowns := s.clients[c].teardowns + 1);
    DeleteClient(s, t, c, kind, todo, y);
    ReturnPlaced(s, t, c, kind, todo, y);
    ReturnMutexes(s, t, c, kind, DeleteThis, todo, y);
    NotErased(s, c);
    ClientStep(s, t, At(Return(kind, todo)), c, y);
  }

  // ---- removeClient ----

  lemma PlacedIgnoresList(r: State, t: Thread, l: Local, list: seq<ClientId>, holder: Option<Thread>)
    requires Placed(r, t, l) && l.cast.None?
    ensures Placed(r.(list := list, listHolder := holder), t, l)
  {
  }

  lemma LockListPlaced(s: State, t: Thread, c: ClientId, kind: Kind, todo: seq<ClientId>)
    requires Knows(s, t, c, kind, LockList, todo)
    ensures var l' := At(Closing(c, kind, Erase, todo)); Placed(Listed(s, t, l', s.list, Some(t)), t, l')
  {
    var l' := At(Closing(c, kind, Erase, todo));
    CloserPlaced(s, t, c, kind, todo, Erase, s.clients[c]);
    NoClientChange(s, t, l', c);
    PlacedIgnoresList(With(s, t, l'), t, l', s.list, Some(t));
  }

  lemma LockListMoves(s: State, t: Thread, c: ClientId, kind: Kind, todo: seq<ClientId>)
    requires t in s.threads && s.threads[t] == At(Closing(c, kind, LockList, todo))
    requires s.listHolder.None? && ListOk(s)
    ensures var l' := At(Closing(c, kind, Erase, todo));
            && KeepsTeardown(s.threads[t], l') && KeepsClientMutexes(t, s.threads[t], l')
            && ListMoves(s, t, l', s.list, Some(t))
  {
  }

  lemma LockListKeeps(s: State, t: Thread, c: ClientId, kind: Kind, todo: seq<ClientId>)
    requires Inv(s) && Knows(s, t, c, kind, LockList, todo) && s.listHolder.None?
    ensures Inv(CloseAfter(s, t, Go))
  {
    LockListPlaced(s, t, c, kind, todo);
    LockListMoves(s, t, c, kind, todo);
    ListStep(s, t, At(Closing(c, kind, Erase, todo)), s.list, Some(t));
  }

  /** `CloseAfter` of the step that erases the client from the list. */
  function Erased(s: State, t: Thread, c: ClientId, kind: Kind, todo: seq<ClientId>): State
    requires c in s.clients
  {
    Moved(s, t, At(Closing(c, kind, OnClosing, todo)), c, s.clients[c].(erased := true))
    .(list := Minus(s.list, c), listHolder := None)
  }

  lemma ErasedStep(s: State, t: Thread, c: ClientId, kind: Kind, todo: seq<ClientId>)
    requires Knows(s, t, c, kind, Erase, todo) && s.listHolder == Some(t)
    ensures StepOf(s, Erased(s, t, c, kind, todo), t, c) && Steady(s, Erased(s, t, c, kind, todo), t, c)
  {
    ErasedMoves(s, t, c, kind, todo);
    ErasedSteady(s, t, c, kind, todo);
  }

  lemma ErasedMoves(s: State, t: Thread, c: ClientId, kind: Kind, todo: seq<ClientId>)
    requires Knows(s, t, c, kind, Erase, todo)
    ensures ClientMoves(s, t, c, s.clients[c], s.clients[c].(erased := true))
  {
  }

  lemma ErasedSteady(s: State, t: Thread, c: ClientId, kind: Kind, todo: seq<ClientId>)
    requires t in s.threads && s.threads[t] == At(Closing(c, kind, Erase, todo)) && c in s.clients
    ensures Steady(s, Erased(s, t, c, kind, todo), t, c)
  {
  }

  lemma ErasedPlaced(s: State, t: Thread, c: ClientId, kind: Kind, todo: seq<ClientId>)
    requires Knows(s, t, c, kind, Erase, todo)
    ensures Placed(Erased(s, t, c, kind, todo), t, At(Closing(c, kind, OnClosing, todo)))
  {
    var y := s.clients[c].(erased := true);
    var l' := At(Closing(c, kind, OnClosing, todo));
    assert TeardownAt(t, kind, OnClosing, y, HasExited(s, Send(c)), HasExited(s, Recv(c)));
    CloserPlaced(s, t, c, kind, todo, OnClosing, y);
    PlacedIgnoresList(Moved(s, t, l', c, y), t, l', Minus(s.list, c), None);
  }

  lemma ErasedMutexes(s: State, t: Thread, c: ClientId, kind: Kind, todo: seq<ClientId>)
    requires c in s.clients
    ensures MutexesOf(Erased(s, t, c, kind, todo), t, At(Closing(c, kind, OnClosing, todo)))
  {
  }

  lemma ErasedLife(s: State, t: Thread, c: ClientId, kind: Kind, todo: seq<ClientId>)
    requires Knows(s, t, c, kind, Erase, todo) && c !in Minus(s.list, c) && s.clients[c].published
    ensures LifeOf(Erased(s, t, c, kind, todo), c, s.clients[c].(erased := true))
  {
  }

  /** The list mutex is taken, so no opening is going on in another thread. */
  lemma ErasingIsPublished(s: State, t: Thread, c: ClientId, kind: Kind, todo: seq<ClientId>)
    requires Knows(s, t, c, kind, Erase, todo) && s.listHolder == Some(t)
    ensures s.clients[c].published
  {
  }

  lemma ErasedHolders(s: State, t: Thread, c: ClientId, kind: Kind, todo: seq<ClientId>)
    requires t in s.threads && s.threads[t] == At(Closing(c, kind, Erase, todo)) && c in s.clients
    requires HoldersOf(s, c, s.clients[c])
    ensures HoldersOf(Erased(s, t, c, kind, todo), c, s.clients[c].(erased := true))
  {
  }

  lemma ErasedList(s: State, t: Thread, c: ClientId, kind: Kind, todo: seq<ClientId>)
    requires ListOk(s) && c in s.clients
    ensures ListOk(Erased(s, t, c, kind, todo))
  {
    MinusKeeps(s.list, c);
  }

  lemma EraseKeeps(s: State, t: Thread, c: ClientId, kind: Kind, todo: seq<ClientId>)
    requires Inv(s) && Closes(s, t, c, kind, Erase, todo)
    ensures Inv(CloseAfter(s, t, Go))
  {
    CloserFacts(s, t, c, kind, Erase, todo);
    CloserMutexFacts(s, t, c, kind, Erase, todo);
    HoldersKnown(s, c);
    EraseStep(s, t, c, kind, todo);
    ErasedIsNext(s, t, c, kind, todo);
  }

  lemma ErasedIsNext(s: State, t: Thread, c: ClientId, kind: Kind, todo: seq<ClientId>)
    requires t in s.threads && c in s.clients && s.threads[t] == At(Closing(c, kind, Erase, todo))
    ensures CloseEnabled(s, t, Go) && CloseAfter(s, t, Go) == Erased(s, t, c, kind, todo)
  {
  }

  lemma EraseStep(s: State, t: Thread, c: ClientId, kind: Kind, todo: seq<ClientId>)
    requires Inv(s) && Knows(s, t, c, kind, Erase, todo) && s.listHolder == Some(t) && HoldersOf(s, c, s.clients[c])
    ensures Inv(Erased(s, t, c, kind, todo))
  {
    ErasingIsPublished(s, t, c, kind, todo);
    MinusKeeps(s.list, c);
    ErasedStep(s, t, c, kind, todo);
    ErasedPlaced(s, t, c, kind, todo);
    ErasedMutexes(s, t, c, kind, todo);
    ErasedLife(s, t, c, kind, todo);
    ErasedHolders(s, t, c, kind, todo);
    ErasedList(s, t, c, kind, todo);
    Assemble(s, Erased(s, t, c, kind, todo), t, c);
  }

  lemma CloseKeeps(s: State, t: Thread, ch: Choice)
    requires Inv(s) && t in s.threads && !Busy(s, t)
    requires s.threads[t].cast.None? && s.threads[t].add.None? && CloseEnabled(s, t, ch)
    ensures Inv(CloseAfter(s, t, ch))
  {
    CloserIn(s, t);
    var Closing(c, kind, phase, todo) := s.threads[t].main;
    if ch.Detach? || ch.CloseOne? {
      CallKeeps(s, t, c, ch);
    } else if ch != Go {
      CallbackStartKeeps(s, t, c, kind, todo, ch);
    } else {
      match phase
      case LockList =>
        CloserFacts(s, t, c, kind, LockList, todo);
        LockListKeeps(s, t, c, kind, todo);
      case Erase => EraseKeeps(s, t, c, kind, todo);
      case DeleteThis => DeleteKeeps(s, t, c, kind, todo);
      case HoldOnce =>
        if s.clients[c].winner.Some? {
          LoseKeeps(s, t, c, kind, todo);
        } else {
          GoingOnKeeps(s, t, c, kind, phase, todo);
        }
      case _ => GoingOnKeeps(s, t, c, kind, phase, todo);
    }
  }
}
