/** What holds in every state that the WebSocket system can reach. */
module WebSocketInvariant {
  import opened Basics
  import opened ByteOrder
  import opened WebSocketSystem

  // ---- Mutexes, as the position of a thread tells ----

  predicate HoldsList(l: Local) {
    || (l.cast.Some? && l.cast.value.CastHeld?)
    || (match l.main
        case OpenAsk => true case OpenStartSend(_) => true case OpenPush(_) => true
        case DetachHeld(_) => true
        case Closing(_, _, phase, _) => phase == Erase
        case _ => false)
  }

  function HoldsQueue(t: Thread, l: Local): Option<ClientId> {
    if l.add.Some? then (if l.add.value.AddHeld? then Some(l.add.value.c) else None)
    else
      match l.main
      case SendCheck => if t.Send? then Some(t.c) else None
      case SendSleep => if t.Send? then Some(t.c) else None
      case SendBranch => if t.Send? then Some(t.c) else None
      case SendDrain => if t.Send? then Some(t.c) else None
      case Closing(c, _, phase, _) => if phase == DrainQueue then Some(c) else None
      case _ => None
  }

  function HoldsOnce(l: Local): Option<ClientId> {
    match l.main
    case Closing(c, _, phase, _) => if phase == HoldOnce then Some(c) else None
    case _ => None
  }

  // ---- One thread by itself ----

  predicate Looping(m: Main) {
    || m == SendLock || m == SendCheck || m == SendSleep || m == SendWaiting
    || m == SendBranch || m == SendDrain || m == SendTransmit
  }

  predicate InCallback(l: Local) {
    l.main == Ready || (l.main.Closing? && l.main.phase == OnClosing)
  }

  /** The client that a callback of this thread was called for. */
  function CallbackOf(t: Thread, l: Local): Option<ClientId> {
    if l.main.Closing? then Some(l.main.c) else if t.Recv? then Some(t.c) else None
  }

  predicate Shape(t: Thread, l: Local) {
    match l
    case Local(_, _, _) =>
      && (match t
          case Send(c) =>
            || Looping(l.main) || l.main == Exited
            || (l.main.Closing? && l.main.c == c && l.main.kind == BySend && l.main.todo == [])
          case Recv(c) =>
            || l.main == Ready || l.main == Exited
            || (l.main.Closing? && l.main.c == c && l.main.kind == ByRecv && l.main.todo == [])
          case Owner(_) =>
            !Looping(l.main) && l.main != Exited && (l.main.Closing? ==> l.main.kind == ByOwner)
          case Inner(_) =>
            && (l.main == Ready || l.main.DetachLock? || l.main.DetachHeld? || l.main.CloseEach?
                || (l.main.Closing? && l.main.kind == ByOwner))
            && (l.main == Ready ==> l.cast.None?))
      && (l.cast.Some? || l.add.Some? ==> InCallback(l))
      && (l.add.Some? && l.cast.None? ==> CallbackOf(t, l) == Some(l.add.value.c))
      && (l.add.Some? && l.cast.Some? ==> l.cast.value.CastHeld?)
      && (l.add.Some? && !l.add.value.AddNotify? ==> |l.add.value.content.payload| < Power256(8))
      && (l.cast.Some? ==> |l.cast.value.content.payload| < Power256(8))
  }

  // ---- A thread and the shared state ----

  predicate MutexesOf(s: State, t: Thread, l: Local) {
    match l
    case Local(_, _, _) =>
      && (HoldsList(l) <==> s.listHolder == Some(t))
      && (HoldsQueue(t, l).Some? ==>
            HoldsQueue(t, l).value in s.clients && s.clients[HoldsQueue(t, l).value].queueHolder == Some(t))
      && (HoldsOnce(l).Some? ==>
            HoldsOnce(l).value in s.clients && s.clients[HoldsOnce(l).value].onceHolder == Some(t))
  }

  predicate CallsOf(s: State, t: Thread, l: Local) {
    match l
    case Local(_, _, _) =>
      && (l.cast.Some? && l.cast.value.CastHeld? ==> forall x :: x in l.cast.value.todo ==> x in s.list)
      && (l.add.Some? && l.cast.Some? ==> l.add.value.c in s.list)
  }

  predicate OpeningOf(s: State, t: Thread, l: Local) {
    match l.main
    case OpenStartSend(c) =>
      c in s.clients && !s.clients[c].published && Recv(c) in s.threads && Send(c) !in s.threads
    case OpenPush(c) =>
      c in s.clients && !s.clients[c].published && Recv(c) in s.threads && Send(c) in s.threads
    case _ => true
  }

  /** What a close call of thread `t` has done to its client when it stands at `phase`. */
  predicate TeardownAt(t: Thread, kind: Kind, phase: ClosePhase, x: Client, sendGone: bool, recvGone: bool) {
    match x
    case Client(_, _, _, _, _, _, _, _, _, _, _, _) =>
      && (kind != ByOwner ==> x.alive)
      && (Order(phase) >= Order(SetClosing) ==>
            && x.alive && x.winner == Some(t)
            && (Order(phase) > Order(Erase) <==> x.erased)
            && (Order(phase) > Order(FreeSocket) <==> x.socketFreed)
            && (Order(phase) > Order(FreeRequest) <==> x.requestFreed)
            && (Order(phase) > Order(SetClosing) ==> x.closing)
            && (Order(phase) > Order(JoinSend) ==> kind == BySend || sendGone)
            && (Order(phase) > Order(JoinRecv) ==> kind == ByRecv || recvGone)
            && (phase == DeleteThis ==> x.box.queue == []))
  }

  predicate ClosingOf(s: State, t: Thread, l: Local) {
    match l
    case Local(_, _, _) =>
      && (l.main.CloseEach? ==> forall x :: x in l.main.todo ==> x in s.clients)
      && (l.main.Closing? ==>
            var Closing(c, kind, phase, todo) := l.main;
            && c in s.clients && (forall x :: x in todo ==> x in s.clients)
            && TeardownAt(t, kind, phase, s.clients[c], HasExited(s, Send(c)), HasExited(s, Recv(c))))
  }

  /** The thread is in a callback made for a client, and does nothing there by itself. */
  predicate MayCall(t: Thread, l: Local) {
    CallbackOf(t, l).Some? && InCallback(l) && l.cast.None? && l.add.None?
  }

  /** A close call inside of a callback: the thread that made it is in that callback. */
  predicate NestOf(s: State, t: Thread, l: Local) {
    match t
    case Inner(outer) => outer in s.threads && (l.main != Ready ==> MayCall(outer, s.threads[outer]))
    case _ => true
  }

  predicate WorkersOf(s: State, t: Thread, l: Local) {
    match t
    case Send(c) =>
      && c in s.clients
      && var x := s.clients[c];
         && (x.box.flight.Some? <==> l.main == SendTransmit)
         && (Looping(l.main) ==> x.alive && x.box.failed.None? && x.box.drained == [])
         && (l.main == SendSleep ==> x.box.queue == [])
         && (l.main == SendBranch ==> x.closing || x.box.queue != [])
         && (l.main == SendDrain ==> x.closing)
    case Recv(c) => c in s.clients && (l.main == Ready ==> s.clients[c].alive)
    case _ => true
  }

  predicate ThreadOk(s: State, t: Thread, l: Local) {
    match l
    case Local(_, _, _) =>
      && Shape(t, l) && MutexesOf(s, t, l) && CallsOf(s, t, l) && OpeningOf(s, t, l)
      && ClosingOf(s, t, l) && NestOf(s, t, l) && WorkersOf(s, t, l)
  }

  // ---- A client ----

  predicate Opens(l: Local, c: ClientId) {
    l.main == OpenStartSend(c) || l.main == OpenPush(c)
  }

  predicate TearsDown(l: Local, c: ClientId) {
    l.main.Closing? && l.main.c == c && Order(l.main.phase) >= Order(SetClosing)
  }

  predicate LifeOf(s: State, c: ClientId, x: Client) {
    match x
    case Client(_, _, _, _, _, _, _, _, _, _, _, _) =>
      && Recv(c) in s.threads
      && (if x.published then Send(c) in s.threads
          else
            && !x.erased && s.listHolder.Some?
            && s.listHolder.value in s.threads && Opens(s.threads[s.listHolder.value], c))
      && (x.erased ==> x.published && c !in s.list)
      && (Send(c) !in s.threads ==> x.box.flight.None? && x.box.failed.None? && x.box.drained == [])
      && (x.winner.None? ==> x.alive && !x.erased && !x.socketFreed && !x.requestFreed)
      && (x.winner.Some? && x.alive ==> x.winner.value in s.threads && TearsDown(s.threads[x.winner.value], c))
      && x.teardowns == (if x.alive then 0 else 1)
      && (!x.alive ==>
            && x.erased && x.socketFreed && x.requestFreed && x.box.queue == []
            && HasExited(s, Send(c)) && HasExited(s, Recv(c)))
  }

  predicate HoldersOf(s: State, c: ClientId, x: Client) {
    match x
    case Client(_, _, _, _, _, _, _, _, _, _, _, _) =>
      && (x.queueHolder.Some? ==>
            && x.queueHolder.value in s.threads
            && HoldsQueue(x.queueHolder.value, s.threads[x.queueHolder.value]) == Some(c))
      && (x.onceHolder.Some? ==>
            x.onceHolder.value in s.threads && HoldsOnce(s.threads[x.onceHolder.value]) == Some(c))
  }

  predicate ClientOk(s: State, c: ClientId, x: Client) {
    match x
    case Client(_, _, _, _, _, _, _, _, _, _, _, _) =>
      LifeOf(s, c, x) && HoldersOf(s, c, x)
  }

  // ---- The list ----

  predicate NoDuplicates(list: seq<ClientId>) {
    forall i, j :: 0 <= i < j < |list| ==> list[i] != list[j]
  }

  predicate ListOk(s: State) {
    && NoDuplicates(s.list)
    && (forall c :: c in s.list ==> c in s.clients && s.clients[c].published && !s.clients[c].erased)
    && (s.listHolder.Some? ==> s.listHolder.value in s.threads)
  }

  predicate Inv(s: State) {
    && (forall t {:trigger ThreadOk(s, t, s.threads[t])} :: t in s.threads ==> ThreadOk(s, t, s.threads[t]))
    && (forall c {:trigger ClientOk(s, c, s.clients[c])} :: c in s.clients ==> ClientOk(s, c, s.clients[c]))
    && ListOk(s)
  }

  lemma InitHolds(s: State)
    requires Init(s)
    ensures Inv(s)
  {
  }

  // ---- What a step of one thread leaves to the others ----

  /** How the step of thread `t` may change a mutex holder. */
  predicate HolderMoves(t: Thread, before: Option<Thread>, after: Option<Thread>) {
    after == before || ((before.None? || before == Some(t)) && (after.None? || after == Some(t)))
  }

  /** How the step of thread `t` may change a client. */
  predicate ClientMoves(s: State, t: Thread, c: ClientId, x: Client, y: Client) {
    match x
    case Client(_, _, _, _, _, _, _, _, _, _, _, _) =>
      && HolderMoves(t, x.queueHolder, y.queueHolder) && HolderMoves(t, x.onceHolder, y.onceHolder)
      && (x.closing ==> y.closing)
      && (y.published != x.published ==> y.published && s.listHolder == Some(t))
      && (y.winner == x.winner || (x.winner.None? && y.winner == Some(t)))
      && (x.winner != Some(t) ==>
            && y.alive == x.alive && y.erased == x.erased
            && y.socketFreed == x.socketFreed && y.requestFreed == x.requestFreed)
      && (y.alive != x.alive ==> (t == Send(c) || HasExited(s, Send(c))) && (t == Recv(c) || HasExited(s, Recv(c))))
      && (y.box.queue != x.box.queue ==> x.queueHolder == Some(t))
      && (t != Send(c) ==>
            && y.box.flight == x.box.flight && y.box.failed == x.box.failed
            && (y.box.drained != x.box.drained ==> HasExited(s, Send(c))))
  }

  /** The step of thread `t` from `s` to `r` changes at most the client `c0` and creates at most its workers. */
  predicate StepOf(s: State, r: State, t: Thread, c0: ClientId) {
    match s
    case State(_, _, _, _, _) =>
      && t in s.threads && t in r.threads && !HasExited(s, t) && !Busy(s, t)
      && (forall u :: u in s.threads && u != t ==> u in r.threads && r.threads[u] == s.threads[u])
      && (forall u :: u in r.threads && u !in s.threads ==>
            u == Inner(t) || (s.listHolder == Some(t) && (u == Recv(c0) || u == Send(c0))))
      && (forall c :: c in s.clients && c != c0 ==> c in r.clients && r.clients[c] == s.clients[c])
      && (forall c :: c in r.clients ==> c in s.clients || c == c0)
      && (c0 in s.clients ==> c0 in r.clients && ClientMoves(s, t, c0, s.clients[c0], r.clients[c0]))
      && HolderMoves(t, s.listHolder, r.listHolder)
      && (r.list != s.list ==> s.listHolder == Some(t))
      && (forall c :: c in r.list ==> c in s.list || c == c0)
      && s.nextMsg <= r.nextMsg
  }

  lemma SameClientMoves(s: State, t: Thread, c: ClientId, x: Client)
    ensures ClientMoves(s, t, c, x, x)
  {
  }

  lemma StepOnClient(s: State, r: State, t: Thread, c0: ClientId, c: ClientId)
    requires StepOf(s, r, t, c0) && c in s.clients
    ensures c in r.clients && ClientMoves(s, t, c, s.clients[c], r.clients[c])
  {
    if c != c0 {
      SameClientMoves(s, t, c, s.clients[c]);
    }
  }

  lemma ExitLasts(s: State, r: State, t: Thread, c0: ClientId, u: Thread)
    requires StepOf(s, r, t, c0) && HasExited(s, u)
    ensures HasExited(r, u)
  {
  }

  lemma MutexesStay(s: State, r: State, t: Thread, c0: ClientId, u: Thread, l: Local)
    requires StepOf(s, r, t, c0) && u != t && MutexesOf(s, u, l)
    ensures MutexesOf(r, u, l)
  {
    if HoldsQueue(u, l).Some? {
      StepOnClient(s, r, t, c0, HoldsQueue(u, l).value);
    }
    if HoldsOnce(l).Some? {
      StepOnClient(s, r, t, c0, HoldsOnce(l).value);
    }
  }

  lemma CallsStay(s: State, r: State, t: Thread, c0: ClientId, u: Thread, l: Local)
    requires StepOf(s, r, t, c0) && u != t && Shape(u, l) && MutexesOf(s, u, l) && CallsOf(s, u, l)
    ensures CallsOf(r, u, l)
  {
  }

  lemma OpeningStays(s: State, r: State, t: Thread, c0: ClientId, u: Thread, l: Local)
    requires StepOf(s, r, t, c0) && u != t && MutexesOf(s, u, l) && OpeningOf(s, u, l)
    ensures OpeningOf(r, u, l)
  {
    match l.main
    case OpenStartSend(c) => StepOnClient(s, r, t, c0, c);
    case OpenPush(c) => StepOnClient(s, r, t, c0, c);
    case _ =>
  }

  lemma ClosingStays(s: State, r: State, t: Thread, c0: ClientId, u: Thread, l: Local)
    requires StepOf(s, r, t, c0) && u in s.threads && u != t && l == s.threads[u]
    requires Shape(u, l) && ClosingOf(s, u, l)
    requires l.main.Closing? && l.main.phase == DeleteThis ==> s.clients[l.main.c].queueHolder != Some(t)
    ensures ClosingOf(r, u, l)
  {
    if l.main.Closing? {
      var c := l.main.c;
      StepOnClient(s, r, t, c0, c);
      if HasExited(s, Send(c)) {
        ExitLasts(s, r, t, c0, Send(c));
      }
      if HasExited(s, Recv(c)) {
        ExitLasts(s, r, t, c0, Recv(c));
      }
    }
  }

  lemma WorkersStay(s: State, r: State, t: Thread, c0: ClientId, u: Thread, l: Local)
    requires StepOf(s, r, t, c0) && u in s.threads && u != t && l == s.threads[u]
    requires Shape(u, l) && MutexesOf(s, u, l) && WorkersOf(s, u, l)
    ensures WorkersOf(r, u, l)
  {
    if u.Send? || u.Recv? {
      StepOnClient(s, r, t, c0, u.c);
    }
  }

  lemma NestStays(s: State, r: State, t: Thread, c0: ClientId, u: Thread, l: Local)
    requires StepOf(s, r, t, c0) && u in s.threads && u != t && l == s.threads[u] && NestOf(s, u, l)
    ensures NestOf(r, u, l)
  {
  }

  /** A thread that acts by itself does so where its caller has left it. */
  lemma OwnNestStays(s: State, r: State, t: Thread, l: Local, l': Local)
    requires NestOf(s, t, l) && (t.Inner? && l'.main != Ready ==> l.main != Ready)
    requires forall u :: u in s.threads && u != t ==> u in r.threads && r.threads[u] == s.threads[u]
    ensures NestOf(r, t, l')
  {
  }

  /** Only a callback can be in a call. */
  lemma NotBusy(s: State, t: Thread)
    requires Inv(s) && t in s.threads && !MayCall(t, s.threads[t])
    ensures !Busy(s, t)
  {
    if Inner(t) in s.threads {
      InvOfThread(s, Inner(t));
    }
  }

  /** The step does not let go of anything that thread `t` has to do with clients other than `c0`. */
  predicate Steady(s: State, r: State, t: Thread, c0: ClientId)
    requires t in s.threads && t in r.threads
  {
    var l, l' := s.threads[t], r.threads[t];
    && (HoldsQueue(t, l).Some? && HoldsQueue(t, l).value != c0 ==> HoldsQueue(t, l') == HoldsQueue(t, l))
    && (HoldsOnce(l).Some? && HoldsOnce(l).value != c0 ==> HoldsOnce(l') == HoldsOnce(l))
    && (l.main.Closing? && TearsDown(l, l.main.c) && l.main.c != c0 ==> TearsDown(l', l.main.c))
    && (l.main.OpenStartSend? || l.main.OpenPush? ==> l.main.c == c0)
  }

  lemma LifeStays(s: State, r: State, t: Thread, c0: ClientId, c: ClientId)
    requires StepOf(s, r, t, c0) && Steady(s, r, t, c0) && c in s.clients && c != c0
    requires LifeOf(s, c, s.clients[c])
    ensures LifeOf(r, c, r.clients[c])
  {
    var x := s.clients[c];
    if HasExited(s, Send(c)) {
      ExitLasts(s, r, t, c0, Send(c));
    }
    if HasExited(s, Recv(c)) {
      ExitLasts(s, r, t, c0, Recv(c));
    }
  }

  lemma HoldersStay(s: State, r: State, t: Thread, c0: ClientId, c: ClientId)
    requires StepOf(s, r, t, c0) && Steady(s, r, t, c0) && c in s.clients && c != c0
    requires HoldersOf(s, c, s.clients[c])
    ensures HoldersOf(r, c, r.clients[c])
  {
  }

  /** The client that the next step of a thread reads or writes, other than to find out that it lost closeOnce. */
  function Touches(t: Thread, l: Local): Option<ClientId> {
    if l.add.Some? then Some(l.add.value.c)
    else if l.cast.Some? then None
    else
      match l.main
      case Ready => if t.Recv? then Some(t.c) else None
      case Closing(c, kind, phase, _) => if kind != ByOwner || Order(phase) >= Order(SetClosing) then Some(c) else None
      case OpenStartSend(c) => Some(c)
      case OpenPush(c) => Some(c)
      case _ => if t.Send? && Looping(l.main) then Some(t.c) else None
  }

  /** A teardown by `u` that has joined the workers. */
  predicate Doomed(s: State, c: ClientId, u: Thread) {
    match s
    case State(_, _, _, _, _) =>
      && c in s.clients && c !in s.list && s.clients[c].published && s.clients[c].winner == Some(u)
      && (u == Send(c) || HasExited(s, Send(c))) && (u == Recv(c) || HasExited(s, Recv(c)))
  }

  lemma IsDoomed(s: State, c: ClientId, u: Thread)
    requires c in s.clients && ClientOk(s, c, s.clients[c])
    requires u in s.threads && ThreadOk(s, u, s.threads[u])
    requires s.threads[u].main.Closing? && s.threads[u].main.c == c
    requires Order(s.threads[u].main.phase) > Order(JoinRecv)
    ensures Doomed(s, c, u)
  {
    JoinedIsDoomed(s, c, u, s.threads[u]);
  }

  lemma JoinedIsDoomed(s: State, c: ClientId, u: Thread, l: Local)
    requires c in s.clients && LifeOf(s, c, s.clients[c]) && Shape(u, l) && ClosingOf(s, u, l)
    requires l.main.Closing? && l.main.c == c && Order(l.main.phase) > Order(JoinRecv)
    ensures Doomed(s, c, u)
  {
    JoinedBoth(u, l.main.kind, l.main.phase, s.clients[c], HasExited(s, Send(c)), HasExited(s, Recv(c)));
    ErasedIsUnlisted(s, c, s.clients[c]);
    KindOfWorker(u, l);
  }

  lemma JoinedBoth(u: Thread, kind: Kind, phase: ClosePhase, x: Client, sendGone: bool, recvGone: bool)
    requires TeardownAt(u, kind, phase, x, sendGone, recvGone) && Order(phase) > Order(JoinRecv)
    ensures x.winner == Some(u) && x.erased && (kind == BySend || sendGone) && (kind == ByRecv || recvGone)
  {
  }

  lemma ErasedIsUnlisted(s: State, c: ClientId, x: Client)
    requires LifeOf(s, c, x) && x.erased
    ensures x.published && c !in s.list
  {
  }

  lemma KindOfWorker(u: Thread, l: Local)
    requires Shape(u, l) && l.main.Closing?
    ensures l.main.kind == BySend ==> u == Send(l.main.c)
    ensures l.main.kind == ByRecv ==> u == Recv(l.main.c)
  {
  }

  /** Once a teardown has joined the workers, no other thread has anything to do with the client. */
  lemma OnlyTheWinner(s: State, c: ClientId, u: Thread, t: Thread, l: Local)
    requires Doomed(s, c, u) && t in s.threads && l == s.threads[t] && t != u && ThreadOk(s, t, l)
    ensures Touches(t, l) != Some(c) && HoldsQueue(t, l) != Some(c)
  {
    assert Shape(t, l) && CallsOf(s, t, l) && ClosingOf(s, t, l) && OpeningOf(s, t, l);
    if l.add.Some? {
    } else if l.main.Closing? {
    } else {
    }
  }

  lemma NotTheHolder(s: State, c: ClientId, u: Thread, t: Thread)
    requires Doomed(s, c, u) && t in s.threads && t != u && ThreadOk(s, t, s.threads[t])
    requires HoldersOf(s, c, s.clients[c])
    ensures s.clients[c].queueHolder != Some(t)
  {
    OnlyTheWinner(s, c, u, t, s.threads[t]);
  }

  lemma InvOfThread(s: State, t: Thread)
    requires Inv(s) && t in s.threads
    ensures ThreadOk(s, t, s.threads[t])
  {
    assert ThreadOk(s, t, s.threads[t]);
  }

  lemma InvOfClient(s: State, c: ClientId)
    requires Inv(s) && c in s.clients
    ensures ClientOk(s, c, s.clients[c])
  {
    assert ClientOk(s, c, s.clients[c]);
  }

  /** All that a step has to establish about the thread that takes it and the client that it is about. */
  ghost predicate GoodStep(s: State, r: State, t: Thread, c0: ClientId) {
    && StepOf(s, r, t, c0) && Steady(s, r, t, c0)
    && ThreadOk(r, t, r.threads[t])
    && (forall u :: u in r.threads && u !in s.threads ==> ThreadOk(r, u, r.threads[u]))
    && (c0 in r.clients ==> ClientOk(r, c0, r.clients[c0]))
    && ListOk(r)
  }

  lemma ClosesAClient(s: State, u: Thread)
    requires u in s.threads && ThreadOk(s, u, s.threads[u]) && s.threads[u].main.Closing?
    ensures s.threads[u].main.c in s.clients
  {
  }

  lemma DoomedInReachable(s: State, u: Thread)
    requires Inv(s) && u in s.threads
    requires s.threads[u].main.Closing? && Order(s.threads[u].main.phase) > Order(JoinRecv)
    ensures Doomed(s, s.threads[u].main.c, u)
  {
    InvOfThread(s, u);
    ClosesAClient(s, u);
    IsDoomed(s, s.threads[u].main.c, u);
  }

  lemma HoldersKnown(s: State, c: ClientId)
    requires Inv(s) && c in s.clients
    ensures HoldersOf(s, c, s.clients[c])
  {
    InvOfClient(s, c);
  }

  lemma NobodyHoldsTheQueue(s: State, u: Thread, t: Thread)
    requires Inv(s) && u in s.threads && t in s.threads && t != u
    requires s.threads[u].main.Closing? && s.threads[u].main.phase == DeleteThis
    ensures s.threads[u].main.c in s.clients && s.clients[s.threads[u].main.c].queueHolder != Some(t)
  {
    DoomedInReachable(s, u);
    assert s.threads[u].main.c in s.clients;
    HoldersKnown(s, s.threads[u].main.c);
    InvOfThread(s, t);
    NotTheHolder(s, s.threads[u].main.c, u, t);
  }

  lemma OtherThread(s: State, r: State, t: Thread, c0: ClientId, u: Thread)
    requires Inv(s) && StepOf(s, r, t, c0) && u in s.threads && u != t
    ensures ThreadOk(r, u, r.threads[u])
  {
    InvOfThread(s, u);
    if s.threads[u].main.Closing? && s.threads[u].main.phase == DeleteThis {
      NobodyHoldsTheQueue(s, u, t);
    }
    ThreadStays(s, r, t, c0, u, s.threads[u]);
  }

  lemma ThreadStays(s: State, r: State, t: Thread, c0: ClientId, u: Thread, l: Local)
    requires StepOf(s, r, t, c0) && u in s.threads && u != t && l == s.threads[u] && ThreadOk(s, u, l)
    requires l.main.Closing? && l.main.phase == DeleteThis ==> s.clients[l.main.c].queueHolder != Some(t)
    ensures ThreadOk(r, u, l)
  {
    MutexesStay(s, r, t, c0, u, l);
    CallsStay(s, r, t, c0, u, l);
    OpeningStays(s, r, t, c0, u, l);
    WorkersStay(s, r, t, c0, u, l);
    NestStays(s, r, t, c0, u, l);
    ClosingStays(s, r, t, c0, u, l);
  }

  lemma OtherClient(s: State, r: State, t: Thread, c0: ClientId, c: ClientId)
    requires Inv(s) && StepOf(s, r, t, c0) && Steady(s, r, t, c0) && c in s.clients && c != c0
    ensures ClientOk(r, c, r.clients[c])
  {
    assert ClientOk(s, c, s.clients[c]);
    LifeStays(s, r, t, c0, c);
    HoldersStay(s, r, t, c0, c);
  }

  lemma Assemble(s: State, r: State, t: Thread, c0: ClientId)
    requires Inv(s) && GoodStep(s, r, t, c0)
    ensures Inv(r)
  {
    forall u | u in r.threads ensures ThreadOk(r, u, r.threads[u]) {
      if u in s.threads && u != t {
        OtherThread(s, r, t, c0, u);
      }
    }
    forall c | c in r.clients ensures ClientOk(r, c, r.clients[c]) {
      if c != c0 {
        OtherClient(s, r, t, c0, c);
      }
    }
  }
}
