/** Every step of every thread keeps the invariant. */
module WebSocketSteps {
  import opened Basics
  import opened ByteOrder
  import opened SendingQueue
  import opened WebSocketSystem
  import opened WebSocketInvariant

  // ---- Steps by what they change ----

  /** The state after a step that moves thread `t` to `l` and turns client `c` into `y`. */
  function Moved(s: State, t: Thread, l: Local, c: ClientId, y: Client): State {
    With(WithClient(s, c, y), t, l)
  }

  /** What the position `l` of a thread must say about the parts that it does not depend on mutexes for. */
  ghost predicate Placed(r: State, t: Thread, l: Local) {
    match l
    case Local(_, _, _) =>
      && Shape(t, l) && CallsOf(r, t, l) && OpeningOf(r, t, l)
      && ClosingOf(r, t, l) && NestOf(r, t, l) && WorkersOf(r, t, l)
  }

  /** The mutexes of client `c` that thread `t` holds are those that its position `l` says. */
  predicate KeepsMutexes(t: Thread, l: Local, l': Local, c: ClientId, y: Client) {
    match y
    case Client(_, _, _, _, _, _, _, _, _, _, _, _) =>
      && (HoldsList(l') <==> HoldsList(l))
      && (HoldsQueue(t, l').Some? && HoldsQueue(t, l').value != c ==> HoldsQueue(t, l') == HoldsQueue(t, l))
      && (HoldsQueue(t, l).Some? && HoldsQueue(t, l).value != c ==> HoldsQueue(t, l') == HoldsQueue(t, l))
      && (HoldsOnce(l').Some? && HoldsOnce(l').value != c ==> HoldsOnce(l') == HoldsOnce(l))
      && (HoldsOnce(l).Some? && HoldsOnce(l).value != c ==> HoldsOnce(l') == HoldsOnce(l))
      && (HoldsQueue(t, l') == Some(c) <==> y.queueHolder == Some(t))
      && (HoldsOnce(l') == Some(c) <==> y.onceHolder == Some(t))
  }

  /** The step goes on with the teardown or the opening that the thread is in. */
  predicate KeepsDuties(l: Local, l': Local, c: ClientId) {
    match l
    case Local(_, _, _) =>
      && (l.main.Closing? && TearsDown(l, l.main.c) && l.main.c != c ==> TearsDown(l', l.main.c))
      && !l.main.OpenStartSend? && !l.main.OpenPush? && l.main != Exited
  }

  lemma MovedIsStep(s: State, t: Thread, l': Local, c: ClientId, y: Client)
    requires t in s.threads && c in s.clients && s.threads[t].main != Exited && !Busy(s, t)
    requires ClientMoves(s, t, c, s.clients[c], y)
    ensures StepOf(s, Moved(s, t, l', c, y), t, c)
  {
  }

  lemma MovedIsSteady(s: State, t: Thread, l': Local, c: ClientId, y: Client)
    requires t in s.threads && c in s.clients
    requires KeepsMutexes(t, s.threads[t], l', c, y) && KeepsDuties(s.threads[t], l', c)
    ensures Steady(s, Moved(s, t, l', c, y), t, c)
  {
  }

  lemma MovedMutexes(s: State, t: Thread, l': Local, c: ClientId, y: Client)
    requires t in s.threads && c in s.clients && MutexesOf(s, t, s.threads[t])
    requires KeepsMutexes(t, s.threads[t], l', c, y)
    ensures MutexesOf(Moved(s, t, l', c, y), t, l')
  {
  }

  lemma MovedHolders(s: State, t: Thread, l': Local, c: ClientId, y: Client)
    requires t in s.threads && c in s.clients && HoldersOf(s, c, s.clients[c])
    requires ClientMoves(s, t, c, s.clients[c], y)
    requires KeepsMutexes(t, s.threads[t], l', c, y)
    ensures HoldersOf(Moved(s, t, l', c, y), c, y)
  {
  }

  lemma MovedList(s: State, t: Thread, l': Local, c: ClientId, y: Client)
    requires ListOk(s) && t in s.threads && c in s.clients
    requires y.published == s.clients[c].published && (c in s.list ==> !y.erased)
    ensures ListOk(Moved(s, t, l', c, y))
  {
  }

  /** A step that changes its thread and one client, but neither the list nor its mutex. */
  lemma ClientStep(s: State, t: Thread, l': Local, c: ClientId, y: Client)
    requires Inv(s) && t in s.threads && !Busy(s, t) && c in s.clients
    requires ClientMoves(s, t, c, s.clients[c], y)
    requires KeepsMutexes(t, s.threads[t], l', c, y) && KeepsDuties(s.threads[t], l', c)
    requires y.published == s.clients[c].published && (c in s.list ==> !y.erased)
    requires Placed(Moved(s, t, l', c, y), t, l')
    requires LifeOf(Moved(s, t, l', c, y), c, y)
    ensures Inv(Moved(s, t, l', c, y))
  {
    InvOfThread(s, t);
    InvOfClient(s, c);
    MovedIsStep(s, t, l', c, y);
    MovedIsSteady(s, t, l', c, y);
    MovedMutexes(s, t, l', c, y);
    MovedHolders(s, t, l', c, y);
    MovedList(s, t, l', c, y);
    Assemble(s, Moved(s, t, l', c, y), t, c);
  }

  /** The state after a step that moves thread `t` to `l` and changes the list, or who holds its mutex. */
  function Listed(s: State, t: Thread, l: Local, list: seq<ClientId>, holder: Option<Thread>): State {
    With(s, t, l).(list := list, listHolder := holder)
  }

  predicate KeepsClientMutexes(t: Thread, l: Local, l': Local) {
    HoldsQueue(t, l') == HoldsQueue(t, l) && HoldsOnce(l') == HoldsOnce(l)
  }

  predicate KeepsTeardown(l: Local, l': Local) {
    match l
    case Local(_, _, _) =>
      && (l.main.Closing? && TearsDown(l, l.main.c) ==> TearsDown(l', l.main.c))
      && !l.main.OpenStartSend? && !l.main.OpenPush? && l.main != Exited
  }

  /** How a step may change the list and its mutex. */
  ghost predicate ListMoves(s: State, t: Thread, l': Local, list: seq<ClientId>, holder: Option<Thread>) {
    match s
    case State(_, _, _, _, _) =>
      && HolderMoves(t, s.listHolder, holder) && (HoldsList(l') <==> holder == Some(t))
      && (list != s.list ==> s.listHolder == Some(t))
      && NoDuplicates(list) && forall c :: c in list ==> c in s.list
  }

  lemma ListedIsStep(s: State, t: Thread, l': Local, list: seq<ClientId>, holder: Option<Thread>, c0: ClientId)
    requires t in s.threads && !Busy(s, t)
    requires KeepsTeardown(s.threads[t], l') && KeepsClientMutexes(t, s.threads[t], l')
    requires ListMoves(s, t, l', list, holder)
    ensures StepOf(s, Listed(s, t, l', list, holder), t, c0) && Steady(s, Listed(s, t, l', list, holder), t, c0)
  {
    if c0 in s.clients {
      SameClientMoves(s, t, c0, s.clients[c0]);
    }
  }

  lemma ListedMutexes(s: State, t: Thread, l': Local, list: seq<ClientId>, holder: Option<Thread>)
    requires t in s.threads && MutexesOf(s, t, s.threads[t]) && KeepsClientMutexes(t, s.threads[t], l')
    requires ListMoves(s, t, l', list, holder)
    ensures MutexesOf(Listed(s, t, l', list, holder), t, l')
  {
  }

  lemma ListedList(s: State, t: Thread, l': Local, list: seq<ClientId>, holder: Option<Thread>)
    requires ListOk(s) && t in s.threads && ListMoves(s, t, l', list, holder)
    ensures ListOk(Listed(s, t, l', list, holder))
  {
  }

  /** A step that changes no client. */
  lemma ListStep(s: State, t: Thread, l': Local, list: seq<ClientId>, holder: Option<Thread>)
    requires Inv(s) && t in s.threads && !Busy(s, t)
    requires KeepsTeardown(s.threads[t], l') && KeepsClientMutexes(t, s.threads[t], l')
    requires ListMoves(s, t, l', list, holder)
    requires Placed(Listed(s, t, l', list, holder), t, l')
    ensures Inv(Listed(s, t, l', list, holder))
  {
    var r := Listed(s, t, l', list, holder);
    InvOfThread(s, t);
    ListedMutexes(s, t, l', list, holder);
    ListedList(s, t, l', list, holder);
    ListedIsStep(s, t, l', list, holder, 0);
    ListedIsStep(s, t, l', list, holder, 1);
    forall u | u in r.threads ensures ThreadOk(r, u, r.threads[u]) {
      if u != t {
        OtherThread(s, r, t, 0, u);
      }
    }
    forall c | c in r.clients ensures ClientOk(r, c, r.clients[c]) {
      OtherClient(s, r, t, if c == 0 then 1 else 0, c);
    }
  }

  lemma LocalStep(s: State, t: Thread, l': Local)
    requires Inv(s) && t in s.threads && !Busy(s, t)
    requires KeepsTeardown(s.threads[t], l') && KeepsClientMutexes(t, s.threads[t], l')
    requires HoldsList(l') <==> HoldsList(s.threads[t])
    requires Placed(With(s, t, l'), t, l')
    ensures Inv(With(s, t, l'))
  {
    InvOfThread(s, t);
    assert Listed(s, t, l', s.list, s.listHolder) == With(s, t, l');
    assert MutexesOf(s, t, s.threads[t]);
    ListStep(s, t, l', s.list, s.listHolder);
  }

  // ---- sendingThread ----

  /** A sending thread in its loop, with nothing known but what the invariant says of it and its client. */
  ghost predicate Sends(s: State, t: Thread) {
    match s
    case State(_, _, _, _, _) =>
      && t in s.threads && !Busy(s, t) && t.Send?
      && s.threads[t].cast.None? && s.threads[t].add.None? && Looping(s.threads[t].main)
      && t.c in s.clients && ThreadOk(s, t, s.threads[t]) && ClientOk(s, t.c, s.clients[t.c])
  }

  lemma SenderIn(s: State, t: Thread)
    requires Inv(s) && t in s.threads && t.Send? && Looping(s.threads[t].main)
    ensures Sends(s, t)
  {
    InvOfThread(s, t);
    SenderHasClient(s, t, s.threads[t]);
    InvOfClient(s, t.c);
    NotBusy(s, t);
  }

  lemma SenderHasClient(s: State, t: Thread, l: Local)
    requires t.Send? && ThreadOk(s, t, l) && Looping(l.main)
    ensures t.c in s.clients && l.cast.None? && l.add.None?
  {
  }

  /** What the loop of the sending thread may do to its client. */
  predicate SenderMoves(t: Thread, x: Client, y: Client) {
    match x
    case Client(_, _, _, _, _, _, _, _, _, _, _, _) =>
      && y == x.(box := y.box, queueHolder := y.queueHolder, woken := y.woken)
      && HolderMoves(t, x.queueHolder, y.queueHolder)
      && (y.box.queue != x.box.queue ==> x.queueHolder == Some(t))
  }

  lemma SenderClientMoves(s: State, t: Thread, y: Client)
    requires Sends(s, t) && SenderMoves(t, s.clients[t.c], y)
    ensures ClientMoves(s, t, t.c, s.clients[t.c], y)
  {
  }

  lemma SenderLife(s: State, t: Thread, m: Main, y: Client)
    requires Sends(s, t) && SenderMoves(t, s.clients[t.c], y)
    ensures LifeOf(Moved(s, t, At(m), t.c, y), t.c, y)
  {
  }

  /** What must be true where the loop of the sending thread arrives. */
  predicate SenderArrives(t: Thread, m: Main, y: Client) {
    match t
    case Send(c) =>
      && (Looping(m) || m == Exited || m == Closing(c, BySend, LockOnce, []))
      && (y.box.flight.Some? <==> m == SendTransmit)
      && (Looping(m) ==> y.box.failed.None? && y.box.drained == [])
      && (m == SendSleep ==> y.box.queue == [])
      && (m == SendBranch ==> y.closing || y.box.queue != [])
      && (m == SendDrain ==> y.closing)
      && (y.queueHolder == Some(t) <==>
            m == SendCheck || m == SendSleep || m == SendBranch || m == SendDrain)
    case _ => false
  }

  lemma SenderPlaced(s: State, t: Thread, m: Main, y: Client)
    requires Sends(s, t) && SenderMoves(t, s.clients[t.c], y) && SenderArrives(t, m, y)
    ensures Placed(Moved(s, t, At(m), t.c, y), t, At(m))
  {
    SenderWorks(s, t, m, y);
    SenderCloses(s, t, m, y);
  }

  lemma SenderWorks(s: State, t: Thread, m: Main, y: Client)
    requires Sends(s, t) && SenderMoves(t, s.clients[t.c], y) && SenderArrives(t, m, y)
    ensures Shape(t, At(m)) && WorkersOf(Moved(s, t, At(m), t.c, y), t, At(m)) && y.alive
  {
    assert WorkersOf(s, t, s.threads[t]);
  }

  lemma SenderCloses(s: State, t: Thread, m: Main, y: Client)
    requires t in s.threads && t.Send? && t.c in s.clients && y.alive && SenderArrives(t, m, y)
    ensures ClosingOf(Moved(s, t, At(m), t.c, y), t, At(m)) && OpeningOf(Moved(s, t, At(m), t.c, y), t, At(m))
  {
  }

  lemma SenderMutexes(s: State, t: Thread, m: Main, y: Client)
    requires Sends(s, t) && SenderMoves(t, s.clients[t.c], y) && SenderArrives(t, m, y)
    ensures KeepsMutexes(t, s.threads[t], At(m), t.c, y) && KeepsDuties(s.threads[t], At(m), t.c)
  {
  }

  lemma SenderStep(s: State, t: Thread, m: Main, y: Client)
    requires Inv(s) && Sends(s, t) && SenderMoves(t, s.clients[t.c], y) && SenderArrives(t, m, y)
    ensures Inv(Moved(s, t, At(m), t.c, y))
  {
    SenderClientMoves(s, t, y);
    SenderLife(s, t, m, y);
    SenderPlaced(s, t, m, y);
    SenderMutexes(s, t, m, y);
    SenderIsNotErased(s, t);
    ClientStep(s, t, At(m), t.c, y);
  }

  lemma SenderIsNotErased(s: State, t: Thread)
    requires Inv(s) && Sends(s, t)
    ensures t.c in s.list ==> !s.clients[t.c].erased
  {
  }

  lemma SenderFacts(s: State, t: Thread)
    requires Sends(s, t)
    ensures SenderArrives(t, s.threads[t].main, s.clients[t.c])
  {
  }

  lemma TransmitKeeps(s: State, t: Thread, ch: Choice)
    requires Inv(s) && Sends(s, t) && s.threads[t].main == SendTransmit && SendEnabled(s, t, ch)
    ensures Inv(SendAfter(s, t, ch))
  {
    SenderFacts(s, t);
    var c, x := t.c, s.clients[t.c];
    if ch.Write? {
      SenderStep(s, t, SendTransmit, x.(box := Transmit(x.box, ch.n)));
    } else if ch == Go {
      SenderStep(s, t, SendLock, x.(box := Finish(x.box)));
    } else {
      SenderStep(s, t, Closing(c, BySend, LockOnce, []), x.(box := Fail(x.box)));
    }
  }

  lemma QueueSideKeeps(s: State, t: Thread, ch: Choice)
    requires Inv(s) && Sends(s, t) && s.threads[t].main != SendTransmit && SendEnabled(s, t, ch)
    ensures Inv(SendAfter(s, t, ch))
  {
    SenderFacts(s, t);
    var c, x := t.c, s.clients[t.c];
    match s.threads[t].main
    case SendLock => SenderStep(s, t, SendCheck, x.(queueHolder := Some(t)));
    case SendCheck =>
      if x.box.queue == [] && !x.closing {
        NoClientChange(s, t, At(SendSleep), c);
        SenderStep(s, t, SendSleep, x);
      } else {
        NoClientChange(s, t, At(SendBranch), c);
        SenderStep(s, t, SendBranch, x);
      }
    case SendSleep => SenderStep(s, t, SendWaiting, x.(queueHolder := None, woken := false));
    case SendWaiting =>
      NoClientChange(s, t, At(SendLock), c);
      SenderStep(s, t, SendLock, x);
    case SendBranch =>
      if x.closing {
        NoClientChange(s, t, At(SendDrain), c);
        SenderStep(s, t, SendDrain, x);
      } else {
        SenderStep(s, t, SendTransmit, x.(box := Pop(x.box), queueHolder := None));
      }
    case SendDrain => SenderStep(s, t, Exited, x.(box := Drain(x.box), queueHolder := None));
  }

  lemma SendKeeps(s: State, t: Thread, ch: Choice)
    requires Inv(s) && t in s.threads && s.threads[t].cast.None? && s.threads[t].add.None? && SendEnabled(s, t, ch)
    ensures Inv(SendAfter(s, t, ch))
  {
    SenderIn(s, t);
    if s.threads[t].main == SendTransmit {
      TransmitKeeps(s, t, ch);
    } else {
      QueueSideKeeps(s, t, ch);
    }
  }

  lemma NoClientChange(s: State, t: Thread, l: Local, c: ClientId)
    requires c in s.clients
    ensures Moved(s, t, l, c, s.clients[c]) == With(s, t, l)
  {
    assert s.clients[c := s.clients[c]] == s.clients;
  }

  // ---- receivingThread ----

  ghost predicate Receives(s: State, t: Thread) {
    match s
    case State(_, _, _, _, _) =>
      && t in s.threads && !Busy(s, t) && t.Recv? && s.threads[t] == At(Ready)
      && t.c in s.clients && ThreadOk(s, t, s.threads[t]) && ClientOk(s, t.c, s.clients[t.c])
  }

  lemma ReceiverIn(s: State, t: Thread)
    requires Inv(s) && t in s.threads && !Busy(s, t) && t.Recv? && s.threads[t] == At(Ready)
    ensures Receives(s, t)
  {
    InvOfThread(s, t);
    ReceiverHasClient(s, t, s.threads[t]);
    InvOfClient(s, t.c);
  }

  lemma ReceiverHasClient(s: State, t: Thread, l: Local)
    requires t.Recv? && ThreadOk(s, t, l)
    ensures t.c in s.clients
  {
  }

  /** Where the loop of the receiving thread may go. */
  predicate ReceiverArrives(t: Thread, l: Local)
    requires t.Recv?
  {
    match l
    case Local(m, cast, add) =>
      if m == Ready then
        && (cast.Some? ==> cast.value.CastLock? && |cast.value.content.payload| < Power256(8) && add.None?)
        && (add.Some? ==> add.value.AddLock? && add.value.c == t.c && |add.value.content.payload| < Power256(8))
      else
        cast.None? && add.None? && (m == Exited || m == Closing(t.c, ByRecv, LockOnce, []))
  }

  lemma ReceiverStep(s: State, t: Thread, l': Local)
    requires Inv(s) && Receives(s, t) && t.Recv? && ReceiverArrives(t, l')
    ensures Inv(With(s, t, l'))
  {
    ReceiverPlaced(s, t, l');
    LocalStep(s, t, l');
  }

  lemma ReceiverPlaced(s: State, t: Thread, l': Local)
    requires Receives(s, t) && t.Recv? && ReceiverArrives(t, l')
    ensures Placed(With(s, t, l'), t, l')
  {
  }

  lemma FaultKeeps(s: State, t: Thread)
    requires Inv(s) && Receives(s, t)
    ensures Inv(WithClient(s, t.c, s.clients[t.c].(closing := true)))
  {
    var y := s.clients[t.c].(closing := true);
    assert s.threads[t := s.threads[t]] == s.threads;
    assert Moved(s, t, s.threads[t], t.c, y) == WithClient(s, t.c, y);
    FaultPlaced(s, t, y);
    SameClientMutexes(s, t);
    ClosingIsListed(s, t);
    ClientStep(s, t, s.threads[t], t.c, y);
  }

  lemma FaultPlaced(s: State, t: Thread, y: Client)
    requires Receives(s, t) && y == s.clients[t.c].(closing := true)
    ensures Placed(Moved(s, t, s.threads[t], t.c, y), t, s.threads[t])
    ensures LifeOf(Moved(s, t, s.threads[t], t.c, y), t.c, y)
    ensures ClientMoves(s, t, t.c, s.clients[t.c], y)
  {
  }

  lemma SameClientMutexes(s: State, t: Thread)
    requires Receives(s, t)
    ensures KeepsMutexes(t, s.threads[t], s.threads[t], t.c, s.clients[t.c].(closing := true))
    ensures KeepsDuties(s.threads[t], s.threads[t], t.c)
  {
  }

  lemma ClosingIsListed(s: State, t: Thread)
    requires Inv(s) && Receives(s, t)
    ensures t.c in s.list ==> !s.clients[t.c].erased
  {
  }

  lemma RecvKeeps(s: State, t: Thread, ch: Choice)
    requires Inv(s) && t in s.threads && !Busy(s, t)
    requires s.threads[t].cast.None? && s.threads[t].add.None? && RecvEnabled(s, t, ch)
    ensures Inv(RecvAfter(s, t, ch))
  {
    ReceiverIn(s, t);
    match ch
    case StartCast(content) => ReceiverStep(s, t, At(Ready).(cast := Some(CastLock(content))));
    case StartAdd(content) => ReceiverStep(s, t, At(Ready).(add := Some(AddLock(t.c, content))));
    case Fault => FaultKeeps(s, t);
    case Leave => ReceiverStep(s, t, At(Exited));
    case CloseOwn => ReceiverStep(s, t, At(Closing(t.c, ByRecv, LockOnce, [])));
    case Detach(_) => CallKeeps(s, t, t.c, ch);
    case CloseOne(_) => CallKeeps(s, t, t.c, ch);
  }

  // ---- Close calls inside of callbacks ----

  /** A thread in a callback made for client `own`, which it has not left for a call. */
  ghost predicate MakesCall(s: State, t: Thread, own: ClientId, ch: Choice) {
    match s
    case State(_, _, _, _, _) =>
      && t in s.threads && !Busy(s, t) && MayCall(t, s.threads[t]) && ThreadOk(s, t, s.threads[t])
      && CallEnabled(s, own, ch)
  }

  /** The call has been made before, and has returned. */
  lemma CallAgain(s: State, t: Thread, own: ClientId, ch: Choice)
    requires Inv(s) && MakesCall(s, t, own, ch) && Inner(t) in s.threads
    ensures Inv(CallAfter(s, t, ch))
  {
    var u, l' := Inner(t), CallAfter(s, t, ch).threads[Inner(t)];
    InvOfThread(s, u);
    NotBusy(s, u);
    CallPlaced(s, t, own, ch);
    LocalStep(s, u, l');
  }

  lemma CallPlaced(s: State, t: Thread, own: ClientId, ch: Choice)
    requires MakesCall(s, t, own, ch)
    ensures var r := CallAfter(s, t, ch); Placed(r, Inner(t), r.threads[Inner(t)])
  {
    var r := CallAfter(s, t, ch);
    var l' := r.threads[Inner(t)];
    CallNests(s, t, l');
    CallCloses(s, t, l');
    assert Shape(Inner(t), l');
  }

  lemma CallNests(s: State, t: Thread, l': Local)
    requires t in s.threads && MayCall(t, s.threads[t])
    ensures NestOf(With(s, Inner(t), l'), Inner(t), l')
  {
    assert With(s, Inner(t), l').threads[t] == s.threads[t];
  }

  lemma CallCloses(s: State, t: Thread, l': Local)
    requires l'.main.DetachLock? || (l'.main.CloseEach? && forall x :: x in l'.main.todo ==> x in s.clients)
    ensures ClosingOf(With(s, Inner(t), l'), Inner(t), l')
  {
  }

  /** The first call of this thread. */
  lemma CallIsStep(s: State, t: Thread, own: ClientId, ch: Choice, c0: ClientId)
    requires MakesCall(s, t, own, ch) && Inner(t) !in s.threads
    ensures StepOf(s, CallAfter(s, t, ch), t, c0) && Steady(s, CallAfter(s, t, ch), t, c0)
  {
    if c0 in s.clients {
      SameClientMoves(s, t, c0, s.clients[c0]);
    }
  }

  /** A new call changes nothing for the thread that makes it. */
  lemma CallerStays(s: State, t: Thread, l: Local, l': Local)
    requires ThreadOk(s, t, l) && Inner(t) !in s.threads
    ensures ThreadOk(With(s, Inner(t), l'), t, l)
  {
    CallerCloses(s, t, l, l');
    CallerNests(s, t, l, l');
  }

  lemma CallerCloses(s: State, t: Thread, l: Local, l': Local)
    requires ClosingOf(s, t, l)
    ensures ClosingOf(With(s, Inner(t), l'), t, l)
  {
  }

  lemma CallerNests(s: State, t: Thread, l: Local, l': Local)
    requires NestOf(s, t, l)
    ensures NestOf(With(s, Inner(t), l'), t, l)
  {
  }

  lemma CallHoldsNothing(s: State, t: Thread, own: ClientId, ch: Choice)
    requires MakesCall(s, t, own, ch) && Inner(t) !in s.threads && ListOk(s)
    ensures var r := CallAfter(s, t, ch); MutexesOf(r, Inner(t), r.threads[Inner(t)])
  {
  }

  lemma FirstCallThreads(s: State, t: Thread, own: ClientId, ch: Choice)
    requires MakesCall(s, t, own, ch) && Inner(t) !in s.threads && ListOk(s)
    ensures var r := CallAfter(s, t, ch); ThreadOk(r, t, r.threads[t]) && ThreadOk(r, Inner(t), r.threads[Inner(t)])
  {
    CallerStays(s, t, s.threads[t], CallAfter(s, t, ch).threads[Inner(t)]);
    CallPlaced(s, t, own, ch);
    CallHoldsNothing(s, t, own, ch);
  }

  lemma FirstCall(s: State, t: Thread, own: ClientId, ch: Choice)
    requires Inv(s) && MakesCall(s, t, own, ch) && Inner(t) !in s.threads
    ensures Inv(CallAfter(s, t, ch))
  {
    var r := CallAfter(s, t, ch);
    CallIsStep(s, t, own, ch, 0);
    CallIsStep(s, t, own, ch, 1);
    FirstCallThreads(s, t, own, ch);
    forall u | u in r.threads ensures ThreadOk(r, u, r.threads[u]) {
      if u != t && u != Inner(t) {
        OtherThread(s, r, t, 0, u);
      }
    }
    forall c | c in r.clients ensures ClientOk(r, c, r.clients[c]) {
      OtherClient(s, r, t, if c == 0 then 1 else 0, c);
    }
  }

  lemma CallKeeps(s: State, t: Thread, own: ClientId, ch: Choice)
    requires Inv(s) && t in s.threads && !Busy(s, t) && MayCall(t, s.threads[t]) && CallEnabled(s, own, ch)
    ensures Inv(CallAfter(s, t, ch))
  {
    InvOfThread(s, t);
    if Inner(t) in s.threads {
      CallAgain(s, t, own, ch);
    } else {
      FirstCall(s, t, own, ch);
    }
  }

  // ---- Inside callbacks ----

  /** Nothing that a teardown depends on is different. */
  predicate SameLife(x: Client, y: Client) {
    match x
    case Client(_, _, _, _, _, _, _, _, _, _, _, _) =>
      y == x.(box := y.box, queueHolder := y.queueHolder, woken := y.woken)
  }

  lemma CallbackMain(s: State, t: Thread, l: Local)
    requires ThreadOk(s, t, l) && (l.cast.Some? || l.add.Some?)
    ensures InCallback(l) && ClosingOf(s, t, l)
    ensures l.main.Closing? ==> l.main.c in s.clients
  {
  }

  lemma CallbackCloses(s: State, r: State, t: Thread, l: Local, l': Local)
    requires ClosingOf(s, t, l) && InCallback(l) && l'.main == l.main && r.clients.Keys == s.clients.Keys
    requires l.main.Closing? ==> l.main.c in s.clients && SameLife(s.clients[l.main.c], r.clients[l.main.c])
    ensures ClosingOf(r, t, l')
  {
  }

  // ---- sendBroadcast ----

  ghost predicate Casts(s: State, t: Thread) {
    match s
    case State(_, _, _, _, _) =>
      && t in s.threads && !Busy(s, t)
      && s.threads[t].cast.Some? && s.threads[t].add.None? && ThreadOk(s, t, s.threads[t])
  }

  /** A broadcast goes on in the position that its thread is in. */
  predicate CastGoesOn(l: Local, l': Local) {
    match l'
    case Local(m, cast, add) =>
      && m == l.main
      && (cast.Some? ==> |cast.value.content.payload| < Power256(8))
      && (add.Some? ==>
            && cast.Some? && cast.value.CastHeld?
            && add.value.AddLock? && |add.value.content.payload| < Power256(8))
  }

  lemma CastPlaced(s: State, t: Thread, l': Local, holder: Option<Thread>)
    requires Casts(s, t) && CastGoesOn(s.threads[t], l')
    requires l'.cast.Some? && l'.cast.value.CastHeld? ==> forall x :: x in l'.cast.value.todo ==> x in s.list
    requires l'.add.Some? ==> l'.add.value.c in s.list
    ensures Placed(Listed(s, t, l', s.list, holder), t, l')
    ensures KeepsTeardown(s.threads[t], l') && KeepsClientMutexes(t, s.threads[t], l')
  {
    CallbackMain(s, t, s.threads[t]);
    CallbackCloses(s, Listed(s, t, l', s.list, holder), t, s.threads[t], l');
    OwnNestStays(s, Listed(s, t, l', s.list, holder), t, s.threads[t], l');
    CastMutexes(s, t, l');
  }

  lemma CastMutexes(s: State, t: Thread, l': Local)
    requires Casts(s, t) && CastGoesOn(s.threads[t], l')
    ensures KeepsTeardown(s.threads[t], l') && KeepsClientMutexes(t, s.threads[t], l')
  {
  }

  lemma CastKeeps(s: State, t: Thread)
    requires Inv(s) && t in s.threads && s.threads[t].cast.Some? && s.threads[t].add.None? && CastEnabled(s, t)
    ensures Inv(CastAfter(s, t))
  {
    InvOfThread(s, t);
    var l := s.threads[t];
    NotBusy(s, t);
    CastMain(s, t);
    match l.cast.value
    case CastLock(content) =>
      var l' := l.(cast := Some(CastHeld(content, s.list)));
      CastPlaced(s, t, l', Some(t));
      ListStep(s, t, l', s.list, Some(t));
    case CastHeld(content, todo) =>
      if todo == [] {
        var l' := l.(cast := None);
        CastPlaced(s, t, l', None);
        ListStep(s, t, l', s.list, None);
      } else {
        var l' := l.(cast := Some(CastHeld(content, todo[1..])), add := Some(AddLock(todo[0], content)));
        CastPlaced(s, t, l', s.listHolder);
        ListStep(s, t, l', s.list, s.listHolder);
        assert Listed(s, t, l', s.list, s.listHolder) == CastAfter(s, t);
      }
  }

  /** A broadcasting thread holds the list only for the broadcast. */
  lemma CastMain(s: State, t: Thread)
    requires t in s.threads && !Busy(s, t) && s.threads[t].cast.Some? && s.threads[t].add.None?
    requires ThreadOk(s, t, s.threads[t])
    ensures Casts(s, t) && |s.threads[t].cast.value.content.payload| < Power256(8)
    ensures s.threads[t].cast.value.CastHeld? <==> s.listHolder == Some(t)
    ensures s.threads[t].cast.value.CastHeld? ==> forall x :: x in s.threads[t].cast.value.todo ==> x in s.list
    ensures HoldsList(s.threads[t].(cast := None)) == false
  {
  }

  // ---- addSendingQueue ----

  ghost predicate Adds(s: State, t: Thread) {
    match s
    case State(_, _, _, _, _) =>
      && t in s.threads && !Busy(s, t) && s.threads[t].add.Some? && ThreadOk(s, t, s.threads[t])
      && var c := s.threads[t].add.value.c;
         c in s.clients && ClientOk(s, c, s.clients[c]) && s.clients[c].alive
  }

  /** The client that a message is added for is alive: it is in the list, or it is the caller's own. */
  lemma TargetIsAlive(s: State, t: Thread)
    requires Inv(s) && t in s.threads && s.threads[t].add.Some?
    ensures Adds(s, t)
  {
    InvOfThread(s, t);
    var c := s.threads[t].add.value.c;
    TargetIsClient(s, t);
    InvOfClient(s, c);
    NotBusy(s, t);
    AliveTarget(s, t);
  }

  lemma TargetIsClient(s: State, t: Thread)
    requires t in s.threads && s.threads[t].add.Some? && ThreadOk(s, t, s.threads[t]) && ListOk(s)
    ensures s.threads[t].add.value.c in s.clients
  {
  }

  lemma AliveTarget(s: State, t: Thread)
    requires t in s.threads && s.threads[t].add.Some? && ThreadOk(s, t, s.threads[t]) && ListOk(s)
    requires var c := s.threads[t].add.value.c; c in s.clients && ClientOk(s, c, s.clients[c])
    ensures s.clients[s.threads[t].add.value.c].alive
  {
    var l := s.threads[t];
    if l.cast.Some? {
      ListedTarget(s, t, l);
    } else if l.main.Closing? {
      OwnTarget(s, t, l);
    } else {
      CalleeTarget(s, t, l);
    }
  }

  lemma ListedTarget(s: State, t: Thread, l: Local)
    requires l.add.Some? && l.cast.Some? && CallsOf(s, t, l) && ListOk(s)
    requires LifeOf(s, l.add.value.c, s.clients[l.add.value.c])
    ensures s.clients[l.add.value.c].alive
  {
  }

  lemma OwnTarget(s: State, t: Thread, l: Local)
    requires l.add.Some? && l.cast.None? && l.main.Closing? && Shape(t, l) && ClosingOf(s, t, l)
    ensures s.clients[l.add.value.c].alive
  {
    assert CallbackOf(t, l) == Some(l.main.c) && l.main.phase == OnClosing;
    var c := l.main.c;
    LateIsAlive(t, l.main.kind, l.main.phase, s.clients[c], HasExited(s, Send(c)), HasExited(s, Recv(c)));
  }

  lemma LateIsAlive(t: Thread, kind: Kind, phase: ClosePhase, x: Client, sendGone: bool, recvGone: bool)
    requires TeardownAt(t, kind, phase, x, sendGone, recvGone) && Order(phase) >= Order(SetClosing)
    ensures x.alive
  {
  }

  lemma CalleeTarget(s: State, t: Thread, l: Local)
    requires l.add.Some? && l.cast.None? && !l.main.Closing? && Shape(t, l) && WorkersOf(s, t, l)
    ensures l.add.value.c in s.clients && s.clients[l.add.value.c].alive
  {
  }

  /** What a call of addSendingQueue may do to its client. */
  predicate AdderMoves(t: Thread, x: Client, y: Client) {
    match x
    case Client(_, _, _, _, _, _, _, _, _, _, _, _) =>
      && y == x.(box := y.box, queueHolder := y.queueHolder)
      && HolderMoves(t, x.queueHolder, y.queueHolder)
      && (y.box.queue != x.box.queue ==> x.queueHolder == Some(t))
      && y.box.flight == x.box.flight && y.box.failed == x.box.failed && y.box.drained == x.box.drained
  }

  predicate AddGoesOn(t: Thread, l: Local, l': Local, y: Client)
    requires l.add.Some?
  {
    match l'
    case Local(m, cast, add) =>
      && m == l.main && cast == l.cast && add.Some? && add.value.c == l.add.value.c
      && (!add.value.AddNotify? ==> |add.value.content.payload| < Power256(8))
      && (add.value.AddHeld? <==> y.queueHolder == Some(t))
  }

  lemma AdderShape(s: State, t: Thread, l': Local, y: Client)
    requires Adds(s, t) && AddGoesOn(t, s.threads[t], l', y)
    ensures var r := Moved(s, t, l', s.threads[t].add.value.c, y);
            Shape(t, l') && CallsOf(r, t, l') && OpeningOf(r, t, l')
  {
    AdderCalls(s, t, l', y);
  }

  lemma AdderCalls(s: State, t: Thread, l': Local, y: Client)
    requires Adds(s, t) && AddGoesOn(t, s.threads[t], l', y)
    ensures var r := Moved(s, t, l', s.threads[t].add.value.c, y); CallsOf(r, t, l') && OpeningOf(r, t, l')
  {
  }

  lemma AdderNests(s: State, t: Thread, l': Local, y: Client)
    requires Adds(s, t) && l'.main == s.threads[t].main
    ensures NestOf(Moved(s, t, l', s.threads[t].add.value.c, y), t, l')
  {
    OwnNestStays(s, Moved(s, t, l', s.threads[t].add.value.c, y), t, s.threads[t], l');
  }

  lemma AdderCloses(s: State, t: Thread, l': Local, y: Client)
    requires Adds(s, t) && AddGoesOn(t, s.threads[t], l', y)
    requires AdderMoves(t, s.clients[s.threads[t].add.value.c], y)
    ensures ClosingOf(Moved(s, t, l', s.threads[t].add.value.c, y), t, l')
  {
    CallbackMain(s, t, s.threads[t]);
    CallbackCloses(s, Moved(s, t, l', s.threads[t].add.value.c, y), t, s.threads[t], l');
  }

  lemma AdderWorks(s: State, t: Thread, l': Local, y: Client)
    requires Adds(s, t) && AddGoesOn(t, s.threads[t], l', y)
    requires AdderMoves(t, s.clients[s.threads[t].add.value.c], y)
    ensures WorkersOf(Moved(s, t, l', s.threads[t].add.value.c, y), t, l')
  {
  }

  lemma AdderPlaced(s: State, t: Thread, l': Local, y: Client)
    requires Adds(s, t) && AddGoesOn(t, s.threads[t], l', y)
    requires AdderMoves(t, s.clients[s.threads[t].add.value.c], y)
    ensures Placed(Moved(s, t, l', s.threads[t].add.value.c, y), t, l')
  {
    AdderShape(s, t, l', y);
    AdderNests(s, t, l', y);
    AdderCloses(s, t, l', y);
    AdderWorks(s, t, l', y);
  }

  lemma AdderLife(s: State, t: Thread, l': Local, y: Client)
    requires Adds(s, t) && AddGoesOn(t, s.threads[t], l', y)
    requires AdderMoves(t, s.clients[s.threads[t].add.value.c], y)
    ensures var c := s.threads[t].add.value.c;
            LifeOf(Moved(s, t, l', c, y), c, y) && ClientMoves(s, t, c, s.clients[c], y)
  {
  }

  lemma AdderMutexes(s: State, t: Thread, l': Local, y: Client)
    requires Adds(s, t) && AddGoesOn(t, s.threads[t], l', y)
    requires AdderMoves(t, s.clients[s.threads[t].add.value.c], y)
    ensures var c := s.threads[t].add.value.c;
            KeepsMutexes(t, s.threads[t], l', c, y) && KeepsDuties(s.threads[t], l', c)
  {
  }

  lemma AdderListed(s: State, t: Thread)
    requires Inv(s) && Adds(s, t)
    ensures var c := s.threads[t].add.value.c; c in s.list ==> !s.clients[c].erased
  {
  }

  lemma AdderStep(s: State, t: Thread, l': Local, y: Client)
    requires Inv(s) && Adds(s, t) && AddGoesOn(t, s.threads[t], l', y)
    requires AdderMoves(t, s.clients[s.threads[t].add.value.c], y)
    ensures Inv(Moved(s, t, l', s.threads[t].add.value.c, y))
  {
    AdderPlaced(s, t, l', y);
    AdderLife(s, t, l', y);
    AdderMutexes(s, t, l', y);
    AdderListed(s, t);
    ClientStep(s, t, l', s.threads[t].add.value.c, y);
  }

  /** After the notification the call is over. */
  lemma NotifierPlaced(s: State, t: Thread, c: ClientId)
    requires Adds(s, t) && s.threads[t].add == Some(AddNotify(c))
    ensures var l' := s.threads[t].(add := None); Placed(Moved(s, t, l', c, s.clients[c].(woken := true)), t, l')
  {
    var l' := s.threads[t].(add := None);
    var r := Moved(s, t, l', c, s.clients[c].(woken := true));
    CallbackMain(s, t, s.threads[t]);
    CallbackCloses(s, r, t, s.threads[t], l');
    OwnNestStays(s, r, t, s.threads[t], l');
    NotifierWorks(s, t, c);
  }

  lemma NotifierWorks(s: State, t: Thread, c: ClientId)
    requires Adds(s, t) && s.threads[t].add == Some(AddNotify(c))
    ensures var l' := s.threads[t].(add := None); WorkersOf(Moved(s, t, l', c, s.clients[c].(woken := true)), t, l')
  {
  }

  lemma NotifierLife(s: State, t: Thread, c: ClientId)
    requires Adds(s, t) && s.threads[t].add == Some(AddNotify(c))
    ensures var l', y := s.threads[t].(add := None), s.clients[c].(woken := true);
            LifeOf(Moved(s, t, l', c, y), c, y) && ClientMoves(s, t, c, s.clients[c], y)
  {
  }

  lemma NotifierMutexes(s: State, t: Thread, c: ClientId)
    requires Adds(s, t) && s.threads[t].add == Some(AddNotify(c))
    ensures var l', y := s.threads[t].(add := None), s.clients[c].(woken := true);
            KeepsMutexes(t, s.threads[t], l', c, y) && KeepsDuties(s.threads[t], l', c)
  {
    NotifierHolds(t, s.threads[t]);
    assert HoldersOf(s, c, s.clients[c]);
  }

  lemma NotifierHolds(t: Thread, l: Local)
    requires Shape(t, l) && l.add.Some? && l.add.value.AddNotify?
    ensures var l' := l.(add := None);
            && HoldsQueue(t, l).None? && HoldsQueue(t, l').None? && HoldsOnce(l).None? && HoldsOnce(l').None?
            && (HoldsList(l') <==> HoldsList(l))
    ensures l.main == Ready || (l.main.Closing? && l.main.phase == OnClosing)
  {
  }

  lemma AddNotifyKeeps(s: State, t: Thread, c: ClientId)
    requires Inv(s) && Adds(s, t) && s.threads[t].add == Some(AddNotify(c))
    ensures Inv(Moved(s, t, s.threads[t].(add := None), c, s.clients[c].(woken := true)))
  {
    NotifierPlaced(s, t, c);
    NotifierLife(s, t, c);
    NotifierMutexes(s, t, c);
    AdderListed(s, t);
    ClientStep(s, t, s.threads[t].(add := None), c, s.clients[c].(woken := true));
  }

  lemma CounterIsFree(s: State, n: nat)
    requires Inv(s)
    ensures Inv(s.(nextMsg := n))
  {
    var r := s.(nextMsg := n);
    forall t | t in r.threads ensures ThreadOk(r, t, r.threads[t]) {
      InvOfThread(s, t);
      ThreadIgnoresCounter(s, t, n);
    }
    forall c | c in r.clients ensures ClientOk(r, c, r.clients[c]) {
      InvOfClient(s, c);
      ClientIgnoresCounter(s, c, n);
    }
  }

  lemma ThreadIgnoresCounter(s: State, t: Thread, n: nat)
    requires t in s.threads && ThreadOk(s, t, s.threads[t])
    ensures ThreadOk(s.(nextMsg := n), t, s.threads[t])
  {
  }

  lemma ClientIgnoresCounter(s: State, c: ClientId, n: nat)
    requires c in s.clients && ClientOk(s, c, s.clients[c])
    ensures ClientOk(s.(nextMsg := n), c, s.clients[c])
  {
  }

  lemma AddFacts(s: State, t: Thread)
    requires Adds(s, t)
    ensures var l := s.threads[t];
            && (!l.add.value.AddNotify? ==> |l.add.value.content.payload| < Power256(8))
            && (l.add.value.AddHeld? ==> s.clients[l.add.value.c].queueHolder == Some(t))
  {
  }

  lemma AddKeeps(s: State, t: Thread)
    requires Inv(s) && t in s.threads && s.threads[t].add.Some? && AddEnabled(s, t)
    ensures Inv(AddAfter(s, t))
  {
    TargetIsAlive(s, t);
    match s.threads[t].add.value
    case AddLock(c, content) => AddLockKeeps(s, t, c, content);
    case AddHeld(c, content) =>
      AddHeldKeeps(s, t, c, content);
      OfferedIsMoved(s, t, c, content);
    case AddNotify(c) => AddNotifyKeeps(s, t, c);
  }

  lemma OfferedIsMoved(s: State, t: Thread, c: ClientId, content: Content)
    requires t in s.threads && s.threads[t].add == Some(AddHeld(c, content)) && AddEnabled(s, t)
    ensures AddAfter(s, t)
            == Moved(s, t, s.threads[t].(add := Some(AddNotify(c))), c, Offered(s, s.clients[c], content))
               .(nextMsg := s.nextMsg + 1)
  {
  }

  lemma AddLockKeeps(s: State, t: Thread, c: ClientId, content: Content)
    requires Inv(s) && Adds(s, t) && s.threads[t].add == Some(AddLock(c, content)) && s.clients[c].queueHolder.None?
    ensures Inv(Moved(s, t, s.threads[t].(add := Some(AddHeld(c, content))), c, s.clients[c].(queueHolder := Some(t))))
  {
    AddFacts(s, t);
    AdderStep(s, t, s.threads[t].(add := Some(AddHeld(c, content))), s.clients[c].(queueHolder := Some(t)));
  }

  lemma OfferMoves(s: State, t: Thread, c: ClientId, content: Content, y: Client)
    requires Adds(s, t) && s.threads[t].add == Some(AddHeld(c, content))
    requires y == Offered(s, s.clients[c], content)
    ensures AdderMoves(t, s.clients[c], y) && AddGoesOn(t, s.threads[t], s.threads[t].(add := Some(AddNotify(c))), y)
  {
    AddFacts(s, t);
  }

  function Offered(s: State, x: Client, content: Content): Client {
    var m := Msg(s.nextMsg, content.fin, content.opcode, content.payload);
    x.(box := Offer(x.box, m, x.closing), queueHolder := None)
  }

  lemma AddHeldKeeps(s: State, t: Thread, c: ClientId, content: Content)
    requires Inv(s) && Adds(s, t) && s.threads[t].add == Some(AddHeld(c, content))
    ensures Inv(Moved(s, t, s.threads[t].(add := Some(AddNotify(c))), c, Offered(s, s.clients[c], content))
                .(nextMsg := s.nextMsg + 1))
  {
    var l' := s.threads[t].(add := Some(AddNotify(c)));
    var y := Offered(s, s.clients[c], content);
    OfferMoves(s, t, c, content, y);
    AdderStep(s, t, l', y);
    CounterIsFree(Moved(s, t, l', c, y), s.nextMsg + 1);
  }
}
