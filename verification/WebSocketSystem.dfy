/**
 Many WebSocket clients, their two worker threads each, and any number of application threads, as a
 transition system. A step is what one thread does between two points where others may interfere:
 taking or releasing a mutex, a critical section, a join, a callback, a write to the socket.
 */
module WebSocketSystem {
  import opened Basics
  import opened ByteOrder
  import opened SendingQueue

  type ClientId = nat

  /**
   The receiving and the sending thread of a client, the threads of the server and the application, and the
   close calls that a thread makes inside of a callback: those stand in `Inner(outer)`, and while they do,
   `outer` itself does not move. Such a call may run callbacks, and these make calls of their own.
   */
  datatype Thread = Recv(c: ClientId) | Send(c: ClientId) | Owner(k: nat) | Inner(outer: Thread)

  /** closeWS, closeSend, closeRecv. */
  datatype Kind = ByOwner | BySend | ByRecv

  datatype ClosePhase =
    | LockOnce | HoldOnce                 // closeOnce
    | SetClosing                          // closing = true
    | LockList | Erase                    // removeClient
    | OnClosing                           // the callback
    | Announce                            // finalizeClose: closing = true, wake the sender, shut the socket down
    | JoinSend | JoinRecv                 // wait_for_thread
    | FreeSocket | FreeRequest
    | LockQueue | DrainQueue | DeleteThis // the destructor

  /** Where a thread stands; what it does inside a callback is in `Local`. */
  datatype Main =
    | Ready                                // a receiver in its loop, an owner or a callback outside of any call
    | Exited
    // SendSleep: nothing to send and not closing, about to wait; SendWaiting: in the wait, without the mutex
    | SendLock | SendCheck | SendSleep | SendWaiting | SendBranch | SendDrain | SendTransmit
    | OpenLock | OpenAsk | OpenStartSend(c: ClientId) | OpenPush(c: ClientId)
    | DetachLock(which: Option<ClientId>) | DetachHeld(which: Option<ClientId>)
    | CloseEach(todo: seq<ClientId>)
    | Closing(c: ClientId, kind: Kind, phase: ClosePhase, todo: seq<ClientId>)

  /** A broadcast; `todo` are the clients of the list that are still to be served. */
  datatype Cast = CastLock(content: Content) | CastHeld(content: Content, todo: seq<ClientId>)

  /** A call of addSendingQueue. */
  datatype Add =
    | AddLock(c: ClientId, content: Content) | AddHeld(c: ClientId, content: Content) | AddNotify(c: ClientId)

  datatype Local = Local(main: Main, cast: Option<Cast>, add: Option<Add>)

  datatype Client = Client(
    alive: bool,               // not yet deleted
    published: bool,           // was put in the list
    erased: bool,              // its teardown has taken it out of the list
    closing: bool,
    winner: Option<Thread>,    // closeStarted, with the thread that set it
    box: Outbox,
    queueHolder: Option<Thread>,
    onceHolder: Option<Thread>,
    socketFreed: bool,
    requestFreed: bool,
    teardowns: nat,
    woken: bool)               // the sending thread was notified in its condition wait

  datatype State = State(
    list: seq<ClientId>,       // webSocketClientList
    listHolder: Option<Thread>,
    clients: map<ClientId, Client>,
    threads: map<Thread, Local>,
    nextMsg: nat)

  const NEW_CLIENT: Client := Client(true, false, false, false, None, EMPTY, None, None, false, false, 0, false)

  predicate Init(s: State) {
    && s.list == [] && s.listHolder.None? && s.clients == map[] && s.nextMsg == 0
    && forall t :: t in s.threads ==> t.Owner? && s.threads[t] == Local(Ready, None, None)
  }

  function Order(p: ClosePhase): nat {
    match p
    case LockOnce => 0 case HoldOnce => 1 case SetClosing => 2 case LockList => 3 case Erase => 4
    case OnClosing => 5 case Announce => 6 case JoinSend => 7 case JoinRecv => 8 case FreeSocket => 9
    case FreeRequest => 10 case LockQueue => 11 case DrainQueue => 12 case DeleteThis => 13
  }

  function With(s: State, t: Thread, l: Local): State {
    s.(threads := s.threads[t := l])
  }

  function WithClient(s: State, c: ClientId, x: Client): State {
    s.(clients := s.clients[c := x])
  }

  function At(m: Main): Local {
    Local(m, None, None)
  }

  /** A close call that this thread makes inside of a callback has not returned yet. */
  predicate Busy(s: State, t: Thread) {
    Inner(t) in s.threads && s.threads[Inner(t)].main != Ready
  }

  function Minus(list: seq<ClientId>, c: ClientId): (r: seq<ClientId>)
    ensures forall x :: x in r ==> x in list
  {
    if list == [] then []
    else if list[0] == c then list[1..]
    else [list[0]] + Minus(list[1..], c)
  }

  /** What the scheduler and the world outside decide. */
  datatype Choice =
    | Go
    | StartCast(content: Content)      // a callback or an application thread broadcasts
    | StartAdd(content: Content)       // a callback sends to the client it was called for
    | Fault                            // recv found the connection broken
    | Leave                            // the receiving loop sees `closing`
    | CloseOwn                         // the receiver meets an error or a close frame
    | Open | Refuse | Accept(c: ClientId)
    | Detach(which: Option<ClientId>)  // removeAllClients, or removeClient of the client of a request
    | CloseOne(c: ClientId)            // closeWS
    | Write(n: nat)                    // the socket takes n more bytes
    | GiveUp                           // too late, or the socket failed
    | Spurious                         // a condition wait ends without a notification

  // ---- addSendingQueue ----

  predicate AddEnabled(s: State, t: Thread)
    requires t in s.threads && s.threads[t].add.Some?
  {
    match s.threads[t].add.value
    case AddLock(c, _) => c in s.clients && s.clients[c].queueHolder.None?
    case AddHeld(c, content) => c in s.clients
    case AddNotify(c) => c in s.clients
  }

  function AddAfter(s: State, t: Thread): State
    requires t in s.threads && s.threads[t].add.Some? && AddEnabled(s, t)
  {
    var l := s.threads[t];
    match l.add.value
    case AddLock(c, content) =>
      With(WithClient(s, c, s.clients[c].(queueHolder := Some(t))), t, l.(add := Some(AddHeld(c, content))))
    case AddHeld(c, content) =>
      var x := s.clients[c];
      var m := Msg(s.nextMsg, content.fin, content.opcode, content.payload);
      With(WithClient(s, c, x.(box := Offer(x.box, m, x.closing), queueHolder := None)), t,
           l.(add := Some(AddNotify(c)))).(nextMsg := s.nextMsg + 1)
    case AddNotify(c) => With(WithClient(s, c, s.clients[c].(woken := true)), t, l.(add := None))
  }

  // ---- sendBroadcast ----

  predicate CastEnabled(s: State, t: Thread)
    requires t in s.threads && s.threads[t].cast.Some? && s.threads[t].add.None?
  {
    s.threads[t].cast.value.CastLock? ==> s.listHolder.None?
  }

  function CastAfter(s: State, t: Thread): State
    requires t in s.threads && s.threads[t].cast.Some? && s.threads[t].add.None? && CastEnabled(s, t)
  {
    var l := s.threads[t];
    match l.cast.value
    case CastLock(content) =>
      With(s, t, l.(cast := Some(CastHeld(content, s.list)))).(listHolder := Some(t))
    case CastHeld(content, todo) =>
      if todo == [] then With(s, t, l.(cast := None)).(listHolder := None)
      else With(s, t, l.(cast := Some(CastHeld(content, todo[1..])), add := Some(AddLock(todo[0], content))))
  }

  // ---- Close calls inside of callbacks ----

  /**
   A callback made for client `own` may close any client but this one, by its request or by its pointer,
   and all clients once `own` is not among them any more.
   */
  predicate CallEnabled(s: State, own: ClientId, ch: Choice) {
    match ch
    case Detach(which) => if which.Some? then which.value != own else own in s.clients && s.clients[own].erased
    case CloseOne(c) => c != own && c in s.clients && s.clients[c].published
    case _ => false
  }

  function CallAfter(s: State, t: Thread, ch: Choice): State
    requires ch.Detach? || ch.CloseOne?
  {
    With(s, Inner(t), At(if ch.Detach? then DetachLock(ch.which) else CloseEach([ch.c])))
  }

  // ---- sendingThread ----

  predicate SendEnabled(s: State, t: Thread, ch: Choice)
    requires t in s.threads
  {
    && t.Send? && t.c in s.clients
    && var x := s.clients[t.c];
       match s.threads[t].main
       case SendLock => ch == Go && x.queueHolder.None?
       case SendCheck => ch == Go
       case SendSleep => ch == Go
       case SendWaiting => (ch == Go && x.woken) || ch == Spurious
       case SendBranch => ch == Go && (x.closing || x.box.queue != [])
       case SendDrain => ch == Go
       case SendTransmit =>
         && x.box.flight.Some? && x.box.flight.value.Valid()
         && (ch == GiveUp
             || (ch == Go && x.box.partial == x.box.flight.value.Bytes())
             || (ch.Write? && |x.box.partial| + ch.n <= |x.box.flight.value.Bytes()|))
       case _ => false
  }

  function SendAfter(s: State, t: Thread, ch: Choice): State
    requires t in s.threads && SendEnabled(s, t, ch)
  {
    var c, x := t.c, s.clients[t.c];
    match s.threads[t].main
    case SendLock => With(WithClient(s, c, x.(queueHolder := Some(t))), t, At(SendCheck))
    case SendCheck =>
      if x.box.queue == [] && !x.closing then With(s, t, At(SendSleep)) else With(s, t, At(SendBranch))
    case SendSleep => With(WithClient(s, c, x.(queueHolder := None, woken := false)), t, At(SendWaiting))
    case SendWaiting => With(s, t, At(SendLock))
    case SendBranch =>
      if x.closing then With(s, t, At(SendDrain))
      else With(WithClient(s, c, x.(box := Pop(x.box), queueHolder := None)), t, At(SendTransmit))
    case SendDrain => With(WithClient(s, c, x.(box := Drain(x.box), queueHolder := None)), t, At(Exited))
    case SendTransmit =>
      if ch.Write? then With(WithClient(s, c, x.(box := Transmit(x.box, ch.n))), t, At(SendTransmit))
      else if ch == Go then With(WithClient(s, c, x.(box := Finish(x.box))), t, At(SendLock))
      else With(WithClient(s, c, x.(box := Fail(x.box))), t, At(Closing(c, BySend, LockOnce, [])))
    case _ => s
  }

  // ---- receivingThread ----

  predicate RecvEnabled(s: State, t: Thread, ch: Choice)
    requires t in s.threads
  {
    && t.Recv? && t.c in s.clients && s.threads[t].main == Ready
    && match ch
       case StartCast(content) => |content.payload| < Power256(8)
       case StartAdd(content) => |content.payload| < Power256(8)
       case Fault => true
       case Leave => s.clients[t.c].closing
       case CloseOwn => true
       case _ => CallEnabled(s, t.c, ch)
  }

  function RecvAfter(s: State, t: Thread, ch: Choice): State
    requires t in s.threads && RecvEnabled(s, t, ch)
  {
    match ch
    case StartCast(content) => With(s, t, At(Ready).(cast := Some(CastLock(content))))
    case StartAdd(content) => With(s, t, At(Ready).(add := Some(AddLock(t.c, content))))
    case Fault => WithClient(s, t.c, s.clients[t.c].(closing := true))
    case Leave => With(s, t, At(Exited))
    case CloseOwn => With(s, t, At(Closing(t.c, ByRecv, LockOnce, [])))
    case _ => CallAfter(s, t, ch)
  }

  // ---- Application threads: newConnectionRequest, removeAllClients, removeClient, closeWS ----

  predicate OwnerEnabled(s: State, t: Thread, ch: Choice)
    requires t in s.threads
  {
    && (t.Owner? || t.Inner?)
    && match s.threads[t].main
       case Ready =>
         t.Owner? &&
         (match ch
          case StartCast(content) => |content.payload| < Power256(8)
          case Open => true
          case Detach(_) => true
          case CloseOne(c) => c in s.clients && s.clients[c].published
          case _ => false)
       case OpenLock => ch == Go && s.listHolder.None?
       case OpenAsk => ch == Refuse || (ch.Accept? && ch.c !in s.clients)
       case OpenStartSend(c) => ch == Go
       case OpenPush(c) => ch == Go && c in s.clients
       case DetachLock(_) => ch == Go && s.listHolder.None?
       case DetachHeld(_) => ch == Go
       case CloseEach(_) => ch == Go
       case _ => false
  }

  function OwnerAfter(s: State, t: Thread, ch: Choice): State
    requires t in s.threads && OwnerEnabled(s, t, ch)
  {
    match s.threads[t].main
    case Ready =>
      (match ch
       case StartCast(content) => With(s, t, At(Ready).(cast := Some(CastLock(content))))
       case Open => With(s, t, At(OpenLock))
       case Detach(which) => With(s, t, At(DetachLock(which)))
       case CloseOne(c) => With(s, t, At(CloseEach([c])))
       case _ => s)
    case OpenLock => With(s, t, At(OpenAsk)).(listHolder := Some(t))
    case OpenAsk =>
      if ch == Refuse then With(s, t, At(Ready)).(listHolder := None)
      else With(With(WithClient(s, ch.c, NEW_CLIENT), Recv(ch.c), At(Ready)), t, At(OpenStartSend(ch.c)))
    case OpenStartSend(c) => With(With(s, Send(c), At(SendLock)), t, At(OpenPush(c)))
    case OpenPush(c) =>
      With(WithClient(s, c, s.clients[c].(published := true)), t, At(Ready))
      .(list := s.list + [c], listHolder := None)
    case DetachLock(which) => With(s, t, At(DetachHeld(which))).(listHolder := Some(t))
    case DetachHeld(which) =>
      if which.None? then With(s, t, At(CloseEach(s.list))).(list := [], listHolder := None)
      else if which.value in s.list
      then With(s, t, At(CloseEach([which.value]))).(list := Minus(s.list, which.value), listHolder := None)
      else With(s, t, At(Ready)).(listHolder := None)
    case CloseEach(todo) =>
      if todo == [] then With(s, t, At(Ready)) else With(s, t, At(Closing(todo[0], ByOwner, LockOnce, todo[1..])))
    case _ => s
  }

  // ---- closeWS, closeSend, closeRecv ----

  predicate HasExited(s: State, t: Thread) {
    t in s.threads && s.threads[t].main == Exited
  }

  /** Where a close call returns to: a worker's thread function returns, an owner takes the next client. */
  function Return(kind: Kind, todo: seq<ClientId>): Main {
    if kind == ByOwner then CloseEach(todo) else Exited
  }

  /** A close call is modelled as long as it reaches closeOnce on a client that is not deleted. */
  predicate CloseEnabled(s: State, t: Thread, ch: Choice)
    requires t in s.threads
  {
    && s.threads[t].main.Closing?
    && var Closing(c, kind, phase, todo) := s.threads[t].main;
       && c in s.clients
       && match phase
          case LockOnce => ch == Go && s.clients[c].alive && s.clients[c].onceHolder.None?
          case HoldOnce => ch == Go && s.clients[c].alive
          case LockList => ch == Go && s.listHolder.None?
          case OnClosing =>
            (match ch
             case Go => true
             case StartCast(content) => |content.payload| < Power256(8)
             case StartAdd(content) => |content.payload| < Power256(8)
             case _ => CallEnabled(s, c, ch))
          case JoinSend => ch == Go && (kind == BySend || HasExited(s, Send(c)))
          case JoinRecv => ch == Go && (kind == ByRecv || HasExited(s, Recv(c)))
          case LockQueue => ch == Go && s.clients[c].queueHolder.None?
          case _ => ch == Go
  }

  function CloseAfter(s: State, t: Thread, ch: Choice): State
    requires t in s.threads && CloseEnabled(s, t, ch)
  {
    var Closing(c, kind, phase, todo) := s.threads[t].main;
    var x := s.clients[c];
    match phase
    case LockOnce => With(WithClient(s, c, x.(onceHolder := Some(t))), t, At(Closing(c, kind, HoldOnce, todo)))
    case HoldOnce =>
      if x.winner.Some? then With(WithClient(s, c, x.(onceHolder := None)), t, At(Return(kind, todo)))
      else With(WithClient(s, c, x.(onceHolder := None, winner := Some(t))), t, At(Closing(c, kind, SetClosing, todo)))
    case SetClosing => With(WithClient(s, c, x.(closing := true)), t, At(Closing(c, kind, LockList, todo)))
    case LockList => With(s, t, At(Closing(c, kind, Erase, todo))).(listHolder := Some(t))
    case Erase =>
      With(WithClient(s, c, x.(erased := true)), t, At(Closing(c, kind, OnClosing, todo)))
      .(list := Minus(s.list, c), listHolder := None)
    case OnClosing =>
      if ch.StartCast? then With(s, t, s.threads[t].(cast := Some(CastLock(ch.content))))
      else if ch.StartAdd? then With(s, t, s.threads[t].(add := Some(AddLock(c, ch.content))))
      else if ch != Go then CallAfter(s, t, ch)
      else With(s, t, At(Closing(c, kind, Announce, todo)))
    case Announce => With(WithClient(s, c, x.(closing := true, woken := true)), t, At(Closing(c, kind, JoinSend, todo)))
    case JoinSend => With(s, t, At(Closing(c, kind, JoinRecv, todo)))
    case JoinRecv => With(s, t, At(Closing(c, kind, FreeSocket, todo)))
    case FreeSocket => With(WithClient(s, c, x.(socketFreed := true)), t, At(Closing(c, kind, FreeRequest, todo)))
    case FreeRequest => With(WithClient(s, c, x.(requestFreed := true)), t, At(Closing(c, kind, LockQueue, todo)))
    case LockQueue => With(WithClient(s, c, x.(queueHolder := Some(t))), t, At(Closing(c, kind, DrainQueue, todo)))
    case DrainQueue =>
      With(WithClient(s, c, x.(box := Drain(x.box), queueHolder := None)), t, At(Closing(c, kind, DeleteThis, todo)))
    case DeleteThis =>
      With(WithClient(s, c, x.(alive := false, teardowns := x.teardowns + 1)), t, At(Return(kind, todo)))
  }

  // ---- One step of any thread ----

  predicate Enabled(s: State, t: Thread, ch: Choice) {
    && t in s.threads && !Busy(s, t)
    && var l := s.threads[t];
       if l.add.Some? then ch == Go && AddEnabled(s, t)
       else if l.cast.Some? then ch == Go && CastEnabled(s, t)
       else SendEnabled(s, t, ch) || RecvEnabled(s, t, ch) || OwnerEnabled(s, t, ch) || CloseEnabled(s, t, ch)
  }

  function After(s: State, t: Thread, ch: Choice): State
    requires Enabled(s, t, ch)
  {
    var l := s.threads[t];
    if l.add.Some? then AddAfter(s, t)
    else if l.cast.Some? then CastAfter(s, t)
    else if SendEnabled(s, t, ch) then SendAfter(s, t, ch)
    else if RecvEnabled(s, t, ch) then RecvAfter(s, t, ch)
    else if OwnerEnabled(s, t, ch) then OwnerAfter(s, t, ch)
    else CloseAfter(s, t, ch)
  }

  ghost predicate Next(s: State, s': State) {
    exists t, ch :: Enabled(s, t, ch) && s' == After(s, t, ch)
  }

  /** A run: every state follows from the one before it by a step of some thread. */
  ghost predicate Run(states: seq<State>) {
    && states != [] && Init(states[0])
    && forall i, j {:trigger Next(states[i], states[j])} ::
         0 <= i && j == i + 1 < |states| ==> Next(states[i], states[j])
  }
}
