/** The steps of application threads outside of close calls keep the invariant. */
module WebSocketOwners {
  import opened Basics
  import opened ByteOrder
  import opened WebSocketSystem
  import opened WebSocketInvariant
  import opened WebSocketSteps

  // ---- Application threads ----

  /** An application thread outside of callbacks and close calls, or a callback on its way to a close call. */
  ghost predicate Owns(s: State, t: Thread) {
    match s
    case State(_, _, _, _, _) =>
      && t in s.threads && !Busy(s, t) && (t.Owner? || (t.Inner? && s.threads[t].main != Ready))
      && s.threads[t].cast.None? && s.threads[t].add.None?
      && !s.threads[t].main.Closing? && ThreadOk(s, t, s.threads[t])
  }

  lemma OwnerIn(s: State, t: Thread)
    requires Inv(s) && t in s.threads && (t.Owner? || (t.Inner? && s.threads[t].main != Ready))
    requires s.threads[t].cast.None? && s.threads[t].add.None? && !s.threads[t].main.Closing?
    ensures Owns(s, t)
  {
    InvOfThread(s, t);
    NotBusy(s, t);
  }

  /** Where an application thread may arrive without changing a client. */
  predicate OwnerArrives(s: State, t: Thread, l: Local) {
    match l
    case Local(m, cast, add) =>
      && add.None? && (cast.Some? ==> m == Ready && cast.value.CastLock? && |cast.value.content.payload| < Power256(8))
      && (t.Inner? ==> m != OpenLock && m != OpenAsk && cast.None?)
      && (m == Ready || m == OpenLock || m == OpenAsk || m.DetachLock? || m.DetachHeld?
          || (m.CloseEach? && forall x :: x in m.todo ==> x in s.clients)
          || (m.Closing? && m.kind == ByOwner && m.phase == LockOnce && m.c in s.clients
              && forall x :: x in m.todo ==> x in s.clients))
  }

  lemma OwnerPlaced(s: State, t: Thread, l': Local, list: seq<ClientId>, holder: Option<Thread>)
    requires Owns(s, t) && OwnerArrives(s, t, l')
    ensures Placed(Listed(s, t, l', list, holder), t, l')
  {
    OwnerShape(s, t, l');
    OwnerCloses(s, t, l', list, holder);
    OwnNestStays(s, Listed(s, t, l', list, holder), t, s.threads[t], l');
  }

  lemma OwnerCloses(s: State, t: Thread, l': Local, list: seq<ClientId>, holder: Option<Thread>)
    requires OwnerArrives(s, t, l')
    ensures ClosingOf(Listed(s, t, l', list, holder), t, l')
  {
  }

  lemma OwnerShape(s: State, t: Thread, l': Local)
    requires Owns(s, t) && OwnerArrives(s, t, l')
    ensures Shape(t, l')
  {
  }

  lemma OwnerKeeps(s: State, t: Thread, l': Local)
    requires Owns(s, t) && OwnerArrives(s, t, l') && !s.threads[t].main.OpenStartSend? && !s.threads[t].main.OpenPush?
    ensures KeepsTeardown(s.threads[t], l') && KeepsClientMutexes(t, s.threads[t], l')
  {
  }

  lemma OwnerStep(s: State, t: Thread, l': Local, list: seq<ClientId>, holder: Option<Thread>)
    requires Inv(s) && Owns(s, t) && OwnerArrives(s, t, l')
    requires !s.threads[t].main.OpenStartSend? && !s.threads[t].main.OpenPush?
    requires ListMoves(s, t, l', list, holder)
    ensures Inv(Listed(s, t, l', list, holder))
  {
    OwnerPlaced(s, t, l', list, holder);
    OwnerKeeps(s, t, l');
    ListStep(s, t, l', list, holder);
  }

  /** An application thread holds the list mutex exactly where its position says so. */
  lemma OwnerHolds(s: State, t: Thread)
    requires Inv(s) && Owns(s, t)
    ensures HoldsList(s.threads[t]) <==> s.listHolder == Some(t)
    ensures s.threads[t].main.CloseEach? ==> forall x :: x in s.threads[t].main.todo ==> x in s.clients
    ensures NoDuplicates(s.list) && forall x :: x in s.list ==> x in s.clients
  {
  }

  lemma OwnerMove(s: State, t: Thread, l': Local)
    requires Inv(s) && Owns(s, t) && OwnerArrives(s, t, l')
    requires !s.threads[t].main.OpenStartSend? && !s.threads[t].main.OpenPush?
    requires HoldsList(l') <==> HoldsList(s.threads[t])
    ensures Inv(With(s, t, l'))
  {
    OwnerHolds(s, t);
    OwnerStep(s, t, l', s.list, s.listHolder);
    assert Listed(s, t, l', s.list, s.listHolder) == With(s, t, l');
  }

  lemma TailHasNoHead(list: seq<ClientId>)
    requires NoDuplicates(list) && list != []
    ensures NoDuplicates(list[1..]) && list[0] !in list[1..]
  {
    var tail := list[1..];
    assert forall k :: 0 <= k < |tail| ==> tail[k] == list[k + 1];
  }

  lemma OneMore(c: ClientId, list: seq<ClientId>)
    requires NoDuplicates(list) && c !in list
    ensures NoDuplicates([c] + list)
  {
  }

  /** `erase(find(...))` on a list without duplicates. */
  lemma {:induction false} MinusKeeps(list: seq<ClientId>, c: ClientId)
    requires NoDuplicates(list)
    ensures NoDuplicates(Minus(list, c)) && c !in Minus(list, c)
    ensures forall x :: x in list && x != c ==> x in Minus(list, c)
  {
    if list != [] {
      TailHasNoHead(list);
      MinusKeeps(list[1..], c);
      if list[0] != c {
        OneMore(list[0], Minus(list[1..], c));
      }
    }
  }

  lemma DetachKeeps(s: State, t: Thread, which: Option<ClientId>)
    requires Inv(s) && Owns(s, t) && s.threads[t].main == DetachHeld(which)
    ensures Inv(OwnerAfter(s, t, Go))
  {
    OwnerHolds(s, t);
    if which.None? {
      OwnerStep(s, t, At(CloseEach(s.list)), [], None);
    } else if which.value in s.list {
      MinusKeeps(s.list, which.value);
      OwnerStep(s, t, At(CloseEach([which.value])), Minus(s.list, which.value), None);
    } else {
      OwnerStep(s, t, At(Ready), s.list, None);
      assert Listed(s, t, At(Ready), s.list, None) == With(s, t, At(Ready)).(listHolder := None);
    }
  }

  lemma ReadyOwnerKeeps(s: State, t: Thread, ch: Choice)
    requires Inv(s) && Owns(s, t) && OwnerEnabled(s, t, ch) && s.threads[t].main == Ready
    ensures Inv(OwnerAfter(s, t, ch))
  {
    match ch
    case StartCast(content) => OwnerMove(s, t, At(Ready).(cast := Some(CastLock(content))));
    case Open => OwnerMove(s, t, At(OpenLock));
    case Detach(which) => OwnerMove(s, t, At(DetachLock(which)));
    case CloseOne(c) => OwnerMove(s, t, At(CloseEach([c])));
  }

  lemma CalmOwnerKeeps(s: State, t: Thread, ch: Choice)
    requires Inv(s) && Owns(s, t) && OwnerEnabled(s, t, ch) && !ch.Accept?
    requires !s.threads[t].main.OpenStartSend? && !s.threads[t].main.OpenPush?
    ensures Inv(OwnerAfter(s, t, ch))
  {
    OwnerHolds(s, t);
    match s.threads[t].main
    case Ready => ReadyOwnerKeeps(s, t, ch);
    case OpenLock => OwnerStep(s, t, At(OpenAsk), s.list, Some(t));
    case OpenAsk => OwnerStep(s, t, At(Ready), s.list, None);
    case DetachLock(which) => OwnerStep(s, t, At(DetachHeld(which)), s.list, Some(t));
    case DetachHeld(which) => DetachKeeps(s, t, which);
    case CloseEach(todo) =>
      if todo == [] {
        OwnerMove(s, t, At(Ready));
      } else {
        OwnerMove(s, t, At(Closing(todo[0], ByOwner, LockOnce, todo[1..])));
      }
  }

  // ---- A new client ----

  lemma AcceptedThread(s: State, t: Thread, c: ClientId)
    requires Owns(s, t) && s.threads[t].main == OpenAsk && c !in s.clients && ListOk(s)
    requires Recv(c) !in s.threads && Send(c) !in s.threads
    ensures var r := OwnerAfter(s, t, Accept(c));
            ThreadOk(r, t, r.threads[t]) && ThreadOk(r, Recv(c), r.threads[Recv(c)])
  {
  }

  lemma AcceptedClient(s: State, t: Thread, c: ClientId)
    requires Owns(s, t) && s.threads[t].main == OpenAsk && c !in s.clients && ListOk(s)
    requires Recv(c) !in s.threads && Send(c) !in s.threads
    ensures var r := OwnerAfter(s, t, Accept(c));
            ClientOk(r, c, r.clients[c]) && ListOk(r)
  {
  }

  lemma AcceptedStep(s: State, t: Thread, c: ClientId)
    requires Owns(s, t) && s.threads[t].main == OpenAsk && c !in s.clients
    requires Recv(c) !in s.threads && Send(c) !in s.threads
    ensures var r := OwnerAfter(s, t, Accept(c));
            StepOf(s, r, t, c) && Steady(s, r, t, c)
  {
  }

  /** A worker thread is never older than its client. */
  lemma NoWorkersYet(s: State, c: ClientId)
    requires Inv(s) && c !in s.clients
    ensures Recv(c) !in s.threads && Send(c) !in s.threads
  {
    if Recv(c) in s.threads {
      WorkerIn(s, Recv(c));
    } else if Send(c) in s.threads {
      WorkerIn(s, Send(c));
    }
  }

  lemma WorkerIn(s: State, t: Thread)
    requires Inv(s) && t in s.threads && (t.Send? || t.Recv?)
    ensures t.c in s.clients
  {
    InvOfThread(s, t);
    WorkerHasClient(s, t, s.threads[t]);
  }

  lemma WorkerHasClient(s: State, t: Thread, l: Local)
    requires ThreadOk(s, t, l) && (t.Send? || t.Recv?)
    ensures t.c in s.clients
  {
  }

  lemma AcceptKeeps(s: State, t: Thread, c: ClientId)
    requires Inv(s) && Owns(s, t) && s.threads[t].main == OpenAsk && c !in s.clients
    ensures Inv(OwnerAfter(s, t, Accept(c)))
  {
    NoWorkersYet(s, c);
    AcceptedThread(s, t, c);
    AcceptedClient(s, t, c);
    AcceptedStep(s, t, c);
    Assemble(s, OwnerAfter(s, t, Accept(c)), t, c);
  }

  /** An opening that has come this far, with its client. */
  ghost predicate Opening(s: State, t: Thread, c: ClientId) {
    match s
    case State(_, _, _, _, _) =>
      && Owns(s, t) && ListOk(s) && c in s.clients && ClientOk(s, c, s.clients[c])
      && (s.threads[t].main == OpenStartSend(c) || s.threads[t].main == OpenPush(c))
  }

  lemma OpeningIn(s: State, t: Thread)
    requires Inv(s) && Owns(s, t) && (s.threads[t].main.OpenStartSend? || s.threads[t].main.OpenPush?)
    ensures Opening(s, t, s.threads[t].main.c)
  {
    OpeningHasClient(s, t, s.threads[t]);
    InvOfClient(s, s.threads[t].main.c);
  }

  lemma OpeningHasClient(s: State, t: Thread, l: Local)
    requires ThreadOk(s, t, l) && (l.main.OpenStartSend? || l.main.OpenPush?)
    ensures l.main.c in s.clients
  {
  }

  lemma StartedThread(s: State, t: Thread, c: ClientId)
    requires Opening(s, t, c) && s.threads[t].main == OpenStartSend(c)
    ensures var r := OwnerAfter(s, t, Go);
            ThreadOk(r, t, r.threads[t]) && ThreadOk(r, Send(c), r.threads[Send(c)])
  {
  }

  lemma StartedClient(s: State, t: Thread, c: ClientId)
    requires Opening(s, t, c) && s.threads[t].main == OpenStartSend(c)
    ensures var r := OwnerAfter(s, t, Go);
            ClientOk(r, c, r.clients[c]) && ListOk(r)
  {
  }

  lemma StartedStep(s: State, t: Thread, c: ClientId)
    requires Opening(s, t, c) && s.threads[t].main == OpenStartSend(c)
    ensures var r := OwnerAfter(s, t, Go);
            StepOf(s, r, t, c) && Steady(s, r, t, c)
  {
    SameClientMoves(s, t, c, s.clients[c]);
  }

  lemma StartSendKeeps(s: State, t: Thread, c: ClientId)
    requires Inv(s) && Owns(s, t) && s.threads[t].main == OpenStartSend(c)
    ensures Inv(OwnerAfter(s, t, Go))
  {
    OpeningIn(s, t);
    StartedThread(s, t, c);
    StartedClient(s, t, c);
    StartedStep(s, t, c);
    Assemble(s, OwnerAfter(s, t, Go), t, c);
  }

  lemma PushedThread(s: State, t: Thread, c: ClientId)
    requires Opening(s, t, c) && s.threads[t].main == OpenPush(c)
    ensures var r := OwnerAfter(s, t, Go); ThreadOk(r, t, r.threads[t])
  {
  }

  lemma PushedClient(s: State, t: Thread, c: ClientId)
    requires Opening(s, t, c) && s.threads[t].main == OpenPush(c)
    ensures var r := OwnerAfter(s, t, Go);
            ClientOk(r, c, r.clients[c]) && ListOk(r)
  {
  }

  lemma PushedStep(s: State, t: Thread, c: ClientId)
    requires Opening(s, t, c) && s.threads[t].main == OpenPush(c)
    ensures var r := OwnerAfter(s, t, Go);
            StepOf(s, r, t, c) && Steady(s, r, t, c)
  {
  }

  lemma PushKeeps(s: State, t: Thread, c: ClientId)
    requires Inv(s) && Owns(s, t) && s.threads[t].main == OpenPush(c)
    ensures Inv(OwnerAfter(s, t, Go))
  {
    OpeningIn(s, t);
    PushedThread(s, t, c);
    PushedClient(s, t, c);
    PushedStep(s, t, c);
    Assemble(s, OwnerAfter(s, t, Go), t, c);
  }

  lemma OwnerStepKeeps(s: State, t: Thread, ch: Choice)
    requires Inv(s) && t in s.threads && s.threads[t].cast.None? && s.threads[t].add.None? && OwnerEnabled(s, t, ch)
    ensures Inv(OwnerAfter(s, t, ch))
  {
    OwnerIn(s, t);
    match s.threads[t].main
    case OpenStartSend(c) => StartSendKeeps(s, t, c);
    case OpenPush(c) => PushKeeps(s, t, c);
    case OpenAsk =>
      if ch == Refuse {
        CalmOwnerKeeps(s, t, ch);
      } else {
        AcceptKeeps(s, t, ch.c);
      }
    case _ => CalmOwnerKeeps(s, t, ch);
  }
}
