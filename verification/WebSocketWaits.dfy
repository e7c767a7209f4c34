/**
 Who waits for whom, over mutexes, joins, condition waits and calls inside of callbacks: threads wait for each
 other in a circle exactly when callbacks of receiving threads have them join each other, and a thread is stuck
 for no other reason but a sender that sleeps and was not notified.
 */
module WebSocketWaits {
  import opened Basics
  import opened WebSocketSystem
  import opened WebSocketInvariant
  import opened WebSocketSteps
  import opened WebSocketTeardown
  import opened WebSocketSafety
  import opened WebSocketDelivery

  /** What the next step of a thread may block on. */
  datatype Need = Nothing | TheList | TheQueue(c: ClientId) | TheOnce(c: ClientId) | TheExit(worker: Thread)

  function NeedOf(t: Thread, l: Local): Need {
    if l.add.Some? then (if l.add.value.AddLock? then TheQueue(l.add.value.c) else Nothing)
    else if l.cast.Some? then (if l.cast.value.CastLock? then TheList else Nothing)
    else
      match l.main
      case SendLock => if t.Send? then TheQueue(t.c) else Nothing
      case OpenLock => TheList
      case DetachLock(_) => TheList
      case Closing(c, kind, phase, _) =>
        (match phase
         case LockOnce => TheOnce(c)
         case LockList => TheList
         case JoinSend => if kind == BySend then Nothing else TheExit(Send(c))
         case JoinRecv => if kind == ByRecv then Nothing else TheExit(Recv(c))
         case LockQueue => TheQueue(c)
         case _ => Nothing)
      case _ => Nothing
  }

  /** The thread that has to do something before `t` can go on. */
  function WaitsFor(s: State, t: Thread): Option<Thread> {
    if t !in s.threads then None
    else if Busy(s, t) then Some(Inner(t))
    else
      match NeedOf(t, s.threads[t])
      case Nothing => None
      case TheList => s.listHolder
      case TheQueue(c) => if c in s.clients then s.clients[c].queueHolder else None
      case TheOnce(c) => if c in s.clients then s.clients[c].onceHolder else None
      case TheExit(w) => if HasExited(s, w) then None else Some(w)
  }

  // ---- The relation is that of the steps ----

  /** A thread that waits for another one cannot take a step. */
  lemma WaitingBlocks(s: State, t: Thread, ch: Choice)
    requires Inv(s) && WaitsFor(s, t).Some?
    ensures !Enabled(s, t, ch)
  {
  }

  /** A call of closeOnce on a client that has been deleted, which is outside of this model. */
  predicate Outside(s: State, l: Local) {
    && l.main.Closing? && (l.main.phase == LockOnce || l.main.phase == HoldOnce)
    && !(l.main.c in s.clients && s.clients[l.main.c].alive)
  }

  lemma AdderChoice(s: State, t: Thread)
    requires Inv(s) && t in s.threads && WaitsFor(s, t).None? && s.threads[t].add.Some?
    ensures Enabled(s, t, Go)
  {
    TargetIsAlive(s, t);
  }

  /** A thread whose function has returned, or a close call that has. */
  predicate Finished(s: State, t: Thread) {
    HasExited(s, t) || (t.Inner? && t in s.threads && s.threads[t].main == Ready)
  }

  /** A sending thread that sleeps in its condition wait, and has not been notified. */
  predicate Asleep(s: State, t: Thread) {
    match t
    case Send(c) => t in s.threads && s.threads[t].main == SendWaiting && c in s.clients && !s.clients[c].woken
    case _ => false
  }

  lemma SenderChoice(s: State, t: Thread) returns (ch: Choice)
    requires Inv(s) && BoxesOk(s) && t in s.threads && WaitsFor(s, t).None? && !Asleep(s, t)
    requires s.threads[t].add.None? && s.threads[t].cast.None? && t.Send? && Looping(s.threads[t].main)
    ensures SendEnabled(s, t, ch) && ch != Spurious
  {
    SenderIn(s, t);
    SenderFacts(s, t);
    ch := Go;
    if s.threads[t].main == SendTransmit {
      assert BoxOk(s.clients[t.c].box, s.nextMsg);
      ch := GiveUp;
    } else {
      SenderGoes(s, t, s.threads[t].main);
    }
  }

  lemma SenderGoes(s: State, t: Thread, m: Main)
    requires t in s.threads && WaitsFor(s, t).None? && !Busy(s, t) && !Asleep(s, t) && s.threads[t].main == m
    requires s.threads[t].add.None? && s.threads[t].cast.None? && t.Send? && Looping(m) && m != SendTransmit
    requires t.c in s.clients && SenderArrives(t, m, s.clients[t.c])
    ensures SendEnabled(s, t, Go)
  {
  }

  lemma CloserChoice(s: State, t: Thread)
    requires Inv(s) && t in s.threads && WaitsFor(s, t).None? && !Outside(s, s.threads[t])
    requires s.threads[t].add.None? && s.threads[t].cast.None? && s.threads[t].main.Closing?
    ensures CloseEnabled(s, t, Go)
  {
    InvOfThread(s, t);
    ClosesAClient(s, t);
    FreeCloserGoes(s, t);
  }

  lemma FreeCloserGoes(s: State, t: Thread)
    requires t in s.threads && WaitsFor(s, t).None? && !Outside(s, s.threads[t])
    requires s.threads[t].add.None? && s.threads[t].cast.None?
    requires s.threads[t].main.Closing? && s.threads[t].main.c in s.clients
    ensures CloseEnabled(s, t, Go)
  {
  }

  lemma OwnerChoice(s: State, t: Thread) returns (ch: Choice)
    requires Inv(s) && t in s.threads && WaitsFor(s, t).None? && !Finished(s, t) && (t.Owner? || t.Inner?)
    requires s.threads[t].add.None? && s.threads[t].cast.None? && !s.threads[t].main.Closing?
    ensures OwnerEnabled(s, t, ch) && ch != Spurious
  {
    InvOfThread(s, t);
    assert Shape(t, s.threads[t]) && OpeningOf(s, t, s.threads[t]);
    match s.threads[t].main
    case Ready => ch := Open;
    case OpenAsk => ch := Refuse;
    case _ => ch := Go;
  }

  /** Nothing else blocks a thread that has not exited, but for a sender that nobody has notified. */
  lemma OnlyWaitingBlocks(states: seq<State>, i: nat, t: Thread) returns (ch: Choice)
    requires Run(states) && i < |states| && t in states[i].threads && WaitsFor(states[i], t).None?
    requires !Finished(states[i], t) && !Outside(states[i], states[i].threads[t]) && !Asleep(states[i], t)
    ensures Enabled(states[i], t, ch) && ch != Spurious
  {
    var s := states[i];
    InvAlways(states, i);
    BoxesAlways(states, i);
    ch := CanMove(s, t);
  }

  lemma CanMove(s: State, t: Thread) returns (ch: Choice)
    requires Inv(s) && BoxesOk(s) && t in s.threads && WaitsFor(s, t).None?
    requires !Finished(s, t) && !Outside(s, s.threads[t]) && !Asleep(s, t)
    ensures Enabled(s, t, ch) && ch != Spurious
  {
    var l := s.threads[t];
    ch := Go;
    if l.add.Some? {
      AdderChoice(s, t);
    } else if l.cast.Some? {
      CasterChoice(s, t);
    } else if l.main.Closing? {
      CloserChoice(s, t);
    } else {
      ch := WorkerOrOwner(s, t);
    }
  }

  /** The thread can take a step, other than that its condition wait ends by itself. */
  ghost predicate Moves(s: State, t: Thread) {
    exists ch :: ch != Spurious && Enabled(s, t, ch)
  }

  lemma StillNeeds(s: State, t: Thread)
    requires Inv(s) && t in s.threads && (Finished(s, t) || Outside(s, s.threads[t]) || Asleep(s, t))
    ensures !Moves(s, t)
  {
    InvOfThread(s, t);
    StillShape(s, t, s.threads[t]);
    forall ch | ch != Spurious ensures !Enabled(s, t, ch) {
    }
  }

  lemma StillShape(s: State, t: Thread, l: Local)
    requires Shape(t, l) && t in s.threads && l == s.threads[t]
    requires Finished(s, t) || Outside(s, l) || Asleep(s, t)
    ensures l.add.None? && l.cast.None?
  {
  }

  /** Exactly when a thread can take a step. */
  lemma MovesExactlyWhen(states: seq<State>, i: nat, t: Thread)
    requires Run(states) && i < |states| && t in states[i].threads
    ensures var s := states[i];
            Moves(s, t)
            <==> WaitsFor(s, t).None? && !Finished(s, t) && !Outside(s, s.threads[t]) && !Asleep(s, t)
  {
    var s := states[i];
    InvAlways(states, i);
    if Finished(s, t) || Outside(s, s.threads[t]) || Asleep(s, t) {
      StillNeeds(s, t);
    } else if WaitsFor(s, t).None? {
      var ch := OnlyWaitingBlocks(states, i, t);
    } else {
      forall ch ensures !Enabled(s, t, ch) {
        WaitingBlocks(s, t, ch);
      }
    }
  }

  lemma CasterChoice(s: State, t: Thread)
    requires t in s.threads && WaitsFor(s, t).None? && s.threads[t].add.None? && s.threads[t].cast.Some?
    ensures Enabled(s, t, Go)
  {
  }

  lemma WorkerOrOwner(s: State, t: Thread) returns (ch: Choice)
    requires Inv(s) && BoxesOk(s) && t in s.threads && WaitsFor(s, t).None? && !Finished(s, t) && !Asleep(s, t)
    requires s.threads[t].add.None? && s.threads[t].cast.None? && !s.threads[t].main.Closing?
    ensures Enabled(s, t, ch) && ch != Spurious
  {
    InvOfThread(s, t);
    if t.Send? {
      SenderLoops(s, t, s.threads[t]);
      ch := SenderChoice(s, t);
    } else if t.Recv? {
      ReceiverLoops(s, t, s.threads[t]);
      ch := CloseOwn;
    } else {
      ch := OwnerChoice(s, t);
    }
  }

  lemma SenderLoops(s: State, t: Thread, l: Local)
    requires Shape(t, l) && t.Send? && l.main != Exited && !l.main.Closing?
    ensures Looping(l.main)
  {
  }

  lemma ReceiverLoops(s: State, t: Thread, l: Local)
    requires Shape(t, l) && WorkersOf(s, t, l) && t.Recv? && l.main != Exited && !l.main.Closing?
    ensures l.main == Ready && t.c in s.clients
  {
  }

  // ---- Waiting for a mutex ----

  /** Calls and joins come before the list, the list before the other mutexes. */
  function Level(need: Need): nat {
    match need
    case Nothing => 0
    case TheQueue(_) => 1
    case TheOnce(_) => 1
    case TheList => 2
    case TheExit(_) => 3
  }

  function LevelOf(s: State, t: Thread): nat
    requires t in s.threads
  {
    if Busy(s, t) then 3 else Level(NeedOf(t, s.threads[t]))
  }

  lemma ListHolderNeeds(t: Thread, l: Local)
    requires Shape(t, l) && HoldsList(l)
    ensures Level(NeedOf(t, l)) < 2 && !MayCall(t, l) && l.main != Exited && (t.Inner? ==> l.main != Ready)
  {
  }

  lemma QueueHolderNeeds(t: Thread, l: Local, c: ClientId)
    requires Shape(t, l) && HoldsQueue(t, l) == Some(c)
    ensures NeedOf(t, l) == Nothing && !MayCall(t, l) && l.main != Exited && (t.Inner? ==> l.main != Ready)
  {
  }

  lemma OnceHolderNeeds(t: Thread, l: Local, c: ClientId)
    requires Shape(t, l) && HoldsOnce(l) == Some(c)
    ensures NeedOf(t, l) == Nothing && !MayCall(t, l) && l.main != Exited && (t.Inner? ==> l.main != Ready)
  {
  }

  /**
   A thread that joins another one, or waits for a call that it has made inside of a callback, holds none of the
   mutexes.
   */
  lemma JoinerHoldsNothing(states: seq<State>, i: nat, t: Thread)
    requires Run(states) && i < |states| && t in states[i].threads && LevelOf(states[i], t) == 3
    ensures var s := states[i];
            s.listHolder != Some(t)
            && forall c :: c in s.clients ==> s.clients[c].queueHolder != Some(t) && s.clients[c].onceHolder != Some(t)
  {
    var s := states[i];
    InvAlways(states, i);
    InvOfThread(s, t);
    NeedsNoMutex(s, t);
    assert MutexesOf(s, t, s.threads[t]);
    forall c | c in s.clients ensures s.clients[c].queueHolder != Some(t) && s.clients[c].onceHolder != Some(t) {
      HoldersKnown(s, c);
    }
  }

  lemma NeedsNoMutex(s: State, t: Thread)
    requires Inv(s) && t in s.threads && LevelOf(s, t) == 3
    ensures var l := s.threads[t]; !HoldsList(l) && HoldsQueue(t, l).None? && HoldsOnce(l).None?
  {
    InvOfThread(s, t);
    if Busy(s, t) {
      CallerIsCalm(s, t);
    }
    assert Shape(t, s.threads[t]);
  }

  lemma CallerIsCalm(s: State, t: Thread)
    requires Inv(s) && t in s.threads && Busy(s, t)
    ensures MayCall(t, s.threads[t]) && !Finished(s, t)
  {
    InvOfThread(s, Inner(t));
    assert NestOf(s, Inner(t), s.threads[Inner(t)]);
  }

  lemma ListHolderKnown(s: State, u: Thread)
    requires Inv(s) && s.listHolder == Some(u)
    ensures u in s.threads && Shape(u, s.threads[u]) && HoldsList(s.threads[u])
  {
    assert ListOk(s);
    InvOfThread(s, u);
    assert MutexesOf(s, u, s.threads[u]);
  }

  lemma QueueHolderKnown(s: State, c: ClientId, u: Thread)
    requires Inv(s) && c in s.clients && s.clients[c].queueHolder == Some(u)
    ensures u in s.threads && Shape(u, s.threads[u]) && HoldsQueue(u, s.threads[u]) == Some(c)
  {
    HoldersKnown(s, c);
    InvOfThread(s, u);
  }

  lemma OnceHolderKnown(s: State, c: ClientId, u: Thread)
    requires Inv(s) && c in s.clients && s.clients[c].onceHolder == Some(u)
    ensures u in s.threads && Shape(u, s.threads[u]) && HoldsOnce(s.threads[u]) == Some(c)
  {
    HoldersKnown(s, c);
    InvOfThread(s, u);
  }

  /** Who holds a mutex that another thread waits for waits, if at all, for a mutex that comes later. */
  lemma MutexWaitGoesDown(s: State, t: Thread, u: Thread)
    requires Inv(s) && WaitsFor(s, t) == Some(u) && LevelOf(s, t) < 3
    ensures u in s.threads && LevelOf(s, u) < LevelOf(s, t) && !Finished(s, u)
  {
    match NeedOf(t, s.threads[t])
    case TheList =>
      ListHolderKnown(s, u);
      ListHolderNeeds(u, s.threads[u]);
      NotBusy(s, u);
    case TheQueue(c) =>
      QueueHolderKnown(s, c, u);
      QueueHolderNeeds(u, s.threads[u], c);
      NotBusy(s, u);
    case TheOnce(c) =>
      OnceHolderKnown(s, c, u);
      OnceHolderNeeds(u, s.threads[u], c);
      NotBusy(s, u);
  }

  // ---- Waiting for a thread to exit, or for a call to return ----

  lemma JoinedIsOther(t: Thread, l: Local, w: Thread)
    requires Shape(t, l) && NeedOf(t, l) == TheExit(w)
    ensures w != t && (w.Send? || w.Recv?) && l.main.Closing? && w.c == l.main.c && TearsDown(l, w.c)
  {
  }

  lemma JoinedIsThere(s: State, t: Thread, w: Thread)
    requires Inv(s) && t in s.threads && NeedOf(t, s.threads[t]) == TheExit(w)
    ensures w in s.threads
  {
    InvOfThread(s, t);
    JoinedIsOther(t, s.threads[t], w);
    JoiningHasErased(s, t, s.threads[t]);
    InvOfClient(s, w.c);
    TeardownIsPublished(s, w.c);
    StartedWorkers(s, w.c, s.clients[w.c]);
  }

  lemma CalledIsThere(s: State, t: Thread)
    requires Inv(s) && Busy(s, t)
    ensures !Finished(s, Inner(t))
  {
    InvOfThread(s, Inner(t));
    assert Shape(Inner(t), s.threads[Inner(t)]);
  }

  lemma WaitedForIsThere(s: State, t: Thread, u: Thread)
    requires Inv(s) && WaitsFor(s, t) == Some(u)
    ensures u in s.threads && !Finished(s, u)
  {
    if Busy(s, t) {
      CalledIsThere(s, t);
    } else if NeedOf(t, s.threads[t]).TheExit? {
      JoinedIsThere(s, t, u);
      InvOfThread(s, t);
      JoinedIsOther(t, s.threads[t], u);
    } else {
      MutexWaitGoesDown(s, t, u);
    }
  }

  /** The worker that a teardown joins is not tearing its client down itself. */
  lemma JoinedIsNoWinner(s: State, t: Thread, w: Thread)
    requires Inv(s) && t in s.threads && w in s.threads && NeedOf(t, s.threads[t]) == TheExit(w)
    ensures (w.Send? || w.Recv?) && !TearsDown(s.threads[w], w.c)
  {
    InvOfThread(s, t);
    JoinedIsOther(t, s.threads[t], w);
    TearingDownIsWinner(s, t, w.c);
    if TearsDown(s.threads[w], w.c) {
      TearingDownIsWinner(s, w, w.c);
    }
  }

  lemma TearsDownOwn(w: Thread, l: Local)
    requires Shape(w, l) && (w.Send? || w.Recv?)
    requires NeedOf(w, l).TheExit? || (MayCall(w, l) && !(w.Recv? && l.main == Ready))
    ensures TearsDown(l, w.c)
  {
  }

  /** A joined thread that waits for an exit or a call itself is a receiver, in a callback made for a message. */
  lemma JoinedIsReceiver(s: State, t: Thread, w: Thread)
    requires Inv(s) && t in s.threads && w in s.threads && NeedOf(t, s.threads[t]) == TheExit(w)
    requires LevelOf(s, w) == 3
    ensures w.Recv? && Busy(s, w) && s.threads[w].main == Ready
  {
    JoinedIsNoWinner(s, t, w);
    InvOfThread(s, w);
    if Busy(s, w) {
      CallerIsCalm(s, w);
    }
    if !(w.Recv? && Busy(s, w) && s.threads[w].main == Ready) {
      TearsDownOwn(w, s.threads[w]);
    }
  }

  // ---- Chains ----

  /** Each thread waits for the next one. */
  predicate Chain(s: State, path: seq<Thread>) {
    forall k :: 0 <= k < |path| - 1 ==> WaitsFor(s, path[k]) == Some(path[k + 1])
  }

  lemma RestOfChain(s: State, path: seq<Thread>)
    requires Chain(s, path) && |path| >= 1
    ensures Chain(s, path[1..])
  {
    forall k | 0 <= k < |path[1..]| - 1 ensures WaitsFor(s, path[1..][k]) == Some(path[1..][k + 1]) {
      assert WaitsFor(s, path[k + 1]) == Some(path[k + 1 + 1]);
    }
  }

  lemma LongerChain(s: State, t: Thread, rest: seq<Thread>)
    requires rest != [] && Chain(s, rest) && WaitsFor(s, t) == Some(rest[0])
    ensures Chain(s, [t] + rest)
  {
    var path := [t] + rest;
    forall k | 0 <= k < |path| - 1 ensures WaitsFor(s, path[k]) == Some(path[k + 1]) {
      if k > 0 {
        assert WaitsFor(s, rest[k - 1]) == Some(rest[k - 1 + 1]);
      }
    }
  }

  /** Two chains, where the second one starts at the end of the first. */
  lemma JoinChains(s: State, p: seq<Thread>, q: seq<Thread>)
    requires p != [] && q != [] && Chain(s, p) && Chain(s, q) && p[|p| - 1] == q[0]
    ensures Chain(s, p + q[1..])
  {
    var path := p + q[1..];
    forall k | 0 <= k < |path| - 1 ensures WaitsFor(s, path[k]) == Some(path[k + 1]) {
      if k < |p| - 1 {
        assert WaitsFor(s, p[k]) == Some(p[k + 1]);
      } else {
        var j := k - (|p| - 1);
        assert path[k] == q[j] && path[k + 1] == q[j + 1];
        assert WaitsFor(s, q[j]) == Some(q[j + 1]);
      }
    }
  }

  lemma PartOfChain(s: State, path: seq<Thread>, i: nat, j: nat)
    requires Chain(s, path) && i <= j <= |path|
    ensures Chain(s, path[i..j])
  {
    forall k | 0 <= k < j - i - 1 ensures WaitsFor(s, path[i..j][k]) == Some(path[i..j][k + 1]) {
      assert WaitsFor(s, path[i + k]) == Some(path[i + k + 1]);
    }
  }

  /** Threads that wait for each other in a circle; the last one is the first one. */
  predicate Circle(s: State, path: seq<Thread>) {
    |path| >= 2 && Chain(s, path) && path[0] == path[|path| - 1]
  }

  /** The same circle from its `j`-th thread on. */
  lemma Rotate(s: State, path: seq<Thread>, j: nat) returns (q: seq<Thread>)
    requires Circle(s, path) && j < |path|
    ensures Circle(s, q) && q[0] == path[j]
  {
    if j == 0 {
      q := path;
    } else {
      PartOfChain(s, path, j, |path|);
      PartOfChain(s, path, 0, j + 1);
      JoinChains(s, path[j..], path[..j + 1]);
      q := path[j..] + path[..j + 1][1..];
    }
  }

  lemma {:induction false} MutexChainGoesDown(s: State, path: seq<Thread>)
    requires Inv(s) && Chain(s, path) && |path| >= 2 && path[0] in s.threads && LevelOf(s, path[0]) < 3
    ensures path[|path| - 1] in s.threads && LevelOf(s, path[|path| - 1]) < LevelOf(s, path[0])
  {
    assert WaitsFor(s, path[0]) == Some(path[0 + 1]);
    MutexWaitGoesDown(s, path[0], path[1]);
    if |path| > 2 {
      RestOfChain(s, path);
      MutexChainGoesDown(s, path[1..]);
    }
  }

  lemma CircleIsThere(s: State, path: seq<Thread>, j: nat)
    requires Circle(s, path) && j < |path|
    ensures path[j] in s.threads
  {
    var k := if j == |path| - 1 then 0 else j;
    assert WaitsFor(s, path[k]) == Some(path[k + 1]);
  }

  /** No thread of a circle waits for a mutex. */
  lemma NoMutexInCircle(s: State, path: seq<Thread>, j: nat)
    requires Inv(s) && Circle(s, path) && j < |path|
    ensures path[j] in s.threads && LevelOf(s, path[j]) == 3
  {
    CircleIsThere(s, path, j);
    if LevelOf(s, path[j]) < 3 {
      var q := Rotate(s, path, j);
      MutexChainGoesDown(s, q);
    }
  }

  // ---- Receivers that join each other ----

  /** `t` has called, through `n` callbacks inside of each other, what now waits for the receiver of `d` to exit. */
  predicate JoinsThrough(s: State, t: Thread, d: ClientId, n: nat)
    decreases n
  {
    if n > 0 then Busy(s, t) && JoinsThrough(s, Inner(t), d, n - 1)
    else
      && t in s.threads && !Busy(s, t)
      && NeedOf(t, s.threads[t]) == TheExit(Recv(d)) && !HasExited(s, Recv(d))
  }

  /** A callback run by the receiving thread of `c` joins the receiving thread of `d`. */
  ghost predicate ReceiverJoins(s: State, c: ClientId, d: ClientId) {
    exists n: nat :: n > 0 && JoinsThrough(s, Recv(c), d, n)
  }

  /** Receivers that join each other in a circle. */
  ghost predicate ReceiverCircle(s: State, cs: seq<ClientId>) {
    && |cs| >= 2 && cs[0] == cs[|cs| - 1]
    && forall k :: 0 <= k < |cs| - 1 ==> ReceiverJoins(s, cs[k], cs[k + 1])
  }

  lemma {:induction false} JoinIsChain(s: State, t: Thread, d: ClientId, n: nat) returns (path: seq<Thread>)
    requires JoinsThrough(s, t, d, n) && t in s.threads
    ensures Chain(s, path) && |path| >= 2 && path[0] == t && path[|path| - 1] == Recv(d)
    decreases n
  {
    if n == 0 {
      path := [t, Recv(d)];
    } else {
      var rest := JoinIsChain(s, Inner(t), d, n - 1);
      path := [t] + rest;
      LongerChain(s, t, rest);
    }
  }

  lemma {:induction false} ReceiversAreChain(s: State, cs: seq<ClientId>) returns (path: seq<Thread>)
    requires Inv(s) && |cs| >= 2 && forall k :: 0 <= k < |cs| - 1 ==> ReceiverJoins(s, cs[k], cs[k + 1])
    ensures Chain(s, path) && |path| >= 2 && path[0] == Recv(cs[0]) && path[|path| - 1] == Recv(cs[|cs| - 1])
  {
    assert ReceiverJoins(s, cs[0], cs[0 + 1]);
    var n: nat :| n > 0 && JoinsThrough(s, Recv(cs[0]), cs[1], n);
    InvOfThread(s, Inner(Recv(cs[0])));
    path := JoinIsChain(s, Recv(cs[0]), cs[1], n);
    if |cs| > 2 {
      forall k | 0 <= k < |cs[1..]| - 1 ensures ReceiverJoins(s, cs[1..][k], cs[1..][k + 1]) {
        assert ReceiverJoins(s, cs[k + 1], cs[k + 1 + 1]);
      }
      var rest := ReceiversAreChain(s, cs[1..]);
      JoinChains(s, path, rest);
      path := path + rest[1..];
    }
  }

  /** Follows a chain without mutexes to the receiver at its end, and notes all receivers on the way. */
  lemma {:induction false} Follow(s: State, path: seq<Thread>) returns (n: nat, cs: seq<ClientId>)
    requires Inv(s) && Chain(s, path) && |path| >= 2 && path[|path| - 1].Recv?
    requires forall k :: 0 <= k < |path| ==> path[k] in s.threads && LevelOf(s, path[k]) == 3
    ensures cs != [] && cs[|cs| - 1] == path[|path| - 1].c && JoinsThrough(s, path[0], cs[0], n)
    ensures forall k :: 0 <= k < |cs| - 1 ==> ReceiverJoins(s, cs[k], cs[k + 1])
  {
    assert WaitsFor(s, path[0]) == Some(path[0 + 1]);
    if !Busy(s, path[0]) {
      JoinedIsReceiver(s, path[0], path[1]);
    }
    if |path| == 2 {
      n, cs := 0, [path[1].c];
    } else {
      RestOfChain(s, path);
      var m, rest := Follow(s, path[1..]);
      if Busy(s, path[0]) {
        n, cs := m + 1, rest;
      } else {
        n, cs := 0, [path[1].c] + rest;
        assert ReceiverJoins(s, path[1].c, rest[0]);
      }
    }
  }

  function Depth(t: Thread): nat {
    if t.Inner? then 1 + Depth(t.outer) else 0
  }

  /** Calls go deeper and deeper, so a circle does not consist of calls alone. */
  lemma {:induction false} FindJoin(s: State, path: seq<Thread>) returns (j: nat)
    requires Chain(s, path) && |path| >= 2 && Depth(path[|path| - 1]) <= Depth(path[0])
    ensures j < |path| - 1 && !Busy(s, path[j])
  {
    assert WaitsFor(s, path[0]) == Some(path[0 + 1]);
    if !Busy(s, path[0]) {
      j := 0;
    } else {
      RestOfChain(s, path);
      var k := FindJoin(s, path[1..]);
      j := k + 1;
    }
  }

  /** In every circle there are receivers that join each other in a circle, from callbacks made for messages. */
  lemma CircleHasReceivers(s: State, path: seq<Thread>) returns (cs: seq<ClientId>)
    requires Inv(s) && Circle(s, path)
    ensures ReceiverCircle(s, cs) && Recv(cs[0]) in path
    ensures Busy(s, Recv(cs[0])) && Recv(cs[0]) in s.threads && s.threads[Recv(cs[0])].main == Ready
  {
    var j := FindJoin(s, path);
    NoMutexInCircle(s, path, j);
    NoMutexInCircle(s, path, j + 1);
    assert WaitsFor(s, path[j]) == Some(path[j + 1]);
    JoinedIsReceiver(s, path[j], path[j + 1]);
    var q := Rotate(s, path, j + 1);
    forall k | 0 <= k < |q| ensures q[k] in s.threads && LevelOf(s, q[k]) == 3 {
      NoMutexInCircle(s, q, k);
    }
    var n, rest := Follow(s, q);
    cs := [path[j + 1].c] + rest;
    assert ReceiverJoins(s, cs[0], cs[1]);
  }

  /** In a reachable state threads wait for each other in a circle if and only if receivers join each other in one. */
  lemma CircleExactlyWhenReceiversJoin(states: seq<State>, i: nat)
    requires Run(states) && i < |states|
    ensures (exists path :: Circle(states[i], path)) <==> (exists cs :: ReceiverCircle(states[i], cs))
  {
    var s := states[i];
    InvAlways(states, i);
    if path :| Circle(s, path) {
      var cs := CircleHasReceivers(s, path);
    }
    if cs :| ReceiverCircle(s, cs) {
      var path := ReceiversAreChain(s, cs);
      assert Circle(s, path);
    }
  }

  /** As long as no callback that a receiver runs for a message is in a close call, there is no circle. */
  lemma NoCircularWait(states: seq<State>, i: nat, path: seq<Thread>)
    requires Run(states) && i < |states|
    requires forall c :: Recv(c) in states[i].threads && Busy(states[i], Recv(c)) ==>
               states[i].threads[Recv(c)].main != Ready
    ensures !Circle(states[i], path)
  {
    InvAlways(states, i);
    if Circle(states[i], path) {
      var cs := CircleHasReceivers(states[i], path);
    }
  }

  // ---- Deadlock ----

  /** Follows the waits from the last thread of a chain on, to one that waits for nobody or was met before. */
  lemma {:induction false} FollowWaits(s: State, path: seq<Thread>) returns (longer: seq<Thread>)
    requires Inv(s) && path != [] && Chain(s, path)
    requires forall k :: 0 <= k < |path| ==> path[k] in s.threads && !Finished(s, path[k])
    ensures longer != [] && longer[0] == path[0] && Chain(s, longer)
    ensures var u := longer[|longer| - 1];
            u in s.threads && !Finished(s, u) && (WaitsFor(s, u).None? || u in longer[..|longer| - 1])
    decreases s.threads.Keys - (set t | t in path)
  {
    var t := path[|path| - 1];
    if WaitsFor(s, t).None? {
      longer := path;
    } else {
      var u := WaitsFor(s, t).value;
      WaitedForIsThere(s, t, u);
      JoinChains(s, path, [t, u]);
      assert path + [t, u][1..] == path + [u];
      if u in path {
        longer := path + [u];
        assert longer[..|longer| - 1] == path;
      } else {
        assert u in s.threads.Keys - (set x | x in path);
        longer := FollowWaits(s, path + [u]);
      }
    }
  }

  /**
   A thread can take a step, or waits, through others, for one that can, or for a circle, or for a sender that
   nobody has notified, or for a close call outside of this model.
   */
  lemma NoDeadlock(states: seq<State>, i: nat, t: Thread) returns (path: seq<Thread>)
    requires Run(states) && i < |states| && t in states[i].threads && !Finished(states[i], t)
    ensures path != [] && path[0] == t && Chain(states[i], path)
    ensures var s, u := states[i], path[|path| - 1];
            && u in s.threads
            && (u in path[..|path| - 1] || DeadEnd(s, u) || Moves(s, u))
  {
    InvAlways(states, i);
    path := FollowWaits(states[i], [t]);
    MovesExactlyWhen(states, i, path[|path| - 1]);
  }

  /** Nobody has to do anything first, and yet the thread cannot take a step. */
  predicate DeadEnd(s: State, u: Thread) {
    u in s.threads && WaitsFor(s, u).None? && (Outside(s, s.threads[u]) || Asleep(s, u))
  }

  /** `t` is `u`, or waits for it, through others. */
  ghost predicate Leads(s: State, t: Thread, u: Thread) {
    exists path :: Chain(s, path) && path != [] && path[0] == t && path[|path| - 1] == u
  }

  /** Nothing that the thread waits for can move, and neither can the thread itself. */
  ghost predicate Stuck(s: State, t: Thread) {
    forall u :: Leads(s, t, u) ==> !Moves(s, u)
  }

  ghost predicate InCircle(s: State, u: Thread) {
    exists path :: Circle(s, path) && path[0] == u
  }

  /** There is one way to wait, so of two chains from the same thread one begins the other. */
  lemma {:induction false} OneWay(s: State, p: seq<Thread>, q: seq<Thread>)
    requires Chain(s, p) && Chain(s, q) && 0 < |p| <= |q| && p[0] == q[0]
    ensures p == q[..|p|]
  {
    if |p| > 1 {
      assert WaitsFor(s, p[0]) == Some(p[0 + 1]) && WaitsFor(s, q[0]) == Some(q[0 + 1]);
      RestOfChain(s, p);
      RestOfChain(s, q);
      OneWay(s, p[1..], q[1..]);
      assert p == [p[0]] + p[1..] && q[..|p|] == [q[0]] + q[1..][..|p| - 1];
    }
  }

  lemma OneEnd(s: State, t: Thread, u: Thread, v: Thread)
    requires Leads(s, t, u) && Leads(s, t, v) && WaitsFor(s, u).None? && WaitsFor(s, v).None?
    ensures u == v
  {
    var p :| Chain(s, p) && p != [] && p[0] == t && p[|p| - 1] == u;
    var q :| Chain(s, q) && q != [] && q[0] == t && q[|q| - 1] == v;
    if |p| <= |q| {
      LastOfShorter(s, p, q);
    } else {
      LastOfShorter(s, q, p);
    }
  }

  /** A chain whose last thread does not wait is not the beginning of a longer one. */
  lemma LastOfShorter(s: State, p: seq<Thread>, q: seq<Thread>)
    requires Chain(s, p) && Chain(s, q) && 0 < |p| <= |q| && p[0] == q[0] && WaitsFor(s, p[|p| - 1]).None?
    ensures |p| == |q| && p[|p| - 1] == q[|q| - 1]
  {
    assert |p| < |q| ==> WaitsFor(s, q[|p| - 1]) == Some(q[|p| - 1 + 1]);
    OneWay(s, p, q);
    assert p[|p| - 1] == q[|p| - 1];
  }

  /** Who waits for a thread of a circle never comes to one that does not wait. */
  lemma CircleHasNoEnd(s: State, t: Thread, u: Thread, v: Thread)
    requires InCircle(s, u) && Leads(s, t, u) && Leads(s, t, v)
    ensures WaitsFor(s, v).Some?
  {
    var p :| Chain(s, p) && p != [] && p[0] == t && p[|p| - 1] == u;
    var q :| Chain(s, q) && q != [] && q[0] == t && q[|q| - 1] == v;
    if |q| < |p| {
      if WaitsFor(s, v).None? {
        LastOfShorter(s, q, p);
      }
    } else {
      OneWay(s, p, q);
      assert p[|p| - 1] == q[|p| - 1];
      PartOfChain(s, q, |p| - 1, |q|);
      CircleGoesOn(s, q[|p| - 1..]);
    }
  }

  lemma {:induction false} CircleGoesOn(s: State, q: seq<Thread>)
    requires Chain(s, q) && q != [] && InCircle(s, q[0])
    ensures WaitsFor(s, q[|q| - 1]).Some?
  {
    var path :| Circle(s, path) && path[0] == q[0];
    assert WaitsFor(s, path[0]) == Some(path[0 + 1]);
    if |q| > 1 {
      assert WaitsFor(s, q[0]) == Some(q[0 + 1]);
      var next := Rotate(s, path, 1);
      RestOfChain(s, q);
      CircleGoesOn(s, q[1..]);
    }
  }

  lemma LeadsTo(s: State, path: seq<Thread>, j: nat)
    requires Chain(s, path) && j < |path|
    ensures Leads(s, path[0], path[j])
  {
    PartOfChain(s, path, 0, j + 1);
    assert path[0..j + 1][j] == path[j];
  }

  /** A thread that is waited for although it sleeps is joined, so that its client is closing. */
  lemma SleeperIsJoined(s: State, t: Thread, u: Thread)
    requires Inv(s) && WaitsFor(s, t) == Some(u) && Asleep(s, u)
    ensures u.Send? && u.c in s.clients && s.clients[u.c].closing
  {
    SleeperHoldsNothing(s, t, u);
    InvOfThread(s, t);
    JoinedIsOther(t, s.threads[t], u);
    JoiningIsClosing(s, t, s.threads[t]);
  }

  lemma SleeperHoldsNothing(s: State, t: Thread, u: Thread)
    requires Inv(s) && WaitsFor(s, t) == Some(u) && Asleep(s, u)
    ensures t in s.threads && NeedOf(t, s.threads[t]) == TheExit(u)
  {
    if !Busy(s, t) {
      match NeedOf(t, s.threads[t])
      case TheList => ListHolderKnown(s, u);
      case TheQueue(c) => QueueHolderKnown(s, c, u);
      case TheOnce(c) => OnceHolderKnown(s, c, u);
      case TheExit(_) =>
    }
  }

  lemma JoiningIsClosing(s: State, t: Thread, l: Local)
    requires ClosingOf(s, t, l) && l.main.Closing? && TearsDown(l, l.main.c)
             && (l.main.phase == JoinSend || l.main.phase == JoinRecv)
    ensures l.main.c in s.clients && s.clients[l.main.c].closing
  {
  }

  /** Whom a thread waits for through others, somebody waits for directly. */
  lemma SleeperIsClosing(s: State, t: Thread, u: Thread)
    requires Inv(s) && Leads(s, t, u) && Asleep(s, u) && u != t
    ensures u.Send? && u.c in s.clients && s.clients[u.c].closing
  {
    var path :| Chain(s, path) && path != [] && path[0] == t && path[|path| - 1] == u;
    var k := |path| - 2;
    assert WaitsFor(s, path[k]) == Some(path[k + 1]);
    SleeperIsJoined(s, path[k], u);
  }

  /**
   A thread is stuck, with all that it waits for, if and only if its waits lead into a circle, or to a sender that
   sleeps and was not notified, or to a close call outside of this model. A sleeper that is waited for belongs to a
   client that is closing.
   */
  lemma StuckExactlyWhen(states: seq<State>, i: nat, t: Thread)
    requires Run(states) && i < |states| && t in states[i].threads && !Finished(states[i], t)
    ensures var s := states[i];
            && (Stuck(s, t) <==> exists u :: Leads(s, t, u) && (InCircle(s, u) || DeadEnd(s, u)))
            && forall u :: Leads(s, t, u) && Asleep(s, u) && u != t ==>
                 u.Send? && u.c in s.clients && s.clients[u.c].closing
  {
    var s := states[i];
    InvAlways(states, i);
    if Stuck(s, t) {
      StuckHasReason(states, i, t);
    }
    if u :| Leads(s, t, u) && (InCircle(s, u) || DeadEnd(s, u)) {
      ReasonIsStuck(states, i, t, u);
    }
    forall u | Leads(s, t, u) && Asleep(s, u) && u != t
      ensures u.Send? && u.c in s.clients && s.clients[u.c].closing
    {
      SleeperIsClosing(s, t, u);
    }
  }

  lemma StuckHasReason(states: seq<State>, i: nat, t: Thread)
    requires Run(states) && i < |states| && t in states[i].threads && !Finished(states[i], t) && Stuck(states[i], t)
    ensures exists u :: Leads(states[i], t, u) && (InCircle(states[i], u) || DeadEnd(states[i], u))
  {
    var s := states[i];
    var path := NoDeadlock(states, i, t);
    var u := path[|path| - 1];
    LeadsTo(s, path, |path| - 1);
    if u in path[..|path| - 1] {
      var a :| 0 <= a < |path| - 1 && path[a] == u;
      PartOfChain(s, path, a, |path|);
      assert Circle(s, path[a..]);
      assert InCircle(s, u);
    }
  }

  lemma ReasonIsStuck(states: seq<State>, i: nat, t: Thread, u: Thread)
    requires Run(states) && i < |states| && Leads(states[i], t, u)
    requires InCircle(states[i], u) || DeadEnd(states[i], u)
    ensures Stuck(states[i], t)
  {
    var s := states[i];
    forall v | Leads(s, t, v) ensures !Moves(s, v) {
      if Moves(s, v) {
        assert v in s.threads;
        MovesExactlyWhen(states, i, v);
        if InCircle(s, u) {
          CircleHasNoEnd(s, t, u, v);
        } else {
          OneEnd(s, t, u, v);
        }
      }
    }
  }
}
