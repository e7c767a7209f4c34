/**
 What close calls come to: who takes a client out of the list closes it, and a close call goes through all of its
 phases.
 */
module WebSocketClosings {
  import opened Basics
  import opened WebSocketSystem
  import opened WebSocketInvariant
  import opened WebSocketOwners
  import opened WebSocketSafety
  import opened WebSocketCallbacks

  /** A thread at `m` is closing client `c`, or has yet to call its `closeWS`. */
  predicate Pends(m: Main, c: ClientId) {
    match m
    case CloseEach(todo) => c in todo
    case Closing(d, _, _, todo) => c == d || c in todo
    case _ => false
  }

  predicate PendsAt(s: State, t: Thread, c: ClientId) {
    t in s.threads && Pends(s.threads[t].main, c)
  }

  predicate IsWon(s: State, c: ClientId) {
    c in s.clients && s.clients[c].winner.Some?
  }

  // ---- A close call goes on until the client has a winner ----

  lemma OwnerPends(s: State, t: Thread, ch: Choice, c: ClientId)
    requires t in s.threads && OwnerEnabled(s, t, ch) && Pends(s.threads[t].main, c)
    ensures PendsAt(OwnerAfter(s, t, ch), t, c)
  {
  }

  /** A close call leaves its client once that has a winner, and goes on with the other clients. */
  lemma CloserPends(s: State, t: Thread, ch: Choice, c: ClientId)
    requires t in s.threads && CloseEnabled(s, t, ch) && Pends(s.threads[t].main, c)
    requires s.threads[t].main.kind != ByOwner ==> s.threads[t].main.todo == []
    requires s.threads[t].main.phase == DeleteThis ==> s.clients[s.threads[t].main.c].winner.Some?
    ensures PendsAt(CloseAfter(s, t, ch), t, c) || IsWon(CloseAfter(s, t, ch), c)
  {
  }

  lemma CloserKnows(s: State, t: Thread, l: Local)
    requires Shape(t, l) && ClosingOf(s, t, l) && l.main.Closing?
    ensures l.main.c in s.clients && (l.main.kind != ByOwner ==> l.main.todo == [])
    ensures l.main.phase == DeleteThis ==> s.clients[l.main.c].winner.Some?
  {
  }

  lemma OwnPends(s: State, t: Thread, ch: Choice, c: ClientId)
    requires Inv(s) && Enabled(s, t, ch) && PendsAt(s, t, c)
    ensures PendsAt(After(s, t, ch), t, c) || IsWon(After(s, t, ch), c)
  {
    InvOfThread(s, t);
    if s.threads[t].add.Some? || s.threads[t].cast.Some? {
      CallbackTurn(s, t, ch);
    } else if s.threads[t].main.Closing? {
      CloserKnows(s, t, s.threads[t]);
      CloserPends(s, t, ch, c);
    } else {
      OwnerPends(s, t, ch, c);
    }
  }

  lemma StepPends(s: State, t: Thread, ch: Choice, u: Thread, c: ClientId)
    requires Inv(s) && Enabled(s, t, ch) && PendsAt(s, u, c)
    ensures PendsAt(After(s, t, ch), u, c) || IsWon(After(s, t, ch), c)
  {
    if u == t {
      OwnPends(s, t, ch, c);
    } else {
      EachTurn(s, t, ch);
    }
  }

  lemma StepWon(s: State, t: Thread, ch: Choice, c: ClientId)
    requires Enabled(s, t, ch) && IsWon(s, c)
    ensures IsWon(After(s, t, ch), c)
  {
    EachStays(s, t, ch);
  }

  lemma NextPends(s: State, s': State, u: Thread, c: ClientId)
    requires Inv(s) && Next(s, s') && (PendsAt(s, u, c) || IsWon(s, c))
    ensures PendsAt(s', u, c) || IsWon(s', c)
  {
    var t, ch :| Enabled(s, t, ch) && s' == After(s, t, ch);
    if IsWon(s, c) {
      StepWon(s, t, ch, c);
    } else {
      StepPends(s, t, ch, u, c);
    }
  }

  /** Who has a client to close has it to close until somebody tears it down. */
  lemma {:induction false} PendsUntilWon(states: seq<State>, i: nat, j: nat, u: Thread, c: ClientId)
    requires Run(states) && i <= j < |states| && (PendsAt(states[i], u, c) || IsWon(states[i], c))
    ensures PendsAt(states[j], u, c) || IsWon(states[j], c)
    decreases j - i
  {
    if i < j {
      PendsUntilWon(states, i, j - 1, u, c);
      StepOfRun(states, j);
      NextPends(states[j - 1], states[j], u, c);
    }
  }

  /** A close call that has returned has closed its client, or somebody else has or is about to. */
  lemma ReturnedHasClosed(states: seq<State>, i: nat, j: nat, t: Thread, c: ClientId)
    requires Run(states) && i <= j < |states| && PendsAt(states[i], t, c)
    requires t in states[j].threads && states[j].threads[t].main == Ready
    ensures IsWon(states[j], c)
  {
    PendsUntilWon(states, i, j, t, c);
  }

  // ---- Who leaves the list is closed by the one that took it out ----

  /** Whoever is in the list afterwards was in it, or is published by this step; who has left it is to be closed. */
  predicate ListGoes(s: State, r: State, t: Thread) {
    match s
    case State(list, _, clients, _, _) =>
      && (forall c :: c in list && c !in r.list ==> PendsAt(r, t, c))
      && (forall c :: c in r.list && c !in list ==> c in clients && !clients[c].published)
      && (forall c :: c in r.clients && r.clients[c].published && !(c in clients && clients[c].published) ==>
            c in r.list)
  }

  lemma SameListGoes(s: State, r: State, t: Thread)
    requires r.list == s.list
    requires forall c :: c in r.clients && r.clients[c].published ==> c in s.clients && s.clients[c].published
    ensures ListGoes(s, r, t)
  {
  }

  lemma CallbackList(s: State, t: Thread, ch: Choice)
    requires Enabled(s, t, ch) && (s.threads[t].add.Some? || s.threads[t].cast.Some?)
    ensures ListGoes(s, After(s, t, ch), t)
  {
    SameListGoes(s, After(s, t, ch), t);
  }

  lemma SendList(s: State, t: Thread, ch: Choice)
    requires t in s.threads && SendEnabled(s, t, ch)
    ensures ListGoes(s, SendAfter(s, t, ch), t)
  {
    SameListGoes(s, SendAfter(s, t, ch), t);
  }

  lemma RecvList(s: State, t: Thread, ch: Choice)
    requires t in s.threads && RecvEnabled(s, t, ch)
    ensures ListGoes(s, RecvAfter(s, t, ch), t)
  {
    SameListGoes(s, RecvAfter(s, t, ch), t);
  }

  lemma OwnerList(s: State, t: Thread, ch: Choice)
    requires Inv(s) && t in s.threads && OwnerEnabled(s, t, ch)
    ensures ListGoes(s, OwnerAfter(s, t, ch), t)
  {
    if s.threads[t].main.DetachHeld? {
      DetachList(s, t, ch, s.threads[t].main.which);
    } else if s.threads[t].main.OpenPush? {
      InvOfThread(s, t);
      PushList(s, t, ch, s.threads[t].main.c);
    } else {
      CalmOwnerList(s, t, ch);
      SameListGoes(s, OwnerAfter(s, t, ch), t);
    }
  }

  lemma DetachList(s: State, t: Thread, ch: Choice, which: Option<ClientId>)
    requires t in s.threads && OwnerEnabled(s, t, ch) && s.threads[t].main == DetachHeld(which) && ListOk(s)
    ensures ListGoes(s, OwnerAfter(s, t, ch), t)
  {
    if which.Some? {
      MinusKeeps(s.list, which.value);
    }
  }

  lemma PushList(s: State, t: Thread, ch: Choice, c: ClientId)
    requires t in s.threads && OwnerEnabled(s, t, ch) && s.threads[t].main == OpenPush(c)
    requires OpeningOf(s, t, s.threads[t])
    ensures ListGoes(s, OwnerAfter(s, t, ch), t)
  {
  }

  lemma CalmOwnerList(s: State, t: Thread, ch: Choice)
    requires t in s.threads && OwnerEnabled(s, t, ch) && !s.threads[t].main.DetachHeld? && !s.threads[t].main.OpenPush?
    ensures var r := OwnerAfter(s, t, ch);
            && r.list == s.list
            && forall c :: c in r.clients && r.clients[c].published ==> c in s.clients && s.clients[c].published
  {
  }

  lemma CloseList(s: State, t: Thread, ch: Choice)
    requires Inv(s) && t in s.threads && CloseEnabled(s, t, ch)
    ensures ListGoes(s, CloseAfter(s, t, ch), t)
  {
    ClosePublishes(s, t, ch);
    if s.threads[t].main.phase == Erase {
      MinusKeeps(s.list, s.threads[t].main.c);
      ErasedPends(s, t, ch);
    } else {
      CloseKeepsList(s, t, ch);
      SameListGoes(s, CloseAfter(s, t, ch), t);
    }
  }

  lemma ErasedPends(s: State, t: Thread, ch: Choice)
    requires t in s.threads && CloseEnabled(s, t, ch) && s.threads[t].main.phase == Erase
    ensures var c, r := s.threads[t].main.c, CloseAfter(s, t, ch);
            r.list == Minus(s.list, c) && PendsAt(r, t, c)
  {
  }

  lemma CloseKeepsList(s: State, t: Thread, ch: Choice)
    requires t in s.threads && CloseEnabled(s, t, ch) && s.threads[t].main.phase != Erase
    ensures CloseAfter(s, t, ch).list == s.list
  {
  }

  lemma ClosePublishes(s: State, t: Thread, ch: Choice)
    requires t in s.threads && CloseEnabled(s, t, ch)
    ensures var r := CloseAfter(s, t, ch);
            forall c :: c in r.clients && r.clients[c].published ==> c in s.clients && s.clients[c].published
  {
  }

  lemma EachList(s: State, t: Thread, ch: Choice)
    requires Inv(s) && Enabled(s, t, ch)
    ensures ListGoes(s, After(s, t, ch), t)
  {
    if s.threads[t].add.Some? || s.threads[t].cast.Some? {
      CallbackList(s, t, ch);
    } else if SendEnabled(s, t, ch) {
      SendList(s, t, ch);
    } else if RecvEnabled(s, t, ch) {
      RecvList(s, t, ch);
    } else if OwnerEnabled(s, t, ch) {
      OwnerList(s, t, ch);
    } else {
      CloseList(s, t, ch);
    }
  }

  ghost predicate SomebodyCloses(s: State, c: ClientId) {
    exists t :: PendsAt(s, t, c)
  }

  /** A client that was in the list once is in it, is being torn down or has been, or is about to be closed. */
  ghost predicate Tended(s: State, c: ClientId) {
    c in s.clients && s.clients[c].published && c !in s.list ==> IsWon(s, c) || SomebodyCloses(s, c)
  }

  lemma StepTended(s: State, t: Thread, ch: Choice, c: ClientId)
    requires Inv(s) && Enabled(s, t, ch) && Tended(s, c)
    ensures Tended(After(s, t, ch), c)
  {
    var r := After(s, t, ch);
    EachList(s, t, ch);
    if c in r.clients && r.clients[c].published && c !in r.list {
      assert c in s.clients && s.clients[c].published;
      if c in s.list {
        assert PendsAt(r, t, c);
      } else if IsWon(s, c) {
        StepWon(s, t, ch, c);
      } else {
        var u :| PendsAt(s, u, c);
        StepPends(s, t, ch, u, c);
      }
    }
  }

  lemma NextTended(s: State, s': State, c: ClientId)
    requires Inv(s) && Next(s, s') && Tended(s, c)
    ensures Tended(s', c)
  {
    var t, ch :| Enabled(s, t, ch) && s' == After(s, t, ch);
    StepTended(s, t, ch, c);
  }

  /**
   No client is lost: in every reachable state a client that has been in the list is in it still, or has a thread
   that tears it down or has done so, or is about to be closed by a thread.
   */
  lemma {:induction false} NoClientIsLost(states: seq<State>, i: nat, c: ClientId)
    requires Run(states) && i < |states|
    ensures Tended(states[i], c)
  {
    if i > 0 {
      NoClientIsLost(states, i - 1, c);
      StepOfRun(states, i);
      NextTended(states[i - 1], states[i], c);
    }
  }

  // ---- What a call detaches ----

  /** The client was in the list once, and is not. */
  predicate HasLeft(s: State, c: ClientId) {
    match s
    case State(list, _, clients, _, _) => c in clients && clients[c].published && c !in list
  }

  lemma StepNeverListed(s: State, t: Thread, ch: Choice, c: ClientId)
    requires Inv(s) && Enabled(s, t, ch) && HasLeft(s, c)
    ensures HasLeft(After(s, t, ch), c)
  {
    EachStays(s, t, ch);
    EachList(s, t, ch);
  }

  lemma NextNeverListed(s: State, s': State, c: ClientId)
    requires Inv(s) && Next(s, s') && HasLeft(s, c)
    ensures HasLeft(s', c)
  {
    var t, ch :| Enabled(s, t, ch) && s' == After(s, t, ch);
    StepNeverListed(s, t, ch, c);
  }

  /** Who has left the list does not come back. */
  lemma {:induction false} NeverListedAgain(states: seq<State>, i: nat, j: nat, c: ClientId)
    requires Run(states) && i <= j < |states| && HasLeft(states[i], c)
    ensures HasLeft(states[j], c)
    decreases j - i
  {
    if i < j {
      NeverListedAgain(states, i, j - 1, c);
      StepOfRun(states, j);
      NextNeverListed(states[j - 1], states[j], c);
    }
  }

  predicate IsDetached(s: State, t: Thread, c: ClientId) {
    HasLeft(s, c) && (PendsAt(s, t, c) || IsWon(s, c))
  }

  /** While a thread is about to detach clients, the list is as it has found it; then they are detached. */
  lemma StepDetaches(s: State, u: Thread, ch: Choice, t: Thread, which: Option<ClientId>, c: ClientId)
    requires Inv(s) && Enabled(s, u, ch) && t in s.threads && s.threads[t].main == DetachHeld(which)
    requires c in s.list && (which == None || which == Some(c))
    ensures var r := After(s, u, ch);
            (t in r.threads && r.threads[t].main == DetachHeld(which) && r.list == s.list) || IsDetached(r, t, c)
  {
    ListHolderIs(s, t);
    EachStays(s, u, ch);
    assert ListOk(s);
    if u == t {
      HolderDetaches(s, t, ch, which, c);
    } else {
      EachTurn(s, u, ch);
      OthersLeaveList(s, u, ch, t);
    }
  }

  lemma ListHolderIs(s: State, t: Thread)
    requires Inv(s) && t in s.threads && s.threads[t].main.DetachHeld?
    ensures s.listHolder == Some(t) && s.threads[t].add.None? && s.threads[t].cast.None?
  {
    InvOfThread(s, t);
    DetacherHolds(s, t, s.threads[t]);
  }

  lemma DetacherHolds(s: State, t: Thread, l: Local)
    requires Shape(t, l) && MutexesOf(s, t, l) && l.main.DetachHeld?
    ensures s.listHolder == Some(t) && l.add.None? && l.cast.None?
  {
  }

  lemma HolderDetaches(s: State, t: Thread, ch: Choice, which: Option<ClientId>, c: ClientId)
    requires Enabled(s, t, ch) && s.threads[t].main == DetachHeld(which)
    requires s.threads[t].add.None? && s.threads[t].cast.None? && ListOk(s)
    requires c in s.list && (which == None || which == Some(c))
    ensures IsDetached(After(s, t, ch), t, c)
  {
    MinusKeeps(s.list, c);
  }

  /** Who does not hold the mutex of the list leaves the list alone. */
  lemma OthersLeaveList(s: State, u: Thread, ch: Choice, t: Thread)
    requires Inv(s) && Enabled(s, u, ch) && s.listHolder == Some(t) && u != t
    ensures After(s, u, ch).list == s.list
  {
    InvOfThread(s, u);
    HoldsNoList(s, u, s.threads[u], t);
    if s.threads[u].add.Some? || s.threads[u].cast.Some? {
      CallbackKeepsList(s, u, ch);
    } else if SendEnabled(s, u, ch) {
      SendKeepsList(s, u, ch);
    } else if RecvEnabled(s, u, ch) {
    } else if OwnerEnabled(s, u, ch) {
      CalmOwnerList(s, u, ch);
    } else {
      CloseKeepsList(s, u, ch);
    }
  }

  lemma CallbackKeepsList(s: State, t: Thread, ch: Choice)
    requires Enabled(s, t, ch) && (s.threads[t].add.Some? || s.threads[t].cast.Some?)
    ensures After(s, t, ch).list == s.list
  {
  }

  lemma SendKeepsList(s: State, t: Thread, ch: Choice)
    requires t in s.threads && SendEnabled(s, t, ch)
    ensures SendAfter(s, t, ch).list == s.list
  {
  }

  lemma HoldsNoList(s: State, u: Thread, l: Local, t: Thread)
    requires MutexesOf(s, u, l) && s.listHolder == Some(t) && u != t
    ensures !l.main.DetachHeld? && !l.main.OpenPush? && (l.main.Closing? ==> l.main.phase != Erase)
  {
  }

  lemma NextDetaches(s: State, s': State, t: Thread, which: Option<ClientId>, c: ClientId)
    requires Inv(s) && Next(s, s') && t in s.threads && s.threads[t].main == DetachHeld(which)
    requires c in s.list && (which == None || which == Some(c))
    ensures (t in s'.threads && s'.threads[t].main == DetachHeld(which) && s'.list == s.list) || IsDetached(s', t, c)
  {
    var u, ch :| Enabled(s, u, ch) && s' == After(s, u, ch);
    StepDetaches(s, u, ch, t, which, c);
  }

  lemma NextIsDetached(s: State, s': State, t: Thread, c: ClientId)
    requires Inv(s) && Next(s, s') && IsDetached(s, t, c)
    ensures IsDetached(s', t, c)
  {
    NextPends(s, s', t, c);
    NextNeverListed(s, s', c);
  }

  lemma {:induction false} DetachingOrDetached(states: seq<State>, i: nat, j: nat, t: Thread,
                                               which: Option<ClientId>, c: ClientId)
    requires Run(states) && i <= j < |states| && t in states[i].threads
    requires states[i].threads[t].main == DetachHeld(which)
    requires c in states[i].list && (which == None || which == Some(c))
    ensures var s := states[j];
            || (t in s.threads && s.threads[t].main == DetachHeld(which) && s.list == states[i].list)
            || IsDetached(s, t, c)
    decreases j - i
  {
    if i < j {
      DetachingOrDetached(states, i, j - 1, t, which, c);
      StepOfRun(states, j);
      if IsDetached(states[j - 1], t, c) {
        NextIsDetached(states[j - 1], states[j], t, c);
      } else {
        NextDetaches(states[j - 1], states[j], t, which, c);
      }
    }
  }

  /**
   When a call that detaches clients has returned, each client that it found in the list under the mutex, or the one
   of its request, is out of the list for good and has a thread that has won `closeOnce` for it.
   */
  lemma DetachedAreClosed(states: seq<State>, i: nat, j: nat, t: Thread, which: Option<ClientId>, c: ClientId)
    requires Run(states) && i <= j < |states| && t in states[i].threads
    requires states[i].threads[t].main == DetachHeld(which)
    requires c in states[i].list && (which == None || which == Some(c))
    requires t in states[j].threads && states[j].threads[t].main == Ready
    ensures IsWon(states[j], c) && c !in states[j].list
  {
    DetachingOrDetached(states, i, j, t, which, c);
  }

  /** What a close call made by `t` runs as: the thread of the application itself, or a call inside of a callback. */
  function Caller(s: State, t: Thread): Thread
    requires t in s.threads
  {
    if t.Owner? && s.threads[t].main == Ready then t else Inner(t)
  }

  predicate StandsAt(s: State, t: Thread, m: Main) {
    t in s.threads && s.threads[t].main == m
  }

  predicate IsCall(ch: Choice) {
    ch.Detach? || ch.CloseOne?
  }

  predicate HasBegun(r: State, u: Thread, ch: Choice)
    requires IsCall(ch)
  {
    match ch
    case Detach(which) => StandsAt(r, u, DetachLock(which))
    case CloseOne(c) => PendsAt(r, u, c)
  }

  /** A call to remove or close clients begins with what it is to remove or close. */
  lemma CallBegins(s: State, t: Thread, ch: Choice)
    requires Enabled(s, t, ch) && IsCall(ch)
    ensures HasBegun(After(s, t, ch), Caller(s, t), ch)
  {
    SendersDoNotCall(s, t, ch);
    if OwnerEnabled(s, t, ch) {
      OwnerBegins(s, t, ch);
    } else if RecvEnabled(s, t, ch) {
      CallHasBegun(s, t, ch);
    } else {
      CloserBegins(s, t, ch);
      CallHasBegun(s, t, ch);
    }
  }

  lemma SendersDoNotCall(s: State, t: Thread, ch: Choice)
    requires t in s.threads && IsCall(ch)
    ensures !SendEnabled(s, t, ch) && (RecvEnabled(s, t, ch) ==> !OwnerEnabled(s, t, ch))
  {
  }

  lemma CallHasBegun(s: State, t: Thread, ch: Choice)
    requires IsCall(ch)
    ensures HasBegun(CallAfter(s, t, ch), Inner(t), ch)
  {
  }

  lemma OwnerBegins(s: State, t: Thread, ch: Choice)
    requires t in s.threads && OwnerEnabled(s, t, ch) && IsCall(ch)
    ensures t.Owner? && s.threads[t].main == Ready && HasBegun(OwnerAfter(s, t, ch), t, ch)
  {
  }

  lemma CloserBegins(s: State, t: Thread, ch: Choice)
    requires t in s.threads && CloseEnabled(s, t, ch) && IsCall(ch)
    ensures CloseAfter(s, t, ch) == CallAfter(s, t, ch)
  {
  }

  lemma OwnDetachLock(s: State, t: Thread, ch: Choice, which: Option<ClientId>)
    requires Inv(s) && Enabled(s, t, ch) && StandsAt(s, t, DetachLock(which))
    ensures StandsAt(After(s, t, ch), t, DetachHeld(which))
  {
    InvOfThread(s, t);
    LockerIsCalm(t, s.threads[t]);
  }

  lemma LockerIsCalm(t: Thread, l: Local)
    requires Shape(t, l) && l.main.DetachLock?
    ensures l.add.None? && l.cast.None? && !t.Send? && !t.Recv?
  {
  }

  lemma NextDetachLock(s: State, s': State, t: Thread, which: Option<ClientId>)
    requires Inv(s) && Next(s, s') && StandsAt(s, t, DetachLock(which))
    ensures StandsAt(s', t, DetachLock(which)) || StandsAt(s', t, DetachHeld(which))
  {
    var u, ch :| Enabled(s, u, ch) && s' == After(s, u, ch);
    if u == t {
      OwnDetachLock(s, t, ch, which);
    } else {
      EachTurn(s, u, ch);
    }
  }

  lemma {:induction false} TakesTheMutex(states: seq<State>, i: nat, j: nat, t: Thread, which: Option<ClientId>)
      returns (k: nat)
    requires Run(states) && i <= j < |states| && StandsAt(states[i], t, DetachLock(which))
    ensures i <= k <= j
    ensures (k == j && StandsAt(states[j], t, DetachLock(which))) || StandsAt(states[k], t, DetachHeld(which))
    decreases j - i
  {
    if i == j {
      k := j;
    } else {
      k := TakesTheMutex(states, i, j - 1, t, which);
      if StandsAt(states[k], t, DetachLock(which)) {
        StepOfRun(states, j);
        NextDetachLock(states[j - 1], states[j], t, which);
        k := j;
      }
    }
  }

  /**
   removeAllClients, and removeClient of the client of a request, from the call on: when it has returned there was a
   moment, under the mutex, whose list it has dealt with: all of its clients, or the one of the request.
   */
  lemma RemovalCloses(states: seq<State>, i: nat, j: nat, t: Thread, which: Option<ClientId>) returns (k: nat)
    requires Run(states) && i <= j < |states| && StandsAt(states[i], t, DetachLock(which))
    requires StandsAt(states[j], t, Ready)
    ensures i <= k <= j && states[k].listHolder == Some(t)
    ensures forall c :: c in states[k].list && (which == None || which == Some(c)) ==>
              IsWon(states[j], c) && c !in states[j].list
  {
    k := TakesTheMutex(states, i, j, t, which);
    InvAlways(states, k);
    ListHolderIs(states[k], t);
    forall c | c in states[k].list && (which == None || which == Some(c))
      ensures IsWon(states[j], c) && c !in states[j].list
    {
      DetachedAreClosed(states, k, j, t, which, c);
    }
  }

  // ---- The phases of a close call ----

  predicate AtPhase(s: State, t: Thread, c: ClientId, kind: Kind, phase: ClosePhase) {
    match s
    case State(_, _, _, threads, _) =>
      && t in threads && threads[t].main.Closing?
      && threads[t].main.c == c && threads[t].main.kind == kind && threads[t].main.phase == phase
  }

  /** The phase before. */
  function PhaseBefore(phase: ClosePhase): ClosePhase {
    match phase
    case LockOnce => LockOnce case HoldOnce => LockOnce case SetClosing => HoldOnce case LockList => SetClosing
    case Erase => LockList case OnClosing => Erase case Announce => OnClosing case JoinSend => Announce
    case JoinRecv => JoinSend case FreeSocket => JoinRecv case FreeRequest => FreeSocket
    case LockQueue => FreeRequest case DrainQueue => LockQueue case DeleteThis => DrainQueue
  }

  lemma CloserCameFrom(s: State, t: Thread, ch: Choice, c: ClientId, kind: Kind, phase: ClosePhase)
    requires t in s.threads && CloseEnabled(s, t, ch) && phase != LockOnce
    requires AtPhase(CloseAfter(s, t, ch), t, c, kind, phase)
    ensures AtPhase(s, t, c, kind, phase) || AtPhase(s, t, c, kind, PhaseBefore(phase))
  {
  }

  lemma StepCameFrom(s: State, u: Thread, ch: Choice, t: Thread, c: ClientId, kind: Kind, phase: ClosePhase)
    requires Inv(s) && Enabled(s, u, ch) && phase != LockOnce && AtPhase(After(s, u, ch), t, c, kind, phase)
    ensures AtPhase(s, t, c, kind, phase) || AtPhase(s, t, c, kind, PhaseBefore(phase))
  {
    EachTurn(s, u, ch);
    if u == t {
      OwnCameFrom(s, t, ch, c, kind, phase);
    } else {
      OthersCameFrom(s, u, ch, t, c, kind, phase);
    }
  }

  lemma OwnCameFrom(s: State, t: Thread, ch: Choice, c: ClientId, kind: Kind, phase: ClosePhase)
    requires Enabled(s, t, ch) && phase != LockOnce && AtPhase(After(s, t, ch), t, c, kind, phase)
    ensures AtPhase(s, t, c, kind, phase) || AtPhase(s, t, c, kind, PhaseBefore(phase))
  {
    if s.threads[t].add.Some? || s.threads[t].cast.Some? {
      CallbackTurn(s, t, ch);
    } else if SendEnabled(s, t, ch) {
      SendCameFrom(s, t, ch);
    } else if RecvEnabled(s, t, ch) {
      RecvCameFrom(s, t, ch);
    } else if OwnerEnabled(s, t, ch) {
      OwnerCameFrom(s, t, ch);
    } else {
      CloserCameFrom(s, t, ch, c, kind, phase);
    }
  }

  predicate StartsClosing(r: State, t: Thread) {
    t in r.threads && (r.threads[t].main.Closing? ==> r.threads[t].main.phase == LockOnce)
  }

  lemma SendCameFrom(s: State, t: Thread, ch: Choice)
    requires t in s.threads && SendEnabled(s, t, ch)
    ensures StartsClosing(SendAfter(s, t, ch), t)
  {
  }

  lemma RecvCameFrom(s: State, t: Thread, ch: Choice)
    requires t in s.threads && RecvEnabled(s, t, ch)
    ensures StartsClosing(RecvAfter(s, t, ch), t)
  {
  }

  lemma OwnerCameFrom(s: State, t: Thread, ch: Choice)
    requires t in s.threads && OwnerEnabled(s, t, ch)
    ensures StartsClosing(OwnerAfter(s, t, ch), t)
  {
  }

  /** A step of one thread does not bring another one into a close call. */
  lemma OthersCameFrom(s: State, u: Thread, ch: Choice, t: Thread, c: ClientId, kind: Kind, phase: ClosePhase)
    requires Inv(s) && Enabled(s, u, ch) && t != u && AtPhase(After(s, u, ch), t, c, kind, phase)
    ensures AtPhase(s, t, c, kind, phase)
  {
    EachTurn(s, u, ch);
    if t in s.threads && t != Inner(u) {
    } else if t == Inner(u) {
      CallStartsEarly(s, After(s, u, ch), u, ch);
    } else {
      StartedOutside(s, u, ch, t);
    }
  }

  lemma CallStartsEarly(s: State, r: State, u: Thread, ch: Choice)
    requires CallsOrNot(s, r, u, ch) && Inner(u) in r.threads && r.threads[Inner(u)].main.Closing?
    ensures Inner(u) in s.threads && s.threads[Inner(u)].main == r.threads[Inner(u)].main
  {
  }

  lemma StartedOutside(s: State, u: Thread, ch: Choice, t: Thread)
    requires Inv(s) && Enabled(s, u, ch) && t !in s.threads && t != Inner(u) && t in After(s, u, ch).threads
    ensures !After(s, u, ch).threads[t].main.Closing?
  {
    if s.threads[u].add.None? && s.threads[u].cast.None? && OwnerEnabled(s, u, ch) {
      OwnerStartsOutside(s, u, ch, t);
    } else {
      EachTurn(s, u, ch);
      NobodyStarted(s, u, ch, t);
    }
  }

  lemma OwnerStartsOutside(s: State, u: Thread, ch: Choice, t: Thread)
    requires u in s.threads && OwnerEnabled(s, u, ch) && t !in s.threads && t in OwnerAfter(s, u, ch).threads
    ensures !OwnerAfter(s, u, ch).threads[t].main.Closing?
  {
  }

  lemma NobodyStarted(s: State, u: Thread, ch: Choice, t: Thread)
    requires Enabled(s, u, ch) && t !in s.threads && t != Inner(u)
    requires s.threads[u].add.Some? || s.threads[u].cast.Some? || !OwnerEnabled(s, u, ch)
    ensures t !in After(s, u, ch).threads
  {
    if s.threads[u].add.None? && s.threads[u].cast.None? && CloseEnabled(s, u, ch) {
      CloserStarts(s, u, ch, t);
    }
  }

  lemma CloserStarts(s: State, u: Thread, ch: Choice, t: Thread)
    requires u in s.threads && CloseEnabled(s, u, ch) && t !in s.threads && t != Inner(u)
    ensures t !in CloseAfter(s, u, ch).threads
  {
  }

  lemma NextCameFrom(s: State, s': State, t: Thread, c: ClientId, kind: Kind, phase: ClosePhase)
    requires Inv(s) && Next(s, s') && phase != LockOnce && AtPhase(s', t, c, kind, phase)
    ensures AtPhase(s, t, c, kind, phase) || AtPhase(s, t, c, kind, PhaseBefore(phase))
  {
    var u, ch :| Enabled(s, u, ch) && s' == After(s, u, ch);
    StepCameFrom(s, u, ch, t, c, kind, phase);
  }

  lemma LastCameFrom(states: seq<State>, j: nat, t: Thread, c: ClientId, kind: Kind, phase: ClosePhase)
    requires Run(states) && j < |states| && AtPhase(states[j], t, c, kind, phase) && phase != LockOnce
    ensures j > 0
    ensures AtPhase(states[j - 1], t, c, kind, phase) || AtPhase(states[j - 1], t, c, kind, PhaseBefore(phase))
  {
    if j > 0 {
      StepOfRun(states, j);
      NextCameFrom(states[j - 1], states[j], t, c, kind, phase);
    }
  }

  /** No phase is skipped: a close call has gone through all that come before the one where it stands, in order. */
  lemma {:induction false} NoPhaseIsSkipped(states: seq<State>, j: nat, t: Thread, c: ClientId, kind: Kind,
                                            phase: ClosePhase) returns (i: nat)
    requires Run(states) && j < |states| && AtPhase(states[j], t, c, kind, phase) && phase != LockOnce
    ensures i < j && AtPhase(states[i], t, c, kind, PhaseBefore(phase))
    ensures forall k :: i < k <= j ==> AtPhase(states[k], t, c, kind, phase)
    decreases j
  {
    LastCameFrom(states, j, t, c, kind, phase);
    if AtPhase(states[j - 1], t, c, kind, phase) {
      i := NoPhaseIsSkipped(states, j - 1, t, c, kind, phase);
    } else {
      i := j - 1;
    }
  }
}
