/**
 Runs that show what the code does not promise: receivers that join each other in any ring that callbacks may close
 each other in, a close call that comes to a client after its deletion, and a sending thread that goes to sleep after
 it was notified.
 */
module WebSocketRuns {
  import opened Basics
  import opened SendingQueue
  import opened WebSocketSystem
  import opened WebSocketInvariant
  import opened WebSocketOwners
  import opened WebSocketTeardown
  import opened WebSocketSafety
  import opened WebSocketDelivery
  import opened WebSocketWaits
  import opened WebSocketCallbacks
  import opened WebSocketWakeups

  /** What is asked of a run: the rule that its callbacks keep to, and how it begins. */
  datatype Past = Past(may: Rule, start: seq<State>)

  /** A run with the past `p` ends in `s`. */
  ghost predicate Reachable(p: Past, s: State) {
    match s
    case State(_, _, _, _, _) =>
      exists states :: RuledRun(states, p.may) && p.start <= states && states[|states| - 1] == s
  }

  lemma LongerRun(may: Rule, states: seq<State>, s': State)
    requires RuledRun(states, may) && RuledNext(states[|states| - 1], s', may)
    ensures RuledRun(states + [s'], may)
  {
    var more := states + [s'];
    forall i, j | 0 <= i && j == i + 1 < |more| ensures RuledNext(more[i], more[j], may) {
      if j < |states| {
        assert RuledNext(states[i], states[j], may);
      }
    }
  }

  lemma RunTo(p: Past, s: State) returns (states: seq<State>)
    requires Reachable(p, s)
    ensures RuledRun(states, p.may) && Run(states) && p.start <= states && states[|states| - 1] == s
  {
    states :| RuledRun(states, p.may) && p.start <= states && states[|states| - 1] == s;
    RuledRunIsRun(states, p.may);
  }

  lemma Reach(p: Past, s: State, t: Thread, ch: Choice)
    requires Reachable(p, s) && Enabled(s, t, ch) && Follows(t, s.threads[t], ch, p.may)
    ensures Reachable(p, After(s, t, ch))
  {
    var states := RunTo(p, s);
    assert RuledNext(s, After(s, t, ch), p.may);
    LongerRun(p.may, states, After(s, t, ch));
  }

  lemma ReachableInv(p: Past, s: State)
    requires Reachable(p, s)
    ensures Inv(s)
  {
    var states := RunTo(p, s);
    InvAlways(states, |states| - 1);
  }

  // ---- Which step is next ----

  lemma CloseIsNext(s: State, t: Thread)
    requires t in s.threads && !Busy(s, t) && s.threads[t].add.None? && s.threads[t].cast.None?
             && CloseEnabled(s, t, Go)
    ensures Enabled(s, t, Go) && After(s, t, Go) == CloseAfter(s, t, Go)
  {
  }

  lemma OwnerIsNext(s: State, t: Thread, ch: Choice)
    requires t in s.threads && !Busy(s, t) && s.threads[t].add.None? && s.threads[t].cast.None?
             && OwnerEnabled(s, t, ch)
    ensures Enabled(s, t, ch) && After(s, t, ch) == OwnerAfter(s, t, ch)
  {
  }

  lemma RecvIsNext(s: State, t: Thread, ch: Choice)
    requires t in s.threads && !Busy(s, t) && s.threads[t].add.None? && s.threads[t].cast.None? && RecvEnabled(s, t, ch)
    ensures Enabled(s, t, ch) && After(s, t, ch) == RecvAfter(s, t, ch)
  {
  }

  lemma SendIsNext(s: State, t: Thread)
    requires t in s.threads && !Busy(s, t) && s.threads[t].add.None? && s.threads[t].cast.None? && SendEnabled(s, t, Go)
    ensures Enabled(s, t, Go) && After(s, t, Go) == SendAfter(s, t, Go)
  {
  }

  // ---- Opening ----

  const OPENED: Client := NEW_CLIENT.(published := true)

  /** The server alone, outside of any call, with one application thread. */
  function Server(k: nat): State {
    State([], None, map[], map[Owner(k) := At(Ready)], 0)
  }

  lemma ServerIsReachable(may: Rule, k: nat)
    ensures Reachable(Past(may, []), Server(k))
  {
    assert RuledRun([Server(k)], may);
  }

  /** `s` with one more client, and nothing else changed. */
  function WithOpened(s: State, c: ClientId): State {
    State(s.list + [c], None, s.clients[c := OPENED],
          s.threads[Recv(c) := At(Ready)][Send(c) := At(SendLock)], s.nextMsg)
  }

  predicate CanOpen(s: State, k: nat, c: ClientId) {
    && Owner(k) in s.threads && s.threads[Owner(k)] == At(Ready) && Inner(Owner(k)) !in s.threads
    && s.listHolder.None? && c !in s.clients
  }

  lemma OwnerReaches(p: Past, s: State, t: Thread, ch: Choice, r: State)
    requires Reachable(p, s) && t in s.threads && !Busy(s, t) && s.threads[t].add.None? && s.threads[t].cast.None?
    requires OwnerEnabled(s, t, ch) && r == OwnerAfter(s, t, ch)
    ensures Reachable(p, r)
  {
    OwnerIsNext(s, t, ch);
    Reach(p, s, t, ch);
  }

  /** The opening thread at `m`, where only it and the list mutex are different. */
  function Asking(s: State, k: nat, m: Main, holder: Option<Thread>): State {
    With(s, Owner(k), At(m)).(listHolder := holder)
  }

  lemma OpeningAsks(p: Past, s: State, k: nat, c: ClientId)
    requires Reachable(p, s) && CanOpen(s, k, c)
    ensures Reachable(p, Asking(s, k, OpenAsk, Some(Owner(k))))
  {
    OwnerReaches(p, s, Owner(k), Open, Asking(s, k, OpenLock, None));
    var s1 := Asking(s, k, OpenLock, None);
    assert s1.threads[Owner(k) := At(OpenAsk)] == s.threads[Owner(k) := At(OpenAsk)];
    OwnerReaches(p, s1, Owner(k), Go, Asking(s, k, OpenAsk, Some(Owner(k))));
  }

  /** The opening thread at `m`, with a client and the thread that it has started. */
  function Accepted(s: State, k: nat, c: ClientId, m: Main): State {
    State(s.list, Some(Owner(k)), s.clients[c := NEW_CLIENT],
          s.threads[Recv(c) := At(Ready)][Owner(k) := At(m)], s.nextMsg)
  }

  lemma OpeningAccepts(p: Past, s: State, k: nat, c: ClientId)
    requires CanOpen(s, k, c) && Reachable(p, Asking(s, k, OpenAsk, Some(Owner(k))))
    ensures Reachable(p, Accepted(s, k, c, OpenStartSend(c)))
  {
    var x := Asking(s, k, OpenAsk, Some(Owner(k)));
    assert x.threads[Recv(c) := At(Ready)][Owner(k) := At(OpenStartSend(c))]
           == Accepted(s, k, c, OpenStartSend(c)).threads;
    OwnerReaches(p, x, Owner(k), Accept(c), Accepted(s, k, c, OpenStartSend(c)));
  }

  lemma OpeningEnds(p: Past, s: State, k: nat, c: ClientId)
    requires CanOpen(s, k, c) && Reachable(p, Accepted(s, k, c, OpenStartSend(c)))
    ensures Reachable(p, WithOpened(s, c))
  {
    var x := Accepted(s, k, c, OpenStartSend(c));
    var y := With(With(x, Send(c), At(SendLock)), Owner(k), At(OpenPush(c)));
    OwnerReaches(p, x, Owner(k), Go, y);
    assert y.clients[c := OPENED] == s.clients[c := OPENED];
    assert y.threads[Owner(k) := At(Ready)] == WithOpened(s, c).threads;
    OwnerReaches(p, y, Owner(k), Go, WithOpened(s, c));
  }

  lemma OpenClient(p: Past, s: State, k: nat, c: ClientId)
    requires Reachable(p, s) && CanOpen(s, k, c)
    ensures Reachable(p, WithOpened(s, c))
  {
    OpeningAsks(p, s, k, c);
    OpeningAccepts(p, s, k, c);
    OpeningEnds(p, s, k, c);
  }

  // ---- Closing ----

  lemma Overwritten<K, V>(m: map<K, V>, k: K, v: V, v': V, l: K, w: V)
    ensures m[k := v][k := v'] == m[k := v'] && (k != l ==> m[k := v][l := w][k := v'] == m[k := v'][l := w])
  {
  }

  /** `s`, but for a closing thread `u`, a client `d` with its sending thread, and the list. */
  function Scene(s: State, u: Thread, m: Main, d: ClientId, y: Client, sender: Main,
                 list: seq<ClientId>, holder: Option<Thread>): State {
    State(list, holder, s.clients[d := y], s.threads[u := At(m)][Send(d) := At(sender)], s.nextMsg)
  }

  /** Neither the closing thread nor the sending thread is in a call. */
  predicate Alone(s: State, u: Thread, d: ClientId) {
    match s
    case State(_, _, _, threads, _) =>
      u != Send(d) && Inner(u) !in threads && Inner(Send(d)) !in threads && u != Inner(Send(d))
  }

  lemma CloserMoves(s: State, u: Thread, m: Main, d: ClientId, y: Client, sender: Main, list: seq<ClientId>,
                    holder: Option<Thread>, m': Main, y': Client)
    requires u != Send(d)
    ensures With(WithClient(Scene(s, u, m, d, y, sender, list, holder), d, y'), u, At(m'))
            == Scene(s, u, m', d, y', sender, list, holder)
  {
    Overwritten(s.clients, d, y, y', d, y);
    Overwritten(s.threads, u, At(m), At(m'), Send(d), At(sender));
  }

  lemma OnlyCloserMoves(s: State, u: Thread, m: Main, d: ClientId, y: Client, sender: Main, list: seq<ClientId>,
                        holder: Option<Thread>, m': Main)
    requires u != Send(d)
    ensures With(Scene(s, u, m, d, y, sender, list, holder), u, At(m')) == Scene(s, u, m', d, y, sender, list, holder)
  {
    Overwritten(s.threads, u, At(m), At(m'), Send(d), At(sender));
  }

  lemma SenderMoves(s: State, u: Thread, m: Main, d: ClientId, y: Client, sender: Main, list: seq<ClientId>,
                    y': Client, sender': Main)
    ensures With(WithClient(Scene(s, u, m, d, y, sender, list, None), d, y'), Send(d), At(sender'))
            == Scene(s, u, m, d, y', sender', list, None)
    ensures With(Scene(s, u, m, d, y, sender, list, None), Send(d), At(sender'))
            == Scene(s, u, m, d, y, sender', list, None)
  {
    Overwritten(s.clients, d, y, y', d, y);
    Overwritten(s.threads[u := At(m)], Send(d), At(sender), At(sender'), u, At(m));
  }

  /** A close call at one of the phases that it simply goes through. */
  lemma GoesOn(p: Past, s: State, u: Thread, kind: Kind, phase: ClosePhase, d: ClientId, y: Client, sender: Main,
               list: seq<ClientId>)
    requires Alone(s, u, d) && GoesThrough(phase)
             && Reachable(p, Scene(s, u, Closing(d, kind, phase, []), d, y, sender, list, None))
    requires CloseEnabled(Scene(s, u, Closing(d, kind, phase, []), d, y, sender, list, None), u, Go)
    requires phase == HoldOnce ==> y.winner.None?
    ensures Reachable(p, Scene(s, u, Closing(d, kind, NextPhase(phase), []), d,
                               Worked(phase, u, y), sender, list, None))
  {
    var x := Scene(s, u, Closing(d, kind, phase, []), d, y, sender, list, None);
    CloseIsNext(x, u);
    GoingOnIsMoved(x, u, d, kind, phase, []);
    Reach(p, x, u, Go);
    CloserMoves(s, u, Closing(d, kind, phase, []), d, y, sender, list, None,
                Closing(d, kind, NextPhase(phase), []), Worked(phase, u, y));
  }

  /** At these phases nothing has to be waited for. */
  lemma GoesOnFreely(p: Past, s: State, u: Thread, kind: Kind, phase: ClosePhase, d: ClientId, y: Client, sender: Main,
                     list: seq<ClientId>)
    requires Alone(s, u, d) && Reachable(p, Scene(s, u, Closing(d, kind, phase, []), d, y, sender, list, None))
    requires phase in {SetClosing, OnClosing, Announce, FreeSocket, FreeRequest, DrainQueue}
    ensures Reachable(p, Scene(s, u, Closing(d, kind, NextPhase(phase), []), d,
                               Worked(phase, u, y), sender, list, None))
  {
    GoesOn(p, s, u, kind, phase, d, y, sender, list);
  }

  /** A client that nobody has started to close. */
  predicate Untouched(y: Client) {
    y.alive && y.winner.None? && y.onceHolder.None?
  }

  lemma WinsCloseOnce(p: Past, s: State, u: Thread, kind: Kind, d: ClientId, y: Client, sender: Main,
                      list: seq<ClientId>)
    requires Alone(s, u, d) && Untouched(y)
             && Reachable(p, Scene(s, u, Closing(d, kind, LockOnce, []), d, y, sender, list, None))
    ensures Reachable(p, Scene(s, u, Closing(d, kind, LockList, []), d,
                               y.(winner := Some(u), closing := true), sender, list, None))
  {
    var y1 := Worked(LockOnce, u, y);
    var y2 := Worked(HoldOnce, u, y1);
    GoesOn(p, s, u, kind, LockOnce, d, y, sender, list);
    GoesOn(p, s, u, kind, HoldOnce, d, y1, sender, list);
    GoesOnFreely(p, s, u, kind, SetClosing, d, y2, sender, list);
  }

  lemma LocksList(p: Past, s: State, u: Thread, kind: Kind, d: ClientId, y: Client, sender: Main,
                  list: seq<ClientId>)
    requires Alone(s, u, d) && Reachable(p, Scene(s, u, Closing(d, kind, LockList, []), d, y, sender, list, None))
    ensures Reachable(p, Scene(s, u, Closing(d, kind, Erase, []), d, y, sender, list, Some(u)))
  {
    var x := Scene(s, u, Closing(d, kind, LockList, []), d, y, sender, list, None);
    CloseIsNext(x, u);
    Reach(p, x, u, Go);
    OnlyCloserMoves(s, u, Closing(d, kind, LockList, []), d, y, sender, list, None, Closing(d, kind, Erase, []));
  }

  lemma Erases(p: Past, s: State, u: Thread, kind: Kind, d: ClientId, y: Client, sender: Main, list: seq<ClientId>)
    requires Alone(s, u, d) && Reachable(p, Scene(s, u, Closing(d, kind, Erase, []), d, y, sender, list, Some(u)))
    ensures Reachable(p, Scene(s, u, Closing(d, kind, OnClosing, []), d,
                               y.(erased := true), sender, Minus(list, d), None))
  {
    var x := Scene(s, u, Closing(d, kind, Erase, []), d, y, sender, list, Some(u));
    CloseIsNext(x, u);
    Reach(p, x, u, Go);
    CloserMoves(s, u, Closing(d, kind, Erase, []), d, y, sender, list, Some(u),
                Closing(d, kind, OnClosing, []), y.(erased := true));
  }

  lemma SenderGoes(p: Past, s: State, u: Thread, m: Main, d: ClientId, y: Client, sender: Main, list: seq<ClientId>,
                   y': Client, sender': Main)
    requires Alone(s, u, d) && Reachable(p, Scene(s, u, m, d, y, sender, list, None))
    requires var x := Scene(s, u, m, d, y, sender, list, None);
             && SendEnabled(x, Send(d), Go)
             && SendAfter(x, Send(d), Go)
                == (if y' == y then With(x, Send(d), At(sender')) else With(WithClient(x, d, y'), Send(d), At(sender')))
    ensures Reachable(p, Scene(s, u, m, d, y', sender', list, None))
  {
    var x := Scene(s, u, m, d, y, sender, list, None);
    SendIsNext(x, Send(d));
    Reach(p, x, Send(d), Go);
    SenderMoves(s, u, m, d, y, sender, list, y', sender');
  }

  /** The sending thread of a client that is closing, with nothing in its queue, comes to its end. */
  lemma SenderEnds(p: Past, s: State, u: Thread, m: Main, d: ClientId, y: Client, list: seq<ClientId>)
    requires Alone(s, u, d) && Reachable(p, Scene(s, u, m, d, y, SendLock, list, None))
    requires y.closing && y.queueHolder.None?
    ensures Reachable(p, Scene(s, u, m, d, y.(box := Drain(y.box)), Exited, list, None))
  {
    var held := y.(queueHolder := Some(Send(d)));
    SenderGoes(p, s, u, m, d, y, SendLock, list, held, SendCheck);
    SenderGoes(p, s, u, m, d, held, SendCheck, list, held, SendBranch);
    SenderGoes(p, s, u, m, d, held, SendBranch, list, held, SendDrain);
    SenderGoes(p, s, u, m, d, held, SendDrain, list, held.(box := Drain(y.box), queueHolder := None), Exited);
  }

  /** What `closeOnce`, removeClient and finalizeClose have done to a client before the first join. */
  function Announced(u: Thread, y: Client): Client {
    y.(winner := Some(u), closing := true, erased := true, woken := true)
  }

  /** A client whose teardown by `u` has joined the sending thread. */
  function Joined(u: Thread): Client {
    Announced(u, OPENED).(box := Drain(EMPTY))
  }

  /** A close call that nobody disturbs comes to where the sending thread is joined, wherever that thread stands. */
  lemma ClosesUpToSender(p: Past, s: State, u: Thread, kind: Kind, d: ClientId, y: Client, sender: Main,
                         list: seq<ClientId>)
    requires Alone(s, u, d) && Untouched(y)
             && Reachable(p, Scene(s, u, Closing(d, kind, LockOnce, []), d, y, sender, list, None))
    ensures Reachable(p, Scene(s, u, Closing(d, kind, JoinSend, []), d, Announced(u, y), sender, Minus(list, d), None))
  {
    ClosesUpToCallback(p, s, u, kind, d, y, sender, list);
    Announcing(p, s, u, kind, d, y.(winner := Some(u), closing := true, erased := true), sender, Minus(list, d));
  }

  lemma ClosesUpToCallback(p: Past, s: State, u: Thread, kind: Kind, d: ClientId, y: Client, sender: Main,
                           list: seq<ClientId>)
    requires Alone(s, u, d) && Untouched(y)
             && Reachable(p, Scene(s, u, Closing(d, kind, LockOnce, []), d, y, sender, list, None))
    ensures Reachable(p, Scene(s, u, Closing(d, kind, OnClosing, []), d,
                               y.(winner := Some(u), closing := true, erased := true), sender, Minus(list, d), None))
  {
    WinsCloseOnce(p, s, u, kind, d, y, sender, list);
    LocksList(p, s, u, kind, d, y.(winner := Some(u), closing := true), sender, list);
    Erases(p, s, u, kind, d, y.(winner := Some(u), closing := true), sender, list);
  }

  lemma Announcing(p: Past, s: State, u: Thread, kind: Kind, d: ClientId, y: Client, sender: Main,
                   list: seq<ClientId>)
    requires Alone(s, u, d) && Reachable(p, Scene(s, u, Closing(d, kind, OnClosing, []), d, y, sender, list, None))
    ensures Reachable(p, Scene(s, u, Closing(d, kind, JoinSend, []), d,
                               y.(closing := true, woken := true), sender, list, None))
  {
    GoesOnFreely(p, s, u, kind, OnClosing, d, y, sender, list);
    GoesOnFreely(p, s, u, kind, Announce, d, y, sender, list);
  }

  /** And from there to where the receiving thread is joined. */
  lemma ClosesUpToJoin(p: Past, s: State, u: Thread, kind: Kind, d: ClientId, list: seq<ClientId>)
    requires Alone(s, u, d)
             && Reachable(p, Scene(s, u, Closing(d, kind, LockOnce, []), d, OPENED, SendLock, list, None))
    ensures Reachable(p, Scene(s, u, Closing(d, kind, JoinRecv, []), d, Joined(u), Exited, Minus(list, d), None))
  {
    ClosesUpToSender(p, s, u, kind, d, OPENED, SendLock, list);
    SenderEnds(p, s, u, Closing(d, kind, JoinSend, []), d, Announced(u, OPENED), Minus(list, d));
    GoesOn(p, s, u, kind, JoinSend, d, Joined(u), Exited, Minus(list, d));
  }

  // ---- Receivers that join each other ----

  predicate IsOpened(s: State, d: ClientId) {
    match s
    case State(_, _, _, _, _) =>
      && d in s.clients && s.clients[d] == OPENED && d in s.list
      && Send(d) in s.threads && s.threads[Send(d)] == At(SendLock) && Inner(Send(d)) !in s.threads
  }

  predicate IsReceiving(s: State, c: ClientId) {
    match s
    case State(_, _, _, _, _) =>
      && c in s.clients && Recv(c) in s.threads && s.threads[Recv(c)] == At(Ready)
      && Inner(Recv(c)) !in s.threads && Inner(Inner(Recv(c))) !in s.threads
  }

  /** `s` after a callback run by the receiver of `c` has closed `d` up to the join of its receiver. */
  function WithClosing(s: State, c: ClientId, d: ClientId): State {
    Scene(s, Inner(Recv(c)), Closing(d, ByOwner, JoinRecv, []), d,
          Joined(Inner(Recv(c))), Exited, Minus(s.list, d), None)
  }

  lemma CallIsMade(p: Past, s: State, c: ClientId, d: ClientId)
    requires Reachable(p, s) && IsReceiving(s, c) && IsOpened(s, d) && c != d && s.listHolder.None? && p.may(c, d)
    ensures Reachable(p, Scene(s, Inner(Recv(c)), DetachLock(Some(d)), d, OPENED, SendLock, s.list, None))
  {
    RecvIsNext(s, Recv(c), Detach(Some(d)));
    Reach(p, s, Recv(c), Detach(Some(d)));
    var r := Scene(s, Inner(Recv(c)), DetachLock(Some(d)), d, OPENED, SendLock, s.list, None);
    assert s.clients[d := OPENED] == s.clients;
    assert r.threads == s.threads[Inner(Recv(c)) := At(DetachLock(Some(d)))];
  }

  lemma CallDetaches(p: Past, s: State, u: Thread, d: ClientId)
    requires Alone(s, u, d) && u.Inner? && d in s.list
    requires Reachable(p, Scene(s, u, DetachLock(Some(d)), d, OPENED, SendLock, s.list, None))
    ensures Reachable(p, Scene(s, u, CloseEach([d]), d, OPENED, SendLock, Minus(s.list, d), None))
  {
    var x := Scene(s, u, DetachLock(Some(d)), d, OPENED, SendLock, s.list, None);
    var y := Scene(s, u, DetachHeld(Some(d)), d, OPENED, SendLock, s.list, Some(u));
    OnlyCloserMoves(s, u, DetachLock(Some(d)), d, OPENED, SendLock, s.list, None, DetachHeld(Some(d)));
    OwnerReaches(p, x, u, Go, y);
    OnlyCloserMoves(s, u, DetachHeld(Some(d)), d, OPENED, SendLock, s.list, Some(u), CloseEach([d]));
    OwnerReaches(p, y, u, Go, Scene(s, u, CloseEach([d]), d, OPENED, SendLock, Minus(s.list, d), None));
  }

  lemma CallCloses(p: Past, s: State, u: Thread, d: ClientId, y: Client, sender: Main, list: seq<ClientId>)
    requires Alone(s, u, d) && (u.Inner? || u.Owner?)
    requires Reachable(p, Scene(s, u, CloseEach([d]), d, y, sender, list, None))
    ensures Reachable(p, Scene(s, u, Closing(d, ByOwner, LockOnce, []), d, y, sender, list, None))
  {
    OnlyCloserMoves(s, u, CloseEach([d]), d, y, sender, list, None, Closing(d, ByOwner, LockOnce, []));
    assert [d][1..] == [];
    OwnerReaches(p, Scene(s, u, CloseEach([d]), d, y, sender, list, None), u, Go,
                 Scene(s, u, Closing(d, ByOwner, LockOnce, []), d, y, sender, list, None));
  }

  lemma {:induction false} MinusAbsent(list: seq<ClientId>, d: ClientId)
    requires d !in list
    ensures Minus(list, d) == list
  {
    if list != [] {
      MinusAbsent(list[1..], d);
    }
  }

  lemma ReceiverCloses(p: Past, s: State, c: ClientId, d: ClientId)
    requires Reachable(p, s) && IsReceiving(s, c) && IsOpened(s, d) && c != d && s.listHolder.None? && p.may(c, d)
    ensures Reachable(p, WithClosing(s, c, d))
  {
    var u := Inner(Recv(c));
    CallIsMade(p, s, c, d);
    CallDetaches(p, s, u, d);
    CallCloses(p, s, u, d, OPENED, SendLock, Minus(s.list, d));
    ClosesUpToJoin(p, s, u, ByOwner, d, Minus(s.list, d));
    ReachableInv(p, s);
    MinusKeeps(s.list, d);
    MinusAbsent(Minus(s.list, d), d);
  }

  lemma RingNext(ring: seq<ClientId>, i: nat, k: nat)
    requires Ring(ring) && i < k < |ring| - 1
    ensures ring[i] != ring[i + 1] && ring[k] != ring[i] && ring[k + 1] != ring[i + 1]
  {
  }

  /** The first `i` clients have been opened. */
  predicate SomeOpened(s: State, ring: seq<ClientId>, i: nat)
    requires i < |ring|
  {
    && s.listHolder.None? && Owner(0) in s.threads && s.threads[Owner(0)] == At(Ready)
    && (forall t :: t in s.threads ==> !t.Inner?)
    && (forall k :: 0 <= k < i ==> IsOpened(s, ring[k]) && IsReceiving(s, ring[k]))
    && (forall k :: i <= k < |ring| - 1 ==> ring[k] !in s.clients)
  }

  lemma OneMoreOpened(s: State, ring: seq<ClientId>, i: nat)
    requires Ring(ring) && i < |ring| - 1 && SomeOpened(s, ring, i)
    ensures SomeOpened(WithOpened(s, ring[i]), ring, i + 1)
  {
    var r := WithOpened(s, ring[i]);
    forall k | 0 <= k < i + 1 ensures IsOpened(r, ring[k]) && IsReceiving(r, ring[k]) {
      if k < i {
        assert IsOpened(s, ring[k]) && IsReceiving(s, ring[k]);
      }
    }
  }

  lemma {:induction false} OpenRing(may: Rule, ring: seq<ClientId>, i: nat) returns (s: State)
    requires Ring(ring) && i < |ring|
    ensures Reachable(Past(may, []), s) && SomeOpened(s, ring, i)
  {
    if i == 0 {
      ServerIsReachable(may, 0);
      s := Server(0);
    } else {
      var before := OpenRing(may, ring, i - 1);
      OpenClient(Past(may, []), before, 0, ring[i - 1]);
      OneMoreOpened(before, ring, i - 1);
      s := WithOpened(before, ring[i - 1]);
    }
  }

  /** A callback run by the receiver of `c` has closed `d` up to the join of its receiver. */
  predicate IsClosing(s: State, c: ClientId, d: ClientId) {
    match s
    case State(_, _, _, _, _) =>
      && Inner(Recv(c)) in s.threads && s.threads[Inner(Recv(c))] == At(Closing(d, ByOwner, JoinRecv, []))
      && Inner(Inner(Recv(c))) !in s.threads
  }

  /** The first `i` receivers are closing the client after their own. */
  predicate SomeClosing(s: State, ring: seq<ClientId>, i: nat)
    requires i < |ring|
  {
    && s.listHolder.None?
    && (forall k :: 0 <= k < i ==> IsClosing(s, ring[k], ring[k + 1]))
    && (forall k :: i <= k < |ring| - 1 ==> IsReceiving(s, ring[k]))
    && (forall k :: i < k < |ring| ==> IsOpened(s, ring[k]))
    && (forall k :: 0 <= k < |ring| - 1 ==> Recv(ring[k]) in s.threads && s.threads[Recv(ring[k])] == At(Ready))
  }

  lemma StillOpened(s: State, c: ClientId, d: ClientId, e: ClientId)
    requires IsOpened(s, e) && d != e && NoDuplicates(s.list)
    ensures IsOpened(WithClosing(s, c, d), e)
  {
    MinusKeeps(s.list, d);
  }

  lemma ReceiversStay(s: State, ring: seq<ClientId>, i: nat)
    requires Ring(ring) && i < |ring| - 1
    requires forall k :: 0 <= k < |ring| - 1 ==> Recv(ring[k]) in s.threads && s.threads[Recv(ring[k])] == At(Ready)
    ensures var r := WithClosing(s, ring[i], ring[i + 1]);
            forall k :: 0 <= k < |ring| - 1 ==> Recv(ring[k]) in r.threads && r.threads[Recv(ring[k])] == At(Ready)
  {
  }

  lemma OneMoreClosing(s: State, ring: seq<ClientId>, i: nat)
    requires Ring(ring) && i < |ring| - 1 && SomeClosing(s, ring, i) && NoDuplicates(s.list)
    ensures SomeClosing(WithClosing(s, ring[i], ring[i + 1]), ring, i + 1)
  {
    var r := WithClosing(s, ring[i], ring[i + 1]);
    assert IsReceiving(s, ring[i]);
    forall k | 0 <= k < i + 1 ensures IsClosing(r, ring[k], ring[k + 1]) {
      if k < i {
        RingNext(ring, k, i);
        assert IsClosing(s, ring[k], ring[k + 1]);
      }
    }
    forall k | i + 1 <= k < |ring| - 1 ensures IsReceiving(r, ring[k]) {
      RingNext(ring, i, k);
      assert IsReceiving(s, ring[k]);
    }
    forall k | i + 1 < k < |ring| ensures IsOpened(r, ring[k]) {
      RingNext(ring, i, k - 1);
      assert IsOpened(s, ring[k]);
      StillOpened(s, ring[i], ring[i + 1], ring[k]);
    }
    ReceiversStay(s, ring, i);
  }

  lemma {:induction false} CloseRing(may: Rule, ring: seq<ClientId>, i: nat) returns (s: State)
    requires RingOf(may, ring) && i < |ring|
    ensures Reachable(Past(may, []), s) && SomeClosing(s, ring, i)
  {
    if i == 0 {
      s := OpenRing(may, ring, |ring| - 1);
      assert IsOpened(s, ring[0]);
    } else {
      var before := CloseRing(may, ring, i - 1);
      assert IsReceiving(before, ring[i - 1]) && IsOpened(before, ring[i]) && may(ring[i - 1], ring[i - 1 + 1]);
      NeighboursDiffer(ring, i - 1);
      ReceiverCloses(Past(may, []), before, ring[i - 1], ring[i]);
      ReachableInv(Past(may, []), before);
      OneMoreClosing(before, ring, i - 1);
      s := WithClosing(before, ring[i - 1], ring[i]);
    }
  }

  lemma NeighboursDiffer(ring: seq<ClientId>, i: nat)
    requires Ring(ring) && i < |ring| - 1
    ensures ring[i] != ring[i + 1]
  {
  }

  lemma ClosingJoins(s: State, c: ClientId, d: ClientId)
    requires IsClosing(s, c, d) && Recv(c) in s.threads && Recv(d) in s.threads && s.threads[Recv(d)] == At(Ready)
    ensures ReceiverJoins(s, c, d)
  {
    assert JoinsThrough(s, Inner(Recv(c)), d, 0);
    assert JoinsThrough(s, Recv(c), d, 1);
  }

  /**
   Whatever ring of the rule it is: there is a run whose callbacks keep to the rule, and in which the receivers of
   the ring come to join each other in a circle.
   */
  lemma CircleIsReached(may: Rule, ring: seq<ClientId>) returns (states: seq<State>, path: seq<Thread>)
    requires RingOf(may, ring)
    ensures RuledRun(states, may)
    ensures ReceiverCircle(states[|states| - 1], ring) && Circle(states[|states| - 1], path)
  {
    var s := CloseRing(may, ring, |ring| - 1);
    states := RunTo(Past(may, []), s);
    forall k | 0 <= k < |ring| - 1 ensures ReceiverJoins(s, ring[k], ring[k + 1]) {
      assert IsClosing(s, ring[k], ring[k + 1]);
      var next := if k + 1 == |ring| - 1 then 0 else k + 1;
      assert Recv(ring[next]) in s.threads;
      ClosingJoins(s, ring[k], ring[k + 1]);
    }
    ReachableInv(Past(may, []), s);
    path := ReceiversAreChain(s, ring);
  }

  /**
   Exactly when callbacks may have threads wait for each other in a circle: if and only if, by the rule that they
   keep to, clients may close each other in a ring.
   */
  lemma CircleExactlyWhenRing(may: Rule)
    ensures (exists states, i: nat, path :: RuledRun(states, may) && i < |states| && Circle(states[i], path))
            <==> (exists ring :: RingOf(may, ring))
  {
    if states: seq<State>, i: nat, path :| RuledRun(states, may) && i < |states| && Circle(states[i], path) {
      var ring := CircleHasRing(states, may, i, path);
    }
    if ring :| RingOf(may, ring) {
      var states, path := CircleIsReached(may, ring);
      var i: nat := |states| - 1;
      assert Circle(states[i], path);
    }
  }

  // ---- A close call on a deleted client ----

  /** The next step of thread `u` is `delete this`, at the end of the teardown of client `c`. */
  predicate AtDeletion(s: State, u: Thread, c: ClientId) {
    && u in s.threads && s.threads[u].main.Closing? && s.threads[u].main.c == c
    && s.threads[u].main.phase == DeleteThis
  }

  ghost predicate DeletionAt(states: seq<State>, j: nat, c: ClientId) {
    && j + 1 < |states|
    && exists u :: AtDeletion(states[j], u, c) && Enabled(states[j], u, Go) && states[j + 1] == After(states[j], u, Go)
  }

  /** Whoever is deleted after a step was deleted before it, or is by it. */
  predicate Kills(s: State, r: State, t: Thread, c: ClientId) {
    match s
    case State(_, _, clients, _, _) =>
      c in r.clients && !r.clients[c].alive ==> c in clients && (!clients[c].alive || AtDeletion(s, t, c))
  }

  lemma CallbackKills(s: State, t: Thread, ch: Choice, c: ClientId)
    requires Enabled(s, t, ch) && (s.threads[t].add.Some? || s.threads[t].cast.Some?)
    ensures Kills(s, After(s, t, ch), t, c)
  {
  }

  lemma SendKills(s: State, t: Thread, ch: Choice, c: ClientId)
    requires t in s.threads && SendEnabled(s, t, ch)
    ensures Kills(s, SendAfter(s, t, ch), t, c)
  {
  }

  lemma OwnerKills(s: State, t: Thread, ch: Choice, c: ClientId)
    requires t in s.threads && OwnerEnabled(s, t, ch)
    ensures Kills(s, OwnerAfter(s, t, ch), t, c)
  {
  }

  lemma CloseKills(s: State, t: Thread, ch: Choice, c: ClientId)
    requires t in s.threads && CloseEnabled(s, t, ch)
    ensures Kills(s, CloseAfter(s, t, ch), t, c)
  {
    var c0, r := s.threads[t].main.c, CloseAfter(s, t, ch);
    if r.clients != s.clients {
      OneKills(s, r, t, c, c0, r.clients[c0]);
    }
  }

  lemma OneKills(s: State, r: State, t: Thread, c: ClientId, c0: ClientId, x: Client)
    requires c0 in s.clients && r.clients == s.clients[c0 := x]
    requires !x.alive ==> !s.clients[c0].alive || AtDeletion(s, t, c0)
    ensures Kills(s, r, t, c)
  {
  }

  lemma EachKills(s: State, t: Thread, ch: Choice, c: ClientId)
    requires Enabled(s, t, ch)
    ensures Kills(s, After(s, t, ch), t, c)
  {
    if s.threads[t].add.Some? || s.threads[t].cast.Some? {
      CallbackKills(s, t, ch, c);
    } else if SendEnabled(s, t, ch) {
      SendKills(s, t, ch, c);
    } else if RecvEnabled(s, t, ch) {
    } else if OwnerEnabled(s, t, ch) {
      OwnerKills(s, t, ch, c);
    } else {
      CloseKills(s, t, ch, c);
    }
  }

  lemma DeletionGoes(s: State, t: Thread, ch: Choice, c: ClientId)
    requires Inv(s) && Enabled(s, t, ch) && AtDeletion(s, t, c)
    ensures ch == Go && c in After(s, t, Go).clients && !After(s, t, Go).clients[c].alive
  {
    InvOfThread(s, t);
    NoCallback(t, s.threads[t]);
    DeletionIsClose(s, t, ch, c);
    DeletedByStep(s, t, c);
  }

  lemma DeletionIsClose(s: State, t: Thread, ch: Choice, c: ClientId)
    requires Enabled(s, t, ch) && AtDeletion(s, t, c) && s.threads[t].add.None? && s.threads[t].cast.None?
    ensures ch == Go && CloseEnabled(s, t, Go) && After(s, t, Go) == CloseAfter(s, t, Go)
  {
  }

  lemma DeletedByStep(s: State, t: Thread, c: ClientId)
    requires AtDeletion(s, t, c) && CloseEnabled(s, t, Go)
    ensures c in CloseAfter(s, t, Go).clients && !CloseAfter(s, t, Go).clients[c].alive
  {
  }

  lemma NoCallback(t: Thread, l: Local)
    requires Shape(t, l) && l.main.Closing? && l.main.phase == DeleteThis
    ensures l.add.None? && l.cast.None?
  {
  }

  lemma DiesAt(states: seq<State>, j: nat, c: ClientId)
    requires Run(states) && j + 1 < |states| && c in states[j + 1].clients && !states[j + 1].clients[c].alive
    ensures DeletionAt(states, j, c) || (c in states[j].clients && !states[j].clients[c].alive)
  {
    assert Next(states[j], states[j + 1]);
    var t, ch :| Enabled(states[j], t, ch) && states[j + 1] == After(states[j], t, ch);
    EachKills(states[j], t, ch, c);
    if AtDeletion(states[j], t, c) {
      InvAlways(states, j);
      DeletionGoes(states[j], t, ch, c);
    }
  }

  lemma {:induction false} DeadWasDeleted(states: seq<State>, i: nat, c: ClientId)
    requires Run(states) && i < |states| && c in states[i].clients && !states[i].clients[c].alive
    ensures exists j: nat :: j < i && DeletionAt(states, j, c)
  {
    if i > 0 {
      DiesAt(states, i - 1, c);
      if !DeletionAt(states, i - 1, c) {
        DeadWasDeleted(states, i - 1, c);
      }
    }
  }

  lemma DeletedIsDead(states: seq<State>, i: nat, c: ClientId, j: nat)
    requires Run(states) && j < i < |states| && DeletionAt(states, j, c)
    ensures c in states[i].clients && !states[i].clients[c].alive
  {
    var u :| AtDeletion(states[j], u, c) && Enabled(states[j], u, Go) && states[j + 1] == After(states[j], u, Go);
    InvAlways(states, j);
    DeletionGoes(states[j], u, Go, c);
    HistoryOnlyGrows(states, j + 1, i, c);
  }

  /**
   A close call that comes to `closeOnce` finds its client deleted if and only if, at an earlier step of the run,
   some thread went through `delete this` for it. The calls of workers never do.
   */
  lemma OutsideExactlyWhenTornDown(states: seq<State>, i: nat, t: Thread)
    requires Run(states) && i < |states| && t in states[i].threads && states[i].threads[t].main.Closing?
    requires states[i].threads[t].main.phase == LockOnce || states[i].threads[t].main.phase == HoldOnce
    ensures var s, m := states[i], states[i].threads[t].main;
            && (Outside(s, s.threads[t]) <==> exists j: nat :: j < i && DeletionAt(states, j, m.c))
            && (Outside(s, s.threads[t]) ==> m.kind == ByOwner)
  {
    var s := states[i];
    var c := s.threads[t].main.c;
    InvAlways(states, i);
    InvOfThread(s, t);
    ClosesAClient(s, t);
    OutsideIsDead(s, t, s.threads[t]);
    if !s.clients[c].alive {
      DeadWasDeleted(states, i, c);
    }
    if j: nat :| j < i && DeletionAt(states, j, c) {
      DeletedIsDead(states, i, c, j);
    }
  }

  lemma OutsideIsDead(s: State, t: Thread, l: Local)
    requires ThreadOk(s, t, l) && l.main.Closing? && l.main.c in s.clients
    requires l.main.phase == LockOnce || l.main.phase == HoldOnce
    ensures Outside(s, l) <==> !s.clients[l.main.c].alive
    ensures Outside(s, l) ==> l.main.kind == ByOwner
  {
    assert ClosingOf(s, t, l);
  }

  // ---- Close calls of an owner ----

  /** removeAllClients, removeClient of the request of `c`, or closeWS of `c`. */
  predicate IsCloseCall(ch: Choice, c: ClientId) {
    ch == Detach(None) || ch == Detach(Some(c)) || ch == CloseOne(c)
  }

  /** A server with one client. */
  function OneOpened(k: nat, c: ClientId): State {
    WithOpened(Server(k), c)
  }

  /** The owner has detached the client, if that is part of its call, and not yet called its `closeWS`. */
  function Detached(k: nat, c: ClientId, list: seq<ClientId>): State {
    With(OneOpened(k, c), Owner(k), At(CloseEach([c]))).(list := list)
  }

  function LeftIn(ch: Choice, c: ClientId): seq<ClientId> {
    if ch.CloseOne? then [c] else []
  }

  /** A run of any number of steps that ends in a server with one client, whose owner then makes the call. */
  ghost predicate Calls(states: seq<State>, k: nat, c: ClientId, ch: Choice) {
    && |states| >= 2 && states[|states| - 2] == OneOpened(k, c)
    && Enabled(OneOpened(k, c), Owner(k), ch)
    && states[|states| - 1] == After(OneOpened(k, c), Owner(k), ch)
  }

  lemma CallCanBeMade(k: nat, c: ClientId, ch: Choice)
    requires IsCloseCall(ch, c)
    ensures var s := OneOpened(k, c);
            Enabled(s, Owner(k), ch) && After(s, Owner(k), ch) == OwnerAfter(s, Owner(k), ch)
  {
  }

  function OwnerAfterCall(k: nat, c: ClientId, ch: Choice): State
    requires IsCloseCall(ch, c)
  {
    With(OneOpened(k, c), Owner(k), At(if ch.Detach? then DetachLock(ch.which) else CloseEach([c])))
  }

  lemma OneIsReachable(may: Rule, k: nat, c: ClientId)
    ensures Reachable(Past(may, []), OneOpened(k, c))
  {
    ServerIsReachable(may, k);
    OpenClient(Past(may, []), Server(k), k, c);
  }

  lemma RunGoesOn(may: Rule, states: seq<State>, k: nat, c: ClientId, ch: Choice)
    requires IsCloseCall(ch, c) && RuledRun(states, may) && states[|states| - 1] == OneOpened(k, c)
    ensures var start := states + [OwnerAfterCall(k, c, ch)]; Calls(start, k, c, ch) && RuledRun(start, may)
  {
    CallCanBeMade(k, c, ch);
    assert RuledNext(OneOpened(k, c), OwnerAfterCall(k, c, ch), may);
    LongerRun(may, states, OwnerAfterCall(k, c, ch));
  }

  lemma OwnerCalls(k: nat, c: ClientId, ch: Choice) returns (p: Past)
    requires IsCloseCall(ch, c)
    ensures Calls(p.start, k, c, ch) && Reachable(p, OwnerAfterCall(k, c, ch))
  {
    var may: Rule := (c: ClientId, d: ClientId) => true;
    OneIsReachable(may, k, c);
    var states := RunTo(Past(may, []), OneOpened(k, c));
    RunGoesOn(may, states, k, c, ch);
    p := Past(may, states + [OwnerAfterCall(k, c, ch)]);
  }

  lemma OwnerDetaches(p: Past, k: nat, c: ClientId, ch: Choice)
    requires IsCloseCall(ch, c) && Reachable(p, OwnerAfterCall(k, c, ch))
    ensures Reachable(p, Detached(k, c, LeftIn(ch, c)))
  {
    if ch.Detach? {
      var s, t := OneOpened(k, c), Owner(k);
      var x := With(s, t, At(DetachLock(ch.which)));
      var y := With(s, t, At(DetachHeld(ch.which))).(listHolder := Some(t));
      Overwritten(s.threads, t, At(DetachLock(ch.which)), At(DetachHeld(ch.which)), t, At(Ready));
      OwnerReaches(p, x, t, Go, y);
      DetachEnds(k, c, ch.which);
      OwnerReaches(p, y, t, Go, Detached(k, c, []));
    }
  }

  lemma DetachEnds(k: nat, c: ClientId, which: Option<ClientId>)
    requires which == None || which == Some(c)
    ensures var y := With(OneOpened(k, c), Owner(k), At(DetachHeld(which))).(listHolder := Some(Owner(k)));
            OwnerEnabled(y, Owner(k), Go) && OwnerAfter(y, Owner(k), Go) == Detached(k, c, [])
  {
    var s := OneOpened(k, c);
    assert s.list == [c] && Minus([c], c) == [];
    Overwritten(s.threads, Owner(k), At(DetachHeld(which)), At(CloseEach([c])), Owner(k), At(Ready));
  }

  lemma ReceiverStartsClosing(p: Past, s: State, c: ClientId)
    requires Reachable(p, s) && IsReceiving(s, c) && c in s.clients && s.clients[c] == OPENED && s.listHolder.None?
    requires Send(c) in s.threads && s.threads[Send(c)] == At(SendLock)
    ensures Reachable(p, Scene(s, Recv(c), Closing(c, ByRecv, LockOnce, []), c, OPENED, SendLock, s.list, None))
  {
    RecvIsNext(s, Recv(c), CloseOwn);
    Reach(p, s, Recv(c), CloseOwn);
    var r := Scene(s, Recv(c), Closing(c, ByRecv, LockOnce, []), c, OPENED, SendLock, s.list, None);
    assert s.clients[c := OPENED] == s.clients;
    assert r.threads == s.threads[Recv(c) := At(Closing(c, ByRecv, LockOnce, []))];
  }

  function Deleted(u: Thread): Client {
    Joined(u).(socketFreed := true, requestFreed := true, box := Drain(Drain(EMPTY)), alive := false, teardowns := 1)
  }

  lemma ReceiverJoinsItself(p: Past, s: State, c: ClientId, x: Client, list: seq<ClientId>)
    requires Alone(s, Recv(c), c)
    requires Reachable(p, Scene(s, Recv(c), Closing(c, ByRecv, JoinRecv, []), c, x, Exited, list, None))
    ensures Reachable(p, Scene(s, Recv(c), Closing(c, ByRecv, FreeSocket, []), c, x, Exited, list, None))
  {
    GoesOn(p, s, Recv(c), ByRecv, JoinRecv, c, x, Exited, list);
  }

  lemma ReceiverFrees(p: Past, s: State, c: ClientId, x: Client, list: seq<ClientId>)
    requires Alone(s, Recv(c), c)
    requires Reachable(p, Scene(s, Recv(c), Closing(c, ByRecv, FreeSocket, []), c, x, Exited, list, None))
    ensures Reachable(p, Scene(s, Recv(c), Closing(c, ByRecv, LockQueue, []), c,
                               x.(socketFreed := true, requestFreed := true), Exited, list, None))
  {
    GoesOnFreely(p, s, Recv(c), ByRecv, FreeSocket, c, x, Exited, list);
    GoesOnFreely(p, s, Recv(c), ByRecv, FreeRequest, c, x.(socketFreed := true), Exited, list);
  }

  lemma ReceiverDrains(p: Past, s: State, c: ClientId, x: Client, list: seq<ClientId>)
    requires Alone(s, Recv(c), c) && x.queueHolder.None?
    requires Reachable(p, Scene(s, Recv(c), Closing(c, ByRecv, LockQueue, []), c, x, Exited, list, None))
    ensures Reachable(p, Scene(s, Recv(c), Closing(c, ByRecv, DeleteThis, []), c,
                            x.(box := Drain(x.box)), Exited, list, None))
  {
    ReceiverLocksQueue(p, s, c, x, list);
    var y := x.(queueHolder := Some(Recv(c)));
    GoesOnFreely(p, s, Recv(c), ByRecv, DrainQueue, c, y, Exited, list);
    assert Worked(DrainQueue, Recv(c), y) == x.(box := Drain(x.box));
  }

  lemma ReceiverLocksQueue(p: Past, s: State, c: ClientId, x: Client, list: seq<ClientId>)
    requires Alone(s, Recv(c), c) && x.queueHolder.None?
    requires Reachable(p, Scene(s, Recv(c), Closing(c, ByRecv, LockQueue, []), c, x, Exited, list, None))
    ensures Reachable(p, Scene(s, Recv(c), Closing(c, ByRecv, DrainQueue, []), c,
                               x.(queueHolder := Some(Recv(c))), Exited, list, None))
  {
    GoesOn(p, s, Recv(c), ByRecv, LockQueue, c, x, Exited, list);
  }

  lemma ReceiverExits(p: Past, s: State, c: ClientId, x: Client, list: seq<ClientId>)
    requires Alone(s, Recv(c), c)
    requires Reachable(p, Scene(s, Recv(c), Closing(c, ByRecv, DeleteThis, []), c, x, Exited, list, None))
    ensures Reachable(p, Scene(s, Recv(c), Exited, c,
                            x.(alive := false, teardowns := x.teardowns + 1), Exited, list, None))
  {
    var y := Scene(s, Recv(c), Closing(c, ByRecv, DeleteThis, []), c, x, Exited, list, None);
    CloseIsNext(y, Recv(c));
    Reach(p, y, Recv(c), Go);
    DeletedIsMoved(y, Recv(c), c, ByRecv, []);
    CloserMoves(s, Recv(c), Closing(c, ByRecv, DeleteThis, []), c, x, Exited, list, None,
                Exited, x.(alive := false, teardowns := x.teardowns + 1));
  }

  lemma ReceiverDeletes(p: Past, s: State, c: ClientId, list: seq<ClientId>)
    requires Alone(s, Recv(c), c)
    requires Reachable(p, Scene(s, Recv(c), Closing(c, ByRecv, JoinRecv, []), c, Joined(Recv(c)), Exited, list, None))
    ensures Reachable(p, Scene(s, Recv(c), Exited, c, Deleted(Recv(c)), Exited, list, None))
  {
    var x := Joined(Recv(c)).(socketFreed := true, requestFreed := true);
    ReceiverJoinsItself(p, s, c, Joined(Recv(c)), list);
    ReceiverFrees(p, s, c, Joined(Recv(c)), list);
    ReceiverDrains(p, s, c, x, list);
    ReceiverExits(p, s, c, x.(box := Drain(x.box)), list);
  }

  /** The owner has gone on to the client that has been deleted. */
  function TooLate(k: nat, c: ClientId, list: seq<ClientId>): State {
    With(Scene(Detached(k, c, list), Recv(c), Exited, c, Deleted(Recv(c)), Exited, [], None),
         Owner(k), At(Closing(c, ByOwner, LockOnce, [c][1..])))
  }

  lemma OwnerIsTooLate(p: Past, k: nat, c: ClientId, list: seq<ClientId>)
    requires Reachable(p, Detached(k, c, list)) && (list == [c] || list == [])
    ensures Reachable(p, TooLate(k, c, list))
  {
    var s := Detached(k, c, list);
    ReceiverStartsClosing(p, s, c);
    ClosesUpToJoin(p, s, Recv(c), ByRecv, c, list);
    assert Minus(list, c) == [];
    ReceiverDeletes(p, s, c, []);
    var gone := Scene(s, Recv(c), Exited, c, Deleted(Recv(c)), Exited, [], None);
    OwnerReaches(p, gone, Owner(k), Go, TooLate(k, c, list));
  }

  /**
   No close call of an owner is ever safe: whatever owner makes it, for whatever client and in which of the three
   ways, it may find at `closeOnce` that the receiving thread has deleted the client since the call was made.
   */
  lemma DeletedIsClosed(k: nat, c: ClientId, ch: Choice) returns (start: seq<State>, states: seq<State>)
    requires IsCloseCall(ch, c)
    ensures Run(states) && start <= states && Calls(start, k, c, ch)
    ensures FindsDeleted(states[|states| - 1], Owner(k), c)
  {
    var p := OwnerCalls(k, c, ch);
    OwnerDetaches(p, k, c, ch);
    OwnerIsTooLate(p, k, c, LeftIn(ch, c));
    start := p.start;
    states := RunTo(p, TooLate(k, c, LeftIn(ch, c)));
  }

  /** A thread finds client `c` deleted when its close call comes to `closeOnce`. */
  predicate FindsDeleted(s: State, t: Thread, c: ClientId) {
    t in s.threads && Outside(s, s.threads[t]) && s.threads[t].main.c == c
  }

  /** Of the threads that are no calls of others, this happens to those of the application and to no worker. */
  lemma OwnersFindDeleted(t: Thread, c: ClientId)
    requires !t.Inner?
    ensures (exists states, i: nat :: Run(states) && i < |states| && FindsDeleted(states[i], t, c)) <==> t.Owner?
  {
    if states: seq<State>, i: nat :| Run(states) && i < |states| && FindsDeleted(states[i], t, c) {
      WorkersFindNothing(states, i, t, c);
    }
    if t.Owner? {
      var start, states := DeletedIsClosed(t.k, c, CloseOne(c));
      var i: nat := |states| - 1;
      assert FindsDeleted(states[i], t, c);
    }
  }

  lemma WorkersFindNothing(states: seq<State>, i: nat, t: Thread, c: ClientId)
    requires Run(states) && i < |states| && FindsDeleted(states[i], t, c)
    ensures !t.Send? && !t.Recv?
  {
    OutsideExactlyWhenTornDown(states, i, t);
    InvAlways(states, i);
    InvOfThread(states[i], t);
    WorkerCloses(t, states[i].threads[t]);
  }

  lemma WorkerCloses(t: Thread, l: Local)
    requires Shape(t, l) && l.main.Closing?
    ensures t.Send? || t.Recv? ==> l.main.kind != ByOwner
  {
  }

  // ---- A notification that comes too early ----

  /** The sending thread has found its queue empty and `closing` not set, and still holds the mutex. */
  function Dozing(c: ClientId): Client {
    OPENED.(queueHolder := Some(Send(c)))
  }

  lemma SenderDozes(p: Past, s: State, u: Thread, m: Main, c: ClientId, list: seq<ClientId>)
    requires Alone(s, u, c) && Reachable(p, Scene(s, u, m, c, OPENED, SendLock, list, None))
    ensures Reachable(p, Scene(s, u, m, c, Dozing(c), SendSleep, list, None))
  {
    SenderGoes(p, s, u, m, c, OPENED, SendLock, list, Dozing(c), SendCheck);
    SenderGoes(p, s, u, m, c, Dozing(c), SendCheck, list, Dozing(c), SendSleep);
  }

  function Slept(u: Thread, c: ClientId): Client {
    Announced(u, Dozing(c)).(queueHolder := None, woken := false)
  }

  /** The sending thread goes to sleep after it was notified. */
  lemma SenderSleeps(p: Past, s: State, u: Thread, c: ClientId, list: seq<ClientId>)
    requires Alone(s, u, c)
    requires Reachable(p, Scene(s, u, Closing(c, ByOwner, JoinSend, []), c,
                                Announced(u, Dozing(c)), SendSleep, list, None))
    ensures Reachable(p, Scene(s, u, Closing(c, ByOwner, JoinSend, []), c, Slept(u, c), SendWaiting, list, None))
  {
    SenderGoes(p, s, u, Closing(c, ByOwner, JoinSend, []), c, Announced(u, Dozing(c)), SendSleep, list,
               Slept(u, c), SendWaiting);
  }

  lemma ReceiverLeaves(p: Past, s: State, c: ClientId)
    requires Reachable(p, s) && Recv(c) in s.threads && s.threads[Recv(c)] == At(Ready) && Inner(Recv(c)) !in s.threads
    requires c in s.clients && s.clients[c].closing
    ensures Reachable(p, With(s, Recv(c), At(Exited)))
  {
    RecvIsNext(s, Recv(c), Leave);
    Reach(p, s, Recv(c), Leave);
  }

  /** The owner joins the sending thread, which sleeps; the receiving thread has left. */
  function Sleeping(k: nat, c: ClientId): State {
    With(Scene(OneOpened(k, c), Owner(k), Closing(c, ByOwner, JoinSend, []), c, Slept(Owner(k), c), SendWaiting,
               [], None),
         Recv(c), At(Exited))
  }

  lemma OwnerSleepsOn(p: Past, k: nat, c: ClientId, list: seq<ClientId>)
    requires Reachable(p, Detached(k, c, list)) && (list == [c] || list == [])
    ensures Reachable(p, Sleeping(k, c))
  {
    var s, u := OneOpened(k, c), Owner(k);
    var x := Scene(s, u, CloseEach([c]), c, OPENED, SendLock, list, None);
    assert x.clients == s.clients && x.threads == Detached(k, c, list).threads;
    SenderDozes(p, s, u, CloseEach([c]), c, list);
    assert Minus(list, c) == [];
    OwnerJoinsSleeper(p, s, u, c, list);
    ReceiverLeaves(p, Scene(s, u, Closing(c, ByOwner, JoinSend, []), c, Slept(u, c), SendWaiting, [], None), c);
  }

  lemma OwnerJoinsSleeper(p: Past, s: State, u: Thread, c: ClientId, list: seq<ClientId>)
    requires Alone(s, u, c) && u.Owner? && Minus(list, c) == []
    requires Reachable(p, Scene(s, u, CloseEach([c]), c, Dozing(c), SendSleep, list, None))
    ensures Reachable(p, Scene(s, u, Closing(c, ByOwner, JoinSend, []), c, Slept(u, c), SendWaiting, [], None))
  {
    CallCloses(p, s, u, c, Dozing(c), SendSleep, list);
    ClosesUpToSender(p, s, u, ByOwner, c, Dozing(c), SendSleep, list);
    SenderSleeps(p, s, u, c, []);
  }

  /** No thread can take a step, and yet none waits in a circle. */
  ghost predicate StandsStill(s: State) {
    match s
    case State(_, _, _, _, _) =>
      (forall path :: !Circle(s, path)) && forall t :: t in s.threads ==> !Moves(s, t)
  }

  /**
   Whatever owner closes whatever client in which of the three ways: the sending thread may go to sleep after it was
   notified, and then the owner waits for it although there is no circle, and no thread can take a step.
   */
  lemma NotificationIsMissed(k: nat, c: ClientId, ch: Choice) returns (start: seq<State>, states: seq<State>)
    requires IsCloseCall(ch, c)
    ensures Run(states) && start <= states && Calls(start, k, c, ch)
    ensures Missed(states[|states| - 1], c, Owner(k)) && StandsStill(states[|states| - 1])
  {
    var p := OwnerCalls(k, c, ch);
    OwnerDetaches(p, k, c, ch);
    OwnerSleepsOn(p, k, c, LeftIn(ch, c));
    start := p.start;
    states := RunTo(p, Sleeping(k, c));
    SleepingIsMissed(k, c);
    SleepingStands(states, k, c);
  }

  lemma SleepingIsMissed(k: nat, c: ClientId)
    ensures Missed(Sleeping(k, c), c, Owner(k))
  {
  }

  lemma SleepingStands(states: seq<State>, k: nat, c: ClientId)
    requires Run(states) && states[|states| - 1] == Sleeping(k, c)
    ensures StandsStill(Sleeping(k, c))
  {
    var s := Sleeping(k, c);
    forall t | t in s.threads ensures !Moves(s, t) {
      NobodyMoves(states, k, c, t);
    }
    forall path ensures !Circle(s, path) {
      SleepersMakeNoCircle(states, k, c, path);
    }
  }

  lemma NobodyMoves(states: seq<State>, k: nat, c: ClientId, t: Thread)
    requires Run(states) && states[|states| - 1] == Sleeping(k, c) && t in Sleeping(k, c).threads
    ensures !Moves(Sleeping(k, c), t)
  {
    SleepingThreads(k, c);
    MovesExactlyWhen(states, |states| - 1, t);
  }

  lemma SleepersMakeNoCircle(states: seq<State>, k: nat, c: ClientId, path: seq<Thread>)
    requires Run(states) && states[|states| - 1] == Sleeping(k, c)
    ensures !Circle(Sleeping(k, c), path)
  {
    SleepingThreads(k, c);
    NoCircularWait(states, |states| - 1, path);
  }

  lemma SleepingThreads(k: nat, c: ClientId)
    ensures var s := Sleeping(k, c);
            && s.threads.Keys == {Owner(k), Send(c), Recv(c)} && WaitsFor(s, Owner(k)).Some?
            && Asleep(s, Send(c)) && Finished(s, Recv(c))
  {
  }
}
