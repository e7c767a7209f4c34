/**
 Close calls inside of callbacks: which clients a callback may close, as a relation, and the order in which
 receivers come to join each other when callbacks keep to it.
 */
module WebSocketCallbacks {
  import opened Basics
  import opened WebSocketSystem
  import opened WebSocketInvariant
  import opened WebSocketOwners
  import opened WebSocketSafety
  import opened WebSocketWaits

  // ---- Rules for callbacks ----

  /** `may(c, d)`: a callback that was made for client `c` may close client `d`. */
  type Rule = (ClientId, ClientId) -> bool

  /** The client `d` is closed from a callback made for `c`, which is never one for `d` itself. */
  predicate Edge(may: Rule, c: ClientId, d: ClientId) {
    c != d && may(c, d)
  }

  ghost predicate MayCloseAll(may: Rule, c: ClientId) {
    forall d :: d != c ==> may(c, d)
  }

  /** What a thread does next keeps to the rule; removeAllClients, in a callback, closes every client but its own. */
  ghost predicate Follows(t: Thread, l: Local, ch: Choice, may: Rule) {
    MayCall(t, l) ==>
      match ch
      case Detach(Some(d)) => may(CallbackOf(t, l).value, d)
      case Detach(None) => MayCloseAll(may, CallbackOf(t, l).value)
      case CloseOne(d) => may(CallbackOf(t, l).value, d)
      case _ => true
  }

  /** A run whose callbacks all do so. */
  ghost predicate RuledRun(states: seq<State>, may: Rule) {
    && states != [] && Init(states[0])
    && forall i, j {:trigger RuledNext(states[i], states[j], may)} ::
         0 <= i && j == i + 1 < |states| ==> RuledNext(states[i], states[j], may)
  }

  ghost predicate RuledNext(s: State, s': State, may: Rule) {
    exists t, ch :: Enabled(s, t, ch) && s' == After(s, t, ch) && Follows(t, s.threads[t], ch, may)
  }

  lemma RuledRunIsRun(states: seq<State>, may: Rule)
    requires RuledRun(states, may)
    ensures Run(states)
  {
    forall i, j | 0 <= i && j == i + 1 < |states| ensures Next(states[i], states[j]) {
      assert RuledNext(states[i], states[j], may);
    }
  }

  // ---- What a call closes ----

  /** A call that removes all clients finds the list without the client whose callback it was made in. */
  ghost predicate Targets(s: State, which: Option<ClientId>, own: ClientId, may: Rule) {
    match which
    case Some(d) => Edge(may, own, d)
    case None => own in s.clients && s.clients[own].erased && MayCloseAll(may, own)
  }

  /** All that a call standing at `m`, made in a callback for `own`, is going to close is what the rule lets it. */
  ghost predicate Within(s: State, m: Main, own: ClientId, may: Rule) {
    match m
    case DetachLock(which) => Targets(s, which, own, may)
    case DetachHeld(which) => Targets(s, which, own, may)
    case CloseEach(todo) => forall x :: x in todo ==> Edge(may, own, x)
    case Closing(c, _, _, todo) => Edge(may, own, c) && forall x :: x in todo ==> Edge(may, own, x)
    case _ => false
  }

  ghost predicate CallWithin(s: State, outer: Thread, may: Rule)
    requires Inner(outer) in s.threads
  {
    s.threads[Inner(outer)].main == Ready
    || (outer in s.threads && CallbackOf(outer, s.threads[outer]).Some?
        && Within(s, s.threads[Inner(outer)].main, CallbackOf(outer, s.threads[outer]).value, may))
  }

  ghost predicate CallsWithin(s: State, may: Rule) {
    forall outer :: Inner(outer) in s.threads ==> CallWithin(s, outer, may)
  }

  /** A step moves its own thread, starts workers or makes a call, and moves no other thread. */
  predicate Turn(s: State, r: State, t: Thread) {
    match s
    case State(_, _, _, _, _) =>
      && (forall u :: u in s.threads && u != t && u != Inner(t) ==> u in r.threads && r.threads[u] == s.threads[u])
      && (forall u :: u in r.threads && u.Inner? && u != Inner(t) ==> u in s.threads)
  }

  lemma OneMoves(s: State, r: State, t: Thread, u: Thread, l: Local)
    requires r.threads == s.threads[u := l] && t in s.threads && (u == t || u == Inner(t))
    ensures Turn(s, r, t)
  {
  }

  /** A call was made, from a callback, or none was. */
  predicate CallsOrNot(s: State, r: State, t: Thread, ch: Choice) {
    match s
    case State(_, _, _, threads, _) =>
      if t in threads && MayCall(t, threads[t]) && Made(s, r, t, ch) then true
      else Inner(t) in r.threads ==> Inner(t) in threads && r.threads[Inner(t)].main == threads[Inner(t)].main
  }

  lemma CallbackTurn(s: State, t: Thread, ch: Choice)
    requires Enabled(s, t, ch) && (s.threads[t].add.Some? || s.threads[t].cast.Some?)
    ensures Turn(s, After(s, t, ch), t)
    ensures t in After(s, t, ch).threads && After(s, t, ch).threads[t].main == s.threads[t].main
    ensures CallsOrNot(s, After(s, t, ch), t, ch)
  {
    OneMoves(s, After(s, t, ch), t, t, After(s, t, ch).threads[t]);
  }

  lemma SendTurn(s: State, t: Thread, ch: Choice)
    requires t in s.threads && SendEnabled(s, t, ch)
    ensures Turn(s, SendAfter(s, t, ch), t)
    ensures CallsOrNot(s, SendAfter(s, t, ch), t, ch)
  {
    OneMoves(s, SendAfter(s, t, ch), t, t, SendAfter(s, t, ch).threads[t]);
  }

  /** A call that is being made, with all that it is going to close. */
  predicate Made(s: State, r: State, t: Thread, ch: Choice) {
    && t in s.threads && Inner(t) in r.threads && t in r.threads && r.threads[t] == s.threads[t]
    && r.clients == s.clients
    && CallbackOf(t, s.threads[t]).Some? && CallEnabled(s, CallbackOf(t, s.threads[t]).value, ch)
    && match ch
       case Detach(which) => r.threads[Inner(t)].main == DetachLock(which)
       case CloseOne(c) => r.threads[Inner(t)].main == CloseEach([c])
       case _ => false
  }

  lemma RecvTurn(s: State, t: Thread, ch: Choice)
    requires t in s.threads && RecvEnabled(s, t, ch) && s.threads[t].cast.None? && s.threads[t].add.None?
    ensures var r := RecvAfter(s, t, ch); Turn(s, r, t) && CallsOrNot(s, r, t, ch)
  {
    var r := RecvAfter(s, t, ch);
    if ch.Detach? || ch.CloseOne? {
      OneMoves(s, r, t, Inner(t), r.threads[Inner(t)]);
    } else if ch != Fault {
      OneMoves(s, r, t, t, r.threads[t]);
    }
  }

  lemma CloseTurn(s: State, t: Thread, ch: Choice)
    requires t in s.threads && CloseEnabled(s, t, ch) && s.threads[t].cast.None? && s.threads[t].add.None?
    ensures var r := CloseAfter(s, t, ch); Turn(s, r, t) && CallsOrNot(s, r, t, ch)
  {
    var r := CloseAfter(s, t, ch);
    if ch.Detach? || ch.CloseOne? {
      OneMoves(s, r, t, Inner(t), r.threads[Inner(t)]);
    } else {
      OneMoves(s, r, t, t, r.threads[t]);
    }
  }

  lemma OwnerTurn(s: State, t: Thread, ch: Choice)
    requires Inv(s) && t in s.threads && OwnerEnabled(s, t, ch)
    ensures var r := OwnerAfter(s, t, ch); Turn(s, r, t) && CallsOrNot(s, r, t, ch)
  {
    if s.threads[t].main.OpenAsk? && ch.Accept? {
      NoWorkersYet(s, ch.c);
    } else if s.threads[t].main.OpenStartSend? {
      InvOfThread(s, t);
      NoSenderYet(s, t, s.threads[t]);
    } else {
      var r := OwnerAfter(s, t, ch);
      OneMoves(s, r, t, t, r.threads[t]);
    }
  }

  lemma NoSenderYet(s: State, t: Thread, l: Local)
    requires ThreadOk(s, t, l) && l.main.OpenStartSend?
    ensures Send(l.main.c) !in s.threads
  {
  }

  lemma EachTurn(s: State, t: Thread, ch: Choice)
    requires Inv(s) && Enabled(s, t, ch)
    ensures Turn(s, After(s, t, ch), t) && CallsOrNot(s, After(s, t, ch), t, ch)
  {
    if s.threads[t].add.Some? || s.threads[t].cast.Some? {
      CallbackTurn(s, t, ch);
    } else if SendEnabled(s, t, ch) {
      SendTurn(s, t, ch);
    } else if RecvEnabled(s, t, ch) {
      RecvTurn(s, t, ch);
    } else if OwnerEnabled(s, t, ch) {
      OwnerTurn(s, t, ch);
    } else {
      CloseTurn(s, t, ch);
    }
  }

  // ---- What is never taken back ----

  /** A client stays published, closing and erased, and its teardown keeps its winner. */
  predicate Stays(x: Client, y: Client) {
    match x
    case Client(_, published, erased, closing, winner, _, _, _, _, _, _, _) =>
      && (published ==> y.published) && (erased ==> y.erased) && (closing ==> y.closing)
      && (winner.Some? ==> y.winner == winner)
  }

  predicate AllStay(s: State, r: State) {
    match s
    case State(_, _, clients, _, _) => forall c :: c in clients ==> c in r.clients && Stays(clients[c], r.clients[c])
  }

  lemma OneStays(s: State, r: State, c: ClientId, x: Client)
    requires r.clients == s.clients[c := x] && (c in s.clients ==> Stays(s.clients[c], x))
    ensures AllStay(s, r)
  {
  }

  lemma CallbackStays(s: State, t: Thread, ch: Choice)
    requires Enabled(s, t, ch) && (s.threads[t].add.Some? || s.threads[t].cast.Some?)
    ensures AllStay(s, After(s, t, ch))
  {
  }

  lemma SendStays(s: State, t: Thread, ch: Choice)
    requires t in s.threads && SendEnabled(s, t, ch)
    ensures AllStay(s, SendAfter(s, t, ch))
  {
  }

  lemma OwnerStays(s: State, t: Thread, ch: Choice)
    requires t in s.threads && OwnerEnabled(s, t, ch)
    ensures AllStay(s, OwnerAfter(s, t, ch))
  {
  }

  lemma CloseStays(s: State, t: Thread, ch: Choice)
    requires t in s.threads && CloseEnabled(s, t, ch)
    ensures AllStay(s, CloseAfter(s, t, ch))
  {
    var c, r := s.threads[t].main.c, CloseAfter(s, t, ch);
    if r.clients != s.clients {
      OneStays(s, r, c, r.clients[c]);
    }
  }

  lemma EachStays(s: State, t: Thread, ch: Choice)
    requires Enabled(s, t, ch)
    ensures AllStay(s, After(s, t, ch))
  {
    if s.threads[t].add.Some? || s.threads[t].cast.Some? {
      CallbackStays(s, t, ch);
    } else if SendEnabled(s, t, ch) {
      SendStays(s, t, ch);
    } else if RecvEnabled(s, t, ch) {
    } else if OwnerEnabled(s, t, ch) {
      OwnerStays(s, t, ch);
    } else {
      CloseStays(s, t, ch);
    }
  }

  // ---- A call goes on with what it was going to close ----

  lemma WithinLasts(s: State, r: State, m: Main, own: ClientId, may: Rule)
    requires Within(s, m, own, may) && AllStay(s, r)
    ensures Within(r, m, own, may)
  {
  }

  lemma DetachesWithin(s: State, which: Option<ClientId>, own: ClientId, may: Rule)
    requires ListOk(s) && Targets(s, which, own, may)
    ensures which.None? ==> forall x :: x in s.list ==> Edge(may, own, x)
    ensures which.Some? ==> forall x :: x in [which.value] ==> Edge(may, own, x)
  {
  }

  lemma OwnerWithin(s: State, t: Thread, ch: Choice, own: ClientId, may: Rule)
    requires t in s.threads && OwnerEnabled(s, t, ch) && Within(s, s.threads[t].main, own, may) && ListOk(s)
    ensures t in OwnerAfter(s, t, ch).threads
    ensures var r := OwnerAfter(s, t, ch); r.threads[t].main == Ready || Within(r, r.threads[t].main, own, may)
  {
    match s.threads[t].main
    case DetachHeld(which) =>
      DetachesWithin(s, which, own, may);
      DetachedTo(s, t, ch, which);
    case DetachLock(_) =>
    case CloseEach(_) =>
  }

  /** What a call that detaches clients is going to close. */
  lemma DetachedTo(s: State, t: Thread, ch: Choice, which: Option<ClientId>)
    requires t in s.threads && OwnerEnabled(s, t, ch) && s.threads[t].main == DetachHeld(which)
    ensures t in OwnerAfter(s, t, ch).threads
    ensures var m := OwnerAfter(s, t, ch).threads[t].main;
            m == Ready || m == CloseEach(if which.None? then s.list else [which.value])
  {
  }

  lemma CloseWithin(s: State, t: Thread, ch: Choice, own: ClientId, may: Rule)
    requires t in s.threads && CloseEnabled(s, t, ch) && s.threads[t].main.kind == ByOwner
             && Within(s, s.threads[t].main, own, may)
    ensures t in CloseAfter(s, t, ch).threads
    ensures var r := CloseAfter(s, t, ch); r.threads[t].main == Ready || Within(r, r.threads[t].main, own, may)
  {
  }

  lemma OwnCallWithin(s: State, t: Thread, ch: Choice, own: ClientId, may: Rule)
    requires Enabled(s, t, ch) && t.Inner? && Shape(t, s.threads[t]) && Within(s, s.threads[t].main, own, may)
    requires ListOk(s)
    ensures t in After(s, t, ch).threads
    ensures var r := After(s, t, ch); r.threads[t].main == Ready || Within(r, r.threads[t].main, own, may)
  {
    if s.threads[t].add.Some? || s.threads[t].cast.Some? {
      CallbackTurn(s, t, ch);
      EachStays(s, t, ch);
      WithinLasts(s, After(s, t, ch), s.threads[t].main, own, may);
    } else if OwnerEnabled(s, t, ch) {
      OwnerWithin(s, t, ch, own, may);
    } else {
      CloseWithin(s, t, ch, own, may);
    }
  }

  lemma MadeWithin(s: State, r: State, t: Thread, ch: Choice, may: Rule)
    requires Made(s, r, t, ch) && MayCall(t, s.threads[t]) && Follows(t, s.threads[t], ch, may)
    ensures CallWithin(r, t, may)
  {
  }

  lemma CallWithinOrNot(s: State, r: State, t: Thread, ch: Choice, may: Rule)
    requires CallsOrNot(s, r, t, ch) && t in s.threads && !Busy(s, t) && Follows(t, s.threads[t], ch, may)
    requires Inner(t) in r.threads
    ensures CallWithin(r, t, may)
  {
    if MayCall(t, s.threads[t]) && Made(s, r, t, ch) {
      MadeWithin(s, r, t, ch, may);
    }
  }

  /** A call that is made, or one that has returned and is not made again. */
  lemma MadeCallWithin(s: State, t: Thread, ch: Choice, may: Rule)
    requires Inv(s) && Enabled(s, t, ch) && Follows(t, s.threads[t], ch, may) && Inner(t) in After(s, t, ch).threads
    ensures CallWithin(After(s, t, ch), t, may)
  {
    EachTurn(s, t, ch);
    CallWithinOrNot(s, After(s, t, ch), t, ch, may);
  }

  lemma OtherCallWithin(s: State, t: Thread, ch: Choice, o: Thread, may: Rule)
    requires Inv(s) && Enabled(s, t, ch) && o != t && Inner(o) in s.threads && CallWithin(s, o, may)
    requires ThreadOk(s, Inner(o), s.threads[Inner(o)])
    ensures Inner(o) in After(s, t, ch).threads && CallWithin(After(s, t, ch), o, may)
  {
    assert Shape(Inner(o), s.threads[Inner(o)]) && NestOf(s, Inner(o), s.threads[Inner(o)]);
    EachTurn(s, t, ch);
    if t == Inner(o) && s.threads[t].main != Ready {
      OwnCallWithin(s, t, ch, CallbackOf(o, s.threads[o]).value, may);
    } else if t != Inner(o) && s.threads[Inner(o)].main != Ready {
      EachStays(s, t, ch);
      WithinLasts(s, After(s, t, ch), s.threads[Inner(o)].main, CallbackOf(o, s.threads[o]).value, may);
    }
  }

  lemma StepWithin(s: State, t: Thread, ch: Choice, may: Rule)
    requires Inv(s) && CallsWithin(s, may) && Enabled(s, t, ch) && Follows(t, s.threads[t], ch, may)
    ensures CallsWithin(After(s, t, ch), may)
  {
    var r := After(s, t, ch);
    InvOfThread(s, t);
    forall o | Inner(o) in r.threads ensures CallWithin(r, o, may) {
      if o == t {
        MadeCallWithin(s, t, ch, may);
      } else {
        EachTurn(s, t, ch);
        assert CallWithin(s, o, may);
        InvOfThread(s, Inner(o));
        OtherCallWithin(s, t, ch, o, may);
      }
    }
  }

  lemma NextWithin(s: State, s': State, may: Rule)
    requires Inv(s) && CallsWithin(s, may) && RuledNext(s, s', may)
    ensures CallsWithin(s', may)
  {
    var t, ch :| Enabled(s, t, ch) && s' == After(s, t, ch) && Follows(t, s.threads[t], ch, may);
    StepWithin(s, t, ch, may);
  }

  lemma {:induction false} WithinAlways(states: seq<State>, may: Rule, i: nat)
    requires RuledRun(states, may) && i < |states|
    ensures CallsWithin(states[i], may)
  {
    if i > 0 {
      WithinAlways(states, may, i - 1);
      RuledRunIsRun(states, may);
      InvAlways(states, i - 1);
      assert RuledNext(states[i - 1], states[i], may);
      NextWithin(states[i - 1], states[i], may);
    }
  }

  // ---- Walks and rings of the rule ----

  /** From each client to the next one the rule leads. */
  predicate Walk(may: Rule, walk: seq<ClientId>) {
    forall k :: 0 <= k < |walk| - 1 ==> Edge(may, walk[k], walk[k + 1])
  }

  lemma LongerWalk(may: Rule, c: ClientId, walk: seq<ClientId>)
    requires walk != [] && Walk(may, walk) && Edge(may, c, walk[0])
    ensures Walk(may, [c] + walk)
  {
    var more := [c] + walk;
    forall k | 0 <= k < |more| - 1 ensures Edge(may, more[k], more[k + 1]) {
      if k > 0 {
        assert Edge(may, walk[k - 1], walk[k - 1 + 1]);
      }
    }
  }

  lemma JoinWalks(may: Rule, p: seq<ClientId>, q: seq<ClientId>)
    requires p != [] && q != [] && Walk(may, p) && Walk(may, q) && p[|p| - 1] == q[0]
    ensures Walk(may, p + q[1..])
  {
    var walk := p + q[1..];
    forall k | 0 <= k < |walk| - 1 ensures Edge(may, walk[k], walk[k + 1]) {
      if k < |p| - 1 {
        assert Edge(may, p[k], p[k + 1]);
      } else {
        var j := k - (|p| - 1);
        assert walk[k] == q[j] && walk[k + 1] == q[j + 1];
        assert Edge(may, q[j], q[j + 1]);
      }
    }
  }

  /** Clients in a ring: the last one is the first one, and no other is there twice. */
  predicate Ring(ring: seq<ClientId>) {
    |ring| >= 3 && ring[0] == ring[|ring| - 1] && forall a, b :: 0 <= a < b < |ring| - 1 ==> ring[a] != ring[b]
  }

  /** A ring in which a callback of each client may close the next one. */
  predicate RingOf(may: Rule, ring: seq<ClientId>) {
    Ring(ring) && forall k :: 0 <= k < |ring| - 1 ==> may(ring[k], ring[k + 1])
  }

  /** A walk that comes back goes through a ring. */
  lemma {:induction false} RingInWalk(may: Rule, walk: seq<ClientId>) returns (ring: seq<ClientId>)
    requires Walk(may, walk) && |walk| >= 2 && walk[0] == walk[|walk| - 1]
    ensures RingOf(may, ring)
    decreases |walk|
  {
    assert Edge(may, walk[0], walk[0 + 1]);
    if a, b :| 0 <= a < b < |walk| - 1 && walk[a] == walk[b] {
      var part := walk[a..b + 1];
      forall k | 0 <= k < |part| - 1 ensures Edge(may, part[k], part[k + 1]) {
        assert Edge(may, walk[a + k], walk[a + k + 1]);
      }
      ring := RingInWalk(may, part);
    } else {
      ring := walk;
      forall k | 0 <= k < |ring| - 1 ensures may(ring[k], ring[k + 1]) {
        assert Edge(may, walk[k], walk[k + 1]);
      }
    }
  }

  // ---- Receivers join along the rule ----

  /** From the client of a callback the rule leads to what is joined through the calls made in it. */
  lemma {:induction false} JoinIsWalk(s: State, t: Thread, d: ClientId, n: nat, may: Rule) returns (walk: seq<ClientId>)
    requires Inv(s) && CallsWithin(s, may) && n > 0 && JoinsThrough(s, t, d, n) && t in s.threads
    ensures CallbackOf(t, s.threads[t]).Some? && Walk(may, walk) && |walk| >= 2
    ensures walk[0] == CallbackOf(t, s.threads[t]).value && walk[|walk| - 1] == d
    decreases n
  {
    assert CallWithin(s, t, may);
    var own := CallbackOf(t, s.threads[t]).value;
    if n > 1 {
      var rest := JoinIsWalk(s, Inner(t), d, n - 1, may);
      CallerIsCalm(s, Inner(t));
      LongerWalk(may, own, rest);
      walk := [own] + rest;
    } else {
      walk := [own, d];
    }
  }

  lemma ReceiverJoinIsWalk(s: State, c: ClientId, d: ClientId, may: Rule) returns (walk: seq<ClientId>)
    requires Inv(s) && CallsWithin(s, may) && ReceiverJoins(s, c, d)
    ensures Walk(may, walk) && |walk| >= 2 && walk[0] == c && walk[|walk| - 1] == d
  {
    var n: nat :| n > 0 && JoinsThrough(s, Recv(c), d, n);
    InvOfThread(s, Inner(Recv(c)));
    InvOfThread(s, Recv(c));
    assert Shape(Recv(c), s.threads[Recv(c)]);
    walk := JoinIsWalk(s, Recv(c), d, n, may);
  }

  lemma {:induction false} ReceiversAreWalk(s: State, cs: seq<ClientId>, may: Rule) returns (walk: seq<ClientId>)
    requires Inv(s) && CallsWithin(s, may) && |cs| >= 2
    requires forall k :: 0 <= k < |cs| - 1 ==> ReceiverJoins(s, cs[k], cs[k + 1])
    ensures Walk(may, walk) && |walk| >= 2 && walk[0] == cs[0] && walk[|walk| - 1] == cs[|cs| - 1]
  {
    assert ReceiverJoins(s, cs[0], cs[0 + 1]);
    walk := ReceiverJoinIsWalk(s, cs[0], cs[1], may);
    if |cs| > 2 {
      forall k | 0 <= k < |cs[1..]| - 1 ensures ReceiverJoins(s, cs[1..][k], cs[1..][k + 1]) {
        assert ReceiverJoins(s, cs[k + 1], cs[k + 1 + 1]);
      }
      var rest := ReceiversAreWalk(s, cs[1..], may);
      JoinWalks(may, walk, rest);
      walk := walk + rest[1..];
    }
  }

  /** When callbacks keep to a rule and threads wait for each other in a circle, the rule has a ring. */
  lemma CircleHasRing(states: seq<State>, may: Rule, i: nat, path: seq<Thread>) returns (ring: seq<ClientId>)
    requires RuledRun(states, may) && i < |states| && Circle(states[i], path)
    ensures RingOf(may, ring)
  {
    RuledRunIsRun(states, may);
    InvAlways(states, i);
    WithinAlways(states, may, i);
    var cs := CircleHasReceivers(states[i], path);
    var walk := ReceiversAreWalk(states[i], cs, may);
    ring := RingInWalk(may, walk);
  }

  // ---- Closing upwards ----

  /** To close only clients of a higher rank. */
  function Upwards(rank: ClientId -> int): Rule {
    (c: ClientId, d: ClientId) => rank(c) < rank(d)
  }

  lemma {:induction false} RanksRise(rank: ClientId -> int, ring: seq<ClientId>, k: nat)
    requires RingOf(Upwards(rank), ring) && k < |ring|
    ensures k > 0 ==> rank(ring[0]) < rank(ring[k])
  {
    if k > 1 {
      RanksRise(rank, ring, k - 1);
    }
    if k > 0 {
      assert Upwards(rank)(ring[k - 1], ring[k - 1 + 1]);
    }
  }

  /** When every callback closes only clients of a higher rank than its own, no threads ever wait in a circle. */
  lemma ClosingUpwardsIsSafe(states: seq<State>, rank: ClientId -> int, i: nat, path: seq<Thread>)
    requires RuledRun(states, Upwards(rank)) && i < |states|
    ensures !Circle(states[i], path)
  {
    if Circle(states[i], path) {
      var ring := CircleHasRing(states, Upwards(rank), i, path);
      RanksRise(rank, ring, |ring| - 1);
    }
  }
}
