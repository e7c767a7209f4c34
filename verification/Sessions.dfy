/**
 The session container: who owns the attribute pointers that are handed to it. Every operation holds the
 container's mutex from its first to its last access and is one step here.
 */
module Sessions {
  import opened Basics

  type Ptr = nat
  const NULL: Ptr := 0

  datatype Kind = BASIC | OBJECT

  /** A `SessionAttribute`; `cell` is the time that is read through the pointer. */
  datatype Attribute = Attribute(kind: Kind, ptr: Ptr, cell: int)

  type Attributes = map<string, Attribute>
  type Container = map<string, Attributes>

  const EXPIRATION: string := "session_expiration"

  /** A call of `free` for a basic attribute, a `delete` for an object. */
  datatype Release = Release(kind: Kind, ptr: Ptr)

  predicate HeldAt(sessions: Container, sid: string, name: string, p: Ptr) {
    sid in sessions && name in sessions[sid] && sessions[sid][name].ptr == p
  }

  ghost predicate Held(sessions: Container, p: Ptr) {
    exists sid, name :: HeldAt(sessions, sid, name, p)
  }

  /** No pointer stands in two places, and each stands there with the kind it was stored with. */
  ghost predicate Unshared(sessions: Container, stored: map<Ptr, Kind>) {
    && (forall sid, name, p :: HeldAt(sessions, sid, name, p) && p != NULL ==>
          p in stored && stored[p] == sessions[sid][name].kind)
    && (forall s1, n1, s2, n2, p {:trigger HeldAt(sessions, s1, n1, p), HeldAt(sessions, s2, n2, p)} ::
          HeldAt(sessions, s1, n1, p) && HeldAt(sessions, s2, n2, p) && p != NULL ==> s1 == s2 && n1 == n2)
  }

  /** What was stored and is not held any more has been released once, by the call for its kind; nothing else has. */
  ghost predicate Released(sessions: Container, stored: map<Ptr, Kind>, freed: multiset<Release>) {
    forall r: Release ::
      freed[r] == if r.ptr in stored && stored[r.ptr] == r.kind && !Held(sessions, r.ptr) then 1 else 0
  }

  ghost predicate Owned(sessions: Container, stored: map<Ptr, Kind>, freed: multiset<Release>) {
    Unshared(sessions, stored) && Released(sessions, stored, freed) && NULL !in stored
  }

  /** What removing an entry adds to the releases. */
  function Freed(a: Attribute): multiset<Release> {
    if a.ptr != NULL then multiset{Release(a.kind, a.ptr)} else multiset{}
  }

  function Without(sessions: Container, sid: string, name: string): Container
    requires sid in sessions
  {
    sessions[sid := sessions[sid] - {name}]
  }

  lemma WithoutHolds(sessions: Container, sid: string, name: string, s: string, n: string, p: Ptr)
    requires sid in sessions
    ensures HeldAt(Without(sessions, sid, name), s, n, p) <==> HeldAt(sessions, s, n, p) && !(s == sid && n == name)
  {
  }

  lemma HeldWithout(sessions: Container, stored: map<Ptr, Kind>, sid: string, name: string, p: Ptr)
    requires sid in sessions && name in sessions[sid] && Unshared(sessions, stored) && p != NULL
    ensures Held(Without(sessions, sid, name), p) <==> Held(sessions, p) && p != sessions[sid][name].ptr
  {
    if Held(sessions, p) && p != sessions[sid][name].ptr {
      var s, n :| HeldAt(sessions, s, n, p);
      WithoutHolds(sessions, sid, name, s, n, p);
    }
    if Held(Without(sessions, sid, name), p) {
      var s, n :| HeldAt(Without(sessions, sid, name), s, n, p);
      WithoutHolds(sessions, sid, name, s, n, p);
      assert HeldAt(sessions, sid, name, sessions[sid][name].ptr);
    }
  }

  /** An entry that is released and erased. */
  lemma RemoveKeeps(sessions: Container, stored: map<Ptr, Kind>, freed: multiset<Release>, sid: string, name: string)
    requires Owned(sessions, stored, freed) && sid in sessions && name in sessions[sid]
    ensures Owned(Without(sessions, sid, name), stored, freed + Freed(sessions[sid][name]))
  {
    var r := Without(sessions, sid, name);
    var a := sessions[sid][name];
    forall s, n, p ensures HeldAt(r, s, n, p) <==> HeldAt(sessions, s, n, p) && !(s == sid && n == name) {
      WithoutHolds(sessions, sid, name, s, n, p);
    }
    assert HeldAt(sessions, sid, name, a.ptr);
    forall release: Release
      ensures (freed + Freed(a))[release]
              == if release.ptr in stored && stored[release.ptr] == release.kind && !Held(r, release.ptr) then 1 else 0
    {
      if release.ptr != NULL {
        HeldWithout(sessions, stored, sid, name, release.ptr);
      }
    }
  }

  function With(sessions: Container, sid: string, name: string, a: Attribute): Container
    requires sid in sessions
  {
    sessions[sid := sessions[sid][name := a]]
  }

  function Stored(stored: map<Ptr, Kind>, a: Attribute): map<Ptr, Kind> {
    if a.ptr != NULL then stored[a.ptr := a.kind] else stored
  }

  lemma WithHolds(sessions: Container, sid: string, name: string, a: Attribute, s: string, n: string, p: Ptr)
    requires sid in sessions && name !in sessions[sid]
    ensures HeldAt(With(sessions, sid, name, a), s, n, p)
            <==> HeldAt(sessions, s, n, p) || (s == sid && n == name && p == a.ptr)
  {
  }

  lemma HeldWith(sessions: Container, sid: string, name: string, a: Attribute, p: Ptr)
    requires sid in sessions && name !in sessions[sid]
    ensures Held(With(sessions, sid, name, a), p) <==> Held(sessions, p) || p == a.ptr
  {
    if Held(With(sessions, sid, name, a), p) {
      var s, n :| HeldAt(With(sessions, sid, name, a), s, n, p);
      WithHolds(sessions, sid, name, a, s, n, p);
    }
    if Held(sessions, p) {
      var s, n :| HeldAt(sessions, s, n, p);
      WithHolds(sessions, sid, name, a, s, n, p);
    }
    WithHolds(sessions, sid, name, a, sid, name, a.ptr);
  }

  /** A pointer that was never stored before, entered under a name that is free. */
  lemma InsertKeeps(sessions: Container, stored: map<Ptr, Kind>, freed: multiset<Release>, sid: string, name: string,
                    a: Attribute)
    requires Owned(sessions, stored, freed) && sid in sessions && name !in sessions[sid] && a.ptr !in stored
    ensures Owned(With(sessions, sid, name, a), Stored(stored, a), freed)
  {
    var r, stored' := With(sessions, sid, name, a), Stored(stored, a);
    forall s, n, p ensures HeldAt(r, s, n, p) <==> HeldAt(sessions, s, n, p) || (s == sid && n == name && p == a.ptr) {
      WithHolds(sessions, sid, name, a, s, n, p);
    }
    forall release: Release
      ensures freed[release]
              == if release.ptr in stored' && stored'[release.ptr] == release.kind && !Held(r, release.ptr)
                 then 1 else 0
    {
      HeldWith(sessions, sid, name, a, release.ptr);
    }
  }

  lemma EraseThenInsert(sessions: Container, sid: string, name: string, a: Attribute)
    requires sid in sessions && name in sessions[sid]
    ensures With(Without(sessions, sid, name), sid, name, a) == With(sessions, sid, name, a)
  {
    assert (sessions[sid] - {name})[name := a] == sessions[sid][name := a];
  }

  /** Sessions without entries come and go without a trace. */
  lemma SameHoldings(sessions: Container, r: Container, stored: map<Ptr, Kind>, freed: multiset<Release>)
    requires Owned(sessions, stored, freed)
    requires forall s, n, p :: HeldAt(r, s, n, p) <==> HeldAt(sessions, s, n, p)
    requires forall s, n, p :: HeldAt(r, s, n, p) ==> r[s][n].kind == sessions[s][n].kind
    ensures Owned(r, stored, freed)
  {
    forall p ensures Held(r, p) <==> Held(sessions, p) {
      if Held(r, p) {
        var s, n :| HeldAt(r, s, n, p);
        assert HeldAt(sessions, s, n, p);
      }
      if Held(sessions, p) {
        var s, n :| HeldAt(sessions, s, n, p);
        assert HeldAt(r, s, n, p);
      }
    }
  }

  // ---- What the operations make of the container ----

  /** `removeExpiredSession` keeps a session exactly when it has an expiry date that is neither zero nor past. */
  predicate Keeps(attributes: Attributes, now: int) {
    && EXPIRATION in attributes && attributes[EXPIRATION].ptr != NULL
    && attributes[EXPIRATION].cell != 0 && attributes[EXPIRATION].cell > now
  }

  datatype Op =
    | Create(sid: string)
    | Set(sid: string, name: string, a: Attribute)  // setAttribute, setObjectAttribute
    | RemoveAttribute(sid: string, name: string)
    | Remove(sid: string)
    | RemoveAll
    | RemoveExpired(now: int)
    | SetExpiration(sid: string, cell: int)         // updateExpiration, noExpiration

  function Touched(attributes: Attributes, cell: int): Attributes {
    if EXPIRATION in attributes && attributes[EXPIRATION].kind == BASIC && attributes[EXPIRATION].ptr != NULL
    then attributes[EXPIRATION := attributes[EXPIRATION].(cell := cell)] else attributes
  }

  function After(sessions: Container, op: Op): Container {
    match op
    case Create(sid) => sessions[sid := map[]]
    case Set(sid, name, a) => if sid in sessions then With(sessions, sid, name, a) else sessions
    case RemoveAttribute(sid, name) => if sid in sessions then Without(sessions, sid, name) else sessions
    case Remove(sid) => sessions - {sid}
    case RemoveAll => map[]
    case RemoveExpired(now) => map sid | sid in sessions && Keeps(sessions[sid], now) :: sessions[sid]
    case SetExpiration(sid, cell) => if sid in sessions then sessions[sid := Touched(sessions[sid], cell)] else sessions
  }

  // ---- The container ----

  class HttpSession {
    var sessions: Container
    ghost var stored: map<Ptr, Kind>    // every pointer that an entry was made for
    ghost var freed: multiset<Release>

    ghost predicate Valid()
      reads this
    {
      Owned(sessions, stored, freed)
    }

    constructor ()
      ensures Valid() && sessions == map[] && stored == map[]
    {
      sessions, stored, freed := map[], map[], multiset{};
    }

    /** A session with an identifier that is not in use. */
    method CreateSession(id: string)
      requires Valid() && id !in sessions
      modifies `sessions
      ensures Valid() && sessions == After(old(sessions), Create(id))
    {
      ghost var before := sessions;
      sessions := sessions[id := map[]];
      SameHoldings(before, sessions, stored, freed);
    }

    /** Releases what an entry holds and erases it. */
    method EraseEntry(sid: string, name: string)
      requires Valid() && sid in sessions && name in sessions[sid]
      modifies `sessions, `freed
      ensures Valid() && sessions == Without(old(sessions), sid, name)
    {
      RemoveKeeps(sessions, stored, freed, sid, name);
      var existing := sessions[sid][name];
      if existing.ptr != NULL {
        freed := freed + multiset{Release(existing.kind, existing.ptr)};
      } else {
        assert freed + multiset{} == freed;
      }
      sessions := sessions[sid := sessions[sid] - {name}];
    }

    method SetAttribute(sid: string, name: string, a: Attribute)
      requires Valid() && a.ptr !in stored
      modifies this
      ensures Valid() && sessions == After(old(sessions), Set(sid, name, a))
      ensures stored == if sid in old(sessions) then Stored(old(stored), a) else old(stored)
    {
      if sid !in sessions {
        return;
      }
      if name in sessions[sid] {
        EraseEntry(sid, name);
        EraseThenInsert(old(sessions), sid, name, a);
      }
      InsertKeeps(sessions, stored, freed, sid, name, a);
      stored := Stored(stored, a);
      sessions := sessions[sid := sessions[sid][name := a]];
    }

    method GetAttribute(sid: string, name: string, kind: Kind) returns (res: Ptr)
      ensures res != NULL ==> HeldAt(sessions, sid, name, res) && sessions[sid][name].kind == kind
      ensures res == NULL ==>
                || sid !in sessions || name !in sessions[sid] || sessions[sid][name].kind != kind
                || HeldAt(sessions, sid, name, NULL)
    {
      if sid !in sessions || name !in sessions[sid] || sessions[sid][name].kind != kind {
        return NULL;
      }
      return sessions[sid][name].ptr;
    }

    /** Writes an expiry date through the pointer that the session holds for it. */
    method WriteExpiration(sid: string, cell: int)
      requires Valid()
      modifies `sessions
      ensures Valid() && sessions == After(old(sessions), SetExpiration(sid, cell))
    {
      var expiration := GetAttribute(sid, EXPIRATION, BASIC);
      if expiration != NULL {
        ghost var before := sessions;
        sessions := sessions[sid := sessions[sid][EXPIRATION := sessions[sid][EXPIRATION].(cell := cell)]];
        SameHoldings(before, sessions, stored, freed);
      } else if sid in sessions {
        assert sessions[sid := sessions[sid]] == sessions;
      }
    }

    method RemoveOneAttribute(sid: string, name: string)
      requires Valid()
      modifies `sessions, `freed
      ensures Valid() && sessions == After(old(sessions), RemoveAttribute(sid, name))
    {
      if sid !in sessions {
        return;
      }
      if name in sessions[sid] {
        EraseEntry(sid, name);
      } else {
        assert sessions[sid] - {name} == sessions[sid] && sessions[sid := sessions[sid]] == sessions;
      }
    }

    /** `removeAllAttribute` and the erasure of the session. */
    method EraseSession(sid: string)
      requires Valid() && sid in sessions
      modifies `sessions, `freed
      ensures Valid() && sessions == old(sessions) - {sid}
    {
      while sessions[sid] != map[]
        invariant Valid() && sid in sessions && sessions - {sid} == old(sessions) - {sid}
        decreases |sessions[sid]|
      {
        var name :| name in sessions[sid];
        ghost var before := sessions;
        EraseEntry(sid, name);
        assert sessions[sid].Keys < before[sid].Keys;
        FewerEntries(sessions[sid], before[sid]);
      }
      ghost var before := sessions;
      sessions := sessions - {sid};
      SameHoldings(before, sessions, stored, freed);
    }

    method RemoveSession(sid: string)
      requires Valid()
      modifies `sessions, `freed
      ensures Valid() && sessions == After(old(sessions), Remove(sid))
    {
      if sid in sessions {
        EraseSession(sid);
      } else {
        assert sessions - {sid} == sessions;
      }
    }

    /** The loop over all sessions of `removeAllSession` and `removeExpiredSession`. */
    method RemoveSessions(all: bool, now: int)
      requires Valid()
      modifies `sessions, `freed
      ensures Valid() && sessions == After(old(sessions), if all then RemoveAll else RemoveExpired(now))
    {
      var todo := sessions.Keys;
      while todo != {}
        invariant Valid() && todo <= sessions.Keys <= old(sessions).Keys
        invariant forall sid :: sid in sessions ==> sessions[sid] == old(sessions)[sid]
        invariant forall sid :: sid in old(sessions) && sid !in todo ==>
                    (sid in sessions <==> !all && Keeps(old(sessions)[sid], now))
        decreases |todo|
      {
        var sid :| sid in todo;
        if all || !Keeps(sessions[sid], now) {
          EraseSession(sid);
        }
        todo := todo - {sid};
      }
      assert sessions == After(old(sessions), if all then RemoveAll else RemoveExpired(now));
    }

    predicate MayDo(op: Op)
      reads this
    {
      op.Create? ==> op.sid !in sessions
    }

    method Perform(op: Op)
      requires Valid() && MayDo(op) && (op.Set? ==> op.a.ptr !in stored)
      modifies this
      ensures Valid() && sessions == After(old(sessions), op)
      ensures stored == if op.Set? && op.sid in old(sessions) then Stored(old(stored), op.a) else old(stored)
    {
      match op
      case Create(sid) => CreateSession(sid);
      case Set(sid, name, a) => SetAttribute(sid, name, a);
      case RemoveAttribute(sid, name) => RemoveOneAttribute(sid, name);
      case Remove(sid) => RemoveSession(sid);
      case RemoveAll => RemoveSessions(true, 0);
      case RemoveExpired(now) => RemoveSessions(false, now);
      case SetExpiration(sid, cell) => WriteExpiration(sid, cell);
    }
  }

  lemma FewerEntries(a: Attributes, b: Attributes)
    requires a.Keys < b.Keys
    ensures |a| < |b|
  {
    SmallerSet(a.Keys, b.Keys);
    assert |a| == |a.Keys| && |b| == |b.Keys|;
  }

  lemma {:induction false} SmallerSet(a: set<string>, b: set<string>)
    requires a < b
    ensures |a| < |b|
  {
    var rest := b - a;
    assert |b| == |a| + |rest| by {
      assert b == a + rest;
    }
    assert rest != {};
  }

  // ---- What ownership means ----

  /** A pointer that was stored is held by exactly one entry, or has been released exactly once and as what it is. */
  lemma OneOwner(sessions: Container, stored: map<Ptr, Kind>, freed: multiset<Release>, p: Ptr)
    requires Owned(sessions, stored, freed) && p in stored
    ensures var own, other := Release(stored[p], p), Release(if stored[p] == BASIC then OBJECT else BASIC, p);
            && freed[other] == 0
            && (Held(sessions, p) ==> freed[own] == 0)
            && (!Held(sessions, p) ==> freed[own] == 1)
  {
  }

  /** Operations one after the other, with the pointers that they hand over. */
  function AfterAll(sessions: Container, ops: seq<Op>): Container
    decreases |ops|
  {
    if ops == [] then sessions else AfterAll(After(sessions, ops[0]), ops[1..])
  }

  /** Identifiers of new sessions are not in use. */
  predicate Possible(sessions: Container, ops: seq<Op>)
    decreases |ops|
  {
    ops == [] || ((ops[0].Create? ==> ops[0].sid !in sessions) && Possible(After(sessions, ops[0]), ops[1..]))
  }

  /** Every pointer is handed over once, fresh from its allocation, or is null. */
  predicate FreshPointers(ops: seq<Op>) {
    forall i, j :: 0 <= i < j < |ops| && ops[i].Set? && ops[j].Set? && ops[i].a.ptr != NULL ==>
      ops[i].a.ptr != ops[j].a.ptr
  }

  /** Over every run, the container owns each pointer until it has released it once. */
  method PerformAll(container: HttpSession, ops: seq<Op>)
    requires container.Valid() && Possible(container.sessions, ops) && FreshPointers(ops)
    requires forall i :: 0 <= i < |ops| && ops[i].Set? ==> ops[i].a.ptr !in container.stored
    modifies container
    ensures container.Valid() && container.sessions == AfterAll(old(container.sessions), ops)
  {
    for i := 0 to |ops|
      invariant container.Valid() && Possible(container.sessions, ops[i..])
      invariant AfterAll(container.sessions, ops[i..]) == AfterAll(old(container.sessions), ops)
      invariant forall j :: i <= j < |ops| && ops[j].Set? ==> ops[j].a.ptr !in container.stored
    {
      assert ops[i..][0] == ops[i] && ops[i..][1..] == ops[i + 1..];
      container.Perform(ops[i]);
    }
  }

  // ---- What is found later ----

  /** What `getAttribute` and `getObjectAttribute` look at. */
  function LookUp(sessions: Container, sid: string, name: string): Option<Attribute> {
    if sid in sessions && name in sessions[sid] then Some(sessions[sid][name]) else None
  }

  /** Operations that say what an entry is: they write, remove or date it, or begin or end its session. */
  predicate Concerns(op: Op, sid: string, name: string) {
    match op
    case Create(s) => s == sid
    case Set(s, n, _) => s == sid && n == name
    case RemoveAttribute(s, n) => s == sid && n == name
    case Remove(s) => s == sid
    case RemoveAll => true
    case RemoveExpired(_) => false
    case SetExpiration(s, _) => s == sid && name == EXPIRATION
  }

  /** What such an operation makes of the entry. */
  lemma IsWritten(sessions: Container, sid: string, name: string, a: Attribute, cell: int)
    ensures LookUp(After(sessions, Create(sid)), sid, name) == None && sid in After(sessions, Create(sid))
    ensures LookUp(After(sessions, Set(sid, name, a)), sid, name) == if sid in sessions then Some(a) else None
    ensures LookUp(After(sessions, RemoveAttribute(sid, name)), sid, name) == None
    ensures sid in After(sessions, Set(sid, name, a)) <==> sid in sessions
    ensures sid in After(sessions, RemoveAttribute(sid, name)) <==> sid in sessions
    ensures sid !in After(sessions, Remove(sid)) && sid !in After(sessions, RemoveAll)
    ensures var date := LookUp(sessions, sid, EXPIRATION);
            LookUp(After(sessions, SetExpiration(sid, cell)), sid, EXPIRATION)
            == if date.Some? && date.value.kind == BASIC && date.value.ptr != NULL then Some(date.value.(cell := cell))
               else date
  {
  }

  /** The date of a session, where the search for expired sessions finds one. */
  predicate HasDate(sessions: Container, sid: string, date: int) {
    match LookUp(sessions, sid, EXPIRATION)
    case None => false
    case Some(a) => a.ptr != NULL && a.cell == date
  }

  /** One operation that concerns neither the entry nor the date of its session. */
  lemma LivesOneStep(sessions: Container, op: Op, sid: string, name: string, date: int)
    requires HasDate(sessions, sid, date) && !Concerns(op, sid, EXPIRATION) && !Concerns(op, sid, name)
    ensures sid in After(sessions, op) <==> (op.RemoveExpired? ==> date != 0 && op.now < date)
    ensures var next := After(sessions, op);
            sid in next ==> HasDate(next, sid, date) && LookUp(next, sid, name) == LookUp(sessions, sid, name)
  {
  }

  lemma StaysGone(sessions: Container, op: Op, sid: string)
    requires sid !in sessions && !Concerns(op, sid, EXPIRATION)
    ensures sid !in After(sessions, op)
  {
  }

  predicate NoneConcerns(ops: seq<Op>, sid: string, name: string) {
    forall i :: 0 <= i < |ops| ==> !Concerns(ops[i], sid, EXPIRATION) && !Concerns(ops[i], sid, name)
  }

  /** No search for expired sessions finds the date zero or past. */
  predicate NeverDue(ops: seq<Op>, date: int) {
    forall i :: 0 <= i < |ops| && ops[i].RemoveExpired? ==> date != 0 && ops[i].now < date
  }

  lemma {:induction false} GoneForGood(sessions: Container, ops: seq<Op>, sid: string, name: string)
    requires sid !in sessions && NoneConcerns(ops, sid, name)
    ensures sid !in AfterAll(sessions, ops)
    decreases |ops|
  {
    if ops != [] {
      StaysGone(sessions, ops[0], sid);
      GoneForGood(After(sessions, ops[0]), ops[1..], sid, name);
    }
  }

  /**
   Whatever else happens to the container, a session lives until a search finds its date zero or past, and until
   then what was stored in it is found as it was stored.
   */
  lemma {:induction false} LivesExactlyUntilDue(sessions: Container, ops: seq<Op>, sid: string, name: string, date: int)
    requires HasDate(sessions, sid, date) && NoneConcerns(ops, sid, name)
    ensures sid in AfterAll(sessions, ops) <==> NeverDue(ops, date)
    ensures NeverDue(ops, date) ==> LookUp(AfterAll(sessions, ops), sid, name) == LookUp(sessions, sid, name)
    decreases |ops|
  {
    if ops != [] {
      var next := After(sessions, ops[0]);
      LivesOneStep(sessions, ops[0], sid, name, date);
      assert ops == [ops[0]] + ops[1..];
      if sid in next {
        LivesExactlyUntilDue(next, ops[1..], sid, name, date);
      } else {
        GoneForGood(next, ops[1..], sid, name);
      }
    }
  }

  /**
   A session that is set never to expire is still there after the next search for expired ones if and only if it
   was not due already and an object stands where its date should: every date is overwritten by one that is past.
   */
  lemma NoExpirationExpires(sessions: Container, sid: string, now: int)
    ensures sid in AfterAll(sessions, [SetExpiration(sid, 0), RemoveExpired(now)])
            <==> sid in sessions && Keeps(sessions[sid], now) && sessions[sid][EXPIRATION].kind == OBJECT
  {
    var ops := [SetExpiration(sid, 0), RemoveExpired(now)];
    assert ops[1..] == [RemoveExpired(now)] && ops[1..][1..] == [];
    assert AfterAll(sessions, ops) == AfterAll(After(sessions, ops[0]), [RemoveExpired(now)]);
    assert AfterAll(After(sessions, ops[0]), [RemoveExpired(now)])
           == AfterAll(After(After(sessions, ops[0]), RemoveExpired(now)), []);
  }
}
