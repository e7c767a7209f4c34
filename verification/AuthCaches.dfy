/** The caches of the two HTTP authentications, and when they answer as the check that they stand for. */
module AuthCaches {
  import opened Basics
  import opened Base64

  const LOGHIST_EXPIRATION_DELAY: int := 600

  type Time = int
  const COLON: Octet := 58

  // ---- Basic authentication ----

  /** The position of the first colon, or the length. */
  function ColonAt(s: seq<Octet>): (n: nat)
    ensures n <= |s| && (n < |s| ==> s[n] == COLON) && forall i :: 0 <= i < n ==> s[i] != COLON
  {
    if s == [] || s[0] == COLON then 0 else 1 + ColonAt(s[1..])
  }

  lemma AroundColon(s: seq<Octet>)
    ensures ColonAt(s) < |s| <==> COLON in s
    ensures ColonAt(s) < |s| ==> s[..ColonAt(s)] + [COLON] + s[ColonAt(s) + 1..] == s
  {
    var n := ColonAt(s);
    if COLON in s {
      var i :| 0 <= i < |s| && s[i] == COLON;
    }
    if n < |s| {
      SplitAt(s, n);
    }
  }

  lemma SplitAt(s: seq<Octet>, n: nat)
    requires n < |s|
    ensures s[n] in s && s[..n] + [s[n]] + s[n + 1..] == s
  {
  }

  /** The check that the cache stands for: the decoded credentials are one of the configured pairs. */
  predicate IsListed(list: seq<seq<Octet>>, pwdb64: string) {
    COLON in Decode(pwdb64) && Decode(pwdb64) in list
  }

  class BasicAuth {
    var authLoginPwdList: seq<seq<Octet>>
    var usersAuthHistory: map<string, Time>

    /** Only credentials that are listed are in the cache. */
    ghost predicate Valid()
      reads this
    {
      forall p :: p in usersAuthHistory ==> IsListed(authLoginPwdList, p)
    }

    constructor ()
      ensures Valid() && authLoginPwdList == [] && usersAuthHistory == map[]
    {
      authLoginPwdList, usersAuthHistory := [], map[];
    }

    method AddLoginPass(login: seq<Octet>, pass: seq<Octet>)
      requires Valid()
      modifies `authLoginPwdList
      ensures Valid() && authLoginPwdList == old(authLoginPwdList) + [login + [COLON] + pass]
    {
      authLoginPwdList := authLoginPwdList + [login + [COLON] + pass];
    }

    /** The answer is that of the list, whatever the clock and the cache; the login is set unless the cache answers. */
    method IsUserAllowed(pwdb64: string, login: seq<Octet>, t: Time) returns (ok: bool, login': seq<Octet>)
      requires Valid() && |pwdb64| < 0x8000_0000
      modifies `usersAuthHistory
      ensures Valid()
      ensures ok <==> IsListed(authLoginPwdList, pwdb64)
      ensures var history := old(usersAuthHistory);
              var cached := pwdb64 in history && t - history[pwdb64] <= LOGHIST_EXPIRATION_DELAY;
              login' == if cached || COLON !in Decode(pwdb64) then login
                        else Decode(pwdb64)[..ColonAt(Decode(pwdb64))]
      ensures usersAuthHistory == if pwdb64 in old(usersAuthHistory) || ok then old(usersAuthHistory)[pwdb64 := t]
                                  else old(usersAuthHistory)
    {
      login' := login;
      var isNewUser := true;
      var known := pwdb64 in usersAuthHistory;
      if known {
        isNewUser := t - usersAuthHistory[pwdb64] > LOGHIST_EXPIRATION_DELAY;
        usersAuthHistory := usersAuthHistory[pwdb64 := t];
      }
      if !isNewUser {
        return true, login';
      }
      var loginPwd := Base64Decode(pwdb64);
      var loginPwdSep := ColonAt(loginPwd);
      AroundColon(loginPwd);
      if loginPwdSep == |loginPwd| {
        return false, login';
      }
      login' := loginPwd[..loginPwdSep];
      var pwd := loginPwd[loginPwdSep + 1..];
      var logPass := login' + [COLON] + pwd;
      ok := SearchList(logPass);
      if ok && !known {
        usersAuthHistory := usersAuthHistory[pwdb64 := t];
      }
    }

    method SearchList(logPass: seq<Octet>) returns (authOK: bool)
      ensures authOK <==> logPass in authLoginPwdList
    {
      authOK := false;
      for i := 0 to |authLoginPwdList|
        invariant authOK <==> logPass in authLoginPwdList[..i]
      {
        if logPass == authLoginPwdList[i] {
          authOK := true;
        }
      }
    }
  }

  /** A user who asks twice: the second time the cache answers, and the login name is left as it was. */
  method LoginIsSetOnce(login: seq<Octet>, pass: seq<Octet>, before: seq<Octet>, t: Time)
    returns (granted: bool, first: seq<Octet>, again: bool, second: seq<Octet>)
    requires COLON !in login && |Encode(login + [COLON] + pass)| < 0x8000_0000
    ensures granted && again && first == login && second == before
  {
    var auth := new BasicAuth();
    var pwdb64 := Encode(login + [COLON] + pass);
    DecodeInvertsEncode(login + [COLON] + pass);
    ColonAfter(login, pass);
    auth.AddLoginPass(login, pass);
    granted, first := auth.IsUserAllowed(pwdb64, before, t);
    again, second := auth.IsUserAllowed(pwdb64, before, t);
  }

  lemma ColonAfter(login: seq<Octet>, pass: seq<Octet>)
    requires COLON !in login
    ensures var s := login + [COLON] + pass; ColonAt(s) == |login| && s[..|login|] == login && COLON in s
  {
    var s := login + [COLON] + pass;
    assert s[|login|] == COLON;
  }

  datatype User = User(login: seq<Octet>, pass: seq<Octet>)
  {
    function Entry(): seq<Octet> {
      login + [COLON] + pass
    }
  }

  /** What `addLoginPass` makes of some users. */
  function Entries(users: seq<User>): (list: seq<seq<Octet>>)
    ensures |list| == |users| && forall i :: 0 <= i < |users| ==> list[i] == users[i].Entry()
  {
    seq(|users|, i requires 0 <= i < |users| => users[i].Entry())
  }

  lemma SameUser(a: User, b: User)
    requires COLON !in a.login && COLON !in b.login && a.Entry() == b.Entry()
    ensures a == b
  {
    ColonAfter(a.login, a.pass);
    ColonAfter(b.login, b.pass);
    assert a.pass == a.Entry()[|a.login| + 1..] && b.pass == b.Entry()[|b.login| + 1..];
  }

  /** The credentials that section 2 of RFC 7617 builds for a user are listed if and only if the user is. */
  lemma OnlyUsersAreListed(users: seq<User>, user: User)
    requires COLON !in user.login && forall i :: 0 <= i < |users| ==> COLON !in users[i].login
    ensures IsListed(Entries(users), Encode(user.Entry())) <==> user in users
  {
    DecodeInvertsEncode(user.Entry());
    ColonAfter(user.login, user.pass);
    if user.Entry() in Entries(users) {
      var i :| 0 <= i < |users| && Entries(users)[i] == user.Entry();
      SameUser(user, users[i]);
    }
    if user in users {
      var i :| 0 <= i < |users| && users[i] == user;
      assert Entries(users)[i] == user.Entry();
    }
  }

  // ---- Any sequence of requests ----

  datatype Event = Grant(login: seq<Octet>, pass: seq<Octet>) | Ask(pwdb64: string, t: Time)

  /** The answers that the list gives, without any cache. */
  function Answers(list: seq<seq<Octet>>, events: seq<Event>): seq<bool>
    decreases |events|
  {
    if events == [] then []
    else
      match events[0]
      case Grant(login, pass) => Answers(list + [login + [COLON] + pass], events[1..])
      case Ask(p, _) => [IsListed(list, p)] + Answers(list, events[1..])
  }

  /** Over any run, with any clock, the cached answers are those of the list. */
  method AnswerAll(auth: BasicAuth, events: seq<Event>) returns (answers: seq<bool>)
    requires auth.Valid()
    requires forall i :: 0 <= i < |events| ==> events[i].Ask? ==> |events[i].pwdb64| < 0x8000_0000
    modifies auth
    ensures auth.Valid() && answers == Answers(old(auth.authLoginPwdList), events)
  {
    answers := [];
    for i := 0 to |events|
      invariant auth.Valid()
      invariant answers + Answers(auth.authLoginPwdList, events[i..]) == Answers(old(auth.authLoginPwdList), events)
    {
      match events[i] {
        case Grant(login, pass) =>
          auth.AddLoginPass(login, pass);
        case Ask(p, t) =>
          var ok, login := auth.IsUserAllowed(p, [], t);
          OneAnswer(answers, auth.authLoginPwdList, events[i..]);
          answers := answers + [ok];
      }
      assert events[i..][1..] == events[i + 1..];
    }
  }

  lemma OneAnswer(answers: seq<bool>, list: seq<seq<Octet>>, events: seq<Event>)
    requires events != [] && events[0].Ask?
    ensures answers + [IsListed(list, events[0].pwdb64)] + Answers(list, events[1..]) == answers + Answers(list, events)
  {
  }

  // ---- Bearer tokens ----

  type Decoded = seq<Octet>

  /** What a scope callback returns, with the description that it may set. */
  datatype ScopeResult = ScopeResult(result: int, errDescr: string)

  /** The callbacks, as functions of their arguments. */
  datatype Callbacks = Callbacks(decode: string -> Option<Decoded>, expiration: Decoded -> Time,
                                 scopes: Option<(Decoded, string) -> ScopeResult>)
  {
    /** The expiry date of a token whose signature is valid and which has one. */
    function Expiry(token: string): Option<Time> {
      match decode(token)
      case None => None
      case Some(decoded) => if expiration(decoded) == 0 then None else Some(expiration(decoded))
    }

    predicate ScopeDenies(token: string, url: string) {
      scopes.Some? && decode(token).Some? && scopes.value(decode(token).value, url).result != 0
    }

    /** The check that the cache stands for. */
    predicate Allows(token: string, url: string, t: Time) {
      Expiry(token).Some? && t <= Expiry(token).value && !ScopeDenies(token, url)
    }

    /** The check as the scope callback is documented: it returns true, which is not zero, on success. */
    predicate AllowsAsDocumented(token: string, url: string, t: Time) {
      && Expiry(token).Some? && t <= Expiry(token).value
      && (scopes.None? || scopes.value(decode(token).value, url).result != 0)
    }
  }

  datatype TokenRequest = TokenRequest(token: string, url: string, t: Time)

  /** The cache after a request, and the answer: the scope is not asked for again once a token is cached. */
  function CacheAfter(cb: Callbacks, cache: map<string, Time>, r: TokenRequest): (map<string, Time>, bool) {
    var ok := cb.Expiry(r.token).Some? && r.t <= cb.Expiry(r.token).value
              && (r.token in cache || !cb.ScopeDenies(r.token, r.url));
    (if ok then cache[r.token := cb.Expiry(r.token).value] else cache - {r.token}, ok)
  }

  datatype Refusal = InvalidSignature | NoExpiration | Expired | InsufficientScope(description: string)

  /** What a refusal tells of a token: of several reasons the first one that is looked for. */
  predicate IsReason(refusal: Refusal, cb: Callbacks, token: string, url: string, t: Time) {
    match cb.decode(token)
    case None => refusal == InvalidSignature
    case Some(decoded) =>
      match refusal
      case InvalidSignature => false
      case NoExpiration => cb.expiration(decoded) == 0
      case Expired => cb.expiration(decoded) != 0 && cb.expiration(decoded) < t
      case InsufficientScope(description) =>
        && cb.expiration(decoded) != 0 && t <= cb.expiration(decoded) && cb.scopes.Some?
        && cb.scopes.value(decoded, url).result != 0 && description == cb.scopes.value(decoded, url).errDescr
  }

  class BearerAuth {
    const callbacks: Callbacks
    var tokensAuthHistory: map<string, Time>

    /** A cached token is one that decodes, with its own expiry date. */
    ghost predicate Valid()
      reads this
    {
      forall k :: k in tokensAuthHistory ==> callbacks.Expiry(k) == Some(tokensAuthHistory[k])
    }

    constructor (callbacks: Callbacks)
      ensures this.callbacks == callbacks && Valid() && tokensAuthHistory == map[]
    {
      this.callbacks, tokensAuthHistory := callbacks, map[];
    }

    method IsTokenAllowed(tokb64: string, resourceUrl: string, t: Time) returns (ok: bool, refusal: Option<Refusal>)
      requires Valid()
      modifies `tokensAuthHistory
      ensures Valid()
      ensures var request := TokenRequest(tokb64, resourceUrl, t);
              var (cache, answer) := CacheAfter(callbacks, old(tokensAuthHistory), request);
              tokensAuthHistory == cache && ok == answer
      ensures refusal.Some? <==> !ok && tokb64 !in old(tokensAuthHistory)
      ensures refusal.Some? ==> IsReason(refusal.value, callbacks, tokb64, resourceUrl, t)
    {
      refusal := None;
      if tokb64 in tokensAuthHistory {
        var isTokenExpired := t > tokensAuthHistory[tokb64];
        if isTokenExpired {
          tokensAuthHistory := tokensAuthHistory - {tokb64};
        }
        return !isTokenExpired, None;
      }
      var tokDecoded := callbacks.decode(tokb64);
      if tokDecoded.None? {
        return false, Some(InvalidSignature);
      }
      var expiration := callbacks.expiration(tokDecoded.value);
      if expiration == 0 {
        return false, Some(NoExpiration);
      }
      if expiration < t {
        return false, Some(Expired);
      }
      if callbacks.scopes.Some? {
        var scope := callbacks.scopes.value(tokDecoded.value, resourceUrl);
        if scope.result != 0 {
          return false, Some(InsufficientScope(scope.errDescr));
        }
      }
      tokensAuthHistory := tokensAuthHistory[tokb64 := expiration];
      return true, None;
    }
  }

  /**
   The cached answer is that of the check, unless a cached token that has not expired is out of scope for the
   resource.
   */
  lemma AgreesUnlessScopeChanged(cb: Callbacks, cache: map<string, Time>, r: TokenRequest)
    requires forall k :: k in cache ==> cb.Expiry(k) == Some(cache[k])
    ensures CacheAfter(cb, cache, r).1 == cb.Allows(r.token, r.url, r.t)
            <==> !(r.token in cache && r.t <= cache[r.token] && cb.ScopeDenies(r.token, r.url))
  {
    if r.token in cache {
      assert cb.Expiry(r.token) == Some(cache[r.token]);
    }
  }

  /** The cache after a request holds the token asked for exactly when it was allowed; the others are left alone. */
  lemma CachedExactlyWhenAllowed(cb: Callbacks, cache: map<string, Time>, r: TokenRequest, other: string)
    ensures var (next, ok) := CacheAfter(cb, cache, r);
            && (r.token in next <==> ok)
            && (other != r.token ==> (other in next <==> other in cache))
            && (other != r.token && other in cache ==> next[other] == cache[other])
  {
  }

  /** Without a scope callback every answer of every run is that of the check. */
  method AnswerTokens(auth: BearerAuth, requests: seq<TokenRequest>) returns (answers: seq<bool>)
    requires auth.Valid()
    modifies auth
    ensures auth.Valid() && |answers| == |requests|
    ensures auth.callbacks.scopes.None? ==>
              forall i :: 0 <= i < |answers| ==>
                answers[i] == auth.callbacks.Allows(requests[i].token, requests[i].url, requests[i].t)
  {
    answers := [];
    for i := 0 to |requests|
      invariant auth.Valid() && |answers| == i
      invariant auth.callbacks.scopes.None? ==>
                  forall j :: 0 <= j < i ==>
                    answers[j] == auth.callbacks.Allows(requests[j].token, requests[j].url, requests[j].t)
    {
      var ok, refusal := auth.IsTokenAllowed(requests[i].token, requests[i].url, requests[i].t);
      answers := answers + [ok];
    }
  }

  /** A token that was allowed for one resource is then allowed for another one that its scope denies. */
  lemma ScopeIsNotAskedAgain(cb: Callbacks, token: string, url: string, other: string, t: Time)
    requires cb.Allows(token, url, t) && cb.ScopeDenies(token, other)
    ensures var (cache, first) := CacheAfter(cb, map[], TokenRequest(token, url, t));
            first && CacheAfter(cb, cache, TokenRequest(token, other, t)).1 && !cb.Allows(token, other, t)
  {
  }

  /**
   A callback written to its documentation: what it grants is refused and what it denies is allowed. For a token
   that is not cached the two readings agree exactly when the callback is not asked, for a cached one exactly
   when that has expired or, as documented, the callback grants.
   */
  lemma DocumentedScopeIsReversed(cb: Callbacks, cache: map<string, Time>, r: TokenRequest)
    requires forall k :: k in cache ==> cb.Expiry(k) == Some(cache[k])
    ensures var asked := cb.scopes.Some? && cb.Expiry(r.token).Some? && r.t <= cb.Expiry(r.token).value;
            var documented := cb.AllowsAsDocumented(r.token, r.url, r.t);
            && (cb.Allows(r.token, r.url, r.t) == documented <==> !asked)
            && (CacheAfter(cb, cache, r).1 == documented <==> !asked || (r.token in cache && documented))
  {
  }
}
