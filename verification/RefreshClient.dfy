/**
 The browser client composed with the session server: one client instance, every response
 delivered, any interleaving of requests, refreshes, logins, logouts and other parties.
 */
module RefreshClient {
  import opened Wrappers
  import opened AuthModel
  import opened SessionChains

  type RequestId = nat
  type FetchId = nat

  /** One API request: how often it has been sent and what it waits for. */
  datatype ApiRequest =
    | InFlight(sends: nat, mayRefresh: bool)
    | AwaitingRefresh(sends: nat, fetch: FetchId)
    | Resumed(sends: nat, granted: bool)
    | Finished(sends: nat)

  /** `Failed`: a server error without a cookie, after the rotation has been committed. */
  datatype RefreshReply = Granted(token: Token) | Denied | Throttled | Failed

  /** One call of the refresh endpoint, with the cookie the browser attached when it was sent. */
  datatype RefreshFetch = Sent(cookie: Option<Token>) | Answered(reply: RefreshReply) | Applied(granted: bool)

  datatype LogoutFetch = LogoutSent(cookie: Option<Token>) | LogoutAnswered

  /**
   `promise` is the module variable `refreshPromise`; `logins` are login responses on their
   way, carrying their cookie.
   */
  datatype Client = Client(
    cookie: Option<Token>,
    signedIn: bool,
    promise: Option<FetchId>,
    fetches: map<FetchId, RefreshFetch>,
    requests: map<RequestId, ApiRequest>,
    logins: map<RequestId, Token>,
    logouts: map<RequestId, LogoutFetch>)

  /** `mine`: every refresh token ever issued to this client. */
  datatype World = World(auth: Auth, client: Client, mine: set<Token>)

  datatype Move =
    | Send(q: RequestId, fallback: bool, exempt: bool)
    | Answer(q: RequestId, unauthorized: bool, f: FetchId)
    | StartRefresh(f: FetchId)
    | ServeRefresh(f: FetchId, drawn: Token, lifetime: Time, now: Time, limited: bool, fails: bool)
    | DeliverRefresh(f: FetchId)
    | SettlePromise(f: FetchId)
    | Resume(q: RequestId)
    | ServeLogin(q: RequestId, user: UserId, family: FamilyId, drawn: Token, lifetime: Time, now: Time)
    | DeliverLogin(q: RequestId)
    | SendLogout(q: RequestId)
    | ServeLogout(q: RequestId, now: Time)
    | DeliverLogout(q: RequestId)
    | Elsewhere(step: Step)    // any other client, device or background request

  // ---------------------------------------------------------------- moves

  /** `refreshApiAccessToken`: join the promise in the module variable, or start a fetch. */
  function JoinOrStart(c: Client, f: FetchId): Client {
    if c.promise.Some? then c
    else c.(promise := Some(f), fetches := c.fetches[f := Sent(c.cookie)])
  }

  predicate Enabled(w: World, m: Move) {
    var c := w.client;
    match m
    case Send(q, _, _) => q !in c.requests
    case Answer(q, _, f) => q in c.requests && c.requests[q].InFlight? && f !in c.fetches
    case StartRefresh(f) => f !in c.fetches
    case ServeRefresh(f, drawn, _, _, _, _) => f in c.fetches && c.fetches[f].Sent? && drawn !in w.auth.sessions
    case DeliverRefresh(f) => f in c.fetches && c.fetches[f].Answered?
    case SettlePromise(f) => f in c.fetches && c.fetches[f].Applied?
    case Resume(q) => q in c.requests && c.requests[q].Resumed?
    case ServeLogin(q, user, family, drawn, lifetime, now) =>
      q !in c.logins && AuthModel.Enabled(w.auth, Step(CreateSession(user, family, drawn, lifetime), now))
    case DeliverLogin(q) => q in c.logins
    case SendLogout(q) => q !in c.logouts
    case ServeLogout(q, _) => q in c.logouts && c.logouts[q].LogoutSent?
    case DeliverLogout(q) => q in c.logouts && c.logouts[q].LogoutAnswered?
    case Elsewhere(step) => AuthModel.Enabled(w.auth, step) && (step.request.Rotate? ==> step.request.token !in w.mine)
  }

  /**
   The refresh endpoint: the limiter, the rotation, and the limiter again before the response is
   built; `fails` when that last step raises.
   */
  function ServeFetch(w: World, f: FetchId, drawn: Token, lifetime: Time, now: Time, limited: bool, fails: bool): World
    requires f in w.client.fetches && w.client.fetches[f].Sent?
  {
    var c := w.client;
    var cookie := c.fetches[f].cookie;
    if limited then w.(client := c.(fetches := c.fetches[f := Answered(Throttled)]))
    else if cookie.None? then w.(client := c.(fetches := c.fetches[f := Answered(Denied)]))
    else
      var r := RotateSession(w.auth, cookie.value, drawn, lifetime, now);
      if r.reply.Rotated? then
        var reply := if fails then Failed else Granted(drawn);
        World(r.auth, c.(fetches := c.fetches[f := Answered(reply)]), w.mine + {drawn})
      else
        World(r.auth, c.(fetches := c.fetches[f := Answered(Denied)]), w.mine)
  }

  function Next(w: World, m: Move): World
    requires Enabled(w, m)
  {
    var c := w.client;
    match m
    case Send(q, fallback, exempt) =>
      w.(client := c.(requests := c.requests[q := InFlight(1, (c.signedIn || fallback) && !exempt)]))
    case Answer(q, unauthorized, f) =>
      var r := c.requests[q];
      if unauthorized && r.mayRefresh then
        var joined := JoinOrStart(c, f);
        w.(client := joined.(requests := c.requests[q := AwaitingRefresh(r.sends, joined.promise.value)]))
      else w.(client := c.(requests := c.requests[q := Finished(r.sends)]))
    case StartRefresh(f) => w.(client := JoinOrStart(c, f))
    case ServeRefresh(f, drawn, lifetime, now, limited, fails) => ServeFetch(w, f, drawn, lifetime, now, limited, fails)
    case DeliverRefresh(f) =>
      var reply := c.fetches[f].reply;
      var cookie := match reply case Granted(t) => Some(t) case Denied => None case _ => c.cookie;
      w.(client := c.(cookie := cookie, signedIn := reply.Granted?, fetches := c.fetches[f := Applied(reply.Granted?)]))
    case SettlePromise(f) =>
      var granted := c.fetches[f].granted;
      w.(client := c.(promise := None, fetches := c.fetches - {f},
                      requests := map q | q in c.requests ::
                        if c.requests[q].AwaitingRefresh? && c.requests[q].fetch == f
                        then Resumed(c.requests[q].sends, granted) else c.requests[q]))
    case Resume(q) =>
      var r := c.requests[q];
      var resumed := if r.granted then InFlight(r.sends + 1, false) else Finished(r.sends);
      w.(client := c.(requests := c.requests[q := resumed]))
    case ServeLogin(q, user, family, drawn, lifetime, now) =>
      World(Serve(w.auth, Step(CreateSession(user, family, drawn, lifetime), now)).auth,
            c.(logins := c.logins[q := drawn]), w.mine + {drawn})
    case DeliverLogin(q) => w.(client := c.(cookie := Some(c.logins[q]), signedIn := true, logins := c.logins - {q}))
    case SendLogout(q) => w.(client := c.(logouts := c.logouts[q := LogoutSent(c.cookie)]))
    case ServeLogout(q, now) =>
      w.(auth := Serve(w.auth, Step(Revoke(c.logouts[q].cookie), now)).auth,
          client := c.(logouts := c.logouts[q := LogoutAnswered]))
    case DeliverLogout(q) => w.(client := c.(cookie := None, signedIn := false, logouts := c.logouts - {q}))
    case Elsewhere(step) => w.(auth := Serve(w.auth, step).auth)
  }

  predicate IsRun(w: World, moves: seq<Move>)
    decreases |moves|
  {
    moves == [] || (Enabled(w, moves[0]) && IsRun(Next(w, moves[0]), moves[1..]))
  }

  function Final(w: World, moves: seq<Move>): World
    requires IsRun(w, moves)
    decreases |moves|
  {
    if moves == [] then w else Final(Next(w, moves[0]), moves[1..])
  }

  /**
   A page just loaded beside a server in any reachable state: nothing under way, and the
   browser holds no cookie or one whose session has not been replaced.
   */
  ghost predicate Start(w: World) {
    && ChainsOk(w.auth.sessions)
    && w.client == Client(w.client.cookie, false, None, map[], map[], map[], map[])
    && (w.client.cookie.None? ==> w.mine == {})
    && (w.client.cookie.Some? ==> w.mine == {w.client.cookie.value} && IsTail(w.auth.sessions, w.client.cookie.value))
  }

  predicate IsTail(sessions: map<Token, Session>, t: Token) {
    t in sessions && sessions[t].replacedBy.None?
  }

  // ---------------------------------------------------------------- the invariant

  /** The promise variable and the fetches under way agree, and every waiter has a fetch to wake it. */
  ghost predicate SingleFlight(c: Client) {
    && (forall f :: f in c.fetches ==> c.promise == Some(f))
    && (c.promise.Some? ==> c.promise.value in c.fetches)
    && (forall q :: q in c.requests && c.requests[q].AwaitingRefresh? ==> c.promise == Some(c.requests[q].fetch))
  }

  ghost predicate SendsOk(c: Client) {
    forall q :: q in c.requests ==>
      match c.requests[q]
      case InFlight(sends, mayRefresh) => sends <= 2 && (mayRefresh ==> sends <= 1)
      case AwaitingRefresh(sends, _) => sends <= 1
      case Resumed(sends, _) => sends <= 1
      case Finished(sends) => sends <= 2
  }

  /** The client's tokens were all issued to it; those it has yet to receive are unreplaced. */
  ghost predicate TokensOk(w: World) {
    var c, sessions := w.client, w.auth.sessions;
    && w.mine <= sessions.Keys
    && (c.cookie.Some? ==> c.cookie.value in w.mine)
    && (forall f :: f in c.fetches && c.fetches[f].Sent? && c.fetches[f].cookie.Some? ==>
        c.fetches[f].cookie.value in w.mine)
    && (forall f :: f in c.fetches && c.fetches[f].Answered? && c.fetches[f].reply.Granted? ==>
          c.fetches[f].reply.token in w.mine && IsTail(sessions, c.fetches[f].reply.token))
    && (forall q :: q in c.logins ==> c.logins[q] in w.mine && IsTail(sessions, c.logins[q]))
  }

  /** A login cookie on its way is not yet held anywhere else. */
  ghost predicate LoginsApart(c: Client) {
    && (forall q, r :: q in c.logins && r in c.logins && q != r ==> c.logins[q] != c.logins[r])
    && (forall q :: q in c.logins ==> c.cookie != Some(c.logins[q]))
    && (forall q, f :: q in c.logins && f in c.fetches ==>
          && (c.fetches[f].Sent? ==> c.fetches[f].cookie != Some(c.logins[q]))
          && (c.fetches[f].Answered? && c.fetches[f].reply.Granted? ==> c.fetches[f].reply.token != c.logins[q]))
  }

  ghost predicate Ok(w: World) {
    SingleFlight(w.client) && SendsOk(w.client) && TokensOk(w) && LoginsApart(w.client)
  }

  // ---------------------------------------------------------------- preservation

  /** A session's replacement pointer changes only when its own token is rotated. */
  lemma TailsStay(auth: Auth, step: Step, t: Token)
    requires AuthModel.Enabled(auth, step) && IsTail(auth.sessions, t)
    requires step.request.Rotate? ==> step.request.token != t
    ensures IsTail(Serve(auth, step).auth.sessions, t)
  {
  }

  /** The server table may grow and change as long as the client's tails stay tails. */
  ghost predicate TailsKept(w: World, w': World) {
    && w.auth.sessions.Keys <= w'.auth.sessions.Keys
    && forall t :: t in w.mine && IsTail(w.auth.sessions, t) ==> IsTail(w'.auth.sessions, t)
  }

  lemma StepKeepsTails(w: World, step: Step)
    requires AuthModel.Enabled(w.auth, step)
    requires step.request.Rotate? ==> step.request.token !in w.mine
    ensures TailsKept(w, w.(auth := Serve(w.auth, step).auth))
  {
    var w' := w.(auth := Serve(w.auth, step).auth);
    forall t | t in w.mine && IsTail(w.auth.sessions, t) ensures IsTail(w'.auth.sessions, t) {
      TailsStay(w.auth, step, t);
    }
  }

  lemma ServerStepKeepsOk(w: World, step: Step)
    requires Ok(w) && AuthModel.Enabled(w.auth, step)
    requires step.request.Rotate? ==> step.request.token !in w.mine
    ensures Ok(w.(auth := Serve(w.auth, step).auth))
  {
    StepKeepsTails(w, step);
  }

  /** The one fetch is being served: nothing is on its way yet. */
  lemma ServedFetchIsAlone(c: Client, f: FetchId)
    requires SingleFlight(c) && f in c.fetches && c.fetches[f].Sent?
    ensures c.fetches == map[f := c.fetches[f]]
  {
    assert forall g :: g in c.fetches ==> g == f;
  }

  /** The fetch is answered without a new cookie. */
  lemma AnsweredKeepsOk(w: World, f: FetchId, auth: Auth, reply: RefreshReply, mine: set<Token>)
    requires Ok(w) && f in w.client.fetches && w.client.fetches[f].Sent? && !reply.Granted?
    requires w.mine <= mine <= auth.sessions.Keys
    requires forall q :: q in w.client.logins ==> IsTail(auth.sessions, w.client.logins[q])
    ensures Ok(World(auth, w.client.(fetches := w.client.fetches[f := Answered(reply)]), mine))
  {
    ServedFetchIsAlone(w.client, f);
  }

  lemma GrantedKeepsOk(w: World, f: FetchId, auth: Auth, drawn: Token, mine: set<Token>)
    requires Ok(w) && f in w.client.fetches && w.client.fetches[f].Sent?
    requires drawn !in w.mine && drawn in mine && IsTail(auth.sessions, drawn)
    requires w.mine <= mine <= auth.sessions.Keys
    requires forall q :: q in w.client.logins ==> IsTail(auth.sessions, w.client.logins[q])
    ensures Ok(World(auth, w.client.(fetches := w.client.fetches[f := Answered(Granted(drawn))]), mine))
  {
    ServedFetchIsAlone(w.client, f);
  }

  /** A login on its way is not what the fetch presents, so the rotation leaves it a tail. */
  lemma LoginsSurviveRotation(w: World, f: FetchId, drawn: Token, lifetime: Time, now: Time, q: RequestId)
    requires Ok(w) && f in w.client.fetches && w.client.fetches[f].Sent? && w.client.fetches[f].cookie.Some?
    requires drawn !in w.auth.sessions && q in w.client.logins
    ensures IsTail(RotateSession(w.auth, w.client.fetches[f].cookie.value, drawn, lifetime, now).auth.sessions,
        w.client.logins[q])
  {
    assert w.client.fetches[f].cookie != Some(w.client.logins[q]);
    TailsStay(w.auth, Step(Rotate(w.client.fetches[f].cookie.value, drawn, lifetime), now), w.client.logins[q]);
  }

  lemma RotationKeepsRows(auth: Auth, token: Token, drawn: Token, lifetime: Time, now: Time)
    ensures var r := RotateSession(auth, token, drawn, lifetime, now);
      && auth.sessions.Keys <= r.auth.sessions.Keys
      && (r.reply.Rotated? ==> drawn in r.auth.sessions)
      && (r.reply.Rotated? && token != drawn ==> IsTail(r.auth.sessions, drawn))
  {
  }

  lemma ServeRefreshKeepsOk(w: World, f: FetchId, drawn: Token, lifetime: Time, now: Time, limited: bool, fails: bool)
    requires Ok(w) && Enabled(w, ServeRefresh(f, drawn, lifetime, now, limited, fails))
    ensures Ok(ServeFetch(w, f, drawn, lifetime, now, limited, fails))
  {
    var cookie := w.client.fetches[f].cookie;
    if limited || cookie.None? {
      AnsweredKeepsOk(w, f, w.auth, if limited then Throttled else Denied, w.mine);
    } else {
      var r := RotateSession(w.auth, cookie.value, drawn, lifetime, now);
      forall q | q in w.client.logins ensures IsTail(r.auth.sessions, w.client.logins[q]) {
        LoginsSurviveRotation(w, f, drawn, lifetime, now, q);
      }
      RotationKeepsRows(w.auth, cookie.value, drawn, lifetime, now);
      if !r.reply.Rotated? {
        AnsweredKeepsOk(w, f, r.auth, Denied, w.mine);
      } else if fails {
        AnsweredKeepsOk(w, f, r.auth, Failed, w.mine + {drawn});
      } else {
        GrantedKeepsOk(w, f, r.auth, drawn, w.mine + {drawn});
      }
    }
  }

  lemma ServeLoginKeepsOk(w: World, q: RequestId, auth: Auth, drawn: Token)
    requires Ok(w) && q !in w.client.logins && drawn !in w.auth.sessions && IsTail(auth.sessions, drawn)
    requires TailsKept(w, w.(auth := auth))
    ensures Ok(World(auth, w.client.(logins := w.client.logins[q := drawn]), w.mine + {drawn}))
  {
    assert drawn !in w.mine;
  }

  lemma JoinOrStartKeepsOk(w: World, f: FetchId)
    requires Ok(w) && f !in w.client.fetches
    ensures Ok(w.(client := JoinOrStart(w.client, f)))
    ensures JoinOrStart(w.client, f).promise.Some?
  {
    if w.client.promise.None? {
      assert w.client.fetches == map[];
    }
  }

  /** Moves that touch only one request, within its budget of sends. */
  lemma RequestMoveKeepsOk(w: World, q: RequestId, r: ApiRequest)
    requires Ok(w)
    requires SendsOk(w.client.(requests := map[q := r]))
    requires r.AwaitingRefresh? ==> w.client.promise == Some(r.fetch)
    ensures Ok(w.(client := w.client.(requests := w.client.requests[q := r])))
  {
    var c' := w.client.(requests := w.client.requests[q := r]);
    assert map[q := r][q] == r;
    assert SendsOk(c');
    assert TokensOk(w.(client := c'));
    assert LoginsApart(c');
  }

  lemma DeliveriesKeepOk(w: World, m: Move)
    requires Ok(w) && Enabled(w, m)
    requires m.DeliverRefresh? || m.SettlePromise?
    ensures Ok(Next(w, m))
  {
    assert forall g :: g in w.client.fetches ==> g == m.f;
  }

  lemma CookieMoveKeepsOk(w: World, m: Move)
    requires Ok(w) && Enabled(w, m)
    requires m.DeliverLogin? || m.DeliverLogout? || m.SendLogout?
    ensures Ok(Next(w, m))
  {
  }

  lemma ServeLogoutKeepsOk(w: World, q: RequestId, now: Time)
    requires Ok(w) && Enabled(w, ServeLogout(q, now))
    ensures Ok(Next(w, ServeLogout(q, now)))
  {
    var step := Step(Revoke(w.client.logouts[q].cookie), now);
    ServerStepKeepsOk(w, step);
  }

  lemma MoveKeepsOk(w: World, m: Move)
    requires Ok(w) && Enabled(w, m)
    ensures Ok(Next(w, m))
  {
    var c := w.client;
    match m
    case Send(q, fallback, exempt) => RequestMoveKeepsOk(w, q, InFlight(1, (c.signedIn || fallback) && !exempt));
    case Answer(q, unauthorized, f) => AnswerKeepsOk(w, q, unauthorized, f);
    case StartRefresh(f) => JoinOrStartKeepsOk(w, f);
    case ServeRefresh(f, drawn, lifetime, now, limited, fails) =>
      ServeRefreshKeepsOk(w, f, drawn, lifetime, now, limited, fails);
    case DeliverRefresh(_) => DeliveriesKeepOk(w, m);
    case SettlePromise(_) => DeliveriesKeepOk(w, m);
    case Resume(q) =>
      var r := c.requests[q];
      RequestMoveKeepsOk(w, q, if r.granted then InFlight(r.sends + 1, false) else Finished(r.sends));
    case ServeLogin(q, user, family, drawn, lifetime, now) =>
      var step := Step(CreateSession(user, family, drawn, lifetime), now);
      StepKeepsTails(w, step);
      ServeLoginKeepsOk(w, q, Serve(w.auth, step).auth, drawn);
    case ServeLogout(q, now) => ServeLogoutKeepsOk(w, q, now);
    case Elsewhere(step) => ServerStepKeepsOk(w, step);
    case DeliverLogin(_) => CookieMoveKeepsOk(w, m);
    case SendLogout(_) => CookieMoveKeepsOk(w, m);
    case DeliverLogout(_) => CookieMoveKeepsOk(w, m);
  }

  lemma AnswerKeepsOk(w: World, q: RequestId, unauthorized: bool, f: FetchId)
    requires Ok(w) && Enabled(w, Answer(q, unauthorized, f))
    ensures Ok(Next(w, Answer(q, unauthorized, f)))
  {
    var r := w.client.requests[q];
    if unauthorized && r.mayRefresh {
      JoinOrStartKeepsOk(w, f);
      var joined := JoinOrStart(w.client, f);
      RequestMoveKeepsOk(w.(client := joined), q, AwaitingRefresh(r.sends, joined.promise.value));
    } else {
      RequestMoveKeepsOk(w, q, Finished(r.sends));
    }
  }

  /** Each move is at most one server step, so the families stay chains. */
  lemma MoveKeepsChains(w: World, m: Move)
    requires ChainsOk(w.auth.sessions) && Enabled(w, m)
    ensures ChainsOk(Next(w, m).auth.sessions)
  {
    match m
    case ServeRefresh(f, drawn, lifetime, now, _, _) =>
      if w.client.fetches[f].cookie.Some? {
        StepKeepsChains(w.auth, Step(Rotate(w.client.fetches[f].cookie.value, drawn, lifetime), now));
      }
    case ServeLogin(q, user, family, drawn, lifetime, now) =>
      StepKeepsChains(w.auth, Step(CreateSession(user, family, drawn, lifetime), now));
    case ServeLogout(q, now) => StepKeepsChains(w.auth, Step(Revoke(w.client.logouts[q].cookie), now));
    case Elsewhere(step) => StepKeepsChains(w.auth, step);
    case _ =>
  }

  lemma {:induction false} RunKeepsOk(w: World, moves: seq<Move>)
    requires Ok(w) && IsRun(w, moves)
    ensures Ok(Final(w, moves))
    ensures ChainsOk(w.auth.sessions) ==> ChainsOk(Final(w, moves).auth.sessions)
    decreases |moves|
  {
    if moves != [] {
      MoveKeepsOk(w, moves[0]);
      if ChainsOk(w.auth.sessions) {
        MoveKeepsChains(w, moves[0]);
      }
      RunKeepsOk(Next(w, moves[0]), moves[1..]);
    }
  }

  // ---------------------------------------------------------------- the cookie is current

  /** An answer that will take the present cookie's place when it is delivered. */
  ghost predicate ReplacementOnItsWay(fetches: map<FetchId, RefreshFetch>) {
    exists f :: f in fetches && fetches[f].Answered? && (fetches[f].reply.Granted? || fetches[f].reply.Denied?)
  }

  /** No refresh under way presents a replaced token. */
  ghost predicate NoReplay(w: World) {
    forall f :: f in w.client.fetches && w.client.fetches[f].Sent? && w.client.fetches[f].cookie.Some? ==>
      IsTail(w.auth.sessions, w.client.fetches[f].cookie.value)
  }

  /** Nor will the next one: the cookie is unreplaced, or about to give way. */
  ghost predicate Current(w: World) {
    && NoReplay(w)
    && (w.client.cookie.Some? ==>
        ReplacementOnItsWay(w.client.fetches) || IsTail(w.auth.sessions, w.client.cookie.value))
  }

  /**
   The refresh fails between the commit of its rotation and its response, while the browser still
   holds the token it presented.
   */
  predicate Loses(w: World, m: Move)
    requires Enabled(w, m)
  {
    && m.ServeRefresh? && m.fails && !m.limited
    && w.client.fetches[m.f].cookie.Some? && w.client.fetches[m.f].cookie == w.client.cookie
    && RotateSession(w.auth, w.client.cookie.value, m.drawn, m.lifetime, m.now).reply.Rotated?
  }

  /** While the one fetch is unanswered no answer is on its way. */
  lemma NothingOnItsWay(c: Client, f: FetchId)
    requires SingleFlight(c) && f in c.fetches
    requires c.fetches[f].Answered? ==> !c.fetches[f].reply.Granted? && !c.fetches[f].reply.Denied?
    ensures !ReplacementOnItsWay(c.fetches)
  {
    assert forall g :: g in c.fetches ==> g == f;
  }

  lemma ServeRefreshCurrentIff(w: World, m: Move)
    requires Ok(w) && Current(w) && Enabled(w, m) && m.ServeRefresh?
    ensures Current(Next(w, m)) <==> !Loses(w, m)
  {
    var f := m.f;
    var cookie := w.client.fetches[f].cookie;
    var w' := Next(w, m);
    NothingOnItsWay(w.client, f);
    assert f in w'.client.fetches && w'.client.fetches[f].Answered?;
    assert forall g :: g in w'.client.fetches ==> g == f;
    if !m.limited && cookie.Some? {
      RotatedIff(w.auth, cookie.value, m.drawn, m.lifetime, m.now);
      if w.client.cookie.Some? && w.client.cookie != cookie {
        TailsStay(w.auth, Step(Rotate(cookie.value, m.drawn, m.lifetime), m.now), w.client.cookie.value);
      }
    }
  }

  /** A rotation is what replaces a session, and nothing else does. */
  lemma RotatedIff(auth: Auth, t: Token, drawn: Token, lifetime: Time, now: Time)
    requires IsTail(auth.sessions, t) && drawn !in auth.sessions
    ensures var r := RotateSession(auth, t, drawn, lifetime, now);
      IsTail(r.auth.sessions, t) <==> !r.reply.Rotated?
  {
  }

  lemma ServerStepKeepsCurrent(w: World, auth: Auth)
    requires Ok(w) && Current(w) && TailsKept(w, w.(auth := auth))
    ensures Current(w.(auth := auth))
  {
  }

  lemma ClientMoveKeepsCurrent(w: World, m: Move)
    requires Ok(w) && Current(w) && Enabled(w, m)
    requires m.Send? || m.Answer? || m.StartRefresh? || m.Resume?
    ensures Current(Next(w, m))
  {
    if w.client.promise.None? {
      assert w.client.fetches == map[];
      assert !ReplacementOnItsWay(w.client.fetches);
    }
  }

  lemma DeliveryKeepsCurrent(w: World, m: Move)
    requires Ok(w) && Current(w) && Enabled(w, m)
    requires m.DeliverRefresh? || m.SettlePromise? || m.DeliverLogin? || m.DeliverLogout? || m.SendLogout?
    ensures Current(Next(w, m))
  {
    if m.DeliverRefresh? || m.SettlePromise? {
      assert forall g :: g in w.client.fetches ==> g == m.f;
      assert forall g :: g in Next(w, m).client.fetches ==> g == m.f;
      if w.client.fetches[m.f].Answered? && !w.client.fetches[m.f].reply.Granted? &&
          !w.client.fetches[m.f].reply.Denied? {
        NothingOnItsWay(w.client, m.f);
      }
    }
  }

  /** From a state with a current cookie exactly the lost refreshes lead to one without. */
  lemma MoveCurrentIff(w: World, m: Move)
    requires Ok(w) && Current(w) && Enabled(w, m)
    ensures Current(Next(w, m)) <==> !Loses(w, m)
  {
    match m
    case ServeRefresh(_, _, _, _, _, _) => ServeRefreshCurrentIff(w, m);
    case ServeLogin(_, user, family, drawn, lifetime, now) =>
      var step := Step(CreateSession(user, family, drawn, lifetime), now);
      StepKeepsTails(w, step);
      ServerStepKeepsCurrent(w, Serve(w.auth, step).auth);
    case ServeLogout(q, now) =>
      var step := Step(Revoke(w.client.logouts[q].cookie), now);
      StepKeepsTails(w, step);
      ServerStepKeepsCurrent(w, Serve(w.auth, step).auth);
    case Elsewhere(step) =>
      StepKeepsTails(w, step);
      ServerStepKeepsCurrent(w, Serve(w.auth, step).auth);
    case Send(_, _, _) => ClientMoveKeepsCurrent(w, m);
    case Answer(_, _, _) => ClientMoveKeepsCurrent(w, m);
    case StartRefresh(_) => ClientMoveKeepsCurrent(w, m);
    case Resume(_) => ClientMoveKeepsCurrent(w, m);
    case _ => DeliveryKeepsCurrent(w, m);
  }

  /** A run in which no refresh is lost. */
  predicate Lossless(w: World, moves: seq<Move>)
    decreases |moves|
  {
    moves == [] || (Enabled(w, moves[0]) && !Loses(w, moves[0]) && Lossless(Next(w, moves[0]), moves[1..]))
  }

  lemma {:induction false} LosslessIsRun(w: World, moves: seq<Move>)
    requires Lossless(w, moves)
    ensures IsRun(w, moves)
    decreases |moves|
  {
    if moves != [] {
      LosslessIsRun(Next(w, moves[0]), moves[1..]);
    }
  }

  /** `Final` for a run known to be lossless. */
  function LosslessFinal(w: World, moves: seq<Move>): World
    requires Lossless(w, moves)
  {
    LosslessIsRun(w, moves);
    Final(w, moves)
  }

  lemma {:induction false} LosslessKeepsCurrent(w: World, moves: seq<Move>)
    requires Ok(w) && Current(w) && Lossless(w, moves)
    ensures Current(LosslessFinal(w, moves))
    decreases |moves|
  {
    if moves != [] {
      MoveCurrentIff(w, moves[0]);
      MoveKeepsOk(w, moves[0]);
      LosslessKeepsCurrent(Next(w, moves[0]), moves[1..]);
    }
  }

  // ---------------------------------------------------------------- a stale cookie is presented

  lemma {:induction false} UnusedToken(sessions: set<Token>) returns (t: Token)
    ensures t !in sessions && forall u :: u in sessions ==> u < t
    decreases |sessions|
  {
    if sessions == {} {
      t := 0;
    } else {
      var u :| u in sessions;
      var t' := UnusedToken(sessions - {u});
      t := if t' <= u then u + 1 else t';
      assert forall v :: v in sessions ==> v == u || v in sessions - {u};
    }
  }

  lemma LosslessPrepend(w: World, m: Move, rest: seq<Move>)
    requires Enabled(w, m) && !Loses(w, m) && Lossless(Next(w, m), rest)
    ensures Lossless(w, [m] + rest) && LosslessFinal(w, [m] + rest) == LosslessFinal(Next(w, m), rest)
  {
    assert ([m] + rest)[1..] == rest;
  }

  ghost predicate Stale(w: World) {
    && w.client.cookie.Some? && !IsTail(w.auth.sessions, w.client.cookie.value)
    && !ReplacementOnItsWay(w.client.fetches)
  }

  /** The next refresh presents the stale cookie. */
  lemma StartPresents(w: World) returns (moves: seq<Move>)
    requires Ok(w) && Stale(w) && w.client.promise.None?
    ensures Lossless(w, moves) && !NoReplay(LosslessFinal(w, moves))
  {
    assert w.client.fetches == map[];
    var m := StartRefresh(0);
    var w' := Next(w, m);
    assert w'.client.fetches[0] == Sent(w.client.cookie);
    LosslessPrepend(w, m, []);
    moves := [m] + [];
  }

  lemma SettlePresents(w: World, f: FetchId) returns (moves: seq<Move>)
    requires Ok(w) && Stale(w) && f in w.client.fetches && w.client.fetches[f].Applied?
    ensures Lossless(w, moves) && !NoReplay(LosslessFinal(w, moves))
  {
    var m := SettlePromise(f);
    MoveKeepsOk(w, m);
    assert Next(w, m).client.fetches == map[] by {
      assert forall g :: g in w.client.fetches ==> g == f;
    }
    assert !ReplacementOnItsWay(Next(w, m).client.fetches);
    var rest := StartPresents(Next(w, m));
    LosslessPrepend(w, m, rest);
    moves := [m] + rest;
  }

  lemma DeliverPresents(w: World, f: FetchId) returns (moves: seq<Move>)
    requires Ok(w) && Stale(w) && f in w.client.fetches && w.client.fetches[f].Answered?
    ensures Lossless(w, moves) && !NoReplay(LosslessFinal(w, moves))
  {
    var m := DeliverRefresh(f);
    MoveKeepsOk(w, m);
    var w' := Next(w, m);
    assert forall g :: g in w'.client.fetches ==> g == f;
    assert !ReplacementOnItsWay(w'.client.fetches);
    var rest := SettlePresents(w', f);
    LosslessPrepend(w, m, rest);
    moves := [m] + rest;
  }

  lemma ServePresents(w: World, f: FetchId) returns (moves: seq<Move>)
    requires Ok(w) && Stale(w) && f in w.client.fetches && w.client.fetches[f].Sent?
    ensures Lossless(w, moves) && !NoReplay(LosslessFinal(w, moves))
  {
    var drawn := UnusedToken(w.auth.sessions.Keys);
    var m := ServeRefresh(f, drawn, 0, 0, true, false);
    MoveKeepsOk(w, m);
    var w' := Next(w, m);
    NothingOnItsWay(w'.client, f);
    var rest := DeliverPresents(w', f);
    LosslessPrepend(w, m, rest);
    moves := [m] + rest;
  }

  lemma StalePresents(w: World) returns (moves: seq<Move>)
    requires Ok(w) && !Current(w)
    ensures Lossless(w, moves) && !NoReplay(LosslessFinal(w, moves))
  {
    if !NoReplay(w) {
      moves := [];
    } else if w.client.promise.None? {
      moves := StartPresents(w);
    } else {
      var f := w.client.promise.value;
      if w.client.fetches[f].Sent? {
        moves := ServePresents(w, f);
      } else if w.client.fetches[f].Answered? {
        moves := DeliverPresents(w, f);
      } else {
        moves := SettlePresents(w, f);
      }
    }
  }

  // ---------------------------------------------------------------- main results

  /**
   In every reachable world at most one refresh is under way, every request waiting for one is
   waiting for exactly that one, and no request has been sent more than twice.
   */
  lemma AtMostOneRefresh(w: World, moves: seq<Move>, f: FetchId, g: FetchId, q: RequestId)
    requires Start(w) && IsRun(w, moves)
    ensures var c := Final(w, moves).client;
            && (f in c.fetches && g in c.fetches ==> f == g)
            && (q in c.requests && c.requests[q].AwaitingRefresh? ==> c.requests[q].fetch in c.fetches)
            && (q in c.requests ==> c.requests[q].sends <= 2)
  {
    RunKeepsOk(w, moves);
  }

  /**
   In every reachable world: the client never again presents a replaced token, as long as no
   further refresh is lost, if and only if its cookie is current.
   */
  lemma NeverReplaysIff(w: World, moves: seq<Move>)
    requires Start(w) && IsRun(w, moves)
    ensures var now := Final(w, moves);
            (forall later :: Lossless(now, later) ==> NoReplay(LosslessFinal(now, later))) <==> Current(now)
  {
    RunKeepsOk(w, moves);
    var now := Final(w, moves);
    if Current(now) {
      forall later | Lossless(now, later) ensures NoReplay(LosslessFinal(now, later)) {
        LosslessKeepsCurrent(now, later);
      }
    } else {
      var later := StalePresents(now);
    }
  }

  /**
   The client never replays if and only if no refresh is lost: after a lossless run, the one kind
   of move that lets it present a replaced token later is a refresh that fails after its rotation.
   */
  lemma ReplaysIffLost(w: World, moves: seq<Move>, m: Move)
    requires Start(w) && Lossless(w, moves) && Enabled(LosslessFinal(w, moves), m)
    ensures var next := Next(LosslessFinal(w, moves), m);
            (exists later :: Lossless(next, later) && !NoReplay(LosslessFinal(next, later)))
            <==> Loses(LosslessFinal(w, moves), m)
  {
    LosslessIsRun(w, moves);
    RunKeepsOk(w, moves);
    LosslessKeepsCurrent(w, moves);
    var before := LosslessFinal(w, moves);
    MoveCurrentIff(before, m);
    MoveKeepsOk(before, m);
    var next := Next(before, m);
    if Current(next) {
      forall later | Lossless(next, later) ensures NoReplay(LosslessFinal(next, later)) {
        LosslessKeepsCurrent(next, later);
      }
    } else {
      var later := StalePresents(next);
    }
  }

  /**
   While no refresh is lost every refresh presents the tail of its family, so serving it never
   takes the branch that revokes a family: a refusal changes no session but the presented one.
   */
  lemma ClientNeverReplays(w: World, moves: seq<Move>, f: FetchId, drawn: Token, lifetime: Time, now: Time)
    requires Start(w) && Lossless(w, moves)
    requires var c := LosslessFinal(w, moves).client; f in c.fetches && c.fetches[f].Sent? && c.fetches[f].cookie.Some?
    ensures var auth := LosslessFinal(w, moves).auth;
            var t := LosslessFinal(w, moves).client.fetches[f].cookie.value;
            var r := RotateSession(auth, t, drawn, lifetime, now);
            && IsTail(auth.sessions, t)
            && (r.reply == ReuseDetected ==> r.auth == auth && Dead(auth.sessions, auth.sessions[t].family))
            && (forall u :: u in auth.sessions && u != t && u != drawn ==>
                u in r.auth.sessions && r.auth.sessions[u] == auth.sessions[u])
  {
    LosslessIsRun(w, moves);
    RunKeepsOk(w, moves);
    LosslessKeepsCurrent(w, moves);
    var auth := LosslessFinal(w, moves).auth;
    var t := LosslessFinal(w, moves).client.fetches[f].cookie.value;
    TailRotation(auth, t, drawn, lifetime, now);
    if RotateSession(auth, t, drawn, lifetime, now).reply == ReuseDetected {
      RevokedTailIsDead(auth.sessions, t);
    }
  }

  /** And a replay ends its family: it is refused as a reuse, and no session of the family is active after it. */
  lemma ReplayEndsFamily(w: World, moves: seq<Move>, f: FetchId, drawn: Token, lifetime: Time, now: Time)
    requires Start(w) && IsRun(w, moves)
    requires var c := Final(w, moves).client; f in c.fetches && c.fetches[f].Sent? && c.fetches[f].cookie.Some?
    requires !IsTail(Final(w, moves).auth.sessions, Final(w, moves).client.fetches[f].cookie.value)
    ensures var auth := Final(w, moves).auth;
            var t := Final(w, moves).client.fetches[f].cookie.value;
            var r := RotateSession(auth, t, drawn, lifetime, now);
            && r.reply == ReuseDetected && t in auth.sessions && Dead(r.auth.sessions, auth.sessions[t].family)
  {
    RunKeepsOk(w, moves);
    var auth := Final(w, moves).auth;
    var t := Final(w, moves).client.fetches[f].cookie.value;
    ReplacedIsRevoked(auth.sessions, t);
    ReuseKillsFamily(auth, t, drawn, lifetime, now);
  }

  lemma ReplacedIsRevoked(sessions: map<Token, Session>, t: Token)
    requires ChainsOk(sessions) && t in sessions && sessions[t].replacedBy.Some?
    ensures sessions[t].revoked.Some?
  {
    assert HasChain(sessions, sessions[t].family);
    var chain :| IsChain(sessions, sessions[t].family, chain);
    var k :| 0 <= k < |chain| && chain[k] == t;
    assert k < |chain| - 1 ==> Replaced(sessions, chain, k);
  }

  /** Rotating a tail, accepted or not, touches no other session. */
  lemma TailRotation(auth: Auth, t: Token, drawn: Token, lifetime: Time, now: Time)
    requires IsTail(auth.sessions, t)
    ensures var r := RotateSession(auth, t, drawn, lifetime, now);
            && (r.reply == ReuseDetected ==> r.auth == auth && auth.sessions[t].revoked.Some?)
            && (forall u :: u in auth.sessions && u != t && u != drawn ==>
                u in r.auth.sessions && r.auth.sessions[u] == auth.sessions[u])
  {
  }
}
