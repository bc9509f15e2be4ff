/**
 What the session and token transactions do, written out on the rows: when a rotation, a token and
 an endpoint succeed, what each refusal is for, and which rows change.
 */
module AuthEffects {
  import opened Wrappers
  import opened AuthModel

  /** Every row but `t`'s is as it was. */
  ghost predicate OnlyRow(before: map<Token, Session>, after: map<Token, Session>, t: Token) {
    after.Keys == before.Keys && forall u :: u in before && u != t ==> after[u] == before[u]
  }

  /** The rows picked out are revoked at `now` if they were not; all else is as it was. */
  ghost predicate RevokesWhere(before: map<Token, Session>, after: map<Token, Session>, picked: set<Token>, now: Time) {
    && after.Keys == before.Keys
    && forall t :: t in before ==>
         after[t] == (if t in picked && before[t].revoked.None? then before[t].(revoked := Some(now)) else before[t])
  }

  function InFamily(sessions: map<Token, Session>, family: FamilyId): set<Token> {
    set t | t in sessions && sessions[t].family == family
  }

  function OfUser(sessions: map<Token, Session>, user: UserId): set<Token> {
    set t | t in sessions && sessions[t].user == user
  }

  // ---------------------------------------------------------------- rotation

  /** A rotation succeeds exactly for a known session, not revoked, not expired, of an active user. */
  lemma RotatesIff(auth: Auth, token: Token, drawn: Token, lifetime: Time, now: Time)
    ensures RotateSession(auth, token, drawn, lifetime, now).reply.Rotated? <==>
              && token in auth.sessions
              && auth.sessions[token].revoked.None?
              && auth.sessions[token].expires > now
              && auth.sessions[token].user in auth.users
              && auth.users[auth.sessions[token].user].active
  {
  }

  /** Each refusal has its own reason, the first that applies. */
  lemma RefusesIff(auth: Auth, token: Token, drawn: Token, lifetime: Time, now: Time)
    ensures var reply := RotateSession(auth, token, drawn, lifetime, now).reply;
            && (reply == UnknownSession <==> token !in auth.sessions)
            && (reply == ReuseDetected <==> token in auth.sessions && auth.sessions[token].revoked.Some?)
            && (reply == SessionExpired <==>
                  token in auth.sessions && auth.sessions[token].revoked.None? && auth.sessions[token].expires <= now)
            && (reply == UserInactive <==>
                  && token in auth.sessions && auth.sessions[token].revoked.None? && auth.sessions[token].expires > now
                  && !(auth.sessions[token].user in auth.users && auth.users[auth.sessions[token].user].active))
  {
  }

  /** The replacement takes over user and family for a new lifetime; the presented session points to it. */
  lemma RotationEffect(auth: Auth, token: Token, drawn: Token, lifetime: Time, now: Time)
    requires RotateSession(auth, token, drawn, lifetime, now).reply.Rotated? && drawn !in auth.sessions
    ensures var r := RotateSession(auth, token, drawn, lifetime, now);
            var before, after := auth.sessions, r.auth.sessions;
            && r.reply == Rotated(drawn, before[token].user)
            && r.auth.users == auth.users && r.auth.tokens == auth.tokens
            && after.Keys == before.Keys + {drawn}
            && after[drawn].user == before[token].user && after[drawn].family == before[token].family
            && after[drawn].expires == now + lifetime
            && after[drawn].revoked.None? && after[drawn].replacedBy.None?
            && after[token] == before[token].(revoked := Some(now), replacedBy := Some(drawn))
            && forall t :: t in before && t != token ==> after[t] == before[t]
  {
  }

  /**
   A refusal draws no session.  Expiry and inactivity revoke that one row, a reuse of a replaced
   session its whole family, and any other refusal changes nothing.
   */
  lemma RefusalEffect(auth: Auth, token: Token, drawn: Token, lifetime: Time, now: Time)
    requires !RotateSession(auth, token, drawn, lifetime, now).reply.Rotated?
    ensures var r := RotateSession(auth, token, drawn, lifetime, now);
            var before, after := auth.sessions, r.auth.sessions;
            && r.auth.users == auth.users && r.auth.tokens == auth.tokens
            && (r.reply == SessionExpired || r.reply == UserInactive ==>
                  OnlyRow(before, after, token) && after[token] == before[token].(revoked := Some(now)))
            && (r.reply == ReuseDetected && before[token].replacedBy.Some? ==>
                  RevokesWhere(before, after, InFamily(before, before[token].family), now))
            && (r.reply == ReuseDetected && before[token].replacedBy.None? ==> after == before)
            && (r.reply == UnknownSession ==> after == before)
  {
  }

  // ---------------------------------------------------------------- revocation

  /** A logout ends the active sessions of the presented session's family, and no others. */
  lemma LogoutEffect(auth: Auth, cookie: Option<Token>, now: Time)
    ensures var r := Serve(auth, Step(Revoke(cookie), now));
            && r.auth.users == auth.users && r.auth.tokens == auth.tokens
            && (cookie.Some? && cookie.value in auth.sessions ==>
                  var family := InFamily(auth.sessions, auth.sessions[cookie.value].family);
                  RevokesWhere(auth.sessions, r.auth.sessions, family, now))
            && (cookie.None? || cookie.value !in auth.sessions ==> r.auth == auth)
  {
  }

  lemma RevokeAllEffect(auth: Auth, user: UserId, now: Time)
    ensures var r := Serve(auth, Step(RevokeAll(user), now));
            && r.auth.users == auth.users && r.auth.tokens == auth.tokens
            && RevokesWhere(auth.sessions, r.auth.sessions, OfUser(auth.sessions, user), now)
  {
  }

  // ---------------------------------------------------------------- account tokens

  /** A token is valid exactly if it is known for that purpose, not consumed, not expired, and of an active user. */
  lemma ValidIff(auth: Auth, token: Token, purpose: Purpose, now: Time)
    ensures ValidToken(auth, token, purpose, now) <==>
              && token in auth.tokens
              && auth.tokens[token].purpose == purpose
              && auth.tokens[token].consumed.None?
              && auth.tokens[token].expires > now
              && auth.tokens[token].user in auth.users
              && auth.users[auth.tokens[token].user].active
  {
  }

  /** The user's outstanding tokens for the purpose are consumed at `now`; all else is as it was. */
  ghost predicate Consumes(before: map<Token, AccountToken>, after: map<Token, AccountToken>, user: UserId,
          purpose: Purpose, now: Time)
  {
    && before.Keys <= after.Keys
    && forall t :: t in before ==>
         after[t] == (if before[t].user == user && before[t].purpose == purpose && before[t].consumed.None?
                      then before[t].(consumed := Some(now)) else before[t])
  }

  /** Issuing consumes what is outstanding and adds the one new token. */
  lemma IssueEffect(auth: Auth, user: UserId, purpose: Purpose, drawn: Token, lifetime: Time, now: Time)
    requires Enabled(auth, Step(IssueToken(user, purpose, drawn, lifetime), now))
    ensures var r := Serve(auth, Step(IssueToken(user, purpose, drawn, lifetime), now));
            && r.auth.users == auth.users && r.auth.sessions == auth.sessions
            && Consumes(auth.tokens, r.auth.tokens, user, purpose, now)
            && r.auth.tokens.Keys == auth.tokens.Keys + {drawn}
            && r.auth.tokens[drawn].user == user && r.auth.tokens[drawn].purpose == purpose
            && r.auth.tokens[drawn].expires == now + lifetime && r.auth.tokens[drawn].consumed.None?
  {
  }

  // ---------------------------------------------------------------- the confirm endpoints

  /** Both endpoints succeed exactly on a valid token for their purpose, and otherwise change nothing. */
  lemma ConfirmsIff(auth: Auth, token: Token, newHash: string, now: Time)
    ensures ResetPasswordWith(auth, token, newHash, now).reply == Done <==> ValidToken(auth, token, ResetPassword, now)
    ensures !ValidToken(auth, token, ResetPassword, now) ==>
              ResetPasswordWith(auth, token, newHash, now) == Outcome(auth, InvalidToken)
    ensures VerifyEmailWith(auth, token, now).reply == Done <==> ValidToken(auth, token, VerifyEmail, now)
    ensures !ValidToken(auth, token, VerifyEmail, now) ==>
              VerifyEmailWith(auth, token, now) == Outcome(auth, InvalidToken)
  {
  }

  /** A verification dates the address at `now`, spends the user's verification tokens and leaves all else. */
  lemma VerificationEffect(auth: Auth, token: Token, now: Time)
    requires ValidToken(auth, token, VerifyEmail, now)
    ensures var after := VerifyEmailWith(auth, token, now).auth;
            var u := auth.tokens[token].user;
            && after.users.Keys == auth.users.Keys && u in auth.users
            && after.users[u] == User(auth.users[u].active, auth.users[u].passwordHash, Some(now))
            && (forall v :: v in auth.users && v != u ==> after.users[v] == auth.users[v])
            && after.sessions == auth.sessions
            && after.tokens.Keys == auth.tokens.Keys && Consumes(auth.tokens, after.tokens, u, VerifyEmail, now)
  {
  }

  /** A reset sets the password, keeps an earlier verification date, and ends the user's sessions at `now`. */
  lemma ResetWrites(auth: Auth, token: Token, newHash: string, now: Time)
    requires ValidToken(auth, token, ResetPassword, now)
    ensures var after := ResetPasswordWith(auth, token, newHash, now).auth;
            var u := auth.tokens[token].user;
            && after.users.Keys == auth.users.Keys && u in auth.users
            && after.users[u].active && after.users[u].passwordHash == newHash
            && (auth.users[u].verifiedAt.Some? ==> after.users[u].verifiedAt == auth.users[u].verifiedAt)
            && (auth.users[u].verifiedAt.None? ==> after.users[u].verifiedAt == Some(now))
            && (forall v :: v in auth.users && v != u ==> after.users[v] == auth.users[v])
            && RevokesWhere(auth.sessions, after.sessions, OfUser(auth.sessions, u), now)
            && after.tokens.Keys == auth.tokens.Keys && Consumes(auth.tokens, after.tokens, u, ResetPassword, now)
  {
  }

  // ---------------------------------------------------------------- a session's whole life

  /**
   The request ends session `t` if it is active: it presents it, it presents a replaced session of
   its family, it logs its family out, it revokes its user, or it resets its user's password.
   */
  predicate Ends(auth: Auth, step: Step, t: Token)
    requires t in auth.sessions
  {
    match step.request
    case Rotate(p, _, _) =>
      && p in auth.sessions
      && (auth.sessions[p].revoked.None? ==> p == t)
      && (auth.sessions[p].revoked.Some? ==>
            auth.sessions[p].replacedBy.Some? && auth.sessions[p].family == auth.sessions[t].family)
    case Revoke(cookie) =>
      cookie.Some? && cookie.value in auth.sessions && auth.sessions[cookie.value].family == auth.sessions[t].family
    case RevokeAll(user) => user == auth.sessions[t].user
    case ConfirmReset(token, _) =>
      ValidToken(auth, token, ResetPassword, step.now) && auth.tokens[token].user == auth.sessions[t].user
    case _ => false
  }

  lemma SessionStep(auth: Auth, step: Step, t: Token)
    requires Enabled(auth, step) && t in auth.sessions
    ensures t in Serve(auth, step).auth.sessions
    ensures var row, row' := auth.sessions[t], Serve(auth, step).auth.sessions[t];
            && row'.user == row.user && row'.family == row.family && row'.expires == row.expires
            && (row'.revoked.None? <==> row.revoked.None? && !Ends(auth, step, t))
  {
  }

  /** Some step of the run ends the session. */
  predicate EverEnds(auth: Auth, steps: seq<Step>, t: Token)
    requires IsRun(auth, steps) && t in auth.sessions
    decreases |steps|
  {
    steps != [] &&
    (var last := |steps| - 1;
     EverEnds(auth, steps[..last], t)
     || (t in Final(auth, steps[..last]).sessions && Ends(Final(auth, steps[..last]), steps[last], t)))
  }

  /** A session keeps its user, family and expiry, and is active until the first step that ends it. */
  lemma {:induction false} SessionHistory(auth: Auth, steps: seq<Step>, t: Token)
    requires IsRun(auth, steps) && t in auth.sessions
    ensures t in Final(auth, steps).sessions
    ensures var row, row' := auth.sessions[t], Final(auth, steps).sessions[t];
            && row'.user == row.user && row'.family == row.family && row'.expires == row.expires
            && (row'.revoked.None? <==> row.revoked.None? && !EverEnds(auth, steps, t))
    decreases |steps|
  {
    if steps != [] {
      var last := |steps| - 1;
      SessionHistory(auth, steps[..last], t);
      SessionStep(Final(auth, steps[..last]), steps[last], t);
    }
  }

  /**
   Exactly when a refresh token still works after any run: nothing has ended its session since, its
   lifetime has not passed, and its user is active.
   */
  lemma SessionWorksIff(auth: Auth, later: seq<Step>, t: Token, drawn: Token, lifetime: Time, now: Time)
    requires t in auth.sessions && auth.sessions[t].revoked.None? && IsRun(auth, later)
    ensures RotateSession(Final(auth, later), t, drawn, lifetime, now).reply.Rotated? <==>
              && !EverEnds(auth, later, t)
              && auth.sessions[t].expires > now
              && auth.sessions[t].user in Final(auth, later).users
              && Final(auth, later).users[auth.sessions[t].user].active
  {
    SessionHistory(auth, later, t);
    RotatesIff(Final(auth, later), t, drawn, lifetime, now);
  }
}
