/** Account tokens over whole histories, and what a password reset does to tokens and sessions. */
module PasswordReset {
  import opened Wrappers
  import opened AuthModel
  import SessionChains

  /** The token most recently issued to the user for the purpose. */
  function LastIssued(steps: seq<Step>, user: UserId, purpose: Purpose): Option<Token> {
    if steps == [] then None
    else
      var r := steps[|steps| - 1].request;
      if r.IssueToken? && r.user == user && r.purpose == purpose then Some(r.drawn)
      else LastIssued(steps[..|steps| - 1], user, purpose)
  }

  /** The step makes the user's outstanding tokens for the purpose unusable. */
  predicate Spends(auth: Auth, step: Step, user: UserId, purpose: Purpose)
    requires Enabled(auth, step)
  {
    match step.request
    case IssueToken(u, p, _, _) => u == user && p == purpose
    case ConfirmReset(t, _) => purpose == ResetPassword && Serve(auth, step).reply.Done? && auth.tokens[t].user == user
    case ConfirmVerification(t) => purpose == VerifyEmail && Serve(auth, step).reply.Done? &&
        auth.tokens[t].user == user
    case _ => false
  }

  predicate EverSpends(auth: Auth, steps: seq<Step>, user: UserId, purpose: Purpose)
    requires IsRun(auth, steps)
    decreases |steps|
  {
    steps != [] &&
    (EverSpends(auth, steps[..|steps| - 1], user, purpose)
     || Spends(Final(auth, steps[..|steps| - 1]), steps[|steps| - 1], user, purpose))
  }

  // ---------------------------------------------------------------- token histories

  /** A stored token keeps its owner, purpose and expiry; it is consumed by the first spending step. */
  lemma {:induction false} TokenHistory(auth: Auth, steps: seq<Step>, t: Token)
    requires IsRun(auth, steps) && t in auth.tokens
    ensures t in Final(auth, steps).tokens
    ensures var row, row' := auth.tokens[t], Final(auth, steps).tokens[t];
            && row'.user == row.user && row'.purpose == row.purpose && row'.expires == row.expires
            && (row'.consumed.None? <==> row.consumed.None? && !EverSpends(auth, steps, row.user, row.purpose))
    decreases |steps|
  {
    if steps != [] {
      var last := |steps| - 1;
      TokenHistory(auth, steps[..last], t);
      TokenStep(Final(auth, steps[..last]), steps[last], t);
    }
  }

  lemma TokenStep(auth: Auth, step: Step, t: Token)
    requires Enabled(auth, step) && t in auth.tokens
    ensures t in Serve(auth, step).auth.tokens
    ensures var row, row' := auth.tokens[t], Serve(auth, step).auth.tokens[t];
            && row'.user == row.user && row'.purpose == row.purpose && row'.expires == row.expires
            && (row'.consumed.None? <==> row.consumed.None? && !Spends(auth, step, row.user, row.purpose))
  {
  }

  /** Every outstanding token is the latest issued for its user and purpose. */
  lemma {:induction false} OutstandingIsLatest(origin: Auth, steps: seq<Step>, t: Token)
    requires Empty(origin) && IsRun(origin, steps)
    requires t in Final(origin, steps).tokens && Final(origin, steps).tokens[t].consumed.None?
    ensures var row := Final(origin, steps).tokens[t]; LastIssued(steps, row.user, row.purpose) == Some(t)
    decreases |steps|
  {
    if steps != [] {
      var last := |steps| - 1;
      var before := Final(origin, steps[..last]);
      if t in before.tokens {
        TokenStep(before, steps[last], t);
        OutstandingIsLatest(origin, steps[..last], t);
      }
    }
  }

  /**
   Exactly when an issued token works later: nothing has spent the user's tokens for its
   purpose since, it has not expired, and the user is active.
   */
  lemma IssuedTokenWorksIff(auth: Auth, issue: Step, later: seq<Step>, now: Time)
    requires Enabled(auth, issue) && issue.request.IssueToken?
    requires IsRun(Serve(auth, issue).auth, later)
    ensures var r := issue.request;
            var issued := Serve(auth, issue).auth;
            ValidToken(Final(issued, later), r.drawn, r.purpose, now) <==>
              && !EverSpends(issued, later, r.user, r.purpose)
              && issue.now + r.lifetime > now
              && ActiveUser(Final(issued, later), r.user)
  {
    TokenHistory(Serve(auth, issue).auth, later, issue.request.drawn);
  }

  // ---------------------------------------------------------------- resetting the password

  /** The transaction's effect, and what it leaves alone. */
  lemma ResetEffect(auth: Auth, token: Token, newHash: string, now: Time)
    requires ResetPasswordWith(auth, token, newHash, now).reply.Done?
    ensures var after := ResetPasswordWith(auth, token, newHash, now).auth;
            var u := auth.tokens[token].user;
            && u in after.users && after.users[u].passwordHash == newHash && after.users[u].verifiedAt.Some?
            && (auth.users[u].verifiedAt.Some? ==> after.users[u].verifiedAt == auth.users[u].verifiedAt)
            && (forall t :: t in after.tokens && IsFor(after.tokens[t], u, ResetPassword) ==>
                  after.tokens[t].consumed.Some?)
            && (forall t :: t in after.sessions && after.sessions[t].user == u ==> after.sessions[t].revoked.Some?)
            && after.sessions.Keys == auth.sessions.Keys && after.tokens.Keys == auth.tokens.Keys
            && (forall t :: t in auth.sessions && auth.sessions[t].user != u ==> after.sessions[t] == auth.sessions[t])
            && (forall t :: t in auth.tokens && !IsFor(auth.tokens[t], u, ResetPassword) ==>
                  after.tokens[t] == auth.tokens[t])
            && (forall v :: v in auth.users && v != u ==> v in after.users && after.users[v] == auth.users[v])
  {
  }

  /** A reset that succeeds used the latest reset token issued to that user. */
  lemma ResetUsesLatestToken(origin: Auth, history: seq<Step>, token: Token, newHash: string, now: Time)
    requires Empty(origin) && IsRun(origin, history)
    requires ResetPasswordWith(Final(origin, history), token, newHash, now).reply.Done?
    ensures var user := Final(origin, history).tokens[token].user;
            LastIssued(history, user, ResetPassword) == Some(token)
  {
    OutstandingIsLatest(origin, history, token);
  }

  /** And it used it for the last time: no later request with that token succeeds. */
  lemma ResetTokenWorksOnce(auth: Auth, token: Token, newHash: string, now: Time, later: seq<Step>, otherHash: string,
          then_: Time)
    requires ResetPasswordWith(auth, token, newHash, now).reply.Done?
    requires IsRun(ResetPasswordWith(auth, token, newHash, now).auth, later)
    ensures var after := Final(ResetPasswordWith(auth, token, newHash, now).auth, later);
            ResetPasswordWith(after, token, otherHash, then_).reply == InvalidToken
  {
    ResetEffect(auth, token, newHash, now);
    TokenHistory(ResetPasswordWith(auth, token, newHash, now).auth, later, token);
  }

  /** Every refresh token the user held before the reset fails rotation in all later states. */
  lemma {:induction false} ResetEndsEverySession(auth: Auth, token: Token, newHash: string, now: Time, later: seq<Step>,
                              refresh: Token, drawn: Token, lifetime: Time, then_: Time)
    requires ResetPasswordWith(auth, token, newHash, now).reply.Done?
    requires IsRun(ResetPasswordWith(auth, token, newHash, now).auth, later)
    requires refresh in auth.sessions && auth.sessions[refresh].user == auth.tokens[token].user
    ensures var after := Final(ResetPasswordWith(auth, token, newHash, now).auth, later);
            RotateSession(after, refresh, drawn, lifetime, then_).reply == ReuseDetected
  {
    ResetEffect(auth, token, newHash, now);
    SessionChains.RowsStay(ResetPasswordWith(auth, token, newHash, now).auth, later, refresh);
  }

  /** Right after the reset the user has no active session and no outstanding reset token, in any family. */
  lemma ResetLeavesFamiliesDead(origin: Auth, history: seq<Step>, token: Token, newHash: string, now: Time,
          family: FamilyId)
    requires Empty(origin) && IsRun(origin, history)
    requires ResetPasswordWith(Final(origin, history), token, newHash, now).reply.Done?
    requires var before := Final(origin, history);
             exists t :: t in before.sessions && before.sessions[t].family == family &&
                 before.sessions[t].user == before.tokens[token].user
    ensures SessionChains.Dead(ResetPasswordWith(Final(origin, history), token, newHash, now).auth.sessions, family)
  {
    SessionChains.ReachableChains(origin, history);
    var before := Final(origin, history);
    var t :| t in before.sessions && before.sessions[t].family == family &&
        before.sessions[t].user == before.tokens[token].user;
    RevokingAUserEndsTheFamily(before.sessions, t, now);
  }

  /** A family has one user, so revoking that user's sessions leaves none of it active. */
  lemma RevokingAUserEndsTheFamily(sessions: map<Token, Session>, t: Token, now: Time)
    requires SessionChains.ChainsOk(sessions) && t in sessions
    ensures SessionChains.Dead(RevokeUser(sessions, sessions[t].user, now), sessions[t].family)
  {
    forall s | s in sessions && sessions[s].family == sessions[t].family
      ensures sessions[s].revoked.Some? || sessions[s].user == sessions[t].user
    {
      if sessions[s].revoked.None? {
        SessionChains.AtMostOneActive(sessions, s, t);
      }
    }
  }
}
