/**
 The session and token services and the confirm endpoints as in-place updates of the
 tables, each proved equal to its transaction of the model.
 */
module AuthStore {
  import opened Wrappers
  import opened AuthModel

  class Store {
    var users: map<UserId, User>
    var sessions: map<Token, Session>
    var tokens: map<Token, AccountToken>

    function View(): Auth
      reads this
    {
      Auth(users, sessions, tokens)
    }

    constructor ()
      ensures Empty(View())
    {
      users, sessions, tokens := map[], map[], map[];
    }

    method CreateRefreshSession(user: UserId, family: FamilyId, drawn: Token, lifetime: Time, now: Time)
      requires Enabled(View(), Step(CreateSession(user, family, drawn, lifetime), now))
      modifies this`sessions
      ensures View() == Serve(old(View()), Step(CreateSession(user, family, drawn, lifetime), now)).auth
      ensures drawn in sessions && sessions[drawn].user == user && sessions[drawn].expires == now + lifetime
      ensures sessions[drawn].revoked.None? && sessions[drawn].replacedBy.None?
      ensures forall t :: t in sessions && sessions[t].family == family <==> t == drawn
      ensures forall t :: t in old(sessions) ==> t in sessions && sessions[t] == old(sessions)[t]
    {
      sessions := sessions[drawn := Session(user, family, now + lifetime, None, None)];
    }

    method RotateRefreshSession(token: Token, drawn: Token, lifetime: Time, now: Time) returns (reply: Reply)
      requires drawn !in sessions
      modifies this`sessions
      ensures Outcome(View(), reply) == RotateSession(old(View()), token, drawn, lifetime, now)
      ensures reply.Rotated? <==>
                && token in old(sessions) && old(sessions)[token].revoked.None? && old(sessions)[token].expires > now
                && old(sessions)[token].user in users && users[old(sessions)[token].user].active
    {
      if token !in sessions {
        return UnknownSession;
      }
      var stored := sessions[token];
      if stored.revoked.Some? {
        if stored.replacedBy.Some? {
          RevokeActiveOfFamily(stored.family, now);
        }
        return ReuseDetected;
      }
      if stored.expires <= now {
        sessions := sessions[token := stored.(revoked := Some(now))];
        return SessionExpired;
      }
      if stored.user !in users || !users[stored.user].active {
        sessions := sessions[token := stored.(revoked := Some(now))];
        return UserInactive;
      }
      sessions := sessions[drawn := Session(stored.user, stored.family, now + lifetime, None, None)];
      stored := stored.(revoked := Some(now));
      stored := stored.(replacedBy := Some(drawn));
      sessions := sessions[token := stored];
      reply := Rotated(drawn, stored.user);
    }

    /** The bulk update of one family's active rows. */
    method RevokeActiveOfFamily(family: FamilyId, now: Time)
      modifies this`sessions
      ensures sessions == RevokeFamily(old(sessions), family, now)
    {
      sessions := map t | t in sessions ::
        if sessions[t].family == family && sessions[t].revoked.None? then sessions[t].(revoked := Some(now))
        else sessions[t];
    }

    method RevokeRefreshSession(cookie: Option<Token>, now: Time)
      modifies this`sessions
      ensures View() == Serve(old(View()), Step(Revoke(cookie), now)).auth
    {
      if cookie.None? || cookie.value !in sessions {
        return;
      }
      RevokeActiveOfFamily(sessions[cookie.value].family, now);
    }

    method RevokeAllUserSessions(user: UserId, now: Time)
      modifies this`sessions
      ensures sessions == RevokeUser(old(sessions), user, now)
      ensures View() == Serve(old(View()), Step(RevokeAll(user), now)).auth
    {
      sessions := map t | t in sessions ::
        if sessions[t].user == user && sessions[t].revoked.None? then sessions[t].(revoked := Some(now))
        else sessions[t];
    }

    method ConsumeUserTokens(user: UserId, purpose: Purpose, now: Time)
      modifies this`tokens
      ensures tokens == ConsumeTokens(old(tokens), user, purpose, now)
      ensures tokens.Keys == old(tokens).Keys
      ensures forall t :: t in tokens && IsFor(tokens[t], user, purpose) ==> tokens[t].consumed.Some?
      ensures forall t :: t in tokens && !IsFor(tokens[t], user, purpose) ==> tokens[t] == old(tokens)[t]
      ensures forall t :: t in tokens && old(tokens)[t].consumed.Some? ==> tokens[t] == old(tokens)[t]
    {
      tokens := map t | t in tokens ::
        if tokens[t].user == user && tokens[t].purpose == purpose && tokens[t].consumed.None?
        then tokens[t].(consumed := Some(now))
        else tokens[t];
    }

    method IssueAccountToken(user: UserId, purpose: Purpose, drawn: Token, lifetime: Time, now: Time)
      requires Enabled(View(), Step(IssueToken(user, purpose, drawn, lifetime), now))
      modifies this`tokens
      ensures View() == Serve(old(View()), Step(IssueToken(user, purpose, drawn, lifetime), now)).auth
    {
      ConsumeUserTokens(user, purpose, now);
      tokens := tokens[drawn := AccountToken(user, purpose, now + lifetime, None)];
    }

    method GetValidAccountToken(token: Token, purpose: Purpose, now: Time) returns (stored: Option<AccountToken>)
      ensures stored.Some? <==> ValidToken(View(), token, purpose, now)
      ensures stored.Some? ==> stored.value == tokens[token]
    {
      if token !in tokens || tokens[token].purpose != purpose {
        return None;
      }
      var row := tokens[token];
      if row.consumed.Some? || row.expires <= now {
        return None;
      }
      if row.user !in users || !users[row.user].active {
        return None;
      }
      stored := Some(row);
    }

    method ConfirmPasswordReset(token: Token, newHash: string, now: Time) returns (reply: Reply)
      modifies this
      ensures Outcome(View(), reply) == ResetPasswordWith(old(View()), token, newHash, now)
    {
      var stored := GetValidAccountToken(token, ResetPassword, now);
      if stored.None? {
        return InvalidToken;
      }
      var u := stored.value.user;
      tokens := tokens[token := stored.value.(consumed := Some(now))];
      users := users[u := users[u].(passwordHash := newHash)];
      if users[u].verifiedAt.None? {
        users := users[u := users[u].(verifiedAt := Some(now))];
      }
      ConsumeUserTokens(u, ResetPassword, now);
      RevokeAllUserSessions(u, now);
      reply := Done;
    }

    method ConfirmEmailVerification(token: Token, now: Time) returns (reply: Reply)
      modifies this
      ensures Outcome(View(), reply) == VerifyEmailWith(old(View()), token, now)
    {
      var stored := GetValidAccountToken(token, VerifyEmail, now);
      if stored.None? {
        return InvalidToken;
      }
      var u := stored.value.user;
      tokens := tokens[token := stored.value.(consumed := Some(now))];
      users := users[u := users[u].(verifiedAt := Some(now))];
      ConsumeUserTokens(u, VerifyEmail, now);
      reply := Done;
    }
  }
}
