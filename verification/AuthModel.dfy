/**
 Refresh sessions, account tokens and the endpoints over them, one transaction a step.
 Rows are identified by their token: the stored hash is unique, hashing is taken as
 injective, and freshly drawn tokens and family ids are taken as unused.
 */
module AuthModel {
  import opened Wrappers

  type UserId = nat
  type FamilyId = nat
  type Token = nat
  type Time = int

  datatype Session = Session(user: UserId, family: FamilyId, expires: Time, revoked: Option<Time>,
          replacedBy: Option<Token>)

  datatype Purpose = VerifyEmail | ResetPassword

  datatype AccountToken = AccountToken(user: UserId, purpose: Purpose, expires: Time, consumed: Option<Time>)

  datatype User = User(active: bool, passwordHash: string, verifiedAt: Option<Time>)

  datatype Auth = Auth(users: map<UserId, User>, sessions: map<Token, Session>, tokens: map<Token, AccountToken>)

  datatype Request =
    | AddUser(user: UserId, passwordHash: string)
    | SetActive(user: UserId, active: bool)
    | CreateSession(user: UserId, family: FamilyId, drawn: Token, lifetime: Time)
    | Rotate(token: Token, drawn: Token, lifetime: Time)
    | Revoke(cookie: Option<Token>)
    | RevokeAll(user: UserId)
    | IssueToken(user: UserId, purpose: Purpose, drawn: Token, lifetime: Time)
    | ConfirmReset(token: Token, newHash: string)
    | ConfirmVerification(token: Token)

  datatype Reply =
    | Done
    | Rotated(token: Token, user: UserId)
    | UnknownSession | ReuseDetected | SessionExpired | UserInactive
    | InvalidToken

  datatype Step = Step(request: Request, now: Time)

  datatype Outcome = Outcome(auth: Auth, reply: Reply)

  // ---------------------------------------------------------------- sessions

  function EndSession(s: Session, now: Time): Session {
    if s.revoked.None? then s.(revoked := Some(now)) else s
  }

  /** The bulk update: revoke what is still active in one family. */
  function RevokeFamily(sessions: map<Token, Session>, family: FamilyId, now: Time): map<Token, Session> {
    map t | t in sessions :: if sessions[t].family == family then EndSession(sessions[t], now) else sessions[t]
  }

  function RevokeUser(sessions: map<Token, Session>, user: UserId, now: Time): map<Token, Session> {
    map t | t in sessions :: if sessions[t].user == user then EndSession(sessions[t], now) else sessions[t]
  }

  predicate ActiveUser(auth: Auth, user: UserId) {
    user in auth.users && auth.users[user].active
  }

  function RotateSession(auth: Auth, token: Token, drawn: Token, lifetime: Time, now: Time): Outcome {
    if token !in auth.sessions then Outcome(auth, UnknownSession)
    else
      var stored := auth.sessions[token];
      var ended := auth.(sessions := auth.sessions[token := stored.(revoked := Some(now))]);
      if stored.revoked.Some? then
        Outcome(if stored.replacedBy.None? then auth
                else auth.(sessions := RevokeFamily(auth.sessions, stored.family, now)),
                ReuseDetected)
      else if stored.expires <= now then Outcome(ended, SessionExpired)
      else if !ActiveUser(auth, stored.user) then Outcome(ended, UserInactive)
      else
        var replacement := Session(stored.user, stored.family, now + lifetime, None, None);
        var replaced := stored.(revoked := Some(now), replacedBy := Some(drawn));
        Outcome(auth.(sessions := auth.sessions[drawn := replacement][token := replaced]), Rotated(drawn, stored.user))
  }

  // ---------------------------------------------------------------- account tokens

  function ConsumeTokens(tokens: map<Token, AccountToken>, user: UserId, purpose: Purpose,
          now: Time): map<Token, AccountToken>
  {
    map t | t in tokens ::
      if tokens[t].user == user && tokens[t].purpose == purpose && tokens[t].consumed.None?
      then tokens[t].(consumed := Some(now))
      else tokens[t]
  }

  /** The row is a token of this user for this purpose. */
  predicate IsFor(row: AccountToken, user: UserId, purpose: Purpose) {
    row.user == user && row.purpose == purpose
  }

  /** What `get_valid_account_token` accepts. */
  predicate ValidToken(auth: Auth, token: Token, purpose: Purpose, now: Time) {
    && token in auth.tokens
    && auth.tokens[token].purpose == purpose
    && auth.tokens[token].consumed.None?
    && auth.tokens[token].expires > now
    && ActiveUser(auth, auth.tokens[token].user)
  }

  function VerifiedAt(user: User, now: Time): Option<Time> {
    if user.verifiedAt.Some? then user.verifiedAt else Some(now)
  }

  function ResetPasswordWith(auth: Auth, token: Token, newHash: string, now: Time): Outcome {
    if !ValidToken(auth, token, ResetPassword, now) then Outcome(auth, InvalidToken)
    else
      var u := auth.tokens[token].user;
      var user := auth.users[u];
      Outcome(Auth(auth.users[u := User(user.active, newHash, VerifiedAt(user, now))],
                   RevokeUser(auth.sessions, u, now),
                   ConsumeTokens(auth.tokens, u, ResetPassword, now)),
              Done)
  }

  function VerifyEmailWith(auth: Auth, token: Token, now: Time): Outcome {
    if !ValidToken(auth, token, VerifyEmail, now) then Outcome(auth, InvalidToken)
    else
      var u := auth.tokens[token].user;
      Outcome(auth.(users := auth.users[u := auth.users[u].(verifiedAt := Some(now))],
                    tokens := ConsumeTokens(auth.tokens, u, VerifyEmail, now)),
              Done)
  }

  // ---------------------------------------------------------------- the machine

  /** What randomness is assumed to give: unused tokens, families and user ids. */
  predicate Enabled(auth: Auth, step: Step) {
    match step.request
    case AddUser(u, _) => u !in auth.users
    case SetActive(u, _) => u in auth.users
    case CreateSession(u, family, drawn, _) =>
      u in auth.users && drawn !in auth.sessions && forall t :: t in auth.sessions ==> auth.sessions[t].family != family
    case Rotate(_, drawn, _) => drawn !in auth.sessions
    case IssueToken(u, _, drawn, _) => u in auth.users && drawn !in auth.tokens
    case _ => true
  }

  function Serve(auth: Auth, step: Step): Outcome
    requires Enabled(auth, step)
  {
    var now := step.now;
    match step.request
    case AddUser(u, hash) => Outcome(auth.(users := auth.users[u := User(true, hash, None)]), Done)
    case SetActive(u, active) => Outcome(auth.(users := auth.users[u := auth.users[u].(active := active)]), Done)
    case CreateSession(u, family, drawn, lifetime) =>
      Outcome(auth.(sessions := auth.sessions[drawn := Session(u, family, now + lifetime, None, None)]), Done)
    case Rotate(token, drawn, lifetime) => RotateSession(auth, token, drawn, lifetime, now)
    case Revoke(cookie) =>
      if cookie.Some? && cookie.value in auth.sessions then
        Outcome(auth.(sessions := RevokeFamily(auth.sessions, auth.sessions[cookie.value].family, now)), Done)
      else Outcome(auth, Done)
    case RevokeAll(u) => Outcome(auth.(sessions := RevokeUser(auth.sessions, u, now)), Done)
    case IssueToken(u, purpose, drawn, lifetime) =>
      var spent := ConsumeTokens(auth.tokens, u, purpose, now);
      Outcome(auth.(tokens := spent[drawn := AccountToken(u, purpose, now + lifetime, None)]), Done)
    case ConfirmReset(token, newHash) => ResetPasswordWith(auth, token, newHash, now)
    case ConfirmVerification(token) => VerifyEmailWith(auth, token, now)
  }

  predicate IsRun(auth: Auth, steps: seq<Step>)
    decreases |steps|, 0
  {
    steps == [] ||
    (var last := |steps| - 1;
     IsRun(auth, steps[..last]) && Enabled(Final(auth, steps[..last]), steps[last]))
  }

  function Final(auth: Auth, steps: seq<Step>): Auth
    requires IsRun(auth, steps)
    decreases |steps|, 1
  {
    if steps == [] then auth
    else
      var last := |steps| - 1;
      Serve(Final(auth, steps[..last]), steps[last]).auth
  }

  predicate Empty(auth: Auth) {
    auth == Auth(map[], map[], map[])
  }
}
