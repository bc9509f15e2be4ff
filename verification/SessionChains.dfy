/** Every refresh family is one chain of rotations with at most its tail active. */
module SessionChains {
  import opened Wrappers
  import opened Collections
  import opened AuthModel

  /** Session `k` of the chain is revoked and points to its successor. */
  ghost predicate Replaced(sessions: map<Token, Session>, chain: seq<Token>, k: nat)
    requires k + 1 < |chain| && chain[k] in sessions
  {
    sessions[chain[k]].revoked.Some? && sessions[chain[k]].replacedBy == Some(chain[k + 1])
  }

  /** `chain` lists the family's sessions in order of rotation. */
  ghost predicate IsChain(sessions: map<Token, Session>, family: FamilyId, chain: seq<Token>) {
    && chain != []
    && Distinct(chain)
    && (forall t :: t in chain <==> t in sessions && sessions[t].family == family)
    && (forall k :: 0 <= k < |chain| ==> sessions[chain[k]].user == sessions[chain[0]].user)
    && (forall k :: 0 <= k < |chain| - 1 ==> Replaced(sessions, chain, k))
    && sessions[chain[|chain| - 1]].replacedBy.None?
  }

  ghost predicate HasChain(sessions: map<Token, Session>, family: FamilyId) {
    exists chain :: IsChain(sessions, family, chain)
  }

  ghost predicate ChainsOk(sessions: map<Token, Session>) {
    forall t :: t in sessions ==> HasChain(sessions, sessions[t].family)
  }

  ghost predicate Dead(sessions: map<Token, Session>, family: FamilyId) {
    forall t :: t in sessions && sessions[t].family == family ==> sessions[t].revoked.Some?
  }

  // ---------------------------------------------------------------- preservation

  /** Same rows and links; sessions may only have become revoked. */
  ghost predicate OnlyRevokes(before: map<Token, Session>, after: map<Token, Session>) {
    && before.Keys == after.Keys
    && forall t :: t in before ==>
         && after[t].user == before[t].user && after[t].family == before[t].family
         && after[t].replacedBy == before[t].replacedBy
         && (before[t].revoked.Some? ==> after[t].revoked.Some?)
  }

  lemma OnlyRevokesKeepsChains(before: map<Token, Session>, after: map<Token, Session>)
    requires ChainsOk(before) && OnlyRevokes(before, after)
    ensures ChainsOk(after)
  {
    forall t | t in after ensures HasChain(after, after[t].family) {
      assert t in before && HasChain(before, before[t].family);
      var chain :| IsChain(before, before[t].family, chain);
      OnlyRevokesKeepsChain(before, after, before[t].family, chain);
    }
  }

  lemma OnlyRevokesKeepsChain(before: map<Token, Session>, after: map<Token, Session>, family: FamilyId,
          chain: seq<Token>)
    requires IsChain(before, family, chain) && OnlyRevokes(before, after)
    ensures IsChain(after, family, chain)
  {
    forall k | 0 <= k < |chain| - 1 ensures Replaced(after, chain, k) {
      assert Replaced(before, chain, k);
    }
    assert forall k :: 0 <= k < |chain| ==> chain[k] in before;
  }

  lemma NewFamilyKeepsChains(sessions: map<Token, Session>, drawn: Token, s: Session)
    requires ChainsOk(sessions) && drawn !in sessions && s.replacedBy.None?
    requires forall t :: t in sessions ==> sessions[t].family != s.family
    ensures ChainsOk(sessions[drawn := s])
  {
    var after := sessions[drawn := s];
    forall t | t in after ensures HasChain(after, after[t].family) {
      if t == drawn {
        assert IsChain(after, s.family, [drawn]);
      } else {
        var chain :| IsChain(sessions, sessions[t].family, chain);
        forall k | 0 <= k < |chain| - 1 ensures Replaced(after, chain, k) {
          assert Replaced(sessions, chain, k);
        }
        assert IsChain(after, after[t].family, chain);
      }
    }
  }

  /** A session that is not revoked is the tail of its family's chain. */
  lemma ActiveIsTail(sessions: map<Token, Session>, token: Token, chain: seq<Token>)
    requires token in sessions && sessions[token].revoked.None?
    requires IsChain(sessions, sessions[token].family, chain)
    ensures chain[|chain| - 1] == token
  {
    var k :| 0 <= k < |chain| && chain[k] == token;
    assert k < |chain| - 1 ==> Replaced(sessions, chain, k);
  }

  lemma RotationExtendsChain(sessions: map<Token, Session>, token: Token, drawn: Token, expires: Time, now: Time,
          chain: seq<Token>)
    requires token in sessions && sessions[token].revoked.None? && drawn !in sessions
    requires IsChain(sessions, sessions[token].family, chain)
    ensures var stored := sessions[token];
            var after := sessions[drawn := Session(stored.user, stored.family, expires, None, None)]
                                 [token := stored.(revoked := Some(now), replacedBy := Some(drawn))];
            IsChain(after, stored.family, chain + [drawn])
  {
    ActiveIsTail(sessions, token, chain);
    assert drawn !in chain;
    var stored := sessions[token];
    var after := sessions[drawn := Session(stored.user, stored.family, expires, None, None)]
                         [token := stored.(revoked := Some(now), replacedBy := Some(drawn))];
    var longer := chain + [drawn];
    forall k | 0 <= k < |longer| - 1 ensures Replaced(after, longer, k) {
      if k < |chain| - 1 {
        assert Replaced(sessions, chain, k);
      }
    }
  }

  lemma RotationKeepsChains(sessions: map<Token, Session>, token: Token, drawn: Token, expires: Time, now: Time)
    requires ChainsOk(sessions) && token in sessions && sessions[token].revoked.None? && drawn !in sessions
    ensures var stored := sessions[token];
            var after := sessions[drawn := Session(stored.user, stored.family, expires, None, None)]
                                 [token := stored.(revoked := Some(now), replacedBy := Some(drawn))];
            ChainsOk(after)
  {
    var stored := sessions[token];
    var after := sessions[drawn := Session(stored.user, stored.family, expires, None, None)]
                         [token := stored.(revoked := Some(now), replacedBy := Some(drawn))];
    forall t | t in after ensures HasChain(after, after[t].family) {
      if after[t].family == stored.family {
        assert HasChain(sessions, stored.family);
        var chain :| IsChain(sessions, stored.family, chain);
        RotationExtendsChain(sessions, token, drawn, expires, now, chain);
      } else {
        var chain :| IsChain(sessions, sessions[t].family, chain);
        assert token !in chain && drawn !in chain;
        forall k | 0 <= k < |chain| - 1 ensures Replaced(after, chain, k) {
          assert Replaced(sessions, chain, k);
        }
        assert IsChain(after, after[t].family, chain);
      }
    }
  }

  lemma OtherStepsOnlyRevoke(auth: Auth, step: Step)
    requires Enabled(auth, step) && !step.request.CreateSession? && !Serve(auth, step).reply.Rotated?
    ensures OnlyRevokes(auth.sessions, Serve(auth, step).auth.sessions)
  {
  }

  lemma StepKeepsChains(auth: Auth, step: Step)
    requires ChainsOk(auth.sessions) && Enabled(auth, step)
    ensures ChainsOk(Serve(auth, step).auth.sessions)
  {
    var r := Serve(auth, step);
    if step.request.CreateSession? {
      NewFamilyKeepsChains(auth.sessions, step.request.drawn, r.auth.sessions[step.request.drawn]);
    } else if r.reply.Rotated? {
      RotationKeepsChains(auth.sessions, step.request.token, step.request.drawn, step.now + step.request.lifetime,
          step.now);
    } else {
      OtherStepsOnlyRevoke(auth, step);
      OnlyRevokesKeepsChains(auth.sessions, r.auth.sessions);
    }
  }

  // ---------------------------------------------------------------- main results

  /** In every reachable state every family is one linear chain of one user. */
  lemma {:induction false} ReachableChains(auth: Auth, steps: seq<Step>)
    requires ChainsOk(auth.sessions) && IsRun(auth, steps)
    ensures ChainsOk(Final(auth, steps).sessions)
    decreases |steps|
  {
    if steps != [] {
      var last := |steps| - 1;
      ReachableChains(auth, steps[..last]);
      StepKeepsChains(Final(auth, steps[..last]), steps[last]);
    }
  }

  /** At most one session of a family is active, and it has not been replaced. */
  lemma AtMostOneActive(sessions: map<Token, Session>, t: Token, u: Token)
    requires ChainsOk(sessions) && t in sessions && u in sessions
    requires sessions[t].family == sessions[u].family && sessions[t].revoked.None?
    ensures sessions[t].replacedBy.None?
    ensures sessions[t].user == sessions[u].user
    ensures sessions[u].revoked.None? ==> t == u
  {
    assert HasChain(sessions, sessions[t].family);
    var chain :| IsChain(sessions, sessions[t].family, chain);
    ActiveIsTail(sessions, t, chain);
    if sessions[u].revoked.None? {
      ActiveIsTail(sessions, u, chain);
    }
    var k :| 0 <= k < |chain| && chain[k] == u;
  }

  /** A revoked session that was never replaced is the tail, so its family is dead. */
  lemma RevokedTailIsDead(sessions: map<Token, Session>, token: Token)
    requires ChainsOk(sessions) && token in sessions
    requires sessions[token].revoked.Some? && sessions[token].replacedBy.None?
    ensures Dead(sessions, sessions[token].family)
  {
    assert HasChain(sessions, sessions[token].family);
    var chain :| IsChain(sessions, sessions[token].family, chain);
    var k :| 0 <= k < |chain| && chain[k] == token;
    assert k < |chain| - 1 ==> Replaced(sessions, chain, k);
    forall t | t in sessions && sessions[t].family == sessions[token].family ensures sessions[t].revoked.Some? {
      var j :| 0 <= j < |chain| && chain[j] == t;
      assert j < |chain| - 1 ==> Replaced(sessions, chain, j);
    }
  }

  /**
   Presenting a revoked token leaves its family without an active session, both in the branch
   that updates the family and in the one that does not.
   */
  lemma ReuseKillsFamily(auth: Auth, token: Token, drawn: Token, lifetime: Time, now: Time)
    requires ChainsOk(auth.sessions)
    requires RotateSession(auth, token, drawn, lifetime, now).reply == ReuseDetected
    ensures token in auth.sessions
    ensures Dead(RotateSession(auth, token, drawn, lifetime, now).auth.sessions, auth.sessions[token].family)
  {
    if auth.sessions[token].replacedBy.None? {
      RevokedTailIsDead(auth.sessions, token);
    }
  }

  lemma RowStays(auth: Auth, step: Step, t: Token)
    requires Enabled(auth, step) && t in auth.sessions
    ensures var after := Serve(auth, step).auth.sessions;
            && t in after && after[t].family == auth.sessions[t].family && after[t].user == auth.sessions[t].user
            && (auth.sessions[t].revoked.Some? ==> after[t].revoked.Some?)
  {
  }

  /** Rows are never removed and never change user or family. */
  lemma {:induction false} RowsStay(auth: Auth, steps: seq<Step>, t: Token)
    requires IsRun(auth, steps) && t in auth.sessions
    ensures var after := Final(auth, steps).sessions;
            && t in after && after[t].family == auth.sessions[t].family && after[t].user == auth.sessions[t].user
            && (auth.sessions[t].revoked.Some? ==> after[t].revoked.Some?)
    decreases |steps|
  {
    if steps != [] {
      RowsStay(auth, steps[..|steps| - 1], t);
      RowStays(Final(auth, steps[..|steps| - 1]), steps[|steps| - 1], t);
    }
  }

  /** A rotation acts on an active session, so not on one of a dead family. */
  lemma RotationKeepsDead(auth: Auth, step: Step, family: FamilyId)
    requires Enabled(auth, step) && Dead(auth.sessions, family) && step.request.Rotate?
    requires Serve(auth, step).reply.Rotated?
    ensures Dead(Serve(auth, step).auth.sessions, family)
    ensures GainsNone(auth.sessions, Serve(auth, step).auth.sessions, family)
  {
  }

  lemma OnlyRevokesKeepsDead(before: map<Token, Session>, after: map<Token, Session>, family: FamilyId)
    requires OnlyRevokes(before, after) && Dead(before, family)
    ensures Dead(after, family) && GainsNone(before, after, family)
  {
  }

  lemma StepKeepsDead(auth: Auth, step: Step, family: FamilyId)
    requires Enabled(auth, step) && Dead(auth.sessions, family)
    requires exists t :: t in auth.sessions && auth.sessions[t].family == family
    ensures Dead(Serve(auth, step).auth.sessions, family)
    ensures GainsNone(auth.sessions, Serve(auth, step).auth.sessions, family)
  {
    if step.request.CreateSession? {
      assert step.request.family != family;
    } else if Serve(auth, step).reply.Rotated? {
      RotationKeepsDead(auth, step, family);
    } else {
      OtherStepsOnlyRevoke(auth, step);
      OnlyRevokesKeepsDead(auth.sessions, Serve(auth, step).auth.sessions, family);
    }
  }

  /** Every later session of the family was there before. */
  ghost predicate GainsNone(before: map<Token, Session>, after: map<Token, Session>, family: FamilyId) {
    forall t :: t in after && after[t].family == family ==> t in before && before[t].family == family
  }

  lemma GainsNoneChains(a: map<Token, Session>, b: map<Token, Session>, c: map<Token, Session>, family: FamilyId)
    requires GainsNone(a, b, family) && GainsNone(b, c, family)
    ensures GainsNone(a, c, family)
  {
  }

  /** A dead family stays dead in every later state and gains no session. */
  lemma {:induction false} DeadForever(auth: Auth, steps: seq<Step>, family: FamilyId)
    requires IsRun(auth, steps) && Dead(auth.sessions, family)
    requires exists t :: t in auth.sessions && auth.sessions[t].family == family
    ensures Dead(Final(auth, steps).sessions, family)
    ensures GainsNone(auth.sessions, Final(auth, steps).sessions, family)
    decreases |steps|
  {
    if steps != [] {
      var last := |steps| - 1;
      DeadForever(auth, steps[..last], family);
      var t :| t in auth.sessions && auth.sessions[t].family == family;
      RowsStay(auth, steps[..last], t);
      StepKeepsDead(Final(auth, steps[..last]), steps[last], family);
      GainsNoneChains(auth.sessions, Final(auth, steps[..last]).sessions, Final(auth, steps).sessions, family);
    }
  }

  /**
   From the first presentation of a revoked token on, no token of that family is ever
   rotated again, whatever requests follow.
   */
  lemma ReuseEndsFamilyForever(origin: Auth, history: seq<Step>, reuse: Step, later: seq<Step>, token: Token,
          drawn: Token, lifetime: Time, now: Time)
    requires Empty(origin) && IsRun(origin, history)
    requires Enabled(Final(origin, history), reuse) && reuse.request.Rotate?
    requires Serve(Final(origin, history), reuse).reply == ReuseDetected
    requires IsRun(Serve(Final(origin, history), reuse).auth, later)
    requires var s := Final(Serve(Final(origin, history), reuse).auth, later).sessions;
             token in s && s[token].family == Final(origin, history).sessions[reuse.request.token].family
    ensures var after := Final(Serve(Final(origin, history), reuse).auth, later);
            RotateSession(after, token, drawn, lifetime, now).reply == ReuseDetected
  {
    ReachableChains(origin, history);
    var before := Final(origin, history);
    var r := reuse.request;
    ReuseKillsFamily(before, r.token, r.drawn, r.lifetime, reuse.now);
    var after := Serve(before, reuse).auth;
    assert r.token in after.sessions && after.sessions[r.token].family == before.sessions[r.token].family;
    DeadForever(after, later, before.sessions[r.token].family);
  }
}
