/**
 The life of one API request beside everything else the client and the server do: when it waits
 for a refresh, what wakes it, and how often it is sent.
 */
module RefreshRetry {
  import opened Wrappers
  import opened AuthModel
  import opened RefreshClient

  /** The move that takes request `q` out of the state `r`. */
  predicate Advances(m: Move, q: RequestId, r: ApiRequest) {
    match r
    case InFlight(_, _) => m.Answer? && m.q == q
    case AwaitingRefresh(_, fetch) => m == SettlePromise(fetch)
    case Resumed(_, _) => m == Resume(q)
    case Finished(_) => false
  }

  /** Nothing else touches the request. */
  lemma OthersLeaveIt(w: World, m: Move, q: RequestId)
    requires RefreshClient.Enabled(w, m) && q in w.client.requests && !Advances(m, q, w.client.requests[q])
    ensures q in RefreshClient.Next(w, m).client.requests
    ensures RefreshClient.Next(w, m).client.requests[q] == w.client.requests[q]
  {
  }

  /** The request stays as it is over a whole run without such a move. */
  lemma {:induction false} StaysUntil(w: World, moves: seq<Move>, q: RequestId)
    requires RefreshClient.IsRun(w, moves) && q in w.client.requests
    requires forall m :: m in moves ==> !Advances(m, q, w.client.requests[q])
    ensures q in RefreshClient.Final(w, moves).client.requests
    ensures RefreshClient.Final(w, moves).client.requests[q] == w.client.requests[q]
    decreases |moves|
  {
    if moves != [] {
      assert moves[0] in moves;
      OthersLeaveIt(w, moves[0], q);
      StaysUntil(RefreshClient.Next(w, moves[0]), moves[1..], q);
    }
  }

  // ---------------------------------------------------------------- single moves

  /** A request is sent once, and may refresh exactly with a token and off the exempt paths. */
  lemma SendEffect(w: World, q: RequestId, fallback: bool, exempt: bool)
    requires RefreshClient.Enabled(w, Send(q, fallback, exempt))
    ensures var r := RefreshClient.Next(w, Send(q, fallback, exempt)).client.requests[q];
            r.InFlight? && r.sends == 1 && (r.mayRefresh <==> (w.client.signedIn || fallback) && !exempt)
  {
  }

  /** An answer starts or joins the refresh exactly for a 401 with permission, and ends the request otherwise. */
  lemma AnswerEffect(w: World, q: RequestId, unauthorized: bool, f: FetchId)
    requires RefreshClient.Enabled(w, Answer(q, unauthorized, f))
    ensures var r, c' := w.client.requests[q], RefreshClient.Next(w, Answer(q, unauthorized, f)).client;
            && (unauthorized && r.mayRefresh ==>
                  && c'.promise == (if w.client.promise.Some? then w.client.promise else Some(f))
                  && c'.requests[q] == AwaitingRefresh(r.sends, c'.promise.value)
                  && (w.client.promise.None? ==> f in c'.fetches && c'.fetches[f] == Sent(w.client.cookie)))
            && (!unauthorized || !r.mayRefresh ==>
                  c'.requests[q] == Finished(r.sends) && c'.fetches == w.client.fetches)
  {
  }

  /** The settled refresh wakes its waiters with its outcome. */
  lemma SettleEffect(w: World, g: FetchId, q: RequestId)
    requires RefreshClient.Enabled(w, SettlePromise(g)) && q in w.client.requests
    requires w.client.requests[q].AwaitingRefresh? && w.client.requests[q].fetch == g
    ensures RefreshClient.Next(w, SettlePromise(g)).client.requests[q]
         == Resumed(w.client.requests[q].sends, w.client.fetches[g].granted)
  {
  }

  /** A woken request is sent once more exactly after a granted refresh, and then may not refresh again. */
  lemma ResumeEffect(w: World, q: RequestId)
    requires RefreshClient.Enabled(w, Resume(q))
    ensures var r, r' := w.client.requests[q], RefreshClient.Next(w, Resume(q)).client.requests[q];
            r' == if r.granted then InFlight(r.sends + 1, false) else Finished(r.sends)
  {
  }

  /** What the server answers a refresh, by the first reason that applies. */
  lemma RefreshAnswers(w: World, f: FetchId, drawn: Token, lifetime: Time, now: Time, limited: bool, fails: bool)
    requires RefreshClient.Enabled(w, ServeRefresh(f, drawn, lifetime, now, limited, fails))
    ensures var c := w.client.fetches[f].cookie;
            var w' := RefreshClient.Next(w, ServeRefresh(f, drawn, lifetime, now, limited, fails));
            var works := c.Some? && RotateSession(w.auth, c.value, drawn, lifetime, now).reply.Rotated?;
            && w'.client.fetches[f] == Answered(if limited then Throttled
                                                else if !works then Denied
                                                else if fails then Failed
                                                else Granted(drawn))
            && (limited || c.None? ==> w'.auth == w.auth)
            && (!limited && c.Some? ==> w'.auth == RotateSession(w.auth, c.value, drawn, lifetime, now).auth)
            && w'.mine == (if !limited && works then w.mine + {drawn} else w.mine)
            && w'.client.cookie == w.client.cookie && w'.client.requests == w.client.requests
  {
  }

  /** What the client makes of the answer: a new cookie, none, or the old one; signed in only by a grant. */
  lemma DeliveryEffect(w: World, f: FetchId)
    requires RefreshClient.Enabled(w, DeliverRefresh(f))
    ensures var reply, c' := w.client.fetches[f].reply, RefreshClient.Next(w, DeliverRefresh(f)).client;
            && c'.signedIn == reply.Granted? && c'.fetches[f] == Applied(reply.Granted?)
            && (reply.Granted? ==> c'.cookie == Some(reply.token))
            && (reply.Denied? ==> c'.cookie.None?)
            && (reply.Throttled? || reply.Failed? ==> c'.cookie == w.client.cookie)
  {
  }

  // ---------------------------------------------------------------- the whole life

  predicate Reaches(w: World, moves: seq<Move>, w': World) {
    RefreshClient.IsRun(w, moves) && RefreshClient.Final(w, moves) == w'
  }

  predicate Answers(m: Move, q: RequestId) {
    m.Answer? && m.q == q
  }

  /** The refresh that a request turned away in `w` waits for: the one under way, or a new one. */
  function Joined(w: World, f: FetchId): FetchId {
    if w.client.promise.Some? then w.client.promise.value else f
  }

  lemma FirstSend(w: World, w': World, q: RequestId, fallback: bool, before: seq<Move>)
    requires w.client.signedIn || fallback
    requires Reaches(w, [Send(q, fallback, false)] + before, w') && forall m :: m in before ==> !Answers(m, q)
    ensures q in w'.client.requests && w'.client.requests[q] == InFlight(1, true)
  {
    var moves := [Send(q, fallback, false)] + before;
    assert moves[1..] == before;
    SendEffect(w, q, fallback, false);
    StaysUntil(RefreshClient.Next(w, moves[0]), before, q);
  }

  /** From a 401 that may refresh to the settled refresh. */
  lemma WaitsForRefresh(w: World, w': World, q: RequestId, f: FetchId, waiting: seq<Move>)
    requires q in w.client.requests && w.client.requests[q] == InFlight(1, true)
    requires Reaches(w, [Answer(q, true, f)] + waiting, w') && SettlePromise(Joined(w, f)) !in waiting
    ensures q in w'.client.requests && w'.client.requests[q] == AwaitingRefresh(1, Joined(w, f))
  {
    var moves := [Answer(q, true, f)] + waiting;
    assert moves[1..] == waiting;
    AnswerEffect(w, q, true, f);
    StaysUntil(RefreshClient.Next(w, moves[0]), waiting, q);
  }

  /** From the settled refresh to the second sending, or to the end. */
  lemma GoesOn(w: World, w': World, q: RequestId, g: FetchId, woken: seq<Move>)
    requires q in w.client.requests && w.client.requests[q] == AwaitingRefresh(1, g)
    requires Reaches(w, [SettlePromise(g)] + woken, w') && Resume(q) !in woken
    ensures q in w'.client.requests && w'.client.requests[q] == Resumed(1, w.client.fetches[g].granted)
  {
    var moves := [SettlePromise(g)] + woken;
    assert moves[1..] == woken;
    SettleEffect(w, g, q);
    StaysUntil(RefreshClient.Next(w, moves[0]), woken, q);
  }

  lemma SecondSend(w: World, w': World, q: RequestId, granted: bool, again: seq<Move>)
    requires q in w.client.requests && w.client.requests[q] == Resumed(1, granted)
    requires Reaches(w, [Resume(q)] + again, w') && forall m :: m in again ==> !Answers(m, q)
    ensures q in w'.client.requests
    ensures w'.client.requests[q] == if granted then InFlight(2, false) else Finished(1)
  {
    var moves := [Resume(q)] + again;
    assert moves[1..] == again;
    ResumeEffect(w, q);
    StaysUntil(RefreshClient.Next(w, moves[0]), again, q);
  }

  /**
   A request with a token, off the exempt paths, that meets a 401: whatever else happens before its
   answer, while it waits, once it is woken and after, it is sent exactly twice if the refresh it
   waited for was granted, the second answer ends it whatever it is, and it is sent once otherwise.
   */
  lemma SentTwiceIffGranted(w0: World, w1: World, w2: World, w3: World, w4: World, q: RequestId, fallback: bool,
          f: FetchId, before: seq<Move>, waiting: seq<Move>, woken: seq<Move>, again: seq<Move>, unauthorized: bool,
          h: FetchId)
    requires w0.client.signedIn || fallback
    requires Reaches(w0, [Send(q, fallback, false)] + before, w1) && forall m :: m in before ==> !Answers(m, q)
    requires Reaches(w1, [Answer(q, true, f)] + waiting, w2) && SettlePromise(Joined(w1, f)) !in waiting
    requires Reaches(w2, [SettlePromise(Joined(w1, f))] + woken, w3) && Resume(q) !in woken
    requires Reaches(w3, [Resume(q)] + again, w4) && forall m :: m in again ==> !Answers(m, q)
    ensures Joined(w1, f) in w2.client.fetches && w2.client.fetches[Joined(w1, f)].Applied? && q in w4.client.requests
    ensures w2.client.fetches[Joined(w1, f)].granted ==>
              && w4.client.requests[q] == InFlight(2, false)
              && (RefreshClient.Enabled(w4, Answer(q, unauthorized, h)) ==>
                    RefreshClient.Next(w4, Answer(q, unauthorized, h)).client.requests[q] == Finished(2))
    ensures !w2.client.fetches[Joined(w1, f)].granted ==> w4.client.requests[q] == Finished(1)
  {
    FirstSend(w0, w1, q, fallback, before);
    WaitsForRefresh(w1, w2, q, f, waiting);
    GoesOn(w2, w3, q, Joined(w1, f), woken);
    SecondSend(w3, w4, q, w2.client.fetches[Joined(w1, f)].granted, again);
  }

  // ---------------------------------------------------------------- and it does happen

  lemma Prepend(w: World, m: Move, rest: seq<Move>)
    requires RefreshClient.Enabled(w, m) && RefreshClient.IsRun(RefreshClient.Next(w, m), rest)
    ensures RefreshClient.IsRun(w, [m] + rest)
    ensures RefreshClient.Final(w, [m] + rest) == RefreshClient.Final(RefreshClient.Next(w, m), rest)
  {
    assert ([m] + rest)[1..] == rest;
  }

  /** The refresh of an undisturbed client, from its sending to the settled promise. */
  function RefreshMoves(f: FetchId, drawn: Token, lifetime: Time, now: Time): seq<Move> {
    [ServeRefresh(f, drawn, lifetime, now, false, false), DeliverRefresh(f), SettlePromise(f)]
  }

  /** A cookie whose session works is exchanged, and every waiter is woken with a grant. */
  lemma RefreshGrants(w: World, f: FetchId, drawn: Token, lifetime: Time, now: Time, q: RequestId)
    requires f in w.client.fetches && w.client.fetches[f] == Sent(w.client.cookie) && w.client.cookie.Some?
    requires drawn !in w.auth.sessions && q in w.client.requests && w.client.requests[q] == AwaitingRefresh(1, f)
    requires RotateSession(w.auth, w.client.cookie.value, drawn, lifetime, now).reply.Rotated?
    ensures RefreshClient.IsRun(w, RefreshMoves(f, drawn, lifetime, now))
    ensures var c := RefreshClient.Final(w, RefreshMoves(f, drawn, lifetime, now)).client;
            && c.cookie == Some(drawn) && c.signedIn && c.promise.None?
            && q in c.requests && c.requests[q] == Resumed(1, true)
  {
    var m1 := ServeRefresh(f, drawn, lifetime, now, false, false);
    RefreshAnswers(w, f, drawn, lifetime, now, false, false);
    var w1 := RefreshClient.Next(w, m1);
    DeliveryEffect(w1, f);
    var w2 := RefreshClient.Next(w1, DeliverRefresh(f));
    SettleEffect(w2, f, q);
    Prepend(w2, SettlePromise(f), []);
    Prepend(w1, DeliverRefresh(f), [SettlePromise(f)]);
    Prepend(w, m1, [DeliverRefresh(f), SettlePromise(f)]);
  }

  /**
   From any world with no refresh under way and a cookie whose session works, a request that meets
   a 401 is sent a second time, with a new cookie and a new access token.
   */
  lemma RetryHappens(w: World, q: RequestId, fallback: bool, f: FetchId, drawn: Token, lifetime: Time, now: Time)
    requires q !in w.client.requests && f !in w.client.fetches && w.client.promise.None?
    requires (w.client.signedIn || fallback) && w.client.cookie.Some? && drawn !in w.auth.sessions
    requires RotateSession(w.auth, w.client.cookie.value, drawn, lifetime, now).reply.Rotated?
    ensures var refresh := RefreshMoves(f, drawn, lifetime, now);
            var moves := [Send(q, fallback, false)] + ([Answer(q, true, f)] + (refresh + [Resume(q)]));
            && RefreshClient.IsRun(w, moves)
            && var c := RefreshClient.Final(w, moves).client;
               q in c.requests && c.requests[q] == InFlight(2, false) && c.cookie == Some(drawn) && c.signedIn
  {
    SendEffect(w, q, fallback, false);
    var w1 := RefreshClient.Next(w, Send(q, fallback, false));
    AnswerEffect(w1, q, true, f);
    var w2 := RefreshClient.Next(w1, Answer(q, true, f));
    RefreshGrants(w2, f, drawn, lifetime, now, q);
    var w3 := RefreshClient.Final(w2, RefreshMoves(f, drawn, lifetime, now));
    ResumeEffect(w3, q);
    Prepend(w3, Resume(q), []);
    Append(w2, RefreshMoves(f, drawn, lifetime, now), [Resume(q)]);
    Prepend(w1, Answer(q, true, f), RefreshMoves(f, drawn, lifetime, now) + [Resume(q)]);
    Prepend(w, Send(q, fallback, false), [Answer(q, true, f)] + (RefreshMoves(f, drawn, lifetime, now) + [Resume(q)]));
  }

  lemma {:induction false} Append(w: World, moves: seq<Move>, more: seq<Move>)
    requires RefreshClient.IsRun(w, moves) && RefreshClient.IsRun(RefreshClient.Final(w, moves), more)
    ensures RefreshClient.IsRun(w, moves + more)
    ensures RefreshClient.Final(w, moves + more) == RefreshClient.Final(RefreshClient.Final(w, moves), more)
    decreases |moves|
  {
    if moves == [] {
      assert moves + more == more;
    } else {
      Append(RefreshClient.Next(w, moves[0]), moves[1..], more);
      Prepend(w, moves[0], moves[1..] + more);
      assert moves + more == [moves[0]] + (moves[1..] + more);
    }
  }
}
