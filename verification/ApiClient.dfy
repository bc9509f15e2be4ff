/** The API module of the browser client: two module variables and the code that sets them. */
module ApiClient {
  import opened Wrappers
  import opened AuthModel
  import opened RefreshClient

  class ApiModule {
    var cookie: Option<Token>
    var activeAccessToken: bool
    var refreshPromise: Option<FetchId>
    var fetches: map<FetchId, RefreshFetch>
    var requests: map<RequestId, ApiRequest>
    var logins: map<RequestId, Token>
    var logouts: map<RequestId, LogoutFetch>

    function View(): Client
      reads this
    {
      Client(cookie, activeAccessToken, refreshPromise, fetches, requests, logins, logouts)
    }

    constructor (stored: Option<Token>)
      ensures View() == Client(stored, false, None, map[], map[], map[], map[])
    {
      cookie, activeAccessToken, refreshPromise := stored, false, None;
      fetches, requests, logins, logouts := map[], map[], map[], map[];
    }

    /** `refreshApiAccessToken`, up to its first await: the fetch every caller then waits for. */
    method RefreshApiAccessToken(f: FetchId) returns (joined: FetchId)
      requires f !in fetches
      modifies this`refreshPromise, this`fetches
      ensures View() == JoinOrStart(old(View()), f)
      ensures refreshPromise == Some(joined)
      ensures old(refreshPromise).Some? ==> joined == old(refreshPromise).value && fetches == old(fetches)
      ensures old(refreshPromise).None? ==> joined == f && fetches == old(fetches)[f := Sent(cookie)]
    {
      if refreshPromise.Some? {
        return refreshPromise.value;
      }
      fetches := fetches[f := Sent(cookie)];
      refreshPromise := Some(f);
      joined := f;
    }

    /** The response arrives: the browser stores or drops the cookie, the module its access token. */
    method OnRefreshResponse(f: FetchId)
      requires f in fetches && fetches[f].Answered?
      modifies this
      ensures forall auth, mine ::
                View() == RefreshClient.Next(World(auth, old(View()), mine), DeliverRefresh(f)).client
      ensures var reply := old(fetches)[f].reply;
              && activeAccessToken == reply.Granted?
              && cookie == (if reply.Granted? then Some(reply.token) else if reply.Denied? then None else old(cookie))
              && refreshPromise == old(refreshPromise) && requests == old(requests)
              && fetches == old(fetches)[f := Applied(reply.Granted?)]
    {
      var granted := false;
      match fetches[f].reply {
        case Granted(token) =>
          cookie := Some(token);
          granted := true;
        case Denied =>
          cookie := None;
        case Throttled =>
        case Failed =>
      }
      activeAccessToken := granted;
      fetches := fetches[f := Applied(granted)];
    }

    /** The promise's `finally`: clear the variable and wake the waiters. */
    method Settle(f: FetchId)
      requires f in fetches && fetches[f].Applied?
      modifies this
      ensures forall auth, mine :: View() == RefreshClient.Next(World(auth, old(View()), mine), SettlePromise(f)).client
      ensures refreshPromise.None? && f !in fetches && requests.Keys == old(requests).Keys
      ensures forall q :: q in requests && requests[q].AwaitingRefresh? ==> requests[q].fetch != f
      ensures forall q :: q in requests && requests[q] != old(requests)[q] ==>
                && old(requests)[q].AwaitingRefresh? && old(requests)[q].fetch == f
                && requests[q] == Resumed(old(requests)[q].sends, old(fetches)[f].granted)
    {
      refreshPromise := None;
      var granted := fetches[f].granted;
      requests := map q | q in requests ::
        if requests[q].AwaitingRefresh? && requests[q].fetch == f then Resumed(requests[q].sends, granted)
        else requests[q];
      fetches := fetches - {f};
    }

    /** `executeApiRequest`, up to its fetch. */
    method SendRequest(q: RequestId, fallback: bool, exempt: bool)
      requires q !in requests
      modifies this`requests
      ensures forall auth, mine ::
                View() == RefreshClient.Next(World(auth, old(View()), mine), Send(q, fallback, exempt)).client
      ensures q in requests && requests[q].InFlight? && requests[q].sends == 1
      ensures requests[q].mayRefresh <==> (activeAccessToken || fallback) && !exempt
      ensures forall r :: r in old(requests) ==> r in requests && requests[r] == old(requests)[r]
    {
      var token := activeAccessToken || fallback;
      requests := requests[q := InFlight(1, token && !exempt)];
    }

    /** `executeApiRequest`, from its response to the refresh or to its end. */
    method OnResponse(q: RequestId, unauthorized: bool, f: FetchId)
      requires q in requests && requests[q].InFlight? && f !in fetches
      modifies this
      ensures forall auth, mine ::
                View() == RefreshClient.Next(World(auth, old(View()), mine), Answer(q, unauthorized, f)).client
      ensures q in requests && (requests[q].AwaitingRefresh? <==> unauthorized && old(requests)[q].mayRefresh)
      ensures requests[q].AwaitingRefresh? ==>
                refreshPromise == Some(requests[q].fetch) && requests[q].sends == old(requests)[q].sends
      ensures !requests[q].AwaitingRefresh? ==>
                requests[q] == Finished(old(requests)[q].sends) && fetches == old(fetches)
      ensures forall r :: r in old(requests) && r != q ==> r in requests && requests[r] == old(requests)[r]
    {
      var r := requests[q];
      if unauthorized && r.mayRefresh {
        var joined := RefreshApiAccessToken(f);
        requests := requests[q := AwaitingRefresh(r.sends, joined)];
      } else {
        requests := requests[q := Finished(r.sends)];
      }
    }

    /** `executeApiRequest`, after the refresh: one more attempt, which may not refresh again. */
    method OnRefreshed(q: RequestId)
      requires q in requests && requests[q].Resumed?
      modifies this`requests
      ensures forall auth, mine :: View() == RefreshClient.Next(World(auth, old(View()), mine), Resume(q)).client
      ensures q in requests &&
          (requests[q].InFlight? ==> !requests[q].mayRefresh && requests[q].sends == old(requests)[q].sends + 1)
      ensures requests[q].InFlight? <==> old(requests)[q].granted
      ensures !old(requests)[q].granted ==> requests[q] == Finished(old(requests)[q].sends)
      ensures forall r :: r in old(requests) && r != q ==> r in requests && requests[r] == old(requests)[r]
    {
      var r := requests[q];
      requests := requests[q := if r.granted then InFlight(r.sends + 1, false) else Finished(r.sends)];
    }

    /** What the browser and the network do to the client's side outside this module. */
    method Surroundings(w: World, m: Move)
      requires View() == w.client && RefreshClient.Enabled(w, m)
      modifies this
      ensures View() == RefreshClient.Next(w, m).client
    {
      var c := RefreshClient.Next(w, m).client;
      cookie, activeAccessToken, refreshPromise := c.cookie, c.signedIn, c.promise;
      fetches, requests, logins, logouts := c.fetches, c.requests, c.logins, c.logouts;
    }

    /** One move: the module's own segments, or its surroundings. */
    method Perform(w: World, m: Move)
      requires View() == w.client && RefreshClient.Enabled(w, m)
      modifies this
      ensures View() == RefreshClient.Next(w, m).client
    {
      match m {
        case Send(q, fallback, exempt) => SendRequest(q, fallback, exempt);
        case Answer(q, unauthorized, f) => OnResponse(q, unauthorized, f);
        case StartRefresh(f) => var joined := RefreshApiAccessToken(f);
        case DeliverRefresh(f) => OnRefreshResponse(f);
        case SettlePromise(f) => Settle(f);
        case Resume(q) => OnRefreshed(q);
        case _ => Surroundings(w, m);
      }
    }

    /**
     The module driven through any run beside the server: it has never more than one refresh under
     way, the one in its variable, every waiter has it to wait for, and no request is sent more
     than twice.
     */
    method Drive(w: World, moves: seq<Move>)
      requires Start(w) && RefreshClient.IsRun(w, moves) && View() == w.client
      modifies this
      ensures View() == RefreshClient.Final(w, moves).client
      ensures fetches.Keys == if refreshPromise.Some? then {refreshPromise.value} else {}
      ensures forall q :: q in requests && requests[q].AwaitingRefresh? ==> refreshPromise == Some(requests[q].fetch)
      ensures forall q :: q in requests ==> requests[q].sends <= 2
    {
      DriveOn(w, moves);
      RunKeepsOk(w, moves);
    }

    method DriveOn(w: World, moves: seq<Move>)
      requires RefreshClient.IsRun(w, moves) && View() == w.client
      modifies this
      ensures View() == RefreshClient.Final(w, moves).client
      decreases |moves|
    {
      if moves != [] {
        Perform(w, moves[0]);
        DriveOn(RefreshClient.Next(w, moves[0]), moves[1..]);
      }
    }
  }
}
