/** The browser client's half of the session protocol (services/apiClient.ts, utils/storage.ts).

    The settling of one HTTP response, with the microtasks it triggers, is one step: the interceptor,
    the `finally` that clears the shared promise, and every continuation that awaited it.
 */
module SessionClient {
  import opened Wrappers
  import opened TokenStore

  /** An access token is named by the refresh-token row it was issued together with. */
  type AccessToken = nat

  datatype Response = Ok | Unauthorized | OtherFailure

  /** Joined: a 401 arrived and the request awaits the shared refresh. */
  datatype Phase = Sent | Joined | Resolved | Rejected

  datatype Request = Request(isAuthCall: bool, retried: bool, sends: nat, bearer: Option<AccessToken>, phase: Phase)

  /** `calls` lists the tokens posted to /auth/refresh, oldest first; `refreshPromise` is the position
      in it of the call that is still awaited; `waiters` are the requests awaiting it. */
  datatype Client = Client(
    access: Option<AccessToken>, refresh: Option<Token>,
    refreshPromise: Option<nat>, waiters: seq<nat>,
    requests: seq<Request>, calls: seq<Token>, logoutEvents: nat)

  const NEW_CLIENT := Client(None, None, None, [], [], [], 0)

  predicate InFlight(c: Client, id: nat) {
    id < |c.requests| && c.requests[id].phase == Sent
  }

  predicate WantsRefresh(r: Request, response: Response) {
    response == Unauthorized && !r.retried && !r.isAuthCall
  }

  // ---- the client's reactions as functions ----

  function Begin(c: Client, isAuthCall: bool): Client {
    c.(requests := c.requests + [Request(isAuthCall, false, 1, c.access, Sent)])
  }

  function SetTokens(c: Client, access: AccessToken, refresh: Token): Client {
    c.(access := Some(access), refresh := Some(refresh))
  }

  function ClearTokens(c: Client): Client {
    c.(access := None, refresh := None)
  }

  function OnResponse(c: Client, id: nat, response: Response): Client
    requires InFlight(c, id)
  {
    var r := c.requests[id];
    if response == Ok then c.(requests := c.requests[id := r.(phase := Resolved)])
    else if !WantsRefresh(r, response) then c.(requests := c.requests[id := r.(phase := Rejected)])
    else if c.refreshPromise.Some? then
      c.(requests := c.requests[id := r.(retried := true, phase := Joined)], waiters := c.waiters + [id])
    else if c.refresh.Some? then
      c.(requests := c.requests[id := r.(retried := true, phase := Joined)], waiters := [id],
         calls := c.calls + [c.refresh.value], refreshPromise := Some(|c.calls|))
    else
      ClearTokens(c).(requests := c.requests[id := r.(retried := true, phase := Rejected)],
                      logoutEvents := c.logoutEvents + 1)
  }

  function Resent(r: Request, access: AccessToken): Request {
    r.(sends := r.sends + 1, bearer := Some(access), phase := Sent)
  }

  function Woken(r: Request, reply: Option<(AccessToken, Token)>): Request {
    if reply.Some? then Resent(r, reply.value.0) else r.(phase := Rejected)
  }

  /** `reply` is None when the server refused or the response was lost. */
  function OnRefreshSettled(c: Client, reply: Option<(AccessToken, Token)>): Client {
    var woken := c.(refreshPromise := None, waiters := [],
      requests := seq(|c.requests|, i requires 0 <= i < |c.requests| =>
        if i in c.waiters then Woken(c.requests[i], reply) else c.requests[i]));
    if reply.Some? then SetTokens(woken, reply.value.0, reply.value.1)
    else ClearTokens(woken).(logoutEvents := c.logoutEvents + |c.waiters|)
  }

  /** What the client keeps about its own requests, whatever the server does. */
  ghost predicate RequestsOk(c: Client) {
    && (forall i, j | 0 <= i < j < |c.waiters| :: c.waiters[i] != c.waiters[j])
    && (forall w | w in c.waiters :: w < |c.requests| && c.requests[w].phase == Joined)
    && (forall i | 0 <= i < |c.requests| :: RequestOk(c.requests[i]))
    && (forall i | 0 <= i < |c.requests| && c.requests[i].phase == Joined :: i in c.waiters)
    && (c.refreshPromise.Some? <==> c.waiters != [])
    && (c.refreshPromise.Some? ==> c.refreshPromise.value == |c.calls| - 1)
  }

  ghost predicate RequestOk(r: Request) {
    && 1 <= r.sends <= 2
    && (!r.retried ==> r.sends == 1 && r.phase != Joined)
    && (r.isAuthCall ==> !r.retried)
    && (r.phase == Joined ==> r.sends == 1)
    && (r.phase == Sent && r.retried ==> r.sends == 2)
  }

  lemma ResponseKeepsRequestsOk(c: Client, id: nat, response: Response)
    requires RequestsOk(c) && InFlight(c, id)
    ensures RequestsOk(OnResponse(c, id, response))
  {
  }

  lemma SettlingKeepsRequestsOk(c: Client, reply: Option<(AccessToken, Token)>)
    requires RequestsOk(c) && c.refreshPromise.Some?
    ensures RequestsOk(OnRefreshSettled(c, reply))
  {
  }

  /** All requests that joined one refresh meet the same fate: all resent with the new token, or all rejected. */
  lemma JoinersShareTheOutcome(c: Client, reply: Option<(AccessToken, Token)>, id: nat)
    requires RequestsOk(c) && id < |c.requests| && c.requests[id].phase == Joined
    ensures var after := OnRefreshSettled(c, reply).requests[id];
      if reply.Some? then after.phase == Sent && after.bearer == Some(reply.value.0) && after.sends == 2
      else after.phase == Rejected && after.sends == 1
  {
  }

  // ---- the module as it is written: a storage cell, a shared promise, interceptors ----

  class TokenStorage {
    var access: Option<AccessToken>
    var refresh: Option<Token>

    constructor ()
      ensures access == None && refresh == None
    {
      access, refresh := None, None;
    }

    method Set(access: AccessToken, refresh: Option<Token>)
      modifies this
      ensures this.access == Some(access)
      ensures this.refresh == if refresh.Some? then refresh else old(this.refresh)
    {
      this.access := Some(access);
      if refresh.Some? {
        this.refresh := refresh;
      }
    }

    method Clear()
      modifies this
      ensures access == None && refresh == None
    {
      access, refresh := None, None;
    }
  }

  class ApiClient {
    const storage: TokenStorage
    var refreshPromise: Option<nat>
    var waiters: seq<nat>
    var requests: seq<Request>
    var calls: seq<Token>
    var logoutEvents: nat

    constructor (storage: TokenStorage)
      ensures this.storage == storage
      ensures View() == NEW_CLIENT.(access := storage.access, refresh := storage.refresh) && RequestsOk(View())
    {
      this.storage := storage;
      refreshPromise, waiters, requests, calls, logoutEvents := None, [], [], [], 0;
    }

    function View(): Client
      reads this, storage
    {
      Client(storage.access, storage.refresh, refreshPromise, waiters, requests, calls, logoutEvents)
    }

    method Send(isAuthCall: bool)
      requires RequestsOk(View())
      modifies this
      ensures View() == Begin(old(View()), isAuthCall)
      ensures RequestsOk(View())
    {
      var bearer := storage.access;
      requests := requests + [Request(isAuthCall, false, 1, bearer, Sent)];
    }

    /** `refreshAccessToken`: starts a call when a refresh token is stored, else yields null at once. */
    method RefreshAccessToken() returns (call: Option<nat>)
      modifies this
      ensures storage.refresh.None? ==> call.None? && View() == old(View())
      ensures storage.refresh.Some? ==>
        call == Some(|old(calls)|) && View() == old(View()).(calls := old(calls) + [storage.refresh.value])
    {
      call := None;
      if storage.refresh.Some? {
        call := Some(|calls|);
        calls := calls + [storage.refresh.value];
      }
    }

    method HandleResponse(id: nat, response: Response)
      requires RequestsOk(View()) && InFlight(View(), id)
      modifies this, storage
      ensures View() == OnResponse(old(View()), id, response)
      ensures RequestsOk(View())
    {
      ResponseKeepsRequestsOk(View(), id, response);
      var original := requests[id];
      if response == Ok {
        requests := requests[id := original.(phase := Resolved)];
        return;
      }
      if response == Unauthorized && !original.retried && !original.isAuthCall {
        original := original.(retried := true);
        if refreshPromise.None? {
          refreshPromise := RefreshAccessToken();
          if refreshPromise.Some? {
            waiters := [];
          }
        }
        if refreshPromise.Some? {
          waiters := waiters + [id];
          requests := requests[id := original.(phase := Joined)];
          return;
        }
        storage.Clear();
        logoutEvents := logoutEvents + 1;
      }
      requests := requests[id := original.(phase := Rejected)];
    }

    /** What a request that awaited the refresh does when it is woken. */
    method Continue(id: nat, reply: Option<(AccessToken, Token)>)
      requires id < |requests|
      modifies this`requests, this`logoutEvents, storage
      ensures requests == old(requests)[id := Woken(old(requests)[id], reply)]
      ensures logoutEvents == old(logoutEvents) + if reply.Some? then 0 else 1
      ensures storage.access == if reply.Some? then old(storage.access) else None
      ensures storage.refresh == if reply.Some? then old(storage.refresh) else None
    {
      if reply.Some? {
        requests := requests[id := Resent(requests[id], reply.value.0)];
      } else {
        storage.Clear();
        logoutEvents := logoutEvents + 1;
        requests := requests[id := requests[id].(phase := Rejected)];
      }
    }

    method HandleRefreshSettled(reply: Option<(AccessToken, Token)>)
      requires RequestsOk(View()) && refreshPromise.Some?
      modifies this, storage
      ensures View() == OnRefreshSettled(old(View()), reply)
      ensures RequestsOk(View())
      ensures reply.Some? ==>
        && storage.access == Some(reply.value.0) && storage.refresh == Some(reply.value.1)
        && logoutEvents == old(logoutEvents)
      ensures reply.None? ==>
        storage.access == None && storage.refresh == None && logoutEvents == old(logoutEvents) + |old(waiters)|
    {
      ghost var before := View();
      if reply.Some? {
        storage.Set(reply.value.0, Some(reply.value.1));
      }
      refreshPromise := None;
      var k := 0;
      while k < |waiters|
        invariant 0 <= k <= |waiters| && waiters == old(waiters) && calls == old(calls) && refreshPromise == None
        invariant |requests| == |old(requests)|
        invariant forall i | 0 <= i < |requests| && i !in waiters[..k] :: requests[i] == old(requests)[i]
        invariant forall i | 0 <= i < |requests| && i in waiters[..k] ::
          requests[i] == Woken(old(requests)[i], reply)
        invariant reply.Some? ==> storage.access == Some(reply.value.0) && storage.refresh == Some(reply.value.1)
        invariant reply.None? && k == 0 ==>
          storage.access == old(storage.access) && storage.refresh == old(storage.refresh)
        invariant reply.None? && k > 0 ==> storage.access == None && storage.refresh == None
        invariant logoutEvents == old(logoutEvents) + if reply.Some? then 0 else k
      {
        var id := waiters[k];
        assert id in waiters && id !in waiters[..k];
        assert waiters[..k + 1] == waiters[..k] + [id];
        Continue(id, reply);
        k := k + 1;
      }
      assert waiters[..|waiters|] == waiters;
      waiters := [];
      SettlingKeepsRequestsOk(before, reply);
      assert requests == OnRefreshSettled(before, reply).requests;
    }
  }
}
