/** Client and server together: every interleaving of requests, refresh calls, lost responses,
    logins, logouts (services/authService.ts) and other parties' use of the token table.
 */
module SessionProtocol {
  import opened Wrappers
  import opened SessionClient
  import Tokens = TokenStore

  /** Has the server taken a refresh call, and did it issue a token for it? */
  datatype Answer = Travelling | Answered(issued: Option<Tokens.Token>)

  /** `answers` runs parallel to the client's `calls`; `awaited` holds the calls sent and not yet settled
      at the client.  `logouts` are the tokens posted to /auth/logout, and `leaving` counts the logouts that
      have not cleared the storage yet.

      The rest is bookkeeping that no code reads: the rows issued to this client, the rows that another party's
      operation revoked, the rows that this client's logouts revoked, the rows presented in calls that the server
      took for theft, in order, and for each row revoked in answer to one of those, which one it was. */
  datatype World = World(
    client: Client, answers: seq<Answer>, awaited: set<nat>, logouts: seq<Tokens.Token>, leaving: nat,
    server: Tokens.Store,
    minted: set<nat>, revokedByOthers: set<nat>, revokedByLogout: set<nat>,
    alarms: seq<nat>, revokedByAlarm: map<nat, nat>)

  datatype Step =
    | Start(isAuthCall: bool)
    | Respond(id: nat, response: Response)
    | ServerTakes(call: nat, secret: string, now: int, ttl: int)
    | Settle(lost: bool)
    | Login(userId: string, secret: string, expiresAt: int)
    | BeginLogout
    | ServerLogsOut(logout: nat, now: int)
    | EndLogout
    | DropTokens
    | Elsewhere(op: Tokens.Op)

  function Initial(server: Tokens.Store): World {
    World(NEW_CLIENT, [], {}, [], 0, server, {}, {}, {}, [], map[])
  }

  predicate Enabled(w: World, step: Step) {
    match step
    case Respond(id, _) => InFlight(w.client, id)
    case ServerTakes(call, _, _, _) =>
      call < |w.client.calls| && call < |w.answers| && w.answers[call] == Travelling
    case Settle(lost) =>
      && w.client.refreshPromise.Some?
      && (lost || (w.client.refreshPromise.value < |w.answers| && w.answers[w.client.refreshPromise.value].Answered?))
    case ServerLogsOut(logout, _) => logout < |w.logouts|
    case EndLogout => w.leaving > 0
    case _ => true
  }

  /** The network picks up a call the client has just posted. */
  function AfterResponse(w: World, c: Client): World {
    if |c.calls| > |w.client.calls| then
      w.(client := c, answers := w.answers + [Travelling], awaited := w.awaited + {|w.client.calls|})
    else w.(client := c)
  }

  /** The access token named after the row it came with, and the refresh token itself. */
  function Pair(token: Tokens.Token): (AccessToken, Tokens.Token)
    requires token.rowId.Some?
  {
    (token.rowId.value, token)
  }

  function Reply(w: World, lost: bool): Option<(AccessToken, Tokens.Token)>
    requires Enabled(w, Settle(lost))
  {
    if lost then None
    else
      var issued := w.answers[w.client.refreshPromise.value].issued;
      if issued.Some? && issued.value.rowId.Some? then Some(Pair(issued.value)) else None
  }

  function NewlyRevoked(s: Tokens.Store, t: Tokens.Store): set<nat> {
    set i | 0 <= i < |s.rows| && i < |t.rows| && s.rows[i].revokedAt.None? && t.rows[i].revokedAt.Some?
  }

  function ServerStep(w: World, call: nat, secret: string, now: int, ttl: int): World
    requires Enabled(w, ServerTakes(call, secret, now, ttl))
  {
    var token := w.client.calls[call];
    var (server, issued) := Tokens.RotateRefreshToken(w.server, token, secret, now, ttl);
    var answered := w.(server := server, answers := w.answers[call := Answered(issued)],
                       minted := if issued.Some? then w.minted + {|w.server.rows|} else w.minted);
    if Tokens.Examine(w.server, token, now) == Tokens.Reused then
      answered.(alarms := w.alarms + [token.rowId.value],
                revokedByAlarm := (map row | row in NewlyRevoked(w.server, server) :: |w.alarms|) + w.revokedByAlarm)
    else answered
  }

  /** A logout posts the stored token, if there is one, and clears the storage once the post has settled,
      however it settled.  The server may take the post at any time, or never. */
  function LogoutStep(w: World): World {
    if w.client.refresh.None? then w.(client := ClearTokens(w.client))
    else w.(logouts := w.logouts + [w.client.refresh.value], leaving := w.leaving + 1)
  }

  /** A step that is not enabled leaves the world as it is. */
  function Next(w: World, step: Step): World {
    if !Enabled(w, step) then w
    else match step
      case Start(isAuthCall) => w.(client := Begin(w.client, isAuthCall))
      case Respond(id, response) => AfterResponse(w, OnResponse(w.client, id, response))
      case ServerTakes(call, secret, now, ttl) => ServerStep(w, call, secret, now, ttl)
      case Settle(lost) =>
        w.(client := OnRefreshSettled(w.client, Reply(w, lost)),
           awaited := w.awaited - {w.client.refreshPromise.value})
      case Login(userId, secret, expiresAt) =>
        var (server, token) := Tokens.CreateRefreshToken(w.server, userId, secret, expiresAt);
        w.(server := server, client := SetTokens(w.client, |w.server.rows|, token),
           minted := w.minted + {|w.server.rows|})
      case BeginLogout => LogoutStep(w)
      case ServerLogsOut(logout, now) =>
        var server := Tokens.RevokeRefreshToken(w.server, w.logouts[logout], now);
        w.(server := server, revokedByLogout := w.revokedByLogout + NewlyRevoked(w.server, server))
      case EndLogout => w.(client := ClearTokens(w.client), leaving := w.leaving - 1)
      case DropTokens => w.(client := ClearTokens(w.client))
      case Elsewhere(op) =>
        var server := Tokens.Apply(w.server, op);
        w.(server := server, revokedByOthers := w.revokedByOthers + NewlyRevoked(w.server, server))
  }

  function Run(w: World, steps: seq<Step>): World
    decreases |steps|
  {
    if steps == [] then w else Run(Next(w, steps[0]), steps[1..])
  }

  // ---- the invariant ----

  predicate IsCallOf(c: Client, k: nat, row: nat) {
    k < |c.calls| && c.calls[k].rowId == Some(row)
  }

  /** The rows whose tokens this client has posted to /auth/logout. */
  function LogoutRows(w: World): set<nat> {
    RowsOf(w.logouts)
  }

  function RowsOf(tokens: seq<Tokens.Token>): set<nat> {
    if tokens == [] then {}
    else
      var last := tokens[|tokens| - 1];
      RowsOf(tokens[..|tokens| - 1]) + if last.rowId.Some? then {last.rowId.value} else {}
  }

  lemma {:induction false} RowOfToken(tokens: seq<Tokens.Token>, k: nat)
    requires k < |tokens| && tokens[k].rowId.Some?
    ensures tokens[k].rowId.value in RowsOf(tokens)
  {
    if k < |tokens| - 1 {
      RowOfToken(tokens[..|tokens| - 1], k);
    }
  }

  lemma RowsAfterAppend(tokens: seq<Tokens.Token>, token: Tokens.Token)
    requires token.rowId.Some?
    ensures RowsOf(tokens + [token]) == RowsOf(tokens) + {token.rowId.value}
  {
    assert (tokens + [token])[..|tokens|] == tokens;
  }

  ghost predicate Presented(c: Client, row: nat) {
    exists k: nat :: IsCallOf(c, k, row)
  }

  predicate IsRevoked(s: Tokens.Store, row: nat) {
    row < |s.rows| && s.rows[row].revokedAt.Some?
  }

  /** Calls present pairwise different rows, all of them issued to this client; logouts too are for its own rows. */
  ghost predicate CallsOk(w: World) {
    && |w.answers| == |w.client.calls|
    && (forall m | m in w.minted :: m < |w.server.rows|)
    && (forall i | 0 <= i < |w.client.calls| ::
          w.client.calls[i].rowId.Some? && w.client.calls[i].rowId.value in w.minted)
    && (forall i, j | 0 <= i < j < |w.client.calls| :: w.client.calls[i].rowId != w.client.calls[j].rowId)
    && (forall k | 0 <= k < |w.logouts| :: w.logouts[k].rowId.Some? && w.logouts[k].rowId.value in w.minted)
  }

  /** A stored token has been presented only if that very call is the one being awaited. */
  ghost predicate StorageOk(w: World) {
    w.client.refresh.Some? ==>
      && w.client.refresh.value.rowId.Some?
      && w.client.refresh.value.rowId.value in w.minted
      && forall k: nat | IsCallOf(w.client, k, w.client.refresh.value.rowId.value) :: w.client.refreshPromise == Some(k)
  }

  /** What is about to be delivered to the awaited call has never been presented. */
  ghost predicate FlightOk(w: World) {
    && w.awaited == (if w.client.refreshPromise.Some? then {w.client.refreshPromise.value} else {})
    && (w.client.refreshPromise.Some? && w.client.refreshPromise.value < |w.answers| ==>
          var answer := w.answers[w.client.refreshPromise.value];
          answer.Answered? && answer.issued.Some? ==>
            && answer.issued.value.rowId.Some?
            && answer.issued.value.rowId.value in w.minted
            && forall k: nat :: !IsCallOf(w.client, k, answer.issued.value.rowId.value))
  }

  ghost predicate SpentByCall(w: World, row: nat) {
    exists k: nat :: IsCallOf(w.client, k, row) && k < |w.answers| && w.answers[k].Answered?
  }

  /** Why a row of this client may be revoked. */
  ghost predicate Accounted(w: World, row: nat) {
    row in w.revokedByOthers || row in w.revokedByAlarm || row in w.revokedByLogout || SpentByCall(w, row)
  }

  /** Every revoked row of this client is accounted for.  What is noted as revoked is revoked, and what a logout
      revoked was posted to one and revoked by nobody else. */
  ghost predicate RevokedOk(w: World) {
    && (forall row | row in w.minted && IsRevoked(w.server, row) :: Accounted(w, row))
    && (forall row | row in w.revokedByOthers || row in w.revokedByAlarm || row in w.revokedByLogout ::
          IsRevoked(w.server, row))
    && w.revokedByLogout <= LogoutRows(w)
    && (forall row | row in w.revokedByLogout :: row !in w.revokedByOthers && row !in w.revokedByAlarm)
  }

  /** The row presented at the i-th alarm was revoked by another party, by an earlier alarm, or by a logout of
      this client. */
  predicate AlarmExplained(w: World, i: nat)
    requires i < |w.alarms|
  {
    var row := w.alarms[i];
    row in w.revokedByOthers || (row in w.revokedByAlarm && w.revokedByAlarm[row] < i) || row in w.revokedByLogout
  }

  ghost predicate AlarmsOk(w: World) {
    && (forall i: nat | i < |w.alarms| :: AlarmExplained(w, i))
    && (forall i | 0 <= i < |w.alarms| :: Presented(w.client, w.alarms[i]))
    && (forall row | row in w.revokedByAlarm :: w.revokedByAlarm[row] < |w.alarms|)
  }

  ghost predicate Inv(w: World) {
    RequestsOk(w.client) && CallsOk(w) && StorageOk(w) && FlightOk(w) && RevokedOk(w) && AlarmsOk(w)
  }

  lemma InitialInv(server: Tokens.Store)
    ensures Inv(Initial(server))
  {
  }

  // ---- revoked rows ----

  /** What has been noted stays noted, and calls and answers stay. */
  ghost predicate Later(w: World, w': World) {
    && w.revokedByOthers <= w'.revokedByOthers && w.revokedByLogout <= w'.revokedByLogout
    && LogoutRows(w) <= LogoutRows(w')
    && (forall row | row in w.revokedByAlarm ::
          row in w'.revokedByAlarm && w'.revokedByAlarm[row] == w.revokedByAlarm[row])
    && (forall k: nat, row: nat | IsCallOf(w.client, k, row) :: IsCallOf(w'.client, k, row))
    && |w.answers| <= |w'.answers|
    && (forall k | 0 <= k < |w.answers| && w.answers[k].Answered? :: w'.answers[k].Answered?)
    && Tokens.Extends(w.server, w'.server)
  }

  lemma AccountsCarryOver(w: World, w': World, row: nat)
    requires Later(w, w') && Accounted(w, row)
    ensures Accounted(w', row)
  {
    if SpentByCall(w, row) {
      var k: nat :| IsCallOf(w.client, k, row) && k < |w.answers| && w.answers[k].Answered?;
      assert IsCallOf(w'.client, k, row);
    }
  }

  /** A step keeps the accounts if it accounts for the rows it revokes and notes nothing it does not revoke. */
  lemma AccountsAreKept(w: World, w': World)
    requires RevokedOk(w) && Later(w, w')
    requires forall row | row in w'.minted && IsRevoked(w'.server, row) ::
      (row in w.minted && IsRevoked(w.server, row)) || Accounted(w', row)
    requires forall row | row in w'.revokedByOthers && row !in w.revokedByOthers ::
      IsRevoked(w'.server, row) && !IsRevoked(w.server, row) && row !in w'.revokedByLogout
    requires forall row | row in w'.revokedByAlarm && row !in w.revokedByAlarm ::
      IsRevoked(w'.server, row) && !IsRevoked(w.server, row) && row !in w'.revokedByLogout
    requires forall row | row in w'.revokedByLogout && row !in w.revokedByLogout ::
      IsRevoked(w'.server, row) && !IsRevoked(w.server, row) && row in LogoutRows(w')
    ensures RevokedOk(w')
  {
    forall row | row in w'.minted && IsRevoked(w'.server, row) ensures Accounted(w', row) {
      if row in w.minted && IsRevoked(w.server, row) {
        AccountsCarryOver(w, w', row);
      }
    }
  }

  lemma AlarmsAreKept(w: World, w': World)
    requires AlarmsOk(w) && Later(w, w') && w'.alarms == w.alarms && w'.revokedByAlarm == w.revokedByAlarm
    ensures AlarmsOk(w')
  {
    forall i: nat | i < |w'.alarms| ensures AlarmExplained(w', i) {
      assert AlarmExplained(w, i);
    }
    forall i | 0 <= i < |w'.alarms| ensures Presented(w'.client, w'.alarms[i]) {
      assert Presented(w.client, w.alarms[i]);
      var k: nat :| IsCallOf(w.client, k, w.alarms[i]);
      assert IsCallOf(w'.client, k, w'.alarms[i]);
    }
  }

  lemma OneMoreAlarm(w: World, w': World, row: nat)
    requires AlarmsOk(w) && Later(w, w') && w'.alarms == w.alarms + [row] && Presented(w'.client, row)
    requires row in w.revokedByOthers || row in w.revokedByAlarm || row in w.revokedByLogout
    requires forall r | r in w'.revokedByAlarm :: r in w.revokedByAlarm || w'.revokedByAlarm[r] == |w.alarms|
    ensures AlarmsOk(w')
  {
    forall i: nat | i < |w'.alarms| ensures AlarmExplained(w', i) && Presented(w'.client, w'.alarms[i]) {
      if i < |w.alarms| {
        assert AlarmExplained(w, i) && Presented(w.client, w.alarms[i]);
        var k: nat :| IsCallOf(w.client, k, w.alarms[i]);
        assert IsCallOf(w'.client, k, w.alarms[i]);
      }
    }
  }

  // ---- the client's steps ----

  /** A 401 that starts a refresh: the call presents the stored token for the first time. */
  lemma NewCallKeepsInv(w: World, id: nat, response: Response)
    requires Inv(w) && Enabled(w, Respond(id, response))
    requires |OnResponse(w.client, id, response).calls| > |w.client.calls|
    ensures CallsOk(Next(w, Respond(id, response)))
    ensures StorageOk(Next(w, Respond(id, response)))
    ensures FlightOk(Next(w, Respond(id, response)))
  {
    var w' := Next(w, Respond(id, response));
    var row := w.client.refresh.value.rowId.value;
    forall k | 0 <= k < |w.client.calls| ensures w.client.calls[k].rowId != Some(row) {
      assert w.client.calls[k].rowId == Some(row) ==> IsCallOf(w.client, k, row);
    }
    assert forall k: nat :: IsCallOf(w'.client, k, row) ==> k == |w.client.calls|;
  }

  lemma RespondKeepsInv(w: World, id: nat, response: Response)
    requires Inv(w) && Enabled(w, Respond(id, response))
    ensures Inv(Next(w, Respond(id, response)))
  {
    ResponseKeepsRequestsOk(w.client, id, response);
    var w' := Next(w, Respond(id, response));
    AccountsAreKept(w, w');
    AlarmsAreKept(w, w');
    if |w'.client.calls| > |w.client.calls| {
      NewCallKeepsInv(w, id, response);
    } else {
      SameCallsKeepFlight(w, w');
    }
  }

  lemma SameCallsKeepFlight(w: World, w': World)
    requires CallsOk(w) && StorageOk(w) && FlightOk(w)
    requires w'.client.calls == w.client.calls && w'.client.refreshPromise == w.client.refreshPromise
    requires w'.client.refresh.Some? ==> w'.client.refresh == w.client.refresh
    requires w'.answers == w.answers && w'.awaited == w.awaited
    requires |w'.server.rows| >= |w.server.rows| && w'.minted == w.minted && w'.logouts == w.logouts
    ensures CallsOk(w') && StorageOk(w') && FlightOk(w')
  {
    assert forall k: nat, row: nat :: IsCallOf(w'.client, k, row) <==> IsCallOf(w.client, k, row);
  }

  lemma SettleKeepsInv(w: World, lost: bool)
    requires Inv(w) && Enabled(w, Settle(lost))
    ensures Inv(Next(w, Settle(lost)))
  {
    SettlingKeepsRequestsOk(w.client, Reply(w, lost));
    var w' := Next(w, Settle(lost));
    assert forall k: nat, row: nat :: IsCallOf(w'.client, k, row) <==> IsCallOf(w.client, k, row);
    AccountsAreKept(w, w');
    AlarmsAreKept(w, w');
  }

  lemma LoginKeepsInv(w: World, userId: string, secret: string, expiresAt: int)
    requires Inv(w)
    ensures Inv(Next(w, Login(userId, secret, expiresAt)))
  {
    var w' := Next(w, Login(userId, secret, expiresAt));
    assert forall k: nat, row: nat :: IsCallOf(w'.client, k, row) <==> IsCallOf(w.client, k, row);
    AccountsAreKept(w, w');
    AlarmsAreKept(w, w');
  }

  lemma LogoutKeepsInv(w: World)
    requires Inv(w)
    ensures Inv(Next(w, BeginLogout))
  {
    var w' := Next(w, BeginLogout);
    assert forall k: nat, row: nat :: IsCallOf(w'.client, k, row) <==> IsCallOf(w.client, k, row);
    if w.client.refresh.Some? {
      RowsAfterAppend(w.logouts, w.client.refresh.value);
    }
    AccountsAreKept(w, w');
    AlarmsAreKept(w, w');
  }

  /** Starting a request, clearing the storage: nothing but the client's requests and storage is touched. */
  lemma QuietStepKeepsInv(w: World, step: Step)
    requires Inv(w) && Enabled(w, step) && (step.Start? || step.EndLogout? || step.DropTokens?)
    ensures Inv(Next(w, step))
  {
    var w' := Next(w, step);
    assert forall k: nat, row: nat :: IsCallOf(w'.client, k, row) <==> IsCallOf(w.client, k, row);
    SameCallsKeepFlight(w, w');
    AccountsAreKept(w, w');
    AlarmsAreKept(w, w');
  }

  // ---- the server's steps ----

  /** A row that the server meets already revoked was not spent by another call of this client. */
  lemma ReusedRowIsAccounted(w: World, call: nat, now: int)
    requires Inv(w) && call < |w.client.calls| && w.answers[call] == Travelling
    requires Tokens.Examine(w.server, w.client.calls[call], now) == Tokens.Reused
    ensures var row := w.client.calls[call].rowId.value;
      row in w.revokedByOthers || row in w.revokedByAlarm || row in w.revokedByLogout
  {
    assert Accounted(w, w.client.calls[call].rowId.value);
  }

  /** Taking a call makes it answered, spends at most its own row, and raises the alarm if that was revoked. */
  lemma ServerStepIsLater(w: World, call: nat, secret: string, now: int, ttl: int)
    requires Inv(w) && Enabled(w, ServerTakes(call, secret, now, ttl))
    ensures Later(w, ServerStep(w, call, secret, now, ttl))
    ensures var row := w.client.calls[call].rowId.value;
      SpentByCall(ServerStep(w, call, secret, now, ttl), row)
  {
    var w' := ServerStep(w, call, secret, now, ttl);
    assert IsCallOf(w'.client, call, w.client.calls[call].rowId.value) && w'.answers[call].Answered?;
  }

  lemma ServerKeepsRevoked(w: World, call: nat, secret: string, now: int, ttl: int)
    requires Inv(w) && Enabled(w, ServerTakes(call, secret, now, ttl))
    ensures RevokedOk(ServerStep(w, call, secret, now, ttl))
  {
    ServerStepIsLater(w, call, secret, now, ttl);
    AccountsAreKept(w, ServerStep(w, call, secret, now, ttl));
  }

  lemma ServerKeepsAlarms(w: World, call: nat, secret: string, now: int, ttl: int)
    requires Inv(w) && Enabled(w, ServerTakes(call, secret, now, ttl))
    ensures AlarmsOk(ServerStep(w, call, secret, now, ttl))
  {
    var w' := ServerStep(w, call, secret, now, ttl);
    ServerStepIsLater(w, call, secret, now, ttl);
    if Tokens.Examine(w.server, w.client.calls[call], now) == Tokens.Reused {
      ReusedRowIsAccounted(w, call, now);
      var row := w.client.calls[call].rowId.value;
      assert IsCallOf(w'.client, call, row);
      OneMoreAlarm(w, w', row);
    } else {
      AlarmsAreKept(w, w');
    }
  }

  lemma ServerKeepsFlight(w: World, call: nat, secret: string, now: int, ttl: int)
    requires Inv(w) && Enabled(w, ServerTakes(call, secret, now, ttl))
    ensures var w' := ServerStep(w, call, secret, now, ttl);
      CallsOk(w') && StorageOk(w') && FlightOk(w')
  {
  }

  lemma ServerKeepsInv(w: World, call: nat, secret: string, now: int, ttl: int)
    requires Inv(w) && Enabled(w, ServerTakes(call, secret, now, ttl))
    ensures Inv(Next(w, ServerTakes(call, secret, now, ttl)))
  {
    assert Next(w, ServerTakes(call, secret, now, ttl)) == ServerStep(w, call, secret, now, ttl);
    ServerKeepsFlight(w, call, secret, now, ttl);
    ServerKeepsRevoked(w, call, secret, now, ttl);
    ServerKeepsAlarms(w, call, secret, now, ttl);
  }

  lemma ServerLogsOutKeepsInv(w: World, logout: nat, now: int)
    requires Inv(w) && Enabled(w, ServerLogsOut(logout, now))
    ensures Inv(Next(w, ServerLogsOut(logout, now)))
  {
    var w' := Next(w, ServerLogsOut(logout, now));
    RowOfToken(w.logouts, logout);
    SameCallsKeepFlight(w, w');
    AccountsAreKept(w, w');
    AlarmsAreKept(w, w');
  }

  lemma ElsewhereKeepsInv(w: World, op: Tokens.Op)
    requires Inv(w)
    ensures Inv(Next(w, Elsewhere(op)))
  {
    var w' := Next(w, Elsewhere(op));
    Tokens.RevocationIsPermanent(w.server, [op]);
    assert Tokens.Run(w.server, [op]) == w'.server;
    SameCallsKeepFlight(w, w');
    forall row | row in w'.minted && IsRevoked(w'.server, row)
      ensures IsRevoked(w.server, row) || Accounted(w', row)
    {
      assert IsRevoked(w.server, row) || row in NewlyRevoked(w.server, w'.server);
    }
    AccountsAreKept(w, w');
    AlarmsAreKept(w, w');
  }

  lemma StepKeepsInv(w: World, step: Step)
    requires Inv(w)
    ensures Inv(Next(w, step))
  {
    if Enabled(w, step) {
      match step
      case Respond(id, response) => RespondKeepsInv(w, id, response);
      case ServerTakes(call, secret, now, ttl) => ServerKeepsInv(w, call, secret, now, ttl);
      case Settle(lost) => SettleKeepsInv(w, lost);
      case Login(userId, secret, expiresAt) => LoginKeepsInv(w, userId, secret, expiresAt);
      case BeginLogout => LogoutKeepsInv(w);
      case ServerLogsOut(logout, now) => ServerLogsOutKeepsInv(w, logout, now);
      case Elsewhere(op) => ElsewhereKeepsInv(w, op);
      case _ => QuietStepKeepsInv(w, step);
    }
  }

  lemma {:induction false} RunKeepsInv(w: World, steps: seq<Step>)
    requires Inv(w)
    ensures Inv(Run(w, steps))
    decreases |steps|
  {
    if steps != [] {
      StepKeepsInv(w, steps[0]);
      RunKeepsInv(Next(w, steps[0]), steps[1..]);
    }
  }

  // ---- what every interleaving keeps ----

  lemma AtMostOneRefreshInFlight(server: Tokens.Store, steps: seq<Step>)
    ensures |Run(Initial(server), steps).awaited| <= 1
  {
    InitialInv(server);
    RunKeepsInv(Initial(server), steps);
  }

  lemma NoRefreshTokenSentTwice(server: Tokens.Store, steps: seq<Step>)
    ensures var calls := Run(Initial(server), steps).client.calls;
      forall i, j | 0 <= i < j < |calls| :: calls[i] != calls[j] && calls[i].rowId != calls[j].rowId
  {
    InitialInv(server);
    RunKeepsInv(Initial(server), steps);
  }

  lemma TransmittedAtMostTwice(server: Tokens.Store, steps: seq<Step>)
    ensures var requests := Run(Initial(server), steps).client.requests;
      forall i | 0 <= i < |requests| ::
        1 <= requests[i].sends <= 2 && (requests[i].sends == 2 ==> requests[i].retried && !requests[i].isAuthCall)
  {
    InitialInv(server);
    RunKeepsInv(Initial(server), steps);
  }

  // ---- every request settles ----

  function Weight(r: Request): nat {
    match r.phase
    case Sent => if r.retried then 1 else 4
    case Joined => 2
    case _ => 0
  }

  function TotalWeight(requests: seq<Request>): nat {
    if requests == [] then 0 else TotalWeight(requests[..|requests| - 1]) + Weight(requests[|requests| - 1])
  }

  function Untaken(answers: seq<Answer>): nat {
    if answers == [] then 0
    else Untaken(answers[..|answers| - 1]) + if answers[|answers| - 1] == Travelling then 1 else 0
  }

  /** Work left: pending requests by how far they have got, and refresh calls the server has not taken. */
  function Measure(w: World): nat {
    TotalWeight(w.client.requests) + Untaken(w.answers)
  }

  /** A step by which the network makes progress, as opposed to someone starting something new. */
  predicate IsNetworkStep(step: Step) {
    step.Respond? || step.Settle? || step.ServerTakes?
  }

  lemma {:induction false} WeightOfUpdate(requests: seq<Request>, id: nat, r: Request)
    requires id < |requests|
    ensures TotalWeight(requests[id := r]) + Weight(requests[id]) == TotalWeight(requests) + Weight(r)
  {
    var last := |requests| - 1;
    if id < last {
      WeightOfUpdate(requests[..last], id, r);
      assert requests[id := r][..last] == requests[..last][id := r];
    } else {
      assert requests[id := r][..last] == requests[..last];
    }
  }

  lemma {:induction false} LighterRequests(before: seq<Request>, after: seq<Request>)
    requires |before| == |after|
    requires forall i | 0 <= i < |before| :: Weight(after[i]) <= Weight(before[i])
    ensures TotalWeight(after) <= TotalWeight(before)
    ensures (exists i :: 0 <= i < |before| && Weight(after[i]) < Weight(before[i])) ==>
      TotalWeight(after) < TotalWeight(before)
  {
    if before != [] {
      var last := |before| - 1;
      LighterRequests(before[..last], after[..last]);
      if i :| 0 <= i < |before| && Weight(after[i]) < Weight(before[i]) && i < last {
        assert Weight(after[..last][i]) < Weight(before[..last][i]);
      }
    }
  }

  lemma {:induction false} TakingOne(answers: seq<Answer>, k: nat, answer: Answer)
    requires k < |answers| && answers[k] == Travelling && answer != Travelling
    ensures Untaken(answers[k := answer]) + 1 == Untaken(answers)
  {
    var last := |answers| - 1;
    if k < last {
      TakingOne(answers[..last], k, answer);
      assert answers[k := answer][..last] == answers[..last][k := answer];
    } else {
      assert answers[k := answer][..last] == answers[..last];
    }
  }

  lemma ResponseMakesProgress(w: World, id: nat, response: Response)
    requires Inv(w) && Enabled(w, Respond(id, response))
    ensures Measure(Next(w, Respond(id, response))) < Measure(w)
  {
    var w' := Next(w, Respond(id, response));
    var after := w'.client.requests[id];
    WeightOfUpdate(w.client.requests, id, after);
    assert w'.client.requests == w.client.requests[id := after];
    if w'.answers != w.answers {
      assert w'.answers[..|w'.answers| - 1] == w.answers;
    }
  }

  lemma SettlingMakesProgress(w: World, lost: bool)
    requires Inv(w) && Enabled(w, Settle(lost))
    ensures Measure(Next(w, Settle(lost))) < Measure(w)
  {
    var before, after := w.client.requests, Next(w, Settle(lost)).client.requests;
    forall i | 0 <= i < |before|
      ensures Weight(after[i]) <= Weight(before[i])
      ensures i in w.client.waiters ==> Weight(after[i]) < Weight(before[i])
    {
    }
    assert w.client.waiters[0] in w.client.waiters;
    LighterRequests(before, after);
  }

  lemma NetworkStepsMakeProgress(w: World, step: Step)
    requires Inv(w) && Enabled(w, step) && IsNetworkStep(step)
    ensures Measure(Next(w, step)) < Measure(w)
  {
    if step.Respond? {
      ResponseMakesProgress(w, step.id, step.response);
    } else if step.Settle? {
      SettlingMakesProgress(w, step.lost);
    } else {
      TakingOne(w.answers, step.call, Next(w, step).answers[step.call]);
    }
  }

  ghost predicate AllEnabled(w: World, steps: seq<Step>)
    decreases |steps|
  {
    steps == [] || (Enabled(w, steps[0]) && IsNetworkStep(steps[0]) && AllEnabled(Next(w, steps[0]), steps[1..]))
  }

  /** However the network schedules what is pending, it comes to rest after at most `Measure` steps. */
  lemma {:induction false} NetworkRunsAreBounded(w: World, steps: seq<Step>)
    requires Inv(w) && AllEnabled(w, steps)
    ensures |steps| + Measure(Run(w, steps)) <= Measure(w)
    decreases |steps|
  {
    if steps != [] {
      NetworkStepsMakeProgress(w, steps[0]);
      StepKeepsInv(w, steps[0]);
      NetworkRunsAreBounded(Next(w, steps[0]), steps[1..]);
    }
  }

  predicate Pending(c: Client, id: nat) {
    id < |c.requests| && (c.requests[id].phase == Sent || c.requests[id].phase == Joined)
  }

  // ---- each request by itself ----

  /** A step by which the network moves request `id` on. */
  predicate Moves(w: World, step: Step, id: nat) {
    Enabled(w, step) && ((step.Respond? && step.id == id) || (step.Settle? && id in w.client.waiters))
  }

  /** How many such steps are left to it at most. */
  function StepsLeft(r: Request): nat {
    match r.phase
    case Sent => if r.retried || r.isAuthCall then 1 else 3
    case Joined => 2
    case _ => 0
  }

  lemma OtherStepsLeaveRequests(w: World, step: Step, id: nat)
    requires id < |w.client.requests| && !step.Respond? && !step.Settle?
    ensures var after := Next(w, step).client.requests;
      id < |after| && after[id] == w.client.requests[id]
  {
  }

  lemma OneRequestMovesOn(w: World, step: Step, id: nat)
    requires Inv(w) && id < |w.client.requests|
    ensures var after := Next(w, step).client.requests;
      && id < |after|
      && (Moves(w, step, id) ==> StepsLeft(after[id]) < StepsLeft(w.client.requests[id]))
      && (!Moves(w, step, id) ==> after[id] == w.client.requests[id])
  {
    if !step.Respond? && !step.Settle? {
      OtherStepsLeaveRequests(w, step, id);
    }
  }

  function CountMoves(w: World, steps: seq<Step>, id: nat): nat
    decreases |steps|
  {
    if steps == [] then 0
    else (if Moves(w, steps[0], id) then 1 else 0) + CountMoves(Next(w, steps[0]), steps[1..], id)
  }

  /** However many other requests start and settle meanwhile, three steps of its own settle a request. */
  lemma {:induction false} RequestSettlesWithinThreeMoves(w: World, steps: seq<Step>, id: nat)
    requires Inv(w) && id < |w.client.requests|
    ensures var after := Run(w, steps).client.requests;
      && id < |after|
      && CountMoves(w, steps, id) + StepsLeft(after[id]) <= StepsLeft(w.client.requests[id]) <= 3
      && (CountMoves(w, steps, id) == 3 ==> after[id].phase == Resolved || after[id].phase == Rejected)
    decreases |steps|
  {
    if steps != [] {
      OneRequestMovesOn(w, steps[0], id);
      StepKeepsInv(w, steps[0]);
      RequestSettlesWithinThreeMoves(Next(w, steps[0]), steps[1..], id);
    }
  }

  /** At rest nothing is pending: a request that has not settled always has a step that moves it on. */
  lemma NoRequestIsStranded(w: World, id: nat)
    requires Inv(w) && Pending(w.client, id)
    ensures exists step :: IsNetworkStep(step) && Moves(w, step, id)
  {
    if w.client.requests[id].phase == Sent {
      assert IsNetworkStep(Respond(id, Ok)) && Moves(w, Respond(id, Ok), id);
    } else {
      assert id in w.client.waiters;
      assert IsNetworkStep(Settle(true)) && Moves(w, Settle(true), id);
    }
  }
}
