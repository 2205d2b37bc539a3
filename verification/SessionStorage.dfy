/** What the client's steps leave in its storage, and when it announces a logout. */
module SessionStorage {
  import opened Wrappers
  import opened SessionClient
  import opened SessionProtocol
  import Tokens = TokenStore

  // ---- one step, field by field ----

  /** All of the client but its requests. */
  predicate OnlyRequestsDiffer(c: Client, c': Client) {
    && c'.access == c.access && c'.refresh == c.refresh && c'.refreshPromise == c.refreshPromise
    && c'.waiters == c.waiters && c'.calls == c.calls && c'.logoutEvents == c.logoutEvents
  }

  predicate OnlyRequestDiffers(c: Client, c': Client, id: nat) {
    && |c'.requests| == |c.requests|
    && forall i | 0 <= i < |c.requests| && i != id :: c'.requests[i] == c.requests[i]
  }

  /** A request goes out with the access token then stored. */
  lemma StartingARequest(w: World, isAuthCall: bool)
    ensures var c, c' := w.client, Next(w, Start(isAuthCall)).client;
      && OnlyRequestsDiffer(c, c')
      && |c'.requests| == |c.requests| + 1 && c'.requests[..|c.requests|] == c.requests
      && c'.requests[|c.requests|] == Request(isAuthCall, false, 1, c.access, Sent)
  {
  }

  /** Success settles the request; so does any failure that is no 401, or comes to an auth call or a retry. */
  lemma SettlingAResponse(w: World, id: nat, response: Response)
    requires Enabled(w, Respond(id, response))
    requires response != Unauthorized || w.client.requests[id].retried || w.client.requests[id].isAuthCall
    ensures var c, c' := w.client, Next(w, Respond(id, response)).client;
      && OnlyRequestsDiffer(c, c') && OnlyRequestDiffers(c, c', id)
      && c'.requests[id].phase == (if response == Ok then Resolved else Rejected)
      && c'.requests[id].sends == c.requests[id].sends && c'.requests[id].retried == c.requests[id].retried
  {
  }

  /** A first 401: the request joins the refresh under way, or begins one with the stored token, or, with nothing
      stored, is rejected and announces a logout. */
  lemma FirstUnauthorized(w: World, id: nat)
    requires Inv(w) && Enabled(w, Respond(id, Unauthorized))
    requires !w.client.requests[id].retried && !w.client.requests[id].isAuthCall
    ensures var c, c' := w.client, Next(w, Respond(id, Unauthorized)).client;
      && OnlyRequestDiffers(c, c', id) && c'.requests[id].retried && c'.requests[id].sends == 1
      && if c.refreshPromise.Some? || c.refresh.Some? then
           && c'.requests[id].phase == Joined && c'.waiters == c.waiters + [id]
           && c'.access == c.access && c'.refresh == c.refresh && c'.logoutEvents == c.logoutEvents
           && (c.refreshPromise.Some? ==> c'.refreshPromise == c.refreshPromise && c'.calls == c.calls)
           && (c.refreshPromise.None? ==>
                 c'.refreshPromise == Some(|c.calls|) && c'.calls == c.calls + [c.refresh.value])
         else
           && c'.requests[id].phase == Rejected && c'.waiters == [] && c'.calls == c.calls
           && c'.access == None && c'.refresh == None && c'.logoutEvents == c.logoutEvents + 1
           && c'.refreshPromise == None
  {
  }

  /** The token that a settling refresh delivers, if it delivers one. */
  function Delivered(w: World, lost: bool): Option<Tokens.Token>
    requires Enabled(w, Settle(lost))
  {
    if lost then None else w.answers[w.client.refreshPromise.value].issued
  }

  /** A settled refresh leaves the token delivered and its access token in the storage, and announces nothing; a
      refused or lost one leaves the storage empty and announces a logout for each request that awaited it. */
  lemma SettlingARefresh(w: World, lost: bool)
    requires Inv(w) && Enabled(w, Settle(lost))
    ensures var c, c' := w.client, Next(w, Settle(lost)).client;
      var token := Delivered(w, lost);
      && c'.refreshPromise == None && c'.waiters == [] && c'.calls == c.calls
      && |c'.requests| == |c.requests|
      && (forall i | 0 <= i < |c.requests| && i !in c.waiters :: c'.requests[i] == c.requests[i])
      && (token.Some? ==>
            && c'.refresh == token && token.value.rowId.Some? && c'.access == token.value.rowId
            && c'.logoutEvents == c.logoutEvents
            && forall i | 0 <= i < |c.requests| && i in c.waiters ::
                 && c'.requests[i].phase == Sent && c'.requests[i].sends == 2
                 && c'.requests[i].bearer == token.value.rowId)
      && (token.None? ==>
            && c'.refresh == None && c'.access == None && c'.logoutEvents == c.logoutEvents + |c.waiters|
            && forall i | 0 <= i < |c.requests| && i in c.waiters ::
                 c'.requests[i].phase == Rejected && c'.requests[i].sends == 1)
  {
    assert forall i | i in w.client.waiters :: RequestOk(w.client.requests[i]);
  }

  /** Does the step find the client without a session? */
  predicate LosesTheSession(w: World, step: Step) {
    && Enabled(w, step)
    && match step
       case Settle(lost) => Delivered(w, lost).None?
       case Respond(id, response) =>
         && response == Unauthorized && !w.client.requests[id].retried && !w.client.requests[id].isAuthCall
         && w.client.refreshPromise.None? && w.client.refresh.None?
       case _ => false
  }

  /** A logout is announced exactly when a refresh is refused or lost, or a first 401 finds the storage empty. */
  lemma LogoutIsAnnouncedExactlyWhen(w: World, step: Step)
    requires Inv(w)
    ensures Next(w, step).client.logoutEvents >= w.client.logoutEvents
    ensures Next(w, step).client.logoutEvents > w.client.logoutEvents <==> LosesTheSession(w, step)
  {
    if Enabled(w, step) && step.Settle? {
      SettlingARefresh(w, step.lost);
    } else if Enabled(w, step) && step.Respond? {
      var r := w.client.requests[step.id];
      if step.response == Unauthorized && !r.retried && !r.isAuthCall {
        FirstUnauthorized(w, step.id);
      } else {
        SettlingAResponse(w, step.id, step.response);
      }
    } else {
      OtherStepsAnnounceNothing(w, step);
    }
  }

  lemma OtherStepsAnnounceNothing(w: World, step: Step)
    requires !Enabled(w, step) || (!step.Settle? && !step.Respond?)
    ensures Next(w, step).client.logoutEvents == w.client.logoutEvents
  {
  }

  // ---- whole runs ----

  /** No refresh is lost or refused, and nobody logs out or empties the storage. */
  predicate Steady(w: World, step: Step) {
    Enabled(w, step) ==>
      match step
      case Settle(lost) => Delivered(w, lost).Some?
      case BeginLogout => false
      case EndLogout => false
      case DropTokens => false
      case _ => true
  }

  ghost predicate SteadyRun(w: World, steps: seq<Step>)
    decreases |steps|
  {
    steps == [] || (Steady(w, steps[0]) && SteadyRun(Next(w, steps[0]), steps[1..]))
  }

  /** The row issued last to this client, rows being numbered as they are issued. */
  predicate IsLatest(w: World, row: nat) {
    row in w.minted && forall m | m in w.minted :: m <= row
  }

  predicate Stores(c: Client, row: nat) {
    c.refresh.Some? && c.refresh.value.rowId == Some(row) && c.access == Some(row)
  }

  predicate Awaits(w: World, row: nat) {
    && w.client.refreshPromise.Some? && w.client.refreshPromise.value < |w.answers|
    && var answer := w.answers[w.client.refreshPromise.value];
       answer.Answered? && answer.issued.Some? && answer.issued.value.rowId == Some(row)
  }

  /** Without a refresh under way, the stored pair is the last one issued to this client. */
  ghost predicate StoresTheLatest(w: World) {
    w.client.refreshPromise.None? ==> forall row | IsLatest(w, row) :: Stores(w.client, row)
  }

  /** The last pair issued is stored or about to be delivered, and no call but the awaited one is under way. */
  ghost predicate Current(w: World) {
    && (forall row | IsLatest(w, row) :: Stores(w.client, row) || Awaits(w, row))
    && (w.minted != {} ==> w.client.refresh.Some?)
    && (forall k | 0 <= k < |w.answers| && w.answers[k] == Travelling :: w.client.refreshPromise == Some(k))
  }

  /** A refresh delivers a pair although a login has brought a later one since the server answered. */
  predicate Stale(w: World, step: Step) {
    && step.Settle? && Enabled(w, step)
    && Delivered(w, step.lost).Some? && Delivered(w, step.lost).value.rowId.Some?
    && exists m | m in w.minted :: m > Delivered(w, step.lost).value.rowId.value
  }

  ghost predicate NeverStale(w: World, steps: seq<Step>)
    decreases |steps|
  {
    steps == [] || (!Stale(w, steps[0]) && NeverStale(Next(w, steps[0]), steps[1..]))
  }

  lemma TakingACall(w: World, call: nat, secret: string, now: int, ttl: int)
    requires Inv(w) && Enabled(w, ServerTakes(call, secret, now, ttl))
    ensures var w' := Next(w, ServerTakes(call, secret, now, ttl));
      && w'.client == w.client && |w'.answers| == |w.answers| && w'.answers[call].Answered?
      && (forall k | 0 <= k < |w.answers| && k != call :: w'.answers[k] == w.answers[k])
      && if w'.answers[call].issued.Some?
         then w'.minted == w.minted + {|w.server.rows|} && w'.answers[call].issued.value.rowId == Some(|w.server.rows|)
         else w'.minted == w.minted
  {
  }

  lemma TakingKeepsCurrent(w: World, call: nat, secret: string, now: int, ttl: int)
    requires Inv(w) && Current(w) && Enabled(w, ServerTakes(call, secret, now, ttl))
    ensures Current(Next(w, ServerTakes(call, secret, now, ttl)))
  {
    TakingACall(w, call, secret, now, ttl);
    TakenCallKeepsCurrent(w, Next(w, ServerTakes(call, secret, now, ttl)), call);
  }

  lemma TakenCallKeepsCurrent(w: World, w': World, call: nat)
    requires Inv(w) && Current(w) && call < |w.answers| == |w'.answers| && w.answers[call] == Travelling
    requires w'.client == w.client && w'.answers[call].Answered?
    requires forall k | 0 <= k < |w.answers| && k != call :: w'.answers[k] == w.answers[k]
    requires
      if w'.answers[call].issued.Some?
      then w'.minted == w.minted + {|w.server.rows|} && w'.answers[call].issued.value.rowId == Some(|w.server.rows|)
      else w'.minted == w.minted
    ensures Current(w')
  {
    assert w.client.calls[call].rowId.value in w.minted;
    if w'.answers[call].issued.Some? {
      assert IsLatest(w', |w.server.rows|) && Awaits(w', |w.server.rows|);
    } else {
      forall row | IsLatest(w', row) ensures Stores(w'.client, row) {
        assert IsLatest(w, row);
      }
    }
  }

  lemma LoginKeepsCurrent(w: World, userId: string, secret: string, expiresAt: int)
    requires Inv(w) && Current(w)
    ensures Current(Next(w, Login(userId, secret, expiresAt)))
  {
    var w' := Next(w, Login(userId, secret, expiresAt));
    assert IsLatest(w', |w.server.rows|) && Stores(w'.client, |w.server.rows|);
  }

  lemma SameTokensKeepCurrent(w: World, w': World)
    requires Current(w) && w'.minted == w.minted
    requires w'.client.refresh == w.client.refresh && w'.client.access == w.client.access
    requires
      || (w'.answers == w.answers && w'.client.refreshPromise == w.client.refreshPromise)
      || (w.client.refreshPromise.None? && w'.client.refreshPromise == Some(|w.answers|)
          && w'.answers == w.answers + [Travelling])
    ensures Current(w')
  {
    forall row | IsLatest(w', row) ensures Stores(w'.client, row) || Awaits(w', row) {
      assert IsLatest(w, row);
    }
  }

  lemma FirstUnauthorizedKeepsCurrent(w: World, id: nat)
    requires Inv(w) && Current(w) && Enabled(w, Respond(id, Unauthorized))
    requires !w.client.requests[id].retried && !w.client.requests[id].isAuthCall
    ensures Current(Next(w, Respond(id, Unauthorized)))
  {
    FirstUnauthorized(w, id);
    if w.client.refreshPromise.Some? || w.client.refresh.Some? {
      SameTokensKeepCurrent(w, Next(w, Respond(id, Unauthorized)));
    }
  }

  lemma RespondKeepsCurrent(w: World, id: nat, response: Response)
    requires Inv(w) && Current(w) && Enabled(w, Respond(id, response))
    ensures Current(Next(w, Respond(id, response)))
  {
    var r := w.client.requests[id];
    if response == Unauthorized && !r.retried && !r.isAuthCall {
      FirstUnauthorizedKeepsCurrent(w, id);
    } else {
      SettlingAResponse(w, id, response);
      SameTokensKeepCurrent(w, Next(w, Respond(id, response)));
    }
  }

  lemma SettledClientIsCurrentExactlyWhen(w: World, w': World, row: nat)
    requires Inv(w) && Current(w) && row in w.minted && w'.minted == w.minted && w'.answers == w.answers
    requires w.client.refreshPromise.Some? && w.client.refreshPromise.value < |w.answers|
    requires w.answers[w.client.refreshPromise.value].Answered?
    requires w'.client.refreshPromise.None? && Stores(w'.client, row)
    ensures (forall m | m in w.minted :: m <= row) ==> Current(w')
    ensures (exists m | m in w.minted :: m > row) ==> !StoresTheLatest(w')
  {
    if forall m | m in w.minted :: m <= row {
      assert IsLatest(w', row);
    } else {
      var latest := LatestOf(w.minted);
      assert IsLatest(w', latest) && !Stores(w'.client, latest);
    }
  }

  lemma SettlingKeepsCurrentExactlyWhen(w: World, step: Step)
    requires Inv(w) && Current(w) && step.Settle? && Enabled(w, step) && Delivered(w, step.lost).Some?
    ensures !Stale(w, step) ==> Current(Next(w, step))
    ensures Stale(w, step) ==> !StoresTheLatest(Next(w, step))
  {
    SettlingARefresh(w, step.lost);
    SettledClientIsCurrentExactlyWhen(w, Next(w, step), Delivered(w, step.lost).value.rowId.value);
  }

  lemma {:induction false} LatestOf(rows: set<nat>) returns (latest: nat)
    requires rows != {}
    ensures latest in rows && forall m | m in rows :: m <= latest
  {
    var m :| m in rows;
    assert forall n | n in rows :: n == m || n in rows - {m};
    if rows - {m} == {} {
      latest := m;
    } else {
      var rest := LatestOf(rows - {m});
      latest := if m <= rest then rest else m;
    }
  }

  lemma QuietStepsKeepCurrent(w: World, step: Step)
    requires Inv(w) && Current(w) && (!Enabled(w, step) || step.Start? || step.ServerLogsOut? || step.Elsewhere?)
    ensures Current(Next(w, step))
  {
    var w' := Next(w, step);
    forall row | IsLatest(w', row) ensures Stores(w'.client, row) || Awaits(w', row) {
      assert IsLatest(w, row);
    }
  }

  lemma SteadyStepKeepsCurrentExactlyWhen(w: World, step: Step)
    requires Inv(w) && Current(w) && Steady(w, step)
    ensures !Stale(w, step) ==> Current(Next(w, step))
    ensures Stale(w, step) ==> !StoresTheLatest(Next(w, step))
  {
    if !Enabled(w, step) || step.Start? || step.ServerLogsOut? || step.Elsewhere? {
      QuietStepsKeepCurrent(w, step);
    } else {
      match step
      case Respond(id, response) => RespondKeepsCurrent(w, id, response);
      case ServerTakes(call, secret, now, ttl) => TakingKeepsCurrent(w, call, secret, now, ttl);
      case Login(userId, secret, expiresAt) => LoginKeepsCurrent(w, userId, secret, expiresAt);
      case Settle(_) => SettlingKeepsCurrentExactlyWhen(w, step);
    }
  }

  ghost predicate StoresTheLatestThroughout(w: World, steps: seq<Step>)
    decreases |steps|
  {
    StoresTheLatest(w) && (steps == [] || StoresTheLatestThroughout(Next(w, steps[0]), steps[1..]))
  }

  /** While no refresh is lost or refused and nobody logs out: whenever no refresh is under way the storage holds
      the last pair issued to this client, all through the run, exactly when no refresh delivers a pair older than
      a login's. */
  lemma {:induction false} StoresTheLatestExactlyWhen(w: World, steps: seq<Step>)
    requires Inv(w) && Current(w) && SteadyRun(w, steps)
    ensures StoresTheLatestThroughout(w, steps) <==> NeverStale(w, steps)
    decreases |steps|
  {
    if steps != [] {
      StepKeepsInv(w, steps[0]);
      SteadyStepKeepsCurrentExactlyWhen(w, steps[0]);
      if !Stale(w, steps[0]) {
        StoresTheLatestExactlyWhen(Next(w, steps[0]), steps[1..]);
      }
    }
  }

  lemma InitialIsCurrent(server: Tokens.Store)
    ensures Inv(Initial(server)) && Current(Initial(server))
  {
  }

  /** So after such a run a first 401 with no refresh under way posts the token issued last. */
  lemma NextRefreshPostsTheLatest(w: World, id: nat, row: nat)
    requires Inv(w) && StoresTheLatest(w) && IsLatest(w, row) && w.client.refreshPromise.None?
    requires Enabled(w, Respond(id, Unauthorized))
    requires !w.client.requests[id].retried && !w.client.requests[id].isAuthCall
    ensures var c, c' := w.client, Next(w, Respond(id, Unauthorized)).client;
      && |c'.calls| == |c.calls| + 1 && c'.calls[|c.calls|].rowId == Some(row)
      && c'.logoutEvents == c.logoutEvents
  {
    FirstUnauthorized(w, id);
  }

  /** Once logged in, a client announces no logout until a refresh is lost or refused or somebody logs out. */
  lemma {:induction false} SteadyRunsAnnounceNoLogout(w: World, steps: seq<Step>)
    requires Inv(w) && w.client.refresh.Some? && SteadyRun(w, steps)
    ensures Run(w, steps).client.logoutEvents == w.client.logoutEvents && Run(w, steps).client.refresh.Some?
    decreases |steps|
  {
    if steps != [] {
      StepKeepsInv(w, steps[0]);
      LogoutIsAnnouncedExactlyWhen(w, steps[0]);
      SteadyStepsKeepAToken(w, steps[0]);
      SteadyRunsAnnounceNoLogout(Next(w, steps[0]), steps[1..]);
    }
  }

  lemma SteadyStepsKeepAToken(w: World, step: Step)
    requires Inv(w) && w.client.refresh.Some? && Steady(w, step)
    ensures Next(w, step).client.refresh.Some?
  {
    if Enabled(w, step) && step.Settle? {
      SettlingARefresh(w, step.lost);
    }
  }

  /** A refresh has been answered and is on its way back. */
  function AnswerOnItsWay(first: string, second: string, secret: string): World {
    var posted := Tokens.Token(Some(0), secret);
    World(Client(Some(0), Some(posted), Some(0), [0], [Request(false, true, 1, Some(0), Joined)], [posted], 0),
          [Answered(Some(Tokens.Token(Some(1), secret)))], {0}, [], 0,
          Tokens.Store([Tokens.RefreshRow(first, secret, 10, Some(1)), Tokens.RefreshRow(first, secret, 6, None)],
                       {first, second}),
          {0, 1}, {}, {}, [], map[])
  }

  function CallOnItsWay(first: string, second: string, secret: string): World {
    var posted := Tokens.Token(Some(0), secret);
    World(Client(Some(0), Some(posted), Some(0), [0], [Request(false, true, 1, Some(0), Joined)], [posted], 0),
          [Travelling], {0}, [], 0,
          Tokens.Store([Tokens.RefreshRow(first, secret, 10, None)], {first, second}), {0}, {}, {}, [], map[])
  }

  lemma CallPosted(first: string, second: string, secret: string, more: seq<Step>)
    ensures Run(Initial(Tokens.Store([], {first, second})),
                [Login(first, secret, 10)] + ([Start(false)] + ([Respond(0, Unauthorized)] + more))) ==
      Run(CallOnItsWay(first, second, secret), more)
  {
    var s0 := Initial(Tokens.Store([], {first, second}));
    var s1 := Next(s0, Login(first, secret, 10));
    var s2 := Next(s1, Start(false));
    OneStep(s2, Respond(0, Unauthorized), more);
    OneStep(s1, Start(false), [Respond(0, Unauthorized)] + more);
    OneStep(s0, Login(first, secret, 10), [Start(false)] + ([Respond(0, Unauthorized)] + more));
    assert s1.server.rows == [Tokens.RefreshRow(first, secret, 10, None)];
    assert Next(s2, Respond(0, Unauthorized)) == CallOnItsWay(first, second, secret);
  }

  lemma CallTaken(first: string, second: string, secret: string)
    requires secret != ""
    ensures Next(CallOnItsWay(first, second, secret), ServerTakes(0, secret, 1, 5)) ==
      AnswerOnItsWay(first, second, secret)
  {
    var w := CallOnItsWay(first, second, secret);
    var token := w.client.calls[0];
    assert Tokens.Examine(w.server, token, 1) == Tokens.Accepted;
    assert Tokens.RotateRefreshToken(w.server, token, secret, 1, 5).0.rows ==
      AnswerOnItsWay(first, second, secret).server.rows;
  }

  /** A login while a refresh is on its way back is overwritten when that arrives: the client goes on with the pair
      of the session before. */
  lemma LoginCanBeOverwritten(first: string, second: string, secret: string)
    requires secret != ""
    ensures var server := Tokens.Store([], {first, second});
      var steps := [Login(first, secret, 10), Start(false), Respond(0, Unauthorized), ServerTakes(0, secret, 1, 5),
                    Login(second, secret, 10), Settle(false)];
      var w := Run(Initial(server), steps);
      && Stores(w.client, 1) && IsLatest(w, 2)
      && |w.server.rows| == 3 && w.server.rows[1].userId == first && w.server.rows[2].userId == second
  {
    var w4 := AnswerOnItsWay(first, second, secret);
    var w5 := Next(w4, Login(second, secret, 10));
    var last := [Settle(false)] + [];
    var more := [ServerTakes(0, secret, 1, 5)] + ([Login(second, secret, 10)] + last);
    CallPosted(first, second, secret, more);
    CallTaken(first, second, secret);
    OneStep(CallOnItsWay(first, second, secret), ServerTakes(0, secret, 1, 5), [Login(second, secret, 10)] + last);
    OneStep(w4, Login(second, secret, 10), last);
    OneStep(w5, Settle(false), []);
    assert [Login(first, secret, 10)] + ([Start(false)] + ([Respond(0, Unauthorized)] + more)) ==
      [Login(first, secret, 10), Start(false), Respond(0, Unauthorized), ServerTakes(0, secret, 1, 5),
       Login(second, secret, 10), Settle(false)];
  }

  lemma OneStep(w: World, step: Step, steps: seq<Step>)
    ensures Run(w, [step] + steps) == Run(Next(w, step), steps)
  {
    assert ([step] + steps)[1..] == steps;
  }
}
