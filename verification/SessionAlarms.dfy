/** When the server takes this client's refresh call for theft. */
module SessionAlarms {
  import opened Wrappers
  import opened SessionClient
  import opened SessionProtocol
  import Tokens = TokenStore

  // ---- every alarm has a cause, and every cause an alarm ----

  /** In any run the row presented at an alarm was revoked by another party, by an earlier alarm, or by a logout of
      this client that the server had taken. */
  lemma EveryAlarmIsExplained(server: Tokens.Store, steps: seq<Step>, i: nat)
    ensures var w := Run(Initial(server), steps);
      i < |w.alarms| ==>
        var row := w.alarms[i];
        row in w.revokedByOthers || (row in w.revokedByAlarm && w.revokedByAlarm[row] < i) || row in w.revokedByLogout
  {
    InitialInv(server);
    RunKeepsInv(Initial(server), steps);
    var w := Run(Initial(server), steps);
    assert i < |w.alarms| ==> AlarmExplained(w, i);
  }

  /** The row of a call, when it has been revoked otherwise than by being spent. */
  predicate RevokedBeforeUse(w: World, row: nat) {
    row in w.revokedByOthers || row in w.revokedByAlarm || row in w.revokedByLogout
  }

  lemma TakingRaisesTheAlarmExactlyWhen(w: World, call: nat, secret: string, now: int, ttl: int)
    requires Inv(w) && Enabled(w, ServerTakes(call, secret, now, ttl)) && w.client.calls[call].secret != ""
    ensures var alarms := Next(w, ServerTakes(call, secret, now, ttl)).alarms;
      var row := w.client.calls[call].rowId;
      row.Some? && alarms == if RevokedBeforeUse(w, row.value) then w.alarms + [row.value] else w.alarms
  {
    var row := w.client.calls[call].rowId.value;
    assert RevokedBeforeUse(w, row) ==> IsRevoked(w.server, row);
    if Tokens.Examine(w.server, w.client.calls[call], now) == Tokens.Reused {
      ReusedRowIsAccounted(w, call, now);
    }
  }

  /** After any run whatever the next call taken raises the alarm exactly when another party, an earlier alarm or a
      logout had revoked the row presented. */
  lemma CallRaisesTheAlarmExactlyWhen(server: Tokens.Store, steps: seq<Step>, call: nat,
                                      secret: string, now: int, ttl: int)
    requires Enabled(Run(Initial(server), steps), ServerTakes(call, secret, now, ttl))
    requires Run(Initial(server), steps).client.calls[call].secret != ""
    ensures var w := Run(Initial(server), steps);
      var alarms := Next(w, ServerTakes(call, secret, now, ttl)).alarms;
      var row := w.client.calls[call].rowId;
      && row.Some?
      && (RevokedBeforeUse(w, row.value) <==> alarms == w.alarms + [row.value])
      && (!RevokedBeforeUse(w, row.value) <==> alarms == w.alarms)
  {
    InitialInv(server);
    RunKeepsInv(Initial(server), steps);
    var w := Run(Initial(server), steps);
    TakingRaisesTheAlarmExactlyWhen(w, call, secret, now, ttl);
    assert |w.alarms + [w.client.calls[call].rowId.value]| != |w.alarms|;
  }

  // ---- when a logout of the client's own is the cause ----

  /** The server takes a readable call after it has taken a logout with the same token. */
  predicate TooLate(w: World, step: Step) {
    && step.ServerTakes? && Enabled(w, step)
    && var token := w.client.calls[step.call];
       token.secret != "" && token.rowId.Some? && token.rowId.value in w.revokedByLogout
  }

  ghost predicate NeverTooLate(w: World, steps: seq<Step>)
    decreases |steps|
  {
    steps == [] || (!TooLate(w, steps[0]) && NeverTooLate(Next(w, steps[0]), steps[1..]))
  }

  predicate OutsideAlarm(w: World, i: nat)
    requires i < |w.alarms|
  {
    w.alarms[i] in w.revokedByOthers || (w.alarms[i] in w.revokedByAlarm && w.revokedByAlarm[w.alarms[i]] < i)
  }

  /** Every row presented at an alarm was revoked by another party or an earlier alarm. */
  ghost predicate OutsideAlarms(w: World) {
    forall i: nat | i < |w.alarms| :: OutsideAlarm(w, i)
  }

  lemma OutsideMeansNoLogout(w: World)
    requires Inv(w)
    ensures OutsideAlarms(w) <==> forall i | 0 <= i < |w.alarms| :: w.alarms[i] !in w.revokedByLogout
  {
    forall i: nat | i < |w.alarms| ensures OutsideAlarm(w, i) <==> w.alarms[i] !in w.revokedByLogout {
      assert AlarmExplained(w, i);
    }
  }

  lemma AlarmsAndLogoutsStay(w: World, step: Step)
    ensures var w' := Next(w, step);
      |w.alarms| <= |w'.alarms| && w'.alarms[..|w.alarms|] == w.alarms && w.revokedByLogout <= w'.revokedByLogout
  {
  }

  /** An alarm that a logout caused is never attributed to anybody else later on. */
  lemma {:induction false} LogoutAlarmStays(w: World, steps: seq<Step>, i: nat)
    requires Inv(w) && i < |w.alarms| && w.alarms[i] in w.revokedByLogout
    ensures !OutsideAlarms(Run(w, steps))
    decreases |steps|
  {
    if steps == [] {
      OutsideMeansNoLogout(w);
    } else {
      var w' := Next(w, steps[0]);
      StepKeepsInv(w, steps[0]);
      AlarmsAndLogoutsStay(w, steps[0]);
      assert w'.alarms[..|w.alarms|][i] == w.alarms[i];
      LogoutAlarmStays(w', steps[1..], i);
    }
  }

  lemma OtherStepsRaiseNoAlarm(w: World, step: Step)
    requires !step.ServerTakes?
    ensures Next(w, step).alarms == w.alarms
  {
  }

  lemma UnreadableCallRaisesNoAlarm(w: World, step: Step)
    requires step.ServerTakes? && (Enabled(w, step) ==> w.client.calls[step.call].secret == "")
    ensures Next(w, step).alarms == w.alarms
  {
  }

  /** What a step's own logout revokes was not revoked when an alarm presented it. */
  lemma OldAlarmsStayOutside(w: World, step: Step)
    requires Inv(w) && OutsideAlarms(w)
    ensures forall i | 0 <= i < |w.alarms| :: w.alarms[i] !in Next(w, step).revokedByLogout
  {
    var w' := Next(w, step);
    forall i: nat | i < |w.alarms| ensures w.alarms[i] !in w'.revokedByLogout {
      assert OutsideAlarm(w, i);
      assert IsRevoked(w.server, w.alarms[i]);
      StepKeepsInv(w, step);
    }
  }

  lemma StepKeepsAlarmsOutsideExactlyWhen(w: World, step: Step)
    requires Inv(w) && OutsideAlarms(w)
    ensures OutsideAlarms(Next(w, step)) <==> !TooLate(w, step)
  {
    var w' := Next(w, step);
    StepKeepsInv(w, step);
    OutsideMeansNoLogout(w');
    OldAlarmsStayOutside(w, step);
    if step.ServerTakes? && Enabled(w, step) && w.client.calls[step.call].secret != "" {
      TakingRaisesTheAlarmExactlyWhen(w, step.call, step.secret, step.now, step.ttl);
      TakingRevokesForNoLogout(w, step);
      var row := w.client.calls[step.call].rowId.value;
      if RevokedBeforeUse(w, row) {
        assert w'.alarms[|w.alarms|] == row;
        assert forall i | 0 <= i < |w.alarms| :: w'.alarms[i] == w.alarms[i];
      }
    } else if step.ServerTakes? {
      UnreadableCallRaisesNoAlarm(w, step);
    } else {
      OtherStepsRaiseNoAlarm(w, step);
    }
  }

  lemma TakingRevokesForNoLogout(w: World, step: Step)
    requires step.ServerTakes?
    ensures Next(w, step).revokedByLogout == w.revokedByLogout
  {
  }

  /** Over any run whatever: the client's own logouts never cause an alarm if and only if the server never takes a
      call after a logout with the same token. */
  lemma {:induction false} OwnLogoutsCauseNoAlarmExactlyWhen(w: World, steps: seq<Step>)
    requires Inv(w) && OutsideAlarms(w)
    ensures OutsideAlarms(Run(w, steps)) <==> NeverTooLate(w, steps)
    decreases |steps|
  {
    if steps != [] {
      var w' := Next(w, steps[0]);
      StepKeepsInv(w, steps[0]);
      StepKeepsAlarmsOutsideExactlyWhen(w, steps[0]);
      if TooLate(w, steps[0]) {
        OutsideMeansNoLogout(w');
        var i :| 0 <= i < |w'.alarms| && w'.alarms[i] in w'.revokedByLogout;
        LogoutAlarmStays(w', steps[1..], i);
      } else {
        OwnLogoutsCauseNoAlarmExactlyWhen(w', steps[1..]);
      }
    }
  }

  // ---- a client that does not let a refresh overlap a logout ----

  /** A refresh overlaps a logout: the logout begins while a refresh is awaited, or a refresh is begun while the
      logout has not cleared the storage yet. */
  predicate Overlaps(w: World, step: Step) {
    || (step.BeginLogout? && w.client.refreshPromise.Some?)
    || (step.Respond? && Enabled(w, step) && w.leaving > 0 && |Next(w, step).client.calls| > |w.client.calls|)
  }

  ghost predicate NoOverlap(w: World, steps: seq<Step>)
    decreases |steps|
  {
    steps == [] || (!Overlaps(w, steps[0]) && NoOverlap(Next(w, steps[0]), steps[1..]))
  }

  /** No row logged out of has been presented, or can still be. */
  ghost predicate Apart(w: World) {
    && (forall row | row in LogoutRows(w) :: row < |w.server.rows|)
    && (forall k: nat, row: nat | IsCallOf(w.client, k, row) :: row !in LogoutRows(w))
    && (w.leaving == 0 && w.client.refresh.Some? && w.client.refresh.value.rowId.Some? ==>
          w.client.refresh.value.rowId.value !in LogoutRows(w))
    && (w.client.refreshPromise.Some? && w.client.refreshPromise.value < |w.answers| ==>
          var answer := w.answers[w.client.refreshPromise.value];
          answer.Answered? && answer.issued.Some? && answer.issued.value.rowId.Some? ==>
            answer.issued.value.rowId.value !in LogoutRows(w))
  }

  lemma RespondKeepsApart(w: World, id: nat, response: Response)
    requires Inv(w) && Apart(w) && Enabled(w, Respond(id, response)) && !Overlaps(w, Respond(id, response))
    ensures Apart(Next(w, Respond(id, response)))
  {
    var w' := Next(w, Respond(id, response));
    assert LogoutRows(w') == LogoutRows(w);
    forall k: nat, row: nat | IsCallOf(w'.client, k, row) ensures row !in LogoutRows(w') {
      assert k < |w.client.calls| ==> IsCallOf(w.client, k, row);
    }
  }

  lemma LogoutKeepsApart(w: World)
    requires Inv(w) && Apart(w) && !Overlaps(w, BeginLogout)
    ensures Apart(Next(w, BeginLogout))
  {
    var w' := Next(w, BeginLogout);
    assert forall k: nat, row: nat :: IsCallOf(w'.client, k, row) <==> IsCallOf(w.client, k, row);
    if w.client.refresh.Some? {
      var left := w.client.refresh.value;
      RowsAfterAppend(w.logouts, left);
      assert forall k: nat :: !IsCallOf(w.client, k, left.rowId.value);
    }
  }

  lemma StepKeepsApart(w: World, step: Step)
    requires Inv(w) && Apart(w) && !Overlaps(w, step)
    ensures Apart(Next(w, step))
  {
    if Enabled(w, step) {
      if step.Respond? {
        RespondKeepsApart(w, step.id, step.response);
      } else if step.BeginLogout? {
        LogoutKeepsApart(w);
      } else if step.ServerTakes? || step.ServerLogsOut? || step.Elsewhere? {
        ServerStepsKeepApart(w, step);
      } else {
        ClientStepsKeepApart(w, step);
      }
    }
  }

  lemma ClientStepsKeepApart(w: World, step: Step)
    requires Inv(w) && Apart(w) && Enabled(w, step)
    requires step.Start? || step.Settle? || step.Login? || step.EndLogout? || step.DropTokens?
    ensures Apart(Next(w, step))
  {
    var w' := Next(w, step);
    assert forall k: nat, row: nat :: IsCallOf(w'.client, k, row) <==> IsCallOf(w.client, k, row);
  }

  lemma ServerStepsKeepApart(w: World, step: Step)
    requires Inv(w) && Apart(w) && Enabled(w, step)
    requires step.ServerTakes? || step.ServerLogsOut? || step.Elsewhere?
    ensures Apart(Next(w, step))
  {
    if step.Elsewhere? {
      Tokens.RevocationIsPermanent(w.server, [step.op]);
      assert Tokens.Run(w.server, [step.op]) == Next(w, step).server;
    }
  }

  lemma {:induction false} RunKeepsApart(w: World, steps: seq<Step>)
    requires Inv(w) && Apart(w) && NoOverlap(w, steps)
    ensures Inv(Run(w, steps)) && Apart(Run(w, steps))
    decreases |steps|
  {
    if steps != [] {
      StepKeepsInv(w, steps[0]);
      StepKeepsApart(w, steps[0]);
      RunKeepsApart(Next(w, steps[0]), steps[1..]);
    }
  }

  lemma {:induction false} WithoutOverlapNeverTooLate(w: World, steps: seq<Step>)
    requires Inv(w) && Apart(w) && NoOverlap(w, steps)
    ensures NeverTooLate(w, steps)
    decreases |steps|
  {
    if steps != [] {
      if TooLate(w, steps[0]) {
        assert IsCallOf(w.client, steps[0].call, w.client.calls[steps[0].call].rowId.value);
      }
      StepKeepsInv(w, steps[0]);
      StepKeepsApart(w, steps[0]);
      WithoutOverlapNeverTooLate(Next(w, steps[0]), steps[1..]);
    }
  }

  /** While no refresh overlaps a logout, the very row presented at an alarm was revoked by another party, or in
      answer to an earlier alarm. */
  lemma AlarmOnlyAfterOutsideRevocation(server: Tokens.Store, steps: seq<Step>, i: nat)
    requires NoOverlap(Initial(server), steps)
    ensures var w := Run(Initial(server), steps);
      i < |w.alarms| ==>
        var row := w.alarms[i];
        row in w.revokedByOthers || (row in w.revokedByAlarm && w.revokedByAlarm[row] < i)
  {
    InitialInv(server);
    WithoutOverlapNeverTooLate(Initial(server), steps);
    OwnLogoutsCauseNoAlarmExactlyWhen(Initial(server), steps);
    var w := Run(Initial(server), steps);
    assert i < |w.alarms| ==> OutsideAlarm(w, i);
  }

  // ---- both kinds of cause occur ----

  lemma OneStep(w: World, step: Step, steps: seq<Step>)
    ensures Run(w, [step] + steps) == Run(Next(w, step), steps)
  {
    assert ([step] + steps)[1..] == steps;
  }

  /** A password change elsewhere makes this client's next refresh an alarm. */
  lemma PasswordChangeRaisesTheAlarm(secret: string, userId: string)
    requires secret != ""
    ensures var steps := [Login(userId, secret, 10), Elsewhere(Tokens.RevokeAll(userId, 1)), Start(false),
                          Respond(0, Unauthorized), ServerTakes(0, secret, 2, 5)];
      Run(Initial(Tokens.Store([], {userId})), steps).alarms == [0]
  {
    var s0 := Initial(Tokens.Store([], {userId}));
    var s1 := Next(s0, Login(userId, secret, 10));
    var s2 := Next(s1, Elsewhere(Tokens.RevokeAll(userId, 1)));
    var s3 := Next(s2, Start(false));
    var s4 := Next(s3, Respond(0, Unauthorized));
    var s5 := Next(s4, ServerTakes(0, secret, 2, 5));
    assert s2.server.rows[0].revokedAt == Some(1);
    assert s4.client.calls == [Tokens.Token(Some(0), secret)];
    assert s5.alarms == [0];
    var a1 := [ServerTakes(0, secret, 2, 5)] + [];
    var a2 := [Respond(0, Unauthorized)] + a1;
    var a3 := [Start(false)] + a2;
    var a4 := [Elsewhere(Tokens.RevokeAll(userId, 1))] + a3;
    var a5 := [Login(userId, secret, 10)] + a4;
    OneStep(s4, ServerTakes(0, secret, 2, 5), []);
    OneStep(s3, Respond(0, Unauthorized), a1);
    OneStep(s2, Start(false), a2);
    OneStep(s1, Elsewhere(Tokens.RevokeAll(userId, 1)), a3);
    OneStep(s0, Login(userId, secret, 10), a4);
    assert a5 == [Login(userId, secret, 10), Elsewhere(Tokens.RevokeAll(userId, 1)), Start(false),
                  Respond(0, Unauthorized), ServerTakes(0, secret, 2, 5)];
  }

  /** A request is out and the server has taken a logout, which has not cleared the storage yet. */
  lemma LeavingWithARequestOut(secret: string, userId: string, more: seq<Step>) returns (w: World)
    ensures Run(Initial(Tokens.Store([], {userId})),
                [Login(userId, secret, 10)] + ([Start(false)] + ([BeginLogout] + ([ServerLogsOut(0, 1)] + more)))) ==
      Run(w, more)
    ensures w == World(
      Client(Some(0), Some(Tokens.Token(Some(0), secret)), None, [], [Request(false, false, 1, Some(0), Sent)], [], 0),
      [], {}, [Tokens.Token(Some(0), secret)], 1,
      Tokens.Store([Tokens.RefreshRow(userId, secret, 10, Some(1))], {userId}), {0}, {}, {0}, [], map[])
  {
    var s0 := Initial(Tokens.Store([], {userId}));
    var s1 := Next(s0, Login(userId, secret, 10));
    var s2 := Next(s1, Start(false));
    var s3 := Next(s2, BeginLogout);
    w := Next(s3, ServerLogsOut(0, 1));
    OneStep(s3, ServerLogsOut(0, 1), more);
    OneStep(s2, BeginLogout, [ServerLogsOut(0, 1)] + more);
    OneStep(s1, Start(false), [BeginLogout] + ([ServerLogsOut(0, 1)] + more));
    OneStep(s0, Login(userId, secret, 10), [Start(false)] + ([BeginLogout] + ([ServerLogsOut(0, 1)] + more)));
  }

  /** A refresh begun while a logout is under way presents the row logged out of: an alarm with nobody else in it. */
  lemma OverlappingLogoutRaisesTheAlarm(secret: string, userId: string)
    requires secret != ""
    ensures var steps := [Login(userId, secret, 10), Start(false), BeginLogout, ServerLogsOut(0, 1),
                          Respond(0, Unauthorized), ServerTakes(0, secret, 2, 5)];
      var w := Run(Initial(Tokens.Store([], {userId})), steps);
      w.alarms == [0] && w.revokedByOthers == {} && w.revokedByAlarm == map[]
  {
    var more := [Respond(0, Unauthorized)] + [ServerTakes(0, secret, 2, 5)];
    var s4 := LeavingWithARequestOut(secret, userId, more);
    var s5 := Next(s4, Respond(0, Unauthorized));
    var s6 := Next(s5, ServerTakes(0, secret, 2, 5));
    assert s5.client.calls == [Tokens.Token(Some(0), secret)];
    assert s6.alarms == [0] && NewlyRevoked(s5.server, s6.server) == {};
    OneStep(s5, ServerTakes(0, secret, 2, 5), []);
    assert [ServerTakes(0, secret, 2, 5)] + [] == [ServerTakes(0, secret, 2, 5)];
    OneStep(s4, Respond(0, Unauthorized), [ServerTakes(0, secret, 2, 5)]);
    assert [Login(userId, secret, 10)] + ([Start(false)] + ([BeginLogout] + ([ServerLogsOut(0, 1)] + more))) ==
      [Login(userId, secret, 10), Start(false), BeginLogout, ServerLogsOut(0, 1),
       Respond(0, Unauthorized), ServerTakes(0, secret, 2, 5)];
  }
}
