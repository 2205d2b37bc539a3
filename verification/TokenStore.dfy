/** Refresh tokens: one stored row per token, rotated on every use (auth/token.service.ts).

    Rows are never deleted, so a row is named by its position in the table.  The bcrypt hash of
    a secret is represented by the secret itself: comparing is equality.
 */
module TokenStore {
  import opened Wrappers
  import opened RowSets

  datatype RefreshRow = RefreshRow(userId: string, secret: string, expiresAt: int, revokedAt: Option<int>)

  /** The value handed to a client, "<rowId>.<secret>" split at the dot; either part may be missing. */
  datatype Token = Token(rowId: Option<nat>, secret: string)

  /** `activeUsers` holds the users that exist, are not deleted and have status ACTIVE. */
  datatype Store = Store(rows: seq<RefreshRow>, activeUsers: set<string>)

  /** Why a presented token was refused; the caller sees one and the same error for all of these. */
  datatype Verdict = Unreadable | UnknownRow | Reused | Expired | WrongSecret | InactiveUser | Accepted

  predicate Known(s: Store, id: nat) {
    id < |s.rows|
  }

  predicate Revoked(s: Store, id: nat)
    requires Known(s, id)
  {
    s.rows[id].revokedAt.Some?
  }

  function LiveRows(s: Store, userId: string): set<nat> {
    set i | 0 <= i < |s.rows| && s.rows[i].userId == userId && s.rows[i].revokedAt.None?
  }

  // ---- the operations as functions of the table ----

  function CreateRefreshToken(s: Store, userId: string, secret: string, expiresAt: int): (Store, Token) {
    (s.(rows := s.rows + [RefreshRow(userId, secret, expiresAt, None)]), Token(Some(|s.rows|), secret))
  }

  function RevokedRow(row: RefreshRow, now: int): RefreshRow {
    if row.revokedAt.None? then row.(revokedAt := Some(now)) else row
  }

  function RevokeAllForUser(s: Store, userId: string, now: int): Store {
    s.(rows := seq(|s.rows|, i requires 0 <= i < |s.rows| =>
      if s.rows[i].userId == userId then RevokedRow(s.rows[i], now) else s.rows[i]))
  }

  function RevokeRefreshToken(s: Store, token: Token, now: int): Store {
    if token.rowId.Some? && Known(s, token.rowId.value) then
      s.(rows := s.rows[token.rowId.value := RevokedRow(s.rows[token.rowId.value], now)])
    else s
  }

  function Examine(s: Store, token: Token, now: int): Verdict {
    if token.rowId.None? || token.secret == "" then Unreadable
    else if !Known(s, token.rowId.value) then UnknownRow
    else
      var row := s.rows[token.rowId.value];
      if row.revokedAt.Some? then Reused
      else if row.expiresAt < now then Expired
      else if token.secret != row.secret then WrongSecret
      else if row.userId !in s.activeUsers then InactiveUser
      else Accepted
  }

  function RotateRefreshToken(s: Store, token: Token, secret: string, now: int, ttl: int): (Store, Option<Token>) {
    match Examine(s, token, now)
    case Reused => (RevokeAllForUser(s, s.rows[token.rowId.value].userId, now), None)
    case Accepted =>
      var (s', issued) := CreateRefreshToken(RevokeRefreshToken(s, token, now),
                                             s.rows[token.rowId.value].userId, secret, now + ttl);
      (s', Some(issued))
    case _ => (s, None)
  }

  // ---- one call ----

  lemma RotationMovesOneSession(s: Store, token: Token, secret: string, now: int, ttl: int)
    requires Examine(s, token, now) == Accepted
    ensures var (s', issued) := RotateRefreshToken(s, token, secret, now, ttl);
      var user := s.rows[token.rowId.value].userId;
      && issued == Some(Token(Some(|s.rows|), secret))
      && LiveRows(s', user) == LiveRows(s, user) - {token.rowId.value} + {|s.rows|}
      && |LiveRows(s', user)| == |LiveRows(s, user)|
      && forall other | other != user :: LiveRows(s', other) == LiveRows(s, other)
  {
    var (s', issued) := RotateRefreshToken(s, token, secret, now, ttl);
    var user := s.rows[token.rowId.value].userId;
    assert LiveRows(s', user) == LiveRows(s, user) - {token.rowId.value} + {|s.rows|};
    SwapCount(LiveRows(s, user), LiveRows(s', user), token.rowId.value, |s.rows|);
  }

  /** What is issued can be presented: until it expires, as long as the user is active, and only with its secret;
      and every other token gets the verdict it got before. */
  lemma IssuedTokenIsAccepted(s: Store, userId: string, secret: string, expiresAt: int, now: int, other: Token)
    requires secret != ""
    ensures var (s', token) := CreateRefreshToken(s, userId, secret, expiresAt);
      && (Examine(s', token, now) == Accepted <==> now <= expiresAt && userId in s.activeUsers)
      && (other.rowId == token.rowId && other.secret != secret ==> Examine(s', other, now) != Accepted)
      && (other.rowId != token.rowId ==> Examine(s', other, now) == Examine(s, other, now))
  {
  }

  /** Who gets a new token, and that nothing short of reuse changes the table otherwise. */
  lemma RotationIssuesExactlyWhen(s: Store, token: Token, secret: string, now: int, ttl: int)
    ensures var (s', issued) := RotateRefreshToken(s, token, secret, now, ttl);
      && (issued.Some? <==>
            && token.rowId.Some? && token.secret != "" && Known(s, token.rowId.value)
            && var row := s.rows[token.rowId.value];
               row.revokedAt.None? && now <= row.expiresAt && row.secret == token.secret && row.userId in s.activeUsers)
      && (issued.None? && s' != s ==>
            token.rowId.Some? && Known(s, token.rowId.value) && Revoked(s, token.rowId.value))
  {
  }

  /** The token that replaces another is good for as long as a new one: until `now + ttl` and no longer. */
  lemma RotatedTokenLasts(s: Store, token: Token, secret: string, now: int, ttl: int, later: int)
    requires Examine(s, token, now) == Accepted && secret != ""
    ensures var (s', issued) := RotateRefreshToken(s, token, secret, now, ttl);
      && issued.Some?
      && (Examine(s', issued.value, later) == Accepted <==> later <= now + ttl)
      && Examine(s', token, later) == Reused
  {
  }

  lemma ReuseEndsTheFamily(s: Store, token: Token, secret: string, now: int, ttl: int)
    requires Examine(s, token, now) == Reused
    ensures var (s', issued) := RotateRefreshToken(s, token, secret, now, ttl);
      var user := s.rows[token.rowId.value].userId;
      && issued == None
      && LiveRows(s', user) == {}
      && forall other | other != user :: LiveRows(s', other) == LiveRows(s, other)
  {
  }

  // ---- whole runs ----

  datatype Op =
    | Issue(userId: string, secret: string, expiresAt: int)
    | Rotate(token: Token, newSecret: string, now: int, ttl: int)
    | Revoke(token: Token, now: int)
    | RevokeAll(userId: string, now: int)
    | SetActive(userId: string, active: bool)

  function Apply(s: Store, op: Op): Store {
    match op
    case Issue(userId, secret, expiresAt) => CreateRefreshToken(s, userId, secret, expiresAt).0
    case Rotate(token, secret, now, ttl) => RotateRefreshToken(s, token, secret, now, ttl).0
    case Revoke(token, now) => RevokeRefreshToken(s, token, now)
    case RevokeAll(userId, now) => RevokeAllForUser(s, userId, now)
    case SetActive(userId, active) =>
      s.(activeUsers := if active then s.activeUsers + {userId} else s.activeUsers - {userId})
  }

  function Run(s: Store, ops: seq<Op>): Store
    decreases |ops|
  {
    if ops == [] then s else Run(Apply(s, ops[0]), ops[1..])
  }

  function AcceptedBy(s: Store, op: Op): seq<nat> {
    if op.Rotate? && Examine(s, op.token, op.now) == Accepted then [op.token.rowId.value] else []
  }

  /** The rows whose tokens rotation accepted, in order. */
  function AcceptedRows(s: Store, ops: seq<Op>): seq<nat>
    decreases |ops|
  {
    if ops == [] then []
    else AcceptedBy(s, ops[0]) + AcceptedRows(Apply(s, ops[0]), ops[1..])
  }

  function Logins(ops: seq<Op>, userId: string): nat {
    if ops == [] then 0
    else (if ops[0].Issue? && ops[0].userId == userId then 1 else 0) + Logins(ops[1..], userId)
  }

  /** Every row of `s` is still there in `t`, belongs to the same user, and stays as it was once revoked. */
  ghost predicate Extends(s: Store, t: Store) {
    && |s.rows| <= |t.rows|
    && forall i | 0 <= i < |s.rows| ::
         && t.rows[i].userId == s.rows[i].userId
         && (s.rows[i].revokedAt.Some? ==> t.rows[i] == s.rows[i])
  }

  lemma {:induction false} RevocationIsPermanent(s: Store, ops: seq<Op>)
    ensures Extends(s, Run(s, ops))
    decreases |ops|
  {
    if ops != [] {
      assert Extends(s, Apply(s, ops[0]));
      RevocationIsPermanent(Apply(s, ops[0]), ops[1..]);
    }
  }

  /** `accepted` has no repetition, nothing in it was revoked in `s`, and all of it is revoked in `t`. */
  ghost predicate SpentOnce(s: Store, accepted: seq<nat>, t: Store) {
    && (forall i, j | 0 <= i < j < |accepted| :: accepted[i] != accepted[j])
    && (forall i | 0 <= i < |accepted| :: Known(s, accepted[i]) ==> !Revoked(s, accepted[i]))
    && (forall i | 0 <= i < |accepted| :: Known(t, accepted[i]) && Revoked(t, accepted[i]))
  }

  lemma SpendingOneMore(s: Store, s': Store, spent: seq<nat>, rest: seq<nat>, t: Store)
    requires Extends(s, s') && Extends(s', t) && SpentOnce(s', rest, t)
    requires |spent| <= 1
    requires forall id | id in spent :: Known(s, id) && !Revoked(s, id) && Known(s', id) && Revoked(s', id)
    ensures SpentOnce(s, spent + rest, t)
  {
  }

  lemma {:induction false} EachRowAcceptedAtMostOnce(s: Store, ops: seq<Op>)
    ensures SpentOnce(s, AcceptedRows(s, ops), Run(s, ops))
    decreases |ops|
  {
    if ops != [] {
      var s' := Apply(s, ops[0]);
      var rest := AcceptedRows(s', ops[1..]);
      EachRowAcceptedAtMostOnce(s', ops[1..]);
      RevocationIsPermanent(s, [ops[0]]);
      RevocationIsPermanent(s', ops[1..]);
      var spent := AcceptedBy(s, ops[0]);
      assert Run(s, [ops[0]]) == s';
      SpendingOneMore(s, s', spent, rest, Run(s, ops));
    }
  }

  lemma IssuingAddsOne(s: Store, userId: string, secret: string, expiresAt: int, other: string)
    ensures |LiveRows(CreateRefreshToken(s, userId, secret, expiresAt).0, other)| ==
      |LiveRows(s, other)| + if userId == other then 1 else 0
  {
    var s' := CreateRefreshToken(s, userId, secret, expiresAt).0;
    assert LiveRows(s', other) == LiveRows(s, other) + (if userId == other then {|s.rows|} else {});
  }

  /** No row is added and none comes back to life. */
  lemma OnlyRevoking(s: Store, s': Store, userId: string)
    requires |s'.rows| == |s.rows| && Extends(s, s')
    ensures |LiveRows(s', userId)| <= |LiveRows(s, userId)|
  {
    SubsetCount(LiveRows(s', userId), LiveRows(s, userId));
  }

  lemma StepSessions(s: Store, op: Op, userId: string)
    ensures |LiveRows(Apply(s, op), userId)| <= |LiveRows(s, userId)| + Logins([op], userId)
  {
    match op
    case Issue(u, secret, expiresAt) => IssuingAddsOne(s, u, secret, expiresAt, userId);
    case Rotate(token, secret, now, ttl) =>
      if Examine(s, token, now) == Accepted {
        RotationMovesOneSession(s, token, secret, now, ttl);
      } else {
        OnlyRevoking(s, Apply(s, op), userId);
      }
    case _ => OnlyRevoking(s, Apply(s, op), userId);
  }

  /** Rotation never multiplies sessions: what is live was live before or came from a login. */
  lemma {:induction false} SessionsBoundedByLogins(s: Store, ops: seq<Op>, userId: string)
    ensures |LiveRows(Run(s, ops), userId)| <= |LiveRows(s, userId)| + Logins(ops, userId)
    decreases |ops|
  {
    if ops != [] {
      StepSessions(s, ops[0], userId);
      SessionsBoundedByLogins(Apply(s, ops[0]), ops[1..], userId);
    }
  }

  // ---- the service ----

  class TokenService {
    var rows: seq<RefreshRow>
    var activeUsers: set<string>
    const refreshTtl: int

    constructor (refreshTtl: int)
      ensures Table() == Store([], {}) && this.refreshTtl == refreshTtl
    {
      rows, activeUsers := [], {};
      this.refreshTtl := refreshTtl;
    }

    function Table(): Store
      reads this
    {
      Store(rows, activeUsers)
    }

    method IssueTokens(userId: string, secret: string, now: int) returns (token: Token)
      modifies this`rows
      ensures (Table(), token) == CreateRefreshToken(old(Table()), userId, secret, now + refreshTtl)
      ensures Extends(old(Table()), Table())
      ensures secret != "" && userId in activeUsers ==>
        forall later: int :: Examine(Table(), token, later) == Accepted <==> later <= now + refreshTtl
    {
      token := Token(Some(|rows|), secret);
      rows := rows + [RefreshRow(userId, secret, now + refreshTtl, None)];
    }

    method RevokeAll(userId: string, now: int)
      modifies this`rows
      ensures Table() == RevokeAllForUser(old(Table()), userId, now)
      ensures Extends(old(Table()), Table())
    {
      var i := 0;
      while i < |rows|
        invariant 0 <= i <= |rows| == |old(rows)|
        invariant forall k | i <= k < |rows| :: rows[k] == old(rows)[k]
        invariant forall k | 0 <= k < i ::
          rows[k] == if old(rows)[k].userId == userId then RevokedRow(old(rows)[k], now) else old(rows)[k]
      {
        if rows[i].userId == userId && rows[i].revokedAt.None? {
          rows := rows[i := rows[i].(revokedAt := Some(now))];
        }
        i := i + 1;
      }
      assert rows == RevokeAllForUser(old(Table()), userId, now).rows;
    }

    method RevokeToken(token: Token, now: int)
      modifies this`rows
      ensures Table() == RevokeRefreshToken(old(Table()), token, now)
      ensures Extends(old(Table()), Table())
    {
      if token.rowId.None? {
        return;
      }
      var id := token.rowId.value;
      if id < |rows| && rows[id].revokedAt.None? {
        rows := rows[id := rows[id].(revokedAt := Some(now))];
      }
    }

    method Rotate(token: Token, secret: string, now: int) returns (issued: Option<Token>)
      modifies this`rows
      ensures (Table(), issued) == RotateRefreshToken(old(Table()), token, secret, now, refreshTtl)
      ensures Extends(old(Table()), Table())
      ensures issued.Some? && secret != "" ==>
        forall later: int :: Examine(Table(), issued.value, later) == Accepted <==> later <= now + refreshTtl
    {
      issued := None;
      if token.rowId.None? || token.secret == "" {
        return;
      }
      var id := token.rowId.value;
      if |rows| <= id {
        return;
      }
      var row := rows[id];
      if row.revokedAt.Some? {
        RevokeAll(row.userId, now);
        return;
      }
      if row.expiresAt < now || token.secret != row.secret || row.userId !in activeUsers {
        return;
      }
      rows := rows[id := row.(revokedAt := Some(now))];
      var minted := IssueTokens(row.userId, secret, now);
      issued := Some(minted);
    }
  }
}
