/** Messages, read receipts and unread counts (chat/message.service.ts).

    Message rows are never removed, so a message is named by its position.  Every call happens at a later
    instant than the one before.
 */
module Chat {
  import opened Wrappers

  datatype MessageStatus = Sent | Delivered | Read

  datatype Message = Message(
    conversationId: nat, senderId: string, status: MessageStatus, createdAt: int, tombstone: bool)

  datatype Participant = Participant(conversationId: nat, userId: string, lastReadAt: Option<int>)

  datatype State = State(messages: seq<Message>, participants: seq<Participant>, clock: int)

  datatype Error = NotAParticipant | MessageNotFound | NotYourMessage

  function Rank(status: MessageStatus): nat {
    match status
    case Sent => 0
    case Delivered => 1
    case Read => 2
  }

  predicate IsParticipant(s: State, conversationId: nat, userId: string) {
    exists p | 0 <= p < |s.participants| ::
      s.participants[p].conversationId == conversationId && s.participants[p].userId == userId
  }

  /** A message of the conversation that somebody else sent. */
  predicate Incoming(m: Message, conversationId: nat, userId: string) {
    m.conversationId == conversationId && m.senderId != userId
  }

  // ---- the calls ----

  function Join(s: State, conversationId: nat, userId: string): State {
    if IsParticipant(s, conversationId, userId) then s
    else s.(participants := s.participants + [Participant(conversationId, userId, None)])
  }

  function Send(s: State, conversationId: nat, userId: string): Result<State, Error> {
    if !IsParticipant(s, conversationId, userId) then Failure(NotAParticipant)
    else Success(s.(messages := s.messages + [Message(conversationId, userId, Sent, s.clock, false)]))
  }

  /** The instant up to which `markRead` marks: now, or the creation of the given message. */
  function ReadUpTo(s: State, conversationId: nat, messageId: Option<nat>): Option<int> {
    match messageId
    case None => Some(s.clock)
    case Some(id) =>
      if id < |s.messages| && s.messages[id].conversationId == conversationId then Some(s.messages[id].createdAt)
      else None
  }

  function ReadMessages(messages: seq<Message>, conversationId: nat, userId: string, upTo: int): seq<Message> {
    seq(|messages|, i requires 0 <= i < |messages| =>
      if Incoming(messages[i], conversationId, userId) && messages[i].createdAt <= upTo
      then messages[i].(status := Read) else messages[i])
  }

  function ReadParticipants(participants: seq<Participant>, conversationId: nat, userId: string, upTo: int)
    : seq<Participant>
  {
    seq(|participants|, i requires 0 <= i < |participants| =>
      if participants[i].conversationId == conversationId && participants[i].userId == userId
      then participants[i].(lastReadAt := Some(upTo)) else participants[i])
  }

  function MarkRead(s: State, conversationId: nat, userId: string, messageId: Option<nat>): Result<State, Error> {
    var upTo := ReadUpTo(s, conversationId, messageId);
    if !IsParticipant(s, conversationId, userId) then Failure(NotAParticipant)
    else if upTo.None? then Failure(MessageNotFound)
    else Success(s.(participants := ReadParticipants(s.participants, conversationId, userId, upTo.value),
                    messages := ReadMessages(s.messages, conversationId, userId, upTo.value)))
  }

  function MarkDelivered(s: State, conversationId: nat, recipient: string): State {
    s.(messages := seq(|s.messages|, i requires 0 <= i < |s.messages| =>
      if Incoming(s.messages[i], conversationId, recipient) && s.messages[i].status == Sent
      then s.messages[i].(status := Delivered) else s.messages[i]))
  }

  function SoftDelete(s: State, userId: string, isAdmin: bool, id: nat): Result<State, Error> {
    if id >= |s.messages| then Failure(MessageNotFound)
    else if s.messages[id].senderId != userId && !isAdmin then Failure(NotYourMessage)
    else Success(s.(messages := s.messages[id := s.messages[id].(tombstone := true)]))
  }

  // ---- runs ----

  datatype Op =
    | DoJoin(conversationId: nat, userId: string)
    | DoSend(conversationId: nat, userId: string)
    | DoMarkRead(conversationId: nat, userId: string, messageId: Option<nat>)
    | DoMarkDelivered(conversationId: nat, userId: string)
    | DoSoftDelete(userId: string, isAdmin: bool, id: nat)

  /** Time passes, then the call happens; a call that throws changes nothing else. */
  function Apply(s: State, op: Op, elapsed: nat): State {
    var now := s.(clock := s.clock + 1 + elapsed);
    match op
    case DoJoin(conversationId, userId) => Join(now, conversationId, userId)
    case DoSend(conversationId, userId) =>
      var r := Send(now, conversationId, userId);
      if r.Success? then r.value else now
    case DoMarkRead(conversationId, userId, messageId) =>
      var r := MarkRead(now, conversationId, userId, messageId);
      if r.Success? then r.value else now
    case DoMarkDelivered(conversationId, userId) => MarkDelivered(now, conversationId, userId)
    case DoSoftDelete(userId, isAdmin, id) =>
      var r := SoftDelete(now, userId, isAdmin, id);
      if r.Success? then r.value else now
  }

  function Run(s: State, ops: seq<(Op, nat)>): State
    decreases |ops|
  {
    if ops == [] then s else Run(Apply(s, ops[0].0, ops[0].1), ops[1..])
  }

  const EMPTY_CHAT := State([], [], 0)

  /** Status never goes back, and who wrote what, where and when stays. */
  ghost predicate Advanced(s: State, t: State) {
    && |s.messages| <= |t.messages|
    && forall i | 0 <= i < |s.messages| ::
         && Rank(s.messages[i].status) <= Rank(t.messages[i].status)
         && t.messages[i].senderId == s.messages[i].senderId
         && t.messages[i].conversationId == s.messages[i].conversationId
         && t.messages[i].createdAt == s.messages[i].createdAt
  }

  lemma {:induction false} StatusNeverGoesBack(s: State, ops: seq<(Op, nat)>)
    ensures Advanced(s, Run(s, ops))
    decreases |ops|
  {
    if ops != [] {
      StatusNeverGoesBack(Apply(s, ops[0].0, ops[0].1), ops[1..]);
    }
  }

  /** Every message from someone else at or before a participant's `lastReadAt` is READ. */
  ghost predicate ReceiptsOk(s: State) {
    && (forall m | m in s.messages :: m.createdAt <= s.clock)
    && (forall p | p in s.participants && p.lastReadAt.Some? :: p.lastReadAt.value <= s.clock)
    && (forall p, m | p in s.participants && m in s.messages && p.lastReadAt.Some?
          && Incoming(m, p.conversationId, p.userId) && m.createdAt <= p.lastReadAt.value :: m.status == Read)
  }

  lemma MarkReadKeepsReceipts(s: State, conversationId: nat, userId: string, messageId: Option<nat>)
    requires ReceiptsOk(s) && MarkRead(s, conversationId, userId, messageId).Success?
    ensures ReceiptsOk(MarkRead(s, conversationId, userId, messageId).value)
  {
  }

  lemma SendKeepsReceipts(s: State, conversationId: nat, userId: string)
    requires ReceiptsOk(s) && Send(s, conversationId, userId).Success?
    requires forall p | p in s.participants && p.lastReadAt.Some? :: p.lastReadAt.value < s.clock
    ensures ReceiptsOk(Send(s, conversationId, userId).value)
  {
  }

  lemma DeliveryKeepsReceipts(s: State, conversationId: nat, userId: string)
    requires ReceiptsOk(s)
    ensures ReceiptsOk(MarkDelivered(s, conversationId, userId))
  {
  }

  lemma DeletionKeepsReceipts(s: State, userId: string, isAdmin: bool, id: nat)
    requires ReceiptsOk(s) && SoftDelete(s, userId, isAdmin, id).Success?
    ensures ReceiptsOk(SoftDelete(s, userId, isAdmin, id).value)
  {
  }

  lemma StepKeepsReceipts(s: State, op: Op, elapsed: nat)
    requires ReceiptsOk(s)
    ensures ReceiptsOk(Apply(s, op, elapsed))
  {
    var now := s.(clock := s.clock + 1 + elapsed);
    assert ReceiptsOk(now);
    match op
    case DoMarkRead(conversationId, userId, messageId) =>
      if MarkRead(now, conversationId, userId, messageId).Success? {
        MarkReadKeepsReceipts(now, conversationId, userId, messageId);
      }
    case DoSend(conversationId, userId) =>
      if Send(now, conversationId, userId).Success? {
        SendKeepsReceipts(now, conversationId, userId);
      }
    case DoJoin(_, _) =>
    case DoMarkDelivered(conversationId, userId) => DeliveryKeepsReceipts(now, conversationId, userId);
    case DoSoftDelete(userId, isAdmin, id) =>
      if SoftDelete(now, userId, isAdmin, id).Success? {
        DeletionKeepsReceipts(now, userId, isAdmin, id);
      }
  }

  lemma {:induction false} RunKeepsReceipts(s: State, ops: seq<(Op, nat)>)
    requires ReceiptsOk(s)
    ensures ReceiptsOk(Run(s, ops))
    decreases |ops|
  {
    if ops != [] {
      StepKeepsReceipts(s, ops[0].0, ops[0].1);
      RunKeepsReceipts(Apply(s, ops[0].0, ops[0].1), ops[1..]);
    }
  }

  // ---- unread counts ----

  predicate AfterReadMark(m: Message, p: Participant) {
    p.lastReadAt.Some? ==> m.createdAt > p.lastReadAt.value
  }

  function Unread(s: State, p: Participant): set<nat> {
    set i | 0 <= i < |s.messages| && Incoming(s.messages[i], p.conversationId, p.userId)
      && AfterReadMark(s.messages[i], p)
  }

  function NotYetRead(s: State, p: Participant): set<nat> {
    set i | 0 <= i < |s.messages| && Incoming(s.messages[i], p.conversationId, p.userId) && s.messages[i].status != Read
  }

  /** Messages already read that lie after the read mark, because it was moved back. */
  function ReadAgain(s: State, p: Participant): set<nat> {
    set i | 0 <= i < |s.messages| && Incoming(s.messages[i], p.conversationId, p.userId)
      && AfterReadMark(s.messages[i], p) && s.messages[i].status == Read
  }

  /** The unread count is the messages not yet read plus exactly those that a moved-back read mark counts again. */
  lemma UnreadCountExplained(ops: seq<(Op, nat)>, p: Participant)
    requires p in Run(EMPTY_CHAT, ops).participants
    ensures var s := Run(EMPTY_CHAT, ops);
      |Unread(s, p)| == |NotYetRead(s, p)| + |ReadAgain(s, p)|
  {
    RunKeepsReceipts(EMPTY_CHAT, ops);
    var s := Run(EMPTY_CHAT, ops);
    forall i | i in NotYetRead(s, p) ensures i in Unread(s, p) {
      assert s.messages[i] in s.messages;
    }
    assert Unread(s, p) == NotYetRead(s, p) + ReadAgain(s, p);
    assert NotYetRead(s, p) !! ReadAgain(s, p);
  }

  /** Marking a whole conversation read leaves its reader with nothing unread. */
  lemma MarkAllReadLeavesNothing(s: State, conversationId: nat, userId: string)
    requires ReceiptsOk(s) && IsParticipant(s, conversationId, userId)
    ensures var t := MarkRead(s, conversationId, userId, None);
      t.Success? && forall p | p in t.value.participants && p.conversationId == conversationId && p.userId == userId ::
        Unread(t.value, p) == {} && NotYetRead(t.value, p) == {}
  {
  }

  /** The unread list of one user: a count for each conversation. */
  function PerConversation(s: State, parts: seq<Participant>, userId: string): seq<(nat, nat)> {
    if parts == [] then []
    else
      var last := parts[|parts| - 1];
      PerConversation(s, parts[..|parts| - 1], userId) +
        if last.userId == userId then [(last.conversationId, |Unread(s, last)|)] else []
  }

  function Total(per: seq<(nat, nat)>): nat {
    if per == [] then 0 else Total(per[..|per| - 1]) + per[|per| - 1].1
  }

  function WithUnread(per: seq<(nat, nat)>): seq<(nat, nat)> {
    if per == [] then []
    else WithUnread(per[..|per| - 1]) + if per[|per| - 1].1 > 0 then [per[|per| - 1]] else []
  }

  function GlobalUnread(s: State, userId: string): (nat, seq<(nat, nat)>) {
    var per := PerConversation(s, s.participants, userId);
    (Total(per), WithUnread(per))
  }

  /** The total is taken over all conversations, the list shows only some: they still agree. */
  lemma {:induction false} TotalOfShown(per: seq<(nat, nat)>)
    ensures Total(WithUnread(per)) == Total(per)
    ensures forall c | c in WithUnread(per) :: c.1 > 0
    ensures forall c | c in per :: c in WithUnread(per) <==> c.1 > 0
  {
    if per != [] {
      var n := |per| - 1;
      TotalOfShown(per[..n]);
      var shown := WithUnread(per[..n]);
      if per[n].1 > 0 {
        assert (shown + [per[n]])[..|shown|] == shown;
      } else {
        assert shown + [] == shown;
      }
    }
  }

  lemma GlobalUnreadAgrees(s: State, userId: string)
    ensures GlobalUnread(s, userId).0 == Total(GlobalUnread(s, userId).1)
  {
    TotalOfShown(PerConversation(s, s.participants, userId));
  }

  // ---- what each call leaves ----

  predicate SameParticipants(s: State, t: State) {
    t.participants == s.participants
  }

  /** A participant's message is appended, sent now by him and not read by anybody; others send nothing. */
  lemma MessageIsSent(s: State, conversationId: nat, userId: string, elapsed: nat)
    ensures var t, n := Apply(s, DoSend(conversationId, userId), elapsed), |s.messages|;
      && t.clock == s.clock + 1 + elapsed && SameParticipants(s, t)
      && if exists p | p in s.participants :: p.conversationId == conversationId && p.userId == userId then
           && |t.messages| == n + 1 && t.messages[..n] == s.messages
           && t.messages[n] == Message(conversationId, userId, Sent, t.clock, false)
         else t.messages == s.messages
  {
    var now := s.(clock := s.clock + 1 + elapsed);
    if p :| p in s.participants && p.conversationId == conversationId && p.userId == userId {
      var i :| 0 <= i < |s.participants| && s.participants[i] == p;
      assert IsParticipant(now, conversationId, userId);
    } else {
      assert forall i | 0 <= i < |s.participants| :: s.participants[i] in s.participants;
      assert !IsParticipant(now, conversationId, userId);
    }
  }

  predicate OnlyStatusesDiffer(s: State, t: State) {
    && |t.messages| == |s.messages|
    && forall i | 0 <= i < |s.messages| ::
         t.messages[i] == s.messages[i].(status := t.messages[i].status)
  }

  /** Every message of the conversation from somebody else that was sent is delivered, and no other is touched. */
  lemma MessagesAreDelivered(s: State, conversationId: nat, recipient: string, elapsed: nat)
    ensures var t := Apply(s, DoMarkDelivered(conversationId, recipient), elapsed);
      && SameParticipants(s, t) && OnlyStatusesDiffer(s, t)
      && forall i | 0 <= i < |s.messages| ::
           var m := s.messages[i];
           t.messages[i].status ==
             if m.conversationId == conversationId && m.senderId != recipient && m.status == Sent then Delivered
             else m.status
  {
  }

  /** Every message of the conversation from somebody else up to the instant is read, the reader's mark is set to it,
      and nothing else is touched. */
  lemma MessagesAreRead(s: State, conversationId: nat, userId: string, elapsed: nat)
    requires IsParticipant(s, conversationId, userId)
    ensures var t := Apply(s, DoMarkRead(conversationId, userId, None), elapsed);
      && OnlyStatusesDiffer(s, t) && |t.participants| == |s.participants|
      && (forall i | 0 <= i < |s.messages| ::
            var m := s.messages[i];
            t.messages[i].status ==
              if m.conversationId == conversationId && m.senderId != userId && m.createdAt <= t.clock then Read
              else m.status)
      && (forall p | 0 <= p < |s.participants| ::
            var was := s.participants[p];
            t.participants[p] == Participant(was.conversationId, was.userId,
              if was.conversationId == conversationId && was.userId == userId then Some(t.clock) else was.lastReadAt))
  {
    assert IsParticipant(s.(clock := s.clock + 1 + elapsed), conversationId, userId);
  }

  /** Reading up to a message of the conversation reads what others sent until then, and sets the mark there. */
  lemma MessagesAreReadUpTo(s: State, conversationId: nat, userId: string, id: nat, elapsed: nat)
    requires IsParticipant(s, conversationId, userId)
    requires id < |s.messages| && s.messages[id].conversationId == conversationId
    ensures var t, upTo := Apply(s, DoMarkRead(conversationId, userId, Some(id)), elapsed), s.messages[id].createdAt;
      && OnlyStatusesDiffer(s, t) && |t.participants| == |s.participants|
      && (forall i | 0 <= i < |s.messages| ::
            var m := s.messages[i];
            t.messages[i].status ==
              if m.conversationId == conversationId && m.senderId != userId && m.createdAt <= upTo then Read
              else m.status)
      && (forall p | 0 <= p < |s.participants| ::
            var was := s.participants[p];
            t.participants[p] == Participant(was.conversationId, was.userId,
              if was.conversationId == conversationId && was.userId == userId then Some(upTo) else was.lastReadAt))
  {
    assert IsParticipant(s.(clock := s.clock + 1 + elapsed), conversationId, userId);
  }

  /** Only the sender or an administrator deletes a message, which leaves it in place with its status. */
  lemma MessageIsDeleted(s: State, userId: string, isAdmin: bool, id: nat, elapsed: nat)
    ensures var t := Apply(s, DoSoftDelete(userId, isAdmin, id), elapsed);
      && SameParticipants(s, t) && |t.messages| == |s.messages|
      && (forall i | 0 <= i < |s.messages| && i != id :: t.messages[i] == s.messages[i])
      && (id < |s.messages| ==>
            t.messages[id] == s.messages[id].(
              tombstone := s.messages[id].tombstone || isAdmin || s.messages[id].senderId == userId))
  {
  }

  /** Joining makes a participant who has read nothing, once. */
  lemma ParticipantJoins(s: State, conversationId: nat, userId: string, elapsed: nat)
    ensures var t := Apply(s, DoJoin(conversationId, userId), elapsed);
      && t.messages == s.messages && IsParticipant(t, conversationId, userId)
      && t.participants ==
         if IsParticipant(s, conversationId, userId) then s.participants
         else s.participants + [Participant(conversationId, userId, None)]
  {
    var now := s.(clock := s.clock + 1 + elapsed);
    assert IsParticipant(now, conversationId, userId) <==> IsParticipant(s, conversationId, userId);
    if !IsParticipant(s, conversationId, userId) {
      var t := Join(now, conversationId, userId);
      assert t.participants[|s.participants|] == Participant(conversationId, userId, None);
    }
  }

  // ---- what the global count counts ----

  /** Nobody takes part in a conversation twice. */
  ghost predicate OncePerConversation(s: State) {
    forall i, j | 0 <= i < j < |s.participants| && s.participants[i].userId == s.participants[j].userId ::
      s.participants[i].conversationId != s.participants[j].conversationId
  }

  lemma JoiningKeepsOnce(s: State, op: Op, elapsed: nat)
    requires OncePerConversation(s)
    ensures OncePerConversation(Apply(s, op, elapsed))
  {
  }

  lemma {:induction false} RunKeepsOnce(s: State, ops: seq<(Op, nat)>)
    requires OncePerConversation(s)
    ensures OncePerConversation(Run(s, ops))
    decreases |ops|
  {
    if ops != [] {
      JoiningKeepsOnce(s, ops[0].0, ops[0].1);
      RunKeepsOnce(Apply(s, ops[0].0, ops[0].1), ops[1..]);
    }
  }

  /** The messages that are unread for the user in the conversations of the first `n` participant rows. */
  function UnreadFor(s: State, userId: string, n: nat): set<nat>
    requires n <= |s.participants|
  {
    set i | 0 <= i < |s.messages| && UnreadThrough(s, userId, n, i)
  }

  predicate UnreadThrough(s: State, userId: string, n: nat, i: nat)
    requires n <= |s.participants| && i < |s.messages|
  {
    exists p | 0 <= p < n ::
      && s.participants[p].userId == userId
      && s.messages[i].conversationId == s.participants[p].conversationId && s.messages[i].senderId != userId
      && (s.participants[p].lastReadAt.Some? ==> s.messages[i].createdAt > s.participants[p].lastReadAt.value)
  }

  lemma OneMoreConversation(s: State, userId: string, n: nat)
    requires OncePerConversation(s) && n < |s.participants|
    ensures var p := s.participants[n];
      |UnreadFor(s, userId, n + 1)| == |UnreadFor(s, userId, n)| + if p.userId == userId then |Unread(s, p)| else 0
  {
    var p := s.participants[n];
    if p.userId == userId {
      forall i | 0 <= i < |s.messages|
        ensures UnreadThrough(s, userId, n + 1, i) <==> UnreadThrough(s, userId, n, i) || i in Unread(s, p)
      {
        if i in Unread(s, p) {
          assert s.participants[n].userId == userId;
        }
      }
      assert UnreadFor(s, userId, n + 1) == UnreadFor(s, userId, n) + Unread(s, p);
      forall i | i in Unread(s, p) ensures i !in UnreadFor(s, userId, n) {
      }
      assert UnreadFor(s, userId, n) !! Unread(s, p);
    } else {
      assert UnreadFor(s, userId, n + 1) == UnreadFor(s, userId, n);
    }
  }

  lemma {:induction false} TotalCountsMessages(s: State, userId: string, n: nat)
    requires OncePerConversation(s) && n <= |s.participants|
    ensures Total(PerConversation(s, s.participants[..n], userId)) == |UnreadFor(s, userId, n)|
  {
    if n == 0 {
      assert UnreadFor(s, userId, 0) == {};
    } else {
      var last := s.participants[n - 1];
      TotalCountsMessages(s, userId, n - 1);
      OneMoreConversation(s, userId, n - 1);
      assert s.participants[..n][..n - 1] == s.participants[..n - 1];
      var before := PerConversation(s, s.participants[..n - 1], userId);
      if last.userId == userId {
        assert (before + [(last.conversationId, |Unread(s, last)|)])[..|before|] == before;
      } else {
        assert before + [] == before;
      }
    }
  }

  /** After any calls the global count is the number of messages that others sent in the user's conversations after
      his read mark there, each counted once. */
  lemma GlobalUnreadCountsMessages(ops: seq<(Op, nat)>, userId: string)
    ensures var s := Run(EMPTY_CHAT, ops);
      GlobalUnread(s, userId).0 == |UnreadFor(s, userId, |s.participants|)|
  {
    RunKeepsOnce(EMPTY_CHAT, ops);
    var s := Run(EMPTY_CHAT, ops);
    TotalCountsMessages(s, userId, |s.participants|);
    assert s.participants[..|s.participants|] == s.participants;
  }

  // ---- the service ----

  class MessageService {
    var messages: seq<Message>
    var participants: seq<Participant>

    constructor ()
      ensures messages == [] && participants == []
    {
      messages, participants := [], [];
    }

    function At(clock: int): State
      reads this
    {
      State(messages, participants, clock)
    }

    /** Every read mark is older than the present call. */
    ghost predicate EarlierThan(now: int)
      reads this
    {
      forall p | p in participants && p.lastReadAt.Some? :: p.lastReadAt.value < now
    }

    method Create(conversationId: nat, userId: string, now: int) returns (thrown: Option<Error>)
      requires ReceiptsOk(At(now)) && EarlierThan(now)
      modifies this
      ensures match Send(old(At(now)), conversationId, userId)
        case Success(s) => thrown == None && At(now) == s
        case Failure(error) => thrown == Some(error) && At(now) == old(At(now))
      ensures ReceiptsOk(At(now))
    {
      if Send(At(now), conversationId, userId).Success? {
        SendKeepsReceipts(At(now), conversationId, userId);
      }
      if !IsParticipant(At(now), conversationId, userId) {
        return Some(NotAParticipant);
      }
      messages := messages + [Message(conversationId, userId, Sent, now, false)];
      return None;
    }

    method Mark(conversationId: nat, userId: string, messageId: Option<nat>, now: int) returns (thrown: Option<Error>)
      requires ReceiptsOk(At(now)) && EarlierThan(now)
      modifies this
      ensures match MarkRead(old(At(now)), conversationId, userId, messageId)
        case Success(s) => thrown == None && At(now) == s
        case Failure(error) => thrown == Some(error) && At(now) == old(At(now))
      ensures ReceiptsOk(At(now))
    {
      if MarkRead(At(now), conversationId, userId, messageId).Success? {
        MarkReadKeepsReceipts(At(now), conversationId, userId, messageId);
      }
      if !IsParticipant(At(now), conversationId, userId) {
        return Some(NotAParticipant);
      }
      var upTo := now;
      if messageId.Some? {
        if messageId.value >= |messages| || messages[messageId.value].conversationId != conversationId {
          return Some(MessageNotFound);
        }
        upTo := messages[messageId.value].createdAt;
      }
      var p := 0;
      while p < |participants|
        invariant 0 <= p <= |participants| == |old(participants)| && messages == old(messages)
        invariant forall k | p <= k < |participants| :: participants[k] == old(participants)[k]
        invariant forall k | 0 <= k < p ::
          participants[k] == ReadParticipants(old(participants), conversationId, userId, upTo)[k]
      {
        if participants[p].conversationId == conversationId && participants[p].userId == userId {
          participants := participants[p := participants[p].(lastReadAt := Some(upTo))];
        }
        p := p + 1;
      }
      var i := 0;
      while i < |messages|
        invariant 0 <= i <= |messages| == |old(messages)|
        invariant participants == ReadParticipants(old(participants), conversationId, userId, upTo)
        invariant forall k | i <= k < |messages| :: messages[k] == old(messages)[k]
        invariant forall k | 0 <= k < i ::
          messages[k] == ReadMessages(old(messages), conversationId, userId, upTo)[k]
      {
        var m := messages[i];
        if m.conversationId == conversationId && m.senderId != userId && m.status != Read && m.createdAt <= upTo {
          messages := messages[i := m.(status := Read)];
        }
        i := i + 1;
      }
      assert messages == ReadMessages(old(messages), conversationId, userId, upTo);
      return None;
    }

    method Delete(userId: string, isAdmin: bool, id: nat, now: int) returns (thrown: Option<Error>)
      requires ReceiptsOk(At(now)) && EarlierThan(now)
      modifies this
      ensures match SoftDelete(old(At(now)), userId, isAdmin, id)
        case Success(s) => thrown == None && At(now) == s
        case Failure(error) => thrown == Some(error) && At(now) == old(At(now))
      ensures ReceiptsOk(At(now))
    {
      if SoftDelete(At(now), userId, isAdmin, id).Success? {
        DeletionKeepsReceipts(At(now), userId, isAdmin, id);
      }
      if id >= |messages| {
        return Some(MessageNotFound);
      }
      if messages[id].senderId != userId && !isAdmin {
        return Some(NotYourMessage);
      }
      messages := messages[id := messages[id].(tombstone := true)];
      return None;
    }

    method Deliver(conversationId: nat, recipient: string)
      modifies this
      ensures forall clock: int :: At(clock) == MarkDelivered(old(At(clock)), conversationId, recipient)
      ensures forall clock: int :: old(ReceiptsOk(At(clock))) ==> ReceiptsOk(At(clock))
    {
      var i := 0;
      ghost var delivered := MarkDelivered(At(0), conversationId, recipient).messages;
      while i < |messages|
        invariant 0 <= i <= |messages| == |old(messages)| && participants == old(participants)
        invariant forall k | i <= k < |messages| :: messages[k] == old(messages)[k]
        invariant forall k | 0 <= k < i :: messages[k] == delivered[k]
      {
        var m := messages[i];
        if m.conversationId == conversationId && m.senderId != recipient && m.status == Sent {
          messages := messages[i := m.(status := Delivered)];
        }
        i := i + 1;
      }
      assert messages == delivered;
      forall clock: int ensures At(clock) == MarkDelivered(old(At(clock)), conversationId, recipient) {
        assert MarkDelivered(old(At(clock)), conversationId, recipient).messages == delivered;
      }
      forall clock: int | old(ReceiptsOk(At(clock))) ensures ReceiptsOk(At(clock)) {
        DeliveryKeepsReceipts(old(At(clock)), conversationId, recipient);
      }
    }
  }
}
