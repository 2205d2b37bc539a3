/** Who is online (chat/presence.service.ts) and what the gateway announces (chat/chat.gateway.ts).

    `handleConnection` awaits joining the user's room before it registers the socket, so a connection is two
    steps, and the socket may disconnect between them.
 */
module Presence {
  import opened Wrappers

  type SocketId = nat

  /** `sockets` holds no empty sets. */
  datatype Registry = Registry(sockets: map<string, set<SocketId>>, lastSeenAt: map<string, int>)

  function SocketsOf(r: Registry, userId: string): set<SocketId> {
    if userId in r.sockets then r.sockets[userId] else {}
  }

  function Add(r: Registry, userId: string, socket: SocketId): (Registry, bool) {
    (r.(sockets := r.sockets[userId := SocketsOf(r, userId) + {socket}]), SocketsOf(r, userId) == {})
  }

  function Remove(r: Registry, userId: string, socket: SocketId, now: int): (Registry, bool) {
    if userId !in r.sockets then (r, false)
    else if r.sockets[userId] - {socket} == {} then
      (Registry(r.sockets - {userId}, r.lastSeenAt[userId := now]), true)
    else (r.(sockets := r.sockets[userId := r.sockets[userId] - {socket}]), false)
  }

  predicate IsOnline(r: Registry, userId: string) {
    SocketsOf(r, userId) != {}
  }

  // ---- the gateway ----

  /** Joining: authenticated, room not yet joined.  Dropped: disconnected while joining.  Leaked: registered
      after it had been dropped. */
  datatype Phase = Joining | Connected | Dropped | Leaked | Gone

  datatype Socket = Socket(userId: string, phase: Phase)

  datatype Event = Event(userId: string, online: bool)

  /** Sockets are named in the order they connect. */
  datatype Gateway = Gateway(registry: Registry, sockets: seq<Socket>, events: seq<Event>)

  datatype Step = Connect(userId: string) | Joined(socket: SocketId) | Disconnect(socket: SocketId, now: int)

  function Announce(g: Gateway, edge: bool, event: Event): Gateway {
    if edge then g.(events := g.events + [event]) else g
  }

  function SetPhase(g: Gateway, socket: SocketId, phase: Phase): Gateway
    requires socket < |g.sockets|
  {
    g.(sockets := g.sockets[socket := g.sockets[socket].(phase := phase)])
  }

  predicate Enabled(g: Gateway, step: Step) {
    match step
    case Connect(_) => true
    case Joined(s) => s < |g.sockets| && g.sockets[s].phase in {Joining, Dropped}
    case Disconnect(s, _) => s < |g.sockets| && g.sockets[s].phase in {Joining, Connected}
  }

  function Next(g: Gateway, step: Step): Gateway {
    if !Enabled(g, step) then g
    else match step
      case Connect(userId) => g.(sockets := g.sockets + [Socket(userId, Joining)])
      case Joined(s) =>
        var userId := g.sockets[s].userId;
        var (registry, justOnline) := Add(g.registry, userId, s);
        var phase := if g.sockets[s].phase == Joining then Connected else Leaked;
        Announce(SetPhase(g, s, phase).(registry := registry), justOnline, Event(userId, true))
      case Disconnect(s, now) =>
        var userId := g.sockets[s].userId;
        var (registry, nowOffline) := Remove(g.registry, userId, s, now);
        var phase := if g.sockets[s].phase == Joining then Dropped else Gone;
        Announce(SetPhase(g, s, phase).(registry := registry), nowOffline, Event(userId, false))
  }

  function Run(g: Gateway, steps: seq<Step>): Gateway
    decreases |steps|
  {
    if steps == [] then g else Run(Next(g, steps[0]), steps[1..])
  }

  const SILENT := Gateway(Registry(map[], map[]), [], [])

  function SocketsIn(g: Gateway, userId: string, phases: set<Phase>): set<SocketId> {
    set s | 0 <= s < |g.sockets| && g.sockets[s].userId == userId && g.sockets[s].phase in phases
  }

  function EventsOf(events: seq<Event>, userId: string): seq<bool> {
    if events == [] then []
    else
      var n := |events| - 1;
      EventsOf(events[..n], userId) + if events[n].userId == userId then [events[n].online] else []
  }

  /** Online, offline, online, ... ending with the present state. */
  predicate Alternates(edges: seq<bool>, online: bool) {
    && (forall i | 0 <= i < |edges| :: edges[i] == (i % 2 == 0))
    && (online <==> |edges| % 2 == 1)
  }

  /** The registry holds the connected sockets and the leaked ones, and the announcements follow it. */
  ghost predicate PresenceOk(g: Gateway) {
    && (forall u | u in g.registry.sockets :: g.registry.sockets[u] != {})
    && (forall u: string :: SocketsOf(g.registry, u) == SocketsIn(g, u, {Connected, Leaked}))
    && (forall u: string :: Alternates(EventsOf(g.events, u), IsOnline(g.registry, u)))
  }

  lemma AnnouncementAlternates(g: Gateway, edge: bool, userId: string, online: bool, was: bool,
                               u: string, becomes: bool)
    requires Alternates(EventsOf(g.events, u), was)
    requires edge ==> online != (if u == userId then was else !online)
    requires becomes == if edge && u == userId then online else was
    ensures Alternates(EventsOf(Announce(g, edge, Event(userId, online)).events, u), becomes)
  {
  }

  lemma JoinedKeepsPresence(g: Gateway, s: SocketId)
    requires PresenceOk(g) && Enabled(g, Joined(s))
    ensures PresenceOk(Next(g, Joined(s)))
  {
    var g' := Next(g, Joined(s));
    var userId := g.sockets[s].userId;
    forall u: string
      ensures SocketsOf(g'.registry, u) == SocketsIn(g', u, {Connected, Leaked})
      ensures Alternates(EventsOf(g'.events, u), IsOnline(g'.registry, u))
    {
      assert SocketsIn(g', u, {Connected, Leaked}) ==
        SocketsIn(g, u, {Connected, Leaked}) + if u == userId then {s} else {};
      if u == userId {
        assert s in SocketsOf(g'.registry, u);
      }
      AnnouncementAlternates(g, SocketsOf(g.registry, userId) == {}, userId, true,
                             IsOnline(g.registry, u), u, IsOnline(g'.registry, u));
    }
  }

  lemma DisconnectKeepsPresence(g: Gateway, s: SocketId, now: int)
    requires PresenceOk(g) && Enabled(g, Disconnect(s, now))
    ensures PresenceOk(Next(g, Disconnect(s, now)))
  {
    var g' := Next(g, Disconnect(s, now));
    var userId := g.sockets[s].userId;
    assert SocketsOf(g.registry, userId) == SocketsIn(g, userId, {Connected, Leaked});
    forall u: string
      ensures SocketsOf(g'.registry, u) == SocketsIn(g', u, {Connected, Leaked})
      ensures Alternates(EventsOf(g'.events, u), IsOnline(g'.registry, u))
    {
      assert SocketsIn(g', u, {Connected, Leaked}) ==
        SocketsIn(g, u, {Connected, Leaked}) - if u == userId then {s} else {};
      AnnouncementAlternates(g, Remove(g.registry, userId, s, now).1, userId, false,
                             IsOnline(g.registry, u), u, IsOnline(g'.registry, u));
    }
  }

  lemma StepKeepsPresence(g: Gateway, step: Step)
    requires PresenceOk(g)
    ensures PresenceOk(Next(g, step))
  {
    if Enabled(g, step) {
      match step
      case Connect(userId) =>
        var g' := Next(g, step);
        forall u: string ensures SocketsOf(g'.registry, u) == SocketsIn(g', u, {Connected, Leaked}) {
          assert SocketsIn(g', u, {Connected, Leaked}) == SocketsIn(g, u, {Connected, Leaked});
        }
      case Joined(s) => JoinedKeepsPresence(g, s);
      case Disconnect(s, now) => DisconnectKeepsPresence(g, s, now);
    }
  }

  lemma {:induction false} RunKeepsPresence(g: Gateway, steps: seq<Step>)
    requires PresenceOk(g)
    ensures PresenceOk(Run(g, steps))
    decreases |steps|
  {
    if steps != [] {
      StepKeepsPresence(g, steps[0]);
      RunKeepsPresence(Next(g, steps[0]), steps[1..]);
    }
  }

  lemma SilenceIsOk()
    ensures PresenceOk(SILENT) && RegistryIsLive(SILENT)
  {
  }

  /** Announcements about a user strictly alternate, beginning with ONLINE, and the last one is the truth
      about the registry. */
  lemma AnnouncementsAlternate(steps: seq<Step>, userId: string)
    ensures var g := Run(SILENT, steps);
      Alternates(EventsOf(g.events, userId), IsOnline(g.registry, userId))
  {
    SilenceIsOk();
    RunKeepsPresence(SILENT, steps);
  }

  /** A leaked socket is never removed: its user stays online for ever after. */
  lemma {:induction false} LeakedStaysOnline(g: Gateway, steps: seq<Step>, s: SocketId)
    requires PresenceOk(g) && s < |g.sockets| && g.sockets[s].phase == Leaked
    ensures var g' := Run(g, steps);
      s < |g'.sockets| && g'.sockets[s] == g.sockets[s] && IsOnline(g'.registry, g.sockets[s].userId)
    decreases |steps|
  {
    if steps == [] {
      assert s in SocketsIn(g, g.sockets[s].userId, {Connected, Leaked});
    } else {
      StepKeepsPresence(g, steps[0]);
      LeakedStaysOnline(Next(g, steps[0]), steps[1..], s);
    }
  }

  /** A socket is registered although it has already been dropped. */
  predicate Late(g: Gateway, step: Step) {
    Enabled(g, step) && step.Joined? && g.sockets[step.socket].phase == Dropped
  }

  ghost predicate NeverLate(g: Gateway, steps: seq<Step>)
    decreases |steps|
  {
    steps == [] || (!Late(g, steps[0]) && NeverLate(Next(g, steps[0]), steps[1..]))
  }

  /** Who is online is who has a live socket, and through which sockets. */
  ghost predicate RegistryIsLive(g: Gateway) {
    forall u: string :: SocketsOf(g.registry, u) == SocketsIn(g, u, {Connected})
  }

  lemma LiveWithoutLeaks(g: Gateway)
    requires PresenceOk(g)
    ensures RegistryIsLive(g) <==> forall s | 0 <= s < |g.sockets| :: g.sockets[s].phase != Leaked
  {
    forall u: string
      ensures SocketsIn(g, u, {Connected, Leaked}) == SocketsIn(g, u, {Connected}) + SocketsIn(g, u, {Leaked})
    {
    }
    if RegistryIsLive(g) {
      forall s | 0 <= s < |g.sockets| ensures g.sockets[s].phase != Leaked {
        var u := g.sockets[s].userId;
        assert s in SocketsIn(g, u, {Connected, Leaked}) <==> s in SocketsIn(g, u, {Connected});
      }
    }
  }

  /** The registry is exactly the live sockets after a run if and only if no socket was registered late in it. */
  lemma {:induction false} PresenceIsLiveSocketsExactlyWhen(g: Gateway, steps: seq<Step>)
    requires PresenceOk(g) && RegistryIsLive(g)
    ensures RegistryIsLive(Run(g, steps)) <==> NeverLate(g, steps)
    decreases |steps|
  {
    if steps != [] {
      var g' := Next(g, steps[0]);
      StepKeepsPresence(g, steps[0]);
      LiveWithoutLeaks(g);
      LiveWithoutLeaks(g');
      if Late(g, steps[0]) {
        var s := steps[0].socket;
        LeakedStaysOnline(g', steps[1..], s);
        RunKeepsPresence(g', steps[1..]);
        LiveWithoutLeaks(Run(g', steps[1..]));
      } else {
        PresenceIsLiveSocketsExactlyWhen(g', steps[1..]);
      }
    }
  }

  /** One connection dropped before its room was joined is enough. */
  lemma DropWhileJoiningLeaks(userId: string, now: int)
    ensures var g := Run(SILENT, [Connect(userId), Disconnect(0, now), Joined(0)]);
      && g.sockets == [Socket(userId, Leaked)] && g.events == [Event(userId, true)]
      && IsOnline(g.registry, userId) && SocketsIn(g, userId, {Connected}) == {}
  {
    var g1 := Next(SILENT, Connect(userId));
    var g2 := Next(g1, Disconnect(0, now));
    var g3 := Next(g2, Joined(0));
    assert g2.registry == SILENT.registry && g2.sockets == [Socket(userId, Dropped)];
    assert [Joined(0)][1..] == [];
    assert Run(g2, [Joined(0)]) == g3;
    assert [Disconnect(0, now), Joined(0)][1..] == [Joined(0)];
    assert Run(g1, [Disconnect(0, now), Joined(0)]) == g3;
    assert [Connect(userId), Disconnect(0, now), Joined(0)][1..] == [Disconnect(0, now), Joined(0)];
  }

  // ---- when somebody was last seen ----

  /** The last socket of a user to go leaves the time of its going; nothing else touches anybody's. */
  lemma LastSeenIsStamped(g: Gateway, step: Step, userId: string)
    requires PresenceOk(g)
    ensures var g' := Next(g, step);
      var leaves := step.Disconnect? && Enabled(g, step) && g.sockets[step.socket].userId == userId
        && IsOnline(g.registry, userId) && !IsOnline(g'.registry, userId);
      if leaves then userId in g'.registry.lastSeenAt && g'.registry.lastSeenAt[userId] == step.now
      else
        && (userId in g'.registry.lastSeenAt <==> userId in g.registry.lastSeenAt)
        && (userId in g.registry.lastSeenAt ==> g'.registry.lastSeenAt[userId] == g.registry.lastSeenAt[userId])
  {
  }

  // ---- the services ----

  class PresenceService {
    var sockets: map<string, set<SocketId>>
    var lastSeenAt: map<string, int>

    constructor ()
      ensures View() == Registry(map[], map[])
    {
      sockets, lastSeenAt := map[], map[];
    }

    function View(): Registry
      reads this
    {
      Registry(sockets, lastSeenAt)
    }

    method AddSocket(userId: string, socket: SocketId) returns (wasOffline: bool)
      modifies this
      ensures (View(), wasOffline) == Add(old(View()), userId, socket)
    {
      var own := if userId in sockets then sockets[userId] else {};
      wasOffline := |own| == 0;
      own := own + {socket};
      sockets := sockets[userId := own];
    }

    method RemoveSocket(userId: string, socket: SocketId, now: int) returns (nowOffline: bool)
      modifies this
      ensures (View(), nowOffline) == Remove(old(View()), userId, socket, now)
    {
      if userId !in sockets {
        return false;
      }
      var own := sockets[userId] - {socket};
      sockets := sockets[userId := own];
      if |own| == 0 {
        sockets := sockets - {userId};
        lastSeenAt := lastSeenAt[userId := now];
        assert sockets == old(sockets) - {userId};
        return true;
      }
      return false;
    }

    /** Online means seen just now. */
    method LastSeen(userId: string, now: int) returns (seen: Option<int>)
      ensures IsOnline(View(), userId) ==> seen == Some(now)
      ensures !IsOnline(View(), userId) ==> seen == if userId in lastSeenAt then Some(lastSeenAt[userId]) else None
    {
      var online := userId in sockets && |sockets[userId]| > 0;
      if online {
        return Some(now);
      }
      return if userId in lastSeenAt then Some(lastSeenAt[userId]) else None;
    }
  }

  class ChatGateway {
    const presence: PresenceService
    var clients: seq<Socket>
    var events: seq<Event>

    constructor (presence: PresenceService)
      ensures this.presence == presence && View() == Gateway(presence.View(), [], [])
      ensures presence.View() == Registry(map[], map[]) ==> PresenceOk(View())
    {
      this.presence := presence;
      clients, events := [], [];
      SilenceIsOk();
    }

    function View(): Gateway
      reads this, presence
    {
      Gateway(presence.View(), clients, events)
    }

    method BeginConnection(userId: string)
      requires PresenceOk(View())
      modifies this
      ensures View() == Next(old(View()), Connect(userId)) && PresenceOk(View())
    {
      StepKeepsPresence(View(), Connect(userId));
      clients := clients + [Socket(userId, Joining)];
    }

    method FinishConnection(socket: SocketId)
      requires PresenceOk(View()) && Enabled(View(), Joined(socket))
      modifies this, presence
      ensures View() == Next(old(View()), Joined(socket)) && PresenceOk(View())
    {
      JoinedKeepsPresence(View(), socket);
      var userId := clients[socket].userId;
      var justOnline := presence.AddSocket(userId, socket);
      if justOnline {
        events := events + [Event(userId, true)];
      }
      var phase := if clients[socket].phase == Joining then Connected else Leaked;
      clients := clients[socket := clients[socket].(phase := phase)];
    }

    method HandleDisconnect(socket: SocketId, now: int)
      requires PresenceOk(View()) && Enabled(View(), Disconnect(socket, now))
      modifies this, presence
      ensures View() == Next(old(View()), Disconnect(socket, now)) && PresenceOk(View())
    {
      DisconnectKeepsPresence(View(), socket, now);
      var userId := clients[socket].userId;
      var nowOffline := presence.RemoveSocket(userId, socket, now);
      if nowOffline {
        events := events + [Event(userId, false)];
      }
      var phase := if clients[socket].phase == Joining then Dropped else Gone;
      clients := clients[socket := clients[socket].(phase := phase)];
    }
  }
}
