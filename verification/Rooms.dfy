/** The room server's shared state as a value, and what each of its locked steps does. */
module Rooms {
  import opened Wrappers
  import opened Decimal

  datatype Role = Agent | Zookeeper

  datatype Message =
    | Connected(clientId: string, role: Role, agents: set<string>, zookeepers: set<string>)
    | PeerJoined(role: Role, clientId: string)
    | PeerLeft(role: Role, clientId: string)
    | Signal(peerId: string, payload: nat)
    | ErrorNote
    | Pong

  /** Members are kept by client id, each with the number of its connection. */
  type Members = map<string, nat>

  datatype Room = Room(passwordFile: seq<nat>, agents: Members, zookeepers: Members,
                       lastActiveAt: nat, signalEvents: seq<nat>)

  datatype Config = Config(maxRooms: nat, roomTtl: nat, authRateLimit: nat, authRateWindow: nat,
                           signalRateLimit: nat, signalRateWindow: nat)

  datatype App = App(config: Config, nextClientId: nat, rooms: map<string, Room>,
                     authEventsByIp: map<nat, seq<nat>>)

  datatype Error =
    | ChannelNotFound | RoomQuotaExceeded | DuplicateRoom | TooManyAttempts
    | SignalRateExceeded | SenderNotConnected | PeerNotConnected | AgentToAgent

  function Opposite(role: Role): Role {
    if role.Agent? then Zookeeper else Agent
  }

  function MembersOf(room: Room, role: Role): Members {
    if role.Agent? then room.agents else room.zookeepers
  }

  function WithMembers(room: Room, role: Role, members: Members): Room {
    if role.Agent? then room.(agents := members) else room.(zookeepers := members)
  }

  /* ---------- sliding windows ---------- */

  predicate Expired(event: nat, window: nat, now: nat) {
    SatSub(now, event) >= window
  }

  /** The first event from `i` on that is still inside the window. */
  function FirstFresh(events: seq<nat>, window: nat, now: nat, i: nat): (k: nat)
    requires i <= |events|
    ensures i <= k <= |events|
    ensures forall j | i <= j < k :: Expired(events[j], window, now)
    ensures k < |events| ==> !Expired(events[k], window, now)
    decreases |events| - i
  {
    if i < |events| && Expired(events[i], window, now) then FirstFresh(events, window, now, i + 1) else i
  }

  /** The events left after dropping expired ones from the front. */
  function PruneWindow(events: seq<nat>, window: nat, now: nat): seq<nat> {
    events[FirstFresh(events, window, now, 0)..]
  }

  /* ---------- pruning ---------- */

  /** An occupied room stays; an empty one stays for its time to live. */
  predicate Stays(room: Room, ttl: nat, now: nat) {
    room.agents != map[] || room.zookeepers != map[] || SatSub(now, room.lastActiveAt) < ttl
  }

  function PrunedRooms(rooms: map<string, Room>, ttl: nat, now: nat): map<string, Room> {
    map h | h in rooms && Stays(rooms[h], ttl, now) :: rooms[h]
  }

  function PrunedLogs(logs: map<nat, seq<nat>>, window: nat, now: nat): map<nat, seq<nat>> {
    map ip | ip in logs && PruneWindow(logs[ip], window, now) != [] :: PruneWindow(logs[ip], window, now)
  }

  function Pruned(app: App, now: nat): App {
    app.(rooms := PrunedRooms(app.rooms, app.config.roomTtl, now),
         authEventsByIp := PrunedLogs(app.authEventsByIp, app.config.authRateWindow, now))
  }

  /* ---------- client ids ---------- */

  function Prefix(role: Role): string {
    if role.Agent? then "agent-" else "zookeeper-"
  }

  function Candidate(role: Role, n: nat): string {
    Prefix(role) + Dec(n)
  }

  lemma CandidateInjective(role: Role, m: nat, n: nat)
    requires Candidate(role, m) == Candidate(role, n)
    ensures m == n
  {
    assert Candidate(role, m)[|Prefix(role)|..] == Dec(m);
    assert Candidate(role, n)[|Prefix(role)|..] == Dec(n);
    DecInjective(m, n);
  }

  /** The next free number after `n`, found within one more try than ids are occupied. */
  function FirstFree(role: Role, n: nat, occupied: set<string>): (k: nat)
    ensures n < k <= n + |occupied| + 1
    ensures Candidate(role, k) !in occupied
    ensures forall j | n < j < k :: Candidate(role, j) in occupied
    decreases |occupied|
  {
    var id := Candidate(role, n + 1);
    if id !in occupied then n + 1
    else
      var k := FirstFree(role, n + 1, occupied - {id});
      assert Candidate(role, k) != id by { if Candidate(role, k) == id { CandidateInjective(role, k, n + 1); } }
      k
  }

  predicate Usable(preferred: Option<string>, occupied: set<string>) {
    preferred.Some? && preferred.value != "" && preferred.value !in occupied
  }

  /** The client's id and the id counter: its own wish if that is free. */
  function ChosenId(role: Role, preferred: Option<string>, next: nat, occupied: set<string>): (r: (string, nat))
    ensures r.0 !in occupied
  {
    if Usable(preferred, occupied) then (preferred.value, next)
    else
      var k := FirstFree(role, next, occupied);
      (Candidate(role, k), k)
  }

  /* ---------- the locked steps ---------- */

  /** What registering hands back: the new id, the first message for the client
      itself, and the message for each member of the other role. */
  datatype Registration = Registration(clientId: string, connected: Message, joined: Message, peers: Members)

  function Occupied(room: Room): set<string> {
    room.agents.Keys + room.zookeepers.Keys
  }

  function Enrol(app: App, handle: string, role: Role, preferred: Option<string>, conn: nat, now: nat): (App,
                 Registration)
    requires handle in app.rooms
  {
    var room := app.rooms[handle];
    var (id, next) := ChosenId(role, preferred, app.nextClientId, Occupied(room));
    var entered := WithMembers(room.(lastActiveAt := now), role, MembersOf(room, role)[id := conn]);
    (app.(nextClientId := next, rooms := app.rooms[handle := entered]),
     Registration(id, Connected(id, role, room.agents.Keys, room.zookeepers.Keys), PeerJoined(role, id),
                  MembersOf(room, Opposite(role))))
  }

  function Register(app: App, handle: string, role: Role, preferred: Option<string>, conn: nat, now: nat)
    : (App, Result<Registration, Error>)
  {
    var p := Pruned(app, now);
    if handle !in p.rooms then (p, Err(ChannelNotFound))
    else
      var (q, registration) := Enrol(p, handle, role, preferred, conn, now);
      (q, Ok(registration))
  }

  predicate IsMember(app: App, handle: string, role: Role, id: string) {
    handle in app.rooms && id in MembersOf(app.rooms[handle], role)
  }

  function Leave(app: App, handle: string, role: Role, id: string, now: nat): App
    requires IsMember(app, handle, role, id)
  {
    var room := app.rooms[handle];
    app.(rooms := app.rooms[handle :=
      WithMembers(room.(lastActiveAt := now), role, MembersOf(room, role) - {id})])
  }

  /** Unregistering tells the members of the other role; it prunes before and after. */
  function Unregister(app: App, handle: string, role: Role, id: string, now: nat): (App, Members)
  {
    var p := Pruned(app, now);
    if !IsMember(p, handle, role, id) then (Pruned(p, now), map[])
    else (Pruned(Leave(p, handle, role, id, now), now), MembersOf(p.rooms[handle], Opposite(role)))
  }

  function StoreRoom(app: App, handle: string, passwordFile: seq<nat>, now: nat): (App, Option<Error>) {
    var p := Pruned(app, now);
    if |p.rooms| >= p.config.maxRooms then (p, Some(RoomQuotaExceeded))
    else if handle in p.rooms then (p, Some(DuplicateRoom))
    else (p.(rooms := p.rooms[handle := Room(passwordFile, map[], map[], now, [])]), None)
  }

  function LogOf(logs: map<nat, seq<nat>>, ip: nat): seq<nat> {
    if ip in logs then logs[ip] else []
  }

  function CheckAuthRateLimit(app: App, ip: nat, now: nat): (App, Option<Error>) {
    var p := Pruned(app, now);
    var events := PruneWindow(LogOf(p.authEventsByIp, ip), p.config.authRateWindow, now);
    if |events| >= p.config.authRateLimit
    then (p.(authEventsByIp := p.authEventsByIp[ip := events]), Some(TooManyAttempts))
    else (p.(authEventsByIp := p.authEventsByIp[ip := events + [now]]), None)
  }

  function RoleOf(room: Room, id: string): Option<Role> {
    if id in room.agents then Some(Agent) else if id in room.zookeepers then Some(Zookeeper) else None
  }

  /** Whom a signal goes to, once the limiter has let it pass. */
  function Addressee(room: Room, sender: string, peer: string): Result<nat, Error> {
    if RoleOf(room, sender).None? then Err(SenderNotConnected)
    else if RoleOf(room, peer).None? then Err(PeerNotConnected)
    else if RoleOf(room, sender) == Some(Agent) && RoleOf(room, peer) == Some(Agent) then Err(AgentToAgent)
    else Ok(MembersOf(room, RoleOf(room, peer).value)[peer])
  }

  /** An attempt that passes the limiter is counted even if it cannot be delivered. */
  function ForwardSignal(app: App, handle: string, sender: string, peer: string, payload: nat, now: nat)
    : (App, Result<(nat, Message), Error>)
  {
    var p := Pruned(app, now);
    if handle !in p.rooms then (p, Err(ChannelNotFound))
    else
      var room := p.rooms[handle];
      var events := PruneWindow(room.signalEvents, p.config.signalRateWindow, now);
      if |events| >= p.config.signalRateLimit
      then (p.(rooms := p.rooms[handle := room.(signalEvents := events)]), Err(SignalRateExceeded))
      else
        var counted := p.(rooms := p.rooms[handle := room.(signalEvents := events + [now], lastActiveAt := now)]);
        match Addressee(room, sender, peer)
        case Err(e) => (counted, Err(e))
        case Ok(conn) => (counted, Ok((conn, Signal(sender, payload))))
  }
}
