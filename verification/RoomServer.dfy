/** The room server's shared state as it runs. The body of each method is what one
    caller does while it holds the lock; the clock reading is a parameter. */
module RoomServer {
  import opened Wrappers
  import opened Rooms

  class AppState {
    const config: Config
    var nextClientId: nat
    var rooms: map<string, Room>
    var authEventsByIp: map<nat, seq<nat>>

    ghost function View(): App
      reads this
    {
      App(config, nextClientId, rooms, authEventsByIp)
    }

    constructor (config: Config)
      ensures View() == App(config, 0, map[], map[])
    {
      this.config := config;
      nextClientId := 0;
      rooms := map[];
      authEventsByIp := map[];
    }

    method PruneExpiredRooms(now: nat)
      modifies this`rooms, this`authEventsByIp
      ensures View() == Pruned(old(View()), now)
    {
      rooms := PrunedRooms(rooms, config.roomTtl, now);
      var logs := PruneLogs(authEventsByIp, config.authRateWindow, now);
      authEventsByIp := logs;
    }

    /** The id loop: it ends within one try more than there are occupied ids. */
    method GenerateId(role: Role, occupied: set<string>) returns (clientId: string)
      modifies this`nextClientId
      ensures clientId == Candidate(role, nextClientId) && clientId !in occupied
      ensures nextClientId == FirstFree(role, old(nextClientId), occupied)
    {
      ghost var start, left := nextClientId, occupied;
      while true
        invariant start <= nextClientId
        invariant left <= occupied
        invariant forall id | id in occupied && id !in left :: WasTried(role, start, nextClientId, id)
        invariant FirstFree(role, nextClientId, left) == FirstFree(role, start, occupied)
        decreases |left|
      {
        nextClientId := nextClientId + 1;
        clientId := Candidate(role, nextClientId);
        if clientId !in occupied {
          return;
        }
        assert clientId in left by {
          if clientId !in left {
            var k :| start < k < nextClientId && clientId == Candidate(role, k);
            CandidateInjective(role, k, nextClientId);
          }
        }
        ghost var was := left;
        left := left - {clientId};
        forall id | id in occupied && id !in left ensures WasTried(role, start, nextClientId, id) {
          if id !in was { assert WasTried(role, start, nextClientId - 1, id); }
        }
      }
    }

    method Register(handle: string, role: Role, preferred: Option<string>, conn: nat, now: nat)
      returns (r: Result<Registration, Error>)
      modifies this
      ensures (View(), r) == Rooms.Register(old(View()), handle, role, preferred, conn, now)
    {
      PruneExpiredRooms(now);
      if handle !in rooms {
        return Err(ChannelNotFound);
      }
      var room := rooms[handle];
      var occupied := room.agents.Keys + room.zookeepers.Keys;
      var clientId;
      if preferred.Some? && preferred.value != "" && preferred.value !in occupied {
        clientId := preferred.value;
      } else {
        clientId := GenerateId(role, occupied);
      }
      room := room.(lastActiveAt := now);
      var connected := Connected(clientId, role, room.agents.Keys, room.zookeepers.Keys);
      var peers;
      match role {
        case Agent =>
          room := room.(agents := room.agents[clientId := conn]);
          peers := room.zookeepers;
        case Zookeeper =>
          room := room.(zookeepers := room.zookeepers[clientId := conn]);
          peers := room.agents;
      }
      rooms := rooms[handle := room];
      r := Ok(Registration(clientId, connected, PeerJoined(role, clientId), peers));
    }

    method Unregister(handle: string, role: Role, clientId: string, now: nat) returns (peers: Members)
      modifies this
      ensures (View(), peers) == Rooms.Unregister(old(View()), handle, role, clientId, now)
    {
      PruneExpiredRooms(now);
      peers := map[];
      if handle in rooms {
        var room := rooms[handle];
        match role {
          case Agent =>
            if clientId in room.agents {
              rooms := rooms[handle := room.(agents := room.agents - {clientId}, lastActiveAt := now)];
              peers := room.zookeepers;
            }
          case Zookeeper =>
            if clientId in room.zookeepers {
              rooms := rooms[handle := room.(zookeepers := room.zookeepers - {clientId}, lastActiveAt := now)];
              peers := room.agents;
            }
        }
      }
      PruneExpiredRooms(now);
    }

    method StoreRoom(handle: string, passwordFile: seq<nat>, now: nat) returns (failure: Option<Error>)
      modifies this
      ensures (View(), failure) == Rooms.StoreRoom(old(View()), handle, passwordFile, now)
    {
      PruneExpiredRooms(now);
      if |rooms| >= config.maxRooms {
        return Some(RoomQuotaExceeded);
      }
      if handle in rooms {
        return Some(DuplicateRoom);
      }
      rooms := rooms[handle := Room(passwordFile, map[], map[], now, [])];
      failure := None;
    }

    method CheckAuthRateLimit(ip: nat, now: nat) returns (failure: Option<Error>)
      modifies this
      ensures (View(), failure) == Rooms.CheckAuthRateLimit(old(View()), ip, now)
    {
      PruneExpiredRooms(now);
      var events := if ip in authEventsByIp then authEventsByIp[ip] else [];
      events := PruneEventWindow(events, config.authRateWindow, now);
      if |events| >= config.authRateLimit {
        authEventsByIp := authEventsByIp[ip := events];
        return Some(TooManyAttempts);
      }
      authEventsByIp := authEventsByIp[ip := events + [now]];
      failure := None;
    }

    method ForwardSignal(handle: string, sender: string, peer: string, payload: nat, now: nat)
      returns (r: Result<(nat, Message), Error>)
      modifies this
      ensures (View(), r) == Rooms.ForwardSignal(old(View()), handle, sender, peer, payload, now)
    {
      PruneExpiredRooms(now);
      if handle !in rooms {
        return Err(ChannelNotFound);
      }
      var room := rooms[handle];
      var events := PruneEventWindow(room.signalEvents, config.signalRateWindow, now);
      if |events| >= config.signalRateLimit {
        rooms := rooms[handle := room.(signalEvents := events)];
        return Err(SignalRateExceeded);
      }
      room := room.(signalEvents := events + [now], lastActiveAt := now);
      rooms := rooms[handle := room];
      var senderRole := RoleOf(room, sender);
      if senderRole.None? {
        return Err(SenderNotConnected);
      }
      var peerRole := RoleOf(room, peer);
      if peerRole.None? {
        return Err(PeerNotConnected);
      }
      if senderRole == Some(Agent) && peerRole == Some(Agent) {
        return Err(AgentToAgent);
      }
      var conn := if peer in room.agents then room.agents[peer] else room.zookeepers[peer];
      r := Ok((conn, Signal(sender, payload)));
    }
  }

  method PruneLogs(logs: map<nat, seq<nat>>, window: nat, now: nat) returns (kept: map<nat, seq<nat>>)
    ensures kept == PrunedLogs(logs, window, now)
  {
    kept := map[];
    var ips := logs.Keys;
    while ips != {}
      invariant ips <= logs.Keys
      invariant forall ip :: ip in kept <==>
                  ip in logs && ip !in ips && PruneWindow(logs[ip], window, now) != []
      invariant forall ip | ip in kept :: kept[ip] == PruneWindow(logs[ip], window, now)
      decreases ips
    {
      var ip :| ip in ips;
      var events := PruneEventWindow(logs[ip], window, now);
      if events != [] {
        kept := kept[ip := events];
      }
      ips := ips - {ip};
    }
  }

  ghost predicate WasTried(role: Role, start: nat, next: nat, id: string) {
    exists k: nat | start < k <= next :: id == Candidate(role, k)
  }

  /** Expired events are popped off the front until a fresh one is met. */
  method PruneEventWindow(log: seq<nat>, window: nat, now: nat) returns (events: seq<nat>)
    ensures events == PruneWindow(log, window, now)
  {
    events := log;
    ghost var dropped := 0;
    while events != []
      invariant 0 <= dropped <= |log| && events == log[dropped..]
      invariant FirstFresh(log, window, now, dropped) == FirstFresh(log, window, now, 0)
      decreases |events|
    {
      if SatSub(now, events[0]) < window {
        break;
      }
      events := events[1..];
      dropped := dropped + 1;
    }
  }
}
