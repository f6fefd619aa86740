/** What the server's locked steps mean for the connections: who gets a signal, which id a
    newcomer is given, and how long rooms last. */
module ServerLaws {
  import opened Wrappers
  import opened Decimal
  import opened Rooms
  import opened Mailboxes
  import opened RoomRuns
  import opened RoomViews

  /* ---------- seats ---------- */

  /** Connection `c` sits in the room under that id. */
  predicate Sits(s: Server, handle: string, id: string, c: nat) {
    c in s.seats && s.seats[c].handle == handle && s.seats[c].id == id
  }

  ghost predicate Taken(s: Server, handle: string, id: string) {
    exists c :: Sits(s, handle, id, c)
  }

  ghost predicate AgentSits(s: Server, handle: string, id: string) {
    exists c :: Sits(s, handle, id, c) && s.seats[c].role.Agent?
  }

  /** The entries of a room are its seats. */
  lemma EntriesAreSeats(s: Server, handle: string, role: Role, id: string, c: nat)
    requires Inv(s) && handle in s.app.rooms
    ensures id in MembersOf(s.app.rooms[handle], role) && MembersOf(s.app.rooms[handle], role)[id] == c
       <==> Sits(s, handle, id, c) && s.seats[c].role == role
  {
    assert RoomOwned(s.seats, handle, s.app.rooms[handle]);
    if id in MembersOf(s.app.rooms[handle], role) {
      assert EntryOwned(s.seats, handle, role, id, MembersOf(s.app.rooms[handle], role)[id]);
    }
    if Sits(s, handle, id, c) { assert SeatHeld(s.app.rooms, c, s.seats[c]); }
  }

  /** An id is taken exactly if it has an entry, in one of the roles. */
  lemma TakenIffEntry(s: Server, handle: string, id: string)
    requires Inv(s) && handle in s.app.rooms
    ensures Taken(s, handle, id) <==> id in s.app.rooms[handle].agents || id in s.app.rooms[handle].zookeepers
    ensures !(id in s.app.rooms[handle].agents && id in s.app.rooms[handle].zookeepers)
  {
    var room := s.app.rooms[handle];
    assert RoomOwned(s.seats, handle, room);
    if id in room.agents { EntriesAreSeats(s, handle, Agent, id, room.agents[id]); }
    if id in room.zookeepers { EntriesAreSeats(s, handle, Zookeeper, id, room.zookeepers[id]); }
    if c :| Sits(s, handle, id, c) { EntriesAreSeats(s, handle, s.seats[c].role, id, c); }
  }

  lemma PrunedKeepsSeats(s: Server, now: nat)
    requires Inv(s)
    ensures Inv(s.(app := Pruned(s.app, now)))
    ensures forall c | c in s.seats :: s.seats[c].handle in Pruned(s.app, now).rooms
  {
    var p := s.(app := Pruned(s.app, now));
    PrunedSameMembers(s.app, now);
    SameMembersKeepsInv(s, p.app);
    forall c | c in s.seats ensures s.seats[c].handle in p.app.rooms { SeatFacts(p, c); }
  }

  /* ---------- signals ---------- */

  lemma AddresseeLaw(s: Server, conn: nat, peer: string)
    requires Inv(s) && conn in s.seats && s.seats[conn].handle in s.app.rooms
    ensures
      var seat := s.seats[conn];
      var to := Addressee(s.app.rooms[seat.handle], seat.id, peer);
      match to
      case Ok(c) => Sits(s, seat.handle, peer, c) && !(seat.role.Agent? && s.seats[c].role.Agent?)
      case Err(e) =>
        || (e == PeerNotConnected && !Taken(s, seat.handle, peer))
        || (e == AgentToAgent && seat.role.Agent? && AgentSits(s, seat.handle, peer))
  {
    var seat := s.seats[conn];
    var room := s.app.rooms[seat.handle];
    TakenIffEntry(s, seat.handle, seat.id);
    TakenIffEntry(s, seat.handle, peer);
    EntriesAreSeats(s, seat.handle, seat.role, seat.id, conn);
    assert Sits(s, seat.handle, seat.id, conn);
    if peer in room.agents { EntriesAreSeats(s, seat.handle, Agent, peer, room.agents[peer]); }
    if peer in room.zookeepers { EntriesAreSeats(s, seat.handle, Zookeeper, peer, room.zookeepers[peer]); }
    hide Inv, Taken, Owned;
  }

  /** A signal from a seated connection goes to the one that sits in the same room under
      the id asked for. Once the limiter lets it pass it fails only if there is none, or if
      both are agents; and the room is always there. */
  lemma SignalLaw(s: Server, conn: nat, peer: string, payload: nat, now: nat)
    requires Inv(s) && conn in s.seats
    ensures
      var seat := s.seats[conn];
      var outcome := ForwardSignal(s.app, seat.handle, seat.id, peer, payload, now).1;
      match outcome
      case Ok((c, message)) =>
        && Sits(s, seat.handle, peer, c) && !(seat.role.Agent? && s.seats[c].role.Agent?)
        && message == Signal(seat.id, payload)
      case Err(e) =>
        || e == SignalRateExceeded
        || (e == PeerNotConnected && !Taken(s, seat.handle, peer))
        || (e == AgentToAgent && seat.role.Agent? && AgentSits(s, seat.handle, peer))
  {
    var seat, p := s.seats[conn], s.(app := Pruned(s.app, now));
    PrunedKeepsSeats(s, now);
    AddresseeLaw(p, conn, peer);
    SameSeats(s, p, seat.handle, peer);
    PassedOn(s.app, seat.handle, seat.id, peer, payload, now);
    hide *;
  }

  lemma SameSeats(s: Server, p: Server, handle: string, id: string)
    requires p.seats == s.seats
    ensures forall c :: Sits(p, handle, id, c) <==> Sits(s, handle, id, c)
    ensures Taken(p, handle, id) <==> Taken(s, handle, id)
    ensures AgentSits(p, handle, id) <==> AgentSits(s, handle, id)
  {
    assert forall c :: Sits(p, handle, id, c) <==> Sits(s, handle, id, c);
    if c :| Sits(s, handle, id, c) && s.seats[c].role.Agent? { assert Sits(p, handle, id, c); }
    if c :| Sits(p, handle, id, c) && p.seats[c].role.Agent? { assert Sits(s, handle, id, c); }
  }

  /** Once the limiter has let it pass, the addressee decides. */
  lemma PassedOn(app: App, handle: string, sender: string, peer: string, payload: nat, now: nat)
    requires handle in Pruned(app, now).rooms
    ensures
      var outcome := ForwardSignal(app, handle, sender, peer, payload, now).1;
      outcome == Err(SignalRateExceeded)
      || (match Addressee(Pruned(app, now).rooms[handle], sender, peer)
          case Ok(c) => outcome == Ok((c, Signal(sender, payload)))
          case Err(e) => outcome == Err(e))
  {
    hide Pruned, PruneWindow, Addressee;
  }

  /** Who is asked for in that way is one connection. */
  lemma OneSits(s: Server, handle: string, id: string, c: nat, d: nat)
    requires Inv(s) && Sits(s, handle, id, c) && Sits(s, handle, id, d)
    ensures c == d
  {
    SeatFacts(s, c);
    EntriesAreSeats(s, handle, s.seats[c].role, id, c);
    EntriesAreSeats(s, handle, s.seats[d].role, id, d);
    TakenIffEntry(s, handle, id);
  }

  /* ---------- ids ---------- */

  predicate Wished(alias: Option<string>) {
    alias.Some? && alias.value != ""
  }

  /** A newcomer gets the id it wishes for unless it is taken, and otherwise its role and a
      number that has not been used for it before; never an id that is taken. */
  lemma NewcomersId(s: Server, conn: nat, handle: string, role: Role, alias: Option<string>, now: nat)
    requires Inv(s)
    ensures
      var (app, outcome) := Register(s.app, handle, role, alias, conn, now);
      && (outcome.Err? <==> handle !in Pruned(s.app, now).rooms)
      && (outcome.Err? ==> outcome.error == ChannelNotFound)
      && (outcome.Ok? ==>
            var id := outcome.value.clientId;
            && !Taken(s, handle, id)
            && (if Wished(alias) && !Taken(s, handle, alias.value)
                then id == alias.value && app.nextClientId == s.app.nextClientId
                else app.nextClientId > s.app.nextClientId
                     && id == (if role.Agent? then "agent-" else "zookeeper-") + Dec(app.nextClientId)))
  {
    var p := s.(app := Pruned(s.app, now));
    PrunedKeepsSeats(s, now);
    if handle in p.app.rooms {
      var id := Enrol(p.app, handle, role, alias, conn, now).1.clientId;
      assert forall i, c :: Sits(p, handle, i, c) <==> Sits(s, handle, i, c);
      assert forall i :: Taken(p, handle, i) <==> Taken(s, handle, i);
      TakenIffEntry(p, handle, id);
      if alias.Some? { TakenIffEntry(p, handle, alias.value); }
      hide Inv, Taken, Pruned, FirstFree;
    }
  }

  /* ---------- how long rooms last ---------- */

  ghost predicate Somebody(s: Server, handle: string) {
    exists c :: c in s.seats && s.seats[c].handle == handle
  }

  /** A room is pruned exactly if nobody is in it and it has been idle for its time to live. */
  lemma PrunedIff(app: App, handle: string, now: nat)
    requires handle in app.rooms
    ensures
      var room, ttl := app.rooms[handle], app.config.roomTtl;
      handle in Pruned(app, now).rooms <==>
        room.agents != map[] || room.zookeepers != map[] || (ttl > 0 && now < room.lastActiveAt + ttl)
    ensures handle in Pruned(app, now).rooms ==> Pruned(app, now).rooms[handle] == app.rooms[handle]
    ensures Pruned(app, now).rooms.Keys <= app.rooms.Keys && Pruned(app, now).config == app.config
  {
    hide PrunedLogs;
  }

  /** A new room lasts its time to live if nobody comes. It is refused if as many as are
      allowed have not been pruned, or if it is one of them. */
  lemma NewRoomLasts(app: App, handle: string, passwordFile: seq<nat>, now: nat, later: nat)
    ensures
      var (q, failure) := StoreRoom(app, handle, passwordFile, now);
      var left := Pruned(app, now).rooms;
      && (failure == Some(RoomQuotaExceeded) <==> |left| >= app.config.maxRooms)
      && (failure == Some(DuplicateRoom) <==> |left| < app.config.maxRooms && handle in left)
      && (failure == None <==> |left| < app.config.maxRooms && handle !in left)
      && (failure == None ==>
            && handle in q.rooms && q.rooms[handle].passwordFile == passwordFile
            && (handle in Pruned(q, later).rooms <==> app.config.roomTtl > 0 && later < now + app.config.roomTtl))
  {
    var q := StoreRoom(app, handle, passwordFile, now).0;
    if handle in q.rooms { PrunedIff(q, handle, later); }
    hide Pruned;
    assert Pruned(app, now).config == app.config by { SameConfig(app, now); }
  }

  lemma SameConfig(app: App, now: nat)
    ensures Pruned(app, now).config == app.config
  {
  }

  /** A room that somebody leaves lasts as long as others are in it, and else its time to
      live from then on. */
  lemma LeftRoomLasts(s: Server, conn: nat, now: nat, later: nat)
    requires Inv(s) && conn in s.seats && conn in s.mail && now <= later
    ensures
      var t, handle := DoDisconnect(s, conn, now), s.seats[conn].handle;
      handle in Pruned(t.app, later).rooms <==> Somebody(t, handle) || later < now + s.app.config.roomTtl
  {
    var t, seat, p := DoDisconnect(s, conn, now), s.seats[conn], Pruned(s.app, now);
    PrunedKeepsSeats(s, now);
    SameConfig(s.app, now);
    EntriesAreSeats(s.(app := p), seat.handle, seat.role, seat.id, conn);
    var q := Leave(p, seat.handle, seat.role, seat.id, now);
    LeaveClock(p, seat.handle, seat.role, seat.id, now);
    assert t.app == Pruned(q, now);
    DisconnectKeepsInv(s, conn, now);
    PrunedIff(q, seat.handle, now);
    if seat.handle in t.app.rooms {
      PrunedIff(t.app, seat.handle, later);
      SomebodyIff(t, seat.handle);
    } else if c :| c in t.seats && t.seats[c].handle == seat.handle {
      SeatFacts(t, c);
    }
    hide Inv, Pruned, Leave, DoDisconnect;
  }

  lemma LeaveClock(app: App, handle: string, role: Role, id: string, now: nat)
    requires IsMember(app, handle, role, id)
    ensures
      var q := Leave(app, handle, role, id, now);
      handle in q.rooms && q.rooms[handle].lastActiveAt == now && q.config == app.config
  {
  }

  lemma SomebodyIff(s: Server, handle: string)
    requires Inv(s) && handle in s.app.rooms
    ensures Somebody(s, handle) <==> s.app.rooms[handle].agents != map[] || s.app.rooms[handle].zookeepers != map[]
  {
    var room := s.app.rooms[handle];
    if id :| id in room.agents { EntriesAreSeats(s, handle, Agent, id, room.agents[id]); }
    if id :| id in room.zookeepers { EntriesAreSeats(s, handle, Zookeeper, id, room.zookeepers[id]); }
    if c :| c in s.seats && s.seats[c].handle == handle {
      EntriesAreSeats(s, handle, s.seats[c].role, s.seats[c].id, c);
    }
  }
}
