/** Runs of the whole server: connections that register, exchange signals and leave.

    A step is what one task does while it holds the lock, or one message that a task
    enqueues after it has released the lock. Steps of different tasks come in any
    order; each task works off its own list before it does anything else. */
module RoomRuns {
  import opened Wrappers
  import opened Rooms
  import opened Mailboxes

  /** A registered connection: its room, role and client id. */
  datatype Seat = Seat(handle: string, role: Role, id: string)

  /** A signal that got through the lock, or the answer to its sender that it did not. */
  datatype Note = Note(to: nat, message: Message, isAnswer: bool)

  datatype Server = Server(app: App, capacity: nat, seats: map<nat, Seat>, mail: Mail, notes: map<nat, Note>)

  datatype Action =
    | Connect(conn: nat, handle: string, role: Role, alias: Option<string>, now: nat)
    | Deliver(conn: nat, to: nat)
    | SendSignal(conn: nat, peer: string, payload: nat, now: nat)
    | DeliverNote(conn: nat)
    | Notify(conn: nat, note: Message)
    | Drain(conn: nat)
    | Disconnect(conn: nat, now: nat)
    | Close(conn: nat)
    | CreateRoom(handle: string, passwordFile: seq<nat>, now: nat)
    | Authenticate(ip: nat, now: nat)
    | Touch(now: nat)

  /** Nothing is left that the task of this connection has still to enqueue. */
  predicate Idle(s: Server, conn: nat) {
    conn !in s.notes && forall c | c in s.mail :: !HasFrom(s.mail[c].coming, conn)
  }

  /** A connection number is used once. A task enqueues its own greeting before it
      tells others, and all it has to tell before it goes on. */
  predicate Enabled(s: Server, a: Action) {
    match a
    case Connect(conn, _, _, _, _) => conn !in s.mail
    case Deliver(conn, to) =>
      && to in s.mail && HasFrom(s.mail[to].coming, conn)
      && (conn in s.mail && conn != to ==> !HasFrom(s.mail[conn].coming, conn))
    case SendSignal(conn, _, _, _) => conn in s.seats && Idle(s, conn)
    case DeliverNote(conn) => conn in s.notes
    case Notify(conn, note) => conn in s.seats && (note.Pong? || note.ErrorNote?) && Idle(s, conn)
    case Drain(conn) => conn in s.seats && conn in s.mail && Idle(s, conn)
    case Disconnect(conn, _) => conn in s.seats && conn in s.mail && Idle(s, conn)
    case Close(conn) => conn !in s.seats && conn in s.mail && Idle(s, conn)
    case _ => true
  }

  function DoConnect(s: Server, conn: nat, handle: string, role: Role, alias: Option<string>, now: nat): Server {
    var (app, outcome) := Register(s.app, handle, role, alias, conn, now);
    match outcome
    case Err(_) => s.(app := app)
    case Ok(r) =>
      var mine := s.mail[conn := Issue(EMPTY, conn, r.connected)];
      s.(app := app, seats := s.seats[conn := Seat(handle, role, r.clientId)],
         mail := IssueAll(mine, conn, r.peers.Values, r.joined))
  }

  function DoDisconnect(s: Server, conn: nat, now: nat): Server
    requires conn in s.seats
  {
    var seat := s.seats[conn];
    var (app, peers) := Unregister(s.app, seat.handle, seat.role, seat.id, now);
    s.(app := app, seats := s.seats - {conn},
       mail := IssueAll(s.mail, conn, peers.Values, PeerLeft(seat.role, seat.id)))
  }

  function DoDeliver(s: Server, conn: nat, to: nat): Server
    requires to in s.mail && HasFrom(s.mail[to].coming, conn)
  {
    s.(mail := s.mail[to := Delivered(s.mail[to], s.capacity, conn)])
  }

  function DoSignal(s: Server, conn: nat, peer: string, payload: nat, now: nat): Server
    requires conn in s.seats
  {
    var (app, outcome) := ForwardSignal(s.app, s.seats[conn].handle, s.seats[conn].id, peer, payload, now);
    match outcome
    case Err(_) => s.(app := app, notes := s.notes[conn := Note(conn, ErrorNote, true)])
    case Ok((to, message)) => s.(app := app, notes := s.notes[conn := Note(to, message, false)])
  }

  function DoDeliverNote(s: Server, conn: nat): Server
    requires conn in s.notes
  {
    s.(mail := SendTo(s.mail, s.capacity, s.notes[conn].to, s.notes[conn].message), notes := s.notes - {conn})
  }

  function DoDrain(s: Server, conn: nat): Server
    requires conn in s.mail
  {
    s.(mail := s.mail[conn := s.mail[conn].(waiting := SatSub(s.mail[conn].waiting, 1))])
  }

  function DoClose(s: Server, conn: nat): Server
    requires conn in s.mail
  {
    s.(mail := s.mail[conn := s.mail[conn].(open := false)])
  }

  function Step(s: Server, a: Action): Server
    requires Enabled(s, a)
  {
    match a
    case Connect(conn, handle, role, alias, now) => DoConnect(s, conn, handle, role, alias, now)
    case Deliver(conn, to) => DoDeliver(s, conn, to)
    case SendSignal(conn, peer, payload, now) => DoSignal(s, conn, peer, payload, now)
    case DeliverNote(conn) => DoDeliverNote(s, conn)
    case Notify(conn, note) => s.(mail := SendTo(s.mail, s.capacity, conn, note))
    case Drain(conn) => DoDrain(s, conn)
    case Disconnect(conn, now) => DoDisconnect(s, conn, now)
    case Close(conn) => DoClose(s, conn)
    case CreateRoom(handle, passwordFile, now) => s.(app := StoreRoom(s.app, handle, passwordFile, now).0)
    case Authenticate(ip, now) => s.(app := CheckAuthRateLimit(s.app, ip, now).0)
    case Touch(now) => s.(app := Pruned(s.app, now))
  }

  /* ---------- ownership ---------- */

  /** The seat's entry is in its room, under its id and role, with its connection. */
  predicate SeatHeld(rooms: map<string, Room>, conn: nat, seat: Seat) {
    && seat.handle in rooms
    && seat.id in MembersOf(rooms[seat.handle], seat.role)
    && MembersOf(rooms[seat.handle], seat.role)[seat.id] == conn
  }

  /** The entry under `id` belongs to a connection that holds that very seat. */
  predicate EntryOwned(seats: map<nat, Seat>, handle: string, role: Role, id: string, conn: nat) {
    conn in seats && seats[conn] == Seat(handle, role, id)
  }

  ghost predicate RoomOwned(seats: map<nat, Seat>, handle: string, room: Room) {
    && room.agents.Keys !! room.zookeepers.Keys
    && (forall id | id in room.agents :: EntryOwned(seats, handle, Agent, id, room.agents[id]))
    && (forall id | id in room.zookeepers :: EntryOwned(seats, handle, Zookeeper, id, room.zookeepers[id]))
  }

  ghost predicate Owned(rooms: map<string, Room>, seats: map<nat, Seat>) {
    && (forall conn | conn in seats :: SeatHeld(rooms, conn, seats[conn]))
    && (forall h | h in rooms :: RoomOwned(seats, h, rooms[h]))
  }

  /* ---------- what clients are told ---------- */

  /** What is due to a client tells it exactly who of the other role is in its room. */
  predicate Informed(rooms: map<string, Room>, seat: Seat, box: Mailbox) {
    && box.open
    && seat.handle in rooms
    && Heard(box.due, seat.role) == Live(MembersOf(rooms[seat.handle], Opposite(seat.role)).Keys)
  }

  ghost predicate AllInformed(s: Server) {
    forall conn | conn in s.seats :: conn in s.mail && Informed(s.app.rooms, s.seats[conn], s.mail[conn])
  }

  ghost predicate NotesOk(mail: Mail, notes: map<nat, Note>) {
    forall c | c in notes ::
      !AboutMembers(notes[c].message) && notes[c].to in mail && (notes[c].isAnswer ==> notes[c].to == c)
  }

  /** Whatever the order of enqueueing: who is a member, and what is due to whom. */
  ghost predicate Inv(s: Server) {
    s.capacity >= 1 && Owned(s.app.rooms, s.seats) && AllInformed(s) && NotesOk(s.mail, s.notes)
  }

  /* ---------- steps keep it ---------- */

  /** Rooms may come and go empty; what members there are is the same. */
  ghost predicate SameMembers(before: map<string, Room>, rooms: map<string, Room>) {
    && (forall h | h in rooms ::
          if h in before then rooms[h].agents == before[h].agents && rooms[h].zookeepers == before[h].zookeepers
          else rooms[h].agents == map[] && rooms[h].zookeepers == map[])
    && (forall h | h in before && (before[h].agents != map[] || before[h].zookeepers != map[]) :: h in rooms)
  }

  lemma PrunedSameMembers(app: App, now: nat)
    ensures SameMembers(app.rooms, Pruned(app, now).rooms)
  {
  }

  lemma SameMembersOwned(before: map<string, Room>, rooms: map<string, Room>, seats: map<nat, Seat>)
    requires SameMembers(before, rooms) && Owned(before, seats)
    ensures Owned(rooms, seats)
    ensures forall conn | conn in seats :: seats[conn].handle in before && seats[conn].handle in rooms
  {
    forall conn | conn in seats ensures SeatHeld(rooms, conn, seats[conn]) && seats[conn].handle in before {
      assert SeatHeld(before, conn, seats[conn]);
    }
    forall h | h in rooms ensures RoomOwned(seats, h, rooms[h]) {
      if h in before { assert RoomOwned(seats, h, before[h]); }
    }
  }

  /** A step that changes no membership keeps everything. */
  lemma SameMembersKeepsInv(s: Server, app: App)
    requires Inv(s) && SameMembers(s.app.rooms, app.rooms)
    ensures Inv(s.(app := app))
  {
    SameMembersOwned(s.app.rooms, app.rooms, s.seats);
    forall conn | conn in s.seats ensures Informed(app.rooms, s.seats[conn], s.mail[conn]) {
      assert Informed(s.app.rooms, s.seats[conn], s.mail[conn]);
    }
  }

  /** Sending a message that is not about members changes nobody's knowledge. */
  lemma NoteKeepsInv(s: Server, to: nat, note: Message)
    requires Inv(s) && !AboutMembers(note)
    ensures Inv(s.(mail := SendTo(s.mail, s.capacity, to, note)))
  {
    var mail := SendTo(s.mail, s.capacity, to, note);
    forall c | c in s.seats ensures c in mail && Informed(s.app.rooms, s.seats[c], mail[c]) {
      assert Informed(s.app.rooms, s.seats[c], s.mail[c]);
    }
  }

  /** What enrolling changes: one entry of one room, under an id that was free. */
  lemma EnrolFacts(app: App, handle: string, role: Role, alias: Option<string>, conn: nat, now: nat)
    requires handle in app.rooms
    ensures
      var (q, r) := Enrol(app, handle, role, alias, conn, now);
      var room := app.rooms[handle];
      && q.rooms == app.rooms[handle := q.rooms[handle]]
      && r.clientId !in room.agents && r.clientId !in room.zookeepers
      && MembersOf(q.rooms[handle], role) == MembersOf(room, role)[r.clientId := conn]
      && MembersOf(q.rooms[handle], Opposite(role)) == MembersOf(room, Opposite(role))
      && r == Registration(r.clientId, Connected(r.clientId, role, room.agents.Keys, room.zookeepers.Keys),
                           PeerJoined(role, r.clientId), MembersOf(room, Opposite(role)))
  {
  }

  /** A room with one more entry, for a seat of its own, leaves everybody their own. */
  lemma EntryKeepsOwned(rooms: map<string, Room>, more: map<string, Room>, seats: map<nat, Seat>,
                        handle: string, role: Role, id: string, conn: nat)
    requires Owned(rooms, seats) && conn !in seats && handle in rooms && handle in more
    requires more == rooms[handle := more[handle]]
    requires id !in rooms[handle].agents && id !in rooms[handle].zookeepers
    requires MembersOf(more[handle], role) == MembersOf(rooms[handle], role)[id := conn]
    requires MembersOf(more[handle], Opposite(role)) == MembersOf(rooms[handle], Opposite(role))
    ensures Owned(more, seats[conn := Seat(handle, role, id)])
  {
    forall c | c in seats ensures SeatHeld(more, c, seats[c]) {
      assert SeatHeld(rooms, c, seats[c]);
    }
    forall h | h in more ensures RoomOwned(seats[conn := Seat(handle, role, id)], h, more[h]) {
      assert RoomOwned(seats, h, rooms[h]);
      if h == handle {
        OneMoreEntry(seats, handle, rooms[handle], role, id, conn, more[handle]);
      } else {
        SameEntries(seats, h, rooms[h], conn, Seat(handle, role, id));
      }
    }
  }

  lemma SameEntries(seats: map<nat, Seat>, handle: string, room: Room, conn: nat, seat: Seat)
    requires RoomOwned(seats, handle, room) && conn !in seats
    ensures RoomOwned(seats[conn := seat], handle, room)
  {
    forall id | id in room.agents ensures EntryOwned(seats[conn := seat], handle, Agent, id, room.agents[id]) {
      assert EntryOwned(seats, handle, Agent, id, room.agents[id]);
    }
    forall id | id in room.zookeepers
      ensures EntryOwned(seats[conn := seat], handle, Zookeeper, id, room.zookeepers[id])
    {
      assert EntryOwned(seats, handle, Zookeeper, id, room.zookeepers[id]);
    }
  }

  lemma OneMoreEntry(seats: map<nat, Seat>, handle: string, room: Room, role: Role, id: string, conn: nat,
                     entered: Room)
    requires RoomOwned(seats, handle, room) && conn !in seats
    requires id !in room.agents && id !in room.zookeepers
    requires MembersOf(entered, role) == MembersOf(room, role)[id := conn]
    requires MembersOf(entered, Opposite(role)) == MembersOf(room, Opposite(role))
    ensures RoomOwned(seats[conn := Seat(handle, role, id)], handle, entered)
  {
    var more := seats[conn := Seat(handle, role, id)];
    SameEntries(seats, handle, room, conn, Seat(handle, role, id));
    assert EntryOwned(more, handle, role, id, conn);
    forall i | i in entered.agents ensures EntryOwned(more, handle, Agent, i, entered.agents[i]) {
      if i in room.agents { assert EntryOwned(more, handle, Agent, i, room.agents[i]); }
    }
    forall i | i in entered.zookeepers ensures EntryOwned(more, handle, Zookeeper, i, entered.zookeepers[i]) {
      if i in room.zookeepers { assert EntryOwned(more, handle, Zookeeper, i, room.zookeepers[i]); }
    }
  }

  /** The connection that registers learns who is there. */
  lemma NewcomerIsInformed(s: Server, rooms: map<string, Room>, r: Registration, handle: string, role: Role, conn: nat)
    requires handle in s.app.rooms && handle in rooms
    requires r.connected
          == Connected(r.clientId, role, s.app.rooms[handle].agents.Keys, s.app.rooms[handle].zookeepers.Keys)
    requires MembersOf(rooms[handle], Opposite(role)) == MembersOf(s.app.rooms[handle], Opposite(role))
    ensures Informed(rooms, Seat(handle, role, r.clientId), Issue(EMPTY, conn, r.connected))
  {
  }

  /** The others of the room are told, and nobody else is. */
  lemma OthersHearOfNewcomer(s: Server, rooms: map<string, Room>, c: nat, handle: string, role: Role, id: string,
                             conn: nat)
    requires c in s.seats && c in s.mail && Informed(s.app.rooms, s.seats[c], s.mail[c])
    requires handle in s.app.rooms && handle in rooms && rooms == s.app.rooms[handle := rooms[handle]]
    requires MembersOf(rooms[handle], role) == MembersOf(s.app.rooms[handle], role)[id := conn]
    requires MembersOf(rooms[handle], Opposite(role)) == MembersOf(s.app.rooms[handle], Opposite(role))
    ensures
      var told := s.seats[c].handle == handle && s.seats[c].role == Opposite(role);
      Informed(rooms, s.seats[c], if told then Issue(s.mail[c], conn, PeerJoined(role, id)) else s.mail[c])
  {
    assert MembersOf(s.app.rooms[handle], role)[id := conn].Keys == MembersOf(s.app.rooms[handle], role).Keys + {id};
  }

  lemma EnrolKeepsInformed(s: Server, handle: string, role: Role, alias: Option<string>, conn: nat, now: nat)
    requires Inv(s) && handle in s.app.rooms && conn !in s.mail
    ensures
      var (q, r) := Enrol(s.app, handle, role, alias, conn, now);
      var mine := s.mail[conn := Issue(EMPTY, conn, r.connected)];
      AllInformed(s.(app := q, seats := s.seats[conn := Seat(handle, role, r.clientId)],
                    mail := IssueAll(mine, conn, r.peers.Values, r.joined)))
  {
    EnrolFacts(s.app, handle, role, alias, conn, now);
    var (q, r) := Enrol(s.app, handle, role, alias, conn, now);
    hide Enrol, Issue, Informed;
    var mine := s.mail[conn := Issue(EMPTY, conn, r.connected)];
    var mail := IssueAll(mine, conn, r.peers.Values, r.joined);
    var seats := s.seats[conn := Seat(handle, role, r.clientId)];
    NewcomerIsInformed(s, q.rooms, r, handle, role, conn);
    forall c | c in seats ensures c in mail && Informed(q.rooms, seats[c], mail[c]) {
      PeersAreOthers(s, handle, Opposite(role), c);
      if c != conn {
        assert c in s.mail && Informed(s.app.rooms, s.seats[c], s.mail[c]);
        OthersHearOfNewcomer(s, q.rooms, c, handle, role, r.clientId, conn);
      }
    }
  }

  /** The connections listed for a role in a room are exactly the seats of that role. */
  lemma PeersAreOthers(s: Server, handle: string, role: Role, c: nat)
    requires Inv(s) && handle in s.app.rooms
    ensures c in MembersOf(s.app.rooms[handle], role).Values
       <==> c in s.seats && s.seats[c].handle == handle && s.seats[c].role == role
  {
    assert RoomOwned(s.seats, handle, s.app.rooms[handle]);
    var members := MembersOf(s.app.rooms[handle], role);
    if c in members.Values {
      var id :| id in members && members[id] == c;
      assert EntryOwned(s.seats, handle, role, id, c);
    }
    if c in s.seats && s.seats[c].handle == handle && s.seats[c].role == role {
      assert SeatHeld(s.app.rooms, c, s.seats[c]);
      assert members[s.seats[c].id] == c;
    }
  }

  /** Unregistering takes out that connection's entry and no other. */
  lemma LeaveKeepsOwned(app: App, seats: map<nat, Seat>, conn: nat, now: nat)
    requires Owned(app.rooms, seats) && conn in seats
    requires IsMember(app, seats[conn].handle, seats[conn].role, seats[conn].id)
    ensures Owned(Leave(app, seats[conn].handle, seats[conn].role, seats[conn].id, now).rooms, seats - {conn})
  {
    var seat, fewer := seats[conn], seats - {conn};
    var q := Leave(app, seat.handle, seat.role, seat.id, now);
    assert SeatHeld(app.rooms, conn, seat);
    forall c | c in fewer ensures SeatHeld(q.rooms, c, fewer[c]) {
      assert SeatHeld(app.rooms, c, seats[c]);
    }
    forall h | h in q.rooms ensures RoomOwned(fewer, h, q.rooms[h]) {
      assert RoomOwned(seats, h, app.rooms[h]);
      forall id | id in q.rooms[h].agents ensures EntryOwned(fewer, h, Agent, id, q.rooms[h].agents[id]) {
        assert EntryOwned(seats, h, Agent, id, app.rooms[h].agents[id]);
      }
      forall id | id in q.rooms[h].zookeepers ensures EntryOwned(fewer, h, Zookeeper, id, q.rooms[h].zookeepers[id]) {
        assert EntryOwned(seats, h, Zookeeper, id, app.rooms[h].zookeepers[id]);
      }
    }
  }

  lemma OthersHearOfLeaver(s: Server, rooms: map<string, Room>, c: nat, handle: string, role: Role, id: string,
                           conn: nat)
    requires c in s.seats && c in s.mail && Informed(s.app.rooms, s.seats[c], s.mail[c])
    requires handle in s.app.rooms && handle in rooms && rooms == s.app.rooms[handle := rooms[handle]]
    requires MembersOf(rooms[handle], role) == MembersOf(s.app.rooms[handle], role) - {id}
    requires MembersOf(rooms[handle], Opposite(role)) == MembersOf(s.app.rooms[handle], Opposite(role))
    ensures
      var told := s.seats[c].handle == handle && s.seats[c].role == Opposite(role);
      Informed(rooms, s.seats[c], if told then Issue(s.mail[c], conn, PeerLeft(role, id)) else s.mail[c])
  {
  }

  lemma LeaveKeepsInformed(s: Server, conn: nat, now: nat)
    requires Inv(s) && conn in s.seats && conn in s.mail
    requires IsMember(s.app, s.seats[conn].handle, s.seats[conn].role, s.seats[conn].id)
    ensures
      var seat := s.seats[conn];
      var peers := MembersOf(s.app.rooms[seat.handle], Opposite(seat.role));
      AllInformed(s.(app := Leave(s.app, seat.handle, seat.role, seat.id, now), seats := s.seats - {conn},
                     mail := IssueAll(s.mail, conn, peers.Values, PeerLeft(seat.role, seat.id))))
  {
    var seat := s.seats[conn];
    var q := Leave(s.app, seat.handle, seat.role, seat.id, now);
    var peers := MembersOf(s.app.rooms[seat.handle], Opposite(seat.role));
    assert q.rooms == s.app.rooms[seat.handle := q.rooms[seat.handle]];
    assert MembersOf(q.rooms[seat.handle], seat.role) == MembersOf(s.app.rooms[seat.handle], seat.role) - {seat.id};
    assert MembersOf(q.rooms[seat.handle], Opposite(seat.role)) == peers;
    hide Issue, Informed, Leave, Inv, MembersOf, Opposite, IsMember;
    assert AllInformed(s) by { InvInformed(s); }
    var mail := IssueAll(s.mail, conn, peers.Values, PeerLeft(seat.role, seat.id));
    forall c | c in s.seats - {conn} ensures c in mail && Informed(q.rooms, s.seats[c], mail[c]) {
      PeersAreOthers(s, seat.handle, Opposite(seat.role), c);
      assert c in s.mail && Informed(s.app.rooms, s.seats[c], s.mail[c]);
      OthersHearOfLeaver(s, q.rooms, c, seat.handle, seat.role, seat.id, conn);
    }
  }

  lemma InvInformed(s: Server)
    requires Inv(s)
    ensures AllInformed(s)
  {
  }

  lemma ConnectKeepsInv(s: Server, conn: nat, handle: string, role: Role, alias: Option<string>, now: nat)
    requires Inv(s) && conn !in s.mail
    ensures Inv(DoConnect(s, conn, handle, role, alias, now))
  {
    var p := Pruned(s.app, now);
    PrunedSameMembers(s.app, now);
    SameMembersKeepsInv(s, p);
    if handle in p.rooms {
      EnrolKeepsInformed(s.(app := p), handle, role, alias, conn, now);
      EnrolFacts(p, handle, role, alias, conn, now);
      var (q, r) := Enrol(p, handle, role, alias, conn, now);
      assert conn !in s.seats;
      hide Enrol, IssueAll, Issue, SameMembers, Pruned;
      EntryKeepsOwned(p.rooms, q.rooms, s.seats, handle, role, r.clientId, conn);
    }
  }

  lemma DisconnectKeepsInv(s: Server, conn: nat, now: nat)
    requires Inv(s) && conn in s.seats && conn in s.mail
    ensures Inv(DoDisconnect(s, conn, now))
  {
    var p, seat := Pruned(s.app, now), s.seats[conn];
    PrunedSameMembers(s.app, now);
    SameMembersKeepsInv(s, p);
    assert SeatHeld(p.rooms, conn, seat);
    LeaveKeepsOwned(p, s.seats, conn, now);
    LeaveKeepsInformed(s.(app := p), conn, now);
    var q := Leave(p, seat.handle, seat.role, seat.id, now);
    PrunedSameMembers(q, now);
    hide IssueAll, Leave, Pruned, SameMembers;
    SameMembersKeepsInv(DoDisconnect(s, conn, now).(app := q), Pruned(q, now));
  }

  lemma ForwardSignalFacts(app: App, handle: string, sender: string, peer: string, payload: nat, now: nat)
    ensures
      var (q, outcome) := ForwardSignal(app, handle, sender, peer, payload, now);
      SameMembers(app.rooms, q.rooms) && (outcome.Ok? ==> !AboutMembers(outcome.value.1))
  {
    PrunedSameMembers(app, now);
    hide PruneWindow;
  }

  ghost predicate Reachable(mail: Mail, peers: Members) {
    && peers.Values <= mail.Keys
    && forall i, j | i in peers && j in peers && i != j :: peers[i] != peers[j]
  }

  /** Every entry of a room is a different, live connection. */
  lemma MembersReachable(s: Server, handle: string, role: Role)
    requires Inv(s) && handle in s.app.rooms
    ensures Reachable(s.mail, MembersOf(s.app.rooms[handle], role))
  {
    assert RoomOwned(s.seats, handle, s.app.rooms[handle]);
    var peers := MembersOf(s.app.rooms[handle], role);
    forall id | id in peers ensures EntryOwned(s.seats, handle, role, id, peers[id]) && peers[id] in s.mail {
    }
    forall i, j | i in peers && j in peers && i != j ensures peers[i] != peers[j] {
      assert EntryOwned(s.seats, handle, role, i, peers[i]);
      assert EntryOwned(s.seats, handle, role, j, peers[j]);
    }
  }

  lemma PrunedMembersReachable(s: Server, handle: string, role: Role, now: nat)
    requires Inv(s) && handle in Pruned(s.app, now).rooms
    ensures Reachable(s.mail, MembersOf(Pruned(s.app, now).rooms[handle], role))
  {
    MembersReachable(s, handle, role);
  }

  lemma AddresseeIsConnected(s: Server, handle: string, sender: string, peer: string, payload: nat, now: nat)
    requires Inv(s)
    ensures
      var outcome := ForwardSignal(s.app, handle, sender, peer, payload, now).1;
      outcome.Ok? ==> outcome.value.0 in s.mail
  {
    hide Inv, PruneWindow, Reachable, SameMembers;
    if handle in Pruned(s.app, now).rooms {
      hide Pruned;
      PrunedMembersReachable(s, handle, Agent, now);
      PrunedMembersReachable(s, handle, Zookeeper, now);
    }
  }

  lemma PendingNoteKeepsInv(s: Server, conn: nat, note: Note)
    requires Inv(s) && !AboutMembers(note.message) && note.to in s.mail && (note.isAnswer ==> note.to == conn)
    ensures Inv(s.(notes := s.notes[conn := note]))
  {
    hide Informed, SeatHeld, RoomOwned;
  }

  lemma SignalKeepsInv(s: Server, conn: nat, peer: string, payload: nat, now: nat)
    requires Inv(s) && conn in s.seats
    ensures Inv(DoSignal(s, conn, peer, payload, now))
  {
    var seat := s.seats[conn];
    hide Inv, ForwardSignal, SameMembers;
    AddresseeIsConnected(s, seat.handle, seat.id, peer, payload, now);
    assert conn in s.mail by { SeatFacts(s, conn); }
    ForwardSignalFacts(s.app, seat.handle, seat.id, peer, payload, now);
    var (app, outcome) := ForwardSignal(s.app, seat.handle, seat.id, peer, payload, now);
    SameMembersKeepsInv(s, app);
    match outcome
    case Err(_) => PendingNoteKeepsInv(s.(app := app), conn, Note(conn, ErrorNote, true));
    case Ok((to, message)) => PendingNoteKeepsInv(s.(app := app), conn, Note(to, message, false));
  }

  /** Steps that touch a single mailbox, but not what is due to it. */
  lemma BoxStepKeepsInv(s: Server, c: nat, box: Mailbox)
    requires Inv(s) && c in s.mail && box.due == s.mail[c].due && (c in s.seats ==> box.open)
    ensures Inv(s.(mail := s.mail[c := box]))
  {
    forall d | d in s.seats ensures Informed(s.app.rooms, s.seats[d], s.mail[c := box][d]) {
      assert Informed(s.app.rooms, s.seats[d], s.mail[d]);
    }
  }

  lemma DeliverKeepsInv(s: Server, conn: nat, to: nat)
    requires Inv(s) && to in s.mail && HasFrom(s.mail[to].coming, conn)
    ensures Inv(DoDeliver(s, conn, to))
  {
    if to in s.seats { assert Informed(s.app.rooms, s.seats[to], s.mail[to]); }
    BoxStepKeepsInv(s, to, Delivered(s.mail[to], s.capacity, conn));
  }

  lemma DrainKeepsInv(s: Server, conn: nat)
    requires Inv(s) && conn in s.seats && conn in s.mail
    ensures Inv(DoDrain(s, conn))
  {
    assert Informed(s.app.rooms, s.seats[conn], s.mail[conn]);
    BoxStepKeepsInv(s, conn, s.mail[conn].(waiting := SatSub(s.mail[conn].waiting, 1)));
  }

  /** Every step of every task keeps membership and what is due in agreement. */
  lemma StepKeepsInv(s: Server, a: Action)
    requires Inv(s) && Enabled(s, a)
    ensures Inv(Step(s, a))
  {
    hide Inv, DoConnect, DoDisconnect, DoDeliver, DoSignal, DoDrain;
    match a
    case Connect(conn, handle, role, alias, now) => ConnectKeepsInv(s, conn, handle, role, alias, now);
    case Deliver(conn, to) => DeliverKeepsInv(s, conn, to);
    case SendSignal(conn, peer, payload, now) => SignalKeepsInv(s, conn, peer, payload, now);
    case DeliverNote(conn) => NoteStepKeepsInv(s, conn);
    case Notify(conn, note) => NoteKeepsInv(s, conn, note);
    case Drain(conn) => DrainKeepsInv(s, conn);
    case Disconnect(conn, now) => DisconnectKeepsInv(s, conn, now);
    case Close(conn) => BoxStepKeepsInv(s, conn, s.mail[conn].(open := false));
    case CreateRoom(handle, passwordFile, now) =>
      StoreSameMembers(s.app, handle, passwordFile, now);
      SameMembersKeepsInv(s, StoreRoom(s.app, handle, passwordFile, now).0);
    case Authenticate(ip, now) =>
      PrunedSameMembers(s.app, now);
      SameMembersKeepsInv(s, CheckAuthRateLimit(s.app, ip, now).0);
    case Touch(now) =>
      PrunedSameMembers(s.app, now);
      SameMembersKeepsInv(s, Pruned(s.app, now));
  }

  lemma NoteStepKeepsInv(s: Server, conn: nat)
    requires Inv(s) && conn in s.notes
    ensures Inv(DoDeliverNote(s, conn))
  {
    NoteKeepsInv(s, s.notes[conn].to, s.notes[conn].message);
  }

  lemma StoreSameMembers(app: App, handle: string, passwordFile: seq<nat>, now: nat)
    ensures SameMembers(app.rooms, StoreRoom(app, handle, passwordFile, now).0.rooms)
  {
    PrunedSameMembers(app, now);
  }

  /* ---------- runs ---------- */

  datatype Trace = Start(config: Config, capacity: nat) | Then(before: Trace, action: Action)

  ghost predicate Possible(t: Trace) {
    match t
    case Start(_, capacity) => capacity >= 1
    case Then(before, a) => Possible(before) && Enabled(After(before), a)
  }

  function After(t: Trace): Server {
    match t
    case Start(config, capacity) => Server(App(config, 0, map[], map[]), capacity, map[], map[], map[])
    case Then(before, a) => if Enabled(After(before), a) then Step(After(before), a) else After(before)
  }

  /* ---------- what clients see ---------- */

  /** The client's own idea of the other role is right. */
  predicate SeesPeers(s: Server, conn: nat)
    requires conn in s.seats && conn in s.mail && s.seats[conn].handle in s.app.rooms
  {
    Heard(s.mail[conn].received, s.seats[conn].role)
    == Live(MembersOf(s.app.rooms[s.seats[conn].handle], Opposite(s.seats[conn].role)).Keys)
  }

  lemma SeatFacts(s: Server, conn: nat)
    requires Inv(s) && conn in s.seats
    ensures conn in s.mail && s.seats[conn].handle in s.app.rooms && s.mail[conn].open
    ensures Heard(s.mail[conn].due, s.seats[conn].role)
         == Live(MembersOf(s.app.rooms[s.seats[conn].handle], Opposite(s.seats[conn].role)).Keys)
  {
    assert Informed(s.app.rooms, s.seats[conn], s.mail[conn]);
  }
}
