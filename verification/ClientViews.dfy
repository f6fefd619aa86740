/** What clients see in runs that enqueue in lock order, signals among the rest. */
module ClientViews {
  import opened Wrappers
  import opened Rooms
  import opened Mailboxes
  import opened RoomRuns
  import opened RoomViews

  /* ---------- one client ---------- */

  /** To an agent that is live only the news matter. */
  lemma {:induction false} AgentHearsNews(inbox: Inbox)
    ensures Heard(inbox, Agent).Waiting? ==> News(inbox) == Nothing
    ensures Heard(inbox, Agent).Live? ==> Heard(inbox, Agent) == Heard(News(inbox), Agent)
  {
    if inbox.Got? { AgentHearsNews(inbox.before); }
  }

  /** For a zookeeper that is live the signals so far were from agents it knew. */
  predicate HearsNews(box: Mailbox) {
    box.open && !box.penalized && Heard(box.received, Zookeeper).Live? ==>
      Heard(box.received, Zookeeper) == Heard(News(box.received), Zookeeper)
  }

  lemma {:induction false} WaitingIsEmpty(inbox: Inbox)
    ensures Heard(inbox, Zookeeper).Waiting? ==> inbox == Nothing
  {
    if inbox.Got? { WaitingIsEmpty(inbox.before); }
  }

  lemma NewsKeepsHearing(box: Mailbox, capacity: nat, news: Message)
    requires HearsNews(box) && AboutMembers(news)
    ensures HearsNews(Send(box, capacity, news))
  {
    WaitingIsEmpty(box.received);
  }

  lemma NoteKeepsHearing(box: Mailbox, capacity: nat, note: Message)
    requires HearsNews(box) && !AboutMembers(note)
    requires box.open && !box.penalized && Heard(box.received, Zookeeper).Live? && note.Signal? ==>
               note.peerId in Heard(box.received, Zookeeper).known
    ensures HearsNews(Send(box, capacity, note))
  {
    if Heard(box.received, Zookeeper).Live? && note.Signal? && note.peerId in Heard(box.received, Zookeeper).known {
      var known := Heard(box.received, Zookeeper).known;
      assert known + {note.peerId} == known;
    }
  }

  /* ---------- news of one agent on their way ---------- */

  predicate Concerns(message: Message, id: string) {
    (message.PeerJoined? || message.PeerLeft?) && message.role == Agent && message.clientId == id
  }

  /** Behind whatever is on its way about an agent's id comes something from the agent's
      own task. */
  ghost predicate Backed(coming: seq<Parcel>, id: string, agent: nat) {
    forall i | 0 <= i < |coming| && Concerns(coming[i].message, id) ::
      exists j | i <= j < |coming| :: coming[j].sender == agent
  }

  lemma BackedByOneMore(coming: seq<Parcel>, id: string, agent: nat, parcel: Parcel)
    requires (Backed(coming, id, agent) && !Concerns(parcel.message, id)) || parcel.sender == agent
    ensures Backed(coming + [parcel], id, agent)
  {
    var more := coming + [parcel];
    forall i | 0 <= i < |more| && Concerns(more[i].message, id)
      ensures exists j | i <= j < |more| :: more[j].sender == agent
    {
      if parcel.sender == agent {
        assert more[|coming|].sender == agent;
      } else {
        var j :| i <= j < |coming| && coming[j].sender == agent;
        assert more[j].sender == agent;
      }
    }
  }

  lemma BackedWithoutOldest(coming: seq<Parcel>, id: string, agent: nat)
    requires coming != [] && Backed(coming, id, agent)
    ensures Backed(coming[1..], id, agent)
  {
    var rest := coming[1..];
    forall i | 0 <= i < |rest| && Concerns(rest[i].message, id)
      ensures exists j | i <= j < |rest| :: rest[j].sender == agent
    {
      assert coming[i + 1] == rest[i];
      var j :| i + 1 <= j < |coming| && coming[j].sender == agent;
      assert rest[j - 1].sender == agent;
    }
  }

  /** Messages that do not settle an id leave it as it was. */
  lemma {:induction false} Undisturbed(inbox: Inbox, messages: seq<Message>, id: string)
    requires Heard(inbox, Zookeeper).Live?
    requires forall i | 0 <= i < |messages| ::
               AboutMembers(messages[i]) && !messages[i].Connected? && !Concerns(messages[i], id)
    ensures Heard(Extended(inbox, messages), Zookeeper).Live?
    ensures id in Heard(Extended(inbox, messages), Zookeeper).known <==> id in Heard(inbox, Zookeeper).known
    decreases |messages|
  {
    if messages != [] {
      assert AboutMembers(messages[0]) && !messages[0].Connected? && !Concerns(messages[0], id);
      forall i | 0 <= i < |messages| - 1
        ensures AboutMembers(messages[1..][i]) && !messages[1..][i].Connected? && !Concerns(messages[1..][i], id)
      {
        assert messages[1..][i] == messages[i + 1];
      }
      Undisturbed(Got(inbox, messages[0]), messages[1..], id);
    }
  }

  /** An agent with nothing more on its way to a live zookeeper is known to it. */
  lemma SettledIsKnown(box: Mailbox, members: set<string>, id: string, agent: nat)
    requires InLine(box) && HearsNews(box) && box.open && !box.penalized
    requires Heard(box.due, Zookeeper) == Live(members) && id in members
    requires Backed(box.coming, id, agent) && !HasFrom(box.coming, agent)
    requires Heard(box.received, Zookeeper).Live?
    ensures id in Heard(box.received, Zookeeper).known
  {
    var messages := Messages(box.coming);
    assert News(box.received) != Nothing;
    forall i | 0 <= i < |messages|
      ensures AboutMembers(messages[i]) && !messages[i].Connected? && !Concerns(messages[i], id)
    {
      assert messages[i] == box.coming[i].message;
    }
    hide HearsNews, GreetingAhead, Backed, HasFrom, News, Hear;
    assert Heard(News(box.received), Zookeeper) == Heard(box.received, Zookeeper) by { Hears(box); }
    Undisturbed(News(box.received), messages, id);
  }

  lemma Hears(box: Mailbox)
    requires HearsNews(box) && box.open && !box.penalized && Heard(box.received, Zookeeper).Live?
    ensures Heard(News(box.received), Zookeeper) == Heard(box.received, Zookeeper)
  {
  }

  /* ---------- the server ---------- */

  predicate IsZookeeper(s: Server, z: nat) {
    && z in s.seats && z in s.mail && s.seats[z].role.Zookeeper? && s.seats[z].handle in s.app.rooms
  }

  ghost predicate ZookeeperBacked(s: Server, z: nat)
    requires IsZookeeper(s, z)
  {
    var agents := s.app.rooms[s.seats[z].handle].agents;
    forall id | id in agents :: Backed(s.mail[z].coming, id, agents[id])
  }

  ghost predicate AllBacked(s: Server) {
    forall z | IsZookeeper(s, z) :: ZookeeperBacked(s, z)
  }

  ghost predicate AllHear(s: Server) {
    forall z | IsZookeeper(s, z) :: HearsNews(s.mail[z])
  }

  predicate Quiet(mail: Mail, conn: nat) {
    forall c | c in mail :: !HasFrom(mail[c].coming, conn)
  }

  /** A signal on its way is from a member whose task has nothing else to enqueue, to the
      same room, and not from one zookeeper to another. */
  predicate SignalOk(s: Server, conn: nat, note: Note) {
    note.message.Signal? ==>
      && conn in s.seats && note.message.peerId == s.seats[conn].id && Quiet(s.mail, conn)
      && (note.to in s.seats ==>
            && s.seats[note.to].handle == s.seats[conn].handle
            && (s.seats[note.to].role.Zookeeper? ==> s.seats[conn].role.Agent?))
  }

  ghost predicate AllSignalsOk(s: Server) {
    forall conn | conn in s.notes :: SignalOk(s, conn, s.notes[conn])
  }

  /** Zookeepers do not signal zookeepers. */
  predicate AcrossRoles(s: Server, a: Action) {
    a.SendSignal? && a.conn in s.seats ==>
      var outcome := ForwardSignal(s.app, s.seats[a.conn].handle, s.seats[a.conn].id, a.peer, a.payload, a.now).1;
      outcome.Ok? && outcome.value.0 in s.seats && s.seats[outcome.value.0].role.Zookeeper? ==>
        s.seats[a.conn].role.Agent?
  }

  /* ---------- agents' news keep their order ---------- */

  lemma SameMembersKeepBacked(s: Server, app: App)
    requires AllBacked(s) && SameMembers(s.app.rooms, app.rooms)
    ensures AllBacked(s.(app := app))
  {
    forall z | IsZookeeper(s.(app := app), z) ensures ZookeeperBacked(s.(app := app), z) {
      if IsZookeeper(s, z) { assert ZookeeperBacked(s, z); }
    }
  }

  /** The agents of the room are the ones they were, but for those the message is about. */
  predicate SameButFor(s: Server, t: Server, z: nat, sender: nat, told: bool, message: Message) {
    IsZookeeper(t, z) ==>
      && IsZookeeper(s, z) && s.seats[z] == t.seats[z]
      && var agents, before := t.app.rooms[t.seats[z].handle].agents, s.app.rooms[s.seats[z].handle].agents;
      && forall id | id in agents ::
           if told && Concerns(message, id) then agents[id] == sender
           else id in before && agents[id] == before[id]
  }

  lemma IssuedKeepsBacked(s: Server, t: Server, sender: nat, conns: set<nat>, message: Message)
    requires AllBacked(s) && t.mail == IssueAll(s.mail, sender, conns, message)
    requires forall z :: SameButFor(s, t, z, sender, z in conns, message)
    ensures AllBacked(t)
  {
    forall z | IsZookeeper(t, z) ensures ZookeeperBacked(t, z) {
      assert SameButFor(s, t, z, sender, z in conns, message);
      assert ZookeeperBacked(s, z);
      var agents := t.app.rooms[t.seats[z].handle].agents;
      forall id | id in agents ensures Backed(t.mail[z].coming, id, agents[id]) {
        if !(z in conns && Concerns(message, id)) { assert Backed(s.mail[z].coming, id, agents[id]); }
        if z in conns { BackedByOneMore(s.mail[z].coming, id, agents[id], Parcel(sender, message)); }
      }
    }
  }

  /** A newcomer has nothing but its greeting coming. */
  lemma GreetedKeepsBacked(s: Server, conn: nat, seat: Seat, greeting: Message)
    requires AllBacked(s) && greeting.Connected? && conn !in s.mail
    ensures AllBacked(s.(seats := s.seats[conn := seat], mail := s.mail[conn := Issue(EMPTY, conn, greeting)]))
  {
    var t := s.(seats := s.seats[conn := seat], mail := s.mail[conn := Issue(EMPTY, conn, greeting)]);
    forall z | IsZookeeper(t, z) ensures ZookeeperBacked(t, z) {
      if z != conn { assert IsZookeeper(s, z) && ZookeeperBacked(s, z); }
    }
  }

  lemma EnrolKeepsBacked(s: Server, conn: nat, handle: string, role: Role, alias: Option<string>, now: nat)
    requires Inv(s) && AllBacked(s) && handle in s.app.rooms && conn !in s.mail
    ensures
      var (q, r) := Enrol(s.app, handle, role, alias, conn, now);
      AllBacked(s.(app := q, seats := s.seats[conn := Seat(handle, role, r.clientId)],
                   mail := IssueAll(s.mail[conn := Issue(EMPTY, conn, r.connected)], conn, r.peers.Values, r.joined)))
  {
    EnrolFacts(s.app, handle, role, alias, conn, now);
    var (q, r) := Enrol(s.app, handle, role, alias, conn, now);
    var seat := Seat(handle, role, r.clientId);
    GreetedKeepsBacked(s, conn, seat, r.connected);
    var greeted := s.(seats := s.seats[conn := seat], mail := s.mail[conn := Issue(EMPTY, conn, r.connected)]);
    var t := greeted.(app := q, mail := IssueAll(greeted.mail, conn, r.peers.Values, r.joined));
    hide Enrol, Issue, AllBacked, Inv, Backed, HasFrom, IssueAll;
    forall z ensures SameButFor(greeted, t, z, conn, z in r.peers.Values, r.joined) {
      PeersAreOthers(s, handle, Opposite(role), z);
    }
    IssuedKeepsBacked(greeted, t, conn, r.peers.Values, r.joined);
  }

  lemma ConnectKeepsBacked(s: Server, conn: nat, handle: string, role: Role, alias: Option<string>, now: nat)
    requires Inv(s) && AllBacked(s) && conn !in s.mail
    ensures AllBacked(DoConnect(s, conn, handle, role, alias, now))
  {
    var p := Pruned(s.app, now);
    PrunedSameMembers(s.app, now);
    SameMembersKeepsInv(s, p);
    SameMembersKeepBacked(s, p);
    hide Pruned, Inv, AllBacked, Enrol, SameMembers;
    if handle in p.rooms { EnrolKeepsBacked(s.(app := p), conn, handle, role, alias, now); }
  }

  lemma LeaveKeepsBacked(s: Server, conn: nat, now: nat)
    requires Inv(s) && AllBacked(s) && conn in s.seats
    requires IsMember(s.app, s.seats[conn].handle, s.seats[conn].role, s.seats[conn].id)
    ensures
      var seat := s.seats[conn];
      var peers := MembersOf(s.app.rooms[seat.handle], Opposite(seat.role));
      AllBacked(s.(app := Leave(s.app, seat.handle, seat.role, seat.id, now), seats := s.seats - {conn},
                   mail := IssueAll(s.mail, conn, peers.Values, PeerLeft(seat.role, seat.id))))
  {
    var seat := s.seats[conn];
    var peers, farewell := MembersOf(s.app.rooms[seat.handle], Opposite(seat.role)), PeerLeft(seat.role, seat.id);
    var t := s.(app := Leave(s.app, seat.handle, seat.role, seat.id, now), seats := s.seats - {conn},
                mail := IssueAll(s.mail, conn, peers.Values, farewell));
    hide Inv, AllBacked, IssueAll, HasFrom, Backed;
    assert t.app.rooms == s.app.rooms[seat.handle := t.app.rooms[seat.handle]];
    assert t.app.rooms[seat.handle].agents
        == if seat.role.Agent? then s.app.rooms[seat.handle].agents - {seat.id} else s.app.rooms[seat.handle].agents;
    hide Leave, IsMember;
    forall z ensures SameButFor(s, t, z, conn, z in peers.Values, farewell) {
      PeersAreOthers(s, seat.handle, Opposite(seat.role), z);
      if IsZookeeper(t, z) { SeatFacts(s, z); }
    }
    IssuedKeepsBacked(s, t, conn, peers.Values, farewell);
  }

  lemma DisconnectKeepsBacked(s: Server, conn: nat, now: nat)
    requires Inv(s) && AllBacked(s) && conn in s.seats
    ensures AllBacked(DoDisconnect(s, conn, now))
  {
    var p, seat := Pruned(s.app, now), s.seats[conn];
    PrunedSameMembers(s.app, now);
    SameMembersKeepsInv(s, p);
    SameMembersKeepBacked(s, p);
    assert IsMember(p, seat.handle, seat.role, seat.id) by {
      assert Inv(s.(app := p));
      assert SeatHeld(p.rooms, conn, seat);
    }
    LeaveKeepsBacked(s.(app := p), conn, now);
    var q := Leave(p, seat.handle, seat.role, seat.id, now);
    PrunedSameMembers(q, now);
    hide Pruned, Inv, AllBacked, SameMembers, Leave, IssueAll;
    SameMembersKeepBacked(DoDisconnect(s, conn, now).(app := q), Pruned(q, now));
  }

  /** Steps that change neither members nor what is on its way. */
  lemma SameComingKeepsBacked(s: Server, t: Server)
    requires AllBacked(s) && t.seats == s.seats && t.app == s.app && t.mail.Keys == s.mail.Keys
    requires forall c | c in s.mail :: t.mail[c].coming == s.mail[c].coming
    ensures AllBacked(t)
  {
    forall z | IsZookeeper(t, z) ensures ZookeeperBacked(t, z) {
      assert IsZookeeper(s, z) && ZookeeperBacked(s, z);
    }
  }

  lemma DeliverKeepsBacked(s: Server, conn: nat, to: nat)
    requires AllBacked(s) && to in s.mail && HasFrom(s.mail[to].coming, conn) && TakesOldest(s, Deliver(conn, to))
    ensures AllBacked(DoDeliver(s, conn, to))
  {
    var t, coming := DoDeliver(s, conn, to), s.mail[to].coming;
    assert coming[0].sender == conn && Place(coming, conn) == 0;
    assert coming[..0] + coming[1..] == coming[1..];
    assert t.mail[to].coming == coming[1..];
    hide Delivered, HasFrom;
    forall z | IsZookeeper(t, z) ensures ZookeeperBacked(t, z) {
      assert IsZookeeper(s, z) && ZookeeperBacked(s, z);
      var agents := s.app.rooms[s.seats[z].handle].agents;
      if z == to {
        forall id | id in agents ensures Backed(coming[1..], id, agents[id]) {
          BackedWithoutOldest(coming, id, agents[id]);
        }
      }
    }
  }

  lemma StepKeepsBacked(s: Server, a: Action)
    requires Inv(s) && AllBacked(s) && Enabled(s, a) && TakesOldest(s, a)
    ensures AllBacked(Step(s, a))
  {
    hide Inv, AllBacked, DoConnect, DoDisconnect, DoDeliver, Idle, TakesOldest, SameMembers, HasFrom;
    match a
    case Connect(conn, handle, role, alias, now) => ConnectKeepsBacked(s, conn, handle, role, alias, now);
    case Disconnect(conn, now) => DisconnectKeepsBacked(s, conn, now);
    case Deliver(conn, to) => DeliverKeepsBacked(s, conn, to);
    case SendSignal(conn, peer, payload, now) =>
      var seat := s.seats[conn];
      ForwardSignalFacts(s.app, seat.handle, seat.id, peer, payload, now);
      var app := ForwardSignal(s.app, seat.handle, seat.id, peer, payload, now).0;
      hide ForwardSignal;
      SameMembersKeepBacked(s, app);
      SameComingKeepsBacked(s.(app := app), Step(s, a));
    case CreateRoom(handle, passwordFile, now) =>
      StoreSameMembers(s.app, handle, passwordFile, now);
      SameMembersKeepBacked(s, StoreRoom(s.app, handle, passwordFile, now).0);
    case Authenticate(ip, now) =>
      PrunedSameMembers(s.app, now);
      AuthSameMembers(s.app, ip, now);
      SameMembersKeepBacked(s, CheckAuthRateLimit(s.app, ip, now).0);
    case Touch(now) =>
      PrunedSameMembers(s.app, now);
      SameMembersKeepBacked(s, Pruned(s.app, now));
    case _ => SameComingKeepsBacked(s, Step(s, a));
  }

  lemma AuthSameMembers(app: App, ip: nat, now: nat)
    ensures SameMembers(app.rooms, CheckAuthRateLimit(app, ip, now).0.rooms)
  {
    PrunedSameMembers(app, now);
  }

  /* ---------- signals ---------- */

  lemma PassedToMember(room: Room, sender: string, peer: string)
    ensures
      var to := Addressee(room, sender, peer);
      to.Ok? ==> to.value in MembersOf(room, Agent).Values || to.value in MembersOf(room, Zookeeper).Values
  {
  }

  lemma SignalOutcome(app: App, handle: string, sender: string, peer: string, payload: nat, now: nat)
    ensures
      var p, outcome := Pruned(app, now), ForwardSignal(app, handle, sender, peer, payload, now).1;
      outcome.Ok? ==>
        && handle in p.rooms && outcome.value.1 == Signal(sender, payload)
        && Addressee(p.rooms[handle], sender, peer) == Ok(outcome.value.0)
  {
    hide Pruned, PruneWindow, Addressee;
  }

  /** Whom a signal reaches: a member of the sender's room, from the sender. */
  lemma SignalReaches(s: Server, conn: nat, peer: string, payload: nat, now: nat)
    requires Inv(s) && conn in s.seats
    ensures
      var outcome := ForwardSignal(s.app, s.seats[conn].handle, s.seats[conn].id, peer, payload, now).1;
      outcome.Ok? ==>
        && outcome.value.1 == Signal(s.seats[conn].id, payload)
        && outcome.value.0 in s.seats && s.seats[outcome.value.0].handle == s.seats[conn].handle
  {
    var p, seat := Pruned(s.app, now), s.seats[conn];
    PrunedSameMembers(s.app, now);
    SameMembersKeepsInv(s, p);
    SignalOutcome(s.app, seat.handle, seat.id, peer, payload, now);
    hide *;
    var outcome := ForwardSignal(s.app, seat.handle, seat.id, peer, payload, now).1;
    if outcome.Ok? {
      var to := outcome.value.0;
      PassedToMember(p.rooms[seat.handle], seat.id, peer);
      PeersAreOthers(s.(app := p), seat.handle, Agent, to);
      PeersAreOthers(s.(app := p), seat.handle, Zookeeper, to);
    }
  }

  /** A pending signal stays as it is while others go on. */
  lemma SignalStaysOk(s: Server, t: Server, conn: nat, note: Note)
    requires SignalOk(s, conn, note) && note.to in s.mail
    requires conn in s.seats ==> conn in t.seats && t.seats[conn] == s.seats[conn]
    requires Quiet(s.mail, conn) ==> Quiet(t.mail, conn)
    requires forall c | c in t.seats && c in s.mail :: c in s.seats && t.seats[c] == s.seats[c]
    ensures SignalOk(t, conn, note)
  {
  }

  lemma IssueAllStaysQuiet(mail: Mail, sender: nat, conns: set<nat>, message: Message, conn: nat)
    requires Quiet(mail, conn) && conn != sender
    ensures Quiet(IssueAll(mail, sender, conns, message), conn)
  {
    forall c | c in mail
      ensures !HasFrom(mail[c].coming, conn) && !HasFrom(Issue(mail[c], sender, message).coming, conn)
    {
    }
  }

  lemma GreetingStaysQuiet(mail: Mail, newcomer: nat, greeting: Message, conn: nat)
    requires Quiet(mail, conn) && conn != newcomer
    ensures Quiet(mail[newcomer := Issue(EMPTY, newcomer, greeting)], conn)
  {
  }

  lemma ConnectStaysQuiet(s: Server, newcomer: nat, handle: string, role: Role, alias: Option<string>, now: nat,
                          conn: nat)
    requires Quiet(s.mail, conn) && conn != newcomer
    ensures Quiet(DoConnect(s, newcomer, handle, role, alias, now).mail, conn)
  {
    hide Quiet, IssueAll, Issue, Register;
    var outcome := Register(s.app, handle, role, alias, newcomer, now).1;
    if outcome.Ok? {
      var r := outcome.value;
      GreetingStaysQuiet(s.mail, newcomer, r.connected, conn);
      var greeted := s.mail[newcomer := Issue(EMPTY, newcomer, r.connected)];
      IssueAllStaysQuiet(greeted, newcomer, r.peers.Values, r.joined, conn);
    }
  }

  lemma DeliverStaysQuiet(s: Server, sender: nat, to: nat, conn: nat)
    requires Quiet(s.mail, conn) && to in s.mail && HasFrom(s.mail[to].coming, sender)
    ensures Quiet(DoDeliver(s, sender, to).mail, conn)
  {
    var coming, k := s.mail[to].coming, Place(s.mail[to].coming, sender);
    var rest := coming[..k] + coming[k + 1..];
    assert !HasFrom(coming, conn);
    forall i | 0 <= i < |rest| ensures rest[i].sender != conn {
      assert rest[i] == coming[if i < k then i else i + 1];
    }
  }

  /** What any step but the end of its own one does to a pending signal. */
  lemma StepKeepsSignal(s: Server, a: Action, conn: nat)
    requires Inv(s) && Enabled(s, a) && conn in s.notes && SignalOk(s, conn, s.notes[conn])
    ensures SignalOk(Step(s, a), conn, s.notes[conn])
  {
    var note, t := s.notes[conn], Step(s, a);
    assert NotesOk(s.mail, s.notes) by { InvNotes(s); }
    if note.message.Signal? {
      assert conn in s.mail by { SeatFacts(s, conn); }
      StepStaysQuiet(s, a, conn);
      SeatsOnlyNew(s, a);
      assert a.Disconnect? ==> a.conn != conn;
      OthersKeepSeats(s, a, conn);
      hide Step, Inv, Enabled, Quiet, NotesOk;
      SignalStaysOk(s, t, conn, note);
    }
  }

  lemma StepStaysQuiet(s: Server, a: Action, conn: nat)
    requires Enabled(s, a) && conn in s.notes && conn in s.mail && Quiet(s.mail, conn)
    ensures Quiet(Step(s, a).mail, conn)
  {
    hide DoConnect, DoDeliver, IssueAll, Unregister, ForwardSignal, HasFrom;
    match a
    case Connect(newcomer, handle, role, alias, now) =>
      ConnectStaysQuiet(s, newcomer, handle, role, alias, now, conn);
    case Deliver(sender, to) => DeliverStaysQuiet(s, sender, to, conn);
    case Disconnect(leaver, now) =>
      var seat := s.seats[leaver];
      var peers := Unregister(s.app, seat.handle, seat.role, seat.id, now).1;
      IssueAllStaysQuiet(s.mail, leaver, peers.Values, PeerLeft(seat.role, seat.id), conn);
    case _ =>
  }

  /** A step seats nobody but a connection without a mailbox. */
  lemma SeatsOnlyNew(s: Server, a: Action)
    requires Enabled(s, a)
    ensures forall c | c in Step(s, a).seats && c in s.mail :: c in s.seats && Step(s, a).seats[c] == s.seats[c]
  {
    hide Register, Unregister, ForwardSignal, StoreRoom, CheckAuthRateLimit, Pruned, Issue, IssueAll, SendTo, Delivered;
    hide Idle, HasFrom;
  }

  lemma SignalStepKeepsSignals(s: Server, conn: nat, peer: string, payload: nat, now: nat)
    requires Inv(s) && AllSignalsOk(s) && conn in s.seats && Idle(s, conn)
    requires AcrossRoles(s, SendSignal(conn, peer, payload, now))
    ensures AllSignalsOk(DoSignal(s, conn, peer, payload, now))
  {
    SignalReaches(s, conn, peer, payload, now);
    var t := DoSignal(s, conn, peer, payload, now);
    hide ForwardSignal, Inv;
    forall c | c in t.notes ensures SignalOk(t, c, t.notes[c]) {
      if c != conn { assert SignalOk(s, c, s.notes[c]); }
    }
  }

  lemma StepKeepsSignals(s: Server, a: Action)
    requires Inv(s) && AllSignalsOk(s) && Enabled(s, a) && AcrossRoles(s, a)
    ensures AllSignalsOk(Step(s, a))
  {
    if a.SendSignal? {
      SignalStepKeepsSignals(s, a.conn, a.peer, a.payload, a.now);
    } else {
      var t := Step(s, a);
      NotesOnlyFewer(s, a);
      hide Step, Inv, Enabled, SignalOk, AcrossRoles;
      forall c | c in t.notes ensures SignalOk(t, c, t.notes[c]) {
        assert SignalOk(s, c, s.notes[c]);
        StepKeepsSignal(s, a, c);
      }
    }
  }

  lemma NotesOnlyFewer(s: Server, a: Action)
    requires Enabled(s, a) && !a.SendSignal?
    ensures forall c | c in Step(s, a).notes :: c in s.notes && Step(s, a).notes[c] == s.notes[c]
  {
    hide Register, Unregister, StoreRoom, CheckAuthRateLimit, Pruned, Issue, IssueAll, SendTo, Delivered, Idle, HasFrom;
  }

  /* ---------- zookeepers hear news ---------- */

  lemma SignalDeliveredIsKnown(s: Server, conn: nat, z: nat)
    requires Inv(s) && AllInLine(s.mail) && AllBacked(s) && AllHear(s)
    requires conn in s.notes && SignalOk(s, conn, s.notes[conn]) && s.notes[conn].message.Signal?
    requires s.notes[conn].to == z && IsZookeeper(s, z)
    requires s.mail[z].open && !s.mail[z].penalized && Heard(s.mail[z].received, Zookeeper).Live?
    ensures s.notes[conn].message.peerId in Heard(s.mail[z].received, Zookeeper).known
  {
    var box, id := s.mail[z], s.seats[conn].id;
    var agents := s.app.rooms[s.seats[z].handle].agents;
    SeatFacts(s, z);
    assert SeatHeld(s.app.rooms, conn, s.seats[conn]);
    assert id in agents && agents[id] == conn;
    assert ZookeeperBacked(s, z) && Backed(box.coming, id, conn) && InLine(box) && HearsNews(box);
    hide *;
    SettledIsKnown(box, agents.Keys, id, conn);
  }

  lemma DeliverKeepsHearing(s: Server, conn: nat, to: nat)
    requires AllHear(s) && to in s.mail && HasFrom(s.mail[to].coming, conn) && InLine(s.mail[to])
    ensures AllHear(DoDeliver(s, conn, to))
  {
    var box := s.mail[to];
    var k := Place(box.coming, conn);
    var rest := box.(coming := box.coming[..k] + box.coming[k + 1..]);
    assert AboutMembers(box.coming[k].message);
    hide Send, Heard, News, HasFrom;
    if HearsNews(box) {
      assert HearsNews(rest);
      NewsKeepsHearing(rest, s.capacity, box.coming[k].message);
    }
    hide HearsNews;
    forall z | IsZookeeper(DoDeliver(s, conn, to), z) ensures HearsNews(DoDeliver(s, conn, to).mail[z]) {
      assert IsZookeeper(s, z);
    }
  }

  lemma NoteSentKeepsHearing(s: Server, to: nat, note: Message)
    requires AllHear(s) && to in s.mail && !AboutMembers(note)
    requires IsZookeeper(s, to) && note.Signal? && s.mail[to].open && !s.mail[to].penalized
             && Heard(s.mail[to].received, Zookeeper).Live? ==>
               note.peerId in Heard(s.mail[to].received, Zookeeper).known
    ensures AllHear(s.(mail := SendTo(s.mail, s.capacity, to, note)))
  {
    var t := s.(mail := SendTo(s.mail, s.capacity, to, note));
    hide Heard, Send;
    forall z | IsZookeeper(t, z) ensures HearsNews(t.mail[z]) {
      assert IsZookeeper(s, z) && HearsNews(s.mail[z]);
      if z == to { NoteKeepsHearing(s.mail[z], s.capacity, note); }
    }
  }

  lemma DeliverNoteKeepsHearing(s: Server, conn: nat)
    requires Inv(s) && AllInLine(s.mail) && AllBacked(s) && AllHear(s) && conn in s.notes
    requires SignalOk(s, conn, s.notes[conn])
    ensures AllHear(DoDeliverNote(s, conn))
  {
    var note := s.notes[conn];
    InvNotes(s);
    if IsZookeeper(s, note.to) && note.message.Signal? && s.mail[note.to].open && !s.mail[note.to].penalized
       && Heard(s.mail[note.to].received, Zookeeper).Live?
    {
      SignalDeliveredIsKnown(s, conn, note.to);
    }
    hide Inv, AllInLine, AllBacked, Heard, HearsNews;
    NoteSentKeepsHearing(s, note.to, note.message);
  }

  /** Steps in which nothing is enqueued. */
  lemma NothingEnqueuedKeepsHearing(s: Server, t: Server)
    requires AllHear(s)
    requires forall z | IsZookeeper(t, z) ::
               if z in s.mail
               then IsZookeeper(s, z) && t.mail[z].received == s.mail[z].received
                    && t.mail[z].open == s.mail[z].open && t.mail[z].penalized == s.mail[z].penalized
               else t.mail[z].received == Nothing
    ensures AllHear(t)
  {
    hide Heard, News;
    forall z | IsZookeeper(t, z) ensures HearsNews(t.mail[z]) {
      if z in s.mail { assert HearsNews(s.mail[z]); } else { WaitsAtFirst(); }
    }
  }

  lemma WaitsAtFirst()
    ensures Heard(Nothing, Zookeeper).Waiting?
  {
  }

  lemma OtherStepsKeepHearing(s: Server, a: Action)
    requires Inv(s) && AllHear(s) && Enabled(s, a) && !a.Deliver? && !a.DeliverNote? && !a.Notify?
    ensures AllHear(Step(s, a))
  {
    var t := Step(s, a);
    forall z | IsZookeeper(t, z)
      ensures
        if z in s.mail
        then IsZookeeper(s, z) && t.mail[z].received == s.mail[z].received
             && t.mail[z].open == s.mail[z].open && t.mail[z].penalized == s.mail[z].penalized
        else t.mail[z].received == Nothing
    {
      BoxUntouched(s, a, z);
      SeatsOnlyNew(s, a);
      if z in s.mail && z in s.seats { SeatFacts(s, z); }
    }
    hide *;
    NothingEnqueuedKeepsHearing(s, t);
  }

  lemma BoxUntouched(s: Server, a: Action, z: nat)
    requires Enabled(s, a) && !a.Deliver? && !a.DeliverNote? && !a.Notify? && z in Step(s, a).mail
    requires z in Step(s, a).seats
    ensures z in s.mail ==>
              && Step(s, a).mail[z].received == s.mail[z].received
              && Step(s, a).mail[z].open == s.mail[z].open && Step(s, a).mail[z].penalized == s.mail[z].penalized
    ensures z !in s.mail ==> Step(s, a).mail[z].received == Nothing
  {
    hide Register, Unregister, ForwardSignal, StoreRoom, CheckAuthRateLimit, Pruned, Idle, HasFrom;
  }

  lemma NotifyKeepsHearing(s: Server, conn: nat, note: Message)
    requires Inv(s) && AllHear(s) && conn in s.seats && (note.Pong? || note.ErrorNote?)
    ensures AllHear(s.(mail := SendTo(s.mail, s.capacity, conn, note)))
  {
    SeatFacts(s, conn);
    NoteSentKeepsHearing(s, conn, note);
  }

  lemma StepKeepsHearing(s: Server, a: Action)
    requires Inv(s) && AllInLine(s.mail) && AllBacked(s) && AllHear(s) && AllSignalsOk(s) && Enabled(s, a)
    ensures AllHear(Step(s, a))
  {
    hide Inv, AllInLine, AllBacked, AllHear, DoConnect, DoDisconnect, DoDeliver, DoDeliverNote, DoSignal, SendTo;
    hide HasFrom, SignalOk, StoreRoom, CheckAuthRateLimit, Pruned, Idle;
    match a
    case Deliver(conn, to) =>
      assert InLine(s.mail[to]) by { BoxInLine(s.mail, to); }
      DeliverKeepsHearing(s, conn, to);
    case DeliverNote(conn) => DeliverNoteKeepsHearing(s, conn);
    case Notify(conn, note) => NotifyKeepsHearing(s, conn, note);
    case _ => OtherStepsKeepHearing(s, a);
  }

  lemma BoxInLine(mail: Mail, c: nat)
    requires AllInLine(mail) && c in mail
    ensures InLine(mail[c])
  {
  }

  /* ---------- whole runs ---------- */

  /** In the run no zookeeper signals a zookeeper. */
  ghost predicate SignalsAcross(t: Trace) {
    t.Then? ==> SignalsAcross(t.before) && AcrossRoles(After(t.before), t.action)
  }

  lemma {:induction false} OrderedRunHears(t: Trace)
    requires Possible(t) && InOrder(t) && SignalsAcross(t)
    ensures AllBacked(After(t)) && AllHear(After(t)) && AllSignalsOk(After(t))
  {
    hide Step, Enabled, Inv, TakesOldest, AcrossRoles, AllBacked, AllHear, AllSignalsOk;
    match t
    case Start(_, _) => StartHears(t);
    case Then(before, a) =>
      OrderedRunHears(before);
      EveryRunIsConsistent(before);
      OrderedRunInLine(before);
      StepKeepsBacked(After(before), a);
      StepKeepsSignals(After(before), a);
      StepKeepsHearing(After(before), a);
  }

  lemma StartHears(t: Trace)
    requires t.Start?
    ensures AllBacked(After(t)) && AllHear(After(t)) && AllSignalsOk(After(t))
  {
  }

  /** A client with everything that is due, in lock order, and with no signal that told
      it anything: it is right about the members exactly if its greeting came first. */
  lemma RightIffGreetedFirst(box: Mailbox, role: Role, members: set<string>)
    requires InLine(box) && box.open && !box.penalized && box.coming == []
    requires Heard(box.due, role) == Live(members) && (role.Zookeeper? ==> HearsNews(box))
    ensures Heard(box.received, role) == Live(members) <==> GreetedFirst(box.received, role)
  {
    HeardIff(box.received, role, "");
    AgentHearsNews(box.received);
    assert Messages(box.coming) == [];
    assert Extended(News(box.received), []) == News(box.received);
    hide Heard, News, GreetedFirst, Messages, GreetingAhead;
  }

  /** In lock order, with signals in between: a client that is not penalized and has
      everything that is due sees exactly the members of the other role, if and only if
      no signal overtook its greeting. Zookeepers may not signal each other if the
      client is one of them. */
  lemma OrderedRunsShowMembers(t: Trace, conn: nat)
    requires Possible(t) && InOrder(t) && conn in After(t).seats
    requires After(t).seats[conn].role.Zookeeper? ==> SignalsAcross(t)
    ensures conn in After(t).mail && After(t).seats[conn].handle in After(t).app.rooms
    ensures
      var s, box := After(t), After(t).mail[conn];
      box.coming == [] && !box.penalized ==>
        (SeesPeers(s, conn) <==> GreetedFirst(box.received, s.seats[conn].role))
  {
    hide After, Inv, Possible, InOrder, SignalsAcross, Heard, GreetedFirst, InLine, HearsNews, AllBacked, AllSignalsOk;
    EveryRunIsConsistent(t);
    OrderedRunInLine(t);
    var s := After(t);
    if s.seats[conn].role.Zookeeper? { OrderedRunHears(t); }
    SeatFacts(s, conn);
    assert InLine(s.mail[conn]) && (s.seats[conn].role.Zookeeper? ==> IsZookeeper(s, conn));
    if s.mail[conn].coming == [] && !s.mail[conn].penalized {
      var members := MembersOf(s.app.rooms[s.seats[conn].handle], Opposite(s.seats[conn].role)).Keys;
      RightIffGreetedFirst(s.mail[conn], s.seats[conn].role, members);
    }
  }
}
