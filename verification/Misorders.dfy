/** Runs of the server after which everything is enqueued, nobody is penalized, and yet a
    client has given up or is wrong about who is there. */
module Misorders {
  import opened Wrappers
  import opened Rooms
  import opened Mailboxes
  import opened RoomRuns
  import opened RoomViews

  const LIMITS := Config(10, 10, 10, 10, 10, 10)
  const NOBODY: Members := map[]
  const Z: Members := map["z" := 0]

  /** One room and in it the zookeeper `z`, everything at time zero. */
  function State(agents: Members, seats: map<nat, Seat>, mail: Mail): Server {
    Server(App(LIMITS, 0, map["r" := Room([], agents, Z, 0, [])], map[]), 4, seats, mail, map[])
  }

  ghost predicate Reaches(t: Trace, agents: Members, seats: map<nat, Seat>, mail: Mail) {
    Possible(t) && After(t) == State(agents, seats, mail)
  }

  lemma NothingPruned(agents: Members, seats: map<nat, Seat>, mail: Mail)
    ensures Pruned(State(agents, seats, mail).app, 0) == State(agents, seats, mail).app
  {
    var app := State(agents, seats, mail).app;
    assert PrunedRooms(app.rooms, 10, 0) == app.rooms;
  }

  /** One more step of a run. */
  lemma Going(t: Trace, a: Action)
    requires Possible(t) && Enabled(After(t), a)
    ensures Possible(Then(t, a)) && After(Then(t, a)) == Step(After(t), a)
  {
  }

  function Box(received: Inbox, waiting: nat, due: Inbox, coming: seq<Parcel>): Mailbox {
    Mailbox(received, waiting, false, true, due, coming)
  }

  /* ---------- steps ---------- */

  lemma OnePeer(mail: Mail, sender: nat, message: Message)
    requires 0 in mail
    ensures IssueAll(mail, sender, Z.Values, message) == mail[0 := Issue(mail[0], sender, message)]
  {
    assert Z.Values == {0} by { assert Z["z"] == 0; }
    hide Issue;
  }

  /** The agent `a` registers on connection `conn`. */
  lemma Registers(t: Trace, agents: Members, seats: map<nat, Seat>, mail: Mail, conn: nat)
    requires Reaches(t, agents, seats, mail) && conn !in mail && conn != 0 && 0 in mail && agents == NOBODY
    ensures Reaches(Then(t, Connect(conn, "r", Agent, Some("a"), 0)), map["a" := conn],
                    seats[conn := Seat("r", Agent, "a")],
                    mail[conn := Issue(EMPTY, conn, GREETING_A)][0 := Issue(mail[0], conn, JOINED)])
  {
    NothingPruned(agents, seats, mail);
    OnePeer(mail[conn := Issue(EMPTY, conn, GREETING_A)], conn, JOINED);
    assert agents["a" := conn] == map["a" := conn] && agents.Keys == {} && Z.Keys == {"z"};
    hide IssueAll, Issue, Pruned, After, Possible;
    Going(t, Connect(conn, "r", Agent, Some("a"), 0));
  }

  lemma Unregisters(t: Trace, seats: map<nat, Seat>, mail: Mail, conn: nat)
    requires Reaches(t, map["a" := conn], seats, mail) && conn in seats && seats[conn] == Seat("r", Agent, "a")
    requires conn in mail && conn != 0 && 0 in mail && forall c | c in mail :: !HasFrom(mail[c].coming, conn)
    ensures Reaches(Then(t, Disconnect(conn, 0)), NOBODY, seats - {conn}, mail[0 := Issue(mail[0], conn, LEFT)])
  {
    NothingPruned(map["a" := conn], seats, mail);
    NothingPruned(NOBODY, seats - {conn}, mail);
    OnePeer(mail, conn, LEFT);
    hide IssueAll, Issue, Pruned, After, Possible, HasFrom;
    var app := State(map["a" := conn], seats, mail).app;
    assert map["a" := conn] - {"a"} == NOBODY;
    assert Leave(app, "r", Agent, "a", 0) == State(NOBODY, seats - {conn}, mail).app;
    Going(t, Disconnect(conn, 0));
  }

  lemma TakenOut(coming: seq<Parcel>, parcel: Parcel, rest: seq<Parcel>)
    requires rest == [] || (|rest| == 1 && rest[0].sender != parcel.sender)
    requires coming == [parcel] + rest || coming == rest + [parcel]
    ensures HasFrom(coming, parcel.sender)
    ensures
      var k := Place(coming, parcel.sender);
      coming[k] == parcel && coming[..k] + coming[k + 1..] == rest
  {
    assert coming[0] == parcel || coming[|rest|] == parcel;
  }

  /** Of one or two messages coming to `to`, the sender of `parcel` enqueues its own. */
  lemma Enqueues(t: Trace, agents: Members, seats: map<nat, Seat>, mail: Mail, to: nat,
                 received: Inbox, waiting: nat, due: Inbox, parcel: Parcel, rest: seq<Parcel>)
    requires Reaches(t, agents, seats, mail) && to in mail && waiting < 4
    requires rest == [] || (|rest| == 1 && rest[0].sender != parcel.sender)
    requires mail[to] == Box(received, waiting, due, [parcel] + rest)
          || mail[to] == Box(received, waiting, due, rest + [parcel])
    requires parcel.sender in mail && parcel.sender != to ==> mail[parcel.sender].coming == []
    ensures Reaches(Then(t, Deliver(parcel.sender, to)), agents, seats,
                    mail[to := Box(Got(received, parcel.message), waiting + 1, due, rest)])
  {
    DeliveredBox(received, waiting, due, mail[to].coming, parcel, rest);
    assert mail[to] == Box(received, waiting, due, mail[to].coming);
    assert !HasFrom([], parcel.sender);
    hide After, Possible, Delivered, HasFrom, Box;
    Going(t, Deliver(parcel.sender, to));
  }

  lemma DeliveredBox(received: Inbox, waiting: nat, due: Inbox, coming: seq<Parcel>, parcel: Parcel, rest: seq<Parcel>)
    requires rest == [] || (|rest| == 1 && rest[0].sender != parcel.sender)
    requires (coming == [parcel] + rest || coming == rest + [parcel]) && waiting < 4
    ensures HasFrom(coming, parcel.sender)
    ensures Delivered(Box(received, waiting, due, coming), 4, parcel.sender)
         == Box(Got(received, parcel.message), waiting + 1, due, rest)
  {
    TakenOut(coming, parcel, rest);
    hide Place, HasFrom;
  }

  lemma EnqueuesOnly(t: Trace, agents: Members, seats: map<nat, Seat>, mail: Mail, to: nat,
                     received: Inbox, waiting: nat, due: Inbox, parcel: Parcel)
    requires Reaches(t, agents, seats, mail) && to in mail && waiting < 4
    requires mail[to] == Box(received, waiting, due, [parcel])
    requires parcel.sender in mail && parcel.sender != to ==> mail[parcel.sender].coming == []
    ensures Reaches(Then(t, Deliver(parcel.sender, to)), agents, seats,
                    mail[to := Box(Got(received, parcel.message), waiting + 1, due, [])])
  {
    hide *;
    assert [parcel] + [] == [parcel];
    Enqueues(t, agents, seats, mail, to, received, waiting, due, parcel, []);
  }

  /** Of two messages the older one is enqueued. */
  lemma EnqueuesOlder(t: Trace, agents: Members, seats: map<nat, Seat>, mail: Mail, to: nat,
                      received: Inbox, waiting: nat, due: Inbox, parcel: Parcel, later: Parcel)
    requires Reaches(t, agents, seats, mail) && to in mail && waiting < 4 && later.sender != parcel.sender
    requires mail[to] == Box(received, waiting, due, [parcel, later])
    requires parcel.sender in mail && parcel.sender != to ==> mail[parcel.sender].coming == []
    ensures Reaches(Then(t, Deliver(parcel.sender, to)), agents, seats,
                    mail[to := Box(Got(received, parcel.message), waiting + 1, due, [later])])
  {
    hide *;
    assert [parcel] + [later] == [parcel, later];
    Enqueues(t, agents, seats, mail, to, received, waiting, due, parcel, [later]);
  }

  /** Of two messages the later one is enqueued. */
  lemma EnqueuesLater(t: Trace, agents: Members, seats: map<nat, Seat>, mail: Mail, to: nat,
                      received: Inbox, waiting: nat, due: Inbox, parcel: Parcel, older: Parcel)
    requires Reaches(t, agents, seats, mail) && to in mail && waiting < 4 && older.sender != parcel.sender
    requires mail[to] == Box(received, waiting, due, [older, parcel])
    requires parcel.sender in mail && parcel.sender != to ==> mail[parcel.sender].coming == []
    ensures Reaches(Then(t, Deliver(parcel.sender, to)), agents, seats,
                    mail[to := Box(Got(received, parcel.message), waiting + 1, due, [older])])
  {
    hide *;
    assert [older] + [parcel] == [older, parcel];
    Enqueues(t, agents, seats, mail, to, received, waiting, due, parcel, [older]);
  }

  /* ---------- the zookeeper and the agent come in ---------- */

  const SEAT_Z := Seat("r", Zookeeper, "z")
  const GREETING_Z := Connected("z", Zookeeper, {}, {})
  const GREETING_A := Connected("a", Agent, {}, {"z"})
  const JOINED := PeerJoined(Agent, "a")
  const LEFT := PeerLeft(Agent, "a")

  function ZookeeperIn(): Trace {
    Then(Then(Start(LIMITS, 4), CreateRoom("r", [], 0)), Connect(0, "r", Zookeeper, Some("z"), 0))
  }

  function AgentIn(): Trace {
    Then(ZookeeperIn(), Connect(1, "r", Agent, Some("a"), 0))
  }

  lemma ZookeeperComes()
    ensures Reaches(ZookeeperIn(), NOBODY, map[0 := SEAT_Z], map[0 := Issue(EMPTY, 0, GREETING_Z)])
  {
    var empty := App(LIMITS, 0, map[], map[]);
    var app := empty.(rooms := map["r" := Room([], NOBODY, NOBODY, 0, [])]);
    assert Pruned(empty, 0) == empty && PrunedRooms(app.rooms, 10, 0) == app.rooms;
    assert Pruned(app, 0) == app && NOBODY.Keys == {} && NOBODY["z" := 0] == Z;
    var mail: Mail := map[0 := Issue(EMPTY, 0, GREETING_Z)];
    assert IssueAll(mail, 0, NOBODY.Values, PeerJoined(Zookeeper, "z")) == mail;
    hide IssueAll, Issue, Pruned, After, Possible;
    Begun();
    Going(Start(LIMITS, 4), CreateRoom("r", [], 0));
    Going(Then(Start(LIMITS, 4), CreateRoom("r", [], 0)), Connect(0, "r", Zookeeper, Some("z"), 0));
  }

  lemma Begun()
    ensures Possible(Start(LIMITS, 4))
    ensures After(Start(LIMITS, 4)) == Server(App(LIMITS, 0, map[], map[]), 4, map[], map[], map[])
  {
  }

  const EARLY_Z := Box(Nothing, 0, Got(Nothing, GREETING_Z), [Parcel(0, GREETING_Z)])
  const ONLY_A: Members := map["a" := 1]
  const DUE_Z := Got(Got(Nothing, GREETING_Z), JOINED)
  const DUE_A := Got(Nothing, GREETING_A)
  const SEATS: map<nat, Seat> := map[0 := SEAT_Z][1 := Seat("r", Agent, "a")]

  /** What is issued in the runs below. */
  lemma Issued(conn: nat)
    ensures Issue(EMPTY, 0, GREETING_Z) == EARLY_Z
    ensures Issue(EARLY_Z, 1, JOINED) == Box(Nothing, 0, DUE_Z, [Parcel(0, GREETING_Z), Parcel(1, JOINED)])
    ensures Issue(EMPTY, conn, GREETING_A) == Box(Nothing, 0, DUE_A, [Parcel(conn, GREETING_A)])
    ensures Box(Got(Nothing, GREETING_A), 1, DUE_A, []).coming == [] && 0 in SEATS && SEATS[0] == SEAT_Z
  {
    assert forall p: Parcel :: [] + [p] == [p];
  }

  lemma AgentComes() returns (mail: Mail)
    ensures Reaches(AgentIn(), ONLY_A, SEATS, mail) && mail.Keys == {0, 1}
    ensures mail[0] == Box(Nothing, 0, DUE_Z, [Parcel(0, GREETING_Z), Parcel(1, JOINED)])
    ensures mail[1] == Box(Nothing, 0, DUE_A, [Parcel(1, GREETING_A)])
  {
    ZookeeperComes();
    Issued(1);
    hide Reaches, Issue, Box;
    var before: Mail := map[0 := EARLY_Z];
    Registers(ZookeeperIn(), NOBODY, map[0 := SEAT_Z], before, 1);
    mail := before[1 := Issue(EMPTY, 1, GREETING_A)][0 := Issue(before[0], 1, JOINED)];
  }

  /* ---------- a greeting that comes too late ---------- */

  /** The agent's task is quicker than the zookeeper's, and its news come first. */
  function StaleGreeting(): Trace {
    Then(Then(Then(AgentIn(), Deliver(1, 1)), Deliver(1, 0)), Deliver(0, 0))
  }

  /** A client for which everything is enqueued and that is not penalized. */
  ghost predicate HasAll(t: Trace, conn: nat) {
    && Possible(t) && conn in After(t).mail && conn in After(t).seats
    && After(t).seats[conn].handle in After(t).app.rooms
    && After(t).mail[conn].coming == [] && !After(t).mail[conn].penalized
  }

  /** What the zookeeper has at the end of a run. */
  lemma Ends(t: Trace, agents: Members, seats: map<nat, Seat>, mail: Mail, received: Inbox, waiting: nat, due: Inbox)
    requires Reaches(t, agents, seats, mail) && 0 in seats && seats[0] == SEAT_Z
    requires 0 in mail && mail[0] == Box(received, waiting, due, [])
    ensures HasAll(t, 0) && After(t).mail[0].received == received
    ensures SeesPeers(After(t), 0) <==> Heard(received, Zookeeper) == Live(agents.Keys)
  {
    hide Possible, After;
  }

  /** The zookeeper gives up. */
  lemma StaleGreetingMisleads()
    ensures HasAll(StaleGreeting(), 0) && Heard(After(StaleGreeting()).mail[0].received, Zookeeper) == GaveUp
  {
    hide *;
    var t0, greeting, joined := AgentIn(), Parcel(0, GREETING_Z), Parcel(1, JOINED);
    var mail := AgentComes();
    Issued(1);
    EnqueuesOnly(t0, ONLY_A, SEATS, mail, 1, Nothing, 0, DUE_A, Parcel(1, GREETING_A));
    var t1, mail1 := Then(t0, Deliver(1, 1)), mail[1 := Box(Got(Nothing, GREETING_A), 1, DUE_A, [])];
    EnqueuesLater(t1, ONLY_A, SEATS, mail1, 0, Nothing, 0, DUE_Z, joined, greeting);
    var t2, mail2 := Then(t1, Deliver(1, 0)), mail1[0 := Box(Got(Nothing, JOINED), 1, DUE_Z, [greeting])];
    EnqueuesOnly(t2, ONLY_A, SEATS, mail2, 0, Got(Nothing, JOINED), 1, DUE_Z, greeting);
    var inbox := Got(Got(Nothing, JOINED), GREETING_Z);
    Ends(Then(t2, Deliver(0, 0)), ONLY_A, SEATS, mail2[0 := Box(inbox, 2, DUE_Z, [])], inbox, 2, DUE_Z);
    StaleGreetingIs();
  }

  lemma StaleGreetingIs()
    ensures StaleGreeting() == Then(Then(Then(AgentIn(), Deliver(1, 1)), Deliver(1, 0)), Deliver(0, 0))
    ensures Heard(Got(Got(Nothing, JOINED), GREETING_Z), Zookeeper) == GaveUp
  {
  }

  /* ---------- an id that is used again ---------- */

  function AgentKnown(): Trace {
    Then(Then(Then(AgentIn(), Deliver(0, 0)), Deliver(1, 1)), Deliver(1, 0))
  }

  function SuccessorIn(): Trace {
    Then(Then(AgentKnown(), Disconnect(1, 0)), Connect(2, "r", Agent, Some("a"), 0))
  }

  /** An agent leaves and another one takes its name. The new one's task is quicker, so
      the news that the old one has left comes last. */
  function LateFarewell(): Trace {
    Then(Then(Then(SuccessorIn(), Deliver(2, 2)), Deliver(2, 0)), Deliver(1, 0))
  }

  const DUE_LATER := Got(Got(DUE_Z, LEFT), JOINED)
  const SUCCESSOR: Members := map["a" := 2]

  /** What is issued when the agent leaves and the next one comes. */
  lemma Reissued()
    ensures map["a" := 1] == ONLY_A && map["a" := 2] == SUCCESSOR
    ensures 1 in SEATS && SEATS[1] == Seat("r", Agent, "a") && (SEATS - {1})[2 := Seat("r", Agent, "a")][0] == SEAT_Z
    ensures Got(Got(Nothing, GREETING_Z), JOINED) == DUE_Z && 0 in SEATS && forall c: nat :: !HasFrom([], c)
    ensures Box(DUE_Z, 2, DUE_Z, []).coming == []
    ensures Issue(Box(DUE_Z, 2, DUE_Z, []), 1, LEFT) == Box(DUE_Z, 2, Got(DUE_Z, LEFT), [Parcel(1, LEFT)])
    ensures Issue(Box(DUE_Z, 2, Got(DUE_Z, LEFT), [Parcel(1, LEFT)]), 2, JOINED)
         == Box(DUE_Z, 2, DUE_LATER, [Parcel(1, LEFT), Parcel(2, JOINED)])
  {
    assert [] + [Parcel(1, LEFT)] == [Parcel(1, LEFT)];
  }

  lemma AgentBecomesKnown() returns (mail: Mail)
    ensures Reaches(AgentKnown(), ONLY_A, SEATS, mail) && mail.Keys == {0, 1}
    ensures mail[0] == Box(DUE_Z, 2, DUE_Z, []) && mail[1] == Box(Got(Nothing, GREETING_A), 1, DUE_A, [])
  {
    hide *;
    var t0, greeting, joined := AgentIn(), Parcel(0, GREETING_Z), Parcel(1, JOINED);
    mail := AgentComes();
    Issued(1);
    Reissued();
    EnqueuesOlder(t0, ONLY_A, SEATS, mail, 0, Nothing, 0, DUE_Z, greeting, joined);
    mail := mail[0 := Box(Got(Nothing, GREETING_Z), 1, DUE_Z, [joined])];
    var t1 := Then(t0, Deliver(0, 0));
    EnqueuesOnly(t1, ONLY_A, SEATS, mail, 1, Nothing, 0, DUE_A, Parcel(1, GREETING_A));
    mail := mail[1 := Box(Got(Nothing, GREETING_A), 1, DUE_A, [])];
    var t2 := Then(t1, Deliver(1, 1));
    EnqueuesOnly(t2, ONLY_A, SEATS, mail, 0, Got(Nothing, GREETING_Z), 1, DUE_Z, joined);
    mail := mail[0 := Box(DUE_Z, 2, DUE_Z, [])];
    assert AgentKnown() == Then(t2, Deliver(1, 0)) by { TracesUnfold(); }
  }

  lemma TracesUnfold()
    ensures AgentKnown() == Then(Then(Then(AgentIn(), Deliver(0, 0)), Deliver(1, 1)), Deliver(1, 0))
    ensures SuccessorIn() == Then(Then(AgentKnown(), Disconnect(1, 0)), Connect(2, "r", Agent, Some("a"), 0))
    ensures LateFarewell() == Then(Then(Then(SuccessorIn(), Deliver(2, 2)), Deliver(2, 0)), Deliver(1, 0))
    ensures "a" !in Heard(Got(Got(DUE_Z, JOINED), LEFT), Zookeeper).known && "a" in SUCCESSOR
    ensures Heard(Got(Got(DUE_Z, JOINED), LEFT), Zookeeper).Live?
  {
  }

  lemma SuccessorComes() returns (mail: Mail)
    ensures Reaches(SuccessorIn(), SUCCESSOR, (SEATS - {1})[2 := Seat("r", Agent, "a")], mail)
    ensures mail.Keys == {0, 1, 2} && mail[0] == Box(DUE_Z, 2, DUE_LATER, [Parcel(1, LEFT), Parcel(2, JOINED)])
    ensures mail[2] == Box(Nothing, 0, DUE_A, [Parcel(2, GREETING_A)])
    ensures mail[1] == Box(Got(Nothing, GREETING_A), 1, DUE_A, [])
  {
    hide *;
    mail := AgentBecomesKnown();
    Issued(1);
    Issued(2);
    Reissued();
    Unregisters(AgentKnown(), SEATS, mail, 1);
    mail := mail[0 := Issue(mail[0], 1, LEFT)];
    Registers(Then(AgentKnown(), Disconnect(1, 0)), NOBODY, SEATS - {1}, mail, 2);
    mail := mail[2 := Issue(EMPTY, 2, GREETING_A)][0 := Issue(mail[0], 2, JOINED)];
    TracesUnfold();
  }

  /** The second agent is there, and the zookeeper takes it to have left. */
  lemma LateFarewellMisleads()
    ensures HasAll(LateFarewell(), 0) && !SeesPeers(After(LateFarewell()), 0)
    ensures Heard(After(LateFarewell()).mail[0].received, Zookeeper).Live?
  {
    hide *;
    var t0, left, joined := SuccessorIn(), Parcel(1, LEFT), Parcel(2, JOINED);
    var mail := SuccessorComes();
    var seats := (SEATS - {1})[2 := Seat("r", Agent, "a")];
    Issued(2);
    Reissued();
    EnqueuesOnly(t0, SUCCESSOR, seats, mail, 2, Nothing, 0, DUE_A, Parcel(2, GREETING_A));
    var t1, mail1 := Then(t0, Deliver(2, 2)), mail[2 := Box(Got(Nothing, GREETING_A), 1, DUE_A, [])];
    EnqueuesLater(t1, SUCCESSOR, seats, mail1, 0, DUE_Z, 2, DUE_LATER, joined, left);
    var t2, mail2 := Then(t1, Deliver(2, 0)), mail1[0 := Box(Got(DUE_Z, JOINED), 3, DUE_LATER, [left])];
    EnqueuesOnly(t2, SUCCESSOR, seats, mail2, 0, Got(DUE_Z, JOINED), 3, DUE_LATER, left);
    var inbox := Got(Got(DUE_Z, JOINED), LEFT);
    Ends(Then(t2, Deliver(1, 0)), SUCCESSOR, seats, mail2[0 := Box(inbox, 4, DUE_LATER, [])], inbox, 4, DUE_LATER);
    TracesUnfold();
  }

  /* ---------- a zookeeper that signals itself ---------- */

  /** The server forwards a signal from a zookeeper to a zookeeper. */
  function SelfSignal(): Trace {
    Then(Then(Greeted(), SendSignal(0, "z", 0, 0)), DeliverNote(0))
  }

  /** The first signal in a room. */
  lemma FirstSignal(app: App, handle: string, sender: string, peer: string, now: nat, to: nat)
    requires Pruned(app, now) == app && handle in app.rooms && app.rooms[handle].signalEvents == []
    requires Addressee(app.rooms[handle], sender, peer) == Ok(to) && app.config.signalRateLimit > 0
    ensures
      var room := app.rooms[handle].(signalEvents := [now], lastActiveAt := now);
      ForwardSignal(app, handle, sender, peer, 0, now)
      == (app.(rooms := app.rooms[handle := room]), Ok((to, Signal(sender, 0))))
  {
    hide *;
    NoEvents(app.config.signalRateWindow, now);
    SignalCounted(app, handle, sender, peer, now, to);
  }

  lemma NoEvents(window: nat, now: nat)
    ensures PruneWindow([], window, now) == []
  {
  }

  lemma SignalCounted(app: App, handle: string, sender: string, peer: string, now: nat, to: nat)
    requires Pruned(app, now) == app && handle in app.rooms && app.rooms[handle].signalEvents == []
    requires PruneWindow([], app.config.signalRateWindow, now) == []
    requires Addressee(app.rooms[handle], sender, peer) == Ok(to) && app.config.signalRateLimit > 0
    ensures
      var room := app.rooms[handle].(signalEvents := [now], lastActiveAt := now);
      ForwardSignal(app, handle, sender, peer, 0, now)
      == (app.(rooms := app.rooms[handle := room]), Ok((to, Signal(sender, 0))))
  {
    hide Pruned, PruneWindow, Addressee;
    var none: seq<nat> := [];
    assert none + [now] == [now];
  }

  function Greeted(): Trace {
    Then(ZookeeperIn(), Deliver(0, 0))
  }

  const GREETED := Box(Got(Nothing, GREETING_Z), 1, Got(Nothing, GREETING_Z), [])

  lemma ZookeeperIsGreeted()
    ensures Reaches(Greeted(), NOBODY, map[0 := SEAT_Z], map[0 := GREETED])
    ensures InOrder(Greeted())
  {
    ZookeeperComes();
    Issued(1);
    var mail: Mail, due := map[0 := EARLY_Z], Got(Nothing, GREETING_Z);
    EnqueuesOnly(ZookeeperIn(), NOBODY, map[0 := SEAT_Z], mail, 0, Nothing, 0, due, Parcel(0, GREETING_Z));
    assert mail[0 := GREETED] == map[0 := GREETED];
    hide Possible, After;
  }

  /** And its client takes itself for an agent, though nothing overtook anything and
      nobody else is there. */
  lemma SelfSignalMisleads()
    ensures HasAll(SelfSignal(), 0) && InOrder(SelfSignal()) && !SeesPeers(After(SelfSignal()), 0)
    ensures Heard(After(SelfSignal()).mail[0].received, Zookeeper) == Live({"z"})
  {
    ZookeeperIsGreeted();
    var s := State(NOBODY, map[0 := SEAT_Z], map[0 := GREETED]);
    NothingPruned(NOBODY, map[0 := SEAT_Z], map[0 := GREETED]);
    FirstSignal(s.app, "r", "z", "z", 0, 0);
    assert Idle(s, 0);
    hide ForwardSignal, Pruned, After, Possible, Idle, Enabled, InOrder, SeesPeers, Heard;
    SendsSignal(Greeted(), s);
    SignalArrives(Then(Greeted(), SendSignal(0, "z", 0, 0)), s);
  }

  const SIGNAL := Note(0, Signal("z", 0), false)

  /** The server once the signal has been counted. */
  function Signalled(s: Server): Server
    requires "r" in s.app.rooms
  {
    s.(app := s.app.(rooms := s.app.rooms["r" := s.app.rooms["r"].(signalEvents := [0], lastActiveAt := 0)]))
  }

  lemma SendsSignal(t: Trace, s: Server)
    requires Possible(t) && After(t) == s && "r" in s.app.rooms && 0 in s.seats && s.seats[0] == SEAT_Z && Idle(s, 0)
    requires ForwardSignal(s.app, "r", "z", "z", 0, 0) == (Signalled(s).app, Ok((0, Signal("z", 0))))
    ensures Possible(Then(t, SendSignal(0, "z", 0, 0)))
    ensures After(Then(t, SendSignal(0, "z", 0, 0))) == Signalled(s).(notes := s.notes[0 := SIGNAL])
  {
    hide ForwardSignal, After, Possible, Idle;
    Going(t, SendSignal(0, "z", 0, 0));
  }

  lemma SignalArrives(t: Trace, s: Server)
    requires s == State(NOBODY, map[0 := SEAT_Z], map[0 := GREETED])
    requires Possible(t) && After(t) == Signalled(s).(notes := s.notes[0 := SIGNAL])
    ensures HasAll(Then(t, DeliverNote(0)), 0)
    ensures !SeesPeers(After(Then(t, DeliverNote(0))), 0)
    ensures Heard(After(Then(t, DeliverNote(0))).mail[0].received, Zookeeper) == Live({"z"})
  {
    hide After, Possible;
    Going(t, DeliverNote(0));
  }
}
