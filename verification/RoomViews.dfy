/** What holds of whole runs of the server: who is a member, what becomes of the messages
    on their way, and what the clients see. */
module RoomViews {
  import opened Wrappers
  import opened Rooms
  import opened Mailboxes
  import opened RoomRuns

  /* ---------- messages on their way ---------- */

  ghost predicate AllAccounted(mail: Mail) {
    forall c | c in mail :: Accounted(mail[c])
  }

  ghost predicate AllInLine(mail: Mail) {
    forall c | c in mail :: InLine(mail[c])
  }

  /** The message is the oldest on its way to its receiver. */
  predicate TakesOldest(s: Server, a: Action) {
    a.Deliver? && a.to in s.mail && s.mail[a.to].coming != [] ==> s.mail[a.to].coming[0].sender == a.conn
  }

  lemma IssueAllKeeps(mail: Mail, sender: nat, conns: set<nat>, message: Message)
    requires AboutMembers(message) && !message.Connected?
    ensures AllAccounted(mail) ==> AllAccounted(IssueAll(mail, sender, conns, message))
    ensures AllInLine(mail) ==> AllInLine(IssueAll(mail, sender, conns, message))
  {
    hide Issue, Accounted, InLine;
    forall c | c in mail
      ensures Accounted(mail[c]) ==> Accounted(Issue(mail[c], sender, message))
      ensures InLine(mail[c]) ==> InLine(Issue(mail[c], sender, message))
    {
      if Accounted(mail[c]) { IssueKeepsAccounted(mail[c], sender, message); }
      if InLine(mail[c]) { IssueKeepsInLine(mail[c], sender, message); }
    }
  }

  lemma SendToKeeps(mail: Mail, capacity: nat, to: nat, note: Message)
    requires !AboutMembers(note)
    ensures AllAccounted(mail) ==> AllAccounted(SendTo(mail, capacity, to, note))
    ensures AllInLine(mail) ==> AllInLine(SendTo(mail, capacity, to, note))
  {
    if to in mail { NoteKeepsBox(mail[to], capacity, note); }
    hide Send, Accounted, InLine;
  }

  /** The first message of a new mailbox. */
  lemma GreetingKeeps(mail: Mail, conn: nat, greeting: Message)
    requires AboutMembers(greeting)
    ensures AllAccounted(mail) ==> AllAccounted(mail[conn := Issue(EMPTY, conn, greeting)])
    ensures AllInLine(mail) ==> AllInLine(mail[conn := Issue(EMPTY, conn, greeting)])
  {
    assert Messages([]) == [];
    IssueKeepsAccounted(EMPTY, conn, greeting);
    IssueKeepsInLine(EMPTY, conn, greeting);
    hide Issue, Accounted, InLine;
  }

  lemma ConnectKeepsMail(s: Server, conn: nat, handle: string, role: Role, alias: Option<string>, now: nat)
    ensures AllAccounted(s.mail) ==> AllAccounted(DoConnect(s, conn, handle, role, alias, now).mail)
    ensures AllInLine(s.mail) ==> AllInLine(DoConnect(s, conn, handle, role, alias, now).mail)
  {
    var p := Pruned(s.app, now);
    if handle in p.rooms {
      EnrolFacts(p, handle, role, alias, conn, now);
      var (q, r) := Enrol(p, handle, role, alias, conn, now);
      hide Enrol, Issue, IssueAll, AllAccounted, AllInLine;
      GreetingKeeps(s.mail, conn, r.connected);
      IssueAllKeeps(s.mail[conn := Issue(EMPTY, conn, r.connected)], conn, r.peers.Values, r.joined);
    }
  }

  lemma DeliverKeepsMail(s: Server, conn: nat, to: nat)
    requires to in s.mail && HasFrom(s.mail[to].coming, conn)
    ensures AllAccounted(s.mail) ==> AllAccounted(DoDeliver(s, conn, to).mail)
    ensures AllInLine(s.mail) && TakesOldest(s, Deliver(conn, to)) ==> AllInLine(DoDeliver(s, conn, to).mail)
  {
    var box := s.mail[to];
    if Accounted(box) { DeliveryKeepsAccounted(box, s.capacity, conn); }
    if InLine(box) && box.coming[0].sender == conn { DeliveryKeepsInLine(box, s.capacity, conn); }
    hide Accounted, InLine, Delivered, HasFrom;
  }

  /** Each step keeps every message due accounted for; the steps in lock order keep
      them in line. */
  lemma StepKeepsMail(s: Server, a: Action)
    requires Enabled(s, a) && NotesOk(s.mail, s.notes)
    ensures AllAccounted(s.mail) ==> AllAccounted(Step(s, a).mail)
    ensures AllInLine(s.mail) && TakesOldest(s, a) ==> AllInLine(Step(s, a).mail)
  {
    hide AllAccounted, AllInLine, DoConnect, DoDeliver, Issue, IssueAll, Send, SendTo, Idle;
    hide Unregister, ForwardSignal, StoreRoom, CheckAuthRateLimit, Pruned, TakesOldest;
    match a
    case Connect(conn, handle, role, alias, now) => ConnectKeepsMail(s, conn, handle, role, alias, now);
    case Deliver(conn, to) => DeliverKeepsMail(s, conn, to);
    case DeliverNote(conn) => SendToKeeps(s.mail, s.capacity, s.notes[conn].to, s.notes[conn].message);
    case Notify(conn, note) => SendToKeeps(s.mail, s.capacity, conn, note);
    case Drain(conn) => DrainKeepsMail(s, conn);
    case Disconnect(conn, now) => DisconnectKeepsMail(s, conn, now);
    case Close(conn) => CloseKeepsMail(s, conn);
    case _ =>
  }

  lemma DisconnectKeepsMail(s: Server, conn: nat, now: nat)
    requires conn in s.seats
    ensures AllAccounted(s.mail) ==> AllAccounted(DoDisconnect(s, conn, now).mail)
    ensures AllInLine(s.mail) ==> AllInLine(DoDisconnect(s, conn, now).mail)
  {
    hide Unregister, AllAccounted, AllInLine, IssueAll;
    var seat := s.seats[conn];
    var peers := Unregister(s.app, seat.handle, seat.role, seat.id, now).1;
    IssueAllKeeps(s.mail, conn, peers.Values, PeerLeft(seat.role, seat.id));
  }

  lemma DrainKeepsMail(s: Server, conn: nat)
    requires conn in s.mail
    ensures AllAccounted(s.mail) ==> AllAccounted(DoDrain(s, conn).mail)
    ensures AllInLine(s.mail) ==> AllInLine(DoDrain(s, conn).mail)
  {
    hide News, Messages, Extended, Counted;
  }

  lemma CloseKeepsMail(s: Server, conn: nat)
    requires conn in s.mail
    ensures AllAccounted(s.mail) ==> AllAccounted(DoClose(s, conn).mail)
    ensures AllInLine(s.mail) ==> AllInLine(DoClose(s, conn).mail)
  {
    hide News, Messages, Extended, Counted;
  }

  /* ---------- every run ---------- */

  /** In every run, whatever the order in which tasks enqueue what they learnt under the
      lock: ids of the two roles are disjoint, an id maps to the one live connection that
      holds it, what is due to a client tells it exactly who is there, and everything due
      to one that is not penalized is enqueued or on its way, once. */
  lemma {:induction false} EveryRunIsConsistent(t: Trace)
    requires Possible(t)
    ensures Inv(After(t)) && AllAccounted(After(t).mail)
  {
    hide Step, Enabled, Inv;
    match t
    case Start(_, _) => StartInv(t);
    case Then(before, a) =>
      EveryRunIsConsistent(before);
      StepKeepsInv(After(before), a);
      assert NotesOk(After(before).mail, After(before).notes) by { InvNotes(After(before)); }
      StepKeepsMail(After(before), a);
  }

  lemma InvNotes(s: Server)
    requires Inv(s)
    ensures NotesOk(s.mail, s.notes)
  {
  }

  lemma StartInv(t: Trace)
    requires t.Start? && Possible(t)
    ensures Inv(After(t)) && AllAccounted(After(t).mail) && AllInLine(After(t).mail)
  {
  }

  /** A run in which messages to the same client are enqueued in lock order, though
      perhaps much later. */
  ghost predicate InOrder(t: Trace) {
    t.Then? ==> InOrder(t.before) && TakesOldest(After(t.before), t.action)
  }

  lemma {:induction false} OrderedRunInLine(t: Trace)
    requires Possible(t) && InOrder(t)
    ensures AllInLine(After(t).mail)
  {
    hide Step, Enabled, Inv, TakesOldest;
    match t
    case Start(_, _) => StartInv(t);
    case Then(before, a) =>
      OrderedRunInLine(before);
      EveryRunIsConsistent(before);
      assert NotesOk(After(before).mail, After(before).notes) by { InvNotes(After(before)); }
      StepKeepsMail(After(before), a);
  }

  /** In lock order, at every moment: what is enqueued and then what is on its way tells
      a client that is not penalized exactly who of the other role is there. */
  lemma OrderedRunsTellMembers(t: Trace, conn: nat)
    requires Possible(t) && InOrder(t) && conn in After(t).seats
    ensures conn in After(t).mail && After(t).seats[conn].handle in After(t).app.rooms
    ensures
      var s, box := After(t), After(t).mail[conn];
      var room := s.app.rooms[s.seats[conn].handle];
      !box.penalized ==>
        Heard(Extended(News(box.received), Messages(box.coming)), s.seats[conn].role)
        == Live(MembersOf(room, Opposite(s.seats[conn].role)).Keys)
  {
    EveryRunIsConsistent(t);
    OrderedRunInLine(t);
    hide After, Inv, Possible, InOrder;
    SeatFacts(After(t), conn);
    assert InLine(After(t).mail[conn]);
  }

  /** In any order: once everything is enqueued, a client that is not penalized sees
      exactly the members of the other role if and only if its greeting came first and
      for each id the message enqueued last that settles it says what the one issued
      last under the lock says. */
  lemma ViewRightIff(t: Trace, conn: nat)
    requires Possible(t) && conn in After(t).seats
    ensures conn in After(t).mail && After(t).seats[conn].handle in After(t).app.rooms
    ensures
      var s, box := After(t), After(t).mail[conn];
      var role := s.seats[conn].role;
      box.coming == [] && !box.penalized ==>
        (&& Counted(News(box.received)) == Counted(box.due)
         && (SeesPeers(s, conn) <==>
               && GreetedFirst(box.received, role)
               && forall id :: LastSaysPresent(box.received, role, id) <==> LastSaysPresent(box.due, role, id)))
  {
    EveryRunIsConsistent(t);
    hide After, Inv, Possible;
    var s := After(t);
    SeatFacts(s, conn);
    var box, role := s.mail[conn], s.seats[conn].role;
    assert Accounted(box);
    assert box.coming == [] ==> Messages(box.coming) == [];
    hide Heard, LastSaysPresent, GreetedFirst, Accounted, News;
    HeardIff(box.received, role, "");
    forall id
      ensures Heard(box.received, role).Live? ==>
                (id in Heard(box.received, role).known <==> LastSaysPresent(box.received, role, id))
      ensures id in Heard(box.due, role).known <==> LastSaysPresent(box.due, role, id)
    {
      HeardIff(box.received, role, id);
      HeardIff(box.due, role, id);
    }
  }

  /** A room with anybody in it outlives every step but the leaving of its members. */
  lemma OccupiedRoomsStay(s: Server, a: Action, handle: string)
    requires Inv(s) && Enabled(s, a)
    requires exists conn :: conn in s.seats && s.seats[conn].handle == handle && !(a.Disconnect? && a.conn == conn)
    ensures handle in Step(s, a).app.rooms
  {
    var conn :| conn in s.seats && s.seats[conn].handle == handle && !(a.Disconnect? && a.conn == conn);
    StepKeepsInv(s, a);
    OthersKeepSeats(s, a, conn);
    hide Step;
    assert SeatHeld(Step(s, a).app.rooms, conn, s.seats[conn]);
  }

  lemma OthersKeepSeats(s: Server, a: Action, conn: nat)
    requires Inv(s) && Enabled(s, a) && conn in s.seats && !(a.Disconnect? && a.conn == conn)
    ensures conn in Step(s, a).seats && Step(s, a).seats[conn] == s.seats[conn]
  {
    hide Step, Enabled, Owned;
    assert conn in s.mail;
    MailedKeepSeats(s, a, conn);
  }

  lemma MailedKeepSeats(s: Server, a: Action, conn: nat)
    requires Enabled(s, a) && conn in s.seats && conn in s.mail && !(a.Disconnect? && a.conn == conn)
    ensures conn in Step(s, a).seats && Step(s, a).seats[conn] == s.seats[conn]
  {
    hide Register, Unregister, ForwardSignal, StoreRoom, CheckAuthRateLimit, Pruned, SendTo;
  }
}
