/** The bounded outbound queues of the connections, their penalty flags, and the
    messages on their way to them.

    A task learns under the lock whom to tell what, releases the lock, and only then
    enqueues. So each mailbox has, besides the queue, the list of what is `due` to its
    owner in lock order, and those messages that some task has still to enqueue. */
module Mailboxes {
  import opened Wrappers
  import opened Rooms

  /** Messages, oldest first. */
  datatype Inbox = Nothing | Got(before: Inbox, last: Message)

  /** A message that the task of connection `sender` has still to enqueue. */
  datatype Parcel = Parcel(sender: nat, message: Message)

  /** `received` is everything ever enqueued, of which the last `waiting` messages are
      still in the queue; `due` is what was issued under the lock about members, and
      `coming` the part of it that is not enqueued yet, both in lock order. */
  datatype Mailbox = Mailbox(received: Inbox, waiting: nat, penalized: bool, open: bool,
                             due: Inbox, coming: seq<Parcel>)

  type Mail = map<nat, Mailbox>

  const EMPTY := Mailbox(Nothing, 0, false, true, Nothing, [])

  /** Messages from which a client learns who is there. */
  predicate AboutMembers(message: Message) {
    message.Connected? || message.PeerJoined? || message.PeerLeft?
  }

  /** Sending never waits: a full queue drops the message and penalizes its owner,
      a closed one drops it. */
  function Send(box: Mailbox, capacity: nat, message: Message): Mailbox {
    if !box.open then box
    else if box.waiting >= capacity then box.(penalized := true)
    else box.(received := Got(box.received, message), waiting := box.waiting + 1)
  }

  /** An open queue never loses a message silently. */
  lemma DroppedMeansPenalized(box: Mailbox, capacity: nat, message: Message)
    requires box.open
    ensures
      var sent := Send(box, capacity, message);
      && sent.open && (box.penalized ==> sent.penalized)
      && (sent.received == Got(box.received, message) || (sent.received == box.received && sent.penalized))
  {
  }

  function SendTo(mail: Mail, capacity: nat, conn: nat, message: Message): Mail {
    if conn in mail then mail[conn := Send(mail[conn], capacity, message)] else mail
  }

  /** Under the lock a message becomes due. */
  function Issue(box: Mailbox, sender: nat, message: Message): Mailbox {
    box.(due := Got(box.due, message), coming := box.coming + [Parcel(sender, message)])
  }

  /** One message to each of a set of connections. */
  function IssueAll(mail: Mail, sender: nat, conns: set<nat>, message: Message): Mail {
    map c | c in mail :: if c in conns then Issue(mail[c], sender, message) else mail[c]
  }

  predicate HasFrom(coming: seq<Parcel>, sender: nat) {
    exists k | 0 <= k < |coming| :: coming[k].sender == sender
  }

  /** The oldest message of a sender. */
  function Place(coming: seq<Parcel>, sender: nat): (k: nat)
    requires HasFrom(coming, sender)
    ensures k < |coming| && coming[k].sender == sender
    ensures forall j | 0 <= j < k :: coming[j].sender != sender
  {
    if coming[0].sender == sender then 0
    else
      assert forall k | 0 < k < |coming| :: coming[k] == coming[1..][k - 1];
      1 + Place(coming[1..], sender)
  }

  /** Afterwards and without the lock, the sender enqueues it. */
  function Delivered(box: Mailbox, capacity: nat, sender: nat): Mailbox
    requires HasFrom(box.coming, sender)
  {
    var k := Place(box.coming, sender);
    Send(box.(coming := box.coming[..k] + box.coming[k + 1..]), capacity, box.coming[k].message)
  }

  /* ---------- what a client makes of its messages ---------- */

  /** A client waits for its greeting; then it keeps track of the members of the other
      role. Whatever it does not expect while it waits makes it give up. */
  datatype Client = Waiting | Live(known: set<string>) | GaveUp

  /** Members of the other role that a greeting lists. */
  function Listed(greeting: Message, role: Role): set<string>
    requires greeting.Connected?
  {
    if role.Agent? then greeting.zookeepers else greeting.agents
  }

  /** The agents' client lets a pong pass while it waits, and acts on signals only from
      those it knows; the zookeepers' takes the sender of a signal for an agent. */
  function Hear(client: Client, message: Message, role: Role): Client {
    match client
    case GaveUp => GaveUp
    case Waiting =>
      if message.Connected? then Live(Listed(message, role))
      else if message.Pong? && role.Agent? then Waiting
      else GaveUp
    case Live(known) =>
      match message
      case Connected(_, _, _, _) => Live(known + Listed(message, role))
      case PeerJoined(r, id) => if r == Opposite(role) then Live(known + {id}) else client
      case PeerLeft(r, id) => if r == Opposite(role) then Live(known - {id}) else client
      case Signal(id, _) => if role.Zookeeper? then Live(known + {id}) else client
      case _ => client
  }

  function Heard(inbox: Inbox, role: Role): Client {
    match inbox
    case Nothing => Waiting
    case Got(before, last) => Hear(Heard(before, role), last, role)
  }

  /** The first message that a waiting client does not let pass. */
  function First(inbox: Inbox, role: Role): Option<Message> {
    match inbox
    case Nothing => None
    case Got(before, last) =>
      if First(before, role).Some? then First(before, role)
      else if last.Pong? && role.Agent? then None
      else Some(last)
  }

  predicate GreetedFirst(inbox: Inbox, role: Role) {
    First(inbox, role).Some? && First(inbox, role).value.Connected?
  }

  /** Does the message settle for a client of this role whether `id` is there? */
  predicate Settles(message: Message, role: Role, id: string) {
    match message
    case Connected(_, _, _, _) => id in Listed(message, role)
    case PeerJoined(r, i) => r == Opposite(role) && i == id
    case PeerLeft(r, i) => r == Opposite(role) && i == id
    case Signal(i, _) => role.Zookeeper? && i == id
    case _ => false
  }

  /** The last message that settles it. */
  function LastWord(inbox: Inbox, role: Role, id: string): Option<Message> {
    match inbox
    case Nothing => None
    case Got(before, last) => if Settles(last, role, id) then Some(last) else LastWord(before, role, id)
  }

  predicate LastSaysPresent(inbox: Inbox, role: Role, id: string) {
    LastWord(inbox, role, id).Some? && !LastWord(inbox, role, id).value.PeerLeft?
  }

  /** A client is live exactly if its greeting came first, and then it knows of exactly
      those of whom the last word is that they are there. */
  lemma {:induction false} HeardIff(inbox: Inbox, role: Role, id: string)
    ensures Heard(inbox, role).Waiting? <==> First(inbox, role).None?
    ensures Heard(inbox, role).Live? <==> GreetedFirst(inbox, role)
    ensures Heard(inbox, role).Live? ==> (id in Heard(inbox, role).known <==> LastSaysPresent(inbox, role, id))
    ensures Heard(inbox, role).Waiting? ==> LastWord(inbox, role, id).None?
  {
    if inbox.Got? { HeardIff(inbox.before, role, id); }
  }

  /* ---------- what is due, enqueued and on its way ---------- */

  /** The messages about members alone. */
  function News(inbox: Inbox): Inbox {
    match inbox
    case Nothing => Nothing
    case Got(before, last) => if AboutMembers(last) then Got(News(before), last) else News(before)
  }

  function Counted(inbox: Inbox): multiset<Message> {
    match inbox
    case Nothing => multiset{}
    case Got(before, last) => Counted(before) + multiset{last}
  }

  function Messages(coming: seq<Parcel>): seq<Message> {
    seq(|coming|, i requires 0 <= i < |coming| => coming[i].message)
  }

  /** The inbox with some more messages after it. */
  function Extended(inbox: Inbox, messages: seq<Message>): Inbox
    decreases |messages|
  {
    if messages == [] then inbox else Extended(Got(inbox, messages[0]), messages[1..])
  }

  lemma {:induction false} ExtendedByOne(inbox: Inbox, messages: seq<Message>, last: Message)
    ensures Extended(inbox, messages + [last]) == Got(Extended(inbox, messages), last)
    decreases |messages|
  {
    if messages == [] {
      assert [last][1..] == [];
    } else {
      assert (messages + [last])[1..] == messages[1..] + [last];
      ExtendedByOne(Got(inbox, messages[0]), messages[1..], last);
    }
  }

  ghost predicate AllNews(coming: seq<Parcel>) {
    forall i | 0 <= i < |coming| :: AboutMembers(coming[i].message)
  }

  /** In any order of enqueueing: each message due is enqueued or on its way, once. */
  ghost predicate Accounted(box: Mailbox) {
    && AllNews(box.coming)
    && (box.open && !box.penalized ==>
          Counted(News(box.received)) + multiset(Messages(box.coming)) == Counted(box.due))
  }

  /** A greeting on its way is ahead of everything else. */
  predicate GreetingAhead(box: Mailbox) {
    && (forall i | 0 < i < |box.coming| :: !box.coming[i].message.Connected?)
    && (box.coming != [] && box.coming[0].message.Connected? ==> News(box.received) == Nothing)
  }

  /** In lock order: what is enqueued and then what is on its way is what is due. */
  ghost predicate InLine(box: Mailbox) {
    && AllNews(box.coming) && GreetingAhead(box)
    && (box.open && !box.penalized ==> Extended(News(box.received), Messages(box.coming)) == box.due)
  }

  lemma OneMoreMessage(coming: seq<Parcel>, parcel: Parcel)
    ensures Messages(coming + [parcel]) == Messages(coming) + [parcel.message]
    ensures multiset(Messages(coming + [parcel])) == multiset(Messages(coming)) + multiset{parcel.message}
  {
    assert Messages(coming + [parcel]) == Messages(coming) + [parcel.message];
  }

  lemma OneMessageLess(coming: seq<Parcel>, k: nat)
    requires k < |coming|
    ensures multiset(Messages(coming))
         == multiset(Messages(coming[..k] + coming[k + 1..])) + multiset{coming[k].message}
  {
    var before, after := coming[..k], coming[k + 1..];
    assert Messages(coming) == Messages(before) + [coming[k].message] + Messages(after);
    assert Messages(before + after) == Messages(before) + Messages(after);
  }

  lemma IssueKeepsAccounted(box: Mailbox, sender: nat, message: Message)
    requires Accounted(box) && AboutMembers(message)
    ensures Accounted(Issue(box, sender, message))
  {
    OneMoreMessage(box.coming, Parcel(sender, message));
    hide Messages, News;
  }

  lemma IssueKeepsInLine(box: Mailbox, sender: nat, message: Message)
    requires InLine(box) && AboutMembers(message) && (message.Connected? ==> box == EMPTY)
    ensures InLine(Issue(box, sender, message))
  {
    OneMoreMessage(box.coming, Parcel(sender, message));
    ExtendedByOne(News(box.received), Messages(box.coming), message);
    assert News(EMPTY.received) == Nothing;
    hide Messages, News, Extended;
  }

  lemma DeliveryKeepsAccounted(box: Mailbox, capacity: nat, sender: nat)
    requires Accounted(box) && HasFrom(box.coming, sender)
    ensures Accounted(Delivered(box, capacity, sender))
  {
    OneMessageLess(box.coming, Place(box.coming, sender));
    hide Messages;
  }

  lemma OldestTaken(coming: seq<Parcel>, inbox: Inbox)
    requires coming != [] && AllNews(coming)
    ensures AllNews(coming[1..]) && AboutMembers(coming[0].message)
    ensures Extended(News(inbox), Messages(coming))
         == Extended(News(Got(inbox, coming[0].message)), Messages(coming[1..]))
  {
    assert Messages(coming)[0] == coming[0].message && Messages(coming)[1..] == Messages(coming[1..]);
    hide Messages;
  }

  lemma OldestDelivered(box: Mailbox, capacity: nat, sender: nat)
    requires HasFrom(box.coming, sender) && box.coming[0].sender == sender
    ensures Delivered(box, capacity, sender)
         == Send(box.(coming := box.coming[1..]), capacity, box.coming[0].message)
  {
    assert Place(box.coming, sender) == 0 && box.coming[..0] + box.coming[1..] == box.coming[1..];
    hide Send;
  }

  /** Enqueueing the oldest message on its way keeps the lock order. */
  lemma DeliveryKeepsInLine(box: Mailbox, capacity: nat, sender: nat)
    requires InLine(box) && HasFrom(box.coming, sender) && box.coming[0].sender == sender
    ensures InLine(Delivered(box, capacity, sender))
  {
    OldestTaken(box.coming, box.received);
    OldestDelivered(box, capacity, sender);
    hide AllNews, News, Messages, Extended, Delivered, HasFrom, AboutMembers;
  }

  lemma NoteKeepsBox(box: Mailbox, capacity: nat, note: Message)
    requires !AboutMembers(note)
    ensures Accounted(box) ==> Accounted(Send(box, capacity, note))
    ensures InLine(box) ==> InLine(Send(box, capacity, note))
  {
    hide Messages, Counted, Extended;
  }

  /* ---------- the queues as they run ---------- */

  class Outbound {
    const capacity: nat
    var mail: Mail

    constructor (capacity: nat)
      ensures mail == map[] && this.capacity == capacity
    {
      this.capacity := capacity;
      mail := map[];
    }

    method Open(conn: nat)
      modifies this
      ensures mail == old(mail)[conn := EMPTY]
    {
      mail := mail[conn := EMPTY];
    }

    /** The connection's own messages: it learns whether to go on. */
    method EnqueueLocalMessage(conn: nat, message: Message) returns (goOn: bool)
      requires conn in mail
      modifies this
      ensures mail == SendTo(old(mail), capacity, conn, message)
      ensures goOn <==> old(mail)[conn].open && old(mail)[conn].waiting < capacity
    {
      var box := mail[conn];
      if !box.open {
        return false;
      }
      if box.waiting >= capacity {
        mail := mail[conn := box.(penalized := true)];
        return false;
      }
      mail := mail[conn := box.(received := Got(box.received, message), waiting := box.waiting + 1)];
      goOn := true;
    }

    method EnqueueRemoteMessage(conn: nat, message: Message)
      requires conn in mail
      modifies this
      ensures mail == SendTo(old(mail), capacity, conn, message)
    {
      var _ := EnqueueLocalMessage(conn, message);
    }

    method IssueTo(conn: nat, sender: nat, message: Message)
      requires conn in mail
      modifies this
      ensures mail == old(mail)[conn := Issue(old(mail)[conn], sender, message)]
    {
      mail := mail[conn := Issue(mail[conn], sender, message)];
    }

    /** The list of broadcasts is drawn up member by member, in any order. */
    method IssueBroadcasts(sender: nat, peers: Members, message: Message)
      requires peers.Values <= mail.Keys
      requires forall i, j | i in peers && j in peers && i != j :: peers[i] != peers[j]
      modifies this
      ensures mail == IssueAll(old(mail), sender, peers.Values, message)
    {
      var left := peers.Keys;
      ghost var start, done := mail, {};
      while left != {}
        invariant left <= peers.Keys && mail.Keys == start.Keys
        invariant forall id | id in peers :: peers[id] in done <==> id !in left
        invariant done <= peers.Values
        invariant forall c | c in start ::
                    mail[c] == if c in done then Issue(start[c], sender, message) else start[c]
        decreases left
      {
        var id :| id in left;
        IssueTo(peers[id], sender, message);
        done := done + {peers[id]};
        left := left - {id};
      }
      forall c | c in peers.Values ensures c in done {
        var id :| id in peers && peers[id] == c;
      }
    }

    /** The sender takes the message off its list and enqueues it. */
    method Deliver(sender: nat, conn: nat)
      requires conn in mail && HasFrom(mail[conn].coming, sender)
      modifies this
      ensures mail == old(mail)[conn := Delivered(old(mail)[conn], capacity, sender)]
    {
      var box := mail[conn];
      var k := Place(box.coming, sender);
      mail := mail[conn := box.(coming := box.coming[..k] + box.coming[k + 1..])];
      EnqueueRemoteMessage(conn, box.coming[k].message);
    }

    /** The connection's task takes one message out to send it. */
    method Receive(conn: nat)
      requires conn in mail
      modifies this
      ensures mail == old(mail)[conn := old(mail)[conn].(waiting := SatSub(old(mail)[conn].waiting, 1))]
    {
      var box := mail[conn];
      mail := mail[conn := box.(waiting := SatSub(box.waiting, 1))];
    }

    method Close(conn: nat)
      requires conn in mail
      modifies this
      ensures mail == old(mail)[conn := old(mail)[conn].(open := false)]
    {
      mail := mail[conn := mail[conn].(open := false)];
    }
  }
}
