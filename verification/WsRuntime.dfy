/** The life of a websocket connection: it registers, greets and announces itself,
    exchanges signals, and is unregistered when its loop ends.

    Each method is what the connection's task does in one go; between two of them
    other tasks may run. */
module WsRuntime {
  import opened Wrappers
  import opened Rooms
  import opened Mailboxes
  import RoomServer
  import RoomRuns

  class Runtime {
    const state: RoomServer.AppState
    const outbound: Outbound
    var notes: map<nat, RoomRuns.Note>
    ghost var seats: map<nat, RoomRuns.Seat>

    ghost function View(): RoomRuns.Server
      reads this, state, outbound
    {
      RoomRuns.Server(state.View(), outbound.capacity, seats, outbound.mail, notes)
    }

    ghost predicate Valid()
      reads this, state, outbound
    {
      RoomRuns.Inv(View())
    }

    constructor (config: Config, capacity: nat)
      requires capacity >= 1
      ensures Valid() && fresh(state) && fresh(outbound)
      ensures View() == RoomRuns.After(RoomRuns.Start(config, capacity))
    {
      state := new RoomServer.AppState(config);
      outbound := new Outbound(capacity);
      notes := map[];
      seats := map[];
    }

    /** The lock is held from the end of authentication until it is known whom to tell. */
    method Connect(conn: nat, handle: string, role: Role, alias: Option<string>, now: nat)
      returns (clientId: Option<string>)
      requires Valid() && conn !in outbound.mail
      modifies this, state, outbound
      ensures Valid() && View() == RoomRuns.DoConnect(old(View()), conn, handle, role, alias, now)
      ensures clientId.Some? ==> conn in seats && seats[conn] == RoomRuns.Seat(handle, role, clientId.value)
    {
      ghost var s := View();
      hide RoomRuns.Inv, Rooms.Register, Issue, IssueAll, RoomRuns.Informed;
      RoomRuns.ConnectKeepsInv(s, conn, handle, role, alias, now);
      PeersAreConnected(s, handle, role, alias, conn, now);
      var registration := state.Register(handle, role, alias, conn, now);
      if registration.Err? {
        return None;
      }
      var r := registration.value;
      outbound.Open(conn);
      outbound.IssueTo(conn, conn, r.connected);
      assert outbound.mail == s.mail[conn := Issue(EMPTY, conn, r.connected)];
      outbound.IssueBroadcasts(conn, r.peers, r.joined);
      seats := seats[conn := RoomRuns.Seat(handle, role, r.clientId)];
      clientId := Some(r.clientId);
    }

    /** One message of the task's list enqueued, its own greeting or one for a peer. */
    method Deliver(conn: nat, to: nat)
      requires Valid() && RoomRuns.Enabled(View(), RoomRuns.Deliver(conn, to))
      modifies outbound
      ensures Valid() && View() == RoomRuns.DoDeliver(old(View()), conn, to)
    {
      RoomRuns.DeliverKeepsInv(View(), conn, to);
      outbound.Deliver(conn, to);
    }

    /** The whole list worked off in some order, if nobody comes between. */
    method BroadcastAll(conn: nat, peers: seq<nat>)
      requires Valid() && conn in outbound.mail && !HasFrom(outbound.mail[conn].coming, conn)
      requires forall i, j | 0 <= i < j < |peers| :: peers[i] != peers[j]
      requires forall i | 0 <= i < |peers| ::
                 peers[i] != conn && peers[i] in outbound.mail && HasFrom(outbound.mail[peers[i]].coming, conn)
      modifies outbound
      ensures Valid() && outbound.mail.Keys == old(outbound.mail.Keys)
      ensures forall c | c in outbound.mail ::
                outbound.mail[c] == if c in peers then Delivered(old(outbound.mail[c]), outbound.capacity, conn)
                                    else old(outbound.mail[c])
    {
      ghost var start := outbound.mail;
      hide Delivered, RoomRuns.Inv, HasFrom;
      for i := 0 to |peers|
        invariant Valid() && outbound.mail.Keys == start.Keys
        invariant forall c | c in start ::
                    outbound.mail[c] == if c in peers[..i] then Delivered(start[c], outbound.capacity, conn)
                                        else start[c]
      {
        assert peers[i] !in peers[..i] && conn !in peers[..i];
        Deliver(conn, peers[i]);
        assert peers[..i + 1] == peers[..i] + [peers[i]];
      }
      assert peers[..|peers|] == peers;
    }

    /** What follows the loop, however it ended: the lock is held until it is known
        whom to tell. */
    method Disconnect(conn: nat, handle: string, role: Role, clientId: string, now: nat)
      requires Valid() && conn in seats && seats[conn] == RoomRuns.Seat(handle, role, clientId)
      modifies this, state, outbound
      ensures Valid() && View() == RoomRuns.DoDisconnect(old(View()), conn, now)
    {
      ghost var s := View();
      assert RoomRuns.Informed(s.app.rooms, s.seats[conn], s.mail[conn]);
      RoomRuns.DisconnectKeepsInv(s, conn, now);
      LeaversPeersAreConnected(s, conn, now);
      var peers := state.Unregister(handle, role, clientId, now);
      hide RoomRuns.Inv, Rooms.Unregister;
      outbound.IssueBroadcasts(conn, peers, PeerLeft(role, clientId));
      seats := seats - {conn};
    }

    /** The end of the task: its queue is gone. */
    method Close(conn: nat)
      requires Valid() && RoomRuns.Enabled(View(), RoomRuns.Close(conn))
      modifies outbound
      ensures Valid() && View() == RoomRuns.DoClose(old(View()), conn)
    {
      RoomRuns.BoxStepKeepsInv(View(), conn, outbound.mail[conn].(open := false));
      outbound.Close(conn);
    }

    /** A signal message read from the connection, as far as the lock is needed. */
    method HandleSignal(conn: nat, handle: string, clientId: string, peer: string, payload: nat, now: nat)
      requires Valid() && conn in seats && seats[conn].handle == handle && seats[conn].id == clientId
      modifies this, state
      ensures Valid() && View() == RoomRuns.DoSignal(old(View()), conn, peer, payload, now)
    {
      ghost var s := View();
      hide RoomRuns.Inv, Rooms.ForwardSignal;
      RoomRuns.SignalKeepsInv(s, conn, peer, payload, now);
      var outcome := state.ForwardSignal(handle, clientId, peer, payload, now);
      match outcome {
        case Ok((to, message)) => notes := notes[conn := RoomRuns.Note(to, message, false)];
        case Err(_) => notes := notes[conn := RoomRuns.Note(conn, ErrorNote, true)];
      }
    }

    /** The signal enqueued for its addressee, who may be the sender itself, or the error
        for the sender, who goes on only if there is room for it. */
    method DeliverNote(conn: nat) returns (goOn: bool)
      requires Valid() && conn in notes
      modifies this, outbound
      ensures Valid() && View() == RoomRuns.DoDeliverNote(old(View()), conn)
      ensures old(notes)[conn].to in old(outbound.mail)
      ensures
        var box := old(outbound.mail)[old(notes)[conn].to];
        goOn <==> !old(notes)[conn].isAnswer || (box.open && box.waiting < outbound.capacity)
    {
      ghost var s := View();
      RoomRuns.NoteStepKeepsInv(s, conn);
      var note := notes[conn];
      assert note.to in outbound.mail;
      hide RoomRuns.Inv;
      if note.isAnswer {
        goOn := outbound.EnqueueLocalMessage(conn, note.message);
      } else {
        outbound.EnqueueRemoteMessage(note.to, note.message);
        goOn := true;
      }
      notes := notes - {conn};
    }
  }

  lemma PeersAreConnected(s: RoomRuns.Server, handle: string, role: Role, alias: Option<string>, conn: nat, now: nat)
    requires RoomRuns.Inv(s)
    ensures
      var outcome := Rooms.Register(s.app, handle, role, alias, conn, now).1;
      outcome.Ok? ==> RoomRuns.Reachable(s.mail, outcome.value.peers)
  {
    if handle in Pruned(s.app, now).rooms { RoomRuns.PrunedMembersReachable(s, handle, Opposite(role), now); }
  }

  lemma LeaversPeersAreConnected(s: RoomRuns.Server, conn: nat, now: nat)
    requires RoomRuns.Inv(s) && conn in s.seats
    ensures
      var seat := s.seats[conn];
      var told := Rooms.Unregister(s.app, seat.handle, seat.role, seat.id, now).1;
      RoomRuns.Reachable(s.mail, told) && conn !in told.Values
  {
    var seat := s.seats[conn];
    if seat.handle in Pruned(s.app, now).rooms {
      RoomRuns.PrunedMembersReachable(s, seat.handle, Opposite(seat.role), now);
      RoomRuns.PeersAreOthers(s, seat.handle, Opposite(seat.role), conn);
    }
  }
}
