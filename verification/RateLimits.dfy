/** The sliding windows against the full history: with a clock that does not go back,
    a pruned log decides as the whole history would. */
module RateLimits {
  import opened Wrappers
  import opened Rooms
  import opened Mailboxes
  import opened RoomRuns

  /* ---------- one log ---------- */

  /** How many of the first `n` events are inside the window. */
  function RecentCount(history: seq<nat>, window: nat, now: nat, n: nat): nat
    requires n <= |history|
  {
    if n == 0 then 0
    else RecentCount(history, window, now, n - 1) + (if Expired(history[n - 1], window, now) then 0 else 1)
  }

  ghost predicate Sorted(history: seq<nat>) {
    forall i, j | 0 <= i < j < |history| :: history[i] <= history[j]
  }

  lemma {:induction false} RecentAreTheLast(history: seq<nat>, window: nat, now: nat, n: nat)
    requires Sorted(history) && n <= |history|
    ensures
      var k := FirstFresh(history, window, now, 0);
      RecentCount(history, window, now, n) == SatSub(n, k)
  {
    if n > 0 { RecentAreTheLast(history, window, now, n - 1); }
  }

  /** The log is the end of the history; what it has lost had expired by `last`. */
  ghost predicate LogAgrees(log: seq<nat>, history: seq<nat>, window: nat, last: nat) {
    && |log| <= |history| && log == history[|history| - |log|..]
    && forall i | 0 <= i < |history| - |log| :: Expired(history[i], window, last)
  }

  /** No `limit + 1` events of a history fit into one window. */
  ghost predicate Spaced(history: seq<nat>, limit: nat, window: nat) {
    forall i, j | 0 <= i && i + limit <= j < |history| :: history[i] + window <= history[j]
  }

  ghost predicate HistoryOk(history: seq<nat>, limit: nat, window: nat, last: nat) {
    && Sorted(history) && Spaced(history, limit, window)
    && forall i | 0 <= i < |history| :: history[i] <= last
  }

  lemma {:induction false} FirstFreshShifts(history: seq<nat>, d: nat, window: nat, now: nat, i: nat)
    requires d + i <= |history|
    ensures FirstFresh(history[d..], window, now, i) + d == FirstFresh(history, window, now, d + i)
    decreases |history| - d - i
  {
    if d + i < |history| && Expired(history[d + i], window, now) {
      FirstFreshShifts(history, d, window, now, i + 1);
    }
  }

  lemma {:induction false} FirstFreshSkips(history: seq<nat>, d: nat, window: nat, now: nat, i: nat)
    requires i <= d <= |history| && forall j | i <= j < d :: Expired(history[j], window, now)
    ensures FirstFresh(history, window, now, i) == FirstFresh(history, window, now, d)
    decreases d - i
  {
    if i < d { FirstFreshSkips(history, d, window, now, i + 1); }
  }

  /** Pruning the log at a later time gives what pruning the history would. */
  lemma PrunedLogAgrees(log: seq<nat>, history: seq<nat>, window: nat, last: nat, now: nat)
    requires LogAgrees(log, history, window, last) && last <= now
    ensures PruneWindow(log, window, now) == PruneWindow(history, window, now)
    ensures LogAgrees(PruneWindow(log, window, now), history, window, now)
  {
    var d := |history| - |log|;
    FirstFreshShifts(history, d, window, now, 0);
    FirstFreshSkips(history, d, window, now, 0);
    var k := FirstFresh(history, window, now, 0);
    assert history[d..][k - d..] == history[k..];
  }

  /** The log passes an event exactly if fewer than the limit of the whole history
      are inside the window. */
  lemma LogDecides(log: seq<nat>, history: seq<nat>, limit: nat, window: nat, last: nat, now: nat)
    requires LogAgrees(log, history, window, last) && Sorted(history) && last <= now
    ensures |PruneWindow(log, window, now)| < limit <==> RecentCount(history, window, now, |history|) < limit
  {
    PrunedLogAgrees(log, history, window, last, now);
    RecentAreTheLast(history, window, now, |history|);
  }

  lemma AcceptedEventAgrees(log: seq<nat>, history: seq<nat>, window: nat, last: nat, now: nat)
    requires LogAgrees(log, history, window, last) && last <= now
    ensures LogAgrees(PruneWindow(log, window, now) + [now], history + [now], window, now)
  {
    PrunedLogAgrees(log, history, window, last, now);
    var k := FirstFresh(history, window, now, 0);
    assert (history + [now])[k..] == history[k..] + [now];
  }

  lemma AcceptedEventSpaced(log: seq<nat>, history: seq<nat>, limit: nat, window: nat, last: nat, now: nat)
    requires LogAgrees(log, history, window, last) && HistoryOk(history, limit, window, last) && last <= now
    requires |PruneWindow(log, window, now)| < limit
    ensures HistoryOk(history + [now], limit, window, now)
  {
    PrunedLogAgrees(log, history, window, last, now);
    var k, more := FirstFresh(history, window, now, 0), history + [now];
    hide FirstFresh, LogAgrees;
    assert |history| < k + limit;
    forall i, j | 0 <= i && i + limit <= j < |more| ensures more[i] + window <= more[j] {
      if j == |history| {
        assert i < k && Expired(history[i], window, now);
        assert history[i] <= now;
      } else {
        assert history[i] + window <= history[j];
      }
    }
  }

  /* ---------- the server's logs over whole runs ---------- */

  function TimeOf(a: Action): Option<nat> {
    match a
    case Connect(_, _, _, _, now) => Some(now)
    case Disconnect(_, now) => Some(now)
    case SendSignal(_, _, _, now) => Some(now)
    case CreateRoom(_, _, now) => Some(now)
    case Authenticate(_, now) => Some(now)
    case Touch(now) => Some(now)
    case _ => None
  }

  function LastTime(t: Trace): nat {
    match t
    case Start(_, _) => 0
    case Then(before, a) => if TimeOf(a).Some? then TimeOf(a).value else LastTime(before)
  }

  /** A possible run whose clock does not go back. */
  ghost predicate Clocked(t: Trace) {
    match t
    case Start(_, capacity) => capacity >= 1
    case Then(before, a) =>
      && Clocked(before) && Enabled(After(before), a)
      && (TimeOf(a).Some? ==> LastTime(before) <= TimeOf(a).value)
  }

  /** The authentication attempts accepted from an address. */
  function AuthHistory(t: Trace, ip: nat): seq<nat> {
    match t
    case Start(_, _) => []
    case Then(before, a) =>
      if a.Authenticate? && a.ip == ip && CheckAuthRateLimit(After(before).app, ip, a.now).1.None?
      then AuthHistory(before, ip) + [a.now] else AuthHistory(before, ip)
  }

  /** Does the room's limiter let the signal pass, whatever becomes of it then? */
  predicate PassesLimiter(app: App, handle: string, sender: string, peer: string, payload: nat, now: nat) {
    var outcome := ForwardSignal(app, handle, sender, peer, payload, now).1;
    outcome.Ok? || (outcome.error != ChannelNotFound && outcome.error != SignalRateExceeded)
  }

  /** Signals counted in the room since it was created. */
  function SignalHistory(t: Trace, handle: string): seq<nat> {
    match t
    case Start(_, _) => []
    case Then(before, a) =>
      var s := After(before);
      if handle !in After(t).app.rooms then []
      else if a.CreateRoom? && a.handle == handle && StoreRoom(s.app, handle, a.passwordFile, a.now).1.None? then []
      else if a.SendSignal? && a.conn in s.seats && s.seats[a.conn].handle == handle
              && PassesLimiter(s.app, handle, s.seats[a.conn].id, a.peer, a.payload, a.now)
      then SignalHistory(before, handle) + [a.now]
      else SignalHistory(before, handle)
  }

  ghost predicate AuthOk(t: Trace, ip: nat) {
    var c := After(t).app.config;
    && LogAgrees(LogOf(After(t).app.authEventsByIp, ip), AuthHistory(t, ip), c.authRateWindow, LastTime(t))
    && HistoryOk(AuthHistory(t, ip), c.authRateLimit, c.authRateWindow, LastTime(t))
  }

  lemma PrunedLogOf(logs: map<nat, seq<nat>>, window: nat, now: nat, ip: nat)
    ensures LogOf(PrunedLogs(logs, window, now), ip) == PruneWindow(LogOf(logs, ip), window, now)
  {
  }

  lemma ConfigFixed(s: Server, a: Action)
    requires Enabled(s, a)
    ensures Step(s, a).app.config == s.app.config
  {
    hide PruneWindow, ChosenId, Addressee, Stays;
  }

  /** What any step but an attempt from `ip` itself does to its log: pruning at most. */
  lemma OtherStepsOnlyPrune(s: Server, a: Action, ip: nat, history: seq<nat>, last: nat)
    requires Enabled(s, a) && !(a.Authenticate? && a.ip == ip)
    requires TimeOf(a).Some? ==> last <= TimeOf(a).value
    requires LogAgrees(LogOf(s.app.authEventsByIp, ip), history, s.app.config.authRateWindow, last)
    ensures LogAgrees(LogOf(Step(s, a).app.authEventsByIp, ip), history, s.app.config.authRateWindow,
                      if TimeOf(a).Some? then TimeOf(a).value else last)
  {
    var logs, window := s.app.authEventsByIp, s.app.config.authRateWindow;
    if TimeOf(a).Some? {
      var now := TimeOf(a).value;
      PrunedLogOf(logs, window, now, ip);
      PrunedLogAgrees(LogOf(logs, ip), history, window, last, now);
      var once := PrunedLogs(logs, window, now);
      PrunedLogOf(once, window, now, ip);
      PrunedLogAgrees(LogOf(once, ip), history, window, now, now);
      StepLogs(s, a, ip);
    }
  }

  lemma StepLogs(s: Server, a: Action, ip: nat)
    requires Enabled(s, a) && !(a.Authenticate? && a.ip == ip) && TimeOf(a).Some?
    ensures
      var once := PrunedLogs(s.app.authEventsByIp, s.app.config.authRateWindow, TimeOf(a).value);
      var log := LogOf(Step(s, a).app.authEventsByIp, ip);
      log == LogOf(once, ip) || log == LogOf(PrunedLogs(once, s.app.config.authRateWindow, TimeOf(a).value), ip)
  {
    hide PruneWindow, PrunedLogs, PrunedRooms, ChosenId, Addressee;
  }

  lemma AuthAttemptAgrees(s: Server, ip: nat, now: nat, history: seq<nat>, last: nat)
    requires last <= now
    requires LogAgrees(LogOf(s.app.authEventsByIp, ip), history, s.app.config.authRateWindow, last)
    requires HistoryOk(history, s.app.config.authRateLimit, s.app.config.authRateWindow, last)
    ensures
      var (app, failure) := CheckAuthRateLimit(s.app, ip, now);
      var more := if failure.None? then history + [now] else history;
      && (failure.None? <==>
            RecentCount(history, s.app.config.authRateWindow, now, |history|) < s.app.config.authRateLimit)
      && LogAgrees(LogOf(app.authEventsByIp, ip), more, s.app.config.authRateWindow, now)
      && HistoryOk(more, s.app.config.authRateLimit, s.app.config.authRateWindow, now)
  {
    var logs, limit, window := s.app.authEventsByIp, s.app.config.authRateLimit, s.app.config.authRateWindow;
    PrunedLogOf(logs, window, now, ip);
    PrunedLogAgrees(LogOf(logs, ip), history, window, last, now);
    LaterHistoryOk(history, limit, window, last, now);
    CheckAuthLog(s.app, ip, now);
    hide PruneWindow, LogAgrees, HistoryOk, RecentCount, CheckAuthRateLimit;
    AttemptDecided(LogOf(PrunedLogs(logs, window, now), ip), history, limit, window, now);
  }

  /** What an attempt leaves in the log of its address. */
  lemma CheckAuthLog(app: App, ip: nat, now: nat)
    ensures
      var (q, failure) := CheckAuthRateLimit(app, ip, now);
      var log := LogOf(PrunedLogs(app.authEventsByIp, app.config.authRateWindow, now), ip);
      var left := PruneWindow(log, app.config.authRateWindow, now);
      && (failure.None? <==> |left| < app.config.authRateLimit)
      && LogOf(q.authEventsByIp, ip) == if failure.None? then left + [now] else left
  {
    hide PruneWindow, PrunedLogs, PrunedRooms;
  }

  /** One attempt at a log that agrees with its history. */
  lemma AttemptDecided(log: seq<nat>, history: seq<nat>, limit: nat, window: nat, now: nat)
    requires LogAgrees(log, history, window, now) && HistoryOk(history, limit, window, now)
    ensures |PruneWindow(log, window, now)| < limit <==> RecentCount(history, window, now, |history|) < limit
    ensures |PruneWindow(log, window, now)| < limit ==>
              && LogAgrees(PruneWindow(log, window, now) + [now], history + [now], window, now)
              && HistoryOk(history + [now], limit, window, now)
  {
    LogDecides(log, history, limit, window, now, now);
    AcceptedEventAgrees(log, history, window, now, now);
    if |PruneWindow(log, window, now)| < limit { AcceptedEventSpaced(log, history, limit, window, now, now); }
  }

  lemma {:induction false} AuthLogAgrees(t: Trace, ip: nat)
    requires Clocked(t)
    ensures AuthOk(t, ip)
  {
    match t
    case Start(_, _) =>
    case Then(before, a) =>
      AuthLogAgrees(before, ip);
      var s, history, last := After(before), AuthHistory(before, ip), LastTime(before);
      ConfigFixed(s, a);
      hide Step, Enabled, LogAgrees, HistoryOk, CheckAuthRateLimit;
      if a.Authenticate? && a.ip == ip {
        AuthAttemptAgrees(s, ip, a.now, history, last);
        AuthStep(s, a);
      } else {
        OtherStepsOnlyPrune(s, a, ip, history, last);
        LaterHistoryOk(history, s.app.config.authRateLimit, s.app.config.authRateWindow, last, LastTime(t));
      }
  }

  lemma AuthStep(s: Server, a: Action)
    requires Enabled(s, a) && a.Authenticate?
    ensures Step(s, a).app == CheckAuthRateLimit(s.app, a.ip, a.now).0
  {
  }

  lemma LaterHistoryOk(history: seq<nat>, limit: nat, window: nat, last: nat, now: nat)
    requires HistoryOk(history, limit, window, last) && last <= now
    ensures HistoryOk(history, limit, window, now)
  {
  }

  /** In every run whose clock does not go back, an authentication attempt is let
      through exactly if fewer than the limit of all attempts ever accepted from that
      address are younger than the window; so no window holds more than the limit. */
  lemma AuthAttemptAcceptedIff(t: Trace, ip: nat, now: nat)
    requires Clocked(t) && LastTime(t) <= now
    ensures
      var c, history := After(t).app.config, AuthHistory(t, ip);
      && (CheckAuthRateLimit(After(t).app, ip, now).1.None? <==>
            RecentCount(history, c.authRateWindow, now, |history|) < c.authRateLimit)
      && Spaced(history, c.authRateLimit, c.authRateWindow)
  {
    AuthLogAgrees(t, ip);
    AuthAttemptAgrees(After(t), ip, now, AuthHistory(t, ip), LastTime(t));
  }

  /* ---------- signals ---------- */

  ghost predicate SignalsOk(t: Trace, handle: string) {
    var s, history := After(t), SignalHistory(t, handle);
    var limit, window := s.app.config.signalRateLimit, s.app.config.signalRateWindow;
    && (handle in s.app.rooms ==> LogAgrees(s.app.rooms[handle].signalEvents, history, window, LastTime(t)))
    && HistoryOk(history, limit, window, LastTime(t))
  }

  lemma LaterLogAgrees(log: seq<nat>, history: seq<nat>, window: nat, last: nat, now: nat)
    requires LogAgrees(log, history, window, last) && last <= now
    ensures LogAgrees(log, history, window, now)
  {
  }

  /** A room still there has the log it had. */
  ghost predicate KeepsLog(app: App, q: App, handle: string) {
    handle in q.rooms ==> handle in app.rooms && q.rooms[handle].signalEvents == app.rooms[handle].signalEvents
  }

  lemma MembershipKeepsLog(app: App, handle: string, h: string, role: Role, alias: Option<string>, id: string,
                           conn: nat, now: nat)
    ensures KeepsLog(app, Pruned(app, now), handle)
    ensures KeepsLog(app, Register(app, h, role, alias, conn, now).0, handle)
    ensures KeepsLog(app, Unregister(app, h, role, id, now).0, handle)
  {
    hide PruneWindow, PrunedLogs, Stays, ChosenId;
  }

  lemma AttemptsKeepLog(app: App, handle: string, h: string, passwordFile: seq<nat>, ip: nat, now: nat)
    ensures KeepsLog(app, CheckAuthRateLimit(app, ip, now).0, handle)
    ensures h != handle || StoreRoom(app, h, passwordFile, now).1.Some? ==>
              KeepsLog(app, StoreRoom(app, h, passwordFile, now).0, handle)
  {
    hide PruneWindow, PrunedLogs, Stays;
  }

  lemma OtherSignalsKeepLog(app: App, handle: string, h: string, sender: string, peer: string, payload: nat, now: nat)
    requires h != handle
    ensures KeepsLog(app, ForwardSignal(app, h, sender, peer, payload, now).0, handle)
  {
    hide PruneWindow, PrunedLogs, Stays, Addressee;
  }

  /** Only a signal sent in the room, and creating it anew, touch its log. */
  lemma OtherStepsKeepSignals(s: Server, a: Action, handle: string)
    requires Enabled(s, a) && handle in Step(s, a).app.rooms
    requires !(a.SendSignal? && s.seats[a.conn].handle == handle)
    requires !(a.CreateRoom? && a.handle == handle && StoreRoom(s.app, handle, a.passwordFile, a.now).1.None?)
    ensures handle in s.app.rooms && Step(s, a).app.rooms[handle].signalEvents == s.app.rooms[handle].signalEvents
  {
    hide Register, Unregister, ForwardSignal, StoreRoom, CheckAuthRateLimit, Pruned;
    hide Issue, IssueAll, SendTo, Delivered, Idle;
    match a
    case Connect(conn, h, role, alias, now) => MembershipKeepsLog(s.app, handle, h, role, alias, "", conn, now);
    case Disconnect(conn, now) =>
      var seat := s.seats[conn];
      MembershipKeepsLog(s.app, handle, seat.handle, seat.role, None, seat.id, conn, now);
    case SendSignal(conn, peer, payload, now) =>
      OtherSignalsKeepLog(s.app, handle, s.seats[conn].handle, s.seats[conn].id, peer, payload, now);
    case CreateRoom(h, passwordFile, now) => AttemptsKeepLog(s.app, handle, h, passwordFile, 0, now);
    case Authenticate(ip, now) => AttemptsKeepLog(s.app, handle, "", [], ip, now);
    case Touch(now) => MembershipKeepsLog(s.app, handle, "", Agent, None, "", 0, now);
    case _ =>
  }

  /** What a signal leaves in its room's log. */
  lemma ForwardSignalLog(app: App, handle: string, sender: string, peer: string, payload: nat, now: nat)
    requires handle in app.rooms
    ensures
      var q, there := ForwardSignal(app, handle, sender, peer, payload, now).0, handle in Pruned(app, now).rooms;
      var left := PruneWindow(app.rooms[handle].signalEvents, app.config.signalRateWindow, now);
      var passes := PassesLimiter(app, handle, sender, peer, payload, now);
      && (passes <==> (there && |left| < app.config.signalRateLimit))
      && (handle in q.rooms <==> there)
      && (there ==> q.rooms[handle].signalEvents == if passes then left + [now] else left)
  {
    hide PruneWindow, PrunedLogs, Stays;
  }

  lemma SignalAttemptAgrees(app: App, handle: string, sender: string, peer: string, payload: nat, now: nat,
                            history: seq<nat>, last: nat)
    requires handle in app.rooms && last <= now
    requires LogAgrees(app.rooms[handle].signalEvents, history, app.config.signalRateWindow, last)
    requires HistoryOk(history, app.config.signalRateLimit, app.config.signalRateWindow, last)
    ensures
      var q := ForwardSignal(app, handle, sender, peer, payload, now).0;
      var passes := PassesLimiter(app, handle, sender, peer, payload, now);
      var more := if passes then history + [now] else history;
      var few := RecentCount(history, app.config.signalRateWindow, now, |history|) < app.config.signalRateLimit;
      && (passes <==> (handle in Pruned(app, now).rooms && few))
      && (handle in q.rooms ==> LogAgrees(q.rooms[handle].signalEvents, more, app.config.signalRateWindow, now))
      && HistoryOk(more, app.config.signalRateLimit, app.config.signalRateWindow, now)
  {
    var log, limit, window := app.rooms[handle].signalEvents, app.config.signalRateLimit, app.config.signalRateWindow;
    LaterLogAgrees(log, history, window, last, now);
    LaterHistoryOk(history, limit, window, last, now);
    ForwardSignalLog(app, handle, sender, peer, payload, now);
    hide PruneWindow, Pruned, LogAgrees, HistoryOk, RecentCount, ForwardSignal, PassesLimiter;
    AttemptDecided(log, history, limit, window, now);
    PrunedLogAgrees(log, history, window, now, now);
  }

  lemma {:induction false} SignalLogAgrees(t: Trace, handle: string)
    requires Clocked(t)
    ensures SignalsOk(t, handle)
  {
    match t
    case Start(_, _) =>
    case Then(before, a) =>
      SignalLogAgrees(before, handle);
      var s, history, last := After(before), SignalHistory(before, handle), LastTime(before);
      ConfigFixed(s, a);
      if handle !in Step(s, a).app.rooms {
      } else if a.CreateRoom? && a.handle == handle && StoreRoom(s.app, handle, a.passwordFile, a.now).1.None? {
      } else if a.SendSignal? && s.seats[a.conn].handle == handle {
        SignalStep(s, a);
        hide Step, Enabled, LogAgrees, HistoryOk, ForwardSignal, PassesLimiter;
        SignalAttemptAgrees(s.app, handle, s.seats[a.conn].id, a.peer, a.payload, a.now, history, last);
      } else {
        OtherStepsKeepSignals(s, a, handle);
        hide Step, Enabled, LogAgrees, HistoryOk, ForwardSignal, PassesLimiter, StoreRoom;
        LaterLogAgrees(s.app.rooms[handle].signalEvents, history, s.app.config.signalRateWindow, last, LastTime(t));
        LaterHistoryOk(history, s.app.config.signalRateLimit, s.app.config.signalRateWindow, last, LastTime(t));
      }
  }

  /** A signal is let through only into a room that exists. */
  lemma SignalStep(s: Server, a: Action)
    requires Enabled(s, a) && a.SendSignal?
    ensures
      var seat := s.seats[a.conn];
      && Step(s, a).app == ForwardSignal(s.app, seat.handle, seat.id, a.peer, a.payload, a.now).0
      && (seat.handle in Step(s, a).app.rooms ==> seat.handle in s.app.rooms)
  {
    hide PruneWindow, PrunedLogs, Stays, Addressee;
  }

  /** In every run whose clock does not go back, a signal passes its room's limiter
      exactly if fewer than the limit of the signals counted since the room was
      created are younger than the window. */
  lemma SignalPassesIff(t: Trace, handle: string, sender: string, peer: string, payload: nat, now: nat)
    requires Clocked(t) && LastTime(t) <= now && handle in Pruned(After(t).app, now).rooms
    ensures
      var c, history := After(t).app.config, SignalHistory(t, handle);
      && (PassesLimiter(After(t).app, handle, sender, peer, payload, now) <==>
            RecentCount(history, c.signalRateWindow, now, |history|) < c.signalRateLimit)
      && Spaced(history, c.signalRateLimit, c.signalRateWindow)
  {
    SignalLogAgrees(t, handle);
    SignalAttemptAgrees(After(t).app, handle, sender, peer, payload, now, SignalHistory(t, handle), LastTime(t));
  }
}
