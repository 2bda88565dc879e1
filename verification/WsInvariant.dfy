/** What every step of the WebSocket client keeps. */
module WsInvariant {
  import opened Options
  import opened WsProtocol

  predicate Gone(closeRequested: set<Socket>, leaked: set<Socket>, k: Socket) {
    k in closeRequested || k in leaked
  }

  /** The socket a reconnect task has opened and not yet installed. */
  function InFlight(reconnectTask: Option<Pid>, tasks: map<Pid, Task>): Option<Socket> {
    if reconnectTask.Some? && reconnectTask.value in tasks && tasks[reconnectTask.value].RWantInstall?
    then Some(tasks[reconnectTask.value].socket) else None
  }

  /** A task of each kind is the one its field names, so there is at most one. */
  ghost predicate TasksOk(tasks: map<Pid, Task>, nextPid: Pid, reconnectTask: Option<Pid>, heartbeatTask: Option<Pid>) {
    && (forall p | p in tasks ::
          p < nextPid && (if IsReconnect(tasks[p]) then reconnectTask == Some(p) else heartbeatTask == Some(p)))
    && (reconnectTask.Some? ==> reconnectTask.value < nextPid)
    && (heartbeatTask.Some? ==> heartbeatTask.value < nextPid)
  }

  predicate HoldsLock(t: Task) {
    t.RClosingOld? || t.RClosingStale?
  }

  ghost predicate TaskLock(lock: Owner, tasks: map<Pid, Task>) {
    && (forall p | p in tasks :: HoldsLock(tasks[p]) <==> lock == ByTask(p))
    && (lock.ByTask? ==> lock.task in tasks)
  }

  ghost predicate CloserLock(lock: Owner, closers: map<Pid, Closer>) {
    && (forall c | c in closers :: closers[c].ClosingSocket? <==> lock == ByCloser(c))
    && (lock.ByCloser? ==> lock.closer in closers)
  }

  predicate ListenerLock(lock: Owner, listener: Listener) {
    lock.ByListener? <==> listener.Opening? || listener.ClosingStale?
  }

  ghost predicate Increasing(sockets: seq<nat>) {
    forall i, j | 0 <= i < j < |sockets| :: sockets[i] < sockets[j]
  }

  /** Each attempt opens at most one socket, and the socket of a past attempt is gone. */
  ghost predicate HistoryOk(sockets: seq<nat>, wsId: nat, closeRequested: set<Socket>, leaked: set<Socket>) {
    && (forall k | k in closeRequested :: k < |sockets|)
    && (forall k | k in leaked :: k < |sockets| && k !in closeRequested)
    && (forall k | 0 <= k < |sockets| :: sockets[k] <= wsId)
    && (forall k | 0 <= k < |sockets| && sockets[k] < wsId :: Gone(closeRequested, leaked, k))
  }

  /** Conservation: every opened socket is gone, installed or in flight. */
  ghost predicate Conserved(count: nat, closeRequested: set<Socket>, leaked: set<Socket>, ws: Option<Socket>, flying: Option<Socket>) {
    forall k: Socket | k < count :: Gone(closeRequested, leaked, k) || ws == Some(k) || flying == Some(k)
  }

  predicate InstalledOk(conn: Connection, ws: Option<Socket>, wsId: nat, sockets: seq<nat>, closeRequested: set<Socket>, leaked: set<Socket>) {
    && (ws.Some? ==> ws.value < |sockets| && ws.value !in leaked)
    && (conn.Connected? ==> ws.Some? && sockets[ws.value] == wsId && ws.value !in closeRequested)
  }

  /** What the reconnect task knows at each of its suspension points. */
  predicate AttemptOk(t: Task, conn: Connection, ws: Option<Socket>, wsId: nat, sockets: seq<nat>,
                      closeRequested: set<Socket>, leaked: set<Socket>, heartbeatTask: Option<Pid>) {
    && (IsReconnect(t) && !t.RNew? && !t.RWantEnter? && !t.RReplacing? ==> !conn.Connected?)
    && (t.RReplacing? ==> heartbeatTask == Some(t.previous))
    && (t.RClosingOld? ==> ws.None?)
    && (t.RClosingStale? ==> t.stale in closeRequested)
    && (t.ROpening? ==> t.id == wsId && ws.None? && (|sockets| > 0 ==> sockets[|sockets| - 1] < t.id))
    && (t.RWantInstall? ==>
          && t.socket + 1 == |sockets| && t.id == wsId && sockets[t.socket] == t.id
          && ws.None? && !Gone(closeRequested, leaked, t.socket))
  }

  ghost predicate AttemptsOk(tasks: map<Pid, Task>, conn: Connection, ws: Option<Socket>, wsId: nat, sockets: seq<nat>,
                             closeRequested: set<Socket>, leaked: set<Socket>, heartbeatTask: Option<Pid>) {
    forall p | p in tasks :: AttemptOk(tasks[p], conn, ws, wsId, sockets, closeRequested, leaked, heartbeatTask)
  }

  /** Nothing else of the client has run before connect() is over. */
  predicate ConnectPending(listener: Listener) {
    listener.NotStarted? || listener.Opening? || listener.ClosingStale?
  }

  ghost predicate ListenerOk(listener: Listener, conn: Connection, ws: Option<Socket>, wsId: nat, sockets: seq<nat>,
                       closeRequested: set<Socket>) {
    && !listener.WantConnect? && !listener.Napping? && !listener.ReplacingHeartbeat?
    && (listener.NotStarted? ==> conn.Disconnected? && ws.None? && sockets == [] && wsId == 0)
    && (listener.Opening? ==> listener.id == wsId && ws.None? && sockets == [] && !conn.Connected?)
    && (listener.ClosingStale? ==> !conn.Connected? && ws.Some? && ws.value in closeRequested)
  }

  ghost predicate Quiet(tasks: map<Pid, Task>, senders: map<Pid, Socket>, lock: Owner) {
    tasks == map[] && senders == map[] && !lock.ByCloser?
  }

  ghost predicate CloserOk(c: Closer, tasks: map<Pid, Task>, conn: Connection, ws: Option<Socket>,
                     closeRequested: set<Socket>, stopped: bool) {
    && (c.ClosingSocket? ==> conn.Closing? && ws.Some? && ws.value in closeRequested)
    && (c.late ==>
          && stopped
          && (c.StoppingReconnect? ==> forall q | q in tasks && IsReconnect(tasks[q]) :: q == c.task)
          && (c.StoppingHeartbeat? ==> forall q | q in tasks :: q == c.task && !IsReconnect(tasks[q]))
          && (c.WantClose? || c.ClosingSocket? ==> tasks == map[]))
  }

  ghost predicate ClosersOk(closers: map<Pid, Closer>, tasks: map<Pid, Task>, conn: Connection, ws: Option<Socket>,
                            closeRequested: set<Socket>, stopped: bool) {
    forall c | c in closers :: CloserOk(closers[c], tasks, conn, ws, closeRequested, stopped)
  }

  ghost predicate Inv(s: State) {
    && TasksOk(s.tasks, s.nextPid, s.reconnectTask, s.heartbeatTask)
    && TaskLock(s.lock, s.tasks)
    && CloserLock(s.lock, s.closers)
    && ListenerLock(s.lock, s.listener)
    && Increasing(s.sockets)
    && HistoryOk(s.sockets, s.wsId, s.closeRequested, s.leaked)
    && Conserved(|s.sockets|, s.closeRequested, s.leaked, s.ws, InFlight(s.reconnectTask, s.tasks))
    && InstalledOk(s.conn, s.ws, s.wsId, s.sockets, s.closeRequested, s.leaked)
    && AttemptsOk(s.tasks, s.conn, s.ws, s.wsId, s.sockets, s.closeRequested, s.leaked, s.heartbeatTask)
    && ListenerOk(s.listener, s.conn, s.ws, s.wsId, s.sockets, s.closeRequested)
    && (ConnectPending(s.listener) ==> Quiet(s.tasks, s.senders, s.lock))
    && ClosersOk(s.closers, s.tasks, s.conn, s.ws, s.closeRequested, Stopped(s))
    && (s.listener.ClosingStale? ==> !s.running)
  }

  ghost predicate TaskFits(s: State, t: Task) {
    AttemptOk(t, s.conn, s.ws, s.wsId, s.sockets, s.closeRequested, s.leaked, s.heartbeatTask)
  }

  lemma InitInv(maxAttempts: int)
    ensures Inv(Init(maxAttempts))
  {
  }

  // ---------- the shared steps ----------

  lemma AtKeepsInv(s: State, p: Pid, t: Task)
    requires Inv(s) && p in s.tasks && TaskFits(s, t)
    requires IsReconnect(t) == IsReconnect(s.tasks[p])
    requires !HoldsLock(t) && !HoldsLock(s.tasks[p]) && !t.RWantInstall? && !s.tasks[p].RWantInstall?
    ensures Inv(At(s, p, t))
  {
  }

  lemma RemoveKeepsInv(s: State, p: Pid)
    requires Inv(s) && p in s.tasks && !HoldsLock(s.tasks[p]) && !s.tasks[p].RWantInstall?
    ensures Inv(Remove(s, p))
  {
  }

  lemma FinishKeepsInv(s: State, p: Pid)
    requires Inv(s) && p in s.tasks && IsReconnect(s.tasks[p]) && !HoldsLock(s.tasks[p]) && !s.tasks[p].RWantInstall?
    ensures Inv(FinishReconnect(s, p))
  {
    RemoveKeepsInv(s, p);
  }

  lemma ScheduleKeepsInv(s: State)
    requires Inv(s) && s.running
    requires !ConnectPending(s.listener)
    ensures Inv(ScheduleReconnect(s))
  {
  }

  lemma SpawnKeepsInv(s: State)
    requires Inv(s) && !HeartbeatAlive(s)
    requires !ConnectPending(s.listener)
    requires s.running || ReconnectAlive(s)
    requires forall p | p in s.tasks :: !s.tasks[p].RReplacing?
    ensures Inv(SpawnHeartbeat(s))
  {
  }

  lemma HeartbeatLoopKeepsInv(s: State, p: Pid)
    requires Inv(s) && p in s.tasks && !IsReconnect(s.tasks[p])
    ensures Inv(HeartbeatLoop(s, p))
  {
    if s.running { AtKeepsInv(s, p, HSleeping); } else { RemoveKeepsInv(s, p); }
  }

  lemma LoopHeadKeepsInv(s: State, p: Pid, attempt: nat)
    requires Inv(s) && p in s.tasks && IsReconnect(s.tasks[p]) && !HoldsLock(s.tasks[p])
    requires !s.tasks[p].RWantInstall? && !s.conn.Connected?
    ensures Inv(LoopHead(s, p, attempt))
  {
    if s.running && attempt < s.maxAttempts {
      AtKeepsInv(s, p, RWantTurn(attempt + 1));
    } else {
      AtKeepsInv(s, p, RWantFinal);
    }
  }

  /** Neither the table of senders nor a cancellation request matters to the invariant. */
  lemma SendersAndRequestsAreFree(s: State, senders: map<Pid, Socket>, cancelled: set<Pid>)
    requires Inv(s)
    requires senders.Keys <= s.senders.Keys || (!ConnectPending(s.listener))
    ensures Inv(s.(senders := senders, cancelled := cancelled))
  {
  }

  lemma ListenerAtKeepsInv(s: State, l: Listener)
    requires Inv(s)
    requires !ConnectPending(s.listener)
    requires !ConnectPending(l)
    requires !l.WantConnect? && !l.Napping? && !l.ReplacingHeartbeat?
    ensures Inv(s.(listener := l))
  {
  }

  // ---------- the listener ----------

  lemma ListenKeepsInv(s: State)
    requires Inv(s) && s.listener.NotStarted?
    ensures Inv(ListenerNext(s, Listen))
  {
  }

  lemma ConnectOpenedKeepsInv(s: State)
    requires Inv(s) && s.listener.Opening?
    ensures Inv(ListenerNext(s, ConnectOpened))
  {
    var socket := |s.sockets|;
    var s1 := s.(ws := Some(socket), sockets := s.sockets + [s.listener.id]);
    if s.running {
      var s2 := s1.(conn := Connected, lock := Free, listener := WantCheck);
      assert Inv(s2);
      SpawnKeepsInv(s2);
    }
  }

  lemma ConnectEndsKeepsInv(s: State, e: ListenerEvent)
    requires Inv(s) && ListenerEnabled(s, e)
    requires e.ConnectFailed? || e.StaleConnectClosed? || (e.CancelListener? && s.lock.ByListener?)
    ensures Inv(ListenerNext(s, e))
  {
  }

  lemma CancelListenerKeepsInv(s: State)
    requires Inv(s) && ListenerEnabled(s, CancelListener)
    ensures Inv(ListenerNext(s, CancelListener))
  {
    if s.lock.ByListener? {
      ConnectEndsKeepsInv(s, CancelListener);
    } else if s.listener.AwaitingReconnect? && s.listener.task in s.tasks {
      SendersAndRequestsAreFree(s, s.senders, s.cancelled + {s.listener.task});
    } else {
      ListenerAtKeepsInv(s, Ended);
    }
  }

  lemma ReceiveClosedKeepsInv(s: State)
    requires Inv(s) && ListenerEnabled(s, ReceiveClosed)
    ensures Inv(ListenerNext(s, ReceiveClosed))
  {
    if s.running {
      ScheduleKeepsInv(s);
      ListenerAtKeepsInv(ScheduleReconnect(s), ListenerNext(s, ReceiveClosed).listener);
    } else {
      ListenerAtKeepsInv(s, Ended);
    }
  }

  lemma ReceiveTurnKeepsInv(s: State)
    requires Inv(s) && ListenerEnabled(s, ReceiveTurn)
    ensures Inv(ListenerNext(s, ReceiveTurn))
  {
    ListenerAtKeepsInv(s, if s.conn.Connected? then Receiving(s.ws.value) else Ended);
  }

  lemma ListenLoopKeepsInv(s: State)
    requires Inv(s) && !ConnectPending(s.listener)
    ensures Inv(ListenLoop(s))
  {
    ListenerAtKeepsInv(s, if s.running then WantCheck else Ended);
  }

  // ---------- disconnect ----------

  lemma CloserAtKeepsInv(s: State, c: Pid, closer: Closer)
    requires Inv(s) && CloserOk(closer, s.tasks, s.conn, s.ws, s.closeRequested, Stopped(s))
    requires !closer.ClosingSocket? && (c in s.closers ==> !s.closers[c].ClosingSocket?)
    ensures Inv(s.(closers := s.closers[c := closer]))
  {
  }

  lemma StopHeartbeatKeepsInv(s: State, c: Pid, late: bool)
    requires Inv(s) && (c in s.closers ==> !s.closers[c].ClosingSocket?)
    requires late ==> Stopped(s) && forall q | q in s.tasks :: !IsReconnect(s.tasks[q])
    ensures Inv(StopHeartbeat(s, c, late))
  {
    if HeartbeatAlive(s) {
      var closer := StoppingHeartbeat(late, s.heartbeatTask.value);
      CloserAtKeepsInv(s, c, closer);
      SendersAndRequestsAreFree(s.(closers := s.closers[c := closer]), s.senders, s.cancelled + {closer.task});
    } else {
      CloserAtKeepsInv(s, c, WantClose(late));
    }
  }

  lemma StopKeepsInv(s: State)
    requires Inv(s)
    ensures Inv(s.(running := false))
  {
  }

  lemma DisconnectKeepsInv(s: State, c: Pid)
    requires Inv(s) && c !in s.closers
    ensures Inv(CloserNext(s, c, Disconnect))
  {
    var late := !s.listener.NotStarted?;
    var s1 := s.(running := false);
    StopKeepsInv(s);
    if ReconnectAlive(s1) {
      var closer := StoppingReconnect(late, s1.reconnectTask.value);
      CloserAtKeepsInv(s1, c, closer);
      SendersAndRequestsAreFree(s1.(closers := s1.closers[c := closer]), s.senders, s.cancelled + {closer.task});
    } else {
      StopHeartbeatKeepsInv(s1, c, late);
    }
  }

  lemma ReturnKeepsInv(s: State, c: Pid)
    requires Inv(s) && CloserEnabled(s, c, CloseTurn) && s.ws.None?
    ensures Inv(Return(s, c))
  {
  }

  lemma StartClosingKeepsInv(s: State, c: Pid)
    requires Inv(s) && CloserEnabled(s, c, CloseTurn) && s.ws.Some?
    ensures Inv(CloserNext(s, c, CloseTurn))
  {
  }

  lemma CloseTurnKeepsInv(s: State, c: Pid)
    requires Inv(s) && CloserEnabled(s, c, CloseTurn)
    ensures Inv(CloserNext(s, c, CloseTurn))
  {
    if s.ws.None? { ReturnKeepsInv(s, c); } else { StartClosingKeepsInv(s, c); }
  }

  lemma SocketClosedKeepsInv(s: State, c: Pid)
    requires Inv(s) && CloserEnabled(s, c, SocketClosed)
    ensures Inv(CloserNext(s, c, SocketClosed))
  {
  }

  lemma HeartbeatStoppedKeepsInv(s: State, c: Pid)
    requires Inv(s) && CloserEnabled(s, c, HeartbeatStopped)
    ensures Inv(CloserNext(s, c, HeartbeatStopped))
  {
    if s.closers[c].late { assert s.tasks.Keys == {}; }
    CloserAtKeepsInv(s, c, WantClose(s.closers[c].late));
  }

  // ---------- the reconnect task ----------

  lemma ReleaseKeepsInv(s: State, p: Pid, t: Task)
    requires Inv(s) && p in s.tasks && HoldsLock(s.tasks[p])
    requires IsReconnect(t) && !HoldsLock(t) && !t.RWantInstall? && TaskFits(s, t)
    ensures Inv(At(s.(lock := Free), p, t))
  {
  }

  /** Taking the previous socket out of the client and asking it to close. */
  lemma TurnWithOldKeepsInv(s: State, p: Pid)
    requires Inv(s) && ReconnectEnabled(s, p, ReconnectTurn) && s.ws.Some?
    ensures Inv(ReconnectNext(s, p, ReconnectTurn))
  {
  }

  /** Every earlier socket is gone by the time a new attempt number is drawn. */
  lemma NewAttemptOk(s: State, p: Pid, attempt: nat)
    requires Inv(s) && p in s.tasks && s.ws.None?
    requires (s.tasks[p].RWantTurn? && s.lock.Free?) || s.tasks[p].RClosingOld?
    ensures HistoryOk(s.sockets, s.wsId + 1, s.closeRequested, s.leaked)
    ensures AttemptsOk(s.tasks[p := ROpening(attempt, s.wsId + 1)], Connecting, s.ws, s.wsId + 1, s.sockets,
                       s.closeRequested, s.leaked, s.heartbeatTask)
  {
    assert s.reconnectTask == Some(p) && InFlight(s.reconnectTask, s.tasks).None?;
  }

  lemma AttemptBegunKeepsInv(s: State, p: Pid, attempt: nat)
    requires Inv(s) && p in s.tasks && s.ws.None? && s.running
    requires (s.tasks[p].RWantTurn? && s.lock.Free?) || s.tasks[p].RClosingOld?
    ensures Inv(BeginAttempt(s, p, attempt))
  {
    NewAttemptOk(s, p, attempt);
  }

  lemma BeginAttemptKeepsInv(s: State, p: Pid, attempt: nat)
    requires Inv(s) && p in s.tasks && s.ws.None?
    requires (s.tasks[p].RWantTurn? && s.lock.Free?) || s.tasks[p].RClosingOld?
    ensures Inv(BeginAttempt(s, p, attempt))
  {
    if s.running {
      AttemptBegunKeepsInv(s, p, attempt);
    } else if s.lock.Free? {
      AtKeepsInv(s, p, RWantFinal);
      assert s.(lock := Free) == s;
    } else {
      ReleaseKeepsInv(s, p, RWantFinal);
    }
  }

  lemma TurnKeepsInv(s: State, p: Pid)
    requires Inv(s) && ReconnectEnabled(s, p, ReconnectTurn)
    ensures Inv(ReconnectNext(s, p, ReconnectTurn))
  {
    if s.ws.Some? { TurnWithOldKeepsInv(s, p); } else { BeginAttemptKeepsInv(s, p, s.tasks[p].attempt); }
  }

  lemma OldClosedKeepsInv(s: State, p: Pid)
    requires Inv(s) && ReconnectEnabled(s, p, OldClosed)
    ensures Inv(ReconnectNext(s, p, OldClosed))
  {
    assert TaskFits(s, s.tasks[p]);
    BeginAttemptKeepsInv(s, p, s.tasks[p].attempt);
  }

  lemma HistoryGrows(sockets: seq<nat>, wsId: nat, closeRequested: set<Socket>, leaked: set<Socket>)
    requires Increasing(sockets) && HistoryOk(sockets, wsId, closeRequested, leaked)
    requires |sockets| > 0 ==> sockets[|sockets| - 1] < wsId
    ensures Increasing(sockets + [wsId]) && HistoryOk(sockets + [wsId], wsId, closeRequested, leaked)
  {
  }

  lemma OpenedAttemptsOk(s: State, p: Pid)
    requires TasksOk(s.tasks, s.nextPid, s.reconnectTask, s.heartbeatTask)
    requires HistoryOk(s.sockets, s.wsId, s.closeRequested, s.leaked)
    requires AttemptsOk(s.tasks, s.conn, s.ws, s.wsId, s.sockets, s.closeRequested, s.leaked, s.heartbeatTask)
    requires p in s.tasks && s.tasks[p].ROpening?
    ensures AttemptsOk(s.tasks[p := RWantInstall(s.tasks[p].attempt, s.tasks[p].id, |s.sockets|)], s.conn, s.ws, s.wsId,
                       s.sockets + [s.tasks[p].id], s.closeRequested, s.leaked, s.heartbeatTask)
  {
  }

  /** A reconnect task that holds no lock and changes its suspension point disturbs no other task. */
  lemma ChangeTaskOk(s: State, p: Pid, t: Task)
    requires TasksOk(s.tasks, s.nextPid, s.reconnectTask, s.heartbeatTask) && TaskLock(s.lock, s.tasks)
    requires ClosersOk(s.closers, s.tasks, s.conn, s.ws, s.closeRequested, Stopped(s))
    requires p in s.tasks && IsReconnect(s.tasks[p]) && IsReconnect(t) && !HoldsLock(s.tasks[p]) && !HoldsLock(t)
    ensures var tasks := s.tasks[p := t];
      && TasksOk(tasks, s.nextPid, s.reconnectTask, s.heartbeatTask) && TaskLock(s.lock, tasks)
      && ClosersOk(s.closers, tasks, s.conn, s.ws, s.closeRequested, Stopped(s))
      && InFlight(s.reconnectTask, tasks) == (if t.RWantInstall? then Some(t.socket) else None)
  {
  }

  lemma OpenedKeepsInv(s: State, p: Pid)
    requires Inv(s) && ReconnectEnabled(s, p, AttemptOpened)
    ensures Inv(ReconnectNext(s, p, AttemptOpened))
  {
    var t := s.tasks[p];
    assert TaskFits(s, t);
    HistoryGrows(s.sockets, s.wsId, s.closeRequested, s.leaked);
    OpenedAttemptsOk(s, p);
    ChangeTaskOk(s, p, RWantInstall(t.attempt, t.id, |s.sockets|));
    ChangeTaskOk(s, p, t);
  }

  lemma InstallStaleKeepsInv(s: State, p: Pid)
    requires Inv(s) && ReconnectEnabled(s, p, InstallTurn) && (s.tasks[p].id != s.wsId || !s.running)
    ensures Inv(ReconnectNext(s, p, InstallTurn))
  {
  }

  lemma InstallReplacingKeepsInv(s: State, p: Pid)
    requires Inv(s) && ReconnectEnabled(s, p, InstallTurn) && s.tasks[p].id == s.wsId && s.running && HeartbeatAlive(s)
    ensures Inv(ReconnectNext(s, p, InstallTurn))
  {
  }

  lemma InstallSpawningKeepsInv(s: State, p: Pid)
    requires Inv(s) && ReconnectEnabled(s, p, InstallTurn) && s.tasks[p].id == s.wsId && s.running && !HeartbeatAlive(s)
    ensures Inv(ReconnectNext(s, p, InstallTurn))
  {
  }

  lemma StaleKeepsInv(s: State, p: Pid, raised: bool)
    requires Inv(s) && ReconnectEnabled(s, p, StaleClosed(raised))
    ensures Inv(ReconnectNext(s, p, StaleClosed(raised)))
  {
    var attempt := s.tasks[p].attempt;
    var t := if raised then RWantFailure(attempt)
             else if s.running && attempt < s.maxAttempts then RWantTurn(attempt + 1) else RWantFinal;
    ReleaseKeepsInv(s, p, t);
    assert ReconnectNext(s, p, StaleClosed(raised)) == At(s.(lock := Free), p, t);
  }

  lemma CancelInFlightKeepsInv(s: State, p: Pid)
    requires Inv(s) && ReconnectEnabled(s, p, CancelReconnect) && s.tasks[p].RWantInstall?
    ensures Inv(ReconnectNext(s, p, CancelReconnect))
  {
  }

  lemma CancelHoldingLockKeepsInv(s: State, p: Pid)
    requires Inv(s) && ReconnectEnabled(s, p, CancelReconnect) && HoldsLock(s.tasks[p])
    ensures Inv(ReconnectNext(s, p, CancelReconnect))
  {
  }

  lemma SleepOverKeepsInv(s: State, p: Pid)
    requires Inv(s) && ReconnectEnabled(s, p, SleepOver)
    ensures Inv(ReconnectNext(s, p, SleepOver))
  {
    LoopHeadKeepsInv(s, p, s.tasks[p].attempt);
  }

  lemma InstallKeepsInv(s: State, p: Pid)
    requires Inv(s) && ReconnectEnabled(s, p, InstallTurn)
    ensures Inv(ReconnectNext(s, p, InstallTurn))
  {
    if s.tasks[p].id != s.wsId || !s.running {
      InstallStaleKeepsInv(s, p);
    } else if HeartbeatAlive(s) {
      InstallReplacingKeepsInv(s, p);
    } else {
      InstallSpawningKeepsInv(s, p);
    }
  }

  lemma CancelKeepsInv(s: State, p: Pid)
    requires Inv(s) && ReconnectEnabled(s, p, CancelReconnect)
    ensures Inv(ReconnectNext(s, p, CancelReconnect))
  {
    if s.tasks[p].RNew? {
      RemoveKeepsInv(s, p);
    } else if s.tasks[p].RWantInstall? {
      CancelInFlightKeepsInv(s, p);
    } else if HoldsLock(s.tasks[p]) {
      CancelHoldingLockKeepsInv(s, p);
    } else {
      FinishKeepsInv(s, p);
    }
  }

  /** Leaving the connected state cannot hurt while no socket is being installed or closed. */
  lemma ConnKeepsInv(s: State, conn: Connection)
    requires Inv(s) && !conn.Connected? && s.lock.Free? && !s.listener.NotStarted?
    ensures Inv(s.(conn := conn))
  {
  }

  lemma EnterKeepsInv(s: State, p: Pid)
    requires Inv(s) && ReconnectEnabled(s, p, ReconnectEnter)
    ensures Inv(ReconnectNext(s, p, ReconnectEnter))
  {
    if s.conn.Reconnecting? || !s.running {
      FinishKeepsInv(s, p);
    } else {
      ConnKeepsInv(s, Reconnecting);
      LoopHeadKeepsInv(s.(conn := Reconnecting), p, 0);
    }
  }

  lemma FailureKeepsInv(s: State, p: Pid)
    requires Inv(s) && ReconnectEnabled(s, p, FailureTurn)
    ensures Inv(ReconnectNext(s, p, FailureTurn))
  {
    ConnKeepsInv(s, Reconnecting);
    AtKeepsInv(s.(conn := Reconnecting), p, RSleeping(s.tasks[p].attempt));
  }

  lemma FinalKeepsInv(s: State, p: Pid)
    requires Inv(s) && ReconnectEnabled(s, p, FinalTurn)
    ensures Inv(ReconnectNext(s, p, FinalTurn))
  {
    ConnKeepsInv(s, Disconnected);
    FinishKeepsInv(s.(conn := Disconnected), p);
  }

  lemma ReplacedKeepsInv(s: State, p: Pid)
    requires Inv(s) && ReconnectEnabled(s, p, OldHeartbeatGone)
    ensures Inv(ReconnectNext(s, p, OldHeartbeatGone))
  {
  }

  // ---------- every step ----------

  lemma ListenerKeepsInv(s: State, e: ListenerEvent)
    requires Inv(s) && ListenerEnabled(s, e)
    ensures Inv(ListenerNext(s, e))
  {
    match e
    case Listen => ListenKeepsInv(s);
    // Three waits of connect() that no run of one listen() enters.
    case ConnectGranted | NapOver | ListenerHeartbeatGone =>
    case ConnectFailed | StaleConnectClosed(_) => ConnectEndsKeepsInv(s, e);
    case ConnectOpened => ConnectOpenedKeepsInv(s);
    case ReceiveClosed => ReceiveClosedKeepsInv(s);
    case CancelListener => CancelListenerKeepsInv(s);
    case ReceiveTurn => ReceiveTurnKeepsInv(s);
    case MessageArrived => ListenerAtKeepsInv(s, Handling);
    case MessageHandled | PauseOver => ListenLoopKeepsInv(s);
    case ReceiveError => if s.running { ListenerAtKeepsInv(s, Pausing); } else { ListenLoopKeepsInv(s); }
    case ReconnectAwaited(raised) => if raised { ListenerAtKeepsInv(s, Ended); } else { ListenLoopKeepsInv(s); }
  }

  lemma SendKeepsInv(s: State, p: Pid)
    requires Inv(s)
    ensures Inv(SendNext(s, p))
  {
    SendersAndRequestsAreFree(s, SendNext(s, p).senders, s.cancelled);
  }

  lemma SendDoneKeepsInv(s: State, p: Pid, ok: bool)
    requires Inv(s) && p in s.senders
    ensures Inv(SendDoneNext(s, p, ok))
  {
    SendersAndRequestsAreFree(s, s.senders - {p}, s.cancelled);
    if !ok && s.running { ScheduleKeepsInv(s.(senders := s.senders - {p})); }
  }

  lemma HeartbeatKeepsInv(s: State, p: Pid, e: HeartbeatEvent)
    requires Inv(s) && HeartbeatEnabled(s, p, e)
    ensures Inv(HeartbeatNext(s, p, e))
  {
    match e
    case HeartbeatBegin => HeartbeatLoopKeepsInv(s, p);
    case HeartbeatWake => AtKeepsInv(s, p, HWantCheck);
    case HeartbeatCheck =>
      if s.conn.Connected? { AtKeepsInv(s, p, HWantSend); } else { RemoveKeepsInv(s, p); }
    case HeartbeatSend =>
      if s.conn.Connected? { AtKeepsInv(s, p, HSending(s.ws.value)); } else { HeartbeatLoopKeepsInv(s, p); }
    case HeartbeatSent(ok) => HeartbeatSentKeepsInv(s, p, ok);
    case CancelHeartbeat => RemoveKeepsInv(s, p);
  }

  lemma HeartbeatSentKeepsInv(s: State, p: Pid, ok: bool)
    requires Inv(s) && HeartbeatEnabled(s, p, HeartbeatSent(ok))
    ensures Inv(HeartbeatNext(s, p, HeartbeatSent(ok)))
  {
    if !ok && s.running {
      ScheduleKeepsInv(s);
      HeartbeatLoopKeepsInv(ScheduleReconnect(s), p);
    } else {
      HeartbeatLoopKeepsInv(s, p);
    }
  }

  lemma ReconnectKeepsInv(s: State, p: Pid, e: ReconnectEvent)
    requires Inv(s) && ReconnectEnabled(s, p, e)
    ensures Inv(ReconnectNext(s, p, e))
  {
    match e
    case ReconnectBegin => AtKeepsInv(s, p, RWantEnter);
    case ReconnectEnter => EnterKeepsInv(s, p);
    case ReconnectTurn => TurnKeepsInv(s, p);
    case OldClosed => OldClosedKeepsInv(s, p);
    case AttemptFailed => AtKeepsInv(s, p, RWantFailure(s.tasks[p].attempt));
    case AttemptOpened => OpenedKeepsInv(s, p);
    case InstallTurn => InstallKeepsInv(s, p);
    case StaleClosed(raised) => StaleKeepsInv(s, p, raised);
    case FailureTurn => FailureKeepsInv(s, p);
    case SleepOver => SleepOverKeepsInv(s, p);
    case OldHeartbeatGone => ReplacedKeepsInv(s, p);
    case FinalTurn => FinalKeepsInv(s, p);
    case CancelReconnect => CancelKeepsInv(s, p);
  }

  lemma CloserKeepsInv(s: State, c: Pid, e: CloserEvent)
    requires Inv(s) && CloserEnabled(s, c, e)
    ensures Inv(CloserNext(s, c, e))
  {
    match e
    case Disconnect => DisconnectKeepsInv(s, c);
    case ReconnectStopped => StopHeartbeatKeepsInv(s, c, s.closers[c].late);
    case HeartbeatStopped => HeartbeatStoppedKeepsInv(s, c);
    case CloseTurn => CloseTurnKeepsInv(s, c);
    case SocketClosed => SocketClosedKeepsInv(s, c);
  }

  /** Whatever coroutine moves next, the invariant survives. */
  lemma StepKeepsInv(s: State, e: Event)
    requires Inv(s) && Enabled(s, e)
    ensures Inv(Next(s, e))
  {
    match e
    case OfListener(l) => ListenerKeepsInv(s, l);
    case Send(p) => SendKeepsInv(s, p);
    case SendDone(p, ok) => SendDoneKeepsInv(s, p, ok);
    case OfHeartbeat(p, h) => HeartbeatKeepsInv(s, p, h);
    case OfReconnect(p, r) => ReconnectKeepsInv(s, p, r);
    case OfCloser(c, d) => CloserKeepsInv(s, c, d);
  }

  lemma {:induction false} RunKeepsInv(s: State, es: seq<Event>)
    requires Inv(s) && Legal(s, es)
    ensures Inv(Run(s, es))
    decreases |es|
  {
    if es != [] {
      StepKeepsInv(s, es[0]);
      RunKeepsInv(Next(s, es[0]), es[1..]);
    }
  }
}
