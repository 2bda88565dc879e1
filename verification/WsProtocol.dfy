/**
 The WebSocket client as a state machine. One event is what a coroutine does between two
 suspension points of the asyncio loop; any coroutine that is able to move may move next.

 The coroutines are the one listen() call, the reconnect and heartbeat tasks the client spawns,
 any number of send() callers and any number of disconnect() callers. What the network answers
 is part of the event.
 */
module WsProtocol {
  import opened Options

  type Pid = nat
  // A socket is named by its position in the history `sockets`.
  type Socket = nat

  datatype Connection = Disconnected | Connecting | Connected | Reconnecting | Closing

  // Who holds the connection lock across a suspension point.
  datatype Owner = Free | ByListener | ByTask(task: Pid) | ByCloser(closer: Pid)

  // Where listen(), and connect() inside it, is suspended.
  datatype Listener =
    | NotStarted
    | WantConnect                  // waiting for the lock in connect()
    | Opening(id: nat)             // lock held, websockets.connect pending
    | Napping                      // lock held, the half-second wait on a pending connect
    | ClosingStale                 // lock held, closing a socket that came too late
    | ReplacingHeartbeat(previous: Pid)
    | WantCheck                    // head of the receive loop
    | Receiving(socket: Socket)
    | Handling
    | AwaitingReconnect(task: Pid)
    | Pausing
    | Ended

  // Where a spawned task is suspended: reconnect (R) and heartbeat (H) tasks.
  datatype Task =
    | RNew
    | RWantEnter
    | RWantTurn(attempt: nat)
    | RClosingOld(attempt: nat, previous: Socket)      // lock held
    | ROpening(attempt: nat, id: nat)
    | RWantInstall(attempt: nat, id: nat, socket: Socket)
    | RClosingStale(attempt: nat, stale: Socket)   // lock held
    | RWantFailure(attempt: nat)
    | RSleeping(attempt: nat)
    | RReplacing(previous: Pid)
    | RWantFinal
    | HNew
    | HSleeping
    | HWantCheck
    | HWantSend
    | HSending(socket: Socket)

  // Where a disconnect() call is suspended; `late` when listen() had started before the call.
  datatype Closer =
    | StoppingReconnect(late: bool, task: Pid)
    | StoppingHeartbeat(late: bool, task: Pid)
    | WantClose(late: bool)
    | ClosingSocket(late: bool)                    // lock held

  datatype State = State(
    // the client's own fields
    running: bool,
    conn: Connection,
    ws: Option<Socket>,
    wsId: nat,
    lock: Owner,
    reconnectTask: Option<Pid>,
    heartbeatTask: Option<Pid>,
    maxAttempts: int,
    // the event loop: every coroutine that has not ended
    listener: Listener,
    tasks: map<Pid, Task>,
    cancelled: set<Pid>,
    nextPid: Pid,
    senders: map<Pid, Socket>,
    closers: map<Pid, Closer>,
    // history
    sockets: seq<nat>,        // the attempt number that opened each socket
    closeRequested: set<Socket>,
    leaked: set<Socket>)     // dropped by a cancelled reconnect task, never closed

  function Init(maxAttempts: int): State {
    State(false, Disconnected, None, 0, Free, None, None, maxAttempts,
          NotStarted, map[], {}, 0, map[], map[], [], {}, {})
  }

  predicate IsReconnect(t: Task) {
    !t.HNew? && !t.HSleeping? && !t.HWantCheck? && !t.HWantSend? && !t.HSending?
  }

  predicate ReconnectAlive(s: State) {
    s.reconnectTask.Some? && s.reconnectTask.value in s.tasks
  }

  /** A disconnect() has cleared running since listen() set it. */
  predicate Stopped(s: State) {
    !s.running && !s.listener.NotStarted?
  }

  predicate HeartbeatAlive(s: State) {
    s.heartbeatTask.Some? && s.heartbeatTask.value in s.tasks
  }

  // ---------- steps shared by several coroutines ----------

  function At(s: State, p: Pid, t: Task): State {
    s.(tasks := s.tasks[p := t])
  }

  function Remove(s: State, p: Pid): State {
    s.(tasks := s.tasks - {p}, cancelled := s.cancelled - {p})
  }

  /** _schedule_reconnect: reuse the live task, else spawn one. */
  function ScheduleReconnect(s: State): State {
    if ReconnectAlive(s) then s
    else s.(reconnectTask := Some(s.nextPid), tasks := s.tasks[s.nextPid := RNew], nextPid := s.nextPid + 1)
  }

  function SpawnHeartbeat(s: State): State {
    s.(heartbeatTask := Some(s.nextPid), tasks := s.tasks[s.nextPid := HNew], nextPid := s.nextPid + 1)
  }

  /** The end of _trigger_reconnect: the task forgets itself. */
  function FinishReconnect(s: State, p: Pid): State {
    Remove(s, p).(reconnectTask := if s.reconnectTask == Some(p) then None else s.reconnectTask)
  }

  /** After connect() returned True: _ensure_heartbeat_task, then the receive loop. */
  function AfterConnect(s: State): State {
    if HeartbeatAlive(s)
    then s.(cancelled := s.cancelled + {s.heartbeatTask.value}, listener := ReplacingHeartbeat(s.heartbeatTask.value))
    else ListenLoop(SpawnHeartbeat(s))
  }

  function ListenLoop(s: State): State {
    s.(listener := if s.running then WantCheck else Ended)
  }

  /** connect() from the moment it has the lock. */
  function EnterConnect(s: State): State {
    if s.conn.Connected? then AfterConnect(s)
    else if s.conn.Connecting? then s.(lock := ByListener, listener := Napping)
    else s.(conn := Connecting, wsId := s.wsId + 1, lock := ByListener, listener := Opening(s.wsId + 1))
  }

  /** The loop test of reconnect() after `attempt` attempts. */
  function LoopHead(s: State, p: Pid, attempt: nat): State {
    if s.running && attempt < s.maxAttempts then At(s, p, RWantTurn(attempt + 1)) else At(s, p, RWantFinal)
  }

  /** The rest of a turn once the previous socket is gone; the lock is released at its end. */
  function BeginAttempt(s: State, p: Pid, attempt: nat): State {
    if !s.running then At(s.(lock := Free), p, RWantFinal)
    else At(s.(conn := Connecting, wsId := s.wsId + 1, lock := Free), p, ROpening(attempt, s.wsId + 1))
  }

  function HeartbeatLoop(s: State, p: Pid): State {
    if s.running then At(s, p, HSleeping) else Remove(s, p)
  }

  /** disconnect() once the reconnect task is gone. */
  function StopHeartbeat(s: State, c: Pid, late: bool): State {
    if HeartbeatAlive(s)
    then s.(cancelled := s.cancelled + {s.heartbeatTask.value},
            closers := s.closers[c := StoppingHeartbeat(late, s.heartbeatTask.value)])
    else s.(closers := s.closers[c := WantClose(late)])
  }

  /** disconnect() returns. */
  function Return(s: State, c: Pid): State {
    s.(conn := Disconnected, lock := Free, closers := s.closers - {c})
  }

  // ---------- events ----------

  // What listen() does next.
  datatype ListenerEvent =
    | Listen
    | ConnectGranted
    | NapOver
    | ConnectFailed
    | ConnectOpened
    | StaleConnectClosed(raised: bool)
    | ListenerHeartbeatGone
    | ReceiveTurn
    | MessageArrived
    | MessageHandled
    | ReceiveClosed
    | ReceiveError
    | PauseOver
    | ReconnectAwaited(raised: bool)
    | CancelListener

  datatype HeartbeatEvent =
    | HeartbeatBegin
    | HeartbeatWake
    | HeartbeatCheck
    | HeartbeatSend
    | HeartbeatSent(ok: bool)
    | CancelHeartbeat

  datatype ReconnectEvent =
    | ReconnectBegin
    | ReconnectEnter
    | ReconnectTurn
    | OldClosed
    | AttemptFailed
    | AttemptOpened
    | InstallTurn
    | StaleClosed(raised: bool)
    | FailureTurn
    | SleepOver
    | OldHeartbeatGone
    | FinalTurn
    | CancelReconnect

  datatype CloserEvent =
    | Disconnect
    | ReconnectStopped
    | HeartbeatStopped
    | CloseTurn
    | SocketClosed

  datatype Event =
    | OfListener(l: ListenerEvent)
    | Send(p: Pid)
    | SendDone(p: Pid, ok: bool)
    | OfHeartbeat(p: Pid, h: HeartbeatEvent)
    | OfReconnect(p: Pid, r: ReconnectEvent)
    | OfCloser(p: Pid, c: CloserEvent)

  predicate ListenerEnabled(s: State, e: ListenerEvent) {
    match e
    case Listen => s.listener.NotStarted?
    case ConnectGranted => s.listener.WantConnect? && s.lock.Free?
    case NapOver => s.listener.Napping?
    case ConnectFailed => s.listener.Opening?
    case ConnectOpened => s.listener.Opening?
    case StaleConnectClosed(_) => s.listener.ClosingStale?
    case ListenerHeartbeatGone => s.listener.ReplacingHeartbeat? && s.listener.previous !in s.tasks
    case ReceiveTurn => s.listener.WantCheck? && s.lock.Free?
    case MessageArrived => s.listener.Receiving?
    case MessageHandled => s.listener.Handling?
    case ReceiveClosed => s.listener.Receiving?
    case ReceiveError => s.listener.Receiving?
    case PauseOver => s.listener.Pausing?
    case ReconnectAwaited(_) => s.listener.AwaitingReconnect? && s.listener.task !in s.tasks
    case CancelListener => !s.listener.NotStarted? && !s.listener.Ended?
  }

  predicate HeartbeatEnabled(s: State, p: Pid, e: HeartbeatEvent) {
    p in s.tasks &&
    match e
    case HeartbeatBegin => s.tasks[p].HNew?
    case HeartbeatWake => s.tasks[p].HSleeping?
    case HeartbeatCheck => s.tasks[p].HWantCheck? && s.lock.Free?
    case HeartbeatSend => s.tasks[p].HWantSend? && s.lock.Free?
    case HeartbeatSent(_) => s.tasks[p].HSending?
    case CancelHeartbeat => !IsReconnect(s.tasks[p]) && p in s.cancelled
  }

  predicate ReconnectEnabled(s: State, p: Pid, e: ReconnectEvent) {
    p in s.tasks &&
    match e
    case ReconnectBegin => s.tasks[p].RNew?
    case ReconnectEnter => s.tasks[p].RWantEnter? && s.lock.Free?
    case ReconnectTurn => s.tasks[p].RWantTurn? && s.lock.Free?
    case OldClosed => s.tasks[p].RClosingOld?
    case AttemptFailed => s.tasks[p].ROpening?
    case AttemptOpened => s.tasks[p].ROpening?
    case InstallTurn => s.tasks[p].RWantInstall? && s.lock.Free?
    case StaleClosed(_) => s.tasks[p].RClosingStale?
    case FailureTurn => s.tasks[p].RWantFailure? && s.lock.Free?
    case SleepOver => s.tasks[p].RSleeping?
    case OldHeartbeatGone => s.tasks[p].RReplacing? && s.tasks[p].previous !in s.tasks
    case FinalTurn => s.tasks[p].RWantFinal? && s.lock.Free?
    // The wait for the old heartbeat swallows a cancellation, so none is delivered there.
    case CancelReconnect => IsReconnect(s.tasks[p]) && !s.tasks[p].RReplacing? && p in s.cancelled
  }

  predicate CloserEnabled(s: State, c: Pid, e: CloserEvent) {
    match e
    case Disconnect => c !in s.closers
    case ReconnectStopped => c in s.closers && s.closers[c].StoppingReconnect? && s.closers[c].task !in s.tasks
    case HeartbeatStopped => c in s.closers && s.closers[c].StoppingHeartbeat? && s.closers[c].task !in s.tasks
    case CloseTurn => c in s.closers && s.closers[c].WantClose? && s.lock.Free?
    case SocketClosed => c in s.closers && s.closers[c].ClosingSocket?
  }

  predicate Enabled(s: State, e: Event) {
    match e
    case OfListener(l) => ListenerEnabled(s, l)
    case Send(p) => s.lock.Free? && p !in s.senders
    case SendDone(p, _) => p in s.senders
    case OfHeartbeat(p, h) => HeartbeatEnabled(s, p, h)
    case OfReconnect(p, r) => ReconnectEnabled(s, p, r)
    case OfCloser(c, d) => CloserEnabled(s, c, d)
  }

  /** listen(), connect() included (lines 162-203 and 519-563). */
  function ListenerNext(s: State, e: ListenerEvent): State
    requires ListenerEnabled(s, e)
  {
    match e
    case Listen =>
      var s := s.(running := true);
      if s.lock.Free? then EnterConnect(s) else s.(listener := WantConnect)
    case ConnectGranted => EnterConnect(s)
    case NapOver =>
      var s := s.(lock := Free);
      if s.conn.Connected? then AfterConnect(s) else s.(listener := Ended)
    case ConnectFailed => s.(conn := Disconnected, lock := Free, listener := Ended)
    case ConnectOpened =>
      var socket := |s.sockets|;
      var s1 := s.(ws := Some(socket), sockets := s.sockets + [s.listener.id]);
      if s.listener.id != s.wsId || !s.running
      then s1.(closeRequested := s.closeRequested + {socket}, listener := ClosingStale)
      else AfterConnect(s1.(conn := Connected, lock := Free))
    case StaleConnectClosed(raised) =>
      s.(conn := if raised then Disconnected else s.conn, lock := Free, listener := Ended)
    case ListenerHeartbeatGone => ListenLoop(SpawnHeartbeat(s))
    case ReceiveTurn =>
      if !s.conn.Connected? || s.ws.None? then s.(listener := Ended) else s.(listener := Receiving(s.ws.value))
    case MessageArrived => s.(listener := Handling)
    case MessageHandled => ListenLoop(s)
    case ReceiveClosed =>
      if !s.running then ListenLoop(s)
      else
        var s := ScheduleReconnect(s);
        s.(listener := AwaitingReconnect(s.reconnectTask.value))
    case ReceiveError => if s.running then s.(listener := Pausing) else ListenLoop(s)
    case PauseOver => ListenLoop(s)
    case ReconnectAwaited(raised) => if raised then s.(listener := Ended) else ListenLoop(s)
    case CancelListener =>
      // Cancelling a coroutine that awaits a task cancels that task first.
      if s.listener.AwaitingReconnect? && s.listener.task in s.tasks
      then s.(cancelled := s.cancelled + {s.listener.task})
      else if s.listener.ReplacingHeartbeat? then s
      else s.(listener := Ended, lock := if s.lock.ByListener? then Free else s.lock)
  }

  /** send() up to ws.send (lines 351-357). */
  function SendNext(s: State, p: Pid): State {
    if s.conn.Connected? && s.ws.Some? then s.(senders := s.senders[p := s.ws.value]) else s
  }

  /** send() after ws.send, which may have raised (lines 372-381). */
  function SendDoneNext(s: State, p: Pid, ok: bool): State {
    var s := s.(senders := s.senders - {p});
    if !ok && s.running then ScheduleReconnect(s) else s
  }

  /** _heartbeat_loop() (lines 574-591). */
  function HeartbeatNext(s: State, p: Pid, e: HeartbeatEvent): State
    requires HeartbeatEnabled(s, p, e)
  {
    match e
    case HeartbeatBegin => HeartbeatLoop(s, p)
    case HeartbeatWake => At(s, p, HWantCheck)
    case HeartbeatCheck =>
      if !s.conn.Connected? then Remove(s, p)
      else if s.ws.None? then HeartbeatLoop(s, p)
      else At(s, p, HWantSend)
    case HeartbeatSend =>
      if s.conn.Connected? && s.ws.Some? then At(s, p, HSending(s.ws.value)) else HeartbeatLoop(s, p)
    case HeartbeatSent(ok) =>
      HeartbeatLoop(if !ok && s.running then ScheduleReconnect(s) else s, p)
    case CancelHeartbeat => Remove(s, p)
  }

  /** reconnect() and _trigger_reconnect() (lines 260-337 and 390-414). */
  function ReconnectNext(s: State, p: Pid, e: ReconnectEvent): State
    requires ReconnectEnabled(s, p, e)
  {
    match e
    case ReconnectBegin => At(s, p, RWantEnter)
    case ReconnectEnter =>
      if s.conn.Reconnecting? || !s.running then FinishReconnect(s, p)
      else LoopHead(s.(conn := Reconnecting), p, 0)
    case ReconnectTurn =>
      var attempt := s.tasks[p].attempt;
      if s.ws.Some?
      then At(s.(ws := None, closeRequested := s.closeRequested + {s.ws.value}, lock := ByTask(p)),
              p, RClosingOld(attempt, s.ws.value))
      else BeginAttempt(s, p, attempt)
    case OldClosed => BeginAttempt(s, p, s.tasks[p].attempt)
    case AttemptFailed => At(s, p, RWantFailure(s.tasks[p].attempt))
    case AttemptOpened =>
      var t := s.tasks[p];
      At(s.(sockets := s.sockets + [t.id]), p, RWantInstall(t.attempt, t.id, |s.sockets|))
    case InstallTurn =>
      var t := s.tasks[p];
      if t.id != s.wsId || !s.running
      then At(s.(closeRequested := s.closeRequested + {t.socket}, lock := ByTask(p)),
              p, RClosingStale(t.attempt, t.socket))
      else
        var s := s.(ws := Some(t.socket), conn := Connected);
        if HeartbeatAlive(s)
        then At(s.(cancelled := s.cancelled + {s.heartbeatTask.value}), p, RReplacing(s.heartbeatTask.value))
        else FinishReconnect(SpawnHeartbeat(s), p)
    case StaleClosed(raised) =>
      var attempt := s.tasks[p].attempt;
      var s := s.(lock := Free);
      if raised then At(s, p, RWantFailure(attempt)) else LoopHead(s, p, attempt)
    case FailureTurn => At(s.(conn := Reconnecting), p, RSleeping(s.tasks[p].attempt))
    case SleepOver => LoopHead(s, p, s.tasks[p].attempt)
    case OldHeartbeatGone => FinishReconnect(SpawnHeartbeat(s), p)
    case FinalTurn => FinishReconnect(s.(conn := Disconnected), p)
    case CancelReconnect =>
      var t := s.tasks[p];
      if t.RNew? then Remove(s, p)  // never ran, so it never forgets itself
      else if t.RWantInstall? then FinishReconnect(s.(leaked := s.leaked + {t.socket}), p)
      else if t.RClosingOld? || t.RClosingStale? then FinishReconnect(s.(lock := Free), p)
      else FinishReconnect(s, p)
  }

  /** disconnect() (lines 214-246). */
  function CloserNext(s: State, c: Pid, e: CloserEvent): State
    requires CloserEnabled(s, c, e)
  {
    match e
    case Disconnect =>
      var late := !s.listener.NotStarted?;
      var s := s.(running := false);
      if ReconnectAlive(s)
      then s.(cancelled := s.cancelled + {s.reconnectTask.value},
              closers := s.closers[c := StoppingReconnect(late, s.reconnectTask.value)])
      else StopHeartbeat(s, c, late)
    case ReconnectStopped => StopHeartbeat(s, c, s.closers[c].late)
    case HeartbeatStopped => s.(closers := s.closers[c := WantClose(s.closers[c].late)])
    case CloseTurn =>
      if s.ws.Some?
      then s.(conn := Closing, closeRequested := s.closeRequested + {s.ws.value}, lock := ByCloser(c),
              closers := s.closers[c := ClosingSocket(s.closers[c].late)])
      else Return(s, c)
    case SocketClosed => Return(s.(ws := None), c)
  }

  function Next(s: State, e: Event): State
    requires Enabled(s, e)
  {
    match e
    case OfListener(l) => ListenerNext(s, l)
    case Send(p) => SendNext(s, p)
    case SendDone(p, ok) => SendDoneNext(s, p, ok)
    case OfHeartbeat(p, h) => HeartbeatNext(s, p, h)
    case OfReconnect(p, r) => ReconnectNext(s, p, r)
    case OfCloser(c, d) => CloserNext(s, c, d)
  }

  // ---------- runs ----------

  /** Every event of the list is possible when its turn comes. */
  predicate Legal(s: State, es: seq<Event>)
    decreases |es|
  {
    es == [] || (Enabled(s, es[0]) && Legal(Next(s, es[0]), es[1..]))
  }

  function Run(s: State, es: seq<Event>): State
    requires Legal(s, es)
    decreases |es|
  {
    if es == [] then s else Run(Next(s, es[0]), es[1..])
  }

  ghost predicate Reachable(s: State) {
    exists maxAttempts: int, es: seq<Event> :: Legal(Init(maxAttempts), es) && Run(Init(maxAttempts), es) == s
  }

  lemma {:induction false} RunAppend(s: State, es: seq<Event>, e: Event)
    requires Legal(s, es) && Enabled(Run(s, es), e)
    ensures Legal(s, es + [e]) && Run(s, es + [e]) == Next(Run(s, es), e)
    decreases |es|
  {
    if es == [] {
      assert [e][1..] == [] && es + [e] == [e];
    } else {
      RunAppend(Next(s, es[0]), es[1..], e);
      assert (es + [e])[1..] == es[1..] + [e];
    }
  }

  lemma ReachableStep(s: State, e: Event)
    requires Reachable(s) && Enabled(s, e)
    ensures Reachable(Next(s, e))
  {
    var maxAttempts, es :| Legal(Init(maxAttempts), es) && Run(Init(maxAttempts), es) == s;
    RunAppend(Init(maxAttempts), es, e);
  }

  lemma ReachableInit(maxAttempts: int)
    ensures Reachable(Init(maxAttempts))
  {
    assert Legal(Init(maxAttempts), []) && Run(Init(maxAttempts), []) == Init(maxAttempts);
  }
}
