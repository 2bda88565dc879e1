/** What the client gets done: the steps that must happen, where the theorems about all runs say what must not. */
module WsProgress {
  import opened Options
  import opened WsProtocol
  import opened WsInvariant
  import opened WsTheorems

  // ---------- a second invariant ----------

  /** The two task fields name tasks of their own kind. */
  predicate KindsOk(tasks: map<Pid, Task>, reconnectTask: Option<Pid>, heartbeatTask: Option<Pid>) {
    && (reconnectTask.Some? && reconnectTask.value in tasks ==> IsReconnect(tasks[reconnectTask.value]))
    && (heartbeatTask.Some? && heartbeatTask.value in tasks ==> !IsReconnect(tasks[heartbeatTask.value]))
  }

  /** Whoever waits for a task to end has asked it to. */
  ghost predicate AskedOk(tasks: map<Pid, Task>, closers: map<Pid, Closer>, cancelled: set<Pid>, nextPid: Pid) {
    && (forall q | q in cancelled :: q < nextPid)
    && (forall p | p in tasks && tasks[p].RReplacing? ::
          tasks[p].previous < nextPid && (tasks[p].previous in tasks ==> tasks[p].previous in cancelled))
    && (forall c | c in closers && closers[c].StoppingReconnect? ::
          && closers[c].late && closers[c].task < nextPid
          && (closers[c].task in tasks ==> closers[c].task in cancelled && IsReconnect(tasks[closers[c].task])))
    && (forall c | c in closers && closers[c].StoppingHeartbeat? ::
          && closers[c].late && closers[c].task < nextPid
          && (closers[c].task in tasks ==> closers[c].task in cancelled && !IsReconnect(tasks[closers[c].task])))
  }

  /** A running, connected client has a heartbeat loop nobody has asked to end, or is about to have a new one. */
  predicate BeatsOk(running: bool, conn: Connection, tasks: map<Pid, Task>, reconnectTask: Option<Pid>,
                    heartbeatTask: Option<Pid>, cancelled: set<Pid>) {
    running && conn.Connected? ==>
      || (heartbeatTask.Some? && heartbeatTask.value in tasks && heartbeatTask.value !in cancelled)
      || (reconnectTask.Some? && reconnectTask.value in tasks && tasks[reconnectTask.value].RReplacing?)
  }

  /** Only a stopped client has closed a socket as one that came too late. */
  ghost predicate StaleOk(running: bool, tasks: map<Pid, Task>) {
    forall p | p in tasks && tasks[p].RClosingStale? :: !running
  }

  /** The listener waits for a reconnect task. */
  predicate AwaitOk(listener: Listener, tasks: map<Pid, Task>, nextPid: Pid) {
    listener.AwaitingReconnect? ==> listener.task < nextPid && (listener.task in tasks ==> IsReconnect(tasks[listener.task]))
  }

  /** All but the heartbeat. */
  ghost predicate Order(tasks: map<Pid, Task>, reconnectTask: Option<Pid>, heartbeatTask: Option<Pid>, cancelled: set<Pid>,
                        nextPid: Pid, closers: map<Pid, Closer>, listener: Listener, running: bool) {
    && KindsOk(tasks, reconnectTask, heartbeatTask)
    && AskedOk(tasks, closers, cancelled, nextPid)
    && AwaitOk(listener, tasks, nextPid)
    && StaleOk(running, tasks)
  }

  ghost predicate OrderOf(s: State) {
    Order(s.tasks, s.reconnectTask, s.heartbeatTask, s.cancelled, s.nextPid, s.closers, s.listener, s.running)
  }

  ghost predicate Progress(s: State) {
    && OrderOf(s)
    && BeatsOk(s.running, s.conn, s.tasks, s.reconnectTask, s.heartbeatTask, s.cancelled)
    && (s.listener.Opening? ==> s.wsId == 1)
  }

  /** What the proofs below use of the first invariant. */
  ghost predicate Basis(s: State) {
    && TasksOk(s.tasks, s.nextPid, s.reconnectTask, s.heartbeatTask)
    && ListenerOk(s.listener, s.conn, s.ws, s.wsId, s.sockets, s.closeRequested)
    && (ConnectPending(s.listener) ==> s.tasks == map[])
    && (forall c | c in s.closers && s.closers[c].late :: Stopped(s))
    && (forall p | p in s.tasks && s.tasks[p].RWantInstall? :: s.tasks[p].id == s.wsId)
    && (forall p | p in s.tasks && s.tasks[p].RReplacing? :: s.heartbeatTask == Some(s.tasks[p].previous))
  }

  lemma BasisHolds(s: State)
    requires Inv(s)
    ensures Basis(s)
  {
    forall p | p in s.tasks
      ensures TaskFits(s, s.tasks[p])
    {
    }
  }

  // ---------- the shared steps ----------

  lemma AtOrder(s: State, p: Pid, t: Task)
    requires OrderOf(s) && p in s.tasks && IsReconnect(t) == IsReconnect(s.tasks[p])
    requires !t.RReplacing? && (t.RClosingStale? ==> !s.running)
    ensures OrderOf(At(s, p, t))
  {
  }

  lemma RemoveOrder(s: State, p: Pid)
    requires OrderOf(s) && p in s.tasks
    ensures OrderOf(Remove(s, p)) && OrderOf(FinishReconnect(s, p))
  {
  }

  lemma SpawnOrder(s: State)
    requires OrderOf(s) && TasksOk(s.tasks, s.nextPid, s.reconnectTask, s.heartbeatTask)
    ensures OrderOf(SpawnHeartbeat(s)) && OrderOf(ScheduleReconnect(s))
  {
    assert s.nextPid !in s.tasks;
  }

  lemma ReplaceOrder(s: State, p: Pid)
    requires OrderOf(s) && TasksOk(s.tasks, s.nextPid, s.reconnectTask, s.heartbeatTask)
    requires p in s.tasks && IsReconnect(s.tasks[p]) && HeartbeatAlive(s)
    ensures var h := s.heartbeatTask.value; OrderOf(At(s.(cancelled := s.cancelled + {h}), p, RReplacing(h)))
  {
  }

  /** The order reads nothing of the connection. */
  lemma OrderFrame(s: State, t: State)
    requires OrderOf(s)
    requires t.tasks == s.tasks && t.reconnectTask == s.reconnectTask && t.heartbeatTask == s.heartbeatTask
    requires t.cancelled == s.cancelled && t.nextPid == s.nextPid && t.closers == s.closers && t.listener == s.listener
    requires t.running == s.running
    ensures OrderOf(t)
  {
  }

  lemma LoopHeadOrder(s: State, p: Pid, attempt: nat)
    requires OrderOf(s) && p in s.tasks && IsReconnect(s.tasks[p])
    ensures OrderOf(LoopHead(s, p, attempt))
  {
    AtOrder(s, p, RWantTurn(attempt + 1));
    AtOrder(s, p, RWantFinal);
    hide OrderOf;
  }

  lemma MoveOrder(s: State, t: State, p: Pid, task: Task)
    requires OrderOf(s) && p in s.tasks && IsReconnect(task) && IsReconnect(s.tasks[p]) && !task.RReplacing? && !task.RClosingStale?
    requires t.tasks == s.tasks[p := task] && t.reconnectTask == s.reconnectTask && t.heartbeatTask == s.heartbeatTask
    requires t.cancelled == s.cancelled && t.nextPid == s.nextPid && t.closers == s.closers && t.listener == s.listener
    requires t.running == s.running
    ensures OrderOf(t)
  {
    AtOrder(s, p, task);
    OrderFrame(At(s, p, task), t);
    hide OrderOf;
  }

  lemma BeginAttemptOrder(s: State, p: Pid, attempt: nat)
    requires OrderOf(s) && p in s.tasks && IsReconnect(s.tasks[p])
    ensures OrderOf(BeginAttempt(s, p, attempt))
  {
    MoveOrder(s, BeginAttempt(s, p, attempt), p, if s.running then ROpening(attempt, s.wsId + 1) else RWantFinal);
    hide OrderOf;
  }

  // ---------- the steps ----------

  lemma TurnOrder(s: State, p: Pid)
    requires Basis(s) && OrderOf(s) && ReconnectEnabled(s, p, ReconnectTurn)
    ensures OrderOf(ReconnectNext(s, p, ReconnectTurn))
  {
    var attempt := s.tasks[p].attempt;
    BeginAttemptOrder(s, p, attempt);
    if s.ws.Some? {
      var s1 := s.(ws := None, closeRequested := s.closeRequested + {s.ws.value}, lock := ByTask(p));
      OrderFrame(s, s1);
      AtOrder(s1, p, RClosingOld(attempt, s.ws.value));
      hide OrderOf, At;
    }
  }

  lemma InstallOrder(s: State, p: Pid)
    requires Basis(s) && OrderOf(s) && ReconnectEnabled(s, p, InstallTurn)
    ensures OrderOf(ReconnectNext(s, p, InstallTurn))
  {
    var t := s.tasks[p];
    if t.id != s.wsId || !s.running {
      var s1 := s.(closeRequested := s.closeRequested + {t.socket}, lock := ByTask(p));
      OrderFrame(s, s1);
      AtOrder(s1, p, RClosingStale(t.attempt, t.socket));
    } else {
      var s1 := s.(ws := Some(t.socket), conn := Connected);
      OrderFrame(s, s1);
      if HeartbeatAlive(s1) {
        ReplaceOrder(s1, p);
      } else {
        SpawnOrder(s1);
        RemoveOrder(SpawnHeartbeat(s1), p);
      }
    }
    hide OrderOf, At, FinishReconnect, SpawnHeartbeat;
  }

  lemma CancelOrder(s: State, p: Pid)
    requires Basis(s) && OrderOf(s) && ReconnectEnabled(s, p, CancelReconnect)
    ensures OrderOf(ReconnectNext(s, p, CancelReconnect))
  {
    RemoveOrder(s, p);
    var t := s.tasks[p];
    if t.RWantInstall? {
      var s1 := s.(leaked := s.leaked + {t.socket});
      OrderFrame(s, s1);
      RemoveOrder(s1, p);
    } else if t.RClosingOld? || t.RClosingStale? {
      var s1 := s.(lock := Free);
      OrderFrame(s, s1);
      RemoveOrder(s1, p);
    }
    hide OrderOf, FinishReconnect, Remove;
  }

  lemma ReconnectOrder(s: State, p: Pid, e: ReconnectEvent)
    requires Basis(s) && OrderOf(s) && ReconnectEnabled(s, p, e)
    ensures OrderOf(ReconnectNext(s, p, e))
  {
    match e {
      case ReconnectBegin => AtOrder(s, p, RWantEnter);
      case ReconnectEnter =>
        RemoveOrder(s, p);
        OrderFrame(s, s.(conn := Reconnecting));
        LoopHeadOrder(s.(conn := Reconnecting), p, 0);
      case ReconnectTurn => TurnOrder(s, p);
      case OldClosed => BeginAttemptOrder(s, p, s.tasks[p].attempt);
      case AttemptFailed => AtOrder(s, p, RWantFailure(s.tasks[p].attempt));
      case AttemptOpened =>
        var s1 := s.(sockets := s.sockets + [s.tasks[p].id]);
        OrderFrame(s, s1);
        AtOrder(s1, p, RWantInstall(s.tasks[p].attempt, s.tasks[p].id, |s.sockets|));
      case InstallTurn => InstallOrder(s, p);
      case StaleClosed(raised) =>
        OrderFrame(s, s.(lock := Free));
        AtOrder(s.(lock := Free), p, RWantFailure(s.tasks[p].attempt));
        LoopHeadOrder(s.(lock := Free), p, s.tasks[p].attempt);
      case FailureTurn =>
        OrderFrame(s, s.(conn := Reconnecting));
        AtOrder(s.(conn := Reconnecting), p, RSleeping(s.tasks[p].attempt));
      case SleepOver => LoopHeadOrder(s, p, s.tasks[p].attempt);
      case OldHeartbeatGone =>
        SpawnOrder(s);
        RemoveOrder(SpawnHeartbeat(s), p);
      case FinalTurn =>
        OrderFrame(s, s.(conn := Disconnected));
        RemoveOrder(s.(conn := Disconnected), p);
      case CancelReconnect => CancelOrder(s, p);
    }
    hide OrderOf, At, FinishReconnect, SpawnHeartbeat, LoopHead, BeginAttempt, Remove, Basis;
  }

  lemma HeartbeatLoopOrder(s: State, p: Pid)
    requires OrderOf(s) && p in s.tasks && !IsReconnect(s.tasks[p])
    ensures OrderOf(HeartbeatLoop(s, p))
  {
    AtOrder(s, p, HSleeping);
    RemoveOrder(s, p);
    hide OrderOf;
  }

  lemma HeartbeatSentOrder(s: State, p: Pid, ok: bool)
    requires Basis(s) && OrderOf(s) && HeartbeatEnabled(s, p, HeartbeatSent(ok))
    ensures OrderOf(HeartbeatNext(s, p, HeartbeatSent(ok)))
  {
    HeartbeatLoopOrder(s, p);
    SpawnOrder(s);
    assert s.nextPid != p;
    HeartbeatLoopOrder(ScheduleReconnect(s), p);
    hide OrderOf, HeartbeatLoop, Basis;
  }

  lemma HeartbeatOrder(s: State, p: Pid, e: HeartbeatEvent)
    requires Basis(s) && OrderOf(s) && HeartbeatEnabled(s, p, e)
    ensures OrderOf(HeartbeatNext(s, p, e))
  {
    hide OrderOf, At, Remove, HeartbeatLoop, ScheduleReconnect, Basis;
    match e {
      case HeartbeatBegin => HeartbeatLoopOrder(s, p);
      case HeartbeatWake => AtOrder(s, p, HWantCheck);
      case HeartbeatCheck =>
        HeartbeatLoopOrder(s, p);
        RemoveOrder(s, p);
        AtOrder(s, p, HWantSend);
      case HeartbeatSend =>
        HeartbeatLoopOrder(s, p);
        if s.ws.Some? { AtOrder(s, p, HSending(s.ws.value)); }
      case HeartbeatSent(ok) => HeartbeatSentOrder(s, p, ok);
      case CancelHeartbeat => RemoveOrder(s, p);
    }
  }

  lemma SenderOrder(s: State, p: Pid, ok: bool)
    requires Basis(s) && OrderOf(s)
    ensures OrderOf(SendNext(s, p)) && OrderOf(SendDoneNext(s, p, ok))
  {
    if s.conn.Connected? && s.ws.Some? { OrderFrame(s, s.(senders := s.senders[p := s.ws.value])); }
    var s1 := s.(senders := s.senders - {p});
    OrderFrame(s, s1);
    SpawnOrder(s1);
    hide OrderOf, ScheduleReconnect, Basis;
  }

  lemma StopHeartbeatOrder(s: State, c: Pid, late: bool)
    requires OrderOf(s) && TasksOk(s.tasks, s.nextPid, s.reconnectTask, s.heartbeatTask) && (HeartbeatAlive(s) ==> late)
    ensures OrderOf(StopHeartbeat(s, c, late))
  {
  }

  lemma DisconnectOrder(s: State, c: Pid)
    requires Basis(s) && OrderOf(s) && CloserEnabled(s, c, Disconnect)
    ensures OrderOf(CloserNext(s, c, Disconnect))
  {
    var late := !s.listener.NotStarted?;
    var s1 := s.(running := false);
    assert OrderOf(s1);
    StopHeartbeatOrder(s1, c, late);
    hide StopHeartbeat, Basis;
  }

  /** A closer that waits for no task may come, move or go. */
  lemma ClosersOrder(s: State, closers: map<Pid, Closer>)
    requires OrderOf(s)
    requires forall d | d in closers :: (d in s.closers && closers[d] == s.closers[d]) || closers[d].WantClose? || closers[d].ClosingSocket?
    ensures OrderOf(s.(closers := closers))
  {
  }

  lemma ReturnOrder(s: State, c: Pid)
    requires OrderOf(s)
    ensures OrderOf(Return(s, c))
  {
    ClosersOrder(s, s.closers - {c});
    OrderFrame(s.(closers := s.closers - {c}), Return(s, c));
    hide OrderOf;
  }

  lemma CloseTurnOrder(s: State, c: Pid)
    requires OrderOf(s) && CloserEnabled(s, c, CloseTurn)
    ensures OrderOf(CloserNext(s, c, CloseTurn))
  {
    ReturnOrder(s, c);
    var s1 := s.(closers := s.closers[c := ClosingSocket(s.closers[c].late)]);
    ClosersOrder(s, s1.closers);
    if s.ws.Some? { OrderFrame(s1, CloserNext(s, c, CloseTurn)); }
    hide OrderOf, Return;
  }

  lemma CloserOrder(s: State, c: Pid, e: CloserEvent)
    requires Basis(s) && OrderOf(s) && CloserEnabled(s, c, e)
    ensures OrderOf(CloserNext(s, c, e))
  {
    match e {
      case Disconnect => DisconnectOrder(s, c);
      case ReconnectStopped =>
        StopHeartbeatOrder(s, c, s.closers[c].late);
      case HeartbeatStopped =>
        ClosersOrder(s, s.closers[c := WantClose(s.closers[c].late)]);
      case CloseTurn => CloseTurnOrder(s, c);
      case SocketClosed =>
        OrderFrame(s, s.(ws := None));
        ReturnOrder(s.(ws := None), c);
    }
    hide OrderOf, StopHeartbeat, Return, Basis;
  }

  lemma ListenerAtOrder(s: State, l: Listener)
    requires OrderOf(s) && (l.AwaitingReconnect? ==> l.task < s.nextPid && l.task in s.tasks && IsReconnect(s.tasks[l.task]))
    ensures OrderOf(s.(listener := l))
  {
  }

  lemma ConnectOpenedOrder(s: State)
    requires Basis(s) && OrderOf(s) && s.listener.Opening?
    ensures OrderOf(ListenerNext(s, ConnectOpened))
  {
    var socket := |s.sockets|;
    var s1 := s.(ws := Some(socket), sockets := s.sockets + [s.listener.id]);
    OrderFrame(s, s1);
    if s.listener.id != s.wsId || !s.running {
      var s2 := s1.(closeRequested := s.closeRequested + {socket});
      OrderFrame(s1, s2);
      ListenerAtOrder(s2, ClosingStale);
    } else {
      var s2 := s1.(conn := Connected, lock := Free);
      OrderFrame(s1, s2);
      SpawnOrder(s2);
      ListenerAtOrder(SpawnHeartbeat(s2), WantCheck);
    }
    hide OrderOf, SpawnHeartbeat;
  }

  lemma ListenOrder(s: State)
    requires Basis(s) && OrderOf(s) && s.listener.NotStarted?
    ensures OrderOf(ListenerNext(s, Listen))
  {
  }

  lemma ReceiveClosedOrder(s: State)
    requires Basis(s) && OrderOf(s) && s.listener.Receiving?
    ensures OrderOf(ListenerNext(s, ReceiveClosed))
  {
    SpawnOrder(s);
    var t := ScheduleReconnect(s);
    ListenerAtOrder(t, AwaitingReconnect(t.reconnectTask.value));
    ListenerAtOrder(s, WantCheck);
    ListenerAtOrder(s, Ended);
    hide OrderOf, ScheduleReconnect;
  }

  lemma CancelListenerOrder(s: State)
    requires Basis(s) && OrderOf(s) && ListenerEnabled(s, CancelListener)
    ensures OrderOf(ListenerNext(s, CancelListener))
  {
  }

  lemma ListenerOrder(s: State, e: ListenerEvent)
    requires Basis(s) && OrderOf(s) && ListenerEnabled(s, e)
    ensures OrderOf(ListenerNext(s, e))
  {
    ListenerAtOrder(s, WantCheck);
    ListenerAtOrder(s, Handling);
    ListenerAtOrder(s, Pausing);
    ListenerAtOrder(s, Ended);
    if s.ws.Some? { ListenerAtOrder(s, Receiving(s.ws.value)); }
    match e {
      case Listen => ListenOrder(s);
      case ConnectGranted =>
      case NapOver =>
      case ConnectFailed => OrderFrame(s.(listener := Ended), s.(conn := Disconnected, lock := Free, listener := Ended));
      case ConnectOpened => ConnectOpenedOrder(s);
      case StaleConnectClosed(raised) =>
        OrderFrame(s.(listener := Ended), s.(conn := if raised then Disconnected else s.conn, lock := Free, listener := Ended));
      case ListenerHeartbeatGone =>
      case ReceiveTurn =>
      case MessageArrived =>
      case MessageHandled =>
      case ReceiveClosed => ReceiveClosedOrder(s);
      case ReceiveError =>
      case PauseOver =>
      case ReconnectAwaited(_) =>
      case CancelListener => CancelListenerOrder(s);
    }
    hide OrderOf, Order;
  }

  // ---------- the heartbeat goes on ----------

  lemma ListenerBeats(s: State, e: ListenerEvent)
    requires Basis(s) && Progress(s) && ListenerEnabled(s, e)
    ensures var t := ListenerNext(s, e);
      && BeatsOk(t.running, t.conn, t.tasks, t.reconnectTask, t.heartbeatTask, t.cancelled)
      && (t.listener.Opening? ==> t.wsId == 1)
  {
    match e
    case Listen =>
    case ConnectGranted =>
    case NapOver =>
    case ConnectFailed =>
    case ConnectOpened =>
    case StaleConnectClosed(_) =>
    case ListenerHeartbeatGone =>
    case ReceiveTurn =>
    case MessageArrived =>
    case MessageHandled =>
    case ReceiveClosed =>
    case ReceiveError =>
    case PauseOver =>
    case ReconnectAwaited(_) =>
    case CancelListener =>
  }

  lemma HeartbeatSentBeats(s: State, p: Pid, ok: bool)
    requires Basis(s) && Progress(s) && HeartbeatEnabled(s, p, HeartbeatSent(ok))
    ensures var t := HeartbeatNext(s, p, HeartbeatSent(ok));
      BeatsOk(t.running, t.conn, t.tasks, t.reconnectTask, t.heartbeatTask, t.cancelled) && t.listener == s.listener && t.wsId == s.wsId
  {
    assert s.nextPid != p;
  }

  lemma HeartbeatBeats(s: State, p: Pid, e: HeartbeatEvent)
    requires Basis(s) && Progress(s) && HeartbeatEnabled(s, p, e)
    ensures var t := HeartbeatNext(s, p, e);
      BeatsOk(t.running, t.conn, t.tasks, t.reconnectTask, t.heartbeatTask, t.cancelled) && t.listener == s.listener && t.wsId == s.wsId
  {
    match e
    case HeartbeatBegin =>
    case HeartbeatWake =>
    case HeartbeatCheck =>
    case HeartbeatSend =>
    case HeartbeatSent(ok) => HeartbeatSentBeats(s, p, ok);
    case CancelHeartbeat =>
  }

  lemma SenderBeats(s: State, p: Pid, ok: bool)
    requires Basis(s) && Progress(s)
    ensures var t := SendNext(s, p); BeatsOk(t.running, t.conn, t.tasks, t.reconnectTask, t.heartbeatTask, t.cancelled)
    ensures var t := SendDoneNext(s, p, ok); BeatsOk(t.running, t.conn, t.tasks, t.reconnectTask, t.heartbeatTask, t.cancelled)
  {
  }

  lemma ReconnectBeats(s: State, p: Pid, e: ReconnectEvent)
    requires Basis(s) && Progress(s) && ReconnectEnabled(s, p, e)
    ensures var t := ReconnectNext(s, p, e); BeatsOk(t.running, t.conn, t.tasks, t.reconnectTask, t.heartbeatTask, t.cancelled)
  {
    match e
    case ReconnectBegin =>
    case ReconnectEnter =>
    case ReconnectTurn =>
    case OldClosed =>
    case AttemptFailed =>
    case AttemptOpened =>
    case InstallTurn =>
    case StaleClosed(_) =>
    case FailureTurn =>
    case SleepOver =>
    case OldHeartbeatGone =>
    case FinalTurn =>
    case CancelReconnect =>
  }

  lemma CloserBeats(s: State, c: Pid, e: CloserEvent)
    requires Basis(s) && Progress(s) && CloserEnabled(s, c, e)
    ensures var t := CloserNext(s, c, e);
      BeatsOk(t.running, t.conn, t.tasks, t.reconnectTask, t.heartbeatTask, t.cancelled) && t.listener == s.listener && t.wsId == s.wsId
  {
  }

  lemma StepOrder(s: State, e: Event)
    requires Basis(s) && OrderOf(s) && Enabled(s, e)
    ensures OrderOf(Next(s, e))
  {
    hide Basis, OrderOf;
    match e
    case OfListener(l) => ListenerOrder(s, l);
    case Send(p) => SenderOrder(s, p, true);
    case SendDone(p, ok) => SenderOrder(s, p, ok);
    case OfHeartbeat(p, h) => HeartbeatOrder(s, p, h);
    case OfReconnect(p, r) => ReconnectOrder(s, p, r);
    case OfCloser(c, d) => CloserOrder(s, c, d);
  }

  lemma StepBeats(s: State, e: Event)
    requires Basis(s) && Progress(s) && Enabled(s, e)
    ensures var t := Next(s, e);
      && BeatsOk(t.running, t.conn, t.tasks, t.reconnectTask, t.heartbeatTask, t.cancelled)
      && (t.listener.Opening? ==> t.wsId == 1)
  {
    hide Basis, BeatsOk, OrderOf;
    match e
    case OfListener(l) => ListenerBeats(s, l);
    case Send(p) => SenderBeats(s, p, true); SenderFrame(s, p, true);
    case SendDone(p, ok) => SenderBeats(s, p, ok); SenderFrame(s, p, ok);
    case OfHeartbeat(p, h) => HeartbeatBeats(s, p, h);
    case OfReconnect(p, r) => ReconnectBeats(s, p, r); NoTaskBeforeTheFirst(s, p, r);
    case OfCloser(c, d) => CloserBeats(s, c, d);
  }

  lemma NoTaskBeforeTheFirst(s: State, p: Pid, e: ReconnectEvent)
    requires Basis(s) && ReconnectEnabled(s, p, e)
    ensures !ReconnectNext(s, p, e).listener.Opening?
  {
    ReconnectFrame(s, p, e);
    hide ReconnectNext;
  }

  lemma StepProgress(s: State, e: Event)
    requires Inv(s) && Progress(s) && Enabled(s, e)
    ensures Progress(Next(s, e))
  {
    BasisHolds(s);
    StepOrder(s, e);
    StepBeats(s, e);
    hide Next, Inv, Basis, BeatsOk, OrderOf;
  }

  lemma {:induction false} RunProgress(s: State, es: seq<Event>)
    requires Inv(s) && Progress(s) && Legal(s, es)
    ensures Inv(Run(s, es)) && Progress(Run(s, es))
    decreases |es|
  {
    hide Inv, Progress, Next, Enabled;
    if es != [] {
      StepKeepsInv(s, es[0]);
      StepProgress(s, es[0]);
      RunProgress(Next(s, es[0]), es[1..]);
    }
  }

  lemma ReachableProgress(s: State)
    requires Reachable(s)
    ensures Inv(s) && Progress(s)
  {
    var maxAttempts, es :| Legal(Init(maxAttempts), es) && Run(Init(maxAttempts), es) == s;
    InitInv(maxAttempts);
    assert Progress(Init(maxAttempts));
    RunProgress(Init(maxAttempts), es);
  }

  // ---------- the listener ----------

  /** listen() on a fresh client dials its first socket. */
  lemma ListenDials(s: State)
    requires Reachable(s) && s.listener.NotStarted? && s.lock.Free?
    ensures var t := Next(s, OfListener(Listen));
      t.running && t.conn.Connecting? && t.listener == Opening(1) && t.wsId == 1 && t.lock.ByListener? && t.sockets == []
  {
    ReachableProgress(s);
  }

  /** A first socket that opens on a running client is installed: the receive loop and a heartbeat loop begin. */
  lemma FirstSocketIsTaken(s: State)
    requires Reachable(s) && s.listener.Opening? && s.running
    ensures var t := Next(s, OfListener(ConnectOpened));
      && t.conn.Connected? && t.ws == Some(|s.sockets|) && t.sockets == s.sockets + [1] && t.lock.Free?
      && t.listener == WantCheck
      && t.heartbeatTask.Some? && t.tasks == map[t.heartbeatTask.value := HNew]
  {
    ReachableProgress(s);
  }

  /** One that opens on a stopped client is asked to close at once, and then the listener ends and gives the lock back. */
  lemma LateFirstSocketIsClosed(s: State, raised: bool)
    requires Reachable(s) && s.listener.Opening? && !s.running
    ensures var es := [OfListener(ConnectOpened), OfListener(StaleConnectClosed(raised))];
      && Legal(s, es)
      && var t := Run(s, es);
        && t.closeRequested == s.closeRequested + {|s.sockets|} && t.sockets == s.sockets + [1]
        && t.listener.Ended? && t.lock.Free? && t.tasks == map[]
        && t.conn == if raised then Disconnected else s.conn
  {
    ReachableProgress(s);
    RunOfTwo(s, OfListener(ConnectOpened), OfListener(StaleConnectClosed(raised)));
    hide Legal, Run;
  }

  /** A look at a connected client goes on to receive from the installed socket; any other look ends the listener. */
  lemma ListenerReceives(s: State)
    requires Reachable(s) && s.listener.WantCheck? && s.lock.Free?
    ensures var l := Next(s, OfListener(ReceiveTurn)).listener;
      if s.conn.Connected? then s.ws.Some? && l == Receiving(s.ws.value) else l.Ended?
  {
    ReachableProgress(s);
  }

  /** A message or a receive error brings a running listener back to its next look. */
  lemma ListenerComesBack(s: State)
    requires s.listener.Receiving? && s.running
    ensures var es := [OfListener(MessageArrived), OfListener(MessageHandled)];
      Legal(s, es) && Run(s, es) == s.(listener := WantCheck)
    ensures var es := [OfListener(ReceiveError), OfListener(PauseOver)];
      Legal(s, es) && Run(s, es) == s.(listener := WantCheck)
  {
    var handling, pausing := s.(listener := Handling), s.(listener := Pausing);
    RunOfTwo(s, OfListener(MessageArrived), OfListener(MessageHandled));
    RunOfTwo(s, OfListener(ReceiveError), OfListener(PauseOver));
  }

  lemma RunOfTwo(s: State, e: Event, f: Event)
    requires Enabled(s, e) && Enabled(Next(s, e), f)
    ensures Legal(s, [e, f]) && Run(s, [e, f]) == Next(Next(s, e), f)
  {
    hide Enabled, Next;
    RunAppend(s, [], e);
    RunAppend(s, [e], f);
    assert [] + [e] == [e] && [e] + [f] == [e, f];
  }

  /** A running client that hears its socket close waits for the live reconnect task, and looks again afterwards. */
  lemma ClosureIsAwaited(s: State)
    requires Reachable(s) && s.listener.Receiving? && s.running
    ensures var t := Next(s, OfListener(ReceiveClosed));
      && ReconnectAlive(t) && t.listener == AwaitingReconnect(t.reconnectTask.value)
      && IsReconnect(t.tasks[t.reconnectTask.value])
  {
    ReachableProgress(s);
  }

  lemma WaitEnds(s: State, raised: bool)
    requires s.listener.AwaitingReconnect? && s.listener.task !in s.tasks
    ensures Next(s, OfListener(ReconnectAwaited(raised))).listener == if s.running && !raised then WantCheck else Ended
  {
  }

  /** A send has the installed socket exactly when the client is connected, and otherwise does nothing. */
  lemma SendHandsOver(s: State, p: Pid)
    requires Reachable(s) && Enabled(s, Send(p))
    ensures var t := Next(s, Send(p));
      if s.conn.Connected? then s.ws.Some? && t == s.(senders := s.senders[p := s.ws.value]) else t == s
  {
    ReachableProgress(s);
  }

  /** A send that is over, well or not, is forgotten, and touches no connection. */
  lemma SendEnds(s: State, p: Pid, ok: bool)
    requires Enabled(s, SendDone(p, ok))
    ensures var t := Next(s, SendDone(p, ok));
      && t.senders == s.senders - {p} && (t.conn, t.ws, t.wsId, t.lock) == (s.conn, s.ws, s.wsId, s.lock)
      && (ok || !s.running ==> t.tasks == s.tasks)
      && (!ok && s.running ==> ReconnectAlive(t) && forall q | q in s.tasks && q != s.nextPid :: q in t.tasks && t.tasks[q] == s.tasks[q])
  {
  }

  // ---------- the reconnect task ----------

  /**
   Every attempt a running client is allowed is made: after a sleep or an overtaken attempt the task goes on to the next
   one unless it was the last allowed or the client is stopped; a close that raised is treated as a failed attempt.
   */
  lemma TriesAgainExactly(s: State, p: Pid, e: ReconnectEvent)
    requires ReconnectEnabled(s, p, e) && (e.SleepOver? || e.StaleClosed?)
    ensures var a, t := s.tasks[p].attempt, ReconnectNext(s, p, e);
      && p in t.tasks
      && t.tasks[p] ==
         if e == StaleClosed(true) then RWantFailure(a)
         else if s.running && a < s.maxAttempts then RWantTurn(a + 1) else RWantFinal
  {
  }

  /** A task that enters makes its first attempt unless the client is stopped, being reconnected or allowed none. */
  lemma FirstTry(s: State, p: Pid)
    requires ReconnectEnabled(s, p, ReconnectEnter)
    ensures var t := ReconnectNext(s, p, ReconnectEnter);
      if !s.running || s.conn.Reconnecting? then p !in t.tasks && t.conn == s.conn
      else t.conn.Reconnecting? && p in t.tasks && t.tasks[p] == if s.maxAttempts >= 1 then RWantTurn(1) else RWantFinal
  {
  }

  /** A turn of a running client dials a new socket, after closing the old one if there is one. */
  lemma TurnDials(s: State, p: Pid)
    requires Reachable(s) && ReconnectEnabled(s, p, ReconnectTurn) && s.running
    ensures var es := [OfReconnect(p, ReconnectTurn)] + if s.ws.Some? then [OfReconnect(p, OldClosed)] else [];
      && Legal(s, es)
      && var t := Run(s, es);
        && t.tasks == s.tasks[p := ROpening(s.tasks[p].attempt, s.wsId + 1)]
        && t.wsId == s.wsId + 1 && t.conn.Connecting? && t.ws.None? && t.lock.Free?
        && t.closeRequested == s.closeRequested + if s.ws.Some? then {s.ws.value} else {}
  {
    var e, f := OfReconnect(p, ReconnectTurn), OfReconnect(p, OldClosed);
    if s.ws.Some? {
      RunOfTwo(s, e, f);
      assert [e] + [f] == [e, f];
    } else {
      RunAppend(s, [], e);
      assert [] + [e] == [e] + [];
    }
  }

  /** No reconnect task's socket is ever overtaken: an open socket of a running client is the installed one after its turn. */
  lemma NeverOvertaken(s: State, p: Pid)
    requires Reachable(s) && ReconnectEnabled(s, p, InstallTurn)
    ensures var t := ReconnectNext(s, p, InstallTurn);
      if s.running then t.conn.Connected? && t.ws == Some(s.tasks[p].socket)
      else t.ws == s.ws && s.tasks[p].socket in t.closeRequested && p in t.tasks && t.tasks[p].RClosingStale?
  {
    ReachableProgress(s);
    BasisHolds(s);
  }

  /** A running client closes no reconnect task's socket as one that came too late. */
  lemma StaleMeansStopped(s: State, p: Pid)
    requires Reachable(s) && p in s.tasks && s.tasks[p].RClosingStale?
    ensures !s.running
  {
    ReachableProgress(s);
  }

  function FailedAttempt(p: Pid): seq<Event> {
    [OfReconnect(p, AttemptFailed), OfReconnect(p, FailureTurn), OfReconnect(p, SleepOver), OfReconnect(p, ReconnectTurn)]
  }

  function FailedAttempts(p: Pid, k: nat): seq<Event> {
    if k == 0 then [] else FailedAttempt(p) + FailedAttempts(p, k - 1)
  }

  // Task p of a running client has attempt `attempt` out, and the lock is free.
  predicate Dialling(s: State, p: Pid, attempt: nat) {
    s.running && s.lock.Free? && s.ws.None? && p in s.tasks && s.tasks[p] == ROpening(attempt, s.wsId)
  }

  /** Two steps of one task in a row. */
  lemma TwoSteps(s: State, p: Pid, e: ReconnectEvent, f: ReconnectEvent)
    requires ReconnectEnabled(s, p, e) && ReconnectEnabled(ReconnectNext(s, p, e), p, f)
    ensures var es := [OfReconnect(p, e), OfReconnect(p, f)];
      Legal(s, es) && Run(s, es) == ReconnectNext(ReconnectNext(s, p, e), p, f)
  {
    hide ReconnectNext, ReconnectEnabled;
    RunOfTwo(s, OfReconnect(p, e), OfReconnect(p, f));
    hide Legal, Run;
  }

  lemma FailsAndSleeps(s: State, p: Pid, attempt: nat)
    requires Dialling(s, p, attempt)
    ensures var es := [OfReconnect(p, AttemptFailed), OfReconnect(p, FailureTurn)];
      Legal(s, es) && Run(s, es) == At(s.(conn := Reconnecting), p, RSleeping(attempt))
  {
    hide Legal, Run, Enabled, Next;
    TwoSteps(s, p, AttemptFailed, FailureTurn);
  }

  lemma Wakes(s: State, p: Pid)
    requires ReconnectEnabled(s, p, SleepOver) && s.running && s.tasks[p].attempt < s.maxAttempts
    ensures ReconnectNext(s, p, SleepOver) == At(s, p, RWantTurn(s.tasks[p].attempt + 1))
  {
  }

  lemma TurnOpens(s: State, p: Pid)
    requires ReconnectEnabled(s, p, ReconnectTurn) && s.running && s.ws.None?
    ensures ReconnectNext(s, p, ReconnectTurn)
         == At(s.(conn := Connecting, wsId := s.wsId + 1), p, ROpening(s.tasks[p].attempt, s.wsId + 1))
  {
  }

  lemma AwakeDials(s: State, p: Pid, attempt: nat)
    requires s.running && s.lock.Free? && s.ws.None? && p in s.tasks
    ensures var awake := At(s, p, RWantTurn(attempt));
      && ReconnectEnabled(awake, p, ReconnectTurn)
      && ReconnectNext(awake, p, ReconnectTurn) == At(s.(conn := Connecting, wsId := s.wsId + 1), p, ROpening(attempt, s.wsId + 1))
  {
    assert s.tasks[p := RWantTurn(attempt)][p := ROpening(attempt, s.wsId + 1)] == s.tasks[p := ROpening(attempt, s.wsId + 1)];
    TurnOpens(At(s, p, RWantTurn(attempt)), p);
    hide ReconnectNext;
  }

  lemma WakesAndDials(s: State, p: Pid, attempt: nat)
    requires s.running && s.lock.Free? && s.ws.None? && p in s.tasks && s.tasks[p] == RSleeping(attempt) && attempt < s.maxAttempts
    ensures var es := [OfReconnect(p, SleepOver), OfReconnect(p, ReconnectTurn)];
      && Legal(s, es)
      && Run(s, es) == At(s.(conn := Connecting, wsId := s.wsId + 1), p, ROpening(attempt + 1, s.wsId + 1))
  {
    hide Legal, Run, Enabled, Next, ReconnectNext;
    Wakes(s, p);
    AwakeDials(s, p, attempt + 1);
    hide ReconnectEnabled, At;
    TwoSteps(s, p, SleepOver, ReconnectTurn);
  }

  lemma OneFailure(s: State, p: Pid, attempt: nat)
    requires Dialling(s, p, attempt) && attempt < s.maxAttempts
    ensures Legal(s, FailedAttempt(p))
    ensures var t := Run(s, FailedAttempt(p));
      && Dialling(t, p, attempt + 1) && t.wsId == s.wsId + 1 && t.sockets == s.sockets
      && t.maxAttempts == s.maxAttempts
  {
    var es := [OfReconnect(p, AttemptFailed), OfReconnect(p, FailureTurn)];
    var fs := [OfReconnect(p, SleepOver), OfReconnect(p, ReconnectTurn)];
    assert FailedAttempt(p) == es + fs;
    hide Legal, Run, Enabled, Next, FailedAttempt;
    FailsAndSleeps(s, p, attempt);
    WakesAndDials(Run(s, es), p, attempt);
    LegalConcat(s, es, fs);
  }

  lemma LegalConcat(s: State, es: seq<Event>, fs: seq<Event>)
    requires Legal(s, es) && Legal(Run(s, es), fs)
    ensures Legal(s, es + fs) && Run(s, es + fs) == Run(Run(s, es), fs)
    decreases |es|
  {
    hide Enabled, Next;
    if es == [] {
      assert es + fs == fs;
    } else {
      LegalConcat(Next(s, es[0]), es[1..], fs);
      assert (es + fs)[1..] == es[1..] + fs;
    }
  }

  lemma {:induction false} SomeFailures(s: State, p: Pid, attempt: nat, k: nat)
    requires Dialling(s, p, attempt) && attempt + k <= s.maxAttempts
    ensures Legal(s, FailedAttempts(p, k))
    ensures var t := Run(s, FailedAttempts(p, k));
      && Dialling(t, p, attempt + k) && t.wsId == s.wsId + k && t.sockets == s.sockets
      && t.maxAttempts == s.maxAttempts
    decreases k
  {
    hide Dialling, Enabled, Next, FailedAttempt;
    if k > 0 {
      OneFailure(s, p, attempt);
      var t := Run(s, FailedAttempt(p));
      SomeFailures(t, p, attempt + 1, k - 1);
      LegalConcat(s, FailedAttempt(p), FailedAttempts(p, k - 1));
    }
  }

  lemma Opens(s: State, p: Pid)
    requires ReconnectEnabled(s, p, AttemptOpened)
    ensures var t := s.tasks[p];
      ReconnectNext(s, p, AttemptOpened) == At(s.(sockets := s.sockets + [t.id]), p, RWantInstall(t.attempt, t.id, |s.sockets|))
  {
  }

  lemma InstallTurnInstalls(s: State, p: Pid)
    requires ReconnectEnabled(s, p, InstallTurn) && s.running && s.tasks[p].id == s.wsId
    ensures var t := ReconnectNext(s, p, InstallTurn);
      t.conn.Connected? && t.wsId == s.wsId && t.sockets == s.sockets && t.ws == Some(s.tasks[p].socket)
  {
  }

  lemma OpenedIsInstalled(s: State, p: Pid, attempt: nat)
    requires Dialling(s, p, attempt)
    ensures var es := [OfReconnect(p, AttemptOpened), OfReconnect(p, InstallTurn)];
      && Legal(s, es)
      && var t := Run(s, es);
        t.conn.Connected? && t.wsId == s.wsId && t.sockets == s.sockets + [s.wsId] && t.ws == Some(|s.sockets|)
  {
    var opening := At(s.(sockets := s.sockets + [s.wsId]), p, RWantInstall(attempt, s.wsId, |s.sockets|));
    Opens(s, p);
    InstallTurnInstalls(opening, p);
    TwoSteps(s, p, AttemptOpened, InstallTurn);
    hide Legal, Run, ReconnectNext;
  }

  /**
   The client recovers after any number of failed attempts the maximum leaves room for: k dials fail, the next one opens,
   and its socket is the only new one and the installed one.
   */
  lemma RecoversAfterFailures(s: State, p: Pid, k: nat)
    requires Reachable(s) && s.running && s.lock.Free?
    requires p in s.tasks && s.tasks[p].ROpening? && s.tasks[p].attempt + k <= s.maxAttempts
    ensures var es := FailedAttempts(p, k) + [OfReconnect(p, AttemptOpened), OfReconnect(p, InstallTurn)];
      && Legal(s, es)
      && var t := Run(s, es);
        && t.conn.Connected? && t.wsId == s.wsId + k
        && t.sockets == s.sockets + [t.wsId] && t.ws == Some(|s.sockets|)
  {
    ReachableProgress(s);
    var attempt := s.tasks[p].attempt;
    assert TaskFits(s, s.tasks[p]);
    SomeFailures(s, p, attempt, k);
    var t := Run(s, FailedAttempts(p, k));
    OpenedIsInstalled(t, p, attempt + k);
    LegalConcat(s, FailedAttempts(p, k), [OfReconnect(p, AttemptOpened), OfReconnect(p, InstallTurn)]);
    hide Legal, Run, Inv, Progress;
  }

  // ---------- the heartbeat ----------

  /** A connected client's heartbeat loop that looks goes on to send over the installed socket. */
  lemma HeartbeatIsSent(s: State, p: Pid)
    requires Reachable(s) && s.conn.Connected? && HeartbeatEnabled(s, p, HeartbeatCheck)
    ensures s.ws.Some?
    ensures var es := [OfHeartbeat(p, HeartbeatCheck), OfHeartbeat(p, HeartbeatSend)];
      Legal(s, es) && Run(s, es) == s.(tasks := s.tasks[p := HSending(s.ws.value)])
  {
    ReachableProgress(s);
    RunOfTwo(s, OfHeartbeat(p, HeartbeatCheck), OfHeartbeat(p, HeartbeatSend));
  }

  /** A look ends the loop exactly when the client is not connected. */
  lemma CheckEndsExactly(s: State, p: Pid)
    requires Reachable(s) && HeartbeatEnabled(s, p, HeartbeatCheck)
    ensures p !in HeartbeatNext(s, p, HeartbeatCheck).tasks <==> !s.conn.Connected?
  {
    ReachableProgress(s);
  }

  /** A send that is no longer connected sends nothing, and the loop sleeps again, or ends if the client is stopped. */
  lemma LateSendIsDropped(s: State, p: Pid)
    requires Reachable(s) && HeartbeatEnabled(s, p, HeartbeatSend)
    ensures var t := HeartbeatNext(s, p, HeartbeatSend);
      && (p in t.tasks && t.tasks[p].HSending? <==> s.conn.Connected?)
      && (p in t.tasks && t.tasks[p].HSleeping? <==> !s.conn.Connected? && s.running)
  {
    ReachableProgress(s);
  }

  /** After its send the loop of a running client sleeps again, and a sleep over leads to the next look. */
  lemma HeartbeatBeatsOn(s: State, p: Pid, ok: bool)
    requires Reachable(s) && HeartbeatEnabled(s, p, HeartbeatSent(ok)) && s.running
    ensures var es := [OfHeartbeat(p, HeartbeatSent(ok)), OfHeartbeat(p, HeartbeatWake)];
      && Legal(s, es) && p in Run(s, es).tasks && Run(s, es).tasks[p].HWantCheck?
      && (!ok ==> ReconnectAlive(Run(s, es)))
      && (ok ==> Run(s, es) == s.(tasks := s.tasks[p := HWantCheck]))
  {
    ReachableProgress(s);
    RunOfTwo(s, OfHeartbeat(p, HeartbeatSent(ok)), OfHeartbeat(p, HeartbeatWake));
  }

  /** A running, connected client always has a heartbeat loop nobody has asked to end, or is replacing its old one. */
  lemma ConnectedMeansBeating(s: State)
    requires Reachable(s) && s.running && s.conn.Connected?
    ensures exists p | p in s.tasks ::
      s.tasks[p].RReplacing? || (!IsReconnect(s.tasks[p]) && p !in s.cancelled && s.heartbeatTask == Some(p))
  {
    ReachableProgress(s);
    var p := if HeartbeatAlive(s) && s.heartbeatTask.value !in s.cancelled then s.heartbeatTask.value else s.reconnectTask.value;
    assert p in s.tasks;
  }

  // ---------- disconnect ----------

  /** Some run from here on has the disconnect() call c return. */
  ghost predicate CanReturn(s: State, c: Pid) {
    exists es: seq<Event> :: Legal(s, es) && c !in Run(s, es).closers
  }

  lemma ReturnedNow(s: State, c: Pid)
    requires c !in s.closers
    ensures CanReturn(s, c)
  {
    assert Legal(s, []) && Run(s, []) == s;
  }

  lemma ReturnsLater(s: State, e: Event, c: Pid)
    requires Enabled(s, e) && CanReturn(Next(s, e), c)
    ensures CanReturn(s, c)
  {
    hide Enabled, Next;
    var es :| Legal(Next(s, e), es) && c !in Run(Next(s, e), es).closers;
    RunAppend(s, [], e);
    assert [] + [e] == [e];
    LegalConcat(s, [e], es);
    hide Legal, Run;
  }

  lemma ClosingCanReturn(s: State, c: Pid)
    requires c in s.closers && s.closers[c].ClosingSocket?
    ensures CanReturn(s, c)
  {
    var e := OfCloser(c, SocketClosed);
    assert Next(s, e) == Return(s.(ws := None), c);
    ReturnedNow(Next(s, e), c);
    ReturnsLater(s, e, c);
    hide Next, CanReturn;
  }

  lemma FreeCanReturn(s: State, c: Pid)
    requires c in s.closers && s.closers[c].WantClose? && s.lock.Free?
    ensures CanReturn(s, c)
  {
    var e := OfCloser(c, CloseTurn);
    if s.ws.Some? { ClosingCanReturn(Next(s, e), c); } else { ReturnedNow(Next(s, e), c); }
    ReturnsLater(s, e, c);
    hide CanReturn;
  }

  /** Whoever holds the lock can give it back in one step. */
  function LetGo(s: State): Event
    requires !s.lock.Free?
  {
    match s.lock
    case ByListener => OfListener(if s.listener.Opening? then ConnectFailed else StaleConnectClosed(true))
    case ByTask(p) => OfReconnect(p, if p in s.tasks && s.tasks[p].RClosingOld? then OldClosed else StaleClosed(true))
    case ByCloser(d) => OfCloser(d, SocketClosed)
    case Free => OfListener(Listen)
  }

  lemma LockComesFree(s: State, c: Pid)
    requires Inv(s) && !s.lock.Free?
    ensures var e := LetGo(s);
      Enabled(s, e) && Next(s, e).lock.Free?
      && (c in s.closers && !s.closers[c].ClosingSocket? ==> c in Next(s, e).closers && Next(s, e).closers[c] == s.closers[c])
  {
    match s.lock
    case ByListener =>
    case ByTask(p) =>
    case ByCloser(d) =>
  }

  lemma WantCloseCanReturn(s: State, c: Pid)
    requires Inv(s) && c in s.closers && s.closers[c].WantClose?
    ensures CanReturn(s, c)
  {
    hide CanReturn;
    if s.lock.Free? {
      FreeCanReturn(s, c);
    } else {
      LockComesFree(s, c);
      var e := LetGo(s);
      hide Next, Enabled, Inv, LetGo;
      FreeCanReturn(Next(s, e), c);
      ReturnsLater(s, e, c);
    }
  }

  lemma HeartbeatStoppedCanReturn(s: State, c: Pid)
    requires Inv(s) && CloserEnabled(s, c, HeartbeatStopped)
    ensures CanReturn(s, c)
  {
    var e := OfCloser(c, HeartbeatStopped);
    StepKeepsInv(s, e);
    WantCloseCanReturn(Next(s, e), c);
    ReturnsLater(s, e, c);
    hide CanReturn, Inv;
  }

  lemma StoppingHeartbeatCanReturn(s: State, c: Pid)
    requires Inv(s) && OrderOf(s) && c in s.closers && s.closers[c].StoppingHeartbeat?
    ensures CanReturn(s, c)
  {
    var p := s.closers[c].task;
    if p in s.tasks {
      var e := OfHeartbeat(p, CancelHeartbeat);
      StepKeepsInv(s, e);
      HeartbeatStoppedCanReturn(Next(s, e), c);
      ReturnsLater(s, e, c);
    } else {
      HeartbeatStoppedCanReturn(s, c);
    }
    hide CanReturn, Inv, OrderOf;
  }

  lemma ReconnectStoppedCanReturn(s: State, c: Pid)
    requires Inv(s) && OrderOf(s) && CloserEnabled(s, c, ReconnectStopped)
    ensures CanReturn(s, c)
  {
    var e := OfCloser(c, ReconnectStopped);
    BasisHolds(s);
    StepKeepsInv(s, e);
    StepOrder(s, e);
    var t := Next(s, e);
    hide CanReturn, Inv, OrderOf, Basis;
    if HeartbeatAlive(s) { StoppingHeartbeatCanReturn(t, c); } else { WantCloseCanReturn(t, c); }
    ReturnsLater(s, e, c);
  }

  /** The last step of a task that has been asked to end. */
  lemma TaskEndsCanReturn(s: State, c: Pid, e: ReconnectEvent)
    requires Inv(s) && OrderOf(s) && c in s.closers && s.closers[c].StoppingReconnect?
    requires ReconnectEnabled(s, s.closers[c].task, e) && (e.CancelReconnect? || e.OldHeartbeatGone?)
    ensures CanReturn(s, c)
  {
    var f := OfReconnect(s.closers[c].task, e);
    BasisHolds(s);
    StepKeepsInv(s, f);
    StepOrder(s, f);
    TaskIsGone(s, s.closers[c].task, e);
    hide CanReturn, Inv, OrderOf, Basis, ReconnectNext;
    ReconnectStoppedCanReturn(Next(s, f), c);
    ReturnsLater(s, f, c);
  }

  lemma TaskIsGone(s: State, p: Pid, e: ReconnectEvent)
    requires ReconnectEnabled(s, p, e) && (e.CancelReconnect? || (e.OldHeartbeatGone? && p < s.nextPid))
    ensures p !in ReconnectNext(s, p, e).tasks && ReconnectNext(s, p, e).closers == s.closers
  {
    match e
    case CancelReconnect =>
    case OldHeartbeatGone =>
  }

  lemma StoppingReconnectCanReturn(s: State, c: Pid)
    requires Inv(s) && OrderOf(s) && c in s.closers && s.closers[c].StoppingReconnect?
    ensures CanReturn(s, c)
  {
    var p := s.closers[c].task;
    if p !in s.tasks {
      ReconnectStoppedCanReturn(s, c);
    } else if !s.tasks[p].RReplacing? {
      TaskEndsCanReturn(s, c, CancelReconnect);
    } else if s.tasks[p].previous !in s.tasks {
      TaskEndsCanReturn(s, c, OldHeartbeatGone);
    } else {
      ReplacedCanReturn(s, c);
    }
    hide CanReturn, Inv, OrderOf;
  }

  /** A task that waits for the old heartbeat ends once that has. */
  lemma ReplacedCanReturn(s: State, c: Pid)
    requires Inv(s) && OrderOf(s) && c in s.closers && s.closers[c].StoppingReconnect?
    requires var p := s.closers[c].task; p in s.tasks && s.tasks[p].RReplacing? && s.tasks[p].previous in s.tasks
    ensures CanReturn(s, c)
  {
    BasisHolds(s);
    var p := s.closers[c].task;
    var q := s.tasks[p].previous;
    var e := OfHeartbeat(q, CancelHeartbeat);
    StepKeepsInv(s, e);
    StepOrder(s, e);
    TaskEndsCanReturn(Next(s, e), c, OldHeartbeatGone);
    ReturnsLater(s, e, c);
    hide CanReturn, Inv, OrderOf, Basis;
  }

  /** No disconnect() call is ever stuck: from every reachable state some run has it return. */
  lemma DisconnectCanAlwaysReturn(s: State, c: Pid)
    requires Reachable(s)
    ensures CanReturn(s, c)
  {
    ReachableProgress(s);
    hide CanReturn, Inv, OrderOf;
    if c !in s.closers { ReturnedNow(s, c); }
    else {
      match s.closers[c]
      case StoppingReconnect(_, _) => StoppingReconnectCanReturn(s, c);
      case StoppingHeartbeat(_, _) => StoppingHeartbeatCanReturn(s, c);
      case WantClose(_) => WantCloseCanReturn(s, c);
      case ClosingSocket(_) => ClosingCanReturn(s, c);
    }
  }

  // ---------- what ends ----------

  /** A first dial that fails leaves a disconnected client without socket or listener, and the lock free. */
  lemma FirstDialFails(s: State)
    requires Reachable(s) && s.listener.Opening?
    ensures var t := Next(s, OfListener(ConnectFailed));
      t.conn.Disconnected? && t.ws.None? && t.sockets == [] && t.listener.Ended? && t.lock.Free? && t.tasks == map[]
  {
    ReachableProgress(s);
  }

  /** Cancelling listen() ends it and gives its lock back, except where it waits for a live reconnect task: that ends first. */
  lemma CancelEndsListen(s: State)
    requires Reachable(s) && ListenerEnabled(s, CancelListener)
    ensures var t := Next(s, OfListener(CancelListener));
      if s.listener.AwaitingReconnect? && s.listener.task in s.tasks
      then t == s.(cancelled := s.cancelled + {s.listener.task}) && ReconnectEnabled(t, s.listener.task, CancelReconnect) != t.tasks[s.listener.task].RReplacing?
      else t == s.(listener := Ended, lock := t.lock) && (t.lock.Free? <==> s.lock.Free? || s.lock.ByListener?)
  {
    ReachableProgress(s);
  }

  /** A task that has given up leaves the client disconnected and is gone; one cancelled is gone and keeps no lock. */
  lemma TaskEnds(s: State, p: Pid, e: ReconnectEvent)
    requires Reachable(s) && ReconnectEnabled(s, p, e) && (e.FinalTurn? || e.CancelReconnect?)
    ensures var t := ReconnectNext(s, p, e);
      && p !in t.tasks && !ReconnectAlive(t) && t.lock != ByTask(p)
      && t.conn == if e.FinalTurn? then Disconnected else s.conn
  {
    ReachableProgress(s);
  }
}
