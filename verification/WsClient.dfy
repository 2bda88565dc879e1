/**
 The client object itself. Each method is what one coroutine does between two suspension points,
 written on the client's fields; its postcondition ties it to the protocol's step.
 */
module WsClient {
  import opened Options
  import opened WsProtocol
  import opened WsInvariant

  class WSClient {
    // the client's own fields
    var running: bool
    var connectionState: Connection
    var ws: Option<Socket>
    var wsId: nat
    var connectionLock: Owner
    var reconnectTask: Option<Pid>
    var heartbeatTask: Option<Pid>
    const maxAttempts: int
    // the event loop's record of suspended coroutines
    var listener: Listener
    var tasks: map<Pid, Task>
    var cancelled: set<Pid>
    var nextPid: Pid
    var senders: map<Pid, Socket>
    var closers: map<Pid, Closer>
    // history
    var sockets: seq<nat>
    var closeRequested: set<Socket>
    var leaked: set<Socket>

    function View(): State
      reads this
    {
      State(running, connectionState, ws, wsId, connectionLock, reconnectTask, heartbeatTask, maxAttempts,
            listener, tasks, cancelled, nextPid, senders, closers, sockets, closeRequested, leaked)
    }

    constructor (maxAttempts: int)
      ensures View() == Init(maxAttempts) && Inv(View())
    {
      running, connectionState, ws, wsId := false, Disconnected, None, 0;
      connectionLock, reconnectTask, heartbeatTask := Free, None, None;
      this.maxAttempts := maxAttempts;
      listener, tasks, cancelled, nextPid := NotStarted, map[], {}, 0;
      senders, closers := map[], map[];
      sockets, closeRequested, leaked := [], {}, {};
    }

    // ---------- the shared steps ----------

    method Suspend(p: Pid, t: Task)
      modifies this`tasks
      ensures View() == At(old(View()), p, t)
    {
      tasks := tasks[p := t];
    }

    method Forget(p: Pid)
      modifies this`tasks, this`cancelled
      ensures View() == Remove(old(View()), p)
    {
      tasks := tasks - {p};
      cancelled := cancelled - {p};
    }

    method Spawn(t: Task) returns (p: Pid)
      modifies this`tasks, this`nextPid
      ensures p == old(nextPid) && nextPid == p + 1 && tasks == old(tasks)[p := t]
    {
      p := nextPid;
      tasks := tasks[p := t];
      nextPid := nextPid + 1;
    }

    method ScheduleReconnectTask()
      modifies this`tasks, this`nextPid, this`reconnectTask
      ensures View() == ScheduleReconnect(old(View()))
      ensures reconnectTask.Some?
    {
      if reconnectTask.Some? && reconnectTask.value in tasks {
        return;
      }
      var p := Spawn(RNew);
      reconnectTask := Some(p);
    }

    method StartHeartbeat()
      modifies this`tasks, this`nextPid, this`heartbeatTask
      ensures View() == SpawnHeartbeat(old(View()))
    {
      var p := Spawn(HNew);
      heartbeatTask := Some(p);
    }

    method EndReconnect(p: Pid)
      modifies this`tasks, this`cancelled, this`reconnectTask
      ensures View() == FinishReconnect(old(View()), p)
    {
      Forget(p);
      if reconnectTask == Some(p) {
        reconnectTask := None;
      }
    }

    method ContinueListening()
      modifies this`listener
      ensures View() == ListenLoop(old(View()))
    {
      listener := if running then WantCheck else Ended;
    }

    method ConnectedListener()
      modifies this`cancelled, this`listener, this`tasks, this`nextPid, this`heartbeatTask
      ensures View() == AfterConnect(old(View()))
    {
      if heartbeatTask.Some? && heartbeatTask.value in tasks {
        cancelled := cancelled + {heartbeatTask.value};
        listener := ReplacingHeartbeat(heartbeatTask.value);
      } else {
        StartHeartbeat();
        ContinueListening();
      }
    }

    method ConnectLocked()
      modifies this
      ensures View() == EnterConnect(old(View()))
    {
      if connectionState.Connected? {
        ConnectedListener();
      } else if connectionState.Connecting? {
        connectionLock := ByListener;
        listener := Napping;
      } else {
        connectionState := Connecting;
        wsId := wsId + 1;
        connectionLock := ByListener;
        listener := Opening(wsId);
      }
    }

    method NextAttempt(p: Pid, attempt: nat)
      modifies this`tasks
      ensures View() == LoopHead(old(View()), p, attempt)
    {
      if running && attempt < maxAttempts {
        Suspend(p, RWantTurn(attempt + 1));
      } else {
        Suspend(p, RWantFinal);
      }
    }

    method Dial(p: Pid, attempt: nat)
      modifies this
      ensures View() == BeginAttempt(old(View()), p, attempt)
    {
      connectionLock := Free;
      if !running {
        Suspend(p, RWantFinal);
      } else {
        connectionState := Connecting;
        wsId := wsId + 1;
        Suspend(p, ROpening(attempt, wsId));
      }
    }

    method NextBeat(p: Pid)
      modifies this`tasks, this`cancelled
      ensures View() == HeartbeatLoop(old(View()), p)
    {
      if running { Suspend(p, HSleeping); } else { Forget(p); }
    }

    method CancelHeartbeatLoop(c: Pid, late: bool)
      modifies this`cancelled, this`closers
      ensures View() == StopHeartbeat(old(View()), c, late)
    {
      if heartbeatTask.Some? && heartbeatTask.value in tasks {
        cancelled := cancelled + {heartbeatTask.value};
        closers := closers[c := StoppingHeartbeat(late, heartbeatTask.value)];
      } else {
        closers := closers[c := WantClose(late)];
      }
    }

    method ReturnFromDisconnect(c: Pid)
      modifies this`connectionState, this`connectionLock, this`closers
      ensures View() == Return(old(View()), c)
    {
      connectionState := Disconnected;
      connectionLock := Free;
      closers := closers - {c};
    }

    // ---------- the coroutines ----------

    /** listen() and the connect() it awaits. */
    method ListenStep(e: ListenerEvent)
      requires ListenerEnabled(View(), e)
      modifies this
      ensures View() == ListenerNext(old(View()), e)
    {
      match e
      case Listen =>
        running := true;
        if connectionLock.Free? { ConnectLocked(); } else { listener := WantConnect; }
      case ConnectGranted =>
        ConnectLocked();
      case NapOver =>
        connectionLock := Free;
        if connectionState.Connected? { ConnectedListener(); } else { listener := Ended; }
      case ConnectFailed =>
        connectionState, connectionLock, listener := Disconnected, Free, Ended;
      case ConnectOpened =>
        ConnectSucceeded();
      case StaleConnectClosed(raised) =>
        if raised { connectionState := Disconnected; }
        connectionLock, listener := Free, Ended;
      case ListenerHeartbeatGone =>
        StartHeartbeat();
        ContinueListening();
      case ReceiveTurn =>
        if !connectionState.Connected? || ws.None? { listener := Ended; } else { listener := Receiving(ws.value); }
      case MessageArrived =>
        listener := Handling;
      case MessageHandled | PauseOver =>
        ContinueListening();
      case ReceiveClosed =>
        if running {
          ScheduleReconnectTask();
          listener := AwaitingReconnect(reconnectTask.value);
        } else {
          ContinueListening();
        }
      case ReceiveError =>
        if running { listener := Pausing; } else { ContinueListening(); }
      case ReconnectAwaited(raised) =>
        if raised { listener := Ended; } else { ContinueListening(); }
      case CancelListener =>
        if listener.AwaitingReconnect? && listener.task in tasks {
          cancelled := cancelled + {listener.task};
        } else if !listener.ReplacingHeartbeat? {
          listener := Ended;
          if connectionLock.ByListener? { connectionLock := Free; }
        }
    }

    /** The socket is the client's before anything is checked. */
    method RecordSocket(id: nat)
      modifies this`sockets, this`ws
      ensures View() == old(View()).(ws := Some(|old(sockets)|), sockets := old(sockets) + [id])
    {
      ws := Some(|sockets|);
      sockets := sockets + [id];
    }

    method RejectFirstSocket()
      requires ws.Some?
      modifies this`closeRequested, this`listener
      ensures View() == old(View()).(closeRequested := old(closeRequested) + {ws.value}, listener := ClosingStale)
    {
      closeRequested := closeRequested + {ws.value};
      listener := ClosingStale;
    }

    method AcceptFirstSocket()
      modifies this
      ensures View() == AfterConnect(old(View()).(conn := Connected, lock := Free))
    {
      connectionState := Connected;
      connectionLock := Free;
      assert View() == old(View()).(conn := Connected, lock := Free);
      hide AfterConnect;
      ConnectedListener();
    }

    /** connect() when the network has answered. */
    method ConnectSucceeded()
      requires listener.Opening?
      modifies this
      ensures View() == ListenerNext(old(View()), ConnectOpened)
    {
      var currentId := listener.id;
      RecordSocket(currentId);
      if currentId != wsId || !running {
        RejectFirstSocket();
      } else {
        hide AfterConnect;
        AcceptFirstSocket();
      }
    }

    /** send() up to the point where it hands the message to the socket. */
    method SendStep(p: Pid)
      modifies this`senders
      ensures View() == SendNext(old(View()), p)
    {
      if connectionState.Connected? && ws.Some? {
        senders := senders[p := ws.value];
      }
    }

    method SendDoneStep(p: Pid, ok: bool)
      modifies this`senders, this`tasks, this`nextPid, this`reconnectTask
      ensures View() == SendDoneNext(old(View()), p, ok)
    {
      senders := senders - {p};
      if !ok && running { ScheduleReconnectTask(); }
    }

    /** _heartbeat_loop(). */
    method HeartbeatStep(p: Pid, e: HeartbeatEvent)
      requires HeartbeatEnabled(View(), p, e)
      modifies this
      ensures View() == HeartbeatNext(old(View()), p, e)
    {
      match e
      case HeartbeatBegin =>
        NextBeat(p);
      case HeartbeatWake =>
        Suspend(p, HWantCheck);
      case HeartbeatCheck =>
        if !connectionState.Connected? { Forget(p); }
        else if ws.None? { NextBeat(p); }
        else { Suspend(p, HWantSend); }
      case HeartbeatSend =>
        if connectionState.Connected? && ws.Some? { Suspend(p, HSending(ws.value)); } else { NextBeat(p); }
      case HeartbeatSent(ok) =>
        if !ok && running { ScheduleReconnectTask(); }
        NextBeat(p);
      case CancelHeartbeat =>
        Forget(p);
    }

    /** A socket that comes too late is closed under the lock. */
    method RejectSocket(p: Pid)
      requires ReconnectEnabled(View(), p, InstallTurn) && (tasks[p].id != wsId || !running)
      modifies this`closeRequested, this`connectionLock, this`tasks
      ensures View() == ReconnectNext(old(View()), p, InstallTurn)
    {
      var t := tasks[p];
      closeRequested := closeRequested + {t.socket};
      connectionLock := ByTask(p);
      Suspend(p, RClosingStale(t.attempt, t.socket));
    }

    /** Replaces the heartbeat loop, and ends the reconnect task at once when there is none to wait for. */
    method ReplaceHeartbeat(p: Pid)
      modifies this`cancelled, this`tasks, this`nextPid, this`heartbeatTask, this`reconnectTask
      ensures View() ==
        if HeartbeatAlive(old(View()))
        then At(old(View()).(cancelled := old(cancelled) + {old(heartbeatTask).value}), p, RReplacing(old(heartbeatTask).value))
        else FinishReconnect(SpawnHeartbeat(old(View())), p)
    {
      if heartbeatTask.Some? && heartbeatTask.value in tasks {
        cancelled := cancelled + {heartbeatTask.value};
        Suspend(p, RReplacing(heartbeatTask.value));
      } else {
        StartHeartbeat();
        EndReconnect(p);
      }
    }

    /** reconnect() under its lock, once the network has answered. */
    method Install(p: Pid)
      requires ReconnectEnabled(View(), p, InstallTurn)
      modifies this
      ensures View() == ReconnectNext(old(View()), p, InstallTurn)
    {
      var t := tasks[p];
      if t.id != wsId || !running {
        RejectSocket(p);
      } else {
        ws := Some(t.socket);
        connectionState := Connected;
        assert View() == old(View()).(ws := Some(t.socket), conn := Connected);
        hide At, FinishReconnect, SpawnHeartbeat;
        ReplaceHeartbeat(p);
      }
    }

    /** reconnect() at the head of an attempt. */
    method TakeTurn(p: Pid)
      requires ReconnectEnabled(View(), p, ReconnectTurn)
      modifies this
      ensures View() == ReconnectNext(old(View()), p, ReconnectTurn)
    {
      var attempt := tasks[p].attempt;
      if ws.Some? {
        var oldWs := ws.value;
        ws := None;
        closeRequested := closeRequested + {oldWs};
        connectionLock := ByTask(p);
        Suspend(p, RClosingOld(attempt, oldWs));
      } else {
        Dial(p, attempt);
      }
    }

    method CancelReconnectTask(p: Pid)
      requires ReconnectEnabled(View(), p, CancelReconnect)
      modifies this
      ensures View() == ReconnectNext(old(View()), p, CancelReconnect)
    {
      var t := tasks[p];
      if t.RNew? {
        Forget(p);
        return;
      }
      if t.RWantInstall? { leaked := leaked + {t.socket}; }
      if t.RClosingOld? || t.RClosingStale? { connectionLock := Free; }
      EndReconnect(p);
    }

    /** _trigger_reconnect() and the reconnect() it awaits. */
    method ReconnectStep(p: Pid, e: ReconnectEvent)
      requires ReconnectEnabled(View(), p, e)
      modifies this
      ensures View() == ReconnectNext(old(View()), p, e)
    {
      match e
      case ReconnectBegin =>
        Suspend(p, RWantEnter);
      case ReconnectEnter =>
        if connectionState.Reconnecting? || !running {
          EndReconnect(p);
        } else {
          connectionState := Reconnecting;
          NextAttempt(p, 0);
        }
      case ReconnectTurn =>
        TakeTurn(p);
      case OldClosed =>
        Dial(p, tasks[p].attempt);
      case AttemptFailed =>
        Suspend(p, RWantFailure(tasks[p].attempt));
      case AttemptOpened =>
        var t := tasks[p];
        var socket := |sockets|;
        sockets := sockets + [t.id];
        Suspend(p, RWantInstall(t.attempt, t.id, socket));
      case InstallTurn =>
        Install(p);
      case StaleClosed(raised) =>
        var attempt := tasks[p].attempt;
        connectionLock := Free;
        if raised { Suspend(p, RWantFailure(attempt)); } else { NextAttempt(p, attempt); }
      case FailureTurn =>
        connectionState := Reconnecting;
        Suspend(p, RSleeping(tasks[p].attempt));
      case SleepOver =>
        NextAttempt(p, tasks[p].attempt);
      case OldHeartbeatGone =>
        StartHeartbeat();
        EndReconnect(p);
      case FinalTurn =>
        connectionState := Disconnected;
        EndReconnect(p);
      case CancelReconnect =>
        CancelReconnectTask(p);
    }

    /** disconnect() up to its first suspension. */
    method BeginDisconnect(c: Pid)
      requires c !in closers
      modifies this`running, this`cancelled, this`closers
      ensures View() == CloserNext(old(View()), c, Disconnect)
    {
      var late := !listener.NotStarted?;
      running := false;
      if reconnectTask.Some? && reconnectTask.value in tasks {
        cancelled := cancelled + {reconnectTask.value};
        closers := closers[c := StoppingReconnect(late, reconnectTask.value)];
      } else {
        CancelHeartbeatLoop(c, late);
      }
    }

    /** disconnect() from the moment it has the lock. */
    method CloseInstalled(c: Pid)
      requires CloserEnabled(View(), c, CloseTurn)
      modifies this`connectionState, this`closeRequested, this`connectionLock, this`closers
      ensures View() == CloserNext(old(View()), c, CloseTurn)
    {
      if ws.Some? {
        connectionState := Closing;
        closeRequested := closeRequested + {ws.value};
        connectionLock := ByCloser(c);
        closers := closers[c := ClosingSocket(closers[c].late)];
      } else {
        ReturnFromDisconnect(c);
      }
    }

    /** disconnect(). */
    method DisconnectStep(c: Pid, e: CloserEvent)
      requires CloserEnabled(View(), c, e)
      modifies this
      ensures View() == CloserNext(old(View()), c, e)
    {
      match e
      case Disconnect =>
        BeginDisconnect(c);
      case ReconnectStopped =>
        CancelHeartbeatLoop(c, closers[c].late);
      case HeartbeatStopped =>
        closers := closers[c := WantClose(closers[c].late)];
      case CloseTurn =>
        CloseInstalled(c);
      case SocketClosed =>
        ws := None;
        ReturnFromDisconnect(c);
    }

    /** The event loop: any legal schedule drives the object exactly as the protocol says. */
    method Drive(es: seq<Event>)
      requires Inv(View()) && Legal(View(), es)
      modifies this
      ensures Inv(View()) && View() == Run(old(View()), es)
    {
      var i := 0;
      while i < |es|
        invariant 0 <= i <= |es|
        invariant Inv(View()) && Legal(View(), es[i..])
        invariant Run(View(), es[i..]) == Run(old(View()), es)
      {
        ghost var before := View();
        StepKeepsInv(before, es[i]);
        Step(es[i]);
        i := i + 1;
      }
    }

    method Step(e: Event)
      requires Enabled(View(), e)
      modifies this
      ensures View() == Next(old(View()), e)
    {
      match e
      case OfListener(l) => ListenStep(l);
      case Send(p) => SendStep(p);
      case SendDone(p, ok) => SendDoneStep(p, ok);
      case OfHeartbeat(p, h) => HeartbeatStep(p, h);
      case OfReconnect(p, r) => ReconnectStep(p, r);
      case OfCloser(c, d) => DisconnectStep(c, d);
    }
  }
}
