/** What holds in every run of the WebSocket client, whatever the interleaving. */
module WsTheorems {
  import opened Options
  import opened WsProtocol
  import opened WsInvariant

  lemma ReachableInv(s: State)
    requires Reachable(s)
    ensures Inv(s)
  {
    var maxAttempts, es :| Legal(Init(maxAttempts), es) && Run(Init(maxAttempts), es) == s;
    InitInv(maxAttempts);
    RunKeepsInv(Init(maxAttempts), es);
  }

  predicate Live(s: State, k: Socket) {
    k < |s.sockets| && k !in s.closeRequested && k !in s.leaked
  }

  // ---------- what each kind of coroutine leaves alone ----------

  lemma SenderFrame(s: State, p: Pid, ok: bool)
    ensures var t := SendNext(s, p); t == s.(senders := t.senders)
    ensures var t := SendDoneNext(s, p, ok);
      && t == s.(senders := t.senders, reconnectTask := t.reconnectTask, tasks := t.tasks, nextPid := t.nextPid)
      && (!s.running ==> t.tasks == s.tasks)
  {
  }

  lemma HeartbeatFrame(s: State, p: Pid, e: HeartbeatEvent)
    requires HeartbeatEnabled(s, p, e)
    ensures var t := HeartbeatNext(s, p, e);
      t == s.(reconnectTask := t.reconnectTask, tasks := t.tasks, nextPid := t.nextPid, cancelled := t.cancelled)
  {
  }

  /** A stopped client's heartbeat loop can only leave or end. */
  lemma HeartbeatSpawnsNothing(s: State, p: Pid, e: HeartbeatEvent)
    requires HeartbeatEnabled(s, p, e) && !s.running
    ensures forall q | q in HeartbeatNext(s, p, e).tasks && IsReconnect(HeartbeatNext(s, p, e).tasks[q]) :: q in s.tasks
  {
  }

  lemma ListenerFrame(s: State, e: ListenerEvent)
    requires ListenerEnabled(s, e)
    ensures !s.listener.Ended?
    ensures var t := ListenerNext(s, e); t.leaked == s.leaked
  {
  }

  lemma ReconnectFrame(s: State, p: Pid, e: ReconnectEvent)
    requires ReconnectEnabled(s, p, e)
    ensures var t := ReconnectNext(s, p, e); t.listener == s.listener && t.running == s.running
  {
    match e
    case ReconnectBegin =>
    case ReconnectEnter =>
    case ReconnectTurn =>
    case OldClosed =>
    case AttemptFailed =>
    case AttemptOpened =>
    case InstallTurn =>
    case StaleClosed(_) =>
    case FailureTurn =>
    case SleepOver =>
    case OldHeartbeatGone =>
    case FinalTurn =>
    case CancelReconnect =>
  }

  lemma CloserFrame(s: State, c: Pid, e: CloserEvent)
    requires CloserEnabled(s, c, e)
    ensures var t := CloserNext(s, c, e); (t.listener, t.leaked, t.tasks) == (s.listener, s.leaked, s.tasks)
  {
  }

  lemma CloserOnlyCloses(s: State, c: Pid, e: CloserEvent)
    requires CloserEnabled(s, c, e)
    ensures var t := CloserNext(s, c, e);
      && (t.running ==> s.running)
      && (t.ws.Some? ==> t.ws == s.ws) && (t.conn.Connected? ==> s.conn.Connected?)
  {
  }

  /** The same facts for whichever coroutine moves. */
  lemma StepFrame(s: State, e: Event)
    requires Enabled(s, e)
    ensures var t := Next(s, e);
      && (s.listener.Ended? ==> t.listener.Ended?)
      && (!e.OfListener? ==> t.listener == s.listener)
      && (!e.OfReconnect? ==> t.leaked == s.leaked)
      && (!e.OfReconnect? && !e.OfListener? ==> (t.ws.Some? ==> t.ws == s.ws) && (t.conn.Connected? ==> s.conn.Connected?))
  {
    match e
    case OfListener(l) => ListenerFrame(s, l);
    case Send(p) => SenderFrame(s, p, true);
    case SendDone(p, ok) => SenderFrame(s, p, ok);
    case OfHeartbeat(p, h) => HeartbeatFrame(s, p, h);
    case OfReconnect(p, r) => ReconnectFrame(s, p, r);
    case OfCloser(c, d) => CloserFrame(s, c, d); CloserOnlyCloses(s, c, d);
  }

  // ---------- generations ----------

  /** A connected client holds the socket of the latest attempt; the socket of any earlier attempt is gone. */
  lemma GenerationSafety(s: State)
    requires Reachable(s)
    ensures s.conn.Connected? ==> s.ws.Some? && Live(s, s.ws.value) && s.sockets[s.ws.value] == s.wsId
    ensures forall k: Socket | k < |s.sockets| && s.sockets[k] < s.wsId :: !Live(s, k)
  {
    ReachableInv(s);
  }

  ghost predicate InstallsLatest(s: State, t: State) {
    t.ws.Some? && t.ws != s.ws ==>
      t.ws.value < |t.sockets| && t.sockets[t.ws.value] == t.wsId && t.ws.value !in s.closeRequested
  }

  lemma ListenerInstallsLatest(s: State, e: ListenerEvent)
    requires ListenerEnabled(s, e)
    requires s.listener.Opening? ==> s.listener.id == s.wsId && forall k | k in s.closeRequested :: k < |s.sockets|
    ensures InstallsLatest(s, ListenerNext(s, e))
  {
  }

  lemma ReconnectInstallsLatest(s: State, p: Pid, e: ReconnectEvent)
    requires ReconnectEnabled(s, p, e) && TaskFits(s, s.tasks[p])
    ensures InstallsLatest(s, ReconnectNext(s, p, e))
  {
  }

  /** A step that puts a socket into the client puts in the one of the latest attempt, never closed before. */
  lemma OnlyLatestInstalled(s: State, e: Event)
    requires Reachable(s) && Enabled(s, e)
    ensures InstallsLatest(s, Next(s, e))
  {
    ReachableInv(s);
    match e
    case OfListener(l) => ListenerInstallsLatest(s, l);
    case OfReconnect(p, r) => ReconnectInstallsLatest(s, p, r);
    case _ => StepFrame(s, e);
  }

  // ---------- sockets ----------

  /** Every opened socket is installed, in flight, closed or dropped; two live sockets are the same socket. */
  lemma SocketConservation(s: State)
    requires Reachable(s)
    ensures forall k: Socket | Live(s, k) :: s.ws == Some(k) || InFlight(s.reconnectTask, s.tasks) == Some(k)
    ensures forall j: Socket, k: Socket | Live(s, j) && Live(s, k) :: j == k
  {
    ReachableInv(s);
    forall j: Socket, k: Socket | Live(s, j) && Live(s, k)
      ensures j == k
    {
      assert s.sockets[j] == s.wsId && s.sockets[k] == s.wsId;
    }
  }

  /** A cancellation that reaches the reconnect task between opening its socket and installing it. */
  predicate DropsSocket(s: State, e: Event) {
    e.OfReconnect? && e.r.CancelReconnect? && e.p in s.tasks && s.tasks[e.p].RWantInstall?
  }

  function Drops(s: State, es: seq<Event>): nat
    requires Legal(s, es)
    decreases |es|
  {
    if es == [] then 0 else (if DropsSocket(s, es[0]) then 1 else 0) + Drops(Next(s, es[0]), es[1..])
  }

  lemma ReconnectLeaks(s: State, p: Pid, e: ReconnectEvent)
    requires ReconnectEnabled(s, p, e)
    ensures ReconnectNext(s, p, e).leaked ==
      s.leaked + if e.CancelReconnect? && s.tasks[p].RWantInstall? then {s.tasks[p].socket} else {}
  {
    match e
    case ReconnectBegin =>
    case ReconnectEnter =>
    case ReconnectTurn =>
    case OldClosed =>
    case AttemptFailed =>
    case AttemptOpened =>
    case InstallTurn =>
    case StaleClosed(_) =>
    case FailureTurn =>
    case SleepOver =>
    case OldHeartbeatGone =>
    case FinalTurn =>
    case CancelReconnect =>
  }

  /** The sockets nobody can close any more: opened, not asked to close, not installed and in nobody's hands. */
  function Lost(s: State): set<Socket> {
    set k: Socket | k < |s.sockets| && k !in s.closeRequested && s.ws != Some(k) && InFlight(s.reconnectTask, s.tasks) != Some(k)
  }

  /** Those are exactly the sockets cancelled tasks have dropped. */
  lemma LostIsLeaked(s: State)
    requires Inv(s)
    ensures Lost(s) == s.leaked
  {
    assert s.ws.Some? ==> s.ws.value !in s.leaked;
    var flying := InFlight(s.reconnectTask, s.tasks);
    if flying.Some? { assert TaskFits(s, s.tasks[s.reconnectTask.value]); }
  }

  /** A step loses a socket exactly when it is such a cancellation, and then the one socket in hand. */
  lemma LeakStep(s: State, e: Event)
    requires Inv(s) && Enabled(s, e)
    ensures Lost(Next(s, e)) == Lost(s) + if DropsSocket(s, e) then {s.tasks[e.p].socket} else {}
    ensures DropsSocket(s, e) ==> s.tasks[e.p].socket !in Lost(s)
  {
    StepKeepsInv(s, e);
    LostIsLeaked(s);
    LostIsLeaked(Next(s, e));
    if e.OfReconnect? {
      assert TaskFits(s, s.tasks[e.p]);
      ReconnectLeaks(s, e.p, e.r);
    } else {
      StepFrame(s, e);
    }
    hide Next, Enabled, Inv, Lost;
  }

  lemma {:induction false} LeaksAlong(s: State, es: seq<Event>)
    requires Inv(s) && Legal(s, es)
    ensures |Lost(Run(s, es))| == |Lost(s)| + Drops(s, es)
    decreases |es|
  {
    hide Lost, Next, Enabled, Inv, DropsSocket;
    if es != [] {
      LeakStep(s, es[0]);
      StepKeepsInv(s, es[0]);
      LeaksAlong(Next(s, es[0]), es[1..]);
    }
  }

  /** A run loses a socket for each such cancellation that occurs in it, and no other. */
  lemma SocketsLostExactly(maxAttempts: int, es: seq<Event>)
    requires Legal(Init(maxAttempts), es)
    ensures |Lost(Run(Init(maxAttempts), es))| == Drops(Init(maxAttempts), es)
  {
    InitInv(maxAttempts);
    assert Lost(Init(maxAttempts)) == {};
    LeaksAlong(Init(maxAttempts), es);
  }

  // ---------- tasks ----------

  /** At most one reconnect task and one heartbeat loop are alive. */
  lemma SingleTasks(s: State, p: Pid, q: Pid)
    requires Reachable(s) && p in s.tasks && q in s.tasks
    requires IsReconnect(s.tasks[p]) == IsReconnect(s.tasks[q])
    ensures p == q
  {
    ReachableInv(s);
  }

  // ---------- attempts ----------

  predicate HasAttempt(t: Task) {
    t.RWantTurn? || t.RClosingOld? || t.ROpening? || t.RWantInstall? || t.RClosingStale? || t.RWantFailure? || t.RSleeping?
  }

  predicate CountsWithin(t: Task, maxAttempts: int) {
    HasAttempt(t) ==> 1 <= t.attempt <= maxAttempts
  }

  ghost predicate AttemptsWithin(tasks: map<Pid, Task>, maxAttempts: int) {
    forall p | p in tasks :: CountsWithin(tasks[p], maxAttempts)
  }

  /** Every task is as before or has no attempt. */
  ghost predicate SameAttempts(before: map<Pid, Task>, after: map<Pid, Task>) {
    forall p | p in after :: !HasAttempt(after[p]) || (p in before && after[p] == before[p])
  }

  /** At most one task is new, and it has not begun. */
  predicate OnlySpawns(before: map<Pid, Task>, after: map<Pid, Task>, p: Pid) {
    after == before || after == before[p := RNew] || after == before[p := HNew]
  }

  lemma ListenerOnlySpawns(s: State, e: ListenerEvent)
    requires ListenerEnabled(s, e)
    ensures OnlySpawns(s.tasks, ListenerNext(s, e).tasks, s.nextPid) && ListenerNext(s, e).maxAttempts == s.maxAttempts
  {
    match e
    case Listen =>
    case ConnectGranted =>
    case NapOver =>
    case ConnectFailed =>
    case ConnectOpened =>
    case StaleConnectClosed(_) =>
    case ListenerHeartbeatGone =>
    case ReceiveTurn =>
    case MessageArrived =>
    case MessageHandled =>
    case ReceiveClosed =>
    case ReceiveError =>
    case PauseOver =>
    case ReconnectAwaited(_) =>
    case CancelListener =>
  }

  lemma HeartbeatAttempts(s: State, p: Pid, e: HeartbeatEvent)
    requires HeartbeatEnabled(s, p, e)
    ensures SameAttempts(s.tasks, HeartbeatNext(s, p, e).tasks)
  {
    match e
    case HeartbeatBegin =>
    case HeartbeatWake =>
    case HeartbeatCheck =>
    case HeartbeatSend =>
    case HeartbeatSent(ok) => assert SameAttempts(s.tasks, ScheduleReconnect(s).tasks);
    case CancelHeartbeat =>
  }

  lemma OtherAttempts(s: State, e: Event)
    requires Enabled(s, e) && !e.OfReconnect?
    ensures SameAttempts(s.tasks, Next(s, e).tasks) && Next(s, e).maxAttempts == s.maxAttempts
  {
    match e
    case OfListener(l) => ListenerOnlySpawns(s, l);
    case Send(p) => SenderFrame(s, p, true);
    case SendDone(p, ok) =>
    case OfHeartbeat(p, h) => HeartbeatAttempts(s, p, h); HeartbeatFrame(s, p, h);
    case OfCloser(c, d) => CloserFrame(s, c, d);
  }

  /** A reconnect task's own next attempt number. */
  ghost predicate CountsOn(before: Task, after: Task, maxAttempts: int) {
    && (HasAttempt(after) && !after.RWantTurn? ==> HasAttempt(before) && after.attempt == before.attempt)
    && (after.RWantTurn? ==>
          after.attempt <= maxAttempts && after.attempt == 1 + if HasAttempt(before) then before.attempt else 0)
    && (after.ROpening? ==> before.RWantTurn? || before.RClosingOld?)
  }

  lemma ReconnectLeavesOthers(s: State, p: Pid, e: ReconnectEvent)
    requires ReconnectEnabled(s, p, e)
    ensures ReconnectNext(s, p, e).maxAttempts == s.maxAttempts
    ensures SameAttempts(s.tasks - {p}, ReconnectNext(s, p, e).tasks - {p})
  {
    match e
    case ReconnectBegin =>
    case ReconnectEnter =>
    case ReconnectTurn =>
    case OldClosed =>
    case AttemptFailed =>
    case AttemptOpened =>
    case InstallTurn =>
    case StaleClosed(_) =>
    case FailureTurn =>
    case SleepOver =>
    case OldHeartbeatGone =>
    case FinalTurn =>
    case CancelReconnect =>
  }

  lemma ReconnectCountsOn(s: State, p: Pid, e: ReconnectEvent)
    requires ReconnectEnabled(s, p, e)
    ensures p in ReconnectNext(s, p, e).tasks ==> CountsOn(s.tasks[p], ReconnectNext(s, p, e).tasks[p], s.maxAttempts)
  {
    match e
    case ReconnectBegin =>
    case ReconnectEnter =>
    case ReconnectTurn =>
    case OldClosed =>
    case AttemptFailed =>
    case AttemptOpened =>
    case InstallTurn =>
    case StaleClosed(_) =>
    case FailureTurn =>
    case SleepOver =>
    case OldHeartbeatGone =>
    case FinalTurn =>
    case CancelReconnect =>
  }

  lemma StepCounts(s: State, e: Event)
    requires AttemptsWithin(s.tasks, s.maxAttempts) && Enabled(s, e)
    ensures AttemptsWithin(Next(s, e).tasks, s.maxAttempts) && Next(s, e).maxAttempts == s.maxAttempts
  {
    if e.OfReconnect? {
      var p := e.p;
      ReconnectLeavesOthers(s, p, e.r);
      ReconnectCountsOn(s, p, e.r);
      var t := ReconnectNext(s, p, e.r);
      hide *;
      AttemptsAfter(s.tasks, t.tasks, p, s.maxAttempts);
    } else {
      OtherAttempts(s, e);
    }
  }

  lemma AttemptsAfter(before: map<Pid, Task>, after: map<Pid, Task>, p: Pid, maxAttempts: int)
    requires AttemptsWithin(before, maxAttempts) && p in before
    requires SameAttempts(before - {p}, after - {p})
    requires p in after ==> CountsOn(before[p], after[p], maxAttempts)
    ensures AttemptsWithin(after, maxAttempts)
  {
    forall q | q in after
      ensures CountsWithin(after[q], maxAttempts)
    {
      if q != p { assert q in after - {p}; }
    }
  }

  lemma {:induction false} RunCounts(s: State, es: seq<Event>)
    requires AttemptsWithin(s.tasks, s.maxAttempts) && Legal(s, es)
    ensures AttemptsWithin(Run(s, es).tasks, s.maxAttempts) && Run(s, es).maxAttempts == s.maxAttempts
    decreases |es|
  {
    if es != [] {
      StepCounts(s, es[0]);
      RunCounts(Next(s, es[0]), es[1..]);
    }
  }

  /**
   In every run a reconnect task numbers its attempts one by one and never beyond the configured maximum,
   and it dials only at a number it has not dialled at before.
   */
  lemma AttemptsAreBounded(s: State, p: Pid, e: ReconnectEvent)
    requires Reachable(s) && ReconnectEnabled(s, p, e)
    ensures AttemptsWithin(s.tasks, s.maxAttempts)
    ensures p in ReconnectNext(s, p, e).tasks ==> CountsOn(s.tasks[p], ReconnectNext(s, p, e).tasks[p], s.maxAttempts)
  {
    var maxAttempts, es :| Legal(Init(maxAttempts), es) && Run(Init(maxAttempts), es) == s;
    RunCounts(Init(maxAttempts), es);
    ReconnectCountsOn(s, p, e);
  }

  // ---------- shutdown ----------

  ghost predicate NoRestart(s: State, t: State) {
    && Stopped(t)
    && (t.conn.Connected? ==> s.conn.Connected?)
    && (forall p | p in t.tasks && IsReconnect(t.tasks[p]) :: p in s.tasks)
  }

  lemma ListenerNoRestart(s: State, e: ListenerEvent)
    requires ListenerEnabled(s, e) && Stopped(s)
    ensures NoRestart(s, ListenerNext(s, e))
  {
  }

  lemma ReconnectNoRestart(s: State, p: Pid, e: ReconnectEvent)
    requires ReconnectEnabled(s, p, e) && Stopped(s)
    ensures NoRestart(s, ReconnectNext(s, p, e))
  {
  }

  /** Once a disconnect() has cleared running, no step connects, and no step spawns a reconnect task. */
  lemma NothingRestarts(s: State, e: Event)
    requires Reachable(s) && Enabled(s, e) && Stopped(s)
    ensures NoRestart(s, Next(s, e))
  {
    ReachableInv(s);
    match e
    case OfListener(l) => ListenerNoRestart(s, l);
    case Send(p) => SenderFrame(s, p, true);
    case SendDone(p, ok) => SenderFrame(s, p, ok);
    case OfHeartbeat(p, h) => HeartbeatFrame(s, p, h); HeartbeatSpawnsNothing(s, p, h);
    case OfReconnect(p, r) => ReconnectNoRestart(s, p, r);
    case OfCloser(c, d) => CloserFrame(s, c, d); CloserOnlyCloses(s, c, d);
  }

  /** A client left for good: disconnected, without socket or task, and nothing open that it still knows of. */
  ghost predicate Left(s: State) {
    Stopped(s) && s.conn.Disconnected? && s.ws.None? && s.tasks == map[] && !ConnectPending(s.listener)
    && forall k: Socket :: !Live(s, k)
  }

  /** disconnect() returns to a client left for good, even when it found a connect or a reconnect under way. */
  lemma DisconnectReturns(s: State, c: Pid, e: CloserEvent)
    requires Reachable(s) && CloserEnabled(s, c, e) && c in s.closers && s.closers[c].late
    requires c !in CloserNext(s, c, e).closers
    ensures Left(CloserNext(s, c, e))
  {
    ReachableInv(s);
    var t := CloserNext(s, c, e);
    forall k: Socket
      ensures !Live(t, k)
    {
      if k < |s.sockets| { assert Gone(s.closeRequested, s.leaked, k) || s.ws == Some(k); }
    }
  }

  lemma LeftListener(s: State, e: ListenerEvent)
    requires Left(s) && ListenerEnabled(s, e) && !s.listener.WantConnect? && !s.listener.Napping? && !s.listener.ReplacingHeartbeat?
    requires s.lock.ByListener? ==> ConnectPending(s.listener)
    ensures var t := ListenerNext(s, e); t == s.(listener := t.listener) && !ConnectPending(t.listener)
  {
  }

  lemma LeftCloser(s: State, c: Pid, e: CloserEvent)
    requires Left(s) && CloserEnabled(s, c, e)
    requires c in s.closers && s.closers[c].ClosingSocket? ==> s.ws.Some?
    ensures var t := CloserNext(s, c, e); t == s.(closers := t.closers)
  {
  }

  lemma LeftStep(s: State, e: Event)
    requires Inv(s) && Left(s) && Enabled(s, e)
    ensures Left(Next(s, e))
  {
    var t := Next(s, e);
    match e {
      case OfListener(l) => LeftListener(s, l);
      case Send(p) => SenderFrame(s, p, true);
      case SendDone(p, ok) => NothingSpawnedByLeft(s, p, ok);
      case OfHeartbeat(p, h) =>
      case OfReconnect(p, r) =>
      case OfCloser(c, d) => LeftCloser(s, c, d);
    }
    hide Next;
    assert forall k: Socket :: Live(t, k) ==> Live(s, k);
  }

  lemma NothingSpawnedByLeft(s: State, p: Pid, ok: bool)
    requires !s.running
    ensures var t := SendDoneNext(s, p, ok); t == s.(senders := t.senders)
  {
  }

  /** And it stays so whatever happens next. */
  lemma {:induction false} ShutdownIsFinal(s: State, es: seq<Event>)
    requires Reachable(s) && Left(s) && Legal(s, es)
    ensures Left(Run(s, es))
    decreases |es|
  {
    if es != [] {
      ReachableInv(s);
      LeftStep(s, es[0]);
      ReachableStep(s, es[0]);
      ShutdownIsFinal(Next(s, es[0]), es[1..]);
    }
  }

  // ---------- the listener ----------

  /** A listener that has ended never receives again. */
  lemma {:induction false} EndedForever(s: State, es: seq<Event>)
    requires s.listener.Ended? && Legal(s, es)
    ensures Run(s, es).listener.Ended?
    decreases |es|
  {
    if es != [] {
      StepFrame(s, es[0]);
      EndedForever(Next(s, es[0]), es[1..]);
    }
  }

  /** The steps that end the listener of a running client. */
  predicate EndsListener(s: State, e: ListenerEvent) {
    || e.ConnectFailed?
    || (e.ReceiveTurn? && !s.conn.Connected?)
    || e == ReconnectAwaited(true)
    || (e.CancelListener? && !(s.listener.AwaitingReconnect? && s.listener.task in s.tasks))
  }

  lemma ListenerEnds(s: State, e: ListenerEvent)
    requires ListenerEnabled(s, e) && !s.listener.Ended? && ListenerNext(s, e).running
    requires !s.listener.WantConnect? && !s.listener.Napping? && !s.listener.ReplacingHeartbeat?
    requires s.listener.ClosingStale? ==> !s.running
    requires s.conn.Connected? ==> s.ws.Some?
    ensures ListenerNext(s, e).listener.Ended? <==> EndsListener(s, e)
  {
    match e
    case Listen =>
    case ConnectGranted =>
    case NapOver =>
    case ConnectFailed =>
    case ConnectOpened =>
    case StaleConnectClosed(_) =>
    case ListenerHeartbeatGone =>
    case ReceiveTurn =>
    case MessageArrived =>
    case MessageHandled =>
    case ReceiveClosed =>
    case ReceiveError =>
    case PauseOver =>
    case ReconnectAwaited(_) =>
    case CancelListener =>
  }

  /** When exactly a step ends the listener of a client that is still running. */
  lemma ListenerQuitsExactly(s: State, e: Event)
    requires Reachable(s) && Enabled(s, e) && !s.listener.Ended? && Next(s, e).running
    ensures Next(s, e).listener.Ended? <==> e.OfListener? && EndsListener(s, e.l)
  {
    ReachableInv(s);
    if e.OfListener? {
      hide EndsListener;
      ListenerEnds(s, e.l);
    } else {
      StepFrame(s, e);
    }
  }

  // ---------- recovery ----------

  /** An operation on a socket fails; the socket is the one the coroutine took when it last held the lock. */
  predicate Fails(s: State, e: Event) {
    e == OfListener(ReceiveClosed) || (e.SendDone? && !e.ok) || (e.OfHeartbeat? && e.h == HeartbeatSent(false))
  }

  /** The step has spawned a reconnect task. */
  predicate Recovers(s: State, t: State) {
    s.nextPid in t.tasks && IsReconnect(t.tasks[s.nextPid])
  }

  lemma ListenerRecovers(s: State, e: ListenerEvent)
    requires ListenerEnabled(s, e) && s.nextPid !in s.tasks
    ensures Recovers(s, ListenerNext(s, e)) <==> e.ReceiveClosed? && s.running && !ReconnectAlive(s)
  {
    match e
    case Listen =>
    case ConnectGranted =>
    case NapOver =>
    case ConnectFailed =>
    case ConnectOpened =>
    case StaleConnectClosed(_) =>
    case ListenerHeartbeatGone =>
    case ReceiveTurn =>
    case MessageArrived =>
    case MessageHandled =>
    case ReceiveClosed =>
    case ReceiveError =>
    case PauseOver =>
    case ReconnectAwaited(_) =>
    case CancelListener =>
  }

  lemma SenderRecovers(s: State, p: Pid, ok: bool)
    requires s.nextPid !in s.tasks
    ensures !Recovers(s, SendNext(s, p))
    ensures Recovers(s, SendDoneNext(s, p, ok)) <==> !ok && s.running && !ReconnectAlive(s)
  {
  }

  lemma HeartbeatRecovers(s: State, p: Pid, e: HeartbeatEvent)
    requires HeartbeatEnabled(s, p, e) && s.nextPid !in s.tasks
    ensures Recovers(s, HeartbeatNext(s, p, e)) <==> e == HeartbeatSent(false) && s.running && !ReconnectAlive(s)
  {
    match e
    case HeartbeatBegin =>
    case HeartbeatWake =>
    case HeartbeatCheck =>
    case HeartbeatSend =>
    case HeartbeatSent(ok) =>
    case CancelHeartbeat =>
  }

  lemma ReconnectNeverRecovers(s: State, p: Pid, e: ReconnectEvent)
    requires ReconnectEnabled(s, p, e) && s.nextPid !in s.tasks
    ensures !Recovers(s, ReconnectNext(s, p, e))
  {
    match e
    case ReconnectBegin =>
    case ReconnectEnter =>
    case ReconnectTurn =>
    case OldClosed =>
    case AttemptFailed =>
    case AttemptOpened =>
    case InstallTurn =>
    case StaleClosed(_) =>
    case FailureTurn =>
    case SleepOver =>
    case OldHeartbeatGone =>
    case FinalTurn =>
    case CancelReconnect =>
  }

  /**
   A step spawns a reconnect task exactly when some operation fails on a running client that has no live one,
   be it an operation on the installed socket or on one replaced long ago.
   */
  lemma RecoveryStartsExactly(s: State, e: Event)
    requires Reachable(s) && Enabled(s, e)
    ensures Recovers(s, Next(s, e)) <==> Fails(s, e) && s.running && !ReconnectAlive(s)
  {
    ReachableInv(s);
    assert s.nextPid !in s.tasks;
    match e
    case OfListener(l) => ListenerRecovers(s, l);
    case Send(p) => SenderRecovers(s, p, true);
    case SendDone(p, ok) => SenderRecovers(s, p, ok);
    case OfHeartbeat(p, h) => HeartbeatRecovers(s, p, h);
    case OfReconnect(p, r) => ReconnectNeverRecovers(s, p, r);
    case OfCloser(c, d) => CloserFrame(s, c, d);
  }
}
