/**
 The runs of the event loop itself. The protocol lets any waiter take a free lock; here the lock is asyncio's:
 a coroutine that finds it free with nobody queued goes on without suspending, and the others are served in order
 of arrival. What the protocol keeps in all its runs, it keeps in these; what these runs can do is shown by example.
 */
module WsSchedule {
  import opened Options
  import opened WsProtocol
  import opened WsInvariant
  import opened WsTheorems

  datatype Waiter = TheListener | TheTask(p: Pid) | TheSender(p: Pid) | TheCloser(c: Pid)

  // The protocol's state, the queue at the lock, and the coroutine that has found the lock free and is going on.
  datatype Schedule = Schedule(s: State, queue: seq<Waiter>, urgent: Option<Waiter>)

  // One segment of a coroutine, or a send() that finds the lock taken and joins the queue.
  datatype Move = Step(e: Event) | QueueSend(p: Pid)

  function MoverOf(e: Event): Waiter {
    match e
    case OfListener(_) => TheListener
    case Send(p) => TheSender(p)
    case SendDone(p, _) => TheSender(p)
    case OfHeartbeat(p, _) => TheTask(p)
    case OfReconnect(p, _) => TheTask(p)
    case OfCloser(c, _) => TheCloser(c)
  }

  /** The segments that begin by taking the lock. */
  predicate TakesLock(e: Event) {
    match e
    case OfListener(l) => l.ConnectGranted? || l.ReceiveTurn?
    case Send(_) => true
    case SendDone(_, _) => false
    case OfHeartbeat(_, h) => h.HeartbeatCheck? || h.HeartbeatSend?
    case OfReconnect(_, r) => r.ReconnectEnter? || r.ReconnectTurn? || r.InstallTurn? || r.FailureTurn? || r.FinalTurn?
    case OfCloser(_, c) => c.CloseTurn?
  }

  predicate TaskWants(t: Task) {
    t.RWantEnter? || t.RWantTurn? || t.RWantInstall? || t.RWantFailure? || t.RWantFinal? || t.HWantCheck? || t.HWantSend?
  }

  /** The coroutine is at `async with` the lock. */
  predicate Wants(s: State, w: Waiter) {
    match w
    case TheListener => s.listener.WantConnect? || s.listener.WantCheck?
    case TheTask(p) => p in s.tasks && TaskWants(s.tasks[p])
    case TheSender(_) => false
    case TheCloser(c) => c in s.closers && s.closers[c].WantClose?
  }

  function Without(queue: seq<Waiter>, w: Waiter): seq<Waiter> {
    if queue == [] then [] else (if queue[0] == w then [] else [queue[0]]) + Without(queue[1..], w)
  }

  /** A coroutine that comes to the lock now need not wait. */
  predicate FreeFor(f: Schedule, w: Waiter) {
    f.s.lock.Free? && Without(f.queue, w) == []
  }

  predicate MayStep(f: Schedule, e: Event) {
    && Enabled(f.s, e)
    && (if f.urgent.Some? then TakesLock(e) && f.urgent == Some(MoverOf(e))
        else if TakesLock(e) then (f.queue != [] && f.queue[0] == MoverOf(e)) || (e.Send? && FreeFor(f, MoverOf(e)))
        else e == OfListener(Listen) && f.s.lock.Free? ==> f.queue == [])
  }

  predicate Possible(f: Schedule, m: Move) {
    match m
    case Step(e) => MayStep(f, e)
    case QueueSend(p) => f.urgent.None? && !FreeFor(f, TheSender(p)) && TheSender(p) !in f.queue && p !in f.s.senders
  }

  /** After its segment the coroutine is at the lock again, in the queue or not at all. */
  function Moved(f: Schedule, m: Move): Schedule
    requires Possible(f, m)
  {
    match m
    case QueueSend(p) => f.(queue := f.queue + [TheSender(p)])
    case Step(e) =>
      var w := MoverOf(e);
      var s := Next(f.s, e);
      var rest := Without(f.queue, w);
      if !Wants(s, w) then Schedule(s, rest, None)
      else if s.lock.Free? && rest == [] then Schedule(s, [], Some(w))
      else Schedule(s, rest + [w], None)
  }

  function Begin(maxAttempts: int): Schedule {
    Schedule(Init(maxAttempts), [], None)
  }

  predicate LegalMoves(f: Schedule, ms: seq<Move>)
    decreases |ms|
  {
    ms == [] || (Possible(f, ms[0]) && LegalMoves(Moved(f, ms[0]), ms[1..]))
  }

  function Carried(f: Schedule, ms: seq<Move>): Schedule
    requires LegalMoves(f, ms)
    decreases |ms|
  {
    if ms == [] then f else Carried(Moved(f, ms[0]), ms[1..])
  }

  /** Some moves lead from one to the other. */
  ghost predicate Leads(f: Schedule, g: Schedule) {
    exists ms: seq<Move> :: LegalMoves(f, ms) && Carried(f, ms) == g
  }

  ghost predicate Occurs(f: Schedule) {
    exists maxAttempts: int :: Leads(Begin(maxAttempts), f)
  }

  lemma {:induction false} MovesAppend(f: Schedule, ms: seq<Move>, m: Move)
    requires LegalMoves(f, ms) && Possible(Carried(f, ms), m)
    ensures LegalMoves(f, ms + [m]) && Carried(f, ms + [m]) == Moved(Carried(f, ms), m)
    decreases |ms|
  {
    hide Possible, Moved;
    if ms == [] {
      assert [m][1..] == [] && ms + [m] == [m];
    } else {
      MovesAppend(Moved(f, ms[0]), ms[1..], m);
      assert (ms + [m])[1..] == ms[1..] + [m];
    }
  }

  lemma LeadsNext(f: Schedule, g: Schedule, m: Move)
    requires Leads(f, g) && Possible(g, m)
    ensures Leads(f, Moved(g, m))
  {
    hide Possible, Moved;
    var ms :| LegalMoves(f, ms) && Carried(f, ms) == g;
    MovesAppend(f, ms, m);
  }

  lemma LeadsNowhere(f: Schedule)
    ensures Leads(f, f)
  {
    assert LegalMoves(f, []) && Carried(f, []) == f;
  }

  lemma OccursNext(f: Schedule, m: Move)
    requires Occurs(f) && Possible(f, m)
    ensures Occurs(Moved(f, m))
  {
    hide Possible, Moved, Leads;
    var maxAttempts :| Leads(Begin(maxAttempts), f);
    LeadsNext(Begin(maxAttempts), f, m);
  }

  lemma {:induction false} OccursAlong(f: Schedule, ms: seq<Move>)
    requires Occurs(f) && LegalMoves(f, ms)
    ensures Occurs(Carried(f, ms))
    decreases |ms|
  {
    hide Possible, Moved, Occurs;
    if ms != [] {
      OccursNext(f, ms[0]);
      OccursAlong(Moved(f, ms[0]), ms[1..]);
    }
  }

  lemma {:induction false} MovesReach(f: Schedule, ms: seq<Move>)
    requires Reachable(f.s) && LegalMoves(f, ms)
    ensures Reachable(Carried(f, ms).s)
    decreases |ms|
  {
    hide Next, Enabled, Reachable;
    if ms != [] {
      if ms[0].Step? { ReachableStep(f.s, ms[0].e); }
      MovesReach(Moved(f, ms[0]), ms[1..]);
    }
  }

  /** The event loop does nothing the protocol does not do, so the protocol's theorems hold of it. */
  lemma OccursIsReachable(f: Schedule)
    requires Occurs(f)
    ensures Reachable(f.s)
  {
    var maxAttempts :| Leads(Begin(maxAttempts), f);
    var ms :| LegalMoves(Begin(maxAttempts), ms) && Carried(Begin(maxAttempts), ms) == f;
    ReachableInit(maxAttempts);
    MovesReach(Begin(maxAttempts), ms);
  }

  // ---------- the fate of a socket just opened ----------

  /** Closed on request or installed: nobody can drop it any more. */
  predicate Settled(s: State, k: Socket) {
    k in s.closeRequested || s.ws == Some(k)
  }

  lemma ListenerSettles(s: State, e: ListenerEvent, k: Socket)
    requires ListenerEnabled(s, e) && Settled(s, k)
    requires s.listener.Opening? ==> s.ws.None?
    ensures Settled(ListenerNext(s, e), k)
  {
    match e
    case Listen =>
    case ConnectGranted =>
    case NapOver =>
    case ConnectFailed =>
    case ConnectOpened =>
    case StaleConnectClosed(_) =>
    case ListenerHeartbeatGone =>
    case ReceiveTurn =>
    case MessageArrived =>
    case MessageHandled =>
    case ReceiveClosed =>
    case ReceiveError =>
    case PauseOver =>
    case ReconnectAwaited(_) =>
    case CancelListener =>
  }

  lemma ReconnectSettles(s: State, p: Pid, e: ReconnectEvent, k: Socket)
    requires ReconnectEnabled(s, p, e) && Settled(s, k)
    requires s.tasks[p].RWantInstall? ==> s.ws.None?
    ensures Settled(ReconnectNext(s, p, e), k)
  {
    match e
    case ReconnectBegin =>
    case ReconnectEnter =>
    case ReconnectTurn =>
    case OldClosed =>
    case AttemptFailed =>
    case AttemptOpened =>
    case InstallTurn =>
    case StaleClosed(_) =>
    case FailureTurn =>
    case SleepOver =>
    case OldHeartbeatGone =>
    case FinalTurn =>
    case CancelReconnect =>
  }

  lemma CloserSettles(s: State, c: Pid, e: CloserEvent, k: Socket)
    requires CloserEnabled(s, c, e) && Settled(s, k)
    requires c in s.closers && s.closers[c].ClosingSocket? && s.ws.Some? ==> s.ws.value in s.closeRequested
    ensures Settled(CloserNext(s, c, e), k)
  {
  }

  lemma StepSettles(s: State, e: Event, k: Socket)
    requires Inv(s) && Enabled(s, e) && Settled(s, k)
    ensures Settled(Next(s, e), k)
  {
    match e
    case OfListener(l) => ListenerSettles(s, l, k);
    case Send(p) => SenderFrame(s, p, true);
    case SendDone(p, ok) => SenderFrame(s, p, ok);
    case OfHeartbeat(p, h) => HeartbeatFrame(s, p, h);
    case OfReconnect(p, r) => assert TaskFits(s, s.tasks[p]); ReconnectSettles(s, p, r, k);
    case OfCloser(c, d) => CloserSettles(s, c, d, k);
  }

  lemma {:induction false} SettledForever(f: Schedule, ms: seq<Move>, k: Socket)
    requires Inv(f.s) && LegalMoves(f, ms) && Settled(f.s, k)
    ensures k !in Lost(Carried(f, ms).s)
    decreases |ms|
  {
    if ms != [] {
      hide Next, Enabled, Inv, Settled, Lost;
      if ms[0].Step? {
        StepSettles(f.s, ms[0].e, k);
        StepKeepsInv(f.s, ms[0].e);
      }
      SettledForever(Moved(f, ms[0]), ms[1..], k);
    }
  }

  function Dialled(p: Pid): Move {
    Step(OfReconnect(p, AttemptOpened))
  }

  /** The task at the lock with its new socket, whether it has to wait there or not. */
  ghost predicate AtLockWith(f: Schedule, g: Schedule, p: Pid) {
    && p in g.s.tasks && g.s.tasks[p].RWantInstall? && g.s.tasks[p].socket == |f.s.sockets|
    && g.s == At(f.s.(sockets := g.s.sockets), p, g.s.tasks[p])
    && g.urgent == if FreeFor(f, TheTask(p)) then Some(TheTask(p)) else None
  }

  lemma Opened(f: Schedule, p: Pid)
    requires Possible(f, Dialled(p))
    ensures AtLockWith(f, Moved(f, Dialled(p)), p)
  {
  }

  lemma OpenedInv(f: Schedule, p: Pid)
    requires Occurs(f) && Possible(f, Dialled(p))
    ensures Inv(Moved(f, Dialled(p)).s) && f.s.reconnectTask == Some(p)
  {
    OccursIsReachable(f);
    ReachableInv(f.s);
    MovedState(f, Dialled(p));
    StepKeepsInv(f.s, Dialled(p).e);
    assert IsReconnect(f.s.tasks[p]);
    hide AttemptsOk, ClosersOk, HistoryOk, Conserved, InstalledOk, Increasing, TaskLock, CloserLock, ListenerOk, Moved;
  }

  lemma InstallSettles(g: Schedule, p: Pid, m: Move)
    requires p in g.s.tasks && g.s.tasks[p].RWantInstall? && g.urgent == Some(TheTask(p)) && Possible(g, m)
    ensures m == Step(OfReconnect(p, InstallTurn)) && Settled(Moved(g, m).s, g.s.tasks[p].socket)
  {
  }

  /** If the task need not wait when its socket opens, that socket is never lost, whatever happens afterwards. */
  lemma FreeOpeningIsSafe(f: Schedule, p: Pid, ms: seq<Move>)
    requires Occurs(f) && Possible(f, Dialled(p)) && FreeFor(f, TheTask(p)) && LegalMoves(Moved(f, Dialled(p)), ms)
    ensures |f.s.sockets| !in Lost(Carried(Moved(f, Dialled(p)), ms).s)
  {
    Opened(f, p);
    OpenedInv(f, p);
    var g := Moved(f, Dialled(p));
    hide Occurs, Inv, FreeFor;
    if ms != [] {
      InstallSettles(g, p, ms[0]);
      StepKeepsInv(g.s, ms[0].e);
      hide Possible, Moved, Lost, Settled;
      assert Moved(g, ms[0]).s == Next(g.s, ms[0].e) by { MovedState(g, ms[0]); }
      SettledForever(Moved(g, ms[0]), ms[1..], |f.s.sockets|);
    }
  }

  lemma MovedState(g: Schedule, m: Move)
    requires Possible(g, m) && m.Step?
    ensures Moved(g, m).s == Next(g.s, m.e)
  {
  }

  lemma {:induction false} Bound(keys: set<Pid>) returns (b: Pid)
    ensures forall k | k in keys :: k < b
    decreases |keys|
  {
    if keys == {} { return 0; }
    var x :| x in keys;
    b := Bound(keys - {x});
    assert keys == keys - {x} + {x};
    if b <= x { b := x + 1; }
  }

  /** A disconnect() that finds the task waiting at the lock cancels it, and its socket is lost. */
  lemma WaitingSocketIsLost(g: Schedule, p: Pid, c: Pid)
    requires Inv(g.s) && p in g.s.tasks && g.s.tasks[p].RWantInstall? && g.s.reconnectTask == Some(p)
    requires g.urgent.None? && c !in g.s.closers
    ensures var ms := [Step(OfCloser(c, Disconnect)), Step(OfReconnect(p, CancelReconnect))];
      LegalMoves(g, ms) && g.s.tasks[p].socket in Lost(Carried(g, ms).s)
  {
    var ms := [Step(OfCloser(c, Disconnect)), Step(OfReconnect(p, CancelReconnect))];
    assert TaskFits(g.s, g.s.tasks[p]);
    hide Inv;
    var g1 := Moved(g, ms[0]);
    assert g1.s.tasks == g.s.tasks && p in g1.s.cancelled && g1.urgent.None?;
    var g2 := Moved(g1, ms[1]);
    TwoMoves(g, ms[0], ms[1]);
  }

  lemma TwoMoves(f: Schedule, first: Move, second: Move)
    requires Possible(f, first) && Possible(Moved(f, first), second)
    ensures LegalMoves(f, [first, second]) && Carried(f, [first, second]) == Moved(Moved(f, first), second)
  {
    hide Possible, Moved;
    var g := Moved(f, first);
    assert [first, second][1..] == [second] && [second][1..] == [];
    assert LegalMoves(g, [second]) && Carried(g, [second]) == Moved(g, second);
    assert Carried(f, [first, second]) == Carried(g, [first, second][1..]);
  }

  /**
   A socket the reconnect task has just opened can be lost exactly when, at that moment, the lock is taken or
   somebody else waits for it.
   */
  lemma OpenedSocketCanBeLostExactly(f: Schedule, p: Pid)
    requires Occurs(f) && Possible(f, Dialled(p))
    ensures var g := Moved(f, Dialled(p));
      (exists ms :: LegalMoves(g, ms) && |f.s.sockets| in Lost(Carried(g, ms).s)) <==> !FreeFor(f, TheTask(p))
  {
    var g := Moved(f, Dialled(p));
    var k := |f.s.sockets|;
    Opened(f, p);
    OpenedInv(f, p);
    hide Lost, Moved, Possible, Occurs, Inv, FreeFor, LegalMoves, Carried;
    if FreeFor(f, TheTask(p)) {
      forall ms | LegalMoves(g, ms)
        ensures k !in Lost(Carried(g, ms).s)
      {
        FreeOpeningIsSafe(f, p, ms);
      }
    } else {
      var c := Bound(g.s.closers.Keys);
      WaitingSocketIsLost(g, p, c);
    }
  }

  // ---------- runs of the event loop ----------

  /** listen() has dialled and nobody else has begun. */
  lemma StartedClient() returns (f: Schedule)
    ensures Occurs(f) && f.queue == [] && f.urgent.None?
    ensures f.s == State(true, Connecting, None, 1, ByListener, None, None, 10,
                         Opening(1), map[], {}, 0, map[], map[], [], {}, {})
  {
    LeadsNowhere(Begin(10));
    assert Occurs(Begin(10));
    hide Occurs;
    var listen := Step(OfListener(Listen));
    OccursNext(Begin(10), listen);
    f := Moved(Begin(10), listen);
  }

  /** The network has answered, and the listener goes on to its loop. */
  lemma AnsweredClient() returns (f: Schedule)
    ensures Occurs(f) && f.queue == [] && f.urgent == Some(TheListener)
    ensures f.s == State(true, Connected, Some(0), 1, Free, None, Some(0), 10,
                         WantCheck, map[0 := HNew], {}, 1, map[], map[], [1], {}, {})
  {
    hide Occurs;
    f := StartedClient();
    var answer := Step(OfListener(ConnectOpened));
    OccursNext(f, answer);
    f := Moved(f, answer);
  }

  /** The connected client all the runs below begin with: socket 0, heartbeat task 0, nobody at the lock. */
  lemma ConnectedClient() returns (f: Schedule)
    ensures Occurs(f) && f.queue == [] && f.urgent.None?
    ensures f.s == State(true, Connected, Some(0), 1, Free, None, Some(0), 10,
                         Receiving(0), map[0 := HSleeping], {}, 1, map[], map[], [1], {}, {})
  {
    hide Occurs;
    f := AnsweredClient();
    var turn := Step(OfListener(ReceiveTurn));
    OccursNext(f, turn);
    f := Moved(f, turn);
    var beat := Step(OfHeartbeat(0, HeartbeatBegin));
    OccursNext(f, beat);
    f := Moved(f, beat);
  }

  /** A reconnect task goes from its start to closing the previous socket, without waiting for the lock. */
  lemma Retired(f0: Schedule, p: Pid) returns (f: Schedule)
    requires Occurs(f0) && f0.queue == [] && f0.urgent.None?
    requires f0.s.running && f0.s.lock.Free? && f0.s.conn.Connected? && f0.s.maxAttempts > 0 && f0.s.ws.Some?
    requires p in f0.s.tasks && f0.s.tasks[p].RNew?
    ensures Occurs(f) && f.queue == [] && f.urgent.None?
    ensures var s := f0.s;
      f.s == At(s.(conn := Reconnecting, ws := None, closeRequested := s.closeRequested + {s.ws.value}, lock := ByTask(p)),
                p, RClosingOld(1, s.ws.value))
  {
    hide Occurs;
    f := Entered(f0, p);
    var turn := Step(OfReconnect(p, ReconnectTurn));
    OccursNext(f, turn);
    f := Moved(f, turn);
  }

  lemma Entered(f0: Schedule, p: Pid) returns (f: Schedule)
    requires Occurs(f0) && f0.queue == [] && f0.urgent.None?
    requires f0.s.running && f0.s.lock.Free? && f0.s.conn.Connected? && f0.s.maxAttempts > 0
    requires p in f0.s.tasks && f0.s.tasks[p].RNew?
    ensures Occurs(f) && f.queue == [] && f.urgent == Some(TheTask(p))
    ensures f.s == At(f0.s.(conn := Reconnecting), p, RWantTurn(1))
  {
    hide Occurs;
    var begin := Step(OfReconnect(p, ReconnectBegin));
    OccursNext(f0, begin);
    f := Moved(f0, begin);
    var enter := Step(OfReconnect(p, ReconnectEnter));
    OccursNext(f, enter);
    f := Moved(f, enter);
  }

  /** It lets the lock go and dials. Whoever queued meanwhile is still in the queue. */
  lemma Dialling(f0: Schedule, p: Pid) returns (f: Schedule)
    requires Occurs(f0) && f0.urgent.None? && TheTask(p) !in f0.queue
    requires f0.s.running && p in f0.s.tasks && f0.s.tasks[p].RClosingOld?
    ensures Occurs(f) && f.queue == f0.queue && f.urgent.None?
    ensures f.s == At(f0.s.(conn := Connecting, wsId := f0.s.wsId + 1, lock := Free), p,
                      ROpening(f0.s.tasks[p].attempt, f0.s.wsId + 1))
  {
    hide Occurs;
    var closed := Step(OfReconnect(p, OldClosed));
    OccursNext(f0, closed);
    f := Moved(f0, closed);
    NotThere(f0.queue, TheTask(p));
  }

  lemma {:induction false} NotThere(queue: seq<Waiter>, w: Waiter)
    requires w !in queue
    ensures Without(queue, w) == queue
  {
    if queue != [] { NotThere(queue[1..], w); }
  }

  // ---------- a socket is lost behind a queue of senders ----------

  /** Senders numbered from `low` up to `high`, in order. */
  function Senders(low: nat, high: nat): seq<Waiter>
    requires low <= high
  {
    seq(high - low, i requires 0 <= i < high - low => TheSender(low + i))
  }

  /** While somebody holds the lock any number of senders may queue. */
  lemma {:induction false} Queued(f0: Schedule, n: nat) returns (f: Schedule)
    requires Occurs(f0) && f0.queue == [] && f0.urgent.None? && !f0.s.lock.Free? && f0.s.senders == map[]
    ensures Occurs(f) && f == f0.(queue := Senders(0, n))
  {
    hide Occurs;
    if n == 0 {
      f := f0;
    } else {
      f := Queued(f0, n - 1);
      OccursNext(f, QueueSend(n - 1));
      f := Moved(f, QueueSend(n - 1));
    }
  }

  lemma OthersThanTheFirst(low: nat, high: nat)
    requires low < high
    ensures Senders(low, high)[0] == TheSender(low) && Without(Senders(low, high), TheSender(low)) == Senders(low + 1, high)
  {
    NotThere(Senders(low + 1, high), TheSender(low));
    assert Senders(low, high)[1..] == Senders(low + 1, high);
  }

  /** Every move is a queued sender's turn at the lock. */
  predicate OnlySends(ms: seq<Move>) {
    forall m | m in ms :: m.Step? && m.e.Send?
  }

  /** On a client that is not connected a sender's turn changes nothing but the queue. */
  lemma SenderServed(f: Schedule, low: nat, high: nat)
    requires low < high && f.queue == Senders(low, high) && f.urgent.None? && f.s.lock.Free?
    requires f.s.senders == map[] && !f.s.conn.Connected?
    ensures Possible(f, Step(Send(low))) && Moved(f, Step(Send(low))) == f.(queue := Senders(low + 1, high))
  {
    OthersThanTheFirst(low, high);
  }

  lemma {:induction false} Served(f: Schedule, low: nat, mid: nat, high: nat) returns (ms: seq<Move>)
    requires low <= mid <= high && f.queue == Senders(low, high) && f.urgent.None? && f.s.lock.Free?
    requires f.s.senders == map[] && !f.s.conn.Connected?
    ensures LegalMoves(f, ms) && |ms| == mid - low && OnlySends(ms) && Carried(f, ms) == f.(queue := Senders(mid, high))
    decreases mid - low
  {
    hide Possible, Moved;
    if low == mid {
      ms := [];
    } else {
      SenderServed(f, low, high);
      var rest := Served(f.(queue := Senders(low + 1, high)), low + 1, mid, high);
      ms := [Step(Send(low))] + rest;
      assert ms[1..] == rest;
    }
  }

  /** The dial is pending, and `n` senders are at the lock. */
  function DialPending(n: nat): Schedule {
    Schedule(State(true, Connecting, None, 2, Free, Some(1), Some(0), 10,
                   AwaitingReconnect(1), map[0 := HSleeping, 1 := ROpening(1, 2)], {}, 2, map[], map[], [1], {0}, {}),
             Senders(0, n), None)
  }

  lemma DialPendingOccurs(n: nat)
    ensures Occurs(DialPending(n))
  {
    hide Occurs;
    var f := ConnectedClient();
    var broken := Step(OfListener(ReceiveClosed));
    OccursNext(f, broken);
    f := Moved(f, broken);
    f := Retired(f, 1);
    f := Queued(f, n);
    f := Dialling(f, 1);
    hide Senders;
    assert f == DialPending(n);
  }

  lemma WithoutOf(a: Waiter, b: Waiter, w: Waiter)
    ensures Without([a], w) == if a == w then [] else [a]
    ensures a != w && b != w ==> Without([a, b], w) == [a, b]
    ensures a == w && b != w ==> Without([a, b], w) == [b]
    ensures a != w && b == w ==> Without([a, b], w) == [a]
  {
    assert [a][1..] == [] && [a, b][1..] == [b] && [b][1..] == [];
  }

  /** The socket opens, disconnect() comes, and the waiting task is cancelled. */
  function Dropped(n: nat): Schedule {
    Schedule(State(false, Connecting, None, 2, Free, None, Some(0), 10,
                   AwaitingReconnect(1), map[0 := HSleeping], {}, 2, map[],
                   map[0 := StoppingReconnect(true, 1)], [1, 2], {0}, {1}),
             [TheSender(n)], None)
  }

  /** The same two moments earlier: the task at the lock with its socket, and disconnect() having asked it to stop. */
  function Waiting(n: nat): Schedule {
    Schedule(State(true, Connecting, None, 2, Free, Some(1), Some(0), 10,
                   AwaitingReconnect(1), map[0 := HSleeping, 1 := RWantInstall(1, 2, 1)], {}, 2, map[], map[], [1, 2], {0}, {}),
             [TheSender(n), TheTask(1)], None)
  }

  function Stopping(n: nat): Schedule {
    Schedule(Waiting(n).s.(running := false, cancelled := {1}, closers := map[0 := StoppingReconnect(true, 1)]),
             Waiting(n).queue, None)
  }

  lemma OpensBehind(f: Schedule, n: nat)
    requires f == DialPending(n + 1).(queue := [TheSender(n)])
    ensures Possible(f, Dialled(1)) && Moved(f, Dialled(1)) == Waiting(n)
  {
    WithoutOf(TheSender(n), TheTask(1), TheTask(1));
    hide Without;
    assert Moved(f, Dialled(1)).queue == [TheSender(n)] + [TheTask(1)];
  }

  lemma DisconnectCancels(n: nat)
    ensures var stop := Step(OfCloser(0, Disconnect)); Possible(Waiting(n), stop) && Moved(Waiting(n), stop) == Stopping(n)
  {
    WithoutOf(TheSender(n), TheTask(1), TheCloser(0));
    hide Without;
  }

  lemma CancelledTaskDrops(n: nat)
    ensures var cancel := Step(OfReconnect(1, CancelReconnect)); Possible(Stopping(n), cancel) && Moved(Stopping(n), cancel) == Dropped(n)
  {
    WithoutOf(TheSender(n), TheTask(1), TheTask(1));
    hide Without, DialPending, Closing;
    assert map[0 := HSleeping, 1 := RWantInstall(1, 2, 1)] - {1} == map[0 := HSleeping];
  }

  lemma DroppedBehind(n: nat)
    ensures Leads(Waiting(n), Dropped(n))
  {
    LeadsNowhere(Waiting(n));
    DisconnectCancels(n);
    CancelledTaskDrops(n);
    hide Leads, Possible, Moved, Waiting, Stopping, Dropped;
    LeadsNext(Waiting(n), Waiting(n), Step(OfCloser(0, Disconnect)));
    LeadsNext(Waiting(n), Stopping(n), Step(OfReconnect(1, CancelReconnect)));
  }

  /** disconnect() goes on: it stops the heartbeat loop and waits for its turn at the lock. */
  function Closing(n: nat, queue: seq<Waiter>): Schedule {
    Schedule(Dropped(n).s.(tasks := map[], closers := map[0 := WantClose(true)]), queue, None)
  }

  lemma HeartbeatAsked(n: nat)
    ensures var stopped := Step(OfCloser(0, ReconnectStopped));
      && Possible(Dropped(n), stopped)
      && Moved(Dropped(n), stopped) == Schedule(
           Dropped(n).s.(cancelled := {0}, closers := map[0 := StoppingHeartbeat(true, 0)]), [TheSender(n)], None)
  {
    WithoutOf(TheSender(n), TheCloser(0), TheCloser(0));
    hide Without;
  }

  lemma HeartbeatEnds(n: nat, f: Schedule)
    requires f == Schedule(Dropped(n).s.(cancelled := {0}, closers := map[0 := StoppingHeartbeat(true, 0)]), [TheSender(n)], None)
    ensures var cancel := Step(OfHeartbeat(0, CancelHeartbeat));
      && Possible(f, cancel)
      && Moved(f, cancel) == Schedule(
           Dropped(n).s.(tasks := map[], closers := map[0 := StoppingHeartbeat(true, 0)]), [TheSender(n)], None)
  {
    WithoutOf(TheSender(n), TheTask(0), TheTask(0));
    hide Without;
    assert map[0 := HSleeping] - {0} == map[];
  }

  lemma HeartbeatCancelled(n: nat) returns (h: Schedule)
    ensures Leads(Dropped(n), h) && h.queue == [TheSender(n)] && h.urgent.None?
    ensures h.s == Dropped(n).s.(tasks := map[], closers := map[0 := StoppingHeartbeat(true, 0)])
  {
    LeadsNowhere(Dropped(n));
    HeartbeatAsked(n);
    var stopped, cancel := Step(OfCloser(0, ReconnectStopped)), Step(OfHeartbeat(0, CancelHeartbeat));
    h := Moved(Dropped(n), stopped);
    HeartbeatEnds(n, h);
    hide Leads, Possible, Moved, Dropped;
    LeadsNext(Dropped(n), Dropped(n), stopped);
    LeadsNext(Dropped(n), h, cancel);
    h := Moved(h, cancel);
  }

  lemma StoppedAfter(n: nat)
    ensures Leads(Dropped(n), Closing(n, [TheSender(n), TheCloser(0)]))
  {
    var h := HeartbeatCancelled(n);
    WithoutOf(TheSender(n), TheCloser(0), TheCloser(0));
    hide Leads, Without;
    var over := Step(OfCloser(0, HeartbeatStopped));
    LeadsNext(Dropped(n), h, over);
    assert Moved(h, over).queue == [TheSender(n)] + [TheCloser(0)];
  }

  /** The sender's turn comes and goes, then disconnect()'s own, and it returns. */
  lemma SenderGone(n: nat)
    ensures var send := Step(Send(n)); var h := Closing(n, [TheSender(n), TheCloser(0)]);
      Possible(h, send) && Moved(h, send) == Closing(n, [TheCloser(0)])
  {
    WithoutOf(TheSender(n), TheCloser(0), TheSender(n));
    hide Without;
  }

  lemma CloserReturns(n: nat)
    ensures var close := Step(OfCloser(0, CloseTurn)); var h := Closing(n, [TheCloser(0)]);
      Possible(h, close) && Left(Moved(h, close).s) && Lost(Moved(h, close).s) == {1}
  {
    WithoutOf(TheCloser(0), TheCloser(0), TheCloser(0));
    hide Without;
    var t := Moved(Closing(n, [TheCloser(0)]), Step(OfCloser(0, CloseTurn))).s;
    assert t == Dropped(n).s.(tasks := map[], closers := map[], conn := Disconnected);
    hide Moved;
    assert forall k: Socket :: !Live(t, k);
  }

  lemma ReturnedAfter(n: nat) returns (h: Schedule)
    ensures Leads(Dropped(n), h) && Left(h.s) && Lost(h.s) == {1}
  {
    StoppedAfter(n);
    SenderGone(n);
    CloserReturns(n);
    hide Leads, Possible, Moved, Closing, Dropped, Left, Lost;
    LeadsNext(Dropped(n), Closing(n, [TheSender(n), TheCloser(0)]), Step(Send(n)));
    LeadsNext(Dropped(n), Closing(n, [TheCloser(0)]), Step(OfCloser(0, CloseTurn)));
    h := Moved(Closing(n, [TheCloser(0)]), Step(OfCloser(0, CloseTurn)));
  }

  lemma LeadsOn(f: Schedule, g: Schedule, h: Schedule)
    requires Leads(f, g) && Leads(g, h)
    ensures Leads(f, h)
  {
    var ms :| LegalMoves(g, ms) && Carried(g, ms) == h;
    LeadsAlong(f, g, ms);
  }

  lemma {:induction false} LeadsAlong(f: Schedule, g: Schedule, ms: seq<Move>)
    requires Leads(f, g) && LegalMoves(g, ms)
    ensures Leads(f, Carried(g, ms))
    decreases |ms|
  {
    hide Leads, Possible, Moved;
    if ms != [] {
      LeadsNext(f, g, ms[0]);
      LeadsAlong(f, Moved(g, ms[0]), ms[1..]);
    }
  }

  /**
   However many turns at the lock go by while a dial is pending, enough senders may have queued before it: so many
   turns later the socket opens behind one more sender, disconnect() cancels the waiting task and returns, and the
   socket is open with nobody left to close it.
   */
  lemma ASocketCanBeLost(turns: nat)
    ensures exists f, ms, h ::
      && Occurs(f) && 1 in f.s.tasks && f.s.tasks[1].ROpening?
      && LegalMoves(f, ms) && |ms| == turns && OnlySends(ms) && Possible(Carried(f, ms), Dialled(1))
      && Leads(Moved(Carried(f, ms), Dialled(1)), h) && Left(h.s) && Lost(h.s) == {1}
  {
    var f := DialPending(turns + 1);
    DialPendingOccurs(turns + 1);
    var ms := Served(f, 0, turns, turns + 1);
    assert Senders(turns, turns + 1) == [TheSender(turns)];
    OpensBehind(Carried(f, ms), turns);
    DroppedBehind(turns);
    var h := ReturnedAfter(turns);
    LeadsOn(Waiting(turns), Dropped(turns), h);
  }

  // ---------- a client that is connected and deaf ----------

  /** A failed send while a message is being handled: the reconnect task has closed the old socket and dials. */
  lemma DialWhileHandling() returns (f: Schedule)
    ensures Occurs(f) && f.queue == [] && f.urgent.None?
    ensures f.s == State(true, Connecting, None, 2, Free, Some(1), Some(0), 10,
                         Handling, map[0 := HSleeping, 1 := ROpening(1, 2)], {}, 2, map[], map[], [1], {0}, {})
  {
    hide Occurs;
    f := FailedWhileHandling();
    f := Retired(f, 1);
    f := Dialling(f, 1);
  }

  lemma FailedWhileHandling() returns (f: Schedule)
    ensures Occurs(f) && f.queue == [] && f.urgent.None?
    ensures f.s == State(true, Connected, Some(0), 1, Free, Some(1), Some(0), 10,
                         Handling, map[0 := HSleeping, 1 := RNew], {}, 2, map[], map[], [1], {}, {})
  {
    hide Occurs;
    f := ConnectedClient();
    var message := Step(OfListener(MessageArrived));
    OccursNext(f, message);
    f := Moved(f, message);
    var send := Step(Send(0));
    OccursNext(f, send);
    f := Moved(f, send);
    var failure := Step(SendDone(0, false));
    OccursNext(f, failure);
    f := Moved(f, failure);
  }

  /** The handler is done while the dial is pending: the listener finds the client not connected and ends. */
  lemma EndedWhileDialling() returns (f: Schedule)
    ensures Occurs(f) && f.queue == [] && f.urgent.None?
    ensures f.s == State(true, Connecting, None, 2, Free, Some(1), Some(0), 10,
                         Ended, map[0 := HSleeping, 1 := ROpening(1, 2)], {}, 2, map[], map[], [1], {0}, {})
  {
    hide Occurs;
    f := DialWhileHandling();
    var handled := Step(OfListener(MessageHandled));
    OccursNext(f, handled);
    f := Moved(f, handled);
    var turn := Step(OfListener(ReceiveTurn));
    OccursNext(f, turn);
    f := Moved(f, turn);
  }

  /** The dial succeeds with nobody at the lock: the socket is installed at once and the heartbeat loop replaced. */
  lemma Reinstalled(f0: Schedule, p: Pid, h: Pid) returns (f: Schedule)
    requires Occurs(f0) && f0.queue == [] && f0.urgent.None? && f0.s.running && f0.s.lock.Free? && f0.s.cancelled == {}
    requires p in f0.s.tasks && h in f0.s.tasks && h != p && f0.s.tasks[p].ROpening? && f0.s.tasks[p].id == f0.s.wsId
    requires f0.s.tasks[h].HSleeping? && f0.s.heartbeatTask == Some(h) && f0.s.reconnectTask == Some(p)
    ensures Occurs(f) && f.queue == [] && f.urgent.None?
    ensures f.s == f0.s.(ws := Some(|f0.s.sockets|), conn := Connected, sockets := f0.s.sockets + [f0.s.wsId], cancelled := {h},
                         tasks := f0.s.tasks[p := RReplacing(h)])
  {
    hide Occurs;
    OccursNext(f0, Dialled(p));
    f := Moved(f0, Dialled(p));
    var install := Step(OfReconnect(p, InstallTurn));
    OccursNext(f, install);
    f := Moved(f, install);
  }

  lemma LoopGone(f0: Schedule, p: Pid, h: Pid) returns (f: Schedule)
    requires Occurs(f0) && f0.queue == [] && f0.urgent.None? && f0.s.cancelled == {h} && h != p
    requires f0.s.tasks == map[h := HSleeping, p := RReplacing(h)]
    ensures Occurs(f) && f.queue == [] && f.urgent.None?
    ensures f.s == f0.s.(tasks := map[p := RReplacing(h)], cancelled := {})
  {
    hide Occurs;
    var cancel := Step(OfHeartbeat(h, CancelHeartbeat));
    OccursNext(f0, cancel);
    f := Moved(f0, cancel);
    assert f.s.tasks == map[p := RReplacing(h)] && f.s.cancelled == {};
  }

  lemma Replaced(f0: Schedule, p: Pid, h: Pid) returns (f: Schedule)
    requires Occurs(f0) && f0.queue == [] && f0.urgent.None? && f0.s.reconnectTask == Some(p) && f0.s.cancelled == {h} && h != p
    requires f0.s.tasks == map[h := HSleeping, p := RReplacing(h)] && f0.s.nextPid != p
    ensures Occurs(f) && f.queue == [] && f.urgent.None?
    ensures f.s == f0.s.(tasks := map[f0.s.nextPid := HNew], heartbeatTask := Some(f0.s.nextPid), nextPid := f0.s.nextPid + 1,
                         reconnectTask := None, cancelled := {})
  {
    hide Occurs;
    f := LoopGone(f0, p, h);
    var gone := Step(OfReconnect(p, OldHeartbeatGone));
    OccursNext(f, gone);
    f := Moved(f, gone);
  }

  /** The client can be running and connected again with nobody left to receive and no recovery under way. */
  lemma ADeafClient()
    ensures exists f :: Occurs(f) && f.s.running && f.s.conn.Connected? && f.s.listener.Ended? && f.s.reconnectTask.None?
  {
    hide Occurs;
    var f := EndedWhileDialling();
    f := Reinstalled(f, 1, 0);
    f := Replaced(f, 1, 0);
  }

  // ---------- a healthy connection is retired ----------

  /** A message is on its way on socket 0 when that socket breaks; the client reconnects and receives on socket 1. */
  lemma RecoveredWithOldSend() returns (f: Schedule)
    ensures Occurs(f) && f.queue == [] && f.urgent.None?
    ensures f.s == State(true, Connected, Some(1), 2, Free, None, Some(2), 10,
                         Receiving(1), map[2 := HNew], {}, 3, map[0 := 0], map[], [1, 2], {0}, {})
  {
    hide Occurs;
    f := BrokenWithOldSend();
    f := Retired(f, 1);
    f := Dialling(f, 1);
    f := Reinstalled(f, 1, 0);
    f := Replaced(f, 1, 0);
    f := ReceivingAgain(f);
  }

  lemma BrokenWithOldSend() returns (f: Schedule)
    ensures Occurs(f) && f.queue == [] && f.urgent.None?
    ensures f.s == State(true, Connected, Some(0), 1, Free, Some(1), Some(0), 10,
                         AwaitingReconnect(1), map[0 := HSleeping, 1 := RNew], {}, 2, map[0 := 0], map[], [1], {}, {})
  {
    hide Occurs;
    f := ConnectedClient();
    var send := Step(Send(0));
    OccursNext(f, send);
    f := Moved(f, send);
    var broken := Step(OfListener(ReceiveClosed));
    OccursNext(f, broken);
    f := Moved(f, broken);
  }

  lemma ReceivingAgain(f0: Schedule) returns (f: Schedule)
    requires Occurs(f0) && f0.queue == [] && f0.urgent.None? && f0.s.running && f0.s.lock.Free? && f0.s.conn.Connected?
    requires f0.s.ws.Some? && f0.s.listener == AwaitingReconnect(1) && 1 !in f0.s.tasks
    ensures Occurs(f) && f.queue == [] && f.urgent.None? && f.s == f0.s.(listener := Receiving(f0.s.ws.value))
  {
    hide Occurs;
    var back := Step(OfListener(ReconnectAwaited(false)));
    OccursNext(f0, back);
    f := Moved(f0, back);
    var turn := Step(OfListener(ReceiveTurn));
    OccursNext(f, turn);
    f := Moved(f, turn);
  }

  /**
   When a send fails on a connected client without recovery under way, the installed socket is retired, whichever
   socket the send was on: send() keeps the number of its connection and never compares it.
   */
  lemma AnyFailureRetires(f: Schedule, p: Pid) returns (g: Schedule)
    requires Occurs(f) && f.queue == [] && f.urgent.None? && f.s.lock.Free? && f.s.running && f.s.maxAttempts > 0
    requires f.s.conn.Connected? && f.s.ws.Some? && !ReconnectAlive(f.s) && p in f.s.senders
    ensures Possible(f, Step(SendDone(p, false))) && Occurs(g)
    ensures g.s == At(SendDoneNext(f.s, p, false).(conn := Reconnecting, ws := None,
                        closeRequested := f.s.closeRequested + {f.s.ws.value}, lock := ByTask(f.s.nextPid)),
                      f.s.nextPid, RClosingOld(1, f.s.ws.value))
  {
    hide Occurs;
    var failure := Step(SendDone(p, false));
    OccursNext(f, failure);
    g := Retired(Moved(f, failure), f.s.nextPid);
  }

  /** So the failure of a send on socket 0, closed long ago, retires the healthy socket 1 the listener receives on. */
  lemma AHealthySocketIsRetired()
    ensures exists f, g ::
      && Occurs(f) && f.s.conn.Connected? && f.s.ws == Some(1) && f.s.listener == Receiving(1)
      && f.s.senders == map[0 := 0] && 0 in f.s.closeRequested && Possible(f, Step(SendDone(0, false)))
      && Occurs(g) && g.s.ws.None? && 1 in g.s.closeRequested && g.s.listener == Receiving(1)
  {
    hide Occurs;
    var f := RecoveredWithOldSend();
    var g := AnyFailureRetires(f, 0);
  }
}
