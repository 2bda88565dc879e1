/**
 One reconnect task inside the protocol and the loop of `ReconnectBudget`: in every run the task does what the loop
 does under a plan that gives its attempts the fates they have in the run, so the loop's budget binds the task.
 */
module WsCosts {
  import opened Options
  import opened ConfigCell
  import opened WsProtocol
  import opened WsInvariant
  import opened WsTheorems
  import B = ReconnectBudget

  // Who reconnects, what discovery would hear after each attempt, and the address the task begins with.
  datatype Setting = Setting(who: B.Identity, finds: B.Finds, start: string)

  /**
   What a task has done so far: the fates of the attempts it is through with, the address in force, and its acts.
   A failed attempt counts as DialFailed, whether it was the dial or closing a late socket that raised.
   */
  datatype Tally = Tally(fates: seq<B.Fate>, url: string, acts: seq<B.Act>, answered: bool)

  function NoTally(w: Setting): Tally {
    Tally([], w.start, [], false)
  }

  /** The acts with one more dial. */
  function WithDial(w: Setting, y: Tally): seq<B.Act> {
    y.acts + [B.Dialled(B.Url(w.who, y.url))]
  }

  function Failed(w: Setting, y: Tally): Tally {
    var attempt := |y.fates| + 1;
    Tally(y.fates + [B.DialFailed], B.LaterUrl(y.url, B.FoundAt(w.finds, attempt)),
          B.AskDiscovery(w.finds, attempt, WithDial(w, y)) + [B.Slept(B.Backoff(attempt))], false)
  }

  function Overtaken(w: Setting, y: Tally): Tally {
    y.(fates := y.fates + [B.Superseded], acts := WithDial(w, y))
  }

  function Answered(w: Setting, y: Tally): Tally {
    y.(fates := y.fates + [B.Installed], acts := WithDial(w, y), answered := true)
  }

  /** The tally after a step of the task. */
  function Tallied(w: Setting, y: Tally, s: State, p: Pid, e: ReconnectEvent): Tally
    requires ReconnectEnabled(s, p, e)
  {
    if e.FailureTurn? then Failed(w, y)
    else if e == StaleClosed(false) then Overtaken(w, y)
    else if e.InstallTurn? && s.tasks[p].id == s.wsId && s.running then Answered(w, y)
    else y
  }

  /** The tally of task p along a run. */
  function TallyAlong(w: Setting, y: Tally, s: State, p: Pid, es: seq<Event>): Tally
    requires Legal(s, es)
    decreases |es|
  {
    if es == [] then y
    else
      var e := es[0];
      TallyAlong(w, if e.OfReconnect? && e.p == p then Tallied(w, y, s, p, e.r) else y, Next(s, e), p, es[1..])
  }

  predicate Agrees(plan: B.Plan, fates: seq<B.Fate>) {
    forall i | 0 <= i < |fates| :: plan(i + 1) == fates[i]
  }

  /** Under every plan that agrees with the fates so far the loop does these acts first, or these and no others. */
  ghost predicate Follows(w: Setting, maxAttempts: int, y: Tally) {
    forall plan: B.Plan | Agrees(plan, y.fates) ::
      B.Loop(w.who, maxAttempts, plan, w.finds, 0, w.start, []) ==
      if y.answered then (y.acts, true) else B.Loop(w.who, maxAttempts, plan, w.finds, |y.fates|, y.url, y.acts)
  }

  /** How far the tally is, at each suspension point of the task. */
  predicate Matches(t: Task, y: Tally, maxAttempts: int) {
    && (t.RNew? || t.RWantEnter? ==> y.fates == [] && !y.answered)
    && (t.RWantFinal? ==> !y.answered)
    && (HasAttempt(t) ==>
          !y.answered && t.attempt <= maxAttempts && t.attempt == |y.fates| + if t.RSleeping? then 0 else 1)
  }

  /** Before the task has its connection every attempt has failed or been overtaken. */
  ghost predicate AllMissed(y: Tally) {
    !y.answered ==> forall fate | fate in y.fates :: fate == B.DialFailed || fate == B.Superseded
  }

  /** A task of a running client that gives up has made every attempt it is allowed. */
  predicate UsedUp(t: Task, y: Tally, running: bool, maxAttempts: int) {
    t.RWantFinal? && running ==> |y.fates| == if maxAttempts > 0 then maxAttempts else 0
  }

  ghost predicate Tracks(w: Setting, y: Tally, s: State, p: Pid) {
    && Follows(w, s.maxAttempts, y)
    && AllMissed(y)
    && (p >= s.nextPid ==> y == NoTally(w) && p !in s.tasks)
    && (p in s.tasks ==> Matches(s.tasks[p], y, s.maxAttempts) && UsedUp(s.tasks[p], y, s.running, s.maxAttempts))
  }

  // ---------- the loop ----------

  lemma AgreesMore(plan: B.Plan, fates: seq<B.Fate>, fate: B.Fate)
    requires Agrees(plan, fates + [fate])
    ensures Agrees(plan, fates) && plan(|fates| + 1) == fate
  {
    forall i | 0 <= i < |fates|
      ensures plan(i + 1) == fates[i]
    {
      assert (fates + [fate])[i] == fates[i];
    }
    assert (fates + [fate])[|fates|] == fate;
  }

  /** Each way an attempt can go is one turn of the loop. */
  lemma FailedFollows(w: Setting, maxAttempts: int, y: Tally)
    requires Follows(w, maxAttempts, y) && !y.answered && |y.fates| < maxAttempts
    ensures Follows(w, maxAttempts, Failed(w, y))
  {
    forall plan: B.Plan | Agrees(plan, Failed(w, y).fates)
      ensures B.Loop(w.who, maxAttempts, plan, w.finds, 0, w.start, [])
           == B.Loop(w.who, maxAttempts, plan, w.finds, |y.fates| + 1, Failed(w, y).url, Failed(w, y).acts)
    {
      AgreesMore(plan, y.fates, B.DialFailed);
    }
  }

  lemma OvertakenFollows(w: Setting, maxAttempts: int, y: Tally)
    requires Follows(w, maxAttempts, y) && !y.answered && |y.fates| < maxAttempts
    ensures Follows(w, maxAttempts, Overtaken(w, y))
  {
    forall plan: B.Plan | Agrees(plan, Overtaken(w, y).fates)
      ensures B.Loop(w.who, maxAttempts, plan, w.finds, 0, w.start, [])
           == B.Loop(w.who, maxAttempts, plan, w.finds, |y.fates| + 1, y.url, WithDial(w, y))
    {
      AgreesMore(plan, y.fates, B.Superseded);
    }
  }

  lemma AnsweredFollows(w: Setting, maxAttempts: int, y: Tally)
    requires Follows(w, maxAttempts, y) && !y.answered && |y.fates| < maxAttempts
    ensures Follows(w, maxAttempts, Answered(w, y))
  {
    forall plan: B.Plan | Agrees(plan, Answered(w, y).fates)
      ensures B.Loop(w.who, maxAttempts, plan, w.finds, 0, w.start, []) == (WithDial(w, y), true)
    {
      AgreesMore(plan, y.fates, B.Installed);
    }
  }

  // ---------- the steps ----------

  lemma TalliedCount(w: Setting, y: Tally, s: State, p: Pid, e: ReconnectEvent)
    requires ReconnectEnabled(s, p, e)
    ensures var z := Tallied(w, y, s, p, e);
      if e.FailureTurn? then |z.fates| == |y.fates| + 1 && !z.answered
      else if e == StaleClosed(false) then |z.fates| == |y.fates| + 1 && z.answered == y.answered
      else !(e.InstallTurn? && s.tasks[p].id == s.wsId && s.running) ==> z == y
  {
  }

  /** The steps that end no attempt. */
  predicate EndsNoAttempt(e: ReconnectEvent) {
    !e.FailureTurn? && !e.StaleClosed? && !e.InstallTurn?
  }

  lemma QuietStepMatches(y: Tally, s: State, p: Pid, e: ReconnectEvent)
    requires ReconnectEnabled(s, p, e) && Matches(s.tasks[p], y, s.maxAttempts) && EndsNoAttempt(e)
    ensures var t := ReconnectNext(s, p, e); p in t.tasks ==> Matches(t.tasks[p], y, s.maxAttempts)
  {
    match e
    case ReconnectBegin =>
    case ReconnectEnter =>
    case ReconnectTurn =>
    case OldClosed =>
    case AttemptFailed =>
    case AttemptOpened =>
    case SleepOver =>
    case OldHeartbeatGone =>
    case FinalTurn =>
    case CancelReconnect =>
  }

  lemma EndingStepMatches(y: Tally, z: Tally, s: State, p: Pid, e: ReconnectEvent)
    requires ReconnectEnabled(s, p, e) && Matches(s.tasks[p], y, s.maxAttempts) && !EndsNoAttempt(e)
    requires e.FailureTurn? || e == StaleClosed(false) ==> |z.fates| == |y.fates| + 1 && !z.answered
    requires e == StaleClosed(true) || (e.InstallTurn? && (s.tasks[p].id != s.wsId || !s.running)) ==> z == y
    ensures var t := ReconnectNext(s, p, e); p in t.tasks ==> Matches(t.tasks[p], z, s.maxAttempts)
  {
  }

  lemma OwnStepMatches(w: Setting, y: Tally, s: State, p: Pid, e: ReconnectEvent)
    requires ReconnectEnabled(s, p, e) && Matches(s.tasks[p], y, s.maxAttempts)
    ensures var t := ReconnectNext(s, p, e);
      p in t.tasks ==> Matches(t.tasks[p], Tallied(w, y, s, p, e), s.maxAttempts)
  {
    TalliedCount(w, y, s, p, e);
    hide Tallied, ReconnectNext;
    if EndsNoAttempt(e) {
      QuietStepMatches(y, s, p, e);
    } else {
      EndingStepMatches(y, Tallied(w, y, s, p, e), s, p, e);
    }
  }

  lemma OwnStepFollows(w: Setting, y: Tally, s: State, p: Pid, e: ReconnectEvent)
    requires ReconnectEnabled(s, p, e) && Matches(s.tasks[p], y, s.maxAttempts) && Follows(w, s.maxAttempts, y) && AllMissed(y)
    ensures Follows(w, s.maxAttempts, Tallied(w, y, s, p, e)) && AllMissed(Tallied(w, y, s, p, e))
  {
    hide Follows;
    if e.FailureTurn? { FailedFollows(w, s.maxAttempts, y); }
    else if e == StaleClosed(false) { OvertakenFollows(w, s.maxAttempts, y); }
    else if e.InstallTurn? { AnsweredFollows(w, s.maxAttempts, y); }
  }

  /** A step of anybody else leaves the task alone, or spawns it. */
  ghost predicate LeavesAlone(s: State, t: State, p: Pid) {
    && t.maxAttempts == s.maxAttempts && t.nextPid >= s.nextPid
    && (p in t.tasks ==> (p in s.tasks && t.tasks[p] == s.tasks[p]) || (p == s.nextPid && (t.tasks[p].RNew? || t.tasks[p].HNew?)))
    && (p in t.tasks && p !in s.tasks ==> p < t.nextPid)
  }

  lemma ListenerPids(s: State, e: ListenerEvent)
    requires ListenerEnabled(s, e)
    ensures var t := ListenerNext(s, e);
      t.nextPid >= s.nextPid && (t.nextPid == s.nextPid ==> t.tasks == s.tasks)
  {
    match e
    case Listen =>
    case ConnectGranted =>
    case NapOver =>
    case ConnectFailed =>
    case ConnectOpened =>
    case StaleConnectClosed(_) =>
    case ListenerHeartbeatGone =>
    case ReceiveTurn =>
    case MessageArrived =>
    case MessageHandled =>
    case ReceiveClosed =>
    case ReceiveError =>
    case PauseOver =>
    case ReconnectAwaited(_) =>
    case CancelListener =>
  }

  lemma ListenerLeaves(s: State, e: ListenerEvent, p: Pid)
    requires ListenerEnabled(s, e)
    ensures LeavesAlone(s, ListenerNext(s, e), p)
  {
    ListenerOnlySpawns(s, e);
    ListenerPids(s, e);
    hide ListenerNext;
  }

  lemma HeartbeatLeaves(s: State, q: Pid, e: HeartbeatEvent, p: Pid)
    requires HeartbeatEnabled(s, q, e) && p != q
    ensures LeavesAlone(s, HeartbeatNext(s, q, e), p)
  {
    match e
    case HeartbeatBegin =>
    case HeartbeatWake =>
    case HeartbeatCheck =>
    case HeartbeatSend =>
    case HeartbeatSent(ok) =>
    case CancelHeartbeat =>
  }

  lemma ReconnectLeaves(s: State, q: Pid, e: ReconnectEvent, p: Pid)
    requires ReconnectEnabled(s, q, e) && p != q
    ensures LeavesAlone(s, ReconnectNext(s, q, e), p)
  {
    match e
    case ReconnectBegin =>
    case ReconnectEnter =>
    case ReconnectTurn =>
    case OldClosed =>
    case AttemptFailed =>
    case AttemptOpened =>
    case InstallTurn =>
    case StaleClosed(_) =>
    case FailureTurn =>
    case SleepOver =>
    case OldHeartbeatGone =>
    case FinalTurn =>
    case CancelReconnect =>
  }

  lemma SenderLeaves(s: State, q: Pid, ok: bool, p: Pid)
    ensures LeavesAlone(s, SendNext(s, q), p) && LeavesAlone(s, SendDoneNext(s, q, ok), p)
  {
  }

  lemma CloserLeaves(s: State, c: Pid, e: CloserEvent, p: Pid)
    requires CloserEnabled(s, c, e)
    ensures LeavesAlone(s, CloserNext(s, c, e), p)
  {
  }

  lemma OthersLeave(s: State, e: Event, p: Pid)
    requires Enabled(s, e) && !(e.OfReconnect? && e.p == p) && !(e.OfHeartbeat? && e.p == p)
    ensures LeavesAlone(s, Next(s, e), p)
  {
    hide LeavesAlone;
    match e
    case OfListener(l) => ListenerLeaves(s, l, p);
    case Send(q) => SenderLeaves(s, q, true, p);
    case SendDone(q, ok) => SenderLeaves(s, q, ok, p);
    case OfHeartbeat(q, h) => HeartbeatLeaves(s, q, h, p);
    case OfReconnect(q, r) => ReconnectLeaves(s, q, r, p);
    case OfCloser(c, d) => CloserLeaves(s, c, d, p);
  }

  /** A heartbeat loop never becomes a reconnect task. */
  lemma HeartbeatStays(s: State, p: Pid, e: HeartbeatEvent)
    requires HeartbeatEnabled(s, p, e) && p < s.nextPid
    ensures var t := HeartbeatNext(s, p, e);
      && t.maxAttempts == s.maxAttempts && t.nextPid >= s.nextPid && (p in t.tasks ==> !IsReconnect(t.tasks[p]))
  {
    match e
    case HeartbeatBegin =>
    case HeartbeatWake =>
    case HeartbeatCheck =>
    case HeartbeatSend =>
    case HeartbeatSent(ok) =>
    case CancelHeartbeat =>
  }

  lemma OwnStepPids(s: State, p: Pid, e: ReconnectEvent)
    requires ReconnectEnabled(s, p, e)
    ensures ReconnectNext(s, p, e).nextPid >= s.nextPid && ReconnectNext(s, p, e).maxAttempts == s.maxAttempts
  {
    match e
    case ReconnectBegin =>
    case ReconnectEnter =>
    case ReconnectTurn =>
    case OldClosed =>
    case AttemptFailed =>
    case AttemptOpened =>
    case InstallTurn =>
    case StaleClosed(_) =>
    case FailureTurn =>
    case SleepOver =>
    case OldHeartbeatGone =>
    case FinalTurn =>
    case CancelReconnect =>
  }

  lemma OwnStepUsesUp(y: Tally, z: Tally, s: State, p: Pid, e: ReconnectEvent)
    requires ReconnectEnabled(s, p, e) && Matches(s.tasks[p], y, s.maxAttempts)
    requires if e == StaleClosed(false) then |z.fates| == |y.fates| + 1 else e.ReconnectEnter? || e.SleepOver? ==> z == y
    ensures var t := ReconnectNext(s, p, e); p in t.tasks ==> UsedUp(t.tasks[p], z, t.running, s.maxAttempts)
  {
    match e
    case ReconnectBegin =>
    case ReconnectEnter =>
    case ReconnectTurn =>
    case OldClosed =>
    case AttemptFailed =>
    case AttemptOpened =>
    case InstallTurn =>
    case StaleClosed(_) =>
    case FailureTurn =>
    case SleepOver =>
    case OldHeartbeatGone =>
    case FinalTurn =>
    case CancelReconnect =>
  }

  lemma ListenerStartsOnlyOnce(s: State, e: ListenerEvent)
    requires Inv(s) && ListenerEnabled(s, e) && s.tasks != map[]
    ensures ListenerNext(s, e).running == s.running
  {
  }

  /** Nothing starts the client while a task is alive. */
  lemma StartsOnlyOnce(s: State, e: Event)
    requires Inv(s) && Enabled(s, e) && s.tasks != map[]
    ensures Next(s, e).running ==> s.running
  {
    match e {
      case OfListener(l) => ListenerStartsOnlyOnce(s, l);
      case Send(p) => SenderFrame(s, p, true);
      case SendDone(p, ok) => SenderFrame(s, p, ok);
      case OfHeartbeat(p, h) => HeartbeatFrame(s, p, h);
      case OfReconnect(p, r) => ReconnectFrame(s, p, r);
      case OfCloser(c, d) => CloserOnlyCloses(s, c, d);
    }
    hide Inv, ListenerNext, SendNext, SendDoneNext, HeartbeatNext, ReconnectNext, CloserNext;
  }

  lemma StepTracks(w: Setting, y: Tally, s: State, p: Pid, e: Event)
    requires Inv(s) && Enabled(s, e) && Tracks(w, y, s, p)
    ensures Tracks(w, if e.OfReconnect? && e.p == p then Tallied(w, y, s, p, e.r) else y, Next(s, e), p)
  {
    hide Follows, Tallied, Inv, AllMissed;
    if s.tasks != map[] { StartsOnlyOnce(s, e); }
    if e.OfReconnect? && e.p == p {
      TalliedCount(w, y, s, p, e.r);
      OwnStepMatches(w, y, s, p, e.r);
      OwnStepUsesUp(y, Tallied(w, y, s, p, e.r), s, p, e.r);
      OwnStepFollows(w, y, s, p, e.r);
      OwnStepPids(s, p, e.r);
      hide ReconnectNext, Matches, UsedUp;
    } else if e.OfHeartbeat? && e.p == p {
      HeartbeatStays(s, p, e.h);
      hide HeartbeatNext;
    } else {
      OthersLeave(s, e, p);
      hide Next, Enabled;
    }
  }

  lemma {:induction false} RunTracks(w: Setting, y: Tally, s: State, p: Pid, es: seq<Event>)
    requires Inv(s) && Legal(s, es) && Tracks(w, y, s, p)
    ensures Tracks(w, TallyAlong(w, y, s, p, es), Run(s, es), p)
    decreases |es|
  {
    hide Tracks, Next, Tallied, Inv;
    if es != [] {
      var e := es[0];
      StepTracks(w, y, s, p, e);
      StepKeepsInv(s, e);
      RunTracks(w, if e.OfReconnect? && e.p == p then Tallied(w, y, s, p, e.r) else y, Next(s, e), p, es[1..]);
    }
  }

  // ---------- the budget ----------

  /** All the task has done: a dial whose outcome is still open counts. */
  function ActsSoFar(w: Setting, y: Tally, s: State, p: Pid): seq<B.Act> {
    if p in s.tasks && DialIsOut(s.tasks[p]) then WithDial(w, y) else y.acts
  }

  predicate DialIsOut(t: Task) {
    t.ROpening? || t.RWantInstall? || t.RClosingStale? || t.RWantFailure?
  }

  function PlanOf(fates: seq<B.Fate>, next: B.Fate): B.Plan {
    (n: nat) => if 1 <= n <= |fates| then fates[n - 1] else next
  }

  /** The acts so far are the whole loop's under a plan that agrees with the fates so far. */
  lemma ActsAreALoop(w: Setting, y: Tally, maxAttempts: int, dialOut: bool) returns (plan: B.Plan)
    requires Follows(w, maxAttempts, y) && (dialOut ==> !y.answered && |y.fates| < maxAttempts)
    ensures Agrees(plan, y.fates)
    ensures B.Loop(w.who, maxAttempts, plan, w.finds, 0, w.start, []).0 == if dialOut then WithDial(w, y) else y.acts
  {
    plan := PlanOf(y.fates, if dialOut then B.Installed else B.StoppedBefore);
    assert plan(|y.fates| + 1) == if dialOut then B.Installed else B.StoppedBefore;
  }

  /**
   In every run and for every task: what the reconnect task has done is what the loop does under a plan that gives
   its attempts the fates they had, so it has dialled at most n sockets, slept at most the backoff sum of n and asked
   discovery at most n / 3 times, n being the configured maximum; and every dial was to the latest address found.
   */
  lemma TaskWithinBudget(w: Setting, maxAttempts: int, es: seq<Event>, p: Pid)
    requires Legal(Init(maxAttempts), es)
    ensures var y := TallyAlong(w, NoTally(w), Init(maxAttempts), p, es);
      var acts := ActsSoFar(w, y, Run(Init(maxAttempts), es), p);
      && (exists plan: B.Plan :: Agrees(plan, y.fates) && acts == B.Loop(w.who, maxAttempts, plan, w.finds, 0, w.start, []).0)
      && B.Within(if maxAttempts > 0 then maxAttempts else 0, acts)
      && B.DialsAreFresh(w.who, w.start, acts)
  {
    var s, y := Run(Init(maxAttempts), es), TallyAlong(w, NoTally(w), Init(maxAttempts), p, es);
    InitInv(maxAttempts);
    assert Tracks(w, NoTally(w), Init(maxAttempts), p);
    RunTracks(w, NoTally(w), Init(maxAttempts), p, es);
    RunKeepsMax(Init(maxAttempts), es);
    var plan := ActsAreALoop(w, y, maxAttempts, p in s.tasks && DialIsOut(s.tasks[p]));
    hide B.Loop, Follows;
    B.LoopWithin(w.who, maxAttempts, plan, w.finds, 0, w.start, []);
    B.EveryDialIsFresh(w.who, maxAttempts, plan, w.finds, 0, w.start, []);
  }

  /**
   In every run: a reconnect task of a client that is still running gives up only when as many of its attempts have
   failed or been overtaken as the configured maximum allows.
   */
  lemma GivesUpExactlyAtTheMaximum(w: Setting, maxAttempts: int, es: seq<Event>, p: Pid)
    requires Legal(Init(maxAttempts), es)
    ensures var s := Run(Init(maxAttempts), es);
      var fates := TallyAlong(w, NoTally(w), Init(maxAttempts), p, es).fates;
      p in s.tasks && s.tasks[p].RWantFinal? && s.running ==>
        && |fates| == (if maxAttempts > 0 then maxAttempts else 0)
        && forall fate | fate in fates :: fate == B.DialFailed || fate == B.Superseded
  {
    InitInv(maxAttempts);
    assert Tracks(w, NoTally(w), Init(maxAttempts), p);
    RunTracks(w, NoTally(w), Init(maxAttempts), p, es);
    RunKeepsMax(Init(maxAttempts), es);
    hide Follows, Inv;
  }

  lemma RunKeepsMax(s: State, es: seq<Event>)
    requires Legal(s, es) && AttemptsWithin(s.tasks, s.maxAttempts)
    ensures Run(s, es).maxAttempts == s.maxAttempts
  {
    RunCounts(s, es);
  }
}
