/**
 One reconnect() call from beginning to end: how often it dials, how long it sleeps, how often it asks
 tenant discovery, and which address each attempt uses. What the network and the other coroutines do to
 each attempt is given by a plan.
 */
module ReconnectBudget {
  import opened Options
  import opened ConfigCell

  // What happens to the attempt with that number.
  datatype Fate =
    | StoppedBefore          // running is false at the loop test
    | StoppedInLock          // running is false once the lock is held
    | DialFailed             // websockets.connect raises
    | Superseded             // another attempt came between; this socket is closed
    | SupersededCloseRaises  // the same, and closing it raises
    | Installed

  type Plan = nat -> Fate
  type Finds = nat -> Option<Endpoint>

  datatype Act = Dialled(url: string) | Rediscovered(found: Option<Endpoint>) | Slept(weight: nat)

  datatype Identity = Identity(agentId: string, agentSecret: string)

  const BACKOFF_CAP := 5
  const REDISCOVER_EVERY := 3

  function Url(who: Identity, wsUrl: string): string {
    wsUrl + "/" + who.agentId + "?agentSecret=" + who.agentSecret
  }

  /** The sleep after an attempt, in multiples of the configured delay. */
  function Backoff(attempt: nat): nat {
    if attempt < BACKOFF_CAP then attempt else BACKOFF_CAP
  }

  function LaterUrl(wsUrl: string, found: Option<Endpoint>): string {
    if found.Some? then AddressesOf(found.value).wsUrl else wsUrl
  }

  /** The acts so far, after a failed attempt asked discovery if it was its turn. */
  function AskDiscovery(finds: Finds, attempt: nat, acts: seq<Act>): seq<Act> {
    if attempt % REDISCOVER_EVERY == 0 then acts + [Rediscovered(finds(attempt))] else acts
  }

  function FoundAt(finds: Finds, attempt: nat): Option<Endpoint> {
    if attempt % REDISCOVER_EVERY == 0 then finds(attempt) else None
  }

  /** All the loop does, given that it made some attempts and did `acts` so far, and its answer. */
  function Loop(who: Identity, maxAttempts: int, plan: Plan, finds: Finds, made: nat, wsUrl: string, acts: seq<Act>)
    : (seq<Act>, bool)
    decreases maxAttempts - made
  {
    if made >= maxAttempts then (acts, false)
    else
      var attempt := made + 1;
      var dialled := acts + [Dialled(Url(who, wsUrl))];
      match plan(attempt)
      case StoppedBefore => (acts, false)
      case StoppedInLock => (acts, false)
      case Installed => (dialled, true)
      case Superseded => Loop(who, maxAttempts, plan, finds, attempt, wsUrl, dialled)
      case _ =>
        Loop(who, maxAttempts, plan, finds, attempt, LaterUrl(wsUrl, FoundAt(finds, attempt)),
             AskDiscovery(finds, attempt, dialled) + [Slept(Backoff(attempt))])
  }

  /** The address get_config() gives. */
  function CellUrl(current: Option<Addresses>): string {
    if current.Some? then current.value.wsUrl else DEFAULT_ADDRESSES.wsUrl
  }

  /** The loop of reconnect(), on the configuration cell it reads and the discovery it fires. */
  method ReconnectLoop(store: ConfigStore, who: Identity, maxAttempts: int, plan: Plan, finds: Finds)
    returns (ok: bool, acts: seq<Act>)
    requires store.Valid()
    modifies store, store.global
    ensures store.Valid()
    ensures (acts, ok) == Loop(who, maxAttempts, plan, finds, 0, CellUrl(old(store.Current())), [])
    ensures CellUrl(store.Current()) == UrlAfter(CellUrl(old(store.Current())), acts)
  {
    acts, ok := [], false;
    var attempt := 0;
    ghost var start := CellUrl(store.Current());
    assert UrlAfter(start, []) == start;
    hide UrlAfter, Url, Backoff;
    while attempt < maxAttempts && plan(attempt + 1) != StoppedBefore
      invariant store.Valid() && (store.global == old(store.global) || fresh(store.global))
      invariant CellUrl(store.Current()) == UrlAfter(start, acts)
      invariant Loop(who, maxAttempts, plan, finds, 0, start, [])
             == Loop(who, maxAttempts, plan, finds, attempt, CellUrl(store.Current()), acts)
      decreases maxAttempts - attempt
    {
      attempt := attempt + 1;
      var fate := plan(attempt);
      if fate == StoppedInLock {
        break;
      }
      var config := store.GetConfig();
      UrlOneMore(start, acts, Dialled(Url(who, config.wsUrl)));
      acts := acts + [Dialled(Url(who, config.wsUrl))];
      if fate == Installed {
        return true, acts;
      }
      if fate == Superseded {
        continue;
      }
      if attempt % REDISCOVER_EVERY == 0 {
        var found := finds(attempt);
        var _ := store.RediscoverTenant(found);
        UrlOneMore(start, acts, Rediscovered(found));
        acts := acts + [Rediscovered(found)];
      }
      UrlOneMore(start, acts, Slept(Backoff(attempt)));
      acts := acts + [Slept(Backoff(attempt))];
    }
  }

  /** The address in force after some acts: that of the last successful discovery among them. */
  function UrlAfter(start: string, acts: seq<Act>): string
    decreases |acts|
  {
    if acts == [] then start
    else
      var last := acts[|acts| - 1];
      if last.Rediscovered? && last.found.Some? then AddressesOf(last.found.value).wsUrl
      else UrlAfter(start, acts[..|acts| - 1])
  }

  function Dials(acts: seq<Act>): nat {
    if acts == [] then 0 else Dials(acts[..|acts| - 1]) + if acts[|acts| - 1].Dialled? then 1 else 0
  }

  function Asks(acts: seq<Act>): nat {
    if acts == [] then 0 else Asks(acts[..|acts| - 1]) + if acts[|acts| - 1].Rediscovered? then 1 else 0
  }

  /** The whole sleep in multiples of the delay. */
  function Weight(acts: seq<Act>): nat {
    if acts == [] then 0
    else Weight(acts[..|acts| - 1]) + if acts[|acts| - 1].Slept? then acts[|acts| - 1].weight else 0
  }

  /** The sum of min(i, 5) over the first n attempts. */
  function BackoffSum(n: nat): nat {
    if n == 0 then 0 else BackoffSum(n - 1) + Backoff(n)
  }

  lemma {:induction false} BackoffClosedForm(n: nat)
    ensures n >= BACKOFF_CAP ==> BackoffSum(n) == BACKOFF_CAP * n - 10
    ensures n <= BACKOFF_CAP ==> 2 * BackoffSum(n) == n * (n + 1)
  {
    if n > 0 { BackoffClosedForm(n - 1); }
  }

  lemma OneMore(acts: seq<Act>, act: Act)
    ensures Dials(acts + [act]) == Dials(acts) + if act.Dialled? then 1 else 0
    ensures Asks(acts + [act]) == Asks(acts) + if act.Rediscovered? then 1 else 0
    ensures Weight(acts + [act]) == Weight(acts) + if act.Slept? then act.weight else 0
  {
    assert (acts + [act])[..|acts + [act]| - 1] == acts;
  }

  lemma UrlOneMore(start: string, acts: seq<Act>, act: Act)
    ensures UrlAfter(start, acts + [act]) == LaterUrl(UrlAfter(start, acts), if act.Rediscovered? then act.found else None)
  {
    assert (acts + [act])[..|acts + [act]| - 1] == acts;
  }

  // What the budget allows after `made` attempts.
  ghost predicate Within(made: nat, acts: seq<Act>) {
    Dials(acts) <= made && Asks(acts) <= made / REDISCOVER_EVERY && Weight(acts) <= BackoffSum(made)
  }

  // The acts after each kind of attempt.
  lemma AttemptWithin(made: nat, acts: seq<Act>, url: string, finds: Finds)
    requires Within(made, acts)
    ensures var dialled := acts + [Dialled(url)];
      && Within(made + 1, dialled)
      && Within(made + 1, AskDiscovery(finds, made + 1, dialled) + [Slept(Backoff(made + 1))])
  {
    var dialled := acts + [Dialled(url)];
    OneMore(acts, Dialled(url));
    OneMore(dialled, Rediscovered(finds(made + 1)));
    OneMore(AskDiscovery(finds, made + 1, dialled), Slept(Backoff(made + 1)));
  }

  lemma WithinGrows(made: nat, more: nat, acts: seq<Act>)
    requires Within(made, acts) && made <= more
    ensures Within(more, acts)
    decreases more - made
  {
    if made < more { WithinGrows(made + 1, more, acts); }
  }

  /**
   Whatever happens to the attempts, one call dials at most n = max(0, maxAttempts) sockets, sleeps at most
   the backoff sum of n, and asks tenant discovery at most n / 3 times.
   */
  lemma {:induction false} LoopWithin(who: Identity, maxAttempts: int, plan: Plan, finds: Finds, made: nat, wsUrl: string, acts: seq<Act>)
    requires Within(made, acts)
    ensures Within(if made < maxAttempts then maxAttempts else made, Loop(who, maxAttempts, plan, finds, made, wsUrl, acts).0)
    decreases maxAttempts - made
  {
    if made < maxAttempts {
      var attempt := made + 1;
      var dialled := acts + [Dialled(Url(who, wsUrl))];
      AttemptWithin(made, acts, Url(who, wsUrl), finds);
      WithinGrows(made, maxAttempts, acts);
      WithinGrows(attempt, maxAttempts, dialled);
      if plan(attempt) == Superseded {
        LoopWithin(who, maxAttempts, plan, finds, attempt, wsUrl, dialled);
      } else if plan(attempt) == DialFailed || plan(attempt) == SupersededCloseRaises {
        LoopWithin(who, maxAttempts, plan, finds, attempt, LaterUrl(wsUrl, FoundAt(finds, attempt)),
                   AskDiscovery(finds, attempt, dialled) + [Slept(Backoff(attempt))]);
      }
    }
  }

  /** Every dial among the acts used the address in force at that moment. */
  ghost predicate DialsAreFresh(who: Identity, start: string, acts: seq<Act>) {
    forall i | 0 <= i < |acts| && acts[i].Dialled? :: acts[i].url == Url(who, UrlAfter(start, acts[..i]))
  }

  lemma FreshOneMore(who: Identity, start: string, acts: seq<Act>, act: Act)
    requires DialsAreFresh(who, start, acts)
    requires act.Dialled? ==> act.url == Url(who, UrlAfter(start, acts))
    ensures DialsAreFresh(who, start, acts + [act])
  {
    forall i | 0 <= i <= |acts|
      ensures (acts + [act])[..i] == acts[..i]
    {
    }
    assert acts[..|acts|] == acts;
  }

  /** Every attempt dials the address of the latest successful discovery, or the one the call began with. */
  lemma {:induction false} EveryDialIsFresh(who: Identity, maxAttempts: int, plan: Plan, finds: Finds, made: nat,
                                            start: string, acts: seq<Act>)
    requires DialsAreFresh(who, start, acts)
    ensures DialsAreFresh(who, start, Loop(who, maxAttempts, plan, finds, made, UrlAfter(start, acts), acts).0)
    decreases maxAttempts - made
  {
    if made < maxAttempts {
      var attempt := made + 1;
      var wsUrl := UrlAfter(start, acts);
      var dial := Dialled(Url(who, wsUrl));
      var dialled := acts + [dial];
      FreshOneMore(who, start, acts, dial);
      UrlOneMore(start, acts, dial);
      if plan(attempt) == Superseded {
        EveryDialIsFresh(who, maxAttempts, plan, finds, attempt, start, dialled);
      } else if plan(attempt) == DialFailed || plan(attempt) == SupersededCloseRaises {
        var asked := AskDiscovery(finds, attempt, dialled);
        FreshOneMore(who, start, dialled, Rediscovered(finds(attempt)));
        UrlOneMore(start, dialled, Rediscovered(finds(attempt)));
        FreshOneMore(who, start, asked, Slept(Backoff(attempt)));
        UrlOneMore(start, asked, Slept(Backoff(attempt)));
        EveryDialIsFresh(who, maxAttempts, plan, finds, attempt, start, asked + [Slept(Backoff(attempt))]);
      }
    }
  }

  /** The call answers yes exactly when some attempt is installed and none before it ended the loop. */
  lemma {:induction false} AnswersYesExactly(who: Identity, maxAttempts: int, plan: Plan, finds: Finds, made: nat,
                                             wsUrl: string, acts: seq<Act>)
    ensures Loop(who, maxAttempts, plan, finds, made, wsUrl, acts).1 <==>
      exists a: nat | made < a <= maxAttempts ::
        plan(a) == Installed && forall b: nat | made < b < a :: plan(b) in {DialFailed, Superseded, SupersededCloseRaises}
    decreases maxAttempts - made
  {
    if made < maxAttempts {
      var attempt := made + 1;
      var dialled := acts + [Dialled(Url(who, wsUrl))];
      if plan(attempt) == Superseded {
        AnswersYesExactly(who, maxAttempts, plan, finds, attempt, wsUrl, dialled);
      } else if plan(attempt) == DialFailed || plan(attempt) == SupersededCloseRaises {
        AnswersYesExactly(who, maxAttempts, plan, finds, attempt, LaterUrl(wsUrl, FoundAt(finds, attempt)),
                          AskDiscovery(finds, attempt, dialled) + [Slept(Backoff(attempt))]);
      }
    }
  }

  // Exactly what n failed attempts cost.
  ghost predicate Spent(made: nat, acts: seq<Act>) {
    Dials(acts) == made && Asks(acts) == made / REDISCOVER_EVERY && Weight(acts) == BackoffSum(made)
  }

  lemma FailureSpends(made: nat, acts: seq<Act>, url: string, finds: Finds)
    requires Spent(made, acts)
    ensures Spent(made + 1, AskDiscovery(finds, made + 1, acts + [Dialled(url)]) + [Slept(Backoff(made + 1))])
  {
    var dialled := acts + [Dialled(url)];
    OneMore(acts, Dialled(url));
    OneMore(dialled, Rediscovered(finds(made + 1)));
    OneMore(AskDiscovery(finds, made + 1, dialled), Slept(Backoff(made + 1)));
  }

  /** The bounds are reached: when every attempt fails to dial, the whole budget is spent. */
  lemma {:induction false} FailingSpendsTheBudget(who: Identity, maxAttempts: nat, plan: Plan, finds: Finds, made: nat,
                                                  wsUrl: string, acts: seq<Act>)
    requires forall a :: plan(a) == DialFailed
    requires Spent(made, acts) && made <= maxAttempts
    ensures Spent(maxAttempts, Loop(who, maxAttempts, plan, finds, made, wsUrl, acts).0)
    decreases maxAttempts - made
  {
    hide Spent, AskDiscovery, Backoff, Url;
    if made < maxAttempts {
      var attempt := made + 1;
      var dialled := acts + [Dialled(Url(who, wsUrl))];
      FailureSpends(made, acts, Url(who, wsUrl), finds);
      FailingSpendsTheBudget(who, maxAttempts, plan, finds, attempt, LaterUrl(wsUrl, FoundAt(finds, attempt)),
                             AskDiscovery(finds, attempt, dialled) + [Slept(Backoff(attempt))]);
    }
  }

  // ---------- what a call does, attempt by attempt ----------

  /** The sleeps among the acts, and what discovery said, in order. */
  function SleepsIn(acts: seq<Act>): seq<nat> {
    if acts == [] then []
    else SleepsIn(acts[..|acts| - 1]) + if acts[|acts| - 1].Slept? then [acts[|acts| - 1].weight] else []
  }

  function HeardIn(acts: seq<Act>): seq<Option<Endpoint>> {
    if acts == [] then []
    else HeardIn(acts[..|acts| - 1]) + if acts[|acts| - 1].Rediscovered? then [acts[|acts| - 1].found] else []
  }

  /** Every discovery comes right after a dial and right before a sleep, and no sleep follows another. */
  ghost predicate InTurn(acts: seq<Act>) {
    && (forall i | 0 <= i < |acts| && acts[i].Rediscovered? ::
          0 < i < |acts| - 1 && acts[i - 1].Dialled? && acts[i + 1].Slept?)
    && (forall i | 0 <= i < |acts| && acts[i].Slept? :: 0 < i && !acts[i - 1].Slept?)
  }

  predicate Raises(fate: Fate) {
    fate == DialFailed || fate == SupersededCloseRaises
  }

  /** What the first n attempts owe: a sleep of 1, 2, 3, 4, then 5 delays after each that raised, */
  function SleepsDue(plan: Plan, n: nat): seq<nat> {
    if n == 0 then [] else SleepsDue(plan, n - 1) + if !Raises(plan(n)) then [] else if n <= 4 then [n] else [5]
  }

  /** and a discovery before the sleep after every third. */
  function HeardDue(plan: Plan, finds: Finds, n: nat): seq<Option<Endpoint>> {
    if n == 0 then []
    else HeardDue(plan, finds, n - 1) + if Raises(plan(n)) && (n - 1) % 3 == 2 then [finds(n)] else []
  }

  // The acts are those of the first n attempts.
  ghost predicate Paid(plan: Plan, finds: Finds, n: nat, acts: seq<Act>) {
    Dials(acts) == n && SleepsIn(acts) == SleepsDue(plan, n) && HeardIn(acts) == HeardDue(plan, finds, n) && InTurn(acts)
  }

  lemma ListsOneMore(acts: seq<Act>, act: Act)
    ensures SleepsIn(acts + [act]) == SleepsIn(acts) + if act.Slept? then [act.weight] else []
    ensures HeardIn(acts + [act]) == HeardIn(acts) + if act.Rediscovered? then [act.found] else []
    ensures Dials(acts + [act]) == Dials(acts) + if act.Dialled? then 1 else 0
  {
    assert (acts + [act])[..|acts + [act]| - 1] == acts;
  }

  lemma DialPaid(plan: Plan, finds: Finds, made: nat, acts: seq<Act>, url: string)
    requires Paid(plan, finds, made, acts) && !Raises(plan(made + 1))
    ensures Paid(plan, finds, made + 1, acts + [Dialled(url)])
  {
    ListsOneMore(acts, Dialled(url));
  }

  lemma FailureInTurn(acts: seq<Act>, url: string, found: Option<Endpoint>, weight: nat)
    requires InTurn(acts)
    ensures InTurn(acts + [Dialled(url)] + [Slept(weight)])
    ensures InTurn(acts + [Dialled(url)] + [Rediscovered(found)] + [Slept(weight)])
  {
  }

  lemma FailurePaid(plan: Plan, finds: Finds, made: nat, acts: seq<Act>, url: string)
    requires Paid(plan, finds, made, acts) && Raises(plan(made + 1))
    ensures Paid(plan, finds, made + 1, AskDiscovery(finds, made + 1, acts + [Dialled(url)]) + [Slept(Backoff(made + 1))])
  {
    var dialled := acts + [Dialled(url)];
    var asked := AskDiscovery(finds, made + 1, dialled);
    ListsOneMore(acts, Dialled(url));
    ListsOneMore(dialled, Rediscovered(finds(made + 1)));
    ListsOneMore(asked, Slept(Backoff(made + 1)));
    FailureInTurn(acts, url, finds(made + 1), Backoff(made + 1));
    DueOneMore(plan, finds, made);
    hide SleepsIn, HeardIn, Dials, InTurn, SleepsDue, HeardDue, Backoff;
  }

  lemma DueOneMore(plan: Plan, finds: Finds, made: nat)
    requires Raises(plan(made + 1))
    ensures SleepsDue(plan, made + 1) == SleepsDue(plan, made) + [Backoff(made + 1)]
    ensures HeardDue(plan, finds, made + 1)
         == HeardDue(plan, finds, made) + if (made + 1) % REDISCOVER_EVERY == 0 then [finds(made + 1)] else []
  {
    assert (made + 1) % 3 == 0 <==> made % 3 == 2;
  }

  // How the loop ends after n attempts: the last allowed, the first installed, or the client stopped before the next.
  ghost predicate EndsAfter(maxAttempts: int, plan: Plan, n: nat) {
    && (n > 0 ==> n <= maxAttempts && plan(n) != StoppedBefore && plan(n) != StoppedInLock)
    && (n >= maxAttempts || (n > 0 && plan(n) == Installed) || plan(n + 1) == StoppedBefore || plan(n + 1) == StoppedInLock)
    && forall b: nat | 0 < b < n :: Raises(plan(b)) || plan(b) == Superseded
  }

  /**
   For every plan: the call makes all attempts up to the one that ends it, dials once for each, and after each that
   raised asks discovery if it is a third one and sleeps its backoff, in this order; it does nothing else.
   */
  lemma {:induction false} CallDoesExactly(who: Identity, maxAttempts: int, plan: Plan, finds: Finds, made: nat,
                                           wsUrl: string, acts: seq<Act>) returns (n: nat)
    requires Paid(plan, finds, made, acts) && (made > 0 ==> made <= maxAttempts)
    requires forall b: nat | 0 < b <= made :: Raises(plan(b)) || plan(b) == Superseded
    ensures EndsAfter(maxAttempts, plan, n) && Paid(plan, finds, n, Loop(who, maxAttempts, plan, finds, made, wsUrl, acts).0)
    decreases maxAttempts - made
  {
    hide Paid, AskDiscovery, Backoff, Url;
    n := made;
    if made < maxAttempts {
      var attempt := made + 1;
      var dialled := acts + [Dialled(Url(who, wsUrl))];
      match plan(attempt)
      case StoppedBefore =>
      case StoppedInLock =>
      case Installed =>
        n := attempt;
        DialPaid(plan, finds, made, acts, Url(who, wsUrl));
      case Superseded =>
        DialPaid(plan, finds, made, acts, Url(who, wsUrl));
        n := CallDoesExactly(who, maxAttempts, plan, finds, attempt, wsUrl, dialled);
      case _ =>
        FailurePaid(plan, finds, made, acts, Url(who, wsUrl));
        n := CallDoesExactly(who, maxAttempts, plan, finds, attempt, LaterUrl(wsUrl, FoundAt(finds, attempt)),
                             AskDiscovery(finds, attempt, dialled) + [Slept(Backoff(attempt))]);
    }
  }

  /** The address that is dialled, as it is written. */
  lemma AnExampleOfAUrl()
    ensures Url(Identity("agent-1", "s3cret"), "ws://10.0.0.7:8060/ws/agent")
         == "ws://10.0.0.7:8060/ws/agent/agent-1?agentSecret=s3cret"
  {
    var address := "ws://10.0.0.7:8060/ws/agent" + "/" + "agent-1";
    assert address == "ws://10.0.0.7:8060/ws/agent/agent-1";
    assert address + "?agentSecret=" == "ws://10.0.0.7:8060/ws/agent/agent-1?agentSecret=";
  }

  /** So many delays, in seconds. */
  function Seconds(delay: real, weight: nat): real {
    delay * (weight as real)
  }

  /** The seconds of sleep the acts ask for. */
  function TotalSleep(delay: real, acts: seq<Act>): real {
    if acts == [] then 0.0
    else TotalSleep(delay, acts[..|acts| - 1]) + if acts[|acts| - 1].Slept? then Seconds(delay, acts[|acts| - 1].weight) else 0.0
  }

  lemma {:induction false} SleepIsWeighed(delay: real, acts: seq<Act>)
    ensures TotalSleep(delay, acts) == Seconds(delay, Weight(acts))
  {
    if acts != [] {
      SleepIsWeighed(delay, acts[..|acts| - 1]);
    }
  }

  lemma SleepGrows(delay: real, weight: nat, bound: nat)
    requires delay >= 0.0 && weight <= bound
    ensures Seconds(delay, weight) <= Seconds(delay, bound)
  {
    var more := (bound - weight) as real;
    assert bound as real == weight as real + more;
    assert delay * more >= 0.0;
  }

  /** The three bounds for one whole call, in seconds; from five attempts on the sleep is delay * (5 n - 10). */
  lemma OneCallBudget(who: Identity, maxAttempts: int, plan: Plan, finds: Finds, wsUrl: string, delay: real)
    requires delay >= 0.0
    ensures var n := if maxAttempts > 0 then maxAttempts else 0;
      var acts := Loop(who, maxAttempts, plan, finds, 0, wsUrl, []).0;
      && Dials(acts) <= n
      && Asks(acts) <= n / REDISCOVER_EVERY
      && TotalSleep(delay, acts) <= Seconds(delay, BackoffSum(n))
      && (n >= BACKOFF_CAP ==> BackoffSum(n) == 5 * n - 10)
  {
    var n := if maxAttempts > 0 then maxAttempts else 0;
    var acts := Loop(who, maxAttempts, plan, finds, 0, wsUrl, []).0;
    LoopWithin(who, maxAttempts, plan, finds, 0, wsUrl, []);
    hide Loop, TotalSleep, BackoffSum, Weight, Dials, Asks, Seconds;
    SleepIsWeighed(delay, acts);
    SleepGrows(delay, Weight(acts), BackoffSum(n));
    BackoffClosedForm(n);
  }
}
