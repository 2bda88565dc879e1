/**
 Task dispatch of the central manager: an in-flight table keyed by task id and one background
 coroutine per accepted task, which calls the backend once when the task is over.
 */
module TaskDispatch {
  import opened Options

  type TaskId = string
  type Handle = nat

  // How a task's execution ended: a result with success, one without, or an exception.
  datatype Outcome = Succeeded | Rejected | Raised

  datatype Phase = Executing | Notifying

  // One background coroutine that has not ended.
  datatype Job = Job(taskId: TaskId, phase: Phase)

  datatype State = State(
    inflight: map<TaskId, Handle>,
    jobs: map<Handle, Job>,
    nextHandle: Handle,
    // history
    accepted: multiset<TaskId>,
    completed: multiset<TaskId>,     // calls to complete_task
    failed: multiset<TaskId>)        // calls to fail_task

  const Init := State(map[], map[], 0, multiset{}, multiset{}, multiset{})

  datatype Event =
    | Dispatch(taskId: Option<TaskId>)
    | Executed(h: Handle, outcome: Outcome)
    | NotifyReturned(h: Handle)        // the call returned, or raised and was logged

  predicate Enabled(s: State, e: Event) {
    match e
    case Dispatch(_) => true
    case Executed(h, _) => h in s.jobs && s.jobs[h].phase.Executing?
    case NotifyReturned(h) => h in s.jobs && s.jobs[h].phase.Notifying?
  }

  predicate IsLive(s: State, id: TaskId) {
    id in s.inflight && s.inflight[id] in s.jobs
  }

  function Next(s: State, e: Event): State
    requires Enabled(s, e)
  {
    match e
    case Dispatch(None) => s
    case Dispatch(Some(id)) =>
      if id == "" || IsLive(s, id) then s
      else s.(inflight := s.inflight[id := s.nextHandle], jobs := s.jobs[s.nextHandle := Job(id, Executing)],
              nextHandle := s.nextHandle + 1, accepted := s.accepted + multiset{id})
    case Executed(h, outcome) =>
      var id := s.jobs[h].taskId;
      var s := s.(jobs := s.jobs[h := Job(id, Notifying)]);
      if outcome.Succeeded? then s.(completed := s.completed + multiset{id}) else s.(failed := s.failed + multiset{id})
    case NotifyReturned(h) =>
      s.(jobs := s.jobs - {h}, inflight := s.inflight - {s.jobs[h].taskId})
  }

  /** The accepted runs of a task that have not called the backend yet: none or one. */
  function Unnotified(s: State, id: TaskId): nat {
    if IsLive(s, id) && s.jobs[s.inflight[id]].phase.Executing? then 1 else 0
  }

  ghost predicate Inv(s: State) {
    && (forall h | h in s.jobs :: h < s.nextHandle && s.jobs[h].taskId in s.inflight && s.inflight[s.jobs[h].taskId] == h)
    && (forall id | id in s.inflight :: IsLive(s, id) && s.jobs[s.inflight[id]].taskId == id)
    && (forall id :: s.accepted[id] == s.completed[id] + s.failed[id] + Unnotified(s, id))
  }

  lemma DispatchKeepsInv(s: State, taskId: Option<TaskId>)
    requires Inv(s)
    ensures Inv(Next(s, Dispatch(taskId)))
  {
  }

  lemma ExecutedKeepsInv(s: State, h: Handle, outcome: Outcome)
    requires Inv(s) && Enabled(s, Executed(h, outcome))
    ensures Inv(Next(s, Executed(h, outcome)))
  {
  }

  lemma ReturnedKeepsInv(s: State, h: Handle)
    requires Inv(s) && Enabled(s, NotifyReturned(h))
    ensures Inv(Next(s, NotifyReturned(h)))
  {
  }

  lemma StepKeepsInv(s: State, e: Event)
    requires Inv(s) && Enabled(s, e)
    ensures Inv(Next(s, e))
  {
    match e
    case Dispatch(taskId) => DispatchKeepsInv(s, taskId);
    case Executed(h, outcome) => ExecutedKeepsInv(s, h, outcome);
    case NotifyReturned(h) => ReturnedKeepsInv(s, h);
  }

  predicate Legal(s: State, es: seq<Event>)
    decreases |es|
  {
    es == [] || (Enabled(s, es[0]) && Legal(Next(s, es[0]), es[1..]))
  }

  function Run(s: State, es: seq<Event>): State
    requires Legal(s, es)
    decreases |es|
  {
    if es == [] then s else Run(Next(s, es[0]), es[1..])
  }

  lemma {:induction false} RunKeepsInv(s: State, es: seq<Event>)
    requires Inv(s) && Legal(s, es)
    ensures Inv(Run(s, es))
    decreases |es|
  {
    if es != [] {
      StepKeepsInv(s, es[0]);
      RunKeepsInv(Next(s, es[0]), es[1..]);
    }
  }

  /** At any moment of any run: accepted = notified + 1 if the live run has yet to notify, one live run at most. */
  lemma NotifiedOncePerAccepted(es: seq<Event>, id: TaskId)
    requires Legal(Init, es)
    ensures var s := Run(Init, es);
      s.accepted[id] == s.completed[id] + s.failed[id] + Unnotified(s, id)
    ensures var s := Run(Init, es);
      forall h, k | h in s.jobs && k in s.jobs && s.jobs[h].taskId == id && s.jobs[k].taskId == id :: h == k
  {
    RunKeepsInv(Init, es);
  }

  /** When no coroutine is left, the table is empty and every accepted run was notified exactly once. */
  lemma QuietMeansNotified(es: seq<Event>)
    requires Legal(Init, es) && Run(Init, es).jobs == map[]
    ensures var s := Run(Init, es); s.inflight == map[] && s.accepted == s.completed + s.failed
  {
    RunKeepsInv(Init, es);
    var s := Run(Init, es);
    assert forall id :: id !in s.inflight;
    assert forall id :: s.accepted[id] == (s.completed + s.failed)[id];
  }

  /** A dispatch is accepted exactly when it names a task of which no coroutine is alive. */
  lemma DuplicateDroppedOnlyWhileLive(es: seq<Event>, taskId: Option<TaskId>)
    requires Legal(Init, es)
    ensures var s := Run(Init, es);
      var t := Next(s, Dispatch(taskId));
      var live := taskId.Some? && exists h | h in s.jobs :: s.jobs[h].taskId == taskId.value;
      if taskId.None? || taskId.value == "" || live then t == s
      else
        && t.accepted == s.accepted + multiset{taskId.value}
        && t.jobs.Keys == s.jobs.Keys + {s.nextHandle} && s.nextHandle !in s.jobs
        && t.jobs[s.nextHandle] == Job(taskId.value, Executing)
  {
    RunKeepsInv(Init, es);
  }

  /** A run that ends leaves the table: its coroutine and its task's entry, and no others; the task can be accepted again. */
  lemma RunsEnd(es: seq<Event>, h: Handle, outcome: Outcome)
    requires Legal(Init, es) && Enabled(Run(Init, es), Executed(h, outcome))
    ensures var s := Run(Init, es); var id := s.jobs[h].taskId;
      && Legal(s, [Executed(h, outcome), NotifyReturned(h)])
      && var t := Run(s, [Executed(h, outcome), NotifyReturned(h)]);
        && t.jobs == s.jobs - {h} && t.inflight == s.inflight - {id}
        && t.accepted == s.accepted && t.nextHandle == s.nextHandle
        && (id != "" ==> Next(t, Dispatch(Some(id))).accepted == s.accepted + multiset{id})
  {
    RunKeepsInv(Init, es);
    var s := Run(Init, es);
    var ended := Next(s, Executed(h, outcome));
    var t := Next(ended, NotifyReturned(h));
    assert t.jobs == s.jobs - {h};
    assert [Executed(h, outcome), NotifyReturned(h)][1..] == [NotifyReturned(h)];
    assert [NotifyReturned(h)][1..] == [];
    assert Legal(t, []) && Legal(ended, [NotifyReturned(h)]);
    assert Run(ended, [NotifyReturned(h)]) == t;
  }

  // ---------- which call each outcome gets ----------

  /** The task id a dispatch is accepted for: it has one, and no coroutine for it is alive. */
  function AcceptedBy(s: State, e: Event): seq<TaskId> {
    match e
    case Dispatch(Some(id)) => if id != "" && forall h | h in s.jobs :: s.jobs[h].taskId != id then [id] else []
    case _ => []
  }

  /** The ids of the accepted dispatches, in order: handle h is the h-th of them. */
  function AcceptedIds(s: State, es: seq<Event>): seq<TaskId>
    requires Legal(s, es)
    decreases |es|
  {
    if es == [] then [] else AcceptedBy(s, es[0]) + AcceptedIds(Next(s, es[0]), es[1..])
  }

  /** Whether an event is the end of a run of the task, in success or in one of the other two ways. */
  predicate Ends(e: Event, ids: seq<TaskId>, id: TaskId, success: bool) {
    e.Executed? && e.h < |ids| && ids[e.h] == id && (e.outcome == Succeeded) == success
  }

  function Ended(es: seq<Event>, ids: seq<TaskId>, id: TaskId, success: bool): nat {
    if es == [] then 0 else (if Ends(es[0], ids, id, success) then 1 else 0) + Ended(es[1..], ids, id, success)
  }

  /** The handles in use are those of the accepted dispatches. */
  ghost predicate Owned(s: State, ids: seq<TaskId>) {
    s.nextHandle == |ids| && forall h | h in s.jobs :: h < |ids| && s.jobs[h].taskId == ids[h]
  }

  lemma StepOwned(s: State, e: Event, ids: seq<TaskId>)
    requires Inv(s) && Enabled(s, e) && Owned(s, ids)
    ensures Owned(Next(s, e), ids + AcceptedBy(s, e))
    ensures |Next(s, e).accepted| == |s.accepted| + |AcceptedBy(s, e)|
  {
    if e.Dispatch? && e.taskId.Some? {
      var id := e.taskId.value;
      assert IsLive(s, id) <==> exists h | h in s.jobs :: s.jobs[h].taskId == id;
    }
  }

  lemma StepCalls(s: State, e: Event, ids: seq<TaskId>, id: TaskId)
    requires Enabled(s, e) && Owned(s, ids)
    ensures Next(s, e).completed[id] == s.completed[id] + if Ends(e, ids, id, true) then 1 else 0
    ensures Next(s, e).failed[id] == s.failed[id] + if Ends(e, ids, id, false) then 1 else 0
    ensures e.Executed? ==> e.h < |ids|
  {
  }

  lemma EndsTheSame(e: Event, ids: seq<TaskId>, more: seq<TaskId>, id: TaskId)
    requires e.Executed? ==> e.h < |ids|
    ensures forall success :: Ends(e, ids + more, id, success) == Ends(e, ids, id, success)
  {
  }

  lemma {:induction false} OutcomesAlong(s: State, es: seq<Event>, ids: seq<TaskId>, id: TaskId)
    requires Inv(s) && Legal(s, es) && Owned(s, ids)
    ensures var all := ids + AcceptedIds(s, es); var t := Run(s, es);
      && t.completed[id] == s.completed[id] + Ended(es, all, id, true)
      && t.failed[id] == s.failed[id] + Ended(es, all, id, false)
      && |t.accepted| == |s.accepted| + |AcceptedIds(s, es)|
    decreases |es|
  {
    hide Inv, Owned, Next, Enabled, AcceptedBy, Ends;
    if es == [] {
      assert ids + [] == ids;
    } else {
      var e, more, rest := es[0], AcceptedBy(s, es[0]), AcceptedIds(Next(s, es[0]), es[1..]);
      StepKeepsInv(s, e);
      StepOwned(s, e, ids);
      StepCalls(s, e, ids, id);
      EndsTheSame(e, ids, more + rest, id);
      OutcomesAlong(Next(s, e), es[1..], ids + more, id);
      assert ids + (more + rest) == ids + more + rest && AcceptedIds(s, es) == more + rest;
      var all := ids + (more + rest);
      assert forall b :: Ended(es, all, id, b) == (if Ends(e, ids, id, b) then 1 else 0) + Ended(es[1..], all, id, b);
      hide AcceptedIds, Ended;
    }
  }

  /**
   In every run: a task's complete-calls are exactly its accepted runs that ended in success, and its fail-calls
   those that ended without success or by raising.
   */
  lemma CallsMatchOutcomes(es: seq<Event>, id: TaskId)
    requires Legal(Init, es)
    ensures var ids := AcceptedIds(Init, es); var s := Run(Init, es);
      && |ids| == |s.accepted|
      && s.completed[id] == Ended(es, ids, id, true)
      && s.failed[id] == Ended(es, ids, id, false)
  {
    OutcomesAlong(Init, es, [], id);
    assert [] + AcceptedIds(Init, es) == AcceptedIds(Init, es);
  }

  // ---------- the code ----------

  class CentralManager {
    var inflightTaskHandles: map<TaskId, Handle>
    var jobs: map<Handle, Job>
    var nextHandle: Handle
    ghost var accepted: multiset<TaskId>
    ghost var completed: multiset<TaskId>
    ghost var failed: multiset<TaskId>

    ghost function View(): State
      reads this
    {
      State(inflightTaskHandles, jobs, nextHandle, accepted, completed, failed)
    }

    constructor ()
      ensures View() == Init && Inv(View())
    {
      inflightTaskHandles, jobs, nextHandle := map[], map[], 0;
      accepted, completed, failed := multiset{}, multiset{}, multiset{};
    }

    /** _handle_task: accept the dispatch, or drop it. */
    method HandleTask(taskId: Option<TaskId>)
      requires Inv(View())
      modifies this
      ensures Inv(View()) && View() == Next(old(View()), Dispatch(taskId))
    {
      DispatchKeepsInv(View(), taskId);
      if taskId.None? || taskId.value == "" {
        return;
      }
      var id := taskId.value;
      if id in inflightTaskHandles && inflightTaskHandles[id] in jobs {
        return;
      }
      jobs := jobs[nextHandle := Job(id, Executing)];
      inflightTaskHandles := inflightTaskHandles[id := nextHandle];
      nextHandle := nextHandle + 1;
      accepted := accepted + multiset{id};
    }

    /** _run_task_and_notify when execute_task is over: one call to the backend. */
    method TaskExecuted(h: Handle, outcome: Outcome)
      requires Inv(View()) && Enabled(View(), Executed(h, outcome))
      modifies this`jobs, this`completed, this`failed
      ensures Inv(View()) && View() == Next(old(View()), Executed(h, outcome))
    {
      ExecutedKeepsInv(View(), h, outcome);
      var id := jobs[h].taskId;
      jobs := jobs[h := Job(id, Notifying)];
      if outcome.Succeeded? {
        completed := completed + multiset{id};
      } else {
        failed := failed + multiset{id};
      }
    }

    /** Its finally clause: the task leaves the table. */
    method NotificationReturned(h: Handle)
      requires Inv(View()) && Enabled(View(), NotifyReturned(h))
      modifies this`jobs, this`inflightTaskHandles
      ensures Inv(View()) && View() == Next(old(View()), NotifyReturned(h))
    {
      ReturnedKeepsInv(View(), h);
      var id := jobs[h].taskId;
      inflightTaskHandles := inflightTaskHandles - {id};
      jobs := jobs - {h};
    }
  }
}
