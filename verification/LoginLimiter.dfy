/**
 The browser-login limiter: a semaphore, a counter behind its own lock, and a context manager.
 The limiter is a state machine over any set of login tasks, cancellation included; the classes
 below are its code.

 A coroutine suspends at the lock only when the lock is taken or others wait for it, and the bodies
 under the lock contain no suspension point. Both are written out here, so that nobody ever waits
 for the lock is a theorem and not an assumption.
 */
module LoginLimiter {
  import opened Options

  type Pid = nat

  // The tasks inside the limiter, by how far they are.
  datatype State = State(
    max: nat,
    permits: nat,          // the semaphore's value
    activeCount: int,
    lock: Option<Pid>,     // who holds the lock across a suspension point
    waiting: set<Pid>,     // in semaphore.acquire()
    granted: set<Pid>,     // have been handed a permit, and have not resumed yet
    counting: set<Pid>,    // in acquire(), waiting for the lock
    inside: set<Pid>,      // counted; in the body of the context manager
    leaving: set<Pid>)     // in release(), waiting for the lock

  function Init(max: nat): State {
    State(max, max, 0, None, {}, {}, {}, {}, {})
  }

  datatype Event =
    | Enter(p: Pid)
    | Grant(p: Pid)
    | Resume(p: Pid)
    | CountTurn(p: Pid)
    | Exit(p: Pid)
    | LeaveTurn(p: Pid)
    | CancelWaiting(p: Pid)
    | CancelGranted(p: Pid)
    | CancelCounting(p: Pid)
    | CancelLeaving(p: Pid)

  predicate Enabled(s: State, e: Event) {
    match e
    case Enter(p) => p !in s.waiting + s.granted + s.counting + s.inside + s.leaving
    case Grant(p) => p in s.waiting && s.permits > 0
    case Resume(p) => p in s.granted
    case CountTurn(p) => p in s.counting && s.lock.None?
    case Exit(p) => p in s.inside
    case LeaveTurn(p) => p in s.leaving && s.lock.None?
    case CancelWaiting(p) => p in s.waiting
    case CancelGranted(p) => p in s.granted
    case CancelCounting(p) => p in s.counting
    case CancelLeaving(p) => p in s.leaving
  }

  /** The rest of acquire() from the lock on: take it, count, give it back. */
  function Count(s: State, p: Pid): State {
    var locked := s.(lock := Some(p));
    var counted := locked.(activeCount := locked.activeCount + 1, inside := locked.inside + {p});
    counted.(lock := None)
  }

  /** The rest of release() from the lock on; the permit goes back after the lock. */
  function Uncount(s: State, p: Pid): State {
    var locked := s.(lock := Some(p));
    var uncounted := locked.(activeCount := locked.activeCount - 1);
    uncounted.(lock := None, permits := uncounted.permits + 1)
  }

  function Next(s: State, e: Event): State
    requires Enabled(s, e)
  {
    match e
    case Enter(p) => s.(waiting := s.waiting + {p})
    case Grant(p) => s.(waiting := s.waiting - {p}, granted := s.granted + {p}, permits := s.permits - 1)
    case Resume(p) =>
      var s := s.(granted := s.granted - {p});
      if s.lock.None? && s.counting == {} && s.leaving == {} then Count(s, p) else s.(counting := s.counting + {p})
    case CountTurn(p) => Count(s.(counting := s.counting - {p}), p)
    case Exit(p) =>
      var s := s.(inside := s.inside - {p});
      if s.lock.None? && s.counting == {} && s.leaving == {} then Uncount(s, p) else s.(leaving := s.leaving + {p})
    case LeaveTurn(p) => Uncount(s.(leaving := s.leaving - {p}), p)
    case CancelWaiting(p) => s.(waiting := s.waiting - {p})
    // The semaphore itself takes back a permit it handed to a cancelled waiter.
    case CancelGranted(p) => s.(granted := s.granted - {p}, permits := s.permits + 1)
    // A task cancelled at the lock would keep its permit for ever, and in release() its count as well.
    case CancelCounting(p) => s.(counting := s.counting - {p})
    case CancelLeaving(p) => s.(leaving := s.leaving - {p})
  }

  predicate IsAvailable(s: State) {
    s.activeCount < s.max
  }

  /** The lock is free between any two segments, and nobody waits for it. */
  predicate LockIdle(s: State) {
    s.lock.None? && s.counting == {} && s.leaving == {}
  }

  ghost predicate Inv(s: State) {
    && LockIdle(s)
    && s.waiting !! s.granted && s.waiting !! s.inside && s.granted !! s.inside
    && s.permits + |s.granted| + |s.inside| == s.max
    && s.activeCount == |s.inside|
  }

  /** The events of a task that had to wait for the lock. */
  predicate AtTheLock(e: Event) {
    e.CountTurn? || e.LeaveTurn? || e.CancelCounting? || e.CancelLeaving?
  }

  lemma GrantKeepsInv(s: State, p: Pid)
    requires Inv(s) && Enabled(s, Grant(p))
    ensures Inv(Next(s, Grant(p)))
  {
  }

  lemma ResumeKeepsInv(s: State, p: Pid)
    requires Inv(s) && Enabled(s, Resume(p))
    ensures Inv(Next(s, Resume(p)))
  {
    assert p in s.granted && p !in s.inside;
  }

  lemma ExitKeepsInv(s: State, p: Pid)
    requires Inv(s) && Enabled(s, Exit(p))
    ensures Inv(Next(s, Exit(p)))
  {
  }

  lemma WaitingKeepsInv(s: State, p: Pid)
    requires Inv(s)
    ensures Enabled(s, Enter(p)) ==> Inv(Next(s, Enter(p)))
    ensures Enabled(s, CancelWaiting(p)) ==> Inv(Next(s, CancelWaiting(p)))
  {
  }

  lemma CancelGrantedKeepsInv(s: State, p: Pid)
    requires Inv(s) && Enabled(s, CancelGranted(p))
    ensures Inv(Next(s, CancelGranted(p)))
  {
  }

  lemma NobodyAtTheLock(s: State, e: Event)
    requires LockIdle(s) && Enabled(s, e)
    ensures !AtTheLock(e) && Next(s, e).max == s.max
  {
  }

  lemma StepKeepsInv(s: State, e: Event)
    requires Inv(s) && Enabled(s, e)
    ensures Inv(Next(s, e)) && Next(s, e).max == s.max && !AtTheLock(e)
  {
    NobodyAtTheLock(s, e);
    hide Next, Enabled, Inv;
    match e {
      case Enter(p) => WaitingKeepsInv(s, p);
      case Grant(p) => GrantKeepsInv(s, p);
      case Resume(p) => ResumeKeepsInv(s, p);
      case Exit(p) => ExitKeepsInv(s, p);
      case CancelWaiting(p) => WaitingKeepsInv(s, p);
      case CancelGranted(p) => CancelGrantedKeepsInv(s, p);
      case _ =>
    }
  }

  predicate Legal(s: State, es: seq<Event>)
    decreases |es|
  {
    es == [] || (Enabled(s, es[0]) && Legal(Next(s, es[0]), es[1..]))
  }

  function Run(s: State, es: seq<Event>): State
    requires Legal(s, es)
    decreases |es|
  {
    if es == [] then s else Run(Next(s, es[0]), es[1..])
  }

  lemma {:induction false} RunKeepsInv(s: State, es: seq<Event>)
    requires Inv(s) && Legal(s, es)
    ensures Inv(Run(s, es)) && Run(s, es).max == s.max
    ensures forall e | e in es :: !AtTheLock(e)
    decreases |es|
  {
    hide Next, Enabled, Inv, AtTheLock;
    if es != [] {
      StepKeepsInv(s, es[0]);
      RunKeepsInv(Next(s, es[0]), es[1..]);
      assert es == [es[0]] + es[1..];
    }
  }

  /**
   In no run does a task find the lock taken: acquire() from its permit on, and the whole of release(), are single
   segments, and no cancellation can fall between a permit and its count or between a count and its permit.
   */
  lemma NobodyWaitsForTheLock(max: nat, es: seq<Event>)
    requires Legal(Init(max), es)
    ensures LockIdle(Run(Init(max), es))
    ensures forall e | e in es :: !AtTheLock(e)
  {
    RunKeepsInv(Init(max), es);
  }

  /**
   Permits are conserved whatever is cancelled: each is free, handed to a task about to resume, or held by a task inside.
   The counter is the number of tasks between increment and decrement.
   */
  lemma PermitsConserved(max: nat, es: seq<Event>)
    requires Legal(Init(max), es)
    ensures var s := Run(Init(max), es);
      && s.granted !! s.inside
      && s.permits + |s.granted| + |s.inside| == max
      && s.activeCount == |s.inside|
      && 0 <= s.activeCount <= max
  {
    RunKeepsInv(Init(max), es);
  }

  /** is_available() says no exactly when every permit is held by a counted task. */
  lemma AvailabilityExact(max: nat, es: seq<Event>)
    requires Legal(Init(max), es)
    ensures var s := Run(Init(max), es);
      && (IsAvailable(s) <==> s.permits > 0 || s.granted != {})
      && (IsAvailable(s) <==> |s.inside| < max)
  {
    RunKeepsInv(Init(max), es);
  }

  /** With nobody inside or about to be, the semaphore is full again and the counter is 0. */
  lemma AllPermitsBack(max: nat, es: seq<Event>)
    requires Legal(Init(max), es)
    requires var s := Run(Init(max), es); s.granted == {} && s.inside == {}
    ensures var s := Run(Init(max), es); s.permits == max && s.activeCount == 0
  {
    RunKeepsInv(Init(max), es);
  }

  /** The semaphore has a permit for a waiting task exactly while fewer than the maximum are handed out or held. */
  lemma GrantedExactly(max: nat, es: seq<Event>, p: Pid)
    requires Legal(Init(max), es) && p in Run(Init(max), es).waiting
    ensures var s := Run(Init(max), es); Enabled(s, Grant(p)) <==> |s.granted| + |s.inside| < max
  {
    RunKeepsInv(Init(max), es);
  }

  /** And then two steps take it in, counted: nobody else moves, and the task's own leaving undoes both. */
  lemma InAndOutAgain(max: nat, es: seq<Event>, p: Pid)
    requires Legal(Init(max), es)
    requires Enabled(Run(Init(max), es), Grant(p))
    ensures var s := Run(Init(max), es);
      && Legal(s, [Grant(p), Resume(p)])
      && Run(s, [Grant(p), Resume(p)]) ==
           s.(waiting := s.waiting - {p}, inside := s.inside + {p}, permits := s.permits - 1, activeCount := s.activeCount + 1)
      && Legal(s, [Grant(p), Resume(p), Exit(p)])
      && Run(s, [Grant(p), Resume(p), Exit(p)]) == s.(waiting := s.waiting - {p})
  {
    RunKeepsInv(Init(max), es);
    var s := Run(Init(max), es);
    var granted := Next(s, Grant(p));
    StepKeepsInv(s, Grant(p));
    StepKeepsInv(granted, Resume(p));
    var inside := s.(waiting := s.waiting - {p}, inside := s.inside + {p}, permits := s.permits - 1, activeCount := s.activeCount + 1);
    assert s.granted + {p} - {p} == s.granted;
    assert Next(granted, Resume(p)) == inside;
    assert s.inside + {p} - {p} == s.inside;
    assert Next(inside, Exit(p)) == s.(waiting := s.waiting - {p});
    hide Next, Enabled;
    var es2, es3 := [Grant(p), Resume(p)], [Grant(p), Resume(p), Exit(p)];
    assert es2[1..] == [Resume(p)] && es3[1..] == [Resume(p), Exit(p)];
    assert [Resume(p)][1..] == [] && [Resume(p), Exit(p)][1..] == [Exit(p)] && [Exit(p)][1..] == [];
    assert Legal(inside, []) && Run(inside, []) == inside;
    assert Legal(granted, [Resume(p)]) && Run(granted, [Resume(p)]) == inside;
    var left := Next(inside, Exit(p));
    assert Legal(left, []) && Run(left, []) == left;
    assert Legal(inside, [Exit(p)]) && Run(inside, [Exit(p)]) == left;
    assert Legal(granted, [Resume(p), Exit(p)]) && Run(granted, [Resume(p), Exit(p)]) == left;
  }

  // ---------- the code ----------

  class BrowserLoginController {
    var semaphore: nat
    const maxConcurrent: nat
    var lock: Option<Pid>
    var activeCount: int
    ghost var waiting: set<Pid>
    ghost var granted: set<Pid>
    ghost var inside: set<Pid>

    ghost function View(): State
      reads this
    {
      State(maxConcurrent, semaphore, activeCount, lock, waiting, granted, {}, inside, {})
    }

    constructor (maxConcurrent: nat)
      ensures View() == Init(maxConcurrent) && Inv(View())
    {
      semaphore, this.maxConcurrent, lock, activeCount := maxConcurrent, maxConcurrent, None, 0;
      waiting, granted, inside := {}, {}, {};
    }

    /** acquire() begins to wait for the semaphore. */
    method AcquireBegin(p: Pid)
      requires Inv(View()) && Enabled(View(), Enter(p))
      modifies this`waiting
      ensures Inv(View()) && View() == Next(old(View()), Enter(p))
    {
      StepKeepsInv(View(), Enter(p));
      waiting := waiting + {p};
    }

    /** The semaphore hands it a permit. */
    method SemaphoreGrant(p: Pid)
      requires Inv(View()) && Enabled(View(), Grant(p))
      modifies this`semaphore, this`waiting, this`granted
      ensures Inv(View()) && View() == Next(old(View()), Grant(p))
    {
      StepKeepsInv(View(), Grant(p));
      semaphore := semaphore - 1;
      waiting, granted := waiting - {p}, granted + {p};
    }

    /** The semaphore takes the permit back from a task cancelled before it resumed. */
    method SemaphoreTakeBack(p: Pid)
      requires Inv(View()) && Enabled(View(), CancelGranted(p))
      modifies this`semaphore, this`granted
      ensures Inv(View()) && View() == Next(old(View()), CancelGranted(p))
    {
      StepKeepsInv(View(), CancelGranted(p));
      semaphore := semaphore + 1;
      granted := granted - {p};
    }

    /** acquire() resumes, counts itself under the lock and returns. */
    method AcquireEnd(p: Pid)
      requires Inv(View()) && Enabled(View(), Resume(p))
      modifies this`lock, this`activeCount, this`granted, this`inside
      ensures Inv(View()) && View() == Next(old(View()), Resume(p))
    {
      StepKeepsInv(View(), Resume(p));
      lock := Some(p);
      activeCount := activeCount + 1;
      lock := None;
      granted, inside := granted - {p}, inside + {p};
    }

    /** release(): uncounts itself under the lock and gives the permit back. */
    method Release(p: Pid)
      requires Inv(View()) && Enabled(View(), Exit(p))
      modifies this`lock, this`activeCount, this`semaphore, this`inside
      ensures Inv(View()) && View() == Next(old(View()), Exit(p))
    {
      StepKeepsInv(View(), Exit(p));
      lock := Some(p);
      activeCount := activeCount - 1;
      lock := None;
      semaphore := semaphore + 1;
      inside := inside - {p};
    }

    method IsFree() returns (free: bool)
      requires Inv(View())
      ensures free <==> |inside| < maxConcurrent
      ensures free <==> semaphore > 0 || granted != {}
    {
      free := activeCount < maxConcurrent;
    }
  }

  /** The context manager of one login task. */
  class BrowserLoginContext {
    const controller: BrowserLoginController
    const p: Pid
    var acquired: bool

    /** The flag is up exactly while the task is counted inside. */
    ghost predicate Valid()
      reads this, controller
    {
      Inv(controller.View()) && (acquired <==> p in controller.inside)
    }

    constructor (controller: BrowserLoginController, p: Pid)
      requires Inv(controller.View()) && p !in controller.inside
      ensures Valid() && !acquired && this.controller == controller && this.p == p
    {
      this.controller, this.p, acquired := controller, p, false;
    }

    /** __aenter__ once acquire() has been granted. */
    method Enter()
      requires Valid() && p in controller.granted
      modifies this`acquired, controller
      ensures Valid() && acquired
      ensures controller.View() == Next(old(controller.View()), Resume(p))
    {
      controller.AcquireEnd(p);
      acquired := true;
    }

    /** __aexit__: releases what was acquired, once; a second exit changes nothing. */
    method Exit()
      requires Valid()
      modifies this`acquired, controller
      ensures Valid() && !acquired
      ensures !old(acquired) ==> controller.View() == old(controller.View())
      ensures old(acquired) ==>
        && controller.semaphore == old(controller.semaphore) + 1
        && controller.activeCount == old(controller.activeCount) - 1
        && controller.inside == old(controller.inside) - {p}
    {
      if acquired {
        controller.Release(p);
        acquired := false;
      }
    }
  }
}
