/**
 Walking the scene table on a console: press, look, stop at the first target seen, and at most a
 fixed number of presses. The console may be any state machine; its eyes are the scene detector.
 */
module SceneRunner {
  import opened Options
  import SceneDetection
  import opened SceneTransitions

  const DEFAULT_ATTEMPTS := 20
  const FC_LAUNCH_SCENE: Scene := 101

  // The console and everything between it and the agent, as far as navigation can tell.
  datatype Console<!S> = Console(
    // Bringing the input channel back, and whether that leaves it open.
    recover: S -> S,
    ready: S -> bool,
    // Sending one input and letting 0.45 s pass.
    press: (S, ControllerOption) -> S,
    // The scene detector among the given scenes: strict or plain, with the launch threshold or without.
    sees: (S, seq<Scene>, bool, bool) -> Option<Scene>,
    // Polling for up to so many seconds: the state afterwards and the answer.
    poll: (S, seq<Scene>, nat, bool, bool) -> (S, bool),
    // The 0.4 s between two steps of a chain.
    pause: S -> S)

  // What a step or a chain answers, where it leaves the console, and how many inputs it sent.
  datatype Outcome<+S> = Outcome(ok: bool, state: S, sent: nat)

  function Attempts(option: ControllerOption): (n: nat)
    ensures n > 0
  {
    if option.count > 0 then option.count else DEFAULT_ATTEMPTS
  }

  /** The inputs a list of options may send, in order. */
  function Inputs(options: seq<ControllerOption>): seq<ControllerOption> {
    if options == [] then [] else seq(Attempts(options[0]), _ => options[0]) + Inputs(options[1..])
  }

  function Budget(options: seq<ControllerOption>): nat {
    if options == [] then 0 else Attempts(options[0]) + Budget(options[1..])
  }

  predicate StrictFor(targets: seq<Scene>) {
    forall t | t in targets :: t !in SceneDetection.FC_UT_TARGET_SCENES
  }

  /** The answer counts as seen when Python takes it for true: a scene other than 0. */
  predicate Seen<S>(w: Console<S>, s: S, targets: seq<Scene>) {
    var hit := w.sees(s, targets, StrictFor(targets), false);
    hit.Some? && hit.value != 0
  }

  function Fire<S>(w: Console<S>, s: S, input: ControllerOption): S {
    w.press(w.recover(s), input)
  }

  /** The console after some inputs, sent one after the other. */
  function After<S>(w: Console<S>, s: S, inputs: seq<ControllerOption>): S {
    if inputs == [] then s else After(w, Fire(w, s, inputs[0]), inputs[1..])
  }

  datatype Ending = Arrived | Stuck | Exhausted

  /** Sending inputs until a target is seen, the channel stays closed, or there are none left. */
  function Walk<S>(w: Console<S>, s: S, inputs: seq<ControllerOption>, targets: seq<Scene>, sent: nat): (Ending, S, nat)
    decreases |inputs|
  {
    if inputs == [] then (Exhausted, s, sent)
    else if !w.ready(s) then (Stuck, w.recover(s), sent)
    else
      var next := Fire(w, s, inputs[0]);
      if Seen(w, next, targets) then (Arrived, next, sent + 1)
      else Walk(w, next, inputs[1..], targets, sent + 1)
  }

  /** How long to go on looking after the last input of a transition. */
  function PostWait(scene: Scene): nat {
    if scene == 203 then 60 else if scene == 101 then 30 else if scene == 126 then 20 else 0
  }

  /** The last look, once the inputs are used up. */
  function LastLook<S>(w: Console<S>, s: S, sceneId: Scene, targets: seq<Scene>): (S, bool) {
    var launch := FC_LAUNCH_SCENE in targets;
    if PostWait(sceneId) > 0 then w.poll(s, targets, PostWait(sceneId), StrictFor(targets), launch)
    else (s, w.sees(s, targets, StrictFor(targets), launch).Some?)
  }

  function StepOutcome<S>(w: Console<S>, s: S, step: Step): Outcome<S> {
    match GetTransition(step.sceneId, step.transitionId)
    case None => Outcome(false, s, 0)
    case Some(t) =>
      var (ending, state, sent) := Walk(w, s, Inputs(t.controllerOptions), t.targetScenes, 0);
      match ending
      case Arrived => Outcome(true, state, sent)
      case Stuck => Outcome(false, state, sent)
      case Exhausted =>
        var (last, matched) := LastLook(w, state, step.sceneId, t.targetScenes);
        Outcome(matched, last, sent)
  }

  predicate AlreadyThere<S>(w: Console<S>, s: S, complete: seq<Scene>) {
    complete != [] && w.sees(s, complete, false, false).Some? && w.sees(s, complete, false, false).value in complete
  }

  function ChainOutcome<S>(w: Console<S>, s: S, chain: seq<Step>, complete: seq<Scene>, sent: nat): Outcome<S>
    decreases |chain|
  {
    if chain == [] || AlreadyThere(w, s, complete) then Outcome(true, s, sent)
    else
      var step := StepOutcome(w, s, chain[0]);
      if !step.ok then Outcome(false, step.state, sent + step.sent)
      else ChainOutcome(w, w.pause(step.state), chain[1..], complete, sent + step.sent)
  }

  /** _run_scene_transition. */
  method RunSceneTransition<S>(w: Console<S>, start: S, step: Step) returns (ok: bool, s: S, sent: nat)
    ensures Outcome(ok, s, sent) == StepOutcome(w, start, step)
  {
    s, sent := start, 0;
    var transition := GetTransition(step.sceneId, step.transitionId);
    if transition.None? {
      return false, s, sent;
    }
    var targets := transition.value.targetScenes;
    var options := transition.value.controllerOptions;
    ghost var walk := Walk(w, start, Inputs(options), targets, 0);
    for i := 0 to |options|
      invariant walk == Walk(w, s, Inputs(options[i..]), targets, sent)
    {
      var option := options[i];
      ghost var later := Inputs(options[i + 1..]);
      assert options[i..][1..] == options[i + 1..];
      for attempt := 0 to Attempts(option)
        invariant walk == Walk(w, s, seq(Attempts(option) - attempt, _ => option) + later, targets, sent)
      {
        ghost var left := seq(Attempts(option) - attempt, _ => option) + later;
        assert left[0] == option && left[1..] == seq(Attempts(option) - attempt - 1, _ => option) + later;
        if !w.ready(s) {
          s := w.recover(s);
          return false, s, sent;
        }
        s := w.press(w.recover(s), option);
        sent := sent + 1;
        var hit := w.sees(s, targets, StrictFor(targets), false);
        if hit.Some? && hit.value != 0 {
          return true, s, sent;
        }
      }
      assert seq(0, _ => option) + later == later;
    }
    var launch := FC_LAUNCH_SCENE in targets;
    var postWait := PostWait(step.sceneId);
    if postWait > 0 {
      var (last, matched) := w.poll(s, targets, postWait, StrictFor(targets), launch);
      return matched, last, sent;
    }
    ok := w.sees(s, targets, StrictFor(targets), launch).Some?;
  }

  /** run_scene_transition_chain. */
  method RunSceneTransitionChain<S>(w: Console<S>, start: S, chain: seq<Step>, complete: seq<Scene>)
    returns (ok: bool, s: S, sent: nat)
    ensures Outcome(ok, s, sent) == ChainOutcome(w, start, chain, complete, 0)
  {
    hide StepOutcome;
    s, sent := start, 0;
    for i := 0 to |chain|
      invariant ChainOutcome(w, start, chain, complete, 0) == ChainOutcome(w, s, chain[i..], complete, sent)
    {
      assert chain[i..][1..] == chain[i + 1..];
      if complete != [] {
        var hit := w.sees(s, complete, false, false);
        if hit.Some? && hit.value in complete {
          return true, s, sent;
        }
      }
      var stepOk, next, n := RunSceneTransition(w, s, chain[i]);
      s, sent := next, sent + n;
      if !stepOk {
        return false, s, sent;
      }
      s := w.pause(s);
    }
    ok := true;
  }

  /** The inputs are exactly as many as the options' counts allow. */
  lemma {:induction false} BudgetIsLength(options: seq<ControllerOption>)
    ensures |Inputs(options)| == Budget(options)
  {
    if options != [] { BudgetIsLength(options[1..]); }
  }

  /** What a walk of `sent` inputs did: it sent a prefix, ready each time, and saw no target before its last input. */
  ghost predicate WalkStory<S>(w: Console<S>, s: S, inputs: seq<ControllerOption>, targets: seq<Scene>,
                               ending: Ending, state: S, sent: nat)
  {
    && sent <= |inputs|
    && (forall k | 0 <= k < sent :: w.ready(After(w, s, inputs[..k])))
    && (forall k | 1 <= k < sent :: !Seen(w, After(w, s, inputs[..k]), targets))
    && match ending
       case Arrived =>
         sent > 0 && state == After(w, s, inputs[..sent]) && Seen(w, state, targets)
       case Stuck =>
         && sent < |inputs| && !w.ready(After(w, s, inputs[..sent])) && state == w.recover(After(w, s, inputs[..sent]))
         && (sent > 0 ==> !Seen(w, After(w, s, inputs[..sent]), targets))
       case Exhausted =>
         sent == |inputs| && state == After(w, s, inputs) && (sent > 0 ==> !Seen(w, state, targets))
  }

  /** On any console, a walk stops at its first sight of a target, at a closed channel, or with nothing left to send. */
  lemma {:induction false} WalkTellsItsStory<S>(w: Console<S>, s: S, inputs: seq<ControllerOption>, targets: seq<Scene>, before: nat)
    ensures var (ending, state, sent) := Walk(w, s, inputs, targets, before);
      sent >= before && WalkStory(w, s, inputs, targets, ending, state, sent - before)
    decreases |inputs|
  {
    if inputs != [] && w.ready(s) {
      var next := Fire(w, s, inputs[0]);
      assert inputs[..1] == [inputs[0]];
      assert After(w, s, inputs[..1]) == next;
      if !Seen(w, next, targets) {
        WalkTellsItsStory(w, next, inputs[1..], targets, before + 1);
        forall k | 1 <= k <= |inputs|
          ensures After(w, s, inputs[..k]) == After(w, next, inputs[1..][..k - 1])
        {
          assert inputs[..k][1..] == inputs[1..][..k - 1];
        }
        assert inputs[..|inputs|] == inputs;
      }
    }
  }

  /** The detector is right, an answer of the poll is right, and the scene does not change by itself. */
  ghost predicate SeesExactly<S(!new)>(w: Console<S>, sceneOf: S -> Scene) {
    && (forall s, targets, strict, launch ::
          w.sees(s, targets, strict, launch) == if sceneOf(s) in targets then Some(sceneOf(s)) else None)
    && (forall s, targets, seconds, strict, launch ::
          w.poll(s, targets, seconds, strict, launch).1 ==> sceneOf(w.poll(s, targets, seconds, strict, launch).0) in targets)
    && (forall s {:trigger w.pause(s)} :: sceneOf(w.pause(s)) == sceneOf(s))
  }

  /** The channel stays open, and from each scene of the table some non-empty prefix of a row's inputs reaches a target. */
  ghost predicate HonoursTable<S(!new)>(w: Console<S>, sceneOf: S -> Scene) {
    && (forall s :: w.ready(s))
    && (forall s, t {:trigger Reaches(w, sceneOf, s, t)} | InTable(t) && t.sceneId == sceneOf(s) :: Reaches(w, sceneOf, s, t))
  }

  ghost predicate Reaches<S>(w: Console<S>, sceneOf: S -> Scene, s: S, t: Transition) {
    var inputs := Inputs(t.controllerOptions);
    exists k | 1 <= k <= |inputs| :: sceneOf(After(w, s, inputs[..k])) in t.targetScenes
  }

  lemma RowTargets(i: nat)
    requires i < |SCENE_TRANSITIONS|
    ensures SCENE_TRANSITIONS[i].targetScenes != [] && 0 !in SCENE_TRANSITIONS[i].targetScenes
  {
  }

  lemma FoundInTable(step: Step, t: Transition)
    requires GetTransition(step.sceneId, step.transitionId) == Some(t)
    ensures InTable(t) && t.sceneId == step.sceneId && 0 !in t.targetScenes
  {
    LookupFindsTheRow(SCENE_TRANSITIONS, step.sceneId, step.transitionId);
    var i :| 0 <= i < |SCENE_TRANSITIONS| && SCENE_TRANSITIONS[i] == t;
    RowTargets(i);
  }

  /** A step that answers yes has left an exactly seen console on a target, whatever the console does. */
  lemma StepIsSound<S(!new)>(w: Console<S>, sceneOf: S -> Scene, s: S, step: Step, t: Transition)
    requires SeesExactly(w, sceneOf)
    requires GetTransition(step.sceneId, step.transitionId) == Some(t)
    requires StepOutcome(w, s, step).ok
    ensures sceneOf(StepOutcome(w, s, step).state) in t.targetScenes
  {
    WalkTellsItsStory(w, s, Inputs(t.controllerOptions), t.targetScenes, 0);
  }

  /** If the channel stays open and some non-empty prefix of the inputs shows a target, the walk arrives. */
  lemma WalkArrives<S(!new)>(w: Console<S>, s: S, inputs: seq<ControllerOption>, targets: seq<Scene>, k: nat)
    requires 1 <= k <= |inputs| && Seen(w, After(w, s, inputs[..k]), targets)
    requires forall s :: w.ready(s)
    ensures Walk(w, s, inputs, targets, 0).0 == Arrived && Walk(w, s, inputs, targets, 0).2 > 0
  {
    hide Walk, Seen, After;
    assert inputs[..|inputs|] == inputs;
    WalkTellsItsStory(w, s, inputs, targets, 0);
  }

  /** On a console that honours the table, a step taken from its own scene arrives. */
  lemma StepArrives<S(!new)>(w: Console<S>, sceneOf: S -> Scene, s: S, step: Step, t: Transition)
    requires SeesExactly(w, sceneOf) && HonoursTable(w, sceneOf)
    requires GetTransition(step.sceneId, step.transitionId) == Some(t) && sceneOf(s) == step.sceneId
    ensures StepOutcome(w, s, step).ok && StepOutcome(w, s, step).sent > 0
  {
    hide InTable, GetTransition;
    FoundInTable(step, t);
    var inputs := Inputs(t.controllerOptions);
    assert Reaches(w, sceneOf, s, t);
    var k :| 1 <= k <= |inputs| && sceneOf(After(w, s, inputs[..k])) in t.targetScenes;
    WalkArrives(w, s, inputs, t.targetScenes, k);
  }

  lemma RestIsPath(chain: seq<Step>, goal: Scene)
    requires IsPath(chain, goal) && |chain| > 1
    ensures IsPath(chain[1..], goal) && LeadsTo(chain[0], chain[1].sceneId)
  {
    hide LeadsTo;
    forall i | 0 <= i < |chain| - 1
      ensures LeadsTo(chain[1..][i], SceneAfter(chain[1..], goal, i))
    {
      assert LeadsTo(chain[i + 1], SceneAfter(chain, goal, i + 1));
    }
  }

  /** A chain that answers yes has reached its goal or a scene that completes it, whatever the console does. */
  lemma {:induction false} ChainIsSound<S(!new)>(w: Console<S>, sceneOf: S -> Scene, s: S, chain: seq<Step>, goal: Scene,
                                                 complete: seq<Scene>, before: nat)
    requires SeesExactly(w, sceneOf) && IsPath(chain, goal)
    requires ChainOutcome(w, s, chain, complete, before).ok
    ensures var last := sceneOf(ChainOutcome(w, s, chain, complete, before).state); last == goal || last in complete
    decreases |chain|
  {
    hide StepOutcome, GetTransition;
    if !AlreadyThere(w, s, complete) {
      var next := SceneAfter(chain, goal, 0);
      assert LeadsTo(chain[0], next);
      StepIsSound(w, sceneOf, s, chain[0], GetTransition(chain[0].sceneId, chain[0].transitionId).value);
      var step := StepOutcome(w, s, chain[0]);
      if |chain| > 1 {
        RestIsPath(chain, goal);
        ChainIsSound(w, sceneOf, w.pause(step.state), chain[1..], goal, complete, before + step.sent);
      }
    }
  }

  /** On a console that honours the table, a path run from its first scene reaches its goal. */
  lemma {:induction false} ChainArrives<S(!new)>(w: Console<S>, sceneOf: S -> Scene, s: S, chain: seq<Step>, goal: Scene, before: nat)
    requires SeesExactly(w, sceneOf) && HonoursTable(w, sceneOf)
    requires IsPath(chain, goal) && sceneOf(s) == chain[0].sceneId
    ensures var end := ChainOutcome(w, s, chain, [goal], before); end.ok && sceneOf(end.state) == goal
    decreases |chain|
  {
    hide StepOutcome, GetTransition;
    if !AlreadyThere(w, s, [goal]) {
      var next := SceneAfter(chain, goal, 0);
      assert LeadsTo(chain[0], next);
      var t := GetTransition(chain[0].sceneId, chain[0].transitionId).value;
      StepArrives(w, sceneOf, s, chain[0], t);
      StepIsSound(w, sceneOf, s, chain[0], t);
      var step := StepOutcome(w, s, chain[0]);
      if |chain| > 1 {
        RestIsPath(chain, goal);
        ChainArrives(w, sceneOf, w.pause(step.state), chain[1..], goal, before + step.sent);
      }
    }
  }

  function ChainBudget(chain: seq<Step>): nat {
    if chain == [] then 0
    else
      var t := GetTransition(chain[0].sceneId, chain[0].transitionId);
      (if t.Some? then Budget(t.value.controllerOptions) else 0) + ChainBudget(chain[1..])
  }

  /** On any console, a step sends at most the sum of its options' counts. */
  lemma StepWithinBudget<S>(w: Console<S>, s: S, step: Step)
    ensures StepOutcome(w, s, step).sent <= ChainBudget([step])
  {
    var t := GetTransition(step.sceneId, step.transitionId);
    if t.Some? {
      WalkTellsItsStory(w, s, Inputs(t.value.controllerOptions), t.value.targetScenes, 0);
      BudgetIsLength(t.value.controllerOptions);
    }
    assert [step][1..] == [];
  }

  lemma {:induction false} ChainWithinBudget<S>(w: Console<S>, s: S, chain: seq<Step>, complete: seq<Scene>, before: nat)
    ensures before <= ChainOutcome(w, s, chain, complete, before).sent <= before + ChainBudget(chain)
    decreases |chain|
  {
    hide StepOutcome, GetTransition;
    if chain != [] && !AlreadyThere(w, s, complete) {
      StepWithinBudget(w, s, chain[0]);
      assert [chain[0]][1..] == [];
      var step := StepOutcome(w, s, chain[0]);
      if step.ok {
        ChainWithinBudget(w, w.pause(step.state), chain[1..], complete, before + step.sent);
      }
    }
  }

  /** The Squad Battles chain, for any scene: a yes is true, it arrives where the table is honoured, in at most 36 inputs. */
  lemma SqbNavigation<S(!new)>(w: Console<S>, sceneOf: S -> Scene, s: S, current: Option<Scene>)
    requires SeesExactly(w, sceneOf)
    requires current == Some(SQB_COMPLETE_SCENE) ==> sceneOf(s) == SQB_COMPLETE_SCENE
    ensures var end := ChainOutcome(w, s, TrimSqb(current), [SQB_COMPLETE_SCENE], 0);
      && (end.ok ==> sceneOf(end.state) == SQB_COMPLETE_SCENE)
      && (HonoursTable(w, sceneOf) && TrimSqb(current) != [] && sceneOf(s) == TrimSqb(current)[0].sceneId ==> end.ok)
      && end.sent <= 36
  {
    var chain := TrimSqb(current);
    var end := ChainOutcome(w, s, chain, [SQB_COMPLETE_SCENE], 0);
    SqbChainIsPath(current);
    SqbBudget(current);
    ChainWithinBudget(w, s, chain, [SQB_COMPLETE_SCENE], 0);
    if chain != [] {
      if end.ok { ChainIsSound(w, sceneOf, s, chain, SQB_COMPLETE_SCENE, [SQB_COMPLETE_SCENE], 0); }
      if HonoursTable(w, sceneOf) && sceneOf(s) == chain[0].sceneId { ChainArrives(w, sceneOf, s, chain, SQB_COMPLETE_SCENE, 0); }
    }
  }

  /** The transfer chain likewise, in at most 26 inputs. */
  lemma AuctionNavigation<S(!new)>(w: Console<S>, sceneOf: S -> Scene, s: S, current: Option<Scene>)
    requires SeesExactly(w, sceneOf)
    requires current == Some(AUCTION_COMPLETE_SCENE) ==> sceneOf(s) == AUCTION_COMPLETE_SCENE
    ensures var end := ChainOutcome(w, s, TrimAuction(current), [AUCTION_COMPLETE_SCENE], 0);
      && (end.ok ==> sceneOf(end.state) == AUCTION_COMPLETE_SCENE)
      && (HonoursTable(w, sceneOf) && TrimAuction(current) != [] && sceneOf(s) == TrimAuction(current)[0].sceneId ==> end.ok)
      && end.sent <= 26
  {
    var chain := TrimAuction(current);
    var end := ChainOutcome(w, s, chain, [AUCTION_COMPLETE_SCENE], 0);
    AuctionChainIsPath(current);
    AuctionBudget(current);
    ChainWithinBudget(w, s, chain, [AUCTION_COMPLETE_SCENE], 0);
    if chain != [] {
      if end.ok { ChainIsSound(w, sceneOf, s, chain, AUCTION_COMPLETE_SCENE, [AUCTION_COMPLETE_SCENE], 0); }
      if HonoursTable(w, sceneOf) && sceneOf(s) == chain[0].sceneId { ChainArrives(w, sceneOf, s, chain, AUCTION_COMPLETE_SCENE, 0); }
    }
  }

  lemma RowBudget(i: nat, chain: seq<Step>, spent: nat)
    requires i < |SCENE_TRANSITIONS| && chain != [] && spent == Budget(SCENE_TRANSITIONS[i].controllerOptions)
    requires chain[0] == Step(SCENE_TRANSITIONS[i].sceneId, SCENE_TRANSITIONS[i].transitionId)
    ensures ChainBudget(chain) == spent + ChainBudget(chain[1..])
  {
    hide GetTransition, Budget;
    EveryRowIsFound(i);
  }

  lemma BudgetOfOne(option: ControllerOption)
    ensures Budget([option]) == Attempts(option)
  {
    assert [option][1..] == [];
  }

  /** The rows the menu chain takes, and what each may send. */
  lemma MenuRows(i: nat) returns (row: nat, spent: nat)
    requires i < 7
    ensures row < |SCENE_TRANSITIONS| && spent == [2, 1, 1, 20, 1, 1, 10][i] == Budget(SCENE_TRANSITIONS[row].controllerOptions)
    ensures SQB_UT_MENU_CHAIN[i] == Step(SCENE_TRANSITIONS[row].sceneId, SCENE_TRANSITIONS[row].transitionId)
  {
    row := [11, 13, 15, 16, 17, 26, 27][i];
    spent := [2, 1, 1, 20, 1, 1, 10][i];
    hide Budget;
    BudgetOfOne(SCENE_TRANSITIONS[row].controllerOptions[0]);
    assert SCENE_TRANSITIONS[row].controllerOptions == [SCENE_TRANSITIONS[row].controllerOptions[0]];
  }

  lemma MenuBudget(i: nat)
    requires i <= 7
    ensures ChainBudget(SQB_UT_MENU_CHAIN[i..]) == [36, 34, 33, 32, 12, 11, 10, 0][i]
    decreases 7 - i
  {
    if i < 7 {
      MenuBudget(i + 1);
      var row, spent := MenuRows(i);
      hide ChainBudget, Budget;
      RowBudget(row, SQB_UT_MENU_CHAIN[i..], spent);
      assert SQB_UT_MENU_CHAIN[i..][1..] == SQB_UT_MENU_CHAIN[i + 1..];
    }
  }

  /** A trimmed chain is a tail of the menu chain, or an opponent's step before the tail from scene 177 on. */
  lemma SqbIsATail(current: Option<Scene>) returns (i: nat)
    ensures i <= 7
    ensures var chain := TrimSqb(current);
      || chain == SQB_UT_MENU_CHAIN[i..]
      || (chain != [] && 168 <= chain[0].sceneId <= 174 && chain[0].transitionId == 1 && chain[1..] == SQB_UT_MENU_CHAIN[5..])
  {
    var chain := TrimSqb(current);
    if chain == [] { return 7; }
    var first := chain[0].sceneId;
    i := if first == 147 then 0 else if first == 149 then 1 else if first == 155 then 2
         else if first == 156 then 3 else if first == 177 then 5 else 6;
  }

  lemma SqbBudget(current: Option<Scene>)
    ensures ChainBudget(TrimSqb(current)) <= 36
  {
    var i := SqbIsATail(current);
    hide ChainBudget, GetTransition, TrimSqb, Budget;
    var chain := TrimSqb(current);
    MenuBudget(i);
    if chain != SQB_UT_MENU_CHAIN[i..] {
      MenuBudget(5);
      OpponentRow(chain[0]);
      RowBudget(chain[0].sceneId - 151, chain, 1);
    }
  }

  lemma OpponentRow(step: Step)
    requires 168 <= step.sceneId <= 174 && step.transitionId == 1
    ensures var row := SCENE_TRANSITIONS[step.sceneId - 151];
      step == Step(row.sceneId, row.transitionId) && Budget(row.controllerOptions) == 1
  {
    var options := SCENE_TRANSITIONS[step.sceneId - 151].controllerOptions;
    hide Budget;
    BudgetOfOne(options[0]);
    assert options == [options[0]];
  }

  /** Both ways from the menu to the transfer tab send at most 1 + 2 + 3 inputs. */
  lemma TransferRows(row: nat)
    requires row == 12 || row == 14
    ensures Budget(SCENE_TRANSITIONS[row].controllerOptions) == 6
  {
    var options := SCENE_TRANSITIONS[row].controllerOptions;
    assert |options| == 3 && Attempts(options[0]) == 1 && Attempts(options[1]) == 2 && Attempts(options[2]) == 3;
    BudgetOfThree(options);
  }

  lemma BudgetOfThree(options: seq<ControllerOption>)
    requires |options| == 3
    ensures Budget(options) == Attempts(options[0]) + Attempts(options[1]) + Attempts(options[2])
  {
    assert options[1..][1..] == [options[2]];
    BudgetOfOne(options[2]);
  }

  lemma AuctionBudget(current: Option<Scene>)
    ensures ChainBudget(TrimAuction(current)) <= 26
  {
    hide ChainBudget, Budget, GetTransition;
    var chain := TrimAuction(current);
    TransferRows(12);
    TransferRows(14);
    RowBudget(12, AUCTION_UT_CHAIN, 6);
    RowBudget(14, [Step(149, 2)], 6);
    EntryRow();
    RowBudget(10, [Step(127, 1), Step(147, 2)], 20);
    assert AUCTION_UT_CHAIN[1..] == [] && [Step(149, 2)][1..] == [] && [Step(127, 1), Step(147, 2)][1..] == AUCTION_UT_CHAIN;
    NothingToSend();
  }

  lemma EntryRow()
    ensures Budget(SCENE_TRANSITIONS[10].controllerOptions) == 20
  {
    var options := SCENE_TRANSITIONS[10].controllerOptions;
    assert options == [options[0]] && Attempts(options[0]) == 20;
    BudgetOfOne(options[0]);
  }

  lemma NothingToSend()
    ensures ChainBudget([]) == 0
  {
  }

  // ---------- what a step and a chain do, step by step ----------

  /** The inputs of one option are as many copies of it as its count says, twenty where it says none. */
  lemma InputsOfOne(option: ControllerOption)
    ensures |Inputs([option])| == if option.count > 0 then option.count else 20
    ensures forall k | 0 <= k < |Inputs([option])| :: Inputs([option])[k] == option
  {
    assert [option][1..] == [];
  }

  /** And those of several options follow each other in their order. */
  lemma {:induction false} InputsConcat(first: seq<ControllerOption>, second: seq<ControllerOption>)
    ensures Inputs(first + second) == Inputs(first) + Inputs(second)
  {
    if first == [] {
      assert first + second == second;
    } else {
      assert (first + second)[1..] == first[1..] + second;
      InputsConcat(first[1..], second);
    }
  }

  /** Each input is pressed once the channel has been brought back. */
  lemma {:induction false} AfterOneMore<S>(w: Console<S>, s: S, inputs: seq<ControllerOption>, input: ControllerOption)
    ensures After(w, s, inputs + [input]) == w.press(w.recover(After(w, s, inputs)), input)
    decreases |inputs|
  {
    if inputs == [] {
      assert inputs + [input] == [input] && [input][1..] == [];
    } else {
      assert (inputs + [input])[1..] == inputs[1..] + [input];
      AfterOneMore(w, Fire(w, s, inputs[0]), inputs[1..], input);
    }
  }

  /** A look among the targets that Python takes for true; strict unless a target is one of the five game scenes. */
  ghost predicate Hit<S>(w: Console<S>, s: S, targets: seq<Scene>) {
    exists scene: Scene | scene != 0 ::
      w.sees(s, targets, forall t | t in targets :: t != 101 && t != 126 && t != 127 && t != 147 && t != 149, false) == Some(scene)
  }

  /** The last look at the end of the inputs: for up to 60, 30 or 20 seconds after scenes 203, 101 and 126, else once. */
  ghost predicate LookedLast<S>(w: Console<S>, end: S, sceneId: Scene, targets: seq<Scene>, o: Outcome<S>) {
    var strict := forall t | t in targets :: t != 101 && t != 126 && t != 127 && t != 147 && t != 149;
    var launch := 101 in targets;
    if sceneId == 203 then (o.state, o.ok) == w.poll(end, targets, 60, strict, launch)
    else if sceneId == 101 then (o.state, o.ok) == w.poll(end, targets, 30, strict, launch)
    else if sceneId == 126 then (o.state, o.ok) == w.poll(end, targets, 20, strict, launch)
    else o.state == end && (o.ok <==> w.sees(end, targets, strict, launch) != None)
  }

  /** What a step over a row did: a prefix of its inputs, no hit before the last of them, and one of three endings. */
  ghost predicate StepStory<S>(w: Console<S>, s: S, t: Transition, o: Outcome<S>) {
    var inputs := Inputs(t.controllerOptions);
    && o.sent <= |inputs|
    && (forall k | 0 <= k < o.sent :: w.ready(After(w, s, inputs[..k])))
    && (forall k | 1 <= k < o.sent :: !Hit(w, After(w, s, inputs[..k]), t.targetScenes))
    && var reached := After(w, s, inputs[..o.sent]);
       if o.sent > 0 && Hit(w, reached, t.targetScenes) then o.ok && o.state == reached
       else if o.sent < |inputs| then !w.ready(reached) && !o.ok && o.state == w.recover(reached)
       else LookedLast(w, reached, t.sceneId, t.targetScenes, o)
  }

  lemma SeenIsHit<S>(w: Console<S>, s: S, targets: seq<Scene>)
    ensures Seen(w, s, targets) <==> Hit(w, s, targets)
    ensures StrictFor(targets) <==> forall t | t in targets :: t != 101 && t != 126 && t != 127 && t != 147 && t != 149
  {
    assert StrictFor(targets) <==> forall t | t in targets :: t != 101 && t != 126 && t != 127 && t != 147 && t != 149;
  }

  lemma LastLookIsLooked<S>(w: Console<S>, end: S, sceneId: Scene, targets: seq<Scene>, sent: nat)
    ensures var (last, matched) := LastLook(w, end, sceneId, targets);
      LookedLast(w, end, sceneId, targets, Outcome(matched, last, sent))
  {
    SeenIsHit(w, end, targets);
  }

  lemma WalkHasStory<S>(w: Console<S>, s: S, t: Transition, ending: Ending, state: S, o: Outcome<S>)
    requires WalkStory(w, s, Inputs(t.controllerOptions), t.targetScenes, ending, state, o.sent)
    requires ending.Arrived? ==> o.ok && o.state == state
    requires ending.Stuck? ==> !o.ok && o.state == state
    requires ending.Exhausted? ==> LookedLast(w, state, t.sceneId, t.targetScenes, o)
    ensures StepStory(w, s, t, o)
  {
    var inputs := Inputs(t.controllerOptions);
    forall k | 0 <= k <= |inputs|
      ensures Seen(w, After(w, s, inputs[..k]), t.targetScenes) <==> Hit(w, After(w, s, inputs[..k]), t.targetScenes)
    {
      SeenIsHit(w, After(w, s, inputs[..k]), t.targetScenes);
    }
    hide Seen, Hit, LookedLast, Inputs;
    assert inputs[..|inputs|] == inputs;
    assert o.sent == 0 ==> inputs[..0] == [];
  }

  /** What a step makes of its walk. */
  lemma StepOfWalk<S>(w: Console<S>, s: S, step: Step, t: Transition)
    requires GetTransition(step.sceneId, step.transitionId) == Some(t)
    ensures var (ending, state, sent) := Walk(w, s, Inputs(t.controllerOptions), t.targetScenes, 0);
      var o := StepOutcome(w, s, step);
      && o.sent == sent
      && (ending.Arrived? ==> o.ok && o.state == state)
      && (ending.Stuck? ==> !o.ok && o.state == state)
      && (ending.Exhausted? ==> LookedLast(w, state, step.sceneId, t.targetScenes, o))
  {
    hide GetTransition;
    var (ending, state, sent) := Walk(w, s, Inputs(t.controllerOptions), t.targetScenes, 0);
    hide Walk, Inputs;
    LastLookIsLooked(w, state, step.sceneId, t.targetScenes, sent);
    hide LookedLast, LastLook;
  }

  lemma RowTellsItsStory<S>(w: Console<S>, s: S, step: Step, t: Transition)
    requires GetTransition(step.sceneId, step.transitionId) == Some(t)
    ensures StepStory(w, s, t, StepOutcome(w, s, step))
  {
    hide GetTransition, InTable, LookedLast, Inputs, Walk, StepStory, StepOutcome, WalkStory;
    FoundInTable(step, t);
    StepOfWalk(w, s, step, t);
    WalkTellsItsStory(w, s, Inputs(t.controllerOptions), t.targetScenes, 0);
    var (ending, state, sent) := Walk(w, s, Inputs(t.controllerOptions), t.targetScenes, 0);
    WalkHasStory(w, s, t, ending, state, StepOutcome(w, s, step));
  }

  /** On any console: a step without a row does nothing and answers no, and any other step has such a story. */
  lemma StepTellsItsStory<S>(w: Console<S>, s: S, step: Step)
    ensures match GetTransition(step.sceneId, step.transitionId)
            case None => StepOutcome(w, s, step) == Outcome(false, s, 0)
            case Some(t) => StepStory(w, s, t, StepOutcome(w, s, step))
  {
    hide StepStory, GetTransition;
    var row := GetTransition(step.sceneId, step.transitionId);
    if row.Some? { RowTellsItsStory(w, s, step, row.value); }
  }

  /** Where the console is, and how much has been sent, when the chain is about to take its step i. */
  function Boundary<S>(w: Console<S>, s: S, chain: seq<Step>, i: nat): (S, nat)
    requires i <= |chain|
  {
    if i == 0 then (s, 0)
    else
      var (before, sent) := Boundary(w, s, chain, i - 1);
      var o := StepOutcome(w, before, chain[i - 1]);
      (w.pause(o.state), sent + o.sent)
  }

  /** The look at a boundary shows a completing scene. */
  ghost predicate ShowsComplete<S>(w: Console<S>, s: S, complete: seq<Scene>) {
    match w.sees(s, complete, false, false)
    case None => false
    case Some(scene) => scene in complete
  }

  /**
   What a chain did up to its boundary n: no look before showed a completing scene and every step before answered yes;
   there it ended, because the look shows one, because its step answered no, or because there is no step left.
   */
  ghost predicate ChainStory<S>(w: Console<S>, s: S, chain: seq<Step>, complete: seq<Scene>, n: nat, o: Outcome<S>) {
    && n <= |chain|
    && (forall i | 0 <= i < n ::
          !ShowsComplete(w, Boundary(w, s, chain, i).0, complete) && StepOutcome(w, Boundary(w, s, chain, i).0, chain[i]).ok)
    && var (at, sent) := Boundary(w, s, chain, n);
       if n == |chain| || ShowsComplete(w, at, complete) then o == Outcome(true, at, sent)
       else
         var step := StepOutcome(w, at, chain[n]);
         !step.ok && o == Outcome(false, step.state, sent + step.sent)
  }

  lemma {:induction false} BoundaryShift<S>(w: Console<S>, s: S, chain: seq<Step>, i: nat)
    requires 1 <= i <= |chain|
    ensures var first := StepOutcome(w, s, chain[0]);
      var (at, sent) := Boundary(w, w.pause(first.state), chain[1..], i - 1);
      Boundary(w, s, chain, i) == (at, first.sent + sent)
  {
    hide StepOutcome;
    if i > 1 {
      BoundaryShift(w, s, chain, i - 1);
    } else {
      assert Boundary(w, s, chain, 0) == (s, 0);
    }
  }

  lemma ShowsCompleteIsThere<S>(w: Console<S>, s: S, complete: seq<Scene>)
    ensures ShowsComplete(w, s, complete) <==> AlreadyThere(w, s, complete)
  {
  }

  /** On any console a chain has such a story; nothing is sent after a look that showed a completing scene. */
  lemma {:induction false} ChainTellsItsStory<S>(w: Console<S>, s: S, chain: seq<Step>, complete: seq<Scene>, before: nat)
    returns (n: nat)
    ensures var o := ChainOutcome(w, s, chain, complete, before);
      o.sent >= before && ChainStory(w, s, chain, complete, n, o.(sent := o.sent - before))
    decreases |chain|
  {
    ShowsCompleteIsThere(w, s, complete);
    hide StepOutcome, ShowsComplete, AlreadyThere;
    n := 0;
    if chain != [] && !AlreadyThere(w, s, complete) && StepOutcome(w, s, chain[0]).ok {
      var step := StepOutcome(w, s, chain[0]);
      var next := w.pause(step.state);
      var m := ChainTellsItsStory(w, next, chain[1..], complete, before + step.sent);
      n := m + 1;
      forall i | 1 <= i <= |chain|
        ensures Boundary(w, s, chain, i).0 == Boundary(w, next, chain[1..], i - 1).0
        ensures Boundary(w, s, chain, i).1 == step.sent + Boundary(w, next, chain[1..], i - 1).1
      {
        BoundaryShift(w, s, chain, i);
      }
    }
  }

  /** In particular a look at the head that shows a completing scene ends the chain there, with nothing sent. */
  lemma CompleteAtTheHead<S>(w: Console<S>, s: S, chain: seq<Step>, complete: seq<Scene>)
    requires ShowsComplete(w, s, complete)
    ensures ChainOutcome(w, s, chain, complete, 0) == Outcome(true, s, 0)
  {
    var n := ChainTellsItsStory(w, s, chain, complete, 0);
    hide ChainOutcome, StepOutcome;
    assert Boundary(w, s, chain, 0) == (s, 0);
  }
}
