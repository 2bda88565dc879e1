/**
 A console that does what the transition table says, so that what is proved of such consoles is not empty:
 its state is its scene, and the last option of a row takes it from the row's scene to the row's target.
 */
module SceneConsole {
  import opened Options
  import opened SceneTransitions
  import opened SceneRunner

  function LastOption(t: Transition): Option<ControllerOption> {
    if t.controllerOptions == [] then None else Some(t.controllerOptions[|t.controllerOptions| - 1])
  }

  /** The row by which an input leaves a scene. */
  function RowFor(table: seq<Transition>, scene: Scene, input: ControllerOption): Option<Transition> {
    if table == [] then None
    else if table[0].sceneId == scene && LastOption(table[0]) == Some(input) then Some(table[0])
    else RowFor(table[1..], scene, input)
  }

  function NextScene(scene: Scene, input: ControllerOption): Scene {
    var row := RowFor(SCENE_TRANSITIONS, scene, input);
    if row.Some? && row.value.targetScenes != [] then row.value.targetScenes[0] else scene
  }

  const TableConsole: Console<Scene> := Console(
    scene => scene,
    scene => true,
    (scene, input) => NextScene(scene, input),
    (scene, targets, strict, launch) => if scene in targets then Some(scene) else None,
    (scene, targets, seconds, strict, launch) => (scene, scene in targets),
    scene => scene)

  lemma {:induction false} RowForFinds(table: seq<Transition>, scene: Scene, input: ControllerOption)
    ensures match RowFor(table, scene, input)
            case None => forall t | t in table :: !(t.sceneId == scene && LastOption(t) == Some(input))
            case Some(t) => t in table && t.sceneId == scene && LastOption(t) == Some(input)
  {
    if table != [] { RowForFinds(table[1..], scene, input); }
  }

  /** Two rows of one scene are neighbours, and no input of one is the last input of the other. */
  lemma SameSceneRows(i: nat, j: nat)
    requires i < |SCENE_TRANSITIONS| && j < |SCENE_TRANSITIONS| && i != j
    requires SCENE_TRANSITIONS[i].sceneId == SCENE_TRANSITIONS[j].sceneId
    ensures forall o | o in SCENE_TRANSITIONS[i].controllerOptions :: LastOption(SCENE_TRANSITIONS[j]) != Some(o)
  {
    if i < j { Neighbours(i, j); } else { Neighbours(j, i); }
  }

  lemma Neighbours(i: nat, j: nat)
    requires i < j < |SCENE_TRANSITIONS| && SCENE_TRANSITIONS[i].sceneId == SCENE_TRANSITIONS[j].sceneId
    ensures j == i + 1
  {
    if i + 1 < j {
      ThreeRows(i);
      if i + 2 < j { TableIsSorted(i + 2, j); }
    }
  }

  lemma ThreeRows(i: nat)
    requires i + 2 < |SCENE_TRANSITIONS|
    ensures SCENE_TRANSITIONS[i].sceneId < SCENE_TRANSITIONS[i + 2].sceneId
  {
  }

  lemma RowShape(i: nat)
    requires i < |SCENE_TRANSITIONS|
    ensures var row := SCENE_TRANSITIONS[i];
      && |row.controllerOptions| > 0 && |row.targetScenes| == 1
      && forall k | 0 <= k < |row.controllerOptions| - 1 :: Some(row.controllerOptions[k]) != LastOption(row)
  {
  }

  /** Where a row's option k is meant to lead. */
  function Written(row: Transition, k: nat): Scene {
    if k + 1 == |row.controllerOptions| && row.targetScenes != [] then row.targetScenes[0] else row.sceneId
  }

  /** In a row's scene the row's last option leads to its target, and its earlier options change nothing. */
  lemma RowActs(i: nat, k: nat)
    requires i < |SCENE_TRANSITIONS| && k < |SCENE_TRANSITIONS[i].controllerOptions|
    ensures var row := SCENE_TRANSITIONS[i]; NextScene(row.sceneId, row.controllerOptions[k]) == Written(row, k)
  {
    var row := SCENE_TRANSITIONS[i];
    var input := row.controllerOptions[k];
    RowShape(i);
    RowForFinds(SCENE_TRANSITIONS, row.sceneId, input);
    var found := RowFor(SCENE_TRANSITIONS, row.sceneId, input);
    if found.Some? {
      var j: nat :| j < |SCENE_TRANSITIONS| && SCENE_TRANSITIONS[j] == found.value;
      if j != i { SameSceneRows(i, j); }
    }
  }

  lemma {:induction false} IdleInputs(scene: Scene, inputs: seq<ControllerOption>)
    requires forall o | o in inputs :: NextScene(scene, o) == scene
    ensures After(TableConsole, scene, inputs) == scene
  {
    if inputs != [] {
      assert inputs[0] in inputs;
      IdleInputs(scene, inputs[1..]);
    }
  }

  lemma {:induction false} AfterOneMore(scene: Scene, inputs: seq<ControllerOption>, input: ControllerOption)
    ensures After(TableConsole, scene, inputs + [input]) == NextScene(After(TableConsole, scene, inputs), input)
    decreases |inputs|
  {
    hide NextScene;
    if inputs == [] {
      assert inputs + [input] == [input] && [input][1..] == [];
    } else {
      assert (inputs + [input])[1..] == inputs[1..] + [input];
      AfterOneMore(NextScene(scene, inputs[0]), inputs[1..], input);
    }
  }

  lemma {:induction false} InputsSplit(options: seq<ControllerOption>, last: ControllerOption)
    ensures Inputs(options + [last]) == Inputs(options) + seq(Attempts(last), _ => last)
  {
    if options == [] {
      assert [] + [last] == [last] && [last][1..] == [];
    } else {
      assert (options + [last])[1..] == options[1..] + [last];
      InputsSplit(options[1..], last);
    }
  }

  lemma {:induction false} InputsAreOptions(options: seq<ControllerOption>)
    ensures forall o | o in Inputs(options) :: o in options
  {
    if options != [] { InputsAreOptions(options[1..]); }
  }

  /** From a row's scene, the inputs up to the first of its last option reach its target. */
  lemma RowReaches(row: Transition)
    requires |row.controllerOptions| > 0 && |row.targetScenes| == 1
    requires forall k | 0 <= k < |row.controllerOptions| :: NextScene(row.sceneId, row.controllerOptions[k]) == Written(row, k)
    ensures Reaches(TableConsole, scene => scene, row.sceneId, row)
  {
    hide NextScene;
    var n := |row.controllerOptions| - 1;
    var early, last := row.controllerOptions[..n], row.controllerOptions[n];
    assert row.controllerOptions == early + [last];
    InputsSplit(early, last);
    InputsAreOptions(early);
    var idle := Inputs(early);
    IdleInputs(row.sceneId, idle);
    AfterOneMore(row.sceneId, idle, last);
    hide After, Inputs;
    var inputs := Inputs(row.controllerOptions);
    assert inputs[..|idle| + 1] == idle + [last];
    assert 1 <= |idle| + 1 <= |inputs|;
  }

  /** Such a console exists: it is seen exactly and honours the whole table at once. */
  lemma TableConsoleHonours()
    ensures SeesExactly(TableConsole, scene => scene) && HonoursTable(TableConsole, scene => scene)
  {
    var sceneOf: Scene -> Scene := scene => scene;
    forall s: Scene, t | InTable(t) && t.sceneId == sceneOf(s)
      ensures Reaches(TableConsole, sceneOf, s, t)
    {
      var i: nat :| i < |SCENE_TRANSITIONS| && SCENE_TRANSITIONS[i] == t;
      RowShape(i);
      forall k | 0 <= k < |t.controllerOptions|
        ensures NextScene(s, t.controllerOptions[k]) == Written(t, k)
      {
        RowActs(i, k);
      }
      RowReaches(t);
    }
  }

  // ---------- where the navigators do not arrive ----------

  lemma {:induction false} AwayForever(away: Scene -> bool, scene: Scene, inputs: seq<ControllerOption>)
    requires away(scene) && forall s, o | away(s) && o in inputs :: away(NextScene(s, o))
    ensures away(After(TableConsole, scene, inputs))
    decreases |inputs|
  {
    hide NextScene;
    if inputs != [] {
      assert inputs[0] in inputs;
      AwayForever(away, NextScene(scene, inputs[0]), inputs[1..]);
    }
  }

  /** A step answers no from inside a set of scenes that its inputs never leave and that holds none of its targets. */
  lemma AwayStepFails(away: Scene -> bool, scene: Scene, step: Step, t: Transition)
    requires GetTransition(step.sceneId, step.transitionId) == Some(t)
    requires away(scene) && forall target | target in t.targetScenes :: !away(target)
    requires forall s, o | away(s) && o in t.controllerOptions :: away(NextScene(s, o))
    ensures !StepOutcome(TableConsole, scene, step).ok
  {
    hide NextScene, GetTransition;
    var inputs := Inputs(t.controllerOptions);
    InputsAreOptions(t.controllerOptions);
    WalkTellsItsStory(TableConsole, scene, inputs, t.targetScenes, 0);
    forall k | 0 <= k <= |inputs|
      ensures away(After(TableConsole, scene, inputs[..k]))
    {
      AwayForever(away, scene, inputs[..k]);
    }
    assert inputs[..|inputs|] == inputs;
  }

  const MENU_INPUT := ControllerOption(50, 2, 4, 0, 255, 0, 0, 0, 0)
  const ENTRY_INPUT := ControllerOption(50, 0, 16, 0, 0, 0, 0, 0, 0)

  lemma MenuInputRows(j: nat)
    requires j < |SCENE_TRANSITIONS| && LastOption(SCENE_TRANSITIONS[j]) == Some(MENU_INPUT)
    ensures SCENE_TRANSITIONS[j].sceneId == 147
  {
  }

  lemma EntryInputRows(j: nat)
    requires j < |SCENE_TRANSITIONS| && LastOption(SCENE_TRANSITIONS[j]) == Some(ENTRY_INPUT)
    ensures SCENE_TRANSITIONS[j].sceneId == 127 || SCENE_TRANSITIONS[j].targetScenes == [168]
  {
  }

  /** The first input of the Squad Battles menu chain does nothing away from scene 147. */
  lemma MenuInputIsIdle(scene: Scene)
    requires scene != 147
    ensures NextScene(scene, MENU_INPUT) == scene
  {
    RowForFinds(SCENE_TRANSITIONS, scene, MENU_INPUT);
    var found := RowFor(SCENE_TRANSITIONS, scene, MENU_INPUT);
    hide RowFor, LastOption;
    if found.Some? {
      var j: nat :| j < |SCENE_TRANSITIONS| && SCENE_TRANSITIONS[j] == found.value;
      MenuInputRows(j);
    }
  }

  /** The first input of the transfer chain leads away from scene 127 to 168 or nowhere. */
  lemma EntryInputGoesElsewhere(scene: Scene)
    requires scene != 127
    ensures NextScene(scene, ENTRY_INPUT) == scene || NextScene(scene, ENTRY_INPUT) == 168
  {
    RowForFinds(SCENE_TRANSITIONS, scene, ENTRY_INPUT);
    var found := RowFor(SCENE_TRANSITIONS, scene, ENTRY_INPUT);
    hide RowFor, LastOption;
    if found.Some? {
      var j: nat :| j < |SCENE_TRANSITIONS| && SCENE_TRANSITIONS[j] == found.value;
      EntryInputRows(j);
    }
  }

  lemma MenuStepFails(scene: Scene, step: Step)
    requires step == Step(147, 1)
    requires scene != 147 && scene != 149
    ensures !StepOutcome(TableConsole, scene, step).ok
  {
    hide StepOutcome, NextScene, GetTransition;
    var row := Transition(147, 1, [MENU_INPUT], [149]);
    MenuRow(step, row);
    var away: Scene -> bool := s => s != 147 && s != 149;
    forall s, o | away(s) && o in row.controllerOptions
      ensures away(NextScene(s, o))
    {
      MenuInputIsIdle(s);
    }
    AwayStepFails(away, scene, step, row);
  }

  lemma EntryStepFails(scene: Scene, step: Step)
    requires step == Step(127, 1)
    requires scene != 127 && scene != 147
    ensures !StepOutcome(TableConsole, scene, step).ok
  {
    hide StepOutcome, NextScene, GetTransition;
    var row := Transition(127, 1, [ENTRY_INPUT], [147]);
    EntryRow(step, row);
    var away: Scene -> bool := s => s != 127 && s != 147;
    forall s, o | away(s) && o in row.controllerOptions
      ensures away(NextScene(s, o))
    {
      EntryInputGoesElsewhere(s);
    }
    AwayStepFails(away, scene, step, row);
  }

  lemma MenuRow(step: Step, row: Transition)
    requires row == Transition(147, 1, [MENU_INPUT], [149]) && step == Step(row.sceneId, row.transitionId)
    ensures GetTransition(step.sceneId, step.transitionId) == Some(row)
  {
    hide GetTransition;
    EveryRowIsFound(11);
  }

  lemma EntryRow(step: Step, row: Transition)
    requires row == Transition(127, 1, [ENTRY_INPUT], [147]) && step == Step(row.sceneId, row.transitionId)
    ensures GetTransition(step.sceneId, step.transitionId) == Some(row)
  {
    hide GetTransition;
    EveryRowIsFound(10);
  }

  /** The chain is empty, or it starts at the scene the console is on. */
  predicate StartsAt(chain: seq<Step>, scene: Scene) {
    chain == [] || chain[0].sceneId == scene
  }

  /** Where the chain starts elsewhere it is the whole default chain. */
  lemma SqbElsewhere(scene: Scene)
    requires !StartsAt(TrimSqb(Some(scene)), scene)
    ensures TrimSqb(Some(scene))[0] == Step(147, 1) && scene != 147 && scene != 149 && scene != SQB_COMPLETE_SCENE
  {
  }

  lemma AuctionElsewhere(scene: Scene)
    requires !StartsAt(TrimAuction(Some(scene)), scene)
    ensures TrimAuction(Some(scene))[0] == Step(127, 1) && scene != 127 && scene != 147 && scene != AUCTION_COMPLETE_SCENE
  {
  }

  lemma FirstStepFails(scene: Scene, chain: seq<Step>, goal: Scene)
    requires chain != [] && scene != goal && !StepOutcome(TableConsole, scene, chain[0]).ok
    ensures !ChainOutcome(TableConsole, scene, chain, [goal], 0).ok
  {
    hide StepOutcome;
  }

  lemma NothingToDo<S>(w: Console<S>, s: S, goal: Scene)
    ensures ChainOutcome(w, s, [], [goal], 0).ok
  {
  }

  /** An exactly seen console that honours the table. */
  ghost predicate Honest<S(!new)>(w: Console<S>, sceneOf: S -> Scene) {
    SeesExactly(w, sceneOf) && HonoursTable(w, sceneOf)
  }

  lemma SqbArrives<S(!new)>(w: Console<S>, sceneOf: S -> Scene, s: S)
    requires Honest(w, sceneOf) && StartsAt(TrimSqb(Some(sceneOf(s))), sceneOf(s))
    ensures ChainOutcome(w, s, TrimSqb(Some(sceneOf(s))), [SQB_COMPLETE_SCENE], 0).ok
  {
    SqbChainIsPath(Some(sceneOf(s)));
    NothingToDo(w, s, SQB_COMPLETE_SCENE);
    hide TrimSqb, IsPath, ChainOutcome, SeesExactly, HonoursTable;
    SqbNavigation(w, sceneOf, s, Some(sceneOf(s)));
  }

  lemma AuctionArrives<S(!new)>(w: Console<S>, sceneOf: S -> Scene, s: S)
    requires Honest(w, sceneOf) && StartsAt(TrimAuction(Some(sceneOf(s))), sceneOf(s))
    ensures ChainOutcome(w, s, TrimAuction(Some(sceneOf(s))), [AUCTION_COMPLETE_SCENE], 0).ok
  {
    AuctionChainIsPath(Some(sceneOf(s)));
    NothingToDo(w, s, AUCTION_COMPLETE_SCENE);
    hide TrimAuction, IsPath, ChainOutcome, SeesExactly, HonoursTable;
    AuctionNavigation(w, sceneOf, s, Some(sceneOf(s)));
  }

  /** On that console the Squad Battles chain trimmed for a scene, run from it, arrives exactly when it starts there. */
  lemma SqbArrivesExactly(scene: Scene)
    ensures ChainOutcome(TableConsole, scene, TrimSqb(Some(scene)), [SQB_COMPLETE_SCENE], 0).ok
      <==> StartsAt(TrimSqb(Some(scene)), scene)
  {
    var chain := TrimSqb(Some(scene));
    if StartsAt(chain, scene) {
      TableConsoleHonours();
      hide SeesExactly, HonoursTable, ChainOutcome, TrimSqb;
      SqbArrives(TableConsole, s => s, scene);
    } else {
      SqbElsewhere(scene);
      hide TrimSqb, StepOutcome;
      MenuStepFails(scene, chain[0]);
      FirstStepFails(scene, chain, SQB_COMPLETE_SCENE);
    }
  }

  lemma AuctionArrivesExactly(scene: Scene)
    ensures ChainOutcome(TableConsole, scene, TrimAuction(Some(scene)), [AUCTION_COMPLETE_SCENE], 0).ok
      <==> StartsAt(TrimAuction(Some(scene)), scene)
  {
    var chain := TrimAuction(Some(scene));
    if StartsAt(chain, scene) {
      TableConsoleHonours();
      hide SeesExactly, HonoursTable, ChainOutcome, TrimAuction;
      AuctionArrives(TableConsole, s => s, scene);
    } else {
      AuctionElsewhere(scene);
      hide TrimAuction, StepOutcome;
      EntryStepFails(scene, chain[0]);
      FirstStepFails(scene, chain, AUCTION_COMPLETE_SCENE);
    }
  }

  /** Whenever an honest console shows the scene, the run answers yes. */
  ghost predicate Arrives(w: Console<Scene>, sceneOf: Scene -> Scene, s: Scene, chain: seq<Step>, goal: Scene) {
    Honest(w, sceneOf) ==> ChainOutcome(w, s, chain, [goal], 0).ok
  }

  /** So every honest console arrives from a scene exactly when the chain trimmed for the scene starts there. */
  lemma EveryConsoleArrivesExactly(scene: Scene)
    ensures (forall w: Console<Scene>, sceneOf: Scene -> Scene, s: Scene | sceneOf(s) == scene ::
               Arrives(w, sceneOf, s, TrimSqb(Some(scene)), SQB_COMPLETE_SCENE)) <==> StartsAt(TrimSqb(Some(scene)), scene)
    ensures (forall w: Console<Scene>, sceneOf: Scene -> Scene, s: Scene | sceneOf(s) == scene ::
               Arrives(w, sceneOf, s, TrimAuction(Some(scene)), AUCTION_COMPLETE_SCENE)) <==> StartsAt(TrimAuction(Some(scene)), scene)
  {
    TableConsoleHonours();
    SqbArrivesExactly(scene);
    AuctionArrivesExactly(scene);
    hide SeesExactly, HonoursTable, ChainOutcome, TrimSqb, TrimAuction, StartsAt;
    var sceneOf: Scene -> Scene := s => s;
    assert sceneOf(scene) == scene;
    assert Honest(TableConsole, sceneOf);
    assert Arrives(TableConsole, sceneOf, scene, TrimSqb(Some(scene)), SQB_COMPLETE_SCENE) ==> StartsAt(TrimSqb(Some(scene)), scene);
    assert Arrives(TableConsole, sceneOf, scene, TrimAuction(Some(scene)), AUCTION_COMPLETE_SCENE)
      ==> StartsAt(TrimAuction(Some(scene)), scene);
    forall w: Console<Scene>, f: Scene -> Scene, s: Scene | f(s) == scene && Honest(w, f) && StartsAt(TrimSqb(Some(scene)), scene)
      ensures ChainOutcome(w, s, TrimSqb(Some(scene)), [SQB_COMPLETE_SCENE], 0).ok
    {
      SqbArrives(w, f, s);
    }
    forall w: Console<Scene>, f: Scene -> Scene, s: Scene | f(s) == scene && Honest(w, f) && StartsAt(TrimAuction(Some(scene)), scene)
      ensures ChainOutcome(w, s, TrimAuction(Some(scene)), [AUCTION_COMPLETE_SCENE], 0).ok
    {
      AuctionArrives(w, f, s);
    }
  }
}
