/** The table of scene transitions and the two navigation chains trimmed to the current scene. */
module SceneTransitions {
  import opened Options

  type Scene = int

  datatype ControllerOption = ControllerOption(durationMs: int, count: int, buttons: int,
                                               leftTrigger: int, rightTrigger: int,
                                               leftThumbX: int, leftThumbY: int, rightThumbX: int, rightThumbY: int)

  datatype Transition = Transition(sceneId: Scene, transitionId: int,
                                   controllerOptions: seq<ControllerOption>, targetScenes: seq<Scene>)

  // One entry of a chain: a scene and the number of the transition to take there.
  datatype Step = Step(sceneId: Scene, transitionId: int)

  const SCENE_TRANSITIONS: seq<Transition> := [
    Transition(1, 1, [ControllerOption(50, 1, 2, 0, 0, 0, 0, 0, 0)], [2]),
    Transition(1, 2, [ControllerOption(1000, 1, 2, 0, 0, 0, 0, 0, 0)], [7]),
    Transition(2, 1, [ControllerOption(50, 0, 512, 0, 0, 0, 0, 0, 0)], [203]),
    Transition(2, 2, [ControllerOption(50, 5, 512, 0, 0, 0, 0, 0, 0), ControllerOption(50, 1, 16, 0, 0, 0, 0, 0, 0)], [3]),
    Transition(3, 1, [ControllerOption(50, 1, 16, 0, 0, 0, 0, 0, 0)], [5]),
    Transition(5, 1, [ControllerOption(50, 1, 16, 0, 0, 0, 0, 0, 0)], [6]),
    Transition(7, 1, [ControllerOption(50, 1, 256, 0, 0, 0, 0, 0, 0)], [8]),
    Transition(8, 1, [ControllerOption(50, 1, 16, 0, 0, 0, 0, 0, 0)], [8]),
    Transition(101, 1, [ControllerOption(50, 1, 16, 0, 0, 0, 0, 0, 0)], [126]),
    Transition(126, 1, [ControllerOption(50, 0, 512, 0, 0, 0, 0, 0, 0)], [127]),
    Transition(127, 1, [ControllerOption(50, 0, 16, 0, 0, 0, 0, 0, 0)], [147]),
    Transition(147, 1, [ControllerOption(50, 2, 4, 0, 255, 0, 0, 0, 0)], [149]),
    Transition(147, 2, [ControllerOption(50, 1, 4096, 0, 255, 0, 0, 0, 0), ControllerOption(50, 2, 4096, 0, 255, 0, 0, 0, 0), ControllerOption(50, 3, 4096, 0, 255, 0, 0, 0, 0)], [152]),
    Transition(149, 1, [ControllerOption(50, 1, 16, 0, 0, 0, 0, 0, 0)], [155]),
    Transition(149, 2, [ControllerOption(50, 1, 4096, 0, 255, 0, 0, 0, 0), ControllerOption(50, 2, 4096, 0, 255, 0, 0, 0, 0), ControllerOption(50, 3, 4096, 0, 255, 0, 0, 0, 0)], [152]),
    Transition(155, 1, [ControllerOption(50, 1, 16, 0, 0, 0, 0, 0, 0)], [156]),
    Transition(156, 1, [ControllerOption(50, 0, 16, 0, 0, 0, 0, 0, 0)], [168]),
    Transition(168, 1, [ControllerOption(50, 1, 16, 0, 0, 0, 0, 0, 0)], [177]),
    Transition(169, 1, [ControllerOption(50, 1, 2048, 0, 0, 0, 0, 0, 0)], [177]),
    Transition(170, 1, [ControllerOption(50, 1, 16, 0, 0, 0, 0, 0, 0)], [177]),
    Transition(171, 1, [ControllerOption(50, 1, 512, 0, 0, 0, 0, 0, 0)], [177]),
    Transition(172, 1, [ControllerOption(50, 1, 16, 0, 0, 0, 0, 0, 0)], [177]),
    Transition(173, 1, [ControllerOption(50, 1, 1024, 0, 0, 0, 0, 0, 0)], [177]),
    Transition(174, 1, [ControllerOption(50, 1, 16, 0, 0, 0, 0, 0, 0)], [177]),
    Transition(175, 1, [ControllerOption(50, 1, 64, 0, 0, 0, 0, 0, 0)], [168]),
    Transition(177, 1, [ControllerOption(50, 1, 256, 0, 0, 0, 0, 0, 0)], [176]),
    Transition(177, 2, [ControllerOption(50, 1, 16, 0, 0, 0, 0, 0, 0)], [183]),
    Transition(183, 1, [ControllerOption(50, 10, 16, 0, 0, 0, 0, 0, 0)], [189]),
    Transition(203, 1, [ControllerOption(50, 1, 16, 0, 0, 0, 0, 0, 0)], [101])
  ]

  const SQB_UT_MENU_CHAIN: seq<Step> :=
    [Step(147, 1), Step(149, 1), Step(155, 1), Step(156, 1), Step(168, 1), Step(177, 2), Step(183, 1)]
  const SQB_OPPONENT_TRANSITIONS: map<Scene, Step> := map[
    168 := Step(168, 1), 169 := Step(169, 1), 170 := Step(170, 1), 171 := Step(171, 1),
    172 := Step(172, 1), 173 := Step(173, 1), 174 := Step(174, 1)]
  const AUCTION_UT_CHAIN: seq<Step> := [Step(147, 2)]

  const SQB_COMPLETE_SCENE: Scene := 189
  const AUCTION_COMPLETE_SCENE: Scene := 152

  // The scenes the two navigators look for before they trim.
  const SQB_NAVIGATION_SCENES: seq<Scene> :=
    [127, 147, 149, 155, 156, 168, 169, 170, 171, 172, 173, 174, 175, 177, 183, 189]
  const AUCTION_NAVIGATION_SCENES: seq<Scene> := [127, 147, 149, 150, 151, 152, 153, 154]

  function Lookup(table: seq<Transition>, sceneId: Scene, transitionId: int): Option<Transition> {
    if table == [] then None
    else if table[0].sceneId == sceneId && table[0].transitionId == transitionId then Some(table[0])
    else Lookup(table[1..], sceneId, transitionId)
  }

  /** get_transition. */
  function GetTransition(sceneId: Scene, transitionId: int): Option<Transition> {
    Lookup(SCENE_TRANSITIONS, sceneId, transitionId)
  }

  /** trim_sqb_navigation_chain. */
  function TrimSqb(current: Option<Scene>): seq<Step> {
    var suffix := [Step(177, 2), Step(183, 1)];
    match current
    case None => SQB_UT_MENU_CHAIN
    case Some(scene) =>
      if scene == SQB_COMPLETE_SCENE then []
      else if scene == 183 then [Step(183, 1)]
      else if scene == 177 then suffix
      else if scene in SQB_OPPONENT_TRANSITIONS then [SQB_OPPONENT_TRANSITIONS[scene]] + suffix
      else if scene == 156 then [Step(156, 1), Step(168, 1)] + suffix
      else if scene == 155 then [Step(155, 1), Step(156, 1), Step(168, 1)] + suffix
      else if scene == 149 then [Step(149, 1), Step(155, 1), Step(156, 1), Step(168, 1)] + suffix
      else SQB_UT_MENU_CHAIN
  }

  /** trim_auction_navigation_chain. */
  function TrimAuction(current: Option<Scene>): seq<Step> {
    if current == Some(AUCTION_COMPLETE_SCENE) then []
    else if current == Some(149) then [Step(149, 2)]
    else if current == Some(147) then AUCTION_UT_CHAIN
    else [Step(127, 1), Step(147, 2)]
  }

  /** The transition an entry names exists and leads to that one scene. */
  predicate LeadsTo(step: Step, next: Scene) {
    var t := GetTransition(step.sceneId, step.transitionId);
    t.Some? && t.value.targetScenes == [next]
  }

  /** The scene the chain expects after its entry i. */
  function SceneAfter(chain: seq<Step>, goal: Scene, i: int): Scene
    requires 0 <= i < |chain|
  {
    if i + 1 < |chain| then chain[i + 1].sceneId else goal
  }

  /** A non-empty chain whose entries lead from one to the next and at last to the goal. */
  predicate IsPath(chain: seq<Step>, goal: Scene) {
    && |chain| > 0
    && forall i | 0 <= i < |chain| :: LeadsTo(chain[i], SceneAfter(chain, goal, i))
  }

  predicate InTable(t: Transition) {
    t in SCENE_TRANSITIONS
  }

  /** Looking up finds the first row with that key, and fails exactly when there is none. */
  lemma {:induction false} LookupFindsTheRow(table: seq<Transition>, sceneId: Scene, transitionId: int)
    ensures match Lookup(table, sceneId, transitionId)
            case None => forall t | t in table :: !(t.sceneId == sceneId && t.transitionId == transitionId)
            case Some(t) => t in table && t.sceneId == sceneId && t.transitionId == transitionId
  {
    if table != [] {
      LookupFindsTheRow(table[1..], sceneId, transitionId);
    }
  }

  /** Sorted by scene, then by transition number, without repetition. */
  predicate Before(a: Transition, b: Transition) {
    a.sceneId < b.sceneId || (a.sceneId == b.sceneId && a.transitionId < b.transitionId)
  }

  lemma TableIsSorted(i: nat, j: nat)
    requires i < j < |SCENE_TRANSITIONS|
    ensures Before(SCENE_TRANSITIONS[i], SCENE_TRANSITIONS[j])
    decreases j - i
  {
    assert Before(SCENE_TRANSITIONS[j - 1], SCENE_TRANSITIONS[j]);
    if i < j - 1 { TableIsSorted(i, j - 1); }
  }

  /** Every row of the table is the one its own key finds: no row hides another. */
  lemma EveryRowIsFound(i: nat)
    requires i < |SCENE_TRANSITIONS|
    ensures GetTransition(SCENE_TRANSITIONS[i].sceneId, SCENE_TRANSITIONS[i].transitionId) == Some(SCENE_TRANSITIONS[i])
  {
    var row := SCENE_TRANSITIONS[i];
    LookupFindsTheRow(SCENE_TRANSITIONS, row.sceneId, row.transitionId);
    var found := GetTransition(row.sceneId, row.transitionId).value;
    var j :| 0 <= j < |SCENE_TRANSITIONS| && SCENE_TRANSITIONS[j] == found;
    if i < j { TableIsSorted(i, j); }
    if j < i { TableIsSorted(j, i); }
  }

  /** A row with one target, as an entry of a chain, leads there. */
  lemma RowLeads(i: nat, step: Step, next: Scene)
    requires i < |SCENE_TRANSITIONS| && SCENE_TRANSITIONS[i].targetScenes == [next]
    requires step == Step(SCENE_TRANSITIONS[i].sceneId, SCENE_TRANSITIONS[i].transitionId)
    ensures LeadsTo(step, next)
  {
    EveryRowIsFound(i);
  }

  lemma SqbEntriesLead()
    ensures LeadsTo(Step(147, 1), 149) && LeadsTo(Step(149, 1), 155) && LeadsTo(Step(155, 1), 156)
    ensures LeadsTo(Step(156, 1), 168) && LeadsTo(Step(177, 2), 183) && LeadsTo(Step(183, 1), SQB_COMPLETE_SCENE)
    ensures forall opponent | 168 <= opponent <= 174 :: LeadsTo(Step(opponent, 1), 177)
  {
    hide LeadsTo;
    RowLeads(11, Step(147, 1), 149);
    RowLeads(13, Step(149, 1), 155);
    RowLeads(15, Step(155, 1), 156);
    RowLeads(16, Step(156, 1), 168);
    forall opponent | 168 <= opponent <= 174
      ensures LeadsTo(Step(opponent, 1), 177)
    {
      RowLeads(opponent - 151, Step(opponent, 1), 177);
    }
    RowLeads(26, Step(177, 2), 183);
    RowLeads(27, Step(183, 1), SQB_COMPLETE_SCENE);
  }

  /** For any scene or none, the Squad Battles chain is empty exactly when complete, else a path to scene 189. */
  lemma SqbChainIsPath(current: Option<Scene>)
    ensures TrimSqb(current) == [] <==> current == Some(SQB_COMPLETE_SCENE)
    ensures current != Some(SQB_COMPLETE_SCENE) ==> IsPath(TrimSqb(current), SQB_COMPLETE_SCENE)
  {
    hide LeadsTo;
    SqbEntriesLead();
    var suffix := [Step(177, 2), Step(183, 1)];
    assert IsPath(suffix, SQB_COMPLETE_SCENE);
    assert IsPath(SQB_UT_MENU_CHAIN, SQB_COMPLETE_SCENE);
  }

  lemma AuctionChainIsPath(current: Option<Scene>)
    ensures TrimAuction(current) == [] <==> current == Some(AUCTION_COMPLETE_SCENE)
    ensures current != Some(AUCTION_COMPLETE_SCENE) ==> IsPath(TrimAuction(current), AUCTION_COMPLETE_SCENE)
  {
    hide LeadsTo;
    RowLeads(10, Step(127, 1), 147);
    RowLeads(12, Step(147, 2), AUCTION_COMPLETE_SCENE);
    RowLeads(14, Step(149, 2), AUCTION_COMPLETE_SCENE);
  }

  /** Trimming again after the first step of a chain gives the rest of the same chain. */
  lemma TrimmingResumes(current: Option<Scene>)
    ensures var chain := TrimSqb(current);
      chain != [] ==> TrimSqb(Some(SceneAfter(chain, SQB_COMPLETE_SCENE, 0))) == chain[1..]
    ensures var chain := TrimAuction(current);
      chain != [] ==> TrimAuction(Some(SceneAfter(chain, AUCTION_COMPLETE_SCENE, 0))) == chain[1..]
  {
    assert SQB_UT_MENU_CHAIN[1..] == [Step(149, 1), Step(155, 1), Step(156, 1), Step(168, 1), Step(177, 2), Step(183, 1)];
  }

  /** Among the scenes the Squad Battles navigator looks for, only 127 and 175 get a chain that starts elsewhere. */
  lemma SqbStartsAtCurrent(scene: Scene)
    requires scene in SQB_NAVIGATION_SCENES && scene != SQB_COMPLETE_SCENE
    ensures var chain := TrimSqb(Some(scene)); |chain| > 0 && (chain[0].sceneId == scene <==> scene != 127 && scene != 175)
  {
  }

  /** Among those the transfer navigator looks for, the four side tabs do. */
  lemma AuctionStartsAtCurrent(scene: Scene)
    requires scene in AUCTION_NAVIGATION_SCENES && scene != AUCTION_COMPLETE_SCENE
    ensures var chain := TrimAuction(Some(scene)); |chain| > 0 && (chain[0].sceneId == scene <==> scene !in [150, 151, 153, 154])
  {
  }

  /** Off the route, or with nothing recognised, the whole default chain is taken. */
  lemma OffRouteTakesAll(current: Option<Scene>)
    ensures (current.None? || current.value !in [147, 149, 155, 156, 168, 169, 170, 171, 172, 173, 174, 177, 183, 189]) ==>
      TrimSqb(current) == [Step(147, 1), Step(149, 1), Step(155, 1), Step(156, 1), Step(168, 1), Step(177, 2), Step(183, 1)]
    ensures (current.None? || current.value !in [147, 149, 152]) ==> TrimAuction(current) == [Step(127, 1), Step(147, 2)]
  {
  }
}
