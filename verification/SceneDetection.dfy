/** Choosing the current scene from template scores: the plain choice and the strict one. */
module SceneDetection {
  import opened Options

  type Scene = int

  // The matcher: at a given threshold a scene either matches with a confidence or does not match.
  type Matcher = (Scene, real) -> Option<real>

  const FC_UT_TARGET_SCENES: set<Scene> := {101, 126, 127, 147, 149}
  const XBOX_UI_AMBIGUOUS_SCENES: seq<Scene> := [1, 2, 3, 4, 5, 6, 7, 24, 203]
  const AMBIGUITY_MARGIN := 0.03

  /** _scene_match_threshold. */
  function MatchThreshold(scene: Scene, byDefault: real): real {
    if scene == 6 then 0.95
    else if scene == 5 then 0.88
    else if scene <= 64 then 0.60
    else if scene in FC_UT_TARGET_SCENES then 0.85
    else if scene == 203 then 0.90
    else byDefault
  }

  // The detector's settings on one frame.
  datatype Look = Look(matcher: Matcher, override: Option<real>, byDefault: real) {

    function ThresholdOf(scene: Scene): real {
      if override.Some? then override.value else MatchThreshold(scene, byDefault)
    }

    function Score(scene: Scene): Option<real> {
      matcher(scene, ThresholdOf(scene))
    }

    function Confidence(scene: Scene): real {
      if Score(scene).Some? then Score(scene).value else 0.0
    }

    /** Good enough for the plain choice. */
    predicate Eligible(scene: Scene) {
      Confidence(scene) >= ThresholdOf(scene) && Confidence(scene) > 0.0
    }
  }

  /** The plain answer: the first scene of greatest confidence among the eligible ones. */
  ghost predicate PlainAnswer(look: Look, scenes: seq<Scene>, answer: Option<Scene>) {
    match answer
    case None => forall i | 0 <= i < |scenes| :: !look.Eligible(scenes[i])
    case Some(best) =>
      && look.Eligible(best)
      && exists i | 0 <= i < |scenes| ::
           && scenes[i] == best
           && (forall j | 0 <= j < |scenes| && look.Eligible(scenes[j]) :: look.Confidence(scenes[j]) <= look.Confidence(best))
           && (forall j | 0 <= j < i && look.Eligible(scenes[j]) :: look.Confidence(scenes[j]) < look.Confidence(best))
  }

  /** The first scene of greatest confidence, eligible or not. */
  ghost predicate IsFirstGreatest(look: Look, scenes: seq<Scene>, i: nat) {
    && i < |scenes|
    && (forall j | 0 <= j < |scenes| :: look.Confidence(scenes[j]) <= look.Confidence(scenes[i]))
    && (forall j | 0 <= j < i :: look.Confidence(scenes[j]) < look.Confidence(scenes[i]))
  }

  predicate Rivalled(look: Look, scenes: seq<Scene>, best: Scene) {
    exists rival | rival in XBOX_UI_AMBIGUOUS_SCENES ::
      rival !in scenes && look.Confidence(rival) > look.Confidence(best) + AMBIGUITY_MARGIN
  }

  /** The strict answer: that first scene, if it meets its own threshold and no outside rival beats it clearly. */
  ghost predicate StrictAnswer(look: Look, scenes: seq<Scene>, answer: Option<Scene>) {
    exists i: nat | IsFirstGreatest(look, scenes, i) ::
      var best := scenes[i];
      var good := look.Confidence(best) >= MatchThreshold(best, look.byDefault) && !Rivalled(look, scenes, best);
      answer == if good then Some(best) else None
  }

  /** _score_scenes: the matching scenes with their confidences. */
  method ScoreScenes(look: Look, scenes: seq<Scene>) returns (scores: map<Scene, real>)
    ensures forall scene :: scene in scores <==> scene in scenes && look.Score(scene).Some?
    ensures forall scene | scene in scores :: scores[scene] == look.Confidence(scene)
    ensures scores != map[] ==> exists i | 0 <= i < |scenes| :: look.Score(scenes[i]).Some?
  {
    scores := map[];
    for i := 0 to |scenes|
      invariant scores != map[] ==> exists k | 0 <= k < |scenes| :: look.Score(scenes[k]).Some?
      invariant forall scene :: scene in scores <==> scene in scenes[..i] && look.Score(scene).Some?
      invariant forall scene | scene in scores :: scores[scene] == look.Confidence(scene)
    {
      assert scenes[..i + 1] == scenes[..i] + [scenes[i]];
      var score := look.matcher(scenes[i], look.ThresholdOf(scenes[i]));
      if score.Some? {
        scores := scores[scenes[i] := score.value];
      }
    }
    assert scenes[..|scenes|] == scenes;
  }

  /** The plain branch of _detect_any_scene. */
  method DetectPlain(look: Look, scenes: seq<Scene>) returns (answer: Option<Scene>)
    ensures PlainAnswer(look, scenes, answer)
  {
    var scores := ScoreScenes(look, scenes);
    if scores == map[] {
      forall i | 0 <= i < |scenes|
        ensures !look.Eligible(scenes[i])
      {
        assert scenes[i] !in scores;
      }
      return None;
    }
    answer := None;
    var bestConf := 0.0;
    ghost var at := 0;
    for i := 0 to |scenes|
      invariant answer.None? ==> bestConf == 0.0 && forall j | 0 <= j < i :: !look.Eligible(scenes[j])
      invariant answer.Some? ==>
        && at < i && scenes[at] == answer.value && look.Eligible(answer.value) && bestConf == look.Confidence(answer.value)
        && (forall j | 0 <= j < i && look.Eligible(scenes[j]) :: look.Confidence(scenes[j]) <= bestConf)
        && (forall j | 0 <= j < at && look.Eligible(scenes[j]) :: look.Confidence(scenes[j]) < bestConf)
    {
      var scene := scenes[i];
      var conf := if scene in scores then scores[scene] else 0.0;
      assert conf == look.Confidence(scene);
      if conf >= look.ThresholdOf(scene) && conf > bestConf {
        bestConf, answer, at := conf, Some(scene), i;
      }
    }
  }

  /** Whether the scores record exactly what a set of scenes that covers `scenes` and the rivals got. */
  ghost predicate ScoresFor(look: Look, scenes: seq<Scene>, scores: map<Scene, real>) {
    forall scene | scene in scenes || scene in XBOX_UI_AMBIGUOUS_SCENES ::
      (if scene in scores then scores[scene] else 0.0) == look.Confidence(scene)
  }

  /** max(target_scores, key=...): the first scene of greatest confidence. */
  method FirstGreatest(look: Look, scenes: seq<Scene>, scores: map<Scene, real>) returns (at: nat)
    requires scenes != [] && ScoresFor(look, scenes, scores)
    ensures IsFirstGreatest(look, scenes, at)
  {
    at := 0;
    for i := 1 to |scenes|
      invariant at < i
      invariant forall j | 0 <= j < i :: look.Confidence(scenes[j]) <= look.Confidence(scenes[at])
      invariant forall j | 0 <= j < at :: look.Confidence(scenes[j]) < look.Confidence(scenes[at])
    {
      var conf := if scenes[i] in scores then scores[scenes[i]] else 0.0;
      var best := if scenes[at] in scores then scores[scenes[at]] else 0.0;
      if conf > best { at := i; }
    }
  }

  method HasRival(look: Look, scenes: seq<Scene>, scores: map<Scene, real>, best: Scene) returns (rivalled: bool)
    requires best in scenes && ScoresFor(look, scenes, scores)
    ensures rivalled == Rivalled(look, scenes, best)
  {
    var bestConf := if best in scores then scores[best] else 0.0;
    for i := 0 to |XBOX_UI_AMBIGUOUS_SCENES|
      invariant forall k | 0 <= k < i ::
        XBOX_UI_AMBIGUOUS_SCENES[k] !in scenes ==> look.Confidence(XBOX_UI_AMBIGUOUS_SCENES[k]) <= look.Confidence(best) + AMBIGUITY_MARGIN
    {
      var rival := XBOX_UI_AMBIGUOUS_SCENES[i];
      if rival !in scenes {
        var conf := if rival in scores then scores[rival] else 0.0;
        if conf > bestConf + AMBIGUITY_MARGIN {
          return true;
        }
      }
    }
    return false;
  }

  /** The strict branch; with no scene to choose from, Python's max() of nothing raises once anything scored. */
  method DetectStrict(look: Look, scenes: seq<Scene>) returns (result: Result<Option<Scene>, ()>)
    ensures result.Failure? <==> scenes == [] && exists rival | rival in XBOX_UI_AMBIGUOUS_SCENES :: look.Score(rival).Some?
    ensures result.Success? && scenes == [] ==> result.value.None?
    ensures result.Success? && result.value.Some? ==> StrictAnswer(look, scenes, result.value)
    ensures result.Success? && result.value.None? ==>
      StrictAnswer(look, scenes, None) || forall scene | scene in scenes :: look.Score(scene).None?
  {
    var compared := scenes + XBOX_UI_AMBIGUOUS_SCENES;
    var scores := ScoreScenes(look, compared);
    if scores == map[] {
      forall scene | scene in scenes || scene in XBOX_UI_AMBIGUOUS_SCENES
        ensures look.Score(scene).None?
      {
        assert scene in compared && scene !in scores;
      }
      return Success(None);
    }
    if scenes == [] {
      assert compared == XBOX_UI_AMBIGUOUS_SCENES;
      return Failure(());
    }
    assert ScoresFor(look, scenes, scores);
    var at := FirstGreatest(look, scenes, scores);
    var best := scenes[at];
    if (if best in scores then scores[best] else 0.0) < MatchThreshold(best, look.byDefault) {
      return Success(None);
    }
    var rivalled := HasRival(look, scenes, scores, best);
    return Success(if rivalled then None else Some(best));
  }

  /** The plain answer is determined. */
  lemma PlainAnswerUnique(look: Look, scenes: seq<Scene>, a: Option<Scene>, b: Option<Scene>)
    requires PlainAnswer(look, scenes, a) && PlainAnswer(look, scenes, b)
    ensures a == b
  {
    if a.Some? && b.Some? {
      var i :| 0 <= i < |scenes| && scenes[i] == a.value
        && (forall j | 0 <= j < |scenes| && look.Eligible(scenes[j]) :: look.Confidence(scenes[j]) <= look.Confidence(a.value))
        && (forall j | 0 <= j < i && look.Eligible(scenes[j]) :: look.Confidence(scenes[j]) < look.Confidence(a.value));
      var k :| 0 <= k < |scenes| && scenes[k] == b.value
        && (forall j | 0 <= j < |scenes| && look.Eligible(scenes[j]) :: look.Confidence(scenes[j]) <= look.Confidence(b.value))
        && (forall j | 0 <= j < k && look.Eligible(scenes[j]) :: look.Confidence(scenes[j]) < look.Confidence(b.value));
      assert look.Confidence(scenes[i]) == look.Confidence(scenes[k]);
    }
  }

  /**
   A scene the strict choice names has no clear outside rival, and the plain choice on the same frame
   names the same scene exactly when that scene matched at all; a positive threshold is enough for that.
   */
  lemma StrictAgreesWithPlain(look: Look, scenes: seq<Scene>, best: Scene, plain: Option<Scene>)
    requires look.override.None?
    requires StrictAnswer(look, scenes, Some(best)) && PlainAnswer(look, scenes, plain)
    ensures !Rivalled(look, scenes, best)
    ensures plain == Some(best) <==> look.Confidence(best) > 0.0
    ensures best <= 64 || best in FC_UT_TARGET_SCENES || best == 203 || look.byDefault > 0.0 ==> plain == Some(best)
  {
    var i: nat :| IsFirstGreatest(look, scenes, i) && scenes[i] == best
      && look.Confidence(best) >= MatchThreshold(best, look.byDefault) && !Rivalled(look, scenes, best);
    if look.Confidence(best) > 0.0 {
      assert look.Eligible(best);
      assert PlainAnswer(look, scenes, Some(best));
      PlainAnswerUnique(look, scenes, plain, Some(best));
    }
  }

  /** A default threshold of 0 and a match of confidence 0: strict names the scene, plain names none. */
  lemma StrictNamesAnEmptyMatch()
    ensures var look := Look((scene, threshold) => Some(0.0), None, 0.0);
      StrictAnswer(look, [100], Some(100)) && PlainAnswer(look, [100], None)
  {
    var look := Look((scene, threshold) => Some(0.0), None, 0.0);
    assert IsFirstGreatest(look, [100], 0);
  }

  /** The thresholds of the detector, scene by scene. */
  predicate HasThreshold(scene: Scene, byDefault: real, threshold: real) {
    && (scene == 5 ==> threshold == 0.88)
    && (scene == 6 ==> threshold == 0.95)
    && (scene <= 64 && scene != 5 && scene != 6 ==> threshold == 0.60)
    && (scene == 101 || scene == 126 || scene == 127 || scene == 147 || scene == 149 ==> threshold == 0.85)
    && (scene == 203 ==> threshold == 0.90)
    && (scene > 64 && scene !in [101, 126, 127, 147, 149, 203] ==> threshold == byDefault)
  }

  /**
   A scene that either choice names without an override matched at its threshold of the table, with a confidence at
   least as high; where the plain choice names none, no scene of the list did with a positive one; and where the strict
   choice names none, the first greatest scene did not or is rivalled.
   */
  lemma AnswersMeetTheTable(look: Look, scenes: seq<Scene>, scene: Scene, threshold: real)
    requires look.override.None? && HasThreshold(scene, look.byDefault, threshold) && scene in scenes
    ensures PlainAnswer(look, scenes, Some(scene)) ==>
      var found := look.matcher(scene, threshold); found.Some? && found.value >= threshold && found.value > 0.0
    ensures StrictAnswer(look, scenes, Some(scene)) ==>
      var found := look.matcher(scene, threshold); (if found.Some? then found.value else 0.0) >= threshold
    ensures PlainAnswer(look, scenes, None) ==>
      var found := look.matcher(scene, threshold); found.None? || found.value < threshold || found.value <= 0.0
    ensures StrictAnswer(look, scenes, None) && !Rivalled(look, scenes, scene) ==>
      var found := look.matcher(scene, threshold);
      forall i: nat | IsFirstGreatest(look, scenes, i) && scenes[i] == scene :: (if found.Some? then found.value else 0.0) < threshold
  {
    TableIsFollowed(scene, look.byDefault, threshold);
    hide MatchThreshold, HasThreshold, Rivalled;
  }

  lemma TableIsFollowed(scene: Scene, byDefault: real, threshold: real)
    ensures HasThreshold(scene, byDefault, threshold) <==> threshold == MatchThreshold(scene, byDefault)
  {
  }

  /** A scene strict names is beaten by none of the nine ambiguous scenes outside the list by more than 0.03. */
  lemma StrictNamesOnlyClearScenes(look: Look, scenes: seq<Scene>, best: Scene)
    requires StrictAnswer(look, scenes, Some(best))
    ensures forall rival | rival in [1, 2, 3, 4, 5, 6, 7, 24, 203] && rival !in scenes ::
      look.Confidence(rival) <= look.Confidence(best) + 0.03
  {
  }

  /** And none other holds it back: strict names the first greatest scene if it meets its threshold and those nine do not. */
  lemma OnlyThoseNineCount(look: Look, scenes: seq<Scene>, i: nat)
    requires IsFirstGreatest(look, scenes, i) && StrictAnswer(look, scenes, None)
    requires look.Confidence(scenes[i]) >= MatchThreshold(scenes[i], look.byDefault)
    ensures exists rival | rival in [1, 2, 3, 4, 5, 6, 7, 24, 203] ::
      rival !in scenes && look.Confidence(rival) > look.Confidence(scenes[i]) + 0.03
  {
  }
}
