/**
 * What is proved about the session state machine of module `App`: every
 * handler keeps the invariant `Inv`, each handler does what the component
 * promises, and the two findings about stale state.
 */
module AppLemmas {
  import opened Wrappers
  import opened Catalog
  import opened GameLogic
  import opened Rules
  import opened App

  /** The solved counter never exceeds the number of mystery layers. */
  lemma {:induction false} SolvedAtMostMystery(s: SessionState)
    requires PuzzleStateOk(s) && s.puzzle.Some?
    ensures 0 <= s.mysterySolvedCount <= s.puzzle.value.totalMystery
  {
    var p := s.puzzle.value;
    SolvedBound(p.layers, p.level.structure);
  }

  lemma {:induction false} SolvedBound(layers: seq<Layer>, structure: seq<LayerKind>)
    requires |layers| == |structure|
    requires forall k :: 0 <= k < |layers| ==> LayerOk(structure[k], layers[k])
    ensures SolvedCount(layers) <= MysteryCount(structure)
    decreases |layers|
  {
    if layers != [] {
      var n := |layers|;
      SolvedBound(layers[..n - 1], structure[..n - 1]);
      assert structure == structure[..n - 1] + [structure[n - 1]];
      assert multiset(structure) == multiset(structure[..n - 1]) + multiset{structure[n - 1]};
    }
  }

  lemma {:induction false} InitialOk()
    ensures Inv(Initial())
  {
  }

  // ---------------------------------------------------------------------------
  // Fresh puzzles

  /** A fresh puzzle is well formed, of the requested level, with nothing solved. */
  lemma {:induction false} NewPuzzleOk(levelIndex: int, d: Dice)
    requires ValidDice(d) && 0 <= levelIndex < |LEVELS|
    ensures PuzzleOk(NewPuzzle(levelIndex, d))
    ensures NewPuzzle(levelIndex, d).level == LEVELS[levelIndex]
    ensures SolvedCount(NewPuzzle(levelIndex, d).layers) == 0
  {
    DiceFit(levelIndex, d);
    PuzzleOfOk(levelIndex, d.shuffled, d.layers[..|LEVELS[levelIndex].structure|]);
  }

  lemma {:induction false} PuzzleOfOk(levelIndex: int, shuffled: seq<ShapeType>, draws: seq<LayerDraws>)
    requires ValidPuzzleDraws(levelIndex, shuffled, draws) && 0 <= levelIndex < |LEVELS|
    ensures PuzzleOk(PuzzleOf(levelIndex, shuffled, draws))
    ensures PuzzleOf(levelIndex, shuffled, draws).level == LEVELS[levelIndex]
    ensures SolvedCount(PuzzleOf(levelIndex, shuffled, draws).layers) == 0
  {
    var p := PuzzleOf(levelIndex, shuffled, draws);
    PuzzleLayers(levelIndex, shuffled, draws);
    PuzzleOptions(levelIndex, shuffled, draws);
    assert LevelOk(p.level) by { LevelIds(); }
    forall k | 0 <= k < |p.layers|
      ensures LayerOk(p.level.structure[k], p.layers[k])
    {
    }
    NoneSolved(p.layers);
  }

  lemma {:induction false} NoneSolved(layers: seq<Layer>)
    requires forall k :: 0 <= k < |layers| ==> !layers[k].isSolved
    ensures SolvedCount(layers) == 0
    decreases |layers|
  {
    if layers != [] {
      NoneSolved(layers[..|layers| - 1]);
    }
  }

  // ---------------------------------------------------------------------------
  // Every handler keeps the invariant

  /**
   * A new assessment is well formed, and its options are enabled: no review
   * cursor and no practice feedback is left over from before.
   */
  lemma {:induction false} StartAssessmentOk(s: SessionState, d: Dice)
    requires Inv(s) && ValidDice(d)
    ensures Inv(StartAssessment(s, d))
    ensures !OptionsDisabled(StartAssessment(s, d))
  {
    FreshPuzzleOk(StartAssessment(s, d), 0, d);
  }

  /** A state showing a fresh puzzle with nothing solved is well formed in its puzzle part. */
  lemma {:induction false} FreshPuzzleOk(r: SessionState, levelIndex: int, d: Dice)
    requires ValidDice(d) && 0 <= levelIndex < |LEVELS|
    requires r.puzzle == Some(NewPuzzle(levelIndex, d)) && r.mysterySolvedCount == 0
    ensures PuzzleStateOk(r)
  {
    NewPuzzleOk(levelIndex, d);
  }

  lemma {:induction false} StartPracticeOk(s: SessionState, d: Dice)
    requires Inv(s) && ValidDice(d)
    ensures Inv(StartPractice(s, d))
  {
    var r := StartPractice(s, d);
    FreshPuzzleOk(r, s.startLevel, d);
    assert r.history == [] && r.practiceResult.None? && r.score == 0;
    assert forall i :: 0 <= i < |r.pendingAdvances| ==> r.pendingAdvances[i] == s.pendingAdvances[i];
  }

  /** The advance leaves a well-formed state from any state whose records are consistent. */
  lemma {:induction false} AdvancedOk(s: SessionState, nextLevelIdx: int, d: Dice)
    requires ValidDice(d) && 0 <= nextLevelIdx < |LEVELS|
    requires CountersOk(s) && RecordsOk(s) && PendingOk(s)
    requires s.appMode == Assessment ==> s.round < ASSESSMENT_ROUNDS && |s.history| == s.round && s.timeLeft >= 1
    ensures Inv(Advanced(s, nextLevelIdx, d))
  {
    FreshPuzzleOk(Advanced(s, nextLevelIdx, d), nextLevelIdx, d);
  }

  /** `saveHistory` appends one well-formed record and adds its points to the score. */
  lemma {:induction false} SavedOk(s: SessionState, isSuccess: bool, finalLayers: seq<Layer>)
    requires CountersOk(s) && RecordsOk(s) && PuzzleStateOk(s) && s.puzzle.Some?
    ensures RecordsOk(Saved(s, isSuccess, finalLayers))
    ensures Saved(s, isSuccess, finalLayers).history == s.history + [RecordOf(s, isSuccess, finalLayers)]
  {
    var r := RecordOf(s, isSuccess, finalLayers);
    var h := s.history + [r];
    assert h[..|h| - 1] == s.history;
    forall i | 0 <= i < |h| ensures RecordOk(h[i]) {
      if i < |s.history| {
        assert h[i] == s.history[i];
      }
    }
  }

  /** `finishQuestion` during an assessment keeps the invariant. */
  lemma {:induction false} FinishQuestionOk(s: SessionState, isSuccess: bool, finalLayers: seq<Layer>, d: Dice)
    requires Inv(s) && ValidDice(d) && s.appMode == Assessment && s.puzzle.Some?
    ensures Inv(FinishQuestion(s, isSuccess, finalLayers, d))
  {
    SavedOk(s, isSuccess, finalLayers);
    var saved := Saved(s, isSuccess, finalLayers);
    if s.round < ASSESSMENT_ROUNDS {
      AssessmentNextRule(s.currentLevelIdx, isSuccess);
      AdvancedOk(saved, AssessmentNextLevel(s.currentLevelIdx, isSuccess), d);
    }
  }

  /** The practice-success branch keeps the invariant. */
  lemma {:induction false} PracticeSucceededOk(s: SessionState, finalLayers: seq<Layer>, d: Dice)
    requires Inv(s) && 0.0 <= d.u < 1.0 && s.appMode == PracticePlay && s.puzzle.Some?
    ensures Inv(PracticeSucceeded(s, finalLayers, d))
  {
    assert CommonOk(s);
    var s1 := s.(practiceResult := Some(PracticeResult(true, None)));
    var saved := Saved(s1, true, finalLayers);
    var next := SuccessNext(s.practiceType, s.currentLevelIdx, s.isRandomPhase, d.useHarder, d.u);
    var r := PracticeSucceeded(s, finalLayers, d);
    assert r == saved.(isRandomPhase := next.randomPhase, pendingAdvances := s.pendingAdvances + [PendingAdvance(s.epoch, next.level)]);
    assert RecordsOk(r) && FeedbackOk(r) by {
      SavedOk(s1, true, finalLayers);
    }
    assert 0 <= next.level < |LEVELS| by {
      PracticeRulesInRange(s.practiceType, s.currentLevelIdx, s.isRandomPhase, false, d.useHarder, d.u);
    }
    PendingPush(s, r, PendingAdvance(s.epoch, next.level));
    assert CountersOk(r) && PuzzleStateOk(r) && r.appMode == PracticePlay;
  }

  /** Scheduling an advance to a level of the catalog, tagged with the current session, keeps the queue well formed. */
  lemma {:induction false} PendingPush(s: SessionState, r: SessionState, a: PendingAdvance)
    requires PendingOk(s) && r.pendingAdvances == s.pendingAdvances + [a] && r.epoch == s.epoch
    requires 0 <= a.nextLevel < |LEVELS| && a.epoch <= s.epoch
    ensures PendingOk(r)
  {
    assert forall i :: 0 <= i < |s.pendingAdvances| ==> r.pendingAdvances[i] == s.pendingAdvances[i];
  }

  /** The practice-failure branch keeps the invariant. */
  lemma {:induction false} PracticeFailedOk(s: SessionState, code: Code, finalLayers: seq<Layer>)
    requires Inv(s) && s.appMode == PracticePlay && s.puzzle.Some?
    ensures Inv(Saved(s.(practiceResult := Some(PracticeResult(false, Some(code)))), false, finalLayers))
  {
    SavedOk(s.(practiceResult := Some(PracticeResult(false, Some(code)))), false, finalLayers);
  }

  /**
   * Answering an offered option changes only the target layer: it records the
   * selection and becomes solved exactly when the selection is its code, so the
   * count of solved layers rises by one exactly then.
   */
  lemma {:induction false} AnsweredLayersSpec(layers: seq<Layer>, layerIndex: int, selected: Code)
    requires 0 <= layerIndex < |layers| && !layers[layerIndex].isSolved
    ensures var r := AnsweredLayers(layers, layerIndex, selected);
      |r| == |layers| &&
      (forall k :: 0 <= k < |r| && k != layerIndex ==> r[k] == layers[k]) &&
      r[layerIndex].userSelected == Some(selected) &&
      (r[layerIndex].isSolved <==> selected == layers[layerIndex].code) &&
      r[layerIndex] == layers[layerIndex].(userSelected := Some(selected), isSolved := r[layerIndex].isSolved) &&
      SolvedCount(r) == SolvedCount(layers) + (if selected == layers[layerIndex].code then 1 else 0)
  {
    var r := AnsweredLayers(layers, layerIndex, selected);
    SolvedCountUpdate(layers, layerIndex, r[layerIndex]);
  }

  lemma {:induction false} SolvedCountUpdate(layers: seq<Layer>, i: int, l: Layer)
    requires 0 <= i < |layers|
    ensures SolvedCount(layers[i := l]) ==
      SolvedCount(layers) - (if layers[i].isSolved then 1 else 0) + (if l.isSolved then 1 else 0)
    decreases |layers|
  {
    var n := |layers|;
    var r := layers[i := l];
    assert r[..n - 1] == if i < n - 1 then layers[..n - 1][i := l] else layers[..n - 1];
    if i < n - 1 {
      SolvedCountUpdate(layers[..n - 1], i, l);
    }
  }

  /** The puzzle stays well formed through an answer. */
  lemma {:induction false} AnsweredPuzzleOk(p: Puzzle, layerIndex: int, selected: Code)
    requires PuzzleOk(p) && 0 <= layerIndex < |p.layers| && p.layers[layerIndex].kind == M && !p.layers[layerIndex].isSolved
    ensures PuzzleOk(p.(layers := AnsweredLayers(p.layers, layerIndex, selected)))
  {
    AnsweredLayersSpec(p.layers, layerIndex, selected);
  }

  lemma {:induction false} HandleAnswerOk(s: SessionState, layerIndex: int, selected: Code, d: Dice)
    requires Inv(s) && ValidDice(d) && (AnswerBlocked(s) || AnswerOffered(s, layerIndex, selected))
    ensures Inv(HandleAnswer(s, layerIndex, selected, d))
  {
    if !AnswerBlocked(s) {
      if selected == s.puzzle.value.layers[layerIndex].code {
        RightAnswerOk(s, layerIndex, selected, d);
      } else {
        WrongAnswerOk(s, layerIndex, selected, d);
      }
    }
  }

  /** The puzzle after an answer, with the solved count it implies, keeps the invariant. */
  lemma {:induction false} AnsweredStateOk(s: SessionState, layerIndex: int, selected: Code)
    requires Inv(s) && !AnswerBlocked(s) && AnswerOffered(s, layerIndex, selected)
    ensures Inv(Answered(s, layerIndex, selected))
  {
    var p := s.puzzle.value;
    AnsweredLayersSpec(p.layers, layerIndex, selected);
    AnsweredPuzzleOk(p, layerIndex, selected);
  }

  lemma {:induction false} RightAnswerOk(s: SessionState, layerIndex: int, selected: Code, d: Dice)
    requires Inv(s) && ValidDice(d) && !AnswerBlocked(s) && AnswerOffered(s, layerIndex, selected)
    requires selected == s.puzzle.value.layers[layerIndex].code
    ensures Inv(HandleAnswer(s, layerIndex, selected, d))
  {
    var p := s.puzzle.value;
    assert s.mysterySolvedCount + 1 <= p.totalMystery by {
      SolvedAtMostMystery(s);
      SolvedBelow(p.layers, p.level.structure, layerIndex);
    }
    if s.mysterySolvedCount + 1 < p.totalMystery {
      PartialAnswerOk(s, layerIndex, selected, d);
    } else {
      LastAnswerOk(s, layerIndex, selected, d);
    }
  }

  /** A right answer that leaves mystery layers unsolved keeps the invariant. */
  lemma {:induction false} PartialAnswerOk(s: SessionState, layerIndex: int, selected: Code, d: Dice)
    requires Inv(s) && ValidDice(d) && !AnswerBlocked(s) && AnswerOffered(s, layerIndex, selected)
    requires selected == s.puzzle.value.layers[layerIndex].code
    requires s.mysterySolvedCount + 1 < s.puzzle.value.totalMystery
    ensures Inv(HandleAnswer(s, layerIndex, selected, d))
  {
    PartialAnswerSpec(s, layerIndex, selected, d);
    AnsweredStateOk(s, layerIndex, selected);
  }

  /** Solving the last mystery layer keeps the invariant, in an assessment and in practice. */
  lemma {:induction false} LastAnswerOk(s: SessionState, layerIndex: int, selected: Code, d: Dice)
    requires Inv(s) && ValidDice(d) && !AnswerBlocked(s) && AnswerOffered(s, layerIndex, selected)
    requires selected == s.puzzle.value.layers[layerIndex].code
    requires s.mysterySolvedCount + 1 == s.puzzle.value.totalMystery
    ensures Inv(HandleAnswer(s, layerIndex, selected, d))
  {
    var s1 := Answered(s, layerIndex, selected);
    AnsweredStateOk(s, layerIndex, selected);
    LastStepOk(s1, true, s1.puzzle.value.layers, d);
  }

  /** The end of a question, as `handleAnswer` reaches it in either mode, keeps the invariant. */
  lemma {:induction false} LastStepOk(s: SessionState, ok: bool, finalLayers: seq<Layer>, d: Dice)
    requires Inv(s) && ValidDice(d) && s.puzzle.Some? && (s.appMode == Assessment || s.appMode == PracticePlay)
    ensures s.appMode == Assessment ==> Inv(FinishQuestion(s, ok, finalLayers, d))
    ensures s.appMode == PracticePlay ==> Inv(PracticeSucceeded(s, finalLayers, d))
  {
    if s.appMode == Assessment {
      FinishQuestionOk(s, ok, finalLayers, d);
    } else {
      PracticeSucceededOk(s, finalLayers, d);
    }
  }

  lemma {:induction false} WrongAnswerOk(s: SessionState, layerIndex: int, selected: Code, d: Dice)
    requires Inv(s) && ValidDice(d) && !AnswerBlocked(s) && AnswerOffered(s, layerIndex, selected)
    requires selected != s.puzzle.value.layers[layerIndex].code
    ensures Inv(HandleAnswer(s, layerIndex, selected, d))
  {
    var s1 := Answered(s, layerIndex, selected);
    AnsweredStateOk(s, layerIndex, selected);
    if s.appMode == Assessment {
      FinishQuestionOk(s1, false, s1.puzzle.value.layers, d);
    } else {
      PracticeFailedOk(s1, s.puzzle.value.layers[layerIndex].code, s1.puzzle.value.layers);
    }
  }

  lemma {:induction false} PracticeNextOk(s: SessionState, d: Dice)
    requires Inv(s) && ValidDice(d) && FailureShown(s)
    ensures Inv(PracticeNext(s, d))
  {
    var lastCorrect := |s.history| > 0 && s.history[|s.history| - 1].correct;
    var next := PracticeNextLevel(s.practiceType, s.currentLevelIdx, s.isRandomPhase, lastCorrect, d.useHarder, d.u);
    assert 0 <= next < |LEVELS| by {
      PracticeRulesInRange(s.practiceType, s.currentLevelIdx, s.isRandomPhase, lastCorrect, d.useHarder, d.u);
    }
    assert CommonOk(s);
    AdvancedOk(s, next, d);
    assert PracticeNext(s, d) == Advanced(s, next, d);
  }

  lemma {:induction false} FireAdvanceOk(s: SessionState, d: Dice)
    requires Inv(s) && ValidDice(d) && s.pendingAdvances != []
    ensures Inv(FireAdvance(s, d))
  {
    var rest := s.(pendingAdvances := s.pendingAdvances[1..]);
    assert PendingOk(rest) by {
      forall i | 0 <= i < |rest.pendingAdvances|
        ensures 0 <= rest.pendingAdvances[i].nextLevel < |LEVELS| && rest.pendingAdvances[i].epoch <= rest.epoch
      {
        assert rest.pendingAdvances[i] == s.pendingAdvances[i + 1];
      }
    }
    if s.pendingAdvances[0].epoch == s.epoch && s.appMode == PracticePlay {
      AdvancedOk(rest, s.pendingAdvances[0].nextLevel, d);
      assert FireAdvance(s, d) == Advanced(rest, s.pendingAdvances[0].nextLevel, d);
    } else {
      assert FireAdvance(s, d) == rest;
    }
  }

  lemma {:induction false} BackOk(s: SessionState)
    requires Inv(s)
    ensures Inv(Back(s))
  {
  }

  lemma {:induction false} TickOk(s: SessionState)
    requires Inv(s)
    ensures Inv(Tick(s))
  {
  }

  lemma {:induction false} MenuOk(s: SessionState)
    requires Inv(s)
    ensures Inv(GoHome(s)) && Inv(OpenPracticeConfig(s))
  {
  }

  lemma {:induction false} ChooseTypeOk(s: SessionState, t: PracticeType)
    requires Inv(s)
    ensures Inv(ChoosePracticeType(s, t))
  {
  }

  lemma {:induction false} ChooseLevelOk(s: SessionState, i: int)
    requires Inv(s) && 0 <= i < |LEVELS|
    ensures Inv(ChooseStartLevel(s, i))
  {
  }

  /** The review cursor stays in {-1} and the indices of the history. */
  lemma {:induction false} ReviewOk(s: SessionState, i: int)
    requires Inv(s)
    ensures s.appMode == PracticePlay && |s.history| > 0 && s.reviewIndex != 0 ==> Inv(ReviewPrev(s))
    ensures s.appMode == PracticePlay && s.reviewIndex != -1 ==> Inv(ReviewNext(s))
    ensures s.appMode == Finished && s.reviewIndex == -1 && 0 <= i < |s.history| && !s.history[i].correct ==> Inv(SelectMistake(s, i))
  {
  }

  // ---------------------------------------------------------------------------
  // What the handlers do

  /**
   * A right answer that leaves mystery layers unsolved only marks the layer
   * and counts it: the question goes on.
   */
  lemma {:induction false} PartialAnswerSpec(s: SessionState, layerIndex: int, selected: Code, d: Dice)
    requires PuzzleStateOk(s) && ValidDice(d) && !AnswerBlocked(s) && AnswerOffered(s, layerIndex, selected)
    requires selected == s.puzzle.value.layers[layerIndex].code
    ensures s.mysterySolvedCount + 1 <= s.puzzle.value.totalMystery
    ensures s.mysterySolvedCount + 1 < s.puzzle.value.totalMystery ==>
      HandleAnswer(s, layerIndex, selected, d) == Answered(s, layerIndex, selected)
  {
    var p := s.puzzle.value;
    SolvedAtMostMystery(s);
    SolvedBelow(p.layers, p.level.structure, layerIndex);
  }

  /** A wrong practice answer shows the correct code and records a failure, with no points and no advance. */
  lemma {:induction false} PracticeFailureSpec(s: SessionState, layerIndex: int, selected: Code, d: Dice)
    requires Inv(s) && ValidDice(d) && !AnswerBlocked(s) && AnswerOffered(s, layerIndex, selected)
    requires s.appMode == PracticePlay && selected != s.puzzle.value.layers[layerIndex].code
    ensures var p := s.puzzle.value; var code := p.layers[layerIndex].code;
      var r := HandleAnswer(s, layerIndex, selected, d);
      r.practiceResult == Some(PracticeResult(false, Some(code))) && r.score == s.score &&
      r.history == s.history + [RecordOf(s, false, AnsweredLayers(p.layers, layerIndex, selected))] &&
      !r.history[|s.history|].correct && r.history[|s.history|].earned == 0 &&
      r.pendingAdvances == s.pendingAdvances && OptionsDisabled(r)
  {
  }

  /** Solving the last mystery layer in practice records a success with its points and schedules exactly one advance. */
  lemma {:induction false} PracticeSuccessSpec(s: SessionState, layerIndex: int, selected: Code, d: Dice)
    requires Inv(s) && ValidDice(d) && !AnswerBlocked(s) && AnswerOffered(s, layerIndex, selected)
    requires s.appMode == PracticePlay && selected == s.puzzle.value.layers[layerIndex].code
    requires s.mysterySolvedCount + 1 == s.puzzle.value.totalMystery
    ensures var p := s.puzzle.value;
      var r := HandleAnswer(s, layerIndex, selected, d);
      var next := SuccessNext(s.practiceType, s.currentLevelIdx, s.isRandomPhase, d.useHarder, d.u);
      r.practiceResult == Some(PracticeResult(true, None)) && r.score == s.score + p.level.points &&
      r.history == s.history + [RecordOf(s, true, AnsweredLayers(p.layers, layerIndex, selected))] &&
      r.pendingAdvances == s.pendingAdvances + [PendingAdvance(s.epoch, next.level)] &&
      r.isRandomPhase == next.randomPhase && r.round == s.round && OptionsDisabled(r)
  {
  }

  /**
   * The early returns of `handleAnswer`: without a puzzle, while a record is
   * under review, or while practice feedback is shown, an answer changes nothing.
   */
  lemma {:induction false} BlockedAnswerIgnored(s: SessionState, layerIndex: int, selected: Code, d: Dice)
    requires ValidDice(d) && AnswerBlocked(s)
    ensures HandleAnswer(s, layerIndex, selected, d) == s
  {
  }

  /**
   * In an assessment a wrong answer, or the last mystery layer solved, records
   * the question (with its points on a success) and either moves to the next
   * round with a fresh puzzle or, after round 24, finishes with the review
   * cursor cleared.
   */
  lemma {:induction false} AssessmentAnswerSpec(s: SessionState, layerIndex: int, selected: Code, d: Dice)
    requires Inv(s) && ValidDice(d) && !AnswerBlocked(s) && AnswerOffered(s, layerIndex, selected)
    requires s.appMode == Assessment
    requires selected != s.puzzle.value.layers[layerIndex].code || s.mysterySolvedCount + 1 == s.puzzle.value.totalMystery
    ensures var p := s.puzzle.value; var ok := selected == p.layers[layerIndex].code;
      var r := HandleAnswer(s, layerIndex, selected, d);
      r.history == s.history + [RecordOf(s, ok, AnsweredLayers(p.layers, layerIndex, selected))] &&
      r.score == s.score + (if ok then p.level.points else 0) &&
      (r.appMode == Finished <==> s.round == ASSESSMENT_ROUNDS) &&
      (r.appMode == Assessment <==> s.round < ASSESSMENT_ROUNDS) &&
      (r.appMode == Finished ==> r.reviewIndex == -1) &&
      (r.appMode == Assessment ==>
         r.round == s.round + 1 && r.currentLevelIdx == AssessmentNextLevel(s.currentLevelIdx, ok) &&
         r.puzzle == Some(NewPuzzle(r.currentLevelIdx, d)) && r.mysterySolvedCount == 0 &&
         r.practiceResult.None? && r.reviewIndex == -1)
  {
    var ok := selected == s.puzzle.value.layers[layerIndex].code;
    var s1 := Answered(s, layerIndex, selected);
    assert HandleAnswer(s, layerIndex, selected, d) == FinishQuestion(s1, ok, s1.puzzle.value.layers, d);
  }

  /** An unsolved mystery layer keeps the solved count below the mystery count. */
  lemma {:induction false} SolvedBelow(layers: seq<Layer>, structure: seq<LayerKind>, i: int)
    requires |layers| == |structure| && 0 <= i < |layers| && structure[i] == M && !layers[i].isSolved
    requires forall k :: 0 <= k < |layers| ==> LayerOk(structure[k], layers[k])
    ensures SolvedCount(layers) < MysteryCount(structure)
    decreases |layers|
  {
    var n := |layers|;
    assert structure == structure[..n - 1] + [structure[n - 1]];
    assert multiset(structure) == multiset(structure[..n - 1]) + multiset{structure[n - 1]};
    if i < n - 1 {
      SolvedBelow(layers[..n - 1], structure[..n - 1], i);
    } else {
      SolvedBound(layers[..n - 1], structure[..n - 1]);
    }
  }

  /**
   * An assessment ends after its 24th question: the record count is the number
   * of rounds played, below 24 while it runs and exactly 24 when the last
   * question finishes it.
   */
  lemma {:induction false} AssessmentLength(s: SessionState, isSuccess: bool, finalLayers: seq<Layer>, d: Dice)
    requires Inv(s) && ValidDice(d) && s.appMode == Assessment && s.puzzle.Some?
    ensures |s.history| < ASSESSMENT_ROUNDS
    ensures var r := FinishQuestion(s, isSuccess, finalLayers, d);
      |r.history| == |s.history| + 1 &&
      (r.appMode == Finished ==> |r.history| == ASSESSMENT_ROUNDS) &&
      (r.appMode == Assessment ==> r.round == |r.history| + 1 && r.currentLevelIdx == AssessmentNextLevel(s.currentLevelIdx, isSuccess))
  {
    SavedOk(s, isSuccess, finalLayers);
  }

  /**
   * "Next" after a practice failure: the level stays (LEVEL, PROGRESSIVE, and
   * RANDOM before its random phase, since the last record is a failure) or is a
   * weighted pick (the random phase); the phase itself never changes.
   */
  lemma {:induction false} PracticeNextSpec(s: SessionState, d: Dice)
    requires Inv(s) && ValidDice(d) && FailureShown(s)
    ensures var r := PracticeNext(s, d);
      r.isRandomPhase == s.isRandomPhase && r.round == s.round + 1 && r.practiceResult.None? &&
      r.history == s.history && r.score == s.score && r.mysterySolvedCount == 0 &&
      r.puzzle == Some(NewPuzzle(r.currentLevelIdx, d)) && r.reviewIndex == -1 &&
      (s.practiceType == Random && s.isRandomPhase ==> r.currentLevelIdx == WeightedLevel(|LEVELS|, d.useHarder, d.u)) &&
      (!(s.practiceType == Random && s.isRandomPhase) ==> r.currentLevelIdx == s.currentLevelIdx)
  {
    assert !s.history[|s.history| - 1].correct;
    var next := PracticeNextLevel(s.practiceType, s.currentLevelIdx, s.isRandomPhase, false, d.useHarder, d.u);
    assert PracticeNext(s, d) == Advanced(s, next, d);
  }

  /**
   * The timer counts down by one second per tick while more than one second
   * is left; the tick at one second ends the assessment at zero and clears the
   * review cursor. No other field changes.
   */
  lemma {:induction false} TickSpec(s: SessionState)
    requires Inv(s) && s.appMode == Assessment
    ensures var r := Tick(s);
      r.timeLeft == s.timeLeft - 1 && r.history == s.history && r.score == s.score && r.round == s.round &&
      (r.appMode == Finished <==> s.timeLeft == 1) && (r.appMode == Assessment <==> s.timeLeft > 1) &&
      (r.appMode == Finished ==> r.reviewIndex == -1) &&
      r == s.(timeLeft := r.timeLeft, appMode := r.appMode, reviewIndex := r.reviewIndex)
  {
  }

  /**
   * Left alone, an assessment with `t` seconds left is finished after exactly
   * `t` ticks, at zero, with its history and score untouched.
   */
  lemma {:induction false} Countdown(s: SessionState, n: nat)
    requires Inv(s) && s.appMode == Assessment && n == s.timeLeft
    ensures var r := Ticks(s, n);
      r.appMode == Finished && r.timeLeft == 0 && r.reviewIndex == -1 &&
      r.history == s.history && r.score == s.score && r.round == s.round
    decreases n
  {
    if n > 1 {
      var t := Tick(s);
      TickOk(s);
      Countdown(t, n - 1);
    }
  }

  /**
   * Under the invariant "Prev" steps the review cursor back from the live
   * question to the last record, then one record at a time down to 0; "Next"
   * steps it forward and leaves the last record for the live question.
   */
  lemma {:induction false} ReviewCursor(s: SessionState)
    requires Inv(s) && s.appMode == PracticePlay
    ensures |s.history| > 0 && s.reviewIndex != 0 ==>
      ReviewPrev(s).reviewIndex == (if s.reviewIndex == -1 then |s.history| - 1 else s.reviewIndex - 1) &&
      0 <= ReviewPrev(s).reviewIndex < |s.history|
    ensures s.reviewIndex != -1 ==>
      ReviewNext(s).reviewIndex == (if s.reviewIndex == |s.history| - 1 then -1 else s.reviewIndex + 1) &&
      -1 <= ReviewNext(s).reviewIndex < |s.history|
  {
  }

  // ---------------------------------------------------------------------------
  // Findings

  /**
   * As written, Back and "Assessment Sim" pressed while the practice failure
   * dialog is shown (the state `PracticeFailureSpec` leads to) start an
   * assessment whose options are all disabled: the practice feedback survives
   * `startAssessment`.
   */
  lemma {:induction false} StaleFeedbackAsWritten(s: SessionState, d: Dice)
    requires Inv(s) && ValidDice(d) && FailureShown(s)
    ensures var r := StartAssessmentAsWritten(Back(s), d);
      r.appMode == Assessment && r.round == 1 && OptionsDisabled(r) && !Inv(r)
  {
    var r := StartAssessmentAsWritten(Back(s), d);
    assert r.practiceResult == s.practiceResult;
    assert !AssessmentOk(r);
  }

  /**
   * As written, a delayed practice advance still pending (as `PracticeSuccessSpec`
   * schedules one) when Back and "Assessment Sim" are pressed moves the new
   * assessment to round 2 and a new level without any question answered.
   */
  lemma {:induction false} StaleAdvanceAsWritten(s: SessionState, d: Dice, d2: Dice)
    requires Inv(s) && ValidDice(d) && ValidDice(d2) && s.appMode == PracticePlay && s.pendingAdvances != []
    ensures var a := StartAssessmentAsWritten(Back(s), d);
      a.pendingAdvances != [] &&
      var r := FireAdvanceAsWritten(a, d2);
      r.appMode == Assessment && r.round == 2 && r.history == [] && !Inv(r)
  {
    var a := StartAssessmentAsWritten(Back(s), d);
    assert a.pendingAdvances == s.pendingAdvances;
    var r := FireAdvanceAsWritten(a, d2);
    assert r.appMode == Assessment && r.round == 2 && r.history == [];
    assert !AssessmentOk(r);
  }

  /**
   * With epochs, every advance scheduled before a session starts is dropped
   * when it fires: the assessment or practice just started keeps its round,
   * level and puzzle.
   */
  lemma {:induction false} StaleAdvanceIgnored(s: SessionState, d: Dice, d2: Dice)
    requires Inv(s) && ValidDice(d) && ValidDice(d2)
    ensures var a := StartAssessment(s, d);
      forall i :: 0 <= i < |a.pendingAdvances| ==> a.pendingAdvances[i].epoch < a.epoch
    ensures var a := StartAssessment(s, d);
      a.pendingAdvances != [] ==> FireAdvance(a, d2) == a.(pendingAdvances := a.pendingAdvances[1..])
    ensures var a := StartPractice(s, d);
      forall i :: 0 <= i < |a.pendingAdvances| ==> a.pendingAdvances[i].epoch < a.epoch
    ensures var a := StartPractice(s, d);
      a.pendingAdvances != [] ==> FireAdvance(a, d2) == a.(pendingAdvances := a.pendingAdvances[1..])
  {
    var a := StartAssessment(s, d);
    assert forall i :: 0 <= i < |a.pendingAdvances| ==> a.pendingAdvances[i] == s.pendingAdvances[i];
    var b := StartPractice(s, d);
    assert forall i :: 0 <= i < |b.pendingAdvances| ==> b.pendingAdvances[i] == s.pendingAdvances[i];
  }

  /** Advances of an older session stay dropped however many fire. */
  lemma {:induction false} StaleAdvancesDrained(a: SessionState, d: Dice)
    requires Inv(a) && ValidDice(d) && a.pendingAdvances != []
    requires forall i :: 0 <= i < |a.pendingAdvances| ==> a.pendingAdvances[i].epoch < a.epoch
    ensures var r := FireAdvance(a, d);
      r == a.(pendingAdvances := a.pendingAdvances[1..]) &&
      forall i :: 0 <= i < |r.pendingAdvances| ==> r.pendingAdvances[i].epoch < r.epoch
  {
    var r := FireAdvance(a, d);
    assert a.pendingAdvances[0].epoch < a.epoch;
    assert forall i :: 0 <= i < |r.pendingAdvances| ==> r.pendingAdvances[i] == a.pendingAdvances[i + 1];
  }
}
