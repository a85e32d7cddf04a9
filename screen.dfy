/**
 * The game screen as the component holds it: one mutable field per `useState`
 * hook, and one method per handler that sets them in the order the handler
 * calls its setters. Each method is proved to move the fields exactly as the
 * matching function of module `App` moves the snapshot, and to keep the
 * invariant `App.Inv`.
 */
module Screen {
  import opened Wrappers
  import opened Catalog
  import opened GameLogic
  import opened Rules
  import App
  import AppLemmas

  class Session {
    var appMode: App.AppMode
    var practiceType: PracticeType
    var startLevel: int
    var round: int
    var currentLevelIdx: int
    var score: int
    var history: seq<App.HistoryRecord>
    var timeLeft: int
    var isRandomPhase: bool
    var puzzle: Option<Puzzle>
    var mysterySolvedCount: int
    var reviewIndex: int
    var practiceResult: Option<App.PracticeResult>
    /** The `setTimeout` advances scheduled and not fired yet, oldest first. */
    var pendingAdvances: seq<App.PendingAdvance>
    /** The number of sessions started. */
    var epoch: int

    /** The fields as one snapshot. */
    function State(): App.SessionState
      reads this
    {
      App.SessionState(appMode, practiceType, startLevel, round, currentLevelIdx, score, history,
        timeLeft, isRandomPhase, puzzle, mysterySolvedCount, reviewIndex, practiceResult,
        pendingAdvances, epoch)
    }

    predicate Valid()
      reads this
    {
      App.Inv(State())
    }

    /** The first render: the `useState` initial values. */
    constructor ()
      ensures State() == App.Initial() && Valid()
    {
      appMode := App.Home;
      practiceType := Progressive;
      startLevel := 0;
      round := 1;
      currentLevelIdx := 0;
      score := 0;
      history := [];
      timeLeft := App.ASSESSMENT_SECONDS;
      isRandomPhase := false;
      puzzle := None;
      mysterySolvedCount := 0;
      reviewIndex := -1;
      practiceResult := None;
      pendingAdvances := [];
      epoch := 0;
      AppLemmas.InitialOk();
    }

    // The state setters; each changes its own field only.

    method SetAppMode(v: App.AppMode)
      modifies this
      ensures State() == old(State()).(appMode := v)
    {
      appMode := v;
    }

    method SetPracticeType(v: PracticeType)
      modifies this
      ensures State() == old(State()).(practiceType := v)
    {
      practiceType := v;
    }

    method SetStartLevel(v: int)
      modifies this
      ensures State() == old(State()).(startLevel := v)
    {
      startLevel := v;
    }

    method SetRound(v: int)
      modifies this
      ensures State() == old(State()).(round := v)
    {
      round := v;
    }

    method SetCurrentLevelIdx(v: int)
      modifies this
      ensures State() == old(State()).(currentLevelIdx := v)
    {
      currentLevelIdx := v;
    }

    method SetScore(v: int)
      modifies this
      ensures State() == old(State()).(score := v)
    {
      score := v;
    }

    method SetHistory(v: seq<App.HistoryRecord>)
      modifies this
      ensures State() == old(State()).(history := v)
    {
      history := v;
    }

    method SetTimeLeft(v: int)
      modifies this
      ensures State() == old(State()).(timeLeft := v)
    {
      timeLeft := v;
    }

    method SetIsRandomPhase(v: bool)
      modifies this
      ensures State() == old(State()).(isRandomPhase := v)
    {
      isRandomPhase := v;
    }

    method SetPuzzle(v: Option<Puzzle>)
      modifies this
      ensures State() == old(State()).(puzzle := v)
    {
      puzzle := v;
    }

    method SetMysterySolvedCount(v: int)
      modifies this
      ensures State() == old(State()).(mysterySolvedCount := v)
    {
      mysterySolvedCount := v;
    }

    method SetReviewIndex(v: int)
      modifies this
      ensures State() == old(State()).(reviewIndex := v)
    {
      reviewIndex := v;
    }

    method SetPracticeResult(v: Option<App.PracticeResult>)
      modifies this
      ensures State() == old(State()).(practiceResult := v)
    {
      practiceResult := v;
    }

    method SetPendingAdvances(v: seq<App.PendingAdvance>)
      modifies this
      ensures State() == old(State()).(pendingAdvances := v)
    {
      pendingAdvances := v;
    }

    method SetEpoch(v: int)
      modifies this
      ensures State() == old(State()).(epoch := v)
    {
      epoch := v;
    }

    /** `generatePuzzle(levelIndex)` with the event's draws. */
    static method NewPuzzle(levelIndex: int, d: App.Dice) returns (p: Puzzle)
      requires App.ValidDice(d)
      ensures p == App.NewPuzzle(levelIndex, d)
    {
      App.DiceFit(levelIndex, d);
      p := GeneratePuzzle(levelIndex, d.shuffled, d.layers[..|LEVELS[ClampLevel(levelIndex)].structure|]);
    }

    /** `startAssessment`, clearing the practice feedback as well. */
    method StartAssessment(d: App.Dice)
      requires Valid() && App.ValidDice(d)
      modifies this
      ensures Valid() && State() == App.StartAssessment(old(State()), d)
    {
      AppLemmas.StartAssessmentOk(State(), d);
      ResetForAssessment(d);
    }

    /** The setter calls of `startAssessment`. */
    method ResetForAssessment(d: App.Dice)
      requires App.ValidDice(d)
      modifies this
      ensures State() == App.StartAssessment(old(State()), d)
    {
      ghost var before := State();
      ResetProgress(0);
      SetTimeLeft(App.ASSESSMENT_SECONDS);
      ShowNewPuzzle(0, d);
      SetAppMode(App.Assessment);
      SetEpoch(epoch + 1);
      assert State() == App.StartAssessmentAsWritten(before, d).(practiceResult := None);
    }

    /** `startPractice` */
    method StartPractice(d: App.Dice)
      requires Valid() && App.ValidDice(d)
      modifies this
      ensures Valid() && State() == App.StartPractice(old(State()), d)
    {
      AppLemmas.StartPracticeOk(State(), d);
      ResetForPractice(d);
    }

    /** The setter calls of `startPractice`. */
    method ResetForPractice(d: App.Dice)
      requires App.ValidDice(d)
      modifies this
      ensures State() == App.StartPractice(old(State()), d)
    {
      ghost var before := State();
      ResetProgress(startLevel);
      ShowNewPuzzle(startLevel, d);
      SetIsRandomPhase(false);
      SetAppMode(App.PracticePlay);
      SetEpoch(epoch + 1);
      assert State() == App.StartPractice(before, d);
    }

    /** The setter calls that put a fresh puzzle of level `levelIdx` on screen, with no review and no feedback. */
    method ShowNewPuzzle(levelIdx: int, d: App.Dice)
      requires App.ValidDice(d)
      modifies this
      ensures State() == old(State()).(puzzle := Some(App.NewPuzzle(levelIdx, d)), mysterySolvedCount := 0,
        reviewIndex := -1, practiceResult := None)
    {
      var p := NewPuzzle(levelIdx, d);
      SetPuzzle(Some(p));
      SetMysterySolvedCount(0);
      SetReviewIndex(-1);
      SetPracticeResult(None);
    }

    /** The four setter calls both start handlers begin with. */
    method ResetProgress(levelIdx: int)
      modifies this
      ensures State() == old(State()).(score := 0, round := 1, currentLevelIdx := levelIdx, history := [])
    {
      SetScore(0);
      SetRound(1);
      SetCurrentLevelIdx(levelIdx);
      SetHistory([]);
    }

    /** `advanceToNextQuestion(nextLevelIdx)` */
    method AdvanceToNextQuestion(nextLevelIdx: int, d: App.Dice)
      requires App.ValidDice(d)
      modifies this
      ensures State() == App.Advanced(old(State()), nextLevelIdx, d)
    {
      SetRound(round + 1);
      SetCurrentLevelIdx(nextLevelIdx);
      var p := NewPuzzle(nextLevelIdx, d);
      SetPuzzle(Some(p));
      SetMysterySolvedCount(0);
      SetPracticeResult(None);
      SetReviewIndex(-1);
    }

    /** `saveHistory(isSuccess, finalLayers)` */
    method SaveHistory(isSuccess: bool, finalLayers: seq<Layer>)
      modifies this
      ensures State() == App.Saved(old(State()), isSuccess, finalLayers)
    {
      if puzzle.None? {
        return;
      }
      var p := puzzle.value;
      var record := App.HistoryRecord(round, p.level.id, p.level.points,
        if isSuccess then p.level.points else 0, isSuccess, p.(layers := finalLayers));
      SetHistory(history + [record]);
      if isSuccess {
        SetScore(score + p.level.points);
      }
    }

    /** `finishQuestion(isSuccess, finalLayers)` */
    method FinishQuestion(isSuccess: bool, finalLayers: seq<Layer>, d: App.Dice)
      requires App.ValidDice(d)
      modifies this
      ensures State() == App.FinishQuestion(old(State()), isSuccess, finalLayers, d)
    {
      SaveHistory(isSuccess, finalLayers);
      ghost var saved := State();
      var nextLevelIdx := currentLevelIdx;
      if appMode == App.Assessment {
        if isSuccess && currentLevelIdx < Top() {
          nextLevelIdx := currentLevelIdx + 1;
        }
        if round >= App.ASSESSMENT_ROUNDS {
          SetAppMode(App.Finished);
          SetReviewIndex(-1);
        } else {
          assert nextLevelIdx == AssessmentNextLevel(old(currentLevelIdx), isSuccess);
          AdvanceToNextQuestion(nextLevelIdx, d);
          assert State() == App.Advanced(saved, nextLevelIdx, d);
        }
      }
    }

    /** `handleAnswer(selected, layerIndex)` */
    method HandleAnswer(layerIndex: int, selected: Code, d: App.Dice)
      requires Valid() && App.ValidDice(d)
      requires App.AnswerBlocked(State()) || App.AnswerOffered(State(), layerIndex, selected)
      modifies this
      ensures Valid() && State() == App.HandleAnswer(old(State()), layerIndex, selected, d)
    {
      AppLemmas.HandleAnswerOk(State(), layerIndex, selected, d);
      if puzzle.None? {
        return;
      }
      if reviewIndex != -1 || (appMode == App.PracticePlay && practiceResult.Some?) {
        return;
      }
      Answer(layerIndex, selected, d);
    }

    /** The body of `handleAnswer` past its early returns. */
    method Answer(layerIndex: int, selected: Code, d: App.Dice)
      requires App.ValidDice(d) && !App.AnswerBlocked(State()) && App.AnswerOffered(State(), layerIndex, selected)
      modifies this
      ensures State() == App.HandleAnswer(old(State()), layerIndex, selected, d)
    {
      var p := puzzle.value;
      var layer := p.layers[layerIndex];
      var updatedLayers := App.AnsweredLayers(p.layers, layerIndex, selected);
      if selected == layer.code {
        SetPuzzle(Some(p.(layers := updatedLayers)));
        var newSolvedCount := mysterySolvedCount + 1;
        SetMysterySolvedCount(newSolvedCount);
        if newSolvedCount == p.totalMystery {
          if appMode == App.Assessment {
            FinishQuestion(true, updatedLayers, d);
          } else {
            PracticeSuccess(updatedLayers, d);
          }
        }
      } else {
        SetPuzzle(Some(p.(layers := updatedLayers)));
        if appMode == App.Assessment {
          FinishQuestion(false, updatedLayers, d);
        } else {
          SetPracticeResult(Some(App.PracticeResult(false, Some(layer.code))));
          SaveHistory(false, updatedLayers);
        }
      }
    }

    /** The practice-success branch: feedback, record, and the delayed advance. */
    method PracticeSuccess(finalLayers: seq<Layer>, d: App.Dice)
      requires App.ValidDice(d)
      modifies this
      ensures State() == App.PracticeSucceeded(old(State()), finalLayers, d)
    {
      SetPracticeResult(Some(App.PracticeResult(true, None)));
      SaveHistory(true, finalLayers);
      var next := SuccessNext(practiceType, currentLevelIdx, isRandomPhase, d.useHarder, d.u);
      SetIsRandomPhase(next.randomPhase);
      SetPendingAdvances(pendingAdvances + [App.PendingAdvance(epoch, next.level)]);
    }

    /** `handlePracticeNext` */
    method PracticeNext(d: App.Dice)
      requires Valid() && App.ValidDice(d) && App.FailureShown(State())
      modifies this
      ensures Valid() && State() == App.PracticeNext(old(State()), d)
    {
      AppLemmas.PracticeNextOk(State(), d);
      var lastCorrect := |history| > 0 && history[|history| - 1].correct;
      var nextLevelIdx := PracticeNextLevel(practiceType, currentLevelIdx, isRandomPhase, lastCorrect, d.useHarder, d.u);
      AdvanceToNextQuestion(nextLevelIdx, d);
    }

    /** The oldest `setTimeout` advance fires; it applies only within the session that scheduled it. */
    method FireAdvance(d: App.Dice)
      requires Valid() && App.ValidDice(d) && pendingAdvances != []
      modifies this
      ensures Valid() && State() == App.FireAdvance(old(State()), d)
    {
      AppLemmas.FireAdvanceOk(State(), d);
      var a := pendingAdvances[0];
      SetPendingAdvances(pendingAdvances[1..]);
      if a.epoch == epoch && appMode == App.PracticePlay {
        AdvanceToNextQuestion(a.nextLevel, d);
      }
    }

    /** `handleBack` */
    method Back()
      requires Valid()
      modifies this
      ensures Valid() && State() == App.Back(old(State()))
    {
      AppLemmas.BackOk(State());
      if appMode == App.Finished {
        SetReviewIndex(-1);
      } else {
        SetAppMode(App.Home);
      }
    }

    /** One run of the assessment's interval callback. */
    method Tick()
      requires Valid()
      modifies this
      ensures Valid() && State() == App.Tick(old(State()))
    {
      AppLemmas.TickOk(State());
      if appMode != App.Assessment {
        return;
      }
      if timeLeft <= 1 {
        SetAppMode(App.Finished);
        SetReviewIndex(-1);
        SetTimeLeft(0);
      } else {
        SetTimeLeft(timeLeft - 1);
      }
    }

    /** The "Prev" button of the practice bar. */
    method ReviewPrev()
      requires Valid() && appMode == App.PracticePlay && |history| > 0 && reviewIndex != 0
      modifies this
      ensures Valid() && State() == App.ReviewPrev(old(State()))
    {
      AppLemmas.ReviewOk(State(), 0);
      var from := if reviewIndex == -1 then |history| else reviewIndex;
      SetReviewIndex(if from - 1 >= 0 then from - 1 else 0);
    }

    /** The "Next" button of the practice bar. */
    method ReviewNext()
      requires Valid() && appMode == App.PracticePlay && reviewIndex != -1
      modifies this
      ensures Valid() && State() == App.ReviewNext(old(State()))
    {
      AppLemmas.ReviewOk(State(), 0);
      SetReviewIndex(if reviewIndex == -1 || reviewIndex >= |history| - 1 then -1 else reviewIndex + 1);
    }

    /** A mistake of the finished assessment is opened for review. */
    method SelectMistake(i: int)
      requires Valid() && appMode == App.Finished && reviewIndex == -1 && 0 <= i < |history| && !history[i].correct
      modifies this
      ensures Valid() && State() == App.SelectMistake(old(State()), i)
    {
      AppLemmas.ReviewOk(State(), i);
      SetReviewIndex(i);
    }

    /** "Return to Menu" and the back button of the practice setup. */
    method GoHome()
      requires Valid()
      modifies this
      ensures Valid() && State() == App.GoHome(old(State()))
    {
      AppLemmas.MenuOk(State());
      SetAppMode(App.Home);
    }

    /** The "Practice Mode" button. */
    method OpenPracticeConfig()
      requires Valid()
      modifies this
      ensures Valid() && State() == App.OpenPracticeConfig(old(State()))
    {
      AppLemmas.MenuOk(State());
      SetAppMode(App.PracticeConfig);
    }

    /** A mode button of the practice setup. */
    method ChoosePracticeType(t: PracticeType)
      requires Valid()
      modifies this
      ensures Valid() && State() == App.ChoosePracticeType(old(State()), t)
    {
      AppLemmas.ChooseTypeOk(State(), t);
      SetPracticeType(t);
    }

    /** The start level selector of the practice setup. */
    method ChooseStartLevel(i: int)
      requires Valid() && 0 <= i < |LEVELS|
      modifies this
      ensures Valid() && State() == App.ChooseStartLevel(old(State()), i)
    {
      AppLemmas.ChooseLevelOk(State(), i);
      SetStartLevel(i);
    }
  }
}
