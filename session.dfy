/**
 * The session state machine of the game screen (App.tsx): the React state of
 * the component as one snapshot, and every event handler as a function from
 * the snapshot before to the snapshot after. The class `Session` further down
 * holds the same state as mutable fields and updates them handler by handler.
 *
 * Every random draw an event makes is passed in as a `Dice` value. The 1-second
 * interval is the `Tick` event; the 500 ms delayed advance after a practice
 * success is a queue of `PendingAdvance` entries fired by `FireAdvance`.
 */
module App {
  import opened Wrappers
  import opened Catalog
  import opened GameLogic
  import opened Rules

  /** `AppMode` */
  datatype AppMode = Home | Assessment | PracticeConfig | PracticePlay | Finished

  /** The feedback of a finished practice question. */
  datatype PracticeResult = PracticeResult(success: bool, correctCode: Option<Code>)

  /** `HistoryRecord`: one answered question. */
  datatype HistoryRecord = HistoryRecord(round: int, level: int, pointsPotential: int, earned: int, correct: bool, puzzleSnapshot: Puzzle)

  /**
   * A delayed `advanceToNextQuestion(nextLevel)` not fired yet, tagged with the
   * session (`epoch`) that scheduled it.
   */
  datatype PendingAdvance = PendingAdvance(epoch: int, nextLevel: int)

  /**
   * The random draws of one event: those of a `generatePuzzle` call (the shape
   * order and one draw record per possible layer) and the two `Math.random()`
   * draws of `getWeightedRandomLevel`.
   */
  datatype Dice = Dice(shuffled: seq<ShapeType>, layers: seq<LayerDraws>, useHarder: bool, u: real)

  predicate ValidDice(d: Dice) {
    multiset(d.shuffled) == multiset(SHAPES) && |d.layers| == 4 &&
    (forall k :: 0 <= k < 4 ==> ValidLayerDraws(M, d.layers[k])) &&
    0.0 <= d.u < 1.0
  }

  const ASSESSMENT_ROUNDS := 24
  const ASSESSMENT_SECONDS := 300

  /**
   * The component's state. `epoch` counts the sessions started; it exists only
   * to tell the delayed advances of an earlier session apart.
   */
  datatype SessionState = SessionState(
    appMode: AppMode, practiceType: PracticeType, startLevel: int,
    round: int, currentLevelIdx: int, score: int, history: seq<HistoryRecord>,
    timeLeft: int, isRandomPhase: bool,
    puzzle: Option<Puzzle>, mysterySolvedCount: int,
    reviewIndex: int, practiceResult: Option<PracticeResult>,
    pendingAdvances: seq<PendingAdvance>, epoch: int)

  /** The `useState` initial values. */
  function Initial(): SessionState {
    SessionState(Home, Progressive, 0, 1, 0, 0, [], ASSESSMENT_SECONDS, false, None, 0, -1, None, [], 0)
  }

  // ---------------------------------------------------------------------------
  // Well-formed states

  /** A level of the catalog, found at position id - 1. */
  predicate LevelOk(level: LevelConfig) {
    1 <= level.id <= |LEVELS| && LEVELS[level.id - 1] == level
  }

  /** A layer of the given kind as `generatePuzzle` builds it, possibly answered since. */
  predicate LayerOk(kind: LayerKind, l: Layer) {
    l.kind == kind && IsCode(l.code) &&
    (l.isSolved ==> kind == M) &&
    (kind == M ==> l.options.Some? && OptionsOk(l.code, l.options.value)) &&
    (kind == F ==> l.options == None)
  }

  predicate PuzzleOk(p: Puzzle) {
    LevelOk(p.level) &&
    |p.layers| == |p.level.structure| &&
    (forall k :: 0 <= k < |p.layers| ==> LayerOk(p.level.structure[k], p.layers[k])) &&
    p.totalMystery == MysteryCount(p.level.structure)
  }

  /** The number of solved layers. */
  function SolvedCount(layers: seq<Layer>): nat {
    if layers == [] then 0
    else SolvedCount(layers[..|layers| - 1]) + (if layers[|layers| - 1].isSolved then 1 else 0)
  }

  /** A record as `saveHistory` writes it. */
  predicate RecordOk(r: HistoryRecord) {
    1 <= r.level <= |LEVELS| && r.pointsPotential == LEVELS[r.level - 1].points &&
    r.earned == (if r.correct then r.pointsPotential else 0) && r.round >= 1
  }

  /** The points of all records. */
  function TotalEarned(history: seq<HistoryRecord>): int {
    if history == [] then 0 else TotalEarned(history[..|history| - 1]) + history[|history| - 1].earned
  }

  predicate CountersOk(s: SessionState) {
    0 <= s.startLevel < |LEVELS| && 0 <= s.currentLevelIdx < |LEVELS| && s.round >= 1 &&
    0 <= s.timeLeft <= ASSESSMENT_SECONDS && -1 <= s.reviewIndex < |s.history|
  }

  /** Every record is well formed and the score is the sum of their points. */
  predicate RecordsOk(s: SessionState) {
    (forall i :: 0 <= i < |s.history| ==> RecordOk(s.history[i])) &&
    s.score == TotalEarned(s.history)
  }

  /** Practice feedback describes the last record. */
  predicate FeedbackOk(s: SessionState) {
    s.practiceResult.Some? ==> |s.history| > 0 && s.history[|s.history| - 1].correct == s.practiceResult.value.success
  }

  predicate PuzzleStateOk(s: SessionState) {
    (s.puzzle.None? ==> s.mysterySolvedCount == 0) &&
    (s.puzzle.Some? ==> PuzzleOk(s.puzzle.value) && s.mysterySolvedCount == SolvedCount(s.puzzle.value.layers))
  }

  predicate PendingOk(s: SessionState) {
    forall i :: 0 <= i < |s.pendingAdvances| ==>
      0 <= s.pendingAdvances[i].nextLevel < |LEVELS| && s.pendingAdvances[i].epoch <= s.epoch
  }

  /**
   * During an assessment nothing is under review, no practice feedback is shown,
   * the clock has not run out and one record was saved per round played.
   */
  predicate AssessmentOk(s: SessionState) {
    s.reviewIndex == -1 && s.practiceResult.None? && s.timeLeft >= 1 &&
    s.round <= ASSESSMENT_ROUNDS && |s.history| == s.round - 1
  }

  /** What holds on every screen. */
  predicate CommonOk(s: SessionState) {
    CountersOk(s) && RecordsOk(s) && FeedbackOk(s) && PuzzleStateOk(s) && PendingOk(s)
  }

  /** The invariant every event keeps; an assessment in progress adds its own clauses. */
  predicate Inv(s: SessionState) {
    match s.appMode
    case Assessment => CommonOk(s) && AssessmentOk(s)
    case _ => CommonOk(s)
  }

  // ---------------------------------------------------------------------------
  // Fresh puzzles

  /** `generatePuzzle(levelIndex)` with the puzzle draws of the dice. */
  function NewPuzzle(levelIndex: int, d: Dice): Puzzle
    requires ValidDice(d)
  {
    DiceFit(levelIndex, d);
    PuzzleOf(levelIndex, d.shuffled, d.layers[..|LEVELS[ClampLevel(levelIndex)].structure|])
  }

  lemma {:induction false} DiceFit(levelIndex: int, d: Dice)
    requires ValidDice(d)
    ensures |LEVELS[ClampLevel(levelIndex)].structure| <= 4
    ensures ValidPuzzleDraws(levelIndex, d.shuffled, d.layers[..|LEVELS[ClampLevel(levelIndex)].structure|])
  {
    LevelStructure(ClampLevel(levelIndex));
  }

  // ---------------------------------------------------------------------------
  // The handlers

  /** `startAssessment`, which leaves `practiceResult` as it was. */
  function StartAssessmentAsWritten(s: SessionState, d: Dice): SessionState
    requires ValidDice(d)
  {
    s.(score := 0, round := 1, currentLevelIdx := 0, history := [], timeLeft := ASSESSMENT_SECONDS,
       puzzle := Some(NewPuzzle(0, d)), mysterySolvedCount := 0, reviewIndex := -1,
       appMode := Assessment, epoch := s.epoch + 1)
  }

  /** `startAssessment`, also clearing the practice feedback (see Findings). */
  function StartAssessment(s: SessionState, d: Dice): SessionState
    requires ValidDice(d)
  {
    StartAssessmentAsWritten(s, d).(practiceResult := None)
  }

  /** `startPractice` */
  function StartPractice(s: SessionState, d: Dice): SessionState
    requires ValidDice(d)
  {
    s.(score := 0, round := 1, currentLevelIdx := s.startLevel, history := [],
       puzzle := Some(NewPuzzle(s.startLevel, d)), mysterySolvedCount := 0, reviewIndex := -1,
       practiceResult := None, isRandomPhase := false, appMode := PracticePlay, epoch := s.epoch + 1)
  }

  /** `advanceToNextQuestion(nextLevelIdx)` */
  function Advanced(s: SessionState, nextLevelIdx: int, d: Dice): SessionState
    requires ValidDice(d)
  {
    s.(round := s.round + 1, currentLevelIdx := nextLevelIdx, puzzle := Some(NewPuzzle(nextLevelIdx, d)),
       mysterySolvedCount := 0, practiceResult := None, reviewIndex := -1)
  }

  /** The record `saveHistory` appends. */
  function RecordOf(s: SessionState, isSuccess: bool, finalLayers: seq<Layer>): HistoryRecord
    requires s.puzzle.Some?
  {
    var p := s.puzzle.value;
    HistoryRecord(s.round, p.level.id, p.level.points, if isSuccess then p.level.points else 0, isSuccess, p.(layers := finalLayers))
  }

  /** `saveHistory(isSuccess, finalLayers)` */
  function Saved(s: SessionState, isSuccess: bool, finalLayers: seq<Layer>): SessionState {
    if s.puzzle.None? then s
    else
      var record := RecordOf(s, isSuccess, finalLayers);
      s.(history := s.history + [record], score := if isSuccess then s.score + record.pointsPotential else s.score)
  }

  /** `finishQuestion(isSuccess, finalLayers)` */
  function FinishQuestion(s: SessionState, isSuccess: bool, finalLayers: seq<Layer>, d: Dice): SessionState
    requires ValidDice(d)
  {
    var saved := Saved(s, isSuccess, finalLayers);
    if s.appMode != Assessment then saved
    else if s.round >= ASSESSMENT_ROUNDS then saved.(appMode := Finished, reviewIndex := -1)
    else Advanced(saved, AssessmentNextLevel(s.currentLevelIdx, isSuccess), d)
  }

  /** The `disabled` condition of the option buttons. */
  predicate OptionsDisabled(s: SessionState) {
    s.reviewIndex != -1 || s.practiceResult.Some?
  }

  /** The early `return`s of `handleAnswer`. */
  predicate AnswerBlocked(s: SessionState) {
    s.puzzle.None? || s.reviewIndex != -1 || (s.appMode == PracticePlay && s.practiceResult.Some?)
  }

  /**
   * What the screen lets the user click: an option of an unsolved mystery layer
   * of the current puzzle, during an assessment or a practice.
   */
  predicate AnswerOffered(s: SessionState, layerIndex: int, selected: Code) {
    (s.appMode == Assessment || s.appMode == PracticePlay) &&
    s.puzzle.Some? && 0 <= layerIndex < |s.puzzle.value.layers| &&
    var layer := s.puzzle.value.layers[layerIndex];
    layer.kind == M && !layer.isSolved && layer.options.Some? && selected in layer.options.value
  }

  /** The layers after the answer: the target records the selection, and is solved if it is right. */
  function AnsweredLayers(layers: seq<Layer>, layerIndex: int, selected: Code): seq<Layer>
    requires 0 <= layerIndex < |layers|
  {
    var layer := layers[layerIndex];
    var updated := layer.(userSelected := Some(selected));
    layers[layerIndex := if selected == layer.code then updated.(isSolved := true) else updated]
  }

  /** The practice-success branch of `handleAnswer`: feedback, record, and a delayed advance. */
  function PracticeSucceeded(s: SessionState, finalLayers: seq<Layer>, d: Dice): SessionState
    requires 0.0 <= d.u < 1.0
  {
    var saved := Saved(s.(practiceResult := Some(PracticeResult(true, None))), true, finalLayers);
    var next := SuccessNext(s.practiceType, s.currentLevelIdx, s.isRandomPhase, d.useHarder, d.u);
    saved.(isRandomPhase := next.randomPhase, pendingAdvances := saved.pendingAdvances + [PendingAdvance(s.epoch, next.level)])
  }

  /**
   * The state right after the answer is applied: the puzzle with the target
   * layer answered and, on a right answer, the solved count raised by one.
   */
  function Answered(s: SessionState, layerIndex: int, selected: Code): SessionState
    requires s.puzzle.Some? && 0 <= layerIndex < |s.puzzle.value.layers|
  {
    var p := s.puzzle.value;
    var right := selected == p.layers[layerIndex].code;
    s.(puzzle := Some(p.(layers := AnsweredLayers(p.layers, layerIndex, selected))),
       mysterySolvedCount := if right then s.mysterySolvedCount + 1 else s.mysterySolvedCount)
  }

  /** `handleAnswer(selected, layerIndex)` */
  function HandleAnswer(s: SessionState, layerIndex: int, selected: Code, d: Dice): SessionState
    requires ValidDice(d) && (AnswerBlocked(s) || AnswerOffered(s, layerIndex, selected))
  {
    if AnswerBlocked(s) then s
    else
      var p := s.puzzle.value;
      var code := p.layers[layerIndex].code;
      var s1 := Answered(s, layerIndex, selected);
      var updatedLayers := s1.puzzle.value.layers;
      if selected == code then
        if s1.mysterySolvedCount != p.totalMystery then s1
        else if s.appMode == Assessment then FinishQuestion(s1, true, updatedLayers, d)
        else PracticeSucceeded(s1, updatedLayers, d)
      else if s.appMode == Assessment then FinishQuestion(s1, false, updatedLayers, d)
      else Saved(s1.(practiceResult := Some(PracticeResult(false, Some(code)))), false, updatedLayers)
  }

  /** The practice failure dialog with its "Next" button is on screen. */
  predicate FailureShown(s: SessionState) {
    s.appMode == PracticePlay && s.reviewIndex == -1 && s.practiceResult.Some? && !s.practiceResult.value.success
  }

  /** `handlePracticeNext` */
  function PracticeNext(s: SessionState, d: Dice): SessionState
    requires ValidDice(d) && FailureShown(s)
  {
    var lastCorrect := |s.history| > 0 && s.history[|s.history| - 1].correct;
    Advanced(s, PracticeNextLevel(s.practiceType, s.currentLevelIdx, s.isRandomPhase, lastCorrect, d.useHarder, d.u), d)
  }

  /** The oldest delayed advance fires, whatever the session is doing now. */
  function FireAdvanceAsWritten(s: SessionState, d: Dice): SessionState
    requires ValidDice(d) && s.pendingAdvances != []
  {
    var rest := s.(pendingAdvances := s.pendingAdvances[1..]);
    Advanced(rest, s.pendingAdvances[0].nextLevel, d)
  }

  /**
   * The oldest delayed advance fires, and applies only if the practice session
   * that scheduled it is still being played (see Findings).
   */
  function FireAdvance(s: SessionState, d: Dice): SessionState
    requires ValidDice(d) && s.pendingAdvances != []
  {
    var a := s.pendingAdvances[0];
    var rest := s.(pendingAdvances := s.pendingAdvances[1..]);
    if a.epoch == s.epoch && s.appMode == PracticePlay then Advanced(rest, a.nextLevel, d) else rest
  }

  /** `handleBack` */
  function Back(s: SessionState): SessionState {
    if s.appMode == Finished then s.(reviewIndex := -1) else s.(appMode := Home)
  }

  /** One run of the 1-second interval callback, which only exists during an assessment. */
  function Tick(s: SessionState): SessionState {
    if s.appMode != Assessment then s
    else if s.timeLeft <= 1 then s.(appMode := Finished, reviewIndex := -1, timeLeft := 0)
    else s.(timeLeft := s.timeLeft - 1)
  }

  /** The "Prev" button of the practice bar (enabled when there is history and the cursor is not at 0). */
  function ReviewPrev(s: SessionState): SessionState
    requires s.appMode == PracticePlay && |s.history| > 0 && s.reviewIndex != 0
  {
    var from := if s.reviewIndex == -1 then |s.history| else s.reviewIndex;
    s.(reviewIndex := if from - 1 >= 0 then from - 1 else 0)
  }

  /** The "Next" button of the practice bar (enabled while reviewing). */
  function ReviewNext(s: SessionState): SessionState
    requires s.appMode == PracticePlay && s.reviewIndex != -1
  {
    s.(reviewIndex := if s.reviewIndex == -1 || s.reviewIndex >= |s.history| - 1 then -1 else s.reviewIndex + 1)
  }

  /** A mistake of the finished assessment is opened for review. */
  function SelectMistake(s: SessionState, i: int): SessionState
    requires s.appMode == Finished && s.reviewIndex == -1 && 0 <= i < |s.history| && !s.history[i].correct
  {
    s.(reviewIndex := i)
  }

  /** "Return to Menu" and the back button of the practice setup. */
  function GoHome(s: SessionState): SessionState {
    s.(appMode := Home)
  }

  /** The "Practice Mode" button of the home screen. */
  function OpenPracticeConfig(s: SessionState): SessionState {
    s.(appMode := PracticeConfig)
  }

  /** The mode buttons of the practice setup. */
  function ChoosePracticeType(s: SessionState, t: PracticeType): SessionState {
    s.(practiceType := t)
  }

  /** The start level selector of the practice setup, whose options are the catalog's indices. */
  function ChooseStartLevel(s: SessionState, i: int): SessionState
    requires 0 <= i < |LEVELS|
  {
    s.(startLevel := i)
  }

  /** `n` runs of the interval callback. */
  function Ticks(s: SessionState, n: nat): SessionState
    decreases n
  {
    if n == 0 then s else Ticks(Tick(s), n - 1)
  }

}
