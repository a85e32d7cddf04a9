/**
 * The level-progression rules of the session (App.tsx): the weighted random
 * level pick, the assessment's next level, and the next level of the three
 * practice modes after a success and after the "Next" button.
 */
module Rules {
  import opened Catalog

  /** `PracticeType`: 'PROGRESSIVE' | 'LEVEL' | 'RANDOM'. */
  datatype PracticeType = Progressive | Level | Random

  /** The last level index of the catalog. */
  function Top(): int {
    |LEVELS| - 1
  }

  /**
   * `getWeightedRandomLevel` over a catalog of `count` levels. `useHarder` is the
   * outcome of `Math.random() < 0.8`; `u` is the second `Math.random()` draw.
   */
  function WeightedLevel(count: int, useHarder: bool, u: real): int
    requires count >= 1 && 0.0 <= u < 1.0
  {
    if count <= 2 then (u * count as real).Floor
    else if useHarder then (u * (count - 2) as real).Floor + 2
    else (u * 2.0).Floor
  }

  lemma {:induction false} FloorBelow(u: real, n: int)
    requires n >= 1 && 0.0 <= u < 1.0
    ensures 0 <= (u * n as real).Floor < n
  {
    assert 0.0 <= u * n as real < n as real;
  }

  /**
   * The pick is a level index; with more than two levels the harder branch lands
   * on index 2 or above and the other branch on index 0 or 1.
   */
  lemma {:induction false} WeightedLevelRange(count: int, useHarder: bool, u: real)
    requires count >= 1 && 0.0 <= u < 1.0
    ensures 0 <= WeightedLevel(count, useHarder, u) < count
    ensures count > 2 && useHarder ==> 2 <= WeightedLevel(count, useHarder, u)
    ensures count > 2 && !useHarder ==> WeightedLevel(count, useHarder, u) <= 1
  {
    if count <= 2 {
      FloorBelow(u, count);
    } else if useHarder {
      FloorBelow(u, count - 2);
    } else {
      FloorBelow(u, 2);
    }
  }

  /** Every level index can come out: the harder branch covers 2.., the other 0 and 1. */
  lemma {:induction false} WeightedLevelCovers(count: int, target: int) returns (useHarder: bool, u: real)
    requires count >= 1 && 0 <= target < count
    ensures 0.0 <= u < 1.0 && WeightedLevel(count, useHarder, u) == target
  {
    var n, k;
    if count <= 2 {
      useHarder, n, k := false, count, target;
    } else if target >= 2 {
      useHarder, n, k := true, count - 2, target - 2;
    } else {
      useHarder, n, k := false, 2, target;
    }
    u := k as real / n as real;
    assert u * n as real == k as real;
  }

  /** `finishQuestion`'s next level in an assessment: one up after a success, unless at the top. */
  function AssessmentNextLevel(current: int, isSuccess: bool): int {
    if isSuccess && current < Top() then current + 1 else current
  }

  /** The next level and the new `isRandomPhase` after a practice success. */
  datatype Next = Next(level: int, randomPhase: bool)

  /** The practice-success branch of `handleAnswer` (the level handed to the delayed advance). */
  function SuccessNext(practiceType: PracticeType, current: int, isRandomPhase: bool, useHarder: bool, u: real): Next
    requires 0.0 <= u < 1.0
  {
    match practiceType
    case Progressive => Next(if current < Top() then current + 1 else current, isRandomPhase)
    case Random =>
      if isRandomPhase || current >= Top() then Next(WeightedLevel(|LEVELS|, useHarder, u), true)
      else Next(current + 1, isRandomPhase)
    case Level => Next(current, isRandomPhase)
  }

  /** `handlePracticeNext`'s next level; `lastCorrect` says whether the last history record is a success. */
  function PracticeNextLevel(practiceType: PracticeType, current: int, isRandomPhase: bool, lastCorrect: bool, useHarder: bool, u: real): int
    requires 0.0 <= u < 1.0
  {
    match practiceType
    case Progressive => if lastCorrect && current < Top() then current + 1 else current
    case Random =>
      if isRandomPhase then WeightedLevel(|LEVELS|, useHarder, u)
      else if lastCorrect && current < Top() then current + 1
      else current
    case Level => current
  }

  /** In an assessment the level rises by one exactly on a success below the top, and stays in range. */
  lemma {:induction false} AssessmentNextRule(current: int, isSuccess: bool)
    requires 0 <= current < |LEVELS|
    ensures 0 <= AssessmentNextLevel(current, isSuccess) < |LEVELS|
    ensures AssessmentNextLevel(current, isSuccess) == current + 1 <==> isSuccess && current < |LEVELS| - 1
    ensures AssessmentNextLevel(current, isSuccess) != current + 1 ==> AssessmentNextLevel(current, isSuccess) == current
  {
  }

  /** Every practice rule keeps the level index in the catalog. */
  lemma {:induction false} PracticeRulesInRange(practiceType: PracticeType, current: int, isRandomPhase: bool, lastCorrect: bool, useHarder: bool, u: real)
    requires 0 <= current < |LEVELS| && 0.0 <= u < 1.0
    ensures 0 <= SuccessNext(practiceType, current, isRandomPhase, useHarder, u).level < |LEVELS|
    ensures 0 <= PracticeNextLevel(practiceType, current, isRandomPhase, lastCorrect, useHarder, u) < |LEVELS|
  {
    WeightedLevelRange(|LEVELS|, useHarder, u);
  }

  /**
   * LEVEL never moves; PROGRESSIVE moves up by one only on a success and
   * saturates at the top; neither touches the random phase.
   */
  lemma {:induction false} SteadyRules(current: int, isRandomPhase: bool, lastCorrect: bool, useHarder: bool, u: real)
    requires 0 <= current < |LEVELS| && 0.0 <= u < 1.0
    ensures SuccessNext(Level, current, isRandomPhase, useHarder, u) == Next(current, isRandomPhase)
    ensures PracticeNextLevel(Level, current, isRandomPhase, lastCorrect, useHarder, u) == current
    ensures var n := SuccessNext(Progressive, current, isRandomPhase, useHarder, u);
      n.randomPhase == isRandomPhase && current <= n.level <= current + 1 && n.level < |LEVELS| &&
      (n.level == current <==> current == |LEVELS| - 1)
    ensures var l := PracticeNextLevel(Progressive, current, isRandomPhase, lastCorrect, useHarder, u);
      l == current + 1 <==> lastCorrect && current < |LEVELS| - 1
    ensures var l := PracticeNextLevel(Progressive, current, isRandomPhase, lastCorrect, useHarder, u);
      l != current + 1 ==> l == current
  {
  }

  /**
   * RANDOM climbs one level per success until a success at the top level (or an
   * already started random phase) starts the random phase, from which every
   * success and every "Next" is a weighted pick.
   */
  lemma {:induction false} RandomRule(current: int, isRandomPhase: bool, lastCorrect: bool, useHarder: bool, u: real)
    requires 0 <= current < |LEVELS| && 0.0 <= u < 1.0
    ensures var n := SuccessNext(Random, current, isRandomPhase, useHarder, u);
      n.randomPhase <==> isRandomPhase || current == |LEVELS| - 1
    ensures var n := SuccessNext(Random, current, isRandomPhase, useHarder, u);
      !n.randomPhase ==> n.level == current + 1
    ensures var n := SuccessNext(Random, current, isRandomPhase, useHarder, u);
      n.randomPhase ==> n.level == WeightedLevel(|LEVELS|, useHarder, u) && (useHarder ==> n.level >= 2) && (!useHarder ==> n.level <= 1)
    ensures isRandomPhase ==> PracticeNextLevel(Random, current, isRandomPhase, lastCorrect, useHarder, u) == WeightedLevel(|LEVELS|, useHarder, u)
    ensures !isRandomPhase ==> PracticeNextLevel(Random, current, isRandomPhase, lastCorrect, useHarder, u) == PracticeNextLevel(Progressive, current, isRandomPhase, lastCorrect, useHarder, u)
  {
    WeightedLevelRange(|LEVELS|, useHarder, u);
  }
}
