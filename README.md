# Switch Challenge — a Dafny model of the puzzle generator and the session state machine

Switch Challenge is a browser game. A puzzle shows a row of four distinct shapes
(the input). The row passes through a chain of switch layers, and the game shows
the resulting row (the output). Each layer rearranges the row by a code, a
permutation of `[1,2,3,4]`. Fixed layers (`F`) show their code. Mystery layers
(`M`) hide it and offer four candidate codes, exactly one of which is right.
The player must pick the right code for every mystery layer.

The game has two modes:

- **Assessment**: up to 24 rounds within 300 seconds. The level rises by one after each solved
  round. A wrong answer ends the round.
- **Practice**: one of three rules picks the next level:
  - `PROGRESSIVE` climbs one level on each success;
  - `LEVEL` stays on the chosen level;
  - `RANDOM` climbs to the top level and then picks levels at random, weighted towards the harder ones.

  After a success the game moves on by itself after 500 ms. After a failure the
  right code is shown and the player presses "Next".

The project has these modules, one per file:

| file | module | models |
|---|---|---|
| `wrappers.dfy` | `Wrappers` | `Option` (`null` in the source) |
| `catalog.dfy` | `Catalog` | `constants.ts`: the shape alphabet `SHAPES` and the level catalog `LEVELS`, with the facts every other part relies on (11 levels, ids `i + 1`, structures of 1 to 4 layers with a mystery layer, points ordered from 100 to 1000) |
| `jstext.dfy` | `JsText` | the JavaScript built-ins the core leans on: `Number.prototype.toString`, `String.prototype.padStart` and `Array.prototype.join('')` |
| `gamelogic.dfy` | `GameLogic` | `services/gameLogic.ts`: code generation (the Fisher–Yates loop), `applyPermutation`, shape sampling, decoy collection, `generatePuzzle` and `formatTime`. Each imperative part is a method proved equal to a specification function, and the properties are lemmas about those functions |
| `rules.dfy` | `Rules` | the level-choice rules of `App.tsx`: `getWeightedRandomLevel`, the assessment rule, and the practice rules after a success and after "Next" |
| `session.dfy` | `App` | the component's state as one `SessionState` value, the invariant `Inv`, and every handler as a function from the state before to the state after |
| `app_lemmas.dfy` | `AppLemmas` | that every handler keeps `Inv`, and what each handler does to the state |
| `screen.dfy` | `Screen` | class `Session`: one field per `useState` hook, plus two fields of the model's own. `pendingAdvances` holds the delayed advances not fired yet, which the source never cancels. `epoch` counts the sessions started. It has one setter per state setter and one method per event. Each method updates the fields step by step as the handler does, and is proved to end in the state `App` gives |

Randomness enters as parameters:

- The Fisher–Yates loop takes a vector of draws, with `draws[i]` in `[0, i]`.
- The decoy loop takes a stream of such vectors.
- Each comparator-sort shuffle becomes an arbitrary permutation: a shuffled copy
  of `SHAPES`, or an `order` code for the options.
- `getWeightedRandomLevel` takes its coin (`useHarder`) and its second `Math.random()` value `u` in `[0, 1)`.
- An event of the session gets all of these as one `Dice` value.

Two time-based events are explicit:

- `Tick` is one run of the 1-second interval callback.
- The 500 ms `setTimeout` after a practice success puts a `PendingAdvance` in a
  queue. The `FireAdvance` event later takes it out and applies it.

## Model

| member | source | states |
|---|---|---|
| Catalog.ShapesAlphabet | constants.ts:3-10 | `SHAPES` has six pairwise-distinct shapes and contains every shape id |
| Catalog.LevelIds | constants.ts:12-24 | `LEVELS` has 11 entries and the entry at index i has id i + 1 |
| Catalog.LevelStructures | constants.ts:13-23 | every level's structure has 1 to 4 layers and at least one mystery layer, so every puzzle has a mystery to solve |
| Catalog.LevelStructure | constants.ts:13-23 | the same fact for one given level index |
| Catalog.LevelPointsOrdered | constants.ts:13-23 | level points start at 100, end at 1000 and never decrease along the catalog |
| Catalog.PointsStep | constants.ts:13-23 | for any two indices i <= j, level i is worth at most level j |
| JsText.DigitChar | services/gameLogic.ts:76 | a digit value 0..9 becomes the digit character with that value |
| JsText.NatToString | services/gameLogic.ts:76 | the decimal rendering of a natural number is non-empty and made only of digits, and starts with `0` only for 0 itself (no leading zeros) |
| JsText.NatToStringValue | services/gameLogic.ts:76 | reading the rendered digits back gives the number (rendering is a faithful encoding) |
| JsText.IntToString | services/gameLogic.ts:76 | definition of `toString` on any integer: a minus sign before the rendering of the magnitude when negative; its digits are fixed by `NatToString` and `NatToStringValue` |
| JsText.PadStart | services/gameLogic.ts:76 | a string shorter than the width is left-padded with the pad character up to exactly the width and ends with the original; a string already that long is unchanged |
| JsText.Join | services/gameLogic.ts:46 | definition of `join('')`: the renderings of the entries one after the other; its properties are `JoinSingleDigits` and `JoinEqualIffSame` |
| JsText.JoinSingleDigits | services/gameLogic.ts:46 | `join('')` of single-digit numbers has one character per entry, the digit of that entry |
| JsText.JoinEqualIffSame | services/gameLogic.ts:46 | for single-digit sequences, `join('')` strings are equal if and only if the sequences are equal |
| GameLogic.CodeIsPermutation | services/gameLogic.ts:4-12 | a code (length 4, entries 1..4, no repeats) is exactly a sequence with the multiset of `[1,2,3,4]`, both directions |
| GameLogic.Swap | services/gameLogic.ts:9 | the destructuring swap of positions i and j, which keeps the length; `SwapPermutes` and `SwapDistinct` prove it rearranges the sequence |
| GameLogic.Shuffle | services/gameLogic.ts:7-10 | the swaps of the loop for positions n - 1 down to 1, each with its drawn index; keeps the length, and `ShufflePermutes`, `Reachable` and `ShuffleInjective` prove it yields exactly the rearrangements, one per draw vector |
| GameLogic.SwapPermutes | services/gameLogic.ts:9 | swapping two positions keeps the multiset of the sequence |
| GameLogic.SwapDistinct | services/gameLogic.ts:9 | swapping two positions keeps a repetition-free sequence repetition-free |
| GameLogic.ShufflePermutes | services/gameLogic.ts:7-10 | the descending swap loop, for any draws with `draws[i]` in `[0, i]`, yields a rearrangement of its input |
| GameLogic.CodeOf | services/gameLogic.ts:4-12 | the loop applied to `[1,2,3,4]` yields a code: length 4, entries 1..4, each exactly once |
| GameLogic.GenerateCode | services/gameLogic.ts:4-12 | the in-place loop over an array returns exactly the code the specification function gives for the same draws |
| GameLogic.Reachable | services/gameLogic.ts:7-10 | every rearrangement of the first n positions is produced by some valid draw vector |
| GameLogic.ShuffleInjective | services/gameLogic.ts:7-10 | on a repetition-free input, different draw vectors give different results |
| GameLogic.CodeOfBijective | services/gameLogic.ts:4-12 | the valid draw vectors correspond one-to-one to the 24 codes: every code is produced by exactly one draw vector |
| GameLogic.DrawsFor | services/gameLogic.ts:4-12 | for any code, a valid draw vector producing it exists |
| GameLogic.CodeOfInjective | services/gameLogic.ts:4-12 | two valid draw vectors producing the same code are equal |
| GameLogic.ApplyPermutation | services/gameLogic.ts:14-19 | definition: output position k takes `items[code[k] - 1]`, one entry per code entry; its properties are `ApplyIdentity` through `ApplyInjective` |
| GameLogic.ApplyIdentity | services/gameLogic.ts:14-19 | code `[1,2,3,4]` leaves the items unchanged |
| GameLogic.ApplyReverse | services/gameLogic.ts:14-19 | code `[4,3,2,1]` reverses the items |
| GameLogic.ApplyCompose | services/gameLogic.ts:14-19 | applying code a then code b equals applying the single code "a rearranged by b" |
| GameLogic.ApplySwap | services/gameLogic.ts:14-19 | applying a code with two entries swapped equals swapping those two positions of the output |
| GameLogic.ApplyShuffle | services/gameLogic.ts:14-19 | applying a shuffled code equals shuffling the output with the same draws |
| GameLogic.ApplyPermutes | services/gameLogic.ts:14-19 | a code rearranges four items: the output has the same multiset as the input |
| GameLogic.ApplyInjective | services/gameLogic.ts:14-19 | one code never maps two different rows to the same output |
| GameLogic.CodesCompareByJoin | services/gameLogic.ts:46 | two codes have equal `join('')` strings if and only if they are the same code, so comparing by string is comparing the codes |
| GameLogic.GenerateShapes | services/gameLogic.ts:21-24 | definition: the first `count` shapes (at most six) of the order the random sort produced; `ShapesSample` proves they are distinct shapes of `SHAPES` |
| GameLogic.ShapesSample | services/gameLogic.ts:21-24 | for count <= 6, a shuffled copy of `SHAPES` cut to `count` gives `count` pairwise-distinct shapes, all from `SHAPES` |
| GameLogic.Dedup | services/gameLogic.ts:44-49 | keeping first occurrences never lengthens a sequence |
| GameLogic.DedupSpec | services/gameLogic.ts:44-49 | the kept sequence is repetition-free and has the same elements as the original |
| GameLogic.DedupExtend | services/gameLogic.ts:46-48 | one more draw is added exactly when it is not among those kept so far |
| GameLogic.DedupPrefix | services/gameLogic.ts:44-49 | what is kept from a prefix of the draws is a prefix of what is kept from all of them |
| GameLogic.DedupHead | services/gameLogic.ts:42 | the first option kept is the first element, here the true code |
| GameLogic.PoolLarge | services/gameLogic.ts:44-49 | when the stream holds at least three codes other than the true one, the loop collects four distinct codes |
| GameLogic.OptionsValid | services/gameLogic.ts:42-51 | the options of a mystery layer are four pairwise-distinct codes and include the true code |
| GameLogic.OptionsOf | services/gameLogic.ts:42-51 | definition: the first four distinct codes of the true code followed by the decoy draws, in the order the random sort produced; `OptionsValid` proves its promises and `GenerateOptions` computes it with the loop |
| GameLogic.GenerateOptions | services/gameLogic.ts:42-51 | the decoy loop followed by the shuffle returns the options the specification function gives |
| GameLogic.CollectDecoys | services/gameLogic.ts:42-49 | the `while` loop stops with the first four distinct codes of the true code followed by the draws |
| GameLogic.PushDecoy | services/gameLogic.ts:45-48 | one loop iteration pushes the drawn code only if it is new, and the loop cannot run out of draws before four options |
| GameLogic.CollectStart | services/gameLogic.ts:42 | the loop starts from `[code]` and has draws to consume |
| GameLogic.CollectStep | services/gameLogic.ts:45-48 | one draw extends the collected options by the drawn code exactly when it is new |
| GameLogic.CollectDone | services/gameLogic.ts:44 | when four options are collected, they are the first four distinct codes of the stream |
| GameLogic.ClampLevel | services/gameLogic.ts:27-28 | any integer becomes a valid catalog index: unchanged when in range, 0 below, the last index above |
| GameLogic.PuzzleOf | services/gameLogic.ts:26-71 | definition of the returned puzzle: the clamped level, four sampled shapes as input, one layer per structure entry, the input chained through every layer's code as output, and the `M` count; its properties are `PuzzleLayers`, `PuzzleOptions` and `PuzzleRows`, and `GeneratePuzzle` computes it |
| GameLogic.Chain | services/gameLogic.ts:30-36 | passing a row of four through a list of codes yields a row of four |
| GameLogic.PuzzleStep | services/gameLogic.ts:33-41 | one `map` callback appends the next layer, rearranges the running row by that layer's code, and counts one more mystery exactly on `M` |
| GameLogic.GenerateLayer | services/gameLogic.ts:34-60 | the callback body builds the layer the specification function gives |
| GameLogic.BuildLayers | services/gameLogic.ts:30-61 | the loop over the structure returns all the layers; the output is the input passed through every layer's code in order; `totalMystery` is the number of `M` entries |
| GameLogic.GeneratePuzzle | services/gameLogic.ts:26-71 | returns exactly the puzzle the specification function gives for the same draws |
| GameLogic.ChainPermutes | services/gameLogic.ts:30-36 | the output is a rearrangement of the input |
| GameLogic.ChainIsOneCode | services/gameLogic.ts:30-36 | a whole chain of layers acts as one single code |
| GameLogic.PuzzleLayers | services/gameLogic.ts:27-61 | the puzzle uses the clamped level; it has one layer per structure entry, of that kind, with a valid code; no layer is solved or answered; options are absent exactly on fixed layers |
| GameLogic.LayersFresh | services/gameLogic.ts:33-61 | the same layer facts for any structure |
| GameLogic.PuzzleOptions | services/gameLogic.ts:40-52 | every mystery layer has exactly four pairwise-distinct codes as options, one of them its true code |
| GameLogic.PuzzleRows | services/gameLogic.ts:29-70 | the input is four distinct shapes from `SHAPES`; the output is the input passed through every layer's code in order and a rearrangement of it; `totalMystery` is the number of `M` entries and is at least 1 |
| GameLogic.JsRemainder | services/gameLogic.ts:75 | JavaScript `%` by a positive divisor: the mathematical remainder for a non-negative dividend; for a negative one, the remainder of the division whose quotient is truncated toward zero, a value in (-b, 0] |
| GameLogic.FormatTime | services/gameLogic.ts:73-77 | definition: the floored minutes, a colon and the JavaScript remainder by 60 padded to two characters with `0`; its properties are `FormatTimeShape` and `FormatTimeExamples` |
| GameLogic.FormatTimeShape | services/gameLogic.ts:73-77 | for seconds >= 0 the text is the minutes, a colon and exactly two digits; minutes are seconds div 60, and minutes * 60 + the two-digit value gives back the seconds, with the two-digit value below 60 |
| GameLogic.ColonJoin | services/gameLogic.ts:76 | the template string puts the colon right after the minutes and three characters before the end |
| GameLogic.TwoDigits | services/gameLogic.ts:76 | padding the seconds below 60 gives exactly two digits with that value |
| GameLogic.FormatTimeExamples | services/gameLogic.ts:73-77 | 300 seconds is shown as "5:00" and 59 as "0:59" |
| Rules.WeightedLevel | App.tsx:34-52 | definition of `getWeightedRandomLevel` over `count` levels: the floor of `u * count` for at most two levels, otherwise `2 + floor(u * (count - 2))` on the harder coin and `floor(u * 2)` on the other; its properties are `WeightedLevelRange` and `WeightedLevelCovers` |
| Rules.WeightedLevelRange | App.tsx:34-52 | the weighted pick is always a valid index; with more than two levels, the harder branch lands in [2, count - 1] and the other branch in [0, 1] |
| Rules.WeightedLevelCovers | App.tsx:34-52 | every valid index can be picked by some coin and some draw |
| Rules.AssessmentNextLevel | App.tsx:107-112 | definition: one level up after a success below the top, otherwise the same level; its property is `AssessmentNextRule` |
| Rules.AssessmentNextRule | App.tsx:107-112 | the next assessment level is current + 1 exactly on success below the top level, and otherwise stays the current level |
| Rules.SuccessNext | App.tsx:151-166 | definition of the level and random-phase flag after a practice success, per practice type; its properties are `PracticeRulesInRange`, `SteadyRules` and `RandomRule` |
| Rules.PracticeNextLevel | App.tsx:186-204 | definition of the level `handlePracticeNext` picks, per practice type and last record; its properties are `PracticeRulesInRange`, `SteadyRules` and `RandomRule` |
| Rules.PracticeRulesInRange | App.tsx:151-166 | the level picked after a practice success or by "Next" is always a valid index |
| Rules.SteadyRules | App.tsx:153-156 | `LEVEL` never changes the level. `PROGRESSIVE` rises by one only on success below the top level, and otherwise stays |
| Rules.RandomRule | App.tsx:157-166 | `RANDOM` enters the random phase on a success at the top level or once it is already in it. Outside the random phase it climbs one level. In the random phase it uses the weighted pick. "Next" repeats the `PROGRESSIVE` rule until the random phase starts |
| App.DiceFit | services/gameLogic.ts:27-33 | the draws of an event cover every level's structure, so any level index can be generated |
| App.StartAssessmentAsWritten | App.tsx:56-66 | definition of `startAssessment` as written: score, round, level, history, time, puzzle, solved counter, cursor and mode are reset, and the practice feedback is kept; `StaleFeedbackAsWritten` shows what that keeps |
| App.StartAssessment | App.tsx:56-66 | definition of the corrected start, which also clears the practice feedback; its properties are `StartAssessmentOk` and `StaleAdvanceIgnored` |
| App.StartPractice | App.tsx:68-79 | definition of `startPractice`: the session reset at the chosen start level, with feedback and random phase cleared; its properties are `StartPracticeOk` and `StaleAdvanceIgnored` |
| App.Advanced | App.tsx:81-88 | definition of `advanceToNextQuestion`: next round, the given level and a fresh puzzle of it, with the solved counter, feedback and cursor reset; its property is `AdvancedOk` |
| App.Saved | App.tsx:90-102 | definition of `saveHistory`: nothing without a puzzle, otherwise one record appended and the points added on success; its property is `SavedOk` |
| App.FinishQuestion | App.tsx:104-121 | definition of `finishQuestion`: save, then in an assessment finish after round 24 or advance at the assessment rule's level; its properties are `FinishQuestionOk` and `AssessmentLength` |
| App.HandleAnswer | App.tsx:123-183 | definition of `handleAnswer` with its early returns, the answered layer, completion and both modes' outcomes; its properties are `BlockedAnswerIgnored`, `AnsweredLayersSpec`, `PartialAnswerSpec`, `PracticeFailureSpec`, `PracticeSuccessSpec`, `AssessmentAnswerSpec` and `HandleAnswerOk` |
| App.PracticeNext | App.tsx:185-206 | definition of `handlePracticeNext`: advance to the level the practice rule picks from the last record; its properties are `PracticeNextSpec` and `PracticeNextOk` |
| App.FireAdvanceAsWritten | App.tsx:168-170 | definition of the delayed advance as written: it always applies; `StaleAdvanceAsWritten` shows the effect on a new assessment |
| App.FireAdvance | App.tsx:168-170 | definition of the corrected delayed advance, applied only in the practice session that scheduled it; its properties are `FireAdvanceOk`, `StaleAdvanceIgnored` and `StaleAdvancesDrained` |
| App.Back | App.tsx:208-214 | definition of `handleBack`: clear the cursor in `FINISHED`, otherwise go `HOME`; its property is `BackOk` |
| App.Tick | App.tsx:218-233 | definition of one interval callback during an assessment; its properties are `TickSpec`, `Countdown` and `TickOk` |
| App.ReviewPrev | App.tsx:513-515 | definition of the Prev button's cursor update, `max(0, (cursor = -1 ? length : cursor) - 1)`; its properties are `ReviewCursor` and `ReviewOk` |
| App.ReviewNext | App.tsx:525-527 | definition of the Next button's cursor update, back to -1 after the last record; its properties are `ReviewCursor` and `ReviewOk` |
| App.SelectMistake | App.tsx:422-425 | definition: the cursor is set to the chosen failed record of a finished assessment; its property is `ReviewOk` |
| App.GoHome | App.tsx:450 | definition: the mode becomes `HOME`; its property is `MenuOk` |
| App.OpenPracticeConfig | App.tsx:305 | definition: the mode becomes `PRACTICE_CONFIG`; its property is `MenuOk` |
| App.ChoosePracticeType | App.tsx:334-348 | definition: the practice type is set; its property is `ChooseTypeOk` |
| App.ChooseStartLevel | App.tsx:364-371 | definition: the start level is set to a catalog index; its property is `ChooseLevelOk` |
| AppLemmas.SolvedAtMostMystery | App.tsx:140-143 | in every well-formed state, the solved counter lies between 0 and the puzzle's `totalMystery` |
| AppLemmas.SolvedBound | App.tsx:140-143 | at most as many layers are solved as the structure has mystery layers |
| AppLemmas.InitialOk | App.tsx:10-30 | the initial `useState` values satisfy the session invariant |
| AppLemmas.NewPuzzleOk | App.tsx:62 | a fresh puzzle for a catalog index is well formed, is of that level, and has nothing solved |
| AppLemmas.PuzzleOfOk | services/gameLogic.ts:26-71 | every generated puzzle is well formed, is of the requested level, and has nothing solved |
| AppLemmas.StartAssessmentOk | App.tsx:56-66 | starting an assessment yields a valid state with the answer options enabled (corrected version) |
| AppLemmas.StartPracticeOk | App.tsx:68-79 | starting a practice yields a valid state |
| AppLemmas.AdvancedOk | App.tsx:81-88 | moving to the next question with a valid level keeps the invariant |
| AppLemmas.SavedOk | App.tsx:90-102 | saving appends exactly one record, keeps earlier ones, and keeps every record well formed with the score equal to the points earned |
| AppLemmas.FinishQuestionOk | App.tsx:104-121 | finishing an assessment question keeps the invariant |
| AppLemmas.PracticeSucceededOk | App.tsx:147-170 | the practice success branch keeps the invariant |
| AppLemmas.PracticeFailedOk | App.tsx:178-181 | the practice failure branch keeps the invariant |
| AppLemmas.AnsweredLayersSpec | App.tsx:127-141 | an answer changes only the target layer. That layer records the selection. It becomes solved, and the solved count rises by one, if and only if the selection is its code |
| AppLemmas.AnsweredPuzzleOk | App.tsx:127-138 | an answered puzzle is still well formed |
| AppLemmas.HandleAnswerOk | App.tsx:123-183 | every answer the screen can send, or one the guards refuse, keeps the invariant, including the solved counter never exceeding `totalMystery` |
| AppLemmas.BlockedAnswerIgnored | App.tsx:124-125 | without a puzzle, while a record is under review, or while practice feedback is shown, an answer leaves the whole state unchanged |
| AppLemmas.AnsweredStateOk | App.tsx:127-141 | the state right after the answer is applied is valid |
| AppLemmas.RightAnswerOk | App.tsx:136-172 | a right answer keeps the invariant |
| AppLemmas.PartialAnswerOk | App.tsx:136-141 | a right answer that leaves mysteries unsolved keeps the invariant |
| AppLemmas.LastAnswerOk | App.tsx:143-171 | the answer that solves the last mystery keeps the invariant |
| AppLemmas.LastStepOk | App.tsx:143-171 | completion in either mode keeps the invariant |
| AppLemmas.WrongAnswerOk | App.tsx:173-182 | a wrong answer keeps the invariant |
| AppLemmas.PracticeNextOk | App.tsx:185-206 | "Next" after a practice failure keeps the invariant |
| AppLemmas.FireAdvanceOk | App.tsx:168-170 | a delayed advance firing keeps the invariant |
| AppLemmas.BackOk | App.tsx:208-214 | the back button keeps the invariant |
| AppLemmas.TickOk | App.tsx:218-233 | a timer tick keeps the invariant |
| AppLemmas.MenuOk | App.tsx:305 | going home or to the practice setup keeps the invariant |
| AppLemmas.ChooseTypeOk | App.tsx:334-348 | choosing a practice type keeps the invariant |
| AppLemmas.ChooseLevelOk | App.tsx:364-371 | choosing a start level from the catalog keeps the invariant |
| AppLemmas.ReviewOk | App.tsx:513-527 | Prev and Next under their enabling conditions, and opening a mistake, keep the invariant (the cursor stays in -1 .. \|history\| - 1) |
| AppLemmas.PartialAnswerSpec | App.tsx:136-143 | a right answer never pushes the solved count past `totalMystery`; when mysteries remain it only applies the answer |
| AppLemmas.PracticeFailureSpec | App.tsx:173-181 | a wrong practice answer shows the true code. It appends one failed record worth 0 and leaves the score and pending advances alone. The options become disabled |
| AppLemmas.PracticeSuccessSpec | App.tsx:143-170 | a practice success shows success and appends one successful record. The score rises by the level's points. One delayed advance is scheduled, to the level the practice rule picks. The random-phase flag is set as the rule says and the round stays |
| AppLemmas.AssessmentAnswerSpec | App.tsx:104-121 | an assessment answer that ends the round appends one record and adds the level's points exactly on success. It finishes the assessment exactly when the round was the 24th, with the review cursor cleared. Otherwise it moves to the next round at the level the assessment rule gives, with a fresh puzzle of that level, the solved counter at 0, no practice feedback and no review |
| AppLemmas.SolvedBelow | App.tsx:241-247 | while an unsolved mystery layer remains, the solved count is below the mystery count |
| AppLemmas.AssessmentLength | App.tsx:104-121 | an assessment question adds one record. When the question finishes the assessment, there are exactly 24 records (a timer finish, `Countdown`, leaves one record per round answered). Otherwise the round is one more than the records and the level follows the assessment rule |
| AppLemmas.PracticeNextSpec | App.tsx:185-206 | "Next" moves to a new round with a fresh puzzle of the new level, the solved counter at 0, no feedback and no review, and keeps history and score. It never sets the random phase. Outside the random phase after a failure it keeps the level; in the random phase it uses the weighted pick |
| AppLemmas.TickSpec | App.tsx:218-233 | in an assessment a tick lowers the time by one. It finishes the assessment, with the review cursor cleared, exactly when one second was left. No other field changes |
| AppLemmas.Countdown | App.tsx:218-233 | `timeLeft` ticks always end an assessment with the time at 0, never below, and the cursor cleared |
| AppLemmas.ReviewCursor | App.tsx:513-527 | Prev moves the cursor one back, or from -1 to the last record, and stays in range. Next moves one forward, and from the last record returns to -1 |
| AppLemmas.StaleFeedbackAsWritten | App.tsx:56-66 | as written, an assessment started after Back from a failed practice answer has its options disabled in round 1 and breaks the invariant |
| AppLemmas.StaleAdvanceAsWritten | App.tsx:168-170 | as written, a practice advance still pending when an assessment starts moves it to round 2 with an empty history, breaking the invariant |
| AppLemmas.StaleAdvanceIgnored | App.tsx:168-170 | in the corrected model every advance pending when an assessment or a practice starts is stale, and firing one only removes it from the queue |
| AppLemmas.StaleAdvancesDrained | App.tsx:168-170 | a stale advance firing changes nothing but the queue, and the rest stay stale |
| Screen.Session.constructor | App.tsx:10-30 | the fields start at the `useState` initial values, which satisfy the invariant |
| Screen.Session.NewPuzzle | services/gameLogic.ts:26-71 | `generatePuzzle` called with an event's draws returns the puzzle the model gives |
| Screen.Session.StartAssessment | App.tsx:56-66 | the setter sequence ends in the corrected assessment start and keeps the invariant |
| Screen.Session.StartPractice | App.tsx:68-79 | the setter sequence ends in the practice start and keeps the invariant |
| Screen.Session.AdvanceToNextQuestion | App.tsx:81-88 | the round rises by one. A fresh puzzle of the given level is shown, and the solved counter, feedback and cursor are reset |
| Screen.Session.SaveHistory | App.tsx:90-102 | one record is appended and the score rises by the level's points exactly on success; nothing happens without a puzzle |
| Screen.Session.FinishQuestion | App.tsx:104-121 | saves the record. In an assessment it then finishes after round 24 or advances at the level the assessment rule gives |
| Screen.Session.HandleAnswer | App.tsx:123-183 | an answer updates the fields as the model's `handleAnswer` does and keeps the invariant |
| Screen.Session.PracticeSuccess | App.tsx:147-170 | shows success, saves the record, applies the practice rule and schedules the delayed advance |
| Screen.Session.PracticeNext | App.tsx:185-206 | "Next" after a failure updates the fields as the model's `handlePracticeNext` does and keeps the invariant |
| Screen.Session.FireAdvance | App.tsx:168-170 | the oldest delayed advance fires, only if its session is still being played, and the invariant holds |
| Screen.Session.Back | App.tsx:208-214 | in `FINISHED` only the cursor is cleared; elsewhere the mode becomes `HOME`; the invariant holds |
| Screen.Session.Tick | App.tsx:218-233 | one interval callback, as the model's tick, keeping the invariant |
| Screen.Session.ReviewPrev | App.tsx:513-515 | the Prev button moves the cursor as the model does and keeps the invariant |
| Screen.Session.ReviewNext | App.tsx:525-527 | the Next button moves the cursor as the model does and keeps the invariant |
| Screen.Session.SelectMistake | App.tsx:422-425 | opening a mistake of the finished assessment sets the cursor to it and keeps the invariant |
| Screen.Session.GoHome | App.tsx:450 | "Return to Menu" sets the mode to `HOME` and keeps the invariant |
| Screen.Session.OpenPracticeConfig | App.tsx:305 | the practice button opens the setup and keeps the invariant |
| Screen.Session.ChoosePracticeType | App.tsx:334-348 | the mode buttons set the practice type and keep the invariant |
| Screen.Session.ChooseStartLevel | App.tsx:364-371 | the level selector sets the start level and keeps the invariant |

## Left out

- Rendering is not modelled: all JSX, the styling of options and the summary and review screens.
  The only parts kept are those that gate events: the enabled option buttons, the Prev/Next
  `disabled` conditions and the failure dialog's "Next" button.
- `ShapeStyle` colour and CSS strings are not modelled; shapes are the enum of the six ids.
- The level `label` is kept as the separate constant `LABELS` rather than as a field of each level, since no rule reads it.
- The `Date.now()` puzzle id is left out because it is an environment value no rule reads.
- Derived display values are not modelled: accuracy (a floating-point percentage), best level, the displayed puzzle under review, and the mistakes list. The mistakes list enters only as `SelectMistake`'s precondition.
- Probabilities are not modelled. This covers the uniformity of the Fisher–Yates draws and of the comparator sorts (which is not uniform), and the 80/20 weighting of `getWeightedRandomLevel`. Only ranges and permutation facts are proved.
- Rules.WeightedLevelRange: the `Math.random() < 0.8` comparison is a boolean input and `Math.random()` is a real in [0, 1). Floating-point rounding of `u * n` is not modelled.
- GameLogic.GenerateOptions: requires a draw stream holding at least three codes other than the true one. The source loop only ends with probability 1 and demands nothing. The precondition stands for that termination.
- GameLogic.GenerateShapes: the comparator sort is given as the permutation it produced (any rearrangement of `SHAPES`). The option sort is likewise given as an arbitrary `order` code.
- GameLogic.FormatTimeShape: the `m:ss` shape is proved for seconds >= 0 only. `FormatTime` follows JavaScript for negative input (floored minutes, truncated remainder), but nothing is proved there, because `timeLeft` never goes negative (`AppLemmas.Countdown`).
- Screen.Session.HandleAnswer: requires that the answer is refused by the guards or is one the screen offers. The offered answers are an option of an unsolved mystery layer while playing, the only answers the renderer lets through. `handleAnswer` itself does not check this.
- Screen.Session.ReviewPrev: requires the buttons' enabling conditions (`history.length > 0`, cursor not 0, practice screen). The same holds for ReviewNext and SelectMistake.
- React's batching and stale closures are not modelled. A handler reads the state as it was when the event arrived and applies its setters in order, and the model does the same.
- `setTimeout` and `setInterval` scheduling is not modelled as time; the delayed advance and the tick are explicit events. The interval exists only while the mode is `ASSESSMENT`, because the effect clears it when the mode changes. So `Tick` does nothing in other modes.
- Screen.Session.FireAdvance and Screen.Session.StartAssessment follow the corrected behaviour described under Findings, not the source as written. The as-written behaviour is kept as `App.FireAdvanceAsWritten` and `App.StartAssessmentAsWritten`.
- Integers are unbounded. An assessment stays far below JavaScript's safe-integer limit: at most 24 rounds of at most 1000 points each, and 300 seconds. In practice, round and score grow by one round and at most 1000 points per answered question, without a bound. Reaching 2^53 would take about 9 * 10^12 questions, each a user action, so the model does not bound them.

## Findings

| source | as written | input that shows it | evidently intended | confidence | as-written member | corrected member |
|---|---|---|---|---|---|---|
| App.tsx:56-66 | `startAssessment` resets every field an assessment reads except `practiceResult` | Practice, answer wrong (the failure feedback is set), press Back, start an assessment: round 1's options are disabled because `practiceResult` is still set (App.tsx:269), and the true codes are highlighted (App.tsx:255) | starting an assessment clears the practice feedback, as `startPractice` does (App.tsx:76) | not executed | AppLemmas.StaleFeedbackAsWritten | AppLemmas.StartAssessmentOk |
| App.tsx:168-170 | the 500 ms advance after a practice success is never cancelled, so it fires into whatever session is current | Practice, solve a puzzle, press Back and start an assessment within 500 ms: the pending advance fires, so the assessment jumps to round 2 with no record of round 1 | a delayed advance applies only to the practice session that scheduled it, and otherwise does nothing | not executed | AppLemmas.StaleAdvanceAsWritten | AppLemmas.StaleAdvanceIgnored |
