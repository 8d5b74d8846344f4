# React quiz controller — Dafny model

This project models the quiz controller of a single-page React trivia quiz.
The controller is a reducer over one state record: the loaded questions, a
status (`loading`, `error`, `ready`, `active`, `finished`), the current question
index, the chosen answer, the points, the high score and the countdown in
seconds. Views dispatch eight kinds of action: `dataReceived`, `error`, `start`,
`newAnswer`, `nextQuestion`, `finish`, `restart` and `tick`. Any other action
type throws "Action unknown". The view also derives two values from the
question list: the number of questions and the maximum possible points. The
"next" button offers `nextQuestion` or `finish` once a question is answered.

Files:

- `wrappers.dfy`: `Option` (JavaScript `null` or a value) and `Result` (a value or a thrown error).
- `quiz.dfy`: module `Quiz`. It holds the data model, `SecsPerQuestion` (30),
  `InitialState`, the total transition function `Reducer`, in-order dispatch
  `Run`, and the derived values `NumQuestions` and `MaxPossiblePoints`.
  `MaxPossiblePoints` is a left fold, as `Array.prototype.reduce` computes it,
  proved equal to the reference sum `SumPoints`.
- `next_button.dfy`: module `NextButton`. It holds the choice rule `NextAction`
  and the proof that following the button keeps `index` in range.
- `quiz_properties.dfy`: module `QuizProperties`. It describes each action
  field by field, and proves facts about action sequences: the countdown,
  restart after finish, double scoring, and a complete two-question session.

The model follows the code as written:

- No action checks `status`, so every action applies in every state. A stray
  `tick` after `finished` still lowers the count.
- `newAnswer` does not check whether the question was already answered, so the
  same question can be scored twice. Points can then exceed the maximum possible points.
- `tick` finishes the quiz when the count *before* the tick is 0. The count
  therefore ends at -1, one tick after it reaches 0. `tick` never updates the high score.
- `restart` resets to the initial state, keeping only the questions. The high score returns to 0.

A scoreboard might be expected to keep the high score across a restart, to
finish on the tick that reaches 0, and to ignore a tick after the end. The
code does none of these, and the model follows the code. The lemmas
`RestartSpec`, `FinishThenRestartForgetsHighScore` and `TickFinishesOneLate`
state what the code does instead.

Two dispatches throw, and both become a `Failure` result rather than a precondition:

- `ActionUnknown`: the `default` branch of the switch. The `Unknown(kind)` action
  variant stands for an action object whose `type` string is not one of the eight recognised ones.
  Its `kind` has the type `UnknownType`, which excludes those eight strings (`RecognisedTypes`).
  `TypeOf` gives each action's `type` string.
- `QuestionUndefined`: `newAnswer` when `questions.at(index)` is `undefined`.
  Reading `correctOption` from it throws a TypeError.

## Model

| member | source | states |
|---|---|---|
| Quiz.Reducer | src/App.js:29-61 | A dispatch throws exactly for an unknown type, or for `newAnswer` with no current question. Only `dataReceived` replaces the questions. Only `restart` lowers the high score; it changes only to the points (finish) or to 0 (restart). With no negative question points, only `restart` lowers the points. Only `finish` and `tick` can enter `finished`. Only `nextQuestion` and `restart` move the index |
| Quiz.Run | src/App.js:65-67 | Actions applied in arrival order. A run without `dataReceived` keeps the question list, and so the derived values. A run without `restart` never lowers the high score. With non-negative question points, both initially and in every loaded payload, a run without `restart` never lowers the points. A run containing an unknown action throws |
| QuizProperties.RunAppend | src/App.js:65 | Dispatching one batch of actions and then another is the same as dispatching them all in order: the second batch starts from the state the first one reached, and a throw in the first batch ends the run |
| Quiz.FoldPoints | src/App.js:67 | The left-to-right accumulation of `reduce` from an accumulator equals the accumulator plus the sum of all question points |
| Quiz.MaxPossiblePoints | src/App.js:67 | The maximum possible points is the sum of all question points, and 0 for an empty list. With no negative points it is non-negative and at least each question's points |
| Quiz.SumPointsBounds | src/App.js:67 | With no negative question points, the total is non-negative and bounds every single question's points |
| NextButton.NextAction | src/component/NextButton.js:1-17 | Nothing is offered before an answer. Once answered: `nextQuestion` exactly when a later question exists, `finish` exactly on the last question, nothing past the end (and nothing for an empty list). Anything offered is one of those two and implies the index is in range |
| NextButton.FollowingButtonKeepsIndexInRange | src/component/NextButton.js:4-15 | From an in-range index, the offered action succeeds and leaves the index in range |
| NextButton.GuidedRunKeepsIndexInRange | src/component/NextButton.js:2-17 | Any run that starts in range, never reloads data, and presses `nextQuestion` only when offered, ends with the index in range |
| QuizProperties.DataReceivedSpec | src/App.js:31-32 | `dataReceived` stores the payload as the questions and sets `ready`. No other field changes |
| QuizProperties.ErrorSpec | src/App.js:33-34 | `error` sets status `error`. No other field changes |
| QuizProperties.StartSpec | src/App.js:35-36 | `start` sets `active` and a countdown of 30 seconds per question (`SECS_PER_QUESTION`, line 15, modelled as the constant `Quiz.SecsPerQuestion`). No other field changes |
| QuizProperties.NewAnswerSpec | src/App.js:37-42 | With a current question, `newAnswer(c)` records `c`. Points rise by the question's points if `c` is its correct option, and are unchanged otherwise. No other field changes |
| QuizProperties.NewAnswerWithoutQuestionFails | src/App.js:38-41 | With the index past the question list, `newAnswer` throws, in every status |
| QuizProperties.NewAnswerCanScoreTwice | src/App.js:37-42 | Answering the current question correctly twice adds its points twice |
| QuizProperties.DoubleAnswerExceedsMaximum | src/App.js:37-42 | Load, start and two correct answers to a one-question quiz worth p > 0 leave points above the maximum possible points |
| QuizProperties.NextQuestionSpec | src/App.js:43-44 | `nextQuestion` increments the index by one without a bound check and clears the answer. No other field changes |
| QuizProperties.FinishSpec | src/App.js:45-49 | `finish` sets `finished`. The high score becomes the larger of the points and the old high score, so it never decreases and is at least the points. No other field changes |
| QuizProperties.RestartSpec | src/App.js:50-51 | `restart` keeps the questions and sets `ready`. Every other field takes its value from the initial state of lines 17-27 (the constant `Quiz.InitialState`): index 0, no answer, and points, high score and countdown all 0 |
| QuizProperties.RestartIdempotent | src/App.js:50-51 | Restarting a restarted state changes nothing. The reset uses the initial state of lines 17-27, which `restart` itself never changes |
| QuizProperties.FinishThenRestartForgetsHighScore | src/App.js:45-51 | With positive points, `finish` records a high score of at least the points, and a `restart` after it sets the high score back to 0 |
| QuizProperties.TickSpec | src/App.js:52-56 | `tick` lowers the count by exactly one. It sets `finished` exactly when the count before was 0 and otherwise keeps the status. Points, high score and all other fields are untouched |
| QuizProperties.TickCountdown | src/App.js:52-56 | From a count c >= 0, k <= c ticks lower it by k and change nothing else, the status included. Tick c + 1 finishes the quiz and leaves the count at -1 |
| QuizProperties.TickFinishesOneLate | src/App.js:52-56 | From a count n >= 0 and a status other than finished, n ticks reach 0 without finishing. Tick n + 1 finishes and leaves -1 |
| QuizProperties.UnknownTypeFails | src/App.js:30-59 | In every state, an action throws "Action unknown" exactly when its `type` string (`Quiz.TypeOf`) is not one of the eight case labels (`Quiz.RecognisedTypes`) |
| QuizProperties.DerivedValuesStable | src/App.js:66-67 | A successful run without `dataReceived` leaves the number of questions (`Quiz.NumQuestions`, the length of the list, line 66) and the maximum possible points unchanged |
| QuizProperties.TwoQuestionSession | src/App.js:29-61 | Two questions worth 10 and 20, then: load, start (60 seconds), right answer, next, wrong answer, finish. This ends finished with points and high score both 10, out of a maximum of 30 |

## Left out

- The `fetch` of the question list and its JSON parsing (src/App.js:69-74): network I/O. Only its two outcomes matter, and those are the `dataReceived` and `error` actions.
- React wiring (`useReducer`, `useEffect`) and all rendering, including the button markup in src/component/NextButton.js: UI glue. `Run` stands in for the dispatch channel.
- The interval timer that dispatches `tick`: it lives in a component that is not part of this model. `tick` is modelled only as an action.
- Question text and option strings, and the CSS import: display data that no transition reads.
- JavaScript numbers are IEEE doubles. The model uses unbounded integers and does not model rounding or non-integer payloads.
- `Array.prototype.at` wraps negative indices. The index only starts at 0 and increments, so it is a `nat`, and no negative index arises.
- JavaScript's `===` between arbitrary payload values: a choice is modelled as an integer, so the comparison is integer equality.
- Payloads of the wrong shape (for example a `dataReceived` whose payload is not a question array): the action datatype gives each action its payload type.
