/** The quiz controller of src/App.js: the state record, the action kinds,
    the reducer that maps a state and an action to the next state, and the
    two values the view derives from the question list. */
module Quiz {
  import opened Wrappers

  /** Seconds of countdown granted per question when a quiz starts. */
  const SecsPerQuestion: int := 30

  /** A question as the reducer sees it: the index of the correct option and
      the points it is worth. Its text and option strings are display data. */
  datatype Question = Question(correctOption: int, points: int)

  /** The five values of the `status` field. */
  datatype Status = Loading | Error | Ready | Active | Finished

  /** The quiz record. `points` and `secondsRemaining` are plain integers:
      nothing in the reducer keeps them non-negative. */
  datatype State = State(
    questions: seq<Question>,
    status: Status,
    index: nat,
    answer: Option<int>,
    points: int,
    highScore: int,
    secondsRemaining: int
  )

  /** The actions a view may dispatch. `Unknown(kind)` stands for an action
      object whose `type` string is none of the eight recognised ones; its
      type makes `Unknown("tick")` and the like impossible. */
  datatype Action =
    | DataReceived(payload: seq<Question>)
    | Error
    | Start
    | NewAnswer(choice: int)
    | NextQuestion
    | Finish
    | Restart
    | Tick
    | Unknown(kind: UnknownType)

  /** What a dispatch can throw: the reducer's own "Action unknown", and the
      TypeError of reading a field of the undefined current question. */
  datatype QuizError = ActionUnknown | QuestionUndefined

  /** A `type` string that no case of the reducer recognises. */
  type UnknownType = k: string | k !in RecognisedTypes witness ""

  /** The state the application starts in, before any question is loaded. */
  const InitialState: State := State([], Loading, 0, None, 0, 0, 0)

  /** The recognised `type` strings of an action object. */
  const RecognisedTypes: set<string> :=
    {"dataReceived", "error", "start", "newAnswer", "nextQuestion", "finish", "restart", "tick"}

  /** The `type` string an action carries when it is dispatched. */
  function TypeOf(a: Action): string {
    match a
    case DataReceived(_) => "dataReceived"
    case Error => "error"
    case Start => "start"
    case NewAnswer(_) => "newAnswer"
    case NextQuestion => "nextQuestion"
    case Finish => "finish"
    case Restart => "restart"
    case Tick => "tick"
    case Unknown(kind) => kind
  }

  /** The transition function. No case looks at `status`, so every action
      applies in every state; the only failures are the two throws. */
  function Reducer(s: State, a: Action): (r: Result<State, QuizError>)
    // a dispatch throws exactly for an unknown type or a missing current question
    ensures r.Failure? <==> a.Unknown? || (a.NewAnswer? && s.index >= |s.questions|)
    ensures a.Unknown? ==> r == Failure(ActionUnknown)
    // only dataReceived replaces the question list
    ensures r.Success? && !a.DataReceived? ==> r.value.questions == s.questions
    // only restart can lower the high score; it changes only to the points (finish) or to 0 (restart)
    ensures r.Success? && !a.Restart? ==> r.value.highScore >= s.highScore
    // with no negative question points, only restart can lower the points
    ensures r.Success? && !a.Restart? && NonNegativePoints(s.questions) ==> r.value.points >= s.points
    ensures r.Success? && r.value.highScore != s.highScore ==>
              (a.Finish? && r.value.highScore == s.points) || (a.Restart? && r.value.highScore == 0)
    // only finish and tick can enter the finished status
    ensures r.Success? && r.value.status == Finished && s.status != Finished ==> a.Finish? || a.Tick?
    // only nextQuestion and restart move the question pointer
    ensures r.Success? && !a.NextQuestion? && !a.Restart? ==> r.value.index == s.index
  {
    match a
    case DataReceived(qs) => Success(s.(questions := qs, status := Ready))
    case Error => Success(s.(status := Status.Error))
    case Start =>
      Success(s.(status := Active, secondsRemaining := |s.questions| * SecsPerQuestion))
    case NewAnswer(c) =>
      if s.index < |s.questions| then
        var q := s.questions[s.index];
        Success(s.(answer := Some(c), points := if c == q.correctOption then s.points + q.points else s.points))
      else
        Failure(QuestionUndefined)
    case NextQuestion => Success(s.(index := s.index + 1, answer := None))
    case Finish =>
      Success(s.(status := Finished, highScore := if s.points > s.highScore then s.points else s.highScore))
    case Restart => Success(InitialState.(questions := s.questions, status := Ready))
    case Tick =>
      Success(s.(secondsRemaining := s.secondsRemaining - 1,
                 status := if s.secondsRemaining == 0 then Finished else s.status))
    case Unknown(_) => Failure(ActionUnknown)
  }

  /** Actions applied one after another in arrival order, as the dispatch
      channel does; the first throw ends the run. */
  function Run(s: State, acts: seq<Action>): (r: Result<State, QuizError>)
    // a run that never loads data keeps the question list
    ensures r.Success? && (forall i :: 0 <= i < |acts| ==> !acts[i].DataReceived?) ==> r.value.questions == s.questions
    // a run that never restarts never lowers the high score
    ensures r.Success? && (forall i :: 0 <= i < |acts| ==> !acts[i].Restart?) ==> r.value.highScore >= s.highScore
    // with no negative question points loaded, a run that never restarts never lowers the points
    ensures r.Success? && NonNegativePoints(s.questions) &&
            (forall i :: 0 <= i < |acts| ==> !acts[i].Restart? && (acts[i].DataReceived? ==> NonNegativePoints(acts[i].payload)))
            ==> r.value.points >= s.points
    // a run containing an unknown action always throws
    ensures (exists i :: 0 <= i < |acts| && acts[i].Unknown?) ==> r.Failure?
    decreases |acts|
  {
    if |acts| == 0 then Success(s)
    else
      match Reducer(s, acts[0])
      case Failure(e) => Failure(e)
      case Success(t) =>
        assert forall i :: 1 <= i < |acts| ==> acts[1..][i - 1] == acts[i];
        Run(t, acts[1..])
  }

  /** No question is worth a negative number of points. */
  predicate NonNegativePoints(qs: seq<Question>) {
    forall i :: 0 <= i < |qs| ==> qs[i].points >= 0
  }

  /** The number of questions shown to the player. */
  function NumQuestions(qs: seq<Question>): nat {
    |qs|
  }

  /** Reference definition: the total of all question points. */
  function SumPoints(qs: seq<Question>): int {
    if |qs| == 0 then 0 else qs[0].points + SumPoints(qs[1..])
  }

  /** The left-to-right accumulation `reduce` performs, starting from `acc`. */
  function FoldPoints(acc: int, qs: seq<Question>): (r: int)
    ensures r == acc + SumPoints(qs)
    decreases |qs|
  {
    if |qs| == 0 then acc else FoldPoints(acc + qs[0].points, qs[1..])
  }

  /** The highest score the question list allows: the points of every question. */
  function MaxPossiblePoints(qs: seq<Question>): (r: int)
    ensures r == SumPoints(qs)
    ensures |qs| == 0 ==> r == 0
    ensures NonNegativePoints(qs) ==>
              r >= 0 && forall i :: 0 <= i < |qs| ==> qs[i].points <= r
  {
    SumPointsBounds(qs);
    FoldPoints(0, qs)
  }

  /** With no negative question, the total is non-negative and covers each question. */
  lemma {:induction false} SumPointsBounds(qs: seq<Question>)
    ensures NonNegativePoints(qs) ==>
              SumPoints(qs) >= 0 && forall i :: 0 <= i < |qs| ==> qs[i].points <= SumPoints(qs)
    decreases |qs|
  {
    if |qs| > 0 && NonNegativePoints(qs) {
      var rest := qs[1..];
      assert forall i :: 0 <= i < |rest| ==> rest[i] == qs[i + 1];
      SumPointsBounds(rest);
      forall i | 0 <= i < |qs|
        ensures qs[i].points <= SumPoints(qs)
      {
        if i > 0 {
          assert qs[i] == rest[i - 1];
        }
      }
    }
  }
}
