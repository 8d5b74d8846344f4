/** What each action of the quiz reducer does, field by field, and what
    sequences of actions (the countdown, a restart after a finish, a whole
    session) lead to. */
module QuizProperties {
  import opened Wrappers
  import opened Quiz

  /** dataReceived stores the payload and marks the quiz ready; nothing else changes. */
  lemma DataReceivedSpec(s: State, qs: seq<Question>)
    ensures Reducer(s, DataReceived(qs)).Success?
    ensures var t := Reducer(s, DataReceived(qs)).value;
            && t.questions == qs && t.status == Ready
            && t.index == s.index && t.answer == s.answer && t.points == s.points
            && t.highScore == s.highScore && t.secondsRemaining == s.secondsRemaining
  {
  }

  /** error marks the quiz as failed to load; nothing else changes. */
  lemma ErrorSpec(s: State)
    ensures Reducer(s, Action.Error).Success?
    ensures var t := Reducer(s, Action.Error).value;
            && t.status == Status.Error
            && t.questions == s.questions && t.index == s.index && t.answer == s.answer
            && t.points == s.points && t.highScore == s.highScore && t.secondsRemaining == s.secondsRemaining
  {
  }

  /** start activates the quiz with thirty seconds per question; nothing else changes. */
  lemma StartSpec(s: State)
    ensures Reducer(s, Start).Success?
    ensures var t := Reducer(s, Start).value;
            && t.status == Active && t.secondsRemaining == 30 * NumQuestions(s.questions)
            && t.questions == s.questions && t.index == s.index && t.answer == s.answer
            && t.points == s.points && t.highScore == s.highScore
  {
  }

  /** newAnswer records the choice and scores the current question's points
      exactly when the choice is its correct option; nothing else changes. */
  lemma NewAnswerSpec(s: State, c: int)
    requires s.index < |s.questions|
    ensures Reducer(s, NewAnswer(c)).Success?
    ensures var t := Reducer(s, NewAnswer(c)).value;
            && t.answer == Some(c)
            && (c == s.questions[s.index].correctOption ==> t.points == s.points + s.questions[s.index].points)
            && (c != s.questions[s.index].correctOption ==> t.points == s.points)
            && t.questions == s.questions && t.status == s.status && t.index == s.index
            && t.highScore == s.highScore && t.secondsRemaining == s.secondsRemaining
  {
  }

  /** newAnswer with no current question throws, whatever the status. */
  lemma NewAnswerWithoutQuestionFails(s: State, c: int)
    requires s.index >= |s.questions|
    ensures Reducer(s, NewAnswer(c)) == Failure(QuestionUndefined)
  {
  }

  /** A second answer to the same question is scored again: nothing checks
      that the question was already answered. */
  lemma NewAnswerCanScoreTwice(s: State)
    requires s.index < |s.questions|
    ensures var q := s.questions[s.index];
            var once := Reducer(s, NewAnswer(q.correctOption));
            once.Success? && Reducer(once.value, NewAnswer(q.correctOption)).Success? &&
            Reducer(once.value, NewAnswer(q.correctOption)).value.points == s.points + 2 * q.points
  {
  }

  /** Because of double scoring, a one-question quiz worth p > 0 points can
      end an answer session with more than the maximum possible points. */
  lemma DoubleAnswerExceedsMaximum(q: Question)
    requires q.points > 0
    ensures var r := Run(InitialState, [DataReceived([q]), Start, NewAnswer(q.correctOption), NewAnswer(q.correctOption)]);
            r.Success? && r.value.points > MaxPossiblePoints([q])
  {
    var s1 := InitialState.(questions := [q], status := Ready);
    var s2 := s1.(status := Active, secondsRemaining := 30);
    var s3 := s2.(answer := Some(q.correctOption), points := q.points);
    var s4 := s3.(points := 2 * q.points);
    assert Reducer(s3, NewAnswer(q.correctOption)) == Success(s4);
    assert Run(s3, [NewAnswer(q.correctOption)]) == Success(s4);
    assert [Start, NewAnswer(q.correctOption), NewAnswer(q.correctOption)][1..] == [NewAnswer(q.correctOption), NewAnswer(q.correctOption)];
    assert Run(s1, [Start, NewAnswer(q.correctOption), NewAnswer(q.correctOption)]) == Success(s4);
    assert MaxPossiblePoints([q]) == q.points;
  }

  /** nextQuestion advances the pointer by one, with no upper bound, and
      clears the answer; nothing else changes. */
  lemma NextQuestionSpec(s: State)
    ensures Reducer(s, NextQuestion).Success?
    ensures var t := Reducer(s, NextQuestion).value;
            && t.index == s.index + 1 && t.answer == None
            && t.questions == s.questions && t.status == s.status && t.points == s.points
            && t.highScore == s.highScore && t.secondsRemaining == s.secondsRemaining
  {
  }

  /** finish ends the quiz and raises the high score to the points when they
      beat it; nothing else changes. */
  lemma FinishSpec(s: State)
    ensures Reducer(s, Finish).Success?
    ensures var t := Reducer(s, Finish).value;
            && t.status == Finished
            && t.highScore >= s.highScore && t.highScore >= s.points
            && (t.highScore == s.highScore || t.highScore == s.points)
            && t.questions == s.questions && t.index == s.index && t.answer == s.answer
            && t.points == s.points && t.secondsRemaining == s.secondsRemaining
  {
  }

  /** restart keeps the questions, makes the quiz ready, and resets every
      other field to its initial value, the high score included. */
  lemma RestartSpec(s: State)
    ensures Reducer(s, Restart).Success?
    ensures var t := Reducer(s, Restart).value;
            && t.questions == s.questions && t.status == Ready
            && t.index == 0 && t.answer == None && t.points == 0
            && t.highScore == 0 && t.secondsRemaining == 0
            && t == InitialState.(questions := s.questions, status := Ready)
  {
  }

  /** Restarting twice is the same as restarting once. */
  lemma RestartIdempotent(s: State)
    ensures Reducer(s, Restart).Success?
    ensures Reducer(Reducer(s, Restart).value, Restart) == Reducer(s, Restart)
  {
  }

  /** A finish followed by a restart forgets the high score just recorded. */
  lemma FinishThenRestartForgetsHighScore(s: State)
    requires s.points > 0
    ensures Run(s, [Finish]).Success? && Run(s, [Finish]).value.highScore >= s.points
    ensures Run(s, [Finish, Restart]).Success? && Run(s, [Finish, Restart]).value.highScore == 0
  {
    var t := Reducer(s, Finish).value;
    assert Run(s, [Finish]) == Run(t, []);
    assert [Finish, Restart][1..] == [Restart];
    assert Run(s, [Finish, Restart]) == Run(t, [Restart]);
  }

  /** tick counts down by one and finishes the quiz when the count before the
      tick was zero; points and high score are untouched, in every status. */
  lemma TickSpec(s: State)
    ensures Reducer(s, Tick).Success?
    ensures var t := Reducer(s, Tick).value;
            && t.secondsRemaining == s.secondsRemaining - 1
            && (s.secondsRemaining == 0 ==> t.status == Finished)
            && (s.secondsRemaining != 0 ==> t.status == s.status)
            && t.questions == s.questions && t.index == s.index && t.answer == s.answer
            && t.points == s.points && t.highScore == s.highScore
  {
  }

  /** `k` tick actions in a row. */
  function Ticks(k: nat): seq<Action> {
    seq(k, _ => Tick)
  }

  /** Running `a` then `b` is running `b` from where `a` stopped. */
  lemma {:induction false} RunAppend(s: State, a: seq<Action>, b: seq<Action>)
    ensures Run(s, a + b) == match Run(s, a) case Failure(e) => Failure(e) case Success(t) => Run(t, b)
    decreases |a|
  {
    if |a| == 0 {
      assert a + b == b;
    } else {
      assert (a + b)[0] == a[0];
      assert (a + b)[1..] == a[1..] + b;
      match Reducer(s, a[0])
      case Failure(_) =>
      case Success(t) =>
        RunAppend(t, a[1..], b);
    }
  }

  /** From a count c >= 0, k <= c ticks lower it by k and change nothing
      else, the status included; tick c + 1 finishes and leaves -1. */
  lemma {:induction false} TickCountdown(s: State, k: nat)
    requires 0 <= s.secondsRemaining
    requires k <= s.secondsRemaining + 1
    ensures Run(s, Ticks(k)) ==
              if k <= s.secondsRemaining then Success(s.(secondsRemaining := s.secondsRemaining - k))
              else Success(s.(secondsRemaining := -1, status := Finished))
    decreases k
  {
    if k == 0 {
      assert Ticks(0) == [];
    } else {
      var t := Reducer(s, Tick).value;
      assert Ticks(k)[0] == Tick;
      assert Ticks(k)[1..] == Ticks(k - 1);
      if s.secondsRemaining == 0 {
        assert Run(t, Ticks(0)) == Success(t);
      } else {
        TickCountdown(t, k - 1);
      }
    }
  }

  /** From a count of n >= 0, the n-th tick brings it to zero without
      finishing; only tick n + 1 finishes the quiz, leaving the count at -1. */
  lemma TickFinishesOneLate(s: State)
    requires s.secondsRemaining >= 0
    requires s.status != Finished
    ensures Run(s, Ticks(s.secondsRemaining)) == Success(s.(secondsRemaining := 0))
    ensures Run(s, Ticks(s.secondsRemaining + 1)) == Success(s.(secondsRemaining := -1, status := Finished))
  {
    TickCountdown(s, s.secondsRemaining);
    TickCountdown(s, s.secondsRemaining + 1);
  }

  /** The `type` switch: an action fails with "Action unknown" exactly when
      its type string is not recognised, whatever the state. */
  lemma UnknownTypeFails(s: State, a: Action)
    ensures Reducer(s, a) == Failure(ActionUnknown) <==> TypeOf(a) !in RecognisedTypes
  {
  }

  /** The derived values change only through dataReceived: a run without it
      leaves the number of questions and the maximum possible points as they were. */
  lemma DerivedValuesStable(s: State, acts: seq<Action>)
    requires forall i :: 0 <= i < |acts| ==> !acts[i].DataReceived?
    requires Run(s, acts).Success?
    ensures NumQuestions(Run(s, acts).value.questions) == NumQuestions(s.questions)
    ensures MaxPossiblePoints(Run(s, acts).value.questions) == MaxPossiblePoints(s.questions)
  {
  }

  /** A two-question session: load, start, a right answer, next, a wrong
      answer, finish. The score and high score end at 10, with 60 seconds granted. */
  lemma TwoQuestionSession()
    ensures var qs := [Question(1, 10), Question(0, 20)];
            var r := Run(InitialState, [DataReceived(qs), Start, NewAnswer(1), NextQuestion, NewAnswer(2), Finish]);
            && r.Success?
            && r.value.status == Finished && r.value.points == 10 && r.value.highScore == 10
            && r.value.index == 1 && r.value.answer == Some(2) && r.value.secondsRemaining == 60
            && MaxPossiblePoints(qs) == 30
  {
    var qs := [Question(1, 10), Question(0, 20)];
    var acts := [DataReceived(qs), Start, NewAnswer(1), NextQuestion, NewAnswer(2), Finish];
    var s1 := InitialState.(questions := qs, status := Ready);
    var s2 := s1.(status := Active, secondsRemaining := 60);
    var s3 := s2.(answer := Some(1), points := 10);
    var s4 := s3.(index := 1, answer := None);
    var s5 := s4.(answer := Some(2));
    var s6 := s5.(status := Finished, highScore := 10);
    assert acts == [DataReceived(qs), Start, NewAnswer(1)] + [NextQuestion, NewAnswer(2), Finish];
    RunAppend(InitialState, [DataReceived(qs), Start, NewAnswer(1)], [NextQuestion, NewAnswer(2), Finish]);
    assert [DataReceived(qs), Start, NewAnswer(1)][1..] == [Start, NewAnswer(1)];
    assert Run(s2, [NewAnswer(1)]) == Success(s3);
    assert Run(InitialState, [DataReceived(qs), Start, NewAnswer(1)]) == Success(s3);
    assert [NextQuestion, NewAnswer(2), Finish][1..] == [NewAnswer(2), Finish];
    assert Run(s5, [Finish]) == Success(s6);
    assert Run(s3, [NextQuestion, NewAnswer(2), Finish]) == Success(s6);
  }
}
