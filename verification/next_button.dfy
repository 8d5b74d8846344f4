/** The choice rule of src/component/NextButton.js: which action, if any, the
    player is offered once the current question is answered. */
module NextButton {
  import opened Wrappers
  import opened Quiz

  /** The action behind the button shown for `answer`, `index` and
      `numQuestions`, or `None` when no button is rendered. */
  function NextAction(answer: Option<int>, index: nat, numQuestions: nat): (r: Option<Action>)
    // something is offered only after an answer, and only while the pointer is in range
    ensures r.Some? ==> answer.Some? && index < numQuestions
    ensures r.Some? ==> r.value == NextQuestion || r.value == Finish
    // nextQuestion exactly when a later question exists, finish exactly on the last one
    ensures r == Some(NextQuestion) <==> answer.Some? && index + 1 < numQuestions
    ensures r == Some(Finish) <==> answer.Some? && index + 1 == numQuestions
  {
    if answer.None? then None
    else if index < numQuestions - 1 then Some(NextQuestion)
    else if index == numQuestions - 1 then Some(Finish)
    else None
  }

  /** Taking the offered action from an in-range state succeeds and keeps the
      pointer in range. */
  lemma FollowingButtonKeepsIndexInRange(s: State)
    requires s.index < NumQuestions(s.questions)
    requires NextAction(s.answer, s.index, NumQuestions(s.questions)).Some?
    ensures var r := Reducer(s, NextAction(s.answer, s.index, NumQuestions(s.questions)).value);
            r.Success? && r.value.index < NumQuestions(r.value.questions)
  {
  }

  /** A single step the interface can produce: any action but a fresh load,
      and nextQuestion only when the button offers it. */
  predicate ButtonRespected(s: State, a: Action) {
    && !a.DataReceived?
    && (a.NextQuestion? ==> NextAction(s.answer, s.index, NumQuestions(s.questions)) == Some(NextQuestion))
  }

  /** Every step of the run, taken from the state it reaches, respects the button. */
  predicate GuidedRun(s: State, acts: seq<Action>)
    decreases |acts|
  {
    |acts| == 0 ||
    (ButtonRespected(s, acts[0]) &&
     match Reducer(s, acts[0])
     case Success(t) => GuidedRun(t, acts[1..])
     case Failure(_) => true)
  }

  /** However many answers, ticks, finishes and restarts come between them,
      a run that presses nextQuestion only when offered keeps the pointer in range. */
  lemma {:induction false} GuidedRunKeepsIndexInRange(s: State, acts: seq<Action>)
    requires s.index < NumQuestions(s.questions)
    requires GuidedRun(s, acts)
    ensures Run(s, acts).Success? ==> Run(s, acts).value.index < NumQuestions(Run(s, acts).value.questions)
    decreases |acts|
  {
    if |acts| > 0 {
      match Reducer(s, acts[0])
      case Failure(_) =>
      case Success(t) =>
        GuidedRunKeepsIndexInRange(t, acts[1..]);
    }
  }
}
