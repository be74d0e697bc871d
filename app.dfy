/**
 * The top-level browser component: the loaded question list, the index of
 * the question on screen, the grading result, the grading-in-progress flag
 * and the answers saved per question number. Each handler is one atomic
 * step on this state; the awaited network calls are parameters.
 */
module App {
  import opened Wrappers
  import opened JsString
  import opened QuestionBank
  import opened Server
  import opened ScorePattern

  /** What the answer panel shows after grading. */
  datatype GradingResult = GradingResult(score: string, feedback: string)

  const RetryFeedback: string := "批改失败，请重试"
  const NetworkFeedback: string := "网络错误，请检查连接"

  /** The grading result set when the grading call settles. A success whose
      `result` is absent fails inside the `try` (reading `.match` of
      `undefined`), so it ends on the network-error branch. */
  function GradingOutcome(reply: Transport<GradeResponse>): GradingResult {
    match reply
    case NetworkError => GradingResult(Unscored, NetworkFeedback)
    case Delivered(resp) =>
      if !resp.Success() then GradingResult(Unscored, RetryFeedback)
      else match resp.result
        case None => GradingResult(Unscored, NetworkFeedback)
        case Some(text) => GradingResult(Score(text), text)
  }

  /** The three outcomes of a grading call. On success the feedback is the
      whole server text, scored or not, and the score is "--" exactly when
      the text holds no score pattern; a server failure and a thrown error
      each show "--" with their fixed message. The score is never empty. */
  lemma GradingOutcomeCases(reply: Transport<GradeResponse>)
    ensures var r := GradingOutcome(reply);
      && r.score != ""
      && (reply.Delivered? && reply.response.Graded? && reply.response.result.Some? ==>
            var text := reply.response.result.value;
            && r.feedback == text
            && (r.score == Unscored <==> forall p: nat, w: nat, s: string :: !MatchesWith(text, p, w, s)))
      && (reply.Delivered? && !reply.response.Success() ==> r == GradingResult(Unscored, RetryFeedback))
      && (reply.NetworkError? ==> r == GradingResult(Unscored, NetworkFeedback))
  {
    if reply.Delivered? && reply.response.Graded? && reply.response.result.Some? {
      ScoreUnscoredIff(reply.response.result.value);
    }
  }

  class AppState {
    var questions: seq<Question>
    var currentIndex: nat
    var gradingResult: Option<GradingResult>
    var isGrading: bool
    var savedAnswers: map<string, string>
    var isLoading: bool

    constructor ()
      ensures questions == [] && currentIndex == 0 && gradingResult == None
      ensures !isGrading && savedAnswers == map[] && isLoading
    {
      questions := [];
      currentIndex := 0;
      gradingResult := None;
      isGrading := false;
      savedAnswers := map[];
      isLoading := true;
    }

    /** `questions[currentQuestionIndex]`, which is `undefined` past the end. */
    function CurrentQuestion(): Option<Question>
      reads this
    {
      if currentIndex < |questions| then Some(questions[currentIndex]) else None
    }

    /** The index lies in `0 .. max(0, questions.length - 1)`. */
    predicate IndexInRange()
      reads this
    {
      currentIndex == 0 || currentIndex < |questions|
    }

    /** The mount-time load: the list is replaced only by a successful
        envelope; loading ends on every path. */
    method LoadQuestions(reply: Transport<QuestionsResponse>)
      modifies this
      ensures questions == if reply.Delivered? && reply.response.Success()
                           then reply.response.questions else old(questions)
      ensures !isLoading
      ensures currentIndex == old(currentIndex) && gradingResult == old(gradingResult)
      ensures isGrading == old(isGrading) && savedAnswers == old(savedAnswers)
      ensures old(currentIndex) == 0 ==> IndexInRange()
    {
      if reply.Delivered? && reply.response.Success() {
        questions := reply.response.questions;
      }
      isLoading := false;
    }

    /** `handleSaveAnswer`: the answer is stored under the current question's
        number (as an object key, so an absent number is "undefined"); every
        other key keeps its value; with no current question nothing changes. */
    method SaveAnswer(answer: string)
      modifies this`savedAnswers
      ensures old(CurrentQuestion()).None? ==> savedAnswers == old(savedAnswers)
      ensures old(CurrentQuestion()).Some? ==>
        var key := Stringify(old(CurrentQuestion()).value.questionNumber);
        && key in savedAnswers && savedAnswers[key] == answer
        && savedAnswers.Keys == old(savedAnswers).Keys + {key}
        && forall k | k in old(savedAnswers) && k != key :: savedAnswers[k] == old(savedAnswers)[k]
    {
      var current := CurrentQuestion();
      if current.Some? {
        savedAnswers := savedAnswers[Stringify(current.value.questionNumber) := answer];
      }
    }

    /** The synchronous start of `handleSubmitAnswer`: grading starts, the old
        result is cleared, and the body posted to the grading route is the
        question's sentence and the answer as given. */
    method BeginSubmit(question: Question, answer: string) returns (request: GradeBody)
      modifies this`isGrading, this`gradingResult
      ensures isGrading && gradingResult == None
      ensures request == GradeBody(Some(question.question), Some(answer))
    {
      isGrading := true;
      gradingResult := None;
      request := GradeBody(Some(question.question), Some(answer));
    }

    /** The settlement of `handleSubmitAnswer`: the result is set from the
        reply and grading ends, whichever branch was taken. */
    method FinishSubmit(reply: Transport<GradeResponse>)
      modifies this`isGrading, this`gradingResult
      ensures !isGrading && gradingResult == Some(GradingOutcome(reply))
    {
      var outcome: GradingResult;
      if reply.NetworkError? {
        outcome := GradingResult(Unscored, NetworkFeedback);
      } else if !reply.response.Success() {
        outcome := GradingResult(Unscored, RetryFeedback);
      } else if reply.response.result.None? {
        outcome := GradingResult(Unscored, NetworkFeedback);
      } else {
        var text := reply.response.result.value;
        var found := Extract(text);
        var score := if found.Some? then found.value else Unscored;
        outcome := GradingResult(score, text);
      }
      gradingResult := Some(outcome);
      isGrading := false;
    }

    /** The whole of `handleSubmitAnswer` as one step. */
    method SubmitAnswer(question: Question, answer: string, reply: Transport<GradeResponse>)
      returns (request: GradeBody)
      modifies this`isGrading, this`gradingResult
      ensures request == GradeBody(Some(question.question), Some(answer))
      ensures !isGrading && gradingResult == Some(GradingOutcome(reply))
    {
      request := BeginSubmit(question, answer);
      FinishSubmit(reply);
    }

    /** `handleReset`: only the grading result is cleared. */
    method Reset()
      modifies this`gradingResult
      ensures gradingResult == None
    {
      gradingResult := None;
    }

    /** `handleQuestionSelect`: jump to the first question with the same
        number and clear the result; with no such question nothing changes. */
    method SelectQuestion(question: Question)
      modifies this`currentIndex, this`gradingResult
      ensures var found := FindIndex(questions, question.questionNumber);
        && (found.Some? ==> currentIndex == found.value && gradingResult == None)
        && (found.None? ==> currentIndex == old(currentIndex) && gradingResult == old(gradingResult))
      ensures old(IndexInRange()) ==> IndexInRange()
    {
      var found := FindIndex(questions, question.questionNumber);
      if found.Some? {
        currentIndex := found.value;
        gradingResult := None;
      }
    }

    /** `handleQuestionSelectByIndex`: the index is taken as given (the
        dropdown offers only indices of the list) and the result cleared. */
    method SelectByIndex(index: nat)
      modifies this`currentIndex, this`gradingResult
      ensures currentIndex == index && gradingResult == None
      ensures index < |questions| ==> IndexInRange()
    {
      currentIndex := index;
      gradingResult := None;
    }

    /** `handleNextQuestion`: moves up only below the last index, and clears
        the result only when it moves. */
    method NextQuestion()
      modifies this`currentIndex, this`gradingResult
      ensures old(currentIndex) < |questions| - 1 ==>
                currentIndex == old(currentIndex) + 1 && gradingResult == None
      ensures !(old(currentIndex) < |questions| - 1) ==>
                currentIndex == old(currentIndex) && gradingResult == old(gradingResult)
      ensures old(IndexInRange()) ==> IndexInRange()
    {
      if currentIndex < |questions| - 1 {
        currentIndex := currentIndex + 1;
        gradingResult := None;
      }
    }

    /** `handlePrevQuestion`: moves down only above index 0, and clears the
        result only when it moves. */
    method PrevQuestion()
      modifies this`currentIndex, this`gradingResult
      ensures old(currentIndex) > 0 ==>
                currentIndex == old(currentIndex) - 1 && gradingResult == None
      ensures old(currentIndex) == 0 ==>
                currentIndex == 0 && gradingResult == old(gradingResult)
      ensures old(IndexInRange()) ==> IndexInRange()
    {
      if currentIndex > 0 {
        currentIndex := currentIndex - 1;
        gradingResult := None;
      }
    }
  }
}
