/**
 * The answer panel: a text box whose content is the `answer` state cell,
 * three buttons whose handlers call back into the top-level component, and
 * the display of the grading result. The callbacks it invokes are recorded
 * in order in `calls`.
 */
module AnswerSection {
  import opened Wrappers
  import opened JsString
  import opened QuestionBank
  import opened ScorePattern
  import opened App

  /** A call from the panel to one of the parent's handlers. */
  datatype Callback = OnSave(answer: string) | OnSubmit(question: Question, answer: string) | OnReset

  /** `answer.trim()` is truthy. */
  predicate HasText(answer: string) {
    Trim(answer) != ""
  }

  /** The guard of `handleSubmit`. */
  predicate CanSubmit(answer: string, current: Option<Question>) {
    HasText(answer) && current.Some?
  }

  /** `disabled` of the submit button. */
  predicate SubmitDisabled(answer: string, current: Option<Question>, isGrading: bool) {
    !HasText(answer) || current.None? || isGrading
  }

  /** `disabled` of the save button. */
  predicate SaveDisabled(answer: string, isGrading: bool) {
    !HasText(answer) || isGrading
  }

  /** An answer passes the guards exactly when it has a character that is
      not whitespace. */
  lemma HasTextIffNotBlank(answer: string)
    ensures HasText(answer) <==> exists i | 0 <= i < |answer| :: !IsWhitespace(answer[i])
  {
    TrimEmptyIffBlank(answer);
  }

  /** The submit button is enabled exactly when the handler's guard holds
      and no grading is in progress; likewise the save button. */
  lemma ButtonsMatchGuards(answer: string, current: Option<Question>, isGrading: bool)
    ensures !SubmitDisabled(answer, current, isGrading) <==> CanSubmit(answer, current) && !isGrading
    ensures !SaveDisabled(answer, isGrading) <==> HasText(answer) && !isGrading
  {
  }

  /** `gradingResult.score || '--'`. */
  function ScoreLabel(result: GradingResult): string {
    if result.score == "" then Unscored else result.score
  }

  /** The fallback never shows: every grading outcome carries a non-empty
      score, so the label is that score. */
  lemma ScoreLabelShowsScore(reply: Transport<Server.GradeResponse>)
    ensures ScoreLabel(GradingOutcome(reply)) == GradingOutcome(reply).score
  {
    GradingOutcomeCases(reply);
  }

  class AnswerBox {
    var answer: string
    var calls: seq<Callback>

    constructor ()
      ensures answer == "" && calls == []
    {
      answer := "";
      calls := [];
    }

    /** The text box's `onChange`. */
    method Edit(text: string)
      modifies this`answer
      ensures answer == text
    {
      answer := text;
    }

    /** `handleSave`: calls `onSave` with the untrimmed answer, only when the
        trimmed answer is non-empty. */
    method Save()
      modifies this`calls
      ensures calls == old(calls) + if HasText(answer) then [OnSave(answer)] else []
    {
      if Trim(answer) != "" {
        calls := calls + [OnSave(answer)];
      }
    }

    /** `handleSubmit`: calls `onSubmit` with the current question and the
        untrimmed answer, only when the trimmed answer is non-empty and a
        question is on screen. */
    method Submit(current: Option<Question>)
      modifies this`calls
      ensures calls == old(calls) + if CanSubmit(answer, current) then [OnSubmit(current.value, answer)] else []
    {
      if Trim(answer) != "" && current.Some? {
        calls := calls + [OnSubmit(current.value, answer)];
      }
    }

    /** `handleReset`: clears the answer and calls `onReset` exactly once. */
    method Reset()
      modifies this
      ensures answer == "" && calls == old(calls) + [OnReset]
    {
      answer := "";
      calls := calls + [OnReset];
    }
  }
}
