/**
 * Properties of the client and the server taken together: what the learner
 * sees for each way a grading request can end, the answers only the client
 * blocks, the recommendation lookup for the question on screen, and the
 * practice questions that the question selector never finds.
 */
module Pipeline {
  import opened Wrappers
  import opened JsString
  import opened QuestionBank
  import opened Server
  import opened ScorePattern
  import opened App
  import opened AnswerSection
  import opened RecommendSection

  /** What the client shows for each way the grading route can end: the
      provider's text with its extracted score; the retry message for a
      rejected body, a reply without a first choice or a thrown provider
      error; and the network-error message when the first choice has a
      message without content. */
  lemma GradeEndToEnd(body: GradeBody, provider: ProviderOutcome)
    ensures var shown := GradingOutcome(Delivered(GradeReply(body, provider)));
      && (!HasParams(body) ==> shown == GradingResult(Unscored, RetryFeedback))
      && (HasParams(body) && provider.Threw? ==> shown == GradingResult(Unscored, RetryFeedback))
      && (HasParams(body) && provider.Replied? && !HasFirstChoice(provider.completion) ==>
            shown == GradingResult(Unscored, RetryFeedback))
      && (HasParams(body) && provider.Replied? && HasFirstChoice(provider.completion) ==>
            var first := provider.completion.choices.value[0];
            && (first.message.None? ==> shown == GradingResult(Unscored, RetryFeedback))
            && (first.message.Some? && first.message.value.content.None? ==>
                  shown == GradingResult(Unscored, NetworkFeedback))
            && (first.message.Some? && first.message.value.content.Some? ==>
                  var text := first.message.value.content.value;
                  shown == GradingResult(Score(text), text)))
  {
  }

  /** A provider reply that opens "得分: 2分" shows the score "2" with the
      whole reply as feedback. */
  lemma ScoredReplyShown(body: GradeBody, rest: string)
    requires HasParams(body)
    ensures var text := "得分: 2分" + rest;
      var provider := Replied(Completion(Some([ChoiceObject(Some(ProviderMessage(Some(text))))])));
      GradingOutcome(Delivered(GradeReply(body, provider))) == GradingResult("2", text)
  {
    var text := "得分: 2分" + rest;
    assert text == Label + " " + "2" + [UnitChar] + rest;
    ScoreOfLabelled(" ", "2", rest);
  }

  /** A full-width colon after the label is not the pattern: such a reply
      shows "--". */
  lemma FullWidthColonUnscored()
    ensures Score("得分：2分") == Unscored
  {
    var t := "得分：2分";
    // only position 0 starts with the label's first character, and there
    // the third character is the full-width colon
    assert t[0..|Label|][2] != Label[2];
    forall p | 1 <= p <= |t| ensures MatchAt(t, p).None? {
      assert p + |Label| <= |t| ==> t[p..p + |Label|][0] == t[p] != Label[0];
    }
  }

  /** A non-empty all-whitespace answer is blocked by the answer panel's
      guard, yet the server would accept it and send a prompt whose answer
      line is empty: the client is the only place it is stopped. */
  lemma BlankAnswerOnlyBlockedByClient(sentence: string, blank: string, current: Option<Question>)
    requires sentence != "" && blank != "" && AllWhitespace(blank)
    ensures !CanSubmit(blank, current)
    ensures HasParams(GradeBody(Some(sentence), Some(blank)))
    ensures GradeRequest(GradeBody(Some(sentence), Some(blank))).value.messages[1].content
         == Preamble + sentence + AnswerIntro
  {
    TrimEmptyIffBlank(blank);
    PromptShape(sentence, blank);
    TrimEndAllBlank(blank);
    assert Preamble + sentence + AnswerIntro + [] == Preamble + sentence + AnswerIntro;
  }

  /** Opening the panel on a bank question looks up that question's own
      number, and the server answers with the similar sentences of the first
      record carrying it, unchanged. */
  lemma PanelLookupFindsOwnList(questions: seq<Question>, k: nat)
    requires k < |questions| && questions[k].questionNumber.Some?
    requires forall j | 0 <= j < k :: questions[j].questionNumber != questions[k].questionNumber
    ensures var id := Stringify(questions[k].questionNumber);
      RecommendReply(Some(id), Loaded(questions)) == Recommendations(questions[k].similarSentences.GetOr([]))
  {
    RecommendFirstMatchVerbatim(questions[k].questionNumber, questions, k);
  }

  /** Two similar sentences stored for "Q1" come back both, in stored
      order; "Q99", which no record carries, gives the empty list. */
  lemma RecommendScenario(a: SimilarSentence, b: SimilarSentence, other: Question)
    requires other.questionNumber == Some("Q2")
    ensures var q1 := Question(Some("Q1"), None, "The cat sat on the mat.", None, None, Some([a, b]));
      && RecommendReply(Some("Q1"), Loaded([other, q1])) == Recommendations([a, b])
      && RecommendReply(Some("Q99"), Loaded([other, q1])) == Recommendations([])
  {
    var q1 := Question(Some("Q1"), None, "The cat sat on the mat.", None, None, Some([a, b]));
    RecommendFirstMatchVerbatim(Some("Q1"), [other, q1], 1);
    RecommendUnknownIsEmpty(Some("Q99"), [other, q1]);
  }

  /** When no bank number starts with "similar_", the practice question
      built from a similar sentence is found nowhere in the list, so
      selecting it leaves the index and the result as they were. */
  lemma PracticeQuestionNeverFound(questions: seq<Question>, rec: SimilarSentence)
    requires forall j | 0 <= j < |questions| ::
      questions[j].questionNumber.None? || !(PracticeNumberPrefix <= questions[j].questionNumber.value)
    ensures FindIndex(questions, PracticeQuestion(rec).questionNumber).None?
  {
    PracticeQuestionFields(rec, rec);
    FindIndexIsFirst(questions, PracticeQuestion(rec).questionNumber);
  }

  /** The "练习此题" button hands its practice question to the top-level
      selection handler: with no bank number starting with "similar_", the
      question on screen and the grading result stay as they were. */
  method PracticeClick(app: AppState, rec: SimilarSentence)
    requires forall j | 0 <= j < |app.questions| ::
      app.questions[j].questionNumber.None? || !(PracticeNumberPrefix <= app.questions[j].questionNumber.value)
    modifies app`currentIndex, app`gradingResult
    ensures app.currentIndex == old(app.currentIndex) && app.gradingResult == old(app.gradingResult)
  {
    PracticeQuestionNeverFound(app.questions, rec);
    app.SelectQuestion(PracticeQuestion(rec));
  }
}
