/**
 * The recommendation panel: an expand/collapse toggle that fetches the
 * similar sentences of the question on screen when it opens, the list or
 * the "no recommendations" notice, and the conversion of a similar
 * sentence into a practice question handed to the parent. The lookups it
 * issues are recorded in order in `lookups` (the `questionId` query value
 * of each).
 */
module RecommendSection {
  import opened Wrappers
  import opened JsString
  import opened QuestionBank
  import opened Server

  const NoRecommendationsNotice: string := "暂无相似题目推荐"
  const PracticeNumberPrefix: string := "similar_"
  const PracticeSourcePrefix: string := "相似句练习 #"
  const PracticeType: string := "翻译题"

  /** The question record built by the "练习此题" button. */
  function PracticeQuestion(rec: SimilarSentence): Question {
    Question(Some(PracticeNumberPrefix + rec.id), Some(PracticeSourcePrefix + rec.id),
             rec.text, Some(""), Some(PracticeType), None)
  }

  /** A practice question keeps the sentence's text and id, has an empty
      reference answer, and its number is the sentence id behind the
      "similar_" prefix, so distinct sentence ids give distinct numbers. */
  lemma PracticeQuestionFields(rec: SimilarSentence, other: SimilarSentence)
    ensures var q := PracticeQuestion(rec);
      && q.question == rec.text && q.answer == Some("")
      && q.questionNumber.Some? && PracticeNumberPrefix <= q.questionNumber.value
      && q.questionNumber.value[|PracticeNumberPrefix|..] == rec.id
    ensures PracticeQuestion(rec).questionNumber == PracticeQuestion(other).questionNumber ==> rec.id == other.id
  {
    var a := PracticeNumberPrefix + rec.id;
    var b := PracticeNumberPrefix + other.id;
    assert a[|PracticeNumberPrefix|..] == rec.id;
    assert b[|PracticeNumberPrefix|..] == other.id;
  }

  /** What the panel shows below its button. */
  datatype PanelView = Collapsed | EmptyNotice | Listing(items: seq<SimilarSentence>)

  function View(isExpanded: bool, recommendations: seq<SimilarSentence>): PanelView {
    if !isExpanded then Collapsed
    else if |recommendations| > 0 then Listing(recommendations)
    else EmptyNotice
  }

  /** The notice shows exactly when the open panel's list is empty, and a
      listing shows the list whole and in order. */
  lemma NoticeIffEmpty(isExpanded: bool, recommendations: seq<SimilarSentence>)
    ensures View(isExpanded, recommendations) == EmptyNotice <==> isExpanded && recommendations == []
    ensures View(isExpanded, recommendations).Listing? ==> View(isExpanded, recommendations).items == recommendations
  {
  }

  class RecommendPanel {
    var isExpanded: bool
    var recommendations: seq<SimilarSentence>
    var isLoading: bool
    var lookups: seq<string>

    constructor ()
      ensures !isExpanded && recommendations == [] && !isLoading && lookups == []
    {
      isExpanded := false;
      recommendations := [];
      isLoading := false;
      lookups := [];
    }

    /** `handleExpand`: only opening the panel with a question on screen
        issues a lookup, for that question's number as the template literal
        prints it; the list is replaced only by a successful reply; loading
        has ended and the panel has flipped, on every path. (The button is
        disabled while loading, so a call starts with loading ended.) */
    method Expand(current: Option<Question>, reply: Transport<RecommendResponse>)
      modifies this
      ensures isExpanded == !old(isExpanded)
      ensures var fetches := !old(isExpanded) && current.Some?;
        && (fetches ==> !isLoading)
        && (!fetches ==> isLoading == old(isLoading))
        && lookups == old(lookups) + (if fetches then [Stringify(current.value.questionNumber)] else [])
        && recommendations == if fetches && reply.Delivered? && reply.response.Success()
                              then reply.response.data else old(recommendations)
    {
      if !isExpanded && current.Some? {
        isLoading := true;
        lookups := lookups + [Stringify(current.value.questionNumber)];
        if reply.Delivered? && reply.response.Success() {
          recommendations := reply.response.data;
        }
        isLoading := false;
      }
      isExpanded := !isExpanded;
    }
  }
}
