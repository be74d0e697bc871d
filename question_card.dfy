/**
 * The question card: the question number, the sentence, the reference
 * translation with its fallback, and a naive structure split of the
 * sentence on single spaces into subject (first token), predicate (second
 * and third tokens) and object (the rest).
 */
module QuestionCard {
  import opened Wrappers
  import opened JsString
  import opened QuestionBank

  const NoReference: string := "暂无参考翻译"

  /** `answer || "暂无参考翻译"`. */
  function ReferenceText(answer: Option<string>): string {
    if answer.Some? && answer.value != "" then answer.value else NoReference
  }

  /** The reference answer is shown as stored, unless it is absent or
      empty, when the fallback text is shown. */
  lemma ReferenceFallback(answer: Option<string>)
    ensures answer.None? || answer.value == "" ==> ReferenceText(answer) == NoReference
    ensures answer.Some? && answer.value != "" ==> ReferenceText(answer) == answer.value
  {
  }

  datatype Structure = Structure(subjectPart: string, predicatePart: string, objectPart: string)

  /** `question.split(' ')`. */
  function Tokens(sentence: string): seq<string> {
    Split(sentence, ' ')
  }

  function Analyse(sentence: string): Structure {
    var tokens := Tokens(sentence);
    Structure(tokens[0], Join(Slice(tokens, 1, 3), ' '), Join(SliceFrom(tokens, 3), ' '))
  }

  /** What the card renders for a question. */
  datatype CardView = CardView(number: Option<string>, sentence: string, reference: string, structure: Structure)

  /** `if (!question) return null`, otherwise the card. */
  function Render(question: Option<Question>): Option<CardView> {
    match question
    case None => None
    case Some(q) => Some(CardView(q.questionNumber, q.question, ReferenceText(q.answer), Analyse(q.question)))
  }

  /** Nothing renders without a question; otherwise the card shows the
      sentence verbatim. */
  lemma RenderOnlyWithQuestion(question: Option<Question>)
    ensures Render(question).None? <==> question.None?
    ensures question.Some? ==> Render(question).value.sentence == question.value.question
  {
  }

  /** The subject, the predicate tokens and the object tokens are the token
      list cut in three, with nothing lost, added or reordered. */
  lemma {:induction false} StructurePartition(sentence: string)
    ensures var tokens := Tokens(sentence);
      [tokens[0]] + Slice(tokens, 1, 3) + SliceFrom(tokens, 3) == tokens
  {
    var tokens := Tokens(sentence);
    if |tokens| >= 3 {
      assert tokens == [tokens[0]] + tokens[1..3] + tokens[3..];
    } else {
      assert tokens == [tokens[0]] + tokens[1..];
    }
  }

  /** The subject is the text before the first space (empty when the
      sentence starts with one); the predicate is empty with fewer than two
      tokens and is the second and third tokens joined by a space when there
      are at least three. */
  lemma StructureParts(sentence: string)
    ensures ' ' !in Analyse(sentence).subjectPart
    ensures sentence != [] && sentence[0] == ' ' ==> Analyse(sentence).subjectPart == ""
    ensures |Tokens(sentence)| < 2 ==> Analyse(sentence).predicatePart == ""
    ensures |Tokens(sentence)| >= 3 ==>
      Analyse(sentence).predicatePart == Tokens(sentence)[1] + " " + Tokens(sentence)[2]
    ensures |Tokens(sentence)| <= 3 ==> Analyse(sentence).objectPart == ""
  {
    var tokens := Tokens(sentence);
    if |tokens| >= 3 {
      var pair := tokens[1..3];
      assert pair == [tokens[1], tokens[2]] && pair[1..] == [tokens[2]];
      assert Join(pair, ' ') == tokens[1] + [' '] + tokens[2];
      assert " " == [' '];
    }
  }

  /** With at least four tokens, subject, predicate and object joined by
      single spaces give back the sentence. */
  lemma StructureReconstructs(sentence: string)
    requires |Tokens(sentence)| >= 4
    ensures var s := Analyse(sentence);
      s.subjectPart + " " + s.predicatePart + " " + s.objectPart == sentence
  {
    var tokens := Tokens(sentence);
    var mid := tokens[1..3];
    var rest := tokens[3..];
    JoinSplit(sentence, ' ');
    assert tokens == [tokens[0]] + (mid + rest);
    JoinConcat([tokens[0]], mid + rest, ' ');
    JoinConcat(mid, rest, ' ');
    assert Join([tokens[0]], ' ') == tokens[0];
  }
}
