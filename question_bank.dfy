/**
 * The records of the question bank file, shared by the server (which reads
 * them) and the browser client (which receives them in the question list),
 * and the search by question number that both sides perform.
 */
module QuestionBank {
  import opened Wrappers

  /** Precomputed similarity of a sentence to its parent exercise. The
      percentages are only displayed, never computed with. */
  datatype SimilarityScores = SimilarityScores(total: real, grammar: real, semantic: real)

  /** One entry of an exercise's `similar_sentences` list. The `id` is kept
      as the text it prints as inside a template literal. */
  datatype SimilarSentence = SimilarSentence(id: string, text: string, scores: SimilarityScores)

  /** An exercise record. Every property other than the sentence itself may
      be absent, which JavaScript reads as `undefined`. */
  datatype Question = Question(
    questionNumber: Option<string>,
    questionSource: Option<string>,
    question: string,
    answer: Option<string>,
    questionType: Option<string>,
    similarSentences: Option<seq<SimilarSentence>>)

  /** The index of the first record whose `questionNumber` is strictly equal
      to `id`, searching from `from`: `questions.find` and
      `questions.findIndex` with `q.questionNumber === id`. Two absent
      numbers are strictly equal (`undefined === undefined`). */
  function FindFrom(questions: seq<Question>, id: Option<string>, from: nat): (r: Option<nat>)
    requires from <= |questions|
    ensures r.Some? ==> from <= r.value < |questions| && questions[r.value].questionNumber == id
    ensures r.Some? ==> forall j | from <= j < r.value :: questions[j].questionNumber != id
    ensures r.None? ==> forall j | from <= j < |questions| :: questions[j].questionNumber != id
    decreases |questions| - from
  {
    if from == |questions| then None
    else if questions[from].questionNumber == id then Some(from)
    else FindFrom(questions, id, from + 1)
  }

  /** The first index whose question number is `id`, if any. */
  function FindIndex(questions: seq<Question>, id: Option<string>): Option<nat> {
    FindFrom(questions, id, 0)
  }

  /** `FindIndex` returns exactly the least index carrying `id`, and nothing
      when no record carries it. */
  lemma FindIndexIsFirst(questions: seq<Question>, id: Option<string>)
    ensures FindIndex(questions, id).None? <==> forall j | 0 <= j < |questions| :: questions[j].questionNumber != id
    ensures forall k | 0 <= k < |questions| && questions[k].questionNumber == id
              && (forall j | 0 <= j < k :: questions[j].questionNumber != id) :: FindIndex(questions, id) == Some(k)
  {
  }
}
