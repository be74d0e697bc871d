/**
 * The three HTTP handlers of the grading server: the question list, the
 * grading route (input check, grading prompt, request to the language-model
 * provider, classification of its reply) and the recommendation lookup.
 *
 * Each handler is a method from the request and the outcome of its one
 * effect (the question-bank read, or the provider call) to the response
 * envelope; a function of the same inputs specifies each, and the lemmas
 * below state what the envelopes promise.
 */
module Server {
  import opened Wrappers
  import opened JsString
  import opened QuestionBank

  // ---------------------------------------------------------------------
  // Question bank reads

  /** Outcome of reading and parsing the question-bank file. */
  datatype BankRead = Loaded(questions: seq<Question>) | ReadFailed(error: string)

  const ListFailedMessage: string := "读取题库失败"
  const RecommendFailedMessage: string := "获取推荐题失败"

  /** Envelope of `GET /api/questions`. */
  datatype QuestionsResponse =
    | QuestionList(questions: seq<Question>)   // 200 {success: true, questions}
    | ListFailed(error: string)                // 500 {success: false, message, error}
  {
    function Status(): int { if QuestionList? then 200 else 500 }
    predicate Success() { QuestionList? }
    function Message(): Option<string> {
      if QuestionList? then None else Some(ListFailedMessage)
    }
  }

  /** Specification of the question-list route. */
  function QuestionsReply(bank: BankRead): QuestionsResponse {
    match bank
    case Loaded(qs) => QuestionList(qs)
    case ReadFailed(e) => ListFailed(e)
  }

  method HandleQuestions(bank: BankRead) returns (resp: QuestionsResponse)
    ensures resp == QuestionsReply(bank)
    ensures resp.Success() <==> bank.Loaded?
    ensures bank.Loaded? ==> resp.questions == bank.questions
    ensures !resp.Success() ==> resp.Status() == 500 && resp.Message() == Some(ListFailedMessage)
  {
    if bank.ReadFailed? {
      resp := ListFailed(bank.error);
      return;
    }
    resp := QuestionList(bank.questions);
  }

  // ---------------------------------------------------------------------
  // Grading

  /** The JSON body of `POST /api/grade`; a missing property is `None`. */
  datatype GradeBody = GradeBody(question: Option<string>, userAnswer: Option<string>)

  /** JavaScript truthiness of a possibly-missing string property. */
  predicate Truthy(v: Option<string>) {
    v.Some? && v.value != ""
  }

  /** The body passes `if (!question || !userAnswer)`. */
  predicate HasParams(body: GradeBody) {
    Truthy(body.question) && Truthy(body.userAnswer)
  }

  /** The grading rubric (scoring rules, scoring procedure, explanation
      rules and three worked examples). Only its opening sentence is kept
      here; the model relies on nothing but its first character not being
      whitespace. */
  const Rubric: string := "你是一个专业的考研英语翻译题评分专家。"

  /** The fixed text of the prompt before the source sentence: the rubric,
      a blank line and the sentence label. */
  const Preamble: string := Rubric + "\n\n" + "原文："

  /** The fixed text between the sentence and the answer. */
  const AnswerIntro: string := "\n" + "用户答案："

  /** The line break after the opening backtick, and the line break and
      indentation before the closing one. */
  const Lead: string := "\n"
  const Pad: string := "\n    "

  /** The template literal before `.trim()`. */
  function PromptTemplate(question: string, answer: string): string {
    Lead + Preamble + question + AnswerIntro + answer + Pad
  }

  /** The grading prompt: the template, trimmed. */
  function BuildPrompt(question: string, answer: string): string {
    Trim(PromptTemplate(question, answer))
  }

  /** The fixed texts start and end with visible characters. */
  lemma TemplateEdges()
    ensures AllWhitespace(Lead) && AllWhitespace(Pad)
    ensures Preamble != [] && !IsWhitespace(Preamble[0])
    ensures AnswerIntro != [] && !IsWhitespace(AnswerIntro[|AnswerIntro| - 1])
    ensures AnswerIntro[0] == '\n'
  {
  }

  /** The prompt is the rubric followed by the sentence verbatim and the
      answer with its trailing whitespace dropped: the rubric always comes
      first and nothing at the start of the rubric is trimmed away. */
  lemma PromptShape(question: string, answer: string)
    ensures BuildPrompt(question, answer) == Preamble + question + AnswerIntro + TrimEnd(answer)
  {
    TemplateEdges();
    TrimPadded(Lead, Preamble, question, AnswerIntro, answer, Pad);
  }

  /** Trailing whitespace in the answer does not change the prompt. */
  lemma PromptIgnoresTrailingBlank(question: string, answer: string, blank: string)
    requires AllWhitespace(blank)
    ensures BuildPrompt(question, answer + blank) == BuildPrompt(question, answer)
  {
    PromptShape(question, answer);
    PromptShape(question, answer + blank);
    TrimEndBlankSuffix(answer, blank);
  }

  /** Different single-line source sentences give different prompts, and
      equal prompts carry answers that differ at most in trailing
      whitespace. */
  lemma PromptDeterminesQuestion(q1: string, q2: string, a1: string, a2: string)
    requires BuildPrompt(q1, a1) == BuildPrompt(q2, a2)
    requires '\n' !in q1 && '\n' !in q2
    ensures q1 == q2
    ensures TrimEnd(a1) == TrimEnd(a2)
  {
    PromptShape(q1, a1);
    PromptShape(q2, a2);
    TemplateEdges();
    PrefixBeforeMarker(Preamble, q1, q2, AnswerIntro, TrimEnd(a1), TrimEnd(a2));
    var p := Preamble + q1 + AnswerIntro;
    assert TrimEnd(a1) == (p + TrimEnd(a1))[|p|..];
    assert TrimEnd(a2) == (p + TrimEnd(a2))[|p|..];
  }

  datatype Role = System | User
  datatype ChatMessage = ChatMessage(role: Role, content: string)

  /** The sampling temperature 0.2, a floating-point constant passed through. */
  datatype Temperature = LowTemperature

  /** The JSON body sent to the chat-completions endpoint. */
  datatype ChatRequest = ChatRequest(
    model: string, messages: seq<ChatMessage>, temperature: Temperature, maxTokens: nat)

  const ModelName: string := "deepseek/deepseek-chat-v3-0324"
  const TeacherInstruction: string := "你是专业的英语翻译题批改老师。"
  const MaxTokens: nat := 1024

  function ProviderRequest(prompt: string): ChatRequest {
    ChatRequest(ModelName,
                [ChatMessage(System, TeacherInstruction), ChatMessage(User, prompt)],
                LowTemperature, MaxTokens)
  }

  /** `choices[i].message` of a completion; its `content` may be absent. */
  datatype ProviderMessage = ProviderMessage(content: Option<string>)

  /** An element of `choices`: a falsy value (`null`, absent) or an object
      whose `message` may be absent. */
  datatype Choice = FalsyChoice | ChoiceObject(message: Option<ProviderMessage>)

  /** The parsed provider reply; only `choices` is consulted. */
  datatype Completion = Completion(choices: Option<seq<Choice>>)

  /** Outcome of `fetch` followed by `response.json()`: a parsed reply, or
      a thrown error (network failure, unparsable body) with its message. */
  datatype ProviderOutcome = Replied(completion: Completion) | Threw(error: string)

  /** The message of the TypeError thrown when `choices[0].message` is
      absent and `.content` is read from it. */
  const MissingMessageError: string := "Cannot read properties of undefined (reading 'content')"

  const MissingParamsMessage: string := "缺少参数"
  const AnomalyMessage: string := "API返回异常"
  const GradeFailedMessage: string := "批改失败"

  /** Envelope of `POST /api/grade`. */
  datatype GradeResponse =
    | Graded(result: Option<string>)         // 200 {success: true, result}
    | MissingParams                          // 400 {success: false, message}
    | ProviderAnomaly(raw: Completion)       // 500 {success: false, message, raw}
    | GradeFailed(error: string)             // 500 {success: false, message, error}
  {
    function Status(): int {
      match this
      case Graded(_) => 200
      case MissingParams => 400
      case _ => 500
    }
    predicate Success() { Graded? }
    function Message(): Option<string> {
      match this
      case Graded(_) => None
      case MissingParams => Some(MissingParamsMessage)
      case ProviderAnomaly(_) => Some(AnomalyMessage)
      case GradeFailed(_) => Some(GradeFailedMessage)
    }
  }

  /** `result.choices && result.choices[0]` is truthy. */
  predicate HasFirstChoice(c: Completion) {
    c.choices.Some? && |c.choices.value| > 0 && c.choices.value[0].ChoiceObject?
  }

  /** The request the handler sends to the provider, if it sends one. */
  function GradeRequest(body: GradeBody): Option<ChatRequest> {
    if HasParams(body)
    then Some(ProviderRequest(BuildPrompt(body.question.value, body.userAnswer.value)))
    else None
  }

  /** Specification of the grading route's response. */
  function GradeReply(body: GradeBody, provider: ProviderOutcome): GradeResponse {
    if !HasParams(body) then MissingParams
    else match provider
      case Threw(e) => GradeFailed(e)
      case Replied(c) =>
        if !HasFirstChoice(c) then ProviderAnomaly(c)
        else match c.choices.value[0].message
          case None => GradeFailed(MissingMessageError)
          case Some(m) => Graded(m.content)
  }

  method HandleGrade(body: GradeBody, provider: ProviderOutcome)
    returns (sent: Option<ChatRequest>, resp: GradeResponse)
    ensures sent == GradeRequest(body) && resp == GradeReply(body, provider)
  {
    if !Truthy(body.question) || !Truthy(body.userAnswer) {
      sent, resp := None, MissingParams;
      return;
    }
    var prompt := Trim(PromptTemplate(body.question.value, body.userAnswer.value));
    sent := Some(ProviderRequest(prompt));
    match provider
    case Threw(e) =>
      resp := GradeFailed(e);
    case Replied(c) =>
      if c.choices.Some? && |c.choices.value| > 0 && c.choices.value[0].ChoiceObject? {
        var first := c.choices.value[0];
        if first.message.None? {
          resp := GradeFailed(MissingMessageError);
        } else {
          resp := Graded(first.message.value.content);
        }
      } else {
        resp := ProviderAnomaly(c);
      }
  }

  /** A missing or empty sentence or answer gets status 400 with message
      "缺少参数" and no provider request; anything else is not a 400.
      A whitespace-only answer is not rejected. */
  lemma GradeValidation(body: GradeBody, provider: ProviderOutcome)
    ensures var r := GradeReply(body, provider);
      && (r.Status() == 400 <==> !HasParams(body))
      && (r.Status() == 400 ==> !r.Success() && r.Message() == Some(MissingParamsMessage))
      && (GradeRequest(body).None? <==> r.Status() == 400)
  {
  }

  /** The provider receives exactly two messages, the fixed teacher
      instruction as system turn and the prompt as user turn, with the fixed
      model name and token cap. */
  lemma GradeRequestShape(body: GradeBody)
    requires HasParams(body)
    ensures var req := GradeRequest(body).value;
      && req.model == ModelName && req.maxTokens == 1024
      && |req.messages| == 2
      && req.messages[0] == ChatMessage(System, TeacherInstruction)
      && req.messages[1].role == User
      && req.messages[1].content
         == Preamble + body.question.value + AnswerIntro + TrimEnd(body.userAnswer.value)
  {
    PromptShape(body.question.value, body.userAnswer.value);
  }

  /** A reply with a truthy first choice that carries a message is a success
      whose result is that message's content, verbatim; a reply without a
      truthy first choice is status 500 "API返回异常" carrying the whole
      reply. */
  lemma GradeClassification(body: GradeBody, c: Completion)
    requires HasParams(body)
    ensures var r := GradeReply(body, Replied(c));
      && (r.Success() <==> HasFirstChoice(c) && c.choices.value[0].message.Some?)
      && (r.Success() ==> r.result == c.choices.value[0].message.value.content)
      && (!HasFirstChoice(c) <==> r == ProviderAnomaly(c))
      && (!HasFirstChoice(c) ==> r.Status() == 500 && r.Message() == Some(AnomalyMessage))
  {
  }

  /** A thrown error (network, JSON parsing) is status 500 "批改失败" and
      never a success; so is a first choice without a `message`, whose
      `content` cannot be read. */
  lemma GradeThrownIsFailure(body: GradeBody, e: string, c: Completion)
    requires HasParams(body)
    ensures var r := GradeReply(body, Threw(e));
      r == GradeFailed(e) && r.Status() == 500 && !r.Success() && r.Message() == Some(GradeFailedMessage)
    ensures HasFirstChoice(c) && c.choices.value[0].message.None? ==>
      var r := GradeReply(body, Replied(c));
      r == GradeFailed(MissingMessageError) && r.Status() == 500 && r.Message() == Some(GradeFailedMessage)
  {
  }

  // ---------------------------------------------------------------------
  // Recommendations

  /** Envelope of `GET /api/recommend`. */
  datatype RecommendResponse =
    | Recommendations(data: seq<SimilarSentence>)   // 200 {success: true, data}
    | RecommendFailed(error: string)               // 500 {success: false, message, error}
  {
    function Status(): int { if Recommendations? then 200 else 500 }
    predicate Success() { Recommendations? }
    function Message(): Option<string> {
      if Recommendations? then None else Some(RecommendFailedMessage)
    }
  }

  /** The similar sentences of the first record numbered `id`, or none. */
  function SimilarOf(questions: seq<Question>, id: Option<string>): seq<SimilarSentence> {
    match FindIndex(questions, id)
    case None => []
    case Some(k) => questions[k].similarSentences.GetOr([])
  }

  /** Specification of the recommendation route. The query parameter is
      absent when the request carries none. */
  function RecommendReply(questionId: Option<string>, bank: BankRead): RecommendResponse {
    match bank
    case ReadFailed(e) => RecommendFailed(e)
    case Loaded(qs) => Recommendations(SimilarOf(qs, questionId))
  }

  method HandleRecommend(questionId: Option<string>, bank: BankRead) returns (resp: RecommendResponse)
    ensures resp == RecommendReply(questionId, bank)
  {
    if bank.ReadFailed? {
      resp := RecommendFailed(bank.error);
      return;
    }
    var questions := bank.questions;
    var found := FindIndex(questions, questionId);
    if found.None? || questions[found.value].similarSentences.None? {
      resp := Recommendations([]);
      return;
    }
    resp := Recommendations(questions[found.value].similarSentences.value);
  }

  /** An unknown identifier is never an error: it yields an empty list. */
  lemma RecommendUnknownIsEmpty(questionId: Option<string>, questions: seq<Question>)
    requires forall j | 0 <= j < |questions| :: questions[j].questionNumber != questionId
    ensures RecommendReply(questionId, Loaded(questions)) == Recommendations([])
  {
    FindIndexIsFirst(questions, questionId);
  }

  /** When a record is found, the list is the `similar_sentences` of the
      first record with that number, unchanged (an absent list is empty). */
  lemma RecommendFirstMatchVerbatim(questionId: Option<string>, questions: seq<Question>, k: nat)
    requires k < |questions| && questions[k].questionNumber == questionId
    requires forall j | 0 <= j < k :: questions[j].questionNumber != questionId
    ensures RecommendReply(questionId, Loaded(questions))
         == Recommendations(questions[k].similarSentences.GetOr([]))
  {
    FindIndexIsFirst(questions, questionId);
  }

  /** A failed bank read is status 500 with `success: false` on both routes
      that read the bank, each with its own message. */
  lemma BankFailureIsServerError(questionId: Option<string>, e: string)
    ensures var l := QuestionsReply(ReadFailed(e));
      l.Status() == 500 && !l.Success() && l.Message() == Some(ListFailedMessage)
    ensures var r := RecommendReply(questionId, ReadFailed(e));
      r.Status() == 500 && !r.Success() && r.Message() == Some(RecommendFailedMessage)
  {
  }
}
