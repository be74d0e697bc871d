# Translation grading — a Dafny model

This project models the core of a small web application for practising the
English-to-Chinese translation questions of the postgraduate entrance exam.
The learner sees a question from a bank, types a translation, saves it as a
draft or submits it for grading, and can open a panel of similar sentences
to practise.

The model covers both halves of the application:

- **The backend** (`backend/src/index.js`), three HTTP routes over a JSON
  question bank: the question list, the grading route that builds a rubric
  prompt and forwards it to a chat-completion provider, and the
  recommendation route that returns a question's stored similar sentences.
  Each route is a specification function (`QuestionsReply`, `GradeReply`,
  `RecommendReply`) and a handler method written in the route's own
  early-return shape and proved equal to it. The bank read and the provider
  call are parameters (`BankRead`, `ProviderOutcome`).
- **The browser client**: the top-level component's state and handlers as
  the class `App.AppState`; the answer panel as `AnswerSection.AnswerBox`
  (the callbacks it makes are recorded in `calls`); the recommendation
  panel as `RecommendSection.RecommendPanel` (the lookups it issues are
  recorded in `lookups`); and the question card's pure rendering in
  `QuestionCard`.
- **The score extractor**, the regular expression `/得分:\s*([\d.]+)分/`,
  modelled as a greedy matcher (`ScorePattern.MatchAt`) proved sound and
  complete against a declarative description of what the pattern matches
  (`ScorePattern.MatchesWith`), with the leftmost match taken.
- **The JavaScript string operations the core relies on**, in `JsString`:
  `trim` with the ECMAScript whitespace set, `split` on a one-character
  separator, `join`, `slice` with clamping, and template-literal
  interpolation of a missing value (`"undefined"`).

`Pipeline` states properties across the client and the server: what the
learner sees for each way a grading request can end, that a blank answer is
stopped only by the client, that opening the panel looks up the question's
own list, and that, as long as no bank number starts with `similar_`, a
practice question built from a similar sentence is never found by the
question selector, so choosing it changes nothing.

The intended design calls for a numeric score between 0 and 2, a provider
timeout, and a server-side check that the answer is not blank. The code
does not do these things, and the model follows the code:

- The grading route rejects only a missing or empty sentence or answer
  (JavaScript falsiness). An answer made only of whitespace is accepted and
  forwarded (`Server.GradeValidation`, `Pipeline.BlankAnswerOnlyBlockedByClient`).
- The score is the raw captured text of the first `得分:` match: any run of
  digits and dots, such as `"..."` or `"9"`, is shown as the score, and the
  text is never converted to a number or checked against the 0–2 range.
- There is no provider timeout and no retry. Every failure inside the
  grading `try` becomes status 500 with the message `批改失败`. A reply
  without a first choice is instead status 500 with `API返回异常`.
- The grading result's score is not produced by the server. The server
  returns the provider's text and the client extracts the score.
- Nothing checks at start-up that the provider credential is present.

## Model

| member | source | states |
|---|---|---|
| Server.HandleQuestions | backend/src/index.js:29-37 | the route returns the bank's questions unchanged with success when the read and parse succeed; otherwise it returns status 500 with `success: false` and the message `读取题库失败` |
| Server.QuestionsReply | backend/src/index.js:29-37 | the reply of the question-list route; its properties are the contracts of `Server.HandleQuestions` and `Server.BankFailureIsServerError` |
| Server.BankFailureIsServerError | backend/src/index.js:154-156 | a failed bank read is status 500, not a success, with the route's own message, on both routes that read the bank |
| Server.GradeValidation | backend/src/index.js:41-44 | the status is 400 exactly when the sentence or the answer is missing or empty; a 400 carries `缺少参数` and is sent without contacting the provider, and no other outcome skips the provider |
| Server.HasParams | backend/src/index.js:42 | the truthiness test on the sentence and the answer; `Server.GradeValidation` states that it decides the 400 reply |
| Server.Truthy | backend/src/index.js:42 | the JavaScript truthiness of a possibly missing string (present and non-empty); `Server.GradeValidation` states its effect on the reply |
| Server.PromptShape | backend/src/index.js:46-110 | the trimmed prompt is the rubric preamble, the sentence verbatim, the answer label and the answer with only its trailing whitespace removed |
| Server.BuildPrompt | backend/src/index.js:46-110 | the trimmed template prompt; its closed form is `Server.PromptShape`, and `Server.PromptIgnoresTrailingBlank` and `Server.PromptDeterminesQuestion` state what it keeps and drops |
| Server.PromptTemplate | backend/src/index.js:46-109 | the template literal before `.trim()`; `Server.PromptShape` states what trimming it gives |
| Server.PromptIgnoresTrailingBlank | backend/src/index.js:108-110 | trailing whitespace on the answer does not change the prompt |
| Server.PromptDeterminesQuestion | backend/src/index.js:108-110 | two sentences without line breaks that produce the same prompt are the same sentence, and their answers agree up to trailing whitespace |
| Server.GradeRequestShape | backend/src/index.js:118-126 | the provider receives the fixed model name, the 1024-token cap, and exactly two messages: the teacher instruction as the system turn and the prompt as the user turn |
| Server.ProviderRequest | backend/src/index.js:118-126 | the body sent to the provider for a prompt; `Server.GradeRequestShape` states its model, token cap and two messages |
| Server.GradeClassification | backend/src/index.js:128-133 | a reply is a success exactly when it has a truthy first choice with a message, and the result is that message's content verbatim; a reply without a first choice is status 500 `API返回异常` carrying the whole reply |
| Server.HasFirstChoice | backend/src/index.js:129 | `result.choices && result.choices[0]`; `Server.GradeClassification` states that it decides between a graded reply and `API返回异常` |
| Server.GradeThrownIsFailure | backend/src/index.js:128-136 | an error thrown while grading is status 500 `批改失败` and is never a success; a first choice without a `message` throws when its `content` is read and gives the same reply |
| Server.GradeRequest | backend/src/index.js:40-127 | the request sent to the provider, or none; `Server.GradeValidation` states when it is absent and `Server.GradeRequestShape` states its shape |
| Server.GradeReply | backend/src/index.js:40-137 | the reply of the grading route; `Server.GradeValidation`, `Server.GradeClassification` and `Server.GradeThrownIsFailure` state its cases |
| Server.HandleGrade | backend/src/index.js:40-137 | the handler's early-return code sends exactly the request and returns exactly the response that the route's specification gives |
| Server.HandleRecommend | backend/src/index.js:140-157 | the handler's early-return code returns exactly the response that the route's specification gives |
| Server.RecommendUnknownIsEmpty | backend/src/index.js:147-150 | a question id that no record carries gives a success with an empty list, never an error |
| Server.RecommendFirstMatchVerbatim | backend/src/index.js:147-153 | the list is the similar sentences of the first record with that number, unchanged, and a record without any gives an empty list |
| Server.SimilarOf | backend/src/index.js:147-153 | the similar sentences of the first record with the id; `Server.RecommendUnknownIsEmpty` and `Server.RecommendFirstMatchVerbatim` state its two cases |
| Server.RecommendReply | backend/src/index.js:140-157 | the reply of the recommendation route; its cases are stated by `Server.RecommendUnknownIsEmpty`, `Server.RecommendFirstMatchVerbatim` and `Server.BankFailureIsServerError` |
| QuestionBank.FindFrom | backend/src/index.js:147 | the search returns the first index at or after the start whose record has the id, and no index when there is none |
| QuestionBank.FindIndexIsFirst | frontend/src/App.jsx:98 | `findIndex` by strict equality returns the first matching index, and returns no index exactly when no record matches |
| QuestionBank.FindIndex | frontend/src/App.jsx:98 | `findIndex` and `find` by question number; `QuestionBank.FindIndexIsFirst` states that it is the first match or none |
| JsString.TrimStart | backend/src/index.js:110 | the result is a suffix of the input, everything removed is whitespace, and the result is empty or starts with a non-whitespace character |
| JsString.TrimEnd | backend/src/index.js:110 | the result is a prefix of the input, everything removed is whitespace, and the result is empty or ends with a non-whitespace character |
| JsString.TrimEmptyIffBlank | frontend/src/components/AnswerSection.jsx:14 | `trim()` gives the empty string exactly when the string is all whitespace |
| JsString.Trim | backend/src/index.js:110 | `trim()`, the composition of `JsString.TrimStart` and `JsString.TrimEnd`, whose contracts state it; `JsString.TrimEmptyIffBlank` states when it is empty |
| JsString.Split | frontend/src/components/QuestionCard.jsx:24 | `split` returns at least one part, and no part contains the separator |
| JsString.JoinSplit | frontend/src/components/QuestionCard.jsx:24-26 | joining the parts of a split with the same separator gives back the string |
| JsString.SplitJoin | frontend/src/components/QuestionCard.jsx:24-26 | splitting the join of separator-free parts gives back the parts |
| JsString.Join | frontend/src/components/QuestionCard.jsx:25-26 | `join(' ')`; `JsString.JoinSplit` and `JsString.SplitJoin` state that it inverts `JsString.Split` |
| JsString.Slice | frontend/src/components/QuestionCard.jsx:25 | `slice(lo, hi)` clamps both bounds to the length and returns the elements between them |
| JsString.SliceFrom | frontend/src/components/QuestionCard.jsx:26 | `slice(lo)` returns the elements from the clamped bound to the end |
| JsString.Stringify | frontend/src/App.jsx:40 | how a missing question number prints as an object key or in a URL; `App.AppState.SaveAnswer` and `RecommendSection.RecommendPanel.Expand` state where it is used |
| ScorePattern.Span | frontend/src/App.jsx:67 | the greedy run is the longest run of characters in the class starting at the position |
| ScorePattern.MatchAtSound | frontend/src/App.jsx:67 | a greedy match at a position is a match of the pattern there, and its capture is a non-empty run of digits and dots |
| ScorePattern.MatchAtComplete | frontend/src/App.jsx:67 | whenever the pattern matches at a position, the greedy matcher finds a match there with the same capture |
| ScorePattern.MatchAt | frontend/src/App.jsx:67 | the greedy match of the pattern at one position; `ScorePattern.MatchAtSound` and `ScorePattern.MatchAtComplete` state that it agrees with the pattern |
| ScorePattern.FirstMatchFrom | frontend/src/App.jsx:67 | the search returns the leftmost position at or after the start where the pattern matches, and no position when there is none |
| ScorePattern.ExtractIsLeftmost | frontend/src/App.jsx:67 | the extracted score is the capture at the leftmost position where the pattern matches |
| ScorePattern.Extract | frontend/src/App.jsx:67 | `result.match(...)` and its first group; `ScorePattern.ExtractIsLeftmost` states that it is the capture of the leftmost match |
| ScorePattern.MatchMeansScored | frontend/src/App.jsx:67-68 | any text the pattern matches somewhere is shown with a score other than `--` |
| ScorePattern.ScoreUnscoredIff | frontend/src/App.jsx:67-68 | the score is `--` exactly when the pattern matches nowhere; otherwise it is a non-empty run of digits and dots |
| ScorePattern.Score | frontend/src/App.jsx:67-68 | the score text or `--`; `ScorePattern.ScoreUnscoredIff` states when each is shown |
| ScorePattern.ScoreOfLabelled | frontend/src/App.jsx:67-68 | a text that starts with the label, whitespace, a number and `分` shows that number as its score |
| App.GradingOutcomeCases | frontend/src/App.jsx:63-85 | a success shows the server text as feedback, with `--` exactly when the text has no score pattern; a server failure shows `--` with `批改失败，请重试`; a network error shows `--` with `网络错误，请检查连接`; the score is never empty |
| App.GradingOutcome | frontend/src/App.jsx:63-85 | the grading result that a settled request sets; `App.GradingOutcomeCases` states its three branches |
| App.AppState.constructor | frontend/src/App.jsx:8-13 | the state starts with no questions, index 0, no result, not grading, no saved answers, and loading |
| App.AppState.CurrentQuestion | frontend/src/App.jsx:126 | the question at the current index, or none past the end of the list; `App.AppState.SaveAnswer` states its use as the key source |
| App.AppState.LoadQuestions | frontend/src/App.jsx:16-32 | the list is replaced only by a successful reply; loading ends on every path; nothing else changes |
| App.AppState.SaveAnswer | frontend/src/App.jsx:35-44 | the answer is stored under the current question's printed number and every other saved answer is kept; with no current question nothing changes |
| App.AppState.BeginSubmit | frontend/src/App.jsx:47-61 | grading starts, the old result is cleared, and the posted body is the question's sentence with the answer as typed |
| App.AppState.FinishSubmit | frontend/src/App.jsx:63-88 | grading ends on every path, and the result is the outcome that the reply determines |
| App.AppState.SubmitAnswer | frontend/src/App.jsx:47-89 | the whole submission posts the sentence and the answer, ends grading, and sets the result from the reply |
| App.AppState.Reset | frontend/src/App.jsx:92-94 | only the grading result is cleared |
| App.AppState.SelectQuestion | frontend/src/App.jsx:97-103 | the index moves to the first question with the same number and the result is cleared; with no such question nothing changes; the index stays in range |
| App.AppState.SelectByIndex | frontend/src/App.jsx:106-109 | the index is set as given and the result cleared; an index inside the list keeps the index in range |
| App.AppState.NextQuestion | frontend/src/App.jsx:112-117 | the index moves up by one and the result is cleared only below the last index; otherwise nothing changes; the index stays in range |
| App.AppState.PrevQuestion | frontend/src/App.jsx:119-124 | the index moves down by one and the result is cleared only above index 0; otherwise nothing changes; the index stays in range |
| AnswerSection.HasTextIffNotBlank | frontend/src/components/AnswerSection.jsx:14 | an answer passes the trimmed-text guard exactly when it has a non-whitespace character |
| AnswerSection.HasText | frontend/src/components/AnswerSection.jsx:14 | the guard `answer.trim()`; `AnswerSection.HasTextIffNotBlank` states when it holds |
| AnswerSection.CanSubmit | frontend/src/components/AnswerSection.jsx:20 | the submit handler's guard; `AnswerSection.ButtonsMatchGuards` and `AnswerSection.AnswerBox.Submit` state when it holds and what it lets through |
| AnswerSection.ButtonsMatchGuards | frontend/src/components/AnswerSection.jsx:45-59 | each button is enabled exactly when its handler's guard holds and no grading is in progress |
| AnswerSection.SubmitDisabled | frontend/src/components/AnswerSection.jsx:59 | the submit button's `disabled` expression; `AnswerSection.ButtonsMatchGuards` ties it to the submit guard |
| AnswerSection.SaveDisabled | frontend/src/components/AnswerSection.jsx:45 | the save button's `disabled` expression; `AnswerSection.ButtonsMatchGuards` ties it to the save guard |
| AnswerSection.ScoreLabelShowsScore | frontend/src/components/AnswerSection.jsx:69 | the `--` fallback of the score label never applies, because every grading outcome has a non-empty score |
| AnswerSection.ScoreLabel | frontend/src/components/AnswerSection.jsx:69 | the score, or `--` when the score is empty; `AnswerSection.ScoreLabelShowsScore` states that the fallback never applies |
| AnswerSection.AnswerBox.constructor | frontend/src/components/AnswerSection.jsx:11 | the text box starts empty and no callback has been made |
| AnswerSection.AnswerBox.Edit | frontend/src/components/AnswerSection.jsx:37-38 | the answer becomes the typed text |
| AnswerSection.AnswerBox.Save | frontend/src/components/AnswerSection.jsx:13-17 | the untrimmed answer is passed to the save handler exactly when its trimmed form is non-empty |
| AnswerSection.AnswerBox.Submit | frontend/src/components/AnswerSection.jsx:19-23 | the current question and the untrimmed answer are passed to the submit handler exactly when the trimmed answer is non-empty and a question is on screen |
| AnswerSection.AnswerBox.Reset | frontend/src/components/AnswerSection.jsx:25-28 | the answer is cleared and the reset handler is called once |
| QuestionCard.ReferenceFallback | frontend/src/components/QuestionCard.jsx:18 | the reference answer is shown as stored, and the fallback `暂无参考翻译` is shown when it is absent or empty |
| QuestionCard.ReferenceText | frontend/src/components/QuestionCard.jsx:18 | the reference answer, or `暂无参考翻译` when it is absent or empty; `QuestionCard.ReferenceFallback` states both cases |
| QuestionCard.RenderOnlyWithQuestion | frontend/src/components/QuestionCard.jsx:4 | nothing renders without a question; otherwise the card shows the sentence verbatim |
| QuestionCard.Render | frontend/src/components/QuestionCard.jsx:4-28 | the card for a question, or nothing; `QuestionCard.RenderOnlyWithQuestion` states when it renders and what sentence it shows |
| QuestionCard.StructurePartition | frontend/src/components/QuestionCard.jsx:24-26 | the subject, predicate and object tokens are the token list cut in three, with nothing lost, added or reordered |
| QuestionCard.StructureParts | frontend/src/components/QuestionCard.jsx:24-26 | the subject has no space and is empty for a sentence with a leading space; the predicate is empty with fewer than two tokens and is tokens two and three with one space between them when there are at least three; the object is empty with at most three tokens |
| QuestionCard.StructureReconstructs | frontend/src/components/QuestionCard.jsx:24-26 | with at least four tokens, subject, predicate and object joined by single spaces give back the sentence |
| QuestionCard.Analyse | frontend/src/components/QuestionCard.jsx:24-26 | the subject, predicate and object split; `QuestionCard.StructurePartition`, `QuestionCard.StructureParts` and `QuestionCard.StructureReconstructs` state its properties |
| QuestionCard.Tokens | frontend/src/components/QuestionCard.jsx:24 | `split(' ')` of the sentence; `JsString.JoinSplit` and `QuestionCard.StructurePartition` state that the tokens rebuild the sentence and cut into the three parts |
| RecommendSection.PracticeQuestionFields | frontend/src/components/RecommendSection.jsx:59-65 | a practice question keeps the sentence's text, has an empty reference answer, and is numbered `similar_` followed by the sentence id, so different ids give different numbers |
| RecommendSection.PracticeQuestion | frontend/src/components/RecommendSection.jsx:59-65 | the practice question built from a similar sentence; `RecommendSection.PracticeQuestionFields` states its fields |
| RecommendSection.NoticeIffEmpty | frontend/src/components/RecommendSection.jsx:38-77 | the notice `暂无相似题目推荐` shows exactly when the open panel's list is empty, and a listing shows the whole list in order |
| RecommendSection.View | frontend/src/components/RecommendSection.jsx:38-77 | what the panel shows; `RecommendSection.NoticeIffEmpty` states when the notice and the listing show |
| RecommendSection.RecommendPanel.constructor | frontend/src/components/RecommendSection.jsx:4-6 | the panel starts collapsed, with an empty list, not loading, and without any lookup |
| RecommendSection.RecommendPanel.Expand | frontend/src/components/RecommendSection.jsx:8-24 | the panel flips open or closed; only opening with a question on screen issues a lookup for that question's printed number; only a successful reply replaces the list; loading has ended after a lookup |
| Pipeline.GradeEndToEnd | frontend/src/App.jsx:63-85 | for every body and provider outcome, the learner sees the provider's text with its score, the retry message, or the network-error message, according to how the grading route ended |
| Pipeline.ScoredReplyShown | frontend/src/App.jsx:67-73 | a provider reply that starts with `得分: 2分` shows the score `2` with the whole reply as feedback |
| Pipeline.FullWidthColonUnscored | frontend/src/App.jsx:67 | a reply that uses the full-width colon, `得分：2分`, shows `--` |
| Pipeline.BlankAnswerOnlyBlockedByClient | backend/src/index.js:42 | a non-empty all-whitespace answer is blocked by the answer panel's guard, but the server accepts it and sends a prompt whose answer line is empty |
| Pipeline.PanelLookupFindsOwnList | frontend/src/components/RecommendSection.jsx:12 | opening the panel on a bank question gets that question's own similar sentences, unchanged |
| Pipeline.RecommendScenario | backend/src/index.js:147-153 | a question with two stored similar sentences gets both, in order, and an unknown question gets an empty list |
| Pipeline.PracticeQuestionNeverFound | frontend/src/App.jsx:97-103 | when no bank number starts with `similar_`, a practice question is found nowhere in the list |
| Pipeline.PracticeClick | frontend/src/components/RecommendSection.jsx:59-66 | when no bank number starts with `similar_`, handing a practice question to the selection handler leaves the question on screen and the grading result unchanged |

## Left out

- `frontend/src/components/QuestionSelector.jsx` is not part of this model. Its dropdown only calls the select-by-index handler, which is modelled as `App.AppState.SelectByIndex`.
- Reading and parsing the bank file, the HTTP fetches and the provider call are not modelled as I/O. Their outcomes are parameters (`BankRead`, `Transport`, `ProviderOutcome`).
- The Express middleware (CORS, security headers, JSON body parsing, the rate limiter of 60 requests per minute), `listen` and the environment variables are not modelled. None of them affects a route's logic.
- Asynchronous interleaving is not modelled. Each handler runs as one atomic step, except that the start and the settlement of a submission are also available as two steps (`BeginSubmit`, `FinishSubmit`).
- The similarity scores are treated as reals. The percentage display and the provider temperature of 0.2 are not modelled, because they are floating-point values. The temperature is an opaque constant.
- The rubric inside the prompt is shortened to its first sentence. The proofs rely only on the rubric's first character not being whitespace; the text after the sentence, the answer label, ends in a visible character.
- Rendering markup, styling, `alert` and console logging are not modelled, nor the card's fixed keyword list, which does not depend on the question.
- JSON fields are modelled as strings or as absent values. The other JSON values behave as follows in the handlers, and these cases are not modelled:
  - A body field that is `0` or `false` is falsy and gets the 400 reply. A truthy number, boolean or object is printed into the prompt like text and graded as usual.
  - A record whose `questionNumber` is a number is never strictly equal to the string query value, so recommendations for it are always the empty list, although the client prints the number into the query.
  - A `choices` that is a number, or an object without a truthy `0` property, has no truthy first element, so the reply is status 500 `API返回异常`. An object with a truthy `0` property is treated as having a first choice.
  - A `choices` that is a non-empty string has a truthy first character without a `message`, so reading `content` throws and the reply is status 500 `批改失败`.
  - A `null` record reached by the recommendation search before any matching record makes the search throw, so the reply is status 500 `获取推荐题失败`. A `null` record after the first match is never read.
- The recommendation query string is taken as the question number printed verbatim. URL encoding and decoding of characters such as `&` or `#` are not modelled.
- Server.HandleGrade: uses one error text for an absent and a `null` `message` on the first choice. The JavaScript TypeError texts for the two cases differ in the word after 'of': `undefined` or `null`.
- AnswerSection.AnswerBox.Edit: does not model that the text box is disabled while grading, because that flag belongs to the parent's state.
- RecommendSection.RecommendPanel.Expand: does not model the intermediate state in which the lookup is in flight and loading is shown.
- App.AppState.SelectByIndex: keeps the index in range only for an index inside the list. The dropdown offers only such indexes, but the handler itself does not check.
