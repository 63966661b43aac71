# AI interview server: route handlers and score extraction

This project models the logic inside the two route handlers of the AI interview app's
Express server (`server.js`):

- `POST /api/get-question` checks that a domain was given. It fills the question-generation
  prompt template and sends it to the upstream generative-language API. It returns the
  reply text as `{ question }`.
- `POST /api/grade-answer` checks that domain, question and answer were given. It fills the
  grading prompt template and sends it upstream. It extracts a numeric score from the
  free-text feedback with the regular expression `/\b(\d{1,3})[\/\s]*100/` and returns
  `{ score, feedback }`. The score is 70 when nothing matches.

The upstream call is not modelled as I/O. Its outcome is an input value, `Upstream.Outcome`.
Either the call resolves with a reply body in which every level of
`candidates[0].content.parts[0].text` may be missing, or it rejects with an error that
carries an optional upstream error message and the exception's own message. Each handler is
a function from the request fields and that outcome to an `Exchange`. An `Exchange` holds
the upstream request body the handler sent (none when validation fails first) and the HTTP
response as a status plus a JSON object whose members keep their insertion order.

The score extraction follows ECMAScript regular-expression matching (ECMA-262, section 22.2).
`ScoreExtraction.Search` scans start positions from left to right. At each position it
checks `\b` (ASCII word characters only). It then lets `\d{1,3}` greedily take up to three
ASCII digits and gives them back one at a time (`Backtrack`). Each time it lets `[\/\s]*`
greedily take the run of slashes and ECMAScript white space before the literal `100`.
`MatchesAt` and `IsFirstMatch` state declaratively what a match is and which match is
reported. The lemmas prove that the scan reports exactly the leftmost match. They also prove
that at any start position at most one digit count can match, so the "longest group" rule
never has to choose. `parseInt` of the captured group is `DecimalValue`.

Modules: `Wrappers` (Option), `ScoreExtraction` (the pattern, the scan and their
properties), `ScoreExamples` (concrete feedback texts and a grading scenario), `Upstream` (request and reply
bodies, call outcome, the `details` choice), `Handlers` (prompts and the two handlers).

Behaviour worth noting in `server.js`:

- The separator between the digits and `100` is any run of `/` and white space, including
  an empty run. So "85 / 100" scores 85.
- The score is not clamped: it ranges over 0..999, and "999/100" scores 999.
- "Score out of 100: 42" scores the default 70. The literal `100` there has no digit group
  before it, and the pattern never looks at the number after it.
- In the grade handler, a missing reply text makes `feedback.match` throw a `TypeError`, and
  that error's message becomes `details` in a 500 response. An empty reply text is not an
  error there: it gives status 200 and score 70.

## Model

| member | source | states |
|---|---|---|
| ScoreExtraction.Backtrack | server.js:117 | giving back digits never reports more digits than greedy `\d{1,3}` took, nor fewer than one |
| ScoreExtraction.MatchAt | server.js:117 | an attempt at a position captures 1 to 3 digits and succeeds only at a word boundary (`\b`) |
| ScoreExtraction.Search | server.js:117 | the scan reports a match starting at or after its start position, with 1 to 3 digits |
| ScoreExtraction.Exec | server.js:117 | a reported match captures 1 to 3 digits, so `scoreMatch[1]` is a string of ASCII digits |
| ScoreExtraction.ExtractScore | server.js:117-118 | the score is at most 999: no clamp to 100 is applied |
| ScoreExtraction.ScoreOfFirstMatch | server.js:117-118 | the score is 70 when the text holds no match, and otherwise the decimal value of the digit group of the leftmost match |
| ScoreExtraction.ExecFindsFirstMatch | server.js:117 | `match` reports a match iff it is the leftmost-longest one, and reports nothing iff no start position and digit count match |
| ScoreExtraction.SeparatorRunEnd | server.js:117 | greedy `[\/\s]*` stops exactly at the end of the maximal run of separators |
| ScoreExtraction.GreedyDigits | server.js:117 | greedy `\d{1,3}` takes digits up to three and stops only at the limit, the end of the text, or a non-digit |
| ScoreExtraction.TailAtCorrect | server.js:117 | taking the greedy separator run and then `100` succeeds iff some separator run followed by `100` exists |
| ScoreExtraction.BacktrackCorrect | server.js:117 | giving digits back one at a time finds the largest digit count that matches, or shows none does |
| ScoreExtraction.MatchAtCorrect | server.js:117 | one attempt at a start position returns the longest matching digit count there, or none when none matches |
| ScoreExtraction.SearchCorrect | server.js:117 | the scan from a position returns the first match at or after it, or none exists there |
| ScoreExtraction.DecimalValue | server.js:118 | `parseInt` of n digits lies in 0 .. 10^n - 1 |
| ScoreExtraction.GroupValue | server.js:118 | the value of a captured group is at most 999 |
| ScoreExtraction.AtMostOneDigitCount | server.js:117 | at one start position at most one digit count can match |
| ScoreExtraction.FirstMatchUnique | server.js:117-118 | the reported match is determined by the text: two first matches are equal |
| ScoreExtraction.NoMatchAfterWordChar | server.js:117 | a digit group preceded by a letter, digit or `_` never matches (`\b`) |
| ScoreExtraction.NoMatchInsideWord | server.js:117 | the attempt fails between two word characters |
| ScoreExtraction.NoMatchWithoutLaterHundred | server.js:117 | the attempt at a position fails when no `100` starts after it |
| ScoreExtraction.MatchAtGroup | server.js:117 | a digit group at a word boundary, then separators, then `100`, is what the attempt captures, whatever backtracking it takes |
| ScoreExtraction.SearchSkipsNonDigits | server.js:117 | start positions holding no digit never change the scan's result |
| ScoreExtraction.MatchExtends | server.js:117 | a match stays a match when text is appended |
| ScoreExtraction.EarlierMatchInside | server.js:117 | a match that starts before a match lying inside a text lies inside that text as well |
| ScoreExtraction.ScoreIgnoresAppendedText | server.js:117-118 | once the feedback holds a match, appending text never changes the score |
| ScoreExamples.PlainScore | server.js:117-118 | "Score: 85/100" matches at 7 with 2 digits and scores 85 |
| ScoreExamples.FullMarks | server.js:117-118 | "100/100" scores 100 |
| ScoreExamples.NoClamp | server.js:117-118 | "999/100" scores 999 |
| ScoreExamples.WordCharBeforeDigits | server.js:117-118 | "85/100" preceded by any letter or `_` (such as "a85/100" or "_85/100") has no match and scores 70 |
| ScoreExamples.SeparatorRun | server.js:117-118 | "85 / 100" scores 85 |
| ScoreExamples.TrailingDigit | server.js:117-118 | "85/1000" scores 85 |
| ScoreExamples.HundredAlone | server.js:117-118 | "Score: 100" has no match and scores 70 |
| ScoreExamples.Backtracking | server.js:117-118 | "1100" matches with one digit and scores 1 |
| ScoreExamples.ScoreAfterHundred | server.js:117-118 | "Score out of 100: 42" has no match and scores 70 |
| ScoreExamples.ScoreAfterHundredFrom13 | server.js:117 | in "Score out of 100: 42" nothing matches from the literal `100` on |
| ScoreExamples.ScoreAfterHundredFrom16 | server.js:117 | in "Score out of 100: 42" nothing matches after the literal `100` |
| ScoreExamples.NoDigits | server.js:117-118 | "Great answer, well explained", which holds no digit, has no match and scores 70 |
| ScoreExamples.EmptyFeedback | server.js:117-118 | empty feedback has no match and scores 70 |
| ScoreExamples.MultiLine | server.js:117-118 | "Score: 78/100" followed by any further text scores 78 |
| ScoreExamples.GradeAnswerScenario | server.js:114-120 | grading "Explain REST" with feedback "Score: 78/100\nFeedback: solid understanding" returns score 78 and the feedback verbatim |
| Upstream.RequestFor | server.js:69-75 | the request body holds one content block with one part whose text is the prompt |
| Upstream.PromptOfRequestFor | server.js:69-75 | the prompt is read back from the request body built for it |
| Upstream.ReplyText | server.js:78 | a text is only ever read from the first part of the first candidate's content, and every level on the way is present |
| Upstream.ReplyTextOfSingleTextReply | server.js:78 | the optional chain reads the text of a one-candidate, one-part reply |
| Upstream.ReplyTextReadsFirstOnly | server.js:78 | only the first candidate and its first part are read; further ones never matter |
| Upstream.ReplyTextMissingLevels | server.js:78 | a missing body, missing or empty candidates, missing content, or missing or empty parts give no text |
| Upstream.Details | server.js:89 | `details` is the upstream error message when it is present and non-empty, else the exception's message |
| Handlers.Falsy | server.js:62 | a request field is truthy exactly when it is a non-empty string |
| Handlers.QuestionPrompt | server.js:72 | the question prompt is the fixed lead, the domain verbatim, then the fixed tail |
| Handlers.QuestionPromptInjective | server.js:72 | different domains give different question prompts |
| Handlers.GradePrompt | server.js:108 | the grading prompt is as long as its three fields plus the fixed template text |
| Handlers.GradePromptFields | server.js:108 | domain, question and answer appear verbatim and in that order at fixed offsets, and the prompt ends asking for a score out of 100 |
| Handlers.GradePromptAmbiguous | server.js:108 | the template does not delimit its fields: a question containing the answer separator gives the same prompt as a different question/answer pair |
| Handlers.GetQuestion | server.js:59-92 | nothing is sent upstream iff the domain is falsy, which gives 400 "Domain is required"; otherwise the filled prompt is sent; 200 `{question}` with the reply verbatim iff the reply text is non-empty; every other outcome is 500 "Failed to generate question" with the upstream message or "No question received from API" as details |
| Handlers.GetQuestionInvalidIgnoresUpstream | server.js:62-64 | with a falsy domain the upstream outcome plays no part |
| Handlers.GetQuestionReturnsReply | server.js:78-84 | a non-empty reply text comes back verbatim as `{question}` with status 200 |
| Handlers.GradeAnswer | server.js:95-128 | nothing is sent upstream iff a field is falsy, which gives 400 "Missing required fields"; otherwise the filled prompt is sent; 200 `{score, feedback}` with the extracted score and the feedback verbatim iff a reply text exists; a missing one gives 500 with the TypeError's message, and a rejected call gives 500 with the upstream or exception message |
| Handlers.GradeAnswerInvalidIgnoresUpstream | server.js:98-100 | with any falsy field the upstream outcome plays no part |
| Handlers.GradeAnswerScoreRange | server.js:117-120 | a successful grade carries a score in 0..999, and 70 when the feedback has no match |
| Handlers.GradeAnswerEmptyFeedback | server.js:114-120 | empty feedback gives 200 with score 70 |
| Handlers.GradeAnswerNoCandidates | server.js:114-126 | a reply without candidates gives 500 "Failed to grade answer" with the TypeError's message |
| Handlers.GradeAnswerUnauthorized | server.js:121-126 | a rejected call carrying an upstream 401 error message gives 500 with that message as details |

## Left out

- Express setup, CORS and JSON middleware (server.js:1-15): framework wiring with no logic of its own.
- Environment loading, the `PORT` default, the API-key check that exits the process, and the URL that embeds the key (server.js:4-26): process and configuration control.
- The HTTP calls themselves (server.js:32-41, 67-76, 103-112): network I/O. Their result is the input `Upstream.Outcome`, and no timeout or status code is modelled beyond the error message it yields.
- `testApiConnection` and the startup probe in `app.listen` (server.js:29-56, 130-138): I/O and logging with no effect on any handler's response.
- `console.log` and `console.error` logging, and the `async`/`await` suspension: side effects and scheduling only.
- Request fields that are JSON values other than strings (numbers, booleans, objects, `null`): the model treats a field as missing or as a string. Their JavaScript truthiness and their conversion inside the template string are not modelled. A request without a JSON body is treated as one whose fields are all missing. That holds with Express 4, whose JSON parser sets `req.body` to `{}`. Under Express 5, `req.body` stays undefined and destructuring it throws before the handler's `try`; that case is not modelled.
- Reply texts that are not strings: a numeric `text` would make `feedback.match` fail with a different `TypeError`. A `text` that is explicitly `null` is treated like a missing one, although V8's message would then say `null` instead of `undefined`.
- Handlers.MatchOnUndefined: the `details` text for a missing feedback is the message of current Node.js (V8) releases; other engines word this `TypeError` differently.
- JavaScript strings are UTF-16 code units, while the model's strings are sequences of Unicode scalar values. Every character the pattern tests lies in the Basic Multilingual Plane, and a surrogate pair counts as a non-word, non-digit, non-space character under both readings. So the reported group and score are the same; only the numeric start positions differ for texts containing such characters.
