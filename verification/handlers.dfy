/**
 * The two route handlers of server.js: `POST /api/get-question` (lines 59-92) and
 * `POST /api/grade-answer` (lines 95-128). Each is a function from the request's fields and
 * the outcome of the upstream call to an `Exchange`: the upstream request the handler sent,
 * if it sent one, and the HTTP response it wrote.
 */
module Handlers {
  import opened Wrappers
  import opened Upstream
  import opened ScoreExtraction

  /** The JSON values the handlers put in a response. */
  datatype Json = JString(str: string) | JNumber(num: int)

  /** A JSON object as `res.json` writes it: its members in insertion order. */
  type JsonObject = seq<(string, Json)>

  datatype Response = Response(status: nat, body: JsonObject)

  /** What handling one request did: the upstream request it sent, if any, and its response. */
  datatype Exchange = Exchange(sent: Option<RequestBody>, response: Response)

  /** JavaScript falsiness of a request-body field: missing, or the empty string. */
  predicate Falsy(field: Option<string>)
    ensures !Falsy(field) <==> field.Some? && |field.value| > 0
  {
    field.None? || field.value == ""
  }

  /** A `{ error }` response. */
  function ErrorResponse(status: nat, error: string): Response {
    Response(status, [("error", JString(error))])
  }

  /** A `{ error, details }` response with status 500. */
  function FailureResponse(error: string, details: string): Response {
    Response(500, [("error", JString(error)), ("details", JString(details))])
  }

  const DomainRequired := "Domain is required"
  const MissingFields := "Missing required fields"
  const QuestionFailed := "Failed to generate question"
  const GradeFailed := "Failed to grade answer"

  /** The message of the `Error` the question handler throws on an empty reply (line 81). */
  const NoQuestionReceived := "No question received from API"

  /**
   * The message of the `TypeError` Node.js (V8) raises for `feedback.match(...)` when
   * `feedback` is `undefined` (line 117).
   */
  const MatchOnUndefined := "Cannot read properties of undefined (reading 'match')"

  // ---------------------------------------------------------------------------------------
  // Prompts

  const QuestionLead := "Generate a challenging interview question for the "
  const QuestionTail := " domain. The question should be detailed and technical."

  /** The question-generation prompt (line 72): the fixed template with the domain in it verbatim. */
  function QuestionPrompt(domain: string): (p: string)
    ensures |p| == |QuestionLead| + |domain| + |QuestionTail|
    ensures p[..|QuestionLead|] == QuestionLead
    ensures p[|QuestionLead|..|QuestionLead| + |domain|] == domain
    ensures p[|QuestionLead| + |domain|..] == QuestionTail
  {
    QuestionLead + domain + QuestionTail
  }

  /** Different domains give different question prompts. */
  lemma QuestionPromptInjective(a: string, b: string)
    requires QuestionPrompt(a) == QuestionPrompt(b)
    ensures a == b
  {
    var p := QuestionPrompt(a);
    assert |a| == |b|;
    assert a == p[|QuestionLead|..|QuestionLead| + |a|] == b;
  }

  const GradeLead := "For the "
  const GradeAfterDomain := " interview question: \""
  const GradeAfterQuestion := "\"\n\nCandidate's answer: \""
  const GradeTail := "\"\n\nPlease evaluate this answer and provide:\n1. A score out of 100\n2. Detailed feedback explaining the score"

  /** The grading prompt (line 108): the fixed template around domain, question and answer. */
  function GradePrompt(domain: string, question: string, answer: string): (p: string)
    ensures |p| == |GradeLead| + |domain| + |GradeAfterDomain| + |question|
                   + |GradeAfterQuestion| + |answer| + |GradeTail|
  {
    GradeLead + domain + GradeAfterDomain + question + GradeAfterQuestion + answer + GradeTail
  }

  /**
   * Domain, question and answer stand verbatim and in that order in the grading prompt,
   * each at the position the fixed pieces before it leave, and the prompt ends with the
   * request for a score out of 100 and feedback.
   */
  lemma GradePromptFields(domain: string, question: string, answer: string)
    ensures var p := GradePrompt(domain, question, answer);
      var d := |GradeLead|;
      var q := d + |domain| + |GradeAfterDomain|;
      var a := q + |question| + |GradeAfterQuestion|;
      && |p| == a + |answer| + |GradeTail|
      && p[..d] == GradeLead
      && p[d..d + |domain|] == domain
      && p[q..q + |question|] == question
      && p[a..a + |answer|] == answer
      && p[a + |answer|..] == GradeTail
  {
    var p := GradePrompt(domain, question, answer);
    var d := |GradeLead|;
    var q := d + |domain| + |GradeAfterDomain|;
    var a := q + |question| + |GradeAfterQuestion|;
    var head := GradeLead + domain + GradeAfterDomain + question + GradeAfterQuestion;
    assert p == head + answer + GradeTail;
    assert |head| == a;
    assert p[a..a + |answer|] == answer;
    assert p[a + |answer|..] == GradeTail;
    assert p[..a] == head;
    var h := GradeLead + domain + GradeAfterDomain;
    assert head == h + question + GradeAfterQuestion;
    assert p[q..q + |question|] == head[q..q + |question|] == question;
    assert p[d..d + |domain|] == h[d..d + |domain|] == domain;
  }

  /**
   * The template does not delimit the fields unambiguously: moving the text that separates
   * question and answer, with what follows it, from the question into the answer gives a
   * different question/answer pair with the same prompt.
   */
  lemma GradePromptAmbiguous(domain: string, question: string, middle: string, answer: string)
    ensures question + GradeAfterQuestion + middle != question
    ensures GradePrompt(domain, question + GradeAfterQuestion + middle, answer)
         == GradePrompt(domain, question, middle + GradeAfterQuestion + answer)
  {
    assert |question + GradeAfterQuestion + middle| > |question|;
    var x := GradeLead + domain + GradeAfterDomain + question;
    var whole := x + GradeAfterQuestion + middle + GradeAfterQuestion + answer + GradeTail;
    assert GradePrompt(domain, question + GradeAfterQuestion + middle, answer) == whole by {
      assert GradeLead + domain + GradeAfterDomain + (question + GradeAfterQuestion + middle)
          == x + GradeAfterQuestion + middle;
    }
    assert GradePrompt(domain, question, middle + GradeAfterQuestion + answer) == whole by {
      assert x + GradeAfterQuestion + (middle + GradeAfterQuestion + answer)
          == x + GradeAfterQuestion + middle + GradeAfterQuestion + answer;
    }
  }

  // ---------------------------------------------------------------------------------------
  // POST /api/get-question

  /**
   * The question handler. A falsy domain is answered with 400 before anything is sent
   * upstream; otherwise the prompt is sent, and a non-empty reply text is returned verbatim
   * as `{ question }`, while an empty or missing one, or a rejected call, gives a 500 whose
   * `details` is the upstream error message or the exception's message.
   */
  function GetQuestion(domain: Option<string>, upstream: Outcome): (ex: Exchange)
    ensures ex.sent.None? <==> Falsy(domain)
    ensures !Falsy(domain) ==> ex.sent == Some(RequestFor(QuestionPrompt(domain.value)))
    ensures Falsy(domain) <==> ex.response == ErrorResponse(400, DomainRequired)
    ensures ex.response.status == 200 <==>
      !Falsy(domain) && upstream.Resolved? && !Falsy(ReplyText(upstream.data))
    ensures ex.response.status == 200 ==>
      ex.response.body == [("question", JString(ReplyText(upstream.data).value))]
    ensures ex.response.status in {200, 400, 500}
    ensures ex.response.status == 500 ==> !Falsy(domain) && match upstream
      case Rejected(upstreamMessage, message) =>
        ex.response == FailureResponse(QuestionFailed, Details(upstreamMessage, message))
      case Resolved(data) =>
        Falsy(ReplyText(data)) && ex.response == FailureResponse(QuestionFailed, NoQuestionReceived)
  {
    if Falsy(domain) then
      Exchange(None, ErrorResponse(400, DomainRequired))
    else
      var sent := RequestFor(QuestionPrompt(domain.value));
      var response :=
        match upstream
        case Rejected(upstreamMessage, message) =>
          FailureResponse(QuestionFailed, Details(upstreamMessage, message))
        case Resolved(data) =>
          var question := ReplyText(data);
          if Falsy(question) then
            // the thrown Error has no `response`, so `details` is its own message
            FailureResponse(QuestionFailed, Details(None, NoQuestionReceived))
          else
            Response(200, [("question", JString(question.value))]);
      Exchange(Some(sent), response)
  }

  /** With a falsy domain the outcome of an upstream call plays no part: none is made. */
  lemma GetQuestionInvalidIgnoresUpstream(domain: Option<string>, u: Outcome, u': Outcome)
    requires Falsy(domain)
    ensures GetQuestion(domain, u) == GetQuestion(domain, u')
  {
  }

  /** The text of a single-text reply comes back verbatim as the question. */
  lemma GetQuestionReturnsReply(domain: string, text: string)
    requires domain != "" && text != ""
    ensures GetQuestion(Some(domain), Resolved(Some(SingleTextReply(text)))).response
         == Response(200, [("question", JString(text))])
  {
    ReplyTextOfSingleTextReply(text);
  }

  // ---------------------------------------------------------------------------------------
  // POST /api/grade-answer

  /**
   * The grading handler. Any falsy field is answered with 400 before anything is sent
   * upstream; otherwise the prompt is sent, and a reply text `f` (even an empty one) gives
   * `{ score, feedback }` with the score extracted from `f` and `f` verbatim. A missing
   * reply text makes `feedback.match` throw, and that, like a rejected call, gives a 500.
   */
  function GradeAnswer(domain: Option<string>, question: Option<string>, userAnswer: Option<string>,
                       upstream: Outcome): (ex: Exchange)
    ensures ex.sent.None? <==> Falsy(domain) || Falsy(question) || Falsy(userAnswer)
    ensures ex.sent.Some? ==>
      ex.sent == Some(RequestFor(GradePrompt(domain.value, question.value, userAnswer.value)))
    ensures Falsy(domain) || Falsy(question) || Falsy(userAnswer) <==>
      ex.response == ErrorResponse(400, MissingFields)
    ensures ex.response.status == 200 <==>
      ex.sent.Some? && upstream.Resolved? && ReplyText(upstream.data).Some?
    ensures ex.response.status == 200 ==>
      var feedback := ReplyText(upstream.data).value;
      ex.response.body == [("score", JNumber(ExtractScore(feedback))), ("feedback", JString(feedback))]
    ensures ex.response.status in {200, 400, 500}
    ensures ex.response.status == 500 ==> ex.sent.Some? && match upstream
      case Rejected(upstreamMessage, message) =>
        ex.response == FailureResponse(GradeFailed, Details(upstreamMessage, message))
      case Resolved(data) =>
        ReplyText(data).None? && ex.response == FailureResponse(GradeFailed, MatchOnUndefined)
  {
    if Falsy(domain) || Falsy(question) || Falsy(userAnswer) then
      Exchange(None, ErrorResponse(400, MissingFields))
    else
      var sent := RequestFor(GradePrompt(domain.value, question.value, userAnswer.value));
      var response :=
        match upstream
        case Rejected(upstreamMessage, message) =>
          FailureResponse(GradeFailed, Details(upstreamMessage, message))
        case Resolved(data) =>
          match ReplyText(data)
          case None =>
            // `feedback.match` on undefined throws a TypeError, which has no `response`
            FailureResponse(GradeFailed, Details(None, MatchOnUndefined))
          case Some(feedback) =>
            Response(200, [("score", JNumber(ExtractScore(feedback))), ("feedback", JString(feedback))]);
      Exchange(Some(sent), response)
  }

  /** With a falsy field the outcome of an upstream call plays no part: none is made. */
  lemma GradeAnswerInvalidIgnoresUpstream(domain: Option<string>, question: Option<string>,
                                          userAnswer: Option<string>, u: Outcome, u': Outcome)
    requires Falsy(domain) || Falsy(question) || Falsy(userAnswer)
    ensures GradeAnswer(domain, question, userAnswer, u) == GradeAnswer(domain, question, userAnswer, u')
  {
  }

  /** A successful grade carries a score between 0 and 999, and 70 when the feedback has no match. */
  lemma GradeAnswerScoreRange(domain: Option<string>, question: Option<string>,
                              userAnswer: Option<string>, upstream: Outcome)
    requires GradeAnswer(domain, question, userAnswer, upstream).response.status == 200
    ensures var body := GradeAnswer(domain, question, userAnswer, upstream).response.body;
      |body| == 2 && body[0].0 == "score" && body[0].1.JNumber?
      && 0 <= body[0].1.num <= 999
      && (NoMatch(body[1].1.str) ==> body[0].1.num == DefaultScore)
  {
    var feedback := ReplyText(upstream.data).value;
    ScoreOfFirstMatch(feedback);
  }

  /** Empty feedback is not an error: it gets status 200 and the default score. */
  lemma GradeAnswerEmptyFeedback(domain: string, question: string, userAnswer: string)
    requires domain != "" && question != "" && userAnswer != ""
    ensures GradeAnswer(Some(domain), Some(question), Some(userAnswer),
                        Resolved(Some(SingleTextReply("")))).response
         == Response(200, [("score", JNumber(DefaultScore)), ("feedback", JString(""))])
  {
    ReplyTextOfSingleTextReply("");
    assert Search("", 0) == None;
  }

  /** A reply without candidates makes `feedback.match` throw: status 500 with the TypeError's message. */
  lemma GradeAnswerNoCandidates(domain: string, question: string, userAnswer: string)
    requires domain != "" && question != "" && userAnswer != ""
    ensures GradeAnswer(Some(domain), Some(question), Some(userAnswer),
                        Resolved(Some(ReplyBody(Some([]))))).response
         == FailureResponse(GradeFailed, MatchOnUndefined)
  {
  }

  // ---------------------------------------------------------------------------------------
  // An end-to-end scenario

  /** An upstream 401 during grading gives 500 with the upstream API's own error message as details. */
  lemma GradeAnswerUnauthorized()
    ensures GradeAnswer(Some("backend"), Some("Explain REST"), Some("REST is..."),
                        Rejected(Some("API key not valid. Please pass a valid API key."),
                                 "Request failed with status code 401")).response
         == Response(500, [("error", JString("Failed to grade answer")),
                           ("details", JString("API key not valid. Please pass a valid API key."))])
  {
  }
}
