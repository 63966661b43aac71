/**
 * The upstream generative-language API as the two route handlers of server.js see it: the
 * request body they send (lines 69-75 and 105-111), the reply body they read through the
 * optional chain `response.data?.candidates?.[0]?.content?.parts?.[0]?.text` (lines 78 and
 * 114), and the outcome of the awaited POST, which either resolves with a reply body or
 * rejects with an error.
 */
module Upstream {
  import opened Wrappers

  // ---------------------------------------------------------------------------------------
  // The request body `{ contents: [{ parts: [{ text: prompt }] }] }`

  datatype RequestPart = RequestPart(text: string)
  datatype RequestContent = RequestContent(parts: seq<RequestPart>)
  datatype RequestBody = RequestBody(contents: seq<RequestContent>)

  /** The request body both handlers send for a prompt: one content block with one text part. */
  function RequestFor(prompt: string): (body: RequestBody)
    ensures |body.contents| == 1 && |body.contents[0].parts| == 1
    ensures body.contents[0].parts[0].text == prompt
  {
    RequestBody([RequestContent([RequestPart(prompt)])])
  }

  /** The prompt a request body carries: the text of its first part of its first block. */
  function PromptOf(body: RequestBody): Option<string> {
    if |body.contents| == 0 || |body.contents[0].parts| == 0 then None
    else Some(body.contents[0].parts[0].text)
  }

  /** The prompt is recovered from the request body built for it, so distinct prompts give distinct bodies. */
  lemma PromptOfRequestFor(prompt: string)
    ensures PromptOf(RequestFor(prompt)) == Some(prompt)
  {
  }

  // ---------------------------------------------------------------------------------------
  // The reply body; every level of the chain may be missing (`undefined`)

  datatype Part = Part(text: Option<string>)
  datatype Content = Content(parts: Option<seq<Part>>)
  datatype Candidate = Candidate(content: Option<Content>)
  datatype ReplyBody = ReplyBody(candidates: Option<seq<Candidate>>)

  /**
   * The outcome of `await axios.post(...)`: either it resolves and `response.data` is the
   * (possibly missing) reply body, or it rejects with an error whose
   * `error.response?.data?.error?.message` is `upstreamMessage` and whose `error.message`
   * is `message`.
   */
  datatype Outcome =
    | Resolved(data: Option<ReplyBody>)
    | Rejected(upstreamMessage: Option<string>, message: string)

  /** `data?.candidates?.[0]?.content?.parts?.[0]?.text`: `None` as soon as a level is missing. */
  function ReplyText(data: Option<ReplyBody>): (r: Option<string>)
    ensures r.Some? ==> data.Some? && data.value.candidates.Some?
                        && |data.value.candidates.value| > 0
                        && data.value.candidates.value[0].content.Some?
                        && data.value.candidates.value[0].content.value.parts.Some?
                        && |data.value.candidates.value[0].content.value.parts.value| > 0
                        && data.value.candidates.value[0].content.value.parts.value[0].text == r
  {
    match data
    case None => None
    case Some(body) =>
      match body.candidates
      case None => None
      case Some(candidates) =>
        if |candidates| == 0 then None
        else
          match candidates[0].content
          case None => None
          case Some(content) =>
            match content.parts
            case None => None
            case Some(parts) => if |parts| == 0 then None else parts[0].text
  }

  /** The reply body holding one candidate whose content has one text part. */
  function SingleTextReply(text: string): (body: ReplyBody)
    ensures body.candidates.Some? && |body.candidates.value| == 1
  {
    ReplyBody(Some([Candidate(Some(Content(Some([Part(Some(text))]))))]))
  }

  /** Reading the chain back out of a single-text reply gives its text. */
  lemma ReplyTextOfSingleTextReply(text: string)
    ensures ReplyText(Some(SingleTextReply(text))) == Some(text)
  {
  }

  /**
   * Only the first candidate and, in it, the first part are read: further candidates and
   * parts never change the reply text.
   */
  lemma ReplyTextReadsFirstOnly(first: Part, parts: seq<Part>, candidates: seq<Candidate>)
    ensures ReplyText(Some(ReplyBody(Some([Candidate(Some(Content(Some([first] + parts))))] + candidates))))
         == first.text
  {
  }

  /** A missing body, no candidates, or no parts in the first candidate all give no text. */
  lemma ReplyTextMissingLevels(candidates: seq<Candidate>)
    ensures ReplyText(None) == None
    ensures ReplyText(Some(ReplyBody(None))) == None
    ensures ReplyText(Some(ReplyBody(Some([])))) == None
    ensures ReplyText(Some(ReplyBody(Some([Candidate(None)] + candidates)))) == None
    ensures ReplyText(Some(ReplyBody(Some([Candidate(Some(Content(None)))] + candidates)))) == None
    ensures ReplyText(Some(ReplyBody(Some([Candidate(Some(Content(Some([]))))] + candidates)))) == None
  {
  }

  /**
   * `error.response?.data?.error?.message || error.message`: the upstream API's own error
   * message when there is a non-empty one, the exception's message otherwise.
   */
  function Details(upstreamMessage: Option<string>, message: string): (details: string)
    ensures details == message || Some(details) == upstreamMessage
    ensures details == message <== upstreamMessage.None? || upstreamMessage == Some("")
    ensures upstreamMessage.Some? && upstreamMessage.value != "" ==> Some(details) == upstreamMessage
  {
    match upstreamMessage
    case Some(m) => if m != "" then m else message
    case None => message
  }
}
