/**
 * `generateAIReply`: one single-turn request to the Gemini model, then the text of the first part
 * of the first candidate, with a fallback for a missing or empty text and another for a thrown call.
 */
module AiService {
  import opened Common

  /** The response shape the extractor walks; every step may be absent. */
  datatype Part = Part(text: Option<string>)
  datatype Content = Content(parts: Option<seq<Part>>)
  datatype Candidate = Candidate(content: Option<Content>)
  datatype GenerateResponse = GenerateResponse(candidates: Option<seq<Candidate>>)

  /** How the awaited `generateContent` call ends: it throws, or resolves to a (possibly missing) response. */
  datatype CallOutcome = Threw | Returned(response: Option<GenerateResponse>)

  /** The request: a model name and the list of content items sent. */
  datatype RequestItem = RequestItem(kind: string, text: string)
  datatype Request = Request(model: string, contents: seq<RequestItem>)

  /** The Gemini service, seen from here as a total function from request to outcome. */
  type Gemini = Request -> CallOutcome

  const ModelName := "gemini-2.5-flash"
  const NoResponse := "No response"
  const Apology := "Sorry, I could not generate a reply."

  /** The request holds the one user message and nothing else: no earlier conversation is sent. */
  function BuildRequest(userMessage: string): (q: Request)
    ensures q.model == ModelName
    ensures |q.contents| == 1 && q.contents[0].kind == "text" && q.contents[0].text == userMessage
  {
    Request(ModelName, [RequestItem("text", userMessage)])
  }

  /** `response?.candidates?.[0]?.content?.parts?.[0]?.text`. */
  function FirstPartText(response: Option<GenerateResponse>): Option<string> {
    if response.None? then None
    else
      var cs := response.value.candidates;
      if cs.None? || |cs.value| == 0 then None
      else
        var content := cs.value[0].content;
        if content.None? then None
        else
          var parts := content.value.parts;
          if parts.None? || |parts.value| == 0 then None
          else parts.value[0].text
  }

  /** The extraction and both fallbacks; the reply is never empty. */
  function ReplyText(outcome: CallOutcome): (r: string)
    ensures r != ""
    ensures outcome.Threw? ==> r == Apology
  {
    match outcome
    case Threw => Apology
    case Returned(response) =>
      var t := FirstPartText(response);
      if t.Some? && t.value != "" then t.value else NoResponse
  }

  /** `generateAIReply(userMessage)`: it never throws and never yields an empty reply. */
  function GenerateReply(gemini: Gemini, userMessage: string): (r: string)
    ensures r != ""
  {
    ReplyText(gemini(BuildRequest(userMessage)))
  }

  /** A present, non-empty first text is the reply; each way the path can break gives "No response". */
  lemma ReplyCases(c: Candidate, rest: seq<Candidate>, p: Part, more: seq<Part>)
    ensures p.text.Some? && p.text.value != "" && c.content == Some(Content(Some([p] + more)))
            ==> ReplyText(Returned(Some(GenerateResponse(Some([c] + rest))))) == p.text.value
    ensures ReplyText(Returned(None)) == NoResponse
    ensures ReplyText(Returned(Some(GenerateResponse(None)))) == NoResponse
    ensures ReplyText(Returned(Some(GenerateResponse(Some([]))))) == NoResponse
    ensures ReplyText(Returned(Some(GenerateResponse(Some([Candidate(None)] + rest))))) == NoResponse
    ensures ReplyText(Returned(Some(GenerateResponse(Some([Candidate(Some(Content(None)))] + rest))))) == NoResponse
    ensures ReplyText(Returned(Some(GenerateResponse(Some([Candidate(Some(Content(Some([]))))] + rest))))) == NoResponse
    ensures ReplyText(Returned(Some(GenerateResponse(Some([Candidate(Some(Content(Some([Part(None)] + more))))] + rest))))) == NoResponse
    ensures ReplyText(Returned(Some(GenerateResponse(Some([Candidate(Some(Content(Some([Part(Some("")), p] + more))))] + rest))))) == NoResponse
  {
  }
}
