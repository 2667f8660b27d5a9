/**
 * The library helper `getChatbotResponse`: it wraps the prompt into a
 * request body, validates the shape of the response, returns the first
 * candidate's content, and falls back to a keyword-chosen canned reply when
 * that content is missing or falsy. Every failure — a rejected fetch, a
 * non-OK status, a body that is not JSON, a body of the wrong shape, a null
 * first candidate — is caught and answered with one fixed error string.
 */
module Chatbot {
  import opened JsValue
  import opened Options
  import opened Transport
  import opened Text

  const ProcessingError := "There was an error processing your request. Please try again later."
  const HelpReply := "It seems like you need help. How can I assist you further?"
  const ScheduleReply := "I'm sorry, I'm unable to access your schedule right now. Can you try again later?"
  const ClarifyReply := "I'm here to assist you with your needs. Could you please clarify your request?"

  /** The request body `{ contents: [ { parts: [ prompt ] } ] }`. */
  function RequestBody(prompt: string): (body: Json)
    ensures PromptOf(body) == Some(prompt)
  {
    JObj(map["contents" := JArr([JObj(map["parts" := JArr([JStr(prompt)])])])])
  }

  /** Reads the prompt back from a request body: the single part of its single content entry. */
  function PromptOf(body: Json): Option<string> {
    match Get(body, "contents")
    case Found(JArr(cs)) =>
      if |cs| != 1 then None
      else (
        match Get(cs[0], "parts")
        case Found(JArr(ps)) => if |ps| == 1 && ps[0].JStr? then Some(ps[0].s) else None
        case _ => None
      )
    case _ => None
  }

  /** The request body carries the prompt unchanged, so distinct prompts give distinct bodies. */
  lemma RequestBodyRoundTrip(prompt: string, other: string)
    ensures PromptOf(RequestBody(prompt)) == Some(prompt)
    ensures RequestBody(prompt) == RequestBody(other) ==> prompt == other
  {
    assert PromptOf(RequestBody(other)) == Some(other);
  }

  /**
   * `generateFallbackResponse`: on the lower-cased prompt, "help" wins over
   * "schedule", which wins over the generic clarification; each reply is
   * chosen exactly when its keyword test is the first to succeed.
   */
  function Fallback(prompt: string): (r: string)
    ensures r == HelpReply <==> Includes(Lower(prompt), "help")
    ensures r == ScheduleReply <==> !Includes(Lower(prompt), "help") && Includes(Lower(prompt), "schedule")
    ensures r == ClarifyReply <==> !Includes(Lower(prompt), "help") && !Includes(Lower(prompt), "schedule")
  {
    if Includes(Lower(prompt), "help") then HelpReply
    else if Includes(Lower(prompt), "schedule") then ScheduleReply
    else ClarifyReply
  }

  /** The fallback ignores case: lower-casing the prompt first changes nothing. */
  lemma FallbackIgnoresCase(prompt: string)
    ensures Fallback(Lower(prompt)) == Fallback(prompt)
  {
    LowerIdempotent(prompt);
  }

  /** "help" in any capitalisation selects the help reply, whatever else the prompt contains. */
  lemma FallbackHelpAnyCase(prompt: string, word: string)
    requires Lower(word) == "help"
    requires Includes(prompt, word)
    ensures Fallback(prompt) == HelpReply
  {
    IncludesLower(prompt, word);
  }

  /** "schedule" in any capitalisation selects the schedule reply unless "help" occurs too. */
  lemma FallbackScheduleAnyCase(prompt: string, word: string)
    requires Lower(word) == "schedule"
    requires Includes(prompt, word)
    requires !Includes(Lower(prompt), "help")
    ensures Fallback(prompt) == ScheduleReply
  {
    IncludesLower(prompt, word);
  }

  /**
   * The first candidate of a response that passes validation: the status is
   * OK, the body parsed to an object whose `candidates` is a non-empty array,
   * and its first entry is not null (reading `.content` of null throws).
   */
  function FirstCandidate(o: FetchOutcome): Option<Json> {
    match o
    case Received(Response(true, _, Some(JObj(fields)))) =>
      if "candidates" in fields && fields["candidates"].JArr?
        && |fields["candidates"].items| > 0 && fields["candidates"].items[0] != JNull
      then Some(fields["candidates"].items[0])
      else None
    case _ => None
  }

  /**
   * `getChatbotResponse(prompt)` once its fetch has settled with `outcome`.
   * An invalid outcome yields the error string; a valid one yields the first
   * candidate's truthy `content` verbatim, and otherwise the keyword fallback.
   */
  function ChatbotResponse(prompt: string, outcome: FetchOutcome): (r: Json)
    ensures FirstCandidate(outcome).None? ==> r == JStr(ProcessingError)
    ensures FirstCandidate(outcome).Some? && TruthyField(FirstCandidate(outcome).value, "content")
      ==> r == FirstCandidate(outcome).value.fields["content"]
    ensures FirstCandidate(outcome).Some? && !TruthyField(FirstCandidate(outcome).value, "content")
      ==> r == JStr(Fallback(prompt))
  {
    match outcome
    case NetworkError => JStr(ProcessingError)
    case Received(response) =>
      if !response.ok then JStr(ProcessingError)
      else (
        match response.body
        case None => JStr(ProcessingError)
        case Some(data) =>
          if !Truthy(data) || !IsNonEmptyArray(Get(data, "candidates")) then JStr(ProcessingError)
          else
            var content := Get(Get(data, "candidates").value.items[0], "content");
            if content.TypeError? then JStr(ProcessingError)
            else if LookupTruthy(content) then content.value
            else JStr(Fallback(prompt))
      )
  }

  /** A structurally invalid or failed response never reaches the keyword fallback. */
  lemma InvalidNeverFallback(prompt: string, outcome: FetchOutcome)
    requires FirstCandidate(outcome).None?
    ensures ChatbotResponse(prompt, outcome) == JStr(ProcessingError)
    ensures ChatbotResponse(prompt, outcome) != JStr(Fallback(prompt))
  {
  }

  /**
   * The error string comes back exactly when the response is unusable, or
   * when the server itself answered with that very text.
   */
  lemma ErrorIff(prompt: string, outcome: FetchOutcome)
    ensures ChatbotResponse(prompt, outcome) == JStr(ProcessingError) <==>
      (|| FirstCandidate(outcome).None?
       || (TruthyField(FirstCandidate(outcome).value, "content")
           && FirstCandidate(outcome).value.fields["content"] == JStr(ProcessingError)))
  {
    assert ProcessingError != HelpReply && ProcessingError != ScheduleReply && ProcessingError != ClarifyReply;
  }

  /** Only the first candidate is consulted: outcomes that agree on it get the same answer. */
  lemma OnlyFirstCandidateMatters(prompt: string, a: FetchOutcome, b: FetchOutcome)
    requires FirstCandidate(a) == FirstCandidate(b)
    ensures ChatbotResponse(prompt, a) == ChatbotResponse(prompt, b)
  {
  }

  /**
   * The helper never throws and returns a string, except when it hands back
   * the first candidate's truthy content verbatim, whatever JSON value that is.
   */
  lemma ResponseIsStringOrContent(prompt: string, outcome: FetchOutcome)
    ensures var r := ChatbotResponse(prompt, outcome);
      || r == JStr(ProcessingError)
      || r in {JStr(HelpReply), JStr(ScheduleReply), JStr(ClarifyReply)}
      || (FirstCandidate(outcome).Some? && TruthyField(FirstCandidate(outcome).value, "content")
          && r == FirstCandidate(outcome).value.fields["content"])
  {
  }
}
