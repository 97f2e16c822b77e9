/** `POST /agent-chat` of backend/main.py: the empty-message guard and the
    server-side `suggested_programs`. The agent's reply text reaches the handler
    as a value computed elsewhere. */
module ChatEndpoint {
  import opened Wrappers
  import opened Text
  import opened Models
  import opened Catalog

  /** An `HTTPException` raised by a handler. */
  datatype HttpError = HttpError(status: int, detail: string)

  const EmptyMessage := HttpError(400, "Message cannot be empty")

  /** FastAPI's answer to an exception the handler does not catch. */
  const InternalError := HttpError(500, "Internal Server Error")

  /** The handler as written: after the guard it looks up `execute` on
      `open_source_mentor_agent`, a plain `async def` with no such attribute.
      The `AttributeError` escapes, so every non-blank message gets a 500 and
      the filtering below that call is never reached. */
  function AgentChatAsWritten(query: AgentQuery, primary: ReadOutcome, cache: ReadOutcome)
    : (r: Result<AgentResponse, HttpError>)
    ensures r.Failure?
    ensures r.error == if IsBlank(query.message) then EmptyMessage else InternalError
  {
    if Strip(query.message) == "" then Failure(EmptyMessage)
    else Failure(InternalError)
  }

  /** "How do I start?" is refused with a 500 by the handler as written, while
      the intended handler answers it with the filtered catalog. */
  lemma AsWrittenNeverAnswers(primary: ReadOutcome, cache: ReadOutcome, reply: string)
    ensures AgentChatAsWritten(AgentQuery("How do I start?"), primary, cache) == Failure(InternalError)
    ensures var r := AgentChat(AgentQuery("How do I start?"), primary, cache, reply);
            r.Success? && r.value.suggestedPrograms == LoadPrograms(primary, cache)
  {
    assert !IsSpace("How do I start?"[0]);
  }

  /** The handler as intended: a message that is empty after stripping is
      refused with a 400 before anything else happens; otherwise the answer
      pairs the agent's reply with the catalog filtered exactly as
      `GET /programs` filters it. */
  function AgentChat(query: AgentQuery, primary: ReadOutcome, cache: ReadOutcome, agentReply: string)
    : (r: Result<AgentResponse, HttpError>)
    ensures r.Failure? <==> IsBlank(query.message)
    ensures r.Failure? ==> r.error == EmptyMessage
    ensures r.Success? ==> r.value.reply == agentReply
    ensures r.Success? ==>
              r.value.suggestedPrograms == GetPrograms(primary, cache, query.difficultyFilter)
  {
    if Strip(query.message) == "" then Failure(EmptyMessage)
    else
      var programs := DifficultyFilter(LoadPrograms(primary, cache), query.difficultyFilter);
      Success(AgentResponse(agentReply, programs))
  }

  /** A blank message gets the same refusal whatever the catalog files hold and
      whatever the agent would have said: neither is looked at. */
  lemma BlankMessageRefusedFirst(
    query: AgentQuery,
    primary1: ReadOutcome, cache1: ReadOutcome, reply1: string,
    primary2: ReadOutcome, cache2: ReadOutcome, reply2: string)
    requires IsBlank(query.message)
    ensures AgentChat(query, primary1, cache1, reply1) == AgentChat(query, primary2, cache2, reply2)
            == Failure(EmptyMessage)
  {
  }

  /** The suggested programs do not depend on the reply text. */
  lemma SuggestionsIgnoreReply(query: AgentQuery, primary: ReadOutcome, cache: ReadOutcome, reply1: string, reply2: string)
    requires !IsBlank(query.message)
    ensures AgentChat(query, primary, cache, reply1).value.suggestedPrograms
            == AgentChat(query, primary, cache, reply2).value.suggestedPrograms
  {
  }

  /** With a non-empty filter every suggested program has the lower-cased
      filter as its stored difficulty, and every catalog record with that
      difficulty is suggested. */
  lemma SuggestionsMatchFilter(query: AgentQuery, primary: ReadOutcome, cache: ReadOutcome, reply: string)
    requires !IsBlank(query.message) && !IsFalsy(query.difficultyFilter)
    ensures var suggested := AgentChat(query, primary, cache, reply).value.suggestedPrograms;
            forall p :: p in suggested
              <==> p in LoadPrograms(primary, cache) && p.difficulty == Lower(query.difficultyFilter.value)
  {
  }
}
