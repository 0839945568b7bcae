/**
 * The conversation as the browser keeps it: the messages shown, the sources selected for the
 * next question, and the question in flight. The query request's outcome and the clock are
 * parameters.
 */
module ChatClient {
  import opened Wrappers
  import opened Text
  import opened Json
  import opened Collections
  import opened Client
  import ChatService
  import AuthClient

  datatype Role = UserRole | AssistantRole

  /** What an assistant message carries besides its text. */
  datatype AnswerDetails = AnswerDetails(citations: seq<ChatService.Citation>, tokensUsed: ChatService.TokenUsage,
                                         creditsDeducted: real)

  /** A chat message; the id is the clock reading that made it, the timestamp is not modelled. */
  datatype Message = Message(id: string, role: Role, content: string, details: Option<AnswerDetails>)

  /** The successful body of the query endpoint. */
  datatype Answer = Answer(response: string, citations: seq<ChatService.Citation>, tokensUsed: ChatService.TokenUsage,
                           creditsDeducted: real, creditsRemaining: real)

  /** What `sendQuery` returns: `{ success, response }` or `{ success: false, error }`. */
  datatype Sent = Sent(success: bool, response: Option<string>, error: Option<string>)

  /** The user's question as it is added to the conversation. */
  function UserMessage(now: nat, query: string): (m: Message)
    ensures m.role == UserRole && m.content == query && m.details.None?
  {
    Message(NatToString(now), UserRole, query, None)
  }

  /** The answer as it is added to the conversation, one clock tick after the question. */
  function AssistantMessage(now: nat, answer: Answer): (m: Message)
    ensures m.role == AssistantRole && m.content == answer.response
    ensures m.details == Some(AnswerDetails(answer.citations, answer.tokensUsed, answer.creditsDeducted))
  {
    Message(NatToString(now + 1), AssistantRole, answer.response,
            Some(AnswerDetails(answer.citations, answer.tokensUsed, answer.creditsDeducted)))
  }

  /** What `sendQuery` appends to the conversation once sources are selected. */
  function Exchange(now: nat, query: string, fetched: Fetched<Envelope<Answer>>): (added: seq<Message>)
    ensures 1 <= |added| <= 2 && added[0] == UserMessage(now, query)
    ensures |added| == 2 <==> fetched.Responded? && fetched.body.Ok?
    ensures |added| == 2 ==> added[1] == AssistantMessage(now, fetched.body.payload)
  {
    if fetched.Responded? && fetched.body.Ok? then [UserMessage(now, query), AssistantMessage(now, fetched.body.payload)]
    else [UserMessage(now, query)]
  }

  /** The question and its answer never share an id. */
  lemma ExchangeIdsDistinct(now: nat, query: string, fetched: Fetched<Envelope<Answer>>)
    ensures var added := Exchange(now, query, fetched);
      |added| == 2 ==> added[0].id != added[1].id
  {
    if NatToString(now) == NatToString(now + 1) {
      NatToStringInjective(now, now + 1);
    }
  }

  class ChatStore {
    var messages: seq<Message>
    var selectedSources: seq<string>
    var isLoading: bool
    var currentQuery: string

    constructor ()
      ensures messages == [] && selectedSources == [] && !isLoading && currentQuery == []
    {
      messages := [];
      selectedSources := [];
      isLoading := false;
      currentQuery := [];
    }

    method SetSelectedSources(sources: seq<string>)
      modifies this
      ensures selectedSources == sources
      ensures messages == old(messages) && isLoading == old(isLoading) && currentQuery == old(currentQuery)
    {
      selectedSources := sources;
    }

    /** `addSelectedSource(sourceId)`: appended only when not selected yet. */
    method AddSelectedSource(sourceId: string)
      modifies this
      ensures selectedSources == if sourceId in old(selectedSources) then old(selectedSources)
                                 else old(selectedSources) + [sourceId]
      ensures sourceId in selectedSources
      ensures Distinct(old(selectedSources)) ==> Distinct(selectedSources)
      ensures messages == old(messages) && isLoading == old(isLoading) && currentQuery == old(currentQuery)
    {
      if sourceId !in selectedSources {
        selectedSources := selectedSources + [sourceId];
      }
    }

    /** `removeSelectedSource(sourceId)`: every occurrence goes, the others keep their order. */
    method RemoveSelectedSource(sourceId: string)
      modifies this
      ensures selectedSources == Without(old(selectedSources), sourceId)
      ensures sourceId !in selectedSources
      ensures Distinct(old(selectedSources)) ==> Distinct(selectedSources)
      ensures messages == old(messages) && isLoading == old(isLoading) && currentQuery == old(currentQuery)
    {
      if Distinct(selectedSources) {
        WithoutDistinct(selectedSources, sourceId);
      }
      selectedSources := Without(selectedSources, sourceId);
    }

    /** `addMessage(message)`: at the end, earlier messages unchanged. */
    method AddMessage(message: Message)
      modifies this
      ensures messages == old(messages) + [message]
      ensures selectedSources == old(selectedSources) && isLoading == old(isLoading) && currentQuery == old(currentQuery)
    {
      messages := messages + [message];
    }

    /**
     * `sendQuery(notebookId, query)`. `now` is `Date.now()`; `fetched` is what the query
     * request returned; `auth` is the sign-in store the balance is written back to, if any.
     */
    method SendQuery(query: string, now: nat, fetched: Fetched<Envelope<Answer>>, auth: AuthClient.AuthStore?)
      returns (r: Sent)
      modifies this, auth
      ensures old(selectedSources) == [] ==>
        && r == Sent(false, None, None)
        && messages == old(messages) && isLoading == old(isLoading) && currentQuery == old(currentQuery)
      ensures old(selectedSources) != [] ==>
        && messages == old(messages) + Exchange(now, query, fetched)
        && !isLoading
        && currentQuery == (if r.success then [] else query)
      ensures r.success <==> old(selectedSources) != [] && fetched.Responded? && fetched.body.Ok?
      ensures r.success ==> r.response == Some(fetched.body.payload.response) && r.error.None?
      ensures old(selectedSources) != [] && fetched.Responded? && fetched.body.Rejected? ==>
        r == Sent(false, None, fetched.body.message)
      ensures old(selectedSources) != [] && fetched.Threw? ==> r == Sent(false, None, Some(NetworkError))
      ensures selectedSources == old(selectedSources)
      ensures auth != null ==>
        && auth.isLoading == old(auth.isLoading)
        && auth.user == (if r.success && old(auth.user).Some?
                         then Some(old(auth.user).value["credits" := JNum(fetched.body.payload.creditsRemaining)])
                         else old(auth.user))
        && (old(auth.Valid()) ==> auth.Valid())
    {
      if selectedSources == [] {
        return Sent(false, None, None);
      }
      AddMessage(UserMessage(now, query));
      currentQuery := query;
      isLoading := true;
      match fetched
      case Threw =>
        isLoading := false;
        return Sent(false, None, Some(NetworkError));
      case Responded(Rejected(message)) =>
        isLoading := false;
        return Sent(false, None, message);
      case Responded(Ok(answer)) =>
        AddMessage(AssistantMessage(now, answer));
        if auth != null && auth.user.Some? {
          auth.SetUser(Some(auth.user.value["credits" := JNum(answer.creditsRemaining)]));
        }
        currentQuery := [];
        isLoading := false;
        return Sent(true, Some(answer.response), None);
    }

    /** `clearChat()`: the conversation goes, the selection stays. */
    method ClearChat()
      modifies this
      ensures messages == []
      ensures selectedSources == old(selectedSources) && isLoading == old(isLoading) && currentQuery == old(currentQuery)
    {
      messages := [];
    }

    /** `clearChatData()`: back to the initial state. */
    method ClearChatData()
      modifies this
      ensures messages == [] && selectedSources == [] && !isLoading && currentQuery == []
    {
      messages := [];
      selectedSources := [];
      isLoading := false;
      currentQuery := [];
    }
  }
}
