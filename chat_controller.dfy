/**
 * The query endpoint: validate the request, check that every selected source is a completed
 * record of this user in this notebook, pre-check the balance against a rough estimate, answer,
 * and then charge what the answer actually cost.
 */
module ChatController {
  import opened Wrappers
  import opened Text
  import opened Json
  import opened ContentModel
  import opened BackendState
  import opened Embeddings
  import opened Collections
  import ChatService
  import Qdrant

  const NotebookIdRequired := "Notebook ID is required"
  const NotebookNotFound := "Notebook not found"
  const InvalidSelection := "Some selected contents are invalid or not processed"
  const InsufficientCredits := "Insufficient credits for this query"
  const QueryError := "Error processing query"

  /** The estimate adds this many tokens, for the retrieved context and the answer, to twice the query. */
  const EstimateBuffer: nat := 1000

  datatype ChatReply =
    | Refused(status: nat, message: string)
      /** 400 "Insufficient credits for this query", with the estimate and the balance. */
    | Insufficient(needed: real, available: real)
      /** 500 "Error processing query", with the message `processQuery` threw. */
    | QueryFailed(error: string)
    | Answered(response: string, citations: seq<ChatService.Citation>, tokensUsed: ChatService.TokenUsage,
               creditsDeducted: real, creditsRemaining: real)

  /** The status code and the `message` of the response body; only an answer carries no message. */
  function ReplyStatus(reply: ChatReply): (r: (nat, Option<string>))
    ensures r.1.None? <==> reply.Answered?
    ensures reply.Answered? ==> r.0 == 200
    ensures reply.Refused? ==> r == (reply.status, Some(reply.message))
  {
    match reply
    case Refused(status, message) => (status, Some(message))
    case Insufficient(_, _) => (400, Some(InsufficientCredits))
    case QueryFailed(_) => (500, Some(QueryError))
    case Answered(_, _, _, _, _) => (200, None)
  }

  /** A record the `Content.find` filter accepts: this user's, in this notebook, and completed. */
  predicate Queryable(db: Db, notebookId: string, id: string) {
    id in db.contents && db.contents[id].userId == db.userId && db.contents[id].notebookId == notebookId
    && db.contents[id].status == Completed
  }

  /** `Content.find({ _id: { $in: selected }, userId, notebookId, status: "completed" })`, as a set of ids. */
  function Matching(db: Db, notebookId: string, selected: seq<string>): (found: set<string>)
    ensures forall id :: id in found <==> id in selected && Queryable(db, notebookId, id)
  {
    set id | id in selected && Queryable(db, notebookId, id)
  }

  /**
   * The selection check `contents.length !== selectedContentIds.length` passes exactly when every
   * selected id names a queryable record and no id is selected twice.
   */
  lemma SelectionCheck(db: Db, notebookId: string, selected: seq<string>)
    ensures |Matching(db, notebookId, selected)| == |selected| <==>
      Distinct(selected) && forall id :: id in selected ==> Queryable(db, notebookId, id)
  {
    var found := Matching(db, notebookId, selected);
    var elems := Elems(selected);
    ElemsCard(selected);
    SubsetCard(found, elems);
    if |found| == |selected| {
      assert found == elems;
    }
    if forall id :: id in selected ==> Queryable(db, notebookId, id) {
      assert found == elems;
    }
  }

  /** `calculateCredits(query.length * 2 + 1000)` */
  function QueryEstimate(query: string): (credits: real)
    ensures credits * 1000.0 == (2 * |query| + EstimateBuffer) as real
    ensures credits >= 1.0
  {
    CalculateCredits(|query| * 2 + EstimateBuffer)
  }

  /** Longer queries are estimated higher. */
  lemma QueryEstimateMonotone(a: string, b: string)
    requires |a| <= |b|
    ensures QueryEstimate(a) <= QueryEstimate(b)
  {
  }

  /**
   * `queryDocuments(req, res)`. `result` is what `processQuery(query, selectedContentIds)`
   * returns or throws, should it be called. What each reply means is stated by
   * `QueryDocumentsReplies`.
   */
  function QueryDocumentsOutcome(db: Db, notebookId: Option<string>, query: Option<string>,
                                 selected: Option<seq<string>>, result: Result<ChatService.QueryOutcome, string>)
    : (out: (Db, ChatReply))
    ensures out.0.userId == db.userId && out.0.notebooks == db.notebooks
    ensures out.0.dataSourcesCount == db.dataSourcesCount && out.0.contents == db.contents
  {
    if !Given(notebookId) then (db, Refused(400, NotebookIdRequired))
    else if ChatService.MissingQuery(query) then (db, Refused(400, ChatService.QueryRequired))
    else if ChatService.MissingSelection(selected) then (db, Refused(400, ChatService.SourceRequired))
    else if !OwnsNotebook(db, notebookId.value) then (db, Refused(404, NotebookNotFound))
    else if |Matching(db, notebookId.value, selected.value)| != |selected.value| then (db, Refused(400, InvalidSelection))
    else
      var needed := QueryEstimate(query.value);
      if db.credits < needed then (db, Insufficient(needed, db.credits))
      else
        match result
        case Failure(e) => (db, QueryFailed(e))
        case Success(answer) =>
          var cost := CalculateCredits(answer.tokensUsed.total);
          var after := db.credits - cost;
          (db.(credits := after), Answered(answer.response, answer.citations, answer.tokensUsed, cost, after))
  }

  /** The replies of `queryDocuments`, check by check, and the charge an answer makes. */
  lemma QueryDocumentsReplies(db: Db, notebookId: Option<string>, query: Option<string>,
                              selected: Option<seq<string>>, result: Result<ChatService.QueryOutcome, string>)
    ensures var out := QueryDocumentsOutcome(db, notebookId, query, selected, result);
      var asked := Given(notebookId) && !ChatService.MissingQuery(query) && !ChatService.MissingSelection(selected);
      var admitted := asked && OwnsNotebook(db, notebookId.value)
                      && |Matching(db, notebookId.value, selected.value)| == |selected.value|;
      && (!Given(notebookId) ==> out == (db, Refused(400, NotebookIdRequired)))
      && (Given(notebookId) && ChatService.MissingQuery(query) ==>
            out == (db, Refused(400, ChatService.QueryRequired)))
      && (Given(notebookId) && !ChatService.MissingQuery(query) && ChatService.MissingSelection(selected) ==>
            out == (db, Refused(400, ChatService.SourceRequired)))
      && (asked && !OwnsNotebook(db, notebookId.value) ==> out == (db, Refused(404, NotebookNotFound)))
      && (asked && OwnsNotebook(db, notebookId.value) && !admitted ==> out == (db, Refused(400, InvalidSelection)))
      && (out.1.Insufficient? <==> admitted && db.credits < QueryEstimate(query.value))
      && (out.1.Insufficient? ==> out == (db, Insufficient(QueryEstimate(query.value), db.credits)))
      && (out.1.QueryFailed? <==> admitted && db.credits >= QueryEstimate(query.value) && result.Failure?)
      && (out.1.QueryFailed? ==> out == (db, QueryFailed(result.error)))
      && (out.1.Answered? <==> admitted && db.credits >= QueryEstimate(query.value) && result.Success?)
      && (out.1.Answered? ==>
            var cost := CalculateCredits(result.value.tokensUsed.total);
            && out.0 == db.(credits := db.credits - cost)
            && out.1 == Answered(result.value.response, result.value.citations, result.value.tokensUsed,
                                 cost, db.credits - cost))
      && (Consistent(db) ==> Consistent(out.0))
  {
  }

  /**
   * The pre-check bounds the estimate, not the charge: an answer that costs more than the
   * balance drives the balance below zero.
   */
  lemma ChargeIsNotClamped(db: Db, notebookId: Option<string>, query: Option<string>,
                           selected: Option<seq<string>>, result: Result<ChatService.QueryOutcome, string>)
    requires QueryDocumentsOutcome(db, notebookId, query, selected, result).1.Answered?
    requires result.Success? && CalculateCredits(result.value.tokensUsed.total) > db.credits
    ensures QueryDocumentsOutcome(db, notebookId, query, selected, result).0.credits < 0.0
  {
  }

  /** A query that retrieves nothing is answered free of charge, whatever the model. */
  lemma EmptyRetrievalCharged(db: Db, notebookId: Option<string>, query: Option<string>, selected: Option<seq<string>>,
                              store: Qdrant.VectorStore, model: ChatService.Model, fmt: ChatService.ScoreFormat)
    requires !ChatService.MissingQuery(query) && !ChatService.MissingSelection(selected)
    requires Qdrant.MultiSourceSearch(selected.value, query.value, ChatService.SearchLimit, store) == []
    requires QueryDocumentsOutcome(db, notebookId, query, selected,
                                   ChatService.ProcessQuery(query, selected, store, model, fmt)).1.Answered?
    ensures
      var out := QueryDocumentsOutcome(db, notebookId, query, selected,
                                       ChatService.ProcessQuery(query, selected, store, model, fmt));
      out.0 == db && out.1.creditsDeducted == 0.0
  {
    ChatService.EmptyRetrievalIsFree(query, selected, store, model, model, fmt);
    FreeAnswerCharged(db, notebookId, query, selected, ChatService.ProcessQuery(query, selected, store, model, fmt));
  }

  /** An answer that used no tokens is charged nothing and changes nothing. */
  lemma FreeAnswerCharged(db: Db, notebookId: Option<string>, query: Option<string>,
                          selected: Option<seq<string>>, result: Result<ChatService.QueryOutcome, string>)
    requires QueryDocumentsOutcome(db, notebookId, query, selected, result).1.Answered?
    requires result.Success? && result.value.tokensUsed.total == 0
    ensures QueryDocumentsOutcome(db, notebookId, query, selected, result).0 == db
    ensures QueryDocumentsOutcome(db, notebookId, query, selected, result).1.creditsDeducted == 0.0
  {
    QueryDocumentsReplies(db, notebookId, query, selected, result);
  }

  /**
   * The query service as the controller calls it: `ChatService.ProcessQuery` with the vector
   * store, the model and the score format fixed, as `Answerer` below builds it.
   */
  type QueryService = (Option<string>, Option<seq<string>>) -> Result<ChatService.QueryOutcome, string>

  function Answerer(store: Qdrant.VectorStore, model: ChatService.Model, fmt: ChatService.ScoreFormat)
    : QueryService
  {
    (query, selected) => ChatService.ProcessQuery(query, selected, store, model, fmt)
  }

  /** `queryDocuments(req, res)`, step by step; `processQuery` is the service it calls. */
  method QueryDocuments(db: Backend, notebookId: Option<string>, query: Option<string>, selected: Option<seq<string>>,
                        processQuery: QueryService)
    returns (reply: ChatReply)
    modifies db
    ensures (db.State(), reply) == QueryDocumentsOutcome(old(db.State()), notebookId, query, selected,
                                                         processQuery(query, selected))
  {
    if !Given(notebookId) {
      return Refused(400, NotebookIdRequired);
    }
    if ChatService.MissingQuery(query) {
      return Refused(400, ChatService.QueryRequired);
    }
    if ChatService.MissingSelection(selected) {
      return Refused(400, ChatService.SourceRequired);
    }
    if !OwnsNotebook(db.State(), notebookId.value) {
      return Refused(404, NotebookNotFound);
    }
    var contents := Matching(db.State(), notebookId.value, selected.value);
    if |contents| != |selected.value| {
      return Refused(400, InvalidSelection);
    }
    var estimatedTokens := |query.value| * 2 + EstimateBuffer;
    var creditsNeeded := CalculateCredits(estimatedTokens);
    if db.credits < creditsNeeded {
      return Insufficient(creditsNeeded, db.credits);
    }
    var result := processQuery(query, selected);
    if result.Failure? {
      return QueryFailed(result.error);
    }
    var actualCreditsUsed := CalculateCredits(result.value.tokensUsed.total);
    db.credits := db.credits - actualCreditsUsed;
    return Answered(result.value.response, result.value.citations, result.value.tokensUsed, actualCreditsUsed,
                    db.credits);
  }
}
