/**
 * Answer composition (backend/src/services/chat.service.js): validation, retrieval of the top
 * five hits across the selected sources, the grounding prompt, token accounting and citations.
 * The language model and the formatting of scores enter as function parameters.
 */
module ChatService {
  import opened Wrappers
  import opened Text
  import opened Json
  import opened Qdrant
  import opened Embeddings

  /** The number of hits asked of the merge, which also bounds each per-source search. */
  const SearchLimit: nat := 5
  const PreviewLength: nat := 200
  const QueryErrorPrefix := "Error processing query: "
  const QueryRequired := "Query is required"
  const SourceRequired := "At least one content source must be selected"
  const NoResultsResponse := NothingFound + " " + TryAgain
  const NothingFound := "I couldn't find any relevant information in your selected documents to answer this question."
  const TryAgain := "Try rephrasing your question or selecting different documents."

  /** The text of the prompt template around its two slots, `{context}` and `{question}`. */
  const PromptHead := "\n" + Persona + "\n\nContext from documents:\n"
  const Persona := "You are a helpful AI assistant that answers questions based on the provided context."
  const PromptMiddle := "\n\nQuestion: "
  const PromptTail := "\n\nInstructions:\n" + Instruction1 + Instruction2 + Instruction3 + Instruction4 + Instruction5 + "\nAnswer:\n"
  const Instruction1 := "1. Answer the question based ONLY on the provided context\n"
  const Instruction2 := "2. If the context doesn't contain enough information, say " + CannotAnswer + "\n"
  const CannotAnswer := "\"I don't have enough information in the provided documents to answer this question\""
  const Instruction3 := "3. Be specific and cite relevant parts of the context\n"
  const Instruction4 := "4. Keep your answer clear and concise\n"
  const Instruction5 := "5. If you mention specific information, indicate which document or source it came from\n"

  datatype TokenUsage = TokenUsage(input: nat, output: nat, total: nat)

  datatype Citation = Citation(contentId: Option<Json>, chunkIndex: Option<Json>, title: Json,
                               sourceType: Json, content: string, relevanceScore: real)

  datatype QueryOutcome = QueryOutcome(response: string, citations: seq<Citation>, tokensUsed: TokenUsage)

  /** The language model: a prompt to the text of its answer, or the message it threw. */
  type Model = string -> Result<string, string>

  /** `score.toFixed(2)`; the decimal rendering of floating point is not modelled. */
  type ScoreFormat = real -> string

  /** `content.substring(0, 200) + (content.length > 200 ? "..." : "")` */
  function Preview(content: string): (p: string)
    ensures |content| <= PreviewLength ==> p == content
    ensures |content| > PreviewLength ==>
      |p| == PreviewLength + 3 && p[..PreviewLength] == content[..PreviewLength] && p[PreviewLength..] == "..."
  {
    if |content| > PreviewLength then content[..PreviewLength] + "..." else content
  }

  /** `Document i+1 (Score: s):` followed by the chunk text and a rule. */
  function ContextPart(index: nat, hit: Hit, fmt: ScoreFormat): string {
    "Document " + NatToString(index + 1) + " (Score: " + fmt(hit.score) + "):\n" + hit.content + "\n\n---"
  }

  function ContextParts(hits: seq<Hit>, fmt: ScoreFormat): (parts: seq<string>)
    ensures |parts| == |hits|
    ensures forall i :: 0 <= i < |hits| ==> parts[i] == ContextPart(i, hits[i], fmt)
  {
    seq(|hits|, i requires 0 <= i < |hits| => ContextPart(i, hits[i], fmt))
  }

  /** Entry `i` of the context is labelled with rank `i + 1` and holds the `i`-th hit's text. */
  lemma ContextNumbered(hits: seq<Hit>, fmt: ScoreFormat, i: nat)
    requires i < |hits|
    ensures StartsWith(ContextParts(hits, fmt)[i], "Document " + NatToString(i + 1) + " (Score: ")
    ensures Contains(ContextParts(hits, fmt)[i], hits[i].content)
  {
    var head := "Document " + NatToString(i + 1) + " (Score: " + fmt(hits[i].score) + "):\n";
    var part := ContextParts(hits, fmt)[i];
    assert part == head + hits[i].content + "\n\n---";
    assert MatchAt(part, hits[i].content, |head|);
  }

  /** Distinct ranks get distinct labels. */
  lemma ContextLabelsDistinct(i: nat, j: nat)
    requires i != j
    ensures NatToString(i + 1) != NatToString(j + 1)
  {
    if NatToString(i + 1) == NatToString(j + 1) {
      NatToStringInjective(i + 1, j + 1);
    }
  }

  function Context(hits: seq<Hit>, fmt: ScoreFormat): string {
    Join(ContextParts(hits, fmt), "\n")
  }

  /** A two-slot template filled with `context` and `question`. */
  function Fill(head: string, middle: string, tail: string, context: string, question: string): string {
    head + context + middle + question + tail
  }

  /** A filled template carries the whole context and the verbatim question, each in its slot. */
  lemma FillCarries(head: string, middle: string, tail: string, context: string, question: string)
    ensures MatchAt(Fill(head, middle, tail, context, question), context, |head|)
    ensures MatchAt(Fill(head, middle, tail, context, question), question, |head| + |context| + |middle|)
    ensures |Fill(head, middle, tail, context, question)| >= |head| + |question|
  {
    var rest := middle + question + tail;
    assert Fill(head, middle, tail, context, question) == head + context + rest;
    MatchInMiddle(head, context, rest);
    var front := head + context + middle;
    assert Fill(head, middle, tail, context, question) == front + question + tail;
    MatchInMiddle(front, question, tail);
  }

  /** `ragPromptTemplate.format({ context, question })` */
  function Prompt(context: string, question: string): string {
    Fill(PromptHead, PromptMiddle, PromptTail, context, question)
  }

  /** The citation for the hit at rank `index`. */
  function CitationOf(index: nat, hit: Hit): (c: Citation)
    ensures c.relevanceScore == hit.score && c.content == Preview(hit.content)
    ensures c.contentId.Some? <==> "contentId" in hit.metadata
    ensures c.chunkIndex.Some? <==> "chunkIndex" in hit.metadata
    ensures "contentId" in hit.metadata ==> c.contentId == Some(hit.metadata["contentId"])
    ensures "chunkIndex" in hit.metadata ==> c.chunkIndex == Some(hit.metadata["chunkIndex"])
    ensures "title" in hit.metadata && Truthy(hit.metadata["title"]) ==> c.title == hit.metadata["title"]
    ensures !("title" in hit.metadata && Truthy(hit.metadata["title"])) ==>
      c.title == JStr("Document " + NatToString(index + 1))
    ensures !("sourceType" in hit.metadata && Truthy(hit.metadata["sourceType"])) ==> c.sourceType == JStr("unknown")
    ensures "sourceType" in hit.metadata && Truthy(hit.metadata["sourceType"]) ==> c.sourceType == hit.metadata["sourceType"]
  {
    var m := hit.metadata;
    Citation(
      if "contentId" in m then Some(m["contentId"]) else None,
      if "chunkIndex" in m then Some(m["chunkIndex"]) else None,
      FieldOr(m, "title", JStr("Document " + NatToString(index + 1))),
      FieldOr(m, "sourceType", JStr("unknown")),
      Preview(hit.content),
      hit.score)
  }

  /** One citation per hit, in rank order. */
  function Citations(hits: seq<Hit>): (cs: seq<Citation>)
    ensures |cs| == |hits|
    ensures forall i :: 0 <= i < |hits| ==> cs[i] == CitationOf(i, hits[i])
  {
    seq(|hits|, i requires 0 <= i < |hits| => CitationOf(i, hits[i]))
  }

  /** `!query || query.trim().length === 0` */
  predicate MissingQuery(query: Option<string>) {
    query.None? || IsBlank(query.value)
  }

  /** `!selectedContentIds || selectedContentIds.length === 0` */
  predicate MissingSelection(selected: Option<seq<string>>) {
    selected.None? || selected.value == []
  }

  /** `processQuery(query, selectedContentIds)` */
  function ProcessQuery(query: Option<string>, selected: Option<seq<string>>, store: VectorStore,
                        model: Model, fmt: ScoreFormat): (r: Result<QueryOutcome, string>)
  {
    if MissingQuery(query) then Failure(QueryErrorPrefix + QueryRequired)
    else if MissingSelection(selected) then Failure(QueryErrorPrefix + SourceRequired)
    else
      var hits := MultiSourceSearch(selected.value, query.value, SearchLimit, store);
      if hits == [] then Success(QueryOutcome(NoResultsResponse, [], TokenUsage(0, 0, 0)))
      else
        var prompt := Prompt(Context(hits, fmt), query.value);
        var input := EstimateTokens(prompt);
        match model(prompt)
        case Failure(e) => Failure(QueryErrorPrefix + e)
        case Success(answer) =>
          var output := EstimateTokens(answer);
          Success(QueryOutcome(answer, Citations(hits), TokenUsage(input, output, input + output)))
  }

  /** `processQuery` refuses a request without a query or without a selection. */
  lemma ProcessQueryRefusals(query: Option<string>, selected: Option<seq<string>>, store: VectorStore,
                             model: Model, fmt: ScoreFormat)
    ensures MissingQuery(query) ==>
      ProcessQuery(query, selected, store, model, fmt) == Failure(QueryErrorPrefix + QueryRequired)
    ensures !MissingQuery(query) && MissingSelection(selected) ==>
      ProcessQuery(query, selected, store, model, fmt) == Failure(QueryErrorPrefix + SourceRequired)
  {
  }

  /**
   * Past the checks, `processQuery` fails exactly when there were hits and the model failed on
   * the prompt, and then with the model's message behind the error prefix.
   */
  lemma ProcessQueryFails(query: Option<string>, selected: Option<seq<string>>, store: VectorStore,
                          model: Model, fmt: ScoreFormat)
    requires !MissingQuery(query) && !MissingSelection(selected)
    ensures var r := ProcessQuery(query, selected, store, model, fmt);
      var hits := MultiSourceSearch(selected.value, query.value, SearchLimit, store);
      var answer := model(Prompt(Context(hits, fmt), query.value));
      && (r.Failure? <==> hits != [] && answer.Failure?)
      && (r.Failure? ==> r.error == QueryErrorPrefix + answer.error)
  {
  }

  /**
   * An answer cites the retrieved hits, at most `SearchLimit` of them, and counts the tokens of
   * the prompt and of the model's response; with no hits it is the fixed apology and costs nothing.
   */
  lemma ProcessQueryAnswers(query: Option<string>, selected: Option<seq<string>>, store: VectorStore,
                            model: Model, fmt: ScoreFormat)
    requires ProcessQuery(query, selected, store, model, fmt).Success?
    ensures !MissingQuery(query) && !MissingSelection(selected)
    ensures var r := ProcessQuery(query, selected, store, model, fmt).value;
      var hits := MultiSourceSearch(selected.value, query.value, SearchLimit, store);
      && r.citations == Citations(hits)
      && |r.citations| <= SearchLimit
      && r.tokensUsed.total == r.tokensUsed.input + r.tokensUsed.output
      && (hits == [] ==> r == QueryOutcome(NoResultsResponse, [], TokenUsage(0, 0, 0)))
      && (hits != [] ==>
            var prompt := Prompt(Context(hits, fmt), query.value);
            && model(prompt) == Success(r.response)
            && r.tokensUsed.input == EstimateTokens(prompt)
            && r.tokensUsed.output == EstimateTokens(r.response))
  {
  }

  /** When nothing is retrieved the model is never asked and the answer costs nothing. */
  lemma EmptyRetrievalIsFree(query: Option<string>, selected: Option<seq<string>>, store: VectorStore,
                             model1: Model, model2: Model, fmt: ScoreFormat)
    requires !MissingQuery(query) && !MissingSelection(selected)
    requires MultiSourceSearch(selected.value, query.value, SearchLimit, store) == []
    ensures ProcessQuery(query, selected, store, model1, fmt) == ProcessQuery(query, selected, store, model2, fmt)
    ensures ProcessQuery(query, selected, store, model1, fmt).Success?
    ensures ProcessQuery(query, selected, store, model1, fmt).value.tokensUsed.total == 0
  {
  }

  /** A model answer costs at least the prompt it was asked, so a non-empty retrieval is never free. */
  lemma AnsweredQueryCosts(query: Option<string>, selected: Option<seq<string>>, store: VectorStore,
                           model: Model, fmt: ScoreFormat)
    requires ProcessQuery(query, selected, store, model, fmt).Success?
    requires MultiSourceSearch(selected.value, query.value, SearchLimit, store) != []
    ensures ProcessQuery(query, selected, store, model, fmt).value.tokensUsed.total >= EstimateTokens(query.value)
    ensures ProcessQuery(query, selected, store, model, fmt).value.tokensUsed.total > 0
  {
    ProcessQueryAnswers(query, selected, store, model, fmt);
    var hits := MultiSourceSearch(selected.value, query.value, SearchLimit, store);
    var context := Context(hits, fmt);
    var q := query.value;
    FillCarries(PromptHead, PromptMiddle, PromptTail, context, q);
    EstimateTokensMonotone(q, Prompt(context, q));
  }
}
