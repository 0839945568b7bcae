/**
 * Token and credit arithmetic, and the chunk-then-store step of ingestion
 * (backend/src/services/embeddings.service.js).
 */
module Embeddings {
  import opened Wrappers
  import opened Text
  import opened Json
  import opened DocumentProcessor
  import opened Qdrant

  /** Characters per estimated token (the default when the environment sets nothing). */
  const CharsPerToken: nat := 4
  /** Tokens per credit (the default when the environment sets nothing). */
  const TokensPerCredit: nat := 1000

  /** `estimateTokens(text)`: the length divided by 4, rounded up. */
  function EstimateTokens(text: string): (tokens: nat)
    ensures tokens * CharsPerToken >= |text|
    ensures tokens * CharsPerToken < |text| + CharsPerToken
    ensures tokens == 0 <==> text == []
  {
    (|text| + CharsPerToken - 1) / CharsPerToken
  }

  /** A longer text never has a smaller estimate. */
  lemma EstimateTokensMonotone(a: string, b: string)
    requires |a| <= |b|
    ensures EstimateTokens(a) <= EstimateTokens(b)
  {
  }

  /** Estimating two texts separately never undercounts their concatenation. */
  lemma EstimateTokensSubadditive(a: string, b: string)
    ensures EstimateTokens(a + b) <= EstimateTokens(a) + EstimateTokens(b)
  {
  }

  /** `calculateCredits(tokens)`: exact division, never rounded. */
  function CalculateCredits(tokens: int): (credits: real)
    ensures credits * TokensPerCredit as real == tokens as real
    ensures tokens >= 0 ==> credits >= 0.0
  {
    tokens as real / TokensPerCredit as real
  }

  /** Credits of a sum of token counts are the sum of their credits. */
  lemma CreditsAdditive(a: int, b: int)
    ensures CalculateCredits(a + b) == CalculateCredits(a) + CalculateCredits(b)
  {
  }

  /** More tokens never cost fewer credits. */
  lemma CreditsMonotone(a: int, b: int)
    requires a <= b
    ensures CalculateCredits(a) <= CalculateCredits(b)
  {
  }

  datatype Embedded = Embedded(collectionName: string, chunkCount: nat, tokensUsed: nat)

  const EmbedErrorPrefix := "Error processing and embedding text: "
  const NoChunksMessage := "No chunks created from text"

  /** `processAndEmbed(contentId, text, metadata)`: split, store the chunks, and charge the whole text. */
  function ProcessAndEmbed(contentId: string, text: string, metadata: Obj, splitter: Splitter, upsert: Upsert)
    : (r: Result<Embedded, string>)
    ensures r.Failure? ==> StartsWith(r.error, EmbedErrorPrefix)
    ensures r.Success? ==>
      && var chunks := SplitTextIntoChunks(text, splitter);
      && chunks.Success? && chunks.value != []
      && upsert(CollectionName(contentId), BuildDocuments(contentId, chunks.value, metadata)).None?
      && r.value == Embedded(CollectionName(contentId), |chunks.value|, EstimateTokens(text))
    ensures SplitTextIntoChunks(text, splitter) == Success([]) ==>
      r == Failure(EmbedErrorPrefix + NoChunksMessage)
    ensures SplitTextIntoChunks(text, splitter).Failure? ==>
      r == Failure(EmbedErrorPrefix + SplitTextIntoChunks(text, splitter).error)
    ensures var chunks := SplitTextIntoChunks(text, splitter);
      chunks.Success? && chunks.value != [] ==>
        match upsert(CollectionName(contentId), BuildDocuments(contentId, chunks.value, metadata))
        case None => r.Success?
        case Some(e) => r == Failure(EmbedErrorPrefix + (AddErrorPrefix + e))
  {
    match SplitTextIntoChunks(text, splitter)
    case Failure(e) => Failure(EmbedErrorPrefix + e)
    case Success(chunks) =>
      if chunks == [] then Failure(EmbedErrorPrefix + NoChunksMessage)
      else
        match AddDocuments(contentId, chunks, metadata, upsert)
        case Failure(e) => Failure(EmbedErrorPrefix + e)
        case Success(added) => Success(Embedded(added.collectionName, added.chunkCount, EstimateTokens(text)))
  }

  /** With no chunks the vector store is never consulted: any store gives the same failure. */
  lemma NoChunksNoStoreCall(contentId: string, text: string, metadata: Obj, splitter: Splitter,
                            upsert1: Upsert, upsert2: Upsert)
    requires SplitTextIntoChunks(text, splitter) == Success([])
    ensures ProcessAndEmbed(contentId, text, metadata, splitter, upsert1)
         == ProcessAndEmbed(contentId, text, metadata, splitter, upsert2)
  {
  }
}
