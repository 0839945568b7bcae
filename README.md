# ThinkLM retrieval, ingestion and credit ledger in Dafny

ThinkLM is a notebook-style assistant. A user collects sources in a notebook: an uploaded
file, pasted text, a web page or a YouTube transcript. Each source is split into chunks and
stored in a vector collection of its own. Questions are then answered from the chunks that
best match them, with citations. Every ingestion and every question costs credits, counted
from an estimate of four characters per token at a thousand tokens per credit.

This project models the deterministic core of that system and proves what it guarantees.

Backend services, written as functions and lemmas:
- `Embeddings`: the token and credit arithmetic, and the chunk-then-store step.
- `DocumentProcessor`: the MIME-type dispatch, the length check and the blank-chunk filter.
- `Qdrant`: collection naming, chunk documents, the multi-source merge (push loop, stable sort
  by score, cut to the limit) and collection deletion.
- `ChatService`: query validation, the free empty-retrieval answer, the numbered context,
  token totals and citations.
- `Web`: URL checks, href resolution and link categorisation, de-duplication, the link summary
  appended to a page, and the loaders' acceptance checks and error mapping. The loops of the
  source are methods proved equal to those functions.

Content record:
- `ContentModel`: the content record with its status and source-type enums and the schema
  defaults.

Backend state and controllers:
- `BackendState`: the database as one signed-in user's request sees it, as a class `Backend`.
- `ContentController` and `ChatController`: the endpoints. Each is a method that updates a
  `Backend` step by step and is proved equal to a function from the state before the request
  to the state after it and the reply. Lemmas then state the ledger rules about that
  function.

Browser stores, written as classes whose methods update their fields:
- `ChatClient`, `NotebookClient` and `AuthClient`. Each request's outcome is a parameter.

Every external call enters as a parameter:
- the text splitter, the vector store, the language model, the page and transcript loaders,
  the URL parser, the YouTube id pattern and `fetch`.

Behaviour of the source that the model keeps as written:
- The same `limit` bounds each per-source search and the merged result.
- `addText` stores the trimmed text but embeds and charges the untrimmed text
  (`ContentController.AddTextOutcome`).
- `deleteContent` decrements `dataSourcesCount` for a failed record too, although only
  completed records were ever counted. The count then drifts below the number of completed
  sources (`ContentController.DeleteFailedDrifts`).
- A query is pre-checked against an estimate but charged its actual cost without clamping, so
  the balance can become negative (`ChatController.ChargeIsNotClamped`).
- A title that is blank after trimming fails the schema's `required` check, so no record is
  created.
- The schema keeps only six `sourceData` keys. Other keys the controllers put there, such as a
  scrape date or a video's author, are dropped.
- `isSocialMediaUrl` tests for a platform name anywhere in the lower-cased URL. A relative link
  on a social platform's own page is therefore filed as social, even a `mailto:` link
  (`Web.RelativeLinksOnSocialSites`).
- The selection check compares the number of distinct matching records with the length of the
  selection, so a selection that names a source twice is refused
  (`ChatController.SelectionCheck`).

## Model

| member | source | states |
|---|---|---|
| Embeddings.EstimateTokens | backend/src/services/embeddings.service.js:34-38 | the estimate is the ceiling of the length divided by 4: four times it reaches the length and exceeds it by less than 4; it is zero exactly for the empty text |
| Embeddings.EstimateTokensMonotone | backend/src/services/embeddings.service.js:34-38 | a longer text never has a smaller estimate |
| Embeddings.EstimateTokensSubadditive | backend/src/services/embeddings.service.js:34-38 | the estimate of a concatenation is at most the sum of the estimates of its parts |
| Embeddings.CalculateCredits | backend/src/services/embeddings.service.js:41-44 | credits times 1000 equals the token count exactly (no rounding); non-negative tokens give non-negative credits |
| Embeddings.CreditsAdditive | backend/src/services/embeddings.service.js:41-44 | the credits of a sum of token counts are the sum of their credits |
| Embeddings.CreditsMonotone | backend/src/services/embeddings.service.js:41-44 | more tokens never cost fewer credits |
| Embeddings.ProcessAndEmbed | backend/src/services/embeddings.service.js:10-32 | every failure carries the "Error processing and embedding text: " prefix; a splitter error and a store error are passed on after it, and zero chunks fail with "No chunks created from text"; it succeeds exactly when the splitter gives chunks and the store accepts them, and then reports the source's collection, the chunk count and the estimate of the whole text |
| Embeddings.NoChunksNoStoreCall | backend/src/services/embeddings.service.js:12-16 | with no chunks the vector store is never consulted: any two stores give the same result |
| DocumentProcessor.LoaderFor | backend/src/services/document.processor.service.js:11-21 | a loader is chosen exactly for the three supported MIME types; the PDF loader exactly for application/pdf |
| DocumentProcessor.ProcessDocument | backend/src/services/document.processor.service.js:6-42 | errors carry "Error processing document: "; an unsupported type, zero pages and a text under 10 trimmed characters give their messages, and a loader error is passed on after the prefix; it succeeds exactly when a supported loader gives pages whose trimmed "\n\n"-join has at least 10 characters, and the result is that join |
| DocumentProcessor.DropBlank | backend/src/services/document.processor.service.js:54 | the kept chunks are exactly the non-blank ones, never more than the input |
| DocumentProcessor.DropBlankAppend | backend/src/services/document.processor.service.js:54 | the filter works piecewise, so kept chunks stay in splitter order |
| DocumentProcessor.DropBlankKeepsNonBlank | backend/src/services/document.processor.service.js:54 | a splitter output without blank chunks passes unchanged |
| DocumentProcessor.SplitTextIntoChunks | backend/src/services/document.processor.service.js:44-58 | succeeds exactly when the splitter (size 1000, overlap 200 by default) succeeds, with its non-blank chunks in order; failures carry "Error splitting text: " |
| Qdrant.CollectionName | backend/src/services/qdrant.service.js:13 | the name is "content_" followed by the content id |
| Qdrant.CollectionNameRoundTrip | backend/src/services/qdrant.service.js:13 | the content id can be read back from its collection name |
| Qdrant.CollectionNameInjective | backend/src/services/qdrant.service.js:97 | two sources never share a collection |
| Qdrant.ChunkMetadata | backend/src/services/qdrant.service.js:18-22 | the metadata holds contentId, chunkIndex and the caller's keys, and the caller's values win |
| Qdrant.BuildDocuments | backend/src/services/qdrant.service.js:16-23 | one document per chunk, in order, each with its chunk text and its position's metadata |
| Qdrant.ChunkIndexIsPosition | backend/src/services/qdrant.service.js:16-23 | without overriding metadata, document i has chunkIndex i and the source's contentId |
| Qdrant.AddDocuments | backend/src/services/qdrant.service.js:11-43 | succeeds exactly when the store accepts the built documents, reporting the collection name and the number of input chunks; failures carry "Error adding documents to Qdrant: " |
| Qdrant.SearchSimilar | backend/src/services/qdrant.service.js:46-67 | succeeds exactly when the store searches the source's collection; returns the first min(`limit`, ranking length) hits of the store's ranking, in order; failures carry "Error searching documents: " |
| Qdrant.Contribution | backend/src/services/qdrant.service.js:76-81 | one source adds at most `limit` hits, nothing when its search throws |
| Qdrant.GatheredBound | backend/src/services/qdrant.service.js:75-82 | the gathered list holds at most `limit` hits per source |
| Qdrant.GatheredFromSuccessfulSources | backend/src/services/qdrant.service.js:75-82 | every gathered hit was returned by a successful per-source search |
| Qdrant.SortFacts | backend/src/services/qdrant.service.js:85 | the sort orders scores non-increasingly and is a permutation of its input |
| Qdrant.SortStable | backend/src/services/qdrant.service.js:85 | hits of equal score keep their concatenation order |
| Qdrant.SortOfSorted | backend/src/services/qdrant.service.js:85 | an already ranked list is left unchanged |
| Qdrant.MultiSourceSearch | backend/src/services/qdrant.service.js:70-92 | the result has at most `limit` hits, is sorted by score, is a sub-multiset of the gathered hits, and is exactly min(limit, gathered) long; every kept hit scores at least as high as every gathered hit left out, so the result is the top `limit` |
| Qdrant.TakeOfRankedIsTop | backend/src/services/qdrant.service.js:84-88 | a prefix of a ranked list outscores every hit left out of it |
| Qdrant.HitsComeFromSuccessfulSources | backend/src/services/qdrant.service.js:75-88 | every returned hit was returned by the search of one of the selected sources |
| Qdrant.GatheredSkipsFailing | backend/src/services/qdrant.service.js:79-81 | a throwing source contributes nothing, wherever it stands in the list |
| Qdrant.FailingSourceIgnored | backend/src/services/qdrant.service.js:76-81 | the merge with a throwing source equals the merge without it |
| Qdrant.AllSourcesFailEmpty | backend/src/services/qdrant.service.js:75-88 | when every source throws, the result is empty rather than an error |
| Qdrant.SearchMultipleSources | backend/src/services/qdrant.service.js:70-92 | the push loop, sort and slice compute `MultiSourceSearch` |
| Qdrant.CollectionUrl | backend/src/services/qdrant.service.js:99-100 | the DELETE goes to the store's /collections/ path followed by the collection name |
| Qdrant.DeleteCollection | backend/src/services/qdrant.service.js:95-119 | never fails; true exactly when the DELETE response is ok |
| ChatService.Preview | backend/src/services/chat.service.js:89-91 | the first 200 characters, with "..." appended exactly when the content is longer |
| ChatService.ContextParts | backend/src/services/chat.service.js:57-62 | one context entry per hit, in rank order |
| ChatService.ContextNumbered | backend/src/services/chat.service.js:57-62 | entry i is labelled "Document i+1 (Score: " and holds the i-th hit's text |
| ChatService.ContextLabelsDistinct | backend/src/services/chat.service.js:58 | distinct ranks get distinct labels |
| ChatService.FillCarries | backend/src/services/chat.service.js:12-28 | the filled template holds the whole context and the verbatim question, each in its slot |
| ChatService.CitationOf | backend/src/services/chat.service.js:84-93 | score passed through, preview of the content, contentId and chunkIndex exactly when present and then with the hit's own values, title passed through when truthy and falling back to "Document i+1", sourceType passed through when truthy and falling back to "unknown" |
| ChatService.Citations | backend/src/services/chat.service.js:84-93 | one citation per hit, in rank order |
| ChatService.ProcessQueryRefusals | backend/src/services/chat.service.js:32-38 | a blank query, or an empty or missing selection, fails with its message behind "Error processing query: " |
| ChatService.ProcessQueryFails | backend/src/services/chat.service.js:41-106 | past the checks, the query fails exactly when there were hits and the model threw, with the model's message behind the prefix |
| ChatService.ProcessQueryAnswers | backend/src/services/chat.service.js:41-103 | an answer cites the hits (at most 5); total = input + output; with no hits it is the canned response with zero usage; otherwise input and output are the estimates of the prompt and of the model's response |
| ChatService.EmptyRetrievalIsFree | backend/src/services/chat.service.js:47-54 | with no hits the model is never asked, the query succeeds and costs zero tokens |
| ChatService.AnsweredQueryCosts | backend/src/services/chat.service.js:67-81 | a model answer costs at least the estimate of the question, so it is never free |
| Web.IsValidUrl | backend/src/services/web.service.js:318-325 | true exactly when the URL parses with protocol http: or https: |
| Web.ExtractDomainFromUrl | backend/src/services/web.service.js:308-315 | "Unknown Website" when parsing fails; the host name unchanged without "www."; with it, the host name with its first "www." cut out (the text before and after it, joined) |
| Web.DomainDropsLeadingWww | backend/src/services/web.service.js:308-315 | a host beginning with "www." loses exactly that prefix |
| Web.AnyOccurs | backend/src/services/web.service.js:179 | true exactly when some listed domain occurs in the string |
| Web.IsSocialMediaUrl | backend/src/services/web.service.js:152-180 | true exactly when a platform name occurs in the lower-cased URL |
| Web.SocialIgnoresCase | backend/src/services/web.service.js:152-180 | the test ignores case |
| Web.SocialAnywhere | backend/src/services/web.service.js:152-180 | a URL holding a platform name anywhere is social, wherever it points |
| Web.ResolveHref | backend/src/services/web.service.js:90-101 | "#" and "javascript:" hrefs are skipped; "http" hrefs are kept; "//" hrefs get the page's protocol in front, "/" hrefs the protocol, "//" and the host, and plain relative hrefs the protocol, "//", the host and "/" |
| Web.Categorise | backend/src/services/web.service.js:111-127 | the first matching bucket in the order social, mailto, tel, same host, other |
| Web.RelativeLinksOnSocialSites | backend/src/services/web.service.js:90-127 | on a social platform's page every relative link, even mailto:, is filed as social |
| Web.Dedup | backend/src/services/web.service.js:183-192 | the kept URLs are pairwise distinct, cover every input URL, and are taken from the input |
| Web.DedupOfDistinct | backend/src/services/web.service.js:183-192 | a list with distinct URLs is left as it is |
| Web.DedupIdempotent | backend/src/services/web.service.js:183-192 | de-duplicating twice is de-duplicating once |
| Web.DedupPrefix | backend/src/services/web.service.js:183-192 | the result for a prefix is a prefix of the result, so input order is kept |
| Web.DedupKeepsFirst | backend/src/services/web.service.js:183-192 | the first link with a given URL is kept |
| Web.RemoveDuplicateUrls | backend/src/services/web.service.js:183-192 | the loop over a seen set computes `Dedup` |
| Web.AddAnchorCounts | backend/src/services/web.service.js:81-131 | one anchor adds at most one entry |
| Web.AddAnchorFiles | backend/src/services/web.service.js:111-127 | one anchor lands only in the bucket its link belongs in |
| Web.CategorisedWellFiled | backend/src/services/web.service.js:81-131 | after all anchors, there are no more entries than anchors and every link is in its bucket |
| Web.TakeOfDedup | backend/src/services/web.service.js:134-136 | a prefix of a de-duplicated list keeps distinct URLs taken from the list |
| Web.ExtractedFromPage | backend/src/services/web.service.js:63-149 | at most 10 social, 15 internal and 20 external links, each list with distinct URLs; nothing on failure; every link in its bucket; each list is the first 10, 15 or 20 links of its de-duplicated bucket (all of it when shorter) |
| Web.FileAnchor | backend/src/services/web.service.js:81-131 | the `each` callback files one anchor as `AddAnchor` does |
| Web.ExtractUrlsFromPage | backend/src/services/web.service.js:63-149 | the loop over anchors, then de-duplication and caps, computes `ExtractedFromPage` |
| Web.LinkLines | backend/src/services/web.service.js:199-226 | one line per link, in order |
| Web.ContactLines | backend/src/services/web.service.js:206-218 | one line per contact, in order |
| Web.ConcatContains | backend/src/services/web.service.js:195-228 | every written line occurs in the result |
| Web.FormattedContent | backend/src/services/web.service.js:195-228 | the page text is a prefix of the result, and the result is the page text itself when no section has entries |
| Web.LinkLineHasUrl | backend/src/services/web.service.js:202 | a link's URL is written on its line |
| Web.SectionHasUrl | backend/src/services/web.service.js:199-226 | every link of a section has its URL in that section |
| Web.SummaryListsSocialLinks | backend/src/services/web.service.js:199-204 | every social link's URL is in the enhanced content |
| Web.SummaryListsExternalLinks | backend/src/services/web.service.js:220-226 | each of the first ten external links' URLs is in the enhanced content |
| Web.AppendLines | backend/src/services/web.service.js:201-203 | a `forEach` of `+=` appends the concatenated lines |
| Web.AppendSection | backend/src/services/web.service.js:199-204 | appending a header then its lines appends that section |
| Web.FormatContentWithUrls | backend/src/services/web.service.js:195-228 | the section-by-section appends compute `FormattedContent` |
| Web.CleanPageText | backend/src/services/web.service.js:38-41 | never longer than the page text, empty exactly when the collapsed text is blank, no white space at either end, every non-space character of the page kept in order, only single spaces left, and equal to the trim of "blank every white-space character, then squeeze each run of spaces to one" |
| Web.LoadedWebpage | backend/src/services/web.service.js:6-60 | errors carry "Error loading webpage: "; an unparsable URL, a non-web protocol, no documents and a body under 100 trimmed characters each give their message, and a loader error is passed on after the prefix; success is the cleaned, link-enhanced page |
| Web.LoadWebpage | backend/src/services/web.service.js:6-60 | the step-by-step loader computes `LoadedWebpage` |
| Web.CloseFrom | backend/src/services/web.service.js:330 | a lazy `.*?` reaches the first closing character, unless a line ends first |
| Web.StripEnclosed | backend/src/services/web.service.js:330-331 | never lengthens the text, and changes nothing when either bracket is absent |
| Web.StripKeepsPlainPrefix | backend/src/services/web.service.js:330-331 | text before the first opening bracket is kept unchanged |
| Web.StripDropsSpan | backend/src/services/web.service.js:330-331 | an opening bracket, a stretch of one line without a closing bracket, and the closing bracket go, and only they |
| Web.StripKeepsUnclosedLine | backend/src/services/web.service.js:330-331 | a line with no closing bracket is kept whole with its line end, opening brackets included |
| Web.StripEnclosedRemovesSpans | backend/src/services/web.service.js:330-331 | after stripping, no opening bracket is followed by its closing bracket on the same line |
| Web.StripKeepsNoSpan | backend/src/services/web.service.js:330-331 | stripping `(...)` spans brings no `[...]` span back together, because a removed span holds no line end |
| Web.StripMusicCue | backend/src/services/web.service.js:330 | "[Music] hi" becomes " hi" |
| Web.CleanTranscriptText | backend/src/services/web.service.js:328-335 | never lengthens the text; without brackets it is the page cleaning; the result is trimmed and single-spaced, keeps every non-space character of the span-stripped text in order, and equals the reference squeeze of that text |
| Web.TranscriptSpansRemoved | backend/src/services/web.service.js:328-331 | after the two span removals no `[...]` and no `(...)` span is left within a line |
| Web.MapYouTubeError | backend/src/services/web.service.js:277-289 | "Transcript is disabled", "Video unavailable" and "quota exceeded" are checked in that order and get their messages; anything else is wrapped |
| Web.InvalidUrlUnrecognised | backend/src/services/web.service.js:234-235 | the bad-format error matches none of the patterns, so it is wrapped |
| Web.NoTranscriptUnrecognised | backend/src/services/web.service.js:247-249 | the no-transcript error matches none of the patterns, so it is wrapped |
| Web.ShortTranscriptUnrecognised | backend/src/services/web.service.js:255-257 | the short-transcript error matches none of the patterns, so it is wrapped |
| Web.LoadYouTubeVideo | backend/src/services/web.service.js:231-290 | a missing video id, no transcript and a transcript under 50 trimmed characters each fail with their wrapped message; loader errors are mapped; success carries the id, the URL, the cleaned transcript and the metadata, with the title, length, author and description passed through when truthy and otherwise "YouTube Video <id>", "Unknown", "Unknown" and "" |
| ContentModel.ParseStatus | backend/src/model/Content.model.js:38-42 | exactly the three status names are accepted, each read back to its status |
| ContentModel.StatusRoundTrip | backend/src/model/Content.model.js:38-42 | every status's name parses back to it |
| ContentModel.ParseSourceType | backend/src/model/Content.model.js:20-24 | exactly the four source-type names are accepted |
| ContentModel.SourceTypeRoundTrip | backend/src/model/Content.model.js:20-24 | every source type's name parses back to it |
| ContentModel.SourceTypeNamesDistinct | backend/src/model/Content.model.js:20-24 | distinct source types have distinct names |
| ContentModel.VideoIsNotASourceType | backend/src/model/Content.model.js:22 | "video" is refused by the enum |
| ContentModel.CastTitle | backend/src/model/Content.model.js:15-19 | a string title is kept and a missing title stays missing |
| ContentModel.CreateContent | backend/src/model/Content.model.js:3-58 | fails exactly for a missing or blank title; otherwise the title is trimmed and non-empty, the status is processing, and text, chunk count and tokens take their defaults |
| ContentModel.MarkCompleted | backend/src/controller/content.controller.js:110-115 | completed with collection, chunk count and tokens recorded; nothing else changes |
| ContentModel.MarkFailed | backend/src/controller/content.controller.js:139-143 | failed with the error message recorded; nothing else changes |
| BackendState.StoreSettled | backend/src/controller/content.controller.js:110-143 | storing a settled record with the count in range keeps the database consistent |
| BackendState.Backend.constructor | backend/src/model/Content.model.js:38-55 | a user with a balance, notebooks, a zero count and no records is consistent |
| ContentController.CreditsNeeded | backend/src/controller/content.controller.js:69-70 | what ingesting a text costs: non-negative, tokens/1000, and zero exactly for the empty text |
| ContentController.SettleOutcome | backend/src/controller/content.controller.js:109-153 | created exactly when the embedding succeeded, then completed, charged `needed` and counted once; otherwise failed with the error message and no charge; the new database is stated on both paths: on success credits drop by `needed`, the source count rises by one and the completed record is stored, on failure only the failed record (carrying the embedding error as its message) is stored |
| ContentController.SettleOverwrites | backend/src/controller/content.controller.js:110-143 | settling replaces the stored processing version of the record |
| ContentController.SettleAccounted | backend/src/controller/content.controller.js:84-153 | settling a fresh record after a passed pre-check keeps the database consistent and the balance non-negative |
| ContentController.IngestOutcome | backend/src/controller/content.controller.js:69-153 | refused as insufficient exactly when credits < needed, before any record exists; otherwise created or not processed |
| ContentController.IngestAccounted | backend/src/controller/content.controller.js:69-153 | the shared tail settles what it creates and charges only what it pre-checked |
| ContentController.Admission | backend/src/controller/content.controller.js:36-55 | passes exactly for an owned notebook with fewer than 20 sources; 404 first, then the limit |
| ContentController.UploadFileOutcome | backend/src/controller/content.controller.js:20-169 | no file and no notebook id are refused first; the notebook and the limit next; an extraction failure creates no record and leaves the database unchanged; a created record holds the extracted text |
| ContentController.AddTextOutcome | backend/src/controller/content.controller.js:172-305 | missing fields are refused; the length check precedes the credit check; the charge is on the untrimmed text while the trimmed text is stored |
| ContentController.AddUrlOutcome | backend/src/controller/content.controller.js:308-455 | missing fields and an invalid URL are refused before the notebook; a loader failure creates no record, leaves the database unchanged and passes the loader's message on; a created record holds the enhanced page |
| ContentController.AddYoutubeOutcome | backend/src/controller/content.controller.js:458-609 | missing fields and a bad URL format are refused before the notebook; a transcript-loader failure creates no record, leaves the database unchanged and passes the message on; a created record holds the cleaned transcript |
| ContentController.DeleteContentOutcome | backend/src/controller/content.controller.js:681-731 | 404 for a record the user does not own; otherwise the record goes, the count drops by one only when positive, the DELETE is sent only when a collection is named, and consistency is kept |
| ContentController.CountedSources | backend/src/controller/content.controller.js:117-119 | the ids of the user's completed records |
| ContentController.IngestTracked | backend/src/controller/content.controller.js:117-119 | an ingest under a new id keeps the count equal to the number of completed sources |
| ContentController.DeleteCompletedTracked | backend/src/controller/content.controller.js:714-717 | deleting a completed source keeps the count equal to the number of completed sources |
| ContentController.DeleteFailedDrifts | backend/src/controller/content.controller.js:714-717 | deleting a failed record still decrements the count, leaving it one below the completed sources |
| ContentController.UploadFileAccounted | backend/src/controller/content.controller.js:20-169 | the user and notebooks are untouched; a created record is completed, charged exactly the pre-checked credits and counted once; a failed record is stored uncharged; every other reply changes nothing |
| ContentController.AddTextAccounted | backend/src/controller/content.controller.js:172-305 | the same ledger guarantee for addText |
| ContentController.AddUrlAccounted | backend/src/controller/content.controller.js:308-455 | the same ledger guarantee for addUrl |
| ContentController.AddYoutubeAccounted | backend/src/controller/content.controller.js:458-609 | the same ledger guarantee for addYoutube |
| ContentController.Ingest | backend/src/controller/content.controller.js:69-153 | the step-by-step pre-check, create, embed and settle computes `IngestOutcome` |
| ContentController.Settle | backend/src/controller/content.controller.js:109-153 | the record and ledger updates compute `SettleOutcome` |
| ContentController.UploadFile | backend/src/controller/content.controller.js:20-169 | the handler updates the backend as `UploadFileOutcome` says |
| ContentController.AddText | backend/src/controller/content.controller.js:172-305 | the handler updates the backend as `AddTextOutcome` says |
| ContentController.AddUrl | backend/src/controller/content.controller.js:308-455 | the handler updates the backend as `AddUrlOutcome` says |
| ContentController.AddYoutube | backend/src/controller/content.controller.js:458-609 | the handler updates the backend as `AddYoutubeOutcome` says |
| ContentController.DeleteContent | backend/src/controller/content.controller.js:681-731 | the handler updates the backend as `DeleteContentOutcome` says |
| ChatController.ReplyStatus | backend/src/controller/chat.controller.js:13-101 | only an answer carries no message; an answer is 200; a refusal has its own status and message |
| ChatController.Matching | backend/src/controller/chat.controller.js:44-49 | the selected ids naming this user's completed records in this notebook |
| ChatController.SelectionCheck | backend/src/controller/chat.controller.js:51-56 | the length check passes exactly when every selected id is queryable and none repeats |
| ChatController.QueryEstimate | backend/src/controller/chat.controller.js:61-63 | the estimate times 1000 is 2·length + 1000, so at least one credit |
| ChatController.QueryEstimateMonotone | backend/src/controller/chat.controller.js:61-63 | longer queries are estimated higher |
| ChatController.QueryDocumentsOutcome | backend/src/controller/chat.controller.js:8-103 | only the credit balance can change |
| ChatController.QueryDocumentsReplies | backend/src/controller/chat.controller.js:8-103 | each check's refusal in order; insufficient exactly when admitted and credits < estimate; failed exactly when the service threw; answered exactly otherwise, charging the actual cost with the post-charge balance reported; consistency kept |
| ChatController.ChargeIsNotClamped | backend/src/controller/chat.controller.js:79-83 | an answer costing more than the balance drives it below zero |
| ChatController.EmptyRetrievalCharged | backend/src/controller/chat.controller.js:76-83 | an answer from an empty retrieval charges nothing and leaves the database as it was |
| ChatController.FreeAnswerCharged | backend/src/controller/chat.controller.js:79-83 | an answer that used no tokens charges nothing and leaves the database as it was |
| ChatController.QueryDocuments | backend/src/controller/chat.controller.js:8-103 | the handler updates the backend as `QueryDocumentsOutcome` says |
| ChatClient.UserMessage | frontend/src/stores/chatStore.js:40-45 | a user message holding the query verbatim |
| ChatClient.AssistantMessage | frontend/src/stores/chatStore.js:68-76 | an assistant message with the response, citations, tokens and charge |
| ChatClient.Exchange | frontend/src/stores/chatStore.js:39-78 | the user message always, then exactly one assistant message when the request succeeded |
| ChatClient.ExchangeIdsDistinct | frontend/src/stores/chatStore.js:40-69 | the question and its answer never share an id |
| ChatClient.ChatStore.constructor | frontend/src/stores/chatStore.js:4-8 | empty conversation and selection, not loading |
| ChatClient.ChatStore.SetSelectedSources | frontend/src/stores/chatStore.js:10-12 | the selection is replaced; nothing else changes |
| ChatClient.ChatStore.AddSelectedSource | frontend/src/stores/chatStore.js:14-19 | appended only when absent, so the id is present and the selection keeps no duplicates |
| ChatClient.ChatStore.RemoveSelectedSource | frontend/src/stores/chatStore.js:21-24 | every occurrence goes and the rest keep their order |
| ChatClient.ChatStore.AddMessage | frontend/src/stores/chatStore.js:26-29 | appended at the end; earlier messages unchanged |
| ChatClient.ChatStore.SendQuery | frontend/src/stores/chatStore.js:31-103 | no selection: failure and no message; otherwise the exchange is appended, loading ends, success exactly on an ok answer, the errors are reported, the selection is kept, and the held user's credits are updated |
| ChatClient.ChatStore.ClearChat | frontend/src/stores/chatStore.js:106-108 | only the messages are emptied |
| ChatClient.ChatStore.ClearChatData | frontend/src/stores/chatStore.js:111-118 | all four fields are reset |
| NotebookClient.ReplaceById | frontend/src/stores/notebookStore.js:127-130 | same length; matching entries replaced, the rest unchanged |
| NotebookClient.ReplaceByIdIdempotent | frontend/src/stores/notebookStore.js:127-130 | replacing twice with an id-keeping object is replacing once |
| NotebookClient.MergeById | frontend/src/stores/notebookStore.js:195-201 | same length; matching entries merged with the patch winning, the rest unchanged |
| NotebookClient.MergeKeepsIds | frontend/src/stores/notebookStore.js:195-201 | a patch without `_id` keeps every entry's id |
| NotebookClient.MergeIdempotent | frontend/src/stores/notebookStore.js:195-201 | merging the same patch twice is merging it once |
| NotebookClient.RemoveById | frontend/src/stores/notebookStore.js:204-210 | exactly the entries without the id are kept |
| NotebookClient.RemoveUndoesPrepend | frontend/src/stores/notebookStore.js:189-210 | removing an id undoes prepending a record with it |
| NotebookClient.RemoveByIdAppend | frontend/src/stores/notebookStore.js:204-210 | removal keeps the order of what remains |
| NotebookClient.NotebookStore.constructor | frontend/src/stores/notebookStore.js:4-8 | empty lists, no open notebook, not loading |
| NotebookClient.NotebookStore.SetLoading | frontend/src/stores/notebookStore.js:10-12 | only the loading flag changes |
| NotebookClient.NotebookStore.FetchNotebooks | frontend/src/stores/notebookStore.js:14-41 | the list is replaced on success; any failure answers [] and keeps the list; loading ends |
| NotebookClient.NotebookStore.CreateNotebook | frontend/src/stores/notebookStore.js:43-76 | success prepends the new notebook; failures keep the list and report their error; loading ends |
| NotebookClient.NotebookStore.FetchNotebook | frontend/src/stores/notebookStore.js:78-110 | success opens the notebook with its contents; failure keeps what was open; loading ends |
| NotebookClient.NotebookStore.UpdateNotebook | frontend/src/stores/notebookStore.js:112-150 | success replaces matching notebooks, and the open one only if it matches; failure changes nothing |
| NotebookClient.NotebookStore.DeleteNotebook | frontend/src/stores/notebookStore.js:152-186 | success filters the notebook out and closes it exactly when it was open; failure changes nothing |
| NotebookClient.NotebookStore.AddContent | frontend/src/stores/notebookStore.js:189-192 | prepended; the rest unchanged |
| NotebookClient.NotebookStore.UpdateContent | frontend/src/stores/notebookStore.js:195-201 | the contents become `MergeById` of the old contents |
| NotebookClient.NotebookStore.RemoveContent | frontend/src/stores/notebookStore.js:204-210 | the contents become `RemoveById` of the old contents |
| NotebookClient.NotebookStore.ClearCurrentNotebook | frontend/src/stores/notebookStore.js:213-215 | no open notebook and no contents |
| AuthClient.LoginErrorMessage | frontend/src/stores/authStore.js:44-47 | the unverified-email message becomes the verify prompt, another non-empty message is shown as is, and a missing one falls back to "Invalid email or password."; never empty |
| AuthClient.WithStats | frontend/src/stores/authStore.js:156-163 | the user with credits and dataSourcesCount set and every other key unchanged |
| AuthClient.WithStatsIdempotent | frontend/src/stores/authStore.js:156-163 | applying the same stats twice is applying them once |
| AuthClient.AuthStore.constructor | frontend/src/stores/authStore.js:4-9 | signed out, not loading, `isAuthenticated` agreeing with the user |
| AuthClient.AuthStore.SetUser | frontend/src/stores/authStore.js:11-13 | `isAuthenticated` is whether a user is held |
| AuthClient.AuthStore.SetLoading | frontend/src/stores/authStore.js:15-17 | only the loading flag changes |
| AuthClient.AuthStore.Login | frontend/src/stores/authStore.js:19-56 | success holds the returned user; failure keeps the user and reports the mapped message or "Network error"; loading ends; the flag keeps agreeing with the user |
| AuthClient.AuthStore.Register | frontend/src/stores/authStore.js:58-87 | the signed-in user is untouched; success exactly on an ok answer, and then no error; a rejection passes on the server's message and a network failure gives its own; loading ends |
| AuthClient.AuthStore.Logout | frontend/src/stores/authStore.js:89-107 | always signed out and not loading |
| AuthClient.AuthStore.FetchProfile | frontend/src/stores/authStore.js:109-143 | success holds the returned user; anything else signs the user out; loading ends |
| AuthClient.AuthStore.FetchStats | frontend/src/stores/authStore.js:145-172 | returns the stats exactly on success and updates only the held user's credits and count |
| Text.Trim | backend/src/services/document.processor.service.js:33-37 | `trim`: no white space at either end, never longer, empty exactly for a blank string, and the result is a contiguous piece of the input with only white space before and after it |
| Text.TrimKeepsText | backend/src/services/document.processor.service.js:37 | trimming drops white space only: the non-space characters are the input's, in order |
| Text.TrimKeepsSingleSpaces | backend/src/services/web.service.js:38-41 | trimming a text whose white space is single spaces leaves single spaces only |
| Text.TrimIdempotent | backend/src/model/Content.model.js:15-19 | trimming twice is trimming once |
| Text.ToLower | backend/src/services/web.service.js:179 | same length, letter by letter |
| Text.CollapseSpaces | backend/src/services/web.service.js:39 | empty exactly for empty input, never longer, starts with the input's first character or a space, and its only white space is single spaces (no two in a row) |
| Text.CollapseIsSqueeze | backend/src/services/web.service.js:39 | collapsing equals the reference rewrite: blank every white-space character to a space, then squeeze each run of spaces to one |
| Text.SqueezeRun | backend/src/services/web.service.js:39 | a run of spaces followed by a non-space (or the end) squeezes to one space |
| Text.CollapseKeepsText | backend/src/services/web.service.js:39 | collapsing rewrites white space only: the non-space characters are the input's, in order |
| Text.CollapsedHasNoNewline | backend/src/services/web.service.js:39-40 | after collapsing no line feed is left, so the `\n{3,}` rewrite changes nothing |
| Text.ReplaceFirst | backend/src/services/web.service.js:311 | a string pattern replaces only its first occurrence |
| Text.NatToStringInjective | frontend/src/stores/chatStore.js:40-69 | distinct clock readings give distinct ids |
| Collections.ElemsCard | backend/src/controller/chat.controller.js:51 | a list has as many distinct elements as entries exactly when none repeats |
| Collections.Filter | frontend/src/stores/notebookStore.js:207 | `filter` keeps exactly the accepted entries |
| Collections.FilterAppend | frontend/src/stores/notebookStore.js:207 | `filter` keeps the order of what it keeps |
| Collections.Without | frontend/src/stores/chatStore.js:21-24 | every occurrence of the value goes |
| Collections.WithoutDistinct | frontend/src/stores/chatStore.js:21-24 | removal keeps a list without repeats |
| Collections.WithoutUndoesAppend | frontend/src/stores/chatStore.js:14-24 | removing a source undoes adding it |

## Left out

- Environment overrides of the constants are not modelled: `CHARACTERS_PER_TOKEN`, `TOKENS_PER_CREDIT`, `QDRANT_HOST`, `QDRANT_PORT` and `QDRANT_API_KEY`. The defaults 4, 1000 and localhost:6333 are used.
- Credits are exact `real` numbers. JavaScript floating point is not modelled, and neither are NaN scores in the sort comparator.
- `score.toFixed(2)` is a parameter (`ChatService.ScoreFormat`), because decimal rendering of floats is not modelled.
- String lengths count code points, not UTF-16 code units. `toLowerCase` maps only ASCII letters.
- The WHATWG URL parser is a parameter (`Web.UrlParser`).
- The YouTube URL regexes are not modelled. The id they capture is a parameter, and the format check is "an id was captured".
- The recursive character splitter is a parameter: its chunk sizes and overlap are not modelled.
- The embedding model, the vector store, the language model, the PDF, text, web and transcript loaders, Cheerio and `fetch` are parameters. Their results are inputs.
- Loader metadata is not modelled, beyond the page title and the transcript title. Neither are `scrapedAt` and the other timestamps, or message timestamps.
- MongoDB failures and the 500 replies they lead to are not modelled. Neither are ObjectId cast errors or a user that `findById` does not find. The requests run one at a time, so the race between the credit pre-check and `user.save()` is not modelled.
- The file unlink in `deleteContent` is not modelled; its errors are swallowed anyway.
- `getContent` and `updateContent` in content.controller.js are plain reads and a title update, and are not part of this model.
- Toasts, the React pages and components, routes and the user and notebook controllers are not part of this model.
- ContentModel.CastTitle: a numeric title is not given its decimal string form, because number formatting is not modelled.
- ChatClient.ChatStore.SendQuery: the clock is read once. The assistant message's id is that reading plus one, whereas the source reads `Date.now()` a second time after the request. The balance is written back through an optional `AuthStore` parameter, which stands for `window.useAuthStore`; that global is never assigned in the visible source.
- AuthClient.AuthStore.Login: a successful answer is taken to carry a user object. The same holds for `FetchProfile`.
- ChatController.QueryDocumentsOutcome: its own contract states only what is unchanged. What each reply means is stated by `ChatController.QueryDocumentsReplies`.
