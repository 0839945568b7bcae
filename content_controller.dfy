/**
 * Ingestion and deletion of content sources. Each endpoint checks its request, asks a loader
 * for the text, pre-checks the credit balance, creates a record in the `processing` state,
 * embeds the text and then settles the record and the user's ledger.
 *
 * Each endpoint is a method that updates a `Backend` step by step, proved equal to a function
 * from the database before the request to the database after it and the reply.
 */
module ContentController {
  import opened Wrappers
  import opened Text
  import opened Json
  import opened ContentModel
  import opened BackendState
  import opened Embeddings
  import opened Qdrant
  import DocumentProcessor
  import Web

  datatype UploadedFile = UploadedFile(path: string, filename: string, originalName: string, mimeType: string)

  /** The `processing` block of a 201 reply. */
  datatype Processed = Processed(tokensUsed: nat, creditsDeducted: real, chunksCreated: nat)

  datatype Reply =
    | Refused(status: nat, message: string)
      /** 400 "Insufficient credits", with what was needed and what was available. */
    | Insufficient(needed: real, available: real)
      /** 400 after a loader or embedding error; `record` is the failed record, if one was created. */
    | NotProcessed(message: string, error: string, record: Option<Content>)
    | Created(message: string, content: Content, processing: Processed)
    | Done(message: string)

  const NoFileUploaded := "No file uploaded"
  const NotebookIdRequired := "Notebook ID is required"
  const NotebookNotFound := "Notebook not found"
  const LimitReached := "Maximum data sources limit reached (20)"
  const DocumentFailed := "Error processing document"
  const FileUploaded := "File uploaded and processed successfully"
  const TextFieldsRequired := "Notebook ID, title, and text are required"
  const TextTooShort := "Text is too short (minimum 10 characters)"
  const MinPastedText: nat := 10
  const TextFailed := "Error processing text"
  const TextAdded := "Text content added successfully"
  const UrlFieldsRequired := "Notebook ID and URL are required"
  const InvalidUrlFormat := "Invalid URL format"
  const UrlFailed := "Error processing URL"
  const UrlAdded := "URL content added successfully"
  const YoutubeFieldsRequired := "Notebook ID and YouTube URL are required"
  const InvalidYoutubeFormat := "Invalid YouTube URL format"
  const YoutubeFailed := "Error processing YouTube video"
  const YoutubeAdded := "YouTube content added successfully"
  const ContentNotFound := "Content not found"
  const ContentDeleted := "Content deleted successfully"

  /** `calculateCredits(estimateTokens(text))`: what ingesting `text` is charged. */
  function CreditsNeeded(text: string): (credits: real)
    ensures credits >= 0.0
    ensures credits * 1000.0 == EstimateTokens(text) as real
    ensures credits == 0.0 <==> text == []
  {
    CalculateCredits(EstimateTokens(text))
  }

  /**
   * What every ingestion endpoint guarantees: the user and notebooks are untouched; a created
   * record is completed, charged exactly what was pre-checked and counted once; a failed
   * record is stored with the error as its message and without any charge; and every other reply leaves the database as it was.
   */
  predicate Accounted(db: Db, id: string, after: Db, reply: Reply) {
    && after.userId == db.userId && after.notebooks == db.notebooks
    && (Consistent(db) ==> Consistent(after))
    && (db.credits >= 0.0 ==> after.credits >= 0.0)
    && match reply
       case Created(_, c, p) =>
         && c.id == id && c.userId == db.userId && c.status == Completed
         && after.contents == db.contents[id := c]
         && p.creditsDeducted <= db.credits && after.credits == db.credits - p.creditsDeducted
         && after.dataSourcesCount == db.dataSourcesCount + 1
         && p.tokensUsed == c.tokensUsed && p.chunksCreated == c.chunkCount
       case NotProcessed(_, e, Some(c)) =>
         && c.id == id && c.userId == db.userId && c.status == Failed && c.errorMessage == Some(e)
         && after.contents == db.contents[id := c]
         && after.credits == db.credits && after.dataSourcesCount == db.dataSourcesCount
       case _ => after == db
  }

  /**
   * Once the record exists: settle it by the outcome of the embedding, and charge `needed` and
   * count the source only when the embedding succeeded.
   */
  function SettleOutcome(db: Db, record: Content, embedding: Result<Embedded, string>, needed: real,
                         failure: string, success: string)
    : (out: (Db, Reply))
    ensures out.1.Created? <==> embedding.Success?
    ensures out.1.NotProcessed? <==> embedding.Failure?
    ensures out.1.Created? ==>
      && out.1 == Created(success, out.1.content, Processed(embedding.value.tokensUsed, needed, embedding.value.chunkCount))
      && out.1.content.(status := record.status, qdrantCollectionName := record.qdrantCollectionName,
                        chunkCount := record.chunkCount, tokensUsed := record.tokensUsed) == record
      && out.1.content.tokensUsed == embedding.value.tokensUsed
    ensures out.1.NotProcessed? ==> out.1.message == failure && out.1.error == embedding.error
    ensures out.1.Created? ==>
      out.0 == db.(credits := db.credits - needed, dataSourcesCount := db.dataSourcesCount + 1,
                   contents := db.contents[record.id := out.1.content])
    ensures out.1.NotProcessed? ==>
      && out.1.record == Some(MarkFailed(record, embedding.error))
      && out.1.record.value.errorMessage == Some(embedding.error)
      && out.0 == db.(contents := db.contents[record.id := out.1.record.value])
  {
    match embedding
    case Failure(e) =>
      var failed := MarkFailed(record, e);
      (db.(contents := db.contents[record.id := failed]), NotProcessed(failure, e, Some(failed)))
    case Success(result) =>
      var done := MarkCompleted(record, result.collectionName, result.chunkCount, result.tokensUsed);
      (db.(credits := db.credits - needed, dataSourcesCount := db.dataSourcesCount + 1,
           contents := db.contents[record.id := done]),
       Created(success, done, Processed(result.tokensUsed, needed, result.chunkCount)))
  }

  /** Settling replaces whatever was stored under the record's id, such as its `processing` version. */
  lemma SettleOverwrites(db: Db, record: Content, embedding: Result<Embedded, string>, needed: real,
                         failure: string, success: string)
    ensures SettleOutcome(db.(contents := db.contents[record.id := record]), record, embedding, needed, failure, success)
         == SettleOutcome(db, record, embedding, needed, failure, success)
  {
    var m := db.contents[record.id := record];
    match embedding
    case Failure(e) =>
      var failed := MarkFailed(record, e);
      assert m[record.id := failed] == db.contents[record.id := failed];
    case Success(result) =>
      var done := MarkCompleted(record, result.collectionName, result.chunkCount, result.tokensUsed);
      assert m[record.id := done] == db.contents[record.id := done];
  }

  /**
   * Settling a fresh record after a pre-check that passed keeps the database consistent and
   * the balance non-negative, given what `processAndEmbed` promises about its outcome.
   */
  lemma SettleAccounted(db: Db, record: Content, embedding: Result<Embedded, string>, needed: real,
                        failure: string, success: string)
    requires record.userId == db.userId
    requires record.status == Processing && record.errorMessage.None? && record.qdrantCollectionName.None?
    requires record.chunkCount == 0 && record.tokensUsed == 0
    requires embedding.Failure? ==> StartsWith(embedding.error, EmbedErrorPrefix)
    requires embedding.Success? ==>
      embedding.value.collectionName == CollectionName(record.id) && embedding.value.chunkCount > 0
    requires 0.0 <= needed <= db.credits && db.dataSourcesCount < MaxDataSources
    ensures
      var out := SettleOutcome(db, record, embedding, needed, failure, success);
      Accounted(db, record.id, out.0, out.1)
  {
    var out := SettleOutcome(db, record, embedding, needed, failure, success);
    if Consistent(db) {
      match embedding
      case Failure(e) =>
        StoreSettled(db, record.id, MarkFailed(record, e), db.dataSourcesCount);
      case Success(result) =>
        StoreSettled(db, record.id, MarkCompleted(record, result.collectionName, result.chunkCount, result.tokensUsed),
                     db.dataSourcesCount + 1);
    }
  }

  /**
   * The part the four endpoints share, from the credit pre-check on: `extracted` is stored as
   * the record's text and `embedText` is what is embedded and charged.
   */
  function IngestOutcome(db: Db, id: string, notebookId: string, title: Option<string>, sourceType: SourceType,
                         data: SourceData, extracted: string, embedText: string, metadata: Obj,
                         splitter: DocumentProcessor.Splitter, upsert: Upsert, failure: string, success: string)
    : (out: (Db, Reply))
    ensures out.1.Insufficient? <==> db.credits < CreditsNeeded(embedText)
    ensures out.1.Insufficient? || out.1.NotProcessed? || out.1.Created?
    ensures out.1.Created? ==>
      && out.1.message == success
      && out.1.content.sourceType == sourceType && out.1.content.sourceData == data
      && out.1.content.extractedText == extracted
      && out.1.content.tokensUsed == EstimateTokens(embedText)
      && out.1.processing.creditsDeducted == CreditsNeeded(embedText)
    ensures out.1.NotProcessed? ==> out.1.message == failure
  {
    var needed := CreditsNeeded(embedText);
    if db.credits < needed then (db, Insufficient(needed, db.credits))
    else
      match CreateContent(id, db.userId, notebookId, title, sourceType, data, Some(extracted))
      case Failure(e) => (db, NotProcessed(failure, e, None))
      case Success(record) => SettleOutcome(db, record, ProcessAndEmbed(id, embedText, metadata, splitter, upsert),
                                            needed, failure, success)
  }

  /** The shared tail settles what it creates and charges only what it pre-checked. */
  lemma IngestAccounted(db: Db, id: string, notebookId: string, title: Option<string>, sourceType: SourceType,
                        data: SourceData, extracted: string, embedText: string, metadata: Obj,
                        splitter: DocumentProcessor.Splitter, upsert: Upsert, failure: string, success: string)
    requires db.dataSourcesCount < MaxDataSources
    ensures
      var out := IngestOutcome(db, id, notebookId, title, sourceType, data, extracted, embedText, metadata,
                               splitter, upsert, failure, success);
      Accounted(db, id, out.0, out.1)
  {
    var needed := CreditsNeeded(embedText);
    if db.credits >= needed {
      var created := CreateContent(id, db.userId, notebookId, title, sourceType, data, Some(extracted));
      if created.Success? {
        SettleAccounted(db, created.value, ProcessAndEmbed(id, embedText, metadata, splitter, upsert),
                        needed, failure, success);
      }
    }
  }

  /** The checks every endpoint makes once its own fields are valid: the notebook, then the limit. */
  function Admission(db: Db, notebookId: string): (refusal: Option<Reply>)
    ensures refusal.None? <==> OwnsNotebook(db, notebookId) && db.dataSourcesCount < MaxDataSources
    ensures !OwnsNotebook(db, notebookId) ==> refusal == Some(Refused(404, NotebookNotFound))
    ensures OwnsNotebook(db, notebookId) && db.dataSourcesCount >= MaxDataSources ==>
      refusal == Some(Refused(400, LimitReached))
  {
    if !OwnsNotebook(db, notebookId) then Some(Refused(404, NotebookNotFound))
    else if db.dataSourcesCount >= MaxDataSources then Some(Refused(400, LimitReached))
    else None
  }

  /** `uploadFile`: the document is read before anything is charged or stored. */
  function UploadFileOutcome(db: Db, file: Option<UploadedFile>, notebookId: Option<string>, title: Option<string>,
                             load: DocumentProcessor.Load, splitter: DocumentProcessor.Splitter, upsert: Upsert,
                             id: string)
    : (out: (Db, Reply))
    ensures file.None? ==> out == (db, Refused(400, NoFileUploaded))
    ensures file.Some? && !Given(notebookId) ==> out == (db, Refused(400, NotebookIdRequired))
    ensures file.Some? && Given(notebookId) && Admission(db, notebookId.value).Some? ==>
      out == (db, Admission(db, notebookId.value).value)
    ensures file.Some? && Given(notebookId) && Admission(db, notebookId.value).None? &&
            DocumentProcessor.ProcessDocument(file.value.path, file.value.mimeType, load).Failure? ==>
      out == (db, NotProcessed(DocumentFailed,
                               DocumentProcessor.ProcessDocument(file.value.path, file.value.mimeType, load).error,
                               None))
    ensures out.1.Created? ==>
      && var text := DocumentProcessor.ProcessDocument(file.value.path, file.value.mimeType, load);
      && text.Success? && out.1.content.extractedText == text.value
      && out.1.content.sourceType == FileSource
      && out.1.processing.creditsDeducted == CreditsNeeded(text.value)
  {
    if file.None? then (db, Refused(400, NoFileUploaded))
    else if !Given(notebookId) then (db, Refused(400, NotebookIdRequired))
    else if Admission(db, notebookId.value).Some? then (db, Admission(db, notebookId.value).value)
    else
      var f := file.value;
      match DocumentProcessor.ProcessDocument(f.path, f.mimeType, load)
      case Failure(e) => (db, NotProcessed(DocumentFailed, e, None))
      case Success(text) =>
        var finalTitle := if Given(title) then title.value else f.originalName;
        // The embedded metadata carries `content.title`, which is the trimmed title.
        var metadata := map["title" := JStr(Trim(finalTitle)), "sourceType" := JStr("file"),
                            "filename" := JStr(f.originalName)];
        IngestOutcome(db, id, notebookId.value, Some(finalTitle), FileSource,
                      NoSourceData.(filename := Some(f.filename), filePath := Some(f.path),
                                    originalName := Some(f.originalName)),
                      text, text, metadata, splitter, upsert, DocumentFailed, FileUploaded)
  }

  /** `addText`: the length check comes before the credit check. */
  function AddTextOutcome(db: Db, notebookId: Option<string>, title: Option<string>, text: Option<string>,
                          splitter: DocumentProcessor.Splitter, upsert: Upsert, id: string)
    : (out: (Db, Reply))
    ensures !(Given(notebookId) && Given(title) && Given(text)) ==> out == (db, Refused(400, TextFieldsRequired))
    ensures Given(notebookId) && Given(title) && Given(text) && Admission(db, notebookId.value).Some? ==>
      out == (db, Admission(db, notebookId.value).value)
    ensures Given(notebookId) && Given(title) && Given(text) && Admission(db, notebookId.value).None? ==>
      (out.1 == Refused(400, TextTooShort) <==> |text.value| < MinPastedText)
    ensures out.1.Insufficient? <==>
      && Given(notebookId) && Given(title) && Given(text) && Admission(db, notebookId.value).None?
      && |text.value| >= MinPastedText && db.credits < CreditsNeeded(text.value)
    ensures out.1.Created? ==>
      && out.1.content.extractedText == Trim(text.value)
      && out.1.content.sourceType == TextSource
      && out.1.content.tokensUsed == EstimateTokens(text.value)
      && out.1.processing.creditsDeducted == CreditsNeeded(text.value)
  {
    if !(Given(notebookId) && Given(title) && Given(text)) then (db, Refused(400, TextFieldsRequired))
    else if Admission(db, notebookId.value).Some? then (db, Admission(db, notebookId.value).value)
    else if |text.value| < MinPastedText then (db, Refused(400, TextTooShort))
    else
      var metadata := map["title" := JStr(Trim(title.value)), "sourceType" := JStr("text")];
      IngestOutcome(db, id, notebookId.value, title, TextSource, NoSourceData.(text := text),
                    Trim(text.value), text.value, metadata, splitter, upsert, TextFailed, TextAdded)
  }

  /** `addUrl`: `loaded` is what `loadWebpage(url)` returns or throws, should it be called. */
  function AddUrlOutcome(db: Db, notebookId: Option<string>, title: Option<string>, url: Option<string>,
                         parse: Web.UrlParser, loaded: Result<Web.Webpage, string>,
                         splitter: DocumentProcessor.Splitter, upsert: Upsert, id: string)
    : (out: (Db, Reply))
    ensures !(Given(notebookId) && Given(url)) ==> out == (db, Refused(400, UrlFieldsRequired))
    ensures Given(notebookId) && Given(url) && !Web.IsValidUrl(url.value, parse) ==>
      out == (db, Refused(400, InvalidUrlFormat))
    ensures Given(notebookId) && Given(url) && Web.IsValidUrl(url.value, parse) && Admission(db, notebookId.value).Some? ==>
      out == (db, Admission(db, notebookId.value).value)
    ensures out.1.NotProcessed? && out.1.record.None? && loaded.Failure? ==> out.1.error == loaded.error
    ensures Given(notebookId) && Given(url) && Web.IsValidUrl(url.value, parse) && Admission(db, notebookId.value).None? &&
            loaded.Failure? ==>
      out == (db, NotProcessed(UrlFailed, loaded.error, None))
    ensures out.1.Created? ==>
      && var web := loaded;
      && web.Success? && out.1.content.extractedText == web.value.content
      && out.1.content.sourceType == UrlSource && out.1.content.sourceData.url == url
      && out.1.processing.creditsDeducted == CreditsNeeded(web.value.content)
  {
    if !(Given(notebookId) && Given(url)) then (db, Refused(400, UrlFieldsRequired))
    else if !Web.IsValidUrl(url.value, parse) then (db, Refused(400, InvalidUrlFormat))
    else if Admission(db, notebookId.value).Some? then (db, Admission(db, notebookId.value).value)
    else
      match loaded
      case Failure(e) => (db, NotProcessed(UrlFailed, e, None))
      case Success(web) =>
        var finalTitle := if Given(title) then JStr(title.value) else web.title;
        var domain := if "domain" in web.metadata then map["domain" := web.metadata["domain"]] else map[];
        var metadata := map["title" := finalTitle, "sourceType" := JStr("url"), "url" := JStr(url.value)] + domain;
        IngestOutcome(db, id, notebookId.value, CastTitle(finalTitle), UrlSource, NoSourceData.(url := url),
                      web.content, web.content, metadata, splitter, upsert, UrlFailed, UrlAdded)
  }

  /**
   * `addYoutube`: `videoId` is the id the YouTube URL pattern extracts, if it matches, so the
   * format check passes exactly when it is present; `loaded` is what `loadYouTubeVideo(url)`
   * returns or throws, should it be called.
   */
  function AddYoutubeOutcome(db: Db, notebookId: Option<string>, title: Option<string>, url: Option<string>,
                             videoId: Option<string>, loaded: Result<Web.Video, string>,
                             splitter: DocumentProcessor.Splitter, upsert: Upsert, id: string)
    : (out: (Db, Reply))
    ensures !(Given(notebookId) && Given(url)) ==> out == (db, Refused(400, YoutubeFieldsRequired))
    ensures Given(notebookId) && Given(url) && videoId.None? ==> out == (db, Refused(400, InvalidYoutubeFormat))
    ensures Given(notebookId) && Given(url) && videoId.Some? && Admission(db, notebookId.value).Some? ==>
      out == (db, Admission(db, notebookId.value).value)
    ensures Given(notebookId) && Given(url) && videoId.Some? && Admission(db, notebookId.value).None? &&
            loaded.Failure? ==>
      out == (db, NotProcessed(YoutubeFailed, loaded.error, None))
    ensures out.1.Created? ==>
      && var video := loaded;
      && video.Success? && out.1.content.extractedText == video.value.transcript
      && out.1.content.sourceType == YoutubeSource && out.1.content.sourceData.videoId == Some(video.value.videoId)
      && out.1.processing.creditsDeducted == CreditsNeeded(video.value.transcript)
  {
    if !(Given(notebookId) && Given(url)) then (db, Refused(400, YoutubeFieldsRequired))
    else if videoId.None? then (db, Refused(400, InvalidYoutubeFormat))
    else if Admission(db, notebookId.value).Some? then (db, Admission(db, notebookId.value).value)
    else
      match loaded
      case Failure(e) => (db, NotProcessed(YoutubeFailed, e, None))
      case Success(video) =>
        var finalTitle := if Given(title) then JStr(title.value) else video.videoTitle;
        var metadata := map["title" := finalTitle, "sourceType" := JStr("youtube"),
                            "videoId" := JStr(video.videoId), "videoUrl" := JStr(video.videoUrl),
                            "author" := video.author];
        IngestOutcome(db, id, notebookId.value, CastTitle(finalTitle), YoutubeSource,
                      NoSourceData.(url := Some(video.videoUrl), videoId := Some(video.videoId)),
                      video.transcript, video.transcript, metadata, splitter, upsert, YoutubeFailed, YoutubeAdded)
  }

  /**
   * `deleteContent`: also the address of the vector-store DELETE, when the record names a
   * collection. The file unlink is not modelled (its errors are swallowed).
   */
  function DeleteContentOutcome(db: Db, id: string): (out: (Db, Reply, Option<string>))
    ensures out.0.userId == db.userId && out.0.notebooks == db.notebooks && out.0.credits == db.credits
    ensures !OwnsContent(db, id) ==> out == (db, Refused(404, ContentNotFound), None)
    ensures OwnsContent(db, id) ==>
      && out.1 == Done(ContentDeleted)
      && out.0.contents == db.contents - {id}
      && out.0.dataSourcesCount == (if db.dataSourcesCount > 0 then db.dataSourcesCount - 1 else db.dataSourcesCount)
      && (out.2.Some? <==> db.contents[id].qdrantCollectionName.Some?)
      && (out.2.Some? ==> out.2.value == CollectionUrl(id))
    ensures Consistent(db) ==> Consistent(out.0)
    ensures Consistent(db) && out.2.Some? ==> db.contents[id].qdrantCollectionName == Some(CollectionName(id))
  {
    if !OwnsContent(db, id) then (db, Refused(404, ContentNotFound), None)
    else
      var request := if db.contents[id].qdrantCollectionName.Some? then Some(CollectionUrl(id)) else None;
      var count := if db.dataSourcesCount > 0 then db.dataSourcesCount - 1 else db.dataSourcesCount;
      (db.(contents := db.contents - {id}, dataSourcesCount := count), Done(ContentDeleted), request)
  }

  /** The ids of the user's completed records: the sources `dataSourcesCount` stands for. */
  function CountedSources(db: Db): (ids: set<string>)
    ensures forall id :: id in ids <==> OwnsContent(db, id) && db.contents[id].status == Completed
  {
    set id | id in db.contents && db.contents[id].userId == db.userId && db.contents[id].status == Completed
  }

  /** The stored count is the number of the user's completed sources. */
  predicate Tracked(db: Db) {
    db.dataSourcesCount == |CountedSources(db)|
  }

  /** An ingest under a new id keeps the count equal to the number of completed sources. */
  lemma IngestTracked(db: Db, id: string, after: Db, reply: Reply)
    requires Accounted(db, id, after, reply) && Tracked(db) && id !in db.contents
    ensures Tracked(after)
  {
    match reply
    case Created(_, c, _) =>
      assert CountedSources(after) == CountedSources(db) + {id};
    case NotProcessed(_, _, Some(c)) =>
      assert CountedSources(after) == CountedSources(db);
    case _ =>
  }

  /** Deleting a completed source keeps the count equal to the number of completed sources. */
  lemma DeleteCompletedTracked(db: Db, id: string)
    requires Tracked(db) && OwnsContent(db, id) && db.contents[id].status == Completed
    ensures Tracked(DeleteContentOutcome(db, id).0)
  {
    assert CountedSources(DeleteContentOutcome(db, id).0) == CountedSources(db) - {id};
  }

  /**
   * Deleting a failed record, which was never counted, still decrements the count: afterwards
   * the count is one short of the completed sources the user holds.
   */
  lemma DeleteFailedDrifts(db: Db, id: string)
    requires Tracked(db) && OwnsContent(db, id) && db.contents[id].status == Failed && db.dataSourcesCount > 0
    ensures DeleteContentOutcome(db, id).0.dataSourcesCount == |CountedSources(DeleteContentOutcome(db, id).0)| - 1
  {
    assert CountedSources(DeleteContentOutcome(db, id).0) == CountedSources(db);
  }

  /** `uploadFile` settles what it creates and charges only what it pre-checked. */
  lemma UploadFileAccounted(db: Db, file: Option<UploadedFile>, notebookId: Option<string>, title: Option<string>,
                            load: DocumentProcessor.Load, splitter: DocumentProcessor.Splitter, upsert: Upsert,
                            id: string)
    ensures
      var out := UploadFileOutcome(db, file, notebookId, title, load, splitter, upsert, id);
      Accounted(db, id, out.0, out.1)
  {
    if file.Some? && Given(notebookId) && Admission(db, notebookId.value).None? {
      var f := file.value;
      var text := DocumentProcessor.ProcessDocument(f.path, f.mimeType, load);
      if text.Success? {
        var finalTitle := if Given(title) then title.value else f.originalName;
        var metadata := map["title" := JStr(Trim(finalTitle)), "sourceType" := JStr("file"),
                            "filename" := JStr(f.originalName)];
        IngestAccounted(db, id, notebookId.value, Some(finalTitle), FileSource,
                        NoSourceData.(filename := Some(f.filename), filePath := Some(f.path),
                                      originalName := Some(f.originalName)),
                        text.value, text.value, metadata, splitter, upsert, DocumentFailed, FileUploaded);
      }
    }
  }

  /** `addText` settles what it creates and charges only what it pre-checked. */
  lemma AddTextAccounted(db: Db, notebookId: Option<string>, title: Option<string>, text: Option<string>,
                         splitter: DocumentProcessor.Splitter, upsert: Upsert, id: string)
    ensures
      var out := AddTextOutcome(db, notebookId, title, text, splitter, upsert, id);
      Accounted(db, id, out.0, out.1)
  {
    if Given(notebookId) && Given(title) && Given(text) && Admission(db, notebookId.value).None?
       && |text.value| >= MinPastedText {
      var metadata := map["title" := JStr(Trim(title.value)), "sourceType" := JStr("text")];
      IngestAccounted(db, id, notebookId.value, title, TextSource, NoSourceData.(text := text),
                      Trim(text.value), text.value, metadata, splitter, upsert, TextFailed, TextAdded);
    }
  }

  /** `addUrl` settles what it creates and charges only what it pre-checked. */
  lemma AddUrlAccounted(db: Db, notebookId: Option<string>, title: Option<string>, url: Option<string>,
                        parse: Web.UrlParser, loaded: Result<Web.Webpage, string>,
                        splitter: DocumentProcessor.Splitter, upsert: Upsert, id: string)
    ensures
      var out := AddUrlOutcome(db, notebookId, title, url, parse, loaded, splitter, upsert, id);
      Accounted(db, id, out.0, out.1)
  {
    if Given(notebookId) && Given(url) && Web.IsValidUrl(url.value, parse) && Admission(db, notebookId.value).None?
       && loaded.Success? {
      var web := loaded.value;
      var finalTitle := if Given(title) then JStr(title.value) else web.title;
      var domain := if "domain" in web.metadata then map["domain" := web.metadata["domain"]] else map[];
      var metadata := map["title" := finalTitle, "sourceType" := JStr("url"), "url" := JStr(url.value)] + domain;
      IngestAccounted(db, id, notebookId.value, CastTitle(finalTitle), UrlSource, NoSourceData.(url := url),
                      web.content, web.content, metadata, splitter, upsert, UrlFailed, UrlAdded);
    }
  }

  /** `addYoutube` settles what it creates and charges only what it pre-checked. */
  lemma AddYoutubeAccounted(db: Db, notebookId: Option<string>, title: Option<string>, url: Option<string>,
                            videoId: Option<string>, loaded: Result<Web.Video, string>,
                            splitter: DocumentProcessor.Splitter, upsert: Upsert, id: string)
    ensures
      var out := AddYoutubeOutcome(db, notebookId, title, url, videoId, loaded, splitter, upsert, id);
      Accounted(db, id, out.0, out.1)
  {
    if Given(notebookId) && Given(url) && videoId.Some? && Admission(db, notebookId.value).None? && loaded.Success? {
      var video := loaded.value;
      var finalTitle := if Given(title) then JStr(title.value) else video.videoTitle;
      var metadata := map["title" := finalTitle, "sourceType" := JStr("youtube"),
                          "videoId" := JStr(video.videoId), "videoUrl" := JStr(video.videoUrl),
                          "author" := video.author];
      IngestAccounted(db, id, notebookId.value, CastTitle(finalTitle), YoutubeSource,
                      NoSourceData.(url := Some(video.videoUrl), videoId := Some(video.videoId)),
                      video.transcript, video.transcript, metadata, splitter, upsert, YoutubeFailed, YoutubeAdded);
    }
  }

  /** The shared tail, step by step: pre-check, create, embed, then settle the record and the ledger. */
  method Ingest(db: Backend, id: string, notebookId: string, title: Option<string>, sourceType: SourceType,
                data: SourceData, extracted: string, embedText: string, metadata: Obj,
                splitter: DocumentProcessor.Splitter, upsert: Upsert, failure: string, success: string)
    returns (reply: Reply)
    modifies db
    ensures (db.State(), reply) == IngestOutcome(old(db.State()), id, notebookId, title, sourceType, data, extracted,
                                                 embedText, metadata, splitter, upsert, failure, success)
  {
    var tokensNeeded := EstimateTokens(embedText);
    var creditsNeeded := CalculateCredits(tokensNeeded);
    if db.credits < creditsNeeded {
      return Insufficient(creditsNeeded, db.credits);
    }
    var created := CreateContent(id, db.userId, notebookId, title, sourceType, data, Some(extracted));
    if created.Failure? {
      return NotProcessed(failure, created.error, None);
    }
    var content := created.value;
    ghost var before := db.State();
    db.contents := db.contents[id := content];
    var embedding := ProcessAndEmbed(id, embedText, metadata, splitter, upsert);
    SettleOverwrites(before, content, embedding, creditsNeeded, failure, success);
    reply := Settle(db, content, embedding, creditsNeeded, failure, success);
  }

  /** The record's final update and the ledger update, as `processAndEmbed` succeeded or threw. */
  method Settle(db: Backend, content: Content, embedding: Result<Embedded, string>, creditsNeeded: real,
                failure: string, success: string)
    returns (reply: Reply)
    modifies db
    ensures (db.State(), reply) == SettleOutcome(old(db.State()), content, embedding, creditsNeeded, failure, success)
  {
    if embedding.Failure? {
      var failed := MarkFailed(content, embedding.error);
      db.contents := db.contents[content.id := failed];
      return NotProcessed(failure, embedding.error, Some(failed));
    }
    var result := embedding.value;
    var updated := MarkCompleted(content, result.collectionName, result.chunkCount, result.tokensUsed);
    db.contents := db.contents[content.id := updated];
    db.credits := db.credits - creditsNeeded;
    db.dataSourcesCount := db.dataSourcesCount + 1;
    return Created(success, updated, Processed(result.tokensUsed, creditsNeeded, result.chunkCount));
  }

  /** `uploadFile(req, res)` */
  method UploadFile(db: Backend, file: Option<UploadedFile>, notebookId: Option<string>, title: Option<string>,
                    load: DocumentProcessor.Load, splitter: DocumentProcessor.Splitter, upsert: Upsert, id: string)
    returns (reply: Reply)
    modifies db
    ensures (db.State(), reply) == UploadFileOutcome(old(db.State()), file, notebookId, title, load, splitter, upsert, id)
  {
    if file.None? {
      return Refused(400, NoFileUploaded);
    }
    if !Given(notebookId) {
      return Refused(400, NotebookIdRequired);
    }
    if !OwnsNotebook(db.State(), notebookId.value) {
      return Refused(404, NotebookNotFound);
    }
    if db.dataSourcesCount >= MaxDataSources {
      return Refused(400, LimitReached);
    }
    var f := file.value;
    var extractedText := DocumentProcessor.ProcessDocument(f.path, f.mimeType, load);
    if extractedText.Failure? {
      return NotProcessed(DocumentFailed, extractedText.error, None);
    }
    var text := extractedText.value;
    var finalTitle := if Given(title) then title.value else f.originalName;
    var metadata := map["title" := JStr(Trim(finalTitle)), "sourceType" := JStr("file"),
                        "filename" := JStr(f.originalName)];
    reply := Ingest(db, id, notebookId.value, Some(finalTitle), FileSource,
                    NoSourceData.(filename := Some(f.filename), filePath := Some(f.path),
                                  originalName := Some(f.originalName)),
                    text, text, metadata, splitter, upsert, DocumentFailed, FileUploaded);
  }

  /** `addText(req, res)` */
  method AddText(db: Backend, notebookId: Option<string>, title: Option<string>, text: Option<string>,
                 splitter: DocumentProcessor.Splitter, upsert: Upsert, id: string)
    returns (reply: Reply)
    modifies db
    ensures (db.State(), reply) == AddTextOutcome(old(db.State()), notebookId, title, text, splitter, upsert, id)
  {
    if !Given(notebookId) || !Given(title) || !Given(text) {
      return Refused(400, TextFieldsRequired);
    }
    if !OwnsNotebook(db.State(), notebookId.value) {
      return Refused(404, NotebookNotFound);
    }
    if db.dataSourcesCount >= MaxDataSources {
      return Refused(400, LimitReached);
    }
    if |text.value| < MinPastedText {
      return Refused(400, TextTooShort);
    }
    var metadata := map["title" := JStr(Trim(title.value)), "sourceType" := JStr("text")];
    reply := Ingest(db, id, notebookId.value, title, TextSource, NoSourceData.(text := text),
                    Trim(text.value), text.value, metadata, splitter, upsert, TextFailed, TextAdded);
  }

  /** `addUrl(req, res)`: `docs` and `page` are what the page loader and the link fetch return. */
  method AddUrl(db: Backend, notebookId: Option<string>, title: Option<string>, url: Option<string>,
                parse: Web.UrlParser, docs: Result<seq<Web.Page>, string>, page: Option<seq<Web.Anchor>>,
                splitter: DocumentProcessor.Splitter, upsert: Upsert, id: string)
    returns (reply: Reply)
    modifies db
    ensures
      var loaded := if url.Some? then Web.LoadedWebpage(url.value, parse, docs, page) else Failure(Web.InvalidUrl);
      (db.State(), reply) == AddUrlOutcome(old(db.State()), notebookId, title, url, parse, loaded, splitter, upsert, id)
  {
    if !Given(notebookId) || !Given(url) {
      return Refused(400, UrlFieldsRequired);
    }
    if !Web.IsValidUrl(url.value, parse) {
      return Refused(400, InvalidUrlFormat);
    }
    if !OwnsNotebook(db.State(), notebookId.value) {
      return Refused(404, NotebookNotFound);
    }
    if db.dataSourcesCount >= MaxDataSources {
      return Refused(400, LimitReached);
    }
    var webData := Web.LoadWebpage(url.value, parse, docs, page);
    if webData.Failure? {
      return NotProcessed(UrlFailed, webData.error, None);
    }
    var web := webData.value;
    var finalTitle := if Given(title) then JStr(title.value) else web.title;
    var domain := if "domain" in web.metadata then map["domain" := web.metadata["domain"]] else map[];
    var metadata := map["title" := finalTitle, "sourceType" := JStr("url"), "url" := JStr(url.value)] + domain;
    reply := Ingest(db, id, notebookId.value, CastTitle(finalTitle), UrlSource, NoSourceData.(url := url),
                    web.content, web.content, metadata, splitter, upsert, UrlFailed, UrlAdded);
  }

  /** `addYoutube(req, res)`: `videoId` is what the URL pattern extracts and `docs` the transcript loader's result. */
  method AddYoutube(db: Backend, notebookId: Option<string>, title: Option<string>, url: Option<string>,
                    videoId: Option<string>, docs: Result<seq<Web.Page>, string>,
                    splitter: DocumentProcessor.Splitter, upsert: Upsert, id: string)
    returns (reply: Reply)
    modifies db
    ensures
      var loaded := if url.Some? then Web.LoadYouTubeVideo(url.value, videoId, docs) else Failure(InvalidYoutubeFormat);
      (db.State(), reply) == AddYoutubeOutcome(old(db.State()), notebookId, title, url, videoId, loaded, splitter, upsert, id)
  {
    if !Given(notebookId) || !Given(url) {
      return Refused(400, YoutubeFieldsRequired);
    }
    if videoId.None? {
      return Refused(400, InvalidYoutubeFormat);
    }
    if !OwnsNotebook(db.State(), notebookId.value) {
      return Refused(404, NotebookNotFound);
    }
    if db.dataSourcesCount >= MaxDataSources {
      return Refused(400, LimitReached);
    }
    var videoData := Web.LoadYouTubeVideo(url.value, videoId, docs);
    if videoData.Failure? {
      return NotProcessed(YoutubeFailed, videoData.error, None);
    }
    var video := videoData.value;
    var finalTitle := if Given(title) then JStr(title.value) else video.videoTitle;
    var metadata := map["title" := finalTitle, "sourceType" := JStr("youtube"),
                        "videoId" := JStr(video.videoId), "videoUrl" := JStr(video.videoUrl),
                        "author" := video.author];
    reply := Ingest(db, id, notebookId.value, CastTitle(finalTitle), YoutubeSource,
                    NoSourceData.(url := Some(video.videoUrl), videoId := Some(video.videoId)),
                    video.transcript, video.transcript, metadata, splitter, upsert, YoutubeFailed, YoutubeAdded);
  }

  /** `deleteContent(req, res)`; `vectorRequest` is the address of the collection DELETE, if one is sent. */
  method DeleteContent(db: Backend, id: string) returns (reply: Reply, vectorRequest: Option<string>)
    modifies db
    ensures (db.State(), reply, vectorRequest) == DeleteContentOutcome(old(db.State()), id)
  {
    if !OwnsContent(db.State(), id) {
      return Refused(404, ContentNotFound), None;
    }
    var content := db.contents[id];
    vectorRequest := None;
    if content.qdrantCollectionName.Some? {
      vectorRequest := Some(CollectionUrl(id));
    }
    db.contents := db.contents - {id};
    if db.dataSourcesCount > 0 {
      db.dataSourcesCount := db.dataSourcesCount - 1;
    }
    reply := Done(ContentDeleted);
  }
}
