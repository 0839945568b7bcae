/**
 * The content record: one ingested source (a file, a pasted text, a web page or a
 * YouTube video), its processing status, and the defaults the schema fills in.
 */
module ContentModel {
  import opened Wrappers
  import opened Text
  import opened Json

  /** `status`: one of three names. */
  datatype Status = Processing | Completed | Failed

  function StatusName(s: Status): string {
    match s
    case Processing => "processing"
    case Completed => "completed"
    case Failed => "failed"
  }

  /** The schema's enum check on `status`: only the three names are accepted. */
  function ParseStatus(name: string): (r: Option<Status>)
    ensures r.Some? ==> StatusName(r.value) == name
    ensures r.None? <==> name !in {"processing", "completed", "failed"}
  {
    if name == "processing" then Some(Processing)
    else if name == "completed" then Some(Completed)
    else if name == "failed" then Some(Failed)
    else None
  }

  lemma StatusRoundTrip(s: Status)
    ensures ParseStatus(StatusName(s)) == Some(s)
  {
  }

  /** `sourceType`: one of four names; a video is stored as "youtube". */
  datatype SourceType = FileSource | TextSource | UrlSource | YoutubeSource

  function SourceTypeName(t: SourceType): string {
    match t
    case FileSource => "file"
    case TextSource => "text"
    case UrlSource => "url"
    case YoutubeSource => "youtube"
  }

  /** The schema's enum check on `sourceType`. */
  function ParseSourceType(name: string): (r: Option<SourceType>)
    ensures r.Some? ==> SourceTypeName(r.value) == name
    ensures r.None? <==> name !in {"file", "text", "url", "youtube"}
  {
    if name == "file" then Some(FileSource)
    else if name == "text" then Some(TextSource)
    else if name == "url" then Some(UrlSource)
    else if name == "youtube" then Some(YoutubeSource)
    else None
  }

  lemma SourceTypeRoundTrip(t: SourceType)
    ensures ParseSourceType(SourceTypeName(t)) == Some(t)
  {
  }

  /** Distinct source types are stored under distinct names. */
  lemma SourceTypeNamesDistinct(t: SourceType, u: SourceType)
    requires SourceTypeName(t) == SourceTypeName(u)
    ensures t == u
  {
    SourceTypeRoundTrip(t);
    SourceTypeRoundTrip(u);
  }

  /** "video" is not a source type the schema accepts. */
  lemma VideoIsNotASourceType()
    ensures ParseSourceType("video").None?
  {
    assert "video"[0] != "file"[0] && "video"[0] != "text"[0];
    assert "video"[0] != "url"[0] && "video"[0] != "youtube"[0];
  }

  /**
   * `sourceData`: the schema keeps only these six keys. Anything else a controller
   * puts into it (a scrape date, page metadata, the video's author) is not stored.
   */
  datatype SourceData = SourceData(filename: Option<string>, filePath: Option<string>, originalName: Option<string>,
                                   url: Option<string>, videoId: Option<string>, text: Option<string>)

  const NoSourceData := SourceData(None, None, None, None, None, None)

  datatype Content = Content(
    id: string,
    userId: string,
    notebookId: string,
    title: string,
    sourceType: SourceType,
    sourceData: SourceData,
    extractedText: string,
    status: Status,
    errorMessage: Option<string>,
    qdrantCollectionName: Option<string>,
    chunkCount: nat,
    tokensUsed: nat)

  const TitleRequired := "Content validation failed: title: Path `title` is required."

  /**
   * The string a title value becomes in the schema's `String` field. A missing
   * title (`null`) stays missing; a number is not given a text form here.
   */
  function CastTitle(title: Json): (r: Option<string>)
    ensures title.JStr? ==> r == Some(title.s)
    ensures title.JNull? ==> r.None?
  {
    match title
    case JStr(s) => Some(s)
    case JBool(b) => Some(if b then "true" else "false")
    case JNull => None
    case JNum(_) => None
  }

  /**
   * `Content.create({...})`: the title is trimmed before the `required` check, so a
   * blank title is rejected. Every field the caller leaves out takes its default.
   */
  function CreateContent(id: string, userId: string, notebookId: string, title: Option<string>,
                         sourceType: SourceType, sourceData: SourceData, extractedText: Option<string>)
    : (r: Result<Content, string>)
    ensures r.Failure? <==> title.None? || IsBlank(title.value)
    ensures r.Failure? ==> r.error == TitleRequired
    ensures r.Success? ==>
      && r.value.id == id && r.value.userId == userId && r.value.notebookId == notebookId
      && r.value.title == Trim(title.value) && r.value.title != [] && Trimmed(r.value.title)
      && r.value.sourceType == sourceType && r.value.sourceData == sourceData
      && r.value.extractedText == (if extractedText.Some? then extractedText.value else "")
      && r.value.status == Processing
      && r.value.errorMessage.None? && r.value.qdrantCollectionName.None?
      && r.value.chunkCount == 0 && r.value.tokensUsed == 0
  {
    var trimmed := if title.Some? then Trim(title.value) else "";
    if trimmed == [] then Failure(TitleRequired)
    else
      Success(Content(id, userId, notebookId, trimmed, sourceType, sourceData,
                      if extractedText.Some? then extractedText.value else "",
                      Processing, None, None, 0, 0))
  }

  /** The update after a successful embedding: completed, with the vector-store results recorded. */
  function MarkCompleted(c: Content, collectionName: string, chunkCount: nat, tokensUsed: nat): (d: Content)
    ensures d.status == Completed && d.qdrantCollectionName == Some(collectionName)
    ensures d.chunkCount == chunkCount && d.tokensUsed == tokensUsed
    ensures d.(status := c.status, qdrantCollectionName := c.qdrantCollectionName,
               chunkCount := c.chunkCount, tokensUsed := c.tokensUsed) == c
  {
    c.(status := Completed, qdrantCollectionName := Some(collectionName), chunkCount := chunkCount,
       tokensUsed := tokensUsed)
  }

  /** The update after a failed embedding: failed, with the error's message recorded. */
  function MarkFailed(c: Content, message: string): (d: Content)
    ensures d.status == Failed && d.errorMessage == Some(message)
    ensures d.(status := c.status, errorMessage := c.errorMessage) == c
  {
    c.(status := Failed, errorMessage := Some(message))
  }
}
