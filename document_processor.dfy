/**
 * Turning an uploaded file into text, and the post-filter on the text splitter's output
 * (backend/src/services/document.processor.service.js). The PDF and text loaders and the
 * recursive character splitter are external and enter as function parameters.
 */
module DocumentProcessor {
  import opened Wrappers
  import opened Text

  datatype Loader = PdfLoader | TextLoader

  const SupportedMimeTypes: set<string> := {"application/pdf", "text/plain", "text/markdown"}

  /** The loader chosen by the `switch` on the MIME type. */
  function LoaderFor(mimeType: string): (l: Option<Loader>)
    ensures l.Some? <==> mimeType in SupportedMimeTypes
    ensures l == Some(PdfLoader) <==> mimeType == "application/pdf"
  {
    if mimeType == "application/pdf" then Some(PdfLoader)
    else if mimeType == "text/plain" || mimeType == "text/markdown" then Some(TextLoader)
    else None
  }

  /** What a loader returns for a file: the text of each page, or the message it threw. */
  type Load = (Loader, string) -> Result<seq<string>, string>

  const PageSeparator := "\n\n"
  const MinTextLength := 10
  const DocumentErrorPrefix := "Error processing document: "
  const NoReadableTextMessage := "No readable text found in document"

  /** `processDocument(filePath, mimeType)`: the trimmed text of all pages, or a prefixed error. */
  function ProcessDocument(filePath: string, mimeType: string, load: Load): (r: Result<string, string>)
    ensures r.Failure? ==> StartsWith(r.error, DocumentErrorPrefix)
    ensures mimeType !in SupportedMimeTypes ==>
      r == Failure(DocumentErrorPrefix + "Unsupported file type: " + mimeType)
    ensures mimeType in SupportedMimeTypes && load(LoaderFor(mimeType).value, filePath) == Success([]) ==>
      r == Failure(DocumentErrorPrefix + "No content found in document")
    ensures r.Success? ==>
      && mimeType in SupportedMimeTypes
      && var pages := load(LoaderFor(mimeType).value, filePath);
      && pages.Success? && pages.value != []
      && r.value == Trim(Join(pages.value, PageSeparator))
    ensures r.Success? ==> |r.value| >= MinTextLength && Trim(r.value) == r.value
    ensures mimeType in SupportedMimeTypes && load(LoaderFor(mimeType).value, filePath).Failure? ==>
      r == Failure(DocumentErrorPrefix + load(LoaderFor(mimeType).value, filePath).error)
    ensures mimeType in SupportedMimeTypes ==>
      var pages := load(LoaderFor(mimeType).value, filePath);
      pages.Success? && pages.value != [] ==>
        if |Trim(Join(pages.value, PageSeparator))| < MinTextLength
        then r == Failure(DocumentErrorPrefix + NoReadableTextMessage)
        else r.Success?
  {
    match LoaderFor(mimeType)
    case None => Failure(DocumentErrorPrefix + "Unsupported file type: " + mimeType)
    case Some(loader) =>
      match load(loader, filePath)
      case Failure(e) => Failure(DocumentErrorPrefix + e)
      case Success(pages) =>
        if pages == [] then Failure(DocumentErrorPrefix + "No content found in document")
        else
          var text := Join(pages, PageSeparator);
          var trimmed := Trim(text);
          if |trimmed| < MinTextLength then Failure(DocumentErrorPrefix + NoReadableTextMessage)
          else
            TrimIdempotent(text);
            Success(trimmed)
  }

  /** The chunks that survive `chunks.filter((chunk) => chunk.trim().length > 0)`, in order. */
  function DropBlank(chunks: seq<string>): (r: seq<string>)
    ensures |r| <= |chunks|
    ensures forall c :: c in r <==> c in chunks && !IsBlank(c)
  {
    if chunks == [] then []
    else if IsBlank(chunks[0]) then DropBlank(chunks[1..])
    else [chunks[0]] + DropBlank(chunks[1..])
  }

  /** The filter works piecewise, so the surviving chunks keep the splitter's order. */
  lemma {:induction false} DropBlankAppend(a: seq<string>, b: seq<string>)
    ensures DropBlank(a + b) == DropBlank(a) + DropBlank(b)
  {
    if a != [] {
      DropBlankAppend(a[1..], b);
      assert (a + b)[1..] == a[1..] + b;
    } else {
      assert a + b == b;
    }
  }

  /** When the splitter produced no blank chunk, the filter changes nothing. */
  lemma {:induction false} DropBlankKeepsNonBlank(chunks: seq<string>)
    requires forall i :: 0 <= i < |chunks| ==> !IsBlank(chunks[i])
    ensures DropBlank(chunks) == chunks
  {
    if chunks != [] {
      DropBlankKeepsNonBlank(chunks[1..]);
    }
  }

  /** The recursive character splitter: text, chunk size and overlap to chunks, or a thrown message. */
  type Splitter = (string, nat, nat) -> Result<seq<string>, string>

  const DefaultChunkSize: nat := 1000
  const DefaultChunkOverlap: nat := 200

  /** `splitTextIntoChunks(text, options)`: the splitter's non-blank chunks, or a prefixed error. */
  function SplitTextIntoChunks(text: string, splitter: Splitter,
                               chunkSize: nat := DefaultChunkSize,
                               chunkOverlap: nat := DefaultChunkOverlap): (r: Result<seq<string>, string>)
    ensures r.Success? <==> splitter(text, chunkSize, chunkOverlap).Success?
    ensures r.Success? ==> r.value == DropBlank(splitter(text, chunkSize, chunkOverlap).value)
    ensures r.Success? ==> forall c :: c in r.value ==> !IsBlank(c)
    ensures r.Failure? ==> StartsWith(r.error, "Error splitting text: ")
  {
    match splitter(text, chunkSize, chunkOverlap)
    case Success(chunks) => Success(DropBlank(chunks))
    case Failure(e) => Failure("Error splitting text: " + e)
  }
}
