/**
 * `extract_text_from_file`: text of an optional uploaded document, chosen by
 * its declared MIME type, joined with single spaces and cut to 2000
 * characters; every parser failure becomes a fixed sentinel string.
 *
 * The PDF, Word and PowerPoint readers and the UTF-8 decoder are not
 * modelled: an `Upload` carries what each of them yields on the uploaded
 * bytes, `None` where that reader raises.
 */
module Extractor {
  import opened Wrappers
  import opened Strings

  const MaxChars: nat := 2000

  const PdfType := "application/pdf"
  const DocxType := "application/vnd.openxmlformats-officedocument.wordprocessingml.document"
  const DocType := "application/msword"
  const PptxType := "application/vnd.openxmlformats-officedocument.presentationml.presentation"
  const TextType := "text/plain"

  const PdfFailed := "[Could not extract text from PDF]"
  const DocxFailed := "[Could not extract text from DOCX]"
  const PptxFailed := "[Could not extract text from PPTX]"
  const TextFailed := "[Could not extract text from TXT]"
  const Unsupported := "[Unsupported file type]"

  /**
   * An uploaded file: its declared MIME type and, for each reader, what the
   * reader yields on its bytes.
   *  - `pdfPages`: per page, `page.extract_text()` (`None` when it returns None);
   *  - `docxParagraphs`: the text of each paragraph;
   *  - `pptxSlides`: per slide, per shape, its text (`None` for a shape
   *    without a `text` attribute);
   *  - `utf8`: the bytes decoded as UTF-8.
   */
  datatype Upload = Upload(
    mimeType: string,
    pdfPages: Option<seq<Option<string>>>,
    docxParagraphs: Option<seq<string>>,
    pptxSlides: Option<seq<seq<Option<string>>>>,
    utf8: Option<string>)

  datatype Format = Pdf | Word | Slides | PlainText | Other

  function FormatOf(mimeType: string): Format {
    if mimeType == PdfType then Pdf
    else if mimeType == DocxType || mimeType == DocType then Word
    else if mimeType == PptxType then Slides
    else if mimeType == TextType then PlainText
    else Other
  }

  /** The sentinel returned when the reader for `f` raises. */
  function FailureText(f: Format): string
    requires f != Other
  {
    match f
    case Pdf => PdfFailed
    case Word => DocxFailed
    case Slides => PptxFailed
    case PlainText => TextFailed
  }

  /** `x or ""` for an optional page text. */
  function OrEmpty(x: Option<string>): string {
    if x.Some? then x.value else ""
  }

  /** The texts of the shapes that have one, slide by slide. */
  function ShapeTexts(slides: seq<seq<Option<string>>>): seq<string> {
    if slides == [] then [] else TextsOf(slides[0]) + ShapeTexts(slides[1..])
  }

  function TextsOf(shapes: seq<Option<string>>): seq<string> {
    if shapes == [] then []
    else (if shapes[0].Some? then [shapes[0].value] else []) + TextsOf(shapes[1..])
  }

  /**
   * The text the reader for `f` produces before truncation, or `None` when
   * that reader raises. For plain text the decoded content is taken whole.
   */
  function Fragments(u: Upload, f: Format): Option<string>
    requires f != Other
  {
    match f
    case Pdf =>
      if u.pdfPages.None? then None
      else Some(Join(" ", seq(|u.pdfPages.value|, k requires 0 <= k < |u.pdfPages.value| => OrEmpty(u.pdfPages.value[k]))))
    case Word =>
      if u.docxParagraphs.None? then None else Some(Join(" ", u.docxParagraphs.value))
    case Slides =>
      if u.pptxSlides.None? then None else Some(Join(" ", ShapeTexts(u.pptxSlides.value)))
    case PlainText => u.utf8
  }

  /**
   * `extract_text_from_file(uploaded_file)`. It never fails: no upload gives
   * "", an unrecognised type gives the unsupported-type sentinel, a reader
   * that raises gives its format's sentinel, and otherwise the result is the
   * first `MaxChars` characters of the reader's text.
   */
  function ExtractText(upload: Option<Upload>): (text: string)
    ensures |text| <= MaxChars
    ensures upload.None? ==> text == ""
    ensures upload.Some? && FormatOf(upload.value.mimeType) == Other ==> text == Unsupported
    ensures upload.Some? && FormatOf(upload.value.mimeType) != Other ==>
      var f := FormatOf(upload.value.mimeType);
      match Fragments(upload.value, f)
      case None => text == FailureText(f)
      case Some(full) =>
        && |text| == (if |full| <= MaxChars then |full| else MaxChars)
        && text == full[..|text|]
  {
    if upload.None? then ""
    else
      var f := FormatOf(upload.value.mimeType);
      if f == Other then Unsupported
      else
        match Fragments(upload.value, f)
        case None => FailureText(f)
        case Some(full) => Prefix(full, MaxChars)
  }

  /** Which reader an upload goes to: the result depends on that reader's output alone. */
  ghost predicate SameReaderOutput(u: Upload, v: Upload) {
    && u.mimeType == v.mimeType
    && match FormatOf(u.mimeType)
       case Pdf => u.pdfPages == v.pdfPages
       case Word => u.docxParagraphs == v.docxParagraphs
       case Slides => u.pptxSlides == v.pptxSlides
       case PlainText => u.utf8 == v.utf8
       case Other => true
  }

  /** Only the reader selected by the MIME type is consulted. */
  lemma OnlySelectedReaderMatters(u: Upload, v: Upload)
    requires SameReaderOutput(u, v)
    ensures ExtractText(Some(u)) == ExtractText(Some(v))
  {
  }
}
