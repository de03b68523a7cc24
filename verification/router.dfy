/** The input router (Sources/UMAFCore/Router.swift): the lower-cased file
    extension decides the media type, the semantic media type the parsers
    see, and how the payload becomes text. The format adapters (HTML to
    markdown-ish text, the DOCX/RTF text extraction, the PDF extraction, the
    JSON re-serialisation) are outside this model and enter as parameters;
    `None` stands for an adapter that throws. */
module Router {
  import opened Wrappers
  import opened Text
  import opened TextNormalization

  const MarkdownType: string := "text/markdown"
  const JsonType: string := "application/json"
  const HtmlType: string := "text/html"
  const RtfType: string := "application/rtf"
  const DocxType: string := "application/vnd.openxmlformats-officedocument.wordprocessingml.document"
  const PdfType: string := "application/pdf"
  const PlainType: string := "text/plain"

  /** `InputRouter.RoutedInput` */
  datatype RoutedInput = RoutedInput(normalizedText: string, mediaType: string, semanticMediaType: string)

  /** What the external adapters produce for this input. */
  datatype Adapters = Adapters(
    canonicalJson: string -> Option<string>,
    htmlToMarkdownish: string -> string,
    extractedPlainText: Option<string>,
    pdfMarkdownish: Option<string>)

  /** The route an extension takes. */
  datatype Route = MarkdownRoute | JsonRoute | HtmlRoute | WordRoute | PdfRoute | PlainRoute

  function RouteFor(ext: string): (route: Route)
    ensures route == MarkdownRoute <==> Lower(ext) == "md"
    ensures route == JsonRoute <==> Lower(ext) == "json"
    ensures route == HtmlRoute <==> Lower(ext) == "html" || Lower(ext) == "htm"
    ensures route == WordRoute <==> Lower(ext) == "rtf" || Lower(ext) == "doc" || Lower(ext) == "docx"
    ensures route == PdfRoute <==> Lower(ext) == "pdf"
  {
    var e := Lower(ext);
    if e == "md" then MarkdownRoute
    else if e == "json" then JsonRoute
    else if e == "html" || e == "htm" then HtmlRoute
    else if e == "rtf" || e == "doc" || e == "docx" then WordRoute
    else if e == "pdf" then PdfRoute
    else PlainRoute
  }

  /** `InputRouter.load(from:data:)`, with the payload already decoded to `raw`. */
  function Load(ext: string, raw: string, adapters: Adapters): (r: Option<RoutedInput>)
    ensures r.None? <==>
      || (RouteFor(ext) == JsonRoute && adapters.canonicalJson(NormalizeLineEndings(raw)).None?)
      || (RouteFor(ext) == WordRoute && adapters.extractedPlainText.None?)
      || (RouteFor(ext) == PdfRoute && adapters.pdfMarkdownish.None?)
    ensures r.Some? ==> r.value.semanticMediaType in {MarkdownType, JsonType, PlainType}
    ensures r.Some? && RouteFor(ext) in {MarkdownRoute, WordRoute, PdfRoute, PlainRoute} ==>
      '\r' !in r.value.normalizedText
    ensures r.Some? && RouteFor(ext) in {MarkdownRoute, PlainRoute} ==>
      r.value.normalizedText == NormalizeLineEndings(raw)
    ensures r.Some? ==>
      (r.value.semanticMediaType == MarkdownType <==> RouteFor(ext) in {MarkdownRoute, HtmlRoute, PdfRoute})
    // The route table, one route at a time.
    ensures RouteFor(ext) == MarkdownRoute ==>
      r == Some(RoutedInput(NormalizeLineEndings(raw), MarkdownType, MarkdownType))
    ensures RouteFor(ext) == JsonRoute && r.Some? ==>
      r.value == RoutedInput(adapters.canonicalJson(NormalizeLineEndings(raw)).value, JsonType, JsonType)
    ensures RouteFor(ext) == HtmlRoute ==>
      r == Some(RoutedInput(adapters.htmlToMarkdownish(raw), HtmlType, MarkdownType))
    ensures RouteFor(ext) == WordRoute && r.Some? ==>
      r.value == RoutedInput(NormalizeLineEndings(adapters.extractedPlainText.value),
                             if Lower(ext) == "rtf" then RtfType else DocxType, PlainType)
    ensures RouteFor(ext) == PdfRoute && r.Some? ==>
      r.value == RoutedInput(NormalizeLineEndings(adapters.pdfMarkdownish.value), PdfType, MarkdownType)
    ensures RouteFor(ext) == PlainRoute ==>
      r == Some(RoutedInput(NormalizeLineEndings(raw), PlainType, PlainType))
  {
    var ext := Lower(ext);
    NormalizeHasNoCR(raw);
    if ext == "md" then
      Some(RoutedInput(NormalizeLineEndings(raw), MarkdownType, MarkdownType))
    else if ext == "json" then
      match adapters.canonicalJson(NormalizeLineEndings(raw))
      case None => None
      case Some(canonical) => Some(RoutedInput(canonical, JsonType, JsonType))
    else if ext == "html" || ext == "htm" then
      Some(RoutedInput(adapters.htmlToMarkdownish(raw), HtmlType, MarkdownType))
    else if ext == "rtf" || ext == "doc" || ext == "docx" then
      var mediaType := if ext == "rtf" then RtfType else DocxType;
      match adapters.extractedPlainText
      case None => None
      case Some(extracted) =>
        NormalizeHasNoCR(extracted);
        Some(RoutedInput(NormalizeLineEndings(extracted), mediaType, PlainType))
    else if ext == "pdf" then
      match adapters.pdfMarkdownish
      case None => None
      case Some(markdownish) =>
        NormalizeHasNoCR(markdownish);
        Some(RoutedInput(NormalizeLineEndings(markdownish), PdfType, MarkdownType))
    else
      Some(RoutedInput(NormalizeLineEndings(raw), PlainType, PlainType))
  }

  /** Routing a markdown or plain-text file's own normalised text again gives
      the same routed input. */
  lemma LoadStable(ext: string, raw: string, adapters: Adapters)
    requires RouteFor(ext) in {MarkdownRoute, PlainRoute}
    ensures Load(ext, raw, adapters).Some?
    ensures Load(ext, Load(ext, raw, adapters).value.normalizedText, adapters) == Load(ext, raw, adapters)
  {
    NormalizeIdempotent(raw);
  }
}
