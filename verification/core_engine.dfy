/** `UMAFCoreEngine` and its `Transformer` (Sources/UMAFCore/UMAFCoreEngine.swift):
    the title of a markdown document, the JSON envelope and the single entry
    point that routes a file, parses it by its semantic media type and emits
    either the envelope or markdown. The emitter itself is
    `MarkdownEmitter.BuildMarkdown`. */
module CoreEngine {
  import opened Wrappers
  import opened Text
  import opened CoreModels
  import Router
  import LineScanner
  import MarkdownBody
  import MarkdownEmitter
  import EmitterFacts

  // ---------------------------------------------------------------------
  // firstMarkdownHeadingTitle
  // ---------------------------------------------------------------------

  /** The title one line offers: after blanks, a run of `#`, at most one
      space, then the rest trimmed of whitespace and newlines when that is not
      empty. Unlike the scanner's headings the run may be of any length. */
  function LineTitle(raw: string): (r: Option<string>)
    ensures r.Some? ==> r.value != []
  {
    var trimmed := Trim(raw, Whitespaces);
    if trimmed == [] || trimmed[0] != '#' then None
    else
      var title := Trim(MarkdownBody.HeadingText(trimmed), WhitespacesAndNewlines);
      if title == [] then None else Some(title)
  }

  /** The title each line offers. */
  function Titles(lines: seq<string>): (r: seq<Option<string>>)
    ensures |r| == |lines|
    ensures forall i :: 0 <= i < |lines| ==> r[i] == LineTitle(lines[i])
  {
    seq(|lines|, i requires 0 <= i < |lines| => LineTitle(lines[i]))
  }

  /** The first present value of `xs[k..]`. */
  function FirstSome<T>(xs: seq<Option<T>>, k: nat): Option<T>
    decreases |xs| - k
  {
    if k >= |xs| then None
    else if xs[k].Some? then xs[k]
    else FirstSome(xs, k + 1)
  }

  /** What `firstMarkdownHeadingTitle(in:)` returns. */
  function FirstTitle(text: string): Option<string>
  {
    FirstSome(Titles(Split(text, '\n')), 0)
  }

  method FirstMarkdownHeadingTitle(text: string) returns (title: Option<string>)
    ensures title == FirstTitle(text)
  {
    var lines := Split(text, '\n');
    ghost var titles := Titles(lines);
    for k := 0 to |lines|
      invariant FirstSome(titles, k) == FirstTitle(text)
    {
      var trimmed := Trim(lines[k], Whitespaces);
      if trimmed == [] || trimmed[0] != '#' {
        continue;
      }
      var hashes := MarkdownBody.CountHashes(trimmed);
      assert hashes > 0;
      var rest := trimmed[hashes..];
      if rest != [] && rest[0] == ' ' {
        rest := rest[1..];
      }
      var t := Trim(rest, WhitespacesAndNewlines);
      if t != [] {
        return Some(t);
      }
    }
    return None;
  }

  /** A title has no whitespace or newline at either end. */
  lemma LineTitleTrimmed(raw: string)
    requires LineTitle(raw).Some?
    ensures Trim(LineTitle(raw).value, WhitespacesAndNewlines) == LineTitle(raw).value
  {
    var trimmed := Trim(raw, Whitespaces);
    TrimEnds(MarkdownBody.HeadingText(trimmed), WhitespacesAndNewlines);
    TrimOfEnds(LineTitle(raw).value, WhitespacesAndNewlines);
  }

  /** There is a first present value exactly when some value is present;
      it is the first one, and every earlier value is absent. */
  lemma {:induction false} FirstSomeSpec<T>(xs: seq<Option<T>>, k: nat)
    ensures FirstSome(xs, k).Some? <==> exists i :: k <= i < |xs| && xs[i].Some?
    ensures FirstSome(xs, k).Some? ==>
      exists i :: k <= i < |xs| && xs[i] == FirstSome(xs, k) && forall j :: k <= j < i ==> xs[j].None?
    decreases |xs| - k
  {
    if k < |xs| && xs[k].None? {
      FirstSomeSpec(xs, k + 1);
      if FirstSome(xs, k).Some? {
        var i :| k + 1 <= i < |xs| && xs[i] == FirstSome(xs, k + 1) && forall j :: k + 1 <= j < i ==> xs[j].None?;
        assert forall j :: k <= j < i ==> xs[j].None?;
      }
    }
  }

  /** A text has a title exactly when one of its lines offers one. */
  lemma TitleIffSomeLine(lines: seq<string>)
    ensures FirstSome(Titles(lines), 0).Some? <==> exists i :: 0 <= i < |lines| && LineTitle(lines[i]).Some?
  {
    var ts := Titles(lines);
    FirstSomeSpec(ts, 0);
    if FirstSome(ts, 0).Some? {
      var i :| 0 <= i < |ts| && ts[i].Some?;
      assert LineTitle(lines[i]).Some?;
    }
  }

  /** The title of a text is the title of its first line that offers one. */
  lemma TitleOfFirstLine(lines: seq<string>)
    requires FirstSome(Titles(lines), 0).Some?
    ensures exists i :: (0 <= i < |lines| && LineTitle(lines[i]) == FirstSome(Titles(lines), 0)
                         && forall j :: 0 <= j < i ==> LineTitle(lines[j]).None?)
  {
    var ts := Titles(lines);
    FirstSomeSpec(ts, 0);
    var i :| 0 <= i < |ts| && ts[i] == FirstSome(ts, 0) && forall j :: 0 <= j < i ==> ts[j].None?;
    assert LineTitle(lines[i]) == FirstSome(ts, 0);
  }

  /** Any number of `#`, a space and a title give that title, even past the
      six levels the line scanner accepts as a heading. */
  lemma LineTitleNoLevelCap(n: nat, title: string)
    requires 1 <= n
    requires title != [] && title[0] !in WhitespacesAndNewlines && title[|title| - 1] !in WhitespacesAndNewlines
    requires title[0] != '#'
    ensures LineTitle(Repeat("#", n) + " " + title) == Some(title)
    ensures n > 6 ==> !MarkdownBody.IsHeadingText(Trim(Repeat("#", n) + " " + title, Whitespaces))
  {
    var hashes := Repeat("#", n);
    EmitterFacts.HashesAt(n);
    EmitterFacts.TrimOfTrimmedLine(hashes, title);
    assert hashes + " " + title == hashes + (" " + title);
    EmitterFacts.HashRun(hashes, n, " " + title);
    assert (" " + title)[1..] == title;
    TrimOfEnds(title, WhitespacesAndNewlines);
  }

  /** A heading line written by the markdown emitter offers its trimmed
      heading as the title, whatever the level. */
  lemma EmittedHeadingTitle(heading: string, level: int)
    requires var title := Trim(heading, WhitespacesAndNewlines); title != [] && title[0] != '#'
    ensures LineTitle(MarkdownEmitter.HeadingLine(heading, level)) == Some(Trim(heading, WhitespacesAndNewlines))
  {
    var title := Trim(heading, WhitespacesAndNewlines);
    EmitterFacts.HeadingReadBack(heading, level);
    TrimEnds(heading, WhitespacesAndNewlines);
    TrimOfEnds(title, WhitespacesAndNewlines);
  }

  // ---------------------------------------------------------------------
  // buildEnvelope
  // ---------------------------------------------------------------------

  /** `UMAFVersion.string` */
  const Version: string := "umaf-0.5.0"

  /** What the transformer learns about the file outside its text: the name
      without extension, the path, the byte count, the creation time and the
      SHA-256 digest in lower-case hex. */
  datatype FileFacts = FileFacts(baseName: string, path: string, sizeBytes: nat, createdAt: string, hash: string)

  /** A markdown document is titled by its first heading title, falling back
      to the file name; any other document by the file name. */
  function DocTitle(semanticMediaType: string, payload: string, baseName: string): string
  {
    if semanticMediaType == Router.MarkdownType then
      match FirstTitle(payload)
      case Some(t) => t
      case None => baseName
    else baseName
  }

  /** `String(hash.prefix(12))` */
  function DocId(hash: string): (r: string)
    ensures |hash| >= 12 ==> |r| == 12
    ensures |hash| < 12 ==> r == hash
    ensures HasPrefix(hash, r)
  {
    if |hash| < 12 then hash else hash[..12]
  }

  /** `split(separator: "\n", omittingEmptySubsequences: false).count` */
  function LineCount(payload: string): (r: nat)
    ensures r == CountChar(payload, '\n') + 1
  {
    SplitCount(payload, '\n');
    |Split(payload, '\n')|
  }

  /** What `buildEnvelope` returns: the model and payload as given, the
      title, the id and the line count derived, the original media type. */
  function BuildEnvelope(file: FileFacts, mediaType: string, semanticMediaType: string, payload: string,
                         m: SemanticModel): CoreEnvelope
  {
    CoreEnvelope(Version, DocTitle(semanticMediaType, payload, file.baseName), DocId(file.hash),
                 file.createdAt, file.hash, file.path, mediaType, "utf-8", file.sizeBytes,
                 LineCount(payload), payload, m.sections, m.bullets, m.frontMatter, m.tables, m.codeBlocks)
  }

  /** A markdown title is the title of the first line of the payload that
      offers one. */
  lemma DocTitleSpec(semanticMediaType: string, payload: string, baseName: string, lines: seq<string>)
    requires semanticMediaType == Router.MarkdownType && lines == Split(payload, '\n')
    requires exists i :: 0 <= i < |lines| && LineTitle(lines[i]).Some?
    ensures exists i :: (0 <= i < |lines| && LineTitle(lines[i]) == Some(DocTitle(semanticMediaType, payload, baseName))
                         && forall j :: 0 <= j < i ==> LineTitle(lines[j]).None?)
  {
    var first := FirstSome(Titles(lines), 0);
    assert FirstTitle(payload) == first;
    TitleIffSomeLine(lines);
    TitleOfFirstLine(lines);
    assert first == Some(DocTitle(semanticMediaType, payload, baseName));
  }

  /** The file name is the title when no line of the payload offers one or
      the payload is not read as markdown. */
  lemma DocTitleFallback(semanticMediaType: string, payload: string, baseName: string, lines: seq<string>)
    requires lines == Split(payload, '\n')
    requires semanticMediaType != Router.MarkdownType || forall i :: 0 <= i < |lines| ==> LineTitle(lines[i]).None?
    ensures DocTitle(semanticMediaType, payload, baseName) == baseName
  {
    TitleIffSomeLine(lines);
    assert FirstTitle(payload) == FirstSome(Titles(lines), 0);
  }

  // ---------------------------------------------------------------------
  // transformFile
  // ---------------------------------------------------------------------

  /** `OutputFormat` */
  datatype OutputFormat = JsonEnvelope | Markdown

  /** `Transformer.Result` */
  datatype TransformResult = Envelope(envelope: CoreEnvelope) | MarkdownText(markdown: string)

  /** What `transformFile(inputURL:outputFormat:)` returns; `None` when
      routing throws. The parser and the emitter see the semantic media type,
      the envelope records the original one. */
  function Transform(ext: string, raw: string, adapters: Router.Adapters, file: FileFacts,
                     format: OutputFormat): Option<TransformResult>
  {
    match Router.Load(ext, raw, adapters)
    case None => None
    case Some(routed) =>
      var m := LineScanner.SemanticStructure(routed.normalizedText, routed.semanticMediaType);
      match format
      case JsonEnvelope =>
        Some(Envelope(BuildEnvelope(file, routed.mediaType, routed.semanticMediaType, routed.normalizedText, m)))
      case Markdown =>
        Some(MarkdownText(MarkdownEmitter.BuildMarkdownSpec(
          routed.normalizedText, routed.semanticMediaType, m.sections, m.bullets, m.frontMatter, m.tables,
          m.codeBlocks)))
  }

  /** A transform fails only when routing fails. */
  lemma TransformFailsOnlyInRouting(ext: string, raw: string, adapters: Router.Adapters, file: FileFacts,
                                    format: OutputFormat)
    ensures Transform(ext, raw, adapters, file, format).None? <==> Router.Load(ext, raw, adapters).None?
    ensures Transform(ext, raw, adapters, file, format).Some? ==>
      (format == JsonEnvelope <==> Transform(ext, raw, adapters, file, format).value.Envelope?)
  {
  }

  /** An HTML file's envelope says `text/html`, yet its structure, title and
      markdown are those of the markdown the HTML adapter produced. */
  lemma HtmlReadAsMarkdown(raw: string, adapters: Router.Adapters, file: FileFacts)
    ensures var md := adapters.htmlToMarkdownish(raw);
      var m := LineScanner.SemanticStructure(md, Router.MarkdownType);
      && Transform("html", raw, adapters, file, JsonEnvelope)
         == Some(Envelope(CoreEnvelope(Version, DocTitle(Router.MarkdownType, md, file.baseName), DocId(file.hash),
                                       file.createdAt, file.hash, file.path, Router.HtmlType, "utf-8",
                                       file.sizeBytes, LineCount(md), md, m.sections, m.bullets,
                                       m.frontMatter, m.tables, m.codeBlocks)))
      && Transform("html", raw, adapters, file, Markdown)
         == Some(MarkdownText(MarkdownEmitter.BuildMarkdownSpec(md, Router.MarkdownType, m.sections, m.bullets,
                                                                m.frontMatter, m.tables, m.codeBlocks)))
  {
    assert Lower("html") == "html";
  }

  /** A document that is not read as markdown is titled by its file name,
      whatever headings its text holds, and it is one section that holds
      every counted line. */
  lemma PlainEnvelopeShape(ext: string, raw: string, adapters: Router.Adapters, file: FileFacts)
    requires Router.Load(ext, raw, adapters).Some?
    requires Router.RouteFor(ext) !in {Router.MarkdownRoute, Router.HtmlRoute, Router.PdfRoute, Router.JsonRoute}
    ensures var e := Transform(ext, raw, adapters, file, JsonEnvelope).value.envelope;
      && e.docTitle == file.baseName
      && e.mediaType == Router.Load(ext, raw, adapters).value.mediaType
      && |e.sections| == 1
      && |e.sections[0].lines| == e.lineCount
      && Join(e.sections[0].lines, '\n') == e.normalized
  {
    var routed := Router.Load(ext, raw, adapters).value;
    assert routed.semanticMediaType != Router.MarkdownType;
    assert routed.semanticMediaType != LineScanner.Json by {
      assert Router.RouteFor(ext) != Router.JsonRoute;
    }
    LineScanner.PlainTextShape(routed.normalizedText, routed.semanticMediaType);
  }

  /** A JSON file's envelope has no structure and carries the canonical JSON;
      its markdown is that JSON in a `json` fence. */
  lemma JsonEnvelopeShape(raw: string, adapters: Router.Adapters, file: FileFacts)
    requires Router.Load("json", raw, adapters).Some?
    ensures var canonical := Router.Load("json", raw, adapters).value.normalizedText;
      var e := Transform("json", raw, adapters, file, JsonEnvelope).value.envelope;
      && e.mediaType == Router.JsonType
      && e.docTitle == file.baseName
      && e.normalized == canonical
      && e.sections == [] && e.bullets == [] && e.frontMatter == [] && e.tables == [] && e.codeBlocks == []
      && Transform("json", raw, adapters, file, Markdown).value == MarkdownText(MarkdownEmitter.Fenced("json", canonical))
  {
    assert Lower("json") == "json";
  }
}
