/** The semantic model produced by the parsers (Sources/UMAFCore/CoreModels.swift)
    and the structural overlay of spans and blocks (Sources/UMAFCore/Envelope.swift).
    Semantic line numbers are 0-based indices into the normalized text's lines;
    structural line numbers are 1-based and inclusive. */
module CoreModels {
  import opened Wrappers

  datatype Section = Section(
    heading: string,
    level: int,
    lines: seq<string>,
    paragraphs: seq<string>,
    startLineIndex: int,
    endLineIndex: int)

  datatype Table = Table(startLineIndex: int, header: seq<string>, rows: seq<seq<string>>)

  datatype CodeBlock = CodeBlock(startLineIndex: int, language: Option<string>, code: string)

  datatype Bullet = Bullet(
    text: string,
    lineIndex: int,
    sectionHeading: Option<string>,
    sectionLevel: Option<int>)

  datatype FrontMatterEntry = FrontMatterEntry(key: string, value: string)

  /** The five lists every parser returns. */
  datatype SemanticModel = SemanticModel(
    sections: seq<Section>,
    bullets: seq<Bullet>,
    frontMatter: seq<FrontMatterEntry>,
    tables: seq<Table>,
    codeBlocks: seq<CodeBlock>)

  /** What the plain-text and swift-markdown adapters return: the text they
      rewrote and the semantic lists addressed against its lines. */
  datatype ParseResult = ParseResult(normalizedText: string, semantic: SemanticModel)

  /** `UMAFCoreEngine.Envelope`: metadata plus the semantic lists. */
  datatype CoreEnvelope = CoreEnvelope(
    version: string,
    docTitle: string,
    docId: string,
    createdAt: string,
    sourceHash: string,
    sourcePath: string,
    mediaType: string,
    encoding: string,
    sizeBytes: int,
    lineCount: int,
    normalized: string,
    sections: seq<Section>,
    bullets: seq<Bullet>,
    frontMatter: seq<FrontMatterEntry>,
    tables: seq<Table>,
    codeBlocks: seq<CodeBlock>)

  // ---------------------------------------------------------------------
  // Structural overlay
  // ---------------------------------------------------------------------

  /** A 1-based inclusive line range, with optional 0-based columns. */
  datatype Span = Span(
    id: string,
    startLine: int,
    endLine: int,
    startColumn: Option<int>,
    endColumn: Option<int>)

  datatype BlockKind = Root | SectionKind | Paragraph | BulletKind | TableKind | Code | FrontMatter | Raw

  /** Confidence scores are the source's Double constants, kept as tenths. */
  type Tenths = c: nat | c <= 10

  datatype Block = Block(
    id: string,
    kind: BlockKind,
    spanId: string,
    parentId: Option<string>,
    level: Option<int>,
    heading: Option<string>,
    language: Option<string>,
    tableHeader: Option<seq<string>>,
    tableRows: Option<seq<seq<string>>>,
    metadata: Option<map<string, string>>,
    provenance: string,
    confidence: Tenths)

  /** The section shape the structured envelope carries (no line indices). */
  datatype EnvelopeSection = EnvelopeSection(
    heading: string,
    level: int,
    lines: seq<string>,
    paragraphs: seq<string>)

  /** The structured envelope the walker produces. */
  datatype StructuredEnvelope = StructuredEnvelope(
    version: string,
    docTitle: string,
    docId: string,
    createdAt: string,
    sourceHash: string,
    sourcePath: string,
    mediaType: string,
    encoding: string,
    sizeBytes: int,
    lineCount: int,
    normalized: string,
    sections: seq<EnvelopeSection>,
    bullets: seq<Bullet>,
    frontMatter: seq<FrontMatterEntry>,
    tables: seq<Table>,
    codeBlocks: seq<CodeBlock>,
    spans: seq<Span>,
    blocks: seq<Block>,
    featureFlags: Option<map<string, bool>>)
}
