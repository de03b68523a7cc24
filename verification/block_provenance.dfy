/** The provenance/confidence taxonomy for structural blocks
    (Sources/UMAFCore/BlockProvenance.swift). Confidences are tenths. */
module BlockProvenance {
  import opened Wrappers
  import opened Text
  import opened CoreModels

  /** `UMAFVersion.provenance` */
  const ProvenanceVersion: string := "0.5.0"

  const RootTag: string := "umaf:" + ProvenanceVersion + ":root"

  /** What every origin's prefix starts with: `umaf:0.5.0:`. */
  const ProvenanceHead: string := "umaf:" + ProvenanceVersion + ":"

  /** The extraction pathway a document came through. */
  datatype Source = Markdown | Pdfkit | Docx | PlainText | Ocr

  /** Header cell count and the cell count of every row of a table. */
  datatype TableInfo = TableInfo(headerCount: int, rowCounts: seq<int>)

  /** `source(for:)`: the media type, lower-cased, decides the origin;
      the tests run in the order of the source and the first one wins. */
  function SourceFor(mediaType: string): (s: Source)
    ensures var lower := Lower(mediaType);
      && (s == Pdfkit <==> lower == "application/pdf")
      && (s == Docx <==> lower != "application/pdf"
                         && (Contains(lower, "openxmlformats") || lower == "application/rtf"))
      && (s == PlainText ==> lower == "text/plain")
      && (s == Ocr ==> Contains(lower, "ocr"))
      && (s == Markdown ==> lower != "text/plain" && !Contains(lower, "ocr"))
  {
    var lower := Lower(mediaType);
    if lower == "application/pdf" then Pdfkit
    else if Contains(lower, "openxmlformats") || lower == "application/rtf" then Docx
    else if lower == "text/plain" then PlainText
    else if Contains(lower, "ocr") then Ocr
    else Markdown
  }

  /** `prefix(for:)`: each origin has its own fixed prefix. */
  function Prefix(source: Source): (p: string)
    ensures HasPrefix(p, ProvenanceHead)
    ensures source == Markdown <==> p == ProvenanceHead + "markdown"
    ensures source == Pdfkit <==> p == ProvenanceHead + "adapter:pdfkit"
    ensures source == Docx <==> p == ProvenanceHead + "adapter:docx"
    ensures source == PlainText <==> p == ProvenanceHead + "plain-text"
    ensures source == Ocr <==> p == ProvenanceHead + "adapter:ocr"
  {
    ProvenanceHead +
      match source
      case Markdown => "markdown"
      case Pdfkit => "adapter:pdfkit"
      case Docx => "adapter:docx"
      case PlainText => "plain-text"
      case Ocr => "adapter:ocr"
  }

  /** The structural suffixes a non-root tag can end with. */
  const TagSuffixes: set<string> :=
    {":heading-atx", ":bullet", ":paragraph", ":table:pipe",
     ":code:fenced-backtick", ":front-matter:yaml", ":raw"}

  /** The structural suffix of a non-root kind's tag. */
  function KindSuffix(kind: BlockKind): (suffix: string)
    requires kind != Root
    ensures suffix in TagSuffixes
  {
    match kind
    case SectionKind => ":heading-atx"
    case BulletKind => ":bullet"
    case Paragraph => ":paragraph"
    case TableKind => ":table:pipe"
    case Code => ":code:fenced-backtick"
    case FrontMatter => ":front-matter:yaml"
    case Raw => ":raw"
  }

  function HeadingConfidence(source: Source): Tenths
  {
    match source
    case Markdown => 10
    case Docx => 8
    case Pdfkit => 8
    case PlainText => 8
    case Ocr => 8
  }

  function BulletConfidence(source: Source): Tenths
  {
    match source
    case Markdown => 10
    case Docx => 7
    case Pdfkit => 7
    case PlainText => 7
    case Ocr => 7
  }

  function ParagraphConfidence(source: Source): Tenths
  {
    match source
    case Markdown => 9
    case Docx => 8
    case Pdfkit => 8
    case PlainText => 8
    case Ocr => 8
  }

  /** The `ragged` closure of `tableConfidence`. */
  predicate Ragged(tableInfo: Option<TableInfo>)
  {
    match tableInfo
    case None => false
    case Some(info) =>
      info.headerCount <= 0
      || exists i :: 0 <= i < |info.rowCounts| && info.rowCounts[i] != info.headerCount
  }

  /** `tableConfidence`: only a tidy table from markdown reaches 1.0;
      a ragged table is 0.8 from every origin. */
  function TableConfidence(source: Source, tableInfo: Option<TableInfo>): (c: Tenths)
    ensures c == 10 <==> source == Markdown && !Ragged(tableInfo)
    ensures c == 8 <==> Ragged(tableInfo)
    ensures c == 9 <==> source != Markdown && !Ragged(tableInfo)
  {
    var ragged := Ragged(tableInfo);
    match source
    case Markdown => if ragged then 8 else 10
    case _ => if ragged then 8 else 9
  }

  /** `provenanceAndConfidence(for:source:tableInfo:)` */
  function ProvenanceAndConfidence(kind: BlockKind, source: Source, tableInfo: Option<TableInfo>)
    : (r: (string, Tenths))
    ensures kind == Root ==> r == (RootTag, 10)
    ensures kind != Root ==> r.0 == Prefix(source) + KindSuffix(kind)
    ensures kind == SectionKind ==> r.1 == HeadingConfidence(source)
    ensures kind == BulletKind ==> r.1 == BulletConfidence(source)
    ensures kind == Paragraph ==> r.1 == ParagraphConfidence(source)
    ensures kind == TableKind ==> r.1 == TableConfidence(source, tableInfo)
    ensures kind == Code || kind == FrontMatter ==> r.1 == 10
    ensures kind == Raw ==> r.1 == 6
  {
    var prefix := Prefix(source);
    match kind
    case Root => (RootTag, 10)
    case SectionKind => (prefix + ":heading-atx", HeadingConfidence(source))
    case BulletKind => (prefix + ":bullet", BulletConfidence(source))
    case Paragraph => (prefix + ":paragraph", ParagraphConfidence(source))
    case TableKind => (prefix + ":table:pipe", TableConfidence(source, tableInfo))
    case Code => (prefix + ":code:fenced-backtick", 10)
    case FrontMatter => (prefix + ":front-matter:yaml", 10)
    case Raw => (prefix + ":raw", 6)
  }

  /** A non-root tag tells the kind of its block: two kinds never share a tag
      for the same origin. */
  lemma TagDeterminesKind(k1: BlockKind, k2: BlockKind, source: Source, t1: Option<TableInfo>, t2: Option<TableInfo>)
    requires k1 != Root && k2 != Root
    requires ProvenanceAndConfidence(k1, source, t1).0 == ProvenanceAndConfidence(k2, source, t2).0
    ensures k1 == k2
  {
  }

  /** Root is the same pair whatever the origin. */
  lemma RootIndependentOfSource(s1: Source, s2: Source, t1: Option<TableInfo>, t2: Option<TableInfo>)
    ensures ProvenanceAndConfidence(Root, s1, t1) == ProvenanceAndConfidence(Root, s2, t2)
  {
  }

  /** Headings, bullets and paragraphs from markdown are trusted strictly more
      than the same structures from any other origin. */
  lemma MarkdownIsMostConfident(kind: BlockKind, other: Source, t: Option<TableInfo>)
    requires kind == SectionKind || kind == BulletKind || kind == Paragraph
    requires other != Markdown
    ensures ProvenanceAndConfidence(kind, other, t).1 < ProvenanceAndConfidence(kind, Markdown, t).1
  {
  }

  /** The five prefixes are pairwise distinct, so a tag names its origin. */
  lemma PrefixInjective(s1: Source, s2: Source)
    requires Prefix(s1) == Prefix(s2)
    ensures s1 == s2
  {
    var p1, p2 := Prefix(s1), Prefix(s2);
    assert p1[10] == p2[10] && p1[|p1| - 1] == p2[|p2| - 1] && |p1| == |p2|;
  }

  /** Raggedness: no table information is tidy, an empty header is ragged,
      otherwise ragged means some row's cell count differs from the header's. */
  lemma RaggedCases(info: TableInfo)
    ensures !Ragged(None)
    ensures info.headerCount == 0 ==> Ragged(Some(info))
    ensures info.headerCount > 0 ==>
      (Ragged(Some(info)) <==> exists r :: r in info.rowCounts && r != info.headerCount)
  {
    if info.headerCount > 0 && Ragged(Some(info)) {
      var i :| 0 <= i < |info.rowCounts| && info.rowCounts[i] != info.headerCount;
      assert info.rowCounts[i] in info.rowCounts;
    }
  }

  /** A table with no rows is tidy iff it has a header cell. */
  lemma EmptyTableTidy(headerCount: int)
    ensures Ragged(Some(TableInfo(headerCount, []))) <==> headerCount <= 0
  {
  }

  /** The media type's letter case does not change the origin. */
  lemma {:induction false} LowerIdempotent(s: string)
    ensures Lower(Lower(s)) == Lower(s)
  {
    if |s| > 0 {
      LowerIdempotent(s[1..]);
      assert Lower(s)[1..] == Lower(s[1..]);
    }
  }

  lemma SourceForIgnoresCase(mediaType: string)
    ensures SourceFor(Lower(mediaType)) == SourceFor(mediaType)
  {
    LowerIdempotent(mediaType);
  }

  /** `text/html`, in any letter case, is treated as markdown, as the
      provenance tests expect. */
  lemma HtmlIsMarkdown(mediaType: string)
    requires Lower(mediaType) == "text/html"
    ensures SourceFor(mediaType) == Markdown
    ensures Prefix(SourceFor(mediaType)) == "umaf:0.5.0:markdown"
  {
    var lower := Lower(mediaType);
    assert !Contains(lower, "openxmlformats");
    assert 'o' !in lower;
    NotContainsWithoutHead(lower, "ocr");
    MarkdownPrefixSpelledOut();
  }

  /** The markdown prefix, spelled out. */
  lemma MarkdownPrefixSpelledOut()
    ensures ProvenanceHead + "markdown" == "umaf:0.5.0:markdown"
  {
  }
}
