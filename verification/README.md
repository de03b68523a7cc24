# UMAF semantic structuring core, in Dafny

UMAF turns a document into a line-addressed structure. A file is routed by its
extension to a media type and a semantic media type. Its text is normalised to
`\n` line endings and parsed into semantic lists: sections, bullets, front
matter, pipe tables and fenced code blocks. The result is emitted either as
canonical markdown or as an envelope. The v0.5 walker then lays a tree of
1-based spans and blocks over the lines of that envelope.

This project models that pipeline and proves what each stage guarantees.

- **Inputs.** The router's extension table (`Router`) and line-ending
  normalisation (`TextNormalization`).
- **Parsers.** The hand-written markdown line scanner: front matter
  (`FrontMatter`), the fenced body loop with ATX headings and bullets
  (`MarkdownBody`, proved against the reference definitions of
  `MarkdownStructure`, with facts in `MarkdownFacts`) and pipe tables
  (`Tables`). Also the line canonicaliser (`MarkdownLines`), paragraph
  building (`Paragraphs`), the plain-text and legacy fallbacks
  (`PlainTextAdapter`, `LegacyAdapter`), and the section loop of the
  swift-markdown adapter (`SwiftMarkdownAdapter`).
  - `canonicalizeMarkdownLines`, `makeParagraphs` and `leadingIndentWidth`
    appear as identical code in LineScanner.swift, PlainTextAdapter.swift and
    LegacyAdapter.swift. Each is modelled once, and every adapter calls the
    shared member.
  - In the same way, `buildMarkdownFromSemantic` in UMAFCoreEngine.swift is
    line for line `LegacyAdapter.buildMarkdown`, and both are
    `MarkdownEmitter.BuildMarkdown`.
- **Emitter.** The markdown emitter (`MarkdownEmitter`), and the proof that the
  scanner reads what it writes back as the values it was written from
  (`EmitterFacts`).
- **Provenance.** The provenance and confidence taxonomy of blocks
  (`BlockProvenance`).
- **Engine.** The core engine's title, id and line-count rules and its single
  transform entry point (`CoreEngine`).
- **Walker.** The v0.5 structural walker:
  - per-prefix ids (`WalkerIds`);
  - item placements (`WalkerPlacements`);
  - section heading location (`WalkerSections`);
  - line sets and the two run scans (`WalkerRanges`);
  - the item order (`WalkerItems`);
  - the emission phases (`WalkerEmit`, with their invariants in
    `WalkerInvariants` and their shapes in `WalkerShape`);
  - `build` and `ensureRootSpanAndBlock` (`WalkerBuild`), and what `build`
    guarantees about the envelope it returns (`WalkerBuildFacts`).

Code that mutates state in the source is modelled the same way throughout:
- A loop becomes a `method` with a `while` loop. The method is proved equal to
  a recursive specification function, and the lemmas are about that function.
- `StableIDGenerator` is a class whose `counts` map is updated in place.
- The walker's emission loops are methods that update the generator.

Two conventions hold throughout:
- Semantic line numbers are 0-based indices into the normalised text's lines.
- Structural (span) line numbers are 1-based and inclusive.

## Model

| member | source | states |
|---|---|---|
| BlockProvenance.SourceFor | Sources/UMAFCore/BlockProvenance.swift:26-34 | the origin is decided on the lower-cased media type, first match wins: `application/pdf` is PDFKit, anything containing `openxmlformats` or equal to `application/rtf` is DOCX, `text/plain` is plain text, anything containing `ocr` is OCR, everything else markdown |
| BlockProvenance.Prefix | Sources/UMAFCore/BlockProvenance.swift:36-44 | every prefix starts with `umaf:0.5.0:`, and the prefix is exactly `umaf:0.5.0:markdown`, `umaf:0.5.0:adapter:pdfkit`, `umaf:0.5.0:adapter:docx`, `umaf:0.5.0:plain-text` or `umaf:0.5.0:adapter:ocr` if and only if the origin is markdown, PDFKit, DOCX, plain text or OCR respectively |
| BlockProvenance.TableConfidence | Sources/UMAFCore/BlockProvenance.swift:111-123 | 1.0 exactly for a tidy markdown table, 0.8 exactly when ragged, 0.9 exactly for a tidy table from any other origin |
| BlockProvenance.ProvenanceAndConfidence | Sources/UMAFCore/BlockProvenance.swift:46-109 | root is (`umaf:0.5.0:root`, 1.0); every other kind's tag is the origin's prefix followed by that kind's own suffix (`:heading-atx`, `:bullet`, `:paragraph`, `:table:pipe`, `:code:fenced-backtick`, `:front-matter:yaml`, `:raw`); sections, bullets, paragraphs and tables take the heading, bullet, paragraph and table confidence of their origin, code and front matter 1.0, raw 0.6; every confidence lies in [0, 1] |
| BlockProvenance.TagDeterminesKind | Sources/UMAFCore/BlockProvenance.swift:57-77 | for one origin, two non-root kinds with the same tag are the same kind: each kind has its own suffix |
| BlockProvenance.RootIndependentOfSource | Sources/UMAFCore/BlockProvenance.swift:54-55 | the root pair does not depend on the origin or the table information |
| BlockProvenance.MarkdownIsMostConfident | Sources/UMAFCore/BlockProvenance.swift:81-109 | headings, bullets and paragraphs from markdown get a strictly higher confidence than from any other origin |
| BlockProvenance.PrefixInjective | Sources/UMAFCore/BlockProvenance.swift:36-44 | different origins have different prefixes, so a tag names its origin |
| BlockProvenance.RaggedCases | Sources/UMAFCore/BlockProvenance.swift:112-116 | no table information is tidy; a header of 0 cells is ragged; otherwise ragged iff some row's cell count differs from the header's |
| BlockProvenance.EmptyTableTidy | Sources/UMAFCore/BlockProvenance.swift:112-116 | a table without rows is tidy exactly when its header has cells |
| BlockProvenance.SourceForIgnoresCase | Sources/UMAFCore/BlockProvenance.swift:27 | the origin does not depend on the media type's letter case |
| BlockProvenance.HtmlIsMarkdown | Sources/UMAFCore/BlockProvenance.swift:32-33 | `text/html`, in any letter case, is markdown and gets the `umaf:0.5.0:markdown` prefix |
| TextNormalization.NormalizeIsOnePass | Sources/UMAFCore/Inputs/TextNormalization.swift:12-16 | the two chained replacements equal a one-pass rewrite in which each CRLF pair and each lone CR become one LF |
| TextNormalization.NormalizeHasNoCR | Sources/UMAFCore/Inputs/TextNormalization.swift:12-16 | the output contains no carriage return |
| TextNormalization.NormalizeUnchangedWithoutCR | Sources/UMAFCore/Inputs/TextNormalization.swift:12-16 | a text without a carriage return is returned unchanged |
| TextNormalization.NormalizeIdempotent | Sources/UMAFCore/Inputs/TextNormalization.swift:12-16 | normalising twice is normalising once |
| TextNormalization.OnePassConcat | Sources/UMAFCore/Inputs/TextNormalization.swift:13-14 | the rewrite of a concatenation is the concatenation of the rewrites when no CRLF pair straddles the cut |
| TextNormalization.CRLFBecomesOneLF | Sources/UMAFCore/Inputs/TextNormalization.swift:13-14 | CRLF is replaced before lone CR, so each `\r\n` becomes exactly one `\n` whatever surrounds it |
| Router.RouteFor | Sources/UMAFCore/Router.swift:47-50 | the lower-cased extension picks the route: `md`, `json`, `html`/`htm`, `rtf`/`doc`/`docx`, `pdf`, and everything else plain, each iff its extension matches |
| Router.Load | Sources/UMAFCore/Router.swift:45-127 | fails exactly when the JSON payload does not re-serialise, the rtf/doc/docx text extraction fails or the PDF extraction fails; md gives (its normalised text, markdown, markdown), json (the re-serialised normalised text, JSON, JSON), html/htm (the HTML converter's output for the raw text, HTML, markdown), rtf and doc/docx (the normalised extracted text, RTF or DOCX, plain text), pdf (the normalised PDF markdown, PDF, markdown), and every other extension (its normalised text, plain text, plain text) |
| Router.LoadStable | Sources/UMAFCore/Router.swift:50-125 | routing a markdown or plain-text file's own normalised text again gives the same routed input |
| Paragraphs.LeadingIndentWidth | Sources/UMAFCore/Parsing/Markdown/LineScanner.swift:355-361 | the loop computes the indent width, counting a space as 1 and a tab as 2 up to the first other character |
| Paragraphs.StripLeadingIndent | Sources/UMAFCore/Parsing/Markdown/LineScanner.swift:326-335 | the `while c < commonIndent` loop computes `StripIndent` |
| Paragraphs.FlushBuffer | Sources/UMAFCore/Parsing/Markdown/LineScanner.swift:311-342 | `flush` appends nothing for an empty buffer, else one paragraph: the buffer's lines with the common indent cut, joined by `\n` |
| Paragraphs.MakeParagraphs | Sources/UMAFCore/Parsing/Markdown/LineScanner.swift:307-353 | the loop computes the reference `ParagraphsOf` |
| Paragraphs.ParagraphsAreRuns | Sources/UMAFCore/Parsing/Markdown/LineScanner.swift:344-351 | `makeParagraphs` yields one paragraph per maximal run of non-blank lines, in order |
| Paragraphs.GroupsSpec | Sources/UMAFCore/Parsing/Markdown/LineScanner.swift:344-351 | the runs are non-empty and hold only non-blank lines; together they are the non-blank lines in order; there are as many as there are run ends |
| Paragraphs.MinWidthSpec | Sources/UMAFCore/Parsing/Markdown/LineScanner.swift:314-322 | the common indent is absent iff every line is blank, else it is the smallest indent of a non-blank line and some line has it |
| Paragraphs.StripIndentSpec | Sources/UMAFCore/Parsing/Markdown/LineScanner.swift:327-334 | stripping removes a prefix of spaces and tabs; nothing for n ≤ 0; a weight between n and n + 1 when n is at most the indent, since a tab may overshoot; the whole indent when n is the indent |
| Paragraphs.StripIndentNonBlank | Sources/UMAFCore/Parsing/Markdown/LineScanner.swift:327-334 | a non-blank line keeps a character after its indent is cut |
| Paragraphs.RunIndentStripped | Sources/UMAFCore/Parsing/Markdown/LineScanner.swift:314-338 | within a run the common indent is at most every line's indent, every line loses it, and some line then has no indent left |
| Paragraphs.ParagraphNonEmpty | Sources/UMAFCore/Parsing/Markdown/LineScanner.swift:340 | no paragraph is empty |
| Paragraphs.ParagraphsSpec | Sources/UMAFCore/Parsing/Markdown/LineScanner.swift:307-353 | one non-empty paragraph per run end; the k-th is the k-th run with its common indent cut, joined by `\n` |
| MarkdownLines.RightTrim | Sources/UMAFCore/Parsing/Markdown/LineScanner.swift:375-381 | the `removeLast` loop computes `RightTrimmed`, which drops trailing spaces and tabs |
| MarkdownLines.DropLeadingEmptySpec | Sources/UMAFCore/Parsing/Markdown/LineScanner.swift:93 | the front loop cuts a prefix made only of empty lines, and the result is empty or starts with a non-empty line |
| MarkdownLines.DropTrailingEmptySpec | Sources/UMAFCore/Parsing/Markdown/LineScanner.swift:94 | the back loop cuts a suffix made only of empty lines, and the result is empty or ends with a non-empty line |
| MarkdownLines.FindLastNonBlank | Sources/UMAFCore/Parsing/Markdown/LineScanner.swift:56-63 | the reversed search returns the last output line that is not blank, or none |
| MarkdownLines.FindNextNonBlank | Sources/UMAFCore/Parsing/Markdown/LineScanner.swift:64-72 | the look-ahead returns the right-trim of the first non-blank line after the current one, or none |
| MarkdownLines.StripEmptyEnds | Sources/UMAFCore/Parsing/Markdown/LineScanner.swift:93-94 | the two closing loops compute `StripEmpty` |
| MarkdownLines.ScanLine | Sources/UMAFCore/Parsing/Markdown/LineScanner.swift:30-90 | one loop iteration computes `Step`: a fence line toggles the fence and is kept right-trimmed; inside a fence a line is kept verbatim; a blank line is dropped between two list items or after a blank, else one `""` is emitted; any other line is kept right-trimmed |
| MarkdownLines.ScanLines | Sources/UMAFCore/Parsing/Markdown/LineScanner.swift:28-91 | the loop computes `Scan` over all lines |
| MarkdownLines.CanonicalizeMarkdownLines | Sources/UMAFCore/Parsing/Markdown/LineScanner.swift:12-96 | the whole routine computes `Canonical` |
| MarkdownLines.CanonicalEnds | Sources/UMAFCore/Parsing/Markdown/LineScanner.swift:93-95 | the result is no longer than the input, and it neither starts nor ends with an empty line |
| MarkdownLines.CanonicalRendered | Sources/UMAFCore/Parsing/Markdown/LineScanner.swift:33-90 | each returned line is its origin's input line: right-trimmed for fence and kept lines, verbatim inside a fence, `""` for a blank |
| MarkdownLines.CanonicalAscending | Sources/UMAFCore/Parsing/Markdown/LineScanner.swift:28-91 | the returned lines keep the input order, and each input line is used at most once |
| MarkdownLines.CanonicalComplete | Sources/UMAFCore/Parsing/Markdown/LineScanner.swift:33-90 | every non-blank input line is returned, from its own origin and not as a blank |
| MarkdownLines.CanonicalBlanksFollowed | Sources/UMAFCore/Parsing/Markdown/LineScanner.swift:54-86 | every returned blank line except a final one is followed by a kept line or a fence line |
| MarkdownLines.CanonicalCollapsesBlankRuns | Sources/UMAFCore/Parsing/Markdown/LineScanner.swift:76-84 | outside fences a run of blank lines becomes one empty line: an unfenced empty line is followed by a non-empty unfenced line |
| MarkdownLines.CanonicalBlankRun | Sources/UMAFCore/Parsing/Markdown/LineScanner.swift:50-95 | outside fences, a run of blank lines between a visible line and the next non-blank line comes out as exactly one empty line between their outputs, unless both neighbours are list items (or no blank line separates them), in which case their outputs are adjacent |
| MarkdownLines.CanonicalRightTrimmed | Sources/UMAFCore/Parsing/Markdown/LineScanner.swift:88-90 | outside fences no returned line ends with a space or a tab |
| MarkdownLines.CanonicalBlankNotBetweenItems | Sources/UMAFCore/Parsing/Markdown/LineScanner.swift:54-75 | a returned blank line never stands for a blank input line whose nearest non-blank neighbours are both list items |
| MarkdownLines.RenderNonEmpty | Sources/UMAFCore/Parsing/Markdown/LineScanner.swift:33-90 | a fence or kept line is never empty after right-trimming |
| FrontMatter.StripOuterQuotes | Sources/UMAFCore/Parsing/Markdown/LineScanner.swift:366-372 | a value of length at least 2 that starts and ends with the same `"` or `'` loses exactly those two characters; any other value is returned unchanged |
| FrontMatter.StripQuotedValue | Sources/UMAFCore/Parsing/Markdown/LineScanner.swift:366-372 | wrapping a value in one pair of quotes and stripping them gives the value back |
| FrontMatter.EntryOfSpec | Sources/UMAFCore/Parsing/Markdown/LineScanner.swift:129-134 | a line gives an entry iff it has a colon and the text before the first colon is not blank; the key is then non-empty, has no colon, and has no space or tab at either end |
| FrontMatter.EntryLineRoundTrip | Sources/UMAFCore/Parsing/Markdown/LineScanner.swift:129-134 | a `key: value` line with a trimmed colon-free key and a trimmed unquoted value reads back as exactly that entry |
| FrontMatter.ReadFromSpec | Sources/UMAFCore/Parsing/Markdown/LineScanner.swift:121-136 | the scanner reads up to and including the first closing `---`, or to the end when there is none, and keeps the entries of the lines in between, in order |
| FrontMatter.ReadFrontMatter | Sources/UMAFCore/Parsing/Markdown/LineScanner.swift:116-137 | the loop computes the scanner's header: no entries and start 0 unless the first line trims to `---` |
| FrontMatter.ParseFrontMatter | Sources/UMAFCore/Parsing/Markdown/SwiftMarkdownAdapter.swift:181-208 | the loop returns the entries before the closing line and that line's index, or `([], -1)` when the first line does not open front matter or no line closes it |
| FrontMatter.ReadersAgree | Sources/UMAFCore/Parsing/Markdown/LineScanner.swift:116-137 | with a closing `---`, the scanner and the adapter read the same entries, and the scanner resumes right after the closing line the adapter reports |
| FrontMatter.ReadersDisagreeWhenUnclosed | Sources/UMAFCore/Parsing/Markdown/SwiftMarkdownAdapter.swift:206 | without a closing `---`, the scanner consumes every line and keeps its entries, while the adapter reports no front matter |
| MarkdownBody.FenceLanguage | Sources/UMAFCore/Parsing/Markdown/LineScanner.swift:192-193 | a fence's language is absent when nothing follows the backticks and spaces; otherwise it is non-empty and starts with neither a backtick nor a space |
| MarkdownBody.CountHashes | Sources/UMAFCore/Parsing/Markdown/LineScanner.swift:233-236 | the counting loop yields the number of leading `#` |
| MarkdownBody.ScanFence | Sources/UMAFCore/Parsing/Markdown/LineScanner.swift:187-209 | the fence branch computes `ToggleFence`: an opening fence records the start line and the language; a closing fence appends the block with its lines joined by `\n`; the open section keeps the fence line |
| MarkdownBody.ScanOutside | Sources/UMAFCore/Parsing/Markdown/LineScanner.swift:211-248 | the branch for a line outside fences computes `OutsideLine`: a bullet line adds a bullet tagged with the open section; a heading of 1 to 6 `#` flushes the section and opens a new one; any other line joins the open section |
| MarkdownBody.ScanMarkdownLine | Sources/UMAFCore/Parsing/Markdown/LineScanner.swift:183-249 | one loop iteration computes `MdStep` |
| MarkdownStructure.FenceIndices | Sources/UMAFCore/Parsing/Markdown/LineScanner.swift:187 | lists the fence lines of a range, in ascending order |
| MarkdownStructure.HeadingIndices | Sources/UMAFCore/Parsing/Markdown/LineScanner.swift:232-246 | lists the heading lines outside fences, in ascending order |
| MarkdownStructure.BulletIndices | Sources/UMAFCore/Parsing/Markdown/LineScanner.swift:211-219 | lists the bullet lines outside fences, in ascending order |
| MarkdownStructure.SectionsOf | Sources/UMAFCore/Parsing/Markdown/LineScanner.swift:171-250 | there is one section per heading line outside fences; it holds the lines up to the next heading line and their paragraphs |
| MarkdownStructure.BulletsOf | Sources/UMAFCore/Parsing/Markdown/LineScanner.swift:211-219 | there is one bullet per bullet line outside fences, tagged with the last heading before it |
| MarkdownStructure.CodeBlocksOf | Sources/UMAFCore/Parsing/Markdown/LineScanner.swift:187-209 | there is one code block per pair of fence lines; a last unpaired fence yields none |
| MarkdownStructure.OpenHeading | Sources/UMAFCore/Parsing/Markdown/LineScanner.swift:214-243 | during the loop, the open heading and level are those of the last heading line seen |
| MarkdownStructure.MdStepKeepsInv | Sources/UMAFCore/Parsing/Markdown/LineScanner.swift:183-249 | one iteration keeps the loop invariant tying the locals to the reference lists of the lines scanned so far |
| MarkdownStructure.FinalLists | Sources/UMAFCore/Parsing/Markdown/LineScanner.swift:250 | after the last line, the final flush gives exactly `SectionsOf`, `BulletsOf` and `CodeBlocksOf` |
| MarkdownStructure.ParseMarkdownBody | Sources/UMAFCore/Parsing/Markdown/LineScanner.swift:183-250 | the loop and the final flush return `SectionsOf`, `BulletsOf` and `CodeBlocksOf` of the lines |
| MarkdownFacts.CodeBlocksOrdered | Sources/UMAFCore/Parsing/Markdown/LineScanner.swift:187-209 | the j-th code block starts at the (2j)-th fence line, which comes before its closing fence; the next block starts after that closing fence |
| MarkdownFacts.CodeBlockContents | Sources/UMAFCore/Parsing/Markdown/LineScanner.swift:192-222 | a block lies between two fence lines with no fence line in between; its code is the inner lines joined by `\n`; its language, when present, is non-empty and starts with neither a backtick nor a space |
| MarkdownFacts.InsideBlockIsInFence | Sources/UMAFCore/Parsing/Markdown/LineScanner.swift:187-225 | a line after an opening fence, up to and including its closing fence, is read inside the fence |
| MarkdownFacts.SectionsSpec | Sources/UMAFCore/Parsing/Markdown/LineScanner.swift:171-250 | there is one section per heading line, in order; its heading and level (1 to 6) come from that line; its lines are exactly those up to the next heading line, with their paragraphs |
| MarkdownFacts.SectionsCover | Sources/UMAFCore/Parsing/Markdown/LineScanner.swift:207-248 | the heading lines, each followed by its section's lines, rebuild every line from the first heading on |
| MarkdownFacts.HeadingsOutsideCode | Sources/UMAFCore/Parsing/Markdown/LineScanner.swift:221-246 | a heading line never lies inside a code block |
| MarkdownFacts.BulletTextNonEmpty | Sources/UMAFCore/Parsing/Markdown/LineScanner.swift:212-213 | a trimmed bullet line has non-empty text after its marker |
| MarkdownFacts.BulletsSpec | Sources/UMAFCore/Parsing/Markdown/LineScanner.swift:211-219 | every bullet comes from a bullet line outside fences, in line order, with non-empty text, tagged with the heading and level of the last heading before it (none before the first heading) |
| MarkdownFacts.BulletsOutsideCode | Sources/UMAFCore/Parsing/Markdown/LineScanner.swift:211-219 | no bullet is read inside a code block |
| LineScanner.PlainBulletText | Sources/UMAFCore/Parsing/Markdown/LineScanner.swift:142-148 | a plain bullet's text is non-empty and has no space or tab at either end |
| LineScanner.CollectPlainBullets | Sources/UMAFCore/Parsing/Markdown/LineScanner.swift:141-152 | the loop computes `PlainBullets`, with line indices shifted by the given offset |
| LineScanner.PlainBulletsSound | Sources/UMAFCore/Parsing/Markdown/LineScanner.swift:141-152 | each plain bullet comes from a line whose bullet text it carries; it is tagged with the "Document" section at level 1; bullets come in strictly ascending line order |
| LineScanner.PlainBulletsComplete | Sources/UMAFCore/Parsing/Markdown/LineScanner.swift:141-152 | every line with bullet text yields a bullet at its own index |
| LineScanner.HeaderWithin | Sources/UMAFCore/Parsing/Markdown/LineScanner.swift:121-136 | the body starts at most at the line count |
| LineScanner.ParseSemanticStructure | Sources/UMAFCore/Parsing/Markdown/LineScanner.swift:98-305 | the method returns `SemanticStructure`: nothing for JSON; for other non-markdown text, one "Document" section and plain bullets; for markdown, the front matter, the body's sections, bullets and code blocks, and the tables after the front matter |
| LineScanner.PlainTextShape | Sources/UMAFCore/Parsing/Markdown/LineScanner.swift:139-159 | non-markdown, non-JSON text is one "Document" section at level 1 whose lines rejoin to the text; there is no front matter, table or code block; each bullet carries its line's bullet text under "Document", level 1 |
| LineScanner.FrontMatterNotBody | Sources/UMAFCore/Parsing/Markdown/LineScanner.swift:136-252 | in markdown, every bullet, table and code block starts at or after the first line past the front matter |
| PlainTextAdapter.ParseAndNormalize | Sources/UMAFCore/Parsing/PlainTextAdapter.swift:22-82 | the method returns `PlainTextParse`: the canonical lines under `# Document` and a blank line, one section, and bullets shifted by 2 |
| PlainTextAdapter.NormalizedTextLines | Sources/UMAFCore/Parsing/PlainTextAdapter.swift:26-36 | splitting the rewritten text at `\n` gives back the heading, the blank line and the canonical lines |
| PlainTextAdapter.PlainTextSection | Sources/UMAFCore/Parsing/PlainTextAdapter.swift:61-81 | there is one "Document" section at level 1 spanning line 0 to the last rewritten line; its lines are the rewritten lines after the heading; there is no front matter, table or code block |
| PlainTextAdapter.PlainTextBullets | Sources/UMAFCore/Parsing/PlainTextAdapter.swift:39-59 | each bullet's index names the rewritten line, below the heading, whose bullet text it carries, under "Document" at level 1 |
| LegacyAdapter.Parse | Sources/UMAFCore/Parsing/Legacy/LegacyAdapter.swift:15-46 | the method returns `LegacyParse` |
| LegacyAdapter.LegacyIsScannerPlainText | Sources/UMAFCore/Parsing/Legacy/LegacyAdapter.swift:15-46 | the fallback parser gives the same model as the line scanner for every media type that is neither JSON nor markdown |
| LegacyAdapter.LegacyParseShape | Sources/UMAFCore/Parsing/Legacy/LegacyAdapter.swift:40-45 | there is one "Document" section at level 1 over all lines, with their paragraphs; there is no front matter, table or code block |
| LegacyAdapter.LegacyBulletsSpec | Sources/UMAFCore/Parsing/Legacy/LegacyAdapter.swift:25-38 | each bullet carries its own line's bullet text under "Document" at level 1; a line yields a bullet iff it has bullet text |
| Tables.Cells | Sources/UMAFCore/Parsing/Markdown/LineScanner.swift:263-267 | a line's cells are non-empty, trimmed and free of `\|` |
| Tables.RowsEnd | Sources/UMAFCore/Parsing/Markdown/LineScanner.swift:283-294 | the rows stop at the first line without `\|` or without a cell; every line before it is a row |
| Tables.ReadRows | Sources/UMAFCore/Parsing/Markdown/LineScanner.swift:281-294 | the inner loop stops at `RowsEnd` and collects the cells of every line before it |
| Tables.DetectAt | Sources/UMAFCore/Parsing/Markdown/LineScanner.swift:256-301 | one pass finds the table opened at line `i` when there is one; the scan resumes after its rows, or at the next line when there is none; the tables from `i` are the one found followed by those from where the scan resumes |
| Tables.DetectTables | Sources/UMAFCore/Parsing/Markdown/LineScanner.swift:252-302 | the loop returns `DetectedTables`, the tables found from the body's first line on |
| Tables.TablesFromStep | Sources/UMAFCore/Parsing/Markdown/LineScanner.swift:258-301 | a table opens at `i` iff both lines hold `\|`, the second is a separator of dashes and colons, and a row follows; the scan then resumes after the rows, else at `i + 1` |
| Tables.TableAtWellPlaced | Sources/UMAFCore/Parsing/Markdown/LineScanner.swift:275-298 | a found table has the header line's cells and at least one non-empty row; its rows are the row lines after the separator, ending where the scan resumes |
| Tables.TablesWellPlaced | Sources/UMAFCore/Parsing/Markdown/LineScanner.swift:252-302 | every table found from line `i` starts at or after `i` and is well placed |
| Tables.TablesOrdered | Sources/UMAFCore/Parsing/Markdown/LineScanner.swift:296-298 | tables do not overlap: each starts at or after the line where the previous one's rows end |
| MarkdownEmitter.Clamp | Sources/UMAFCore/Parsing/Legacy/LegacyAdapter.swift:86 | a level is clamped into 1..6, and a level already in range is kept |
| MarkdownEmitter.DocBullets | Sources/UMAFCore/Parsing/Legacy/LegacyAdapter.swift:119-121 | the filter keeps exactly the bullets of the "Document" section or of no section |
| MarkdownEmitter.RunEnd | Sources/UMAFCore/Parsing/Legacy/LegacyAdapter.swift:136 | a bullet run ends at the first line that is not a bullet's; every line before it is one |
| MarkdownEmitter.LastBlank | Sources/UMAFCore/Parsing/Legacy/LegacyAdapter.swift:153-159 | the blank-skipping loop stops at the last line of the run of blank lines |
| MarkdownEmitter.EmitFrontMatter | Sources/UMAFCore/Parsing/Legacy/LegacyAdapter.swift:65-70 | the loop writes nothing for no entries, else `---`, one `key: value` line per entry, `---` and a blank |
| MarkdownEmitter.EmitParagraphs | Sources/UMAFCore/Parsing/Legacy/LegacyAdapter.swift:93-96 | the loop writes the paragraphs with a blank line after each except the last |
| MarkdownEmitter.EmitSection | Sources/UMAFCore/Parsing/Legacy/LegacyAdapter.swift:86-102 | one section becomes its heading line and its body, followed by a blank unless it is the last section; the body is the paragraphs when the document has no table or code block, else the raw lines |
| MarkdownEmitter.EmitSections | Sources/UMAFCore/Parsing/Legacy/LegacyAdapter.swift:85-103 | the loop writes the blocks of all sections in order |
| MarkdownEmitter.EmitRun | Sources/UMAFCore/Parsing/Legacy/LegacyAdapter.swift:134-148 | the run loop stops at `RunEnd` and writes one re-indented bullet line per line that has a bullet |
| MarkdownEmitter.SkipBlanks | Sources/UMAFCore/Parsing/Legacy/LegacyAdapter.swift:153-159 | the loop stops at `LastBlank` |
| MarkdownEmitter.EmitDocumentBody | Sources/UMAFCore/Parsing/Legacy/LegacyAdapter.swift:129-161 | the loop computes `DocBody`: each bullet run becomes its bullet lines and one blank; a blank line swallows the blank lines after it; every other line is copied |
| MarkdownEmitter.DocBodyStep | Sources/UMAFCore/Parsing/Legacy/LegacyAdapter.swift:130-161 | one pass of the loop, case by case, as in `DocBody` |
| MarkdownEmitter.BuildMarkdown | Sources/UMAFCore/Parsing/Legacy/LegacyAdapter.swift:50-169 | the method returns `BuildMarkdownSpec`: markdown with neither front matter nor sections is the payload itself, any other markdown is the canonicalised front matter and sections; JSON and section-less text are fenced as `json` and `text`; other text is its "Document" section with its bullets re-indented |
| EmitterFacts.HeadingReadBack | Sources/UMAFCore/Parsing/Legacy/LegacyAdapter.swift:86-89 | an emitted heading line is read by the markdown scanner as a heading of the clamped level with the trimmed title, unless the title starts with `#` |
| EmitterFacts.BulletReadBack | Sources/UMAFCore/Parsing/Legacy/LegacyAdapter.swift:140-143 | an emitted bullet line, at any depth, reads back with the same text both as a plain bullet and as a markdown bullet |
| EmitterFacts.EntryLineReadBack | Sources/UMAFCore/Parsing/Legacy/LegacyAdapter.swift:67 | a written entry line reads back as that entry and is not a delimiter |
| EmitterFacts.FrontMatterReadBack | Sources/UMAFCore/Parsing/Legacy/LegacyAdapter.swift:65-70 | emitted front matter, whatever follows it, is read back by the scanner as the same entries, and the body starts right after the closing `---` |
| EmitterFacts.FencedReadBack | Sources/UMAFCore/Parsing/Legacy/LegacyAdapter.swift:107-166 | a fenced payload with no fence line inside reads back as exactly one code block at line 0, tagged with the fence's tag and holding the payload |
| EmitterFacts.SpacedSpec | Sources/UMAFCore/Parsing/Legacy/LegacyAdapter.swift:93-96 | spaced paragraphs sit at the even positions with a blank between each two and none after the last |
| EmitterFacts.DocBodyWithoutBullets | Sources/UMAFCore/Parsing/Legacy/LegacyAdapter.swift:129-161 | without bullets, the document branch copies the lines and keeps only the first of each run of blank lines |
| EmitterFacts.FirstAtSpec | Sources/UMAFCore/Parsing/Legacy/LegacyAdapter.swift:137 | the first bullet at a line is a bullet at that line, and there is one exactly when some bullet is at that line |
| EmitterFacts.LineSetHasBullets | Sources/UMAFCore/Parsing/Legacy/LegacyAdapter.swift:122-137 | every line in the bullet line set has a first bullet at it, so the `if let` never skips |
| EmitterFacts.RunLength | Sources/UMAFCore/Parsing/Legacy/LegacyAdapter.swift:136-146 | a bullet run writes one line per line it covers |
| EmitterFacts.RunLineAt | Sources/UMAFCore/Parsing/Legacy/LegacyAdapter.swift:137-143 | line `k` of a run is the re-indented text of the first bullet at line `i + k` |
| EmitterFacts.BulletLineReadBack | Sources/UMAFCore/Parsing/Legacy/LegacyAdapter.swift:139-143 | a re-indented bullet line reads back as a plain bullet with its text |
| EmitterFacts.MinIndentSpec | Sources/UMAFCore/Parsing/Legacy/LegacyAdapter.swift:123-127 | the base indent is the smallest indent among the lines the bullets name, and one of them has it; there is none when no bullet names a line of the document |
| SwiftMarkdownAdapter.BuildHeadingMap | Sources/UMAFCore/Parsing/Markdown/SwiftMarkdownAdapter.swift:30-41 | the loop computes `HeadingMapOf`, entering each heading's 0-based lines in order |
| SwiftMarkdownAdapter.CoverFromSpec | Sources/UMAFCore/Parsing/Markdown/SwiftMarkdownAdapter.swift:38-40 | entering a heading from line `i` adds exactly the lines up to `end`, each mapped to that heading, and keeps the rest of the map |
| SwiftMarkdownAdapter.HeadingMapSpec | Sources/UMAFCore/Parsing/Markdown/SwiftMarkdownAdapter.swift:34-41 | a line is in the map iff some heading with a range covers it, and it then maps to the last heading that does |
| SwiftMarkdownAdapter.TrimBody | Sources/UMAFCore/Parsing/Markdown/SwiftMarkdownAdapter.swift:69-78 | the two `while let` loops count the blank lines at the top and return `TrimmedBody` |
| SwiftMarkdownAdapter.LeadingBlanksSpec | Sources/UMAFCore/Parsing/Markdown/SwiftMarkdownAdapter.swift:72-75 | the lines counted at the top are blank, and the first line after them is not |
| SwiftMarkdownAdapter.TrailingBlanksSpec | Sources/UMAFCore/Parsing/Markdown/SwiftMarkdownAdapter.swift:76-78 | the lines dropped at the bottom are blank, and the last line before them is not |
| SwiftMarkdownAdapter.TrimmedBodySlice | Sources/UMAFCore/Parsing/Markdown/SwiftMarkdownAdapter.swift:69-78 | the trimmed body is the part of the body right after its blank top lines |
| SwiftMarkdownAdapter.TrimmedBodyDropsBlanks | Sources/UMAFCore/Parsing/Markdown/SwiftMarkdownAdapter.swift:69-78 | every line the trimming drops, above or below, is blank |
| SwiftMarkdownAdapter.TrimmedBodyEnds | Sources/UMAFCore/Parsing/Markdown/SwiftMarkdownAdapter.swift:69-78 | the trimmed body neither starts nor ends with a blank line |
| SwiftMarkdownAdapter.Relocate | Sources/UMAFCore/Parsing/Markdown/SwiftMarkdownAdapter.swift:113-143 | each of the three extractor loops keeps, in order, the elements whose source line is in the body and below its blank top, each moved by the offset |
| SwiftMarkdownAdapter.RelocatedSound | Sources/UMAFCore/Parsing/Markdown/SwiftMarkdownAdapter.swift:113-143 | every moved element is a kept one, shifted by the offset |
| SwiftMarkdownAdapter.RelocatedComplete | Sources/UMAFCore/Parsing/Markdown/SwiftMarkdownAdapter.swift:113-143 | every kept element is moved, and there are never more moved elements than elements |
| SwiftMarkdownAdapter.TagBullets | Sources/UMAFCore/Parsing/Markdown/SwiftMarkdownAdapter.swift:137-141 | the loop rebuilds each bullet with the current heading and level and nothing else changed |
| SwiftMarkdownAdapter.FlushSection | Sources/UMAFCore/Parsing/Markdown/SwiftMarkdownAdapter.swift:68-147 | `flushSection(isLast:)` computes `Flushed`: it writes the heading line, a blank, the trimmed body and a blank unless last; it records the section with its start and end indices; it moves the kept elements; the body is reset |
| SwiftMarkdownAdapter.FlushAligns | Sources/UMAFCore/Parsing/Markdown/SwiftMarkdownAdapter.swift:96-109 | a kept body line's source index plus the offset names the rewritten line that holds the same text, so elements move to their own line |
| SwiftMarkdownAdapter.StartIndex | Sources/UMAFCore/Parsing/Markdown/SwiftMarkdownAdapter.swift:149 | the loop starts right after the closing front-matter line, or at 0, and never past the line count |
| SwiftMarkdownAdapter.Parse | Sources/UMAFCore/Parsing/Markdown/SwiftMarkdownAdapter.swift:24-179 | the method returns `AdapterParse`: the loop over the source lines, the final flush, the rewritten text joined by `\n`, and the adapter's front matter |
| SwiftMarkdownAdapter.NewSectionPlaced | Sources/UMAFCore/Parsing/Markdown/SwiftMarkdownAdapter.swift:81-107 | the section a flush records sits right after the earlier lines: heading line, then its lines, then a blank unless last; its end index is its last line; it is a blank followed by a body without blank ends |
| SwiftMarkdownAdapter.StepLaid | Sources/UMAFCore/Parsing/Markdown/SwiftMarkdownAdapter.swift:152-165 | one pass of the loop keeps the layout invariant |
| SwiftMarkdownAdapter.AdapterLayout | Sources/UMAFCore/Parsing/Markdown/SwiftMarkdownAdapter.swift:55-167 | the rewritten lines are the front-matter block, then at least one section; the sections are laid back to back, each with its heading line at its start index, a blank and its trimmed body; every section but the last is closed by a blank at its end index; the last section ends at the last line |
| SwiftMarkdownAdapter.WalkKeepsSections | Sources/UMAFCore/Parsing/Markdown/SwiftMarkdownAdapter.swift:152-165 | the loop only adds sections after those already written |
| SwiftMarkdownAdapter.FirstHeadingKept | Sources/UMAFCore/Parsing/Markdown/SwiftMarkdownAdapter.swift:155-159 | once a heading other than the initial "Document" is current and nothing is written yet, the first section written carries it |
| SwiftMarkdownAdapter.LeadingHeadingOpensFirstSection | Sources/UMAFCore/Parsing/Markdown/SwiftMarkdownAdapter.swift:153-159 | a heading on the first line after the front matter opens the first section, so no empty "Document" section is written before it |
| CoreEngine.LineTitle | Sources/UMAFCore/UMAFCoreEngine.swift:14-24 | a line's title, when it has one, is non-empty |
| CoreEngine.FirstMarkdownHeadingTitle | Sources/UMAFCore/UMAFCoreEngine.swift:12-27 | the loop returns the title of the first line that offers one, or none |
| CoreEngine.LineTitleTrimmed | Sources/UMAFCore/UMAFCoreEngine.swift:23 | a title has no whitespace or newline at either end |
| CoreEngine.TitleIffSomeLine | Sources/UMAFCore/UMAFCoreEngine.swift:12-27 | a text has a title iff one of its lines offers one |
| CoreEngine.TitleOfFirstLine | Sources/UMAFCore/UMAFCoreEngine.swift:13-24 | the title is that of the first line offering one, and no earlier line offers one |
| CoreEngine.LineTitleNoLevelCap | Sources/UMAFCore/UMAFCoreEngine.swift:16-20 | any number of `#`, a space and a title give that title, even past the six levels the line scanner accepts as a heading |
| CoreEngine.EmittedHeadingTitle | Sources/UMAFCore/UMAFCoreEngine.swift:12-27 | a heading line the emitter writes offers its trimmed heading as the title, whatever the level |
| CoreEngine.DocId | Sources/UMAFCore/UMAFCoreEngine.swift:240 | the id is the first 12 characters of the hash, or the whole hash when it is shorter, and always a prefix of it |
| CoreEngine.LineCount | Sources/UMAFCore/UMAFCoreEngine.swift:241-242 | the line count is the number of `\n` plus one |
| CoreEngine.DocTitleSpec | Sources/UMAFCore/UMAFCoreEngine.swift:230-233 | a markdown document's title is that of the first payload line offering one |
| CoreEngine.DocTitleFallback | Sources/UMAFCore/UMAFCoreEngine.swift:230-233 | the file name is the title when the payload is not read as markdown or no line offers a title |
| CoreEngine.TransformFailsOnlyInRouting | Sources/UMAFCore/UMAFCoreEngine.swift:165-214 | a transform fails iff routing fails, and it then yields an envelope iff the envelope format was asked for |
| CoreEngine.HtmlReadAsMarkdown | Sources/UMAFCore/UMAFCoreEngine.swift:172-212 | an HTML file's envelope records `text/html`, but its structure, title, line count and markdown are those of the markdown the HTML adapter produced |
| CoreEngine.PlainEnvelopeShape | Sources/UMAFCore/UMAFCoreEngine.swift:178-242 | a document not read as markdown is titled by its file name and is one section whose lines are exactly the counted lines of the payload |
| CoreEngine.JsonEnvelopeShape | Sources/UMAFCore/UMAFCoreEngine.swift:178-212 | a JSON file's envelope carries the canonical JSON with no structure and is titled by its file name; its markdown is that JSON in a `json` fence |
| WalkerIds.Pad3Spec | Sources/UMAFCore/Walker/UMAFWalker.swift:20 | `%03d` keeps the number and gives at least three digits, exactly three below one thousand |
| WalkerIds.ValueOfDecimal | Sources/UMAFCore/Walker/UMAFWalker.swift:20 | reading back the decimal digits of a count gives the count |
| WalkerIds.ParseMakeId | Sources/UMAFCore/Walker/UMAFWalker.swift:17-21 | an id `prefix:NNN` reads back as the prefix and count it was made from |
| WalkerIds.MakeIdInjective | Sources/UMAFCore/Walker/UMAFWalker.swift:17-21 | different prefixes or counts never give the same id |
| WalkerIds.MadeIdEndsWithDigit | Sources/UMAFCore/Walker/UMAFWalker.swift:17-21 | an id ends with a digit, so it never equals a fixed root id such as `span:root` |
| WalkerIds.IdGenerator.Next | Sources/UMAFCore/Walker/UMAFWalker.swift:9-21 | `makeId` raises the prefix's count by one, leaves the other counts alone, and returns the prefix with the new count |
| WalkerIds.NextIsFresh | Sources/UMAFCore/Walker/UMAFWalker.swift:17-21 | the generator never repeats an id: each new id is numbered above every id it gave before for that prefix |
| WalkerPlacements.CodeLines | Sources/UMAFCore/Walker/UMAFWalker.swift:623-627 | an empty body has no lines, else one more line than it has `\n` |
| WalkerPlacements.CodePlacementOf | Sources/UMAFCore/Walker/UMAFWalker.swift:619-633 | a code block is placed iff its 1-based start is within the document; the range starts there, covers the body and both fences, and is clipped to the last line |
| WalkerPlacements.TablePlacementOf | Sources/UMAFCore/Walker/UMAFWalker.swift:635-644 | a table is placed iff its 1-based start is within the document; the range covers header, separator and one line per row, clipped to the last line |
| WalkerPlacements.BulletPlacementOf | Sources/UMAFCore/Walker/UMAFWalker.swift:646-653 | a bullet is placed iff its 1-based line is within the document, and its range is that one line |
| WalkerPlacements.ItemPlacementsWithin | Sources/UMAFCore/Walker/UMAFWalker.swift:619-653 | an item with a non-negative index that is placed lies inside the document |
| WalkerPlacements.NextFence | Sources/UMAFCore/Walker/UMAFWalker.swift:605-610 | the search finds the first `---` line at or after `i`, or none when there is none |
| WalkerPlacements.FrontMatterPlacementFor | Sources/UMAFCore/Walker/UMAFWalker.swift:593-617 | the method, with the source's search loop, computes `FrontMatterPlacementOf` |
| WalkerPlacements.FrontMatterPlacementSpec | Sources/UMAFCore/Walker/UMAFWalker.swift:593-617 | front matter is placed iff there are entries, the first line is `---` and a later line is too; it then spans line 1 to the first closing line, clipped to the document, and no line between the two is `---` |
| WalkerSections.ParseHeadingLine | Sources/UMAFCore/Walker/UMAFWalker.swift:711-728 | the counting loop computes `ParseHeading`: any run of `#`, at most one space dropped, and no trimming of the rest |
| WalkerSections.ParseEmittedHeading | Sources/UMAFCore/Walker/UMAFWalker.swift:711-728 | a heading line the emitter writes, with a level from 1 to 6 and a trimmed heading, reads back as that heading and level |
| WalkerSections.FindHeading | Sources/UMAFCore/Walker/UMAFWalker.swift:681-709 | the loop computes `FindHeadingFrom` |
| WalkerSections.FindHeadingSpec | Sources/UMAFCore/Walker/UMAFWalker.swift:681-709 | the search returns the 1-based number of the first non-excluded line from `i` on whose heading text and level match, or none when no such line exists |
| WalkerSections.LocateSectionStarts | Sources/UMAFCore/Walker/UMAFWalker.swift:655-679 | the loop computes `Starts`, resuming each search on the line after the last found heading (its 1-based line number reused as a 0-based index), or at the end after a miss |
| WalkerSections.LocateSectionStartsSpec | Sources/UMAFCore/Walker/UMAFWalker.swift:655-679 | found headings are real, non-excluded, matching heading lines in strictly increasing order, and the misses form a suffix |
| WalkerSections.SectionPlacementsFor | Sources/UMAFCore/Walker/UMAFWalker.swift:730-768 | `sectionPlacements` returns `PlaceSections` over the located starts, with the fallback starting at 1 |
| WalkerSections.PlacementAt | Sources/UMAFCore/Walker/UMAFWalker.swift:745-765 | each placement belongs to its section and never ends before it starts; a found one starts on its heading and spans it and the section's lines, clipped; a missed one starts after the previous end |
| WalkerSections.SectionPlacementsSpec | Sources/UMAFCore/Walker/UMAFWalker.swift:730-768 | with at least one line, every placement starts at 1 or later and ends at or after its start; found sections are placed on their heading; a missed section follows the previous one |
| WalkerSections.MissedSectionPastEnd | Sources/UMAFCore/Walker/UMAFWalker.swift:743-765 | two sections without headings over a one-line text put the second on line 2, past the last line |
| WalkerSections.StartsIncrease | Sources/UMAFCore/Walker/UMAFWalker.swift:655-679 | the heading lines located for the sections strictly increase |
| WalkerSections.StartsMissForever | Sources/UMAFCore/Walker/UMAFWalker.swift:665-676 | once a section's heading is not found, no later section's heading is found either |
| WalkerSections.MissedStartPositive | Sources/UMAFCore/Walker/UMAFWalker.swift:743-765 | a section whose heading is not found still starts at line 1 or later |
| WalkerRanges.IntervalSpec | Sources/UMAFCore/Walker/UMAFWalker.swift:808-811 | a line is in the interval `[a, b]` iff `a <= l <= b` |
| WalkerRanges.LineSetSpec | Sources/UMAFCore/Walker/UMAFWalker.swift:808-812 | a line is in the set iff it is positive and lies in one of the ranges; an inverted range adds nothing |
| WalkerRanges.LineSetAppend | Sources/UMAFCore/Walker/UMAFWalker.swift:809-811 | one more range adds exactly its positive lines |
| WalkerRanges.MaximalRunsSpec | Sources/UMAFCore/Walker/UMAFWalker.swift:770-838 | each run lies in the window and holds only usable lines; runs are in order with an unusable line between neighbours; none can be extended; together they hold every usable line of the window |
| WalkerRanges.UncoveredRanges | Sources/UMAFCore/Walker/UMAFWalker.swift:814-838 | the loop computes `UncoveredRangesOf` for a line count of at least 1 |
| WalkerRanges.UncoveredRangesSpec | Sources/UMAFCore/Walker/UMAFWalker.swift:814-838 | the uncovered ranges lie within the document, are ascending, disjoint and maximal, and their lines are exactly the lines of `[1, lineCount]` outside `covered` |
| WalkerRanges.ParagraphRanges | Sources/UMAFCore/Walker/UMAFWalker.swift:770-806 | `paragraphRanges` computes `ParagraphRangesOf` |
| WalkerRanges.ScanBody | Sources/UMAFCore/Walker/UMAFWalker.swift:783-803 | the loop over the body lines inside the document computes the maximal runs of lines that are neither excluded nor blank |
| WalkerRanges.BreakAt | Sources/UMAFCore/Walker/UMAFWalker.swift:787-788 | a body line breaks a paragraph iff it is excluded or blank |
| WalkerRanges.ParagraphRangesShape | Sources/UMAFCore/Walker/UMAFWalker.swift:770-806 | paragraph ranges start at or after the line after the heading and end by the document's end and the section's last line; they come in order with a gap between neighbours; they hold no blank and no excluded line |
| WalkerRanges.ParagraphRangesExact | Sources/UMAFCore/Walker/UMAFWalker.swift:770-806 | together the paragraph ranges hold every body line inside the document that is neither blank nor excluded |
| WalkerItems.Priority | Sources/UMAFCore/Walker/UMAFWalker.swift:80-88 | front matter has priority 0, sections 1, tables 2, code 3, bullets 4, each iff its kind |
| WalkerItems.LessIsStrictTotal | Sources/UMAFCore/Walker/UMAFWalker.swift:177-185 | the comparator is irreflexive and transitive, and any two keys are equal or ordered |
| WalkerItems.Insert | Sources/UMAFCore/Walker/UMAFWalker.swift:177-185 | inserting into a sorted sequence keeps it sorted and adds exactly the item |
| WalkerItems.SortItems | Sources/UMAFCore/Walker/UMAFWalker.swift:177-185 | the sort returns a permutation of the items that no comparator step puts out of order |
| WalkerItems.SortedKeysDetermined | Sources/UMAFCore/Walker/UMAFWalker.swift:177-185 | any two sorted permutations of the same items list the same keys in the same order, so the unstable sort leaves open only the order of items with equal keys |
| WalkerEmit.ParentSectionId | Sources/UMAFCore/Walker/UMAFWalker.swift:586-591 | nothing exactly when no recorded section holds the line; otherwise the block id of the last recorded section that holds it |
| WalkerEmit.ParentOrRootRule | Sources/UMAFCore/Walker/UMAFWalker.swift:277-281 | `parentSectionId(for:sections:) ?? rootBlockId` is the parent the containment rule prescribes: the last recorded section holding the line, else the root block |
| WalkerEmit.EntriesMapSpec | Sources/UMAFCore/Walker/UMAFWalker.swift:204 | a key is in the front-matter block's metadata exactly when some entry has it, and its value is that of the last entry with that key |
| WalkerEmit.FrontMatterMetadata | Sources/UMAFCore/Walker/UMAFWalker.swift:204 | the metadata loop of the front-matter case builds exactly that last-entry-wins dictionary |
| WalkerEmit.RowCounts | Sources/UMAFCore/Walker/UMAFWalker.swift:297-300 | the table case passes one row count per table row, each the length of its row |
| WalkerEmit.ItemTemplateShape | Sources/UMAFCore/Walker/UMAFWalker.swift:189-392 | each item's block has the item's kind; front matter and sections hang from the root block; tables, code and bullets from the last recorded section holding their first line, else the root |
| WalkerEmit.EmitAllItems | Sources/UMAFCore/Walker/UMAFWalker.swift:187-392 | the item loop leaves spans, blocks, recorded sections and generator counts equal to the fold of one emission per item over the starting state |
| WalkerEmit.EmitOneItem | Sources/UMAFCore/Walker/UMAFWalker.swift:190-391 | one `case` of the switch appends what one item's emission gives, and records the placement when the item is a section |
| WalkerEmit.EmitOnePair | Sources/UMAFCore/Walker/UMAFWalker.swift:192-225 | drawing a span id and a block id and appending the span and block advances the state exactly as one emission does |
| WalkerEmit.EmitAllRanges | Sources/UMAFCore/Walker/UMAFWalker.swift:407-441 | a range loop leaves the state equal to the fold of one emission per range |
| WalkerEmit.EmitAllParagraphs | Sources/UMAFCore/Walker/UMAFWalker.swift:401-442 | the paragraph loop leaves the state equal to the fold, over the recorded sections, of the emission of each section's paragraph ranges |
| WalkerInvariants.RootIdsUnparsed | Sources/UMAFCore/Walker/UMAFWalker.swift:114-124 | the fixed ids `span:root` and `block:root` do not have the shape of a generated id, so no generated id can equal them |
| WalkerInvariants.IdsAppend | Sources/UMAFCore/Walker/UMAFWalker.swift:6-21 | appending the generator's next id for any prefix to a list of the root id and already issued ids keeps the list free of duplicates |
| WalkerInvariants.PairGood | Sources/UMAFCore/Walker/UMAFWalker.swift:192-225 | one emission keeps the emission invariant: spans and blocks paired by id, span ids and block ids distinct, recorded sections equal to the section blocks, every child block parented by the containment rule |
| WalkerInvariants.ItemsGood | Sources/UMAFCore/Walker/UMAFWalker.swift:189-392 | the item loop keeps the emission invariant |
| WalkerInvariants.RangesGood | Sources/UMAFCore/Walker/UMAFWalker.swift:452-491 | a range loop (paragraphs of one section, or raw runs) keeps the emission invariant |
| WalkerInvariants.ParagraphsGood | Sources/UMAFCore/Walker/UMAFWalker.swift:401-442 | the paragraph loop keeps the emission invariant |
| WalkerShape.PairShape | Sources/UMAFCore/Walker/UMAFWalker.swift:192-225 | one emission appends exactly one span over `[lower, upper]` and one block with the template's kind and parent, leaving every earlier pair untouched |
| WalkerShape.GrownTwice | Sources/UMAFCore/Walker/UMAFWalker.swift:189-491 | appending n pairs and then m pairs appends n + m pairs and keeps the first ones |
| WalkerShape.ItemsShape | Sources/UMAFCore/Walker/UMAFWalker.swift:189-392 | the item loop appends one pair per item, in item order, each spanning that item's lines with its kind, front matter and sections parented to the root |
| WalkerShape.RangesShape | Sources/UMAFCore/Walker/UMAFWalker.swift:407-441 | a range loop appends one pair per range, in order, each spanning the range, and records no section |
| WalkerShape.ParagraphsShape | Sources/UMAFCore/Walker/UMAFWalker.swift:401-442 | every pair of the paragraph phase is a paragraph parented to a recorded section's block and spans one of that section's paragraph ranges; no section is recorded |
| WalkerBuild.Somes | Sources/UMAFCore/Walker/UMAFWalker.swift:148-161 | `compactMap` keeps a value iff it is present, each exactly as often as it is present, and the result is no longer than the input |
| WalkerBuild.SomesAppend | Sources/UMAFCore/Walker/UMAFWalker.swift:148-161 | `compactMap` keeps order: filtering a concatenation is concatenating the filtered parts |
| WalkerBuild.LayoutFor | Sources/UMAFCore/Walker/UMAFWalker.swift:141-175 | the placement half of `build` (front matter, code, tables, bullets, sections and the item list) computes the layout function |
| WalkerBuild.NonRootRangesSpec | Sources/UMAFCore/Walker/UMAFWalker.swift:444-446 | `coveredBySpans` holds exactly the positive lines that some non-root span holds |
| WalkerBuild.Build | Sources/UMAFCore/Walker/UMAFWalker.swift:96-543 | `build` processes a sorted permutation of the structural items and returns the envelope the phase functions give for that order |
| WalkerBuild.WithRoot | Sources/UMAFCore/Walker/UMAFWalker.swift:546-582 | a root span over `[1, max(1, lineCount)]` and a root block are inserted at index 0 of whichever list lacks that id; nothing else changes |
| WalkerBuild.EnsureRootSpanAndBlock | Sources/UMAFCore/Walker/UMAFWalker.swift:546-582 | `ensureRootSpanAndBlock` returns the envelope with the root ensured as above |
| WalkerBuild.WithRootIdempotent | Sources/UMAFCore/Walker/UMAFWalker.swift:545-582 | ensuring the root twice is ensuring it once |
| WalkerBuildFacts.BuildRoot | Sources/UMAFCore/Walker/UMAFWalker.swift:108-139 | the first span of `build`'s envelope is the root span over `[1, max(1, lineCount)]` and the first block the root block with the document title and media type |
| WalkerBuildFacts.BuildWellFormed | Sources/UMAFCore/Walker/UMAFWalker.swift:96-543 | every block of `build`'s envelope points at the span of the same index, span ids and block ids are distinct, and every child block's parent is the last earlier section holding its first line, else the root |
| WalkerBuildFacts.BuildItemOrder | Sources/UMAFCore/Walker/UMAFWalker.swift:170-392 | the structural items are emitted at indices 1 .. n with their lines and kinds, front matter and sections under the root, and no later item sorts strictly before an earlier one by start line, kind priority and end line |
| WalkerBuildFacts.BuildParagraphs | Sources/UMAFCore/Walker/UMAFWalker.swift:394-442 | every paragraph block's parent is a section block, and its lines are one of that section's paragraph ranges |
| WalkerBuildFacts.BuildCovers | Sources/UMAFCore/Walker/UMAFWalker.swift:444-491 | every line from 1 to max(1, lineCount) lies in some span, and every raw block spans one of the maximal runs of lines no non-root span covers |
| WalkerBuildFacts.BuildHasRoot | Sources/UMAFCore/Walker/UMAFWalker.swift:546-582 | `build`'s envelope already has its root, so ensuring it changes nothing |

## Left out

- File reading, the clock, ISO 8601 formatting and SHA-256 hashing in `transformFile` are outside the model. The base name, path, size, creation date and hex hash enter as `CoreEngine.FileFacts`.
- The format adapters are foreign code and enter as the parameters of `Router.Adapters`, with `None` for an adapter that throws:
  - HTML through SwiftSoup;
  - PDFKit;
  - DOCX/RTF through `textutil`;
  - OCR through Vision;
  - the JSON decode and re-serialisation, including `decodeUTF8` and `stringFromData`.
- The swift-markdown library (`Document(parsing:)`, `HeadingCollector`, `ElementExtractor`) is not part of this model. The headings it collects and the tables, code blocks and bullets it extracts are inputs of `SwiftMarkdownAdapter.Parse`.
- Unicode is not modelled.
  - `.whitespaces` is ASCII space and tab.
  - `.whitespacesAndNewlines` adds `\n`, `\r`, vertical tab and form feed.
  - `isNumber` is ASCII digits.
  - Lower-casing is ASCII.
- Floating point is not modelled. Confidences are exact tenths (`nat`); every constant in the taxonomy is a whole number of tenths.
- Swift traps are stated as preconditions rather than modelled as crashes. For example, `WalkerRanges.UncoveredRanges` requires a line count of at least 1, because `1...lineCount` traps below that, and `build` always passes `max(1, lineCount)`.
- An inverted closed range, which traps in Swift, is treated by `WalkerRanges.LineSet` and `SwiftMarkdownAdapter.CoverFrom` as contributing no lines.
- Swift's `sort` is not stable.
  - `WalkerItems.SortItems` is an insertion sort, and it promises only a sorted permutation.
  - `WalkerBuild.Build` returns the order it used as a ghost output, and every fact in `WalkerBuildFacts` holds for any such order.
  - `WalkerItems.SortedKeysDetermined` shows that only items with equal keys can change places.
- JSON encoding and decoding of envelopes (Codable) and their round trip are outside the model. Envelope.swift and CoreModels.swift give only the shapes of the datatypes.
- `UMAFEnvelopeV0_5`, `UMAFSpanV0_5` and `UMAFBlockV0_5` are not part of this model. The span and block datatypes use the field shapes of the v0.7 types in Envelope.swift, which are the same.
- The walker's `routedInput` parameter is ignored by `build` and is not modelled.
- The thin wrappers are not modelled: Engine.swift (including its `featureFlags["structure"] = true`), Normalization.swift and MarkdownEngineV2.swift. `build` always sets `featureFlags` to nil.
- The cache (CacheStore.swift), the file-system helpers, logging and the command-line tool are I/O and concurrency, and are not part of this model.
- EmitterFacts.HeadingReadBack, EmitterFacts.BulletLineReadBack, EmitterFacts.FrontMatterReadBack and EmitterFacts.FencedReadBack are stated on the lines the emitter writes before the final canonicalisation. The end-to-end fixed point (parse the emitter's output, emit it again, get the same text) is not proved.
- Sibling non-overlap and all spans lying within `[1, lineCount]` are asserted by the walker tests for particular documents only, and the walker does not guarantee them in general. They are not stated. `WalkerSections.MissedSectionPastEnd` shows a section laid past the last line.
