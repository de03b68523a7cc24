/** The markdown emitter: `LegacyAdapter.buildMarkdown`
    (Sources/UMAFCore/Parsing/Legacy/LegacyAdapter.swift) and
    `UMAFCoreEngine.buildMarkdownFromSemantic`
    (Sources/UMAFCore/UMAFCoreEngine.swift), which are the same code. It
    writes the semantic lists back as markdown: front matter, one ATX heading
    per section with its paragraphs or lines, JSON and headless text in
    fences, and plain text with its bullets re-indented. */
module MarkdownEmitter {
  import opened Wrappers
  import opened Text
  import opened CoreModels
  import opened Paragraphs
  import MarkdownLines

  const Fence: string := "```"

  // ---------------------------------------------------------------------
  // Pieces
  // ---------------------------------------------------------------------

  /** `min(max(level, 1), 6)` */
  function Clamp(level: int): (r: nat)
    ensures 1 <= r <= 6
    ensures 1 <= level <= 6 ==> r == level
  {
    if level < 1 then 1 else if level > 6 then 6 else level
  }

  /** `"\(prefix) \(title)"`: the clamped number of `#`, a space, the
      heading trimmed of whitespace and newlines. */
  function HeadingLine(heading: string, level: int): string
  {
    Repeat("#", Clamp(level)) + " " + Trim(heading, WhitespacesAndNewlines)
  }

  /** `"\(e.key): \(e.value)"` */
  function EntryLine(e: FrontMatterEntry): string
  {
    e.key + ": " + e.value
  }

  /** The entry lines of the first `k` entries. */
  function EntryLines(fm: seq<FrontMatterEntry>, k: nat): (r: seq<string>)
    requires k <= |fm|
    ensures |r| == k
  {
    seq(k, j requires 0 <= j < k => EntryLine(fm[j]))
  }

  /** Front matter is written as `---`, its entry lines, `---` and a blank;
      none is written for no entries. */
  function FrontMatterLines(fm: seq<FrontMatterEntry>): seq<string>
  {
    if fm == [] then [] else ["---"] + EntryLines(fm, |fm|) + ["---", ""]
  }

  /** The first `k` paragraphs, each followed by a blank except the last one
      of all. */
  function Spaced(ps: seq<string>, k: nat): seq<string>
    requires k <= |ps|
  {
    if k == 0 then []
    else Spaced(ps, k - 1) + [ps[k - 1]] + (if k - 1 != |ps| - 1 then [""] else [])
  }

  /** A section's body: its paragraphs spaced by blanks when the document
      has no table and no code block, otherwise its lines verbatim, after
      one blank; nothing when the chosen list is empty. */
  function SectionBody(s: Section, hasComplex: bool): seq<string>
  {
    if !hasComplex && s.paragraphs != [] then [""] + Spaced(s.paragraphs, |s.paragraphs|)
    else if s.lines != [] then [""] + s.lines
    else []
  }

  /** A section: heading line, body, and a blank unless it is the last. */
  function SectionBlock(s: Section, hasComplex: bool, last: bool): seq<string>
  {
    [HeadingLine(s.heading, s.level)] + SectionBody(s, hasComplex) + (if last then [] else [""])
  }

  /** The blocks of the first `k` sections. */
  function SectionsLines(ss: seq<Section>, hasComplex: bool, k: nat): seq<string>
    requires k <= |ss|
  {
    if k == 0 then []
    else SectionsLines(ss, hasComplex, k - 1) + SectionBlock(ss[k - 1], hasComplex, k - 1 == |ss| - 1)
  }

  /** Without sections the whole payload is one "Document" section. */
  function EffectiveSections(payload: string, sections: seq<Section>): seq<Section>
  {
    if sections == [] then
      var all := Split(payload, '\n');
      [Section("Document", 1, all, ParagraphsOf(all), 0, 0)]
    else sections
  }

  /** The lines of the markdown branch before canonicalisation. */
  function MarkdownDraft(payload: string, sections: seq<Section>, frontMatter: seq<FrontMatterEntry>,
                         hasComplex: bool): seq<string>
  {
    var eff := EffectiveSections(payload, sections);
    FrontMatterLines(frontMatter) + SectionsLines(eff, hasComplex, |eff|)
  }

  /** A payload wrapped in a fence tagged `tag`. */
  function Fenced(tag: string, payload: string): string
  {
    Join([Fence + tag, payload, Fence], '\n')
  }

  // ---------------------------------------------------------------------
  // The document branch (neither markdown nor JSON)
  // ---------------------------------------------------------------------

  /** `bullets.filter { $0.sectionHeading == "Document" || $0.sectionHeading == nil }` */
  function DocBullets(bullets: seq<Bullet>): (r: seq<Bullet>)
    ensures |r| <= |bullets|
    ensures forall k :: 0 <= k < |r| ==> r[k] in bullets
    ensures forall k :: 0 <= k < |r| ==> r[k].sectionHeading == Some("Document") || r[k].sectionHeading == None
    ensures forall k :: 0 <= k < |bullets| ==>
      (bullets[k].sectionHeading == Some("Document") || bullets[k].sectionHeading == None) ==> bullets[k] in r
  {
    if bullets == [] then []
    else
      var rest := DocBullets(bullets[1..]);
      var b := bullets[0];
      if b.sectionHeading == Some("Document") || b.sectionHeading == None then [b] + rest else rest
  }

  /** `Set(docBullets.map { $0.lineIndex })` */
  function LineSet(bs: seq<Bullet>): set<int>
  {
    set k | 0 <= k < |bs| :: bs[k].lineIndex
  }

  /** The smallest indent of the lines the bullets name, ignoring indices
      outside the document. */
  function MinIndent(doc: seq<string>, bs: seq<Bullet>): Option<nat>
  {
    if bs == [] then None
    else
      var rest := MinIndent(doc, bs[1..]);
      if 0 <= bs[0].lineIndex < |doc| then
        var w := IndentWidth(doc[bs[0].lineIndex]);
        Some(if rest.Some? && rest.value < w then rest.value else w)
      else rest
  }

  /** `bulletIndents.min() ?? 0` */
  function BaseIndent(doc: seq<string>, bs: seq<Bullet>): nat
  {
    MinIndent(doc, bs).GetOr(0)
  }

  /** `docBullets.first(where: { $0.lineIndex == j })` */
  function FirstAt(bs: seq<Bullet>, j: int): Option<Bullet>
  {
    if bs == [] then None
    else if bs[0].lineIndex == j then Some(bs[0])
    else FirstAt(bs[1..], j)
  }

  /** A bullet re-emitted two spaces deeper per two columns of indent beyond
      the base. */
  function BulletLine(raw: string, text: string, base: nat): string
  {
    var w := IndentWidth(raw);
    var extra := if w - base > 0 then w - base else 0;
    Repeat("  ", extra / 2) + "- " + text
  }

  /** The first line at or after `j` whose index is not a bullet's. */
  function RunEnd(doc: seq<string>, s: set<int>, j: nat): (e: nat)
    requires j <= |doc|
    ensures j <= e <= |doc|
    ensures forall m :: j <= m < e ==> m in s
    ensures e < |doc| ==> e !in s
    decreases |doc| - j
  {
    if j < |doc| && j in s then RunEnd(doc, s, j + 1) else j
  }

  /** The bullet lines of the run from `j` to `RunEnd(doc, s, j)`. */
  function RunLines(doc: seq<string>, s: set<int>, bs: seq<Bullet>, base: nat, j: nat): seq<string>
    requires j <= |doc|
    decreases |doc| - j
  {
    if j < |doc| && j in s then
      (match FirstAt(bs, j)
       case Some(b) => [BulletLine(doc[j], b.text, base)]
       case None => [])
      + RunLines(doc, s, bs, base, j + 1)
    else []
  }

  /** The last line of the run of blank lines starting at `i`. */
  function LastBlank(doc: seq<string>, i: nat): (r: nat)
    requires i < |doc|
    ensures i <= r < |doc|
    ensures forall m :: i < m <= r ==> Blank(doc[m])
    ensures r + 1 < |doc| ==> !Blank(doc[r + 1])
    decreases |doc| - i
  {
    if i + 1 < |doc| && Blank(doc[i + 1]) then LastBlank(doc, i + 1) else i
  }

  /** The lines the `while i < doc.lines.count` loop writes from line `i`:
      a bullet run becomes its bullet lines and a blank, any other line is
      copied, and a blank line swallows the blank lines after it. */
  function DocBody(doc: seq<string>, s: set<int>, bs: seq<Bullet>, base: nat, i: nat): seq<string>
    requires i <= |doc|
    decreases |doc| - i
  {
    if i == |doc| then []
    else if i in s then
      RunLines(doc, s, bs, base, i) + [""] + DocBody(doc, s, bs, base, RunEnd(doc, s, i))
    else if Blank(doc[i]) then [doc[i]] + DocBody(doc, s, bs, base, LastBlank(doc, i) + 1)
    else [doc[i]] + DocBody(doc, s, bs, base, i + 1)
  }

  /** The lines of the document branch before canonicalisation. */
  function DocumentDraft(doc: Section, bullets: seq<Bullet>): seq<string>
  {
    var bs := DocBullets(bullets);
    [HeadingLine(doc.heading, doc.level), ""]
      + DocBody(doc.lines, LineSet(bs), bs, BaseIndent(doc.lines, bs), 0)
  }

  /** What `buildMarkdown` returns. */
  function BuildMarkdownSpec(payload: string, mediaType: string, sections: seq<Section>, bullets: seq<Bullet>,
                             frontMatter: seq<FrontMatterEntry>, tables: seq<Table>,
                             codeBlocks: seq<CodeBlock>): string
  {
    if mediaType == "text/markdown" then
      if frontMatter == [] && sections == [] then payload
      else
        var hasComplex := tables != [] || codeBlocks != [];
        Join(MarkdownLines.Canonical(MarkdownDraft(payload, sections, frontMatter, hasComplex)), '\n')
    else if mediaType == "application/json" then Fenced("json", payload)
    else if sections == [] then Fenced("text", payload)
    else Join(MarkdownLines.Canonical(DocumentDraft(sections[0], bullets)), '\n')
  }

  // ---------------------------------------------------------------------
  // The loops
  // ---------------------------------------------------------------------

  method EmitFrontMatter(fm: seq<FrontMatterEntry>) returns (lines: seq<string>)
    ensures lines == FrontMatterLines(fm)
  {
    lines := [];
    if fm != [] {
      lines := lines + ["---"];
      for k := 0 to |fm|
        invariant lines == ["---"] + EntryLines(fm, k)
      {
        lines := lines + [fm[k].key + ": " + fm[k].value];
      }
      lines := lines + ["---"];
      lines := lines + [""];
    }
  }

  /** The inner `for (pIdx, p) in s.paragraphs.enumerated()` loop. */
  method EmitParagraphs(ps: seq<string>) returns (lines: seq<string>)
    ensures lines == Spaced(ps, |ps|)
  {
    lines := [];
    for p := 0 to |ps|
      invariant lines == Spaced(ps, p)
    {
      lines := lines + [ps[p]];
      if p != |ps| - 1 {
        lines := lines + [""];
      }
    }
  }

  /** One pass of the section loop. */
  method EmitSection(s: Section, hasComplex: bool, last: bool) returns (block: seq<string>)
    ensures block == SectionBlock(s, hasComplex, last)
  {
    var body: seq<string> := [];
    if !hasComplex && s.paragraphs != [] {
      var spaced := EmitParagraphs(s.paragraphs);
      body := [""] + spaced;
    } else if s.lines != [] {
      body := [""] + s.lines;
    }
    block := [HeadingLine(s.heading, s.level)] + body;
    if !last {
      block := block + [""];
    }
  }

  /** `for (idx, s) in effectiveSections.enumerated()` */
  method EmitSections(ss: seq<Section>, hasComplex: bool) returns (lines: seq<string>)
    ensures lines == SectionsLines(ss, hasComplex, |ss|)
  {
    lines := [];
    for idx := 0 to |ss|
      invariant lines == SectionsLines(ss, hasComplex, idx)
    {
      var block := EmitSection(ss[idx], hasComplex, idx == |ss| - 1);
      lines := lines + block;
    }
  }

  /** The bullet run loop `while j < doc.lines.count, bulletLineIdx.contains(j)`. */
  method EmitRun(doc: seq<string>, s: set<int>, bs: seq<Bullet>, base: nat, i: nat)
    returns (run: seq<string>, j: nat)
    requires i <= |doc|
    ensures j == RunEnd(doc, s, i)
    ensures run == RunLines(doc, s, bs, base, i)
  {
    run := [];
    j := i;
    while j < |doc| && j in s
      invariant i <= j <= |doc|
      invariant RunEnd(doc, s, j) == RunEnd(doc, s, i)
      invariant run + RunLines(doc, s, bs, base, j) == RunLines(doc, s, bs, base, i)
      decreases |doc| - j
    {
      var b := FirstAt(bs, j);
      var piece := if b.Some? then [BulletLine(doc[j], b.value.text, base)] else [];
      AppendAssoc(run, piece, RunLines(doc, s, bs, base, j + 1));
      run := run + piece;
      j := j + 1;
    }
    assert RunLines(doc, s, bs, base, j) == [];
    assert run + [] == run;
  }

  /** `while i + 1 < doc.lines.count, doc.lines[i + 1]` is blank. */
  method SkipBlanks(doc: seq<string>, i: nat) returns (next: nat)
    requires i < |doc|
    ensures next == LastBlank(doc, i)
  {
    next := i;
    while next + 1 < |doc| && Trim(doc[next + 1], Whitespaces) == []
      invariant i <= next < |doc|
      invariant LastBlank(doc, next) == LastBlank(doc, i)
      decreases |doc| - next
    {
      next := next + 1;
    }
  }

  /** The `while i < doc.lines.count` loop of the document branch. */
  method EmitDocumentBody(doc: seq<string>, s: set<int>, bs: seq<Bullet>, base: nat)
    returns (lines: seq<string>)
    ensures lines == DocBody(doc, s, bs, base, 0)
  {
    lines := [];
    var i := 0;
    while i < |doc|
      invariant i <= |doc|
      invariant lines + DocBody(doc, s, bs, base, i) == DocBody(doc, s, bs, base, 0)
      decreases |doc| - i
    {
      var piece: seq<string>;
      var next: nat;
      if i in s {
        var run, j := EmitRun(doc, s, bs, base, i);
        piece, next := run + [""], j;
      } else {
        var line := doc[i];
        next := i + 1;
        if Trim(line, Whitespaces) == [] {
          var last := SkipBlanks(doc, i);
          next := last + 1;
        }
        piece := [line];
      }
      DocBodyStep(doc, s, bs, base, i);
      AppendAssoc(lines, piece, DocBody(doc, s, bs, base, next));
      lines := lines + piece;
      i := next;
    }
    assert lines + [] == lines;
  }

  /** One step of `DocBody`. */
  lemma DocBodyStep(doc: seq<string>, s: set<int>, bs: seq<Bullet>, base: nat, i: nat)
    requires i < |doc|
    ensures i in s ==>
      DocBody(doc, s, bs, base, i) == RunLines(doc, s, bs, base, i) + [""] + DocBody(doc, s, bs, base, RunEnd(doc, s, i))
    ensures i !in s && Blank(doc[i]) ==>
      DocBody(doc, s, bs, base, i) == [doc[i]] + DocBody(doc, s, bs, base, LastBlank(doc, i) + 1)
    ensures i !in s && !Blank(doc[i]) ==>
      DocBody(doc, s, bs, base, i) == [doc[i]] + DocBody(doc, s, bs, base, i + 1)
  {
  }

  method BuildMarkdown(payload: string, mediaType: string, sections: seq<Section>, bullets: seq<Bullet>,
                       frontMatter: seq<FrontMatterEntry>, tables: seq<Table>, codeBlocks: seq<CodeBlock>)
    returns (md: string)
    ensures md == BuildMarkdownSpec(payload, mediaType, sections, bullets, frontMatter, tables, codeBlocks)
  {
    if mediaType == "text/markdown" {
      if frontMatter == [] && sections == [] {
        return payload;
      }
      var lines := EmitFrontMatter(frontMatter);
      var effective := EffectiveSections(payload, sections);
      var hasComplex := tables != [] || codeBlocks != [];
      var body := EmitSections(effective, hasComplex);
      lines := lines + body;
      var canonical := MarkdownLines.CanonicalizeMarkdownLines(lines);
      md := Join(canonical, '\n');
    } else if mediaType == "application/json" {
      md := Join([Fence + "json", payload, Fence], '\n');
    } else if sections != [] {
      var doc := sections[0];
      var docBullets := DocBullets(bullets);
      var base := BaseIndent(doc.lines, docBullets);
      var body := EmitDocumentBody(doc.lines, LineSet(docBullets), docBullets, base);
      var lines := [HeadingLine(doc.heading, doc.level), ""] + body;
      var canonical := MarkdownLines.CanonicalizeMarkdownLines(lines);
      md := Join(canonical, '\n');
    } else {
      md := Join([Fence + "text", payload, Fence], '\n');
    }
  }
}
