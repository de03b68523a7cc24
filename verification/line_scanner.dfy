/** `LineScanner.parseSemanticStructure`
    (Sources/UMAFCore/Parsing/Markdown/LineScanner.swift): JSON yields nothing;
    markdown is read as front matter, then the fenced body, then pipe
    tables; any other text is one "Document" section with plain bullets. */
module LineScanner {
  import opened Wrappers
  import opened Text
  import opened CoreModels
  import opened Paragraphs
  import FrontMatter
  import MarkdownBody
  import MarkdownStructure
  import MarkdownFacts
  import Tables

  const Json: string := "application/json"
  const Markdown: string := "text/markdown"
  const DocumentHeading: string := "Document"

  // ---------------------------------------------------------------------
  // Plain-text bullets
  // ---------------------------------------------------------------------

  /** The text of a plain bullet line: after leading blanks, a `-`, `*` or
      `•`, then the rest without surrounding blanks, when that is not
      empty. */
  function PlainBulletText(line: string): (r: Option<string>)
    ensures r.Some? ==> r.value != [] && Trim(r.value, Whitespaces) == r.value
  {
    var left := DropWhileIn(line, Whitespaces);
    if left == [] || left[0] !in {'-', '*', '•'} then None
    else
      var text := Trim(DropWhileIn(left[1..], Whitespaces), Whitespaces);
      Tables.TrimIdempotent(DropWhileIn(left[1..], Whitespaces));
      if text == [] then None else Some(text)
  }

  /** The plain bullets of lines `0` up to `k`, in line order; line `i` is
      reported at index `i + offset`. */
  function PlainBullets(lines: seq<string>, k: nat, offset: nat): seq<Bullet>
    requires k <= |lines|
  {
    if k == 0 then []
    else
      var t := PlainBulletText(lines[k - 1]);
      PlainBullets(lines, k - 1, offset)
        + (if t.Some? then [Bullet(t.value, k - 1 + offset, Some(DocumentHeading), Some(1))] else [])
  }

  /** The `for (idx, line) in ....enumerated()` bullet loop, shared by the
      scanner (offset 0) and the plain-text adapter (offset 2). */
  method CollectPlainBullets(lines: seq<string>, offset: nat) returns (bullets: seq<Bullet>)
    ensures bullets == PlainBullets(lines, |lines|, offset)
  {
    bullets := [];
    for idx := 0 to |lines|
      invariant bullets == PlainBullets(lines, idx, offset)
    {
      var line := lines[idx];
      var trimmedLeft := DropWhileIn(line, Whitespaces);
      if trimmedLeft == [] {
        continue;
      }
      var first := trimmedLeft[0];
      if first == '-' || first == '*' || first == '•' {
        var rest := DropWhileIn(trimmedLeft[1..], Whitespaces);
        var text := Trim(rest, Whitespaces);
        if text != [] {
          bullets := bullets + [Bullet(text, idx + offset, Some(DocumentHeading), Some(1))];
        }
      }
    }
  }

  /** `bullet` was read from line `bullet.lineIndex - offset` of `lines`,
      below `k`, and is tagged with the "Document" section at level 1. */
  predicate ReadFrom(lines: seq<string>, k: nat, offset: nat, bullet: Bullet)
    requires k <= |lines|
  {
    && offset <= bullet.lineIndex < k + offset
    && PlainBulletText(lines[bullet.lineIndex - offset]) == Some(bullet.text)
    && bullet.sectionHeading == Some(DocumentHeading)
    && bullet.sectionLevel == Some(1)
  }

  /** Strictly increasing line indices. */
  predicate Ascending(bullets: seq<Bullet>)
  {
    forall j1, j2 :: 0 <= j1 < j2 < |bullets| ==> bullets[j1].lineIndex < bullets[j2].lineIndex
  }

  /** Every plain bullet comes from a line with bullet text, in line order,
      and is tagged with the "Document" section at level 1. */
  lemma {:induction false} PlainBulletsSound(lines: seq<string>, k: nat, offset: nat)
    requires k <= |lines|
    ensures forall j :: 0 <= j < |PlainBullets(lines, k, offset)| ==> ReadFrom(lines, k, offset, PlainBullets(lines, k, offset)[j])
    ensures Ascending(PlainBullets(lines, k, offset))
  {
    if k > 0 {
      PlainBulletsSound(lines, k - 1, offset);
      var t := PlainBulletText(lines[k - 1]);
      var tail := if t.Some? then [Bullet(t.value, k - 1 + offset, Some(DocumentHeading), Some(1))] else [];
      assert PlainBullets(lines, k, offset) == PlainBullets(lines, k - 1, offset) + tail;
      SoundSnoc(lines, k, offset, PlainBullets(lines, k - 1, offset), tail);
    }
  }

  lemma SoundSnoc(lines: seq<string>, k: nat, offset: nat, init: seq<Bullet>, tail: seq<Bullet>)
    requires 0 < k <= |lines|
    requires forall j :: 0 <= j < |init| ==> ReadFrom(lines, k - 1, offset, init[j])
    requires Ascending(init)
    requires var t := PlainBulletText(lines[k - 1]);
      tail == if t.Some? then [Bullet(t.value, k - 1 + offset, Some(DocumentHeading), Some(1))] else []
    ensures forall j :: 0 <= j < |init + tail| ==> ReadFrom(lines, k, offset, (init + tail)[j])
    ensures Ascending(init + tail)
  {
    var b := init + tail;
    forall j | 0 <= j < |b| ensures ReadFrom(lines, k, offset, b[j]) {
      if j < |init| {
        assert b[j] == init[j] && ReadFrom(lines, k - 1, offset, init[j]);
      }
    }
    forall j1, j2 | 0 <= j1 < j2 < |b| ensures b[j1].lineIndex < b[j2].lineIndex {
      assert b[j1] == init[j1] && ReadFrom(lines, k - 1, offset, init[j1]);
      if j2 < |init| {
        assert b[j2] == init[j2];
      }
    }
  }

  /** Every line with bullet text yields a plain bullet. */
  lemma {:induction false} PlainBulletsComplete(lines: seq<string>, k: nat, offset: nat, i: nat)
    requires i < k <= |lines| && PlainBulletText(lines[i]).Some?
    ensures exists j :: 0 <= j < |PlainBullets(lines, k, offset)| && PlainBullets(lines, k, offset)[j].lineIndex == i + offset
  {
    var b0 := PlainBullets(lines, k - 1, offset);
    var b := PlainBullets(lines, k, offset);
    assert b[..|b0|] == b0;
    if i == k - 1 {
      assert b[|b0|].lineIndex == i + offset;
    } else {
      PlainBulletsComplete(lines, k - 1, offset, i);
      var j :| 0 <= j < |b0| && b0[j].lineIndex == i + offset;
      assert b[j] == b0[j];
    }
  }

  // ---------------------------------------------------------------------
  // The whole scan
  // ---------------------------------------------------------------------

  /** The single section of a non-markdown text. */
  function DocumentSection(lines: seq<string>): Section
  {
    Section(DocumentHeading, 1, lines, ParagraphsOf(lines), 0, 0)
  }

  /** What `parseSemanticStructure` returns. */
  function SemanticStructure(text: string, mediaType: string): SemanticModel
  {
    if mediaType == Json then SemanticModel([], [], [], [], [])
    else
      var lines := Split(text, '\n');
      if mediaType != Markdown then
        SemanticModel([DocumentSection(lines)], PlainBullets(lines, |lines|, 0), [], [], [])
      else
        var h := FrontMatter.ScannerHeader(lines);
        var start := if h.next <= |lines| then h.next else |lines|;
        SemanticModel(
          MarkdownStructure.SectionsOf(lines, start),
          MarkdownStructure.BulletsOf(lines, start),
          h.entries,
          Tables.DetectedTables(lines, start),
          MarkdownStructure.CodeBlocksOf(lines, start))
  }

  /** The front matter ends within the text. */
  lemma HeaderWithin(lines: seq<string>)
    ensures FrontMatter.ScannerHeader(lines).next <= |lines|
  {
    if FrontMatter.Opens(lines) {
      FrontMatter.ReadFromSpec(lines, 1);
    }
  }

  method ParseSemanticStructure(text: string, mediaType: string)
    returns (sections: seq<Section>, bullets: seq<Bullet>, frontMatter: seq<FrontMatterEntry>,
             tables: seq<Table>, codeBlocks: seq<CodeBlock>)
    ensures SemanticModel(sections, bullets, frontMatter, tables, codeBlocks)
         == SemanticStructure(text, mediaType)
  {
    if mediaType == Json {
      return [], [], [], [], [];
    }
    var allLines := Split(text, '\n');
    frontMatter := [];
    var startIndex := 0;
    if mediaType == Markdown {
      frontMatter, startIndex := FrontMatter.ReadFrontMatter(allLines);
      HeaderWithin(allLines);
    }
    if mediaType != Markdown {
      bullets := CollectPlainBullets(allLines, 0);
      var paragraphs := MakeParagraphs(allLines);
      sections := [Section(DocumentHeading, 1, allLines, paragraphs, 0, 0)];
      return sections, bullets, frontMatter, [], [];
    }
    sections, bullets, codeBlocks := MarkdownStructure.ParseMarkdownBody(allLines, startIndex);
    tables := Tables.DetectTables(allLines, startIndex);
  }

  // ---------------------------------------------------------------------
  // Properties
  // ---------------------------------------------------------------------

  /** Any text that is neither JSON nor markdown is one "Document" section at
      level 1 holding every line, plus its plain bullets; it has no front
      matter, tables or code blocks. */
  lemma PlainTextShape(text: string, mediaType: string)
    requires mediaType != Json && mediaType != Markdown
    ensures var m := SemanticStructure(text, mediaType);
      var lines := Split(text, '\n');
      && |m.sections| == 1
      && m.sections[0].heading == DocumentHeading && m.sections[0].level == 1
      && m.sections[0].lines == lines && Join(m.sections[0].lines, '\n') == text
      && m.frontMatter == [] && m.tables == [] && m.codeBlocks == []
      && (forall j :: 0 <= j < |m.bullets| ==>
            && 0 <= m.bullets[j].lineIndex < |lines|
            && PlainBulletText(lines[m.bullets[j].lineIndex]) == Some(m.bullets[j].text)
            && m.bullets[j].text != []
            && m.bullets[j].sectionHeading == Some(DocumentHeading)
            && m.bullets[j].sectionLevel == Some(1))
  {
    var lines := Split(text, '\n');
    JoinSplit(text, '\n');
    PlainBulletsSound(lines, |lines|, 0);
  }

  /** In markdown, nothing is read from the front matter: every bullet, table
      and code block starts at or after the first line past it. */
  lemma {:induction false} FrontMatterNotBody(text: string)
    ensures var m := SemanticStructure(text, Markdown);
      var lines := Split(text, '\n');
      var start := FrontMatter.ScannerHeader(lines).next;
      && (forall j :: 0 <= j < |m.bullets| ==> start <= m.bullets[j].lineIndex)
      && (forall j :: 0 <= j < |m.tables| ==> start <= m.tables[j].startLineIndex)
      && (forall j :: 0 <= j < |m.codeBlocks| ==> start <= m.codeBlocks[j].startLineIndex)
  {
    var lines := Split(text, '\n');
    HeaderWithin(lines);
    var start := FrontMatter.ScannerHeader(lines).next;
    MarkdownFacts.BulletsSpec(lines, start);
    Tables.TablesWellPlaced(Tables.Classified(lines), start);
    var c := MarkdownStructure.CodeBlocksOf(lines, start);
    forall j | 0 <= j < |c|
      ensures start <= c[j].startLineIndex
    {
      MarkdownFacts.CodeBlocksOrdered(lines, start, j);
    }
  }
}
