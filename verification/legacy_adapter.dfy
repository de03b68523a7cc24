/** `LegacyAdapter.parse` (Sources/UMAFCore/Parsing/Legacy/LegacyAdapter.swift):
    the fallback parser reads any text as one "Document" section holding
    every line, plus the plain bullets. Its bullet loop and its paragraph
    and canonicaliser helpers are the scanner's, so the shared members are
    used; its `buildMarkdown` is `MarkdownEmitter.BuildMarkdown`. */
module LegacyAdapter {
  import opened Wrappers
  import opened Text
  import opened CoreModels
  import opened Paragraphs
  import LineScanner

  /** What `parse(text:)` returns. */
  function LegacyParse(text: string): SemanticModel
  {
    var lines := Split(text, '\n');
    SemanticModel([LineScanner.DocumentSection(lines)], LineScanner.PlainBullets(lines, |lines|, 0), [], [], [])
  }

  method Parse(text: string)
    returns (sections: seq<Section>, bullets: seq<Bullet>, frontMatter: seq<FrontMatterEntry>,
             tables: seq<Table>, codeBlocks: seq<CodeBlock>)
    ensures SemanticModel(sections, bullets, frontMatter, tables, codeBlocks) == LegacyParse(text)
  {
    var allLines := Split(text, '\n');
    bullets := LineScanner.CollectPlainBullets(allLines, 0);
    var paragraphs := MakeParagraphs(allLines);
    sections := [Section(LineScanner.DocumentHeading, 1, allLines, paragraphs, 0, 0)];
    return sections, bullets, [], [], [];
  }

  /** The fallback parser agrees with the line scanner on every media type
      that is neither JSON nor markdown. */
  lemma LegacyIsScannerPlainText(text: string, mediaType: string)
    requires mediaType != LineScanner.Json && mediaType != LineScanner.Markdown
    ensures LegacyParse(text) == LineScanner.SemanticStructure(text, mediaType)
  {
  }

  /** One "Document" section at level 1 over all lines, with their
      paragraphs, and no front matter, tables or code blocks. */
  lemma LegacyParseShape(text: string, lines: seq<string>)
    requires lines == Split(text, '\n')
    ensures |LegacyParse(text).sections| == 1
    ensures LegacyParse(text).sections[0].heading == "Document" && LegacyParse(text).sections[0].level == 1
    ensures LegacyParse(text).sections[0].lines == lines
    ensures LegacyParse(text).sections[0].paragraphs == ParagraphsOf(lines)
    ensures LegacyParse(text).frontMatter == [] && LegacyParse(text).tables == [] && LegacyParse(text).codeBlocks == []
  {
  }

  /** A line yields a bullet, at its own index and tagged with the "Document"
      section, exactly when its first non-blank character is `-`, `*` or `•`
      followed by non-empty text, in which case the bullet carries that
      text. */
  lemma LegacyBulletsSpec(text: string, lines: seq<string>, bullets: seq<Bullet>)
    requires lines == Split(text, '\n') && bullets == LegacyParse(text).bullets
    ensures forall j :: 0 <= j < |bullets| ==>
      && 0 <= bullets[j].lineIndex < |lines|
      && LineScanner.PlainBulletText(lines[bullets[j].lineIndex]) == Some(bullets[j].text)
      && bullets[j].sectionHeading == Some("Document")
      && bullets[j].sectionLevel == Some(1)
    ensures forall i :: 0 <= i < |lines| ==>
      (LineScanner.PlainBulletText(lines[i]).Some? <==> exists j :: 0 <= j < |bullets| && bullets[j].lineIndex == i)
  {
    assert bullets == LineScanner.PlainBullets(lines, |lines|, 0);
    LineScanner.PlainBulletsSound(lines, |lines|, 0);
    forall i | 0 <= i < |lines| && LineScanner.PlainBulletText(lines[i]).Some?
      ensures exists j :: 0 <= j < |bullets| && bullets[j].lineIndex == i
    {
      LineScanner.PlainBulletsComplete(lines, |lines|, 0, i);
    }
  }
}
