/** `PlainTextAdapter.parseAndNormalize`
    (Sources/UMAFCore/Parsing/PlainTextAdapter.swift): the canonicalised
    lines are put under a synthetic `# Document` heading, and the one section
    and the plain bullets are addressed against the rewritten text. */
module PlainTextAdapter {
  import opened Wrappers
  import opened Text
  import opened CoreModels
  import opened Paragraphs
  import MarkdownLines
  import LineScanner

  const Heading: seq<string> := ["# Document", ""]

  /** Where the canonical lines start in the rewritten text. */
  const BodyStart: nat := 2

  /** The rewritten lines: the heading, a blank, then the canonical lines. */
  function NormalizedLines(text: string): seq<string>
  {
    Heading + MarkdownLines.Canonical(Split(text, '\n'))
  }

  /** What `parseAndNormalize` returns. */
  function PlainTextParse(text: string): ParseResult
  {
    var clean := MarkdownLines.Canonical(Split(text, '\n'));
    var normalized := Heading + clean;
    ParseResult(
      Join(normalized, '\n'),
      SemanticModel(
        [Section(LineScanner.DocumentHeading, 1, [""] + clean, ParagraphsOf(clean), 0, |normalized| - 1)],
        LineScanner.PlainBullets(clean, |clean|, BodyStart),
        [], [], []))
  }

  method ParseAndNormalize(text: string, mediaType: string) returns (r: ParseResult)
    ensures r == PlainTextParse(text)
  {
    var rawLines := Split(text, '\n');
    var cleanLines := MarkdownLines.CanonicalizeMarkdownLines(rawLines);
    var normalizedLines := ["# Document", ""];
    normalizedLines := normalizedLines + cleanLines;
    var normalizedText := Join(normalizedLines, '\n');
    var endLineIndex := |normalizedLines| - 1;
    var bullets := LineScanner.CollectPlainBullets(cleanLines, BodyStart);
    var paragraphs := MakeParagraphs(cleanLines);
    var section := Section(LineScanner.DocumentHeading, 1, [""] + cleanLines, paragraphs, 0, endLineIndex);
    r := ParseResult(normalizedText, SemanticModel([section], bullets, [], [], []));
  }

  /** Canonicalising lines free of a character keeps them free of it. */
  lemma CanonicalKeepsOut(lines: seq<string>, c: char)
    requires forall i :: 0 <= i < |lines| ==> c !in lines[i]
    ensures forall k :: 0 <= k < |MarkdownLines.Canonical(lines)| ==> c !in MarkdownLines.Canonical(lines)[k]
  {
    var out := MarkdownLines.Canonical(lines);
    var org := MarkdownLines.CanonicalOrigins(lines);
    MarkdownLines.CanonicalRendered(lines);
    forall k | 0 <= k < |out|
      ensures c !in out[k]
    {
      var i := org[k].i;
      DropLastWhileInSpec(lines[i], Whitespaces);
    }
  }

  /** The lines of the rewritten text are the heading, a blank and the
      canonical lines: splitting the text gives them back. */
  lemma NormalizedTextLines(text: string)
    ensures Split(PlainTextParse(text).normalizedText, '\n') == NormalizedLines(text)
  {
    var lines := Split(text, '\n');
    CanonicalKeepsOut(lines, '\n');
    var normalized := NormalizedLines(text);
    forall k | 0 <= k < |normalized|
      ensures '\n' !in normalized[k]
    {
      if k >= 2 {
        assert normalized[k] == MarkdownLines.Canonical(lines)[k - 2];
      }
    }
    SplitJoin(normalized, '\n');
  }

  /** One "Document" section at level 1 spanning the whole rewritten text,
      whose lines are the rewritten lines after the heading; no front
      matter, tables or code blocks. */
  lemma PlainTextSection(text: string)
    ensures var m := PlainTextParse(text).semantic;
      var normalized := NormalizedLines(text);
      && |m.sections| == 1
      && m.sections[0].heading == "Document" && m.sections[0].level == 1
      && m.sections[0].startLineIndex == 0 && m.sections[0].endLineIndex == |normalized| - 1
      && m.sections[0].lines == normalized[1..]
      && m.frontMatter == [] && m.tables == [] && m.codeBlocks == []
  {
    var clean := MarkdownLines.Canonical(Split(text, '\n'));
    assert NormalizedLines(text)[1..] == [""] + clean;
  }

  /** Each bullet's index names the rewritten line it was read from, below
      the synthetic heading; its text is non-empty and it belongs to the
      "Document" section at level 1. */
  lemma PlainTextBullets(text: string)
    ensures var m := PlainTextParse(text).semantic;
      var normalized := NormalizedLines(text);
      forall j :: 0 <= j < |m.bullets| ==>
        && BodyStart <= m.bullets[j].lineIndex < |normalized|
        && LineScanner.PlainBulletText(normalized[m.bullets[j].lineIndex]) == Some(m.bullets[j].text)
        && m.bullets[j].text != []
        && m.bullets[j].sectionHeading == Some("Document")
        && m.bullets[j].sectionLevel == Some(1)
  {
    var clean := MarkdownLines.Canonical(Split(text, '\n'));
    var normalized := NormalizedLines(text);
    var b := LineScanner.PlainBullets(clean, |clean|, BodyStart);
    assert PlainTextParse(text).semantic.bullets == b;
    assert normalized == Heading + clean;
    LineScanner.PlainBulletsSound(clean, |clean|, BodyStart);
    forall j | 0 <= j < |b|
      ensures BodyStart <= b[j].lineIndex < |normalized|
      ensures normalized[b[j].lineIndex] == clean[b[j].lineIndex - BodyStart]
    {
    }
  }
}
