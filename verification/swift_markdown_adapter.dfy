/** The section loop of `SwiftMarkdownAdapter.parse`
    (Sources/UMAFCore/Parsing/Markdown/SwiftMarkdownAdapter.swift): the text
    is rewritten section by section as a heading line, a blank and the body
    without blank ends, and the tables, code blocks and bullets the
    swift-markdown walkers extracted are moved to their lines in the
    rewritten text. The swift-markdown document is not part of this model:
    its headings and extracted elements are inputs. */
module SwiftMarkdownAdapter {
  import opened Wrappers
  import opened Text
  import opened CoreModels
  import opened Paragraphs
  import FrontMatter
  import MarkdownEmitter

  // ---------------------------------------------------------------------
  // Inputs from swift-markdown
  // ---------------------------------------------------------------------

  /** The 1-based first and last source lines of a markdown node. */
  datatype LineRange = LineRange(lower: int, upper: int)

  /** A heading the `HeadingCollector` walker found. */
  datatype MdHeading = MdHeading(range: Option<LineRange>, plainText: string, level: int)

  /** What the `ElementExtractor` walker found, with 0-based source lines. */
  datatype Extracted = Extracted(tables: seq<Table>, codeBlocks: seq<CodeBlock>, bullets: seq<Bullet>)

  // ---------------------------------------------------------------------
  // The heading map
  // ---------------------------------------------------------------------

  /** Whether heading `h` covers the 0-based source line `i`. */
  predicate Covers(h: MdHeading, i: int)
  {
    h.range.Some? && h.range.value.lower - 1 <= i <= h.range.value.upper - 1
  }

  /** `m` with the lines `i` up to `end` mapped to `h`, entered in that
      order; nothing when `i` is past `end`. */
  function CoverFrom(m: map<int, MdHeading>, h: MdHeading, i: int, end: int): map<int, MdHeading>
    decreases end + 1 - i
  {
    if i > end then m else CoverFrom(m[i := h], h, i + 1, end)
  }

  /** `m` after heading `h` has been entered. */
  function Enter(m: map<int, MdHeading>, h: MdHeading): map<int, MdHeading>
  {
    if h.range.None? then m else CoverFrom(m, h, h.range.value.lower - 1, h.range.value.upper - 1)
  }

  /** `headingMap` after the headings of `hs`, in order, have been entered. */
  function HeadingMapOf(hs: seq<MdHeading>): map<int, MdHeading>
  {
    if hs == [] then map[] else Enter(HeadingMapOf(hs[..|hs| - 1]), hs[|hs| - 1])
  }

  /** The `for h in headingWalker.headings` loop. */
  method BuildHeadingMap(hs: seq<MdHeading>) returns (headingMap: map<int, MdHeading>)
    ensures headingMap == HeadingMapOf(hs)
  {
    headingMap := map[];
    for k := 0 to |hs|
      invariant headingMap == HeadingMapOf(hs[..k])
    {
      assert hs[..k + 1][..k] == hs[..k];
      var h := hs[k];
      if h.range.None? {
        continue;
      }
      var start := h.range.value.lower - 1;
      var end := h.range.value.upper - 1;
      ghost var before := headingMap;
      var i := start;
      while i <= end
        invariant CoverFrom(headingMap, h, i, end) == CoverFrom(before, h, start, end)
        decreases end + 1 - i
      {
        headingMap := headingMap[i := h];
        i := i + 1;
      }
    }
    assert hs[..|hs|] == hs;
  }

  /** Entering `h` from line `i` on adds exactly the lines up to `end`, each
      mapped to `h`, and keeps the rest of `m`. */
  lemma {:induction false} CoverFromSpec(m: map<int, MdHeading>, h: MdHeading, i: int, end: int, j: int)
    ensures j in CoverFrom(m, h, i, end) <==> j in m || i <= j <= end
    ensures j in CoverFrom(m, h, i, end) ==>
      CoverFrom(m, h, i, end)[j] == if i <= j <= end then h else m[j]
    decreases end + 1 - i
  {
    if i <= end {
      CoverFromSpec(m[i := h], h, i + 1, end, j);
    }
  }

  /** A line is in the map exactly when some heading covers it, and then it
      maps to the last heading that does. */
  lemma {:induction false} HeadingMapSpec(hs: seq<MdHeading>, i: int)
    ensures i in HeadingMapOf(hs) <==> exists k :: 0 <= k < |hs| && Covers(hs[k], i)
    ensures i in HeadingMapOf(hs) ==>
      exists k :: 0 <= k < |hs| && Covers(hs[k], i) && HeadingMapOf(hs)[i] == hs[k]
        && forall k2 :: k < k2 < |hs| ==> !Covers(hs[k2], i)
  {
    if hs != [] {
      var n := |hs| - 1;
      var init := hs[..n];
      var h := hs[n];
      HeadingMapSpec(init, i);
      assert forall k :: 0 <= k < n ==> init[k] == hs[k];
      if h.range.Some? {
        CoverFromSpec(HeadingMapOf(init), h, h.range.value.lower - 1, h.range.value.upper - 1, i);
      }
      if Covers(h, i) {
        assert HeadingMapOf(hs)[i] == h;
      } else if i in HeadingMapOf(hs) {
        var k :| 0 <= k < n && Covers(init[k], i) && HeadingMapOf(init)[i] == init[k]
          && forall k2 :: k < k2 < n ==> !Covers(init[k2], i);
        assert HeadingMapOf(hs)[i] == hs[k];
      }
    }
  }

  // ---------------------------------------------------------------------
  // Trimming a section body
  // ---------------------------------------------------------------------

  /** The number of blank lines at the top of `body`. */
  function LeadingBlanks(body: seq<string>): (r: nat)
    ensures r <= |body|
  {
    if body != [] && Blank(body[0]) then 1 + LeadingBlanks(body[1..]) else 0
  }

  /** The number of blank lines at the bottom of `body`. */
  function TrailingBlanks(body: seq<string>): (r: nat)
    ensures r <= |body|
  {
    if body != [] && Blank(body[|body| - 1]) then 1 + TrailingBlanks(body[..|body| - 1]) else 0
  }

  /** The trimmed body, as a slice of the body. */
  function TrimmedBody(body: seq<string>): seq<string>
  {
    var top := LeadingBlanks(body);
    body[top..|body| - TrailingBlanks(body[top..])]
  }

  /** The two `while let` loops at the top of `flushSection`. */
  method TrimBody(body: seq<string>) returns (trimmedBody: seq<string>, trimTopCount: nat)
    ensures trimTopCount == LeadingBlanks(body)
    ensures trimmedBody == TrimmedBody(body)
  {
    trimmedBody := body;
    trimTopCount := 0;
    while trimmedBody != [] && Trim(trimmedBody[0], Whitespaces) == []
      invariant trimTopCount <= |body| && trimmedBody == body[trimTopCount..]
      invariant LeadingBlanks(body) == trimTopCount + LeadingBlanks(trimmedBody)
      decreases |trimmedBody|
    {
      LeadingStep(trimmedBody);
      trimmedBody := trimmedBody[1..];
      trimTopCount := trimTopCount + 1;
    }
    LeadingStep(trimmedBody);
    ghost var rest := trimmedBody;
    ghost var kept := |rest|;
    while trimmedBody != [] && Trim(trimmedBody[|trimmedBody| - 1], Whitespaces) == []
      invariant kept == |trimmedBody| <= |rest| && trimmedBody == rest[..kept]
      invariant TrailingBlanks(rest) == |rest| - kept + TrailingBlanks(trimmedBody)
      decreases |trimmedBody|
    {
      TrailingStep(trimmedBody);
      trimmedBody := trimmedBody[..|trimmedBody| - 1];
      kept := kept - 1;
    }
    TrailingStep(trimmedBody);
  }

  lemma LeadingStep(body: seq<string>)
    ensures body != [] && Blank(body[0]) ==> LeadingBlanks(body) == 1 + LeadingBlanks(body[1..])
    ensures body == [] || !Blank(body[0]) ==> LeadingBlanks(body) == 0
  {
  }

  lemma TrailingStep(body: seq<string>)
    ensures body != [] && Blank(body[|body| - 1]) ==> TrailingBlanks(body) == 1 + TrailingBlanks(body[..|body| - 1])
    ensures body == [] || !Blank(body[|body| - 1]) ==> TrailingBlanks(body) == 0
  {
  }

  /** The blank lines counted at the top are blank, and the first line after
      them is not. */
  lemma {:induction false} LeadingBlanksSpec(body: seq<string>)
    ensures forall k :: 0 <= k < LeadingBlanks(body) ==> Blank(body[k])
    ensures LeadingBlanks(body) < |body| ==> !Blank(body[LeadingBlanks(body)])
  {
    if body != [] && Blank(body[0]) {
      LeadingBlanksSpec(body[1..]);
    }
  }

  /** The blank lines counted at the bottom are blank, and the last line
      before them is not. */
  lemma {:induction false} TrailingBlanksSpec(body: seq<string>)
    ensures forall k :: |body| - TrailingBlanks(body) <= k < |body| ==> Blank(body[k])
    ensures TrailingBlanks(body) < |body| ==> !Blank(body[|body| - TrailingBlanks(body) - 1])
  {
    if body != [] && Blank(body[|body| - 1]) {
      TrailingBlanksSpec(body[..|body| - 1]);
    }
  }

  /** The trimmed body is the part of the body after its blank top lines. */
  lemma TrimmedBodySlice(body: seq<string>, top: nat, t: seq<string>)
    requires top == LeadingBlanks(body) && t == TrimmedBody(body)
    ensures top + |t| <= |body|
    ensures t == body[top..top + |t|]
  {
  }

  lemma BlankTail(body: seq<string>, top: nat, from: nat)
    requires top <= |body| && top <= from
    requires forall j :: from - top <= j < |body| - top ==> Blank(body[top..][j])
    ensures forall k :: from <= k < |body| ==> Blank(body[k])
  {
    forall k | from <= k < |body|
      ensures Blank(body[k])
    {
      assert body[top..][k - top] == body[k];
    }
  }

  /** Every line the trimming drops, above or below, is blank. */
  lemma TrimmedBodyDropsBlanks(body: seq<string>, top: nat, t: seq<string>)
    requires top == LeadingBlanks(body) && t == TrimmedBody(body)
    ensures forall k :: 0 <= k < top ==> Blank(body[k])
    ensures forall k :: top + |t| <= k < |body| ==> Blank(body[k])
  {
    var rest := body[top..];
    var bottom := TrailingBlanks(rest);
    assert |t| == |rest| - bottom;
    LeadingBlanksSpec(body);
    assert forall j :: |rest| - bottom <= j < |rest| ==> Blank(body[top..][j]) by {
      TrailingBlanksSpec(rest);
    }
    BlankTail(body, top, top + |t|);
  }

  /** The trimmed body neither starts nor ends with a blank line. */
  lemma TrimmedBodyEnds(body: seq<string>, top: nat, t: seq<string>)
    requires top == LeadingBlanks(body) && t == TrimmedBody(body)
    ensures t != [] ==> !Blank(t[0]) && !Blank(t[|t| - 1])
  {
    var rest := body[top..];
    var bottom := TrailingBlanks(rest);
    assert t == rest[..|rest| - bottom];
    if t != [] {
      assert !Blank(t[0]) by {
        LeadingBlanksSpec(body);
        assert t[0] == body[top];
      }
      assert !Blank(t[|t| - 1]) by {
        TrailingBlanksSpec(rest);
        assert t[|t| - 1] == rest[|rest| - bottom - 1];
      }
    }
  }

  // ---------------------------------------------------------------------
  // Moving the extracted elements
  // ---------------------------------------------------------------------

  /** Whether an element at source line `idx` is kept for the current body:
      it lies in the body's source range and below its trimmed top. */
  predicate Kept(idx: int, bodyStart: int, bodyCount: int, top: int)
  {
    bodyStart <= idx < bodyStart + bodyCount && idx >= bodyStart + top
  }

  /** The elements of `xs` kept for the body, in order, each moved to its
      line plus `offset`. */
  function Relocated<T>(xs: seq<T>, at: T -> int, move: (T, int) -> T,
                        bodyStart: int, bodyCount: int, top: int, offset: int): seq<T>
  {
    if xs == [] then []
    else
      var x := xs[|xs| - 1];
      Relocated(xs[..|xs| - 1], at, move, bodyStart, bodyCount, top, offset)
        + (if Kept(at(x), bodyStart, bodyCount, top) then [move(x, at(x) + offset)] else [])
  }

  /** One of the three `for ... in sourceExtractor....` loops. */
  method Relocate<T>(xs: seq<T>, at: T -> int, move: (T, int) -> T,
                     bodyStart: int, bodyCount: int, top: int, offset: int) returns (kept: seq<T>)
    ensures kept == Relocated(xs, at, move, bodyStart, bodyCount, top, offset)
  {
    kept := [];
    for k := 0 to |xs|
      invariant kept == Relocated(xs[..k], at, move, bodyStart, bodyCount, top, offset)
    {
      assert xs[..k + 1][..k] == xs[..k];
      var x := xs[k];
      if bodyStart <= at(x) < bodyStart + bodyCount {
        if at(x) >= bodyStart + top {
          kept := kept + [move(x, at(x) + offset)];
        }
      }
    }
    assert xs[..|xs|] == xs;
  }

  /** Every moved element is a kept one, shifted by `offset`. */
  lemma {:induction false} RelocatedSound<T>(xs: seq<T>, at: T -> int, move: (T, int) -> T,
                                             bodyStart: int, bodyCount: int, top: int, offset: int, j: nat)
    requires j < |Relocated(xs, at, move, bodyStart, bodyCount, top, offset)|
    ensures exists k :: (0 <= k < |xs| && Kept(at(xs[k]), bodyStart, bodyCount, top)
                         && Relocated(xs, at, move, bodyStart, bodyCount, top, offset)[j] == move(xs[k], at(xs[k]) + offset))
  {
    var n := |xs| - 1;
    var init := xs[..n];
    var x := xs[n];
    var r0 := Relocated(init, at, move, bodyStart, bodyCount, top, offset);
    var r := Relocated(xs, at, move, bodyStart, bodyCount, top, offset);
    assert r == r0 + (if Kept(at(x), bodyStart, bodyCount, top) then [move(x, at(x) + offset)] else []);
    if j < |r0| {
      RelocatedSound(init, at, move, bodyStart, bodyCount, top, offset, j);
      var k :| 0 <= k < |init| && Kept(at(init[k]), bodyStart, bodyCount, top) && r0[j] == move(init[k], at(init[k]) + offset);
      assert init[k] == xs[k];
    } else {
      assert Kept(at(xs[n]), bodyStart, bodyCount, top) && r[j] == move(xs[n], at(xs[n]) + offset);
    }
  }

  /** Every kept element is moved, and nothing else is: there are at most as
      many moved elements as elements. */
  lemma {:induction false} RelocatedComplete<T>(xs: seq<T>, at: T -> int, move: (T, int) -> T,
                                                bodyStart: int, bodyCount: int, top: int, offset: int)
    ensures |Relocated(xs, at, move, bodyStart, bodyCount, top, offset)| <= |xs|
    ensures forall k :: 0 <= k < |xs| && Kept(at(xs[k]), bodyStart, bodyCount, top) ==>
      move(xs[k], at(xs[k]) + offset) in Relocated(xs, at, move, bodyStart, bodyCount, top, offset)
  {
    if xs != [] {
      var n := |xs| - 1;
      var init := xs[..n];
      RelocatedComplete(init, at, move, bodyStart, bodyCount, top, offset);
      assert forall k :: 0 <= k < n ==> init[k] == xs[k];
    }
  }

  function TableStart(t: Table): int { t.startLineIndex }
  function MoveTable(t: Table, n: int): Table { t.(startLineIndex := n) }
  function CodeStart(c: CodeBlock): int { c.startLineIndex }
  function MoveCode(c: CodeBlock, n: int): CodeBlock { c.(startLineIndex := n) }
  function BulletIndex(b: Bullet): int { b.lineIndex }
  function MoveBullet(b: Bullet, n: int): Bullet { b.(lineIndex := n) }

  /** The bullets, tagged with a section's heading and level. */
  function Tagged(bs: seq<Bullet>, heading: string, level: int): (r: seq<Bullet>)
    ensures |r| == |bs|
    ensures forall j :: 0 <= j < |r| ==>
      r[j] == Bullet(bs[j].text, bs[j].lineIndex, Some(heading), Some(level))
  {
    seq(|bs|, j requires 0 <= j < |bs| => Bullet(bs[j].text, bs[j].lineIndex, Some(heading), Some(level)))
  }

  // ---------------------------------------------------------------------
  // Flushing a section
  // ---------------------------------------------------------------------

  /** The local state `parse` threads through `flushSection` and its loop. */
  datatype Writer = Writer(
    lines: seq<string>,
    sections: seq<Section>,
    tables: seq<Table>,
    codeBlocks: seq<CodeBlock>,
    bullets: seq<Bullet>,
    outputLine: int,
    heading: string,
    level: int,
    body: seq<string>,
    bodyStart: int)

  /** `String(repeating: "#", count: level) + " " + heading`. */
  function HeadingLine(heading: string, level: int): string
  {
    Repeat("#", if level >= 0 then level else 0) + " " + heading
  }

  /** The lines a flush writes. */
  function FlushLines(w: Writer, isLast: bool): seq<string>
  {
    [HeadingLine(w.heading, w.level)] + ([""] + TrimmedBody(w.body)) + (if isLast then [] else [""])
  }

  /** What elements of the body are moved by: from their source line to
      the rewritten line of the same body line. */
  function Offset(w: Writer): int
  {
    w.outputLine + 2 - (w.bodyStart + LeadingBlanks(w.body))
  }

  /** The section a flush records. */
  function FlushedSection(w: Writer, isLast: bool): Section
  {
    var trimmed := TrimmedBody(w.body);
    Section(w.heading, w.level, [""] + trimmed, ParagraphsOf(trimmed), w.outputLine,
            |w.lines| + |FlushLines(w, isLast)| - 1)
  }

  /** What `flushSection(isLast:)` does to the state. */
  function Flushed(w: Writer, isLast: bool, ex: Extracted): Writer
  {
    var top := LeadingBlanks(w.body);
    var lines := w.lines + FlushLines(w, isLast);
    Writer(
      lines,
      w.sections + [FlushedSection(w, isLast)],
      w.tables + Relocated(ex.tables, TableStart, MoveTable, w.bodyStart, |w.body|, top, Offset(w)),
      w.codeBlocks + Relocated(ex.codeBlocks, CodeStart, MoveCode, w.bodyStart, |w.body|, top, Offset(w)),
      w.bullets + Tagged(Relocated(ex.bullets, BulletIndex, MoveBullet, w.bodyStart, |w.body|, top, Offset(w)),
                         w.heading, w.level),
      |lines|,
      w.heading, w.level, [], w.bodyStart)
  }

  /** `flushSection(isLast:)`. */
  method FlushSection(w: Writer, isLast: bool, ex: Extracted) returns (w': Writer)
    ensures w' == Flushed(w, isLast, ex)
  {
    var trimmedBody, trimTopCount := TrimBody(w.body);
    var sectionStartIndex := w.outputLine;
    var sectionLines := [""] + trimmedBody;
    var written := [HeadingLine(w.heading, w.level)] + sectionLines;
    if !isLast {
      written := written + [""];
    }
    assert written == FlushLines(w, isLast);
    var lines := w.lines + written;
    var sectionEndIndex := |lines| - 1;
    var bodyStartOutputIndex := w.outputLine + 2;
    var p := MakeParagraphs(trimmedBody);
    var sections := w.sections + [Section(w.heading, w.level, sectionLines, p, sectionStartIndex, sectionEndIndex)];
    var effectiveOffset := bodyStartOutputIndex - (w.bodyStart + trimTopCount);
    var tables := Relocate(ex.tables, TableStart, MoveTable, w.bodyStart, |w.body|, trimTopCount, effectiveOffset);
    var codeBlocks := Relocate(ex.codeBlocks, CodeStart, MoveCode, w.bodyStart, |w.body|, trimTopCount, effectiveOffset);
    var moved := Relocate(ex.bullets, BulletIndex, MoveBullet, w.bodyStart, |w.body|, trimTopCount, effectiveOffset);
    var bullets := TagBullets(moved, w.heading, w.level);
    w' := Writer(lines, sections, w.tables + tables, w.codeBlocks + codeBlocks, w.bullets + bullets,
                 |lines|, w.heading, w.level, [], w.bodyStart);
  }

  /** The bullets rebuilt with `sectionHeading: currentHeading, sectionLevel: currentLevel`. */
  method TagBullets(bs: seq<Bullet>, heading: string, level: int) returns (r: seq<Bullet>)
    ensures r == Tagged(bs, heading, level)
  {
    r := [];
    for k := 0 to |bs|
      invariant r == Tagged(bs[..k], heading, level)
    {
      r := r + [Bullet(bs[k].text, bs[k].lineIndex, Some(heading), Some(level))];
    }
    assert bs[..|bs|] == bs;
  }

  /** Realignment: a source line of the kept body, `idx`, shifted by the
      offset the elements are moved by, names the rewritten line that holds
      the same text. */
  lemma FlushAligns(w: Writer, isLast: bool, ex: Extracted, idx: int)
    requires w.outputLine == |w.lines|
    requires w.bodyStart + LeadingBlanks(w.body) <= idx < w.bodyStart + LeadingBlanks(w.body) + |TrimmedBody(w.body)|
    ensures 0 <= idx + Offset(w) < |Flushed(w, isLast, ex).lines|
    ensures Flushed(w, isLast, ex).lines[idx + Offset(w)] == w.body[idx - w.bodyStart]
  {
    var top := LeadingBlanks(w.body);
    var t := TrimmedBody(w.body);
    TrimmedBodySlice(w.body, LeadingBlanks(w.body), TrimmedBody(w.body));
    var p := idx - w.bodyStart - top;
    assert FlushLines(w, isLast)[2 + p] == t[p];
    assert t[p] == w.body[top + p];
  }

  // ---------------------------------------------------------------------
  // The section loop
  // ---------------------------------------------------------------------

  /** The guard before `flushSection()` at a heading: something has been
      written or read, or the heading is no longer the initial "Document". */
  predicate ShouldFlush(w: Writer)
  {
    w.sections != [] || w.body != [] || w.heading != "Document"
  }

  /** A heading starting at the current line: flush if needed, then make it
      the current heading. */
  function Opened(w: Writer, h: MdHeading, ex: Extracted): Writer
  {
    var w0 := if ShouldFlush(w) then Flushed(w, false, ex) else w;
    w0.(heading := h.plainText, level := h.level)
  }

  /** Whether heading `h` starts at the 0-based source line `i`. */
  predicate StartsAt(h: MdHeading, i: int)
  {
    h.range.Some? && h.range.value.lower == i + 1
  }

  /** One pass of `for i in startIndex..<sourceLines.count`. */
  function Step(w: Writer, src: seq<string>, headingMap: map<int, MdHeading>, ex: Extracted, i: nat): Writer
    requires i < |src|
  {
    if i in headingMap then
      var h := headingMap[i];
      var w1 := if StartsAt(h, i) then Opened(w, h, ex) else w;
      w1.(bodyStart := i + 1)
    else w.(body := w.body + [src[i]])
  }

  /** The loop from line `i` to the end. */
  function Walk(w: Writer, src: seq<string>, headingMap: map<int, MdHeading>, ex: Extracted, i: nat): Writer
    requires i <= |src|
    decreases |src| - i
  {
    if i == |src| then w else Walk(Step(w, src, headingMap, ex, i), src, headingMap, ex, i + 1)
  }

  /** The first line after the front matter, or 0 without front matter. */
  function StartIndex(src: seq<string>): (r: nat)
    ensures r <= |src|
  {
    FrontMatter.AdapterFrontMatter(src).endLineIndex + 1
  }

  /** The state before the loop: the front matter written, no section. */
  function Initial(src: seq<string>): Writer
  {
    var head := MarkdownEmitter.FrontMatterLines(FrontMatter.AdapterFrontMatter(src).entries);
    Writer(head, [], [], [], [], |head|, "Document", 1, [], StartIndex(src))
  }

  /** The state after the final `flushSection(isLast: true)`. */
  function Final(text: string, headings: seq<MdHeading>, ex: Extracted): Writer
  {
    var src := Split(text, '\n');
    Flushed(Walk(Initial(src), src, HeadingMapOf(headings), ex, StartIndex(src)), true, ex)
  }

  /** What `parse(text:)` returns, given swift-markdown's headings and
      extracted elements for `text`. */
  function AdapterParse(text: string, headings: seq<MdHeading>, ex: Extracted): ParseResult
  {
    var w := Final(text, headings, ex);
    ParseResult(
      Join(w.lines, '\n'),
      SemanticModel(w.sections, w.bullets, FrontMatter.AdapterFrontMatter(Split(text, '\n')).entries,
                    w.tables, w.codeBlocks))
  }

  method Parse(text: string, headings: seq<MdHeading>, ex: Extracted) returns (r: ParseResult)
    ensures r == AdapterParse(text, headings, ex)
  {
    var sourceLines := Split(text, '\n');
    var frontMatter, fmEndIndex := FrontMatter.ParseFrontMatter(sourceLines);
    var headingMap := BuildHeadingMap(headings);
    var normalizedLines := MarkdownEmitter.EmitFrontMatter(frontMatter);
    var startIndex := fmEndIndex + 1;
    var w := Writer(normalizedLines, [], [], [], [], |normalizedLines|, "Document", 1, [], startIndex);
    assert w == Initial(sourceLines);
    for i := startIndex to |sourceLines|
      invariant Walk(w, sourceLines, headingMap, ex, i) == Walk(Initial(sourceLines), sourceLines, headingMap, ex, startIndex)
    {
      if i in headingMap {
        var heading := headingMap[i];
        if heading.range.Some? && heading.range.value.lower == i + 1 {
          if w.sections != [] || w.body != [] || w.heading != "Document" {
            w := FlushSection(w, false, ex);
          }
          w := w.(heading := heading.plainText, level := heading.level);
        }
        w := w.(bodyStart := i + 1);
      } else {
        w := w.(body := w.body + [sourceLines[i]]);
      }
    }
    w := FlushSection(w, true, ex);
    var finalNormalizedText := Join(w.lines, '\n');
    r := ParseResult(finalNormalizedText, SemanticModel(w.sections, w.bullets, frontMatter, w.tables, w.codeBlocks));
  }

  // ---------------------------------------------------------------------
  // Layout of the rewritten text
  // ---------------------------------------------------------------------

  /** Section `s` sits in `lines`: its heading line at its start index, then
      its lines, then, when `closed`, a blank separator; its end index is
      its last line. */
  predicate Placed(lines: seq<string>, s: Section, closed: bool)
  {
    && 0 <= s.startLineIndex
    && s.endLineIndex == s.startLineIndex + |s.lines| + (if closed then 1 else 0)
    && s.endLineIndex < |lines|
    && lines[s.startLineIndex] == HeadingLine(s.heading, s.level)
    && lines[s.startLineIndex + 1..s.startLineIndex + 1 + |s.lines|] == s.lines
    && (closed ==> lines[s.endLineIndex] == "")
  }

  /** A section's lines are a blank, then a body that neither starts nor
      ends with a blank line. */
  predicate Shaped(s: Section)
  {
    && s.lines != [] && s.lines[0] == ""
    && (|s.lines| > 1 ==> !Blank(s.lines[1]) && !Blank(s.lines[|s.lines| - 1]))
  }

  /** The sections `ss` laid out in `lines` after `head`: back to back,
      each closed by a blank, the last one ending at the last line. */
  predicate LaidOut(lines: seq<string>, ss: seq<Section>, head: seq<string>)
  {
    && |head| <= |lines| && lines[..|head|] == head
    && (ss == [] ==> |lines| == |head|)
    && (ss != [] ==> ss[0].startLineIndex == |head| && ss[|ss| - 1].endLineIndex == |lines| - 1)
    && (forall k :: 0 <= k < |ss| ==> Placed(lines, ss[k], true) && Shaped(ss[k]))
    && (forall k :: 0 <= k < |ss| - 1 ==> ss[k + 1].startLineIndex == ss[k].endLineIndex + 1)
  }

  /** The same, except that the last section is not closed by a blank. */
  predicate LaidOutFinal(lines: seq<string>, ss: seq<Section>, head: seq<string>)
  {
    && |ss| >= 1
    && |head| <= |lines| && lines[..|head|] == head
    && ss[0].startLineIndex == |head|
    && (forall k :: 0 <= k < |ss| ==> Shaped(ss[k]))
    && (forall k :: 0 <= k < |ss| - 1 ==>
          Placed(lines, ss[k], true) && ss[k + 1].startLineIndex == ss[k].endLineIndex + 1)
    && Placed(lines, ss[|ss| - 1], false)
    && ss[|ss| - 1].endLineIndex == |lines| - 1
  }

  /** The invariant of the loop. */
  predicate Laid(w: Writer, head: seq<string>)
  {
    w.outputLine == |w.lines| && LaidOut(w.lines, w.sections, head)
  }

  lemma PlacedAppend(lines: seq<string>, more: seq<string>, s: Section, closed: bool)
    requires Placed(lines, s, closed)
    ensures Placed(lines + more, s, closed)
  {
    var a := s.startLineIndex + 1;
    var b := a + |s.lines|;
    assert (lines + more)[a..b] == lines[a..b];
  }

  /** The section a flush records sits right after the earlier lines and is
      closed unless it is the last. */
  lemma NewSectionPlaced(w: Writer, isLast: bool)
    requires w.outputLine == |w.lines|
    ensures var s := FlushedSection(w, isLast);
      var lines := w.lines + FlushLines(w, isLast);
      && s.startLineIndex == |w.lines|
      && s.endLineIndex == |lines| - 1
      && Placed(lines, s, !isLast)
      && Shaped(s)
  {
    var t := TrimmedBody(w.body);
    var s := FlushedSection(w, isLast);
    var lines := w.lines + FlushLines(w, isLast);
    var n := |w.lines|;
    TrimmedBodyEnds(w.body, LeadingBlanks(w.body), TrimmedBody(w.body));
    assert lines == w.lines + ([HeadingLine(w.heading, w.level)] + s.lines + (if isLast then [] else [""]));
    assert lines[n + 1..n + 1 + |s.lines|] == s.lines;
  }

  /** Appending lines keeps the header and every laid-out section in
      place. */
  lemma KeepLaid(lines: seq<string>, more: seq<string>, ss: seq<Section>, head: seq<string>)
    requires LaidOut(lines, ss, head)
    ensures (lines + more)[..|head|] == head
    ensures forall k :: 0 <= k < |ss| ==> Placed(lines + more, ss[k], true)
  {
    assert (lines + more)[..|head|] == lines[..|head|];
    forall k | 0 <= k < |ss|
      ensures Placed(lines + more, ss[k], true)
    {
      PlacedAppend(lines, more, ss[k], true);
    }
  }

  /** A closed section placed after laid-out sections, with its own lines,
      keeps the layout. */
  lemma AppendLaid(lines: seq<string>, more: seq<string>, ss: seq<Section>, s: Section, head: seq<string>)
    requires LaidOut(lines, ss, head)
    requires s.startLineIndex == |lines| && s.endLineIndex == |lines + more| - 1
    requires Placed(lines + more, s, true) && Shaped(s)
    ensures LaidOut(lines + more, ss + [s], head)
  {
    var ss' := ss + [s];
    KeepLaid(lines, more, ss, head);
    assert ss'[|ss|] == s;
    forall k | 0 <= k < |ss'|
      ensures Placed(lines + more, ss'[k], true) && Shaped(ss'[k])
    {
      if k < |ss| {
        assert ss'[k] == ss[k];
      }
    }
    forall k | 0 <= k < |ss'| - 1
      ensures ss'[k + 1].startLineIndex == ss'[k].endLineIndex + 1
    {
      assert ss'[k] == ss[k];
      if k + 1 < |ss| {
        assert ss'[k + 1] == ss[k + 1];
      }
    }
  }

  /** An open section placed after laid-out sections, with its own lines,
      completes the layout. */
  lemma AppendLaidFinal(lines: seq<string>, more: seq<string>, ss: seq<Section>, s: Section, head: seq<string>)
    requires LaidOut(lines, ss, head)
    requires s.startLineIndex == |lines| && s.endLineIndex == |lines + more| - 1
    requires Placed(lines + more, s, false) && Shaped(s)
    ensures LaidOutFinal(lines + more, ss + [s], head)
  {
    var ss' := ss + [s];
    KeepLaid(lines, more, ss, head);
    assert ss'[|ss|] == s;
    forall k | 0 <= k < |ss'| - 1
      ensures Placed(lines + more, ss'[k], true) && ss'[k + 1].startLineIndex == ss'[k].endLineIndex + 1
    {
      assert ss'[k] == ss[k];
      if k + 1 < |ss| {
        assert ss'[k + 1] == ss[k + 1];
      }
    }
    forall k | 0 <= k < |ss'|
      ensures Shaped(ss'[k])
    {
      if k < |ss| {
        assert ss'[k] == ss[k];
      }
    }
  }

  /** A flush that is not the last keeps the invariant. */
  lemma FlushedLaid(w: Writer, head: seq<string>, ex: Extracted)
    requires Laid(w, head)
    ensures Laid(Flushed(w, false, ex), head)
  {
    NewSectionPlaced(w, false);
    AppendLaid(w.lines, FlushLines(w, false), w.sections, FlushedSection(w, false), head);
  }

  /** One pass of the loop keeps the invariant. */
  lemma StepLaid(w: Writer, src: seq<string>, headingMap: map<int, MdHeading>, ex: Extracted, i: nat, head: seq<string>)
    requires i < |src| && Laid(w, head)
    ensures Laid(Step(w, src, headingMap, ex, i), head)
  {
    if i in headingMap && ShouldFlush(w) {
      FlushedLaid(w, head, ex);
    }
  }

  lemma {:induction false} WalkLaid(w: Writer, src: seq<string>, headingMap: map<int, MdHeading>, ex: Extracted, i: nat, head: seq<string>)
    requires i <= |src| && Laid(w, head)
    ensures Laid(Walk(w, src, headingMap, ex, i), head)
    decreases |src| - i
  {
    if i < |src| {
      StepLaid(w, src, headingMap, ex, i, head);
      WalkLaid(Step(w, src, headingMap, ex, i), src, headingMap, ex, i + 1, head);
    }
  }

  /** The rewritten lines: the front matter block, then at least one
      section; each section is a heading line at its start index, a blank
      and its body without blank ends; every section but the last is
      followed by a blank line that is its end index, the next section
      starts right after it, and the last section ends at the last line. */
  lemma AdapterLayout(text: string, headings: seq<MdHeading>, ex: Extracted)
    ensures LaidOutFinal(Final(text, headings, ex).lines, Final(text, headings, ex).sections,
                         MarkdownEmitter.FrontMatterLines(FrontMatter.AdapterFrontMatter(Split(text, '\n')).entries))
  {
    var src := Split(text, '\n');
    var w0 := Initial(src);
    var head := w0.lines;
    assert head[..|head|] == head;
    WalkLaid(w0, src, HeadingMapOf(headings), ex, StartIndex(src), head);
    var w := Walk(w0, src, HeadingMapOf(headings), ex, StartIndex(src));
    NewSectionPlaced(w, true);
    AppendLaidFinal(w.lines, FlushLines(w, true), w.sections, FlushedSection(w, true), head);
  }

  // ---------------------------------------------------------------------
  // The first section
  // ---------------------------------------------------------------------

  /** The loop only ever adds sections after the ones already written. */
  lemma {:induction false} WalkKeepsSections(w: Writer, src: seq<string>, headingMap: map<int, MdHeading>, ex: Extracted, i: nat)
    requires i <= |src|
    ensures |Walk(w, src, headingMap, ex, i).sections| >= |w.sections|
    ensures Walk(w, src, headingMap, ex, i).sections[..|w.sections|] == w.sections
    decreases |src| - i
  {
    if i < |src| {
      var w1 := Step(w, src, headingMap, ex, i);
      assert |w1.sections| >= |w.sections| && w1.sections[..|w.sections|] == w.sections;
      WalkKeepsSections(w1, src, headingMap, ex, i + 1);
      var r := Walk(w1, src, headingMap, ex, i + 1);
      assert r.sections[..|w.sections|] == r.sections[..|w1.sections|][..|w.sections|];
    }
  }

  /** Once a heading other than the initial "Document" is current and
      nothing is written, the first section written carries it. */
  lemma {:induction false} FirstHeadingKept(w: Writer, src: seq<string>, headingMap: map<int, MdHeading>, ex: Extracted, i: nat)
    requires i <= |src| && w.sections == [] && w.heading != "Document"
    ensures |Flushed(Walk(w, src, headingMap, ex, i), true, ex).sections| >= 1
    ensures Flushed(Walk(w, src, headingMap, ex, i), true, ex).sections[0].heading == w.heading
    ensures Flushed(Walk(w, src, headingMap, ex, i), true, ex).sections[0].level == w.level
    decreases |src| - i
  {
    if i < |src| {
      var w1 := Step(w, src, headingMap, ex, i);
      if i in headingMap && StartsAt(headingMap[i], i) {
        assert w1.sections == [FlushedSection(w, false)];
        WalkKeepsSections(w1, src, headingMap, ex, i + 1);
        var r := Walk(w1, src, headingMap, ex, i + 1);
        assert r.sections[0] == w1.sections[0];
        assert Flushed(r, true, ex).sections[0] == r.sections[0];
      } else {
        assert w1.sections == [] && w1.heading == w.heading && w1.level == w.level;
        FirstHeadingKept(w1, src, headingMap, ex, i + 1);
      }
    }
  }

  /** A heading on the first line after the front matter opens the first
      section: no empty initial "Document" section is written before it. */
  lemma LeadingHeadingOpensFirstSection(text: string, headings: seq<MdHeading>, ex: Extracted)
    requires StartIndex(Split(text, '\n')) < |Split(text, '\n')|
    requires StartIndex(Split(text, '\n')) in HeadingMapOf(headings)
    requires StartsAt(HeadingMapOf(headings)[StartIndex(Split(text, '\n'))], StartIndex(Split(text, '\n')))
    requires HeadingMapOf(headings)[StartIndex(Split(text, '\n'))].plainText != "Document"
    ensures Final(text, headings, ex).sections[0].heading == HeadingMapOf(headings)[StartIndex(Split(text, '\n'))].plainText
    ensures Final(text, headings, ex).sections[0].level == HeadingMapOf(headings)[StartIndex(Split(text, '\n'))].level
  {
    var src := Split(text, '\n');
    var hm := HeadingMapOf(headings);
    var i := StartIndex(src);
    var w0 := Initial(src);
    var w1 := Step(w0, src, hm, ex, i);
    assert !ShouldFlush(w0);
    assert w1.sections == [] && w1.heading == hm[i].plainText && w1.level == hm[i].level;
    FirstHeadingKept(w1, src, hm, ex, i + 1);
  }
}
