/** `UMAFWalkerV0_5.build` and `ensureRootSpanAndBlock`
    (Sources/UMAFCore/Walker/UMAFWalker.swift): the placements of the
    document's items, the root pair, the three emission phases (sorted
    structural items, paragraph runs of each recorded section, raw runs of
    the lines no span covers) and the envelope that carries the core fields
    over unchanged. */
module WalkerBuild {
  import opened Wrappers
  import opened Text
  import opened CoreModels
  import opened BlockProvenance
  import opened WalkerIds
  import opened WalkerPlacements
  import opened WalkerSections
  import opened WalkerRanges
  import opened WalkerItems
  import opened WalkerEmit

  // ---------------------------------------------------------------------
  // Placements
  // ---------------------------------------------------------------------

  /** `compactMap`'s filter: the present values, each as often as it is
      present. */
  function Somes<T(!new)>(s: seq<Option<T>>): (r: seq<T>)
    ensures |r| <= |s|
    ensures forall x :: x in r <==> Some(x) in s
    ensures forall x :: multiset(r)[x] == multiset(s)[Some(x)]
  {
    if s == [] then []
    else
      assert s == [s[0]] + s[1..];
      (if s[0].Some? then [s[0].value] else []) + Somes(s[1..])
  }

  /** `compactMap` keeps order: filtering a concatenation is concatenating
      the filtered parts, so a present value stays ahead of every value that
      follows it. */
  lemma {:induction false} SomesAppend<T(!new)>(a: seq<Option<T>>, b: seq<Option<T>>)
    ensures Somes(a + b) == Somes(a) + Somes(b)
  {
    if a == [] {
      assert a + b == b;
    } else {
      assert (a + b)[1..] == a[1..] + b;
      SomesAppend(a[1..], b);
    }
  }

  function CodePlacements(blocks: seq<CodeBlock>, lineCount: int): seq<CodePlacement>
  {
    Somes(seq(|blocks|, i requires 0 <= i < |blocks| => CodePlacementOf(blocks[i], lineCount)))
  }

  function TablePlacements(tables: seq<Table>, lineCount: int): seq<TablePlacement>
  {
    Somes(seq(|tables|, i requires 0 <= i < |tables| => TablePlacementOf(tables[i], lineCount)))
  }

  function BulletPlacements(bullets: seq<Bullet>, lineCount: int): seq<BulletPlacement>
  {
    Somes(seq(|bullets|, i requires 0 <= i < |bullets| => BulletPlacementOf(bullets[i], lineCount)))
  }

  function CodeRanges(ps: seq<CodePlacement>): seq<LineRange>
  {
    seq(|ps|, i requires 0 <= i < |ps| => ps[i].range)
  }

  function TableRanges(ps: seq<TablePlacement>): seq<LineRange>
  {
    seq(|ps|, i requires 0 <= i < |ps| => ps[i].range)
  }

  function BulletRanges(ps: seq<BulletPlacement>): seq<LineRange>
  {
    seq(|ps|, i requires 0 <= i < |ps| => ps[i].range)
  }

  /** Everything `build` works out before it emits anything. */
  datatype Layout = Layout(
    lines: seq<string>,
    lineCount: int,
    front: Option<FrontMatterPlacement>,
    codes: seq<CodePlacement>,
    tables: seq<TablePlacement>,
    bullets: seq<BulletPlacement>,
    frontLines: set<int>,
    codeLines: set<int>,
    tableLines: set<int>,
    bulletLines: set<int>,
    sections: seq<SectionPlacement>)

  function FrontLines(front: Option<FrontMatterPlacement>): set<int>
  {
    if front.Some? then LineSet([front.value.range]) else {}
  }

  function LayoutWith(core: CoreEnvelope, lines: seq<string>, front: Option<FrontMatterPlacement>,
                      sections: seq<SectionPlacement>): Layout
  {
    var lineCount := Max(1, core.lineCount);
    var codes := CodePlacements(core.codeBlocks, lineCount);
    var tables := TablePlacements(core.tables, lineCount);
    var bullets := BulletPlacements(core.bullets, lineCount);
    Layout(lines, lineCount, front, codes, tables, bullets, FrontLines(front), LineSet(CodeRanges(codes)),
           LineSet(TableRanges(tables)), LineSet(BulletRanges(bullets)), sections)
  }

  /** The layout of `core`: its normalized lines, the front-matter, code,
      table and bullet placements and their line sets, and the section
      placements, whose headings are looked for outside code and front
      matter. */
  function LayoutOf(core: CoreEnvelope): Layout
  {
    var lines := Split(core.normalized, '\n');
    var lineCount := Max(1, core.lineCount);
    var front := FrontMatterPlacementOf(lines, core.frontMatter, lineCount);
    var l := LayoutWith(core, lines, front, []);
    var excluded := l.codeLines + l.frontLines;
    l.(sections := PlaceSections(core.sections, Starts(core.sections, lines, excluded, 0), lineCount, 1))
  }

  /** The first half of `build`, up to the list of items. */
  method LayoutFor(core: CoreEnvelope) returns (layout: Layout)
    ensures layout == LayoutOf(core)
  {
    var lines := Split(core.normalized, '\n');
    var lineCount := Max(1, core.lineCount);
    var front := FrontMatterPlacementFor(lines, core.frontMatter, lineCount);
    layout := LayoutWith(core, lines, front, []);
    var sections := SectionPlacementsFor(core.sections, lines, lineCount, layout.codeLines + layout.frontLines);
    layout := layout.(sections := sections);
  }

  /** The items in the order they are collected: front matter, sections,
      tables, code, bullets. */
  function ItemsOf(layout: Layout): seq<Item>
  {
    (if layout.front.Some? then [FrontItem(layout.front.value)] else [])
    + seq(|layout.sections|, i requires 0 <= i < |layout.sections| => SectionItem(layout.sections[i]))
    + seq(|layout.tables|, i requires 0 <= i < |layout.tables| => TableItem(layout.tables[i]))
    + seq(|layout.codes|, i requires 0 <= i < |layout.codes| => CodeItem(layout.codes[i]))
    + seq(|layout.bullets|, i requires 0 <= i < |layout.bullets| => BulletItem(layout.bullets[i]))
  }

  /** Paragraphs avoid front matter, code, tables and bullets. */
  function ParagraphExcluded(layout: Layout): set<int>
  {
    layout.frontLines + layout.codeLines + layout.tableLines + layout.bulletLines
  }

  // ---------------------------------------------------------------------
  // The root pair
  // ---------------------------------------------------------------------

  function RootSpan(lineCount: int): Span
  {
    Span(RootSpanId, 1, lineCount, None, None)
  }

  function RootBlock(docTitle: string, mediaType: string): Block
  {
    Block(RootBlockId, Root, RootSpanId, None, Some(1), Some(docTitle), None, None, None,
          Some(map["mediaType" := mediaType]), RootTag, 10)
  }

  /** Nothing emitted but the root pair; the generator untouched. */
  function Start(core: CoreEnvelope): Emission
  {
    Emission([RootSpan(Max(1, core.lineCount))], [RootBlock(core.docTitle, core.mediaType)], [], map[])
  }

  // ---------------------------------------------------------------------
  // Covered lines
  // ---------------------------------------------------------------------

  /** The spans other than the root, as line ranges. */
  function NonRootRanges(spans: seq<Span>): seq<LineRange>
  {
    if spans == [] then []
    else
      var last := spans[|spans| - 1];
      NonRootRanges(spans[..|spans| - 1])
        + (if last.id != RootSpanId then [LineRange(last.startLine, last.endLine)] else [])
  }

  /** Some span other than the root holds `line`. */
  predicate CoveredBy(spans: seq<Span>, line: int)
  {
    exists j :: 0 <= j < |spans| && spans[j].id != RootSpanId && spans[j].startLine <= line <= spans[j].endLine
  }

  /** `coveredBySpans` holds exactly the positive lines some non-root span
      holds. */
  lemma {:induction false} NonRootRangesSpec(spans: seq<Span>, line: int)
    ensures line in LineSet(NonRootRanges(spans)) <==> line >= 1 && CoveredBy(spans, line)
    decreases |spans|
  {
    if spans != [] {
      var n := |spans| - 1;
      var last := spans[n];
      NonRootRangesSpec(spans[..n], line);
      CoveredBySnoc(spans, line);
      if last.id != RootSpanId {
        LineSetAppend(NonRootRanges(spans[..n]), LineRange(last.startLine, last.endLine));
        IntervalSpec(Max(1, last.startLine), last.endLine, line);
      } else {
        var init := NonRootRanges(spans[..n]);
        assert NonRootRanges(spans) == init + [] == init;
      }
    }
  }

  lemma CoveredBySnoc(spans: seq<Span>, line: int)
    requires spans != []
    ensures CoveredBy(spans, line) <==>
      || CoveredBy(spans[..|spans| - 1], line)
      || (spans[|spans| - 1].id != RootSpanId && spans[|spans| - 1].startLine <= line <= spans[|spans| - 1].endLine)
  {
    var init := spans[..|spans| - 1];
    if CoveredBy(spans, line) {
      var j :| 0 <= j < |spans| && spans[j].id != RootSpanId && spans[j].startLine <= line <= spans[j].endLine;
      if j < |init| { assert init[j] == spans[j]; }
    }
    if CoveredBy(init, line) {
      var j :| 0 <= j < |init| && init[j].id != RootSpanId && init[j].startLine <= line <= init[j].endLine;
      assert spans[j] == init[j];
    }
  }

  // ---------------------------------------------------------------------
  // build
  // ---------------------------------------------------------------------

  /** The item phase over the sorted `order`. */
  function ItemsPhase(core: CoreEnvelope, order: seq<Item>): Emission
  {
    EmitItems(Start(core), order, SourceFor(core.mediaType))
  }

  /** The paragraph phase over the sections the item phase recorded. */
  function ParagraphsPhase(core: CoreEnvelope, order: seq<Item>): Emission
  {
    var st := ItemsPhase(core, order);
    EmitParagraphs(st, st.sectionBlocks, Max(1, core.lineCount), ParagraphExcluded(LayoutOf(core)),
                   SourceFor(core.mediaType))
  }

  /** The runs of lines no span but the root covers after the paragraphs. */
  function RawRanges(core: CoreEnvelope, order: seq<Item>): seq<LineRange>
  {
    UncoveredRangesOf(Max(1, core.lineCount), LineSet(NonRootRanges(ParagraphsPhase(core, order).spans)))
  }

  function RawPhase(core: CoreEnvelope, order: seq<Item>): Emission
  {
    EmitRanges(ParagraphsPhase(core, order), RawRanges(core, order), RawLines, SourceFor(core.mediaType))
  }

  /** The envelope: the core fields as they are, the sections without
      their line indices, the emitted spans and blocks, no feature flags. */
  function Envelope(core: CoreEnvelope, spans: seq<Span>, blocks: seq<Block>): StructuredEnvelope
  {
    var sections := seq(|core.sections|, i requires 0 <= i < |core.sections| =>
      EnvelopeSection(core.sections[i].heading, core.sections[i].level, core.sections[i].lines,
                      core.sections[i].paragraphs));
    StructuredEnvelope(core.version, core.docTitle, core.docId, core.createdAt, core.sourceHash, core.sourcePath,
                       core.mediaType, core.encoding, core.sizeBytes, core.lineCount, core.normalized, sections,
                       core.bullets, core.frontMatter, core.tables, core.codeBlocks, spans, blocks, None)
  }

  /** What `build` returns when its sort leaves the items in `order`. */
  function BuildFrom(core: CoreEnvelope, order: seq<Item>): StructuredEnvelope
  {
    Envelope(core, RawPhase(core, order).spans, RawPhase(core, order).blocks)
  }

  /** `build(from:routedInput:)`. The sort is not stable, so the items come
      out in some order sorted by the comparator; the envelope is the one
      that order gives. */
  method Build(core: CoreEnvelope) returns (env: StructuredEnvelope, ghost order: seq<Item>)
    ensures Sorted(order) && multiset(order) == multiset(ItemsOf(LayoutOf(core)))
    ensures env == BuildFrom(core, order)
  {
    var layout := LayoutFor(core);
    var source := SourceFor(core.mediaType);
    var lineCount := layout.lineCount;
    var sorted := SortItems(ItemsOf(layout));
    order := sorted;
    var ids := new IdGenerator();
    var spans, blocks, sectionBlocks :=
      EmitAllItems(ids, [RootSpan(lineCount)], [RootBlock(core.docTitle, core.mediaType)], sorted, source);
    assert Emission(spans, blocks, sectionBlocks, ids.counts) == ItemsPhase(core, order);
    spans, blocks := EmitAllParagraphs(ids, spans, blocks, sectionBlocks, lineCount, ParagraphExcluded(layout), source);
    assert Emission(spans, blocks, sectionBlocks, ids.counts) == ParagraphsPhase(core, order);
    var raw := UncoveredRanges(lineCount, LineSet(NonRootRanges(spans)));
    spans, blocks := EmitAllRanges(ids, spans, blocks, sectionBlocks, raw, RawLines, source);
    assert Emission(spans, blocks, sectionBlocks, ids.counts) == RawPhase(core, order);
    env := Envelope(core, spans, blocks);
  }

  // ---------------------------------------------------------------------
  // ensureRootSpanAndBlock
  // ---------------------------------------------------------------------

  predicate HasSpan(spans: seq<Span>, id: string)
  {
    exists i :: 0 <= i < |spans| && spans[i].id == id
  }

  predicate HasBlock(blocks: seq<Block>, id: string)
  {
    exists i :: 0 <= i < |blocks| && blocks[i].id == id
  }

  /** The envelope with a root span and a root block put first where that
      id is missing; nothing else changes. */
  function WithRoot(envelope: StructuredEnvelope): (r: StructuredEnvelope)
    ensures HasSpan(r.spans, RootSpanId) && HasBlock(r.blocks, RootBlockId)
    ensures r.spans == (if HasSpan(envelope.spans, RootSpanId) then envelope.spans
                        else [RootSpan(Max(1, envelope.lineCount))] + envelope.spans)
    ensures r.blocks == (if HasBlock(envelope.blocks, RootBlockId) then envelope.blocks
                         else [RootBlock(envelope.docTitle, envelope.mediaType)] + envelope.blocks)
    ensures r.(spans := envelope.spans, blocks := envelope.blocks) == envelope
  {
    var spans := if HasSpan(envelope.spans, RootSpanId) then envelope.spans
                 else [RootSpan(Max(1, envelope.lineCount))] + envelope.spans;
    var blocks := if HasBlock(envelope.blocks, RootBlockId) then envelope.blocks
                  else [RootBlock(envelope.docTitle, envelope.mediaType)] + envelope.blocks;
    assert spans[0].id == RootSpanId || HasSpan(envelope.spans, RootSpanId);
    assert blocks[0].id == RootBlockId || HasBlock(envelope.blocks, RootBlockId);
    envelope.(spans := spans, blocks := blocks)
  }

  /** `ensureRootSpanAndBlock(_:)`: a copy, with the root inserted at index
      0 of whichever list lacks it. */
  method EnsureRootSpanAndBlock(envelope: StructuredEnvelope) returns (env: StructuredEnvelope)
    ensures env == WithRoot(envelope)
  {
    env := envelope;
    var lineCount := Max(1, env.lineCount);
    if !HasSpan(env.spans, RootSpanId) {
      env := env.(spans := [RootSpan(lineCount)] + env.spans);
    }
    if !HasBlock(env.blocks, RootBlockId) {
      env := env.(blocks := [RootBlock(env.docTitle, env.mediaType)] + env.blocks);
    }
  }

  /** Ensuring the root twice is ensuring it once. */
  lemma WithRootIdempotent(envelope: StructuredEnvelope)
    ensures WithRoot(WithRoot(envelope)) == WithRoot(envelope)
  {
    var once := WithRoot(envelope);
    assert WithRoot(once).spans == once.spans && WithRoot(once).blocks == once.blocks;
  }
}
