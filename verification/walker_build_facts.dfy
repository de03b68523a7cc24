/** What `build` (Sources/UMAFCore/Walker/UMAFWalker.swift) guarantees about
    the envelope it returns, for whatever order its unstable sort leaves
    the items in: the root pair first, every block naming its own span,
    all ids distinct, the items in comparator order, the parent rule,
    paragraphs inside their sections and every line covered.

    The facts are proved about three emission states related only by
    `PhasesHold`, and then carried over to `BuildFrom`. */
module WalkerBuildFacts {
  import opened Wrappers
  import opened CoreModels
  import opened BlockProvenance
  import opened WalkerPlacements
  import opened WalkerSections
  import opened WalkerRanges
  import opened WalkerItems
  import opened WalkerEmit
  import opened WalkerInvariants
  import opened WalkerShape
  import opened WalkerBuild

  // ---------------------------------------------------------------------
  // The phases
  // ---------------------------------------------------------------------

  lemma StartGood(core: CoreEnvelope)
    ensures Good(Start(core))
  {
    var st := Start(core);
    assert Ids(st.spans, SpanId) == [RootSpanId] && Ids(st.blocks, BlockId) == [RootBlockId];
    assert SectionRefs(st.spans, st.blocks) == SectionRefs([], []) + [];
  }

  /** `start` holds the root pair alone; `st1` appends one pair per item of
      `order`; `st2` appends paragraphs of the sections `st1` recorded;
      `st3` appends one raw pair per range of `raw`. */
  predicate Appended(start: Emission, order: seq<Item>, st1: Emission, st2: Emission, st3: Emission,
                     lineCount: int, excluded: set<int>, raw: seq<LineRange>)
  {
    && |start.spans| == |start.blocks| == 1 && start.blocks[0].kind == Root
    && ItemsAppended(start, order, st1)
    && ParagraphsAppended(st1, st1.sectionBlocks, lineCount, excluded, st2)
    && RangesAppended(st2, raw, RawLines, st3)
  }

  /** The phases of `build`: the raw runs are those no non-root span of
      `st2` covers, and the emission invariant holds after the items and
      at the end. */
  predicate PhasesHold(start: Emission, order: seq<Item>, st1: Emission, st2: Emission, st3: Emission,
                       lineCount: int, excluded: set<int>, raw: seq<LineRange>)
  {
    && Appended(start, order, st1, st2, st3, lineCount, excluded, raw)
    && raw == UncoveredRangesOf(lineCount, LineSet(NonRootRanges(st2.spans)))
    && Good(st1) && Good(st3)
  }

  lemma Phases(core: CoreEnvelope, order: seq<Item>) returns (st1: Emission, st2: Emission, st3: Emission)
    ensures st1 == ItemsPhase(core, order) && st3 == RawPhase(core, order)
    ensures PhasesHold(Start(core), order, st1, st2, st3, Max(1, core.lineCount), ParagraphExcluded(LayoutOf(core)),
                       RawRanges(core, order))
  {
    var source := SourceFor(core.mediaType);
    var lineCount := Max(1, core.lineCount);
    var excluded := ParagraphExcluded(LayoutOf(core));
    st1 := ItemsPhase(core, order);
    st2 := ParagraphsPhase(core, order);
    st3 := RawPhase(core, order);
    assert st2 == EmitParagraphs(st1, st1.sectionBlocks, lineCount, excluded, source);
    assert st3 == EmitRanges(st2, RawRanges(core, order), RawLines, source);
    StartGood(core);
    ItemsGood(Start(core), order, source);
    ItemsShape(Start(core), order, source, st1);
    ParagraphsGood(st1, st1.sectionBlocks, lineCount, excluded, source);
    ParagraphsShape(st1, st1.sectionBlocks, lineCount, excluded, source, st2);
    RangesGood(st2, RawRanges(core, order), RawLines, source);
    RangesShape(st2, RawRanges(core, order), RawLines, source, st3);
  }

  /** The envelope `build` returns holds the pairs of the last phase. */
  lemma BuildPhases(core: CoreEnvelope, order: seq<Item>, env: StructuredEnvelope)
    returns (st1: Emission, st2: Emission, st3: Emission)
    requires env == BuildFrom(core, order)
    ensures env.spans == st3.spans && env.blocks == st3.blocks
    ensures st1 == ItemsPhase(core, order)
    ensures PhasesHold(Start(core), order, st1, st2, st3, Max(1, core.lineCount), ParagraphExcluded(LayoutOf(core)),
                       RawRanges(core, order))
  {
    st1, st2, st3 := Phases(core, order);
  }

  /** Each phase keeps the pairs before it. */
  lemma Layers(start: Emission, order: seq<Item>, st1: Emission, st2: Emission, st3: Emission,
               lineCount: int, excluded: set<int>, raw: seq<LineRange>)
    requires Appended(start, order, st1, st2, st3, lineCount, excluded, raw)
    ensures |st1.spans| == |st1.blocks| == 1 + |order|
    ensures |st1.spans| <= |st2.spans| == |st2.blocks|
    ensures |st3.spans| == |st3.blocks| == |st2.spans| + |raw|
    ensures st3.spans[0] == start.spans[0] && st3.blocks[0] == start.blocks[0]
    ensures forall i :: 0 <= i < |st2.spans| ==> st3.spans[i] == st2.spans[i] && st3.blocks[i] == st2.blocks[i]
    ensures forall i :: 0 <= i < |st1.spans| ==> st3.spans[i] == st1.spans[i] && st3.blocks[i] == st1.blocks[i]
  {
    GrownTwice(start, st1, st2, |order|, |st2.spans| - |st1.spans|);
    GrownTwice(st1, st2, st3, |st2.spans| - |st1.spans|, |raw|);
    assert st1.spans[0] == st1.spans[..1][0] && st1.blocks[0] == st1.blocks[..1][0];
  }

  /** Pairs `1 .. |order|` of the last phase are the items'. */
  lemma ItemOrigin(start: Emission, order: seq<Item>, st1: Emission, st2: Emission, st3: Emission,
                   lineCount: int, excluded: set<int>, raw: seq<LineRange>, i: int)
    requires Appended(start, order, st1, st2, st3, lineCount, excluded, raw)
    requires 1 <= i < |st1.spans|
    ensures i < |st3.spans| && i < |st3.blocks| && i - 1 < |order|
    ensures ItemAt(st3, i, order[i - 1])
  {
    Layers(start, order, st1, st2, st3, lineCount, excluded, raw);
    assert ItemAt(st1, 1 + (i - 1), order[i - 1]);
  }

  /** The pairs the paragraph phase appended are paragraphs. */
  lemma ParagraphOrigin(start: Emission, order: seq<Item>, st1: Emission, st2: Emission, st3: Emission,
                        lineCount: int, excluded: set<int>, raw: seq<LineRange>, i: int)
    requires Appended(start, order, st1, st2, st3, lineCount, excluded, raw)
    requires |st1.spans| <= i < |st2.spans|
    ensures i < |st3.spans| && i < |st3.blocks|
    ensures ParagraphAt(st3, i, st1.sectionBlocks, lineCount, excluded)
  {
    Layers(start, order, st1, st2, st3, lineCount, excluded, raw);
    assert ParagraphAt(st2, i, st1.sectionBlocks, lineCount, excluded);
    var m :| 0 <= m < |st1.sectionBlocks| && ParagraphOfSection(st2, i, st1.sectionBlocks[m], lineCount, excluded);
    assert ParagraphOfSection(st3, i, st1.sectionBlocks[m], lineCount, excluded);
  }

  /** The pairs after the paragraphs are the raw runs. */
  lemma RawOrigin(start: Emission, order: seq<Item>, st1: Emission, st2: Emission, st3: Emission,
                  lineCount: int, excluded: set<int>, raw: seq<LineRange>, i: int)
    requires Appended(start, order, st1, st2, st3, lineCount, excluded, raw)
    requires |st2.spans| <= i < |st3.spans|
    ensures 0 <= i - |st2.spans| < |raw| && i < |st3.blocks|
    ensures RangeAt(st3, i, raw[i - |st2.spans|], RawLines)
  {
    assert RangeAt(st3, |st2.spans| + (i - |st2.spans|), raw[i - |st2.spans|], RawLines);
  }

  /** Only the paragraph phase emits paragraphs and only the raw phase raw
      blocks. */
  lemma KindPhase(start: Emission, order: seq<Item>, st1: Emission, st2: Emission, st3: Emission,
                  lineCount: int, excluded: set<int>, raw: seq<LineRange>, i: int)
    requires Appended(start, order, st1, st2, st3, lineCount, excluded, raw)
    requires 0 <= i < |st3.blocks|
    ensures st3.blocks[i].kind == Paragraph ==> |st1.spans| <= i < |st2.spans|
    ensures st3.blocks[i].kind == Raw ==> |st2.spans| <= i
  {
    Layers(start, order, st1, st2, st3, lineCount, excluded, raw);
    if 1 <= i < |st1.spans| {
      ItemOrigin(start, order, st1, st2, st3, lineCount, excluded, raw, i);
    } else if |st2.spans| <= i {
      RawOrigin(start, order, st1, st2, st3, lineCount, excluded, raw, i);
    } else if |st1.spans| <= i {
      ParagraphOrigin(start, order, st1, st2, st3, lineCount, excluded, raw, i);
    }
  }

  // ---------------------------------------------------------------------
  // Root, pairing, ids, parents
  // ---------------------------------------------------------------------

  /** The root span over `[1, max(1, lineCount)]` and the root block come
      first. */
  lemma BuildRoot(core: CoreEnvelope, order: seq<Item>, env: StructuredEnvelope)
    requires env == BuildFrom(core, order)
    ensures |env.spans| >= 1 && |env.blocks| >= 1
    ensures env.spans[0] == RootSpan(Max(1, core.lineCount))
    ensures env.blocks[0] == RootBlock(core.docTitle, core.mediaType)
  {
    var st1, st2, st3 := BuildPhases(core, order, env);
    Layers(Start(core), order, st1, st2, st3, Max(1, core.lineCount), ParagraphExcluded(LayoutOf(core)),
           RawRanges(core, order));
  }

  /** Every block names the span drawn with it, no two spans and no two
      blocks share an id, and every table, code, bullet and raw block has
      the parent the rule gives over the sections emitted before it. */
  predicate WellFormed(spans: seq<Span>, blocks: seq<Block>)
  {
    && |spans| == |blocks|
    && (forall i :: 0 <= i < |blocks| ==> blocks[i].spanId == spans[i].id)
    && (forall i, j :: 0 <= i < j < |spans| ==> spans[i].id != spans[j].id)
    && (forall i, j :: 0 <= i < j < |blocks| ==> blocks[i].id != blocks[j].id)
    && forall i :: 0 <= i < |blocks| && ChildKind(blocks[i].kind) ==>
         ParentRule(SectionRefs(spans[..i], blocks[..i]), spans[i].startLine, blocks[i].parentId)
  }

  lemma GoodWellFormed(st: Emission)
    requires Good(st)
    ensures WellFormed(st.spans, st.blocks)
  {
    var s := Ids(st.spans, SpanId);
    var b := Ids(st.blocks, BlockId);
    forall i, j | 0 <= i < j < |st.spans| ensures st.spans[i].id != st.spans[j].id {
      assert s[i] != s[j];
    }
    forall i, j | 0 <= i < j < |st.blocks| ensures st.blocks[i].id != st.blocks[j].id {
      assert b[i] != b[j];
    }
  }

  lemma BuildWellFormed(core: CoreEnvelope, order: seq<Item>, env: StructuredEnvelope)
    requires env == BuildFrom(core, order)
    ensures WellFormed(env.spans, env.blocks)
  {
    var st1, st2, st3 := BuildPhases(core, order, env);
    GoodWellFormed(st3);
  }

  // ---------------------------------------------------------------------
  // Items
  // ---------------------------------------------------------------------

  /** The key the comparator sorts by, read back from an emitted pair. */
  function OutKey(spans: seq<Span>, blocks: seq<Block>, i: int): Key
    requires 0 <= i < |spans| && i < |blocks|
  {
    Key(spans[i].startLine, KindPriority(blocks[i].kind), spans[i].endLine)
  }

  /** Pair `i` is `item`'s: its lines and kind, and the root as parent of
      front matter and sections. */
  predicate EmittedItem(spans: seq<Span>, blocks: seq<Block>, i: int, item: Item)
    requires 0 <= i < |spans| && i < |blocks|
  {
    && spans[i].startLine == StartLine(item) && spans[i].endLine == EndLine(item)
    && blocks[i].kind == ItemKind(item)
    && (item.FrontItem? || item.SectionItem? ==> blocks[i].parentId == Some(RootBlockId))
  }

  lemma ItemKindPriority(item: Item)
    ensures KindPriority(ItemKind(item)) == Priority(item)
  {
  }

  lemma ItemsInOrder(start: Emission, order: seq<Item>, st1: Emission, st2: Emission, st3: Emission,
                     lineCount: int, excluded: set<int>, raw: seq<LineRange>)
    requires Appended(start, order, st1, st2, st3, lineCount, excluded, raw)
    requires Sorted(order)
    ensures |order| < |st3.spans| == |st3.blocks|
    ensures forall k :: 0 <= k < |order| ==> EmittedItem(st3.spans, st3.blocks, 1 + k, order[k])
    ensures forall a, b :: 1 <= a < b <= |order| ==> !Less(OutKey(st3.spans, st3.blocks, b), OutKey(st3.spans, st3.blocks, a))
  {
    Layers(start, order, st1, st2, st3, lineCount, excluded, raw);
    forall k | 0 <= k < |order| ensures EmittedItem(st3.spans, st3.blocks, 1 + k, order[k]) {
      ItemOrigin(start, order, st1, st2, st3, lineCount, excluded, raw, 1 + k);
    }
    forall a, b | 1 <= a < b <= |order|
      ensures !Less(OutKey(st3.spans, st3.blocks, b), OutKey(st3.spans, st3.blocks, a))
    {
      assert EmittedItem(st3.spans, st3.blocks, 1 + (a - 1), order[a - 1]);
      assert EmittedItem(st3.spans, st3.blocks, 1 + (b - 1), order[b - 1]);
      ItemKindPriority(order[a - 1]);
      ItemKindPriority(order[b - 1]);
      assert !Before(order[b - 1], order[a - 1]);
    }
  }

  /** After the root come the items, one pair each, in the sorted order: no
      pair's key is below an earlier one's, and front matter and sections
      hang from the root. */
  lemma BuildItemOrder(core: CoreEnvelope, order: seq<Item>, env: StructuredEnvelope)
    requires Sorted(order)
    requires env == BuildFrom(core, order)
    ensures |order| < |env.spans| == |env.blocks|
    ensures forall k :: 0 <= k < |order| ==> EmittedItem(env.spans, env.blocks, 1 + k, order[k])
    ensures forall a, b :: 1 <= a < b <= |order| ==> !Less(OutKey(env.spans, env.blocks, b), OutKey(env.spans, env.blocks, a))
  {
    var st1, st2, st3 := BuildPhases(core, order, env);
    ItemsInOrder(Start(core), order, st1, st2, st3, Max(1, core.lineCount), ParagraphExcluded(LayoutOf(core)),
                 RawRanges(core, order));
  }

  // ---------------------------------------------------------------------
  // Paragraphs
  // ---------------------------------------------------------------------

  /** Some block is the section block `id`. */
  predicate HasSectionBlock(blocks: seq<Block>, id: string)
  {
    exists j :: 0 <= j < |blocks| && blocks[j].kind == SectionKind && blocks[j].id == id
  }

  /** Pair `i` is a paragraph of one of `sections`, emitted as a section
      block, over one of that section's paragraph ranges. */
  predicate ParagraphFrom(spans: seq<Span>, blocks: seq<Block>, i: int, sections: seq<SectionPlacement>,
                          lineCount: int, excluded: set<int>)
    requires 0 <= i < |spans| && i < |blocks|
  {
    exists m :: 0 <= m < |sections|
      && blocks[i].parentId == Some(sections[m].blockId)
      && HasSectionBlock(blocks, sections[m].blockId)
      && LineRange(spans[i].startLine, spans[i].endLine) in ParagraphRangesOf(sections[m], lineCount, excluded)
  }

  /** A recorded section is a section block of the emission. */
  lemma RecordedSection(st: Emission, m: int)
    requires Good(st) && 0 <= m < |st.sectionBlocks|
    ensures HasSectionBlock(st.blocks, st.sectionBlocks[m].blockId)
  {
    assert Refs(st.sectionBlocks)[m].blockId == st.sectionBlocks[m].blockId;
    SectionRefOf(st.spans, st.blocks, m);
  }

  lemma {:induction false} SectionRefOf(spans: seq<Span>, blocks: seq<Block>, m: int)
    requires |spans| == |blocks| && 0 <= m < |SectionRefs(spans, blocks)|
    ensures HasSectionBlock(blocks, SectionRefs(spans, blocks)[m].blockId)
    decreases |blocks|
  {
    var n := |blocks| - 1;
    var prev := SectionRefs(spans[..n], blocks[..n]);
    if m < |prev| {
      SectionRefOf(spans[..n], blocks[..n], m);
      var j :| 0 <= j < n && blocks[..n][j].kind == SectionKind && blocks[..n][j].id == prev[m].blockId;
      assert blocks[j] == blocks[..n][j];
    } else {
      assert blocks[n].kind == SectionKind;
    }
  }

  lemma ParagraphsInSections(start: Emission, order: seq<Item>, st1: Emission, st2: Emission, st3: Emission,
                             lineCount: int, excluded: set<int>, raw: seq<LineRange>)
    requires Appended(start, order, st1, st2, st3, lineCount, excluded, raw) && Good(st1)
    ensures |st3.spans| == |st3.blocks|
    ensures forall i :: 0 <= i < |st3.blocks| && st3.blocks[i].kind == Paragraph ==>
      ParagraphFrom(st3.spans, st3.blocks, i, st1.sectionBlocks, lineCount, excluded)
  {
    Layers(start, order, st1, st2, st3, lineCount, excluded, raw);
    forall i | 0 <= i < |st3.blocks| && st3.blocks[i].kind == Paragraph
      ensures ParagraphFrom(st3.spans, st3.blocks, i, st1.sectionBlocks, lineCount, excluded)
    {
      KindPhase(start, order, st1, st2, st3, lineCount, excluded, raw, i);
      ParagraphOrigin(start, order, st1, st2, st3, lineCount, excluded, raw, i);
      var sections := st1.sectionBlocks;
      var m :| 0 <= m < |sections| && ParagraphOfSection(st3, i, sections[m], lineCount, excluded);
      RecordedSection(st1, m);
      var j :| 0 <= j < |st1.blocks| && st1.blocks[j].kind == SectionKind && st1.blocks[j].id == sections[m].blockId;
      assert st3.blocks[j] == st1.blocks[j];
    }
  }

  /** Every paragraph hangs from a section that `build` emitted as a block,
      over one of that section's paragraph ranges; `ParagraphRangesShape`
      gives what those ranges are. */
  lemma BuildParagraphs(core: CoreEnvelope, order: seq<Item>, env: StructuredEnvelope)
    requires env == BuildFrom(core, order)
    ensures |env.spans| == |env.blocks|
    ensures forall i :: 0 <= i < |env.blocks| && env.blocks[i].kind == Paragraph ==>
      ParagraphFrom(env.spans, env.blocks, i, ItemsPhase(core, order).sectionBlocks, Max(1, core.lineCount),
                    ParagraphExcluded(LayoutOf(core)))
  {
    var st1, st2, st3 := BuildPhases(core, order, env);
    ParagraphsInSections(Start(core), order, st1, st2, st3, Max(1, core.lineCount), ParagraphExcluded(LayoutOf(core)),
                         RawRanges(core, order));
  }

  // ---------------------------------------------------------------------
  // Coverage
  // ---------------------------------------------------------------------

  lemma NonRootSpan(st: Emission, i: int)
    requires IdsOk(Ids(st.spans, SpanId), RootSpanId, st.counts) && 1 <= i < |st.spans|
    ensures st.spans[i].id != RootSpanId
  {
    assert Ids(st.spans, SpanId)[0] != Ids(st.spans, SpanId)[i];
  }

  /** A line no non-root span of the paragraph phase covers falls in a raw
      run. */
  lemma LineCovered(start: Emission, order: seq<Item>, st1: Emission, st2: Emission, st3: Emission,
                    lineCount: int, excluded: set<int>, raw: seq<LineRange>, l: int)
    requires Appended(start, order, st1, st2, st3, lineCount, excluded, raw)
    requires raw == UncoveredRangesOf(lineCount, LineSet(NonRootRanges(st2.spans))) && Good(st3)
    requires 1 <= l <= lineCount
    ensures CoveredBy(st3.spans, l)
  {
    var covered := LineSet(NonRootRanges(st2.spans));
    NonRootRangesSpec(st2.spans, l);
    if l in covered {
      var j :| 0 <= j < |st2.spans| && st2.spans[j].id != RootSpanId && st2.spans[j].startLine <= l <= st2.spans[j].endLine;
      Layers(start, order, st1, st2, st3, lineCount, excluded, raw);
      assert st3.spans[j] == st2.spans[j];
    } else {
      RawLineCovered(start, order, st1, st2, st3, lineCount, excluded, raw, l);
    }
  }

  /** A line no span covers lies in one of the uncovered runs. */
  lemma RawRunOf(lineCount: int, covered: set<int>, raw: seq<LineRange>, l: int) returns (k: nat)
    requires raw == UncoveredRangesOf(lineCount, covered) && 1 <= l <= lineCount && l !in covered
    ensures k < |raw| && InRange(raw[k], l)
  {
    UncoveredRangesSpec(lineCount, covered, raw);
    assert l in LineSet(raw);
    LineSetSpec(raw, l);
    k :| 0 <= k < |raw| && InRange(raw[k], l);
  }

  lemma RawLineCovered(start: Emission, order: seq<Item>, st1: Emission, st2: Emission, st3: Emission,
                       lineCount: int, excluded: set<int>, raw: seq<LineRange>, l: int)
    requires Appended(start, order, st1, st2, st3, lineCount, excluded, raw)
    requires raw == UncoveredRangesOf(lineCount, LineSet(NonRootRanges(st2.spans)))
    requires IdsOk(Ids(st3.spans, SpanId), RootSpanId, st3.counts)
    requires 1 <= l <= lineCount && l !in LineSet(NonRootRanges(st2.spans))
    ensures CoveredBy(st3.spans, l)
  {
    var k := RawRunOf(lineCount, LineSet(NonRootRanges(st2.spans)), raw, l);
    RawOrigin(start, order, st1, st2, st3, lineCount, excluded, raw, |st2.spans| + k);
    assert |st2.spans| >= 1 by {
      Layers(start, order, st1, st2, st3, lineCount, excluded, raw);
    }
    NonRootSpan(st3, |st2.spans| + k);
  }

  lemma LinesCovered(start: Emission, order: seq<Item>, st1: Emission, st2: Emission, st3: Emission,
                     lineCount: int, excluded: set<int>, raw: seq<LineRange>)
    requires Appended(start, order, st1, st2, st3, lineCount, excluded, raw)
    requires raw == UncoveredRangesOf(lineCount, LineSet(NonRootRanges(st2.spans))) && Good(st3)
    ensures forall l :: 1 <= l <= lineCount ==> CoveredBy(st3.spans, l)
  {
    forall l | 1 <= l <= lineCount ensures CoveredBy(st3.spans, l) {
      LineCovered(start, order, st1, st2, st3, lineCount, excluded, raw, l);
    }
  }

  lemma RawBlocksInRuns(start: Emission, order: seq<Item>, st1: Emission, st2: Emission, st3: Emission,
                        lineCount: int, excluded: set<int>, raw: seq<LineRange>)
    requires Appended(start, order, st1, st2, st3, lineCount, excluded, raw)
    ensures |st3.spans| == |st3.blocks|
    ensures forall i :: 0 <= i < |st3.blocks| && st3.blocks[i].kind == Raw ==>
      LineRange(st3.spans[i].startLine, st3.spans[i].endLine) in raw
  {
    Layers(start, order, st1, st2, st3, lineCount, excluded, raw);
    forall i | 0 <= i < |st3.blocks| && st3.blocks[i].kind == Raw
      ensures LineRange(st3.spans[i].startLine, st3.spans[i].endLine) in raw
    {
      KindPhase(start, order, st1, st2, st3, lineCount, excluded, raw, i);
      RawOrigin(start, order, st1, st2, st3, lineCount, excluded, raw, i);
      assert raw[i - |st2.spans|] in raw;
    }
  }

  /** Every line of `[1, max(1, lineCount)]` lies in some span other than
      the root, and every raw block is one of the runs no earlier span
      covered. */
  lemma BuildCovers(core: CoreEnvelope, order: seq<Item>, env: StructuredEnvelope)
    requires env == BuildFrom(core, order)
    ensures forall l :: 1 <= l <= Max(1, core.lineCount) ==> CoveredBy(env.spans, l)
    ensures |env.spans| == |env.blocks|
    ensures forall i :: 0 <= i < |env.blocks| && env.blocks[i].kind == Raw ==>
      LineRange(env.spans[i].startLine, env.spans[i].endLine) in RawRanges(core, order)
  {
    var st1, st2, st3 := BuildPhases(core, order, env);
    LinesCovered(Start(core), order, st1, st2, st3, Max(1, core.lineCount), ParagraphExcluded(LayoutOf(core)),
                 RawRanges(core, order));
    RawBlocksInRuns(Start(core), order, st1, st2, st3, Max(1, core.lineCount), ParagraphExcluded(LayoutOf(core)),
                    RawRanges(core, order));
  }

  // ---------------------------------------------------------------------
  // ensureRootSpanAndBlock after build
  // ---------------------------------------------------------------------

  /** `build` already has its root, so ensuring it changes nothing. */
  lemma BuildHasRoot(core: CoreEnvelope, order: seq<Item>, env: StructuredEnvelope)
    requires env == BuildFrom(core, order)
    ensures WithRoot(env) == env
  {
    BuildRoot(core, order, env);
    assert HasSpan(env.spans, RootSpanId) && HasBlock(env.blocks, RootBlockId);
  }
}
