/** What each phase of `build` (Sources/UMAFCore/Walker/UMAFWalker.swift)
    appends: one span and one block per item or range, in order, over that
    item's or range's lines, leaving everything emitted before untouched. */
module WalkerShape {
  import opened Wrappers
  import opened CoreModels
  import opened BlockProvenance
  import opened WalkerPlacements
  import opened WalkerSections
  import opened WalkerRanges
  import opened WalkerItems
  import opened WalkerEmit

  /** `r` is `st` with `n` more pairs; what was there is untouched. */
  predicate Grown(st: Emission, r: Emission, n: nat)
  {
    && |st.spans| == |st.blocks|
    && |r.spans| == |r.blocks| == |st.spans| + n
    && r.spans[..|st.spans|] == st.spans
    && r.blocks[..|st.blocks|] == st.blocks
  }

  /** One emission adds one pair: the span over `[lower, upper]`, the
      block from `template`. */
  lemma PairShape(st: Emission, spanPrefix: string, blockPrefix: string, lower: int, upper: int,
                  template: Block, record: Option<SectionPlacement>, r: Emission)
    requires |st.spans| == |st.blocks|
    requires r == EmitPair(st, spanPrefix, blockPrefix, lower, upper, template, record)
    ensures Grown(st, r, 1)
    ensures r.spans[|st.spans|].startLine == lower && r.spans[|st.spans|].endLine == upper
    ensures r.blocks[|st.blocks|].kind == template.kind && r.blocks[|st.blocks|].parentId == template.parentId
    ensures record.None? ==> r.sectionBlocks == st.sectionBlocks
  {
  }

  /** Growing twice is growing once by the sum. */
  lemma GrownTwice(st: Emission, mid: Emission, r: Emission, n: nat, m: nat)
    requires Grown(st, mid, n) && Grown(mid, r, m)
    ensures Grown(st, r, n + m)
    ensures forall i :: 0 <= i < |mid.spans| ==> r.spans[i] == mid.spans[i] && r.blocks[i] == mid.blocks[i]
  {
    assert forall i :: 0 <= i < |mid.spans| ==> r.spans[i] == r.spans[..|mid.spans|][i];
    assert forall i :: 0 <= i < |mid.blocks| ==> r.blocks[i] == r.blocks[..|mid.blocks|][i];
  }

  // ---------------------------------------------------------------------
  // The item loop
  // ---------------------------------------------------------------------

  /** Pair `i` of `r` came from `item`: its lines and kind; front matter
      and sections hang from the root. */
  predicate ItemAt(r: Emission, i: int, item: Item)
    requires 0 <= i < |r.spans| && i < |r.blocks|
  {
    && r.spans[i].startLine == StartLine(item) && r.spans[i].endLine == EndLine(item)
    && r.blocks[i].kind == ItemKind(item)
    && (!ChildKind(r.blocks[i].kind) ==> r.blocks[i].parentId == Some(RootBlockId))
  }

  predicate ItemsAppended(st: Emission, items: seq<Item>, r: Emission)
  {
    && Grown(st, r, |items|)
    && forall k :: 0 <= k < |items| ==> ItemAt(r, |st.spans| + k, items[k])
  }

  lemma ItemStep(st: Emission, items: seq<Item>, source: Source, mid: Emission, r: Emission)
    requires items != [] && ItemsAppended(st, items[..|items| - 1], mid)
    requires r == EmitItem(mid, items[|items| - 1], source)
    ensures ItemsAppended(st, items, r)
  {
    var item := items[|items| - 1];
    ItemTemplateShape(item, mid.sectionBlocks, source);
    PairShape(mid, SpanPrefix(item), BlockPrefix(item), StartLine(item), EndLine(item),
              ItemTemplate(item, mid.sectionBlocks, source), if item.SectionItem? then Some(item.section) else None, r);
    ItemAppended(st, items, mid, r);
  }

  /** The index bookkeeping of `ItemStep`, apart from the emission. */
  lemma ItemAppended(st: Emission, items: seq<Item>, mid: Emission, r: Emission)
    requires items != [] && ItemsAppended(st, items[..|items| - 1], mid)
    requires Grown(mid, r, 1) && ItemAt(r, |mid.spans|, items[|items| - 1])
    ensures ItemsAppended(st, items, r)
  {
    var init := items[..|items| - 1];
    GrownTwice(st, mid, r, |init|, 1);
    forall k | 0 <= k < |items| ensures ItemAt(r, |st.spans| + k, items[k]) {
      if k < |init| {
        assert ItemAt(mid, |st.spans| + k, init[k]);
        assert r.spans[|st.spans| + k] == mid.spans[|st.spans| + k] && r.blocks[|st.spans| + k] == mid.blocks[|st.spans| + k];
      }
    }
  }

  /** The item loop appends one pair per item, in order. */
  lemma {:induction false} ItemsShape(st: Emission, items: seq<Item>, source: Source, r: Emission)
    requires |st.spans| == |st.blocks|
    requires r == EmitItems(st, items, source)
    ensures ItemsAppended(st, items, r)
    decreases |items|
  {
    if items == [] {
      assert st.spans[..|st.spans|] == st.spans && st.blocks[..|st.blocks|] == st.blocks;
    } else {
      var n := |items| - 1;
      var init := items[..n];
      var mid := EmitItems(st, init, source);
      ItemsShape(st, init, source, mid);
      ItemStep(st, items, source, mid, r);
    }
  }

  // ---------------------------------------------------------------------
  // The range loops
  // ---------------------------------------------------------------------

  /** Pair `i` of `r` came from `range`: its lines, a paragraph parented to
      its section or a raw block. */
  predicate RangeAt(r: Emission, i: int, range: LineRange, owner: RangeOwner)
    requires 0 <= i < |r.spans| && i < |r.blocks|
  {
    && r.spans[i].startLine == range.lower && r.spans[i].endLine == range.upper
    && r.blocks[i].kind == (if owner.ParagraphOf? then Paragraph else Raw)
    && (owner.ParagraphOf? ==> r.blocks[i].parentId == Some(owner.sectionBlockId))
  }

  predicate RangesAppended(st: Emission, ranges: seq<LineRange>, owner: RangeOwner, r: Emission)
  {
    && Grown(st, r, |ranges|)
    && r.sectionBlocks == st.sectionBlocks
    && forall k :: 0 <= k < |ranges| ==> RangeAt(r, |st.spans| + k, ranges[k], owner)
  }

  lemma RangeStep(st: Emission, ranges: seq<LineRange>, owner: RangeOwner, source: Source, mid: Emission, r: Emission)
    requires ranges != [] && RangesAppended(st, ranges[..|ranges| - 1], owner, mid)
    requires r == EmitRange(mid, ranges[|ranges| - 1], owner, source)
    ensures RangesAppended(st, ranges, owner, r)
  {
    var range := ranges[|ranges| - 1];
    PairShape(mid, if owner.ParagraphOf? then "span:p" else "span:raw", if owner.ParagraphOf? then "block:p" else "block:raw",
              range.lower, range.upper, RangeTemplate(owner, range.lower, mid.sectionBlocks, source), None, r);
    RangeAppended(st, ranges, owner, mid, r);
  }

  /** The index bookkeeping of `RangeStep`, apart from the emission. */
  lemma RangeAppended(st: Emission, ranges: seq<LineRange>, owner: RangeOwner, mid: Emission, r: Emission)
    requires ranges != [] && RangesAppended(st, ranges[..|ranges| - 1], owner, mid)
    requires Grown(mid, r, 1) && RangeAt(r, |mid.spans|, ranges[|ranges| - 1], owner)
    requires r.sectionBlocks == mid.sectionBlocks
    ensures RangesAppended(st, ranges, owner, r)
  {
    var init := ranges[..|ranges| - 1];
    GrownTwice(st, mid, r, |init|, 1);
    forall k | 0 <= k < |ranges| ensures RangeAt(r, |st.spans| + k, ranges[k], owner) {
      if k < |init| {
        assert RangeAt(mid, |st.spans| + k, init[k], owner);
        assert r.spans[|st.spans| + k] == mid.spans[|st.spans| + k] && r.blocks[|st.spans| + k] == mid.blocks[|st.spans| + k];
      }
    }
  }

  /** A range loop appends one pair per range, in order, and records no
      section. */
  lemma {:induction false} RangesShape(st: Emission, ranges: seq<LineRange>, owner: RangeOwner, source: Source,
                                       r: Emission)
    requires |st.spans| == |st.blocks|
    requires r == EmitRanges(st, ranges, owner, source)
    ensures RangesAppended(st, ranges, owner, r)
    decreases |ranges|
  {
    if ranges == [] {
      assert st.spans[..|st.spans|] == st.spans && st.blocks[..|st.blocks|] == st.blocks;
    } else {
      var n := |ranges| - 1;
      var init := ranges[..n];
      var mid := EmitRanges(st, init, owner, source);
      RangesShape(st, init, owner, source, mid);
      RangeStep(st, ranges, owner, source, mid, r);
    }
  }

  // ---------------------------------------------------------------------
  // The paragraph loop
  // ---------------------------------------------------------------------

  /** Block `i` of `st` is a paragraph of `section`: parented to its block,
      over one of its paragraph ranges. */
  predicate ParagraphOfSection(st: Emission, i: int, section: SectionPlacement, lineCount: int, excluded: set<int>)
    requires 0 <= i < |st.spans| && i < |st.blocks|
  {
    && st.blocks[i].kind == Paragraph
    && st.blocks[i].parentId == Some(section.blockId)
    && LineRange(st.spans[i].startLine, st.spans[i].endLine) in ParagraphRangesOf(section, lineCount, excluded)
  }

  predicate ParagraphsAppended(st: Emission, sections: seq<SectionPlacement>, lineCount: int, excluded: set<int>,
                               r: Emission)
  {
    && |st.spans| == |st.blocks| && |r.spans| == |r.blocks| >= |st.spans|
    && Grown(st, r, |r.spans| - |st.spans|)
    && r.sectionBlocks == st.sectionBlocks
    && forall i :: |st.spans| <= i < |r.spans| ==> ParagraphAt(r, i, sections, lineCount, excluded)
  }

  /** Block `i` of `st` is a paragraph of one of `sections`. */
  predicate ParagraphAt(st: Emission, i: int, sections: seq<SectionPlacement>, lineCount: int, excluded: set<int>)
    requires 0 <= i < |st.spans| && i < |st.blocks|
  {
    exists m :: 0 <= m < |sections| && ParagraphOfSection(st, i, sections[m], lineCount, excluded)
  }

  lemma ParagraphStep(st: Emission, sections: seq<SectionPlacement>, lineCount: int, excluded: set<int>,
                      source: Source, mid: Emission, r: Emission)
    requires sections != [] && ParagraphsAppended(st, sections[..|sections| - 1], lineCount, excluded, mid)
    requires r == EmitRanges(mid, ParagraphRangesOf(sections[|sections| - 1], lineCount, excluded),
                             ParagraphOf(sections[|sections| - 1].blockId), source)
    ensures ParagraphsAppended(st, sections, lineCount, excluded, r)
  {
    var last := sections[|sections| - 1];
    RangesShape(mid, ParagraphRangesOf(last, lineCount, excluded), ParagraphOf(last.blockId), source, r);
    ParagraphsAppendedStep(st, sections, lineCount, excluded, mid, r);
  }

  /** The index bookkeeping of `ParagraphStep`, apart from the emission. */
  lemma ParagraphsAppendedStep(st: Emission, sections: seq<SectionPlacement>, lineCount: int, excluded: set<int>,
                               mid: Emission, r: Emission)
    requires sections != [] && ParagraphsAppended(st, sections[..|sections| - 1], lineCount, excluded, mid)
    requires RangesAppended(mid, ParagraphRangesOf(sections[|sections| - 1], lineCount, excluded),
                            ParagraphOf(sections[|sections| - 1].blockId), r)
    ensures ParagraphsAppended(st, sections, lineCount, excluded, r)
  {
    var n := |sections| - 1;
    var init := sections[..n];
    var ranges := ParagraphRangesOf(sections[n], lineCount, excluded);
    GrownTwice(st, mid, r, |mid.spans| - |st.spans|, |ranges|);
    forall i | |st.spans| <= i < |r.spans| ensures ParagraphAt(r, i, sections, lineCount, excluded) {
      if i < |mid.spans| {
        assert ParagraphAt(mid, i, init, lineCount, excluded);
        var m :| 0 <= m < |init| && ParagraphOfSection(mid, i, init[m], lineCount, excluded);
        assert r.spans[i] == mid.spans[i] && r.blocks[i] == mid.blocks[i];
        assert ParagraphOfSection(r, i, sections[m], lineCount, excluded);
      } else {
        assert RangeAt(r, |mid.spans| + (i - |mid.spans|), ranges[i - |mid.spans|], ParagraphOf(sections[n].blockId));
        assert ParagraphOfSection(r, i, sections[n], lineCount, excluded);
      }
    }
  }

  /** Every block of the paragraph phase is a paragraph of one of the
      recorded sections, and no section is recorded. */
  lemma {:induction false} ParagraphsShape(st: Emission, sections: seq<SectionPlacement>, lineCount: int,
                                           excluded: set<int>, source: Source, r: Emission)
    requires |st.spans| == |st.blocks|
    requires r == EmitParagraphs(st, sections, lineCount, excluded, source)
    ensures ParagraphsAppended(st, sections, lineCount, excluded, r)
    decreases |sections|
  {
    if sections == [] {
      assert st.spans[..|st.spans|] == st.spans && st.blocks[..|st.blocks|] == st.blocks;
    } else {
      var n := |sections| - 1;
      var init := sections[..n];
      var mid := EmitParagraphs(st, init, lineCount, excluded, source);
      ParagraphsShape(st, init, lineCount, excluded, source, mid);
      ParagraphStep(st, sections, lineCount, excluded, source, mid, r);
    }
  }
}
