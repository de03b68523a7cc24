/** What every emission step of the walker keeps: spans and blocks come in
    pairs, each block naming the span drawn with it; the root ids come first
    and every other id is one the generator has given out, all of them
    different; the recorded sections are exactly the section blocks, in
    order; and every table, code, bullet and raw block follows the parent
    rule over the sections recorded before it. */
module WalkerInvariants {
  import opened Wrappers
  import opened Text
  import opened CoreModels
  import opened WalkerIds
  import opened WalkerPlacements
  import opened WalkerSections
  import opened WalkerRanges
  import opened WalkerItems
  import opened WalkerEmit

  // ---------------------------------------------------------------------
  // Ids
  // ---------------------------------------------------------------------

  /** An id the generator has already given out under `counts`. */
  predicate Numbered(id: string, counts: map<string, nat>)
  {
    var p := ParseId(id);
    p.Some? && p.value.1 <= CountOf(counts, p.value.0)
  }

  /** The ids of `xs`, in order, as `id` reads them. */
  function Ids<T>(xs: seq<T>, id: T -> string): (r: seq<string>)
    ensures |r| == |xs|
    ensures forall i :: 0 <= i < |xs| ==> r[i] == id(xs[i])
  {
    seq(|xs|, i requires 0 <= i < |xs| => id(xs[i]))
  }

  function SpanId(span: Span): string { span.id }

  function BlockId(block: Block): string { block.id }

  /** The root id first, then ids already given out, no two alike. */
  predicate IdsOk(ids: seq<string>, root: string, counts: map<string, nat>)
  {
    && |ids| >= 1 && ids[0] == root
    && (forall i :: 1 <= i < |ids| ==> Numbered(ids[i], counts))
    && forall i, j :: 0 <= i < j < |ids| ==> ids[i] != ids[j]
  }

  /** The fixed root ids do not have the shape of a generated id. */
  lemma RootIdsUnparsed()
    ensures ParseId(RootSpanId).None?
    ensures ParseId(RootBlockId).None?
  {
    assert forall i :: 0 <= i < |"root"| ==> "root"[i] != ':';
    LastColonAfter("span", "root");
    LastColonAfter("block", "root");
    assert RootSpanId == "span" + ":" + "root";
    assert RootBlockId == "block" + ":" + "root";
    assert RootSpanId[5..] == "root" && RootBlockId[6..] == "root";
    assert !IsDigit("root"[0]);
  }

  lemma IdsBump(ids: seq<string>, root: string, counts: map<string, nat>, prefix: string)
    requires IdsOk(ids, root, counts)
    ensures IdsOk(ids, root, Bump(counts, prefix))
  {
    forall i | 1 <= i < |ids| ensures Numbered(ids[i], Bump(counts, prefix)) {
      assert Numbered(ids[i], counts);
    }
  }

  /** Appending the next id of any prefix keeps the ids distinct. */
  lemma IdsAppend(ids: seq<string>, root: string, counts: map<string, nat>, prefix: string)
    requires IdsOk(ids, root, counts) && ParseId(root).None?
    ensures IdsOk(ids + [NextId(counts, prefix)], root, Bump(counts, prefix))
  {
    var next := NextId(counts, prefix);
    var r := ids + [next];
    ParseMakeId(prefix, CountOf(counts, prefix) + 1);
    IdsBump(ids, root, counts, prefix);
    forall i | 0 <= i < |ids| ensures ids[i] != next {
      if i >= 1 {
        NextIsFresh(counts, prefix, ids[i]);
      }
    }
    assert forall i :: 0 <= i < |ids| ==> r[i] == ids[i];
  }

  // ---------------------------------------------------------------------
  // The invariant
  // ---------------------------------------------------------------------

  predicate Paired(st: Emission)
  {
    |st.spans| == |st.blocks| && forall i :: 0 <= i < |st.blocks| ==> st.blocks[i].spanId == st.spans[i].id
  }

  /** The recorded sections are the section blocks, with their spans. */
  predicate Tracked(st: Emission)
    requires |st.spans| == |st.blocks|
  {
    Refs(st.sectionBlocks) == SectionRefs(st.spans, st.blocks)
  }

  predicate ParentsOk(st: Emission)
    requires |st.spans| == |st.blocks|
  {
    forall i :: 0 <= i < |st.blocks| && ChildKind(st.blocks[i].kind) ==>
      ParentRule(SectionRefs(st.spans[..i], st.blocks[..i]), st.spans[i].startLine, st.blocks[i].parentId)
  }

  predicate Good(st: Emission)
  {
    && Paired(st)
    && IdsOk(Ids(st.spans, SpanId), RootSpanId, st.counts)
    && IdsOk(Ids(st.blocks, BlockId), RootBlockId, st.counts)
    && Tracked(st)
    && ParentsOk(st)
  }

  lemma SectionRefsSnoc(spans: seq<Span>, blocks: seq<Block>, s: Span, b: Block)
    requires |spans| == |blocks|
    ensures SectionRefs(spans + [s], blocks + [b])
         == SectionRefs(spans, blocks) + (if b.kind == SectionKind then [SectionRef(b.id, s.startLine, s.endLine)] else [])
  {
    assert (spans + [s])[..|spans|] == spans;
    assert (blocks + [b])[..|blocks|] == blocks;
  }

  lemma PairIds(st: Emission, spanPrefix: string, blockPrefix: string, lower: int, upper: int,
                template: Block, record: Option<SectionPlacement>)
    requires IdsOk(Ids(st.spans, SpanId), RootSpanId, st.counts)
    requires IdsOk(Ids(st.blocks, BlockId), RootBlockId, st.counts)
    ensures IdsOk(Ids(EmitPair(st, spanPrefix, blockPrefix, lower, upper, template, record).spans, SpanId), RootSpanId,
                  EmitPair(st, spanPrefix, blockPrefix, lower, upper, template, record).counts)
    ensures IdsOk(Ids(EmitPair(st, spanPrefix, blockPrefix, lower, upper, template, record).blocks, BlockId), RootBlockId,
                  EmitPair(st, spanPrefix, blockPrefix, lower, upper, template, record).counts)
  {
    var e := EmitPair(st, spanPrefix, blockPrefix, lower, upper, template, record);
    var c1 := Bump(st.counts, spanPrefix);
    RootIdsUnparsed();
    IdsAppend(Ids(st.spans, SpanId), RootSpanId, st.counts, spanPrefix);
    assert Ids(e.spans, SpanId) == Ids(st.spans, SpanId) + [NextId(st.counts, spanPrefix)];
    IdsBump(Ids(e.spans, SpanId), RootSpanId, c1, blockPrefix);
    IdsBump(Ids(st.blocks, BlockId), RootBlockId, st.counts, spanPrefix);
    IdsAppend(Ids(st.blocks, BlockId), RootBlockId, c1, blockPrefix);
    assert Ids(e.blocks, BlockId) == Ids(st.blocks, BlockId) + [NextId(c1, blockPrefix)];
  }

  lemma PairTracked(st: Emission, spanPrefix: string, blockPrefix: string, lower: int, upper: int,
                    template: Block, record: Option<SectionPlacement>)
    requires Paired(st) && Tracked(st)
    requires (template.kind == SectionKind) == record.Some?
    requires record.Some? ==> record.value.startLine == lower && record.value.endLine == upper
    ensures Paired(EmitPair(st, spanPrefix, blockPrefix, lower, upper, template, record))
    ensures Tracked(EmitPair(st, spanPrefix, blockPrefix, lower, upper, template, record))
  {
    var e := EmitPair(st, spanPrefix, blockPrefix, lower, upper, template, record);
    var n := |st.spans|;
    SectionRefsSnoc(st.spans, st.blocks, e.spans[n], e.blocks[n]);
    assert e.spans == st.spans + [e.spans[n]] && e.blocks == st.blocks + [e.blocks[n]];
    if record.Some? {
      assert Refs(e.sectionBlocks) == Refs(st.sectionBlocks) + [Refs(e.sectionBlocks)[|st.sectionBlocks|]];
    }
  }

  lemma PairParents(st: Emission, spanPrefix: string, blockPrefix: string, lower: int, upper: int,
                    template: Block, record: Option<SectionPlacement>)
    requires Paired(st) && ParentsOk(st)
    requires ChildKind(template.kind) ==> ParentRule(SectionRefs(st.spans, st.blocks), lower, template.parentId)
    ensures |EmitPair(st, spanPrefix, blockPrefix, lower, upper, template, record).spans|
         == |EmitPair(st, spanPrefix, blockPrefix, lower, upper, template, record).blocks|
    ensures ParentsOk(EmitPair(st, spanPrefix, blockPrefix, lower, upper, template, record))
  {
    var e := EmitPair(st, spanPrefix, blockPrefix, lower, upper, template, record);
    var n := |st.spans|;
    forall i | 0 <= i < |e.blocks| && ChildKind(e.blocks[i].kind)
      ensures ParentRule(SectionRefs(e.spans[..i], e.blocks[..i]), e.spans[i].startLine, e.blocks[i].parentId)
    {
      assert e.spans[..i] == st.spans[..i] && e.blocks[..i] == st.blocks[..i];
      if i == n {
        assert st.spans[..n] == st.spans && st.blocks[..n] == st.blocks;
      } else {
        assert e.spans[i] == st.spans[i] && e.blocks[i] == st.blocks[i];
      }
    }
  }

  /** One emission keeps the invariant when a section is recorded exactly
      for a section block, over its own lines, and a block under the parent
      rule follows it. */
  lemma PairGood(st: Emission, spanPrefix: string, blockPrefix: string, lower: int, upper: int,
                 template: Block, record: Option<SectionPlacement>)
    requires Good(st)
    requires (template.kind == SectionKind) == record.Some?
    requires record.Some? ==> record.value.startLine == lower && record.value.endLine == upper
    requires ChildKind(template.kind) ==> ParentRule(SectionRefs(st.spans, st.blocks), lower, template.parentId)
    ensures Good(EmitPair(st, spanPrefix, blockPrefix, lower, upper, template, record))
  {
    PairIds(st, spanPrefix, blockPrefix, lower, upper, template, record);
    PairTracked(st, spanPrefix, blockPrefix, lower, upper, template, record);
    PairParents(st, spanPrefix, blockPrefix, lower, upper, template, record);
  }

  // ---------------------------------------------------------------------
  // The phases keep it
  // ---------------------------------------------------------------------

  lemma ItemGood(st: Emission, item: Item, source: BlockProvenance.Source)
    requires Good(st)
    ensures Good(EmitItem(st, item, source))
  {
    var t := ItemTemplate(item, st.sectionBlocks, source);
    ItemTemplateShape(item, st.sectionBlocks, source);
    if ChildKind(t.kind) {
      ParentOrRootRule(StartLine(item), st.sectionBlocks);
    }
    PairGood(st, SpanPrefix(item), BlockPrefix(item), StartLine(item), EndLine(item),
             t, if item.SectionItem? then Some(item.section) else None);
  }

  lemma {:induction false} ItemsGood(st: Emission, items: seq<Item>, source: BlockProvenance.Source)
    requires Good(st)
    ensures Good(EmitItems(st, items, source))
    decreases |items|
  {
    if items != [] {
      var init := items[..|items| - 1];
      ItemsGood(st, init, source);
      ItemGood(EmitItems(st, init, source), items[|items| - 1], source);
    }
  }

  lemma RangeGood(st: Emission, range: LineRange, owner: RangeOwner, source: BlockProvenance.Source)
    requires Good(st)
    ensures Good(EmitRange(st, range, owner, source))
  {
    ParentOrRootRule(range.lower, st.sectionBlocks);
    PairGood(st, if owner.ParagraphOf? then "span:p" else "span:raw", if owner.ParagraphOf? then "block:p" else "block:raw",
             range.lower, range.upper, RangeTemplate(owner, range.lower, st.sectionBlocks, source), None);
  }

  lemma {:induction false} RangesGood(st: Emission, ranges: seq<LineRange>, owner: RangeOwner,
                                      source: BlockProvenance.Source)
    requires Good(st)
    ensures Good(EmitRanges(st, ranges, owner, source))
    decreases |ranges|
  {
    if ranges != [] {
      var init := ranges[..|ranges| - 1];
      RangesGood(st, init, owner, source);
      RangeGood(EmitRanges(st, init, owner, source), ranges[|ranges| - 1], owner, source);
    }
  }

  lemma {:induction false} ParagraphsGood(st: Emission, sections: seq<SectionPlacement>, lineCount: int,
                                          excluded: set<int>, source: BlockProvenance.Source)
    requires Good(st)
    ensures Good(EmitParagraphs(st, sections, lineCount, excluded, source))
    decreases |sections|
  {
    if sections != [] {
      var init := sections[..|sections| - 1];
      var last := sections[|sections| - 1];
      ParagraphsGood(st, init, lineCount, excluded, source);
      RangesGood(EmitParagraphs(st, init, lineCount, excluded, source),
                 ParagraphRangesOf(last, lineCount, excluded), ParagraphOf(last.blockId), source);
    }
  }
}
