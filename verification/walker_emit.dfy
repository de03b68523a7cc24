/** How `build` (Sources/UMAFCore/Walker/UMAFWalker.swift) emits spans and
    blocks: every emission draws a span id and then a block id from the
    generator and appends one span and one block; a section is also recorded
    with its ids, so that later blocks can be parented to it. The three
    phases (sorted structural items, paragraph runs, raw runs) are folds of
    that one step, and the invariants of the step (paired spans and blocks,
    distinct ids, the parent rule) carry over to every phase. */
module WalkerEmit {
  import opened Wrappers
  import opened CoreModels
  import opened BlockProvenance
  import opened WalkerIds
  import opened WalkerPlacements
  import opened WalkerSections
  import opened WalkerRanges
  import opened WalkerItems

  const RootSpanId: string := "span:root"
  const RootBlockId: string := "block:root"

  // ---------------------------------------------------------------------
  // parentSectionId
  // ---------------------------------------------------------------------

  predicate SectionHolds(p: SectionPlacement, line: int)
  {
    p.startLine <= line <= p.endLine
  }

  /** `parentSectionId(for:sections:)`: the block id of the last recorded
      section whose lines hold `line`, or nothing when none does. */
  function ParentSectionId(line: int, sections: seq<SectionPlacement>): (r: Option<string>)
    ensures r.None? <==> forall i :: 0 <= i < |sections| ==> !SectionHolds(sections[i], line)
    ensures r.Some? ==>
      exists i ::
        && 0 <= i < |sections| && SectionHolds(sections[i], line) && r.value == sections[i].blockId
        && forall j :: i < j < |sections| ==> !SectionHolds(sections[j], line)
    decreases |sections|
  {
    if sections == [] then None
    else
      var last := sections[|sections| - 1];
      if SectionHolds(last, line) then Some(last.blockId)
      else
        var init := sections[..|sections| - 1];
        var r := ParentSectionId(line, init);
        assert forall i :: 0 <= i < |init| ==> init[i] == sections[i];
        assert r.Some? ==>
          exists i ::
            && 0 <= i < |sections| && SectionHolds(sections[i], line) && r.value == sections[i].blockId
            && forall j :: i < j < |sections| ==> !SectionHolds(sections[j], line)
        by {
          if r.Some? {
            var i :| && 0 <= i < |init| && SectionHolds(init[i], line) && r.value == init[i].blockId
                     && forall j :: i < j < |init| ==> !SectionHolds(init[j], line);
            assert forall j :: i < j < |sections| ==> !SectionHolds(sections[j], line);
          }
        }
        r
  }

  /** `parentSectionId(…) ?? rootBlockId` */
  function ParentOrRoot(line: int, sections: seq<SectionPlacement>): string
  {
    var p := ParentSectionId(line, sections);
    if p.Some? then p.value else RootBlockId
  }

  /** A recorded section as the output shows it: its block id and its
      span's lines. */
  datatype SectionRef = SectionRef(blockId: string, startLine: int, endLine: int)

  predicate RefHolds(r: SectionRef, line: int)
  {
    r.startLine <= line <= r.endLine
  }

  function Refs(sections: seq<SectionPlacement>): (r: seq<SectionRef>)
    ensures |r| == |sections|
    ensures forall i :: 0 <= i < |sections| ==>
      r[i] == SectionRef(sections[i].blockId, sections[i].startLine, sections[i].endLine)
  {
    seq(|sections|, i requires 0 <= i < |sections| =>
      SectionRef(sections[i].blockId, sections[i].startLine, sections[i].endLine))
  }

  /** The section blocks among `blocks`, in order, with their spans' lines. */
  function SectionRefs(spans: seq<Span>, blocks: seq<Block>): seq<SectionRef>
    requires |spans| == |blocks|
  {
    if blocks == [] then []
    else
      var n := |blocks| - 1;
      SectionRefs(spans[..n], blocks[..n])
        + (if blocks[n].kind == SectionKind then [SectionRef(blocks[n].id, spans[n].startLine, spans[n].endLine)] else [])
  }

  /** The parent rule for tables, code, bullets and raw runs: the last of
      the sections recorded so far that holds the block's first line, and
      the root when none does. */
  predicate ParentRule(refs: seq<SectionRef>, line: int, parent: Option<string>)
  {
    || (parent == Some(RootBlockId) && forall m :: 0 <= m < |refs| ==> !RefHolds(refs[m], line))
    || exists m ::
         && 0 <= m < |refs| && RefHolds(refs[m], line) && parent == Some(refs[m].blockId)
         && forall n :: m < n < |refs| ==> !RefHolds(refs[n], line)
  }

  /** `parentSectionId(…) ?? rootBlockId` follows the parent rule. */
  lemma ParentOrRootRule(line: int, sections: seq<SectionPlacement>)
    ensures ParentRule(Refs(sections), line, Some(ParentOrRoot(line, sections)))
  {
    var refs := Refs(sections);
    var p := ParentSectionId(line, sections);
    if p.Some? {
      var i :| && 0 <= i < |sections| && SectionHolds(sections[i], line) && p.value == sections[i].blockId
               && forall j :: i < j < |sections| ==> !SectionHolds(sections[j], line);
      assert RefHolds(refs[i], line);
      assert forall n :: i < n < |refs| ==> !RefHolds(refs[n], line) by {
        forall n | i < n < |refs| ensures !RefHolds(refs[n], line) {
          assert !SectionHolds(sections[n], line);
        }
      }
    } else {
      forall m | 0 <= m < |refs| ensures !RefHolds(refs[m], line) {
        assert !SectionHolds(sections[m], line);
      }
    }
  }

  /** The blocks parented by the rule rather than to the root or a section. */
  predicate ChildKind(k: BlockKind)
  {
    k == TableKind || k == Code || k == BulletKind || k == Raw
  }

  // ---------------------------------------------------------------------
  // One emission
  // ---------------------------------------------------------------------

  datatype Emission = Emission(
    spans: seq<Span>,
    blocks: seq<Block>,
    sectionBlocks: seq<SectionPlacement>,
    counts: map<string, nat>)

  /** The id the generator gives `prefix` next, and its counts after. */
  function NextId(counts: map<string, nat>, prefix: string): string
  {
    MakeId(prefix, CountOf(counts, prefix) + 1)
  }

  function Bump(counts: map<string, nat>, prefix: string): map<string, nat>
  {
    counts[prefix := CountOf(counts, prefix) + 1]
  }

  /** Draw a span id and then a block id, append the span `[lower, upper]`
      and the block `template` with both ids; a section is also recorded. */
  function EmitPair(st: Emission, spanPrefix: string, blockPrefix: string, lower: int, upper: int,
                    template: Block, record: Option<SectionPlacement>): Emission
  {
    var spanId := NextId(st.counts, spanPrefix);
    var counts := Bump(st.counts, spanPrefix);
    var blockId := NextId(counts, blockPrefix);
    Emission(
      st.spans + [Span(spanId, lower, upper, None, None)],
      st.blocks + [template.(id := blockId, spanId := spanId)],
      if record.Some? then st.sectionBlocks + [record.value.(spanId := spanId, blockId := blockId)] else st.sectionBlocks,
      Bump(counts, blockPrefix))
  }

  // ---------------------------------------------------------------------
  // Structural items
  // ---------------------------------------------------------------------

  function SpanPrefix(item: Item): string
  {
    match item
    case FrontItem(_) => "span:front"
    case SectionItem(_) => "span:sec"
    case TableItem(_) => "span:tbl"
    case CodeItem(_) => "span:code"
    case BulletItem(_) => "span:bullet"
  }

  function BlockPrefix(item: Item): string
  {
    match item
    case FrontItem(_) => "block:front"
    case SectionItem(_) => "block:sec"
    case TableItem(_) => "block:tbl"
    case CodeItem(_) => "block:code"
    case BulletItem(_) => "block:bullet"
  }

  function ItemKind(item: Item): BlockKind
  {
    match item
    case FrontItem(_) => FrontMatter
    case SectionItem(_) => SectionKind
    case TableItem(_) => TableKind
    case CodeItem(_) => Code
    case BulletItem(_) => BulletKind
  }

  /** The item priority, read back from the kind of block an item became. */
  function KindPriority(k: BlockKind): int
  {
    match k
    case FrontMatter => 0
    case SectionKind => 1
    case TableKind => 2
    case Code => 3
    case BulletKind => 4
    case _ => 5
  }

  /** The front-matter metadata: each entry in turn, a later key replacing
      an earlier one. */
  function EntriesMap(entries: seq<FrontMatterEntry>): map<string, string>
  {
    if entries == [] then map[]
    else
      var last := entries[|entries| - 1];
      EntriesMap(entries[..|entries| - 1])[last.key := last.value]
  }

  /** A key is in the metadata exactly when some entry has it, and its value
      is that of the last such entry. */
  lemma {:induction false} EntriesMapSpec(entries: seq<FrontMatterEntry>, key: string)
    ensures key in EntriesMap(entries) <==> exists i :: 0 <= i < |entries| && entries[i].key == key
    ensures key in EntriesMap(entries) ==>
      exists i ::
        && 0 <= i < |entries| && entries[i].key == key && EntriesMap(entries)[key] == entries[i].value
        && forall j :: i < j < |entries| ==> entries[j].key != key
    decreases |entries|
  {
    if entries != [] {
      var n := |entries| - 1;
      var init := entries[..n];
      EntriesMapSpec(init, key);
      assert forall i :: 0 <= i < n ==> init[i] == entries[i];
      if entries[n].key != key && key in EntriesMap(entries) {
        var i :| && 0 <= i < |init| && init[i].key == key && EntriesMap(init)[key] == init[i].value
                 && forall j :: i < j < |init| ==> init[j].key != key;
        assert entries[i].key == key;
      }
    }
  }

  /** The metadata loop of the front-matter case. */
  method FrontMatterMetadata(entries: seq<FrontMatterEntry>) returns (metadata: map<string, string>)
    ensures metadata == EntriesMap(entries)
  {
    metadata := map[];
    for k := 0 to |entries|
      invariant metadata == EntriesMap(entries[..k])
    {
      assert entries[..k + 1][..k] == entries[..k];
      metadata := metadata[entries[k].key := entries[k].value];
    }
    assert entries[..|entries|] == entries;
  }

  /** `metadata.isEmpty ? nil : metadata` */
  function MetadataOf(m: map<string, string>): Option<map<string, string>>
  {
    if |m| == 0 then None else Some(m)
  }

  function RowCounts(rows: seq<seq<string>>): (r: seq<int>)
    ensures |r| == |rows|
    ensures forall i :: 0 <= i < |rows| ==> r[i] == |rows[i]|
  {
    seq(|rows|, i requires 0 <= i < |rows| => |rows[i]|)
  }

  function FrontTemplate(metadata: map<string, string>, source: Source): Block
  {
    var prov := ProvenanceAndConfidence(FrontMatter, source, None);
    Block("", FrontMatter, "", Some(RootBlockId), None, None, None, None, None, MetadataOf(metadata), prov.0, prov.1)
  }

  /** The block an item becomes, before its ids are drawn; tables, code and
      bullets are parented among the sections recorded so far. */
  function ItemTemplate(item: Item, sections: seq<SectionPlacement>, source: Source): Block
  {
    match item
    case FrontItem(p) => FrontTemplate(EntriesMap(p.entries), source)
    case SectionItem(p) =>
      var prov := ProvenanceAndConfidence(SectionKind, source, None);
      Block("", SectionKind, "", Some(RootBlockId), Some(p.section.level), Some(p.section.heading),
            None, None, None, None, prov.0, prov.1)
    case TableItem(p) =>
      var info := TableInfo(|p.table.header|, RowCounts(p.table.rows));
      var prov := ProvenanceAndConfidence(TableKind, source, Some(info));
      Block("", TableKind, "", Some(ParentOrRoot(p.range.lower, sections)), None, None, None,
            Some(p.table.header), Some(p.table.rows), None, prov.0, prov.1)
    case CodeItem(p) =>
      var prov := ProvenanceAndConfidence(Code, source, None);
      Block("", Code, "", Some(ParentOrRoot(p.range.lower, sections)), None, None, p.block.language,
            None, None, None, prov.0, prov.1)
    case BulletItem(p) =>
      var prov := ProvenanceAndConfidence(BulletKind, source, None);
      Block("", BulletKind, "", Some(ParentOrRoot(p.range.lower, sections)), p.bullet.sectionLevel,
            Some(p.bullet.text), None, None, None, None, prov.0, prov.1)
  }

  /** Front matter and sections hang from the root; tables, code and
      bullets from the last recorded section holding their first line. */
  lemma ItemTemplateShape(item: Item, sections: seq<SectionPlacement>, source: Source)
    ensures ItemTemplate(item, sections, source).kind == ItemKind(item)
    ensures ChildKind(ItemKind(item)) ==>
      ItemTemplate(item, sections, source).parentId == Some(ParentOrRoot(StartLine(item), sections))
    ensures !ChildKind(ItemKind(item)) ==> ItemTemplate(item, sections, source).parentId == Some(RootBlockId)
  {
  }

  function EmitItem(st: Emission, item: Item, source: Source): Emission
  {
    EmitPair(st, SpanPrefix(item), BlockPrefix(item), StartLine(item), EndLine(item),
             ItemTemplate(item, st.sectionBlocks, source),
             if item.SectionItem? then Some(item.section) else None)
  }

  /** The loop over the sorted items. */
  function EmitItems(st: Emission, items: seq<Item>, source: Source): Emission
    decreases |items|
  {
    if items == [] then st
    else EmitItem(EmitItems(st, items[..|items| - 1], source), items[|items| - 1], source)
  }

  // ---------------------------------------------------------------------
  // Paragraph and raw runs
  // ---------------------------------------------------------------------

  /** Whose run a range is: a paragraph of the section with that block id,
      or raw lines no span covered. */
  datatype RangeOwner = ParagraphOf(sectionBlockId: string) | RawLines

  function RangeTemplate(owner: RangeOwner, lower: int, sections: seq<SectionPlacement>, source: Source): Block
  {
    match owner
    case ParagraphOf(id) =>
      var prov := ProvenanceAndConfidence(Paragraph, source, None);
      Block("", Paragraph, "", Some(id), None, None, None, None, None, None, prov.0, prov.1)
    case RawLines =>
      var prov := ProvenanceAndConfidence(Raw, source, None);
      Block("", Raw, "", Some(ParentOrRoot(lower, sections)), None, None, None, None, None, None, prov.0, prov.1)
  }

  function EmitRange(st: Emission, range: LineRange, owner: RangeOwner, source: Source): Emission
  {
    EmitPair(st, if owner.ParagraphOf? then "span:p" else "span:raw", if owner.ParagraphOf? then "block:p" else "block:raw",
             range.lower, range.upper, RangeTemplate(owner, range.lower, st.sectionBlocks, source), None)
  }

  function EmitRanges(st: Emission, ranges: seq<LineRange>, owner: RangeOwner, source: Source): Emission
    decreases |ranges|
  {
    if ranges == [] then st
    else EmitRange(EmitRanges(st, ranges[..|ranges| - 1], owner, source), ranges[|ranges| - 1], owner, source)
  }

  /** The paragraph loop: each recorded section in turn, its paragraph
      ranges in order. */
  function EmitParagraphs(st: Emission, sections: seq<SectionPlacement>, lineCount: int, excluded: set<int>,
                          source: Source): Emission
    decreases |sections|
  {
    if sections == [] then st
    else
      var last := sections[|sections| - 1];
      EmitRanges(EmitParagraphs(st, sections[..|sections| - 1], lineCount, excluded, source),
                 ParagraphRangesOf(last, lineCount, excluded), ParagraphOf(last.blockId), source)
  }

  // ---------------------------------------------------------------------
  // The loops
  // ---------------------------------------------------------------------

  /** The `for item in items` loop of `build`. */
  method EmitAllItems(ids: IdGenerator, spans0: seq<Span>, blocks0: seq<Block>, items: seq<Item>, source: Source)
    returns (spans: seq<Span>, blocks: seq<Block>, sectionBlocks: seq<SectionPlacement>)
    modifies ids
    ensures Emission(spans, blocks, sectionBlocks, ids.counts)
         == EmitItems(Emission(spans0, blocks0, [], old(ids.counts)), items, source)
  {
    ghost var st0 := Emission(spans0, blocks0, [], ids.counts);
    spans, blocks, sectionBlocks := spans0, blocks0, [];
    for k := 0 to |items|
      invariant Emission(spans, blocks, sectionBlocks, ids.counts) == EmitItems(st0, items[..k], source)
    {
      EmitItemsStep(st0, items, source, k);
      spans, blocks, sectionBlocks := EmitOneItem(ids, spans, blocks, sectionBlocks, items[k], source);
    }
    assert items[..|items|] == items;
  }

  /** The body of the item loop: one `case` of the `switch`. */
  method EmitOneItem(ids: IdGenerator, spans0: seq<Span>, blocks0: seq<Block>, sectionBlocks0: seq<SectionPlacement>,
                     item: Item, source: Source)
    returns (spans: seq<Span>, blocks: seq<Block>, sectionBlocks: seq<SectionPlacement>)
    modifies ids
    ensures Emission(spans, blocks, sectionBlocks, ids.counts)
         == EmitItem(Emission(spans0, blocks0, sectionBlocks0, old(ids.counts)), item, source)
  {
    var template;
    if item.FrontItem? {
      var metadata := FrontMatterMetadata(item.front.entries);
      template := FrontTemplate(metadata, source);
    } else {
      template := ItemTemplate(item, sectionBlocks0, source);
    }
    assert template == ItemTemplate(item, sectionBlocks0, source);
    var record := if item.SectionItem? then Some(item.section) else None;
    spans, blocks, sectionBlocks := EmitOnePair(ids, spans0, blocks0, sectionBlocks0, SpanPrefix(item), BlockPrefix(item),
                                                StartLine(item), EndLine(item), template, record);
  }

  lemma EmitItemsStep(st: Emission, items: seq<Item>, source: Source, k: nat)
    requires k < |items|
    ensures EmitItems(st, items[..k + 1], source) == EmitItem(EmitItems(st, items[..k], source), items[k], source)
  {
    assert items[..k + 1][..k] == items[..k];
  }

  /** The `for range in ranges` loops of the paragraph and raw phases. */
  method EmitAllRanges(ids: IdGenerator, spans0: seq<Span>, blocks0: seq<Block>, sectionBlocks: seq<SectionPlacement>,
                       ranges: seq<LineRange>, owner: RangeOwner, source: Source)
    returns (spans: seq<Span>, blocks: seq<Block>)
    modifies ids
    ensures Emission(spans, blocks, sectionBlocks, ids.counts)
         == EmitRanges(Emission(spans0, blocks0, sectionBlocks, old(ids.counts)), ranges, owner, source)
  {
    ghost var st0 := Emission(spans0, blocks0, sectionBlocks, ids.counts);
    spans, blocks := spans0, blocks0;
    var spanPrefix := if owner.ParagraphOf? then "span:p" else "span:raw";
    var blockPrefix := if owner.ParagraphOf? then "block:p" else "block:raw";
    for k := 0 to |ranges|
      invariant Emission(spans, blocks, sectionBlocks, ids.counts) == EmitRanges(st0, ranges[..k], owner, source)
    {
      EmitRangesStep(st0, ranges, owner, source, k);
      var range := ranges[k];
      var template := RangeTemplate(owner, range.lower, sectionBlocks, source);
      var sameSections;
      spans, blocks, sameSections := EmitOnePair(ids, spans, blocks, sectionBlocks, spanPrefix, blockPrefix,
                                              range.lower, range.upper, template, None);
    }
    assert ranges[..|ranges|] == ranges;
  }

  /** Drawing one span id and one block id and appending the pair, as
      every `case` of the item loop and both range loops do. */
  method EmitOnePair(ids: IdGenerator, spans0: seq<Span>, blocks0: seq<Block>, sectionBlocks0: seq<SectionPlacement>,
                     spanPrefix: string, blockPrefix: string, lower: int, upper: int,
                     template: Block, record: Option<SectionPlacement>)
    returns (spans: seq<Span>, blocks: seq<Block>, sectionBlocks: seq<SectionPlacement>)
    modifies ids
    ensures Emission(spans, blocks, sectionBlocks, ids.counts)
         == EmitPair(Emission(spans0, blocks0, sectionBlocks0, old(ids.counts)), spanPrefix, blockPrefix,
                     lower, upper, template, record)
  {
    var spanId := ids.Next(spanPrefix);
    var blockId := ids.Next(blockPrefix);
    spans := spans0 + [Span(spanId, lower, upper, None, None)];
    blocks := blocks0 + [template.(id := blockId, spanId := spanId)];
    sectionBlocks := sectionBlocks0;
    if record.Some? {
      sectionBlocks := sectionBlocks + [record.value.(spanId := spanId, blockId := blockId)];
    }
  }

  lemma EmitRangesStep(st: Emission, ranges: seq<LineRange>, owner: RangeOwner, source: Source, k: nat)
    requires k < |ranges|
    ensures EmitRanges(st, ranges[..k + 1], owner, source)
         == EmitRange(EmitRanges(st, ranges[..k], owner, source), ranges[k], owner, source)
  {
    assert ranges[..k + 1][..k] == ranges[..k];
  }

  /** The `for section in sectionBlocks` loop. */
  method EmitAllParagraphs(ids: IdGenerator, spans0: seq<Span>, blocks0: seq<Block>,
                           sectionBlocks: seq<SectionPlacement>, lineCount: int, excluded: set<int>, source: Source)
    returns (spans: seq<Span>, blocks: seq<Block>)
    modifies ids
    ensures Emission(spans, blocks, sectionBlocks, ids.counts)
         == EmitParagraphs(Emission(spans0, blocks0, sectionBlocks, old(ids.counts)), sectionBlocks,
                           lineCount, excluded, source)
  {
    ghost var st0 := Emission(spans0, blocks0, sectionBlocks, ids.counts);
    spans, blocks := spans0, blocks0;
    for s := 0 to |sectionBlocks|
      invariant Emission(spans, blocks, sectionBlocks, ids.counts)
             == EmitParagraphs(st0, sectionBlocks[..s], lineCount, excluded, source)
    {
      var section := sectionBlocks[s];
      var ranges := ParagraphRanges(section, lineCount, excluded);
      spans, blocks := EmitAllRanges(ids, spans, blocks, sectionBlocks, ranges, ParagraphOf(section.blockId), source);
      assert sectionBlocks[..s + 1][..s] == sectionBlocks[..s];
    }
    assert sectionBlocks[..|sectionBlocks|] == sectionBlocks;
  }
}
