/** The walker's placement of front matter, tables, code blocks and bullets
    (Sources/UMAFCore/Walker/UMAFWalker.swift): each semantic item, which
    carries a 0-based line index, becomes a 1-based inclusive line range
    clipped to the document, or is dropped when it starts past the end. */
module WalkerPlacements {
  import opened Wrappers
  import opened Text
  import opened CoreModels

  function Min(a: int, b: int): int { if a <= b then a else b }
  function Max(a: int, b: int): int { if a <= b then b else a }

  /** `ClosedRange<Int>`: `lower...upper`, 1-based and inclusive. */
  datatype LineRange = LineRange(lower: int, upper: int)

  /** Swift traps on building `lower...upper` with `upper < lower`. */
  predicate WellFormed(r: LineRange) { r.lower <= r.upper }

  predicate InRange(r: LineRange, line: int) { r.lower <= line <= r.upper }

  /** Inside the document `[1, lineCount]`. */
  predicate Within(r: LineRange, lineCount: int) { 1 <= r.lower <= r.upper <= lineCount }

  datatype CodePlacement = CodePlacement(block: CodeBlock, range: LineRange)
  datatype TablePlacement = TablePlacement(table: Table, range: LineRange)
  datatype BulletPlacement = BulletPlacement(bullet: Bullet, range: LineRange)
  datatype FrontMatterPlacement = FrontMatterPlacement(entries: seq<FrontMatterEntry>, range: LineRange)

  /** The clipping rule the three item placements share: an item starting
      at `start` and `total` lines long, dropped past the end of the
      document, cut short at it. The range is never empty, starts where the
      item does, and is `total` lines long unless it reaches the last
      line. */
  function Clip(start: int, total: nat, lineCount: int): (r: Option<LineRange>)
    requires total >= 1
    ensures r.Some? <==> start <= lineCount
    ensures r.Some? ==> r.value.lower == start && WellFormed(r.value) && r.value.upper <= lineCount
    ensures r.Some? ==> r.value.upper - r.value.lower + 1 <= total
    ensures r.Some? ==> r.value.upper - r.value.lower + 1 == total || r.value.upper == lineCount
  {
    if start > lineCount then None else Some(LineRange(start, Min(lineCount, start + total - 1)))
  }

  /** Lines of a code block's body: none when empty, else the pieces of a
      split on `\n` that keeps empty pieces. */
  function CodeLines(code: string): (n: nat)
    ensures n == if code == [] then 0 else CountChar(code, '\n') + 1
  {
    if code == [] then 0 else SplitCount(code, '\n'); |Split(code, '\n')|
  }

  /** `codePlacement(for:lineCount:)`: the body plus both fences. */
  function CodePlacementOf(block: CodeBlock, lineCount: int): (r: Option<CodePlacement>)
    ensures r.Some? <==> block.startLineIndex + 1 <= lineCount
    ensures r.Some? ==> r.value.block == block && r.value.range.lower == block.startLineIndex + 1
    ensures r.Some? ==> WellFormed(r.value.range) && r.value.range.upper <= lineCount
    ensures r.Some? && r.value.range.upper < lineCount ==>
      r.value.range.upper - r.value.range.lower + 1 == CodeLines(block.code) + 2
  {
    var range := Clip(block.startLineIndex + 1, CodeLines(block.code) + 2, lineCount);
    if range.None? then None else Some(CodePlacement(block, range.value))
  }

  /** `tablePlacement(for:lineCount:)`: header, separator and one line per row. */
  function TablePlacementOf(table: Table, lineCount: int): (r: Option<TablePlacement>)
    ensures r.Some? <==> table.startLineIndex + 1 <= lineCount
    ensures r.Some? ==> r.value.table == table && r.value.range.lower == table.startLineIndex + 1
    ensures r.Some? ==> WellFormed(r.value.range) && r.value.range.upper <= lineCount
    ensures r.Some? && r.value.range.upper < lineCount ==>
      r.value.range.upper - r.value.range.lower + 1 == |table.rows| + 2
  {
    var range := Clip(table.startLineIndex + 1, 2 + |table.rows|, lineCount);
    if range.None? then None else Some(TablePlacement(table, range.value))
  }

  /** `bulletPlacement(for:lineCount:)`: the bullet's own line. */
  function BulletPlacementOf(bullet: Bullet, lineCount: int): (r: Option<BulletPlacement>)
    ensures r.Some? <==> bullet.lineIndex + 1 <= lineCount
    ensures r.Some? ==> r.value.bullet == bullet
    ensures r.Some? ==> r.value.range == LineRange(bullet.lineIndex + 1, bullet.lineIndex + 1)
  {
    var range := Clip(bullet.lineIndex + 1, 1, lineCount);
    if range.None? then None else Some(BulletPlacement(bullet, range.value))
  }

  /** An item with a non-negative index that is kept lies inside the
      document. */
  lemma ItemPlacementsWithin(block: CodeBlock, table: Table, bullet: Bullet, lineCount: int)
    ensures block.startLineIndex >= 0 && CodePlacementOf(block, lineCount).Some? ==>
      Within(CodePlacementOf(block, lineCount).value.range, lineCount)
    ensures table.startLineIndex >= 0 && TablePlacementOf(table, lineCount).Some? ==>
      Within(TablePlacementOf(table, lineCount).value.range, lineCount)
    ensures bullet.lineIndex >= 0 && BulletPlacementOf(bullet, lineCount).Some? ==>
      Within(BulletPlacementOf(bullet, lineCount).value.range, lineCount)
  {
  }

  // ---------------------------------------------------------------------
  // Front matter
  // ---------------------------------------------------------------------

  /** A line that trims to `---`. */
  predicate IsFence(line: string)
  {
    Trim(line, Whitespaces) == "---"
  }

  /** The first fence at index `i` or later, as a 0-based index. */
  function NextFence(lines: seq<string>, i: nat): (r: Option<nat>)
    ensures r.Some? ==> i <= r.value < |lines| && IsFence(lines[r.value])
    ensures r.Some? ==> forall j :: i <= j < r.value ==> !IsFence(lines[j])
    ensures r.None? ==> forall j :: i <= j < |lines| ==> !IsFence(lines[j])
    decreases |lines| - i
  {
    if i >= |lines| then None
    else if IsFence(lines[i]) then Some(i)
    else NextFence(lines, i + 1)
  }

  /** What `frontMatterPlacement(lines:entries:lineCount:)` returns. */
  function FrontMatterPlacementOf(lines: seq<string>, entries: seq<FrontMatterEntry>, lineCount: int)
    : Option<FrontMatterPlacement>
  {
    if entries == [] || lines == [] || !IsFence(lines[0]) then None
    else
      var close := NextFence(lines, 1);
      if close.None? then None
      else Some(FrontMatterPlacement(entries, LineRange(1, Min(Max(1, close.value + 1), lineCount))))
  }

  /** `frontMatterPlacement(lines:entries:lineCount:)`: the search for the
      closing fence is the source's loop. */
  method FrontMatterPlacementFor(lines: seq<string>, entries: seq<FrontMatterEntry>, lineCount: int)
    returns (placement: Option<FrontMatterPlacement>)
    ensures placement == FrontMatterPlacementOf(lines, entries, lineCount)
  {
    if entries == [] { return None; }
    if lines == [] || Trim(lines[0], Whitespaces) != "---" { return None; }
    var endIndex: Option<nat> := None;
    var i := 1;
    while i < |lines|
      invariant 1 <= i <= |lines|
      invariant endIndex.None? && NextFence(lines, i) == NextFence(lines, 1)
    {
      if Trim(lines[i], Whitespaces) == "---" {
        endIndex := Some(i + 1);
        break;
      }
      i := i + 1;
    }
    if endIndex.None? { return None; }
    var end := endIndex.value;
    placement := Some(FrontMatterPlacement(entries, LineRange(1, Min(Max(1, end), lineCount))));
  }

  /** Front matter is placed exactly when there are entries, the first line
      is a fence and a later line closes it; it then spans from line 1 to
      the closing fence, clipped to the document, and no line between the
      two fences is itself a fence. */
  lemma FrontMatterPlacementSpec(lines: seq<string>, entries: seq<FrontMatterEntry>, lineCount: int,
                                 r: Option<FrontMatterPlacement>)
    requires r == FrontMatterPlacementOf(lines, entries, lineCount)
    ensures r.Some? <==>
      entries != [] && lines != [] && IsFence(lines[0]) && exists j :: 1 <= j < |lines| && IsFence(lines[j])
    ensures r.Some? ==>
      exists close ::
        && 1 <= close < |lines| && IsFence(lines[close])
        && (forall j :: 1 <= j < close ==> !IsFence(lines[j]))
        && r.value == FrontMatterPlacement(entries, LineRange(1, Min(close + 1, lineCount)))
    ensures r.Some? && lineCount >= 1 ==> Within(r.value.range, lineCount)
  {
    if entries != [] && lines != [] && IsFence(lines[0]) {
      var close := NextFence(lines, 1);
      if close.Some? {
        assert 1 <= close.value < |lines| && IsFence(lines[close.value]);
      }
    }
  }
}
