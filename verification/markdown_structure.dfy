/** What the markdown body loop of `parseSemanticStructure` computes, stated
    against the lines alone: code blocks are the pairs of fence lines,
    sections the stretches between heading lines, bullets the bullet lines
    outside fences. The loop is proved against these definitions. */
module MarkdownStructure {
  import opened Wrappers
  import opened Text
  import opened CoreModels
  import opened Paragraphs
  import opened MarkdownBody

  // ---------------------------------------------------------------------
  // Reference classification of the lines start..k
  // ---------------------------------------------------------------------

  /** The fence lines among `start..k`, in order. */
  function FenceIndices(lines: seq<string>, start: nat, k: nat): (r: seq<nat>)
    requires start <= k <= |lines|
    ensures forall j :: 0 <= j < |r| ==> start <= r[j] < k && IsFenceLine(lines[r[j]])
    ensures forall j1, j2 :: 0 <= j1 < j2 < |r| ==> r[j1] < r[j2]
    decreases k
  {
    if k == start then []
    else FenceIndices(lines, start, k - 1) + (if IsFenceLine(lines[k - 1]) then [k - 1] else [])
  }

  /** Line `k` lies inside a fence when an odd number of fence lines precede it. */
  predicate InFenceAt(lines: seq<string>, start: nat, k: nat)
    requires start <= k <= |lines|
  {
    |FenceIndices(lines, start, k)| % 2 == 1
  }

  /** An ATX heading outside any fence. */
  predicate IsHeadingAt(lines: seq<string>, start: nat, i: nat)
    requires start <= i < |lines|
  {
    !InFenceAt(lines, start, i) && !IsFenceLine(lines[i]) && IsHeadingText(Trim(lines[i], Whitespaces))
  }

  /** A bullet line outside any fence. */
  predicate IsBulletAt(lines: seq<string>, start: nat, i: nat)
    requires start <= i < |lines|
  {
    !InFenceAt(lines, start, i) && !IsFenceLine(lines[i]) && IsBulletLine(Trim(lines[i], Whitespaces))
  }

  /** The heading lines among `start..k`, in order. */
  function HeadingIndices(lines: seq<string>, start: nat, k: nat): (r: seq<nat>)
    requires start <= k <= |lines|
    ensures forall j :: 0 <= j < |r| ==> start <= r[j] < k && IsHeadingAt(lines, start, r[j])
    ensures forall j1, j2 :: 0 <= j1 < j2 < |r| ==> r[j1] < r[j2]
    decreases k
  {
    if k == start then []
    else HeadingIndices(lines, start, k - 1) + (if IsHeadingAt(lines, start, k - 1) then [k - 1] else [])
  }

  /** The bullet lines among `start..k`, in order. */
  function BulletIndices(lines: seq<string>, start: nat, k: nat): (r: seq<nat>)
    requires start <= k <= |lines|
    ensures forall j :: 0 <= j < |r| ==> start <= r[j] < k && IsBulletAt(lines, start, r[j])
    ensures forall j1, j2 :: 0 <= j1 < j2 < |r| ==> r[j1] < r[j2]
    decreases k
  {
    if k == start then []
    else BulletIndices(lines, start, k - 1) + (if IsBulletAt(lines, start, k - 1) then [k - 1] else [])
  }

  /** The code block between an opening fence `o` and a closing fence `c`. */
  function BlockBetween(lines: seq<string>, o: nat, c: nat): CodeBlock
    requires o < c <= |lines|
  {
    CodeBlock(o, FenceLanguage(Trim(lines[o], Whitespaces)), Join(lines[o + 1..c], '\n'))
  }

  /** The section a heading at `h` opens, ending before `e`. */
  function SectionBetween(lines: seq<string>, h: nat, e: nat): Section
    requires h < e <= |lines|
  {
    var t := Trim(lines[h], Whitespaces);
    Section(HeadingText(t), HeadingLevel(t), lines[h + 1..e], ParagraphsOf(lines[h + 1..e]), 0, 0)
  }

  /** The heading and level of the last heading line before `i`. */
  function HeadingBefore(lines: seq<string>, start: nat, i: nat): Option<string>
    requires start <= i <= |lines|
  {
    var h := HeadingIndices(lines, start, i);
    if |h| == 0 then None else Some(HeadingText(Trim(lines[h[|h| - 1]], Whitespaces)))
  }

  function LevelBefore(lines: seq<string>, start: nat, i: nat): Option<int>
    requires start <= i <= |lines|
  {
    var h := HeadingIndices(lines, start, i);
    if |h| == 0 then None else Some(HeadingLevel(Trim(lines[h[|h| - 1]], Whitespaces)))
  }

  /** The bullet the bullet line `i` yields. */
  function BulletAt(lines: seq<string>, start: nat, i: nat): Bullet
    requires start <= i < |lines|
  {
    Bullet(BulletText(Trim(lines[i], Whitespaces)), i, HeadingBefore(lines, start, i), LevelBefore(lines, start, i))
  }

  // ---------------------------------------------------------------------
  // What one step does to each group of locals
  // ---------------------------------------------------------------------

  /** The code-block locals across one line. */
  predicate CodeStep(st: MdState, n: MdState, index: nat, line: string)
  {
    if IsFenceLine(line) then
      && n.inFence == !st.inFence
      && (if st.inFence then n.codeBlocks == st.codeBlocks + ClosedBlock(st)
          else && n.codeBlocks == st.codeBlocks
               && n.codeStart == Some(index)
               && n.codeLanguage == FenceLanguage(Trim(line, Whitespaces))
               && n.codeLines == [])
    else
      && n.inFence == st.inFence
      && n.codeBlocks == st.codeBlocks
      && (st.inFence ==>
            n.codeStart == st.codeStart && n.codeLanguage == st.codeLanguage && n.codeLines == st.codeLines + [line])
  }

  /** The section locals across one line; `heading` says whether it is a heading line. */
  predicate SectionStep(st: MdState, n: MdState, line: string, heading: bool)
  {
    if heading then
      && n.sections == FlushSection(st).sections
      && n.heading == Some(HeadingText(Trim(line, Whitespaces)))
      && n.level == HeadingLevel(Trim(line, Whitespaces))
      && n.current == []
    else
      && n.sections == st.sections
      && n.heading == st.heading
      && n.level == st.level
      && n.current == KeepLine(st, line).current
  }

  /** The bullet list across one line; `bullet` says whether it is a bullet line. */
  predicate BulletStep(st: MdState, n: MdState, index: nat, line: string, bullet: bool)
  {
    n.bullets == st.bullets + (if bullet then [BulletFor(st, index, Trim(line, Whitespaces))] else [])
  }

  lemma StepCode(st: MdState, index: nat, line: string)
    ensures CodeStep(st, MdStep(st, index, line), index, line)
  {
  }

  lemma StepSection(st: MdState, index: nat, line: string)
    ensures SectionStep(st, MdStep(st, index, line), line,
                        !st.inFence && !IsFenceLine(line) && IsHeadingText(Trim(line, Whitespaces)))
  {
  }

  lemma StepBullet(st: MdState, index: nat, line: string)
    ensures BulletStep(st, MdStep(st, index, line), index, line,
                       !st.inFence && !IsFenceLine(line) && IsBulletLine(Trim(line, Whitespaces)))
  {
  }

  /** Strictly increasing indices below `k`. */
  predicate Ascending(r: seq<nat>, k: nat)
  {
    && (forall j :: 0 <= j < |r| ==> r[j] < k)
    && (forall j1, j2 :: 0 <= j1 < j2 < |r| ==> r[j1] < r[j2])
  }

  // ---------------------------------------------------------------------
  // Code blocks
  // ---------------------------------------------------------------------

  /** The open block started at fence line `o`. */
  predicate OpenBlock(lines: seq<string>, k: nat, st: MdState, o: nat)
    requires o < k <= |lines|
  {
    && st.codeStart == Some(o)
    && st.codeLanguage == FenceLanguage(Trim(lines[o], Whitespaces))
    && st.codeLines == lines[o + 1..k]
  }

  /** With fence lines `f` before `k`: the fence state is their parity, the
      j-th code block spans fence lines 2j and 2j+1, and an open block
      started at the last fence line. */
  predicate BlocksAlong(lines: seq<string>, f: seq<nat>, k: nat, st: MdState)
    requires k <= |lines| && Ascending(f, k)
  {
    && st.inFence == (|f| % 2 == 1)
    && |st.codeBlocks| == |f| / 2
    && (forall j :: 0 <= j < |st.codeBlocks| ==> st.codeBlocks[j] == BlockBetween(lines, f[2 * j], f[2 * j + 1]))
    && (st.inFence ==> OpenBlock(lines, k, st, f[|f| - 1]))
  }

  lemma BlocksAlongFence(lines: seq<string>, f: seq<nat>, k: nat, st: MdState, n: MdState)
    requires k < |lines| && Ascending(f, k) && IsFenceLine(lines[k])
    requires BlocksAlong(lines, f, k, st)
    requires CodeStep(st, n, k, lines[k])
    ensures Ascending(f + [k], k + 1)
    ensures BlocksAlong(lines, f + [k], k + 1, n)
  {
    if st.inFence {
      assert ClosedBlock(st) == [BlockBetween(lines, f[|f| - 1], k)];
    } else {
      assert lines[k + 1..k + 1] == [];
    }
  }

  lemma BlocksAlongOther(lines: seq<string>, f: seq<nat>, k: nat, st: MdState, n: MdState)
    requires k < |lines| && Ascending(f, k) && !IsFenceLine(lines[k])
    requires BlocksAlong(lines, f, k, st)
    requires CodeStep(st, n, k, lines[k])
    ensures Ascending(f, k + 1)
    ensures BlocksAlong(lines, f, k + 1, n)
  {
    if st.inFence {
      SliceSnoc(lines, f[|f| - 1] + 1, k);
    }
  }

  predicate CodeInv(lines: seq<string>, start: nat, k: nat, st: MdState)
    requires start <= k <= |lines|
  {
    BlocksAlong(lines, FenceIndices(lines, start, k), k, st)
  }

  lemma CodeInvStep(lines: seq<string>, start: nat, k: nat, st: MdState, n: MdState)
    requires start <= k < |lines|
    requires CodeInv(lines, start, k, st)
    requires CodeStep(st, n, k, lines[k])
    ensures CodeInv(lines, start, k + 1, n)
  {
    var f := FenceIndices(lines, start, k);
    if IsFenceLine(lines[k]) {
      assert FenceIndices(lines, start, k + 1) == f + [k];
      BlocksAlongFence(lines, f, k, st, n);
    } else {
      assert FenceIndices(lines, start, k + 1) == f;
      BlocksAlongOther(lines, f, k, st, n);
    }
  }

  // ---------------------------------------------------------------------
  // Sections
  // ---------------------------------------------------------------------

  /** The open section started by the heading line `h`. */
  predicate OpenSection(lines: seq<string>, k: nat, st: MdState, h: nat)
    requires h < k <= |lines|
  {
    var t := Trim(lines[h], Whitespaces);
    && st.heading == Some(HeadingText(t))
    && st.level == HeadingLevel(t)
    && st.current == lines[h + 1..k]
  }

  /** With heading lines `h` before `k`: a section is open exactly when there
      is one, the j-th closed section runs from heading line j to heading
      line j+1, and the open one from the last heading line to `k`. */
  predicate SectionsAlong(lines: seq<string>, h: seq<nat>, k: nat, st: MdState)
    requires k <= |lines| && Ascending(h, k)
  {
    && (st.heading.Some? <==> |h| > 0)
    && |st.sections| == (if |h| == 0 then 0 else |h| - 1)
    && (forall j :: 0 <= j < |st.sections| ==> st.sections[j] == SectionBetween(lines, h[j], h[j + 1]))
    && (|h| > 0 ==> OpenSection(lines, k, st, h[|h| - 1]))
  }

  lemma SectionsAlongHeading(lines: seq<string>, h: seq<nat>, k: nat, st: MdState, n: MdState)
    requires k < |lines| && Ascending(h, k)
    requires SectionsAlong(lines, h, k, st)
    requires SectionStep(st, n, lines[k], true)
    ensures Ascending(h + [k], k + 1)
    ensures SectionsAlong(lines, h + [k], k + 1, n)
  {
    if |h| > 0 {
      assert FlushSection(st).sections == st.sections + [SectionBetween(lines, h[|h| - 1], k)];
    }
    assert lines[k + 1..k + 1] == [];
  }

  lemma SectionsAlongOther(lines: seq<string>, h: seq<nat>, k: nat, st: MdState, n: MdState)
    requires k < |lines| && Ascending(h, k)
    requires SectionsAlong(lines, h, k, st)
    requires SectionStep(st, n, lines[k], false)
    ensures Ascending(h, k + 1)
    ensures SectionsAlong(lines, h, k + 1, n)
  {
    if |h| > 0 {
      SliceSnoc(lines, h[|h| - 1] + 1, k);
    }
  }

  predicate SectionInv(lines: seq<string>, start: nat, k: nat, st: MdState)
    requires start <= k <= |lines|
  {
    SectionsAlong(lines, HeadingIndices(lines, start, k), k, st)
  }

  lemma SectionInvStep(lines: seq<string>, start: nat, k: nat, st: MdState, n: MdState)
    requires start <= k < |lines|
    requires st.inFence == InFenceAt(lines, start, k) && SectionInv(lines, start, k, st)
    requires SectionStep(st, n, lines[k], !st.inFence && !IsFenceLine(lines[k]) && IsHeadingText(Trim(lines[k], Whitespaces)))
    ensures SectionInv(lines, start, k + 1, n)
  {
    if IsHeadingAt(lines, start, k) {
      SectionInvHeading(lines, start, k, st, n);
    } else {
      SectionInvOther(lines, start, k, st, n);
    }
  }

  lemma SectionInvHeading(lines: seq<string>, start: nat, k: nat, st: MdState, n: MdState)
    requires start <= k < |lines| && IsHeadingAt(lines, start, k)
    requires SectionInv(lines, start, k, st)
    requires SectionStep(st, n, lines[k], true)
    ensures SectionInv(lines, start, k + 1, n)
  {
    var h := HeadingIndices(lines, start, k);
    assert HeadingIndices(lines, start, k + 1) == h + [k];
    SectionsAlongHeading(lines, h, k, st, n);
  }

  lemma SectionInvOther(lines: seq<string>, start: nat, k: nat, st: MdState, n: MdState)
    requires start <= k < |lines| && !IsHeadingAt(lines, start, k)
    requires SectionInv(lines, start, k, st)
    requires SectionStep(st, n, lines[k], false)
    ensures SectionInv(lines, start, k + 1, n)
  {
    var h := HeadingIndices(lines, start, k);
    assert HeadingIndices(lines, start, k + 1) == h;
    SectionsAlongOther(lines, h, k, st, n);
  }

  // ---------------------------------------------------------------------
  // Bullets
  // ---------------------------------------------------------------------

  /** With bullet lines `b`: the j-th bullet comes from bullet line j. */
  predicate BulletsAlong(lines: seq<string>, start: nat, b: seq<nat>, k: nat, st: MdState)
    requires k <= |lines| && (forall j :: 0 <= j < |b| ==> start <= b[j] < k)
  {
    && |st.bullets| == |b|
    && (forall j :: 0 <= j < |b| ==> st.bullets[j] == BulletAt(lines, start, b[j]))
  }

  predicate BulletInv(lines: seq<string>, start: nat, k: nat, st: MdState)
    requires start <= k <= |lines|
  {
    BulletsAlong(lines, start, BulletIndices(lines, start, k), k, st)
  }

  /** The open section's heading and level are those of the last heading line. */
  lemma OpenHeading(lines: seq<string>, start: nat, k: nat, st: MdState)
    requires start <= k <= |lines|
    requires SectionInv(lines, start, k, st)
    ensures st.heading == HeadingBefore(lines, start, k)
    ensures (if st.heading.Some? then Some(st.level) else None) == LevelBefore(lines, start, k)
  {
  }

  lemma BulletsAlongBullet(lines: seq<string>, start: nat, b: seq<nat>, k: nat, st: MdState, n: MdState)
    requires start <= k < |lines| && (forall j :: 0 <= j < |b| ==> start <= b[j] < k)
    requires BulletsAlong(lines, start, b, k, st)
    requires BulletStep(st, n, k, lines[k], true)
    requires BulletFor(st, k, Trim(lines[k], Whitespaces)) == BulletAt(lines, start, k)
    ensures BulletsAlong(lines, start, b + [k], k + 1, n)
  {
  }

  lemma BulletsAlongOther(lines: seq<string>, start: nat, b: seq<nat>, k: nat, st: MdState, n: MdState)
    requires start <= k < |lines| && (forall j :: 0 <= j < |b| ==> start <= b[j] < k)
    requires BulletsAlong(lines, start, b, k, st)
    requires BulletStep(st, n, k, lines[k], false)
    ensures BulletsAlong(lines, start, b, k + 1, n)
  {
  }

  lemma BulletInvStep(lines: seq<string>, start: nat, k: nat, st: MdState, n: MdState)
    requires start <= k < |lines|
    requires st.inFence == InFenceAt(lines, start, k) && SectionInv(lines, start, k, st) && BulletInv(lines, start, k, st)
    requires BulletStep(st, n, k, lines[k], !st.inFence && !IsFenceLine(lines[k]) && IsBulletLine(Trim(lines[k], Whitespaces)))
    ensures BulletInv(lines, start, k + 1, n)
  {
    var b := BulletIndices(lines, start, k);
    if IsBulletAt(lines, start, k) {
      assert BulletIndices(lines, start, k + 1) == b + [k];
      OpenHeading(lines, start, k, st);
      BulletsAlongBullet(lines, start, b, k, st, n);
    } else {
      assert BulletIndices(lines, start, k + 1) == b;
      BulletsAlongOther(lines, start, b, k, st, n);
    }
  }

  // ---------------------------------------------------------------------
  // The loop
  // ---------------------------------------------------------------------

  /** Everything the loop keeps after the lines `start..k`. */
  predicate ScanInv(lines: seq<string>, start: nat, k: nat, st: MdState)
    requires start <= k <= |lines|
  {
    CodeInv(lines, start, k, st) && SectionInv(lines, start, k, st) && BulletInv(lines, start, k, st)
  }

  lemma ScanInvStart(lines: seq<string>, start: nat)
    requires start <= |lines|
    ensures ScanInv(lines, start, start, Start)
  {
  }

  lemma ScanInvStep(lines: seq<string>, start: nat, k: nat, st: MdState, n: MdState)
    requires start <= k < |lines|
    requires ScanInv(lines, start, k, st)
    requires CodeStep(st, n, k, lines[k])
    requires SectionStep(st, n, lines[k], !st.inFence && !IsFenceLine(lines[k]) && IsHeadingText(Trim(lines[k], Whitespaces)))
    requires BulletStep(st, n, k, lines[k], !st.inFence && !IsFenceLine(lines[k]) && IsBulletLine(Trim(lines[k], Whitespaces)))
    ensures ScanInv(lines, start, k + 1, n)
  {
    CodeInvStep(lines, start, k, st, n);
    SectionInvStep(lines, start, k, st, n);
    BulletInvStep(lines, start, k, st, n);
  }

  lemma MdStepKeepsInv(lines: seq<string>, start: nat, k: nat, st: MdState)
    requires start <= k < |lines|
    requires ScanInv(lines, start, k, st)
    ensures ScanInv(lines, start, k + 1, MdStep(st, k, lines[k]))
  {
    StepCode(st, k, lines[k]);
    StepSection(st, k, lines[k]);
    StepBullet(st, k, lines[k]);
    ScanInvStep(lines, start, k, st, MdStep(st, k, lines[k]));
  }

  // ---------------------------------------------------------------------
  // The body's lists, from the lines alone
  // ---------------------------------------------------------------------

  /** Where the j-th section ends: at the next heading line or at the end. */
  function NextHeading(h: seq<nat>, j: nat, end: nat): nat
  {
    if j + 1 < |h| then h[j + 1] else end
  }

  /** One section per heading line outside fences, holding the lines up to
      the next heading line. */
  function SectionsOf(lines: seq<string>, start: nat): (r: seq<Section>)
    requires start <= |lines|
    ensures |r| == |HeadingIndices(lines, start, |lines|)|
  {
    var h := HeadingIndices(lines, start, |lines|);
    seq(|h|, j requires 0 <= j < |h| => SectionBetween(lines, h[j], NextHeading(h, j, |lines|)))
  }

  /** One bullet per bullet line outside fences. */
  function BulletsOf(lines: seq<string>, start: nat): (r: seq<Bullet>)
    requires start <= |lines|
    ensures |r| == |BulletIndices(lines, start, |lines|)|
  {
    var b := BulletIndices(lines, start, |lines|);
    seq(|b|, j requires 0 <= j < |b| => BulletAt(lines, start, b[j]))
  }

  /** One code block per pair of fence lines; a last unpaired fence yields none. */
  function CodeBlocksOf(lines: seq<string>, start: nat): (r: seq<CodeBlock>)
    requires start <= |lines|
    ensures |r| == |FenceIndices(lines, start, |lines|)| / 2
  {
    var f := FenceIndices(lines, start, |lines|);
    seq(|f| / 2, j requires 0 <= j < |f| / 2 => BlockBetween(lines, f[2 * j], f[2 * j + 1]))
  }

  lemma FlushSections(lines: seq<string>, h: seq<nat>, st: MdState)
    requires Ascending(h, |lines|)
    requires SectionsAlong(lines, h, |lines|, st)
    ensures FlushSection(st).sections
         == seq(|h|, j requires 0 <= j < |h| => SectionBetween(lines, h[j], NextHeading(h, j, |lines|)))
  {
    var r := seq(|h|, j requires 0 <= j < |h| => SectionBetween(lines, h[j], NextHeading(h, j, |lines|)));
    if |h| > 0 {
      assert FlushSection(st).sections == st.sections + [SectionBetween(lines, h[|h| - 1], |lines|)];
      forall j | 0 <= j < |h|
        ensures FlushSection(st).sections[j] == r[j]
      {
      }
    }
  }

  lemma AllBullets(lines: seq<string>, start: nat, b: seq<nat>, st: MdState)
    requires start <= |lines| && (forall j :: 0 <= j < |b| ==> start <= b[j] < |lines|)
    requires BulletsAlong(lines, start, b, |lines|, st)
    ensures st.bullets == seq(|b|, j requires 0 <= j < |b| => BulletAt(lines, start, b[j]))
  {
  }

  lemma AllBlocks(lines: seq<string>, f: seq<nat>, st: MdState)
    requires Ascending(f, |lines|)
    requires BlocksAlong(lines, f, |lines|, st)
    ensures st.codeBlocks == seq(|f| / 2, j requires 0 <= j < |f| / 2 => BlockBetween(lines, f[2 * j], f[2 * j + 1]))
  {
  }

  lemma FinalLists(lines: seq<string>, start: nat, st: MdState)
    requires start <= |lines|
    requires ScanInv(lines, start, |lines|, st)
    ensures FlushSection(st).sections == SectionsOf(lines, start)
    ensures FlushSection(st).bullets == BulletsOf(lines, start)
    ensures FlushSection(st).codeBlocks == CodeBlocksOf(lines, start)
  {
    FlushSections(lines, HeadingIndices(lines, start, |lines|), st);
    AllBullets(lines, start, BulletIndices(lines, start, |lines|), st);
    AllBlocks(lines, FenceIndices(lines, start, |lines|), st);
  }

  /** The loop over `startIndex..<allLines.count` followed by the final flush. */
  method ParseMarkdownBody(lines: seq<string>, start: nat) returns (sections: seq<Section>, bullets: seq<Bullet>, codeBlocks: seq<CodeBlock>)
    requires start <= |lines|
    ensures sections == SectionsOf(lines, start)
    ensures bullets == BulletsOf(lines, start)
    ensures codeBlocks == CodeBlocksOf(lines, start)
  {
    var st := Start;
    ScanInvStart(lines, start);
    var index := start;
    while index < |lines|
      invariant start <= index <= |lines|
      invariant ScanInv(lines, start, index, st)
    {
      MdStepKeepsInv(lines, start, index, st);
      st := ScanMarkdownLine(st, index, lines[index]);
      index := index + 1;
    }
    FinalLists(lines, start, st);
    st := FlushSection(st);
    sections, bullets, codeBlocks := st.sections, st.bullets, st.codeBlocks;
  }
}
