/** Properties of the sections, bullets and code blocks that the markdown
    body loop of `parseSemanticStructure` produces
    (Sources/UMAFCore/Parsing/Markdown/LineScanner.swift). */
module MarkdownFacts {
  import opened Wrappers
  import opened Text
  import opened CoreModels
  import opened MarkdownBody
  import opened MarkdownStructure

  // ---------------------------------------------------------------------
  // Fences
  // ---------------------------------------------------------------------

  /** The fence lines before `i` are a prefix of those before `k`, and the
      rest lie at or after `i`. */
  lemma {:induction false} FencePrefix(lines: seq<string>, start: nat, i: nat, k: nat)
    requires start <= i <= k <= |lines|
    ensures var fi := FenceIndices(lines, start, i);
      var fk := FenceIndices(lines, start, k);
      && |fi| <= |fk|
      && fk[..|fi|] == fi
      && (forall j :: |fi| <= j < |fk| ==> fk[j] >= i)
    decreases k - i
  {
    if k > i {
      FencePrefix(lines, start, i, k - 1);
      var fi := FenceIndices(lines, start, i);
      var fk1 := FenceIndices(lines, start, k - 1);
      var fk := FenceIndices(lines, start, k);
      assert fk == fk1 + (if IsFenceLine(lines[k - 1]) then [k - 1] else []);
      assert fk[..|fi|] == fk1[..|fi|];
    }
  }

  /** A line after an opening fence, up to and including its closing fence,
      is read inside the fence. */
  lemma InsideBlockIsInFence(lines: seq<string>, start: nat, i: nat, j: nat)
    requires start <= i <= |lines|
    requires 2 * j + 1 < |FenceIndices(lines, start, |lines|)|
    requires FenceIndices(lines, start, |lines|)[2 * j] < i <= FenceIndices(lines, start, |lines|)[2 * j + 1]
    ensures InFenceAt(lines, start, i)
  {
    var f := FenceIndices(lines, start, |lines|);
    var fi := FenceIndices(lines, start, i);
    FencePrefix(lines, start, i, |lines|);
    BelowSplit(f, fi, i, 2 * j);
    BelowSplit(f, fi, i, 2 * j + 1);
    assert |fi| == 2 * j + 1;
  }

  /** When `fi` is the part of `f` below `i`, an entry of `f` is below `i`
      exactly when its position is within `fi`. */
  lemma BelowSplit(f: seq<nat>, fi: seq<nat>, i: nat, a: nat)
    requires |fi| <= |f| && f[..|fi|] == fi
    requires forall j :: 0 <= j < |fi| ==> fi[j] < i
    requires forall j :: |fi| <= j < |f| ==> f[j] >= i
    requires a < |f|
    ensures f[a] < i <==> a < |fi|
  {
    if a < |fi| {
      assert f[a] == fi[a];
    }
  }

  /** A fence line sits in the list of all fence lines right after the
      fence lines before it. */
  lemma FenceAt(lines: seq<string>, start: nat, k: nat)
    requires start <= k < |lines| && IsFenceLine(lines[k])
    ensures var q := |FenceIndices(lines, start, k)|;
      q < |FenceIndices(lines, start, |lines|)| && FenceIndices(lines, start, |lines|)[q] == k
  {
    FencePrefix(lines, start, k + 1, |lines|);
    var fk := FenceIndices(lines, start, k);
    var fk1 := FenceIndices(lines, start, k + 1);
    assert fk1 == fk + [k];
    assert fk1[|fk|] == k;
  }

  /** Code blocks come out in line order and do not overlap: each one starts
      after the previous one's closing fence. */
  lemma CodeBlocksOrdered(lines: seq<string>, start: nat, j: nat)
    requires start <= |lines| && j < |CodeBlocksOf(lines, start)|
    ensures var f := FenceIndices(lines, start, |lines|);
      var c := CodeBlocksOf(lines, start);
      && c[j].startLineIndex == f[2 * j] < f[2 * j + 1]
      && (j + 1 < |c| ==> f[2 * j + 1] < c[j + 1].startLineIndex)
  {
    var f := FenceIndices(lines, start, |lines|);
    var c := CodeBlocksOf(lines, start);
    PairIndex(j, |f|);
    assert c[j] == BlockBetween(lines, f[2 * j], f[2 * j + 1]);
    if j + 1 < |c| {
      PairIndex(j + 1, |f|);
      assert c[j + 1] == BlockBetween(lines, f[2 * j + 2], f[2 * j + 3]);
    }
  }

  lemma PairIndex(j: nat, n: nat)
    requires j < n / 2
    ensures 2 * j + 1 < n
  {
  }

  /** A block's code is its inner lines joined by newlines, and its language
      is the non-empty text after the opening backticks and spaces. */
  lemma CodeBlockContents(lines: seq<string>, start: nat, j: nat)
    requires start <= |lines| && j < |CodeBlocksOf(lines, start)|
    ensures var f := FenceIndices(lines, start, |lines|);
      var c := CodeBlocksOf(lines, start)[j];
      && IsFenceLine(lines[f[2 * j]]) && IsFenceLine(lines[f[2 * j + 1]])
      && c.code == Join(lines[f[2 * j] + 1..f[2 * j + 1]], '\n')
      && (c.language.Some? ==> c.language.value != [] && c.language.value[0] != '`' && c.language.value[0] != ' ')
      && (forall i :: f[2 * j] < i < f[2 * j + 1] ==> !IsFenceLine(lines[i]))
  {
    var f := FenceIndices(lines, start, |lines|);
    PairIndex(j, |f|);
    forall i | f[2 * j] < i < f[2 * j + 1]
      ensures !IsFenceLine(lines[i])
    {
      NoFenceBetween(lines, start, 2 * j, i);
    }
  }

  /** No fence line lies strictly between two consecutive fence lines. */
  lemma NoFenceBetween(lines: seq<string>, start: nat, m: nat, i: nat)
    requires start <= |lines|
    requires m + 1 < |FenceIndices(lines, start, |lines|)|
    requires FenceIndices(lines, start, |lines|)[m] < i < FenceIndices(lines, start, |lines|)[m + 1]
    ensures !IsFenceLine(lines[i])
  {
    if IsFenceLine(lines[i]) {
      FenceAt(lines, start, i);
    }
  }

  // ---------------------------------------------------------------------
  // Sections
  // ---------------------------------------------------------------------

  /** One section per heading line, in order: its heading and level come from
      that line (a level from 1 to 6), and its lines are exactly the lines up
      to the next heading line, so the heading line itself and every line
      before the first heading belong to no section. */
  lemma SectionsSpec(lines: seq<string>, start: nat)
    requires start <= |lines|
    ensures var h := HeadingIndices(lines, start, |lines|);
      var s := SectionsOf(lines, start);
      && |s| == |h|
      && forall j :: 0 <= j < |s| ==>
        && 1 <= s[j].level <= 6
        && s[j].heading == HeadingText(Trim(lines[h[j]], Whitespaces))
        && s[j].lines == lines[h[j] + 1..NextHeading(h, j, |lines|)]
        && s[j].paragraphs == Paragraphs.ParagraphsOf(s[j].lines)
  {
  }

  /** The heading lines and the sections' lines, in order, make up every
      line from the first heading on. */
  lemma {:induction false} SectionsCover(lines: seq<string>, start: nat)
    requires start <= |lines|
    requires |HeadingIndices(lines, start, |lines|)| > 0
    ensures var h := HeadingIndices(lines, start, |lines|);
      Reassemble(lines, SectionsOf(lines, start), h, 0) == lines[h[0]..]
  {
    var h := HeadingIndices(lines, start, |lines|);
    ReassembleFrom(lines, SectionsOf(lines, start), h, 0);
  }

  /** Each heading line followed by its section's lines, from section `j` on. */
  function Reassemble(lines: seq<string>, s: seq<Section>, h: seq<nat>, j: nat): seq<string>
    requires |s| == |h| && Ascending(h, |lines|) && j <= |h|
    decreases |h| - j
  {
    if j == |h| then [] else [lines[h[j]]] + s[j].lines + Reassemble(lines, s, h, j + 1)
  }

  lemma {:induction false} ReassembleFrom(lines: seq<string>, s: seq<Section>, h: seq<nat>, j: nat)
    requires |s| == |h| && Ascending(h, |lines|) && j < |h|
    requires forall m :: 0 <= m < |s| ==> s[m].lines == lines[h[m] + 1..NextHeading(h, m, |lines|)]
    ensures Reassemble(lines, s, h, j) == lines[h[j]..]
    decreases |h| - j
  {
    var e := NextHeading(h, j, |lines|);
    assert lines[h[j]..] == [lines[h[j]]] + lines[h[j] + 1..e] + lines[e..];
    if j + 1 < |h| {
      ReassembleFrom(lines, s, h, j + 1);
    } else {
      assert lines[e..] == [];
    }
    AppendAssoc([lines[h[j]]] + s[j].lines, Reassemble(lines, s, h, j + 1), []);
  }

  /** A heading line is never inside a code block. */
  lemma HeadingsOutsideCode(lines: seq<string>, start: nat, m: nat, j: nat)
    requires start <= |lines|
    requires m < |HeadingIndices(lines, start, |lines|)|
    requires 2 * j + 1 < |FenceIndices(lines, start, |lines|)|
    ensures var i := HeadingIndices(lines, start, |lines|)[m];
      var f := FenceIndices(lines, start, |lines|);
      i < f[2 * j] || f[2 * j + 1] < i
  {
    var i := HeadingIndices(lines, start, |lines|)[m];
    var f := FenceIndices(lines, start, |lines|);
    if f[2 * j] < i <= f[2 * j + 1] {
      InsideBlockIsInFence(lines, start, i, j);
    }
  }

  // ---------------------------------------------------------------------
  // Bullets
  // ---------------------------------------------------------------------

  /** A trimmed bullet line has text after its marker. */
  lemma BulletTextNonEmpty(line: string)
    requires IsBulletLine(Trim(line, Whitespaces))
    ensures BulletText(Trim(line, Whitespaces)) != []
  {
    var t := Trim(line, Whitespaces);
    var d := DropWhileIn(line, Whitespaces);
    DropLastWhileInSpec(d, Whitespaces);
    assert t[1] == ' ';
    assert |t| >= 3;
    var rest := t[2..];
    assert rest[|rest| - 1] == t[|t| - 1];
    TrimEmptyIffAllIn(rest, Whitespaces);
  }

  /** One bullet per bullet line outside fences, in line order, with non-empty
      text, tagged with the heading and level of the last heading line before
      it (none before the first heading). */
  lemma BulletsSpec(lines: seq<string>, start: nat)
    requires start <= |lines|
    ensures var b := BulletsOf(lines, start);
      && (forall j :: 0 <= j < |b| ==>
        && start <= b[j].lineIndex < |lines|
        && IsBulletAt(lines, start, b[j].lineIndex)
        && b[j].text != []
        && b[j].sectionHeading == HeadingBefore(lines, start, b[j].lineIndex)
        && b[j].sectionLevel == LevelBefore(lines, start, b[j].lineIndex))
      && (forall j1, j2 :: 0 <= j1 < j2 < |b| ==> b[j1].lineIndex < b[j2].lineIndex)
  {
    var b := BulletsOf(lines, start);
    forall j | 0 <= j < |b|
      ensures b[j].text != []
    {
      BulletTextNonEmpty(lines[b[j].lineIndex]);
    }
  }

  /** No bullet is read inside a code block. */
  lemma BulletsOutsideCode(lines: seq<string>, start: nat, m: nat, j: nat)
    requires start <= |lines|
    requires m < |BulletsOf(lines, start)|
    requires 2 * j + 1 < |FenceIndices(lines, start, |lines|)|
    ensures var i := BulletsOf(lines, start)[m].lineIndex;
      var f := FenceIndices(lines, start, |lines|);
      i < f[2 * j] || f[2 * j + 1] < i
  {
    var i := BulletsOf(lines, start)[m].lineIndex;
    var f := FenceIndices(lines, start, |lines|);
    if f[2 * j] < i <= f[2 * j + 1] {
      InsideBlockIsInFence(lines, start, i, j);
    }
  }
}
