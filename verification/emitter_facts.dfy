/** What the emitter writes is what the scanners read back: its heading
    lines, front matter, bullet lines and fences are recognised by the
    markdown scanner of `parseSemanticStructure`
    (Sources/UMAFCore/Parsing/Markdown/LineScanner.swift) as the values they
    were written from. */
module EmitterFacts {
  import opened Wrappers
  import opened Text
  import opened CoreModels
  import opened MarkdownEmitter
  import opened MarkdownBody
  import Paragraphs
  import MarkdownStructure
  import FrontMatter
  import LineScanner

  // ---------------------------------------------------------------------
  // Trimming helpers
  // ---------------------------------------------------------------------

  /** Dropping a prefix of characters of `cs` stops at the first other one. */
  lemma {:induction false} DropPrefix(p: string, s: string, cs: set<char>)
    requires AllIn(p, cs)
    requires s == [] || s[0] !in cs
    ensures DropWhileIn(p + s, cs) == s
  {
    if |p| > 0 {
      assert (p + s)[1..] == p[1..] + s;
      DropPrefix(p[1..], s, cs);
    }
  }

  lemma {:induction false} RepeatSpaces(n: nat)
    ensures AllIn(Repeat("  ", n), Whitespaces)
  {
    if n > 0 {
      RepeatSpaces(n - 1);
      var r := Repeat("  ", n);
      assert r == "  " + Repeat("  ", n - 1);
      forall i | 0 <= i < |r|
        ensures r[i] in Whitespaces
      {
        if i >= 2 {
          assert r[i] == Repeat("  ", n - 1)[i - 2];
        }
      }
    }
  }

  /** A text that does not start or end with a space or tab is its own trim. */
  predicate Trimmed(s: string)
  {
    s == [] || (s[0] !in Whitespaces && s[|s| - 1] !in Whitespaces)
  }

  // ---------------------------------------------------------------------
  // Headings
  // ---------------------------------------------------------------------

  lemma TrimNewlinesEnds(s: string)
    ensures Trimmed(Trim(s, WhitespacesAndNewlines))
  {
    var d := DropWhileIn(s, WhitespacesAndNewlines);
    DropWhileInSpec(s, WhitespacesAndNewlines);
    DropLastWhileInSpec(d, WhitespacesAndNewlines);
    var t := Trim(s, WhitespacesAndNewlines);
    if t != [] {
      assert t[0] == d[0];
    }
  }

  /** An emitted heading line is read by the markdown scanner as a heading of
      the clamped level with the trimmed title, unless the title itself
      starts with `#`. */
  lemma HeadingReadBack(heading: string, level: int)
    requires var title := Trim(heading, WhitespacesAndNewlines); title == [] || title[0] != '#'
    ensures var t := Trim(HeadingLine(heading, level), Whitespaces);
      && IsHeadingText(t)
      && HeadingLevel(t) == Clamp(level)
      && HeadingText(t) == Trim(heading, WhitespacesAndNewlines)
  {
    var title := Trim(heading, WhitespacesAndNewlines);
    var n := Clamp(level);
    var hashes := Repeat("#", n);
    TrimNewlinesEnds(heading);
    HashesAt(n);
    if title == [] {
      TrimHashesSpace(n);
      assert HeadingLine(heading, level) == hashes + " ";
      HashRun(hashes, n, []);
      assert hashes + [] == hashes;
    } else {
      TrimOfTrimmedLine(hashes, title);
      assert HeadingLine(heading, level) == hashes + (" " + title);
      HashRun(hashes, n, " " + title);
      assert (" " + title)[1..] == title;
    }
  }

  lemma HashesAt(n: nat)
    ensures forall i :: 0 <= i < n ==> Repeat("#", n)[i] == '#'
  {
    forall i | 0 <= i < n
      ensures Repeat("#", n)[i] == '#'
    {
      RepeatAt('#', n, i);
    }
  }

  /** `n` hashes and then text not starting with `#` have level `n`, and the
      heading text is that text without one leading space. */
  lemma HashRun(hashes: string, n: nat, rest: string)
    requires |hashes| == n && forall i :: 0 <= i < n ==> hashes[i] == '#'
    requires rest == [] || rest[0] != '#'
    ensures HeadingLevel(hashes + rest) == n
    ensures HeadingText(hashes + rest) == if rest != [] && rest[0] == ' ' then rest[1..] else rest
  {
    var s := hashes + rest;
    assert forall i :: 0 <= i < n ==> s[i] == hashes[i];
    assert n < |s| ==> s[n] == rest[0];
    assert s[n..] == rest;
  }

  /** The trim of `n` hashes and a space is the hashes. */
  lemma TrimHashesSpace(n: nat)
    requires 1 <= n
    requires forall i :: 0 <= i < n ==> Repeat("#", n)[i] == '#'
    ensures Trim(Repeat("#", n) + " ", Whitespaces) == Repeat("#", n)
  {
    var h := Repeat("#", n);
    var line := h + " ";
    assert line[0] == '#';
    assert DropWhileIn(line, Whitespaces) == line;
    assert line[..|line| - 1] == h;
    assert DropLastWhileIn(h, Whitespaces) == h;
  }

  lemma TrimOfTrimmedLine(hashes: string, title: string)
    requires hashes != [] && hashes[0] == '#'
    requires title != [] && Trimmed(title)
    ensures Trim(hashes + " " + title, Whitespaces) == hashes + " " + title
  {
    var line := hashes + " " + title;
    assert line[|line| - 1] == title[|title| - 1];
    FrontMatter.TrimOfTrimmed(line);
  }

  // ---------------------------------------------------------------------
  // Bullets
  // ---------------------------------------------------------------------

  /** An emitted bullet line, at any depth, is read back with the same text
      both as a plain bullet and as a markdown bullet. */
  lemma BulletReadBack(depth: nat, text: string)
    requires text != [] && Trimmed(text)
    ensures var line := Repeat("  ", depth) + "- " + text;
      && LineScanner.PlainBulletText(line) == Some(text)
      && IsBulletLine(Trim(line, Whitespaces))
      && BulletText(Trim(line, Whitespaces)) == text
  {
    var pad := Repeat("  ", depth);
    var line := pad + "- " + text;
    RepeatSpaces(depth);
    assert line == pad + ("- " + text);
    DropPrefix(pad, "- " + text, Whitespaces);
    var left := "- " + text;
    assert left[1..] == [' '] + text;
    DropPrefix([' '], text, Whitespaces);
    FrontMatter.TrimOfTrimmed(text);
    assert left[|left| - 1] == text[|text| - 1];
    assert Trim(line, Whitespaces) == left;
    assert left[2..] == text;
  }

  // ---------------------------------------------------------------------
  // Front matter
  // ---------------------------------------------------------------------

  /** An entry the emitter can write so that it reads back unchanged: a
      trimmed colon-free key, a trimmed value not wrapped in quotes. */
  predicate Writable(e: FrontMatterEntry)
  {
    && e.key != [] && ':' !in e.key && Trimmed(e.key)
    && Trimmed(e.value)
    && FrontMatter.StripOuterQuotes(e.value) == e.value
  }

  /** A written entry line reads back as its entry and is no delimiter. */
  lemma EntryLineReadBack(e: FrontMatterEntry)
    requires Writable(e)
    ensures FrontMatter.LineEntry(EntryLine(e)) == [e]
    ensures !FrontMatter.IsDelimiter(EntryLine(e))
  {
    var line := EntryLine(e);
    var k := |e.key|;
    assert line[k] == ':';
    var t := Trim(line, Whitespaces);
    if e.value != [] {
      FrontMatter.EntryLineRoundTrip(e.key, e.value);
      FrontMatter.TrimOfTrimmed(line);
    } else {
      assert line == e.key + ": ";
      assert DropWhileIn(line, Whitespaces) == line;
      assert line[..|line| - 1] == e.key + ":";
      assert DropLastWhileIn(e.key + ":", Whitespaces) == e.key + ":";
      assert t == e.key + ":";
      IndexOfFirst(t, ':', k);
      assert t[..k] == e.key;
      FrontMatter.TrimOfTrimmed(e.key);
      assert t[k + 1..] == [];
    }
    assert t[k] == ':';
  }

  lemma {:induction false} EntryLinesReadBack(fm: seq<FrontMatterEntry>, k: nat)
    requires k <= |fm|
    requires forall j :: 0 <= j < |fm| ==> Writable(fm[j])
    ensures FrontMatter.EntriesOf(EntryLines(fm, k)) == fm[..k]
  {
    if k > 0 {
      EntryLinesReadBack(fm, k - 1);
      EntryLinesSnoc(fm, k);
      EntryLineReadBack(fm[k - 1]);
      ReadBackStep(EntryLines(fm, k - 1), EntryLine(fm[k - 1]), fm[..k - 1], fm[k - 1]);
      TakeSnoc(fm, k);
    }
  }

  lemma EntryLinesSnoc(fm: seq<FrontMatterEntry>, k: nat)
    requires 0 < k <= |fm|
    ensures EntryLines(fm, k) == EntryLines(fm, k - 1) + [EntryLine(fm[k - 1])]
  {
  }

  lemma ReadBackStep(before: seq<string>, line: string, es: seq<FrontMatterEntry>, e: FrontMatterEntry)
    requires FrontMatter.EntriesOf(before) == es && FrontMatter.LineEntry(line) == [e]
    ensures FrontMatter.EntriesOf(before + [line]) == es + [e]
  {
    FrontMatter.EntriesOfSnoc(before, line);
  }

  lemma TakeSnoc<T>(s: seq<T>, k: nat)
    requires 0 < k <= |s|
    ensures s[..k] == s[..k - 1] + [s[k - 1]]
  {
  }

  /** No line from `i` up to `c` is a delimiter and `c` is one. */
  lemma {:induction false} CloseAt(lines: seq<string>, i: nat, c: nat)
    requires i <= c < |lines| && FrontMatter.IsDelimiter(lines[c])
    requires forall j :: i <= j < c ==> !FrontMatter.IsDelimiter(lines[j])
    ensures FrontMatter.FindClose(lines, i) == Some(c)
    decreases c - i
  {
    if i < c {
      CloseAt(lines, i + 1, c);
    }
  }

  /** Emitted front matter, whatever follows it, is read back by the scanner
      as the same entries, and the body starts right after it. */
  lemma FrontMatterReadBack(fm: seq<FrontMatterEntry>, rest: seq<string>)
    requires fm != []
    requires forall j :: 0 <= j < |fm| ==> Writable(fm[j])
    ensures FrontMatter.ScannerHeader(FrontMatterLines(fm) + rest) == FrontMatter.Header(fm, |fm| + 2)
  {
    var entries := EntryLines(fm, |fm|);
    FrontMatterShape(fm, rest);
    EntryLinesNoDelimiter(fm);
    EntryLinesReadBack(fm, |fm|);
    assert fm[..|fm|] == fm;
    HeaderOf(FrontMatterLines(fm) + rest, entries);
  }

  lemma FrontMatterShape(fm: seq<FrontMatterEntry>, rest: seq<string>)
    requires fm != []
    ensures var lines := FrontMatterLines(fm) + rest;
      && |fm| + 1 < |lines| && lines[0] == "---" && lines[|fm| + 1] == "---"
      && lines[1..|fm| + 1] == EntryLines(fm, |fm|)
  {
    Framed("---", EntryLines(fm, |fm|), "---", "", rest);
  }

  /** Where the parts of `[x] + e + [y, z] + rest` sit. */
  lemma Framed<T>(x: T, e: seq<T>, y: T, z: T, rest: seq<T>)
    ensures var s := [x] + e + [y, z] + rest;
      && |e| + 1 < |s| && s[0] == x && s[|e| + 1] == y && s[1..|e| + 1] == e
  {
  }

  lemma EntryLinesNoDelimiter(fm: seq<FrontMatterEntry>)
    requires forall j :: 0 <= j < |fm| ==> Writable(fm[j])
    ensures forall j :: 0 <= j < |fm| ==> !FrontMatter.IsDelimiter(EntryLines(fm, |fm|)[j])
  {
    forall j | 0 <= j < |fm|
      ensures !FrontMatter.IsDelimiter(EntryLines(fm, |fm|)[j])
    {
      EntryLineReadBack(fm[j]);
    }
  }

  /** Lines opening with `---`, closing with `---` at `n + 1` and holding no
      delimiter in between give the entries of the lines between. */
  lemma HeaderOf(lines: seq<string>, mid: seq<string>)
    requires |mid| + 1 < |lines| && lines[0] == "---" && lines[|mid| + 1] == "---" && lines[1..|mid| + 1] == mid
    requires forall j :: 0 <= j < |mid| ==> !FrontMatter.IsDelimiter(mid[j])
    ensures FrontMatter.ScannerHeader(lines) == FrontMatter.Header(FrontMatter.EntriesOf(mid), |mid| + 2)
  {
    var n := |mid|;
    FrontMatter.TrimOfTrimmed("---");
    assert forall j :: 1 <= j < n + 1 ==> !FrontMatter.IsDelimiter(lines[j]) by {
      forall j | 1 <= j < n + 1
        ensures !FrontMatter.IsDelimiter(lines[j])
      {
        assert lines[j] == mid[j - 1];
      }
    }
    CloseAt(lines, 1, n + 1);
    FrontMatter.ReadFromSpec(lines, 1);
  }

  // ---------------------------------------------------------------------
  // Fences
  // ---------------------------------------------------------------------

  lemma {:induction false} SplitSuffix(p: string, b: string, sep: char)
    requires sep !in b
    ensures Split(p + [sep] + b, sep) == Split(p, sep) + [b]
  {
    if |p| == 0 {
      assert p + [sep] + b == [sep] + b;
      assert ([sep] + b)[1..] == b;
      SplitOfSepFree(b, sep);
    } else {
      SplitSuffix(p[1..], b, sep);
      assert (p + [sep] + b)[1..] == p[1..] + [sep] + b;
    }
  }

  /** A fence tag the emitter writes: a word with no backtick, space or
      newline at the front and no space or tab at the end. */
  predicate Tag(tag: string)
  {
    tag != [] && tag[0] != '`' && tag[0] != ' ' && '\n' !in tag && tag[|tag| - 1] !in Whitespaces
  }

  lemma FenceLines(tag: string, payload: string)
    requires Tag(tag)
    ensures Split(Fenced(tag, payload), '\n') == [Fence + tag] + Split(payload, '\n') + [Fence]
  {
    JoinConsLines(Fence + tag, [payload, Fence], '\n');
    JoinConsLines(payload, [Fence], '\n');
    assert Fenced(tag, payload) == (Fence + tag) + ['\n'] + (payload + ['\n'] + Fence);
    SplitPrefix(Fence + tag, payload + ['\n'] + Fence, '\n');
    SplitSuffix(payload, Fence, '\n');
  }

  lemma {:induction false} OnlyFirstFence(lines: seq<string>, k: nat)
    requires 1 <= k < |lines| && IsFenceLine(lines[0])
    requires forall i :: 0 < i < |lines| - 1 ==> !IsFenceLine(lines[i])
    ensures MarkdownStructure.FenceIndices(lines, 0, k) == [0]
  {
    if k > 1 {
      OnlyFirstFence(lines, k - 1);
    }
  }

  /** The opening fence line is a fence whose language is the tag. */
  lemma TagLanguage(tag: string)
    requires Tag(tag)
    ensures IsFenceLine(Fence + tag) && IsFenceLine(Fence)
    ensures FenceLanguage(Trim(Fence + tag, Whitespaces)) == Some(tag)
  {
    FrontMatter.TrimOfTrimmed(Fence + tag);
    FrontMatter.TrimOfTrimmed(Fence);
    DropPrefix(Fence, tag, {'`', ' '});
  }

  /** A fenced payload whose lines hold no fence, read as markdown, is one
      code block at line 0 tagged with the fence's tag and holding exactly
      the payload. */
  lemma FencedReadBack(tag: string, payload: string)
    requires Tag(tag)
    requires forall k :: 0 <= k < |Split(payload, '\n')| ==> !IsFenceLine(Split(payload, '\n')[k])
    ensures MarkdownStructure.CodeBlocksOf(Split(Fenced(tag, payload), '\n'), 0)
         == [CodeBlock(0, Some(tag), payload)]
  {
    var p := Split(payload, '\n');
    var lines := Split(Fenced(tag, payload), '\n');
    FenceLines(tag, payload);
    TagLanguage(tag);
    FencedFences(lines, Fence + tag, p, Fence);
    OneBlock(lines);
    JoinSplit(payload, '\n');
  }

  /** The only fence lines of `[a] + p + [b]`, when `a` and `b` are fences
      and no line of `p` is, are its first and last. */
  lemma FencedFences(lines: seq<string>, a: string, p: seq<string>, b: string)
    requires lines == [a] + p + [b]
    requires IsFenceLine(a) && IsFenceLine(b)
    requires forall k :: 0 <= k < |p| ==> !IsFenceLine(p[k])
    ensures lines[1..|lines| - 1] == p
    ensures MarkdownStructure.FenceIndices(lines, 0, |lines|) == [0, |lines| - 1]
  {
    var n := |lines|;
    assert lines[1..n - 1] == p;
    assert forall i :: 0 < i < n - 1 ==> !IsFenceLine(lines[i]) by {
      forall i | 0 < i < n - 1
        ensures !IsFenceLine(lines[i])
      {
        assert lines[i] == p[i - 1];
      }
    }
    assert IsFenceLine(lines[0]) && IsFenceLine(lines[n - 1]) by {
      assert lines[0] == a && lines[n - 1] == b;
    }
    FirstAndLast(lines);
  }

  /** Lines whose only fence lines are the first and the last. */
  lemma FirstAndLast(lines: seq<string>)
    requires |lines| >= 2 && IsFenceLine(lines[0]) && IsFenceLine(lines[|lines| - 1])
    requires forall i :: 0 < i < |lines| - 1 ==> !IsFenceLine(lines[i])
    ensures MarkdownStructure.FenceIndices(lines, 0, |lines|) == [0, |lines| - 1]
  {
    OnlyFirstFence(lines, |lines| - 1);
    LastFence(lines, |lines|);
  }

  lemma LastFence(lines: seq<string>, k: nat)
    requires 1 < k <= |lines| && IsFenceLine(lines[k - 1])
    requires MarkdownStructure.FenceIndices(lines, 0, k - 1) == [0]
    ensures MarkdownStructure.FenceIndices(lines, 0, k) == [0, k - 1]
  {
    assert MarkdownStructure.FenceIndices(lines, 0, k) == MarkdownStructure.FenceIndices(lines, 0, k - 1) + [k - 1];
  }

  /** Two fence lines, first and last, make one code block. */
  lemma OneBlock(lines: seq<string>)
    requires |lines| >= 2 && MarkdownStructure.FenceIndices(lines, 0, |lines|) == [0, |lines| - 1]
    ensures MarkdownStructure.CodeBlocksOf(lines, 0)
         == [CodeBlock(0, FenceLanguage(Trim(lines[0], Whitespaces)), Join(lines[1..|lines| - 1], '\n'))]
  {
    assert MarkdownStructure.CodeBlocksOf(lines, 0)[0] == MarkdownStructure.BlockBetween(lines, 0, |lines| - 1);
  }

  // ---------------------------------------------------------------------
  // Paragraph spacing
  // ---------------------------------------------------------------------

  /** Spaced paragraphs sit at the even positions with a blank line between
      each two, and no blank after the last. */
  lemma {:induction false} SpacedSpec(ps: seq<string>, k: nat)
    requires k <= |ps|
    ensures |Spaced(ps, k)| == (if k == 0 then 0 else if k == |ps| then 2 * k - 1 else 2 * k)
    ensures forall j :: 0 <= j < |Spaced(ps, k)| ==>
      Spaced(ps, k)[j] == (if j % 2 == 0 then ps[j / 2] else "")
  {
    if k > 0 {
      SpacedSpec(ps, k - 1);
      var prev := Spaced(ps, k - 1);
      assert |prev| == 2 * (k - 1);
      var cur := Spaced(ps, k);
      forall j | 0 <= j < |cur|
        ensures cur[j] == (if j % 2 == 0 then ps[j / 2] else "")
      {
        if j < |prev| {
          assert cur[j] == prev[j];
        }
      }
    }
  }

  // ---------------------------------------------------------------------
  // The document branch
  // ---------------------------------------------------------------------

  /** The lines from `i` on, with every blank line that follows a blank line
      dropped. */
  function Collapsed(doc: seq<string>, i: nat): seq<string>
    requires i <= |doc|
    decreases |doc| - i
  {
    if i == |doc| then []
    else if 0 < i && Paragraphs.Blank(doc[i]) && Paragraphs.Blank(doc[i - 1]) then Collapsed(doc, i + 1)
    else [doc[i]] + Collapsed(doc, i + 1)
  }

  lemma {:induction false} SkipRun(doc: seq<string>, i: nat, j: nat, last: nat)
    requires i < j <= last + 1 <= |doc|
    requires forall m :: i <= m <= last ==> Paragraphs.Blank(doc[m])
    ensures Collapsed(doc, j) == Collapsed(doc, last + 1)
    decreases last + 1 - j
  {
    if j <= last {
      SkipRun(doc, i, j + 1, last);
    }
  }

  /** Without bullets, the document branch copies the document's lines and
      keeps only the first of each run of blank lines. */
  lemma {:induction false} DocBodyWithoutBullets(doc: seq<string>, bs: seq<Bullet>, base: nat, i: nat)
    requires i <= |doc|
    requires i == 0 || i == |doc| || !(Paragraphs.Blank(doc[i]) && Paragraphs.Blank(doc[i - 1]))
    ensures DocBody(doc, {}, bs, base, i) == Collapsed(doc, i)
    decreases |doc| - i
  {
    if i < |doc| {
      var next := if Paragraphs.Blank(doc[i]) then LastBlank(doc, i) + 1 else i + 1;
      assert DocBody(doc, {}, bs, base, i) == [doc[i]] + DocBody(doc, {}, bs, base, next) by {
        CopyStep(doc, bs, base, i);
      }
      assert Collapsed(doc, i) == [doc[i]] + Collapsed(doc, next) by {
        CollapsedStep(doc, i);
      }
      DocBodyWithoutBullets(doc, bs, base, next);
    }
  }

  /** One pass of the loop without bullets: the line is copied, and a blank
      line skips the blank lines after it. */
  lemma CopyStep(doc: seq<string>, bs: seq<Bullet>, base: nat, i: nat)
    requires i < |doc|
    ensures DocBody(doc, {}, bs, base, i)
         == [doc[i]] + DocBody(doc, {}, bs, base, if Paragraphs.Blank(doc[i]) then LastBlank(doc, i) + 1 else i + 1)
  {
  }

  lemma CollapsedStep(doc: seq<string>, i: nat)
    requires i < |doc|
    requires i == 0 || !(Paragraphs.Blank(doc[i]) && Paragraphs.Blank(doc[i - 1]))
    ensures Collapsed(doc, i)
         == [doc[i]] + Collapsed(doc, if Paragraphs.Blank(doc[i]) then LastBlank(doc, i) + 1 else i + 1)
  {
    CollapsedKeep(doc, i);
    if Paragraphs.Blank(doc[i]) {
      var last := LastBlank(doc, i);
      if i < last {
        SkipRun(doc, i, i + 1, last);
      }
    }
  }

  /** A line that does not continue a blank run is kept. */
  lemma CollapsedKeep(doc: seq<string>, i: nat)
    requires i < |doc|
    requires i == 0 || !(Paragraphs.Blank(doc[i]) && Paragraphs.Blank(doc[i - 1]))
    ensures Collapsed(doc, i) == [doc[i]] + Collapsed(doc, i + 1)
  {
  }

  /** The first bullet at a line is a bullet at that line, and there is one
      exactly when some bullet is at that line. */
  lemma {:induction false} FirstAtSpec(bs: seq<Bullet>, j: int)
    ensures FirstAt(bs, j).Some? ==> FirstAt(bs, j).value in bs && FirstAt(bs, j).value.lineIndex == j
    ensures FirstAt(bs, j).Some? <==> exists q :: 0 <= q < |bs| && bs[q].lineIndex == j
  {
    if bs != [] && bs[0].lineIndex != j {
      FirstAtSpec(bs[1..], j);
      if exists q :: 0 <= q < |bs| && bs[q].lineIndex == j {
        var q :| 0 <= q < |bs| && bs[q].lineIndex == j;
        assert bs[1..][q - 1] == bs[q];
      }
      if FirstAt(bs, j).Some? {
        var q :| 0 <= q < |bs[1..]| && bs[1..][q].lineIndex == j;
        assert bs[q + 1] == bs[1..][q];
      }
    }
  }

  /** Each line index of a bullet has a first bullet at it. */
  lemma LineSetHasBullets(bs: seq<Bullet>)
    ensures forall j :: j in LineSet(bs) ==> FirstAt(bs, j).Some?
  {
    forall j | j in LineSet(bs)
      ensures FirstAt(bs, j).Some?
    {
      FirstAtSpec(bs, j);
    }
  }

  /** When every line of `s` holds a bullet, a bullet run writes one line
      per line of the document it covers. */
  lemma {:induction false} RunLength(doc: seq<string>, s: set<int>, bs: seq<Bullet>, base: nat, i: nat)
    requires i <= |doc|
    requires forall j :: j in s ==> FirstAt(bs, j).Some?
    ensures |RunLines(doc, s, bs, base, i)| == RunEnd(doc, s, i) - i
    decreases |doc| - i
  {
    if i < |doc| && i in s {
      assert FirstAt(bs, i).Some?;
      RunStep(doc, s, bs, base, i);
      RunLength(doc, s, bs, base, i + 1);
    }
  }

  lemma RunStep(doc: seq<string>, s: set<int>, bs: seq<Bullet>, base: nat, i: nat)
    requires i < |doc| && i in s && FirstAt(bs, i).Some?
    ensures RunLines(doc, s, bs, base, i)
         == [BulletLine(doc[i], FirstAt(bs, i).value.text, base)] + RunLines(doc, s, bs, base, i + 1)
    ensures RunEnd(doc, s, i) == RunEnd(doc, s, i + 1)
  {
  }

  /** Line `k` of a run is the re-indented text of the first bullet at line
      `i + k`. */
  lemma {:induction false} RunLineAt(doc: seq<string>, s: set<int>, bs: seq<Bullet>, base: nat, i: nat, k: nat)
    requires i <= |doc|
    requires forall j :: j in s ==> FirstAt(bs, j).Some?
    requires k < RunEnd(doc, s, i) - i
    ensures FirstAt(bs, i + k).Some?
    ensures k < |RunLines(doc, s, bs, base, i)|
    ensures RunLines(doc, s, bs, base, i)[k] == BulletLine(doc[i + k], FirstAt(bs, i + k).value.text, base)
    decreases k
  {
    assert i < |doc| && i in s && FirstAt(bs, i).Some?;
    RunStep(doc, s, bs, base, i);
    if k > 0 {
      RunLineAt(doc, s, bs, base, i + 1, k - 1);
      assert i + k == (i + 1) + (k - 1);
    }
  }

  /** A re-indented bullet reads back as a plain bullet with its text. */
  lemma BulletLineReadBack(raw: string, text: string, base: nat)
    requires text != [] && Trimmed(text)
    ensures LineScanner.PlainBulletText(BulletLine(raw, text, base)) == Some(text)
  {
    var w := Paragraphs.IndentWidth(raw);
    var extra := if w - base > 0 then w - base else 0;
    BulletReadBack(extra / 2, text);
  }

  /** The base indent is the smallest indent among the lines the bullets
      name, and one of them has it; with no such line there is none. */
  lemma {:induction false} MinIndentSpec(doc: seq<string>, bs: seq<Bullet>)
    ensures MinIndent(doc, bs).None? <==> forall k :: 0 <= k < |bs| ==> !(0 <= bs[k].lineIndex < |doc|)
    ensures MinIndent(doc, bs).Some? ==>
      && (forall k :: 0 <= k < |bs| && 0 <= bs[k].lineIndex < |doc| ==>
            MinIndent(doc, bs).value <= Paragraphs.IndentWidth(doc[bs[k].lineIndex]))
      && (exists k :: 0 <= k < |bs| && 0 <= bs[k].lineIndex < |doc| &&
            MinIndent(doc, bs).value == Paragraphs.IndentWidth(doc[bs[k].lineIndex]))
  {
    if bs != [] {
      MinIndentSpec(doc, bs[1..]);
      var rest := MinIndent(doc, bs[1..]);
      forall k | 1 <= k < |bs|
        ensures bs[k] == bs[1..][k - 1]
      {
      }
      if rest.Some? {
        var k' :| 0 <= k' < |bs[1..]| && 0 <= bs[1..][k'].lineIndex < |doc| &&
          rest.value == Paragraphs.IndentWidth(doc[bs[1..][k'].lineIndex]);
        assert bs[k' + 1] == bs[1..][k'];
      }
    }
  }
}
