/** Paragraph building (`makeParagraphs` and `leadingIndentWidth` in
    Sources/UMAFCore/Parsing/Markdown/LineScanner.swift; the copies in
    PlainTextAdapter.swift and LegacyAdapter.swift are the same code).

    A paragraph is a maximal run of lines that are not blank under
    `.whitespaces`; the run's smallest leading indent (a space counts 1, a tab
    counts 2) is cut from each of its lines before they are joined with `\n`.
    `ParagraphsOf` replays the loop with its buffer; `Groups` is an
    independent definition of the runs, and `ParagraphsAreRuns` connects
    the two. */
module Paragraphs {
  import opened Wrappers
  import opened Text

  /** The blank test of the loop: nothing but spaces and tabs. */
  predicate Blank(line: string)
  {
    Trim(line, Whitespaces) == []
  }

  /** `leadingIndentWidth`: a space counts 1, a tab 2, up to the first other character. */
  function IndentWidth(line: string): nat
  {
    if |line| > 0 && line[0] == ' ' then 1 + IndentWidth(line[1..])
    else if |line| > 0 && line[0] == '\t' then 2 + IndentWidth(line[1..])
    else 0
  }

  /** The `while c < commonIndent` loop: drops leading spaces and tabs until
      their weight reaches `n` (a tab may overshoot by one). */
  function StripIndent(line: string, n: int): (r: string)
    ensures |r| <= |line|
  {
    if n > 0 && |line| > 0 && line[0] == ' ' then StripIndent(line[1..], n - 1)
    else if n > 0 && |line| > 0 && line[0] == '\t' then StripIndent(line[1..], n - 2)
    else line
  }

  /** The smallest indent of the non-blank lines (`nonEmpty.map { ... }.min()`),
      `None` when every line is blank. */
  function MinWidth(buffer: seq<string>): Option<nat>
  {
    if |buffer| == 0 then None
    else
      var rest := MinWidth(buffer[1..]);
      if Blank(buffer[0]) then rest
      else match rest
        case None => Some(IndentWidth(buffer[0]))
        case Some(m) => Some(Min(IndentWidth(buffer[0]), m))
  }

  /** `commonIndent`: the smallest indent, 0 when there is none. */
  function CommonIndent(buffer: seq<string>): nat
  {
    MinWidth(buffer).GetOr(0)
  }

  function Min(a: nat, b: nat): nat { if a <= b then a else b }

  /** The `normalized` lines of `flush`. */
  function Normalize(buffer: seq<string>): (r: seq<string>)
    ensures |r| == |buffer|
  {
    var n := CommonIndent(buffer);
    if n > 0 then seq(|buffer|, k requires 0 <= k < |buffer| => StripIndent(buffer[k], n))
    else buffer
  }

  /** What `flush` appends: nothing for an empty buffer, else one paragraph. */
  function Flush(buffer: seq<string>): (r: seq<string>)
    ensures |r| == (if |buffer| == 0 then 0 else 1)
  {
    if |buffer| == 0 then [] else [Join(Normalize(buffer), '\n')]
  }

  /** The loop over `lines` with `buffer` holding the current run, then the
      final `flush`. */
  function Replay(lines: seq<string>, buffer: seq<string>): seq<string>
    decreases |lines|
  {
    if |lines| == 0 then Flush(buffer)
    else if Blank(lines[0]) then Flush(buffer) + Replay(lines[1..], [])
    else Replay(lines[1..], buffer + [lines[0]])
  }

  /** What `makeParagraphs(from:)` returns. */
  function ParagraphsOf(lines: seq<string>): seq<string>
  {
    Replay(lines, [])
  }

  // ---------------------------------------------------------------------
  // The loops
  // ---------------------------------------------------------------------

  /** `leadingIndentWidth(of:)` */
  method LeadingIndentWidth(line: string) returns (w: nat)
    ensures w == IndentWidth(line)
  {
    w := 0;
    var i := 0;
    while i < |line|
      invariant i <= |line|
      invariant w + IndentWidth(line[i..]) == IndentWidth(line)
    {
      assert line[i..][1..] == line[i + 1..];
      if line[i] == ' ' {
        w := w + 1;
      } else if line[i] == '\t' {
        w := w + 2;
      } else {
        break;
      }
      i := i + 1;
    }
  }

  /** The per-line closure of `buffer.map` in `flush`. */
  method StripLeadingIndent(line: string, commonIndent: nat) returns (r: string)
    ensures r == StripIndent(line, commonIndent)
  {
    var c := 0;
    var i := 0;
    while i < |line| && c < commonIndent
      invariant i <= |line|
      invariant StripIndent(line[i..], commonIndent - c) == StripIndent(line, commonIndent)
    {
      assert line[i..][1..] == line[i + 1..];
      var ch := line[i];
      if ch == ' ' {
        c := c + 1;
      } else if ch == '\t' {
        c := c + 2;
      } else {
        break;
      }
      i := i + 1;
    }
    r := line[i..];
  }

  /** The nested `flush`, returning what it appends to `paragraphs`. */
  method FlushBuffer(buffer: seq<string>) returns (appended: seq<string>)
    ensures appended == Flush(buffer)
  {
    if |buffer| == 0 {
      return [];
    }
    var commonIndent := 0;
    var seen := false;
    var k := |buffer|;
    while k > 0
      invariant 0 <= k <= |buffer|
      invariant MinWidth(buffer[k..]) == if seen then Some(commonIndent) else None
      invariant !seen ==> commonIndent == 0
    {
      assert buffer[k - 1..][1..] == buffer[k..];
      if !Blank(buffer[k - 1]) {
        var w := LeadingIndentWidth(buffer[k - 1]);
        commonIndent := if seen then Min(w, commonIndent) else w;
        seen := true;
      }
      k := k - 1;
    }
    assert buffer[0..] == buffer;
    assert commonIndent == CommonIndent(buffer);
    var normalized := buffer;
    if commonIndent > 0 {
      normalized := [];
      while |normalized| < |buffer|
        invariant |normalized| <= |buffer|
        invariant forall m :: 0 <= m < |normalized| ==> normalized[m] == StripIndent(buffer[m], commonIndent)
      {
        var stripped := StripLeadingIndent(buffer[|normalized|], commonIndent);
        normalized := normalized + [stripped];
      }
    }
    assert normalized == Normalize(buffer);
    appended := [Join(normalized, '\n')];
  }

  /** `makeParagraphs(from:)` */
  method MakeParagraphs(lines: seq<string>) returns (paragraphs: seq<string>)
    ensures paragraphs == ParagraphsOf(lines)
  {
    paragraphs := [];
    var buffer: seq<string> := [];
    var i := 0;
    while i < |lines|
      invariant i <= |lines|
      invariant paragraphs + Replay(lines[i..], buffer) == ParagraphsOf(lines)
    {
      assert lines[i..][1..] == lines[i + 1..];
      if Trim(lines[i], Whitespaces) == [] {
        var appended := FlushBuffer(buffer);
        paragraphs := paragraphs + appended;
        buffer := [];
      } else {
        buffer := buffer + [lines[i]];
      }
      i := i + 1;
    }
    var appended := FlushBuffer(buffer);
    paragraphs := paragraphs + appended;
  }

  // ---------------------------------------------------------------------
  // Runs of non-blank lines
  // ---------------------------------------------------------------------

  /** The number of non-blank lines at the front. */
  function RunLength(lines: seq<string>): (r: nat)
    ensures r <= |lines|
  {
    if |lines| > 0 && !Blank(lines[0]) then 1 + RunLength(lines[1..]) else 0
  }

  /** The maximal runs of non-blank lines, in order. */
  function Groups(lines: seq<string>): seq<seq<string>>
    decreases |lines|
  {
    if |lines| == 0 then []
    else if Blank(lines[0]) then Groups(lines[1..])
    else
      var r := RunLength(lines);
      [lines[..r]] + Groups(lines[r..])
  }

  /** The paragraph a run becomes. */
  function Paragraph(run: seq<string>): string
  {
    Join(Normalize(run), '\n')
  }

  function ParagraphsOfRuns(runs: seq<seq<string>>): (r: seq<string>)
    ensures |r| == |runs|
  {
    if |runs| == 0 then [] else [Paragraph(runs[0])] + ParagraphsOfRuns(runs[1..])
  }

  predicate Run(g: seq<string>)
  {
    |g| > 0 && forall m :: 0 <= m < |g| ==> !Blank(g[m])
  }

  /** The non-blank lines, in order. */
  function NonBlankLines(lines: seq<string>): seq<string>
  {
    if |lines| == 0 then []
    else (if Blank(lines[0]) then [] else [lines[0]]) + NonBlankLines(lines[1..])
  }

  function Flatten(gs: seq<seq<string>>): seq<string>
  {
    if |gs| == 0 then [] else gs[0] + Flatten(gs[1..])
  }

  /** The number of non-blank lines followed by a blank line or by the end. */
  function RunEnds(lines: seq<string>): nat
  {
    if |lines| == 0 then 0
    else (if !Blank(lines[0]) && (|lines| == 1 || Blank(lines[1])) then 1 else 0) + RunEnds(lines[1..])
  }

  lemma {:induction false} RunLengthSpec(lines: seq<string>)
    ensures var r := RunLength(lines);
      && (forall m :: 0 <= m < r ==> !Blank(lines[m]))
      && (r < |lines| ==> Blank(lines[r]))
  {
    if |lines| > 0 && !Blank(lines[0]) {
      RunLengthSpec(lines[1..]);
    }
  }

  /** From an empty buffer the replay yields the paragraphs of the runs. */
  lemma {:induction false} ReplayRuns(lines: seq<string>)
    ensures Replay(lines, []) == ParagraphsOfRuns(Groups(lines))
    decreases |lines|, 0
  {
    if |lines| > 0 {
      if Blank(lines[0]) {
        ReplayRuns(lines[1..]);
      } else {
        assert [] + [lines[0]] == [lines[0]];
        ReplayOpenRun(lines[1..], [lines[0]]);
        RunShift([], lines);
        RunsOfRunStart(lines);
      }
    }
  }

  /** With lines in the buffer, the replay closes the buffer's run at the
      first blank line. */
  lemma {:induction false} ReplayOpenRun(lines: seq<string>, buffer: seq<string>)
    requires |buffer| > 0
    ensures Replay(lines, buffer)
         == [Paragraph(buffer + lines[..RunLength(lines)])] + ParagraphsOfRuns(Groups(lines[RunLength(lines)..]))
    decreases |lines|, 1
  {
    if |lines| == 0 {
      assert buffer + lines[..0] == buffer;
    } else if Blank(lines[0]) {
      ReplayRuns(lines[1..]);
      assert buffer + lines[..0] == buffer;
      assert lines[0..] == lines;
    } else {
      ReplayOpenRun(lines[1..], buffer + [lines[0]]);
      RunShift(buffer, lines);
    }
  }

  lemma RunShift(buffer: seq<string>, lines: seq<string>)
    requires |lines| > 0 && !Blank(lines[0])
    ensures var r := RunLength(lines);
      && buffer + [lines[0]] + lines[1..][..r - 1] == buffer + lines[..r]
      && lines[1..][r - 1..] == lines[r..]
      && [] + lines[..r] == lines[..r]
  {
  }

  /** A line that starts a run contributes that run's paragraph first. */
  lemma RunsOfRunStart(lines: seq<string>)
    requires |lines| > 0 && !Blank(lines[0])
    ensures ParagraphsOfRuns(Groups(lines))
         == [Paragraph(lines[..RunLength(lines)])] + ParagraphsOfRuns(Groups(lines[RunLength(lines)..]))
  {
    var gs := Groups(lines);
    assert gs[1..] == Groups(lines[RunLength(lines)..]);
  }

  /** `makeParagraphs` yields one paragraph per maximal run of non-blank lines. */
  lemma ParagraphsAreRuns(lines: seq<string>)
    ensures ParagraphsOf(lines) == ParagraphsOfRuns(Groups(lines))
  {
    ReplayRuns(lines);
  }

  lemma {:induction false} RunNonBlankLines(lines: seq<string>)
    ensures NonBlankLines(lines) == lines[..RunLength(lines)] + NonBlankLines(lines[RunLength(lines)..])
  {
    if |lines| > 0 && !Blank(lines[0]) {
      RunNonBlankLines(lines[1..]);
      assert lines[..RunLength(lines)] == [lines[0]] + lines[1..][..RunLength(lines[1..])];
      assert lines[1..][RunLength(lines[1..])..] == lines[RunLength(lines)..];
    } else {
      assert lines[0..] == lines;
    }
  }

  lemma {:induction false} RunEndsOfRun(lines: seq<string>)
    requires |lines| > 0 && !Blank(lines[0])
    ensures RunEnds(lines) == 1 + RunEnds(lines[RunLength(lines)..])
  {
    if RunLength(lines) > 1 {
      RunEndsOfRun(lines[1..]);
      assert lines[1..][RunLength(lines[1..])..] == lines[RunLength(lines)..];
    }
  }

  /** The runs are non-empty runs of non-blank lines, together they are the
      non-blank lines in order, and there are as many as there are run ends. */
  lemma {:induction false} GroupsSpec(lines: seq<string>)
    ensures forall k :: 0 <= k < |Groups(lines)| ==> Run(Groups(lines)[k])
    ensures Flatten(Groups(lines)) == NonBlankLines(lines)
    ensures |Groups(lines)| == RunEnds(lines)
    decreases |lines|
  {
    if |lines| > 0 {
      if Blank(lines[0]) {
        GroupsSpec(lines[1..]);
      } else {
        var r := RunLength(lines);
        var gs := Groups(lines);
        GroupsSpec(lines[r..]);
        RunLengthSpec(lines);
        RunNonBlankLines(lines);
        RunEndsOfRun(lines);
        assert gs[1..] == Groups(lines[r..]);
        forall k | 0 <= k < |gs|
          ensures Run(gs[k])
        {
          if k > 0 { assert gs[k] == gs[1..][k - 1]; }
        }
      }
    }
  }

  // ---------------------------------------------------------------------
  // Indentation
  // ---------------------------------------------------------------------

  /** `MinWidth` is the smallest indent among the non-blank lines. */
  lemma {:induction false} MinWidthSpec(buffer: seq<string>)
    ensures MinWidth(buffer).None? <==> forall k :: 0 <= k < |buffer| ==> Blank(buffer[k])
    ensures MinWidth(buffer).Some? ==>
      && (forall k :: 0 <= k < |buffer| && !Blank(buffer[k]) ==> MinWidth(buffer).value <= IndentWidth(buffer[k]))
      && (exists k :: 0 <= k < |buffer| && !Blank(buffer[k]) && IndentWidth(buffer[k]) == MinWidth(buffer).value)
  {
    if |buffer| > 0 {
      MinWidthSpec(buffer[1..]);
      assert forall k :: 1 <= k < |buffer| ==> buffer[k] == buffer[1..][k - 1];
      if MinWidth(buffer[1..]).Some? {
        var k :| 0 <= k < |buffer[1..]| && !Blank(buffer[1..][k]) && IndentWidth(buffer[1..][k]) == MinWidth(buffer[1..]).value;
        assert buffer[k + 1] == buffer[1..][k];
      }
    }
  }

  /** `StripIndent` cuts a prefix of spaces and tabs; below the line's own
      indent it cuts at least `n` and at most `n + 1` of it, and exactly the
      whole indent when `n` is that indent. */
  lemma {:induction false} StripIndentSpec(line: string, n: int)
    ensures var r := StripIndent(line, n);
      && r == line[|line| - |r|..]
      && AllIn(line[..|line| - |r|], Whitespaces)
      && (n <= 0 ==> r == line)
      && (0 < n <= IndentWidth(line) ==> n <= IndentWidth(line) - IndentWidth(r) <= n + 1)
      && (n == IndentWidth(line) ==> IndentWidth(r) == 0)
  {
    if n > 0 && |line| > 0 && (line[0] == ' ' || line[0] == '\t') {
      var step := if line[0] == ' ' then 1 else 2;
      StripIndentSpec(line[1..], n - step);
      var r := StripIndent(line, n);
      assert line[..|line| - |r|] == [line[0]] + line[1..][..|line[1..]| - |r|];
    }
  }

  /** A non-blank line keeps a character after its indent is cut. */
  lemma StripIndentNonBlank(line: string, n: int)
    requires !Blank(line)
    ensures StripIndent(line, n) != []
  {
    StripIndentSpec(line, n);
    TrimEmptyIffAllIn(line, Whitespaces);
    assert line[..|line|] == line;
  }

  /** Within a run every line loses its common indent, which is the smallest
      indent of the run's lines, and some line keeps no indent at all. */
  lemma RunIndentStripped(run: seq<string>)
    requires Run(run)
    ensures var n, out := CommonIndent(run), Normalize(run);
      && (forall m :: 0 <= m < |run| ==> n <= IndentWidth(run[m]) && out[m] == StripIndent(run[m], n))
      && (exists m :: 0 <= m < |run| && IndentWidth(run[m]) == n && IndentWidth(out[m]) == 0)
  {
    var n, out := CommonIndent(run), Normalize(run);
    MinWidthSpec(run);
    assert !Blank(run[0]);
    var m :| 0 <= m < |run| && !Blank(run[m]) && IndentWidth(run[m]) == n;
    StripIndentSpec(run[m], n);
    forall j | 0 <= j < |run|
      ensures out[j] == StripIndent(run[j], n)
    {
      StripIndentSpec(run[j], n);
    }
  }

  /** No paragraph is empty. */
  lemma ParagraphNonEmpty(run: seq<string>)
    requires Run(run)
    ensures Paragraph(run) != []
  {
    RunIndentStripped(run);
    StripIndentNonBlank(run[0], CommonIndent(run));
    JoinStartsWithFirst(Normalize(run), '\n');
  }

  lemma {:induction false} ParagraphsOfRunsAt(runs: seq<seq<string>>, k: nat)
    requires k < |runs|
    ensures ParagraphsOfRuns(runs)[k] == Paragraph(runs[k])
  {
    if k > 0 {
      ParagraphsOfRunsAt(runs[1..], k - 1);
    }
  }

  /** `makeParagraphs` returns one non-empty paragraph per run end, and the
      k-th is the k-th run with its common indent cut. */
  lemma ParagraphsSpec(lines: seq<string>)
    ensures |ParagraphsOf(lines)| == |Groups(lines)| == RunEnds(lines)
    ensures forall k :: 0 <= k < |ParagraphsOf(lines)| ==>
      ParagraphsOf(lines)[k] != [] && ParagraphsOf(lines)[k] == Paragraph(Groups(lines)[k])
  {
    ParagraphsAreRuns(lines);
    GroupsSpec(lines);
    forall k | 0 <= k < |ParagraphsOf(lines)|
      ensures ParagraphsOf(lines)[k] != [] && ParagraphsOf(lines)[k] == Paragraph(Groups(lines)[k])
    {
      ParagraphsOfRunsAt(Groups(lines), k);
      ParagraphNonEmpty(Groups(lines)[k]);
    }
  }
}
