/** Line sets and the two run scans of the walker
    (Sources/UMAFCore/Walker/UMAFWalker.swift, `lineSet`, `paragraphRanges`,
    `uncoveredRanges`). Both scans walk a window of line numbers, open a range
    at the first usable line and close it at the next unusable one, so both
    are the maximal runs of usable lines in their window; the properties of
    those runs are proved once, for any set of unusable lines. */
module WalkerRanges {
  import opened Wrappers
  import opened Text
  import opened CoreModels
  import opened WalkerPlacements
  import WalkerSections

  // ---------------------------------------------------------------------
  // lineSet
  // ---------------------------------------------------------------------

  /** The lines `a` to `b`. */
  function Interval(a: int, b: int): set<int>
    decreases b - a + 1
  {
    if b < a then {} else Interval(a, b - 1) + {b}
  }

  lemma {:induction false} IntervalSpec(a: int, b: int, l: int)
    ensures l in Interval(a, b) <==> a <= l <= b
    decreases b - a + 1
  {
    if b >= a {
      IntervalSpec(a, b - 1, l);
    }
  }

  /** The positive lines of one range. */
  function PositiveLines(r: LineRange): set<int>
  {
    Interval(Max(1, r.lower), r.upper)
  }

  /** `lineSet(for:)`: every positive line of every range. */
  function LineSet(ranges: seq<LineRange>): set<int>
  {
    if ranges == [] then {} else LineSet(ranges[..|ranges| - 1]) + PositiveLines(ranges[|ranges| - 1])
  }

  /** A line is in the set exactly when it is positive and in one of the
      ranges. */
  lemma {:induction false} LineSetSpec(ranges: seq<LineRange>, l: int)
    ensures l in LineSet(ranges) <==> l >= 1 && exists i :: 0 <= i < |ranges| && InRange(ranges[i], l)
    decreases |ranges|
  {
    if ranges != [] {
      var init := ranges[..|ranges| - 1];
      LineSetSpec(init, l);
      if exists i :: 0 <= i < |ranges| && InRange(ranges[i], l) {
        var i :| 0 <= i < |ranges| && InRange(ranges[i], l);
        if i < |init| {
          assert init[i] == ranges[i];
        }
      }
      if exists i :: 0 <= i < |init| && InRange(init[i], l) {
        var i :| 0 <= i < |init| && InRange(init[i], l);
        assert ranges[i] == init[i];
      }
      IntervalSpec(Max(1, ranges[|ranges| - 1].lower), ranges[|ranges| - 1].upper, l);
      if l in PositiveLines(ranges[|ranges| - 1]) {
        assert InRange(ranges[|ranges| - 1], l);
      }
    }
  }

  lemma LineSetAppend(ranges: seq<LineRange>, r: LineRange)
    ensures LineSet(ranges + [r]) == LineSet(ranges) + PositiveLines(r)
  {
    assert (ranges + [r])[..|ranges|] == ranges;
  }

  // ---------------------------------------------------------------------
  // Maximal runs
  // ---------------------------------------------------------------------

  /** The scan's locals: the closed ranges and the start of the open one. */
  datatype RunScan = RunScan(ranges: seq<LineRange>, open: Option<int>)

  /** One line of either scan: an unusable line closes the open range just
      before it, a usable one opens a range if none is open. */
  function RunStep(st: RunScan, line: int, bad: set<int>): RunScan
  {
    if line in bad then
      if st.open.Some? then
        if line - 1 >= st.open.value then RunScan(st.ranges + [LineRange(st.open.value, line - 1)], None)
        else RunScan(st.ranges, None)
      else st
    else if st.open.None? then RunScan(st.ranges, Some(line))
    else st
  }

  /** The scan state after lines `from` to `upTo`. */
  function Runs(bad: set<int>, from: int, upTo: int): RunScan
    decreases upTo - from + 1
  {
    if upTo < from then RunScan([], None) else RunStep(Runs(bad, from, upTo - 1), upTo, bad)
  }

  /** After the last line: a range still open is closed at `to`. */
  function Close(st: RunScan, to: int): seq<LineRange>
  {
    if st.open.Some? && to >= st.open.value then st.ranges + [LineRange(st.open.value, to)] else st.ranges
  }

  function MaximalRuns(bad: set<int>, from: int, to: int): seq<LineRange>
  {
    Close(Runs(bad, from, to), to)
  }

  /** The usable lines of the window `[from, to]`. */
  function Usable(bad: set<int>, from: int, to: int): set<int>
  {
    set l | from <= l <= to && l !in bad
  }

  lemma {:induction false} RunsBounds(bad: set<int>, from: int, upTo: int, st: RunScan)
    requires st == Runs(bad, from, upTo)
    ensures forall i :: 0 <= i < |st.ranges| ==> from <= st.ranges[i].lower <= st.ranges[i].upper < upTo
    ensures st.open.Some? ==> from <= st.open.value <= upTo
    decreases upTo - from + 1
  {
    if upTo >= from {
      var prev := Runs(bad, from, upTo - 1);
      RunsBounds(bad, from, upTo - 1, prev);
      if upTo in bad && prev.open.Some? && upTo - 1 >= prev.open.value {
        forall i | 0 <= i < |st.ranges|
          ensures from <= st.ranges[i].lower <= st.ranges[i].upper < upTo
        {
          if i < |prev.ranges| {
            assert st.ranges[i] == prev.ranges[i];
          }
        }
      }
    }
  }

  lemma {:induction false} RunsClean(bad: set<int>, from: int, upTo: int, st: RunScan)
    requires st == Runs(bad, from, upTo)
    ensures forall i, l :: 0 <= i < |st.ranges| && st.ranges[i].lower <= l <= st.ranges[i].upper ==> l !in bad
    ensures st.open.Some? ==> forall l :: st.open.value <= l <= upTo ==> l !in bad
    decreases upTo - from + 1
  {
    if upTo >= from {
      var prev := Runs(bad, from, upTo - 1);
      RunsClean(bad, from, upTo - 1, prev);
      if upTo in bad && prev.open.Some? && upTo - 1 >= prev.open.value {
        forall i, l | 0 <= i < |st.ranges| && st.ranges[i].lower <= l <= st.ranges[i].upper
          ensures l !in bad
        {
          if i < |prev.ranges| {
            assert st.ranges[i] == prev.ranges[i];
          }
        }
      }
    }
  }

  lemma {:induction false} RunsMaximal(bad: set<int>, from: int, upTo: int, st: RunScan)
    requires st == Runs(bad, from, upTo)
    ensures forall i :: 0 <= i < |st.ranges| ==>
      (st.ranges[i].lower == from || st.ranges[i].lower - 1 in bad) && st.ranges[i].upper + 1 in bad
    ensures st.open.Some? ==> st.open.value == from || st.open.value - 1 in bad
    ensures st.open.None? && upTo >= from ==> upTo in bad
    decreases upTo - from + 1
  {
    if upTo >= from {
      var prev := Runs(bad, from, upTo - 1);
      RunsMaximal(bad, from, upTo - 1, prev);
      if upTo in bad && prev.open.Some? && upTo - 1 >= prev.open.value {
        forall i | 0 <= i < |st.ranges|
          ensures (st.ranges[i].lower == from || st.ranges[i].lower - 1 in bad) && st.ranges[i].upper + 1 in bad
        {
          if i < |prev.ranges| {
            assert st.ranges[i] == prev.ranges[i];
          }
        }
      }
    }
  }

  lemma {:induction false} RunsOrdered(bad: set<int>, from: int, upTo: int, st: RunScan)
    requires st == Runs(bad, from, upTo)
    ensures forall i, j :: 0 <= i < j < |st.ranges| ==> st.ranges[i].upper + 1 < st.ranges[j].lower
    ensures st.open.Some? ==> forall i :: 0 <= i < |st.ranges| ==> st.ranges[i].upper + 1 < st.open.value
    decreases upTo - from + 1
  {
    if upTo >= from {
      var prev := Runs(bad, from, upTo - 1);
      RunsOrdered(bad, from, upTo - 1, prev);
      RunsBounds(bad, from, upTo - 1, prev);
      RunsClean(bad, from, upTo - 1, prev);
      if upTo in bad && prev.open.Some? && upTo - 1 >= prev.open.value {
        forall i, j | 0 <= i < j < |st.ranges|
          ensures st.ranges[i].upper + 1 < st.ranges[j].lower
        {
          assert st.ranges[i] == prev.ranges[i];
          if j < |prev.ranges| {
            assert st.ranges[j] == prev.ranges[j];
          }
        }
      } else if upTo !in bad && prev.open.None? {
        forall i | 0 <= i < |st.ranges|
          ensures st.ranges[i].upper + 1 < st.open.value
        {
          assert st.ranges[i] == prev.ranges[i];
        }
      }
    }
  }

  /** The usable lines of the window `[from, upTo]`, one line at a time. */
  lemma UsableStep(bad: set<int>, from: int, upTo: int)
    ensures Usable(bad, from, upTo) == Usable(bad, from, upTo - 1) + (if upTo in bad || upTo < from then {} else {upTo})
  {
  }

  /** The closed ranges and the open one hold exactly the usable lines
      scanned so far. */
  lemma {:induction false} RunsExact(bad: set<int>, from: int, upTo: int, st: RunScan)
    requires from >= 1
    requires st == Runs(bad, from, upTo)
    ensures LineSet(st.ranges) + (if st.open.Some? then Interval(st.open.value, upTo) else {})
         == Usable(bad, from, upTo)
    decreases upTo - from + 1
  {
    if upTo >= from {
      var prev := Runs(bad, from, upTo - 1);
      RunsExact(bad, from, upTo - 1, prev);
      RunsBounds(bad, from, upTo - 1, prev);
      UsableStep(bad, from, upTo);
      if upTo in bad && prev.open.Some? && upTo - 1 >= prev.open.value {
        LineSetAppend(prev.ranges, LineRange(prev.open.value, upTo - 1));
        assert PositiveLines(LineRange(prev.open.value, upTo - 1)) == Interval(prev.open.value, upTo - 1);
      } else if upTo !in bad && prev.open.None? {
        assert Interval(upTo, upTo) == {upTo};
      }
    } else {
      assert Usable(bad, from, upTo) == {} by {
        forall l | l in Usable(bad, from, upTo) ensures false { }
      }
    }
  }

  /** Closing the open range at `to` (`to` at least the last scanned
      line) appends it after the closed ones. */
  lemma CloseAppends(bad: set<int>, from: int, to: int, st: RunScan, r: seq<LineRange>)
    requires st == Runs(bad, from, to) && r == Close(st, to)
    ensures st.open.Some? ==> r == st.ranges + [LineRange(st.open.value, to)]
    ensures st.open.None? ==> r == st.ranges
  {
    RunsBounds(bad, from, to, st);
  }

  lemma MaximalRunsWithin(bad: set<int>, from: int, to: int, r: seq<LineRange>)
    requires r == MaximalRuns(bad, from, to)
    ensures forall i :: 0 <= i < |r| ==> from <= r[i].lower <= r[i].upper <= to
    ensures forall i, l :: 0 <= i < |r| && r[i].lower <= l <= r[i].upper ==> l !in bad
  {
    var st := Runs(bad, from, to);
    CloseAppends(bad, from, to, st, r);
    RunsBounds(bad, from, to, st);
    RunsClean(bad, from, to, st);
    forall i | 0 <= i < |r|
      ensures from <= r[i].lower <= r[i].upper <= to
      ensures forall l :: r[i].lower <= l <= r[i].upper ==> l !in bad
    {
      if i < |st.ranges| {
        assert r[i] == st.ranges[i];
      }
    }
  }

  lemma MaximalRunsOrdered(bad: set<int>, from: int, to: int, r: seq<LineRange>)
    requires r == MaximalRuns(bad, from, to)
    ensures forall i, j :: 0 <= i < j < |r| ==> r[i].upper + 1 < r[j].lower
  {
    var st := Runs(bad, from, to);
    CloseAppends(bad, from, to, st, r);
    RunsOrdered(bad, from, to, st);
    forall i, j | 0 <= i < j < |r|
      ensures r[i].upper + 1 < r[j].lower
    {
      assert r[i] == st.ranges[i];
      if j < |st.ranges| {
        assert r[j] == st.ranges[j];
      }
    }
  }

  lemma MaximalRunsMaximal(bad: set<int>, from: int, to: int, r: seq<LineRange>)
    requires r == MaximalRuns(bad, from, to)
    ensures forall i :: 0 <= i < |r| ==>
      (r[i].lower == from || r[i].lower - 1 in bad) && (r[i].upper == to || r[i].upper + 1 in bad)
  {
    var st := Runs(bad, from, to);
    CloseAppends(bad, from, to, st, r);
    RunsMaximal(bad, from, to, st);
    forall i | 0 <= i < |r|
      ensures (r[i].lower == from || r[i].lower - 1 in bad) && (r[i].upper == to || r[i].upper + 1 in bad)
    {
      if i < |st.ranges| {
        assert r[i] == st.ranges[i];
      }
    }
  }

  lemma MaximalRunsExact(bad: set<int>, from: int, to: int, r: seq<LineRange>)
    requires from >= 1
    requires r == MaximalRuns(bad, from, to)
    ensures LineSet(r) == Usable(bad, from, to)
  {
    var st := Runs(bad, from, to);
    CloseAppends(bad, from, to, st, r);
    RunsExact(bad, from, to, st);
    RunsBounds(bad, from, to, st);
    if st.open.Some? {
      LineSetAppend(st.ranges, LineRange(st.open.value, to));
      assert PositiveLines(LineRange(st.open.value, to)) == Interval(st.open.value, to);
    }
  }

  /** The maximal runs of usable lines in `[from, to]`: each lies in the
      window and holds only usable lines; they are in order with at least
      one unusable line between neighbours; none can be extended; and
      together they hold every usable line of the window. */
  lemma MaximalRunsSpec(bad: set<int>, from: int, to: int, r: seq<LineRange>)
    requires r == MaximalRuns(bad, from, to)
    ensures forall i :: 0 <= i < |r| ==> from <= r[i].lower <= r[i].upper <= to
    ensures forall i, l :: 0 <= i < |r| && r[i].lower <= l <= r[i].upper ==> l !in bad
    ensures forall i, j :: 0 <= i < j < |r| ==> r[i].upper + 1 < r[j].lower
    ensures forall i :: 0 <= i < |r| ==>
      (r[i].lower == from || r[i].lower - 1 in bad) && (r[i].upper == to || r[i].upper + 1 in bad)
    ensures from >= 1 ==> LineSet(r) == Usable(bad, from, to)
  {
    MaximalRunsWithin(bad, from, to, r);
    MaximalRunsOrdered(bad, from, to, r);
    MaximalRunsMaximal(bad, from, to, r);
    if from >= 1 {
      MaximalRunsExact(bad, from, to, r);
    }
  }

  // ---------------------------------------------------------------------
  // uncoveredRanges
  // ---------------------------------------------------------------------

  /** What `uncoveredRanges(upTo:coveredLines:)` returns: the maximal runs
      of uncovered lines of `[1, lineCount]`. */
  function UncoveredRangesOf(lineCount: int, covered: set<int>): seq<LineRange>
  {
    MaximalRuns(covered, 1, lineCount)
  }

  /** `uncoveredRanges(upTo:coveredLines:)`; `1...lineCount` traps in Swift
      when `lineCount` is below 1. */
  method UncoveredRanges(lineCount: int, covered: set<int>) returns (ranges: seq<LineRange>)
    requires lineCount >= 1
    ensures ranges == UncoveredRangesOf(lineCount, covered)
  {
    ranges := [];
    var currentStart: Option<int> := None;
    var line := 1;
    while line <= lineCount
      invariant 1 <= line <= lineCount + 1
      invariant RunScan(ranges, currentStart) == Runs(covered, 1, line - 1)
    {
      ghost var prev := Runs(covered, 1, line - 1);
      RunsBounds(covered, 1, line - 1, prev);
      if line in covered {
        if currentStart.Some? {
          ranges := ranges + [LineRange(currentStart.value, line - 1)];
          currentStart := None;
        }
        line := line + 1;
        continue;
      }
      if currentStart.None? {
        currentStart := Some(line);
      }
      line := line + 1;
    }
    ghost var st := Runs(covered, 1, lineCount);
    RunsBounds(covered, 1, lineCount, st);
    if currentStart.Some? {
      ranges := ranges + [LineRange(currentStart.value, lineCount)];
    }
  }

  /** The uncovered ranges are ascending, disjoint and maximal, and their
      lines are exactly the lines of `[1, lineCount]` outside `covered`. */
  lemma UncoveredRangesSpec(lineCount: int, covered: set<int>, r: seq<LineRange>)
    requires r == UncoveredRangesOf(lineCount, covered)
    ensures forall i :: 0 <= i < |r| ==> Within(r[i], lineCount)
    ensures forall i, j :: 0 <= i < j < |r| ==> r[i].upper + 1 < r[j].lower
    ensures forall i :: 0 <= i < |r| ==>
      (r[i].lower == 1 || r[i].lower - 1 in covered) && (r[i].upper == lineCount || r[i].upper + 1 in covered)
    ensures LineSet(r) == set l | 1 <= l <= lineCount && l !in covered
  {
    MaximalRunsSpec(covered, 1, lineCount, r);
  }

  // ---------------------------------------------------------------------
  // paragraphRanges
  // ---------------------------------------------------------------------

  predicate Blank(line: string)
  {
    Trim(line, WhitespacesAndNewlines) == []
  }

  /** The first body line: the line after the heading when there is one. */
  function BodyStart(placement: WalkerSections.SectionPlacement): int
  {
    placement.startLine + (if placement.hasHeading then 1 else 0)
  }

  /** The body lines a paragraph may not use: the excluded ones and the
      blank ones. */
  function ParagraphBreaks(lines: seq<string>, bodyStart: int, excluded: set<int>): set<int>
  {
    excluded + set i | 0 <= i < |lines| && Blank(lines[i]) :: bodyStart + i
  }

  /** The last body line the scan reaches. */
  function BodyEnd(lines: seq<string>, bodyStart: int, lineCount: int): int
  {
    Min(lineCount, bodyStart + |lines| - 1)
  }

  /** What `paragraphRanges(in:lineCount:excludedLines:)` returns: the
      maximal runs of non-blank, non-excluded body lines. */
  function ParagraphRangesOf(placement: WalkerSections.SectionPlacement, lineCount: int, excluded: set<int>)
    : seq<LineRange>
  {
    var lines := placement.section.lines;
    var bodyStart := BodyStart(placement);
    if lines == [] then []
    else MaximalRuns(ParagraphBreaks(lines, bodyStart, excluded), bodyStart, BodyEnd(lines, bodyStart, lineCount))
  }

  /** `paragraphRanges(in:lineCount:excludedLines:)` */
  method ParagraphRanges(placement: WalkerSections.SectionPlacement, lineCount: int, excluded: set<int>)
    returns (ranges: seq<LineRange>)
    ensures ranges == ParagraphRangesOf(placement, lineCount, excluded)
  {
    var lines := placement.section.lines;
    if lines == [] {
      return [];
    }
    var offset := if placement.hasHeading then 1 else 0;
    var bodyStart := placement.startLine + offset;
    ghost var breaks := ParagraphBreaks(lines, bodyStart, excluded);
    forall l | bodyStart <= l < bodyStart + |lines|
      ensures l in breaks <==> l in excluded || Blank(lines[l - bodyStart])
    {
      BreakAt(lines, bodyStart, excluded, l);
    }
    var currentStart;
    ranges, currentStart := ScanBody(lines, bodyStart, lineCount, excluded, breaks);
    if currentStart.Some? {
      var end := Min(lineCount, bodyStart + |lines| - 1);
      if end >= currentStart.value {
        ranges := ranges + [LineRange(currentStart.value, end)];
      }
    }
  }

  /** The loop of `paragraphRanges`: the scan over the body lines that stay
      inside the document, where `bad` holds the excluded and blank ones. */
  method ScanBody(lines: seq<string>, bodyStart: int, lineCount: int, excluded: set<int>, ghost bad: set<int>)
    returns (ranges: seq<LineRange>, currentStart: Option<int>)
    requires forall l | bodyStart <= l < bodyStart + |lines| :: l in bad <==> l in excluded || Blank(lines[l - bodyStart])
    ensures RunScan(ranges, currentStart) == Runs(bad, bodyStart, BodyEnd(lines, bodyStart, lineCount))
  {
    ranges := [];
    currentStart := None;
    var idx := 0;
    while idx < |lines|
      invariant 0 <= idx <= |lines|
      invariant bodyStart + idx - 1 <= lineCount || idx == 0
      invariant RunScan(ranges, currentStart) == Runs(bad, bodyStart, bodyStart + idx - 1)
    {
      var lineNumber := bodyStart + idx;
      if lineNumber > lineCount {
        break;
      }
      ghost var prev := Runs(bad, bodyStart, lineNumber - 1);
      RunsBounds(bad, bodyStart, lineNumber - 1, prev);
      var isBlank := Trim(lines[idx], WhitespacesAndNewlines) == [];
      assert lineNumber in bad <==> lineNumber in excluded || isBlank;
      if lineNumber in excluded || isBlank {
        if currentStart.Some? {
          var end := lineNumber - 1;
          if end >= currentStart.value {
            ranges := ranges + [LineRange(currentStart.value, end)];
          }
        }
        currentStart := None;
        idx := idx + 1;
        continue;
      }
      if currentStart.None? {
        currentStart := Some(lineNumber);
      }
      idx := idx + 1;
    }
    ghost var last := BodyEnd(lines, bodyStart, lineCount);
    if bodyStart + idx - 1 != last {
      assert idx == 0 && last < bodyStart;
    }
  }

  /** The body lines a paragraph may use: not blank, not excluded, not past
      the document. */
  function ParagraphLines(placement: WalkerSections.SectionPlacement, lineCount: int, excluded: set<int>): set<int>
  {
    BodyLines(placement.section.lines, BodyStart(placement), lineCount, excluded)
  }

  function BodyLines(lines: seq<string>, bodyStart: int, lineCount: int, excluded: set<int>): set<int>
  {
    set l | bodyStart <= l <= BodyEnd(lines, bodyStart, lineCount) && l !in excluded && !Blank(lines[l - bodyStart])
  }

  /** A body line breaks a paragraph exactly when it is excluded or blank. */
  lemma BreakAt(lines: seq<string>, bodyStart: int, excluded: set<int>, l: int)
    requires bodyStart <= l < bodyStart + |lines|
    ensures l in ParagraphBreaks(lines, bodyStart, excluded) <==> l in excluded || Blank(lines[l - bodyStart])
  {
    var idx := l - bodyStart;
    assert bodyStart + idx in ParagraphBreaks(lines, bodyStart, excluded) <== Blank(lines[idx]);
  }

  lemma UsableBody(lines: seq<string>, bodyStart: int, lineCount: int, excluded: set<int>)
    ensures Usable(ParagraphBreaks(lines, bodyStart, excluded), bodyStart, BodyEnd(lines, bodyStart, lineCount))
         == BodyLines(lines, bodyStart, lineCount, excluded)
  {
    var breaks := ParagraphBreaks(lines, bodyStart, excluded);
    var end := BodyEnd(lines, bodyStart, lineCount);
    forall l | bodyStart <= l <= end
      ensures l in breaks <==> l in excluded || Blank(lines[l - bodyStart])
    {
      BreakAt(lines, bodyStart, excluded, l);
    }
  }

  /** Paragraph ranges lie in the section's body (from the line after its
      heading, and not past the document or the section's last line), come
      in order with a gap between neighbours, and hold no blank and no
      excluded line. */
  lemma ParagraphRangesShape(placement: WalkerSections.SectionPlacement, lineCount: int, excluded: set<int>,
                             r: seq<LineRange>)
    requires r == ParagraphRangesOf(placement, lineCount, excluded)
    ensures forall i :: 0 <= i < |r| ==>
      BodyStart(placement) <= r[i].lower <= r[i].upper <= BodyEnd(placement.section.lines, BodyStart(placement), lineCount)
    ensures forall i, j :: 0 <= i < j < |r| ==> r[i].upper + 1 < r[j].lower
    ensures forall i, l :: 0 <= i < |r| && r[i].lower <= l <= r[i].upper ==>
      l !in excluded && !Blank(placement.section.lines[l - BodyStart(placement)])
  {
    var lines := placement.section.lines;
    var bodyStart := BodyStart(placement);
    var end := BodyEnd(lines, bodyStart, lineCount);
    var breaks := ParagraphBreaks(lines, bodyStart, excluded);
    if lines != [] {
      MaximalRunsWithin(breaks, bodyStart, end, r);
      MaximalRunsOrdered(breaks, bodyStart, end, r);
      forall i, l | 0 <= i < |r| && r[i].lower <= l <= r[i].upper
        ensures l !in excluded && !Blank(lines[l - bodyStart])
      {
        assert l !in breaks;
        BreakAt(lines, bodyStart, excluded, l);
      }
    }
  }

  /** Together the paragraph ranges hold every usable body line. */
  lemma ParagraphRangesExact(placement: WalkerSections.SectionPlacement, lineCount: int, excluded: set<int>,
                             r: seq<LineRange>)
    requires BodyStart(placement) >= 1
    requires r == ParagraphRangesOf(placement, lineCount, excluded)
    ensures LineSet(r) == ParagraphLines(placement, lineCount, excluded)
  {
    var lines := placement.section.lines;
    var bodyStart := BodyStart(placement);
    var end := BodyEnd(lines, bodyStart, lineCount);
    var breaks := ParagraphBreaks(lines, bodyStart, excluded);
    if lines != [] {
      MaximalRunsExact(breaks, bodyStart, end, r);
      UsableBody(lines, bodyStart, lineCount, excluded);
    } else {
      assert BodyLines(lines, bodyStart, lineCount, excluded) == {} by {
        forall l | l in BodyLines(lines, bodyStart, lineCount, excluded) ensures false { }
      }
    }
  }
}
