/** How the walker finds each section's heading line in the normalized text
    and turns sections into line ranges (Sources/UMAFCore/Walker/UMAFWalker.swift,
    `locateSectionStarts`, `findHeading`, `parseHeading`, `sectionPlacements`).
    Headings are looked for in order, each search resuming after the last
    heading found; a section whose heading is not found is laid right after
    the previous section. */
module WalkerSections {
  import opened Wrappers
  import opened Text
  import opened CoreModels
  import opened WalkerPlacements
  import MarkdownBody
  import MarkdownEmitter
  import EmitterFacts

  // ---------------------------------------------------------------------
  // parseHeading
  // ---------------------------------------------------------------------

  /** A line whose space/tab trim starts with `#` reads as a heading: its
      level is the length of the `#` run (not capped at six) and its text
      what follows, less one space. */
  function ParseHeading(line: string): Option<(string, int)>
  {
    var trimmed := Trim(line, Whitespaces);
    if trimmed == [] || trimmed[0] != '#' then None
    else Some((MarkdownBody.HeadingText(trimmed), MarkdownBody.HeadingLevel(trimmed) as int))
  }

  /** `parseHeading(from:)`, counting the `#` run with a loop. */
  method ParseHeadingLine(line: string) returns (heading: Option<(string, int)>)
    ensures heading == ParseHeading(line)
  {
    var trimmed := Trim(line, Whitespaces);
    if trimmed == [] || trimmed[0] != '#' {
      return None;
    }
    var level := MarkdownBody.CountHashes(trimmed);
    var rest := trimmed[level..];
    if |rest| > 0 && rest[0] == ' ' {
      rest := rest[1..];
    }
    heading := Some((rest, level as int));
  }

  /** The walker finds the headings the markdown emitter writes: a heading
      line of level 1 to 6 with an already trimmed heading reads back as
      that heading and level. */
  lemma ParseEmittedHeading(heading: string, level: int)
    requires 1 <= level <= 6
    requires Trim(heading, WhitespacesAndNewlines) == heading
    requires heading == [] || heading[0] != '#'
    ensures ParseHeading(MarkdownEmitter.HeadingLine(heading, level)) == Some((heading, level))
  {
    EmitterFacts.HeadingReadBack(heading, level);
  }

  // ---------------------------------------------------------------------
  // findHeading
  // ---------------------------------------------------------------------

  /** Line `i` (0-based) is a heading for `heading` at `level` and its
      1-based number is not excluded. */
  predicate HeadingAt(lines: seq<string>, i: nat, heading: string, level: int, excluded: set<int>)
    requires i < |lines|
  {
    (i + 1) !in excluded && ParseHeading(lines[i]) == Some((heading, level))
  }

  /** The 1-based number of the first matching line at index `i` or later. */
  function FindHeadingFrom(lines: seq<string>, heading: string, level: int, excluded: set<int>, i: nat)
    : Option<nat>
    decreases |lines| - i
  {
    if i >= |lines| then None
    else if HeadingAt(lines, i, heading, level, excluded) then Some(i + 1)
    else FindHeadingFrom(lines, heading, level, excluded, i + 1)
  }

  /** `findHeading(for:lines:startingAt:excludedLines:)` */
  method FindHeading(section: Section, lines: seq<string>, index: nat, excluded: set<int>)
    returns (found: Option<nat>)
    ensures found == FindHeadingFrom(lines, section.heading, section.level, excluded, index)
  {
    if index >= |lines| {
      return None;
    }
    var i := index;
    while i < |lines|
      invariant index <= i <= |lines|
      invariant FindHeadingFrom(lines, section.heading, section.level, excluded, i)
             == FindHeadingFrom(lines, section.heading, section.level, excluded, index)
    {
      var lineNumber := i + 1;
      if lineNumber in excluded {
        i := i + 1;
        continue;
      }
      var parsed := ParseHeadingLine(lines[i]);
      if parsed.None? {
        i := i + 1;
        continue;
      }
      if parsed.value.0 == section.heading && parsed.value.1 == section.level {
        return Some(lineNumber);
      }
      i := i + 1;
    }
    return None;
  }

  /** The search returns the first matching line from `i` on, as a 1-based
      number, or nothing when no line from `i` on matches. */
  lemma {:induction false} FindHeadingSpec(lines: seq<string>, heading: string, level: int, excluded: set<int>,
                                           i: nat, r: Option<nat>)
    requires r == FindHeadingFrom(lines, heading, level, excluded, i)
    ensures r.Some? ==> i < r.value <= |lines| && HeadingAt(lines, r.value - 1, heading, level, excluded)
    ensures r.Some? ==> forall j :: i <= j < r.value - 1 ==> !HeadingAt(lines, j, heading, level, excluded)
    ensures r.None? ==> forall j :: i <= j < |lines| ==> !HeadingAt(lines, j, heading, level, excluded)
    decreases |lines| - i
  {
    if i < |lines| && !HeadingAt(lines, i, heading, level, excluded) {
      FindHeadingSpec(lines, heading, level, excluded, i + 1, r);
    }
  }

  // ---------------------------------------------------------------------
  // locateSectionStarts
  // ---------------------------------------------------------------------

  /** The heading line of each section, each search starting at 0-based
      index `search`; after a found heading the next search starts on the
      line after it, after a miss at the end of the text. */
  function Starts(sections: seq<Section>, lines: seq<string>, excluded: set<int>, search: nat)
    : (r: seq<Option<nat>>)
    ensures |r| == |sections|
  {
    if sections == [] then []
    else
      var found := FindHeadingFrom(lines, sections[0].heading, sections[0].level, excluded, search);
      var next: nat := if found.Some? then found.value else |lines|;
      [found] + Starts(sections[1..], lines, excluded, next)
  }

  /** One step of `Starts`, from the `k`-th section on. */
  lemma StartsFrom(sections: seq<Section>, lines: seq<string>, excluded: set<int>, search: nat, k: nat)
    requires k < |sections|
    ensures Starts(sections[k..], lines, excluded, search)
         == [FindHeadingFrom(lines, sections[k].heading, sections[k].level, excluded, search)]
            + Starts(sections[k + 1..], lines, excluded,
                     var f := FindHeadingFrom(lines, sections[k].heading, sections[k].level, excluded, search);
                     if f.Some? then f.value else |lines|)
  {
    assert sections[k..][1..] == sections[k + 1..];
  }

  /** `locateSectionStarts(sections:lines:excludedLines:)` */
  method LocateSectionStarts(sections: seq<Section>, lines: seq<string>, excluded: set<int>)
    returns (results: seq<Option<nat>>)
    ensures results == Starts(sections, lines, excluded, 0)
  {
    results := [];
    var searchIndex: nat := 0;
    var k := 0;
    while k < |sections|
      invariant 0 <= k <= |sections|
      invariant results + Starts(sections[k..], lines, excluded, searchIndex) == Starts(sections, lines, excluded, 0)
    {
      var found := FindHeading(sections[k], lines, searchIndex, excluded);
      StartsFrom(sections, lines, excluded, searchIndex, k);
      AppendAssoc(results, [found], Starts(sections[k + 1..], lines, excluded, if found.Some? then found.value else |lines|));
      results := results + [found];
      if found.Some? {
        searchIndex := found.value;
      } else {
        searchIndex := |lines|;
      }
      k := k + 1;
    }
    assert sections[k..] == [];
  }

  /** Each found heading lies past the search start, is a heading line for
      its section (same text, same level) and is not an excluded line. */
  lemma {:induction false} StartFound(sections: seq<Section>, lines: seq<string>, excluded: set<int>,
                                      search: nat, starts: seq<Option<nat>>, k: nat)
    requires starts == Starts(sections, lines, excluded, search)
    requires k < |sections| && starts[k].Some?
    ensures search < starts[k].value <= |lines|
    ensures starts[k].value !in excluded
    ensures HeadingAt(lines, starts[k].value - 1, sections[k].heading, sections[k].level, excluded)
    decreases k
  {
    var found := FindHeadingFrom(lines, sections[0].heading, sections[0].level, excluded, search);
    FindHeadingSpec(lines, sections[0].heading, sections[0].level, excluded, search, found);
    if k > 0 {
      var next: nat := if found.Some? then found.value else |lines|;
      var tail := Starts(sections[1..], lines, excluded, next);
      assert starts[k] == tail[k - 1];
      StartFound(sections[1..], lines, excluded, next, tail, k - 1);
      if found.None? {
        assert false;
      }
    }
  }

  /** A search that starts at the end of the text finds nothing. */
  lemma {:induction false} StartsFromEnd(sections: seq<Section>, lines: seq<string>, excluded: set<int>,
                                         search: nat, k: nat)
    requires search >= |lines| && k < |sections|
    ensures Starts(sections, lines, excluded, search)[k].None?
    decreases k
  {
    if k > 0 {
      StartsFromEnd(sections[1..], lines, excluded, |lines|, k - 1);
    }
  }

  /** Located heading lines strictly increase. */
  lemma {:induction false} StartsIncrease(sections: seq<Section>, lines: seq<string>, excluded: set<int>,
                                          search: nat, starts: seq<Option<nat>>, i: nat, j: nat)
    requires starts == Starts(sections, lines, excluded, search)
    requires i < j < |sections| && starts[i].Some? && starts[j].Some?
    ensures starts[i].value < starts[j].value
    decreases i
  {
    var found := FindHeadingFrom(lines, sections[0].heading, sections[0].level, excluded, search);
    var next: nat := if found.Some? then found.value else |lines|;
    var tail := Starts(sections[1..], lines, excluded, next);
    assert starts[j] == tail[j - 1];
    if i == 0 {
      StartFound(sections[1..], lines, excluded, next, tail, j - 1);
    } else {
      assert starts[i] == tail[i - 1];
      StartsIncrease(sections[1..], lines, excluded, next, tail, i - 1, j - 1);
    }
  }

  /** Once a heading is missed, every later heading is missed too. */
  lemma {:induction false} StartsMissForever(sections: seq<Section>, lines: seq<string>, excluded: set<int>,
                                             search: nat, starts: seq<Option<nat>>, i: nat, j: nat)
    requires starts == Starts(sections, lines, excluded, search)
    requires i < j < |sections| && starts[i].None?
    ensures starts[j].None?
    decreases i
  {
    var found := FindHeadingFrom(lines, sections[0].heading, sections[0].level, excluded, search);
    var next: nat := if found.Some? then found.value else |lines|;
    var tail := Starts(sections[1..], lines, excluded, next);
    assert starts[j] == tail[j - 1];
    if i == 0 {
      StartsFromEnd(sections[1..], lines, excluded, next, j - 1);
    } else {
      assert starts[i] == tail[i - 1];
      StartsMissForever(sections[1..], lines, excluded, next, tail, i - 1, j - 1);
    }
  }

  /** The heading search as a whole: found headings are real, unexcluded,
      matching heading lines in strictly increasing order, and misses form
      a suffix. */
  lemma LocateSectionStartsSpec(sections: seq<Section>, lines: seq<string>, excluded: set<int>,
                                starts: seq<Option<nat>>)
    requires starts == Starts(sections, lines, excluded, 0)
    ensures |starts| == |sections|
    ensures forall k :: 0 <= k < |starts| && starts[k].Some? ==>
      && 1 <= starts[k].value <= |lines|
      && starts[k].value !in excluded
      && ParseHeading(lines[starts[k].value - 1]) == Some((sections[k].heading, sections[k].level))
    ensures forall i, j :: 0 <= i < j < |starts| && starts[i].Some? && starts[j].Some? ==>
      starts[i].value < starts[j].value
    ensures forall i, j :: 0 <= i < j < |starts| && starts[i].None? ==> starts[j].None?
  {
    forall k | 0 <= k < |starts| && starts[k].Some?
      ensures 1 <= starts[k].value <= |lines| && starts[k].value !in excluded
      ensures ParseHeading(lines[starts[k].value - 1]) == Some((sections[k].heading, sections[k].level))
    {
      StartFound(sections, lines, excluded, 0, starts, k);
    }
    forall i, j | 0 <= i < j < |starts| && starts[i].Some? && starts[j].Some?
      ensures starts[i].value < starts[j].value
    {
      StartsIncrease(sections, lines, excluded, 0, starts, i, j);
    }
    forall i, j | 0 <= i < j < |starts| && starts[i].None?
      ensures starts[j].None?
    {
      StartsMissForever(sections, lines, excluded, 0, starts, i, j);
    }
  }

  // ---------------------------------------------------------------------
  // sectionPlacements
  // ---------------------------------------------------------------------

  /** `SectionPlacement`; the span and block ids are filled in when the
      section is emitted. */
  datatype SectionPlacement = SectionPlacement(
    section: Section,
    startLine: int,
    endLine: int,
    hasHeading: bool,
    spanId: string,
    blockId: string)

  /** The end line before the `max(startLine, …)` guard: a found heading
      spans itself and the section's lines, a missed one its lines (at
      least one); both clipped at `lineCount`. */
  function RawEnd(section: Section, hasHeading: bool, start: int, lineCount: int): int
  {
    if hasHeading then Min(lineCount, start + |section.lines|)
    else Min(lineCount, start + Max(|section.lines|, 1) - 1)
  }

  function PlaceOne(section: Section, start: Option<nat>, lineCount: int, fallback: int): SectionPlacement
  {
    var startLine := if start.Some? then start.value else fallback;
    SectionPlacement(section, startLine, Max(startLine, RawEnd(section, start.Some?, startLine, lineCount)),
                     start.Some?, "", "")
  }

  /** The placements of `sections` with located `starts`, the next missed
      section starting at `fallback`. */
  function PlaceSections(sections: seq<Section>, starts: seq<Option<nat>>, lineCount: int, fallback: int)
    : (r: seq<SectionPlacement>)
    requires |starts| == |sections|
    ensures |r| == |sections|
  {
    if sections == [] then []
    else
      var p := PlaceOne(sections[0], starts[0], lineCount, fallback);
      [p] + PlaceSections(sections[1..], starts[1..], lineCount,
                          RawEnd(sections[0], starts[0].Some?, p.startLine, lineCount) + 1)
  }

  /** `sectionPlacements(sections:lines:lineCount:excludedLines:)` */
  method SectionPlacementsFor(sections: seq<Section>, lines: seq<string>, lineCount: int, excluded: set<int>)
    returns (placements: seq<SectionPlacement>)
    ensures placements == PlaceSections(sections, Starts(sections, lines, excluded, 0), lineCount, 1)
  {
    var starts := LocateSectionStarts(sections, lines, excluded);
    placements := PlaceAll(sections, starts, lineCount);
  }

  /** The loop of `sectionPlacements` over the located starts. */
  method PlaceAll(sections: seq<Section>, starts: seq<Option<nat>>, lineCount: int)
    returns (placements: seq<SectionPlacement>)
    requires |starts| == |sections|
    ensures placements == PlaceSections(sections, starts, lineCount, 1)
  {
    placements := [];
    var fallbackStart := 1;
    var k := 0;
    while k < |sections|
      invariant 0 <= k <= |sections|
      invariant placements + PlaceSections(sections[k..], starts[k..], lineCount, fallbackStart)
             == PlaceSections(sections, starts, lineCount, 1)
    {
      var section := sections[k];
      var hasHeading := starts[k].Some?;
      var startLine := if hasHeading then starts[k].value else fallbackStart;
      var endLine: int;
      if hasHeading {
        endLine := Min(lineCount, startLine + |section.lines|);
      } else {
        var total := Max(|section.lines|, 1);
        endLine := Min(lineCount, startLine + total - 1);
      }
      var placement := SectionPlacement(section, startLine, Max(startLine, endLine), hasHeading, "", "");
      assert PlaceOne(section, starts[k], lineCount, fallbackStart) == placement;
      assert RawEnd(section, hasHeading, startLine, lineCount) == endLine;
      PlaceSectionsFrom(sections, starts, lineCount, fallbackStart, k);
      AppendAssoc(placements, [placement], PlaceSections(sections[k + 1..], starts[k + 1..], lineCount, endLine + 1));
      placements := placements + [placement];
      fallbackStart := endLine + 1;
      k := k + 1;
    }
    assert sections[k..] == [];
  }

  /** The placements from section `k` on: section `k`'s, then the rest's. */
  lemma PlaceSectionsFrom(sections: seq<Section>, starts: seq<Option<nat>>, lineCount: int, fallback: int, k: nat)
    requires |starts| == |sections| && k < |sections|
    ensures PlaceSections(sections[k..], starts[k..], lineCount, fallback)
         == [PlaceOne(sections[k], starts[k], lineCount, fallback)]
            + PlaceSections(sections[k + 1..], starts[k + 1..], lineCount,
                            RawEnd(sections[k], starts[k].Some?, PlaceOne(sections[k], starts[k], lineCount, fallback).startLine, lineCount) + 1)
  {
    assert sections[k..][1..] == sections[k + 1..] && starts[k..][1..] == starts[k + 1..];
  }

  /** One placement: it belongs to its section, never ends before it
      starts, starts on a found heading and then spans the heading and the
      section's lines, and ends inside the document whenever it starts
      there. A missed section starts where the previous one (when that one
      started inside the document) ended, or at the first fallback, and
      never later than just past the last line. */
  lemma {:induction false} PlacementAt(sections: seq<Section>, starts: seq<Option<nat>>, lineCount: int,
                                       fallback: int, r: seq<SectionPlacement>, k: nat)
    requires |starts| == |sections| && k < |sections|
    requires r == PlaceSections(sections, starts, lineCount, fallback)
    ensures r[k].section == sections[k] && r[k].hasHeading == starts[k].Some?
    ensures r[k].startLine <= r[k].endLine
    ensures r[k].startLine <= lineCount ==> r[k].endLine <= lineCount
    ensures starts[k].Some? ==> r[k].startLine == starts[k].value
    ensures starts[k].Some? && starts[k].value <= lineCount ==>
      r[k].endLine == Min(lineCount, starts[k].value + |sections[k].lines|)
    ensures starts[k].None? && r[k].startLine <= lineCount ==>
      r[k].endLine == Min(lineCount, r[k].startLine + Max(|sections[k].lines|, 1) - 1)
    ensures starts[k].None? && k == 0 ==> r[k].startLine == fallback
    ensures starts[k].None? && k > 0 && r[k - 1].startLine <= lineCount ==> r[k].startLine == r[k - 1].endLine + 1
    ensures starts[k].None? && k > 0 ==> Min(lineCount, r[k - 1].startLine) + 1 <= r[k].startLine <= lineCount + 1
    decreases k
  {
    if k > 0 {
      var p := PlaceOne(sections[0], starts[0], lineCount, fallback);
      var next := RawEnd(sections[0], starts[0].Some?, p.startLine, lineCount) + 1;
      var tail := PlaceSections(sections[1..], starts[1..], lineCount, next);
      assert r[k] == tail[k - 1];
      PlacementAt(sections[1..], starts[1..], lineCount, next, tail, k - 1);
      if k > 1 {
        assert r[k - 1] == tail[k - 2];
      }
    }
  }

  /** The placements of `sectionPlacements` for every section. */
  lemma SectionPlacementsSpec(sections: seq<Section>, lines: seq<string>, lineCount: int, excluded: set<int>,
                              starts: seq<Option<nat>>, r: seq<SectionPlacement>)
    requires lineCount >= 1
    requires starts == Starts(sections, lines, excluded, 0)
    requires r == PlaceSections(sections, starts, lineCount, 1)
    ensures |r| == |sections|
    ensures forall k :: 0 <= k < |r| ==> r[k].section == sections[k] && r[k].hasHeading == starts[k].Some?
    ensures forall k :: 0 <= k < |r| ==> 1 <= r[k].startLine <= r[k].endLine
    ensures forall k :: 0 <= k < |r| && starts[k].Some? && starts[k].value <= lineCount ==>
      r[k].startLine == starts[k].value && r[k].endLine == Min(lineCount, starts[k].value + |sections[k].lines|)
    ensures forall k :: 0 <= k < |r| && r[k].startLine <= lineCount ==> r[k].endLine <= lineCount
    ensures |r| > 0 && starts[0].None? ==> r[0].startLine == 1
    ensures forall k :: 0 < k < |r| && starts[k].None? && r[k - 1].startLine <= lineCount ==>
      r[k].startLine == r[k - 1].endLine + 1
  {
    LocateSectionStartsSpec(sections, lines, excluded, starts);
    forall k | 0 <= k < |r|
      ensures r[k].section == sections[k] && r[k].hasHeading == starts[k].Some?
      ensures 1 <= r[k].startLine <= r[k].endLine
      ensures starts[k].Some? && starts[k].value <= lineCount ==>
        r[k].startLine == starts[k].value && r[k].endLine == Min(lineCount, starts[k].value + |sections[k].lines|)
      ensures r[k].startLine <= lineCount ==> r[k].endLine <= lineCount
      ensures k > 0 && starts[k].None? && r[k - 1].startLine <= lineCount ==> r[k].startLine == r[k - 1].endLine + 1
    {
      PlacementAt(sections, starts, lineCount, 1, r, k);
      if starts[k].None? && k > 0 {
        MissedStartPositive(sections, starts, lineCount, r, k);
      }
    }
    if |r| > 0 {
      PlacementAt(sections, starts, lineCount, 1, r, 0);
    }
  }

  /** A missed section starts at line 1 or later. */
  lemma {:induction false} MissedStartPositive(sections: seq<Section>, starts: seq<Option<nat>>, lineCount: int,
                                               r: seq<SectionPlacement>, k: nat)
    requires lineCount >= 1 && |starts| == |sections| && k < |sections|
    requires forall i :: 0 <= i < |starts| && starts[i].Some? ==> starts[i].value >= 1
    requires r == PlaceSections(sections, starts, lineCount, 1)
    ensures r[k].startLine >= 1
  {
    PlacementAt(sections, starts, lineCount, 1, r, k);
    if starts[k].None? && k > 0 {
      MissedStartPositive(sections, starts, lineCount, r, k - 1);
      PlacementAt(sections, starts, lineCount, 1, r, k - 1);
    }
  }

  /** A missed section may be laid past the last line: two sections
      without headings over a one-line text put the second on line 2. */
  lemma MissedSectionPastEnd()
    ensures var a := Section("A", 1, ["x"], [], 0, 0);
            var b := Section("B", 1, ["y"], [], 1, 1);
            PlaceSections([a, b], Starts([a, b], ["x"], {}, 0), 1, 1)[1] == SectionPlacement(b, 2, 2, false, "", "")
  {
    var a := Section("A", 1, ["x"], [], 0, 0);
    var b := Section("B", 1, ["y"], [], 1, 1);
    assert ParseHeading("x") == None by {
      assert Trim("x", Whitespaces) == "x";
    }
    assert Starts([a, b], ["x"], {}, 0) == [None, None] by {
      assert [a, b][1..] == [b];
      assert FindHeadingFrom(["x"], "A", 1, {}, 0) == None;
    }
    assert [a, b][1..] == [b];
    var none: Option<nat> := None;
    assert [none, none][1..] == [none];
  }
}
