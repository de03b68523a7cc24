/** The markdown body loop of `parseSemanticStructure`
    (Sources/UMAFCore/Parsing/Markdown/LineScanner.swift): after the front
    matter, every line is classified as a code fence, a line inside a fence,
    a bullet, a blank, an ATX heading or a plain line, and the scanner keeps
    the open section, the open code block and the lists it has built. */
module MarkdownBody {
  import opened Wrappers
  import opened Text
  import opened CoreModels
  import opened Paragraphs

  // ---------------------------------------------------------------------
  // Line classes
  // ---------------------------------------------------------------------

  /** A line whose trim starts with three backticks opens or closes a fence. */
  predicate IsFenceLine(line: string)
  {
    HasPrefix(Trim(line, Whitespaces), "```")
  }

  /** The text after the opening backticks and spaces, `nil` when empty. */
  function FenceLanguage(trimmed: string): (r: Option<string>)
    ensures r.Some? ==> r.value != [] && r.value[0] != '`' && r.value[0] != ' '
  {
    var rest := DropWhileIn(trimmed, {'`', ' '});
    DropWhileInSpec(trimmed, {'`', ' '});
    if rest == [] then None else Some(rest)
  }

  predicate IsBulletLine(trimmed: string)
  {
    HasPrefix(trimmed, "- ") || HasPrefix(trimmed, "* ") || HasPrefix(trimmed, "• ")
  }

  /** `String(trimmed.dropFirst(2)).trimmingCharacters(in: .whitespaces)` */
  function BulletText(trimmed: string): string
  {
    if |trimmed| >= 2 then Trim(trimmed[2..], Whitespaces) else []
  }

  /** The number of leading `#`. */
  function HeadingLevel(trimmed: string): nat
  {
    LeadingCount(trimmed, '#')
  }

  /** One to six leading `#` make an ATX heading; seven or more do not. */
  predicate IsHeadingText(trimmed: string)
  {
    1 <= HeadingLevel(trimmed) <= 6
  }

  /** The heading text: the `#` run and at most one following space dropped. */
  function HeadingText(trimmed: string): string
  {
    var rest := trimmed[HeadingLevel(trimmed)..];
    if |rest| > 0 && rest[0] == ' ' then rest[1..] else rest
  }

  // ---------------------------------------------------------------------
  // Scanner state and one step
  // ---------------------------------------------------------------------

  /** The locals of the loop: the lists built so far, the open section
      (`currentHeading`, `currentLevel`, `currentLines`) and the open code
      block (`inCodeFence`, `currentCodeLines`, `currentCodeLanguage`,
      `currentCodeStartLine`). */
  datatype MdState = MdState(
    sections: seq<Section>,
    bullets: seq<Bullet>,
    codeBlocks: seq<CodeBlock>,
    heading: Option<string>,
    level: int,
    current: seq<string>,
    inFence: bool,
    codeLines: seq<string>,
    codeLanguage: Option<string>,
    codeStart: Option<int>)

  const Start: MdState := MdState([], [], [], None, 1, [], false, [], None, None)

  /** The nested `flushSection`: an open section is appended with its
      paragraphs, and the section state is reset. */
  function FlushSection(st: MdState): MdState
  {
    var sections :=
      if st.heading.Some? then
        st.sections + [Section(st.heading.value, st.level, st.current, ParagraphsOf(st.current), 0, 0)]
      else st.sections;
    st.(sections := sections, heading := None, level := 1, current := [])
  }

  /** `if currentHeading != nil { currentLines.append(line) }` */
  function KeepLine(st: MdState, line: string): MdState
  {
    if st.heading.Some? then st.(current := st.current + [line]) else st
  }

  /** The code block a closing fence completes. */
  function ClosedBlock(st: MdState): seq<CodeBlock>
  {
    if st.codeStart.Some? then [CodeBlock(st.codeStart.value, st.codeLanguage, Join(st.codeLines, '\n'))] else []
  }

  /** The bullet a bullet line at `index` produces, tagged with the open section. */
  function BulletFor(st: MdState, index: nat, trimmed: string): Bullet
  {
    Bullet(BulletText(trimmed), index, st.heading, if st.heading.Some? then Some(st.level) else None)
  }

  /** A fence line: an opening fence records where the block starts and its
      language, a closing one appends the block. */
  function ToggleFence(st: MdState, index: nat, line: string, trimmed: string): MdState
  {
    if !st.inFence then
      KeepLine(st.(inFence := true, codeLines := [], codeStart := Some(index),
                   codeLanguage := FenceLanguage(trimmed)), line)
    else
      KeepLine(st.(inFence := false, codeBlocks := st.codeBlocks + ClosedBlock(st),
                   codeLines := [], codeLanguage := None, codeStart := None), line)
  }

  /** A line outside any fence that is not a fence line: a bullet is recorded,
      then a heading opens a new section and any other line joins the open one. */
  function OutsideLine(st: MdState, index: nat, line: string, trimmed: string): MdState
  {
    var st1 := if IsBulletLine(trimmed) then st.(bullets := st.bullets + [BulletFor(st, index, trimmed)]) else st;
    if trimmed == [] then KeepLine(st1, line)
    else if IsHeadingText(trimmed) then
      FlushSection(st1).(heading := Some(HeadingText(trimmed)), level := HeadingLevel(trimmed))
    else KeepLine(st1, line)
  }

  /** One iteration of `for index in startIndex..<allLines.count`. */
  function MdStep(st: MdState, index: nat, line: string): MdState
  {
    var trimmed := Trim(line, Whitespaces);
    if HasPrefix(trimmed, "```") then ToggleFence(st, index, line, trimmed)
    else if st.inFence then KeepLine(st.(codeLines := st.codeLines + [line]), line)
    else OutsideLine(st, index, line, trimmed)
  }

  // ---------------------------------------------------------------------
  // The loop body
  // ---------------------------------------------------------------------

  /** The fence branch of the loop body. */
  method ScanFence(st: MdState, index: nat, line: string, trimmed: string) returns (next: MdState)
    ensures next == ToggleFence(st, index, line, trimmed)
  {
    next := st;
    if !next.inFence {
      next := next.(inFence := true, codeLines := [], codeStart := Some(index));
      var rest := DropWhileIn(trimmed, {'`', ' '});
      next := next.(codeLanguage := if rest == [] then None else Some(rest));
    } else {
      next := next.(inFence := false);
      if next.codeStart.Some? {
        var block := CodeBlock(next.codeStart.value, next.codeLanguage, Join(next.codeLines, '\n'));
        next := next.(codeBlocks := next.codeBlocks + [block]);
      }
      next := next.(codeLines := [], codeLanguage := None, codeStart := None);
    }
    if next.heading.Some? {
      next := next.(current := next.current + [line]);
    }
  }

  /** `for ch in trimmed { if ch == "#" { count += 1 } else { break } }` */
  method CountHashes(trimmed: string) returns (count: nat)
    ensures count == HeadingLevel(trimmed)
  {
    count := 0;
    while count < |trimmed| && trimmed[count] == '#'
      invariant count <= |trimmed|
      invariant LeadingCount(trimmed, '#') == count + LeadingCount(trimmed[count..], '#')
    {
      assert trimmed[count..][1..] == trimmed[count + 1..];
      count := count + 1;
    }
  }

  /** The rest of the loop body, for a line outside any fence. */
  method ScanOutside(st: MdState, index: nat, line: string, trimmed: string) returns (next: MdState)
    ensures next == OutsideLine(st, index, line, trimmed)
  {
    next := st;
    if IsBulletLine(trimmed) {
      var text := BulletText(trimmed);
      var level := if next.heading.Some? then Some(next.level) else None;
      next := next.(bullets := next.bullets + [Bullet(text, index, next.heading, level)]);
    }
    if trimmed == [] {
      if next.heading.Some? {
        next := next.(current := next.current + [line]);
      }
      return;
    }
    if trimmed[0] == '#' {
      var count := CountHashes(trimmed);
      if count > 0 && count <= 6 {
        var rest := trimmed[count..];
        if |rest| > 0 && rest[0] == ' ' {
          rest := rest[1..];
        }
        next := FlushSection(next);
        next := next.(heading := Some(rest), level := count);
        return;
      }
    }
    if next.heading.Some? {
      next := next.(current := next.current + [line]);
    }
  }

  /** The body of the loop, on the scanner's locals. */
  method ScanMarkdownLine(st: MdState, index: nat, line: string) returns (next: MdState)
    ensures next == MdStep(st, index, line)
  {
    var trimmed := Trim(line, Whitespaces);
    if |trimmed| >= 3 && trimmed[..3] == "```" {
      next := ScanFence(st, index, line, trimmed);
    } else if st.inFence {
      next := st.(codeLines := st.codeLines + [line]);
      if next.heading.Some? {
        next := next.(current := next.current + [line]);
      }
    } else {
      next := ScanOutside(st, index, line, trimmed);
    }
  }
}
