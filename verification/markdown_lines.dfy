/** Markdown line canonicalisation (`canonicalizeMarkdownLines` and `rightTrim`
    in Sources/UMAFCore/Parsing/Markdown/LineScanner.swift; the copies in
    PlainTextAdapter.swift and LegacyAdapter.swift are the same code).

    The loop is specified by `Scan`, which replays it one input line at a
    time; each output line records where it came from (`Origin`), so the
    properties of the result can be stated against the input. */
module MarkdownLines {
  import opened Wrappers
  import opened Text

  /** `rightTrim`: drops trailing spaces and tabs. */
  function RightTrimmed(s: string): (r: string)
  {
    DropLastWhileIn(s, Whitespaces)
  }

  /** The `removeLast` loop of `rightTrim`. */
  method RightTrim(s: string) returns (res: string)
    ensures res == RightTrimmed(s)
  {
    res := s;
    while |res| > 0 && (res[|res| - 1] == ' ' || res[|res| - 1] == '\t')
      invariant RightTrimmed(res) == RightTrimmed(s)
      decreases |res|
    {
      res := res[..|res| - 1];
    }
  }

  /** The nested `isListItem`: `- `, `* `, `+ ` or `<digits>. ` after trimming. */
  predicate IsListItem(s: string)
  {
    var t := Trim(s, Whitespaces);
    HasPrefix(t, "- ") || HasPrefix(t, "* ") || HasPrefix(t, "+ ")
    || (var dot := IndexOf(t, '.');
        && 0 < dot < |t|
        && AllDigits(t[..dot])
        && dot + 1 < |t| && t[dot + 1] == ' ')
  }

  predicate AllDigits(s: string)
  {
    |s| == 0 || (IsDigit(s[0]) && AllDigits(s[1..]))
  }

  /** A fence line: its trim starts with three backticks. */
  predicate IsFence(line: string)
  {
    HasPrefix(Trim(line, Whitespaces), "```")
  }

  /** A line that is empty once its trailing spaces and tabs are gone. */
  predicate IsBlank(line: string)
  {
    RightTrimmed(line) == []
  }

  /** The last output line that is not blank under `whitespacesAndNewlines`. */
  function LastNonBlank(out: seq<string>): (r: Option<string>)
  {
    if |out| == 0 then None
    else if Trim(out[|out| - 1], WhitespacesAndNewlines) != [] then Some(out[|out| - 1])
    else LastNonBlank(out[..|out| - 1])
  }

  /** The right-trim of the first non-blank line at or after `j`. */
  function NextNonBlank(lines: seq<string>, j: nat): (r: Option<string>)
    decreases |lines| - j
  {
    if j >= |lines| then None
    else if !IsBlank(lines[j]) then Some(RightTrimmed(lines[j]))
    else NextNonBlank(lines, j + 1)
  }

  /** Where an output line comes from: a fence line (right-trimmed), a line
      inside a fence (verbatim), any other non-blank line (right-trimmed), or
      the blank input line `i` that stands for a run of blank lines. */
  datatype Origin = Fence(i: nat) | Verbatim(i: nat) | Kept(i: nat) | Blank(i: nat)

  /** The loop's variables `out`, `inFence` and `prevBlank`, plus the origin
      of every output line. */
  datatype CanonState = CanonState(out: seq<string>, origins: seq<Origin>, inFence: bool, prevBlank: bool)

  /** One iteration of the loop on `lines[i]`. */
  function Step(lines: seq<string>, i: nat, st: CanonState): CanonState
    requires i < |lines|
  {
    var line := lines[i];
    if IsFence(line) then
      CanonState(st.out + [RightTrimmed(line)], st.origins + [Fence(i)], !st.inFence, false)
    else if st.inFence then
      CanonState(st.out + [line], st.origins + [Verbatim(i)], true, false)
    else if IsBlank(line) then
      if DropsBlank(lines, i, st) then st
      else CanonState(st.out + [[]], st.origins + [Blank(i)], false, true)
    else
      CanonState(st.out + [RightTrimmed(line)], st.origins + [Kept(i)], false, false)
  }

  /** A blank line is dropped when it sits between two list items, or when a
      blank line has just been emitted. */
  predicate DropsBlank(lines: seq<string>, i: nat, st: CanonState)
    requires i < |lines|
  {
    BetweenItems(LastNonBlank(st.out), NextNonBlank(lines, i + 1)) || st.prevBlank
  }

  /** Both neighbours exist and are list items. */
  predicate BetweenItems(prev: Option<string>, next: Option<string>)
  {
    prev.Some? && next.Some? && IsListItem(prev.value) && IsListItem(next.value)
  }

  /** The loop's state after the first `n` input lines. */
  function Scan(lines: seq<string>, n: nat): CanonState
    requires n <= |lines|
  {
    if n == 0 then CanonState([], [], false, false)
    else Step(lines, n - 1, Scan(lines, n - 1))
  }

  /** Drops leading empty lines (`while out.first == ""`). */
  function DropLeadingEmpty(s: seq<string>): (r: seq<string>)
    ensures |r| <= |s|
  {
    if |s| > 0 && s[0] == [] then DropLeadingEmpty(s[1..]) else s
  }

  /** Drops trailing empty lines (`while out.last == ""`). */
  function DropTrailingEmpty(s: seq<string>): (r: seq<string>)
    ensures |r| <= |s|
  {
    if |s| > 0 && s[|s| - 1] == [] then DropTrailingEmpty(s[..|s| - 1]) else s
  }

  /** `DropLeadingEmpty` cuts a prefix of empty lines, as long as there is one. */
  lemma {:induction false} DropLeadingEmptySpec(s: seq<string>)
    ensures var r := DropLeadingEmpty(s);
      && r == s[|s| - |r|..]
      && (r == [] || r[0] != [])
      && (forall k :: 0 <= k < |s| - |r| ==> s[k] == [])
  {
    if |s| > 0 && s[0] == [] {
      DropLeadingEmptySpec(s[1..]);
    }
  }

  /** `DropTrailingEmpty` cuts a suffix of empty lines, as long as there is one. */
  lemma {:induction false} DropTrailingEmptySpec(s: seq<string>)
    ensures var r := DropTrailingEmpty(s);
      && r == s[..|r|]
      && (r == [] || r[|r| - 1] != [])
      && (forall k :: |r| <= k < |s| ==> s[k] == [])
  {
    if |s| > 0 && s[|s| - 1] == [] {
      DropTrailingEmptySpec(s[..|s| - 1]);
    }
  }

  /** What the two closing loops leave of `out`. */
  function StripEmpty(out: seq<string>): seq<string>
  {
    DropTrailingEmpty(DropLeadingEmpty(out))
  }

  /** What `canonicalizeMarkdownLines` returns. */
  function Canonical(lines: seq<string>): seq<string>
  {
    StripEmpty(Scan(lines, |lines|).out)
  }

  /** The `for cand in out.reversed()` search for the last non-blank line. */
  method FindLastNonBlank(out: seq<string>) returns (prevNonBlank: Option<string>)
    ensures prevNonBlank == LastNonBlank(out)
  {
    prevNonBlank := None;
    var k := |out|;
    assert out[..k] == out;
    while k > 0 && prevNonBlank.None?
      invariant 0 <= k <= |out|
      invariant prevNonBlank.None? ==> LastNonBlank(out[..k]) == LastNonBlank(out)
      invariant prevNonBlank.Some? ==> prevNonBlank == LastNonBlank(out)
      decreases k, if prevNonBlank.None? then 1 else 0
    {
      assert out[..k][..k - 1] == out[..k - 1] && out[..k][k - 1] == out[k - 1];
      if Trim(out[k - 1], WhitespacesAndNewlines) != [] {
        prevNonBlank := Some(out[k - 1]);
      } else {
        k := k - 1;
      }
    }
  }

  /** The look-ahead loop for the next non-blank line, right-trimmed. */
  method FindNextNonBlank(lines: seq<string>, from: nat) returns (nextNonBlank: Option<string>)
    ensures nextNonBlank == NextNonBlank(lines, from)
  {
    nextNonBlank := None;
    var j := from;
    while j < |lines| && nextNonBlank.None?
      invariant from <= j
      invariant nextNonBlank.None? ==> NextNonBlank(lines, j) == NextNonBlank(lines, from)
      invariant nextNonBlank.Some? ==> nextNonBlank == NextNonBlank(lines, from)
      decreases |lines| - j, if nextNonBlank.None? then 1 else 0
    {
      var c := RightTrim(lines[j]);
      if c == [] {
        j := j + 1;
        continue;
      }
      nextNonBlank := Some(c);
    }
  }

  /** The two closing loops: `removeFirst` and `removeLast` while the end is `""`. */
  method StripEmptyEnds(lines: seq<string>) returns (out: seq<string>)
    ensures out == StripEmpty(lines)
  {
    out := lines;
    while |out| > 0 && out[0] == []
      invariant DropLeadingEmpty(out) == DropLeadingEmpty(lines)
      decreases |out|
    {
      out := out[1..];
    }
    while |out| > 0 && out[|out| - 1] == []
      invariant DropTrailingEmpty(out) == DropTrailingEmpty(DropLeadingEmpty(lines))
      decreases |out|
    {
      out := out[..|out| - 1];
    }
  }

  /** `canonicalizeMarkdownLines` */
  method CanonicalizeMarkdownLines(lines: seq<string>) returns (out: seq<string>)
    ensures out == Canonical(lines)
  {
    var scanned := ScanLines(lines);
    out := StripEmptyEnds(scanned);
  }

  /** The main loop of `canonicalizeMarkdownLines`, before the ends are stripped. */
  method ScanLines(lines: seq<string>) returns (out: seq<string>)
    ensures out == Scan(lines, |lines|).out
  {
    out := [];
    var inFence := false;
    var prevBlank := false;
    ghost var origins: seq<Origin> := [];
    var i := 0;
    while i < |lines|
      invariant 0 <= i <= |lines|
      invariant Scan(lines, i) == CanonState(out, origins, inFence, prevBlank)
      decreases |lines| - i
    {
      out, origins, inFence, prevBlank := ScanLine(lines, i, out, origins, inFence, prevBlank);
      i := i + 1;
    }
  }

  /** One iteration of the loop of `canonicalizeMarkdownLines`, on `lines[i]`. */
  method ScanLine(lines: seq<string>, i: nat, out: seq<string>, ghost origins: seq<Origin>, inFence: bool, prevBlank: bool)
    returns (out': seq<string>, ghost origins': seq<Origin>, inFence': bool, prevBlank': bool)
    requires i < |lines|
    ensures CanonState(out', origins', inFence', prevBlank') == Step(lines, i, CanonState(out, origins, inFence, prevBlank))
  {
    ghost var st := CanonState(out, origins, inFence, prevBlank);
    out', origins', inFence', prevBlank' := out, origins, inFence, prevBlank;
    var line := lines[i];
    if IsFence(line) {
      var fence := RightTrim(line);
      out', origins' := out + [fence], origins + [Fence(i)];
      inFence' := !inFence;
      prevBlank' := false;
    } else if inFence {
      out', origins' := out + [line], origins + [Verbatim(i)];  // kept exactly
      prevBlank' := false;
    } else {
      var rightTrimmed := RightTrim(line);
      if rightTrimmed == [] {
        // a blank between two list items is dropped, and so is a repeated blank
        var prevNonBlank := FindLastNonBlank(out);
        var nextNonBlank := FindNextNonBlank(lines, i + 1);
        var betweenItems := prevNonBlank.Some? && nextNonBlank.Some?
          && IsListItem(prevNonBlank.value) && IsListItem(nextNonBlank.value);
        assert DropsBlank(lines, i, st) == (betweenItems || prevBlank);
        if !betweenItems && !prevBlank {
          out', origins' := out + [[]], origins + [Blank(i)];
          prevBlank' := true;
        }
      } else {
        out', origins' := out + [rightTrimmed], origins + [Kept(i)];
        prevBlank' := false;
      }
    }
  }

  // ---------------------------------------------------------------------
  // What the scan keeps: every output line and its origin
  // ---------------------------------------------------------------------

  /** The text an origin stands for. */
  function Render(lines: seq<string>, o: Origin): string
    requires o.i < |lines|
  {
    match o
    case Fence(i) => RightTrimmed(lines[i])
    case Verbatim(i) => lines[i]
    case Kept(i) => RightTrimmed(lines[i])
    case Blank(_) => []
  }

  /** Line `i` lies inside a fence: an odd number of fence lines precede it. */
  predicate InsideFence(lines: seq<string>, i: nat)
    requires i <= |lines|
  {
    if i == 0 then false else InsideFence(lines, i - 1) != IsFence(lines[i - 1])
  }

  /** The origin of an output line agrees with the line it names. */
  predicate Sound(lines: seq<string>, n: nat, o: Origin)
    requires n <= |lines|
  {
    match o
    case Fence(i) => i < n && IsFence(lines[i])
    case Verbatim(i) => i < n && !IsFence(lines[i]) && InsideFence(lines, i)
    case Kept(i) => i < n && !IsFence(lines[i]) && !InsideFence(lines, i) && !IsBlank(lines[i])
    case Blank(i) => i < n && IsBlank(lines[i]) && !InsideFence(lines, i)
  }

  /** The invariant of the scan after `n` lines. */
  predicate ScanInv(lines: seq<string>, n: nat, st: CanonState)
    requires n <= |lines|
  {
    && |st.out| == |st.origins| <= n
    && (forall k :: 0 <= k < |st.origins| ==> Sound(lines, n, st.origins[k]))
    && (forall k :: 0 <= k < |st.origins| ==> st.origins[k].i < n)
    && (forall k :: 0 <= k < |st.origins| ==> st.out[k] == Render(lines, st.origins[k]))
    && (st.inFence <==> InsideFence(lines, n))
    && (st.prevBlank <==> |st.origins| > 0 && st.origins[|st.origins| - 1].Blank?)
    && (st.inFence ==> |st.origins| > 0 && !st.origins[|st.origins| - 1].Blank?)
    && (forall k :: 0 <= k < |st.origins| - 1 ==> BlankThenLine(st.origins, k))
  }

  /** The output line after a blank one is a non-blank line outside any fence. */
  predicate BlankThenLine(origins: seq<Origin>, k: nat)
    requires k < |origins| - 1
  {
    origins[k].Blank? ==> origins[k + 1].Kept? || origins[k + 1].Fence?
  }

  lemma {:induction false} ScanInvHolds(lines: seq<string>, n: nat)
    requires n <= |lines|
    ensures ScanInv(lines, n, Scan(lines, n))
  {
    if n > 0 {
      ScanInvHolds(lines, n - 1);
      var st := Scan(lines, n - 1);
      StepKeepsInv(lines, n - 1, st);
      InvOfEqual(lines, n, Step(lines, n - 1, st), Scan(lines, n));
    }
  }

  lemma InvOfEqual(lines: seq<string>, n: nat, st: CanonState, st': CanonState)
    requires n <= |lines| && st == st' && ScanInv(lines, n, st)
    ensures ScanInv(lines, n, st')
  {
  }

  /** One iteration keeps the invariant. */
  lemma StepKeepsInv(lines: seq<string>, i: nat, st: CanonState)
    requires i < |lines|
    requires ScanInv(lines, i, st)
    ensures ScanInv(lines, i + 1, Step(lines, i, st))
  {
    var line := lines[i];
    if IsFence(line) {
      StepFenceKeepsInv(lines, i, st);
    } else if st.inFence {
      StepVerbatimKeepsInv(lines, i, st);
    } else if IsBlank(line) {
      StepBlankKeepsInv(lines, i, st);
    } else {
      StepKeptKeepsInv(lines, i, st);
    }
  }

  lemma SoundLater(lines: seq<string>, i: nat, st: CanonState)
    requires i < |lines|
    requires ScanInv(lines, i, st)
    ensures forall k :: 0 <= k < |st.origins| ==> Sound(lines, i + 1, st.origins[k])
  {
    forall k | 0 <= k < |st.origins|
      ensures Sound(lines, i + 1, st.origins[k])
    {
      assert Sound(lines, i, st.origins[k]);
    }
  }

  lemma StepFenceKeepsInv(lines: seq<string>, i: nat, st: CanonState)
    requires i < |lines| && IsFence(lines[i])
    requires ScanInv(lines, i, st)
    ensures ScanInv(lines, i + 1, Step(lines, i, st))
  {
    var st' := Step(lines, i, st);
    assert st' == CanonState(st.out + [RightTrimmed(lines[i])], st.origins + [Fence(i)], !st.inFence, false);
    SoundLater(lines, i, st);
    Appended(lines, i + 1, st, st', Fence(i));
  }

  lemma StepVerbatimKeepsInv(lines: seq<string>, i: nat, st: CanonState)
    requires i < |lines| && !IsFence(lines[i]) && st.inFence
    requires ScanInv(lines, i, st)
    ensures ScanInv(lines, i + 1, Step(lines, i, st))
  {
    var st' := Step(lines, i, st);
    assert st' == CanonState(st.out + [lines[i]], st.origins + [Verbatim(i)], true, false);
    SoundLater(lines, i, st);
    Appended(lines, i + 1, st, st', Verbatim(i));
  }

  lemma StepBlankKeepsInv(lines: seq<string>, i: nat, st: CanonState)
    requires i < |lines| && !IsFence(lines[i]) && !st.inFence && IsBlank(lines[i])
    requires ScanInv(lines, i, st)
    ensures ScanInv(lines, i + 1, Step(lines, i, st))
  {
    var st' := Step(lines, i, st);
    SoundLater(lines, i, st);
    if DropsBlank(lines, i, st) {
      assert st' == st;
    } else {
      assert st' == CanonState(st.out + [[]], st.origins + [Blank(i)], false, true);
      Appended(lines, i + 1, st, st', Blank(i));
    }
  }

  lemma StepKeptKeepsInv(lines: seq<string>, i: nat, st: CanonState)
    requires i < |lines| && !IsFence(lines[i]) && !st.inFence && !IsBlank(lines[i])
    requires ScanInv(lines, i, st)
    ensures ScanInv(lines, i + 1, Step(lines, i, st))
  {
    var st' := Step(lines, i, st);
    assert st' == CanonState(st.out + [RightTrimmed(lines[i])], st.origins + [Kept(i)], false, false);
    SoundLater(lines, i, st);
    Appended(lines, i + 1, st, st', Kept(i));
  }

  /** Appending one sound line keeps the per-line part of the invariant. */
  lemma Appended(lines: seq<string>, n: nat, st: CanonState, st': CanonState, o: Origin)
    requires 0 < n <= |lines|
    requires |st.out| == |st.origins| <= n - 1
    requires forall k :: 0 <= k < |st.origins| ==> Sound(lines, n, st.origins[k])
    requires forall k :: 0 <= k < |st.origins| ==> st.origins[k].i < n
    requires forall k :: 0 <= k < |st.origins| ==> st.out[k] == Render(lines, st.origins[k])
    requires forall k :: 0 <= k < |st.origins| - 1 ==> BlankThenLine(st.origins, k)
    requires Sound(lines, n, o) && o.i < n
    requires |st.origins| > 0 && st.origins[|st.origins| - 1].Blank? ==> o.Kept? || o.Fence?
    requires st'.origins == st.origins + [o] && st'.out == st.out + [Render(lines, o)]
    ensures |st'.out| == |st'.origins| <= n
    ensures forall k :: 0 <= k < |st'.origins| ==> Sound(lines, n, st'.origins[k])
    ensures forall k :: 0 <= k < |st'.origins| ==> st'.origins[k].i < n
    ensures forall k :: 0 <= k < |st'.origins| ==> st'.out[k] == Render(lines, st'.origins[k])
    ensures forall k :: 0 <= k < |st'.origins| - 1 ==> BlankThenLine(st'.origins, k)
  {
    forall k | 0 <= k < |st'.origins| - 1
      ensures BlankThenLine(st'.origins, k)
    {
      if k < |st.origins| - 1 {
        assert BlankThenLine(st.origins, k);
      }
    }
  }

  // ---------------------------------------------------------------------
  // What the scan promises about its output
  // ---------------------------------------------------------------------

  /** An input line that must show up in the output: a non-blank line, or
      any line inside a fence. */
  predicate Emitted(lines: seq<string>, j: nat)
    requires j < |lines|
  {
    !IsBlank(lines[j]) || InsideFence(lines, j)
  }

  /** A step either leaves the state alone (a dropped blank) or appends one
      line whose origin is the current input line. */
  predicate Grows(i: nat, st: CanonState, st': CanonState)
  {
    && |st.out| == |st.origins| && |st'.out| == |st'.origins|
    && |st.origins| <= |st'.origins| <= |st.origins| + 1
    && st'.origins[..|st.origins|] == st.origins && st'.out[..|st.out|] == st.out
    && (|st'.origins| > |st.origins| ==> st'.origins[|st.origins|].i == i)
  }

  /** The step appended a line. */
  predicate Appends(st: CanonState, st': CanonState)
  {
    |st'.origins| > |st.origins|
  }

  lemma StepGrows(lines: seq<string>, i: nat, st: CanonState)
    requires i < |lines| && (st.inFence <==> InsideFence(lines, i)) && |st.out| == |st.origins|
    ensures var st' := Step(lines, i, st);
      && Grows(i, st, st')
      && (Emitted(lines, i) ==> Appends(st, st') && !st'.origins[|st.origins|].Blank?)
      && (Appends(st, st') && st'.origins[|st.origins|].Blank? ==>
            !BetweenItems(LastNonBlank(st.out), NextNonBlank(lines, i + 1)))
  {
    var st' := Step(lines, i, st);
    if IsFence(lines[i]) {
      assert st' == CanonState(st.out + [RightTrimmed(lines[i])], st.origins + [Fence(i)], !st.inFence, false);
    } else if st.inFence {
      assert st' == CanonState(st.out + [lines[i]], st.origins + [Verbatim(i)], true, false);
    } else if IsBlank(lines[i]) {
      if !DropsBlank(lines, i, st) {
        assert st' == CanonState(st.out + [[]], st.origins + [Blank(i)], false, true);
      }
    } else {
      assert st' == CanonState(st.out + [RightTrimmed(lines[i])], st.origins + [Kept(i)], false, false);
    }
  }

  /** Output lines come in input order, each input line at most once. */
  predicate Ascending(origins: seq<Origin>)
  {
    forall k1, k2 :: 0 <= k1 < k2 < |origins| ==> origins[k1].i < origins[k2].i
  }

  /** Every line that must show up does, under a non-blank origin. */
  predicate Complete(lines: seq<string>, n: nat, origins: seq<Origin>)
    requires n <= |lines|
  {
    forall j :: 0 <= j < n && Emitted(lines, j) ==>
      exists k :: 0 <= k < |origins| && origins[k].i == j && !origins[k].Blank?
  }

  /** No emitted blank line sits between two list items. */
  predicate BlanksKept(lines: seq<string>, out: seq<string>, origins: seq<Origin>)
  {
    |out| == |origins| &&
    forall k :: 0 <= k < |origins| && origins[k].Blank? ==>
      !BetweenItems(LastNonBlank(out[..k]), NextNonBlank(lines, origins[k].i + 1))
  }

  /** The two facts of the invariant the later lemmas need. */
  lemma ScanShape(lines: seq<string>, n: nat)
    requires n <= |lines|
    ensures |Scan(lines, n).out| == |Scan(lines, n).origins|
    ensures Scan(lines, n).inFence <==> InsideFence(lines, n)
  {
    ScanInvHolds(lines, n);
  }

  /** Every origin names one of the lines scanned so far. */
  lemma ScanBound(lines: seq<string>, n: nat)
    requires n <= |lines|
    ensures forall k :: 0 <= k < |Scan(lines, n).origins| ==> Scan(lines, n).origins[k].i < n
  {
    ScanInvHolds(lines, n);
  }

  lemma {:induction false} ScanAscending(lines: seq<string>, n: nat)
    requires n <= |lines|
    ensures Ascending(Scan(lines, n).origins)
  {
    if n > 0 {
      ScanAscending(lines, n - 1);
      ScanBound(lines, n - 1);
      ScanShape(lines, n - 1);
      var st := Scan(lines, n - 1);
      StepGrows(lines, n - 1, st);
      AscendingStep(n - 1, st, Step(lines, n - 1, st));
    }
  }

  lemma AscendingStep(i: nat, st: CanonState, st': CanonState)
    requires Ascending(st.origins) && Grows(i, st, st')
    requires forall k :: 0 <= k < |st.origins| ==> st.origins[k].i < i
    ensures Ascending(st'.origins)
  {
    var m := |st.origins|;
    forall k1, k2 | 0 <= k1 < k2 < |st'.origins|
      ensures st'.origins[k1].i < st'.origins[k2].i
    {
      assert st'.origins[k1] == st'.origins[..m][k1];
      if k2 < m {
        assert st'.origins[k2] == st'.origins[..m][k2];
      }
    }
  }

  lemma {:induction false} ScanComplete(lines: seq<string>, n: nat)
    requires n <= |lines|
    ensures Complete(lines, n, Scan(lines, n).origins)
  {
    if n > 0 {
      ScanComplete(lines, n - 1);
      ScanShape(lines, n - 1);
      var st := Scan(lines, n - 1);
      StepGrows(lines, n - 1, st);
      CompleteStep(lines, n, st, Step(lines, n - 1, st));
    }
  }

  lemma CompleteStep(lines: seq<string>, n: nat, st: CanonState, st': CanonState)
    requires 0 < n <= |lines|
    requires Complete(lines, n - 1, st.origins) && Grows(n - 1, st, st')
    requires Emitted(lines, n - 1) ==> Appends(st, st') && !st'.origins[|st.origins|].Blank?
    ensures Complete(lines, n, st'.origins)
  {
    var m := |st.origins|;
    forall j | 0 <= j < n && Emitted(lines, j)
      ensures exists k :: 0 <= k < |st'.origins| && st'.origins[k].i == j && !st'.origins[k].Blank?
    {
      if j < n - 1 {
        var k :| 0 <= k < m && st.origins[k].i == j && !st.origins[k].Blank?;
        assert st'.origins[k] == st'.origins[..m][k];
      } else {
        assert st'.origins[m].i == j;
      }
    }
  }

  lemma {:induction false} ScanBlanksKept(lines: seq<string>, n: nat)
    requires n <= |lines|
    ensures BlanksKept(lines, Scan(lines, n).out, Scan(lines, n).origins)
  {
    ScanShape(lines, n);
    if n > 0 {
      ScanBlanksKept(lines, n - 1);
      ScanShape(lines, n - 1);
      var st := Scan(lines, n - 1);
      StepGrows(lines, n - 1, st);
      BlanksKeptStep(lines, n, st, Step(lines, n - 1, st));
    }
  }

  lemma BlanksKeptStep(lines: seq<string>, n: nat, st: CanonState, st': CanonState)
    requires 0 < n <= |lines|
    requires BlanksKept(lines, st.out, st.origins) && Grows(n - 1, st, st')
    requires Appends(st, st') && st'.origins[|st.origins|].Blank? ==>
      !BetweenItems(LastNonBlank(st.out), NextNonBlank(lines, n))
    ensures BlanksKept(lines, st'.out, st'.origins)
  {
    var m := |st.origins|;
    forall k | 0 <= k < |st'.origins| && st'.origins[k].Blank?
      ensures !BetweenItems(LastNonBlank(st'.out[..k]), NextNonBlank(lines, st'.origins[k].i + 1))
    {
      assert st'.out[..k] == st.out[..k] by {
        if k < m { assert st'.out[..k] == st'.out[..m][..k]; }
      }
      if k < m {
        assert st'.origins[k] == st'.origins[..m][k];
      }
    }
  }

  // ---------------------------------------------------------------------
  // The returned lines
  // ---------------------------------------------------------------------

  /** How many empty lines the closing `removeFirst` loop drops. */
  function LeadingEmpties(out: seq<string>): nat
  {
    |out| - |DropLeadingEmpty(out)|
  }

  /** The origins of the lines the closing loops keep. */
  ghost function StripOrigins(out: seq<string>, origins: seq<Origin>): seq<Origin>
  {
    var a := LeadingEmpties(out);
    if a + |StripEmpty(out)| <= |origins| then origins[a..a + |StripEmpty(out)|] else []
  }

  /** The origins of the lines `canonicalizeMarkdownLines` returns. */
  ghost function CanonicalOrigins(lines: seq<string>): seq<Origin>
  {
    var st := Scan(lines, |lines|);
    StripOrigins(st.out, st.origins)
  }

  /** The closing loops keep a slice of their input; only empty lines are cut. */
  lemma StripSlice(out: seq<string>)
    ensures var a, c := LeadingEmpties(out), StripEmpty(out);
      && a + |c| <= |out|
      && c == out[a..a + |c|]
      && (forall k :: 0 <= k < a ==> out[k] == [])
      && (forall k :: a + |c| <= k < |out| ==> out[k] == [])
  {
    var d := DropLeadingEmpty(out);
    var a := |out| - |d|;
    var c := StripEmpty(out);
    DropLeadingEmptySpec(out);
    DropTrailingEmptySpec(d);
    assert c == d[..|c|];
    assert d == out[a..];
    forall k | a + |c| <= k < |out|
      ensures out[k] == []
    {
      assert out[k] == d[k - a];
    }
  }

  /** Every line is the one its origin names. */
  predicate Rendered(lines: seq<string>, out: seq<string>, origins: seq<Origin>)
  {
    && |out| == |origins|
    && forall k :: 0 <= k < |origins| ==>
         origins[k].i < |lines| && Sound(lines, |lines|, origins[k]) && out[k] == Render(lines, origins[k])
  }

  /** Output line `k` renders its origin, which is sound. */
  predicate RenderedAt(lines: seq<string>, out: seq<string>, origins: seq<Origin>, k: nat)
  {
    k < |out| && k < |origins| && origins[k].i < |lines|
    && Sound(lines, |lines|, origins[k]) && out[k] == Render(lines, origins[k])
  }

  /** Every blank line but the last is followed by a kept or fence line. */
  predicate BlanksFollowed(origins: seq<Origin>)
  {
    forall k :: 0 <= k < |origins| - 1 ==> BlankThenLine(origins, k)
  }

  lemma ScanRendered(lines: seq<string>)
    ensures |Scan(lines, |lines|).out| <= |lines|
    ensures Rendered(lines, Scan(lines, |lines|).out, Scan(lines, |lines|).origins)
  {
    ScanInvHolds(lines, |lines|);
  }

  lemma ScanBlanksFollowed(lines: seq<string>)
    ensures BlanksFollowed(Scan(lines, |lines|).origins)
  {
    ScanInvHolds(lines, |lines|);
  }

  lemma StripRendered(lines: seq<string>, out: seq<string>, origins: seq<Origin>)
    requires Rendered(lines, out, origins)
    ensures Rendered(lines, StripEmpty(out), StripOrigins(out, origins))
  {
    var a, b := LeadingEmpties(out), LeadingEmpties(out) + |StripEmpty(out)|;
    StripSlice(out);
    var o := origins[a..b];
    forall k | 0 <= k < |o|
      ensures o[k].i < |lines| && Sound(lines, |lines|, o[k]) && out[a..b][k] == Render(lines, o[k])
    {
      assert o[k] == origins[a + k];
    }
  }

  lemma StripAscending(out: seq<string>, origins: seq<Origin>)
    requires |out| == |origins| && Ascending(origins)
    ensures Ascending(StripOrigins(out, origins))
  {
    var a, b := LeadingEmpties(out), LeadingEmpties(out) + |StripEmpty(out)|;
    StripSlice(out);
    var o := origins[a..b];
    forall k1, k2 | 0 <= k1 < k2 < |o|
      ensures o[k1].i < o[k2].i
    {
      assert o[k1] == origins[a + k1] && o[k2] == origins[a + k2];
    }
  }

  lemma StripBlanksFollowed(out: seq<string>, origins: seq<Origin>)
    requires |out| == |origins| && BlanksFollowed(origins)
    ensures BlanksFollowed(StripOrigins(out, origins))
  {
    var a, b := LeadingEmpties(out), LeadingEmpties(out) + |StripEmpty(out)|;
    StripSlice(out);
    var o := origins[a..b];
    forall k | 0 <= k < |o| - 1
      ensures BlankThenLine(o, k)
    {
      assert BlankThenLine(origins, a + k);
      assert o[k] == origins[a + k] && o[k + 1] == origins[a + k + 1];
    }
  }

  /** The result is no longer than the input and neither starts nor ends
      with an empty line. */
  lemma CanonicalEnds(lines: seq<string>)
    ensures var out := Canonical(lines);
      && |out| <= |lines|
      && (out == [] || (out[0] != [] && out[|out| - 1] != []))
  {
    ScanRendered(lines);
    StrippedEnds(Scan(lines, |lines|).out);
  }

  /** Every returned line is the line its origin names. */
  lemma CanonicalRendered(lines: seq<string>)
    ensures Rendered(lines, Canonical(lines), CanonicalOrigins(lines))
  {
    var st := Scan(lines, |lines|);
    ScanRendered(lines);
    StripRendered(lines, st.out, st.origins);
  }

  /** The returned lines keep the input order, each input line at most once. */
  lemma CanonicalAscending(lines: seq<string>)
    ensures Ascending(CanonicalOrigins(lines))
  {
    var st := Scan(lines, |lines|);
    ScanShape(lines, |lines|);
    ScanAscending(lines, |lines|);
    StripAscending(st.out, st.origins);
  }

  /** A returned blank line is always followed by a kept or a fence line. */
  lemma CanonicalBlanksFollowed(lines: seq<string>)
    ensures BlanksFollowed(CanonicalOrigins(lines))
  {
    var st := Scan(lines, |lines|);
    ScanShape(lines, |lines|);
    ScanBlanksFollowed(lines);
    StripBlanksFollowed(st.out, st.origins);
  }

  /** After both closing loops neither end of the result is empty. */
  lemma StrippedEnds(s: seq<string>)
    ensures var r := DropTrailingEmpty(DropLeadingEmpty(s));
      r == [] || (r[0] != [] && r[|r| - 1] != [])
  {
    var d := DropLeadingEmpty(s);
    var r := DropTrailingEmpty(d);
    DropLeadingEmptySpec(s);
    DropTrailingEmptySpec(d);
    if r != [] {
      assert r[0] == d[..|r|][0];
    }
  }

  /** Nothing but blank lines ends in a space or a tab once right-trimmed. */
  predicate NoTrailingSpace(s: string)
  {
    s == [] || s[|s| - 1] !in Whitespaces
  }

  /** An output line that stands for a kept or a fence line is never empty. */
  lemma RenderNonEmpty(lines: seq<string>, o: Origin)
    requires o.i < |lines| && Sound(lines, |lines|, o) && (o.Kept? || o.Fence?)
    ensures Render(lines, o) != []
  {
    var line := lines[o.i];
    if o.Fence? {
      TrimEmptyIffAllIn(line, Whitespaces);
      DropLastEmptyIffAllIn(line, Whitespaces);
    }
  }

  /** Outside fences no returned line carries a trailing space or tab. */
  lemma CanonicalRightTrimmed(lines: seq<string>)
    ensures var out, org := Canonical(lines), CanonicalOrigins(lines);
      |out| == |org| && forall k :: 0 <= k < |out| && !org[k].Verbatim? ==> NoTrailingSpace(out[k])
  {
    var out, org := Canonical(lines), CanonicalOrigins(lines);
    CanonicalRendered(lines);
    forall k | 0 <= k < |out| && !org[k].Verbatim?
      ensures NoTrailingSpace(out[k])
    {
      DropLastWhileInSpec(lines[org[k].i], Whitespaces);
    }
  }

  /** Outside fences a run of blank lines comes out as one empty line: an
      empty line that is not fenced text is followed by a non-empty line that
      is not fenced text either. */
  lemma CanonicalCollapsesBlankRuns(lines: seq<string>)
    ensures var out, org := Canonical(lines), CanonicalOrigins(lines);
      |out| == |org| &&
      forall k :: 0 <= k < |out| - 1 && out[k] == [] && !org[k].Verbatim? ==>
        out[k + 1] != [] && !org[k + 1].Verbatim?
  {
    var out, org := Canonical(lines), CanonicalOrigins(lines);
    CanonicalRendered(lines);
    CanonicalBlanksFollowed(lines);
    forall k | 0 <= k < |out| - 1 && out[k] == [] && !org[k].Verbatim?
      ensures out[k + 1] != [] && !org[k + 1].Verbatim?
    {
      if !org[k].Blank? {
        RenderNonEmpty(lines, org[k]);
      }
      assert BlankThenLine(org, k);
      RenderNonEmpty(lines, org[k + 1]);
    }
  }

  /** Every non-blank input line is returned, under its own origin. */
  lemma CanonicalComplete(lines: seq<string>)
    ensures var org := CanonicalOrigins(lines);
      forall j :: 0 <= j < |lines| && !IsBlank(lines[j]) ==>
        exists k :: 0 <= k < |org| && org[k].i == j && !org[k].Blank?
  {
    var st := Scan(lines, |lines|);
    ScanRendered(lines);
    ScanComplete(lines, |lines|);
    StripComplete(lines, st.out, st.origins);
    assert CanonicalOrigins(lines) == StripOrigins(st.out, st.origins);
  }

  /** Cutting empty lines off both ends loses no non-blank input line. */
  lemma StripComplete(lines: seq<string>, out: seq<string>, origins: seq<Origin>)
    requires Rendered(lines, out, origins) && Complete(lines, |lines|, origins)
    ensures var org := StripOrigins(out, origins);
      forall j :: 0 <= j < |lines| && !IsBlank(lines[j]) ==>
        exists k :: 0 <= k < |org| && org[k].i == j && !org[k].Blank?
  {
    var a, b := LeadingEmpties(out), LeadingEmpties(out) + |StripEmpty(out)|;
    StripOriginsSlice(out, origins);
    forall j | 0 <= j < |lines| && !IsBlank(lines[j])
      ensures exists k :: 0 <= k < b - a && origins[a..b][k].i == j && !origins[a..b][k].Blank?
    {
      assert Emitted(lines, j);
      var k :| 0 <= k < |origins| && origins[k].i == j && !origins[k].Blank?;
      EmittedKept(lines, out, origins[k], k);
      SliceAt(origins, a, b, k);
    }
  }

  lemma StripOriginsSlice(out: seq<string>, origins: seq<Origin>)
    requires |out| == |origins|
    ensures var a := LeadingEmpties(out);
      && a + |StripEmpty(out)| <= |origins|
      && StripOrigins(out, origins) == origins[a..a + |StripEmpty(out)|]
  {
    StripSlice(out);
  }

  lemma SliceAt(origins: seq<Origin>, a: nat, b: nat, k: nat)
    requires a <= k < b <= |origins|
    ensures origins[a..b][k - a] == origins[k]
  {
  }

  /** The line that stands for a non-blank input line survives the closing loops. */
  lemma EmittedKept(lines: seq<string>, out: seq<string>, o: Origin, k: nat)
    requires k < |out| && o.i < |lines| && !o.Blank? && !IsBlank(lines[o.i])
    requires Sound(lines, |lines|, o) && out[k] == Render(lines, o)
    ensures LeadingEmpties(out) <= k < LeadingEmpties(out) + |StripEmpty(out)|
  {
    if !o.Verbatim? {
      RenderNonEmpty(lines, o);
    }
    StripKeepsNonEmpty(out, k);
  }

  /** The closing loops keep every non-empty line. */
  lemma StripKeepsNonEmpty(out: seq<string>, k: nat)
    requires k < |out| && out[k] != []
    ensures LeadingEmpties(out) <= k < LeadingEmpties(out) + |StripEmpty(out)|
  {
    StripSlice(out);
  }

  /** Empty lines in front do not change the last non-blank line. */
  lemma {:induction false} LastNonBlankAfterEmpties(x: seq<string>, y: seq<string>)
    requires forall k :: 0 <= k < |x| ==> x[k] == []
    ensures LastNonBlank(x + y) == LastNonBlank(y)
    decreases |x| + |y|
  {
    if |y| == 0 {
      assert x + y == x;
      if |x| > 0 {
        LastNonBlankAfterEmpties(x[..|x| - 1], []);
        assert x[..|x| - 1] + [] == x[..|x| - 1];
      }
    } else {
      assert (x + y)[..|x + y| - 1] == x + y[..|y| - 1];
      LastNonBlankAfterEmpties(x, y[..|y| - 1]);
    }
  }

  /** No returned blank line sits between two list items: the last non-blank
      line before it and the next non-blank input line after the blank line
      it stands for are not both list items. */
  lemma CanonicalBlankNotBetweenItems(lines: seq<string>)
    ensures var out, org := Canonical(lines), CanonicalOrigins(lines);
      BlanksKept(lines, out, org)
  {
    var st := Scan(lines, |lines|);
    ScanBlanksKept(lines, |lines|);
    StripBlanksKept(lines, st.out, st.origins);
  }

  /** Cutting empty lines off the front does not change what precedes a blank. */
  lemma StripBlanksKept(lines: seq<string>, out: seq<string>, origins: seq<Origin>)
    requires BlanksKept(lines, out, origins)
    ensures BlanksKept(lines, StripEmpty(out), StripOrigins(out, origins))
  {
    var a, b := LeadingEmpties(out), LeadingEmpties(out) + |StripEmpty(out)|;
    StripSlice(out);
    StripOriginsSlice(out, origins);
    forall k | 0 <= k < b - a && origins[a..b][k].Blank?
      ensures !BetweenItems(LastNonBlank(out[a..b][..k]), NextNonBlank(lines, origins[a..b][k].i + 1))
    {
      BlankKeptAfterEmpties(lines, out, origins, a, b, k);
    }
  }

  /** One blank line of `BlanksKept`, seen from a slice that starts after empty lines. */
  lemma BlankKeptAfterEmpties(lines: seq<string>, out: seq<string>, origins: seq<Origin>, a: nat, b: nat, k: nat)
    requires a + k < b <= |out| == |origins|
    requires forall i :: 0 <= i < a ==> out[i] == []
    requires origins[a + k].Blank? ==>
      !BetweenItems(LastNonBlank(out[..a + k]), NextNonBlank(lines, origins[a + k].i + 1))
    ensures origins[a..b][k].Blank? ==>
      !BetweenItems(LastNonBlank(out[a..b][..k]), NextNonBlank(lines, origins[a..b][k].i + 1))
  {
    assert origins[a..b][k] == origins[a + k];
    assert out[..a + k] == out[..a] + out[a..b][..k];
    LastNonBlankAfterEmpties(out[..a], out[a..b][..k]);
  }

  // ---------------------------------------------------------------------
  // Blank runs between two lines of text
  // ---------------------------------------------------------------------

  /** A line with visible text: not blank even when newlines and vertical
      spaces count as blank, so the look-back of a later blank line stops
      at it. */
  predicate Visible(line: string)
  {
    Trim(RightTrimmed(line), WhitespacesAndNewlines) != []
  }

  /** A blank line is never a fence line. */
  lemma BlankNotFence(line: string)
    requires IsBlank(line)
    ensures !IsFence(line)
  {
    DropLastEmptyIffAllIn(line, Whitespaces);
    TrimEmptyIffAllIn(line, Whitespaces);
  }

  /** The look-ahead from inside a blank run finds the line that ends it. */
  lemma {:induction false} NextNonBlankAcrossBlanks(lines: seq<string>, j: nat, b: nat)
    requires j <= b < |lines| && !IsBlank(lines[b])
    requires forall i :: j <= i < b ==> IsBlank(lines[i])
    ensures NextNonBlank(lines, j) == Some(RightTrimmed(lines[b]))
    decreases b - j
  {
    if j < b {
      NextNonBlankAcrossBlanks(lines, j + 1, b);
    }
  }

  lemma PrefixOfPrefix(p: seq<Origin>, q: seq<Origin>, r: seq<Origin>)
    requires |p| <= |q| <= |r| && q[..|p|] == p && r[..|q|] == q
    ensures r[..|p|] == p
  {
    assert r[..|p|] == q[..|p|];
  }

  /** Earlier states of the scan are prefixes of later ones. */
  lemma {:induction false} ScanPrefix(lines: seq<string>, m: nat, n: nat)
    requires m <= n <= |lines|
    ensures |Scan(lines, m).origins| <= |Scan(lines, n).origins|
    ensures Scan(lines, n).origins[..|Scan(lines, m).origins|] == Scan(lines, m).origins
    decreases n - m
  {
    if m < n {
      ScanPrefix(lines, m, n - 1);
      ScanShape(lines, n - 1);
      StepGrows(lines, n - 1, Scan(lines, n - 1));
      PrefixOfPrefix(Scan(lines, m).origins, Scan(lines, n - 1).origins, Scan(lines, n).origins);
    }
  }

  /** The state right after a visible line outside any fence: its line comes
      last, and neither a fence nor a blank line is open. */
  lemma AfterVisible(lines: seq<string>, a: nat)
    requires a < |lines| && Visible(lines[a]) && !InsideFence(lines, a + 1)
    ensures var st := Scan(lines, a + 1);
      && |st.out| == |st.origins| > 0
      && st.origins[|st.origins| - 1].i == a && !st.origins[|st.origins| - 1].Blank?
      && !st.inFence && !st.prevBlank
      && LastNonBlank(st.out) == Some(RightTrimmed(lines[a]))
  {
    var st := Scan(lines, a + 1);
    assert RightTrimmed(lines[a]) != [];
    ScanShape(lines, a);
    StepGrows(lines, a, Scan(lines, a));
    ScanInvHolds(lines, a + 1);
    var o := st.origins[|st.origins| - 1];
    assert Sound(lines, a + 1, o);
    assert st.out[|st.out| - 1] == Render(lines, o);
  }

  /** The first blank line after a visible line outside fences, when the
      lines around the run are not both list items, is emitted as an empty line. */
  lemma BlankRunOpens(lines: seq<string>, a: nat, b: nat)
    requires a + 2 <= b < |lines|
    requires Visible(lines[a]) && !InsideFence(lines, a + 1) && !IsBlank(lines[b])
    requires forall i :: a < i < b ==> IsBlank(lines[i])
    requires !(IsListItem(RightTrimmed(lines[a])) && IsListItem(RightTrimmed(lines[b])))
    ensures var st := Scan(lines, a + 1);
      Scan(lines, a + 2) == CanonState(st.out + [[]], st.origins + [Blank(a + 1)], false, true)
  {
    var st := Scan(lines, a + 1);
    AfterVisible(lines, a);
    NextNonBlankAcrossBlanks(lines, a + 2, b);
    BlankNotFence(lines[a + 1]);
    assert !DropsBlank(lines, a + 1, st);
  }

  /** A blank line right after an emitted blank line, outside fences, is dropped. */
  lemma BlankAfterBlank(lines: seq<string>, j: nat, st: CanonState)
    requires 0 < j <= |lines| && IsBlank(lines[j - 1])
    requires Scan(lines, j - 1) == st && st.prevBlank && !st.inFence
    ensures Scan(lines, j) == st
  {
    BlankNotFence(lines[j - 1]);
  }

  /** A blank line between two list items, after a visible line outside
      fences, is dropped. */
  lemma BlankBetweenItems(lines: seq<string>, a: nat, b: nat, i: nat)
    requires a < i < b < |lines|
    requires Visible(lines[a]) && !InsideFence(lines, a + 1) && !IsBlank(lines[b])
    requires forall k :: a < k < b ==> IsBlank(lines[k])
    requires IsListItem(RightTrimmed(lines[a])) && IsListItem(RightTrimmed(lines[b]))
    ensures Step(lines, i, Scan(lines, a + 1)) == Scan(lines, a + 1)
  {
    AfterVisible(lines, a);
    NextNonBlankAcrossBlanks(lines, i + 1, b);
    BlankNotFence(lines[i]);
    assert DropsBlank(lines, i, Scan(lines, a + 1));
  }

  /** Lines whose steps all leave the state alone leave the scan where it was. */
  lemma {:induction false} ScanStays(lines: seq<string>, lo: nat, hi: nat, st: CanonState)
    requires lo <= hi <= |lines| && Scan(lines, lo) == st
    requires forall i :: lo <= i < hi ==> Step(lines, i, st) == st
    ensures Scan(lines, hi) == st
    decreases hi
  {
    if lo < hi {
      ScanStays(lines, lo, hi - 1, st);
    }
  }

  /** The blank run after a visible line, when it is not between two list
      items: its first line is emitted and the rest are dropped. */
  lemma {:induction false} BlankRunKept(lines: seq<string>, a: nat, b: nat, j: nat)
    requires a + 2 <= j <= b < |lines|
    requires Visible(lines[a]) && !InsideFence(lines, a + 1) && !IsBlank(lines[b])
    requires forall i :: a < i < b ==> IsBlank(lines[i])
    requires !(IsListItem(RightTrimmed(lines[a])) && IsListItem(RightTrimmed(lines[b])))
    ensures var st := Scan(lines, a + 1);
      Scan(lines, j) == CanonState(st.out + [[]], st.origins + [Blank(a + 1)], false, true)
    decreases j
  {
    if j == a + 2 {
      BlankRunOpens(lines, a, b);
    } else {
      BlankRunKept(lines, a, b, j - 1);
      var st := Scan(lines, a + 1);
      BlankAfterBlank(lines, j, CanonState(st.out + [[]], st.origins + [Blank(a + 1)], false, true));
    }
  }

  /** The blank run after a visible line, when it is between two list items:
      every line of it is dropped. */
  lemma BlankRunDropped(lines: seq<string>, a: nat, b: nat, j: nat)
    requires a + 1 <= j <= b < |lines|
    requires Visible(lines[a]) && !InsideFence(lines, a + 1) && !IsBlank(lines[b])
    requires forall i :: a < i < b ==> IsBlank(lines[i])
    requires IsListItem(RightTrimmed(lines[a])) && IsListItem(RightTrimmed(lines[b]))
    ensures Scan(lines, j) == Scan(lines, a + 1)
  {
    var st := Scan(lines, a + 1);
    forall i | a + 1 <= i < j
      ensures Step(lines, i, st) == st
    {
      BlankBetweenItems(lines, a, b, i);
    }
    ScanStays(lines, a + 1, j, st);
  }

  /** The line after a blank run outside fences is emitted right behind
      what the scan held before it. */
  lemma AfterRun(lines: seq<string>, b: nat, st: CanonState)
    requires b < |lines| && !IsBlank(lines[b]) && st == Scan(lines, b) && !st.inFence
    ensures |Scan(lines, b + 1).origins| == |st.origins| + 1
    ensures Scan(lines, b + 1).origins[..|st.origins|] == st.origins
    ensures Scan(lines, b + 1).origins[|st.origins|].i == b
    ensures !Scan(lines, b + 1).origins[|st.origins|].Blank?
  {
    ScanShape(lines, b);
    StepGrows(lines, b, st);
  }

  /** Output lines `p .. q` of the scan survive the closing loops, in place,
      when both ends stand for non-blank input lines. */
  lemma StripWindow(lines: seq<string>, out: seq<string>, origins: seq<Origin>, p: nat, q: nat)
    requires |out| == |origins| && p <= q < |origins|
    requires origins[p].i < |lines| && Sound(lines, |lines|, origins[p]) && out[p] == Render(lines, origins[p])
    requires origins[q].i < |lines| && Sound(lines, |lines|, origins[q]) && out[q] == Render(lines, origins[q])
    requires !origins[p].Blank? && !IsBlank(lines[origins[p].i])
    requires !origins[q].Blank? && !IsBlank(lines[origins[q].i])
    ensures LeadingEmpties(out) <= p
    ensures q < LeadingEmpties(out) + |StripEmpty(out)| == LeadingEmpties(out) + |StripOrigins(out, origins)|
    ensures forall k :: p <= k <= q ==> StripOrigins(out, origins)[k - LeadingEmpties(out)] == origins[k]
  {
    EmittedKept(lines, out, origins[p], p);
    EmittedKept(lines, out, origins[q], q);
    StripOriginsSlice(out, origins);
    var a, c := LeadingEmpties(out), StripEmpty(out);
    forall k | p <= k <= q
      ensures StripOrigins(out, origins)[k - a] == origins[k]
    {
      SliceAt(origins, a, a + |c|, k);
    }
  }

  /** Where the scan puts a blank run that follows a visible line: the
      visible line at `m`, then the emitted blank when the run is kept, then
      the line that ends the run. */
  predicate RunAt(lines: seq<string>, origins: seq<Origin>, a: nat, b: nat, keep: bool, m: nat)
  {
    var d := if keep then 2 else 1;
    && m + d < |origins|
    && origins[m].i == a && !origins[m].Blank?
    && origins[m + d].i == b && !origins[m + d].Blank?
    && (keep ==> origins[m + 1] == Blank(a + 1))
  }

  /** Whether the scan keeps one blank line of the run between `a` and `b`. */
  predicate KeepsBlank(lines: seq<string>, a: nat, b: nat)
    requires a < b < |lines|
  {
    a + 1 < b && !(IsListItem(RightTrimmed(lines[a])) && IsListItem(RightTrimmed(lines[b])))
  }

  /** The run's shape read off the origins around it: the visible line last
      before the run, the blank the run leaves (if any), then the line after. */
  lemma RunFromParts(lines: seq<string>, before: seq<Origin>, during: seq<Origin>, after: seq<Origin>,
                     a: nat, b: nat, keep: bool)
    requires |before| > 0 && before[|before| - 1].i == a && !before[|before| - 1].Blank?
    requires during == if keep then before + [Blank(a + 1)] else before
    requires |after| == |during| + 1 && after[..|during|] == during
    requires after[|during|].i == b && !after[|during|].Blank?
    ensures RunAt(lines, after, a, b, keep, |before| - 1)
  {
    var m := |before| - 1;
    assert after[m] == during[m] == before[m];
    assert keep ==> after[m + 1] == during[m + 1];
  }

  lemma RunInPrefix(lines: seq<string>, a: nat, b: nat) returns (m: nat)
    requires a < b < |lines|
    requires Visible(lines[a]) && !InsideFence(lines, a + 1) && !IsBlank(lines[b])
    requires forall i :: a < i < b ==> IsBlank(lines[i])
    ensures RunAt(lines, Scan(lines, b + 1).origins, a, b, KeepsBlank(lines, a, b), m)
  {
    AfterVisible(lines, a);
    var st0 := Scan(lines, a + 1);
    var keep := KeepsBlank(lines, a, b);
    var during: seq<Origin>;
    if keep {
      BlankRunKept(lines, a, b, b);
      during := st0.origins + [Blank(a + 1)];
    } else {
      if a + 1 < b {
        BlankRunDropped(lines, a, b, b);
      }
      during := st0.origins;
    }
    var stb := Scan(lines, b);
    assert stb.origins == during && !stb.inFence;
    AfterRun(lines, b, stb);
    m := |st0.origins| - 1;
    RunFromParts(lines, st0.origins, during, Scan(lines, b + 1).origins, a, b, keep);
  }

  lemma RunInScan(lines: seq<string>, a: nat, b: nat) returns (m: nat)
    requires a < b < |lines|
    requires Visible(lines[a]) && !InsideFence(lines, a + 1) && !IsBlank(lines[b])
    requires forall i :: a < i < b ==> IsBlank(lines[i])
    ensures RunAt(lines, Scan(lines, |lines|).origins, a, b, KeepsBlank(lines, a, b), m)
  {
    m := RunInPrefix(lines, a, b);
    ScanPrefix(lines, b + 1, |lines|);
    var P, F := Scan(lines, b + 1).origins, Scan(lines, |lines|).origins;
    var keep := KeepsBlank(lines, a, b);
    var d := if keep then 2 else 1;
    assert F[m] == P[m] && F[m + d] == P[m + d];
    assert keep ==> F[m + 1] == P[m + 1];
  }

  /** The closing loops keep such a run as it is, from position `k` on. */
  lemma StripRun(lines: seq<string>, out: seq<string>, origins: seq<Origin>, a: nat, b: nat, keep: bool, m: nat)
    returns (k: nat)
    requires a < b < |lines| && !IsBlank(lines[a]) && !IsBlank(lines[b])
    requires |out| == |origins| && RunAt(lines, origins, a, b, keep, m)
    requires RenderedAt(lines, out, origins, m) && RenderedAt(lines, out, origins, m + 1)
    requires !keep || RenderedAt(lines, out, origins, m + 2)
    ensures |StripEmpty(out)| == |StripOrigins(out, origins)|
    ensures k < |StripOrigins(out, origins)| && StripOrigins(out, origins)[k].i == a && !StripOrigins(out, origins)[k].Blank?
    ensures keep ==>
      && k + 2 < |StripOrigins(out, origins)| && StripOrigins(out, origins)[k + 1] == Blank(a + 1)
      && StripEmpty(out)[k + 1] == [] && StripOrigins(out, origins)[k + 2].i == b
    ensures !keep ==> k + 1 < |StripOrigins(out, origins)| && StripOrigins(out, origins)[k + 1].i == b
  {
    var d := if keep then 2 else 1;
    StripWindow(lines, out, origins, m, m + d);
    var c, org := StripEmpty(out), StripOrigins(out, origins);
    k := m - LeadingEmpties(out);
    assert org[k] == origins[m] && org[k + d] == origins[m + d];
    if keep {
      assert org[k + 1] == origins[m + 1];
      assert out[m + 1] == Render(lines, origins[m + 1]) == [];
      StripSlice(out);
      assert c[k + 1] == out[m + 1];
    }
  }

  /** A run of blank lines outside fences after a line of text comes out as
      exactly one empty line between that line and the next visible one;
      when both neighbours are list items, or when there is no blank line
      between them, they come out side by side. */
  lemma CanonicalBlankRun(lines: seq<string>, a: nat, b: nat)
    requires a < b < |lines|
    requires Visible(lines[a]) && !InsideFence(lines, a + 1) && !IsBlank(lines[b])
    requires forall i :: a < i < b ==> IsBlank(lines[i])
    ensures |Canonical(lines)| == |CanonicalOrigins(lines)|
    ensures KeepsBlank(lines, a, b) ==> exists j ::
      && 0 <= j && j + 2 < |CanonicalOrigins(lines)| && j + 1 < |Canonical(lines)|
      && CanonicalOrigins(lines)[j].i == a && !CanonicalOrigins(lines)[j].Blank?
      && CanonicalOrigins(lines)[j + 1] == Blank(a + 1) && Canonical(lines)[j + 1] == []
      && CanonicalOrigins(lines)[j + 2].i == b
    ensures !KeepsBlank(lines, a, b) ==> exists j ::
      && 0 <= j && j + 1 < |CanonicalOrigins(lines)|
      && CanonicalOrigins(lines)[j].i == a && !CanonicalOrigins(lines)[j].Blank?
      && CanonicalOrigins(lines)[j + 1].i == b
  {
    var m := RunInScan(lines, a, b);
    var F := Scan(lines, |lines|);
    ScanRendered(lines);
    assert RightTrimmed(lines[a]) != [];
    assert RenderedAt(lines, F.out, F.origins, m) && RenderedAt(lines, F.out, F.origins, m + 1);
    assert KeepsBlank(lines, a, b) ==> RenderedAt(lines, F.out, F.origins, m + 2);
    var k := StripRun(lines, F.out, F.origins, a, b, KeepsBlank(lines, a, b), m);
    assert Canonical(lines) == StripEmpty(F.out) && CanonicalOrigins(lines) == StripOrigins(F.out, F.origins);
    if KeepsBlank(lines, a, b) {
      assert CanonicalOrigins(lines)[k].i == a && CanonicalOrigins(lines)[k + 1] == Blank(a + 1);
    } else {
      assert CanonicalOrigins(lines)[k].i == a && CanonicalOrigins(lines)[k + 1].i == b;
    }
  }
}
