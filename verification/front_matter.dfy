/** YAML front matter as the hand-written scanner reads it
    (Sources/UMAFCore/Parsing/Markdown/LineScanner.swift, `stripOuterQuotes`
    and the front-matter block of `parseSemanticStructure`) and as
    `parseFrontMatter` in SwiftMarkdownAdapter.swift reads it. Both read
    `key: value` lines after an opening `---` line; they differ when no
    closing `---` follows. */
module FrontMatter {
  import opened Wrappers
  import opened Text
  import opened CoreModels

  /** `stripOuterQuotes`: one matching pair of `"` or `'` around a value of
      length at least 2 is removed. */
  function StripOuterQuotes(value: string): (r: string)
    ensures |value| >= 2 && value[0] == value[|value| - 1] && value[0] in {'"', '\''}
      ==> r == value[1..|value| - 1]
    ensures !(|value| >= 2 && value[0] == value[|value| - 1] && value[0] in {'"', '\''})
      ==> r == value
  {
    if |value| < 2 then value
    else if (value[0] == '"' && value[|value| - 1] == '"')
         || (value[0] == '\'' && value[|value| - 1] == '\'') then value[1..|value| - 1]
    else value
  }

  /** Quoting a value and stripping the quotes gives the value back. */
  lemma StripQuotedValue(s: string, q: char)
    requires q == '"' || q == '\''
    ensures StripOuterQuotes([q] + s + [q]) == s
  {
    var v := [q] + s + [q];
    assert v[1..|v| - 1] == s;
  }

  /** The entry a trimmed front-matter line `t` holds: the text before the
      first `:` is the key, the text after it the value, both trimmed, and
      the value loses one pair of outer quotes; no colon or an empty key
      gives no entry. */
  function EntryOf(t: string): Option<FrontMatterEntry>
  {
    var colon := IndexOf(t, ':');
    if colon == |t| then None
    else
      var key := Trim(t[..colon], Whitespaces);
      var value := StripOuterQuotes(Trim(t[colon + 1..], Whitespaces));
      if key == [] then None else Some(FrontMatterEntry(key, value))
  }

  /** An entry's key is non-empty, has no colon and no surrounding spaces or tabs. */
  lemma EntryOfSpec(t: string)
    ensures EntryOf(t).Some? <==> ':' in t && Trim(t[..IndexOf(t, ':')], Whitespaces) != []
    ensures EntryOf(t).Some? ==>
      var e := EntryOf(t).value;
      && e.key != []
      && ':' !in e.key
      && e.key[0] !in Whitespaces && e.key[|e.key| - 1] !in Whitespaces
  {
    IndexOfSpec(t, ':');
    if EntryOf(t).Some? {
      var colon := IndexOf(t, ':');
      var d := DropWhileIn(t[..colon], Whitespaces);
      DropWhileInSpec(t[..colon], Whitespaces);
      DropLastWhileInSpec(d, Whitespaces);
      var key := EntryOf(t).value.key;
      assert key == d[..|key|];
      forall c | c in key
        ensures c != ':'
      {
        var k :| 0 <= k < |key| && key[k] == c;
        assert key[k] == t[..colon][|t[..colon]| - |d| + k];
      }
    }
  }

  /** The lines the emitters write, `key: value`, read back as the same
      entry when the key is a trimmed colon-free word and the value is
      trimmed and not wrapped in quotes. */
  lemma EntryLineRoundTrip(key: string, value: string)
    requires key != [] && ':' !in key
    requires key[0] !in Whitespaces && key[|key| - 1] !in Whitespaces
    requires value == [] || (value[0] !in Whitespaces && value[|value| - 1] !in Whitespaces)
    requires StripOuterQuotes(value) == value
    ensures EntryOf(key + ": " + value) == Some(FrontMatterEntry(key, value))
  {
    var t := key + ": " + value;
    assert t[..|key|] == key;
    IndexOfFirst(t, ':', |key|);
    assert t[|key| + 1..] == [' '] + value;
    TrimOfTrimmed(key);
    TrimAfterSpace(value);
  }

  /** A text with no space or tab at either end is its own trim. */
  lemma TrimOfTrimmed(s: string)
    requires s == [] || (s[0] !in Whitespaces && s[|s| - 1] !in Whitespaces)
    ensures Trim(s, Whitespaces) == s
  {
  }

  lemma TrimAfterSpace(s: string)
    requires s == [] || (s[0] !in Whitespaces && s[|s| - 1] !in Whitespaces)
    ensures Trim([' '] + s, Whitespaces) == s
  {
    assert ([' '] + s)[1..] == s;
    assert DropWhileIn([' '] + s, Whitespaces) == DropWhileIn(s, Whitespaces);
    TrimOfTrimmed(s);
  }

  /** Whether the first line trims to `---`. */
  predicate Opens(lines: seq<string>)
  {
    |lines| > 0 && Trim(lines[0], Whitespaces) == "---"
  }

  predicate IsDelimiter(line: string)
  {
    Trim(line, Whitespaces) == "---"
  }

  /** The first delimiter line at or after `i`. */
  function FindClose(lines: seq<string>, i: nat): (c: Option<nat>)
    ensures c.Some? ==> i <= c.value < |lines| && IsDelimiter(lines[c.value])
    decreases |lines| - i
  {
    if i >= |lines| then None
    else if IsDelimiter(lines[i]) then Some(i)
    else FindClose(lines, i + 1)
  }

  /** The entry one front-matter line contributes, if any. */
  function LineEntry(line: string): (r: seq<FrontMatterEntry>)
    ensures |r| <= 1
  {
    var t := Trim(line, Whitespaces);
    if t != [] && EntryOf(t).Some? then [EntryOf(t).value] else []
  }

  /** The entries of a run of front-matter lines, in order. */
  function EntriesOf(lines: seq<string>): seq<FrontMatterEntry>
  {
    if |lines| == 0 then [] else LineEntry(lines[0]) + EntriesOf(lines[1..])
  }

  /** The scanner's front matter: the entries and the index of the first
      line after it (`startIndex`). */
  datatype Header = Header(entries: seq<FrontMatterEntry>, next: nat)

  /** The scanner's `while i < allLines.count` loop from line `i` on. */
  function ReadFrom(lines: seq<string>, i: nat): (h: Header)
    ensures i <= h.next
    decreases |lines| - i
  {
    if i >= |lines| then Header([], i)
    else
      var t := Trim(lines[i], Whitespaces);
      if t == "---" then Header([], i + 1)
      else
        var rest := ReadFrom(lines, i + 1);
        Header(LineEntry(lines[i]) + rest.entries, rest.next)
  }

  lemma ReadFromStep(lines: seq<string>, i: nat)
    requires i < |lines| && !IsDelimiter(lines[i])
    ensures ReadFrom(lines, i).entries == LineEntry(lines[i]) + ReadFrom(lines, i + 1).entries
    ensures ReadFrom(lines, i).next == ReadFrom(lines, i + 1).next
  {
  }

  /** The front matter of `parseSemanticStructure` for markdown. */
  function ScannerHeader(lines: seq<string>): Header
  {
    if Opens(lines) then ReadFrom(lines, 1) else Header([], 0)
  }

  /** The scanner reads up to and including the closing `---`, or every
      remaining line when there is none, and keeps the entries of the lines
      in between. */
  lemma {:induction false} ReadFromSpec(lines: seq<string>, i: nat)
    requires i <= |lines|
    ensures var h := ReadFrom(lines, i);
      match FindClose(lines, i)
      case Some(c) => h.next == c + 1 && h.entries == EntriesOf(lines[i..c])
      case None => h.next == |lines| && h.entries == EntriesOf(lines[i..])
    decreases |lines| - i
  {
    if i < |lines| && !IsDelimiter(lines[i]) {
      ReadFromSpec(lines, i + 1);
      match FindClose(lines, i + 1)
      case Some(c) =>
        assert lines[i..c][1..] == lines[i + 1..c];
      case None =>
        assert lines[i..][1..] == lines[i + 1..];
    } else if i < |lines| {
      assert lines[i..i] == [];
    }
  }

  /** The scanner's front-matter loop. */
  method ReadFrontMatter(lines: seq<string>) returns (entries: seq<FrontMatterEntry>, startIndex: nat)
    ensures Header(entries, startIndex) == ScannerHeader(lines)
  {
    entries := [];
    startIndex := 0;
    if |lines| > 0 && Trim(lines[0], Whitespaces) == "---" {
      var i := 1;
      while i < |lines|
        invariant 1 <= i <= |lines|
        invariant FindClose(lines, i) == FindClose(lines, 1)
        invariant entries == EntriesOf(lines[1..i])
        decreases |lines| - i
      {
        var t := Trim(lines[i], Whitespaces);
        if t == "---" {
          assert FindClose(lines, 1) == Some(i);
          i := i + 1;
          break;
        }
        ghost var before := entries;
        if t != [] {
          var entry := EntryOf(t);
          if entry.Some? {
            entries := entries + [entry.value];
          }
        }
        EntriesOfSnoc(lines[1..i], lines[i]);
        SliceSnoc(lines, 1, i);
        i := i + 1;
      }
      ReadFromSpec(lines, 1);
      assert lines[1..|lines|] == lines[1..];
      startIndex := i;
    }
  }

  /** `parseFrontMatter`: the entries and the closing line's index, or
      `([], -1)` when the first line does not open front matter or no line
      closes it. */
  function AdapterFrontMatter(lines: seq<string>): AdapterHeader
  {
    if !Opens(lines) then AdapterHeader([], -1)
    else match FindClose(lines, 1)
      case None => AdapterHeader([], -1)
      case Some(c) => AdapterHeader(EntriesOf(lines[1..c]), c)
  }

  /** What `parseFrontMatter` returns. */
  datatype AdapterHeader = AdapterHeader(entries: seq<FrontMatterEntry>, endLineIndex: int)

  /** The `for (index, line) in sourceLines.enumerated().dropFirst()` loop of `parseFrontMatter`. */
  method ParseFrontMatter(lines: seq<string>) returns (entries: seq<FrontMatterEntry>, endLineIndex: int)
    ensures AdapterHeader(entries, endLineIndex) == AdapterFrontMatter(lines)
  {
    if !(|lines| > 0 && Trim(lines[0], Whitespaces) == "---") {
      return [], -1;
    }
    entries := [];
    endLineIndex := -1;
    var index := 1;
    while index < |lines|
      invariant 1 <= index <= |lines|
      invariant endLineIndex == -1
      invariant FindClose(lines, index) == FindClose(lines, 1)
      invariant entries == EntriesOf(lines[1..index])
    {
      var t := Trim(lines[index], Whitespaces);
      if t == "---" {
        assert FindClose(lines, 1) == Some(index);
        endLineIndex := index;
        break;
      }
      EntriesOfSnoc(lines[1..index], lines[index]);
      SliceSnoc(lines, 1, index);
      IndexOfSpec(t, ':');
      if ':' in t {
        var entry := EntryOf(t);
        if entry.Some? {
          entries := entries + [entry.value];
        }
      }
      index := index + 1;
    }
    if endLineIndex == -1 {
      return [], -1;
    }
  }

  lemma {:induction false} EntriesOfSnoc(ls: seq<string>, line: string)
    ensures EntriesOf(ls + [line]) == EntriesOf(ls) + LineEntry(line)
  {
    if |ls| == 0 {
      assert [] + [line] == [line];
      assert [line][1..] == [];
    } else {
      var whole := ls + [line];
      assert whole[0] == ls[0];
      assert whole[1..] == ls[1..] + [line];
      EntriesOfSnoc(ls[1..], line);
      AppendAssoc(LineEntry(ls[0]), EntriesOf(ls[1..]), LineEntry(line));
    }
  }

  /** With a closing `---`, the two readers agree: the same entries, and the
      scanner resumes right after the closing line the adapter reports. */
  lemma ReadersAgree(lines: seq<string>)
    requires Opens(lines) && FindClose(lines, 1).Some?
    ensures ScannerHeader(lines).entries == AdapterFrontMatter(lines).entries
    ensures ScannerHeader(lines).next == AdapterFrontMatter(lines).endLineIndex + 1
  {
    ReadFromSpec(lines, 1);
  }

  /** Without a closing `---` the scanner consumes every line and keeps its
      entries, while the adapter reports no front matter at all. */
  lemma ReadersDisagreeWhenUnclosed(lines: seq<string>)
    requires Opens(lines) && FindClose(lines, 1).None?
    ensures ScannerHeader(lines) == Header(EntriesOf(lines[1..]), |lines|)
    ensures AdapterFrontMatter(lines) == AdapterHeader([], -1)
  {
    ReadFromSpec(lines, 1);
  }
}
