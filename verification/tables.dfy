/** Pipe-table detection at the end of `parseSemanticStructure`
    (Sources/UMAFCore/Parsing/Markdown/LineScanner.swift): a header line and a
    separator line of dashes and colons, both holding `|`, followed by at
    least one row line holding `|` and a non-empty cell. */
module Tables {
  import opened Wrappers
  import opened Text
  import opened CoreModels

  /** The non-empty trimmed pieces of `pieces`, in order. */
  function NonEmptyTrimmed(pieces: seq<string>): (r: seq<string>)
    ensures |r| <= |pieces|
    ensures forall k :: 0 <= k < |r| ==> r[k] != [] && Trim(r[k], Whitespaces) == r[k]
  {
    if |pieces| == 0 then []
    else
      var t := Trim(pieces[0], Whitespaces);
      TrimIdempotent(pieces[0]);
      (if t == [] then [] else [t]) + NonEmptyTrimmed(pieces[1..])
  }

  lemma TrimIdempotent(s: string)
    ensures Trim(Trim(s, Whitespaces), Whitespaces) == Trim(s, Whitespaces)
  {
    var d := DropWhileIn(s, Whitespaces);
    var t := DropLastWhileIn(d, Whitespaces);
    DropWhileInSpec(s, Whitespaces);
    DropLastWhileInSpec(d, Whitespaces);
    if t != [] {
      assert t[0] == d[0];
      assert DropWhileIn(t, Whitespaces) == t;
    }
  }

  /** `line.split(separator: "|").map { trim }.filter { !$0.isEmpty }`.
      Splitting without dropping empty pieces gives the same cells, since
      empty pieces are filtered out after trimming. */
  function Cells(line: string): (r: seq<string>)
    ensures forall k :: 0 <= k < |r| ==> r[k] != [] && '|' !in r[k]
  {
    var pieces := Split(line, '|');
    var r := NonEmptyTrimmed(pieces);
    CellsFromPieces(pieces);
    r
  }

  lemma {:induction false} CellsFromPieces(pieces: seq<string>)
    requires forall k :: 0 <= k < |pieces| ==> '|' !in pieces[k]
    ensures forall k :: 0 <= k < |NonEmptyTrimmed(pieces)| ==> '|' !in NonEmptyTrimmed(pieces)[k]
  {
    if |pieces| > 0 {
      CellsFromPieces(pieces[1..]);
      TrimKeepsOut(pieces[0], '|');
    }
  }

  /** Trimming adds no character. */
  lemma TrimKeepsOut(s: string, c: char)
    requires c !in s
    ensures c !in Trim(s, Whitespaces)
  {
    TrimIsInfix(s, Whitespaces);
    var a, b :| 0 <= a <= b <= |s| && Trim(s, Whitespaces) == s[a..b];
    forall k | 0 <= k < b - a
      ensures s[a..b][k] != c
    {
      assert s[a..b][k] == s[a + k];
    }
  }

  predicate IsSeparatorCell(cell: string)
  {
    forall k :: 0 <= k < |cell| ==> cell[k] == '-' || cell[k] == ':'
  }

  /** A separator line has at least one cell, and every cell is made of
      dashes and colons. */
  predicate IsSeparator(cells: seq<string>)
  {
    |cells| > 0 && forall k :: 0 <= k < |cells| ==> IsSeparatorCell(cells[k])
  }

  /** What detection needs to know of a line: whether its trim holds `|`,
      and the cells of its trim. */
  datatype Line = Line(pipe: bool, cells: seq<string>)

  function Classify(line: string): Line
  {
    var t := Trim(line, Whitespaces);
    Line('|' in t, Cells(t))
  }

  function Classified(lines: seq<string>): (ls: seq<Line>)
    ensures |ls| == |lines|
  {
    seq(|lines|, k requires 0 <= k < |lines| => Classify(lines[k]))
  }

  /** A row line holds `|` and has a non-empty cell. */
  predicate IsRow(l: Line)
  {
    l.pipe && l.cells != []
  }

  /** Whether a table starts at line `i`: both `i` and `i + 1` hold `|`, the
      second is a separator, and line `i + 2` is a row. */
  predicate Opens(ls: seq<Line>, i: nat)
  {
    && i + 2 < |ls|
    && ls[i].pipe
    && ls[i + 1].pipe
    && IsSeparator(ls[i + 1].cells)
    && IsRow(ls[i + 2])
  }

  /** The first line at or after `j` that is not a row line. */
  function RowsEnd(ls: seq<Line>, j: nat): (e: nat)
    requires j <= |ls|
    ensures j <= e <= |ls|
    ensures forall k :: j <= k < e ==> IsRow(ls[k])
    ensures e < |ls| ==> !IsRow(ls[e])
    decreases |ls| - j
  {
    if j < |ls| && IsRow(ls[j]) then RowsEnd(ls, j + 1) else j
  }

  /** The cells of lines `a` up to `b`. */
  function RowsOf(ls: seq<Line>, a: nat, b: nat): (r: seq<seq<string>>)
    requires a <= b <= |ls|
    ensures |r| == b - a
  {
    seq(b - a, k requires 0 <= k < b - a => ls[a + k].cells)
  }

  /** The table a header at `i` opens. */
  function TableAt(ls: seq<Line>, i: nat): (t: Table)
    requires i + 2 <= |ls|
  {
    Table(i, ls[i].cells, RowsOf(ls, i + 2, RowsEnd(ls, i + 2)))
  }

  /** The tables found scanning from line `i`: after a table the scan goes on
      at the first line past its rows, otherwise at the next line. */
  function TablesFrom(ls: seq<Line>, i: nat): seq<Table>
    requires i <= |ls|
    decreases |ls| - i
  {
    if i + 2 >= |ls| then []
    else if Opens(ls, i) then [TableAt(ls, i)] + TablesFrom(ls, RowsEnd(ls, i + 2))
    else TablesFrom(ls, i + 1)
  }

  /** The tables of `lines` from line `start` on. */
  function DetectedTables(lines: seq<string>, start: nat): seq<Table>
    requires start <= |lines|
  {
    TablesFrom(Classified(lines), start)
  }

  // ---------------------------------------------------------------------
  // The detection loop
  // ---------------------------------------------------------------------

  /** The inner `while j < allLines.count` loop collecting the rows. */
  method ReadRows(lines: seq<string>, from: nat) returns (rows: seq<seq<string>>, j: nat)
    requires from <= |lines|
    ensures j == RowsEnd(Classified(lines), from)
    ensures rows == RowsOf(Classified(lines), from, j)
  {
    ghost var ls := Classified(lines);
    rows := [];
    j := from;
    while j < |lines|
      invariant from <= j <= |lines|
      invariant RowsEnd(ls, j) == RowsEnd(ls, from)
      invariant rows == RowsOf(ls, from, j)
      decreases |lines| - j
    {
      var rowTrim := Trim(lines[j], Whitespaces);
      if '|' !in rowTrim {
        break;
      }
      var cells := Cells(rowTrim);
      if cells == [] {
        break;
      }
      ClassifiedAt(lines, j);
      RowsOfSnoc(ls, from, j);
      rows := rows + [cells];
      j := j + 1;
    }
  }

  lemma ClassifiedAt(lines: seq<string>, j: nat)
    requires j < |lines|
    ensures Classified(lines)[j] == Line('|' in Trim(lines[j], Whitespaces), Cells(Trim(lines[j], Whitespaces)))
  {
  }

  lemma RowsOfSnoc(ls: seq<Line>, a: nat, b: nat)
    requires a <= b < |ls|
    ensures RowsOf(ls, a, b + 1) == RowsOf(ls, a, b) + [ls[b].cells]
  {
  }

  /** One step of `TablesFrom`. */
  lemma TablesFromStep(ls: seq<Line>, i: nat)
    requires i < |ls|
    ensures Opens(ls, i) ==> TablesFrom(ls, i) == [TableAt(ls, i)] + TablesFrom(ls, RowsEnd(ls, i + 2))
    ensures !Opens(ls, i) ==> TablesFrom(ls, i) == TablesFrom(ls, i + 1)
  {
  }

  /** One pass of the `while i + 1 < allLines.count` loop: the table opened
      at line `i`, if any, and the line the scan resumes at. */
  method DetectAt(lines: seq<string>, i: nat) returns (found: Option<Table>, next: nat)
    requires i + 1 < |lines|
    ensures i < next <= |lines|
    ensures found.None? ==> TablesFrom(Classified(lines), i) == TablesFrom(Classified(lines), next)
    ensures found.Some? ==> TablesFrom(Classified(lines), i) == [found.value] + TablesFrom(Classified(lines), next)
  {
    ghost var ls := Classified(lines);
    var headerLine := Trim(lines[i], Whitespaces);
    var sepLine := Trim(lines[i + 1], Whitespaces);
    ClassifiedAt(lines, i);
    ClassifiedAt(lines, i + 1);
    TablesFromStep(ls, i);
    found, next := None, i + 1;
    if '|' !in headerLine || '|' !in sepLine {
      return;
    }
    var sepCells := Cells(sepLine);
    if !IsSeparator(sepCells) {
      return;
    }
    var headerCells := Cells(headerLine);
    var rows, j := ReadRows(lines, i + 2);
    if rows != [] {
      assert Opens(ls, i) by {
        assert IsRow(ls[i + 2]);
      }
      found, next := Some(Table(i, headerCells, rows)), j;
    } else {
      assert !Opens(ls, i) by {
        assert i + 2 == |ls| || !IsRow(ls[i + 2]);
      }
    }
  }

  /** The `while i + 1 < allLines.count` loop. */
  method DetectTables(lines: seq<string>, start: nat) returns (tables: seq<Table>)
    requires start <= |lines|
    ensures tables == DetectedTables(lines, start)
  {
    ghost var ls := Classified(lines);
    tables := [];
    var i := start;
    while i + 1 < |lines|
      invariant start <= i <= |lines|
      invariant tables + TablesFrom(ls, i) == TablesFrom(ls, start)
      decreases |lines| - i
    {
      var found, next := DetectAt(lines, i);
      if found.Some? {
        AppendAssoc(tables, [found.value], TablesFrom(ls, next));
        tables := tables + [found.value];
      }
      i := next;
    }
    assert TablesFrom(ls, i) == [];
    assert tables + [] == tables;
  }

  // ---------------------------------------------------------------------
  // Properties
  // ---------------------------------------------------------------------

  /** Where a found table sits: a header and a separator line holding `|`,
      then its rows, one per following row line, ending at the first line
      that is not a row; every row has a cell. */
  predicate WellPlaced(ls: seq<Line>, t: Table)
  {
    && 0 <= t.startLineIndex
    && Opens(ls, t.startLineIndex)
    && t.header == ls[t.startLineIndex].cells
    && t.rows == RowsOf(ls, t.startLineIndex + 2, RowsEnd(ls, t.startLineIndex + 2))
    && |t.rows| > 0
    && (forall k :: 0 <= k < |t.rows| ==> t.rows[k] != [])
  }

  /** The line after the last row of a table. */
  function EndOf(t: Table): int
  {
    t.startLineIndex + 2 + |t.rows|
  }

  /** The table a header at `i` opens is well placed, and its rows end
      where the scan resumes. */
  lemma TableAtWellPlaced(ls: seq<Line>, i: nat)
    requires Opens(ls, i)
    ensures WellPlaced(ls, TableAt(ls, i))
    ensures EndOf(TableAt(ls, i)) == RowsEnd(ls, i + 2)
  {
    assert RowsEnd(ls, i + 2) == RowsEnd(ls, i + 3);
  }

  /** Every table found from line `i` starts at or after `i` and is well
      placed. */
  lemma {:induction false} TablesWellPlaced(ls: seq<Line>, i: nat)
    requires i <= |ls|
    ensures forall k :: 0 <= k < |TablesFrom(ls, i)| ==>
      i <= TablesFrom(ls, i)[k].startLineIndex && WellPlaced(ls, TablesFrom(ls, i)[k])
    decreases |ls| - i
  {
    if i + 2 < |ls| {
      if Opens(ls, i) {
        var e := RowsEnd(ls, i + 2);
        TablesWellPlaced(ls, e);
        TableAtWellPlaced(ls, i);
        var ts := TablesFrom(ls, i);
        var rest := TablesFrom(ls, e);
        assert ts == [TableAt(ls, i)] + rest;
        forall k | 1 <= k < |ts|
          ensures i <= ts[k].startLineIndex && WellPlaced(ls, ts[k])
        {
          assert ts[k] == rest[k - 1];
        }
      } else {
        TablesWellPlaced(ls, i + 1);
      }
    }
  }

  /** Tables do not overlap: each one starts at or after the line where the
      previous one's rows end. */
  lemma {:induction false} TablesOrdered(ls: seq<Line>, i: nat)
    requires i <= |ls|
    ensures forall k :: 0 <= k < |TablesFrom(ls, i)| - 1 ==>
      EndOf(TablesFrom(ls, i)[k]) <= TablesFrom(ls, i)[k + 1].startLineIndex
    decreases |ls| - i
  {
    if i + 2 < |ls| {
      if Opens(ls, i) {
        var e := RowsEnd(ls, i + 2);
        TablesOrdered(ls, e);
        TablesWellPlaced(ls, e);
        TableAtWellPlaced(ls, i);
        var ts := TablesFrom(ls, i);
        var rest := TablesFrom(ls, e);
        assert ts == [TableAt(ls, i)] + rest;
        forall k | 0 <= k < |ts| - 1
          ensures EndOf(ts[k]) <= ts[k + 1].startLineIndex
        {
          if k == 0 {
            assert ts[1] == rest[0];
          } else {
            assert ts[k] == rest[k - 1] && ts[k + 1] == rest[k];
          }
        }
      } else {
        TablesOrdered(ls, i + 1);
      }
    }
  }
}
