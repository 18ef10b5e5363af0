/** Reading the printed tables of a block back: every shown field with its cells, and no other. */
module BlockTables {
  import opened Prelude
  import opened DocText
  import opened DocReaders
  import opened BlockDocs

  // ---------------------------------------------------------------- a reader of table rows

  /** The cells of a row of a table: a pipe ends a cell unless a backslash stands before it. */
  function Cells(row: string): (cells: seq<string>)
    ensures cells != []
  {
    if row == "" then [""]
    else if row[0] == '|' then [""] + Cells(row[1..])
    else if row[0] == '\\' && |row| > 1 && row[1] == '|' then Longer("\\|", Cells(row[2..]))
    else Longer([row[0]], Cells(row[1..]))
  }

  function Longer(start: string, cells: seq<string>): (r: seq<string>)
    requires cells != []
    ensures r != []
  {
    [start + cells[0]] + cells[1..]
  }

  function Unescape(s: string): string {
    if s == "" then ""
    else if s[0] == '\\' && |s| > 1 && s[1] == '|' then "|" + Unescape(s[2..])
    else [s[0]] + Unescape(s[1..])
  }

  /** What a cell says, without the space on either side. */
  function ReadCell(cell: string): string {
    if |cell| < 2 then "" else Unescape(cell[1..|cell| - 1])
  }

  datatype Entry = Entry(name: string, description: string, typeStr: string, required: Option<bool>)

  function ReadInputRow(row: string): Option<Entry> {
    var cells := Cells(row);
    if |cells| == 6 && cells[4] in {" Yes ", " No "} then
      Some(Entry(ReadCell(cells[1]), ReadCell(cells[2]), ReadCell(cells[3]), Some(cells[4] == " Yes ")))
    else None
  }

  function ReadOutputRow(row: string): Option<Entry> {
    var cells := Cells(row);
    if |cells| == 5 then Some(Entry(ReadCell(cells[1]), ReadCell(cells[2]), ReadCell(cells[3]), None)) else None
  }

  // ---------------------------------------------------------------- rows

  lemma {:induction false} EscapedIsRead(s: string)
    ensures Unescape(EscapePipes(s)) == s
  {
    if s != "" {
      var e := EscapePipes(s[1..]);
      EscapedIsRead(s[1..]);
      if s[0] == '|' {
        assert EscapePipes(s)[2..] == e;
      } else {
        assert EscapePipes(s)[1..] == e;
        EscapedStart(s[1..]);
      }
    }
  }

  /** An escaped text never begins with a pipe. */
  lemma EscapedStart(s: string)
    ensures s != "" ==> EscapePipes(s) != "" && EscapePipes(s)[0] != '|'
    ensures s == "" ==> EscapePipes(s) == ""
  {
  }

  lemma LongerTwice(a: string, b: string, cells: seq<string>)
    requires cells != []
    ensures Longer(a, Longer(b, cells)) == Longer(a + b, cells)
  {
    assert a + (b + cells[0]) == (a + b) + cells[0];
  }

  lemma CellsEscaped(s: string)
    ensures Cells("\\|" + s) == Longer("\\|", Cells(s))
  {
    assert ("\\|" + s)[2..] == s;
  }

  lemma CellsPlain(c: char, s: string)
    requires c != '|' && (c == '\\' ==> s == "" || s[0] != '|')
    ensures Cells([c] + s) == Longer([c], Cells(s))
  {
    assert ([c] + s)[1..] == s;
  }

  lemma {:induction false} EscapedIsOneCell(s: string, rest: string)
    requires rest != "" && rest[0] != '|'
    ensures Cells(EscapePipes(s) + rest) == Longer(EscapePipes(s), Cells(rest))
  {
    hide Cells, Longer;
    if s == "" {
      assert EscapePipes(s) + rest == rest;
      NothingLonger(Cells(rest));
    } else {
      var e := EscapePipes(s[1..]);
      EscapedIsOneCell(s[1..], rest);
      EscapedStart(s[1..]);
      var start := if s[0] == '|' then "\\|" else [s[0]];
      assert EscapePipes(s) + rest == start + (e + rest);
      LongerTwice(start, e, Cells(rest));
      if s[0] == '|' {
        CellsEscaped(e + rest);
      } else {
        CellsPlain(s[0], e + rest);
      }
    }
  }

  lemma NothingLonger(cells: seq<string>)
    requires cells != []
    ensures Longer("", cells) == cells
  {
    assert "" + cells[0] == cells[0];
  }

  lemma FirstCell(rest: string)
    ensures Cells("|" + rest) == [""] + Cells(rest)
  {
    assert ("|" + rest)[1..] == rest;
  }

  lemma LongerMore(start: string, a: seq<string>, b: seq<string>)
    requires a != []
    ensures Longer(start, a) + b == Longer(start, a + b)
  {
  }

  /** What the cells of a text are, by its first characters. */
  lemma CellsBegin(a: string) returns (start: string, tail: string)
    requires a != "" && a[0] != '|'
    ensures a == start + tail && |tail| < |a| && start in {"\\|", [a[0]]}
    ensures start == [a[0]] ==> (a[0] == '\\' ==> tail == "" || tail[0] != '|')
  {
    start := if a[0] == '\\' && |a| > 1 && a[1] == '|' then "\\|" else [a[0]];
    tail := a[|start|..];
  }

  lemma CellsGoOn(c: char, start: string, s: string)
    requires c != '|' && start in {"\\|", [c]}
    requires start == [c] ==> (c == '\\' ==> s == "" || s[0] != '|')
    ensures Cells(start + s) == Longer(start, Cells(s))
  {
    hide Cells, Longer;
    if start == "\\|" {
      CellsEscaped(s);
    } else {
      CellsPlain(c, s);
    }
  }

  lemma NoCells()
    ensures Cells("") == [""]
  {
  }

  lemma StartsGroup(start: string, tail: string, rest: string)
    ensures start + tail + "|" + rest == start + (tail + "|" + rest)
  {
  }

  /** A pipe ends a cell, if no backslash stands before it. */
  lemma {:induction false} PipeEndsCell(a: string, rest: string)
    requires a == "" || a[|a| - 1] != '\\'
    ensures Cells(a + "|" + rest) == Cells(a) + Cells(rest)
    decreases |a|
  {
    hide *;
    if a == "" {
      NoCells();
      assert a + "|" + rest == "|" + rest;
      FirstCell(rest);
    } else if a[0] == '|' {
      var tail := a[1..];
      assert a == "|" + tail;
      EndStays(a, "|", tail);
      StartsGroup("|", tail, rest);
      PipeEndsCell(tail, rest);
      FirstCell(tail);
      FirstCell(tail + "|" + rest);
    } else {
      var start, tail := CellsBegin(a);
      StartsGroup(start, tail, rest);
      EndStays(a, start, tail);
      PipeEndsCell(tail, rest);
      BothGoOn(a[0], start, tail, rest);
    }
  }

  lemma BothGoOn(c: char, start: string, tail: string, rest: string)
    requires c != '|' && start in {"\\|", [c]}
    requires start == [c] && c == '\\' ==> tail != "" && tail[0] != '|'
    requires Cells(tail + "|" + rest) == Cells(tail) + Cells(rest)
    ensures Cells(start + (tail + "|" + rest)) == Cells(start + tail) + Cells(rest)
  {
    hide Cells, Longer;
    CellsGoOn(c, start, tail);
    CellsGoOn(c, start, tail + "|" + rest);
    LongerMore(start, Cells(tail), Cells(rest));
  }

  lemma EndStays(a: string, start: string, tail: string)
    requires a == start + tail && start != "" && a[|a| - 1] != '\\'
    ensures tail != "" ==> tail[|tail| - 1] != '\\'
    ensures tail == "" ==> start[|start| - 1] != '\\'
  {
  }

  /** A printed cell with the space on either side, and the pipe after it. */
  lemma CellIsRead(s: string, rest: string)
    ensures Cells(" " + EscapePipes(s) + " |" + rest) == [" " + EscapePipes(s) + " "] + Cells(rest)
    ensures ReadCell(" " + EscapePipes(s) + " ") == s
  {
    EscapedIsRead(s);
    CellWithin(s);
    hide Cells, EscapePipes, Unescape;
    var cell := " " + EscapePipes(s) + " ";
    assert cell + "|" + rest == " " + EscapePipes(s) + " |" + rest;
    PipeEndsCell(cell, rest);
    assert cell[1..|cell| - 1] == EscapePipes(s);
  }

  lemma CellWithin(s: string)
    ensures Cells(" " + EscapePipes(s) + " ") == [" " + EscapePipes(s) + " "]
  {
    var e := EscapePipes(s);
    EscapedIsOneCell(s, " ");
    NoPipeOneCell(" ");
    hide Cells, EscapePipes;
    CellsPlain(' ', e + " ");
    assert " " + e + " " == [' '] + (e + " ");
    assert [' '] + (e + " ") == " " + e + " ";
  }

  function PlainDescription(f: Field): string {
    OnOneLine(if f.description == "" then "-" else f.description)
  }

  function PlainType(f: Field): string {
    if f.typeStr == "" then "-" else f.typeStr
  }

  /** The newlines of a description become spaces, and nothing else changes. */
  lemma {:induction false} OneLineIs(s: string)
    ensures |OnOneLine(s)| == |s|
    ensures forall i :: 0 <= i < |s| ==> OnOneLine(s)[i] == if s[i] == '\n' then ' ' else s[i]
  {
    if s != "" {
      OneLineIs(s[1..]);
    }
  }

  lemma {:induction false} NoPipeNoChange(s: string)
    requires '|' !in s
    ensures EscapePipes(s) == s
  {
    if s != "" {
      NoPipeNoChange(s[1..]);
    }
  }

  lemma RowStartIsRead(f: Field, rest: string)
    requires '|' !in f.name
    ensures Cells(RowStart(f) + rest)
         == ["", " " + f.name + " ", " " + Cell(f.description) + " "] + Cells(" " + rest)
    ensures ReadCell(" " + f.name + " ") == f.name
    ensures ReadCell(" " + Cell(f.description) + " ") == PlainDescription(f)
  {
    NoPipeNoChange(f.name);
    assert Cell(f.description) == EscapePipes(PlainDescription(f));
    hide Cells, EscapePipes, ReadCell, PlainDescription;
    var second := " " + Cell(f.description) + " |" + (" " + rest);
    CellIsRead(f.name, second);
    CellIsRead(PlainDescription(f), " " + rest);
    RowStartJoins(f.name, Cell(f.description), rest);
    FirstCell(" " + f.name + " |" + second);
  }

  lemma RowStartJoins(name: string, d: string, rest: string)
    ensures "| " + name + " | " + d + " | " + rest == "|" + (" " + name + " |" + (" " + d + " |" + (" " + rest)))
  {
  }

  lemma LastCells(last: string)
    requires '|' !in last && '\\' !in last
    ensures Cells(last + "|") == [last, ""]
  {
    NoPipeOneCell(last);
    PipeEndsCell(last, "");
    assert last + "|" + "" == last + "|";
  }

  lemma {:induction false} NoPipeOneCell(s: string)
    requires '|' !in s
    ensures Cells(s) == [s]
  {
    if s != "" {
      NoPipeOneCell(s[1..]);
      assert [s[0]] + s[1..] == s;
    }
  }

  function YesOrNo(required: bool): string {
    if required then " Yes " else " No "
  }

  lemma InputRowIs(f: Field)
    ensures InputRow(f) == RowStart(f) + (EscapePipes(PlainType(f)) + (" |" + (YesOrNo(f.required) + "|")))
  {
    hide RowStart, EscapePipes;
  }

  /** An input's row is read back: its name, its description on one line, its type, and whether it is required. */
  lemma InputRowReadsBack(f: Field)
    requires '|' !in f.name
    ensures ReadInputRow(InputRow(f)) == Some(Entry(f.name, PlainDescription(f), PlainType(f), Some(f.required)))
  {
    InputRowIs(f);
    hide Cells, RowStart, PlainType, EscapePipes, ReadCell, PlainDescription, InputRow, Cell, ReadInputRow;
    var e, yes := EscapePipes(PlainType(f)), YesOrNo(f.required);
    RowStartIsRead(f, e + (" |" + (yes + "|")));
    CellIsRead(PlainType(f), yes + "|");
    SpaceInFront(e, yes + "|");
    LastCells(yes);
    SixCells(InputRow(f), " " + f.name + " ", " " + Cell(f.description) + " ", " " + e + " ", yes);
  }

  lemma SpaceInFront(e: string, rest: string)
    ensures " " + (e + (" |" + rest)) == " " + e + " |" + rest
  {
  }

  lemma SixCells(row: string, a: string, b: string, c: string, yes: string)
    requires Cells(row) == ["", a, b] + ([c] + [yes, ""]) && yes in {" Yes ", " No "}
    ensures ReadInputRow(row) == Some(Entry(ReadCell(a), ReadCell(b), ReadCell(c), Some(yes == " Yes ")))
  {
    hide Cells, ReadCell;
  }

  /** So is an output's. */
  lemma OutputRowReadsBack(f: Field)
    requires '|' !in f.name
    ensures ReadOutputRow(OutputRow(f)) == Some(Entry(f.name, PlainDescription(f), PlainType(f), None))
  {
    assert OutputRow(f) == RowStart(f) + TypeCell(f.typeStr) + " |";
    assert TypeCell(f.typeStr) == EscapePipes(PlainType(f));
    hide Cells, RowStart, TypeCell, PlainType, EscapePipes, ReadCell, PlainDescription, OutputRow, Cell;
    var rest := EscapePipes(PlainType(f)) + " |";
    RowStartIsRead(f, rest);
    CellIsRead(PlainType(f), "");
    assert " " + rest == " " + EscapePipes(PlainType(f)) + " |" + "";
    assert RowStart(f) + EscapePipes(PlainType(f)) + " |" == RowStart(f) + rest;
    FiveCells(OutputRow(f), " " + f.name + " ", " " + Cell(f.description) + " ", " " + EscapePipes(PlainType(f)) + " ");
  }

  lemma FiveCells(row: string, a: string, b: string, c: string)
    requires Cells(row) == ["", a, b] + ([c] + Cells(""))
    ensures ReadOutputRow(row) == Some(Entry(ReadCell(a), ReadCell(b), ReadCell(c), None))
  {
    assert Cells("") == [""];
    hide Cells, ReadCell;
  }

  // ---------------------------------------------------------------- names with pipes

  lemma {:induction false} UnescapeShrinks(s: string)
    ensures |Unescape(s)| <= |s|
    ensures |Cells(s)| == 1 && '|' in s ==> |Unescape(s)| < |s|
    decreases |s|
  {
    if s == "" {
    } else if s[0] == '\\' && |s| > 1 && s[1] == '|' {
      UnescapeShrinks(s[2..]);
    } else {
      UnescapeShrinks(s[1..]);
    }
  }

  lemma {:induction false} SpaceAfterName(s: string)
    ensures |Cells(s + " ")| == |Cells(s)|
    decreases |s|
  {
    var t := s + " ";
    if s == "" {
      assert t[1..] == "" && |Cells("")| == 1;
    } else if s[0] == '|' {
      assert t[1..] == s[1..] + " ";
      SpaceAfterName(s[1..]);
    } else if s[0] == '\\' && |s| > 1 && s[1] == '|' {
      assert t[2..] == s[2..] + " ";
      SpaceAfterName(s[2..]);
    } else {
      assert t[1..] == s[1..] + " ";
      SpaceAfterName(s[1..]);
    }
  }

  lemma NameCells(name: string, rest: string)
    ensures Cells("| " + name + " |" + rest) == [""] + Cells(" " + name + " ") + Cells(rest)
    ensures |Cells(" " + name + " ")| == |Cells(name)|
    ensures ReadCell(" " + name + " ") == Unescape(name)
  {
    var cell := " " + name + " ";
    assert "| " + name + " |" + rest == "|" + (cell + "|" + rest);
    FirstCell(cell + "|" + rest);
    PipeEndsCell(cell, rest);
    SpaceAfterName(name);
    hide Cells;
    CellsPlain(' ', name + " ");
    assert [' '] + (name + " ") == cell;
    assert cell[1..|cell| - 1] == name;
  }

  lemma {:induction false} OnePiece(s: string)
    requires |Cells(s)| == 1
    ensures Cells(s) == [s]
    decreases |s|
  {
    if s == "" {
    } else if s[0] == '\\' && |s| > 1 && s[1] == '|' {
      OnePiece(s[2..]);
      assert s == "\\|" + s[2..];
    } else {
      OnePiece(s[1..]);
      assert s == [s[0]] + s[1..];
    }
  }

  lemma RowIs(f: Field)
    ensures InputRow(f)
         == "| " + f.name + " | " + EscapePipes(PlainDescription(f)) + " | "
            + (EscapePipes(PlainType(f)) + (" |" + (YesOrNo(f.required) + "|")))
  {
    InputRowIs(f);
    hide InputRow, OnOneLine, EscapePipes;
  }

  /** What follows the name in a row are four cells. */
  lemma RestOfRow(f: Field) returns (rest: string)
    ensures InputRow(f) == "| " + f.name + " |" + rest && |Cells(rest)| == 4
  {
    hide *;
    var d, e, yes := EscapePipes(PlainDescription(f)), EscapePipes(PlainType(f)), YesOrNo(f.required);
    RowIs(f);
    YesHasNoPipe(f.required);
    var last := " " + e + " |" + (yes + "|");
    rest := " " + d + " |" + last;
    CellIsRead(PlainDescription(f), last);
    CellIsRead(PlainType(f), yes + "|");
    LastCells(yes);
    RestJoins(f.name, d, e, yes + "|");
  }

  lemma YesHasNoPipe(required: bool)
    ensures '|' !in YesOrNo(required) && '\\' !in YesOrNo(required)
  {
  }

  lemma RestJoins(name: string, d: string, e: string, yes: string)
    ensures "| " + name + " | " + d + " | " + (e + (" |" + yes))
         == "| " + name + " |" + (" " + d + " |" + (" " + e + " |" + yes))
  {
  }

  /** An input's row is read back if and only if no pipe is in its name. */
  lemma InputRowReadsBackIff(f: Field)
    ensures ReadInputRow(InputRow(f)) == Some(Entry(f.name, PlainDescription(f), PlainType(f), Some(f.required)))
       <==> '|' !in f.name
  {
    if '|' !in f.name {
      InputRowReadsBack(f);
    } else {
      hide Cells, InputRow, Unescape, ReadCell, PlainDescription, PlainType;
      var rest := RestOfRow(f);
      NameCells(f.name, rest);
      UnescapeShrinks(f.name);
      if |Cells(f.name)| == 1 {
        OnePiece(" " + f.name + " ");
      }
    }
  }

  // ---------------------------------------------------------------- tables

  function InputEntry(f: Field): Option<Entry> {
    Some(Entry(f.name, PlainDescription(f), PlainType(f), Some(f.required)))
  }

  function OutputEntry(f: Field): Option<Entry> {
    Some(Entry(f.name, PlainDescription(f), PlainType(f), None))
  }

  /** The fields that are not hidden, in order. */
  function InputEntries(fs: seq<Field>): seq<Option<Entry>> {
    if fs == [] then []
    else InputEntries(fs[..|fs| - 1]) + (if fs[|fs| - 1].hidden then [] else [InputEntry(fs[|fs| - 1])])
  }

  function OutputEntries(fs: seq<Field>): seq<Option<Entry>> {
    if fs == [] then []
    else OutputEntries(fs[..|fs| - 1]) + (if fs[|fs| - 1].hidden then [] else [OutputEntry(fs[|fs| - 1])])
  }

  function ReadInputs(rows: Text): seq<Option<Entry>> {
    if rows == [] then [] else ReadInputs(rows[..|rows| - 1]) + [ReadInputRow(rows[|rows| - 1])]
  }

  function ReadOutputs(rows: Text): seq<Option<Entry>> {
    if rows == [] then [] else ReadOutputs(rows[..|rows| - 1]) + [ReadOutputRow(rows[|rows| - 1])]
  }

  /** The rows of the first table under the heading: the lines from the fourth after it up to an empty one. */
  function TableUnder(t: Text, heading: string): Text {
    if t == [] then []
    else if t[0] == heading then (if |t| < 4 then [] else UntilEmpty(t[4..]))
    else TableUnder(t[1..], heading)
  }

  function UntilEmpty(t: Text): Text {
    if t == [] || t[0] == "" then [] else [t[0]] + UntilEmpty(t[1..])
  }

  /** A field that is printed on one row and whose name ends no cell. */
  predicate OneRow(f: Field) {
    f.hidden || ('|' !in f.name && '\n' !in f.name && '\n' !in f.typeStr)
  }

  lemma {:induction false} TableIsFound(before: Text, heading: string, columns: string, line: string, rows: Text,
                                        more: Text)
    requires heading !in before && "" !in rows
    ensures TableUnder(before + [heading, "", columns, line] + rows + [""] + more, heading) == rows
  {
    var t := before + [heading, "", columns, line] + rows + [""] + more;
    if before == [] {
      assert t[0] == heading && t[4..] == rows + [""] + more;
      RowsEnd(rows, more);
    } else {
      TableIsFound(before[1..], heading, columns, line, rows, more);
      assert t[0] == before[0];
      assert t[1..] == before[1..] + [heading, "", columns, line] + rows + [""] + more;
    }
  }

  lemma {:induction false} RowsEnd(rows: Text, more: Text)
    requires "" !in rows
    ensures UntilEmpty(rows + [""] + more) == rows
  {
    var t := rows + [""] + more;
    if rows != [] {
      RowsEnd(rows[1..], more);
      assert t[1..] == rows[1..] + [""] + more && t[0] == rows[0];
    }
  }

  lemma {:induction false} NoTable(t: Text, heading: string)
    requires heading !in t
    ensures TableUnder(t, heading) == []
  {
    if t != [] {
      NoTable(t[1..], heading);
    }
  }

  lemma {:induction false} EscapeHasNoNewline(s: string)
    requires '\n' !in s
    ensures '\n' !in EscapePipes(s)
  {
    if s != "" {
      EscapeHasNoNewline(s[1..]);
    }
  }

  /** A field without newlines in its name and type is printed on one line, which begins with a pipe. */
  lemma RowIsALine(f: Field)
    requires '\n' !in f.name && '\n' !in f.typeStr
    ensures Split(InputRow(f)) == [InputRow(f)] && InputRow(f) != "" && InputRow(f)[0] == '|'
    ensures Split(OutputRow(f)) == [OutputRow(f)] && OutputRow(f) != "" && OutputRow(f)[0] == '|'
  {
    OneLineIs(if f.description == "" then "-" else f.description);
    assert '\n' !in PlainDescription(f);
    EscapeHasNoNewline(PlainDescription(f));
    EscapeHasNoNewline(PlainType(f));
    var e := EscapePipes(PlainType(f));
    hide EscapePipes, OnOneLine;
    var start := RowStart(f);
    assert start[0] == '|' && '\n' !in start;
    assert InputRow(f) == start + e + (if f.required then " | Yes |" else " | No |");
    assert OutputRow(f) == start + e + " |";
    SplitLine(InputRow(f));
    SplitLine(OutputRow(f));
  }

  lemma ReadsBack(f: Field)
    requires '|' !in f.name
    ensures ReadInputRow(InputRow(f)) == InputEntry(f) && ReadOutputRow(OutputRow(f)) == OutputEntry(f)
  {
    InputRowReadsBack(f);
    OutputRowReadsBack(f);
  }

  predicate AreRows(t: Text) {
    forall l <- t :: l != "" && l[0] == '|'
  }

  lemma OneMoreRow(rows: Text, row: string)
    requires AreRows(rows) && row != "" && row[0] == '|'
    ensures ReadInputs(rows + [row]) == ReadInputs(rows) + [ReadInputRow(row)]
    ensures ReadOutputs(rows + [row]) == ReadOutputs(rows) + [ReadOutputRow(row)]
    ensures AreRows(rows + [row])
  {
    hide ReadInputRow, ReadOutputRow;
    assert (rows + [row])[..|rows|] == rows;
  }

  /** The rows of a table are those of the shown fields, and read back one by one. */
  lemma {:induction false} InputsReadBack(fs: seq<Field>)
    requires forall f <- fs :: OneRow(f)
    ensures ReadInputs(InputRows(fs)) == InputEntries(fs) && AreRows(InputRows(fs))
  {
    hide ReadInputRow, InputRow, OutputRow, ReadOutputRow, InputEntry, OutputEntry, AreRows, ReadInputs;
    if fs == [] {
      NoRows();
    } else {
      var front, f := fs[..|fs| - 1], fs[|fs| - 1];
      InputsReadBack(front);
      assert OneRow(f);
      if !f.hidden {
        RowIsALine(f);
        ReadsBack(f);
        OneMoreRow(InputRows(front), InputRow(f));
      } else {
        assert InputRows(front) + [] == InputRows(front);
      }
    }
  }

  lemma {:induction false} OutputsReadBack(fs: seq<Field>)
    requires forall f <- fs :: OneRow(f)
    ensures ReadOutputs(OutputRows(fs)) == OutputEntries(fs) && AreRows(OutputRows(fs))
  {
    hide ReadInputRow, InputRow, OutputRow, ReadOutputRow, InputEntry, OutputEntry, AreRows, ReadOutputs;
    if fs == [] {
      NoRows();
    } else {
      var front, f := fs[..|fs| - 1], fs[|fs| - 1];
      OutputsReadBack(front);
      assert OneRow(f);
      if !f.hidden {
        RowIsALine(f);
        ReadsBack(f);
        OneMoreRow(OutputRows(front), OutputRow(f));
      } else {
        assert OutputRows(front) + [] == OutputRows(front);
      }
    }
  }

  lemma NoRows()
    ensures ReadInputs([]) == [] && ReadOutputs([]) == [] && AreRows([])
  {
  }

  /** The parts of a printed block before, between and after its tables. */
  function BeforeTables(b: BlockDoc, manual: map<string, Text>): Text {
    ["## " + b.name, ""] + Opening(b) + SectionLines(HOW_IT_WORKS, GetOr(manual, HOW_IT_WORKS, NO_EXPLANATION)) + [""]
  }

  function AfterTables(b: BlockDoc, manual: map<string, Text>): Text {
    ["### Possible use case"] + SectionLines(USE_CASE, GetOr(manual, USE_CASE, NO_USE_CASE)) + [""]
    + OptionalSection(EXTRAS, GetOr(manual, EXTRAS, EMPTY_TEXT)) + [RULE, ""]
  }

  lemma BlockAroundTables(b: BlockDoc, manual: map<string, Text>)
    ensures BlockText(b, manual)
         == BeforeTables(b, manual) + InputTable(b) + OutputTable(b) + AfterTables(b, manual)
  {
    hide Opening, SectionLines, GetOr, OptionalSection, InputTable, OutputTable;
  }

  lemma TableIsRead(before: Text, heading: string, columns: string, line: string, rows: Text, after: Text)
    requires heading !in before && heading !in after && AreRows(rows)
    ensures TableUnder(before + Table(heading, columns, line, rows) + after, heading) == rows
  {
    hide TableUnder;
    if rows == [] {
      assert before + [] + after == before + after;
      NoTable(before + after, heading);
    } else {
      TableIsFound(before, heading, columns, line, rows, after);
      TableJoins(before, [heading, "", columns, line], rows, after);
    }
  }

  lemma TableJoins(a: Text, b: Text, c: Text, d: Text)
    ensures a + (b + c + [""]) + d == a + b + c + [""] + d
  {
  }

  lemma OtherTable(heading: string, columns: string, line: string, rows: Text, other: string)
    requires AreRows(rows) && AreRows([columns, line]) && other != heading && other != "" && other[0] != '|'
    ensures other !in Table(heading, columns, line, rows)
  {
    assert AreRows([columns, line]) ==> columns[0] == '|' && line[0] == '|' by {
      assert columns in [columns, line] && line in [columns, line];
    }
    assert forall l <- rows :: l[0] == '|';
  }

  lemma TableLines()
    ensures AreRows([INPUT_COLUMNS, INPUT_LINE]) && AreRows([OUTPUT_COLUMNS, OUTPUT_LINE])
  {
  }

  /** The headings of the tables. */
  const INPUTS := "### Inputs"
  const OUTPUTS := "### Outputs"

  /** No other line of the block is the heading of a table. */
  predicate OwnTablesOnly(b: BlockDoc, manual: map<string, Text>) {
    && INPUTS !in BeforeTables(b, manual) && INPUTS !in AfterTables(b, manual)
    && OUTPUTS !in BeforeTables(b, manual) && OUTPUTS !in AfterTables(b, manual)
  }

  /**
   * The tables of a printed block read back: under each heading stand exactly the fields that are not
   * hidden, in order, each with its name, its description on one line, its type and, for an input,
   * whether it is required.
   */
  lemma TablesReadBack(b: BlockDoc, manual: map<string, Text>)
    requires (forall f <- b.inputs :: OneRow(f)) && (forall f <- b.outputs :: OneRow(f))
    requires OwnTablesOnly(b, manual)
    ensures ReadInputs(TableUnder(BlockText(b, manual), INPUTS)) == InputEntries(b.inputs)
    ensures ReadOutputs(TableUnder(BlockText(b, manual), OUTPUTS)) == OutputEntries(b.outputs)
  {
    hide BeforeTables, AfterTables, BlockText, OneRow, InputRows, OutputRows, AreRows, Table, ReadInputs, ReadOutputs;
    hide InputEntries, OutputEntries, TableUnder;
    BlockAroundTables(b, manual);
    InputsReadBack(b.inputs);
    OutputsReadBack(b.outputs);
    TableLines();
    var before, ins, outs, after := BeforeTables(b, manual), InputTable(b), OutputTable(b), AfterTables(b, manual);
    OtherTable(OUTPUTS, OUTPUT_COLUMNS, OUTPUT_LINE, OutputRows(b.outputs), INPUTS);
    OtherTable(INPUTS, INPUT_COLUMNS, INPUT_LINE, InputRows(b.inputs), OUTPUTS);
    TableIsRead(before, INPUTS, INPUT_COLUMNS, INPUT_LINE, InputRows(b.inputs), outs + after);
    TableIsRead(before + ins, OUTPUTS, OUTPUT_COLUMNS, OUTPUT_LINE, OutputRows(b.outputs), after);
    Grouped(before + ins, outs, after);
  }
}
