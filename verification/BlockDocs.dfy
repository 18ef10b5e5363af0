/**
 * The printer of one block. What the code appends to a list and joins with newlines is here the
 * text of all its lines, so a printed string that holds newlines counts as several lines.
 */
module BlockDocs {
  import opened DocText
  import opened DocReaders

  datatype Field = Field(name: string, description: string, typeStr: string, required: bool, hidden: bool)

  datatype BlockDoc = BlockDoc(
    name: string,
    description: string,
    categories: seq<string>,
    inputs: seq<Field>,
    outputs: seq<Field>,
    sourceParts: seq<string>,
    sourceStem: string)

  const HOW_IT_WORKS := "how_it_works"
  const USE_CASE := "use_case"
  const EXTRAS := "extras"
  const ADDITIONAL := "additional_content"

  const INPUT_COLUMNS := "| Input | Description | Type | Required |"
  const INPUT_LINE := "|-------|-------------|------|----------|"
  const OUTPUT_COLUMNS := "| Output | Description | Type |"
  const OUTPUT_LINE := "|--------|-------------|------|"

  const NO_DESCRIPTION: Text := ["No description available."]
  const NO_FILE_DESCRIPTION: Text := ["_Add a description of " + "this category of blocks._"]
  const NO_EXPLANATION: Text := ["_Add technical explanation here._"]
  const NO_USE_CASE: Text := ["_Add practical use case examples here._"]

  // ---------------------------------------------------------------- one block

  function GetOr(m: map<string, Text>, key: string, default: Text): Text {
    if key in m then m[key] else default
  }

  function EscapePipes(s: string): string {
    if s == "" then "" else (if s[0] == '|' then "\\|" else [s[0]]) + EscapePipes(s[1..])
  }

  /** Newlines become spaces. */
  function OnOneLine(s: string): string {
    if s == "" then "" else [if s[0] == '\n' then ' ' else s[0]] + OnOneLine(s[1..])
  }

  function Cell(s: string): string {
    EscapePipes(OnOneLine(if s == "" then "-" else s))
  }

  /** Only the pipes of a type are escaped: its newlines stay. */
  function TypeCell(s: string): string {
    EscapePipes(if s == "" then "-" else s)
  }

  function RowStart(f: Field): string {
    "| " + f.name + " | " + Cell(f.description) + " | "
  }

  function InputRow(f: Field): string {
    RowStart(f) + TypeCell(f.typeStr) + (if f.required then " | Yes |" else " | No |")
  }

  function OutputRow(f: Field): string {
    RowStart(f) + TypeCell(f.typeStr) + " |"
  }

  function InputRows(fs: seq<Field>): Text {
    if fs == [] then []
    else InputRows(fs[..|fs| - 1]) + (if fs[|fs| - 1].hidden then [] else Split(InputRow(fs[|fs| - 1])))
  }

  function OutputRows(fs: seq<Field>): Text {
    if fs == [] then []
    else OutputRows(fs[..|fs| - 1]) + (if fs[|fs| - 1].hidden then [] else Split(OutputRow(fs[|fs| - 1])))
  }

  function Table(heading: string, columns: string, line: string, rows: Text): Text {
    if rows == [] then [] else [heading, "", columns, line] + rows + [""]
  }

  function InputTable(b: BlockDoc): Text {
    Table("### Inputs", INPUT_COLUMNS, INPUT_LINE, InputRows(b.inputs))
  }

  function OutputTable(b: BlockDoc): Text {
    Table("### Outputs", OUTPUT_COLUMNS, OUTPUT_LINE, OutputRows(b.outputs))
  }

  function SectionLines(name: string, body: Text): Text {
    [Marker(name)] + body + [CLOSE]
  }

  function OptionalSection(name: string, body: Text): Text {
    if body == EMPTY_TEXT then [] else SectionLines(name, body) + [""]
  }

  function DescriptionOf(b: BlockDoc): Text {
    if b.description == "" then NO_DESCRIPTION else Split(b.description)
  }

  function Opening(b: BlockDoc): Text {
    ["### What it is"] + DescriptionOf(b) + ["", "### How it works"]
  }

  function Tables(b: BlockDoc): Text {
    [""] + InputTable(b) + OutputTable(b) + ["### Possible use case"]
  }

  /** Everything between the block's heading and its closing rule. */
  function Inner(b: BlockDoc, manual: map<string, Text>): Text {
    Opening(b)
    + SectionLines(HOW_IT_WORKS, GetOr(manual, HOW_IT_WORKS, NO_EXPLANATION))
    + Tables(b)
    + SectionLines(USE_CASE, GetOr(manual, USE_CASE, NO_USE_CASE))
    + [""]
    + OptionalSection(EXTRAS, GetOr(manual, EXTRAS, EMPTY_TEXT))
  }

  function BlockText(b: BlockDoc, manual: map<string, Text>): (t: Text)
    ensures t != []
  {
    ["## " + b.name, ""] + Inner(b, manual) + [RULE, ""]
  }

  method WriteInputTable(b: BlockDoc) returns (lines: Text)
    ensures lines == InputTable(b)
  {
    var rows: Text := [];
    for i := 0 to |b.inputs|
      invariant rows == InputRows(b.inputs[..i])
    {
      assert b.inputs[..i + 1][..i] == b.inputs[..i];
      if !b.inputs[i].hidden {
        rows := rows + Split(InputRow(b.inputs[i]));
      }
    }
    assert b.inputs[..|b.inputs|] == b.inputs;
    lines := [];
    if rows != [] {
      lines := ["### Inputs", "", INPUT_COLUMNS, INPUT_LINE];
      lines := lines + rows + [""];
    }
  }

  method WriteOutputTable(b: BlockDoc) returns (lines: Text)
    ensures lines == OutputTable(b)
  {
    var rows: Text := [];
    for i := 0 to |b.outputs|
      invariant rows == OutputRows(b.outputs[..i])
    {
      assert b.outputs[..i + 1][..i] == b.outputs[..i];
      if !b.outputs[i].hidden {
        rows := rows + Split(OutputRow(b.outputs[i]));
      }
    }
    assert b.outputs[..|b.outputs|] == b.outputs;
    lines := [];
    if rows != [] {
      lines := ["### Outputs", "", OUTPUT_COLUMNS, OUTPUT_LINE];
      lines := lines + rows + [""];
    }
  }

  lemma Grouped<T>(a: seq<T>, b: seq<T>, c: seq<T>)
    ensures (a + b) + c == a + (b + c)
  {
  }

  method GenerateBlockMarkdown(b: BlockDoc, manual: map<string, Text>) returns (text: string)
    ensures text == Join(BlockText(b, manual))
  {
    hide InputTable, OutputTable, GetOr, Marker, DescriptionOf;
    var how := GetOr(manual, HOW_IT_WORKS, NO_EXPLANATION);
    var use := GetOr(manual, USE_CASE, NO_USE_CASE);
    var extras := GetOr(manual, EXTRAS, EMPTY_TEXT);
    var heading := ["## " + b.name, ""];
    var opening := ["### What it is"] + DescriptionOf(b) + ["", "### How it works"];
    var lines := heading + opening;
    ghost var inner := opening;
    lines := lines + SectionLines(HOW_IT_WORKS, how);
    Grouped(heading, inner, SectionLines(HOW_IT_WORKS, how));
    inner := inner + SectionLines(HOW_IT_WORKS, how);
    var inputs := WriteInputTable(b);
    var outputs := WriteOutputTable(b);
    var tables := [""] + inputs + outputs + ["### Possible use case"];
    lines := lines + tables;
    Grouped(heading, inner, tables);
    inner := inner + tables;
    lines := lines + SectionLines(USE_CASE, use);
    Grouped(heading, inner, SectionLines(USE_CASE, use));
    inner := inner + SectionLines(USE_CASE, use);
    lines := lines + [""];
    Grouped(heading, inner, [""]);
    inner := inner + [""];
    if extras != EMPTY_TEXT {
      lines := lines + (SectionLines(EXTRAS, extras) + [""]);
    }
    Grouped(heading, inner, OptionalSection(EXTRAS, extras));
    inner := inner + OptionalSection(EXTRAS, extras);
    assert inner == Inner(b, manual);
    lines := lines + [RULE, ""];
    assert lines == BlockText(b, manual);
    text := Join(lines);
  }
}
