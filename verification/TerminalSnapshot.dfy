// packages/protocol/src/terminal-snapshot.ts: a terminal state rendered as the control
// sequences and characters that bring a fresh terminal into that state.

module TerminalSnapshot {
  import opened Wrappers
  import opened Strings

  const ESC: char := '\U{1B}'

  // A cell; a flag left out counts as false.
  datatype Cell = Cell(text: string, style: Style)

  datatype Style = Style(
    fg: Option<nat>, bg: Option<nat>, fgMode: Option<nat>, bgMode: Option<nat>,
    bold: bool, italic: bool, underline: bool, dim: bool, inverse: bool, strikethrough: bool
  )

  const DEFAULT_STYLE: Style := Style(None, None, None, None, false, false, false, false, false, false)

  const EMPTY_CELL: Cell := Cell(" ", DEFAULT_STYLE)

  type Row = seq<Cell>

  datatype CursorStyle = Block | Underline | Bar

  datatype Cursor = Cursor(row: nat, col: nat, hidden: bool, style: Option<CursorStyle>, blink: Option<bool>)

  datatype Snapshot = Snapshot(
    rows: nat, cols: nat, grid: seq<Row>, scrollback: seq<Row>, cursor: Cursor,
    gridWrapped: Option<seq<bool>>, scrollbackWrapped: Option<seq<bool>>
  )
  {
    function AllRows(): seq<Row>
    {
      scrollback + grid
    }

    function WrapFlags(): seq<bool>
    {
      (if scrollbackWrapped.Some? then scrollbackWrapped.value else []) +
      (if gridWrapped.Some? then gridWrapped.value else [])
    }

    predicate HasWrapInfo()
    {
      |WrapFlags()| == |AllRows()|
    }

    // The row goes on in the next one without a newline.
    predicate Continues(i: nat)
    {
      HasWrapInfo() && i < |WrapFlags()| && WrapFlags()[i]
    }
  }

  // ---- Rows ----

  function CellAt(row: Row, i: nat): Cell
  {
    if i < |row| then row[i] else EMPTY_CELL
  }

  // getTerminalRowLength
  function RowLength(row: Row): (n: nat)
    ensures n <= |row|
    ensures n > 0 ==> row[n - 1] != EMPTY_CELL
    ensures forall i :: n <= i < |row| ==> row[i] == EMPTY_CELL
  {
    if row == [] then 0
    else if row[|row| - 1] != EMPTY_CELL then |row|
    else RowLength(row[..|row| - 1])
  }

  function Opt(flag: bool, code: nat): seq<nat>
  {
    if flag then [code] else []
  }

  // colorToSgr; the shifts and masks of mode 3 are divisions of a non-negative number.
  function ColorCodes(mode: nat, value: nat, background: bool): seq<nat>
  {
    if mode == 1 then
      if value >= 8 then [(if background then 100 else 90) + (value - 8)]
      else [(if background then 40 else 30) + value]
    else if mode == 2 then [if background then 48 else 38, 5, value]
    else if mode == 3 then
      [if background then 48 else 38, 2, value / 65536 % 256, value / 256 % 256, value % 256]
    else []
  }

  function ColorPart(mode: Option<nat>, value: Option<nat>, background: bool): seq<nat>
  {
    if value.Some? && mode.Some? then ColorCodes(mode.value, value.value, background) else []
  }

  function StyleCodes(style: Style): seq<nat>
  {
    [0] + Opt(style.bold, 1) + Opt(style.dim, 2) + Opt(style.italic, 3) + Opt(style.underline, 4) +
    Opt(style.inverse, 7) + Opt(style.strikethrough, 9) +
    ColorPart(style.fgMode, style.fg, false) + ColorPart(style.bgMode, style.bg, true)
  }

  function Prints(codes: seq<nat>): (r: seq<string>)
    ensures |r| == |codes|
  {
    seq(|codes|, i requires 0 <= i < |codes| => PrintNat(codes[i]))
  }

  function CodesToAnsi(codes: seq<nat>): string
  {
    [ESC] + "[" + Join(Prints(codes), ';') + "m"
  }

  function StyleToAnsi(style: Style): string
  {
    CodesToAnsi(StyleCodes(style))
  }

  const RESET: string := [ESC] + "[0m"

  function CellText(cell: Cell): string
  {
    if cell.text == "" then " " else cell.text
  }

  function StyleChange(previous: Style, next: Style): string
  {
    if previous != next then StyleToAnsi(next) else ""
  }

  // The cells from index i on, after one of style previous.
  function RowBody(row: Row, i: nat, n: nat, previous: Style): string
    decreases n - i
  {
    if i >= n then ""
    else
      var cell := CellAt(row, i);
      StyleChange(previous, cell.style) + CellText(cell) + RowBody(row, i + 1, n, cell.style)
  }

  function LastStyle(row: Row, n: nat): Style
  {
    if n == 0 then DEFAULT_STYLE else CellAt(row, n - 1).style
  }

  function PaddedLength(row: Row, padToCols: Option<nat>): nat
  {
    if padToCols.Some? && padToCols.value > RowLength(row) then padToCols.value else RowLength(row)
  }

  // renderTerminalRow
  function RowToAnsi(row: Row, padToCols: Option<nat>): string
  {
    var n := PaddedLength(row, padToCols);
    RowBody(row, 0, n, DEFAULT_STYLE) + (if LastStyle(row, n) != DEFAULT_STYLE then RESET else "")
  }

  // ---- The whole snapshot ----

  function PadOf(s: Snapshot, i: nat): Option<nat>
  {
    if s.Continues(i) then Some(s.cols) else None
  }

  function Separator(s: Snapshot, i: nat): string
  {
    if i + 1 < |s.AllRows()| && !s.Continues(i) then "\r\n" else ""
  }

  // The first n rows with their separators.
  function RowsToAnsi(s: Snapshot, n: nat): string
    requires n <= |s.AllRows()|
  {
    if n == 0 then ""
    else RowsToAnsi(s, n - 1) + RowToAnsi(s.AllRows()[n - 1], PadOf(s, n - 1)) + Separator(s, n - 1)
  }

  function CursorShape(style: CursorStyle, blink: Option<bool>): nat
  {
    var steady := if blink == Some(false) then 1 else 0;
    match style
    case Block => 1 + steady
    case Underline => 3 + steady
    case Bar => 5 + steady
  }

  function CursorPresentation(cursor: Cursor): string
  {
    if cursor.style.None? then ""
    else [ESC] + "[" + PrintNat(CursorShape(cursor.style.value, cursor.blink)) + " q"
  }

  function CursorPosition(cursor: Cursor): string
  {
    [ESC] + "[" + PrintNat(cursor.row + 1) + ";" + PrintNat(cursor.col + 1) + "H"
  }

  const AUTOWRAP_OFF: string := [ESC] + "[?7l"
  const AUTOWRAP_ON: string := [ESC] + "[?7h"

  function CursorVisibility(cursor: Cursor): string
  {
    if cursor.hidden then [ESC] + "[?25l" else [ESC] + "[?25h"
  }

  function Ending(s: Snapshot): string
  {
    RESET + CursorPresentation(s.cursor) + CursorPosition(s.cursor) + CursorVisibility(s.cursor) +
    (if s.HasWrapInfo() then "" else AUTOWRAP_ON)
  }

  // renderTerminalSnapshotToAnsi
  function SnapshotToAnsi(s: Snapshot): string
  {
    (if s.HasWrapInfo() then "" else AUTOWRAP_OFF) + RowsToAnsi(s, |s.AllRows()|) + Ending(s)
  }

  // ---- The loops of the original ----

  method GetTerminalRowLength(row: Row) returns (n: nat)
    ensures n == RowLength(row)
  {
    var index: int := |row| - 1;
    while index >= 0
      invariant -1 <= index < |row|
      invariant RowLength(row) == RowLength(row[..index + 1])
    {
      var cell := row[index];
      assert row[..index + 1][..index] == row[..index];
      if cell.text != " " {
        return index + 1;
      }
      var style := cell.style;
      if style.fg.Some? || style.bg.Some? || style.fgMode.Some? || style.bgMode.Some? ||
         style.bold || style.italic || style.underline || style.dim || style.inverse || style.strikethrough
      {
        return index + 1;
      }
      index := index - 1;
    }
    return 0;
  }

  method RenderStyle(style: Style) returns (ansi: string)
    ensures ansi == StyleToAnsi(style)
  {
    hide ColorPart, CodesToAnsi, Opt;
    var codes := [0];
    codes := codes + Opt(style.bold, 1);
    codes := codes + Opt(style.dim, 2);
    codes := codes + Opt(style.italic, 3);
    codes := codes + Opt(style.underline, 4);
    codes := codes + Opt(style.inverse, 7);
    codes := codes + Opt(style.strikethrough, 9);
    codes := codes + ColorPart(style.fgMode, style.fg, false);
    codes := codes + ColorPart(style.bgMode, style.bg, true);
    return CodesToAnsi(codes);
  }

  // One round of the loop of renderTerminalRow.
  lemma RowBodyStep(before: string, row: Row, index: nat, length: nat, previous: Style, whole: string)
    requires index < length && before + RowBody(row, index, length, previous) == whole
    ensures var cell := CellAt(row, index);
            before + StyleChange(previous, cell.style) + CellText(cell) + RowBody(row, index + 1, length, cell.style) == whole
  {
    hide StyleChange, CellText;
    var cell := CellAt(row, index);
    var x, y, z := StyleChange(previous, cell.style), CellText(cell), RowBody(row, index + 1, length, cell.style);
    assert before + x + y + z == before + (x + y + z);
  }

  method RenderTerminalRow(row: Row, padToCols: Option<nat>) returns (output: string)
    ensures output == RowToAnsi(row, padToCols)
  {
    hide StyleToAnsi, RESET, RowLength, RowBody;
    output := "";
    var contentLength := GetTerminalRowLength(row);
    var length := if padToCols.Some? && padToCols.value > contentLength then padToCols.value else contentLength;
    var previousStyle := DEFAULT_STYLE;
    ghost var whole := RowBody(row, 0, length, DEFAULT_STYLE);
    assert "" + whole == whole;
    for index := 0 to length
      invariant previousStyle == LastStyle(row, index)
      invariant output + RowBody(row, index, length, previousStyle) == whole
    {
      RowBodyStep(output, row, index, length, previousStyle, whole);
      var cell := if index < |row| then row[index] else EMPTY_CELL;
      var change := "";
      if previousStyle != cell.style {
        change := RenderStyle(cell.style);
        previousStyle := cell.style;
      }
      output := output + change;
      output := output + if cell.text == "" then " " else cell.text;
    }
    RowBodyEnd(row, length, previousStyle);
    assert output + "" == output;
    if previousStyle != DEFAULT_STYLE {
      output := output + RESET;
    } else {
      assert output + "" == output;
    }
  }

  lemma RowBodyEnd(row: Row, length: nat, previous: Style)
    ensures RowBody(row, length, length, previous) == ""
  {
  }

  method RenderTerminalSnapshotToAnsi(s: Snapshot) returns (ansi: string)
    ensures ansi == SnapshotToAnsi(s)
  {
    hide RowToAnsi, PrintNat, RESET, AUTOWRAP_OFF, AUTOWRAP_ON, RowsToAnsi, CursorPresentation, Ending;
    var rows := s.scrollback + s.grid;
    var wrapFlags := (if s.scrollbackWrapped.Some? then s.scrollbackWrapped.value else []) +
                     (if s.gridWrapped.Some? then s.gridWrapped.value else []);
    var hasWrapInfo := |wrapFlags| == |rows|;
    var lines := if hasWrapInfo then "" else AUTOWRAP_OFF;
    ghost var start := lines;
    NoRowsYet(s, start);
    for rowIndex := 0 to |rows|
      invariant lines == start + RowsToAnsi(s, rowIndex)
    {
      var continuesToNextRow := hasWrapInfo && wrapFlags[rowIndex];
      var text := RenderTerminalRow(rows[rowIndex], if continuesToNextRow then Some(s.cols) else None);
      var newline := if rowIndex < |rows| - 1 && !continuesToNextRow then "\r\n" else "";
      NextRow(s, rowIndex, start, text, newline);
      lines := lines + text;
      lines := lines + newline;
    }
    var presentation := RenderCursorPresentation(s.cursor);
    var ending := RESET;
    ending := ending + presentation;
    ending := ending + ([ESC] + "[" + PrintNat(s.cursor.row + 1) + ";" + PrintNat(s.cursor.col + 1) + "H");
    ending := ending + (if s.cursor.hidden then [ESC] + "[?25l" else [ESC] + "[?25h");
    ending := ending + (if hasWrapInfo then "" else AUTOWRAP_ON);
    assert ending == Ending(s) by { EndingIs(s); }
    return lines + ending;
  }

  lemma EndingIs(s: Snapshot)
    ensures Ending(s) == RESET + CursorPresentation(s.cursor) + CursorPosition(s.cursor) + CursorVisibility(s.cursor) +
                         (if s.HasWrapInfo() then "" else AUTOWRAP_ON)
  {
  }

  lemma NoRowsYet(s: Snapshot, start: string)
    ensures start + RowsToAnsi(s, 0) == start
  {
  }

  lemma NextRow(s: Snapshot, i: nat, start: string, text: string, newline: string)
    requires i < |s.AllRows()| && text == RowToAnsi(s.AllRows()[i], PadOf(s, i)) && newline == Separator(s, i)
    ensures start + RowsToAnsi(s, i) + text + newline == start + RowsToAnsi(s, i + 1)
  {
    hide RowToAnsi, PadOf, Separator;
    var before := RowsToAnsi(s, i);
    assert start + before + text + newline == start + (before + text + newline);
  }

  method RenderCursorPresentation(cursor: Cursor) returns (ansi: string)
    ensures ansi == CursorPresentation(cursor)
  {
    if cursor.style.None? {
      return "";
    }
    var code := match cursor.style.value
      case Block => if cursor.blink == Some(false) then 2 else 1
      case Underline => if cursor.blink == Some(false) then 4 else 3
      case Bar => if cursor.blink == Some(false) then 6 else 5;
    return [ESC] + "[" + PrintNat(code) + " q";
  }
}
