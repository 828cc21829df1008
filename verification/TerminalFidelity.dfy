// The whole snapshot: exactly what the terminal ends up with, and exactly when that is
// the snapshot.

module TerminalFidelity {
  import opened Wrappers
  import opened Strings
  import opened Terminal
  import opened TerminalSnapshot
  import opened TerminalReplay

  // Rows no wider than the terminal, of single-width characters and well-formed colours.
  predicate Fits(s: Snapshot)
  {
    && 0 < s.cols && 0 < s.rows
    && forall i :: 0 <= i < |s.AllRows()| ==> |s.AllRows()[i]| <= s.cols && WellFormedRow(s.AllRows()[i])
  }

  function Printed(s: Snapshot, i: nat): nat
    requires i < |s.AllRows()|
  {
    PaddedLength(s.AllRows()[i], PadOf(s, i))
  }

  // The last row of a wrapped line when nothing is printed for it: no character ever triggers the wrap, so
  // the row gets no line of its own.
  predicate Absorbed(s: Snapshot, i: nat)
  {
    0 < i < |s.AllRows()| && s.Continues(i - 1) && Printed(s, i) == 0
  }

  // The rows among the first k that get a line.
  function Kept(s: Snapshot, k: nat): (r: seq<Row>)
    requires k <= |s.AllRows()|
    ensures |r| <= k
    ensures k > 0 ==> |r| > 0
  {
    if k == 0 then []
    else if Absorbed(s, k - 1) then Kept(s, k - 1)
    else Kept(s, k - 1) + [s.AllRows()[k - 1]]
  }

  // For each kept row, whether the terminal wrapped from it to the next.
  function Flags(s: Snapshot, k: nat): (r: seq<bool>)
    requires k <= |s.AllRows()|
    ensures |r| == |Kept(s, k)|
  {
    if k == 0 then []
    else if Absorbed(s, k - 1) then Flags(s, k - 1)
    else
      var before := Flags(s, k - 1);
      (if k > 1 && s.Continues(k - 2) then before[|before| - 1 := true] else before) + [false]
  }

  function MaxNat(a: nat, b: nat): nat
  {
    if a < b then b else a
  }

  function Images(rows: seq<Row>, cols: nat): (r: seq<Line>)
    ensures |r| == |rows|
  {
    seq(|rows|, i requires 0 <= i < |rows| => Image(rows[i], cols))
  }

  function FillLines(lines: seq<Line>, cols: nat, n: nat): (r: seq<Line>)
    ensures |r| == MaxNat(|lines|, n)
  {
    if |lines| < n then lines + BlankLines(cols, n - |lines|) else lines
  }

  function FillFlags(flags: seq<bool>, n: nat): (r: seq<bool>)
    ensures |r| == MaxNat(|flags|, n)
  {
    if |flags| < n then flags + seq(n - |flags|, _ => false) else flags
  }

  // The terminal with the kept ones of the first k rows on its lines, and the cursor on line row.
  function Showing(s: Snapshot, k: nat, row: nat, col: nat, pending: bool): Term
    requires k <= |s.AllRows()|
  {
    var n := MaxNat(s.rows, row + 1);
    Term(s.cols, s.rows, FillLines(Images(Kept(s, k), s.cols), s.cols, n), FillFlags(Flags(s, k), n),
         row, col, pending, PLAIN, s.HasWrapInfo(), true, 0, Ground)
  }

  // Before row k is written, and after row k without its separator.
  function BeforeRow(s: Snapshot, k: nat): Term
    requires k <= |s.AllRows()| && 0 < s.cols
  {
    if k > 0 && s.Continues(k - 1) then Showing(s, k, |Kept(s, k)| - 1, s.cols - 1, true)
    else Showing(s, k, |Kept(s, k)|, 0, false)
  }

  function AfterRow(s: Snapshot, k: nat): Term
    requires k < |s.AllRows()| && 0 < s.cols
  {
    var n := Printed(s, k);
    if Absorbed(s, k) then Showing(s, k + 1, |Kept(s, k + 1)| - 1, s.cols - 1, true)
    else Showing(s, k + 1, |Kept(s, k + 1)| - 1, if n < s.cols then n else s.cols - 1, n == s.cols)
  }

  lemma ShowingValid(s: Snapshot, k: nat, row: nat, col: nat, pending: bool)
    requires Fits(s) && k <= |s.AllRows()| && col < s.cols && |Kept(s, k)| <= row + 1
    ensures Valid(Showing(s, k, row, col, pending))
  {
    hide Kept, Flags, Image, WellFormedRow;
  }

  lemma FillNext(lines: seq<Line>, line: Line, cols: nat, n: nat)
    requires |lines| < n
    ensures FillLines(lines, cols, n)[|lines|] == BlankLine(cols)
    ensures FillLines(lines, cols, n)[|lines| := line] == FillLines(lines + [line], cols, n)
  {
    assert FillLines(lines + [line], cols, n) == lines + [line] + BlankLines(cols, n - |lines| - 1);
  }

  lemma FillNextFlag(flags: seq<bool>, n: nat)
    requires |flags| < n
    ensures FillFlags(flags, n) == FillFlags(flags + [false], n)
  {
  }

  lemma ImagesSnoc(rows: seq<Row>, row: Row, cols: nat)
    ensures Images(rows + [row], cols) == Images(rows, cols) + [Image(row, cols)]
  {
    hide Image;
  }

  lemma PrintedBound(s: Snapshot, k: nat)
    requires Fits(s) && k < |s.AllRows()|
    ensures Printed(s, k) <= s.cols
    ensures s.Continues(k) ==> Printed(s, k) == s.cols
  {
    hide WellFormedRow;
  }

  // A row that starts on a new line.
  lemma FreshRow(s: Snapshot, k: nat, u: Term)
    requires Fits(s) && k < |s.AllRows()| && !Absorbed(s, k)
    requires AtLineStart(u) && u == Showing(s, k, |Kept(s, k)|, 0, false).(wrapped := u.wrapped)
    requires u.wrapped == FillFlags(Flags(s, k + 1), MaxNat(s.rows, |Kept(s, k)| + 1))
    ensures Run(u, RowToAnsi(s.AllRows()[k], PadOf(s, k))) == AfterRow(s, k)
  {
    hide Run, RowToAnsi, Image, Flags, PaddedLength, WellFormedRow;
    var row := s.AllRows()[k];
    assert WellFormedRow(row);
    PrintedBound(s, k);
    RunRowFromStart(u, row, PadOf(s, k));
    ImagesSnoc(Kept(s, k), row, s.cols);
    FillNext(Images(Kept(s, k), s.cols), Image(row, s.cols), s.cols, MaxNat(s.rows, |Kept(s, k)| + 1));
  }

  lemma StartsLine(s: Snapshot, k: nat)
    requires Fits(s) && k < |s.AllRows()| && !(k > 0 && s.Continues(k - 1))
    ensures AtLineStart(BeforeRow(s, k)) && !Absorbed(s, k)
    ensures BeforeRow(s, k).wrapped == FillFlags(Flags(s, k + 1), MaxNat(s.rows, |Kept(s, k)| + 1))
  {
    hide Image, WellFormedRow;
    ShowingValid(s, k, |Kept(s, k)|, 0, false);
    FillNext(Images(Kept(s, k), s.cols), [], s.cols, MaxNat(s.rows, |Kept(s, k)| + 1));
    FillNextFlag(Flags(s, k), MaxNat(s.rows, |Kept(s, k)| + 1));
  }

  // Wrapping from a full line gives the next row its line and marks the wrap.
  lemma WrapsLine(s: Snapshot, k: nat)
    requires Fits(s) && 0 < k < |s.AllRows()| && s.Continues(k - 1) && !Absorbed(s, k)
    ensures AtWrap(BeforeRow(s, k))
    ensures var u := Wrap(BeforeRow(s, k));
            && u == Showing(s, k, |Kept(s, k)|, 0, false).(wrapped := u.wrapped)
            && u.wrapped == FillFlags(Flags(s, k + 1), MaxNat(s.rows, |Kept(s, k)| + 1))
  {
    hide Image, WellFormedRow, Kept, Images, Printed;
    var e := |Kept(s, k)|;
    ShowingValid(s, k, e - 1, s.cols - 1, true);
    ShowingValid(s, k, e, 0, false);
    WrapFill(s, k);
    FillNext(Images(Kept(s, k), s.cols), [], s.cols, MaxNat(s.rows, e + 1));
  }

  lemma WrapFill(s: Snapshot, k: nat)
    requires Fits(s) && 0 < k < |s.AllRows()| && s.Continues(k - 1) && !Absorbed(s, k)
    requires Valid(BeforeRow(s, k))
    ensures var u := Wrap(BeforeRow(s, k));
            && u == Showing(s, k, |Kept(s, k)|, 0, false).(wrapped := u.wrapped)
            && u.wrapped == FillFlags(Flags(s, k + 1), MaxNat(s.rows, |Kept(s, k)| + 1))
  {
    hide Image, WellFormedRow, Kept, Images, Printed;
    var e := |Kept(s, k)|;
    var lines := Images(Kept(s, k), s.cols);
    GrowLines(lines, s.cols, s.rows, e);
    GrowFlags(Flags(s, k), s.rows, e);
    var marked := Flags(s, k)[e - 1 := true];
    assert Flags(s, k + 1) == marked + [false];
    assert FillFlags(Flags(s, k), MaxNat(s.rows, e))[e - 1 := true] == FillFlags(marked, MaxNat(s.rows, e));
    GrowFlags(marked, s.rows, e);
    FillNextFlag(marked, MaxNat(s.rows, e + 1));
  }

  // A line feed from line e - 1 makes sure that line e exists.
  lemma GrowLines(lines: seq<Line>, cols: nat, height: nat, e: nat)
    requires |lines| <= e
    ensures var f := FillLines(lines, cols, MaxNat(height, e));
            FillLines(lines, cols, MaxNat(height, e + 1)) == if e < |f| then f else f + [BlankLine(cols)]
  {
    hide BlankLine;
  }

  lemma GrowFlags(flags: seq<bool>, height: nat, e: nat)
    requires |flags| <= e
    ensures var f := FillFlags(flags, MaxNat(height, e));
            FillFlags(flags, MaxNat(height, e + 1)) == if e < |f| then f else f + [false]
  {
  }

  lemma NothingPrinted(row: Row, pad: Option<nat>)
    requires PaddedLength(row, pad) == 0
    ensures RowToAnsi(row, pad) == ""
  {
  }

  lemma RowStep(s: Snapshot, k: nat)
    requires Fits(s) && k < |s.AllRows()|
    ensures Valid(BeforeRow(s, k)) && Run(BeforeRow(s, k), RowToAnsi(s.AllRows()[k], PadOf(s, k))) == AfterRow(s, k)
  {
    hide Run, RowToAnsi, Image, WellFormedRow, Wrap, FillLines, FillFlags, Images, Flags;
    var row := s.AllRows()[k];
    var pad := PadOf(s, k);
    if k > 0 && s.Continues(k - 1) {
      ShowingValid(s, k, |Kept(s, k)| - 1, s.cols - 1, true);
      if Absorbed(s, k) {
        NothingPrinted(row, pad);
        RunNone(BeforeRow(s, k));
        AbsorbedSame(s, k);
      } else {
        WrapsLine(s, k);
        assert WellFormedRow(row);
        RunRowFromWrap(BeforeRow(s, k), row, pad);
        FreshRow(s, k, Wrap(BeforeRow(s, k)));
      }
    } else {
      StartsLine(s, k);
      FreshRow(s, k, BeforeRow(s, k));
    }
  }

  lemma AbsorbedSame(s: Snapshot, k: nat)
    requires Absorbed(s, k)
    ensures Kept(s, k + 1) == Kept(s, k) && Flags(s, k + 1) == Flags(s, k)
  {
  }

  lemma RunNewline(t: Term)
    requires Valid(t) && t.parser == Ground
    ensures Run(t, "\r\n") == LineFeed(CarriageReturn(t))
  {
    hide Run;
    assert "\r\n" == "\r" + "\n";
    RunCat(t, "\r", "\n");
    RunOne(t, '\r');
    RunOne(CarriageReturn(t), '\n');
  }

  lemma SeparatorStep(s: Snapshot, k: nat)
    requires Fits(s) && k + 1 < |s.AllRows()|
    ensures Valid(AfterRow(s, k)) && Run(AfterRow(s, k), Separator(s, k)) == BeforeRow(s, k + 1)
  {
    hide Run, Image, WellFormedRow, FillLines, FillFlags, Images, Flags, Kept, Printed;
    var e := |Kept(s, k + 1)|;
    PrintedBound(s, k);
    var a := AfterRow(s, k);
    ShowingValid(s, k + 1, e - 1, a.col, a.pending);
    if s.Continues(k) {
      RunNone(a);
    } else {
      NewlineStep(s, k);
    }
  }

  lemma NewlineStep(s: Snapshot, k: nat)
    requires Fits(s) && k + 1 < |s.AllRows()| && !s.Continues(k)
    requires |Kept(s, k + 1)| > 0 && Valid(AfterRow(s, k))
    ensures Run(AfterRow(s, k), Separator(s, k)) == BeforeRow(s, k + 1)
  {
    hide Run, Image, WellFormedRow, FillLines, FillFlags, Images, Flags, Kept, Printed, Fits, Valid;
    var e := |Kept(s, k + 1)|;
    RunNewline(AfterRow(s, k));
    GrowLines(Images(Kept(s, k + 1), s.cols), s.cols, s.rows, e);
    GrowFlags(Flags(s, k + 1), s.rows, e);
  }

  lemma {:induction false} RunRows(s: Snapshot, k: nat)
    requires Fits(s) && k <= |s.AllRows()|
    ensures Valid(BeforeRow(s, 0))
    ensures Run(BeforeRow(s, 0), RowsToAnsi(s, k))
         == if k > 0 && k == |s.AllRows()| then AfterRow(s, k - 1) else BeforeRow(s, k)
  {
    hide Run, RowToAnsi, Image, WellFormedRow, BeforeRow, AfterRow, Separator;
    StartValid(s);
    if k == 0 {
      RunNone(BeforeRow(s, 0));
    } else {
      RunRows(s, k - 1);
      var row := RowToAnsi(s.AllRows()[k - 1], PadOf(s, k - 1));
      RunCat(BeforeRow(s, 0), RowsToAnsi(s, k - 1) + row, Separator(s, k - 1));
      RunCat(BeforeRow(s, 0), RowsToAnsi(s, k - 1), row);
      RowStep(s, k - 1);
      if k < |s.AllRows()| {
        SeparatorStep(s, k - 1);
      } else {
        assert Separator(s, k - 1) == "" by { NoSeparator(s, k - 1); }
        RunNone(AfterRow(s, k - 1)) by { AfterValid(s, k - 1); }
      }
    }
  }

  lemma StartValid(s: Snapshot)
    requires Fits(s)
    ensures Valid(BeforeRow(s, 0))
  {
    hide WellFormedRow;
    ShowingValid(s, 0, 0, 0, false);
  }

  lemma AfterValid(s: Snapshot, k: nat)
    requires Fits(s) && k < |s.AllRows()|
    ensures Valid(AfterRow(s, k))
  {
    hide WellFormedRow, Kept, Flags, Printed, Valid;
    PrintedBound(s, k);
    var a := AfterRow(s, k);
    ShowingValid(s, k + 1, |Kept(s, k + 1)| - 1, a.col, a.pending);
  }

  lemma NoSeparator(s: Snapshot, k: nat)
    requires k + 1 == |s.AllRows()|
    ensures Separator(s, k) == ""
  {
  }

  // ---- The ending ----

  function Lines(s: Snapshot): (r: seq<Line>)
    ensures |r| == MaxNat(s.rows, |Kept(s, |s.AllRows()|)|)
  {
    FillLines(Images(Kept(s, |s.AllRows()|), s.cols), s.cols, s.rows)
  }

  function ShapeOf(cursor: Cursor): nat
  {
    if cursor.style.None? then 0 else CursorShape(cursor.style.value, cursor.blink)
  }

  // The state a fresh terminal is left in.
  function Replayed(s: Snapshot): Term
    requires Fits(s)
  {
    var lines := Lines(s);
    Term(s.cols, s.rows, lines, FillFlags(Flags(s, |s.AllRows()|), s.rows),
         |lines| - s.rows + MinNat(s.cursor.row, s.rows - 1), MinNat(s.cursor.col, s.cols - 1), false,
         PLAIN, true, !s.cursor.hidden, ShapeOf(s.cursor), Ground)
  }

  lemma RunMode(t: Term, params: string, final: char)
    requires Valid(t) && t.parser == Ground
    requires (params == "?7" || params == "?25") && (final == 'h' || final == 'l')
    ensures Run(t, [Terminal.ESC] + "[" + params + [final])
         == if params == "?7" then t.(autowrap := final == 'h') else t.(visible := final == 'h')
  {
    hide Run;
    RunCsi(t, params, final);
  }

  lemma ParseOne(n: nat)
    ensures ParseParams(PrintNat(n)) == Some([n]) && DigitsAndSemicolons(PrintNat(n))
  {
    ParsePrinted([n]);
    assert Prints([n]) == [PrintNat(n)];
  }

  lemma ParseTwo(m: nat, n: nat)
    ensures ParseParams(PrintNat(m) + ";" + PrintNat(n)) == Some([m, n])
    ensures DigitsAndSemicolons(PrintNat(m) + ";" + PrintNat(n))
  {
    ParsePrinted([m, n]);
    assert Prints([m, n]) == [PrintNat(m), PrintNat(n)];
    assert Prints([m, n])[1..] == [PrintNat(n)];
  }

  lemma RunPresentation(t: Term, cursor: Cursor)
    requires Valid(t) && t.parser == Ground && t.shape == 0
    ensures Run(t, CursorPresentation(cursor)) == t.(shape := ShapeOf(cursor))
  {
    hide Run, PrintNat, ParseParams, Valid;
    if cursor.style.None? {
      RunNone(t);
    } else {
      var code := PrintNat(ShapeOf(cursor));
      ParseOne(ShapeOf(cursor));
      PlainParams(code);
      var params := code + " ";
      assert CursorPresentation(cursor) == CsiText(params, 'q');
      assert params[..|params| - 1] == code && params[|params| - 1] == ' ';
      assert params != "?7" && params != "?25";
      RunCsi(t, params, 'q');
    }
  }

  lemma RunPosition(t: Term, cursor: Cursor)
    requires Valid(t) && t.parser == Ground
    ensures Run(t, CursorPosition(cursor)) == MoveTo(t, cursor.row + 1, cursor.col + 1)
  {
    hide Run, PrintNat, ParseParams, Valid;
    var params := PrintNat(cursor.row + 1) + ";" + PrintNat(cursor.col + 1);
    ParseTwo(cursor.row + 1, cursor.col + 1);
    PlainParams(params);
    assert CursorPosition(cursor) == CsiText(params, 'H');
    RunCsi(t, params, 'H');
  }

  lemma RunVisibility(t: Term, cursor: Cursor)
    requires Valid(t) && t.parser == Ground
    ensures Run(t, CursorVisibility(cursor)) == t.(visible := !cursor.hidden)
  {
    hide Run, Valid;
    var final := if cursor.hidden then 'l' else 'h';
    assert CursorVisibility(cursor) == [Terminal.ESC] + "[" + "?25" + [final];
    RunMode(t, "?25", final);
  }

  lemma RunEnding(t: Term, s: Snapshot)
    requires Valid(t) && t.parser == Ground && t.shape == 0 && t.pen == PLAIN && t.autowrap == s.HasWrapInfo()
    ensures Run(t, Ending(s)) ==
            MoveTo(t, s.cursor.row + 1, s.cursor.col + 1).(shape := ShapeOf(s.cursor), visible := !s.cursor.hidden, autowrap := true)
  {
    hide Run, RESET, CursorPresentation, CursorPosition, CursorVisibility, AUTOWRAP_ON, Valid, ShapeOf;
    var last := if s.HasWrapInfo() then "" else AUTOWRAP_ON;
    var a, b, c, d := RESET, CursorPresentation(s.cursor), CursorPosition(s.cursor), CursorVisibility(s.cursor);
    RunCat(t, a + b + c + d, last);
    RunCat(t, a + b + c, d);
    RunCat(t, a + b, c);
    RunCat(t, a, b);
    RunReset(t);
    assert t.(pen := PLAIN) == t;
    RunPresentation(t, s.cursor);
    var t1 := t.(shape := ShapeOf(s.cursor));
    ShapeValid(t, ShapeOf(s.cursor));
    RunPosition(t1, s.cursor);
    var t2 := MoveTo(t1, s.cursor.row + 1, s.cursor.col + 1);
    RunVisibility(t2, s.cursor);
    var t3 := t2.(visible := !s.cursor.hidden);
    ModesValid(t2, !s.cursor.hidden);
    if s.HasWrapInfo() {
      RunNone(t3);
    } else {
      assert AUTOWRAP_ON == [Terminal.ESC] + "[" + "?7" + ['h'] by { AutowrapText(); }
      RunMode(t3, "?7", 'h');
    }
  }

  lemma AutowrapText()
    ensures AUTOWRAP_ON == [Terminal.ESC] + "[" + "?7" + ['h'] && AUTOWRAP_OFF == [Terminal.ESC] + "[" + "?7" + ['l']
  {
  }

  lemma ShapeValid(t: Term, shape: nat)
    requires Valid(t)
    ensures Valid(t.(shape := shape))
  {
  }

  lemma ModesValid(t: Term, visible: bool)
    requires Valid(t)
    ensures Valid(t.(visible := visible))
  {
  }

  lemma StartIsFresh(s: Snapshot)
    requires Fits(s)
    ensures Valid(Fresh(s.cols, s.rows))
    ensures BeforeRow(s, 0) == Fresh(s.cols, s.rows).(autowrap := s.HasWrapInfo())
  {
    hide WellFormedRow;
    assert FillLines([], s.cols, s.rows) == BlankLines(s.cols, s.rows);
    assert FillFlags([], s.rows) == seq(s.rows, _ => false);
    assert Images([], s.cols) == [];
  }

  function AfterRows(s: Snapshot): Term
    requires Fits(s)
  {
    var n := |s.AllRows()|;
    if n > 0 then AfterRow(s, n - 1) else BeforeRow(s, 0)
  }

  lemma AfterRowsShows(s: Snapshot)
    requires Fits(s)
    ensures var t := AfterRows(s);
            && Valid(t) && t.parser == Ground && t.shape == 0 && t.pen == PLAIN && t.autowrap == s.HasWrapInfo() && t.visible
            && t.cols == s.cols && t.height == s.rows
            && t.lines == Lines(s) && t.wrapped == FillFlags(Flags(s, |s.AllRows()|), s.rows)
  {
    hide WellFormedRow, Image, Printed, Flags, Kept;
    var n := |s.AllRows()|;
    if n > 0 {
      AfterValid(s, n - 1);
    } else {
      StartValid(s);
      assert Kept(s, 0) == [] && Flags(s, 0) == [] by { NoRows(s); }
    }
  }

  lemma NoRows(s: Snapshot)
    ensures Kept(s, 0) == [] && Flags(s, 0) == []
  {
  }

  // For every snapshot that fits: the terminal shows one line for each row that is not absorbed, with its cells
  // and styles, wrapped where it was wrapped, the cursor placed, shaped and shown, and the pen back to default.
  lemma ReplayExact(s: Snapshot)
    requires Fits(s)
    ensures Valid(Fresh(s.cols, s.rows))
    ensures Run(Fresh(s.cols, s.rows), SnapshotToAnsi(s)) == Replayed(s)
  {
    hide Run, WellFormedRow, Ending, RowsToAnsi, AUTOWRAP_OFF, AfterRow, BeforeRow, Lines, Flags, FillFlags, ShapeOf;
    var blank := Fresh(s.cols, s.rows);
    var n := |s.AllRows()|;
    StartIsFresh(s);
    var prefix := if s.HasWrapInfo() then "" else AUTOWRAP_OFF;
    RunCat(blank, prefix + RowsToAnsi(s, n), Ending(s));
    RunCat(blank, prefix, RowsToAnsi(s, n));
    assert Run(blank, prefix) == BeforeRow(s, 0) by {
      if s.HasWrapInfo() {
        RunNone(blank);
      } else {
        AutowrapText();
        RunMode(blank, "?7", 'l');
      }
    }
    RunRows(s, n);
    AfterRowsShows(s);
    RunEnding(AfterRows(s), s);
  }

  // ---- Fidelity ----

  // Every row on its own line, from the first line on, and no lines beyond them but blank ones on screen.
  ghost predicate Reproduces(s: Snapshot)
    requires Fits(s)
  {
    var lines := Replayed(s).lines;
    var rows := s.AllRows();
    && |lines| == MaxNat(s.rows, |rows|)
    && forall i :: 0 <= i < |rows| ==> lines[i] == Image(rows[i], s.cols)
  }

  // Nothing from row k on shows anything, and everything is still on screen.
  predicate OnlyBlanksFrom(s: Snapshot, k: nat)
  {
    |s.AllRows()| <= s.rows && forall j :: k <= j < |s.AllRows()| ==> Image(s.AllRows()[j], s.cols) == BlankLine(s.cols)
  }

  // The line a row is given.
  lemma {:induction false} KeptAt(s: Snapshot, i: nat, n: nat)
    requires i < n <= |s.AllRows()| && !Absorbed(s, i)
    ensures |Kept(s, i)| < |Kept(s, n)| && Kept(s, n)[|Kept(s, i)|] == s.AllRows()[i]
  {
    hide Absorbed;
    if n > i + 1 {
      KeptAt(s, i, n - 1);
    }
  }

  lemma {:induction false} KeptGrows(s: Snapshot, k: nat, n: nat)
    requires k <= n <= |s.AllRows()|
    ensures |Kept(s, k)| <= |Kept(s, n)| <= |Kept(s, k)| + (n - k)
  {
    hide Absorbed;
    if k < n {
      KeptGrows(s, k, n - 1);
    }
  }

  // Without absorbed rows every row is kept.
  lemma {:induction false} KeptAll(s: Snapshot, n: nat)
    requires n <= |s.AllRows()| && forall k :: 0 <= k < n ==> !Absorbed(s, k)
    ensures Kept(s, n) == s.AllRows()[..n]
  {
    hide Absorbed;
    if n > 0 {
      KeptAll(s, n - 1);
    }
  }

  // The lines after the first |Kept(s, k)| belong to rows from k on.
  lemma {:induction false} KeptFrom(s: Snapshot, k: nat, n: nat, p: nat) returns (j: nat)
    requires k <= n <= |s.AllRows()| && |Kept(s, k)| <= p < |Kept(s, n)|
    ensures k <= j < n && Kept(s, n)[p] == s.AllRows()[j]
  {
    hide Absorbed;
    if p < |Kept(s, n - 1)| && k < n {
      j := KeptFrom(s, k, n - 1, p);
    } else {
      j := n - 1;
    }
  }

  lemma LineOf(s: Snapshot, p: nat)
    requires Fits(s) && p < |Lines(s)|
    ensures Lines(s)[p] ==
            if p < |Kept(s, |s.AllRows()|)| then Image(Kept(s, |s.AllRows()|)[p], s.cols) else BlankLine(s.cols)
  {
    hide Image, Kept, BlankLine;
  }

  lemma BlankRow(s: Snapshot, i: nat)
    requires Absorbed(s, i)
    ensures Image(s.AllRows()[i], s.cols) == BlankLine(s.cols)
  {
    var row := s.AllRows()[i];
    assert RowLength(row) == 0;
    assert Image(row, s.cols) == BlankLine(s.cols) by {
      ImageTail(row, 0, s.cols);
      assert Image(row, s.cols)[..0] + BlankLine(s.cols)[0..] == BlankLine(s.cols);
    }
  }

  // With k the first absorbed row, a faithful replay repeats the blank of row k down to the last row.
  lemma {:induction false} BlanksSpread(s: Snapshot, k: nat, j: nat)
    requires Fits(s) && Reproduces(s) && Absorbed(s, k) && k <= j < |s.AllRows()|
    requires forall i :: 0 <= i < k ==> !Absorbed(s, i)
    ensures Image(s.AllRows()[j], s.cols) == BlankLine(s.cols)
    decreases j
  {
    hide Image, BlankLine, Fits, Absorbed, Lines;
    var n := |s.AllRows()|;
    if Absorbed(s, j) {
      BlankRow(s, j);
    } else {
      var p := |Kept(s, j)|;
      KeptAt(s, j, n);
      KeptAll(s, k);
      AbsorbedDrops(s, k);
      KeptGrows(s, k + 1, j);
      assert k <= p < j;
      LineOf(s, p);
      BlanksSpread(s, k, p);
    }
  }

  lemma AbsorbedDrops(s: Snapshot, k: nat)
    requires Absorbed(s, k)
    ensures Kept(s, k + 1) == Kept(s, k)
  {
  }

  lemma FirstAbsorbed(s: Snapshot, bad: nat) returns (k: nat)
    requires Absorbed(s, bad)
    ensures k <= bad && Absorbed(s, k) && forall i :: 0 <= i < k ==> !Absorbed(s, i)
  {
    hide Absorbed;
    k := 0;
    while !Absorbed(s, k)
      invariant k <= bad && forall i :: 0 <= i < k ==> !Absorbed(s, i)
      decreases bad - k
    {
      k := k + 1;
    }
  }

  lemma ReproducesOnlyBlanks(s: Snapshot, bad: nat)
    requires Fits(s) && Reproduces(s) && Absorbed(s, bad)
    ensures OnlyBlanksFrom(s, bad)
  {
    hide Image, BlankLine, Lines, Absorbed;
    var n := |s.AllRows()|;
    var k := FirstAbsorbed(s, bad);
    assert k < n by { AbsorbedIsRow(s, k); }
    KeptAll(s, k);
    AbsorbedDrops(s, k);
    KeptGrows(s, k + 1, n);
    forall j | bad <= j < n
      ensures Image(s.AllRows()[j], s.cols) == BlankLine(s.cols)
    {
      BlanksSpread(s, k, j);
    }
  }

  lemma AbsorbedIsRow(s: Snapshot, k: nat)
    requires Absorbed(s, k)
    ensures k < |s.AllRows()|
  {
  }

  lemma OnlyBlanksReproduces(s: Snapshot, bad: nat)
    requires Fits(s) && Absorbed(s, bad)
    requires forall k :: Absorbed(s, k) ==> OnlyBlanksFrom(s, k)
    ensures Reproduces(s)
  {
    hide Image, BlankLine, Lines, Absorbed;
    var n := |s.AllRows()|;
    var k := FirstAbsorbed(s, bad);
    assert OnlyBlanksFrom(s, k);
    assert k < n by { AbsorbedIsRow(s, k); }
    KeptAll(s, k);
    forall i | 0 <= i < n
      ensures Lines(s)[i] == Image(s.AllRows()[i], s.cols)
    {
      LineOf(s, i);
      if i < k {
        KeptAt(s, i, n);
        KeptAll(s, i);
      } else if i < |Kept(s, n)| {
        var j := KeptFrom(s, k, n, i);
        assert Image(s.AllRows()[j], s.cols) == BlankLine(s.cols);
      }
    }
  }

  lemma NoneAbsorbedReproduces(s: Snapshot)
    requires Fits(s) && forall k :: !Absorbed(s, k)
    ensures Reproduces(s)
  {
    hide Image, BlankLine, Lines, Absorbed;
    var n := |s.AllRows()|;
    KeptAll(s, n);
    forall i | 0 <= i < n
      ensures Lines(s)[i] == Image(s.AllRows()[i], s.cols)
    {
      LineOf(s, i);
    }
  }

  // The replay reproduces the snapshot exactly when no wrapped line ends in a row for which nothing is printed,
  // or nothing but blanks follows such a row and nothing has scrolled off the screen.
  lemma ReproducesIff(s: Snapshot)
    requires Fits(s)
    ensures Reproduces(s) <==> forall k :: Absorbed(s, k) ==> OnlyBlanksFrom(s, k)
  {
    hide Reproduces, Absorbed, OnlyBlanksFrom, Fits;
    if Reproduces(s) {
      forall k | Absorbed(s, k)
        ensures OnlyBlanksFrom(s, k)
      {
        ReproducesOnlyBlanks(s, k);
      }
    } else if forall k :: Absorbed(s, k) ==> OnlyBlanksFrom(s, k) {
      if bad :| Absorbed(s, bad) {
        OnlyBlanksReproduces(s, bad);
      } else {
        NoneAbsorbedReproduces(s);
      }
    }
  }

  // Reproduced with a full grid, the cursor is on the cell of the snapshot's cursor and the wrap flags are the
  // snapshot's own.
  lemma {:induction false} FlagsKept(s: Snapshot, n: nat, i: nat)
    requires n <= |s.AllRows()| && i < n && forall k :: !Absorbed(s, k)
    ensures |Flags(s, n)| == n
    ensures Flags(s, n)[i] == (s.Continues(i) && i + 1 < n)
  {
    hide Absorbed, Printed;
    KeptAll(s, n);
    if i < n - 1 {
      FlagsKept(s, n - 1, i);
    }
    KeptAll(s, n - 1);
  }

  // The cursor a shape number stands for and whether it blinks, as DECSCUSR of the VT510 has it; any other leaves
  // the terminal its own.
  function CursorLook(shape: nat): Option<(CursorStyle, bool)>
  {
    match shape
    case 1 => Some((Block, true))
    case 2 => Some((Block, false))
    case 3 => Some((Underline, true))
    case 4 => Some((Underline, false))
    case 5 => Some((Bar, true))
    case 6 => Some((Bar, false))
    case _ => None
  }

  // The cursor looks as in the snapshot, blinking unless the snapshot says that it does not.
  lemma CursorLooksRight(s: Snapshot)
    requires Fits(s)
    ensures CursorLook(Replayed(s).shape) ==
            if s.cursor.style.None? then None else Some((s.cursor.style.value, s.cursor.blink != Some(false)))
  {
    hide Lines, Flags, Fits;
  }

  lemma CursorAndWraps(s: Snapshot)
    requires Fits(s) && |s.grid| == s.rows && s.cursor.row < s.rows && s.cursor.col < s.cols
    requires forall k :: !Absorbed(s, k)
    ensures var t := Replayed(s);
            && t.row == |s.scrollback| + s.cursor.row && t.col == s.cursor.col && t.visible == !s.cursor.hidden
            && t.pen == PLAIN && t.autowrap
            && |t.wrapped| == |s.AllRows()|
            && forall i :: 0 <= i < |s.AllRows()| ==> t.wrapped[i] == (s.Continues(i) && i + 1 < |s.AllRows()|)
  {
    hide Absorbed, Lines;
    var n := |s.AllRows()|;
    KeptAll(s, n);
    forall i | 0 <= i < n
      ensures Flags(s, n)[i] == (s.Continues(i) && i + 1 < n)
    {
      FlagsKept(s, n, i);
    }
  }

  // The rows of the scrollback and of the grid that go on in the next, if the flags of both are there.
  predicate WrapsOn(s: Snapshot, i: nat)
  {
    var back := if s.scrollbackWrapped.Some? then s.scrollbackWrapped.value else [];
    var flags := if s.gridWrapped.Some? then s.gridWrapped.value else [];
    && |back| + |flags| == |s.scrollback| + |s.grid|
    && (if i < |back| then back[i] else i - |back| < |flags| && flags[i - |back|])
  }

  // The terminal shows the scrollback above the grid, row by row, and knows which of them are wrapped.
  lemma ScreenShows(s: Snapshot)
    requires Fits(s) && |s.grid| == s.rows && s.cursor.row < s.rows && s.cursor.col < s.cols
    requires forall k :: !Absorbed(s, k)
    ensures var t, n := Replayed(s), |s.scrollback|;
            && |t.lines| == |t.wrapped| == n + |s.grid|
            && (forall i :: 0 <= i < n ==> t.lines[i] == Image(s.scrollback[i], s.cols))
            && (forall i :: 0 <= i < |s.grid| ==> t.lines[n + i] == Image(s.grid[i], s.cols))
            && (forall i :: 0 <= i < n + |s.grid| ==> t.wrapped[i] == (WrapsOn(s, i) && i + 1 < n + |s.grid|))
  {
    hide Absorbed, Lines, Fits, Image, Replayed;
    NoneAbsorbedReproduces(s);
    CursorAndWraps(s);
    var rows, t := s.AllRows(), Replayed(s);
    assert forall i :: 0 <= i < |s.grid| ==> rows[|s.scrollback| + i] == s.grid[i];
    forall i | 0 <= i < |rows|
      ensures s.Continues(i) == WrapsOn(s, i)
    {
      FlagAt(s, i);
    }
  }

  lemma FlagAt(s: Snapshot, i: nat)
    requires i < |s.AllRows()|
    ensures s.Continues(i) == WrapsOn(s, i)
  {
  }

  const X: Cell := Cell("x", DEFAULT_STYLE)

  // A full row wrapped onto a blank one, and a row after them.
  function Shifted(): Snapshot
  {
    Snapshot(3, 1, [[X], [], [X]], [], Cursor(0, 0, false, None, None), Some([true, false, false]), Some([]))
  }

  lemma ShiftedFits()
    ensures var s := Shifted(); Fits(s) && |s.AllRows()| == 3 && s.rows == 3 && !OnlyBlanksFrom(s, 1)
  {
    var s := Shifted();
    assert s.AllRows() == [[X], [], [X]];
    assert s.AllRows()[2] == [X] && s.cols == 1;
    assert Image(s.AllRows()[2], s.cols)[0].c == 'x' && BlankLine(s.cols)[0].c == ' ';
  }

  lemma ShiftedAbsorbs()
    ensures var s := Shifted(); !Absorbed(s, 0) && Absorbed(s, 1) && !Absorbed(s, 2)
  {
    var s := Shifted();
    assert s.AllRows() == [[X], [], [X]];
    assert s.WrapFlags() == [true, false, false];
  }

  // There the row after the wrapped line is shown one line too high.
  lemma WrappedBlankShiftsUp()
    ensures exists s ::
              && Fits(s) && |s.AllRows()| == 3 && |Replayed(s).lines| == 3
              && !Reproduces(s) && Replayed(s).lines[1] == Image(s.AllRows()[2], s.cols)
  {
    hide Shifted, Fits, Absorbed, OnlyBlanksFrom, Image, Kept, Reproduces, BlankLine;
    var s := Shifted();
    ShiftedFits();
    ShiftedAbsorbs();
    ReproducesIff(s);
    AbsorbedDrops(s, 1);
    KeptAt(s, 0, 1);
    KeptAt(s, 2, 3);
    LineOf(s, 1);
  }
}
