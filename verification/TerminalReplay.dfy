// What a fresh terminal shows after interpreting a rendered snapshot.

module TerminalReplay {
  import opened Wrappers
  import opened Strings
  import opened Terminal
  import opened TerminalSnapshot

  // ---- What cells and styles mean ----

  function ColourOf(mode: Option<nat>, value: Option<nat>): Colour
  {
    if mode.None? || value.None? then Default
    else if mode.value == 1 then Basic(value.value)
    else if mode.value == 2 then Palette(value.value)
    else if mode.value == 3 then Rgb(value.value / 65536 % 256, value.value / 256 % 256, value.value % 256)
    else Default
  }

  // The sixteen basic colours are numbered 0 to 15.
  predicate WellFormedColour(mode: Option<nat>, value: Option<nat>)
  {
    mode == Some(1) && value.Some? ==> value.value < 16
  }

  function Meaning(style: Style): Pen
  {
    Pen(ColourOf(style.fgMode, style.fg), ColourOf(style.bgMode, style.bg), style.bold, style.dim, style.italic,
        style.underline, style.inverse, style.strikethrough)
  }

  predicate WellFormedStyle(style: Style)
  {
    WellFormedColour(style.fgMode, style.fg) && WellFormedColour(style.bgMode, style.bg)
  }

  // One printable character of one column; an empty text shows as a space.
  predicate WellFormedCell(cell: Cell)
  {
    && (cell.text == "" || (|cell.text| == 1 && Printable(cell.text[0])))
    && WellFormedStyle(cell.style)
  }

  function Shown(cell: Cell): Glyph
  {
    Glyph(if cell.text == "" then ' ' else cell.text[0], Meaning(cell.style))
  }

  function Image(row: Row, cols: nat): (line: Line)
    ensures |line| == cols
  {
    seq(cols, i requires i >= 0 => Shown(CellAt(row, i)))
  }

  // ---- Styles ----

  lemma SgrOpt(pen: Pen, flag: bool, code: nat, rest: seq<nat>)
    requires code != 38 && code != 48
    ensures Sgr(pen, Opt(flag, code) + rest) == Sgr(if flag then SetPen(pen, code) else pen, rest)
  {
    if flag {
      assert ([code] + rest)[1..] == rest;
    } else {
      assert [] + rest == rest;
    }
  }

  // The pen after the codes of one colour; without codes it keeps its colour.
  function PenWith(pen: Pen, mode: Option<nat>, value: Option<nat>, background: bool): Pen
  {
    if ColorPart(mode, value, background) == [] then pen else Paint(pen, background, ColourOf(mode, value))
  }

  lemma SgrColour(pen: Pen, mode: Option<nat>, value: Option<nat>, background: bool, rest: seq<nat>)
    requires WellFormedColour(mode, value)
    ensures Sgr(pen, ColorPart(mode, value, background) + rest) == Sgr(PenWith(pen, mode, value, background), rest)
  {
    var codes := ColorPart(mode, value, background);
    if codes == [] {
      assert [] + rest == rest;
    } else {
      assert (codes + rest)[|codes|..] == rest;
    }
  }

  // The codes of a style set exactly that style, whatever the pen was.
  lemma SgrMeaning(pen: Pen, style: Style)
    requires WellFormedStyle(style)
    ensures Sgr(pen, StyleCodes(style)) == Meaning(style)
  {
    hide Sgr, ColorPart, Opt, SetPen, PenWith;
    var bg := ColorPart(style.bgMode, style.bg, true);
    var fg := ColorPart(style.fgMode, style.fg, false) + bg;
    var c9 := Opt(style.strikethrough, 9) + fg;
    var c7 := Opt(style.inverse, 7) + c9;
    var c4 := Opt(style.underline, 4) + c7;
    var c3 := Opt(style.italic, 3) + c4;
    var c2 := Opt(style.dim, 2) + c3;
    var c1 := Opt(style.bold, 1) + c2;
    assert StyleCodes(style) == Opt(true, 0) + c1 by { CodesRight(style); }
    SgrOpt(pen, true, 0, c1);
    var p0 := SetPen(pen, 0);
    SgrOpt(p0, style.bold, 1, c2);
    var p1 := if style.bold then SetPen(p0, 1) else p0;
    SgrOpt(p1, style.dim, 2, c3);
    var p2 := if style.dim then SetPen(p1, 2) else p1;
    SgrOpt(p2, style.italic, 3, c4);
    var p3 := if style.italic then SetPen(p2, 3) else p2;
    SgrOpt(p3, style.underline, 4, c7);
    var p4 := if style.underline then SetPen(p3, 4) else p3;
    SgrOpt(p4, style.inverse, 7, c9);
    var p7 := if style.inverse then SetPen(p4, 7) else p4;
    SgrOpt(p7, style.strikethrough, 9, fg);
    var p9 := if style.strikethrough then SetPen(p7, 9) else p7;
    SgrColour(p9, style.fgMode, style.fg, false, bg);
    var pf := PenWith(p9, style.fgMode, style.fg, false);
    assert bg + [] == bg;
    SgrColour(pf, style.bgMode, style.bg, true, []);
    var pb := PenWith(pf, style.bgMode, style.bg, true);
    assert Sgr(pb, []) == pb by { SgrNone(pb); }
    assert p9 == Pen(Default, Default, style.bold, style.dim, style.italic, style.underline, style.inverse, style.strikethrough) by {
      FlagPens(pen, style);
    }
    PenColours(p9, style);
  }

  lemma SgrNone(pen: Pen)
    ensures Sgr(pen, []) == pen
  {
  }

  lemma CodesRight(style: Style)
    ensures StyleCodes(style) ==
            Opt(true, 0) + (Opt(style.bold, 1) + (Opt(style.dim, 2) + (Opt(style.italic, 3) + (Opt(style.underline, 4) +
            (Opt(style.inverse, 7) + (Opt(style.strikethrough, 9) + (ColorPart(style.fgMode, style.fg, false) +
            ColorPart(style.bgMode, style.bg, true))))))))
  {
    hide Opt, ColorPart;
    var a, b, c, d, e := [0], Opt(style.bold, 1), Opt(style.dim, 2), Opt(style.italic, 3), Opt(style.underline, 4);
    var f, g := Opt(style.inverse, 7), Opt(style.strikethrough, 9);
    var h, k := ColorPart(style.fgMode, style.fg, false), ColorPart(style.bgMode, style.bg, true);
    Associative(a + b + c + d + e + f + g, h, k);
    Associative(a + b + c + d + e + f, g, h + k);
    Associative(a + b + c + d + e, f, g + (h + k));
    Associative(a + b + c + d, e, f + (g + (h + k)));
    Associative(a + b + c, d, e + (f + (g + (h + k))));
    Associative(a + b, c, d + (e + (f + (g + (h + k)))));
    Associative(a, b, c + (d + (e + (f + (g + (h + k))))));
    ResetCode();
  }

  lemma ResetCode()
    ensures Opt(true, 0) == [0]
  {
  }

  lemma Associative<T>(a: seq<T>, b: seq<T>, c: seq<T>)
    ensures a + b + c == a + (b + c)
  {
  }

  lemma FlagPens(pen: Pen, style: Style)
    ensures var p0 := SetPen(pen, 0);
            var p1 := if style.bold then SetPen(p0, 1) else p0;
            var p2 := if style.dim then SetPen(p1, 2) else p1;
            var p3 := if style.italic then SetPen(p2, 3) else p2;
            var p4 := if style.underline then SetPen(p3, 4) else p3;
            var p7 := if style.inverse then SetPen(p4, 7) else p4;
            var p9 := if style.strikethrough then SetPen(p7, 9) else p7;
            p9 == Pen(Default, Default, style.bold, style.dim, style.italic, style.underline, style.inverse, style.strikethrough)
  {
  }

  lemma PenColours(p9: Pen, style: Style)
    requires p9 == Pen(Default, Default, style.bold, style.dim, style.italic, style.underline, style.inverse, style.strikethrough)
    ensures PenWith(PenWith(p9, style.fgMode, style.fg, false), style.bgMode, style.bg, true) == Meaning(style)
  {
  }

  // ---- Parameter strings ----

  predicate DigitsAndSemicolons(s: string)
  {
    forall i :: 0 <= i < |s| ==> IsDigit(s[i]) || s[i] == ';'
  }

  lemma {:induction false} JoinedDigits(parts: seq<string>)
    requires forall i :: 0 <= i < |parts| ==> AllDigits(parts[i])
    ensures DigitsAndSemicolons(Join(parts, ';'))
  {
    if |parts| > 1 {
      JoinedDigits(parts[1..]);
    }
  }

  lemma ParseParts(params: string, parts: seq<string>, codes: seq<nat>)
    requires Split(params, ';') == parts && |parts| == |codes|
    requires forall i :: 0 <= i < |parts| ==> AllDigits(parts[i]) && ParseNat(parts[i]) == codes[i]
    ensures ParseParams(params) == Some(codes)
  {
    hide Split, ParseNat;
    assert ParseParams(params).value == codes;
  }

  lemma ParsePrinted(codes: seq<nat>)
    requires |codes| > 0
    ensures ParseParams(Join(Prints(codes), ';')) == Some(codes)
    ensures DigitsAndSemicolons(Join(Prints(codes), ';'))
  {
    hide Join, Split;
    var parts := Prints(codes);
    forall i | 0 <= i < |parts|
      ensures AllDigits(parts[i]) && ';' !in parts[i] && ParseNat(parts[i]) == codes[i]
    {
      ParsePrintNat(codes[i]);
    }
    SplitJoin(parts, ';');
    JoinedDigits(parts);
    ParseParts(Join(parts, ';'), parts, codes);
  }

  lemma PlainParams(s: string)
    requires DigitsAndSemicolons(s)
    ensures ParamChars(s) && s != "?7" && s != "?25"
    ensures s == "" || s[|s| - 1] != ' '
  {
    assert s == "" || s[0] != '?';
  }

  lemma RunStyle(t: Term, style: Style)
    requires Valid(t) && t.parser == Ground && WellFormedStyle(style)
    ensures Run(t, StyleToAnsi(style)) == t.(pen := Meaning(style))
  {
    hide Run, Join, Sgr, StyleCodes, Valid, ParseParams;
    var codes := StyleCodes(style);
    assert |codes| > 0 by { SomeCode(style); }
    ParsePrinted(codes);
    var params := Join(Prints(codes), ';');
    PlainParams(params);
    assert StyleToAnsi(style) == CsiText(params, 'm');
    RunCsi(t, params, 'm');
    SgrMeaning(t.pen, style);
  }

  lemma SomeCode(style: Style)
    ensures |StyleCodes(style)| > 0
  {
  }

  lemma RunReset(t: Term)
    requires Valid(t) && t.parser == Ground
    ensures Run(t, RESET) == t.(pen := PLAIN)
  {
    hide Run, Valid;
    assert RESET == CsiText("0", 'm');
    RunCsi(t, "0", 'm');
    assert Split("0", ';') == ["0"] by { SplitWithout("0", ';'); }
    assert ParseNat("0") == 0;
    ParseParts("0", ["0"], [0]);
    assert Sgr(t.pen, [0]) == PLAIN;
  }

  // ---- One row ----

  // A row of n cells on the blank line u.row, as far as cell i.
  function Painted(u: Term, row: Row, i: nat): Term
    requires Valid(u) && i <= u.cols
  {
    u.(lines := u.lines[u.row := Image(row, u.cols)[..i] + BlankLine(u.cols)[i..]],
       col := if i < u.cols then i else u.cols - 1,
       pending := i == u.cols,
       pen := Meaning(LastStyle(row, i)))
  }

  predicate AtLineStart(u: Term)
  {
    Valid(u) && u.parser == Ground && u.col == 0 && !u.pending && u.pen == PLAIN && u.lines[u.row] == BlankLine(u.cols)
  }

  predicate WellFormedRow(row: Row)
  {
    forall i :: 0 <= i < |row| ==> WellFormedCell(row[i])
  }

  lemma PaintedValid(u: Term, row: Row, i: nat)
    requires AtLineStart(u) && i <= u.cols
    ensures Valid(Painted(u, row, i))
    ensures i == 0 ==> Painted(u, row, i) == u
  {
    var line := Image(row, u.cols)[..i] + BlankLine(u.cols)[i..];
    assert |line| == u.cols;
    if i == 0 {
      assert line == BlankLine(u.cols);
      assert u.lines[u.row := line] == u.lines;
      assert Meaning(DEFAULT_STYLE) == PLAIN;
    }
  }

  lemma PaintCell(u: Term, row: Row, i: nat, c: char)
    requires AtLineStart(u) && i < u.cols && WellFormedCell(CellAt(row, i))
    requires Shown(CellAt(row, i)).c == c
    ensures Valid(Painted(u, row, i))
    ensures Put(Painted(u, row, i).(pen := Meaning(CellAt(row, i).style)), c) == Painted(u, row, i + 1)
  {
    PaintedValid(u, row, i);
    var image, blank := Image(row, u.cols), BlankLine(u.cols);
    var before := image[..i] + blank[i..];
    assert before[i := image[i]] == image[..i + 1] + blank[i + 1..];
    assert Glyph(c, Meaning(CellAt(row, i).style)) == image[i];
    var p := Painted(u, row, i);
    assert p.lines[u.row] == before;
    assert p.lines[u.row := image[..i + 1] + blank[i + 1..]] == u.lines[u.row := image[..i + 1] + blank[i + 1..]];
  }

  lemma RunChange(t: Term, previous: Style, next: Style)
    requires Valid(t) && t.parser == Ground && WellFormedStyle(next) && t.pen == Meaning(previous)
    ensures Run(t, StyleChange(previous, next)) == t.(pen := Meaning(next))
  {
    hide Valid, StyleToAnsi, Meaning, Step;
    if previous != next {
      RunStyle(t, next);
    } else {
      assert t.(pen := Meaning(next)) == t;
    }
  }

  lemma CellGlyph(cell: Cell)
    requires WellFormedCell(cell)
    ensures CellText(cell) == [Shown(cell).c] && Printable(Shown(cell).c)
  {
  }

  lemma CellsWellFormed(row: Row, i: nat)
    requires WellFormedRow(row)
    ensures WellFormedCell(CellAt(row, i))
  {
  }

  lemma {:induction false} RunBody(u: Term, row: Row, i: nat, n: nat)
    requires AtLineStart(u) && i <= n <= u.cols && WellFormedRow(row)
    ensures Valid(Painted(u, row, i))
    ensures Run(Painted(u, row, i), RowBody(row, i, n, LastStyle(row, i))) == Painted(u, row, n)
    decreases n - i
  {
    hide Run, StyleChange, CellText, Meaning, Image, WellFormedCell, Printable;
    PaintedValid(u, row, i);
    var p := Painted(u, row, i);
    if i == n {
      assert RowBody(row, i, n, LastStyle(row, i)) == "";
      RunNone(p);
    } else {
      var cell := CellAt(row, i);
      CellsWellFormed(row, i);
      CellGlyph(cell);
      var change, text, rest := StyleChange(LastStyle(row, i), cell.style), CellText(cell), RowBody(row, i + 1, n, cell.style);
      assert RowBody(row, i, n, LastStyle(row, i)) == change + text + rest;
      RunCat(p, change + text, rest);
      RunCat(p, change, text);
      WellFormedParts(cell);
      RunChange(p, LastStyle(row, i), cell.style);
      var inked := p.(pen := Meaning(cell.style));
      RunOne(inked, Shown(cell).c);
      PaintCell(u, row, i, Shown(cell).c);
      StepPrints(inked, Shown(cell).c);
      RunBody(u, row, i + 1, n);
    }
  }

  lemma WellFormedParts(cell: Cell)
    requires WellFormedCell(cell)
    ensures WellFormedStyle(cell.style)
  {
  }

  lemma RunNone(t: Term)
    requires Valid(t)
    ensures Run(t, "") == t
  {
  }

  lemma StepPrints(t: Term, c: char)
    requires Valid(t) && t.parser == Ground && Printable(c) && !t.pending
    ensures Step(t, c) == Put(t, c)
  {
  }

  // Past its length a row shows blanks.
  lemma ImageTail(row: Row, n: nat, cols: nat)
    requires RowLength(row) <= n <= cols
    ensures Image(row, cols)[..n] + BlankLine(cols)[n..] == Image(row, cols)
  {
    assert Shown(EMPTY_CELL) == BLANK;
  }

  // A row printed from the start of the blank line u.row, with its style reset.
  function RowDone(u: Term, row: Row, n: nat): Term
    requires Valid(u)
  {
    u.(lines := u.lines[u.row := Image(row, u.cols)],
       col := if n < u.cols then n else u.cols - 1,
       pending := n == u.cols)
  }

  lemma RunRowFromStart(u: Term, row: Row, pad: Option<nat>)
    requires AtLineStart(u) && WellFormedRow(row) && PaddedLength(row, pad) <= u.cols
    ensures Run(u, RowToAnsi(row, pad)) == RowDone(u, row, PaddedLength(row, pad))
  {
    hide Run, RowBody, Image, Meaning, RESET, WellFormedRow;
    var n := PaddedLength(row, pad);
    PaintedValid(u, row, 0);
    PaintedValid(u, row, n);
    RunBody(u, row, 0, n);
    var p := Painted(u, row, n);
    var ending := if LastStyle(row, n) != DEFAULT_STYLE then RESET else "";
    RunCat(u, RowBody(row, 0, n, DEFAULT_STYLE), ending);
    ImageTail(row, n, u.cols);
    assert Meaning(DEFAULT_STYLE) == PLAIN by { DefaultMeaning(); }
    if LastStyle(row, n) != DEFAULT_STYLE {
      RunReset(p);
    } else {
      RunNone(p);
    }
  }

  lemma DefaultMeaning()
    ensures Meaning(DEFAULT_STYLE) == PLAIN
  {
  }

  // The first character printed at the end of a full line goes to the next line, as if it had been started there.
  predicate AtWrap(t: Term)
  {
    Valid(t) && t.parser == Ground && t.pending && t.autowrap && t.pen == PLAIN && AtLineStart(Wrap(t))
  }

  lemma WrapThenPen(t: Term, pen: Pen)
    requires AtWrap(t)
    ensures Wrap(t.(pen := pen)) == Wrap(t).(pen := pen)
  {
  }

  lemma WrapThenStyle(t: Term, style: Style)
    requires AtWrap(t) && WellFormedStyle(style)
    ensures var change := StyleChange(DEFAULT_STYLE, style);
            var inked := t.(pen := Meaning(style));
            Run(t, change) == inked && Run(Wrap(t), change) == Wrap(t).(pen := Meaning(style))
  {
    hide Run, StyleChange, Meaning, Wrap;
    DefaultMeaning();
    RunChange(t, DEFAULT_STYLE, style);
    RunChange(Wrap(t), DEFAULT_STYLE, style);
  }

  lemma FirstCellWraps(t: Term, c: char, pen: Pen)
    requires AtWrap(t) && Printable(c)
    ensures Step(t.(pen := pen), c) == Step(Wrap(t).(pen := pen), c)
  {
    WrapThenPen(t, pen);
  }

  lemma RunRowFromWrap(t: Term, row: Row, pad: Option<nat>)
    requires AtWrap(t) && WellFormedRow(row) && 0 < PaddedLength(row, pad)
    ensures Run(t, RowToAnsi(row, pad)) == Run(Wrap(t), RowToAnsi(row, pad))
  {
    hide Run, Step, Wrap, StyleChange, CellText, Meaning, RESET, PaddedLength, Printable, WellFormedCell;
    var n := PaddedLength(row, pad);
    var cell := CellAt(row, 0);
    CellsWellFormed(row, 0);
    CellGlyph(cell);
    WellFormedParts(cell);
    var change, text := StyleChange(DEFAULT_STYLE, cell.style), CellText(cell);
    var rest := RowBody(row, 1, n, cell.style) + (if LastStyle(row, n) != DEFAULT_STYLE then RESET else "");
    assert RowToAnsi(row, pad) == change + (text + rest) by {
      assert RowBody(row, 0, n, DEFAULT_STYLE) == change + text + RowBody(row, 1, n, cell.style);
    }
    WrapThenStyle(t, cell.style);
    FirstCellWraps(t, Shown(cell).c, Meaning(cell.style));
    RunCat(t, change, text + rest);
    RunCat(Wrap(t), change, text + rest);
    RunCat(t.(pen := Meaning(cell.style)), text, rest);
    RunCat(Wrap(t).(pen := Meaning(cell.style)), text, rest);
    RunOne(t.(pen := Meaning(cell.style)), Shown(cell).c);
    RunOne(Wrap(t).(pen := Meaning(cell.style)), Shown(cell).c);
  }
}
