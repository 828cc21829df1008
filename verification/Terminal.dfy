// A small terminal: enough of ECMA-48 (SGR, section 8.3.117; CUP, section 8.3.21), DEC
// autowrap and the cursor modes to interpret what packages/protocol/src/terminal-snapshot.ts
// writes. Characters are one column wide.

module Terminal {
  import opened Wrappers
  import opened Strings

  const ESC: char := '\U{1B}'

  datatype Colour = Default | Basic(n: nat) | Palette(n: nat) | Rgb(r: nat, g: nat, b: nat)

  datatype Pen = Pen(
    fg: Colour, bg: Colour, bold: bool, dim: bool, italic: bool, underline: bool, inverse: bool, strikethrough: bool
  )

  const PLAIN: Pen := Pen(Default, Default, false, false, false, false, false, false)

  datatype Glyph = Glyph(c: char, pen: Pen)

  const BLANK: Glyph := Glyph(' ', PLAIN)

  type Line = seq<Glyph>

  datatype Parser = Ground | Escape | Csi(params: string)

  // lines holds everything from the first line on, the last height of them on screen; wrapped tells which
  // line was continued on the next by autowrap. pending is the state after writing the last column.
  datatype Term = Term(
    cols: nat,
    height: nat,
    lines: seq<Line>,
    wrapped: seq<bool>,
    row: nat,
    col: nat,
    pending: bool,
    pen: Pen,
    autowrap: bool,
    visible: bool,
    shape: nat,
    parser: Parser
  )

  function BlankLine(cols: nat): Line
  {
    seq(cols, _ => BLANK)
  }

  function BlankLines(cols: nat, n: nat): (r: seq<Line>)
    ensures |r| == n
  {
    seq(n, _ => BlankLine(cols))
  }

  function Fresh(cols: nat, height: nat): Term
  {
    Term(cols, height, BlankLines(cols, height), seq(height, _ => false), 0, 0, false, PLAIN, true, true, 0, Ground)
  }

  predicate Valid(t: Term)
  {
    && 0 < t.cols && 0 < t.height <= |t.lines| && |t.wrapped| == |t.lines|
    && t.row < |t.lines| && t.col < t.cols
    && forall i :: 0 <= i < |t.lines| ==> |t.lines[i]| == t.cols
  }

  // ---- Characters ----

  predicate Printable(c: char)
  {
    c >= ' ' && !('\U{7F}' <= c <= '\U{9F}')
  }

  function LineFeed(t: Term): (r: Term)
    requires Valid(t)
    ensures Valid(r)
  {
    if t.row + 1 < |t.lines| then t.(row := t.row + 1)
    else t.(row := t.row + 1, lines := t.lines + [BlankLine(t.cols)], wrapped := t.wrapped + [false])
  }

  function CarriageReturn(t: Term): Term
  {
    t.(col := 0, pending := false)
  }

  function Wrap(t: Term): (r: Term)
    requires Valid(t)
    ensures Valid(r)
  {
    CarriageReturn(LineFeed(t.(wrapped := t.wrapped[t.row := true])))
  }

  function Put(t: Term, c: char): (r: Term)
    requires Valid(t)
    ensures Valid(r)
  {
    t.(lines := t.lines[t.row := t.lines[t.row][t.col := Glyph(c, t.pen)]],
       col := if t.col + 1 < t.cols then t.col + 1 else t.col,
       pending := t.col + 1 == t.cols)
  }

  function Print(t: Term, c: char): (r: Term)
    requires Valid(t)
    ensures Valid(r)
  {
    Put(if t.pending && t.autowrap then Wrap(t) else t, c)
  }

  // ---- Control sequences ----

  // A parameter string of numbers, an empty parameter counting as 0.
  function ParseParams(params: string): Option<seq<nat>>
  {
    var parts := Split(params, ';');
    if forall i :: 0 <= i < |parts| ==> AllDigits(parts[i]) then
      Some(seq(|parts|, i requires 0 <= i < |parts| && AllDigits(parts[i]) => ParseNat(parts[i])))
    else None
  }

  // One SGR code that stands alone.
  function SetPen(pen: Pen, code: nat): Pen
  {
    if code == 0 then PLAIN
    else if code == 1 then pen.(bold := true)
    else if code == 2 then pen.(dim := true)
    else if code == 3 then pen.(italic := true)
    else if code == 4 then pen.(underline := true)
    else if code == 7 then pen.(inverse := true)
    else if code == 9 then pen.(strikethrough := true)
    else if 30 <= code <= 37 then pen.(fg := Basic(code - 30))
    else if 40 <= code <= 47 then pen.(bg := Basic(code - 40))
    else if 90 <= code <= 97 then pen.(fg := Basic(code - 90 + 8))
    else if 100 <= code <= 107 then pen.(bg := Basic(code - 100 + 8))
    else pen
  }

  function Paint(pen: Pen, background: bool, colour: Colour): Pen
  {
    if background then pen.(bg := colour) else pen.(fg := colour)
  }

  function Sgr(pen: Pen, codes: seq<nat>): Pen
    decreases |codes|
  {
    if codes == [] then pen
    else if (codes[0] == 38 || codes[0] == 48) && |codes| >= 3 && codes[1] == 5 then
      Sgr(Paint(pen, codes[0] == 48, Palette(codes[2])), codes[3..])
    else if (codes[0] == 38 || codes[0] == 48) && |codes| >= 5 && codes[1] == 2 then
      Sgr(Paint(pen, codes[0] == 48, Rgb(codes[2], codes[3], codes[4])), codes[5..])
    else Sgr(SetPen(pen, codes[0]), codes[1..])
  }

  function Top(t: Term): nat
    requires Valid(t)
  {
    |t.lines| - t.height
  }

  function MinNat(a: nat, b: nat): nat
  {
    if a < b then a else b
  }

  // CUP: one-based screen coordinates, 0 counting as 1, clipped to the screen.
  function MoveTo(t: Term, row: nat, col: nat): (r: Term)
    requires Valid(t)
    ensures Valid(r)
  {
    t.(row := Top(t) + MinNat(if row == 0 then 0 else row - 1, t.height - 1),
       col := MinNat(if col == 0 then 0 else col - 1, t.cols - 1),
       pending := false)
  }

  function Dispatch(t: Term, params: string, final: char): (r: Term)
    requires Valid(t)
    ensures Valid(r)
  {
    if params == "?7" && (final == 'h' || final == 'l') then t.(autowrap := final == 'h')
    else if params == "?25" && (final == 'h' || final == 'l') then t.(visible := final == 'h')
    else if final == 'q' && |params| >= 1 && params[|params| - 1] == ' ' then
      var codes := ParseParams(params[..|params| - 1]);
      if codes.Some? && |codes.value| == 1 then t.(shape := codes.value[0]) else t
    else
      var codes := ParseParams(params);
      if codes.None? then t
      else if final == 'm' then t.(pen := Sgr(t.pen, codes.value))
      else if final == 'H' && |codes.value| == 2 then MoveTo(t, codes.value[0], codes.value[1])
      else t
  }

  function Step(t: Term, c: char): (r: Term)
    requires Valid(t)
    ensures Valid(r)
  {
    match t.parser
    case Ground =>
      if c == ESC then t.(parser := Escape)
      else if c == '\r' then CarriageReturn(t)
      else if c == '\n' then LineFeed(t)
      else if Printable(c) then Print(t, c)
      else t
    case Escape => t.(parser := if c == '[' then Csi("") else Ground)
    case Csi(params) =>
      if ' ' <= c <= '?' then t.(parser := Csi(params + [c]))
      else Dispatch(t.(parser := Ground), params, c)
  }

  function Run(t: Term, s: string): (r: Term)
    requires Valid(t)
    ensures Valid(r)
    decreases |s|
  {
    if s == "" then t else Run(Step(t, s[0]), s[1..])
  }

  lemma {:induction false} RunCat(t: Term, a: string, b: string)
    requires Valid(t)
    ensures Run(t, a + b) == Run(Run(t, a), b)
    decreases |a|
  {
    hide Step, Valid;
    if a == "" {
      assert a + b == b;
    } else {
      assert (a + b)[1..] == a[1..] + b;
      RunCat(Step(t, a[0]), a[1..], b);
    }
  }

  lemma RunOne(t: Term, c: char)
    requires Valid(t)
    ensures Run(t, [c]) == Step(t, c)
  {
    hide Step, Valid;
    assert [c][1..] == "";
    assert Run(Step(t, c), "") == Step(t, c);
  }

  predicate ParamChars(s: string)
  {
    forall i :: 0 <= i < |s| ==> ' ' <= s[i] <= '?'
  }

  lemma {:induction false} RunParams(t: Term, before: string, params: string)
    requires Valid(t) && t.parser == Csi(before) && ParamChars(params)
    ensures Run(t, params) == t.(parser := Csi(before + params))
    decreases |params|
  {
    if params == "" {
      assert before + params == before;
    } else {
      var next := t.(parser := Csi(before + [params[0]]));
      RunParams(next, before + [params[0]], params[1..]);
      assert before + [params[0]] + params[1..] == before + params;
    }
  }

  function CsiText(params: string, final: char): string
  {
    [ESC] + "[" + params + [final]
  }

  // A complete control sequence does what its dispatch does, and nothing else.
  lemma RunCsi(t: Term, params: string, final: char)
    requires Valid(t) && t.parser == Ground && ParamChars(params) && '@' <= final <= '~'
    ensures Run(t, CsiText(params, final)) == Dispatch(t, params, final)
  {
    hide Dispatch, Run;
    var inCsi := t.(parser := Csi(""));
    assert CsiText(params, final) == [ESC] + ("[" + (params + [final]));
    RunCat(t, [ESC], "[" + (params + [final]));
    RunOne(t, ESC);
    RunCat(t.(parser := Escape), "[", params + [final]);
    RunOne(t.(parser := Escape), '[');
    RunCat(inCsi, params, [final]);
    RunParams(inCsi, "", params);
    assert "" + params == params;
    RunOne(t.(parser := Csi(params)), final);
    assert t.(parser := Ground) == t;
  }
}
