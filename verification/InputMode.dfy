// packages/protocol/src/terminal-input-mode.ts: the modes a terminal program asks for, as
// control sequences found by a regular expression in chunks of output.

module InputMode {
  import opened Wrappers
  import opened Strings

  const ESC: char := '\U{1B}'
  const APPLICATION_CURSOR_KEYS_MODE: nat := 1
  const WIN32_INPUT_MODE: nat := 9001
  const BRACKETED_PASTE_MODE: nat := 2004

  datatype Modes = Modes(
    kittyKeyboardFlags: nat,
    win32InputMode: bool,
    applicationCursorKeys: bool,
    bracketedPaste: bool,
    stack: seq<nat>
  )

  const INITIAL: Modes := Modes(0, false, false, false, [])

  // ---- The sequences ----

  // A match of the expression: a keyboard sequence with its prefix, or a private mode set or reset.
  datatype Op = Kitty(prefix: string, params: string) | PrivateMode(params: string, set_: bool)

  predicate IsPrefixChar(c: char)
  {
    c == '<' || c == '>' || c == '=' || c == '?'
  }

  predicate IsParamChar(c: char)
  {
    IsDigit(c) || c == ';'
  }

  predicate AllParams(s: string)
  {
    forall i :: 0 <= i < |s| ==> IsParamChar(s[i])
  }

  // [<>=?]? followed by [0-9;]*
  predicate IsBody(s: string)
  {
    AllParams(if s != "" && IsPrefixChar(s[0]) then s[1..] else s)
  }

  function ParamEnd(text: string, i: nat): (r: nat)
    requires i <= |text|
    ensures i <= r <= |text|
    ensures AllParams(text[i..r])
    ensures r < |text| ==> !IsParamChar(text[r])
    decreases |text| - i
  {
    if i < |text| && IsParamChar(text[i]) then ParamEnd(text, i + 1) else i
  }

  // Where the body of a sequence that starts at i ends.
  function BodyEnd(text: string, i: nat): (r: nat)
    requires i <= |text|
    ensures i <= r <= |text|
  {
    if i < |text| && IsPrefixChar(text[i]) then ParamEnd(text, i + 1) else ParamEnd(text, i)
  }

  predicate StartsAt(text: string, i: nat)
  {
    i + 1 < |text| && text[i] == ESC && text[i + 1] == '['
  }

  // What a body closed by a final character stands for, if anything.
  function Close(body: string, final: char): Option<Op>
    requires IsBody(body)
  {
    var prefixed := body != "" && IsPrefixChar(body[0]);
    var prefix := if prefixed then body[..1] else "";
    var params := if prefixed then body[1..] else body;
    if final == 'u' then Some(Kitty(prefix, params))
    else if prefix == "?" && (final == 'h' || final == 'l') then Some(PrivateMode(params, final == 'h'))
    else None
  }

  datatype Match = Match(op: Op, end: nat)

  // The match of CSI_INPUT_MODE_SEQUENCE at position i. The classes of its parts are disjoint, so it
  // never backtracks.
  function MatchAt(text: string, i: nat): (r: Option<Match>)
    ensures r.Some? ==> i < r.value.end <= |text|
  {
    if !StartsAt(text, i) then None
    else
      var end := BodyEnd(text, i + 2);
      if end == |text| then None
      else
        BodyIsBody(text, i + 2);
        var op := Close(text[i + 2..end], text[end]);
        if op.Some? then Some(Match(op.value, end + 1)) else None
  }

  lemma BodyIsBody(text: string, i: nat)
    requires i <= |text|
    ensures IsBody(text[i..BodyEnd(text, i)])
  {
    if i < |text| && IsPrefixChar(text[i]) {
      assert text[i..BodyEnd(text, i)][1..] == text[i + 1..BodyEnd(text, i)];
    }
  }

  // All matches from position i on, leftmost first.
  function Scan(text: string, i: nat): seq<Op>
    decreases |text| - i
  {
    if i >= |text| then []
    else
      var m := MatchAt(text, i);
      if m.Some? then [m.value.op] + Scan(text, m.value.end) else Scan(text, i + 1)
  }

  // The end of the last match, or from if there is none.
  function Consumed(text: string, i: nat, from: nat): (r: nat)
    requires from <= i
    ensures from <= r
    ensures r == from || i < r <= |text|
    decreases |text| - i
  {
    if i >= |text| then from
    else
      var m := MatchAt(text, i);
      if m.Some? then Consumed(text, m.value.end, m.value.end) else Consumed(text, i + 1, from)
  }

  // The expression for an unfinished sequence at the end of the text.
  predicate Incomplete(s: string)
  {
    StartsAt(s, 0) && IsBody(s[2..])
  }

  // The suffix that starts at the last ESC [ from position i on.
  function LastStart(text: string, i: nat): Option<nat>
    decreases |text| - i
  {
    if i >= |text| then None
    else
      var later := LastStart(text, i + 1);
      if later.Some? then later else if StartsAt(text, i) then Some(i) else None
  }

  function PendingFrom(text: string, i: nat): string
  {
    var start := LastStart(text, i);
    if start.Some? && start.value <= |text| && Incomplete(text[start.value..]) then text[start.value..] else ""
  }

  // ---- What they do ----

  function FirstParam(params: string): Option<nat>
  {
    var first := Split(params, ';')[0];
    if first == "" || !AllDigits(first) then None else Some(ParseNat(first))
  }

  function SecondParam(params: string): Option<nat>
  {
    var parts := Split(params, ';');
    if |parts| < 2 || parts[1] == "" || !AllDigits(parts[1]) then None else Some(ParseNat(parts[1]))
  }

  predicate HasMode(params: string, mode: nat)
  {
    exists p :: p in Split(params, ';') && p != "" && AllDigits(p) && ParseNat(p) == mode
  }

  function Or(value: Option<nat>, default: nat): nat
  {
    if value.Some? then value.value else default
  }

  // n pops, each giving 0 once the stack is empty.
  function Pops(m: Modes, n: nat): Modes
    decreases n
  {
    if n == 0 then m
    else Pops(if m.stack == [] then m.(kittyKeyboardFlags := 0)
              else m.(kittyKeyboardFlags := m.stack[|m.stack| - 1], stack := m.stack[..|m.stack| - 1]), n - 1)
  }

  function PopCount(params: string): nat
  {
    var n := Or(FirstParam(params), 1);
    if n < 1 then 1 else n
  }

  function Response(flags: nat): string
  {
    [ESC] + "[?" + PrintNat(flags) + "u"
  }

  datatype Result = Result(modes: Modes, changed: bool, responses: seq<string>)

  function ApplyKitty(m: Modes, prefix: string, params: string): Result
  {
    if prefix == ">" then
      var t := m.(stack := m.stack + [m.kittyKeyboardFlags], kittyKeyboardFlags := Or(FirstParam(params), 1));
      Result(t, t.kittyKeyboardFlags != m.kittyKeyboardFlags, [])
    else if prefix == "=" then
      var t := m.(kittyKeyboardFlags := if Or(SecondParam(params), 1) == 0 then 0 else Or(FirstParam(params), 0));
      Result(t, t.kittyKeyboardFlags != m.kittyKeyboardFlags, [])
    else if prefix == "<" then
      var t := Pops(m, PopCount(params));
      Result(t, t.kittyKeyboardFlags != m.kittyKeyboardFlags, [])
    else if prefix == "?" then Result(m, false, [Response(m.kittyKeyboardFlags)])
    else Result(m, false, [])
  }

  function ApplyPrivate(m: Modes, params: string, on: bool): Result
  {
    var t := m.(win32InputMode := if HasMode(params, WIN32_INPUT_MODE) then on else m.win32InputMode,
                applicationCursorKeys := if HasMode(params, APPLICATION_CURSOR_KEYS_MODE) then on else m.applicationCursorKeys,
                bracketedPaste := if HasMode(params, BRACKETED_PASTE_MODE) then on else m.bracketedPaste);
    Result(t, t != m, [])
  }

  function ApplyOp(m: Modes, op: Op): Result
  {
    match op
    case Kitty(prefix, params) => ApplyKitty(m, prefix, params)
    case PrivateMode(params, on) => ApplyPrivate(m, params, on)
  }

  function ApplyOps(m: Modes, ops: seq<Op>): Result
  {
    if ops == [] then Result(m, false, [])
    else
      var before := ApplyOps(m, ops[..|ops| - 1]);
      var last := ApplyOp(before.modes, ops[|ops| - 1]);
      Result(last.modes, before.changed || last.changed, before.responses + last.responses)
  }

  // ---- The tracker ----

  datatype Tracker = Tracker(modes: Modes, pending: string)

  datatype Fed = Fed(tracker: Tracker, changed: bool, responses: seq<string>)

  // feed
  function Feed(t: Tracker, data: string): Fed
  {
    if data == "" then Fed(t, false, [])
    else
      var text := t.pending + data;
      var r := ApplyOps(t.modes, Scan(text, 0));
      Fed(Tracker(r.modes, PendingFrom(text, Consumed(text, 0, 0))), r.changed, r.responses)
  }

  function FeedAll(t: Tracker, chunks: seq<string>): Fed
  {
    if chunks == [] then Fed(t, false, [])
    else
      var before := FeedAll(t, chunks[..|chunks| - 1]);
      var last := Feed(before.tracker, chunks[|chunks| - 1]);
      Fed(last.tracker, before.changed || last.changed, before.responses + last.responses)
  }

  // getPreamble
  function Preamble(m: Modes): string
  {
    (if m.kittyKeyboardFlags > 0 then [ESC] + "[=" + PrintNat(m.kittyKeyboardFlags) + ";1u" else "") +
    (if m.win32InputMode then [ESC] + "[?9001h" else "") +
    (if m.applicationCursorKeys then [ESC] + "[?1h" else "") +
    (if m.bracketedPaste then [ESC] + "[?2004h" else "")
  }
}
