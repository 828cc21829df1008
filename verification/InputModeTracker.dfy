// The class TerminalInputModeTracker: its fields, and the loops over matches, parameters
// and pops.

module InputModeTracker {
  import opened Wrappers
  import opened Strings
  import opened InputMode
  import Stream = InputModeStream
  import Restore = InputModeRestore

  class TerminalInputModeTracker {
    var kittyKeyboardFlags: nat
    var win32InputMode: bool
    var applicationCursorKeys: bool
    var bracketedPaste: bool
    var kittyKeyboardStack: seq<nat>
    var pending: string

    function CurrentModes(): Modes
      reads this
    {
      Modes(kittyKeyboardFlags, win32InputMode, applicationCursorKeys, bracketedPaste, kittyKeyboardStack)
    }

    function Value(): Tracker
      reads this
    {
      Tracker(CurrentModes(), pending)
    }

    constructor ()
      ensures Value() == Tracker(INITIAL, "")
    {
      kittyKeyboardFlags, win32InputMode, applicationCursorKeys, bracketedPaste := 0, false, false, false;
      kittyKeyboardStack, pending := [], "";
    }

    method Reset()
      modifies this
      ensures Value() == Tracker(INITIAL, "")
    {
      kittyKeyboardFlags, win32InputMode, applicationCursorKeys, bracketedPaste := 0, false, false, false;
      kittyKeyboardStack, pending := [], "";
    }

    // exec with lastIndex from: the leftmost match at or after it.
    method Exec(text: string, from: nat) returns (m: Option<Match>)
      requires from <= |text|
      ensures m.Some? ==> from < m.value.end <= |text|
      ensures Scan(text, from) == if m.Some? then [m.value.op] + Scan(text, m.value.end) else []
      ensures forall before: nat | before <= from ::
                Consumed(text, from, before) == if m.Some? then Consumed(text, m.value.end, m.value.end) else before
    {
      for i := from to |text|
        invariant forall k :: from <= k < i ==> MatchAt(text, k).None?
      {
        m := MatchAt(text, i);
        if m.Some? {
          Stream.ScanSkips(text, from, i);
          return;
        }
      }
      Stream.ScanSkips(text, from, |text|);
      return None;
    }

    // lastIndexOf(ESC [) in the text from position from on.
    method LastIndexOf(text: string, from: nat) returns (start: Option<nat>)
      requires from <= |text|
      ensures start == LastStart(text, from)
      ensures start.Some? ==> from <= start.value < |text|
    {
      var i := |text|;
      while i > from
        invariant from <= i <= |text|
        invariant forall k :: i <= k < |text| ==> !StartsAt(text, k)
      {
        i := i - 1;
        if StartsAt(text, i) {
          Stream.LastStartSkips(text, i + 1, |text|);
          LastStartHere(text, from, i);
          return Some(i);
        }
      }
      Stream.LastStartSkips(text, from, |text|);
      return None;
    }

    method Feed(data: string) returns (changed: bool, responses: seq<string>)
      modifies this
      ensures Fed(Value(), changed, responses) == InputMode.Feed(old(Value()), data)
    {
      hide MatchAt, ApplyKitty, ApplyPrivate, Scan, Consumed, ApplyOps, LastStart, StartsAt;
      if |data| == 0 {
        return false, [];
      }
      var text := pending + data;
      pending := "";
      changed := false;
      responses := [];
      var consumedUntil := 0;
      ghost var start := CurrentModes();
      ghost var ops: seq<Op> := [];
      Restore.ApplyNone(start);
      var m := Exec(text, 0);
      while m.Some?
        invariant consumedUntil <= |text| && pending == ""
        invariant m.Some? ==> consumedUntil < m.value.end <= |text|
        invariant Result(CurrentModes(), changed, responses) == ApplyOps(start, ops)
        invariant Scan(text, 0) == ops + if m.Some? then [m.value.op] + Scan(text, m.value.end) else []
        invariant Consumed(text, 0, 0) == if m.Some? then Consumed(text, m.value.end, m.value.end) else consumedUntil
        decreases |text| - consumedUntil, if m.Some? then 1 else 0
      {
        var op := m.value.op;
        consumedUntil := m.value.end;
        Restore.ApplyCat(start, ops, [op]);
        Restore.ApplyOne(CurrentModes(), op);
        ghost var rest := Scan(text, consumedUntil);
        assert ops + ([op] + rest) == ops + [op] + rest;
        ops := ops + [op];
        if op.PrivateMode? {
          var c := ApplyPrivateModeSequence(op.params, op.set_);
          changed := c || changed;
          assert responses + [] == responses;
        } else {
          var c, r := ApplyKittyKeyboardSequence(op.prefix, op.params);
          changed := changed || c;
          responses := responses + r;
        }
        m := Exec(text, consumedUntil);
      }
      assert ops + [] == ops;
      var pendingStart := LastIndexOf(text, consumedUntil);
      if pendingStart.Some? {
        if Incomplete(text[pendingStart.value..]) {
          pending := text[pendingStart.value..];
        }
      }
    }

    method ApplyKittyKeyboardSequence(prefix: string, params: string) returns (changed: bool, responses: seq<string>)
      modifies this`kittyKeyboardFlags, this`kittyKeyboardStack
      ensures Result(CurrentModes(), changed, responses) == ApplyKitty(old(CurrentModes()), prefix, params)
    {
      var previousFlags := kittyKeyboardFlags;
      if prefix == ">" {
        kittyKeyboardStack := kittyKeyboardStack + [kittyKeyboardFlags];
        kittyKeyboardFlags := Or(FirstParam(params), 1);
      } else if prefix == "=" {
        var mode := Or(SecondParam(params), 1);
        kittyKeyboardFlags := if mode == 0 then 0 else Or(FirstParam(params), 0);
      } else if prefix == "<" {
        var count := PopCount(params);
        for index := 0 to count
          invariant unchanged(this`win32InputMode, this`applicationCursorKeys, this`bracketedPaste)
          invariant Pops(old(CurrentModes()), count) == Pops(CurrentModes(), count - index)
        {
          if |kittyKeyboardStack| == 0 {
            kittyKeyboardFlags := 0;
          } else {
            kittyKeyboardFlags := kittyKeyboardStack[|kittyKeyboardStack| - 1];
            kittyKeyboardStack := kittyKeyboardStack[..|kittyKeyboardStack| - 1];
          }
        }
      } else if prefix == "?" {
        return false, [Response(kittyKeyboardFlags)];
      } else {
        return false, [];
      }
      return kittyKeyboardFlags != previousFlags, [];
    }

    method ParsePrivateModeParams(params: string) returns (modes: set<nat>)
      ensures forall mode :: mode in modes <==> HasMode(params, mode)
    {
      var parts := Split(params, ';');
      modes := {};
      for i := 0 to |parts|
        invariant forall mode :: mode in modes <==>
                    exists k :: 0 <= k < i && parts[k] != "" && AllDigits(parts[k]) && ParseNat(parts[k]) == mode
      {
        var param := parts[i];
        if param != "" && AllDigits(param) {
          modes := modes + {ParseNat(param)};
        }
      }
    }

    method ApplyPrivateModeSequence(params: string, on: bool) returns (changed: bool)
      modifies this`win32InputMode, this`applicationCursorKeys, this`bracketedPaste
      ensures Result(CurrentModes(), changed, []) == ApplyPrivate(old(CurrentModes()), params, on)
    {
      var modes := ParsePrivateModeParams(params);
      changed := false;
      if WIN32_INPUT_MODE in modes {
        var previous := win32InputMode;
        win32InputMode := on;
        changed := win32InputMode != previous || changed;
      }
      if APPLICATION_CURSOR_KEYS_MODE in modes {
        var previous := applicationCursorKeys;
        applicationCursorKeys := on;
        changed := applicationCursorKeys != previous || changed;
      }
      if BRACKETED_PASTE_MODE in modes {
        var previous := bracketedPaste;
        bracketedPaste := on;
        changed := bracketedPaste != previous || changed;
      }
    }

    method GetPreamble() returns (preamble: string)
      ensures preamble == Preamble(CurrentModes())
    {
      preamble := "";
      if kittyKeyboardFlags > 0 {
        preamble := preamble + ([ESC] + "[=" + PrintNat(kittyKeyboardFlags) + ";1u");
      }
      preamble := preamble + (if win32InputMode then [ESC] + "[?9001h" else "");
      preamble := preamble + (if applicationCursorKeys then [ESC] + "[?1h" else "");
      preamble := preamble + (if bracketedPaste then [ESC] + "[?2004h" else "");
    }
  }

  lemma {:induction false} LastStartHere(text: string, from: nat, i: nat)
    requires from <= i < |text| && StartsAt(text, i) && LastStart(text, i + 1).None?
    ensures LastStart(text, from) == Some(i)
    decreases i - from
  {
    if from < i {
      LastStartHere(text, from + 1, i);
    }
  }
}
