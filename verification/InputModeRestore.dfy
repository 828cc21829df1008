// Consequences for the tracker: chunks, the keyboard stack, and restoring from a preamble.

module InputModeRestore {
  import opened Wrappers
  import opened Strings
  import opened InputMode
  import opened InputModeStream

  // What feed leaves pending is an unfinished sequence or nothing.
  predicate Valid(t: Tracker)
  {
    t.pending == "" || Incomplete(t.pending)
  }

  function ReaderOf(t: Tracker): (r: Reader)
    requires Valid(t)
    ensures ValidReader(r)
  {
    if t.pending == "" then Ground else InBody(t.pending[2..])
  }

  lemma ReadPending(t: Tracker)
    requires Valid(t)
    ensures ReadText(Ground, t.pending) == Read(ReaderOf(t), [])
  {
    hide IsBody;
    var p := t.pending;
    if p != "" {
      StartReads(p);
      if BodyEnd(p, 2) < |p| {
        BodyEndsEarly(p, 2);
      }
      ReadBody(p, 2);
      assert p[2..|p|] == p[2..];
    }
  }

  // feed reads its chunk from where the one before left off, but forgets a trailing ESC.
  lemma FeedReads(t: Tracker, data: string)
    requires Valid(t) && data != ""
    ensures var r := ReadText(ReaderOf(t), data);
            var a := ApplyOps(t.modes, r.ops);
            Feed(t, data) == Fed(Tracker(a.modes, PendingText(r.reader)), a.changed, a.responses)
  {
    hide ReadText, ApplyOps, Scan, Consumed, PendingFrom, Incomplete;
    var text := t.pending + data;
    ReadPending(t);
    ReadCat(Ground, t.pending, data);
    ScanAgrees(text, 0);
    assert text[0..] == text;
    var r := ReadText(ReaderOf(t), data);
    assert [] + r.ops == r.ops;
  }

  lemma {:induction false} LastEscape(r: Reader, data: string)
    requires ValidReader(r) && data != ""
    ensures ReadText(r, data).reader.SawEscape? <==> data[|data| - 1] == ESC
    decreases |data|
  {
    hide IsBody, Close;
    ReadCharValid(r, data[0]);
    if |data| > 1 {
      LastEscape(ReadChar(r, data[0]).reader, data[1..]);
    } else {
      assert data[1..] == "";
    }
  }

  lemma PendingValid(r: Reader)
    requires ValidReader(r)
    ensures PendingText(r) == "" || Incomplete(PendingText(r))
    ensures !r.SawEscape? ==> (if PendingText(r) == "" then Ground else InBody(PendingText(r)[2..])) == r
  {
    if r.InBody? {
      assert PendingText(r)[2..] == r.body;
    }
  }

  lemma FeedValid(t: Tracker, data: string)
    requires Valid(t)
    ensures Valid(Feed(t, data).tracker)
    ensures data != "" && data[|data| - 1] != ESC ==>
              ReaderOf(Feed(t, data).tracker) == ReadText(ReaderOf(t), data).reader
  {
    hide ReadText, ApplyOps, Scan, Feed, Incomplete;
    if data != "" {
      FeedReads(t, data);
      PendingValid(ReadText(ReaderOf(t), data).reader);
      LastEscape(ReaderOf(t), data);
    } else {
      assert Feed(t, data).tracker == t by { FeedNothing(t); }
    }
  }

  lemma FeedNothing(t: Tracker)
    ensures Feed(t, "") == Fed(t, false, [])
  {
  }

  lemma {:induction false} ApplyCat(m: Modes, a: seq<Op>, b: seq<Op>)
    ensures var x := ApplyOps(m, a);
            var y := ApplyOps(x.modes, b);
            ApplyOps(m, a + b) == Result(y.modes, x.changed || y.changed, x.responses + y.responses)
  {
    hide ApplyOp;
    var x := ApplyOps(m, a);
    if b == [] {
      assert a + b == a && x.responses + [] == x.responses;
    } else {
      var init := b[..|b| - 1];
      assert (a + b)[..|a + b| - 1] == a + init;
      ApplyCat(m, a, init);
      var y := ApplyOps(x.modes, init);
      var z := ApplyOp(y.modes, b[|b| - 1]);
      assert x.responses + y.responses + z.responses == x.responses + (y.responses + z.responses);
    }
  }

  // ---- Chunks ----

  function Then(x: Fed, b: string): Fed
  {
    var y := Feed(x.tracker, b);
    Fed(y.tracker, x.changed || y.changed, x.responses + y.responses)
  }

  lemma CutSafe(t: Tracker, a: string, b: string)
    requires Valid(t) && a != "" && a[|a| - 1] != ESC
    ensures Feed(t, a + b) == Then(Feed(t, a), b)
  {
    hide ReadText, ApplyOps, Feed, Valid;
    var x := Feed(t, a);
    if b == "" {
      assert a + b == a && x.responses + [] == x.responses;
      FeedNothing(x.tracker);
    } else {
      FeedReads(t, a + b);
      FeedReads(t, a);
      FeedValid(t, a);
      FeedReads(x.tracker, b);
      var r := ReadText(ReaderOf(t), a);
      ReadCat(ReaderOf(t), a, b);
      ApplyCat(t.modes, r.ops, ReadText(r.reader, b).ops);
    }
  }

  // A cut after a text that ends in ESC is not safe: the rest of the sequence is no longer recognised.
  lemma CutAfterEscape(t: Tracker, a: string)
    requires Valid(t) && a != "" && a[|a| - 1] == ESC
    ensures Feed(t, a + "[>u") != Then(Feed(t, a), "[>u")
  {
    hide ReadText, ApplyOps, Feed, Valid;
    var b := "[>u";
    var x := Feed(t, a);
    FeedReads(t, a + b);
    FeedReads(t, a);
    FeedValid(t, a);
    FeedReads(x.tracker, b);
    var r := ReadText(ReaderOf(t), a);
    LastEscape(ReaderOf(t), a);
    ReadCat(ReaderOf(t), a, b);
    PushReads();
    ApplyCat(t.modes, r.ops, [Kitty(">", "")]);
    PushApplies(x.tracker.modes);
  }

  lemma PushReads()
    ensures ReadText(SawEscape, "[>u") == Read(Ground, [Kitty(">", "")])
    ensures ReadText(Ground, "[>u") == Read(Ground, [])
    ensures PendingText(SawEscape) == "" && PendingText(Ground) == ""
  {
    assert "[>u"[1..] == ">u" && ">u"[1..] == "u" && "u"[1..] == "";
    assert ReadText(Ground, "") == Read(Ground, []);
    assert "" + [">u"[0]] == ">";
    assert ">"[..1] == ">" && ">"[1..] == "";
    assert ReadText(InBody(">"), "u") == Read(Ground, [Kitty(">", "")]);
    assert ReadText(InBody(""), ">u") == Read(Ground, [Kitty(">", "")]);
    assert ReadText(Ground, "u") == Read(Ground, []);
    assert ReadText(Ground, ">u") == Read(Ground, []);
  }

  lemma PushApplies(m: Modes)
    ensures |ApplyOps(m, [Kitty(">", "")]).modes.stack| == |m.stack| + 1 && ApplyOps(m, []).modes == m
  {
    assert [Kitty(">", "")][..0] == [];
  }

  // Cutting after a chunk is safe for every continuation exactly when the chunk does not end in ESC.
  lemma CutSafeIff(t: Tracker, a: string)
    requires Valid(t) && a != ""
    ensures (forall b :: Feed(t, a + b) == Then(Feed(t, a), b)) <==> a[|a| - 1] != ESC
  {
    hide Feed, Valid, Then;
    if a[|a| - 1] != ESC {
      forall b
        ensures Feed(t, a + b) == Then(Feed(t, a), b)
      {
        CutSafe(t, a, b);
      }
    } else {
      CutAfterEscape(t, a);
    }
  }

  function Concat(chunks: seq<string>): string
  {
    if chunks == [] then "" else Concat(chunks[..|chunks| - 1]) + chunks[|chunks| - 1]
  }

  predicate NoneEndsInEscape(chunks: seq<string>)
  {
    forall i :: 0 <= i < |chunks| && chunks[i] != "" ==> chunks[i][|chunks[i]| - 1] != ESC
  }

  lemma {:induction false} ConcatEnd(chunks: seq<string>)
    requires NoneEndsInEscape(chunks)
    ensures Concat(chunks) == "" || Concat(chunks)[|Concat(chunks)| - 1] != ESC
  {
    if chunks != [] {
      ConcatEnd(chunks[..|chunks| - 1]);
    }
  }

  // Feeding chunks of which none ends in ESC is feeding their concatenation: same modes, stack and
  // pending text, same responses, and changed if any chunk changed something.
  lemma {:induction false} ChunksDoNotMatter(t: Tracker, chunks: seq<string>)
    requires Valid(t) && NoneEndsInEscape(chunks)
    ensures FeedAll(t, chunks) == Feed(t, Concat(chunks))
  {
    hide Feed, Valid;
    if chunks == [] {
      FeedNothing(t);
    } else {
      var init, last := chunks[..|chunks| - 1], chunks[|chunks| - 1];
      ChunksDoNotMatter(t, init);
      ConcatEnd(init);
      if Concat(init) == "" {
        FeedNothing(t);
        assert Concat(init) + last == last;
        assert [] + Feed(t, last).responses == Feed(t, last).responses;
      } else {
        CutSafe(t, Concat(init), last);
      }
    }
  }

  // What is left of the reader between two chunks.
  function Resumed(r: Reader): Reader
  {
    if r.SawEscape? then Ground else r
  }

  // The operations of any chunks, those that end in ESC included.
  function ReadChunks(r: Reader, chunks: seq<string>): (out: Read)
    requires ValidReader(r)
    ensures ValidReader(out.reader)
  {
    if chunks == [] then Read(r, [])
    else
      var before := ReadChunks(r, chunks[..|chunks| - 1]);
      if chunks[|chunks| - 1] == "" then before
      else
        var last := ReadText(before.reader, chunks[|chunks| - 1]);
        Read(Resumed(last.reader), before.ops + last.ops)
  }

  lemma FeedResumes(t: Tracker, data: string)
    requires Valid(t) && data != ""
    ensures var r := ReadText(ReaderOf(t), data);
            Valid(Feed(t, data).tracker) && ReaderOf(Feed(t, data).tracker) == Resumed(r.reader)
            && PendingText(r.reader) == PendingText(Resumed(r.reader))
  {
    hide ReadText, ApplyOps, Feed, Incomplete, IsBody;
    FeedReads(t, data);
    FeedValid(t, data);
    PendingValid(ReadText(ReaderOf(t), data).reader);
  }

  // Whatever the chunks, feeding them is applying the operations read.
  lemma {:induction false} FeedAllReads(t: Tracker, chunks: seq<string>)
    requires Valid(t)
    ensures var r := ReadChunks(ReaderOf(t), chunks);
            var a := ApplyOps(t.modes, r.ops);
            var fed := FeedAll(t, chunks);
            && Valid(fed.tracker) && ReaderOf(fed.tracker) == r.reader
            && fed == Fed(Tracker(a.modes, fed.tracker.pending), a.changed, a.responses)
            && (chunks == [] ==> fed.tracker.pending == t.pending)
  {
    hide ReadText, ApplyOps, Feed, Incomplete, IsBody;
    if chunks == [] {
      ApplyNone(t.modes);
    } else {
      var init, last := chunks[..|chunks| - 1], chunks[|chunks| - 1];
      FeedAllReads(t, init);
      var before := FeedAll(t, init);
      if last == "" {
        FeedNothing(before.tracker);
        assert before.responses + [] == before.responses;
      } else {
        FeedReads(before.tracker, last);
        FeedResumes(before.tracker, last);
        ApplyCat(t.modes, ReadChunks(ReaderOf(t), init).ops, ReadText(ReaderOf(before.tracker), last).ops);
      }
    }
  }

  // ---- The keyboard stack ----

  // n pops at once: below the bottom of the stack the flags are 0.
  lemma {:induction false} PopsClosedForm(m: Modes, n: nat)
    ensures Pops(m, n) ==
            if n == 0 then m
            else if n <= |m.stack| then m.(kittyKeyboardFlags := m.stack[|m.stack| - n], stack := m.stack[..|m.stack| - n])
            else m.(kittyKeyboardFlags := 0, stack := [])
    decreases n
  {
    if n > 0 {
      var next := if m.stack == [] then m.(kittyKeyboardFlags := 0)
                  else m.(kittyKeyboardFlags := m.stack[|m.stack| - 1], stack := m.stack[..|m.stack| - 1]);
      PopsClosedForm(next, n - 1);
    }
  }

  // ---- Restoring ----

  // A sequence on its own reads as its operation.
  lemma ReadSequence(body: string, final: char)
    requires IsBody(body) && final != ESC && !Expects(body, final) && Close(body, final).Some?
    ensures ReadText(Ground, [ESC] + "[" + body + [final]) == Read(Ground, [Close(body, final).value])
  {
    hide IsBody, Close, Expects;
    var s := [ESC] + "[" + body + [final];
    assert s[2..] == body + [final];
    StartReads(s);
    ReadCat(InBody(""), body, [final]);
    var text := body;
    assert text[0..] == text;
    if BodyEnd(text, 0) < |text| {
      BodyEndsEarly(text, 0);
    }
    ReadBody(text, 0);
    assert text[0..|text|] == text;
    assert [final][1..] == "";
    ClosedReads(body, [final]);
    assert ReadText(Ground, "") == Read(Ground, []);
  }

  function PreambleOps(m: Modes): seq<Op>
  {
    (if m.kittyKeyboardFlags > 0 then [Kitty("=", PrintNat(m.kittyKeyboardFlags) + ";1")] else []) +
    (if m.win32InputMode then [PrivateMode("9001", true)] else []) +
    (if m.applicationCursorKeys then [PrivateMode("1", true)] else []) +
    (if m.bracketedPaste then [PrivateMode("2004", true)] else [])
  }

  lemma ReadPart(s: string, body: string, final: char, op: Op)
    requires s == [ESC] + "[" + body + [final]
    requires IsBody(body) && final != ESC && !Expects(body, final) && Close(body, final) == Some(op)
    ensures ReadText(Ground, s) == Read(Ground, [op])
  {
    ReadSequence(body, final);
  }

  lemma PrivateParts()
    ensures ReadText(Ground, [ESC] + "[?9001h") == Read(Ground, [PrivateMode("9001", true)])
    ensures ReadText(Ground, [ESC] + "[?1h") == Read(Ground, [PrivateMode("1", true)])
    ensures ReadText(Ground, [ESC] + "[?2004h") == Read(Ground, [PrivateMode("2004", true)])
  {
    hide ReadText;
    assert "?9001"[..1] == "?" && "?9001"[1..] == "9001";
    ReadPart([ESC] + "[?9001h", "?9001", 'h', PrivateMode("9001", true));
    assert "?1"[..1] == "?" && "?1"[1..] == "1";
    ReadPart([ESC] + "[?1h", "?1", 'h', PrivateMode("1", true));
    assert "?2004"[..1] == "?" && "?2004"[1..] == "2004";
    ReadPart([ESC] + "[?2004h", "?2004", 'h', PrivateMode("2004", true));
  }

  lemma KittyPart(n: nat)
    ensures ReadText(Ground, [ESC] + "[=" + PrintNat(n) + ";1u") == Read(Ground, [Kitty("=", PrintNat(n) + ";1")])
  {
    hide ReadText, PrintNat;
    var body := "=" + PrintNat(n) + ";1";
    assert body[1..] == PrintNat(n) + ";1" && body[..1] == "=";
    assert [ESC] + "[=" + PrintNat(n) + ";1u" == [ESC] + "[" + body + ['u'];
    ReadPart([ESC] + "[=" + PrintNat(n) + ";1u", body, 'u', Kitty("=", PrintNat(n) + ";1"));
  }

  lemma ReadTwo(a: string, x: seq<Op>, b: string, y: seq<Op>)
    requires ReadText(Ground, a) == Read(Ground, x) && ReadText(Ground, b) == Read(Ground, y)
    ensures ReadText(Ground, a + b) == Read(Ground, x + y)
  {
    ReadCat(Ground, a, b);
  }

  lemma ReadNothing()
    ensures ReadText(Ground, "") == Read(Ground, [])
  {
  }

  lemma ReadPreamble(m: Modes)
    ensures ReadText(Ground, Preamble(m)) == Read(Ground, PreambleOps(m))
  {
    hide ReadText, PrintNat;
    PrivateParts();
    KittyPart(m.kittyKeyboardFlags);
    ReadNothing();
    var n := PrintNat(m.kittyKeyboardFlags);
    var a := if m.kittyKeyboardFlags > 0 then [ESC] + "[=" + n + ";1u" else "";
    var x := if m.kittyKeyboardFlags > 0 then [Kitty("=", n + ";1")] else [];
    var b := if m.win32InputMode then [ESC] + "[?9001h" else "";
    var y := if m.win32InputMode then [PrivateMode("9001", true)] else [];
    var c := if m.applicationCursorKeys then [ESC] + "[?1h" else "";
    var z := if m.applicationCursorKeys then [PrivateMode("1", true)] else [];
    var d := if m.bracketedPaste then [ESC] + "[?2004h" else "";
    var w := if m.bracketedPaste then [PrivateMode("2004", true)] else [];
    ReadTwo(a, x, b, y);
    ReadTwo(a + b, x + y, c, z);
    ReadTwo(a + b + c, x + y + z, d, w);
  }

  lemma ParamsOfPreamble(n: nat)
    ensures FirstParam(PrintNat(n) + ";1") == Some(n) && SecondParam(PrintNat(n) + ";1") == Some(1)
  {
    hide PrintNat, Split, ParseNat;
    var p := PrintNat(n);
    assert p + ";1" == p + [';'] + "1";
    assert ';' !in p;
    SplitFirst(p, "1", ';');
    SplitWithout("1", ';');
    ParsePrintNat(n);
    assert ParseNat("1") == 1 by { ParseOneDigit(); }
  }

  lemma ParseOneDigit()
    ensures ParseNat("1") == 1
  {
  }

  lemma SingleMode(params: string, n: nat, mode: nat)
    requires params != "" && AllDigits(params) && ParseNat(params) == n
    ensures HasMode(params, mode) <==> mode == n
  {
    hide ParseNat;
    SplitWithout(params, ';');
    assert Split(params, ';') == [params];
  }

  lemma PrivateNumbers()
    ensures ParseNat("9001") == 9001 && ParseNat("1") == 1 && ParseNat("2004") == 2004
  {
    assert "9001"[..3] == "900" && "900"[..2] == "90" && "90"[..1] == "9" && "9"[..0] == "";
    assert ParseNat("9") == 9 && ParseNat("90") == 90 && ParseNat("900") == 900;
    assert "2004"[..3] == "200" && "200"[..2] == "20" && "20"[..1] == "2" && "2"[..0] == "";
    assert ParseNat("2") == 2 && ParseNat("20") == 20 && ParseNat("200") == 200;
  }

  lemma ApplyOne(m: Modes, op: Op)
    ensures ApplyOps(m, [op]) == ApplyOp(m, op)
  {
    hide ApplyOp;
    assert [op][..0] == [];
    var r := ApplyOp(m, op);
    assert [] + r.responses == r.responses;
  }

  lemma ApplyNone(m: Modes)
    ensures ApplyOps(m, []) == Result(m, false, [])
  {
  }

  lemma PrivateSets(m: Modes)
    ensures ApplyOps(m, [PrivateMode("9001", true)]).modes == m.(win32InputMode := true)
    ensures ApplyOps(m, [PrivateMode("1", true)]).modes == m.(applicationCursorKeys := true)
    ensures ApplyOps(m, [PrivateMode("2004", true)]).modes == m.(bracketedPaste := true)
    ensures forall op | op in {PrivateMode("9001", true), PrivateMode("1", true), PrivateMode("2004", true)} ::
              ApplyOps(m, [op]).responses == []
  {
    hide HasMode, ApplyOps, ParseNat;
    PrivateNumbers();
    forall mode
      ensures HasMode("9001", mode) <==> mode == 9001
      ensures HasMode("1", mode) <==> mode == 1
      ensures HasMode("2004", mode) <==> mode == 2004
    {
      SingleMode("9001", 9001, mode);
      SingleMode("1", 1, mode);
      SingleMode("2004", 2004, mode);
    }
    ApplyOne(m, PrivateMode("9001", true));
    ApplyOne(m, PrivateMode("1", true));
    ApplyOne(m, PrivateMode("2004", true));
  }

  lemma KittySets(m: Modes, n: nat)
    ensures ApplyOps(m, [Kitty("=", PrintNat(n) + ";1")]).modes == m.(kittyKeyboardFlags := n)
    ensures ApplyOps(m, [Kitty("=", PrintNat(n) + ";1")]).responses == []
  {
    hide PrintNat, FirstParam, SecondParam, ApplyOps;
    ApplyOne(m, Kitty("=", PrintNat(n) + ";1"));
    ParamsOfPreamble(n);
  }

  lemma PreambleSets(m: Modes)
    ensures ApplyOps(INITIAL, PreambleOps(m)).modes == m.(stack := [])
    ensures ApplyOps(INITIAL, PreambleOps(m)).responses == []
  {
    hide ApplyOps, PrintNat;
    var x := if m.kittyKeyboardFlags > 0 then [Kitty("=", PrintNat(m.kittyKeyboardFlags) + ";1")] else [];
    var y := if m.win32InputMode then [PrivateMode("9001", true)] else [];
    var z := if m.applicationCursorKeys then [PrivateMode("1", true)] else [];
    var w := if m.bracketedPaste then [PrivateMode("2004", true)] else [];
    KittySets(INITIAL, m.kittyKeyboardFlags);
    ApplyNone(INITIAL);
    var m1 := ApplyOps(INITIAL, x).modes;
    PrivateSets(m1);
    ApplyNone(m1);
    var m2 := ApplyOps(m1, y).modes;
    PrivateSets(m2);
    ApplyNone(m2);
    var m3 := ApplyOps(m2, z).modes;
    PrivateSets(m3);
    ApplyNone(m3);
    ApplyCat(INITIAL, x, y);
    ApplyCat(INITIAL, x + y, z);
    ApplyCat(INITIAL, x + y + z, w);
  }

  // A fresh tracker that is fed the preamble has the modes of the original, with an empty stack and nothing
  // pending, and answers nothing.
  lemma PreambleRestores(m: Modes)
    ensures var r := Feed(Tracker(INITIAL, ""), Preamble(m));
            r.tracker == Tracker(m.(stack := []), "") && r.responses == []
  {
    hide ReadText, ApplyOps, Preamble, PreambleOps, Feed;
    var t := Tracker(INITIAL, "");
    ReadPreamble(m);
    PreambleSets(m);
    if Preamble(m) == "" {
      FeedNothing(t);
      ReadNothing();
      ApplyNone(INITIAL);
    } else {
      FeedReads(t, Preamble(m));
    }
  }

  // ---- After the restore ----

  // The same modes on top of what the restored tracker does not know of.
  function Over(base: seq<nat>, m: Modes): Modes
  {
    m.(stack := base + m.stack)
  }

  function DepthAfter(depth: nat, op: Op): nat
  {
    if op.Kitty? && op.prefix == ">" then depth + 1
    else if op.Kitty? && op.prefix == "<" then (if PopCount(op.params) <= depth then depth - PopCount(op.params) else 0)
    else depth
  }

  // The depth of a stack that starts empty, after the operations.
  function Depth(ops: seq<Op>): nat
  {
    if ops == [] then 0 else DepthAfter(Depth(ops[..|ops| - 1]), ops[|ops| - 1])
  }

  // No pop goes below what was on the stack at the restore.
  predicate StaysAbove(ops: seq<Op>)
  {
    ops == [] ||
    (StaysAbove(ops[..|ops| - 1]) &&
     (ops[|ops| - 1].Kitty? && ops[|ops| - 1].prefix == "<" ==> PopCount(ops[|ops| - 1].params) <= Depth(ops[..|ops| - 1])))
  }

  lemma OpOver(base: seq<nat>, m: Modes, op: Op)
    requires op.Kitty? && op.prefix == "<" ==> PopCount(op.params) <= |m.stack|
    ensures var r := ApplyOp(m, op);
            ApplyOp(Over(base, m), op) == r.(modes := Over(base, r.modes))
    ensures |ApplyOp(m, op).modes.stack| == DepthAfter(|m.stack|, op)
  {
    hide FirstParam, SecondParam, HasMode, PrintNat;
    if op.Kitty? && op.prefix == "<" {
      var n := PopCount(op.params);
      PopsClosedForm(m, n);
      PopsClosedForm(Over(base, m), n);
      assert (base + m.stack)[..|base| + |m.stack| - n] == base + m.stack[..|m.stack| - n];
    } else if op.Kitty? && op.prefix == ">" {
      assert base + m.stack + [m.kittyKeyboardFlags] == base + (m.stack + [m.kittyKeyboardFlags]);
    }
  }

  lemma {:induction false} OpsOver(base: seq<nat>, m: Modes, ops: seq<Op>)
    requires m.stack == [] && StaysAbove(ops)
    ensures var r := ApplyOps(m, ops);
            ApplyOps(Over(base, m), ops) == r.(modes := Over(base, r.modes))
    ensures |ApplyOps(m, ops).modes.stack| == Depth(ops)
  {
    hide ApplyOp, PopCount;
    if ops != [] {
      OpsOver(base, m, ops[..|ops| - 1]);
      OpOver(base, ApplyOps(m, ops[..|ops| - 1]).modes, ops[|ops| - 1]);
    }
  }

  // What getState returns, and the answers.
  predicate SameView(x: Fed, y: Fed)
  {
    && x.tracker.modes.(stack := []) == y.tracker.modes.(stack := [])
    && x.tracker.pending == y.tracker.pending
    && x.responses == y.responses
    && x.changed == y.changed
  }

  // Pending text is equivalent to feeding it first.
  lemma PendingFirst(t: Tracker, chunks: seq<string>)
    requires Valid(t)
    ensures FeedAll(t, chunks) == FeedAll(Tracker(t.modes, ""), [t.pending] + chunks)
  {
    hide ReadText, ApplyOps, Feed, Valid, ReadChunks;
    var clean := Tracker(t.modes, "");
    var first := FeedAll(clean, [t.pending]);
    FeedPending(t);
    FeedAllCat(clean, [t.pending], chunks);
    var rest := FeedAll(t, chunks);
    assert [] + rest.responses == rest.responses;
  }

  lemma FeedPending(t: Tracker)
    requires Valid(t)
    ensures FeedAll(Tracker(t.modes, ""), [t.pending]) == Fed(t, false, [])
  {
    hide ReadText, ApplyOps, Feed, Incomplete, IsBody;
    var clean := Tracker(t.modes, "");
    assert [t.pending][..0] == [] && FeedAll(clean, []) == Fed(clean, false, []);
    if t.pending == "" {
      FeedNothing(clean);
    } else {
      ReadPending(t);
      FeedReads(clean, t.pending);
      ApplyNone(t.modes);
      PendingOf(t);
    }
    var fed := Feed(clean, t.pending);
    assert [] + fed.responses == fed.responses;
  }

  lemma PendingOf(t: Tracker)
    requires Valid(t)
    ensures PendingText(ReaderOf(t)) == t.pending
  {
    if t.pending != "" {
      assert t.pending == [ESC] + "[" + t.pending[2..];
    }
  }

  lemma {:induction false} FeedAllCat(t: Tracker, a: seq<string>, b: seq<string>)
    ensures var x := FeedAll(t, a);
            var y := FeedAll(x.tracker, b);
            FeedAll(t, a + b) == Fed(y.tracker, x.changed || y.changed, x.responses + y.responses)
  {
    hide Feed;
    var x := FeedAll(t, a);
    if b == [] {
      assert a + b == a && x.responses + [] == x.responses;
    } else {
      var init, last := b[..|b| - 1], b[|b| - 1];
      assert (a + b)[..|a + b| - 1] == a + init;
      FeedAllCat(t, a, init);
      var y := FeedAll(x.tracker, init);
      var z := Feed(y.tracker, last);
      assert x.responses + y.responses + z.responses == x.responses + (y.responses + z.responses);
    }
  }

  // What a tracker is restored to: the preamble, and then the pending text.
  function Restored(t: Tracker): Tracker
  {
    FeedAll(Tracker(INITIAL, ""), [Preamble(t.modes), t.pending]).tracker
  }

  lemma RestoredIs(t: Tracker)
    requires Valid(t)
    ensures Restored(t) == Tracker(t.modes.(stack := []), t.pending)
  {
    hide Feed, Preamble, Valid;
    var preamble := Preamble(t.modes);
    PreambleRestores(t.modes);
    var plain := t.modes.(stack := []);
    assert FeedAll(Tracker(INITIAL, ""), [preamble]).tracker == Tracker(plain, "") by {
      assert [preamble][..0] == [];
    }
    assert [preamble] + [t.pending] == [preamble, t.pending];
    FeedAllCat(Tracker(INITIAL, ""), [preamble], [t.pending]);
    assert Valid(Tracker(plain, t.pending)) by { SamePending(t, plain); }
    FeedPending(Tracker(plain, t.pending));
  }

  lemma SamePending(t: Tracker, m: Modes)
    requires Valid(t)
    ensures Valid(Tracker(m, t.pending)) && ReaderOf(Tracker(m, t.pending)) == ReaderOf(t)
  {
  }

  // However the continuation comes in chunks: as long as no pop goes below the restore point, the restored
  // tracker cannot be told from the original.
  lemma RestoredFollows(t: Tracker, chunks: seq<string>)
    requires Valid(t) && StaysAbove(ReadChunks(ReaderOf(t), chunks).ops)
    ensures SameView(FeedAll(t, chunks), FeedAll(Restored(t), chunks))
  {
    hide ReadChunks, ApplyOps, FeedAll, Valid, StaysAbove, Restored;
    RestoredIs(t);
    var plain := t.modes.(stack := []);
    SamePending(t, plain);
    FeedAllReads(t, chunks);
    FeedAllReads(Tracker(plain, t.pending), chunks);
    var ops := ReadChunks(ReaderOf(t), chunks).ops;
    OpsOver(t.modes.stack, plain, ops);
    assert Over(t.modes.stack, plain) == t.modes by { OverPlain(t.modes); }
    SameReaderSamePending(FeedAll(t, chunks).tracker, FeedAll(Tracker(plain, t.pending), chunks).tracker);
  }

  lemma SameReaderSamePending(t: Tracker, u: Tracker)
    requires Valid(t) && Valid(u) && ReaderOf(t) == ReaderOf(u)
    ensures t.pending == u.pending
  {
    PendingOf(t);
    PendingOf(u);
  }

  lemma OverPlain(m: Modes)
    ensures Over(m.stack, m.(stack := [])) == m
  {
    assert m.stack + [] == m.stack;
  }

  predicate AllZero(s: seq<nat>)
  {
    forall i :: 0 <= i < |s| ==> s[i] == 0
  }

  // t is r on top of zeros only.
  ghost predicate OverZeros(t: Modes, r: Modes)
  {
    exists base :: AllZero(base) && t == Over(base, r)
  }

  // A pop past the restored stack takes zeros off the lost one.
  lemma DeepPop(base: seq<nat>, r: Modes, n: nat)
    requires AllZero(base) && n > |r.stack|
    ensures OverZeros(Pops(Over(base, r), n), Pops(r, n))
  {
    var t := Over(base, r);
    PopsClosedForm(t, n);
    PopsClosedForm(r, n);
    hide Pops;
    var left := if n <= |t.stack| then base[..|t.stack| - n] else [];
    if n <= |t.stack| {
      assert t.stack[..|t.stack| - n] == left;
      assert t.stack[|t.stack| - n] == base[|t.stack| - n] == 0;
    }
    assert left + [] == left;
    assert AllZero(left) && Pops(t, n) == Over(left, Pops(r, n));
  }

  lemma SameFlags(t: Modes, r: Modes)
    requires OverZeros(t, r)
    ensures t.(stack := []) == r.(stack := [])
  {
  }

  lemma OpOverZeros(t: Modes, r: Modes, op: Op)
    requires OverZeros(t, r)
    ensures var x, y := ApplyOp(t, op), ApplyOp(r, op);
            OverZeros(x.modes, y.modes) && x.changed == y.changed && x.responses == y.responses
  {
    hide FirstParam, SecondParam, HasMode, PrintNat, AllZero, Pops, PopCount;
    SameFlags(t, r);
    var base :| AllZero(base) && t == Over(base, r);
    if op.Kitty? && op.prefix == "<" && PopCount(op.params) > |r.stack| {
      var n := PopCount(op.params);
      DeepPop(base, r, n);
      hide OverZeros;
      SameFlags(Pops(t, n), Pops(r, n));
    } else {
      OpOver(base, r, op);
      hide ApplyOp;
      assert ApplyOp(t, op).modes == Over(base, ApplyOp(r, op).modes);
    }
  }

  lemma {:induction false} OpsOverZeros(t: Modes, r: Modes, ops: seq<Op>)
    requires OverZeros(t, r)
    ensures var x, y := ApplyOps(t, ops), ApplyOps(r, ops);
            OverZeros(x.modes, y.modes) && x.changed == y.changed && x.responses == y.responses
  {
    hide ApplyOp, OverZeros;
    if ops != [] {
      OpsOverZeros(t, r, ops[..|ops| - 1]);
      OpOverZeros(ApplyOps(t, ops[..|ops| - 1]).modes, ApplyOps(r, ops[..|ops| - 1]).modes, ops[|ops| - 1]);
    }
  }

  function PopText(n: nat): string
  {
    [ESC] + "[<" + PrintNat(n) + "u"
  }

  lemma PopTextReads(n: nat)
    ensures ReadText(Ground, PopText(n)) == Read(Ground, [Kitty("<", PrintNat(n))])
    ensures FirstParam(PrintNat(n)) == Some(n)
  {
    hide ReadText, PrintNat;
    var body := "<" + PrintNat(n);
    assert body[1..] == PrintNat(n) && body[..1] == "<";
    assert PopText(n) == [ESC] + "[" + body + ['u'];
    ReadPart(PopText(n), body, 'u', Kitty("<", PrintNat(n)));
    SplitWithout(PrintNat(n), ';');
    ParsePrintNat(n);
  }

  // From any pending text on, a pop reads as itself: its ESC breaks off what was unfinished.
  lemma PopChunkReads(r: Reader, n: nat)
    requires ValidReader(r) && !r.SawEscape?
    ensures ReadChunks(r, [PopText(n)]).ops == [Kitty("<", PrintNat(n))]
  {
    hide ReadText, PrintNat, IsBody;
    PopTextReads(n);
    var pop := PopText(n);
    var one := [pop];
    assert one[..0] == [] && ReadChunks(r, []) == Read(r, []);
    assert pop[0] == ESC;
    hide PopText;
    EscapeBreaks(r);
    ReadForgets(r, pop);
    var ops := ReadText(r, pop).ops;
    assert [] + ops == ops;
  }

  lemma EscapeBreaks(r: Reader)
    requires ValidReader(r) && !r.SawEscape?
    ensures ReadChar(r, ESC) == ReadChar(Ground, ESC)
  {
  }

  // Popping down to a non-zero entry of the original's stack tells the two apart.
  lemma NonZeroTold(t: Tracker, i: nat)
    requires Valid(t) && i < |t.modes.stack| && t.modes.stack[i] != 0
    ensures !SameView(FeedAll(t, [PopText(|t.modes.stack| - i)]), FeedAll(Restored(t), [PopText(|t.modes.stack| - i)]))
  {
    hide ReadChunks, PrintNat, ApplyOps, FirstParam, SecondParam, HasMode, FeedAll, Valid, Restored, Strings.Split, Strings.ParseNat;
    var n := |t.modes.stack| - i;
    var plain := t.modes.(stack := []);
    RestoredIs(t);
    SamePending(t, plain);
    PopTextReads(n);
    hide PopText;
    var r := ReaderOf(t);
    assert !r.SawEscape? by { NeverEscape(t); }
    PopChunkReads(r, n);
    FeedAllReads(t, [PopText(n)]);
    FeedAllReads(Tracker(plain, t.pending), [PopText(n)]);
    ApplyOne(t.modes, Kitty("<", PrintNat(n)));
    ApplyOne(plain, Kitty("<", PrintNat(n)));
    PopsClosedForm(t.modes, n);
    PopsClosedForm(plain, n);
  }

  lemma NeverEscape(t: Tracker)
    requires Valid(t)
    ensures !ReaderOf(t).SawEscape?
  {
  }

  // On all continuations, however they are cut and whatever they pop, the restored tracker cannot be told from
  // the original exactly when the stack it lost held nothing but zeros.
  lemma RestoredFollowsIff(t: Tracker)
    requires Valid(t)
    ensures (forall chunks :: SameView(FeedAll(t, chunks), FeedAll(Restored(t), chunks))) <==> AllZero(t.modes.stack)
  {
    hide FeedAll, SameView, PopText, Restored, Valid;
    if AllZero(t.modes.stack) {
      forall chunks
        ensures SameView(FeedAll(t, chunks), FeedAll(Restored(t), chunks))
      {
        ZerosFollow(t, chunks);
      }
    } else {
      var i :| 0 <= i < |t.modes.stack| && t.modes.stack[i] != 0;
      NonZeroTold(t, i);
    }
  }

  lemma ZerosFollow(t: Tracker, chunks: seq<string>)
    requires Valid(t) && AllZero(t.modes.stack)
    ensures SameView(FeedAll(t, chunks), FeedAll(Restored(t), chunks))
  {
    hide ReadChunks, ApplyOps, FeedAll, Valid, Restored;
    var plain := t.modes.(stack := []);
    RestoredIs(t);
    SamePending(t, plain);
    FeedAllReads(t, chunks);
    FeedAllReads(Tracker(plain, t.pending), chunks);
    OverPlain(t.modes);
    OpsOverZeros(t.modes, plain, ReadChunks(ReaderOf(t), chunks).ops);
    SameReaderSamePending(FeedAll(t, chunks).tracker, FeedAll(Tracker(plain, t.pending), chunks).tracker);
  }

  // The preamble alone does not bring the pending text back: what the original does on any chunks is what it
  // would do on the pending text and then the chunks (PendingFirst), and the two are alike on all chunks exactly
  // when there was no such text and only zeros are lost.
  lemma PreambleAloneFollowsIff(t: Tracker)
    requires Valid(t)
    ensures (forall chunks ::
               SameView(FeedAll(t, chunks), FeedAll(Feed(Tracker(INITIAL, ""), Preamble(t.modes)).tracker, chunks)))
            <==> t.pending == "" && AllZero(t.modes.stack)
  {
    hide Feed, Preamble, Valid, AllZero, Restored;
    PreambleRestores(t.modes);
    var bare := Tracker(t.modes.(stack := []), "");
    if t.pending == "" {
      RestoredIs(t);
      RestoredFollowsIff(t);
    } else {
      assert !SameView(FeedAll(t, []), FeedAll(bare, []));
    }
  }
}
