// What a sequence of a terminal program does to the tracker, from its text: which fields change and how, and what
// is answered.

module InputModeLaws {
  import opened Wrappers
  import opened Strings
  import opened InputMode
  import opened InputModeStream
  import opened InputModeRestore

  // The parameters as they are written; one may be empty.
  predicate Params(ps: seq<string>)
  {
    ps != [] && forall i :: 0 <= i < |ps| ==> AllDigits(ps[i])
  }

  function Sequence(prefix: string, ps: seq<string>, final: char): string
  {
    [ESC] + "[" + (prefix + Join(ps, ';')) + [final]
  }

  function Number(ps: seq<string>, k: nat, default: nat): nat
    requires Params(ps)
  {
    if k < |ps| && ps[k] != "" then ParseNat(ps[k]) else default
  }

  predicate Names(ps: seq<string>, mode: nat)
    requires Params(ps)
  {
    exists k :: 0 <= k < |ps| && ps[k] != "" && ParseNat(ps[k]) == mode
  }

  predicate Prefix(prefix: string)
  {
    prefix in {"", "<", ">", "=", "?"}
  }

  lemma {:induction false} JoinedParams(ps: seq<string>)
    requires Params(ps)
    ensures AllParams(Join(ps, ';'))
  {
    if |ps| > 1 {
      JoinedParams(ps[1..]);
    }
  }

  lemma SplitParams(ps: seq<string>)
    requires Params(ps)
    ensures Split(Join(ps, ';'), ';') == ps
  {
    forall i | 0 <= i < |ps|
      ensures ';' !in ps[i]
    {
      assert AllDigits(ps[i]);
    }
    SplitJoin(ps, ';');
  }

  // Every list of parameters the expression lets through is of this form.
  lemma ParamsAre(params: string)
    requires AllParams(params)
    ensures Params(Split(params, ';')) && Join(Split(params, ';'), ';') == params
  {
    JoinSplit(params, ';');
    SplitDigits(params);
  }

  lemma {:induction false} SplitDigits(params: string)
    requires AllParams(params)
    ensures Params(Split(params, ';'))
  {
    if params != "" {
      SplitDigits(params[1..]);
    }
  }

  lemma NumbersRead(ps: seq<string>)
    requires Params(ps)
    ensures forall default: nat :: Or(FirstParam(Join(ps, ';')), default) == Number(ps, 0, default)
    ensures forall default: nat :: Or(SecondParam(Join(ps, ';')), default) == Number(ps, 1, default)
    ensures forall mode: nat :: HasMode(Join(ps, ';'), mode) <==> Names(ps, mode)
  {
    hide ParseNat, Split, Join, AllDigits;
    SplitParams(ps);
  }

  lemma BodyParts(prefix: string, params: string)
    requires Prefix(prefix) && AllParams(params)
    ensures IsBody(prefix + params)
    ensures Close(prefix + params, 'u') == Some(Kitty(prefix, params))
    ensures prefix == "?" ==> forall final | final in {'h', 'l'} ::
              Close(prefix + params, final) == Some(PrivateMode(params, final == 'h'))
    ensures forall final | final != 'u' && (prefix != "?" || final !in {'h', 'l'}) :: Close(prefix + params, final).None?
  {
    var body := prefix + params;
    if prefix == "" {
      assert body == params;
      assert body != "" ==> IsParamChar(body[0]);
    } else {
      assert body[..1] == prefix && body[1..] == params;
    }
  }

  // A sequence breaks off whatever was pending and leaves nothing pending itself.
  lemma FeedSequence(t: Tracker, body: string, final: char)
    requires Valid(t) && IsBody(body) && final != ESC && !Expects(body, final)
    ensures var s, op := [ESC] + "[" + body + [final], Close(body, final);
            Feed(t, s) ==
            if op.None? then Fed(Tracker(t.modes, ""), false, [])
            else
              var a := ApplyOp(t.modes, op.value);
              Fed(Tracker(a.modes, ""), a.changed, a.responses)
  {
    hide IsBody, Close, Expects, ApplyOp, Feed, ReadText;
    var s := [ESC] + "[" + body + [final];
    FeedReads(t, s);
    EscapeStarts(ReaderOf(t), s);
    if Close(body, final).Some? {
      ReadSequence(body, final);
      ApplyOne(t.modes, Close(body, final).value);
    } else {
      ReadOther(body, final);
      ApplyNone(t.modes);
    }
  }

  lemma EscapeStarts(r: Reader, s: string)
    requires ValidReader(r) && s != "" && s[0] == ESC
    ensures ReadText(r, s) == ReadText(Ground, s)
  {
  }

  // A sequence that is none of these reads as nothing.
  lemma ReadOther(body: string, final: char)
    requires IsBody(body) && final != ESC && !Expects(body, final) && Close(body, final).None?
    ensures ReadText(Ground, [ESC] + "[" + body + [final]) == Read(Ground, [])
  {
    hide IsBody, Close, Expects;
    var s := [ESC] + "[" + body + [final];
    assert s[2..] == body + [final] && body[0..] == body && body[0..|body|] == body;
    StartReads(s);
    ReadCat(InBody(""), body, [final]);
    if BodyEnd(body, 0) < |body| {
      BodyEndsEarly(body, 0);
    }
    ReadBody(body, 0);
    BrokenReads(body, [final]);
    ReadGround(final);
  }

  lemma ReadGround(c: char)
    requires c != ESC
    ensures ReadText(Ground, [c]) == Read(Ground, [])
  {
    assert [c][1..] == "" && ReadText(Ground, "") == Read(Ground, []);
  }

  lemma FinalEnds(prefix: string, params: string, final: char)
    requires Prefix(prefix) && AllParams(params) && !IsParamChar(final) && !IsPrefixChar(final)
    ensures !Expects(prefix + params, final)
  {
  }

  lemma SequenceFed(t: Tracker, prefix: string, ps: seq<string>, final: char)
    requires Valid(t) && Prefix(prefix) && Params(ps)
    requires final != ESC && !IsParamChar(final) && !IsPrefixChar(final)
    ensures var params := Join(ps, ';');
            var f := Feed(t, Sequence(prefix, ps, final));
            f == if final == 'u' then Applied(ApplyKitty(t.modes, prefix, params))
                 else if prefix == "?" && final in {'h', 'l'} then Applied(ApplyPrivate(t.modes, params, final == 'h'))
                 else Fed(Tracker(t.modes, ""), false, [])
  {
    hide Feed, ApplyKitty, ApplyPrivate, Valid, Close, IsBody, Join, Params, Expects, AllParams;
    var params := Join(ps, ';');
    JoinedParams(ps);
    BodyParts(prefix, params);
    FinalEnds(prefix, params, final);
    FeedSequence(t, prefix + params, final);
  }

  function Applied(r: InputMode.Result): Fed
  {
    Fed(Tracker(r.modes, ""), r.changed, r.responses)
  }

  // ---- The keyboard ----

  // A push keeps the flags on the stack and takes the first parameter, or 1.
  lemma PushKeeps(t: Tracker, ps: seq<string>)
    requires Valid(t) && Params(ps)
    ensures var f, m := Feed(t, Sequence(">", ps, 'u')), t.modes;
            && f.responses == [] && f.tracker.pending == ""
            && f.tracker.modes == m.(kittyKeyboardFlags := Number(ps, 0, 1), stack := m.stack + [m.kittyKeyboardFlags])
            && (f.changed <==> f.tracker.modes.kittyKeyboardFlags != m.kittyKeyboardFlags)
  {
    hide Feed, Valid, Params, Join, FirstParam, SecondParam, HasMode;
    SequenceFed(t, ">", ps, 'u');
    NumbersRead(ps);
  }

  // A set without a second parameter 0 takes the first, or 0; with it the flags are cleared.
  lemma SetReplaces(t: Tracker, ps: seq<string>)
    requires Valid(t) && Params(ps)
    ensures var f, m := Feed(t, Sequence("=", ps, 'u')), t.modes;
            && f.responses == [] && f.tracker.pending == ""
            && f.tracker.modes == m.(kittyKeyboardFlags := if Number(ps, 1, 1) == 0 then 0 else Number(ps, 0, 0))
            && (f.changed <==> f.tracker.modes.kittyKeyboardFlags != m.kittyKeyboardFlags)
  {
    hide Feed, Valid, Params, Join, FirstParam, SecondParam, HasMode;
    SequenceFed(t, "=", ps, 'u');
    NumbersRead(ps);
  }

  // A pop takes away as many entries as the first parameter says, at least one; the flags are the last taken, or 0
  // below the bottom.
  lemma PopTakes(t: Tracker, ps: seq<string>)
    requires Valid(t) && Params(ps)
    ensures var f, m := Feed(t, Sequence("<", ps, 'u')), t.modes;
            var n := if Number(ps, 0, 1) == 0 then 1 else Number(ps, 0, 1);
            && f.responses == [] && f.tracker.pending == ""
            && f.tracker.modes == (if n > |m.stack| then m.(kittyKeyboardFlags := 0, stack := [])
                                   else m.(kittyKeyboardFlags := m.stack[|m.stack| - n], stack := m.stack[..|m.stack| - n]))
            && (f.changed <==> f.tracker.modes.kittyKeyboardFlags != m.kittyKeyboardFlags)
  {
    hide Feed, Valid, Params, Join, FirstParam, SecondParam, HasMode, Pops;
    SequenceFed(t, "<", ps, 'u');
    NumbersRead(ps);
    PopsClosedForm(t.modes, PopCount(Join(ps, ';')));
  }

  // A query is answered with the flags and changes nothing; without a prefix the sequence is passed over.
  lemma QueryAnswers(t: Tracker, ps: seq<string>)
    requires Valid(t) && Params(ps)
    ensures Feed(t, Sequence("?", ps, 'u')) ==
            Fed(Tracker(t.modes, ""), false, [[ESC] + "[?" + PrintNat(t.modes.kittyKeyboardFlags) + "u"])
    ensures Feed(t, Sequence("", ps, 'u')) == Fed(Tracker(t.modes, ""), false, [])
  {
    hide Feed, Valid, Params, Join, PrintNat;
    SequenceFed(t, "?", ps, 'u');
    SequenceFed(t, "", ps, 'u');
  }

  // ---- The private modes ----

  // h switches on and l switches off exactly the modes named among the parameters.
  lemma PrivateSwitches(t: Tracker, ps: seq<string>, on: bool)
    requires Valid(t) && Params(ps)
    ensures var f, m := Feed(t, Sequence("?", ps, if on then 'h' else 'l')), t.modes;
            && f.responses == [] && f.tracker.pending == ""
            && f.tracker.modes == Modes(m.kittyKeyboardFlags, if Names(ps, 9001) then on else m.win32InputMode,
                                        if Names(ps, 1) then on else m.applicationCursorKeys,
                                        if Names(ps, 2004) then on else m.bracketedPaste, m.stack)
            && (f.changed <==> f.tracker.modes != m)
  {
    hide Feed, Valid, Params, Join, FirstParam, SecondParam, HasMode, Names;
    SequenceFed(t, "?", ps, if on then 'h' else 'l');
    NumbersRead(ps);
  }

  // Any other sequence of this shape is passed over.
  lemma OthersPass(t: Tracker, prefix: string, ps: seq<string>, final: char)
    requires Valid(t) && Prefix(prefix) && Params(ps)
    requires final != ESC && !IsParamChar(final) && !IsPrefixChar(final)
    requires final != 'u' && (prefix != "?" || final !in {'h', 'l'})
    ensures Feed(t, Sequence(prefix, ps, final)) == Fed(Tracker(t.modes, ""), false, [])
  {
    hide Feed, Valid, Params, Join;
    SequenceFed(t, prefix, ps, final);
  }

  // ---- What the caller sees ----

  // getState
  function Shown(m: Modes): (nat, bool, bool, bool)
  {
    (m.kittyKeyboardFlags, m.win32InputMode, m.applicationCursorKeys, m.bracketedPaste)
  }

  lemma OpChanged(m: Modes, op: Op)
    ensures ApplyOp(m, op).changed <==> Shown(ApplyOp(m, op).modes) != Shown(m)
  {
    hide FirstParam, SecondParam, HasMode, PrintNat, Pops;
    if op.Kitty? && op.prefix == "<" {
      PopsClosedForm(m, PopCount(op.params));
    }
  }

  lemma {:induction false} OpsChanged(m: Modes, ops: seq<Op>)
    ensures ApplyOps(m, ops).changed <==> exists k :: 0 <= k < |ops| && Changes(m, ops, k)
    decreases |ops|
  {
    hide ApplyOp, Shown;
    if ops != [] {
      var init, last := ops[..|ops| - 1], |ops| - 1;
      OpsChanged(m, init);
      OpChanged(ApplyOps(m, init).modes, ops[last]);
      assert ops[..last + 1] == ops;
      assert Changes(m, ops, last) <==> ApplyOp(ApplyOps(m, init).modes, ops[last]).changed;
      forall k | 0 <= k < last
        ensures Changes(m, init, k) <==> Changes(m, ops, k)
      {
        assert init[..k] == ops[..k] && init[..k + 1] == ops[..k + 1];
      }
    }
  }

  // The k-th operation changes what getState shows.
  predicate Changes(m: Modes, ops: seq<Op>, k: nat)
    requires k < |ops|
  {
    Shown(ApplyOps(m, ops[..k + 1]).modes) != Shown(ApplyOps(m, ops[..k]).modes)
  }

  // A chunk is reported as a change exactly if one of the sequences in it changes what getState shows.
  lemma ChangedIff(t: Tracker, data: string)
    requires Valid(t)
    ensures var ops := ReadText(ReaderOf(t), data).ops;
            && (Feed(t, data).changed <==> exists k :: 0 <= k < |ops| && Changes(t.modes, ops, k))
            && (!Feed(t, data).changed ==> Shown(Feed(t, data).tracker.modes) == Shown(t.modes))
  {
    hide Feed, ReadText, ApplyOps, Shown;
    var ops := ReadText(ReaderOf(t), data).ops;
    if data == "" {
      FeedNothing(t);
      assert ops == [] by { ReadsNone(ReaderOf(t)); }
    } else {
      FeedReads(t, data);
      OpsChanged(t.modes, ops);
      UnchangedShown(t.modes, ops);
    }
  }

  lemma ReadsNone(r: Reader)
    requires ValidReader(r)
    ensures ReadText(r, "").ops == []
  {
  }

  lemma {:induction false} UnchangedShown(m: Modes, ops: seq<Op>)
    ensures !ApplyOps(m, ops).changed ==> Shown(ApplyOps(m, ops).modes) == Shown(m)
    decreases |ops|
  {
    hide ApplyOp, Shown;
    if ops != [] {
      UnchangedShown(m, ops[..|ops| - 1]);
      OpChanged(ApplyOps(m, ops[..|ops| - 1]).modes, ops[|ops| - 1]);
    }
  }
}
