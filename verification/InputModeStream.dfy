// The tracker against a reference that reads one character at a time: what chunking
// cannot change, and the one place where it can.

module InputModeStream {
  import opened Wrappers
  import opened InputMode

  // The reference: outside a sequence, after ESC, or inside the body of a sequence.
  datatype Reader = Ground | SawEscape | InBody(body: string)

  datatype Read = Read(reader: Reader, ops: seq<Op>)

  function Expects(body: string, c: char): bool
  {
    IsParamChar(c) || (body == "" && IsPrefixChar(c))
  }

  function ReadChar(r: Reader, c: char): Read
    requires r.InBody? ==> IsBody(r.body)
  {
    if c == ESC then Read(SawEscape, [])
    else
      match r
      case Ground => Read(Ground, [])
      case SawEscape => Read(if c == '[' then InBody("") else Ground, [])
      case InBody(body) =>
        if Expects(body, c) then Read(InBody(body + [c]), [])
        else
          var op := Close(body, c);
          Read(Ground, if op.Some? then [op.value] else [])
  }

  predicate ValidReader(r: Reader)
  {
    r.InBody? ==> IsBody(r.body)
  }

  lemma ReadCharValid(r: Reader, c: char)
    requires ValidReader(r)
    ensures ValidReader(ReadChar(r, c).reader)
  {
    if r.InBody? && c != ESC && Expects(r.body, c) {
      var body := r.body + [c];
      if r.body != "" && IsPrefixChar(r.body[0]) {
        assert body[1..] == r.body[1..] + [c];
      }
    }
  }

  function ReadText(r: Reader, text: string): (out: Read)
    requires ValidReader(r)
    ensures ValidReader(out.reader)
    decreases |text|
  {
    if text == "" then Read(r, [])
    else
      ReadCharValid(r, text[0]);
      var first := ReadChar(r, text[0]);
      var rest := ReadText(first.reader, text[1..]);
      Read(rest.reader, first.ops + rest.ops)
  }

  lemma {:induction false} ReadCat(r: Reader, a: string, b: string)
    requires ValidReader(r)
    ensures var x := ReadText(r, a);
            var y := ReadText(x.reader, b);
            ReadText(r, a + b) == Read(y.reader, x.ops + y.ops)
    decreases |a|
  {
    hide ReadChar, IsBody;
    if a == "" {
      assert a + b == b;
    } else {
      ReadCharValid(r, a[0]);
      var first := ReadChar(r, a[0]);
      assert (a + b)[1..] == a[1..] + b;
      ReadCat(first.reader, a[1..], b);
      var x := ReadText(first.reader, a[1..]);
      var y := ReadText(x.reader, b);
      assert first.ops + (x.ops + y.ops) == first.ops + x.ops + y.ops;
    }
  }

  function PendingText(r: Reader): string
  {
    if r.InBody? then [ESC] + "[" + r.body else ""
  }

  // ---- Scanning and reading agree ----

  lemma ReadParam(body: string, c: char)
    requires IsBody(body) && IsParamChar(c)
    ensures IsBody(body + [c]) && ReadChar(InBody(body), c) == Read(InBody(body + [c]), [])
  {
  }

  lemma {:induction false} ReadParams(body: string, params: string)
    requires IsBody(body) && AllParams(params)
    ensures IsBody(body + params)
    ensures ReadText(InBody(body), params) == Read(InBody(body + params), [])
    decreases |params|
  {
    hide ReadChar, IsBody, IsParamChar;
    if params == "" {
      assert body + params == body;
    } else {
      var c := params[0];
      ReadCharValid(InBody(body), c);
      ReadParam(body, c);
      ReadParams(body + [c], params[1..]);
      assert body + [c] + params[1..] == body + params;
    }
  }

  lemma ReadPrefix(c: char)
    requires IsPrefixChar(c)
    ensures IsBody([c]) && IsBody("") && ReadText(InBody(""), [c]) == Read(InBody([c]), [])
  {
    assert [c][1..] == "" && "" + [c] == [c];
    assert ReadText(InBody([c]), "") == Read(InBody([c]), []);
  }

  lemma ReadPrefixed(c: char, params: string)
    requires IsPrefixChar(c) && AllParams(params)
    ensures IsBody("") && IsBody([c] + params)
    ensures ReadText(InBody(""), [c] + params) == Read(InBody([c] + params), [])
  {
    hide ReadText, ReadChar, IsBody, IsPrefixChar;
    ReadPrefix(c);
    ReadParams([c], params);
    ReadCat(InBody(""), [c], params);
  }

  // After ESC [ the reader takes in exactly the body that the expression would.
  lemma ReadBody(text: string, i: nat)
    requires i <= |text|
    ensures IsBody("")
    ensures var end := BodyEnd(text, i);
            ReadText(InBody(""), text[i..end]) == Read(InBody(text[i..end]), [])
  {
    var end := BodyEnd(text, i);
    assert IsBody("");
    hide ReadText, IsBody, IsParamChar, IsPrefixChar;
    if i < |text| && IsPrefixChar(text[i]) {
      ReadPrefixed(text[i], text[i + 1..end]);
      assert text[i..end] == [text[i]] + text[i + 1..end];
    } else {
      ReadParams("", text[i..end]);
      assert "" + text[i..end] == text[i..end];
    }
  }

  // Where the body ends, the next character is not part of it.
  lemma BodyEnds(text: string, i: nat)
    requires i <= |text| && BodyEnd(text, i) < |text|
    ensures var end := BodyEnd(text, i); !Expects(text[i..end], text[end])
  {
  }

  // After a character that is not "[" the escape before it no longer matters.
  lemma EscapeForgotten(c: char)
    requires c != '['
    ensures ReadChar(SawEscape, c) == ReadChar(Ground, c)
  {
  }

  // No sequence starts inside the body of another.
  lemma {:induction false} ScanSkips(text: string, i: nat, j: nat)
    requires i <= j <= |text|
    requires forall k :: i <= k < j ==> MatchAt(text, k).None?
    ensures Scan(text, i) == Scan(text, j)
    ensures forall from: nat | from <= i :: Consumed(text, i, from) == Consumed(text, j, from)
    decreases j - i
  {
    hide MatchAt;
    if i < j {
      ScanSkips(text, i + 1, j);
    }
  }

  lemma {:induction false} LastStartSkips(text: string, i: nat, j: nat)
    requires i <= j <= |text|
    requires forall k :: i <= k < j ==> !StartsAt(text, k)
    ensures LastStart(text, i) == LastStart(text, j)
    decreases j - i
  {
    if i < j {
      LastStartSkips(text, i + 1, j);
    }
  }

  lemma NoStartInBody(text: string, i: nat, k: nat)
    requires StartsAt(text, i) && i < k < BodyEnd(text, i + 2)
    ensures !StartsAt(text, k)
  {
    var end := BodyEnd(text, i + 2);
    if k >= i + 2 {
      if k == i + 2 && IsPrefixChar(text[i + 2]) {
      } else {
        BodyIsBody(text, i + 2);
        var body := text[i + 2..end];
        assert body[k - (i + 2)] == text[k];
        BodyHasNoEscape(body, k - (i + 2));
      }
    }
  }

  lemma BodyHasNoEscape(body: string, j: nat)
    requires IsBody(body) && j < |body|
    ensures body[j] != ESC
  {
    if IsPrefixChar(body[0]) && j > 0 {
      assert body[1..][j - 1] == body[j];
    }
  }

  lemma {:induction false} ConsumedFrom(text: string, i: nat, from: nat, other: nat)
    requires from <= i && other <= i
    ensures Consumed(text, i, from) == Consumed(text, i, other) ||
            (Consumed(text, i, from) == from && Consumed(text, i, other) == other)
    decreases |text| - i
  {
    hide MatchAt;
    if i < |text| && MatchAt(text, i).None? {
      ConsumedFrom(text, i + 1, from, other);
    }
  }

  // A body that ends before the text does is followed by something that is no part of it.
  lemma BodyEndsEarly(text: string, i: nat)
    requires i <= |text| && BodyEnd(text, i) < |text|
    ensures !IsBody(text[i..])
  {
    var end := BodyEnd(text, i);
    var body := text[i..];
    var params := if IsPrefixChar(body[0]) then body[1..] else body;
    assert params[|params| - (|text| - end)] == text[end];
  }

  ghost predicate Agrees(text: string, i: nat)
    requires i <= |text|
  {
    var r := ReadText(Ground, text[i..]);
    r.ops == Scan(text, i) && PendingText(r.reader) == PendingFrom(text, Consumed(text, i, i))
  }

  // Moving the start over a stretch with no match, and no start of an unfinished sequence, changes nothing.
  lemma AgreesEarlier(text: string, i: nat, j: nat)
    requires i < j <= |text| && Agrees(text, j)
    requires forall k :: i <= k < j ==> MatchAt(text, k).None?
    requires forall k :: i < k < j ==> !StartsAt(text, k)
    requires StartsAt(text, i) ==> !Incomplete(text[i..])
    requires ReadText(Ground, text[i..]) == ReadText(Ground, text[j..])
    ensures Agrees(text, i)
  {
    hide MatchAt, ReadText, Incomplete, StartsAt;
    ScanSkips(text, i, j);
    ConsumedFrom(text, j, i, j);
    LastStartSkips(text, i + 1, j);
    assert PendingFrom(text, i) == PendingFrom(text, j);
  }

  // After a broken body, or an escape without "[", the reader goes on as if nothing had begun.
  lemma ReadForgets(r: Reader, rest: string)
    requires ValidReader(r) && rest != ""
    requires ReadChar(r, rest[0]) == ReadChar(Ground, rest[0])
    ensures ReadText(r, rest) == ReadText(Ground, rest)
  {
  }

  lemma ReadStart(text: string, i: nat)
    requires i <= |text| && StartsAt(text, i)
    ensures var end := BodyEnd(text, i + 2);
            var body := text[i + 2..end];
            IsBody(body) && ReadText(Ground, text[i..]) == ReadText(InBody(body), text[end..])
  {
    hide IsBody, ReadChar, ReadText, BodyEnd;
    var end := BodyEnd(text, i + 2);
    var body := text[i + 2..end];
    BodyIsBody(text, i + 2);
    ReadBody(text, i + 2);
    assert text[i..][1..] == text[i + 1..] && text[i + 1..][1..] == text[i + 2..];
    assert text[i + 2..] == body + text[end..];
    ReadCat(InBody(""), body, text[end..]);
    StartReads(text[i..]);
    var tail := ReadText(InBody(body), text[end..]);
    assert [] + tail.ops == tail.ops;
  }

  lemma StartReads(s: string)
    requires StartsAt(s, 0)
    ensures IsBody("") && ReadText(Ground, s) == ReadText(InBody(""), s[2..])
  {
    assert s[1..][1..] == s[2..];
    var tail := ReadText(InBody(""), s[2..]);
    assert ReadText(SawEscape, s[1..]) == Read(tail.reader, [] + tail.ops);
    assert [] + ([] + tail.ops) == tail.ops;
  }

  lemma QuietBody(text: string, i: nat)
    requires i <= |text| && StartsAt(text, i)
    ensures forall k :: i < k < BodyEnd(text, i + 2) ==> !StartsAt(text, k) && MatchAt(text, k).None?
  {
    assert i + 2 <= |text|;
    hide StartsAt, MatchAt, BodyEnd;
    forall k | i < k < BodyEnd(text, i + 2)
      ensures !StartsAt(text, k) && MatchAt(text, k).None?
    {
      NoStartInBody(text, i, k);
      NoStartNoMatch(text, k);
    }
  }

  // A sequence that is complete and recognised.
  lemma AgreesClosed(text: string, i: nat)
    requires StartsAt(text, i) && BodyEnd(text, i + 2) < |text|
    requires MatchAt(text, i).Some?
    requires Agrees(text, BodyEnd(text, i + 2) + 1)
    ensures Agrees(text, i)
  {
    hide MatchAt, ReadText, IsBody, Close, BodyEnd, PendingFrom, Expects;
    var end := BodyEnd(text, i + 2);
    ReadStart(text, i);
    BodyEnds(text, i + 2);
    MatchByClose(text, i);
    assert text[end..][1..] == text[end + 1..];
    ClosedReads(text[i + 2..end], text[end..]);
  }

  // A sequence broken off by a character that does not belong to it.
  lemma AgreesBroken(text: string, i: nat)
    requires StartsAt(text, i) && BodyEnd(text, i + 2) < |text|
    requires MatchAt(text, i).None?
    requires Agrees(text, BodyEnd(text, i + 2))
    ensures Agrees(text, i)
  {
    hide MatchAt, ReadText, IsBody, Close, PendingFrom, Expects, StartsAt, Scan, Consumed, Agrees, Incomplete;
    var end := BodyEnd(text, i + 2);
    ReadStart(text, i);
    BodyEnds(text, i + 2);
    MatchByClose(text, i);
    BrokenReads(text[i + 2..end], text[end..]);
    BodyBroken(text, i);
    QuietBody(text, i);
    AgreesEarlier(text, i, end);
  }

  lemma AgreesAtStart(text: string, i: nat)
    requires i <= |text| && StartsAt(text, i)
    requires forall j :: i < j <= |text| ==> Agrees(text, j)
    ensures Agrees(text, i)
  {
    assert i + 2 <= |text|;
    hide MatchAt, Agrees, StartsAt;
    if BodyEnd(text, i + 2) == |text| {
      UnfinishedAgrees(text, i);
    } else if MatchAt(text, i).Some? {
      AgreesClosed(text, i);
    } else {
      AgreesBroken(text, i);
    }
  }

  lemma NoStartNoMatch(text: string, k: nat)
    requires !StartsAt(text, k)
    ensures MatchAt(text, k).None?
  {
  }

  lemma MatchByClose(text: string, i: nat)
    requires StartsAt(text, i) && BodyEnd(text, i + 2) < |text|
    ensures var end := BodyEnd(text, i + 2);
            IsBody(text[i + 2..end]) &&
            MatchAt(text, i) == (var op := Close(text[i + 2..end], text[end]);
                                 if op.Some? then Some(Match(op.value, end + 1)) else None)
  {
    BodyIsBody(text, i + 2);
  }

  lemma BodyBroken(text: string, i: nat)
    requires StartsAt(text, i) && BodyEnd(text, i + 2) < |text|
    ensures !Incomplete(text[i..])
  {
    assert text[i..][2..] == text[i + 2..];
    BodyEndsEarly(text, i + 2);
  }

  lemma ClosedReads(body: string, rest: string)
    requires IsBody(body) && rest != "" && !Expects(body, rest[0]) && Close(body, rest[0]).Some?
    ensures var tail := ReadText(Ground, rest[1..]);
            ReadText(InBody(body), rest) == Read(tail.reader, [Close(body, rest[0]).value] + tail.ops)
  {
  }

  lemma BrokenReads(body: string, rest: string)
    requires IsBody(body) && rest != "" && !Expects(body, rest[0]) && Close(body, rest[0]).None?
    ensures ReadText(InBody(body), rest) == ReadText(Ground, rest)
  {
    ReadForgets(InBody(body), rest);
  }

  lemma UnfinishedScan(text: string, i: nat)
    requires StartsAt(text, i) && BodyEnd(text, i + 2) == |text|
    ensures Scan(text, i) == [] && Consumed(text, i, i) == i
    ensures LastStart(text, i) == Some(i)
  {
    hide BodyEnd, StartsAt;
    QuietBody(text, i);
    assert MatchAt(text, i).None?;
    hide MatchAt;
    ScanSkips(text, i, |text|);
    LastStartSkips(text, i + 1, |text|);
  }

  // A sequence that the text ends in the middle of.
  lemma UnfinishedAgrees(text: string, i: nat)
    requires StartsAt(text, i) && BodyEnd(text, i + 2) == |text|
    ensures Agrees(text, i)
  {
    hide Close, BodyEnd, ReadText, LastStart, Scan, Consumed, IsBody;
    ReadStart(text, i);
    UnfinishedScan(text, i);
    var body := text[i + 2..];
    assert text[i + 2..|text|] == body;
    assert text[|text|..] == "";
    ReadNone(InBody(body));
    assert text[i..][2..] == body;
    assert text[i..] == [ESC] + "[" + body;
  }

  lemma ReadNone(r: Reader)
    requires ValidReader(r)
    ensures ReadText(r, "") == Read(r, [])
  {
  }

  // Without a start at i the reader is where it would be had it begun after i.
  lemma AgreesElsewhere(text: string, i: nat)
    requires i < |text| && !StartsAt(text, i) && Agrees(text, i + 1)
    ensures Agrees(text, i)
  {
    hide MatchAt, Scan, Consumed, PendingFrom, ReadText, Agrees, Incomplete;
    NoStartNoMatch(text, i);
    var rest := text[i + 1..];
    assert text[i..][1..] == rest;
    if text[i] == ESC && rest == "" {
      EscapeAtEnd(text);
    } else {
      SkipsOne(text[i..]);
      AgreesEarlier(text, i, i + 1);
    }
  }

  lemma EscapeAtEnd(text: string)
    requires text != "" && text[|text| - 1] == ESC
    ensures Agrees(text, |text| - 1)
  {
    var i := |text| - 1;
    assert Scan(text, i) == [] && Consumed(text, i, i) == i;
    assert LastStart(text, i + 1) == None && LastStart(text, i) == None;
    assert text[i..][1..] == "" && text[i..][0] == ESC;
    ReadNone(SawEscape);
  }

  // A character that begins nothing leaves no trace.
  lemma SkipsOne(s: string)
    requires s != "" && !StartsAt(s, 0) && (s[0] == ESC ==> |s| > 1)
    ensures ReadText(Ground, s) == ReadText(Ground, s[1..])
  {
    var rest := s[1..];
    if s[0] == ESC {
      EscapeForgotten(rest[0]);
      ReadForgets(SawEscape, rest);
    }
    var tail := ReadText(Ground, rest);
    assert [] + tail.ops == tail.ops;
  }

  // Matching with the expression and keeping what may be an unfinished sequence gives what reading character
  // by character gives.
  lemma {:induction false} ScanAgrees(text: string, i: nat)
    requires i <= |text|
    ensures Agrees(text, i)
    decreases |text| - i
  {
    hide ReadText, Scan, PendingFrom, Consumed;
    if i == |text| {
      AgreesAtEnd(text);
    } else {
      forall j | i < j <= |text|
        ensures Agrees(text, j)
      {
        ScanAgrees(text, j);
      }
      if StartsAt(text, i) {
        AgreesAtStart(text, i);
      } else {
        AgreesElsewhere(text, i);
      }
    }
  }

  lemma AgreesAtEnd(text: string)
    ensures Agrees(text, |text|)
  {
  }
}
