// The payload recursion and the streaming transform of
// packages/arena-proxy/src/blind-response.ts.

module BlindPayload {
  import opened Wrappers
  import opened Strings
  import opened BlindResponse
  import opened JsonText

  predicate IsIdentityKey(key: string)
  {
    key == "provider" || key == "provider_name" || key == "model_name" || key == "model_id"
  }

  // blindCompletionPayload
  function Blind(value: Json, o: string, hidden: seq<string>): Json
  {
    match value
    case Arr(items) => Arr(BlindItems(items, o, hidden))
    case Str(s) => Str(BlindIdentityText(s, o, hidden))
    case Obj(fields) => Obj(BlindFields(fields, o, hidden))
    case _ => value
  }

  function BlindItems(items: seq<Json>, o: string, hidden: seq<string>): seq<Json>
  {
    if items == [] then [] else [Blind(items[0], o, hidden)] + BlindItems(items[1..], o, hidden)
  }

  function BlindFields(fields: seq<Field>, o: string, hidden: seq<string>): seq<Field>
  {
    if fields == [] then []
    else
      var f := fields[0];
      var rest := BlindFields(fields[1..], o, hidden);
      if f.key == "model" then [Field("model", Str(o))] + rest
      else if IsIdentityKey(f.key) then rest
      else [Field(f.key, Blind(f.value, o, hidden))] + rest
  }

  // No variant in any string, no identity key at any depth, and the opaque name under every "model".
  predicate Clean(value: Json, o: string, hidden: seq<string>)
  {
    match value
    case Arr(items) => forall i :: 0 <= i < |items| ==> Clean(items[i], o, hidden)
    case Str(s) => FreeOfAll(s, hidden)
    case Obj(fields) =>
      forall i :: 0 <= i < |fields| ==>
        && !IsIdentityKey(fields[i].key)
        && (if fields[i].key == "model" then fields[i].value == Str(o) else Clean(fields[i].value, o, hidden))
    case _ => true
  }

  lemma {:induction false} BlindIsClean(value: Json, o: string, hidden: seq<string>)
    requires CompatibleAll(o, hidden)
    ensures Clean(Blind(value, o, hidden), o, hidden)
  {
    hide CompatibleAll, FreeOfAll, BlindIdentityText;
    match value
    case Arr(items) => BlindItemsClean(items, o, hidden);
    case Str(s) => BlindedTextIsFree(s, o, hidden);
    case Obj(fields) => BlindFieldsClean(fields, o, hidden);
    case _ =>
  }

  lemma {:induction false} BlindItemsClean(items: seq<Json>, o: string, hidden: seq<string>)
    requires CompatibleAll(o, hidden)
    ensures Clean(Arr(BlindItems(items, o, hidden)), o, hidden)
  {
    hide CompatibleAll, FreeOfAll, BlindIdentityText, Blind;
    if items != [] {
      BlindIsClean(items[0], o, hidden);
      BlindItemsClean(items[1..], o, hidden);
    }
  }

  lemma {:induction false} BlindFieldsClean(fields: seq<Field>, o: string, hidden: seq<string>)
    requires CompatibleAll(o, hidden)
    ensures Clean(Obj(BlindFields(fields, o, hidden)), o, hidden)
  {
    hide CompatibleAll, FreeOfAll, BlindIdentityText, Blind;
    if fields != [] {
      BlindIsClean(fields[0].value, o, hidden);
      BlindFieldsClean(fields[1..], o, hidden);
    }
  }

  lemma {:induction false} CleanIsKept(value: Json, o: string, hidden: seq<string>)
    requires Clean(value, o, hidden)
    ensures Blind(value, o, hidden) == value
  {
    hide FreeOfAll, BlindIdentityText;
    match value
    case Arr(items) => CleanItemsKept(items, o, hidden);
    case Str(s) => FreeTextKept(s, o, hidden);
    case Obj(fields) => CleanFieldsKept(fields, o, hidden);
    case _ =>
  }

  lemma {:induction false} CleanItemsKept(items: seq<Json>, o: string, hidden: seq<string>)
    requires forall i :: 0 <= i < |items| ==> Clean(items[i], o, hidden)
    ensures BlindItems(items, o, hidden) == items
  {
    hide Clean, Blind;
    if items != [] {
      CleanIsKept(items[0], o, hidden);
      CleanItemsKept(items[1..], o, hidden);
    }
  }

  lemma {:induction false} CleanFieldsKept(fields: seq<Field>, o: string, hidden: seq<string>)
    requires forall i :: 0 <= i < |fields| ==>
               && !IsIdentityKey(fields[i].key)
               && (if fields[i].key == "model" then fields[i].value == Str(o) else Clean(fields[i].value, o, hidden))
    ensures BlindFields(fields, o, hidden) == fields
  {
    hide Clean, Blind;
    if fields != [] {
      if fields[0].key != "model" {
        CleanIsKept(fields[0].value, o, hidden);
      }
      CleanFieldsKept(fields[1..], o, hidden);
    }
  }

  // Blinding changes exactly what is not clean, and does so once and for all.
  lemma BlindFixesExactlyClean(value: Json, o: string, hidden: seq<string>)
    requires CompatibleAll(o, hidden)
    ensures Blind(value, o, hidden) == value <==> Clean(value, o, hidden)
    ensures Blind(Blind(value, o, hidden), o, hidden) == Blind(value, o, hidden)
  {
    hide Clean, Blind, CompatibleAll;
    BlindIsClean(value, o, hidden);
    CleanIsKept(Blind(value, o, hidden), o, hidden);
    if Clean(value, o, hidden) {
      CleanIsKept(value, o, hidden);
    }
  }

  // ---- Lines ----

  // JSON.parse and JSON.stringify, whatever they do.
  datatype Codec = Codec(parse: string -> Option<Json>, stringify: Json -> string)

  predicate IsLineTerminator(c: char)
  {
    c == '\n' || c == '\r' || c == '\U{2028}' || c == '\U{2029}'
  }

  // The groups of /^(\s*data:\s*)(.*)$/; the dot stops at line terminators.
  function MatchData(line: string): Option<(string, string)>
  {
    var text := TrimStart(line);
    if !("data:" <= text) then None
    else
      var content := TrimStart(text[5..]);
      if exists i :: 0 <= i < |content| && IsLineTerminator(content[i]) then None
      else Some((line[..|line| - |content|], content))
  }

  function BlindSseLine(json: Codec, line: string, o: string, hidden: seq<string>): string
  {
    var m := MatchData(line);
    if m.None? || m.value.1 == "[DONE]" then line
    else
      var parsed := json.parse(m.value.1);
      if parsed.None? then BlindIdentityText(line, o, hidden)
      else m.value.0 + json.stringify(Blind(parsed.value, o, hidden))
  }

  // The groups put together are the line.
  lemma MatchDataSplits(line: string)
    ensures MatchData(line).Some? ==> MatchData(line).value.0 + MatchData(line).value.1 == line
  {
    hide TrimStart;
    TrimStartIsSuffix(line);
    var text := TrimStart(line);
    if "data:" <= text {
      TrimStartIsSuffix(text[5..]);
      SuffixOfSuffix(line, text, TrimStart(text[5..]));
    }
  }

  lemma SuffixOfSuffix(line: string, text: string, content: string)
    requires |text| <= |line| && line[|line| - |text|..] == text && 5 <= |text|
    requires |content| <= |text| - 5 && text[5..][|text| - 5 - |content|..] == content
    ensures line[..|line| - |content|] + content == line
  {
    assert line[|line| - |text|..][5..] == line[|line| - |text| + 5..];
    assert line[|line| - |content|..] == content;
  }

  lemma {:induction false} TrimStartIsSuffix(s: string)
    ensures s[|s| - |TrimStart(s)|..] == TrimStart(s)
  {
    if s != "" && IsSpace(s[0]) {
      TrimStartIsSuffix(s[1..]);
    }
  }

  // ---- The stream ----

  function LineBreak(text: string): (r: Option<nat>)
    ensures r.None? ==> '\n' !in text
    ensures r.Some? ==> r.value < |text| && text[r.value] == '\n' && '\n' !in text[..r.value]
  {
    if text == "" then None
    else if text[0] == '\n' then Some(0)
    else
      var r := LineBreak(text[1..]);
      if r.None? then None
      else
        assert text[..r.value + 1] == [text[0]] + text[1..][..r.value];
        Some(r.value + 1)
  }

  // One line, without its "\n": a "\r" before it is kept out of the line and put back behind it.
  function TransformLine(f: string -> string, line: string): string
  {
    if line != "" && line[|line| - 1] == '\r' then f(line[..|line| - 1]) + "\r\n" else f(line) + "\n"
  }

  // The batch form: every terminated line of a text transformed, and what is left after the last terminator.
  function Completed(f: string -> string, text: string): string
    decreases |text|
  {
    var n := LineBreak(text);
    if n.None? then "" else TransformLine(f, text[..n.value]) + Completed(f, text[n.value + 1..])
  }

  function Unterminated(text: string): string
    decreases |text|
  {
    var n := LineBreak(text);
    if n.None? then text else Unterminated(text[n.value + 1..])
  }

  function Whole(f: string -> string, text: string): string
  {
    Completed(f, text) + if Unterminated(text) != "" then f(Unterminated(text)) else ""
  }

  lemma {:induction false} LineBreakCat(a: string, b: string)
    requires LineBreak(a).Some?
    ensures LineBreak(a + b) == LineBreak(a)
  {
    if a[0] != '\n' {
      LineBreakCat(a[1..], b);
      assert (a + b)[1..] == a[1..] + b;
    }
  }

  // Where the text is cut does not matter to what is completed and what is left.
  lemma {:induction false} CutAnywhere(f: string -> string, a: string, b: string)
    ensures Completed(f, a + b) == Completed(f, a) + Completed(f, Unterminated(a) + b)
    ensures Unterminated(a + b) == Unterminated(Unterminated(a) + b)
    decreases |a|
  {
    hide TransformLine, LineBreak;
    var n := LineBreak(a);
    if n.None? {
      assert "" + Completed(f, a + b) == Completed(f, a + b);
    } else {
      LineBreakCat(a, b);
      var rest := a[n.value + 1..];
      assert (a + b)[..n.value] == a[..n.value] && (a + b)[n.value + 1..] == rest + b;
      CutAnywhere(f, rest, b);
      var x := TransformLine(f, a[..n.value]);
      assert x + (Completed(f, rest) + Completed(f, Unterminated(rest) + b))
          == x + Completed(f, rest) + Completed(f, Unterminated(rest) + b);
    }
  }

  lemma TransformedLine(f: string -> string, line: string, carriageReturn: string)
    requires carriageReturn == if line != "" && line[|line| - 1] == '\r' then "\r" else ""
    ensures TransformLine(f, line) ==
            f(if carriageReturn != "" then line[..|line| - 1] else line) + carriageReturn + "\n"
  {
    var content := if carriageReturn != "" then line[..|line| - 1] else line;
    assert f(content) + "" == f(content);
    assert f(content) + "\r" + "\n" == f(content) + "\r\n";
  }

  lemma Regroup(a: string, b: string, c: string)
    ensures (a + b) + c == a + (b + c)
  {
  }

  // BlindedSseTransform, over the decoded characters.
  class BlindedSseTransform {
    const json: Codec
    const opaqueModel: string
    const hidden: seq<string>
    var buffered: string
    // What has been pushed so far, put together.
    var pushed: string

    function Line(): string -> string
    {
      line => BlindSseLine(json, line, opaqueModel, hidden)
    }

    // After the chunks of a text: its complete lines are out, transformed, and the rest is held back.
    ghost predicate HasTaken(text: string)
      reads this
    {
      pushed == Completed(Line(), text) && buffered == Unterminated(text)
    }

    constructor (json: Codec, opaqueModel: string, hidden: seq<string>)
      ensures this.json == json && this.opaqueModel == opaqueModel && this.hidden == hidden
      ensures HasTaken("")
    {
      this.json, this.opaqueModel, this.hidden := json, opaqueModel, hidden;
      buffered, pushed := "", "";
    }

    method Transform(chunk: string, ghost taken: string)
      requires HasTaken(taken)
      modifies this
      ensures HasTaken(taken + chunk)
    {
      CutAnywhere(Line(), taken, chunk);
      buffered := buffered + chunk;
      FlushCompleteLines();
    }

    method Flush(ghost taken: string)
      requires HasTaken(taken)
      modifies this
      ensures pushed == Whole(Line(), taken) && buffered == ""
    {
      if buffered != "" {
        pushed := pushed + BlindSseLine(json, buffered, opaqueModel, hidden);
      } else {
        assert pushed + "" == pushed;
      }
      buffered := "";
    }

    method FlushCompleteLines()
      modifies this
      ensures pushed == old(pushed) + Completed(Line(), old(buffered))
      ensures buffered == Unterminated(old(buffered))
    {
      hide BlindSseLine, LineBreak, TransformLine;
      var newline := LineBreak(buffered);
      ghost var f, all := Line(), Completed(Line(), buffered);
      assert "" + all == all;
      ghost var out := "";
      assert pushed + out == pushed;
      while newline.Some?
        invariant newline == LineBreak(buffered)
        invariant pushed == old(pushed) + out && out + Completed(f, buffered) == all
        invariant Unterminated(buffered) == Unterminated(old(buffered))
        decreases |buffered|
      {
        var line := buffered[..newline.value];
        ghost var rest := Completed(f, buffered[newline.value + 1..]);
        buffered := buffered[newline.value + 1..];
        var carriageReturn := if line != "" && line[|line| - 1] == '\r' then "\r" else "";
        var content := if carriageReturn != "" then line[..|line| - 1] else line;
        var text := BlindSseLine(json, content, opaqueModel, hidden) + carriageReturn + "\n";
        TransformedLine(f, line, carriageReturn);
        Regroup(out, text, rest);
        Regroup(old(pushed), out, text);
        pushed := pushed + text;
        out := out + text;
        newline := LineBreak(buffered);
      }
      assert out + "" == out;
    }

    // A whole stream: whatever the chunks, the output is the batch transform of their concatenation.
    method Stream(chunks: seq<string>)
      requires HasTaken("")
      modifies this
      ensures pushed == Whole(Line(), Joined(chunks))
    {
      for i := 0 to |chunks|
        invariant HasTaken(Joined(chunks[..i]))
      {
        assert chunks[..i + 1][..i] == chunks[..i];
        Transform(chunks[i], Joined(chunks[..i]));
      }
      assert chunks[..|chunks|] == chunks;
      Flush(Joined(chunks));
    }
  }

  function Joined(chunks: seq<string>): string
  {
    if chunks == [] then "" else Joined(chunks[..|chunks| - 1]) + chunks[|chunks| - 1]
  }

  // The same on values: the pushes of a run over the chunks, then the flush.
  function Streamed(f: string -> string, chunks: seq<string>): (out: (string, string))
  {
    if chunks == [] then ("", "")
    else
      var before := Streamed(f, chunks[..|chunks| - 1]);
      var text := before.1 + chunks[|chunks| - 1];
      (before.0 + Completed(f, text), Unterminated(text))
  }

  // However a text is cut into chunks, the output is the batch transform of the whole text.
  lemma {:induction false} ChunksDoNotMatter(f: string -> string, chunks: seq<string>)
    ensures Streamed(f, chunks) == (Completed(f, Joined(chunks)), Unterminated(Joined(chunks)))
  {
    if chunks == [] {
      assert LineBreak("").None?;
    } else {
      ChunksDoNotMatter(f, chunks[..|chunks| - 1]);
      CutAnywhere(f, Joined(chunks[..|chunks| - 1]), chunks[|chunks| - 1]);
    }
  }

  // With the identity on lines the transform is the identity on texts: terminators and the rest are preserved.
  lemma {:induction false} TerminatorsPreserved(f: string -> string, text: string)
    requires forall line: string :: f(line) == line
    ensures Whole(f, text) == text
    decreases |text|
  {
    hide TransformLine, LineBreak;
    var n := LineBreak(text);
    if n.Some? {
      var rest := text[n.value + 1..];
      TerminatorsPreserved(f, rest);
      LinePreserved(f, text, n.value);
      var x := text[..n.value + 1];
      var tail := if Unterminated(rest) != "" then f(Unterminated(rest)) else "";
      assert x + Completed(f, rest) + tail == x + (Completed(f, rest) + tail);
      assert text == x + rest;
    } else {
      assert "" + text == text;
    }
  }

  lemma LinePreserved(f: string -> string, text: string, n: nat)
    requires n < |text| && text[n] == '\n' && forall line: string :: f(line) == line
    ensures TransformLine(f, text[..n]) == text[..n + 1]
  {
    var line := text[..n];
    assert text[..n + 1] == line + "\n";
    if line != "" && line[|line| - 1] == '\r' {
      assert line == line[..|line| - 1] + "\r";
    }
  }
}
