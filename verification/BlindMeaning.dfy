// What blinding does to a text, a payload and a line, said without the functions that do it: where the matches
// are and what stands in their place, which fields stay, and what becomes of every line of a stream.

module BlindMeaning {
  import opened Wrappers
  import opened Sequences
  import opened Strings
  import opened BlindResponse
  import opened JsonText
  import opened BlindPayload

  // ---- Texts ----

  // The parts with the same string between each two of them.
  function Glue(parts: seq<string>, v: string): string
    requires parts != []
    decreases |parts|
  {
    if |parts| == 1 then parts[0] else parts[0] + v + Glue(parts[1..], v)
  }

  // Every v between the parts is the first one from where the part begins, and the last part has none.
  ghost predicate Leftmost(parts: seq<string>, v: string)
    requires parts != []
    decreases |parts|
  {
    if |parts| == 1 then !Contains(parts[0], v)
    else (forall k: nat :: k < |parts[0]| ==> !OccursAt(Glue(parts, v), v, k)) && Leftmost(parts[1..], v)
  }

  // The parts of a text between the matches of a variant, taken from the left.
  ghost predicate Cut(s: string, v: string, parts: seq<string>)
  {
    parts != [] && Glue(parts, v) == s && Leftmost(parts, v)
  }

  // The same parts with the expanded name in the place of each match; before is the text already passed.
  function Filled(before: string, parts: seq<string>, v: string, o: string): string
    requires parts != []
    decreases |parts|
  {
    if |parts| == 1 then parts[0]
    else
      parts[0] + Expand(o, v, before + parts[0], Glue(parts[1..], v)) + Filled(before + parts[0] + v, parts[1..], v, o)
  }

  ghost predicate Replaced(s: string, t: string, v: string, o: string)
  {
    exists parts :: Cut(s, v, parts) && t == Filled("", parts, v, o)
  }

  lemma {:induction false} ReplaceCuts(before: string, s: string, v: string, o: string) returns (parts: seq<string>)
    requires v != ""
    ensures Cut(s, v, parts) && ReplaceFrom(before, s, v, o) == Filled(before, parts, v, o)
    decreases |s|
  {
    hide Expand, Contains, OccursAt;
    var i := IndexOf(s, v);
    if i.None? {
      parts := [s];
    } else {
      MatchAt(s, v, i.value);
      var x, after := s[..i.value], s[i.value + |v|..];
      var rest := ReplaceCuts(before + x + v, after, v, o);
      parts := [x] + rest;
      CutOn(x, after, rest, s, v);
      hide Cut;
      assert parts[0] == x && parts[1..] == rest;
      assert Glue(rest, v) == after by {
        assert Cut(after, v, rest);
      }
    }
  }

  lemma MatchAt(s: string, v: string, i: nat)
    requires OccursAt(s, v, i)
    ensures i + |v| <= |s| && s == s[..i] + v + s[i + |v|..]
  {
  }

  lemma CutOn(x: string, after: string, rest: seq<string>, s: string, v: string)
    requires s == x + v + after && Cut(after, v, rest)
    requires forall k: nat :: k < |x| ==> !OccursAt(s, v, k)
    ensures Cut(s, v, [x] + rest)
  {
    hide OccursAt, Contains;
    assert ([x] + rest)[1..] == rest;
  }

  lemma ReplaceIsReplaced(s: string, v: string, o: string)
    requires v != ""
    ensures Replaced(s, ReplaceAll(s, v, o), v, o)
  {
    hide Leftmost, Filled;
    var parts := ReplaceCuts("", s, v, o);
  }

  lemma GlueHasMatch(parts: seq<string>, v: string)
    requires |parts| > 1
    ensures OccursAt(Glue(parts, v), v, |parts[0]|) && Contains(Glue(parts, v), v)
  {
    var s := Glue(parts, v);
    assert s[|parts[0]|..|parts[0]| + |v|] == v;
    assert OccursAt(s, v, |parts[0]|);
  }

  // A text can be cut in one way only.
  lemma {:induction false} CutUnique(s: string, v: string, a: seq<string>, b: seq<string>)
    requires Cut(s, v, a) && Cut(s, v, b)
    ensures a == b
    decreases |a|
  {
    hide Contains, OccursAt;
    if |a| > 1 {
      GlueHasMatch(a, v);
    }
    if |b| > 1 {
      GlueHasMatch(b, v);
    }
    if |a| == 1 {
      assert a == [s] && b == [b[0]];
    } else {
      var n := |a[0]|;
      assert s[..n] == a[0] && s[..|b[0]|] == b[0];
      assert s[n + |v|..] == Glue(a[1..], v) && s[|b[0]| + |v|..] == Glue(b[1..], v);
      CutUnique(Glue(a[1..], v), v, a[1..], b[1..]);
      assert a == [a[0]] + a[1..] && b == [b[0]] + b[1..];
    }
  }

  lemma ReplacedUnique(s: string, t: string, u: string, v: string, o: string)
    requires Replaced(s, t, v, o) && Replaced(s, u, v, o)
    ensures t == u
  {
    hide Leftmost, Filled;
    var a :| Cut(s, v, a) && t == Filled("", a, v, o);
    var b :| Cut(s, v, b) && u == Filled("", b, v, o);
    CutUnique(s, v, a, b);
  }

  // With a name that is inserted as it is, the parts stay and only the matches change.
  lemma {:induction false} PlainFill(before: string, parts: seq<string>, v: string, o: string)
    requires parts != [] && NoPattern(o)
    ensures Filled(before, parts, v, o) == Glue(parts, o)
    decreases |parts|
  {
    hide NoPattern, Expand;
    if |parts| > 1 {
      ExpandPlain(o, v, before + parts[0], Glue(parts[1..], v));
      PlainFill(before + parts[0] + v, parts[1..], v, o);
    }
  }

  function Init(xs: seq<string>): seq<string>
    requires xs != []
  {
    xs[..|xs| - 1]
  }

  // One variant after the other.
  ghost predicate Redacted(s: string, t: string, o: string, variants: seq<string>)
    decreases |variants|
  {
    if variants == [] then t == s
    else exists u :: Redacted(s, u, o, Init(variants)) && Replaced(u, t, variants[|variants| - 1], o)
  }

  lemma {:induction false} EachIsRedacted(value: string, o: string, variants: seq<string>)
    requires AllNonEmpty(variants)
    ensures Redacted(value, ReplaceEach(value, o, variants), o, variants)
    decreases |variants|
  {
    hide Replaced, ReplaceAll;
    if variants != [] {
      var init, last := Init(variants), variants[|variants| - 1];
      EachIsRedacted(value, o, init);
      ReplaceIsReplaced(ReplaceEach(value, o, init), last, o);
    }
  }

  lemma {:induction false} RedactedUnique(s: string, t: string, u: string, o: string, variants: seq<string>)
    requires Redacted(s, t, o, variants) && Redacted(s, u, o, variants)
    ensures t == u
    decreases |variants|
  {
    hide Replaced;
    if variants != [] {
      var init, last := Init(variants), variants[|variants| - 1];
      var a :| Redacted(s, a, o, init) && Replaced(a, t, last, o);
      var b :| Redacted(s, b, o, init) && Replaced(b, u, last, o);
      RedactedUnique(s, a, b, o, init);
      ReplacedUnique(a, t, u, last, o);
    }
  }

  // Every match of every variant, longest first and from the left, is replaced by the name, and nothing else.
  lemma TextIsRedacted(value: string, o: string, hidden: seq<string>)
    ensures Redacted(value, BlindIdentityText(value, o, hidden), o, Variants(hidden))
  {
    hide Redacted, ReplaceEach;
    VariantsNonEmpty(hidden);
    EachIsRedacted(value, o, Variants(hidden));
  }

  // The variants are the hidden identities, and what is behind a leading tilde.
  lemma {:induction false} VariantsAre(identities: seq<string>, v: string)
    ensures v in VariantsOf(identities) <==> v in identities || "~" + v in identities
  {
    if identities != [] {
      var init, x := identities[..|identities| - 1], identities[|identities| - 1];
      VariantsAre(init, v);
      assert identities == init + [x];
      if x != "" && x[0] == '~' {
        assert x == "~" + x[1..];
      }
      if x == "~" + v {
        assert x[1..] == v;
      }
    }
  }

  function OfLength(xs: seq<string>, n: nat): seq<string>
  {
    if xs == [] then [] else OfLength(xs[..|xs| - 1], n) + if |xs[|xs| - 1]| == n then [xs[|xs| - 1]] else []
  }

  lemma OfLengthSnoc(xs: seq<string>, x: string, n: nat)
    ensures OfLength(xs + [x], n) == OfLength(xs, n) + if |x| == n then [x] else []
  {
    assert (xs + [x])[..|xs|] == xs;
  }

  lemma InsertAt(x: string, xs: seq<string>)
    requires LongestFirst(xs)
    ensures xs == [] ==> Insert(x, xs) == [x]
    ensures xs != [] && |xs[|xs| - 1]| >= |x| ==> Insert(x, xs) == xs + [x]
    ensures xs != [] ==> LongestFirst(Init(xs))
    ensures xs != [] && |xs[|xs| - 1]| < |x| ==> Insert(x, xs) == Insert(x, Init(xs)) + [xs[|xs| - 1]]
  {
  }

  lemma {:induction false} InsertStable(x: string, xs: seq<string>, n: nat)
    requires LongestFirst(xs)
    ensures OfLength(Insert(x, xs), n) == OfLength(xs, n) + if |x| == n then [x] else []
    decreases |xs|
  {
    hide Insert, LongestFirst, OfLength;
    InsertAt(x, xs);
    if xs == [] {
      assert xs + [x] == [x];
      OfLengthSnoc(xs, x, n);
    } else if |xs[|xs| - 1]| >= |x| {
      OfLengthSnoc(xs, x, n);
    } else {
      InsertStable(x, Init(xs), n);
      InsertedBefore(x, Init(xs), xs[|xs| - 1], n);
      assert xs == Init(xs) + [xs[|xs| - 1]];
    }
  }

  lemma InsertedBefore(x: string, init: seq<string>, last: string, n: nat)
    requires LongestFirst(init) && |last| < |x|
    requires OfLength(Insert(x, init), n) == OfLength(init, n) + if |x| == n then [x] else []
    ensures OfLength(Insert(x, init) + [last], n) == OfLength(init + [last], n) + if |x| == n then [x] else []
  {
    hide Insert, LongestFirst, OfLength;
    OfLengthSnoc(Insert(x, init), last, n);
    OfLengthSnoc(init, last, n);
    assert OfLength(init, n) + [] == OfLength(init, n);
  }

  // The sort is stable: variants of one length stay in their order.
  lemma {:induction false} SortStable(xs: seq<string>, n: nat)
    ensures OfLength(SortByLength(xs), n) == OfLength(xs, n)
  {
    if xs != [] {
      SortStable(xs[..|xs| - 1], n);
      InsertStable(xs[|xs| - 1], SortByLength(xs[..|xs| - 1]), n);
    }
  }

  // ---- Payloads ----

  ghost predicate BlindedAs(x: Json, y: Json, o: string, hidden: seq<string>)
  {
    match x
    case Str(s) => y.Str? && Redacted(s, y.s, o, Variants(hidden))
    case Arr(items) =>
      y.Arr? && |y.items| == |items| && forall i :: 0 <= i < |items| ==> BlindedAs(items[i], y.items[i], o, hidden)
    case Obj(fields) => y.Obj? && FieldsAs(fields, y.fields, o, hidden)
    case _ => y == x
  }

  // The fields stay in their order under their keys, but for those that name the provider or the model.
  ghost predicate FieldsAs(xs: seq<Field>, ys: seq<Field>, o: string, hidden: seq<string>)
  {
    if xs == [] then ys == []
    else if xs[0].key in {"provider", "provider_name", "model_name", "model_id"} then FieldsAs(xs[1..], ys, o, hidden)
    else
      && ys != [] && ys[0].key == xs[0].key
      && (if xs[0].key == "model" then ys[0].value == Str(o) else BlindedAs(xs[0].value, ys[0].value, o, hidden))
      && FieldsAs(xs[1..], ys[1..], o, hidden)
  }

  lemma {:induction false} BlindIsBlindedAs(value: Json, o: string, hidden: seq<string>)
    ensures BlindedAs(value, Blind(value, o, hidden), o, hidden)
  {
    hide Redacted, BlindIdentityText;
    match value
    case Str(s) => TextIsRedacted(s, o, hidden);
    case Arr(items) => ItemsAreBlinded(items, o, hidden);
    case Obj(fields) => FieldsAreBlinded(fields, o, hidden);
    case _ =>
  }

  lemma {:induction false} ItemsAreBlinded(items: seq<Json>, o: string, hidden: seq<string>)
    ensures |BlindItems(items, o, hidden)| == |items|
    ensures forall i :: 0 <= i < |items| ==> BlindedAs(items[i], BlindItems(items, o, hidden)[i], o, hidden)
  {
    hide BlindedAs, Blind;
    if items != [] {
      BlindIsBlindedAs(items[0], o, hidden);
      ItemsAreBlinded(items[1..], o, hidden);
      var r := BlindItems(items, o, hidden);
      forall i | 0 <= i < |items|
        ensures BlindedAs(items[i], r[i], o, hidden)
      {
        if i > 0 {
          assert r[i] == BlindItems(items[1..], o, hidden)[i - 1] && items[i] == items[1..][i - 1];
        }
      }
    }
  }

  lemma {:induction false} FieldsAreBlinded(fields: seq<Field>, o: string, hidden: seq<string>)
    ensures FieldsAs(fields, BlindFields(fields, o, hidden), o, hidden)
  {
    hide BlindedAs, Blind;
    if fields != [] {
      BlindIsBlindedAs(fields[0].value, o, hidden);
      FieldsAreBlinded(fields[1..], o, hidden);
      var f := fields[0];
      if !IsIdentityKey(f.key) {
        var y := Field(f.key, if f.key == "model" then Str(o) else Blind(f.value, o, hidden));
        assert BlindFields(fields, o, hidden) == [y] + BlindFields(fields[1..], o, hidden);
      }
    }
  }

  // A payload is blinded in one way only.
  lemma {:induction false} BlindedUnique(x: Json, y: Json, z: Json, o: string, hidden: seq<string>)
    requires BlindedAs(x, y, o, hidden) && BlindedAs(x, z, o, hidden)
    ensures y == z
    decreases x, 0
  {
    hide Redacted;
    match x
    case Str(s) => RedactedUnique(s, y.s, z.s, o, Variants(hidden));
    case Arr(items) =>
      forall i | 0 <= i < |items|
        ensures y.items[i] == z.items[i]
      {
        BlindedUnique(items[i], y.items[i], z.items[i], o, hidden);
      }
      assert y.items == z.items;
    case Obj(fields) => FieldsUnique(fields, y.fields, z.fields, o, hidden);
    case _ =>
  }

  lemma {:induction false} FieldsUnique(xs: seq<Field>, ys: seq<Field>, zs: seq<Field>, o: string, hidden: seq<string>)
    requires FieldsAs(xs, ys, o, hidden) && FieldsAs(xs, zs, o, hidden)
    ensures ys == zs
    decreases xs, 0
  {
    hide BlindedAs;
    if xs != [] {
      if xs[0].key in {"provider", "provider_name", "model_name", "model_id"} {
        FieldsUnique(xs[1..], ys, zs, o, hidden);
      } else {
        if xs[0].key != "model" {
          BlindedUnique(xs[0].value, ys[0].value, zs[0].value, o, hidden);
        }
        FieldsUnique(xs[1..], ys[1..], zs[1..], o, hidden);
        assert ys == [ys[0]] + ys[1..] && zs == [zs[0]] + zs[1..];
      }
    }
  }

  // ---- Lines ----

  // A line with a payload is its prefix and the blinded payload; one that does not parse is redacted as a text;
  // any other passes as it is.
  lemma LineMeaning(json: Codec, line: string, o: string, hidden: seq<string>)
    ensures var m := MatchData(line);
            var out := BlindSseLine(json, line, o, hidden);
            if m.None? || m.value.1 == "[DONE]" then out == line
            else
              var parsed := json.parse(m.value.1);
              if parsed.None? then Redacted(line, out, o, Variants(hidden))
              else exists payload :: BlindedAs(parsed.value, payload, o, hidden) && out == m.value.0 + json.stringify(payload)
  {
    hide Redacted, BlindIdentityText, BlindedAs, Blind, MatchData;
    var m := MatchData(line);
    if m.Some? && m.value.1 != "[DONE]" {
      var parsed := json.parse(m.value.1);
      if parsed.None? {
        TextIsRedacted(line, o, hidden);
      } else {
        BlindIsBlindedAs(parsed.value, o, hidden);
      }
    }
  }

  // What a line lets through: the redacted line is free of every variant and the blinded payload is clean.
  lemma BlindedLine(json: Codec, line: string, o: string, hidden: seq<string>)
    requires CompatibleAll(o, hidden)
    ensures var m := MatchData(line);
            var out := BlindSseLine(json, line, o, hidden);
            if m.None? || m.value.1 == "[DONE]" then out == line
            else
              var parsed := json.parse(m.value.1);
              if parsed.None? then Redacted(line, out, o, Variants(hidden)) && FreeOfAll(out, hidden)
              else exists payload ::
                  && BlindedAs(parsed.value, payload, o, hidden) && Clean(payload, o, hidden)
                  && out == m.value.0 + json.stringify(payload)
  {
    hide CompatibleAll, FreeOfAll, BlindIdentityText, Clean, Redacted, BlindedAs, Blind, MatchData;
    LineMeaning(json, line, o, hidden);
    var m := MatchData(line);
    if m.Some? && m.value.1 != "[DONE]" {
      var parsed := json.parse(m.value.1);
      if parsed.None? {
        BlindedTextIsFree(line, o, hidden);
      } else {
        BlindIsBlindedAs(parsed.value, o, hidden);
        BlindIsClean(parsed.value, o, hidden);
      }
    }
  }

  // A line that says nothing hidden is not touched.
  lemma CleanLinePasses(json: Codec, line: string, o: string, hidden: seq<string>)
    requires var m := MatchData(line);
             m.Some? ==> var parsed := json.parse(m.value.1);
                         if parsed.None? then FreeOfAll(line, hidden)
                         else Clean(parsed.value, o, hidden) && json.stringify(parsed.value) == m.value.1
    ensures BlindSseLine(json, line, o, hidden) == line
  {
    hide MatchData, Clean, Blind, FreeOfAll, BlindIdentityText;
    var m := MatchData(line);
    MatchDataSplits(line);
    if m.Some? {
      var parsed := json.parse(m.value.1);
      if parsed.None? {
        FreeTextKept(line, o, hidden);
      } else {
        CleanIsKept(parsed.value, o, hidden);
      }
    }
  }

  predicate NoTerminator(s: string)
  {
    forall i :: 0 <= i < |s| ==> s[i] !in {'\n', '\r', '\U{2028}', '\U{2029}'}
  }

  lemma {:induction false} TrimStartTakes(s: string)
    ensures |TrimStart(s)| <= |s| && AllSpace(s[..|s| - |TrimStart(s)|])
    ensures s == s[..|s| - |TrimStart(s)|] + TrimStart(s)
  {
    TrimStartIsSuffix(s);
    if s != "" && IsSpace(s[0]) {
      TrimStartTakes(s[1..]);
      OneMoreSpace(s, |s| - |TrimStart(s)|);
    }
  }

  lemma OneMoreSpace(s: string, n: nat)
    requires 0 < n <= |s| && IsSpace(s[0]) && AllSpace(s[1..][..n - 1])
    ensures AllSpace(s[..n])
  {
    hide IsSpace;
    forall i | 0 <= i < n
      ensures IsSpace(s[..n][i])
    {
      if i > 0 {
        assert s[..n][i] == s[1..][..n - 1][i - 1];
      }
    }
  }

  // Which lines carry data, and what of them: spaces, the word, spaces, and then the rest of the line, which does
  // not begin with a space.
  ghost predicate DataLine(line: string, prefix: string, content: string)
  {
    && line == prefix + content && NoTerminator(content)
    && exists a, b :: AllSpace(a) && AllSpace(b) && prefix == a + "data:" + b
  }

  lemma MatchDataIff(line: string)
    ensures MatchData(line).Some? <==> exists prefix, content :: DataLine(line, prefix, content)
    ensures MatchData(line).Some? ==>
              var m := MatchData(line).value;
              DataLine(line, m.0, m.1) && (m.1 == "" || !IsSpace(m.1[0]))
  {
    hide TrimStart;
    if MatchData(line).Some? {
      DataSplits(line);
    }
    if exists prefix, content :: DataLine(line, prefix, content) {
      var prefix, c :| DataLine(line, prefix, c);
      var a, b :| AllSpace(a) && AllSpace(b) && prefix == a + "data:" + b;
      assert a + "data:" + b + c == a + "data:" + (b + c);
      DataMatches(line, a, b, c);
    }
  }

  lemma DataSplits(line: string)
    requires MatchData(line).Some?
    ensures var m := MatchData(line).value;
            DataLine(line, m.0, m.1) && (m.1 == "" || !IsSpace(m.1[0]))
  {
    var text := TrimStart(line);
    var content := TrimStart(text[5..]);
    var m := MatchData(line).value;
    assert m.1 == content && NoTerminator(content);
    MatchDataSplits(line);
    hide TrimStart, MatchData;
    TrimStartTakes(line);
    TrimStartTakes(text[5..]);
    var a := line[..|line| - |text|];
    var b := text[5..][..|text[5..]| - |content|];
    PrefixSpelled(line, text, content, m.0, a, b);
  }

  lemma PrefixSpelled(line: string, text: string, content: string, prefix: string, a: string, b: string)
    requires prefix + content == line && line == a + text && "data:" <= text && text[5..] == b + content
    ensures prefix == a + "data:" + b
  {
    assert text == "data:" + text[5..];
    var p := a + "data:" + b;
    assert line == p + content;
    assert line[..|p|] == p && line[..|prefix|] == prefix;
  }

  lemma DataMatches(line: string, a: string, b: string, c: string)
    requires line == a + "data:" + (b + c) && AllSpace(a) && AllSpace(b) && NoTerminator(c)
    ensures MatchData(line).Some?
  {
    var text := "data:" + (b + c);
    assert line == a + text;
    TrimStartPrefix(a, text);
    assert text[0] == 'd' && TrimStart(text) == text;
    assert text[5..] == b + c;
    TrimStartPrefix(b, c);
    TrimStartIsSuffix(c);
    var content := TrimStart(c);
    assert forall i :: 0 <= i < |content| ==> content[i] == c[|c| - |content| + i];
  }

  // ---- Streams ----

  // A line and whether it ends in CRLF rather than LF.
  datatype Line = Line(text: string, crlf: bool)
  {
    function End(): string
    {
      if crlf then "\r\n" else "\n"
    }

    predicate Ok()
    {
      '\n' !in text && (!crlf ==> text == "" || text[|text| - 1] != '\r')
    }
  }

  // The lines of a text, each with something done to it.
  function Lines(lines: seq<Line>, f: string -> string): string
  {
    if lines == [] then "" else f(lines[0].text) + lines[0].End() + Lines(lines[1..], f)
  }

  lemma {:induction false} BreakBehind(a: string, rest: string)
    requires '\n' !in a
    ensures LineBreak(a + "\n" + rest) == Some(|a|)
  {
    var s := a + "\n" + rest;
    if a != "" {
      assert s[1..] == a[1..] + "\n" + rest;
      BreakBehind(a[1..], rest);
    }
  }

  lemma {:induction false} NoBreak(s: string)
    requires '\n' !in s
    ensures LineBreak(s).None?
  {
    if s != "" {
      NoBreak(s[1..]);
    }
  }

  // Of a text with these lines and this rest the batch form is the function on every line, the ends as they are.
  lemma {:induction false} BatchOnLines(f: string -> string, lines: seq<Line>, rest: string)
    requires (forall i :: 0 <= i < |lines| ==> lines[i].Ok()) && '\n' !in rest
    ensures Completed(f, Lines(lines, s => s) + rest) == Lines(lines, f)
    ensures Unterminated(Lines(lines, s => s) + rest) == rest
  {
    hide LineBreak;
    var id := (s: string) => s;
    if lines == [] {
      assert Lines([], id) + rest == rest;
      NoBreak(rest);
    } else {
      var l, more := lines[0], Lines(lines[1..], id) + rest;
      var body := if l.crlf then l.text + "\r" else l.text;
      var whole := Lines(lines, id) + rest;
      assert whole == body + "\n" + more by {
        assert l.text + "\r\n" == l.text + "\r" + "\n";
      }
      BreakBehind(body, more);
      assert whole[..|body|] == body && whole[|body| + 1..] == more;
      BatchOnLines(f, lines[1..], rest);
      assert TransformLine(f, body) == f(l.text) + l.End() by {
        assert l.crlf ==> body[..|body| - 1] == l.text;
      }
    }
  }

  // At the end the rest counts as a line without an end, if there is one.
  lemma WholeOnLines(f: string -> string, lines: seq<Line>, rest: string)
    requires (forall i :: 0 <= i < |lines| ==> lines[i].Ok()) && '\n' !in rest
    ensures Whole(f, Lines(lines, s => s) + rest) == Lines(lines, f) + if rest == "" then "" else f(rest)
  {
    hide Completed, Unterminated, Lines, Line.Ok;
    BatchOnLines(f, lines, rest);
  }

  lemma LineOf(body: string) returns (l: Line)
    requires '\n' !in body
    ensures l.Ok() && l.text + l.End() == body + "\n"
  {
    var crlf := body != "" && body[|body| - 1] == '\r';
    l := Line(if crlf then body[..|body| - 1] else body, crlf);
    if crlf {
      assert body == l.text + "\r" && "\r\n" == "\r" + "\n";
    }
  }

  // And every text has such lines and such a rest.
  lemma {:induction false} TextHasLines(text: string) returns (lines: seq<Line>, rest: string)
    ensures (forall i :: 0 <= i < |lines| ==> lines[i].Ok()) && '\n' !in rest
    ensures text == Lines(lines, s => s) + rest
    decreases |text|
  {
    hide Line.Ok, Line.End;
    var id := (s: string) => s;
    var n := LineBreak(text);
    if n.None? {
      lines, rest := [], text;
      assert "" + text == text;
    } else {
      var body, more := text[..n.value], text[n.value + 1..];
      var l := LineOf(body);
      var tail, r := TextHasLines(more);
      lines, rest := [l] + tail, r;
      assert lines[1..] == tail && Lines(lines, id) == l.text + l.End() + Lines(tail, id);
      assert text == body + "\n" + more;
    }
  }
}
