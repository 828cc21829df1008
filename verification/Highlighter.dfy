// packages/highlight/src/highlighter.ts: styled spans of a text turned into tokens, line by line.

module Highlighter {
  import opened Wrappers
  import opened Strings

  type Style = Option<string>

  // One call of highlightTree's callback.
  datatype Span = Span(start: nat, end: nat, classes: string)

  datatype Token = Token(text: string, style: Style)

  predicate Covers(s: Span, i: nat)
  {
    s.start <= i < s.end
  }

  // The style of the last span that covers a position.
  function StyleAt(spans: seq<Span>, i: nat): Style
  {
    if spans == [] then None
    else if Covers(spans[|spans| - 1], i) then Some(spans[|spans| - 1].classes)
    else StyleAt(spans[..|spans| - 1], i)
  }

  lemma {:induction false} StyleAtIsLast(spans: seq<Span>, i: nat)
    ensures StyleAt(spans, i).None? <==> forall k :: 0 <= k < |spans| ==> !Covers(spans[k], i)
    ensures forall k :: 0 <= k < |spans| && Covers(spans[k], i) && (forall l :: k < l < |spans| ==> !Covers(spans[l], i)) ==>
              StyleAt(spans, i) == Some(spans[k].classes)
  {
    if spans != [] {
      var init := spans[..|spans| - 1];
      StyleAtIsLast(init, i);
      assert forall k :: 0 <= k < |init| ==> init[k] == spans[k];
    }
  }

  // ---- Tokens of a line ----

  function Styled(text: string, style: Style): seq<(char, Style)>
  {
    seq(|text|, i requires 0 <= i < |text| => (text[i], style))
  }

  // The characters of the tokens, each with its token's style.
  function Flatten(tokens: seq<Token>): seq<(char, Style)>
  {
    if tokens == [] then []
    else Flatten(tokens[..|tokens| - 1]) + Styled(tokens[|tokens| - 1].text, tokens[|tokens| - 1].style)
  }

  // The characters of a line that begins at a position of the text, each with its own style.
  function Wanted(line: string, pos: nat, spans: seq<Span>): seq<(char, Style)>
  {
    seq(|line|, i requires 0 <= i < |line| => (line[i], StyleAt(spans, pos + i)))
  }

  // No token is empty, and neighbours differ in style.
  predicate Maximal(tokens: seq<Token>)
  {
    && (forall k :: 0 <= k < |tokens| ==> tokens[k].text != "")
    && (forall k :: 0 <= k < |tokens| - 1 ==> tokens[k].style != tokens[k + 1].style)
  }

  const EmptyLine: seq<Token> := [Token("", None)]

  // The tokens of a line: they spell it with the wanted styles and cannot be joined further; only the empty
  // line has an empty token.
  predicate Tokenises(tokens: seq<Token>, line: string, pos: nat, spans: seq<Span>)
  {
    if line == "" then tokens == EmptyLine
    else Flatten(tokens) == Wanted(line, pos, spans) && Maximal(tokens)
  }

  function Text(tokens: seq<Token>): string
  {
    if tokens == [] then "" else Text(tokens[..|tokens| - 1]) + tokens[|tokens| - 1].text
  }

  lemma {:induction false} FlattenText(tokens: seq<Token>)
    ensures |Flatten(tokens)| == |Text(tokens)|
    ensures forall i :: 0 <= i < |Text(tokens)| ==> Flatten(tokens)[i].0 == Text(tokens)[i]
  {
    if tokens != [] {
      FlattenText(tokens[..|tokens| - 1]);
    }
  }

  lemma TokensSpellTheLine(tokens: seq<Token>, line: string, pos: nat, spans: seq<Span>)
    requires Tokenises(tokens, line, pos, spans)
    ensures Text(tokens) == line
  {
    if line == "" {
      assert Text(tokens[..0]) == "";
    } else {
      FlattenText(tokens);
    }
  }

  // Forms of the same have the same last token, and what is before it is the same again.
  lemma SameLast(a: seq<Token>, b: seq<Token>)
    requires Maximal(a) && Maximal(b) && Flatten(a) == Flatten(b) && a != [] && b != []
    ensures a[|a| - 1] == b[|b| - 1] && Flatten(a[..|a| - 1]) == Flatten(b[..|b| - 1])
  {
    hide Flatten, Maximal;
    NoLongerRun(a, b);
    NoLongerRun(b, a);
    LastTokenSplits(a);
    LastTokenSplits(b);
    assert a[|a| - 1].text == b[|b| - 1].text;
  }

  // A run-length form is determined by what it stands for.
  lemma {:induction false} MaximalUnique(a: seq<Token>, b: seq<Token>)
    requires Maximal(a) && Maximal(b) && Flatten(a) == Flatten(b)
    ensures a == b
  {
    hide Flatten;
    if a == [] || b == [] {
      FlattenEmpty(a);
      FlattenEmpty(b);
    } else {
      SameLast(a, b);
      MaximalUnique(a[..|a| - 1], b[..|b| - 1]);
      assert a == a[..|a| - 1] + [a[|a| - 1]] && b == b[..|b| - 1] + [b[|b| - 1]];
    }
  }

  // The last token's characters, and those before it.
  lemma LastTokenSplits(a: seq<Token>)
    requires a != []
    ensures var x, n := a[|a| - 1], |Flatten(a)| - |a[|a| - 1].text|;
            && 0 <= n && Flatten(a)[..n] == Flatten(a[..|a| - 1])
            && (forall i :: 0 <= i < |x.text| ==> Flatten(a)[n + i].0 == x.text[i])
  {
    var before, x := Flatten(a[..|a| - 1]), a[|a| - 1];
    var run := Styled(x.text, x.style);
    assert Flatten(a) == before + run;
    hide Flatten;
    assert (before + run)[..|before|] == before;
    assert forall i :: 0 <= i < |run| ==> (before + run)[|before| + i] == run[i];
  }

  lemma FlattenEmpty(a: seq<Token>)
    requires Maximal(a)
    ensures Flatten(a) == [] <==> a == []
  {
  }

  // The last token reaches back exactly as far as the style of the last character does.
  lemma LastRun(a: seq<Token>)
    requires Maximal(a) && a != []
    ensures var n, x := |Flatten(a)|, a[|a| - 1];
            && 0 < |x.text| <= n
            && (forall i :: n - |x.text| <= i < n ==> Flatten(a)[i].1 == x.style)
            && (|x.text| < n ==> Flatten(a)[n - |x.text| - 1].1 != x.style)
            && (|x.text| == n ==> |a| == 1)
  {
    var init := a[..|a| - 1];
    if init != [] {
      assert Flatten(init)[|Flatten(init)| - 1].1 == init[|init| - 1].style && Flatten(init) != [] by {
        assert init[|init| - 1] == a[|a| - 2];
      }
    }
  }

  lemma NoLongerRun(a: seq<Token>, b: seq<Token>)
    requires Maximal(a) && Maximal(b) && a != [] && b != [] && Flatten(a) == Flatten(b)
    ensures |b[|b| - 1].text| <= |a[|a| - 1].text| && a[|a| - 1].style == b[|b| - 1].style
  {
    LastRun(a);
    LastRun(b);
    var n := |Flatten(a)|;
    assert Flatten(a)[n - 1].1 == a[|a| - 1].style;
    assert Flatten(b)[n - 1].1 == b[|b| - 1].style;
  }

  lemma TokenisationUnique(a: seq<Token>, b: seq<Token>, line: string, pos: nat, spans: seq<Span>)
    requires Tokenises(a, line, pos, spans) && Tokenises(b, line, pos, spans)
    ensures a == b
  {
    if line != "" {
      MaximalUnique(a, b);
    }
  }

  // ---- Lines of a text ----

  // Where a line begins in the text: pos, as the loop counts it.
  function LineStart(lines: seq<string>, k: nat): nat
    requires k <= |lines|
  {
    if k == 0 then 0 else LineStart(lines, k - 1) + |lines[k - 1]| + 1
  }

  lemma {:induction false} LineStartRest(lines: seq<string>, k: nat)
    requires 0 < k <= |lines|
    ensures LineStart(lines, k) == |lines[0]| + 1 + LineStart(lines[1..], k - 1)
  {
    if k > 1 {
      LineStartRest(lines, k - 1);
    }
  }

  lemma {:induction false} JoinAt(lines: seq<string>, k: nat)
    requires k < |lines|
    ensures var n := LineStart(lines, k);
            && n + |lines[k]| <= |Join(lines, '\n')|
            && Join(lines, '\n')[n..n + |lines[k]|] == lines[k]
            && (k + 1 < |lines| ==> n + |lines[k]| < |Join(lines, '\n')|)
  {
    if |lines| > 1 {
      var rest := Join(lines[1..], '\n');
      if k > 0 {
        JoinAt(lines[1..], k - 1);
        LineStartRest(lines, k);
        var n := LineStart(lines[1..], k - 1);
        assert Join(lines, '\n')[|lines[0]| + 1..] == rest;
        assert Join(lines, '\n')[|lines[0]| + 1 + n..|lines[0]| + 1 + n + |lines[k]|] == rest[n..n + |lines[k]|];
      }
    }
  }

  // The k-th line stands in the text where pos says.
  lemma LineAt(code: string, k: nat)
    requires k < |Split(code, '\n')|
    ensures var lines := Split(code, '\n');
            && LineStart(lines, k) + |lines[k]| <= |code|
            && code[LineStart(lines, k)..LineStart(lines, k) + |lines[k]|] == lines[k]
  {
    JoinSplit(code, '\n');
    JoinAt(Split(code, '\n'), k);
  }

  // The tokens of the first lines.
  predicate Done(result: seq<seq<Token>>, lines: seq<string>, spans: seq<Span>)
  {
    && |result| <= |lines|
    && forall k :: 0 <= k < |result| ==> Tokenises(result[k], lines[k], LineStart(lines, k), spans)
  }

  lemma DoneSnoc(result: seq<seq<Token>>, lines: seq<string>, spans: seq<Span>, tokens: seq<Token>)
    requires Done(result, lines, spans) && |result| < |lines|
    requires Tokenises(tokens, lines[|result|], LineStart(lines, |result|), spans)
    ensures Done(result + [tokens], lines, spans)
  {
    hide Tokenises, LineStart;
  }

  predicate Highlights(result: seq<seq<Token>>, code: string, spans: seq<Span>)
  {
    |result| == |Split(code, '\n')| && Done(result, Split(code, '\n'), spans)
  }

  function Texts(result: seq<seq<Token>>): seq<string>
  {
    seq(|result|, k requires 0 <= k < |result| => Text(result[k]))
  }

  // The tokens, line by line, give the text back.
  lemma HighlightedTextIsTheCode(result: seq<seq<Token>>, code: string, spans: seq<Span>)
    requires Highlights(result, code, spans)
    ensures Join(Texts(result), '\n') == code
  {
    var lines := Split(code, '\n');
    forall k | 0 <= k < |lines|
      ensures Text(result[k]) == lines[k]
    {
      TokensSpellTheLine(result[k], lines[k], LineStart(lines, k), spans);
    }
    assert Texts(result) == lines;
    JoinSplit(code, '\n');
  }

  lemma HighlightUnique(a: seq<seq<Token>>, b: seq<seq<Token>>, code: string, spans: seq<Span>)
    requires Highlights(a, code, spans) && Highlights(b, code, spans)
    ensures a == b
  {
    var lines := Split(code, '\n');
    forall k | 0 <= k < |lines|
      ensures a[k] == b[k]
    {
      TokenisationUnique(a[k], b[k], lines[k], LineStart(lines, k), spans);
    }
  }

  // ---- The loops of the original ----

  method FillStyles(spans: seq<Span>, styleMap: array<Style>)
    modifies styleMap
    requires forall i :: 0 <= i < styleMap.Length ==> styleMap[i].None?
    ensures forall i :: 0 <= i < styleMap.Length ==> styleMap[i] == StyleAt(spans, i)
  {
    for k := 0 to |spans|
      invariant forall i :: 0 <= i < styleMap.Length ==> styleMap[i] == StyleAt(spans[..k], i)
    {
      var span := spans[k];
      assert spans[..k + 1][..k] == spans[..k];
      ghost var before := styleMap[..];
      var i := span.start;
      while i < span.end && i < styleMap.Length
        invariant span.start <= i
        invariant forall j :: 0 <= j < styleMap.Length ==>
                    styleMap[j] == if span.start <= j < i && j < span.end then Some(span.classes) else before[j]
        decreases styleMap.Length - i
      {
        styleMap[i] := Some(span.classes);
        i := i + 1;
      }
    }
    assert spans[..|spans|] == spans;
  }

  lemma FlattenSnoc(tokens: seq<Token>, t: Token)
    ensures Flatten(tokens + [t]) == Flatten(tokens) + Styled(t.text, t.style)
  {
    assert (tokens + [t])[..|tokens|] == tokens;
  }

  lemma WantedSnoc(line: string, i: nat, pos: nat, spans: seq<Span>)
    requires i < |line|
    ensures Wanted(line[..i + 1], pos, spans) == Wanted(line[..i], pos, spans) + [(line[i], StyleAt(spans, pos + i))]
  {
  }

  lemma StyledSnoc(text: string, c: char, style: Style)
    ensures Styled(text + [c], style) == Styled(text, style) + [(c, style)]
    ensures Styled([c], style) == [(c, style)]
  {
  }

  // The loop has read part of a line: finished tokens, and the one it is at.
  predicate Reading(tokens: seq<Token>, current: Token, read: seq<(char, Style)>)
  {
    && Flatten(tokens) + Styled(current.text, current.style) == read
    && Maximal(tokens)
    && (tokens != [] ==> tokens[|tokens| - 1].style != current.style)
  }

  lemma SameStyle(tokens: seq<Token>, current: Token, read: seq<(char, Style)>, c: char)
    requires Reading(tokens, current, read)
    ensures Reading(tokens, current.(text := current.text + [c]), read + [(c, current.style)])
  {
    hide Flatten, Styled, Maximal;
    StyledSnoc(current.text, c, current.style);
    var x := Styled(current.text, current.style);
    assert Flatten(tokens) + (x + [(c, current.style)]) == Flatten(tokens) + x + [(c, current.style)];
  }

  lemma Finished(tokens: seq<Token>, current: Token, read: seq<(char, Style)>)
    requires Reading(tokens, current, read) && current.text != ""
    ensures Flatten(tokens + [current]) == read && Maximal(tokens + [current])
  {
    hide Flatten, Styled;
    FlattenSnoc(tokens, current);
  }

  lemma OtherStyle(tokens: seq<Token>, current: Token, read: seq<(char, Style)>, c: char, style: Style)
    requires Reading(tokens, current, read) && current.text != "" && style != current.style
    ensures Reading(tokens + [current], Token([c], style), read + [(c, style)])
  {
    Finished(tokens, current, read);
    hide Flatten, Maximal;
    StyledSnoc("", c, style);
  }

  method TokeniseLine(line: string, pos: nat, styleMap: array<Style>, ghost spans: seq<Span>) returns (tokens: seq<Token>)
    requires pos + |line| <= styleMap.Length
    requires forall i :: 0 <= i < styleMap.Length ==> styleMap[i] == StyleAt(spans, i)
    ensures Tokenises(tokens, line, pos, spans)
  {
    hide StyleAt;
    if line == "" {
      return [Token("", None)];
    }
    tokens := [];
    var currentToken := Token("", styleMap[pos]);
    assert Reading(tokens, currentToken, Wanted(line[..0], pos, spans));
    hide Reading, Wanted, Flatten, Maximal;
    for i := 0 to |line|
      invariant Reading(tokens, currentToken, Wanted(line[..i], pos, spans))
      invariant if i == 0 then currentToken.style == styleMap[pos] else currentToken.text != ""
    {
      var charStyle := styleMap[pos + i];
      WantedSnoc(line, i, pos, spans);
      if charStyle == currentToken.style {
        SameStyle(tokens, currentToken, Wanted(line[..i], pos, spans), line[i]);
        currentToken := currentToken.(text := currentToken.text + [line[i]]);
      } else {
        OtherStyle(tokens, currentToken, Wanted(line[..i], pos, spans), line[i], charStyle);
        if currentToken.text != "" {
          tokens := tokens + [currentToken];
        }
        currentToken := Token([line[i]], charStyle);
      }
    }
    Finished(tokens, currentToken, Wanted(line[..|line|], pos, spans));
    assert line[..|line|] == line;
    if currentToken.text != "" {
      tokens := tokens + [currentToken];
    }
  }

  method TokeniseLines(code: string, styleMap: array<Style>, ghost spans: seq<Span>) returns (result: seq<seq<Token>>)
    requires styleMap.Length == |code|
    requires forall i :: 0 <= i < styleMap.Length ==> styleMap[i] == StyleAt(spans, i)
    ensures Highlights(result, code, spans)
  {
    hide Tokenises, StyleAt, Split;
    var lines := Split(code, '\n');
    result := [];
    assert Done(result, lines, spans);
    hide Done;
    var pos := 0;
    for k := 0 to |lines|
      invariant |result| == k && pos == LineStart(lines, k) && Done(result, lines, spans)
    {
      LineAt(code, k);
      var tokens := TokeniseLine(lines[k], pos, styleMap, spans);
      DoneSnoc(result, lines, spans, tokens);
      result := result + [tokens];
      pos := pos + |lines[k]| + 1;
    }
  }

  method PlainLines(code: string) returns (result: seq<seq<Token>>)
    ensures Highlights(result, code, [])
  {
    hide Tokenises, Split;
    var lines := Split(code, '\n');
    result := [];
    assert Done(result, lines, []);
    hide Done;
    for k := 0 to |lines|
      invariant |result| == k && Done(result, lines, [])
    {
      PlainLine(lines[k], LineStart(lines, k));
      DoneSnoc(result, lines, [], [Token(lines[k], None)]);
      result := result + [[Token(lines[k], None)]];
    }
  }

  // parsed says whether there is a parser for the file, whose tree gives the spans.
  method HighlightCode(code: string, parsed: bool, spans: seq<Span>) returns (result: seq<seq<Token>>)
    ensures Highlights(result, code, if parsed then spans else [])
  {
    if !parsed {
      result := PlainLines(code);
      return;
    }
    var styleMap := new Style[|code|](_ => None);
    FillStyles(spans, styleMap);
    result := TokeniseLines(code, styleMap, spans);
  }

  // Without spans a line is one plain token, as it is without a parser.
  lemma PlainLine(line: string, pos: nat)
    ensures Tokenises([Token(line, None)], line, pos, [])
  {
    FlattenSnoc([], Token(line, None));
    assert [] + [Token(line, None)] == [Token(line, None)];
    assert Flatten([]) + Styled(line, None) == Styled(line, None);
    assert forall i: nat :: StyleAt([], i).None?;
    assert Styled(line, None) == Wanted(line, pos, []);
  }
}
