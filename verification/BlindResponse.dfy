// packages/arena-proxy/src/blind-response.ts: replacing model identities in texts, in
// completion payloads and in server-sent event lines.

module BlindResponse {
  import opened Wrappers
  import opened Sequences

  // ---- String.prototype.indexOf and replaceAll ----

  predicate OccursAt(s: string, v: string, i: nat)
  {
    i + |v| <= |s| && s[i..i + |v|] == v
  }

  predicate Contains(s: string, v: string)
  {
    exists i: nat :: i <= |s| && OccursAt(s, v, i)
  }

  function IndexOf(s: string, v: string): (r: Option<nat>)
    ensures r.None? ==> !Contains(s, v)
    ensures r.Some? ==> OccursAt(s, v, r.value) && forall i: nat :: i < r.value ==> !OccursAt(s, v, i)
  {
    IndexFrom(s, v, 0)
  }

  function IndexFrom(s: string, v: string, i: nat): (r: Option<nat>)
    requires i <= |s| + 1
    requires forall k: nat :: k < i ==> !OccursAt(s, v, k)
    ensures r.None? ==> forall k: nat :: !OccursAt(s, v, k)
    ensures r.Some? ==> OccursAt(s, v, r.value) && forall k: nat :: k < r.value ==> !OccursAt(s, v, k)
    decreases |s| + 1 - i
  {
    if i > |s| then None
    else if OccursAt(s, v, i) then Some(i)
    else IndexFrom(s, v, i + 1)
  }

  // What a replacement string stands for at one match: "$" patterns are expanded.
  function Expand(o: string, matched: string, before: string, after: string): string
  {
    if o == "" then ""
    else if |o| >= 2 && o[0] == '$' && o[1] == '$' then "$" + Expand(o[2..], matched, before, after)
    else if |o| >= 2 && o[0] == '$' && o[1] == '&' then matched + Expand(o[2..], matched, before, after)
    else if |o| >= 2 && o[0] == '$' && o[1] == '`' then before + Expand(o[2..], matched, before, after)
    else if |o| >= 2 && o[0] == '$' && o[1] == '\'' then after + Expand(o[2..], matched, before, after)
    else [o[0]] + Expand(o[1..], matched, before, after)
  }

  // replaceAll with a non-empty search string; done is the part of the text already passed.
  function ReplaceFrom(done: string, s: string, v: string, o: string): string
    requires v != ""
    decreases |s|
  {
    var i := IndexOf(s, v);
    if i.None? then s
    else
      var after := s[i.value + |v|..];
      s[..i.value] + Expand(o, v, done + s[..i.value], after) + ReplaceFrom(done + s[..i.value] + v, after, v, o)
  }

  function ReplaceAll(s: string, v: string, o: string): string
    requires v != ""
  {
    ReplaceFrom("", s, v, o)
  }

  // ---- blindIdentityText ----

  // An identity and the same without its leading "~".
  function VariantsOf(identities: seq<string>): seq<string>
  {
    if identities == [] then []
    else
      var x := identities[|identities| - 1];
      VariantsOf(identities[..|identities| - 1]) + [x, if x != "" && x[0] == '~' then x[1..] else x]
  }

  function NonEmpty(xs: seq<string>): (r: seq<string>)
    ensures forall x :: x in r <==> x in xs && x != ""
  {
    if xs == [] then []
    else
      assert forall y :: y in xs <==> y in xs[..|xs| - 1] || y == xs[|xs| - 1];
      NonEmpty(xs[..|xs| - 1]) + if xs[|xs| - 1] != "" then [xs[|xs| - 1]] else []
  }

  predicate LongestFirst(xs: seq<string>)
  {
    forall i, j :: 0 <= i < j < |xs| ==> |xs[i]| >= |xs[j]|
  }

  // Into a list ordered by length, behind those that are as long.
  function Insert(x: string, xs: seq<string>): (r: seq<string>)
    requires LongestFirst(xs)
    ensures LongestFirst(r)
    ensures forall y :: y in r <==> y in xs || y == x
  {
    if xs == [] then [x]
    else if |xs[|xs| - 1]| >= |x| then xs + [x]
    else
      var init := xs[..|xs| - 1];
      var last := xs[|xs| - 1];
      assert forall y :: y in xs <==> y in init || y == last;
      assert forall y :: y in init ==> |y| >= |last|;
      Insert(x, init) + [last]
  }

  // The stable sort by descending length.
  function SortByLength(xs: seq<string>): (r: seq<string>)
    ensures LongestFirst(r)
    ensures forall x :: x in r <==> x in xs
  {
    if xs == [] then []
    else
      assert forall y :: y in xs <==> y in xs[..|xs| - 1] || y == xs[|xs| - 1];
      Insert(xs[|xs| - 1], SortByLength(xs[..|xs| - 1]))
  }

  // new Set keeps the order of first insertion.
  function Variants(hidden: seq<string>): (r: seq<string>)
    ensures forall x :: x in r <==> x in VariantsOf(hidden) && x != ""
    ensures LongestFirst(r)
  {
    FirstUsesMeans(VariantsOf(hidden));
    SortByLength(NonEmpty(FirstUses([], VariantsOf(hidden))))
  }

  predicate AllNonEmpty(variants: seq<string>)
  {
    forall i :: 0 <= i < |variants| ==> variants[i] != ""
  }

  function ReplaceEach(value: string, opaque_: string, variants: seq<string>): string
    requires AllNonEmpty(variants)
  {
    if variants == [] then value
    else ReplaceAll(ReplaceEach(value, opaque_, variants[..|variants| - 1]), variants[|variants| - 1], opaque_)
  }

  lemma VariantsNonEmpty(hidden: seq<string>)
    ensures AllNonEmpty(Variants(hidden))
  {
    var r := Variants(hidden);
    forall i | 0 <= i < |r|
      ensures r[i] != ""
    {
      assert r[i] in r;
    }
  }

  function BlindIdentityText(value: string, opaqueModel: string, hidden: seq<string>): string
  {
    VariantsNonEmpty(hidden);
    ReplaceEach(value, opaqueModel, Variants(hidden))
  }

  // The loop of the original, over the sorted variants.
  method BlindIdentityTextLoop(value: string, opaqueModel: string, hidden: seq<string>) returns (redacted: string)
    ensures redacted == BlindIdentityText(value, opaqueModel, hidden)
  {
    redacted := value;
    var variants := Variants(hidden);
    VariantsNonEmpty(hidden);
    for i := 0 to |variants|
      invariant redacted == ReplaceEach(value, opaqueModel, variants[..i])
    {
      assert variants[..i + 1][..i] == variants[..i];
      redacted := ReplaceAll(redacted, variants[i], opaqueModel);
    }
    assert variants[..|variants|] == variants;
  }

  // ---- Freeness ----

  // No "$" in the name begins a replacement pattern.
  predicate NoPattern(o: string)
  {
    forall i :: 0 <= i < |o| - 1 && o[i] == '$' ==> !IsPatternEnd(o[i + 1])
  }

  predicate IsPatternEnd(c: char)
  {
    c == '$' || c == '&' || c == '`' || c == '\''
  }

  // The opaque name and a variant neither contain each other nor share an edge, and the name has no pattern.
  predicate Compatible(o: string, v: string)
  {
    && NoPattern(o)
    && !Contains(o, v)
    && !Contains(v, o)
    && (forall k :: 0 < k < |v| && k < |o| ==> v[|v| - k..] != o[..k] && v[..k] != o[|o| - k..])
  }

  lemma {:induction false} ExpandPlain(o: string, matched: string, before: string, after: string)
    requires NoPattern(o)
    ensures Expand(o, matched, before, after) == o
  {
    if o != "" {
      assert |o| >= 2 && o[0] == '$' ==> !IsPatternEnd(o[1]);
      forall i | 0 <= i < |o[1..]| - 1 && o[1..][i] == '$'
        ensures !IsPatternEnd(o[1..][i + 1])
      {
        assert o[i + 1] == '$';
      }
      ExpandPlain(o[1..], matched, before, after);
      assert [o[0]] + o[1..] == o;
    }
  }

  lemma {:induction false} ExpandShrinks(o: string)
    ensures |Expand(o, "", "", "")| <= |o|
    ensures !NoPattern(o) ==> |Expand(o, "", "", "")| < |o|
  {
    if |o| >= 2 && o[0] == '$' && IsPatternEnd(o[1]) {
      ExpandShrinks(o[2..]);
    } else if o != "" {
      ExpandShrinks(o[1..]);
      if NoPattern(o[1..]) {
        forall i | 0 <= i < |o| - 1 && o[i] == '$'
          ensures !IsPatternEnd(o[i + 1])
        {
          assert i > 0 ==> o[1..][i - 1] == '$' && o[1..][i] == o[i + 1];
        }
      }
    }
  }

  // A name is inserted as it is at every match if and only if it has no pattern.
  lemma PlainIff(o: string)
    ensures (forall matched, before, after :: Expand(o, matched, before, after) == o) <==> NoPattern(o)
  {
    if NoPattern(o) {
      forall matched, before, after
        ensures Expand(o, matched, before, after) == o
      {
        ExpandPlain(o, matched, before, after);
      }
    } else {
      ExpandShrinks(o);
    }
  }

  lemma PartContains(s: string, from: nat, to: nat, v: string)
    requires from <= to <= |s| && Contains(s[from..to], v)
    ensures Contains(s, v)
  {
    var part := s[from..to];
    var i: nat :| i <= |part| && OccursAt(part, v, i);
    assert forall k :: 0 <= k < |v| ==> v[k] == part[i..i + |v|][k] == s[from + i + k];
    assert s[from + i..from + i + |v|] == v;
    assert OccursAt(s, v, from + i);
  }

  // An occurrence across an inserted opaque name would have to touch it.
  lemma NoneAcross(x: string, o: string, y: string, v: string)
    requires Compatible(o, v) && v != ""
    requires !Contains(x, v) && !Contains(y, v)
    ensures !Contains(x + o + y, v)
  {
    var s := x + o + y;
    forall i: nat | i <= |s|
      ensures !OccursAt(s, v, i)
    {
      if OccursAt(s, v, i) {
        OccurrenceTouches(x, o, y, v, i);
      }
    }
  }

  lemma OccurrenceTouches(x: string, o: string, y: string, v: string, i: nat)
    requires v != "" && OccursAt(x + o + y, v, i)
    ensures Contains(x, v) || Contains(y, v) || Contains(o, v) || Contains(v, o) ||
            exists k :: 0 < k < |v| && k < |o| && (v[|v| - k..] == o[..k] || v[..k] == o[|o| - k..])
  {
    var s := x + o + y;
    var a, b, end := |x|, |x| + |o|, i + |v|;
    assert s[i..end] == v && s[0..a] == x && s[a..b] == o && s[b..|s|] == y;
    hide Contains, OccursAt;
    if end <= a {
      PartHolds(s, 0, a, i, end);
    } else if i >= b {
      PartHolds(s, b, |s|, i, end);
    } else if i <= a && b <= end {
      PartHolds(s, i, end, a, b);
    } else if a <= i && end <= b {
      PartHolds(s, a, b, i, end);
    } else if i < a {
      EndIsBegin(s, i, a, end, b);
      assert v[|v| - (end - a)..] == o[..end - a];
    } else {
      EndIsBegin(s, a, i, b, end);
      assert v[..b - i] == o[|o| - (b - i)..];
    }
  }

  lemma PartHolds(s: string, lo: nat, hi: nat, i: nat, j: nat)
    requires lo <= i <= j <= hi <= |s|
    ensures Contains(s[lo..hi], s[i..j])
  {
    SliceOfSlice(s, lo, hi, i, j);
    assert OccursAt(s[lo..hi], s[i..j], i - lo);
  }

  // Of two overlapping parts the end of the first is the beginning of the second.
  lemma EndIsBegin(s: string, i: nat, a: nat, end: nat, b: nat)
    requires i <= a <= end <= b <= |s|
    ensures s[i..end][a - i..] == s[a..b][..end - a]
  {
    SliceOfSlice(s, i, end, a, end);
    SliceOfSlice(s, a, b, a, end);
    assert s[i..end][a - i..] == s[i..end][a - i..end - i] && s[a..b][..end - a] == s[a..b][0..end - a];
  }

  lemma SliceOfSlice(s: string, lo: nat, hi: nat, i: nat, j: nat)
    requires lo <= i <= j <= hi <= |s|
    ensures s[lo..hi][i - lo..j - lo] == s[i..j]
  {
    var t := s[lo..hi][i - lo..j - lo];
    assert |t| == j - i && forall k :: 0 <= k < j - i ==> t[k] == s[i..j][k];
  }

  // Replacing one variant leaves a text without it, and without any other variant the text was free of.
  lemma {:induction false} ReplaceFrees(done: string, s: string, v: string, o: string, w: string)
    requires v != "" && w != "" && Compatible(o, w) && (w == v || !Contains(s, w))
    ensures !Contains(ReplaceFrom(done, s, v, o), w)
    decreases |s|
  {
    hide Contains, Compatible, Expand, NoPattern;
    assert NoPattern(o) by { CompatiblePlain(o, w); }
    var i := IndexOf(s, v);
    if i.Some? {
      var x, after := s[..i.value], s[i.value + |v|..];
      ExpandPlain(o, v, done + x, after);
      BeforeFirst(s, v, i.value);
      if w != v {
        assert s[0..i.value] == x;
        if Contains(x, w) {
          PartContains(s, 0, i.value, w);
        }
        assert s[i.value + |v|..|s|] == after;
        if Contains(after, w) {
          PartContains(s, i.value + |v|, |s|, w);
        }
      }
      ReplaceFrees(done + x + v, after, v, o, w);
      NoneAcross(x, o, ReplaceFrom(done + x + v, after, v, o), w);
    }
  }

  lemma CompatiblePlain(o: string, v: string)
    requires Compatible(o, v)
    ensures NoPattern(o)
  {
  }

  lemma BeforeFirst(s: string, v: string, i: nat)
    requires i <= |s| && v != "" && forall k: nat :: k < i ==> !OccursAt(s, v, k)
    ensures !Contains(s[..i], v)
  {
    if Contains(s[..i], v) {
      var k: nat :| k <= |s[..i]| && OccursAt(s[..i], v, k);
      OccursInPrefix(s, i, v, k);
    }
  }

  lemma OccursInPrefix(s: string, i: nat, v: string, k: nat)
    requires i <= |s| && v != "" && OccursAt(s[..i], v, k)
    ensures OccursAt(s, v, k) && k < i
  {
    assert s[..i][k..k + |v|] == s[k..k + |v|];
  }

  lemma {:induction false} ReplaceEachFrees(value: string, o: string, variants: seq<string>, n: nat)
    requires AllNonEmpty(variants) && n < |variants|
    requires forall i :: 0 <= i < |variants| ==> Compatible(o, variants[i])
    ensures !Contains(ReplaceEach(value, o, variants), variants[n])
  {
    hide Contains, Compatible;
    var init, last := variants[..|variants| - 1], variants[|variants| - 1];
    if n < |init| {
      ReplaceEachFrees(value, o, init, n);
      assert init[n] == variants[n];
    }
    ReplaceFrees("", ReplaceEach(value, o, init), last, o, variants[n]);
  }

  predicate CompatibleAll(o: string, hidden: seq<string>)
  {
    forall v :: v in VariantsOf(hidden) && v != "" ==> Compatible(o, v)
  }

  predicate FreeOfAll(s: string, hidden: seq<string>)
  {
    forall v :: v in VariantsOf(hidden) && v != "" ==> !Contains(s, v)
  }

  // In spite of the replacements following one another, no variant of a hidden identity is left in the text.
  lemma BlindedTextIsFree(value: string, o: string, hidden: seq<string>)
    requires CompatibleAll(o, hidden)
    ensures FreeOfAll(BlindIdentityText(value, o, hidden), hidden)
  {
    hide Contains, Compatible, ReplaceEach;
    var variants := Variants(hidden);
    VariantsNonEmpty(hidden);
    forall i | 0 <= i < |variants|
      ensures Compatible(o, variants[i])
    {
      assert variants[i] in variants;
    }
    forall v | v in VariantsOf(hidden) && v != ""
      ensures !Contains(BlindIdentityText(value, o, hidden), v)
    {
      var n :| 0 <= n < |variants| && variants[n] == v;
      ReplaceEachFrees(value, o, variants, n);
    }
  }

  lemma {:induction false} ReplaceEachKeeps(value: string, o: string, variants: seq<string>)
    requires AllNonEmpty(variants) && forall i :: 0 <= i < |variants| ==> !Contains(value, variants[i])
    ensures ReplaceEach(value, o, variants) == value
  {
    hide Contains;
    if variants != [] {
      ReplaceEachKeeps(value, o, variants[..|variants| - 1]);
      NothingToReplace(value, variants[|variants| - 1], o);
    }
  }

  lemma NothingToReplace(value: string, v: string, o: string)
    requires v != "" && !Contains(value, v)
    ensures ReplaceAll(value, v, o) == value
  {
    hide Contains;
    assert IndexOf(value, v).None? by { NoIndex(value, v); }
  }

  lemma NoIndex(value: string, v: string)
    requires !Contains(value, v)
    ensures IndexOf(value, v).None?
  {
    assert forall i: nat :: i + |v| <= |value| ==> !OccursAt(value, v, i);
  }

  // A text free of the variants is left alone; so blinding twice is blinding once.
  lemma FreeTextKept(value: string, o: string, hidden: seq<string>)
    requires FreeOfAll(value, hidden)
    ensures BlindIdentityText(value, o, hidden) == value
  {
    hide Contains, ReplaceEach;
    var variants := Variants(hidden);
    VariantsNonEmpty(hidden);
    forall i | 0 <= i < |variants|
      ensures !Contains(value, variants[i])
    {
      assert variants[i] in variants;
    }
    ReplaceEachKeeps(value, o, variants);
  }

  // ---- The condition is needed ----

  // No proper prefix of the variant is also its end, so that no two occurrences overlap.
  predicate Unbordered(v: string)
  {
    forall k :: 0 < k < |v| ==> v[..k] != v[|v| - k..]
  }

  // Two overlapping occurrences give a border.
  lemma OverlapIsBorder(s: string, v: string, i: nat, j: nat)
    requires i < j < i + |v| && OccursAt(s, v, i) && OccursAt(s, v, j)
    ensures v[j - i..] == v[..|v| - (j - i)]
  {
    SliceOfSlice(s, i, i + |v|, j, i + |v|);
    SliceOfSlice(s, j, j + |v|, j, i + |v|);
    assert v[j - i..] == v[j - i..|v|] && v[..|v| - (j - i)] == v[0..|v| - (j - i)];
  }

  // The only match in p + v + q is the one that was put there.
  lemma FirstBehind(p: string, v: string, q: string, k: nat)
    requires k < |p| < |v| && Unbordered(v)
    ensures !OccursAt(p + v + q, v, k)
  {
    var s := p + v + q;
    assert s[|p|..|p| + |v|] == v;
    if OccursAt(s, v, k) {
      OverlapIsBorder(s, v, k, |p|);
    }
  }

  lemma ReplaceOnce(p: string, v: string, q: string, o: string)
    requires |q| < |v| && forall k: nat :: k < |p| ==> !OccursAt(p + v + q, v, k)
    ensures ReplaceAll(p + v + q, v, o) == p + Expand(o, v, p, q) + q
  {
    var s := p + v + q;
    assert OccursAt(s, v, |p|) by {
      assert s[|p|..|p| + |v|] == v;
    }
    assert s[..|p|] == p && s[|p| + |v|..] == q && "" + p == p;
    var i := IndexOf(s, v);
    assert i == Some(|p|);
    assert IndexOf(q, v).None?;
    assert ReplaceFrom(p + v, q, v, o) == q;
  }

  lemma Leak(p: string, v: string, q: string, o: string)
    requires NoPattern(o) && |p| < |v| && |q| < |v| && (p == "" || Unbordered(v)) && Contains(p + o + q, v)
    ensures Contains(ReplaceAll(p + v + q, v, o), v)
  {
    hide Contains, Unbordered, OccursAt, NoPattern;
    forall k: nat | k < |p|
      ensures !OccursAt(p + v + q, v, k)
    {
      FirstBehind(p, v, q, k);
    }
    ReplaceOnce(p, v, q, o);
    ExpandPlain(o, v, p, q);
  }

  // A name that contains the variant, or ends in a beginning of it, lets the variant into some text.
  lemma ContainingLeaks(o: string, v: string)
    requires v != "" && NoPattern(o) && Contains(o, v)
    ensures exists s :: Contains(ReplaceAll(s, v, o), v)
  {
    assert "" + o + "" == o;
    Leak("", v, "", o);
  }

  lemma EndLeaks(o: string, v: string, k: nat)
    requires NoPattern(o) && 0 < k < |v| && k <= |o| && v[..k] == o[|o| - k..]
    ensures exists s :: Contains(ReplaceAll(s, v, o), v)
  {
    var q := v[k..];
    var r := "" + o + q;
    assert OccursAt(r, v, |o| - k) by {
      assert r == o[..|o| - k] + (o[|o| - k..] + q);
      assert o[|o| - k..] + q == v;
    }
    Leak("", v, q, o);
  }

  lemma BeginLeaks(o: string, v: string, k: nat)
    requires NoPattern(o) && Unbordered(v) && 0 < k < |v| && k <= |o| && v[|v| - k..] == o[..k]
    ensures exists s :: Contains(ReplaceAll(s, v, o), v)
  {
    var p := v[..|v| - k];
    var r := p + o + "";
    assert OccursAt(r, v, 0) by {
      assert r == (p + o[..k]) + o[k..];
      assert p + o[..k] == v;
    }
    Leak(p, v, "", o);
  }

  lemma ContainedLeaks(o: string, v: string)
    requires NoPattern(o) && Unbordered(v) && o != "" && Contains(v, o)
    ensures exists s :: Contains(ReplaceAll(s, v, o), v)
  {
    hide Unbordered, NoPattern, ReplaceAll;
    var i := OccurrenceOf(v, o);
    Around(v, o, i);
    ContainsItself(v);
    hide Contains, OccursAt;
    var p, q := v[..i], v[i + |o|..];
    Leak(p, v, q, o);
  }

  lemma OccurrenceOf(v: string, o: string) returns (i: nat)
    requires Contains(v, o)
    ensures i + |o| <= |v| && OccursAt(v, o, i)
  {
    i :| i <= |v| && OccursAt(v, o, i);
  }

  lemma Around(v: string, o: string, i: nat)
    requires OccursAt(v, o, i)
    ensures v[..i] + o + v[i + |o|..] == v
  {
    assert v == v[..i] + v[i..i + |o|] + v[i + |o|..];
  }

  lemma ContainsItself(v: string)
    ensures Contains(v, v)
  {
    assert OccursAt(v, v, 0);
  }

  // For a variant without a border and a name without a pattern the condition is exact: no text lets the
  // variant through if and only if it holds.
  lemma CompatibleIff(o: string, v: string)
    requires v != "" && o != "" && NoPattern(o) && Unbordered(v)
    ensures (forall s :: !Contains(ReplaceAll(s, v, o), v)) <==> Compatible(o, v)
  {
    hide ReplaceAll, Unbordered, NoPattern;
    if Compatible(o, v) {
      forall s
        ensures !Contains(ReplaceAll(s, v, o), v)
      {
        ReplaceAllFrees(s, v, o);
      }
    } else if Contains(o, v) {
      ContainingLeaks(o, v);
    } else if Contains(v, o) {
      ContainedLeaks(o, v);
    } else {
      var k :| 0 < k < |v| && k < |o| && (v[|v| - k..] == o[..k] || v[..k] == o[|o| - k..]);
      if v[|v| - k..] == o[..k] {
        BeginLeaks(o, v, k);
      } else {
        EndLeaks(o, v, k);
      }
    }
  }

  lemma ReplaceAllFrees(s: string, v: string, o: string)
    requires v != "" && Compatible(o, v)
    ensures !Contains(ReplaceAll(s, v, o), v)
  {
    hide Contains, Compatible;
    ReplaceFrees("", s, v, o, v);
  }

  // With a pattern even a name that has nothing in common with the variant can bring it back.
  lemma PatternLeaks(v: string)
    requires v != ""
    ensures ReplaceAll(v, v, "$&") == v
  {
    assert "" + v + "" == v;
    ReplaceOnce("", v, "", "$&");
    assert "$&"[2..] == "" && Expand("", v, "", "") == "" && v + "" == v;
  }
}
