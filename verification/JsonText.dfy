// JSON values, and JSON.stringify of them without spaces.

module JsonText {
  import opened Strings

  // An object lists its properties in order; the numbers are integers.
  datatype Json =
    | Null
    | Bool(b: bool)
    | Number(n: int)
    | Str(s: string)
    | Arr(items: seq<Json>)
    | Obj(fields: seq<Field>)

  datatype Field = Field(key: string, value: Json)

  function HexDigit(d: nat): char
    requires d < 16
  {
    if d < 10 then (48 + d) as char else (87 + d) as char
  }

  function EscapeChar(c: char): (r: string)
    ensures r != "" && r[0] != '"'
  {
    if c == '"' then "\\\""
    else if c == '\\' then "\\\\"
    else if c as int == 8 then "\\b"
    else if c == '\t' then "\\t"
    else if c == '\n' then "\\n"
    else if c as int == 12 then "\\f"
    else if c == '\r' then "\\r"
    else if c < ' ' then "\\u00" + [HexDigit(c as int / 16), HexDigit(c as int % 16)]
    else [c]
  }

  // The escaped characters and the closing quote.
  function QuoteRest(s: string): (r: string)
    ensures r != ""
  {
    if s == "" then "\"" else EscapeChar(s[0]) + QuoteRest(s[1..])
  }

  function Quote(s: string): string
  {
    "\"" + QuoteRest(s)
  }

  function PrintInt(n: int): string
  {
    if n < 0 then "-" + PrintNat(-n) else PrintNat(n)
  }

  function Stringify(v: Json): (r: string)
    ensures r != ""
    decreases v, 0
  {
    match v
    case Null => "null"
    case Bool(b) => if b then "true" else "false"
    case Number(n) => PrintInt(n)
    case Str(s) => Quote(s)
    case Arr(items) => "[" + ItemsBody(items)
    case Obj(fields) => "{" + FieldsBody(fields)
  }

  function ItemsBody(items: seq<Json>): string
    decreases items, 1
  {
    if items == [] then "]" else Stringify(items[0]) + ItemsRest(items[1..])
  }

  function ItemsRest(items: seq<Json>): (r: string)
    ensures r != "" && (r[0] == ',' || r[0] == ']')
    decreases items, 0
  {
    if items == [] then "]" else "," + (Stringify(items[0]) + ItemsRest(items[1..]))
  }

  function FieldsBody(fields: seq<Field>): string
    decreases fields, 1
  {
    if fields == [] then "}" else Quote(fields[0].key) + (":" + (Stringify(fields[0].value) + FieldsRest(fields[1..])))
  }

  function FieldsRest(fields: seq<Field>): (r: string)
    ensures r != "" && (r[0] == ',' || r[0] == '}')
    decreases fields, 0
  {
    if fields == [] then "}"
    else "," + (Quote(fields[0].key) + (":" + (Stringify(fields[0].value) + FieldsRest(fields[1..]))))
  }

  // ---- Characters, as section 7 of RFC 8259 spells them ----

  function HexValue(h: char): int
  {
    if '0' <= h <= '9' then h as int - '0' as int
    else if 'a' <= h <= 'f' then h as int - 'a' as int + 10
    else -1
  }

  // The letter behind a backslash, and the code of the character it stands for.
  predicate ShortEscape(letter: char, code: int)
  {
    (letter, code) in {('"', 0x22), ('\\', 0x5C), ('b', 0x08), ('f', 0x0C), ('n', 0x0A), ('r', 0x0D), ('t', 0x09)}
  }

  predicate Spells(e: string, c: char)
  {
    if c as int in {0x22, 0x5C, 0x08, 0x09, 0x0A, 0x0C, 0x0D} then |e| == 2 && e[0] == '\\' && ShortEscape(e[1], c as int)
    else if c as int < 0x20 then
      && |e| == 6 && e[..4] == "\\u00" && HexValue(e[4]) >= 0 && HexValue(e[5]) >= 0
      && HexValue(e[4]) * 16 + HexValue(e[5]) == c as int
    else e == [c]
  }

  // The short escape where there is one, the hexadecimal one for the other control characters, and all others plain.
  lemma EscapeSpells(c: char)
    ensures Spells(EscapeChar(c), c)
  {
    if c as int < 0x20 {
      HexReads(c as int / 16);
      HexReads(c as int % 16);
    }
  }

  lemma HexReads(d: nat)
    requires d < 16
    ensures HexValue(HexDigit(d)) == d
  {
  }

  // ---- Reading a text back can go only one way ----

  // What may follow a value.
  predicate Closed(r: string)
  {
    r == "" || r[0] == ',' || r[0] == ']' || r[0] == '}'
  }

  lemma EscapeUnambiguous(c: char, d: char, r: string, s: string)
    requires EscapeChar(c) + r == EscapeChar(d) + s
    ensures c == d && r == s
  {
    var x, y := EscapeChar(c) + r, EscapeChar(d) + s;
    assert x[0] == EscapeChar(c)[0] && y[0] == EscapeChar(d)[0];
    if EscapeChar(c)[0] == '\\' {
      assert x[1] == EscapeChar(c)[1] && y[1] == EscapeChar(d)[1];
      if EscapeChar(c)[1] == 'u' {
        assert x[4] == EscapeChar(c)[4] && y[4] == EscapeChar(d)[4];
        assert x[5] == EscapeChar(c)[5] && y[5] == EscapeChar(d)[5];
      }
    }
    assert x[|EscapeChar(c)|..] == r && y[|EscapeChar(d)|..] == s;
  }

  lemma {:induction false} QuoteUnambiguous(a: string, b: string, r: string, s: string)
    requires QuoteRest(a) + r == QuoteRest(b) + s
    ensures a == b && r == s
  {
    hide EscapeChar;
    var x, y := QuoteRest(a) + r, QuoteRest(b) + s;
    if a == "" || b == "" {
      assert x[0] == QuoteRest(a)[0] && y[0] == QuoteRest(b)[0];
      assert x[1..] == y[1..];
    } else {
      assert x == EscapeChar(a[0]) + (QuoteRest(a[1..]) + r);
      assert y == EscapeChar(b[0]) + (QuoteRest(b[1..]) + s);
      EscapeUnambiguous(a[0], b[0], QuoteRest(a[1..]) + r, QuoteRest(b[1..]) + s);
      QuoteUnambiguous(a[1..], b[1..], r, s);
      assert a == [a[0]] + a[1..] && b == [b[0]] + b[1..];
    }
  }

  lemma {:induction false} DigitsUnambiguous(a: string, b: string, r: string, s: string)
    requires AllDigits(a) && AllDigits(b) && Closed(r) && Closed(s) && a + r == b + s
    ensures a == b && r == s
  {
    assert a != "" ==> (a + r)[0] == a[0] && IsDigit(a[0]);
    assert b != "" ==> (b + s)[0] == b[0] && IsDigit(b[0]);
    assert (a == "" ==> a + r == r) && (b == "" ==> b + s == s);
    if a != "" && b != "" {
      assert (a + r)[1..] == a[1..] + r && (b + s)[1..] == b[1..] + s;
      DigitsUnambiguous(a[1..], b[1..], r, s);
      assert a == [a[0]] + a[1..] && b == [b[0]] + b[1..];
    }
  }

  lemma Shift(a: string, b: string, c: string)
    ensures (a + b) + c == a + (b + c)
  {
  }

  lemma DropHead(c: char, d: char, x: string, y: string)
    requires [c] + x == [d] + y
    ensures c == d && x == y
  {
    assert ([c] + x)[0] == ([d] + y)[0];
    assert ([c] + x)[1..] == x && ([d] + y)[1..] == y;
  }

  lemma IntUnambiguous(m: int, n: int, r: string, s: string)
    requires Closed(r) && Closed(s) && PrintInt(m) + r == PrintInt(n) + s
    ensures m == n && r == s
  {
    hide Closed, PrintNat;
    assert (PrintInt(m) + r)[0] == PrintInt(m)[0] && (PrintInt(n) + s)[0] == PrintInt(n)[0];
    assert m < 0 <==> n < 0;
    if m < 0 {
      Shift("-", PrintNat(-m), r);
      Shift("-", PrintNat(-n), s);
      DropHead('-', '-', PrintNat(-m) + r, PrintNat(-n) + s);
    }
    var a, b: nat := if m < 0 then -m else m, if n < 0 then -n else n;
    DigitsUnambiguous(PrintNat(a), PrintNat(b), r, s);
    ParsePrintNat(a);
    ParsePrintNat(b);
  }

  // The first character tells the kind of a value.
  function Kind(v: Json): char
  {
    match v
    case Null => 'n'
    case Bool(b) => if b then 't' else 'f'
    case Number(_) => '0'
    case Str(_) => '"'
    case Arr(_) => '['
    case Obj(_) => '{'
  }

  lemma FirstTells(v: Json)
    ensures var c := Stringify(v)[0]; Kind(v) == if c == '-' || IsDigit(c) then '0' else c
  {
    hide QuoteRest, PrintNat;
  }

  // Two values with the same text are the same, and so is what follows them.
  lemma {:induction false} StringifyUnambiguous(v: Json, w: Json, r: string, s: string)
    requires Closed(r) && Closed(s) && Stringify(v) + r == Stringify(w) + s
    ensures v == w && r == s
    decreases v, 0
  {
    hide QuoteRest, PrintInt, ItemsBody, FieldsBody, Closed, IsDigit;
    var x, y := Stringify(v) + r, Stringify(w) + s;
    FirstTells(v);
    FirstTells(w);
    assert x[0] == Stringify(v)[0] && y[0] == Stringify(w)[0];
    assert x[1..] == Stringify(v)[1..] + r && y[1..] == Stringify(w)[1..] + s;
    match v
    case Null => assert x[4..] == r && y[4..] == s;
    case Bool(b) => assert x[|Stringify(v)|..] == r && y[|Stringify(w)|..] == s;
    case Number(n) => IntUnambiguous(n, w.n, r, s);
    case Str(t) => QuoteUnambiguous(t, w.s, r, s);
    case Arr(items) => ItemsUnambiguous(items, w.items, r, s);
    case Obj(fields) => FieldsUnambiguous(fields, w.fields, r, s);
  }

  lemma ItemsShape(a: seq<Json>, r: string)
    requires a != []
    ensures ItemsBody(a) + r == Stringify(a[0]) + (ItemsRest(a[1..]) + r)
    ensures ItemsRest(a) + r == "," + (ItemsBody(a) + r)
  {
    hide Stringify;
    Shift(Stringify(a[0]), ItemsRest(a[1..]), r);
    Shift(",", ItemsBody(a), r);
  }

  // The head of a list tells whether it is empty.
  lemma ItemsHead(a: seq<Json>, r: string)
    ensures ((ItemsBody(a) + r)[0] == ']' <==> a == []) && ((ItemsRest(a) + r)[0] == ']' <==> a == [])
  {
    hide IsDigit, Stringify;
    if a != [] {
      FirstTells(a[0]);
      ItemsShape(a, r);
      assert (Stringify(a[0]) + (ItemsRest(a[1..]) + r))[0] == Stringify(a[0])[0];
      assert IsDigit(']') ==> false by { NoDigit(); }
    }
  }

  lemma NoDigit()
    ensures !IsDigit(']')
  {
  }

  lemma {:induction false} ItemsUnambiguous(a: seq<Json>, b: seq<Json>, r: string, s: string)
    requires Closed(r) && Closed(s) && ItemsBody(a) + r == ItemsBody(b) + s
    ensures a == b && r == s
    decreases a
  {
    ItemsHead(a, r);
    ItemsHead(b, s);
    hide Stringify, ItemsRest, Closed;
    if a == [] {
      DropHead(']', ']', r, s);
    } else {
      hide ItemsBody;
      var p, q := ItemsRest(a[1..]) + r, ItemsRest(b[1..]) + s;
      ItemsShape(a, r);
      ItemsShape(b, s);
      assert Closed(p) && Closed(q) by { RestClosed(a[1..], r); RestClosed(b[1..], s); }
      StringifyUnambiguous(a[0], b[0], p, q);
      ItemsRestUnambiguous(a[1..], b[1..], r, s);
      assert a == [a[0]] + a[1..] && b == [b[0]] + b[1..];
    }
  }

  lemma RestClosed(a: seq<Json>, r: string)
    ensures Closed(ItemsRest(a) + r)
  {
    assert (ItemsRest(a) + r)[0] == ItemsRest(a)[0];
  }

  lemma {:induction false} ItemsRestUnambiguous(a: seq<Json>, b: seq<Json>, r: string, s: string)
    requires Closed(r) && Closed(s) && ItemsRest(a) + r == ItemsRest(b) + s
    ensures a == b && r == s
    decreases a
  {
    ItemsHead(a, r);
    ItemsHead(b, s);
    hide Stringify, ItemsBody, Closed;
    if a == [] {
      DropHead(']', ']', r, s);
    } else {
      hide ItemsRest;
      ItemsShape(a, r);
      ItemsShape(b, s);
      DropHead(',', ',', ItemsBody(a) + r, ItemsBody(b) + s);
      var p, q := ItemsRest(a[1..]) + r, ItemsRest(b[1..]) + s;
      assert Closed(p) && Closed(q) by { RestClosed(a[1..], r); RestClosed(b[1..], s); }
      StringifyUnambiguous(a[0], b[0], p, q);
      ItemsRestUnambiguous(a[1..], b[1..], r, s);
      assert a == [a[0]] + a[1..] && b == [b[0]] + b[1..];
    }
  }

  lemma FieldsShape(a: seq<Field>, r: string)
    requires a != []
    ensures FieldsBody(a) + r == "\"" + (QuoteRest(a[0].key) + (":" + (Stringify(a[0].value) + (FieldsRest(a[1..]) + r))))
    ensures FieldsRest(a) + r == "," + (FieldsBody(a) + r)
  {
    hide Stringify, QuoteRest;
    var k, v, t := QuoteRest(a[0].key), Stringify(a[0].value), FieldsRest(a[1..]);
    Shift(v, t, r);
    Shift(":", v + t, r);
    Shift(k, ":" + (v + t), r);
    Shift("\"", k, ":" + (v + t));
    Shift("\"", k + (":" + (v + t)), r);
    Shift(",", FieldsBody(a), r);
  }

  lemma FieldsHead(a: seq<Field>, r: string)
    ensures ((FieldsBody(a) + r)[0] == '}' <==> a == []) && ((FieldsRest(a) + r)[0] == '}' <==> a == [])
  {
    hide Stringify, QuoteRest;
    if a != [] {
      FieldsShape(a, r);
    }
  }

  lemma FieldsClosed(a: seq<Field>, r: string)
    ensures Closed(FieldsRest(a) + r)
  {
    assert (FieldsRest(a) + r)[0] == FieldsRest(a)[0];
  }

  lemma {:induction false} FieldsUnambiguous(a: seq<Field>, b: seq<Field>, r: string, s: string)
    requires Closed(r) && Closed(s) && FieldsBody(a) + r == FieldsBody(b) + s
    ensures a == b && r == s
    decreases a, 0
  {
    FieldsHead(a, r);
    FieldsHead(b, s);
    hide Stringify, QuoteRest, FieldsRest, Closed;
    if a == [] {
      DropHead('}', '}', r, s);
    } else {
      hide FieldsBody;
      FieldsShape(a, r);
      FieldsShape(b, s);
      var p, q := FieldsRest(a[1..]) + r, FieldsRest(b[1..]) + s;
      var v, w := Stringify(a[0].value) + p, Stringify(b[0].value) + q;
      DropHead('"', '"', QuoteRest(a[0].key) + (":" + v), QuoteRest(b[0].key) + (":" + w));
      QuoteUnambiguous(a[0].key, b[0].key, ":" + v, ":" + w);
      DropHead(':', ':', v, w);
      assert Closed(p) && Closed(q) by { FieldsClosed(a[1..], r); FieldsClosed(b[1..], s); }
      StringifyUnambiguous(a[0].value, b[0].value, p, q);
      FieldsRestUnambiguous(a[1..], b[1..], r, s);
      assert a == [a[0]] + a[1..] && b == [b[0]] + b[1..];
    }
  }

  lemma {:induction false} FieldsRestUnambiguous(a: seq<Field>, b: seq<Field>, r: string, s: string)
    requires Closed(r) && Closed(s) && FieldsRest(a) + r == FieldsRest(b) + s
    ensures a == b && r == s
    decreases a, 1
  {
    FieldsHead(a, r);
    FieldsHead(b, s);
    hide Stringify, QuoteRest, FieldsBody, Closed;
    if a == [] {
      DropHead('}', '}', r, s);
    } else {
      hide FieldsRest;
      FieldsShape(a, r);
      FieldsShape(b, s);
      DropHead(',', ',', FieldsBody(a) + r, FieldsBody(b) + s);
      FieldsUnambiguous(a, b, r, s);
    }
  }

  lemma StringifyInjective(v: Json, w: Json)
    ensures Stringify(v) == Stringify(w) <==> v == w
  {
    if Stringify(v) == Stringify(w) {
      assert Stringify(v) + "" == Stringify(w) + "";
      StringifyUnambiguous(v, w, "", "");
    }
  }
}
