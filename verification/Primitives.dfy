// What the encrypted channel takes from outside: JSON text, UTF-8, key handling and
// the authenticated cipher of packages/relay/src/crypto.ts. They are parameters of the
// model, a record of functions constrained only by the laws the channel depends on.

module Primitives {
  import opened Wrappers
  import opened Strings
  import opened Base64

  type Key = seq<bv8>

  // The values JSON.parse can return, as far as the message predicates look at them.
  datatype Parsed =
    | JNull
    | JBool(b: bool)
    | JNumber
    | JString(s: string)
    | JArray
    | JObject(fields: map<string, Parsed>)

  // Property access on a record: a missing property reads as undefined.
  function Get(fields: map<string, Parsed>, name: string): Option<Parsed>
  {
    if name in fields then Some(fields[name]) else None
  }

  const CAPABILITIES: Parsed := JObject(map["binaryCiphertext" := JBool(true)])

  // The message createClientChannel sends.
  function HelloJson(key: string): Parsed
  {
    JObject(map["type" := JString("e2ee_hello"), "key" := JString(key), "capabilities" := CAPABILITIES])
  }

  // The message the daemon answers with.
  function ReadyJson(binaryCiphertext: bool): Parsed
  {
    if binaryCiphertext then JObject(map["type" := JString("e2ee_ready"), "capabilities" := CAPABILITIES])
    else JObject(map["type" := JString("e2ee_ready")])
  }

  const OVERHEAD: nat := 40

  datatype Functions = Functions(
    parse: string -> Option<Parsed>,
    stringify: Parsed -> string,
    exportKey: Key -> string,
    importKey: string -> Option<Key>,
    publicOf: Key -> Key,
    derive: (Key, Key) -> Key,
    seal: (Key, nat, Bytes) -> Bytes,
    open: (Key, Bytes) -> Option<Bytes>,
    utf8: string -> Bytes,
    utf8Decode: Bytes -> Option<string>,
    utf8Lossy: Bytes -> string
  )

  ghost predicate JsonLaws(f: Functions)
  {
    && (forall k :: f.parse(f.stringify(HelloJson(k))) == Some(HelloJson(k)))
    && (forall b :: f.parse(f.stringify(ReadyJson(b))) == Some(ReadyJson(b)))
    && (forall s :: f.parse(s).Some? && f.parse(s).value.JObject? ==> Trim(s) != "" && Trim(s)[0] == '{')
  }

  // The shared key does not depend on which side derives it, and exported keys can be imported.
  ghost predicate KeyLaws(f: Functions)
  {
    && (forall k :: f.importKey(f.exportKey(f.publicOf(k))) == Some(f.publicOf(k)))
    && (forall k :: Trim(f.exportKey(f.publicOf(k))) != "")
    && (forall a, b :: f.derive(a, f.publicOf(b)) == f.derive(b, f.publicOf(a)))
  }

  // Opening a sealed bundle gives the plaintext back; a bundle is nonce and tag longer than its plaintext.
  ghost predicate CipherLaws(f: Functions)
  {
    forall k, n, p :: f.open(k, f.seal(k, n, p)) == Some(p) && |f.seal(k, n, p)| == |p| + OVERHEAD
  }

  ghost predicate TextLaws(f: Functions)
  {
    forall s :: f.utf8Decode(f.utf8(s)) == Some(s)
  }

  ghost predicate Lawful(f: Functions)
  {
    JsonLaws(f) && KeyLaws(f) && CipherLaws(f) && TextLaws(f)
  }

  type Env = f: Functions | Lawful(f) witness Sample()

  // The laws are consistent: a deliberately naive record of functions satisfies them.

  function SampleStringify(j: Parsed): string
  {
    if j.JObject? && "key" in j.fields && j.fields["key"].JString? then "{K" + j.fields["key"].s
    else if j.JObject? && "capabilities" in j.fields then "{C"
    else "{R"
  }

  function SampleParse(s: string): Option<Parsed>
  {
    if "{K" <= s then Some(HelloJson(s[2..]))
    else if s == "{C" then Some(ReadyJson(true))
    else if s == "{R" then Some(ReadyJson(false))
    else None
  }

  function SampleUtf8(s: string): Bytes
  {
    if s == "" then []
    else
      var n := s[0] as int;
      [n / 65536, n / 256 % 256, n % 256] + SampleUtf8(s[1..])
  }

  function SampleUtf8Decode(b: Bytes): Option<string>
  {
    if b == [] then Some("")
    else if |b| < 3 then None
    else
      var n := (b[0] as int) * 65536 + (b[1] as int) * 256 + b[2] as int;
      var rest := SampleUtf8Decode(b[3..]);
      if rest.None? || !(n < 0xD800 || 0xE000 <= n < 0x110000) then None else Some([n as char] + rest.value)
  }

  lemma ThreeBytes(n: nat)
    ensures n / 65536 * 65536 + n / 256 % 256 * 256 + n % 256 == n
  {
    assert n / 256 / 256 == n / 65536;
  }

  lemma {:induction false} SampleUtf8RoundTrip(s: string)
    ensures SampleUtf8Decode(SampleUtf8(s)) == Some(s)
  {
    if s != "" {
      SampleUtf8RoundTrip(s[1..]);
      var b := SampleUtf8(s);
      ThreeBytes(s[0] as int);
      assert b[3..] == SampleUtf8(s[1..]);
      assert (b[0] as int) * 65536 + (b[1] as int) * 256 + b[2] as int == s[0] as int;
      assert [s[0]] + s[1..] == s;
    }
  }

  lemma TrimOpenBrace(s: string)
    requires s != "" && s[0] == '{'
    ensures Trim(s) != "" && Trim(s)[0] == '{'
  {
    BraceSurvives(s);
  }

  lemma {:induction false} BraceSurvives(s: string)
    requires s != "" && s[0] == '{'
    ensures TrimEnd(s) != "" && TrimEnd(s)[0] == '{'
  {
    if |s| > 1 && IsSpace(s[|s| - 1]) {
      BraceSurvives(s[..|s| - 1]);
    }
  }

  function Sample(): (f: Functions)
    ensures Lawful(f)
  {
    var f := Functions(
      SampleParse, SampleStringify,
      (k: Key) => "k", (s: string) => Some([]), (k: Key) => [], (a: Key, b: Key) => [],
      (k: Key, n: nat, p: Bytes) => seq(OVERHEAD, _ => 0) + p,
      (k: Key, c: Bytes) => if |c| < OVERHEAD then None else Some(c[OVERHEAD..]),
      SampleUtf8, SampleUtf8Decode, (b: Bytes) => "");
    SampleIsLawful(f);
    f
  }

  lemma SampleMessages(k: string)
    ensures SampleParse(SampleStringify(HelloJson(k))) == Some(HelloJson(k))
  {
    assert ("{K" + k)[2..] == k;
  }

  lemma SampleObjects(s: string)
    requires SampleParse(s).Some?
    ensures Trim(s) != "" && Trim(s)[0] == '{'
  {
    TrimOpenBrace(s);
  }

  lemma SampleJson(f: Functions)
    requires f.parse == SampleParse && f.stringify == SampleStringify
    ensures JsonLaws(f)
  {
    forall s | f.parse(s).Some?
      ensures Trim(s) != "" && Trim(s)[0] == '{'
    {
      SampleObjects(s);
    }
    forall k
      ensures f.parse(f.stringify(HelloJson(k))) == Some(HelloJson(k))
    {
      SampleMessages(k);
    }
  }

  lemma SampleCipher(f: Functions)
    requires forall k: Key, n: nat, p: Bytes :: f.seal(k, n, p) == seq(OVERHEAD, _ => 0) + p
    requires forall k: Key, c: Bytes :: f.open(k, c) == if |c| < OVERHEAD then None else Some(c[OVERHEAD..])
    ensures CipherLaws(f)
  {
    forall k: Key, n: nat, p: Bytes
      ensures f.open(k, f.seal(k, n, p)) == Some(p) && |f.seal(k, n, p)| == |p| + OVERHEAD
    {
      assert (seq(OVERHEAD, _ => 0) + p)[OVERHEAD..] == p;
    }
  }

  lemma SampleText(f: Functions)
    requires f.utf8 == SampleUtf8 && f.utf8Decode == SampleUtf8Decode
    ensures TextLaws(f)
  {
    forall s
      ensures f.utf8Decode(f.utf8(s)) == Some(s)
    {
      SampleUtf8RoundTrip(s);
    }
  }

  lemma SampleIsLawful(f: Functions)
    requires f.parse == SampleParse && f.stringify == SampleStringify
    requires f.utf8 == SampleUtf8 && f.utf8Decode == SampleUtf8Decode
    requires forall k: Key :: f.exportKey(k) == "k" && f.publicOf(k) == []
    requires forall s: string :: f.importKey(s) == Some([])
    requires forall a: Key, b: Key :: f.derive(a, b) == []
    requires forall k: Key, n: nat, p: Bytes :: f.seal(k, n, p) == seq(OVERHEAD, _ => 0) + p
    requires forall k: Key, c: Bytes :: f.open(k, c) == if |c| < OVERHEAD then None else Some(c[OVERHEAD..])
    ensures Lawful(f)
  {
    hide JsonLaws, CipherLaws, TextLaws;
    SampleJson(f);
    SampleCipher(f);
    SampleText(f);
  }
}
