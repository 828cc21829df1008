// packages/relay/src/base64.ts, over the base64 alphabet of RFC 4648.

module Base64 {
  import opened Wrappers
  import opened Strings

  type byte = b: int | 0 <= b < 256

  type Bytes = seq<byte>

  // Section 4 of RFC 4648, table 1.
  function SextetChar(i: nat): (c: char)
    requires i < 64
    ensures c != '='
  {
    if i < 26 then (65 + i) as char
    else if i < 52 then (71 + i) as char
    else if i < 62 then (i - 4) as char
    else if i == 62 then '+'
    else '/'
  }

  function CharSextet(c: char): (r: Option<nat>)
    ensures r.Some? ==> r.value < 64
  {
    if 'A' <= c <= 'Z' then Some(c as int - 65)
    else if 'a' <= c <= 'z' then Some(c as int - 71)
    else if '0' <= c <= '9' then Some(c as int + 4)
    else if c == '+' then Some(62)
    else if c == '/' then Some(63)
    else None
  }

  function EncodeGroup(a: byte, b: byte, c: byte): (s: string)
    ensures |s| == 4
  {
    [SextetChar(a / 4), SextetChar(a % 4 * 16 + b / 16), SextetChar(b % 16 * 4 + c / 64), SextetChar(c % 64)]
  }

  // Unused trailing bits of a final group are ignored, as the decoder behind toByteArray does.
  function DecodeGroup(s: string): (r: Option<Bytes>)
    requires |s| == 4
    ensures r.Some? ==> |r.value| == 3
  {
    match (CharSextet(s[0]), CharSextet(s[1]), CharSextet(s[2]), CharSextet(s[3]))
    case (Some(w), Some(x), Some(y), Some(z)) =>
      Some([w * 4 + x / 16, x % 16 * 16 + y / 4, y % 4 * 64 + z])
    case _ => None
  }

  function Encode(b: Bytes): string
  {
    if |b| == 0 then ""
    else if |b| == 1 then EncodeGroup(b[0], 0, 0)[..2] + "=="
    else if |b| == 2 then EncodeGroup(b[0], b[1], 0)[..3] + "="
    else EncodeGroup(b[0], b[1], b[2]) + Encode(b[3..])
  }

  function DecodeLast(s: string): Option<Bytes>
    requires |s| == 4
  {
    if s[2..] == "==" then
      var r := DecodeGroup(s[..2] + "AA");
      if r.None? then None else Some(r.value[..1])
    else if s[3] == '=' then
      var r := DecodeGroup(s[..3] + "A");
      if r.None? then None else Some(r.value[..2])
    else DecodeGroup(s)
  }

  // toByteArray: a whole number of groups, padding only in the last one.
  function ToByteArray(s: string): Option<Bytes>
  {
    if s == "" then Some([])
    else if |s| < 4 then None
    else if |s| == 4 then DecodeLast(s)
    else
      var first := DecodeGroup(s[..4]);
      var rest := ToByteArray(s[4..]);
      if first.None? || rest.None? then None else Some(first.value + rest.value)
  }

  function ToStandard(c: char): char
  {
    if c == '-' then '+' else if c == '_' then '/' else c
  }

  function Standardize(s: string): (r: string)
    ensures |r| == |s|
  {
    seq(|s|, i requires 0 <= i < |s| => ToStandard(s[i]))
  }

  function Padding(n: nat): string
  {
    seq((4 - n % 4) % 4, _ => '=')
  }

  // The argument base64ToArrayBuffer hands to toByteArray.
  function Normalize(base64: string): string
  {
    var standard := Standardize(Trim(base64));
    standard + Padding(|standard|)
  }

  function ArrayBufferToBase64(buffer: Bytes): string
  {
    Encode(buffer)
  }

  function Base64ToArrayBuffer(base64: string): Option<Bytes>
  {
    ToByteArray(Normalize(base64))
  }

  predicate Alphabet(c: char)
  {
    c == '=' || CharSextet(c).Some?
  }

  lemma SextetRoundTrip(i: nat)
    requires i < 64
    ensures CharSextet(SextetChar(i)) == Some(i)
  {
  }

  lemma GroupChars(a: byte, b: byte, c: byte)
    ensures forall i :: 0 <= i < 4 ==> EncodeGroup(a, b, c)[i] != '=' && Alphabet(EncodeGroup(a, b, c)[i])
  {
    SextetRoundTrip(a / 4);
    SextetRoundTrip(a % 4 * 16 + b / 16);
    SextetRoundTrip(b % 16 * 4 + c / 64);
    SextetRoundTrip(c % 64);
  }

  lemma SextetsToBytes(a: byte, b: byte, c: byte)
    ensures var w, x, y, z := a / 4, a % 4 * 16 + b / 16, b % 16 * 4 + c / 64, c % 64;
            w * 4 + x / 16 == a && x % 16 * 16 + y / 4 == b && y % 4 * 64 + z == c
  {
    assert (a % 4 * 16 + b / 16) / 16 == a % 4;
    assert (b % 16 * 4 + c / 64) / 4 == b % 16;
  }

  lemma GroupRoundTrip(a: byte, b: byte, c: byte)
    ensures DecodeGroup(EncodeGroup(a, b, c)) == Some([a, b, c])
  {
    var w, x, y, z := a / 4, a % 4 * 16 + b / 16, b % 16 * 4 + c / 64, c % 64;
    var s := [SextetChar(w), SextetChar(x), SextetChar(y), SextetChar(z)];
    assert DecodeGroup(s) == Some([w * 4 + x / 16, x % 16 * 16 + y / 4, y % 4 * 64 + z]) by {
      SextetRoundTrip(w);
      SextetRoundTrip(x);
      SextetRoundTrip(y);
      SextetRoundTrip(z);
    }
    SextetsToBytes(a, b, c);
  }

  function Groups(n: nat): nat
  {
    if n == 0 then 0 else if n <= 3 then 1 else 1 + Groups(n - 3)
  }

  lemma {:induction false} GroupsClosedForm(n: nat)
    ensures Groups(n) == (n + 2) / 3
  {
    if n > 3 {
      GroupsClosedForm(n - 3);
    }
  }

  lemma {:induction false} EncodeGroups(b: Bytes)
    ensures |Encode(b)| == 4 * Groups(|b|)
  {
    if |b| > 2 {
      EncodeGroups(b[3..]);
    }
  }

  // Four characters for every three bytes, the last group filled up.
  lemma EncodeLength(b: Bytes)
    ensures |Encode(b)| == 4 * ((|b| + 2) / 3)
  {
    EncodeGroups(b);
    GroupsClosedForm(|b|);
  }

  lemma {:induction false} EncodeAlphabet(b: Bytes, i: nat)
    requires i < |Encode(b)|
    ensures Alphabet(Encode(b)[i])
    ensures i < |Encode(b)| - 2 ==> Encode(b)[i] != '='
  {
    EncodeGroups(b);
    if |b| == 1 {
      GroupChars(b[0], 0, 0);
    } else if |b| == 2 {
      GroupChars(b[0], b[1], 0);
    } else if |b| > 2 {
      if i < 4 {
        GroupChars(b[0], b[1], b[2]);
      } else {
        EncodeAlphabet(b[3..], i - 4);
      }
    }
  }

  lemma LastGroupRoundTrip(b: Bytes)
    requires 1 <= |b| <= 3
    ensures |Encode(b)| == 4 && DecodeLast(Encode(b)) == Some(b)
  {
    hide DecodeGroup, CharSextet;
    if |b| == 1 {
      var g := EncodeGroup(b[0], 0, 0);
      GroupRoundTrip(b[0], 0, 0);
      assert Encode(b)[2..] == "==";
      assert Encode(b)[..2] + "AA" == g;
      assert b == [b[0], 0, 0][..1];
    } else if |b| == 2 {
      var g := EncodeGroup(b[0], b[1], 0);
      GroupRoundTrip(b[0], b[1], 0);
      GroupChars(b[0], b[1], 0);
      assert Encode(b) == g[..3] + "=";
      assert Encode(b)[2..][0] == g[2];
      assert Encode(b)[..3] + "A" == g;
      assert b == [b[0], b[1], 0][..2];
    } else {
      var g := EncodeGroup(b[0], b[1], b[2]);
      GroupRoundTrip(b[0], b[1], b[2]);
      GroupChars(b[0], b[1], b[2]);
      assert Encode(b) == g + Encode(b[3..]) == g;
      assert g[2..][0] == g[2];
      assert b == [b[0], b[1], b[2]];
    }
  }

  // toByteArray inverts fromByteArray on every byte string.
  lemma {:induction false} ToByteArrayEncode(b: Bytes)
    ensures ToByteArray(Encode(b)) == Some(b)
  {
    if |b| == 0 {
    } else if |b| <= 3 {
      LastGroupRoundTrip(b);
    } else {
      var g := EncodeGroup(b[0], b[1], b[2]);
      var rest := Encode(b[3..]);
      GroupRoundTrip(b[0], b[1], b[2]);
      ToByteArrayEncode(b[3..]);
      EncodeGroups(b[3..]);
      assert Encode(b) == g + rest && (g + rest)[..4] == g && (g + rest)[4..] == rest;
      assert b == [b[0], b[1], b[2]] + b[3..];
    }
  }

  predicate SpelledAs(c: char, e: char)
  {
    c == e || (c == '-' && e == '+') || (c == '_' && e == '/')
  }

  lemma SpelledIsStandard(c: char, e: char)
    requires SpelledAs(c, e) && Alphabet(e)
    ensures ToStandard(c) == e
  {
  }

  // The spellings of an encoding that the decoder must accept: any "+" as "-", any "/" as "_",
  // and any part of the padding left out.
  predicate Spelling(s: string, b: Bytes)
  {
    var e := Encode(b);
    && |s| <= |e|
    && (forall i :: 0 <= i < |s| ==> SpelledAs(s[i], e[i]))
    && (forall i :: |s| <= i < |e| ==> e[i] == '=')
  }

  lemma AlphabetIsNoSpace(c: char)
    requires Alphabet(ToStandard(c))
    ensures !IsSpace(c)
  {
  }

  lemma PaddingLength(n: nat, full: nat)
    requires full % 4 == 0 && n <= full <= n + 2
    ensures |Padding(n)| == full - n
  {
  }

  lemma TrimSpelling(w1: string, s: string, w2: string, b: Bytes)
    requires AllSpace(w1) && AllSpace(w2) && Spelling(s, b)
    ensures Trim(w1 + s + w2) == s
  {
    if s != "" {
      EncodeAlphabet(b, 0);
      EncodeAlphabet(b, |s| - 1);
      AlphabetIsNoSpace(s[0]);
      AlphabetIsNoSpace(s[|s| - 1]);
    }
    TrimPadded(w1, s, w2);
  }

  lemma StandardizePad(s: string, b: Bytes)
    requires Spelling(s, b) && |Encode(b)| <= |s| + 2
    ensures Standardize(s) + Padding(|s|) == Encode(b)
  {
    var e := Encode(b);
    EncodeLength(b);
    PaddingLength(|s|, |e|);
    forall i | 0 <= i < |s|
      ensures ToStandard(s[i]) == e[i]
    {
      EncodeAlphabet(b, i);
      SpelledIsStandard(s[i], e[i]);
    }
    assert Standardize(s) == e[..|s|];
    assert Padding(|s|) == e[|s|..];
  }

  lemma NormalizeSpelling(w1: string, s: string, w2: string, b: Bytes)
    requires AllSpace(w1) && AllSpace(w2) && Spelling(s, b)
    ensures Normalize(w1 + s + w2) == Encode(b)
  {
    if |s| < |Encode(b)| - 2 {
      EncodeAlphabet(b, |s|);
    }
    TrimSpelling(w1, s, w2, b);
    StandardizePad(s, b);
  }

  // The standard, URL-safe and unpadded spellings of an encoding, with surrounding
  // whitespace, all decode to the bytes that were encoded.
  lemma DecodeSpelling(w1: string, s: string, w2: string, b: Bytes)
    requires AllSpace(w1) && AllSpace(w2) && Spelling(s, b)
    ensures Base64ToArrayBuffer(w1 + s + w2) == Some(b)
  {
    NormalizeSpelling(w1, s, w2, b);
    ToByteArrayEncode(b);
  }

  lemma EncodeIsSpelling(b: Bytes)
    ensures Spelling(Encode(b), b)
  {
  }

  lemma DecodeEncode(b: Bytes)
    ensures Base64ToArrayBuffer(ArrayBufferToBase64(b)) == Some(b)
  {
    EncodeIsSpelling(b);
    DecodeSpelling("", Encode(b), "", b);
    assert "" + Encode(b) + "" == Encode(b);
  }

  // No encoding looks like a JSON object to a reader that trims it first.
  lemma EncodeIsNoObject(b: Bytes)
    ensures Trim(Encode(b)) == Encode(b)
    ensures Encode(b) == "" || Encode(b)[0] != '{'
  {
    EncodeIsSpelling(b);
    TrimSpelling("", Encode(b), "", b);
    assert "" + Encode(b) + "" == Encode(b);
    if Encode(b) != "" {
      EncodeAlphabet(b, 0);
    }
  }

  // ---- The encoding of RFC 4648, section 4 ----

  // Table 1: the letters A to Z, a to z, the digits, "+" and "/" stand for 0 to 63.
  lemma AlphabetIs()
    ensures SextetChar(0) == 'A' && SextetChar(25) == 'Z' && SextetChar(26) == 'a' && SextetChar(51) == 'z'
    ensures SextetChar(52) == '0' && SextetChar(61) == '9' && SextetChar(62) == '+' && SextetChar(63) == '/'
    ensures forall i: nat :: i < 61 && i != 25 && i != 51 ==> SextetChar(i + 1) as int == SextetChar(i) as int + 1
  {
  }

  function At(b: Bytes, i: nat): byte
  {
    if i < |b| then b[i] else 0
  }

  // The bits of four characters, the first the most significant; padding counts as zeros.
  function Bits(s: string): Option<nat>
    requires |s| == 4
  {
    match (SextetOrPad(s[0]), SextetOrPad(s[1]), SextetOrPad(s[2]), SextetOrPad(s[3]))
    case (Some(w), Some(x), Some(y), Some(z)) => Some(((w * 64 + x) * 64 + y) * 64 + z)
    case _ => None
  }

  function SextetOrPad(c: char): Option<nat>
  {
    if c == '=' then Some(0) else CharSextet(c)
  }

  lemma GroupBits(a: byte, b: byte, c: byte)
    ensures Bits(EncodeGroup(a, b, c)) == Some((a * 256 + b) * 256 + c)
  {
    SextetRoundTrip(a / 4);
    SextetRoundTrip(a % 4 * 16 + b / 16);
    SextetRoundTrip(b % 16 * 4 + c / 64);
    SextetRoundTrip(c % 64);
    GroupChars(a, b, c);
    hide CharSextet, SextetChar;
    var w, x, y, z := a / 4, a % 4 * 16 + b / 16, b % 16 * 4 + c / 64, c % 64;
    assert ((w * 64 + x) * 64 + y) * 64 + z == (a * 256 + b) * 256 + c;
  }

  // Every three bytes are four characters with the same 24 bits, the bytes that are missing counting as zeros; and
  // characters without a bit of the bytes are padding, and no others.
  lemma {:induction false} EncodeBits(b: Bytes, k: nat)
    requires 3 * k < |b|
    ensures 4 * k + 4 <= |Encode(b)|
    ensures var g := Encode(b)[4 * k..4 * k + 4];
            && Bits(g) == Some((At(b, 3 * k) * 256 + At(b, 3 * k + 1)) * 256 + At(b, 3 * k + 2))
            && forall i :: 0 <= i < 4 ==> (g[i] == '=' <==> 3 * k + i > |b|)
  {
    hide EncodeGroup, Bits;
    EncodeLength(b);
    if k > 0 {
      EncodeBits(b[3..], k - 1);
      EncodeLength(b[3..]);
      NextGroups(b, k);
    } else {
      FirstGroup(b);
    }
  }

  lemma NextGroups(b: Bytes, k: nat)
    requires k > 0 && |b| > 3 && 4 * k + 4 <= |Encode(b)| && 4 * k <= |Encode(b[3..])|
    ensures Encode(b)[4 * k..4 * k + 4] == Encode(b[3..])[4 * (k - 1)..4 * (k - 1) + 4]
  {
    hide EncodeGroup;
    assert Encode(b) == EncodeGroup(b[0], b[1], b[2]) + Encode(b[3..]);
  }

  lemma FirstGroup(b: Bytes)
    requires |b| > 0 && |Encode(b)| >= 4
    ensures var g := Encode(b)[..4];
            && Bits(g) == Some((At(b, 0) * 256 + At(b, 1)) * 256 + At(b, 2))
            && forall i :: 0 <= i < 4 ==> (g[i] == '=' <==> i > |b|)
  {
    var g := EncodeGroup(At(b, 0), At(b, 1), At(b, 2));
    GroupBits(At(b, 0), At(b, 1), At(b, 2));
    GroupChars(At(b, 0), At(b, 1), At(b, 2));
    if |b| < 3 {
      assert Encode(b) == g[..|b| + 1] + if |b| == 1 then "==" else "=";
      PaddedBits(b);
    }
  }

  // The bits left over in the last character before the padding are zeros.
  lemma PaddedBits(b: Bytes)
    requires 0 < |b| < 3 && |Encode(b)| >= 4
    ensures Bits(Encode(b)[..4]) == Some((At(b, 0) * 256 + At(b, 1)) * 256 + At(b, 2))
  {
    var e := Encode(b);
    SextetRoundTrip(0);
    GroupBits(At(b, 0), At(b, 1), At(b, 2));
    var g := EncodeGroup(At(b, 0), At(b, 1), At(b, 2));
    assert g[3] == SextetChar(0);
    if |b| == 1 {
      assert g[2] == SextetChar(0);
      assert e[..4] == [g[0], g[1], '=', '='];
    } else {
      assert e[..4] == [g[0], g[1], g[2], '='];
    }
  }
}
