/** Truncation of a text to a budget of UTF-8 bytes (section 3 of RFC 3629). */
module Utf8 {
  type Byte = b: int | 0 <= b < 256

  function EncodeChar(c: char): (r: seq<Byte>)
    ensures 1 <= |r| <= 4
  {
    var o := c as int;
    if o < 0x80 then [o]
    else if o < 0x800 then [0xC0 + o / 64, 0x80 + o % 64]
    else if o < 0x10000 then [0xE0 + o / 4096, 0x80 + o / 64 % 64, 0x80 + o % 64]
    else [0xF0 + o / 262144, 0x80 + o / 4096 % 64, 0x80 + o / 64 % 64, 0x80 + o % 64]
  }

  function Encode(s: string): seq<Byte> {
    if s == "" then [] else EncodeChar(s[0]) + Encode(s[1..])
  }

  predicate Continuation(b: Byte) {
    0x80 <= b < 0xC0
  }

  /** The bytes a lead byte announces, or 0 when no character starts with it. */
  function Announced(b: Byte): (n: nat)
    ensures n <= 4
  {
    if b < 0x80 then 1
    else if 0xC2 <= b < 0xE0 then 2
    else if 0xE0 <= b < 0xF0 then 3
    else if 0xF0 <= b < 0xF5 then 4
    else 0
  }

  /** Second bytes that keep the sequence free of overlong forms, surrogates and too large values. */
  predicate SecondOk(lead: Byte, b: Byte) {
    && Continuation(b)
    && (lead == 0xE0 ==> b >= 0xA0)
    && (lead == 0xED ==> b < 0xA0)
    && (lead == 0xF0 ==> b >= 0x90)
    && (lead == 0xF4 ==> b < 0x90)
  }

  /** The length of the longest prefix of `b` that a character announced by `b[0]` may start with. */
  function WellFormedPrefix(b: seq<Byte>): (n: nat)
    requires b != []
    ensures 1 <= n <= |b|
  {
    var need := Announced(b[0]);
    if need < 2 || |b| < 2 || !SecondOk(b[0], b[1]) then 1
    else if need < 3 || |b| < 3 || !Continuation(b[2]) then 2
    else if need < 4 || |b| < 4 || !Continuation(b[3]) then 3
    else 4
  }

  /** What the bytes stand for is always a scalar value. */
  function CodePoint(b: seq<Byte>): (o: int)
    requires b != [] && 1 <= Announced(b[0]) == WellFormedPrefix(b)
    ensures 0 <= o < 0xD800 || 0xE000 <= o < 0x110000
  {
    match Announced(b[0])
    case 1 => b[0] as int
    case 2 => (b[0] as int - 0xC0) * 64 + (b[1] as int - 0x80)
    case 3 => (b[0] as int - 0xE0) * 4096 + (b[1] as int - 0x80) * 64 + (b[2] as int - 0x80)
    case _ => (b[0] as int - 0xF0) * 262144 + (b[1] as int - 0x80) * 4096
              + (b[2] as int - 0x80) * 64 + (b[3] as int - 0x80)
  }

  /** Decoding that skips whatever is not a character, one maximal ill-formed piece at a time. */
  function DecodeIgnore(b: seq<Byte>): string {
    if b == [] then ""
    else
      var n := WellFormedPrefix(b);
      var rest := DecodeIgnore(b[n..]);
      if Announced(b[0]) == n then [CodePoint(b) as char] + rest else rest
  }

  function TruncateBody(body: string, maxBytes: nat): (string, bool) {
    var encoded := Encode(body);
    if |encoded| <= maxBytes then (body, false) else (DecodeIgnore(encoded[..maxBytes]), true)
  }

  // ---------------------------------------------------------------- decoding inverts encoding

  /** The base-64 digits of a scalar value. */
  lemma Digits(o: nat)
    requires o < 0x110000
    ensures o == o / 64 * 64 + o % 64
    ensures o / 64 == o / 4096 * 64 + o / 64 % 64
    ensures o / 4096 == o / 262144 * 64 + o / 4096 % 64
  {
    assert o / 64 / 64 == o / 4096;
    assert o / 4096 / 64 == o / 262144;
  }

  ghost predicate Parses(b: seq<Byte>, c: char) {
    && b != []
    && WellFormedPrefix(b) == |EncodeChar(c)| == Announced(b[0])
    && CodePoint(b) == c as int
  }

  lemma ParsesTwo(c: char, b: seq<Byte>)
    requires 0x80 <= c as int < 0x800 && |b| >= 2 && b[..2] == EncodeChar(c)
    ensures Parses(b, c)
  {
    Digits(c as int);
    assert b[0] == b[..2][0] && b[1] == b[..2][1];
  }

  lemma ParsesThree(c: char, b: seq<Byte>)
    requires 0x800 <= c as int < 0x10000 && |b| >= 3 && b[..3] == EncodeChar(c)
    ensures Parses(b, c)
  {
    Digits(c as int);
    assert b[0] == b[..3][0] && b[1] == b[..3][1] && b[2] == b[..3][2];
  }

  lemma ParsesFour(c: char, b: seq<Byte>)
    requires 0x10000 <= c as int && |b| >= 4 && b[..4] == EncodeChar(c)
    ensures Parses(b, c)
  {
    Digits(c as int);
    assert b[0] == b[..4][0] && b[1] == b[..4][1] && b[2] == b[..4][2] && b[3] == b[..4][3];
  }

  lemma EncodedCharParses(c: char, rest: seq<Byte>)
    ensures Parses(EncodeChar(c) + rest, c)
  {
    var b := EncodeChar(c) + rest;
    assert b[..|EncodeChar(c)|] == EncodeChar(c);
    var o := c as int;
    if 0x80 <= o < 0x800 {
      ParsesTwo(c, b);
    } else if 0x800 <= o < 0x10000 {
      ParsesThree(c, b);
    } else if 0x10000 <= o {
      ParsesFour(c, b);
    }
  }

  /** Putting a digit behind a number, and taking it off again. */
  lemma LastDigit(high: int, low: int)
    requires 0 <= low < 64
    ensures (high * 64 + low) / 64 == high && (high * 64 + low) % 64 == low
  {}

  /** Three digits, or four, and the numbers they make up. */
  lemma DigitsOf(o: nat, a: int, b: int, c: int, d: int)
    requires 0 <= b < 64 && 0 <= c < 64 && 0 <= d < 64
    requires o == a * 262144 + b * 4096 + c * 64 + d < 0x110000
    ensures o % 64 == d && o / 64 % 64 == c && o / 4096 % 64 == b && o / 262144 == a
    ensures o / 4096 == a * 64 + b && o / 64 == a * 4096 + b * 64 + c
  {
    LastDigit(a * 4096 + b * 64 + c, d);
    LastDigit(a * 64 + b, c);
    LastDigit(a, b);
    Digits(o);
  }

  /** Bytes are taken for a character only if they are its encoding: no overlong form, no surrogate. */
  lemma ParsedIsEncoded(b: seq<Byte>)
    requires b != [] && Announced(b[0]) == WellFormedPrefix(b)
    ensures EncodeChar(CodePoint(b) as char) == b[..WellFormedPrefix(b)]
  {
    var o := CodePoint(b);
    match Announced(b[0])
    case 1 =>
    case 2 => DigitsOf(o, 0, 0, b[0] as int - 0xC0, b[1] as int - 0x80);
    case 3 => DigitsOf(o, 0, b[0] as int - 0xE0, b[1] as int - 0x80, b[2] as int - 0x80);
    case _ => DigitsOf(o, b[0] as int - 0xF0, b[1] as int - 0x80, b[2] as int - 0x80, b[3] as int - 0x80);
  }

  /** A character cut short at the end of the input disappears. */
  lemma CutCharVanishes(c: char, n: nat)
    requires n < |EncodeChar(c)|
    ensures DecodeIgnore(EncodeChar(c)[..n]) == ""
  {
    if n > 0 {
      var b := EncodeChar(c)[..n];
      EncodedCharParses(c, []);
      assert EncodeChar(c) + [] == EncodeChar(c);
      assert WellFormedPrefix(b) == n && Announced(b[0]) > n;
      assert b[n..] == [];
    }
  }

  lemma {:induction false} EncodeAppend(s: string, t: string)
    ensures Encode(s + t) == Encode(s) + Encode(t)
  {
    if s == "" {
      assert s + t == t;
    } else {
      assert (s + t)[1..] == s[1..] + t;
      EncodeAppend(s[1..], t);
    }
  }

  /** `k` characters of `s` fit in `n` bytes and no more do. */
  ghost predicate LongestFit(s: string, n: nat, k: nat) {
    && k <= |s|
    && |Encode(s[..k])| <= n
    && (k < |s| ==> |Encode(s[..k + 1])| > n)
  }

  /** One character more in front of the text and its prefix. */
  lemma EncodeCons(s: string, k: nat)
    requires s != "" && k < |s|
    ensures Encode(s[..k + 1]) == EncodeChar(s[0]) + Encode(s[1..][..k])
  {
    assert s[..k + 1][1..] == s[1..][..k];
  }

  lemma LongestFitCons(s: string, n: nat, j: nat)
    requires s != "" && n >= |EncodeChar(s[0])| && LongestFit(s[1..], n - |EncodeChar(s[0])|, j)
    ensures LongestFit(s, n, j + 1)
  {
    EncodeCons(s, j);
    if j + 1 < |s| {
      EncodeCons(s, j + 1);
    }
  }

  /** Decoding a byte prefix yields exactly the characters that fit whole. */
  lemma {:induction false} DecodePrefix(s: string, n: nat) returns (k: nat)
    requires n <= |Encode(s)|
    ensures LongestFit(s, n, k)
    ensures DecodeIgnore(Encode(s)[..n]) == s[..k]
    ensures n - |Encode(s[..k])| <= 3
    decreases s, 1
  {
    if s == "" {
      k := 0;
    } else {
      var first := EncodeChar(s[0]);
      assert Encode(s[..0]) == [];
      EncodeCons(s, 0);
      if n < |first| {
        k := 0;
        assert Encode(s)[..n] == first[..n];
        CutCharVanishes(s[0], n);
      } else {
        k := DecodeAfter(s, n);
      }
    }
  }

  lemma {:induction false} DecodeAfter(s: string, n: nat) returns (k: nat)
    requires s != "" && |EncodeChar(s[0])| <= n <= |Encode(s)|
    ensures LongestFit(s, n, k)
    ensures DecodeIgnore(Encode(s)[..n]) == s[..k]
    ensures n - |Encode(s[..k])| <= 3
    decreases s, 0
  {
    var first := EncodeChar(s[0]);
    var m := n - |first|;
    var j := DecodePrefix(s[1..], m);
    k := j + 1;
    LongestFitCons(s, n, j);
    EncodeCons(s, j);
    EncodeCut(s, n);
    DecodeCons(s[0], Encode(s[1..])[..m]);
    hide *;
    assert s[..k] == [s[0]] + s[1..][..j];
  }

  lemma EncodeCut(s: string, n: nat)
    requires s != "" && |EncodeChar(s[0])| <= n <= |Encode(s)|
    ensures var first := EncodeChar(s[0]);
            n - |first| <= |Encode(s[1..])| && Encode(s)[..n] == first + Encode(s[1..])[..n - |first|]
  {
    hide EncodeChar;
  }

  lemma DecodeCons(c: char, tail: seq<Byte>)
    ensures DecodeIgnore(EncodeChar(c) + tail) == [c] + DecodeIgnore(tail)
  {
    var first := EncodeChar(c);
    EncodedCharParses(c, tail);
    hide EncodeChar, CodePoint, WellFormedPrefix, Announced;
    assert (first + tail)[|first|..] == tail;
  }

  lemma {:induction false} EncodeMonotone(s: string, k: nat)
    requires k <= |s|
    ensures |Encode(s[..k])| <= |Encode(s)|
    ensures k < |s| ==> |Encode(s[..k])| < |Encode(s)|
  {
    assert s == s[..k] + s[k..];
    EncodeAppend(s[..k], s[k..]);
    if k < |s| {
      assert |Encode(s[k..])| >= 1;
    }
  }

  /** Truncation keeps the longest whole-character prefix that fits, flags exactly the texts it
      shortened, wastes at most three bytes and is idempotent. */
  lemma TruncationIsOptimal(body: string, maxBytes: nat) returns (k: nat)
    ensures LongestFit(body, maxBytes, k)
    ensures TruncateBody(body, maxBytes) == (body[..k], k < |body|)
    ensures k < |body| ==> maxBytes - |Encode(body[..k])| <= 3
    ensures TruncateBody(body[..k], maxBytes) == (body[..k], false)
  {
    if |Encode(body)| <= maxBytes {
      k := |body|;
      assert body[..k] == body;
    } else {
      k := DecodePrefix(body, maxBytes);
      assert body[..|body|] == body;
    }
  }

  /** The prefix is the longest in the strong sense: no longer prefix fits. */
  lemma NoLongerPrefixFits(s: string, n: nat, k: nat, j: nat)
    requires LongestFit(s, n, k) && k < j <= |s|
    ensures |Encode(s[..j])| > n
  {
    EncodeMonotone(s[..j], k + 1);
    assert s[..j][..k + 1] == s[..k + 1];
  }

  /** Without a cut the decoder returns what was encoded. */
  lemma RoundTrip(s: string)
    ensures DecodeIgnore(Encode(s)) == s
  {
    var k := DecodePrefix(s, |Encode(s)|);
    assert Encode(s)[..|Encode(s)|] == Encode(s);
    if k < |s| {
      EncodeMonotone(s, k + 1);
      assert false;
    }
    assert s[..k] == s;
  }
}
