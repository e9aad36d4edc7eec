// Text as bytes: UTF-8 (RFC 3629).
module Utf8 {
  import opened ObjectModel

  /** How text becomes bytes and back; `repair` makes any bytes the bytes of a text. */
  datatype Charset = Charset(encode: string -> Bytes, decode: Bytes -> Option<string>, repair: Bytes -> Bytes)

  /** What the dump format needs of a charset. */
  ghost predicate Faithful(u: Charset) {
    && (forall s :: u.decode(u.encode(s)) == Some(s))
    && (forall a, b :: Concatenates(u, a, b))
    && (forall s :: 10 in u.encode(s) <==> '\n' in s)
    && (forall s :: KeepsReturn(u, s))
    && (forall b :: OnlyEncodings(u, b))
    && (forall b :: RepairsNoText(u, b))
    && (forall s :: StartsAlike(u, s))
    && KnownBytes(u)
  }

  /** The letters and words of the format are their ASCII codes. */
  predicate KnownBytes(u: Charset) {
    && u.encode("\n") == [10] && u.encode("\r") == [13]
    && u.encode("K ") == [0x4B, 0x20] && u.encode("V ") == [0x56, 0x20] && u.encode("PROPS-END") == PROPS_END
  }

  const PROPS_END: Bytes := [0x50, 0x52, 0x4F, 0x50, 0x53, 0x2D, 0x45, 0x4E, 0x44]

  predicate Concatenates(u: Charset, a: string, b: string) {
    u.encode(a + b) == u.encode(a) + u.encode(b)
  }

  /** A text ends in a carriage return exactly when its bytes do. */
  predicate KeepsReturn(u: Charset, s: string) {
    var b := u.encode(s);
    s != "" ==> b != [] && (b[|b| - 1] == 13 <==> s[|s| - 1] == '\r')
  }

  /** Bytes that are a text at all are the encoding of that text. */
  predicate OnlyEncodings(u: Charset, b: Bytes) {
    u.decode(b).Some? ==> u.encode(u.decode(b).value) == b
  }

  /** What is text already stays as it is. */
  predicate RepairsNoText(u: Charset, b: Bytes) {
    u.decode(b).Some? ==> u.repair(b) == b
  }

  /** The letter K and a space at the start are seen in the bytes. */
  predicate StartsAlike(u: Charset, s: string) {
    [0x4B, 0x20] <= u.encode(s) <==> "K " <= s
  }

  const UTF8: Charset := Charset(Encoded, Decoded, Repaired)

  predicate IsScalar(n: nat) {
    n < 0xD800 || 0xE000 <= n < 0x11_0000
  }

  function EncodedChar(c: char): (r: Bytes)
    ensures |r| > 0
  {
    var n := c as int;
    if n < 0x80 then [n]
    else if n < 0x800 then [0xC0 + n / 64, 0x80 + n % 64]
    else if n < 0x1_0000 then [0xE0 + n / 4096, 0x80 + n / 64 % 64, 0x80 + n % 64]
    else [0xF0 + n / 26_2144, 0x80 + n / 4096 % 64, 0x80 + n / 64 % 64, 0x80 + n % 64]
  }

  function Encoded(s: string): (r: Bytes)
    ensures |r| >= |s|
  {
    if s == "" then [] else EncodedChar(s[0]) + Encoded(s[1..])
  }

  /** The payload of a continuation byte. */
  function Low(b: Byte): nat {
    b % 64
  }

  /** The number that the first bytes spell, whether or not it is a proper encoding. */
  function Spelled(b: Bytes): nat
    requires b != []
  {
    var lead: nat := b[0];
    if lead < 0xC0 || |b| < 2 then lead
    else if lead < 0xE0 || |b| < 3 then lead % 32 * 64 + Low(b[1])
    else if lead < 0xF0 || |b| < 4 then lead % 16 * 4096 + Low(b[1]) * 64 + Low(b[2])
    else lead % 8 * 26_2144 + Low(b[1]) * 4096 + Low(b[2]) * 64 + Low(b[3])
  }

  /** The first character; None if the bytes do not start with a shortest-form encoding. */
  function FirstChar(b: Bytes): (c: Option<char>)
    requires b != []
    ensures c.Some? ==> EncodedChar(c.value) <= b
  {
    var n := Spelled(b);
    if IsScalar(n) && EncodedChar(n as char) <= b then Some(n as char) else None
  }

  /** str::from_utf8 */
  function Decoded(b: Bytes): Option<string> {
    if b == [] then Some("") else
    match FirstChar(b)
    case None => None
    case Some(c) =>
      match Decoded(b[|EncodedChar(c)|..])
      case None => None
      case Some(s) => Some([c] + s)
  }

  predicate Continues(b: Bytes, i: nat) {
    i < |b| && 0x80 <= b[i] < 0xC0
  }

  /** The second byte can follow this lead byte of a three or four byte encoding. */
  predicate SecondFits(lead: Byte, second: Byte) {
    if lead == 0xE0 then 0xA0 <= second < 0xC0
    else if lead == 0xED then 0x80 <= second < 0xA0
    else if 0xE1 <= lead <= 0xEF then 0x80 <= second < 0xC0
    else if lead == 0xF0 then 0x90 <= second < 0xC0
    else if 0xF1 <= lead <= 0xF3 then 0x80 <= second < 0xC0
    else lead == 0xF4 && 0x80 <= second < 0x90
  }

  /** How many bytes at the front one replacement character stands for. */
  function BadLength(b: Bytes): (n: nat)
    requires b != []
    ensures 0 < n <= |b|
  {
    if |b| < 2 || !SecondFits(b[0], b[1]) then 1 else if b[0] < 0xF0 || !Continues(b, 2) then 2 else 3
  }

  const REPLACEMENT: char := 0xFFFD as char

  /** String::from_utf8_lossy, as bytes. */
  function Repaired(b: Bytes): Bytes {
    if b == [] then [] else
    match FirstChar(b)
    case Some(c) => EncodedChar(c) + Repaired(b[|EncodedChar(c)|..])
    case None => EncodedChar(REPLACEMENT) + Repaired(b[BadLength(b)..])
  }

  lemma {:induction false} RepairedIsText(b: Bytes)
    ensures Decoded(Repaired(b)).Some?
  {
    if b != [] {
      match FirstChar(b)
      case Some(c) =>
        RepairedIsText(b[|EncodedChar(c)|..]);
        DecodedStep(c, Repaired(b[|EncodedChar(c)|..]));
      case None =>
        RepairedIsText(b[BadLength(b)..]);
        DecodedStep(REPLACEMENT, Repaired(b[BadLength(b)..]));
    }
  }

  lemma {:induction false} TextIsNotRepaired(b: Bytes)
    ensures Decoded(b).Some? ==> Repaired(b) == b
  {
    if b != [] && FirstChar(b).Some? {
      var first := EncodedChar(FirstChar(b).value);
      TextIsNotRepaired(b[|first|..]);
      assert b == first + b[|first|..];
    }
  }

  lemma FirstByteIs(s: string, n: nat)
    requires s != "" && n < 0x80
    ensures Encoded(s)[0] == n <==> s[0] as int == n
  {
    LeadByteIs(s[0], n);
  }

  lemma LeadByteIs(c: char, n: nat)
    requires n < 0x80
    ensures EncodedChar(c)[0] == n <==> c as int == n
    ensures c as int == n ==> |EncodedChar(c)| == 1
  {
  }

  lemma StartsStay(s: string)
    ensures [0x4B, 0x20] <= Encoded(s) <==> "K " <= s
  {
    if "K " <= s {
      assert s == "K " + s[2..];
      EncodedConcat("K ", s[2..]);
      PlainBytes();
    }
    if [0x4B, 0x20] <= Encoded(s) {
      var rest := Encoded(s[1..]);
      assert Encoded(s)[0] == 0x4B && Encoded(s)[1] == 0x20;
      FirstByteIs(s, 0x4B);
      LeadByteIs(s[0], 0x4B);
      assert Encoded(s) == EncodedChar(s[0]) + rest && rest[0] == 0x20;
      FirstByteIs(s[1..], 0x20);
      assert s[..2] == "K ";
    }
  }

  lemma SixBitGroups(n: nat)
    ensures n == n / 64 * 64 + n % 64
    ensures n == n / 4096 * 4096 + n / 64 % 64 * 64 + n % 64
    ensures n == n / 26_2144 * 26_2144 + n / 4096 % 64 * 4096 + n / 64 % 64 * 64 + n % 64
  {
    assert n / 64 / 64 == n / 4096 && n / 4096 / 64 == n / 26_2144;
  }

  lemma ShortEncodingSpells(c: char)
    requires (c as int) < 0x800
    ensures Spelled(EncodedChar(c)) == c as int
  {
    SixBitGroups(c as int);
    if (c as int) >= 0x80 { assert Low(EncodedChar(c)[1]) == c as int % 64; }
  }

  lemma MiddleEncodingSpells(c: char)
    requires 0x800 <= (c as int) < 0x1_0000
    ensures Spelled(EncodedChar(c)) == c as int
  {
    var b, n := EncodedChar(c), c as int;
    SixBitGroups(n);
    assert Low(b[1]) == n / 64 % 64 && Low(b[2]) == n % 64;
  }

  lemma LongEncodingSpells(c: char)
    requires (c as int) >= 0x1_0000
    ensures Spelled(EncodedChar(c)) == c as int
  {
    var b, n := EncodedChar(c), c as int;
    SixBitGroups(n);
    assert Low(b[1]) == n / 4096 % 64 && Low(b[2]) == n / 64 % 64 && Low(b[3]) == n % 64;
  }

  lemma EncodingSpells(c: char)
    ensures Spelled(EncodedChar(c)) == c as int
  {
    if (c as int) < 0x800 { ShortEncodingSpells(c); }
    else if (c as int) < 0x1_0000 { MiddleEncodingSpells(c); }
    else { LongEncodingSpells(c); }
  }

  /** The lead byte says how many bytes count. */
  lemma MoreBytesChangeNothing(c: char, rest: Bytes)
    ensures Spelled(EncodedChar(c) + rest) == Spelled(EncodedChar(c))
  {
  }

  lemma CharReadsBack(c: char, rest: Bytes)
    ensures FirstChar(EncodedChar(c) + rest) == Some(c)
  {
    MoreBytesChangeNothing(c, rest);
    EncodingSpells(c);
  }

  lemma {:induction false} TextReadsBack(s: string)
    ensures Decoded(Encoded(s)) == Some(s)
  {
    if s != "" {
      TextReadsBack(s[1..]);
      DecodedStep(s[0], Encoded(s[1..]));
      assert s == [s[0]] + s[1..];
    }
  }

  lemma {:induction false} BytesReadBack(b: Bytes)
    ensures Decoded(b).Some? ==> Encoded(Decoded(b).value) == b
  {
    if b != [] && FirstChar(b).Some? {
      var first := EncodedChar(FirstChar(b).value);
      BytesReadBack(b[|first|..]);
      assert b == first + b[|first|..];
    }
  }

  lemma DecodedStep(c: char, rest: Bytes)
    requires Decoded(rest).Some?
    ensures Decoded(EncodedChar(c) + rest) == Some([c] + Decoded(rest).value)
  {
    var b := EncodedChar(c) + rest;
    CharReadsBack(c, rest);
    assert b[|EncodedChar(c)|..] == rest;
  }

  lemma {:induction false} EncodedConcat(a: string, b: string)
    ensures Encoded(a + b) == Encoded(a) + Encoded(b)
  {
    if a == "" {
      assert a + b == b;
    } else {
      assert (a + b)[0] == a[0] && (a + b)[1..] == a[1..] + b;
      EncodedConcat(a[1..], b);
    }
  }

  /** A newline byte is a newline, never part of something else. */
  lemma {:induction false} NewlinesStay(s: string)
    ensures 10 in Encoded(s) <==> '\n' in s
  {
    if s != "" {
      NewlinesStay(s[1..]);
      assert 10 in EncodedChar(s[0]) <==> s[0] == '\n';
      assert s == [s[0]] + s[1..];
    }
  }

  lemma ReturnChar(c: char)
    ensures var b := EncodedChar(c); b[|b| - 1] == 13 <==> c == '\r'
  {
  }

  lemma {:induction false} ReturnsStay(s: string)
    requires s != ""
    ensures Encoded(s)[|Encoded(s)| - 1] == 13 <==> s[|s| - 1] == '\r'
  {
    var first, rest := EncodedChar(s[0]), Encoded(s[1..]);
    if |s| == 1 {
      assert s[1..] == "" && first + rest == first;
      ReturnChar(s[0]);
    } else {
      ReturnsStay(s[1..]);
    }
  }

  lemma PlainBytes()
    ensures Encoded("\n") == [10] && Encoded("\r") == [13]
    ensures Encoded("K ") == [0x4B, 0x20] && Encoded("V ") == [0x56, 0x20]
  {
    assert "K "[1..] == " " && "V "[1..] == " " && " "[1..] == "" && "\n"[1..] == "" && "\r"[1..] == "";
    assert Encoded(" ") == [0x20];
  }

  /** Characters below 0x80 are one byte each. */
  lemma {:induction false} AsciiBytes(s: string)
    requires forall i :: 0 <= i < |s| ==> s[i] as int < 0x80
    ensures |Encoded(s)| == |s| && forall i :: 0 <= i < |s| ==> Encoded(s)[i] == s[i] as int
  {
    if s != "" { AsciiBytes(s[1..]); }
  }

  lemma EndBytes()
    ensures Encoded("PROPS-END") == PROPS_END
  {
    AsciiBytes("PROPS-END");
  }

  lemma Utf8KnowsBytes()
    ensures KnownBytes(UTF8)
  {
    PlainBytes();
    EndBytes();
  }

  /** UTF-8 is such a charset. */
  lemma Utf8IsFaithful()
    ensures Faithful(UTF8)
  {
    forall s ensures UTF8.decode(UTF8.encode(s)) == Some(s) { TextReadsBack(s); }
    forall a, b ensures Concatenates(UTF8, a, b) { EncodedConcat(a, b); }
    forall b ensures RepairsNoText(UTF8, b) { TextIsNotRepaired(b); }
    forall s ensures StartsAlike(UTF8, s) { StartsStay(s); }
    forall s ensures 10 in UTF8.encode(s) <==> '\n' in s { NewlinesStay(s); }
    forall s ensures KeepsReturn(UTF8, s) { if s != "" { ReturnsStay(s); } }
    forall b ensures OnlyEncodings(UTF8, b) { BytesReadBack(b); }
    Utf8KnowsBytes();
  }
}
