/**
 * The base64url coding the MCP relay relies on (RFC 4648 sections 3.2, 3.5 and 5): the padded
 * encoder with its padding stripped, and the strict decoder applied to re-padded text.
 */
module Base64Url {
  import opened Common

  /** The alphabet of RFC 4648 section 5: A-Z, a-z, 0-9, `-`, `_`. */
  function Symbol(v: int): char
    requires 0 <= v < 64
  {
    if v < 26 then (v + 65) as char
    else if v < 52 then (v + 71) as char
    else if v < 62 then (v - 4) as char
    else if v == 62 then '-'
    else '_'
  }

  /** The value of a character of the URL-safe alphabet. */
  function UrlValue(c: char): Option<int> {
    if 'A' <= c <= 'Z' then Some(c as int - 65)
    else if 'a' <= c <= 'z' then Some(c as int - 71)
    else if '0' <= c <= '9' then Some(c as int + 4)
    else if c == '-' then Some(62)
    else if c == '_' then Some(63)
    else None
  }

  /** What the decoder reads: `-` and `_` are translated first, so `+` and `/` are values as well. */
  function Value(c: char): Option<int> {
    if c == '+' then Some(62) else if c == '/' then Some(63) else UrlValue(c)
  }

  lemma SymbolValue(v: int)
    requires 0 <= v < 64
    ensures UrlValue(Symbol(v)) == Some(v) == Value(Symbol(v)) && Symbol(v) != '='
  {
  }

  lemma UrlValueRange(c: char)
    ensures UrlValue(c).Some? ==> 0 <= UrlValue(c).value < 64 && Symbol(UrlValue(c).value) == c
    ensures Value(c).Some? ==> 0 <= Value(c).value < 64
    ensures Value('=') == None == UrlValue('=')
  {
  }

  // ---------------------------------------------------------------------------------------
  // Encoding.
  // ---------------------------------------------------------------------------------------

  /** Three bytes as four characters. */
  function Quad(a: Byte, b: Byte, c: Byte): string {
    [Symbol(a / 4), Symbol(a % 4 * 16 + b / 16), Symbol(b % 16 * 4 + c / 64), Symbol(c % 64)]
  }

  /** `base64.urlsafe_b64encode`, with padding. */
  function EncodePadded(raw: seq<Byte>): string {
    if raw == [] then ""
    else if |raw| == 1 then Quad(raw[0], 0, 0)[..2] + "=="
    else if |raw| == 2 then Quad(raw[0], raw[1], 0)[..3] + "="
    else Quad(raw[0], raw[1], raw[2]) + EncodePadded(raw[3..])
  }

  /** `.rstrip(b"=")` */
  function StripPadding(s: string): string {
    if s != "" && s[|s| - 1] == '=' then StripPadding(s[..|s| - 1]) else s
  }

  function Encode(raw: seq<Byte>): string {
    StripPadding(EncodePadded(raw))
  }

  // ---------------------------------------------------------------------------------------
  // Decoding.
  // ---------------------------------------------------------------------------------------

  function DecodeQuad(q: string): Option<seq<Byte>>
    requires |q| == 4
  {
    UrlValueRange(q[0]); UrlValueRange(q[1]); UrlValueRange(q[2]); UrlValueRange(q[3]);
    if Value(q[0]).None? || Value(q[1]).None? then None
    else
      var a, b := Value(q[0]).value, Value(q[1]).value;
      if q[2] == '=' && q[3] == '=' then Some([a * 4 + b / 16])
      else if Value(q[2]).None? then None
      else
        var c := Value(q[2]).value;
        if q[3] == '=' then Some([a * 4 + b / 16, b % 16 * 16 + c / 4])
        else if Value(q[3]).None? then None
        else Some([a * 4 + b / 16, b % 16 * 16 + c / 4, c % 4 * 64 + Value(q[3]).value])
  }

  /** `base64.b64decode(..., altchars=b"-_", validate=True)`: padding may only end the text. */
  function DecodeStrict(s: string): Option<seq<Byte>> {
    if s == "" then Some([])
    else if |s| < 4 then None
    else
      var head := DecodeQuad(s[..4]);
      if |s| == 4 || head.None? then head
      else if |head.value| < 3 then None
      else
        var tail := DecodeStrict(s[4..]);
        if tail.None? then None else Some(head.value + tail.value)
  }

  /** `"=" * (-len(text) % 4)` */
  function Padding(n: nat): string {
    match n % 4
    case 0 => ""
    case 1 => "==="
    case 2 => "=="
    case _ => "="
  }

  function Decode(text: string): Option<seq<Byte>> {
    DecodeStrict(text + Padding(|text|))
  }

  // ---------------------------------------------------------------------------------------
  // Round trip.
  // ---------------------------------------------------------------------------------------

  lemma {:induction false} StripOnce(s: string)
    requires s == "" || s[|s| - 1] != '='
    ensures StripPadding(s) == s && StripPadding(s + "=") == s && StripPadding(s + "==") == s
  {
    assert (s + "=")[..|s|] == s;
    assert (s + "==")[..|s| + 1] == s + "=";
  }

  lemma QuadValues(a: Byte, b: Byte, c: Byte)
    ensures |Quad(a, b, c)| == 4
    ensures UrlValue(Quad(a, b, c)[0]) == Value(Quad(a, b, c)[0]) == Some(a / 4)
    ensures UrlValue(Quad(a, b, c)[1]) == Value(Quad(a, b, c)[1]) == Some(a % 4 * 16 + b / 16)
    ensures UrlValue(Quad(a, b, c)[2]) == Value(Quad(a, b, c)[2]) == Some(b % 16 * 4 + c / 64)
    ensures UrlValue(Quad(a, b, c)[3]) == Value(Quad(a, b, c)[3]) == Some(c % 64)
    ensures Quad(a, b, c)[2] != '=' && Quad(a, b, c)[3] != '='
  {
    hide Symbol, UrlValue, Value;
    SymbolValue(a / 4); SymbolValue(a % 4 * 16 + b / 16); SymbolValue(b % 16 * 4 + c / 64); SymbolValue(c % 64);
  }

  lemma SextetsToBytes(a: Byte, b: Byte, c: Byte)
    ensures a / 4 * 4 + (a % 4 * 16 + b / 16) / 16 == a
    ensures (a % 4 * 16 + b / 16) % 16 * 16 + (b % 16 * 4 + c / 64) / 4 == b
    ensures (b % 16 * 4 + c / 64) % 4 * 64 + c % 64 == c
  {
  }

  lemma QuadSymbols(a: Byte, b: Byte, c: Byte)
    ensures DecodeQuad(Quad(a, b, c)) == Some([a, b, c])
    ensures DecodeQuad(Quad(a, b, 0)[..3] + "=") == Some([a, b])
    ensures DecodeQuad(Quad(a, 0, 0)[..2] + "==") == Some([a])
  {
    hide Symbol, UrlValue, Value, Quad;
    UrlValueRange('=');
    QuadValues(a, b, c);
    SextetsToBytes(a, b, c);
    QuadValues(a, b, 0);
    SextetsToBytes(a, b, 0);
    QuadValues(a, 0, 0);
    SextetsToBytes(a, 0, 0);
  }

  function Unpadded(raw: seq<Byte>): string {
    if raw == [] then ""
    else if |raw| == 1 then Quad(raw[0], 0, 0)[..2]
    else if |raw| == 2 then Quad(raw[0], raw[1], 0)[..3]
    else Quad(raw[0], raw[1], raw[2]) + Unpadded(raw[3..])
  }

  lemma {:induction false} UnpaddedShape(raw: seq<Byte>)
    ensures EncodePadded(raw) == Unpadded(raw) + Padding(|Unpadded(raw)|)
    ensures |Unpadded(raw)| == (4 * |raw| + 2) / 3
  {
    hide Symbol, UrlValue, DecodeQuad, Value, Quad;
    if |raw| >= 3 {
      UnpaddedShape(raw[3..]);
      QuadLength(raw[0], raw[1], raw[2]);
      PaddingAssociates(Quad(raw[0], raw[1], raw[2]), Unpadded(raw[3..]));
    } else if |raw| > 0 {
      QuadLength(raw[0], if |raw| == 2 then raw[1] else 0, 0);
    }
  }

  lemma PaddingAssociates(q: string, u: string)
    requires |q| == 4
    ensures q + (u + Padding(|u|)) == (q + u) + Padding(|q + u|)
  {
    assert |q + u| % 4 == |u| % 4;
  }

  lemma QuadLength(a: Byte, b: Byte, c: Byte)
    ensures |Quad(a, b, c)| == 4 && forall i :: 0 <= i < 4 ==> UrlValue(Quad(a, b, c)[i]).Some?
  {
    QuadValues(a, b, c);
  }

  lemma {:induction false} UnpaddedAlphabet(raw: seq<Byte>)
    ensures forall i :: 0 <= i < |Unpadded(raw)| ==> UrlValue(Unpadded(raw)[i]).Some?
  {
    hide UrlValue, Quad;
    if |raw| >= 3 {
      UnpaddedAlphabet(raw[3..]);
      QuadLength(raw[0], raw[1], raw[2]);
    } else if |raw| > 0 {
      QuadLength(raw[0], if |raw| == 2 then raw[1] else 0, 0);
    }
  }

  /** No number of bytes takes four characters and one more. */
  lemma NoneDangling(n: nat)
    ensures (4 * n + 2) / 3 % 4 != 1
  {
    var k, r := n / 3, n % 3;
    assert n == 3 * k + r;
    assert (4 * n + 2) / 3 == 4 * k + (4 * r + 2) / 3;
  }

  /** The padding restored by the decoder's caller is the padding the encoder had added. */
  lemma PaddedIsRepadded(raw: seq<Byte>)
    ensures Encode(raw) == Unpadded(raw)
    ensures Encode(raw) + Padding(|Encode(raw)|) == EncodePadded(raw)
    ensures |Encode(raw)| == (4 * |raw| + 2) / 3
    ensures forall i :: 0 <= i < |Encode(raw)| ==> UrlValue(Encode(raw)[i]).Some?
  {
    hide Unpadded, EncodePadded, UrlValue, StripPadding;
    UnpaddedShape(raw);
    UnpaddedAlphabet(raw);
    var s := Unpadded(raw);
    if s != "" {
      assert UrlValue(s[|s| - 1]).Some?;
      UrlValueRange(s[|s| - 1]);
    }
    StripOnce(s);
    NoneDangling(|raw|);
    assert Padding(|s|) == "" ==> s + Padding(|s|) == s;
  }

  lemma {:induction false} StrictDecodesPadded(raw: seq<Byte>)
    ensures DecodeStrict(EncodePadded(raw)) == Some(raw)
  {
    hide Symbol, UrlValue, Value, DecodeQuad, Quad;
    var s := EncodePadded(raw);
    if raw == [] {
    } else if |raw| == 1 {
      QuadSymbols(raw[0], 0, 0); QuadLength(raw[0], 0, 0);
      assert s[..4] == s && raw == [raw[0]];
    } else if |raw| == 2 {
      QuadSymbols(raw[0], raw[1], 0); QuadLength(raw[0], raw[1], 0);
      assert s[..4] == s && raw == [raw[0], raw[1]];
    } else {
      QuadSymbols(raw[0], raw[1], raw[2]); QuadLength(raw[0], raw[1], raw[2]);
      StrictDecodesPadded(raw[3..]);
      assert s[..4] == Quad(raw[0], raw[1], raw[2]);
      assert s[4..] == EncodePadded(raw[3..]);
      UnpaddedShape(raw[3..]);
      assert |s| == 4 ==> raw[3..] == [] && raw == [raw[0], raw[1], raw[2]];
      assert raw == [raw[0], raw[1], raw[2]] + raw[3..];
    }
  }

  /** Decoding what was encoded gives the bytes back, for every byte sequence. */
  lemma DecodeEncode(raw: seq<Byte>)
    ensures Decode(Encode(raw)) == Some(raw)
  {
    PaddedIsRepadded(raw);
    StrictDecodesPadded(raw);
  }

  // ---------------------------------------------------------------------------------------
  // Canonical text (RFC 4648 section 3.5): one spelling for each byte sequence.
  // ---------------------------------------------------------------------------------------

  /** The text the relay accepts: it decodes, and encoding the result reproduces it. */
  predicate Accepted(text: string) {
    Decode(text).Some? && Encode(Decode(text).value) == text
  }

  /** Alphabet characters only, no dangling character, and zero bits where the last byte ends. */
  predicate Canonical(text: string) {
    && (forall i :: 0 <= i < |text| ==> UrlValue(text[i]).Some?)
    && |text| % 4 != 1
    && (|text| % 4 == 2 ==> UrlValue(text[|text| - 1]).value % 16 == 0)
    && (|text| % 4 == 3 ==> UrlValue(text[|text| - 1]).value % 4 == 0)
  }

  lemma {:induction false} UnpaddedIsCanonical(raw: seq<Byte>)
    ensures Canonical(Unpadded(raw))
  {
    hide UrlValue, Symbol;
    UnpaddedShape(raw);
    UnpaddedAlphabet(raw);
    if |raw| == 1 {
      SymbolValue(raw[0] % 4 * 16);
    } else if |raw| == 2 {
      SymbolValue(raw[1] % 16 * 4);
    } else if |raw| >= 3 {
      UnpaddedIsCanonical(raw[3..]);
      UnpaddedShape(raw[3..]);
    }
  }

  lemma QuadOfSextets(a: int, b: int, c: int, d: int)
    requires 0 <= a < 64 && 0 <= b < 64 && 0 <= c < 64 && 0 <= d < 64
    ensures Quad(a * 4 + b / 16, b % 16 * 16 + c / 4, c % 4 * 64 + d) == [Symbol(a), Symbol(b), Symbol(c), Symbol(d)]
  {
    hide Symbol;
    assert (a * 4 + b / 16) / 4 == a && (a * 4 + b / 16) % 4 == b / 16;
    assert (b % 16 * 16 + c / 4) / 16 == b % 16 && (b % 16 * 16 + c / 4) % 16 == c / 4;
    assert (c % 4 * 64 + d) / 64 == c % 4 && (c % 4 * 64 + d) % 64 == d;
  }

  /** Every canonical text is the unpadded encoding of some bytes. */
  lemma {:induction false} CanonicalIsSpelling(text: string) returns (raw: seq<Byte>)
    requires Canonical(text)
    ensures Unpadded(raw) == text
  {
    hide UrlValue, Symbol, Value, Quad;
    if text == "" { return []; }
    UrlValueRange(text[0]); UrlValueRange(text[1]); UrlValueRange(text[|text| - 1]);
    var a, b := UrlValue(text[0]).value, UrlValue(text[1]).value;
    if |text| == 2 {
      QuadOfSextets(a, b, 0, 0);
      raw := [a * 4 + b / 16];
    } else {
      UrlValueRange(text[2]);
      var c := UrlValue(text[2]).value;
      if |text| == 3 {
        QuadOfSextets(a, b, c, 0);
        raw := [a * 4 + b / 16, b % 16 * 16 + c / 4];
      } else {
        UrlValueRange(text[3]);
        var d := UrlValue(text[3]).value;
        QuadOfSextets(a, b, c, d);
        var rest := CanonicalIsSpelling(text[4..]);
        raw := [a * 4 + b / 16, b % 16 * 16 + c / 4, c % 4 * 64 + d] + rest;
        assert raw[3..] == rest;
        assert text == text[..4] + text[4..];
      }
    }
  }

  /** The relay's decode-and-re-encode test accepts exactly the canonical texts. */
  lemma AcceptedIffCanonical(text: string)
    ensures Accepted(text) <==> Canonical(text)
  {
    if Accepted(text) {
      PaddedIsRepadded(Decode(text).value);
      UnpaddedIsCanonical(Decode(text).value);
    }
    if Canonical(text) {
      var raw := CanonicalIsSpelling(text);
      PaddedIsRepadded(raw);
      DecodeEncode(raw);
    }
  }

  // ---------------------------------------------------------------------------------------
  // What an encoding spells: six bits a character, from the top of each byte down.
  // ---------------------------------------------------------------------------------------

  /** Table 2 of RFC 4648. */
  const ALPHABET := CAPITALS + SMALL + DIGITS + "-_"
  const CAPITALS := "ABCDEFGHIJKLMNOPQRSTUVWXYZ"
  const SMALL := "abcdefghijklmnopqrstuvwxyz"
  const DIGITS := "0123456789"

  function Octet(raw: seq<Byte>, i: nat): Byte { if i < |raw| then raw[i] else 0 }

  /** Bits 6j to 6j + 5 of the bytes, the first byte's top bit first and zeros past the last. */
  function Sextet(raw: seq<Byte>, j: nat): (v: nat)
    ensures v < 64
  {
    SixOf(Octet(raw, 6 * j / 8), Octet(raw, 6 * j / 8 + 1),
          match 6 * j % 8
          case 0 => 1024
          case 6 => 16
          case 4 => 64
          case _ => 256)
  }

  function SixOf(first: int, second: int, below: int): (v: nat)
    requires below > 0
    ensures v < 64
  {
    (256 * first + second) / below % 64
  }

  lemma SymbolIsLetter(v: int)
    requires 0 <= v < 64
    ensures Symbol(v) == ALPHABET[v]
  {
    assert v < 26 ==> Symbol(v) == CAPITALS[v];
    assert 26 <= v < 52 ==> Symbol(v) == SMALL[v - 26];
    assert 52 <= v < 62 ==> Symbol(v) == DIGITS[v - 52];
  }

  lemma QuadSpells(raw: seq<Byte>, j: nat)
    requires j < 4
    ensures |Quad(Octet(raw, 0), Octet(raw, 1), Octet(raw, 2))| == 4
    ensures Quad(Octet(raw, 0), Octet(raw, 1), Octet(raw, 2))[j] == ALPHABET[Sextet(raw, j)]
  {
    hide Symbol, Octet, Sextet;
    FirstSextets(raw);
    SymbolIsLetter(Sextet(raw, j));
  }

  lemma FirstSextets(raw: seq<Byte>)
    ensures var a, b, c := Octet(raw, 0), Octet(raw, 1), Octet(raw, 2);
      && Sextet(raw, 0) == a / 4 && Sextet(raw, 1) == a % 4 * 16 + b / 16
      && Sextet(raw, 2) == b % 16 * 4 + c / 64 && Sextet(raw, 3) == c % 64
  {
    hide Octet, SixOf;
    SixBits(Octet(raw, 0), Octet(raw, 1));
    SixBits(Octet(raw, 1), Octet(raw, 2));
    SixBits(Octet(raw, 2), Octet(raw, 3));
  }

  lemma SixBits(a: int, b: int)
    requires 0 <= a < 256 && 0 <= b < 256
    ensures SixOf(a, b, 1024) == a / 4 && SixOf(a, b, 256) == a % 64
    ensures SixOf(a, b, 16) == a % 4 * 16 + b / 16
    ensures SixOf(a, b, 64) == a % 16 * 4 + b / 64
  {
    assert SixOf(a, b, 1024) == a / 4;
    assert SixOf(a, b, 256) == a % 64;
    assert SixOf(a, b, 16) == a % 4 * 16 + b / 16 by { Sixteenths(a, b); }
    assert SixOf(a, b, 64) == a % 16 * 4 + b / 64 by { SixtyFourths(a, b); }
  }

  lemma Sixteenths(a: int, b: int)
    requires 0 <= a < 256 && 0 <= b < 256
    ensures (256 * a + b) / 16 % 64 == a % 4 * 16 + b / 16
  {
    var q, r := a / 4, a % 4;
    assert a == 4 * q + r && 256 * a + b == 16 * (64 * q + 16 * r) + b;
    assert (256 * a + b) / 16 == 64 * q + (16 * r + b / 16);
  }

  lemma SixtyFourths(a: int, b: int)
    requires 0 <= a < 256 && 0 <= b < 256
    ensures (256 * a + b) / 64 % 64 == a % 16 * 4 + b / 64
  {
    var q, r := a / 16, a % 16;
    assert a == 16 * q + r && 256 * a + b == 64 * (64 * q + 4 * r) + b;
    assert (256 * a + b) / 64 == 64 * q + (4 * r + b / 64);
  }

  lemma SextetOfRest(raw: seq<Byte>, j: nat)
    requires |raw| >= 3 && j >= 4
    ensures Sextet(raw, j) == Sextet(raw[3..], j - 4)
  {
    assert 6 * j / 8 == 6 * (j - 4) / 8 + 3 && 6 * j % 8 == 6 * (j - 4) % 8;
  }

  /** Character `j` of an encoding is the letter of six bits, whichever byte or two they lie in. */
  lemma EncodedSextets(raw: seq<Byte>, j: nat)
    requires j < |Encode(raw)|
    ensures Encode(raw)[j] == ALPHABET[Sextet(raw, j)]
  {
    hide Unpadded, Encode;
    PaddedIsRepadded(raw);
    UnpaddedSextets(raw, j);
  }

  lemma {:induction false} UnpaddedSextets(raw: seq<Byte>, j: nat)
    requires j < |Unpadded(raw)|
    ensures Unpadded(raw)[j] == ALPHABET[Sextet(raw, j)]
  {
    hide Quad, Sextet;
    if j < 4 { QuadSpells(raw, j); }
    QuadLength(Octet(raw, 0), Octet(raw, 1), Octet(raw, 2));
    if |raw| >= 3 && j >= 4 {
      SextetOfRest(raw, j);
      UnpaddedSextets(raw[3..], j - 4);
    }
  }
}
