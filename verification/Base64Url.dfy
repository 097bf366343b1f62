/**
 * security/crypto.go: unpadded base64url, the alphabet of section 5 of RFC 4648 without the
 * padding of section 3.2.
 */
module Base64Url {

  type Byte = b: int | 0 <= b < 256

  predicate InAlphabet(c: char) {
    'A' <= c <= 'Z' || 'a' <= c <= 'z' || '0' <= c <= '9' || c == '-' || c == '_'
  }

  type Sextet = v: int | 0 <= v < 64

  function Symbol(v: Sextet): (c: char)
    ensures InAlphabet(c) && SymbolValue(c) == v
  {
    if v < 26 then ('A' as int + v) as char
    else if v < 52 then ('a' as int + v - 26) as char
    else if v < 62 then ('0' as int + v - 52) as char
    else if v == 62 then '-' else '_'
  }

  function SymbolValue(c: char): Sextet
    requires InAlphabet(c)
  {
    if 'A' <= c <= 'Z' then c as int - 'A' as int
    else if 'a' <= c <= 'z' then c as int - 'a' as int + 26
    else if '0' <= c <= '9' then c as int - '0' as int + 52
    else if c == '-' then 62 else 63
  }

  /** The bits of the bytes, six at a time; what is missing of the last six is zero. */
  function Sextets(b: seq<Byte>): (v: seq<Sextet>)
    ensures |v| == (4 * |b| + 2) / 3
  {
    if |b| == 0 then []
    else if |b| == 1 then [b[0] / 4, b[0] % 4 * 16]
    else if |b| == 2 then [b[0] / 4, b[0] % 4 * 16 + b[1] / 16, b[1] % 16 * 4]
    else [b[0] / 4, b[0] % 4 * 16 + b[1] / 16, b[1] % 16 * 4 + b[2] / 64, b[2] % 64] + Sextets(b[3..])
  }

  /** The text spells these values, symbol by symbol. */
  predicate Spells(s: string, v: seq<Sextet>) {
    |s| == |v| && forall k :: 0 <= k < |v| ==> InAlphabet(s[k]) && SymbolValue(s[k]) == v[k]
  }

  function SymbolsOf(v: seq<Sextet>): (s: string)
    ensures Spells(s, v)
    ensures forall c :: c in s ==> InAlphabet(c)
  {
    seq(|v|, k requires 0 <= k < |v| => Symbol(v[k]))
  }

  function Encode(b: seq<Byte>): (s: string)
    ensures forall c :: c in s ==> InAlphabet(c)
    ensures |s| == (4 * |b| + 2) / 3
  {
    SymbolsOf(Sextets(b))
  }

  function StripNewlines(s: string): (t: string)
    ensures (forall c :: c in s ==> InAlphabet(c)) ==> t == s
  {
    if s == "" then ""
    else if s[0] == '\r' || s[0] == '\n' then assert s[0] in s; StripNewlines(s[1..])
    else
      assert [s[0]] + s[1..] == s;
      [s[0]] + StripNewlines(s[1..])
  }

  /** Four symbols at a time; the quantum with the first error, and all after it, yield nothing. */
  function DecodeQuanta(s: string): seq<Byte> {
    if |s| < 2 || !InAlphabet(s[0]) || !InAlphabet(s[1]) then []
    else
      var v0, v1 := SymbolValue(s[0]), SymbolValue(s[1]);
      var b0 := v0 * 4 + v1 / 16;
      if |s| == 2 then [b0]
      else if !InAlphabet(s[2]) then []
      else
        var v2 := SymbolValue(s[2]);
        var b1 := v1 % 16 * 16 + v2 / 4;
        if |s| == 3 then [b0, b1]
        else if !InAlphabet(s[3]) then []
        else [b0, b1, v2 % 4 * 64 + SymbolValue(s[3])] + DecodeQuanta(s[4..])
  }

  /**
   * `B64Decode`: line breaks are skipped, and a malformed text gives the bytes decoded before the
   * error, which the caller cannot tell from success.
   */
  function Decode(s: string): seq<Byte> { DecodeQuanta(StripNewlines(s)) }

  /** The bits of the values, eight at a time; spare bits are dropped. */
  function Octets(v: seq<Sextet>): seq<Byte> {
    if |v| < 2 then []
    else
      var v0: int, v1: int := v[0], v[1];
      if |v| == 2 then [v0 * 4 + v1 / 16]
      else
        var v2: int := v[2];
        if |v| == 3 then [v0 * 4 + v1 / 16, v1 % 16 * 16 + v2 / 4]
        else [v0 * 4 + v1 / 16, v1 % 16 * 16 + v2 / 4, v2 % 4 * 64 + v[3]] + Octets(v[4..])
  }

  lemma {:induction false} DecodeSpelled(s: string, v: seq<Sextet>)
    requires Spells(s, v)
    ensures DecodeQuanta(s) == Octets(v)
  {
    if |v| >= 4 { DecodeSpelled(s[4..], v[4..]); }
  }

  lemma {:induction false} OctetsOfSextets(b: seq<Byte>)
    ensures Octets(Sextets(b)) == b
  {
    if |b| >= 3 {
      OctetsOfSextets(b[3..]);
      assert Sextets(b)[4..] == Sextets(b[3..]);
      assert b == [b[0], b[1], b[2]] + b[3..];
    }
  }

  /** Decoding an encoding returns every byte sequence. */
  lemma DecodeEncode(b: seq<Byte>)
    ensures Decode(Encode(b)) == b
  {
    DecodeSpelled(Encode(b), Sextets(b));
    OctetsOfSextets(b);
  }

  lemma EncodeInjective(a: seq<Byte>, b: seq<Byte>)
    requires Encode(a) == Encode(b)
    ensures a == b
  {
    DecodeEncode(a);
    DecodeEncode(b);
  }

  /** Decoding is not injective: the four spare bits of a two-symbol tail are ignored. */
  lemma DecodeIgnoresSpareBits()
    ensures Decode("AA") == Decode("AB") == [0]
  {
    assert StripNewlines("AA") == "AA" && StripNewlines("AB") == "AB";
  }

  /** `[]byte(s)` and `string(b)`: a Go string seen as its bytes, one char per byte. */
  predicate ByteString(s: string) { forall i :: 0 <= i < |s| ==> s[i] as int < 256 }

  function ByteOf(c: char): Byte
    requires c as int < 256
  {
    c as int
  }

  function BytesOf(s: string): (b: seq<Byte>)
    requires ByteString(s)
    ensures |b| == |s|
  {
    seq(|s|, i requires 0 <= i < |s| => ByteOf(s[i]))
  }

  function StringOf(b: seq<Byte>): (s: string)
    ensures ByteString(s) && |s| == |b|
  {
    seq(|b|, i requires 0 <= i < |b| => b[i] as char)
  }

  lemma StringOfBytesOf(s: string)
    requires ByteString(s)
    ensures StringOf(BytesOf(s)) == s
  {
  }
}
