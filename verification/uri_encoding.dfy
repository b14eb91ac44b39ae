/** `encodeURIComponent` as `goMain` in check_in/js/login.js applies it to the
    access token: every character outside the unreserved set
    A-Z a-z 0-9 - _ . ! ~ * ' ( ) becomes the UTF-8 encoding of its code
    point, one `%XY` triple (upper-case hex) per byte. A Dafny `char` is a
    Unicode scalar value, so the lone-surrogate URIError cannot arise. */
module UriEncoding {
  import opened Wrappers

  predicate Unreserved(c: char) {
    || ('A' <= c <= 'Z') || ('a' <= c <= 'z') || ('0' <= c <= '9')
    || c == '-' || c == '_' || c == '.' || c == '!' || c == '~' || c == '*'
    || c == '\'' || c == '(' || c == ')'
  }

  predicate UpperHex(c: char) {
    ('0' <= c <= '9') || ('A' <= c <= 'F')
  }

  /** A byte value. */
  type Byte = b: int | 0 <= b < 256

  function HexDigit(d: int): (c: char)
    requires 0 <= d < 16
    ensures UpperHex(c)
  {
    if d < 10 then ('0' as int + d) as char else ('A' as int + d - 10) as char
  }

  /** A hex digit of either case, as `decodeURIComponent` accepts. */
  predicate Hex(c: char) {
    UpperHex(c) || ('a' <= c <= 'f')
  }

  function HexValue(c: char): (d: int)
    requires Hex(c)
    ensures 0 <= d < 16
  {
    if c <= '9' then c as int - '0' as int
    else if c <= 'F' then c as int - 'A' as int + 10
    else c as int - 'a' as int + 10
  }

  lemma HexRoundTrip(d: int)
    requires 0 <= d < 16
    ensures HexValue(HexDigit(d)) == d
  {
  }

  /** The `%XY` triple of one byte. */
  function PercentByte(b: Byte): (t: string)
    ensures |t| == 3 && t[0] == '%' && UpperHex(t[1]) && UpperHex(t[2])
    ensures 16 * HexValue(t[1]) + HexValue(t[2]) == b
  {
    HexRoundTrip(b / 16);
    HexRoundTrip(b % 16);
    ['%', HexDigit(b / 16), HexDigit(b % 16)]
  }

  /** The UTF-8 encoding of a scalar value: one to four bytes, the first
      telling the length, the rest continuation bytes 10xxxxxx. */
  function Utf8(c: char): (bs: seq<Byte>)
    ensures 1 <= |bs| <= 4
    ensures |bs| == 1 <==> c as int < 0x80
    ensures forall k :: 1 <= k < |bs| ==> 0x80 <= bs[k] < 0xC0
  {
    var cp := c as int;
    if cp < 0x80 then [cp]
    else if cp < 0x800 then [0xC0 + cp / 64, 0x80 + cp % 64]
    else if cp < 0x10000 then [0xE0 + cp / 4096, 0x80 + (cp / 64) % 64, 0x80 + cp % 64]
    else [0xF0 + cp / 262144, 0x80 + (cp / 4096) % 64, 0x80 + (cp / 64) % 64, 0x80 + cp % 64]
  }

  function PercentBytes(bs: seq<Byte>): (t: string)
    ensures |t| == 3 * |bs|
  {
    if bs == [] then [] else PercentByte(bs[0]) + PercentBytes(bs[1..])
  }

  function EncodeChar(c: char): string {
    if Unreserved(c) then [c] else PercentBytes(Utf8(c))
  }

  /** `encodeURIComponent(s)`. */
  function Encode(s: string): (t: string)
    ensures |t| >= |s|
  {
    if s == [] then [] else EncodeChar(s[0]) + Encode(s[1..])
  }

  /** A character that may appear in an encoded component. */
  predicate Encoded(c: char) {
    Unreserved(c) || c == '%' || UpperHex(c)
  }

  lemma {:induction false} PercentBytesEncoded(bs: seq<Byte>)
    ensures forall k :: 0 <= k < |PercentBytes(bs)| ==> Encoded(PercentBytes(bs)[k])
  {
    if bs != [] {
      PercentBytesEncoded(bs[1..]);
    }
  }

  /** The output uses only unreserved characters, '%' and upper-case hex
      digits, so it contains none of & = ? # + or space. */
  lemma {:induction false} EncodeAlphabet(s: string)
    ensures forall k :: 0 <= k < |Encode(s)| ==> Encoded(Encode(s)[k])
  {
    if s != [] {
      EncodeAlphabet(s[1..]);
      if !Unreserved(s[0]) {
        PercentBytesEncoded(Utf8(s[0]));
      }
    }
  }

  /** None of the delimiters is a character an encoding may contain. */
  lemma DelimitersNotEncoded(t: string)
    requires forall k :: 0 <= k < |t| ==> Encoded(t[k])
    ensures '&' !in t && '#' !in t && '?' !in t && '=' !in t
    ensures ' ' !in t && '+' !in t && '/' !in t
  {
    forall k | 0 <= k < |t|
      ensures t[k] != '&' && t[k] != '#' && t[k] != '?' && t[k] != '='
      ensures t[k] != ' ' && t[k] != '+' && t[k] != '/'
    {
      assert Encoded(t[k]);
    }
  }

  /** In particular no query or fragment delimiter survives encoding. */
  lemma EncodeOmitsDelimiters(s: string)
    ensures '&' !in Encode(s) && '#' !in Encode(s) && '?' !in Encode(s) && '=' !in Encode(s)
    ensures ' ' !in Encode(s) && '+' !in Encode(s) && '/' !in Encode(s)
  {
    EncodeAlphabet(s);
    DelimitersNotEncoded(Encode(s));
  }

  /** A string is left unchanged exactly when all its characters are
      unreserved. */
  lemma {:induction false} EncodeIdentity(s: string)
    ensures Encode(s) == s <==> forall k :: 0 <= k < |s| ==> Unreserved(s[k])
  {
    if s != [] {
      EncodeIdentity(s[1..]);
      if !Unreserved(s[0]) {
        var t := PercentBytes(Utf8(s[0]));
        assert |Encode(s)| == |t| + |Encode(s[1..])| > |s|;
      } else {
        assert Encode(s) == [s[0]] + Encode(s[1..]);
        if Encode(s) == s {
          assert Encode(s[1..]) == s[1..];
        }
      }
    }
  }

  /** The byte of the `%XY` triple at the start of `t`, if there is one. */
  function ByteAt(t: string): Option<Byte> {
    if |t| >= 3 && t[0] == '%' && Hex(t[1]) && Hex(t[2])
    then Some(16 * HexValue(t[1]) + HexValue(t[2]))
    else None
  }

  /** The bytes of the first `n` triples of `t`. */
  function Triples(t: string, n: nat): Option<seq<Byte>>
    decreases n
  {
    if n == 0 then Some([])
    else match ByteAt(t)
      case None => None
      case Some(b) =>
        match Triples(t[3..], n - 1)
        case None => None
        case Some(bs) => Some([b] + bs)
  }

  /** The length of a UTF-8 sequence told by its lead byte, 0 when the byte
      cannot lead one. */
  function SequenceLength(b: Byte): nat {
    if b < 0x80 then 1
    else if 0xC0 <= b < 0xE0 then 2
    else if 0xE0 <= b < 0xF0 then 3
    else if 0xF0 <= b < 0xF8 then 4
    else 0
  }

  /** The code point of a UTF-8 sequence of length 1 to 4 whose lead byte
      tells that length. */
  function CodePoint(bs: seq<Byte>): int
    requires 1 <= |bs| <= 4
  {
    var b := seq(|bs|, k requires 0 <= k < |bs| => bs[k] as int);
    if |b| == 1 then b[0]
    else if |b| == 2 then (b[0] - 0xC0) * 64 + (b[1] - 0x80)
    else if |b| == 3 then (b[0] - 0xE0) * 4096 + (b[1] - 0x80) * 64 + (b[2] - 0x80)
    else (b[0] - 0xF0) * 262144 + (b[1] - 0x80) * 4096 + (b[2] - 0x80) * 64 + (b[3] - 0x80)
  }

  /** Every byte after the lead byte is 10xxxxxx. */
  predicate ContinuationBytes(bs: seq<Byte>) {
    forall k :: 1 <= k < |bs| ==> 0x80 <= bs[k] < 0xC0
  }

  predicate ScalarValue(v: int) {
    0 <= v < 0xD800 || 0xE000 <= v < 0x11_0000
  }

  /** The character escaped at the head of `t`, which starts with '%',
      and the number of characters its triples take: the lead byte tells
      the length, the continuation bytes must be 10xxxxxx and the code point
      must be a scalar value. Overlong sequences are not rejected here. */
  function Unescape(t: string): (r: Option<(char, nat)>)
    ensures r.Some? ==> 3 <= r.value.1 <= |t|
  {
    match ByteAt(t)
    case None => None
    case Some(b0) =>
      var n := SequenceLength(b0);
      if n == 0 || |t| < 3 * n then None
      else
        match Triples(t, n)
        case None => None
        case Some(bs) =>
          if |bs| != n || !ContinuationBytes(bs) || !ScalarValue(CodePoint(bs)) then None
          else Some((CodePoint(bs) as char, 3 * n))
  }

  /** `decodeURIComponent`: a character other than '%' stands for itself;
      '%' starts the triples of one escaped character. */
  function Decode(t: string): Option<string>
    decreases |t|
  {
    if t == [] then Some([])
    else if t[0] != '%' then
      match Decode(t[1..])
      case None => None
      case Some(rest) => Some([t[0]] + rest)
    else
      match Unescape(t)
      case None => None
      case Some((c, k)) =>
        match Decode(t[k..])
        case None => None
        case Some(rest) => Some([c] + rest)
  }

  /** The triple of a byte, read back at the head of a string. */
  lemma ByteAtPercentByte(b: Byte, rest: string)
    ensures ByteAt(PercentByte(b) + rest) == Some(b)
    ensures (PercentByte(b) + rest)[3..] == rest
  {
    var t := PercentByte(b) + rest;
    assert t[0] == '%' && t[1] == PercentByte(b)[1] && t[2] == PercentByte(b)[2];
  }

  /** The head of the triples of a non-empty byte sequence. */
  lemma HeadOfPercentBytes(bs: seq<Byte>, rest: string)
    requires bs != []
    ensures ByteAt(PercentBytes(bs) + rest) == Some(bs[0])
    ensures (PercentBytes(bs) + rest)[3..] == PercentBytes(bs[1..]) + rest
  {
    var p := PercentByte(bs[0]);
    var w := PercentBytes(bs[1..]);
    assert PercentBytes(bs) == p + w;
    AppendAssoc(p, w, rest);
    ByteAtPercentByte(bs[0], w + rest);
  }

  lemma AppendAssoc(a: string, b: string, c: string)
    ensures (a + b) + c == a + (b + c)
  {
  }

  lemma {:induction false} TriplesOfPercentBytes(bs: seq<Byte>, rest: string)
    ensures Triples(PercentBytes(bs) + rest, |bs|) == Some(bs)
  {
    if bs != [] {
      HeadOfPercentBytes(bs, rest);
      TriplesOfPercentBytes(bs[1..], rest);
      assert [bs[0]] + bs[1..] == bs;
    }
  }

  /** UTF-8 decoding undoes `Utf8`. */
  lemma Utf8RoundTrip(c: char)
    ensures SequenceLength(Utf8(c)[0]) == |Utf8(c)|
    ensures CodePoint(Utf8(c)) == c as int
  {
    var cp := c as int;
    if 0x800 <= cp < 0x10000 {
      assert cp == (cp / 4096) * 4096 + ((cp / 64) % 64) * 64 + cp % 64 by {
        assert cp / 4096 == (cp / 64) / 64;
      }
    } else if 0x10000 <= cp {
      assert cp == (cp / 262144) * 262144 + ((cp / 4096) % 64) * 4096 + ((cp / 64) % 64) * 64 + cp % 64 by {
        assert cp / 4096 == (cp / 64) / 64;
        assert cp / 262144 == (cp / 4096) / 64;
      }
    }
  }

  /** Unescaping reads the sequence whose triples head the string. */
  lemma UnescapeOf(t: string, bs: seq<Byte>)
    requires 1 <= |bs| <= 4 && SequenceLength(bs[0]) == |bs| && |t| >= 3 * |bs|
    requires ByteAt(t) == Some(bs[0]) && Triples(t, |bs|) == Some(bs)
    requires ContinuationBytes(bs) && ScalarValue(CodePoint(bs))
    ensures Unescape(t) == Some((CodePoint(bs) as char, 3 * |bs|))
  {
  }

  /** Decoding the triples of a well-formed UTF-8 sequence and then the
      rest. */
  lemma DecodeSequence(bs: seq<Byte>, rest: string)
    requires 1 <= |bs| <= 4 && SequenceLength(bs[0]) == |bs|
    requires ContinuationBytes(bs) && ScalarValue(CodePoint(bs))
    ensures Decode(PercentBytes(bs) + rest) ==
              match Decode(rest)
              case None => None
              case Some(r) => Some([CodePoint(bs) as char] + r)
  {
    var t := PercentBytes(bs) + rest;
    TriplesOfPercentBytes(bs, rest);
    HeadOfPercentBytes(bs, rest);
    UnescapeOf(t, bs);
    assert t[3 * |bs|..] == rest;
  }

  /** Decoding the triples of an escaped character and then the rest. */
  lemma DecodeEscapedChar(c: char, rest: string)
    requires !Unreserved(c)
    ensures Decode(PercentBytes(Utf8(c)) + rest) ==
              match Decode(rest)
              case None => None
              case Some(r) => Some([c] + r)
  {
    var bs := Utf8(c);
    Utf8RoundTrip(c);
    DecodeSequence(bs, rest);
  }

  /** Decoding one encoded character and then the rest. */
  lemma DecodeEncodedChar(c: char, rest: string)
    ensures Decode(EncodeChar(c) + rest) ==
              match Decode(rest)
              case None => None
              case Some(r) => Some([c] + r)
  {
    if Unreserved(c) {
      var t := EncodeChar(c) + rest;
      assert t[0] == c && t[1..] == rest;
    } else {
      DecodeEscapedChar(c, rest);
    }
  }

  /** `decodeURIComponent(encodeURIComponent(s)) == s`. */
  lemma {:induction false} DecodeEncode(s: string)
    ensures Decode(Encode(s)) == Some(s)
  {
    if s != [] {
      DecodeEncode(s[1..]);
      DecodeEncodedChar(s[0], Encode(s[1..]));
      assert [s[0]] + s[1..] == s;
    }
  }
}
