/**
 * Two browser encoders: `encodeURIComponent` (UTF-8, then percent-encoding
 * of every byte outside the unreserved set) and `btoa` (base64 of a string
 * of code points up to 0xFF, failing on any other).
 */
module WebEncoding {
  import opened Wrappers

  /** A byte, held as a number below 256. */
  type Byte = b: nat | b < 256

  /** The characters `encodeURIComponent` leaves as they are. */
  predicate Unreserved(c: char) {
    ('A' <= c <= 'Z') || ('a' <= c <= 'z') || ('0' <= c <= '9') ||
    c == '-' || c == '_' || c == '.' || c == '!' || c == '~' || c == '*' || c == '\'' || c == '(' || c == ')'
  }

  /** The upper-case hexadecimal digit of `d`. */
  function HexDigit(d: nat): (c: char)
    requires d < 16
    ensures '0' <= c <= '9' || 'A' <= c <= 'F'
  {
    if d < 10 then ('0' as int + d) as char else ('A' as int + d - 10) as char
  }

  /** The value of a hexadecimal digit of either case (0 for any other character). */
  function HexValue(c: char): (d: nat)
    ensures d < 16
  {
    if '0' <= c <= '9' then c as int - '0' as int
    else if 'A' <= c <= 'F' then c as int - 'A' as int + 10
    else if 'a' <= c <= 'f' then c as int - 'a' as int + 10
    else 0
  }

  /** The UTF-8 encoding of one code point. */
  function Utf8(c: char): (r: seq<Byte>)
    ensures 1 <= |r| <= 4
    ensures c as int < 0x80 ==> r == [c as int]
  {
    var n := c as int;
    if n < 0x80 then [n]
    else if n < 0x800 then [0xC0 + n / 64, 0x80 + n % 64]
    else if n < 0x10000 then [0xE0 + n / 4096, 0x80 + n / 64 % 64, 0x80 + n % 64]
    else [0xF0 + n / 262144, 0x80 + n / 4096 % 64, 0x80 + n / 64 % 64, 0x80 + n % 64]
  }

  /** The UTF-8 encoding of a string. */
  function Utf8Bytes(s: string): seq<Byte> {
    if s == [] then [] else Utf8(s[0]) + Utf8Bytes(s[1..])
  }

  /** Every byte written as `%XY`. */
  function Percent(bs: seq<Byte>): (r: string)
    ensures |r| == 3 * |bs|
  {
    if bs == [] then [] else ['%', HexDigit(bs[0] / 16), HexDigit(bs[0] % 16)] + Percent(bs[1..])
  }

  /** The characters the percent-encoding of a text may consist of. */
  predicate UriSafe(c: char) {
    Unreserved(c) || c == '%'
  }

  function EncodeChar(c: char): string {
    if Unreserved(c) then [c] else Percent(Utf8(c))
  }

  /** `encodeURIComponent`. A Dafny string holds no lone surrogate, so the encoder never fails. */
  function EncodeUriComponent(s: string): (r: string)
    ensures forall k :: 0 <= k < |r| ==> UriSafe(r[k])
    ensures (forall k :: 0 <= k < |s| ==> Unreserved(s[k])) ==> r == s
  {
    if s == [] then []
    else
      PercentSafe(Utf8(s[0]));
      EncodeChar(s[0]) + EncodeUriComponent(s[1..])
  }

  lemma {:induction false} PercentSafe(bs: seq<Byte>)
    ensures forall k :: 0 <= k < |Percent(bs)| ==> UriSafe(Percent(bs)[k])
  {
    if bs != [] {
      PercentSafe(bs[1..]);
      var head := ['%', HexDigit(bs[0] / 16), HexDigit(bs[0] % 16)];
      assert Percent(bs) == head + Percent(bs[1..]);
    }
  }

  /** The reading of a percent-encoded text: `%XY` is the byte XY, any other character its own code. */
  function PercentDecode(t: string): seq<nat> {
    if t == [] then []
    else if t[0] == '%' && |t| >= 3 then [HexValue(t[1]) * 16 + HexValue(t[2])] + PercentDecode(t[3..])
    else [t[0] as int] + PercentDecode(t[1..])
  }

  /** The two hexadecimal digits of a byte read back as the byte. */
  lemma HexPair(b: Byte)
    ensures HexValue(HexDigit(b / 16)) * 16 + HexValue(HexDigit(b % 16)) == b
  {
  }

  /** One `%XY` triple reads back as its byte. */
  lemma PercentHead(b: Byte, tail: string)
    ensures PercentDecode(['%', HexDigit(b / 16), HexDigit(b % 16)] + tail) == [b] + PercentDecode(tail)
  {
    var t := ['%', HexDigit(b / 16), HexDigit(b % 16)] + tail;
    HexPair(b);
    assert t[3..] == tail;
  }

  lemma {:induction false} PercentRoundTrip(bs: seq<Byte>, rest: string)
    ensures PercentDecode(Percent(bs) + rest) == bs + PercentDecode(rest)
  {
    if bs != [] {
      var head := ['%', HexDigit(bs[0] / 16), HexDigit(bs[0] % 16)];
      var tail := Percent(bs[1..]) + rest;
      assert Percent(bs) + rest == head + tail;
      PercentHead(bs[0], tail);
      PercentRoundTrip(bs[1..], rest);
      assert bs == [bs[0]] + bs[1..];
    } else {
      assert Percent(bs) + rest == rest;
    }
  }

  /** Decoding the percent-encoding of a string gives back its UTF-8 bytes. */
  lemma {:induction false} EncodeUriComponentDecodes(s: string)
    ensures PercentDecode(EncodeUriComponent(s)) == Utf8Bytes(s)
  {
    if s != [] {
      EncodeUriComponentDecodes(s[1..]);
      var rest := EncodeUriComponent(s[1..]);
      if Unreserved(s[0]) {
        assert ([s[0]] + rest)[1..] == rest;
      } else {
        PercentRoundTrip(Utf8(s[0]), rest);
      }
    }
  }

  /** The character of a six-bit value in the base64 alphabet `A-Z a-z 0-9 + /`. */
  function Sextet(n: nat): (c: char)
    requires n < 64
    ensures c != '='
  {
    if n < 26 then ('A' as int + n) as char
    else if n < 52 then ('a' as int + n - 26) as char
    else if n < 62 then ('0' as int + n - 52) as char
    else if n == 62 then '+'
    else '/'
  }

  /** The position of a character in the base64 alphabet (0 for any other character). */
  function SextetValue(c: char): (n: nat)
    ensures n < 64
  {
    if 'A' <= c <= 'Z' then c as int - 'A' as int
    else if 'a' <= c <= 'z' then c as int - 'a' as int + 26
    else if '0' <= c <= '9' then c as int - '0' as int + 52
    else if c == '+' then 62
    else if c == '/' then 63
    else 0
  }

  lemma SextetRoundTrip(n: nat)
    requires n < 64
    ensures SextetValue(Sextet(n)) == n
  {
  }

  /** The four six-bit parts of the three bytes `x`, `y`, `z`. */
  function First(x: Byte): (n: nat)
    ensures n < 64
  {
    x / 4
  }

  function Second(x: Byte, y: Byte): (n: nat)
    ensures n < 64
  {
    x % 4 * 16 + y / 16
  }

  function Third(y: Byte, z: Byte): (n: nat)
    ensures n < 64
  {
    y % 16 * 4 + z / 64
  }

  function Fourth(z: Byte): (n: nat)
    ensures n < 64
  {
    z % 64
  }

  /** Three bytes at a time as four characters; a final pair or single byte is padded with '='. */
  function Base64(bs: seq<Byte>): (r: string)
    ensures |r| == 4 * ((|bs| + 2) / 3)
    decreases |bs|
  {
    if |bs| == 0 then []
    else if |bs| == 1 then
      [Sextet(First(bs[0])), Sextet(Second(bs[0], 0)), '=', '=']
    else if |bs| == 2 then
      [Sextet(First(bs[0])), Sextet(Second(bs[0], bs[1])), Sextet(Third(bs[1], 0)), '=']
    else
      [Sextet(First(bs[0])), Sextet(Second(bs[0], bs[1])), Sextet(Third(bs[1], bs[2])), Sextet(Fourth(bs[2]))]
        + Base64(bs[3..])
  }

  /** The bytes of a base64 text: each group of four characters, '=' marking the missing bytes. */
  function Base64Decode(t: string): seq<Byte>
    decreases |t|
  {
    if |t| < 4 then []
    else
      var a, b, c, d := SextetValue(t[0]), SextetValue(t[1]), SextetValue(t[2]), SextetValue(t[3]);
      var b0 := a * 4 + b / 16;
      var b1 := b % 16 * 16 + c / 4;
      var b2 := c % 4 * 64 + d;
      if t[2] == '=' then [b0]
      else if t[3] == '=' then [b0, b1]
      else [b0, b1, b2] + Base64Decode(t[4..])
  }

  /** The four parts of three bytes put back together give the bytes. */
  lemma GroupRoundTrip(x: Byte, y: Byte, z: Byte)
    ensures First(x) * 4 + Second(x, y) / 16 == x
    ensures Second(x, y) % 16 * 16 + Third(y, z) / 4 == y
    ensures Third(y, z) % 4 * 64 + Fourth(z) == z
  {
  }

  /** The bytes a group of four characters of `Base64` decodes to. */
  lemma GroupDecodes(x: Byte, y: Byte, z: Byte, rest: string)
    ensures var t := [Sextet(First(x)), Sextet(Second(x, y)), Sextet(Third(y, z)), Sextet(Fourth(z))] + rest;
      Base64Decode(t) == [x, y, z] + Base64Decode(rest)
  {
    var t := [Sextet(First(x)), Sextet(Second(x, y)), Sextet(Third(y, z)), Sextet(Fourth(z))] + rest;
    SextetRoundTrip(First(x));
    SextetRoundTrip(Second(x, y));
    SextetRoundTrip(Third(y, z));
    SextetRoundTrip(Fourth(z));
    GroupRoundTrip(x, y, z);
    assert t[4..] == rest;
  }

  /** Decoding the base64 of bytes gives back the bytes. */
  lemma {:induction false} Base64RoundTrip(bs: seq<Byte>)
    ensures Base64Decode(Base64(bs)) == bs
    decreases |bs|
  {
    if |bs| == 1 {
      SextetRoundTrip(First(bs[0]));
      SextetRoundTrip(Second(bs[0], 0));
      GroupRoundTrip(bs[0], 0, 0);
    } else if |bs| == 2 {
      SextetRoundTrip(First(bs[0]));
      SextetRoundTrip(Second(bs[0], bs[1]));
      SextetRoundTrip(Third(bs[1], 0));
      GroupRoundTrip(bs[0], bs[1], 0);
    } else if |bs| >= 3 {
      GroupDecodes(bs[0], bs[1], bs[2], Base64(bs[3..]));
      Base64RoundTrip(bs[3..]);
      assert bs == [bs[0], bs[1], bs[2]] + bs[3..];
    }
  }

  /** Every code point of the string is at most 0xFF. */
  predicate IsLatin1(s: string) {
    forall k :: 0 <= k < |s| ==> s[k] as int < 256
  }

  /** The code points of a string, as bytes, when none exceeds 0xFF. */
  function Latin1(s: string): (r: Option<seq<Byte>>)
    ensures r.Some? <==> IsLatin1(s)
    ensures r.Some? ==> |r.value| == |s| && forall k :: 0 <= k < |s| ==> r.value[k] == s[k] as int
  {
    if s == [] then Some([])
    else if s[0] as int >= 256 then None
    else
      match Latin1(s[1..])
      case None => None
      case Some(rest) => Some([s[0] as int] + rest)
  }

  /** `btoa`: the base64 of the string's code points, or a failure when one exceeds 0xFF. */
  function Btoa(s: string): (r: Option<string>)
    ensures r.None? <==> !IsLatin1(s)
    ensures r.Some? ==> |r.value| == 4 * ((|s| + 2) / 3)
  {
    match Latin1(s)
    case None => None
    case Some(bs) => Some(Base64(bs))
  }

  /** `atob(btoa(s)) == s`: the encoded text decodes to the string's code points. */
  lemma BtoaDecodes(s: string)
    requires Btoa(s).Some?
    ensures var bs := Base64Decode(Btoa(s).value);
      |bs| == |s| && forall k :: 0 <= k < |s| ==> bs[k] == s[k] as int
  {
    Base64RoundTrip(Latin1(s).value);
  }
}
