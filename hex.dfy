/** PHP's `bin2hex`: lowercase base16 (section 8 of RFC 4648), two digits
    per byte, high nibble first, with `hex2bin` as its inverse. */
module Hex {
  import opened Wrappers

  newtype byte = x: int | 0 <= x < 256

  const HexDigits: string := "0123456789abcdef"

  /** A lowercase hexadecimal digit. */
  predicate IsLowerHexChar(c: char) {
    ('0' <= c <= '9') || ('a' <= c <= 'f')
  }

  predicate IsLowerHex(s: string) {
    forall k :: 0 <= k < |s| ==> IsLowerHexChar(s[k])
  }

  function NibbleChar(n: nat): (c: char)
    requires n < 16
    ensures IsLowerHexChar(c)
  {
    HexDigits[n]
  }

  function CharNibble(c: char): (r: Option<nat>)
    ensures r.Some? <==> IsLowerHexChar(c)
    ensures r.Some? ==> r.value < 16
  {
    if '0' <= c <= '9' then Some(c as int - '0' as int)
    else if 'a' <= c <= 'f' then Some(c as int - 'a' as int + 10)
    else None
  }

  lemma NibbleRoundTrip(n: nat)
    requires n < 16
    ensures CharNibble(NibbleChar(n)) == Some(n)
  {
  }

  /** `bin2hex($bytes)` */
  function Bin2Hex(bytes: seq<byte>): (r: string)
    ensures |r| == 2 * |bytes|
    ensures IsLowerHex(r)
  {
    if bytes == [] then ""
    else [NibbleChar(bytes[0] as int / 16), NibbleChar(bytes[0] as int % 16)] + Bin2Hex(bytes[1..])
  }

  /** `hex2bin($s)` on lowercase input; `None` for odd length or a non-digit. */
  function Hex2Bin(s: string): Option<seq<byte>>
    decreases |s|
  {
    if s == [] then Some([])
    else if |s| == 1 then None
    else match (CharNibble(s[0]), CharNibble(s[1]), Hex2Bin(s[2..]))
      case (Some(hi), Some(lo), Some(rest)) => Some([(hi * 16 + lo) as byte] + rest)
      case _ => None
  }

  /** Decoding the hex form of a byte string gives the bytes back, so the
      encoding loses nothing and distinct byte strings get distinct keys. */
  lemma {:induction false} Bin2HexRoundTrip(bytes: seq<byte>)
    ensures Hex2Bin(Bin2Hex(bytes)) == Some(bytes)
  {
    if bytes != [] {
      var b := bytes[0] as int;
      var hi, lo := b / 16, b % 16;
      NibbleRoundTrip(hi);
      NibbleRoundTrip(lo);
      Bin2HexRoundTrip(bytes[1..]);
      var s := Bin2Hex(bytes);
      assert s[0] == NibbleChar(hi) && s[1] == NibbleChar(lo);
      assert s[2..] == Bin2Hex(bytes[1..]);
      assert (hi * 16 + lo) as byte == bytes[0] by { ByteSplit(b); }
      assert [bytes[0]] + bytes[1..] == bytes;
    }
  }

  lemma ByteSplit(b: int)
    requires 0 <= b < 256
    ensures b / 16 * 16 + b % 16 == b
  {
  }

  lemma Bin2HexInjective(a: seq<byte>, b: seq<byte>)
    requires Bin2Hex(a) == Bin2Hex(b)
    ensures a == b
  {
    Bin2HexRoundTrip(a);
    Bin2HexRoundTrip(b);
  }
}
