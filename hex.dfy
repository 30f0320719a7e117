/**
 * `crypto.randomBytes(20).toString('hex')`: the random bytes are an input; the encoding is
 * Node's lower-case hexadecimal, two digits per byte, high nibble first.
 */
module Hex {

  newtype byte = x: int | 0 <= x < 256

  /** Both random tokens of the system are made from 20 bytes. */
  const TokenBytes: nat := 20

  predicate IsLowerHexDigit(c: char) {
    '0' <= c <= '9' || 'a' <= c <= 'f'
  }

  predicate IsLowerHex(s: string) {
    forall i :: 0 <= i < |s| ==> IsLowerHexDigit(s[i])
  }

  /** A token as the handlers generate it: 40 lower-case hexadecimal characters. */
  predicate IsRandomToken(s: string) {
    |s| == 2 * TokenBytes && IsLowerHex(s)
  }

  function Digit(n: int): (c: char)
    requires 0 <= n < 16
    ensures IsLowerHexDigit(c) && ValueOf(c) == n
  {
    if n < 10 then ('0' as int + n) as char else ('a' as int + n - 10) as char
  }

  function ValueOf(c: char): (n: int)
    requires IsLowerHexDigit(c)
    ensures 0 <= n < 16
  {
    if c <= '9' then c as int - '0' as int else c as int - 'a' as int + 10
  }

  function Encode(bytes: seq<byte>): (s: string)
    ensures |s| == 2 * |bytes|
    ensures IsLowerHex(s)
  {
    if bytes == [] then []
    else [Digit(bytes[0] as int / 16), Digit(bytes[0] as int % 16)] + Encode(bytes[1..])
  }

  function Decode(s: string): (bytes: seq<byte>)
    requires |s| % 2 == 0 && IsLowerHex(s)
    ensures |bytes| == |s| / 2
  {
    if s == [] then []
    else [(ValueOf(s[0]) * 16 + ValueOf(s[1])) as byte] + Decode(s[2..])
  }

  /** Hex encoding loses nothing: the bytes can be read back from the token. */
  lemma {:induction false} DecodeEncode(bytes: seq<byte>)
    ensures Decode(Encode(bytes)) == bytes
  {
    if bytes != [] {
      var s := Encode(bytes);
      assert s[2..] == Encode(bytes[1..]);
      DecodeEncode(bytes[1..]);
      var b := bytes[0] as int;
      assert ValueOf(s[0]) * 16 + ValueOf(s[1]) == b / 16 * 16 + b % 16 == b;
    }
  }

  /** Different random bytes never give the same token. */
  lemma EncodeInjective(a: seq<byte>, b: seq<byte>)
    requires Encode(a) == Encode(b)
    ensures a == b
  {
    DecodeEncode(a);
    DecodeEncode(b);
  }

  /** The token a handler makes from its 20 random bytes. */
  function RandomToken(bytes: seq<byte>): (t: string)
    requires |bytes| == TokenBytes
    ensures IsRandomToken(t)
    ensures Decode(t) == bytes
  {
    DecodeEncode(bytes);
    Encode(bytes)
  }
}
