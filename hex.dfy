/** `Buffer.toString("hex")`: two lower-case hexadecimal digits per byte,
    high nibble first, and its inverse. */
module Hex {
  import opened Js

  newtype byte = x: int | 0 <= x < 256

  /** A lower-case hexadecimal digit. */
  predicate IsHexDigit(c: char) {
    '0' <= c <= '9' || 'a' <= c <= 'f'
  }

  predicate IsHexText(s: string) {
    forall i :: 0 <= i < |s| ==> IsHexDigit(s[i])
  }

  function HexDigit(d: nat): (c: char)
    requires d < 16
    ensures IsHexDigit(c)
  {
    if d < 10 then ('0' as int + d) as char else ('a' as int + d - 10) as char
  }

  function NibbleValue(c: char): (v: Option<nat>)
    ensures v.Some? <==> IsHexDigit(c)
    ensures v.Some? ==> v.value < 16 && HexDigit(v.value) == c
  {
    if '0' <= c <= '9' then Some((c as int - '0' as int) as nat)
    else if 'a' <= c <= 'f' then Some((c as int - 'a' as int + 10) as nat)
    else None
  }

  function ByteText(b: byte): string {
    [HexDigit(b as int / 16), HexDigit(b as int % 16)]
  }

  /** The hex text of a byte string: twice as long, all hex digits. */
  function Encode(bs: seq<byte>): (r: string)
    ensures |r| == 2 * |bs|
    ensures IsHexText(r)
    decreases |bs|
  {
    if bs == [] then "" else ByteText(bs[0]) + Encode(bs[1..])
  }

  /** Reads hex text back into bytes; odd length or a non-hex digit is an error. */
  function Decode(s: string): Option<seq<byte>>
    decreases |s|
  {
    if s == [] then Some([])
    else if |s| == 1 then None
    else match (NibbleValue(s[0]), NibbleValue(s[1]), Decode(s[2..]))
      case (Some(h), Some(l), Some(rest)) => Some([(h * 16 + l) as byte] + rest)
      case _ => None
  }

  lemma ByteTextDigits(b: byte)
    ensures NibbleValue(ByteText(b)[0]) == Some(b as int / 16)
    ensures NibbleValue(ByteText(b)[1]) == Some(b as int % 16)
  {
  }

  lemma DecodeAfterByte(b: byte, rest: string)
    ensures Decode(ByteText(b) + rest) ==
      match Decode(rest) case Some(r) => Some([b] + r) case None => None
  {
    var s := ByteText(b) + rest;
    ByteTextDigits(b);
    assert s[0] == ByteText(b)[0] && s[1] == ByteText(b)[1];
    assert s[2..] == rest;
    assert (b as int / 16 * 16 + b as int % 16) as byte == b;
  }

  lemma {:induction false} DecodeEncode(bs: seq<byte>)
    ensures Decode(Encode(bs)) == Some(bs)
    decreases |bs|
  {
    if bs != [] {
      DecodeEncode(bs[1..]);
      DecodeAfterByte(bs[0], Encode(bs[1..]));
      assert [bs[0]] + bs[1..] == bs;
    }
  }
}
