/** Lower-case hexadecimal encoding of bytes, as `encoding/hex.EncodeToString` does, and its decoder. */
module Hex {
  import opened Primitives

  predicate IsLowerHex(c: char) { '0' <= c <= '9' || 'a' <= c <= 'f' }

  function HexChar(d: nat): (c: char)
    requires d < 16
    ensures IsLowerHex(c)
  {
    if d < 10 then ('0' as int + d) as char else ('a' as int + d - 10) as char
  }

  /** The value of one hex digit; both letter cases are accepted, as `hex.DecodeString` does. */
  function NibbleValue(c: char): (r: Option<nat>)
    ensures r.Some? ==> r.value < 16
  {
    if '0' <= c <= '9' then Some(c as int - '0' as int)
    else if 'a' <= c <= 'f' then Some(c as int - 'a' as int + 10)
    else if 'A' <= c <= 'F' then Some(c as int - 'A' as int + 10)
    else None
  }

  /** Two lower-case hex digits per byte, high nibble first. */
  function Encode(bs: seq<byte>): (s: string)
    ensures |s| == 2 * |bs|
    ensures forall i :: 0 <= i < |s| ==> IsLowerHex(s[i])
    decreases |bs|
  {
    if bs == [] then "" else [HexChar(bs[0] as int / 16), HexChar(bs[0] as int % 16)] + Encode(bs[1..])
  }

  function Decode(s: string): Option<seq<byte>>
    decreases |s|
  {
    if |s| == 0 then Some([])
    else if |s| == 1 then None
    else
      match (NibbleValue(s[0]), NibbleValue(s[1]), Decode(s[2..]))
      case (Some(hi), Some(lo), Some(rest)) => Some([(hi * 16 + lo) as byte] + rest)
      case _ => None
  }

  lemma NibbleOfHexChar(d: nat)
    requires d < 16
    ensures NibbleValue(HexChar(d)) == Some(d)
  {
  }

  lemma {:induction false} DecodeEncode(bs: seq<byte>)
    ensures Decode(Encode(bs)) == Some(bs)
    decreases |bs|
  {
    if bs != [] {
      var b := bs[0] as int;
      var s := Encode(bs);
      assert s[2..] == Encode(bs[1..]);
      NibbleOfHexChar(b / 16);
      NibbleOfHexChar(b % 16);
      DecodeEncode(bs[1..]);
      assert (b / 16 * 16 + b % 16) as byte == bs[0];
      assert [bs[0]] + bs[1..] == bs;
    }
  }

  lemma EncodeInjective(a: seq<byte>, b: seq<byte>)
    ensures Encode(a) == Encode(b) ==> a == b
  {
    DecodeEncode(a);
    DecodeEncode(b);
  }
}
