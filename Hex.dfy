/** Go's `encoding/hex`: `EncodeToString` writes two lower-case digits per
    byte; `DecodeString` accepts either case and fails on an odd length or on
    any character that is not a hex digit. */
module Hex {
  import opened Common

  predicate IsHexDigit(c: char) {
    ('0' <= c <= '9') || ('a' <= c <= 'f') || ('A' <= c <= 'F')
  }

  predicate IsLowerHexDigit(c: char) {
    ('0' <= c <= '9') || ('a' <= c <= 'f')
  }

  function Digit(n: int): (c: char)
    requires 0 <= n < 16
    ensures IsLowerHexDigit(c)
  {
    if n < 10 then ('0' as int + n) as char else ('a' as int + n - 10) as char
  }

  function Nibble(c: char): (r: Option<int>)
    ensures r.Some? <==> IsHexDigit(c)
    ensures r.Some? ==> 0 <= r.value < 16
  {
    if '0' <= c <= '9' then Some(c as int - '0' as int)
    else if 'a' <= c <= 'f' then Some(c as int - 'a' as int + 10)
    else if 'A' <= c <= 'F' then Some(c as int - 'A' as int + 10)
    else None
  }

  /** `hex.EncodeToString`. */
  function Encode(bs: seq<Byte>): (s: string)
    ensures |s| == 2 * |bs|
    ensures forall i | 0 <= i < |s| :: IsLowerHexDigit(s[i])
    ensures SpaceFree(s)
    decreases |bs|
  {
    if bs == [] then "" else [Digit(bs[0] / 16), Digit(bs[0] % 16)] + Encode(bs[1..])
  }

  /** `hex.DecodeString`: None stands for the error it returns. */
  function Decode(s: string): (r: Option<seq<Byte>>)
    ensures r.Some? <==> |s| % 2 == 0 && forall i | 0 <= i < |s| :: IsHexDigit(s[i])
    ensures r.Some? ==> 2 * |r.value| == |s|
    decreases |s|
  {
    if s == [] then Some([])
    else if |s| == 1 then None
    else
      match (Nibble(s[0]), Nibble(s[1]), Decode(s[2..]))
      case (Some(hi), Some(lo), Some(rest)) => Some([hi * 16 + lo] + rest)
      case _ => None
  }

  /** What `saveCursorState` writes, `getStartPoints` reads back unchanged. */
  lemma {:induction false} DecodeEncode(bs: seq<Byte>)
    ensures Decode(Encode(bs)) == Some(bs)
    decreases |bs|
  {
    if bs != [] {
      var s := Encode(bs);
      assert s[2..] == Encode(bs[1..]);
      DecodeEncode(bs[1..]);
      assert [bs[0]] + bs[1..] == bs;
    }
  }
}
