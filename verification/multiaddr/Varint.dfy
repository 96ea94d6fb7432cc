/** Unsigned variable-length integers: seven bits a byte, least significant group first, the high
    bit set on all bytes but the last, and no longer than necessary. */
module Varint {

  type byte = x: int | 0 <= x < 256

  type Bytes = seq<byte>

  datatype Varint = Insufficient | NotMinimal | Number(value: nat, rest: Bytes)

  function Encode(n: nat): (bs: Bytes)
    ensures bs != []
  {
    if n < 128 then [n] else [128 + n % 128] + Encode(n / 128)
  }

  /** The number at the front of the input, and what follows it. */
  function Decode(bs: Bytes): (v: Varint)
    ensures v.Number? ==> |v.rest| < |bs|
  {
    if bs == [] then Insufficient
    else if bs[0] < 128 then Number(bs[0], bs[1..])
    else
      match Decode(bs[1..])
      case Number(n, rest) => if n == 0 then NotMinimal else Number(bs[0] - 128 + 128 * n, rest)
      case error => error
  }

  lemma {:induction false} DecodeEncode(n: nat, rest: Bytes)
    ensures Decode(Encode(n) + rest) == Number(n, rest)
  {
    var bs := Encode(n) + rest;
    if n < 128 {
      assert bs[1..] == rest;
    } else {
      DecodeEncode(n / 128, rest);
      assert bs[1..] == Encode(n / 128) + rest;
    }
  }

  /** What decodes is the encoding of its number, so no number has two. */
  lemma {:induction false} EncodeDecode(bs: Bytes)
    ensures Decode(bs).Number? ==> bs == Encode(Decode(bs).value) + Decode(bs).rest
  {
    if Decode(bs).Number? && bs[0] >= 128 {
      EncodeDecode(bs[1..]);
      var n := Decode(bs[1..]).value;
      var m := bs[0] - 128 + 128 * n;
      assert m / 128 == n && m % 128 == bs[0] - 128;
      assert bs == [bs[0]] + bs[1..];
    }
  }
}
