/** The byte sequences accepted as text are exactly the encodings of sequences of Unicode scalar values, as
    section 3 of RFC 3629 writes them. */
module Utf8Meaning {
  import opened Sequences
  import opened Varint
  import opened Utf8

  type Scalar = c: int | (0 <= c < 0xD800) || (0xE000 <= c < 0x11_0000)

  function EncodeScalar(c: Scalar): Bytes {
    if c < 0x80 then [c]
    else if c < 0x800 then [0xC0 + c / 64, 0x80 + c % 64]
    else if c < 0x1_0000 then [0xE0 + c / 4096, 0x80 + c / 64 % 64, 0x80 + c % 64]
    else [0xF0 + c / 262144, 0x80 + c / 4096 % 64, 0x80 + c / 64 % 64, 0x80 + c % 64]
  }

  function EncodeText(cs: seq<Scalar>): Bytes {
    if cs == [] then [] else EncodeScalar(cs[0]) + EncodeText(cs[1..])
  }

  /** The encoding of a scalar value is read as one character, whatever follows. */
  lemma ScalarIsChar(c: Scalar, rest: Bytes)
    ensures CharLength(EncodeScalar(c) + rest) == |EncodeScalar(c)| > 0
  {
    CharOfScalar(c);
    CharOfAppend(EncodeScalar(c), rest);
  }

  lemma CharOfScalar(c: Scalar)
    ensures CharLength(EncodeScalar(c)) == |EncodeScalar(c)|
  {
    var bs := EncodeScalar(c);
    if 0x800 <= c < 0x1_0000 {
      ThreeBytes(c);
    } else if c >= 0x1_0000 {
      FourBytes(c);
    }
  }

  /** The second byte is in the range that the first one allows: no shorter form and no surrogate. */
  lemma ThreeBytes(c: Scalar)
    requires 0x800 <= c < 0x1_0000
    ensures 0xE0 <= 0xE0 + c / 4096 <= 0xEF
    ensures ThirdLow(0xE0 + c / 4096) <= 0x80 + c / 64 % 64 <= ThirdHigh(0xE0 + c / 4096)
  {
    var q, r := c / 4096, c % 4096;
    assert c == 4096 * q + r && c / 64 == 64 * q + r / 64 && c / 64 % 64 == r / 64;
  }

  lemma FourBytes(c: Scalar)
    requires 0x1_0000 <= c
    ensures 0xF0 <= 0xF0 + c / 262144 <= 0xF4
    ensures FourthLow(0xF0 + c / 262144) <= 0x80 + c / 4096 % 64 <= FourthHigh(0xF0 + c / 262144)
  {
    var q, r := c / 262144, c % 262144;
    assert c == 262144 * q + r && c / 4096 == 64 * q + r / 4096 && c / 4096 % 64 == r / 4096;
  }

  /** And every character is the encoding of one. */
  lemma CharIsScalar(bs: Bytes) returns (c: Scalar)
    requires CharLength(bs) > 0
    ensures bs[..CharLength(bs)] == EncodeScalar(c)
  {
    var n := CharLength(bs);
    if n == 1 {
      c := bs[0];
    } else if n == 2 {
      assert In(bs, 1, 0x80, 0xBF);
      c := 64 * (bs[0] as int - 0xC0) + (bs[1] as int - 0x80);
    } else if n == 3 {
      assert In(bs, 1, 0x80, 0xBF) && In(bs, 2, 0x80, 0xBF);
      c := JoinThree(bs[0], bs[1], bs[2]);
    } else {
      assert In(bs, 1, 0x80, 0xBF) && In(bs, 2, 0x80, 0xBF) && In(bs, 3, 0x80, 0xBF);
      c := JoinFour(bs[0], bs[1], bs[2], bs[3]);
    }
  }

  lemma JoinThree(a: byte, b: byte, d: byte) returns (c: Scalar)
    requires 0xE0 <= a <= 0xEF && ThirdLow(a) <= b <= ThirdHigh(a) && 0x80 <= d <= 0xBF
    ensures EncodeScalar(c) == [a, b, d]
  {
    var n := 4096 * (a - 0xE0) + 64 * (b - 0x80) + (d - 0x80);
    assert n / 4096 == a - 0xE0 && n / 64 == 64 * (a - 0xE0) + (b - 0x80) && n % 64 == d - 0x80;
    assert n / 64 % 64 == b - 0x80;
    c := n;
  }

  lemma JoinFour(a: byte, b: byte, d: byte, e: byte) returns (c: Scalar)
    requires 0xF0 <= a <= 0xF4 && FourthLow(a) <= b <= FourthHigh(a) && 0x80 <= d <= 0xBF && 0x80 <= e <= 0xBF
    ensures EncodeScalar(c) == [a, b, d, e]
  {
    var n := 262144 * (a - 0xF0) + 4096 * (b - 0x80) + 64 * (d - 0x80) + (e - 0x80);
    assert n / 262144 == a - 0xF0 && n / 4096 == 64 * (a - 0xF0) + (b - 0x80);
    assert n / 64 == 4096 * (a - 0xF0) + 64 * (b - 0x80) + (d - 0x80) && n % 64 == e - 0x80;
    assert n / 4096 % 64 == b - 0x80 && n / 64 % 64 == d - 0x80;
    c := n;
  }

  lemma {:induction false} EncodedIsText(cs: seq<Scalar>)
    ensures IsText(EncodeText(cs))
  {
    if cs != [] {
      var rest := EncodeText(cs[1..]);
      EncodedIsText(cs[1..]);
      ScalarIsChar(cs[0], rest);
      CutAppend(EncodeScalar(cs[0]), rest);
    }
  }

  lemma {:induction false} TextIsEncoded(bs: Bytes) returns (cs: seq<Scalar>)
    requires IsText(bs)
    ensures EncodeText(cs) == bs
    decreases |bs|
  {
    cs := [];
    if bs != [] {
      var n := CharLength(bs);
      var c := CharIsScalar(bs);
      var rest := TextIsEncoded(bs[n..]);
      cs := [c] + rest;
      assert cs[1..] == rest && bs == bs[..n] + bs[n..];
    }
  }

  /** Text is exactly what encodes scalar values. */
  lemma TextExactly(bs: Bytes)
    ensures IsText(bs) <==> exists cs :: EncodeText(cs) == bs
  {
    if IsText(bs) {
      var cs := TextIsEncoded(bs);
    }
    if cs :| EncodeText(cs) == bs {
      EncodedIsText(cs);
    }
  }
}
